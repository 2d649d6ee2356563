/**
 * reply.py: the mention-handling pipeline of `ReplyBot`.
 *
 * The outside world (the Pleroma server, the reply-text generator and the
 * clock) is the class `Client`: it answers from a `World` of scripted
 * answers, indexed by how many calls of each kind came before, and it
 * appends every effect to a trace of `Action`s. The functions `ProcessSpec`,
 * `CommandSpec`, `ReplySpec` and `RunSpec` say which trace one notification
 * (or a stream of them) produces; the methods of `ReplyBot` are proved to
 * produce exactly that trace, and the lemmas state what the trace looks like.
 */
module ReplyService {
  import opened Wrappers
  import opened ReplyText
  import opened Sequences

  /** An ancestor of the notifying status, oldest first. */
  datatype Post = Post(id: string, accountId: string)

  datatype Status = Status(id: string, content: string, inReplyToId: Option<string>)

  /** A mention notification: who mentioned the bot, and in which status. */
  datatype Notification = Notification(accountId: string, status: Status)

  /** Answer of `status_context`: the thread, a `BadResponse`, or any other exception. */
  datatype FetchResult = Context(ancestors: seq<Post>) | BadResponse | OtherError

  /** Answer of `pin` / `unpin`. */
  datatype PinResult = Pinned | BadRequest(message: string)

  const Cross := "\U{274C}"
  const Check := "\U{2705}"

  /** One effect on the outside world. */
  datatype Action =
    | Fetch(postId: string)                                   // status_context
    | Sleep(seconds: nat)                                     // anyio.sleep
    | React(postId: string, glyph: string)
    | Pin(postId: string)
    | Unpin(postId: string)
    | Reply(status: Status, text: string, cw: Option<string>)
    | Concurrently(tasks: set<Action>)                        // started together, no order between them

  datatype Error =
    | ContextFetchFailed   // an exception other than BadResponse from status_context
    | UnboundTarget        // no ancestor matched: `target_post_id` is unbound

  /** How processing ended: normally, by giving up after retries, or by an exception. */
  datatype Outcome = Handled | GaveUp | Raised(error: Error)

  /** The configuration keys the pipeline reads. */
  datatype Config = Config(maxThreadLength: int, stripPairedPunctuation: bool, cw: Option<string>)

  /** Functions of third_party.utils and the undefined PAIRED_PUNCTUATION, left uninterpreted. */
  datatype Collaborators = Collaborators(
    extractPostContent: string -> string,
    stripPairedPunctuation: string -> string,
    removeMentions: string -> string)

  /**
   * Scripted answers of the outside world: `context(k)` answers the k-th
   * `status_context` call, `pin(k)` the k-th `pin` or `unpin` call, `post(k)`
   * is the text of the k-th `make_post`.
   */
  datatype World = World(
    ownId: string,
    following: string -> set<string>,
    context: nat -> FetchResult,
    pin: nat -> PinResult,
    post: nat -> string)

  /** How many calls of each scripted kind were made so far. */
  datatype Calls = Calls(context: nat, pin: nat, post: nat)

  /** The session state set once by `run`. */
  datatype Session = Session(me: string, follows: set<string>)

  /** The result of processing: outcome, effects in order, and the call counts afterwards. */
  datatype Step = Step(outcome: Outcome, actions: seq<Action>, calls: Calls)

  function Pow2(n: nat): (r: nat)
    ensures r >= 1
  {
    if n == 0 then 1 else 2 * Pow2(n - 1)
  }

  // ---------------------------------------------------------------------------
  // Thread gate

  /** Number of posts in `ancestors` written by `me`. */
  function OwnPosts(ancestors: seq<Post>, me: string): (n: nat)
    ensures n <= |ancestors|
  {
    if ancestors == [] then 0
    else OwnPosts(ancestors[..|ancestors| - 1], me) + (if ancestors[|ancestors| - 1].accountId == me then 1 else 0)
  }

  /** A longer prefix never holds fewer of the bot's posts. */
  lemma {:induction false} OwnPostsMonotone(ancestors: seq<Post>, me: string, i: nat, j: nat)
    requires i <= j <= |ancestors|
    ensures OwnPosts(ancestors[..i], me) <= OwnPosts(ancestors[..j], me)
  {
    if i < j {
      OwnPostsMonotone(ancestors, me, i, j - 1);
      assert ancestors[..j][..j - 1] == ancestors[..j - 1];
    }
  }

  /**
   * The thread is too long when some prefix of the ancestors already holds
   * `maxLength` of the bot's posts; since the count only grows, that is the
   * whole list holding that many, and an empty list is never too long.
   */
  predicate ThreadTooLong(ancestors: seq<Post>, me: string, maxLength: int)
  {
    |ancestors| > 0 && OwnPosts(ancestors, me) >= maxLength
  }

  // ---------------------------------------------------------------------------
  // Command target

  /** The target of a command: the last ancestor whose id is the `in_reply_to_id`. */
  function Target(ancestors: seq<Post>, inReplyTo: Option<string>): (t: Option<string>)
    ensures t.Some? <==> inReplyTo.Some? && exists i | 0 <= i < |ancestors| :: ancestors[i].id == inReplyTo.value
    ensures t.Some? ==> t == inReplyTo
  {
    if ancestors == [] then None
    else
      var last := ancestors[|ancestors| - 1];
      var earlier := ancestors[..|ancestors| - 1];
      if inReplyTo == Some(last.id) then Some(last.id)
      else
        var t := Target(earlier, inReplyTo);
        assert forall i | 0 <= i < |earlier| :: earlier[i] == ancestors[i];
        t
  }

  // ---------------------------------------------------------------------------
  // The pipeline, as functions of the session, the notification and the world

  /** `reply`: generate, optionally strip paired punctuation, rewrite '@', remove mentions, post. */
  function ReplySpec(cfg: Config, co: Collaborators, w: World, calls: Calls, n: Notification): Step
  {
    var toot := w.post(calls.post);
    var stripped := if cfg.stripPairedPunctuation then co.stripPairedPunctuation(toot) else toot;
    var text := co.removeMentions(Sanitize(stripped));
    Step(Handled, [Reply(n.status, text, cfg.cw)], calls.(post := calls.post + 1))
  }

  /** `process_command`: authorise, find the target, pin or unpin, acknowledge. */
  function CommandSpec(s: Session, w: World, calls: Calls, ancestors: seq<Post>, n: Notification, command: string): Step
  {
    var postId := n.status.id;
    if n.accountId !in s.follows then Step(Handled, [React(postId, Cross)], calls)
    else match Target(ancestors, n.status.inReplyToId)
      case None => Step(Raised(UnboundTarget), [], calls)
      case Some(t) =>
        var call := if command == "pin" then Pin(t) else Unpin(t);
        var after := calls.(pin := calls.pin + 1);
        match w.pin(calls.pin)
        case Pinned => Step(Handled, [call, React(postId, Check)], after)
        case BadRequest(msg) =>
          Step(Handled, [call, Concurrently({React(postId, Cross), Reply(n.status, "Error: " + msg, None)})], after)
  }

  /** The text the pipeline classifies. */
  function CommandText(co: Collaborators, n: Notification): string
  {
    ExtractToot(co.extractPostContent(n.status.content))
  }

  /** Where the fetch with retries ends: with the thread, or with the whole processing of the notification. */
  datatype Fetched =
    | Thread(actions: seq<Action>, calls: Calls, ancestors: seq<Post>)
    | Stopped(step: Step)

  /** `pre` happened before `f`. */
  function Prefixed(pre: seq<Action>, f: Fetched): (r: Fetched)
    ensures r.Thread? == f.Thread?
  {
    match f
    case Thread(actions, calls, ancestors) => Thread(pre + actions, calls, ancestors)
    case Stopped(step) => Stopped(step.(actions := pre + step.actions))
  }

  /**
   * The `status_context` call of `process_notification` with the given
   * `retry_count`, and its `BadResponse` handler: back off for 2^retry
   * seconds and start over, or give up at the third failure.
   */
  function FetchSpec(w: World, calls: Calls, n: Notification, retryCount: nat): Fetched
    decreases 3 - retryCount
  {
    var postId := n.status.id;
    var retry := retryCount + 1;
    var fetched := calls.(context := calls.context + 1);
    match w.context(calls.context)
    case BadResponse =>
      if retry < 3 then Prefixed([Fetch(postId), Sleep(Pow2(retry))], FetchSpec(w, fetched, n, retry))
      else Stopped(Step(GaveUp, [Fetch(postId)], fetched))
    case OtherError => Stopped(Step(Raised(ContextFetchFailed), [Fetch(postId)], fetched))
    case Context(ancestors) => Thread([Fetch(postId)], fetched, ancestors)
  }

  /** `process_notification` with the given `retry_count`: the fetch, then `Dispatch` on the thread. */
  function ProcessSpec(s: Session, cfg: Config, co: Collaborators, w: World, calls: Calls, n: Notification, retryCount: nat): Step
  {
    match FetchSpec(w, calls, n, retryCount)
    case Stopped(step) => step
    case Thread(pre, after, ancestors) =>
      var rest := Dispatch(s, cfg, co, w, after, n, ancestors);
      Step(rest.outcome, pre + rest.actions, rest.calls)
  }

  /** A fetched thread: the fetch, then what `Dispatch` does with the thread. */
  lemma ContextUnfolds(s: Session, cfg: Config, co: Collaborators, w: World, calls: Calls, n: Notification, retryCount: nat)
    requires w.context(calls.context).Context?
    ensures var rest := Dispatch(s, cfg, co, w, calls.(context := calls.context + 1), n, w.context(calls.context).ancestors);
      ProcessSpec(s, cfg, co, w, calls, n, retryCount) == Step(rest.outcome, [Fetch(n.status.id)] + rest.actions, rest.calls)
  {
  }

  /** A `BadResponse` before the third attempt: a fetch, a sleep of 2^retry, then the next attempt. */
  lemma RetryUnfolds(s: Session, cfg: Config, co: Collaborators, w: World, calls: Calls, n: Notification, retryCount: nat)
    requires w.context(calls.context) == BadResponse && retryCount + 1 < 3
    ensures var rest := ProcessSpec(s, cfg, co, w, calls.(context := calls.context + 1), n, retryCount + 1);
      ProcessSpec(s, cfg, co, w, calls, n, retryCount)
        == Step(rest.outcome, [Fetch(n.status.id), Sleep(Pow2(retryCount + 1))] + rest.actions, rest.calls)
  {
    var pre := [Fetch(n.status.id), Sleep(Pow2(retryCount + 1))];
    match FetchSpec(w, calls.(context := calls.context + 1), n, retryCount + 1)
    case Stopped(step) =>
    case Thread(actions, after, ancestors) =>
      AppendAssoc(pre, actions, Dispatch(s, cfg, co, w, after, n, ancestors).actions);
  }

  /** What follows a successful fetch: the thread gate, then the command or the reply path. */
  function Dispatch(s: Session, cfg: Config, co: Collaborators, w: World, calls: Calls, n: Notification, ancestors: seq<Post>): Step
  {
    if ThreadTooLong(ancestors, s.me, cfg.maxThreadLength) then Step(Handled, [], calls)
    else
      var content := CommandText(co, n);
      if IsCommand(content) then CommandSpec(s, w, calls, ancestors, n, content)
      else ReplySpec(cfg, co, w, calls, n)
  }

  /**
   * `run`'s loop over a finite stream: every notification in order, until
   * an exception escapes from one of them.
   */
  function RunSpec(s: Session, cfg: Config, co: Collaborators, w: World, calls: Calls, stream: seq<Notification>): Step
    decreases |stream|
  {
    if stream == [] then Step(Handled, [], calls)
    else
      var before := RunSpec(s, cfg, co, w, calls, stream[..|stream| - 1]);
      if before.outcome.Raised? then before
      else
        var last := ProcessSpec(s, cfg, co, w, before.calls, stream[|stream| - 1], 0);
        Step(if last.outcome.Raised? then last.outcome else Handled, before.actions + last.actions, last.calls)
  }

  /** One more notification of the stream, processed after the ones before it. */
  lemma RunSpecExtend(s: Session, cfg: Config, co: Collaborators, w: World, calls: Calls, stream: seq<Notification>, i: nat)
    requires i < |stream| && !RunSpec(s, cfg, co, w, calls, stream[..i]).outcome.Raised?
    ensures var sofar := RunSpec(s, cfg, co, w, calls, stream[..i]);
      var last := ProcessSpec(s, cfg, co, w, sofar.calls, stream[i], 0);
      RunSpec(s, cfg, co, w, calls, stream[..i + 1])
        == Step(if last.outcome.Raised? then last.outcome else Handled, sofar.actions + last.actions, last.calls)
  {
    assert stream[..i + 1][..i] == stream[..i];
  }

  /** Once an exception has escaped, later notifications are never processed. */
  lemma {:induction false} RunSpecStops(s: Session, cfg: Config, co: Collaborators, w: World, calls: Calls, stream: seq<Notification>, i: nat)
    requires i <= |stream| && RunSpec(s, cfg, co, w, calls, stream[..i]).outcome.Raised?
    ensures RunSpec(s, cfg, co, w, calls, stream) == RunSpec(s, cfg, co, w, calls, stream[..i])
    decreases |stream| - i
  {
    if i < |stream| {
      assert stream[..i + 1][..i] == stream[..i];
      RunSpecStops(s, cfg, co, w, calls, stream, i + 1);
    } else {
      assert stream[..i] == stream;
    }
  }

  // ---------------------------------------------------------------------------
  // Properties of the pipeline

  /** Three `BadResponse`s in a row: three fetches, sleeps of 2 then 4, and nothing else. */
  lemma GivesUpAfterThreeBadResponses(s: Session, cfg: Config, co: Collaborators, w: World, calls: Calls, n: Notification)
    requires w.context(calls.context) == BadResponse
    requires w.context(calls.context + 1) == BadResponse
    requires w.context(calls.context + 2) == BadResponse
    ensures var id := n.status.id;
      ProcessSpec(s, cfg, co, w, calls, n, 0)
        == Step(GaveUp, [Fetch(id), Sleep(2), Fetch(id), Sleep(4), Fetch(id)], calls.(context := calls.context + 3))
  {
    var c, id := calls.context, n.status.id;
    assert Pow2(2) == 4 && Pow2(1) == 2;
    var gaveUp := calls.(context := c + 3);
    assert FetchSpec(w, calls.(context := c + 2), n, 2) == Stopped(Step(GaveUp, [Fetch(id)], gaveUp));
    assert FetchSpec(w, calls.(context := c + 1), n, 1) == Stopped(Step(GaveUp, [Fetch(id), Sleep(4)] + [Fetch(id)], gaveUp));
    assert FetchSpec(w, calls, n, 0)
      == Stopped(Step(GaveUp, [Fetch(id), Sleep(2)] + ([Fetch(id), Sleep(4)] + [Fetch(id)]), gaveUp));
  }

  /** Effects of the command and reply paths: never a fetch or a sleep. */
  predicate NoRetryActions(actions: seq<Action>)
  {
    forall i | 0 <= i < |actions| :: !actions[i].Fetch? && !actions[i].Sleep?
  }

  /** Once the thread is fetched, neither the command nor the reply path fetches or sleeps. */
  lemma DispatchHasNoRetryActions(s: Session, cfg: Config, co: Collaborators, w: World, calls: Calls, n: Notification, ancestors: seq<Post>)
    ensures NoRetryActions(Dispatch(s, cfg, co, w, calls, n, ancestors).actions)
  {
  }

  /** A `BadResponse` and then a thread: two fetches, one sleep of 2, and no further fetch or sleep. */
  lemma SecondAttemptSucceeds(s: Session, cfg: Config, co: Collaborators, w: World, calls: Calls, n: Notification)
    requires w.context(calls.context) == BadResponse
    requires w.context(calls.context + 1).Context?
    ensures var id, st := n.status.id, ProcessSpec(s, cfg, co, w, calls, n, 0);
      |st.actions| >= 3 && st.actions[..3] == [Fetch(id), Sleep(2), Fetch(id)] && NoRetryActions(st.actions[3..])
  {
    var c, id := calls.context, n.status.id;
    var after, ancestors := calls.(context := c + 2), w.context(c + 1).ancestors;
    assert Pow2(1) == 2;
    assert FetchSpec(w, calls, n, 0) == Thread([Fetch(id), Sleep(2)] + [Fetch(id)], after, ancestors);
    var rest := Dispatch(s, cfg, co, w, after, n, ancestors);
    DispatchHasNoRetryActions(s, cfg, co, w, after, n, ancestors);
    var st := ProcessSpec(s, cfg, co, w, calls, n, 0);
    assert st.actions == ([Fetch(id), Sleep(2)] + [Fetch(id)]) + rest.actions;
    assert st.actions[3..] == rest.actions;
  }

  /** A thread that is too long: the one fetch, and no reaction, pin, unpin or reply. */
  lemma LongThreadIsDropped(s: Session, cfg: Config, co: Collaborators, w: World, calls: Calls, n: Notification, retryCount: nat)
    requires w.context(calls.context).Context?
    requires ThreadTooLong(w.context(calls.context).ancestors, s.me, cfg.maxThreadLength)
    ensures ProcessSpec(s, cfg, co, w, calls, n, retryCount)
      == Step(Handled, [Fetch(n.status.id)], calls.(context := calls.context + 1))
  {
  }

  /** The fetch succeeded and the thread gate let the notification through. */
  predicate Passes(s: Session, cfg: Config, w: World, calls: Calls)
  {
    w.context(calls.context).Context? &&
    !ThreadTooLong(w.context(calls.context).ancestors, s.me, cfg.maxThreadLength)
  }

  /**
   * Text other than exactly "pin" or "unpin" is answered by one generated
   * reply to the triggering status with the configured content warning, and
   * no reaction, pin or unpin; a command never posts such a reply.
   */
  lemma CommandPathExactlyForCommands(s: Session, cfg: Config, co: Collaborators, w: World, calls: Calls, n: Notification)
    requires Passes(s, cfg, w, calls)
    ensures var st := ProcessSpec(s, cfg, co, w, calls, n, 0);
      (!IsCommand(CommandText(co, n)) ==>
        st.outcome == Handled && |st.actions| == 2 && st.actions[0] == Fetch(n.status.id) &&
        st.actions[1].Reply? && st.actions[1].status == n.status && st.actions[1].cw == cfg.cw) &&
      (IsCommand(CommandText(co, n)) ==>
        forall i | 0 <= i < |st.actions| :: !st.actions[i].Reply? && !st.actions[i].Sleep?)
  {
  }

  /** A command from an account the bot does not follow: one failure reaction and nothing else. */
  lemma UnauthorizedCommandRejected(s: Session, cfg: Config, co: Collaborators, w: World, calls: Calls, n: Notification)
    requires Passes(s, cfg, w, calls)
    requires IsCommand(CommandText(co, n)) && n.accountId !in s.follows
    ensures ProcessSpec(s, cfg, co, w, calls, n, 0)
      == Step(Handled, [Fetch(n.status.id), React(n.status.id, Cross)], calls.(context := calls.context + 1))
  {
  }

  /**
   * An authorised command pins ("pin") or unpins (otherwise) the status it
   * replies to, when that status is among the ancestors; success is
   * acknowledged with one success reaction, a `BadRequest` with a failure
   * reaction and an error reply started together.
   */
  lemma AuthorizedCommandActs(s: Session, cfg: Config, co: Collaborators, w: World, calls: Calls, n: Notification)
    requires Passes(s, cfg, w, calls)
    requires IsCommand(CommandText(co, n)) && n.accountId in s.follows
    requires var ancestors := w.context(calls.context).ancestors;
      n.status.inReplyToId.Some? && exists i | 0 <= i < |ancestors| :: ancestors[i].id == n.status.inReplyToId.value
    ensures var st, t, id := ProcessSpec(s, cfg, co, w, calls, n, 0), n.status.inReplyToId.value, n.status.id;
      var call := if CommandText(co, n) == "pin" then Pin(t) else Unpin(t);
      st.outcome == Handled &&
      st.calls == Calls(calls.context + 1, calls.pin + 1, calls.post) &&
      (w.pin(calls.pin) == Pinned ==> st.actions == [Fetch(id), call, React(id, Check)]) &&
      (w.pin(calls.pin).BadRequest? ==>
        st.actions == [Fetch(id), call,
          Concurrently({React(id, Cross), Reply(n.status, "Error: " + w.pin(calls.pin).message, None)})])
  {
  }

  /** An authorised command whose target is not among the ancestors fails before any pin or unpin. */
  lemma MissingTargetRaises(s: Session, cfg: Config, co: Collaborators, w: World, calls: Calls, n: Notification)
    requires Passes(s, cfg, w, calls)
    requires IsCommand(CommandText(co, n)) && n.accountId in s.follows
    requires var ancestors := w.context(calls.context).ancestors;
      !(n.status.inReplyToId.Some? && exists i | 0 <= i < |ancestors| :: ancestors[i].id == n.status.inReplyToId.value)
    ensures ProcessSpec(s, cfg, co, w, calls, n, 0)
      == Step(Raised(UnboundTarget), [Fetch(n.status.id)], calls.(context := calls.context + 1))
  {
  }

  // ---------------------------------------------------------------------------
  // The imperative model

  /**
   * The bot's boundary with the outside world: the Pleroma client, the reply
   * generator and the clock. Answers come from `world`; effects go to `trace`.
   */
  class Client {
    const world: World
    var calls: Calls
    var trace: seq<Action>

    constructor (world: World)
      ensures this.world == world && calls == Calls(0, 0, 0) && trace == []
    {
      this.world := world;
      calls := Calls(0, 0, 0);
      trace := [];
    }

    /** `me()['id']` */
    method Me() returns (id: string)
      ensures id == world.ownId
    {
      id := world.ownId;
    }

    /** The ids of `following(id)`. */
    method Following(id: string) returns (ids: set<string>)
      ensures ids == world.following(id)
    {
      ids := world.following(id);
    }

    method StatusContext(postId: string) returns (r: FetchResult)
      modifies this
      ensures r == world.context(old(calls).context)
      ensures calls == old(calls).(context := old(calls).context + 1)
      ensures trace == old(trace) + [Fetch(postId)]
    {
      r := world.context(calls.context);
      calls := calls.(context := calls.context + 1);
      trace := trace + [Fetch(postId)];
    }

    method Sleep(seconds: nat)
      modifies this
      ensures calls == old(calls) && trace == old(trace) + [Action.Sleep(seconds)]
    {
      trace := trace + [Action.Sleep(seconds)];
    }

    method React(postId: string, glyph: string)
      modifies this
      ensures calls == old(calls) && trace == old(trace) + [Action.React(postId, glyph)]
    {
      trace := trace + [Action.React(postId, glyph)];
    }

    method Pin(postId: string) returns (r: PinResult)
      modifies this
      ensures r == world.pin(old(calls).pin)
      ensures calls == old(calls).(pin := old(calls).pin + 1)
      ensures trace == old(trace) + [Action.Pin(postId)]
    {
      r := world.pin(calls.pin);
      calls := calls.(pin := calls.pin + 1);
      trace := trace + [Action.Pin(postId)];
    }

    method Unpin(postId: string) returns (r: PinResult)
      modifies this
      ensures r == world.pin(old(calls).pin)
      ensures calls == old(calls).(pin := old(calls).pin + 1)
      ensures trace == old(trace) + [Action.Unpin(postId)]
    {
      r := world.pin(calls.pin);
      calls := calls.(pin := calls.pin + 1);
      trace := trace + [Action.Unpin(postId)];
    }

    method Reply(status: Status, text: string, cw: Option<string>)
      modifies this
      ensures calls == old(calls) && trace == old(trace) + [Action.Reply(status, text, cw)]
    {
      trace := trace + [Action.Reply(status, text, cw)];
    }

    /** A reaction and a reply started in one task group: recorded as an unordered pair. */
    method ReactAndReply(postId: string, glyph: string, status: Status, text: string)
      modifies this
      ensures calls == old(calls)
      ensures trace == old(trace) + [Concurrently({Action.React(postId, glyph), Action.Reply(status, text, None)})]
    {
      trace := trace + [Concurrently({Action.React(postId, glyph), Action.Reply(status, text, None)})];
    }

    /** `make_post(cfg)` of third_party.utils. */
    method MakePost() returns (toot: string)
      modifies this
      ensures toot == world.post(old(calls).post)
      ensures calls == old(calls).(post := old(calls).post + 1) && trace == old(trace)
    {
      toot := world.post(calls.post);
      calls := calls.(post := calls.post + 1);
    }
  }

  class ReplyBot {
    const cfg: Config
    const co: Collaborators
    const pleroma: Client
    var me: string
    var follows: set<string>

    constructor (cfg: Config, co: Collaborators, pleroma: Client)
      ensures this.cfg == cfg && this.co == co && this.pleroma == pleroma
    {
      this.cfg := cfg;
      this.co := co;
      this.pleroma := pleroma;
      me := "";
      follows := {};
    }

    /** `run`: set the session once, then process every notification of the stream in order. */
    method Run(stream: seq<Notification>) returns (outcome: Outcome)
      modifies this, pleroma
      ensures me == pleroma.world.ownId && follows == pleroma.world.following(me)
      ensures var st := RunSpec(Session(me, follows), cfg, co, pleroma.world, old(pleroma.calls), stream);
        outcome == st.outcome && pleroma.calls == st.calls && pleroma.trace == old(pleroma.trace) + st.actions
    {
      me := pleroma.Me();
      follows := pleroma.Following(me);
      outcome := ProcessMentions(stream);
    }

    /** The `async for` over the mention stream: one notification at a time, stopping at the first exception. */
    method ProcessMentions(stream: seq<Notification>) returns (outcome: Outcome)
      modifies pleroma
      ensures var st := RunSpec(Session(me, follows), cfg, co, pleroma.world, old(pleroma.calls), stream);
        outcome == st.outcome && pleroma.calls == st.calls && pleroma.trace == old(pleroma.trace) + st.actions
    {
      ghost var session := Session(me, follows);
      ghost var calls0, trace0 := pleroma.calls, pleroma.trace;
      outcome := Handled;
      var i := 0;
      while i < |stream|
        invariant 0 <= i <= |stream|
        invariant var sofar := RunSpec(session, cfg, co, pleroma.world, calls0, stream[..i]);
          sofar.outcome == Handled && outcome == Handled &&
          pleroma.calls == sofar.calls && pleroma.trace == trace0 + sofar.actions
      {
        ghost var sofar := RunSpec(session, cfg, co, pleroma.world, calls0, stream[..i]);
        ghost var last := ProcessSpec(session, cfg, co, pleroma.world, pleroma.calls, stream[i], 0);
        RunSpecExtend(session, cfg, co, pleroma.world, calls0, stream, i);
        ghost var before := pleroma.trace;
        outcome := ProcessNotification(stream[i], 0);
        assert pleroma.trace == before + last.actions;
        AppendAssoc(trace0, sofar.actions, last.actions);
        if outcome.Raised? {
          RunSpecStops(session, cfg, co, pleroma.world, calls0, stream, i + 1);
          return;
        }
        outcome := Handled;
        i := i + 1;
      }
      assert stream[..i] == stream;
    }

    /** `process_notification`: fetch the thread with retries, gate, then command or reply. */
    method ProcessNotification(n: Notification, retryCount: nat) returns (outcome: Outcome)
      modifies pleroma
      ensures var st := ProcessSpec(Session(me, follows), cfg, co, pleroma.world, old(pleroma.calls), n, retryCount);
        outcome == st.outcome && pleroma.calls == st.calls && pleroma.trace == old(pleroma.trace) + st.actions
      decreases 3 - retryCount
    {
      var postId := n.status.id;
      var retry := retryCount + 1;
      ghost var session, calls0 := Session(me, follows), pleroma.calls;
      ghost var trace0, calls1 := pleroma.trace, calls0.(context := calls0.context + 1);
      var context := pleroma.StatusContext(postId);
      ghost var trace1 := pleroma.trace;
      match context
      case BadResponse =>
        if retry < 3 {
          pleroma.Sleep(Pow2(retry));
          ghost var trace2 := pleroma.trace;
          AppendAssoc(trace0, [Fetch(postId)], [Action.Sleep(Pow2(retry))]);
          assert [Fetch(postId)] + [Action.Sleep(Pow2(retry))] == [Fetch(postId), Action.Sleep(Pow2(retry))];
          assert pleroma.calls == calls1;
          outcome := ProcessNotification(n, retry);
          assert Session(me, follows) == session;
          ghost var rest := ProcessSpec(session, cfg, co, pleroma.world, calls1, n, retry);
          assert pleroma.trace == trace2 + rest.actions;
          RetryUnfolds(session, cfg, co, pleroma.world, calls0, n, retryCount);
          AppendAssoc(trace0, [Fetch(postId), Action.Sleep(Pow2(retry))], rest.actions);
        } else {
          outcome := GaveUp;
        }
      case OtherError =>
        outcome := Raised(ContextFetchFailed);
      case Context(ancestors) =>
        ContextUnfolds(session, cfg, co, pleroma.world, calls0, n, retryCount);
        assert pleroma.calls == calls1;
        outcome := ProcessThread(ancestors, n);
        assert Session(me, follows) == session;
        ghost var rest := Dispatch(session, cfg, co, pleroma.world, calls1, n, ancestors);
        assert pleroma.trace == trace1 + rest.actions;
        AppendAssoc(trace0, [Fetch(postId)], rest.actions);
    }

    /** The rest of `process_notification` once the thread is fetched: the length gate, then a command or a reply. */
    method ProcessThread(ancestors: seq<Post>, n: Notification) returns (outcome: Outcome)
      modifies pleroma
      ensures var st := Dispatch(Session(me, follows), cfg, co, pleroma.world, old(pleroma.calls), n, ancestors);
        outcome == st.outcome && pleroma.calls == st.calls && pleroma.trace == old(pleroma.trace) + st.actions
    {
      var tooLong := CheckThreadLength(ancestors);
      if tooLong {
        return Handled;
      }
      var content := ExtractToot(co.extractPostContent(n.status.content));
      if IsCommand(content) {
        outcome := ProcessCommand(ancestors, n, content);
      } else {
        Reply(n);
        outcome := Handled;
      }
    }

    /** `check_thread_length` */
    method CheckThreadLength(ancestors: seq<Post>) returns (tooLong: bool)
      ensures tooLong <==> ThreadTooLong(ancestors, me, cfg.maxThreadLength)
    {
      var posts := 0;
      for i := 0 to |ancestors|
        invariant posts == OwnPosts(ancestors[..i], me)
        invariant i > 0 ==> posts < cfg.maxThreadLength
      {
        assert ancestors[..i + 1][..i] == ancestors[..i];
        if ancestors[i].accountId == me {
          posts := posts + 1;
        }
        if posts >= cfg.maxThreadLength {
          OwnPostsMonotone(ancestors, me, i + 1, |ancestors|);
          assert ancestors[..|ancestors|] == ancestors;
          return true;
        }
      }
      assert ancestors[..|ancestors|] == ancestors;
      return false;
    }

    /** `process_command` */
    method ProcessCommand(ancestors: seq<Post>, n: Notification, command: string) returns (outcome: Outcome)
      modifies pleroma
      ensures var st := CommandSpec(Session(me, follows), pleroma.world, old(pleroma.calls), ancestors, n, command);
        outcome == st.outcome && pleroma.calls == st.calls && pleroma.trace == old(pleroma.trace) + st.actions
    {
      var postId := n.status.id;
      if n.accountId !in follows {
        pleroma.React(postId, Cross);
        return Handled;
      }
      var target := FindTarget(ancestors, n.status.inReplyToId);
      if target.None? {
        return Raised(UnboundTarget);
      }
      var result;
      if command == "pin" {
        result := pleroma.Pin(target.value);
      } else {
        result := pleroma.Unpin(target.value);
      }
      outcome := Handled;
      match result
      case BadRequest(msg) =>
        pleroma.ReactAndReply(postId, Cross, n.status, "Error: " + msg);
      case Pinned =>
        pleroma.React(postId, Check);
    }

    /** `reply` */
    method Reply(n: Notification)
      modifies pleroma
      ensures var st := ReplySpec(cfg, co, pleroma.world, old(pleroma.calls), n);
        pleroma.calls == st.calls && pleroma.trace == old(pleroma.trace) + st.actions
    {
      var toot := pleroma.MakePost();
      if cfg.stripPairedPunctuation {
        toot := co.stripPairedPunctuation(toot);
      }
      toot := Sanitize(toot);
      toot := co.removeMentions(toot);
      pleroma.Reply(n.status, toot, cfg.cw);
    }
  }

  /** The loop of `process_command` that looks for the target among the ancestors. */
  method FindTarget(ancestors: seq<Post>, inReplyTo: Option<string>) returns (target: Option<string>)
    ensures target == Target(ancestors, inReplyTo)
  {
    target := None;
    for i := 0 to |ancestors|
      invariant target == Target(ancestors[..i], inReplyTo)
    {
      assert ancestors[..i + 1][..i] == ancestors[..i];
      if inReplyTo == Some(ancestors[i].id) {
        target := Some(ancestors[i].id);
      }
    }
    assert ancestors[..|ancestors|] == ancestors;
  }
}
