/**
 * utils.py: `removeprefix` and the rate-limit handling wrapped around each
 * outbox page request (`HandleRateLimits` / `_RateLimitContextManager`).
 */
module Utils {
  import opened Wrappers
  import opened Strings
  import opened Sequences

  /** `s.removeprefix(prefix)` (and its pre-3.9 fallback, which behaves the same). */
  function RemovePrefix(s: string, prefix: string): (r: string)
    ensures StartsWith(s, prefix) ==> prefix + r == s
    ensures !StartsWith(s, prefix) ==> r == s
    ensures |r| <= |s| && r == s[|s| - |r|..]
    ensures prefix == [] ==> r == s
  {
    if StartsWith(s, prefix) then s[|prefix|..] else s
  }

  // ---------------------------------------------------------------------------
  // Rate-limit re-request loop

  const RemainingHeader := "X-RateLimit-Remaining"
  const ResetHeader := "X-RateLimit-Reset"

  /** The positional and keyword arguments a request is issued with. */
  datatype RequestArgs = RequestArgs(args: seq<string>, kwargs: map<string, string>)

  /** A response of the underlying HTTP session; `id` tells responses apart. */
  datatype Response = Response(id: nat, headers: map<string, string>)

  /** What the context manager does to the HTTP session, in order. */
  datatype HttpEvent =
    | Request(args: RequestArgs)   // create the request context manager and enter it
    | WaitUntil(reset: string)     // sleep until the (normalised) reset time
    | Close(response: nat)         // exit the request context manager of that response

  datatype Entered =
    | Returned(response: Response) // `__aenter__` returns this response
    | MissingResetHeader           // KeyError on `headers['X-RateLimit-Reset']`
    | ScriptEnded                  // the modelled session has no further responses

  /** The header test of `_do_enter`: an absent header also passes. */
  predicate Acceptable(resp: Response)
  {
    !(RemainingHeader in resp.headers && resp.headers[RemainingHeader] in {"0", "1"})
  }

  /** The reset timestamp with every 'Z' written as '+00:00', ready for `fromisoformat`. */
  function NormalizeReset(stamp: string): (r: string)
    ensures 'Z' !in r
    ensures 'Z' !in stamp ==> r == stamp
  {
    ReplaceRemoves(stamp, 'Z', "+00:00");
    ReplaceAbsent(stamp, 'Z', "+00:00");
    Replace(stamp, 'Z', "+00:00")
  }

  /** Each 'Z' of the stamp becomes "+00:00", and the text around it is normalised on its own. */
  lemma NormalizeResetAtZ(before: string, after: string)
    ensures NormalizeReset(before + "Z" + after) == NormalizeReset(before) + "+00:00" + NormalizeReset(after)
  {
    ReplaceDistributes(before + "Z", after, 'Z', "+00:00");
    ReplaceDistributes(before, "Z", 'Z', "+00:00");
    assert Replace("Z", 'Z', "+00:00") == "+00:00" + Replace([], 'Z', "+00:00");
  }

  /** The three events of one rejected attempt. */
  function Rejection(args: RequestArgs, resp: Response): seq<HttpEvent>
    requires ResetHeader in resp.headers
  {
    [Request(args), WaitUntil(NormalizeReset(resp.headers[ResetHeader])), Close(resp.id)]
  }

  /** `resp` is rejected and can be waited on. */
  predicate Retryable(resp: Response)
  {
    !Acceptable(resp) && ResetHeader in resp.headers
  }

  /** The k-th response is the first acceptable one, and all before it were retried. */
  predicate FirstAcceptableAt(script: seq<Response>, k: int)
  {
    0 <= k < |script| && Acceptable(script[k]) && forall j | 0 <= j < k :: Retryable(script[j])
  }

  datatype EnterRun = EnterRun(entered: Entered, events: seq<HttpEvent>, used: nat)
  {
    /** How many responses were rejected, waited on and closed. */
    function Rejected(): nat
    {
      if entered.ScriptEnded? || used == 0 then used else used - 1
    }
  }

  /**
   * `__aenter__` against a session that answers successive requests with
   * `script`: the outcome, the events and how many responses were used.
   */
  function EnterSpec(args: RequestArgs, script: seq<Response>): (run: EnterRun)
    ensures run.used <= |script|
  {
    if script == [] then EnterRun(ScriptEnded, [], 0)
    else if Acceptable(script[0]) then EnterRun(Returned(script[0]), [Request(args)], 1)
    else if ResetHeader !in script[0].headers then EnterRun(MissingResetHeader, [Request(args)], 1)
    else
      var rest := EnterSpec(args, script[1..]);
      EnterRun(rest.entered, Rejection(args, script[0]) + rest.events, rest.used + 1)
  }

  /**
   * A response is returned exactly when it is the first acceptable one of
   * the attempts and every earlier one was retryable.
   */
  lemma {:induction false} EnterReturnsFirstAcceptable(args: RequestArgs, script: seq<Response>)
    ensures EnterSpec(args, script).entered.Returned? <==> exists k :: FirstAcceptableAt(script, k)
    ensures forall k | FirstAcceptableAt(script, k) ::
      EnterSpec(args, script).entered == Returned(script[k]) && EnterSpec(args, script).used == k + 1
  {
    if script != [] {
      EnterReturnsFirstAcceptable(args, script[1..]);
      var run := EnterSpec(args, script);
      if Retryable(script[0]) {
        if run.entered.Returned? {
          var k :| FirstAcceptableAt(script[1..], k);
          assert FirstAcceptableAt(script, k + 1);
        }
        forall k | FirstAcceptableAt(script, k)
          ensures run.entered == Returned(script[k]) && run.used == k + 1
        {
          assert k != 0;
          assert FirstAcceptableAt(script[1..], k - 1);
        }
      } else {
        if Acceptable(script[0]) {
          assert FirstAcceptableAt(script, 0);
        }
      }
    }
  }

  /** Three events per rejected response, then the request that ended the attempts (unless the script did). */
  lemma {:induction false} EnterEventCount(args: RequestArgs, script: seq<Response>)
    ensures var run := EnterSpec(args, script);
      |run.events| == 3 * run.Rejected() + (if run.entered.ScriptEnded? then 0 else 1) &&
      (!run.entered.ScriptEnded? ==> run.events[3 * run.Rejected()] == Request(args))
  {
    if script != [] && Retryable(script[0]) {
      EnterEventCount(args, script[1..]);
      var run, rest := EnterSpec(args, script), EnterSpec(args, script[1..]);
      assert run.Rejected() == rest.Rejected() + 1;
      if !run.entered.ScriptEnded? {
        assert run.events[3 * run.Rejected()] == rest.events[3 * rest.Rejected()];
      }
    }
  }

  /**
   * Every rejected response is waited on and closed before the same request
   * is issued again, and every request carries the same arguments.
   */
  lemma {:induction false} EnterClosesBeforeReissue(args: RequestArgs, script: seq<Response>)
    ensures var run := EnterSpec(args, script);
      3 * run.Rejected() <= |run.events| &&
      forall j | 0 <= j < run.Rejected() ::
        Retryable(script[j]) && run.events[3 * j..3 * j + 3] == Rejection(args, script[j])
  {
    EnterEventCount(args, script);
    if script != [] && Retryable(script[0]) {
      EnterClosesBeforeReissue(args, script[1..]);
      EnterSpecRetry(args, script);
      var run, rest := EnterSpec(args, script), EnterSpec(args, script[1..]);
      var head := Rejection(args, script[0]);
      assert run.events == head + rest.events;
      forall j | 0 <= j < run.Rejected()
        ensures Retryable(script[j]) && run.events[3 * j..3 * j + 3] == Rejection(args, script[j])
      {
        if j == 0 {
          assert run.events[..3] == head;
        } else {
          assert script[1..][j - 1] == script[j];
          assert rest.events[3 * (j - 1)..3 * (j - 1) + 3] == Rejection(args, script[j]);
          SliceOfAppend(head, rest.events, 3 * j, 3);
        }
      }
    }
  }

  /** One rejected attempt, then the rest of the attempts. */
  lemma EnterSpecRetry(args: RequestArgs, script: seq<Response>)
    requires script != [] && Retryable(script[0])
    ensures var run, rest := EnterSpec(args, script), EnterSpec(args, script[1..]);
      run.entered == rest.entered && run.used == rest.used + 1 &&
      run.events == Rejection(args, script[0]) + rest.events
  {
  }

  /**
   * `_RateLimitContextManager`: wraps one request of the HTTP session and
   * re-issues it until the session's answer is not rate limited.
   */
  class RateLimitContextManager {
    const args: RequestArgs
    /** The responses the HTTP session will give to the next requests, in order. */
    var session: seq<Response>
    /** The response whose request context manager is entered and not yet exited. */
    var open: Option<Response>
    var events: seq<HttpEvent>

    /** `HandleRateLimits(http).request(*args, **kwargs)` */
    constructor (session: seq<Response>, args: RequestArgs)
      ensures this.args == args && this.session == session
      ensures open == None && events == []
    {
      this.args := args;
      this.session := session;
      open := None;
      events := [];
    }

    /** `__aenter__` with `_do_enter`, the tail recursion written as a loop. */
    method Enter() returns (entered: Entered)
      modifies this
      ensures var run := EnterSpec(args, old(session));
        entered == run.entered &&
        events == old(events) + run.events &&
        session == old(session)[run.used..]
      ensures entered.Returned? ==> open == Some(entered.response)
      ensures entered.MissingResetHeader? ==> open.Some? && !Acceptable(open.value)
      ensures var run := EnterSpec(args, old(session));
        entered.MissingResetHeader? ==> 0 < run.used && open == Some(old(session)[run.used - 1])
      ensures var run := EnterSpec(args, old(session));
        entered.ScriptEnded? ==> open == (if run.used == 0 then old(open) else None)
    {
      ghost var script, total, used := session, EnterSpec(args, session), 0;
      while true
        invariant used <= |script| && session == script[used..]
        invariant var rest := EnterSpec(args, session);
          total.entered == rest.entered && total.used == used + rest.used &&
          old(events) + total.events == events + rest.events
        invariant open == (if used == 0 then old(open) else None)
        decreases |session|
      {
        if session == [] {
          entered := ScriptEnded;
          return;
        }
        var resp := session[0];
        ghost var before := events;
        events := events + [Request(args)];
        open := Some(resp);
        if Acceptable(resp) {
          entered := Returned(resp);
          session := session[1..];
          return;
        }
        if ResetHeader !in resp.headers {
          entered := MissingResetHeader;
          session := session[1..];
          return;
        }
        EnterSpecRetry(args, session);
        events := events + [WaitUntil(NormalizeReset(resp.headers[ResetHeader])), Close(resp.id)];
        assert events == before + Rejection(args, resp);
        AppendAssoc(before, Rejection(args, resp), EnterSpec(args, session[1..]).events);
        open := None;
        session := session[1..];
        used := used + 1;
      }
    }

    /** `__aexit__`: exits the request context manager of the returned response. */
    method Exit()
      modifies this
      ensures open == None && session == old(session)
      ensures events == old(events) + (if old(open).Some? then [Close(old(open).value.id)] else [])
    {
      if open.Some? {
        events := events + [Close(open.value.id)];
        open := None;
      }
    }
  }
}
