/**
 * fetch_posts.py: finding an account's outbox (the handle split, WebFinger
 * link selection and the outbox-URL fallback), walking the outbox pages, and
 * storing the posts of the stream into a table keyed by post id.
 *
 * HTTP answers are functions of the requested URL (`Web`); the posts table
 * is a map from `post_id` to its row; the functions of third_party.utils and
 * the date parser are uninterpreted (`Normalizers`); the database schema is
 * represented only by which rows break a constraint other than the unique
 * `post_id` (`violates`).
 */
module FetchPosts {
  import opened Wrappers
  import opened Strings
  import opened Sequences

  const ActivityPubContentType := "application/activity+json"

  // ---------------------------------------------------------------------------
  // WebFinger (section 4.4.4 of RFC 7033, with the acct: URI of RFC 7565)

  /** One entry of a WebFinger document's `links`. */
  datatype Link = Link(rel: string, mediaType: string, href: string)

  /** `check_content_type(type, ct)`: exactly `type`, or `type` followed by media-type parameters. */
  predicate CheckContentType(expected: string, ct: string)
  {
    ct == expected || StartsWith(ct, expected + ";")
  }

  /**
   * A content type that extends the expected one is accepted exactly when
   * the extension is empty or starts with ';'; so "application/activity+jsonx"
   * is refused and "application/activity+json; charset=utf-8" accepted.
   */
  lemma ContentTypeExtension(expected: string, rest: string)
    ensures CheckContentType(expected, expected + rest) <==> rest == [] || rest[0] == ';'
  {
    var ct := expected + rest;
    if rest != [] && rest[0] == ';' {
      assert ct[..|expected| + 1] == expected + ";";
    }
    if StartsWith(ct, expected + ";") {
      assert ct[|expected|] == (expected + ";")[|expected|];
    }
    if ct == expected {
      assert |rest| == 0;
    }
  }

  /** `link['rel'] == 'self' and check_ap(link['type'])` */
  predicate IsProfileLink(link: Link)
  {
    link.rel == "self" && CheckContentType(ActivityPubContentType, link.mediaType)
  }

  /** Index of the first profile link at or after `from`. */
  function FirstProfileLink(links: seq<Link>, from: nat): (r: Option<nat>)
    requires from <= |links|
    ensures r.Some? ==> from <= r.value < |links| && IsProfileLink(links[r.value])
    ensures forall j | from <= j < (if r.Some? then r.value else |links|) :: !IsProfileLink(links[j])
    decreases |links| - from
  {
    if from == |links| then None
    else if IsProfileLink(links[from]) then Some(from)
    else FirstProfileLink(links, from + 1)
  }

  /** The text of the `RuntimeError` raised when no link qualifies. */
  function NoProfileMessage(username: string, instance: string): string
  {
    "fatal: while fingering " + username + "@" + instance + ", failed to find a profile URL"
  }

  /**
   * `_parse_webfinger_result`: the `href` of the first link, in document
   * order, that is a profile link; a `RuntimeError` message when none is.
   */
  function ParseWebfingerResult(username: string, instance: string, links: seq<Link>): (r: Result<string, string>)
    ensures r.Success? <==> exists i | 0 <= i < |links| :: IsProfileLink(links[i])
    ensures r.Success? ==> exists i | 0 <= i < |links| ::
      IsProfileLink(links[i]) && r.value == links[i].href && forall j | 0 <= j < i :: !IsProfileLink(links[j])
    ensures r.Failure? ==> r.error == NoProfileMessage(username, instance)
  {
    match FirstProfileLink(links, 0)
    case Some(i) => Success(links[i].href)
    case None => Failure(NoProfileMessage(username, instance))
  }

  /** Links of another relation, or of another type, are passed over for a later profile link. */
  lemma FirstProfileLinkWins(username: string, instance: string, links: seq<Link>, i: nat)
    requires i < |links| && IsProfileLink(links[i])
    requires forall j | 0 <= j < i :: !IsProfileLink(links[j])
    ensures ParseWebfingerResult(username, instance, links) == Success(links[i].href)
  {
    var r := ParseWebfingerResult(username, instance, links);
    var k :| 0 <= k < |links| && IsProfileLink(links[k]) && r.value == links[k].href
      && forall j | 0 <= j < k :: !IsProfileLink(links[j]);
    assert k == i;
  }

  // ---------------------------------------------------------------------------
  // Handles and URLs

  /** `username@instance` */
  datatype Handle = Handle(username: string, instance: string)

  /** Why finding the outbox failed. */
  datatype FetchError =
    | AssertionFailed          // `assert at == '@'` or `assert outbox['type'] == 'OrderedCollection'`
    | RuntimeError(message: string)
    | RequestFailed            // an HTTP request raised

  /** `handle.lstrip('@').partition('@')` and `assert at == '@'`. */
  function SplitHandle(handle: string): (r: Result<Handle, FetchError>)
    ensures var stripped := LStrip(handle, '@');
      (r.Success? <==> '@' in stripped) &&
      (r.Failure? ==> r.error == AssertionFailed) &&
      (r.Success? ==> stripped == r.value.username + "@" + r.value.instance && '@' !in r.value.username)
  {
    var (username, at, instance) := Partition(LStrip(handle, '@'), '@');
    if at then Success(Handle(username, instance)) else Failure(AssertionFailed)
  }

  /**
   * However many '@' lead the handle, they all go, and the split is at the
   * first '@' that is left: the username is what precedes it, the instance
   * all that follows, '@'s included.
   */
  lemma SplitHandleParts(n: nat, username: string, instance: string)
    requires username != [] && '@' !in username
    ensures SplitHandle(Repeat('@', n) + username + "@" + instance) == Success(Handle(username, instance))
  {
    var lead := Repeat('@', n);
    var rest := username + "@" + instance;
    AppendAssoc(lead + username, "@", instance);
    AppendAssoc(lead, username, "@" + instance);
    AppendAssoc(username, "@", instance);
    assert lead + username + "@" + instance == lead + rest;
    assert rest[0] == username[0];
    LStripRepeat(n, '@', rest);
    PartitionAt(username, '@', instance);
    assert Partition(LStrip(lead + rest, '@'), '@') == (username, true, instance);
  }

  /** A handle with no '@' after its leading ones fails the assertion. */
  lemma SplitHandleNeedsSecondAt(n: nat, text: string)
    requires '@' !in text
    ensures SplitHandle(Repeat('@', n) + text) == Failure(AssertionFailed)
  {
    LStripRepeat(n, '@', text);
  }

  /** `f'http://{instance}/.well-known/webfinger?resource=acct:{username}@{instance}'` */
  function FingerUrl(username: string, instance: string): string
  {
    "http://" + instance + "/.well-known/webfinger?resource=acct:" + username + "@" + instance
  }

  /** The WebFinger query asks about the handle itself, leading '@'s removed, as an acct: URI. */
  lemma FingerResourceIsHandle(handle: string)
    requires SplitHandle(handle).Success?
    ensures var h := SplitHandle(handle).value;
      FingerUrl(h.username, h.instance)
        == "http://" + h.instance + "/.well-known/webfinger?resource=acct:" + LStrip(handle, '@')
  {
    var h := SplitHandle(handle).value;
    var prefix := "http://" + h.instance + "/.well-known/webfinger?resource=acct:";
    AppendAssoc(prefix + h.username, "@", h.instance);
    AppendAssoc(prefix, h.username, "@" + h.instance);
    AppendAssoc(h.username, "@", h.instance);
  }

  /** The answer to the profile request. */
  datatype ProfileAnswer =
    | JsonProfile(outbox: string)  // a JSON document; its `outbox`
    | NotJson                      // `aiohttp.ContentTypeError`
    | ProfileFailed                // any other exception

  /** `profile['outbox']`, or the guess `profile_url + '/outbox'` when the profile is not JSON. */
  function OutboxUrl(profileUrl: string, answer: ProfileAnswer): (r: Option<string>)
    ensures r.None? <==> answer.ProfileFailed?
    ensures answer.JsonProfile? ==> r == Some(answer.outbox)
    ensures answer.NotJson? ==> |r.value| == |profileUrl| + 7 && r.value[..|profileUrl|] == profileUrl && r.value[|profileUrl|..] == "/outbox"
  {
    match answer
    case JsonProfile(outbox) => Some(outbox)
    case NotJson => Some(profileUrl + "/outbox")
    case ProfileFailed => None
  }

  /** The outbox document: its `type` and its `first` page. */
  datatype Collection = Collection(kind: string, first: string)

  /** One page of the outbox. */
  datatype Page = Page(orderedItems: seq<Activity>, next: Option<string>)

  /** The HTTP answers, by URL; `None` when the request raises. */
  datatype Web = Web(
    finger: string -> Option<seq<Link>>,
    profile: string -> ProfileAnswer,
    collection: string -> Option<Collection>,
    page: string -> Option<Page>)

  /** `fetch_outbox(handle)` with `_finger_actor` */
  function FetchOutbox(handle: string, web: Web): (r: Result<Collection, FetchError>)
    ensures '@' !in LStrip(handle, '@') ==> r == Failure(AssertionFailed)
    ensures r.Success? ==> r.value.kind == "OrderedCollection"
  {
    match SplitHandle(handle)
    case Failure(e) => Failure(e)
    case Success(h) =>
      match web.finger(FingerUrl(h.username, h.instance))
      case None => Failure(RequestFailed)
      case Some(links) =>
        match ParseWebfingerResult(h.username, h.instance, links)
        case Failure(msg) => Failure(RuntimeError(msg))
        case Success(profileUrl) =>
          match OutboxUrl(profileUrl, web.profile(profileUrl))
          case None => Failure(RequestFailed)
          case Some(outboxUrl) =>
            match web.collection(outboxUrl)
            case None => Failure(RequestFailed)
            case Some(c) => if c.kind == "OrderedCollection" then Success(c) else Failure(AssertionFailed)
  }

  /**
   * When the profile is not JSON, the outbox is fetched from the guessed URL
   * next to the profile link WebFinger chose.
   */
  lemma OutboxGuessedWhenProfileNotJson(handle: string, web: Web, h: Handle, links: seq<Link>, i: nat)
    requires SplitHandle(handle) == Success(h)
    requires web.finger(FingerUrl(h.username, h.instance)) == Some(links)
    requires i < |links| && IsProfileLink(links[i]) && forall j | 0 <= j < i :: !IsProfileLink(links[j])
    requires web.profile(links[i].href) == NotJson
    ensures FetchOutbox(handle, web) == match web.collection(links[i].href + "/outbox")
      case None => Failure(RequestFailed)
      case Some(c) => if c.kind == "OrderedCollection" then Success(c) else Failure(AssertionFailed)
  {
    FirstProfileLinkWins(h.username, h.instance, links, i);
  }

  /** When the profile is JSON, the outbox is fetched from the profile's `outbox`. */
  lemma OutboxFromJsonProfile(handle: string, web: Web, h: Handle, links: seq<Link>, i: nat, outbox: string)
    requires SplitHandle(handle) == Success(h)
    requires web.finger(FingerUrl(h.username, h.instance)) == Some(links)
    requires i < |links| && IsProfileLink(links[i]) && forall j | 0 <= j < i :: !IsProfileLink(links[j])
    requires web.profile(links[i].href) == JsonProfile(outbox)
    ensures FetchOutbox(handle, web) == match web.collection(outbox)
      case None => Failure(RequestFailed)
      case Some(c) => if c.kind == "OrderedCollection" then Success(c) else Failure(AssertionFailed)
  {
    FirstProfileLinkWins(h.username, h.instance, links, i);
  }

  // ---------------------------------------------------------------------------
  // Activities and the posts table

  /** The `object` of an activity; a JSON `null` summary is `None`. */
  datatype PostObject = PostObject(id: string, summary: Option<string>, content: string, published: string)

  /** An outbox entry: its `type` and its `object`. */
  datatype Activity = Activity(kind: string, obj: PostObject)

  /** A row of the posts table, without its key `post_id`. */
  datatype Row = Row(summary: Option<string>, content: string, publishedAt: int)

  /** `extract_post_content` and the UTC timestamp of a `published` date, left uninterpreted. */
  datatype Normalizers = Normalizers(extractPostContent: string -> string, timestamp: string -> int)

  /** The values `_insert_activity` binds: Pleroma's empty summary becomes `NULL`. */
  function RowOf(norm: Normalizers, obj: PostObject): (r: Row)
    ensures r.summary.None? <==> obj.summary.None? || obj.summary == Some("")
    ensures r.summary.Some? ==> r.summary == obj.summary
  {
    Row(if obj.summary == Some("") then None else obj.summary,
        norm.extractPostContent(obj.content),
        norm.timestamp(obj.published))
  }

  /** What one `_insert_activity` does. */
  datatype InsertOutcome =
    | NotAPost         // not a Create activity: returns without touching the table
    | Stored
    | DuplicateId      // `UNIQUE constraint failed: ...`
    | OtherConstraint  // any other `IntegrityError`

  datatype Insertion = Insertion(outcome: InsertOutcome, table: map<string, Row>)

  /**
   * `_insert_activity` against a table keyed by `post_id`. A row that breaks
   * both the unique key and another constraint is assumed to be reported
   * under the other constraint.
   */
  function Insert(table: map<string, Row>, violates: Row -> bool, norm: Normalizers, a: Activity): (r: Insertion)
    ensures r.outcome.NotAPost? <==> a.kind != "Create"
    ensures r.outcome.Stored? ==> a.obj.id !in table && r.table == table[a.obj.id := RowOf(norm, a.obj)]
    ensures r.outcome.DuplicateId? <==> a.kind == "Create" && !violates(RowOf(norm, a.obj)) && a.obj.id in table
    ensures r.outcome.OtherConstraint? <==> a.kind == "Create" && violates(RowOf(norm, a.obj))
    ensures !r.outcome.Stored? ==> r.table == table
  {
    if a.kind != "Create" then Insertion(NotAPost, table)
    else
      var row := RowOf(norm, a.obj);
      if violates(row) then Insertion(OtherConstraint, table)
      else if a.obj.id in table then Insertion(DuplicateId, table)
      else Insertion(Stored, table[a.obj.id := row])
  }

  /** How `_process_pages` stopped. */
  datatype IngestEnd = StreamEnded | Duplicate | Failed

  /** The table afterwards, how many activities were taken from the stream, and why it stopped. */
  datatype Ingested = Ingested(table: map<string, Row>, consumed: nat, end: IngestEnd)

  /**
   * The `async for` of `_process_pages`: insert in stream order, stop at the
   * first duplicate (`break`) or at the first other integrity error (re-raised).
   */
  function IngestSpec(table: map<string, Row>, violates: Row -> bool, norm: Normalizers, stream: seq<Activity>): (r: Ingested)
    ensures r.consumed <= |stream|
    ensures r.end.StreamEnded? ==> r.consumed == |stream|
    ensures !r.end.StreamEnded? ==> r.consumed >= 1
    decreases |stream|
  {
    if stream == [] then Ingested(table, 0, StreamEnded)
    else
      var first := Insert(table, violates, norm, stream[0]);
      match first.outcome
      case DuplicateId => Ingested(table, 1, Duplicate)
      case OtherConstraint => Ingested(table, 1, Failed)
      case _ =>
        var rest := IngestSpec(first.table, violates, norm, stream[1..]);
        Ingested(rest.table, rest.consumed + 1, rest.end)
  }

  /** Rows already in the table are never changed or removed. */
  lemma {:induction false} IngestKeepsRows(table: map<string, Row>, violates: Row -> bool, norm: Normalizers, stream: seq<Activity>)
    ensures var r := IngestSpec(table, violates, norm, stream);
      forall k | k in table :: k in r.table && r.table[k] == table[k]
    decreases |stream|
  {
    if stream != [] {
      var first := Insert(table, violates, norm, stream[0]);
      if first.outcome.NotAPost? || first.outcome.Stored? {
        IngestKeepsRows(first.table, violates, norm, stream[1..]);
        assert forall k | k in table :: k in first.table && first.table[k] == table[k];
      }
    }
  }

  /** Every new row is the normalised object of a Create activity the loop reached. */
  lemma {:induction false} IngestNewRows(table: map<string, Row>, violates: Row -> bool, norm: Normalizers, stream: seq<Activity>)
    ensures var r := IngestSpec(table, violates, norm, stream);
      forall k | k in r.table && k !in table :: exists i | 0 <= i < r.consumed ::
        stream[i].kind == "Create" && stream[i].obj.id == k && r.table[k] == RowOf(norm, stream[i].obj)
    decreases |stream|
  {
    if stream != [] {
      var first := Insert(table, violates, norm, stream[0]);
      if first.outcome.NotAPost? || first.outcome.Stored? {
        IngestNewRows(first.table, violates, norm, stream[1..]);
        IngestKeepsRows(first.table, violates, norm, stream[1..]);
        var r, rest := IngestSpec(table, violates, norm, stream), IngestSpec(first.table, violates, norm, stream[1..]);
        forall k | k in r.table && k !in table
          ensures exists i | 0 <= i < r.consumed ::
            stream[i].kind == "Create" && stream[i].obj.id == k && r.table[k] == RowOf(norm, stream[i].obj)
        {
          if k in first.table {
            assert stream[0].kind == "Create" && stream[0].obj.id == k;
          } else {
            var i :| 0 <= i < rest.consumed && stream[1..][i].kind == "Create" && stream[1..][i].obj.id == k
              && rest.table[k] == RowOf(norm, stream[1..][i].obj);
            assert stream[i + 1] == stream[1..][i];
          }
        }
      }
    }
  }

  /**
   * The loop stops at the first activity whose id is already stored: that
   * activity is the last one taken, it is a Create, and its id is in the
   * table, whose row for it is left as it was.
   */
  lemma {:induction false} IngestStopsAtDuplicate(table: map<string, Row>, violates: Row -> bool, norm: Normalizers, stream: seq<Activity>)
    ensures var r := IngestSpec(table, violates, norm, stream);
      r.end.Duplicate? ==> var last := stream[r.consumed - 1];
        last.kind == "Create" && !violates(RowOf(norm, last.obj)) && last.obj.id in r.table
    decreases |stream|
  {
    if stream != [] {
      var first := Insert(table, violates, norm, stream[0]);
      if first.outcome.NotAPost? || first.outcome.Stored? {
        IngestStopsAtDuplicate(first.table, violates, norm, stream[1..]);
        var rest := IngestSpec(first.table, violates, norm, stream[1..]);
        if rest.end.Duplicate? {
          assert stream[1..][rest.consumed - 1] == stream[rest.consumed];
        }
      }
    }
  }

  /** The Create activities of `stream` whose rows the database would take, with ids not yet stored and pairwise distinct. */
  predicate FreshPosts(table: map<string, Row>, violates: Row -> bool, norm: Normalizers, stream: seq<Activity>)
  {
    (forall i | 0 <= i < |stream| && stream[i].kind == "Create" ::
      !violates(RowOf(norm, stream[i].obj)) && stream[i].obj.id !in table) &&
    (forall i, j | 0 <= i < j < |stream| && stream[i].kind == "Create" && stream[j].kind == "Create" ::
      stream[i].obj.id != stream[j].obj.id)
  }

  /** Ids of the Create activities of `stream`. */
  function CreatedIds(stream: seq<Activity>): (ids: set<string>)
    ensures forall i | 0 <= i < |stream| && stream[i].kind == "Create" :: stream[i].obj.id in ids
    ensures forall k | k in ids :: exists i | 0 <= i < |stream| :: stream[i].kind == "Create" && stream[i].obj.id == k
  {
    if stream == [] then {}
    else
      var rest := CreatedIds(stream[1..]);
      assert forall i | 1 <= i < |stream| :: stream[i] == stream[1..][i - 1];
      if stream[0].kind == "Create" then {stream[0].obj.id} + rest else rest
  }

  /** A stream of new posts is taken whole: every post is stored and the loop ends with the stream. */
  lemma {:induction false} IngestFreshPosts(table: map<string, Row>, violates: Row -> bool, norm: Normalizers, stream: seq<Activity>)
    requires FreshPosts(table, violates, norm, stream)
    ensures var r := IngestSpec(table, violates, norm, stream);
      r.end == StreamEnded && r.table.Keys == table.Keys + CreatedIds(stream)
    decreases |stream|
  {
    if stream != [] {
      var first := Insert(table, violates, norm, stream[0]);
      assert forall i | 0 <= i < |stream| - 1 :: stream[1..][i] == stream[i + 1];
      assert FreshPosts(first.table, violates, norm, stream[1..]) by {
        forall i | 0 <= i < |stream| - 1 && stream[1..][i].kind == "Create"
          ensures stream[1..][i].obj.id !in first.table
        {
          assert stream[1..][i] == stream[i + 1];
        }
      }
      IngestFreshPosts(first.table, violates, norm, stream[1..]);
    }
  }

  /** How many activities were stored or passed over before the loop stopped. */
  function Taken(r: Ingested): nat
  {
    if r.end.StreamEnded? || r.consumed == 0 then r.consumed else r.consumed - 1
  }

  /** One activity that did not stop the loop, then the loop on the rest of the stream. */
  lemma IngestStep(table: map<string, Row>, violates: Row -> bool, norm: Normalizers, stream: seq<Activity>)
    requires stream != []
    requires var o := Insert(table, violates, norm, stream[0]).outcome; o.NotAPost? || o.Stored?
    ensures var r, rest := IngestSpec(table, violates, norm, stream),
                           IngestSpec(Insert(table, violates, norm, stream[0]).table, violates, norm, stream[1..]);
      r.table == rest.table && r.end == rest.end && Taken(r) == Taken(rest) + 1 &&
      stream[..Taken(r)] == [stream[0]] + stream[1..][..Taken(rest)]
  {
    var rest := IngestSpec(Insert(table, violates, norm, stream[0]).table, violates, norm, stream[1..]);
    assert stream[..Taken(rest) + 1] == [stream[0]] + stream[1..][..Taken(rest)];
  }

  /** An activity that was stored or passed over, in front of fresh posts for the table it left. */
  lemma FreshCons(table: map<string, Row>, violates: Row -> bool, norm: Normalizers, a: Activity, s: seq<Activity>)
    requires var o := Insert(table, violates, norm, a).outcome; o.NotAPost? || o.Stored?
    requires FreshPosts(Insert(table, violates, norm, a).table, violates, norm, s)
    ensures FreshPosts(table, violates, norm, [a] + s)
  {
    var t := [a] + s;
    forall i | 0 <= i < |t| && t[i].kind == "Create"
      ensures !violates(RowOf(norm, t[i].obj)) && t[i].obj.id !in table
    {
      if i > 0 {
        assert t[i] == s[i - 1];
      }
    }
    forall i, j | 0 <= i < j < |t| && t[i].kind == "Create" && t[j].kind == "Create"
      ensures t[i].obj.id != t[j].obj.id
    {
      assert t[j] == s[j - 1];
      if i > 0 {
        assert t[i] == s[i - 1];
      }
    }
  }

  lemma CreatedIdsCons(a: Activity, s: seq<Activity>)
    ensures CreatedIds([a] + s) == (if a.kind == "Create" then {a.obj.id} else {}) + CreatedIds(s)
  {
    assert ([a] + s)[1..] == s;
  }

  /** What the loop took before it stopped is a run of fresh posts. */
  lemma {:induction false} IngestPrefixFresh(table: map<string, Row>, violates: Row -> bool, norm: Normalizers, stream: seq<Activity>)
    ensures var r := IngestSpec(table, violates, norm, stream);
      Taken(r) <= |stream| && (r.end.StreamEnded? <==> Taken(r) == |stream|) &&
      FreshPosts(table, violates, norm, stream[..Taken(r)])
    decreases |stream|
  {
    if stream != [] {
      var first := Insert(table, violates, norm, stream[0]);
      if first.outcome.NotAPost? || first.outcome.Stored? {
        IngestPrefixFresh(first.table, violates, norm, stream[1..]);
        IngestStep(table, violates, norm, stream);
        var rest := IngestSpec(first.table, violates, norm, stream[1..]);
        FreshCons(table, violates, norm, stream[0], stream[1..][..Taken(rest)]);
      }
    }
  }

  /** The posts the loop took are stored, each as its row, and they are all the table gains. */
  lemma {:induction false} IngestPrefixStored(table: map<string, Row>, violates: Row -> bool, norm: Normalizers, stream: seq<Activity>)
    ensures var r := IngestSpec(table, violates, norm, stream);
      var pre := stream[..Taken(r)];
      r.table.Keys == table.Keys + CreatedIds(pre) &&
      forall i | 0 <= i < |pre| && pre[i].kind == "Create" ::
        pre[i].obj.id in r.table && r.table[pre[i].obj.id] == RowOf(norm, pre[i].obj)
    decreases |stream|
  {
    if stream != [] {
      var first := Insert(table, violates, norm, stream[0]);
      if first.outcome.NotAPost? || first.outcome.Stored? {
        IngestPrefixStored(first.table, violates, norm, stream[1..]);
        IngestStep(table, violates, norm, stream);
        IngestKeepsRows(first.table, violates, norm, stream[1..]);
        var r, rest := IngestSpec(table, violates, norm, stream), IngestSpec(first.table, violates, norm, stream[1..]);
        var pre, pre' := stream[..Taken(r)], stream[1..][..Taken(rest)];
        CreatedIdsCons(stream[0], pre');
        forall i | 0 <= i < |pre| && pre[i].kind == "Create"
          ensures pre[i].obj.id in r.table && r.table[pre[i].obj.id] == RowOf(norm, pre[i].obj)
        {
          if i > 0 {
            assert pre[i] == pre'[i - 1];
          }
        }
      } else {
        assert stream[..0] == [];
      }
    } else {
      assert stream[..0] == [];
    }
  }

  /** The activity the loop stopped at: a Create that breaks another constraint, or whose id is taken. */
  lemma {:induction false} IngestStopCause(table: map<string, Row>, violates: Row -> bool, norm: Normalizers, stream: seq<Activity>)
    ensures var r := IngestSpec(table, violates, norm, stream);
      var k := Taken(r);
      !r.end.StreamEnded? ==> (
        k < |stream| && stream[k].kind == "Create" &&
        (r.end.Failed? <==> violates(RowOf(norm, stream[k].obj))) &&
        (r.end.Duplicate? ==> stream[k].obj.id in table.Keys + CreatedIds(stream[..k])))
    decreases |stream|
  {
    if stream != [] {
      var first := Insert(table, violates, norm, stream[0]);
      if first.outcome.NotAPost? || first.outcome.Stored? {
        IngestStopCause(first.table, violates, norm, stream[1..]);
        IngestStep(table, violates, norm, stream);
        var r, rest := IngestSpec(table, violates, norm, stream), IngestSpec(first.table, violates, norm, stream[1..]);
        if !r.end.StreamEnded? {
          var k := Taken(r);
          assert stream[k] == stream[1..][k - 1];
          CreatedIdsCons(stream[0], stream[1..][..k - 1]);
        }
      } else {
        assert stream[..0] == [];
      }
    }
  }

  /**
   * The loop stops at the FIRST insert that fails: every activity before the
   * stop is a fresh post or not a post, each of those posts is stored as its
   * row, and the table gains exactly their ids; the activity it stops at is a
   * Create whose row breaks another constraint (`Failed`), or whose id is
   * already stored or was stored earlier in the same run (`Duplicate`).
   */
  lemma IngestStopsAtFirstFailure(table: map<string, Row>, violates: Row -> bool, norm: Normalizers, stream: seq<Activity>)
    ensures var r := IngestSpec(table, violates, norm, stream);
      var k := Taken(r);
      var pre := stream[..k];
      k <= |stream| && (r.end.StreamEnded? <==> k == |stream|) &&
      FreshPosts(table, violates, norm, pre) &&
      r.table.Keys == table.Keys + CreatedIds(pre) &&
      (forall i | 0 <= i < |pre| && pre[i].kind == "Create" ::
        pre[i].obj.id in r.table && r.table[pre[i].obj.id] == RowOf(norm, pre[i].obj)) &&
      (!r.end.StreamEnded? ==> (
        k < |stream| && stream[k].kind == "Create" &&
        (r.end.Failed? <==> violates(RowOf(norm, stream[k].obj))) &&
        (r.end.Duplicate? ==> stream[k].obj.id in table.Keys + CreatedIds(pre))))
  {
    IngestPrefixFresh(table, violates, norm, stream);
    IngestPrefixStored(table, violates, norm, stream);
    IngestStopCause(table, violates, norm, stream);
  }

  // ---------------------------------------------------------------------------
  // Outbox pagination

  /** A page whose `next` is missing or empty ends the walk. */
  predicate IsLast(p: Page)
  {
    p.next.None? || p.next.value == ""
  }

  /**
   * The pages met by following `next` links from `url`, as long as they can
   * be fetched, for at most `fuel` pages.
   */
  function PagesFrom(web: Web, url: string, fuel: nat): (pages: seq<Page>)
    ensures |pages| <= fuel
    ensures pages != [] ==> web.page(url) == Some(pages[0])
    ensures forall i | 0 <= i < |pages| - 1 :: !IsLast(pages[i])
    decreases fuel
  {
    if fuel == 0 then []
    else match web.page(url)
      case None => []
      case Some(p) =>
        if IsLast(p) then [p]
        else
          var rest := PagesFrom(web, p.next.value, fuel - 1);
          assert forall i | 1 <= i < |rest| + 1 :: ([p] + rest)[i] == rest[i - 1];
          [p] + rest
  }

  /**
   * Each page after the first is the answer for the previous page's `next`
   * link, and the walk ends only at a last page, at a failed request, or
   * after `fuel` pages.
   */
  lemma {:induction false} PagesFromFollowsNext(web: Web, url: string, fuel: nat)
    ensures var pages := PagesFrom(web, url, fuel);
      (forall i | 0 <= i < |pages| - 1 :: web.page(pages[i].next.value) == Some(pages[i + 1])) &&
      (|pages| == fuel
        || (pages == [] && web.page(url).None?)
        || (pages != [] && (IsLast(pages[|pages| - 1]) || web.page(pages[|pages| - 1].next.value).None?)))
    decreases fuel
  {
    if fuel > 0 && web.page(url).Some? && !IsLast(web.page(url).value) {
      var p := web.page(url).value;
      PagesFromFollowsNext(web, p.next.value, fuel - 1);
      PagesFromNext(web, url, fuel);
      var rest := PagesFrom(web, p.next.value, fuel - 1);
      var pages := [p] + rest;
      forall i | 0 <= i < |pages| - 1
        ensures web.page(pages[i].next.value) == Some(pages[i + 1])
      {
        assert pages[i + 1] == rest[i];
        if i > 0 {
          assert pages[i] == rest[i - 1];
        }
      }
      if rest != [] {
        assert pages[|pages| - 1] == rest[|rest| - 1];
      }
    }
  }

  /** The `orderedItems` of `pages`, page after page. */
  function Items(pages: seq<Page>): seq<Activity>
  {
    if pages == [] then [] else pages[0].orderedItems + Items(pages[1..])
  }

  /** Why `_fetch_account`'s loop stopped. */
  datatype PageEnd =
    | LastPage            // `break` on a missing or empty `next`
    | ReceiverClosed      // `BrokenResourceError` from `tx.send`
    | PageRequestFailed   // the page request raised
    | OutOfFuel           // the model's bound on the number of pages

  datatype Pagination = Pagination(sent: seq<Activity>, end: PageEnd)

  /**
   * The `while True` of `_fetch_account` from `url`, when the receiving end
   * accepts `room` more activities before it is closed: every item of every
   * page is sent in order, until a last page or a refused send.
   */
  function Paginate(web: Web, url: string, room: nat, fuel: nat): (r: Pagination)
    ensures |r.sent| <= room
    ensures r.end.ReceiverClosed? ==> |r.sent| == room
    decreases fuel
  {
    if fuel == 0 then Pagination([], OutOfFuel)
    else match web.page(url)
      case None => Pagination([], PageRequestFailed)
      case Some(p) =>
        if |p.orderedItems| > room then Pagination(p.orderedItems[..room], ReceiverClosed)
        else if IsLast(p) then Pagination(p.orderedItems, LastPage)
        else
          var rest := Paginate(web, p.next.value, room - |p.orderedItems|, fuel - 1);
          Pagination(p.orderedItems + rest.sent, rest.end)
  }

  /**
   * What is sent is the items of the pages met, in page order: all of them
   * unless the receiver closed first, and then as many as it accepted.
   */
  lemma {:induction false} PaginateForwardsInOrder(web: Web, url: string, room: nat, fuel: nat)
    ensures var r, items := Paginate(web, url, room, fuel), Items(PagesFrom(web, url, fuel));
      |r.sent| <= |items| && r.sent == items[..|r.sent|] &&
      (!r.end.ReceiverClosed? ==> r.sent == items)
    decreases fuel
  {
    if fuel > 0 && web.page(url).Some? {
      var p := web.page(url).value;
      var r := Paginate(web, url, room, fuel);
      if IsLast(p) {
        PagesFromLast(web, url, fuel);
        ItemsOfOne(p);
      } else {
        var pages := PagesFrom(web, p.next.value, fuel - 1);
        PagesFromNext(web, url, fuel);
        ItemsOfCons(p, pages);
        var items := p.orderedItems + Items(pages);
        if |p.orderedItems| <= room {
          PaginateForwardsInOrder(web, p.next.value, room - |p.orderedItems|, fuel - 1);
          var rest := Paginate(web, p.next.value, room - |p.orderedItems|, fuel - 1);
          assert r.sent == p.orderedItems + rest.sent;
          var tail := Items(pages)[|rest.sent|..];
          assert Items(pages) == rest.sent + tail;
          AppendAssoc(p.orderedItems, rest.sent, tail);
          PrefixOfAppend(r.sent, tail, |r.sent|);
        } else {
          assert r.sent == p.orderedItems[..room];
          PrefixOfAppend(p.orderedItems, Items(pages), room);
        }
      }
    }
  }

  /** A last page ends the walk. */
  lemma PagesFromLast(web: Web, url: string, fuel: nat)
    requires fuel > 0 && web.page(url).Some? && IsLast(web.page(url).value)
    ensures PagesFrom(web, url, fuel) == [web.page(url).value]
  {
  }

  /** A page with a `next` link is followed by the walk from that link. */
  lemma PagesFromNext(web: Web, url: string, fuel: nat)
    requires fuel > 0 && web.page(url).Some? && !IsLast(web.page(url).value)
    ensures var p := web.page(url).value;
      PagesFrom(web, url, fuel) == [p] + PagesFrom(web, p.next.value, fuel - 1)
  {
  }

  lemma ItemsOfOne(p: Page)
    ensures Items([p]) == p.orderedItems
  {
    assert [p][1..] == [];
  }

  lemma ItemsOfCons(p: Page, pages: seq<Page>)
    ensures Items([p] + pages) == p.orderedItems + Items(pages)
  {
    assert ([p] + pages)[1..] == pages;
  }

  /** The walk ends normally only on a page whose `next` is missing or empty, and every earlier page had one. */
  lemma {:induction false} PaginateStopsAtLastPage(web: Web, url: string, room: nat, fuel: nat)
    ensures var r, pages := Paginate(web, url, room, fuel), PagesFrom(web, url, fuel);
      r.end.LastPage? ==> pages != [] && IsLast(pages[|pages| - 1])
    decreases fuel
  {
    if fuel > 0 && web.page(url).Some? {
      var p := web.page(url).value;
      if |p.orderedItems| <= room && !IsLast(p) {
        PaginateStopsAtLastPage(web, p.next.value, room - |p.orderedItems|, fuel - 1);
      }
    }
  }

  // ---------------------------------------------------------------------------
  // The imperative model

  /** How `_fetch_account` ended. */
  datatype AccountEnd = OutboxFailed(error: FetchError) | Paged(end: PageEnd)

  /**
   * `PostFetcher` after `__aenter__`: the posts table, the accounts that
   * failed, and, standing in for the per-account events and memory streams,
   * the accounts whose done event is set, the activities sent into the
   * stream and how many more sends its receiving end accepts.
   */
  class PostFetcher {
    const web: Web
    const norm: Normalizers
    /** Rows that break a constraint of the schema other than the unique `post_id`. */
    const violates: Row -> bool
    var erroneousAccounts: seq<string>
    var posts: map<string, Row>
    var commits: nat
    var done: set<string>
    var sent: seq<Activity>
    var room: nat

    constructor (web: Web, norm: Normalizers, violates: Row -> bool, posts: map<string, Row>, room: nat)
      ensures this.web == web && this.norm == norm && this.violates == violates
      ensures erroneousAccounts == [] && this.posts == posts && commits == 0
      ensures done == {} && sent == [] && this.room == room
    {
      this.web := web;
      this.norm := norm;
      this.violates := violates;
      erroneousAccounts := [];
      this.posts := posts;
      commits := 0;
      done := {};
      sent := [];
      this.room := room;
    }

    /** `_insert_activity` */
    method InsertActivity(a: Activity) returns (outcome: InsertOutcome)
      modifies this
      ensures var r := Insert(old(posts), violates, norm, a);
        outcome == r.outcome && posts == r.table
      ensures erroneousAccounts == old(erroneousAccounts) && commits == old(commits)
      ensures done == old(done) && sent == old(sent) && room == old(room)
    {
      if a.kind != "Create" {
        return NotAPost;
      }
      var row := RowOf(norm, a.obj);
      if violates(row) {
        return OtherConstraint;
      }
      if a.obj.id in posts {
        return DuplicateId;
      }
      posts := posts[a.obj.id := row];
      outcome := Stored;
    }

    /**
     * `_process_pages` over the activities the stream delivers: the account
     * is marked erroneous only on an integrity error other than a duplicate,
     * and the table is committed and the done event set in every case.
     */
    method ProcessPages(account: string, stream: seq<Activity>) returns (end: IngestEnd)
      modifies this
      ensures var r := IngestSpec(old(posts), violates, norm, stream);
        end == r.end && posts == r.table
      ensures erroneousAccounts == old(erroneousAccounts) + (if end.Failed? then [account] else [])
      ensures commits == old(commits) + 1 && done == old(done) + {account}
      ensures sent == old(sent) && room == old(room)
    {
      ghost var total := IngestSpec(posts, violates, norm, stream);
      end := StreamEnded;
      var i := 0;
      while i < |stream|
        invariant i <= |stream|
        invariant var rest := IngestSpec(posts, violates, norm, stream[i..]);
          total.end == rest.end && total.table == rest.table
        invariant erroneousAccounts == old(erroneousAccounts) && commits == old(commits)
        invariant done == old(done) && sent == old(sent) && room == old(room)
      {
        assert stream[i..][0] == stream[i] && stream[i..][1..] == stream[i + 1..];
        var outcome := InsertActivity(stream[i]);
        if outcome.DuplicateId? {
          end := Duplicate;
          break;
        }
        if outcome.OtherConstraint? {
          erroneousAccounts := erroneousAccounts + [account];
          end := Failed;
          break;
        }
        i := i + 1;
      }
      commits := commits + 1;
      done := done + {account};
    }

    /** `tx.send(activity)`: refused once the receiving end is closed. */
    method Send(a: Activity) returns (delivered: bool)
      modifies this
      ensures delivered <==> old(room) > 0
      ensures delivered ==> sent == old(sent) + [a] && room == old(room) - 1
      ensures !delivered ==> sent == old(sent) && room == old(room)
      ensures erroneousAccounts == old(erroneousAccounts) && posts == old(posts)
      ensures commits == old(commits) && done == old(done)
    {
      if room == 0 {
        return false;
      }
      sent := sent + [a];
      room := room - 1;
      delivered := true;
    }

    /**
     * `_fetch_account`, walking at most `fuel` pages: a failure to find the
     * outbox sets the done event and marks the account erroneous; otherwise
     * the pages are walked from `first`, and the done event is set only when
     * a last page is reached.
     */
    method FetchAccount(account: string, fuel: nat) returns (end: AccountEnd)
      modifies this
      ensures var outbox := FetchOutbox(account, web);
        (outbox.Failure? ==>
          end == OutboxFailed(outbox.error) && erroneousAccounts == old(erroneousAccounts) + [account] &&
          done == old(done) + {account} && sent == old(sent) && room == old(room)) &&
        (outbox.Success? ==>
          var p := Paginate(web, outbox.value.first, old(room), fuel);
          end == Paged(p.end) && erroneousAccounts == old(erroneousAccounts) &&
          done == old(done) + (if p.end.LastPage? then {account} else {}) &&
          sent == old(sent) + p.sent && room == old(room) - |p.sent|)
      ensures posts == old(posts) && commits == old(commits)
    {
      var outbox := FetchOutbox(account, web);
      end := FetchFrom(account, outbox, fuel);
    }

    /** `_fetch_account` once `fetch_outbox` has answered `outbox`. */
    method FetchFrom(account: string, outbox: Result<Collection, FetchError>, fuel: nat) returns (end: AccountEnd)
      modifies this
      ensures outbox.Failure? ==>
        end == OutboxFailed(outbox.error) && erroneousAccounts == old(erroneousAccounts) + [account] &&
        done == old(done) + {account} && sent == old(sent) && room == old(room)
      ensures outbox.Success? ==>
        var p := Paginate(web, outbox.value.first, old(room), fuel);
        end == Paged(p.end) && erroneousAccounts == old(erroneousAccounts) &&
        done == old(done) + (if p.end.LastPage? then {account} else {}) &&
        sent == old(sent) + p.sent && room == old(room) - |p.sent|
      ensures posts == old(posts) && commits == old(commits)
    {
      if outbox.Failure? {
        done := done + {account};
        erroneousAccounts := erroneousAccounts + [account];
        return OutboxFailed(outbox.error);
      }
      var paged := FollowPages(account, outbox.value.first, fuel);
      end := Paged(paged);
    }

    /** The `while True` of `_fetch_account`, from the outbox's first page. */
    method FollowPages(account: string, first: string, fuel: nat) returns (end: PageEnd)
      modifies this
      ensures var p := Paginate(web, first, old(room), fuel);
        end == p.end && sent == old(sent) + p.sent && room == old(room) - |p.sent| &&
        done == old(done) + (if p.end.LastPage? then {account} else {})
      ensures erroneousAccounts == old(erroneousAccounts) && posts == old(posts) && commits == old(commits)
    {
      var url, left := first, fuel;
      ghost var total := Paginate(web, first, room, fuel);
      while true
        invariant var rest := Paginate(web, url, room, left);
          total.end == rest.end && old(sent) + total.sent == sent + rest.sent &&
          |sent| - |old(sent)| + room == old(room) && |old(sent)| <= |sent|
        invariant erroneousAccounts == old(erroneousAccounts) && done == old(done)
        invariant posts == old(posts) && commits == old(commits)
        decreases left
      {
        if left == 0 {
          return OutOfFuel;
        }
        var page := web.page(url);
        if page.None? {
          return PageRequestFailed;
        }
        var items := page.value.orderedItems;
        ghost var sent0, room0 := sent, room;
        for j := 0 to |items|
          invariant j <= room0 && sent == sent0 + items[..j] && room == room0 - j
          invariant erroneousAccounts == old(erroneousAccounts) && done == old(done)
          invariant posts == old(posts) && commits == old(commits)
        {
          var delivered := Send(items[j]);
          if !delivered {
            AppendAssoc(old(sent), total.sent, []);
            return ReceiverClosed;
          }
          assert items[..j + 1] == items[..j] + [items[j]];
        }
        assert items[..|items|] == items;
        if IsLast(page.value) {
          done := done + {account};
          return LastPage;
        }
        ghost var rest := Paginate(web, page.value.next.value, room, left - 1);
        AppendAssoc(sent0, items, rest.sent);
        url := page.value.next.value;
        left := left - 1;
      }
    }
  }
}
