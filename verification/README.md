# mstdn-ebooks core, modelled in Dafny

mstdn-ebooks is a Markov-chain "ebooks" bot for Mastodon and Pleroma. This
project models three of its parts and proves properties of them:

- **The reply service** (`reply.py`). `ReplyBot` reads its own account id and
  the set of accounts it follows once. For each mention it then does the following:
  - fetches the thread context, retrying a `BadResponse` with sleeps of 2 and
    4 seconds and giving up at the third failure;
  - drops the mention if the bot has already written `max_thread_length` posts
    among the ancestors;
  - strips one leading mention and lowercases the text;
  - if the text is exactly "pin" or "unpin", runs the command: authorises the
    sender, finds the target among the ancestors, pins or unpins it, and reacts
    with ✅, or with ❌ plus an error reply;
  - otherwise posts a generated reply in which every `@` is followed by a
    zero-width space.
- **The utilities** (`utils.py`): `removeprefix`, and the rate-limit wrapper.
  The wrapper re-issues an HTTP request after waiting for the reset time
  whenever `X-RateLimit-Remaining` is `0` or `1`.
- **The post fetcher** (`fetch_posts.py`). It finds an account's outbox: it
  splits the handle, queries WebFinger with an `acct:` URI (section 4.4.4 of
  RFC 7033, RFC 7565), picks the first `self` link of type
  `application/activity+json`, and falls back to `<profile>/outbox` when the
  profile is not JSON. It walks the outbox pages along their `next` links and
  forwards every activity into a stream. It stores the posts of that stream in
  a table keyed by `post_id`, and stops at the first post it already has.

Modules:

- Wrappers: `Option`, `Result`.
- Sequences: three lemmas about concatenation and slicing.
- Strings: the Python `str` operations the code uses.
- ReplyText: `extract_toot`, command matching, the `@` rewrite.
- ReplyService: the pipeline as specification functions, the lemmas about
  them, and the classes `Client` and `ReplyBot`.
- Utils: `removeprefix`, and the rate-limit loop as the class
  `RateLimitContextManager`.
- FetchPosts: the fetcher's pure functions, their lemmas, and the class
  `PostFetcher`.

The outside world is modelled as answers, not as I/O:

- The Pleroma server and the reply generator are a `World` of answers indexed
  by how many calls of each kind came before.
- Every effect is appended to a trace of `Action`s. The reaction and the error
  reply that `process_command` starts in one task group are a single
  `Concurrently` action holding an unordered set.
- Each method of `ReplyBot` is proved to produce exactly the trace its
  specification function describes. The lemmas then state what those traces
  look like.
- The rate-limit wrapper answers from a sequence of responses and records its
  requests, waits and closes as events.
- The fetcher's HTTP answers are functions of the URL (`Web`).

Three behaviours of the code are kept as written:

- `toot.replace("@", "@\u200b")` is not idempotent: a second pass adds a
  second zero-width space (`ReplyText.SanitizeNotIdempotent`).
- An exception that `process_notification` does not catch ends `run`'s loop,
  and later mentions are not processed (`ReplyService.RunSpecStops`).
- If no ancestor matches `in_reply_to_id`, `target_post_id` is unbound and
  the command fails before any pin or unpin (`Raised(UnboundTarget)`,
  `ReplyService.MissingTargetRaises`).

## Model

| member | source | states |
|---|---|---|
| Strings.Replace | reply.py:87 | `s.replace(c, rep)` for a one-character pattern: each `c` becomes `rep`, every other character is kept, in order; its properties are the lemmas below |
| Strings.ReplaceDistributes | utils.py:63 | replacing in a concatenation is the concatenation of the replacements |
| Strings.Lower | reply.py:95 | the result has the input's length; each character is lowercased (ASCII letters only) |
| Strings.LowerIdempotent | reply.py:95 | lowercasing twice equals lowercasing once |
| Strings.LStrip | fetch_posts.py:189 | the result is a suffix of the input, does not start with the character, and everything removed was that character |
| Strings.LStripRepeat | fetch_posts.py:189 | a run of `n` copies of `c` followed by text not starting with `c` strips to exactly that text |
| Strings.Partition | fetch_posts.py:189 | found iff the separator occurs; then input == before + sep + after and `before` has no separator; otherwise (input, false, "") |
| Strings.PartitionAt | fetch_posts.py:189 | partitioning `before + [c] + after`, where `before` has no `c`, gives exactly (before, true, after) |
| Strings.ReplaceRemoves | utils.py:63 | replacing `c` by a text without `c` leaves no `c` |
| Strings.ReplaceAbsent | utils.py:63 | replacing a character that does not occur changes nothing |
| Utils.RemovePrefix | utils.py:31-36 | with the prefix, prefix + result == s; without it, result == s; always a suffix of s; an empty prefix changes nothing |
| Utils.NormalizeReset | utils.py:63 | no 'Z' is left in the reset stamp, and a stamp without 'Z' is unchanged |
| Utils.NormalizeResetAtZ | utils.py:63 | each 'Z' becomes "+00:00", with the text on either side normalised on its own |
| Utils.Acceptable | utils.py:60-61 | a response passes when `X-RateLimit-Remaining` is absent or neither "0" nor "1" |
| Utils.EnterSpec | utils.py:54-65 | the attempts of `__aenter__` over the successive responses: return the first acceptable one, fail on a rejected one without a reset header, otherwise record request, wait and close and try again; at most the available responses are used |
| Utils.EnterReturnsFirstAcceptable | utils.py:58-65 | a response is returned iff some attempt is acceptable with only retryable attempts before it; it is then the first acceptable response, after k + 1 requests |
| Utils.EnterEventCount | utils.py:55-65 | three events per rejected response, then one request unless the responses ran out |
| Utils.EnterClosesBeforeReissue | utils.py:55-65 | each rejected response is retryable, and its events are: request with the same args and kwargs, wait until its normalised reset, close it |
| Utils.EnterSpecRetry | utils.py:63-65 | a retryable first response adds one rejection in front of the rest of the attempts |
| Utils.RateLimitContextManager.constructor | utils.py:45-52 | keeps the args and the session; nothing entered, no events |
| Utils.RateLimitContextManager.Enter | utils.py:54-65 | the outcome and events are those of `EnterSpec`, and the used responses are consumed; the open response is the returned one, the rejected one without a reset header (left open by the KeyError), or, when the script ended, nothing (or the earlier one if no request was made) |
| Utils.RateLimitContextManager.Exit | utils.py:67-68 | closes the open response, if any, and nothing else |
| ReplyText.IsCommand | reply.py:47 | only the exact texts "pin" and "unpin" are commands (used by `CommandPathExactlyForCommands`) |
| ReplyText.Sanitize | reply.py:87 | each '@' becomes '@' followed by U+200B; its properties are the `Sanitize…` lemmas below |
| ReplyText.LeadingMentionUnique | reply.py:94 | `^@\S+\s` can match at one length only |
| ReplyText.MentionEnd | reply.py:94 | returns the end of the leading mention if there is one, and None only if no leading mention exists |
| ReplyText.ExtractToot | reply.py:91-96 | either a leading mention exists and the result is the lowercased rest after it, or none exists and the result is the lowercased text |
| ReplyText.ExtractTootAfterMention | reply.py:94-95 | a text starting with a mention ending at k extracts to the lowercased text after k |
| ReplyText.PinWithWordsIsNotCommand | reply.py:47 | "@bot PIN it" extracts to "pin it", which is not a command |
| ReplyText.SecondMentionKept | reply.py:94 | only the first mention is removed: "@a @b Pin" gives "@b pin" |
| ReplyText.BareCommandRecognised | reply.py:47 | "@bot UnPin" is the command "unpin"; "pin " is not a command |
| ReplyText.SanitizeEscapesEveryAt | reply.py:87 | every '@' of the rewritten text is followed by U+200B |
| ReplyText.SanitizeLength | reply.py:87 | the rewritten text is one character longer per '@' |
| ReplyText.UnsanitizeSanitize | reply.py:87 | deleting the U+200B after each '@' gives back the input |
| ReplyText.SanitizeNotIdempotent | reply.py:87 | rewriting "@" twice differs from rewriting it once |
| ReplyService.OwnPosts | reply.py:54-57 | the count of the bot's posts is at most the number of ancestors |
| ReplyService.OwnPostsMonotone | reply.py:55-59 | a longer prefix of the ancestors holds no fewer of the bot's posts |
| ReplyService.ThreadTooLong | reply.py:52-61 | the ancestors are non-empty and at least `max_thread_length` of them are the bot's (`CheckThreadLength` is proved equal to it) |
| ReplyService.CommandText | reply.py:46 | the text classified is `extract_toot` of the post content of the status |
| ReplyService.ReplySpec | reply.py:83-89 | one reply to the status with the generated text, optionally stripped of paired punctuation, with '@' rewritten and mentions removed, with the configured cw; one generated post used |
| ReplyService.CommandSpec | reply.py:63-81 | ❌ alone for an unfollowed sender; otherwise the target, raise if unbound, pin or unpin, then ✅ or the unordered ❌ and error reply |
| ReplyService.FetchSpec | reply.py:30-40 | the context fetch with retries: on `BadResponse` sleep 2^retry and retry while retry < 3, else give up; any other error raises; a thread continues |
| ReplyService.ProcessSpec | reply.py:25-50 | `process_notification`: `FetchSpec`, then `Dispatch` on a fetched thread |
| ReplyService.Dispatch | reply.py:42-50 | the thread gate, then the command path for "pin"/"unpin" and the reply path otherwise |
| ReplyService.RunSpec | reply.py:22-23 | the notifications in stream order, each with the call counts the earlier ones left, until one raises |
| ReplyService.Target | reply.py:70-72 | a target exists iff `in_reply_to_id` is set and some ancestor has that id; it is then that id |
| ReplyService.ContextUnfolds | reply.py:32-50 | a fetched thread gives one fetch followed by what the gate and the command or reply path do |
| ReplyService.RetryUnfolds | reply.py:30-36 | a `BadResponse` before the third attempt gives a fetch, a sleep of 2^retry, then the next attempt |
| ReplyService.RunSpecExtend | reply.py:22-23 | the next notification is processed after the earlier ones, with the call counts they left |
| ReplyService.RunSpecStops | reply.py:22-23 | once an exception escapes, no later notification is processed |
| ReplyService.GivesUpAfterThreeBadResponses | reply.py:30-40 | three `BadResponse`s give exactly fetch, sleep 2, fetch, sleep 4, fetch and no other action |
| ReplyService.DispatchHasNoRetryActions | reply.py:43-50 | after the fetch, neither path fetches or sleeps |
| ReplyService.SecondAttemptSucceeds | reply.py:30-40 | `BadResponse` and then a thread give fetch, sleep 2, fetch, and no further fetch or sleep |
| ReplyService.LongThreadIsDropped | reply.py:43-44 | a thread that is too long gives the one fetch and nothing else |
| ReplyService.CommandPathExactlyForCommands | reply.py:46-50 | text other than exactly "pin" or "unpin" gives one reply to the triggering status with the configured cw; a command never replies that way or sleeps (the reply carries the cw at reply.py:89) |
| ReplyService.UnauthorizedCommandRejected | reply.py:65-67 | a command from an unfollowed account gives exactly one ❌ reaction and no pin or unpin |
| ReplyService.AuthorizedCommandActs | reply.py:70-81 | pin for "pin", unpin otherwise, on the replied-to ancestor; success gives one ✅; `BadRequest(msg)` gives the unordered pair ❌ and "Error: " + msg |
| ReplyService.MissingTargetRaises | reply.py:70-75 | with no matching ancestor the command raises before any pin or unpin |
| ReplyService.FindTarget | reply.py:70-72 | the loop's result is the target: the id of the last matching ancestor |
| ReplyService.Client.constructor | reply.py:16 | no calls made, empty trace |
| ReplyService.Client.Me | reply.py:20 | the bot's own account id |
| ReplyService.Client.Following | reply.py:21 | the ids of the followed accounts |
| ReplyService.Client.StatusContext | reply.py:32 | answers the next scripted context and records a fetch |
| ReplyService.Client.Sleep | reply.py:35 | records the sleep |
| ReplyService.Client.React | reply.py:66 | records the reaction |
| ReplyService.Client.Pin | reply.py:75 | answers the next scripted pin result and records the pin |
| ReplyService.Client.Unpin | reply.py:75 | answers the next scripted pin result and records the unpin |
| ReplyService.Client.Reply | reply.py:89 | records the reply |
| ReplyService.Client.ReactAndReply | reply.py:77-79 | records the reaction and the error reply as one unordered pair |
| ReplyService.Client.MakePost | reply.py:84 | the next generated text; nothing recorded |
| ReplyService.ReplyBot.constructor | reply.py:14-16 | keeps the configuration and the client |
| ReplyService.ReplyBot.Run | reply.py:18-23 | sets `me` and `follows` once, then produces exactly the trace and outcome of `RunSpec` |
| ReplyService.ReplyBot.ProcessMentions | reply.py:22-23 | the loop over the stream produces exactly the trace, call counts and outcome of `RunSpec`, stopping at the first exception |
| ReplyService.ReplyBot.ProcessNotification | reply.py:25-50 | fetch with retries, gate, then command or reply: exactly the trace, outcome and call counts of `ProcessSpec` |
| ReplyService.ReplyBot.ProcessThread | reply.py:42-50 | the part after the fetch produces exactly the trace and outcome of `Dispatch` |
| ReplyService.ReplyBot.CheckThreadLength | reply.py:52-61 | true iff there are ancestors and the bot wrote at least `max_thread_length` of them |
| ReplyService.ReplyBot.ProcessCommand | reply.py:63-81 | the command path produces exactly the trace, outcome and call counts of `CommandSpec` |
| ReplyService.ReplyBot.Reply | reply.py:83-89 | one reply with the rewritten generated text, to the status, with the configured cw |
| FetchPosts.CheckContentType | fetch_posts.py:219 | the type is exactly the expected one, or the expected one followed by ';' and parameters |
| FetchPosts.IsProfileLink | fetch_posts.py:232 | `rel` is "self" and the type passes `check_ap` |
| FetchPosts.FingerUrl | fetch_posts.py:213 | `http://{instance}/.well-known/webfinger?resource=acct:{username}@{instance}` |
| FetchPosts.ContentTypeExtension | fetch_posts.py:219 | `expected + rest` is accepted iff `rest` is empty or starts with ';' (so `application/activity+jsonx` is refused) |
| FetchPosts.FirstProfileLink | fetch_posts.py:229-233 | the index found is a profile link, and no link before it is |
| FetchPosts.ParseWebfingerResult | fetch_posts.py:217-236 | success iff some link is a profile link; the href is that of the first one; otherwise the `RuntimeError` message naming the handle |
| FetchPosts.FirstProfileLinkWins | fetch_posts.py:229-233 | the first profile link is chosen whatever comes before or after it |
| FetchPosts.SplitHandle | fetch_posts.py:189-190 | success iff an '@' remains after stripping the leading ones; then the stripped handle is username + "@" + instance with no '@' in username; otherwise the assertion fails |
| FetchPosts.SplitHandleParts | fetch_posts.py:189 | any number of leading '@'s go; the split is at the first '@' that remains |
| FetchPosts.SplitHandleNeedsSecondAt | fetch_posts.py:189-190 | a handle with no '@' after its leading ones fails the assertion |
| FetchPosts.FingerResourceIsHandle | fetch_posts.py:213 | the WebFinger URL asks about `acct:` followed by the stripped handle |
| FetchPosts.OutboxUrl | fetch_posts.py:198-204 | the profile's `outbox` for a JSON profile; the profile URL + "/outbox" when the profile is not JSON; no URL only when the profile request fails |
| FetchPosts.FetchOutbox | fetch_posts.py:184-215 | a handle without a second '@' fails the assertion; a success is always an "OrderedCollection" |
| FetchPosts.OutboxFromJsonProfile | fetch_posts.py:198-207 | a JSON profile makes the outbox come from its `outbox` URL, checked to be an "OrderedCollection" |
| FetchPosts.OutboxGuessedWhenProfileNotJson | fetch_posts.py:198-207 | a non-JSON profile makes the outbox come from the chosen link's href + "/outbox" |
| FetchPosts.RowOf | fetch_posts.py:130-144 | the summary is NULL iff it was null or empty, and is otherwise kept |
| FetchPosts.Insert | fetch_posts.py:123-145 | non-Create is not inserted; another constraint fails iff a Create's row breaks it; a duplicate iff a Create's row breaks nothing else and its id is stored; otherwise stored under its id as the normalised row; the table changes only when stored |
| FetchPosts.IngestSpec | fetch_posts.py:102-117 | a stream that ended was consumed whole; a stop took at least one activity |
| FetchPosts.IngestKeepsRows | fetch_posts.py:102-114 | rows already stored are never changed or removed |
| FetchPosts.IngestNewRows | fetch_posts.py:102-145 | every new row is the normalised object of a Create activity the loop reached |
| FetchPosts.IngestPrefixFresh | fetch_posts.py:102-114 | every activity taken before the stop is a fresh post or not a post, and the stream ended iff all were taken |
| FetchPosts.IngestPrefixStored | fetch_posts.py:102-104 | the posts taken are each stored as their row, and the table gains exactly their ids |
| FetchPosts.IngestStopCause | fetch_posts.py:105-117 | the activity stopped at is a Create; the end is `Failed` iff its row breaks another constraint; on `Duplicate` its id is already stored or among those just stored |
| FetchPosts.IngestStopsAtFirstFailure | fetch_posts.py:101-117 | the loop stops at the FIRST insert that fails: the three lemmas above together |
| FetchPosts.IngestStopsAtDuplicate | fetch_posts.py:105-114 | stopping on a duplicate means the last activity taken is a Create whose id is already stored |
| FetchPosts.CreatedIds | fetch_posts.py:124-127 | exactly the ids of the stream's Create activities |
| FetchPosts.IngestFreshPosts | fetch_posts.py:102-104 | a stream of new, distinct posts is stored whole and the table gains exactly their ids |
| FetchPosts.PagesFrom | fetch_posts.py:163-180 | at most `fuel` pages, the first being the start URL's page; only the last page may lack a `next` |
| FetchPosts.PagesFromFollowsNext | fetch_posts.py:163-180 | each later page is the answer for the previous page's `next`; the walk ends only at a last page, a failed request, or after `fuel` pages |
| FetchPosts.Paginate | fetch_posts.py:163-182 | never more sent than the receiver accepts; a closed receiver means it took all it would |
| FetchPosts.PaginateForwardsInOrder | fetch_posts.py:163-180 | what is sent is a prefix of the pages' items in page order, and all of them unless the receiver closed |
| FetchPosts.PaginateStopsAtLastPage | fetch_posts.py:178-180 | a normal end is on a page whose `next` is missing or empty |
| FetchPosts.PostFetcher.constructor | fetch_posts.py:32-34 | no erroneous accounts, the given table, nothing sent |
| FetchPosts.PostFetcher.InsertActivity | fetch_posts.py:123-145 | the table becomes `Insert`'s table, and nothing else changes |
| FetchPosts.PostFetcher.ProcessPages | fetch_posts.py:99-121 | the table and end are those of `IngestSpec`; erroneous only on another integrity error; committed and done in every case |
| FetchPosts.PostFetcher.Send | fetch_posts.py:170-173 | delivered iff the receiver still accepts; then appended in order |
| FetchPosts.PostFetcher.FetchAccount | fetch_posts.py:149-182 | an outbox failure marks the account done and erroneous; otherwise exactly the items of `Paginate` are sent, and done is set only on a last page |
| FetchPosts.PostFetcher.FetchFrom | fetch_posts.py:152-182 | the same, once `fetch_outbox` has answered |
| FetchPosts.PostFetcher.FollowPages | fetch_posts.py:163-182 | the page loop sends exactly `Paginate`'s items in order and ends as it does |

## Left out

- Network I/O is replaced by scripted answers: the Pleroma client,
  `stream_mentions` (a finite sequence here), aiohttp and the WebFinger,
  profile, outbox and page requests.
- SQLite is replaced by a map keyed by `post_id`: connections, cursors,
  `commit` (only counted), migrations and the schema. Which rows break a
  constraint other than the unique key is the parameter `violates`.
- FetchPosts.Insert: when a row breaks both the unique key and another
  constraint, the model reports the other constraint. That is an assumption
  about SQLite's order of checks, which differs between kinds of constraint.
- anyio concurrency is left out: task groups, events, memory streams,
  cancellation, `shield`, `as_corofunc`/`as_async_cm`, and `fetch_all` /
  `_do_account`, which run `_process_pages` and `_fetch_account` side by side.
  - The done event is modelled as a set of accounts.
  - The memory stream is modelled as the sequence of sent activities plus how
    many more sends the receiver accepts (`room`).
  - `_process_pages` is given the activities the stream delivers.
- Clocks are left out: `sleep_until` and the parsing of the reset stamp by
  `datetime.fromisoformat` are recorded only as a `WaitUntil` event of the
  normalised stamp. Pendulum's timestamp parsing is an uninterpreted function.
- The third_party.utils functions (`extract_post_content`, `make_post`,
  `remove_mentions`, `load_config`, `arg_parser_factory`) are uninterpreted
  functions. So is `PAIRED_PUNCTUATION.sub`, because it is not defined in
  reply.py.
- ReplyText.ExtractToot: lowercasing covers ASCII letters only, and `\s`
  covers its ASCII members (space, \t, \n, \r, \v, \f and 0x1C to 0x1F).
  Python's Unicode `lower()` and the non-ASCII whitespace of `\s` (such as
  U+0085, U+00A0 and U+2028) are not modelled.
- Utils.RateLimitContextManager.Enter: header names are matched exactly.
  aiohttp's case-insensitive header lookup is not modelled. The responses are
  a finite script, and its end is an outcome of its own.
- FetchPosts.PostFetcher.FollowPages: walks at most `fuel` pages. The source
  loops forever on a cycle of `next` links. Its page requests go straight to
  `Web` and do not pass through the rate-limit wrapper, which is modelled on
  its own in `Utils`.
- FetchPosts.Paginate: the same `fuel` bound on the number of pages.
- FetchPosts.PostFetcher.InsertActivity: `obj['summary']` is not rewritten
  in place in the caller's activity. Only the stored row has the `NULL` summary.
- A missing JSON key (`KeyError`) is not modelled; every document has the keys
  the code reads. Exceptions that `_insert_activity` raises other than an
  integrity error are not modelled either.
- The unused `acct` of `process_notification` is not modelled. Neither are
  exceptions from `me`, `following`, react, reply or pin other than
  `BadRequest`.
- The diagnostic prints are not modelled, and neither is the traceback of `_fetch_account`.
- The command line and entry points are not modelled: `parse_args`, `amain`,
  and the `KeyboardInterrupt` handling.
