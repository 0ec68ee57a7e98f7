# stweet user-timeline runner, modelled in Dafny

This project models the core of stweet's "tweets by user" scraper. A `TweetsByUserTask`
names a user and a stopping rule: either an `until` instant or a `tweets_limit` (default 80).
The `TweetsByUserRunner` then does the following, in a loop:

- it requests timeline pages from a web client, one after another;
- it decodes each page with the `tweet_raw_parser` functions into cursors and raw posts;
- it trims the posts with the stopping filter, counts them into a mutable context, and hands them to every registered raw-data sink;
- it repeats until the context says the run is over.

Model layout:

- `wrappers.dfy`: `Option` and `Result`.
- `json.dfy`: a decoded JSON tree and the Python operations the source applies to it.
  - `d[key]`, `x[0]`, iteration and `in`.
  - Their failures become `KeyError`, `IndexError` and `TypeError` values.
- `tweet_raw_parser.dfy`: the page parser, as pure functions, with lemmas about it.
- `tweets_by_user_task.dfy`: the task, as an immutable datatype with the constructor's defaults.
- `tweets_by_user_context.dfy`: the context, as a class, and its value snapshot `ContextState`.
- `collaborators.dfy`: the web client and the raw-data sink, as classes.
  - The web client answers from a script of responses and records each request.
  - The sink records each exported batch.
- `runner_spec.dfy`: the runner's behaviour as functions on values.
  - `Filter` is the stopping filter.
  - `Step` is one request.
  - `RunSpec` is the whole loop.
  - `Fanout` is what the sinks receive.
  - `ExportLog` is the sequence of sink calls.
- `tweets_by_user_runner.dfy`: the runner as a class. Each of its methods is proved to change the context, the web client and the sinks exactly as the functions of `runner_spec.dfy` say. A ghost log records every `export_raw_data` call in call order.
- `runner_properties.dfy`: what those functions guarantee.
  - The filter's cutoffs.
  - Cursor selection.
  - The "not found" short cut.
  - Termination shape.
  - The limit never being exceeded.
  - Delivery to sinks.
- `scenarios.dfy`: concrete JSON pages and runs over them.

An error raised by the program is a value here:

- `ScrapBatchBadResponse` becomes `ScrapError.BadResponse`.
- A failed subscript becomes `JsonFailure`.
- An unparsable `created_at` becomes `DateUnparsable`.
- Comparing against a missing limit becomes `LimitNotSet`.
- `Run` returns `Aborted(error)` where the program raises.

The model keeps these behaviours of the code:

- A page without a `TimelineAddEntries` instruction is an `IndexError`, because the code takes `[0]` of an empty list. It is not an empty page.
- In limit mode with `tweets_limit=None`, a non-empty batch fails with `LimitNotSet`, because the code compares an int with `None`. An empty batch still stops the run first.
- The limit cut is Python's `s[:limit - count]`. A negative bound counts from the end (`PySliceTo`). That can only happen when a run starts from a context already past the limit, or when the limit itself is negative.
- Module entries look only at item 0. An empty module is an `IndexError`.
- An entry without `content` or `entryType` fails the whole page.
- An instruction without `type` fails the whole page.
- In limit mode the count never passes the limit, as long as it starts at or below it.

## Model

| member | source | states |
|---|---|---|
| TweetRawParser.ParseTweetsEntryContent | stweet/tweets_by_user_runner/tweet_raw_parser.py:10-26 | defines entry classification by `entryType`: a cursor entry gives `Cursor(cursorType, value)`, a `TimelineTimelineItem` gives its post when `itemType` is `TimelineTweet`, a `TimelineTimelineModule` does the same for `items[0]` only, and any other type gives nothing; each missing key or empty `items` is that subscript's error |
| TweetRawParser.GetAllTweetsFromJson | stweet/tweets_by_user_runner/tweet_raw_parser.py:29-35 | defines page decoding: follow `data.user.result.timeline_v2.timeline.instructions`, take the `entries` of the first `TimelineAddEntries` instruction (IndexError when there is none), classify every entry's `content` in order, and drop the nothings; the first failure fails the page |
| RunnerSpec.IsEndOfScrapping | stweet/tweets_by_user_runner/tweets_by_user_runner.py:50-56 | defines the loop's end condition: the context is stopped, or at least one request was sent and there is no cursor |
| RunnerSpec.ResponseWithNotFound | stweet/tweets_by_user_runner/tweets_by_user_runner.py:58-61 | defines the "not found" test with Python's `in` and `[]`: true when the body has no `data`, else whether `data` lacks `user`; a body or `data` on which `in` is not defined gives TypeError |
| RunnerSpec.NextCursor | stweet/tweets_by_user_runner/tweets_by_user_runner.py:72-73 | defines the cursor to continue from: the second cursor of the page in entry order, or none when there are fewer than two |
| RunnerSpec.CreatedAt | stweet/tweets_by_user_runner/tweets_by_user_runner.py:90-91 | defines a post's creation instant as `legacy.created_at`; a missing key is that KeyError and a non-numeric value does not parse |
| RunnerSpec.ScanUntil | stweet/tweets_by_user_runner/tweets_by_user_runner.py:89-94 | defines the linear until scan: the index of the first post created at or before `until`, none if all are newer, or the error of the first unreadable date met before that |
| RunnerSpec.Filter | stweet/tweets_by_user_runner/tweets_by_user_runner.py:82-98 | defines `_filter_result` on a batch given the count so far: empty batch stops with nothing; until mode cuts at the scan's index and stops, or keeps all; limit mode without a limit fails; reaching the limit cuts to `s[:limit - count]` and stops; otherwise keeps all |
| RunnerSpec.Step | stweet/tweets_by_user_runner/tweets_by_user_runner.py:63-80 | defines one request: a non-success response fails with it; a failing "not found" test fails; "not found" counts the request and clears the cursor, exporting nothing; otherwise `PageStep` |
| RunnerSpec.PageStep | stweet/tweets_by_user_runner/tweets_by_user_runner.py:71-77 | defines a normal page: parse it, filter its posts, then count one request and the kept posts, set the cursor to the page's second cursor, keep `stop` once set, and export the kept posts; a parse or filter failure fails the step |
| RunnerSpec.RunSpec | stweet/tweets_by_user_runner/tweets_by_user_runner.py:44-48 | defines the loop: finish with the count once the end condition holds; otherwise send `(user_id, cursor)`, abort on a failed step with the context as it was, or continue from the step's new state, collecting requests and exported batches in order |
| RunnerSpec.Fanout | stweet/tweets_by_user_runner/tweets_by_user_runner.py:100-103 | defines what a sink registered `k` times receives for a sequence of exported batches: each batch `k` times in a row, batches in order |
| RunnerSpec.ExportRound | stweet/tweets_by_user_runner/tweets_by_user_runner.py:100-103 | defines the sink calls for one exported batch: one call with the batch on each registered sink, in registration order |
| RunnerSpec.ExportLog | stweet/tweets_by_user_runner/tweets_by_user_runner.py:100-103 | defines the sink calls for a sequence of exported batches: each batch's calls, batch after batch |
| TweetRawParser.CursorEntryYieldsCursor | stweet/tweets_by_user_runner/tweet_raw_parser.py:10-13 | a cursor entry yields the cursor built from its `cursorType` and `value`; a missing `cursorType`, or else a missing `value`, is that KeyError |
| TweetRawParser.ItemEntryYieldsTweet | stweet/tweets_by_user_runner/tweet_raw_parser.py:15-19 | a single-item entry yields a post stamped with the fetch time exactly when its `itemType` is `TimelineTweet`, the post being `tweet_results.result`; any other item type yields nothing |
| TweetRawParser.ModuleEntryReadsFirstItemOnly | stweet/tweets_by_user_runner/tweet_raw_parser.py:20-24 | a module entry's result depends on its first item only: replacing all later items changes nothing |
| TweetRawParser.EmptyModuleEntryFails | stweet/tweets_by_user_runner/tweet_raw_parser.py:21 | a module entry with no items fails with IndexError |
| TweetRawParser.OtherEntryYieldsNothing | stweet/tweets_by_user_runner/tweet_raw_parser.py:11-26 | any other entry type yields nothing; an entry without `entryType` fails with that KeyError |
| TweetRawParser.ParseEntriesPointwise | stweet/tweets_by_user_runner/tweet_raw_parser.py:34 | the entry list parses exactly when every entry's `content` does, giving one result per entry in order |
| TweetRawParser.PresentKeepsOrder | stweet/tweets_by_user_runner/tweet_raw_parser.py:35 | dropping `None`s keeps order, distributes over concatenation, never lengthens, and keeps exactly the present values |
| TweetRawParser.AddEntriesSelectsFirst | stweet/tweets_by_user_runner/tweet_raw_parser.py:32 | the instruction filter succeeds exactly when every instruction has a `type`; it keeps only `TimelineAddEntries` instructions, all of them taken from the input, and its head is the first such instruction |
| TweetRawParser.NoAddEntriesIsIndexError | stweet/tweets_by_user_runner/tweet_raw_parser.py:32 | a page whose instructions hold no `TimelineAddEntries` fails with IndexError |
| TweetRawParser.FirstAddEntriesIsRead | stweet/tweets_by_user_runner/tweet_raw_parser.py:32-33 | the entries read are those of the first `TimelineAddEntries` instruction |
| TweetRawParser.MissingPathFails | stweet/tweets_by_user_runner/tweet_raw_parser.py:30-31 | a missing key on the `data.user.result.timeline_v2.timeline.instructions` path fails the page with that error |
| TweetRawParser.PageKeepsEntryOrder | stweet/tweets_by_user_runner/tweet_raw_parser.py:29-35 | a parsed page is, in entry order, what each entry yields with the nothings dropped, and it has no more elements than entries |
| TweetsByUserTask.TaskDefaults | stweet/tweets_by_user_runner/tweets_by_user_task.py:19-29 | the constructor defaults are no `until` and a limit of 80; the given values are stored unchanged; a given `until` selects until mode |
| TweetsByUserContext.Context.constructor | stweet/tweets_by_user_runner/tweets_by_user_runner.py:36-37 | a fresh context has no cursor, is not stopped, and has zero requests and zero downloaded posts |
| TweetsByUserContext.Context.AddDownloadedTweetsCountInRequest | stweet/tweets_by_user_runner/tweets_by_user_runner.py:68 | counts one more request and adds the given count to the downloaded posts; the cursor and `stop` are unchanged |
| Collaborators.WebClient.RunRequest | stweet/tweets_by_user_runner/tweets_by_user_runner.py:65 | answers with the next scripted response and records the request |
| Collaborators.RawDataOutput.ExportRawData | stweet/tweets_by_user_runner/tweets_by_user_runner.py:102 | appends the batch to what the sink has received |
| RunnerSpec.PySliceTo | stweet/tweets_by_user_runner/tweets_by_user_runner.py:97 | Python's `s[:n]` is a prefix of `s`; for `n >= 0` its length is `n` capped at the length of `s`, and for negative `n` it drops `-n` elements from the end, or all of them |
| TweetsByUserRunner.Runner.constructor | stweet/tweets_by_user_runner/tweets_by_user_runner.py:29-42 | keeps the task, sinks and web client; uses the given context, or a fresh one when none is given |
| TweetsByUserRunner.Runner.Run | stweet/tweets_by_user_runner/tweets_by_user_runner.py:44-56 | loops while the end condition (stopped, or a request sent and no cursor) is false. The outcome, final context, requests sent and batches delivered are those of `RunSpec`, the sink calls are `ExportLog` of those batches (each batch to every sink in registration order, batch after batch), and the finished count is the context's count |
| TweetsByUserRunner.Runner.ExecuteNextTweetsRequest | stweet/tweets_by_user_runner/tweets_by_user_runner.py:63-80 | sends `(user_id, cursor)`. A non-success response raises with the context untouched. "Not found" counts the request and clears the cursor. Otherwise parse, filter, count the kept posts, move to the second cursor and export, exactly as `Step`; the sink calls are one per registered sink, in registration order, for the exported batch and none otherwise |
| TweetsByUserRunner.Runner.FilterResult | stweet/tweets_by_user_runner/tweets_by_user_runner.py:82-98 | the linear until-scan and the limit cut return and set `stop` exactly as `Filter` does, with the same error cases |
| TweetsByUserRunner.Runner.ProcessNewTweetsToOutput | stweet/tweets_by_user_runner/tweets_by_user_runner.py:100-103 | makes one `export_raw_data(batch)` call per registered sink, in registration order, recorded in the runner's call log as `ExportRound`; every sink receives the batch once per registration, and nothing else changes |
| TweetsByUserRunner.Runner.DistinctSinkReceivesEachBatchOnce | stweet/tweets_by_user_runner/tweets_by_user_runner.py:100-103 | with no sink registered twice, each sink has received exactly the delivered batches, in order |
| RunnerProperties.ScanUntilFindsFirstBoundary | stweet/tweets_by_user_runner/tweets_by_user_runner.py:89-94 | the until scan stops at the first post created at or before `until`, all earlier posts being newer. It finds none only when all are newer, and fails only at an unreadable date |
| RunnerProperties.EmptyBatchStops | stweet/tweets_by_user_runner/tweets_by_user_runner.py:84-86 | an empty batch stops the run in either mode |
| RunnerProperties.UntilModeCutsAtFirstOlderPost | stweet/tweets_by_user_runner/tweets_by_user_runner.py:87-94 | until mode keeps exactly the prefix before the first older post and stops; with no such post it keeps all and does not stop; the limit and the count are ignored |
| RunnerProperties.UntilModeOnOrderedBatch | stweet/tweets_by_user_runner/tweets_by_user_runner.py:87-94 | on a batch ordered newest first, until mode keeps exactly the posts newer than `until`, and stops exactly when some post is not newer |
| RunnerProperties.LimitModeCutsAtLimit | stweet/tweets_by_user_runner/tweets_by_user_runner.py:95-98 | when count plus batch reaches the limit, limit mode keeps `limit - count` posts and stops; otherwise it keeps the whole batch without stopping; the count never passes the limit |
| RunnerProperties.LimitModeWithoutLimitFails | stweet/tweets_by_user_runner/tweets_by_user_runner.py:95 | limit mode with no limit fails on a non-empty batch |
| RunnerProperties.FilterKeepsPrefix | stweet/tweets_by_user_runner/tweets_by_user_runner.py:82-98 | the filter always keeps a prefix of its batch, and the whole batch unless it stops |
| RunnerProperties.CursorsDistribute | stweet/tweets_by_user_runner/tweets_by_user_runner.py:72 | selecting the cursors of a page distributes over concatenation |
| RunnerProperties.TweetsDistribute | stweet/tweets_by_user_runner/tweets_by_user_runner.py:74 | selecting the posts of a page distributes over concatenation, keeping their order |
| RunnerProperties.SecondCursorIsKept | stweet/tweets_by_user_runner/tweets_by_user_runner.py:72-73 | with a top and a bottom cursor on the page, the context moves to the bottom (second) one |
| RunnerProperties.SingleCursorEndsPaging | stweet/tweets_by_user_runner/tweets_by_user_runner.py:73 | with a single cursor the next cursor is none |
| RunnerProperties.NotFoundExactlyWithoutDataOrUser | stweet/tweets_by_user_runner/tweets_by_user_runner.py:58-61 | for an object body whose `data`, if present, is an object: the body is "not found" exactly when it lacks `data` or its `data` lacks `user` |
| RunnerProperties.BadResponseAborts | stweet/tweets_by_user_runner/tweets_by_user_runner.py:66-79 | a non-success response fails the step with that response |
| RunnerProperties.NotFoundClearsCursor | stweet/tweets_by_user_runner/tweets_by_user_runner.py:67-69 | a "not found" page counts one request, adds nothing, clears the cursor and exports nothing |
| RunnerProperties.EmptyDataIsNotFound | stweet/tweets_by_user_runner/tweets_by_user_runner.py:58-69 | `{"data": {}}` is "not found" and advances without error, although the parser would fail on it |
| RunnerProperties.NormalPageAdvances | stweet/tweets_by_user_runner/tweets_by_user_runner.py:70-77 | a normal page moves to the second cursor, counts one request and the kept posts, keeps `stop` once set, and exports the kept prefix of the page's posts |
| RunnerProperties.StepIsMonotone | stweet/tweets_by_user_runner/tweets_by_user_runner.py:63-80 | a step that does not fail counts exactly one request, never lowers the count and never clears `stop` |
| RunnerProperties.StepStaysWithinLimit | stweet/tweets_by_user_runner/tweets_by_user_runner.py:95-97 | in limit mode a step from a count within the limit stays within it |
| RunnerProperties.RunEndsWhereLoopEnds | stweet/tweets_by_user_runner/tweets_by_user_runner.py:44-56 | a finished run ends where the end condition holds and returns that count. Every non-failing request is counted once, the count never decreases, and at most one batch is exported per request |
| RunnerProperties.StoppedRunSendsNothing | stweet/tweets_by_user_runner/tweets_by_user_runner.py:46-53 | a stopped context sends no request and returns its count |
| RunnerProperties.FirstRequestHasNoCursor | stweet/tweets_by_user_runner/tweets_by_user_runner.py:54-56 | from a fresh context the first request is always sent, and without a cursor |
| RunnerProperties.CursorlessPageEndsRun | stweet/tweets_by_user_runner/tweets_by_user_runner.py:46-56 | a page that leaves no cursor ends the run right after it, with no further request |
| RunnerProperties.BadResponseAbortsRun | stweet/tweets_by_user_runner/tweets_by_user_runner.py:78-79 | a non-success response aborts the run with the context as it was and nothing more exported |
| RunnerProperties.RunStaysWithinLimit | stweet/tweets_by_user_runner/tweets_by_user_runner.py:95-97 | in limit mode a run starting within the limit never downloads past it |
| RunnerProperties.FreshRunStaysWithinLimit | stweet/tweets_by_user_runner/tweets_by_user_runner.py:95-97 | from a fresh context, a run with a non-negative limit downloads at most that many posts |
| RunnerProperties.FanoutDistributes | stweet/tweets_by_user_runner/tweets_by_user_runner.py:100-103 | what a sink receives over several pages is what it receives page by page, in order |
| RunnerProperties.ExportRoundFollowsRegistration | stweet/tweets_by_user_runner/tweets_by_user_runner.py:101-102 | the calls for one batch are exactly one per registered sink: the i-th call goes to the i-th registered sink with the batch |
| RunnerProperties.ExportLogDistributes | stweet/tweets_by_user_runner/tweets_by_user_runner.py:100-103 | the sink calls over several pages are those of each page, page after page |
| RunnerProperties.FanoutToSingleSink | stweet/tweets_by_user_runner/tweets_by_user_runner.py:101-102 | a sink registered once receives every batch exactly once, in order |
| RunnerProperties.DistinctSinksRegisteredOnce | stweet/tweets_by_user_runner/tweets_by_user_runner.py:101 | in a sink list without repetitions every listed sink is registered exactly once |
| Scenarios.ItemEntryParses | stweet/tweets_by_user_runner/tweet_raw_parser.py:15-19 | a concrete post entry yields its post stamped with the fetch time |
| Scenarios.CursorEntryParses | stweet/tweets_by_user_runner/tweet_raw_parser.py:11-13 | a concrete cursor entry yields its cursor |
| Scenarios.ModuleWithTwoPostsYieldsFirst | stweet/tweets_by_user_runner/tweet_raw_parser.py:20-24 | a module entry with two posts yields the first and drops the second |
| Scenarios.PageParses | stweet/tweets_by_user_runner/tweet_raw_parser.py:30-33 | a page with one `TimelineAddEntries` instruction is found and its entries are read |
| Scenarios.LimitOfFiveOverTwoPages | stweet/tweets_by_user_runner/tweets_by_user_runner.py:44-98 | with limit 5 and pages of 3 and 4 posts: two requests, the second with the first page's bottom cursor; batches of 3 and then 2 posts; finished with 5 |

## Left out

- TweetsByUserRunner.Runner.Run: the web client answers from a finite script of responses. When the script runs out while the loop would go on, `Run` returns `ScriptExhausted`. The program would instead keep requesting.
- HTTP transport and the default web client provider are not modelled.
- Request building (`TwitterApiRequests.get_tweet_request_by_user`): a request is recorded as its `(user_id, cursor)` pair. URLs and headers are not part of this model.
- JSON text: `json.loads` and `json.dumps` are not modelled. Bodies are decoded trees, and a post's raw value is kept as the tree the program would serialize.
- JSON objects are maps, so duplicate keys and key order are not represented. Numbers are integers, so floats are not represented.
- Date parsing: `created_at` is taken to be an integer instant, and anything else is `DateUnparsable`. The `arrow` text format and time zones are not modelled.
- The clock: every post in a run is stamped with one `now` given to the runner. The program reads the clock once per post.
- `_NOT_FOUND_MESSAGE` is declared but never used by the runner, so it has no counterpart.
- Sink implementations and sink failures: a sink only records its batches, and an exception raised by a sink is not modelled.
- `Runner.Valid` assumes that no other code changes a sink's log during a run.
- The implementation of `TweetsByUserContext` (tweets_by_user_context.py) is not part of this model. The context class follows how the runner uses it.
- `TweetsByUserResult` is represented by the count carried in `Finished`.
