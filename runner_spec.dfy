/** What one step and one whole run of the user-timeline runner compute, as functions of the
  * context's state and the responses the web client returns
  * (stweet/tweets_by_user_runner/tweets_by_user_runner.py). The class in
  * tweets_by_user_runner.dfy is proved to do exactly this; runner_properties.dfy proves what
  * these functions guarantee. */
module RunnerSpec {
  import opened Wrappers
  import opened Json
  import opened TweetRawParser
  import opened TweetsByUserTask
  import opened TweetsByUserContext
  import opened Collaborators

  /** Why a run is aborted: a non-success response (ScrapBatchBadResponse), a JSON shape the
    * program cannot subscript, a `created_at` that does not parse as a date, or limit mode
    * with no limit (Python cannot compare an int with None). */
  datatype ScrapError =
    | BadResponse(response: Response)
    | JsonFailure(cause: JsonError)
    | DateUnparsable(createdAt: Json)
    | LimitNotSet

  function LiftJson<T>(r: Result<T, JsonError>): Result<T, ScrapError> {
    match r
    case Success(v) => Success(v)
    case Failure(e) => Failure(JsonFailure(e))
  }

  // ---------------------------------------------------------------------------------------
  // Loop condition and the "not found" test

  /** The run is over once it is stopped, or once a request has been made and left no cursor
    * to continue from. Before the first request the missing cursor does not end the run. */
  predicate IsEndOfScrapping(s: ContextState) {
    s.stop || (s.requestsCount > 0 && s.cursor.None?)
  }

  /** `'data' not in parsed or 'user' not in parsed['data']`, with Python's `in` and `[]`. */
  function ResponseWithNotFound(body: Json): Result<bool, JsonError> {
    var hasData :- Contains(body, "data");
    if !hasData then Success(true)
    else
      var data :- Get(body, "data");
      var hasUser :- Contains(data, "user");
      Success(!hasUser)
  }

  // ---------------------------------------------------------------------------------------
  // Picking cursors and posts out of a parsed page

  /** The cursors of a page, in entry order. */
  function Cursors(parsed: seq<Entry>): seq<Cursor> {
    if parsed == [] then []
    else if parsed[0].CursorEntry? then [parsed[0].cursor] + Cursors(parsed[1..])
    else Cursors(parsed[1..])
  }

  /** The posts of a page, in entry order. */
  function Tweets(parsed: seq<Entry>): seq<UserTweetRaw> {
    if parsed == [] then []
    else if parsed[0].TweetEntry? then [parsed[0].tweet] + Tweets(parsed[1..])
    else Tweets(parsed[1..])
  }

  /** The cursor to continue from: the second cursor of the page (the "bottom" one), or none
    * when the page has fewer than two. */
  function NextCursor(parsed: seq<Entry>): Option<Cursor> {
    var cursors := Cursors(parsed);
    if |cursors| >= 2 then Some(cursors[1]) else None
  }

  // ---------------------------------------------------------------------------------------
  // The stopping filter

  /** The creation instant of a post, read from `legacy.created_at` of its JSON. The text date
    * of the platform is modelled by a number; any other value does not parse. */
  function CreatedAt(tweet: UserTweetRaw): Result<int, ScrapError> {
    var legacy :- LiftJson(Get(tweet.rawValue, "legacy"));
    var createdAt :- LiftJson(Get(legacy, "created_at"));
    if createdAt.JNum? then Success(createdAt.n) else Failure(DateUnparsable(createdAt))
  }

  /** The post was created strictly after `until`, so until mode keeps it. */
  predicate NewerThan(tweet: UserTweetRaw, until: int) {
    CreatedAt(tweet).Success? && CreatedAt(tweet).value > until
  }

  /** The post was created at or before `until`: until mode stops there. */
  predicate AtOrBefore(tweet: UserTweetRaw, until: int) {
    CreatedAt(tweet).Success? && CreatedAt(tweet).value <= until
  }

  /** The linear scan of until mode from position `from`: the index of the first post created
    * at or before `until`, none if there is no such post, or the failure of the first post
    * whose creation time cannot be read. */
  function ScanUntil(batch: seq<UserTweetRaw>, until: int, from: nat): Result<Option<nat>, ScrapError>
    requires from <= |batch|
    decreases |batch| - from
  {
    if from == |batch| then Success(None)
    else
      var createdAt :- CreatedAt(batch[from]);
      if createdAt <= until then Success(Some(from)) else ScanUntil(batch, until, from + 1)
  }

  /** Python's `s[:n]`: a negative `n` counts from the end, and a bound past either end is
    * clamped. */
  function PySliceTo<T>(s: seq<T>, n: int): (r: seq<T>)
    ensures r <= s
    ensures 0 <= n ==> |r| == if n <= |s| then n else |s|
    ensures n < 0 ==> |r| == if -n <= |s| then |s| + n else 0
  {
    if 0 <= n then (if n <= |s| then s[..n] else s)
    else if -n <= |s| then s[..|s| + n]
    else []
  }

  /** What the filter keeps of a batch, and whether it stops the run. */
  datatype Cut = Cut(kept: seq<UserTweetRaw>, stops: bool)

  /** `_filter_result` on a batch, given the count downloaded before it. */
  function Filter(task: Task, count: nat, batch: seq<UserTweetRaw>): Result<Cut, ScrapError> {
    if batch == [] then Success(Cut(batch, true))
    else if task.UntilMode() then
      var first :- ScanUntil(batch, task.until.value, 0);
      match first
      case Some(k) => Success(Cut(PySliceTo(batch, k), true))
      case None => Success(Cut(batch, false))
    else if task.tweetsLimit.None? then Failure(LimitNotSet)
    else if count + |batch| >= task.tweetsLimit.value then
      Success(Cut(PySliceTo(batch, task.tweetsLimit.value - count), true))
    else Success(Cut(batch, false))
  }

  // ---------------------------------------------------------------------------------------
  // One request, and a whole run

  /** The outcome of `_execute_next_tweets_request`: an exception, or the new state of the
    * context and the batch handed to the sinks (none for a "not found" page). */
  datatype StepResult =
    | Failed(error: ScrapError)
    | Advanced(next: ContextState, exported: Option<seq<UserTweetRaw>>)

  /** One request answered by `response`, with every post stamped `now`. */
  function Step(task: Task, s: ContextState, response: Response, now: int): StepResult {
    if !response.success then Failed(BadResponse(response))
    else
      match ResponseWithNotFound(response.body)
      case Failure(e) => Failed(JsonFailure(e))
      case Success(true) => Advanced(s.(cursor := None, requestsCount := s.requestsCount + 1), None)
      case Success(false) => PageStep(task, s, response.body, now)
  }

  /** A successful response that is not "not found": parse, filter, and advance the context
    * by the kept posts and the page's second cursor. */
  function PageStep(task: Task, s: ContextState, body: Json, now: int): StepResult {
    match GetAllTweetsFromJson(body, now)
    case Failure(e) => Failed(JsonFailure(e))
    case Success(parsed) =>
      match Filter(task, s.allDownloadTweetsCount, Tweets(parsed))
      case Failure(e) => Failed(e)
      case Success(cut) =>
        Advanced(ContextState(NextCursor(parsed), s.stop || cut.stops, s.requestsCount + 1,
                              s.allDownloadTweetsCount + |cut.kept|),
                 Some(cut.kept))
  }

  /** How a run ends: with the downloaded count, with an exception, or (in the model only)
    * because the scripted responses ran out while the run still wanted another page. */
  datatype RunOutcome =
    | Finished(allDownloadTweetsCount: nat)
    | Aborted(error: ScrapError)
    | ScriptExhausted

  /** A whole run: how it ends, the final context state, the requests sent and the batches
    * exported, in order. */
  datatype Trace = Trace(
    outcome: RunOutcome,
    final: ContextState,
    requests: seq<Request>,
    exported: seq<seq<UserTweetRaw>>)

  /** The batches one step hands to the sinks. */
  function Batches(exported: Option<seq<UserTweetRaw>>): seq<seq<UserTweetRaw>> {
    if exported.Some? then [exported.value] else []
  }

  /** The batches the sinks receive from one step: none when it fails. */
  function Delivered(r: StepResult): seq<seq<UserTweetRaw>> {
    if r.Advanced? then Batches(r.exported) else []
  }

  /** The run `t` preceded by requests `requests` that exported `exported`. */
  function After(requests: seq<Request>, exported: seq<seq<UserTweetRaw>>, t: Trace): Trace {
    t.(requests := requests + t.requests, exported := exported + t.exported)
  }

  /** `run` from state `s`, the web client answering from `script`. */
  function RunSpec(task: Task, s: ContextState, script: seq<Response>, now: int): Trace
    decreases |script|
  {
    if IsEndOfScrapping(s) then Trace(Finished(s.allDownloadTweetsCount), s, [], [])
    else if script == [] then Trace(ScriptExhausted, s, [], [])
    else
      var request := Request(task.userId, s.cursor);
      match Step(task, s, script[0], now)
      case Failed(e) => Trace(Aborted(e), s, [request], [])
      case Advanced(next, exported) => After([request], Batches(exported), RunSpec(task, next, script[1..], now))
  }

  /** Unfolds `RunSpec` over one step that fails: the run aborts with the state as it was. */
  lemma RunSpecStepFails(task: Task, s: ContextState, script: seq<Response>, now: int)
    requires !IsEndOfScrapping(s) && script != [] && Step(task, s, script[0], now).Failed?
    ensures RunSpec(task, s, script, now) ==
              Trace(Aborted(Step(task, s, script[0], now).error), s, [Request(task.userId, s.cursor)], [])
  {
  }

  /** Unfolds `RunSpec` over one step that advances: the run goes on from the step's state. */
  lemma RunSpecStepAdvances(task: Task, s: ContextState, script: seq<Response>, now: int,
                            next: ContextState, exported: Option<seq<UserTweetRaw>>)
    requires !IsEndOfScrapping(s) && script != [] && Step(task, s, script[0], now) == Advanced(next, exported)
    ensures RunSpec(task, s, script, now) ==
              After([Request(task.userId, s.cursor)], Batches(exported), RunSpec(task, next, script[1..], now))
  {
  }

  /** What remains of a run after `requests` exporting `exported`, once more `run` has reached
    * the end of the scraping or run out of responses. */
  lemma RunSpecStops(task: Task, s: ContextState, script: seq<Response>, now: int,
                     requests: seq<Request>, exported: seq<seq<UserTweetRaw>>)
    requires IsEndOfScrapping(s) || script == []
    ensures After(requests, exported, RunSpec(task, s, script, now)) ==
              Trace(if IsEndOfScrapping(s) then Finished(s.allDownloadTweetsCount) else ScriptExhausted,
                    s, requests, exported)
  {
    assert requests + [] == requests && exported + [] == exported;
  }

  /** The runner's logs: the requests the web client has received, the batches handed to the
    * sinks and every `export_raw_data` call made, in order. */
  datatype RunLogs = RunLogs(
    requests: seq<Request>,
    delivered: seq<seq<UserTweetRaw>>,
    calls: seq<(RawDataOutput, seq<UserTweetRaw>)>)

  /** A run that began with the script `script0` and the logs `start` has sent `requests` and
    * delivered `exported` to the sinks `outputs`: the client has `script` left and the logs
    * are `logs`. */
  ghost predicate LogsFollow(outputs: seq<RawDataOutput>, script0: seq<Response>, start: RunLogs,
                             requests: seq<Request>, exported: seq<seq<UserTweetRaw>>,
                             script: seq<Response>, logs: RunLogs)
  {
    |requests| <= |script0| && script == script0[|requests|..] &&
    logs.requests == start.requests + requests &&
    logs.delivered == start.delivered + exported &&
    logs.calls == start.calls + ExportLog(outputs, exported)
  }

  /** A run over `task` that began with the script `script0` and the logs `start` has sent
    * `requests` and delivered `exported`: the client has `script` left, the logs are `logs`,
    * the context is in `s`, and the whole run `spec` is what happened so far followed by an
    * abort on `error`, or else by `run` from `s`. */
  ghost predicate OnTrack(task: Task, outputs: seq<RawDataOutput>, now: int, spec: Trace,
                          script0: seq<Response>, start: RunLogs,
                          requests: seq<Request>, exported: seq<seq<UserTweetRaw>>, error: Option<ScrapError>,
                          script: seq<Response>, logs: RunLogs, s: ContextState)
  {
    LogsFollow(outputs, script0, start, requests, exported, script, logs) &&
    spec == if error.Some? then Trace(Aborted(error.value), s, requests, exported)
            else After(requests, exported, RunSpec(task, s, script, now))
  }

  // ---------------------------------------------------------------------------------------
  // What the sinks receive

  /** How many times `o` occurs in `outputs`: a sink registered twice is exported to twice. */
  function Registrations<T(==)>(outputs: seq<T>, o: T): nat {
    if outputs == [] then 0
    else Registrations(outputs[..|outputs| - 1], o) + (if outputs[|outputs| - 1] == o then 1 else 0)
  }

  /** `k` copies of `batch`: what a sink registered `k` times receives for one page. */
  function Copies(batch: seq<UserTweetRaw>, k: nat): seq<seq<UserTweetRaw>> {
    if k == 0 then [] else Copies(batch, k - 1) + [batch]
  }

  /** The export calls of one page, in the order the sinks were registered: one call of
    * `batch` on each entry of `outputs`. */
  function ExportRound(outputs: seq<RawDataOutput>, batch: seq<UserTweetRaw>): seq<(RawDataOutput, seq<UserTweetRaw>)> {
    if outputs == [] then []
    else ExportRound(outputs[..|outputs| - 1], batch) + [(outputs[|outputs| - 1], batch)]
  }

  /** All export calls for the pages that exported `batches`: page after page, and within a
    * page sink after sink in registration order. */
  function ExportLog(outputs: seq<RawDataOutput>, batches: seq<seq<UserTweetRaw>>): seq<(RawDataOutput, seq<UserTweetRaw>)> {
    if batches == [] then []
    else ExportLog(outputs, batches[..|batches| - 1]) + ExportRound(outputs, batches[|batches| - 1])
  }

  /** The export calls of one step: a round over all sinks when it exported a batch, none
    * otherwise. */
  function StepExportCalls(outputs: seq<RawDataOutput>, r: StepResult): seq<(RawDataOutput, seq<UserTweetRaw>)> {
    if r.Advanced? && r.exported.Some? then ExportRound(outputs, r.exported.value) else []
  }

  /** What a sink registered `k` times receives for the pages that exported `batches`. */
  function Fanout(batches: seq<seq<UserTweetRaw>>, k: nat): seq<seq<UserTweetRaw>> {
    if batches == [] then []
    else Fanout(batches[..|batches| - 1], k) + Copies(batches[|batches| - 1], k)
  }

  /** Concatenation is associative. */
  lemma ConcatAssoc<T>(a: seq<T>, b: seq<T>, c: seq<T>)
    ensures (a + b) + c == a + (b + c)
  {
  }

  /** The empty sequence is a unit of concatenation. */
  lemma ConcatEmpty<T>(a: seq<T>)
    ensures a + [] == a && [] + a == a
  {
  }

  /** Dropping `n` elements and then one more drops `n + 1`. */
  lemma DropOneMore<T>(s: seq<T>, n: nat)
    requires n < |s|
    ensures s[n..][1..] == s[n + 1..]
  {
  }

  lemma AfterAfter(r1: seq<Request>, e1: seq<seq<UserTweetRaw>>, r2: seq<Request>, e2: seq<seq<UserTweetRaw>>, t: Trace)
    ensures After(r1, e1, After(r2, e2, t)) == After(r1 + r2, e1 + e2, t)
  {
    assert r1 + (r2 + t.requests) == (r1 + r2) + t.requests;
    assert e1 + (e2 + t.exported) == (e1 + e2) + t.exported;
  }
}
