/** What the runner guarantees, proved of the functions in runner_spec.dfy that the runner
  * class is proved to implement. */
module RunnerProperties {
  import opened Wrappers
  import opened Json
  import opened TweetRawParser
  import opened TweetsByUserTask
  import opened TweetsByUserContext
  import opened Collaborators
  import opened RunnerSpec

  // ---------------------------------------------------------------------------------------
  // The stopping filter

  /** The until-mode scan finds the first post created at or before `until`, having read every
    * post before it as strictly newer; it reports none only when every post is newer; and it
    * fails only at a post whose creation time cannot be read, all posts before it newer. */
  lemma {:induction false} ScanUntilFindsFirstBoundary(batch: seq<UserTweetRaw>, until: int, from: nat)
    requires from <= |batch|
    decreases |batch| - from
    ensures var r := ScanUntil(batch, until, from);
            (r.Success? && r.value.Some? ==>
               from <= r.value.value < |batch| && AtOrBefore(batch[r.value.value], until) &&
               forall j :: from <= j < r.value.value ==> NewerThan(batch[j], until)) &&
            (r.Success? && r.value.None? ==>
               forall j :: from <= j < |batch| ==> NewerThan(batch[j], until)) &&
            (r.Failure? ==>
               exists k :: from <= k < |batch| && CreatedAt(batch[k]) == Failure(r.error) &&
                 forall j :: from <= j < k ==> NewerThan(batch[j], until))
  {
    if from < |batch| {
      ScanUntilFindsFirstBoundary(batch, until, from + 1);
    }
  }

  /** An empty batch stops the run and keeps nothing, whatever the mode. */
  lemma EmptyBatchStops(task: Task, count: nat)
    ensures Filter(task, count, []) == Success(Cut([], true))
  {
  }

  /** Until mode keeps exactly the posts before the first one created at or before `until`
    * and then stops; with no such post it keeps the whole batch and does not stop. The limit
    * and the count so far are never consulted. */
  lemma UntilModeCutsAtFirstOlderPost(task: Task, count: nat, batch: seq<UserTweetRaw>,
                                      otherLimit: Option<int>, otherCount: nat)
    requires task.UntilMode() && batch != []
    ensures var until := task.until.value;
            var r := Filter(task, count, batch);
            (r.Success? && r.value.stops ==>
               |r.value.kept| < |batch| && r.value.kept == batch[..|r.value.kept|] &&
               AtOrBefore(batch[|r.value.kept|], until) &&
               forall j :: 0 <= j < |r.value.kept| ==> NewerThan(batch[j], until)) &&
            (r.Success? && !r.value.stops ==>
               r.value.kept == batch && forall j :: 0 <= j < |batch| ==> NewerThan(batch[j], until)) &&
            (r.Failure? ==>
               exists k :: 0 <= k < |batch| && CreatedAt(batch[k]) == Failure(r.error) &&
                 forall j :: 0 <= j < k ==> NewerThan(batch[j], until))
    ensures Filter(task.(tweetsLimit := otherLimit), otherCount, batch) == Filter(task, count, batch)
  {
    ScanUntilFindsFirstBoundary(batch, task.until.value, 0);
  }

  /** On a batch whose creation times do not increase, until mode keeps exactly the posts
    * strictly newer than `until`, and stops exactly when some post is not. */
  lemma UntilModeOnOrderedBatch(task: Task, count: nat, batch: seq<UserTweetRaw>)
    requires task.UntilMode() && batch != []
    requires forall i :: 0 <= i < |batch| ==> CreatedAt(batch[i]).Success?
    requires forall i, j :: 0 <= i < j < |batch| ==> CreatedAt(batch[j]).value <= CreatedAt(batch[i]).value
    ensures var until := task.until.value;
            var r := Filter(task, count, batch);
            r.Success? && r.value.kept <= batch &&
            (forall j :: 0 <= j < |r.value.kept| ==> NewerThan(batch[j], until)) &&
            (forall j :: |r.value.kept| <= j < |batch| ==> AtOrBefore(batch[j], until)) &&
            (r.value.stops <==> exists j :: 0 <= j < |batch| && AtOrBefore(batch[j], until))
  {
    UntilModeCutsAtFirstOlderPost(task, count, batch, task.tweetsLimit, count);
    var until := task.until.value;
    var r := Filter(task, count, batch);
    if r.value.stops {
      var n := |r.value.kept|;
      forall j | n <= j < |batch| ensures AtOrBefore(batch[j], until) {
        if j > n {
          assert CreatedAt(batch[j]).value <= CreatedAt(batch[n]).value;
        }
      }
      assert AtOrBefore(batch[n], until);
    }
  }

  /** Limit mode keeps the whole batch while the count stays under the limit; once the count
    * plus the batch reaches the limit it stops and keeps only the first `limit - count` posts.
    * `until` is not given, so it plays no part. */
  lemma LimitModeCutsAtLimit(task: Task, count: nat, batch: seq<UserTweetRaw>)
    requires !task.UntilMode() && task.tweetsLimit.Some? && batch != []
    ensures var limit := task.tweetsLimit.value;
            var r := Filter(task, count, batch);
            r.Success? &&
            (count + |batch| >= limit ==> r.value.stops && r.value.kept == PySliceTo(batch, limit - count)) &&
            (count <= limit <= count + |batch| ==>
               |r.value.kept| == limit - count && r.value.kept == batch[..limit - count]) &&
            (count + |batch| < limit ==> !r.value.stops && r.value.kept == batch) &&
            (count <= limit ==> count + |r.value.kept| <= limit)
  {
  }

  /** Limit mode without a limit is the TypeError of comparing an int with None, except on an
    * empty batch, which stops the run before the limit is read. */
  lemma LimitModeWithoutLimitFails(task: Task, count: nat, batch: seq<UserTweetRaw>)
    requires !task.UntilMode() && task.tweetsLimit.None?
    ensures batch != [] ==> Filter(task, count, batch) == Failure(LimitNotSet)
    ensures batch == [] ==> Filter(task, count, batch) == Success(Cut([], true))
  {
  }

  /** Whatever the mode, the filter keeps a prefix of its batch, and all of it unless it stops. */
  lemma FilterKeepsPrefix(task: Task, count: nat, batch: seq<UserTweetRaw>)
    ensures Filter(task, count, batch).Success? ==> Filter(task, count, batch).value.kept <= batch
    ensures Filter(task, count, batch).Success? && !Filter(task, count, batch).value.stops ==>
              Filter(task, count, batch).value.kept == batch
  {
  }

  // ---------------------------------------------------------------------------------------
  // Cursor selection

  /** Picking the cursors out of a page distributes over concatenation. */
  lemma {:induction false} CursorsDistribute(xs: seq<Entry>, ys: seq<Entry>)
    ensures Cursors(xs + ys) == Cursors(xs) + Cursors(ys)
  {
    if xs == [] {
      assert xs + ys == ys;
    } else {
      CursorsDistribute(xs[1..], ys);
      assert (xs + ys)[0] == xs[0];
      assert (xs + ys)[1..] == xs[1..] + ys;
    }
  }

  /** Picking the posts out of a page distributes over concatenation, so a page's posts keep
    * their entry order. */
  lemma {:induction false} TweetsDistribute(xs: seq<Entry>, ys: seq<Entry>)
    ensures Tweets(xs + ys) == Tweets(xs) + Tweets(ys)
  {
    if xs == [] {
      assert xs + ys == ys;
    } else {
      TweetsDistribute(xs[1..], ys);
      assert (xs + ys)[0] == xs[0];
      assert (xs + ys)[1..] == xs[1..] + ys;
    }
  }

  /** With a top and a bottom cursor on the page, among any posts, the run continues from the
    * second (bottom) one. */
  lemma SecondCursorIsKept(xs: seq<Entry>, top: Cursor, ys: seq<Entry>, bottom: Cursor, zs: seq<Entry>)
    requires Cursors(xs) == [] && Cursors(ys) == []
    ensures NextCursor(xs + [CursorEntry(top)] + ys + [CursorEntry(bottom)] + zs) == Some(bottom)
  {
    var page := xs + [CursorEntry(top)] + ys + [CursorEntry(bottom)] + zs;
    CursorsDistribute(xs + [CursorEntry(top)] + ys + [CursorEntry(bottom)], zs);
    CursorsDistribute(xs + [CursorEntry(top)] + ys, [CursorEntry(bottom)]);
    CursorsDistribute(xs + [CursorEntry(top)], ys);
    CursorsDistribute(xs, [CursorEntry(top)]);
    assert Cursors([CursorEntry(bottom)]) == [bottom];
    assert Cursors([CursorEntry(top)]) == [top];
    assert Cursors(page)[..2] == [top, bottom];
  }

  /** With a single cursor on the page there is nothing to continue from. */
  lemma SingleCursorEndsPaging(xs: seq<Entry>, only: Cursor, ys: seq<Entry>)
    requires Cursors(xs) == [] && Cursors(ys) == []
    ensures NextCursor(xs + [CursorEntry(only)] + ys) == None
  {
    CursorsDistribute(xs + [CursorEntry(only)], ys);
    CursorsDistribute(xs, [CursorEntry(only)]);
    assert Cursors([CursorEntry(only)]) == [only];
  }

  // ---------------------------------------------------------------------------------------
  // One step

  /** The response is "not found" exactly when it has no `data`, or its `data` has no `user`. */
  lemma NotFoundExactlyWithoutDataOrUser(body: Json)
    requires body.JObj?
    requires "data" in body.fields ==> body.fields["data"].JObj?
    ensures ResponseWithNotFound(body) ==
              Success(!("data" in body.fields && "user" in body.fields["data"].fields))
  {
  }

  /** A non-success response aborts the step with that response, before anything changes. */
  lemma BadResponseAborts(task: Task, s: ContextState, response: Response, now: int)
    requires !response.success
    ensures Step(task, s, response, now) == Failed(BadResponse(response))
  {
  }

  /** A "not found" page counts a request, downloads nothing, clears the cursor and exports
    * nothing, whether or not the body would parse. */
  lemma NotFoundClearsCursor(task: Task, s: ContextState, response: Response, now: int)
    requires response.success && ResponseWithNotFound(response.body) == Success(true)
    ensures Step(task, s, response, now) ==
              Advanced(ContextState(None, s.stop, s.requestsCount + 1, s.allDownloadTweetsCount), None)
  {
  }

  /** `{"data": {}}` is a "not found" page: the parser, which would fail on it, is not run. */
  lemma EmptyDataIsNotFound(task: Task, s: ContextState, now: int)
    ensures var body := JObj(map["data" := JObj(map[])]);
            GetAllTweetsFromJson(body, now) == Failure(KeyError(JStr("user"))) &&
            Step(task, s, Response(true, body), now) ==
              Advanced(ContextState(None, s.stop, s.requestsCount + 1, s.allDownloadTweetsCount), None)
  {
    var body := JObj(map["data" := JObj(map[])]);
    assert Get(body, "data") == Success(JObj(map[]));
  }

  /** A normal page counts a request, continues from the page's second cursor, adds exactly
    * the kept posts to the count, exports them, and keeps `stop` once it is set. */
  lemma NormalPageAdvances(task: Task, s: ContextState, response: Response, now: int)
    requires response.success && ResponseWithNotFound(response.body) == Success(false)
    requires GetAllTweetsFromJson(response.body, now).Success?
    requires Filter(task, s.allDownloadTweetsCount, Tweets(GetAllTweetsFromJson(response.body, now).value)).Success?
    ensures var parsed := GetAllTweetsFromJson(response.body, now).value;
            var cut := Filter(task, s.allDownloadTweetsCount, Tweets(parsed)).value;
            Step(task, s, response, now) ==
              Advanced(ContextState(NextCursor(parsed), s.stop || cut.stops, s.requestsCount + 1,
                                    s.allDownloadTweetsCount + |cut.kept|),
                       Some(cut.kept)) &&
            cut.kept <= Tweets(parsed)
  {
    var parsed := GetAllTweetsFromJson(response.body, now).value;
    FilterKeepsPrefix(task, s.allDownloadTweetsCount, Tweets(parsed));
  }

  /** Every step that does not fail counts exactly one request, never lowers the count, and
    * never clears `stop`. */
  lemma StepIsMonotone(task: Task, s: ContextState, response: Response, now: int)
    requires Step(task, s, response, now).Advanced?
    ensures var next := Step(task, s, response, now).next;
            next.requestsCount == s.requestsCount + 1 &&
            next.allDownloadTweetsCount >= s.allDownloadTweetsCount &&
            (s.stop ==> next.stop)
  {
  }

  /** In limit mode a step never takes the count past the limit. */
  lemma StepStaysWithinLimit(task: Task, s: ContextState, response: Response, now: int)
    requires !task.UntilMode() && task.tweetsLimit.Some?
    requires s.allDownloadTweetsCount <= task.tweetsLimit.value
    requires Step(task, s, response, now).Advanced?
    ensures Step(task, s, response, now).next.allDownloadTweetsCount <= task.tweetsLimit.value
  {
    if response.success && ResponseWithNotFound(response.body) == Success(false) {
      var parsed := GetAllTweetsFromJson(response.body, now).value;
      if Tweets(parsed) != [] {
        LimitModeCutsAtLimit(task, s.allDownloadTweetsCount, Tweets(parsed));
      }
    }
  }

  // ---------------------------------------------------------------------------------------
  // A whole run

  /** A run that finishes does so in a state where the loop condition holds, and returns that
    * state's count; it stops for lack of responses only after using them all; every request
    * that does not fail is counted once; the count never goes down; at most one batch is
    * exported per request. */
  lemma {:induction false} RunEndsWhereLoopEnds(task: Task, s: ContextState, script: seq<Response>, now: int)
    decreases |script|
    ensures var t := RunSpec(task, s, script, now);
            |t.requests| <= |script| && |t.exported| <= |t.requests| &&
            (t.outcome.Finished? ==>
               IsEndOfScrapping(t.final) && t.outcome.allDownloadTweetsCount == t.final.allDownloadTweetsCount) &&
            (t.outcome.ScriptExhausted? ==> |t.requests| == |script| && !IsEndOfScrapping(t.final)) &&
            t.final.requestsCount + (if t.outcome.Aborted? then 1 else 0) == s.requestsCount + |t.requests| &&
            t.final.allDownloadTweetsCount >= s.allDownloadTweetsCount &&
            (s.stop ==> t.final.stop)
  {
    if !IsEndOfScrapping(s) && script != [] {
      var step := Step(task, s, script[0], now);
      if step.Advanced? {
        StepIsMonotone(task, s, script[0], now);
        RunEndsWhereLoopEnds(task, step.next, script[1..], now);
      }
    }
  }

  /** A stopped context sends no request at all. */
  lemma StoppedRunSendsNothing(task: Task, s: ContextState, script: seq<Response>, now: int)
    requires s.stop
    ensures RunSpec(task, s, script, now) == Trace(Finished(s.allDownloadTweetsCount), s, [], [])
  {
  }

  /** The first request is always sent, even though there is no cursor yet, and it is sent
    * without a cursor. */
  lemma FirstRequestHasNoCursor(task: Task, script: seq<Response>, now: int)
    requires script != []
    ensures var t := RunSpec(task, FreshState, script, now);
            |t.requests| >= 1 && t.requests[0] == Request(task.userId, None)
  {
    var step := Step(task, FreshState, script[0], now);
    if step.Advanced? {
      var rest := RunSpec(task, step.next, script[1..], now);
      assert RunSpec(task, FreshState, script, now).requests == [Request(task.userId, None)] + rest.requests;
    }
  }

  /** A page that leaves no cursor ends the run right after it: no further request is sent. */
  lemma CursorlessPageEndsRun(task: Task, s: ContextState, script: seq<Response>, now: int)
    requires !IsEndOfScrapping(s) && script != []
    requires Step(task, s, script[0], now).Advanced? && Step(task, s, script[0], now).next.cursor.None?
    ensures var t := RunSpec(task, s, script, now);
            var next := Step(task, s, script[0], now).next;
            t == Trace(Finished(next.allDownloadTweetsCount), next, [Request(task.userId, s.cursor)],
                       Batches(Step(task, s, script[0], now).exported))
  {
    var next := Step(task, s, script[0], now).next;
    assert IsEndOfScrapping(next);
    var exported := Batches(Step(task, s, script[0], now).exported);
    assert exported + [] == exported;
  }

  /** A non-success response ends the run with that error; the context is left as it was
    * before the request and nothing more is exported. */
  lemma BadResponseAbortsRun(task: Task, s: ContextState, script: seq<Response>, now: int)
    requires !IsEndOfScrapping(s) && script != [] && !script[0].success
    ensures RunSpec(task, s, script, now) ==
              Trace(Aborted(BadResponse(script[0])), s, [Request(task.userId, s.cursor)], [])
  {
  }

  /** In limit mode a run that starts within the limit never downloads past it. */
  lemma {:induction false} RunStaysWithinLimit(task: Task, s: ContextState, script: seq<Response>, now: int)
    requires !task.UntilMode() && task.tweetsLimit.Some?
    requires s.allDownloadTweetsCount <= task.tweetsLimit.value
    decreases |script|
    ensures RunSpec(task, s, script, now).final.allDownloadTweetsCount <= task.tweetsLimit.value
  {
    if !IsEndOfScrapping(s) && script != [] {
      var step := Step(task, s, script[0], now);
      if step.Advanced? {
        StepStaysWithinLimit(task, s, script[0], now);
        RunStaysWithinLimit(task, step.next, script[1..], now);
      }
    }
  }

  /** A run from a fresh context with a non-negative limit downloads at most that many posts. */
  lemma FreshRunStaysWithinLimit(task: Task, script: seq<Response>, now: int)
    requires !task.UntilMode() && task.tweetsLimit.Some? && task.tweetsLimit.value >= 0
    ensures RunSpec(task, FreshState, script, now).final.allDownloadTweetsCount <= task.tweetsLimit.value
  {
    RunStaysWithinLimit(task, FreshState, script, now);
  }

  // ---------------------------------------------------------------------------------------
  // What the sinks receive

  /** What a sink receives over several pages is what it receives page by page, in order. */
  lemma {:induction false} FanoutDistributes(xs: seq<seq<UserTweetRaw>>, ys: seq<seq<UserTweetRaw>>, k: nat)
    decreases |ys|
    ensures Fanout(xs + ys, k) == Fanout(xs, k) + Fanout(ys, k)
  {
    if ys == [] {
      assert xs + ys == xs;
    } else {
      var init := ys[..|ys| - 1];
      assert (xs + ys)[..|xs + ys| - 1] == xs + init;
      FanoutDistributes(xs, init, k);
    }
  }

  /** The export calls of several pages are those of each page, page after page. */
  lemma {:induction false} ExportLogDistributes(outputs: seq<RawDataOutput>, xs: seq<seq<UserTweetRaw>>, ys: seq<seq<UserTweetRaw>>)
    decreases |ys|
    ensures ExportLog(outputs, xs + ys) == ExportLog(outputs, xs) + ExportLog(outputs, ys)
  {
    if ys == [] {
      assert xs + ys == xs;
    } else {
      var init := ys[..|ys| - 1];
      assert (xs + ys)[..|xs + ys| - 1] == xs + init;
      ExportLogDistributes(outputs, xs, init);
    }
  }

  /** The calls of the pages exported so far, then those of one more step. */
  lemma ExportLogOfStep(outputs: seq<RawDataOutput>, xs: seq<seq<UserTweetRaw>>, r: StepResult)
    ensures ExportLog(outputs, xs + Delivered(r)) == ExportLog(outputs, xs) + StepExportCalls(outputs, r)
  {
    ExportLogDistributes(outputs, xs, Delivered(r));
    if r.Advanced? && r.exported.Some? {
      assert [r.exported.value][..0] == [];
    }
  }

  /** One page's export calls go to the sinks in registration order: the `i`-th call is the
    * batch exported to the `i`-th registered sink, one call per registration. */
  lemma {:induction false} ExportRoundFollowsRegistration(outputs: seq<RawDataOutput>, batch: seq<UserTweetRaw>)
    decreases |outputs|
    ensures |ExportRound(outputs, batch)| == |outputs|
    ensures forall i :: 0 <= i < |outputs| ==> ExportRound(outputs, batch)[i] == (outputs[i], batch)
  {
    if outputs != [] {
      ExportRoundFollowsRegistration(outputs[..|outputs| - 1], batch);
    }
  }

  /** A sink registered once receives every exported batch exactly once, in order. */
  lemma {:induction false} FanoutToSingleSink(batches: seq<seq<UserTweetRaw>>)
    decreases |batches|
    ensures Fanout(batches, 1) == batches
  {
    if batches != [] {
      var init := batches[..|batches| - 1];
      FanoutToSingleSink(init);
      assert Copies(batches[|batches| - 1], 1) == [batches[|batches| - 1]];
      assert batches == init + [batches[|batches| - 1]];
    }
  }

  /** In a list without repetitions every registered sink is registered exactly once. */
  lemma {:induction false} DistinctSinksRegisteredOnce(outputs: seq<RawDataOutput>, o: RawDataOutput)
    requires forall i, j :: 0 <= i < j < |outputs| ==> outputs[i] != outputs[j]
    decreases |outputs|
    ensures Registrations(outputs, o) == if o in outputs then 1 else 0
  {
    if outputs != [] {
      var init := outputs[..|outputs| - 1];
      DistinctSinksRegisteredOnce(init, o);
      if outputs[|outputs| - 1] == o {
        assert o !in init;
      } else {
        assert o in outputs ==> o in init;
      }
    }
  }

  /** The export calls of one step are the export log of the batches it delivers. */
  lemma StepExportCallsAreLog(outputs: seq<RawDataOutput>, r: StepResult)
    ensures StepExportCalls(outputs, r) == ExportLog(outputs, Delivered(r))
  {
    ExportLogOfStep(outputs, [], r);
    ConcatEmpty(Delivered(r));
    ConcatEmpty(StepExportCalls(outputs, r));
  }

  /** The logs keep following a run when one more request `request` is sent and the batches
    * `batches` are delivered with the sink calls that export them. */
  lemma LogsFollowStep(outputs: seq<RawDataOutput>, script0: seq<Response>, start: RunLogs,
                       requests: seq<Request>, exported: seq<seq<UserTweetRaw>>,
                       script: seq<Response>, logs: RunLogs,
                       request: Request, batches: seq<seq<UserTweetRaw>>)
    requires LogsFollow(outputs, script0, start, requests, exported, script, logs) && script != []
    ensures LogsFollow(outputs, script0, start, requests + [request], exported + batches, script[1..],
                       RunLogs(logs.requests + [request], logs.delivered + batches,
                               logs.calls + ExportLog(outputs, batches)))
  {
    DropOneMore(script0, |requests|);
    ConcatAssoc(start.requests, requests, [request]);
    ConcatAssoc(start.delivered, exported, batches);
    ExportLogDistributes(outputs, exported, batches);
    ConcatAssoc(start.calls, ExportLog(outputs, exported), ExportLog(outputs, batches));
  }

  /** A step that fails keeps a run on track: its request is logged, nothing is delivered,
    * and the run aborts on its exception with the state as it was. */
  lemma FailedStepKeepsOnTrack(task: Task, outputs: seq<RawDataOutput>, now: int, spec: Trace,
                               script0: seq<Response>, start: RunLogs,
                               requests: seq<Request>, exported: seq<seq<UserTweetRaw>>,
                               script: seq<Response>, logs: RunLogs, s: ContextState, r: StepResult)
    requires OnTrack(task, outputs, now, spec, script0, start, requests, exported, None, script, logs, s)
    requires !IsEndOfScrapping(s) && script != [] && r == Step(task, s, script[0], now) && r.Failed?
    ensures var request := Request(task.userId, s.cursor);
            OnTrack(task, outputs, now, spec, script0, start,
                    requests + [request], exported + Delivered(r), Some(r.error), script[1..],
                    RunLogs(logs.requests + [request], logs.delivered + Delivered(r),
                            logs.calls + StepExportCalls(outputs, r)),
                    s)
  {
    var request := Request(task.userId, s.cursor);
    RunSpecStepFails(task, s, script, now);
    ConcatEmpty(exported);
    StepExportCallsAreLog(outputs, r);
    LogsFollowStep(outputs, script0, start, requests, exported, script, logs, request, Delivered(r));
  }

  /** A step that advances keeps a run on track: its request is logged, its batch (if any) is
    * delivered to every sink, and the run goes on from the step's state. */
  lemma AdvancedStepKeepsOnTrack(task: Task, outputs: seq<RawDataOutput>, now: int, spec: Trace,
                                 script0: seq<Response>, start: RunLogs,
                                 requests: seq<Request>, exported: seq<seq<UserTweetRaw>>,
                                 script: seq<Response>, logs: RunLogs, s: ContextState, r: StepResult)
    requires OnTrack(task, outputs, now, spec, script0, start, requests, exported, None, script, logs, s)
    requires !IsEndOfScrapping(s) && script != [] && r == Step(task, s, script[0], now) && r.Advanced?
    ensures var request := Request(task.userId, s.cursor);
            OnTrack(task, outputs, now, spec, script0, start,
                    requests + [request], exported + Delivered(r), None, script[1..],
                    RunLogs(logs.requests + [request], logs.delivered + Delivered(r),
                            logs.calls + StepExportCalls(outputs, r)),
                    r.next)
  {
    var request := Request(task.userId, s.cursor);
    RunSpecStepAdvances(task, s, script, now, r.next, r.exported);
    AfterAfter(requests, exported, [request], Batches(r.exported), RunSpec(task, r.next, script[1..], now));
    StepExportCallsAreLog(outputs, r);
    LogsFollowStep(outputs, script0, start, requests, exported, script, logs, request, Delivered(r));
  }
}
