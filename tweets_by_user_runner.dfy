/** The user-timeline runner (stweet/tweets_by_user_runner/tweets_by_user_runner.py): it asks for
  * page after page, trims each batch of posts with the stopping filter, advances the context
  * and hands every batch to all the sinks, until the context says the run is over. */
module TweetsByUserRunner {
  import opened Wrappers
  import opened TweetRawParser
  import opened TweetsByUserTask
  import opened TweetsByUserContext
  import opened Collaborators
  import opened RunnerSpec
  import opened RunnerProperties

  class Runner {
    const task: Task
    const context: Context
    const rawDataOutputs: seq<RawDataOutput>
    const webClient: WebClient
    /** The local time stamped on every post fetched (the program reads the clock). */
    const now: int

    /** The batches this runner has handed to its sinks, in order. */
    ghost var delivered: seq<seq<UserTweetRaw>>
    /** Every `export_raw_data` call this runner has made, in call order. */
    ghost var exportCalls: seq<(RawDataOutput, seq<UserTweetRaw>)>
    /** What each sink had received before this runner was built. */
    ghost const initialLogs: map<RawDataOutput, seq<seq<UserTweetRaw>>>

    ghost function Sinks(): set<RawDataOutput> {
      set o | o in rawDataOutputs
    }

    /** Every sink has received, after what it had before, each delivered batch once for every
      * time it is registered. */
    ghost predicate Valid()
      reads this, Sinks()
    {
      forall o :: o in rawDataOutputs ==>
        o in initialLogs && o.exported == initialLogs[o] + Fanout(delivered, Registrations(rawDataOutputs, o))
    }

    /** When no sink is registered twice, every sink has received exactly the delivered
      * batches, each once and in order, after what it had before. */
    lemma DistinctSinkReceivesEachBatchOnce(o: RawDataOutput)
      requires Valid() && o in rawDataOutputs
      requires forall i, j :: 0 <= i < j < |rawDataOutputs| ==> rawDataOutputs[i] != rawDataOutputs[j]
      ensures o.exported == initialLogs[o] + delivered
    {
      DistinctSinksRegisteredOnce(rawDataOutputs, o);
      FanoutToSingleSink(delivered);
    }

    /** Uses the given context, or a fresh one when none is given. */
    constructor (task: Task, rawDataOutputs: seq<RawDataOutput>, context: Context?, webClient: WebClient, now: int)
      ensures Valid() && delivered == [] && exportCalls == []
      ensures this.task == task && this.rawDataOutputs == rawDataOutputs
      ensures this.webClient == webClient && this.now == now
      ensures context != null ==> this.context == context
      ensures context == null ==> fresh(this.context) && this.context.State() == FreshState
    {
      this.task := task;
      this.rawDataOutputs := rawDataOutputs;
      this.webClient := webClient;
      this.now := now;
      delivered := [];
      exportCalls := [];
      initialLogs := map o | o in rawDataOutputs :: o.exported;
      if context == null {
        this.context := new Context();
      } else {
        this.context := context;
      }
    }

    /** Requests pages until the context says the run is over, and returns the number of
      * posts downloaded; or the exception of the first failing page. */
    method Run() returns (outcome: RunOutcome)
      requires Valid()
      modifies this, context, webClient, Sinks()
      ensures Valid()
      ensures var t := RunSpec(task, old(context.State()), old(webClient.script), now);
              outcome == t.outcome && context.State() == t.final &&
              delivered == old(delivered) + t.exported &&
              exportCalls == old(exportCalls) + ExportLog(rawDataOutputs, t.exported) &&
              webClient.requests == old(webClient.requests) + t.requests &&
              |t.requests| <= |old(webClient.script)| &&
              webClient.script == old(webClient.script)[|t.requests|..]
    {
      ghost var script0 := webClient.script;
      ghost var start := Logs();
      ghost var spec := RunSpec(task, context.State(), script0, now);
      ghost var requests: seq<Request> := [];
      ghost var exported: seq<seq<UserTweetRaw>> := [];
      assert script0[0..] == script0;
      while !IsEndOfScrapping(context.State())
        invariant Valid() && Progress(spec, script0, start, requests, exported, None)
        invariant start == old(Logs())
        decreases |webClient.script|
      {
        if webClient.script == [] {
          RunSpecStops(task, context.State(), webClient.script, now, requests, exported);
          return ScriptExhausted;
        }
        var error;
        error, requests, exported := RunTurn(spec, script0, start, requests, exported);
        if error.Some? {
          return Aborted(error.value);
        }
      }
      RunSpecStops(task, context.State(), webClient.script, now, requests, exported);
      return Finished(context.allDownloadTweetsCount);
    }

    /** The web client's request log, the delivered batches and the sink calls. */
    ghost function Logs(): RunLogs
      reads this, webClient
    {
      RunLogs(webClient.requests, delivered, exportCalls)
    }

    /** This runner is on track in the run `spec` that began with the script `script0` and
      * the logs `start`, having sent `requests` and delivered `exported`. */
    ghost predicate Progress(spec: Trace, script0: seq<Response>, start: RunLogs,
                             requests: seq<Request>, exported: seq<seq<UserTweetRaw>>, error: Option<ScrapError>)
      reads this, context, webClient
    {
      OnTrack(task, rawDataOutputs, now, spec, script0, start, requests, exported, error,
              webClient.script, Logs(), context.State())
    }

    /** One turn of `run`'s loop: the next step's request is sent and its outcome keeps the run
      * on track. */
    method RunTurn(ghost spec: Trace, ghost script0: seq<Response>, ghost start: RunLogs,
                   ghost requests: seq<Request>, ghost exported: seq<seq<UserTweetRaw>>)
      returns (error: Option<ScrapError>, ghost requests': seq<Request>, ghost exported': seq<seq<UserTweetRaw>>)
      requires Valid() && webClient.script != [] && !IsEndOfScrapping(context.State())
      requires Progress(spec, script0, start, requests, exported, None)
      modifies this, context, webClient, Sinks()
      ensures Valid() && Progress(spec, script0, start, requests', exported', error)
      ensures |webClient.script| < old(|webClient.script|)
    {
      ghost var r := Step(task, context.State(), webClient.script[0], now);
      if r.Failed? {
        FailedStepKeepsOnTrack(task, rawDataOutputs, now, spec, script0, start, requests, exported,
                               webClient.script, Logs(), context.State(), r);
      } else {
        AdvancedStepKeepsOnTrack(task, rawDataOutputs, now, spec, script0, start, requests, exported,
                                 webClient.script, Logs(), context.State(), r);
      }
      requests' := requests + [Request(task.userId, context.cursor)];
      exported' := exported + Delivered(r);
      error := ExecuteNextTweetsRequest();
    }

    /** Sends one request and applies its response to the context and the sinks: a failure
      * leaves both unchanged. */
    method ExecuteNextTweetsRequest() returns (error: Option<ScrapError>)
      requires Valid() && webClient.script != []
      modifies this, context, webClient, Sinks()
      ensures Valid()
      ensures webClient.script == old(webClient.script[1..])
      ensures webClient.requests == old(webClient.requests) + [Request(task.userId, old(context.cursor))]
      ensures var r := Step(task, old(context.State()), old(webClient.script[0]), now);
              error == (if r.Failed? then Some(r.error) else None) &&
              context.State() == (if r.Failed? then old(context.State()) else r.next) &&
              delivered == old(delivered) + Delivered(r) &&
              exportCalls == old(exportCalls) + StepExportCalls(rawDataOutputs, r)
    {
      ghost var s := context.State();
      var response := webClient.RunRequest(Request(task.userId, context.cursor));
      if !response.success {
        assert Step(task, s, response, now) == Failed(BadResponse(response));
        return Some(BadResponse(response));
      }
      var notFound := ResponseWithNotFound(response.body);
      if notFound.Failure? {
        assert Step(task, s, response, now) == Failed(JsonFailure(notFound.error));
        return Some(JsonFailure(notFound.error));
      }
      if notFound.value {
        context.AddDownloadedTweetsCountInRequest(0);
        context.cursor := None;
        assert Step(task, s, response, now) == Advanced(context.State(), None);
        return None;
      }
      assert Step(task, s, response, now) == PageStep(task, s, response.body, now);
      var parsed := GetAllTweetsFromJson(response.body, now);
      if parsed.Failure? {
        assert PageStep(task, s, response.body, now) == Failed(JsonFailure(parsed.error));
        return Some(JsonFailure(parsed.error));
      }
      var cursor := NextCursor(parsed.value);
      var kept := FilterResult(Tweets(parsed.value));
      if kept.Failure? {
        assert PageStep(task, s, response.body, now) == Failed(kept.error);
        return Some(kept.error);
      }
      context.AddDownloadedTweetsCountInRequest(|kept.value|);
      context.cursor := cursor;
      assert PageStep(task, s, response.body, now) == Advanced(context.State(), Some(kept.value));
      ProcessNewTweetsToOutput(kept.value);
      return None;
    }

    /** `_filter_result`: trims `batch` by the task's stopping rule and sets `stop` when the
      * rule is met. */
    method FilterResult(batch: seq<UserTweetRaw>) returns (r: Result<seq<UserTweetRaw>, ScrapError>)
      modifies context`stop
      ensures match Filter(task, context.allDownloadTweetsCount, batch)
              case Failure(e) => r == Failure(e) && context.stop == old(context.stop)
              case Success(cut) => r == Success(cut.kept) && context.stop == (old(context.stop) || cut.stops)
    {
      if |batch| == 0 {
        context.stop := true;
        return Success(batch);
      }
      if task.until.Some? {
        var until := task.until.value;
        for idx := 0 to |batch|
          invariant ScanUntil(batch, until, idx) == ScanUntil(batch, until, 0)
          invariant context.stop == old(context.stop)
        {
          var createdAt := CreatedAt(batch[idx]);
          if createdAt.Failure? {
            return Failure(createdAt.error);
          }
          if createdAt.value <= until {
            context.stop := true;
            return Success(PySliceTo(batch, idx));
          }
        }
      } else if task.tweetsLimit.None? {
        return Failure(LimitNotSet);
      } else if context.allDownloadTweetsCount + |batch| >= task.tweetsLimit.value {
        context.stop := true;
        return Success(PySliceTo(batch, task.tweetsLimit.value - context.allDownloadTweetsCount));
      }
      return Success(batch);
    }

    /** Exports `batch` to every sink, in the order they were registered. */
    method ProcessNewTweetsToOutput(batch: seq<UserTweetRaw>)
      requires Valid()
      modifies this, Sinks()
      ensures Valid() && delivered == old(delivered) + [batch]
      ensures exportCalls == old(exportCalls) + ExportRound(rawDataOutputs, batch)
      ensures forall o :: o in rawDataOutputs ==>
                o.exported == old(o.exported) + Copies(batch, Registrations(rawDataOutputs, o))
    {
      for i := 0 to |rawDataOutputs|
        invariant delivered == old(delivered)
        invariant exportCalls == old(exportCalls) + ExportRound(rawDataOutputs[..i], batch)
        invariant forall o :: o in rawDataOutputs ==>
                    o.exported == old(o.exported) + Copies(batch, Registrations(rawDataOutputs[..i], o))
      {
        var sink := rawDataOutputs[i];
        assert rawDataOutputs[..i + 1][..i] == rawDataOutputs[..i];
        sink.ExportRawData(batch);
        exportCalls := exportCalls + [(sink, batch)];
        assert ExportRound(rawDataOutputs[..i + 1], batch) == ExportRound(rawDataOutputs[..i], batch) + [(sink, batch)];
      }
      assert rawDataOutputs[..|rawDataOutputs|] == rawDataOutputs;
      delivered := delivered + [batch];
      assert delivered[..|delivered| - 1] == old(delivered);
      forall o | o in rawDataOutputs
        ensures o.exported == initialLogs[o] + Fanout(delivered, Registrations(rawDataOutputs, o))
      {
        var k := Registrations(rawDataOutputs, o);
        assert Fanout(delivered, k) == Fanout(old(delivered), k) + Copies(batch, k);
        assert old(o.exported) == initialLogs[o] + Fanout(old(delivered), k);
      }
    }
  }
}
