/**
 * The scoring dispatcher of the demo_tmr.py acquisition loop, as a pure
 * transition over its state: the list of scheduled requests (`responses`),
 * `last_staging_request_time`, `last_call_success`, `stage`, `t_stage` and
 * the append-only `sleep_stages` log. What the futures report (`done()`,
 * `result()`) is an observation supplied from outside.
 */
module StagingDispatch {
  import opened Stages

  /** `SCORING_FREQUENCY` (3 s) in milliseconds. */
  const ScoringPeriodMs := 3000

  /**
   * What became of a scheduled request. `Lost`: it completed after the
   * poll at line 280 but before the deadline check at line 290, so its
   * result was never read.
   */
  datatype Fate = Pending | Scored(result: Score) | Cancelled | Lost

  /** A scheduled future: when it was sent, its `t_stage`, the window it carries. */
  datatype Request = Request(sentAt: int, tStage: nat, payload: seq<seq<real>>, fate: Fate)

  /** A row of `sleep_stages`: `[t_stage, stage_keys[code], confidence]`. */
  datatype LogEntry = LogEntry(tStage: nat, score: Score)

  datatype Dispatcher = Dispatcher(
    responses: seq<Request>,
    lastRequestTime: int,
    lastCallSuccess: bool,
    stage: Score,
    tStage: nat,
    sleepStages: seq<LogEntry>)

  /** The state before the first request: `responses = []`, `stage = [9, 10]`. */
  const Idle: Dispatcher := Dispatcher([], 0, false, Sentinel, 0, [])

  /**
   * What the loop observes in one iteration: `responses[-1].done()` at the
   * poll (line 280) and at the deadline check (line 290), and
   * `responses[-1].result()`.
   */
  datatype Observation = Observation(doneAtPoll: bool, doneAtDeadline: bool, result: Score)

  function Last<T>(s: seq<T>): T
    requires s != []
  {
    s[|s| - 1]
  }

  /** The sequence with its last request's fate replaced. */
  function WithLastFate(rs: seq<Request>, f: Fate): (rs': seq<Request>)
    requires rs != []
    ensures |rs'| == |rs| && rs'[..|rs| - 1] == rs[..|rs| - 1]
    ensures Last(rs') == Last(rs).(fate := f)
  {
    rs[..|rs| - 1] + [Last(rs).(fate := f)]
  }

  /** The log rows one request accounts for: none, its result, or the sentinel. */
  function EntryOf(q: Request): (e: seq<LogEntry>)
    ensures |e| <= 1
  {
    match q.fate
    case Scored(s) => [LogEntry(q.tStage, s)]
    case Cancelled => [LogEntry(q.tStage, Sentinel)]
    case _ => []
  }

  /** The log that a list of requests accounts for, request by request. */
  function LogOf(rs: seq<Request>): seq<LogEntry> {
    if rs == [] then [] else LogOf(rs[..|rs| - 1]) + EntryOf(Last(rs))
  }

  /**
   * The dispatcher invariant:
   * - the log is exactly what the requests account for, each at most once;
   * - `last_call_success` says whether the newest request has been scored;
   * - only the newest request can still be in flight;
   * - the anchor and `t_stage` are those of the newest request;
   * - `stage` is the newest log row, or `[9, 10]` before there is one;
   * - requests are more than one scoring period apart;
   * - every logged code is a key of `stage_keys`.
   */
  predicate Inv(d: Dispatcher) {
    var rs := d.responses;
    && d.sleepStages == LogOf(rs)
    && (d.lastCallSuccess <==> rs != [] && Last(rs).fate.Scored?)
    && Settled(rs)
    && (rs != [] ==>
          && (Last(rs).fate.Pending? || Last(rs).fate.Scored?)
          && d.lastRequestTime == Last(rs).sentAt
          && d.tStage == Last(rs).tStage)
    && d.stage == (if d.sleepStages == [] then Sentinel else Last(d.sleepStages).score)
    && Spaced(rs)
    && (forall k :: 0 <= k < |d.sleepStages| ==> d.sleepStages[k].score.code in StageKeys)
  }

  /** Only the newest request can still be in flight. */
  predicate Settled(rs: seq<Request>) {
    forall i :: 0 <= i < |rs| - 1 ==> !rs[i].fate.Pending?
  }

  /** Appending after a resolved newest request keeps every earlier request settled. */
  lemma SettledAppend(rs: seq<Request>, q: Request)
    requires rs != [] && Settled(rs) && !Last(rs).fate.Pending?
    ensures Settled(rs + [q])
  {
    var all := rs + [q];
    forall i | 0 <= i < |all| - 1
      ensures !all[i].fate.Pending?
    {
      assert all[i] == rs[i];
    }
  }

  /** Consecutive requests are sent more than one scoring period apart. */
  predicate Spaced(rs: seq<Request>) {
    forall i :: 0 < i < |rs| ==> rs[i].sentAt - rs[i - 1].sentAt > ScoringPeriodMs
  }

  /**
   * Resolving the newest request keeps the send times, so appending a
   * request more than a period after it keeps the requests spaced.
   */
  lemma SpacedAfterResolve(rs: seq<Request>, rs': seq<Request>, q: Request)
    requires Spaced(rs) && rs != [] && |rs'| == |rs|
    requires forall i :: 0 <= i < |rs| - 1 ==> rs'[i] == rs[i]
    requires Last(rs').sentAt == Last(rs).sentAt
    requires q.sentAt - Last(rs).sentAt > ScoringPeriodMs
    ensures Spaced(rs' + [q])
  {
    var all := rs' + [q];
    forall i | 0 < i < |all|
      ensures all[i].sentAt - all[i - 1].sentAt > ScoringPeriodMs
    {
      if i < |rs| - 1 {
        assert all[i] == rs[i] && all[i - 1] == rs[i - 1];
      } else if i == |rs| - 1 {
        assert all[i].sentAt == Last(rs).sentAt && all[i - 1] == rs[i - 1];
      }
    }
  }

  /** A future that has completed stays completed. */
  predicate Consistent(d: Dispatcher, obs: Observation) {
    && (d.responses != [] && Last(d.responses).fate.Scored? ==> obs.doneAtPoll)
    && (obs.doneAtPoll ==> obs.doneAtDeadline)
  }

  /** Lines 270-278: schedule the first request on the first post-warm-up iteration. */
  function ScheduleFirst(d: Dispatcher, now: int, samplesRead: nat, payload: seq<seq<real>>): (d': Dispatcher)
    ensures d'.responses != []
    ensures d.responses != [] ==> d' == d
    ensures d'.sleepStages == d.sleepStages && d'.stage == d.stage
  {
    if d.responses == [] then
      d.(responses := [Request(now, samplesRead, payload, Pending)],
         lastRequestTime := now, tStage := samplesRead)
    else d
  }

  /** Lines 280-286: log the newest request's result once it is done. */
  function Poll(d: Dispatcher, obs: Observation): (d': Dispatcher)
    requires d.responses != []
    ensures |d'.responses| == |d.responses|
    ensures d'.sleepStages == d.sleepStages || d'.sleepStages == d.sleepStages + [LogEntry(d.tStage, obs.result)]
    ensures d'.lastRequestTime == d.lastRequestTime && d'.tStage == d.tStage
  {
    if obs.doneAtPoll && !d.lastCallSuccess then
      d.(responses := WithLastFate(d.responses, Scored(obs.result)),
         stage := obs.result,
         sleepStages := d.sleepStages + [LogEntry(d.tStage, obs.result)],
         lastCallSuccess := true)
    else d
  }

  /** Lines 288-310: past the deadline, cancel a request still running and schedule the next. */
  function Deadline(d: Dispatcher, now: int, samplesRead: nat, payload: seq<seq<real>>, obs: Observation): (d': Dispatcher)
    requires d.responses != []
    ensures d'.responses != []
    ensures |d'.responses| == |d.responses| + 1 <==> now - d.lastRequestTime > ScoringPeriodMs
    ensures now - d.lastRequestTime <= ScoringPeriodMs ==> d' == d
    ensures d.sleepStages <= d'.sleepStages && |d'.sleepStages| <= |d.sleepStages| + 1
  {
    if now - d.lastRequestTime > ScoringPeriodMs then
      var resolved := Resolve(d, obs);
      resolved.(responses := resolved.responses + [Request(now, samplesRead, payload, Pending)],
                lastRequestTime := now, tStage := samplesRead, lastCallSuccess := false)
    else d
  }

  /** One post-warm-up iteration of the dispatcher at time `now`. */
  function Dispatch(d: Dispatcher, now: int, samplesRead: nat, payload: seq<seq<real>>, obs: Observation): (d': Dispatcher)
    ensures d'.responses != [] && |d.responses| <= |d'.responses|
    ensures d.sleepStages <= d'.sleepStages
  {
    var d1 := ScheduleFirst(d, now, samplesRead, payload);
    Deadline(Poll(d1, obs), now, samplesRead, payload, obs)
  }

  lemma LogOfAppend(rs: seq<Request>, q: Request)
    ensures LogOf(rs + [q]) == LogOf(rs) + EntryOf(q)
  {
    assert (rs + [q])[..|rs|] == rs;
  }

  lemma LogOfLastFate(rs: seq<Request>, f: Fate)
    requires rs != [] && Last(rs).fate.Pending?
    ensures LogOf(WithLastFate(rs, f)) == LogOf(rs) + EntryOf(Last(rs).(fate := f))
  {
    var init := rs[..|rs| - 1];
    assert WithLastFate(rs, f) == init + [Last(rs).(fate := f)];
    LogOfAppend(init, Last(rs).(fate := f));
    assert rs == init + [Last(rs)];
    LogOfAppend(init, Last(rs));
  }

  /**
   * The dispatcher invariant holds in every reachable state: it holds
   * initially and every iteration preserves it.
   */
  lemma IdleInv()
    ensures Inv(Idle)
  {
  }

  lemma ScheduleFirstKeepsInv(d: Dispatcher, now: int, samplesRead: nat, payload: seq<seq<real>>)
    requires Inv(d)
    ensures Inv(ScheduleFirst(d, now, samplesRead, payload))
    ensures ScheduleFirst(d, now, samplesRead, payload).responses != []
  {
    if d.responses == [] {
      LogOfAppend([], Request(now, samplesRead, payload, Pending));
    }
  }

  lemma PollKeepsInv(d: Dispatcher, obs: Observation)
    requires Inv(d) && d.responses != []
    requires obs.doneAtPoll ==> obs.result.code in StageKeys
    ensures Inv(Poll(d, obs))
  {
    if obs.doneAtPoll && !d.lastCallSuccess {
      LogOfLastFate(d.responses, Scored(obs.result));
      var d' := Poll(d, obs);
      assert d'.sleepStages == d.sleepStages + [LogEntry(d.tStage, obs.result)];
      assert forall i :: 0 <= i < |d'.responses| - 1 ==> d'.responses[i] == d.responses[i];
    }
  }

  /** Past the deadline the newest request is resolved: cancelled, lost or already scored. */
  function Resolve(d: Dispatcher, obs: Observation): (d': Dispatcher)
    requires d.responses != []
    ensures d'.responses != [] && |d'.responses| == |d.responses|
  {
    if !obs.doneAtDeadline then
      d.(responses := WithLastFate(d.responses, Cancelled),
         stage := Sentinel,
         sleepStages := d.sleepStages + [LogEntry(d.tStage, Sentinel)])
    else if Last(d.responses).fate.Pending? then
      d.(responses := WithLastFate(d.responses, Lost))
    else d
  }

  lemma ResolveAccounts(d: Dispatcher, obs: Observation)
    requires Inv(d) && d.responses != [] && Consistent(d, obs)
    ensures var d' := Resolve(d, obs);
      && d'.sleepStages == LogOf(d'.responses)
      && !Last(d'.responses).fate.Pending?
      && (forall i :: 0 <= i < |d'.responses| - 1 ==> d'.responses[i] == d.responses[i])
      && Last(d'.responses).sentAt == Last(d.responses).sentAt
      && d'.stage == (if d'.sleepStages == [] then Sentinel else Last(d'.sleepStages).score)
      && (forall k :: 0 <= k < |d'.sleepStages| ==> d'.sleepStages[k].score.code in StageKeys)
  {
    if !obs.doneAtDeadline {
      LogOfLastFate(d.responses, Cancelled);
    } else if Last(d.responses).fate.Pending? {
      LogOfLastFate(d.responses, Lost);
    }
  }

  lemma DeadlineKeepsInv(d: Dispatcher, now: int, samplesRead: nat, payload: seq<seq<real>>, obs: Observation)
    requires Inv(d) && d.responses != [] && Consistent(d, obs)
    ensures Inv(Deadline(d, now, samplesRead, payload, obs))
  {
    if now - d.lastRequestTime > ScoringPeriodMs {
      var r := Resolve(d, obs);
      ResolveAccounts(d, obs);
      var q := Request(now, samplesRead, payload, Pending);
      LogOfAppend(r.responses, q);
      var d' := Deadline(d, now, samplesRead, payload, obs);
      assert d'.responses == r.responses + [q];
      assert d'.sleepStages == r.sleepStages;
      SpacedAfterResolve(d.responses, r.responses, q);
      assert Settled(r.responses);
      SettledAppend(r.responses, q);
    }
  }

  /**
   * The dispatcher invariant holds in every reachable state: every
   * post-warm-up iteration preserves it, whatever the futures report.
   */
  lemma DispatchKeepsInv(d: Dispatcher, now: int, samplesRead: nat, payload: seq<seq<real>>, obs: Observation)
    requires Inv(d) && Consistent(d, obs)
    requires obs.doneAtPoll ==> obs.result.code in StageKeys
    ensures Inv(Dispatch(d, now, samplesRead, payload, obs))
  {
    var d1 := ScheduleFirst(d, now, samplesRead, payload);
    ScheduleFirstKeepsInv(d, now, samplesRead, payload);
    assert Consistent(d1, obs);
    PollKeepsInv(d1, obs);
    var d2 := Poll(d1, obs);
    assert Consistent(d2, obs);
    DeadlineKeepsInv(d2, now, samplesRead, payload, obs);
  }

  /**
   * What one post-warm-up iteration changes: a request is scheduled exactly
   * on the first iteration and when more than a scoring period has passed
   * since the last one, carrying the current window and `t_stage` (the
   * first one may already be scored in the same iteration); the log
   * is only appended to, by at most one row; a request that is no longer
   * pending never changes again.
   */
  lemma DispatchStep(d: Dispatcher, now: int, samplesRead: nat, payload: seq<seq<real>>, obs: Observation)
    requires Inv(d) && Consistent(d, obs)
    ensures var d' := Dispatch(d, now, samplesRead, payload, obs);
      var scheduled := d.responses == [] || now - d.lastRequestTime > ScoringPeriodMs;
      && |d'.responses| == |d.responses| + (if scheduled then 1 else 0)
      && (scheduled ==> Last(d'.responses).(fate := Pending) == Request(now, samplesRead, payload, Pending)
                        && d'.lastRequestTime == now && d'.tStage == samplesRead)
      && (!scheduled ==> d'.lastRequestTime == d.lastRequestTime && d'.tStage == d.tStage)
      && d.sleepStages <= d'.sleepStages
      && |d'.sleepStages| <= |d.sleepStages| + 1
      && (forall i :: 0 <= i < |d.responses| && !d.responses[i].fate.Pending? ==>
            d'.responses[i] == d.responses[i])
  {
    var d1 := ScheduleFirst(d, now, samplesRead, payload);
    var d2 := Poll(d1, obs);
    if d.responses != [] && now - d.lastRequestTime > ScoringPeriodMs {
      assert d1 == d;
      assert d2.lastRequestTime == d.lastRequestTime;
      var r := Resolve(d2, obs);
      assert Dispatch(d, now, samplesRead, payload, obs).responses
        == r.responses + [Request(now, samplesRead, payload, Pending)];
    }
  }

  /** Each request accounts for at most one log row, so the log is never longer than `responses`. */
  lemma {:induction false} AtMostOneRowPerRequest(rs: seq<Request>)
    ensures |LogOf(rs)| <= |rs|
  {
    if rs != [] {
      AtMostOneRowPerRequest(rs[..|rs| - 1]);
    }
  }

  /**
   * Every log row is owed to one request and carries its `t_stage`: either
   * the request was cancelled and the row is `[9, 10]`, or the request was
   * scored and the row is its result.
   */
  lemma {:induction false} RowOrigin(rs: seq<Request>, k: nat)
    requires k < |LogOf(rs)|
    ensures exists i :: (0 <= i < |rs| && rs[i].tStage == LogOf(rs)[k].tStage &&
      ((rs[i].fate == Cancelled && LogOf(rs)[k].score == Sentinel) ||
       rs[i].fate == Scored(LogOf(rs)[k].score)))
  {
    var init := rs[..|rs| - 1];
    if k < |LogOf(init)| {
      RowOrigin(init, k);
      var i :| 0 <= i < |init| && init[i].tStage == LogOf(init)[k].tStage &&
        ((init[i].fate == Cancelled && LogOf(init)[k].score == Sentinel) ||
         init[i].fate == Scored(LogOf(init)[k].score));
      assert rs[i] == init[i];
    } else {
      assert rs[|rs| - 1].tStage == LogOf(rs)[k].tStage;
    }
  }

  /**
   * The timing gap: a request that completes between the poll and the
   * deadline check is superseded without its result ever being logged, so
   * "at most one row per request" cannot be strengthened to "exactly one".
   */
  lemma LateCompletionIsNeverLogged(payload: seq<seq<real>>, result: Score)
    ensures var d1 := Dispatch(Idle, 0, 100, payload, Observation(false, false, result));
      var d2 := Dispatch(d1, ScoringPeriodMs + 1, 200, payload, Observation(false, true, result));
      && |d2.responses| == 2
      && d2.responses[0].fate == Lost
      && d2.sleepStages == []
  {
  }
}
