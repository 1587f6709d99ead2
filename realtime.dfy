/**
 * The acquisition loop of demo_tmr.py (lines 237-330) as a state machine:
 * each `Step` ingests one chunk from the replay source into the running
 * window, waits out the warm-up, drives the scoring dispatcher and
 * evaluates the cue gate. Wall-clock time and what the scoring futures
 * report are inputs of `Step`.
 */
module Realtime {
  import opened Stages
  import opened SlidingWindow
  import opened StagingDispatch
  import opened Feedback

  /** `np.zeros((5, length))`. */
  function Zeros(length: nat): (rows: seq<seq<real>>)
    ensures Shaped(rows, length)
    ensures forall r, j :: 0 <= r < Channels && 0 <= j < length ==> rows[r][j] == 0.0
  {
    seq(Channels, r => seq(length, j => 0.0))
  }

  class StagingLoop {
    const samplingRate: nat
    /** `length = 60*sampling_rate`: the window holds two 30-second epochs. */
    const length: nat
    /** `running_window`, shifted in place. */
    const window: array2<real>
    var samplesRead: nat

    /** The dispatcher's variables. */
    var responses: seq<Request>
    var lastStagingRequestTime: int
    var lastCallSuccess: bool
    var stage: Score
    var tStage: nat
    var sleepStages: seq<LogEntry>

    /** The cue gate's anchor, `time()` at start-up until the first cue. */
    var lastPlayed: int

    /** The window's contents, row by row. */
    ghost var Rows: seq<seq<real>>
    /** Every chunk ingested so far, in arrival order. */
    ghost var Chunks: seq<seq<seq<real>>>
    /** The times at which cues were played. */
    ghost var CueTimes: seq<int>
    ghost const startTime: int

    /** The array holds `Rows`. */
    ghost predicate WindowValid()
      reads this`Rows, window
    {
      && window.Length0 == Channels && window.Length1 == length
      && Shaped(Rows, length)
      && forall r, j :: 0 <= r < Channels && 0 <= j < length ==> window[r, j] == Rows[r][j]
    }

    function Scoring(): Dispatcher
      reads this`responses, this`lastStagingRequestTime, this`lastCallSuccess
      reads this`stage, this`tStage, this`sleepStages
    {
      Dispatcher(responses, lastStagingRequestTime, lastCallSuccess, stage, tStage, sleepStages)
    }

    /** The window is the zero window after every chunk so far; `samples_read` is their total width. */
    ghost predicate StreamValid()
      reads this`Rows, this`Chunks, this`samplesRead, window
    {
      && WindowValid()
      && AllFit(Chunks, length)
      && samplesRead == TotalWidth(Chunks, length)
      && Rows == IngestAll(Zeros(length), Chunks, length)
    }

    /** The dispatcher invariant holds, and nothing is scheduled during the warm-up. */
    ghost predicate ScoringValid()
      reads this`responses, this`lastStagingRequestTime, this`lastCallSuccess
      reads this`stage, this`tStage, this`sleepStages, this`samplesRead
    {
      && Inv(Scoring())
      && (samplesRead < length ==> Scoring() == Idle)
    }

    /** `last_played` is the last cue time (start-up before any), and cues are spaced. */
    ghost predicate CuesValid()
      reads this`CueTimes, this`lastPlayed
    {
      && (CueTimes == [] ==> lastPlayed == startTime)
      && (CueTimes != [] ==> lastPlayed == Last(CueTimes) && CueTimes[0] - startTime > RefractoryMs)
      && (forall i :: 0 < i < |CueTimes| ==> CueTimes[i] - CueTimes[i - 1] > RefractoryMs)
    }

    ghost predicate Valid()
      reads this`Rows, this`Chunks, this`samplesRead, window
      reads this`responses, this`lastStagingRequestTime, this`lastCallSuccess
      reads this`stage, this`tStage, this`sleepStages
      reads this`CueTimes, this`lastPlayed
    {
      StreamValid() && ScoringValid() && CuesValid()
    }

    constructor (rate: nat, start: int)
      ensures Valid() && fresh(window)
      ensures samplingRate == rate && length == 60 * rate
      ensures Rows == Zeros(length) && samplesRead == 0 && Chunks == []
      ensures Scoring() == Idle && lastPlayed == start && startTime == start && CueTimes == []
    {
      samplingRate := rate;
      length := 60 * rate;
      window := new real[Channels, 60 * rate]((r, j) => 0.0);
      samplesRead := 0;
      responses := [];
      lastStagingRequestTime := 0;
      lastCallSuccess := false;
      stage := Sentinel;
      tStage := 0;
      sleepStages := [];
      lastPlayed := start;
      Rows := Zeros(60 * rate);
      Chunks := [];
      CueTimes := [];
      startTime := start;
    }

    /** A copy of the window's five rows, as handed to the scoring process. */
    method Snapshot() returns (rows: seq<seq<real>>)
      requires WindowValid()
      ensures rows == Rows
    {
      rows := [];
      var r := 0;
      while r < Channels
        invariant 0 <= r <= Channels
        invariant rows == Rows[..r]
      {
        var row := [];
        var j := 0;
        while j < length
          invariant 0 <= j <= length
          invariant row == Rows[r][..j]
        {
          row := row + [window[r, j]];
          j := j + 1;
        }
        assert row == Rows[r];
        assert Rows[..r + 1] == Rows[..r] + [Rows[r]];
        rows := rows + [row];
        r := r + 1;
      }
    }

    /**
     * One iteration of the acquisition loop with the chunk `read_buffer`
     * returned, at wall-clock time `now` (ms), with `obs` what the newest
     * scoring future reports. Returns whether the audio cue is played.
     */
    method Step(chunk: seq<seq<real>>, now: int, obs: Observation) returns (cue: bool)
      requires Valid() && Fits(chunk, length)
      requires Consistent(Scoring(), obs)
      requires obs.doneAtPoll ==> obs.result.code in StageKeys
      modifies this, window
      ensures Valid()
      ensures Chunks == old(Chunks) + [chunk]
      ensures samplesRead == old(samplesRead) + Width(chunk)
      ensures Rows == ShiftIn(old(Rows), chunk, length)
      ensures samplesRead < length ==>
        Scoring() == old(Scoring()) == Idle && !cue
      ensures samplesRead >= length ==>
        Scoring() == Dispatch(old(Scoring()), now, samplesRead, Rows, obs)
      ensures cue == (samplesRead >= length && CueGate(stage, now, old(lastPlayed)))
      ensures lastPlayed == (if cue then now else old(lastPlayed))
      ensures CueTimes == old(CueTimes) + (if cue then [now] else [])
    {
      ghost var scoring, played, cues := Scoring(), lastPlayed, CueTimes;
      Absorb(chunk);
      assert Scoring() == scoring && lastPlayed == played && CueTimes == cues;
      assert ScoringValid() && CuesValid();

      // lines 255-267: warm-up
      if samplesRead < length {
        return false;
      }

      ghost var chunks, read, rows := Chunks, samplesRead, Rows;
      cue := ScoreAndCue(now, obs);
      assert Chunks == chunks && samplesRead == read && Rows == rows;
      assert StreamValid();
    }

    /** Lines 270-318: the dispatcher's part of a post-warm-up iteration, then the cue gate. */
    method ScoreAndCue(now: int, obs: Observation) returns (cue: bool)
      requires WindowValid() && ScoringValid() && CuesValid() && samplesRead >= length
      requires Consistent(Scoring(), obs)
      requires obs.doneAtPoll ==> obs.result.code in StageKeys
      modifies this`responses, this`lastStagingRequestTime, this`lastCallSuccess
      modifies this`stage, this`tStage, this`sleepStages
      modifies this`lastPlayed, this`CueTimes
      ensures ScoringValid() && CuesValid()
      ensures Scoring() == Dispatch(old(Scoring()), now, samplesRead, Rows, obs)
      ensures cue == CueGate(stage, now, old(lastPlayed))
      ensures lastPlayed == (if cue then now else old(lastPlayed))
      ensures CueTimes == old(CueTimes) + (if cue then [now] else [])
    {
      ScoreWindow(now, obs);
      ghost var scored := Scoring();
      cue := PlayCue(now);
      assert Scoring() == scored;
    }

    /** Lines 245-251: count the chunk's samples and push it into the window. */
    method Absorb(chunk: seq<seq<real>>)
      requires StreamValid() && Fits(chunk, length)
      modifies this`samplesRead, this`Rows, this`Chunks, window
      ensures StreamValid()
      ensures Chunks == old(Chunks) + [chunk]
      ensures samplesRead == old(samplesRead) + Width(chunk)
      ensures Rows == ShiftIn(old(Rows), chunk, length)
    {
      var samples := |chunk[0]|;
      samplesRead := samplesRead + samples;
      Ingest(chunk);
      IngestOneMore(Zeros(length), Chunks, chunk, length);
      Chunks := Chunks + [chunk];
    }

    /** Lines 314-318: play the cue when the gate opens, and restart the refractory period. */
    method PlayCue(now: int) returns (cue: bool)
      requires CuesValid()
      modifies this`lastPlayed, this`CueTimes
      ensures CuesValid()
      ensures cue == CueGate(stage, now, old(lastPlayed))
      ensures lastPlayed == (if cue then now else old(lastPlayed))
      ensures CueTimes == old(CueTimes) + (if cue then [now] else [])
    {
      cue := false;
      if stage.code == Nrem3 && stage.confidence > 4.0 && now - lastPlayed > RefractoryMs {
        cue := true;
        lastPlayed := now;
        CueTimes := CueTimes + [now];
      }
    }

    /**
     * Lines 270-310 of one post-warm-up iteration: schedule the first
     * request, log a finished result, and past the deadline cancel a request
     * still running and schedule the next one.
     */
    method ScoreWindow(now: int, obs: Observation)
      requires WindowValid() && ScoringValid() && samplesRead >= length
      requires Consistent(Scoring(), obs)
      requires obs.doneAtPoll ==> obs.result.code in StageKeys
      modifies this`responses, this`lastStagingRequestTime, this`lastCallSuccess
      modifies this`stage, this`tStage, this`sleepStages
      ensures ScoringValid()
      ensures Scoring() == Dispatch(old(Scoring()), now, samplesRead, Rows, obs)
    {
      DispatchKeepsInv(Scoring(), now, samplesRead, Rows, obs);
      ScheduleFirstRequest(now);
      PollNewest(obs);
      CheckDeadline(now, obs);
    }

    /** Lines 270-278: the first post-warm-up iteration sends the first request. */
    method ScheduleFirstRequest(now: int)
      requires WindowValid()
      modifies this`responses, this`lastStagingRequestTime, this`tStage
      ensures Scoring() == ScheduleFirst(old(Scoring()), now, samplesRead, Rows)
    {
      if responses == [] {
        lastStagingRequestTime := now;
        tStage := samplesRead;
        var payload := Snapshot();
        responses := responses + [Request(now, samplesRead, payload, Pending)];
      }
    }

    /** Lines 280-286: log the newest request's result once it is done. */
    method PollNewest(obs: Observation)
      requires responses != []
      modifies this`responses, this`lastCallSuccess, this`stage, this`sleepStages
      ensures Scoring() == Poll(old(Scoring()), obs)
    {
      if obs.doneAtPoll && !lastCallSuccess {
        stage := obs.result;
        sleepStages := sleepStages + [LogEntry(tStage, stage)];
        responses := WithLastFate(responses, Scored(obs.result));
        lastCallSuccess := true;
      }
    }

    /** Lines 288-310: past the deadline, cancel the newest request if still running, then request again. */
    method CheckDeadline(now: int, obs: Observation)
      requires WindowValid() && responses != []
      modifies this`responses, this`lastStagingRequestTime, this`lastCallSuccess
      modifies this`stage, this`tStage, this`sleepStages
      ensures Scoring() == Deadline(old(Scoring()), now, samplesRead, Rows, obs)
    {
      ghost var d := Scoring();
      if now - lastStagingRequestTime > ScoringPeriodMs {
        if !obs.doneAtDeadline {
          responses := WithLastFate(responses, Cancelled);
          stage := Sentinel;
          sleepStages := sleepStages + [LogEntry(tStage, stage)];
        } else if Last(responses).fate.Pending? {
          responses := WithLastFate(responses, Lost);
        }
        assert Scoring() == Resolve(d, obs);
        lastStagingRequestTime := now;
        tStage := samplesRead;
        var payload := Snapshot();
        responses := responses + [Request(now, samplesRead, payload, Pending)];
        lastCallSuccess := false;
      }
    }

    /**
     * Lines 250-251: shift every row left by the chunk's width and copy the
     * chunk into the freed tail.
     */
    method Ingest(chunk: seq<seq<real>>)
      requires WindowValid() && Fits(chunk, length)
      modifies window, this`Rows
      ensures WindowValid()
      ensures Rows == ShiftIn(old(Rows), chunk, length)
    {
      ghost var before := Rows;
      ghost var target := ShiftIn(Rows, chunk, length);
      ShiftInColumns(Rows, chunk, length);
      var r := 0;
      while r < Channels
        invariant 0 <= r <= Channels
        invariant forall r', j :: 0 <= r' < r && 0 <= j < length ==> window[r', j] == target[r'][j]
        invariant forall r', j :: r <= r' < Channels && 0 <= j < length ==> window[r', j] == before[r'][j]
      {
        ShiftRow(r, chunk[r]);
        r := r + 1;
      }
      Rows := target;
    }

    /**
     * One row of the shift: columns `[0, L-w)` take the old columns
     * `[w, L)` and columns `[L-w, L)` take the chunk's row. The copy runs
     * forwards: column `j` is overwritten from column `j + w`, which has
     * not been written yet.
     */
    method ShiftRow(r: nat, row: seq<real>)
      requires window.Length0 == Channels && window.Length1 == length
      requires r < Channels && |row| <= length
      modifies window
      ensures forall j :: 0 <= j < length - |row| ==> window[r, j] == old(window[r, j + |row|])
      ensures forall j :: 0 <= j < |row| ==> window[r, length - |row| + j] == row[j]
      ensures forall r', j :: 0 <= r' < Channels && r' != r && 0 <= j < length ==>
        window[r', j] == old(window[r', j])
    {
      var s := |row|;
      var j := 0;
      while j < length - s
        invariant 0 <= j <= length - s
        invariant forall j' :: 0 <= j' < j ==> window[r, j'] == old(window[r, j' + s])
        invariant forall j' :: j <= j' < length ==> window[r, j'] == old(window[r, j'])
        invariant forall r', j' :: 0 <= r' < Channels && r' != r && 0 <= j' < length ==>
          window[r', j'] == old(window[r', j'])
      {
        window[r, j] := window[r, j + s];
        j := j + 1;
      }
      j := 0;
      while j < s
        invariant 0 <= j <= s
        invariant forall j' :: 0 <= j' < length - s ==> window[r, j'] == old(window[r, j' + s])
        invariant forall j' :: 0 <= j' < j ==> window[r, length - s + j'] == row[j']
        invariant forall r', j' :: 0 <= r' < Channels && r' != r && 0 <= j' < length ==>
          window[r', j'] == old(window[r', j'])
      {
        window[r, length - s + j] := row[j];
        j := j + 1;
      }
    }
  }
}
