/**
 * The refractory cue gate of the demo_tmr.py acquisition loop: an audio
 * cue is played for deep sleep scored with confidence above 4, at most
 * once per refractory period.
 */
module Feedback {
  import opened Stages
  import opened StagingDispatch

  /** `REFRACTORY_PERIOD` (5 s) in milliseconds. */
  const RefractoryMs := 5000

  /** Line 314: NREM 3, confidence above 4, more than the refractory period since the last cue. */
  function CueGate(stage: Score, now: int, lastPlayed: int): (fire: bool)
    ensures fire <==> stage.code == Nrem3 && stage.confidence > 4.0 && now - lastPlayed > RefractoryMs
    ensures fire ==> stage != Sentinel
  {
    stage.code == Nrem3 && stage.confidence > 4.0 && now - lastPlayed > RefractoryMs
  }

  /**
   * The times at which cues fire when the gate is evaluated on `stages` at
   * `times`, starting from `lastPlayed`; `last_played` moves only on a cue.
   */
  function Cues(stages: seq<Score>, times: seq<int>, lastPlayed: int): (cues: seq<int>)
    requires |stages| == |times|
    ensures |cues| <= |stages|
    ensures forall k :: 0 <= k < |cues| ==> cues[k] in times
  {
    if stages == [] then []
    else if CueGate(stages[0], times[0], lastPlayed) then
      [times[0]] + Cues(stages[1..], times[1..], times[0])
    else Cues(stages[1..], times[1..], lastPlayed)
  }

  /** Cues are strictly more than the refractory period apart, and after the starting anchor. */
  lemma {:induction false} CuesSpaced(stages: seq<Score>, times: seq<int>, lastPlayed: int)
    requires |stages| == |times|
    ensures var cs := Cues(stages, times, lastPlayed);
      && (cs != [] ==> cs[0] - lastPlayed > RefractoryMs)
      && (forall i :: 0 < i < |cs| ==> cs[i] - cs[i - 1] > RefractoryMs)
  {
    if stages != [] {
      var lp := if CueGate(stages[0], times[0], lastPlayed) then times[0] else lastPlayed;
      CuesSpaced(stages[1..], times[1..], lp);
    }
  }

  /**
   * Deep sleep at confidence 4.5 evaluated at 0 s, 2 s and 6 s with the
   * last cue long before: cues fire at 0 s and 6 s only.
   */
  lemma RefractoryScenario()
    ensures var deep := Score(Nrem3, 4.5);
      Cues([deep, deep, deep], [0, 2000, 6000], -6000) == [0, 6000]
  {
    var deep := Score(Nrem3, 4.5);
    assert Cues([deep], [6000], 0) == [6000];
    assert Cues([deep, deep], [2000, 6000], 0) == [6000];
  }

  /**
   * No cue without a real result: `stage` starts as `[9, 10]`, so a cue
   * needs a request whose result was scored as NREM 3.
   */
  lemma CueNeedsScoredResult(d: Dispatcher, now: int, lastPlayed: int)
    requires Inv(d) && CueGate(d.stage, now, lastPlayed)
    ensures d.sleepStages != [] && Last(d.sleepStages).score == d.stage
    ensures exists i :: 0 <= i < |d.responses| && d.responses[i].fate == Scored(d.stage)
  {
    var k := |d.sleepStages| - 1;
    RowOrigin(d.responses, k);
  }
}
