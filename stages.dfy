/**
 * Sleep-stage codes, the `[stage, confidence]` pair the scoring service
 * returns, and the mapping from one scoring reply to that pair
 * (`process_and_stage` in demo_tmr.py).
 */
module Stages {

  /**
   * The scoring service takes five channels, in this order: C3-A2, C4-A1,
   * EOG left, EOG right and chin EMG.
   */
  const Channels := 5

  /** A `[stage, confidence]` pair: the stage code and a confidence in 0..10. */
  datatype Score = Score(code: int, confidence: real)

  /** The pair `[9, 10]` substituted whenever no real score could be obtained. */
  const Sentinel: Score := Score(9, 10.0)

  const Wake := 0
  const Nrem3 := 3
  const Unknown := 9

  /** The keys of the `stage_keys` dictionary. */
  const StageKeys: set<int> := {0, 1, 2, 3, 5, 9}

  /** `stage_keys[code]`: the display name of a stage code; a missing key is a KeyError. */
  function StageName(code: int): (name: string)
    requires code in StageKeys
    ensures name != ""
  {
    match code
    case 0 => "Wake"
    case 1 => "NREM 1"
    case 2 => "NREM 2"
    case 3 => "NREM 3"
    case 5 => "REM"
    case _ => "Unknown"
  }

  /** Distinct codes have distinct names: the log loses nothing by storing names. */
  lemma StageNamesDistinct(a: int, b: int)
    requires a in StageKeys && b in StageKeys
    ensures StageName(a) == StageName(b) <==> a == b
  {
  }

  /**
   * What a POST to the scoring service can come back with: an exception
   * from the transport, or an HTTP reply whose JSON body carries `status`
   * and `message` (the `[stage, confidence]` pair when `status` is not 0).
   */
  datatype Response =
    | TransportError
    | Http(statusCode: int, status: int, message: Score)

  /** A reply that the source accepts as a real score. */
  predicate Succeeded(r: Response) {
    r.Http? && r.statusCode == 200 && r.status != 0
  }

  /**
   * The result mapping of `process_and_stage`: a transport exception, a
   * non-200 reply and a reply with `status == 0` each give `[9, 10]`;
   * otherwise the service's `message` is returned unchanged.
   */
  function ProcessAndStage(r: Response): (s: Score)
    ensures Succeeded(r) ==> s == r.message
    ensures !Succeeded(r) ==> s == Sentinel
  {
    match r
    case TransportError => Sentinel
    case Http(statusCode, status, message) =>
      if statusCode != 200 then Sentinel
      else if status == 0 then Sentinel
      else message
  }

  /**
   * The three failure kinds cannot be told apart from the result, and a
   * result other than `[9, 10]` can only come from a successful reply.
   */
  lemma SentinelExactlyOnFailure(r: Response)
    ensures ProcessAndStage(r) != Sentinel ==> Succeeded(r) && ProcessAndStage(r) == r.message
    ensures ProcessAndStage(r) == Sentinel <==> !Succeeded(r) || r.message == Sentinel
  {
  }
}
