/**
 * The offline epoch pass of demo_basic.py: the recording is cut into
 * 60-second windows at 30-second strides, each window is scored, the
 * stage codes are collected in `auto_scores` and, after mapping Unknown to
 * Wake, compared index by index with an expert's scores.
 */
module EpochPass {
  import opened Stages
  import opened Arith
  import opened Wrappers

  /** Seconds in one scoring epoch. */
  const EpochSeconds := 30

  /** Line 110: `int(samples/samplig_rate/30)`, the number of whole epochs. */
  function TotalEpochs(samples: nat, rate: nat): (n: nat)
    requires rate > 0
    ensures n * (EpochSeconds * rate) <= samples < (n + 1) * (EpochSeconds * rate)
  {
    samples / (EpochSeconds * rate)
  }

  /** Line 144: the window for epoch `i` is `[(i-1)*30*rate, (i+1)*30*rate)`. */
  function WindowStart(i: nat, rate: nat): (s: nat)
    requires i >= 1
    ensures i == 1 ==> s == 0
    ensures s + EpochSeconds * rate == i * EpochSeconds * rate
  {
    (i - 1) * EpochSeconds * rate
  }

  /** Consecutive windows start one epoch apart. */
  lemma StartStep(i: nat, rate: nat)
    requires i >= 1
    ensures WindowStart(i + 1, rate) == WindowStart(i, rate) + EpochSeconds * rate
  {
    assert i * EpochSeconds * rate == (i - 1) * EpochSeconds * rate + EpochSeconds * rate;
  }

  function WindowEnd(i: nat, rate: nat): (end: nat)
    requires i >= 1
    ensures end == WindowStart(i, rate) + 2 * (EpochSeconds * rate)
  {
    assert (i + 1) * EpochSeconds * rate == (i - 1) * EpochSeconds * rate + 2 * (EpochSeconds * rate);
    (i + 1) * EpochSeconds * rate
  }

  /**
   * For every scored epoch `1 <= i < total_epochs` the window holds exactly
   * 60 seconds, lies inside the recording, and its second half is the
   * first half of the next epoch's window.
   */
  lemma WindowsTile(samples: nat, rate: nat, i: nat)
    requires rate > 0 && 1 <= i < TotalEpochs(samples, rate)
    ensures WindowEnd(i, rate) - WindowStart(i, rate) == 2 * EpochSeconds * rate
    ensures WindowEnd(i, rate) <= samples
    ensures WindowStart(i + 1, rate) == WindowStart(i, rate) + EpochSeconds * rate
    ensures WindowEnd(i, rate) == WindowEnd(i + 1, rate) - EpochSeconds * rate
  {
    StartStep(i, rate);
    var e := EpochSeconds * rate;
    var n := TotalEpochs(samples, rate);
    assert WindowEnd(i, rate) == (i + 1) * e;
    MulMonotone(i + 1, n, e);
  }

  /** `data[:, start:end]` for the window of epoch `i`. */
  function EpochWindow(data: seq<seq<real>>, i: nat, rate: nat): (w: seq<seq<real>>)
    requires i >= 1
    requires forall r :: 0 <= r < |data| ==> WindowEnd(i, rate) <= |data[r]|
    ensures |w| == |data|
    ensures forall r :: 0 <= r < |data| ==> |w[r]| == 2 * (EpochSeconds * rate)
  {
    var lo, hi := WindowStart(i, rate), WindowEnd(i, rate);
    seq(|data|, r requires 0 <= r < |data| => data[r][lo..hi])
  }

  /** Consecutive windows overlap by one epoch: the later half of one is the earlier half of the next. */
  lemma WindowsOverlap(data: seq<seq<real>>, samples: nat, rate: nat, i: nat, r: nat)
    requires rate > 0 && 1 <= i && i + 1 < TotalEpochs(samples, rate)
    requires forall c :: 0 <= c < |data| ==> |data[c]| == samples
    requires r < |data|
    ensures (WindowsTile(samples, rate, i); WindowsTile(samples, rate, i + 1);
      EpochWindow(data, i, rate)[r][EpochSeconds * rate..] ==
            EpochWindow(data, i + 1, rate)[r][..EpochSeconds * rate])
  {
    WindowsTile(samples, rate, i);
    WindowsTile(samples, rate, i + 1);
    StartStep(i, rate);
  }

  datatype Confidence = Low | Medium | High

  /** Lines 186-191: below 2 is Low, below 4 Medium, otherwise High. */
  function Bucket(c: real): (b: Confidence)
    ensures b == Low <==> c < 2.0
    ensures b == Medium <==> 2.0 <= c < 4.0
    ensures b == High <==> 4.0 <= c
  {
    if c < 2.0 then Low else if c < 4.0 then Medium else High
  }

  function Rank(b: Confidence): nat {
    match b
    case Low => 0
    case Medium => 1
    case High => 2
  }

  /** A higher confidence never falls in a lower bucket. */
  lemma BucketMonotone(c1: real, c2: real)
    requires c1 <= c2
    ensures Rank(Bucket(c1)) <= Rank(Bucket(c2))
  {
  }

  /** What line 193 reports for one epoch. */
  datatype EpochReport = EpochReport(stage: string, confidence: Confidence)

  function Report(s: Score): (r: EpochReport)
    requires s.code in StageKeys
    ensures |r.stage| > 0
    ensures r.confidence == High <==> s.confidence >= 4.0
    ensures r.confidence == Low <==> s.confidence < 2.0
  {
    EpochReport(StageName(s.code), Bucket(s.confidence))
  }

  /**
   * The outcome of the pass: every epoch scored, or the `KeyError` that
   * `stage_keys[stage[0]]` raises at the first epoch whose code is not a key
   * (its code has already been appended to `auto_scores`).
   */
  datatype PassOutcome =
    | Completed(autoScores: seq<int>, reports: seq<EpochReport>)
    | MissingStageKey(epoch: nat, autoScores: seq<int>)

  /** `auto_scores` after the first `n` epochs: 9 for epoch 0, then each reply's stage code. */
  function AutoScores(replies: seq<Response>, n: nat): (scores: seq<int>)
    requires n <= |replies| + 1
    ensures |scores| == if n == 0 then 1 else n
    ensures scores[0] == Unknown
    ensures forall i :: 1 <= i < n ==> scores[i] == ProcessAndStage(replies[i - 1]).code
  {
    if n <= 1 then [Unknown] else AutoScores(replies, n - 1) + [ProcessAndStage(replies[n - 2]).code]
  }

  /** `reports` are the reports of the first `|reports|` replies, each with a known stage code. */
  predicate Reported(replies: seq<Response>, reports: seq<EpochReport>) {
    && |reports| <= |replies|
    && forall k :: 0 <= k < |reports| ==>
         ProcessAndStage(replies[k]).code in StageKeys && reports[k] == Report(ProcessAndStage(replies[k]))
  }

  lemma ReportedAppend(replies: seq<Response>, reports: seq<EpochReport>)
    requires Reported(replies, reports) && |reports| < |replies|
    requires ProcessAndStage(replies[|reports|]).code in StageKeys
    ensures Reported(replies, reports + [Report(ProcessAndStage(replies[|reports|]))])
  {
    var next := reports + [Report(ProcessAndStage(replies[|reports|]))];
    forall k | 0 <= k < |next|
      ensures ProcessAndStage(replies[k]).code in StageKeys && next[k] == Report(ProcessAndStage(replies[k]))
    {
      if k < |reports| {
        assert next[k] == reports[k];
      }
    }
  }

  /**
   * Lines 136-193: score epochs `1 .. total_epochs-1`, epoch `i` with
   * `replies[i-1]`, the scoring service's answer for its window.
   */
  method ScoreEpochs(totalEpochs: nat, replies: seq<Response>) returns (out: PassOutcome)
    requires totalEpochs <= |replies| + 1
    ensures out.Completed? <==>
      forall k :: 0 <= k < totalEpochs - 1 ==> ProcessAndStage(replies[k]).code in StageKeys
    ensures out.Completed? ==>
      && out.autoScores == AutoScores(replies, totalEpochs)
      && |out.reports| == |out.autoScores| - 1
      && forall k :: 0 <= k < |out.reports| ==>
           ProcessAndStage(replies[k]).code in StageKeys &&
           out.reports[k] == Report(ProcessAndStage(replies[k]))
    ensures out.MissingStageKey? ==>
      && 1 <= out.epoch < totalEpochs
      && ProcessAndStage(replies[out.epoch - 1]).code !in StageKeys
      && (forall k :: 0 <= k < out.epoch - 1 ==> ProcessAndStage(replies[k]).code in StageKeys)
      && out.autoScores == AutoScores(replies, out.epoch + 1)
  {
    var autoScores := [Unknown];
    var reports := [];
    var i := 1;
    while i < totalEpochs
      invariant 1 <= i <= |replies| + 1 && (i <= totalEpochs || i == 1)
      invariant autoScores == AutoScores(replies, i)
      invariant |reports| == i - 1 && Reported(replies, reports)
    {
      var stage := ProcessAndStage(replies[i - 1]);
      autoScores := autoScores + [stage.code];
      assert autoScores == AutoScores(replies, i + 1);
      if stage.code !in StageKeys {
        return MissingStageKey(i, autoScores);
      }
      ReportedAppend(replies, reports);
      reports := reports + [Report(stage)];
      i := i + 1;
    }
    if totalEpochs == 0 {
      assert AutoScores(replies, 0) == [Unknown] == AutoScores(replies, 1);
    } else {
      assert i == totalEpochs;
    }
    assert autoScores == AutoScores(replies, totalEpochs);
    return Completed(autoScores, reports);
  }

  /** Lines 214-215: every Unknown (9) becomes Wake (0); nothing else changes. */
  function Remapped(s: seq<int>): (r: seq<int>)
    ensures |r| == |s|
    ensures Unknown !in r
    ensures forall i :: 0 <= i < |s| ==> r[i] == if s[i] == Unknown then Wake else s[i]
  {
    seq(|s|, i requires 0 <= i < |s| => if s[i] == Unknown then Wake else s[i])
  }

  /** `a[a==9] = 0`, in place. */
  method RemapUnknown(a: array<int>)
    modifies a
    ensures a[..] == Remapped(old(a[..]))
  {
    var i := 0;
    while i < a.Length
      invariant 0 <= i <= a.Length
      invariant forall k :: 0 <= k < i ==> a[k] == if old(a[k]) == Unknown then Wake else old(a[k])
      invariant forall k :: i <= k < a.Length ==> a[k] == old(a[k])
    {
      if a[i] == Unknown {
        a[i] := Wake;
      }
      i := i + 1;
    }
  }

  /** Remapping twice is remapping once. */
  lemma RemapIdempotent(s: seq<int>)
    ensures Remapped(Remapped(s)) == Remapped(s)
  {
  }

  /**
   * After the remap two scores agree exactly when they agreed before or
   * both were Wake or Unknown.
   */
  lemma RemapAgreement(a: seq<int>, b: seq<int>, i: nat)
    requires i < |a| && i < |b|
    ensures Remapped(a)[i] == Remapped(b)[i] <==>
      a[i] == b[i] || (a[i] in {Wake, Unknown} && b[i] in {Wake, Unknown})
  {
  }

  /** The number of indices below `n` at which `a` and `b` agree. */
  function Agreements(a: seq<int>, b: seq<int>, n: nat): (k: nat)
    requires n <= |a| && n <= |b|
    ensures k <= n
  {
    if n == 0 then 0 else Agreements(a, b, n - 1) + (if a[n - 1] == b[n - 1] then 1 else 0)
  }

  /** `Agreements` counts exactly the set of agreeing indices, never more than `n`. */
  lemma {:induction false} AgreementsCount(a: seq<int>, b: seq<int>, n: nat)
    requires n <= |a| && n <= |b|
    ensures Agreements(a, b, n) == |set i | 0 <= i < n && a[i] == b[i]|
    ensures Agreements(a, b, n) <= n
  {
    if n > 0 {
      AgreementsCount(a, b, n - 1);
      var prev := set i | 0 <= i < n - 1 && a[i] == b[i];
      var all := set i | 0 <= i < n && a[i] == b[i];
      if a[n - 1] == b[n - 1] {
        assert all == prev + {n - 1};
      } else {
        assert all == prev;
      }
    }
  }

  /** Full agreement means equal prefixes. */
  lemma {:induction false} AgreementsFull(a: seq<int>, b: seq<int>, n: nat)
    requires n <= |a| && n <= |b|
    ensures Agreements(a, b, n) == n <==> a[..n] == b[..n]
  {
    if n > 0 {
      AgreementsFull(a, b, n - 1);
      AgreementsCount(a, b, n - 1);
      assert a[..n] == a[..n - 1] + [a[n - 1]] && b[..n] == b[..n - 1] + [b[n - 1]];
      if a[..n] == b[..n] {
        assert a[..n - 1] == a[..n][..n - 1] && b[..n - 1] == b[..n][..n - 1];
      }
    }
  }

  /** Line 217: the accuracy numerator, computed on the remapped scores. */
  function AccuracyNumerator(autoScores: seq<int>, expert: seq<int>, totalEpochs: nat): (m: nat)
    requires |autoScores| == totalEpochs && totalEpochs <= |expert|
    ensures m <= totalEpochs
  {
    AgreementsCount(Remapped(autoScores), Remapped(expert), totalEpochs);
    Agreements(Remapped(autoScores), Remapped(expert), totalEpochs)
  }

  /**
   * The numerator counts the epochs where the two scorers agree, treating
   * Unknown as Wake.
   */
  lemma AccuracyNumeratorCounts(autoScores: seq<int>, expert: seq<int>, totalEpochs: nat)
    requires |autoScores| == totalEpochs && totalEpochs <= |expert|
    ensures AccuracyNumerator(autoScores, expert, totalEpochs) ==
      |set i | 0 <= i < totalEpochs &&
         (autoScores[i] == expert[i] ||
          (autoScores[i] in {Wake, Unknown} && expert[i] in {Wake, Unknown}))|
  {
    var ra, rb := Remapped(autoScores), Remapped(expert);
    AgreementsCount(ra, rb, totalEpochs);
    forall i | 0 <= i < totalEpochs
      ensures ra[i] == rb[i] <==>
        autoScores[i] == expert[i] || (autoScores[i] in {Wake, Unknown} && expert[i] in {Wake, Unknown})
    {
      RemapAgreement(autoScores, expert, i);
    }
    assert (set i | 0 <= i < totalEpochs && ra[i] == rb[i]) ==
      (set i | 0 <= i < totalEpochs &&
         (autoScores[i] == expert[i] ||
          (autoScores[i] in {Wake, Unknown} && expert[i] in {Wake, Unknown})));
  }

  // ---------------------------------------------------------------------
  // Lines 156-180 as written: the `except` branch sets `stage = [9, 10]`
  // but does not leave the iteration, so line 170 then reads the variable
  // `response` left over from before the failed call.
  // ---------------------------------------------------------------------

  /**
   * What `response` can hold when the call fails. On the first scored epoch
   * it is still the token reply of line 72, a 200 reply whose JSON body
   * carries `token` and a text `message`, and a `status` only if the service
   * adds one. After an epoch answered with another HTTP status it is that
   * reply object. After an epoch answered with 200 it is the JSON body that
   * line 174 assigned to it.
   */
  datatype Stale = TokenReply(status: Option<int>) | RejectedReply | ParsedBody

  /**
   * How an iteration ends as written: with a stage, with `AttributeError`
   * (`.status_code` on a dictionary), or with a `LookupError` (a missing
   * `status` key at line 175, or the first character of a text message
   * looked up in `stage_keys` at line 183).
   */
  datatype AsWritten = Staged(score: Score) | AttributeError | LookupError

  /** The stage demo_basic.py ends an iteration with, as the code stands. */
  function StageAsWritten(r: Response, stale: Stale): (out: AsWritten)
    ensures r.Http? ==> out == Staged(ProcessAndStage(r))
    ensures r.TransportError? ==> (out.Staged? <==> out == Staged(Sentinel))
    ensures r.TransportError? ==>
      (out.Staged? <==> stale.RejectedReply? || stale == TokenReply(Some(0)))
  {
    match r
    case Http(code, status, message) =>
      Staged(if code != 200 then Sentinel else if status == 0 then Sentinel else message)
    case TransportError =>
      match stale
      case ParsedBody => AttributeError
      case RejectedReply => Staged(Sentinel)
      case TokenReply(status) => if status == Some(0) then Staged(Sentinel) else LookupError
  }

  /**
   * A transport error never yields a real stage, but it yields `[9, 10]`
   * only by luck: after a scored epoch it crashes on the parsed body, and on
   * the first epoch it crashes on the token reply unless that reply happens
   * to carry `status == 0`.
   */
  lemma TransportErrorFallsThrough(stale: Stale)
    ensures ProcessAndStage(TransportError) == Sentinel
    ensures StageAsWritten(TransportError, stale) != Staged(ProcessAndStage(TransportError)) <==>
      stale.ParsedBody? || (stale.TokenReply? && stale.status != Some(0))
    ensures StageAsWritten(TransportError, ParsedBody) == AttributeError
    ensures StageAsWritten(TransportError, TokenReply(None)) == LookupError
    ensures StageAsWritten(TransportError, TokenReply(Some(1))) == LookupError
  {
  }
}
