/**
 * One call of `ExpressionCounters.update` (assets/js/counters.js:179-286) as a pure
 * function of the detector state, the thresholds and the frame, and its runs over a
 * sequence of frames.
 *
 * The geometry of `FaceMetrics` (square roots of floating-point distances) is not part of
 * this model: a frame carries the number of landmarks it holds and the four signals
 * `FaceMetrics` derives from them, as opaque reals.
 */
module Detector {
  import opened Wrappers
  import opened Config
  import opened Channels

  /** A frame needs at least this many landmarks to be processed. */
  const MinLandmarks: nat := 468
  /** `_browCalibNeeded`: the calibration window the source intends. */
  const CalibNeeded: nat := 25
  /** `_emaAlpha`: the weight of the newest raw eyebrow ratio in the EMA. */
  const EmaAlpha: real := 0.3

  /**
   * A frame of landmarks, reduced to its length and the values `eyeAspectRatio` (left and
   * right eye), `mouthAspectRatio` and `browRatioRaw` compute from it.
   */
  datatype Frame = Frame(landmarkCount: nat, earLeft: real, earRight: real, mar: real, browRaw: real)

  /** `_browEMA`, `_browBaseline` (both `null` until set) and `_browCalibFrames`. */
  datatype Calibration = Calibration(ema: Option<real>, baseline: Option<real>, calibFrames: nat)

  /** Every field of the detector except `th`. */
  datatype State = State(eye: EyeChannel, mouth: MouthChannel, brow: BrowChannel, cal: Calibration)

  /** The `{ ear, mar, brow }` record `update` returns for display. */
  datatype Metrics = Metrics(ear: real, mar: real, brow: Delta)

  /** What one call leaves behind and what it returns (`None` for `undefined`). */
  datatype Outcome = Outcome(next: State, metrics: Option<Metrics>)

  /** The state after construction and after `reset`. */
  const Initial: State :=
    State(EyeChannel(0, 0, false, 0), MouthChannel(0, 0, false, 0),
          BrowChannel(0, 0, false, true, 0), Calibration(None, None, 0))

  /** `!landmarks || landmarks.length < 468` is false. */
  predicate Usable(frame: Option<Frame>)
  {
    frame.Some? && frame.value.landmarkCount >= MinLandmarks
  }

  /**
   * The state invariant every reachable state satisfies: the latch is armed exactly when the
   * brow is not raised, the two brow runs never both hold frames, and the EMA, the baseline
   * and the calibration counter are set together, on the first usable frame.
   */
  predicate Inv(s: State)
  {
    && s.brow.ready == !s.brow.isRaised
    && (s.brow.upFrames == 0 || s.brow.relaxFrames == 0)
    && s.cal.ema.None? == s.cal.baseline.None?
    && s.cal.calibFrames == (if s.cal.baseline.None? then 0 else 1)
  }

  /** The exponential moving average of the raw eyebrow ratio. */
  function Smooth(prev: Option<real>, raw: real): (ema: real)
    ensures prev.None? ==> ema == raw
    ensures prev.Some? ==> ema - prev.value == EmaAlpha * (raw - prev.value)
    ensures prev.Some? && prev.value <= raw ==> prev.value <= ema <= raw
    ensures prev.Some? && raw <= prev.value ==> raw <= ema <= prev.value
  {
    match prev
    case None => raw
    case Some(p) => EmaAlpha * raw + (1.0 - EmaAlpha) * p
  }

  /** The running mean of `n` values extended by `x`. */
  function IncrementalMean(mean: real, n: nat, x: real): real
  {
    (mean * n as real + x) / (n as real + 1.0)
  }

  /** `num / den` under IEEE semantics: a zero divisor gives an infinity or NaN. */
  function Quotient(num: real, den: real): (q: Delta)
    ensures den != 0.0 ==> q.Finite? && q.value * den == num
    ensures den == 0.0 ==> (q == PosInfinity <==> num > 0.0) && (q == NegInfinity <==> num < 0.0)
    ensures den == 0.0 && num == 0.0 ==> q == NotANumber
  {
    if den != 0.0 then Finite(num / den)
    else if num > 0.0 then PosInfinity
    else if num < 0.0 then NegInfinity
    else NotANumber
  }

  /** The eyebrow delta relative to a baseline. */
  function BrowDelta(ema: real, baseline: real): Delta
  {
    Quotient(ema - baseline, baseline)
  }

  /** The frame is a calibration frame: no baseline yet and the window is not used up. */
  predicate Calibrating(cal: Calibration)
  {
    cal.baseline.None? && cal.calibFrames < CalibNeeded
  }

  /**
   * The smoothing and calibration part of `update`: the EMA always advances; a calibration
   * frame folds the EMA into the baseline (a running mean, whose first value is the EMA
   * itself); a missing baseline outside the window falls back to the EMA.
   */
  function Calibrate(cal: Calibration, raw: real): (r: Calibration)
    ensures r.ema == Some(Smooth(cal.ema, raw))
    ensures r.baseline.Some?
    ensures cal.baseline.None? ==> r.baseline == r.ema
    ensures cal.baseline.Some? ==> r.baseline == cal.baseline
    ensures r.calibFrames == cal.calibFrames + Ord(Calibrating(cal))
  {
    var ema := Smooth(cal.ema, raw);
    if Calibrating(cal) then
      var n := cal.calibFrames;
      var baseline := match cal.baseline
        case None => ema
        case Some(b) => IncrementalMean(b, n, ema);
      Calibration(Some(ema), Some(baseline), n + 1)
    else if cal.baseline.None? then
      Calibration(Some(ema), Some(ema), cal.calibFrames)
    else
      Calibration(Some(ema), cal.baseline, cal.calibFrames)
  }

  /**
   * One call of `update`. An unusable frame returns nothing and changes nothing. Otherwise the
   * eye and mouth machines step and the EMA advances; on a calibration frame the baseline is
   * set, `brow` is reported as 0 and the eyebrow machine does not run; afterwards the eyebrow
   * machine runs on the delta against the fixed baseline. Its properties are the lemmas below.
   */
  function Step(s: State, th: Thresholds, frame: Option<Frame>): (o: Outcome)
  {
    if !Usable(frame) then Outcome(s, None)
    else
      var f := frame.value;
      var ear := (f.earLeft + f.earRight) / 2.0;
      var eye := EyeStep(s.eye, th.ear, ear);
      var mouth := MouthStep(s.mouth, th.mar, f.mar);
      var cal := Calibrate(s.cal, f.browRaw);
      if Calibrating(s.cal) then
        Outcome(State(eye, mouth, s.brow, cal), Some(Metrics(ear, f.mar, Finite(0.0))))
      else
        var delta := BrowDelta(cal.ema.value, cal.baseline.value);
        var t := EffectiveBrowThresholds(th.brow, cal.baseline);
        Outcome(State(eye, mouth, BrowStep(s.brow, t, delta), cal), Some(Metrics(ear, f.mar, delta)))
  }

  /** A missing frame, or one with fewer than 468 landmarks, returns nothing and changes nothing. */
  lemma StepIgnoresUnusableFrame(s: State, th: Thresholds, frame: Option<Frame>)
    requires !Usable(frame)
    ensures Step(s, th, frame) == Outcome(s, None)
  {
  }

  /**
   * A usable frame returns the metrics: the mean of the two eye aspect ratios, the mouth
   * aspect ratio, and the eyebrow delta (0 on a calibration frame); the EMA always advances.
   */
  lemma StepReportsMetrics(s: State, th: Thresholds, f: Frame)
    requires Usable(Some(f))
    ensures Step(s, th, Some(f)).metrics.Some?
    ensures Step(s, th, Some(f)).metrics.value.ear == (f.earLeft + f.earRight) / 2.0
    ensures Step(s, th, Some(f)).metrics.value.mar == f.mar
    ensures Step(s, th, Some(f)).next.cal.ema == Some(Smooth(s.cal.ema, f.browRaw))
  {
  }

  /** No call lowers a counter, and none raises one by more than 1. */
  lemma StepCountsAtMostOnce(s: State, th: Thresholds, frame: Option<Frame>)
    ensures s.eye.blinks <= Step(s, th, frame).next.eye.blinks <= s.eye.blinks + 1
    ensures s.mouth.opens <= Step(s, th, frame).next.mouth.opens <= s.mouth.opens + 1
    ensures s.brow.raises <= Step(s, th, frame).next.brow.raises <= s.brow.raises + 1
  {
  }

  /**
   * A calibration frame sets the baseline to the EMA, reports `brow: 0` and leaves the
   * eyebrow machine alone.
   */
  lemma StepCalibrates(s: State, th: Thresholds, f: Frame)
    requires Usable(Some(f)) && Calibrating(s.cal)
    ensures Step(s, th, Some(f)).next.cal.baseline == Step(s, th, Some(f)).next.cal.ema
    ensures Step(s, th, Some(f)).next.cal.calibFrames == s.cal.calibFrames + 1
    ensures Step(s, th, Some(f)).next.brow == s.brow
    ensures Step(s, th, Some(f)).metrics.value.brow == Finite(0.0)
  {
  }

  /**
   * Once a baseline exists it never changes, and the reported eyebrow value is the delta of the
   * new EMA against it.
   */
  lemma StepKeepsBaseline(s: State, th: Thresholds, frame: Option<Frame>)
    requires s.cal.baseline.Some?
    ensures Step(s, th, frame).next.cal.baseline == s.cal.baseline
    ensures Step(s, th, frame).next.cal.calibFrames == s.cal.calibFrames
    ensures Usable(frame) ==>
      Step(s, th, frame).metrics.value.brow ==
      BrowDelta(Step(s, th, frame).next.cal.ema.value, s.cal.baseline.value)
  {
  }

  /** Every call keeps the state invariant. */
  lemma StepKeepsInv(s: State, th: Thresholds, frame: Option<Frame>)
    requires Inv(s)
    ensures Inv(Step(s, th, frame).next)
  {
  }

  /** A sequence of calls of `update` with the same thresholds. */
  function Run(s: State, th: Thresholds, frames: seq<Option<Frame>>): (r: State)
    ensures s.eye.blinks <= r.eye.blinks
    ensures s.mouth.opens <= r.mouth.opens
    ensures s.brow.raises <= r.brow.raises
    decreases |frames|
  {
    if frames == [] then s
    else
      StepCountsAtMostOnce(s, th, frames[0]);
      Run(Step(s, th, frames[0]).next, th, frames[1..])
  }

  /** Every state reached from a state satisfying the invariant satisfies it. */
  lemma {:induction false} RunKeepsInv(s: State, th: Thresholds, frames: seq<Option<Frame>>)
    requires Inv(s)
    ensures Inv(Run(s, th, frames))
    decreases |frames|
  {
    if frames != [] {
      StepKeepsInv(s, th, frames[0]);
      RunKeepsInv(Step(s, th, frames[0]).next, th, frames[1..]);
    }
  }

  /** The mean EAR of every usable frame, in order: what the eye machine sees. */
  function Ears(frames: seq<Option<Frame>>): (ears: seq<real>)
    ensures |ears| <= |frames|
    decreases |frames|
  {
    if frames == [] then []
    else if Usable(frames[0]) then
      [(frames[0].value.earLeft + frames[0].value.earRight) / 2.0] + Ears(frames[1..])
    else Ears(frames[1..])
  }

  /** The MAR of every usable frame, in order: what the mouth machine sees. */
  function Mars(frames: seq<Option<Frame>>): (mars: seq<real>)
    ensures |mars| <= |frames|
    decreases |frames|
  {
    if frames == [] then []
    else if Usable(frames[0]) then [frames[0].value.mar] + Mars(frames[1..])
    else Mars(frames[1..])
  }

  /**
   * The eyebrow deltas of every usable frame, in order, once a baseline exists: the EMA is
   * advanced by each raw ratio and compared with the fixed baseline.
   */
  function Deltas(ema: real, baseline: real, frames: seq<Option<Frame>>): (ds: seq<Delta>)
    ensures |ds| <= |frames|
    decreases |frames|
  {
    if frames == [] then []
    else if Usable(frames[0]) then
      var next := Smooth(Some(ema), frames[0].value.browRaw);
      [BrowDelta(next, baseline)] + Deltas(next, baseline, frames[1..])
    else Deltas(ema, baseline, frames[1..])
  }

  /** Over any sequence of calls, the eye fields are the eye machine run on the usable frames. */
  lemma {:induction false} RunEyeIsEyeRun(s: State, th: Thresholds, frames: seq<Option<Frame>>)
    ensures Run(s, th, frames).eye == EyeRun(s.eye, th.ear, Ears(frames))
    decreases |frames|
  {
    if frames != [] {
      RunEyeIsEyeRun(Step(s, th, frames[0]).next, th, frames[1..]);
      if Usable(frames[0]) {
        var e := (frames[0].value.earLeft + frames[0].value.earRight) / 2.0;
        assert ([e] + Ears(frames[1..]))[1..] == Ears(frames[1..]);
      }
    }
  }

  /** Over any sequence of calls, the mouth fields are the mouth machine run on the usable frames. */
  lemma {:induction false} RunMouthIsMouthRun(s: State, th: Thresholds, frames: seq<Option<Frame>>)
    ensures Run(s, th, frames).mouth == MouthRun(s.mouth, th.mar, Mars(frames))
    decreases |frames|
  {
    if frames != [] {
      RunMouthIsMouthRun(Step(s, th, frames[0]).next, th, frames[1..]);
      if Usable(frames[0]) {
        assert ([frames[0].value.mar] + Mars(frames[1..]))[1..] == Mars(frames[1..]);
      }
    }
  }

  /**
   * Once calibrated, over any sequence of calls the eyebrow fields are the eyebrow machine run
   * on the deltas of the usable frames, with the thresholds fixed against the baseline.
   */
  lemma {:induction false} RunBrowIsBrowRun(s: State, th: Thresholds, frames: seq<Option<Frame>>)
    requires Inv(s) && s.cal.baseline.Some?
    ensures Run(s, th, frames).brow ==
      BrowRun(s.brow, EffectiveBrowThresholds(th.brow, s.cal.baseline),
              Deltas(s.cal.ema.value, s.cal.baseline.value, frames))
    decreases |frames|
  {
    if frames != [] {
      var n := Step(s, th, frames[0]).next;
      StepKeepsInv(s, th, frames[0]);
      RunBrowIsBrowRun(n, th, frames[1..]);
      if Usable(frames[0]) {
        var next := Smooth(s.cal.ema, frames[0].value.browRaw);
        assert n.cal.ema == Some(next) && n.cal.baseline == s.cal.baseline;
        var ds := Deltas(next, s.cal.baseline.value, frames[1..]);
        assert ([BrowDelta(next, s.cal.baseline.value)] + ds)[1..] == ds;
      }
    }
  }

  /**
   * However many calls an armed, lowered brow stays above `raise` once calibrated, `browRaises`
   * rises by exactly one, provided the up-run reaches `min_frames`.
   */
  lemma HeldRaiseOverCallsCountsOnce(s: State, th: Thresholds, frames: seq<Option<Frame>>)
    requires Inv(s) && s.cal.baseline.Some? && !s.brow.isRaised
    requires var t := EffectiveBrowThresholds(th.brow, s.cal.baseline);
             var ds := Deltas(s.cal.ema.value, s.cal.baseline.value, frames);
             HeldAbove(t, ds) && |ds| > 0 && s.brow.upFrames + |ds| >= t.minF
    ensures Run(s, th, frames).brow.raises == s.brow.raises + 1
  {
    RunBrowIsBrowRun(s, th, frames);
    HeldRaiseCountsExactlyOnce(s.brow, EffectiveBrowThresholds(th.brow, s.cal.baseline),
                               Deltas(s.cal.ema.value, s.cal.baseline.value, frames));
  }

  /** The first usable frame of a sequence, if any. */
  function FirstUsable(frames: seq<Option<Frame>>): (f: Option<Frame>)
    ensures f.Some? ==> Usable(Some(f.value))
    ensures f.None? <==> forall i :: 0 <= i < |frames| ==> !Usable(frames[i])
    ensures f.Some? ==>
      exists k :: 0 <= k < |frames| && frames[k] == f && forall j :: 0 <= j < k ==> !Usable(frames[j])
    decreases |frames|
  {
    if frames == [] then None
    else if Usable(frames[0]) then frames[0]
    else
      var f := FirstUsable(frames[1..]);
      assert forall i :: 1 <= i < |frames| ==> frames[i] == frames[1..][i - 1];
      if f.Some? then
        var k :| 0 <= k < |frames[1..]| && frames[1..][k] == f &&
          forall j :: 0 <= j < k ==> !Usable(frames[1..][j]);
        assert frames[k + 1] == f;
        f
      else
        f
  }

  /**
   * Calibration takes one frame, not `CalibNeeded`: starting uncalibrated, the baseline is the
   * raw eyebrow ratio of the first usable frame and the calibration counter stops at 1.
   */
  lemma {:induction false} CalibrationTakesOneFrame(s: State, th: Thresholds, frames: seq<Option<Frame>>)
    requires Inv(s) && s.cal.baseline.None?
    ensures Run(s, th, frames).cal.baseline ==
      (match FirstUsable(frames) case None => None case Some(f) => Some(f.browRaw))
    ensures Run(s, th, frames).cal.calibFrames == (if FirstUsable(frames).Some? then 1 else 0)
    decreases |frames|
  {
    if frames != [] {
      var n := Step(s, th, frames[0]).next;
      if Usable(frames[0]) {
        BaselineFixedAfterCalibration(n, th, frames[1..]);
      } else {
        CalibrationTakesOneFrame(n, th, frames[1..]);
      }
    }
  }

  /** Once set, the baseline and the calibration counter never change until `reset`. */
  lemma {:induction false} BaselineFixedAfterCalibration(s: State, th: Thresholds, frames: seq<Option<Frame>>)
    requires s.cal.baseline.Some?
    ensures Run(s, th, frames).cal.baseline == s.cal.baseline
    ensures Run(s, th, frames).cal.calibFrames == s.cal.calibFrames
    decreases |frames|
  {
    if frames != [] {
      BaselineFixedAfterCalibration(Step(s, th, frames[0]).next, th, frames[1..]);
    }
  }

  /**
   * In every reachable state a missing baseline means a calibration frame is next, so the
   * fallback that adopts the EMA outside the window never runs; and a calibration frame never
   * has a baseline to average with, so the running mean is never taken.
   */
  lemma CalibrationFallbackUnreachable(s: State)
    requires Inv(s)
    ensures s.cal.baseline.None? ==> Calibrating(s.cal)
    ensures Calibrating(s.cal) ==> s.cal.calibFrames == 0 && s.cal.ema.None?
  {
  }

  /**
   * A usable frame after the first no longer reports `brow: 0` by calibration: with a raw
   * ratio of 1 and then 2, the second call reports the delta 0.3 (EMA 1.3 against baseline 1).
   */
  lemma SecondFrameIsNotCalibrating(th: Thresholds)
    ensures var o1 := Step(Initial, th, Some(Frame(468, 0.3, 0.3, 0.0, 1.0)));
            var o2 := Step(o1.next, th, Some(Frame(468, 0.3, 0.3, 0.0, 2.0)));
            o1.metrics.value.brow == Finite(0.0) && o2.metrics.value.brow == Finite(0.3)
  {
  }

  /**
   * A percentage threshold is a rise relative to the baseline: against a positive baseline the
   * delta exceeds `p` exactly when the EMA exceeds `baseline * (1 + p)`, and likewise below.
   */
  lemma PercentThresholdIsRelativeRise(ema: real, baseline: real, p: real)
    requires baseline > 0.0
    ensures Above(BrowDelta(ema, baseline), p) <==> ema > baseline * (1.0 + p)
    ensures Below(BrowDelta(ema, baseline), p) <==> ema < baseline * (1.0 + p)
  {
  }

  /**
   * Against a negative baseline the comparison is reversed: the delta exceeds `p` exactly when
   * the EMA falls below `baseline * (1 + p)`, so a "raise" threshold then fires on a fall.
   */
  lemma NegativeBaselineReversesTheComparison(ema: real, baseline: real, p: real)
    requires baseline < 0.0
    ensures Above(BrowDelta(ema, baseline), p) <==> ema < baseline * (1.0 + p)
    ensures Below(BrowDelta(ema, baseline), p) <==> ema > baseline * (1.0 + p)
  {
  }

  /**
   * Legacy absolute thresholds, converted against a positive baseline, compare the delta
   * exactly as the absolute thresholds would compare the EMA itself.
   */
  lemma LegacyThresholdsCompareTheEma(b: BrowThresholds, baseline: real, ema: real)
    requires !HasPercentages(Some(b)) && HasAbsolutes(Some(b)) && baseline > 0.0
    ensures Above(BrowDelta(ema, baseline), EffectiveBrowThresholds(Some(b), Some(baseline)).raise)
            <==> ema > b.raiseThreshold.value
    ensures Below(BrowDelta(ema, baseline), EffectiveBrowThresholds(Some(b), Some(baseline)).relax)
            <==> ema < b.relaxThreshold.value
  {
  }

  /**
   * The EMA delays a step in the raw ratio: after calibration at 1.0, a raw ratio held 20% above
   * the baseline gives the deltas 0.06, 0.102, 0.1314, 0.15198, so with a raise threshold of
   * 0.08 and `min_frames` 3 the first three such frames count nothing and the fourth counts once.
   * Both percentages are given, so the thresholds are taken as configured rather than defaulted.
   */
  lemma RaiseConfirmsLateThroughTheEma(s: State, th: Thresholds, f: Frame)
    requires th.brow == Some(BrowThresholds(Some(0.08), Some(0.04), None, None, Some(3)))
    requires s.cal == Calibration(Some(1.0), Some(1.0), 1)
    requires s.brow.ready && !s.brow.isRaised && s.brow.upFrames == 0
    requires f.landmarkCount >= MinLandmarks && f.browRaw == 1.2
    ensures Run(s, th, [Some(f), Some(f), Some(f)]).brow.raises == s.brow.raises
    ensures Run(s, th, [Some(f), Some(f), Some(f), Some(f)]).brow.raises == s.brow.raises + 1
  {
    var t := EffectiveBrow(0.08, 0.04, 3);
    assert EffectiveBrowThresholds(th.brow, Some(1.0)) == t;
    var s1 := Step(s, th, Some(f)).next;
    assert s1.cal == Calibration(Some(1.06), Some(1.0), 1);
    assert s1.brow == BrowStep(s.brow, t, Finite(0.06));
    var s2 := Step(s1, th, Some(f)).next;
    assert s2.cal == Calibration(Some(1.102), Some(1.0), 1);
    var s3 := Step(s2, th, Some(f)).next;
    assert s3.cal == Calibration(Some(1.1314), Some(1.0), 1);
    assert s3.brow.upFrames == 2 && s3.brow.raises == s.brow.raises;
    var s4 := Step(s3, th, Some(f)).next;
    assert s4.brow.raises == s.brow.raises + 1;
    var one, two, three := [Some(f)], [Some(f), Some(f)], [Some(f), Some(f), Some(f)];
    assert one[1..] == [] && two[1..] == one && three[1..] == two;
    assert Run(s2, th, one) == s3;
    assert Run(s3, th, one) == s4;
    assert Run(s1, th, two) == s3;
    assert Run(s2, th, two) == s4;
    assert Run(s, th, three) == s3;
    assert Run(s1, th, three) == s4;
    assert ([Some(f)] + three)[1..] == three;
  }
}
