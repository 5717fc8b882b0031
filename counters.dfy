/**
 * `ExpressionCounters` (assets/js/counters.js:84-287): the object the frame loop owns and
 * updates in place, one frame at a time. Its methods change its fields step by step as the
 * source does; their contracts tie the new fields to `Detector.Step` and `Detector.Initial`.
 */
module Counters {
  import opened Wrappers
  import opened Config
  import opened Channels
  import opened Detector

  class ExpressionCounters {
    /** The held thresholds; a value, so never aliased with the caller's. */
    var th: Thresholds

    var blinks: nat
    var mouthOpens: nat
    var browRaises: nat

    var eyeClosedFrames: nat
    var eyeOpenFrames: nat
    var mouthOpenFrames: nat
    var mouthClosedFrames: nat

    var eyeIsClosed: bool
    var mouthIsOpen: bool

    var browIsRaised: bool
    var browUpFrames: nat
    var browRelaxFrames: nat
    var browReady: bool

    var browEma: Option<real>
    var browBaseline: Option<real>
    var browCalibFrames: nat

    /** The eye machine's fields. */
    ghost function EyeOf(): EyeChannel
      reads this
    {
      EyeChannel(eyeClosedFrames, eyeOpenFrames, eyeIsClosed, blinks)
    }

    /** The mouth machine's fields. */
    ghost function MouthOf(): MouthChannel
      reads this
    {
      MouthChannel(mouthOpenFrames, mouthClosedFrames, mouthIsOpen, mouthOpens)
    }

    /** The eyebrow machine's fields. */
    ghost function BrowOf(): BrowChannel
      reads this
    {
      BrowChannel(browUpFrames, browRelaxFrames, browIsRaised, browReady, browRaises)
    }

    /** The smoothing and calibration fields. */
    ghost function CalOf(): Calibration
      reads this
    {
      Calibration(browEma, browBaseline, browCalibFrames)
    }

    /** The fields other than `th`, as a `Detector.State`. */
    ghost function Model(): State
      reads this
    {
      State(EyeOf(), MouthOf(), BrowOf(), CalOf())
    }

    ghost predicate Valid()
      reads this
    {
      Inv(Model())
    }

    constructor (th0: Thresholds)
      ensures Valid()
      ensures th == th0 && Model() == Initial
    {
      th := th0;
      blinks, mouthOpens, browRaises := 0, 0, 0;
      eyeClosedFrames, eyeOpenFrames := 0, 0;
      mouthOpenFrames, mouthClosedFrames := 0, 0;
      eyeIsClosed, mouthIsOpen := false, false;
      browIsRaised, browUpFrames, browRelaxFrames, browReady := false, 0, 0, true;
      browEma, browBaseline, browCalibFrames := None, None, 0;
    }

    /** Replaces the thresholds; counters, runs and calibration are left as they are. */
    method SetThresholds(newTh: Thresholds)
      modifies this`th
      ensures th == newTh && Model() == old(Model())
    {
      th := newTh;
    }

    /** Clears counters, runs, flags and calibration, re-arms the brow latch; keeps `th`. */
    method Reset()
      modifies this
      ensures Valid()
      ensures th == old(th) && Model() == Initial
    {
      ResetEye();
      ResetMouth();
      ResetBrow();
      browEma := None;
      browBaseline := None;
      browCalibFrames := 0;
    }

    /** The eye part of `reset`. */
    method ResetEye()
      modifies this`eyeClosedFrames, this`eyeOpenFrames, this`eyeIsClosed, this`blinks
      ensures EyeOf() == Initial.eye
    {
      blinks := 0;
      eyeClosedFrames := 0;
      eyeOpenFrames := 0;
      eyeIsClosed := false;
    }

    /** The mouth part of `reset`. */
    method ResetMouth()
      modifies this`mouthOpenFrames, this`mouthClosedFrames, this`mouthIsOpen, this`mouthOpens
      ensures MouthOf() == Initial.mouth
    {
      mouthOpens := 0;
      mouthOpenFrames := 0;
      mouthClosedFrames := 0;
      mouthIsOpen := false;
    }

    /** The eyebrow part of `reset`: lowered, no runs, latch armed. */
    method ResetBrow()
      modifies this`browUpFrames, this`browRelaxFrames, this`browIsRaised, this`browReady, this`browRaises
      ensures BrowOf() == Initial.brow
    {
      browRaises := 0;
      browIsRaised := false;
      browUpFrames := 0;
      browRelaxFrames := 0;
      browReady := true;
    }

    /** Processes one frame: `update(landmarks)`. */
    method Update(landmarks: Option<Frame>) returns (m: Option<Metrics>)
      requires Valid()
      modifies this
      ensures Valid()
      ensures th == old(th)
      ensures Model() == Step(old(Model()), th, landmarks).next
      ensures m == Step(old(Model()), th, landmarks).metrics
      ensures old(blinks) <= blinks && old(mouthOpens) <= mouthOpens && old(browRaises) <= browRaises
    {
      if landmarks.None? || landmarks.value.landmarkCount < MinLandmarks {
        return None;
      }
      var f := landmarks.value;

      var ear := (f.earLeft + f.earRight) / 2.0;
      UpdateEye(ear);

      var mar := f.mar;
      UpdateMouth(mar);

      var calibrating := UpdateCalibration(f.browRaw);
      if calibrating {
        return Some(Metrics(ear, mar, Finite(0.0)));
      }

      var delta := BrowDelta(browEma.value, browBaseline.value);
      var t := EffectiveBrowThresholds(th.brow, browBaseline);
      UpdateBrow(delta, t);
      return Some(Metrics(ear, mar, delta));
    }

    /**
     * The smoothing and calibration block of `update`; `calibrating` tells the caller to report
     * `brow: 0` and skip the eyebrow machine.
     */
    method UpdateCalibration(raw: real) returns (calibrating: bool)
      modifies this`browEma, this`browBaseline, this`browCalibFrames
      ensures calibrating == Calibrating(old(CalOf()))
      ensures CalOf() == Calibrate(old(CalOf()), raw)
    {
      var ema := match browEma
        case None => raw
        case Some(prev) => EmaAlpha * raw + (1.0 - EmaAlpha) * prev;
      browEma := Some(ema);

      calibrating := browBaseline.None? && browCalibFrames < CalibNeeded;
      if calibrating {
        var n := browCalibFrames;
        browBaseline := match browBaseline
          case None => Some(ema)
          case Some(b) => Some(IncrementalMean(b, n, ema));
        browCalibFrames := browCalibFrames + 1;
      } else if browBaseline.None? {
        browBaseline := Some(ema);
      }
    }

    /** The eye block of `update`: closing, then re-opening counted as a blink. */
    method UpdateEye(ear: real)
      modifies this`eyeClosedFrames, this`eyeOpenFrames, this`eyeIsClosed, this`blinks
      ensures EyeOf() == EyeStep(old(EyeOf()), th.ear, ear)
    {
      if ear < th.ear.closeThreshold {
        eyeClosedFrames := eyeClosedFrames + 1;
        eyeOpenFrames := 0;
        if !eyeIsClosed && eyeClosedFrames >= th.ear.minFrames {
          eyeIsClosed := true;
        }
      } else if ear > th.ear.openThreshold {
        eyeOpenFrames := eyeOpenFrames + 1;
        if eyeIsClosed && eyeOpenFrames >= th.ear.minFrames {
          blinks := blinks + 1;
          eyeIsClosed := false;
          eyeClosedFrames := 0;
        }
      }
    }

    /** The mouth block of `update`: opening, then re-closing counted as one cycle. */
    method UpdateMouth(mar: real)
      modifies this`mouthOpenFrames, this`mouthClosedFrames, this`mouthIsOpen, this`mouthOpens
      ensures MouthOf() == MouthStep(old(MouthOf()), th.mar, mar)
    {
      if mar > th.mar.openThreshold {
        mouthOpenFrames := mouthOpenFrames + 1;
        mouthClosedFrames := 0;
        if !mouthIsOpen && mouthOpenFrames >= th.mar.minFrames {
          mouthIsOpen := true;
        }
      } else if mar < th.mar.closeThreshold {
        mouthClosedFrames := mouthClosedFrames + 1;
        if mouthIsOpen && mouthClosedFrames >= th.mar.minFrames {
          mouthOpens := mouthOpens + 1;
          mouthIsOpen := false;
          mouthOpenFrames := 0;
        }
      }
    }

    /** The eyebrow block of `update`: rising edge counted behind the `browReady` latch. */
    method UpdateBrow(delta: Delta, t: EffectiveBrow)
      modifies this`browUpFrames, this`browRelaxFrames, this`browIsRaised, this`browReady, this`browRaises
      ensures BrowOf() == BrowStep(old(BrowOf()), t, delta)
    {
      if Above(delta, t.raise) {
        browUpFrames := browUpFrames + 1;
        browRelaxFrames := 0;
        if !browIsRaised && browUpFrames >= t.minF {
          browIsRaised := true;
          if browReady {
            browRaises := browRaises + 1;
            browReady := false;
          }
        }
      } else if Below(delta, t.relax) {
        browRelaxFrames := browRelaxFrames + 1;
        browUpFrames := 0;
        if browIsRaised && browRelaxFrames >= t.minF {
          browIsRaised := false;
          browReady := true;
        }
      } else {
        browUpFrames := 0;
        browRelaxFrames := 0;
      }
    }
  }
}
