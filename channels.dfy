/**
 * The three debounced hysteresis machines of `ExpressionCounters.update`
 * (assets/js/counters.js:187-202, 207-222, 258-282), each as a pure step over one
 * frame's signal, and the runs of each over a sequence of frames.
 *
 * The machines are kept apart, as in the source, because they differ in detail: the eye
 * counts on confirmed re-opening, the mouth on confirmed re-closing, the eyebrow on the
 * confirmed rising edge behind the `browReady` latch, and only the eyebrow has a dead zone
 * that clears both accumulators.
 */
module Channels {
  import opened Config

  /** 1 for true, 0 for false. */
  function Ord(b: bool): nat
  {
    if b then 1 else 0
  }

  // ---------------------------------------------------------------------------------------
  // Eye (EAR -> blinks)
  // ---------------------------------------------------------------------------------------

  /** `eyeClosedFrames`, `eyeOpenFrames`, `eyeIsClosed` and the counter `blinks`. */
  datatype EyeChannel = EyeChannel(closedFrames: nat, openFrames: nat, isClosed: bool, blinks: nat)

  /**
   * One frame of the eye machine. Below `close_threshold` the closed run grows and the open
   * run restarts; above `open_threshold` the open run grows, and a confirmed re-opening of a
   * confirmed closed eye is one blink.
   */
  function EyeStep(c: EyeChannel, th: EarThresholds, ear: real): (r: EyeChannel)
    ensures c.blinks <= r.blinks <= c.blinks + 1
    ensures r.blinks == c.blinks + 1 <==>
      !(ear < th.closeThreshold) && ear > th.openThreshold &&
      c.isClosed && c.openFrames + 1 >= th.minFrames
    ensures r.blinks == c.blinks + 1 ==> !r.isClosed && r.closedFrames == 0
    ensures c.isClosed && !r.isClosed ==> r.blinks == c.blinks + 1
    ensures !c.isClosed && r.isClosed ==>
      ear < th.closeThreshold && r.closedFrames >= th.minFrames && r.openFrames == 0
    ensures ear < th.closeThreshold ==>
      r.blinks == c.blinks && r.openFrames == 0 && r.closedFrames == c.closedFrames + 1
    ensures ear < th.closeThreshold && c.closedFrames + 1 >= th.minFrames ==> r.isClosed
    ensures !(ear < th.closeThreshold) && ear > th.openThreshold ==>
      r.openFrames == c.openFrames + 1 &&
      (r.blinks == c.blinks ==> r.closedFrames == c.closedFrames && r.isClosed == c.isClosed)
    ensures !(ear < th.closeThreshold) && !(ear > th.openThreshold) ==> r == c
  {
    if ear < th.closeThreshold then
      var closed := c.closedFrames + 1;
      c.(closedFrames := closed, openFrames := 0,
         isClosed := c.isClosed || closed >= th.minFrames)
    else if ear > th.openThreshold then
      var open := c.openFrames + 1;
      if c.isClosed && open >= th.minFrames then
        c.(openFrames := open, blinks := c.blinks + 1, isClosed := false, closedFrames := 0)
      else
        c.(openFrames := open)
    else
      c
  }

  /** The eye machine over a sequence of per-frame EAR values. */
  function EyeRun(c: EyeChannel, th: EarThresholds, ears: seq<real>): (r: EyeChannel)
    decreases |ears|
  {
    if ears == [] then c else EyeRun(EyeStep(c, th, ears[0]), th, ears[1..])
  }

  /** How many times the run confirms a closed eye (`eyeIsClosed` false -> true). */
  function EyeCloses(c: EyeChannel, th: EarThresholds, ears: seq<real>): nat
    decreases |ears|
  {
    if ears == [] then 0
    else
      var n := EyeStep(c, th, ears[0]);
      Ord(!c.isClosed && n.isClosed) + EyeCloses(n, th, ears[1..])
  }

  /**
   * Every blink is paid for by one confirmed close: over any run, blinks counted plus
   * "currently closed" grows by exactly the number of confirmed closes. So no blink is counted
   * on a close alone, and there is at most one blink per close -> open cycle.
   */
  lemma {:induction false} EyeBlinksMatchCloses(c: EyeChannel, th: EarThresholds, ears: seq<real>)
    ensures EyeRun(c, th, ears).blinks + Ord(EyeRun(c, th, ears).isClosed)
         == c.blinks + Ord(c.isClosed) + EyeCloses(c, th, ears)
    decreases |ears|
  {
    if ears != [] {
      EyeBlinksMatchCloses(EyeStep(c, th, ears[0]), th, ears[1..]);
    }
  }

  // ---------------------------------------------------------------------------------------
  // Mouth (MAR -> mouthOpens)
  // ---------------------------------------------------------------------------------------

  /** `mouthOpenFrames`, `mouthClosedFrames`, `mouthIsOpen` and the counter `mouthOpens`. */
  datatype MouthChannel = MouthChannel(openFrames: nat, closedFrames: nat, isOpen: bool, opens: nat)

  /**
   * One frame of the mouth machine, the eye's mirror image: above `open_threshold` the open
   * run grows and the closed run restarts; below `close_threshold` the closed run grows, and a
   * confirmed closing of a confirmed open mouth completes one open/close cycle.
   */
  function MouthStep(c: MouthChannel, th: MarThresholds, mar: real): (r: MouthChannel)
    ensures c.opens <= r.opens <= c.opens + 1
    ensures r.opens == c.opens + 1 <==>
      !(mar > th.openThreshold) && mar < th.closeThreshold &&
      c.isOpen && c.closedFrames + 1 >= th.minFrames
    ensures r.opens == c.opens + 1 ==> !r.isOpen && r.openFrames == 0
    ensures c.isOpen && !r.isOpen ==> r.opens == c.opens + 1
    ensures !c.isOpen && r.isOpen ==>
      mar > th.openThreshold && r.openFrames >= th.minFrames && r.closedFrames == 0
    ensures mar > th.openThreshold ==>
      r.opens == c.opens && r.closedFrames == 0 && r.openFrames == c.openFrames + 1
    ensures mar > th.openThreshold && c.openFrames + 1 >= th.minFrames ==> r.isOpen
    ensures !(mar > th.openThreshold) && mar < th.closeThreshold ==>
      r.closedFrames == c.closedFrames + 1 &&
      (r.opens == c.opens ==> r.openFrames == c.openFrames && r.isOpen == c.isOpen)
    ensures !(mar > th.openThreshold) && !(mar < th.closeThreshold) ==> r == c
  {
    if mar > th.openThreshold then
      var open := c.openFrames + 1;
      c.(openFrames := open, closedFrames := 0,
         isOpen := c.isOpen || open >= th.minFrames)
    else if mar < th.closeThreshold then
      var closed := c.closedFrames + 1;
      if c.isOpen && closed >= th.minFrames then
        c.(closedFrames := closed, opens := c.opens + 1, isOpen := false, openFrames := 0)
      else
        c.(closedFrames := closed)
    else
      c
  }

  /** The mouth machine over a sequence of per-frame MAR values. */
  function MouthRun(c: MouthChannel, th: MarThresholds, mars: seq<real>): (r: MouthChannel)
    decreases |mars|
  {
    if mars == [] then c else MouthRun(MouthStep(c, th, mars[0]), th, mars[1..])
  }

  /** How many times the run confirms an open mouth (`mouthIsOpen` false -> true). */
  function MouthOpenings(c: MouthChannel, th: MarThresholds, mars: seq<real>): nat
    decreases |mars|
  {
    if mars == [] then 0
    else
      var n := MouthStep(c, th, mars[0]);
      Ord(!c.isOpen && n.isOpen) + MouthOpenings(n, th, mars[1..])
  }

  /**
   * Every counted mouth event is paid for by one confirmed opening: `mouthOpens` counts
   * completed open -> close cycles, never an opening alone, at most one per cycle.
   */
  lemma {:induction false} MouthCountsMatchOpenings(c: MouthChannel, th: MarThresholds, mars: seq<real>)
    ensures MouthRun(c, th, mars).opens + Ord(MouthRun(c, th, mars).isOpen)
         == c.opens + Ord(c.isOpen) + MouthOpenings(c, th, mars)
    decreases |mars|
  {
    if mars != [] {
      MouthCountsMatchOpenings(MouthStep(c, th, mars[0]), th, mars[1..]);
    }
  }

  // ---------------------------------------------------------------------------------------
  // Eyebrow (baseline-relative delta -> browRaises)
  // ---------------------------------------------------------------------------------------

  /**
   * The eyebrow signal `(ema - baseline) / baseline` as JavaScript computes it: a division by
   * a zero baseline gives an infinity or NaN instead of failing.
   */
  datatype Delta = Finite(value: real) | PosInfinity | NegInfinity | NotANumber

  /** `delta > t` under IEEE comparison. */
  predicate Above(d: Delta, t: real)
  {
    match d
    case Finite(v) => v > t
    case PosInfinity => true
    case NegInfinity => false
    case NotANumber => false
  }

  /** `delta < t` under IEEE comparison. */
  predicate Below(d: Delta, t: real)
  {
    match d
    case Finite(v) => v < t
    case PosInfinity => false
    case NegInfinity => true
    case NotANumber => false
  }

  /** `browUpFrames`, `browRelaxFrames`, `browIsRaised`, the latch `browReady`, and `browRaises`. */
  datatype BrowChannel = BrowChannel(upFrames: nat, relaxFrames: nat, isRaised: bool, ready: bool, raises: nat)

  /**
   * One frame of the eyebrow machine. A confirmed raise counts only while the latch is armed
   * and disarms it; only a confirmed relax of a raised brow re-arms it; between `relax` and
   * `raise` both runs restart and nothing else changes.
   */
  function BrowStep(c: BrowChannel, t: EffectiveBrow, delta: Delta): (r: BrowChannel)
    ensures c.raises <= r.raises <= c.raises + 1
    ensures r.raises == c.raises + 1 <==>
      Above(delta, t.raise) && !c.isRaised && c.upFrames + 1 >= t.minF && c.ready
    ensures r.raises == c.raises + 1 ==> r.isRaised && !r.ready
    ensures c.ready && !r.ready ==> r.raises == c.raises + 1
    ensures !c.ready && r.ready ==>
      !Above(delta, t.raise) && Below(delta, t.relax) &&
      c.isRaised && !r.isRaised && c.relaxFrames + 1 >= t.minF
    ensures Above(delta, t.raise) ==> r.relaxFrames == 0 && r.upFrames == c.upFrames + 1
    ensures Above(delta, t.raise) && !c.isRaised && c.upFrames + 1 >= t.minF ==> r.isRaised
    ensures !c.isRaised && r.isRaised ==> Above(delta, t.raise) && c.upFrames + 1 >= t.minF
    ensures c.isRaised && !r.isRaised ==>
      !Above(delta, t.raise) && Below(delta, t.relax) && c.relaxFrames + 1 >= t.minF
    ensures !Above(delta, t.raise) && Below(delta, t.relax) ==>
      r.upFrames == 0 && r.relaxFrames == c.relaxFrames + 1 &&
      (c.isRaised && c.relaxFrames + 1 >= t.minF ==> !r.isRaised && r.ready)
    ensures !Above(delta, t.raise) ==> r.raises == c.raises
    ensures !Above(delta, t.raise) && !Below(delta, t.relax) ==>
      r == c.(upFrames := 0, relaxFrames := 0)
  {
    if Above(delta, t.raise) then
      var up := c.upFrames + 1;
      if !c.isRaised && up >= t.minF then
        if c.ready then
          c.(upFrames := up, relaxFrames := 0, isRaised := true, raises := c.raises + 1, ready := false)
        else
          c.(upFrames := up, relaxFrames := 0, isRaised := true)
      else
        c.(upFrames := up, relaxFrames := 0)
    else if Below(delta, t.relax) then
      var relaxed := c.relaxFrames + 1;
      if c.isRaised && relaxed >= t.minF then
        c.(relaxFrames := relaxed, upFrames := 0, isRaised := false, ready := true)
      else
        c.(relaxFrames := relaxed, upFrames := 0)
    else
      c.(upFrames := 0, relaxFrames := 0)
  }

  /** The eyebrow machine over a sequence of per-frame deltas, with fixed thresholds. */
  function BrowRun(c: BrowChannel, t: EffectiveBrow, deltas: seq<Delta>): (r: BrowChannel)
    decreases |deltas|
  {
    if deltas == [] then c else BrowRun(BrowStep(c, t, deltas[0]), t, deltas[1..])
  }

  /** How many times the run re-arms the latch (`browReady` false -> true). */
  function BrowRearms(c: BrowChannel, t: EffectiveBrow, deltas: seq<Delta>): nat
    decreases |deltas|
  {
    if deltas == [] then 0
    else
      var n := BrowStep(c, t, deltas[0]);
      Ord(!c.ready && n.ready) + BrowRearms(n, t, deltas[1..])
  }

  /**
   * The latch conserves counts: raises counted plus "armed" grows by exactly the number of
   * re-arms. So between two re-arms there is at most one count.
   */
  lemma {:induction false} BrowRaisesMatchRearms(c: BrowChannel, t: EffectiveBrow, deltas: seq<Delta>)
    ensures BrowRun(c, t, deltas).raises + Ord(BrowRun(c, t, deltas).ready)
         == c.raises + Ord(c.ready) + BrowRearms(c, t, deltas)
    decreases |deltas|
  {
    if deltas != [] {
      BrowRaisesMatchRearms(BrowStep(c, t, deltas[0]), t, deltas[1..]);
    }
  }

  /** The delta stays above `raise` on every frame of the run. */
  predicate HeldAbove(t: EffectiveBrow, deltas: seq<Delta>)
  {
    forall i :: 0 <= i < |deltas| ==> Above(deltas[i], t.raise)
  }

  /** A delta held above `raise` never re-arms the latch. */
  lemma {:induction false} HeldAboveNeverRearms(c: BrowChannel, t: EffectiveBrow, deltas: seq<Delta>)
    requires HeldAbove(t, deltas)
    ensures BrowRearms(c, t, deltas) == 0
    decreases |deltas|
  {
    if deltas != [] {
      assert Above(deltas[0], t.raise);
      assert HeldAbove(t, deltas[1..]) by {
        forall i | 0 <= i < |deltas[1..]| ensures Above(deltas[1..][i], t.raise) {
          assert deltas[1..][i] == deltas[i + 1];
        }
      }
      HeldAboveNeverRearms(BrowStep(c, t, deltas[0]), t, deltas[1..]);
    }
  }

  /** However long the brow stays raised, it is counted at most once. */
  lemma HeldRaiseCountsAtMostOnce(c: BrowChannel, t: EffectiveBrow, deltas: seq<Delta>)
    requires HeldAbove(t, deltas)
    ensures c.raises <= BrowRun(c, t, deltas).raises <= c.raises + 1
    ensures !c.ready ==> BrowRun(c, t, deltas).raises == c.raises
  {
    HeldAboveNeverRearms(c, t, deltas);
    BrowRaisesMatchRearms(c, t, deltas);
    BrowRunMonotone(c, t, deltas);
  }

  /** Over any run, `browRaises` never decreases. */
  lemma {:induction false} BrowRunMonotone(c: BrowChannel, t: EffectiveBrow, deltas: seq<Delta>)
    ensures c.raises <= BrowRun(c, t, deltas).raises
    decreases |deltas|
  {
    if deltas != [] {
      BrowRunMonotone(BrowStep(c, t, deltas[0]), t, deltas[1..]);
    }
  }

  /**
   * An armed, lowered brow held above `raise` for long enough to confirm is counted exactly
   * once, whatever the number of frames it stays up afterwards.
   */
  lemma {:induction false} HeldRaiseCountsExactlyOnce(c: BrowChannel, t: EffectiveBrow, deltas: seq<Delta>)
    requires HeldAbove(t, deltas)
    requires c.ready && !c.isRaised
    requires |deltas| > 0 && c.upFrames + |deltas| >= t.minF
    ensures BrowRun(c, t, deltas).raises == c.raises + 1
    decreases |deltas|
  {
    var n := BrowStep(c, t, deltas[0]);
    assert Above(deltas[0], t.raise);
    assert HeldAbove(t, deltas[1..]) by {
      forall i | 0 <= i < |deltas[1..]| ensures Above(deltas[1..][i], t.raise) {
        assert deltas[1..][i] == deltas[i + 1];
      }
    }
    if n.raises == c.raises + 1 {
      HeldRaiseCountsAtMostOnce(n, t, deltas[1..]);
    } else {
      HeldRaiseCountsExactlyOnce(n, t, deltas[1..]);
    }
  }

  /**
   * A blink cycle with debounce 2: EAR 0.35, 0.35, 0.15, 0.15, 0.15, 0.35, 0.35, 0.35 against
   * close 0.2 / open 0.3 confirms the closed eye on the 4th frame and counts the blink on the
   * 7th, once.
   */
  lemma BlinkScenario()
    ensures var th := EarThresholds(0.2, 0.3, 2);
            var c0 := EyeChannel(0, 0, false, 0);
            && !EyeRun(c0, th, [0.35, 0.35, 0.15]).isClosed
            && EyeRun(c0, th, [0.35, 0.35, 0.15, 0.15]).isClosed
            && EyeRun(c0, th, [0.35, 0.35, 0.15, 0.15, 0.15, 0.35]).blinks == 0
            && EyeRun(c0, th, [0.35, 0.35, 0.15, 0.15, 0.15, 0.35, 0.35]).blinks == 1
            && EyeRun(c0, th, [0.35, 0.35, 0.15, 0.15, 0.15, 0.35, 0.35, 0.35]).blinks == 1
  {
  }
}
