/**
 * The thresholds configuration held by the detector (`th`) and the resolution of the
 * effective eyebrow thresholds (`_getBrowThresholds`, assets/js/counters.js:159-172).
 *
 * The configuration is a value: `structuredClone` on construction and in `setThresholds`
 * means the detector never shares it with the caller, which a datatype gives for free.
 */
module Config {
  import opened Wrappers

  /** `th.EAR`: an eye counts as closed below `closeThreshold`, as open above `openThreshold`. */
  datatype EarThresholds = EarThresholds(closeThreshold: real, openThreshold: real, minFrames: int)

  /** `th.MAR`: a mouth counts as open above `openThreshold`, as closed below `closeThreshold`. */
  datatype MarThresholds = MarThresholds(openThreshold: real, closeThreshold: real, minFrames: int)

  /**
   * `th.BROW`: either percentage thresholds relative to the calibrated baseline, or the legacy
   * absolute ones; each field is `None` when it is missing or not a number.
   */
  datatype BrowThresholds = BrowThresholds(
    raiseThresholdPct: Option<real>,
    relaxThresholdPct: Option<real>,
    raiseThreshold: Option<real>,
    relaxThreshold: Option<real>,
    minFrames: Option<int>)

  /** The whole `th` object; `brow` is `None` when `th.BROW` is missing. */
  datatype Thresholds = Thresholds(ear: EarThresholds, mar: MarThresholds, brow: Option<BrowThresholds>)

  /** The record `_getBrowThresholds` returns: thresholds on the baseline-relative delta. */
  datatype EffectiveBrow = EffectiveBrow(raise: real, relax: real, minF: int)

  const DefaultRaise: real := 0.08
  const DefaultRelax: real := 0.04
  const DefaultMinFrames: int := 2

  /** Both percentage fields are numbers. */
  predicate HasPercentages(b: Option<BrowThresholds>)
  {
    b.Some? && b.value.raiseThresholdPct.Some? && b.value.relaxThresholdPct.Some?
  }

  /** Both legacy absolute fields are numbers. */
  predicate HasAbsolutes(b: Option<BrowThresholds>)
  {
    b.Some? && b.value.raiseThreshold.Some? && b.value.relaxThreshold.Some?
  }

  /** A baseline is "truthy" in JavaScript when it is set and not zero. */
  predicate Truthy(baseline: Option<real>)
  {
    baseline.Some? && baseline.value != 0.0
  }

  /** `B.min_frames ?? 2` with `B = th.BROW || {}`. */
  function BrowMinFrames(b: Option<BrowThresholds>): int
  {
    if b.Some? && b.value.minFrames.Some? then b.value.minFrames.value else DefaultMinFrames
  }

  /** Converts an absolute eyebrow ratio into a delta relative to the baseline. */
  function RelativeTo(absolute: real, baseline: real): (pct: real)
    requires baseline != 0.0
    ensures baseline * (1.0 + pct) == absolute
  {
    (absolute - baseline) / baseline
  }

  /**
   * `_getBrowThresholds`: percentages win over legacy absolutes, which are used only once a
   * non-zero baseline exists; otherwise the defaults 0.08 / 0.04 apply. `min_frames` defaults to 2.
   */
  function EffectiveBrowThresholds(b: Option<BrowThresholds>, baseline: Option<real>): (t: EffectiveBrow)
    ensures t.minF == BrowMinFrames(b)
    ensures HasPercentages(b) ==>
      t.raise == b.value.raiseThresholdPct.value && t.relax == b.value.relaxThresholdPct.value
    ensures !HasPercentages(b) && HasAbsolutes(b) && Truthy(baseline) ==>
      baseline.value * (1.0 + t.raise) == b.value.raiseThreshold.value &&
      baseline.value * (1.0 + t.relax) == b.value.relaxThreshold.value
    ensures !HasPercentages(b) && !(HasAbsolutes(b) && Truthy(baseline)) ==>
      t.raise == DefaultRaise && t.relax == DefaultRelax
  {
    var minF := BrowMinFrames(b);
    if HasPercentages(b) then
      EffectiveBrow(b.value.raiseThresholdPct.value, b.value.relaxThresholdPct.value, minF)
    else if HasAbsolutes(b) && Truthy(baseline) then
      EffectiveBrow(RelativeTo(b.value.raiseThreshold.value, baseline.value),
                    RelativeTo(b.value.relaxThreshold.value, baseline.value), minF)
    else
      EffectiveBrow(DefaultRaise, DefaultRelax, minF)
  }
}
