# ExpressionCounters, modelled in Dafny

This project models the expression detector of face_events_cv. That is the
`ExpressionCounters` class in `assets/js/counters.js`. It takes one frame of face landmarks
per call and keeps three debounced hysteresis machines:

- **Eye.** The eye aspect ratio (EAR) feeds `blinks`. A blink is counted when a confirmed
  closed eye is confirmed open again.
- **Mouth.** The mouth aspect ratio (MAR) feeds `mouthOpens`. An event is counted when a
  confirmed open mouth is confirmed closed again.
- **Eyebrow.** The raw eyebrow ratio is smoothed by an exponential moving average (EMA).
  It is compared with a calibrated baseline as a relative delta, `(ema - baseline) / baseline`.
  That delta feeds `browRaises`. A raise is counted on the confirmed rising edge only, and only
  while the `browReady` latch is armed.

The project has five modules.

- `Wrappers` (`wrappers.dfy`): `Option`, which stands for JavaScript's `null`/`undefined`.
- `Config` (`config.dfy`): the thresholds object `th`, as a value. It also holds
  `EffectiveBrowThresholds`, which models `_getBrowThresholds`.
- `Channels` (`channels.dfy`): each machine as a pure one-frame step (`EyeStep`,
  `MouthStep`, `BrowStep`), and its run over a sequence of frames. The lemmas state what
  counts: every blink is paid for by one confirmed close, every mouth event by one confirmed
  opening, and every brow raise by one arming of the latch. A brow held up counts once.
- `Detector` (`detector.dfy`): one whole call of `update` as the function `Step`, over a
  `State` that holds every field except `th`. It also holds the EMA (`Smooth`), the
  calibration (`Calibrate`), runs of calls (`Run`), the reachable-state invariant `Inv`, and
  the calibration lemmas.
- `Counters` (`counters.dfy`): the class `ExpressionCounters`. Its fields are the source's
  fields. Its methods change them step by step. `Update` follows the source's order of blocks.
  `Reset` groups its assignments by channel rather than in the source's order, with the same end
  state. `Update` composes the source's four blocks of `update`: eye, mouth, smoothing and
  calibration, then eyebrow. Each
  block is a method (`UpdateEye`, `UpdateMouth`, `UpdateCalibration`, `UpdateBrow`) proved
  against its pure step. `Update` itself is proved against `Detector.Step`, so the lemmas
  about `Step` and `Run` hold for the object. `Reset` is split the same way.

A frame is `Frame(landmarkCount, earLeft, earRight, mar, browRaw)`. It carries the length of
the landmark list and the four values that `FaceMetrics` derives from it. Those values are
opaque reals. A missing frame is `None`.

`Update` requires `Valid()`, the object invariant. The constructor establishes it, and every
method keeps it. `Step` itself is total: it is defined on every state.

Where the code and its comments disagree, the model follows the code:

- **Calibration takes one frame, not 25.** The comment at `assets/js/counters.js:120` says the
  baseline is calibrated over 25 frames. But the baseline is set on the first usable frame,
  and from then on `_browBaseline === null` is false, so the calibration branch never runs
  again.
  - `Detector.CalibrationTakesOneFrame` proves that the baseline is the raw ratio of the first
    usable frame.
  - `Detector.SecondFrameIsNotCalibrating` shows that the second frame already reports a
    non-zero delta.
  - `Detector.CalibrationFallbackUnreachable` proves that the running mean (`:237`) and the
    safety fallback (`:241-244`) are never reached. Both are still modelled as written.
- **The EMA delays a confirmed raise.** A raw ratio held 20% above the baseline, with percentage
  thresholds 0.08 / 0.04 and `min_frames` 3, counts nothing over three frames. The deltas are 0.06,
  0.102 and 0.1314. The first one is below the threshold, so the up-run only reaches 2. The
  fourth frame counts (`Detector.RaiseConfirmsLateThroughTheEma`).

## Model

| member | source | states |
|---|---|---|
| `Config.EffectiveBrowThresholds` | assets/js/counters.js:159-172 | Percentage thresholds, when both are numbers, are used as given. Otherwise legacy absolute thresholds are used when both are numbers and the baseline is non-zero: each is converted so that `baseline * (1 + pct)` equals the absolute value. Otherwise the defaults 0.08 / 0.04 apply. `minF` is `min_frames`, or 2 when it is missing. |
| `Config.RelativeTo` | assets/js/counters.js:166-167 | A legacy absolute threshold becomes the relative delta `pct` with `baseline * (1 + pct) == absolute`. |
| `Channels.EyeStep` | assets/js/counters.js:187-202 | `blinks` rises by at most 1. It rises exactly when the EAR is not below `close` and is above `open`, the eye was confirmed closed, and the open run reaches `min_frames`. That step clears `eyeIsClosed` and `eyeClosedFrames`. Leaving the closed state always counts a blink. Entering it requires the close branch with `min_frames` closed frames. The close branch never counts, zeroes the open run, and confirms the closed eye once the closed run reaches `min_frames`. The open branch always grows the open run and, unless it counts, keeps the closed run and the flag. A dead-zone frame changes nothing. |
| `Channels.MouthStep` | assets/js/counters.js:207-222 | `mouthOpens` rises by at most 1. It rises exactly when the MAR is not above `open` and is below `close`, the mouth was confirmed open, and the closed run reaches `min_frames`. That step clears `mouthIsOpen` and `mouthOpenFrames`. The open branch never counts: it grows the open run, zeroes the closed run, and confirms the open mouth once the open run reaches `min_frames`. The close branch always grows the closed run and, unless it counts, keeps the open run and the flag. A dead-zone frame changes nothing. |
| `Channels.BrowStep` | assets/js/counters.js:258-282 | `browRaises` rises by at most 1. It rises exactly on a confirmed rising edge (above `raise`, not yet raised, up-run reaching `minF`) while `browReady` holds. That step sets `browIsRaised` and disarms `browReady`. The latch is disarmed only by a count. A confirmed rising edge sets `browIsRaised` even when the latch is disarmed, and `browIsRaised` is set only by a confirmed rising edge (above `raise`, up-run reaching `minF`) and cleared only by a confirmed relax. The latch is re-armed only by, and always by, a confirmed relax of a raised brow (below `relax` for `minF` frames), which also clears `browIsRaised`; the relax branch grows the relax run and zeroes the up run. The falling edge never counts. In the dead zone both runs are zeroed and nothing else changes. |
| `Channels.EyeBlinksMatchCloses` | assets/js/counters.js:188-202 | Over any run of frames, blinks plus "eye closed" grows by exactly the number of confirmed closes. So a close alone is never a blink, and each close -> open cycle gives at most one blink. |
| `Channels.MouthCountsMatchOpenings` | assets/js/counters.js:208-222 | Over any run of frames, mouth events plus "mouth open" grows by exactly the number of confirmed openings. So each open -> close cycle gives at most one event. |
| `Channels.BrowRaisesMatchRearms` | assets/js/counters.js:258-277 | Over any run of frames, raises plus "armed" grows by exactly the number of re-arms. So there is at most one count between successive re-arms. |
| `Channels.HeldAboveNeverRearms` | assets/js/counters.js:258-277 | A delta kept above `raise` never re-arms the latch. |
| `Channels.HeldRaiseCountsAtMostOnce` | assets/js/counters.js:258-269 | However long the delta stays above `raise`, `browRaises` rises by at most 1. It does not rise at all if the latch is disarmed. |
| `Channels.BrowRunMonotone` | assets/js/counters.js:258-282 | No run of the eyebrow machine lowers `browRaises`. |
| `Channels.HeldRaiseCountsExactlyOnce` | assets/js/counters.js:258-269 | An armed, lowered brow held above `raise` long enough to reach `minF` is counted exactly once, however many more frames it stays up. |
| `Channels.BlinkScenario` | assets/js/counters.js:187-202 | The EAR sequence 0.35, 0.35, 0.15, 0.15, 0.15, 0.35, 0.35, 0.35, with close 0.2, open 0.3 and `min_frames` 2, confirms the closed eye on the 4th frame and counts one blink on the 7th. |
| `Detector.Smooth` | assets/js/counters.js:227-230 | The EMA is the raw value when there was none. Otherwise it moves toward the raw value by `0.3 * (raw - prev)`, so it stays between the previous EMA and the raw value. |
| `Detector.Quotient` | assets/js/counters.js:247 | The delta division: a finite exact quotient for a non-zero baseline. For a zero baseline it is +∞, -∞ or NaN, by the sign of the numerator. |
| `Detector.Calibrate` | assets/js/counters.js:227-244 | The EMA always advances. A missing baseline becomes the EMA. An existing baseline is kept. The calibration counter rises only on a calibration frame. |
| `Detector.StepIgnoresUnusableFrame` | assets/js/counters.js:180 | A missing frame, or one with fewer than 468 landmarks, returns nothing and changes no field. |
| `Detector.StepReportsMetrics` | assets/js/counters.js:183-185 | A usable frame returns the mean of the two EARs and the MAR, and advances the EMA. |
| `Detector.StepCountsAtMostOnce` | assets/js/counters.js:187-282 | One call never lowers a counter, and raises each counter by at most 1. |
| `Detector.StepCalibrates` | assets/js/counters.js:233-240 | A calibration frame sets the baseline to the EMA, reports `brow: 0`, and leaves the eyebrow machine untouched. |
| `Detector.StepKeepsBaseline` | assets/js/counters.js:241-247 | Once set, the baseline and the calibration counter never change. The reported `brow` is the delta of the new EMA against that baseline. |
| `Detector.StepKeepsInv` | assets/js/counters.js:179-286 | Every call keeps the invariant: `browReady` is armed exactly when the brow is not raised; the two brow runs are never both non-zero; EMA, baseline and calibration counter are unset together, and the counter is 1 once set. |
| `Detector.Run` | assets/js/counters.js:179-286 | Between resets, no sequence of calls lowers `blinks`, `mouthOpens` or `browRaises`. |
| `Detector.RunKeepsInv` | assets/js/counters.js:179-286 | Every state reached from a state satisfying the invariant satisfies it. |
| `Detector.RunEyeIsEyeRun` | assets/js/counters.js:180-202 | Over any sequence of calls, the eye fields are `Channels.EyeRun` over the mean EARs of the usable frames, so the eye lemmas hold for calls of `update`. |
| `Detector.RunMouthIsMouthRun` | assets/js/counters.js:180-222 | Over any sequence of calls, the mouth fields are `Channels.MouthRun` over the MARs of the usable frames. |
| `Detector.RunBrowIsBrowRun` | assets/js/counters.js:228-282 | Once calibrated, over any sequence of calls the eyebrow fields are `Channels.BrowRun` over the deltas of the usable frames (the EMA advanced frame by frame against the fixed baseline), with the thresholds fixed by that baseline. |
| `Detector.HeldRaiseOverCallsCountsOnce` | assets/js/counters.js:258-269 | Once calibrated, an armed, lowered brow whose deltas stay above `raise` over any number of calls, long enough to reach `minF`, raises `browRaises` by exactly one. |
| `Detector.FirstUsable` | assets/js/counters.js:180 | `None` exactly when no frame of the sequence passes the length check; otherwise a frame of the sequence that passes it, with no passing frame before it. |
| `Detector.CalibrationTakesOneFrame` | assets/js/counters.js:232-244 | From an uncalibrated state, the baseline after any sequence of calls is the raw ratio of the first usable frame, and the calibration counter stops at 1. |
| `Detector.BaselineFixedAfterCalibration` | assets/js/counters.js:233-244 | Once a baseline exists, no sequence of calls changes it or the calibration counter. |
| `Detector.CalibrationFallbackUnreachable` | assets/js/counters.js:233-244 | In a reachable state a missing baseline means the next usable frame calibrates. So the fallback at `:241-244` never runs, and the running mean at `:237` never has a baseline to average with. |
| `Detector.SecondFrameIsNotCalibrating` | assets/js/counters.js:233-247 | After one calibration frame at raw ratio 1, a frame at raw ratio 2 reports the delta 0.3 rather than 0. |
| `Detector.PercentThresholdIsRelativeRise` | assets/js/counters.js:247-270 | Against a positive baseline, the delta is above (below) `p` exactly when the EMA is above (below) `baseline * (1 + p)`. |
| `Detector.NegativeBaselineReversesTheComparison` | assets/js/counters.js:247-270 | Against a negative baseline the comparison is reversed: the delta is above (below) `p` exactly when the EMA is below (above) `baseline * (1 + p)`. So the rising-edge reading holds only for a positive baseline. |
| `Detector.LegacyThresholdsCompareTheEma` | assets/js/counters.js:165-168 | Legacy absolute thresholds, converted against a positive baseline, compare the delta exactly as they would compare the EMA itself. |
| `Detector.RaiseConfirmsLateThroughTheEma` | assets/js/counters.js:228-268 | After calibration at 1.0, three frames at raw 1.2 (percentages 0.08 / 0.04, `min_frames` 3) count nothing, and a fourth counts once. |
| `Counters.ExpressionCounters.constructor` | assets/js/counters.js:93-122 | Holds the given thresholds. Starts with all counters and runs at zero, no flags set, the latch armed, and no EMA or baseline. |
| `Counters.ExpressionCounters.SetThresholds` | assets/js/counters.js:125-127 | Replaces only `th`. Counters, runs, flags and calibration are unchanged. |
| `Counters.ExpressionCounters.Reset` | assets/js/counters.js:130-151 | Zeroes the three counters and six runs, clears the three flags, arms `browReady`, unsets EMA and baseline, and zeroes the calibration counter. `th` is unchanged. |
| `Counters.ExpressionCounters.ResetEye` | assets/js/counters.js:131-141 | The eye fields are back at their initial values. |
| `Counters.ExpressionCounters.ResetMouth` | assets/js/counters.js:132-141 | The mouth fields are back at their initial values. |
| `Counters.ExpressionCounters.ResetBrow` | assets/js/counters.js:133-146 | The eyebrow fields are back at their initial values, latch armed. |
| `Counters.ExpressionCounters.Update` | assets/js/counters.js:179-286 | The new fields and the returned metrics are those of `Detector.Step` on the old fields. `th` is unchanged, no counter decreases, and the invariant is kept. |
| `Counters.ExpressionCounters.UpdateEye` | assets/js/counters.js:187-202 | The eye fields change as `Channels.EyeStep` says. |
| `Counters.ExpressionCounters.UpdateMouth` | assets/js/counters.js:207-222 | The mouth fields change as `Channels.MouthStep` says. |
| `Counters.ExpressionCounters.UpdateCalibration` | assets/js/counters.js:227-244 | The EMA, baseline and calibration counter change as `Detector.Calibrate` says. The result tells whether this was a calibration frame. |
| `Counters.ExpressionCounters.UpdateBrow` | assets/js/counters.js:258-282 | The eyebrow fields change as `Channels.BrowStep` says. |

## Left out

- `FaceMetrics` is not part of this model: `dist`, `eyeAspectRatio`, `mouthAspectRatio`,
  `eyeCenterAndWidth` and `browRatioRaw` (`assets/js/counters.js:8-82`). They compute
  floating-point distances with `Math.hypot`. A frame carries their results as opaque reals.
  The `1e-6` width floor at `:58` is taken to be part of `browRaw`.
- Floating point: EMA, mean EAR and delta are computed on exact reals, without rounding. The
  division by a zero baseline follows IEEE (infinity or NaN), but signed zero is not modelled:
  a baseline of -0.0 would give the opposite infinity.
- Values that are not numbers: every `EAR` and `MAR` threshold is a real and every
  `min_frames` an integer. A missing `EAR`/`MAR` field, which the source compares as
  `undefined` (always false), is not represented. NaN signals are not represented either. The
  `BROW` fields that `_getBrowThresholds` tests are `Option`s. A `BROW.min_frames` that is
  present but not a number is not represented.
- A missing `th.EAR` or `th.MAR` object makes the source throw a `TypeError`; for `MAR` this
  happens after the eye block has already updated its fields. The model always has both objects.
- A NaN `BROW` threshold (for instance a number parsed from an empty form field) passes the
  `typeof === "number"` tests and then makes every comparison false, which silently switches the
  eyebrow channel off. Thresholds here are reals, so this case is not represented.
- `min_frames` is an integer. A fractional JSON value acts as its ceiling in the source's
  comparisons.
- The counters and runs are JavaScript numbers (doubles), so `++` stops changing them at 2^53.
  The model uses unbounded `nat`.
- `Detector.PercentThresholdIsRelativeRise` and `Detector.LegacyThresholdsCompareTheEma` assume a
  positive baseline. With a negative baseline the source's delta comparison is reversed relative
  to the EMA, so a raise threshold no longer means "the EMA rose"; `Step` models that case as
  written, but no lemma gives it a meaning.
- `_browCalibNeeded` (25) and `_emaAlpha` (0.30) are instance fields in the source that nothing
  reassigns. They are module constants here.
- `structuredClone` is not modelled beyond `th` being a value, which is never shared with the
  caller.
- `assets/js/app.js`, `assets/js/ui.js` and `assets/js/telemetry.js` are not part of this model:
  camera, render loop, drawing, DOM, `fetch`, `localStorage` and telemetry delivery. This
  includes the page's Reset button (`assets/js/app.js:222-226`), which writes zero into the
  three counters directly instead of calling `reset()`.
