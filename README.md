# WaveView ripple model

`WaveView` is an Android widget that draws concentric ripples ("waves")
spreading from the centre of the view. Each frame, `getSwarming`:

1. spawns a new wave at the centre when the list is empty or the nearest
   wave has moved `mWaveDistance` away;
2. moves every wave `mWaveSpeed` further out, and recomputes its stroke width
   (linear from start width to end width) and its opacity (an easing curve of
   the travelled fraction, written into the top byte of the ARGB colour);
3. drops the farthest wave once it has left the wave area.

The layout pass sizes the wave area as the smaller half-side of the view and
clears the ripples whenever that radius changes.

The project has three modules:

- `JavaNumerics` (`java_numerics.dfy`) holds the Java rules the arithmetic
  depends on. Integer division rounds toward zero (JLS section 15.17.2). The
  `(int)` cast of a floating-point value truncates and then saturates (JLS
  section 5.1.3). An `int` is a 32-bit two's-complement pattern.
- `Waves` (`waves.dfy`) holds the ripple list as values. A `Wave` record holds
  one `Wave` object's fields. `Settings` holds the widget fields one frame
  reads. `Frame` is the one-frame update, built from `Staged` (spawn), `AgedAll`
  (age every wave) and `Retired` (drop the farthest). The module also holds the
  lemmas about `Frame`.
- `WaveViewWidget` (`wave_view.dfy`) holds the widget itself. It is a
  class with the source's fields, and its methods update them as the Java
  methods do. The method `Step` (`getSwarming`) is proved to leave
  `waves == Frame(old(waves), …)`, so every lemma about `Frame` is a property
  of the widget.

## Model

| member | source | states |
|---|---|---|
| JavaNumerics.HalfTowardZero | app/src/main/java/com/wave/wavaview/WaveView.java:131-132 | `getWidth() / 2` on ints: the half rounded toward zero, so twice the result is within one of the input and never beyond it in magnitude |
| JavaNumerics.TruncateTowardZero | app/src/main/java/com/wave/wavaview/WaveView.java:185 | the integer part of a float toward zero: for non-negative x the largest integer not above x, for negative x the smallest integer not below x |
| JavaNumerics.FloatToInt | app/src/main/java/com/wave/wavaview/WaveView.java:185 | the `(int)` cast always lands in the 32-bit range, equals the truncation when that fits, and saturates to INT_MAX or INT_MIN beyond it |
| JavaNumerics.IntBits | app/src/main/java/com/wave/wavaview/WaveView.java:185 | the `int` result of the cast as the 32-bit two's-complement pattern the `<< 24` shifts: a non-negative value as itself, a negative one as value + 2^32 |
| Waves.Fresh | app/src/main/java/com/wave/wavaview/WaveView.java:197-205 | the wave `new Wave()` builds through `reset()`: radius 0, the start width, the base colour |
| Waves.Spawns | app/src/main/java/com/wave/wavaview/WaveView.java:166-167 | a new wave is due exactly when the list is empty or its nearest wave has radius at least `mWaveDistance` |
| Waves.Staged | app/src/main/java/com/wave/wavaview/WaveView.java:166-176 | the spawn step never leaves the list empty and grows it by exactly one when a wave is due (empty list, or nearest wave at least `distance` out), otherwise not at all |
| Waves.StagedAt | app/src/main/java/com/wave/wavaview/WaveView.java:166-176 | after `add(0, w)` the newcomer is at index 0 and old wave j is at j + 1; without a spawn every wave keeps its index |
| Waves.ReplaceAlpha | app/src/main/java/com/wave/wavaview/WaveView.java:185 | `color & 0x00FFFFFF \| (alpha << 24)` keeps the low 24 bits (red, green, blue) of the base colour, and its top byte is the low byte of the alpha value |
| Waves.Alpha | app/src/main/java/com/wave/wavaview/WaveView.java:184-185 | the opacity value `(int) (255 * colorFactor)`, with the easing curve applied to the travelled fraction, as the 32-bit pattern that is shifted into the top byte |
| Waves.Fraction | app/src/main/java/com/wave/wavaview/WaveView.java:182 | the travelled fraction `factor`: the radius divided by the wave-area radius |
| Waves.WidthAt | app/src/main/java/com/wave/wavaview/WaveView.java:182-183 | the stroke width at a radius: the start width plus the travelled fraction times `waveWidthIncrease` (end width minus start width) |
| Waves.Aged | app/src/main/java/com/wave/wavaview/WaveView.java:180-185 | one pass of the loop body on one wave: radius grown by the speed, width and colour recomputed from the new radius |
| Waves.AgedWave | app/src/main/java/com/wave/wavaview/WaveView.java:180-185 | one wave after the loop body: radius grown by the speed, width the interpolation at the new radius, the base colour's RGB bits, and the opacity byte from the easing curve at radius / viewMaxRadius |
| Waves.AgedFields | app/src/main/java/com/wave/wavaview/WaveView.java:177-185 | the loop body's intermediate values (`radius`, `factor`, `waveWidthIncrease`, `width`, `colorFactor`, `color`) assemble exactly the aged wave |
| Waves.AgedAll | app/src/main/java/com/wave/wavaview/WaveView.java:178-186 | ageing keeps the length and ages each wave at its own index |
| Waves.Retired | app/src/main/java/com/wave/wavaview/WaveView.java:187-190 | removal takes off at most the last wave; the result is a prefix, and it is one shorter exactly when the last wave's radius exceeds the wave area |
| Waves.Frame | app/src/main/java/com/wave/wavaview/WaveView.java:165-191 | one call of `getSwarming` on the list: spawn (`Staged`), then age every wave (`AgedAll`), then drop the farthest if it left the area (`Retired`) |
| Waves.FrameSpawnRule | app/src/main/java/com/wave/wavaview/WaveView.java:166-190 | with a wave due, the frame is the aged newcomer followed by the aged old waves in order; otherwise it is the aged old waves in order; the length bounds hold in both cases |
| Waves.FrameRetiresOnlyFarthest | app/src/main/java/com/wave/wavaview/WaveView.java:187-190 | a frame is a prefix of the aged staged list, one shorter exactly when the farthest aged wave is beyond the wave area |
| Waves.FrameLength | app/src/main/java/com/wave/wavaview/WaveView.java:165-191 | the wave count changes by -1, 0 or +1 per frame |
| Waves.FrameFront | app/src/main/java/com/wave/wavaview/WaveView.java:166-190 | with a wave due, the frame starts with the aged newcomer, and it is empty exactly when the list was empty and the aged newcomer is beyond the area |
| Waves.FreshWaveAtFront | app/src/main/java/com/wave/wavaview/WaveView.java:172-175 | a spawned wave is a reset wave; after its first frame it is at radius `speed` with the interpolated width and the base RGB; the frame is empty only if the list was empty and one step already leaves the area |
| Waves.FrameAgesEveryWave | app/src/main/java/com/wave/wavaview/WaveView.java:179-183 | every surviving wave moved exactly `speed` and its width is the linear interpolation at its new radius |
| Waves.FrameKeepsRgb | app/src/main/java/com/wave/wavaview/WaveView.java:185 | after a frame every wave carries the base colour's low 24 bits |
| Waves.WidthBetweenEnds | app/src/main/java/com/wave/wavaview/WaveView.java:182-183 | inside the wave area the width lies between start and end width, and equals them at the centre and at the edge |
| Waves.FrameKeepsOrder | app/src/main/java/com/wave/wavaview/WaveView.java:165-191 | with speed >= 0, non-negative radii ordered from nearest to farthest stay so after a frame |
| Waves.FrameKeepsSpacing | app/src/main/java/com/wave/wavaview/WaveView.java:166-176 | neighbouring waves at least `distance` apart stay so, since a wave is spawned only in a gap of at least `distance` |
| Waves.FrameKeepsWithin | app/src/main/java/com/wave/wavaview/WaveView.java:186-190 | when 0 <= speed <= distance, a spaced list inside the area stays inside it: removing the farthest wave alone suffices |
| Waves.FrameKeepsSteady | app/src/main/java/com/wave/wavaview/WaveView.java:165-191 | ordered, spaced and inside the area together are an invariant of every frame when 0 <= speed <= distance |
| Waves.SpacedGrowth | app/src/main/java/com/wave/wavaview/WaveView.java:166-167 | in a spaced list the k-th wave is at least k * distance beyond the nearest |
| Waves.SteadyCountBound | app/src/main/java/com/wave/wavaview/WaveView.java:165-191 | a steady list holds at most maxRadius / distance + 1 waves, so the list stays bounded |
| Waves.FrameOfPieces | app/src/main/java/com/wave/wavaview/WaveView.java:166-190 | spawning, ageing the staged list and then dropping its last wave only when beyond the area, taken step by step as `getSwarming` does, yields `Frame` |
| WaveViewWidget.WaveAreaRadius | app/src/main/java/com/wave/wavaview/WaveView.java:131-137 | the wave area radius is min(viewX, viewY) of the int halves, and it is positive exactly when both sides are at least 2 |
| WaveViewWidget.WaveView.Valid | app/src/main/java/com/wave/wavaview/WaveView.java:160-171 | the widget invariant: `mLastRemoveWave` is null, since no code ever assigns it a wave |
| WaveViewWidget.WaveView.constructor | app/src/main/java/com/wave/wavaview/WaveView.java:24-95 | field defaults, then `init`: speed 0.8, distance 30, widths 8 to 5, white waves and centre paint, refresh 25 ms, centre radius 20, no waves, nothing stored for reuse |
| WaveViewWidget.WaveView.InitWaveInfo | app/src/main/java/com/wave/wavaview/WaveView.java:105-113 | stores the four wave parameters and the colour (also the centre paint's), and empties the ripple list |
| WaveViewWidget.WaveView.ResetWave | app/src/main/java/com/wave/wavaview/WaveView.java:118-121 | the ripple list is empty afterwards, and nothing else changes |
| WaveViewWidget.WaveView.SetWaveColor | app/src/main/java/com/wave/wavaview/WaveView.java:123-126 | the wave colour and the centre paint colour both become the given colour |
| WaveViewWidget.WaveView.OnLayout | app/src/main/java/com/wave/wavaview/WaveView.java:128-143 | the centre is the int half of each side, the area radius is `WaveAreaRadius`, and the list is cleared if and only if that radius changed |
| WaveViewWidget.WaveView.Step | app/src/main/java/com/wave/wavaview/WaveView.java:165-191 | one frame leaves `waves == Frame(old waves, reset wave, settings)`, changes nothing else, still stores no wave for reuse, and keeps a steady list steady when 0 <= speed <= distance |
| WaveViewWidget.WaveView.NextFrame | app/src/main/java/com/wave/wavaview/WaveView.java:166-190 | the spawn, ageing and removal steps compute exactly `Frame`; `get(size - 1)` always finds a wave, and the reuse branch is unreachable |
| WaveViewWidget.WaveView.AgeWaves | app/src/main/java/com/wave/wavaview/WaveView.java:177-186 | the ageing loop leaves exactly `AgedAll` of the list it was given |
| WaveViewWidget.WaveView.SetCenterViewRadius | app/src/main/java/com/wave/wavaview/WaveView.java:208-210 | the centre disc radius becomes the given value |
| WaveViewWidget.WaveView.SetRefreshTime | app/src/main/java/com/wave/wavaview/WaveView.java:212-214 | the frame interval becomes the given value |

## Left out

- Drawing is not modelled. That covers `onDraw`, `Paint` and `Canvas`, `postInvalidate` and `postInvalidateDelayed`: they only render the state or schedule the next frame. The centre paint is modelled by its colour alone.
- The constructors' `Context` and `AttributeSet` plumbing is left out, as are the `super` calls, which belong to the Android toolkit.
- The `CycleInterpolator(0.5f)` is not modelled. It is an arbitrary function `real -> real` passed to the constructor, so nothing assumes its range.
- The `isFillAllView` branch of `onLayout` (the `Math.sqrt` diagonal) is not modelled. The field is always `false` and no method sets it.
- Floats are exact reals: float rounding, NaN and the infinities are not modelled. That includes the `int` to `float` conversion of the view centre, which is exact below 2^24.
- WaveViewWidget.WaveView.Step: requires `viewMaxRadius > 0`, so it does not model a frame while the wave-area radius is 0. That happens before the first layout, and also after a layout of a view narrower or shorter than 2 pixels, where `WaveAreaRadius` is 0 (the int halves of the sides). `onDraw` calls `getSwarming` in both cases. There `w.radius / viewMaxRadius` divides by `0f` and yields an infinity or NaN, which exact reals do not represent.
- Waves are values: Java object identity is not modelled. No wave object is ever referenced twice, because `mLastRemoveWave` is never set. So `mWaves.remove(farthestWave)` is modelled as dropping the last element, which is where `farthestWave` sits.
- WaveViewWidget.WaveView.Step: the Java loop updates the `Wave` objects inside `mWaves` in place. Step instead computes the new list from the values (`NextFrame`, `AgeWaves`) and stores it once. No other code can observe the list in between.
- WaveViewWidget.WaveView.NextFrame: the branch that reuses `mLastRemoveWave` is modelled as unreachable. `Valid()` records that the field is always null, and the branch is an `assert false`. Its assignments are therefore not in the model.
- `IntBits`, the two's-complement pattern of the cast result, carries no lemma of its own. Proofs about symbolic integer-to-bit-vector conversions are beyond what the solver settles cheaply. The colour is proved through `ReplaceAlpha` instead.
- `time` is a 64-bit `Long` newtype; no arithmetic is done on it.
