# VoezEditor track tweening, modelled in Dafny

VoezEditor is a chart editor for a rhythm game. A chart's *tracks* are
vertical lanes with a lifetime `[start, end]`. Each track animates three
properties over its lifetime: horizontal position, background colour (an
index into a fixed palette) and width (a scale factor). Each property has a
base value and an ordered list of keyframe segments `{start, end, to, ease}`.
Once per frame, the track works out the property's current value by scanning
those segments.

This project models that scan and the arithmetic of a track's per-frame
update:

- `timeline.dfy` (module `Timeline`) holds the scan, written once and
  shared by all three properties. For one segment, `Branch` interpolates
  inside the window `[start, end)`. It holds the segment's target in the
  gap before the next segment, or after the last segment up to the track's
  end. Otherwise it does nothing. `ScanFrom`/`Scan` is the loop itself. It
  never exits early, so a firing branch overwrites whatever an earlier one
  produced. The scan returns a symbolic `Match` (nothing fired / hold /
  tween). Each property then resolves that `Match`.
- `track.dfy` (module `Track`) holds the track data and the three
  properties:
  - position: the hold ends strictly before the track's end;
  - colour: targets are cast to palette indices and blended with a
    colour-lerp, and the hold includes the track's end;
  - width: the window width × 0.12 × the scale factor, and the hold
    includes the track's end.

  `GetXAtTime`, `DrawBackColor` and `CurrentWidth` are the source's loops,
  branch for branch, with their local bookkeeping. Each is proved equal to
  the generic scan.
- `update.dfy` (module `TrackUpdate`) holds the lifetime check that destroys
  a track and the BPM-mode beat pulse.
- `quotient.dfy` (module `Quotient`) holds float division on exact
  operands, including the infinities and NaN of a zero divisor.
- `scenarios.dfy` (module `Scenarios`) holds worked timelines.

The easing curve (`GetEaseFunction`, whose file is not part of this model)
is a parameter `(kind, from, to, progress) -> value`. Nothing is assumed
about it: not even that it starts at `from`. Unity's `Color.Lerp` is a
parameter too. Times and values are `real`.

Three consequences of the loop as written:
- The loop has no `break`, so where segments overlap the last firing
  branch wins (`ScanLastMatch`, `Scenarios.OverlapLastMatchWins`).
- A zero-length segment is never interpolated (`EmptyWindowNeverTweens`).
  Its target shows only through the hold branch, and only while the hold's
  condition holds (`Scenarios.ZeroLengthSegment`).
- The value at a join of two segments equals the earlier target only for
  curves that start at their source (`PositionContinuousAtJoin`).

## Model

| member | source | states |
|---|---|---|
| Timeline.Branch | Assets/Scripts/Track.cs:113-122 | a segment interpolates exactly when start <= t < end; then its window is non-empty (the divisor is non-zero), the raw progress lies in [0,1) so the clamp changes nothing, and it eases from the base (first segment) or the previous target towards its own target; otherwise it holds its own target exactly when t is in the gap after it |
| Timeline.Progress | Assets/Scripts/Track.cs:118 | the fraction of a non-empty window elapsed at t lies in [0,1) inside the window and is 0 at its start |
| Timeline.ScanFrom | Assets/Scripts/Track.cs:112-123 | the loop from segment i on, with no early exit: each firing branch replaces what earlier iterations left (its contract is `ScanFromLastMatch`) |
| Timeline.Scan | Assets/Scripts/Track.cs:110-123 | the whole loop, starting from nothing applied (its contract is `ScanLastMatch`) |
| Timeline.ScanFromLastMatch | Assets/Scripts/Track.cs:112-123 | the loop from segment i on returns the outcome of the last firing branch, keeps what earlier iterations left when none fires, and returns "nothing fired" only if nothing fired before either |
| Timeline.ScanLastMatch | Assets/Scripts/Track.cs:112-123 | the whole scan yields the outcome of the highest-index firing branch, and falls back exactly when no branch fires |
| Timeline.EndsBeforeLaterStart | Assets/Scripts/Track.cs:112-123 | in sorted, non-overlapping segments every earlier segment ends by the time any later one starts |
| Timeline.AtMostOneFires | Assets/Scripts/Track.cs:112-123 | for sorted segments with start_i < end_i <= start_(i+1), at most one branch fires at any time |
| Timeline.FiringBranchDecides | Assets/Scripts/Track.cs:112-123 | for such segments any firing branch alone decides the scan |
| Timeline.TweenInWindow | Assets/Scripts/Track.cs:113-119 | inside segment i's window the scan eases from its source to its target at progress (t-start)/(end-start) |
| Timeline.HoldInGap | Assets/Scripts/Track.cs:120-122 | for end_i <= t < start_(i+1) the scan holds to_i exactly |
| Timeline.HoldAfterLast | Assets/Scripts/Track.cs:121-122 | from the last segment's end up to the track's end the scan holds the last target, even for unsorted segments |
| Timeline.BaseBeforeFirst | Assets/Scripts/Track.cs:110-111 | before the first segment starts, however early, nothing fires and the base value stands |
| Timeline.BaseAfterTrackEnd | Assets/Scripts/Track.cs:110-124 | past the last segment and past the track's end nothing fires and the base value stands |
| Timeline.EmptyWindowNeverTweens | Assets/Scripts/Track.cs:113 | a segment with end <= start is never interpolated |
| Timeline.AtTrackEnd | Assets/Scripts/Track.cs:120-121 | at the track's end the position rule (time < end) falls back to the base while the colour and scale rule (time <= end, lines 203 and 224) still holds the last target |
| Timeline.TweenStartsAtJoin | Assets/Scripts/Track.cs:113-119 | where a segment ends as the next starts, the scan at the join starts the next tween from the earlier target at progress 0 |
| Track.Truncate | Assets/Scripts/Track.cs:198 | the int cast of a colour target truncates toward zero |
| Track.XAtTime | Assets/Scripts/Track.cs:108-125 | the position: the move scan resolved to the base `x`, the held target, or the curve (described case by case by `PositionSemantics`) |
| Track.GetXAtTime | Assets/Scripts/Track.cs:108-125 | the position loop with its `lastSubMove` bookkeeping computes the generic scan over `move` resolved with the segment curves |
| Track.PositionSemantics | Assets/Scripts/Track.cs:108-125 | position is `x` with no segments; for sorted segments, ease(kind_i, source_i, to_i, clamp((t-start_i)/(end_i-start_i),0,1)) inside a window and to_i in a gap; the last target for end_last <= t < track end, whatever the order; for sorted segments, `x` before the first segment and, once past the last segment's end, from the track's end on |
| Track.PositionContinuousAtJoin | Assets/Scripts/Track.cs:113-122 | at a join of two move segments the position equals the earlier target provided the later curve starts at its source |
| Track.BackColor | Assets/Scripts/Track.cs:190-209 | the background colour: the colour scan resolved to palette colours (described case by case by `ColorSemantics`) |
| Track.DrawBackColor | Assets/Scripts/Track.cs:190-209 | the colour loop with `lastSubColor` and `appliedColor` computes the generic scan over `colorChange` resolved to palette colours; when nothing fires the colour is exactly palette[color], whatever the sprite showed before |
| Track.BranchInPalette | Assets/Scripts/Track.cs:195-198 | a colour segment eases away from palette index `color` (first segment) or the cast previous target, and every index it reaches is valid |
| Track.ColorInWindow | Assets/Scripts/Track.cs:194-200 | inside a colour window the colour is lerp(palette[source], palette[(int)to], ease(kind, 0, 1, clamped progress)) |
| Track.ColorSemantics | Assets/Scripts/Track.cs:190-209 | colour is palette[color] with no segments; for sorted segments, the blend inside a window and palette[(int)to_i] in a gap; palette[(int)to_last] from the last end up to and including the track's end, whatever the order; for sorted segments, palette[color] before the first segment and, once past the last segment's end, after the track's end |
| Track.ScaleAt | Assets/Scripts/Track.cs:211-226 | the width factor: the scale scan resolved to the base `size`, the held target, or the curve (described case by case by `ScaleSemantics`) |
| Track.CurrentWidth | Assets/Scripts/Track.cs:211-226 | the width loop computes window width × 0.12 × the scale factor in every branch |
| Track.ScaleSemantics | Assets/Scripts/Track.cs:211-226 | the scale factor is `size` with no segments; for sorted segments, the eased value inside a window and to_i in a gap; to_last from the last end up to and including the track's end, whatever the order; for sorted segments, `size` before the first segment and, once past the last segment's end, after the track's end |
| Quotient.Divide | Assets/Scripts/Track.cs:33 | float division gives the exact quotient for a non-zero divisor, and NaN or a signed infinity for a zero one |
| TrackUpdate.TrackProgress | Assets/Scripts/Track.cs:33 | the track's progress is the exact fraction with start + p·(end-start) = songTime when start != end; for start == end it is NaN exactly at songTime == start |
| TrackUpdate.Destroyed | Assets/Scripts/Track.cs:38-39 | the destroy test: progress above 1 or below 0, as float comparisons (characterised by `LifetimeWindow`) |
| TrackUpdate.LifetimeWindow | Assets/Scripts/Track.cs:33-39 | for start < end the track is destroyed iff songTime < start or songTime > end; for end < start iff it lies outside [end, start]; for start == end iff songTime != start |
| TrackUpdate.TimeIncrement | Assets/Scripts/Track.cs:47-52 | the beat length is 60/bpm when bpm > 0, else 1, and is always positive |
| TrackUpdate.BeatOffset | Assets/Scripts/Track.cs:53 | t - floor(t/inc)*inc lies in [0, inc) |
| TrackUpdate.BeatOffsetOfRemainder | Assets/Scripts/Track.cs:53 | the offset of n*inc + r, for whole n and r in [0, inc), is r |
| TrackUpdate.BeatOffsetPeriodic | Assets/Scripts/Track.cs:53 | the offset repeats every beat |
| TrackUpdate.Countdown | Assets/Scripts/Track.cs:42-43 | the pulse timer drops by one while it is positive |
| TrackUpdate.OnBeat | Assets/Scripts/Track.cs:53-55 | the beat test: the offset since the last beat is at most 1/fps, as a float comparison (characterised by `PulseOnBeat`) |
| TrackUpdate.PulseFires | Assets/Scripts/Track.cs:46-55 | the pulse fires in BPM mode while music plays and the beat test passes for the song's beat length |
| TrackUpdate.NextPulseTimer | Assets/Scripts/Track.cs:42-56 | the timer after one update: counted down, then set to 5 when the pulse fires (bounded by `PulseTimerInRange`) |
| TrackUpdate.PulseTimerInRange | Assets/Scripts/Track.cs:42-56 | a whole-number timer in [0, 5] stays a whole number in [0, 5] after an update |
| TrackUpdate.PulseOnBeat | Assets/Scripts/Track.cs:53-55 | for any positive beat length and frame rate, the beat test that sets the pulse timer to 5 passes exactly when the time since the last whole beat is at most 1/fps |
| TrackUpdate.NoPulseWhenIdle | Assets/Scripts/Track.cs:46 | outside BPM mode or with the music stopped the pulse timer only counts down |
| TrackUpdate.PulseAtZeroFrameRate | Assets/Scripts/Track.cs:55 | with a zero frame rate the threshold 1/fps is +infinity and the pulse fires every frame |
| Scenarios.OneLinearSegment | Assets/Scripts/Track.cs:108-125 | a linear move from 0 to 10 over [2,4) on a track ending at 6 gives 0, 5, 10 and 10 at times 1, 3, 4 and 5, the base at time 6, while a scale hold still applies at 6 |
| Scenarios.ZeroLengthSegment | Assets/Scripts/Track.cs:113-122 | a zero-length move at 2 yields its target at 2 through the hold on a track still alive, and the base on a track ending at 2 |
| Scenarios.OverlapLastMatchWins | Assets/Scripts/Track.cs:112-123 | with overlapping moves the later segment's hold overrides the earlier segment's tween |
| Scenarios.TwoColorChanges | Assets/Scripts/Track.cs:193-207 | colour steps 0→1→2 blend palette entries 0 and 1, then 1 and 2, at half progress |

## Left out

- Sprite creation, container wiring and per-frame drawing are not modelled. This covers `InitiateSprites`, `AddToContainer`, visibility, alpha, the red highlight, the bottom-gradient width, the diamond scale and the `lastPos`/`pos` frame lerp. All of it is rendering over the game engine.
- `MouseOver`, the delete and edit input handling, the `ConfirmBox` flow, `TrackEditor` placement and the note-count loop are not modelled. They read engine input state and create UI objects.
- `pos.y` and `Util.ScreenPosX` are not modelled. `Util` is not part of this model. The position is modelled as `GetXAtTime`'s result.
- `Assets/Scripts/UI/EditorUI.cs` is not modelled. It is widget layout and event wiring.
- The easing curves and `Color.Lerp` are function parameters with no assumed properties. Their bodies are not part of this model.
- IEEE float rounding is not modelled: times and values are exact reals. Only the zero-divisor outcomes of the lifetime division are modelled (NaN, ±infinity), and so is the zero-frame-rate threshold.
- The `flashEffectTime` countdown is left out. It is the same one-line countdown as `Countdown` and feeds only the drawing.
- BackColor, DrawBackColor, ColorSemantics: these require the base index and every segment's target, cast to int, to be valid palette indices (`PaletteCovers`), including targets of segments that never fire. The source indexes the palette only for the branch that fires, and throws on an out-of-range index; neither the looser condition nor that error path is modelled.
- Track.PositionSemantics, Track.ScaleSemantics, Track.ColorSemantics: the in-window, in-gap, before-the-first-segment and after-the-track's-end cases are stated only for sorted, non-overlapping segments (`WellFormed`). The after-the-end case also needs t at or past the last segment's end: a segment still running past the track's end keeps tweening there. For other segment lists, `Timeline.ScanLastMatch` gives the outcome: the last firing branch wins.
