/**
 A track of the chart: a vertical lane whose horizontal position, colour and
 width animate over its lifetime. Each of the three properties is one
 instance of the generic segment scan:

   - position: base `x`, segments `move`, hold bounded strictly before the
     track's end;
   - colour: base palette index `color`, segments `colorChange` whose
     targets are cast to palette indices, hold up to and including the end;
   - width: base factor `size`, segments `scale`, hold up to and including
     the end; the drawn width is the window width times the track's
     screen-width fraction times that factor.

 The easing curve of a segment is supplied by the caller as a function of
 (curve kind, from, to, progress); nothing is assumed about its shape.
 */
module Track {
  import opened Timeline

  /** Width of a size-1 track as a fraction of the window width. */
  const TrackScreenWidth: real := 0.12

  /** An easing curve: kind, from, to, progress. */
  type Ease<!E> = (E, real, real, real) -> real

  datatype TrackData<E> = TrackData(
    start: real,
    end: real,
    x: real,
    color: int,
    size: real,
    move: seq<Segment<E>>,
    colorChange: seq<Segment<E>>,
    scale: seq<Segment<E>>)

  function MoveTimeline<E>(data: TrackData<E>): Timeline<E> {
    Timeline(data.x, data.move, data.end, Exclusive)
  }

  function ColorTimeline<E>(data: TrackData<E>): Timeline<E> {
    Timeline(data.color as real, data.colorChange, data.end, Inclusive)
  }

  function ScaleTimeline<E>(data: TrackData<E>): Timeline<E> {
    Timeline(data.size, data.scale, data.end, Inclusive)
  }

  /** The `(int)` cast of a float: truncation toward zero. */
  function Truncate(x: real): (r: int)
    ensures 0.0 <= x ==> r as real <= x < r as real + 1.0
    ensures x < 0.0 ==> r as real - 1.0 < x <= r as real
  {
    if x >= 0.0 then x.Floor else -((-x).Floor)
  }

  lemma TruncateInteger(n: int)
    ensures Truncate(n as real) == n
  {
  }

  /** Turns a scalar scan outcome into a value: the base when nothing
      fired, the held target, or the segment's curve. */
  function ResolveScalar<E>(m: Match<E>, base: real, ease: Ease<E>): real {
    match m
    case NoMatch => base
    case Hold(v) => v
    case Tween(k, a, b, p) => ease(k, a, b, p)
  }

  /** The track's horizontal position at a song time. */
  function XAtTime<E>(data: TrackData<E>, t: real, ease: Ease<E>): real {
    ResolveScalar(Scan(MoveTimeline(data), t), data.x, ease)
  }

  /** The track's width factor at a song time. */
  function ScaleAt<E>(data: TrackData<E>, t: real, ease: Ease<E>): real {
    ResolveScalar(Scan(ScaleTimeline(data), t), data.size, ease)
  }

  /** The palette index the colour of segment i eases away from. */
  function SourceColor<E>(data: TrackData<E>, i: nat): int
    requires i < |data.colorChange|
  {
    if i == 0 then data.color else Truncate(data.colorChange[i - 1].to)
  }

  /** The base index and every segment's target, cast to int, are valid
      palette indices. */
  ghost predicate PaletteCovers<E, C>(data: TrackData<E>, palette: seq<C>) {
    && 0 <= data.color < |palette|
    && forall i :: 0 <= i < |data.colorChange| ==> 0 <= Truncate(data.colorChange[i].to) < |palette|
  }

  predicate InPalette<E, C>(m: Match<E>, palette: seq<C>) {
    match m
    case NoMatch => true
    case Hold(v) => 0 <= Truncate(v) < |palette|
    case Tween(_, a, b, _) => 0 <= Truncate(a) < |palette| && 0 <= Truncate(b) < |palette|
  }

  /** Turns a colour scan outcome into a colour: the base colour when
      nothing fired, the held target's colour, or a blend of the two
      palette colours weighted by the curve run from 0 to 1. */
  function ResolveColor<E, C>(m: Match<E>, baseColor: int, palette: seq<C>, ease: Ease<E>,
                              lerp: (C, C, real) -> C): C
    requires 0 <= baseColor < |palette| && InPalette(m, palette)
  {
    match m
    case NoMatch => palette[baseColor]
    case Hold(v) => palette[Truncate(v)]
    case Tween(k, a, b, p) => lerp(palette[Truncate(a)], palette[Truncate(b)], ease(k, 0.0, 1.0, p))
  }

  lemma BranchInPalette<E, C>(data: TrackData<E>, t: real, palette: seq<C>, i: nat)
    requires PaletteCovers(data, palette)
    requires i < |data.colorChange|
    ensures InPalette(Branch(ColorTimeline(data), i, t), palette)
    ensures Branch(ColorTimeline(data), i, t).Tween? ==>
              Truncate(Branch(ColorTimeline(data), i, t).from) == SourceColor(data, i)
  {
  }

  lemma ScanInPalette<E, C>(data: TrackData<E>, t: real, palette: seq<C>)
    requires PaletteCovers(data, palette)
    ensures InPalette(Scan(ColorTimeline(data), t), palette)
  {
    var tl := ColorTimeline(data);
    var m := Scan(tl, t);
    ScanLastMatch(tl, t);
    if !m.NoMatch? {
      var k :| IsLastMatch(tl, t, k) && m == Branch(tl, k, t);
      BranchInPalette(data, t, palette, k);
    }
  }

  /** The colour of the track's background sprite at a song time. */
  function BackColor<E, C>(data: TrackData<E>, t: real, palette: seq<C>, ease: Ease<E>,
                           lerp: (C, C, real) -> C): C
    requires PaletteCovers(data, palette)
  {
    ScanInPalette(data, t, palette);
    ResolveColor(Scan(ColorTimeline(data), t), data.color, palette, ease, lerp)
  }

  /** The position loop as the track runs it, branch for branch. */
  method GetXAtTime<E>(data: TrackData<E>, time: real, ease: Ease<E>) returns (desiredX: real)
    ensures desiredX == XAtTime(data, time, ease)
  {
    ghost var tl := MoveTimeline(data);
    ghost var m: Match<E> := NoMatch;
    desiredX := data.x;
    var lastSubMove := data.x;
    var i := 0;
    while i < |data.move|
      invariant i <= |data.move|
      invariant ScanFrom(tl, time, i, m) == Scan(tl, time)
      invariant desiredX == ResolveScalar(m, data.x, ease)
    {
      var s := data.move[i];
      if time >= s.start && time < s.end {
        if i == 0 {
          lastSubMove := data.x;
        } else {
          lastSubMove := data.move[i - 1].to;
        }
        var subMoveProgress := (time - s.start) / (s.end - s.start);
        desiredX := ease(s.ease, lastSubMove, s.to, Clamp(subMoveProgress, 0.0, 1.0));
        m := Branch(tl, i, time);
      } else if || (i < |data.move| - 1 && time >= s.end && time < data.move[i + 1].start)
                || (i == |data.move| - 1 && time >= s.end && time < data.end) {
        desiredX := s.to;
        m := Branch(tl, i, time);
      }
      i := i + 1;
    }
  }

  /** The colour loop as the track draws it, keeping the source's
      bookkeeping (`lastSubColor`, `appliedColor`). `previous` is the colour
      the sprite carried from the last frame; it never shows through. */
  method DrawBackColor<E, C>(data: TrackData<E>, songTime: real, palette: seq<C>, previous: C,
                             ease: Ease<E>, lerp: (C, C, real) -> C) returns (color: C)
    requires PaletteCovers(data, palette)
    ensures color == BackColor(data, songTime, palette, ease, lerp)
    ensures Scan(ColorTimeline(data), songTime).NoMatch? ==> color == palette[data.color]
  {
    ghost var tl := ColorTimeline(data);
    ghost var m: Match<E> := NoMatch;
    color := previous;
    var lastSubColor := data.color;
    var appliedColor := false;
    var changes := data.colorChange;
    var i := 0;
    while i < |changes|
      invariant i <= |changes|
      invariant ScanFrom(tl, songTime, i, m) == Scan(tl, songTime)
      invariant 0 <= lastSubColor < |palette|
      invariant appliedColor <==> !m.NoMatch?
      invariant !appliedColor ==> lastSubColor == data.color
      invariant InPalette(m, palette)
      invariant appliedColor ==> color == ResolveColor(m, data.color, palette, ease, lerp)
    {
      var s := changes[i];
      BranchInPalette(data, songTime, palette, i);
      if songTime >= s.start && songTime < s.end {
        if i == 0 {
          lastSubColor := data.color;
        } else {
          lastSubColor := Truncate(changes[i - 1].to);
        }
        var subColorProgress := (songTime - s.start) / (s.end - s.start);
        color := lerp(palette[lastSubColor], palette[Truncate(s.to)],
                      ease(s.ease, 0.0, 1.0, Clamp(subColorProgress, 0.0, 1.0)));
        appliedColor := true;
        m := Branch(tl, i, songTime);
      } else if || (i < |changes| - 1 && songTime >= s.end && songTime < changes[i + 1].start)
                || (i == |changes| - 1 && songTime >= s.end && songTime <= data.end) {
        color := palette[Truncate(s.to)];
        appliedColor := true;
        m := Branch(tl, i, songTime);
      }
      i := i + 1;
    }
    if !appliedColor {
      color := palette[lastSubColor];
    }
  }

  /** The width loop as the track draws it: every branch scales the same
      window fraction, so the width is that fraction times the factor. */
  method CurrentWidth<E>(data: TrackData<E>, songTime: real, windowWidth: real, ease: Ease<E>)
    returns (currentWidth: real)
    ensures currentWidth == windowWidth * TrackScreenWidth * ScaleAt(data, songTime, ease)
  {
    ghost var tl := ScaleTimeline(data);
    ghost var m: Match<E> := NoMatch;
    currentWidth := windowWidth * TrackScreenWidth * data.size;
    var lastSubScale := data.size;
    var i := 0;
    while i < |data.scale|
      invariant i <= |data.scale|
      invariant ScanFrom(tl, songTime, i, m) == Scan(tl, songTime)
      invariant currentWidth == windowWidth * TrackScreenWidth * ResolveScalar(m, data.size, ease)
    {
      var s := data.scale[i];
      if songTime >= s.start && songTime < s.end {
        if i == 0 {
          lastSubScale := data.size;
        } else {
          lastSubScale := data.scale[i - 1].to;
        }
        var subScaleProgress := (songTime - s.start) / (s.end - s.start);
        currentWidth := windowWidth * TrackScreenWidth;
        currentWidth := currentWidth * ease(s.ease, lastSubScale, s.to, Clamp(subScaleProgress, 0.0, 1.0));
        m := Branch(tl, i, songTime);
      } else if || (i < |data.scale| - 1 && songTime >= s.end && songTime < data.scale[i + 1].start)
                || (i == |data.scale| - 1 && songTime >= s.end && songTime <= data.end) {
        currentWidth := windowWidth * TrackScreenWidth * s.to;
        m := Branch(tl, i, songTime);
      }
      i := i + 1;
    }
  }

  /** The position: the base `x` with no segments; for sorted segments,
      inside a window the curve from the segment's source to its target at
      the clamped raw progress, and the held target in a gap; the last
      target after the last segment, strictly before the track's end, in
      any order; for sorted segments, the base before the first segment
      and, once past the last segment's end, from the track's end on. */
  lemma PositionSemantics<E>(data: TrackData<E>, t: real, ease: Ease<E>)
    ensures data.move == [] ==> XAtTime(data, t, ease) == data.x
    ensures WellFormed(MoveTimeline(data)) ==>
      forall i :: 0 <= i < |data.move| && data.move[i].start <= t < data.move[i].end ==>
        XAtTime(data, t, ease) ==
          ease(data.move[i].ease, Source(MoveTimeline(data), i), data.move[i].to,
               Clamp((t - data.move[i].start) / (data.move[i].end - data.move[i].start), 0.0, 1.0))
    ensures WellFormed(MoveTimeline(data)) ==>
      forall i :: 0 <= i < |data.move| - 1 && data.move[i].end <= t < data.move[i + 1].start ==>
        XAtTime(data, t, ease) == data.move[i].to
    ensures |data.move| > 0 && data.move[|data.move| - 1].end <= t < data.end ==>
      XAtTime(data, t, ease) == data.move[|data.move| - 1].to
    ensures WellFormed(MoveTimeline(data)) && |data.move| > 0 && t < data.move[0].start ==>
      XAtTime(data, t, ease) == data.x
    ensures WellFormed(MoveTimeline(data)) && |data.move| > 0 &&
            data.move[|data.move| - 1].end <= t && data.end <= t ==>
      XAtTime(data, t, ease) == data.x
  {
    var tl := MoveTimeline(data);
    ScanLastMatch(tl, t);
    ScalarCases(tl, t, ease);
  }

  /** The width factor: as the position, with the base `size`, but the
      hold after the last segment lasts up to and including the track's end. */
  lemma ScaleSemantics<E>(data: TrackData<E>, t: real, ease: Ease<E>)
    ensures data.scale == [] ==> ScaleAt(data, t, ease) == data.size
    ensures WellFormed(ScaleTimeline(data)) ==>
      forall i :: 0 <= i < |data.scale| && data.scale[i].start <= t < data.scale[i].end ==>
        ScaleAt(data, t, ease) ==
          ease(data.scale[i].ease, Source(ScaleTimeline(data), i), data.scale[i].to,
               Clamp((t - data.scale[i].start) / (data.scale[i].end - data.scale[i].start), 0.0, 1.0))
    ensures WellFormed(ScaleTimeline(data)) ==>
      forall i :: 0 <= i < |data.scale| - 1 && data.scale[i].end <= t < data.scale[i + 1].start ==>
        ScaleAt(data, t, ease) == data.scale[i].to
    ensures |data.scale| > 0 && data.scale[|data.scale| - 1].end <= t <= data.end ==>
      ScaleAt(data, t, ease) == data.scale[|data.scale| - 1].to
    ensures WellFormed(ScaleTimeline(data)) && |data.scale| > 0 && t < data.scale[0].start ==>
      ScaleAt(data, t, ease) == data.size
    ensures WellFormed(ScaleTimeline(data)) && |data.scale| > 0 &&
            data.scale[|data.scale| - 1].end <= t && data.end < t ==>
      ScaleAt(data, t, ease) == data.size
  {
    var tl := ScaleTimeline(data);
    ScanLastMatch(tl, t);
    ScalarCases(tl, t, ease);
  }

  /** The colour: the base colour with no segments; inside a window the
      blend of the source and target palette colours weighted by the curve
      run from 0 to 1; the held target's colour in a gap and after the last
      segment up to and including the track's end; for sorted segments, the
      unblended base colour before the first segment and, once past the last
      segment's end, after the track's end. The window and gap cases are
      stated for sorted segments too. */
  lemma ColorSemantics<E, C>(data: TrackData<E>, t: real, palette: seq<C>, ease: Ease<E>,
                             lerp: (C, C, real) -> C)
    requires PaletteCovers(data, palette)
    ensures data.colorChange == [] ==> BackColor(data, t, palette, ease, lerp) == palette[data.color]
    ensures WellFormed(ColorTimeline(data)) ==>
      forall i :: 0 <= i < |data.colorChange| && data.colorChange[i].start <= t < data.colorChange[i].end ==>
        BackColor(data, t, palette, ease, lerp) ==
          lerp(palette[SourceColor(data, i)], palette[Truncate(data.colorChange[i].to)],
               ease(data.colorChange[i].ease, 0.0, 1.0,
                    Clamp((t - data.colorChange[i].start) / (data.colorChange[i].end - data.colorChange[i].start),
                          0.0, 1.0)))
    ensures WellFormed(ColorTimeline(data)) ==>
      forall i :: 0 <= i < |data.colorChange| - 1 &&
                  data.colorChange[i].end <= t < data.colorChange[i + 1].start ==>
        BackColor(data, t, palette, ease, lerp) == palette[Truncate(data.colorChange[i].to)]
    ensures |data.colorChange| > 0 && data.colorChange[|data.colorChange| - 1].end <= t <= data.end ==>
      BackColor(data, t, palette, ease, lerp) == palette[Truncate(data.colorChange[|data.colorChange| - 1].to)]
    ensures WellFormed(ColorTimeline(data)) && |data.colorChange| > 0 && t < data.colorChange[0].start ==>
      BackColor(data, t, palette, ease, lerp) == palette[data.color]
    ensures WellFormed(ColorTimeline(data)) && |data.colorChange| > 0 &&
            data.colorChange[|data.colorChange| - 1].end <= t && data.end < t ==>
      BackColor(data, t, palette, ease, lerp) == palette[data.color]
  {
    var tl := ColorTimeline(data);
    var segs := data.colorChange;
    if segs == [] {
      ScanLastMatch(tl, t);
    }
    if WellFormed(tl) {
      forall i | 0 <= i < |segs| && segs[i].start <= t < segs[i].end
        ensures BackColor(data, t, palette, ease, lerp) ==
          lerp(palette[SourceColor(data, i)], palette[Truncate(segs[i].to)],
               ease(segs[i].ease, 0.0, 1.0, Clamp((t - segs[i].start) / (segs[i].end - segs[i].start), 0.0, 1.0)))
      {
        ColorInWindow(data, t, palette, ease, lerp, i);
      }
      forall i | 0 <= i < |segs| - 1 && segs[i].end <= t < segs[i + 1].start
        ensures BackColor(data, t, palette, ease, lerp) == palette[Truncate(segs[i].to)]
      {
        HoldInGap(tl, t, i);
      }
      if |segs| > 0 && t < segs[0].start {
        BaseBeforeFirst(tl, t);
      }
      if |segs| > 0 && segs[|segs| - 1].end <= t && data.end < t {
        BaseAfterTrackEnd(tl, t);
      }
    }
    if |segs| > 0 && segs[|segs| - 1].end <= t <= data.end {
      HoldAfterLast(tl, t);
    }
  }

  lemma ColorInWindow<E, C>(data: TrackData<E>, t: real, palette: seq<C>, ease: Ease<E>,
                            lerp: (C, C, real) -> C, i: nat)
    requires PaletteCovers(data, palette)
    requires WellFormed(ColorTimeline(data))
    requires i < |data.colorChange| && data.colorChange[i].start <= t < data.colorChange[i].end
    ensures var s := data.colorChange[i];
      BackColor(data, t, palette, ease, lerp) ==
        lerp(palette[SourceColor(data, i)], palette[Truncate(s.to)],
             ease(s.ease, 0.0, 1.0, Clamp((t - s.start) / (s.end - s.start), 0.0, 1.0)))
  {
    TweenInWindow(ColorTimeline(data), t, i);
    BranchInPalette(data, t, palette, i);
  }

  /** The generic cases of the scan, resolved as a scalar. */
  lemma ScalarCases<E>(tl: Timeline<E>, t: real, ease: Ease<E>)
    ensures WellFormed(tl) ==>
      forall i :: 0 <= i < |tl.segments| && tl.segments[i].start <= t < tl.segments[i].end ==>
        ResolveScalar(Scan(tl, t), tl.base, ease) ==
          ease(tl.segments[i].ease, Source(tl, i), tl.segments[i].to,
               Clamp((t - tl.segments[i].start) / (tl.segments[i].end - tl.segments[i].start), 0.0, 1.0))
    ensures WellFormed(tl) ==>
      forall i :: 0 <= i < |tl.segments| - 1 && tl.segments[i].end <= t < tl.segments[i + 1].start ==>
        ResolveScalar(Scan(tl, t), tl.base, ease) == tl.segments[i].to
    ensures |tl.segments| > 0 && tl.segments[|tl.segments| - 1].end <= t && WithinEnd(t, tl.trackEnd, tl.close) ==>
      ResolveScalar(Scan(tl, t), tl.base, ease) == tl.segments[|tl.segments| - 1].to
    ensures WellFormed(tl) && |tl.segments| > 0 && t < tl.segments[0].start ==>
      ResolveScalar(Scan(tl, t), tl.base, ease) == tl.base
    ensures WellFormed(tl) && |tl.segments| > 0 &&
            tl.segments[|tl.segments| - 1].end <= t && !WithinEnd(t, tl.trackEnd, tl.close) ==>
      ResolveScalar(Scan(tl, t), tl.base, ease) == tl.base
  {
    var segs := tl.segments;
    if WellFormed(tl) {
      forall i | 0 <= i < |segs| && segs[i].start <= t < segs[i].end
        ensures ResolveScalar(Scan(tl, t), tl.base, ease) ==
          ease(segs[i].ease, Source(tl, i), segs[i].to,
               Clamp((t - segs[i].start) / (segs[i].end - segs[i].start), 0.0, 1.0))
      {
        TweenInWindow(tl, t, i);
      }
      forall i | 0 <= i < |segs| - 1 && segs[i].end <= t < segs[i + 1].start
        ensures ResolveScalar(Scan(tl, t), tl.base, ease) == segs[i].to
      {
        HoldInGap(tl, t, i);
      }
      if |segs| > 0 && t < segs[0].start {
        BaseBeforeFirst(tl, t);
      }
      if |segs| > 0 && segs[|segs| - 1].end <= t && !WithinEnd(t, tl.trackEnd, tl.close) {
        BaseAfterTrackEnd(tl, t);
      }
    }
    if |segs| > 0 && segs[|segs| - 1].end <= t && WithinEnd(t, tl.trackEnd, tl.close) {
      HoldAfterLast(tl, t);
    }
  }

  /** Where two move segments meet, the position at the join is the earlier
      target provided the later segment's curve starts at its source value;
      no such property of the curve is assumed elsewhere. */
  lemma PositionContinuousAtJoin<E>(data: TrackData<E>, i: nat, ease: Ease<E>)
    requires WellFormed(MoveTimeline(data))
    requires i + 1 < |data.move|
    requires data.move[i].end == data.move[i + 1].start
    requires ease(data.move[i + 1].ease, data.move[i].to, data.move[i + 1].to, 0.0) == data.move[i].to
    ensures XAtTime(data, data.move[i].end, ease) == data.move[i].to
  {
    TweenStartsAtJoin(MoveTimeline(data), i);
  }
}
