/**
 Worked timelines: one linear segment, a zero-length segment, two
 overlapping segments and a two-step colour change, evaluated through the
 track's own property functions.
 */
module Scenarios {
  import opened Timeline
  import opened Track

  datatype Curve = Linear

  function LinearEase(k: Curve, a: real, b: real, p: real): real {
    a + (b - a) * p
  }

  function OneSegment(): TrackData<Curve> {
    TrackData(0.0, 6.0, 0.0, 0, 1.0,
              [Segment(2.0, 4.0, 10.0, Linear)], [], [Segment(2.0, 4.0, 10.0, Linear)])
  }

  /** A track alive over [0, 6] moving from 0 to 10 during [2, 4): the base
      before the move, the midpoint halfway through, the target held from
      the move's end, and at the track's end itself the position falls back
      to the base while the width factor still holds. */
  lemma OneLinearSegment()
    ensures XAtTime(OneSegment(), 1.0, LinearEase) == 0.0
    ensures XAtTime(OneSegment(), 3.0, LinearEase) == 5.0
    ensures XAtTime(OneSegment(), 4.0, LinearEase) == 10.0
    ensures XAtTime(OneSegment(), 5.0, LinearEase) == 10.0
    ensures XAtTime(OneSegment(), 6.0, LinearEase) == 0.0
    ensures ScaleAt(OneSegment(), 6.0, LinearEase) == 10.0
  {
    var data := OneSegment();
    var tl := MoveTimeline(data);
    assert WellFormed(tl);
    BaseBeforeFirst(tl, 1.0);
    TweenInWindow(tl, 3.0, 0);
    HoldAfterLast(tl, 4.0);
    HoldAfterLast(tl, 5.0);
    BaseAfterTrackEnd(tl, 6.0);
    HoldAfterLast(ScaleTimeline(data), 6.0);
  }

  /** A zero-length move at time 2 is never interpolated. As the last
      segment it still yields its target at time 2 through the hold after
      it, but only while the track has not ended: on a track ending at 2
      the position stays at the base. */
  lemma ZeroLengthSegment()
    ensures XAtTime(TrackData(0.0, 6.0, 0.0, 0, 1.0, [Segment(2.0, 2.0, 7.0, Linear)], [], []),
                    2.0, LinearEase) == 7.0
    ensures XAtTime(TrackData(0.0, 2.0, 0.0, 0, 1.0, [Segment(2.0, 2.0, 7.0, Linear)], [], []),
                    2.0, LinearEase) == 0.0
  {
    var running := TrackData(0.0, 6.0, 0.0, 0, 1.0, [Segment(2.0, 2.0, 7.0, Linear)], [], []);
    HoldAfterLast(MoveTimeline(running), 2.0);
    var ended := TrackData(0.0, 2.0, 0.0, 0, 1.0, [Segment(2.0, 2.0, 7.0, Linear)], [], []);
    ScanLastMatch(MoveTimeline(ended), 2.0);
    assert !Fires(MoveTimeline(ended), 0, 2.0);
  }

  /** Overlapping moves: at time 3 the first segment is mid-tween (it would
      give 7.5) but the second one's hold fires later in the scan and wins. */
  lemma OverlapLastMatchWins()
    ensures XAtTime(TrackData(0.0, 6.0, 0.0, 0, 1.0,
                              [Segment(0.0, 4.0, 10.0, Linear), Segment(1.0, 2.0, 20.0, Linear)], [], []),
                    3.0, LinearEase) == 20.0
  {
    var data := TrackData(0.0, 6.0, 0.0, 0, 1.0,
                          [Segment(0.0, 4.0, 10.0, Linear), Segment(1.0, 2.0, 20.0, Linear)], [], []);
    assert Branch(MoveTimeline(data), 0, 3.0).Tween?;
    HoldAfterLast(MoveTimeline(data), 3.0);
  }

  function TwoColorSteps(): TrackData<Curve> {
    TrackData(0.0, 2.0, 0.0, 0, 1.0, [],
              [Segment(0.0, 1.0, 1.0, Linear), Segment(1.0, 2.0, 2.0, Linear)], [])
  }

  /** A colour stepping through palette entries 0, 1 and 2 blends entries 0
      and 1 halfway through the first step and entries 1 and 2 halfway
      through the second. */
  lemma TwoColorChanges<C>(palette: seq<C>, lerp: (C, C, real) -> C)
    requires |palette| == 3
    ensures BackColor(TwoColorSteps(), 0.5, palette, LinearEase, lerp) == lerp(palette[0], palette[1], 0.5)
    ensures BackColor(TwoColorSteps(), 1.5, palette, LinearEase, lerp) == lerp(palette[1], palette[2], 0.5)
  {
    var data := TwoColorSteps();
    assert PaletteCovers(data, palette) by {
      assert Truncate(1.0) == 1 && Truncate(2.0) == 2;
    }
    assert WellFormed(ColorTimeline(data));
    ColorInWindow(data, 0.5, palette, LinearEase, lerp, 0);
    ColorInWindow(data, 1.5, palette, LinearEase, lerp, 1);
    assert SourceColor(data, 1) == 1 by {
      assert Truncate(1.0) == 1;
    }
  }
}
