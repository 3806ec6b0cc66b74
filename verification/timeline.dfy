/**
 The keyframe-segment scan shared by a track's three animated properties
 (horizontal position, colour-palette index and width scale).

 A property has a base value and a list of segments. At a query time the
 scan visits every segment in order and, for each one, either interpolates
 inside the segment's window, holds the segment's target in the gap that
 follows it, or does nothing. The scan never stops early, so the LAST
 segment whose branch fires decides the outcome. When no branch fires the
 property falls back to its base value.

 The scan is generic: it returns a symbolic `Match` that each property
 resolves with its own easing curve and value representation.
 */
module Timeline {

  /** One keyframe segment: during [start, end) the property eases towards
      `to` along the curve named by `ease`. */
  datatype Segment<E> = Segment(start: real, end: real, to: real, ease: E)

  /** How the hold after the last segment is bounded by the track's end:
      the position scan stops strictly before it, colour and scale include it. */
  datatype Close = Exclusive | Inclusive

  /** The segments of one property together with what the scan needs to
      know about the owning track. */
  datatype Timeline<E> = Timeline(base: real, segments: seq<Segment<E>>, trackEnd: real, close: Close)

  /** What one branch of the scan, or the whole scan, decided. */
  datatype Match<E> =
    | NoMatch
    | Hold(value: real)
    | Tween(ease: E, from: real, to: real, progress: real)

  predicate WithinEnd(t: real, trackEnd: real, close: Close) {
    match close
    case Exclusive => t < trackEnd
    case Inclusive => t <= trackEnd
  }

  /** Unity's Mathf.Clamp. */
  function Clamp(x: real, lo: real, hi: real): (r: real)
    requires lo <= hi
    ensures lo <= r <= hi
    ensures lo <= x <= hi ==> r == x
  {
    if x < lo then lo else if x > hi then hi else x
  }

  /** How far t lies into a segment's window, as a fraction of its length. */
  function Progress<E>(s: Segment<E>, t: real): (r: real)
    requires s.start < s.end
    ensures s.start <= t < s.end ==> 0.0 <= r < 1.0
    ensures t == s.start ==> r == 0.0
  {
    var q := (t - s.start) / (s.end - s.start);
    if s.start <= t < s.end then QuotientBelowOne(t - s.start, s.end - s.start); q else q
  }

  lemma QuotientBelowOne(a: real, d: real)
    requires 0.0 <= a < d
    ensures 0.0 <= a / d < 1.0
  {
    assert (a / d) * d == a;
  }

  /** The value a segment eases away from: the base for the first segment,
      the previous segment's target otherwise. */
  function Source<E>(tl: Timeline<E>, i: nat): real
    requires i < |tl.segments|
  {
    if i == 0 then tl.base else tl.segments[i - 1].to
  }

  /** The gap-hold condition of segment i: after its end and before the next
      segment's start, or, for the last segment, before the track's end. */
  predicate InGapAfter<E>(tl: Timeline<E>, i: nat, t: real)
    requires i < |tl.segments|
  {
    var segs := tl.segments;
    || (i < |segs| - 1 && t >= segs[i].end && t < segs[i + 1].start)
    || (i == |segs| - 1 && t >= segs[i].end && WithinEnd(t, tl.trackEnd, tl.close))
  }

  /** The decision the scan body takes for segment i at time t. */
  function Branch<E>(tl: Timeline<E>, i: nat, t: real): (r: Match<E>)
    requires i < |tl.segments|
    ensures var s := tl.segments[i];
      && (r.Tween? <==> s.start <= t < s.end)
      && (r.Tween? ==>
            // the window is never empty, so the progress divisor is non-zero,
            // and the raw progress already lies in [0, 1): the clamp is a no-op
            && s.start < s.end
            && r.progress == Progress(s, t)
            && r.ease == s.ease && r.from == Source(tl, i) && r.to == s.to)
      && (r.Hold? <==> !(s.start <= t < s.end) && InGapAfter(tl, i, t))
      && (r.Hold? ==> r.value == s.to && s.end <= t)
  {
    var s := tl.segments[i];
    if t >= s.start && t < s.end then
      Tween(s.ease, Source(tl, i), s.to, Clamp(Progress(s, t), 0.0, 1.0))
    else if InGapAfter(tl, i, t) then
      Hold(s.to)
    else
      NoMatch
  }

  predicate Fires<E>(tl: Timeline<E>, i: nat, t: real)
    requires i < |tl.segments|
  {
    !Branch(tl, i, t).NoMatch?
  }

  /** Segment k's branch fires at t and no later segment's does. */
  ghost predicate IsLastMatch<E>(tl: Timeline<E>, t: real, k: nat) {
    && k < |tl.segments|
    && Fires(tl, k, t)
    && forall j :: k < j < |tl.segments| ==> !Fires(tl, j, t)
  }

  /** The scan loop from segment i on, `acc` being what the earlier
      iterations left behind. A firing branch overwrites `acc`. */
  function ScanFrom<E>(tl: Timeline<E>, t: real, i: nat, acc: Match<E>): Match<E>
    requires i <= |tl.segments|
    decreases |tl.segments| - i
  {
    if i == |tl.segments| then acc
    else ScanFrom(tl, t, i + 1, if Fires(tl, i, t) then Branch(tl, i, t) else acc)
  }

  /** The whole scan, as the property's loop runs it from the first segment
      with nothing applied yet. */
  function Scan<E>(tl: Timeline<E>, t: real): Match<E> {
    ScanFrom(tl, t, 0, NoMatch)
  }

  /** With no early exit, the loop from segment i on ends with the outcome
      of the last firing branch, and keeps `acc` when none fires. */
  lemma {:induction false} ScanFromLastMatch<E>(tl: Timeline<E>, t: real, i: nat, acc: Match<E>)
    requires i <= |tl.segments|
    ensures var r := ScanFrom(tl, t, i, acc);
      && ((forall j :: i <= j < |tl.segments| ==> !Fires(tl, j, t)) ==> r == acc)
      && (r.NoMatch? ==> acc.NoMatch? && forall j :: i <= j < |tl.segments| ==> !Fires(tl, j, t))
      && (forall k :: i <= k < |tl.segments| && IsLastMatch(tl, t, k) ==> r == Branch(tl, k, t))
      && ((exists j :: i <= j < |tl.segments| && Fires(tl, j, t)) ==>
            exists k :: i <= k < |tl.segments| && IsLastMatch(tl, t, k) && r == Branch(tl, k, t))
    decreases |tl.segments| - i
  {
    if i < |tl.segments| {
      ScanFromLastMatch(tl, t, i + 1, if Fires(tl, i, t) then Branch(tl, i, t) else acc);
      if Fires(tl, i, t) && forall j :: i < j < |tl.segments| ==> !Fires(tl, j, t) {
        assert IsLastMatch(tl, t, i);
      }
    }
  }

  /** The scan's outcome is that of the highest-index firing branch, and it
      is NoMatch exactly when no branch fires. */
  lemma ScanLastMatch<E>(tl: Timeline<E>, t: real)
    ensures Scan(tl, t).NoMatch? <==> forall j :: 0 <= j < |tl.segments| ==> !Fires(tl, j, t)
    ensures forall k :: IsLastMatch(tl, t, k) ==> Scan(tl, t) == Branch(tl, k, t)
    ensures !Scan(tl, t).NoMatch? ==> exists k :: IsLastMatch(tl, t, k) && Scan(tl, t) == Branch(tl, k, t)
  {
    ScanFromLastMatch(tl, t, 0, NoMatch);
  }

  /** Authored segments: each window non-empty, sorted, and not overlapping
      the next one. */
  ghost predicate WellFormed<E>(tl: Timeline<E>) {
    && (forall i :: 0 <= i < |tl.segments| ==> tl.segments[i].start < tl.segments[i].end)
    && (forall i :: 0 <= i < |tl.segments| - 1 ==> tl.segments[i].end <= tl.segments[i + 1].start)
  }

  /** In a well-formed timeline every earlier segment ends by the time a
      later one starts. */
  lemma {:induction false} EndsBeforeLaterStart<E>(tl: Timeline<E>, j: nat, i: nat)
    requires WellFormed(tl)
    requires j < i < |tl.segments|
    ensures tl.segments[j].end <= tl.segments[i].start
    decreases i - j
  {
    if j + 1 < i {
      EndsBeforeLaterStart(tl, j + 1, i);
      assert tl.segments[j].end <= tl.segments[j + 1].start < tl.segments[j + 1].end;
    }
  }

  /** A branch only fires at or after its segment's start. */
  lemma FiresOnlyAfterStart<E>(tl: Timeline<E>, i: nat, t: real)
    requires WellFormed(tl)
    requires i < |tl.segments| && Fires(tl, i, t)
    ensures tl.segments[i].start <= t
  {
  }

  /** In a well-formed timeline at most one branch fires at any time. */
  lemma AtMostOneFires<E>(tl: Timeline<E>, t: real, i: nat, j: nat)
    requires WellFormed(tl)
    requires i < |tl.segments| && j < |tl.segments|
    requires Fires(tl, i, t) && Fires(tl, j, t)
    ensures i == j
  {
    if j < i {
      LaterFiringSilencesEarlier(tl, t, j, i);
    } else if i < j {
      LaterFiringSilencesEarlier(tl, t, i, j);
    }
  }

  lemma LaterFiringSilencesEarlier<E>(tl: Timeline<E>, t: real, j: nat, i: nat)
    requires WellFormed(tl)
    requires j < i < |tl.segments|
    requires Fires(tl, i, t)
    ensures !Fires(tl, j, t)
  {
    var segs := tl.segments;
    FiresOnlyAfterStart(tl, i, t);
    EndsBeforeLaterStart(tl, j, i);
    if j + 1 < i {
      EndsBeforeLaterStart(tl, j + 1, i);
      assert segs[j + 1].start < segs[j + 1].end <= segs[i].start;
    }
    // segment j's window closes, and its gap ends, before segment i starts
    assert segs[j + 1].start <= segs[i].start;
  }

  /** In a well-formed timeline a firing branch decides the scan. */
  lemma FiringBranchDecides<E>(tl: Timeline<E>, t: real, i: nat)
    requires WellFormed(tl)
    requires i < |tl.segments| && Fires(tl, i, t)
    ensures Scan(tl, t) == Branch(tl, i, t)
  {
    forall j | i < j < |tl.segments|
      ensures !Fires(tl, j, t)
    {
      if Fires(tl, j, t) {
        AtMostOneFires(tl, t, i, j);
      }
    }
    assert IsLastMatch(tl, t, i);
    ScanLastMatch(tl, t);
  }

  /** Inside a segment's window the scan interpolates from the segment's
      source to its target, at the raw (unclamped) progress. */
  lemma TweenInWindow<E>(tl: Timeline<E>, t: real, i: nat)
    requires WellFormed(tl)
    requires i < |tl.segments|
    requires tl.segments[i].start <= t < tl.segments[i].end
    ensures var s := tl.segments[i];
      Scan(tl, t) == Tween(s.ease, Source(tl, i), s.to, Progress(s, t))
  {
    FiringBranchDecides(tl, t, i);
  }

  /** Between one segment's end and the next one's start the scan holds the
      earlier segment's target exactly. */
  lemma HoldInGap<E>(tl: Timeline<E>, t: real, i: nat)
    requires WellFormed(tl)
    requires i + 1 < |tl.segments|
    requires tl.segments[i].end <= t < tl.segments[i + 1].start
    ensures Scan(tl, t) == Hold(tl.segments[i].to)
  {
    FiringBranchDecides(tl, t, i);
  }

  /** After the last segment, up to the track's end (exclusive or inclusive
      as the timeline says), the scan holds the last target. Being the last
      segment, its branch wins whether or not the segments are well formed. */
  lemma HoldAfterLast<E>(tl: Timeline<E>, t: real)
    requires |tl.segments| > 0
    requires tl.segments[|tl.segments| - 1].end <= t
    requires WithinEnd(t, tl.trackEnd, tl.close)
    ensures Scan(tl, t) == Hold(tl.segments[|tl.segments| - 1].to)
  {
    assert IsLastMatch(tl, t, |tl.segments| - 1);
    ScanLastMatch(tl, t);
  }

  /** Before the first segment starts nothing fires, however far back. */
  lemma BaseBeforeFirst<E>(tl: Timeline<E>, t: real)
    requires WellFormed(tl)
    requires |tl.segments| > 0 && t < tl.segments[0].start
    ensures Scan(tl, t).NoMatch?
  {
    forall j | 0 <= j < |tl.segments|
      ensures !Fires(tl, j, t)
    {
      if Fires(tl, j, t) {
        FiresOnlyAfterStart(tl, j, t);
        if 0 < j {
          EndsBeforeLaterStart(tl, 0, j);
        }
      }
    }
    ScanLastMatch(tl, t);
  }

  /** Past the last segment and past the track's end nothing fires. */
  lemma BaseAfterTrackEnd<E>(tl: Timeline<E>, t: real)
    requires WellFormed(tl)
    requires |tl.segments| > 0
    requires tl.segments[|tl.segments| - 1].end <= t
    requires !WithinEnd(t, tl.trackEnd, tl.close)
    ensures Scan(tl, t).NoMatch?
  {
    forall j | 0 <= j < |tl.segments|
      ensures !Fires(tl, j, t)
    {
      SilentAfterLastEnd(tl, t, j);
    }
    ScanLastMatch(tl, t);
  }

  lemma SilentAfterLastEnd<E>(tl: Timeline<E>, t: real, j: nat)
    requires WellFormed(tl)
    requires j < |tl.segments|
    requires tl.segments[|tl.segments| - 1].end <= t
    requires !WithinEnd(t, tl.trackEnd, tl.close)
    ensures !Fires(tl, j, t)
  {
    var segs := tl.segments;
    var last := |segs| - 1;
    if j < last {
      // segment j ends, and the gap after it closes, by the last segment's start
      EndsBeforeLaterStart(tl, j, last);
      if j + 1 < last {
        EndsBeforeLaterStart(tl, j + 1, last);
      }
      assert segs[j + 1].start <= segs[last].start < segs[last].end;
    }
  }

  /** A segment whose window is empty (end <= start) never interpolates:
      at no time does the scan produce a tween taken from it. */
  lemma EmptyWindowNeverTweens<E>(tl: Timeline<E>, t: real, i: nat)
    requires i < |tl.segments|
    requires tl.segments[i].end <= tl.segments[i].start
    ensures !Branch(tl, i, t).Tween?
  {
  }

  /** The two end rules differ exactly at the track's end: the exclusive
      rule falls back to the base, the inclusive one still holds. */
  lemma AtTrackEnd<E>(tl: Timeline<E>)
    requires WellFormed(tl)
    requires |tl.segments| > 0
    requires tl.segments[|tl.segments| - 1].end <= tl.trackEnd
    ensures tl.close == Exclusive ==> Scan(tl, tl.trackEnd).NoMatch?
    ensures tl.close == Inclusive ==> Scan(tl, tl.trackEnd) == Hold(tl.segments[|tl.segments| - 1].to)
  {
    if tl.close == Exclusive {
      BaseAfterTrackEnd(tl, tl.trackEnd);
    } else {
      HoldAfterLast(tl, tl.trackEnd);
    }
  }

  /** Where one segment ends exactly as the next starts, the scan at the
      join begins the next segment's tween from the earlier target, at
      progress zero. */
  lemma TweenStartsAtJoin<E>(tl: Timeline<E>, i: nat)
    requires WellFormed(tl)
    requires i + 1 < |tl.segments|
    requires tl.segments[i].end == tl.segments[i + 1].start
    ensures var s := tl.segments[i + 1];
      Scan(tl, s.start) == Tween(s.ease, tl.segments[i].to, s.to, 0.0)
  {
    TweenInWindow(tl, tl.segments[i + 1].start, i + 1);
  }
}
