/**
 The arithmetic of a track's per-frame update: the lifetime check that
 retires a track once the song time leaves its [start, end] window, and
 the beat pulse of the BPM edit mode, which flashes the track's bottom
 marker during the first frame after every beat.
 */
module TrackUpdate {
  import opened Quotient

  // ---------------------------------------------------------------------
  // Lifetime

  /** How far the song time lies into the track's lifetime. */
  function TrackProgress(start: real, end: real, songTime: real): (p: Quotient)
    ensures start != end ==> p.Finite? && start + p.value * (end - start) == songTime
    ensures start == end ==> (p.NaN? <==> songTime == start)
  {
    Divide(songTime - start, end - start)
  }

  /** The destroy condition: progress above 1 or below 0. */
  predicate Destroyed(start: real, end: real, songTime: real) {
    var p := TrackProgress(start, end, songTime);
    Above(p, 1.0) || Below(p, 0.0)
  }

  /** A track with a proper lifetime is destroyed exactly when the song time
      lies outside [start, end]. A track authored with end < start survives
      only inside [end, start], and a zero-length one only at its single
      instant, where the progress is NaN. */
  lemma LifetimeWindow(start: real, end: real, songTime: real)
    ensures start < end ==> (Destroyed(start, end, songTime) <==> songTime < start || songTime > end)
    ensures end < start ==> (Destroyed(start, end, songTime) <==> songTime < end || songTime > start)
    ensures start == end ==> (Destroyed(start, end, songTime) <==> songTime != start)
  {
    if start < end {
      PositiveDivisor(songTime - start, end - start);
    } else if end < start {
      NegativeDivisor(songTime - start, end - start);
    }
  }

  // ---------------------------------------------------------------------
  // Beat pulse

  /** Seconds per beat, or one second when the song has no BPM. */
  function TimeIncrement(bpm: real): (inc: real)
    ensures inc > 0.0
    ensures bpm > 0.0 ==> inc * bpm == 60.0
    ensures bpm <= 0.0 ==> inc == 1.0
  {
    if bpm > 0.0 then 60.0 / bpm else 1.0
  }

  /** Time since the last beat: the song time minus the floor of its beat
      count times the beat length. */
  function BeatOffset(t: real, inc: real): (offset: real)
    requires inc > 0.0
    ensures 0.0 <= offset < inc
  {
    FloorRemainder(t, inc);
    t - (t / inc).Floor as real * inc
  }

  lemma FloorRemainder(t: real, inc: real)
    requires inc > 0.0
    ensures 0.0 <= t - (t / inc).Floor as real * inc < inc
  {
    var q := t / inc;
    var beats := q.Floor as real;
    assert beats <= q < beats + 1.0;
    assert q * inc == t;
    MultiplyMonotone(beats, q, inc);
    MultiplyMonotone(q, beats + 1.0, inc);
    assert (beats + 1.0) * inc == beats * inc + inc;
    assert t < beats * inc + inc;
  }

  lemma MultiplyMonotone(a: real, b: real, c: real)
    requires a <= b && c > 0.0
    ensures a * c <= b * c
    ensures a < b ==> a * c < b * c
  {
  }

  /** The offset is the remainder of the song time in whole beats: for any
      whole number of beats n and remainder r in [0, inc), the time
      n * inc + r has offset r. */
  lemma BeatOffsetOfRemainder(n: int, r: real, inc: real)
    requires inc > 0.0 && 0.0 <= r < inc
    ensures BeatOffset(n as real * inc + r, inc) == r
  {
    var t := n as real * inc + r;
    var q := t / inc;
    assert q * inc == t;
    if q < n as real {
      MultiplyMonotone(q, n as real, inc);
    }
    if q >= n as real + 1.0 {
      MultiplyMonotone(n as real + 1.0, q, inc);
    }
    assert q.Floor == n;
    assert BeatOffset(t, inc) == t - n as real * inc;
  }

  /** The offset repeats every beat. */
  lemma BeatOffsetPeriodic(t: real, inc: real)
    requires inc > 0.0
    ensures BeatOffset(t + inc, inc) == BeatOffset(t, inc)
  {
    var n := (t / inc).Floor;
    var r := BeatOffset(t, inc);
    var next: int := n + 1;
    assert next as real * inc == n as real * inc + inc;
    BeatOffsetOfRemainder(next, r, inc);
    assert next as real * inc + r == t + inc;
  }

  /** A flash timer ticking down one frame at a time. */
  function Countdown(timer: real): real {
    if timer > 0.0 then timer - 1.0 else timer
  }

  /** The beat test: the offset since the last beat is at most one frame's
      duration, 1/fps. */
  predicate OnBeat(inc: real, songTime: real, fps: real)
    requires inc > 0.0
  {
    AtMost(BeatOffset(songTime, inc), Divide(1.0, fps))
  }

  /** The pulse fires in BPM edit mode while the music plays, on the beat
      test for the song's beat length. */
  predicate PulseFires(bpmMode: bool, playing: bool, bpm: real, songTime: real, fps: real) {
    bpmMode && playing && OnBeat(TimeIncrement(bpm), songTime, fps)
  }

  /** The pulse flash timer after one update: counted down, then reset to
      five frames when the pulse fires. */
  function NextPulseTimer(timer: real, bpmMode: bool, playing: bool, bpm: real, songTime: real, fps: real): real {
    var counted := Countdown(timer);
    if PulseFires(bpmMode, playing, bpm, songTime, fps) then 5.0 else counted
  }

  /** The pulse timer, a whole number of frames, stays within 0 to 5 once it
      starts there: a pulse resets it to 5 and otherwise it counts down to
      0 and stays. */
  lemma PulseTimerInRange(timer: real, bpmMode: bool, playing: bool, bpm: real, songTime: real, fps: real)
    requires 0.0 <= timer <= 5.0 && timer == timer.Floor as real
    ensures var next := NextPulseTimer(timer, bpmMode, playing, bpm, songTime, fps);
      0.0 <= next <= 5.0 && next == next.Floor as real
  {
    if timer > 0.0 {
      assert timer >= 1.0;
      assert (timer - 1.0).Floor == timer.Floor - 1;
    }
  }

  /** For any beat length and a positive frame rate, the beat test passes
      at the song time n * inc + r (n whole beats plus r) exactly when r is
      at most one frame, the beat itself included. */
  lemma PulseOnBeat(inc: real, fps: real, n: int, r: real)
    requires inc > 0.0 && fps > 0.0
    requires 0.0 <= r < inc
    ensures OnBeat(inc, n as real * inc + r, fps) <==> r <= 1.0 / fps
  {
    BeatOffsetOfRemainder(n, r, inc);
  }

  /** Outside BPM mode, or with the music stopped, the timer only counts down. */
  lemma NoPulseWhenIdle(timer: real, bpmMode: bool, playing: bool, bpm: real, songTime: real, fps: real)
    requires !bpmMode || !playing
    ensures NextPulseTimer(timer, bpmMode, playing, bpm, songTime, fps) == Countdown(timer)
  {
  }

  /** With a frame rate of zero the threshold is +infinity: the pulse fires
      on every frame. */
  lemma PulseAtZeroFrameRate(timer: real, bpm: real, songTime: real)
    ensures NextPulseTimer(timer, true, true, bpm, songTime, 0.0) == 5.0
  {
  }
}
