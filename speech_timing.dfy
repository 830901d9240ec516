/** Timing features of a final transcription: speech rate and pause
    frequency, derived from the segments' start times and durations. */
module SpeechTiming {

  /** One recognised segment: start time and duration, in seconds. */
  datatype Segment = Segment(timestamp: real, duration: real)

  /** A gap between adjacent segments counts as a pause only above this. */
  const PauseThreshold: real := 0.5

  /** Lower bound on the analysed duration, in minutes. */
  const MinMinutes: real := 0.01

  /** Silence between the end of `current` and the start of `next`. */
  function Gap(current: Segment, next: Segment): real {
    next.timestamp - (current.timestamp + current.duration)
  }

  predicate IsPause(current: Segment, next: Segment) {
    Gap(current, next) > PauseThreshold
  }

  /** The gap after segment i. */
  function GapAfter(segments: seq<Segment>, i: int): real
    requires 0 <= i < |segments| - 1
  {
    Gap(segments[i], segments[i + 1])
  }

  /** Whether the pair (segments[i], segments[i + 1]) is a pause. */
  predicate PauseAfter(segments: seq<Segment>, i: int)
    requires 0 <= i < |segments| - 1
  {
    IsPause(segments[i], segments[i + 1])
  }

  /** Number of adjacent pairs that are pauses, counted left to right;
      a list of n >= 1 segments has n - 1 pairs. */
  function Pauses(segments: seq<Segment>): (n: nat)
    ensures n <= if |segments| == 0 then 0 else |segments| - 1
  {
    if |segments| < 2 then 0
    else
      Pauses(segments[..|segments| - 1]) +
      (if IsPause(segments[|segments| - 2], segments[|segments| - 1]) then 1 else 0)
  }

  /** Indices i of the pairs (segments[i], segments[i + 1]) that are pauses. */
  ghost function PauseIndices(segments: seq<Segment>): set<int> {
    set i | 0 <= i < |segments| - 1 && PauseAfter(segments, i)
  }

  /** The pause count is exactly the number of adjacent pairs whose gap
      strictly exceeds the threshold. */
  lemma {:induction false} PausesCountsPausePairs(segments: seq<Segment>)
    ensures Pauses(segments) == |PauseIndices(segments)|
  {
    var n := |segments|;
    if n < 2 {
      assert PauseIndices(segments) == {};
    } else {
      var prefix := segments[..n - 1];
      PausesCountsPausePairs(prefix);
      PauseIndicesOfExtension(segments);
      var last := if PauseAfter(segments, n - 2) then {n - 2} else {};
      assert |PauseIndices(prefix) + last| == |PauseIndices(prefix)| + |last|;
    }
  }

  /** Adding a segment adds at most the new last pair to the pause indices. */
  lemma PauseIndicesOfExtension(segments: seq<Segment>)
    requires |segments| >= 2
    ensures var n := |segments|;
            PauseIndices(segments) ==
            PauseIndices(segments[..n - 1]) + (if PauseAfter(segments, n - 2) then {n - 2} else {})
    ensures |segments| - 2 !in PauseIndices(segments[..|segments| - 1])
  {
    var n, prefix := |segments|, segments[..|segments| - 1];
    forall i | 0 <= i < n - 2
      ensures PauseAfter(prefix, i) == PauseAfter(segments, i)
    {
      assert prefix[i] == segments[i] && prefix[i + 1] == segments[i + 1];
    }
  }

  /** Gaps of at most the threshold (exactly 0.5 s, or negative overlaps)
      never count: if no gap exceeds it there are no pauses. */
  lemma {:induction false} NoPausesWithoutLongGap(segments: seq<Segment>)
    requires forall i :: 0 <= i < |segments| - 1 ==> GapAfter(segments, i) <= PauseThreshold
    ensures Pauses(segments) == 0
  {
    if |segments| >= 2 {
      var prefix := segments[..|segments| - 1];
      assert forall i :: 0 <= i < |prefix| - 1 ==> GapAfter(prefix, i) == GapAfter(segments, i);
      NoPausesWithoutLongGap(prefix);
      assert GapAfter(segments, |segments| - 2) <= PauseThreshold;
    }
  }

  /** The pause count reaches its bound n - 1 exactly when every gap is a pause. */
  lemma {:induction false} AllPairsPauses(segments: seq<Segment>)
    requires |segments| >= 1
    ensures Pauses(segments) == |segments| - 1 <==>
            forall i :: 0 <= i < |segments| - 1 ==> PauseAfter(segments, i)
  {
    if |segments| >= 2 {
      var prefix := segments[..|segments| - 1];
      assert forall i :: 0 <= i < |prefix| - 1 ==> PauseAfter(prefix, i) == PauseAfter(segments, i);
      AllPairsPauses(prefix);
      assert PauseAfter(segments, |segments| - 2) == IsPause(segments[|segments| - 2], segments[|segments| - 1]);
    }
  }

  /** The pause-counting loop of the recognition callback. The source
      builds the range 0 ..< count - 1, which traps on an empty list. */
  method CountPauses(segments: seq<Segment>) returns (pauseCount: nat)
    requires |segments| >= 1
    ensures pauseCount == Pauses(segments)
  {
    pauseCount := 0;
    var i := 0;
    while i < |segments| - 1
      invariant 0 <= i <= |segments| - 1
      invariant pauseCount == Pauses(segments[..i + 1])
    {
      assert segments[..i + 2][..i + 1] == segments[..i + 1];
      var endCurrent := segments[i].timestamp + segments[i].duration;
      var startNext := segments[i + 1].timestamp;
      if startNext - endCurrent > 0.5 {
        pauseCount := pauseCount + 1;
      }
      i := i + 1;
    }
    assert segments[..|segments|] == segments;
  }

  /** The duration the analyzer uses. In the source `??` binds looser than
      `+`, so this is the last segment's timestamp alone; the fallback
      `0 + 0` applies to an empty list. */
  function Duration(segments: seq<Segment>): real {
    if |segments| == 0 then 0.0 + 0.0 else segments[|segments| - 1].timestamp
  }

  /** The duration in minutes, floored at 0.01 minutes. */
  function Minutes(segments: seq<Segment>): (m: real)
    ensures m >= MinMinutes && m >= Duration(segments) / 60.0
    ensures m == MinMinutes || m == Duration(segments) / 60.0
  {
    if Duration(segments) / 60.0 > MinMinutes then Duration(segments) / 60.0 else MinMinutes
  }

  /** Segments per minute, the source's stand-in for words per minute. */
  function SpeechRate(segments: seq<Segment>): (rate: real)
    ensures rate * Minutes(segments) == |segments| as real
    ensures 0.0 <= rate <= 100.0 * |segments| as real
  {
    |segments| as real / Minutes(segments)
  }

  /** Pauses per minute. */
  function PauseFrequency(segments: seq<Segment>): (freq: real)
    ensures freq * Minutes(segments) == Pauses(segments) as real
    ensures 0.0 <= freq <= 100.0 * Pauses(segments) as real
  {
    Pauses(segments) as real / Minutes(segments)
  }

  /** The timing features handed to the classifier. */
  datatype TimingFeatures = TimingFeatures(speechRate: real, pauseFrequency: real, segmentCount: nat)

  /** The timing part of the recognition callback, for a non-empty
      segment list (the source traps on an empty one). */
  function Timing(segments: seq<Segment>): (t: TimingFeatures)
    requires |segments| >= 1
    ensures t.segmentCount == |segments|
    ensures 0.0 <= t.speechRate && 0.0 <= t.pauseFrequency
    ensures t.pauseFrequency <= t.speechRate
  {
    QuotientMonotone(Pauses(segments) as real, |segments| as real, Minutes(segments));
    TimingFeatures(SpeechRate(segments), PauseFrequency(segments), |segments|)
  }

  /** Dividing by the same positive amount keeps the order. */
  lemma QuotientMonotone(a: real, b: real, m: real)
    requires a <= b && m > 0.0
    ensures a / m <= b / m
  {
    var d := b / m - a / m;
    assert d * m == b - a;
  }

  /** The callback's computation as the source performs it, with the
      pause loop; it agrees with the specification `Timing`. */
  method ComputeTiming(segments: seq<Segment>) returns (t: TimingFeatures)
    requires |segments| >= 1
    ensures t == Timing(segments)
  {
    var duration := segments[|segments| - 1].timestamp;
    var durationInMinutes := if duration / 60.0 > 0.01 then duration / 60.0 else 0.01;
    var wpm := |segments| as real / durationInMinutes;
    var pauseCount := CountPauses(segments);
    var pausesPerMinute := pauseCount as real / durationInMinutes;
    t := TimingFeatures(wpm, pausesPerMinute, |segments|);
  }

  /** The last segment's duration has no influence on any timing feature. */
  lemma LastDurationIgnored(segments: seq<Segment>, d: real)
    requires |segments| >= 1
    ensures var changed := segments[|segments| - 1 := Segment(segments[|segments| - 1].timestamp, d)];
            Timing(changed) == Timing(segments)
  {
    var n := |segments|;
    var changed := segments[n - 1 := Segment(segments[n - 1].timestamp, d)];
    if n >= 2 {
      assert changed[..n - 1] == segments[..n - 1];
    }
  }
}
