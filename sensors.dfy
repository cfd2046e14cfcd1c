/** The presence gate: each ultrasonic sensor is read five times and the
    readings averaged (`stableReadUltrasonic`), and a player counts as present
    when either average lies strictly between 0 and the detection distance
    (`isPersonDetected`). A single reading is an abstract non-negative distance
    in centimetres; 0 is what a timed-out echo yields. */
module Sensors {

  const SampleCount: nat := 5
  const DetectDistance: int := 10

  function Sum(samples: seq<nat>): nat {
    if samples == [] then 0 else Sum(samples[..|samples| - 1]) + samples[|samples| - 1]
  }

  /** The truncated integer mean of the five readings (`sum / count` on a
      non-negative `long`). */
  function Average(samples: seq<nat>): (d: nat)
    requires |samples| == SampleCount
    ensures d * SampleCount <= Sum(samples) < (d + 1) * SampleCount
  {
    Sum(samples) / SampleCount
  }

  /** Accumulates the readings in a loop, as the firmware does. */
  method StableRead(samples: seq<nat>) returns (distance: int)
    requires |samples| == SampleCount
    ensures distance == Average(samples)
  {
    var sum := 0;
    var count := SampleCount;
    for i := 0 to count
      invariant sum == Sum(samples[..i])
    {
      assert samples[..i + 1][..i] == samples[..i];
      sum := sum + samples[i];
    }
    assert samples[..count] == samples;
    distance := sum / count;
  }

  predicate InRange(distance: int) {
    0 < distance < DetectDistance
  }

  predicate IsPersonDetected(dist1: int, dist2: int) {
    InRange(dist1) || InRange(dist2)
  }

  method DetectPresence(samples1: seq<nat>, samples2: seq<nat>) returns (present: bool)
    requires |samples1| == SampleCount && |samples2| == SampleCount
    ensures present <==> IsPersonDetected(Average(samples1), Average(samples2))
  {
    var dist1 := StableRead(samples1);
    var dist2 := StableRead(samples2);
    present := (dist1 > 0 && dist1 < DetectDistance) || (dist2 > 0 && dist2 < DetectDistance);
  }

  lemma {:induction false} SumAtLeast(samples: seq<nat>, lo: nat)
    requires forall i :: 0 <= i < |samples| ==> lo <= samples[i]
    ensures lo * |samples| <= Sum(samples)
  {
    if samples != [] {
      SumAtLeast(samples[..|samples| - 1], lo);
    }
  }

  lemma {:induction false} SumAtMost(samples: seq<nat>, hi: nat)
    requires forall i :: 0 <= i < |samples| ==> samples[i] <= hi
    ensures Sum(samples) <= hi * |samples|
  {
    if samples != [] {
      SumAtMost(samples[..|samples| - 1], hi);
    }
  }

  /** When every reading lies in [lo, hi], so does the average. */
  lemma AverageBounds(samples: seq<nat>, lo: nat, hi: nat)
    requires |samples| == SampleCount
    requires forall i :: 0 <= i < |samples| ==> lo <= samples[i] <= hi
    ensures lo <= Average(samples) <= hi
  {
    SumAtLeast(samples, lo);
    SumAtMost(samples, hi);
  }

  /** Two sensors that both time out (every reading 0) detect nobody. */
  lemma TimeoutsMeanAbsent(samples1: seq<nat>, samples2: seq<nat>)
    requires |samples1| == SampleCount && |samples2| == SampleCount
    requires forall i :: 0 <= i < SampleCount ==> samples1[i] == 0 && samples2[i] == 0
    ensures !IsPersonDetected(Average(samples1), Average(samples2))
  {
    AverageBounds(samples1, 0, 0);
    AverageBounds(samples2, 0, 0);
  }

  /** Readings all at or beyond the detection distance detect nobody. */
  lemma FarReadingsMeanAbsent(samples1: seq<nat>, samples2: seq<nat>)
    requires |samples1| == SampleCount && |samples2| == SampleCount
    requires forall i :: 0 <= i < SampleCount ==> samples1[i] >= DetectDistance && samples2[i] >= DetectDistance
    ensures !IsPersonDetected(Average(samples1), Average(samples2))
  {
    SumAtLeast(samples1, DetectDistance as nat);
    SumAtLeast(samples2, DetectDistance as nat);
  }

  /** One sensor whose five readings all lie in (0, 10) is enough. */
  lemma NearReadingsMeanPresent(samples1: seq<nat>, samples2: seq<nat>)
    requires |samples1| == SampleCount && |samples2| == SampleCount
    requires forall i :: 0 <= i < SampleCount ==> InRange(samples1[i])
    ensures IsPersonDetected(Average(samples1), Average(samples2))
  {
    AverageBounds(samples1, 1, (DetectDistance - 1) as nat);
  }
}
