/**
  The per-channel beat threshold of the rhythm game (`calculateThreshold` in
  AudioBeatGame.cpp). Beat strengths are reals; values below 1 are "no beat"
  sentinels and take no part in the mean. Floating-point rounding is not modelled.
*/
module Thresholds {

  /** A beat strength that counts towards the threshold. */
  predicate Qualifies(b: real) {
    b >= 1.0
  }

  /**
    The C++ `double` the threshold computation returns: the mean of the
    qualifying strengths, or NaN when there is none (0.0 / 0.0).
  */
  datatype Threshold = Mean(value: real) | NotANumber

  /** `strength < threshold` as a C++ comparison: always false against NaN. */
  predicate Below(strength: real, t: Threshold) {
    t.Mean? && strength < t.value
  }

  /** Sum of the qualifying strengths of `beats`. */
  function SumQualifying(beats: seq<real>): real
  {
    if |beats| == 0 then 0.0
    else SumQualifying(beats[..|beats| - 1])
         + (if Qualifies(beats[|beats| - 1]) then beats[|beats| - 1] else 0.0)
  }

  /** Number of qualifying strengths of `beats`. */
  function CountQualifying(beats: seq<real>): nat
  {
    if |beats| == 0 then 0
    else CountQualifying(beats[..|beats| - 1])
         + (if Qualifies(beats[|beats| - 1]) then 1 else 0)
  }

  /** The qualifying strengths of `beats`, in order. */
  function Filter(beats: seq<real>): (q: seq<real>)
    ensures |q| <= |beats|
    ensures forall i :: 0 <= i < |q| ==> Qualifies(q[i])
    ensures forall x :: multiset(q)[x] == if Qualifies(x) then multiset(beats)[x] else 0
  {
    if |beats| == 0 then []
    else
      var last := beats[|beats| - 1];
      LastSplit(beats);
      Filter(beats[..|beats| - 1]) + (if Qualifies(last) then [last] else [])
  }

  /** Plain sum of a sequence. */
  function Sum(s: seq<real>): real
  {
    if |s| == 0 then 0.0 else Sum(s[..|s| - 1]) + s[|s| - 1]
  }

  /** The sum of the qualifying entries is at least their count. */
  lemma {:induction false} SumAtLeastCount(beats: seq<real>)
    ensures SumQualifying(beats) >= CountQualifying(beats) as real
  {
    if |beats| > 0 {
      SumAtLeastCount(beats[..|beats| - 1]);
    }
  }

  /** The sum of the qualifying entries is at most their count times any bound on them. */
  lemma {:induction false} SumAtMostCountTimes(beats: seq<real>, m: real)
    requires forall i :: 0 <= i < |beats| && Qualifies(beats[i]) ==> beats[i] <= m
    ensures SumQualifying(beats) <= CountQualifying(beats) as real * m
  {
    if |beats| > 0 {
      SumAtMostCountTimes(beats[..|beats| - 1], m);
    }
  }

  /**
    The threshold of one channel: the mean of its strengths that are at
    least 1; NaN when no strength is at least 1. A mean lies in [1, max].
  */
  function CalculateThreshold(beats: seq<real>): (t: Threshold)
    ensures t.NotANumber? <==> CountQualifying(beats) == 0
    ensures t.NotANumber? <==> forall i :: 0 <= i < |beats| ==> !Qualifies(beats[i])
    ensures t.Mean? ==> t.value * CountQualifying(beats) as real == SumQualifying(beats)
    ensures t.Mean? ==> t.value >= 1.0
  {
    CountZeroIffNoneQualifies(beats);
    var n := CountQualifying(beats);
    if n == 0 then NotANumber
    else
      SumAtLeastCount(beats);
      Mean(SumQualifying(beats) / n as real)
  }

  /** No qualifying entry is exactly a zero count. */
  lemma {:induction false} CountZeroIffNoneQualifies(beats: seq<real>)
    ensures CountQualifying(beats) == 0 <==> forall i :: 0 <= i < |beats| ==> !Qualifies(beats[i])
  {
    if |beats| > 0 {
      var init := beats[..|beats| - 1];
      CountZeroIffNoneQualifies(init);
      assert forall i :: 0 <= i < |init| ==> init[i] == beats[i];
    }
  }

  /** A mean threshold never exceeds the largest qualifying strength. */
  lemma ThresholdAtMostMax(beats: seq<real>, m: real)
    requires forall i :: 0 <= i < |beats| && Qualifies(beats[i]) ==> beats[i] <= m
    ensures CalculateThreshold(beats).Mean? ==> CalculateThreshold(beats).value <= m
  {
    SumAtMostCountTimes(beats, m);
    var t := CalculateThreshold(beats);
    if t.Mean? {
      var n := CountQualifying(beats) as real;
      assert (t.value - m) * n == t.value * n - m * n <= 0.0;
      NonPositiveFactor(t.value - m, n);
    }
  }

  /** A product with a positive factor that is not positive has a non-positive other factor. */
  lemma NonPositiveFactor(a: real, n: real)
    requires n > 0.0 && a * n <= 0.0
    ensures a <= 0.0
  {
  }

  /** The qualifying sum and count are the sum and length of the filtered sequence. */
  lemma {:induction false} FilterAgrees(beats: seq<real>)
    ensures SumQualifying(beats) == Sum(Filter(beats))
    ensures CountQualifying(beats) == |Filter(beats)|
  {
    if |beats| > 0 {
      var init := beats[..|beats| - 1];
      var last := beats[|beats| - 1];
      FilterAgrees(init);
      if Qualifies(last) {
        var f := Filter(init) + [last];
        assert Filter(beats) == f;
        assert f[..|f| - 1] == Filter(init);
        assert f[|f| - 1] == last;
        assert Sum(f) == Sum(Filter(init)) + last;
        assert SumQualifying(beats) == SumQualifying(init) + last;
      } else {
        assert Filter(beats) == Filter(init);
      }
    }
  }

  /**
    The threshold is the arithmetic mean of the filtered sequence: entries
    below 1 are excluded from both the sum and the count.
  */
  lemma ThresholdIsMeanOfFiltered(beats: seq<real>)
    ensures |Filter(beats)| == 0 ==> CalculateThreshold(beats) == NotANumber
    ensures |Filter(beats)| > 0 ==>
      CalculateThreshold(beats) == Mean(Sum(Filter(beats)) / |Filter(beats)| as real)
  {
    FilterAgrees(beats);
  }

  /** A non-empty sequence is its front followed by its last entry. */
  lemma LastSplit(s: seq<real>)
    requires |s| > 0
    ensures s[..|s| - 1] + [s[|s| - 1]] == s
  {
  }

  /** Every entry qualifies: nothing is filtered out. */
  lemma {:induction false} FilterAllQualifying(beats: seq<real>)
    requires forall i :: 0 <= i < |beats| ==> Qualifies(beats[i])
    ensures Filter(beats) == beats
  {
    if |beats| > 0 {
      var init := beats[..|beats| - 1];
      assert forall i :: 0 <= i < |init| ==> Qualifies(init[i]) by {
        forall i | 0 <= i < |init| ensures Qualifies(init[i]) {
          assert init[i] == beats[i];
        }
      }
      FilterAllQualifying(init);
      LastSplit(beats);
    }
  }

  /** When every frame is a beat, the threshold is the plain mean of the series. */
  lemma ThresholdOfAllBeats(beats: seq<real>)
    requires |beats| > 0
    requires forall i :: 0 <= i < |beats| ==> Qualifies(beats[i])
    ensures CalculateThreshold(beats) == Mean(Sum(beats) / |beats| as real)
  {
    FilterAllQualifying(beats);
    ThresholdIsMeanOfFiltered(beats);
  }

  /** Filtering first does not change the threshold: sentinels are invisible to it. */
  lemma {:induction false} FilterIsInvisible(beats: seq<real>)
    ensures CalculateThreshold(Filter(beats)) == CalculateThreshold(beats)
  {
    FilterAgrees(beats);
    FilterAgrees(Filter(beats));
    FilterAllQualifying(Filter(beats));
  }

  /** The loop of the source, accumulating sum and count in one pass. */
  method ComputeThreshold(beats: seq<real>) returns (t: Threshold)
    ensures t == CalculateThreshold(beats)
  {
    var avg := 0.0;
    var size := 0;
    var i := 0;
    while i < |beats|
      invariant 0 <= i <= |beats|
      invariant avg == SumQualifying(beats[..i])
      invariant size == CountQualifying(beats[..i])
    {
      assert beats[..i + 1][..i] == beats[..i];
      if beats[i] < 1.0 {
      } else {
        avg := avg + beats[i];
        size := size + 1;
      }
      i := i + 1;
    }
    assert beats[..i] == beats;
    if size == 0 {
      t := NotANumber;
    } else {
      t := Mean(avg / size as real);
    }
  }

  /** Example: [0.5, 2.0, 3.0] has threshold 2.5, the 0.5 sentinel being skipped. */
  lemma ExampleThreshold()
    ensures CalculateThreshold([0.5, 2.0, 3.0]) == Mean(2.5)
  {
    var b := [0.5, 2.0, 3.0];
    assert b[..2] == [0.5, 2.0];
    assert b[..2][..1] == [0.5];
    assert [0.5][..0] == [];
    assert SumQualifying(b) == 5.0;
    assert CountQualifying(b) == 2;
  }
}
