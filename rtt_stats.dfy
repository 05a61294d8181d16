/** `summarize_rtts`: minimum, integer mean and maximum of the round-trip times
    of the successful probes of a ping run, all absent when there are none. */
module RttStats {
  import opened Wrappers
  import opened NetTypes

  function Sum(s: seq<U64>): nat
  {
    if s == [] then 0 else Sum(s[..|s| - 1]) + s[|s| - 1]
  }

  function Min(x: U64, y: U64): U64 { if x <= y then x else y }
  function Max(x: U64, y: U64): U64 { if x >= y then x else y }

  function SeqMin(s: seq<U64>): U64
    requires |s| > 0
  {
    if |s| == 1 then s[0] else Min(SeqMin(s[..|s| - 1]), s[|s| - 1])
  }

  function SeqMax(s: seq<U64>): U64
    requires |s| > 0
  {
    if |s| == 1 then s[0] else Max(SeqMax(s[..|s| - 1]), s[|s| - 1])
  }

  datatype Summary = Summary(min: Option<U64>, avg: Option<U64>, max: Option<U64>)

  /** The summary the drivers store in their `PingStat`. */
  function Summarize(s: seq<U64>): Summary
  {
    if s == [] then Summary(None, None, None)
    else
      MinLeMeanLeMax(s);
      Summary(Some(SeqMin(s)), Some(Sum(s) / |s|), Some(SeqMax(s)))
  }

  /** The minimum and the maximum are elements of the sequence and bound every element. */
  lemma {:induction false} MinMaxBound(s: seq<U64>)
    requires |s| > 0
    ensures SeqMin(s) in s && SeqMax(s) in s
    ensures forall x :: x in s ==> SeqMin(s) <= x <= SeqMax(s)
  {
    if |s| > 1 {
      var p := s[..|s| - 1];
      MinMaxBound(p);
      assert s == p + [s[|s| - 1]];
    }
  }

  lemma {:induction false} SumAtLeast(s: seq<U64>)
    requires |s| > 0
    ensures |s| * SeqMin(s) <= Sum(s)
  {
    if |s| > 1 {
      var p, x, m := s[..|s| - 1], s[|s| - 1], SeqMin(s);
      SumAtLeast(p);
      MulMonotone(|p|, m, SeqMin(p));
      MulSucc(|p|, m);
      assert Sum(s) == Sum(p) + x;
    }
  }

  lemma {:induction false} SumAtMost(s: seq<U64>)
    requires |s| > 0
    ensures Sum(s) <= |s| * SeqMax(s)
  {
    if |s| > 1 {
      var p, x, m := s[..|s| - 1], s[|s| - 1], SeqMax(s);
      SumAtMost(p);
      MulMonotone(|p|, SeqMax(p), m);
      MulSucc(|p|, m);
      assert Sum(s) == Sum(p) + x;
    }
  }

  lemma MulSucc(n: nat, m: nat)
    ensures (n + 1) * m == n * m + m
  {
  }

  lemma MulMonotone(n: nat, a: nat, b: nat)
    requires a <= b
    ensures n * a <= n * b
  {
  }

  lemma MulStep(n: nat, a: nat)
    ensures n * (a + 1) == n * a + n
  {
  }

  lemma DivBetween(total: nat, n: nat, lo: nat, hi: nat)
    requires n > 0 && n * lo <= total <= n * hi
    ensures lo <= total / n <= hi
  {
    var q, r := total / n, total % n;
    assert total == n * q + r && r < n;
    if q < lo {
      MulMonotone(n, q + 1, lo);
      MulStep(n, q);
      assert false;
    }
    if q > hi {
      MulMonotone(n, hi + 1, q);
      MulStep(n, hi);
      assert false;
    }
  }

  /** The integer mean lies between the minimum and the maximum. */
  lemma MinLeMeanLeMax(s: seq<U64>)
    requires |s| > 0
    ensures SeqMin(s) <= Sum(s) / |s| <= SeqMax(s)
  {
    SumAtLeast(s);
    SumAtMost(s);
    DivBetween(Sum(s), |s|, SeqMin(s), SeqMax(s));
  }

  lemma PrefixStep(s: seq<U64>, i: nat)
    requires i < |s|
    ensures Sum(s[..i + 1]) == Sum(s[..i]) + s[i]
    ensures i == 0 ==> SeqMin(s[..1]) == s[0] && SeqMax(s[..1]) == s[0]
    ensures i > 0 ==> SeqMin(s[..i + 1]) == Min(SeqMin(s[..i]), s[i])
    ensures i > 0 ==> SeqMax(s[..i + 1]) == Max(SeqMax(s[..i]), s[i])
  {
    assert s[..i + 1][..i] == s[..i];
  }

  /** The fold of `summarize_rtts`: the minimum starts at `u64::MAX`, the maximum
      at 0, the sum is accumulated in a wide integer and divided at the end. */
  method SummarizeRtts(rtts: seq<U64>) returns (r: Summary)
    ensures r == Summarize(rtts)
    ensures rtts == [] ==> r == Summary(None, None, None)
    ensures rtts != [] ==> r.min.Some? && r.avg.Some? && r.max.Some?
    ensures rtts != [] ==> r.min.value in rtts && r.max.value in rtts
    ensures rtts != [] ==> forall x :: x in rtts ==> r.min.value <= x <= r.max.value
    ensures rtts != [] ==> r.min.value <= r.avg.value <= r.max.value
    ensures rtts != [] ==> r.avg.value == Sum(rtts) / |rtts|
  {
    if rtts == [] {
      return Summary(None, None, None);
    }
    var min: U64 := U64_MAX;
    var max: U64 := 0;
    var sum: nat := 0;
    var i := 0;
    while i < |rtts|
      invariant 0 <= i <= |rtts|
      invariant i == 0 ==> min == U64_MAX && max == 0
      invariant i > 0 ==> min == SeqMin(rtts[..i]) && max == SeqMax(rtts[..i])
      invariant sum == Sum(rtts[..i])
    {
      var x := rtts[i];
      PrefixStep(rtts, i);
      if x < min { min := x; }
      if x > max { max := x; }
      sum := sum + x;
      i := i + 1;
    }
    assert rtts[..i] == rtts;
    MinMaxBound(rtts);
    MinLeMeanLeMax(rtts);
    r := Summary(Some(min), Some(sum / |rtts|), Some(max));
  }
}
