/** The stress runner's fixed-size latency histogram (benches/stress_support/histogram.rs). */
module Latencies {
  import opened Basics

  const BINS: nat := 65

  function BitWidth(n: nat): nat {
    if n == 0 then 0 else 1 + BitWidth(n / 2)
  }

  /** The bin of a sample: the bit width of one less than it. */
  function BinIndex(nanos: nat): nat {
    BitWidth(if nanos == 0 then 0 else nanos - 1)
  }

  /** The bound reported for a bin; the last one cannot be a power of two within u64. */
  function Upper(index: nat): nat {
    if index < 64 then Pow2(index) else U64_MAX
  }

  lemma {:induction false} BitWidthBounds(n: nat)
    ensures n < Pow2(BitWidth(n))
    ensures n > 0 ==> BitWidth(n) > 0 && Pow2(BitWidth(n) - 1) <= n
  {
    if n > 0 {
      BitWidthBounds(n / 2);
    }
  }

  lemma Pow2Of64()
    ensures Pow2(64) == U64_MAX + 1
  {
    assert Pow2(8) == 256;
    assert Pow2(16) == 65536 by { assert Pow2(12) == 4096; }
    assert Pow2(24) == 0x100_0000 by { assert Pow2(20) == 0x10_0000; }
    assert Pow2(32) == 0x1_0000_0000 by { assert Pow2(28) == 0x1000_0000; }
    assert Pow2(40) == 0x100_0000_0000 by { assert Pow2(36) == 0x10_0000_0000; }
    assert Pow2(48) == 0x1_0000_0000_0000 by { assert Pow2(44) == 0x1000_0000_0000; }
    assert Pow2(56) == 0x100_0000_0000_0000 by { assert Pow2(52) == 0x10_0000_0000_0000; }
    assert Pow2(60) == 0x1000_0000_0000_0000;
  }

  /** A bin holds exactly the samples its bound covers and the previous bound does not. */
  lemma BinIsBound(nanos: nat, index: nat)
    requires nanos <= U64_MAX && index < BINS
    ensures BinIndex(nanos) < BINS
    ensures BinIndex(nanos) <= index <==> nanos <= Upper(index)
  {
    Pow2Of64();
    var less := if nanos == 0 then 0 else nanos - 1;
    var width := BitWidth(less);
    BitWidthBounds(less);
    if width > 64 { Pow2Grows(64, width - 1); }
    if width <= index { Pow2Grows(width, index); } else { Pow2Grows(index, width - 1); }
  }

  /** What the histogram may report for a sample: not below it and less than twice it, or 1 for a zero sample. */
  predicate Approximates(reported: nat, sample: nat) {
    sample <= reported && if sample == 0 then reported == 1 else reported < 2 * sample
  }

  lemma BoundApproximates(nanos: nat)
    requires nanos <= U64_MAX
    ensures Approximates(Upper(BinIndex(nanos)), nanos)
  {
    BinIsBound(nanos, 64);
    BinIsBound(nanos, BinIndex(nanos));
    var less := if nanos == 0 then 0 else nanos - 1;
    BitWidthBounds(less);
    Pow2Of64();
  }

  // ----- ranks

  function CountLe(samples: seq<nat>, v: nat): nat {
    if samples == [] then 0 else (if samples[0] <= v then 1 else 0) + CountLe(samples[1..], v)
  }

  function CountLt(samples: seq<nat>, v: nat): nat {
    if v == 0 then 0 else CountLe(samples, v - 1)
  }

  /** The nearest-rank definition: `v` is the k-th smallest sample. */
  ghost predicate IsRank(samples: seq<nat>, k: nat, v: nat) {
    v in samples && CountLt(samples, v) < k <= CountLe(samples, v)
  }

  lemma {:induction false} CountLeGrows(samples: seq<nat>, a: nat, b: nat)
    requires a <= b
    ensures CountLe(samples, a) <= CountLe(samples, b) <= |samples|
  {
    if samples != [] { CountLeGrows(samples[1..], a, b); }
  }

  lemma RankIsUnique(samples: seq<nat>, k: nat, v: nat, w: nat)
    requires IsRank(samples, k, v) && IsRank(samples, k, w)
    ensures v == w
  {
    RankIsMonotone(samples, k, k, v, w);
    RankIsMonotone(samples, k, k, w, v);
  }

  lemma RankIsMonotone(samples: seq<nat>, k: nat, l: nat, v: nat, w: nat)
    requires k <= l && IsRank(samples, k, v) && IsRank(samples, l, w)
    ensures v <= w
  {
    if w < v { CountLeGrows(samples, w, v - 1); }
  }

  /** In a sorted sample list the k-th smallest sits at position k - 1. */
  lemma SortedRank(samples: seq<nat>, k: nat)
    requires forall i, j | 0 <= i < j < |samples| :: samples[i] <= samples[j]
    requires 1 <= k <= |samples|
    ensures IsRank(samples, k, samples[k - 1])
  {
    hide CountLe;
    var v := samples[k - 1];
    assert samples == samples[..k] + samples[k..];
    CountOfConcat(samples[..k], samples[k..], v);
    CountAll(samples[..k], v);
    if v > 0 {
      assert samples == samples[..k - 1] + samples[k - 1..];
      CountOfConcat(samples[..k - 1], samples[k - 1..], v - 1);
      CountNone(samples[k - 1..], v - 1);
      CountLeGrows(samples[..k - 1], v - 1, v - 1);
    }
  }

  lemma {:induction false} CountOfConcat(a: seq<nat>, b: seq<nat>, v: nat)
    ensures CountLe(a + b, v) == CountLe(a, v) + CountLe(b, v)
  {
    if a == [] {
      assert a + b == b;
    } else {
      assert (a + b)[1..] == a[1..] + b;
      CountOfConcat(a[1..], b, v);
    }
  }

  lemma {:induction false} CountAll(samples: seq<nat>, v: nat)
    requires forall i | 0 <= i < |samples| :: samples[i] <= v
    ensures CountLe(samples, v) == |samples|
  {
    if samples != [] { CountAll(samples[1..], v); }
  }

  lemma {:induction false} CountNone(samples: seq<nat>, v: nat)
    requires forall i | 0 <= i < |samples| :: samples[i] > v
    ensures CountLe(samples, v) == 0
  {
    if samples != [] { CountNone(samples[1..], v); }
  }

  lemma CountWithout(samples: seq<nat>, j: nat, v: nat)
    requires j < |samples|
    ensures var rest := samples[..j] + samples[j + 1..];
            && multiset(rest) == multiset(samples) - multiset{samples[j]}
            && CountLe(samples, v) == CountLe(rest, v) + if samples[j] <= v then 1 else 0
  {
    assert samples == samples[..j] + ([samples[j]] + samples[j + 1..]);
    CountOfConcat(samples[..j], [samples[j]] + samples[j + 1..], v);
    CountOfConcat([samples[j]], samples[j + 1..], v);
    CountOfConcat(samples[..j], samples[j + 1..], v);
  }

  lemma {:induction false} CountIgnoresOrder(samples: seq<nat>, shuffled: seq<nat>, v: nat)
    requires multiset(samples) == multiset(shuffled)
    ensures CountLe(samples, v) == CountLe(shuffled, v)
  {
    if samples == [] {
      assert |multiset(shuffled)| == 0;
    } else {
      assert samples[0] in multiset(shuffled);
      var j :| 0 <= j < |shuffled| && shuffled[j] == samples[0];
      CountWithout(shuffled, j, v);
      assert samples == [samples[0]] + samples[1..];
      assert multiset(samples[1..]) == multiset(samples) - multiset{samples[0]};
      CountIgnoresOrder(samples[1..], shuffled[..j] + shuffled[j + 1..], v);
    }
  }

  // ----- every rank is attained

  /** The greatest sample not above `v`, when `v` bounds at least one from above. */
  lemma {:induction false} GreatestUpTo(samples: seq<nat>, v: nat) returns (u: nat)
    requires CountLe(samples, v) > 0
    ensures u in samples && u <= v && CountLe(samples, u) == CountLe(samples, v)
    decreases |samples|, v
  {
    if v in samples {
      u := v;
    } else {
      SkipAbsent(samples, v);
      u := GreatestUpTo(samples, v - 1);
    }
  }

  lemma {:induction false} SkipAbsent(samples: seq<nat>, v: nat)
    requires v !in samples
    ensures v == 0 ==> CountLe(samples, v) == 0
    ensures v > 0 ==> CountLe(samples, v - 1) == CountLe(samples, v)
  {
    if samples != [] { SkipAbsent(samples[1..], v); }
  }

  lemma {:induction false} RankExistsBelow(samples: seq<nat>, k: nat, v: nat) returns (r: nat)
    requires 1 <= k <= CountLe(samples, v)
    ensures IsRank(samples, k, r)
    decreases v
  {
    var u := GreatestUpTo(samples, v);
    if CountLt(samples, u) < k {
      r := u;
    } else {
      r := RankExistsBelow(samples, k, u - 1);
    }
  }

  lemma {:induction false} SomeBound(samples: seq<nat>) returns (v: nat)
    ensures CountLe(samples, v) == |samples|
  {
    if samples == [] {
      v := 0;
    } else {
      var w := SomeBound(samples[1..]);
      v := if w < samples[0] then samples[0] else w;
      CountLeGrows(samples[1..], w, v);
    }
  }

  lemma RankExists(samples: seq<nat>, k: nat)
    requires 1 <= k <= |samples|
    ensures exists v :: IsRank(samples, k, v)
  {
    var bound := SomeBound(samples);
    var v := RankExistsBelow(samples, k, bound);
  }

  /** The exact percentile sample of a rank. */
  ghost function RankOf(samples: seq<nat>, k: nat): (v: nat)
    requires 1 <= k <= |samples|
    ensures IsRank(samples, k, v)
  {
    RankExists(samples, k);
    var v :| IsRank(samples, k, v);
    v
  }

  // ----- cumulative bins

  function CountIn(samples: seq<nat>, index: nat): nat {
    if samples == [] then 0 else (if BinIndex(samples[0]) == index then 1 else 0) + CountIn(samples[1..], index)
  }

  /** Samples in the first `n` bins. */
  function CountBelow(samples: seq<nat>, n: nat): nat {
    if n == 0 then 0 else CountBelow(samples, n - 1) + CountIn(samples, n - 1)
  }

  predicate AreNanos(samples: seq<nat>) {
    forall i | 0 <= i < |samples| :: samples[i] <= U64_MAX
  }

  lemma {:induction false} CountBelowTail(samples: seq<nat>, n: nat)
    requires samples != []
    ensures CountBelow(samples, n) == CountBelow(samples[1..], n) + if BinIndex(samples[0]) < n then 1 else 0
  {
    if n > 0 { CountBelowTail(samples, n - 1); }
  }

  lemma {:induction false} CountBelowEmpty(n: nat)
    ensures CountBelow([], n) == 0
  {
    if n > 0 { CountBelowEmpty(n - 1); }
  }

  lemma {:induction false} CumulativeIsCountLe(samples: seq<nat>, index: nat)
    requires AreNanos(samples) && index < BINS
    ensures CountBelow(samples, index + 1) == CountLe(samples, Upper(index))
  {
    if samples == [] {
      CountBelowEmpty(index + 1);
    } else {
      CumulativeIsCountLe(samples[1..], index);
      CountBelowTail(samples, index + 1);
      BinIsBound(samples[0], index);
    }
  }

  /** The first bin whose cumulative count reaches rank k is the bin of the k-th smallest sample. */
  lemma FirstReachingBin(samples: seq<nat>, k: nat, v: nat, index: nat)
    requires AreNanos(samples) && IsRank(samples, k, v) && index < BINS
    ensures CountBelow(samples, index + 1) >= k <==> BinIndex(v) <= index
  {
    CumulativeIsCountLe(samples, index);
    var i :| 0 <= i < |samples| && samples[i] == v;
    BinIsBound(v, index);
    if v <= Upper(index) {
      CountLeGrows(samples, v, Upper(index));
    } else {
      CountLeGrows(samples, Upper(index), v - 1);
    }
  }

  // ----- the percentile

  function CeilDiv100(n: nat): nat {
    (n + 99) / 100
  }

  /** The rank asked for, and the rank the code looks up after its product saturates. */
  function TrueRank(count: nat, percent: nat): nat {
    CeilDiv100(count * percent)
  }

  function Target(count: nat, percent: nat): nat {
    CeilDiv100(Clamp64(count * percent))
  }

  /** A count that has itself saturated gives the same target, because the product saturates as well. */
  lemma SaturatedCountKeepsTarget(count: nat, percent: nat)
    ensures CeilDiv100(Clamp64(Clamp64(count) * percent)) == Target(count, percent) <= U64_MAX
  {
    if count > U64_MAX && percent > 0 {
      ProductGrows(U64_MAX, 1, percent);
      ProductGrows(count, 1, percent);
    }
  }

  lemma TargetInRange(count: nat, percent: nat)
    requires 1 <= count && 1 <= percent <= 100
    ensures 1 <= Target(count, percent) <= TrueRank(count, percent) <= count
  {
  }

  /** What a histogram of these samples reports. */
  ghost function Reported(samples: seq<nat>, percent: nat): nat
    requires 1 <= percent <= 100
  {
    if samples == [] then 0
    else
      TargetInRange(|samples|, percent);
      Upper(BinIndex(RankOf(samples, Target(|samples|, percent))))
  }

  /**
   While the product of count and percentage fits u64, the report is at least the exact percentile and below twice it.
   */
  lemma PercentileApproximates(samples: seq<nat>, percent: nat)
    requires AreNanos(samples) && samples != [] && 1 <= percent <= 100
    requires |samples| * percent <= U64_MAX
    ensures 1 <= TrueRank(|samples|, percent) <= |samples|
    ensures Approximates(Reported(samples, percent), RankOf(samples, TrueRank(|samples|, percent)))
  {
    TargetInRange(|samples|, percent);
    BoundApproximates(RankOf(samples, TrueRank(|samples|, percent)));
  }

  ghost predicate AlwaysApproximates(count: nat, percent: nat)
    requires 1 <= count && 1 <= percent <= 100
  {
    TargetInRange(count, percent);
    forall samples: seq<nat> | |samples| == count && AreNanos(samples) ::
      Approximates(Reported(samples, percent), RankOf(samples, TrueRank(count, percent)))
  }

  /**
   For a given count and percentage the promise holds for all samples exactly when saturation leaves the rank alone.
   */
  lemma ApproximationNeedsTheRank(count: nat, percent: nat)
    requires 1 <= count && 1 <= percent <= 100
    ensures AlwaysApproximates(count, percent) <==> Target(count, percent) == TrueRank(count, percent)
  {
    TargetInRange(count, percent);
    var k, rank := Target(count, percent), TrueRank(count, percent);
    if k == rank {
      forall samples: seq<nat> | |samples| == count && AreNanos(samples)
        ensures Approximates(Reported(samples, percent), RankOf(samples, rank))
      {
        BoundApproximates(RankOf(samples, rank));
      }
    } else {
      var samples := seq(count, i => if i < k then 1 else 4);
      SortedRank(samples, k);
      SortedRank(samples, rank);
      RankIsUnique(samples, k, 1, RankOf(samples, k));
      RankIsUnique(samples, rank, 4, RankOf(samples, rank));
      assert Reported(samples, percent) == 1;
      assert AreNanos(samples) && !Approximates(Reported(samples, percent), RankOf(samples, rank));
    }
  }

  /** A count at which the promise fails: the product saturates and the looked-up rank falls short of the true one. */
  lemma SaturationLosesTheRank()
    ensures Target(U64_MAX, 100) < TrueRank(U64_MAX, 100)
    ensures !AlwaysApproximates(U64_MAX, 100)
  {
    ApproximationNeedsTheRank(U64_MAX, 100);
  }

  lemma TargetIsMonotone(count: nat, percent: nat, more: nat)
    requires percent <= more
    ensures Target(count, percent) <= Target(count, more)
  {
    ProductGrows(count, percent, more);
    CeilGrows(Clamp64(count * percent), Clamp64(count * more));
  }

  lemma ProductGrows(n: nat, a: nat, b: nat)
    requires a <= b
    ensures n * a <= n * b
  {
  }

  lemma CeilGrows(a: nat, b: nat)
    requires a <= b
    ensures CeilDiv100(a) <= CeilDiv100(b)
  {
  }

  lemma PercentileIsMonotone(samples: seq<nat>, percent: nat, more: nat)
    requires AreNanos(samples) && 1 <= percent <= more <= 100
    ensures Reported(samples, percent) <= Reported(samples, more)
  {
    if samples != [] {
      var n := |samples|;
      TargetInRange(n, percent);
      TargetInRange(n, more);
      TargetIsMonotone(n, percent, more);
      var k, l := Target(n, percent), Target(n, more);
      var v, w := RankOf(samples, k), RankOf(samples, l);
      RankIsMonotone(samples, k, l, v, w);
      BoundIsMonotone(v, w);
    }
  }

  lemma BoundIsMonotone(v: nat, w: nat)
    requires v <= w <= U64_MAX
    ensures Upper(BinIndex(v)) <= Upper(BinIndex(w))
  {
    BinIsBound(w, 64);
    BinIsBound(w, BinIndex(w));
    BinIsBound(v, BinIndex(w));
    Pow2Of64();
    if BinIndex(w) < 64 { Pow2Grows(BinIndex(v), BinIndex(w)); }
    else if BinIndex(v) < 64 { Pow2Grows(BinIndex(v), 63); }
  }

  /** The order samples were recorded in makes no difference. */
  lemma PercentileIgnoresOrder(samples: seq<nat>, shuffled: seq<nat>, percent: nat)
    requires multiset(samples) == multiset(shuffled) && 1 <= percent <= 100
    ensures Reported(samples, percent) == Reported(shuffled, percent)
  {
    assert |samples| == |multiset(samples)| == |multiset(shuffled)| == |shuffled|;
    if samples != [] {
      TargetInRange(|samples|, percent);
      var k := Target(|samples|, percent);
      var v := RankOf(samples, k);
      assert v in multiset(samples);
      CountIgnoresOrder(samples, shuffled, v);
      if v > 0 { CountIgnoresOrder(samples, shuffled, v - 1); }
      RankIsUnique(shuffled, k, v, RankOf(shuffled, k));
    }
  }

  /** Bins and counters are those of the samples recorded so far, forced into u64. */
  class Histogram {
    var bins: seq<nat>
    var count: nat
    var maxNs: nat

    ghost predicate Holds(samples: seq<nat>)
      reads this
    {
      && AreNanos(samples)
      && (bins == [] <==> samples == []) && (bins != [] ==> |bins| == BINS)
      && (forall i | 0 <= i < |bins| :: bins[i] == Clamp64(CountIn(samples, i)))
      && count == Clamp64(|samples|)
      && (forall i | 0 <= i < |samples| :: samples[i] <= maxNs)
      && (if samples == [] then maxNs == 0 else maxNs in samples)
    }

    constructor ()
      ensures Holds([])
    {
      bins, count, maxNs := [], 0, 0;
    }

    method Record(elapsed: nat, ghost samples: seq<nat>)
      requires Holds(samples)
      modifies this
      ensures Holds(samples + [Clamp64(elapsed)])
    {
      if bins == [] {
        bins := seq(BINS, i => 0);
      }
      var nanos := Clamp64(elapsed);
      BinIsBound(nanos, 64);
      var index := BinIndex(nanos);
      forall i | 0 <= i < BINS
        ensures CountIn(samples + [nanos], i) == CountIn(samples, i) + if i == index then 1 else 0
      {
        CountInAppend(samples, nanos, i);
      }
      bins := bins[index := Clamp64(bins[index] + 1)];
      count := Clamp64(count + 1);
      maxNs := if nanos > maxNs then nanos else maxNs;
    }

    /**
     The answer is the bound of the bin that holds the sample of the target rank. A percentage of at most 100
     always finds one, so the maximum is never the answer then.
     */
    method PercentileUpperNs(percent: nat, ghost samples: seq<nat>) returns (upper: nat)
      requires Holds(samples)
      ensures Target(|samples|, percent) == 0 ==> upper == 0
      ensures forall v | IsRank(samples, Target(|samples|, percent), v) :: upper == Upper(BinIndex(v))
      ensures 1 <= percent <= 100 ==> upper == Reported(samples, percent)
      ensures Target(|samples|, percent) > |samples| ==> upper == maxNs
    {
      if 1 <= percent <= 100 && samples != [] { TargetInRange(|samples|, percent); }
      SaturatedCountKeepsTarget(|samples|, percent);
      var target := CeilDiv100(Clamp64(count * percent));
      if target == 0 {
        return 0;
      }
      var seen := 0;
      for index := 0 to |bins|
        invariant seen == Clamp64(CountBelow(samples, index)) < target
      {
        CountBelowBound(samples, index + 1);
        seen := Clamp64(seen + bins[index]);
        if seen >= target {
          forall v | IsRank(samples, target, v) ensures BinIndex(v) == index {
            FirstReachingBin(samples, target, v, index);
            if index > 0 { FirstReachingBin(samples, target, v, index - 1); }
          }
          return if index < 64 then Pow2(index) else U64_MAX;
        }
      }
      forall v | IsRank(samples, target, v) ensures false {
        FirstReachingBin(samples, target, v, 64);
        BinIsBound(v, 64);
      }
      upper := maxNs;
    }
  }

  lemma {:induction false} CountInAppend(samples: seq<nat>, v: nat, index: nat)
    ensures CountIn(samples + [v], index) == CountIn(samples, index) + if BinIndex(v) == index then 1 else 0
  {
    if samples == [] {
      assert samples + [v] == [v] && [v][1..] == [];
    } else {
      assert (samples + [v])[1..] == samples[1..] + [v];
      CountInAppend(samples[1..], v, index);
    }
  }

  lemma {:induction false} CountBelowBound(samples: seq<nat>, n: nat)
    ensures CountBelow(samples, n) <= |samples|
  {
    if samples == [] {
      CountBelowEmpty(n);
    } else {
      CountBelowTail(samples, n);
      CountBelowBound(samples[1..], n);
    }
  }
}
