/** Log2 latency histograms: the shift cascade that picks a slot, the percentile and maximum loops
    over the slots, and how far the bucketed answer can be from the true one. */
module LogHistogram {

  import opened Common

  const IO_SLOTS := 40
  /** Also the number of slots of the system-call histograms. */
  const LOCK_SLOTS := 48

  function Pow2(n: nat): (p: nat)
    ensures p > 0
  {
    if n == 0 then 1 else 2 * Pow2(n - 1)
  }

  lemma {:induction false} Pow2Add(a: nat, b: nat)
    ensures Pow2(a + b) == Pow2(a) * Pow2(b)
  {
    if a > 0 {
      Pow2Add(a - 1, b);
      DoubleProduct(Pow2(a - 1), Pow2(b));
    }
  }

  lemma DoubleProduct(x: nat, y: nat)
    ensures 2 * (x * y) == 2 * x * y
  {
  }

  lemma {:induction false} Pow2Monotone(a: nat, b: nat)
    requires a <= b
    ensures Pow2(a) <= Pow2(b)
    decreases b
  {
    if a < b { Pow2Monotone(a, b - 1); }
  }

  /** `slot` is floor(log2(ns)), with 0 for 0. */
  ghost predicate IsLog2(ns: nat, slot: nat) {
    (ns == 0 ==> slot == 0) && (ns > 0 ==> Pow2(slot) <= ns < Pow2(slot + 1))
  }

  lemma Log2Unique(ns: nat, a: nat, b: nat)
    requires IsLog2(ns, a) && IsLog2(ns, b)
    ensures a == b
  {
    if a < b { Pow2Monotone(a + 1, b); }
    if b < a { Pow2Monotone(b + 1, a); }
  }

  /** floor(log2(ns)), as a function. */
  function Log2(ns: nat): (slot: nat)
    ensures IsLog2(ns, slot)
  {
    if ns < 2 then 0 else Log2(ns / 2) + 1
  }

  /** `v >> bits`: drop the lowest bit, `bits` times. */
  function Shr(v: nat, bits: nat): nat {
    if bits == 0 then v else Shr(v / 2, bits - 1)
  }

  lemma {:induction false} ShrLog2(v: nat, bits: nat)
    requires bits > 0
    ensures if Shr(v, bits) != 0 then Log2(v) == bits + Log2(Shr(v, bits)) else Log2(v) < bits
  {
    if bits == 1 {
      assert Shr(v, 1) == Shr(v / 2, 0) == v / 2;
    } else {
      ShrLog2(v / 2, bits - 1);
      assert Shr(v, bits) == Shr(v / 2, bits - 1);
    }
  }

  /** One stage `if (v >> bits) { v >>= bits; slot += bits; }` of the cascade. */
  method Stage(v: nat, slot: nat, bits: nat) returns (v': nat, slot': nat)
    requires 0 < bits && Log2(v) < 2 * bits
    ensures slot' + Log2(v') == slot + Log2(v) && Log2(v') < bits
  {
    v', slot' := v, slot;
    ShrLog2(v, bits);
    if Shr(v, bits) != 0 {
      v', slot' := Shr(v, bits), slot + bits;
    }
  }

  lemma Log2Below(v: nat, bits: nat)
    requires v < Pow2(bits) && bits > 0
    ensures Log2(v) < bits
  {
    if Log2(v) >= bits { Pow2Monotone(bits, Log2(v)); }
  }

  lemma Squared(n: nat, m: nat, v: nat)
    requires m == n + n && Pow2(n) == v
    ensures Pow2(m) == v * v
  {
    Pow2Add(n, n);
  }

  lemma Pow2Of64()
    ensures Pow2(64) == UINT64
  {
    assert Pow2(4) == 16;
    Squared(4, 8, 16);
    Squared(8, 16, 0x100);
    Squared(16, 32, 0x1_0000);
    Squared(32, 64, 0x1_0000_0000);
  }

  /** The shared cascade of `latency_slot` and `log2_u64` on a 64-bit value: it computes floor(log2). */
  method Log2U64(ns: nat) returns (slot: nat)
    requires ns < UINT64
    ensures IsLog2(ns, slot) && slot < 64
  {
    var value := ns;
    slot := 0;
    Pow2Of64();
    Log2Below(ns, 64);
    value, slot := Stage(value, slot, 32);
    value, slot := Stage(value, slot, 16);
    value, slot := Stage(value, slot, 8);
    value, slot := Stage(value, slot, 4);
    value, slot := Stage(value, slot, 2);
    value, slot := Stage(value, slot, 1);
    assert slot == Log2(ns);
  }

  /** The histogram slot of a latency: the last slot also takes everything above it. */
  function SlotOf(ns: nat, nslots: nat): nat
    requires nslots > 0
  {
    if Log2(ns) >= nslots then nslots - 1 else Log2(ns)
  }

  method LatencySlot(ns: nat, nslots: nat) returns (slot: nat)
    requires ns < UINT64 && nslots > 0
    ensures slot == SlotOf(ns, nslots)
  {
    slot := Log2U64(ns);
    Log2Unique(ns, slot, Log2(ns));
    if slot >= nslots {
      slot := nslots - 1;
    }
  }

  lemma SlotMonotone(a: nat, b: nat, nslots: nat)
    requires a <= b && nslots > 0
    ensures SlotOf(a, nslots) <= SlotOf(b, nslots)
  {
    if Log2(b) < Log2(a) {
      Pow2Monotone(Log2(b) + 1, Log2(a));
    }
  }

  /** 2^(slot+1) - 1: the largest latency of the slot. */
  function BucketUpper(slot: nat): nat {
    Pow2(slot + 1) - 1
  }

  // ------------------------------------------------------------------ slots of a latency multiset

  /** How many of the latencies satisfy `p`. */
  ghost function Count(lats: seq<nat>, p: nat -> bool): nat {
    if lats == [] then 0 else Count(lats[1..], p) + if p(lats[0]) then 1 else 0
  }

  lemma {:induction false} CountImplies(lats: seq<nat>, p: nat -> bool, q: nat -> bool)
    requires forall x :: x in lats && p(x) ==> q(x)
    ensures Count(lats, p) <= Count(lats, q)
  {
    if lats != [] { CountImplies(lats[1..], p, q); }
  }

  lemma {:induction false} CountDisjoint(lats: seq<nat>, p: nat -> bool, q: nat -> bool, r: nat -> bool)
    requires forall x :: x in lats ==> (r(x) <==> p(x) || q(x)) && !(p(x) && q(x))
    ensures Count(lats, r) == Count(lats, p) + Count(lats, q)
  {
    if lats != [] { CountDisjoint(lats[1..], p, q, r); }
  }

  lemma {:induction false} CountAll(lats: seq<nat>, p: nat -> bool)
    requires forall x :: x in lats ==> p(x)
    ensures Count(lats, p) == |lats|
  {
    if lats != [] { CountAll(lats[1..], p); }
  }

  lemma {:induction false} CountNone(lats: seq<nat>, p: nat -> bool)
    requires forall x :: x in lats ==> !p(x)
    ensures Count(lats, p) == 0
  {
    if lats != [] { CountNone(lats[1..], p); }
  }

  lemma {:induction false} CountSome(lats: seq<nat>, p: nat -> bool, v: nat)
    requires v in lats && p(v)
    ensures Count(lats, p) > 0
  {
    if lats[0] != v { CountSome(lats[1..], p, v); }
  }

  lemma {:induction false} CountConcat(a: seq<nat>, b: seq<nat>, p: nat -> bool)
    ensures Count(a + b, p) == Count(a, p) + Count(b, p)
  {
    if a == [] {
      assert a + b == b;
    } else {
      assert (a + b)[1..] == a[1..] + b;
      CountConcat(a[1..], b, p);
    }
  }

  ghost function AtMost(v: nat): nat -> bool {
    (x: nat) => x <= v
  }

  ghost function Below(v: nat): nat -> bool {
    (x: nat) => x < v
  }

  ghost function InSlot(nslots: nat, i: int): nat -> bool
    requires nslots > 0
  {
    (x: nat) => SlotOf(x, nslots) == i
  }

  ghost function UpToSlot(nslots: nat, i: int): nat -> bool
    requires nslots > 0
  {
    (x: nat) => SlotOf(x, nslots) < i
  }

  /** The slots are the histogram of the latencies. */
  ghost predicate IsHistogram(slots: seq<nat>, lats: seq<nat>) {
    |slots| > 0 && forall i :: 0 <= i < |slots| ==> slots[i] == Count(lats, InSlot(|slots|, i))
  }

  ghost function SumTo(slots: seq<nat>, n: nat): nat
    requires n <= |slots|
  {
    if n == 0 then 0 else SumTo(slots, n - 1) + slots[n - 1]
  }

  lemma {:induction false} SumToUpdate(slots: seq<nat>, i: nat, v: nat, n: nat)
    requires i < |slots| && n <= |slots|
    ensures SumTo(slots[i := v], n) == SumTo(slots, n) + if i < n then v - slots[i] else 0
  {
    if n > 0 { SumToUpdate(slots, i, v, n - 1); }
  }

  lemma {:induction false} CumulativeCount(slots: seq<nat>, lats: seq<nat>, n: nat)
    requires IsHistogram(slots, lats) && n <= |slots|
    ensures SumTo(slots, n) == Count(lats, UpToSlot(|slots|, n))
  {
    if n == 0 {
      CountNone(lats, UpToSlot(|slots|, 0));
    } else {
      CumulativeCount(slots, lats, n - 1);
      CountDisjoint(lats, UpToSlot(|slots|, n - 1), InSlot(|slots|, n - 1), UpToSlot(|slots|, n));
    }
  }

  lemma HistogramTotal(slots: seq<nat>, lats: seq<nat>)
    requires IsHistogram(slots, lats)
    ensures SumTo(slots, |slots|) == |lats|
  {
    CumulativeCount(slots, lats, |slots|);
    CountAll(lats, UpToSlot(|slots|, |slots|));
  }

  /** Slot-wise differences of two snapshots. */
  function SaturatingDeltas(cur: seq<nat>, prev: seq<nat>): seq<nat>
    requires |cur| == |prev|
  {
    seq(|cur|, i requires 0 <= i < |cur| => Saturating(cur[i], prev[i]))
  }

  function CounterDeltas(cur: seq<nat>, prev: seq<nat>): seq<nat>
    requires |cur| == |prev|
  {
    seq(|cur|, i requires 0 <= i < |cur| => CounterDelta(cur[i], prev[i]))
  }

  /** A window's latencies are those added after the previous snapshot, and the slot-wise difference
      of two cumulative snapshots is their histogram. */
  lemma WindowHistogram(cur: seq<nat>, prev: seq<nat>, old_: seq<nat>, window: seq<nat>)
    requires IsHistogram(prev, old_) && IsHistogram(cur, old_ + window) && |cur| == |prev|
    ensures forall i :: 0 <= i < |cur| ==> cur[i] >= prev[i]
    ensures IsHistogram(SaturatingDeltas(cur, prev), window) && CounterDeltas(cur, prev) == SaturatingDeltas(cur, prev)
  {
    forall i | 0 <= i < |cur|
      ensures cur[i] >= prev[i] && cur[i] - prev[i] == Count(window, InSlot(|cur|, i))
    {
      CountConcat(old_, window, InSlot(|cur|, i));
    }
  }

  // ------------------------------------------------------------------ percentile

  /** ceil(total * percentile / 100) as 64-bit arithmetic computes it. */
  function Target(total: nat, percentile: nat): nat {
    (total * percentile % UINT64 + 99) % UINT64 / 100
  }

  /** `v` is the nearest-rank percentile: the `rank`-th smallest of the latencies. */
  ghost predicate IsNearestRank(lats: seq<nat>, rank: nat, v: nat) {
    && v in lats
    && Count(lats, AtMost(v)) >= rank
    && Count(lats, Below(v)) < rank
  }

  lemma NearestRankUnique(lats: seq<nat>, rank: nat, v: nat, w: nat)
    requires IsNearestRank(lats, rank, v) && IsNearestRank(lats, rank, w)
    ensures v == w
  {
    if v < w { CountImplies(lats, AtMost(v), Below(w)); }
    if w < v { CountImplies(lats, AtMost(w), Below(v)); }
  }

  /** Every rank between 1 and the number of latencies has its nearest-rank value. */
  lemma {:induction false} NearestRankExists(lats: seq<nat>, rank: nat, high: nat) returns (v: nat)
    requires 1 <= rank <= Count(lats, AtMost(high))
    ensures IsNearestRank(lats, rank, v)
    decreases high
  {
    if high > 0 && Count(lats, AtMost(high - 1)) >= rank {
      v := NearestRankExists(lats, rank, high - 1);
    } else {
      v := high;
      if high == 0 {
        CountNone(lats, Below(0));
      } else {
        CountImplies(lats, Below(high), AtMost(high - 1));
      }
      if high !in lats {
        CountImplies(lats, AtMost(high), Below(high));
      }
    }
  }

  /** The slot the loop answers with: the first one, from `i` on, at which the running sum reaches the
      target, or the last slot if none does. */
  ghost function FirstReaching(slots: seq<nat>, target: nat, i: nat): nat
    requires i < |slots|
    decreases |slots| - i
  {
    if i + 1 == |slots| || SumTo(slots, i + 1) >= target then i else FirstReaching(slots, target, i + 1)
  }

  lemma {:induction false} FirstReachingIs(slots: seq<nat>, target: nat, i: nat, k: nat)
    requires i <= k < |slots|
    requires SumTo(slots, k + 1) >= target && forall j :: i < j <= k ==> SumTo(slots, j) < target
    ensures FirstReaching(slots, target, i) == k
    decreases k - i
  {
    if i < k { FirstReachingIs(slots, target, i + 1, k); }
  }

  /** The running sum reaches the rank of `v` exactly at the slot of `v`. */
  lemma RankReachedAt(slots: seq<nat>, lats: seq<nat>, rank: nat, v: nat, i: nat)
    requires IsHistogram(slots, lats) && IsNearestRank(lats, rank, v) && i <= |slots|
    ensures SumTo(slots, i) >= rank <==> i > SlotOf(v, |slots|)
  {
    var n := |slots|;
    CumulativeCount(slots, lats, i);
    if i > SlotOf(v, n) {
      forall x: nat | x <= v ensures SlotOf(x, n) < i { SlotMonotone(x, v, n); }
      CountImplies(lats, AtMost(v), UpToSlot(n, i));
    } else {
      forall x: nat | SlotOf(x, n) < i ensures x < v {
        if x >= v { SlotMonotone(v, x, n); }
      }
      CountImplies(lats, UpToSlot(n, i), Below(v));
    }
  }

  /** The upper bound of the slot of `v` against `v`. */
  lemma BucketBound(v: nat, n: nat)
    requires n > 0
    ensures BucketUpper(SlotOf(v, n)) >= v <==> v < Pow2(n)
    ensures BucketUpper(SlotOf(v, n)) <= if v == 0 then 1 else 2 * v - 1
  {
    if Log2(v) >= n {
      Pow2Monotone(n, Log2(v));
    } else {
      Pow2Monotone(Log2(v) + 1, n);
    }
  }

  /** Bucketed against true percentile, for any latencies and any rank: the reported value is at
      most max(1, 2 * true - 1) always, and at least the true value exactly when that value fits the
      histogram, 2^40 ns for I/O and 2^48 ns for locks and system calls. */
  lemma PercentileBound(slots: seq<nat>, lats: seq<nat>, rank: nat, answer: nat, v: nat)
    requires IsHistogram(slots, lats) && IsNearestRank(lats, rank, v)
    requires answer == BucketUpper(FirstReaching(slots, rank, 0))
    ensures answer == BucketUpper(SlotOf(v, |slots|))
    ensures answer >= v <==> v < Pow2(|slots|)
    ensures answer <= if v == 0 then 1 else 2 * v - 1
  {
    var k := SlotOf(v, |slots|);
    RankReachedAt(slots, lats, rank, v, k + 1);
    forall j | 0 < j <= k ensures SumTo(slots, j) < rank { RankReachedAt(slots, lats, rank, v, j); }
    FirstReachingIs(slots, rank, 0, k);
    BucketBound(v, |slots|);
  }

  /** `percentileNSFromLockSlots`. */
  method PercentileFromSlots(slots: seq<nat>, percentile: nat) returns (answer: nat)
    requires |slots| > 0 && SumTo(slots, |slots|) < UINT64
    ensures SumTo(slots, |slots|) == 0 ==> answer == 0
    ensures SumTo(slots, |slots|) > 0 ==>
      answer == BucketUpper(FirstReaching(slots, Target(SumTo(slots, |slots|), percentile), 0))
  {
    var total := 0;
    for i := 0 to |slots|
      invariant total == SumTo(slots, i)
    {
      total := total + slots[i];
    }
    if total == 0 {
      return 0;
    }
    var target := (total * percentile % UINT64 + 99) % UINT64 / 100;
    var seen := 0;
    for slot := 0 to |slots|
      invariant seen == SumTo(slots, slot)
      invariant FirstReaching(slots, target, 0) ==
                FirstReaching(slots, target, if slot < |slots| then slot else |slots| - 1)
    {
      seen := seen + slots[slot];
      if seen >= target {
        return BucketUpper(slot);
      }
    }
    return BucketUpper(|slots| - 1);
  }

  /** `percentileNSFromSlots`: the same over the difference of two snapshots. */
  method PercentileFromSnapshots(cur: seq<nat>, prev: seq<nat>, percentile: nat) returns (answer: nat)
    requires |cur| == |prev| > 0 && SumTo(SaturatingDeltas(cur, prev), |cur|) < UINT64
    ensures var delta := SaturatingDeltas(cur, prev);
      && (SumTo(delta, |delta|) == 0 ==> answer == 0)
      && (SumTo(delta, |delta|) > 0 ==>
            answer == BucketUpper(FirstReaching(delta, Target(SumTo(delta, |delta|), percentile), 0)))
  {
    var delta: seq<nat> := [];
    for slot := 0 to |cur|
      invariant |delta| == slot
      invariant forall i :: 0 <= i < slot ==> delta[i] == Saturating(cur[i], prev[i])
    {
      delta := delta + [Saturating(cur[slot], prev[slot])];
    }
    assert delta == SaturatingDeltas(cur, prev);
    answer := PercentileFromSlots(delta, percentile);
  }

  /** The bucket of the 99th percentile between two snapshots. */
  ghost function P99Between(cur: seq<nat>, prev: seq<nat>, total: nat): nat
    requires |cur| == |prev| > 0
  {
    if total == 0 then 0 else BucketUpper(FirstReaching(CounterDeltas(cur, prev), Target(total, 99), 0))
  }

  /** `p99FromSlots` in nanoseconds; the total comes from the request counter. */
  method P99FromSlots(cur: seq<nat>, prev: seq<nat>, total: nat) returns (answer: nat)
    requires |cur| == |prev| > 0
    ensures answer == P99Between(cur, prev, total) && (total == 0 <==> answer == 0)
  {
    if total == 0 {
      return 0;
    }
    ghost var delta := CounterDeltas(cur, prev);
    var target := (total * 99 % UINT64 + 99) % UINT64 / 100;
    var cumulative := 0;
    for slot := 0 to |cur|
      invariant cumulative == SumTo(delta, slot)
      invariant FirstReaching(delta, target, 0) ==
                FirstReaching(delta, target, if slot < |cur| then slot else |cur| - 1)
    {
      cumulative := cumulative + CounterDelta(cur[slot], prev[slot]);
      if cumulative >= target {
        return BucketUpper(slot);
      }
    }
    return BucketUpper(|cur| - 1);
  }

  /** The upper bound of the highest slot in use. */
  function Highest(slots: seq<nat>): nat {
    if slots == [] then 0
    else if slots[|slots| - 1] != 0 then BucketUpper(|slots| - 1)
    else Highest(slots[..|slots| - 1])
  }

  /** `maxNSFromIOSlots`, `maxNSFromLockSlots` and `maxNSUpperFromSlots`: the highest slot in use. */
  method MaxFromSlots(slots: seq<nat>) returns (answer: nat)
    ensures answer == Highest(slots)
    ensures answer == 0 <==> forall i :: 0 <= i < |slots| ==> slots[i] == 0
    ensures answer != 0 ==> exists i :: 0 <= i < |slots| && slots[i] != 0 && answer == BucketUpper(i)
                              && (forall j :: i < j < |slots| ==> slots[j] == 0)
  {
    var slot := |slots|;
    assert slots[..slot] == slots;
    while slot > 0
      invariant 0 <= slot <= |slots|
      invariant forall j :: slot <= j < |slots| ==> slots[j] == 0
      invariant Highest(slots) == Highest(slots[..slot])
    {
      assert slots[..slot][..slot - 1] == slots[..slot - 1];
      slot := slot - 1;
      if slots[slot] != 0 {
        assert BucketUpper(slot) > 0;
        return BucketUpper(slot);
      }
    }
    return 0;
  }

  /** `maxNSFromIOSlots` over the differences of two snapshots. */
  method MaxFromSnapshots(cur: seq<nat>, prev: seq<nat>) returns (answer: nat)
    requires |cur| == |prev|
    ensures answer == Highest(CounterDeltas(cur, prev))
  {
    ghost var delta := CounterDeltas(cur, prev);
    var slot := |cur|;
    assert delta[..slot] == delta;
    while slot > 0
      invariant 0 <= slot <= |cur| && Highest(delta) == Highest(delta[..slot])
    {
      assert delta[..slot][..slot - 1] == delta[..slot - 1];
      slot := slot - 1;
      if CounterDelta(cur[slot], prev[slot]) > 0 {
        return BucketUpper(slot);
      }
    }
    return 0;
  }

  lemma {:induction false} HighestIs(slots: seq<nat>) returns (i: nat)
    requires exists j :: 0 <= j < |slots| && slots[j] != 0
    ensures i < |slots| && slots[i] != 0 && (forall j :: i < j < |slots| ==> slots[j] == 0)
    ensures Highest(slots) == BucketUpper(i)
  {
    var n := |slots| - 1;
    if slots[n] != 0 {
      i := n;
    } else {
      var j :| 0 <= j < |slots| && slots[j] != 0;
      assert slots[..n][j] != 0;
      i := HighestIs(slots[..n]);
      assert slots[..n][i] == slots[i] && forall k :: i < k < n ==> slots[..n][k] == slots[k];
    }
  }

  /** The reported maximum of a window brackets its longest latency. */
  lemma WindowMaximum(cur: seq<nat>, prev: seq<nat>, old_: seq<nat>, window: seq<nat>, v: nat)
    requires IsHistogram(prev, old_) && IsHistogram(cur, old_ + window) && |cur| == |prev|
    requires v in window && forall x :: x in window ==> x <= v
    ensures Highest(CounterDeltas(cur, prev)) >= v <==> v < Pow2(|cur|)
    ensures Highest(CounterDeltas(cur, prev)) <= if v == 0 then 1 else 2 * v - 1
  {
    var delta := CounterDeltas(cur, prev);
    WindowHistogram(cur, prev, old_, window);
    CountSome(window, InSlot(|cur|, SlotOf(v, |cur|)), v);
    assert delta[SlotOf(v, |cur|)] != 0;
    var i := HighestIs(delta);
    MaximumBound(delta, window, i, v);
  }

  /** The reported maximum brackets the true one in the same way. */
  lemma MaximumBound(slots: seq<nat>, lats: seq<nat>, i: nat, v: nat)
    requires IsHistogram(slots, lats) && v in lats && forall x :: x in lats ==> x <= v
    requires i < |slots| && slots[i] != 0 && forall j :: i < j < |slots| ==> slots[j] == 0
    ensures BucketUpper(i) >= v <==> v < Pow2(|slots|)
    ensures BucketUpper(i) <= if v == 0 then 1 else 2 * v - 1
  {
    var n, k := |slots|, SlotOf(v, |slots|);
    if i > k {
      forall x | x in lats ensures SlotOf(x, n) != i { SlotMonotone(x, v, n); }
      CountNone(lats, InSlot(n, i));
    }
    if i < k {
      CountSome(lats, InSlot(n, k), v);
    }
    BucketBound(v, n);
  }

  /** Without 64-bit overflow the target is the nearest rank ceil(p * total / 100), between 1 and
      the total, so the loop always reaches it. */
  lemma TargetIsNearestRank(total: nat, percentile: nat)
    requires 0 < percentile <= 100 && 0 < total && total * percentile + 99 < UINT64
    ensures 100 * (Target(total, percentile) - 1) < total * percentile <= 100 * Target(total, percentile)
    ensures 1 <= Target(total, percentile) <= total
  {
    Scaled(total, 1, percentile);
    Scaled(total, percentile, 100);
    CeilOfHundredth(total * percentile);
  }

  lemma Scaled(n: nat, a: nat, b: nat)
    requires a <= b
    ensures n * a <= n * b
  {}

  lemma CeilOfHundredth(product: nat)
    requires product + 99 < UINT64
    ensures var t := (product % UINT64 + 99) % UINT64 / 100;
      100 * (t - 1) < product <= 100 * t
  {}

  /** The 64-bit target is the ceiling of percentile * total / 100 if and only if nothing overflows. */
  lemma TargetExactIff(total: nat, percentile: nat)
    ensures Target(total, percentile) == (total * percentile + 99) / 100 <==> total * percentile + 99 < UINT64
  {
    var product := total * percentile;
    if product >= UINT64 {
      assert (product % UINT64 + 99) % UINT64 < UINT64;
    } else if product + 99 >= UINT64 {
      assert (product + 99) % UINT64 == product + 99 - UINT64;
    }
  }

  /** With overflow it is not: one latency above 2^64 / 99 of them, the target wraps to 1 and the
      smallest latency is reported as the 99th percentile. */
  lemma TargetWraps()
    ensures var total := 186330748219288401; total * 99 >= UINT64 && Target(total, 99) == 1
  {}

  /** The 99th percentile of one window, from the snapshots to the bound: `answer` is what
      `PercentileFromSnapshots` returns for the window's latencies. */
  lemma WindowP99(cur: seq<nat>, prev: seq<nat>, old_: seq<nat>, window: seq<nat>, answer: nat, v: nat)
    requires IsHistogram(prev, old_) && IsHistogram(cur, old_ + window) && |cur| == |prev|
    requires 0 < |window| && |window| * 99 + 99 < UINT64
    requires answer == BucketUpper(FirstReaching(SaturatingDeltas(cur, prev), Target(|window|, 99), 0))
    requires IsNearestRank(window, (|window| * 99 + 99) / 100, v)
    ensures answer >= v <==> v < Pow2(|cur|)
    ensures answer <= if v == 0 then 1 else 2 * v - 1
  {
    var delta := SaturatingDeltas(cur, prev);
    WindowHistogram(cur, prev, old_, window);
    TargetIsNearestRank(|window|, 99);
    PercentileBound(delta, window, Target(|window|, 99), answer, v);
  }
}
