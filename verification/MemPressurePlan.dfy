/** The plan of the memory-pressure workload: how many workers, and how fast each allocates, in 64-bit
    arithmetic; and how the bytes are split between them. */
module MemPressurePlan {
  import opened Common
  import opened LogHistogram

  const INT64: int := 0x8000_0000_0000_0000
  const TAIL_SECONDS := 6
  const MAX_WORKERS := 64
  const MAX_RATE := 160
  const MIB := 0x10_0000

  datatype Plan = Plan(workers: int, rate: int)

  datatype Result = Planned(plan: Plan) | Refused

  /** Signed 64-bit wrap-around. */
  function Wrap(x: int): int {
    (x + INT64) % UINT64 - INT64
  }

  /** Division that truncates toward zero. */
  function Quot(a: int, b: int): int
    requires b > 0
  {
    if a >= 0 then a / b else -(-a / b)
  }

  function CeilDiv(a: int, b: int): int
    requires b > 0
  {
    (a + b - 1) / b
  }

  /** `c` is the smallest number with `b * c >= a`. */
  lemma CeilDivBounds(a: int, b: int)
    requires b > 0
    ensures b * CeilDiv(a, b) >= a && b * (CeilDiv(a, b) - 1) < a
  {
  }

  lemma MulMonotone(b: int, x: int, y: int)
    requires b >= 0 && x <= y
    ensures b * x <= b * y
  {
  }

  lemma CeilDivAtMost(a: int, b: int, c: int)
    requires b > 0
    ensures CeilDiv(a, b) <= c <==> a <= b * c
  {
    var q := CeilDiv(a, b);
    CeilDivBounds(a, b);
    if q <= c { MulMonotone(b, q, c); }
    if q > c { MulMonotone(b, c, q - 1); }
  }

  /** The bytes in MiB, rounded up, as 64-bit addition has it. */
  function WrappedMiB(bytes: nat): nat {
    (bytes + MIB - 1) % UINT64 / MIB
  }

  /** Rounding up is exact until the addition overflows; then the result is 0. */
  lemma MiBExact(bytes: nat)
    requires bytes < UINT64
    ensures bytes <= UINT64 - MIB ==> WrappedMiB(bytes) == CeilDiv(bytes, MIB)
    ensures bytes > UINT64 - MIB ==> WrappedMiB(bytes) == 0
  {
    if bytes > UINT64 - MIB {
      assert (bytes + MIB - 1) % UINT64 == bytes + MIB - 1 - UINT64;
    }
  }

  /** The MiB per second that all workers together need. */
  function Aggregate(bytes: nat, budget: int): int
    requires budget > 0
  {
    if bytes == 0 then 0 else CeilDiv(WrappedMiB(bytes), budget)
  }

  predicate ValidRequest(seconds: int, requested: int, preferred: int) {
    1 <= requested <= MAX_WORKERS && 1 <= preferred && seconds - TAIL_SECONDS >= 1
  }

  /** The answer to an aggregate rate `need`: as many workers as it takes at the preferred rate, at most
      64, and then as fast as it takes. */
  function Answer(need: int, requested: int, preferred: int): Result
    requires 1 <= requested <= MAX_WORKERS && 1 <= preferred
  {
    var workers := Min(MAX_WORKERS, Max(requested, CeilDiv(need, preferred)));
    var rate := Max(preferred, CeilDiv(need, workers));
    if rate > MAX_RATE then Refused else Planned(Plan(workers, rate))
  }

  function PlanOf(bytes: nat, seconds: int, requested: int, preferred: int): Result {
    if ValidRequest(seconds, requested, preferred) then Answer(Aggregate(bytes, seconds - TAIL_SECONDS), requested,
        preferred)
    else Refused
  }

  /** `planMemPressure`; `seconds` is the duration truncated to whole seconds. */
  method PlanMemPressure(bytes: nat, seconds: int, requested: int, preferred: int) returns (r: Result)
    requires bytes < UINT64 && -INT64 <= preferred < INT64
    ensures r == PlanOf(bytes, seconds, requested, preferred)
  {
    if requested < 1 || requested > MAX_WORKERS || preferred <= 0 {
      return Refused;
    }
    var budget := seconds - TAIL_SECONDS;
    if budget < 1 {
      return Refused;
    }
    var aggregate := 0;
    if bytes > 0 {
      aggregate := CeilDiv(WrappedMiB(bytes), budget);
    }
    AggregateFits(bytes, budget);
    var workers := requested;
    NothingNeeded(preferred);
    if aggregate > 0 {
      PreferredExact(aggregate, preferred);
      var atPreferred := Quot(Wrap(aggregate + preferred - 1), preferred);
      if atPreferred > workers {
        workers := atPreferred;
      }
    }
    if workers > MAX_WORKERS {
      workers := MAX_WORKERS;
    }
    var rate := preferred;
    NothingNeeded(workers);
    if aggregate > 0 {
      var perWorker := CeilDiv(aggregate, workers);
      if perWorker > rate {
        rate := perWorker;
      }
    }
    if rate > MAX_RATE {
      return Refused;
    }
    return Planned(Plan(workers, rate));
  }

  lemma PreferredExact(aggregate: int, preferred: int)
    requires 0 < aggregate <= 0x1000_0000_0000 && preferred > 0
    ensures preferred <= MAX_RATE ==> Quot(Wrap(aggregate + preferred - 1), preferred) == CeilDiv(aggregate, preferred)
  {
    if preferred <= MAX_RATE {
      assert Wrap(aggregate + preferred - 1) == aggregate + preferred - 1;
    }
  }

  lemma AggregateFits(bytes: nat, budget: int)
    requires budget > 0
    ensures 0 <= Aggregate(bytes, budget) <= 0x1000_0000_0000
  {
    if bytes > 0 {
      CeilDivAtMost(WrappedMiB(bytes), budget, 0x1000_0000_0000);
      MulMonotone(0x1000_0000_0000, 1, budget);
      CeilDivBounds(WrappedMiB(bytes), budget);
    }
  }

  /** A plan answers a need of at most 64 workers at 160 MiB/s each, and only such a need. */
  lemma PlannedIffReachable(need: int, requested: int, preferred: int)
    requires need >= 0 && 1 <= requested <= MAX_WORKERS && 1 <= preferred <= MAX_RATE
    ensures var r := Answer(need, requested, preferred);
      && (r.Planned? <==> need <= MAX_WORKERS * MAX_RATE)
      && (r.Planned? ==> 1 <= requested <= r.plan.workers <= MAX_WORKERS && preferred <= r.plan.rate <= MAX_RATE)
      && (r.Planned? ==> r.plan.workers * r.plan.rate >= need)
  {
    var r := Answer(need, requested, preferred);
    var atPreferred := CeilDiv(need, preferred);
    CeilDivBounds(need, preferred);
    var workers := Min(MAX_WORKERS, Max(requested, atPreferred));
    CeilDivAtMost(need, workers, MAX_RATE);
    var perWorker := CeilDiv(need, workers);
    CeilDivBounds(need, workers);
    if workers < MAX_WORKERS {
      MulMonotone(preferred, atPreferred, workers);
      MulMonotone(workers, preferred, MAX_RATE);
    }
    if r.Planned? { MulMonotone(workers, perWorker, r.plan.rate); }
  }

  /** And it is frugal: no faster than preferred unless a slower rate falls short, and no more workers than
      requested unless one fewer falls short at the preferred rate. */
  lemma PlanIsFrugal(need: int, requested: int, preferred: int)
    requires need >= 0 && 1 <= requested <= MAX_WORKERS && 1 <= preferred <= MAX_RATE
    ensures var r := Answer(need, requested, preferred);
      r.Planned? ==>
        && (r.plan.rate == preferred || r.plan.workers * (r.plan.rate - 1) < need)
        && (r.plan.workers == requested || preferred * (r.plan.workers - 1) < need)
  {
    CeilDivBounds(need, preferred);
    var workers := Min(MAX_WORKERS, Max(requested, CeilDiv(need, preferred)));
    CeilDivBounds(need, workers);
    MulMonotone(preferred, workers - 1, Max(requested, CeilDiv(need, preferred)) - 1);
  }

  /** What may be planned for a request: within the limits, and enough. */
  predicate Suffices(p: Plan, need: int, requested: int, preferred: int) {
    requested <= p.workers <= MAX_WORKERS && preferred <= p.rate && p.workers * p.rate >= need
  }

  /** Workers come before speed: of all that may be planned the plan has the lowest rate, and the fewest
      workers when that rate is the preferred one; the rate is raised only when 64 workers fall short at
      the preferred one, and then there are 64. */
  lemma WorkersBeforeSpeed(need: int, requested: int, preferred: int, p: Plan)
    requires need >= 0 && 1 <= requested <= MAX_WORKERS && 1 <= preferred <= MAX_RATE
    requires Answer(need, requested, preferred).Planned?
    ensures var plan := Answer(need, requested, preferred).plan;
      && Suffices(plan, need, requested, preferred)
      && (Suffices(p, need, requested, preferred) ==>
            plan.rate <= p.rate && (p.rate == preferred ==> plan.workers <= p.workers))
      && (plan.rate > preferred ==> plan.workers == MAX_WORKERS && MAX_WORKERS * preferred < need)
  {
    var plan := Answer(need, requested, preferred).plan;
    PlannedIffReachable(need, requested, preferred);
    PlanIsFrugal(need, requested, preferred);
    RaisedAtTheTop(need, requested, preferred);
    if Suffices(p, need, requested, preferred) {
      if plan.rate > p.rate {
        MulMonotone(p.rate, p.workers, MAX_WORKERS);
        MulMonotone(MAX_WORKERS, p.rate, plan.rate - 1);
      }
      if p.rate == preferred && plan.workers > p.workers {
        MulMonotone(preferred, p.workers, plan.workers - 1);
      }
    }
  }

  lemma RaisedAtTheTop(need: int, requested: int, preferred: int)
    requires need >= 0 && 1 <= requested <= MAX_WORKERS && 1 <= preferred <= MAX_RATE
    ensures var r := Answer(need, requested, preferred);
      r.Planned? && r.plan.rate > preferred ==> r.plan.workers == MAX_WORKERS && MAX_WORKERS * preferred < need
  {
    var atPreferred := CeilDiv(need, preferred);
    CeilDivBounds(need, preferred);
    var workers := Min(MAX_WORKERS, Max(requested, atPreferred));
    CeilDivAtMost(need, workers, preferred);
    if atPreferred <= workers {
      MulMonotone(preferred, atPreferred, workers);
    } else {
      CeilDivAtMost(need, preferred, MAX_WORKERS);
    }
  }

  /** The aggregate rate is exactly what the bytes need: a rate covers them within the budget if and only if
      it is at least that. */
  lemma NeedIsExact(bytes: nat, budget: int, rate: nat)
    requires budget > 0 && bytes <= UINT64 - MIB
    ensures rate * budget * MIB >= bytes <==> rate >= Aggregate(bytes, budget)
  {
    MiBExact(bytes);
    if bytes == 0 {
      Product(rate, budget, MIB);
    } else {
      CeilDivAtMost(bytes, MIB, rate * budget);
      CeilDivAtMost(CeilDiv(bytes, MIB), budget, rate);
    }
  }

  /** Sound and complete, for every request at all: the plan succeeds exactly when the request is valid,
      its preferred rate is within the cap, and the bytes, in MiB, fit 64 workers at 160 MiB/s for the
      budget; and then it covers the bytes. The count in MiB is exact up to 2^64 - 2^20 bytes. */
  lemma PlanSoundAndComplete(bytes: nat, seconds: int, requested: int, preferred: int)
    requires bytes < UINT64
    ensures var r := PlanOf(bytes, seconds, requested, preferred);
      var budget := seconds - TAIL_SECONDS;
      && (r.Planned? <==> 1 <= requested <= 64 && 1 <= preferred <= 160 && 1 <= budget
                          && WrappedMiB(bytes) <= 64 * 160 * budget)
      && (bytes <= UINT64 - MIB ==> WrappedMiB(bytes) == CeilDiv(bytes, MIB))
      && (bytes <= UINT64 - MIB && r.Planned? ==> r.plan.workers * r.plan.rate * budget * MIB >= bytes)
  {
    var budget := seconds - TAIL_SECONDS;
    MiBExact(bytes);
    if ValidRequest(seconds, requested, preferred) && preferred <= MAX_RATE {
      var need := Aggregate(bytes, budget);
      AggregateFits(bytes, budget);
      PlannedIffReachable(need, requested, preferred);
      CeilDivAtMost(WrappedMiB(bytes), budget, MAX_WORKERS * MAX_RATE);
      var r := PlanOf(bytes, seconds, requested, preferred);
      if bytes == 0 {
        MulMonotone(MAX_WORKERS * MAX_RATE, 0, budget);
        assert WrappedMiB(0) == 0;
        if r.Planned? { Product(r.plan.workers, r.plan.rate, budget); }
      } else if r.Planned? && bytes <= UINT64 - MIB {
        Covers(bytes, budget, need, r.plan.workers * r.plan.rate);
      }
    }
  }

  lemma Product(a: int, b: int, c: int)
    requires a >= 0 && b >= 0 && c >= 0
    ensures a * b * c >= 0
  {
    MulMonotone(a, 0, b);
    MulMonotone(a * b, 0, c);
  }

  lemma Covers(bytes: nat, budget: int, need: int, rate: int)
    requires budget > 0 && need == CeilDiv(CeilDiv(bytes, MIB), budget) && rate >= need
    ensures rate * budget * MIB >= bytes
  {
    CeilDivBounds(bytes, MIB);
    CeilDivBounds(CeilDiv(bytes, MIB), budget);
    MulMonotone(budget, need, rate);
    MulMonotone(MIB, CeilDiv(bytes, MIB), rate * budget);
  }

  /** Just below 2^64 bytes the rounding overflows: any valid request is granted as asked. */
  lemma HugeRequestGranted(bytes: nat, seconds: int, requested: int, preferred: int)
    requires UINT64 - MIB < bytes < UINT64 && ValidRequest(seconds, requested, preferred) && preferred <= MAX_RATE
    ensures PlanOf(bytes, seconds, requested, preferred) == Planned(Plan(requested, preferred))
  {
    MiBExact(bytes);
    NothingNeeded(seconds - TAIL_SECONDS);
    NothingNeeded(preferred);
    NothingNeeded(requested);
  }

  lemma NothingNeeded(b: int)
    requires b > 0
    ensures CeilDiv(0, b) == 0
  {
  }

  // ------------------------------------------------------------------ the split

  function Share(bytes: nat, workers: nat, i: nat): nat
    requires workers > 0
  {
    bytes / workers + if i < bytes % workers then 1 else 0
  }

  lemma {:induction false} SharesSum(bytes: nat, workers: nat, shares: seq<nat>, n: nat)
    requires workers > 0 && n <= |shares| && forall i :: 0 <= i < n ==> shares[i] == Share(bytes, workers, i)
    ensures SumTo(shares, n) == n * (bytes / workers) + if n <= bytes % workers then n else bytes % workers
  {
    if n > 0 {
      SharesSum(bytes, workers, shares, n - 1);
      assert n * (bytes / workers) == (n - 1) * (bytes / workers) + bytes / workers;
    }
  }

  /** Worker 0's share with the reserve, and the sum of all. */
  lemma SplitSum(bytes: nat, reserve: nat, workers: nat, shares: seq<nat>, first: nat)
    requires bytes < UINT64 && reserve < UINT64 && workers > 0 && |shares| == workers
    requires forall i :: 0 <= i < workers ==> shares[i] == Share(bytes, workers, i)
    requires first == (shares[0] + reserve) % UINT64
    ensures shares[0] + reserve < UINT64 ==> SumTo(shares[0 := first], workers) == bytes + reserve
    ensures shares[0] + reserve >= UINT64 ==> SumTo(shares[0 := first], workers) == bytes + reserve - UINT64
  {
    SharesSum(bytes, workers, shares, workers);
    SumToUpdate(shares, 0, first, workers);
    Recombine(bytes, workers);
    ShareSmall(bytes, workers);
  }

  /** `splitMemPressureAllocation`: the shares differ by at most one, the larger ones first, the reserve goes
      to worker 0, and together they are exactly the bytes asked for, unless worker 0's own sum overflows
      64 bits. */
  method SplitMemPressureAllocation(bytes: nat, reserve: nat, workers: nat) returns (allocations: array<nat>)
    requires bytes < UINT64 && reserve < UINT64 && workers > 0
    ensures fresh(allocations) && allocations.Length == workers
    ensures forall i :: 0 < i < workers ==> allocations[i] == Share(bytes, workers, i)
    ensures forall i, j :: 0 < i < j < workers ==> allocations[j] <= allocations[i] <= allocations[j] + 1
    ensures forall j :: 0 < j < workers ==> allocations[j] <= Share(bytes, workers, 0) <= allocations[j] + 1
    ensures allocations[0] == (Share(bytes, workers, 0) + reserve) % UINT64
    ensures Share(bytes, workers, 0) + reserve < UINT64 ==> SumTo(allocations[..], workers) == bytes + reserve
    ensures Share(bytes, workers, 0) + reserve >= UINT64 ==> SumTo(allocations[..], workers) == bytes + reserve - UINT64
  {
    allocations := new nat[workers];
    var base, remainder := bytes / workers, bytes % workers;
    for index := 0 to workers
      invariant forall i :: 0 <= i < index ==> allocations[i] == Share(bytes, workers, i)
    {
      allocations[index] := base;
      if index < remainder {
        allocations[index] := allocations[index] + 1;
      }
    }
    ghost var shares := allocations[..];
    allocations[0] := (allocations[0] + reserve) % UINT64;
    SplitSum(bytes, reserve, workers, shares, allocations[0]);
    assert allocations[..] == shares[0 := allocations[0]];
  }

  lemma Recombine(bytes: nat, workers: nat)
    requires workers > 0
    ensures workers * (bytes / workers) + bytes % workers == bytes
  {
  }

  lemma ShareSmall(bytes: nat, workers: nat)
    requires workers > 0
    ensures Share(bytes, workers, 0) <= bytes
  {
    Recombine(bytes, workers);
    FirstShare(bytes / workers, bytes % workers, workers);
  }

  lemma FirstShare(base: nat, remainder: nat, workers: nat)
    requires workers > 0
    ensures base + (if 0 < remainder then 1 else 0) <= workers * base + remainder
  {
    MulMonotone(base, 1, workers);
  }
}
