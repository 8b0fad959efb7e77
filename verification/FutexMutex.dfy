/** The three-state futex lock of the load generator, as an interleaved step system.

    Every thread runs `lock` and `unlock` one atomic operation at a time: a compare-and-swap, a
    swap, a counter addition, or one futex system call. Between two operations of a thread any
    number of operations of other threads may happen. The kernel wait queue is the set of threads
    whose program counter is `Asleep`: FUTEX_WAIT compares the word and goes to sleep in one step,
    FUTEX_WAKE(1) makes one sleeper runnable, and a sleeper may also wake up for no reason. */
module FutexMutex {

  /** Where a thread stands: the operation it performs next. */
  datatype Pc =
    | Idle          // between two calls
    | Cas           // lock: compare-and-swap 0 -> 1
    | Swap          // lock: swap in 2
    | CountWait     // lock: add to waitCalls
    | Wait          // lock: enter FUTEX_WAIT expecting 2
    | Asleep        // lock: queued in the kernel
    | CountAcquire  // lock: the word is ours, add to acquisitions
    | Held          // lock has returned nil, unlock not yet called
    | Release       // unlock: swap in 0
    | CountWake     // unlock: add to wakeCalls
    | Wake          // unlock: enter FUTEX_WAKE
    | Misuse        // unlock found the word 0 and returned its error

  /** `todo[t]` is the number of lock/unlock pairs thread `t` has still to start. */
  datatype State = State(
    word: nat,
    pc: seq<Pc>,
    todo: seq<nat>,
    acquisitions: nat,
    waitCalls: nat,
    wakeCalls: nat,
    waitErrors: nat)

  datatype Action =
    | Advance(t: nat)           // the next operation of thread t
    | WakeOne(t: nat, u: nat)   // FUTEX_WAKE by t dequeues sleeper u
    | WaitError(t: nat)         // FUTEX_WAIT refuses with an errno that lock returns
    | Spurious(u: nat)          // sleeper u returns from FUTEX_WAIT without a wake

  ghost predicate WellFormed(s: State) {
    |s.pc| == |s.todo|
  }

  ghost predicate Sleeping(s: State, t: int) {
    0 <= t < |s.pc| && s.pc[t].Asleep?
  }

  ghost predicate Enabled(s: State, a: Action) {
    WellFormed(s) &&
    match a
    case Advance(t) =>
      && t < |s.pc|
      && !s.pc[t].Asleep? && !s.pc[t].Misuse?
      && (s.pc[t].Idle? ==> s.todo[t] > 0)
      // FUTEX_WAKE returns without waking anyone only when the queue is empty.
      && (s.pc[t].Wake? ==> forall u :: !Sleeping(s, u))
    case WakeOne(t, u) => t < |s.pc| && s.pc[t].Wake? && Sleeping(s, u)
    case WaitError(t) => t < |s.pc| && s.pc[t].Wait?
    case Spurious(u) => Sleeping(s, u)
  }

  /** The operation thread `t` performs, read off `futexMutex.lock` and `futexMutex.unlock`. */
  function Operate(s: State, t: nat): State
    requires |s.pc| == |s.todo| && t < |s.pc|
    requires s.pc[t].Idle? ==> s.todo[t] > 0
  {
    var at := (p: Pc) => s.(pc := s.pc[t := p]);
    match s.pc[t]
    case Idle => at(Cas).(todo := s.todo[t := s.todo[t] - 1])
    case Cas => if s.word == 0 then at(CountAcquire).(word := 1) else at(Swap)
    case Swap => at(if s.word == 0 then CountAcquire else CountWait).(word := 2)
    case CountWait => at(Wait).(waitCalls := s.waitCalls + 1)
    case Wait => at(if s.word == 2 then Asleep else Swap)
    case CountAcquire => at(Held).(acquisitions := s.acquisitions + 1)
    case Held => at(Release)
    case Release =>
      at(if s.word == 0 then Misuse else if s.word == 2 then CountWake else Idle).(word := 0)
    case CountWake => at(Wake).(wakeCalls := s.wakeCalls + 1)
    case Wake => at(Idle)
    case Asleep => s
    case Misuse => s
  }

  ghost function Next(s: State, a: Action): State
    requires Enabled(s, a)
  {
    match a
    case Advance(t) => Operate(s, t)
    case WakeOne(t, u) => s.(pc := s.pc[t := Idle][u := Swap])
    case WaitError(t) => s.(pc := s.pc[t := Idle], waitErrors := s.waitErrors + 1)
    case Spurious(u) => s.(pc := s.pc[u := Swap])
  }

  ghost predicate Initial(s: State) {
    && WellFormed(s)
    && s.word == 0 && s.acquisitions == 0 && s.waitCalls == 0 && s.wakeCalls == 0 && s.waitErrors == 0
    && forall t :: 0 <= t < |s.pc| ==> s.pc[t] == Idle
  }

  /** A finite run: `run[0]` is the start, and every later state follows by the listed action. */
  ghost predicate IsRun(run: seq<State>, acts: seq<Action>) {
    && |run| == |acts| + 1
    && forall i :: 0 <= i < |acts| ==>
         Enabled(run[i], acts[i]) && run[i + 1] == Next(run[i], acts[i])
  }

  // ------------------------------------------------------------------ safety

  ghost predicate Owns(s: State, t: int) {
    0 <= t < |s.pc| && (s.pc[t].CountAcquire? || s.pc[t].Held? || s.pc[t].Release?)
  }

  /** A wake-up is still owed: an unlocker has not yet entered FUTEX_WAKE. */
  ghost predicate WakePending(s: State, t: int) {
    0 <= t < |s.pc| && (s.pc[t].CountWake? || s.pc[t].Wake?)
  }

  ghost predicate AboutToSwap(s: State, t: int) {
    0 <= t < |s.pc| && s.pc[t].Swap?
  }

  ghost predicate MutualExclusion(s: State) {
    && (forall t, u :: Owns(s, t) && Owns(s, u) ==> t == u)
    && (s.word != 0 <==> exists t :: Owns(s, t))
  }

  ghost predicate NoLostWakeup(s: State) {
    (exists t :: Sleeping(s, t)) ==>
      s.word == 2 || (exists t :: WakePending(s, t)) || (exists t :: AboutToSwap(s, t))
  }

  ghost predicate Safe(s: State) {
    && WellFormed(s)
    && s.word <= 2
    && MutualExclusion(s)
    && NoLostWakeup(s)
    && forall t :: 0 <= t < |s.pc| ==> !s.pc[t].Misuse?
  }

  lemma OperateExcludes(s: State, t: nat)
    requires Safe(s) && Enabled(s, Advance(t))
    ensures MutualExclusion(Operate(s, t)) && Operate(s, t).word <= 2
    ensures !Operate(s, t).pc[t].Misuse?
  {
    var s' := Operate(s, t);
    assert forall u :: u != t ==> (Owns(s', u) <==> Owns(s, u));
    assert Owns(s, t) ==> s.word != 0;
    if s.word != 0 {
      var o :| Owns(s, o);
      assert o == t || Owns(s', o);
    }
    if Owns(s', t) {
      assert forall u :: Owns(s', u) ==> u == t;
    } else if Owns(s, t) {
      assert forall u :: !Owns(s', u);
    } else {
      assert forall u :: Owns(s', u) <==> Owns(s, u);
    }
  }

  lemma OperateOwesWake(s: State, t: nat)
    requires Safe(s) && Enabled(s, Advance(t))
    ensures NoLostWakeup(Operate(s, t))
  {
    var s' := Operate(s, t);
    assert forall u :: u != t ==> (Sleeping(s', u) <==> Sleeping(s, u));
    assert forall u :: u != t && WakePending(s, u) ==> WakePending(s', u);
    assert forall u :: u != t && AboutToSwap(s, u) ==> AboutToSwap(s', u);
    if x :| Sleeping(s', x) {
      assert Sleeping(s, x) || x == t;
      if s'.word != 2 {
        assert WakePending(s', t) || AboutToSwap(s', t) || (s.word != 2 && Sleeping(s, x));
      }
    }
  }

  lemma OperateSafe(s: State, t: nat)
    requires Safe(s) && Enabled(s, Advance(t))
    ensures Safe(Operate(s, t))
  {
    OperateExcludes(s, t);
    OperateOwesWake(s, t);
    assert forall u :: 0 <= u < |s.pc| && u != t ==> Operate(s, t).pc[u] == s.pc[u];
  }

  lemma StepSafe(s: State, a: Action)
    requires Safe(s) && Enabled(s, a)
    ensures Safe(Next(s, a))
  {
    var s' := Next(s, a);
    match a
    case Advance(t) => OperateSafe(s, t);
    case WakeOne(t, u) =>
      assert AboutToSwap(s', u);
      assert forall x :: Owns(s', x) <==> Owns(s, x);
    case WaitError(t) =>
      assert forall x :: Owns(s', x) <==> Owns(s, x);
      assert forall x :: Sleeping(s', x) ==> Sleeping(s, x);
      assert forall x :: WakePending(s, x) ==> WakePending(s', x);
      assert forall x :: AboutToSwap(s, x) ==> AboutToSwap(s', x);
    case Spurious(u) =>
      assert AboutToSwap(s', u);
      assert forall x :: Owns(s', x) <==> Owns(s, x);
  }

  /** Mutual exclusion and no lost wake-up at every point of every run, for any number of threads,
      any interleaving, spurious wake-ups and refused waits included. */
  lemma {:induction false} EveryRunIsSafe(run: seq<State>, acts: seq<Action>, i: nat)
    requires IsRun(run, acts) && Initial(run[0]) && i < |run|
    ensures Safe(run[i])
  {
    if i == 0 {
      assert forall t :: !Owns(run[0], t);
      assert forall t :: !Sleeping(run[0], t);
    } else {
      EveryRunIsSafe(run, acts, i - 1);
      assert run[i] == Next(run[i - 1], acts[i - 1]);
      StepSafe(run[i - 1], acts[i - 1]);
    }
  }

  // ------------------------------------------------------------------ drain

  /** Sum of a weight over the program counters. */
  ghost function Total(pc: seq<Pc>, weight: Pc -> nat): nat {
    if pc == [] then 0 else weight(pc[0]) + Total(pc[1..], weight)
  }

  lemma {:induction false} TotalUpdate(pc: seq<Pc>, t: nat, p: Pc, weight: Pc -> nat)
    requires t < |pc|
    ensures Total(pc[t := p], weight) == Total(pc, weight) - weight(pc[t]) + weight(p)
  {
    if t == 0 {
      assert pc[t := p][1..] == pc[1..];
    } else {
      assert pc[t := p][1..] == pc[1..][t - 1 := p];
      TotalUpdate(pc[1..], t - 1, p, weight);
    }
  }

  lemma {:induction false} TotalBound(pc: seq<Pc>, weight: Pc -> nat, most: nat)
    requires forall p :: weight(p) <= most
    ensures Total(pc, weight) <= most * |pc|
  {
    if pc != [] { TotalBound(pc[1..], weight, most); }
  }

  ghost function Sum(xs: seq<nat>): nat {
    if xs == [] then 0 else xs[0] + Sum(xs[1..])
  }

  lemma {:induction false} SumUpdate(xs: seq<nat>, t: nat, x: nat)
    requires t < |xs|
    ensures Sum(xs[t := x]) == Sum(xs) - xs[t] + x
  {
    if t == 0 {
      assert xs[t := x][1..] == xs[1..];
    } else {
      assert xs[t := x][1..] == xs[1..][t - 1 := x];
      SumUpdate(xs[1..], t - 1, x);
    }
  }

  /** Phases a call has still to pass; the retry loop of `lock` stays within one phase. */
  ghost function Phase(p: Pc): nat {
    match p
    case Idle => 0
    case Cas => 7
    case Swap => 6
    case CountWait => 6
    case Wait => 6
    case Asleep => 6
    case CountAcquire => 5
    case Held => 4
    case Release => 3
    case CountWake => 2
    case Wake => 1
    case Misuse => 0
  }

  /** Operations left in the retry loop while the word is 2: the thread is heading for sleep. */
  ghost function ToSleep(p: Pc): nat {
    match p case Swap => 3 case CountWait => 2 case Wait => 1 case _ => 0
  }

  /** Operations left in the retry loop while the word is not 2: it is heading for the swap. */
  ghost function ToSwap(p: Pc): nat {
    match p case CountWait => 3 case Wait => 2 case Swap => 1 case _ => 0
  }

  ghost function Phases(s: State): nat {
    8 * Sum(s.todo) + Total(s.pc, Phase)
  }

  ghost function LoopPosition(s: State): nat {
    if s.word == 2 then Total(s.pc, ToSleep) else Total(s.pc, ToSwap)
  }

  ghost function Major(s: State): nat {
    2 * Phases(s) + if s.word == 2 then 0 else 1
  }

  /** The lexicographic measure (phases, word != 2, loop positions) as one number. */
  ghost function Rank(s: State): nat {
    Major(s) * (3 * |s.pc| + 1) + LoopPosition(s)
  }

  lemma LoopPositionBound(s: State)
    ensures LoopPosition(s) <= 3 * |s.pc|
  {
    TotalBound(s.pc, ToSleep, 3);
    TotalBound(s.pc, ToSwap, 3);
  }

  lemma Scaled(a: nat, b: nat, base: nat)
    requires a < b
    ensures a * base + base <= b * base
  {
    assert (a + 1) * base <= b * base;
  }

  lemma MajorDominates(s: State, s': State)
    requires |s.pc| == |s'.pc| && Major(s') < Major(s)
    ensures Rank(s') < Rank(s)
  {
    LoopPositionBound(s');
    Scaled(Major(s'), Major(s), 3 * |s.pc| + 1);
  }

  lemma Moved(s: State, s': State, t: nat, p: Pc)
    requires t < |s.pc| && s'.pc == s.pc[t := p]
    ensures Total(s'.pc, Phase) == Total(s.pc, Phase) - Phase(s.pc[t]) + Phase(p)
    ensures Total(s'.pc, ToSleep) == Total(s.pc, ToSleep) - ToSleep(s.pc[t]) + ToSleep(p)
    ensures Total(s'.pc, ToSwap) == Total(s.pc, ToSwap) - ToSwap(s.pc[t]) + ToSwap(p)
  {
    TotalUpdate(s.pc, t, p, Phase);
    TotalUpdate(s.pc, t, p, ToSleep);
    TotalUpdate(s.pc, t, p, ToSwap);
  }

  /** Still in the retry loop, with the word as it was. */
  ghost predicate Loops(s: State, t: nat)
    requires WellFormed(s) && t < |s.pc|
  {
    s.pc[t].CountWait? || (s.pc[t].Swap? && s.word == 2) || s.pc[t].Wait?
  }

  lemma LoopDecreases(s: State, t: nat)
    requires Safe(s) && Enabled(s, Advance(t)) && Loops(s, t)
    ensures Rank(Operate(s, t)) < Rank(s)
  {
    var s' := Operate(s, t);
    Moved(s, s', t, s'.pc[t]);
    assert Major(s') == Major(s) && LoopPosition(s') < LoopPosition(s);
  }

  lemma PhaseDecreases(s: State, t: nat)
    requires Safe(s) && Enabled(s, Advance(t)) && !Loops(s, t)
    ensures Rank(Operate(s, t)) < Rank(s)
  {
    var s' := Operate(s, t);
    Moved(s, s', t, s'.pc[t]);
    assert Owns(s, t) ==> s.word != 0;
    if s.pc[t].Idle? {
      SumUpdate(s.todo, t, s.todo[t] - 1);
    }
    MajorDominates(s, s');
  }

  lemma WakeDecreases(s: State, t: nat, u: nat)
    requires Safe(s) && Enabled(s, WakeOne(t, u))
    ensures Rank(Next(s, WakeOne(t, u))) < Rank(s)
  {
    var mid, s' := s.(pc := s.pc[t := Idle]), Next(s, WakeOne(t, u));
    Moved(s, mid, t, Idle);
    Moved(mid, s', u, Swap);
    MajorDominates(s, s');
  }

  lemma ErrorDecreases(s: State, t: nat)
    requires Safe(s) && Enabled(s, WaitError(t))
    ensures Rank(Next(s, WaitError(t))) < Rank(s)
  {
    Moved(s, Next(s, WaitError(t)), t, Idle);
    MajorDominates(s, Next(s, WaitError(t)));
  }

  lemma SpuriousRaises(s: State, u: nat)
    requires Safe(s) && Enabled(s, Spurious(u))
    ensures Rank(Next(s, Spurious(u))) <= Rank(s) + 3
  {
    var s' := Next(s, Spurious(u));
    Moved(s, s', u, Swap);
    assert Major(s') == Major(s);
  }

  /** Every step but a spurious wake-up decreases the measure; a spurious wake-up raises it by at
      most 3, one more round of the retry loop. */
  lemma StepDecreases(s: State, a: Action)
    requires Safe(s) && Enabled(s, a)
    ensures !a.Spurious? ==> Rank(Next(s, a)) < Rank(s)
    ensures a.Spurious? ==> Rank(Next(s, a)) <= Rank(s) + 3
  {
    match a
    case Advance(t) => if Loops(s, t) { LoopDecreases(s, t); } else { PhaseDecreases(s, t); }
    case WakeOne(t, u) => WakeDecreases(s, t, u);
    case WaitError(t) => ErrorDecreases(s, t);
    case Spurious(u) => SpuriousRaises(s, u);
  }

  ghost function SpuriousCount(acts: seq<Action>): nat {
    if acts == [] then 0
    else SpuriousCount(acts[..|acts| - 1]) + if acts[|acts| - 1].Spurious? then 1 else 0
  }

  /** Drain bound: a run is no longer than the starting measure plus four steps for each spurious
      wake-up in it. Without spurious wake-ups no run is longer than `Rank(run[0])`. */
  lemma {:induction false} RunsAreBounded(run: seq<State>, acts: seq<Action>)
    requires IsRun(run, acts) && Initial(run[0])
    ensures |acts| + Rank(run[|acts|]) <= Rank(run[0]) + 4 * SpuriousCount(acts)
  {
    if acts != [] {
      var n := |acts| - 1;
      assert IsRun(run[..|run| - 1], acts[..n]);
      RunsAreBounded(run[..|run| - 1], acts[..n]);
      EveryRunIsSafe(run, acts, n);
      StepDecreases(run[n], acts[n]);
    }
  }

  ghost predicate Drained(s: State) {
    && WellFormed(s)
    && s.word == 0
    && forall t :: 0 <= t < |s.pc| ==> s.pc[t] == Idle && s.todo[t] == 0
  }

  /** Done, or asleep: the thread takes no step on its own. */
  ghost predicate Stuck(s: State, t: nat)
    requires WellFormed(s) && t < |s.pc|
  {
    (s.pc[t].Idle? && s.todo[t] == 0) || Sleeping(s, t)
  }

  /** Nobody asleep is forgotten: with no thread left to run, nobody sleeps and the lock is free. */
  lemma AllStuckIsDrained(s: State)
    requires Safe(s) && forall t :: 0 <= t < |s.pc| ==> Stuck(s, t)
    ensures Drained(s)
  {
    forall t ensures !Owns(s, t) && !WakePending(s, t) && !AboutToSwap(s, t) {
      if 0 <= t < |s.pc| { assert Stuck(s, t); }
    }
    assert s.word == 0;
    forall t | 0 <= t < |s.pc| ensures s.pc[t] == Idle && s.todo[t] == 0 {
      assert Stuck(s, t) && !Sleeping(s, t);
    }
  }

  /** In a safe state either some thread can run on its own, or every call has returned, the lock
      is free and nobody is asleep. Spurious wake-ups are not counted on. */
  lemma ProgressOrDrained(s: State)
    requires Safe(s)
    ensures (exists a: Action :: !a.Spurious? && Enabled(s, a)) <==> !Drained(s)
  {
    if !Drained(s) {
      if forall t :: 0 <= t < |s.pc| ==> Stuck(s, t) {
        AllStuckIsDrained(s);
        assert false;
      }
      var t :| 0 <= t < |s.pc| && !Stuck(s, t);
      if s.pc[t].Wake? && exists u :: Sleeping(s, u) {
        var u :| Sleeping(s, u);
        assert Enabled(s, WakeOne(t, u));
      } else {
        assert Enabled(s, Advance(t));
      }
    } else {
      assert forall t :: !Sleeping(s, t);
    }
  }

  /** Lock calls that have started and neither been granted and counted nor refused. */
  ghost function Waiting(p: Pc): nat {
    match p
    case Cas => 1 case Swap => 1 case CountWait => 1 case Wait => 1 case Asleep => 1 case CountAcquire => 1
    case _ => 0
  }

  ghost function Ledger(s: State): nat {
    s.acquisitions + s.waitErrors + Sum(s.todo) + Total(s.pc, Waiting)
  }

  lemma OperateKeepsLedger(s: State, t: nat)
    requires Safe(s) && Enabled(s, Advance(t))
    ensures Ledger(Operate(s, t)) == Ledger(s)
  {
    TotalUpdate(s.pc, t, Operate(s, t).pc[t], Waiting);
    if s.pc[t].Idle? { SumUpdate(s.todo, t, s.todo[t] - 1); }
  }

  lemma StepKeepsLedger(s: State, a: Action)
    requires Safe(s) && Enabled(s, a)
    ensures Ledger(Next(s, a)) == Ledger(s)
  {
    match a
    case Advance(t) => OperateKeepsLedger(s, t);
    case WakeOne(t, u) =>
      TotalUpdate(s.pc, t, Idle, Waiting);
      TotalUpdate(s.pc[t := Idle], u, Swap, Waiting);
    case WaitError(t) => TotalUpdate(s.pc, t, Idle, Waiting);
    case Spurious(u) => TotalUpdate(s.pc, u, Swap, Waiting);
  }

  lemma {:induction false} AllIdleTotals(s: State, i: nat)
    requires WellFormed(s) && i <= |s.pc|
    requires forall t :: i <= t < |s.pc| ==> s.pc[t] == Idle
    ensures Total(s.pc[i..], Waiting) == 0
    ensures (forall t :: i <= t < |s.pc| ==> s.todo[t] == 0) ==> Sum(s.todo[i..]) == 0
    decreases |s.pc| - i
  {
    if i < |s.pc| {
      AllIdleTotals(s, i + 1);
      assert s.pc[i..][1..] == s.pc[i + 1..];
      assert s.todo[i..][1..] == s.todo[i + 1..];
    }
  }

  lemma {:induction false} RunKeepsLedger(run: seq<State>, acts: seq<Action>, i: nat)
    requires IsRun(run, acts) && Initial(run[0]) && i < |run|
    ensures Ledger(run[i]) == Ledger(run[0])
  {
    if i > 0 {
      RunKeepsLedger(run, acts, i - 1);
      EveryRunIsSafe(run, acts, i - 1);
      StepKeepsLedger(run[i - 1], acts[i - 1]);
    }
  }

  /** A run that nothing but a spurious wake-up could extend ends drained: all calls have returned,
      nobody is asleep, and every lock call asked for was either granted, and counted once in
      `acquisitions`, or refused by FUTEX_WAIT. */
  lemma MaximalRunDrains(run: seq<State>, acts: seq<Action>)
    requires IsRun(run, acts) && Initial(run[0])
    requires !exists a: Action :: !a.Spurious? && Enabled(run[|acts|], a)
    ensures Drained(run[|acts|])
    ensures run[|acts|].acquisitions + run[|acts|].waitErrors == Sum(run[0].todo)
  {
    var last := run[|acts|];
    EveryRunIsSafe(run, acts, |acts|);
    ProgressOrDrained(last);
    RunKeepsLedger(run, acts, |acts|);
    AllIdleTotals(last, 0);
    AllIdleTotals(run[0], 0);
    assert last.pc[0..] == last.pc && last.todo[0..] == last.todo;
    assert run[0].pc[0..] == run[0].pc;
  }

  // ------------------------------------------------------------------ when the kernel is called

  /** The step is an operation of a thread that stands at `p`. */
  ghost predicate Performs(s: State, a: Action, p: Pc) {
    a.Advance? && a.t < |s.pc| && s.pc[a.t] == p
  }

  /** Some thread has swapped in 2 since the lock was last released. */
  ghost predicate Contended(run: seq<State>, acts: seq<Action>, i: nat)
    requires i <= |acts| && |run| == |acts| + 1
  {
    exists j :: 0 <= j < i && Performs(run[j], acts[j], Swap) && NoRelease(run, acts, j + 1, i)
  }

  ghost predicate NoRelease(run: seq<State>, acts: seq<Action>, from: nat, i: nat)
    requires i <= |acts| && |run| == |acts| + 1
  {
    forall k :: from <= k < i ==> !Performs(run[k], acts[k], Release)
  }

  ghost predicate Owned(s: State) {
    exists t :: Owns(s, t)
  }

  lemma ContendedNext(run: seq<State>, acts: seq<Action>, i: nat)
    requires i < |acts| && |run| == |acts| + 1
    ensures Contended(run, acts, i + 1) <==>
      Performs(run[i], acts[i], Swap) || (Contended(run, acts, i) && !Performs(run[i], acts[i], Release))
  {
    if Contended(run, acts, i + 1) && !Performs(run[i], acts[i], Swap) {
      var j :| 0 <= j < i + 1 && Performs(run[j], acts[j], Swap) && NoRelease(run, acts, j + 1, i + 1);
      assert NoRelease(run, acts, j + 1, i);
    }
    if Contended(run, acts, i) && !Performs(run[i], acts[i], Release) {
      var j :| 0 <= j < i && Performs(run[j], acts[j], Swap) && NoRelease(run, acts, j + 1, i);
      assert NoRelease(run, acts, j + 1, i + 1);
    }
    if Performs(run[i], acts[i], Swap) {
      assert NoRelease(run, acts, i + 1, i + 1);
    }
  }

  lemma WordMoves(s: State, a: Action)
    requires Safe(s) && Enabled(s, a)
    ensures Next(s, a).word ==
      if Performs(s, a, Swap) then 2 else if Performs(s, a, Release) then 0
      else if Performs(s, a, Cas) && s.word == 0 then 1 else s.word
  {
  }

  /** What the three states mean, at every point of every run: 0 when nobody owns the lock, 2 when a thread
      that found it taken has swapped since the last release, 1 when it is owned and nobody has. */
  lemma {:induction false} WordSays(run: seq<State>, acts: seq<Action>, i: nat)
    requires IsRun(run, acts) && Initial(run[0]) && i < |run|
    ensures run[i].word == if Contended(run, acts, i) then 2 else if Owned(run[i]) then 1 else 0
    ensures Contended(run, acts, i) ==> Owned(run[i])
  {
    EveryRunIsSafe(run, acts, i);
    if i > 0 {
      WordSays(run, acts, i - 1);
      ContendedNext(run, acts, i - 1);
      EveryRunIsSafe(run, acts, i - 1);
      WordMoves(run[i - 1], acts[i - 1]);
      assert Owned(run[i]) <==> run[i].word != 0;
    }
  }

  /** How many swaps found the lock owned. */
  ghost function BlockedSwaps(run: seq<State>, acts: seq<Action>, i: nat): nat
    requires i <= |acts| && |run| == |acts| + 1
  {
    if i == 0 then 0 else
      BlockedSwaps(run, acts, i - 1) +
      if Performs(run[i - 1], acts[i - 1], Swap) && Owned(run[i - 1]) then 1 else 0
  }

  /** How many releases had a swap since the release before them. */
  ghost function ContendedReleases(run: seq<State>, acts: seq<Action>, i: nat): nat
    requires i <= |acts| && |run| == |acts| + 1
  {
    if i == 0 then 0 else
      ContendedReleases(run, acts, i - 1) +
      if Performs(run[i - 1], acts[i - 1], Release) && Contended(run, acts, i - 1) then 1 else 0
  }

  ghost function At(p: Pc): Pc -> nat {
    q => if q == p then 1 else 0
  }

  /** Wait calls, and those about to be counted; the same for wake calls. */
  ghost function Waits(s: State): nat {
    s.waitCalls + Total(s.pc, At(CountWait))
  }

  ghost function Wakes(s: State): nat {
    s.wakeCalls + Total(s.pc, At(CountWake))
  }

  lemma OperateWaits(s: State, t: nat)
    requires Safe(s) && Enabled(s, Advance(t))
    ensures Waits(Operate(s, t)) == Waits(s) + if s.pc[t] == Swap && s.word != 0 then 1 else 0
  {
    var p := Operate(s, t).pc[t];
    assert p == CountWait <==> s.pc[t] == Swap && s.word != 0;
    TotalUpdate(s.pc, t, p, At(CountWait));
  }

  lemma OperateWakes(s: State, t: nat)
    requires Safe(s) && Enabled(s, Advance(t))
    ensures Wakes(Operate(s, t)) == Wakes(s) + if s.pc[t] == Release && s.word == 2 then 1 else 0
  {
    var p := Operate(s, t).pc[t];
    assert p == CountWake <==> s.pc[t] == Release && s.word == 2;
    TotalUpdate(s.pc, t, p, At(CountWake));
  }

  lemma OthersCount(s: State, a: Action)
    requires Safe(s) && Enabled(s, a) && !a.Advance?
    ensures Waits(Next(s, a)) == Waits(s) && Wakes(Next(s, a)) == Wakes(s)
  {
    match a
    case WakeOne(t, u) =>
      NotCounting(s.pc, t, Idle);
      NotCounting(s.pc[t := Idle], u, Swap);
    case WaitError(t) => NotCounting(s.pc, t, Idle);
    case Spurious(u) => NotCounting(s.pc, u, Swap);
  }

  lemma NotCounting(pc: seq<Pc>, t: nat, p: Pc)
    requires t < |pc| && pc[t] != CountWait && pc[t] != CountWake && p != CountWait && p != CountWake
    ensures Total(pc[t := p], At(CountWait)) == Total(pc, At(CountWait))
    ensures Total(pc[t := p], At(CountWake)) == Total(pc, At(CountWake))
  {
    TotalUpdate(pc, t, p, At(CountWait));
    TotalUpdate(pc, t, p, At(CountWake));
  }

  lemma CallsMove(s: State, a: Action, s': State)
    requires Safe(s) && Enabled(s, a) && s' == Next(s, a)
    ensures Waits(s') == Waits(s) + if Performs(s, a, Swap) && Owned(s) then 1 else 0
    ensures Wakes(s') == Wakes(s) + if Performs(s, a, Release) && s.word == 2 then 1 else 0
  {
    assert Owned(s) <==> s.word != 0;
    if a.Advance? {
      OperateWaits(s, a.t);
      OperateWakes(s, a.t);
    } else {
      OthersCount(s, a);
    }
  }

  lemma {:induction false} NoneCounting(pc: seq<Pc>, p: Pc)
    requires p != Idle && forall t :: 0 <= t < |pc| ==> pc[t] == Idle
    ensures Total(pc, At(p)) == 0
  {
    if pc != [] { NoneCounting(pc[1..], p); }
  }

  lemma NothingCounted(s: State)
    requires Initial(s)
    ensures Waits(s) == 0 && Wakes(s) == 0
  {
    NoneCounting(s.pc, CountWait);
    NoneCounting(s.pc, CountWake);
  }

  /** The wait counter in every run, told by operations and program counters alone: one call for each swap
      that found the lock owned, but for the threads that have not yet counted it. */
  lemma {:induction false} WaitCallsAreCounted(run: seq<State>, acts: seq<Action>, i: nat)
    requires IsRun(run, acts) && Initial(run[0]) && i < |run|
    ensures Waits(run[i]) == BlockedSwaps(run, acts, i)
  {
    if i == 0 {
      NothingCounted(run[0]);
    } else {
      WaitCallsAreCounted(run, acts, i - 1);
      EveryRunIsSafe(run, acts, i - 1);
      CallsMove(run[i - 1], acts[i - 1], run[i]);
    }
  }

  /** The wake counter: one call for each release of a lock that was swapped for since the release before. */
  lemma {:induction false} WakeCallsAreCounted(run: seq<State>, acts: seq<Action>, i: nat)
    requires IsRun(run, acts) && Initial(run[0]) && i < |run|
    ensures Wakes(run[i]) == ContendedReleases(run, acts, i)
  {
    if i == 0 {
      NothingCounted(run[0]);
    } else {
      WakeCallsAreCounted(run, acts, i - 1);
      assert Contended(run, acts, i - 1) <==> run[i - 1].word == 2 by { WordSays(run, acts, i - 1); }
      EveryRunIsSafe(run, acts, i - 1);
      CallsMove(run[i - 1], acts[i - 1], run[i]);
    }
  }

  /** Every call of `lock` found the lock free. */
  ghost predicate Uncontended(run: seq<State>, acts: seq<Action>)
    requires |run| == |acts| + 1
  {
    forall j :: 0 <= j < |acts| && Performs(run[j], acts[j], Cas) ==> !Owned(run[j])
  }

  /** Nothing of the slow paths. */
  predicate Fast(p: Pc) {
    p.Idle? || p.Cas? || p.CountAcquire? || p.Held? || p.Release?
  }

  /** The lock on its fast path. */
  ghost predicate OnFastPath(s: State) {
    && (forall t :: 0 <= t < |s.pc| ==> Fast(s.pc[t]))
    && s.word == (if Owned(s) then 1 else 0) && s.waitCalls == 0 && s.wakeCalls == 0
  }

  lemma StaysFast(s: State, a: Action)
    requires Safe(s) && Enabled(s, a) && OnFastPath(s) && (Performs(s, a, Cas) ==> !Owned(s))
    ensures OnFastPath(Next(s, a)) && !Performs(s, a, Swap)
  {
    StepSafe(s, a);
    assert a.Advance?;
    assert Performs(s, a, Release) ==> Owns(s, a.t);
    assert Owned(Next(s, a)) <==> Next(s, a).word != 0;
  }

  lemma StartsFast(s: State)
    requires Initial(s)
    ensures OnFastPath(s)
  {
    assert forall t :: !Owns(s, t);
  }

  /** The fast path: with lock calls that find the lock free, whatever the number of threads, no thread
      ever swaps, waits or wakes, the word is 0 or 1, and neither system call is made. */
  lemma {:induction false} UncontendedIsFast(run: seq<State>, acts: seq<Action>, i: nat)
    requires IsRun(run, acts) && Initial(run[0]) && Uncontended(run, acts) && i < |run|
    ensures OnFastPath(run[i]) && !Contended(run, acts, i)
  {
    if i == 0 {
      StartsFast(run[0]);
    } else {
      UncontendedIsFast(run, acts, i - 1);
      EveryRunIsSafe(run, acts, i - 1);
      ContendedNext(run, acts, i - 1);
      StaysFast(run[i - 1], acts[i - 1]);
    }
  }

  // ------------------------------------------------------------------ the lock in memory

  /** The lock word and its counters, shared by threads whose program counters are kept beside
      them. `Perform` executes one step in place: an operation of a thread, or what the kernel does to it. */
  class Machine {
    var state: nat
    var acquisitions: nat
    var waitCalls: nat
    var wakeCalls: nat
    var waitErrors: nat
    const pc: array<Pc>
    const todo: array<nat>

    ghost predicate Valid()
      reads this, pc, todo
    {
      pc.Length == todo.Length
    }

    ghost function View(): State
      reads this, pc, todo
    {
      State(state, pc[..], todo[..], acquisitions, waitCalls, wakeCalls, waitErrors)
    }

    constructor (calls: seq<nat>)
      ensures Valid() && Initial(View()) && View().todo == calls
      ensures fresh(pc) && fresh(todo)
    {
      state, acquisitions, waitCalls, wakeCalls, waitErrors := 0, 0, 0, 0, 0;
      pc := new Pc[|calls|](_ => Idle);
      todo := new nat[|calls|](i requires 0 <= i < |calls| => calls[i]);
    }

    method CompareAndSwap(expected: nat, desired: nat) returns (swapped: bool)
      modifies `state
      ensures swapped == (old(state) == expected)
      ensures state == if swapped then desired else old(state)
    {
      swapped := state == expected;
      if swapped { state := desired; }
    }

    method SwapWord(desired: nat) returns (previous: nat)
      modifies `state
      ensures previous == old(state) && state == desired
    {
      previous := state;
      state := desired;
    }

    method Operation(t: nat)
      requires Valid() && Enabled(View(), Advance(t))
      modifies this, pc, todo
      ensures Valid() && View() == Next(old(View()), Advance(t))
    {
      match pc[t] {
        case Idle =>
          todo[t] := todo[t] - 1;
          pc[t] := Cas;
        case Cas =>
          var swapped := CompareAndSwap(0, 1);
          pc[t] := if swapped then CountAcquire else Swap;
        case Swap =>
          var previous := SwapWord(2);
          pc[t] := if previous == 0 then CountAcquire else CountWait;
        case CountWait =>
          waitCalls := waitCalls + 1;
          pc[t] := Wait;
        case Wait =>
          pc[t] := if state == 2 then Asleep else Swap;
        case CountAcquire =>
          acquisitions := acquisitions + 1;
          pc[t] := Held;
        case Held =>
          pc[t] := Release;
        case Release =>
          var previous := SwapWord(0);
          pc[t] := if previous == 0 then Misuse else if previous == 2 then CountWake else Idle;
        case CountWake =>
          wakeCalls := wakeCalls + 1;
          pc[t] := Wake;
        case Wake =>
          pc[t] := Idle;
      }
    }

    method Perform(a: Action)
      requires Valid() && Enabled(View(), a)
      modifies this, pc, todo
      ensures Valid() && View() == Next(old(View()), a)
    {
      match a {
        case Advance(t) =>
          Operation(t);
        case WakeOne(t, u) =>
          pc[t] := Idle;
          pc[u] := Swap;
        case WaitError(t) =>
          waitErrors := waitErrors + 1;
          pc[t] := Idle;
        case Spurious(u) =>
          pc[u] := Swap;
      }
    }
  }
}
