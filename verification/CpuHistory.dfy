/** The CPU collector poll after poll: what it reports of one task over any number of polls, against the
    counters it has read and against the scheduler. */
module CpuHistory {
  import opened Common
  import opened CpuCollector
  import opened FiniteSums
  import opened LiveRunCredit

  /** Successive polls: each starts from the tables that the one before has left. */
  ghost predicate IsPolling(xs: seq<Inputs>, self: nat) {
    && |xs| > 0
    && forall i :: 0 <= i < |xs| - 1 ==>
        AllHandled(xs[i], self, xs[i].raw.Keys, xs[i + 1].prev, xs[i + 1].live, xs[i + 1].stale)
  }

  lemma OneTask(xs: seq<Inputs>, self: nat, i: nat, k: TaskKey)
    requires IsPolling(xs, self) && i + 1 < |xs|
    ensures Handled(xs[i], self, k in xs[i].raw, k, xs[i + 1].prev, xs[i + 1].live, xs[i + 1].stale)
  {
  }

  // ------------------------------------------------------------------ the counters of a task

  /** A counter as a table has it: 0 for a task that is not in the table. */
  function Value(table: map<TaskKey, TaskStat>, k: TaskKey, m: Measure): nat {
    if k !in table then 0 else
      match m
      case RunNs => table[k].runNs
      case RunqNs => table[k].runqNs
      case RunqCount => table[k].runqCount
      case Switches => table[k].ctx
  }

  /** What the first polls have charged to a task. */
  function Total(xs: seq<Inputs>, i: nat, k: TaskKey, m: Measure): nat
    requires i <= |xs|
  {
    if i == 0 then 0 else
      Total(xs, i - 1, k, m) + if k in xs[i - 1].raw then Part(DeltaOf(xs[i - 1], k), m) else 0
  }

  /** The final values of counters that were replaced by smaller ones, or whose task left the tables. */
  function Retired(xs: seq<Inputs>, i: nat, k: TaskKey, m: Measure): nat
    requires i < |xs|
  {
    if i == 0 then 0 else
      var prev, raw, kept := Value(xs[i - 1].prev, k, m), Value(xs[i - 1].raw, k, m), Value(xs[i].prev, k, m);
      Retired(xs, i - 1, k, m) + (if raw < prev then prev else 0) + (if k in xs[i].prev then 0 else raw)
  }

  lemma CounterStep(x: Inputs, self: nat, k: TaskKey, m: Measure, next: Inputs)
    requires Handled(x, self, k in x.raw, k, next.prev, next.live, next.stale) && m != RunNs
    ensures var prev, raw := Value(x.prev, k, m), Value(x.raw, k, m);
      && (k in x.raw ==> Part(DeltaOf(x, k), m) == if raw < prev then raw else raw - prev)
      && (k in next.prev ==> k in x.raw && Value(next.prev, k, m) == raw)
  {
  }

  /** Switches and run-queue waits, their time and number, add up to the counters: over any polls what has
      been charged to a task is the value last read, plus the final values of the counters it had before. */
  lemma {:induction false} CountersAddUp(xs: seq<Inputs>, self: nat, i: nat, k: TaskKey, m: Measure)
    requires IsPolling(xs, self) && i < |xs| && k !in xs[0].prev && m != RunNs
    ensures Total(xs, i, k, m) == Value(xs[i].prev, k, m) + Retired(xs, i, k, m)
  {
    if i > 0 {
      CountersAddUp(xs, self, i - 1, k, m);
      OneTask(xs, self, i - 1, k);
      CounterStep(xs[i - 1], self, k, m, xs[i]);
    }
  }

  // ------------------------------------------------------------------ tasks that are gone

  /** The task is another process's and is read, its switches and run-queue waits have not moved (or start
      again at 0), no run time is charged, and it is not in /proc. */
  predicate Vanished(x: Inputs, self: nat, k: TaskKey) {
    && k.tgid != self && k in x.raw && k !in x.alive && ChargeOf(x, k).deltaNs == 0
    && x.raw[k].ctx in {0, Value(x.prev, k, Switches)} && x.raw[k].runqCount in {0, Value(x.prev, k, RunqCount)}
  }

  /** How often in a row that was so when the task was read. */
  function VanishedRun(xs: seq<Inputs>, self: nat, i: nat, k: TaskKey): nat
    requires i <= |xs|
  {
    if i == 0 then 0
    else if k !in xs[i - 1].raw then VanishedRun(xs, self, i - 1, k)
    else if Vanished(xs[i - 1], self, k) then VanishedRun(xs, self, i - 1, k) + 1
    else 0
  }

  lemma StaleStep(x: Inputs, self: nat, k: TaskKey, next: Inputs)
    requires Handled(x, self, k in x.raw, k, next.prev, next.live, next.stale)
    ensures Get(next.stale, k, 0)
         == if k !in x.raw then Get(x.stale, k, 0) else if Vanished(x, self, k) then Get(x.stale, k, 0) + 1 else 0
  {
  }

  lemma {:induction false} StaleIsVanishedRun(xs: seq<Inputs>, self: nat, i: nat, k: TaskKey)
    requires IsPolling(xs, self) && i < |xs| && k !in xs[0].stale
    ensures Get(xs[i].stale, k, 0) == VanishedRun(xs, self, i, k)
  {
    if i > 0 {
      StaleIsVanishedRun(xs, self, i - 1, k);
      OneTask(xs, self, i - 1, k);
      StaleStep(xs[i - 1], self, k, xs[i]);
    }
  }

  /** A task read is kept, with the counters read, unless it is the poller's own or this is at least the third
      time in a row that nothing moved and it was not in /proc. */
  lemma KeptUnlessVanished(xs: seq<Inputs>, self: nat, i: nat, k: TaskKey)
    requires IsPolling(xs, self) && i + 1 < |xs| && k !in xs[0].stale
    ensures k in xs[i + 1].prev
            <==> k in xs[i].raw && k.tgid != self && VanishedRun(xs, self, i + 1, k) < 3
    ensures k in xs[i + 1].prev ==> xs[i + 1].prev[k] == xs[i].raw[k]
  {
    StaleIsVanishedRun(xs, self, i, k);
    OneTask(xs, self, i, k);
  }

  // ------------------------------------------------------------------ the run time of a task

  /** This poll reads of the task what the run has at this point: the counter, the clock and, unless it is
      missed or the clock cannot be read, the open interval. */
  predicate Reads(x: Inputs, k: TaskKey, w: World, seen: bool) {
    && w.phase.Clocked? && k in x.raw && x.raw[k].runNs == w.phase.counter
    && if seen then x.nowNs == w.phase.at.now && Lookup(x.running, k) == w.k.entry
       else k !in x.running || x.nowNs == 0
  }

  /** The tables of the poll have of the task what the run says. */
  predicate Tables(x: Inputs, k: TaskKey, w: World) {
    Value(x.prev, k, RunNs) == w.prev && Get(x.live, k, NO_CREDIT) == w.credit
  }

  lemma PollIsRead(x: Inputs, self: nat, k: TaskKey, w: World, seen: bool, next: Inputs)
    requires Reads(x, k, w, seen) && Tables(x, k, w) && k in next.prev
    requires Handled(x, self, true, k, next.prev, next.live, next.stale)
    ensures Tables(next, k, Happen(w, ReadRunning(seen)))
    ensures Happen(w, ReadRunning(seen)).reportedNs == w.reportedNs + DeltaOf(x, k).runNs
  {
  }

  /** How many polls of the task have ended. */
  function Polls(evs: seq<Event>): nat {
    if evs == [] then 0 else Polls(evs[..|evs| - 1]) + if evs[|evs| - 1].ReadRunning? then 1 else 0
  }

  /** The polls of the collector are those of the run, one after the other, and keep the task. */
  ghost predicate Aligned(xs: seq<Inputs>, k: TaskKey, run: seq<World>, evs: seq<Event>) {
    && LiveRunCredit.IsRun(run, evs) && Polls(evs) < |xs|
    && (forall n :: 1 <= n < |xs| ==> k in xs[n].prev)
    && forall i :: 0 <= i < |evs| && evs[i].ReadRunning? ==>
        Polls(evs[..i]) < |xs| && Reads(xs[Polls(evs[..i])], k, run[i], evs[i].seen)
  }

  lemma {:induction false} PollsGrow(evs: seq<Event>, i: nat)
    requires i <= |evs|
    ensures Polls(evs[..i]) <= Polls(evs)
    decreases |evs|
  {
    if i < |evs| {
      assert evs[..|evs| - 1][..i] == evs[..i];
      PollsGrow(evs[..|evs| - 1], i);
    } else {
      assert evs[..i] == evs;
    }
  }

  /** The run time that the collector charges to a task over its polls is what the run reports, at every
      point of it: what is proved of all runs of scheduler and poller holds of the collector. */
  lemma {:induction false} ChargesAreReported(xs: seq<Inputs>, self: nat, k: TaskKey, run: seq<World>, evs: seq<Event>,
                                              i: nat)
    requires IsPolling(xs, self) && Aligned(xs, k, run, evs) && i < |run|
    requires Start(run[0]) && k !in xs[0].prev && k !in xs[0].live
    ensures Polls(evs[..i]) < |xs| && Tables(xs[Polls(evs[..i])], k, run[i])
    ensures run[i].reportedNs == Total(xs, Polls(evs[..i]), k, RunNs)
  {
    PollsGrow(evs, i);
    if i == 0 {
      assert evs[..0] == [];
    } else {
      ChargesAreReported(xs, self, k, run, evs, i - 1);
      assert evs[..i][..i - 1] == evs[..i - 1];
      assert run[i] == Happen(run[i - 1], evs[i - 1]);
      if evs[i - 1].ReadRunning? {
        var n := Polls(evs[..i - 1]);
        OneTask(xs, self, n, k);
        PollIsRead(xs[n], self, k, run[i - 1], evs[i - 1].seen, xs[n + 1]);
      }
    }
  }

  /** Together: over any polls the collector never charges a task more than it has truly run and what
      missed walks have made it forget. */
  lemma NeverChargedTooMuch(xs: seq<Inputs>, self: nat, k: TaskKey, run: seq<World>, evs: seq<Event>)
    requires IsPolling(xs, self) && Aligned(xs, k, run, evs)
    requires Start(run[0]) && k !in xs[0].prev && k !in xs[0].live
    ensures Total(xs, Polls(evs), k, RunNs) <= TrueRuntime(run[|evs|].k) + run[|evs|].forgotNs
  {
    assert evs[..|evs|] == evs;
    ChargesAreReported(xs, self, k, run, evs, |evs|);
    NoDoubleCounting(run, evs, |evs|);
  }
}
