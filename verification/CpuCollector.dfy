/** The poller's side of CPU accounting: `liveRunDelta`, stale-task deletion and the delta loop that
    turns cumulative task counters into per-process deltas. */
module CpuCollector {
  import opened Common
  import opened FiniteSums
  import opened LiveRunCredit

  datatype TaskKey = TaskKey(tgid: nat, tid: nat)

  datatype TaskStat = TaskStat(runNs: nat, runqNs: nat, runqCount: nat, ctx: nat)

  /** One process: sums over its threads, and its hottest thread. */
  datatype Process = Process(sums: TaskStat, top: TaskKey, topRunNs: nat)

  const ZERO_STAT := TaskStat(0, 0, 0, 0)

  function Get<K, V>(m: map<K, V>, k: K, zero: V): V {
    if k in m then m[k] else zero
  }

  /** The tables a poll starts from, and what it reads from the kernel maps and the clock. */
  datatype Inputs = Inputs(
    live: map<TaskKey, Credit>, prev: map<TaskKey, TaskStat>, stale: map<TaskKey, nat>,
    raw: map<TaskKey, TaskStat>, running: map<TaskKey, nat>, nowNs: nat, alive: set<TaskKey>)

  /** The run-time charge of one task in this poll. */
  function ChargeOf(x: Inputs, k: TaskKey): Charged {
    Charge(Get(x.live, k, NO_CREDIT), Get(x.raw, k, ZERO_STAT).runNs, Get(x.prev, k, ZERO_STAT).runNs,
           Lookup(x.running, k), x.nowNs)
  }

  function DeltaOf(x: Inputs, k: TaskKey): TaskStat {
    var v, p := Get(x.raw, k, ZERO_STAT), Get(x.prev, k, ZERO_STAT);
    TaskStat(ChargeOf(x, k).deltaNs, CounterDelta(v.runqNs, p.runqNs),
             CounterDelta(v.runqCount, p.runqCount), CounterDelta(v.ctx, p.ctx))
  }

  predicate Inactive(d: TaskStat) {
    d.runNs == 0 && d.ctx == 0 && d.runqCount == 0
  }

  /** A task is dropped once it has been inactive and gone from /proc for three polls. */
  predicate Dropped(x: Inputs, k: TaskKey) {
    Inactive(DeltaOf(x, k)) && k !in x.alive && Get(x.stale, k, 0) + 1 >= STALE_WINDOWS_BEFORE_DELETE
  }

  /** The four measures of a task or a process. */
  datatype Measure = RunNs | RunqNs | RunqCount | Switches

  function Part(d: TaskStat, m: Measure): nat {
    match m
    case RunNs => d.runNs
    case RunqNs => d.runqNs
    case RunqCount => d.runqCount
    case Switches => d.ctx
  }

  /** What a thread adds to a measure of its process: its difference, if it was active. */
  ghost function Share(x: Inputs, m: Measure): TaskKey -> int {
    k => if Inactive(DeltaOf(x, k)) then 0 else Part(DeltaOf(x, k), m)
  }

  /** The tasks of one process among the given keys. */
  ghost function Threads(keys: set<TaskKey>, tgid: nat): set<TaskKey> {
    set k | k in keys && k.tgid == tgid
  }

  ghost predicate SomeActive(x: Inputs, threads: set<TaskKey>) {
    exists k :: k in threads && !Inactive(DeltaOf(x, k))
  }

  /** Run time, run-queue waits and switches are the sums over the active threads, and the top thread is
      one with the largest charge. */
  ghost predicate Summarises(p: Process, x: Inputs, threads: set<TaskKey>) {
    && (forall m :: Part(p.sums, m) == Sum(threads, Share(x, m)))
    && p.top in threads && p.topRunNs == DeltaOf(x, p.top).runNs
    && forall k :: k in threads ==> DeltaOf(x, k).runNs <= p.topRunNs
  }

  /** A process has an entry exactly when some of its threads was active, and the entry summarises
      them all. */
  ghost predicate Describes(procs: map<nat, Process>, x: Inputs, keys: set<TaskKey>, tgid: nat) {
    && (tgid in procs <==> SomeActive(x, Threads(keys, tgid)))
    && (tgid in procs ==> Summarises(procs[tgid], x, Threads(keys, tgid)))
  }

  lemma ThreadsInsert(x: Inputs, keys: set<TaskKey>, k: TaskKey)
    requires k !in keys
    ensures forall t :: t != k.tgid ==> Threads(keys + {k}, t) == Threads(keys, t)
    ensures Threads(keys + {k}, k.tgid) == Threads(keys, k.tgid) + {k}
  {
    assert Threads(keys + {k}, k.tgid) == Threads(keys, k.tgid) + {k};
  }

  /** The process table after one more thread: inactive threads leave no trace. */
  function Collected(procs: map<nat, Process>, k: TaskKey, d: TaskStat): map<nat, Process> {
    if Inactive(d) then procs else procs[k.tgid := Added(procs, k, d)]
  }

  lemma {:induction false} IdleSum(x: Inputs, threads: set<TaskKey>, m: Measure)
    requires !SomeActive(x, threads)
    ensures Sum(threads, Share(x, m)) == 0
    decreases threads
  {
    if threads != {} {
      var k :| k in threads;
      SumRemove(threads, Share(x, m), k);
      assert Inactive(DeltaOf(x, k));
      IdleSum(x, threads - {k}, m);
    }
  }

  lemma SomeActiveInsert(x: Inputs, threads: set<TaskKey>, k: TaskKey)
    ensures SomeActive(x, threads + {k}) <==> SomeActive(x, threads) || !Inactive(DeltaOf(x, k))
  {
    assert k in threads + {k};
    assert forall j :: j in threads ==> j in threads + {k};
  }

  lemma SummarisesIdle(p: Process, x: Inputs, threads: set<TaskKey>, k: TaskKey)
    requires Summarises(p, x, threads) && k !in threads && Inactive(DeltaOf(x, k))
    ensures Summarises(p, x, threads + {k})
  {
    forall m ensures Part(p.sums, m) == Sum(threads + {k}, Share(x, m)) {
      SumInsert(threads, Share(x, m), k);
    }
  }

  lemma DescribesInactive(procs: map<nat, Process>, x: Inputs, keys: set<TaskKey>, k: TaskKey)
    requires k !in keys && Describes(procs, x, keys, k.tgid) && Inactive(DeltaOf(x, k))
    ensures Describes(procs, x, keys + {k}, k.tgid)
  {
    ThreadsInsert(x, keys, k);
    SomeActiveInsert(x, Threads(keys, k.tgid), k);
    if k.tgid in procs {
      SummarisesIdle(procs[k.tgid], x, Threads(keys, k.tgid), k);
    }
  }

  lemma AddedParts(procs: map<nat, Process>, k: TaskKey, d: TaskStat, m: Measure)
    requires k.tgid in procs
    ensures Part(Added(procs, k, d).sums, m) == Part(procs[k.tgid].sums, m) + Part(d, m)
  {}

  lemma AddedTop(procs: map<nat, Process>, x: Inputs, threads: set<TaskKey>, k: TaskKey)
    requires k.tgid in procs && Summarises(procs[k.tgid], x, threads)
    ensures var p := Added(procs, k, DeltaOf(x, k));
      && p.top in threads + {k} && p.topRunNs == DeltaOf(x, p.top).runNs
      && forall j :: j in threads + {k} ==> DeltaOf(x, j).runNs <= p.topRunNs
  {}

  lemma SummarisesMore(procs: map<nat, Process>, x: Inputs, threads: set<TaskKey>, k: TaskKey)
    requires k !in threads && k.tgid in procs && Summarises(procs[k.tgid], x, threads) && !Inactive(DeltaOf(x, k))
    ensures Summarises(Added(procs, k, DeltaOf(x, k)), x, threads + {k})
  {
    var p := Added(procs, k, DeltaOf(x, k));
    forall m ensures Part(p.sums, m) == Sum(threads + {k}, Share(x, m)) {
      AddedParts(procs, k, DeltaOf(x, k), m);
      SumInsert(threads, Share(x, m), k);
    }
    AddedTop(procs, x, threads, k);
  }

  lemma SummarisesFirst(x: Inputs, threads: set<TaskKey>, k: TaskKey)
    requires k !in threads && !SomeActive(x, threads) && !Inactive(DeltaOf(x, k))
    ensures Summarises(Process(DeltaOf(x, k), k, DeltaOf(x, k).runNs), x, threads + {k})
  {
    forall m ensures Part(DeltaOf(x, k), m) == Sum(threads + {k}, Share(x, m)) {
      SumInsert(threads, Share(x, m), k);
      IdleSum(x, threads, m);
    }
    forall j | j in threads ensures DeltaOf(x, j).runNs == 0 {
      assert Inactive(DeltaOf(x, j));
    }
  }

  lemma DescribesActive(procs: map<nat, Process>, x: Inputs, keys: set<TaskKey>, k: TaskKey)
    requires k !in keys && Describes(procs, x, keys, k.tgid) && !Inactive(DeltaOf(x, k))
    ensures Describes(procs[k.tgid := Added(procs, k, DeltaOf(x, k))], x, keys + {k}, k.tgid)
  {
    ThreadsInsert(x, keys, k);
    SomeActiveInsert(x, Threads(keys, k.tgid), k);
    if k.tgid in procs {
      SummarisesMore(procs, x, Threads(keys, k.tgid), k);
    } else {
      SummarisesFirst(x, Threads(keys, k.tgid), k);
    }
  }

  /** Every process but the observer's own is described. */
  ghost predicate AllDescribed(procs: map<nat, Process>, x: Inputs, keys: set<TaskKey>, self: nat) {
    && self !in procs
    && forall t :: t != self ==> Describes(procs, x, keys, t)
  }

  /** Collecting one more thread keeps every process entry a description of the threads seen. */
  lemma AllDescribedInsert(procs: map<nat, Process>, x: Inputs, keys: set<TaskKey>, k: TaskKey, self: nat)
    requires k !in keys && AllDescribed(procs, x, keys, self)
    ensures k.tgid == self ==> AllDescribed(procs, x, keys + {k}, self)
    ensures k.tgid != self ==> AllDescribed(Collected(procs, k, DeltaOf(x, k)), x, keys + {k}, self)
  {
    var after := if k.tgid == self then procs else Collected(procs, k, DeltaOf(x, k));
    forall t | t != self ensures Describes(after, x, keys + {k}, t) {
      assert Describes(procs, x, keys, t);
      if t != k.tgid {
        assert Threads(keys + {k}, t) == Threads(keys, t);
      } else if Inactive(DeltaOf(x, k)) {
        DescribesInactive(procs, x, keys, k);
      } else {
        DescribesActive(procs, x, keys, k);
      }
    }
  }

  /** A process entry after one more active thread. */
  function Added(procs: map<nat, Process>, k: TaskKey, d: TaskStat): Process {
    if k.tgid !in procs then Process(d, k, d.runNs) else
      var p := procs[k.tgid];
      var sums := TaskStat(p.sums.runNs + d.runNs, p.sums.runqNs + d.runqNs,
                           p.sums.runqCount + d.runqCount, p.sums.ctx + d.ctx);
      if d.runNs > p.topRunNs then Process(sums, k, d.runNs) else p.(sums := sums)
  }

  /** The stale count of a task after its turn: one more for an inactive task that is gone. */
  function StaleAfter(x: Inputs, self: nat, k: TaskKey): nat {
    if k.tgid != self && Inactive(DeltaOf(x, k)) && k !in x.alive then Get(x.stale, k, 0) + 1 else 0
  }

  /** One task before (`!done`) or after its turn in a poll: untouched, or kept with the counter
      snapshot and the credit `Charge` gives it, or dropped with its credit; and its stale count. */
  ghost predicate Handled(x: Inputs, self: nat, done: bool, k: TaskKey, kept: map<TaskKey, TaskStat>,
                          live: map<TaskKey, Credit>, stale: map<TaskKey, nat>) {
    && (k in kept <==> k in x.raw && (done ==> k.tgid != self && !Dropped(x, k)))
    && (k in kept ==> kept[k] == x.raw[k])
    && if !done then Lookup(live, k) == Lookup(x.live, k) && Get(stale, k, 0) == Get(x.stale, k, 0)
       else Get(stale, k, 0) == StaleAfter(x, self, k)
            && if k in kept then Get(live, k, NO_CREDIT) == ChargeOf(x, k).credit else k !in live
  }

  ghost predicate AllHandled(x: Inputs, self: nat, done: set<TaskKey>, kept: map<TaskKey, TaskStat>,
                             live: map<TaskKey, Credit>, stale: map<TaskKey, nat>) {
    forall k :: Handled(x, self, k in done, k, kept, live, stale)
  }

  lemma NothingHandled(x: Inputs, self: nat)
    ensures AllHandled(x, self, {}, x.raw, x.live, x.stale)
    ensures AllDescribed(map[], x, {}, self)
  {
    forall t ensures Describes(map[], x, {}, t) {
      assert Threads({}, t) == {};
    }
  }

  /** Handling one more key touches no other key's credit or stale count. */
  lemma AllHandledInsert(x: Inputs, self: nat, done: set<TaskKey>, k: TaskKey,
                         kept: map<TaskKey, TaskStat>, live: map<TaskKey, Credit>, stale: map<TaskKey, nat>,
                         kept': map<TaskKey, TaskStat>, live': map<TaskKey, Credit>, stale': map<TaskKey, nat>)
    requires AllHandled(x, self, done, kept, live, stale) && k in x.raw && k !in done
    requires live' - {k} == live - {k} && stale' - {k} == stale - {k}
    requires kept' == if k.tgid == self || Dropped(x, k) then kept - {k} else kept
    requires if k in kept' then Get(live', k, NO_CREDIT) == ChargeOf(x, k).credit else k !in live'
    requires Get(stale', k, 0) == StaleAfter(x, self, k)
    ensures AllHandled(x, self, done + {k}, kept', live', stale')
  {
    forall j ensures Handled(x, self, j in done + {k}, j, kept', live', stale') {
      assert Handled(x, self, j in done, j, kept, live, stale);
      if j != k {
        assert Lookup(live' - {k}, j) == Lookup(live - {k}, j);
        assert Get(stale' - {k}, j, 0) == Get(stale - {k}, j, 0);
      }
    }
  }

  class Collector {
    var prev: map<TaskKey, TaskStat>
    var liveRuns: map<TaskKey, Credit>
    var stale: map<TaskKey, nat>
    const selfTgid: nat

    constructor (self: nat)
      ensures prev == map[] && liveRuns == map[] && stale == map[] && selfTgid == self
    {
      prev, liveRuns, stale, selfTgid := map[], map[], map[], self;
    }

    method LiveRunDelta(key: TaskKey, current: nat, previous: nat, startNs: nat, isRunning: bool, nowNs: nat)
      returns (delta: nat)
      modifies `liveRuns
      ensures Charged(Get(liveRuns, key, NO_CREDIT), delta)
           == Charge(Get(old(liveRuns), key, NO_CREDIT), current, previous,
                     if isRunning then Some(startNs) else None, nowNs)
      ensures liveRuns - {key} == old(liveRuns) - {key}
      ensures current < previous ==>
        var open := if isRunning && nowNs > startNs then nowNs - startNs else 0;
        && delta == current + open
        && Get(liveRuns, key, NO_CREDIT) == if open > 0 then Credit(startNs, open, open) else NO_CREDIT
      ensures var credit := Get(liveRuns, key, NO_CREDIT);
        if isRunning && nowNs > startNs > 0 then credit.startNs == startNs && credit.reportedAtNs == nowNs - startNs
        else !(isRunning && nowNs > startNs) ==> credit.startNs == 0 == credit.reportedAtNs
    {
      var credit := Get(liveRuns, key, NO_CREDIT);
      if current < previous {
        credit := NO_CREDIT;
      }
      delta := CounterDelta(current, previous);
      if credit.outstandingNs > 0 {
        var repaid := credit.outstandingNs;
        if repaid > delta {
          repaid := delta;
        }
        delta := delta - repaid;
        credit := credit.(outstandingNs := credit.outstandingNs - repaid);
      }
      var synthetic := 0;
      if isRunning && nowNs > startNs {
        var total := nowNs - startNs;
        if credit.startNs == startNs && total >= credit.reportedAtNs {
          synthetic := total - credit.reportedAtNs;
        } else {
          synthetic := total;
        }
        credit := Credit(startNs, total, credit.outstandingNs + synthetic);
      } else {
        credit := credit.(startNs := 0, reportedAtNs := 0);
      }
      if credit.outstandingNs == 0 && credit.startNs == 0 {
        liveRuns := liveRuns - {key};
      } else {
        liveRuns := liveRuns[key := credit];
      }
      delta := delta + synthetic;
    }

    method ShouldDeleteTask(key: TaskKey, inactive: bool, exists_: bool) returns (deleted: bool)
      modifies `stale
      ensures deleted <==>
        inactive && !exists_ && Get(old(stale), key, 0) + 1 >= STALE_WINDOWS_BEFORE_DELETE
      ensures stale == if inactive && !exists_ then old(stale)[key := Get(old(stale), key, 0) + 1]
                       else old(stale) - {key}
    {
      if inactive && !exists_ {
        stale := stale[key := Get(stale, key, 0) + 1];
        return stale[key] >= STALE_WINDOWS_BEFORE_DELETE;
      }
      stale := stale - {key};
      return false;
    }

    /** The tables of this collector and the snapshots of one poll. */
    ghost function PollInputs(raw: map<TaskKey, TaskStat>, running: map<TaskKey, nat>, nowNs: nat,
            alive: set<TaskKey>): Inputs
      reads this
    {
      Inputs(liveRuns, prev, stale, raw, running, nowNs, alive)
    }

    /** The loop body for one task of another process: charge it, and drop it when it is stale. */
    method ChargeTask(k: TaskKey, v: TaskStat, running: map<TaskKey, nat>, nowNs: nat, alive: bool)
      returns (d: TaskStat, deleted: bool)
      modifies `liveRuns, `stale
      ensures var c := Charge(Get(old(liveRuns), k, NO_CREDIT), v.runNs, Get(prev, k, ZERO_STAT).runNs,
                              Lookup(running, k), nowNs);
        && d.runNs == c.deltaNs
        && (deleted ==> k !in liveRuns)
        && (!deleted ==> Get(liveRuns, k, NO_CREDIT) == c.credit)
      ensures d == TaskStat(d.runNs, CounterDelta(v.runqNs, Get(prev, k, ZERO_STAT).runqNs),
        CounterDelta(v.runqCount, Get(prev, k, ZERO_STAT).runqCount), CounterDelta(v.ctx, Get(prev, k, ZERO_STAT).ctx))
      ensures deleted <==>
        Inactive(d) && !alive && Get(old(stale), k, 0) + 1 >= STALE_WINDOWS_BEFORE_DELETE
      ensures Get(stale, k, 0) == if Inactive(d) && !alive then Get(old(stale), k, 0) + 1 else 0
      ensures liveRuns - {k} == old(liveRuns) - {k} && stale - {k} == old(stale) - {k}
    {
      var p := Get(prev, k, ZERO_STAT);
      var runNs := LiveRunDelta(k, v.runNs, p.runNs, Get(running, k, 0), k in running, nowNs);
      d := TaskStat(runNs, CounterDelta(v.runqNs, p.runqNs),
                    CounterDelta(v.runqCount, p.runqCount), CounterDelta(v.ctx, p.ctx));
      deleted := ShouldDeleteTask(k, Inactive(d), alive);
      if deleted {
        liveRuns := liveRuns - {k};
      }
    }

    /** One iteration of the delta loop. */
    method PollTask(k: TaskKey, v: TaskStat, ghost x: Inputs, ghost done: set<TaskKey>, running: map<TaskKey, nat>,
            nowNs: nat,
                    alive: bool, kept: map<TaskKey, TaskStat>, processes: map<nat, Process>)
      returns (kept': map<TaskKey, TaskStat>, processes': map<nat, Process>)
      requires k in x.raw && v == x.raw[k] && k !in done && prev == x.prev
      requires running == x.running && nowNs == x.nowNs && (alive <==> k in x.alive)
      requires AllHandled(x, selfTgid, done, kept, liveRuns, stale)
      requires AllDescribed(processes, x, done, selfTgid)
      modifies `liveRuns, `stale
      ensures AllHandled(x, selfTgid, done + {k}, kept', liveRuns, stale)
      ensures AllDescribed(processes', x, done + {k}, selfTgid)
    {
      kept', processes' := kept, processes;
      ghost var lives, stales := liveRuns, stale;
      assert Handled(x, selfTgid, k in done, k, kept, lives, stales);
      AllDescribedInsert(processes, x, done, k, selfTgid);
      if k.tgid == selfTgid {
        kept', liveRuns, stale := kept - {k}, liveRuns - {k}, stale - {k};
      } else {
        var d, deleted := ChargeTask(k, v, running, nowNs, alive);
        assert d == DeltaOf(x, k);
        if deleted {
          kept' := kept - {k};
        } else if !Inactive(d) {
          processes' := processes[k.tgid := Added(processes, k, d)];
        }
      }
      AllHandledInsert(x, selfTgid, done, k, kept, lives, stales, kept', liveRuns, stale);
    }

    /** One poll: the delta loop over the counter snapshot, in any order of its keys. Each task is
        charged by `Charge` from its own credit and counters alone. */
    method Poll(raw: map<TaskKey, TaskStat>, running: map<TaskKey, nat>, nowNs: nat, alive: set<TaskKey>)
      returns (processes: map<nat, Process>)
      modifies this
      ensures AllHandled(old(PollInputs(raw, running, nowNs, alive)), selfTgid, raw.Keys, prev, liveRuns, stale)
      ensures AllDescribed(processes, old(PollInputs(raw, running, nowNs, alive)), raw.Keys, selfTgid)
    {
      ghost var x := PollInputs(raw, running, nowNs, alive);
      processes := map[];
      var kept := raw;
      var todo := raw.Keys;
      ghost var done: set<TaskKey> := {};
      NothingHandled(x, selfTgid);
      while todo != {}
        invariant done !! todo && done + todo == raw.Keys && prev == x.prev
        invariant AllHandled(x, selfTgid, done, kept, liveRuns, stale)
        invariant AllDescribed(processes, x, done, selfTgid)
        decreases |todo|
      {
        var k :| k in todo;
        kept, processes := PollTask(k, raw[k], x, done, running, nowNs, k in alive, kept, processes);
        done, todo := done + {k}, todo - {k};
      }
      assert done == raw.Keys;
      prev := kept;
    }
  }
}
