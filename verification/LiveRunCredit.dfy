/** CPU time of a task that is still running: the poller reads the cumulative counter, then the
    clock, then the running interval, while the scheduler keeps switching. It reports the open
    interval early and repays that credit from the counter later. */
module LiveRunCredit {
  import opened Common
  import opened FiniteSums

  // ------------------------------------------------------------------ one task, one poll

  /** `liveRunCredit`; a task without an entry in `liveRuns` has the zero credit. */
  datatype Credit = Credit(startNs: nat, reportedAtNs: nat, outstandingNs: nat)

  const NO_CREDIT := Credit(0, 0, 0)

  datatype Charged = Charged(credit: Credit, deltaNs: nat)

  /** What `liveRunDelta` leaves as credit and returns; `running` is the start of the interval found
      in the on-CPU map. */
  function Charge(credit: Credit, current: nat, previous: nat, running: Option<nat>, nowNs: nat): Charged {
    var kept := if current < previous then NO_CREDIT else credit;
    var counted := CounterDelta(current, previous);
    var repaid := if kept.outstandingNs > counted then counted else kept.outstandingNs;
    var owed := kept.outstandingNs - repaid;
    if running.Some? && nowNs > running.value then
      var total := nowNs - running.value;
      var synthetic :=
        if kept.startNs == running.value && total >= kept.reportedAtNs then total - kept.reportedAtNs else total;
      Charged(Stored(Credit(running.value, total, owed + synthetic)), counted - repaid + synthetic)
    else
      Charged(Stored(Credit(0, 0, owed)), counted - repaid)
  }

  /** A credit with nothing outstanding and no interval is deleted from the map. */
  function Stored(c: Credit): Credit {
    if c.outstandingNs == 0 && c.startNs == 0 then NO_CREDIT else c
  }

  // ------------------------------------------------------------------ the scheduler

  /** The kernel's view of one task. `entry` is its `oncpu_start` value; `onCpu` is when it really
      got the CPU. Run time of finished intervals is split into what the counter received
      (`runNs`), what a failed map update lost (`lostNs`), and what no interval entry covered
      (`unseenNs`). */
  datatype Kernel = Kernel(
    now: nat, runNs: nat, entry: Option<nat>, onCpu: Option<nat>, ranNs: nat, lostNs: nat, unseenNs: nat)

  datatype Sched =
    | Tick(ns: nat)
    | SwitchIn(inserted: bool)   // sched_switch with the task as next
    | SwitchOut(counted: bool)   // sched_switch with the task as prev
    | Seed(inserted: bool)       // perf-event heartbeat while the task runs

  predicate Possible(k: Kernel, e: Sched) {
    match e
    case Tick(_) => true
    case SwitchIn(_) => k.onCpu.None?
    case SwitchOut(_) => k.onCpu.Some?
    case Seed(_) => k.onCpu.Some?
  }

  /** The stretch from `since` that no entry covers: up to the entry, or up to now without one. */
  function Before(k: Kernel, since: nat): nat {
    var until := if k.entry.Some? then k.entry.value else k.now;
    if until > since then until - since else 0
  }

  function Schedule(k: Kernel, e: Sched): Kernel
    requires Possible(k, e)
  {
    match e
    case Tick(ns) => k.(now := k.now + ns)
    case SwitchIn(inserted) =>
      k.(onCpu := Some(k.now), entry := if inserted then Some(k.now) else k.entry)
    case Seed(inserted) =>
      if k.entry.None? && inserted then k.(entry := Some(k.now)) else k
    case SwitchOut(counted) =>
      var run := if k.entry.Some? && k.now > k.entry.value then k.now - k.entry.value else 0;
      var held := if k.now > k.onCpu.value then k.now - k.onCpu.value else 0;
      k.(runNs := k.runNs + if counted then run else 0,
         lostNs := k.lostNs + if counted then 0 else run,
         unseenNs := k.unseenNs + Before(k, k.onCpu.value),
         ranNs := k.ranNs + held,
         entry := None, onCpu := None)
  }

  predicate Boot(k: Kernel) {
    k.now > 0 && k.runNs == 0 && k.entry.None? && k.ranNs == 0 && k.lostNs == 0 && k.unseenNs == 0
    && (k.onCpu.Some? ==> k.onCpu.value <= k.now)
  }

  predicate KernelInv(k: Kernel) {
    && k.now > 0
    && k.ranNs == k.runNs + k.lostNs + k.unseenNs
    && (k.onCpu.Some? ==> k.onCpu.value <= k.now)
    && (k.entry.Some? ==> k.onCpu.Some? && k.onCpu.value <= k.entry.value <= k.now && 0 < k.entry.value)
  }

  /** Time the task has really run. */
  function TrueRuntime(k: Kernel): int {
    k.ranNs + if k.onCpu.Some? then k.now - k.onCpu.value else 0
  }

  /** The counter plus the open interval: all that the two maps can tell. */
  function Recorded(k: Kernel): int {
    k.runNs + if k.entry.Some? then k.now - k.entry.value else 0
  }

  /** Run time that is in neither map: what failed updates lost, what finished intervals ran before their
      entry was made, and what the present one has run before its entry. */
  function Unrecorded(k: Kernel): nat {
    k.lostNs + k.unseenNs + if k.onCpu.Some? then Before(k, k.onCpu.value) else 0
  }

  lemma KernelStep(k: Kernel, e: Sched)
    requires KernelInv(k) && Possible(k, e)
    ensures KernelInv(Schedule(k, e))
    ensures TrueRuntime(k) <= TrueRuntime(Schedule(k, e))
    ensures Recorded(k) + k.lostNs <= Recorded(Schedule(k, e)) + Schedule(k, e).lostNs
  {}

  /** While the task runs, time passes unrecorded exactly as long as its interval has no entry; a switch-in
      or a heartbeat that is stored gives it one, and nothing that has passed is recorded after the fact. */
  lemma EntryRecords(k: Kernel, ns: nat)
    requires KernelInv(k)
    ensures k.onCpu.Some? ==> Unrecorded(Schedule(k, Tick(ns))) == Unrecorded(k) + if k.entry.Some? then 0 else ns
    ensures k.onCpu.None? ==> Unrecorded(Schedule(k, Tick(ns))) == Unrecorded(k)
    ensures k.onCpu.Some? ==>
      Schedule(k, Seed(true)).entry.Some? && Unrecorded(Schedule(k, Seed(true))) == Unrecorded(k)
    ensures k.onCpu.None? ==>
      Schedule(k, SwitchIn(true)).entry.Some? && Unrecorded(Schedule(k, SwitchIn(true))) == Unrecorded(k)
  {}

  /** Every nanosecond of true run time is in the maps, was lost to a failed update, or lies before the
      entry of its interval. */
  lemma RecordedSplit(k: Kernel)
    requires KernelInv(k)
    ensures TrueRuntime(k) == Recorded(k) + Unrecorded(k)
    ensures k.lostNs <= Unrecorded(k)
  {}

  // ------------------------------------------------------------------ scheduler and poller interleaved

  /** How far the current poll has got. `Clocked` remembers the whole kernel state at the moment the
      clock was read; the program itself keeps only `at.now`. */
  datatype Phase =
    | Resting
    | Counted(counter: nat)
    | Clocked(counter: nat, at: Kernel)

  /** `reportedNs` is the sum of all deltas returned so far, `polled` the kernel state when the clock
      was last read by a finished poll, `torn` whether some finished poll saw an inconsistent pair or
      missed an open interval, `forgotNs` how much of open intervals had been reported when their
      entries were missed. */
  datatype World = World(
    k: Kernel, prev: nat, credit: Credit, reportedNs: nat, phase: Phase, polled: Kernel, torn: bool, forgotNs: nat)

  /** `seen` is false when the walk over the on-CPU map misses the task's entry, or when the clock cannot
      be read and 0 stands for its value: either way the poll goes on as if the task were off the CPU. */
  datatype Event = Kern(e: Sched) | ReadCounter | ReadClock | ReadRunning(seen: bool)

  predicate Allowed(w: World, ev: Event) {
    match ev
    case Kern(e) => Possible(w.k, e)
    case ReadCounter => w.phase.Resting?
    case ReadClock => w.phase.Counted?
    case ReadRunning(_) => w.phase.Clocked?
  }

  /** An interval that had started before the clock was read. */
  function Visible(entry: Option<nat>, nowNs: nat): Option<nat> {
    if entry.Some? && entry.value < nowNs then entry else None
  }

  /** The three reads of a poll agree on one kernel state. */
  predicate Consistent(counter: nat, at: Kernel, k: Kernel) {
    counter == at.runNs && Visible(k.entry, at.now) == Visible(at.entry, at.now)
  }

  function Happen(w: World, ev: Event): World
    requires Allowed(w, ev)
  {
    match ev
    case Kern(e) => w.(k := Schedule(w.k, e))
    case ReadCounter => w.(phase := Counted(w.k.runNs))
    case ReadClock => w.(phase := Clocked(w.phase.counter, w.k))
    case ReadRunning(seen) =>
      var c := Charge(w.credit, w.phase.counter, w.prev, if seen then w.k.entry else None, w.phase.at.now);
      World(w.k, w.phase.counter, c.credit, w.reportedNs + c.deltaNs, Resting, w.phase.at,
            || w.torn || !Consistent(w.phase.counter, w.phase.at, w.k)
            || (!seen && Visible(w.k.entry, w.phase.at.now).Some?),
            w.forgotNs + if seen then 0 else Open(w.credit, w.k))
  }

  predicate Start(w: World) {
    && Boot(w.k) && w.prev == 0 && w.credit == NO_CREDIT && w.reportedNs == 0 && w.phase.Resting?
    && w.polled == w.k && !w.torn && w.forgotNs == 0
  }

  ghost predicate IsRun(run: seq<World>, evs: seq<Event>) {
    && |run| == |evs| + 1
    && forall i :: 0 <= i < |evs| ==> Allowed(run[i], evs[i]) && run[i + 1] == Happen(run[i], evs[i])
  }

  /** The part of the outstanding credit that belongs to the open interval. */
  function Open(credit: Credit, k: Kernel): nat {
    if k.entry == Some(credit.startNs) then credit.reportedAtNs else 0
  }

  /** What has been reported never runs ahead of what the kernel state can vouch for. */
  predicate Covered(prev: nat, credit: Credit, last: nat, k: Kernel, forgotNs: nat) {
    && prev <= k.runNs
    && last <= k.now
    && prev + credit.outstandingNs <= k.runNs + k.lostNs + Open(credit, k) + forgotNs
    && (credit.reportedAtNs == 0 || credit.startNs + credit.reportedAtNs <= last)
  }

  /** With no torn poll so far the books balance exactly. */
  predicate Balanced(prev: nat, credit: Credit, k: Kernel) {
    k.entry == Some(credit.startNs) ==> prev == k.runNs && prev + credit.outstandingNs == k.runNs + credit.reportedAtNs
  }

  predicate PhaseInv(w: World) {
    match w.phase
    case Resting => true
    case Counted(c) => w.prev <= c <= w.k.runNs
    case Clocked(c, at) =>
      && w.prev <= c <= at.runNs <= w.k.runNs && at.lostNs <= w.k.lostNs && at.now <= w.k.now
      && KernelInv(at)
      && Covered(w.prev, w.credit, w.polled.now, at, w.forgotNs)
      && (!w.torn && at.lostNs == 0 ==> Balanced(w.prev, w.credit, at))
      // An interval that began before the clock was read and is still open was open then.
      && (Visible(w.k.entry, at.now).Some? ==>
            at.entry == w.k.entry && at.runNs == w.k.runNs && at.lostNs == w.k.lostNs)
  }

  predicate Inv(w: World) {
    && KernelInv(w.k) && KernelInv(w.polled)
    && w.reportedNs == w.prev + w.credit.outstandingNs
    && Covered(w.prev, w.credit, w.polled.now, w.k, w.forgotNs)
    && (!w.torn && w.k.lostNs == 0 ==> Balanced(w.prev, w.credit, w.k))
    && (w.credit.startNs > 0 ==> w.credit.reportedAtNs > 0)
    && (!w.torn ==> w.forgotNs == 0)
    && PhaseInv(w)
    && w.reportedNs <= Recorded(w.polled) + w.polled.lostNs + w.forgotNs
    && (!w.torn && w.polled.lostNs == 0 ==> w.reportedNs == Recorded(w.polled))
    && TrueRuntime(w.polled) <= TrueRuntime(w.k)
    && (w.phase.Clocked? ==> TrueRuntime(w.phase.at) <= TrueRuntime(w.k))
  }

  lemma StartInv(w: World)
    requires Start(w)
    ensures Inv(w)
  {}

  lemma KernelEventInv(w: World, e: Sched)
    requires Inv(w) && Possible(w.k, e)
    ensures Inv(Happen(w, Kern(e)))
  {
    KernelStep(w.k, e);
  }

  lemma ReadSeenInv(w: World)
    requires Inv(w) && w.phase.Clocked?
    ensures Inv(Happen(w, ReadRunning(true)))
  {
    var at := w.phase.at;
    var w' := Happen(w, ReadRunning(true));
    var visible := Visible(w.k.entry, at.now);
    if visible.Some? {
      assert w'.credit.startNs == visible.value && w'.credit.reportedAtNs == at.now - visible.value;
    }
  }

  lemma ReadMissedInv(w: World)
    requires Inv(w) && w.phase.Clocked?
    ensures Inv(Happen(w, ReadRunning(false)))
  {
    assert Open(w.credit, w.k) > 0 ==> Visible(w.k.entry, w.phase.at.now).Some?;
  }

  lemma EventInv(w: World, ev: Event)
    requires Inv(w) && Allowed(w, ev)
    ensures Inv(Happen(w, ev))
  {
    match ev
    case Kern(e) => KernelEventInv(w, e);
    case ReadCounter =>
    case ReadClock =>
    case ReadRunning(seen) => if seen { ReadSeenInv(w); } else { ReadMissedInv(w); }
  }

  lemma {:induction false} RunInv(run: seq<World>, evs: seq<Event>, i: nat)
    requires IsRun(run, evs) && Start(run[0]) && i < |run|
    ensures Inv(run[i])
  {
    if i == 0 {
      StartInv(run[0]);
    } else {
      RunInv(run, evs, i - 1);
      EventInv(run[i - 1], evs[i - 1]);
    }
  }

  /** No double counting: however scheduler steps fall between the three reads, the sum of reported
      deltas is the counter last read plus the outstanding credit, and the sum never exceeds the true run
      time at the moment the clock was read (nor, therefore, at any later moment) by more than what was
      forgotten when the walk missed an open interval that had been reported in part. */
  lemma NoDoubleCounting(run: seq<World>, evs: seq<Event>, i: nat)
    requires IsRun(run, evs) && Start(run[0]) && i < |run|
    ensures var w := run[i];
      && w.reportedNs == w.prev + w.credit.outstandingNs
      && w.reportedNs <= TrueRuntime(w.polled) + w.forgotNs
      && TrueRuntime(w.polled) <= TrueRuntime(w.k)
  {
    RunInv(run, evs, i);
    RecordedSplit(run[i].polled);
  }

  /** Nothing is forgotten while every walk returns the entry of an interval that has been reported. */
  lemma {:induction false} NothingForgotten(run: seq<World>, evs: seq<Event>, i: nat)
    requires IsRun(run, evs) && Start(run[0]) && i < |run|
    requires forall j :: 0 <= j < i && evs[j] == ReadRunning(false) ==> Open(run[j].credit, run[j].k) == 0
    ensures run[i].forgotNs == 0
  {
    if i > 0 {
      NothingForgotten(run, evs, i - 1);
      assert run[i] == Happen(run[i - 1], evs[i - 1]);
    }
  }

  /** Exactness: while no finished poll was torn or missed an open interval and no statistics update has
      failed, the sum equals the run time in the maps at the clock reading; it falls short of the true
      run time by exactly the time that intervals ran before their entry was made. */
  lemma ExactWhileConsistent(run: seq<World>, evs: seq<Event>, i: nat)
    requires IsRun(run, evs) && Start(run[0]) && i < |run|
    requires !run[i].torn && run[i].polled.lostNs == 0
    ensures run[i].reportedNs == Recorded(run[i].polled) == TrueRuntime(run[i].polled) - Unrecorded(run[i].polled)
  {
    RunInv(run, evs, i);
    RecordedSplit(run[i].polled);
  }

  /** The scheduler hooks have seen every interval from its start, and every update went through. */
  predicate Seen(k: Kernel) {
    k.lostNs == 0 && k.unseenNs == 0 && k.entry == k.onCpu
  }

  lemma {:induction false} EverythingSeen(run: seq<World>, evs: seq<Event>, i: nat)
    requires IsRun(run, evs) && Start(run[0]) && i < |run| && run[0].k.onCpu.None?
    requires forall j :: 0 <= j < |evs| && evs[j].Kern? ==> evs[j].e != SwitchIn(false) && evs[j].e != SwitchOut(false)
    ensures Seen(run[i].k) && Seen(run[i].polled) && (run[i].phase.Clocked? ==> Seen(run[i].phase.at))
  {
    if i > 0 {
      EverythingSeen(run, evs, i - 1);
      RunInv(run, evs, i - 1);
      SeenNext(run[i - 1], evs[i - 1], run[i]);
    }
  }

  lemma SeenNext(w: World, ev: Event, w': World)
    requires Inv(w) && Allowed(w, ev) && w' == Happen(w, ev)
    requires ev.Kern? ==> ev.e != SwitchIn(false) && ev.e != SwitchOut(false)
    requires Seen(w.k) && Seen(w.polled) && (w.phase.Clocked? ==> Seen(w.phase.at))
    ensures Seen(w'.k) && Seen(w'.polled) && (w'.phase.Clocked? ==> Seen(w'.phase.at))
  {
  }

  /** With the hooks attached before the task first runs and no failed update, consistent polls report
      the true run time, to the nanosecond. */
  lemma ExactWhenEverythingIsSeen(run: seq<World>, evs: seq<Event>, i: nat)
    requires IsRun(run, evs) && Start(run[0]) && i < |run| && run[0].k.onCpu.None?
    requires forall j :: 0 <= j < |evs| && evs[j].Kern? ==> evs[j].e != SwitchIn(false) && evs[j].e != SwitchOut(false)
    requires !run[i].torn
    ensures run[i].reportedNs == TrueRuntime(run[i].polled)
  {
    EverythingSeen(run, evs, i);
    ExactWhileConsistent(run, evs, i);
  }

  // ------------------------------------------------------------------ what one poll leaves reported

  /** The credit that the counter has not repaid yet. */
  function Owed(w: World): nat
    requires w.phase.Clocked?
  {
    if w.credit.outstandingNs + w.prev > w.phase.counter then w.credit.outstandingNs + w.prev - w.phase.counter else 0
  }

  /** How long the open interval had run at the clock reading; 0 without one. */
  function OpenFor(w: World): nat
    requires w.phase.Clocked?
  {
    var visible := Visible(w.k.entry, w.phase.at.now);
    if visible.Some? then w.phase.at.now - visible.value else 0
  }

  /** How much of the open interval the credit knows to be reported. */
  function KnownReported(w: World): nat
    requires w.phase.Clocked?
  {
    if Visible(w.k.entry, w.phase.at.now).Some? then Open(w.credit, w.k) else 0
  }

  /** Every poll of every run, torn, missed or not: afterwards the sum is the counter, plus the open
      interval if the walk saw it, plus the credit the counter has not repaid, less what the credit
      knows it had reported of that interval. */
  lemma PollReports(run: seq<World>, evs: seq<Event>, i: nat)
    requires IsRun(run, evs) && Start(run[0]) && i < |evs| && evs[i].ReadRunning?
    ensures run[i + 1].reportedNs == run[i].phase.counter + Owed(run[i])
              + if evs[i].seen then OpenFor(run[i]) - KnownReported(run[i]) else 0
  {
    RunInv(run, evs, i);
    assert run[i + 1] == Happen(run[i], evs[i]);
  }

  /** So a poll with consistent reads is exact if and only if what is owed is what the credit knows of the
      open interval; and it exceeds the true run time if and only if more than that is owed, by more
      than the maps do not record. A missed walk leaves its interval out, and sets what is known to 0. */
  lemma ConsistentPollExactIff(run: seq<World>, evs: seq<Event>, i: nat)
    requires IsRun(run, evs) && Start(run[0]) && i < |evs| && evs[i].ReadRunning?
    requires Consistent(run[i].phase.counter, run[i].phase.at, run[i].k)
    ensures var w, at := run[i], run[i].phase.at;
      var known := if evs[i].seen then KnownReported(w) else OpenFor(w);
      && run[i + 1].reportedNs == Recorded(at) + Owed(w) - known
      && (run[i + 1].reportedNs == Recorded(at) <==> Owed(w) == known)
      && (run[i + 1].reportedNs > TrueRuntime(at) <==> Owed(w) > known + Unrecorded(at))
      && (!evs[i].seen ==> run[i + 1].credit.startNs == 0 && run[i + 1].credit.outstandingNs == Owed(w))
  {
    PollReports(run, evs, i);
    RunInv(run, evs, i);
    RecordedSplit(run[i].phase.at);
    assert run[i + 1] == Happen(run[i], evs[i]);
  }

  /** Recovery: whatever was torn or missed before, once a poll finds the task off the CPU with its counter
      caught up, the sum exceeds the counter by what is still owed, at most what was forgotten; the sum
      equals the counter and the credit is gone if and only if nothing is owed. A switch-out whose
      statistics update failed is the other thing that keeps a credit alive. */
  lemma RecoversOffCpu(run: seq<World>, evs: seq<Event>, i: nat)
    requires IsRun(run, evs) && Start(run[0]) && i < |evs| && evs[i].ReadRunning?
    requires run[i].phase.counter == run[i].k.runNs && run[i].k.lostNs == 0
    requires Visible(run[i].k.entry, run[i].phase.at.now).None?
    ensures run[i + 1].reportedNs == run[i].k.runNs + Owed(run[i]) && Owed(run[i]) <= run[i].forgotNs
    ensures run[i + 1].credit == NO_CREDIT <==> Owed(run[i]) == 0
  {
    RunInv(run, evs, i);
    PollReports(run, evs, i);
    assert run[i + 1] == Happen(run[i], evs[i]);
  }

  /** An interval reported up to `t0`, missed at `t1` and seen again at `t2` while the counter stands still
      is reported in full and its first part once more, for every such interval. */
  lemma MissedEntryCountsTwice(counter: nat, start: nat, t0: nat, t1: nat, t2: nat)
    requires 0 < start < t0 <= t1 <= t2
    ensures
      var first := Charge(NO_CREDIT, counter, counter, Some(start), t0);
      var missed := Charge(first.credit, counter, counter, None, t1);
      var again := Charge(missed.credit, counter, counter, Some(start), t2);
      first.deltaNs + missed.deltaNs + again.deltaNs == (t2 - start) + (t0 - start)
  {}

  /** On a run: the task gets the CPU at 100, is polled at 200, missed at 200 and polled again: 200 ns are
      reported for 100 ns of run time, and 100 ns were forgotten. */
  lemma MissOnARun() returns (run: seq<World>, evs: seq<Event>)
    ensures IsRun(run, evs) && Start(run[0]) && |evs| == 11
    ensures run[11].reportedNs == 200 && TrueRuntime(run[11].polled) == 100 && run[11].forgotNs == 100
  {
    var k := Kernel(100, 0, None, None, 0, 0, 0);
    run, evs := [World(k, 0, NO_CREDIT, 0, Resting, k, false, 0)], [];
    run, evs := Extend(run, evs, Kern(SwitchIn(true)));
    run, evs := Extend(run, evs, Kern(Tick(100)));
    run, evs := PollOnce(run, evs, true);
    run, evs := PollOnce(run, evs, false);
    run, evs := PollOnce(run, evs, true);
  }

  lemma Extend(run: seq<World>, evs: seq<Event>, ev: Event) returns (run': seq<World>, evs': seq<Event>)
    requires IsRun(run, evs) && Allowed(run[|evs|], ev)
    ensures evs' == evs + [ev] && run' == run + [Happen(run[|evs|], ev)] && IsRun(run', evs')
  {
    run', evs' := run + [Happen(run[|evs|], ev)], evs + [ev];
  }

  /** The three reads of a poll, one after the other. */
  lemma PollOnce(run: seq<World>, evs: seq<Event>, seen: bool) returns (run': seq<World>, evs': seq<Event>)
    requires IsRun(run, evs) && run[|evs|].phase.Resting?
    ensures IsRun(run', evs') && run'[0] == run[0] && |evs'| == |evs| + 3
    ensures run'[|evs'|] == Happen(Happen(Happen(run[|evs|], ReadCounter), ReadClock), ReadRunning(seen))
  {
    run', evs' := Extend(run, evs, ReadCounter);
    run', evs' := Extend(run', evs', ReadClock);
    run', evs' := Extend(run', evs', ReadRunning(seen));
  }

  // ------------------------------------------------------------------ a counter that is replaced

  /** A collector that has never seen the task. */
  function Newcomer(k: Kernel): World {
    World(k, 0, NO_CREDIT, 0, Resting, k, false, 0)
  }

  /** The world after the events; one that is not allowed is passed over. */
  ghost function Replay(w: World, evs: seq<Event>): World {
    if evs == [] then w else
      var before, ev := Replay(w, evs[..|evs| - 1]), evs[|evs| - 1];
      if Allowed(before, ev) then Happen(before, ev) else before
  }

  /** The first poll that ends reads a counter below the one of the previous generation. */
  ghost predicate Noticed(run: seq<World>, evs: seq<Event>)
    requires IsRun(run, evs)
  {
    forall j :: 0 <= j < |evs| && evs[j].ReadRunning? && !Polled(evs, j) ==> run[j].phase.counter < run[0].prev
  }

  predicate Polled(evs: seq<Event>, i: nat)
    requires i <= |evs|
  {
    exists j :: 0 <= j < i && evs[j].ReadRunning?
  }

  /** `w` belongs to a collector with tables of an earlier task, left in `w0`; `f` to one without. They see
      the same kernel, and after the first poll their tables agree. */
  predicate Agree(w0: World, w: World, f: World, polled: bool) {
    && w.k == f.k && w.phase == f.phase
    && if polled then w.prev == f.prev && w.credit == f.credit && w.reportedNs == w0.reportedNs + f.reportedNs
       else w.prev == w0.prev && w.credit == w0.credit && w.reportedNs == w0.reportedNs
            && f.prev == 0 && f.credit == NO_CREDIT && f.reportedNs == 0
  }

  lemma AgreeStep(w0: World, w: World, f: World, polled: bool, ev: Event)
    requires Agree(w0, w, f, polled) && Allowed(w, ev)
    requires ev.ReadRunning? && !polled ==> w.phase.counter < w0.prev
    ensures Allowed(f, ev) && Agree(w0, Happen(w, ev), Happen(f, ev), polled || ev.ReadRunning?)
  {
  }

  lemma PolledNext(evs: seq<Event>, i: nat)
    requires i < |evs|
    ensures Polled(evs, i + 1) <==> Polled(evs, i) || evs[i].ReadRunning?
  {
  }

  /** A new accounting generation: when a fresh counter takes the place of one that has been polled, and the
      next poll reads less than the last one did, then from that poll on the collector stands exactly where
      one that has never seen the old task would stand, and what it has reported since the replacement is
      exactly what that one has reported. Nothing is owed from the old task. */
  lemma {:induction false} NewGeneration(run: seq<World>, evs: seq<Event>, i: nat)
    requires IsRun(run, evs) && run[0].phase.Resting? && Noticed(run, evs) && i < |run|
    ensures Agree(run[0], run[i], Replay(Newcomer(run[0].k), evs[..i]), Polled(evs, i))
    ensures i < |evs| ==> Allowed(Replay(Newcomer(run[0].k), evs[..i]), evs[i])
  {
    if i == 0 {
      assert evs[..0] == [];
    } else {
      NewGeneration(run, evs, i - 1);
      assert evs[..i][..i - 1] == evs[..i - 1];
      PolledNext(evs, i - 1);
      assert run[i] == Happen(run[i - 1], evs[i - 1]);
      AgreeStep(run[0], run[i - 1], Replay(Newcomer(run[0].k), evs[..i - 1]), Polled(evs, i - 1), evs[i - 1]);
    }
    if i < |evs| { assert Allowed(run[i], evs[i]); }
  }

  /** A replacement that the next poll does not notice, because the new counter has already passed the old
      one: the poll falls short of the new counter and open interval by the old counter and what is repaid
      of the old credit, and is right if and only if both are 0. */
  lemma UnnoticedReplacement(w: World)
    requires Allowed(w, ReadRunning(true)) && w.phase.counter >= w.prev && w.k.entry != Some(w.credit.startNs)
    ensures var gain := w.phase.counter - w.prev;
      var repaid := if w.credit.outstandingNs > gain then gain else w.credit.outstandingNs;
      var delta := Happen(w, ReadRunning(true)).reportedNs - w.reportedNs;
      && delta + w.prev + repaid == w.phase.counter + OpenFor(w)
      && (delta == w.phase.counter + OpenFor(w) <==>
          w.prev == 0 && (w.credit.outstandingNs == 0 || w.phase.counter == 0))
  {
  }

  // ------------------------------------------------------------------ a key through several tasks

  /** The part of a session in which one task has the key. */
  datatype Generation = Generation(run: seq<World>, evs: seq<Event>)

  ghost predicate IsGeneration(g: Generation) {
    IsRun(g.run, g.evs) && Boot(g.run[0].k) && g.run[0].phase.Resting?
  }

  /** Between two polls another task gets the key, with a counter of its own; the collector keeps its tables. */
  ghost predicate Handover(g: Generation, h: Generation)
    requires IsGeneration(g) && IsGeneration(h)
  {
    var last := g.run[|g.evs|];
    last.phase.Resting? && h.run[0] == last.(k := h.run[0].k)
  }

  ghost predicate IsSession(gens: seq<Generation>) {
    && gens != [] && (forall j :: 0 <= j < |gens| ==> IsGeneration(gens[j]))
    && Start(gens[0].run[0])
    && forall j :: 0 < j < |gens| ==> Handover(gens[j - 1], gens[j]) && Noticed(gens[j].run, gens[j].evs)
  }

  /** What a collector of its own would report for this task. */
  ghost function Alone(g: Generation): nat
    requires IsGeneration(g)
  {
    Replay(Newcomer(g.run[0].k), g.evs).reportedNs
  }

  ghost function AloneTotal(gens: seq<Generation>): nat
    requires forall j :: 0 <= j < |gens| ==> IsGeneration(gens[j])
  {
    if gens == [] then 0 else AloneTotal(gens[..|gens| - 1]) + Alone(gens[|gens| - 1])
  }

  lemma {:induction false} ReplayIs(run: seq<World>, evs: seq<Event>, i: nat)
    requires IsRun(run, evs) && i < |run|
    ensures Replay(run[0], evs[..i]) == run[i]
  {
    if i == 0 {
      assert evs[..0] == [];
    } else {
      ReplayIs(run, evs, i - 1);
      assert evs[..i][..i - 1] == evs[..i - 1];
      assert run[i] == Happen(run[i - 1], evs[i - 1]);
    }
  }

  /** Through any number of tasks that have the key one after the other, what is reported in all is the sum
      of what collectors of their own would have reported for each. */
  lemma {:induction false} GenerationsAddUp(gens: seq<Generation>)
    requires IsSession(gens)
    ensures gens[|gens| - 1].run[|gens[|gens| - 1].evs|].reportedNs == AloneTotal(gens)
    decreases |gens|
  {
    var n := |gens| - 1;
    var g := gens[n];
    assert g.evs[..|g.evs|] == g.evs;
    if n == 0 {
      assert g.run[0] == Newcomer(g.run[0].k);
      ReplayIs(g.run, g.evs, |g.evs|);
      assert gens[..0] == [];
    } else {
      assert gens[..n][n - 1] == gens[n - 1];
      GenerationsAddUp(gens[..n]);
      assert Handover(gens[n - 1], g);
      NewGeneration(g.run, g.evs, |g.evs|);
    }
  }

  lemma AloneAllowed(g: Generation, i: nat)
    requires IsGeneration(g) && i < |g.evs| && (g.run[0] == Newcomer(g.run[0].k) || Noticed(g.run, g.evs))
    ensures Allowed(Replay(Newcomer(g.run[0].k), g.evs[..i]), g.evs[i])
    ensures Replay(Newcomer(g.run[0].k), g.evs[..i + 1])
         == Happen(Replay(Newcomer(g.run[0].k), g.evs[..i]), g.evs[i])
  {
    if g.run[0] == Newcomer(g.run[0].k) { ReplayIs(g.run, g.evs, i); } else { NewGeneration(g.run, g.evs, i); }
    assert g.evs[..i + 1][..i] == g.evs[..i];
  }

  lemma {:induction false} AloneIsARun(g: Generation, i: nat) returns (run: seq<World>)
    requires IsGeneration(g) && i <= |g.evs| && (g.run[0] == Newcomer(g.run[0].k) || Noticed(g.run, g.evs))
    ensures IsRun(run, g.evs[..i]) && Start(run[0]) && run[0] == Newcomer(g.run[0].k)
    ensures run[i] == Replay(Newcomer(g.run[0].k), g.evs[..i])
  {
    if i == 0 {
      run := [Newcomer(g.run[0].k)];
    } else {
      run := AloneIsARun(g, i - 1);
      AloneAllowed(g, i - 1);
      run := run + [Happen(run[i - 1], g.evs[i - 1])];
    }
  }

  /** And for no task is more reported than it has run, but for what missed walks have forgotten. */
  lemma AloneIsBounded(g: Generation)
    requires IsGeneration(g) && (g.run[0] == Newcomer(g.run[0].k) || Noticed(g.run, g.evs))
    ensures var end := Replay(Newcomer(g.run[0].k), g.evs);
      Alone(g) == end.prev + end.credit.outstandingNs && Alone(g) <= TrueRuntime(end.polled) + end.forgotNs
  {
    var run := AloneIsARun(g, |g.evs|);
    assert g.evs[..|g.evs|] == g.evs;
    NoDoubleCounting(run, g.evs, |g.evs|);
  }
}
