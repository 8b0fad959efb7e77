/** Off-CPU waits of lock contention: `sched_switch` stamps a thread that blocks voluntarily and charges
    the wait when the thread runs again. Entries are keyed by thread id, and ids are reused. */
module OffCpu {
  import opened Common
  import opened FiniteSums
  import opened LogHistogram

  const FUTEX_OP_NONE := 0xFFFF_FFFF

  /** One thread instance: the start time tells two users of a thread id apart. */
  datatype Task = Task(tid: nat, tgid: nat, identity: nat)

  datatype FutexInfo = FutexInfo(address: nat, op: nat)

  datatype Key = Key(tgid: nat, tid: nat, address: nat, stack: int, op: nat)

  datatype Info = Info(ts: nat, tgid: nat, tid: nat, identity: nat, address: nat, stack: int, op: nat) {
    function KeyOf(): Key {
      Key(tgid, tid, address, stack, op)
    }

    /** The entry was made by this very thread instance. */
    predicate By(task: Task) {
      tgid == task.tgid && identity == task.identity
    }
  }

  datatype Stat = Stat(ns: nat, count: nat, slots: seq<nat>)

  datatype Kernel = Kernel(
    start: map<nat, Info>, futex: map<nat, FutexInfo>, stats: map<Key, Stat>,
    startFailures: nat, statFailures: nat, futexFailures: nat)

  /** Hook invocations, with what the kernel answers: `admitted` is the membership check, `refused` a
      failing map update, `full` that no new statistics entry can be created. `Forget` is user space
      deleting a statistics key together with the per-thread entries of its thread id. */
  datatype Event =
    | Enter(tid: nat, admitted: bool, op: nat, address: nat, refused: bool)
    | Exit(tid: nat)
    | Switch(now: nat, prev: Task, prevState: nat, preempt: bool, exiting: bool, admitted: bool, stack: int,
             refused: bool, next: Task, full: bool)
    | Forget(key: Key)

  function Empty(): Kernel {
    Kernel(map[], map[], map[], 0, 0, 0)
  }

  // ------------------------------------------------------------------ the hooks

  /** `futex_op_can_wait`: FUTEX_WAIT, LOCK_PI, WAIT_BITSET, WAIT_REQUEUE_PI or LOCK_PI2. */
  predicate CanWait(op: nat) {
    op % 128 in {0, 6, 9, 11, 13}
  }

  /** The lowest bits of the state: bit 1 is TASK_UNINTERRUPTIBLE. */
  predicate Uninterruptible(state: nat) {
    state / 2 % 2 == 1
  }

  /** A voluntary block of a member: in a futex wait, or uninterruptible. */
  predicate Blocks(e: Event, futex: Option<FutexInfo>)
    requires e.Switch?
  {
    e.prev.tid != 0 && e.prevState != 0 && !e.preempt && !e.exiting && e.admitted
    && (futex.Some? || Uninterruptible(e.prevState))
  }

  function InfoFor(e: Event, futex: Option<FutexInfo>): Info
    requires e.Switch?
  {
    Info(e.now, e.prev.tgid, e.prev.tid, e.prev.identity,
         if futex.Some? then futex.value.address else 0, e.stack,
         if futex.Some? then futex.value.op else FUTEX_OP_NONE)
  }

  function NoSlots(): (slots: seq<nat>)
    ensures |slots| == LOCK_SLOTS
  {
    seq(LOCK_SLOTS, _ => 0)
  }

  function Add(st: Stat, duration: nat): Stat
    requires |st.slots| == LOCK_SLOTS
  {
    var slot := SlotOf(duration, LOCK_SLOTS);
    Stat(st.ns + duration, st.count + 1, st.slots[slot := st.slots[slot] + 1])
  }

  predicate SlotsFit(k: Kernel) {
    forall key :: key in k.stats ==> |k.stats[key].slots| == LOCK_SLOTS
  }

  /** Charge a finished wait to its key, or count that it could not be. */
  function Charge(k: Kernel, key: Key, duration: nat, full: bool): Kernel
    requires key in k.stats ==> |k.stats[key].slots| == LOCK_SLOTS
  {
    if key in k.stats then k.(stats := k.stats[key := Add(k.stats[key], duration)])
    else if full then k.(statFailures := k.statFailures + 1)
    else k.(stats := k.stats[key := Add(Stat(0, 0, NoSlots()), duration)])
  }

  function SwitchOut(k: Kernel, e: Event): Kernel
    requires e.Switch?
  {
    var futex := Lookup(k.futex, e.prev.tid);
    if !Blocks(e, futex) then k
    else if e.refused then k.(startFailures := k.startFailures + 1)
    else k.(start := k.start[e.prev.tid := InfoFor(e, futex)])
  }

  function SwitchIn(k: Kernel, e: Event): Kernel
    requires e.Switch? && SlotsFit(k)
  {
    if e.next.tid == 0 || e.next.tid !in k.start then k
    else
      var info := k.start[e.next.tid];
      if !info.By(e.next) then k.(start := k.start - {e.next.tid})
      else if e.now > info.ts then Charge(k, info.KeyOf(), e.now - info.ts, e.full).(start := k.start - {e.next.tid})
      else k
  }

  function Step(k: Kernel, e: Event): (k': Kernel)
    requires SlotsFit(k)
    ensures SlotsFit(k')
  {
    match e
    case Enter(tid, admitted, op, address, refused) =>
      if !admitted || !CanWait(op) then k
      else if refused then k.(futexFailures := k.futexFailures + 1)
      else k.(futex := k.futex[tid := FutexInfo(address, op)])
    case Exit(tid) => k.(futex := k.futex - {tid})
    case Switch(_, _, _, _, _, _, _, _, _, _) => SwitchIn(SwitchOut(k, e), e)
    case Forget(key) => k.(stats := k.stats - {key}, start := k.start - {key.tid}, futex := k.futex - {key.tid})
  }

  function Run(evs: seq<Event>): (k: Kernel)
    ensures SlotsFit(k)
  {
    if evs == [] then Empty() else Step(Run(evs[..|evs| - 1]), evs[|evs| - 1])
  }

  // ------------------------------------------------------------------ what the events say

  /** The futex wait a thread id is in, from the events alone. */
  function Waiting(evs: seq<Event>, tid: nat): Option<FutexInfo> {
    if evs == [] then None else
      var before := Waiting(evs[..|evs| - 1], tid);
      match evs[|evs| - 1]
      case Enter(t, admitted, op, address, refused) =>
        if t == tid && admitted && CanWait(op) && !refused then Some(FutexInfo(address, op)) else before
      case Exit(t) => if t == tid then None else before
      case Switch(_, _, _, _, _, _, _, _, _, _) => before
      case Forget(key) => if key.tid == tid then None else before
  }

  /** Event `i` is a voluntary block of a thread with this id, and its start was recorded. */
  predicate Records(evs: seq<Event>, i: nat, tid: nat)
    requires i < |evs|
  {
    evs[i].Switch? && evs[i].prev.tid == tid && Blocks(evs[i], Waiting(evs[..i], tid)) && !evs[i].refused
  }

  function RecordedInfo(evs: seq<Event>, i: nat): Info
    requires i < |evs| && evs[i].Switch?
  {
    InfoFor(evs[i], Waiting(evs[..i], evs[i].prev.tid))
  }

  /** The event puts a thread with this id on a CPU, or user space forgets the id. */
  predicate Ends(e: Event, tid: nat) {
    (e.Switch? && e.next.tid == tid) || (e.Forget? && e.key.tid == tid)
  }

  /** The last recorded block of a thread id that has not been ended, and whether the id has already
      been switched in since without the clock having moved. */
  datatype Last = Last(info: Info, resumed: bool)

  function LastOut(evs: seq<Event>, tid: nat): Option<Last>
    requires evs != []
    decreases |evs|, 0
  {
    if Records(evs, |evs| - 1, tid) then Some(Last(RecordedInfo(evs, |evs| - 1), false))
    else LastOf(evs[..|evs| - 1], tid)
  }

  function LastOf(evs: seq<Event>, tid: nat): Option<Last>
    decreases |evs|, 1
  {
    if evs == [] then None else
      var e := evs[|evs| - 1];
      var out := LastOut(evs, tid);
      if tid == 0 || out.None? || !Ends(e, tid) then out
      else if e.Forget? || !out.value.info.By(e.next) || e.now > out.value.info.ts then None
      else Some(out.value.(resumed := true))
  }

  /** A wait the last event completes. A phantom is not a wait: the thread had already run again, at
      the very instant it was stamped. */
  datatype Wait = Wait(key: Key, duration: nat, phantom: bool)

  function Completed(evs: seq<Event>): Option<Wait>
    requires evs != []
  {
    var e := evs[|evs| - 1];
    if !e.Switch? || e.next.tid == 0 then None
    else match LastOut(evs, e.next.tid)
      case None => None
      case Some(l) =>
        if l.info.By(e.next) && e.now > l.info.ts
        then Some(Wait(l.info.KeyOf(), e.now - l.info.ts, l.resumed)) else None
  }

  /** The waits of one key since it was last deleted, split by whether the entry could be made. */
  datatype Ledger = Ledger(kept: seq<nat>, lost: seq<nat>)

  function LedgerOf(evs: seq<Event>, key: Key): Ledger {
    if evs == [] then Ledger([], []) else
      var before := LedgerOf(evs[..|evs| - 1], key);
      var e := evs[|evs| - 1];
      if e.Forget? then (if e.key == key then Ledger([], []) else before)
      else Entered(before, key, Completed(evs), e.Switch? && e.full)
  }

  function Entered(ledger: Ledger, key: Key, completed: Option<Wait>, full: bool): Ledger {
    match completed
    case None => ledger
    case Some(w) =>
      if w.key != key then ledger
      else if ledger.kept == [] && full then ledger.(lost := ledger.lost + [w.duration])
      else ledger.(kept := ledger.kept + [w.duration])
  }

  function Total(durations: seq<nat>): nat {
    if durations == [] then 0 else Total(durations[..|durations| - 1]) + durations[|durations| - 1]
  }

  // ------------------------------------------------------------------ the statistics are the ledger

  ghost predicate Reflects(k: Kernel, evs: seq<Event>) {
    && (forall tid :: Lookup(k.futex, tid) == Waiting(evs, tid))
    && (forall tid :: tid in k.start <==> LastOf(evs, tid).Some?)
    && (forall tid :: tid in k.start ==> k.start[tid] == LastOf(evs, tid).value.info)
  }

  ghost predicate StatIs(k: Kernel, key: Key, ledger: Ledger) {
    && (key in k.stats <==> ledger.kept != [])
    && (key in k.stats ==>
          k.stats[key].ns == Total(ledger.kept) && k.stats[key].count == |ledger.kept|
          && IsHistogram(k.stats[key].slots, ledger.kept))
  }

  lemma NoEntryForIdle(evs: seq<Event>)
    ensures LastOf(evs, 0).None?
    decreases |evs|
  {
    if evs != [] { NoEntryForIdle(evs[..|evs| - 1]); }
  }

  /** After the switch-out half, the entries are the recorded blocks. */
  lemma OutReflects(k: Kernel, evs: seq<Event>, tid: nat)
    requires evs != [] && evs[|evs| - 1].Switch? && Reflects(k, evs[..|evs| - 1])
    ensures var out := SwitchOut(k, evs[|evs| - 1]);
      && (tid in out.start <==> LastOut(evs, tid).Some?)
      && (tid in out.start ==> out.start[tid] == LastOut(evs, tid).value.info)
  {
  }

  lemma SwitchReflects(k: Kernel, evs: seq<Event>, tid: nat)
    requires evs != [] && evs[|evs| - 1].Switch? && Reflects(k, evs[..|evs| - 1])
    requires SlotsFit(k)
    ensures var k' := Step(k, evs[|evs| - 1]);
      && (tid in k'.start <==> LastOf(evs, tid).Some?)
      && (tid in k'.start ==> k'.start[tid] == LastOf(evs, tid).value.info)
  {
    OutReflects(k, evs, tid);
    NoEntryForIdle(evs[..|evs| - 1]);
  }

  lemma SwitchKeepsFutex(k: Kernel, e: Event)
    requires e.Switch? && SlotsFit(k)
    ensures Step(k, e).futex == k.futex
  {
  }

  lemma FutexReflects(k: Kernel, evs: seq<Event>, tid: nat)
    requires evs != [] && Reflects(k, evs[..|evs| - 1]) && SlotsFit(k)
    ensures Lookup(Step(k, evs[|evs| - 1]).futex, tid) == Waiting(evs, tid)
  {
    assert Lookup(k.futex, tid) == Waiting(evs[..|evs| - 1], tid);
    if evs[|evs| - 1].Switch? { SwitchKeepsFutex(k, evs[|evs| - 1]); }
  }

  lemma OtherReflects(k: Kernel, evs: seq<Event>, tid: nat)
    requires evs != [] && !evs[|evs| - 1].Switch? && Reflects(k, evs[..|evs| - 1])
    requires SlotsFit(k)
    ensures var k' := Step(k, evs[|evs| - 1]);
      && (tid in k'.start <==> LastOf(evs, tid).Some?)
      && (tid in k'.start ==> k'.start[tid] == LastOf(evs, tid).value.info)
  {
    NoEntryForIdle(evs[..|evs| - 1]);
    assert LastOut(evs, tid) == LastOf(evs[..|evs| - 1], tid);
  }

  lemma StepReflects(k: Kernel, evs: seq<Event>)
    requires evs != [] && Reflects(k, evs[..|evs| - 1])
    requires SlotsFit(k)
    ensures Reflects(Step(k, evs[|evs| - 1]), evs)
  {
    var k' := Step(k, evs[|evs| - 1]);
    forall tid ensures Lookup(k'.futex, tid) == Waiting(evs, tid) {
      FutexReflects(k, evs, tid);
    }
    forall tid
      ensures tid in k'.start <==> LastOf(evs, tid).Some?
      ensures tid in k'.start ==> k'.start[tid] == LastOf(evs, tid).value.info
    {
      if evs[|evs| - 1].Switch? { SwitchReflects(k, evs, tid); } else { OtherReflects(k, evs, tid); }
    }
  }

  lemma AddKeepsHistogram(st: Stat, kept: seq<nat>, duration: nat)
    requires IsHistogram(st.slots, kept) && |st.slots| == LOCK_SLOTS
    ensures IsHistogram(Add(st, duration).slots, kept + [duration])
  {
    forall i | 0 <= i < LOCK_SLOTS
      ensures Add(st, duration).slots[i] == Count(kept + [duration], InSlot(LOCK_SLOTS, i))
    {
      CountConcat(kept, [duration], InSlot(LOCK_SLOTS, i));
      assert Count([duration], InSlot(LOCK_SLOTS, i)) == (if SlotOf(duration, LOCK_SLOTS) == i then 1 else 0) by {
        assert [duration][1..] == [];
      }
    }
  }

  lemma ChargeOpens(duration: nat)
    ensures var st := Add(Stat(0, 0, NoSlots()), duration);
      st.ns == Total([duration]) && st.count == 1 && IsHistogram(st.slots, [duration])
  {
    assert IsHistogram(NoSlots(), []);
    AddKeepsHistogram(Stat(0, 0, NoSlots()), [], duration);
    assert [] + [duration] == [duration] && [duration][..0] == [];
  }

  lemma ChargeAdds(st: Stat, kept: seq<nat>, duration: nat)
    requires st.ns == Total(kept) && st.count == |kept| && IsHistogram(st.slots, kept) && |st.slots| == LOCK_SLOTS
    ensures var st' := Add(st, duration);
      && st'.ns == Total(kept + [duration]) && st'.count == |kept + [duration]|
      && IsHistogram(st'.slots, kept + [duration])
  {
    TotalAppend(kept, duration);
    AddKeepsHistogram(st, kept, duration);
  }

  lemma ChargeKeepsStat(k: Kernel, key: Key, ledger: Ledger, duration: nat, full: bool)
    requires StatIs(k, key, ledger)
    requires key in k.stats ==> |k.stats[key].slots| == LOCK_SLOTS
    ensures StatIs(Charge(k, key, duration, full), key,
                   if ledger.kept == [] && full then ledger.(lost := ledger.lost + [duration])
                   else ledger.(kept := ledger.kept + [duration]))
  {
    if key in k.stats {
      ChargeAdds(k.stats[key], ledger.kept, duration);
    } else {
      assert ledger.kept + [duration] == [duration];
      ChargeOpens(duration);
    }
  }

  /** The switch-in half charges exactly the completed wait. */
  lemma InCharges(k: Kernel, evs: seq<Event>)
    requires evs != [] && evs[|evs| - 1].Switch? && Reflects(k, evs[..|evs| - 1])
    requires SlotsFit(k)
    ensures var k' := Step(k, evs[|evs| - 1]);
      match Completed(evs)
      case None => k'.stats == k.stats && k'.statFailures == k.statFailures
      case Some(w) => k'.stats == Charge(k, w.key, w.duration, evs[|evs| - 1].full).stats
                      && k'.statFailures == Charge(k, w.key, w.duration, evs[|evs| - 1].full).statFailures
  {
    OutReflects(k, evs, evs[|evs| - 1].next.tid);
  }

  /** Over every run: each key's time, count and slots are those of the waits that were completed with it
      and could be entered, no more and no less. */
  lemma {:induction false} StatsAreLedger(evs: seq<Event>, key: Key)
    ensures Reflects(Run(evs), evs)
    ensures StatIs(Run(evs), key, LedgerOf(evs, key))
    decreases |evs|
  {
    if evs != [] {
      var before, e := evs[..|evs| - 1], evs[|evs| - 1];
      StatsAreLedger(before, key);
      StepReflects(Run(before), evs);
      if e.Switch? {
        InCharges(Run(before), evs);
        if Completed(evs).Some? {
          var w := Completed(evs).value;
          if w.key == key { ChargeKeepsStat(Run(before), key, LedgerOf(before, key), w.duration, e.full); }
        }
      }
    }
  }

  // ------------------------------------------------------------------ which blocks are recorded

  /** Event `m` enters a futex call that can wait, and the hook stores it. */
  predicate Enters(evs: seq<Event>, m: nat, tid: nat)
    requires m < |evs|
  {
    evs[m].Enter? && evs[m].tid == tid && EntersWait(evs[m]) && !evs[m].refused
  }

  /** An admitted process enters a wait, a priority-inheriting lock or wait, or a wait for requeueing. */
  predicate EntersWait(e: Event) {
    && e.Enter? && e.admitted
    && (e.op % 128 == 0 || e.op % 128 == 6 || e.op % 128 == 9 || e.op % 128 == 11 || e.op % 128 == 13)
  }

  /** At the end of these events the thread is in the call entered at `m`: it has not left it, no later call
      has taken its place, and user space has not forgotten the thread. */
  ghost predicate InCall(evs: seq<Event>, m: nat, tid: nat) {
    && m < |evs| && Enters(evs, m, tid)
    && (forall j :: m < j < |evs| ==>
          !Enters(evs, j, tid) && evs[j] != Exit(tid) && !(evs[j].Forget? && evs[j].key.tid == tid))
  }

  lemma {:induction false} WaitingIsInCall(evs: seq<Event>, tid: nat)
    ensures Waiting(evs, tid).Some? <==> exists m: nat :: InCall(evs, m, tid)
    ensures forall m: nat :: InCall(evs, m, tid) ==> Waiting(evs, tid) == Some(FutexInfo(evs[m].address, evs[m].op))
  {
    if evs != [] {
      var n := |evs| - 1;
      var before := evs[..n];
      WaitingIsInCall(before, tid);
      forall j | 0 <= j < n ensures Enters(before, j, tid) == Enters(evs, j, tid) {}
      forall m: nat | m < n ensures InCall(evs, m, tid) ==> InCall(before, m, tid) {}
      if Enters(evs, n, tid) {
        assert InCall(evs, n, tid);
      } else if m: nat :| InCall(before, m, tid) {
        assert InCall(evs, m, tid) <==> evs[n] != Exit(tid) && !(evs[n].Forget? && evs[n].key.tid == tid);
      }
    }
  }

  /** Exactly the voluntary blocks are recorded: a switch away from a thread that is not the idle one, of an
      admitted process, neither preempted nor exiting nor still runnable, in a futex call or sleeping
      uninterruptibly. The entry has the time, the instance and the stack of that switch, and the address
      and operation of the call, or none. */
  lemma BlockIsRecorded(evs: seq<Event>, i: nat, tid: nat)
    requires i < |evs| && evs[i].Switch?
    ensures Records(evs, i, tid) <==>
      && evs[i].prev.tid == tid != 0 && evs[i].admitted && !evs[i].refused
      && !evs[i].preempt && !evs[i].exiting && evs[i].prevState != 0
      && ((exists m: nat :: InCall(evs[..i], m, tid)) || evs[i].prevState / 2 % 2 == 1)
    ensures evs[i].prev.tid == tid ==>
      var info := RecordedInfo(evs, i);
      && info.ts == evs[i].now && info.tid == tid && info.tgid == evs[i].prev.tgid
      && info.identity == evs[i].prev.identity
      && info.KeyOf() == Key(info.tgid, tid, info.address, evs[i].stack, info.op)
      && (forall m: nat :: InCall(evs[..i], m, tid) ==> info.address == evs[m].address && info.op == evs[m].op)
      && ((forall m: nat :: !InCall(evs[..i], m, tid)) ==> info.address == 0 && info.op == FUTEX_OP_NONE)
  {
    WaitingIsInCall(evs[..i], tid);
  }

  // ------------------------------------------------------------------ one interval, one instance

  /** The block at `i` is still open at the end of `evs`: recorded, and nothing since has replaced it,
      run the thread id or forgotten it. */
  ghost predicate Open(evs: seq<Event>, i: nat, tid: nat) {
    && i < |evs| && Records(evs, i, tid) && !Ends(evs[i], tid)
    && (forall j :: i < j < |evs| ==> !Records(evs, j, tid) && !Ends(evs[j], tid))
  }

  lemma RecordsEarlier(evs: seq<Event>, j: nat, tid: nat)
    requires j < |evs| - 1
    ensures Records(evs[..|evs| - 1], j, tid) == Records(evs, j, tid)
    ensures evs[j].Switch? ==> RecordedInfo(evs[..|evs| - 1], j) == RecordedInfo(evs, j)
  {
    assert evs[..|evs| - 1][..j] == evs[..j];
  }

  lemma {:induction false} LastIsOpen(evs: seq<Event>, tid: nat) returns (i: nat)
    requires LastOf(evs, tid).Some? && !LastOf(evs, tid).value.resumed
    ensures Open(evs, i, tid) && LastOf(evs, tid).value.info == RecordedInfo(evs, i)
    decreases |evs|
  {
    var n := |evs| - 1;
    if tid == 0 { NoEntryForIdle(evs); }
    if Records(evs, n, tid) {
      i := n;
    } else {
      i := LastIsOpen(evs[..n], tid);
      forall j | i <= j < n ensures Records(evs, j, tid) == Records(evs[..n], j, tid) { RecordsEarlier(evs, j, tid); }
      RecordsEarlier(evs, i, tid);
    }
  }

  /** And the other way round: every open block is the one the kernel's entry holds. */
  lemma {:induction false} OpenIsLast(evs: seq<Event>, i: nat, tid: nat)
    requires Open(evs, i, tid) && tid != 0
    ensures LastOf(evs, tid) == Some(Last(RecordedInfo(evs, i), false))
    decreases |evs|
  {
    var n := |evs| - 1;
    if i < n {
      forall j | i <= j < n ensures Records(evs[..n], j, tid) == Records(evs, j, tid) { RecordsEarlier(evs, j, tid); }
      OpenIsLast(evs[..n], i, tid);
      RecordsEarlier(evs, i, tid);
    }
  }

  /** The last event puts a thread back on a CPU whose recorded block at `i` is open, the same instance
      and at a later time: a wait has ended. */
  ghost predicate Resumes(evs: seq<Event>, i: nat)
    requires evs != []
  {
    var n := |evs| - 1;
    && evs[n].Switch? && evs[n].next.tid != 0 && i < n && !Records(evs, n, evs[n].next.tid)
    && Open(evs[..n], i, evs[n].next.tid)
    && evs[i].prev.tgid == evs[n].next.tgid && evs[i].prev.identity == evs[n].next.identity && evs[n].now > evs[i].now
  }

  /** The waits are exactly these: from a recorded voluntary block to the next time the thread id gets a
      CPU, both of the same thread instance. Every such pair is counted, with its duration and under the
      key of its block, and no charged interval spans two users of a thread id. */
  lemma WaitIffResumed(evs: seq<Event>)
    requires evs != []
    ensures Completed(evs).Some? && !Completed(evs).value.phantom <==> exists i: nat :: Resumes(evs, i)
    ensures forall i: nat :: Resumes(evs, i) ==>
      Completed(evs) == Some(Wait(RecordedInfo(evs[..|evs| - 1], i).KeyOf(), evs[|evs| - 1].now - evs[i].now, false))
  {
    var n := |evs| - 1;
    if Completed(evs).Some? && !Completed(evs).value.phantom {
      var i := LastIsOpen(evs[..n], evs[n].next.tid);
      assert Resumes(evs, i);
    }
    forall i: nat | Resumes(evs, i)
      ensures Completed(evs) == Some(Wait(RecordedInfo(evs[..n], i).KeyOf(), evs[n].now - evs[i].now, false))
    {
      OpenIsLast(evs[..n], i, evs[n].next.tid);
    }
  }

  // ------------------------------------------------------------------ conservation

  function Duration(completed: Option<Wait>, key: Key, phantom: bool): nat {
    match completed
    case Some(w) => if w.key == key && w.phantom == phantom then w.duration else 0
    case None => 0
  }

  /** The duration of the wait with this key that the last event ends; 0 when it ends none. */
  ghost function ResumedFor(evs: seq<Event>, key: Key): nat
    requires evs != []
  {
    if i: nat :| Resumes(evs, i) && RecordedInfo(evs[..|evs| - 1], i).KeyOf() == key
    then evs[|evs| - 1].now - evs[i].now else 0
  }

  /** The time of all waits of a key since it was last deleted. */
  ghost function WaitNs(evs: seq<Event>, key: Key): nat {
    if evs == [] then 0
    else if evs[|evs| - 1] == Forget(key) then 0
    else WaitNs(evs[..|evs| - 1], key) + ResumedFor(evs, key)
  }

  lemma ResumedIsCompleted(evs: seq<Event>, key: Key)
    requires evs != []
    ensures ResumedFor(evs, key) == Duration(Completed(evs), key, false)
  {
    WaitIffResumed(evs);
    if Duration(Completed(evs), key, false) > 0 {
      var i: nat :| Resumes(evs, i);
      assert RecordedInfo(evs[..|evs| - 1], i).KeyOf() == key;
    }
  }

  /** The time charged although the thread had already resumed at the instant it was stamped. */
  function PhantomNs(evs: seq<Event>, key: Key): nat {
    if evs == [] then 0
    else if evs[|evs| - 1] == Forget(key) then 0
    else PhantomNs(evs[..|evs| - 1], key) + Duration(Completed(evs), key, true)
  }

  lemma TotalAppend(durations: seq<nat>, d: nat)
    ensures Total(durations + [d]) == Total(durations) + d
  {
    assert (durations + [d])[..|durations|] == durations;
  }

  lemma EnteredAdds(ledger: Ledger, key: Key, completed: Option<Wait>, full: bool)
    ensures var after := Entered(ledger, key, completed, full);
      Total(after.kept) + Total(after.lost) ==
        Total(ledger.kept) + Total(ledger.lost) + Duration(completed, key, false) + Duration(completed, key, true)
  {
    if completed.Some? {
      TotalAppend(ledger.kept, completed.value.duration);
      TotalAppend(ledger.lost, completed.value.duration);
    }
  }

  lemma LedgerStep(evs: seq<Event>, key: Key)
    requires evs != [] && evs[|evs| - 1] != Forget(key)
    ensures var before, after := LedgerOf(evs[..|evs| - 1], key), LedgerOf(evs, key);
      Total(after.kept) + Total(after.lost) ==
        Total(before.kept) + Total(before.lost)
          + Duration(Completed(evs), key, false) + Duration(Completed(evs), key, true)
  {
    var e := evs[|evs| - 1];
    if !e.Forget? {
      EnteredAdds(LedgerOf(evs[..|evs| - 1], key), key, Completed(evs), e.Switch? && e.full);
    }
  }

  lemma {:induction false} LedgerIsWaits(evs: seq<Event>, key: Key)
    ensures Total(LedgerOf(evs, key).kept) + Total(LedgerOf(evs, key).lost) == WaitNs(evs, key) + PhantomNs(evs, key)
    decreases |evs|
  {
    if evs != [] && evs[|evs| - 1] != Forget(key) {
      LedgerIsWaits(evs[..|evs| - 1], key);
      LedgerStep(evs, key);
      ResumedIsCompleted(evs, key);
    }
  }

  function StatNs(k: Kernel, key: Key): nat {
    if key in k.stats then k.stats[key].ns else 0
  }

  /** A thread whose block is open returns to a CPU later than it was stamped, and no switch is from a
      thread to itself. */
  ghost predicate Advances(evs: seq<Event>)
    requires evs != []
  {
    var n := |evs| - 1;
    evs[n].Switch? ==>
      && !Records(evs, n, evs[n].next.tid)
      && forall i: nat :: Open(evs[..n], i, evs[n].next.tid) && RecordedInfo(evs[..n], i).By(evs[n].next) ==>
          evs[n].now > evs[i].now
  }

  ghost predicate TimeAdvances(evs: seq<Event>) {
    evs == [] || (TimeAdvances(evs[..|evs| - 1]) && Advances(evs))
  }

  lemma {:induction false} NothingResumed(evs: seq<Event>, tid: nat)
    requires TimeAdvances(evs)
    ensures LastOf(evs, tid).Some? ==> !LastOf(evs, tid).value.resumed
    decreases |evs|
  {
    if evs != [] {
      var n := |evs| - 1;
      NothingResumed(evs[..n], tid);
      if LastOf(evs[..n], tid).Some? {
        var i := LastIsOpen(evs[..n], tid);
      }
    }
  }

  lemma {:induction false} NoPhantoms(evs: seq<Event>, key: Key)
    requires TimeAdvances(evs)
    ensures PhantomNs(evs, key) == 0
    decreases |evs|
  {
    if evs != [] {
      NoPhantoms(evs[..|evs| - 1], key);
      if evs[|evs| - 1].Switch? { NothingResumed(evs[..|evs| - 1], evs[|evs| - 1].next.tid); }
    }
  }

  /** Over every run: a key's off-CPU time plus the waits that could not be entered is the time of the
      genuine waits completed with that key plus the phantom time; without a tie of the clock between
      a thread's switch-out and switch-in there is none, and the account is exact. */
  lemma WaitTimeIsConserved(evs: seq<Event>, key: Key)
    ensures StatNs(Run(evs), key) + Total(LedgerOf(evs, key).lost) == WaitNs(evs, key) + PhantomNs(evs, key)
    ensures TimeAdvances(evs) ==> StatNs(Run(evs), key) + Total(LedgerOf(evs, key).lost) == WaitNs(evs, key)
    ensures key in Run(evs).stats ==> SumTo(Run(evs).stats[key].slots, LOCK_SLOTS) == Run(evs).stats[key].count
  {
    StatsAreLedger(evs, key);
    LedgerIsWaits(evs, key);
    if TimeAdvances(evs) { NoPhantoms(evs, key); }
    if key in Run(evs).stats { HistogramTotal(Run(evs).stats[key].slots, LedgerOf(evs, key).kept); }
  }

  // ------------------------------------------------------------------ exactly what is charged too much

  /** Event `j` puts the thread that blocked at `i` back on a CPU, the clock not having moved since. */
  predicate Tied(evs: seq<Event>, i: nat, j: nat)
    requires i < |evs| && j < |evs| && evs[i].Switch?
  {
    evs[j].Switch? && RecordedInfo(evs, i).By(evs[j].next) && evs[j].now <= evs[i].now
  }

  /** The block at `i` is over but its entry has been left behind: it is the last one recorded for the
      thread id, which has run again since, but only at the very time of the block. */
  ghost predicate LeftBehind(evs: seq<Event>, i: nat, tid: nat) {
    && i < |evs| && Records(evs, i, tid)
    && (forall j :: i < j < |evs| ==> !Records(evs, j, tid))
    && (forall j :: i <= j < |evs| && Ends(evs[j], tid) ==> Tied(evs, i, j))
    && (exists j :: i <= j < |evs| && Ends(evs[j], tid))
  }

  lemma TiedEarlier(evs: seq<Event>, i: nat, j: nat)
    requires i < |evs| - 1 && j < |evs| - 1 && evs[i].Switch?
    ensures Tied(evs[..|evs| - 1], i, j) == Tied(evs, i, j)
  {
    RecordsEarlier(evs, i, evs[i].prev.tid);
  }

  /** A block that is open or left behind stays so over an event that leaves the entry. */
  lemma LeavesBehind(evs: seq<Event>, i: nat, tid: nat)
    requires evs != [] && i < |evs| && Records(evs, i, tid)
    requires i == |evs| - 1 || Open(evs[..|evs| - 1], i, tid) || LeftBehind(evs[..|evs| - 1], i, tid)
    requires i < |evs| - 1 ==> !Records(evs, |evs| - 1, tid)
    requires Ends(evs[|evs| - 1], tid) ==> Tied(evs, i, |evs| - 1)
    ensures LeftBehind(evs, i, tid) || Open(evs, i, tid)
    ensures Ends(evs[|evs| - 1], tid) ==> LeftBehind(evs, i, tid)
    ensures i < |evs| - 1 && LeftBehind(evs[..|evs| - 1], i, tid) ==> LeftBehind(evs, i, tid)
  {
    var n := |evs| - 1;
    forall j | i < j < n ensures !Records(evs, j, tid) { RecordsEarlier(evs, j, tid); }
    forall j | i <= j < n && Ends(evs[j], tid) ensures Tied(evs, i, j) {
      assert evs[..n][j] == evs[j];
      TiedEarlier(evs, i, j);
    }
    if i < n && LeftBehind(evs[..n], i, tid) {
      var j :| i <= j < n && Ends(evs[..n][j], tid);
      assert Ends(evs[j], tid);
    }
  }

  /** A resumed entry is one left behind. */
  lemma {:induction false} ResumedIsLeftBehind(evs: seq<Event>, tid: nat) returns (i: nat)
    requires LastOf(evs, tid).Some? && LastOf(evs, tid).value.resumed
    ensures LeftBehind(evs, i, tid) && LastOf(evs, tid).value.info == RecordedInfo(evs, i)
    decreases |evs|
  {
    var n := |evs| - 1;
    if tid == 0 { NoEntryForIdle(evs); }
    if Records(evs, n, tid) {
      i := n;
    } else {
      if LastOf(evs[..n], tid).value.resumed {
        i := ResumedIsLeftBehind(evs[..n], tid);
      } else {
        i := LastIsOpen(evs[..n], tid);
      }
      RecordsEarlier(evs, i, tid);
    }
    LeavesBehind(evs, i, tid);
  }

  lemma OpenEarlier(evs: seq<Event>, i: nat, tid: nat)
    requires i < |evs| - 1 && Records(evs, i, tid)
    requires forall j :: i < j < |evs| - 1 ==> !Records(evs, j, tid)
    requires forall j :: i <= j < |evs| - 1 ==> !Ends(evs[j], tid)
    ensures Open(evs[..|evs| - 1], i, tid)
  {
    var before := evs[..|evs| - 1];
    RecordsEarlier(evs, i, tid);
    assert before[i] == evs[i] && !Ends(evs[i], tid);
    forall j | i < j < |before| ensures !Records(before, j, tid) && !Ends(before[j], tid) {
      RecordsEarlier(evs, j, tid);
      assert before[j] == evs[j];
    }
  }

  lemma BehindEarlier(evs: seq<Event>, i: nat, tid: nat, k: nat)
    requires LeftBehind(evs, i, tid) && i <= k < |evs| - 1 && Ends(evs[k], tid)
    ensures LeftBehind(evs[..|evs| - 1], i, tid)
  {
    var before := evs[..|evs| - 1];
    forall j | i <= j < |before|
      ensures Records(before, j, tid) == Records(evs, j, tid) && Tied(before, i, j) == Tied(evs, i, j)
    {
      RecordsEarlier(evs, j, tid);
      TiedEarlier(evs, i, j);
    }
    assert Ends(before[k], tid);
  }

  /** And every entry left behind is the one the kernel holds. */
  lemma {:induction false} LeftBehindIsLast(evs: seq<Event>, i: nat, tid: nat)
    requires LeftBehind(evs, i, tid) && tid != 0
    ensures LastOf(evs, tid) == Some(Last(RecordedInfo(evs, i), true))
    decreases |evs|
  {
    var n := |evs| - 1;
    if i < n {
      RecordsEarlier(evs, i, tid);
      if k :| i <= k < n && Ends(evs[k], tid) {
        BehindEarlier(evs, i, tid, k);
        LeftBehindIsLast(evs[..n], i, tid);
      } else {
        OpenEarlier(evs, i, tid);
        OpenIsLast(evs[..n], i, tid);
      }
    }
  }

  /** The last event is the first, after a block at `i` whose entry was left behind, that puts the same
      thread on a CPU at a later time: the time in between is charged although the thread had run. */
  ghost predicate Overstays(evs: seq<Event>, i: nat)
    requires evs != []
  {
    var n := |evs| - 1;
    && evs[n].Switch? && evs[n].next.tid != 0 && i < n && !Records(evs, n, evs[n].next.tid)
    && LeftBehind(evs[..n], i, evs[n].next.tid)
    && RecordedInfo(evs[..n], i).By(evs[n].next) && evs[n].now > evs[i].now
  }

  lemma PhantomIffOverstays(evs: seq<Event>)
    requires evs != []
    ensures Completed(evs).Some? && Completed(evs).value.phantom <==> exists i: nat :: Overstays(evs, i)
    ensures forall i: nat :: Overstays(evs, i) ==>
      Completed(evs) == Some(Wait(RecordedInfo(evs[..|evs| - 1], i).KeyOf(), evs[|evs| - 1].now - evs[i].now, true))
  {
    var n := |evs| - 1;
    if Completed(evs).Some? && Completed(evs).value.phantom {
      var i := ResumedIsLeftBehind(evs[..n], evs[n].next.tid);
      assert Overstays(evs, i);
    }
    forall i: nat | Overstays(evs, i)
      ensures Completed(evs) == Some(Wait(RecordedInfo(evs[..n], i).KeyOf(), evs[n].now - evs[i].now, true))
    {
      LeftBehindIsLast(evs[..n], i, evs[n].next.tid);
    }
  }

  /** Since user space last forgot the key, no entry left behind by a block with this key was charged. */
  ghost predicate NoneOverstays(evs: seq<Event>, key: Key) {
    evs == [] || evs[|evs| - 1] == Forget(key) ||
    (NoneOverstays(evs[..|evs| - 1], key)
     && forall i: nat :: Overstays(evs, i) ==> RecordedInfo(evs[..|evs| - 1], i).KeyOf() != key)
  }

  lemma {:induction false} PhantomsIff(evs: seq<Event>, key: Key)
    ensures PhantomNs(evs, key) == 0 <==> NoneOverstays(evs, key)
    decreases |evs|
  {
    if evs != [] && evs[|evs| - 1] != Forget(key) {
      PhantomsIff(evs[..|evs| - 1], key);
      PhantomIffOverstays(evs);
      PhantomLasts(evs, key);
    }
  }

  lemma PhantomLasts(evs: seq<Event>, key: Key)
    requires evs != []
    ensures Duration(Completed(evs), key, true) == 0 <==>
            forall i: nat :: Overstays(evs, i) ==> RecordedInfo(evs[..|evs| - 1], i).KeyOf() != key
  {
    PhantomIffOverstays(evs);
    if Duration(Completed(evs), key, true) > 0 {
      var i: nat :| Overstays(evs, i);
      assert RecordedInfo(evs[..|evs| - 1], i).KeyOf() == key;
    }
    if i: nat :| Overstays(evs, i) && RecordedInfo(evs[..|evs| - 1], i).KeyOf() == key {
      assert Duration(Completed(evs), key, true) == evs[|evs| - 1].now - evs[i].now;
    }
  }

  /** The account of a key is the time of its waits, no more, if and only if no entry with this key was
      left behind by a resume in the same instant and charged later. */
  lemma AccountExactIff(evs: seq<Event>, key: Key)
    ensures StatNs(Run(evs), key) + Total(LedgerOf(evs, key).lost) == WaitNs(evs, key) <==> NoneOverstays(evs, key)
  {
    WaitTimeIsConserved(evs, key);
    PhantomsIff(evs, key);
  }

  // ------------------------------------------------------------------ the failure counters

  predicate Refused(evs: seq<Event>)
    requires evs != []
  {
    var e := evs[|evs| - 1];
    e.Switch? && e.refused && Blocks(e, Waiting(evs[..|evs| - 1], e.prev.tid))
  }

  predicate Unentered(evs: seq<Event>)
    requires evs != []
  {
    match Completed(evs)
    case Some(w) => evs[|evs| - 1].full && LedgerOf(evs[..|evs| - 1], w.key).kept == []
    case None => false
  }

  function RefusedCount(evs: seq<Event>): nat {
    if evs == [] then 0 else RefusedCount(evs[..|evs| - 1]) + if Refused(evs) then 1 else 0
  }

  function UnenteredCount(evs: seq<Event>): nat {
    if evs == [] then 0 else UnenteredCount(evs[..|evs| - 1]) + if Unentered(evs) then 1 else 0
  }

  function RefusedEnters(evs: seq<Event>): nat {
    if evs == [] then 0 else
      var e := evs[|evs| - 1];
      RefusedEnters(evs[..|evs| - 1]) + if EntersWait(e) && e.refused then 1 else 0
  }

  /** Nothing is lost silently: the health counters are the number of blocks that could not be stamped,
      of waits that could not be entered, and of futex calls that could not be stored. */
  lemma {:induction false} LossesAreCounted(evs: seq<Event>)
    ensures Run(evs).startFailures == RefusedCount(evs)
    ensures Run(evs).statFailures == UnenteredCount(evs)
    ensures Run(evs).futexFailures == RefusedEnters(evs)
    decreases |evs|
  {
    if evs != [] {
      var before := evs[..|evs| - 1];
      LossesAreCounted(before);
      if evs[|evs| - 1].Switch? {
        StatsAreLedger(before, if Completed(evs).Some? then Completed(evs).value.key else Key(0, 0, 0, 0, 0));
        StepCountsLosses(Run(before), evs);
      }
    }
  }

  lemma StepCountsLosses(k: Kernel, evs: seq<Event>)
    requires evs != [] && evs[|evs| - 1].Switch? && Reflects(k, evs[..|evs| - 1]) && SlotsFit(k)
    requires Completed(evs).Some? ==> StatIs(k, Completed(evs).value.key, LedgerOf(evs[..|evs| - 1],
        Completed(evs).value.key))
    ensures Step(k, evs[|evs| - 1]).startFailures == k.startFailures + if Refused(evs) then 1 else 0
    ensures Step(k, evs[|evs| - 1]).statFailures == k.statFailures + if Unentered(evs) then 1 else 0
  {
    assert Lookup(k.futex, evs[|evs| - 1].prev.tid) == Waiting(evs[..|evs| - 1], evs[|evs| - 1].prev.tid);
    InCharges(k, evs);
  }

  // ------------------------------------------------------------------ a tie of the clock

  /** A switch that does not concern a thread id leaves its block as it was. */
  lemma LastUnchanged(evs: seq<Event>, e: Event, tid: nat)
    requires e.Switch? && e.prev.tid != tid && e.next.tid != tid
    ensures LastOf(evs + [e], tid) == LastOf(evs, tid) && Waiting(evs + [e], tid) == Waiting(evs, tid)
  {
    assert (evs + [e])[..|evs|] == evs;
    assert LastOut(evs + [e], tid) == LastOf(evs, tid);
  }

  lemma LastPreempted(evs: seq<Event>, e: Event, tid: nat)
    requires e.Switch? && e.preempt && e.next.tid != tid
    ensures LastOf(evs + [e], tid) == LastOf(evs, tid) && Waiting(evs + [e], tid) == Waiting(evs, tid)
  {
    assert (evs + [e])[..|evs|] == evs;
    assert LastOut(evs + [e], tid) == LastOf(evs, tid);
  }

  lemma LastRecorded(evs: seq<Event>, e: Event, tid: nat)
    requires e.Switch? && e.prev.tid == tid && e.next.tid != tid && Blocks(e, Waiting(evs, tid)) && !e.refused
    ensures LastOf(evs + [e], tid) == Some(Last(InfoFor(e, Waiting(evs, tid)), false))
    ensures Waiting(evs + [e], tid) == Waiting(evs, tid)
  {
    assert (evs + [e])[..|evs|] == evs;
    assert Records(evs + [e], |evs|, tid);
  }

  lemma LastTied(evs: seq<Event>, e: Event, tid: nat, l: Last)
    requires e.Switch? && e.prev.tid != tid && e.next.tid == tid != 0 && LastOf(evs, tid) == Some(l)
    requires l.info.By(e.next) && e.now <= l.info.ts
    ensures LastOf(evs + [e], tid) == Some(Last(l.info, true))
    ensures Completed(evs + [e]).None? && Waiting(evs + [e], tid) == Waiting(evs, tid)
  {
    assert (evs + [e])[..|evs|] == evs;
    assert LastOut(evs + [e], tid) == LastOf(evs, tid);
  }

  lemma NothingCompleted(evs: seq<Event>, e: Event)
    requires e.Switch? && e.prev.tid != e.next.tid && LastOf(evs, e.next.tid).None?
    ensures Completed(evs + [e]).None?
  {
    assert (evs + [e])[..|evs|] == evs;
    assert LastOut(evs + [e], e.next.tid) == LastOf(evs, e.next.tid);
  }

  /** A leftover entry is charged when the thread gets a CPU the next time. */
  lemma PhantomCompleted(evs: seq<Event>, e: Event, l: Last)
    requires e.Switch? && e.preempt && e.next.tid != 0 && LastOf(evs, e.next.tid) == Some(l)
    requires l.resumed && l.info.By(e.next) && e.now > l.info.ts
    ensures Completed(evs + [e]) == Some(Wait(l.info.KeyOf(), e.now - l.info.ts, true))
  {
    assert (evs + [e])[..|evs|] == evs;
    assert LastOut(evs + [e], e.next.tid) == LastOf(evs, e.next.tid);
  }

  /** The accounts of a key. */
  ghost predicate Accounts(evs: seq<Event>, key: Key, waitNs: nat, phantomNs: nat) {
    WaitNs(evs, key) == waitNs && PhantomNs(evs, key) == phantomNs
  }

  lemma AccountsNext(evs: seq<Event>, e: Event, key: Key, waitNs: nat, phantomNs: nat)
    requires e.Switch? && Accounts(evs, key, waitNs, phantomNs)
    ensures Accounts(evs + [e], key, waitNs + Duration(Completed(evs + [e]), key, false),
                     phantomNs + Duration(Completed(evs + [e]), key, true))
  {
    assert (evs + [e])[..|evs|] == evs;
    ResumedIsCompleted(evs + [e], key);
  }

  /** The clock stands still across a block and resume: thread 5 blocks and is back at time 10, runs until
      it is preempted at 15 and gets the CPU again at 18. It never waited, and is charged 8. */
  lemma TieChargesRunTime() returns (evs: seq<Event>)
    ensures
      var a, idle, b := Task(5, 5, 1), Task(0, 0, 0), Task(6, 6, 2);
      evs == [Switch(10, a, 2, false, false, true, 0, false, idle, false),
              Switch(10, idle, 0, true, false, true, 0, false, a, false),
              Switch(15, a, 0, true, false, true, 0, false, b, false),
              Switch(18, b, 0, true, false, true, 0, false, a, false)]
    ensures WaitNs(evs, Key(5, 5, 0, 0, FUTEX_OP_NONE)) == 0 && PhantomNs(evs, Key(5, 5, 0, 0, FUTEX_OP_NONE)) == 8
  {
    var a, idle, b := Task(5, 5, 1), Task(0, 0, 0), Task(6, 6, 2);
    var e0 := Switch(10, a, 2, false, false, true, 0, false, idle, false);
    var e1 := Switch(10, idle, 0, true, false, true, 0, false, a, false);
    var e2 := Switch(15, a, 0, true, false, true, 0, false, b, false);
    var e3 := Switch(18, b, 0, true, false, true, 0, false, a, false);
    var info, key := Info(10, 5, 5, 1, 0, 0, FUTEX_OP_NONE), Key(5, 5, 0, 0, FUTEX_OP_NONE);
    evs := [];
    NoEntryForIdle(evs);
    LastRecorded(evs, e0, 5);
    LastUnchanged(evs, e0, 6);
    NothingCompleted(evs, e0);
    AccountsNext(evs, e0, key, 0, 0);
    evs := evs + [e0];
    LastTied(evs, e1, 5, Last(info, false));
    LastUnchanged(evs, e1, 6);
    AccountsNext(evs, e1, key, 0, 0);
    evs := evs + [e1];
    LastPreempted(evs, e2, 5);
    NothingCompleted(evs, e2);
    AccountsNext(evs, e2, key, 0, 0);
    evs := evs + [e2];
    PhantomCompleted(evs, e3, Last(info, true));
    AccountsNext(evs, e3, key, 0, 0);
    evs := evs + [e3];
  }

  // ------------------------------------------------------------------ the programs

  class Program {
    var start: map<nat, Info>
    var futex: map<nat, FutexInfo>
    var stats: map<Key, Stat>
    var startFailures: nat
    var statFailures: nat
    var futexFailures: nat

    function View(): Kernel
      reads this
    {
      Kernel(start, futex, stats, startFailures, statFailures, futexFailures)
    }

    constructor ()
      ensures View() == Empty()
    {
      start, futex, stats := map[], map[], map[];
      startFailures, statFailures, futexFailures := 0, 0, 0;
    }

    method HandleFutexEnter(tid: nat, admitted: bool, op: nat, address: nat, refused: bool)
      requires SlotsFit(View())
      modifies this
      ensures View() == Step(old(View()), Enter(tid, admitted, op, address, refused))
    {
      if !admitted || !CanWait(op) {
        return;
      }
      if refused {
        futexFailures := futexFailures + 1;
      } else {
        futex := futex[tid := FutexInfo(address, op)];
      }
    }

    method HandleFutexExit(tid: nat)
      requires SlotsFit(View())
      modifies this
      ensures View() == Step(old(View()), Exit(tid))
    {
      futex := futex - {tid};
    }

    /** `get_lock_stat`: make the entry if it is not there and there is room. */
    method GetLockStat(key: Key, full: bool) returns (found: bool)
      modifies `stats, `statFailures
      ensures found <==> key in old(stats) || !full
      ensures stats == if key in old(stats) || full then old(stats) else old(stats)[key := Stat(0, 0, NoSlots())]
      ensures statFailures == old(statFailures) + if found then 0 else 1
    {
      if key in stats {
        return true;
      }
      if full {
        statFailures := statFailures + 1;
        return false;
      }
      stats := stats[key := Stat(0, 0, NoSlots())];
      return true;
    }

    method AccountPrev(e: Event)
      requires e.Switch?
      modifies this
      ensures View() == SwitchOut(old(View()), e)
    {
      if e.prev.tid == 0 || e.prevState == 0 || e.preempt || e.exiting || !e.admitted {
        return;
      }
      var info := Lookup(futex, e.prev.tid);
      if info.None? && !Uninterruptible(e.prevState) {
        return;
      }
      if e.refused {
        startFailures := startFailures + 1;
      } else {
        start := start[e.prev.tid := InfoFor(e, info)];
      }
    }

    method AccountNext(e: Event)
      requires e.Switch? && e.now < UINT64 && SlotsFit(View())
      modifies this
      ensures View() == SwitchIn(old(View()), e)
    {
      if e.next.tid == 0 || e.next.tid !in start {
        return;
      }
      var info := start[e.next.tid];
      if !info.By(e.next) {
        start := start - {e.next.tid};
        return;
      }
      if e.now > info.ts {
        var duration := e.now - info.ts;
        var key := info.KeyOf();
        var found := GetLockStat(key, e.full);
        if found {
          var st := stats[key];
          var slot := LatencySlot(duration, LOCK_SLOTS);
          stats := stats[key := Stat(st.ns + duration, st.count + 1, st.slots[slot := st.slots[slot] + 1])];
        }
        start := start - {e.next.tid};
      }
    }

    /** User space deletes a key it no longer wants. */
    method Delete(key: Key)
      requires SlotsFit(View())
      modifies this
      ensures View() == Step(old(View()), Forget(key))
    {
      stats := stats - {key};
      start := start - {key.tid};
      futex := futex - {key.tid};
    }

    method HandleSwitch(e: Event)
      requires e.Switch? && e.now < UINT64 && SlotsFit(View())
      modifies this
      ensures View() == Step(old(View()), e)
    {
      AccountPrev(e);
      AccountNext(e);
    }
  }
}
