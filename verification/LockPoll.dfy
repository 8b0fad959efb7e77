/** The poll of the lock collector: differences of cumulative statistics, grouped per process and lock
    address, or per kernel stack when there is no address. */
module LockPoll {
  import opened Common
  import opened FiniteSums
  import opened LogHistogram
  import opened OffCpu

  datatype GroupKey = GroupKey(tgid: nat, address: nat, stack: int)

  datatype Waiter = Waiter(ns: nat, count: nat, maxNs: nat)

  datatype Aggregate = Aggregate(
    ns: nat, count: nat, slots: seq<nat>, waiters: map<nat, Waiter>, top: nat, stack: int, op: nat,
    waker: nat)

  /** One poll: the statistics read, with the last waker of each key, the previous ones, and what the
      environment says about processes. */
  datatype Window = Window(
    cur: map<Key, Stat>, wakers: map<Key, nat>, prev: map<Key, Stat>, targeted: bool, self: nat,
    members: set<nat>, running: set<(nat, nat)>) {
    ghost predicate Fits() {
      && (forall k :: k in cur ==> |cur[k].slots| == LOCK_SLOTS)
      && (forall k :: k in prev ==> |prev[k].slots| == LOCK_SLOTS)
    }

    predicate Excluded(k: Key) {
      if targeted then k.tgid !in members else k.tgid == self
    }

    function Now(k: Key): Stat {
      if k in cur then cur[k] else Stat(0, 0, NoSlots())
    }

    function Before(k: Key): Stat {
      if k in prev then prev[k] else Stat(0, 0, NoSlots())
    }

    function Ns(k: Key): nat {
      Saturating(Now(k).ns, Before(k).ns)
    }

    function Count(k: Key): nat {
      Saturating(Now(k).count, Before(k).count)
    }

    function Waker(k: Key): nat {
      if k in wakers then wakers[k] else 0
    }

    predicate Slotted(k: Key) {
      |Now(k).slots| == |Before(k).slots| == LOCK_SLOTS
    }

    /** What the key added to each slot. */
    function Deltas(k: Key): seq<nat>
      requires Slotted(k)
    {
      seq(LOCK_SLOTS, i requires 0 <= i < LOCK_SLOTS => Saturating(Now(k).slots[i], Before(k).slots[i]))
    }

    /** The longest wait of the key in the window. */
    function Peak(k: Key): nat {
      if Slotted(k) then Highest(Deltas(k)) else 0
    }

    /** The key has something to report in this window. */
    predicate Active(k: Key) {
      !Excluded(k) && (Ns(k) != 0 || Count(k) != 0)
    }

    /** An idle key of a thread that is gone. */
    predicate Gone(k: Key) {
      !Excluded(k) && !Active(k) && (k.tgid, k.tid) !in running
    }
  }

  function GroupOf(k: Key): GroupKey {
    GroupKey(k.tgid, k.address, if k.address == 0 then k.stack else 0)
  }

  // ------------------------------------------------------------------ one key joins its group

  function Start(k: Key): Aggregate {
    Aggregate(0, 0, NoSlots(), map[], 0, k.stack, k.op, 0)
  }

  function WaiterOf(agg: Aggregate, tid: nat): Waiter {
    if tid in agg.waiters then agg.waiters[tid] else Waiter(0, 0, 0)
  }

  function Join(agg: Aggregate, w: Window, k: Key): Aggregate
    requires w.Slotted(k) && |agg.slots| == LOCK_SLOTS
  {
    var waiter := WaiterOf(agg, k.tid);
    var more := agg.(
      ns := agg.ns + w.Ns(k), count := agg.count + w.Count(k),
      slots := seq(LOCK_SLOTS, i requires 0 <= i < LOCK_SLOTS => agg.slots[i] + w.Deltas(k)[i]),
      waiters := agg.waiters[k.tid := Waiter(waiter.ns + w.Ns(k), waiter.count + w.Count(k),
                                             if w.Peak(k) > waiter.maxNs then w.Peak(k) else waiter.maxNs)]);
    if w.Ns(k) > agg.top then more.(top := w.Ns(k), stack := k.stack, op := k.op, waker := w.Waker(k)) else more
  }

  predicate SlotsOk(groups: map<GroupKey, Aggregate>) {
    forall g :: g in groups ==> |groups[g].slots| == LOCK_SLOTS
  }

  function Joined(groups: map<GroupKey, Aggregate>, w: Window, k: Key): map<GroupKey, Aggregate>
    requires SlotsOk(groups) && w.Slotted(k)
  {
    var g := GroupOf(k);
    groups[g := Join(if g in groups then groups[g] else Start(k), w, k)]
  }

  // ------------------------------------------------------------------ measures

  /** What a group is measured by: its time, its number of waits, a slot, or one thread's share. */
  datatype Measure = Time | Waits | Slot(i: nat) | TimeOf(tid: nat) | WaitsOf(tid: nat)

  /** What one key adds to a measure of its group. */
  ghost function Weight(w: Window, m: Measure): Key -> int {
    k => match m
      case Time => w.Ns(k)
      case Waits => w.Count(k)
      case Slot(i) => if i < LOCK_SLOTS && w.Slotted(k) then w.Deltas(k)[i] else 0
      case TimeOf(tid) => if k.tid == tid then w.Ns(k) else 0
      case WaitsOf(tid) => if k.tid == tid then w.Count(k) else 0
  }

  function AggregateValue(agg: Aggregate, m: Measure): nat {
    match m
    case Time => agg.ns
    case Waits => agg.count
    case Slot(i) => if i < |agg.slots| then agg.slots[i] else 0
    case TimeOf(tid) => WaiterOf(agg, tid).ns
    case WaitsOf(tid) => WaiterOf(agg, tid).count
  }

  function Value(groups: map<GroupKey, Aggregate>, g: GroupKey, m: Measure): nat {
    if g in groups then AggregateValue(groups[g], m) else 0
  }

  ghost function InGroup(keys: set<Key>, g: GroupKey): set<Key> {
    set k | k in keys && GroupOf(k) == g
  }

  /** Every measure of every group is the sum over the group's keys, except those still to come. */
  ghost predicate Tallied(w: Window, groups: map<GroupKey, Aggregate>, all: set<Key>, todo: set<Key>) {
    forall g, m :: Value(groups, g, m) + Sum(InGroup(todo, g), Weight(w, m)) == Sum(InGroup(all, g), Weight(w, m))
  }

  /** The stack, futex operation and last waker shown for a group are those of a key with the longest
      time; while no time was added there is no waker. */
  ghost predicate Dominant(w: Window, groups: map<GroupKey, Aggregate>, all: set<Key>, todo: set<Key>) {
    && (forall g :: g in groups <==> InGroup(all - todo, g) != {})
    && (forall k :: k in all - todo && GroupOf(k) in groups ==> w.Ns(k) <= groups[GroupOf(k)].top)
    && (forall g :: g in groups ==> Shown(w, groups[g], g, all - todo))
  }

  ghost predicate Shown(w: Window, agg: Aggregate, g: GroupKey, done: set<Key>) {
    exists k :: k in done && GroupOf(k) == g && Shows(w, agg, k)
  }

  ghost predicate Shows(w: Window, agg: Aggregate, k: Key) {
    && w.Ns(k) == agg.top && k.stack == agg.stack && k.op == agg.op
    && agg.waker == if agg.top == 0 then 0 else w.Waker(k)
  }

  /** The longest wait shown for a thread of a group is that of one of its keys, and none has a longer. */
  ghost predicate Peaked(w: Window, groups: map<GroupKey, Aggregate>, done: set<Key>) {
    && (forall k :: k in done ==> PeakCovered(w, groups, k))
    && (forall g, tid :: g in groups && tid in groups[g].waiters ==>
          PeakReached(w, groups[g].waiters[tid], g, tid, done))
  }

  ghost predicate PeakCovered(w: Window, groups: map<GroupKey, Aggregate>, k: Key) {
    && GroupOf(k) in groups && k.tid in groups[GroupOf(k)].waiters
    && w.Peak(k) <= groups[GroupOf(k)].waiters[k.tid].maxNs
  }

  ghost predicate PeakReached(w: Window, waiter: Waiter, g: GroupKey, tid: nat, done: set<Key>) {
    exists k :: k in done && GroupOf(k) == g && k.tid == tid && w.Peak(k) == waiter.maxNs
  }

  lemma PeakedStep(w: Window, groups: map<GroupKey, Aggregate>, done: set<Key>, k: Key)
    requires SlotsOk(groups) && w.Slotted(k) && Peaked(w, groups, done)
    ensures Peaked(w, Joined(groups, w, k), done + {k})
  {
    var groups' := Joined(groups, w, k);
    forall j | j in done + {k} ensures PeakCovered(w, groups', j) {
      if j != k { assert PeakCovered(w, groups, j); }
    }
    forall g, tid | g in groups' && tid in groups'[g].waiters
      ensures PeakReached(w, groups'[g].waiters[tid], g, tid, done + {k})
    {
      if g in groups && tid in groups[g].waiters && groups'[g].waiters[tid].maxNs == groups[g].waiters[tid].maxNs {
        var j :| j in done && GroupOf(j) == g && j.tid == tid && w.Peak(j) == groups[g].waiters[tid].maxNs;
        assert j in done + {k};
      } else {
        assert k in done + {k};
      }
    }
  }

  lemma JoinValue(agg: Aggregate, w: Window, k: Key, m: Measure)
    requires w.Slotted(k) && |agg.slots| == LOCK_SLOTS
    ensures AggregateValue(Join(agg, w, k), m) == AggregateValue(agg, m) + Weight(w, m)(k)
  {
  }

  lemma StartValue(k: Key, m: Measure)
    ensures AggregateValue(Start(k), m) == 0
  {
  }

  lemma TallyOne(w: Window, groups: map<GroupKey, Aggregate>, all: set<Key>, todo: set<Key>, k: Key,
                 g: GroupKey, m: Measure)
    requires SlotsOk(groups) && w.Slotted(k) && k in todo
    requires Value(groups, g, m) + Sum(InGroup(todo, g), Weight(w, m)) == Sum(InGroup(all, g), Weight(w, m))
    ensures Value(Joined(groups, w, k), g, m) + Sum(InGroup(todo - {k}, g), Weight(w, m)) == Sum(InGroup(all, g),
        Weight(w, m))
  {
    if g == GroupOf(k) {
      SumRemove(InGroup(todo, g), Weight(w, m), k);
      assert InGroup(todo - {k}, g) == InGroup(todo, g) - {k};
      StartValue(k, m);
      JoinValue(if g in groups then groups[g] else Start(k), w, k, m);
    } else {
      assert InGroup(todo - {k}, g) == InGroup(todo, g);
    }
  }

  lemma TallyStep(w: Window, groups: map<GroupKey, Aggregate>, all: set<Key>, todo: set<Key>, k: Key)
    requires SlotsOk(groups) && w.Slotted(k) && k in todo
    requires Tallied(w, groups, all, todo)
    ensures Tallied(w, Joined(groups, w, k), all, todo - {k})
  {
    forall g, m ensures Value(Joined(groups, w, k), g, m) + Sum(InGroup(todo - {k}, g), Weight(w,
        m)) == Sum(InGroup(all, g), Weight(w, m)) {
      TallyOne(w, groups, all, todo, k, g, m);
    }
  }

  lemma ShownStep(w: Window, groups: map<GroupKey, Aggregate>, done: set<Key>, k: Key, g: GroupKey)
    requires SlotsOk(groups) && w.Slotted(k)
    requires g in groups ==> Shown(w, groups[g], g, done)
    requires g in groups || g == GroupOf(k)
    ensures Shown(w, Joined(groups, w, k)[g], g, done + {k})
  {
    if g in groups && (g != GroupOf(k) || w.Ns(k) <= groups[g].top) {
      var j :| j in done && GroupOf(j) == g && Shows(w, groups[g], j);
      assert j in done + {k};
    } else {
      assert k in done + {k};
    }
  }

  lemma TopStep(w: Window, groups: map<GroupKey, Aggregate>, k: Key, j: Key)
    requires SlotsOk(groups) && w.Slotted(k)
    requires j == k || (GroupOf(j) in groups && w.Ns(j) <= groups[GroupOf(j)].top)
    ensures w.Ns(j) <= Joined(groups, w, k)[GroupOf(j)].top
  {
  }

  lemma GroupsStep(groups: set<GroupKey>, done: set<Key>, k: Key, g: GroupKey)
    requires g in groups <==> InGroup(done, g) != {}
    ensures (g in groups || g == GroupOf(k)) <==> InGroup(done + {k}, g) != {}
  {
    assert InGroup(done + {k}, g) == InGroup(done, g) + if GroupOf(k) == g then {k} else {};
  }

  lemma DominantStep(w: Window, groups: map<GroupKey, Aggregate>, all: set<Key>, todo: set<Key>, k: Key)
    requires SlotsOk(groups) && w.Slotted(k) && k in todo && todo <= all
    requires Dominant(w, groups, all, todo)
    ensures Dominant(w, Joined(groups, w, k), all, todo - {k})
  {
    var groups', done := Joined(groups, w, k), all - todo;
    assert all - (todo - {k}) == done + {k};
    forall g ensures g in groups' <==> InGroup(done + {k}, g) != {} { GroupsStep(groups.Keys, done, k, g); }
    forall j | j in done + {k} ensures w.Ns(j) <= groups'[GroupOf(j)].top {
      if j != k { assert j in InGroup(done, GroupOf(j)); }
      TopStep(w, groups, k, j);
    }
    forall g | g in groups' ensures Shown(w, groups'[g], g, done + {k}) { ShownStep(w, groups, done, k, g); }
  }

  // ------------------------------------------------------------------ grouping loses nothing

  lemma {:induction false} Partition(keys: set<Key>, groups: set<GroupKey>, f: Key -> int)
    requires forall k :: k in keys ==> GroupOf(k) in groups
    ensures Sum(groups, GroupSum(keys, f)) == Sum(keys, f)
    decreases groups
  {
    if groups == {} {
      assert keys == {};
    } else {
      var g :| g in groups;
      var rest := keys - InGroup(keys, g);
      SumRemove(groups, GroupSum(keys, f), g);
      forall h | h in groups - {g} ensures GroupSum(keys, f)(h) == GroupSum(rest, f)(h) {
        assert InGroup(keys, h) == InGroup(rest, h);
      }
      SumSame(groups - {g}, GroupSum(keys, f), GroupSum(rest, f));
      Partition(rest, groups - {g}, f);
      SumSplit(keys, InGroup(keys, g), f);
    }
  }

  ghost function GroupSum(keys: set<Key>, f: Key -> int): GroupKey -> int {
    g => Sum(InGroup(keys, g), f)
  }

  lemma {:induction false} SumSplit(all: set<Key>, part: set<Key>, f: Key -> int)
    requires part <= all
    ensures Sum(all, f) == Sum(part, f) + Sum(all - part, f)
    decreases part
  {
    if part == {} {
      assert all - part == all;
    } else {
      var x :| x in part;
      SumRemove(part, f, x);
      SumRemove(all, f, x);
      SumSplit(all - {x}, part - {x}, f);
      assert all - {x} - (part - {x}) == all - part;
    }
  }

  ghost function ValueOf(groups: map<GroupKey, Aggregate>, m: Measure): GroupKey -> int {
    g => Value(groups, g, m)
  }

  ghost function ActiveKeys(w: Window): set<Key> {
    set k | k in w.cur && w.Active(k)
  }

  lemma EveryKeyGrouped(w: Window, groups: map<GroupKey, Aggregate>, all: set<Key>)
    requires Dominant(w, groups, all, {})
    ensures forall k :: k in all ==> GroupOf(k) in groups
  {
    forall k | k in all ensures GroupOf(k) in groups {
      assert k in InGroup(all - {}, GroupOf(k));
    }
  }

  lemma NothingToCome(w: Window, groups: map<GroupKey, Aggregate>, all: set<Key>, g: GroupKey, m: Measure)
    requires Tallied(w, groups, all, {})
    ensures Value(groups, g, m) == Sum(InGroup(all, g), Weight(w, m))
  {
    assert InGroup({}, g) == {};
  }

  /** All groups together report exactly what the keys added in the window, for every measure. */
  lemma GroupsPreserveTotals(w: Window, groups: map<GroupKey, Aggregate>, m: Measure)
    requires Grouped(w, groups, {})
    ensures Sum(groups.Keys, ValueOf(groups, m)) == Sum(ActiveKeys(w), Weight(w, m))
  {
    var all := ActiveKeys(w);
    EveryKeyGrouped(w, groups, all);
    forall g ensures ValueOf(groups, m)(g) == GroupSum(all, Weight(w, m))(g) {
      NothingToCome(w, groups, all, g, m);
    }
    SumSame(groups.Keys, ValueOf(groups, m), GroupSum(all, Weight(w, m)));
    Partition(all, groups.Keys, Weight(w, m));
  }

  // ------------------------------------------------------------------ what a key adds, from the switches

  /** User space does not delete the statistics of the key in this part of the run. */
  ghost predicate NotForgotten(evs: seq<Event>, i: nat, j: nat, k: Key)
    requires i <= j <= |evs|
  {
    forall n :: i <= n < j ==> evs[n] != Forget(k)
  }

  lemma {:induction false} KeptGrows(evs: seq<Event>, i: nat, j: nat, k: Key)
    requires i <= j <= |evs| && NotForgotten(evs, i, j, k)
    ensures LedgerOf(evs[..i], k).kept <= LedgerOf(evs[..j], k).kept
    decreases j
  {
    if i < j {
      assert evs[..j][..j - 1] == evs[..j - 1] && evs[..j][j - 1] == evs[j - 1] != Forget(k);
      KeptGrows(evs, i, j - 1, k);
    }
  }

  /** The waits entered for a key between two points of a run. */
  ghost function WaitsBetween(evs: seq<Event>, i: nat, j: nat, k: Key): seq<nat>
    requires i <= j <= |evs| && NotForgotten(evs, i, j, k)
  {
    KeptGrows(evs, i, j, k);
    LedgerOf(evs[..j], k).kept[|LedgerOf(evs[..i], k).kept|..]
  }

  lemma {:induction false} TotalSplit(a: seq<nat>, b: seq<nat>)
    ensures Total(a + b) == Total(a) + Total(b)
    decreases |b|
  {
    if b == [] {
      assert a + b == a;
    } else {
      assert (a + b)[..|a + b| - 1] == a + b[..|b| - 1];
      TotalSplit(a, b[..|b| - 1]);
    }
  }

  lemma StatOrNone(evs: seq<Event>, k: Key)
    ensures var st := if k in OffCpu.Run(evs).stats then OffCpu.Run(evs).stats[k] else Stat(0, 0, NoSlots());
      var kept := LedgerOf(evs, k).kept;
      st.ns == Total(kept) && st.count == |kept| && IsHistogram(st.slots, kept) && |st.slots| == LOCK_SLOTS
  {
    StatsAreLedger(evs, k);
    assert IsHistogram(NoSlots(), []);
  }

  /** What a poll takes for the share of a key is, for every run of the scheduler's events, exactly the waits
      that were entered for the key since the previous poll: their time, their number, their histogram, and
      a longest wait at most 2 v - 1 for the true longest v, and not below v while v fits the histogram. */
  lemma ShareIsWaits(evs: seq<Event>, i: nat, j: nat, k: Key, w: Window)
    requires i <= j <= |evs| && NotForgotten(evs, i, j, k)
    requires Lookup(w.cur, k) == Lookup(OffCpu.Run(evs[..j]).stats, k)
    requires Lookup(w.prev, k) == Lookup(OffCpu.Run(evs[..i]).stats, k)
    ensures var waits := WaitsBetween(evs, i, j, k);
      && w.Ns(k) == Total(waits) && w.Count(k) == |waits|
      && w.Slotted(k) && IsHistogram(w.Deltas(k), waits)
      && (forall v | v in waits && (forall x :: x in waits ==> x <= v) ::
            (w.Peak(k) >= v <==> v < Pow2(LOCK_SLOTS)) && w.Peak(k) <= if v == 0 then 1 else 2 * v - 1)
  {
    var waits, before := WaitsBetween(evs, i, j, k), LedgerOf(evs[..i], k).kept;
    KeptGrows(evs, i, j, k);
    assert before + waits == LedgerOf(evs[..j], k).kept;
    StatOrNone(evs[..i], k);
    StatOrNone(evs[..j], k);
    TotalSplit(before, waits);
    var cur, prev := w.Now(k).slots, w.Before(k).slots;
    WindowHistogram(cur, prev, before, waits);
    assert w.Deltas(k) == SaturatingDeltas(cur, prev) == CounterDeltas(cur, prev);
    forall v | v in waits && (forall x :: x in waits ==> x <= v)
      ensures (w.Peak(k) >= v <==> v < Pow2(LOCK_SLOTS)) && w.Peak(k) <= if v == 0 then 1 else 2 * v - 1
    {
      WindowMaximum(cur, prev, before, waits, v);
    }
  }

  // ------------------------------------------------------------------ the poll

  /** What the poll leaves in the stale counters for a key it has looked at. */
  function StaleAfter(w: Window, stale: map<Key, nat>, k: Key): Option<nat> {
    if !w.Gone(k) then None
    else var n := (if k in stale then stale[k] else 0) + 1; if n >= STALE_WINDOWS_BEFORE_DELETE then None else Some(n)
  }

  /** Keys the poll deletes: those of excluded processes, and idle ones of threads gone for three polls. */
  predicate Deleted(w: Window, stale: map<Key, nat>, k: Key) {
    w.Excluded(k) || (w.Gone(k) && StaleAfter(w, stale, k).None?)
  }

  ghost predicate Swept(w: Window, stale: map<Key, nat>, stale': map<Key, nat>, cur: map<Key, Stat>, todo: set<Key>) {
    && (forall k :: k in cur <==> k in w.cur && (k in todo || !Deleted(w, stale, k)))
    && (forall k :: k in cur ==> cur[k] == w.cur[k])
    && (forall k :: Lookup(stale', k) == if k in w.cur && k !in todo then StaleAfter(w, stale, k) else Lookup(stale, k))
  }

  // ------------------------------------------------------------------ which keys, poll after poll

  /** The key is of interest: of the target's processes or, without a target, of any but the own one. */
  predicate Ours(w: Window, k: Key) {
    (w.targeted ==> k.tgid in w.members) && (w.targeted || k.tgid != w.self)
  }

  /** Its time or its number of waits is above that of the previous poll. */
  predicate Adds(w: Window, k: Key) {
    && k in w.cur
    && (k !in w.prev ==> w.cur[k].ns > 0 || w.cur[k].count > 0)
    && (k in w.prev ==> w.cur[k].ns > w.prev[k].ns || w.cur[k].count > w.prev[k].count)
  }

  /** It is read, adds nothing, and its thread is gone. */
  predicate Idles(w: Window, k: Key) {
    k in w.cur && Ours(w, k) && !Adds(w, k) && (k.tgid, k.tid) !in w.running
  }

  /** The keys in the groups of a poll are those of interest that add something, and two of them share a
      group exactly if they are of one process and one lock address or, without an address, one stack. */
  lemma GroupsHoldWhatIsAdded(w: Window, j: Key, k: Key)
    ensures k in ActiveKeys(w) <==> Ours(w, k) && Adds(w, k)
    ensures GroupOf(j) == GroupOf(k)
            <==> j.tgid == k.tgid && j.address == k.address && (j.address == 0 ==> j.stack == k.stack)
    ensures GroupOf(k).tgid == k.tgid && GroupOf(k).address == k.address && (k.address != 0 ==> GroupOf(k).stack == 0)
  {
  }

  /** The windows and stale counters of successive polls: each starts from what the one before has left. */
  ghost predicate IsPolling(ws: seq<Window>, stales: seq<map<Key, nat>>) {
    && |stales| == |ws| > 0 && ws[0].prev == map[] && stales[0] == map[]
    && forall i :: 0 <= i < |ws| - 1 ==> Swept(ws[i], stales[i], stales[i + 1], ws[i + 1].prev, {})
  }

  /** How often in a row the key was idle when it was read, starting again after every third time. */
  ghost function IdleRun(ws: seq<Window>, i: nat, k: Key): nat
    requires i <= |ws|
  {
    if i == 0 then 0
    else if k !in ws[i - 1].cur then IdleRun(ws, i - 1, k)
    else if !Idles(ws[i - 1], k) then 0
    else if IdleRun(ws, i - 1, k) == 2 then 0
    else IdleRun(ws, i - 1, k) + 1
  }

  /** Over any polls, the stale counter of a key is the number of times in a row it was idle. */
  lemma {:induction false} StaleIsIdleRun(ws: seq<Window>, stales: seq<map<Key, nat>>, i: nat, k: Key)
    requires IsPolling(ws, stales) && i < |ws|
    ensures IdleRun(ws, i, k) <= 2
    ensures Lookup(stales[i], k) == if IdleRun(ws, i, k) == 0 then None else Some(IdleRun(ws, i, k))
  {
    if i > 0 {
      StaleIsIdleRun(ws, stales, i - 1, k);
      assert Swept(ws[i - 1], stales[i - 1], stales[i], ws[i].prev, {});
    }
  }

  /** A key read is kept for the next poll, as it was read, if and only if it is of interest and this is not
      the third time in a row that it is idle. */
  lemma KeptUnlessThirdIdle(ws: seq<Window>, stales: seq<map<Key, nat>>, i: nat, k: Key)
    requires IsPolling(ws, stales) && i + 1 < |ws|
    ensures k in ws[i + 1].prev
            <==> k in ws[i].cur && Ours(ws[i], k) && !(Idles(ws[i], k) && IdleRun(ws, i, k) == 2)
    ensures k in ws[i + 1].prev ==> ws[i + 1].prev[k] == ws[i].cur[k]
  {
    StaleIsIdleRun(ws, stales, i, k);
    assert Swept(ws[i], stales[i], stales[i + 1], ws[i + 1].prev, {});
  }

  ghost predicate Grouped(w: Window, groups: map<GroupKey, Aggregate>, todo: set<Key>) {
    && SlotsOk(groups) && Tallied(w, groups, ActiveKeys(w), todo) && Dominant(w, groups, ActiveKeys(w), todo)
    && Peaked(w, groups, ActiveKeys(w) - todo)
  }

  lemma GroupedStep(w: Window, groups: map<GroupKey, Aggregate>, todo: set<Key>, k: Key)
    requires Grouped(w, groups, todo) && w.Fits() && k in todo && todo <= ActiveKeys(w)
    ensures w.Slotted(k)
    ensures Grouped(w, Joined(groups, w, k), todo - {k})
  {
    var all, groups' := ActiveKeys(w), Joined(groups, w, k);
    assert SlotsOk(groups') by { SlotsStep(w, groups, k); }
    assert Tallied(w, groups', all, todo - {k}) by { TallyStep(w, groups, all, todo, k); }
    assert Dominant(w, groups', all, todo - {k}) by { DominantStep(w, groups, all, todo, k); }
    assert Peaked(w, groups', all - (todo - {k})) by { PeakedMore(w, groups, all, todo, k); }
  }

  lemma SlotsStep(w: Window, groups: map<GroupKey, Aggregate>, k: Key)
    requires SlotsOk(groups) && w.Slotted(k)
    ensures SlotsOk(Joined(groups, w, k))
  {
  }

  lemma PeakedMore(w: Window, groups: map<GroupKey, Aggregate>, all: set<Key>, todo: set<Key>, k: Key)
    requires SlotsOk(groups) && w.Slotted(k) && Peaked(w, groups, all - todo) && k in todo && todo <= all
    ensures Peaked(w, Joined(groups, w, k), all - (todo - {k}))
  {
    PeakedStep(w, groups, all - todo, k);
    assert all - (todo - {k}) == all - todo + {k};
  }

  /** The poll between two keys. */
  ghost predicate Polling(w: Window, stale0: map<Key, nat>, stale: map<Key, nat>, cur: map<Key, Stat>,
                          groups: map<GroupKey, Aggregate>, todo: set<Key>) {
    && todo <= w.cur.Keys && Grouped(w, groups, ActiveKeys(w) * todo)
    && Swept(w, stale0, stale, cur, todo)
  }

  lemma PollingStarts(w: Window, stale: map<Key, nat>)
    ensures Polling(w, stale, stale, w.cur, map[], w.cur.Keys)
  {
    var all := ActiveKeys(w);
    assert all * w.cur.Keys == all && all - all == {};
    forall g ensures InGroup({}, g) == {} {}
  }

  lemma SweptStep(w: Window, stale0: map<Key, nat>, stale: map<Key, nat>, cur: map<Key, Stat>, todo: set<Key>,
                  k: Key, stale': map<Key, nat>, cur': map<Key, Stat>)
    requires Swept(w, stale0, stale, cur, todo) && k in todo && k in w.cur
    requires cur' == if Deleted(w, stale0, k) then cur - {k} else cur
    requires forall j :: Lookup(stale', j) == if j == k then StaleAfter(w, stale0, k) else Lookup(stale, j)
    ensures Swept(w, stale0, stale', cur', todo - {k})
  {
  }

  lemma PollingStep(w: Window, stale0: map<Key, nat>, stale: map<Key, nat>, cur: map<Key, Stat>,
                    groups: map<GroupKey, Aggregate>, todo: set<Key>,
                    k: Key, stale': map<Key, nat>, cur': map<Key, Stat>, groups': map<GroupKey, Aggregate>)
    requires Polling(w, stale0, stale, cur, groups, todo) && w.Fits() && k in todo
    requires SlotsOk(groups') && groups' == if w.Active(k) then Joined(groups, w, k) else groups
    requires Swept(w, stale0, stale', cur', todo - {k})
    ensures Polling(w, stale0, stale', cur', groups', todo - {k})
  {
    var all := ActiveKeys(w);
    assert Grouped(w, groups', all * (todo - {k})) by {
      ActiveTodo(w, todo, k);
      if w.Active(k) { GroupedStep(w, groups, all * todo, k); }
    }
  }

  lemma ActiveTodo(w: Window, todo: set<Key>, k: Key)
    requires k in todo && todo <= w.cur.Keys
    ensures ActiveKeys(w) * (todo - {k}) == if w.Active(k) then ActiveKeys(w) * todo - {k} else ActiveKeys(w) * todo
    ensures w.Active(k) ==> k in ActiveKeys(w) * todo
  {
  }

  class LockCollector {
    var prev: map<Key, Stat>
    var stale: map<Key, nat>
    const targeted: bool
    const self: nat

    constructor (targeted: bool, self: nat)
      ensures prev == map[] && stale == map[] && this.targeted == targeted && this.self == self
    {
      this.targeted, this.self := targeted, self;
      prev, stale := map[], map[];
    }

    /** One key of the poll: drop it, note that it is idle, or fold it into its group. */
    method Visit(w: Window, k: Key, cur: map<Key, Stat>, groups: map<GroupKey, Aggregate>)
      returns (cur': map<Key, Stat>, groups': map<GroupKey, Aggregate>)
      requires SlotsOk(groups) && w.Fits()
      modifies `stale
      ensures SlotsOk(groups') && groups' == if w.Active(k) then Joined(groups, w, k) else groups
      ensures cur' == if Deleted(w, old(stale), k) then cur - {k} else cur
      ensures forall j :: Lookup(stale, j) == if j == k then StaleAfter(w, old(stale), k) else Lookup(old(stale), j)
    {
      cur', groups' := cur, groups;
      if w.Excluded(k) {
        cur', stale := cur - {k}, stale - {k};
      } else if !w.Active(k) {
        if (k.tgid, k.tid) !in w.running {
          stale := stale[k := (if k in stale then stale[k] else 0) + 1];
          if stale[k] >= STALE_WINDOWS_BEFORE_DELETE {
            cur', stale := cur - {k}, stale - {k};
          }
        } else {
          stale := stale - {k};
        }
      } else {
        stale := stale - {k};
        groups' := AddKey(groups, w, k);
      }
    }

    method Step(w: Window, ghost stale0: map<Key, nat>, k: Key, cur: map<Key, Stat>, groups: map<GroupKey,
            Aggregate>, ghost todo: set<Key>)
      returns (cur': map<Key, Stat>, groups': map<GroupKey, Aggregate>)
      requires Polling(w, stale0, stale, cur, groups, todo) && w.Fits() && k in todo
      modifies `stale
      ensures Polling(w, stale0, stale, cur', groups', todo - {k})
    {
      ghost var stale1 := stale;
      assert Lookup(stale1, k) == Lookup(stale0, k);
      cur', groups' := Visit(w, k, cur, groups);
      SweptStep(w, stale0, stale1, cur, todo, k, stale, cur');
      PollingStep(w, stale0, stale1, cur, groups, todo, k, stale, cur', groups');
    }

    /** Every measure of every group is the sum over the group's active keys of what they added since the
        previous poll; the stack and waker shown are those of a longest one, and a thread's longest wait
        is the longest of its keys; the next poll starts from what was read, without the keys that were
        deleted. */
    method Poll(cur0: map<Key, Stat>, wakers: map<Key, nat>, members: set<nat>, running: set<(nat, nat)>)
      returns (groups: map<GroupKey, Aggregate>)
      requires Window(cur0, wakers, prev, targeted, self, members, running).Fits()
      modifies this
      ensures var w := Window(cur0, wakers, old(prev), targeted, self, members, running);
        && Grouped(w, groups, {})
        && Swept(w, old(stale), stale, prev, {})
    {
      ghost var stale0 := stale;
      var w := Window(cur0, wakers, prev, targeted, self, members, running);
      var cur := cur0;
      groups := map[];
      var todo := cur0.Keys;
      PollingStarts(w, stale);
      while todo != {}
        invariant Polling(w, stale0, stale, cur, groups, todo) && prev == w.prev
        decreases |todo|
      {
        var k :| k in todo;
        cur, groups := Step(w, stale0, k, cur, groups, todo);
        todo := todo - {k};
      }
      assert ActiveKeys(w) * {} == {};
      prev := cur;
    }
  }

  /** The slots of the group and of the key. */
  method AddSlots(before: seq<nat>, w: Window, k: Key) returns (slots: seq<nat>, waiterSlots: seq<nat>)
    requires |before| == LOCK_SLOTS && w.Slotted(k)
    ensures waiterSlots == w.Deltas(k)
    ensures slots == seq(LOCK_SLOTS, i requires 0 <= i < LOCK_SLOTS => before[i] + w.Deltas(k)[i])
  {
    var value, previous := w.Now(k), w.Before(k);
    slots, waiterSlots := before, [];
    for i := 0 to LOCK_SLOTS
      invariant |slots| == LOCK_SLOTS && waiterSlots == w.Deltas(k)[..i]
      invariant forall j :: i <= j < LOCK_SLOTS ==> slots[j] == before[j]
      invariant forall j :: 0 <= j < i ==> slots[j] == before[j] + w.Deltas(k)[j]
    {
      var delta := Saturating(value.slots[i], previous.slots[i]);
      waiterSlots := waiterSlots + [delta];
      slots := slots[i := slots[i] + delta];
    }
  }

  /** Fold one active key into its group. */
  method AddKey(groups: map<GroupKey, Aggregate>, w: Window, k: Key) returns (groups': map<GroupKey, Aggregate>)
    requires SlotsOk(groups) && w.Slotted(k)
    ensures groups' == Joined(groups, w, k) && SlotsOk(groups')
  {
    var g := GroupOf(k);
    var agg := if g in groups then groups[g] else Start(k);
    ghost var before := agg;
    var value, previous := w.Now(k), w.Before(k);
    var dNs, dCount := Saturating(value.ns, previous.ns), Saturating(value.count, previous.count);
    var slots, waiterSlots := AddSlots(agg.slots, w, k);
    var maximum := MaxFromSlots(waiterSlots);
    var waiter := WaiterOf(agg, k.tid);
    agg := agg.(ns := agg.ns + dNs, count := agg.count + dCount, slots := slots,
                waiters := agg.waiters[k.tid := Waiter(waiter.ns + dNs, waiter.count + dCount,
                                                       if maximum > waiter.maxNs then maximum else waiter.maxNs)]);
    if dNs > agg.top {
      agg := agg.(top := dNs, stack := k.stack, op := k.op, waker := w.Waker(k));
    }
    assert agg == Join(before, w, k);
    groups' := groups[g := agg];
    SlotsStep(w, groups, k);
  }
}
