/** Which processes belong to a directed session: the live tree below the root, the ids that left it
    within the last three refreshes, and the ids the BPF programs admitted. Every id is bound to one
    process instance by its start time, so that a reused number does not inherit the membership. */
module TargetMembers {
  import opened Common
  import opened FiniteSums
  import opened TargetIdentity
  import opened TargetTree

  const NO_ROOT := 0xFFFF_FFFF

  datatype Observed = Observed(remaining: nat, bpfStart: U64, procStart: U64)

  datatype Members = Members(
    root: nat, rootStart: U64, initialized: bool, rootAlive: bool,
    active: set<nat>, activeStarts: map<nat, U64>,
    retired: map<nat, nat>, retiredStarts: map<nat, U64>,
    observed: map<nat, Observed>)

  /** What one refresh reads from /proc: the parent of every process, and start times, each read at
      its own moment. An id missing from a map could not be read. */
  datatype Proc = Proc(
    snap: map<nat, nat>, rootRead: Option<U64>,
    memberReads: map<nat, U64>, retiredReads: map<nat, U64>, observedReads: map<nat, U64>)

  function New(root: nat): Members {
    Members(root, 0, false, false, {}, map[], map[], map[], map[])
  }

  function Restrict<V>(m: map<nat, V>, keep: set<nat>): map<nat, V> {
    map k | k in m && k in keep :: m[k]
  }

  // ------------------------------------------------------------------ refresh

  predicate Alive(t: Members, p: Proc) {
    t.initialized && p.rootRead == Some(t.rootStart)
  }

  /** The processes at or below the root. */
  ghost function Tree(root: nat, snap: map<nat, nat>): set<nat> {
    set pid | pid in snap.Keys + {root} && Descends(snap, root, pid)
  }

  /** The members a refresh finds in the tree, with their start times. */
  ghost function Fresh(t: Members, p: Proc): set<nat> {
    if Alive(t, p) && t.root in p.snap then Tree(t.root, p.snap) * p.memberReads.Keys else {}
  }

  /** `advanceTargetMembership`: members that left get three refreshes of grace, the rest one less. */
  function Advance(active: set<nat>, retired: map<nat, nat>, found: set<nat>): map<nat, nat> {
    map id | id in retired.Keys + active && id !in found && (id in active || retired[id] > 1) ::
      if id in active then STALE_WINDOWS_BEFORE_DELETE else retired[id] - 1
  }

  /** The start times of the retired ids: of the instance that was last active. */
  function Rebind(active: set<nat>, activeStarts: map<nat, U64>, retiredStarts: map<nat, U64>, retired: map<nat,
          nat>): map<nat, U64> {
    map id | id in retired && (id in active || id in retiredStarts) ::
      if id !in active then retiredStarts[id] else if id in activeStarts then activeStarts[id] else 0
  }

  /** The number still means the retired process, as far as /proc tells. */
  predicate SameInstance(starts: map<nat, U64>, seen: map<nat, U64>, id: nat) {
    id in starts && starts[id] != 0 && (id in seen ==> seen[id] == starts[id])
  }

  function KeptRetired(ids: set<nat>, starts: map<nat, U64>, seen: map<nat, U64>): set<nat> {
    set id | id in ids && SameInstance(starts, seen, id)
  }

  predicate ObservedHolds(o: Observed, read: Option<U64>) {
    read.Some? ==> ProcStartMatches(read.value, o.bpfStart) && (o.procStart != 0 ==> read.value == o.procStart)
  }

  function Bound(o: Observed, read: Option<U64>): Observed {
    if read.Some? then o.(procStart := read.value) else o
  }

  function AgeObserved(observed: map<nat, Observed>, active: set<nat>, seen: map<nat, U64>): map<nat, Observed> {
    map id | id in observed && id !in active && ObservedHolds(observed[id], Lookup(seen, id)) &&
        observed[id].remaining > 1 ::
      Bound(observed[id], Lookup(seen, id)).(remaining := observed[id].remaining - 1)
  }

  /** The root id is dropped at once when its instance is gone. */
  function Dropped(t: Members, p: Proc): set<nat> {
    if Alive(t, p) then {} else {t.root}
  }

  /** `targetTracker.refresh` */
  ghost function AfterRefresh(t: Members, p: Proc): Members {
    if t.root == 0 then t else Regrouped(t, p, Fresh(t, p))
  }

  /** The new membership, given the members found in the tree. */
  function Regrouped(t: Members, p: Proc, found: set<nat>): Members {
    var retired := Advance(t.active, t.retired, found);
    var starts := Rebind(t.active, t.activeStarts, t.retiredStarts, retired);
    var kept := KeptRetired(retired.Keys, starts, p.retiredReads) - Dropped(t, p);
    t.(rootAlive := Alive(t, p),
       active := found, activeStarts := Restrict(p.memberReads, found),
       retired := Restrict(retired, kept), retiredStarts := Restrict(starts, kept),
       observed := AgeObserved(t.observed - Dropped(t, p), found, p.observedReads))
  }

  // ------------------------------------------------------------------ observation and lookup

  /** `targetTracker.observeTGID`, with the start time it reads for the process. */
  function AfterObserve(t: Members, id: nat, bpfStart: U64, read: Option<U64>): Members {
    if t.root == 0 || id == 0 || bpfStart == 0 || (id == t.root && !t.rootAlive) || id in t.active then t else
      var known := if id in t.observed && t.observed[id].bpfStart == bpfStart then t.observed[id].procStart else 0;
      var o := Observed(STALE_WINDOWS_BEFORE_DELETE, bpfStart, known);
      if ObservedHolds(o, read) then t.(observed := t.observed[id := Bound(o, read)]) else t
  }

  /** `targetTracker.containsTGID` */
  predicate Contains(t: Members, pid: nat, read: Option<U64>) {
    t.root == 0
    || (pid != 0
        && (pid in t.active
            || if pid in t.observed then
                 (read.Some? ==>
                    t.observed[pid].procStart != 0 && read.value == t.observed[pid].procStart
                    && ProcStartMatches(read.value, t.observed[pid].bpfStart))
               else
                 pid in t.retired && pid in t.retiredStarts && t.retiredStarts[pid] != 0
                 && (read.Some? ==> read.value == t.retiredStarts[pid])))
  }

  function SeedIds(t: Members, seen: map<nat, U64>): set<nat> {
    if t.root == 0 then {} else
      t.active + (set pid | pid in t.retired.Keys + t.observed.Keys && Contains(t, pid, Lookup(seen, pid)))
  }

  function RetiredSeed(starts: map<nat, U64>, pid: nat): U64 {
    EncodeSeed(if pid in starts then starts[pid] else 0)
  }

  /** `targetTracker.targetTGIDSeeds` */
  function Seeds(t: Members, seen: map<nat, U64>): map<nat, U64> {
    map pid | pid in SeedIds(t, seen) ::
      if pid in t.active then EncodeSeed(if pid in t.activeStarts then t.activeStarts[pid] else 0)
      else if pid in t.retired then RetiredSeed(t.retiredStarts, pid)
      else t.observed[pid].bpfStart
  }

  /** `targetTracker.bpfFilterRoot` */
  function FilterRoot(t: Members): nat {
    if t.root == 0 then 0 else if t.rootAlive then t.root else NO_ROOT
  }

  // ------------------------------------------------------------------ runs

  datatype Event = Refreshed(p: Proc) | Observing(id: nat, bpfStart: U64, read: Option<U64>)

  ghost function Step(t: Members, e: Event): Members {
    match e
    case Refreshed(p) => AfterRefresh(t, p)
    case Observing(id, bpfStart, read) => AfterObserve(t, id, bpfStart, read)
  }

  ghost function Run(t: Members, evs: seq<Event>): Members {
    if evs == [] then t else Step(Run(t, evs[..|evs| - 1]), evs[|evs| - 1])
  }

  /** Steps never change whom the tracker was made for. */
  lemma {:induction false} RunKeepsTarget(t: Members, evs: seq<Event>)
    ensures Run(t, evs).root == t.root && Run(t, evs).rootStart == t.rootStart
    ensures Run(t, evs).initialized == t.initialized
    decreases |evs|
  {
    if evs != [] { RunKeepsTarget(t, evs[..|evs| - 1]); }
  }

  // ------------------------------------------------------------------ well-formedness

  ghost predicate RetiredForm(t: Members) {
    && t.active !! t.retired.Keys && t.activeStarts.Keys == t.active && t.retiredStarts.Keys == t.retired.Keys
    && (forall id :: id in t.retired ==> 1 <= t.retired[id] <= STALE_WINDOWS_BEFORE_DELETE && t.retiredStarts[id] != 0)
  }

  /** A start time bound to an observed id is that of the process the BPF side saw. */
  predicate Identified(o: Observed) {
    o.bpfStart != 0 && (o.procStart != 0 ==> ProcStartMatches(o.procStart, o.bpfStart))
  }

  ghost predicate ObservedForm(t: Members) {
    && t.active !! t.observed.Keys
    && (forall id :: id in t.observed ==>
        id != 0 && 1 <= t.observed[id].remaining <= STALE_WINDOWS_BEFORE_DELETE && Identified(t.observed[id]))
  }

  ghost predicate RootForm(t: Members) {
    !t.rootAlive ==> t.root !in t.active && t.root !in t.retired && t.root !in t.observed
  }

  ghost predicate WellFormed(t: Members) {
    RetiredForm(t) && ObservedForm(t) && RootForm(t)
  }

  /** What a refresh leaves of the retired ids. */
  lemma RetiredAfter(t: Members, p: Proc, id: nat)
    requires t.root != 0 && RetiredForm(t)
    ensures var start :=
        if id in t.activeStarts then t.activeStarts[id] else if id in t.retired then t.retiredStarts[id] else 0;
      && (id in AfterRefresh(t, p).retired <==>
            && id !in Fresh(t, p) && (id in t.active || (id in t.retired && t.retired[id] > 1))
            && start != 0 && (id in p.retiredReads ==> p.retiredReads[id] == start) && (id == t.root ==> Alive(t, p)))
      && (id in AfterRefresh(t, p).retired ==>
            && AfterRefresh(t, p).retired[id]
               == (if id in t.active then STALE_WINDOWS_BEFORE_DELETE else t.retired[id] - 1)
            && Lookup(AfterRefresh(t, p).retiredStarts, id) == Some(start))
  {
  }

  lemma ObservedAfter(t: Members, p: Proc, id: nat)
    requires t.root != 0 && ObservedForm(t) && id in AfterRefresh(t, p).observed
    ensures id !in Fresh(t, p) && (id == t.root ==> Alive(t, p))
    ensures id != 0 && 1 <= AfterRefresh(t, p).observed[id].remaining <= STALE_WINDOWS_BEFORE_DELETE &&
        Identified(AfterRefresh(t, p).observed[id])
  {
  }

  lemma RefreshKeepsRetired(t: Members, p: Proc)
    requires t.root != 0 && RetiredForm(t)
    ensures RetiredForm(AfterRefresh(t, p))
  {
    var t' := AfterRefresh(t, p);
    assert t'.active == Fresh(t, p);
    forall id ensures id in t'.retired ==>
        id !in t'.active && 1 <= t'.retired[id] <= STALE_WINDOWS_BEFORE_DELETE &&
        id in t'.retiredStarts && t'.retiredStarts[id] != 0 {
      RetiredAfter(t, p, id);
    }
  }

  lemma RefreshKeepsObserved(t: Members, p: Proc)
    requires t.root != 0 && ObservedForm(t)
    ensures ObservedForm(AfterRefresh(t, p))
  {
    var t' := AfterRefresh(t, p);
    assert t'.active == Fresh(t, p);
    forall id | id in t'.observed ensures id !in t'.active && id != 0 &&
        1 <= t'.observed[id].remaining <= STALE_WINDOWS_BEFORE_DELETE && Identified(t'.observed[id]) {
      ObservedAfter(t, p, id);
    }
  }

  lemma RefreshKeepsForm(t: Members, p: Proc)
    requires WellFormed(t)
    ensures WellFormed(AfterRefresh(t, p))
  {
    if t.root != 0 {
      RefreshKeepsRetired(t, p);
      RefreshKeepsObserved(t, p);
      if !Alive(t, p) { RefreshDropsRoot(t, p); }
    }
  }

  lemma ObserveKeepsForm(t: Members, id: nat, bpfStart: U64, read: Option<U64>)
    requires WellFormed(t)
    ensures WellFormed(AfterObserve(t, id, bpfStart, read))
  {
  }

  /** Over every run the three memberships are disjoint from the tree, every retired id is bound to a
      start time, counts stay within the grace, and a lost root is in none of them. */
  lemma {:induction false} EveryRunWellFormed(t: Members, evs: seq<Event>)
    requires WellFormed(t)
    ensures WellFormed(Run(t, evs))
    decreases |evs|
  {
    if evs != [] {
      var before := evs[..|evs| - 1];
      EveryRunWellFormed(t, before);
      match evs[|evs| - 1]
      case Refreshed(p) => RefreshKeepsForm(Run(t, before), p);
      case Observing(id, bpfStart, read) => ObserveKeepsForm(Run(t, before), id, bpfStart, read);
    }
  }

  // ------------------------------------------------------------------ a lost root stays lost

  /** No refresh finds the root instance: its start time cannot be read or is another one. */
  ghost predicate RootGone(t: Members, evs: seq<Event>) {
    forall i :: 0 <= i < |evs| && evs[i].Refreshed? ==> !Alive(t, evs[i].p)
  }

  /** Nothing admits the root id, whoever has it now. */
  ghost predicate RootRefused(t: Members) {
    && t.root !in t.active && t.root !in t.retired && t.root !in t.observed
    && (forall read :: !Contains(t, t.root, read))
    && (forall seen :: t.root !in Seeds(t, seen))
    && FilterRoot(t) == NO_ROOT
  }

  /** From the first refresh that misses the root instance, for every later sequence of refreshes and
      observations that never sees it again, the root id is refused everywhere, whatever state the
      tracker was in before. */
  lemma {:induction false} LostRootIsRefused(t: Members, evs: seq<Event>)
    requires t.root != 0
    requires evs != [] && evs[0].Refreshed? && RootGone(t, evs)
    ensures !Run(t, evs).rootAlive && RootRefused(Run(t, evs))
    decreases |evs|
  {
    var n := |evs| - 1;
    if n > 0 {
      assert evs[..n][0] == evs[0];
      LostRootIsRefused(t, evs[..n]);
    }
    RunKeepsTarget(t, evs[..n]);
    LostRootStep(Run(t, evs[..n]), evs[n]);
  }

  lemma LostRootStep(t: Members, e: Event)
    requires t.root != 0
    requires if e.Refreshed? then !Alive(t, e.p) else !t.rootAlive && RootRefused(t)
    ensures !Step(t, e).rootAlive && RootRefused(Step(t, e))
  {
    if e.Refreshed? { RefreshDropsRoot(t, e.p); }
    Refused(Step(t, e));
  }

  lemma RefreshDropsRoot(t: Members, p: Proc)
    requires t.root != 0 && !Alive(t, p)
    ensures !AfterRefresh(t, p).rootAlive
    ensures t.root !in AfterRefresh(t, p).active && t.root !in AfterRefresh(t, p).retired &&
        t.root !in AfterRefresh(t, p).observed
  {
  }

  lemma Refused(t: Members)
    requires t.root != 0 && !t.rootAlive
    requires t.root !in t.active && t.root !in t.retired && t.root !in t.observed
    ensures RootRefused(t)
  {
  }

  // ------------------------------------------------------------------ what the history says

  /** What the refreshes alone say about an id: how many there were since it was last in the tree, the
      start time read then, and whether its drain grace has been forfeited. */
  datatype Past = Never | Left(age: nat, start: U64, forfeited: bool)

  ghost function Next(t: Members, past: Past, p: Proc, id: nat): Past {
    if id in Fresh(t, p) then Left(0, p.memberReads[id], false)
    else if past.Never? then Never
    else Left(past.age + 1, past.start,
              past.forfeited || past.start == 0 || past.age + 1 > STALE_WINDOWS_BEFORE_DELETE
              || (id in p.retiredReads && p.retiredReads[id] != past.start)
              || (id == t.root && !Alive(t, p)))
  }

  /** Folded over the refreshes of a run, without looking at any membership. */
  ghost function History(t: Members, evs: seq<Event>, id: nat): Past {
    if evs == [] then Never else
      var past := History(t, evs[..|evs| - 1], id);
      var e := evs[|evs| - 1];
      if e.Refreshed? then Next(t, past, e.p, id) else past
  }

  /** Membership of `id` is what its history says. */
  ghost predicate Tells(t: Members, past: Past, id: nat) {
    && (id in t.active <==> past.Left? && past.age == 0)
    && (id in t.active ==> !past.forfeited)
    && (id in t.active ==> Lookup(t.activeStarts, id) == Some(past.start))
    && (id in t.retired <==> past.Left? && past.age > 0 && !past.forfeited)
    && (id in t.retired ==>
        past.age <= STALE_WINDOWS_BEFORE_DELETE &&
        t.retired[id] == STALE_WINDOWS_BEFORE_DELETE + 1 - past.age && Lookup(t.retiredStarts, id) == Some(past.start))
  }

  lemma RefreshTells(t: Members, p: Proc, past: Past, id: nat)
    requires t.root != 0 && WellFormed(t) && Tells(t, past, id)
    ensures Tells(AfterRefresh(t, p), Next(t, past, p, id), id)
  {
    RetiredAfter(t, p, id);
    if id in t.retired { assert id !in t.active; }
  }

  /** After any run an id is active exactly when the last refresh found it, and retired exactly during
      the three refreshes after it left, unless it came back, its number was seen on another process,
      or it was the lost root; the grace left and the bound start time are those of that history. */
  lemma {:induction false} MembershipIsHistory(t: Members, evs: seq<Event>, id: nat)
    requires t.root != 0 && t.active == {} && t.retired == map[] && WellFormed(t)
    ensures Tells(Run(t, evs), History(t, evs, id), id)
    decreases |evs|
  {
    if evs != [] {
      var before := evs[..|evs| - 1];
      MembershipIsHistory(t, before, id);
      RunKeepsTarget(t, before);
      EveryRunWellFormed(t, before);
      var now := Run(t, before);
      if evs[|evs| - 1].Refreshed? {
        var p := evs[|evs| - 1].p;
        RefreshTells(now, p, History(t, before, id), id);
        assert Fresh(now, p) == Fresh(t, p) && Alive(now, p) == Alive(t, p);
      }
    }
  }

  // ------------------------------------------------------------------ observed ids

  function Refreshes(evs: seq<Event>): nat {
    if evs == [] then 0 else Refreshes(evs[..|evs| - 1]) + if evs[|evs| - 1].Refreshed? then 1 else 0
  }

  /** The last start time read for `id` in the observation phase, or the one bound before. */
  ghost function LastRead(start: U64, evs: seq<Event>, id: nat): U64 {
    if evs == [] then start else
      var e := evs[|evs| - 1];
      if e.Refreshed? && id in e.p.observedReads then e.p.observedReads[id]
      else LastRead(start, evs[..|evs| - 1], id)
  }

  /** Through all these refreshes `id` stayed outside the tree, its root was not lost, and every start
      time read for it fits the one the BPF side saw and the one bound before. */
  ghost predicate Unbroken(t: Members, o: Observed, evs: seq<Event>, id: nat) {
    evs == [] || (
      var before := evs[..|evs| - 1];
      var e := evs[|evs| - 1];
      && Unbroken(t, o, before, id)
      && (e.Refreshed? ==>
            && id !in Fresh(t, e.p) && (id == t.root ==> Alive(t, e.p))
            && ObservedHolds(o.(procStart := LastRead(o.procStart, before, id)), Lookup(e.p.observedReads, id))))
  }

  ghost predicate NotObserved(evs: seq<Event>, id: nat) {
    forall i :: 0 <= i < |evs| && evs[i].Observing? ==> evs[i].id != id
  }

  /** An observed id that is not observed again drains with the refreshes: it is still admitted exactly
      while fewer than its remaining count have passed and its identity is unbroken. */
  lemma {:induction false} ObservedDrains(t: Members, evs: seq<Event>, id: nat)
    requires t.root != 0 && id in t.observed && t.observed[id].remaining > 0
    requires NotObserved(evs, id)
    ensures id in Run(t, evs).observed <==>
            Refreshes(evs) < t.observed[id].remaining && Unbroken(t, t.observed[id], evs, id)
    ensures id in Run(t, evs).observed ==>
            Run(t, evs).observed[id] == Observed(t.observed[id].remaining - Refreshes(evs), t.observed[id].bpfStart,
                                                 LastRead(t.observed[id].procStart, evs, id))
    decreases |evs|
  {
    if evs != [] {
      var before := evs[..|evs| - 1];
      var e := evs[|evs| - 1];
      ObservedDrains(t, before, id);
      RunKeepsTarget(t, before);
      var now := Run(t, before);
      if e.Refreshed? {
        assert Fresh(now, e.p) == Fresh(t, e.p) && Alive(now, e.p) == Alive(t, e.p);
      } else {
        assert evs[|evs| - 1].id != id;
      }
    }
  }

  // ------------------------------------------------------------------ which process is admitted

  /** Outside the tree and not observed, an id is accepted exactly within the grace of the instance
      that was last in the tree, and only while its number is free or still names that instance. */
  lemma AcceptedIsSameInstance(t: Members, evs: seq<Event>, id: nat, read: Option<U64>)
    requires t.root != 0 && t.active == {} && t.retired == map[] && WellFormed(t)
    requires id !in Run(t, evs).active && id !in Run(t, evs).observed
    ensures var past := History(t, evs, id);
      Contains(Run(t, evs), id, read) <==>
      id != 0 && past.Left? && past.age > 0 && !past.forfeited && (read == None || read == Some(past.start))
  {
    MembershipIsHistory(t, evs, id);
    EveryRunWellFormed(t, evs);
    RunKeepsTarget(t, evs);
  }

  /** While it drains, an observed id is accepted for one process only: the one whose start time was
      last read for it, which is the one bound before if there was one, and which started within a tick
      of what the BPF side saw. Before any start time was read nothing but a vanished process passes. */
  lemma ObservedAccepts(t: Members, evs: seq<Event>, id: nat, read: Option<U64>)
    requires WellFormed(t) && t.root != 0 && id in t.observed && NotObserved(evs, id)
    requires Refreshes(evs) < t.observed[id].remaining && Unbroken(t, t.observed[id], evs, id)
    ensures var o, start := t.observed[id], LastRead(t.observed[id].procStart, evs, id);
      && (Contains(Run(t, evs), id, read) <==> read == None || (start != 0 && read == Some(start)))
      && (start != 0 ==> ProcStartMatches(start, o.bpfStart))
      && (o.procStart != 0 ==> start == o.procStart)
  {
    ObservedDrains(t, evs, id);
    EveryRunWellFormed(t, evs);
    RunKeepsTarget(t, evs);
    BoundOnce(t, t.observed[id], evs, id);
  }

  /** Once bound to a start time, an unbroken identity keeps it. */
  lemma {:induction false} BoundOnce(t: Members, o: Observed, evs: seq<Event>, id: nat)
    requires Unbroken(t, o, evs, id)
    ensures o.procStart != 0 ==> LastRead(o.procStart, evs, id) == o.procStart
    decreases |evs|
  {
    if evs != [] { BoundOnce(t, o, evs[..|evs| - 1], id); }
  }

  // ------------------------------------------------------------------ what an observation grants

  /** The start time already bound to this very process. */
  function StartBound(t: Members, id: nat, bpfStart: U64): U64 {
    if id in t.observed && t.observed[id].bpfStart == bpfStart then t.observed[id].procStart else 0
  }

  /** The observation counts: of a process outside the tree that is not the lost root, and whose start
      time, if it can be read, fits what the BPF side saw and what was bound before. */
  predicate Admissible(t: Members, id: nat, bpfStart: U64, read: Option<U64>) {
    && id != 0 && bpfStart != 0 && id !in t.active && (id == t.root ==> t.rootAlive)
    && (read.Some? ==>
          ProcStartMatches(read.value, bpfStart) && StartBound(t, id, bpfStart) in {0, read.value})
  }

  /** An observation grants three refreshes of grace, counted from it, however much of an earlier grace was
      left: an id that stays outside the tree and is not observed again is in the observed set exactly
      while fewer than three refreshes have passed and its identity is unbroken, and is accepted for the
      process that it was observed for. Read again for the same process without an answer from /proc,
      the start time bound before stays bound. An observation that does not count changes nothing. */
  lemma ObservationGrants(t: Members, id: nat, bpfStart: U64, read: Option<U64>, evs: seq<Event>, later: Option<U64>)
    requires WellFormed(t) && t.root != 0 && NotObserved(evs, id)
    ensures !Admissible(t, id, bpfStart, read) ==>
      Run(t, [Observing(id, bpfStart, read)] + evs) == Run(t, evs)
    ensures Admissible(t, id, bpfStart, read) ==>
      var t' := Run(t, [Observing(id, bpfStart, read)] + evs);
      var start := if read.Some? then read.value else StartBound(t, id, bpfStart);
      var kept := Refreshes(evs) < 3 && Unbroken(t, Observed(3, bpfStart, start), evs, id);
      && (id in t'.observed <==> kept)
      && (kept ==>
            t'.observed[id] == Observed(3 - Refreshes(evs), bpfStart, LastRead(start, evs, id))
            && (Contains(t', id, later) <==>
                later == None || (LastRead(start, evs, id) != 0 && later == Some(LastRead(start, evs, id)))))
  {
    var e := Observing(id, bpfStart, read);
    var t1 := AfterObserve(t, id, bpfStart, read);
    assert [e][..0] == [] && Run(t, [e]) == t1;
    RunFrom(t, [e], evs);
    if Admissible(t, id, bpfStart, read) {
      Granted(t, id, bpfStart, read);
      ObserveKeepsForm(t, id, bpfStart, read);
      ObservedDrains(t1, evs, id);
      SameUnbroken(t, t1, t1.observed[id], Observed(3, bpfStart, t1.observed[id].procStart), evs, id);
      if Refreshes(evs) < 3 && Unbroken(t1, t1.observed[id], evs, id) { ObservedAccepts(t1, evs, id, later); }
    }
  }

  lemma Granted(t: Members, id: nat, bpfStart: U64, read: Option<U64>)
    requires t.root != 0 && Admissible(t, id, bpfStart, read)
    ensures var t1 := AfterObserve(t, id, bpfStart, read);
      && t1.root == t.root && t1.rootStart == t.rootStart && t1.initialized == t.initialized
      && id in t1.observed
      && t1.observed[id] == Observed(3, bpfStart, if read.Some? then read.value else StartBound(t, id, bpfStart))
  {
  }

  /** Whether an identity is broken depends on whom the tracker was made for and on the two starts alone. */
  lemma {:induction false} SameUnbroken(t: Members, t1: Members, o: Observed, o1: Observed, evs: seq<Event>, id: nat)
    requires t.root == t1.root && t.rootStart == t1.rootStart && t.initialized == t1.initialized
    requires o.bpfStart == o1.bpfStart && o.procStart == o1.procStart
    ensures Unbroken(t, o, evs, id) == Unbroken(t1, o1, evs, id)
    decreases |evs|
  {
    if evs != [] {
      var e := evs[|evs| - 1];
      SameUnbroken(t, t1, o, o1, evs[..|evs| - 1], id);
      if e.Refreshed? { assert Fresh(t, e.p) == Fresh(t1, e.p) && Alive(t, e.p) == Alive(t1, e.p); }
    }
  }

  /** The start time a seed is made from: of the member in the tree, else of the retired instance. */
  function HeldStart(t: Members, pid: nat): U64
    requires pid in t.active ==> pid in t.activeStarts
    requires pid !in t.active ==> pid in t.retiredStarts
  {
    if pid in t.active then t.activeStarts[pid] else t.retiredStarts[pid]
  }

  /** Whether a seed names the process that has the number now. An id that is only observed gets the
      exact identity of that process; an id that is only retired gets its start time. In the tree, or
      retired and observed at once, the seed names it exactly when the start time held is still its own. */
  lemma SeedNamesProcess(t: Members, seen: map<nat, U64>, pid: nat)
    requires WellFormed(t) && pid in Seeds(t, seen) && pid in seen
    ensures pid !in t.active && pid !in t.retired ==>
      Seeds(t, seen)[pid] == t.observed[pid].bpfStart && ProcStartMatches(seen[pid], Seeds(t, seen)[pid])
    ensures pid in t.retired && pid !in t.observed ==> Seeds(t, seen)[pid] == EncodeSeed(seen[pid])
    ensures pid in t.active || pid in t.retired ==>
      (Seeds(t, seen)[pid] == EncodeSeed(seen[pid]) <==> Masked(HeldStart(t, pid)) == Masked(seen[pid]))
  {
  }

  /** A process leaves the tree, and before its grace is over its number goes to a process that the BPF
      side observes: the id is accepted for the new process, but the seed pushed to the kernel is made
      from the start time of the old one, and the new process passes it only if it started within a tick
      of that. */
  lemma SeedAfterObservedReuse(t: Members, p: Proc, id: nat, bpfStart: U64, read: U64)
    requires WellFormed(t) && t.root != 0 && id != 0 && id != t.root
    requires id in t.active && t.activeStarts[id] != 0 && id !in Fresh(t, p)
    requires id in p.retiredReads ==> p.retiredReads[id] == t.activeStarts[id]
    requires bpfStart != 0 && read != 0 && ProcStartMatches(read, bpfStart)
    ensures var t' := AfterObserve(AfterRefresh(t, p), id, bpfStart, Some(read));
      && Contains(t', id, Some(read))
      && id in Seeds(t', map[id := read]) && Seeds(t', map[id := read])[id] == EncodeSeed(t.activeStarts[id])
      && (BpfMatches(EncodeSeed(t.activeStarts[id]), bpfStart) <==>
          WithinOneTick(Masked(t.activeStarts[id]), bpfStart / 10_000_000))
  {
    Retires(t, p, id);
    RefreshKeepsForm(t, p);
    ObservedWhileRetired(AfterRefresh(t, p), id, bpfStart, read);
    SeedPasses(t.activeStarts[id], bpfStart);
  }

  lemma SeedPasses(start: U64, identity: U64)
    requires identity != 0
    ensures BpfMatches(EncodeSeed(start), identity) <==> WithinOneTick(Masked(start), identity / 10_000_000)
  {
    assert Masked(EncodeSeed(start)) == Masked(start);
  }

  lemma RunTwo(t: Members, e: Event, f: Event)
    ensures Run(t, [e]) == Step(t, e) && Run(t, [e, f]) == Step(Step(t, e), f)
  {
    assert [e][..0] == [] && [e, f][..1] == [e];
  }

  lemma Retires(t: Members, p: Proc, id: nat)
    requires WellFormed(t) && t.root != 0 && id != t.root
    requires id in t.active && t.activeStarts[id] != 0 && id !in Fresh(t, p)
    requires id in p.retiredReads ==> p.retiredReads[id] == t.activeStarts[id]
    ensures AfterRefresh(t, p).root == t.root
    ensures id in AfterRefresh(t, p).retired && id in AfterRefresh(t, p).retiredStarts
    ensures AfterRefresh(t, p).retiredStarts[id] == t.activeStarts[id]
    ensures id !in AfterRefresh(t, p).active && id !in AfterRefresh(t, p).observed
  {
    RetiredAfter(t, p, id);
  }

  lemma ObservedWhileRetired(t: Members, id: nat, bpfStart: U64, read: U64)
    requires WellFormed(t) && t.root != 0 && id != 0 && id != t.root
    requires id in t.retired && id !in t.active && id !in t.observed
    requires bpfStart != 0 && read != 0 && ProcStartMatches(read, bpfStart)
    ensures var t' := AfterObserve(t, id, bpfStart, Some(read));
      && Contains(t', id, Some(read))
      && id in Seeds(t', map[id := read]) && Seeds(t', map[id := read])[id] == EncodeSeed(t.retiredStarts[id])
  {
    var t' := AfterObserve(t, id, bpfStart, Some(read));
    assert t'.observed[id] == Observed(STALE_WINDOWS_BEFORE_DELETE, bpfStart, read);
    assert id in SeedIds(t', map[id := read]);
  }

  /** From every state of every initialised tracker such a run is possible, for any two processes that
      have the same number and start more than a tick apart. */
  lemma StaleSeedForObservedReuse(t: Members, id: nat, was: U64, bpfStart: U64) returns (evs: seq<Event>)
    requires WellFormed(t) && t.root != 0 && t.initialized && id != 0 && id != t.root
    requires was != 0 && bpfStart >= 10_000_000 && !WithinOneTick(Masked(was), bpfStart / 10_000_000)
    ensures var read, t' := bpfStart / 10_000_000, Run(t, evs);
      && Contains(t', id, Some(read)) && id in Seeds(t', map[id := read])
      && !BpfMatches(Seeds(t', map[id := read])[id], bpfStart)
  {
    var read := bpfStart / 10_000_000;
    var there := Proc(map[t.root := 0, id := t.root], Some(t.rootStart), map[id := was], map[], map[]);
    var gone := Proc(map[t.root := 0], Some(t.rootStart), map[t.root := t.rootStart], map[], map[]);
    var rest := [Refreshed(gone), Observing(id, bpfStart, Some(read))];
    Joins(t, there, id, was);
    RefreshKeepsForm(t, there);
    RunTwo(t, Refreshed(there), Refreshed(gone));
    RunTwo(AfterRefresh(t, there), Refreshed(gone), Observing(id, bpfStart, Some(read)));
    TicksAgree(bpfStart);
    SeedAfterObservedReuse(AfterRefresh(t, there), gone, id, bpfStart, read);
    evs := [Refreshed(there)] + rest;
    RunFrom(t, [Refreshed(there)], rest);
  }

  lemma Joins(t: Members, p: Proc, id: nat, was: U64)
    requires t.root != 0 && t.initialized && id != t.root
    requires p.snap == map[t.root := 0, id := t.root] && p.rootRead == Some(t.rootStart)
    requires id in p.memberReads && p.memberReads[id] == was
    ensures id in AfterRefresh(t, p).active && id in AfterRefresh(t, p).activeStarts
    ensures AfterRefresh(t, p).activeStarts[id] == was && AfterRefresh(t, p).root == t.root
  {
    assert Ancestor(p.snap, id, 1) == Some(t.root);
    assert id in Fresh(t, p);
  }

  lemma {:induction false} RunFrom(t: Members, first: seq<Event>, rest: seq<Event>)
    ensures Run(t, first + rest) == Run(Run(t, first), rest)
    decreases |rest|
  {
    if rest == [] {
      assert first + rest == first;
    } else {
      RunFrom(t, first, rest[..|rest| - 1]);
      assert (first + rest)[..|first + rest| - 1] == first + rest[..|rest| - 1];
    }
  }

  /** The refresh reads the root's start time twice. When the number changes hands in between, the new
      process is seeded for that one window; the next refresh sees the other start time and drops it. */
  lemma RootReplacedBetweenReads(t: Members, p: Proc, later: Proc, other: U64)
    requires t.root != 0 && Alive(t, p) && t.root in p.snap
    requires t.root in p.memberReads && p.memberReads[t.root] == other
    requires later.rootRead == Some(other)
    ensures t.root in AfterRefresh(t, p).active && AfterRefresh(t, p).activeStarts[t.root] == other
    ensures other == t.rootStart || RootRefused(AfterRefresh(AfterRefresh(t, p), later))
  {
    assert Ancestor(p.snap, t.root, 0) == Some(t.root);
    if other != t.rootStart {
      RefreshDropsRoot(AfterRefresh(t, p), later);
      Refused(AfterRefresh(AfterRefresh(t, p), later));
    }
  }

  // ------------------------------------------------------------------ the tracker

  method AdvanceTargetMembership(active: set<nat>, retired: map<nat, nat>, found: set<nat>)
    returns (next: map<nat, nat>)
    ensures next == Advance(active, retired, found)
  {
    next := retired;
    var todo := retired.Keys;
    while todo != {}
      invariant todo <= retired.Keys
      invariant forall id :: id in next <==> id in retired && (id in todo || retired[id] > 1)
      invariant forall id :: id in next ==> next[id] == if id in todo then retired[id] else retired[id] - 1
      decreases |todo|
    {
      var id :| id in todo;
      if retired[id] <= 1 {
        next := next - {id};
      } else {
        next := next[id := retired[id] - 1];
      }
      todo := todo - {id};
    }
    ghost var aged := next;
    todo := active;
    while todo != {}
      invariant todo <= active
      invariant forall id :: id in next <==> id in aged || (id in active && id !in todo && id !in found)
      invariant forall id :: id in next ==> next[id] == if id in active && id !in todo &&
          id !in found then STALE_WINDOWS_BEFORE_DELETE else aged[id]
      decreases |todo|
    {
      var id :| id in todo;
      if id !in found {
        next := next[id := STALE_WINDOWS_BEFORE_DELETE];
      }
      todo := todo - {id};
    }
    next := next - found;
  }

  method RebindStarts(active: set<nat>, activeStarts: map<nat, U64>, retiredStarts: map<nat, U64>,
                      retired: map<nat, nat>, found: set<nat>)
    returns (starts: map<nat, U64>)
    requires retired.Keys !! found
    ensures starts == Rebind(active, activeStarts, retiredStarts, retired)
  {
    starts := retiredStarts;
    var todo := active;
    while todo != {}
      invariant todo <= active
      invariant forall id :: id in starts <==> id in retiredStarts || (id in active - todo - found && id in retired)
      invariant forall id :: id in starts ==>
        starts[id] == (if id in active - todo - found &&
            id in retired then (if id in activeStarts then activeStarts[id] else 0) else retiredStarts[id])
      decreases |todo|
    {
      var id :| id in todo;
      if id !in found && id in retired {
        starts := starts[id := if id in activeStarts then activeStarts[id] else 0];
      }
      todo := todo - {id};
    }
    starts := starts - found;
    starts := starts - (starts.Keys - retired.Keys);
  }

  /** Drop the retired ids whose number is unbound or now names another process, and a lost root. */
  method DropReused(retired: map<nat, nat>, starts: map<nat, U64>, seen: map<nat, U64>, rootAlive: bool, root: nat)
    returns (retired': map<nat, nat>, starts': map<nat, U64>)
    requires starts.Keys <= retired.Keys
    ensures var kept := KeptRetired(retired.Keys, starts, seen) - if rootAlive then {} else {root};
      retired' == Restrict(retired, kept) && starts' == Restrict(starts, kept)
  {
    retired', starts' := retired, starts;
    var todo := retired.Keys;
    while todo != {}
      invariant todo <= retired.Keys
      invariant forall id :: id in retired' <==> id in retired && (id in todo || SameInstance(starts, seen, id))
      invariant forall id :: id in starts' <==> id in starts && (id in todo || SameInstance(starts, seen, id))
      invariant forall id :: id in retired' ==> retired'[id] == retired[id]
      invariant forall id :: id in starts' ==> starts'[id] == starts[id]
      decreases |todo|
    {
      var id :| id in todo;
      if id !in starts || starts[id] == 0 {
        retired', starts' := retired' - {id}, starts' - {id};
      } else if id in seen && seen[id] != starts[id] {
        retired', starts' := retired' - {id}, starts' - {id};
      }
      todo := todo - {id};
    }
    if !rootAlive {
      retired', starts' := retired' - {root}, starts' - {root};
    }
  }

  method DrainObserved(observed: map<nat, Observed>, active: set<nat>, seen: map<nat, U64>) returns (left: map<nat,
          Observed>)
    ensures left == AgeObserved(observed, active, seen)
  {
    left := observed;
    var todo := observed.Keys;
    while todo != {}
      invariant todo <= observed.Keys
      invariant forall id :: id in left <==> id in todo || id in AgeObserved(observed, active, seen)
      invariant forall id :: id in left ==>
        left[id] == if id in todo then observed[id] else AgeObserved(observed, active, seen)[id]
      decreases |todo|
    {
      var id :| id in todo;
      var o := left[id];
      var dropped := id in active;
      if !dropped && id in seen {
        dropped := !ProcStartMatches(seen[id], o.bpfStart) || (o.procStart != 0 && seen[id] != o.procStart);
        o := o.(procStart := seen[id]);
      }
      if dropped || o.remaining <= 1 {
        left := left - {id};
      } else {
        left := left[id := o.(remaining := o.remaining - 1)];
      }
      todo := todo - {id};
    }
  }

  /** The processes of the tree whose start time can be read. */
  method ReadStarts(tgids: set<nat>, seen: map<nat, U64>) returns (found: set<nat>, starts: map<nat, U64>)
    ensures found == tgids * seen.Keys && starts == Restrict(seen, found)
  {
    found, starts := tgids, map[];
    var todo := tgids;
    while todo != {}
      invariant todo <= tgids
      invariant forall id :: id in found <==> id in tgids && (id in todo || id in seen)
      invariant forall id :: id in starts <==> id in tgids && id !in todo && id in seen
      invariant forall id :: id in starts ==> starts[id] == seen[id]
      decreases |todo|
    {
      var tgid :| tgid in todo;
      if tgid in seen {
        starts := starts[tgid := seen[tgid]];
      } else {
        found := found - {tgid};
      }
      todo := todo - {tgid};
    }
  }

  class Tracker {
    const root: nat
    var rootStart: U64
    var initialized: bool
    var rootAlive: bool
    var active: set<nat>
    var activeStarts: map<nat, U64>
    var retired: map<nat, nat>
    var retiredStarts: map<nat, U64>
    var observed: map<nat, Observed>

    function View(): Members
      reads this
    {
      Members(root, rootStart, initialized, rootAlive, active, activeStarts, retired, retiredStarts, observed)
    }

    constructor (root: nat)
      ensures View() == New(root)
    {
      this.root := root;
      rootStart, initialized, rootAlive := 0, false, false;
      active, activeStarts, retired, retiredStarts, observed := {}, map[], map[], map[], map[];
    }

    /** Binds the session to one process instance, or fails. */
    method Initialize(start: Option<U64>, p: Proc) returns (ok: bool)
      modifies this
      ensures root != 0 && start.Some? ==>
        View() == AfterRefresh(old(View()).(rootStart := start.value, initialized := true), p)
      ensures root == 0 || start.None? ==> View() == old(View())
      ensures ok <==> root == 0 || (start.Some? && p.rootRead == start && root in p.snap && root in p.memberReads)
    {
      if root == 0 {
        return true;
      }
      if start.None? {
        return false;
      }
      rootStart, initialized := start.value, true;
      Refresh(p);
      assert Ancestor(p.snap, root, 0) == Some(root);
      return root in active;
    }

    method Refresh(p: Proc)
      modifies this
      ensures View() == AfterRefresh(old(View()), p)
    {
      if root == 0 {
        return;
      }
      ghost var before := View();
      var tgids := {};
      rootAlive := initialized && p.rootRead == Some(rootStart);
      if rootAlive && root in p.snap {
        tgids := CollectTargetTGIDs(root, p.snap);
        TreeIsDescends(root, p.snap, tgids);
      }
      var found, starts := ReadStarts(tgids, p.memberReads);
      assert found == Fresh(before, p);
      Regroup(p, found, starts);
    }

    /** The part of a refresh that follows once the members of the tree are known. */
    method Regroup(p: Proc, found: set<nat>, starts: map<nat, U64>)
      requires rootAlive == Alive(View(), p) && starts == Restrict(p.memberReads, found)
      modifies this
      ensures View() == Regrouped(old(View()), p, found)
    {
      var next := AdvanceTargetMembership(active, retired, found);
      var rebound := RebindStarts(active, activeStarts, retiredStarts, next, found);
      active, activeStarts := found, starts;
      retired, retiredStarts := DropReused(next, rebound, p.retiredReads, rootAlive, root);
      DropNone(observed);
      if !rootAlive {
        observed := observed - {root};
      }
      observed := DrainObserved(observed, active, p.observedReads);
    }

    method ObserveTGID(tgid: nat, bpfStart: U64, read: Option<U64>)
      modifies this
      ensures View() == AfterObserve(old(View()), tgid, bpfStart, read)
    {
      if root == 0 || tgid == 0 || bpfStart == 0 {
        return;
      }
      if tgid == root && !rootAlive {
        return;
      }
      if tgid in active {
        return;
      }
      var o := Observed(STALE_WINDOWS_BEFORE_DELETE, bpfStart, 0);
      if tgid in observed && observed[tgid].bpfStart == bpfStart {
        o := o.(procStart := observed[tgid].procStart);
      }
      if read.Some? {
        if !ProcStartMatches(read.value, bpfStart) || (o.procStart != 0 && read.value != o.procStart) {
          return;
        }
        o := o.(procStart := read.value);
      }
      observed := observed[tgid := o];
    }

    method ContainsTGID(pid: nat, read: Option<U64>) returns (r: bool)
      ensures r <==> Contains(View(), pid, read)
    {
      if root == 0 {
        return true;
      }
      if pid == 0 {
        return false;
      }
      if pid in active {
        return true;
      }
      if pid in observed {
        if read.Some? {
          var o := observed[pid];
          return o.procStart != 0 && read.value == o.procStart && ProcStartMatches(read.value, o.bpfStart);
        }
        return true;
      }
      if pid in retired {
        var expected := if pid in retiredStarts then retiredStarts[pid] else 0;
        if read.Some? {
          return expected != 0 && read.value == expected;
        }
        return expected != 0;
      }
      return false;
    }

    method TargetTGIDSeeds(seen: map<nat, U64>) returns (desired: map<nat, U64>)
      ensures desired == Seeds(View(), seen)
    {
      if root == 0 {
        return map[];
      }
      desired := map pid | pid in active :: EncodeSeed(if pid in activeStarts then activeStarts[pid] else 0);
      desired := SeedRetired(seen, desired);
      desired := SeedObserved(seen, desired);
      SeedsInParts(View(), seen, desired);
    }

    method SeedRetired(seen: map<nat, U64>, seeded: map<nat, U64>) returns (desired: map<nat, U64>)
      requires seeded.Keys == active
      ensures forall pid :: pid in desired <==>
        pid in active || (pid in retired && Contains(View(), pid, Lookup(seen, pid)))
      ensures forall pid :: pid in desired ==>
        desired[pid] == (if pid in active then seeded[pid] else RetiredSeed(retiredStarts, pid))
    {
      desired := seeded;
      var todo := retired.Keys;
      while todo != {}
        invariant todo <= retired.Keys
        invariant forall pid :: pid in desired <==>
          pid in active || (pid in retired && pid !in todo && Contains(View(), pid, Lookup(seen, pid)))
        invariant forall pid :: pid in desired ==>
          desired[pid] == (if pid in active then seeded[pid] else RetiredSeed(retiredStarts, pid))
        decreases |todo|
      {
        var pid :| pid in todo;
        if pid !in active {
          var member := ContainsTGID(pid, Lookup(seen, pid));
          if member {
            desired := desired[pid := EncodeSeed(if pid in retiredStarts then retiredStarts[pid] else 0)];
          }
        }
        todo := todo - {pid};
      }
    }

    /** Accepted for its observation alone. */
    predicate OnlyObserved(pid: nat, seen: map<nat, U64>)
      reads this
    {
      pid !in active && pid !in retired && Contains(View(), pid, Lookup(seen, pid))
    }

    method SeedObserved(seen: map<nat, U64>, seeded: map<nat, U64>) returns (desired: map<nat, U64>)
      ensures forall pid :: pid in desired <==>
        pid in seeded || (pid in observed && OnlyObserved(pid, seen))
      ensures forall pid :: pid in desired ==>
        desired[pid] == (if pid in observed && OnlyObserved(pid, seen) then observed[pid].bpfStart else seeded[pid])
    {
      desired := seeded;
      var todo := observed.Keys;
      while todo != {}
        invariant todo <= observed.Keys
        invariant forall pid :: pid in desired <==>
          pid in seeded || (pid in observed && pid !in todo && OnlyObserved(pid, seen))
        invariant forall pid :: pid in desired ==>
          desired[pid] ==
            (if pid in observed && pid !in todo && OnlyObserved(pid, seen) then observed[pid].bpfStart else seeded[pid])
        decreases |todo|
      {
        var pid :| pid in todo;
        if pid !in active && pid !in retired {
          var member := ContainsTGID(pid, Lookup(seen, pid));
          if member {
            desired := desired[pid := observed[pid].bpfStart];
          }
        }
        todo := todo - {pid};
      }
    }
  }

  lemma SeedsInParts(t: Members, seen: map<nat, U64>, desired: map<nat, U64>)
    requires t.root != 0
    requires forall pid :: pid in desired <==>
      pid in t.active || (pid in t.retired.Keys + t.observed.Keys && Contains(t, pid, Lookup(seen, pid)))
    requires forall pid :: pid in desired ==>
      desired[pid] == (if pid in t.active then EncodeSeed(if pid in t.activeStarts then t.activeStarts[pid] else 0)
        else if pid in t.retired then RetiredSeed(t.retiredStarts, pid)
        else t.observed[pid].bpfStart)
    ensures desired == Seeds(t, seen)
  {
  }

  lemma DropNone<V>(m: map<nat, V>)
    ensures m - {} == m
  {
  }

  lemma TreeIsDescends(root: nat, snap: map<nat, nat>, tgids: set<nat>)
    requires forall pid :: pid in tgids <==> Descends(snap, root, pid)
    ensures tgids == Tree(root, snap)
  {
    forall pid | Descends(snap, root, pid) ensures pid in snap.Keys + {root} {
      var i: nat :| Ancestor(snap, pid, i) == Some(root);
    }
  }
}
