/** Direct-reclaim accounting and its startup handshake: attach the begin hook, mark every thread
    found in /proc, attach the end hook. Ends whose begin nobody could see must not look like data
    loss. */
module ReclaimHandshake {
  import opened Common
  import opened FiniteSums

  datatype ReclaimInfo = ReclaimInfo(ts: nat, tgid: nat)

  datatype MemStat = MemStat(count: nat, ns: nat)

  datatype Health = Health(startUpdateFail: nat, endMiss: nat, statUpdateFail: nat)

  /** The BPF maps: startup markers and open reclaims by thread id, totals by process. */
  datatype Maps = Maps(startup: set<nat>, open: map<nat, ReclaimInfo>, stats: map<nat, MemStat>, health: Health)

  const EMPTY := Maps({}, map[], map[], Health(0, 0, 0))

  /** `handle_direct_begin` */
  function OnBegin(m: Maps, tid: nat, tgid: nat, now: nat, fits: bool): Maps {
    var m' := m.(startup := m.startup - {tid});
    if fits then m'.(open := m.open[tid := ReclaimInfo(now, tgid)])
    else m'.(health := m.health.(startUpdateFail := m.health.startUpdateFail + 1))
  }

  function Charged(stats: map<nat, MemStat>, tgid: nat, ns: nat): map<nat, MemStat> {
    var st := if tgid in stats then stats[tgid] else MemStat(0, 0);
    stats[tgid := MemStat(st.count + 1, st.ns + ns)]
  }

  /** `handle_direct_end` */
  function OnEnd(m: Maps, tid: nat, now: nat, fits: bool): Maps {
    if tid !in m.open then
      if tid in m.startup then m.(startup := m.startup - {tid})
      else m.(health := m.health.(endMiss := m.health.endMiss + 1))
    else
      var info := m.open[tid];
      var m' := m.(startup := m.startup - {tid}, open := m.open - {tid});
      if info.tgid in m.stats || fits
      then m'.(stats := Charged(m.stats, info.tgid, if now > info.ts then now - info.ts else 0))
      else m'.(health := m.health.(statUpdateFail := m.health.statUpdateFail + 1))
  }

  // ------------------------------------------------------------------ threads, hooks and the /proc walk

  /** A thread; while it is in reclaim, since when, and whether the begin hook saw it enter. */
  datatype Thread = Thread(tgid: nat, inReclaim: bool, since: nat, hooked: bool)

  /** `walk` says how far the marking walk is; `unvisited` holds the threads alive since it started
      that it has not marked yet. `observed` lists the reclaims whose begin and
      end were both hooked. */
  datatype Walk = NotStarted | Walking | Finished

  datatype World = World(
    now: nat, maps: Maps, threads: map<nat, Thread>, beginOn: bool, endOn: bool,
    walk: Walk, unvisited: set<nat>, observed: seq<Reclaim>)

  /** A finished reclaim: the process, and the time from its begin to its end. */
  datatype Reclaim = Reclaim(tgid: nat, ns: nat)

  datatype Step =
    | Tick(ns: nat)
    | Spawn(tid: nat, tgid: nat)
    | Exit(tid: nat)
    | Begin(tid: nat, fits: bool)
    | End(tid: nat, fits: bool)
    | AttachBegin
    | StartWalk
    | Mark(tid: nat)
    | FinishWalk
    | AttachEnd

  /** Environment: begin and end alternate in each thread, no thread exits inside reclaim, and a
      thread that lives through the whole walk is marked by it. The walk may also mark ids whose
      thread is gone or has been replaced. */
  predicate Possible(w: World, s: Step) {
    match s
    case Tick(_) => true
    case Spawn(tid, _) => tid !in w.threads
    case Exit(tid) => tid in w.threads && !w.threads[tid].inReclaim
    case Begin(tid, _) => tid in w.threads && !w.threads[tid].inReclaim
    case End(tid, _) => tid in w.threads && w.threads[tid].inReclaim
    case AttachBegin => !w.beginOn
    case StartWalk => w.walk.NotStarted?
    case Mark(_) => w.walk.Walking?
    case FinishWalk => w.walk.Walking? && w.unvisited == {}
    case AttachEnd => !w.endOn
  }

  /** The order of the loader: begin hook, walk, end hook. */
  predicate InOrder(w: World, s: Step) {
    (s.StartWalk? ==> w.beginOn) && (s.AttachEnd? ==> w.walk.Finished?)
  }

  predicate Allowed(w: World, s: Step) {
    Possible(w, s) && InOrder(w, s)
  }

  function Next(w: World, s: Step): World
    requires Possible(w, s)
  {
    match s
    case Tick(ns) => w.(now := w.now + ns)
    case Spawn(tid, tgid) => w.(threads := w.threads[tid := Thread(tgid, false, 0, false)])
    case Exit(tid) => w.(threads := w.threads - {tid}, unvisited := w.unvisited - {tid})
    case Begin(tid, fits) =>
      var t := w.threads[tid];
      var w' := w.(threads := w.threads[tid := Thread(t.tgid, true, w.now, w.beginOn)]);
      if w.beginOn then w'.(maps := OnBegin(w.maps, tid, t.tgid, w.now, fits)) else w'
    case End(tid, fits) =>
      var t := w.threads[tid];
      var w' := w.(threads := w.threads[tid := Thread(t.tgid, false, 0, false)]);
      if !w.endOn then w' else
        w'.(maps := OnEnd(w.maps, tid, w.now, fits),
            observed := if t.hooked && w.now >= t.since then w.observed + [Reclaim(t.tgid, w.now - t.since)]
                        else w.observed)
    case AttachBegin => w.(beginOn := true)
    case StartWalk => w.(walk := Walking, unvisited := w.threads.Keys)
    case Mark(tid) => w.(maps := w.maps.(startup := w.maps.startup + {tid}), unvisited := w.unvisited - {tid})
    case FinishWalk => w.(walk := Finished)
    case AttachEnd => w.(endOn := true)
  }

  ghost predicate Start(w: World) {
    && w.maps == EMPTY && !w.beginOn && !w.endOn && w.walk.NotStarted? && w.unvisited == {} && w.observed == []
    && forall t :: t in w.threads ==> !w.threads[t].hooked && w.threads[t].since <= w.now
  }

  ghost predicate IsRun(run: seq<World>, steps: seq<Step>) {
    IsAnyRun(run, steps) && forall i :: 0 <= i < |steps| ==> InOrder(run[i], steps[i])
  }

  /** The same steps, with the hooks and the walk in any order. */
  ghost predicate IsAnyRun(run: seq<World>, steps: seq<Step>) {
    && |run| == |steps| + 1
    && forall i :: 0 <= i < |steps| ==> Possible(run[i], steps[i]) && run[i + 1] == Next(run[i], steps[i])
  }

  /** How many of these reclaims are a process's, and their time. */
  ghost function CountOf(done: seq<Reclaim>, tgid: nat): nat {
    if done == [] then 0 else CountOf(done[..|done| - 1], tgid) + if done[|done| - 1].tgid == tgid then 1 else 0
  }

  ghost function TimeOf(done: seq<Reclaim>, tgid: nat): nat {
    if done == [] then 0
    else TimeOf(done[..|done| - 1], tgid) + if done[|done| - 1].tgid == tgid then done[|done| - 1].ns else 0
  }

  /** The totals are those of the list: a process has an entry if it has a reclaim, with number and time. */
  ghost predicate Accounts(stats: map<nat, MemStat>, done: seq<Reclaim>) {
    forall tgid ::
      && (tgid in stats <==> CountOf(done, tgid) > 0)
      && (tgid in stats ==> stats[tgid] == MemStat(CountOf(done, tgid), TimeOf(done, tgid)))
      && (tgid !in stats ==> TimeOf(done, tgid) == 0)
  }

  lemma AccountsMore(stats: map<nat, MemStat>, done: seq<Reclaim>, tgid: nat, ns: nat)
    requires Accounts(stats, done)
    ensures Accounts(Charged(stats, tgid, ns), done + [Reclaim(tgid, ns)])
  {
    assert (done + [Reclaim(tgid, ns)])[..|done|] == done;
  }

  /** Threads in reclaim whose begin was seen but could not be stored: each one cost a failure. */
  ghost function Unstored(w: World): set<nat> {
    set t | t in w.threads && w.threads[t].inReclaim && w.threads[t].hooked && t !in w.maps.open
  }

  /** A thread whose begin was never seen is still to be visited, or marked. */
  ghost predicate EarlyCovered(w: World) {
    forall t :: t in w.threads && w.threads[t].inReclaim && !w.threads[t].hooked ==>
      && t !in w.maps.open
      && (w.walk != NotStarted ==> t in w.unvisited || t in w.maps.startup)
  }

  /** Without failed updates an open reclaim is stored with its true begin. */
  ghost predicate TrueBegins(w: World) {
    w.maps.health.startUpdateFail == 0 ==>
      forall t :: t in w.threads && w.threads[t].inReclaim && w.threads[t].hooked ==>
        t in w.maps.open && w.maps.open[t] == ReclaimInfo(w.threads[t].since, w.threads[t].tgid)
  }

  ghost predicate Inv(w: World) {
    && w.maps.health.endMiss + |Unstored(w)| <= w.maps.health.startUpdateFail
    && EarlyCovered(w)
    && TrueBegins(w)
    && (forall t :: t in w.threads ==> w.threads[t].since <= w.now)
    && (w.walk != NotStarted ==> w.beginOn)
    && (w.walk.Finished? ==> w.unvisited == {})
    && (w.endOn ==> w.walk.Finished?)
    && (!w.beginOn ==> w.maps.open == map[] && forall t :: t in w.threads ==> !w.threads[t].hooked)
    && (w.maps.health.startUpdateFail == 0 && w.maps.health.statUpdateFail == 0 ==> Accounts(w.maps.stats, w.observed))
  }

  lemma BeginInv(w: World, s: Step)
    requires Inv(w) && s.Begin? && Allowed(w, s)
    ensures Inv(Next(w, s))
  {
    var w' := Next(w, s);
    if w.beginOn && !s.fits && s.tid !in w.maps.open {
      assert Unstored(w') == Unstored(w) + {s.tid};
    } else {
      assert Unstored(w') == Unstored(w);
    }
  }

  lemma EndCovered(w: World, s: Step)
    requires Inv(w) && s.End? && Allowed(w, s)
    ensures EarlyCovered(Next(w, s)) && TrueBegins(Next(w, s))
    ensures Unstored(Next(w, s)) == Unstored(w) - {s.tid}
  {
  }

  lemma EndMisses(w: World, s: Step)
    requires Inv(w) && s.End? && Allowed(w, s)
    ensures var w' := Next(w, s);
      w'.maps.health.endMiss + |Unstored(w')| <= w'.maps.health.startUpdateFail
  {
    EndCovered(w, s);
    if w.endOn && !w.threads[s.tid].hooked {
      assert s.tid in w.maps.startup;
    } else if w.endOn && s.tid !in w.maps.open {
      assert s.tid in Unstored(w);
    }
  }

  lemma EndTotals(w: World, s: Step)
    requires Inv(w) && s.End? && Allowed(w, s)
    ensures var w' := Next(w, s);
      w'.maps.health.startUpdateFail == 0 && w'.maps.health.statUpdateFail == 0 ==> Accounts(w'.maps.stats, w'.observed)
  {
    var t := w.threads[s.tid];
    if w.endOn && !t.hooked {
      assert s.tid !in w.maps.open;
    } else if w.endOn && w.maps.health.startUpdateFail == 0 && w.maps.health.statUpdateFail == 0 {
      AccountsMore(w.maps.stats, w.observed, t.tgid, w.now - t.since);
    }
  }

  lemma EndInv(w: World, s: Step)
    requires Inv(w) && s.End? && Allowed(w, s)
    ensures Inv(Next(w, s))
  {
    EndCovered(w, s);
    EndMisses(w, s);
    EndTotals(w, s);
  }

  lemma OtherInv(w: World, s: Step)
    requires Inv(w) && !s.Begin? && !s.End? && Allowed(w, s)
    ensures Inv(Next(w, s))
  {
    assert Unstored(Next(w, s)) == Unstored(w);
  }

  lemma {:induction false} RunInv(run: seq<World>, steps: seq<Step>, i: nat)
    requires IsRun(run, steps) && Start(run[0]) && i < |run|
    ensures Inv(run[i])
  {
    if i == 0 {
      assert Unstored(run[0]) == {};
    } else {
      RunInv(run, steps, i - 1);
      var w, s := run[i - 1], steps[i - 1];
      if s.Begin? { BeginInv(w, s); } else if s.End? { EndInv(w, s); } else { OtherInv(w, s); }
    }
  }

  /** Handshake soundness: over every run that attaches begin, walks /proc while threads start, end
      and reclaim, then attaches end, each counted end miss is paid for by a failed begin update. */
  lemma MissesAreRealLosses(run: seq<World>, steps: seq<Step>, i: nat)
    requires IsRun(run, steps) && Start(run[0]) && i < |run|
    ensures run[i].maps.health.endMiss <= run[i].maps.health.startUpdateFail
  {
    RunInv(run, steps, i);
  }

  /** Without failed updates the per-process totals are exactly the reclaims whose begin and end were
      both hooked: none twice, none with another reclaim's begin, ids reused or not. */
  lemma TotalsAreExact(run: seq<World>, steps: seq<Step>, i: nat)
    requires IsRun(run, steps) && Start(run[0]) && i < |run|
    requires run[i].maps.health.startUpdateFail == 0 && run[i].maps.health.statUpdateFail == 0
    ensures Accounts(run[i].maps.stats, run[i].observed)
  {
    RunInv(run, steps, i);
  }

  // ------------------------------------------------------------------ the order of the hooks

  /** What holds in any order: a reclaim has an open entry exactly if its begin was hooked, as long as
      no begin update failed. */
  ghost predicate OpenIffHooked(w: World) {
    && (!w.beginOn ==> w.maps.open == map[] && forall t :: t in w.threads ==> !w.threads[t].hooked)
    && forall t :: t in w.threads && w.threads[t].inReclaim ==>
        (t in w.maps.open ==> w.threads[t].hooked)
        && (w.threads[t].hooked && w.maps.health.startUpdateFail == 0 ==> t in w.maps.open)
  }

  lemma {:induction false} AnyRunOpen(run: seq<World>, steps: seq<Step>, i: nat)
    requires IsAnyRun(run, steps) && Start(run[0]) && i < |run|
    ensures OpenIffHooked(run[i])
  {
    if i > 0 {
      AnyRunOpen(run, steps, i - 1);
      OpenNext(run[i - 1], steps[i - 1]);
    }
  }

  lemma OpenNext(w: World, s: Step)
    requires OpenIffHooked(w) && Possible(w, s)
    ensures OpenIffHooked(Next(w, s))
  {
  }

  /** In whatever order the hooks and the walk come, and while no begin update fails, a step charges a
      miss exactly if it ends, under the end hook, a reclaim that the begin hook did not see in a thread
      that carries no marker. */
  lemma MissIff(run: seq<World>, steps: seq<Step>, i: nat)
    requires IsAnyRun(run, steps) && Start(run[0]) && i < |steps|
    requires run[i].maps.health.startUpdateFail == 0
    ensures run[i + 1].maps.health.endMiss == run[i].maps.health.endMiss
              + (if UnseenEnd(run[i], steps[i]) then 1 else 0)
  {
    AnyRunOpen(run, steps, i);
  }

  predicate UnseenEnd(w: World, s: Step)
    requires Possible(w, s)
  {
    s.End? && w.endOn && !w.threads[s.tid].hooked && s.tid !in w.maps.startup
  }

  /** The order matters: for every thread that is in reclaim at the start, attaching end before the walk
      has marked it charges a miss although no update failed. */
  lemma EndBeforeMarkChargesMiss(w: World, tid: nat) returns (run: seq<World>, steps: seq<Step>)
    requires Start(w) && tid in w.threads && w.threads[tid].inReclaim
    ensures IsAnyRun(run, steps) && run[0] == w && steps == [AttachBegin, StartWalk, AttachEnd, End(tid, true)]
    ensures run[4].maps.health == Health(0, 1, 0)
  {
    steps := [AttachBegin, StartWalk, AttachEnd, End(tid, true)];
    var a := Next(w, steps[0]);
    var b := Next(a, steps[1]);
    var c := Next(b, steps[2]);
    run := [w, a, b, c, Next(c, steps[3])];
  }

  // ------------------------------------------------------------------ the maps told from the steps

  /** The thread has been marked since the hooks last saw it. */
  ghost predicate Marked(run: seq<World>, steps: seq<Step>, i: nat, tid: nat)
    requires i <= |steps| && |run| == |steps| + 1
  {
    i > 0 && (
      match steps[i - 1]
      case Mark(t) => t == tid || Marked(run, steps, i - 1, tid)
      case Begin(t, _) => Marked(run, steps, i - 1, tid) && !(t == tid && run[i - 1].beginOn)
      case End(t, _) => Marked(run, steps, i - 1, tid) && !(t == tid && run[i - 1].endOn)
      case _ => Marked(run, steps, i - 1, tid))
  }

  /** The last begin of the thread that the hook saw and could store, unless an end was seen after it. */
  ghost function Opened(run: seq<World>, steps: seq<Step>, i: nat, tid: nat): (j: Option<nat>)
    requires i <= |steps| && |run| == |steps| + 1
    ensures j.Some? ==> j.value < i
  {
    if i == 0 then None else
      match steps[i - 1]
      case Begin(t, fits) =>
        if t == tid && run[i - 1].beginOn && fits then Some(i - 1) else Opened(run, steps, i - 1, tid)
      case End(t, _) => if t == tid && run[i - 1].endOn then None else Opened(run, steps, i - 1, tid)
      case _ => Opened(run, steps, i - 1, tid)
  }

  /** The step ends, under the end hook, a reclaim that has an entry. */
  ghost predicate Closes(run: seq<World>, steps: seq<Step>, i: nat)
    requires i < |steps| && |run| == |steps| + 1
  {
    steps[i].End? && run[i].endOn && Opened(run, steps, i, steps[i].tid).Some?
  }

  /** The reclaim that the step closes, from the begin that opened its entry. */
  ghost function Closing(run: seq<World>, steps: seq<Step>, i: nat): Reclaim
    requires IsAnyRun(run, steps) && i < |steps| && Closes(run, steps, i)
  {
    var tid := steps[i].tid;
    var begin := run[Opened(run, steps, i, tid).value];
    Reclaim(if tid in begin.threads then begin.threads[tid].tgid else 0, Saturating(run[i].now, begin.now))
  }

  /** The reclaims closed and stored, in order: a process that has an entry needs no room for another. */
  ghost function Stored(run: seq<World>, steps: seq<Step>, i: nat): seq<Reclaim>
    requires IsAnyRun(run, steps) && i <= |steps|
  {
    if i == 0 then [] else
      var before := Stored(run, steps, i - 1);
      if !Closes(run, steps, i - 1) then before else
        var r := Closing(run, steps, i - 1);
        if HasRoom(before, r, steps[i - 1].fits) then before + [r] else before
  }

  ghost predicate HasRoom(stored: seq<Reclaim>, r: Reclaim, fits: bool) {
    fits || CountOf(stored, r.tgid) > 0
  }

  /** What one step adds to the health counters. */
  ghost function Noted(run: seq<World>, steps: seq<Step>, i: nat): Health
    requires IsAnyRun(run, steps) && i < |steps|
  {
    var s := steps[i];
    if s.Begin? && run[i].beginOn && !s.fits then Health(1, 0, 0)
    else if Closes(run, steps, i) then
      if HasRoom(Stored(run, steps, i), Closing(run, steps, i), s.fits) then Health(0, 0, 0) else Health(0, 0, 1)
    else if s.End? && run[i].endOn && !Marked(run, steps, i, s.tid) then Health(0, 1, 0)
    else Health(0, 0, 0)
  }

  ghost function HealthOf(run: seq<World>, steps: seq<Step>, i: nat): Health
    requires IsAnyRun(run, steps) && i <= |steps|
  {
    if i == 0 then Health(0, 0, 0) else Plus(HealthOf(run, steps, i - 1), Noted(run, steps, i - 1))
  }

  function Plus(a: Health, b: Health): Health {
    Health(a.startUpdateFail + b.startUpdateFail, a.endMiss + b.endMiss, a.statUpdateFail + b.statUpdateFail)
  }

  /** The marker and the open entry of one thread are those of the steps. */
  ghost predicate RecallsThread(run: seq<World>, steps: seq<Step>, i: nat, tid: nat)
    requires i <= |steps| && |run| == |steps| + 1
  {
    var m, begun := run[i].maps, Opened(run, steps, i, tid);
    && (tid in m.startup <==> Marked(run, steps, i, tid))
    && (tid in m.open <==> begun.Some?)
    && (begun.Some? ==>
          var begin := run[begun.value];
          tid in begin.threads && Lookup(m.open, tid) == Some(ReclaimInfo(begin.now, begin.threads[tid].tgid)))
  }

  ghost predicate Recalls(run: seq<World>, steps: seq<Step>, i: nat)
    requires IsAnyRun(run, steps) && i <= |steps|
  {
    && (forall tid :: RecallsThread(run, steps, i, tid))
    && Accounts(run[i].maps.stats, Stored(run, steps, i))
    && run[i].maps.health == HealthOf(run, steps, i)
  }

  lemma ThreadNext(run: seq<World>, steps: seq<Step>, i: nat, tid: nat)
    requires IsAnyRun(run, steps) && i < |steps| && RecallsThread(run, steps, i, tid)
    ensures RecallsThread(run, steps, i + 1, tid)
  {
    assert run[i + 1] == Next(run[i], steps[i]);
  }

  lemma CloseStep(m: Maps, tid: nat, now: nat, fits: bool, done: seq<Reclaim>, r: Reclaim)
    requires tid in m.open && m.open[tid].tgid == r.tgid && r.ns == Saturating(now, m.open[tid].ts)
    requires Accounts(m.stats, done)
    ensures var m' := OnEnd(m, tid, now, fits);
      if HasRoom(done, r, fits) then Accounts(m'.stats, done + [r]) && m'.health == m.health
      else Accounts(m'.stats, done) && m'.health == Plus(m.health, Health(0, 0, 1))
  {
    AccountsMore(m.stats, done, r.tgid, r.ns);
  }

  lemma CloseTotals(run: seq<World>, steps: seq<Step>, i: nat)
    requires IsAnyRun(run, steps) && i < |steps| && Recalls(run, steps, i) && Closes(run, steps, i)
    ensures Accounts(run[i + 1].maps.stats, Stored(run, steps, i + 1))
    ensures run[i + 1].maps.health == HealthOf(run, steps, i + 1)
  {
    var w, s, r := run[i], steps[i], Closing(run, steps, i);
    assert run[i + 1].maps == OnEnd(w.maps, s.tid, w.now, s.fits);
    assert RecallsThread(run, steps, i, s.tid);
    CloseStep(w.maps, s.tid, w.now, s.fits, Stored(run, steps, i), r);
  }

  lemma OtherTotals(run: seq<World>, steps: seq<Step>, i: nat)
    requires IsAnyRun(run, steps) && i < |steps| && Recalls(run, steps, i) && !Closes(run, steps, i)
    ensures Accounts(run[i + 1].maps.stats, Stored(run, steps, i + 1))
    ensures run[i + 1].maps.health == HealthOf(run, steps, i + 1)
  {
    var w, s := run[i], steps[i];
    assert run[i + 1] == Next(w, s);
    if s.End? && w.endOn { assert RecallsThread(run, steps, i, s.tid); }
  }

  lemma RecallsNext(run: seq<World>, steps: seq<Step>, i: nat)
    requires IsAnyRun(run, steps) && i < |steps| && Recalls(run, steps, i)
    ensures Recalls(run, steps, i + 1)
  {
    var next := i + 1;
    if Closes(run, steps, i) { CloseTotals(run, steps, i); } else { OtherTotals(run, steps, i); }
    forall tid ensures RecallsThread(run, steps, next, tid) {
      ThreadNext(run, steps, i, tid);
    }
  }

  /** In every run, with the hooks and the walk in any order and with failed updates, the maps are those of
      the steps: a marker for each thread marked since the hooks last saw it, an open entry for each begin
      that was stored and whose end was not seen, with the time and process of that begin, totals over
      the reclaims closed, and each health counter the number of its events. */
  lemma {:induction false} MapsAreHistory(run: seq<World>, steps: seq<Step>, i: nat)
    requires IsAnyRun(run, steps) && Start(run[0]) && i <= |steps|
    ensures Recalls(run, steps, i)
  {
    if i > 0 {
      MapsAreHistory(run, steps, i - 1);
      RecallsNext(run, steps, i - 1);
    }
  }

  // ------------------------------------------------------------------ the handlers

  class Program {
    var startup: set<nat>
    var open: map<nat, ReclaimInfo>
    var stats: map<nat, MemStat>
    var health: Health

    ghost function View(): Maps
      reads this
    {
      Maps(startup, open, stats, health)
    }

    constructor ()
      ensures View() == EMPTY
    {
      startup, open, stats, health := {}, map[], map[], Health(0, 0, 0);
    }

    method HandleDirectBegin(tid: nat, tgid: nat, now: nat, fits: bool)
      modifies this
      ensures View() == OnBegin(old(View()), tid, tgid, now, fits)
    {
      startup := startup - {tid};
      if fits {
        open := open[tid := ReclaimInfo(now, tgid)];
      } else {
        health := health.(startUpdateFail := health.startUpdateFail + 1);
      }
    }

    method HandleDirectEnd(tid: nat, now: nat, fits: bool)
      modifies this
      ensures View() == OnEnd(old(View()), tid, now, fits)
    {
      if tid !in open {
        if tid in startup {
          startup := startup - {tid};
        } else {
          health := health.(endMiss := health.endMiss + 1);
        }
        return;
      }
      startup := startup - {tid};
      var info := open[tid];
      if info.tgid !in stats && !fits {
        health := health.(statUpdateFail := health.statUpdateFail + 1);
      } else {
        var st := if info.tgid in stats then stats[info.tgid] else MemStat(0, 0);
        st := st.(count := st.count + 1);
        if now > info.ts {
          st := st.(ns := st.ns + (now - info.ts));
        }
        stats := stats[info.tgid := st];
      }
      open := open - {tid};
    }
  }
}
