/** The memory detector: the sustained-pressure machine with out-of-memory kills that fire at once, and the
    choice of the process a signal blames. Rates are real numbers; only their order matters here. */
module MemDetector {
  import opened FiniteSums
  import opened SustainDetector

  const ANON_GROWTH_SIGNAL := 65536.0
  const MAJOR_FAULT_SIGNAL := 100.0
  const RECLAIM_SIGNAL := 10.0
  const PSI_SOME_SIGNAL := 10.0
  const PSI_FULL_SIGNAL := 1.0

  datatype Proc = Proc(pid: nat, oomKills: nat, reclaims: nat, reclaimMs: real, growth: real, faults: real)

  const NOBODY := Proc(0, 0, 0, 0.0, 0.0, 0.0)

  datatype Snapshot = Snapshot(
    window: Window, oomKills: nat, victims: seq<Proc>, totalKB: nat, availablePct: real,
    psiSome: real, psiFull: real, reclaimMsPerSec: real, globalContribution: bool, procs: seq<Proc>)

  datatype Verdict = Verdict(snapshot: Snapshot, culprit: Proc, oom: bool, window: Window)

  // ------------------------------------------------------------------ pressure and blame

  predicate Contributes(p: Proc) {
    p.reclaims > 0 || p.reclaimMs > 0.0 || p.growth >= ANON_GROWTH_SIGNAL || p.faults >= MAJOR_FAULT_SIGNAL
  }

  predicate SystemPressure(s: Snapshot, floor: real) {
    (s.totalKB > 0 && s.availablePct < floor) || s.psiSome >= PSI_SOME_SIGNAL || s.psiFull >= PSI_FULL_SIGNAL
    || s.reclaimMsPerSec >= RECLAIM_SIGNAL
  }

  /** `hasOrdinaryMemPressure` */
  predicate Pressure(s: Snapshot, floor: real) {
    SystemPressure(s, floor) && (s.globalContribution || exists i :: 0 <= i < |s.procs| && Contributes(s.procs[i]))
  }

  method HasOrdinaryMemPressure(s: Snapshot, floor: real) returns (pressure: bool)
    ensures pressure <==> Pressure(s, floor)
  {
    if !SystemPressure(s, floor) {
      return false;
    }
    if s.globalContribution {
      return true;
    }
    for i := 0 to |s.procs|
      invariant forall j :: 0 <= j < i ==> !Contributes(s.procs[j])
    {
      if Contributes(s.procs[i]) {
        return true;
      }
    }
    return false;
  }

  /** How a process competes for the blame: out-of-memory kills, reclaim, memory growth or major faults. */
  datatype Cause = Kills | Reclaim | Growth | Faults

  predicate Competes(c: Cause, p: Proc) {
    match c
    case Kills => true
    case Reclaim => p.reclaims != 0 || p.reclaimMs != 0.0
    case Growth => p.growth >= ANON_GROWTH_SIGNAL
    case Faults => p.faults >= MAJOR_FAULT_SIGNAL
  }

  predicate Worse(c: Cause, p: Proc, best: Proc) {
    match c
    case Kills => p.oomKills > best.oomKills
    case Reclaim => p.reclaimMs > best.reclaimMs || (p.reclaimMs == best.reclaimMs && p.reclaims > best.reclaims)
    case Growth => p.growth > best.growth
    case Faults => p.faults > best.faults
  }

  /** The first of the worst competitors, starting from `best`. */
  function Worst(c: Cause, procs: seq<Proc>, best: Proc): Proc {
    if procs == [] then best else
      var sofar, p := Worst(c, procs[..|procs| - 1], best), procs[|procs| - 1];
      if Competes(c, p) && Worse(c, p, sofar) then p else sofar
  }

  /** One of the loops of `pickOOMVictim` and `pickCulprit`. */
  method PickWorst(c: Cause, procs: seq<Proc>, best: Proc) returns (worst: Proc)
    ensures worst == Worst(c, procs, best)
  {
    worst := best;
    for i := 0 to |procs|
      invariant worst == Worst(c, procs[..i], best)
    {
      assert procs[..i + 1][..i] == procs[..i];
      if Competes(c, procs[i]) && Worse(c, procs[i], worst) {
        worst := procs[i];
      }
    }
    assert procs[..|procs|] == procs;
  }

  /** `pickCulprit`: reclaim before growth before faults. */
  function Culprit(procs: seq<Proc>): Proc {
    var r := Worst(Reclaim, procs, NOBODY);
    if r.pid != 0 then r else
      var g := Worst(Growth, procs, r);
      if g.pid != 0 then g else Worst(Faults, procs, g)
  }

  method PickCulprit(procs: seq<Proc>) returns (culprit: Proc)
    ensures culprit == Culprit(procs)
  {
    culprit := PickWorst(Reclaim, procs, NOBODY);
    if culprit.pid != 0 {
      return;
    }
    culprit := PickWorst(Growth, procs, culprit);
    if culprit.pid != 0 {
      return;
    }
    culprit := PickWorst(Faults, procs, culprit);
  }

  /** Real processes have an id, and times are not negative. */
  predicate Real(procs: seq<Proc>) {
    forall i :: 0 <= i < |procs| ==> procs[i].pid != 0 && procs[i].reclaimMs >= 0.0
  }

  ghost predicate Someone(c: Cause, procs: seq<Proc>) {
    exists i :: 0 <= i < |procs| && Competes(c, procs[i])
  }

  /** Nobody who competes is worse than the chosen one; somebody is chosen when somebody competes. */
  lemma {:induction false} WorstIsWorst(c: Cause, procs: seq<Proc>)
    requires Real(procs) && !c.Kills?
    ensures var w := Worst(c, procs, NOBODY);
      && (forall i :: 0 <= i < |procs| && Competes(c, procs[i]) ==> !Worse(c, procs[i], w))
      && (if Someone(c, procs) then w in procs && Competes(c, w) else w == NOBODY)
    decreases |procs|
  {
    if procs != [] {
      var n := |procs| - 1;
      WorstIsWorst(c, procs[..n]);
      assert forall i :: 0 <= i < n ==> procs[..n][i] == procs[i];
      if Competes(c, procs[n]) && Someone(c, procs[..n]) {
        var i :| 0 <= i < n && Competes(c, procs[..n][i]);
        assert Competes(c, procs[i]);
      } else if Someone(c, procs[..n]) {
        var i :| 0 <= i < n && Competes(c, procs[..n][i]);
        assert Competes(c, procs[i]);
      } else if Competes(c, procs[n]) {
        assert procs[n] in procs;
      }
    }
  }

  lemma {:induction false} WorstVictim(victims: seq<Proc>)
    ensures var w := Worst(Kills, victims, NOBODY);
      && (forall i :: 0 <= i < |victims| ==> victims[i].oomKills <= w.oomKills)
      && (w == NOBODY || w in victims)
    decreases |victims|
  {
    if victims != [] {
      var n := |victims| - 1;
      WorstVictim(victims[..n]);
      assert forall i :: 0 <= i < n ==> victims[..n][i] == victims[i];
    }
  }

  /** Who is blamed: of the processes that reclaimed, one with the longest time in reclaim and, among those,
      the most reclaims; if none did, of those that grew by 64 MiB/s, one that grew most; if none did, of
      those with 100 major faults per second, one with most; and nobody if there is none either. */
  lemma CulpritByCause(procs: seq<Proc>)
    requires Real(procs)
    ensures var c := Culprit(procs);
      if exists p :: p in procs && Reclaims(p) then
        c in procs && Reclaims(c) && forall p :: p in procs && Reclaims(p) ==>
          p.reclaimMs < c.reclaimMs || (p.reclaimMs == c.reclaimMs && p.reclaims <= c.reclaims)
      else if exists p :: p in procs && p.growth >= 65536.0 then
        c in procs && forall p :: p in procs ==> p.growth <= c.growth
      else if exists p :: p in procs && p.faults >= 100.0 then
        c in procs && forall p :: p in procs ==> p.faults <= c.faults
      else c == NOBODY
  {
    WorstIsWorst(Reclaim, procs);
    WorstIsWorst(Growth, procs);
    WorstIsWorst(Faults, procs);
    SomeoneIs(procs);
    if Someone(Reclaim, procs) {
      HasPid(procs, Culprit(procs));
    } else if Someone(Growth, procs) {
      HasPid(procs, Worst(Growth, procs, NOBODY));
    }
  }

  predicate Reclaims(p: Proc) {
    p.reclaims > 0 || p.reclaimMs > 0.0
  }

  lemma SomeoneIs(procs: seq<Proc>)
    requires Real(procs)
    ensures Someone(Reclaim, procs) <==> exists p :: p in procs && Reclaims(p)
    ensures Someone(Growth, procs) <==> exists p :: p in procs && p.growth >= 65536.0
    ensures Someone(Faults, procs) <==> exists p :: p in procs && p.faults >= 100.0
  {
    forall p | p in procs && Reclaims(p) ensures Someone(Reclaim, procs) {
      var i :| 0 <= i < |procs| && procs[i] == p;
      assert Competes(Reclaim, procs[i]);
    }
    forall p | p in procs && p.growth >= 65536.0 ensures Someone(Growth, procs) {
      var i :| 0 <= i < |procs| && procs[i] == p;
      assert Competes(Growth, procs[i]);
    }
    forall p | p in procs && p.faults >= 100.0 ensures Someone(Faults, procs) {
      var i :| 0 <= i < |procs| && procs[i] == p;
      assert Competes(Faults, procs[i]);
    }
    if i :| 0 <= i < |procs| && Competes(Reclaim, procs[i]) { assert procs[i] in procs; }
    if i :| 0 <= i < |procs| && Competes(Growth, procs[i]) { assert procs[i] in procs; }
    if i :| 0 <= i < |procs| && Competes(Faults, procs[i]) { assert procs[i] in procs; }
  }

  lemma HasPid(procs: seq<Proc>, p: Proc)
    requires Real(procs)
    ensures p in procs ==> p.pid != 0
  {
  }

  /** Ordinary pressure that is not only global always comes with somebody to blame. */
  lemma PressureHasCulprit(s: Snapshot, floor: real)
    requires Real(s.procs) && Pressure(s, floor) && !s.globalContribution
    ensures Culprit(s.procs) in s.procs && Contributes(Culprit(s.procs))
  {
    CulpritByCause(s.procs);
  }

  // ------------------------------------------------------------------ the history

  /** A window of ordinary pressure, without an out-of-memory kill. */
  predicate Ordinary(s: Snapshot, floor: real) {
    s.window.Valid() && s.oomKills == 0 && Pressure(s, floor)
  }

  /** The trailing windows of ordinary pressure. */
  function PressureRun(snaps: seq<Snapshot>, floor: real): seq<Window> {
    if snaps == [] || !Ordinary(snaps[|snaps| - 1], floor) then []
    else PressureRun(snaps[..|snaps| - 1], floor) + [snaps[|snaps| - 1].window]
  }

  /** The signals of one window, from the history. */
  function ExpectedMem(before: seq<Snapshot>, s: Snapshot, floor: real, sustain: nat): seq<Verdict> {
    if !s.window.Valid() then []
    else if s.oomKills > 0 then [Verdict(s, Worst(Kills, s.victims, NOBODY), true, s.window)]
    else
      var run := PressureRun(before + [s], floor);
      if run != [] && |run| == sustain then [Verdict(s, Culprit(s.procs), false, run[0].Extend(s.window))] else []
  }

  /** An out-of-memory window, an invalid one and one without pressure all end the run. */
  lemma RunRestarts(before: seq<Snapshot>, s: Snapshot, floor: real)
    ensures PressureRun(before + [s], floor)
         == if Ordinary(s, floor) then PressureRun(before, floor) + [s.window] else []
  {
    assert (before + [s])[..|before|] == before;
  }

  /** The signals of a window of ordinary pressure, from the run before it. */
  lemma OrdinarySignals(before: seq<Snapshot>, s: Snapshot, floor: real, sustain: nat)
    requires Ordinary(s, floor)
    ensures var run := PressureRun(before, floor);
      ExpectedMem(before, s, floor, sustain) ==
        if |run| + 1 != sustain then [] else
          [Verdict(s, Culprit(s.procs), false, (if run == [] then s.window else run[0]).Extend(s.window))]
  {
    RunRestarts(before, s, floor);
  }

  /** Two kills in a row both fire, and pressure right after a kill starts over. */
  lemma KillFiresAndRestarts(before: seq<Snapshot>, kill: Snapshot, after: Snapshot, floor: real, sustain: nat)
    requires kill.window.Valid() && kill.oomKills > 0
    ensures |ExpectedMem(before, kill, floor, sustain)| == 1 && ExpectedMem(before, kill, floor, sustain)[0].oom
    ensures Ordinary(after, floor) ==>
      PressureRun(before + [kill] + [after], floor) == [after.window]
      && (ExpectedMem(before + [kill], after, floor, sustain) != [] <==> sustain == 1)
  {
    RunRestarts(before, kill, floor);
    RunRestarts(before + [kill], after, floor);
  }

  /** A measured window, without an out-of-memory kill, in which less memory is available than the floor, or
      the system stalls on memory or reclaims for long enough, and the target as a whole or one of its
      processes has a part in it. */
  predicate Pressed(s: Snapshot, floor: real) {
    && s.window.start.Some? && s.window.end.Some? && s.window.start.value < s.window.end.value
    && s.window.elapsed > 0 && s.oomKills == 0
    && ((s.totalKB != 0 && s.availablePct < floor) || s.psiSome >= 10.0 || s.psiFull >= 1.0
        || s.reclaimMsPerSec >= 10.0)
    && (s.globalContribution
        || exists p :: p in s.procs && (Reclaims(p) || p.growth >= 65536.0 || p.faults >= 100.0))
  }

  lemma PressedIsOrdinary(s: Snapshot, floor: real)
    ensures Pressed(s, floor) <==> Ordinary(s, floor)
  {
    forall i | 0 <= i < |s.procs| && Contributes(s.procs[i])
      ensures Reclaims(s.procs[i]) || s.procs[i].growth >= 65536.0 || s.procs[i].faults >= 100.0
    {
      assert s.procs[i] in s.procs;
    }
    forall p | p in s.procs && (Reclaims(p) || p.growth >= 65536.0 || p.faults >= 100.0)
      ensures exists i :: 0 <= i < |s.procs| && Contributes(s.procs[i])
    {
      var i :| 0 <= i < |s.procs| && s.procs[i] == p;
      assert Contributes(s.procs[i]);
    }
  }

  /** The run is as long as windows were pressed without a break, and starts with the first of them. */
  lemma {:induction false} RunIsPressed(snaps: seq<Snapshot>, floor: real)
    ensures var n := |PressureRun(snaps, floor)|;
      && n <= |snaps| && (forall j :: |snaps| - n <= j < |snaps| ==> Pressed(snaps[j], floor))
      && (n < |snaps| ==> !Pressed(snaps[|snaps| - n - 1], floor))
      && (n > 0 ==> PressureRun(snaps, floor)[0] == snaps[|snaps| - n].window)
    decreases |snaps|
  {
    if snaps != [] {
      PressedIsOrdinary(snaps[|snaps| - 1], floor);
      RunIsPressed(snaps[..|snaps| - 1], floor);
    }
  }

  /** When the detector fires, from the windows alone: at a kill in a measured window, or when this window
      and those before it have been pressed for exactly `sustain` windows in a row. */
  lemma FiresExactly(before: seq<Snapshot>, s: Snapshot, floor: real, sustain: nat)
    requires sustain >= 1
    ensures var snaps, signals := before + [s], ExpectedMem(before, s, floor, sustain);
      && |signals| <= 1
      && (signals != [] && signals[0].oom <==> s.window.Valid() && s.oomKills > 0)
      && (signals != [] && !signals[0].oom <==>
            && sustain <= |snaps| && (forall j :: |snaps| - sustain <= j < |snaps| ==> Pressed(snaps[j], floor))
            && (sustain < |snaps| ==> !Pressed(snaps[|snaps| - sustain - 1], floor)))
  {
    var snaps, n := before + [s], |PressureRun(before + [s], floor)|;
    RunIsPressed(snaps, floor);
    if n < sustain <= |snaps| { assert !Pressed(snaps[|snaps| - n - 1], floor); }
    if sustain < n { assert Pressed(snaps[|snaps| - sustain - 1], floor); }
    assert snaps[|snaps| - 1] == s;
  }

  /** What it says then: a kill blames a victim with most kills, over its own window; pressure blames the
      culprit, from the start of the first of those windows to the end of this one. */
  lemma SignalSays(before: seq<Snapshot>, s: Snapshot, floor: real, sustain: nat, x: Verdict)
    requires x in ExpectedMem(before, s, floor, sustain)
    ensures x.snapshot == s
    ensures x.oom ==> x.window == s.window && forall v :: v in s.victims ==> v.oomKills <= x.culprit.oomKills
    ensures x.oom ==> x.culprit in s.victims || x.culprit == NOBODY
    ensures !x.oom ==> 1 <= sustain <= |before + [s]| && x.culprit == Culprit(s.procs)
    ensures !x.oom ==>
      var from, to := (before + [s])[|before + [s]| - sustain].window, s.window;
      && from.start.Some? && from.end.Some? && to.end.Some?
      && (from.end.value <= to.end.value ==>
            x.window == Window(from.start, to.end, to.end.value - from.start.value))
  {
    RunIsPressed(before + [s], floor);
    WorstVictim(s.victims);
    if !x.oom {
      RunRestarts(before, s, floor);
      PressedIsOrdinary(s, floor);
      assert Pressed((before + [s])[|before + [s]| - sustain], floor);
    }
  }

  class Detector {
    const floor: real
    const sustain: nat
    var count: nat
    var firstSeen: Window
    var fired: bool

    ghost predicate Tracks(snaps: seq<Snapshot>)
      reads this
    {
      var run := PressureRun(snaps, floor);
      && sustain >= 1 && count == |run| && (run != [] ==> firstSeen == run[0]) && (fired <==> |run| >= sustain)
    }

    constructor (floor: real, sustain: int)
      ensures this.floor == floor && this.sustain == (if sustain < 1 then 1 else sustain) && Tracks([])
    {
      this.floor := floor;
      this.sustain := if sustain < 1 then 1 else sustain;
      count, firstSeen, fired := 0, Window(None, None, 0), false;
    }

    /** Kills fire at once and restart the run; ordinary pressure fires exactly when its run of
        consecutive windows reaches `sustain`, over the window from the first of them. */
    method Detect(snap: Snapshot, ghost before: seq<Snapshot>) returns (signals: seq<Verdict>)
      requires Tracks(before)
      modifies `count, `firstSeen, `fired
      ensures signals == ExpectedMem(before, snap, floor, sustain)
      ensures Tracks(before + [snap])
    {
      RunRestarts(before, snap, floor);
      if !snap.window.Valid() {
        count, fired := 0, false;
        return [];
      }
      if snap.oomKills > 0 {
        count, fired := 0, false;
        var victim := PickWorst(Kills, snap.victims, NOBODY);
        return [Verdict(snap, victim, true, snap.window)];
      }
      var pressure := HasOrdinaryMemPressure(snap, floor);
      if !pressure {
        count, fired := 0, false;
        return [];
      }
      OrdinarySignals(before, snap, floor, sustain);
      if count == 0 {
        firstSeen := snap.window;
      }
      count := count + 1;
      if count >= sustain && !fired {
        fired := true;
        var culprit := PickCulprit(snap.procs);
        return [Verdict(snap, culprit, false, firstSeen.Extend(snap.window))];
      }
      return [];
    }
  }
}
