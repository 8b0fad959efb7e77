/** The I/O poller over the block maps: each poll extends the queue area of a device to the poll
    boundary and reports the difference to its previous snapshot. */
module BlockPoll {
  import opened FiniteSums
  import opened BlockHistory
  import opened BlockQueue
  import opened Common
  import LogHistogram

  /** The area of a snapshot: the stored area, extended to the poll time at the current depth. */
  function Extended(d: DevStat, poll: nat): nat {
    if poll > d.queueLastNs && d.inflight > 0 then d.queueAreaNs + (poll - d.queueLastNs) * d.inflight
    else d.queueAreaNs
  }

  /** The user-space snapshot of a device at a poll. */
  function Snapshot(d: DevStat, poll: nat): DevStat {
    d.(queueAreaNs := Extended(d, poll), queueLastNs := poll)
  }

  function Snapshots(devs: map<nat, DevStat>, poll: nat): map<nat, DevStat> {
    map dev | dev in devs :: Snapshot(devs[dev], poll)
  }

  function Previous(prev: map<nat, DevStat>, dev: nat): DevStat {
    if dev in prev then prev[dev] else DevStat(0, 0, 0, 0, 0, 0, seq(NSLOTS, _ => 0))
  }

  /** The queue area that a poll reports of a device. */
  function AreaDelta(v: DevStat, p: DevStat): nat {
    CounterDelta(v.queueAreaNs, p.queueAreaNs)
  }

  // ------------------------------------------------------------------ handlers and polls interleaved

  /** The maps, the poller's last snapshots, and the sum of the area deltas reported so far of one device. */
  datatype World = World(maps: Maps, prev: map<nat, DevStat>, reportedArea: nat)

  function PrevArea(w: World, dev: nat): nat {
    Previous(w.prev, dev).queueAreaNs
  }

  datatype Step = Kern(e: Event) | Poll(at: nat)

  ghost function Next(w: World, s: Step, dev: nat): World
    requires Sized(w.maps)
  {
    match s
    case Kern(e) => w.(maps := Handle(w.maps, e))
    case Poll(at) =>
      var cur := Snapshots(w.maps.devs, at);
      World(w.maps, cur, w.reportedArea + if dev in cur then AreaDelta(cur[dev], Previous(w.prev, dev)) else 0)
  }

  /** Handlers and polls in any order, with any clock readings but 0. */
  ghost predicate IsRun(run: seq<World>, steps: seq<Step>, dev: nat) {
    && |run| == |steps| + 1
    && run[0] == World(EMPTY, map[], 0)
    && (forall i :: 0 <= i < |steps| ==> Sized(run[i].maps) && run[i + 1] == Next(run[i], steps[i], dev))
    && (forall i :: 0 <= i < |steps| && steps[i].Kern? ==> steps[i].e.now > 0)
  }

  // ------------------------------------------------------------------ what the polls report

  /** How far a snapshot lies above the integral: a device event later than the poll has already been
      accounted, and the depth since the poll is not taken back. */
  ghost function Ahead(m: Maps, dev: nat, at: nat): nat {
    if dev in m.devs then StepBack(m.devs[dev], at) else 0
  }

  /** The poll finds a smaller area than the one before. */
  ghost predicate Drops(w: World, s: Step, dev: nat) {
    s.Poll? && dev in w.maps.devs && Extended(w.maps.devs[dev], s.at) < PrevArea(w, dev)
  }

  /** The snapshots that were forgotten because the next one was smaller. */
  ghost function Forgotten(run: seq<World>, steps: seq<Step>, dev: nat, i: nat): nat
    requires i <= |steps| && |run| == |steps| + 1
  {
    if i == 0 then 0
    else
      Forgotten(run, steps, dev, i - 1)
      + if Drops(run[i - 1], steps[i - 1], dev) then PrevArea(run[i - 1], dev) else 0
  }

  /** The skew of the handlers' clocks, up to a point of the run. */
  ghost function SkewUpTo(run: seq<World>, steps: seq<Step>, dev: nat, i: nat): int
    requires i <= |steps| && |run| == |steps| + 1
  {
    if i == 0 then 0
    else SkewUpTo(run, steps, dev, i - 1) + if steps[i - 1].Kern? then Skew(run[i - 1].maps, steps[i - 1].e, dev) else 0
  }

  ghost predicate Inv(w: World, dev: nat, skew: int, forgotten: nat) {
    && Sized(w.maps) && Started(w.maps) && Certified(w.maps, dev)
    && Gap(w.maps, dev) == skew
    && w.reportedArea == PrevArea(w, dev) + forgotten
    && (dev !in w.maps.devs ==> PrevArea(w, dev) == 0)
  }

  lemma KernInv(w: World, e: Event, dev: nat, skew: int, forgotten: nat)
    requires Inv(w, dev, skew, forgotten) && e.now > 0
    requires Handle(w.maps, e).health.mapUpdateFail == w.maps.health.mapUpdateFail
    ensures Inv(Next(w, Kern(e), dev), dev, skew + Skew(w.maps, e, dev), forgotten)
  {
    StepCertified(w.maps, e, dev);
    StepGap(w.maps, e, dev);
    DevicesStay(w.maps, e, dev);
  }

  lemma DevicesStay(m: Maps, e: Event, dev: nat)
    requires Sized(m)
    ensures dev in m.devs ==> dev in Handle(m, e).devs
  {}

  lemma {:induction false} RunInv(run: seq<World>, steps: seq<Step>, dev: nat, i: nat)
    requires IsRun(run, steps, dev) && i < |run| && run[i].maps.health.mapUpdateFail == 0
    ensures Inv(run[i], dev, SkewUpTo(run, steps, dev, i), Forgotten(run, steps, dev, i))
  {
    if i == 0 {
      NothingYet(dev);
    } else {
      var w, s := run[i - 1], steps[i - 1];
      assert run[i] == Next(w, s, dev);
      if s.Kern? { FailuresGrow(w.maps, s.e); }
      RunInv(run, steps, dev, i - 1);
      if s.Kern? { KernInv(w, s.e, dev, SkewUpTo(run, steps, dev, i - 1), Forgotten(run, steps, dev, i - 1)); }
    }
  }

  /** A snapshot is the integral at the poll time, plus what the device is ahead of the poll. */
  lemma SnapshotIsIntegral(m: Maps, dev: nat, at: nat)
    requires dev in m.devs
    ensures Extended(m.devs[dev], at) == AreaAt(m, dev, at) + Ahead(m, dev, at)
  {
    var d := m.devs[dev];
    if d.inflight == 0 {
      assert (at - d.queueLastNs) * d.inflight == 0 && (d.queueLastNs - at) * d.inflight == 0;
    } else {
      assert (d.queueLastNs - at) * d.inflight == -((at - d.queueLastNs) * d.inflight);
    }
  }

  /** What the polls report, with no assumption on any clock: in every run without a failed map update,
      right after a poll at time `at` the queue-area deltas reported since the start are the residence
      time of the device's requests up to `at`, finished and in flight, plus the skew of the handlers'
      clocks, plus what the device is ahead of the poll, plus the snapshots forgotten by smaller ones. */
  lemma ReportedAreaIs(run: seq<World>, steps: seq<Step>, dev: nat, i: nat)
    requires IsRun(run, steps, dev) && i < |steps| && steps[i].Poll?
    requires run[i].maps.health.mapUpdateFail == 0
    ensures run[i + 1].reportedArea
         == ResidenceAt(run[i].maps, dev, steps[i].at) + SkewUpTo(run, steps, dev, i)
            + Ahead(run[i].maps, dev, steps[i].at) + Forgotten(run, steps, dev, i + 1)
  {
    var at := steps[i].at;
    RunInv(run, steps, dev, i);
    assert run[i + 1] == Next(run[i], steps[i], dev);
    RunInv(run, steps, dev, i + 1);
    GapIsDifference(run[i].maps, dev, at);
    if dev in run[i].maps.devs {
      SnapshotIsIntegral(run[i].maps, dev, at);
    }
  }

  // ------------------------------------------------------------------ when that is exact

  /** The handlers of the device run in the order of their clocks. */
  ghost predicate HandlersInOrder(run: seq<World>, steps: seq<Step>, dev: nat, i: nat)
    requires i <= |steps| && |run| == |steps| + 1
  {
    forall j :: 0 <= j < i && steps[j].Kern? ==> InOrder(run[j].maps, steps[j].e, dev)
  }

  lemma {:induction false} NoSkew(run: seq<World>, steps: seq<Step>, dev: nat, i: nat)
    requires i <= |steps| && |run| == |steps| + 1 && HandlersInOrder(run, steps, dev, i)
    ensures SkewUpTo(run, steps, dev, i) == 0
  {
    if i > 0 { NoSkew(run, steps, dev, i - 1); }
  }

  lemma {:induction false} ForgottenIffDropped(run: seq<World>, steps: seq<Step>, dev: nat, i: nat)
    requires i <= |steps| && |run| == |steps| + 1
    ensures Forgotten(run, steps, dev, i) == 0 <==> forall j :: 0 <= j < i ==> !Drops(run[j], steps[j], dev)
  {
    if i > 0 { ForgottenIffDropped(run, steps, dev, i - 1); }
  }

  /** With the handlers in clock order, and a poll not earlier than the device's last event, the total is
      the residence time if and only if no poll so far found a smaller area than the one before it. */
  lemma ReportedAreaExactIff(run: seq<World>, steps: seq<Step>, dev: nat, i: nat)
    requires IsRun(run, steps, dev) && i < |steps| && steps[i].Poll?
    requires run[i].maps.health.mapUpdateFail == 0
    requires HandlersInOrder(run, steps, dev, i)
    requires dev in run[i].maps.devs ==> run[i].maps.devs[dev].queueLastNs <= steps[i].at
    ensures run[i + 1].reportedArea == ResidenceAt(run[i].maps, dev, steps[i].at)
            <==> forall j :: 0 <= j <= i ==> !Drops(run[j], steps[j], dev)
  {
    ReportedAreaIs(run, steps, dev, i);
    NoSkew(run, steps, dev, i);
    ForgottenIffDropped(run, steps, dev, i + 1);
  }

  // ------------------------------------------------------------------ clocks in order, polls included

  /** The latest clock reading on the device, handlers and polls alike. */
  ghost function Latest(run: seq<World>, steps: seq<Step>, dev: nat, i: nat): nat
    requires i <= |steps| && |run| == |steps| + 1
  {
    if i == 0 then 0 else
      match steps[i - 1]
      case Poll(at) => at
      case Kern(e) => if Touched(run[i - 1].maps, e) == Some(dev) then e.now else Latest(run, steps, dev, i - 1)
  }

  /** The order the design relies on: no handler of the device that reads its clock before a poll, or
      before another handler, gets to the device after it. */
  ghost predicate Ordered(run: seq<World>, steps: seq<Step>, dev: nat)
    requires |run| == |steps| + 1
  {
    forall i :: 0 <= i < |steps| ==> OrderedAt(run, steps, dev, i)
  }

  ghost predicate OrderedAt(run: seq<World>, steps: seq<Step>, dev: nat, i: nat)
    requires i < |steps| && |run| == |steps| + 1
  {
    match steps[i]
    case Poll(at) => at >= Latest(run, steps, dev, i)
    case Kern(e) => Touched(run[i].maps, e) == Some(dev) ==> e.now >= Latest(run, steps, dev, i)
  }

  /** Nothing on the device lies after the latest clock reading, and the last snapshot is not above the
      integral at that time. */
  ghost predicate Behind(w: World, dev: nat, clock: nat) {
    && PrevArea(w, dev) <= AreaAt(w.maps, dev, clock)
    && (dev in w.maps.devs ==> w.maps.devs[dev].queueLastNs <= clock)
    && forall rq :: rq in Tracked(w.maps, dev) ==> w.maps.start[rq].firstIssueNs <= clock
  }

  lemma AreaGrows(m: Maps, dev: nat, t: nat, u: nat)
    requires t <= u
    ensures AreaAt(m, dev, t) <= AreaAt(m, dev, u)
  {
    if dev in m.devs {
      var d := m.devs[dev];
      assert (u - d.queueLastNs) * d.inflight - (t - d.queueLastNs) * d.inflight == (u - t) * d.inflight;
    }
  }

  lemma AccountExact(d: DevStat, now: nat)
    requires 0 < d.queueLastNs <= now
    ensures Account(d, now).queueAreaNs == d.queueAreaNs + (now - d.queueLastNs) * d.inflight
  {}

  /** A handler that touches the device leaves its area accounted up to the handler's time. */
  lemma HandlerAccounts(m: Maps, e: Event, dev: nat)
    requires Sized(m) && Certified(m, dev) && Touched(m, e) == Some(dev)
    requires Handle(m, e).health.mapUpdateFail == m.health.mapUpdateFail
    ensures dev in Handle(m, e).devs && Handle(m, e).devs[dev].queueLastNs == e.now
    ensures Handle(m, e).devs[dev].queueAreaNs
         == Account(if dev in m.devs then m.devs[dev] else NewDev(e.now), e.now).queueAreaNs
  {}

  lemma AreaAtLast(m: Maps, dev: nat)
    requires dev in m.devs
    ensures AreaAt(m, dev, m.devs[dev].queueLastNs) == m.devs[dev].queueAreaNs
  {}

  /** In clock order that leaves the integral at the handler's time as it was. */
  lemma HandlerKeepsArea(m: Maps, e: Event, dev: nat)
    requires Sized(m) && Started(m) && Certified(m, dev) && e.now > 0
    requires Touched(m, e) == Some(dev) && (dev in m.devs ==> m.devs[dev].queueLastNs <= e.now)
    requires Handle(m, e).health.mapUpdateFail == m.health.mapUpdateFail
    ensures dev in Handle(m, e).devs && Handle(m, e).devs[dev].queueLastNs == e.now
    ensures AreaAt(Handle(m, e), dev, e.now) == AreaAt(m, dev, e.now)
  {
    HandlerAccounts(m, e, dev);
    AccountExact(if dev in m.devs then m.devs[dev] else NewDev(e.now), e.now);
    AreaAtLast(Handle(m, e), dev);
  }

  lemma HandlerStaysBehind(w: World, e: Event, dev: nat, clock: nat)
    requires Sized(w.maps) && Started(w.maps) && Certified(w.maps, dev) && Behind(w, dev, clock)
    requires e.now > 0 && Touched(w.maps, e) == Some(dev) && e.now >= clock
    requires Handle(w.maps, e).health.mapUpdateFail == w.maps.health.mapUpdateFail
    ensures Behind(Next(w, Kern(e), dev), dev, e.now)
  {
    HandlerKeepsArea(w.maps, e, dev);
    AreaGrows(w.maps, dev, clock, e.now);
    TrackedAfter(w.maps, e, dev);
  }

  lemma OtherStaysBehind(w: World, e: Event, dev: nat, clock: nat)
    requires Sized(w.maps) && Behind(w, dev, clock) && Touched(w.maps, e) != Some(dev)
    ensures Behind(Next(w, Kern(e), dev), dev, clock)
  {
    TrackedAfter(w.maps, e, dev);
    assert dev in Handle(w.maps, e).devs <==> dev in Handle(w.maps, e).devs.Keys * {dev};
  }

  lemma PollStaysBehind(w: World, at: nat, dev: nat, clock: nat)
    requires Sized(w.maps) && Behind(w, dev, clock) && at >= clock
    ensures Behind(Next(w, Poll(at), dev), dev, at)
    ensures PrevArea(w, dev) <= PrevArea(Next(w, Poll(at), dev), dev) && !Drops(w, Poll(at), dev)
  {
    AreaGrows(w.maps, dev, clock, at);
    if dev in w.maps.devs { SnapshotIsIntegral(w.maps, dev, at); }
  }

  lemma {:induction false} RunBehind(run: seq<World>, steps: seq<Step>, dev: nat, i: nat)
    requires IsRun(run, steps, dev) && Ordered(run, steps, dev) && i < |run| && run[i].maps.health.mapUpdateFail == 0
    ensures Behind(run[i], dev, Latest(run, steps, dev, i))
  {
    if i == 0 {
      NothingYet(dev);
    } else {
      var w, s, clock := run[i - 1], steps[i - 1], Latest(run, steps, dev, i - 1);
      assert run[i] == Next(w, s, dev) && OrderedAt(run, steps, dev, i - 1);
      if s.Kern? { FailuresGrow(w.maps, s.e); }
      RunBehind(run, steps, dev, i - 1);
      RunInv(run, steps, dev, i - 1);
      match s
      case Poll(at) => PollStaysBehind(w, at, dev, clock);
      case Kern(e) =>
        if Touched(w.maps, e) == Some(dev) {
          HandlerStaysBehind(w, e, dev, clock);
        } else {
          OtherStaysBehind(w, e, dev, clock);
        }
    }
  }

  /** With all clocks in order no poll finds a smaller area than the one before it. */
  lemma OrderedNeverDrops(run: seq<World>, steps: seq<Step>, dev: nat, i: nat)
    requires IsRun(run, steps, dev) && Ordered(run, steps, dev)
    requires i < |steps| && run[i].maps.health.mapUpdateFail == 0
    ensures PrevArea(run[i], dev) <= PrevArea(run[i + 1], dev) && !Drops(run[i], steps[i], dev)
  {
    assert run[i + 1] == Next(run[i], steps[i], dev) && OrderedAt(run, steps, dev, i);
    RunBehind(run, steps, dev, i);
    SnapshotGrows(run[i], steps[i], dev, Latest(run, steps, dev, i));
  }

  /** Snapshots never go back: from one poll to any later one the area of the device only grows. */
  lemma {:induction false} SnapshotsMonotone(run: seq<World>, steps: seq<Step>, dev: nat, i: nat, j: nat)
    requires IsRun(run, steps, dev) && Ordered(run, steps, dev)
    requires i <= j < |run| && run[j].maps.health.mapUpdateFail == 0
    ensures PrevArea(run[i], dev) <= PrevArea(run[j], dev)
    decreases j
  {
    if i < j {
      FailuresOnlyGrow(run, steps, dev, j - 1, j);
      SnapshotsMonotone(run, steps, dev, i, j - 1);
      OrderedNeverDrops(run, steps, dev, j - 1);
    }
  }

  lemma SnapshotGrows(w: World, s: Step, dev: nat, clock: nat)
    requires Sized(w.maps) && Behind(w, dev, clock) && (s.Poll? ==> s.at >= clock)
    ensures PrevArea(w, dev) <= PrevArea(Next(w, s, dev), dev) && !Drops(w, s, dev)
  {
    if s.Poll? { PollStaysBehind(w, s.at, dev, clock); }
  }

  lemma OrderedHandlers(run: seq<World>, steps: seq<Step>, dev: nat, i: nat)
    requires IsRun(run, steps, dev) && Ordered(run, steps, dev) && i < |run| && run[i].maps.health.mapUpdateFail == 0
    ensures HandlersInOrder(run, steps, dev, i)
  {
    forall j | 0 <= j < i && steps[j].Kern? ensures InOrder(run[j].maps, steps[j].e, dev) {
      FailuresOnlyGrow(run, steps, dev, j, i);
      RunBehind(run, steps, dev, j);
      assert OrderedAt(run, steps, dev, j);
    }
  }

  lemma {:induction false} FailuresOnlyGrow(run: seq<World>, steps: seq<Step>, dev: nat, i: nat, j: nat)
    requires IsRun(run, steps, dev) && i <= j < |run|
    ensures run[i].maps.health.mapUpdateFail <= run[j].maps.health.mapUpdateFail
    decreases j
  {
    if i < j {
      FailuresOnlyGrow(run, steps, dev, i, j - 1);
      assert run[j] == Next(run[j - 1], steps[j - 1], dev);
      if steps[j - 1].Kern? { FailuresGrow(run[j - 1].maps, steps[j - 1].e); }
    }
  }

  /** The poll deltas telescope to the truth: with the clocks in order, right after any poll the deltas
      reported since the start add up to the residence time of the device's requests up to it. */
  lemma ReportedAreaIsResidence(run: seq<World>, steps: seq<Step>, dev: nat, i: nat)
    requires IsRun(run, steps, dev) && Ordered(run, steps, dev) && i < |steps| && steps[i].Poll?
    requires run[i].maps.health.mapUpdateFail == 0
    ensures run[i + 1].reportedArea == ResidenceAt(run[i].maps, dev, steps[i].at)
  {
    assert run[i + 1] == Next(run[i], steps[i], dev);
    OrderedHandlers(run, steps, dev, i);
    RunBehind(run, steps, dev, i);
    assert OrderedAt(run, steps, dev, i);
    forall j | 0 <= j <= i ensures !Drops(run[j], steps[j], dev) {
      FailuresOnlyGrow(run, steps, dev, j, i);
      OrderedNeverDrops(run, steps, dev, j);
    }
    ReportedAreaExactIff(run, steps, dev, i);
  }

  // ------------------------------------------------------------------ a handler overtaken by a poll

  /** A handler that read its clock before a poll but got the lock after it: the request issued at 50 is
      polled at 100 (area 50) and completed with the time 90 (area 40), so the poll at 200 finds a
      smaller area and the counter delta reports the whole 40 again: 90 for a residence of 40. The
      handlers are in order; the poll at 200 is the one that drops. */
  lemma LateHandlerDropsSnapshot() returns (run: seq<World>, steps: seq<Step>)
    ensures steps == [Kern(Arm(1)), Kern(Issue(1, 50, 512, 8, true, true)), Poll(100),
                      Kern(Complete(1, 90, false, 512, 512, 1)), Poll(200)]
    ensures IsRun(run, steps, 8) && run[4].maps.health.mapUpdateFail == 0
    ensures ResidenceAt(run[4].maps, 8, 200) == 40 && Drops(run[4], steps[4], 8) && run[5].reportedArea == 90
  {
    run, steps := PolledInFlight();
    OvertakenByPoll(run[3]);
    run, steps := Extend(run, steps, Kern(Complete(1, 90, false, 512, 512, 1)), 8);
    OvertakenDrops(run[4]);
    run, steps := Extend(run, steps, Poll(200), 8);
  }

  lemma Extend(run: seq<World>, steps: seq<Step>, s: Step, dev: nat) returns (run': seq<World>, steps': seq<Step>)
    requires IsRun(run, steps, dev) && Sized(run[|steps|].maps) && (s.Kern? ==> s.e.now > 0)
    ensures steps' == steps + [s] && run' == run + [Next(run[|steps|], s, dev)]
    ensures IsRun(run', steps', dev) && Sized(run'[|steps'|].maps)
  {
    run', steps' := run + [Next(run[|steps|], s, dev)], steps + [s];
  }

  /** The request is in flight and has been polled. */
  ghost predicate InFlight(w: World) {
    && Sized(w.maps) && w.maps.start == map[1 := RequestState(50, 512, 0, 0, 8, true)] && 8 in w.maps.devs
    && w.maps.devs[8].queueAreaNs == 0 == w.maps.devs[8].totalLatNs && w.maps.devs[8].queueLastNs == 50
    && w.maps.devs[8].inflight == 1 && w.maps.health.mapUpdateFail == 0 && PrevArea(w, 8) == w.reportedArea == 50
  }

  /** It has completed with the earlier time. */
  ghost predicate Overtaken(w: World) {
    && Sized(w.maps) && w.maps.start == map[] && 8 in w.maps.devs
    && w.maps.devs[8].queueAreaNs == 40 == w.maps.devs[8].totalLatNs && w.maps.devs[8].inflight == 0
    && w.maps.health.mapUpdateFail == 0 && PrevArea(w, 8) == w.reportedArea == 50
  }

  lemma PolledInFlight() returns (run: seq<World>, steps: seq<Step>)
    ensures steps == [Kern(Arm(1)), Kern(Issue(1, 50, 512, 8, true, true)), Poll(100)]
    ensures IsRun(run, steps, 8) && InFlight(run[3])
  {
    run, steps := [World(EMPTY, map[], 0)], [];
    run, steps := Extend(run, steps, Kern(Arm(1)), 8);
    run, steps := Extend(run, steps, Kern(Issue(1, 50, 512, 8, true, true)), 8);
    run, steps := Extend(run, steps, Poll(100), 8);
  }

  lemma OvertakenByPoll(w: World)
    requires InFlight(w)
    ensures Overtaken(Next(w, Kern(Complete(1, 90, false, 512, 512, 1)), 8))
  {}

  lemma OvertakenDrops(w: World)
    requires Overtaken(w)
    ensures ResidenceAt(w.maps, 8, 200) == 40 && Drops(w, Poll(200), 8) && Next(w, Poll(200), 8).reportedArea == 90
  {
    assert Tracked(w.maps, 8) == {};
  }

  // ------------------------------------------------------------------ the poller

  ghost function InflightOf(cur: map<nat, DevStat>): nat -> int {
    dev => if dev in cur then cur[dev].inflight else 0
  }

  ghost function AreaDeltaOf(cur: map<nat, DevStat>, prev: map<nat, DevStat>): nat -> int {
    dev => if dev in cur then AreaDelta(cur[dev], Previous(prev, dev)) else 0
  }

  /** What one device contributes to a poll; a device without completions gets no sample. */
  datatype Sample = Sample(
    count: nat, latencyNs: nat, bytes: nat, areaNs: nat, depth: nat, p99Ns: nat, maxNs: nat)

  predicate Slotted(devs: map<nat, DevStat>) {
    forall dev :: dev in devs ==> |devs[dev].slots| == NSLOTS
  }

  ghost function SampleOf(v: DevStat, p: DevStat): Sample
    requires |v.slots| == |p.slots| == NSLOTS
  {
    var count := CounterDelta(v.count, p.count);
    Sample(count, CounterDelta(v.totalLatNs, p.totalLatNs),
           CounterDelta(v.bytes, p.bytes), AreaDelta(v, p), v.inflight,
           LogHistogram.P99Between(v.slots, p.slots, count),
           LogHistogram.Highest(LogHistogram.CounterDeltas(v.slots, p.slots)))
  }

  ghost function Samples(cur: map<nat, DevStat>, prev: map<nat, DevStat>): map<nat, Sample>
    requires Slotted(cur) && Slotted(prev)
  {
    map dev | dev in cur && CounterDelta(cur[dev].count, Previous(prev, dev).count) != 0 ::
      SampleOf(cur[dev], Previous(prev, dev))
  }

  // ------------------------------------------------------------------ what a sample says

  /** The latencies of the requests that finished between two points of a run. */
  ghost function Window(evs: seq<Event>, i: nat, j: nat, dev: nat): seq<nat>
    requires i <= j <= |evs|
  {
    LatenciesGrow(evs, i, j, dev);
    Latencies(evs[..j], dev)[|Latencies(evs[..i], dev)|..]
  }

  lemma {:induction false} TotalOfSplit(a: seq<nat>, b: seq<nat>)
    ensures TotalOf(a + b) == TotalOf(a) + TotalOf(b)
    decreases |b|
  {
    if b == [] {
      assert a + b == a;
    } else {
      assert (a + b)[..|a + b| - 1] == a + b[..|b| - 1];
      TotalOfSplit(a, b[..|b| - 1]);
    }
  }

  /** The earlier of the two entries tells the latencies before the window. */
  lemma PreviousTells(run: seq<Maps>, evs: seq<Event>, i: nat, dev: nat, at: nat)
    requires BlockQueue.IsRun(run, evs) && run[0] == EMPTY && i < |run|
    ensures Tells(Previous(Snapshots(run[i].devs, at), dev), Latencies(evs[..i], dev), DoneBytes(evs[..i], dev))
  {
    DevicesAreHistory(run, evs, i, dev);
  }

  /** The sample of a device between two polls, on every run and told by the handler events alone: as many
      requests as have finished on it in between, with the sum of their times from issue to completion and
      the bytes they moved, and as deep as requests have been issued and not finished, which while no update
      has failed are the tracked ones. Its 99th percentile and maximum lie at most 2 v - 1 above, and not
      below, the nearest-rank percentile and the longest time v, while those fit the histogram. */
  lemma SampleTellsWindow(run: seq<Maps>, evs: seq<Event>, i: nat, j: nat, dev: nat, at1: nat, at2: nat)
    requires BlockQueue.IsRun(run, evs) && run[0] == EMPTY && i <= j < |run| && dev in run[j].devs
    ensures var window := Window(evs, i, j, dev);
      var s := SampleOf(Snapshot(run[j].devs[dev], at2), Previous(Snapshots(run[i].devs, at1), dev));
      && s.count == |window| && s.latencyNs == TotalOf(window)
      && s.bytes == DoneBytes(evs[..j], dev) - DoneBytes(evs[..i], dev)
      && s.depth == Depth(evs[..j], dev) && (run[j].health.mapUpdateFail == 0 ==> s.depth == |Tracked(run[j], dev)|)
      && s.areaNs == AreaDeltaOf(Snapshots(run[j].devs, at2), Snapshots(run[i].devs, at1))(dev)
      && (forall v | 0 < |window| && |window| * 99 + 99 < UINT64
                     && LogHistogram.IsNearestRank(window, (|window| * 99 + 99) / 100, v) ::
            Brackets(s.p99Ns, v))
      && (forall v | v in window && (forall x :: x in window ==> x <= v) :: Brackets(s.maxNs, v))
  {
    var cur, prev := Snapshot(run[j].devs[dev], at2), Previous(Snapshots(run[i].devs, at1), dev);
    var before, window := Latencies(evs[..i], dev), Window(evs, i, j, dev);
    LatenciesGrow(evs, i, j, dev);
    assert before + window == Latencies(evs[..j], dev);
    PreviousTells(run, evs, i, dev, at1);
    DevicesAreHistory(run, evs, j, dev);
    if run[j].health.mapUpdateFail == 0 { EveryRunCertified(run, evs, j, dev); }
    TwoEntriesTell(cur, prev, before, window, DoneBytes(evs[..j], dev), DoneBytes(evs[..i], dev));
  }

  lemma {:induction false} SlottedAt(run: seq<Maps>, evs: seq<Event>, i: nat, at: nat)
    requires BlockQueue.IsRun(run, evs) && run[0] == EMPTY && i < |run|
    ensures Slotted(Snapshots(run[i].devs, at))
  {
    if i > 0 { SlottedAt(run, evs, i - 1, at); }
  }

  /** A device gets a sample if and only if a request has finished on it since the last poll. */
  lemma SampledIffFinished(run: seq<Maps>, evs: seq<Event>, i: nat, j: nat, dev: nat, at1: nat, at2: nat)
    requires BlockQueue.IsRun(run, evs) && run[0] == EMPTY && i <= j < |run|
    ensures Slotted(Snapshots(run[i].devs, at1)) && Slotted(Snapshots(run[j].devs, at2))
    ensures var samples := Samples(Snapshots(run[j].devs, at2), Snapshots(run[i].devs, at1));
      dev in samples <==> Window(evs, i, j, dev) != []
  {
    SlottedAt(run, evs, i, at1);
    SlottedAt(run, evs, j, at2);
    if dev in run[j].devs {
      SampleTellsWindow(run, evs, i, j, dev, at1, at2);
    } else {
      assert Latencies(evs[..j], dev) == [] by { DevicesAreHistory(run, evs, j, dev); }
      LatenciesGrow(evs, i, j, dev);
    }
  }

  lemma TwoEntriesTell(cur: DevStat, prev: DevStat, before: seq<nat>, window: seq<nat>, bytes: nat, bytesBefore: nat)
    requires bytesBefore <= bytes && |cur.slots| == NSLOTS && LogHistogram.IsHistogram(cur.slots, before + window)
    requires cur.count == |before + window| && cur.totalLatNs == TotalOf(before + window) && cur.bytes == bytes
    requires Tells(prev, before, bytesBefore)
    ensures var s := SampleOf(cur, prev);
      && s.count == |window| && s.latencyNs == TotalOf(window) && s.bytes == bytes - bytesBefore
      && (forall v | 0 < |window| && |window| * 99 + 99 < UINT64
                     && LogHistogram.IsNearestRank(window, (|window| * 99 + 99) / 100, v) ::
            Brackets(s.p99Ns, v))
      && (forall v | v in window && (forall x :: x in window ==> x <= v) :: Brackets(s.maxNs, v))
  {
    TotalOfSplit(before, window);
    LogHistogram.WindowHistogram(cur.slots, prev.slots, before, window);
    forall v | 0 < |window| && |window| * 99 + 99 < UINT64
               && LogHistogram.IsNearestRank(window, (|window| * 99 + 99) / 100, v)
      ensures Brackets(SampleOf(cur, prev).p99Ns, v)
    {
      LogHistogram.WindowP99(cur.slots, prev.slots, before, window, SampleOf(cur, prev).p99Ns, v);
    }
    forall v | v in window && (forall x :: x in window ==> x <= v) ensures Brackets(SampleOf(cur, prev).maxNs, v) {
      LogHistogram.WindowMaximum(cur.slots, prev.slots, before, window, v);
    }
  }

  /** A snapshot can be extended again: up to any later poll it grows as the device itself would. */
  lemma SnapshotsCompose(d: DevStat, at: nat, later: nat)
    requires d.queueLastNs <= at <= later
    ensures Snapshot(Snapshot(d, at), later) == Snapshot(d, later)
  {
    assert (later - d.queueLastNs) * d.inflight == (at - d.queueLastNs) * d.inflight + (later - at) * d.inflight;
  }

  /** The tracked requests of these devices. */
  ghost function TrackedOn(m: Maps, devs: set<nat>): set<nat> {
    set rq | rq in m.start && m.start[rq].tracked && m.start[rq].dev in devs
  }

  lemma TrackedSplit(m: Maps, devs: set<nat>, dev: nat)
    requires dev in devs
    ensures |TrackedOn(m, devs)| == |TrackedOn(m, devs - {dev})| + |Tracked(m, dev)|
  {
    assert TrackedOn(m, devs) == TrackedOn(m, devs - {dev}) + Tracked(m, dev);
  }

  lemma {:induction false} GaugesCount(m: Maps, devs: set<nat>, at: nat)
    requires devs <= m.devs.Keys && forall dev :: dev in devs ==> m.devs[dev].inflight == |Tracked(m, dev)|
    ensures Sum(devs, InflightOf(Snapshots(m.devs, at))) == |TrackedOn(m, devs)|
  {
    if devs == {} {
      assert TrackedOn(m, devs) == {};
    } else {
      var dev :| dev in devs;
      SumRemove(devs, InflightOf(Snapshots(m.devs, at)), dev);
      GaugesCount(m, devs - {dev}, at);
      TrackedSplit(m, devs, dev);
    }
  }

  lemma OnItsDevice(m: Maps, rq: nat)
    requires rq in m.start && m.start[rq].tracked && Certified(m, m.start[rq].dev)
    ensures m.start[rq].dev in m.devs
  {
    assert rq in Tracked(m, m.start[rq].dev);
  }

  /** The total that a poll shows is the number of tracked requests in flight, whatever their device. */
  lemma GaugeIsInFlight(run: seq<Maps>, evs: seq<Event>, i: nat, at: nat)
    requires BlockQueue.IsRun(run, evs) && run[0] == EMPTY && i < |run| && run[i].health.mapUpdateFail == 0
    ensures Sum(run[i].devs.Keys, InflightOf(Snapshots(run[i].devs, at)))
         == |set rq | rq in run[i].start && run[i].start[rq].tracked|
  {
    var m := run[i];
    forall dev | dev in m.devs ensures m.devs[dev].inflight == |Tracked(m, dev)| {
      EveryRunCertified(run, evs, i, dev);
    }
    forall rq | rq in m.start && m.start[rq].tracked ensures m.start[rq].dev in m.devs {
      EveryRunCertified(run, evs, i, m.start[rq].dev);
      OnItsDevice(m, rq);
    }
    GaugesCount(m, m.devs.Keys, at);
    assert TrackedOn(m, m.devs.Keys) == set rq | rq in m.start && m.start[rq].tracked;
  }

  /** The reported value is not below the true one, if that fits the histogram, and less than twice of it. */
  predicate Brackets(reported: nat, v: nat) {
    && (reported >= v <==> v < LogHistogram.Pow2(NSLOTS))
    && reported <= if v == 0 then 1 else 2 * v - 1
  }

  class Poller {
    var prev: map<nat, DevStat>
    var lastInflight: int

    constructor ()
      ensures prev == map[] && lastInflight == 0
    {
      prev, lastInflight := map[], 0;
    }

    /** The snapshot loop over the device keys. */
    method SnapshotAll(devs: map<nat, DevStat>, poll: nat) returns (cur: map<nat, DevStat>)
      ensures cur == Snapshots(devs, poll)
    {
      cur := map[];
      var todo := devs.Keys;
      while todo != {}
        invariant todo <= devs.Keys && cur.Keys == devs.Keys - todo
        invariant forall dev :: dev in cur ==> cur[dev] == Snapshot(devs[dev], poll)
        decreases |todo|
      {
        var dev :| dev in todo;
        var val := devs[dev];
        if poll > val.queueLastNs && val.inflight > 0 {
          val := val.(queueAreaNs := val.queueAreaNs + (poll - val.queueLastNs) * val.inflight);
        }
        cur := cur[dev := val.(queueLastNs := poll)];
        todo := todo - {dev};
      }
    }

    /** One poll: the previous snapshots are replaced, each device with completions gets a sample of its
        differences to them, and in-flight gauges and area differences are totalled over all devices. */
    method Poll(devs: map<nat, DevStat>, poll: nat) returns (samples: map<nat, Sample>, totalArea: int)
      requires Slotted(prev) && Slotted(devs)
      modifies this
      ensures Slotted(prev) && samples == Samples(Snapshots(devs, poll), old(prev))
      ensures prev == Snapshots(devs, poll)
      ensures lastInflight == Sum(prev.Keys, InflightOf(prev))
      ensures totalArea == Sum(prev.Keys, AreaDeltaOf(prev, old(prev)))
    {
      var cur := SnapshotAll(devs, poll);
      var totalInflight;
      totalInflight, totalArea, samples := Totals(cur, prev);
      prev, lastInflight := cur, totalInflight;
    }
  }

  /** The totals and samples of the devices that are not in `todo`. */
  ghost predicate Totalled(cur: map<nat, DevStat>, prev: map<nat, DevStat>, todo: set<nat>,
      inflight: int, area: int, samples: map<nat, Sample>)
    requires Slotted(cur) && Slotted(prev)
  {
    && todo <= cur.Keys && samples == Samples(cur - todo, prev)
    && inflight + Sum(todo, InflightOf(cur)) == Sum(cur.Keys, InflightOf(cur))
    && area + Sum(todo, AreaDeltaOf(cur, prev)) == Sum(cur.Keys, AreaDeltaOf(cur, prev))
  }

  lemma SamplesGrow(cur: map<nat, DevStat>, prev: map<nat, DevStat>, todo: set<nat>, dev: nat)
    requires dev in todo && todo <= cur.Keys && Slotted(cur) && Slotted(prev)
    ensures var p := Previous(prev, dev);
      Samples(cur - (todo - {dev}), prev)
        == if CounterDelta(cur[dev].count, p.count) != 0 then Samples(cur - todo, prev)[dev := SampleOf(cur[dev], p)]
           else Samples(cur - todo, prev)
  {}

  lemma TotalledStep(cur: map<nat, DevStat>, prev: map<nat, DevStat>, todo: set<nat>, inflight: int, area: int,
                     samples: map<nat, Sample>, dev: nat)
    requires Slotted(cur) && Slotted(prev) && Totalled(cur, prev, todo, inflight, area, samples) && dev in todo
    ensures var v, p := cur[dev], Previous(prev, dev);
      Totalled(cur, prev, todo - {dev}, inflight + v.inflight, area + AreaDelta(v, p),
               if CounterDelta(v.count, p.count) != 0 then samples[dev := SampleOf(v, p)] else samples)
  {
    SumRemove(todo, InflightOf(cur), dev);
    SumRemove(todo, AreaDeltaOf(cur, prev), dev);
    SamplesGrow(cur, prev, todo, dev);
  }

  lemma TotalledEnds(cur: map<nat, DevStat>, prev: map<nat, DevStat>, inflight: int, area: int,
                     samples: map<nat, Sample>)
    requires Slotted(cur) && Slotted(prev)
    ensures Totalled(cur, prev, cur.Keys, 0, 0, map[])
    ensures Totalled(cur, prev, {}, inflight, area, samples) ==>
      && samples == Samples(cur, prev)
      && inflight == Sum(cur.Keys, InflightOf(cur)) && area == Sum(cur.Keys, AreaDeltaOf(cur, prev))
  {
    assert cur - cur.Keys == map[] && cur - {} == cur;
  }

  /** One device of the loop. */
  method SampleDevice(v: DevStat, p: DevStat) returns (sample: Sample)
    requires |v.slots| == |p.slots| == NSLOTS
    ensures sample == SampleOf(v, p)
  {
    var count := CounterDelta(v.count, p.count);
    var p99 := LogHistogram.P99FromSlots(v.slots, p.slots, count);
    var maximum := LogHistogram.MaxFromSnapshots(v.slots, p.slots);
    sample := Sample(count, CounterDelta(v.totalLatNs, p.totalLatNs), CounterDelta(v.bytes, p.bytes),
                     AreaDelta(v, p), v.inflight, p99, maximum);
  }

  /** The loop of a poll over the snapshots: the totals, and a sample for each device with completions. */
  method Totals(cur: map<nat, DevStat>, prev: map<nat, DevStat>)
    returns (inflight: int, area: int, samples: map<nat, Sample>)
    requires Slotted(cur) && Slotted(prev)
    ensures samples == Samples(cur, prev)
    ensures inflight == Sum(cur.Keys, InflightOf(cur))
    ensures area == Sum(cur.Keys, AreaDeltaOf(cur, prev))
  {
    inflight, area, samples := 0, 0, map[];
    var todo := cur.Keys;
    TotalledEnds(cur, prev, inflight, area, samples);
    while todo != {}
      invariant Totalled(cur, prev, todo, inflight, area, samples)
      decreases |todo|
    {
      var dev :| dev in todo;
      TotalledStep(cur, prev, todo, inflight, area, samples, dev);
      var v, p := cur[dev], Previous(prev, dev);
      inflight := inflight + if v.inflight > 0 then v.inflight else 0;
      area := area + AreaDelta(v, p);
      if CounterDelta(v.count, p.count) != 0 {
        var sample := SampleDevice(v, p);
        samples := samples[dev := sample];
      }
      todo := todo - {dev};
    }
    TotalledEnds(cur, prev, inflight, area, samples);
  }
}
