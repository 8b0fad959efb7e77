/** Starting the I/O collector on a live system: completion is attached first, then issue, then the
    boundary is read from the clock and written to the map, while requests keep being allocated,
    issued and completed. */
module BlockStartup {
  import opened BlockQueue
  import opened FiniteSums

  /** A live request: when it was allocated (`start_time_ns`, 0 on queues that keep no time) and
      whether the driver has it. */
  datatype Request = Request(startTimeNs: nat, issued: bool)

  datatype World = World(
    now: nat, maps: Maps, live: map<nat, Request>,
    completeOn: bool, issueOn: bool, issueOnAt: nat, boundaryRead: nat)

  datatype Step =
    | Tick(ns: nat)
    | Allocate(rq: nat, stamped: bool)
    | IssueRq(rq: nat, dataLen: nat, dev: nat, startFits: bool, devFits: bool)
    | CompleteRq(rq: nat, error: bool, nrBytes: nat, remaining: nat)
    | AttachComplete
    | AttachIssue
    | ReadBoundary
    | WriteBoundary

  /** Block-layer life cycle and constructor order: a pointer is reused only after its final
      completion, only issued requests complete (an issued request may be issued again), and the
      constructor goes complete, issue, read clock, arm. */
  predicate Allowed(w: World, s: Step) {
    match s
    case Tick(_) => true
    case Allocate(rq, _) => rq !in w.live
    case IssueRq(rq, _, _, _, _) => rq in w.live
    case CompleteRq(rq, _, _, _) => rq in w.live && w.live[rq].issued
    case AttachComplete => !w.completeOn
    case AttachIssue => w.completeOn && !w.issueOn
    case ReadBoundary => w.issueOn && w.boundaryRead == 0 && w.now > 0
    case WriteBoundary => w.boundaryRead > 0 && w.maps.boundary == 0
  }

  function Next(w: World, s: Step): World
    requires Allowed(w, s) && Sized(w.maps)
  {
    match s
    case Tick(ns) => w.(now := w.now + ns)
    case Allocate(rq, stamped) => w.(live := w.live[rq := Request(if stamped then w.now else 0, false)])
    case IssueRq(rq, dataLen, dev, startFits, devFits) =>
      var w' := w.(live := w.live[rq := w.live[rq].(issued := true)]);
      if w.issueOn then w'.(maps := OnIssue(w.maps, Issue(rq, w.now, dataLen, dev, startFits, devFits))) else w'
    case CompleteRq(rq, error, nr, remaining) =>
      var w' := if nr < remaining then w else w.(live := w.live - {rq});
      if w.completeOn
      then w'.(maps := OnComplete(w.maps, Complete(rq, w.now, error, nr, remaining, w.live[rq].startTimeNs)))
      else w'
    case AttachComplete => w.(completeOn := true)
    case AttachIssue => w.(issueOn := true, issueOnAt := w.now)
    case ReadBoundary => w.(boundaryRead := w.now)
    case WriteBoundary => w.(maps := Handle(w.maps, Arm(w.boundaryRead)))
  }

  ghost predicate Start(w: World) {
    && w.maps == EMPTY && !w.completeOn && !w.issueOn && w.boundaryRead == 0
    && forall rq :: rq in w.live ==> w.live[rq].startTimeNs <= w.now
  }

  ghost predicate IsRun(run: seq<World>, steps: seq<Step>) {
    && |run| == |steps| + 1
    && forall i :: 0 <= i < |steps| ==>
         Allowed(run[i], steps[i]) && Sized(run[i].maps) && run[i + 1] == Next(run[i], steps[i])
  }

  /** An in-flight request without a start entry was allocated before the issue hook was attached. */
  ghost predicate OnlyEarlyUnseen(w: World) {
    forall rq :: rq in w.live && w.live[rq].issued && rq !in w.maps.start ==>
      w.live[rq].startTimeNs <= if w.issueOn then w.issueOnAt else w.now
  }

  ghost predicate Inv(w: World) {
    && (w.issueOn ==> w.completeOn && w.issueOnAt <= w.now)
    && (w.boundaryRead > 0 ==> w.issueOn && w.issueOnAt <= w.boundaryRead <= w.now)
    && (w.maps.boundary == 0 || w.maps.boundary == w.boundaryRead)
    && (forall rq :: rq in w.live ==> w.live[rq].startTimeNs <= w.now)
    && (forall rq :: rq in w.maps.start ==> w.issueOn && rq in w.live && w.live[rq].issued)
    && (w.maps.health.mapUpdateFail == 0 ==>
          && OnlyEarlyUnseen(w)
          && (w.maps.health.completionMiss > 0 ==> w.maps.boundary > 0 && w.boundaryRead == w.issueOnAt))
  }

  lemma IssueInv(w: World, s: Step)
    requires Inv(w) && s.IssueRq? && Allowed(w, s) && Sized(w.maps)
    ensures Inv(Next(w, s))
  {
    var w' := Next(w, s);
    if w'.maps.health.mapUpdateFail == 0 {
      assert w.maps.health.mapUpdateFail == 0;
      assert w.issueOn ==> s.rq in w'.maps.start;
    }
  }

  lemma CompleteInv(w: World, s: Step)
    requires Inv(w) && s.CompleteRq? && Allowed(w, s) && Sized(w.maps)
    ensures Inv(Next(w, s))
  {
    var w' := Next(w, s);
    if w'.maps.health.mapUpdateFail == 0 {
      assert w.maps.health.mapUpdateFail == 0;
      assert forall rq :: rq in w'.live && rq !in w'.maps.start ==> rq in w.live && rq !in w.maps.start;
    }
  }

  lemma StepInv(w: World, s: Step)
    requires Inv(w) && Allowed(w, s) && Sized(w.maps)
    ensures Inv(Next(w, s))
  {
    match s
    case IssueRq(_, _, _, _, _) => IssueInv(w, s);
    case CompleteRq(_, _, _, _) => CompleteInv(w, s);
    case _ =>
  }

  lemma {:induction false} RunInv(run: seq<World>, steps: seq<Step>, i: nat)
    requires IsRun(run, steps) && Start(run[0]) && i < |run|
    ensures Inv(run[i])
  {
    if i > 0 {
      RunInv(run, steps, i - 1);
      StepInv(run[i - 1], steps[i - 1]);
    }
  }

  /** The startup handshake charges only real losses: without a failed map update no completion is
      ever counted as missed, for every run that attaches completion, then issue, then arms, provided
      the clock advanced between attaching the issue hook and reading the boundary. */
  lemma NoFalseCompletionMiss(run: seq<World>, steps: seq<Step>, i: nat)
    requires IsRun(run, steps) && Start(run[0]) && i < |run|
    requires run[i].maps.health.mapUpdateFail == 0
    requires run[i].boundaryRead == 0 || run[i].boundaryRead > run[i].issueOnAt
    ensures run[i].maps.health.completionMiss == 0
  {
    RunInv(run, steps, i);
  }

  /** Every entry that waits for a completion belongs to a request the block layer still holds: no
      completion can slip past the collector, because its hook came first. */
  lemma NoStaleEntries(run: seq<World>, steps: seq<Step>, i: nat)
    requires IsRun(run, steps) && Start(run[0]) && i < |run|
    ensures run[i].maps.start.Keys <= run[i].live.Keys
  {
    RunInv(run, steps, i);
  }

  // ------------------------------------------------------------------ exactly which completions are missed

  /** A completion, after arming, of a request without a start entry that was allocated at the very time
      of the boundary. */
  predicate Tie(w: World, s: Step)
    requires Allowed(w, s)
  {
    s.CompleteRq? && w.maps.boundary != 0 && s.rq !in w.maps.start && w.live[s.rq].startTimeNs == w.maps.boundary
  }

  lemma StepMisses(w: World, s: Step)
    requires Inv(w) && Allowed(w, s) && Sized(w.maps) && Next(w, s).maps.health.mapUpdateFail == 0
    ensures Next(w, s).maps.health.completionMiss == w.maps.health.completionMiss + if Tie(w, s) then 1 else 0
  {}

  ghost function Ties(run: seq<World>, steps: seq<Step>, i: nat): nat
    requires IsRun(run, steps) && i <= |steps|
  {
    if i == 0 then 0 else Ties(run, steps, i - 1) + if Tie(run[i - 1], steps[i - 1]) then 1 else 0
  }

  lemma FailuresStay(w: World, s: Step)
    requires Allowed(w, s) && Sized(w.maps)
    ensures w.maps.health.mapUpdateFail <= Next(w, s).maps.health.mapUpdateFail
  {}

  /** Without a failed update the missed completions are the ties, one each: a run counts a false miss if
      and only if it completes a request that has no start entry and was allocated at the boundary. */
  lemma {:induction false} MissesAreTies(run: seq<World>, steps: seq<Step>, i: nat)
    requires IsRun(run, steps) && Start(run[0]) && i < |run| && run[i].maps.health.mapUpdateFail == 0
    ensures run[i].maps.health.completionMiss == Ties(run, steps, i)
    ensures run[i].maps.health.completionMiss > 0 <==> exists j :: 0 <= j < i && Tie(run[j], steps[j])
  {
    if i > 0 {
      var w, s := run[i - 1], steps[i - 1];
      assert run[i] == Next(w, s);
      FailuresStay(w, s);
      MissesAreTies(run, steps, i - 1);
      RunInv(run, steps, i - 1);
      StepMisses(w, s);
    }
  }

  /** A tie: with a clock that stands still, a request allocated and issued in the same nanosecond as
      attaching and arming completes as a false miss. */
  lemma TieChargesMiss()
    ensures
      var w0 := World(5, EMPTY, map[], false, false, 0, 0);
      var w1 := Next(Next(Next(w0, AttachComplete), Allocate(1, true)), IssueRq(1, 512, 8, true, true));
      var w2 := Next(Next(Next(w1, AttachIssue), ReadBoundary), WriteBoundary);
      var w3 := Next(w2, CompleteRq(1, false, 512, 512));
      Tie(w2, CompleteRq(1, false, 512, 512)) && w3.maps.health == Health(0, 1, 0, 0, 0)
  {}

  // ------------------------------------------------------------------ the block accounts, from attaching on

  /** The handler run, or the arming, in a step. */
  function EventOf(w: World, s: Step): Option<Event>
    requires Allowed(w, s)
  {
    match s
    case IssueRq(rq, dataLen, dev, startFits, devFits) =>
      if w.issueOn then Some(Issue(rq, w.now, dataLen, dev, startFits, devFits)) else None
    case CompleteRq(rq, error, nr, remaining) =>
      if w.completeOn then Some(Complete(rq, w.now, error, nr, remaining, w.live[rq].startTimeNs)) else None
    case WriteBoundary => Some(Arm(w.boundaryRead))
    case Tick(_) => None
    case Allocate(_, _) => None
    case AttachComplete => None
    case AttachIssue => None
    case ReadBoundary => None
  }

  lemma EventIsStep(w: World, s: Step)
    requires Allowed(w, s) && Sized(w.maps)
    ensures Next(w, s).maps == match EventOf(w, s) case None => w.maps case Some(e) => Handle(w.maps, e)
  {}

  /** Nothing in the maps lies in the future. */
  ghost predicate OnTime(w: World) {
    && w.now > 0
    && (forall dev :: dev in w.maps.devs ==> w.maps.devs[dev].queueLastNs <= w.now)
    && (forall rq :: rq in w.maps.start ==> w.maps.start[rq].firstIssueNs <= w.now)
  }

  lemma OnTimeStays(w: World, s: Step)
    requires OnTime(w) && Allowed(w, s) && Sized(w.maps)
    ensures OnTime(Next(w, s))
  {}

  /** The handler runs of a start-up are a run of the block accounts, with all clock readings in order. */
  lemma {:induction false} StartupIsBlockRun(run: seq<World>, steps: seq<Step>, i: nat, dev: nat)
    returns (states: seq<Maps>, evs: seq<Event>)
    requires IsRun(run, steps) && Start(run[0]) && run[0].now > 0 && i < |run|
    ensures BlockQueue.IsRun(states, evs) && states[0] == EMPTY && states[|evs|] == run[i].maps
    ensures forall j :: 0 <= j < |evs| ==> evs[j].now > 0 && InOrder(states[j], evs[j], dev)
    ensures OnTime(run[i]) && Sized(run[i].maps)
  {
    if i == 0 {
      states, evs := [EMPTY], [];
    } else {
      var w, s := run[i - 1], steps[i - 1];
      states, evs := StartupIsBlockRun(run, steps, i - 1, dev);
      EventIsStep(w, s);
      OnTimeStays(w, s);
      if EventOf(w, s).Some? {
        var e := EventOf(w, s).value;
        states, evs := states + [Handle(w.maps, e)], evs + [e];
      }
    }
  }

  /** So the accounts hold from the very start of a collector, with requests in flight that were issued
      before it was armed: while no update has failed, at every point the gauge counts the tracked
      requests, the area is the residence time of the tracked requests, and an idle device has as much
      area as latency. Its bytes are those of `evs`, failed updates or not. */
  lemma AccountsHoldFromStartup(run: seq<World>, steps: seq<Step>, i: nat, dev: nat, t: int)
    returns (states: seq<Maps>, evs: seq<Event>)
    requires IsRun(run, steps) && Start(run[0]) && run[0].now > 0 && i < |run|
    ensures BlockQueue.IsRun(states, evs) && states[0] == EMPTY && states[|evs|] == run[i].maps
    ensures DevBytes(run[i].maps, dev) + Sum(Tracked(run[i].maps, dev), Bytes(run[i].maps))
              + LostBytes(states, evs, |evs|, dev)
         == IssuedBytes(states, evs, |evs|, dev)
    ensures run[i].maps.health.mapUpdateFail == 0 ==>
      && Certified(run[i].maps, dev) && AreaAt(run[i].maps, dev, t) == ResidenceAt(run[i].maps, dev, t)
      && (dev in run[i].maps.devs && run[i].maps.devs[dev].inflight == 0 ==>
            run[i].maps.devs[dev].queueAreaNs == run[i].maps.devs[dev].totalLatNs)
  {
    states, evs := StartupIsBlockRun(run, steps, i, dev);
    BytesConserved(states, evs, |evs|, dev);
    if run[i].maps.health.mapUpdateFail == 0 {
      EveryRunCertified(states, evs, |evs|, dev);
      AreaExactInOrder(states, evs, |evs|, dev, t);
    }
  }
}
