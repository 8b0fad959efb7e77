/** The block handlers told from outside: what the maps hold, and what the devices have added up, as a
    function of the handler events alone. */
module BlockHistory {
  import opened BlockQueue
  import opened Common
  import opened FiniteSums
  import opened LogHistogram

  // ------------------------------------------------------------------ one request

  /** The boundary last written; 0 before the collector is armed. */
  function Boundary(evs: seq<Event>): nat {
    if evs == [] then 0
    else if evs[|evs| - 1].Arm? then evs[|evs| - 1].now
    else Boundary(evs[..|evs| - 1])
  }

  /** The completion covers all that is left of its request. */
  predicate Final(e: Event) {
    e.Complete? && e.nrBytes >= e.remaining
  }

  /** The issue that a request pointer stands for: the first that could be stored since the pointer was
      last free. A final completion frees it. */
  function OpenIssue(evs: seq<Event>, rq: nat): (i: Option<nat>)
    ensures i.Some? ==> i.value < |evs| && evs[i.value].Issue? && evs[i.value].rq == rq
  {
    if evs == [] then None else
      var e, before := evs[|evs| - 1], OpenIssue(evs[..|evs| - 1], rq);
      if e.Issue? && e.rq == rq && before.None? && e.startFits then Some(|evs| - 1)
      else if Final(e) && e.rq == rq then None
      else before
  }

  /** The request was issued after the collector had been armed. */
  predicate AfterArming(evs: seq<Event>, i: nat)
    requires i < |evs|
  {
    Boundary(evs[..i]) != 0
  }

  /** The bytes of a request that completions after event `i` have moved, without and with the failed. */
  function Moved(evs: seq<Event>, rq: nat, i: nat, failed: bool): nat {
    if |evs| <= i + 1 then 0 else
      var e := evs[|evs| - 1];
      var moves := e.Complete? && e.rq == rq && (failed || !e.error);
      Moved(evs[..|evs| - 1], rq, i, failed) + if moves then e.nrBytes else 0
  }

  /** The entry of the `start` map. */
  function Entry(evs: seq<Event>, rq: nat): Option<RequestState> {
    match OpenIssue(evs, rq)
    case None => None
    case Some(i) =>
      Some(RequestState(evs[i].now, evs[i].dataLen, Moved(evs, rq, i, true),
                        if AfterArming(evs, i) then Moved(evs, rq, i, false) else 0, evs[i].dev, AfterArming(evs, i)))
  }

  /** The boundary and the entries are those of the history. */
  ghost predicate Recalls(m: Maps, evs: seq<Event>) {
    m.boundary == Boundary(evs) && forall rq :: Lookup(m.start, rq) == Entry(evs, rq)
  }

  /** The entry of one request, before the last event. */
  lemma EntryBefore(m: Maps, evs: seq<Event>, rq: nat)
    requires evs != [] && Recalls(m, evs[..|evs| - 1])
    ensures var before := evs[..|evs| - 1];
      && Lookup(m.start, rq) == Entry(before, rq) && (rq in m.start <==> OpenIssue(before, rq).Some?)
      && (rq in m.start ==> AfterArming(evs, OpenIssue(before, rq).value) == m.start[rq].tracked)
  {
    var before := evs[..|evs| - 1];
    assert Lookup(m.start, rq) == Entry(before, rq);
    if OpenIssue(before, rq).Some? {
      assert evs[..OpenIssue(before, rq).value] == before[..OpenIssue(before, rq).value];
    }
  }

  lemma StartStep(m: Maps, evs: seq<Event>, rq: nat)
    requires evs != [] && Sized(m) && Recalls(m, evs[..|evs| - 1])
    ensures Lookup(Handle(m, evs[|evs| - 1]).start, rq) == Entry(evs, rq)
  {
    EntryBefore(m, evs, rq);
  }

  /** At every point of every run the boundary and the entries are those of the history: each request with
      the time, size and device of its own issue and the bytes its own completions moved. */
  lemma {:induction false} StartIsHistory(run: seq<Maps>, evs: seq<Event>, i: nat)
    requires IsRun(run, evs) && run[0] == EMPTY && i < |run|
    ensures Recalls(run[i], evs[..i])
  {
    if i == 0 {
      assert evs[..0] == [];
    } else {
      StartIsHistory(run, evs, i - 1);
      assert evs[..i][..i - 1] == evs[..i - 1];
      forall rq ensures Lookup(run[i].start, rq) == Entry(evs[..i], rq) {
        StartStep(run[i - 1], evs[..i], rq);
      }
    }
  }

  // ------------------------------------------------------------------ one device

  /** Some tracked request has found or made the entry of the device. */
  predicate HasDev(evs: seq<Event>, dev: nat) {
    evs != [] && (
      var before, e := evs[..|evs| - 1], evs[|evs| - 1];
      HasDev(before, dev) || (Opens(before, e) && Boundary(before) != 0 && e.dev == dev && e.devFits))
  }

  /** The issue is stored. */
  predicate Opens(before: seq<Event>, e: Event) {
    e.Issue? && OpenIssue(before, e.rq).None? && e.startFits
  }

  ghost predicate KnowsDevs(m: Maps, evs: seq<Event>) {
    forall dev :: dev in m.devs <==> HasDev(evs, dev)
  }

  lemma DevsStep(m: Maps, evs: seq<Event>)
    requires evs != [] && Sized(m) && Recalls(m, evs[..|evs| - 1]) && KnowsDevs(m, evs[..|evs| - 1])
    ensures KnowsDevs(Handle(m, evs[|evs| - 1]), evs)
  {
    var before, e := evs[..|evs| - 1], evs[|evs| - 1];
    if !e.Arm? { EntryBefore(m, evs, e.rq); }
    forall dev ensures dev in Handle(m, e).devs <==> HasDev(evs, dev) {
      assert dev in m.devs <==> HasDev(before, dev);
    }
  }

  lemma {:induction false} DevsAreHistory(run: seq<Maps>, evs: seq<Event>, i: nat)
    requires IsRun(run, evs) && run[0] == EMPTY && i < |run|
    ensures KnowsDevs(run[i], evs[..i])
  {
    if i == 0 {
      assert evs[..0] == [];
    } else {
      DevsAreHistory(run, evs, i - 1);
      StartIsHistory(run, evs, i - 1);
      assert evs[..i][..i - 1] == evs[..i - 1];
      DevsStep(run[i - 1], evs[..i]);
    }
  }

  /** A request that the last event finishes on a device that has an entry: its device, its time from issue
      to completion, and the bytes moved without error, no more than were asked for. */
  datatype Done = Done(dev: nat, latency: nat, bytes: nat)

  function Finish(evs: seq<Event>): Option<Done>
    requires evs != []
  {
    var before, e := evs[..|evs| - 1], evs[|evs| - 1];
    if !Final(e) then None else
      match OpenIssue(before, e.rq)
      case None => None
      case Some(i) =>
        if !AfterArming(evs, i) || !HasDev(before, evs[i].dev) then None else
          Some(Done(evs[i].dev, Saturating(e.now, evs[i].now),
                    if Moved(evs, e.rq, i, false) > evs[i].dataLen then evs[i].dataLen else Moved(evs, e.rq, i, false)))
  }

  /** The latencies of the requests finished on a device, in order, and their bytes. */
  function Latencies(evs: seq<Event>, dev: nat): seq<nat> {
    if evs == [] then [] else
      var done := Finish(evs);
      Latencies(evs[..|evs| - 1], dev) + if done.Some? && done.value.dev == dev then [done.value.latency] else []
  }

  function DoneBytes(evs: seq<Event>, dev: nat): nat {
    if evs == [] then 0 else
      var done := Finish(evs);
      DoneBytes(evs[..|evs| - 1], dev) + if done.Some? && done.value.dev == dev then done.value.bytes else 0
  }

  /** Requests issued to a device and not finished; a device without an entry counts none, and a request
      that was not counted takes none away from 0. */
  function Depth(evs: seq<Event>, dev: nat): nat {
    if evs == [] then 0 else
      var before, e, done := evs[..|evs| - 1], evs[|evs| - 1], Finish(evs);
      var depth := Depth(before, dev);
      if Opens(before, e) && Boundary(before) != 0 && e.dev == dev && (e.devFits || HasDev(before, dev)) then depth + 1
      else if done.Some? && done.value.dev == dev then if depth > 0 then depth - 1 else 0
      else depth
  }

  function TotalOf(xs: seq<nat>): nat {
    if xs == [] then 0 else TotalOf(xs[..|xs| - 1]) + xs[|xs| - 1]
  }

  /** What a device entry says of the requests finished on it. */
  ghost predicate Tells(d: DevStat, latencies: seq<nat>, bytes: nat) {
    && |d.slots| == NSLOTS && IsHistogram(d.slots, latencies)
    && d.count == |latencies| && d.totalLatNs == TotalOf(latencies) && d.bytes == bytes
  }

  ghost predicate DeviceTells(m: Maps, dev: nat, latencies: seq<nat>, bytes: nat, depth: nat) {
    if dev in m.devs then Tells(m.devs[dev], latencies, bytes) && m.devs[dev].inflight == depth
    else latencies == [] && bytes == 0 == depth
  }

  lemma NewTells(now: nat)
    ensures Tells(NewDev(now), [], 0)
  {
  }

  lemma OneMore(slots: seq<nat>, latencies: seq<nat>, latency: nat)
    requires |slots| == NSLOTS && IsHistogram(slots, latencies)
    ensures var slot := SlotOf(latency, NSLOTS);
      IsHistogram(slots[slot := slots[slot] + 1], latencies + [latency])
  {
    forall i | 0 <= i < NSLOTS
      ensures slots[SlotOf(latency, NSLOTS) := slots[SlotOf(latency, NSLOTS)] + 1][i]
           == Count(latencies + [latency], InSlot(NSLOTS, i))
    {
      CountConcat(latencies, [latency], InSlot(NSLOTS, i));
      assert Count([latency], InSlot(NSLOTS, i)) == (if SlotOf(latency, NSLOTS) == i then 1 else 0) by {
        assert [latency][1..] == [];
      }
    }
  }

  lemma SettleTells(d: DevStat, s: RequestState, now: nat, latencies: seq<nat>, bytes: nat)
    requires Tells(d, latencies, bytes)
    ensures Tells(Settle(d, s, now), latencies + [Latency(s, now)], bytes + AccountedBytes(s))
  {
    OneMore(d.slots, latencies, Latency(s, now));
    assert (latencies + [Latency(s, now)])[..|latencies|] == latencies;
  }

  /** The handler settles a request on this device. */
  ghost predicate Settles(m: Maps, e: Event, dev: nat) {
    e.Complete? && Touched(m, e) == Some(dev) && dev in m.devs
  }

  /** The handler counts an issue on this device. */
  ghost predicate Joins(m: Maps, e: Event, dev: nat) {
    e.Issue? && Touched(m, e) == Some(dev) && (e.devFits || dev in m.devs)
  }

  /** History and handler agree on which request an event finishes, and on which device it joins. */
  lemma FinishSettles(m: Maps, evs: seq<Event>, dev: nat)
    requires evs != [] && Recalls(m, evs[..|evs| - 1]) && KnowsDevs(m, evs[..|evs| - 1])
    ensures var before, e, done := evs[..|evs| - 1], evs[|evs| - 1], Finish(evs);
      && (done.Some? && done.value.dev == dev <==> Settles(m, e, dev))
      && (Settles(m, e, dev) ==>
            && done.value.latency == Latency(Credited(m.start[e.rq], e), e.now)
            && done.value.bytes == AccountedBytes(Credited(m.start[e.rq], e)))
      && (Opens(before, e) && Boundary(before) != 0 && e.dev == dev && (e.devFits || HasDev(before, dev))
          <==> Joins(m, e, dev))
  {
    var before, e := evs[..|evs| - 1], evs[|evs| - 1];
    if !e.Arm? { EntryBefore(m, evs, e.rq); }
    assert dev in m.devs <==> HasDev(before, dev);
    if e.Complete? && e.rq in m.start { assert m.start[e.rq].dev in m.devs <==> HasDev(before, m.start[e.rq].dev); }
  }

  lemma LatenciesNext(evs: seq<Event>, dev: nat)
    requires evs != []
    ensures var before, done := evs[..|evs| - 1], Finish(evs);
      if done.Some? && done.value.dev == dev then
        && Latencies(evs, dev) == Latencies(before, dev) + [done.value.latency]
        && DoneBytes(evs, dev) == DoneBytes(before, dev) + done.value.bytes
      else Latencies(evs, dev) == Latencies(before, dev) && DoneBytes(evs, dev) == DoneBytes(before, dev)
  {
  }

  lemma DeviceStep(m: Maps, evs: seq<Event>, dev: nat)
    requires evs != [] && Sized(m) && Recalls(m, evs[..|evs| - 1]) && KnowsDevs(m, evs[..|evs| - 1])
    requires var before := evs[..|evs| - 1];
      DeviceTells(m, dev, Latencies(before, dev), DoneBytes(before, dev), Depth(before, dev))
    ensures DeviceTells(Handle(m, evs[|evs| - 1]), dev, Latencies(evs, dev), DoneBytes(evs, dev), Depth(evs, dev))
  {
    var before, e := evs[..|evs| - 1], evs[|evs| - 1];
    var latencies, bytes, depth := Latencies(before, dev), DoneBytes(before, dev), Depth(before, dev);
    FinishSettles(m, evs, dev);
    LatenciesNext(evs, dev);
    if Settles(m, e, dev) {
      BusyStep(m, e, dev, latencies, bytes, depth);
    } else {
      IdleStep(m, e, dev, latencies, bytes, depth);
    }
  }

  lemma BusyStep(m: Maps, e: Event, dev: nat, latencies: seq<nat>, bytes: nat, depth: nat)
    requires Sized(m) && DeviceTells(m, dev, latencies, bytes, depth) && Settles(m, e, dev)
    ensures var s := Credited(m.start[e.rq], e);
      DeviceTells(Handle(m, e), dev, latencies + [Latency(s, e.now)], bytes + AccountedBytes(s),
                  if depth > 0 then depth - 1 else 0)
  {
    SettleTells(m.devs[dev], Credited(m.start[e.rq], e), e.now, latencies, bytes);
  }

  lemma IdleStep(m: Maps, e: Event, dev: nat, latencies: seq<nat>, bytes: nat, depth: nat)
    requires Sized(m) && DeviceTells(m, dev, latencies, bytes, depth) && !Settles(m, e, dev)
    ensures DeviceTells(Handle(m, e), dev, latencies, bytes, if Joins(m, e, dev) then depth + 1 else depth)
  {
    if e.Issue? { NewTells(e.now); }
  }

  /** In every run, with failed updates too: the slots of a device are the histogram of the times from issue
      to completion of the requests finished on it since it has an entry, its latency total is their sum, its
      count their number, its bytes those they moved without error, none above its size, and its gauge is
      the requests issued and not finished. */
  lemma {:induction false} DevicesAreHistory(run: seq<Maps>, evs: seq<Event>, i: nat, dev: nat)
    requires IsRun(run, evs) && run[0] == EMPTY && i < |run|
    ensures DeviceTells(run[i], dev, Latencies(evs[..i], dev), DoneBytes(evs[..i], dev), Depth(evs[..i], dev))
  {
    if i == 0 {
      assert evs[..0] == [];
    } else {
      DevicesAreHistory(run, evs, i - 1, dev);
      StartIsHistory(run, evs, i - 1);
      DevsAreHistory(run, evs, i - 1);
      assert evs[..i][..i - 1] == evs[..i - 1];
      DeviceStep(run[i - 1], evs[..i], dev);
    }
  }

  lemma {:induction false} LatenciesGrow(evs: seq<Event>, i: nat, j: nat, dev: nat)
    requires i <= j <= |evs|
    ensures Latencies(evs[..i], dev) <= Latencies(evs[..j], dev)
    ensures DoneBytes(evs[..i], dev) <= DoneBytes(evs[..j], dev)
    decreases j
  {
    if i < j {
      assert evs[..j][..j - 1] == evs[..j - 1];
      LatenciesGrow(evs, i, j - 1, dev);
    }
  }

  // ------------------------------------------------------------------ the health counters

  /** What one event adds to the counters, from the history. */
  function Noted(evs: seq<Event>): Health
    requires evs != []
  {
    var before, e := evs[..|evs| - 1], evs[|evs| - 1];
    if e.Arm? then Health(0, 0, 0, 0, 0) else
      var open := OpenIssue(before, e.rq);
      var tracked := open.Some? && AfterArming(evs, open.value);
      if e.Issue? then
        var noDev := open.None? && e.startFits && Boundary(before) != 0 && !HasDev(before, e.dev) && !e.devFits;
        Health(One(open.Some?), 0, One(open.None? && !e.startFits) + One(noDev), 0, 0)
      else
        Health(0, One(open.None? && 0 < Boundary(before) <= e.startTimeNs),
               One(tracked && Final(e) && !HasDev(before, evs[open.value].dev)),
               One(tracked && !Final(e)), One(tracked && e.error))
  }

  function One(b: bool): nat {
    if b then 1 else 0
  }

  function Plus(a: Health, b: Health): Health {
    Health(a.duplicateIssue + b.duplicateIssue, a.completionMiss + b.completionMiss, a.mapUpdateFail + b.mapUpdateFail,
           a.partialCompletion + b.partialCompletion, a.ioError + b.ioError)
  }

  function HealthOf(evs: seq<Event>): Health {
    if evs == [] then Health(0, 0, 0, 0, 0) else Plus(HealthOf(evs[..|evs| - 1]), Noted(evs))
  }

  lemma IssueNoted(m: Maps, evs: seq<Event>)
    requires evs != [] && evs[|evs| - 1].Issue?
    requires Recalls(m, evs[..|evs| - 1]) && KnowsDevs(m, evs[..|evs| - 1])
    ensures OnIssue(m, evs[|evs| - 1]).health == Plus(m.health, Noted(evs))
  {
    EntryBefore(m, evs, evs[|evs| - 1].rq);
    assert evs[|evs| - 1].dev in m.devs <==> HasDev(evs[..|evs| - 1], evs[|evs| - 1].dev);
  }

  lemma CompleteNoted(m: Maps, evs: seq<Event>)
    requires evs != [] && evs[|evs| - 1].Complete? && Sized(m)
    requires Recalls(m, evs[..|evs| - 1]) && KnowsDevs(m, evs[..|evs| - 1])
    ensures OnComplete(m, evs[|evs| - 1]).health == Plus(m.health, Noted(evs))
  {
    var e := evs[|evs| - 1];
    EntryBefore(m, evs, e.rq);
    if e.rq in m.start {
      assert m.start[e.rq].dev in m.devs <==> HasDev(evs[..|evs| - 1], m.start[e.rq].dev);
    }
  }

  lemma HealthStep(m: Maps, evs: seq<Event>, m': Maps)
    requires evs != [] && Sized(m) && m' == Handle(m, evs[|evs| - 1])
    requires Recalls(m, evs[..|evs| - 1]) && KnowsDevs(m, evs[..|evs| - 1]) && m.health == HealthOf(evs[..|evs| - 1])
    ensures m'.health == HealthOf(evs)
  {
    assert m'.health == Plus(m.health, Noted(evs)) by {
      match evs[|evs| - 1]
      case Arm(_) =>
      case Issue(_, _, _, _, _, _) => IssueNoted(m, evs);
      case Complete(_, _, _, _, _, _) => CompleteNoted(m, evs);
    }
  }

  /** In every run each of the five health counters is the number of events of its kind, told from the
      history: repeated issues, completions of requests allocated after arming that were never issued,
      refused insertions, partial completions and failed ones. */
  lemma {:induction false} HealthIsHistory(run: seq<Maps>, evs: seq<Event>, i: nat)
    requires IsRun(run, evs) && run[0] == EMPTY && i < |run|
    ensures run[i].health == HealthOf(evs[..i])
  {
    if i == 0 {
      assert evs[..0] == [];
    } else {
      var before, now := evs[..i - 1], evs[..i];
      assert now[..|now| - 1] == before && run[i] == Handle(run[i - 1], now[|now| - 1]);
      assert Recalls(run[i - 1], before) by { StartIsHistory(run, evs, i - 1); }
      assert KnowsDevs(run[i - 1], before) by { DevsAreHistory(run, evs, i - 1); }
      assert run[i - 1].health == HealthOf(before) by { HealthIsHistory(run, evs, i - 1); }
      HealthStep(run[i - 1], now, run[i]);
    }
  }
}
