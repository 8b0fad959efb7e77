/** Block request accounting: the issue and completion handlers over their maps, and the integral of
    the queue depth they keep per device. */
module BlockQueue {
  import opened Common
  import opened FiniteSums
  import LogHistogram

  /** `request_state`; a request that was issued before the collector was armed is not tracked. */
  datatype RequestState = RequestState(
    firstIssueNs: nat, totalBytes: nat, completedBytes: nat, successfulBytes: nat, dev: nat, tracked: bool)

  /** `dev_stat` without its lock; `queueAreaNs` is in requests times nanoseconds. */
  datatype DevStat = DevStat(
    count: nat, totalLatNs: nat, bytes: nat, queueAreaNs: nat, queueLastNs: nat, inflight: nat, slots: seq<nat>)

  datatype Health = Health(
    duplicateIssue: nat, completionMiss: nat, mapUpdateFail: nat, partialCompletion: nat, ioError: nat)

  /** The BPF maps. Requests are keyed by their pointer, devices by number; `boundary` is 0 until
      user space arms the collector. */
  datatype Maps = Maps(start: map<nat, RequestState>, devs: map<nat, DevStat>, health: Health, boundary: nat)

  const EMPTY := Maps(map[], map[], Health(0, 0, 0, 0, 0), 0)

  const NSLOTS := LogHistogram.IO_SLOTS

  /** One run of a handler: the request's fields at that moment, the clock it read, and whether the
      map insertions it tries succeed; or user space arming the collector with the clock it read. */
  datatype Event =
    | Arm(now: nat)
    | Issue(rq: nat, now: nat, dataLen: nat, dev: nat, startFits: bool, devFits: bool)
    | Complete(rq: nat, now: nat, error: bool, nrBytes: nat, remaining: nat, startTimeNs: nat)

  function NewDev(now: nat): DevStat {
    DevStat(0, 0, 0, 0, now, 0, seq(NSLOTS, _ => 0))
  }

  /** `account_queue_locked` */
  function Account(d: DevStat, now: nat): DevStat {
    var area := if d.queueLastNs != 0 && now > d.queueLastNs && d.inflight > 0
                then d.queueAreaNs + (now - d.queueLastNs) * d.inflight else d.queueAreaNs;
    d.(queueAreaNs := area, queueLastNs := now)
  }

  /** `handle_issue` */
  function OnIssue(m: Maps, e: Event): Maps
    requires e.Issue?
  {
    if e.rq in m.start then m.(health := m.health.(duplicateIssue := m.health.duplicateIssue + 1))
    else if !e.startFits then m.(health := m.health.(mapUpdateFail := m.health.mapUpdateFail + 1))
    else
      var tracked := m.boundary != 0;
      var m' := m.(start := m.start[e.rq := RequestState(e.now, e.dataLen, 0, 0, e.dev, tracked)]);
      if !tracked then m'
      else if e.dev !in m.devs && !e.devFits then
        m'.(health := m.health.(mapUpdateFail := m.health.mapUpdateFail + 1))
      else
        var d := Account(if e.dev in m.devs then m.devs[e.dev] else NewDev(e.now), e.now);
        m'.(devs := m.devs[e.dev := d.(inflight := d.inflight + 1)])
  }

  function Latency(s: RequestState, now: nat): nat {
    if now > s.firstIssueNs then now - s.firstIssueNs else 0
  }

  function AccountedBytes(s: RequestState): nat {
    if s.successfulBytes > s.totalBytes then s.totalBytes else s.successfulBytes
  }

  /** The device part of a final completion. */
  function Settle(d: DevStat, s: RequestState, now: nat): DevStat
    requires |d.slots| == NSLOTS
  {
    var a := Account(d, now);
    var slot := LogHistogram.SlotOf(Latency(s, now), NSLOTS);
    DevStat(a.count + 1, a.totalLatNs + Latency(s, now), a.bytes + AccountedBytes(s), a.queueAreaNs, a.queueLastNs,
            if a.inflight > 0 then a.inflight - 1 else 0, a.slots[slot := a.slots[slot] + 1])
  }

  /** The request's state and health counters after the bytes of this completion are added. */
  function Credited(s: RequestState, e: Event): RequestState
    requires e.Complete?
  {
    if s.tracked && !e.error then s.(successfulBytes := s.successfulBytes + e.nrBytes) else s
  }

  /** `handle_complete` */
  function OnComplete(m: Maps, e: Event): Maps
    requires e.Complete? && Sized(m)
  {
    var h := m.health;
    if e.rq !in m.start then
      if m.boundary != 0 && e.startTimeNs != 0 && e.startTimeNs >= m.boundary
      then m.(health := h.(completionMiss := h.completionMiss + 1)) else m
    else
      var s := Credited(m.start[e.rq], e);
      var h1 := if s.tracked && e.error then h.(ioError := h.ioError + 1) else h;
      if e.nrBytes < e.remaining then
        var h2 := if s.tracked then h1.(partialCompletion := h1.partialCompletion + 1) else h1;
        m.(start := m.start[e.rq := s.(completedBytes := s.completedBytes + e.nrBytes)], health := h2)
      else
        var m' := m.(start := m.start - {e.rq}, health := h1);
        if !s.tracked then m'
        else if s.dev !in m.devs then m'.(health := h1.(mapUpdateFail := h1.mapUpdateFail + 1))
        else m'.(devs := m.devs[s.dev := Settle(m.devs[s.dev], s, e.now)])
  }

  predicate Sized(m: Maps) {
    forall d :: d in m.devs ==> |m.devs[d].slots| == NSLOTS
  }

  function Handle(m: Maps, e: Event): (m': Maps)
    requires Sized(m)
    ensures Sized(m')
  {
    match e
    case Arm(now) => m.(boundary := now)
    case Issue(_, _, _, _, _, _) => OnIssue(m, e)
    case Complete(_, _, _, _, _, _) => OnComplete(m, e)
  }

  ghost predicate IsRun(run: seq<Maps>, evs: seq<Event>) {
    && |run| == |evs| + 1
    && forall i :: 0 <= i < |evs| ==> Sized(run[i]) && run[i + 1] == Handle(run[i], evs[i])
  }

  // ------------------------------------------------------------------ health certificate

  /** The tracked requests of a device that are in flight. */
  ghost function Tracked(m: Maps, dev: nat): set<nat> {
    set rq | rq in m.start && m.start[rq].tracked && m.start[rq].dev == dev
  }

  ghost function Bytes(m: Maps): nat -> int {
    rq => if rq in m.start then m.start[rq].totalBytes else 0
  }

  ghost function Inflight(m: Maps, dev: nat): nat {
    if dev in m.devs then m.devs[dev].inflight else 0
  }

  /** What a zero `map_update_fail` vouches for. */
  ghost predicate Certified(m: Maps, dev: nat) {
    && Inflight(m, dev) == |Tracked(m, dev)|
    && (dev in m.devs ==> m.devs[dev].count == LogHistogram.SumTo(m.devs[dev].slots, |m.devs[dev].slots|))
  }

  lemma {:induction false} SumToZero(n: nat, m: nat)
    requires m <= n
    ensures LogHistogram.SumTo(seq(n, _ => 0), m) == 0
  {
    if m > 0 { SumToZero(n, m - 1); }
  }

  /** The device an event is accounted to, when it is. */
  ghost function Touched(m: Maps, e: Event): Option<nat> {
    match e
    case Arm(_) => None
    case Issue(rq, _, _, dev, fits, _) => if rq !in m.start && fits && m.boundary != 0 then Some(dev) else None
    case Complete(rq, _, _, nr, remaining, _) =>
      if rq in m.start && m.start[rq].tracked && nr >= remaining then Some(m.start[rq].dev) else None
  }

  /** How an event changes the tracked requests of a device, and that it touches no other device. */
  lemma TrackedAfter(m: Maps, e: Event, dev: nat)
    requires Sized(m)
    ensures var before, after := Tracked(m, dev), Tracked(Handle(m, e), dev);
      if Touched(m, e) != Some(dev) then after == before
      else if e.Issue? then e.rq !in before && after == before + {e.rq}
      else e.rq in before && after == before - {e.rq}
    ensures Touched(m, e) != Some(dev) ==>
      Handle(m, e).devs.Keys * {dev} == m.devs.Keys * {dev} && (dev in m.devs ==> Handle(m, e).devs[dev] == m.devs[dev])
    ensures forall rq :: rq in Tracked(m, dev) && rq in Tracked(Handle(m, e), dev) ==>
      && Handle(m, e).start[rq].firstIssueNs == m.start[rq].firstIssueNs
      && Handle(m, e).start[rq].totalBytes == m.start[rq].totalBytes
  {
    var m' := Handle(m, e);
    assert Touched(m, e) != Some(dev) ==> (dev in m'.devs <==> dev in m.devs);
  }

  lemma CompleteCertified(m: Maps, e: Event, dev: nat)
    requires Sized(m) && Certified(m, dev) && e.Complete? && Touched(m, e) == Some(dev) && dev in m.devs
    ensures Certified(Handle(m, e), dev)
  {
    TrackedAfter(m, e, dev);
    var s := Credited(m.start[e.rq], e);
    var slot := LogHistogram.SlotOf(Latency(s, e.now), NSLOTS);
    LogHistogram.SumToUpdate(m.devs[dev].slots, slot, m.devs[dev].slots[slot] + 1, NSLOTS);
  }

  lemma StepCertified(m: Maps, e: Event, dev: nat)
    requires Sized(m) && Certified(m, dev) && Handle(m, e).health.mapUpdateFail == m.health.mapUpdateFail
    ensures Certified(Handle(m, e), dev)
  {
    if Touched(m, e) != Some(dev) {
      TrackedAfter(m, e, dev);
      assert dev in Handle(m, e).devs <==> dev in Handle(m, e).devs.Keys * {dev};
    } else if e.Issue? {
      TrackedAfter(m, e, dev);
      SumToZero(NSLOTS, NSLOTS);
    } else {
      CompleteCertified(m, e, dev);
    }
  }

  lemma FailuresGrow(m: Maps, e: Event)
    requires Sized(m)
    ensures m.health.mapUpdateFail <= Handle(m, e).health.mapUpdateFail
  {}

  lemma NothingYet(dev: nat)
    ensures Tracked(EMPTY, dev) == {} && Certified(EMPTY, dev) && EMPTY.devs == map[]
  {}

  /** While no map update has failed, the in-flight gauge is the number of tracked start entries and
      the completion count is the sum of the latency slots, at every point of every run. */
  lemma {:induction false} EveryRunCertified(run: seq<Maps>, evs: seq<Event>, i: nat, dev: nat)
    requires IsRun(run, evs) && run[0] == EMPTY && i < |run| && run[i].health.mapUpdateFail == 0
    ensures Certified(run[i], dev)
  {
    if i == 0 {
      NothingYet(dev);
    } else {
      FailuresGrow(run[i - 1], evs[i - 1]);
      EveryRunCertified(run, evs, i - 1, dev);
      StepCertified(run[i - 1], evs[i - 1], dev);
    }
  }

  ghost function DevBytes(m: Maps, dev: nat): nat {
    if dev in m.devs then m.devs[dev].bytes else 0
  }

  ghost function AdmittedBytes(m: Maps, e: Event, dev: nat): nat {
    if e.Issue? && Touched(m, e) == Some(dev) then e.dataLen else 0
  }

  /** Bytes of the tracked requests the device has accepted so far. */
  ghost function IssuedBytes(run: seq<Maps>, evs: seq<Event>, i: nat, dev: nat): nat
    requires i <= |evs| && |run| == |evs| + 1
  {
    if i == 0 then 0 else IssuedBytes(run, evs, i - 1, dev) + AdmittedBytes(run[i - 1], evs[i - 1], dev)
  }

  /** Bytes accounted to the device plus those of its requests still in flight. */
  ghost function BytesIn(m: Maps, dev: nat): int {
    DevBytes(m, dev) + Sum(Tracked(m, dev), Bytes(m))
  }

  lemma BytesInSplit(m: Maps, dev: nat)
    ensures BytesIn(m, dev) >= DevBytes(m, dev)
  {
    SumNonNegative(Tracked(m, dev), Bytes(m));
  }

  /** Bytes of a finished request that the device is not credited with: those that failed, and all of them
      when the device has no entry. */
  ghost function UncreditedBytes(m: Maps, e: Event, dev: nat): nat {
    if e.Complete? && Touched(m, e) == Some(dev)
    then m.start[e.rq].totalBytes - if dev in m.devs then AccountedBytes(Credited(m.start[e.rq], e)) else 0
    else 0
  }

  ghost function LostBytes(run: seq<Maps>, evs: seq<Event>, i: nat, dev: nat): nat
    requires i <= |evs| && |run| == |evs| + 1
  {
    if i == 0 then 0 else LostBytes(run, evs, i - 1, dev) + UncreditedBytes(run[i - 1], evs[i - 1], dev)
  }

  lemma StepBytes(m: Maps, e: Event, dev: nat)
    requires Sized(m)
    ensures BytesIn(Handle(m, e), dev) + UncreditedBytes(m, e, dev) == BytesIn(m, dev) + AdmittedBytes(m, e, dev)
  {
    var m' := Handle(m, e);
    TrackedAfter(m, e, dev);
    var before, after := Tracked(m, dev), Tracked(m', dev);
    if Touched(m, e) != Some(dev) {
      SumSame(before, Bytes(m), Bytes(m'));
      assert dev in m'.devs <==> dev in m'.devs.Keys * {dev};
    } else if e.Issue? {
      SumInsert(before, Bytes(m'), e.rq);
      SumSame(before, Bytes(m), Bytes(m'));
    } else {
      SumRemove(before, Bytes(m), e.rq);
      SumSame(after, Bytes(m), Bytes(m'));
    }
  }

  /** Bytes are conserved over every run, failed updates and re-reported completions included: what was
      issued is accounted, in flight, or was not credited when its request finished. */
  lemma {:induction false} BytesConserved(run: seq<Maps>, evs: seq<Event>, i: nat, dev: nat)
    requires IsRun(run, evs) && run[0] == EMPTY && i < |run|
    ensures DevBytes(run[i], dev) + Sum(Tracked(run[i], dev), Bytes(run[i])) + LostBytes(run, evs, i, dev)
         == IssuedBytes(run, evs, i, dev)
  {
    if i == 0 {
      NothingYet(dev);
    } else {
      assert run[i] == Handle(run[i - 1], evs[i - 1]);
      BytesConserved(run, evs, i - 1, dev);
      StepBytes(run[i - 1], evs[i - 1], dev);
    }
  }

  /** Accounted bytes never exceed issued bytes, even over over-reported or repeated partial
      completions: what is accounted plus what is still in flight is at most what was issued. */
  lemma BytesNeverExceedIssued(run: seq<Maps>, evs: seq<Event>, i: nat, dev: nat)
    requires IsRun(run, evs) && run[0] == EMPTY && i < |run|
    ensures DevBytes(run[i], dev) <= BytesIn(run[i], dev) <= IssuedBytes(run, evs, i, dev)
  {
    BytesConserved(run, evs, i, dev);
    BytesInSplit(run[i], dev);
  }

  // ------------------------------------------------------------------ queue area

  ghost function IssueTime(m: Maps): nat -> int {
    rq => if rq in m.start then m.start[rq].firstIssueNs else 0
  }

  ghost function Age(m: Maps, t: int): nat -> int {
    rq => if rq in m.start then t - m.start[rq].firstIssueNs else 0
  }

  /** The integral at time `t`: the stored area plus the constant depth since the last event. */
  ghost function AreaAt(m: Maps, dev: nat, t: int): int {
    if dev in m.devs then m.devs[dev].queueAreaNs + (t - m.devs[dev].queueLastNs) * m.devs[dev].inflight else 0
  }

  /** The simple account: latencies of completed requests plus ages of those in flight. */
  ghost function ResidenceAt(m: Maps, dev: nat, t: int): int {
    (if dev in m.devs then m.devs[dev].totalLatNs else 0) + Sum(Tracked(m, dev), Age(m, t))
  }

  /** Area minus residence, with `t` cancelled out. */
  ghost function Gap(m: Maps, dev: nat): int {
    Sum(Tracked(m, dev), IssueTime(m)) + if dev in m.devs then DevGap(m.devs[dev]) else 0
  }

  ghost function DevGap(d: DevStat): int {
    d.queueAreaNs - d.queueLastNs * d.inflight - d.totalLatNs
  }

  /** The part of a skew that a step back of the device clock causes. */
  ghost function StepBack(d: DevStat, now: nat): nat {
    if now < d.queueLastNs then (d.queueLastNs - now) * d.inflight else 0
  }

  lemma TimesOneMore(t: int, n: nat)
    ensures t * (n + 1) == t * n + t
  {
  }

  lemma {:induction false} AgesSum(s: set<nat>, m: Maps, t: int)
    requires s <= m.start.Keys
    ensures Sum(s, Age(m, t)) == t * |s| - Sum(s, IssueTime(m))
    decreases s
  {
    if s != {} {
      var rq :| rq in s;
      SumRemove(s, Age(m, t), rq);
      SumRemove(s, IssueTime(m), rq);
      AgesSum(s - {rq}, m, t);
      TimesOneMore(t, |s - {rq}|);
    }
  }

  lemma GapIsDifference(m: Maps, dev: nat, t: int)
    requires Certified(m, dev)
    ensures AreaAt(m, dev, t) - ResidenceAt(m, dev, t) == Gap(m, dev)
  {
    AgesSum(Tracked(m, dev), m, t);
    if dev in m.devs {
      var d := m.devs[dev];
      assert (t - d.queueLastNs) * d.inflight == t * d.inflight - d.queueLastNs * d.inflight;
    }
  }

  /** What an event adds to the gap when clocks run backwards between handlers: a step back of the
      device clock counts that stretch twice for every request in flight, and a completion stamped
      before its issue is clamped to latency 0. */
  ghost function Skew(m: Maps, e: Event, dev: nat): int {
    if Touched(m, e) != Some(dev) then 0 else
      (if dev in m.devs then StepBack(m.devs[dev], e.now) else 0)
      - (if e.Complete? && e.now < m.start[e.rq].firstIssueNs then m.start[e.rq].firstIssueNs - e.now else 0)
  }

  /** `account_queue_locked` moves the integral by exactly the stretch, except on a step back. */
  lemma AccountGap(d: DevStat, now: nat)
    requires d.queueLastNs > 0
    ensures DevGap(Account(d, now)) == DevGap(d) + StepBack(d, now)
  {
    assert (now - d.queueLastNs) * d.inflight == now * d.inflight - d.queueLastNs * d.inflight;
    assert (d.queueLastNs - now) * d.inflight == d.queueLastNs * d.inflight - now * d.inflight;
  }

  lemma AdmitGap(d: DevStat, now: nat)
    requires d.queueLastNs > 0
    ensures var a := Account(d, now);
      DevGap(a.(inflight := a.inflight + 1)) == DevGap(d) + StepBack(d, now) - now
  {
    AccountGap(d, now);
    assert now * (d.inflight + 1) == now * d.inflight + now;
  }

  lemma SettleGap(d: DevStat, s: RequestState, now: nat)
    requires d.queueLastNs > 0 && d.inflight > 0 && |d.slots| == NSLOTS
    ensures DevGap(Settle(d, s, now)) == DevGap(d) + StepBack(d, now) + now - Latency(s, now)
  {
    AccountGap(d, now);
    assert now * (d.inflight - 1) == now * d.inflight - now;
  }

  ghost predicate Started(m: Maps) {
    forall d :: d in m.devs ==> m.devs[d].queueLastNs > 0
  }

  lemma IssueGap(m: Maps, e: Event, dev: nat)
    requires Sized(m) && Started(m) && e.now > 0 && Certified(m, dev)
    requires e.Issue? && Touched(m, e) == Some(dev) && Handle(m, e).health.mapUpdateFail == m.health.mapUpdateFail
    ensures Gap(Handle(m, e), dev) == Gap(m, dev) + Skew(m, e, dev)
  {
    var m' := Handle(m, e);
    TrackedAfter(m, e, dev);
    SumInsert(Tracked(m, dev), IssueTime(m'), e.rq);
    SumSame(Tracked(m, dev), IssueTime(m), IssueTime(m'));
    var d := if dev in m.devs then m.devs[dev] else NewDev(e.now);
    AdmitGap(d, e.now);
    if dev !in m.devs {
      assert Tracked(m, dev) == {};
    }
  }

  lemma CompleteGap(m: Maps, e: Event, dev: nat)
    requires Sized(m) && Started(m) && e.now > 0 && Certified(m, dev)
    requires e.Complete? && Touched(m, e) == Some(dev) && Handle(m, e).health.mapUpdateFail == m.health.mapUpdateFail
    ensures Gap(Handle(m, e), dev) == Gap(m, dev) + Skew(m, e, dev)
  {
    var m' := Handle(m, e);
    TrackedAfter(m, e, dev);
    SumRemove(Tracked(m, dev), IssueTime(m), e.rq);
    SumSame(Tracked(m', dev), IssueTime(m), IssueTime(m'));
    var d := m.devs[dev];
    assert d.inflight == |Tracked(m, dev)| > 0;
    SettleGap(d, Credited(m.start[e.rq], e), e.now);
  }

  lemma StartedStays(m: Maps, e: Event)
    requires Sized(m) && Started(m) && e.now > 0
    ensures Started(Handle(m, e))
  {}

  lemma StepGap(m: Maps, e: Event, dev: nat)
    requires Sized(m) && Started(m) && e.now > 0 && Certified(m, dev)
    requires Handle(m, e).health.mapUpdateFail == m.health.mapUpdateFail
    ensures Started(Handle(m, e))
    ensures Gap(Handle(m, e), dev) == Gap(m, dev) + Skew(m, e, dev)
  {
    if Touched(m, e) == Some(dev) {
      if e.Issue? { IssueGap(m, e, dev); } else { CompleteGap(m, e, dev); }
    } else {
      TrackedAfter(m, e, dev);
      SumSame(Tracked(m, dev), IssueTime(m), IssueTime(Handle(m, e)));
      assert dev in Handle(m, e).devs <==> dev in Handle(m, e).devs.Keys * {dev};
    }
    StartedStays(m, e);
  }

  ghost function TotalSkew(run: seq<Maps>, evs: seq<Event>, i: nat, dev: nat): int
    requires i <= |evs| && |run| == |evs| + 1
  {
    if i == 0 then 0 else TotalSkew(run, evs, i - 1, dev) + Skew(run[i - 1], evs[i - 1], dev)
  }

  /** Queue-area refinement, with no assumption on the order of the clocks: at every point of every
      run without a failed map update, the incremental integral exceeds the sum of the per-request
      residence times by exactly the accumulated skew, whatever the time `t` it is read at. So the
      two agree if and only if the skews cancel. */
  lemma {:induction false} AreaIsResidencePlusSkew(run: seq<Maps>, evs: seq<Event>, i: nat, dev: nat, t: int)
    requires IsRun(run, evs) && run[0] == EMPTY && i < |run| && run[i].health.mapUpdateFail == 0
    requires forall j :: 0 <= j < |evs| ==> evs[j].now > 0
    ensures Started(run[i])
    ensures AreaAt(run[i], dev, t) == ResidenceAt(run[i], dev, t) + TotalSkew(run, evs, i, dev)
  {
    EveryRunCertified(run, evs, i, dev);
    GapIsDifference(run[i], dev, t);
    if i == 0 {
      NothingYet(dev);
    } else {
      var m, e := run[i - 1], evs[i - 1];
      FailuresGrow(m, e);
      EveryRunCertified(run, evs, i - 1, dev);
      AreaIsResidencePlusSkew(run, evs, i - 1, dev, t);
      GapIsDifference(m, dev, t);
      StepGap(m, e, dev);
    }
  }

  /** The clock order the design relies on: no handler of the device reads an earlier time than the
      device's last event, and no completion an earlier time than its issue. */
  ghost predicate InOrder(m: Maps, e: Event, dev: nat) {
    Touched(m, e) == Some(dev) ==>
      && (dev in m.devs ==> e.now >= m.devs[dev].queueLastNs)
      && (e.Complete? ==> e.now >= m.start[e.rq].firstIssueNs)
  }

  lemma {:induction false} NoSkewInOrder(run: seq<Maps>, evs: seq<Event>, i: nat, dev: nat)
    requires |run| == |evs| + 1 && i <= |evs|
    requires forall j :: 0 <= j < i ==> InOrder(run[j], evs[j], dev)
    ensures TotalSkew(run, evs, i, dev) == 0
  {
    if i > 0 {
      NoSkewInOrder(run, evs, i - 1, dev);
      assert InOrder(run[i - 1], evs[i - 1], dev);
    }
  }

  /** With the clocks in order the integral is exact, and with the device idle the stored area equals
      the total latency. */
  lemma AreaExactInOrder(run: seq<Maps>, evs: seq<Event>, i: nat, dev: nat, t: int)
    requires IsRun(run, evs) && run[0] == EMPTY && i < |run| && run[i].health.mapUpdateFail == 0
    requires forall j :: 0 <= j < |evs| ==> evs[j].now > 0
    requires forall j :: 0 <= j < i ==> InOrder(run[j], evs[j], dev)
    ensures AreaAt(run[i], dev, t) == ResidenceAt(run[i], dev, t)
    ensures dev in run[i].devs && run[i].devs[dev].inflight == 0 ==>
      run[i].devs[dev].queueAreaNs == run[i].devs[dev].totalLatNs
  {
    AreaIsResidencePlusSkew(run, evs, i, dev, t);
    NoSkewInOrder(run, evs, i, dev);
    EveryRunCertified(run, evs, i, dev);
    if dev in run[i].devs && run[i].devs[dev].inflight == 0 {
      assert Tracked(run[i], dev) == {};
    }
  }

  /** The states of a run that starts with empty maps. */
  ghost function StatesOf(evs: seq<Event>): (run: seq<Maps>)
    ensures |run| == |evs| + 1 && IsRun(run, evs) && run[0] == EMPTY
  {
    if evs == [] then [EMPTY] else
      var before := StatesOf(evs[..|evs| - 1]);
      assert Sized(before[|evs| - 1]) by { RunIsSized(before, evs[..|evs| - 1], |evs| - 1); }
      var run := before + [Handle(before[|evs| - 1], evs[|evs| - 1])];
      assert forall i :: 0 <= i < |evs| - 1 ==> run[i] == before[i] && evs[..|evs| - 1][i] == evs[i];
      run
  }

  lemma {:induction false} RunIsSized(run: seq<Maps>, evs: seq<Event>, i: nat)
    requires IsRun(run, evs) && run[0] == EMPTY && i < |run|
    ensures Sized(run[i])
  {
    if i > 0 { assert run[i] == Handle(run[i - 1], evs[i - 1]); }
  }

  /** Such runs: request 1 is issued before the collector is armed and stays untracked, request 2 after
      it; when both have completed the device shows one completion, of latency and area 30. */
  lemma ArmedWithRequestsInFlight()
    ensures
      var evs := [Issue(1, 2, 512, 8, true, true), Arm(5), Issue(2, 10, 4096, 8, true, true),
                  Complete(1, 15, false, 512, 512, 1), Complete(2, 40, false, 4096, 4096, 9)];
      var last := StatesOf(evs)[|evs|];
      && last.health == EMPTY.health && 8 in last.devs && last.devs[8].count == 1
      && last.devs[8].queueAreaNs == last.devs[8].totalLatNs == 30 && last.devs[8].bytes == 4096
  {
    var e0, e1, e2 := Issue(1, 2, 512, 8, true, true), Arm(5), Issue(2, 10, 4096, 8, true, true);
    var e3, e4 := Complete(1, 15, false, 512, 512, 1), Complete(2, 40, false, 4096, 4096, 9);
    var run := StatesOf([e0, e1, e2, e3, e4]);
    assert run[1] == Handle(run[0], e0);
    assert run[2] == Handle(run[1], e1);
    assert run[3] == Handle(run[2], e2);
    assert run[4] == Handle(run[3], e3);
    assert run[5] == Handle(run[4], e4);
  }

  /** Two handlers that take the device lock in the opposite order of their clock readings break the
      equality: requests issued at 100 and 90 (in lock order) and completed at 110 have residence 30
      and area 40. */
  lemma LockOrderInversionCountsTwice()
    ensures
      var evs := [Arm(1), Issue(1, 100, 512, 8, true, true), Issue(2, 90, 512, 8, true, true),
                  Complete(1, 110, false, 512, 512, 1), Complete(2, 110, false, 512, 512, 1)];
      var last := StatesOf(evs)[|evs|];
      8 in last.devs && last.devs[8].inflight == 0 && last.devs[8].totalLatNs == 30 && last.devs[8].queueAreaNs == 40
  {
    var e0, e1, e2 := Arm(1), Issue(1, 100, 512, 8, true, true), Issue(2, 90, 512, 8, true, true);
    var e3, e4 := Complete(1, 110, false, 512, 512, 1), Complete(2, 110, false, 512, 512, 1);
    var run := StatesOf([e0, e1, e2, e3, e4]);
    assert run[1] == Handle(run[0], e0);
    assert run[2] == Handle(run[1], e1);
    assert run[3] == Handle(run[2], e2);
    assert run[4] == Handle(run[3], e3);
    assert run[5] == Handle(run[4], e4);
  }

  // ------------------------------------------------------------------ the handlers

  class Program {
    var start: map<nat, RequestState>
    var devs: map<nat, DevStat>
    var health: Health
    var boundary: nat

    ghost function View(): Maps
      reads this
    {
      Maps(start, devs, health, boundary)
    }

    constructor ()
      ensures View() == EMPTY
    {
      start, devs, health, boundary := map[], map[], Health(0, 0, 0, 0, 0), 0;
    }

    /** User space writes the start-up boundary. */
    method PutBoundary(now: nat)
      requires Sized(View())
      modifies `boundary
      ensures View() == Handle(old(View()), Arm(now))
    {
      boundary := now;
    }

    /** `get_dev`: false when the device has no entry and none can be made. */
    method GetDev(dev: nat, now: nat, fits: bool) returns (found: bool)
      modifies `devs, `health
      ensures found <==> dev in old(devs) || fits
      ensures devs == if found && dev !in old(devs) then old(devs)[dev := NewDev(now)] else old(devs)
      ensures health == if found then old(health) else old(health).(mapUpdateFail := old(health).mapUpdateFail + 1)
    {
      if dev in devs {
        return true;
      }
      if !fits {
        health := health.(mapUpdateFail := health.mapUpdateFail + 1);
        return false;
      }
      devs := devs[dev := NewDev(now)];
      return true;
    }

    method AccountQueueLocked(dev: nat, now: nat)
      requires dev in devs
      modifies `devs
      ensures devs == old(devs)[dev := Account(old(devs)[dev], now)]
    {
      var d := devs[dev];
      if d.queueLastNs != 0 && now > d.queueLastNs && d.inflight > 0 {
        d := d.(queueAreaNs := d.queueAreaNs + (now - d.queueLastNs) * d.inflight);
      }
      devs := devs[dev := d.(queueLastNs := now)];
    }

    method HandleIssue(rq: nat, now: nat, dataLen: nat, dev: nat, startFits: bool, devFits: bool)
      modifies this
      ensures View() == OnIssue(old(View()), Issue(rq, now, dataLen, dev, startFits, devFits))
    {
      if rq in start {
        health := health.(duplicateIssue := health.duplicateIssue + 1);
        return;
      }
      if !startFits {
        health := health.(mapUpdateFail := health.mapUpdateFail + 1);
        return;
      }
      var tracked := boundary != 0;
      start := start[rq := RequestState(now, dataLen, 0, 0, dev, tracked)];
      if !tracked {
        return;
      }
      var found := GetDev(dev, now, devFits);
      if !found {
        return;
      }
      AccountQueueLocked(dev, now);
      devs := devs[dev := devs[dev].(inflight := devs[dev].inflight + 1)];
    }

    method HandleComplete(rq: nat, now: nat, error: bool, nrBytes: nat, remaining: nat, startTimeNs: nat)
      requires Sized(View()) && now < UINT64
      modifies this
      ensures View() == OnComplete(old(View()), Complete(rq, now, error, nrBytes, remaining, startTimeNs))
    {
      if rq !in start {
        if boundary != 0 && startTimeNs != 0 && startTimeNs >= boundary {
          health := health.(completionMiss := health.completionMiss + 1);
        }
        return;
      }
      var state := start[rq];
      var completed := state.completedBytes + nrBytes;
      if state.tracked && error {
        health := health.(ioError := health.ioError + 1);
      } else if state.tracked {
        state := state.(successfulBytes := state.successfulBytes + nrBytes);
      }
      if nrBytes < remaining {
        start := start[rq := state.(completedBytes := completed)];
        if state.tracked {
          health := health.(partialCompletion := health.partialCompletion + 1);
        }
        return;
      }
      var latency := if now > state.firstIssueNs then now - state.firstIssueNs else 0;
      start := start - {rq};
      if !state.tracked {
        return;
      }
      if state.dev !in devs {
        health := health.(mapUpdateFail := health.mapUpdateFail + 1);
        return;
      }
      SettleLocked(state, now, latency);
    }

    /** The locked section of `handle_complete`. */
    method SettleLocked(done: RequestState, now: nat, latency: nat)
      requires Sized(View()) && done.dev in devs && latency == Latency(done, now) < UINT64
      modifies `devs
      ensures devs == old(devs)[done.dev := Settle(old(devs)[done.dev], done, now)]
    {
      var slot := LogHistogram.LatencySlot(latency, NSLOTS);
      AccountQueueLocked(done.dev, now);
      var d := devs[done.dev];
      if d.inflight > 0 {
        d := d.(inflight := d.inflight - 1);
      }
      d := d.(count := d.count + 1, totalLatNs := d.totalLatNs + latency);
      var accounted := done.successfulBytes;
      if accounted > done.totalBytes {
        accounted := done.totalBytes;
      }
      d := d.(bytes := d.bytes + accounted, slots := d.slots[slot := d.slots[slot] + 1]);
      devs := devs[done.dev := d];
    }
  }
}
