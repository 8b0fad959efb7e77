/** The aggregation of anomaly reports into incidents: a report joins the latest incident of its key when
    their time windows touch, and opens a new incident otherwise. */
module IncidentReport {
  import opened Common
  import opened FiniteSums

  /** 10 ms, the tolerance for clock sampling between adjacent windows, in nanoseconds. */
  const TOLERANCE := 10_000_000

  /** A time window as its RFC 3339 texts parse; None is a text that does not. */
  datatype Window = Window(start: Option<int>, end: Option<int>, elapsed: int) {
    predicate Parses() {
      start.Some? && end.Some?
    }

    predicate Valid() {
      Parses() && start.value <= end.value
    }
  }

  datatype Kind = Lock | Syscall | Other

  /** The aggregation key: the kind of anomaly and everything else that identifies the object. */
  datatype Key = Key(kind: Kind, id: nat)

  /** Key metrics by name; `Named` is any metric that merging does not touch. */
  datatype Metric =
    | OffcpuRatio | TotalWait | P99Wait | MaxWait | WaiterCount | BlockCount
    | CallsPerSec | AvgLat | MaxLat | TotalMsPerSec
    | Suppressed | Merged | AffectedTids | Named(name: nat)

  datatype Report = Report(key: Key, window: Window, metrics: map<Metric, int>, tid: nat, pid: nat)

  function Get(metrics: map<Metric, int>, m: Metric): int {
    if m in metrics then metrics[m] else 0
  }

  // ------------------------------------------------------------------ windows

  /** `windowsTouch` */
  predicate Touch(a: Window, b: Window) {
    a.Parses() && b.Parses() && (
      (b.start.value <= a.end.value && a.start.value <= b.end.value)
      || (if b.start.value > a.end.value then b.start.value - a.end.value <= TOLERANCE
          else a.start.value - b.end.value <= TOLERANCE))
  }

  /** Two windows touch exactly if the gap between them, in either order, is at most 10 ms. */
  lemma TouchIsGap(a: Window, b: Window)
    requires a.Valid() && b.Valid()
    ensures Touch(a, b) <==> b.start.value <= a.end.value + 10_000_000 && a.start.value <= b.end.value + 10_000_000
  {
  }

  /** `mergeWindow` */
  function MergeWindow(a: Window, b: Window): Window {
    var start := if a.start.Some? && b.start.Some? && b.start.value < a.start.value then b.start else a.start;
    var end := if a.end.Some? && b.end.Some? && b.end.value > a.end.value then b.end else a.end;
    var elapsed := if start.Some? && end.Some? && end.value > start.value then end.value - start.value else a.elapsed;
    Window(start, end, elapsed)
  }

  // ------------------------------------------------------------------ merging and adding

  predicate Summed(kind: Kind, m: Metric) {
    kind == Lock && m in {TotalWait, BlockCount}
  }

  predicate Maximised(kind: Kind, m: Metric) {
    match kind
    case Lock => m in {OffcpuRatio, P99Wait, MaxWait, WaiterCount}
    case Syscall => m in {CallsPerSec, AvgLat, MaxLat, TotalMsPerSec}
    case Other => false
  }

  function LockMetrics(into: map<Metric, int>, a: map<Metric, int>, b: map<Metric, int>): map<Metric, int> {
    into[OffcpuRatio := Max(0, Max(Get(a, OffcpuRatio), Get(b, OffcpuRatio)))]
        [TotalWait := Get(a, TotalWait) + Get(b, TotalWait)]
        [P99Wait := Max(0, Max(Get(a, P99Wait), Get(b, P99Wait)))]
        [MaxWait := Max(0, Max(Get(a, MaxWait), Get(b, MaxWait)))]
        [WaiterCount := Max(0, Max(Get(a, WaiterCount), Get(b, WaiterCount)))]
        [BlockCount := Get(a, BlockCount) + Get(b, BlockCount)]
  }

  function SyscallMetrics(into: map<Metric, int>, a: map<Metric, int>, b: map<Metric, int>): map<Metric, int> {
    into[CallsPerSec := Max(0, Max(Get(a, CallsPerSec), Get(b, CallsPerSec)))]
        [AvgLat := Max(0, Max(Get(a, AvgLat), Get(b, AvgLat)))]
        [MaxLat := Max(0, Max(Get(a, MaxLat), Get(b, MaxLat)))]
        [TotalMsPerSec := Max(0, Max(Get(a, TotalMsPerSec), Get(b, TotalMsPerSec)))]
  }

  /** `mergeReport`; `severe` is the verdict of `moreSevere(next, old)`, which picks the representative. */
  function MergeReport(old_: Report, next: Report, severe: bool): Report {
    var rep := if severe then next else old_;
    var other := if severe then old_ else next;
    var metrics := match rep.key.kind
      case Lock => LockMetrics(rep.metrics, rep.metrics, other.metrics)
      case Syscall => SyscallMetrics(rep.metrics, rep.metrics, other.metrics)
      case Other => rep.metrics;
    rep.(window := MergeWindow(rep.window, other.window), metrics := metrics)
  }

  /** `addAffected` */
  function Affected(ids: set<nat>, r: Report): set<nat> {
    if r.tid != 0 then ids + {r.tid} else if r.pid != 0 then ids + {r.pid} else ids
  }

  /** `setAggregationMetrics` */
  function WithCounts(r: Report, count: nat, affected: set<nat>): Report {
    var metrics := if count > 1 then r.metrics[Suppressed := count - 1][Merged := count] else r.metrics;
    if |affected| > 1 && r.key.kind == Lock then r.(metrics := metrics[AffectedTids := |affected|])
    else r.(metrics := metrics)
  }

  datatype State = State(
    reports: seq<Report>, entries: map<Key, nat>, counts: map<Key, nat>, affected: map<Key, set<nat>>) {
    predicate Sound() {
      entries.Keys == counts.Keys == affected.Keys && forall k :: k in entries ==> entries[k] < |reports|
    }
  }

  datatype Addition = Addition(report: Report, severe: bool)

  /** `Aggregator.Add` */
  function Add(s: State, x: Addition): (s': State)
    requires s.Sound()
    ensures s'.Sound()
  {
    var r := x.report;
    var k := r.key;
    if k !in s.entries || !Touch(s.reports[s.entries[k]].window, r.window) then
      var affected := Affected({}, r);
      State(s.reports + [WithCounts(r, 1, affected)], s.entries[k := |s.reports|], s.counts[k := 1],
          s.affected[k := affected])
    else
      var i, count, affected := s.entries[k], s.counts[k] + 1, Affected(s.affected[k], r);
      State(s.reports[i := WithCounts(MergeReport(s.reports[i], r, x.severe), count, affected)],
            s.entries, s.counts[k := count], s.affected[k := affected])
  }

  function Run(xs: seq<Addition>): (s: State)
    ensures s.Sound()
  {
    if xs == [] then State([], map[], map[], map[]) else Add(Run(xs[..|xs| - 1]), xs[|xs| - 1])
  }

  // ------------------------------------------------------------------ incidents, without merging

  /** An incident as the list of reports that belong to it. */
  datatype Incident = Incident(key: Key, members: seq<Report>)

  /** The earliest start and the latest end; `elapsed` is not part of the comparison. */
  datatype Span = Span(start: Option<int>, end: Option<int>)

  function SpanOf(w: Window): Span {
    Span(w.start, w.end)
  }

  function Hull(members: seq<Report>): Span
    requires members != []
  {
    var last := members[|members| - 1].window;
    if |members| == 1 then SpanOf(last)
    else
      var h := Hull(members[..|members| - 1]);
      Span(if h.start.Some? && last.start.Some? && last.start.value < h.start.value then last.start else h.start,
           if h.end.Some? && last.end.Some? && last.end.value > h.end.value then last.end else h.end)
  }

  predicate Near(h: Span, w: Window) {
    Touch(Window(h.start, h.end, 0), w)
  }

  /** The latest incident of a key. */
  function Latest(incidents: seq<Incident>, k: Key): Option<nat> {
    if incidents == [] then None
    else if incidents[|incidents| - 1].key == k then Some(|incidents| - 1)
    else Latest(incidents[..|incidents| - 1], k)
  }

  lemma {:induction false} LatestIs(incidents: seq<Incident>, k: Key)
    ensures match Latest(incidents, k)
      case Some(i) =>
        i < |incidents| && incidents[i].key == k && forall j :: i < j < |incidents| ==> incidents[j].key != k
      case None => forall j :: 0 <= j < |incidents| ==> incidents[j].key != k
  {
    if incidents != [] { LatestIs(incidents[..|incidents| - 1], k); }
  }

  lemma {:induction false} LatestSame(a: seq<Incident>, b: seq<Incident>, k: Key)
    requires |a| == |b| && forall i :: 0 <= i < |a| ==> a[i].key == b[i].key
    ensures Latest(a, k) == Latest(b, k)
  {
    if a != [] { LatestSame(a[..|a| - 1], b[..|b| - 1], k); }
  }

  ghost predicate Populated(incidents: seq<Incident>) {
    forall i :: 0 <= i < |incidents| ==> incidents[i].members != []
  }

  function Join(incidents: seq<Incident>, r: Report): (after: seq<Incident>)
    requires forall i :: 0 <= i < |incidents| ==> incidents[i].members != []
    ensures forall i :: 0 <= i < |after| ==> after[i].members != []
  {
    LatestIs(incidents, r.key);
    match Latest(incidents, r.key)
    case Some(i) =>
      if Near(Hull(incidents[i].members), r.window) then incidents[i := Incident(r.key, incidents[i].members + [r])]
      else incidents + [Incident(r.key, [r])]
    case None => incidents + [Incident(r.key, [r])]
  }

  /** Every report joins the latest incident of its key if it touches the hull of its members. */
  function Incidents(xs: seq<Addition>): (incidents: seq<Incident>)
    ensures forall i :: 0 <= i < |incidents| ==> incidents[i].members != []
  {
    if xs == [] then [] else Join(Incidents(xs[..|xs| - 1]), xs[|xs| - 1].report)
  }

  /** What a report says of a metric; nothing is 0. */
  function Shown(r: Report, m: Metric): int {
    match Lookup(r.metrics, m)
    case None => 0
    case Some(v) => v
  }

  function SumOver(members: seq<Report>, m: Metric): int {
    if members == [] then 0 else SumOver(members[..|members| - 1], m) + Shown(members[|members| - 1], m)
  }

  /** The maximum over the members, not below 0 once there are two of them. */
  function MaxOver(members: seq<Report>, m: Metric): int
    requires members != []
  {
    var last := Shown(members[|members| - 1], m);
    if |members| == 1 then last else Max(0, Max(MaxOver(members[..|members| - 1], m), last))
  }

  function AffectedBy(members: seq<Report>): set<nat> {
    if members == [] then {} else Affected(AffectedBy(members[..|members| - 1]), members[|members| - 1])
  }

  /** Those are the threads the members are about, and the processes of members without a thread. */
  lemma {:induction false} AffectedAre(members: seq<Report>, id: nat)
    ensures id in AffectedBy(members)
            <==> id != 0 && exists r :: r in members && (r.tid == id || (r.tid == 0 && r.pid == id))
    decreases |members|
  {
    if members != [] {
      var before, last := members[..|members| - 1], members[|members| - 1];
      AffectedAre(before, id);
      assert forall r :: r in members <==> r in before || r == last;
    }
  }

  /** A metric that merging takes over from the representative. */
  predicate Carried(kind: Kind, m: Metric) {
    && m !in {Suppressed, Merged, AffectedTids}
    && (kind == Lock ==> m !in {TotalWait, BlockCount, OffcpuRatio, P99Wait, MaxWait, WaiterCount})
    && (kind == Syscall ==> m !in {CallsPerSec, AvgLat, MaxLat, TotalMsPerSec})
  }

  /** Thread, process and all metrics that are not combined are those of the same report. */
  ghost predicate TakesAfter(r: Report, p: Report) {
    && r.tid == p.tid && r.pid == p.pid
    && forall m :: Carried(p.key.kind, m) ==> Lookup(r.metrics, m) == Lookup(p.metrics, m)
  }

  /** Total wait and block count are sums, the other metrics that are combined are maxima. */
  ghost predicate Combined(r: Report, kind: Kind, members: seq<Report>)
    requires members != []
  {
    && (kind == Lock ==>
          && (forall m :: m in {TotalWait, BlockCount} ==> Get(r.metrics, m) == SumOver(members, m))
          && forall m :: m in {OffcpuRatio, P99Wait, MaxWait, WaiterCount} ==> Get(r.metrics, m) == MaxOver(members, m))
    && (kind == Syscall ==>
          forall m :: m in {CallsPerSec, AvgLat, MaxLat, TotalMsPerSec} ==> Get(r.metrics, m) == MaxOver(members, m))
  }

  /** The report kept for an incident says what its members say together. */
  ghost predicate Describes(r: Report, inc: Incident)
    requires inc.members != []
  {
    var ms := inc.members;
    && r.key == inc.key && SpanOf(r.window) == Hull(ms) && Combined(r, inc.key.kind, ms)
    && (exists p :: p in ms && p.key == r.key && TakesAfter(r, p))
    && (|ms| == 1 ==> r == ms[0])
    && (|ms| > 1 && r.window.Valid() && r.window.start != r.window.end ==>
          r.window.elapsed == r.window.end.value - r.window.start.value)
    && (|ms| > 1 ==> Get(r.metrics, Merged) == |ms| && Get(r.metrics, Suppressed) == |ms| - 1)
    && (|ms| > 1 && |AffectedBy(ms)| > 1 && inc.key.kind == Lock ==> Get(r.metrics, AffectedTids) == |AffectedBy(ms)|)
  }

  ghost predicate Described(reports: seq<Report>, incidents: seq<Incident>) {
    && Populated(incidents) && |reports| == |incidents|
    && forall i :: 0 <= i < |incidents| ==> Describes(reports[i], incidents[i])
  }

  /** The bookkeeping of `entries`, `counts` and `affected` for one key. */
  ghost predicate Indexed(s: State, incidents: seq<Incident>, k: Key)
    requires Populated(incidents)
  {
    && (k in s.entries <==> Latest(incidents, k).Some?)
    && (k in s.entries ==>
          && Latest(incidents, k) == Some(s.entries[k])
          && s.entries[k] < |incidents| && k in s.counts && k in s.affected
          && s.counts[k] == |incidents[s.entries[k]].members|
          && s.affected[k] == AffectedBy(incidents[s.entries[k]].members))
  }

  ghost predicate Mirrors(s: State, incidents: seq<Incident>) {
    s.Sound() && Described(s.reports, incidents) && forall k :: Indexed(s, incidents, k)
  }

  lemma LockCombines(into: map<Metric, int>, a: map<Metric, int>, b: map<Metric, int>, m: Metric)
    ensures Summed(Lock, m) ==> Get(LockMetrics(into, a, b), m) == Get(a, m) + Get(b, m)
    ensures Maximised(Lock, m) ==> Get(LockMetrics(into, a, b), m) == Max(0, Max(Get(a, m), Get(b, m)))
  {
  }

  lemma SyscallCombines(into: map<Metric, int>, a: map<Metric, int>, b: map<Metric, int>, m: Metric)
    ensures Maximised(Syscall, m) ==> Get(SyscallMetrics(into, a, b), m) == Max(0, Max(Get(a, m), Get(b, m)))
  {
  }

  /** Whichever of the two reports is kept, sums and maxima are those of both. */
  lemma MergeCombines(r: Report, next: Report, severe: bool, m: Metric)
    requires r.key == next.key
    ensures Summed(r.key.kind, m) ==>
      Get(MergeReport(r, next, severe).metrics, m) == Get(r.metrics, m) + Get(next.metrics, m)
    ensures Maximised(r.key.kind, m) ==>
      Get(MergeReport(r, next, severe).metrics, m) == Max(0, Max(Get(r.metrics, m), Get(next.metrics, m)))
    ensures TakesAfter(MergeReport(r, next, severe), if severe then next else r)
  {
    var rep := if severe then next else r;
    var other := if severe then r else next;
    LockCombines(rep.metrics, rep.metrics, other.metrics, m);
    SyscallCombines(rep.metrics, rep.metrics, other.metrics, m);
  }

  lemma CountsKeep(r: Report, count: nat, affected: set<nat>, m: Metric)
    requires m !in {Suppressed, Merged, AffectedTids}
    ensures Lookup(WithCounts(r, count, affected).metrics, m) == Lookup(r.metrics, m)
  {
  }

  lemma CountsSet(r: Report, count: nat, affected: set<nat>)
    requires count > 1
    ensures Get(WithCounts(r, count, affected).metrics, Merged) == count
    ensures Get(WithCounts(r, count, affected).metrics, Suppressed) == count - 1
    ensures |affected| > 1 && r.key.kind == Lock ==>
      Get(WithCounts(r, count, affected).metrics, AffectedTids) == |affected|
    ensures WithCounts(r, count, affected).key == r.key && WithCounts(r, count, affected).window == r.window
  {
  }

  lemma MergeSpans(r: Report, next: Report, severe: bool, members: seq<Report>)
    requires members != [] && SpanOf(r.window) == Hull(members) && Near(Hull(members), next.window) && r.key == next.key
    ensures SpanOf(MergeReport(r, next, severe).window) == Hull(members + [next])
    ensures MergeReport(r, next, severe).key == r.key
  {
    assert (members + [next])[..|members|] == members;
  }

  lemma MergedMetric(r: Report, next: Report, severe: bool, count: nat, affected: set<nat>, m: Metric)
    requires next.key == r.key
    ensures var merged := WithCounts(MergeReport(r, next, severe), count, affected);
      && (Summed(r.key.kind, m) ==> Get(merged.metrics, m) == Get(r.metrics, m) + Get(next.metrics, m))
      && (Maximised(r.key.kind, m) ==> Get(merged.metrics, m) == Max(0, Max(Get(r.metrics, m), Get(next.metrics, m))))
  {
    if Summed(r.key.kind, m) || Maximised(r.key.kind, m) {
      MergeCombines(r, next, severe, m);
      CountsKeep(MergeReport(r, next, severe), count, affected, m);
    }
  }

  lemma OneMoreCombined(r: Report, merged: Report, kind: Kind, members: seq<Report>, next: Report)
    requires members != [] && Combined(r, kind, members)
    requires forall m :: Summed(kind, m) ==> Get(merged.metrics, m) == Get(r.metrics, m) + Get(next.metrics, m)
    requires forall m :: Maximised(kind, m) ==>
      Get(merged.metrics, m) == Max(0, Max(Get(r.metrics, m), Get(next.metrics, m)))
    ensures Combined(merged, kind, members + [next])
  {
    assert (members + [next])[..|members|] == members;
  }

  lemma MergeCombined(r: Report, members: seq<Report>, next: Report, severe: bool, count: nat, affected: set<nat>)
    requires members != [] && next.key == r.key && Combined(r, r.key.kind, members)
    ensures Combined(WithCounts(MergeReport(r, next, severe), count, affected), r.key.kind, members + [next])
  {
    var merged := WithCounts(MergeReport(r, next, severe), count, affected);
    forall m ensures
      && (Summed(r.key.kind, m) ==> Get(merged.metrics, m) == Get(r.metrics, m) + Get(next.metrics, m))
      && (Maximised(r.key.kind, m) ==> Get(merged.metrics, m) == Max(0, Max(Get(r.metrics, m), Get(next.metrics, m))))
    {
      MergedMetric(r, next, severe, count, affected, m);
    }
    OneMoreCombined(r, merged, r.key.kind, members, next);
  }

  lemma MergeDescribes(r: Report, inc: Incident, next: Report, severe: bool)
    requires inc.members != [] && Describes(r, inc) && next.key == inc.key && Near(Hull(inc.members), next.window)
    ensures Describes(WithCounts(MergeReport(r, next, severe), |inc.members| + 1,
                                 Affected(AffectedBy(inc.members), next)),
                      Incident(inc.key, inc.members + [next]))
  {
    var ms, affected := inc.members + [next], Affected(AffectedBy(inc.members), next);
    var merged := MergeReport(r, next, severe);
    assert ms[..|ms| - 1] == inc.members;
    MergeSpans(r, next, severe, inc.members);
    CountsSet(merged, |ms|, affected);
    assert Combined(WithCounts(merged, |ms|, affected), inc.key.kind, ms) by {
      MergeCombined(r, inc.members, next, severe, |ms|, affected);
    }
    RepresentativeStays(r, inc, next, severe);
  }

  lemma RepresentativeStays(r: Report, inc: Incident, next: Report, severe: bool)
    requires inc.members != [] && Describes(r, inc) && next.key == inc.key
    ensures var ms, affected := inc.members + [next], Affected(AffectedBy(inc.members), next);
      exists p :: p in ms && p.key == r.key && TakesAfter(WithCounts(MergeReport(r, next, severe), |ms|, affected), p)
  {
    var p :| p in inc.members && p.key == r.key && TakesAfter(r, p);
    var ms, affected := inc.members + [next], Affected(AffectedBy(inc.members), next);
    var merged := MergeReport(r, next, severe);
    MergeCombines(r, next, severe, TotalWait);
    forall m | Carried(r.key.kind, m)
      ensures Lookup(WithCounts(merged, |ms|, affected).metrics, m) == Lookup(merged.metrics, m)
    {
      CountsKeep(merged, |ms|, affected, m);
    }
    var q := if severe then next else p;
    assert q in ms && TakesAfter(WithCounts(merged, |ms|, affected), q);
  }

  lemma OneCombined(r: Report)
    ensures Combined(r, r.key.kind, [r])
  {
    assert [r][..0] == [];
    assert SumOver([], TotalWait) == 0 && SumOver([], BlockCount) == 0;
  }

  lemma OpenDescribes(r: Report)
    ensures Describes(WithCounts(r, 1, Affected({}, r)), Incident(r.key, [r]))
    ensures Affected({}, r) == AffectedBy([r])
  {
    assert [r][..0] == [];
    assert |Affected({}, r)| <= 1;
    assert WithCounts(r, 1, Affected({}, r)) == r;
    assert Combined(r, r.key.kind, [r]) by { OneCombined(r); }
    assert r in [r] && TakesAfter(r, r);
  }

  lemma OpenIndexes(s: State, incidents: seq<Incident>, x: Addition, j: Key)
    requires s.Sound() && Populated(incidents) && |s.reports| == |incidents| && Indexed(s, incidents, j)
    requires x.report.key !in s.entries || !Touch(s.reports[s.entries[x.report.key]].window, x.report.window)
    ensures Indexed(Add(s, x), incidents + [Incident(x.report.key, [x.report])], j)
  {
    var after := incidents + [Incident(x.report.key, [x.report])];
    assert after[..|incidents|] == incidents;
    OpenDescribes(x.report);
  }

  lemma AddOpens(s: State, incidents: seq<Incident>, x: Addition)
    requires Mirrors(s, incidents)
    requires x.report.key !in s.entries || !Touch(s.reports[s.entries[x.report.key]].window, x.report.window)
    ensures Mirrors(Add(s, x), incidents + [Incident(x.report.key, [x.report])])
  {
    OpenDescribes(x.report);
    var s', after := Add(s, x), incidents + [Incident(x.report.key, [x.report])];
    forall j ensures Indexed(s', after, j) {
      assert Indexed(s, incidents, j);
      OpenIndexes(s, incidents, x, j);
    }
  }

  lemma JoinIndexes(s: State, incidents: seq<Incident>, x: Addition, i: nat, j: Key)
    requires s.Sound() && Populated(incidents) && |s.reports| == |incidents|
    requires Indexed(s, incidents, j) && Indexed(s, incidents, x.report.key)
    requires x.report.key in s.entries && Touch(s.reports[s.entries[x.report.key]].window, x.report.window)
    requires i == s.entries[x.report.key]
    ensures Indexed(Add(s, x), incidents[i := Incident(x.report.key, incidents[i].members + [x.report])], j)
  {
    var ms := incidents[i].members;
    var after := incidents[i := Incident(x.report.key, ms + [x.report])];
    assert (ms + [x.report])[..|ms|] == ms;
    LatestIs(incidents, x.report.key);
    LatestIs(incidents, j);
    LatestSame(after, incidents, j);
  }

  lemma JoinDescribed(reports: seq<Report>, incidents: seq<Incident>, i: nat, r: Report, inc: Incident)
    requires Described(reports, incidents) && i < |incidents| && inc.members != [] && Describes(r, inc)
    ensures Described(reports[i := r], incidents[i := inc])
  {
  }

  lemma AddJoinsDescribed(s: State, incidents: seq<Incident>, x: Addition, i: nat)
    requires s.Sound() && Described(s.reports, incidents) && Indexed(s, incidents, x.report.key)
    requires x.report.key in s.entries && Touch(s.reports[s.entries[x.report.key]].window, x.report.window)
    requires i == s.entries[x.report.key]
    ensures Described(Add(s, x).reports, incidents[i := Incident(x.report.key, incidents[i].members + [x.report])])
  {
    var r, k := x.report, x.report.key;
    LatestIs(incidents, k);
    assert Describes(s.reports[i], incidents[i]);
    MergeDescribes(s.reports[i], incidents[i], r, x.severe);
    JoinDescribed(s.reports, incidents, i, WithCounts(MergeReport(s.reports[i], r, x.severe), s.counts[k] + 1,
        Affected(s.affected[k], r)), Incident(k, incidents[i].members + [r]));
  }

  lemma AddJoins(s: State, incidents: seq<Incident>, x: Addition, i: nat)
    requires Mirrors(s, incidents)
    requires x.report.key in s.entries && Touch(s.reports[s.entries[x.report.key]].window, x.report.window)
    requires i == s.entries[x.report.key]
    ensures Mirrors(Add(s, x), incidents[i := Incident(x.report.key, incidents[i].members + [x.report])])
  {
    assert Indexed(s, incidents, x.report.key);
    var s', after := Add(s, x), incidents[i := Incident(x.report.key, incidents[i].members + [x.report])];
    assert Described(s'.reports, after) by { AddJoinsDescribed(s, incidents, x, i); }
    forall j ensures Indexed(s', after, j) {
      assert Indexed(s, incidents, j);
      JoinIndexes(s, incidents, x, i, j);
    }
  }

  lemma AddMirrors(s: State, incidents: seq<Incident>, x: Addition)
    requires Mirrors(s, incidents)
    ensures Mirrors(Add(s, x), Join(incidents, x.report))
  {
    var k := x.report.key;
    assert Indexed(s, incidents, k);
    LatestIs(incidents, k);
    if k !in s.entries || !Touch(s.reports[s.entries[k]].window, x.report.window) {
      AddOpens(s, incidents, x);
    } else {
      AddJoins(s, incidents, x, s.entries[k]);
    }
  }

  /** Over every sequence of additions, and whatever report is kept as representative: there is one
      report for each incident, and it says what the incident's members say together. */
  lemma {:induction false} AggregateIsGrouping(xs: seq<Addition>)
    ensures Mirrors(Run(xs), Incidents(xs))
    decreases |xs|
  {
    if xs != [] {
      var before := xs[..|xs| - 1];
      AggregateIsGrouping(before);
      AddMirrors(Run(before), Incidents(before), xs[|xs| - 1]);
    }
  }

  // ------------------------------------------------------------------ what the members add up to

  /** The hull contains every member's window, and both its ends are those of members. */
  lemma {:induction false} HullBounds(members: seq<Report>)
    requires members != [] && forall r :: r in members ==> r.window.Parses()
    ensures Hull(members).start.Some? && Hull(members).end.Some?
    ensures forall r :: r in members && r.window.Parses() ==>
      Hull(members).start.value <= r.window.start.value && r.window.end.value <= Hull(members).end.value
    ensures exists r :: r in members && r.window.start == Hull(members).start
    ensures exists r :: r in members && r.window.end == Hull(members).end
    decreases |members|
  {
    var last := members[|members| - 1];
    if |members| > 1 {
      var before := members[..|members| - 1];
      HullBounds(before);
      var first :| first in before && first.window.start == Hull(before).start;
      var final :| final in before && final.window.end == Hull(before).end;
      assert first in members && final in members && last in members;
      forall r | r in members ensures r in before || r == last {}
    }
  }

  ghost function Weigh(members: seq<Report>, w: Report -> int): int {
    if members == [] then 0 else Weigh(members[..|members| - 1], w) + w(members[|members| - 1])
  }

  ghost function Tally(incidents: seq<Incident>, w: Report -> int): int {
    if incidents == [] then 0 else Tally(incidents[..|incidents| - 1], w) + Weigh(incidents[|incidents| - 1].members, w)
  }

  ghost function Added(xs: seq<Addition>, w: Report -> int): int {
    if xs == [] then 0 else Added(xs[..|xs| - 1], w) + w(xs[|xs| - 1].report)
  }

  lemma {:induction false} TallyUpdate(incidents: seq<Incident>, i: nat, inc: Incident, w: Report -> int)
    requires i < |incidents|
    ensures Tally(incidents[i := inc], w)
         == Tally(incidents, w) - Weigh(incidents[i].members, w) + Weigh(inc.members, w)
  {
    var n := |incidents| - 1;
    if i == n {
      assert incidents[i := inc][..n] == incidents[..n];
    } else {
      TallyUpdate(incidents[..n], i, inc, w);
      assert incidents[i := inc][..n] == incidents[..n][i := inc];
    }
  }

  lemma JoinTally(incidents: seq<Incident>, r: Report, w: Report -> int)
    requires Populated(incidents)
    ensures Tally(Join(incidents, r), w) == Tally(incidents, w) + w(r)
  {
    LatestIs(incidents, r.key);
    var begun := incidents + [Incident(r.key, [r])];
    assert begun[..|incidents|] == incidents;
    assert [r][..0] == [] && Weigh([r], w) == Weigh([], w) + w(r);
    if Latest(incidents, r.key).Some? {
      var i := Latest(incidents, r.key).value;
      assert (incidents[i].members + [r])[..|incidents[i].members|] == incidents[i].members;
      TallyUpdate(incidents, i, Incident(r.key, incidents[i].members + [r]), w);
    }
  }

  /** No report is dropped or counted twice, whatever it is weighed by: the incidents' members together
      are the reports added. */
  lemma {:induction false} NothingLost(xs: seq<Addition>, w: Report -> int)
    ensures Tally(Incidents(xs), w) == Added(xs, w)
    decreases |xs|
  {
    if xs != [] {
      NothingLost(xs[..|xs| - 1], w);
      JoinTally(Incidents(xs[..|xs| - 1]), xs[|xs| - 1].report, w);
    }
  }

  ghost function Ones(): Report -> int {
    (r: Report) => 1
  }

  lemma {:induction false} WeighOnes(members: seq<Report>)
    ensures Weigh(members, Ones()) == |members|
  {
    if members != [] { WeighOnes(members[..|members| - 1]); }
  }

  lemma {:induction false} AddedOnes(xs: seq<Addition>)
    ensures Added(xs, Ones()) == |xs|
  {
    if xs != [] { AddedOnes(xs[..|xs| - 1]); }
  }

  /** How many reports an incident says it stands for. */
  function Represents(r: Report, inc: Incident): int {
    if |inc.members| == 1 then 1 else Get(r.metrics, Merged)
  }

  ghost function Represented(reports: seq<Report>, incidents: seq<Incident>): int
    requires |reports| == |incidents|
  {
    if reports == [] then 0
    else Represented(reports[..|reports| - 1], incidents[..|incidents| - 1]) + Represents(reports[|reports| - 1],
        incidents[|incidents| - 1])
  }

  lemma DescribesCount(r: Report, inc: Incident)
    requires inc.members != [] && Describes(r, inc)
    ensures Represents(r, inc) == |inc.members|
  {
  }

  lemma {:induction false} RepresentedIsTally(reports: seq<Report>, incidents: seq<Incident>)
    requires |reports| == |incidents|
    requires forall i :: 0 <= i < |reports| ==> Represents(reports[i], incidents[i]) == |incidents[i].members|
    ensures Represented(reports, incidents) == Tally(incidents, Ones())
    decreases |reports|
  {
    if reports != [] {
      var n := |reports| - 1;
      RepresentedIsTally(reports[..n], incidents[..n]);
      WeighOnes(incidents[n].members);
    }
  }

  /** The merged counts of all incidents add up to the number of additions. */
  lemma CountsAddUp(xs: seq<Addition>)
    ensures |Run(xs).reports| == |Incidents(xs)|
    ensures Represented(Run(xs).reports, Incidents(xs)) == |xs|
  {
    AggregateIsGrouping(xs);
    forall i | 0 <= i < |Incidents(xs)|
      ensures Represents(Run(xs).reports[i], Incidents(xs)[i]) == |Incidents(xs)[i].members|
    {
      DescribesCount(Run(xs).reports[i], Incidents(xs)[i]);
    }
    RepresentedIsTally(Run(xs).reports, Incidents(xs));
    NothingLost(xs, Ones());
    AddedOnes(xs);
  }

  ghost function Blocks(): Report -> int {
    (r: Report) => if r.key.kind == Lock then Shown(r, BlockCount) else 0
  }

  ghost function ReportedBlocks(reports: seq<Report>): int {
    if reports == [] then 0 else ReportedBlocks(reports[..|reports| - 1]) + Blocks()(reports[|reports| - 1])
  }

  lemma {:induction false} WeighBlocks(members: seq<Report>, k: Key)
    requires forall r :: r in members ==> r.key == k
    ensures Weigh(members, Blocks()) == if k.kind == Lock then SumOver(members, BlockCount) else 0
    decreases |members|
  {
    if members != [] { WeighBlocks(members[..|members| - 1], k); }
  }

  ghost predicate KeysMatch(incidents: seq<Incident>) {
    forall i, r :: 0 <= i < |incidents| && r in incidents[i].members ==> r.key == incidents[i].key
  }

  lemma {:induction false} MembersHaveKey(xs: seq<Addition>)
    ensures KeysMatch(Incidents(xs))
    decreases |xs|
  {
    if xs != [] {
      MembersHaveKey(xs[..|xs| - 1]);
      LatestIs(Incidents(xs[..|xs| - 1]), xs[|xs| - 1].report.key);
    }
  }

  lemma DescribesBlocks(r: Report, inc: Incident)
    requires inc.members != [] && Describes(r, inc) && forall x :: x in inc.members ==> x.key == inc.key
    ensures Blocks()(r) == Weigh(inc.members, Blocks())
  {
    WeighBlocks(inc.members, inc.key);
    assert inc.key.kind == Lock ==> Get(r.metrics, BlockCount) == SumOver(inc.members, BlockCount);
  }

  lemma {:induction false} BlocksAreTally(reports: seq<Report>, incidents: seq<Incident>)
    requires |reports| == |incidents|
    requires forall i :: 0 <= i < |reports| ==> Blocks()(reports[i]) == Weigh(incidents[i].members, Blocks())
    ensures ReportedBlocks(reports) == Tally(incidents, Blocks())
    decreases |reports|
  {
    if reports != [] { BlocksAreTally(reports[..|reports| - 1], incidents[..|reports| - 1]); }
  }

  /** Block counts are conserved: all lock incidents together report those of all lock reports added. */
  lemma BlockCountConserved(xs: seq<Addition>)
    ensures ReportedBlocks(Run(xs).reports) == Added(xs, Blocks())
  {
    AggregateIsGrouping(xs);
    MembersHaveKey(xs);
    forall i | 0 <= i < |Incidents(xs)|
      ensures Blocks()(Run(xs).reports[i]) == Weigh(Incidents(xs)[i].members, Blocks())
    {
      DescribesBlocks(Run(xs).reports[i], Incidents(xs)[i]);
    }
    BlocksAreTally(Run(xs).reports, Incidents(xs));
    NothingLost(xs, Blocks());
  }

  // ------------------------------------------------------------------ streams in time order

  /** Windows are valid, and for each key they start in order. */
  ghost predicate InOrder(xs: seq<Addition>) {
    && (forall i :: 0 <= i < |xs| ==> xs[i].report.window.Valid())
    && (forall i, j :: 0 <= i < j < |xs| && xs[i].report.key == xs[j].report.key ==>
          xs[i].report.window.start.value <= xs[j].report.window.start.value)
  }

  predicate Proper(h: Span) {
    h.start.Some? && h.end.Some? && h.start.value <= h.end.value
  }

  /** Incidents start with their first member, and those of one key lie more than 10 ms apart. */
  ghost predicate Apart(incidents: seq<Incident>) {
    && Populated(incidents)
    && (forall i :: 0 <= i < |incidents| ==> Proper(Hull(incidents[i].members)))
    && (forall i :: 0 <= i < |incidents| ==> Hull(incidents[i].members).start == incidents[i].members[0].window.start)
    && (forall i, j :: 0 <= i < j < |incidents| && incidents[i].key == incidents[j].key ==>
          Hull(incidents[j].members).start.value - Hull(incidents[i].members).end.value > TOLERANCE)
  }

  ghost predicate NotBefore(incidents: seq<Incident>, r: Report)
    requires Apart(incidents) && r.window.Valid()
  {
    forall i :: 0 <= i < |incidents| && incidents[i].key == r.key ==>
        Hull(incidents[i].members).start.value <= r.window.start.value
  }

  lemma JoinLatest(incidents: seq<Incident>, r: Report, i: nat)
    requires Apart(incidents) && r.window.Valid() && NotBefore(incidents, r)
    requires i < |incidents| && incidents[i].key == r.key
    ensures var ms := incidents[i].members + [r];
      Proper(Hull(ms)) && Hull(ms).start == Hull(incidents[i].members).start && ms[0] == incidents[i].members[0]
      && Hull(ms).end.value >= Hull(incidents[i].members).end.value
  {
    assert (incidents[i].members + [r])[..|incidents[i].members|] == incidents[i].members;
  }

  lemma JoinKeepsApart(incidents: seq<Incident>, r: Report)
    requires Apart(incidents) && r.window.Valid() && NotBefore(incidents, r)
    ensures Apart(Join(incidents, r))
  {
    LatestIs(incidents, r.key);
    var after := Join(incidents, r);
    if Latest(incidents, r.key).Some? {
      var i := Latest(incidents, r.key).value;
      if Near(Hull(incidents[i].members), r.window) {
        JoinLatest(incidents, r, i);
      } else {
        forall j | 0 <= j < |incidents| && incidents[j].key == r.key
          ensures r.window.start.value - Hull(incidents[j].members).end.value > TOLERANCE
        {
          assert j <= i;
        }
      }
    }
  }

  lemma {:induction false} FirstIsAdded(xs: seq<Addition>, i: nat) returns (n: nat)
    requires i < |Incidents(xs)|
    ensures n < |xs| && xs[n].report == Incidents(xs)[i].members[0] && xs[n].report.key == Incidents(xs)[i].key
    decreases |xs|
  {
    var before, last := xs[..|xs| - 1], xs[|xs| - 1];
    FirstIsKept(Incidents(before), last.report, i);
    if i < |Incidents(before)| {
      n := FirstIsAdded(before, i);
    } else {
      n := |xs| - 1;
    }
  }

  lemma FirstIsKept(before: seq<Incident>, r: Report, i: nat)
    requires forall j :: 0 <= j < |before| ==> before[j].members != []
    requires i < |Join(before, r)|
    ensures Join(before, r)[i].members != []
    ensures i < |before| ==>
      Join(before, r)[i].key == before[i].key && Join(before, r)[i].members[0] == before[i].members[0]
    ensures i >= |before| ==> Join(before, r)[i].key == r.key && Join(before, r)[i].members[0] == r
  {
    LatestIs(before, r.key);
  }

  /** In a stream ordered by time per key, incidents of the same key never come within 10 ms. */
  lemma {:induction false} OrderedStreamsStayApart(xs: seq<Addition>)
    requires InOrder(xs)
    ensures Apart(Incidents(xs))
    decreases |xs|
  {
    if xs != [] {
      var n := |xs| - 1;
      OrderedStreamsStayApart(xs[..n]);
      var before := Incidents(xs[..n]);
      forall i | 0 <= i < |before| && before[i].key == xs[n].report.key
        ensures Hull(before[i].members).start.value <= xs[n].report.window.start.value
      {
        var m := FirstIsAdded(xs[..n], i);
        assert xs[m].report.window.start.value <= xs[n].report.window.start.value;
      }
      JoinKeepsApart(before, xs[n].report);
    }
  }

  // ------------------------------------------------------------------ streams in any order

  function WindowOf(h: Span): Window {
    Window(h.start, h.end, 0)
  }

  ghost predicate ProperHulls(incidents: seq<Incident>) {
    Populated(incidents) && forall i :: 0 <= i < |incidents| ==> Proper(Hull(incidents[i].members))
  }

  /** No two incidents of a key touch. */
  ghost predicate Disjoint(incidents: seq<Incident>)
    requires Populated(incidents)
  {
    forall i, j :: 0 <= i < j < |incidents| && incidents[i].key == incidents[j].key ==>
      !Touching(incidents[i], incidents[j])
  }

  predicate Touching(a: Incident, b: Incident)
    requires a.members != [] && b.members != []
  {
    Near(Hull(a.members), WindowOf(Hull(b.members)))
  }

  /** The report touches no incident of its key but possibly the latest. */
  ghost predicate ClearOf(incidents: seq<Incident>, r: Report)
    requires Populated(incidents)
  {
    forall i :: 0 <= i < |incidents| && incidents[i].key == r.key && Latest(incidents, r.key) != Some(i) ==>
      !Near(Hull(incidents[i].members), r.window)
  }

  /** Growing over a window that touches it, a span comes to touch another one exactly when that window
      does: what lies in a gap of at most 10 ms touches both sides. */
  lemma GrowthTouches(h: Span, other: Span, ms: seq<Report>, r: Report)
    requires ms != [] && h == Hull(ms) && Proper(h) && Proper(other) && r.window.Valid() && Near(h, r.window)
    requires !Near(other, WindowOf(h))
    ensures Near(other, WindowOf(Hull(ms + [r]))) <==> Near(other, r.window)
  {
    assert (ms + [r])[..|ms|] == ms;
  }

  lemma SpanOfOne(r: Report)
    ensures Hull([r]) == SpanOf(r.window)
    ensures forall h: Span :: Near(h, WindowOf(Hull([r]))) <==> Near(h, r.window)
  {}

  /** The report is near the latest incident of its key. */
  ghost predicate JoinsLatest(incidents: seq<Incident>, r: Report)
    requires Populated(incidents)
  {
    var l := Latest(incidents, r.key);
    l.Some? && l.value < |incidents| && Near(Hull(incidents[l.value].members), r.window)
  }

  lemma OpenDisjointIff(incidents: seq<Incident>, r: Report)
    requires ProperHulls(incidents) && r.window.Valid() && Disjoint(incidents)
    requires !JoinsLatest(incidents, r)
    ensures var after := incidents + [Incident(r.key, [r])];
      ProperHulls(after) && (Disjoint(after) <==> ClearOf(incidents, r))
  {
    var opening := Incident(r.key, [r]);
    var after := incidents + [opening];
    SpanOfOne(r);
    LatestIs(incidents, r.key);
    forall i | 0 <= i < |incidents|
      ensures Touching(after[i], opening) <==> Near(Hull(incidents[i].members), r.window) {}
    if !ClearOf(incidents, r) {
      var i :| 0 <= i < |incidents| && incidents[i].key == r.key && Near(Hull(incidents[i].members), r.window);
      assert Touching(after[i], after[|incidents|]);
    }
  }

  lemma JoinDisjointIff(incidents: seq<Incident>, r: Report, l: nat)
    requires ProperHulls(incidents) && r.window.Valid() && Disjoint(incidents)
    requires l < |incidents| && Latest(incidents, r.key) == Some(l) && incidents[l].key == r.key
    requires Near(Hull(incidents[l].members), r.window)
    ensures var after := incidents[l := Incident(r.key, incidents[l].members + [r])];
      ProperHulls(after) && (Disjoint(after) <==> ClearOf(incidents, r))
  {
    var h := Hull(incidents[l].members);
    var grown := Incident(r.key, incidents[l].members + [r]);
    var after := incidents[l := grown];
    HullGrows(incidents[l].members, r);
    LatestIs(incidents, r.key);
    forall i | 0 <= i < l && incidents[i].key == r.key
      ensures Touching(after[i], grown) <==> Near(Hull(incidents[i].members), r.window)
    {
      assert !Touching(incidents[i], incidents[l]);
      GrowthTouches(h, Hull(incidents[i].members), incidents[l].members, r);
    }
    if !ClearOf(incidents, r) {
      var i :| 0 <= i < |incidents| && incidents[i].key == r.key && i != l
               && Near(Hull(incidents[i].members), r.window);
      assert Touching(after[i], after[l]);
    }
  }

  /** Exactly when the next report keeps the incidents of each key apart: if and only if it touches none
      of its key but possibly the latest, the one it would join. */
  lemma AddKeepsDisjointIff(incidents: seq<Incident>, r: Report)
    requires ProperHulls(incidents) && r.window.Valid() && Disjoint(incidents)
    ensures ProperHulls(Join(incidents, r))
    ensures Disjoint(Join(incidents, r)) <==> ClearOf(incidents, r)
  {
    LatestIs(incidents, r.key);
    match Latest(incidents, r.key)
    case Some(l) =>
      if JoinsLatest(incidents, r) { JoinDisjointIff(incidents, r, l); } else { OpenDisjointIff(incidents, r); }
    case None => OpenDisjointIff(incidents, r);
  }

  lemma HullGrows(ms: seq<Report>, r: Report)
    requires ms != [] && Proper(Hull(ms)) && r.window.Valid()
    ensures Proper(Hull(ms + [r])) && Hull(ms + [r]).start.value <= Hull(ms).start.value
    ensures Hull(ms).end.value <= Hull(ms + [r]).end.value
  {
    assert (ms + [r])[..|ms|] == ms;
  }

  /** An incident keeps its key and only grows. */
  lemma JoinGrows(incidents: seq<Incident>, r: Report, i: nat)
    requires ProperHulls(incidents) && r.window.Valid() && i < |incidents|
    ensures i < |Join(incidents, r)| && Join(incidents, r)[i].key == incidents[i].key
    ensures Proper(Hull(Join(incidents, r)[i].members))
    ensures var before, after := Hull(incidents[i].members), Hull(Join(incidents, r)[i].members);
      after.start.value <= before.start.value && before.end.value <= after.end.value
  {
    LatestIs(incidents, r.key);
    HullGrows(incidents[i].members, r);
  }

  lemma JoinProper(incidents: seq<Incident>, r: Report)
    requires ProperHulls(incidents) && r.window.Valid()
    ensures ProperHulls(Join(incidents, r))
  {
    LatestIs(incidents, r.key);
    SpanOfOne(r);
    forall i | 0 <= i < |incidents| ensures Proper(Hull(Join(incidents, r)[i].members)) { JoinGrows(incidents, r, i); }
  }

  /** Incidents that touch go on touching. */
  lemma TouchingStays(incidents: seq<Incident>, r: Report)
    requires ProperHulls(incidents) && r.window.Valid() && !Disjoint(incidents)
    ensures ProperHulls(Join(incidents, r)) && !Disjoint(Join(incidents, r))
  {
    var i, j :| 0 <= i < j < |incidents| && incidents[i].key == incidents[j].key
                && Touching(incidents[i], incidents[j]);
    JoinProper(incidents, r);
    JoinGrows(incidents, r, i);
    JoinGrows(incidents, r, j);
    assert Touching(Join(incidents, r)[i], Join(incidents, r)[j]);
  }

  ghost predicate AllValid(xs: seq<Addition>) {
    forall i :: 0 <= i < |xs| ==> xs[i].report.window.Valid()
  }

  /** At every point the next report touches no incident of its key but possibly the latest. */
  ghost predicate Clear(xs: seq<Addition>) {
    xs == [] || (Clear(xs[..|xs| - 1]) && ClearOf(Incidents(xs[..|xs| - 1]), xs[|xs| - 1].report))
  }

  /** For streams in any order, compacted by hand or merged from several runs: no two incidents of a key
      touch if and only if no report ever touches one of its key other than the latest. */
  lemma {:induction false} StreamDisjointIff(xs: seq<Addition>)
    requires AllValid(xs)
    ensures ProperHulls(Incidents(xs)) && (Disjoint(Incidents(xs)) <==> Clear(xs))
    decreases |xs|
  {
    if xs != [] {
      var before, r := xs[..|xs| - 1], xs[|xs| - 1].report;
      StreamDisjointIff(before);
      assert r.window.Valid();
      if Clear(before) { AddKeepsDisjointIff(Incidents(before), r); } else { TouchingStays(Incidents(before), r); }
    }
  }

  // ------------------------------------------------------------------ aggregating again

  /** Report `i` is the one of its key before report `j`, and their windows touch. */
  ghost predicate Meets(reports: seq<Report>, i: nat, j: nat) {
    && i < j < |reports| && reports[i].key == reports[j].key
    && (forall m :: i < m < j ==> reports[m].key != reports[j].key)
    && Touch(reports[i].window, reports[j].window)
  }

  /** Report `j` touches the one of its key before it. */
  ghost predicate Met(reports: seq<Report>, j: nat) {
    exists i: nat :: Meets(reports, i, j)
  }

  /** Among the first `n` reports, none touches the one of its key before it. */
  ghost predicate Separate(reports: seq<Report>, n: nat) {
    forall j: nat :: j < n ==> !Met(reports, j)
  }

  ghost predicate Adds(ys: seq<Addition>, reports: seq<Report>) {
    |ys| == |reports| && forall i :: 0 <= i < |ys| ==> ys[i].report == reports[i]
  }

  /** `entries` gives the latest report of every key. */
  ghost predicate EntriesLatest(s: State) {
    && s.Sound()
    && (forall k :: k in s.entries ==> s.reports[s.entries[k]].key == k)
    && (forall m :: 0 <= m < |s.reports| ==> NotAfterEntry(s, m))
  }

  ghost predicate NotAfterEntry(s: State, m: nat)
    requires m < |s.reports|
  {
    s.reports[m].key in s.entries && m <= s.entries[s.reports[m].key]
  }

  lemma OpeningIndexes(s: State, r: Report, s': State)
    requires EntriesLatest(s) && s'.Sound()
    requires s'.reports == s.reports + [r] && s'.entries == s.entries[r.key := |s.reports|]
    ensures EntriesLatest(s')
  {
    forall m | 0 <= m < |s'.reports| ensures NotAfterEntry(s', m) {
      if m < |s.reports| { assert NotAfterEntry(s, m); }
    }
  }

  lemma SeparateOpens(s: State, r: Report, severe: bool)
    requires EntriesLatest(s)
    requires r.key in s.entries ==> !Touch(s.reports[s.entries[r.key]].window, r.window)
    ensures Add(s, Addition(r, severe)).reports == s.reports + [r]
    ensures EntriesLatest(Add(s, Addition(r, severe)))
  {
    OpenDescribes(r);
    OpeningIndexes(s, r, Add(s, Addition(r, severe)));
  }

  lemma RunNext(ys: seq<Addition>, i: nat)
    requires i < |ys|
    ensures Run(ys[..i + 1]) == Add(Run(ys[..i]), ys[i])
  {
    assert ys[..i + 1][..i] == ys[..i];
  }

  lemma AddCounts(s: State, x: Addition)
    requires s.Sound()
    ensures var k := x.report.key;
      var merges := k in s.entries && Touch(s.reports[s.entries[k]].window, x.report.window);
      |Add(s, x).reports| == |s.reports| + if merges then 0 else 1
  {}

  /** The latest report of the key is the one that `Meets` compares with. */
  lemma MeetsLatest(s: State, reports: seq<Report>, j: nat)
    requires j < |reports| && s.reports == reports[..j] && EntriesLatest(s)
    ensures Met(reports, j) <==>
      reports[j].key in s.entries && Touch(s.reports[s.entries[reports[j].key]].window, reports[j].window)
  {
    var k := reports[j].key;
    if Met(reports, j) {
      var i: nat :| Meets(reports, i, j);
      assert NotAfterEntry(s, i);
      assert !(i < s.entries[k]);
    }
    if k in s.entries && Touch(s.reports[s.entries[k]].window, reports[j].window) {
      forall m | s.entries[k] < m < j ensures reports[m].key != k { assert NotAfterEntry(s, m); }
      assert Meets(reports, s.entries[k], j);
    }
  }

  lemma AgainOpens(s: State, reports: seq<Report>, n: nat, severe: bool)
    requires n < |reports| && s.reports == reports[..n] && EntriesLatest(s) && !Met(reports, n)
    ensures Add(s, Addition(reports[n], severe)).reports == reports[..n + 1]
    ensures EntriesLatest(Add(s, Addition(reports[n], severe)))
  {
    MeetsLatest(s, reports, n);
    SeparateOpens(s, reports[n], severe);
  }

  lemma AgainMerges(s: State, reports: seq<Report>, n: nat, severe: bool)
    requires n < |reports| && s.reports == reports[..n] && EntriesLatest(s) && Met(reports, n)
    ensures |Add(s, Addition(reports[n], severe)).reports| == n
  {
    MeetsLatest(s, reports, n);
    AddCounts(s, Addition(reports[n], severe));
  }

  /** What adding the first `n` reports makes of them: the same reports, or fewer. */
  ghost predicate Again(s: State, reports: seq<Report>, n: nat)
    requires n <= |reports|
  {
    s.Sound() && if Separate(reports, n) then s.reports == reports[..n] && EntriesLatest(s) else |s.reports| < n
  }

  lemma AgainNext(s: State, reports: seq<Report>, n: nat, x: Addition, s': State)
    requires n < |reports| && Again(s, reports, n) && x.report == reports[n] && s' == Add(s, x)
    ensures Again(s', reports, n + 1)
  {
    SeparateNext(reports, n);
    if !Separate(reports, n) {
      AddCounts(s, x);
    } else if Met(reports, n) {
      AgainMerges(s, reports, n, x.severe);
    } else {
      AgainOpens(s, reports, n, x.severe);
    }
  }

  lemma {:induction false} AgainPrefix(ys: seq<Addition>, reports: seq<Report>, n: nat)
    requires Adds(ys, reports) && n <= |ys|
    ensures Again(Run(ys[..n]), reports, n)
  {
    if n == 0 {
      AgainStarts(ys, reports);
    } else {
      var s, s' := Run(ys[..n - 1]), Run(ys[..n]);
      assert s' == Add(s, ys[n - 1]) by { RunNext(ys, n - 1); }
      assert Again(s, reports, n - 1) by { AgainPrefix(ys, reports, n - 1); }
      AgainNext(s, reports, n - 1, ys[n - 1], s');
    }
  }

  lemma AgainStarts(ys: seq<Addition>, reports: seq<Report>)
    ensures Again(Run(ys[..0]), reports, 0)
  {
    assert ys[..0] == [];
  }

  lemma SeparateNext(reports: seq<Report>, n: nat)
    ensures Separate(reports, n + 1) <==> Separate(reports, n) && !Met(reports, n)
  {
    if Separate(reports, n) && !Separate(reports, n + 1) {
      var j: nat :| j < n + 1 && Met(reports, j);
      assert j == n;
    }
  }

  /** Adding reports to a new aggregator gives them back unchanged, all metrics included, if and only if
      none touches the one of its key before it. */
  lemma AgainIff(ys: seq<Addition>, reports: seq<Report>)
    requires Adds(ys, reports)
    ensures Run(ys).reports == reports <==> Separate(reports, |reports|)
  {
    AgainPrefix(ys, reports, |ys|);
    assert ys[..|ys|] == ys && reports[..|reports|] == reports;
  }

  lemma ApartNeverMeets(out: seq<Report>, incidents: seq<Incident>, i: nat, j: nat)
    requires Described(out, incidents) && Apart(incidents)
    ensures !Meets(out, i, j)
  {
    if i < j < |out| && out[i].key == out[j].key {
      assert Describes(out[i], incidents[i]) && Describes(out[j], incidents[j]);
    }
  }

  /** Aggregating the output of an ordered stream once more changes nothing: not the incidents, their
      windows, nor any metric. */
  lemma AggregationIsIdempotent(xs: seq<Addition>, ys: seq<Addition>)
    requires InOrder(xs) && Adds(ys, Run(xs).reports)
    ensures Run(ys).reports == Run(xs).reports
  {
    AggregateIsGrouping(xs);
    OrderedStreamsStayApart(xs);
    var out, incidents := Run(xs).reports, Incidents(xs);
    forall i: nat, j: nat ensures !Meets(out, i, j) { ApartNeverMeets(out, incidents, i, j); }
    AgainIff(ys, out);
  }

  function At(start: int, end: int): Addition {
    Addition(Report(Key(Other, 1), Window(Some(start), Some(end), end - start), map[], 0, 0), false)
  }

  /** Out of order it is not: the third report touches the second incident and stretches it back over the
      first one, and aggregating again merges the two. */
  lemma OutOfOrderOverlaps()
    ensures var xs := [At(0, 1_000_000_000), At(10_000_000_000, 11_000_000_000), At(500_000_000, 10_500_000_000)];
      var out := Run(xs).reports;
      |out| == 2 && Touch(out[0].window, out[1].window)
      && |Run([Addition(out[0], false), Addition(out[1], false)]).reports| == 1
  {
    var a, b, c := At(0, 1_000_000_000), At(10_000_000_000, 11_000_000_000), At(500_000_000, 10_500_000_000);
    assert [a, b, c][..2] == [a, b] && [a, b][..1] == [a] && [a][..0] == [];
    assert Run([a]).reports == [a.report];
    assert Run([a, b]).reports == [a.report, b.report];
    var out := Run([a, b, c]).reports;
    assert |out| == 2 && out[0] == a.report;
    assert SpanOf(out[1].window) == Span(Some(500_000_000), Some(11_000_000_000)) && out[1].key == out[0].key;
    TouchingMerge(out[0], out[1]);
  }

  lemma TouchingMerge(p: Report, q: Report)
    requires p.key == q.key && Touch(p.window, q.window)
    ensures |Run([Addition(p, false), Addition(q, false)]).reports| == 1
  {
    var y0, y1 := Addition(p, false), Addition(q, false);
    assert [y0, y1][..1] == [y0] && [y0][..0] == [];
    OpenDescribes(p);
    assert Run([y0]).reports == [p];
  }

  // ------------------------------------------------------------------ the aggregator

  class Aggregator {
    var reports: seq<Report>
    var entries: map<Key, nat>
    var counts: map<Key, nat>
    var affected: map<Key, set<nat>>

    function View(): State
      reads this
    {
      State(reports, entries, counts, affected)
    }

    constructor ()
      ensures View() == Run([])
    {
      reports, entries, counts, affected := [], map[], map[], map[];
    }

    method AddReport(x: Addition)
      requires View().Sound()
      modifies this
      ensures View() == Add(old(View()), x)
    {
      var r := x.report;
      var k := r.key;
      if k !in entries || !Touch(reports[entries[k]].window, r.window) {
        entries := entries[k := |reports|];
        counts := counts[k := 1];
        affected := affected[k := Affected({}, r)];
        reports := reports + [WithCounts(r, counts[k], affected[k])];
        return;
      }
      var idx := entries[k];
      counts := counts[k := counts[k] + 1];
      affected := affected[k := Affected(affected[k], r)];
      var merged := MergeReport(reports[idx], r, x.severe);
      reports := reports[idx := WithCounts(merged, counts[k], affected[k])];
    }

    /** The compaction loop: add every report to a new aggregator. */
    method AddAll(xs: seq<Addition>)
      requires View() == Run([])
      modifies this
      ensures View() == Run(xs)
    {
      for i := 0 to |xs|
        invariant View() == Run(xs[..i])
      {
        AddReport(xs[i]);
        assert xs[..i + 1][..i] == xs[..i];
      }
      assert xs[..|xs|] == xs;
    }
  }
}
