/** The lifecycle of the collectors in a diagnostic session: the tracker that records it, the discipline
    its callers keep, and the validation of the session document. */
module Lifecycle {
  import opened FiniteSums

  datatype Name = Cpu | Io | Mem | Lock | Syscall

  datatype Scenario = One(name: Name) | All

  datatype Phase = NotStarted | Pending | Ready | Running | Stopped | Failed

  /** `last_poll_at` of a document row: left out, a time, or text that does not read as a time. */
  datatype Stamp = NoStamp | At(time: nat) | Malformed

  /** A health snapshot: what the programs and maps cost, and the counters, if there is a table of them. */
  datatype Health = Health(runtimeNs: nat, runCount: nat, mapBytes: nat, counters: Option<map<string, nat>>)

  datatype Status = Status(
    name: Name, requested: bool, initialized: bool, phase: Phase, polls: nat, lastPoll: Stamp,
    error: string, healthError: string, health: Option<Health>)

  datatype Tracker = Tracker(order: seq<Name>, statuses: map<Name, Status>, partial: bool)

  /** What reading the health of a collector gives: a snapshot, or an error. */
  datatype Snapshot = Read(health: Health) | Unreadable(error: string)

  function NamesOf(scenario: Scenario): seq<Name> {
    match scenario
    case One(name) => [name]
    case All => [Cpu, Io, Mem, Lock, Syscall]
  }

  predicate Distinct(names: seq<Name>) {
    forall i, j :: 0 <= i < j < |names| ==> names[i] != names[j]
  }

  function SetOf(names: seq<Name>): set<Name> {
    set n | n in names
  }

  function NewTracker(order: seq<Name>): Tracker {
    Tracker(order, map n | n in order :: Status(n, true, false, NotStarted, 0, NoStamp, "", "", None), false)
  }

  // ------------------------------------------------------------------ steps

  datatype Step =
    | Unavailable(error: string)
    | Initialized(name: Name)
    | PollOk(name: Name, at: nat)
    | Fails(name: Name, error: string)
    | Captured(name: Name, snapshot: Snapshot)

  predicate EndsWith(s: string, suffix: string) {
    |suffix| <= |s| && s[|s| - |suffix|..] == suffix
  }

  /** A counter that speaks of lost data. */
  predicate Integrity(name: string) {
    EndsWith(name, "update_fail") || EndsWith(name, "_miss")
  }

  predicate Lossy(counters: map<string, nat>) {
    exists name :: name in counters && Integrity(name) && counters[name] != 0
  }

  /** A missing table is read like an empty one. */
  function CountersOf(h: Health): map<string, nat> {
    if h.counters.Some? then h.counters.value else map[]
  }

  const INTEGRITY_TEXT := "data-integrity counters are non-zero"

  function WithSnapshot(s: Status, snapshot: Snapshot): Status {
    match snapshot
    case Unreadable(error) => s.(healthError := error)
    case Read(health) =>
      s.(health := Some(health), healthError := if Lossy(CountersOf(health)) then INTEGRITY_TEXT else s.healthError)
  }

  function Polled(s: Status, at: nat): Status {
    s.(phase := Running, polls := s.polls + 1, lastPoll := At(at))
  }

  function Apply(t: Tracker, step: Step): Tracker {
    match step
    case Unavailable(error) => t.(statuses := map n | n in t.statuses :: t.statuses[n].(healthError := error))
    case Initialized(n) => if n !in t.statuses then t else
      t.(statuses := t.statuses[n := t.statuses[n].(initialized := true, phase := Ready)])
    case PollOk(n, at) => if n !in t.statuses then t else
      t.(statuses := t.statuses[n := Polled(t.statuses[n], at)])
    case Fails(n, error) => if n !in t.statuses then t else
      t.(statuses := t.statuses[n := t.statuses[n].(phase := Failed, error := error)], partial := true)
    case Captured(n, snapshot) => if n !in t.statuses then t else
      t.(statuses := t.statuses[n := WithSnapshot(t.statuses[n], snapshot)])
  }

  function Judged(s: Status): Status {
    if s.healthError != "" && s.phase != Failed then s.(phase := Failed,
        error := "collector health: " + s.healthError) else s
  }

  function Closed(s: Status): Status {
    match s.phase
    case Ready => s.(phase := Stopped)
    case Running => s.(phase := Stopped)
    case Pending => s.(phase := NotStarted)
    case NotStarted => s
    case Stopped => s
    case Failed => s
  }

  predicate AnyUnhealthy(t: Tracker) {
    exists n :: n in t.statuses && t.statuses[n].healthError != ""
  }

  /** `failUnhealthy` and `finish` at the end of the session. */
  function End(t: Tracker): Tracker {
    t.(statuses := map n | n in t.statuses :: Closed(Judged(t.statuses[n])), partial := t.partial || AnyUnhealthy(t))
  }

  // ------------------------------------------------------------------ the discipline of the callers

  ghost function After(order: seq<Name>, trace: seq<Step>): Tracker {
    if trace == [] then NewTracker(order) else Apply(After(order, trace[..|trace| - 1]), trace[|trace| - 1])
  }

  function CapturedIn(trace: seq<Step>): set<Name> {
    if trace == [] then {} else
      CapturedIn(trace[..|trace| - 1]) + if trace[|trace| - 1].Captured? then {trace[|trace| - 1].name} else {}
  }

  /** When the runners take a step: initialise once, poll only what is initialised and has not failed,
      fail once, and capture the health of what was initialised once, when nothing follows for it. */
  predicate Allowed(t: Tracker, captured: set<Name>, step: Step) {
    match step
    case Unavailable(_) => forall n :: n in t.statuses ==> t.statuses[n].phase.NotStarted?
    case Initialized(n) => n in t.statuses && t.statuses[n].phase.NotStarted?
    case PollOk(n, _) => n in t.statuses && t.statuses[n].phase in {Ready, Running} && n !in captured
    case Fails(n, _) => n in t.statuses && t.statuses[n].phase in {NotStarted, Ready, Running} && n !in captured
    case Captured(n, _) => n in t.statuses && t.statuses[n].initialized && n !in captured
  }

  ghost predicate Disciplined(order: seq<Name>, trace: seq<Step>) {
    trace == [] || (
      var before := trace[..|trace| - 1];
      Disciplined(order, before) && Allowed(After(order, before), CapturedIn(before), trace[|trace| - 1]))
  }

  /** Every collector was tried, and every initialised one had its health captured. */
  predicate Complete(t: Tracker, captured: set<Name>) {
    forall n :: n in t.statuses ==> !t.statuses[n].phase.NotStarted? && (t.statuses[n].initialized ==> n in captured)
  }

  /** A snapshot of which a document can be made: with a counter table, or with an error that has a text. */
  predicate Tells(snapshot: Snapshot) {
    if snapshot.Read? then snapshot.health.counters.Some? else snapshot.error != ""
  }

  /** A step that leaves no trace of a failure because its error has no text, or that leaves a health
      snapshot without a counter table. */
  predicate Mute(t: Tracker, step: Step, n: Name) {
    || step == Fails(n, "")
    || (step.Captured? && step.name == n && !Tells(step.snapshot)
        && (step.snapshot.Read? || (n in t.statuses && t.statuses[n].phase != Failed)))
  }

  ghost predicate Silent(order: seq<Name>, trace: seq<Step>, n: Name) {
    trace != [] && (Silent(order, trace[..|trace| - 1], n) || Mute(After(order, trace[..|trace| - 1]),
        trace[|trace| - 1], n))
  }

  // ------------------------------------------------------------------ what every disciplined run keeps

  /** A health snapshot without a counter table. */
  predicate Tableless(s: Status) {
    s.health.Some? && s.health.value.counters.None?
  }

  predicate Consistent(s: Status, n: Name, captured: bool, silent: bool) {
    && s.name == n && s.requested
    && s.phase in {NotStarted, Ready, Running, Failed}
    && (s.phase.NotStarted? ==> !s.initialized) && (s.phase in {Ready, Running} ==> s.initialized)
    && (s.phase != Failed ==> s.error == "")
    && (captured ==> s.initialized) && (!captured ==> s.health.None?)
    && s.lastPoll != Malformed
    && (silent <==>
        || (s.phase == Failed && s.error == "")
        || (s.phase != Failed && captured && s.health.None? && s.healthError == "")
        || Tableless(s))
  }

  ghost predicate Kept(order: seq<Name>, trace: seq<Step>) {
    var t := After(order, trace);
    && t.order == order && (forall n :: n in t.statuses <==> n in order)
    && (forall n :: n in t.statuses ==> Consistent(t.statuses[n], n, n in CapturedIn(trace), Silent(order, trace, n)))
    && (t.partial <==> exists n :: n in t.statuses && t.statuses[n].phase == Failed)
  }

  lemma StepKeepsOne(t: Tracker, step: Step, captured: set<Name>, n: Name, silent: bool)
    requires Allowed(t, captured, step) && n in t.statuses && Consistent(t.statuses[n], n, n in captured, silent)
    ensures n in Apply(t, step).statuses
    ensures Consistent(Apply(t, step).statuses[n], n,
                       n in captured + (if step.Captured? then {step.name} else {}), silent || Mute(t, step, n))
  {
  }

  lemma StepKeepsPartial(t: Tracker, step: Step, captured: set<Name>)
    requires Allowed(t, captured, step)
    requires t.partial <==> exists n :: n in t.statuses && t.statuses[n].phase == Failed
    ensures var t' := Apply(t, step); t'.partial <==> exists n :: n in t'.statuses && t'.statuses[n].phase == Failed
    ensures forall n :: n in t.statuses && t.statuses[n].phase == Failed ==>
      Apply(t, step).statuses[n].phase == Failed && Apply(t, step).statuses[n].error == t.statuses[n].error
  {
    var t' := Apply(t, step);
    forall n | n in t.statuses && t.statuses[n].phase == Failed ensures t'.statuses[n].phase == Failed &&
        t'.statuses[n].error == t.statuses[n].error {}
    if step.Fails? {
      assert t'.statuses[step.name].phase == Failed;
    } else {
      forall n | n in t'.statuses && t'.statuses[n].phase == Failed ensures t.statuses[n].phase == Failed {}
    }
  }

  lemma {:induction false} EveryRunKeeps(order: seq<Name>, trace: seq<Step>)
    requires Disciplined(order, trace)
    ensures Kept(order, trace)
    decreases |trace|
  {
    if trace != [] {
      var before, step := trace[..|trace| - 1], trace[|trace| - 1];
      EveryRunKeeps(order, before);
      var t := After(order, before);
      StepKeepsPartial(t, step, CapturedIn(before));
      forall n | n in t.statuses
        ensures n in Apply(t, step).statuses
        ensures Consistent(Apply(t, step).statuses[n], n, n in CapturedIn(trace), Silent(order, trace, n))
      {
        StepKeepsOne(t, step, CapturedIn(before), n, Silent(order, before, n));
      }
    }
  }

  /** A collector that has failed stays failed, with the error it failed with. */
  lemma {:induction false} FailedIsAbsorbing(order: seq<Name>, trace: seq<Step>, i: nat, n: Name)
    requires Disciplined(order, trace) && i <= |trace|
    requires n in After(order, trace[..i]).statuses && After(order, trace[..i]).statuses[n].phase == Failed
    ensures n in After(order, trace).statuses && After(order, trace).statuses[n].phase == Failed
    ensures After(order, trace).statuses[n].error == After(order, trace[..i]).statuses[n].error
    decreases |trace|
  {
    if i == |trace| {
      assert trace[..i] == trace;
    } else {
      var before := trace[..|trace| - 1];
      assert before[..i] == trace[..i];
      FailedIsAbsorbing(order, before, i, n);
      EveryRunKeeps(order, before);
      StepKeepsPartial(After(order, before), trace[|trace| - 1], CapturedIn(before));
    }
  }

  // ------------------------------------------------------------------ validation

  predicate ValidRow(s: Status) {
    && s.requested && s.phase in {Stopped, Failed}
    && (s.phase.Stopped? ==> s.initialized && s.error == "" && s.healthError == "" && s.health.Some?)
    && (s.phase.Failed? ==> s.error != "")
    && s.lastPoll != Malformed && !Tableless(s)
  }

  /** The collector section of a valid session document. */
  ghost predicate ValidCollectors(rows: seq<Status>, expected: set<Name>, partial: bool) {
    && rows != []
    && (forall i :: 0 <= i < |rows| ==> ValidRow(rows[i]) && rows[i].name in expected)
    && (forall i, j :: 0 <= i < j < |rows| ==> rows[i].name != rows[j].name)
    && (forall n :: n in expected ==> exists i :: 0 <= i < |rows| && rows[i].name == n)
    && (partial <==> exists i :: 0 <= i < |rows| && rows[i].phase == Failed)
  }

  lemma {:induction false} SubsetSize(a: set<Name>, b: set<Name>)
    requires a <= b
    ensures |a| <= |b| && (|a| == |b| ==> a == b)
  {
    if a != {} {
      var x :| x in a;
      SubsetSize(a - {x}, b - {x});
    }
  }

  /** The checks of one row. */
  method CheckRow(status: Status) returns (ok: bool)
    ensures ok <==> ValidRow(status)
  {
    if !status.requested {
      return false;
    }
    match status.phase {
      case Stopped =>
        if !status.initialized {
          return false;
        }
        if status.error != "" || status.healthError != "" || status.health.None? {
          return false;
        }
      case Failed =>
      case NotStarted => return false;
      case Pending => return false;
      case Ready => return false;
      case Running => return false;
    }
    if status.lastPoll == Malformed {
      return false;
    }
    if status.phase == Failed && status.error == "" {
      return false;
    }
    return !(status.health.Some? && status.health.value.counters.None?);
  }

  /** The first `i` rows are in order. */
  ghost predicate Checked(rows: seq<Status>, i: nat, expected: set<Name>, seen: set<Name>, failed: bool) {
    && i <= |rows| && seen <= expected
    && (forall n :: n in seen <==> exists j :: 0 <= j < i && rows[j].name == n)
    && (forall j :: 0 <= j < i ==> ValidRow(rows[j]))
    && (forall j, k :: 0 <= j < k < i ==> rows[j].name != rows[k].name)
    && (failed <==> exists j :: 0 <= j < i && rows[j].phase == Failed)
  }

  lemma CheckedStep(rows: seq<Status>, i: nat, expected: set<Name>, seen: set<Name>, failed: bool)
    requires Checked(rows, i, expected, seen, failed) && i < |rows|
    requires ValidRow(rows[i]) && rows[i].name in expected && rows[i].name !in seen
    ensures Checked(rows, i + 1, expected, seen + {rows[i].name}, failed || rows[i].phase == Failed)
  {
  }

  lemma CheckedRejects(rows: seq<Status>, i: nat, expected: set<Name>, seen: set<Name>, failed: bool, partial: bool)
    requires Checked(rows, i, expected, seen, failed) && i < |rows|
    requires !ValidRow(rows[i]) || rows[i].name !in expected || rows[i].name in seen
    ensures !ValidCollectors(rows, expected, partial)
  {
    if rows[i].name in seen {
      var j :| 0 <= j < i && rows[j].name == rows[i].name;
    }
  }

  lemma CheckedAll(rows: seq<Status>, expected: set<Name>, seen: set<Name>, failed: bool, partial: bool)
    requires Checked(rows, |rows|, expected, seen, failed) && rows != []
    ensures |seen| == |expected| && failed == partial <==> ValidCollectors(rows, expected, partial)
  {
    SubsetSize(seen, expected);
    if ValidCollectors(rows, expected, partial) {
      forall n | n in expected ensures n in seen {}
      assert seen == expected;
    }
  }

  /** The collector loop of `ValidateDiagnosticSession`. */
  method ValidateCollectors(rows: seq<Status>, expected: set<Name>, partial: bool) returns (ok: bool)
    ensures ok <==> ValidCollectors(rows, expected, partial)
  {
    if |rows| == 0 {
      return false;
    }
    var failed, seen := false, {};
    for i := 0 to |rows|
      invariant Checked(rows, i, expected, seen, failed)
    {
      var valid := CheckRow(rows[i]);
      if rows[i].name !in expected || rows[i].name in seen || !valid {
        CheckedRejects(rows, i, expected, seen, failed, partial);
        return false;
      }
      CheckedStep(rows, i, expected, seen, failed);
      seen := seen + {rows[i].name};
      failed := failed || rows[i].phase == Failed;
    }
    CheckedAll(rows, expected, seen, failed, partial);
    return |seen| == |expected| && failed == partial;
  }

  /** The document's collector rows, in the tracker's order. */
  function RowsOf(t: Tracker): seq<Status>
    requires forall n :: n in t.order ==> n in t.statuses
  {
    seq(|t.order|, i requires 0 <= i < |t.order| => t.statuses[t.order[i]])
  }

  lemma RowValid(s: Status, n: Name, captured: bool, silent: bool)
    requires Consistent(s, n, captured, silent) && !s.phase.NotStarted? && (s.initialized ==> captured)
    ensures ValidRow(Closed(Judged(s))) <==> !silent
    ensures Closed(Judged(s)).phase == Failed <==> s.phase == Failed || s.healthError != ""
    ensures Closed(Judged(s)).name == n
  {
    assert "collector health: " + s.healthError != "";
  }

  lemma EndRow(t: Tracker, captured: set<Name>, silent: set<Name>, i: nat)
    requires i < |t.order| && forall n :: n in t.order ==> n in t.statuses
    requires Complete(t, captured)
    requires Consistent(t.statuses[t.order[i]], t.order[i], t.order[i] in captured, t.order[i] in silent)
    ensures var row := RowsOf(End(t))[i];
      && row.name == t.order[i] && (ValidRow(row) <==> t.order[i] !in silent)
      && (row.phase == Failed <==> t.statuses[t.order[i]].phase == Failed || t.statuses[t.order[i]].healthError != "")
  {
    RowValid(t.statuses[t.order[i]], t.order[i], t.order[i] in captured, t.order[i] in silent);
  }

  lemma EndRows(t: Tracker, captured: set<Name>, silent: set<Name>)
    requires t.order != [] && Distinct(t.order) && Complete(t, captured)
    requires forall n :: n in t.statuses <==> n in t.order
    requires forall n :: n in t.statuses ==> Consistent(t.statuses[n], n, n in captured, n in silent)
    requires t.partial <==> exists n :: n in t.statuses && t.statuses[n].phase == Failed
    ensures ValidCollectors(RowsOf(End(t)), SetOf(t.order), End(t).partial) <==>
            forall n :: n in t.order ==> n !in silent
  {
    var rows := RowsOf(End(t));
    forall i | 0 <= i < |rows|
      ensures rows[i].name == t.order[i] && (ValidRow(rows[i]) <==> t.order[i] !in silent)
      ensures rows[i].phase == Failed <==>
              t.statuses[t.order[i]].phase == Failed || t.statuses[t.order[i]].healthError != ""
    {
      EndRow(t, captured, silent, i);
    }
    PartialAtEnd(t, End(t), rows);
    NamedRows(rows, t.order, End(t).partial);
    if forall i :: 0 <= i < |rows| ==> ValidRow(rows[i]) {
      forall n | n in t.order ensures n !in silent {
        var i :| 0 <= i < |t.order| && t.order[i] == n;
        assert ValidRow(rows[i]);
      }
    }
  }

  /** After any disciplined and complete run, whatever failed when, the session document is valid exactly
      when no failure came without a text; partial holds exactly when some collector ends failed. */
  lemma EndIsValid(order: seq<Name>, trace: seq<Step>)
    requires order != [] && Distinct(order) && Disciplined(order, trace)
    requires Complete(After(order, trace), CapturedIn(trace))
    ensures After(order, trace).order == order && forall n :: n in order ==> n in After(order, trace).statuses
    ensures ValidCollectors(RowsOf(End(After(order, trace))), SetOf(order), End(After(order, trace)).partial)
            <==> forall n :: n in order ==> !Silent(order, trace, n)
  {
    EveryRunKeeps(order, trace);
    EndRows(After(order, trace), CapturedIn(trace), set n | n in order && Silent(order, trace, n));
  }

  /** Rows named after distinct names are valid as a whole when each is. */
  lemma NamedRows(rows: seq<Status>, order: seq<Name>, partial: bool)
    requires order != [] && Distinct(order) && |rows| == |order|
    requires forall i :: 0 <= i < |rows| ==> rows[i].name == order[i]
    requires partial <==> exists i :: 0 <= i < |rows| && rows[i].phase == Failed
    ensures ValidCollectors(rows, SetOf(order), partial) <==> forall i :: 0 <= i < |rows| ==> ValidRow(rows[i])
  {
    forall n | n in order ensures exists i :: 0 <= i < |rows| && rows[i].name == n {
      var i :| 0 <= i < |order| && order[i] == n;
      assert rows[i].name == n;
    }
  }

  lemma PartialAtEnd(t: Tracker, e: Tracker, rows: seq<Status>)
    requires e == End(t) && (forall n :: n in t.statuses <==> n in t.order) && rows == RowsOf(e)
    requires t.partial <==> exists n :: n in t.statuses && t.statuses[n].phase == Failed
    requires forall i :: 0 <= i < |rows| ==>
      (rows[i].phase == Failed <==> t.statuses[t.order[i]].phase == Failed || t.statuses[t.order[i]].healthError != "")
    ensures e.partial <==> exists i :: 0 <= i < |rows| && rows[i].phase == Failed
  {
    if e.partial {
      var n :| n in t.statuses && (t.statuses[n].phase == Failed || t.statuses[n].healthError != "");
      var i :| 0 <= i < |t.order| && t.order[i] == n;
      assert rows[i].phase == Failed;
    }
    if i :| 0 <= i < |rows| && rows[i].phase == Failed {
      assert t.order[i] in t.statuses;
    }
  }

  // ------------------------------------------------------------------ who ends clean

  predicate FailedIn(trace: seq<Step>, n: Name) {
    exists i :: 0 <= i < |trace| && trace[i].Fails? && trace[i].name == n
  }

  /** The health error of a collector, from the steps alone. */
  function HealthText(trace: seq<Step>, n: Name): string {
    if trace == [] then "" else
      var before := HealthText(trace[..|trace| - 1], n);
      match trace[|trace| - 1]
      case Unavailable(error) => error
      case Captured(m, Unreadable(error)) => if m == n then error else before
      case Captured(m, Read(health)) => if m == n && Lossy(CountersOf(health)) then INTEGRITY_TEXT else before
      case Initialized(_) => before
      case PollOk(_, _) => before
      case Fails(_, _) => before
  }

  lemma {:induction false} StatusFromSteps(order: seq<Name>, trace: seq<Step>, n: Name)
    requires Disciplined(order, trace) && n in order
    ensures n in After(order, trace).statuses
    ensures After(order, trace).statuses[n].phase == Failed <==> FailedIn(trace, n)
    ensures After(order, trace).statuses[n].healthError == HealthText(trace, n)
    decreases |trace|
  {
    if trace != [] {
      var before, step := trace[..|trace| - 1], trace[|trace| - 1];
      StatusFromSteps(order, before, n);
      assert FailedIn(trace, n) <==> FailedIn(before, n) || (step.Fails? && step.name == n) by {
        if FailedIn(before, n) {
          var i :| 0 <= i < |before| && before[i].Fails? && before[i].name == n;
          assert trace[i].Fails?;
        }
        if step.Fails? && step.name == n { assert trace[|trace| - 1].Fails?; }
        if FailedIn(trace, n) {
          var i :| 0 <= i < |trace| && trace[i].Fails? && trace[i].name == n;
          if i < |trace| - 1 { assert before[i].Fails?; }
        }
      }
    }
  }

  // ------------------------------------------------------------------ what a row says

  function PollsOf(trace: seq<Step>, n: Name): nat {
    if trace == [] then 0 else
      var last := trace[|trace| - 1];
      PollsOf(trace[..|trace| - 1], n) + if last.PollOk? && last.name == n then 1 else 0
  }

  function LastPollOf(trace: seq<Step>, n: Name): Stamp {
    if trace == [] then NoStamp else
      var last := trace[|trace| - 1];
      if last.PollOk? && last.name == n then At(last.at) else LastPollOf(trace[..|trace| - 1], n)
  }

  function ErrorOf(trace: seq<Step>, n: Name): string {
    if trace == [] then "" else
      var last := trace[|trace| - 1];
      if last.Fails? && last.name == n then last.error else ErrorOf(trace[..|trace| - 1], n)
  }

  function HealthOf(trace: seq<Step>, n: Name): Option<Health> {
    if trace == [] then None else
      var last := trace[|trace| - 1];
      if last.Captured? && last.name == n && last.snapshot.Read? then Some(last.snapshot.health)
      else HealthOf(trace[..|trace| - 1], n)
  }

  predicate InitializedIn(trace: seq<Step>, n: Name) {
    exists i :: 0 <= i < |trace| && trace[i] == Initialized(n)
  }

  /** How far the collector got: its phase, and its polls with the time of the last. */
  predicate Progress(s: Status, trace: seq<Step>, n: Name) {
    && s.name == n && s.requested && (s.initialized <==> InitializedIn(trace, n))
    && s.polls == PollsOf(trace, n) && s.lastPoll == LastPollOf(trace, n)
    && s.phase == if FailedIn(trace, n) then Failed else if PollsOf(trace, n) > 0 then Running
                  else if InitializedIn(trace, n) then Ready else NotStarted
  }

  /** What it reports: its error, and its health. */
  predicate Findings(s: Status, trace: seq<Step>, n: Name) {
    s.error == ErrorOf(trace, n) && s.health == HealthOf(trace, n)
  }

  lemma TraceNext(trace: seq<Step>, n: Name)
    requires trace != []
    ensures var before, step := trace[..|trace| - 1], trace[|trace| - 1];
      && (InitializedIn(trace, n) <==> InitializedIn(before, n) || step == Initialized(n))
      && (FailedIn(trace, n) <==> FailedIn(before, n) || (step.Fails? && step.name == n))
  {
    var before, step := trace[..|trace| - 1], trace[|trace| - 1];
    assert forall i :: 0 <= i < |before| ==> before[i] == trace[i];
    assert trace[|trace| - 1] == step;
  }

  lemma ProgressNext(t: Tracker, captured: set<Name>, trace: seq<Step>, n: Name)
    requires trace != [] && n in t.statuses && Progress(t.statuses[n], trace[..|trace| - 1], n)
    requires Allowed(t, captured, trace[|trace| - 1])
    ensures n in Apply(t, trace[|trace| - 1]).statuses && Progress(Apply(t, trace[|trace| - 1]).statuses[n], trace, n)
  {
    TraceNext(trace, n);
  }

  lemma FindingsNext(t: Tracker, trace: seq<Step>, n: Name)
    requires trace != [] && n in t.statuses && Findings(t.statuses[n], trace[..|trace| - 1], n)
    ensures n in Apply(t, trace[|trace| - 1]).statuses && Findings(Apply(t, trace[|trace| - 1]).statuses[n], trace, n)
  {
  }

  /** Over every disciplined run each field of each row is that of the steps. */
  lemma {:induction false} RowFromSteps(order: seq<Name>, trace: seq<Step>, n: Name)
    requires Disciplined(order, trace) && n in order
    ensures n in After(order, trace).statuses
    ensures Progress(After(order, trace).statuses[n], trace, n) && Findings(After(order, trace).statuses[n], trace, n)
    ensures After(order, trace).statuses[n].healthError == HealthText(trace, n)
    decreases |trace|
  {
    StatusFromSteps(order, trace, n);
    if trace != [] {
      var before := trace[..|trace| - 1];
      RowFromSteps(order, before, n);
      ProgressNext(After(order, before), CapturedIn(before), trace, n);
      FindingsNext(After(order, before), trace, n);
    }
  }

  /** At the end of the session: the error is that of the failure or, for a collector that did not fail
      but is unhealthy, says what is wrong with its health; polls and health are as they were. */
  lemma FinalRowFromSteps(order: seq<Name>, trace: seq<Step>, n: Name)
    requires Disciplined(order, trace) && n in order
    ensures n in End(After(order, trace)).statuses
    ensures var s := End(After(order, trace)).statuses[n];
      && s.polls == PollsOf(trace, n) && s.lastPoll == LastPollOf(trace, n)
      && s.health == HealthOf(trace, n) && s.healthError == HealthText(trace, n)
      && s.error == (if FailedIn(trace, n) || HealthText(trace, n) == "" then ErrorOf(trace, n)
                     else "collector health: " + HealthText(trace, n))
      && s.phase == if FailedIn(trace, n) || HealthText(trace, n) != "" then Failed
                    else if InitializedIn(trace, n) || PollsOf(trace, n) > 0 then Stopped else NotStarted
  {
    RowFromSteps(order, trace, n);
    EndedRow(After(order, trace).statuses[n], trace, n);
  }

  lemma EndedRow(s: Status, trace: seq<Step>, n: Name)
    requires Progress(s, trace, n) && Findings(s, trace, n)
    ensures var e := Closed(Judged(s));
      && e.polls == s.polls && e.lastPoll == s.lastPoll && e.health == s.health && e.healthError == s.healthError
      && e.error == (if FailedIn(trace, n) || s.healthError == "" then s.error
                     else "collector health: " + s.healthError)
      && e.phase == if FailedIn(trace, n) || s.healthError != "" then Failed
                    else if InitializedIn(trace, n) || s.polls > 0 then Stopped else NotStarted
  {
  }

  predicate Counts(counters: map<string, nat>, name: string) {
    name in counters && counters[name] != 0
  }

  /** A table is lossy exactly if a counter with one of the two endings is not 0. */
  lemma LossyMeans(counters: map<string, nat>)
    ensures Lossy(counters)
            <==> exists stem: string :: Counts(counters, stem + "update_fail") || Counts(counters, stem + "_miss")
  {
    if name :| name in counters && Integrity(name) && counters[name] != 0 {
      if EndsWith(name, "update_fail") {
        assert name == name[..|name| - 11] + "update_fail" && Counts(counters, name[..|name| - 11] + "update_fail");
      } else {
        assert name == name[..|name| - 5] + "_miss" && Counts(counters, name[..|name| - 5] + "_miss");
      }
    }
    if stem: string :| Counts(counters, stem + "update_fail") || Counts(counters, stem + "_miss") {
      if Counts(counters, stem + "update_fail") {
        assert Integrity(stem + "update_fail");
      } else {
        assert Integrity(stem + "_miss");
      }
    }
  }

  /** A collector ends stopped, a clean observation, exactly when none of its initialisation, polls and
      health reads failed and no integrity counter of it was non-zero. */
  lemma StoppedIffClean(order: seq<Name>, trace: seq<Step>, n: Name)
    requires Disciplined(order, trace) && n in order && Complete(After(order, trace), CapturedIn(trace))
    ensures n in End(After(order, trace)).statuses
    ensures End(After(order, trace)).statuses[n].phase == Stopped <==> !FailedIn(trace, n) && HealthText(trace, n) == ""
  {
    StatusFromSteps(order, trace, n);
    EveryRunKeeps(order, trace);
    RowValid(After(order, trace).statuses[n], n, n in CapturedIn(trace), Silent(order, trace, n));
    assert Closed(Judged(After(order, trace).statuses[n])).phase in {Stopped, Failed};
  }

  // ------------------------------------------------------------------ the tracker

  /** One more step of a trace, and everything that is told from traces. */
  ghost predicate Follows(order: seq<Name>, before: seq<Step>, after: seq<Step>, step: Step) {
    && after == before + [step]
    && (Disciplined(order, before) && Allowed(After(order, before), CapturedIn(before), step) ==>
          Disciplined(order, after))
    && After(order, after) == Apply(After(order, before), step)
    && CapturedIn(after) == CapturedIn(before) + (if step.Captured? then {step.name} else {})
    && (forall n :: Silent(order, after, n) <==> Silent(order, before, n) || Mute(After(order, before), step, n))
  }

  lemma Extend(order: seq<Name>, before: seq<Step>, step: Step)
    ensures Follows(order, before, before + [step], step)
  {
    assert (before + [step])[..|before|] == before;
  }

  /** A loop over the rows in any order: those in `todo` are still to be changed by `f`. */
  ghost predicate Sweep(before: map<Name, Status>, now: map<Name, Status>, todo: set<Name>, f: Status -> Status) {
    && todo <= before.Keys && now.Keys == before.Keys
    && forall n :: n in before ==> now[n] == if n in todo then before[n] else f(before[n])
  }

  lemma SweepStep(before: map<Name, Status>, now: map<Name, Status>, todo: set<Name>, f: Status -> Status, n: Name)
    requires Sweep(before, now, todo, f) && n in todo
    ensures Sweep(before, now[n := f(now[n])], todo - {n}, f)
  {
  }

  function WithHealthError(error: string): Status -> Status {
    (s: Status) => s.(healthError := error)
  }

  lemma SweptUnavailable(t: Tracker, now: map<Name, Status>, error: string)
    requires Sweep(t.statuses, now, {}, WithHealthError(error))
    ensures now == Apply(t, Unavailable(error)).statuses
  {
  }

  class CollectorTracker {
    const order: seq<Name>
    var statuses: map<Name, Status>
    var partial: bool
    ghost var trace: seq<Step>

    function View(): Tracker
      reads this
    {
      Tracker(order, statuses, partial)
    }

    /** Its callers have kept the discipline. */
    ghost predicate Valid()
      reads this
    {
      && order != [] && Distinct(order) && statuses.Keys == SetOf(order)
      && Disciplined(order, trace) && View() == After(order, trace)
    }

    /** No failure was recorded without a text. */
    ghost predicate Loud()
      reads this
    {
      forall n :: !Silent(order, trace, n)
    }

    constructor (scenario: Scenario)
      ensures Valid() && Loud() && order == NamesOf(scenario) && trace == [] && View() == NewTracker(NamesOf(scenario))
    {
      order := NamesOf(scenario);
      statuses := NewTracker(NamesOf(scenario)).statuses;
      partial := false;
      trace := [];
    }

    method MarkInitialized(n: Name)
      modifies this
      ensures View() == Apply(old(View()), Initialized(n)) && Follows(order, old(trace), trace, Initialized(n))
    {
      if n in statuses {
        statuses := statuses[n := statuses[n].(initialized := true, phase := Ready)];
      }
      Extend(order, trace, Initialized(n));
      trace := trace + [Initialized(n)];
    }

    method PollOK(n: Name, at: nat)
      modifies this
      ensures View() == Apply(old(View()), PollOk(n, at)) && Follows(order, old(trace), trace, PollOk(n, at))
    {
      if n in statuses {
        var s := statuses[n];
        statuses := statuses[n := s.(phase := Running, polls := s.polls + 1, lastPoll := At(at))];
      }
      Extend(order, trace, PollOk(n, at));
      trace := trace + [PollOk(n, at)];
    }

    method Fail(n: Name, error: string)
      modifies this
      ensures View() == Apply(old(View()), Fails(n, error)) && Follows(order, old(trace), trace, Fails(n, error))
    {
      if n in statuses {
        statuses := statuses[n := statuses[n].(phase := Failed, error := error)];
        partial := true;
      }
      Extend(order, trace, Fails(n, error));
      trace := trace + [Fails(n, error)];
    }

    method HealthUnavailable(error: string)
      modifies this
      ensures View() == Apply(old(View()), Unavailable(error)) && Follows(order, old(trace), trace, Unavailable(error))
    {
      var todo := statuses.Keys;
      while todo != {}
        invariant Sweep(old(statuses), statuses, todo, WithHealthError(error))
        invariant partial == old(partial) && trace == old(trace)
        decreases |todo|
      {
        var n :| n in todo;
        SweepStep(old(statuses), statuses, todo, WithHealthError(error), n);
        statuses := statuses[n := statuses[n].(healthError := error)];
        todo := todo - {n};
      }
      SweptUnavailable(old(View()), statuses, error);
      Extend(order, trace, Unavailable(error));
      trace := trace + [Unavailable(error)];
    }

    method CaptureHealth(n: Name, snapshot: Snapshot)
      modifies this
      ensures View() == Apply(old(View()), Captured(n, snapshot))
      ensures Follows(order, old(trace), trace, Captured(n, snapshot))
    {
      if n in statuses {
        match snapshot {
          case Unreadable(error) =>
            statuses := statuses[n := statuses[n].(healthError := error)];
          case Read(health) =>
            var lossy := HealthIntegrity(CountersOf(health));
            var s := statuses[n].(health := Some(health));
            statuses := statuses[n := if lossy then s.(healthError := INTEGRITY_TEXT) else s];
        }
      }
      Extend(order, trace, Captured(n, snapshot));
      trace := trace + [Captured(n, snapshot)];
    }

    /** Every collector whose health is in doubt fails. */
    method FailUnhealthy() returns (unhealthy: bool)
      modifies `statuses, `partial
      ensures statuses.Keys == old(statuses).Keys
      ensures forall n :: n in statuses ==> statuses[n] == Judged(old(statuses)[n])
      ensures unhealthy <==> AnyUnhealthy(old(View()))
      ensures partial == (old(partial) || unhealthy)
    {
      ghost var before := statuses;
      unhealthy := false;
      var todo := statuses.Keys;
      while todo != {}
        invariant Sweep(before, statuses, todo, Judged)
        invariant unhealthy <==> exists n :: n in before && n !in todo && before[n].healthError != ""
        invariant partial == (old(partial) || unhealthy)
        decreases |todo|
      {
        var n :| n in todo;
        var s := statuses[n];
        SweepStep(before, statuses, todo, Judged, n);
        if s.healthError != "" {
          if s.phase != Failed {
            statuses := statuses[n := s.(phase := Failed, error := "collector health: " + s.healthError)];
          }
          unhealthy, partial := true, true;
        }
        todo := todo - {n};
      }
    }

    method Finish()
      modifies `statuses
      ensures statuses.Keys == old(statuses).Keys
      ensures forall n :: n in statuses ==> statuses[n] == Closed(old(statuses)[n])
    {
      ghost var before := statuses;
      var todo := statuses.Keys;
      while todo != {}
        invariant Sweep(before, statuses, todo, Closed)
        decreases |todo|
      {
        var n :| n in todo;
        var s := statuses[n];
        SweepStep(before, statuses, todo, Closed, n);
        if s.phase == Ready || s.phase == Running {
          statuses := statuses[n := s.(phase := Stopped)];
        } else if s.phase == Pending {
          statuses := statuses[n := s.(phase := NotStarted)];
        }
        todo := todo - {n};
      }
    }

    /** `snapshot`: the rows of the document. */
    method Rows() returns (rows: seq<Status>)
      requires forall n :: n in order ==> n in statuses
      ensures rows == RowsOf(View())
    {
      rows := [];
      for i := 0 to |order|
        invariant |rows| == i && forall j :: 0 <= j < i ==> rows[j] == statuses[order[j]]
      {
        rows := rows + [statuses[order[i]]];
      }
    }
  }

  /** `healthIntegrityError` */
  method HealthIntegrity(counters: map<string, nat>) returns (lossy: bool)
    ensures lossy <==> Lossy(counters)
  {
    lossy := false;
    var todo := counters.Keys;
    while todo != {}
      invariant todo <= counters.Keys
      invariant lossy <==> exists name :: name in counters && name !in todo && Integrity(name) && counters[name] != 0
      decreases |todo|
    {
      var name :| name in todo;
      if counters[name] != 0 && Integrity(name) {
        lossy := true;
      }
      todo := todo - {name};
    }
  }
}
