/** The runners of a diagnostic session: one scenario, or all five collectors at once, over every pattern
    of initialisation, poll, output and health outcomes. */
module SessionRun {
  import opened FiniteSums
  import opened Lifecycle

  /** What one tick of a collector does: its poll fails, or it reports, or the report cannot be written. */
  datatype Tick = PollFailed(error: string) | Reported | OutputFailed

  /** The outcomes of one collector; rounds beyond the list report. */
  datatype Script = Script(init: Option<string>, warmup: Option<string>, ticks: seq<Tick>, snapshot: Snapshot) {
    function At(round: nat): Tick {
      if round < |ticks| then ticks[round] else Reported
    }

    /** Every error has a text, and a health snapshot has a counter table. */
    predicate Spoken() {
      && init != Some("") && warmup != Some("") && Tells(snapshot)
      && forall i :: 0 <= i < |ticks| ==> ticks[i] != PollFailed("")
    }
  }

  type Scripts = Name -> Script

  /** A poll of these rounds fails, or the one before them. */
  ghost predicate PollsFail(script: Script, rounds: nat) {
    script.warmup.Some? || exists r: nat :: r < rounds && script.At(r).PollFailed?
  }

  /** The collector's own outcomes make it fail within this many rounds. */
  ghost predicate FailsBy(script: Script, rounds: nat) {
    script.init.Some? || PollsFail(script, rounds)
  }

  /** No report of these rounds fails to be written. */
  ghost predicate Writes(script: Script, rounds: nat) {
    forall r: nat :: r < rounds ==> !script.At(r).OutputFailed?
  }

  ghost predicate Writable(scripts: Scripts, rounds: nat) {
    forall n :: Writes(scripts(n), rounds)
  }

  lemma FailsByNext(script: Script, round: nat)
    ensures PollsFail(script, round + 1) <==> PollsFail(script, round) || script.At(round).PollFailed?
  {
    if script.At(round).PollFailed? { assert round < round + 1; }
  }

  lemma FailsLater(script: Script, round: nat, rounds: nat)
    requires PollsFail(script, round) && round <= rounds
    ensures PollsFail(script, rounds)
  {
    if script.warmup.None? {
      var r: nat :| r < round && script.At(r).PollFailed?;
      assert r < rounds;
    }
  }

  /** How a collector would end if it ran by itself: whether it fails, how many of its polls succeed, and
      the error it fails with. */
  datatype Outcome = Outcome(failed: bool, polls: nat, error: string)

  function Alone(script: Script, rounds: nat): Outcome {
    if script.init.Some? then Outcome(true, 0, script.init.value)
    else if script.warmup.Some? then Outcome(true, 0, script.warmup.value)
    else if rounds == 0 then Outcome(false, 1, "")
    else
      var before := Alone(script, rounds - 1);
      if before.failed then before
      else if script.At(rounds - 1).PollFailed? then before.(failed := true, error := script.At(rounds - 1).error)
      else before.(polls := before.polls + 1)
  }

  /** It fails exactly when its outcomes say so. Until then it has one poll to warm up and one for each
      round; if it fails, the error is that of its initialisation, its warm-up or its first failing round,
      and the polls are those before it. */
  lemma {:induction false} AloneSays(script: Script, rounds: nat)
    ensures Alone(script, rounds).failed <==> FailsBy(script, rounds)
    ensures !Alone(script, rounds).failed ==> Alone(script, rounds) == Outcome(false, rounds + 1, "")
    ensures Alone(script, rounds).failed ==>
      || (script.init == Some(Alone(script, rounds).error) && Alone(script, rounds).polls == 0)
      || (script.init.None? && script.warmup == Some(Alone(script, rounds).error) && Alone(script, rounds).polls == 0)
      || (exists r: nat :: r < rounds && !FailsBy(script, r) && Alone(script, rounds).polls == r + 1
                          && script.At(r) == PollFailed(Alone(script, rounds).error))
  {
    if rounds > 0 {
      AloneSays(script, rounds - 1);
      FailsByNext(script, rounds - 1);
    }
  }

  lemma {:induction false} AloneStays(script: Script, round: nat, rounds: nat)
    requires round <= rounds && Alone(script, round).failed
    ensures Alone(script, rounds) == Alone(script, round)
    decreases rounds
  {
    if round < rounds { AloneStays(script, round, rounds - 1); }
  }

  /** The row of a collector says this outcome. */
  predicate RowIs(s: Status, o: Outcome) {
    (s.phase == Failed <==> o.failed) && s.polls == o.polls && s.error == o.error
  }

  /** One tick in the row of a collector in use. */
  predicate Ticked(before: Status, after: Status, tick: Tick) {
    if tick.PollFailed? then after.phase == Failed && after.polls == before.polls && after.error == tick.error
    else after.phase == Running && after.polls == before.polls + 1 && after.error == before.error
  }

  lemma TickedRow(script: Script, round: nat, before: Status, after: Status)
    requires RowIs(before, Alone(script, round)) && before.phase != Failed && Ticked(before, after, script.At(round))
    ensures RowIs(after, Alone(script, round + 1))
  {
  }

  // ------------------------------------------------------------------ when a session returns an error

  /** Nothing of the collector fails, nor does its output. */
  ghost predicate Clean(script: Script, rounds: nat) {
    script.init.None? && script.warmup.None? && forall r: nat :: r < rounds ==> script.At(r).Reported?
  }

  /** A collector still in use has a report that cannot be written. */
  ghost predicate OutputBreaks(script: Script, rounds: nat) {
    exists r: nat :: r < rounds && !FailsBy(script, r) && script.At(r).OutputFailed?
  }

  /** The runner returns an error: strictly, when anything of any collector fails; else when an output
      fails or no collector is left. */
  ghost predicate Errs(order: seq<Name>, scripts: Scripts, rounds: nat, strict: bool) {
    if strict then exists n :: n in order && !Clean(scripts(n), rounds)
    else (forall n :: n in order ==> FailsBy(scripts(n), rounds))
         || exists n :: n in order && OutputBreaks(scripts(n), rounds)
  }

  /** A tick that ends the session. */
  ghost predicate Breaks(script: Script, round: nat, allowPartial: bool) {
    !FailsBy(script, round) && (script.At(round).OutputFailed? || (!allowPartial && script.At(round).PollFailed?))
  }

  ghost predicate RoundStops(ticks: seq<Name>, scripts: Scripts, round: nat, allowPartial: bool) {
    || BreaksBefore(ticks, scripts, round, allowPartial, |ticks|)
    || (forall i :: 0 <= i < |ticks| ==> FailsBy(scripts(ticks[i]), round + 1))
  }

  /** One of the first `i` ticks of the round ends the session. */
  ghost predicate BreaksBefore(ticks: seq<Name>, scripts: Scripts, round: nat, allowPartial: bool, i: nat)
    requires i <= |ticks|
  {
    exists j :: 0 <= j < i && Breaks(scripts(ticks[j]), round, allowPartial)
  }

  lemma BreaksNext(ticks: seq<Name>, scripts: Scripts, round: nat, allowPartial: bool, i: nat)
    requires i < |ticks|
    ensures BreaksBefore(ticks, scripts, round, allowPartial, i + 1) <==>
            BreaksBefore(ticks, scripts, round, allowPartial, i) || Breaks(scripts(ticks[i]), round, allowPartial)
    ensures BreaksBefore(ticks, scripts, round, allowPartial, i + 1) ==> RoundStops(ticks, scripts, round, allowPartial)
  {
    if BreaksBefore(ticks, scripts, round, allowPartial, i) {
      var j :| 0 <= j < i && Breaks(scripts(ticks[j]), round, allowPartial);
      assert j < i + 1;
    }
    if BreaksBefore(ticks, scripts, round, allowPartial, i + 1) {
      var j :| 0 <= j < i + 1 && Breaks(scripts(ticks[j]), round, allowPartial);
      assert j < |ticks|;
    }
  }

  /** The warm-up or some round stops the session. */
  ghost predicate PollsStop(ticks: seq<Name>, scripts: Scripts, rounds: nat, allowPartial: bool) {
    || (!allowPartial && exists i :: 0 <= i < |ticks| && scripts(ticks[i]).warmup.Some?)
    || (forall i :: 0 <= i < |ticks| ==> FailsBy(scripts(ticks[i]), 0))
    || (exists r: nat :: r < rounds && RoundStops(ticks, scripts, r, allowPartial))
  }

  lemma FailsByMonotone(script: Script, round: nat, rounds: nat)
    requires round <= rounds && FailsBy(script, round)
    ensures FailsBy(script, rounds)
  {
    if script.init.None? { FailsLater(script, round, rounds); }
  }

  /** A collector that is not clean fails, or breaks the session, in some first round. */
  lemma {:induction false} FirstBreak(script: Script, rounds: nat) returns (r: nat)
    requires !FailsBy(script, 0) && !Clean(script, rounds)
    ensures r < rounds && Breaks(script, r, false)
    decreases rounds
  {
    if Clean(script, rounds - 1) {
      r := rounds - 1;
      assert !FailsBy(script, r);
    } else {
      r := FirstBreak(script, rounds - 1);
    }
  }

  lemma BreakIsNotClean(script: Script, r: nat, rounds: nat)
    requires r < rounds && (Breaks(script, r, false) || FailsBy(script, r + 1))
    ensures !Clean(script, rounds)
  {
    if FailsBy(script, r + 1) && script.init.None? && script.warmup.None? {
      var k: nat :| k < r + 1 && script.At(k).PollFailed?;
      assert !script.At(k).Reported?;
    } else if Breaks(script, r, false) {
      assert !script.At(r).Reported?;
    }
  }

  /** Strictly, the polls stop exactly when some collector is not clean. */
  lemma StrictStops(ticks: seq<Name>, scripts: Scripts, rounds: nat)
    requires ticks != [] && forall i :: 0 <= i < |ticks| ==> scripts(ticks[i]).init.None?
    ensures PollsStop(ticks, scripts, rounds, false)
            <==> exists i :: 0 <= i < |ticks| && !Clean(scripts(ticks[i]), rounds)
  {
    if i :| 0 <= i < |ticks| && !Clean(scripts(ticks[i]), rounds) {
      if scripts(ticks[i]).warmup.None? {
        var r := FirstBreak(scripts(ticks[i]), rounds);
        assert BreaksBefore(ticks, scripts, r, false, |ticks|) && RoundStops(ticks, scripts, r, false);
      }
    }
    if PollsStop(ticks, scripts, rounds, false) {
      if r: nat :| r < rounds && RoundStops(ticks, scripts, r, false) {
        if BreaksBefore(ticks, scripts, r, false, |ticks|) {
          var i :| 0 <= i < |ticks| && Breaks(scripts(ticks[i]), r, false);
          BreakIsNotClean(scripts(ticks[i]), r, rounds);
        } else {
          BreakIsNotClean(scripts(ticks[0]), r, rounds);
        }
      } else if forall i :: 0 <= i < |ticks| ==> FailsBy(scripts(ticks[i]), 0) {
        assert FailsBy(scripts(ticks[0]), 0) && !Clean(scripts(ticks[0]), rounds);
      } else {
        var i :| 0 <= i < |ticks| && scripts(ticks[i]).warmup.Some?;
        assert !Clean(scripts(ticks[i]), rounds);
      }
    }
  }

  /** Otherwise, when an output breaks or nobody is left. */
  lemma PartialStops(ticks: seq<Name>, scripts: Scripts, rounds: nat)
    ensures PollsStop(ticks, scripts, rounds, true) <==>
      || (forall i :: 0 <= i < |ticks| ==> FailsBy(scripts(ticks[i]), rounds))
      || (exists i :: 0 <= i < |ticks| && OutputBreaks(scripts(ticks[i]), rounds))
  {
    if PollsStop(ticks, scripts, rounds, true) {
      if r: nat :| r < rounds && RoundStops(ticks, scripts, r, true) {
        if BreaksBefore(ticks, scripts, r, true, |ticks|) {
          var i :| 0 <= i < |ticks| && Breaks(scripts(ticks[i]), r, true);
          assert OutputBreaks(scripts(ticks[i]), rounds);
        } else {
          forall i | 0 <= i < |ticks| ensures FailsBy(scripts(ticks[i]), rounds) {
            FailsByMonotone(scripts(ticks[i]), r + 1, rounds);
          }
        }
      } else {
        forall i | 0 <= i < |ticks| ensures FailsBy(scripts(ticks[i]), rounds) {
          FailsByMonotone(scripts(ticks[i]), 0, rounds);
        }
      }
    }
    if forall i :: 0 <= i < |ticks| ==> FailsBy(scripts(ticks[i]), rounds) {
      if rounds > 0 { assert RoundStops(ticks, scripts, rounds - 1, true); }
    } else if i :| 0 <= i < |ticks| && OutputBreaks(scripts(ticks[i]), rounds) {
      var r: nat :| r < rounds && !FailsBy(scripts(ticks[i]), r) && scripts(ticks[i]).At(r).OutputFailed?;
      assert Breaks(scripts(ticks[i]), r, true);
      assert BreaksBefore(ticks, scripts, r, true, |ticks|) && RoundStops(ticks, scripts, r, true);
    }
  }

  /** The health error after the snapshot, given the one before. */
  function HealthAfter(before: string, snapshot: Snapshot): string {
    match snapshot
    case Unreadable(error) => error
    case Read(health) => if Lossy(CountersOf(health)) then INTEGRITY_TEXT else before
  }

  ghost predicate AllSpoken(scripts: Scripts) {
    forall n :: scripts(n).Spoken()
  }

  /** Nothing has been tried. */
  predicate Untouched(v: Tracker, health: string) {
    !v.partial && HealthIs(v, health) && forall n :: n in v.statuses ==> New(v.statuses[n])
  }

  predicate New(s: Status) {
    s.phase.NotStarted? && !s.initialized && s.polls == 0 && s.error == ""
  }

  /** Everything has been tried; `ticks` are the collectors that could be initialised. */
  predicate Loaded(v: Tracker, ticks: seq<Name>) {
    && Distinct(ticks) && (forall n :: n in ticks ==> n in v.statuses)
    && (forall n :: n in v.statuses ==> !v.statuses[n].phase.NotStarted? && (v.statuses[n].initialized <==> n in ticks))
  }

  predicate Polling(v: Tracker, ticks: seq<Name>, active: seq<bool>) {
    && |active| == |ticks|
    && (forall i :: 0 <= i < |ticks| ==> ticks[i] in v.statuses)
    && (forall i :: 0 <= i < |ticks| ==> (active[i] <==> v.statuses[ticks[i]].phase != Failed))
  }

  predicate HealthIs(v: Tracker, health: string) {
    forall n :: n in v.statuses ==> v.statuses[n].healthError == health
  }

  ghost predicate Started(t: CollectorTracker, ticks: seq<Name>, health: string)
    reads t
  {
    t.Valid() && CapturedIn(t.trace) == {} && Loaded(t.View(), ticks) && HealthIs(t.View(), health) && Settled(t.View())
  }

  /** Everything is in use or has failed. */
  predicate Settled(v: Tracker) {
    forall n :: n in v.statuses ==> v.statuses[n].phase in {Ready, Running, Failed}
  }

  /** Only this collector's row has changed. */
  predicate Only(before: map<Name, Status>, after: map<Name, Status>, n: Name) {
    after.Keys == before.Keys && forall m :: m in before && m != n ==> after[m] == before[m]
  }

  /** Only rows of these collectors have changed. */
  predicate OnlyTicks(before: map<Name, Status>, after: map<Name, Status>, ticks: seq<Name>) {
    after.Keys == before.Keys && forall m :: m in before && m !in ticks ==> after[m] == before[m]
  }

  /** `markPollError` for a collector in use. */
  method PollError(t: CollectorTracker, ticks: seq<Name>, n: Name, error: string, ghost health: string,
                   ghost loud: bool)
    requires Started(t, ticks, health) && n in ticks && t.statuses[n].phase in {Ready, Running}
    requires loud ==> error != "" && t.Loud()
    modifies t
    ensures Started(t, ticks, health) && (loud ==> t.Loud()) && t.partial
    ensures Only(old(t.statuses), t.statuses, n)
    ensures Ticked(old(t.statuses)[n], t.statuses[n], PollFailed(error))
  {
    t.Fail(n, error);
  }

  /** A successful poll of a collector in use. */
  method Polled(t: CollectorTracker, ticks: seq<Name>, n: Name, ghost health: string, ghost loud: bool)
    requires Started(t, ticks, health) && n in ticks && t.statuses[n].phase in {Ready, Running}
    requires loud ==> t.Loud()
    modifies t
    ensures Started(t, ticks, health) && (loud ==> t.Loud()) && t.partial == old(t.partial)
    ensures Only(old(t.statuses), t.statuses, n) && Ticked(old(t.statuses)[n], t.statuses[n], Reported)
  {
    var now: nat := *;
    t.PollOK(n, now);
  }

  /** What the two steps at initialisation change. */
  lemma InitStep(v: Tracker, step: Step, n: Name, health: string)
    requires n in v.statuses && New(v.statuses[n]) && HealthIs(v, health)
    requires step == Initialized(n) || (step.Fails? && step.name == n)
    ensures var v' := Apply(v, step);
      && HealthIs(v', health) && v'.partial == (v.partial || step.Fails?)
      && Only(v.statuses, v'.statuses, n)
      && Tried(v'.statuses[n], if step.Fails? then Some(step.error) else None)
  {
  }

  /** The constructor of a collector, and what the runner records about it. */
  method TryInit(t: CollectorTracker, n: Name, init: Option<string>, ghost health: string,
          ghost loud: bool) returns (ok: bool)
    requires t.Valid() && CapturedIn(t.trace) == {} && n in t.statuses && HealthIs(t.View(), health)
    requires New(t.statuses[n])
    requires loud ==> init != Some("") && t.Loud()
    modifies t
    ensures t.Valid() && CapturedIn(t.trace) == {} && (loud ==> t.Loud()) && HealthIs(t.View(), health)
    ensures ok == init.None? && t.partial == (old(t.partial) || !ok)
    ensures Only(old(t.statuses), t.statuses, n) && Tried(t.statuses[n], init)
  {
    ok := init.None?;
    InitStep(t.View(), if ok then Initialized(n) else Fails(n, init.value), n, health);
    if ok {
      t.MarkInitialized(n);
    } else {
      t.Fail(n, init.value);
    }
  }

  /** One tick of a collector in use: `error` is a failed poll, `stop` a failed output. */
  method DoTick(t: CollectorTracker, ticks: seq<Name>, n: Name, tick: Tick, ghost health: string,
          ghost loud: bool) returns (error: bool, stop: bool)
    requires Started(t, ticks, health) && n in ticks && t.statuses[n].phase in {Ready, Running}
    requires loud ==> tick != PollFailed("") && t.Loud()
    modifies t
    ensures Started(t, ticks, health) && (loud ==> t.Loud()) && t.partial == (old(t.partial) || error)
    ensures Only(old(t.statuses), t.statuses, n) && Ticked(old(t.statuses)[n], t.statuses[n], tick)
    ensures error == tick.PollFailed? && stop == tick.OutputFailed?
  {
    error, stop := false, false;
    match tick {
      case PollFailed(text) =>
        error := true;
        PollError(t, ticks, n, text, health, loud);
      case OutputFailed =>
        stop := true;
        Polled(t, ticks, n, health, loud);
      case Reported =>
        Polled(t, ticks, n, health, loud);
    }
  }

  predicate SameOutcome(before: Status, after: Status) {
    after.phase == before.phase && after.polls == before.polls && after.error == before.error
  }

  /** One deferred health capture. */
  method Capture(t: CollectorTracker, ticks: seq<Name>, n: Name, snapshot: Snapshot, ghost health: string,
                 ghost loud: bool)
    requires t.Valid() && Loaded(t.View(), ticks) && n in ticks && n !in CapturedIn(t.trace)
    requires loud ==> Tells(snapshot) && t.Loud()
    modifies t
    ensures t.Valid() && Loaded(t.View(), ticks) && (loud ==> t.Loud()) && t.partial == old(t.partial)
    ensures CapturedIn(t.trace) == CapturedIn(old(t.trace)) + {n}
    ensures Only(old(t.statuses), t.statuses, n) && SameOutcome(old(t.statuses)[n], t.statuses[n])
    ensures t.statuses[n].healthError == HealthAfter(old(t.statuses)[n].healthError, snapshot)
  {
    t.CaptureHealth(n, snapshot);
  }

  // ------------------------------------------------------------------ one scenario

  /** The polls of a single-scenario runner: the first error ends it. */
  method RunPolls(t: CollectorTracker, n: Name, script: Script, rounds: nat, ghost health: string,
          ghost loud: bool) returns (failed: bool)
    requires Started(t, [n], health) && Tried(t.statuses[n], None) && !t.partial && script.init.None?
    requires loud ==> script.Spoken() && t.Loud()
    modifies t
    ensures Started(t, [n], health) && (loud ==> t.Loud()) && (!failed ==> !t.partial)
    ensures failed <==> !Clean(script, rounds)
    ensures !failed || Writes(script, rounds) ==> RowIs(t.statuses[n], Alone(script, rounds))
    ensures t.statuses.Keys == old(t.statuses.Keys)
  {
    if script.warmup.Some? {
      PollError(t, [n], n, script.warmup.value, health, loud);
      AloneStays(script, 0, rounds);
      return true;
    }
    Polled(t, [n], n, health, loud);
    for round := 0 to rounds
      invariant Started(t, [n], health) && t.statuses[n].phase == Running && !t.partial && (loud ==> t.Loud())
      invariant Clean(script, round) && RowIs(t.statuses[n], Alone(script, round))
      invariant t.statuses.Keys == old(t.statuses.Keys)
    {
      ghost var before := t.statuses[n];
      var error, stop := DoTick(t, [n], n, script.At(round), health, loud);
      TickedRow(script, round, before, t.statuses[n]);
      if error || stop {
        if error { AloneStays(script, round + 1, rounds); }
        return true;
      }
    }
    return false;
  }

  method RunOne(t: CollectorTracker, n: Name, script: Script, rounds: nat, ghost health: string,
          ghost loud: bool) returns (failed: bool)
    requires t.Valid() && t.order == [n] && Untouched(t.View(), health) && CapturedIn(t.trace) == {}
    requires loud ==> script.Spoken() && t.Loud()
    modifies t
    ensures t.Valid() && Complete(t.View(), CapturedIn(t.trace))
    ensures (loud ==> t.Loud()) && (!failed ==> !t.partial)
    ensures t.statuses.Keys == {n}
    ensures failed <==> !Clean(script, rounds)
    ensures !failed || Writes(script, rounds) ==> RowIs(t.statuses[n], Alone(script, rounds))
    ensures t.statuses[n].healthError == if script.init.Some? then health else HealthAfter(health, script.snapshot)
  {
    assert n in t.order && forall m :: m in t.statuses ==> m == n;
    var ok := TryInit(t, n, script.init, health, loud);
    if !ok {
      return true;
    }
    failed := RunPolls(t, n, script, rounds, health, loud);
    Capture(t, [n], n, script.snapshot, health, loud);
  }

  // ------------------------------------------------------------------ all collectors

  /** The initialisation of a collector succeeded, or failed with an error. */
  predicate Tried(s: Status, init: Option<string>) {
    && s.initialized == init.None? && s.polls == 0
    && s.phase == (if init.None? then Ready else Failed)
    && s.error == (if init.None? then "" else init.value)
  }

  /** The preflight, with the first `i` collectors tried. */
  ghost predicate Preflight(order: seq<Name>, statuses: map<Name, Status>, ticks: seq<Name>, scripts: Scripts, i: nat) {
    && i <= |order| && Distinct(ticks) && (forall n :: n in ticks ==> n in order[..i])
    && (forall j :: 0 <= j < |order| ==> order[j] in statuses)
    && (forall j :: i <= j < |order| ==> New(statuses[order[j]]))
    && (forall j :: 0 <= j < i ==> Tried(statuses[order[j]], scripts(order[j]).init))
    && (forall j :: 0 <= j < i ==> (order[j] in ticks <==> scripts(order[j]).init.None?))
  }

  lemma PreflightStep(order: seq<Name>, before: map<Name, Status>, after: map<Name, Status>, ticks: seq<Name>,
          scripts: Scripts, i: nat, ok: bool)
    requires Distinct(order) && Preflight(order, before, ticks, scripts, i) && i < |order|
    requires Only(before, after, order[i]) && order[i] in after && Tried(after[order[i]], scripts(order[i]).init)
    requires ok == scripts(order[i]).init.None?
    ensures Preflight(order, after, if ok then ticks + [order[i]] else ticks, scripts, i + 1)
  {
    assert order[..i + 1] == order[..i] + [order[i]];
    assert order[i] !in order[..i];
    forall j | 0 <= j < i ensures order[j] != order[i] {}
  }

  lemma PreflightDone(order: seq<Name>, v: Tracker, ticks: seq<Name>, scripts: Scripts)
    requires Preflight(order, v.statuses, ticks, scripts, |order|) && v.statuses.Keys == SetOf(order)
    ensures Loaded(v, ticks) && Settled(v) && Initialised(order, ticks, scripts)
    ensures forall n :: n in order ==> n in v.statuses && Tried(v.statuses[n], scripts(n).init)
  {
    assert order[..|order|] == order;
    forall n | n in order
      ensures n in v.statuses && Tried(v.statuses[n], scripts(n).init) && (n in ticks <==> scripts(n).init.None?)
    {
      var i :| 0 <= i < |order| && order[i] == n;
    }
  }

  /** Those that tick are those that initialise. */
  ghost predicate Initialised(order: seq<Name>, ticks: seq<Name>, scripts: Scripts) {
    && (forall n :: n in order ==> (n in ticks <==> scripts(n).init.None?))
    && (forall n :: n in ticks ==> n in order)
  }

  lemma PreflightStarts(order: seq<Name>, v: Tracker, scripts: Scripts, health: string)
    requires Untouched(v, health) && v.statuses.Keys == SetOf(order)
    ensures Preflight(order, v.statuses, [], scripts, 0)
  {
  }

  method InitNext(t: CollectorTracker, ticks: seq<Name>, failures: nat, scripts: Scripts, i: nat,
                  ghost health: string, ghost loud: bool)
    returns (ticks': seq<Name>, failures': nat)
    requires t.Valid() && CapturedIn(t.trace) == {} && HealthIs(t.View(), health) && (t.partial <==> failures > 0)
    requires i < |t.order| && Preflight(t.order, t.statuses, ticks, scripts, i)
    requires failures > 0 <==> AnyFailed(t.order, scripts, i)
    requires loud ==> AllSpoken(scripts) && t.Loud()
    modifies t
    ensures t.Valid() && CapturedIn(t.trace) == {} && HealthIs(t.View(), health) && (loud ==> t.Loud())
    ensures Preflight(t.order, t.statuses, ticks', scripts, i + 1) && (t.partial <==> failures' > 0)
    ensures failures' > 0 <==> AnyFailed(t.order, scripts, i + 1)
  {
    ghost var before := t.statuses;
    var n := t.order[i];
    var ok := TryInit(t, n, scripts(n).init, health, loud);
    PreflightStep(t.order, before, t.statuses, ticks, scripts, i, ok);
    AnyFailedNext(t.order, scripts, i);
    ticks' := if ok then ticks + [n] else ticks;
    failures' := if ok then failures else failures + 1;
  }

  /** One of the first `i` could not be initialised. */
  ghost predicate AnyFailed(order: seq<Name>, scripts: Scripts, i: nat)
    requires i <= |order|
  {
    exists j :: 0 <= j < i && scripts(order[j]).init.Some?
  }

  lemma AnyFailedNext(order: seq<Name>, scripts: Scripts, i: nat)
    requires i < |order|
    ensures AnyFailed(order, scripts, i + 1) <==> AnyFailed(order, scripts, i) || scripts(order[i]).init.Some?
  {
    if AnyFailed(order, scripts, i) {
      var j :| 0 <= j < i && scripts(order[j]).init.Some?;
      assert j < i + 1;
    }
  }

  method InitAll(t: CollectorTracker, scripts: Scripts, ghost health: string,
          ghost loud: bool) returns (ticks: seq<Name>, failures: nat)
    requires t.Valid() && Untouched(t.View(), health) && CapturedIn(t.trace) == {}
    requires loud ==> AllSpoken(scripts) && t.Loud()
    modifies t
    ensures Started(t, ticks, health) && (loud ==> t.Loud()) && (t.partial <==> failures > 0)
    ensures failures > 0 <==> AnyFailed(t.order, scripts, |t.order|)
    ensures Initialised(t.order, ticks, scripts)
    ensures forall n :: n in t.order ==> Tried(t.statuses[n], scripts(n).init)
  {
    ticks, failures := [], 0;
    PreflightStarts(t.order, t.View(), scripts, health);
    for i := 0 to |t.order|
      invariant t.Valid() && CapturedIn(t.trace) == {} && (loud ==> t.Loud()) && (t.partial <==> failures > 0)
      invariant HealthIs(t.View(), health) && Preflight(t.order, t.statuses, ticks, scripts, i)
      invariant failures > 0 <==> AnyFailed(t.order, scripts, i)
    {
      ticks, failures := InitNext(t, ticks, failures, scripts, i, health, loud);
    }
    PreflightDone(t.order, t.View(), ticks, scripts);
  }

  /** Every row says what its collector would have done alone within this many rounds. */
  ghost predicate RowsAt(v: map<Name, Status>, ticks: seq<Name>, scripts: Scripts, rounds: nat) {
    forall j :: 0 <= j < |ticks| ==> ticks[j] in v && RowIs(v[ticks[j]], Alone(scripts(ticks[j]), rounds))
  }

  /** The first of the ticks have been warmed up. */
  ghost predicate Warm(base: map<Name, Status>, statuses: map<Name, Status>, ticks: seq<Name>, active: seq<bool>,
          scripts: Scripts) {
    && |active| <= |ticks| && (forall n :: n in ticks ==> n in statuses) && OnlyTicks(base, statuses, ticks)
    && (forall j :: 0 <= j < |ticks| ==> scripts(ticks[j]).init.None?)
    && (forall j :: 0 <= j < |active| ==> (active[j] <==> scripts(ticks[j]).warmup.None?))
    && (forall j :: 0 <= j < |active| ==> RowIs(statuses[ticks[j]], Alone(scripts(ticks[j]), 0)))
    && (forall j :: |active| <= j < |ticks| ==> Tried(statuses[ticks[j]], None))
  }

  lemma WarmStep(base: map<Name, Status>, before: map<Name, Status>, after: map<Name, Status>, ticks: seq<Name>,
          active: seq<bool>, scripts: Scripts, ok: bool)
    requires Distinct(ticks) && Warm(base, before, ticks, active, scripts) && |active| < |ticks|
    requires Only(before, after, ticks[|active|]) && ok == scripts(ticks[|active|]).warmup.None?
    requires RowIs(after[ticks[|active|]], Alone(scripts(ticks[|active|]), 0))
    ensures Warm(base, after, ticks, active + [ok], scripts)
  {
    forall j | 0 <= j < |ticks| && j != |active| ensures ticks[j] != ticks[|active|] && ticks[j] in before {}
  }

  /** The first poll of one collector. */
  method WarmNext(t: CollectorTracker, ticks: seq<Name>, active: seq<bool>, scripts: Scripts, ghost base: map<Name,
          Status>, ghost health: string, ghost loud: bool)
    returns (ok: bool)
    requires Started(t, ticks, health) && Warm(base, t.statuses, ticks, active, scripts) && |active| < |ticks|
    requires loud ==> AllSpoken(scripts) && t.Loud()
    modifies t
    ensures Started(t, ticks, health) && (loud ==> t.Loud()) && t.partial == (old(t.partial) || !ok)
    ensures Warm(base, t.statuses, ticks, active + [ok], scripts)
  {
    ghost var before := t.statuses;
    var n := ticks[|active|];
    ok := scripts(n).warmup.None?;
    if ok {
      Polled(t, ticks, n, health, loud);
    } else {
      PollError(t, ticks, n, scripts(n).warmup.value, health, loud);
    }
    WarmStep(base, before, t.statuses, ticks, active, scripts, ok);
  }

  method WarmUp(t: CollectorTracker, ticks: seq<Name>, scripts: Scripts, allowPartial: bool, ghost health: string,
          ghost loud: bool)
    returns (active: seq<bool>, stop: bool)
    requires Started(t, ticks, health)
    requires forall n :: n in ticks ==> Tried(t.statuses[n], None) && scripts(n).init.None?
    requires !allowPartial ==> !t.partial
    requires loud ==> AllSpoken(scripts) && t.Loud()
    modifies t
    ensures Started(t, ticks, health) && (loud ==> t.Loud())
    ensures !stop ==> |active| == |ticks| && (!allowPartial ==> !t.partial)
    ensures Warm(old(t.statuses), t.statuses, ticks, active, scripts)
    ensures stop <==> !allowPartial && exists i :: 0 <= i < |ticks| && scripts(ticks[i]).warmup.Some?
  {
    active, stop := [], false;
    for i := 0 to |ticks|
      invariant Started(t, ticks, health) && (loud ==> t.Loud()) && (!allowPartial ==> !t.partial)
      invariant |active| == i && Warm(old(t.statuses), t.statuses, ticks, active, scripts)
      invariant !allowPartial ==> forall j :: 0 <= j < i ==> active[j]
    {
      var ok := WarmNext(t, ticks, active, scripts, old(t.statuses), health, loud);
      active := active + [ok];
      if !ok && !allowPartial {
        assert scripts(ticks[i]).warmup.Some?;
        return active, true;
      }
    }
  }

  lemma WarmIsPolling(base: map<Name, Status>, v: Tracker, ticks: seq<Name>, active: seq<bool>, scripts: Scripts)
    requires Warm(base, v.statuses, ticks, active, scripts) && |active| == |ticks|
    ensures Polling(v, ticks, active) && RowsAt(v.statuses, ticks, scripts, 0)
  {
  }

  /** A round in which the first `i` collectors have had their tick. */
  ghost predicate Ticking(base: map<Name, Status>, v: Tracker, ticks: seq<Name>, active': seq<bool>,
                          scripts: Scripts, round: nat, i: nat, count: nat) {
    && i <= |ticks| && Polling(v, ticks, active') && OnlyTicks(base, v.statuses, ticks)
    && (forall j :: 0 <= j < i ==> RowIs(v.statuses[ticks[j]], Alone(scripts(ticks[j]), round + 1)))
    && (forall j :: i <= j < |ticks| ==> RowIs(v.statuses[ticks[j]], Alone(scripts(ticks[j]), round)))
    && (count == 0 <==> NoneOf(active', i))
  }

  predicate NoneOf(active: seq<bool>, i: nat)
    requires i <= |active|
  {
    forall j :: 0 <= j < i ==> !active[j]
  }

  lemma TickingStep(base: map<Name, Status>, before: Tracker, after: Tracker, ticks: seq<Name>,
          active': seq<bool>, scripts: Scripts, round: nat, i: nat, count: nat)
    requires Distinct(ticks) && Ticking(base, before, ticks, active', scripts, round, i, count)
    requires i < |ticks| && active'[i] && Only(before.statuses, after.statuses, ticks[i])
    requires Ticked(before.statuses[ticks[i]], after.statuses[ticks[i]], scripts(ticks[i]).At(round))
    ensures var ok := !scripts(ticks[i]).At(round).PollFailed?;
      Ticking(base, after, ticks, active'[i := ok], scripts, round, i + 1, if ok then count + 1 else count)
  {
    var ok := !scripts(ticks[i]).At(round).PollFailed?;
    var flags := active'[i := ok];
    assert RowIs(before.statuses[ticks[i]], Alone(scripts(ticks[i]), round));
    TickedRow(scripts(ticks[i]), round, before.statuses[ticks[i]], after.statuses[ticks[i]]);
    forall j | 0 <= j < |ticks| && j != i
      ensures ticks[j] in after.statuses && after.statuses[ticks[j]] == before.statuses[ticks[j]]
    {
      assert ticks[j] != ticks[i];
    }
    assert NoneOf(flags, i + 1) <==> NoneOf(active', i) && !ok by {
      if NoneOf(flags, i + 1) {
        assert !flags[i];
        forall j | 0 <= j < i ensures !active'[j] { assert !flags[j]; }
      }
    }
  }

  lemma TickingSkip(base: map<Name, Status>, v: Tracker, ticks: seq<Name>, active': seq<bool>,
                    scripts: Scripts, round: nat, i: nat, count: nat)
    requires Ticking(base, v, ticks, active', scripts, round, i, count) && i < |ticks| && !active'[i]
    ensures Ticking(base, v, ticks, active', scripts, round, i + 1, count)
  {
    assert RowIs(v.statuses[ticks[i]], Alone(scripts(ticks[i]), round));
    AloneStays(scripts(ticks[i]), round, round + 1);
  }

  /** The flag of a collector whose tick is still to come. */
  lemma FlagSays(base: map<Name, Status>, v: Tracker, ticks: seq<Name>, active': seq<bool>,
                 scripts: Scripts, round: nat, i: nat, count: nat)
    requires Ticking(base, v, ticks, active', scripts, round, i, count) && i < |ticks|
    ensures active'[i] <==> !FailsBy(scripts(ticks[i]), round)
  {
    assert RowIs(v.statuses[ticks[i]], Alone(scripts(ticks[i]), round));
    AloneSays(scripts(ticks[i]), round);
  }

  /** The `i`-th collector's turn in a round. */
  method TickNext(t: CollectorTracker, ticks: seq<Name>, active': seq<bool>, scripts: Scripts, round: nat, i: nat,
                  count: nat, allowPartial: bool, ghost base: map<Name, Status>, ghost health: string, ghost loud: bool)
    returns (after: seq<bool>, count': nat, stop: bool)
    requires Started(t, ticks, health) && Ticking(base, t.View(), ticks, active', scripts, round, i, count)
    requires i < |ticks| && (loud ==> AllSpoken(scripts) && t.Loud()) && (!allowPartial ==> !t.partial)
    modifies t
    ensures Started(t, ticks, health) && (loud ==> t.Loud()) && (!allowPartial && !stop ==> !t.partial)
    ensures Ticking(base, t.View(), ticks, after, scripts, round, i + 1, count')
    ensures stop <==> Breaks(scripts(ticks[i]), round, allowPartial)
  {
    after, count', stop := active', count, false;
    FlagSays(base, t.View(), ticks, active', scripts, round, i, count);
    if active'[i] {
      ghost var before := t.View();
      var error, broken := DoTick(t, ticks, ticks[i], scripts(ticks[i]).At(round), health, loud);
      TickingStep(base, before, t.View(), ticks, active', scripts, round, i, count);
      after := active'[i := !error];
      count' := if error then count else count + 1;
      stop := broken || (error && !allowPartial);
    } else {
      TickingSkip(base, t.View(), ticks, active', scripts, round, i, count);
    }
  }

  lemma RoundEnds(base: map<Name, Status>, v: Tracker, ticks: seq<Name>, active': seq<bool>, scripts: Scripts,
                  round: nat, count: nat)
    requires Ticking(base, v, ticks, active', scripts, round, |ticks|, count)
    ensures RowsAt(v.statuses, ticks, scripts, round + 1)
    ensures count == 0 <==> forall i :: 0 <= i < |ticks| ==> FailsBy(scripts(ticks[i]), round + 1)
  {
    forall i | 0 <= i < |ticks| ensures active'[i] <==> !FailsBy(scripts(ticks[i]), round + 1) {
      AloneSays(scripts(ticks[i]), round + 1);
    }
  }

  /** One tick of the session: every active collector ticks, a failing one is switched off. */
  method Round(t: CollectorTracker, ticks: seq<Name>, active: seq<bool>, scripts: Scripts, round: nat,
          allowPartial: bool, ghost health: string, ghost loud: bool)
    returns (active': seq<bool>, stop: bool)
    requires Started(t, ticks, health) && Polling(t.View(), ticks, active) && (!allowPartial ==> !t.partial)
    requires RowsAt(t.statuses, ticks, scripts, round)
    requires loud ==> AllSpoken(scripts) && t.Loud()
    modifies t
    ensures Started(t, ticks, health) && (loud ==> t.Loud()) && OnlyTicks(old(t.statuses), t.statuses, ticks)
    ensures !stop ==> !allowPartial ==> !t.partial
    ensures stop <==> RoundStops(ticks, scripts, round, allowPartial)
    ensures !stop || (allowPartial && forall n :: !scripts(n).At(round).OutputFailed?) ==>
      Polling(t.View(), ticks, active') && RowsAt(t.statuses, ticks, scripts, round + 1)
  {
    active', stop := active, false;
    var count := 0;
    for i := 0 to |ticks|
      invariant Started(t, ticks, health) && (loud ==> t.Loud()) && (!allowPartial ==> !t.partial)
      invariant Ticking(old(t.statuses), t.View(), ticks, active', scripts, round, i, count)
      invariant !BreaksBefore(ticks, scripts, round, allowPartial, i)
    {
      active', count, stop := TickNext(t, ticks, active', scripts, round, i, count, allowPartial,
          old(t.statuses), health, loud);
      BreaksNext(ticks, scripts, round, allowPartial, i);
      if stop {
        return;
      }
    }
    RoundEnds(old(t.statuses), t.View(), ticks, active', scripts, round, count);
    stop := count == 0;
  }

  predicate CapturedRow(before: Status, after: Status, captured: bool, snapshot: Snapshot) {
    && SameOutcome(before, after)
    && after.healthError == if captured then HealthAfter(before.healthError, snapshot) else before.healthError
  }

  ghost predicate Capturing(base: map<Name, Status>, statuses: map<Name, Status>, done: seq<Name>, scripts: Scripts) {
    && statuses.Keys == base.Keys
    && forall n :: n in statuses ==> CapturedRow(base[n], statuses[n], n in done, scripts(n).snapshot)
  }

  lemma CapturingStep(base: map<Name, Status>, before: map<Name, Status>, after: map<Name, Status>, done: seq<Name>,
          n: Name, scripts: Scripts)
    requires Capturing(base, before, done, scripts) && n !in done && n in before && Only(before, after, n)
    requires SameOutcome(before[n], after[n])
    requires after[n].healthError == HealthAfter(before[n].healthError, scripts(n).snapshot)
    ensures Capturing(base, after, [n] + done, scripts)
  {
    forall m | m in after ensures CapturedRow(base[m], after[m], m in [n] + done, scripts(m).snapshot) {
      assert CapturedRow(base[m], before[m], m in done, scripts(m).snapshot);
    }
  }

  /** The captures of `done` have been made. */
  ghost predicate Captures(t: CollectorTracker, base: map<Name, Status>, ticks: seq<Name>, done: seq<Name>,
                           scripts: Scripts)
    reads t
  {
    && t.Valid() && Loaded(t.View(), ticks) && CapturedIn(t.trace) == SetOf(done)
    && Capturing(base, t.statuses, done, scripts)
  }

  lemma AtTick(ticks: seq<Name>, i: nat)
    requires i < |ticks| && Distinct(ticks)
    ensures ticks[i] in ticks && ticks[i] !in SetOf(ticks[i + 1..]) && ticks[i..] == [ticks[i]] + ticks[i + 1..]
    ensures SetOf(ticks[i..]) == SetOf(ticks[i + 1..]) + {ticks[i]}
  {
    assert ticks[i..] == [ticks[i]] + ticks[i + 1..];
    forall n ensures n in SetOf(ticks[i..]) <==> n in SetOf(ticks[i + 1..]) + {ticks[i]} {
      assert n in ticks[i..] <==> n == ticks[i] || n in ticks[i + 1..];
    }
  }

  method CaptureNext(t: CollectorTracker, ticks: seq<Name>, i: nat, scripts: Scripts, ghost base: map<Name, Status>,
          ghost health: string, ghost loud: bool)
    requires i < |ticks| && Captures(t, base, ticks, ticks[i + 1..], scripts)
    requires loud ==> AllSpoken(scripts) && t.Loud()
    modifies t
    ensures Captures(t, base, ticks, ticks[i..], scripts) && (loud ==> t.Loud()) && t.partial == old(t.partial)
  {
    ghost var before := t.statuses;
    var n := ticks[i];
    AtTick(ticks, i);
    Capture(t, ticks, n, scripts(n).snapshot, health, loud);
    CapturingStep(base, before, t.statuses, ticks[i + 1..], n, scripts);
  }

  /** The deferred health captures, last one first. */
  method CaptureAll(t: CollectorTracker, ticks: seq<Name>, scripts: Scripts, ghost health: string, ghost loud: bool)
    requires Started(t, ticks, health)
    requires loud ==> AllSpoken(scripts) && t.Loud()
    modifies t
    ensures Captures(t, old(t.statuses), ticks, ticks, scripts)
    ensures Complete(t.View(), CapturedIn(t.trace)) && (loud ==> t.Loud()) && t.partial == old(t.partial)
  {
    assert ticks[|ticks|..] == [];
    for i := |ticks| downto 0
      invariant Captures(t, old(t.statuses), ticks, ticks[i..], scripts) && (loud ==> t.Loud()) &&
          t.partial == old(t.partial)
    {
      CaptureNext(t, ticks, i, scripts, old(t.statuses), health, loud);
    }
    assert ticks[0..] == ticks;
  }

  method RunAll(t: CollectorTracker, scripts: Scripts, rounds: nat, allowPartial: bool, ghost health: string,
          ghost loud: bool) returns (failed: bool)
    requires t.Valid() && Untouched(t.View(), health) && CapturedIn(t.trace) == {}
    requires loud ==> AllSpoken(scripts) && t.Loud()
    modifies t
    ensures t.Valid() && Complete(t.View(), CapturedIn(t.trace)) && (loud ==> t.Loud())
    ensures !failed && !allowPartial ==> !t.partial
    ensures t.statuses.Keys == SetOf(t.order)
    ensures failed <==> Errs(t.order, scripts, rounds, !allowPartial)
    ensures !failed || (allowPartial && Writable(scripts, rounds)) ==> RowsAt(t.statuses, t.order, scripts, rounds)
    ensures forall n :: n in t.order ==>
      t.statuses[n].healthError == if scripts(n).init.Some? then health else HealthAfter(health, scripts(n).snapshot)
  {
    var ticks;
    ticks, failed := Collect(t, scripts, rounds, allowPartial, health, loud);
    ghost var before := t.statuses;
    CaptureAll(t, ticks, scripts, health, loud);
    CapturesKeepRows(before, t.statuses, t.order, ticks, scripts, rounds, health);
  }

  lemma CapturesKeepRows(before: map<Name, Status>, after: map<Name, Status>, order: seq<Name>, ticks: seq<Name>,
                         scripts: Scripts, rounds: nat, health: string)
    requires Capturing(before, after, ticks, scripts) && forall n :: n in order ==> n in before
    requires forall n :: n in order ==> before[n].healthError == health
    requires forall n :: n in order ==> (n in ticks <==> scripts(n).init.None?)
    ensures RowsAt(before, order, scripts, rounds) ==> RowsAt(after, order, scripts, rounds)
    ensures forall n :: n in order ==> n in after
    ensures forall n :: n in order ==>
      after[n].healthError == if scripts(n).init.Some? then health else HealthAfter(health, scripts(n).snapshot)
  {
    forall n | n in order ensures CapturedRow(before[n], after[n], n in ticks, scripts(n).snapshot) {}
  }

  /** The preflight and, if it lets the session go on, the polls. */
  method Collect(t: CollectorTracker, scripts: Scripts, rounds: nat, allowPartial: bool, ghost health: string,
                 ghost loud: bool)
    returns (ticks: seq<Name>, failed: bool)
    requires t.Valid() && Untouched(t.View(), health) && CapturedIn(t.trace) == {}
    requires loud ==> AllSpoken(scripts) && t.Loud()
    modifies t
    ensures Started(t, ticks, health) && (loud ==> t.Loud()) && (!failed && !allowPartial ==> !t.partial)
    ensures forall n :: n in t.order ==> (n in ticks <==> scripts(n).init.None?)
    ensures failed <==> Errs(t.order, scripts, rounds, !allowPartial)
    ensures !failed || (allowPartial && Writable(scripts, rounds)) ==> RowsAt(t.statuses, t.order, scripts, rounds)
  {
    var failures;
    ticks, failures := InitAll(t, scripts, health, loud);
    ghost var base := t.statuses;
    failed := failures > 0 && !allowPartial;
    if failed {
      NotInitialised(t.order, scripts, rounds);
    } else {
      EveryoneInitialised(t.order, scripts);
      failed := PollAll(t, ticks, scripts, rounds, allowPartial, health, loud);
      ErrsIffStops(t.order, ticks, scripts, rounds, allowPartial);
      if !failed || (allowPartial && Writable(scripts, rounds)) {
        AllRows(t.order, ticks, base, t.statuses, scripts, rounds);
      }
    }
  }

  lemma NotInitialised(order: seq<Name>, scripts: Scripts, rounds: nat)
    requires AnyFailed(order, scripts, |order|)
    ensures Errs(order, scripts, rounds, true)
  {
    var j :| 0 <= j < |order| && scripts(order[j]).init.Some?;
    assert order[j] in order && !Clean(scripts(order[j]), rounds);
  }

  lemma EveryoneInitialised(order: seq<Name>, scripts: Scripts)
    ensures !AnyFailed(order, scripts, |order|) ==> forall n :: n in order ==> scripts(n).init.None?
  {
    if n :| n in order && scripts(n).init.Some? {
      var j :| 0 <= j < |order| && order[j] == n;
      assert AnyFailed(order, scripts, |order|);
    }
  }

  lemma ErrsIffStops(order: seq<Name>, ticks: seq<Name>, scripts: Scripts, rounds: nat, allowPartial: bool)
    requires order != [] && Initialised(order, ticks, scripts)
    requires !allowPartial ==> forall n :: n in order ==> scripts(n).init.None?
    ensures PollsStop(ticks, scripts, rounds, allowPartial) <==> Errs(order, scripts, rounds, !allowPartial)
  {
    if allowPartial {
      PartialStops(ticks, scripts, rounds);
      if exists i :: 0 <= i < |ticks| && OutputBreaks(scripts(ticks[i]), rounds) {
        var i :| 0 <= i < |ticks| && OutputBreaks(scripts(ticks[i]), rounds);
        assert ticks[i] in order;
      }
      if n :| n in order && OutputBreaks(scripts(n), rounds) {
        var i :| 0 <= i < |ticks| && ticks[i] == n;
      }
      EveryoneFails(order, ticks, scripts, rounds);
    } else {
      assert order[0] in ticks;
      StrictStops(ticks, scripts, rounds);
      if n :| n in order && !Clean(scripts(n), rounds) {
        var i :| 0 <= i < |ticks| && ticks[i] == n;
      }
      if i :| 0 <= i < |ticks| && !Clean(scripts(ticks[i]), rounds) {
        assert ticks[i] in order;
      }
    }
  }

  lemma EveryoneFails(order: seq<Name>, ticks: seq<Name>, scripts: Scripts, rounds: nat)
    requires Initialised(order, ticks, scripts)
    ensures (forall i :: 0 <= i < |ticks| ==> FailsBy(scripts(ticks[i]), rounds)) <==>
            (forall n :: n in order ==> FailsBy(scripts(n), rounds))
  {
    if forall i :: 0 <= i < |ticks| ==> FailsBy(scripts(ticks[i]), rounds) {
      forall n | n in order ensures FailsBy(scripts(n), rounds) {
        if n in ticks {
          var i :| 0 <= i < |ticks| && ticks[i] == n;
        }
      }
    }
    if forall n :: n in order ==> FailsBy(scripts(n), rounds) {
      forall i | 0 <= i < |ticks| ensures FailsBy(scripts(ticks[i]), rounds) { assert ticks[i] in order; }
    }
  }

  /** The rows of those that do not tick are left from the preflight. */
  lemma AllRows(order: seq<Name>, ticks: seq<Name>, base: map<Name, Status>, after: map<Name, Status>,
                scripts: Scripts, rounds: nat)
    requires Initialised(order, ticks, scripts) && OnlyTicks(base, after, ticks)
    requires forall n :: n in order ==> n in base && Tried(base[n], scripts(n).init)
    requires RowsAt(after, ticks, scripts, rounds)
    ensures RowsAt(after, order, scripts, rounds)
  {
    forall j | 0 <= j < |order| ensures order[j] in after && RowIs(after[order[j]], Alone(scripts(order[j]), rounds)) {
      if order[j] in ticks {
        var i :| 0 <= i < |ticks| && ticks[i] == order[j];
      } else {
        assert after[order[j]] == base[order[j]];
      }
    }
  }

  /** The warm-up and the rounds. A collector's failure is its own: unless the session is stopped, each ends
      as it would alone. */
  method PollAll(t: CollectorTracker, ticks: seq<Name>, scripts: Scripts, rounds: nat, allowPartial: bool,
          ghost health: string, ghost loud: bool)
    returns (failed: bool)
    requires Started(t, ticks, health) && (!allowPartial ==> !t.partial)
    requires forall n :: n in ticks ==> Tried(t.statuses[n], None) && scripts(n).init.None?
    requires loud ==> AllSpoken(scripts) && t.Loud()
    modifies t
    ensures Started(t, ticks, health) && (loud ==> t.Loud()) && (!failed && !allowPartial ==> !t.partial)
    ensures OnlyTicks(old(t.statuses), t.statuses, ticks)
    ensures failed <==> PollsStop(ticks, scripts, rounds, allowPartial)
    ensures !failed || (allowPartial && Writable(scripts, rounds)) ==> RowsAt(t.statuses, ticks, scripts, rounds)
  {
    var active, stop := WarmUp(t, ticks, scripts, allowPartial, health, loud);
    if stop {
      return true;
    }
    WarmIsPolling(old(t.statuses), t.View(), ticks, active, scripts);
    LeftAfterWarmUp(t.View(), ticks, active, scripts);
    failed := true !in active;
    var round := 0;
    while !failed && round < rounds
      invariant round <= rounds && Started(t, ticks, health) && (loud ==> t.Loud())
      invariant !failed ==> !allowPartial ==> !t.partial
      invariant SoFar(old(t.statuses), t.View(), ticks, active, scripts, round, rounds, allowPartial, failed)
      decreases rounds - round
    {
      ghost var mid := t.View();
      active, failed := Round(t, ticks, active, scripts, round, allowPartial, health, loud);
      SoFarNext(old(t.statuses), mid, t.View(), ticks, active, scripts, round, rounds, allowPartial, failed);
      round := round + 1;
    }
    Stopped(t.statuses, ticks, scripts, round, rounds, allowPartial, failed);
  }

  /** After some rounds: whether the session has been stopped, and what the rows say if not. */
  ghost predicate SoFar(base: map<Name, Status>, v: Tracker, ticks: seq<Name>, active: seq<bool>, scripts: Scripts,
                        round: nat, rounds: nat, allowPartial: bool, failed: bool) {
    && OnlyTicks(base, v.statuses, ticks) && (failed <==> PollsStop(ticks, scripts, round, allowPartial))
    && (!failed ==> Polling(v, ticks, active))
    && (!failed || (allowPartial && Writable(scripts, rounds)) ==> RowsAt(v.statuses, ticks, scripts, round))
  }

  lemma SoFarNext(base: map<Name, Status>, mid: Tracker, v: Tracker, ticks: seq<Name>, active: seq<bool>,
                  scripts: Scripts, round: nat, rounds: nat, allowPartial: bool, stop: bool)
    requires OnlyTicks(base, mid.statuses, ticks) && OnlyTicks(mid.statuses, v.statuses, ticks)
    requires round < rounds && !PollsStop(ticks, scripts, round, allowPartial)
    requires stop <==> RoundStops(ticks, scripts, round, allowPartial)
    requires !stop || (allowPartial && forall n :: !scripts(n).At(round).OutputFailed?) ==>
      Polling(v, ticks, active) && RowsAt(v.statuses, ticks, scripts, round + 1)
    ensures SoFar(base, v, ticks, active, scripts, round + 1, rounds, allowPartial, stop)
  {
    StopsNext(ticks, scripts, round, allowPartial);
    if Writable(scripts, rounds) {
      forall n ensures !scripts(n).At(round).OutputFailed? { assert Writes(scripts(n), rounds); }
    }
  }

  lemma LeftAfterWarmUp(v: Tracker, ticks: seq<Name>, active: seq<bool>, scripts: Scripts)
    requires Polling(v, ticks, active) && RowsAt(v.statuses, ticks, scripts, 0)
    ensures true !in active <==> forall i :: 0 <= i < |ticks| ==> FailsBy(scripts(ticks[i]), 0)
  {
    forall i | 0 <= i < |ticks| ensures active[i] <==> !FailsBy(scripts(ticks[i]), 0) {
      AloneSays(scripts(ticks[i]), 0);
    }
    if true in active {
      var i :| 0 <= i < |active| && active[i];
    }
  }

  lemma StopsNext(ticks: seq<Name>, scripts: Scripts, round: nat, allowPartial: bool)
    ensures PollsStop(ticks, scripts, round + 1, allowPartial) <==>
            PollsStop(ticks, scripts, round, allowPartial) || RoundStops(ticks, scripts, round, allowPartial)
  {
    if RoundStops(ticks, scripts, round, allowPartial) { assert round < round + 1; }
    if PollsStop(ticks, scripts, round, allowPartial) {
      if r: nat :| r < round && RoundStops(ticks, scripts, r, allowPartial) { assert r < round + 1; }
    }
  }

  /** A session that has stopped stays stopped; if no output was at fault, all its rows have failed and would
      not change. */
  lemma Stopped(v: map<Name, Status>, ticks: seq<Name>, scripts: Scripts, round: nat, rounds: nat, allowPartial: bool,
                failed: bool)
    requires round <= rounds && (failed || round == rounds)
    requires failed <==> PollsStop(ticks, scripts, round, allowPartial)
    requires !failed || (allowPartial && Writable(scripts, rounds)) ==> RowsAt(v, ticks, scripts, round)
    ensures failed <==> PollsStop(ticks, scripts, rounds, allowPartial)
    ensures !failed || (allowPartial && Writable(scripts, rounds)) ==> RowsAt(v, ticks, scripts, rounds)
  {
    if failed {
      if r: nat :| r < round && RoundStops(ticks, scripts, r, allowPartial) { assert r < rounds; }
      if allowPartial && Writable(scripts, rounds) {
        PartialStops(ticks, scripts, round);
        forall i | 0 <= i < |ticks| ensures RowIs(v[ticks[i]], Alone(scripts(ticks[i]), rounds)) {
          assert Writes(scripts(ticks[i]), rounds) && !OutputBreaks(scripts(ticks[i]), round);
          AloneSays(scripts(ticks[i]), round);
          AloneStays(scripts(ticks[i]), round, rounds);
        }
      }
    }
  }

  // ------------------------------------------------------------------ the session

  /** The end of `main`: unhealthy collectors fail, the rest stop, and the rows are written. */
  method Conclude(t: CollectorTracker, ghost loud: bool) returns (rows: seq<Status>, unhealthy: bool)
    requires t.Valid() && Complete(t.View(), CapturedIn(t.trace)) && (loud ==> t.Loud())
    modifies t
    ensures loud ==> ValidCollectors(rows, SetOf(t.order), t.partial)
    ensures t.partial == (old(t.partial) || unhealthy)
    ensures |rows| == |t.order| && forall i :: 0 <= i < |rows| ==>
        rows[i].name == t.order[i] &&
        t.order[i] in old(t.statuses)
    ensures unhealthy <==> exists n :: n in old(t.statuses) && old(t.statuses)[n].healthError != ""
    ensures forall i :: 0 <= i < |rows| ==> Final(old(t.statuses)[t.order[i]], rows[i])
  {
    RowsAtEnd(t.order, t.trace);
    EndIsValid(t.order, t.trace);
    rows, unhealthy := Close(t);
  }

  /** The two sweeps at the end, and the rows they leave. */
  method Close(t: CollectorTracker) returns (rows: seq<Status>, unhealthy: bool)
    requires forall n :: n in t.order ==> n in t.statuses
    modifies t`statuses, t`partial
    ensures t.View() == End(old(t.View())) && rows == RowsOf(End(old(t.View())))
    ensures unhealthy <==> AnyUnhealthy(old(t.View()))
  {
    unhealthy := t.FailUnhealthy();
    t.Finish();
    assert t.statuses == End(old(t.View())).statuses;
    rows := t.Rows();
  }

  /** A row of the document, from the status before the end: a health error fails a collector that has not
      failed otherwise; polls and the first error stay. */
  predicate Final(before: Status, row: Status) {
    && (row.phase == Failed <==> before.phase == Failed || before.healthError != "")
    && row.polls == before.polls
    && row.error == if before.phase != Failed && before.healthError != "" then "collector health: " + before.healthError
                    else before.error
  }

  lemma EndsAs(s: Status, n: Name, captured: bool, silent: bool)
    requires Consistent(s, n, captured, silent) && !s.phase.NotStarted? && (s.initialized ==> captured)
    ensures Final(s, Closed(Judged(s))) && Closed(Judged(s)).name == n
  {
    RowValid(s, n, captured, silent);
  }

  lemma RowsAtEnd(order: seq<Name>, trace: seq<Step>)
    requires Disciplined(order, trace) && Complete(After(order, trace), CapturedIn(trace))
    ensures var t := After(order, trace);
      t.order == order && (forall n :: n in order ==> n in t.statuses) && forall i :: 0 <= i < |order| ==>
        && RowsOf(End(t))[i].name == order[i]
        && Final(t.statuses[order[i]], RowsOf(End(t))[i])
  {
    EveryRunKeeps(order, trace);
    var t := After(order, trace);
    forall i | 0 <= i < |order|
      ensures RowsOf(End(t))[i].name == order[i]
      ensures Final(t.statuses[order[i]], RowsOf(End(t))[i])
    {
      assert order[i] in order;
      EndsAs(t.statuses[order[i]], order[i], order[i] in CapturedIn(trace), Silent(order, trace, order[i]));
    }
  }

  /** A new tracker, and the BPF statistics switched on or not. */
  method Begin(scenario: Scenario, statsError: Option<string>) returns (t: CollectorTracker)
    ensures fresh(t) && t.Valid() && t.Loud() && t.order == NamesOf(scenario)
    ensures Untouched(t.View(), StatsText(statsError)) && CapturedIn(t.trace) == {}
  {
    t := new CollectorTracker(scenario);
    if statsError.Some? {
      t.HealthUnavailable(statsError.value);
    }
  }

  function StatsText(statsError: Option<string>): string {
    if statsError.Some? then statsError.value else ""
  }

  /** The health error a collector ends with. */
  function HealthTextOf(script: Script, statsError: Option<string>): string {
    if script.init.Some? then StatsText(statsError) else HealthAfter(StatsText(statsError), script.snapshot)
  }

  /** What a collector's row says when the session was not cut short. */
  ghost predicate RowTells(row: Status, script: Script, rounds: nat, statsError: Option<string>) {
    var o, health := Alone(script, rounds), HealthTextOf(script, statsError);
    && (row.phase == Failed <==> FailsBy(script, rounds) || health != "")
    && row.polls == o.polls
    && row.error == if o.failed || health == "" then o.error else "collector health: " + health
  }

  lemma RowEnds(before: Status, row: Status, script: Script, rounds: nat, statsError: Option<string>)
    requires Final(before, row) && RowIs(before, Alone(script, rounds))
    requires before.healthError == HealthTextOf(script, statsError)
    ensures RowTells(row, script, rounds, statsError)
  {
    AloneSays(script, rounds);
  }

  /** A whole session, whatever happens in it. If every error has a text and every health snapshot its
      counters, the collector rows of its document are valid. It returns an error exactly when the
      outcomes say so: strictly, without `allowPartial` or in a single scenario, when anything of any
      collector fails, otherwise when an output fails or no collector is left; and without
      `allowPartial` also when the health of one is in doubt. Unless a failure cuts the session short,
      every collector's row has the polls, the state and the error it would have alone. */
  method RunSession(scenario: Scenario, scripts: Scripts, rounds: nat, statsError: Option<string>, allowPartial: bool)
    returns (rows: seq<Status>, partial: bool, failed: bool)
    ensures AllSpoken(scripts) ==> ValidCollectors(rows, SetOf(NamesOf(scenario)), partial)
    ensures !allowPartial && !failed ==> !partial
    ensures |rows| == |NamesOf(scenario)| && forall i :: 0 <= i < |rows| ==> rows[i].name == NamesOf(scenario)[i]
    ensures failed <==>
      || Errs(NamesOf(scenario), scripts, rounds, !allowPartial || scenario.One?)
      || (!allowPartial && exists n :: n in NamesOf(scenario) && HealthTextOf(scripts(n), statsError) != "")
    ensures !failed || ((allowPartial || scenario.One?) && Writable(scripts, rounds)) ==>
      forall i :: 0 <= i < |rows| ==> RowTells(rows[i], scripts(rows[i].name), rounds, statsError)
  {
    var t := Begin(scenario, statsError);
    failed := RunScenario(t, scenario, scripts, rounds, statsError, allowPartial);
    ghost var ended := t.statuses;
    var unhealthy;
    rows, unhealthy := Conclude(t, AllSpoken(scripts));
    if !failed || ((allowPartial || scenario.One?) && Writable(scripts, rounds)) {
      forall i | 0 <= i < |rows| ensures RowTells(rows[i], scripts(rows[i].name), rounds, statsError) {
        RowEnds(ended[t.order[i]], rows[i], scripts(t.order[i]), rounds, statsError);
      }
    }
    failed := failed || (unhealthy && !allowPartial);
    partial := t.partial;
  }

  /** The runner of a single scenario, in the terms of the other one. */
  method RunSingle(t: CollectorTracker, n: Name, scripts: Scripts, rounds: nat, ghost health: string,
          ghost loud: bool) returns (failed: bool)
    requires t.Valid() && t.order == [n] && Untouched(t.View(), health) && CapturedIn(t.trace) == {}
    requires loud ==> AllSpoken(scripts) && t.Loud()
    modifies t
    ensures t.Valid() && Complete(t.View(), CapturedIn(t.trace)) && (loud ==> t.Loud()) && (!failed ==> !t.partial)
    ensures t.statuses.Keys == {n}
    ensures failed <==> Errs([n], scripts, rounds, true)
    ensures !failed || Writable(scripts, rounds) ==> RowsAt(t.statuses, [n], scripts, rounds)
    ensures t.statuses[n].healthError
         == if scripts(n).init.Some? then health else HealthAfter(health, scripts(n).snapshot)
  {
    failed := RunOne(t, n, scripts(n), rounds, health, loud);
    OneErrs(n, scripts, rounds);
  }

  /** The runner of the scenario. */
  method RunScenario(t: CollectorTracker, scenario: Scenario, scripts: Scripts, rounds: nat,
                     statsError: Option<string>, allowPartial: bool) returns (failed: bool)
    requires t.Valid() && t.order == NamesOf(scenario) && CapturedIn(t.trace) == {} && t.Loud()
    requires Untouched(t.View(), StatsText(statsError))
    modifies t
    ensures t.Valid() && Complete(t.View(), CapturedIn(t.trace)) && (AllSpoken(scripts) ==> t.Loud())
    ensures !failed && !allowPartial ==> !t.partial
    ensures t.statuses.Keys == SetOf(t.order)
    ensures failed <==> Errs(t.order, scripts, rounds, !allowPartial || scenario.One?)
    ensures !failed || ((allowPartial || scenario.One?) && Writable(scripts, rounds)) ==>
      RowsAt(t.statuses, t.order, scripts, rounds)
    ensures forall n :: n in t.order ==> t.statuses[n].healthError == HealthTextOf(scripts(n), statsError)
  {
    ghost var loud, health := AllSpoken(scripts), StatsText(statsError);
    match scenario {
      case One(name) =>
        failed := RunSingle(t, name, scripts, rounds, health, loud);
      case All =>
        failed := RunAll(t, scripts, rounds, allowPartial, health, loud);
    }
  }

  lemma OneErrs(n: Name, scripts: Scripts, rounds: nat)
    ensures Errs([n], scripts, rounds, true) <==> !Clean(scripts(n), rounds)
  {
    assert n in [n];
  }
}
