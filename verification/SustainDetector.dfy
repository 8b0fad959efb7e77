/** Sustained-threshold detection: a signal once a key has qualified in enough windows in a row. */
module SustainDetector {
  import opened FiniteSums

  /** A measured interval; None is the zero time. */
  datatype Window = Window(start: Option<int>, end: Option<int>, elapsed: int) {
    predicate Valid() {
      start.Some? && end.Some? && end.value > start.value && elapsed > 0
    }

    /** `ObservationWindow.Extend` */
    function Extend(current: Window): Window {
      if !Valid() then current
      else if !current.Valid() || current.end.value < end.value then this
      else Between(start, current.end)
    }
  }

  /** `ObservationWindowBetween` */
  function Between(start: Option<int>, end: Option<int>): Window {
    if start.None? || end.None? || end.value <= start.value then Window(None, None, 0)
    else Window(start, end, end.value - start.value)
  }

  /** For windows in order the extension runs from the first start to the current end. */
  lemma ExtendCovers(first: Window, current: Window)
    requires first.Valid() && current.Valid()
    ensures first.Extend(current).Valid() && first.Extend(current).start == first.start
    ensures first.end.value <= current.end.value ==>
      first.Extend(current) == Window(first.start, current.end, current.end.value - first.start.value)
    ensures current.end.value < first.end.value ==> first.Extend(current) == first
  {
  }

  /** One sample of a window; `over` is the verdict of the thresholds. */
  datatype Sample<K> = Sample(key: K, window: Window, over: bool) {
    predicate Qualifies() {
      window.Valid() && over
    }
  }

  datatype Signal<K> = Signal(sample: Sample<K>, window: Window)

  // ------------------------------------------------------------------ the history

  /** The qualifying windows of a key among some samples. */
  function Qualifying<K(==)>(samples: seq<Sample<K>>, k: K): seq<Window> {
    if samples == [] then [] else
      var last := samples[|samples| - 1];
      Qualifying(samples[..|samples| - 1], k) + if last.key == k && last.Qualifies() then [last.window] else []
  }

  /** The current run of a key: its qualifying windows in the trailing calls that each had one. */
  function RunOf<K(==)>(calls: seq<seq<Sample<K>>>, k: K): seq<Window> {
    if calls == [] then [] else
      var q := Qualifying(calls[|calls| - 1], k);
      if q == [] then [] else RunOf(calls[..|calls| - 1], k) + q
  }

  /** The signals of one call, from the history: one for every sample with which the run of its key
      reaches `sustain`, over the window from the first of the run to that sample. */
  function Expected<K(==)>(before: seq<seq<Sample<K>>>, samples: seq<Sample<K>>, sustain: nat): seq<Signal<K>> {
    if samples == [] then [] else
      var s := samples[|samples| - 1];
      var run := RunOf(before, s.key) + Qualifying(samples, s.key);
      Expected(before, samples[..|samples| - 1], sustain) +
        if s.Qualifies() && |run| == sustain then [Signal(s, run[0].Extend(s.window))] else []
  }

  // ------------------------------------------------------------------ the detector

  class Detector<K(==, !new)> {
    const sustain: nat
    var counters: map<K, nat>
    var firstSeen: map<K, Window>
    var fired: map<K, bool>

    /** The state of one key says how its run stands. */
    ghost predicate Tracks(k: K, run: seq<Window>)
      reads this
    {
      && (k in counters <==> run != [])
      && (k in counters ==> counters[k] == |run| && k in firstSeen && firstSeen[k] == run[0])
      && ((k in fired && fired[k]) <==> |run| >= sustain)
    }

    ghost predicate TracksAll(run: K -> seq<Window>)
      reads this
    {
      sustain >= 1 && forall k :: Tracks(k, run(k))
    }

    constructor (sustain: int)
      ensures this.sustain == (if sustain < 1 then 1 else sustain) && TracksAll(History([], []))
    {
      this.sustain := if sustain < 1 then 1 else sustain;
      counters, firstSeen, fired := map[], map[], map[];
    }

    /** One sample: count it if it qualifies, signal when the run gets long enough. */
    method Observe(s: Sample<K>, ghost run: seq<Window>) returns (signals: seq<Signal<K>>)
      requires sustain >= 1 && Tracks(s.key, run)
      modifies `counters, `firstSeen, `fired
      ensures Tracks(s.key, if s.Qualifies() then run + [s.window] else run)
      ensures forall k, r :: k != s.key && old(Tracks(k, r)) ==> Tracks(k, r)
      ensures signals == Emitted(run, s, sustain)
    {
      signals := [];
      if !s.Qualifies() {
        return;
      }
      if s.key !in counters || counters[s.key] == 0 {
        firstSeen := firstSeen[s.key := s.window];
      }
      counters := counters[s.key := (if s.key in counters then counters[s.key] else 0) + 1];
      if counters[s.key] >= sustain && !(s.key in fired && fired[s.key]) {
        fired := fired[s.key := true];
        signals := [Signal(s, firstSeen[s.key].Extend(s.window))];
      }
    }

    /** Keys without a qualifying sample in this call lose their state. */
    method Reset(active: set<K>, ghost run: K -> seq<Window>)
      requires TracksAll(run)
      modifies `counters, `firstSeen, `fired
      ensures forall k :: Tracks(k, if k in active then run(k) else [])
    {
      var todo := counters.Keys;
      ghost var all := todo;
      assert forall k :: k in all <==> run(k) != [] by { assert forall k :: Tracks(k, run(k)); }
      while todo != {}
        invariant todo <= all
        invariant forall k :: Tracks(k, if k in active || k in todo then run(k) else [])
        decreases |todo|
      {
        var k :| k in todo;
        if k !in active {
          counters, firstSeen, fired := counters - {k}, firstSeen - {k}, fired - {k};
        }
        todo := todo - {k};
      }
    }

    /** After any sequence of calls: a signal for a key exactly at the sample with which its run of
        qualifying windows reaches `sustain`, and state only for keys that qualified in the last call. */
    method Detect(samples: seq<Sample<K>>, ghost before: seq<seq<Sample<K>>>) returns (signals: seq<Signal<K>>)
      requires TracksAll(History(before, []))
      modifies `counters, `firstSeen, `fired
      ensures signals == Expected(before, samples, sustain)
      ensures TracksAll(History(before + [samples], []))
      ensures forall k :: k in counters ==> Qualifying(samples, k) != []
    {
      signals := [];
      var active: set<K> := {};
      for i := 0 to |samples|
        invariant TracksAll(History(before, samples[..i]))
        invariant signals == Expected(before, samples[..i], sustain)
        invariant forall k :: k in active <==> Qualifying(samples[..i], k) != []
      {
        var s := samples[i];
        assert samples[..i + 1] == samples[..i] + [s] && samples[..i + 1][..i] == samples[..i];
        HistoryStep(before, samples[..i], s);
        ghost var run := History(before, samples[..i]);
        assert forall k :: Tracks(k, run(k));
        var more := Observe(s, run(s.key));
        signals := signals + more;
        if s.Qualifies() {
          active := active + {s.key};
        }
      }
      assert samples[..|samples|] == samples;
      Reset(active, History(before, samples));
      HistoryReset(before, samples, active);
    }
  }

  /** The signal of one sample after a run. */
  function Emitted<K>(run: seq<Window>, s: Sample<K>, sustain: nat): seq<Signal<K>> {
    if s.Qualifies() && |run| + 1 == sustain then [Signal(s, (run + [s.window])[0].Extend(s.window))] else []
  }

  /** The run of every key after some calls and the first samples of the next. */
  ghost function History<K>(before: seq<seq<Sample<K>>>, done: seq<Sample<K>>): K -> seq<Window> {
    k => RunOf(before, k) + Qualifying(done, k)
  }

  ghost function Grown<K>(run: seq<Window>, s: Sample<K>, k: K): seq<Window> {
    if s.key == k && s.Qualifies() then run + [s.window] else run
  }

  lemma HistoryStep<K(!new)>(before: seq<seq<Sample<K>>>, done: seq<Sample<K>>, s: Sample<K>)
    ensures forall k :: History(before, done + [s])(k) == Grown(History(before, done)(k), s, k)
    ensures forall k :: Qualifying(done + [s], k) == Grown(Qualifying(done, k), s, k)
    ensures forall n :: Expected(before, done + [s], n) == Expected(before, done, n) + Emitted(History(before,
        done)(s.key), s, n)
  {
    assert (done + [s])[..|done|] == done;
    forall k ensures Qualifying(done + [s], k) == Grown(Qualifying(done, k), s, k) {
    }
    forall k ensures History(before, done + [s])(k) == Grown(History(before, done)(k), s, k) {
      assert RunOf(before, k) + (Qualifying(done, k) + [s.window])
          == RunOf(before, k) + Qualifying(done, k) + [s.window];
    }
  }

  lemma HistoryReset<K(!new)>(before: seq<seq<Sample<K>>>, samples: seq<Sample<K>>, active: set<K>)
    requires forall k :: k in active <==> Qualifying(samples, k) != []
    ensures forall k :: History(before + [samples], [])(k) == if k in active then History(before, samples)(k) else []
  {
    assert (before + [samples])[..|before|] == before;
    forall k ensures History(before + [samples], [])(k) == if k in active then History(before, samples)(k) else [] {
      assert Qualifying([], k) == [];
    }
  }

  // ------------------------------------------------------------------ one sample per key and call

  /** The number of trailing calls in each of which the key qualified. */
  function Streak<K(==)>(calls: seq<seq<Sample<K>>>, k: K): nat {
    if calls == [] || Qualifying(calls[|calls| - 1], k) == [] then 0 else Streak(calls[..|calls| - 1], k) + 1
  }

  /** No key has two samples in one call. */
  predicate OnePerKey<K(==)>(samples: seq<Sample<K>>) {
    forall i, j :: 0 <= i < j < |samples| ==> samples[i].key != samples[j].key
  }

  lemma {:induction false} QualifyingOnce<K(!new)>(samples: seq<Sample<K>>, k: K)
    requires OnePerKey(samples)
    ensures |Qualifying(samples, k)| <= 1
    ensures Qualifying(samples, k) != [] <==>
            exists i :: 0 <= i < |samples| && samples[i].key == k && samples[i].Qualifies()
    decreases |samples|
  {
    if samples != [] {
      var n := |samples| - 1;
      QualifyingOnce(samples[..n], k);
      if samples[n].key == k && samples[n].Qualifies() {
        assert forall i :: 0 <= i < n ==> samples[..n][i].key != k;
      }
      if i :| 0 <= i < n && samples[i].key == k && samples[i].Qualifies() { assert samples[..n][i].Qualifies(); }
    }
  }

  lemma {:induction false} StreakIsRun<K(!new)>(calls: seq<seq<Sample<K>>>, k: K)
    requires forall i :: 0 <= i < |calls| ==> OnePerKey(calls[i])
    ensures |RunOf(calls, k)| == Streak(calls, k)
    decreases |calls|
  {
    if calls != [] {
      QualifyingOnce(calls[|calls| - 1], k);
      StreakIsRun(calls[..|calls| - 1], k);
    }
  }

  lemma {:induction false} SignalsOf<K(!new)>(before: seq<seq<Sample<K>>>, samples: seq<Sample<K>>, sustain: nat,
          x: Signal<K>)
    requires OnePerKey(samples)
    ensures x in Expected(before, samples, sustain) <==>
      x.sample in samples && x.sample.Qualifies() && |RunOf(before, x.sample.key)| + 1 == sustain
      && x.window == (RunOf(before, x.sample.key) + [x.sample.window])[0].Extend(x.sample.window)
    decreases |samples|
  {
    if samples != [] {
      var n := |samples| - 1;
      var s := samples[n];
      SignalsOf(before, samples[..n], sustain, x);
      HistoryStep(before, samples[..n], s);
      assert samples[..n] + [s] == samples;
      QualifyingOnce(samples[..n], s.key);
      assert forall i :: 0 <= i < n ==> samples[..n][i].key != s.key;
      assert History(before, samples[..n])(s.key) == RunOf(before, s.key) + Qualifying(samples[..n], s.key);
      assert x.sample in samples <==> x.sample in samples[..n] || x.sample == s;
    }
  }

  /** With one sample per key and call, a key signals in a call exactly when it qualifies there for the
      `sustain`-th call in a row, so once per streak; over ordered windows the signal spans the streak. */
  lemma SignalsAtSustain<K(!new)>(before: seq<seq<Sample<K>>>, samples: seq<Sample<K>>, sustain: nat, s: Sample<K>)
    requires (forall i :: 0 <= i < |before| ==> OnePerKey(before[i])) && OnePerKey(samples) && s in samples
    ensures (exists w :: Signal(s, w) in Expected(before, samples, sustain)) <==>
            s.Qualifies() && Streak(before + [samples], s.key) == sustain
    ensures forall w :: Signal(s, w) in Expected(before, samples, sustain) ==>
      var run := RunOf(before + [samples], s.key);
      |run| == sustain && run != [] && w == run[0].Extend(s.window)
  {
    var prior := RunOf(before, s.key);
    StreakIsRun(before, s.key);
    QualifyingOnce(samples, s.key);
    assert (before + [samples])[..|before|] == before;
    if s.Qualifies() {
      OnlyWindow(samples, s);
      assert RunOf(before + [samples], s.key) == prior + [s.window];
      assert Streak(before + [samples], s.key) == |prior| + 1;
      SignalsOf(before, samples, sustain, Signal(s, (prior + [s.window])[0].Extend(s.window)));
    }
    forall w | Signal(s, w) in Expected(before, samples, sustain)
      ensures s.Qualifies() && |prior| + 1 == sustain && w == (prior + [s.window])[0].Extend(s.window)
    {
      SignalsOf(before, samples, sustain, Signal(s, w));
    }
  }

  lemma {:induction false} OnlyWindow<K(!new)>(samples: seq<Sample<K>>, s: Sample<K>)
    requires OnePerKey(samples) && s in samples && s.Qualifies()
    ensures Qualifying(samples, s.key) == [s.window]
    decreases |samples|
  {
    var n := |samples| - 1;
    QualifyingOnce(samples[..n], s.key);
    if samples[n] == s {
      assert forall i :: 0 <= i < n ==> samples[..n][i].key != s.key;
    } else {
      var i :| 0 <= i < n && samples[i] == s;
      assert samples[..n][i] == s;
      OnlyWindow(samples[..n], s);
    }
  }

  /** Over its thresholds, in a window whose two ends are known and that has a length. */
  predicate IsHot<K>(s: Sample<K>) {
    var w := s.window;
    s.over && w.start.Some? && w.end.Some? && w.start.value < w.end.value && 0 < w.elapsed
  }

  /** The call has such a sample of the key. */
  predicate Hot<K(==)>(call: seq<Sample<K>>, k: K) {
    exists i :: 0 <= i < |call| && call[i].key == k && IsHot(call[i])
  }

  /** The last calls, as many as the streak is long, are hot, and the one before them is not; the run starts
      with the sample of the first of them. */
  lemma {:induction false} StreakIsHotCalls<K(!new)>(calls: seq<seq<Sample<K>>>, k: K)
    requires forall i :: 0 <= i < |calls| ==> OnePerKey(calls[i])
    ensures var n, run := Streak(calls, k), RunOf(calls, k);
      && n == |run| <= |calls| && (forall j :: |calls| - n <= j < |calls| ==> Hot(calls[j], k))
      && (n < |calls| ==> !Hot(calls[|calls| - n - 1], k))
      && (n > 0 ==> forall s :: s in calls[|calls| - n] && s.key == k && IsHot(s) ==> run[0] == s.window)
    decreases |calls|
  {
    if calls != [] {
      var last, before := calls[|calls| - 1], calls[..|calls| - 1];
      StreakIsRun(calls, k);
      StreakIsHotCalls(before, k);
      QualifyingOnce(last, k);
      assert Qualifying(last, k) != [] <==> Hot(last, k) by {
        forall i | 0 <= i < |last| ensures last[i].Qualifies() <==> IsHot(last[i]) {}
      }
      forall s | s in last && s.key == k && IsHot(s) ensures Qualifying(last, k) == [s.window] {
        OnlyWindow(last, s);
      }
    }
  }

  /** When a key signals, from the samples alone: it is hot in this call and in each of the `sustain` last,
      this one included, and was not in the call before those. */
  lemma SignalsAfterHotCalls<K(!new)>(before: seq<seq<Sample<K>>>, samples: seq<Sample<K>>, sustain: nat, s: Sample<K>)
    requires (forall i :: 0 <= i < |before| ==> OnePerKey(before[i])) && OnePerKey(samples) && s in samples
    ensures var calls := before + [samples];
      (exists w :: Signal(s, w) in Expected(before, samples, sustain)) <==>
        && IsHot(s) && sustain <= |calls|
        && (forall j :: |calls| - sustain <= j < |calls| ==> Hot(calls[j], s.key))
        && (sustain < |calls| ==> !Hot(calls[|calls| - sustain - 1], s.key))
  {
    var calls, n := before + [samples], Streak(before + [samples], s.key);
    SignalsAtSustain(before, samples, sustain, s);
    StreakIsHotCalls(calls, s.key);
    if IsHot(s) {
      assert Hot(calls[|calls| - 1], s.key) by { var i :| 0 <= i < |samples| && samples[i] == s; }
      if n < sustain <= |calls| { assert !Hot(calls[|calls| - n - 1], s.key); }
      if sustain < n { assert Hot(calls[|calls| - sustain - 1], s.key); }
    }
  }

  /** The signal spans from the start of the first of these samples to the end of the last, when their ends
      are in order. */
  lemma SignalSpans<K(!new)>(before: seq<seq<Sample<K>>>, samples: seq<Sample<K>>, sustain: nat, x: Signal<K>,
                             first: Sample<K>)
    requires (forall i :: 0 <= i < |before| ==> OnePerKey(before[i])) && OnePerKey(samples) && x.sample in samples
    requires x in Expected(before, samples, sustain) && 0 < sustain <= |before + [samples]|
    requires first in (before + [samples])[|before + [samples]| - sustain] && first.key == x.sample.key && IsHot(first)
    requires x.sample.window.end.Some? && first.window.end.value <= x.sample.window.end.value
    ensures var from, to := first.window.start, x.sample.window.end;
      x.window == Window(from, to, to.value - from.value)
  {
    SignalsAtSustain(before, samples, sustain, x.sample);
    StreakIsHotCalls(before + [samples], x.sample.key);
  }

  /** A call with two samples of one key counts twice: the key signals in a single call. */
  lemma DuplicateSamplesSignalEarly(w: Window)
    requires w.Valid()
    ensures var s := Sample(1, w, true); Expected([], [s, s], 2) == [Signal(s, w.Extend(w))] && Streak([[s, s]], 1) == 1
  {
    var s := Sample(1, w, true);
    var none: seq<Sample<int>> := [];
    assert [s, s][..1] == [s] && [s][..0] == none;
    assert Qualifying(none, 1) == [] && Qualifying([s], 1) == [w];
    assert Qualifying([s, s], 1) == [w, w];
    var noCalls: seq<seq<Sample<int>>> := [];
    assert RunOf(noCalls, 1) == [];
    assert Expected(noCalls, none, 2) == [];
    assert Expected(noCalls, [s], 2) == [];
    assert [[s, s]][..0] == noCalls && Streak(noCalls, 1) == 0;
  }
}
