/** Process-instance identities of the target map: exact start times in nanoseconds, or /proc start
    ticks marked by the top bit. Two implementations compare them, and user space keeps the kernel map
    in step with its own membership. */
module TargetIdentity {
  import opened Common

  const SEED_FLAG := 0x8000_0000_0000_0000

  type U64 = x: nat | x < UINT64

  /** `x & targetProcStartSeedFlag != 0` */
  predicate IsSeed(x: U64) {
    x >= SEED_FLAG
  }

  /** `x & targetProcStartSeedMask` */
  function Masked(x: nat): U64 {
    x % SEED_FLAG
  }

  function EncodeSeed(ticks: nat): U64 {
    SEED_FLAG + Masked(ticks)
  }

  predicate WithinOneTick(a: nat, b: nat) {
    if a > b then a - b <= 1 else b - a <= 1
  }

  /** `procStartMatchesBPF`: whole seconds and remainder, in 64-bit arithmetic. */
  predicate ProcStartMatches(procTicks: nat, bpfStartNs: U64) {
    var seconds := bpfStartNs / 1_000_000_000;
    var remainder := bpfStartNs % 1_000_000_000;
    var bpfTicks := (seconds * 100 % UINT64 + remainder * 100 % UINT64 / 1_000_000_000) % UINT64;
    WithinOneTick(procTicks, bpfTicks)
  }

  /** `targetIdentityMatches`, the matcher of user space. */
  predicate GoMatches(stored: U64, bpfStartNs: U64) {
    stored != 0 && bpfStartNs != 0
    && if !IsSeed(stored) then stored == bpfStartNs else ProcStartMatches(Masked(stored), bpfStartNs)
  }

  /** `target_identity_matches`, the matcher of the BPF programs. */
  predicate BpfMatches(stored: U64, identity: U64) {
    stored != 0 && identity != 0
    && if !IsSeed(stored) then stored == identity else WithinOneTick(Masked(stored), identity / 10_000_000)
  }

  /** Seconds and remainder give the same tick as one division, without overflow. */
  lemma TicksAgree(ns: U64)
    ensures (ns / 1_000_000_000 * 100 % UINT64 + ns % 1_000_000_000 * 100 % UINT64 / 1_000_000_000) % UINT64
         == ns / 10_000_000
  {
    var s, r := ns / 1_000_000_000, ns % 1_000_000_000;
    assert ns == s * 1_000_000_000 + r;
    assert r * 100 / 1_000_000_000 == r / 10_000_000;
    assert ns / 10_000_000 == s * 100 + r / 10_000_000;
  }

  /** The two matchers agree on all pairs of 64-bit values. */
  lemma MatchersAgree(stored: U64, identity: U64)
    ensures GoMatches(stored, identity) <==> BpfMatches(stored, identity)
  {
    TicksAgree(identity);
  }

  /** A seed admits its own process and no process whose start is two or more ticks away. */
  lemma SeedBindsInstance(startNs: U64, otherNs: U64)
    requires startNs > 0 && otherNs > 0
    ensures BpfMatches(EncodeSeed(startNs / 10_000_000), startNs)
    ensures BpfMatches(EncodeSeed(startNs / 10_000_000), otherNs) <==>
      -1 <= startNs / 10_000_000 - otherNs / 10_000_000 <= 1
  {
    var ticks := startNs / 10_000_000;
    assert Masked(ticks) == ticks;
    assert Masked(EncodeSeed(ticks)) == ticks;
  }

  /** An exact identity admits its own process and no other, not even one that starts in the same tick; a
      process without a start time is never admitted, nor is one by an empty entry. */
  lemma ExactBindsInstance(startNs: U64, otherNs: U64)
    requires startNs < SEED_FLAG
    ensures BpfMatches(startNs, otherNs) <==> startNs == otherNs && startNs > 0
    ensures GoMatches(startNs, otherNs) <==> startNs == otherNs && startNs > 0
  {
  }

  /** `targetMapIdentityMatchesDesired` */
  predicate MatchesDesired(current: U64, desired: U64) {
    if !IsSeed(desired) then current == desired
    else if IsSeed(current) then current == desired
    else GoMatches(desired, current)
  }

  /** A hook that admits a task replaces a matching seed by the task's exact identity. */
  predicate MayBecome(before: U64, after: U64) {
    after == before || (IsSeed(before) && !IsSeed(after) && BpfMatches(before, after))
  }

  /** Upgrading a seed keeps the entry matching what user space wants. */
  lemma UpgradeKeepsMatch(before: U64, after: U64, desired: U64)
    requires MatchesDesired(before, desired) && MayBecome(before, after)
    ensures MatchesDesired(after, desired)
  {
    MatchersAgree(desired, after);
  }

  /** A start time in nanoseconds: what the hooks write. */
  type Exact = x: nat | 0 < x < SEED_FLAG witness 1

  /** One firing of a hook for a task of process `pid` with the given start time: whether the walk to
      its ancestors finds the target, and whether the kernel refuses to update the map. */
  datatype Beat = Beat(pid: nat, identity: Exact, below: bool, refused: bool)

  /** A process that a hook has entered because its walk found the target. */
  datatype Admit = Admit(pid: nat, identity: Exact)

  /** The script has a walk that finds the target for this process. */
  ghost predicate Scripted(script: seq<seq<Beat>>, a: Admit) {
    exists i, j ::
      0 <= i < |script| && 0 <= j < |script[i]| && Entering(script[i][j], a)
  }

  predicate Entering(b: Beat, a: Admit) {
    b.below && b.pid == a.pid && b.identity == a.identity
  }

  ghost predicate Found(walked: set<Admit>, k: nat) {
    exists a :: a in walked && a.pid == k
  }

  ghost predicate Walked(walked: set<Admit>, k: nat, value: U64) {
    0 < value < SEED_FLAG && Admit(k, value) in walked
  }

  /** The kernel map between calls: hooks leave every entry, upgrade it, or have entered it themselves. */
  ghost predicate Fired(before: map<nat, U64>, after: map<nat, U64>, walked: set<Admit>) {
    && before.Keys <= after.Keys
    && forall k :: k in after ==>
        (k in before && MayBecome(before[k], after[k])) || Walked(walked, k, after[k])
  }

  /** `allowed_tgid`: a matching seed is upgraded; a process without a matching entry is entered if it is
      the target or within the walk below it. */
  function AfterBeat(entries: map<nat, U64>, b: Beat): map<nat, U64> {
    if b.refused then entries
    else if b.pid in entries && BpfMatches(entries[b.pid], b.identity) then
      if IsSeed(entries[b.pid]) then entries[b.pid := b.identity] else entries
    else if b.below then entries[b.pid := b.identity] else entries
  }

  function AfterBeats(entries: map<nat, U64>, beats: seq<Beat>): map<nat, U64> {
    if beats == [] then entries else AfterBeat(AfterBeats(entries, beats[..|beats| - 1]), beats[|beats| - 1])
  }

  /** A hook that is not refused leaves a process it admits with an entry that admits exactly that process;
      one that is refused, or admits nothing, leaves the map alone; no other entry changes. */
  lemma BeatBinds(entries: map<nat, U64>, b: Beat)
    ensures var after := AfterBeat(entries, b);
      var admitted := b.below || (b.pid in entries && BpfMatches(entries[b.pid], b.identity));
      && after - {b.pid} == entries - {b.pid}
      && (b.refused || !admitted ==> after == entries)
      && (!b.refused && admitted ==>
            b.pid in after && forall other: U64 :: BpfMatches(after[b.pid], other) <==> other == b.identity)
  {
  }

  /** From `before` to `after` the kernel was asked some number of times, and refused nothing if and only if
      the outcome is `ok`. */
  ghost predicate Asked(before: seq<bool>, after: seq<bool>, ok: bool) {
    exists n: nat :: n <= |before| && after == before[n..] && (ok <==> true !in before[..n])
  }

  lemma AskedOnce(before: seq<bool>, now: seq<bool>, after: seq<bool>, refused: bool)
    requires Asked(before, now, true)
    requires refused == (now != [] && now[0]) && after == if now == [] then [] else now[1..]
    ensures Asked(before, after, !refused)
  {
    var n: nat :| n <= |before| && now == before[n..] && true !in before[..n];
    if now == [] {
      assert after == before[n..];
    } else {
      assert before[..n + 1] == before[..n] + [before[n]] && after == before[n + 1..];
    }
  }

  lemma FiredTwice(before: map<nat, U64>, mid: map<nat, U64>, now: map<nat, U64>, walked: set<Admit>, more: set<Admit>)
    requires Fired(before, mid, walked) && walked <= more && Fired(mid, now, more)
    ensures Fired(before, now, more)
  {
    forall k | k in now ensures (k in before && MayBecome(before[k], now[k])) || Walked(more, k, now[k]) {
      if k in mid && Walked(walked, k, mid[k]) { assert Walked(more, k, mid[k]); }
    }
  }

  /** A map entry after synchronisation: it is what user space wants, and a value that already
      matched was kept or upgraded, never replaced. */
  ghost predicate InStep(before: map<nat, U64>, now: map<nat, U64>, desired: map<nat, U64>, k: nat) {
    && k in now && k in desired && MatchesDesired(now[k], desired[k])
    && (k in before && MatchesDesired(before[k], desired[k]) ==> MayBecome(before[k], now[k]))
  }

  /** An entry that nobody but the hooks has touched yet. */
  ghost predicate Untouched(before: map<nat, U64>, now: map<nat, U64>, k: nat) {
    (k in now <==> k in before) && (k in before ==> MayBecome(before[k], now[k]))
  }

  /** The entry matches what user space wants, or it is one that a hook has entered meanwhile. */
  ghost predicate Fits(now: map<nat, U64>, desired: map<nat, U64>, walked: set<Admit>, k: nat) {
    && k in now && k in desired
    && (MatchesDesired(now[k], desired[k]) || Walked(walked, k, now[k]))
  }

  /** Hooks change no entry but by upgrades, except those of processes that a walk found. */
  lemma FiredStays(before: map<nat, U64>, mid: map<nat, U64>, now: map<nat, U64>, desired: map<nat, U64>,
                   walked: set<Admit>, k: nat)
    requires Fired(mid, now, walked) && !Found(walked, k)
    ensures k in mid <==> k in now
    ensures InStep(before, mid, desired, k) ==> InStep(before, now, desired, k)
    ensures Untouched(before, mid, k) ==> Untouched(before, now, k)
  {
    if k in now && Walked(walked, k, now[k]) { assert Found(walked, k); }
    if InStep(before, mid, desired, k) { UpgradeKeepsMatch(mid[k], now[k], desired[k]); }
  }

  lemma FiredFits(mid: map<nat, U64>, now: map<nat, U64>, desired: map<nat, U64>, walked: set<Admit>,
                  more: set<Admit>, k: nat)
    requires Fits(mid, desired, walked, k) && walked <= more && Fired(mid, now, more)
    ensures Fits(now, desired, more, k)
  {
    if MatchesDesired(mid[k], desired[k]) && MayBecome(mid[k], now[k]) {
      UpgradeKeepsMatch(mid[k], now[k], desired[k]);
    }
  }

  /** Where the walk over the map stands: entries user space does not want are gone once visited,
      all others are untouched, and `present` holds visited entries that match. */
  ghost predicate Walking(before: map<nat, U64>, now: map<nat, U64>, desired: map<nat, U64>, walked: set<Admit>,
                          todo: set<nat>, present: set<nat>) {
    && todo <= now.Keys
    && (forall k :: (k in todo || k in desired) && !Found(walked, k) ==> Untouched(before, now, k))
    && (forall k :: k in now ==> (k in before && (k in todo || k in desired)) || Walked(walked, k, now[k]))
    && (forall k :: k in present ==> Fits(now, desired, walked, k))
  }

  lemma WalkingFired(before: map<nat, U64>, mid: map<nat, U64>, now: map<nat, U64>, desired: map<nat, U64>,
                     walked: set<Admit>, more: set<Admit>, todo: set<nat>, present: set<nat>)
    requires Walking(before, mid, desired, walked, todo, present) && walked <= more && Fired(mid, now, more)
    ensures Walking(before, now, desired, more, todo, present)
  {
    forall k | (k in todo || k in desired) && !Found(more, k) ensures Untouched(before, now, k) {
      if Found(walked, k) { FoundMore(walked, more, k); }
      FiredStays(before, mid, now, desired, more, k);
    }
    forall k | k in now ensures (k in before && (k in todo || k in desired)) || Walked(more, k, now[k]) {}
    forall k | k in present ensures Fits(now, desired, more, k) {
      FiredFits(mid, now, desired, walked, more, k);
    }
  }

  lemma FoundMore(walked: set<Admit>, more: set<Admit>, k: nat)
    requires walked <= more && Found(walked, k)
    ensures Found(more, k)
  {
    var a :| a in walked && a.pid == k;
    assert a in more;
  }

  /** An unwanted key is deleted, while hooks fire. */
  lemma WalkingDeleted(before: map<nat, U64>, mid: map<nat, U64>, now: map<nat, U64>, desired: map<nat, U64>,
                       walked: set<Admit>, more: set<Admit>, todo: set<nat>, present: set<nat>, key: nat)
    requires Walking(before, mid, desired, walked, todo, present) && walked <= more
    requires key in todo && key !in desired && key !in now && Fired(mid - {key}, now, more)
    ensures Walking(before, now, desired, more, todo - {key}, present)
  {
    assert Walking(before, mid - {key}, desired, walked, todo - {key}, present);
    WalkingFired(before, mid - {key}, now, desired, walked, more, todo - {key}, present);
  }

  /** Where the second loop stands: wanted keys are in step once handled, untouched before. */
  ghost predicate Filling(before: map<nat, U64>, now: map<nat, U64>, desired: map<nat, U64>, walked: set<Admit>,
                          todo: set<nat>, present: set<nat>) {
    && todo <= desired.Keys
    && (forall k :: k in now ==> k in desired || Walked(walked, k, now[k]))
    && (forall k :: k in todo && !Found(walked, k) ==> Untouched(before, now, k))
    && (forall k :: k in desired && k !in todo ==>
          Fits(now, desired, walked, k) && (!Found(walked, k) ==> InStep(before, now, desired, k)))
    && (forall k :: k in present ==> Fits(now, desired, walked, k))
  }

  lemma FillingFired(before: map<nat, U64>, mid: map<nat, U64>, now: map<nat, U64>, desired: map<nat, U64>,
                     walked: set<Admit>, more: set<Admit>, todo: set<nat>, present: set<nat>)
    requires Filling(before, mid, desired, walked, todo, present) && walked <= more && Fired(mid, now, more)
    ensures Filling(before, now, desired, more, todo, present)
  {
    forall k | k in desired && !Found(more, k)
      ensures k in todo ==> Untouched(before, now, k)
      ensures k !in todo ==> InStep(before, now, desired, k)
    {
      if Found(walked, k) { FoundMore(walked, more, k); }
      FiredStays(before, mid, now, desired, more, k);
    }
    forall k | k in present || (k in desired && k !in todo) ensures Fits(now, desired, more, k) {
      FiredFits(mid, now, desired, walked, more, k);
    }
    forall k | k in now ensures k in desired || Walked(more, k, now[k]) {}
  }

  /** A key that needs no put: its entry already fits. */
  lemma FillingKept(before: map<nat, U64>, now: map<nat, U64>, desired: map<nat, U64>, walked: set<Admit>,
                    todo: set<nat>, present: set<nat>, k: nat)
    requires Filling(before, now, desired, walked, todo, present) && k in todo && Fits(now, desired, walked, k)
    ensures Filling(before, now, desired, walked, todo - {k}, present)
  {
    if Walked(walked, k, now[k]) { assert Found(walked, k); }
  }

  /** A key that is put: it had no matching entry, so no matching value is replaced. */
  lemma FillingPut(before: map<nat, U64>, mid: map<nat, U64>, now: map<nat, U64>, desired: map<nat, U64>,
                   walked: set<Admit>, more: set<Admit>, todo: set<nat>, present: set<nat>, k: nat)
    requires Filling(before, mid, desired, walked, todo, present) && k in todo && k !in present && walked <= more
    requires !(k in mid && MatchesDesired(mid[k], desired[k]))
    requires k in now && now[k] == desired[k] && Fired(mid - {k}, now - {k}, more)
    ensures Filling(before, now, desired, more, todo - {k}, present)
  {
    forall j | j != k
      ensures j in desired && j !in todo - {k} ==>
        Fits(now, desired, more, j) && (!Found(more, j) ==> InStep(before, now, desired, j))
      ensures j in todo - {k} && !Found(more, j) ==> Untouched(before, now, j)
      ensures j in present ==> Fits(now, desired, more, j)
      ensures j in now ==> j in desired || Walked(more, j, now[j])
    {
      FillingOther(before, mid, now, desired, walked, more, todo, present, k, j);
    }
    if k in before && MatchesDesired(before[k], desired[k]) && !Found(more, k) {
      if Found(walked, k) { FoundMore(walked, more, k); }
      UpgradeKeepsMatch(before[k], mid[k], desired[k]);
    }
  }

  lemma FillingOther(before: map<nat, U64>, mid: map<nat, U64>, now: map<nat, U64>, desired: map<nat, U64>,
                     walked: set<Admit>, more: set<Admit>, todo: set<nat>, present: set<nat>, k: nat, j: nat)
    requires Filling(before, mid, desired, walked, todo, present) && walked <= more && j != k
    requires Fired(mid - {k}, now - {k}, more)
    ensures j in desired && j !in todo - {k} ==>
      Fits(now, desired, more, j) && (!Found(more, j) ==> InStep(before, now, desired, j))
    ensures j in todo - {k} && !Found(more, j) ==> Untouched(before, now, j)
    ensures j in present ==> Fits(now, desired, more, j)
    ensures j in now ==> j in desired || Walked(more, j, now[j])
  {
    var mid', now' := mid - {k}, now - {k};
    assert (j in mid <==> j in mid') && (j in now <==> j in now');
    if j in present || (j in desired && j !in todo) {
      assert Fits(mid', desired, walked, j);
      FiredFits(mid', now', desired, walked, more, j);
    }
    if !Found(more, j) {
      if Found(walked, j) { FoundMore(walked, more, j); }
      FiredStays(before, mid', now', desired, more, j);
    }
  }

  /** The `target_tgids` map. `script` lists the hooks that fire before each of the coming user-space
      map operations, in any pattern; `faults` says which map operations the kernel refuses; `walked`
      keeps what the hooks have entered by their walks since the last call of `SyncTargetTGIDMap`. */
  class KernelMap {
    const script: seq<seq<Beat>>
    var entries: map<nat, U64>
    var next: nat
    var faults: seq<bool>
    ghost var walked: set<Admit>

    /** Whatever the hooks have entered is a process whose walk found the target. */
    ghost predicate Valid()
      reads this
    {
      forall a :: a in walked ==> Scripted(script, a)
    }

    constructor (entries: map<nat, U64>, script: seq<seq<Beat>>, faults: seq<bool>)
      ensures Valid() && walked == {}
      ensures this.entries == entries && this.script == script && next == 0 && this.faults == faults
    {
      this.entries, this.script, next, this.faults, walked := entries, script, 0, faults, {};
    }

    /** `allowed_tgid`, on the map. */
    method Fire(b: Beat)
      modifies `entries, `walked
      ensures entries == AfterBeat(old(entries), b)
      ensures Fired(old(entries), entries, walked) && old(walked) <= walked
      ensures walked != old(walked) ==> b.below && walked == old(walked) + {Admit(b.pid, b.identity)}
    {
      if b.pid in entries && BpfMatches(entries[b.pid], b.identity) {
        if IsSeed(entries[b.pid]) && !b.refused {
          entries := entries[b.pid := b.identity];
        }
      } else if b.below && !b.refused {
        entries := entries[b.pid := b.identity];
        walked := walked + {Admit(b.pid, b.identity)};
      }
    }

    /** The hooks of this turn, one after the other. */
    method RunHooks()
      requires Valid()
      modifies `entries, `next, `walked
      ensures Valid() && Fired(old(entries), entries, walked) && old(walked) <= walked
      ensures entries == AfterBeats(old(entries), if old(next) < |script| then script[old(next)] else [])
      ensures next == if old(next) < |script| then old(next) + 1 else old(next)
    {
      if next >= |script| {
        return;
      }
      var turn := next;
      var beats := script[turn];
      next := turn + 1;
      for i := 0 to |beats|
        invariant Valid() && Fired(old(entries), entries, walked) && old(walked) <= walked
        invariant entries == AfterBeats(old(entries), beats[..i]) && next == turn + 1
      {
        assert beats[..i + 1][..i] == beats[..i];
        ghost var mid, before := entries, walked;
        Fire(beats[i]);
        if beats[i].below { assert Entering(script[turn][i], Admit(beats[i].pid, beats[i].identity)); }
        FiredTwice(old(entries), mid, entries, before, walked);
      }
      assert beats[..|beats|] == beats;
    }

    /** Whether the kernel refuses the next operation. */
    method NextFault(ghost before: seq<bool>) returns (refused: bool)
      requires Asked(before, faults, true)
      modifies `faults
      ensures Asked(before, faults, !refused)
    {
      AskedOnce(before, faults, if faults == [] then [] else faults[1..], faults != [] && faults[0]);
      refused := faults != [] && faults[0];
      if faults != [] {
        faults := faults[1..];
      }
    }

    method Delete(key: nat, ghost before: seq<bool>) returns (ok: bool)
      requires Valid() && Asked(before, faults, true)
      modifies this
      ensures Valid() && old(walked) <= walked && Asked(before, faults, ok)
      ensures ok ==> key !in entries && Fired(old(entries) - {key}, entries, walked)
      ensures !ok ==> Fired(old(entries), entries, walked)
    {
      RunHooks();
      var refused := NextFault(before);
      if refused {
        return false;
      }
      entries := entries - {key};
      return true;
    }

    method Put(key: nat, value: U64, ghost before: seq<bool>) returns (ok: bool)
      requires Valid() && Asked(before, faults, true)
      modifies this
      ensures Valid() && old(walked) <= walked && Asked(before, faults, ok)
      ensures ok ==> Fired(old(entries) - {key}, entries - {key}, walked) && key in entries && entries[key] == value
      ensures !ok ==> Fired(old(entries), entries, walked)
    {
      RunHooks();
      var refused := NextFault(before);
      if refused {
        return false;
      }
      entries := entries[key := value];
      return true;
    }

    /** Delete a key that is not wanted. */
    method DeleteUnwanted(key: nat, desired: map<nat, U64>, ghost present: set<nat>, ghost before: map<nat, U64>,
                          ghost todo: set<nat>, ghost asked: seq<bool>) returns (ok: bool)
      requires Walking(before, entries, desired, walked, todo, present) && key in todo && key !in desired
      requires Noted(before, desired, walked, todo - {key}, present) && Valid() && Asked(asked, faults, true)
      modifies this
      ensures Valid() && old(walked) <= walked && Asked(asked, faults, ok)
      ensures Walking(before, entries, desired, walked, if ok then todo - {key} else todo, present)
      ensures Noted(before, desired, walked, todo - {key}, present)
    {
      ghost var mid, since := entries, walked;
      ok := Delete(key, asked);
      if ok {
        WalkingDeleted(before, mid, entries, desired, since, walked, todo, present, key);
      } else {
        WalkingFired(before, mid, entries, desired, since, walked, todo, present);
      }
      NotedMore(before, desired, since, walked, todo - {key}, present);
    }

    /** One key of the first loop: delete it if it is not wanted, note it if it matches. */
    method PruneOne(key: nat, desired: map<nat, U64>, present: set<nat>, ghost before: map<nat, U64>,
                    ghost todo: set<nat>, ghost asked: seq<bool>) returns (ok: bool, present': set<nat>)
      requires Walking(before, entries, desired, walked, todo, present) && Noted(before, desired, walked, todo, present)
      requires Valid() && key in todo && Asked(asked, faults, true)
      modifies this
      ensures Valid() && old(walked) <= walked && Asked(asked, faults, ok)
      ensures Walking(before, entries, desired, walked, if ok then todo - {key} else todo, present')
      ensures ok ==> Noted(before, desired, walked, todo - {key}, present')
    {
      ghost var mid, since := entries, walked;
      RunHooks();
      WalkingFired(before, mid, entries, desired, since, walked, todo, present);
      ok, present' := true, present;
      var identity := entries[key];
      NotedStep(before, entries, desired, since, walked, todo, present, key);
      if key !in desired {
        ok := DeleteUnwanted(key, desired, present, before, todo, asked);
      } else {
        WalkingVisited(before, entries, desired, walked, todo, present, key);
        if MatchesDesired(identity, desired[key]) {
          present' := present + {key};
        }
      }
    }

    /** The first loop of `syncTargetTGIDMap`: delete what is not wanted, note what matches. */
    method Prune(desired: map<nat, U64>) returns (ok: bool, present: set<nat>)
      requires Valid()
      modifies this
      ensures Valid() && old(walked) <= walked && Asked(old(faults), faults, ok)
      ensures ok ==> Walking(old(entries), entries, desired, walked, {}, present)
      ensures ok ==> Noted(old(entries), desired, walked, {}, present)
      ensures forall k :: k in entries ==> Untouched(old(entries), entries, k) || Found(walked, k)
    {
      ghost var before := entries;
      present := {};
      assert faults == faults[0..] && true !in faults[..0];
      var todo := entries.Keys;
      while todo != {}
        invariant Walking(before, entries, desired, walked, todo, present)
        invariant Noted(before, desired, walked, todo, present)
        invariant Valid() && old(walked) <= walked && Asked(old(faults), faults, true)
        decreases |todo|
      {
        var key :| key in todo;
        ok, present := PruneOne(key, desired, present, before, todo, old(faults));
        if !ok {
          StillUntouched(before, entries, desired, walked, todo, present);
          return;
        }
        todo := todo - {key};
      }
      StillUntouched(before, entries, desired, walked, todo, present);
      var broken := NextFault(old(faults));
      ok := !broken;
    }

    /** One wanted process that the first loop has not found: look again, and put it if it does not match. */
    method FillOne(tgid: nat, desired: map<nat, U64>, ghost before: map<nat, U64>, ghost todo: set<nat>,
                   ghost present: set<nat>, ghost asked: seq<bool>) returns (ok: bool)
      requires Filling(before, entries, desired, walked, todo, present) && Valid() && tgid in todo - present
      requires Asked(asked, faults, true)
      modifies this
      ensures Valid() && Asked(asked, faults, ok)
      ensures Filling(before, entries, desired, walked, if ok then todo - {tgid} else todo, present)
    {
      ghost var mid, since := entries, walked;
      RunHooks();
      FillingFired(before, mid, entries, desired, since, walked, todo, present);
      var unread := NextFault(asked);
      if unread {
        return false;
      }
      if tgid in entries && MatchesDesired(entries[tgid], desired[tgid]) {
        FillingKept(before, entries, desired, walked, todo, present, tgid);
        return true;
      }
      mid, since := entries, walked;
      ok := Put(tgid, desired[tgid], asked);
      if ok {
        FillingPut(before, mid, entries, desired, since, walked, todo, present, tgid);
      } else {
        FillingFired(before, mid, entries, desired, since, walked, todo, present);
      }
    }

    /** The second loop of `syncTargetTGIDMap`. */
    method Fill(desired: map<nat, U64>, ghost before: map<nat, U64>, present: set<nat>, ghost asked: seq<bool>)
      returns (ok: bool, ghost todo: set<nat>)
      requires Filling(before, entries, desired, walked, desired.Keys, present) && Valid()
      requires Asked(asked, faults, true)
      modifies this
      ensures Valid() && Asked(asked, faults, ok)
      ensures Filling(before, entries, desired, walked, todo, present) && (ok ==> todo == {})
    {
      todo := desired.Keys;
      var left := desired.Keys;
      while left != {}
        invariant left == todo && Filling(before, entries, desired, walked, todo, present) && Valid()
        invariant Asked(asked, faults, true)
        decreases |left|
      {
        var tgid :| tgid in left;
        if tgid in present {
          FillingKept(before, entries, desired, walked, todo, present, tgid);
        } else {
          ok := FillOne(tgid, desired, before, todo, present, asked);
          if !ok {
            return;
          }
        }
        left, todo := left - {tgid}, todo - {tgid};
      }
      ok := true;
    }

    /** `syncTargetTGIDMap`, with hooks firing between any two of its map operations: all wanted
        processes end in the map, and nothing else but processes that a hook entered during the call
        because it found them below the target. Where no hook did, the value matches and a value that
        matched before was replaced by nothing but its own upgrade. It fails if and only if the kernel
        refuses one of its operations, and then every entry is untouched, in step or entered by a hook. */
    method SyncTargetTGIDMap(desired: map<nat, U64>) returns (ok: bool)
      requires Valid()
      modifies this
      ensures Valid() && Asked(old(faults), faults, ok)
      ensures ok ==> desired.Keys <= entries.Keys
      ensures ok ==> forall k :: k in entries ==> k in desired || Walked(walked, k, entries[k])
      ensures ok ==> forall k :: k in desired ==> Fits(entries, desired, walked, k)
      ensures ok ==> forall k :: k in desired && !Found(walked, k) ==> InStep(old(entries), entries, desired, k)
      ensures !ok ==> forall k :: k in entries ==>
        Untouched(old(entries), entries, k) || InStep(old(entries), entries, desired, k) || Found(walked, k)
    {
      ghost var before, asked := entries, faults;
      walked := {};
      var present;
      ok, present := Prune(desired);
      if ok {
        FillingStarts(before, entries, desired, walked, present);
        ghost var todo;
        ok, todo := Fill(desired, before, present, asked);
        if ok {
          FillingEnds(before, entries, desired, walked, present);
        } else {
          FillingStops(before, entries, desired, walked, todo, present);
        }
      }
    }
  }

  lemma FillingEnds(before: map<nat, U64>, now: map<nat, U64>, desired: map<nat, U64>, walked: set<Admit>,
                    present: set<nat>)
    requires Filling(before, now, desired, walked, {}, present)
    ensures desired.Keys <= now.Keys
    ensures forall k :: k in now ==> k in desired || Walked(walked, k, now[k])
    ensures forall k :: k in desired ==> Fits(now, desired, walked, k)
    ensures forall k :: k in desired && !Found(walked, k) ==> InStep(before, now, desired, k)
  {
    forall k | k in desired ensures Fits(now, desired, walked, k) {}
  }

  lemma FillingStarts(before: map<nat, U64>, now: map<nat, U64>, desired: map<nat, U64>, walked: set<Admit>,
                      present: set<nat>)
    requires Walking(before, now, desired, walked, {}, present)
    ensures Filling(before, now, desired, walked, desired.Keys, present)
  {
  }

  lemma FillingStops(before: map<nat, U64>, now: map<nat, U64>, desired: map<nat, U64>, walked: set<Admit>,
                     todo: set<nat>, present: set<nat>)
    requires Filling(before, now, desired, walked, todo, present)
    ensures forall k :: k in now ==> Untouched(before, now, k) || InStep(before, now, desired, k) || Found(walked, k)
  {
    forall k | k in now && !Found(walked, k) ensures Untouched(before, now, k) || InStep(before, now, desired, k) {
      if Walked(walked, k, now[k]) { assert Found(walked, k); }
    }
  }

  /** Every entry that matched at the start is noted, once it has been visited, unless a walk replaced it. */
  ghost predicate Noted(before: map<nat, U64>, desired: map<nat, U64>, walked: set<Admit>, todo: set<nat>,
                        present: set<nat>) {
    forall k :: k in before && k in desired && MatchesDesired(before[k], desired[k]) && k !in todo && !Found(walked, k)
      ==> k in present
  }

  lemma NotedStep(before: map<nat, U64>, now: map<nat, U64>, desired: map<nat, U64>, walked: set<Admit>,
                  more: set<Admit>, todo: set<nat>, present: set<nat>, key: nat)
    requires Noted(before, desired, walked, todo, present) && walked <= more && key in todo && key in now
    requires Walking(before, now, desired, more, todo, present)
    ensures Noted(before, desired, more, todo - {key},
                  if key in desired && MatchesDesired(now[key], desired[key]) then present + {key} else present)
  {
    forall k | k in before && k in desired && MatchesDesired(before[k], desired[k]) && k !in todo - {key}
               && !Found(more, k)
      ensures k in present || (k == key && MatchesDesired(now[key], desired[key]))
    {
      if k == key {
        assert Untouched(before, now, key);
        UpgradeKeepsMatch(before[key], now[key], desired[key]);
      } else if Found(walked, k) {
        FoundMore(walked, more, k);
      }
    }
  }

  lemma WalkingVisited(before: map<nat, U64>, now: map<nat, U64>, desired: map<nat, U64>, walked: set<Admit>,
                       todo: set<nat>, present: set<nat>, key: nat)
    requires Walking(before, now, desired, walked, todo, present) && key in todo && key in desired
    ensures Walking(before, now, desired, walked, todo - {key},
                    if MatchesDesired(now[key], desired[key]) then present + {key} else present)
  {
  }

  lemma NotedMore(before: map<nat, U64>, desired: map<nat, U64>, walked: set<Admit>, more: set<Admit>, todo: set<nat>,
                  present: set<nat>)
    requires Noted(before, desired, walked, todo, present) && walked <= more
    ensures Noted(before, desired, more, todo, present)
  {
    forall k | Found(walked, k) ensures Found(more, k) {
      FoundMore(walked, more, k);
    }
  }

  lemma StillUntouched(before: map<nat, U64>, now: map<nat, U64>, desired: map<nat, U64>, walked: set<Admit>,
                       todo: set<nat>, present: set<nat>)
    requires Walking(before, now, desired, walked, todo, present)
    ensures forall k :: k in now ==> Untouched(before, now, k) || Found(walked, k)
  {
    forall k | k in now ensures Untouched(before, now, k) || Found(walked, k) {
      if Walked(walked, k, now[k]) { assert Found(walked, k); }
    }
  }
}
