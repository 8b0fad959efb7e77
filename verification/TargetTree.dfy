/** The target process tree: user space closes a /proc snapshot breadth-first, the BPF programs walk
    at most sixteen parents up. */
module TargetTree {
  import opened FiniteSums

  const WALK_LIMIT := 16

  /** The process `i` parents above `pid`; None once a parent is unknown. */
  ghost function Ancestor(parent: map<nat, nat>, pid: nat, i: nat): Option<nat>
    decreases i
  {
    if i == 0 then Some(pid)
    else if pid in parent then Ancestor(parent, parent[pid], i - 1)
    else None
  }

  /** `pid` is `root` or below it. */
  ghost predicate Descends(parent: map<nat, nat>, root: nat, pid: nat) {
    exists i: nat :: Ancestor(parent, pid, i) == Some(root)
  }

  /** `children` inverts the parent map. */
  ghost predicate Inverts(children: map<nat, seq<nat>>, parent: map<nat, nat>) {
    && (forall p, c :: p in children && c in children[p] ==> c in parent && parent[c] == p)
    && (forall c :: c in parent ==> parent[c] in children && c in children[parent[c]])
  }

  /** The search has nothing left to do below the processes seen. */
  ghost predicate Closed(parent: map<nat, nat>, seen: set<nat>) {
    forall c :: c in parent && parent[c] in seen ==> c in seen
  }

  lemma {:induction false} ClosedContains(parent: map<nat, nat>, root: nat, seen: set<nat>, pid: nat, i: nat)
    requires root in seen && Closed(parent, seen) && Ancestor(parent, pid, i) == Some(root)
    ensures pid in seen
    decreases i
  {
    if i > 0 { ClosedContains(parent, root, seen, parent[pid], i - 1); }
  }

  lemma ChildDescends(parent: map<nat, nat>, root: nat, child: nat)
    requires child in parent && Descends(parent, root, parent[child])
    ensures Descends(parent, root, child)
  {
    var i: nat :| Ancestor(parent, parent[child], i) == Some(root);
    assert Ancestor(parent, child, i + 1) == Some(root);
  }

  method ChildrenOf(snap: map<nat, nat>) returns (children: map<nat, seq<nat>>)
    ensures Inverts(children, snap)
  {
    children := map[];
    var todo := snap.Keys;
    while todo != {}
      invariant todo <= snap.Keys
      invariant forall p, c :: p in children && c in children[p] ==> c in snap && snap[c] == p
      invariant forall c :: c in snap && c !in todo ==> snap[c] in children && c in children[snap[c]]
      decreases |todo|
    {
      var pid :| pid in todo;
      var ppid := snap[pid];
      var siblings := if ppid in children then children[ppid] else [];
      children := children[ppid := siblings + [pid]];
      assert pid in children[ppid];
      todo := todo - {pid};
    }
  }

  /** The search between two rounds: everything seen is at or below the root, everything queued has
      been seen, and only children of queued processes (or of `open`) may still be missing. */
  ghost predicate Search(snap: map<nat, nat>, root: nat, seen: set<nat>, queue: seq<nat>, open: set<nat>) {
    && root in seen && seen <= snap.Keys + {root}
    && (forall p :: p in queue ==> p in seen)
    && (forall p :: p in seen ==> Descends(snap, root, p))
    && (forall c :: c in snap && snap[c] in seen && snap[c] !in queue && snap[c] !in open ==> c in seen)
  }

  /** Queue every child of `pid` that has not been seen yet. */
  method EnqueueAll(ghost root: nat, ghost snap: map<nat, nat>, pid: nat, below: seq<nat>, seen: set<nat>,
                    queue: seq<nat>)
    returns (seen': set<nat>, queue': seq<nat>)
    requires Search(snap, root, seen, queue, {pid}) && pid in seen
    requires forall c :: c in below ==> c in snap && snap[c] == pid
    ensures Search(snap, root, seen', queue', {pid}) && seen <= seen'
    ensures forall c :: c in below ==> c in seen'
    ensures seen' == seen ==> queue' == queue
  {
    seen', queue' := seen, queue;
    for i := 0 to |below|
      invariant Search(snap, root, seen', queue', {pid}) && seen <= seen'
      invariant forall j :: 0 <= j < i ==> below[j] in seen'
      invariant seen' == seen ==> queue' == queue
    {
      var child := below[i];
      if child !in seen' {
        AddChild(snap, root, seen', queue', pid, child);
        seen', queue' := seen' + {child}, queue' + [child];
      }
    }
  }

  lemma AddChild(snap: map<nat, nat>, root: nat, seen: set<nat>, queue: seq<nat>, pid: nat, child: nat)
    requires Search(snap, root, seen, queue, {pid}) && pid in seen && child in snap && snap[child] == pid
    ensures Search(snap, root, seen + {child}, queue + [child], {pid})
  {
    ChildDescends(snap, root, child);
    assert forall p :: p in queue + [child] <==> p in queue || p == child;
  }

  lemma Dequeued(snap: map<nat, nat>, root: nat, seen: set<nat>, queue: seq<nat>)
    requires queue != [] && Search(snap, root, seen, queue, {})
    ensures Search(snap, root, seen, queue[1..], {queue[0]}) && queue[0] in seen
  {
    assert forall p :: p in queue <==> p == queue[0] || p in queue[1..];
  }

  lemma Finished(snap: map<nat, nat>, root: nat, seen: set<nat>, queue: seq<nat>, pid: nat)
    requires Search(snap, root, seen, queue, {pid})
    requires forall c :: c in snap && snap[c] == pid ==> c in seen
    ensures Search(snap, root, seen, queue, {})
  {
  }

  /** One round of the search: take a process off the queue and queue its unseen children. */
  method Visit(ghost root: nat, ghost snap: map<nat, nat>, children: map<nat, seq<nat>>, seen: set<nat>,
               queue: seq<nat>)
    returns (seen': set<nat>, queue': seq<nat>)
    requires Inverts(children, snap) && queue != [] && Search(snap, root, seen, queue, {})
    ensures Search(snap, root, seen', queue', {}) && seen <= seen'
    ensures seen' == seen ==> |queue'| < |queue|
  {
    var pid := queue[0];
    Dequeued(snap, root, seen, queue);
    var below := if pid in children then children[pid] else [];
    seen', queue' := EnqueueAll(root, snap, pid, below, seen, queue[1..]);
    Finished(snap, root, seen', queue', pid);
  }

  /** The worklist search ends on any parent map, cycles included, and returns exactly the processes
      at or below the root, the root itself even when the snapshot does not have it. */
  method CollectTargetTGIDs(root: nat, snap: map<nat, nat>) returns (seen: set<nat>)
    ensures forall pid :: pid in seen <==> Descends(snap, root, pid)
  {
    var children := ChildrenOf(snap);
    seen := {root};
    var queue := [root];
    assert Ancestor(snap, root, 0) == Some(root);
    while queue != []
      invariant Search(snap, root, seen, queue, {})
      decreases |snap.Keys + {root} - seen|, |queue|
    {
      ghost var older := seen;
      seen, queue := Visit(root, snap, children, seen, queue);
      Shrinks(snap.Keys + {root}, older, seen);
    }
    SearchDone(snap, root, seen);
  }

  lemma SearchDone(snap: map<nat, nat>, root: nat, seen: set<nat>)
    requires Search(snap, root, seen, [], {})
    ensures forall pid :: pid in seen <==> Descends(snap, root, pid)
  {
    forall pid | Descends(snap, root, pid) ensures pid in seen {
      var i: nat :| Ancestor(snap, pid, i) == Some(root);
      ClosedContains(snap, root, seen, pid, i);
    }
  }

  /** Seeing more leaves fewer to see. */
  lemma Shrinks(all: set<nat>, older: set<nat>, seen: set<nat>)
    requires older <= seen <= all
    ensures seen == older || |all - seen| < |all - older|
  {
    if seen != older {
      var p :| p in seen && p !in older;
      assert all - seen <= all - older - {p};
      Smaller(all - seen, all - older - {p});
    }
  }

  lemma {:induction false} Smaller(a: set<nat>, b: set<nat>)
    requires a <= b
    ensures |a| <= |b|
  {
    if a != {} {
      var x :| x in a;
      Smaller(a - {x}, b - {x});
    }
  }

  // ------------------------------------------------------------------ the bounded walk

  /** A process that is its own parent stays where it is. */
  lemma {:induction false} SelfParent(parent: map<nat, nat>, pid: nat, i: nat)
    requires pid in parent && parent[pid] == pid
    ensures Ancestor(parent, pid, i) == Some(pid)
    decreases i
  {
    if i > 0 { SelfParent(parent, pid, i - 1); }
  }

  /** `i` parents up from the process `n` parents up. */
  lemma {:induction false} AncestorSplit(parent: map<nat, nat>, pid: nat, n: nat, i: nat)
    requires Ancestor(parent, pid, n).Some?
    ensures Ancestor(parent, pid, n + i) == Ancestor(parent, Ancestor(parent, pid, n).value, i)
    decreases n
  {
    if n > 0 { AncestorSplit(parent, parent[pid], n - 1, i); }
  }

  /** `target` is among the first sixteen elements of the parent chain of `pid`. */
  ghost predicate InReach(parent: map<nat, nat>, pid: nat, target: nat) {
    exists i: nat :: i < WALK_LIMIT && Ancestor(parent, pid, i) == Some(target)
  }

  /** The unrolled ancestor walk of `allowed_tgid`: it admits exactly the tasks with the target among
      the first sixteen elements of their parent chain. */
  method WalkAdmits(parent: map<nat, nat>, tgid: nat, target: nat) returns (admitted: bool)
    ensures admitted <==> InReach(parent, tgid, target)
  {
    var task := Some(tgid);
    for i := 0 to WALK_LIMIT
      invariant task == Ancestor(parent, tgid, i)
      invariant forall j :: 0 <= j < i ==> Ancestor(parent, tgid, j) != Some(target)
    {
      if task.None? {
        forall j | i <= j ensures Ancestor(parent, tgid, j).None? { NoneAbove(parent, tgid, i, j - i); }
        return false;
      }
      if task.value == target {
        return true;
      }
      AncestorSplit(parent, tgid, i, 1);
      if task.value in parent && parent[task.value] == task.value {
        forall j | i <= j ensures Ancestor(parent, tgid, j) == task {
          AncestorSplit(parent, tgid, i, j - i);
          SelfParent(parent, task.value, j - i);
        }
        return false;
      }
      task := if task.value in parent then Some(parent[task.value]) else None;
    }
    return false;
  }

  lemma {:induction false} NoneAbove(parent: map<nat, nat>, pid: nat, n: nat, i: nat)
    requires Ancestor(parent, pid, n).None?
    ensures Ancestor(parent, pid, n + i).None?
    decreases n
  {
    if pid in parent { NoneAbove(parent, parent[pid], n - 1, i); }
  }

  /** The kernel's parents and the snapshot agree; the kernel's own root may be its own parent. */
  ghost predicate Agree(parent: map<nat, nat>, snap: map<nat, nat>) {
    forall p :: p in parent && parent[p] != p ==> p in snap && snap[p] == parent[p]
  }

  lemma {:induction false} AgreeDescends(parent: map<nat, nat>, snap: map<nat, nat>, root: nat, pid: nat, i: nat)
    requires Agree(parent, snap) && Ancestor(parent, pid, i) == Some(root)
    ensures Descends(snap, root, pid)
    decreases i
  {
    if i == 0 {
      assert Ancestor(snap, pid, 0) == Some(root);
    } else {
      AgreeDescends(parent, snap, root, parent[pid], i - 1);
      if parent[pid] != pid { ChildDescends(snap, root, pid); }
    }
  }

  /** Whatever the bounded walk admits, the closure contains, when the two see the same parents. */
  lemma WalkWithinClosure(parent: map<nat, nat>, snap: map<nat, nat>, root: nat, pid: nat)
    requires Agree(parent, snap)
    requires InReach(parent, pid, root)
    ensures Descends(snap, root, pid)
  {
    var i: nat :| i < WALK_LIMIT && Ancestor(parent, pid, i) == Some(root);
    AgreeDescends(parent, snap, root, pid, i);
  }

  function NextBelow(pid: nat): (below: nat) {
    if pid == 0 then 0 else pid - 1
  }

  /** A chain of processes, each the child of the one numbered below it. */
  function Chain(length: nat): map<nat, nat> {
    map pid: nat | 1 < pid <= length :: NextBelow(pid)
  }

  lemma {:induction false} ChainAncestor(length: nat, pid: nat, i: nat)
    requires 1 <= pid <= length
    ensures Ancestor(Chain(length), pid, i) == if i < pid then Some(pid - i) else None
    decreases i
  {
    if i > 0 && pid > 1 { ChainAncestor(length, pid - 1, i - 1); }
  }

  /** The walk is strictly weaker: in a chain below process 1, the closure holds every process, the
      walk admits exactly the first sixteen. Deeper ones depend on the seeds of the closure. */
  lemma WalkMissesDeepProcesses(length: nat, pid: nat)
    requires 1 <= pid <= length
    ensures Descends(Chain(length), 1, pid)
    ensures InReach(Chain(length), pid, 1) <==> pid <= WALK_LIMIT
  {
    ChainAncestor(length, pid, pid - 1);
    if InReach(Chain(length), pid, 1) {
      var i: nat :| i < WALK_LIMIT && Ancestor(Chain(length), pid, i) == Some(1);
      ChainAncestor(length, pid, i);
    }
  }
}
