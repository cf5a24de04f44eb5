// A scan of the process table, its child index, and breadth-first descent
// (internal/procscan/types.go). The parent links may form cycles.
module ProcScan {
  import opened Base

  datatype RawProcess = RawProcess(
    pid: int, ppid: int, command: string, cwd: string, startedAt: Time, rss: U64, cpu: real)

  datatype Snapshot = Snapshot(processes: map<int, RawProcess>, listenPorts: map<int, seq<int>>)

  // ------------------------------------------------------ the parent chain --

  /** Following n parent links upward from x through listed processes gives p. */
  ghost predicate Climbs(s: Snapshot, x: int, p: int, n: nat)
    decreases n
  {
    if n == 0 then x == p
    else x in s.processes && Climbs(s, s.processes[x].ppid, p, n - 1)
  }

  /** The listed processes whose parent chain reaches root. */
  ghost function Subtree(s: Snapshot, root: int): set<int> {
    set x | x in s.processes && exists n: nat :: Climbs(s, x, root, n)
  }

  /** As Climbs, but the climb stops at root: root has no parent of its own. */
  ghost predicate ClimbsWithin(s: Snapshot, root: int, x: int, p: int, n: nat)
    decreases n
  {
    if n == 0 then x == p
    else x != root && x in s.processes && ClimbsWithin(s, root, s.processes[x].ppid, p, n - 1)
  }

  /** The part of root's subtree that hangs below p once root's parent link is cut. */
  ghost function Branch(s: Snapshot, root: int, p: int): set<int> {
    set x | x in s.processes && exists n: nat :: ClimbsWithin(s, root, x, p, n)
  }

  lemma {:induction false} ClimbsCompose(s: Snapshot, x: int, p: int, q: int, m: nat, n: nat)
    requires Climbs(s, x, p, m) && Climbs(s, p, q, n)
    ensures Climbs(s, x, q, m + n)
    decreases m
  {
    if m > 0 { ClimbsCompose(s, s.processes[x].ppid, p, q, m - 1, n); }
  }

  lemma {:induction false} ClimbsSplit(s: Snapshot, x: int, p: int, q: int, m: nat, n: nat)
    requires Climbs(s, x, p, m) && Climbs(s, x, q, m + n)
    ensures Climbs(s, p, q, n)
    decreases m
  {
    if m > 0 { ClimbsSplit(s, s.processes[x].ppid, p, q, m - 1, n); }
  }

  lemma {:induction false} WithinCompose(s: Snapshot, root: int, x: int, p: int, q: int, m: nat, n: nat)
    requires ClimbsWithin(s, root, x, p, m) && ClimbsWithin(s, root, p, q, n)
    ensures ClimbsWithin(s, root, x, q, m + n)
    decreases m
  {
    if m > 0 { WithinCompose(s, root, s.processes[x].ppid, p, q, m - 1, n); }
  }

  lemma {:induction false} WithinSameTarget(s: Snapshot, root: int, x: int, p: int, q: int, n: nat)
    requires ClimbsWithin(s, root, x, p, n) && ClimbsWithin(s, root, x, q, n)
    ensures p == q
    decreases n
  {
    if n > 0 { WithinSameTarget(s, root, s.processes[x].ppid, p, q, n - 1); }
  }

  /** One parent each: the distance to the root of a cut subtree is unique, cycles or not. */
  lemma {:induction false} WithinSameDistance(s: Snapshot, root: int, x: int, m: nat, n: nat)
    requires ClimbsWithin(s, root, x, root, m) && ClimbsWithin(s, root, x, root, n)
    ensures m == n
    decreases m
  {
    if m > 0 && n > 0 { WithinSameDistance(s, root, s.processes[x].ppid, m - 1, n - 1); }
  }

  lemma {:induction false} WithinIsClimb(s: Snapshot, root: int, x: int, p: int, n: nat)
    requires ClimbsWithin(s, root, x, p, n)
    ensures Climbs(s, x, p, n)
    decreases n
  {
    if n > 0 { WithinIsClimb(s, root, s.processes[x].ppid, p, n - 1); }
  }

  /** A chain that reaches root has a first arrival there. */
  lemma {:induction false} FirstArrival(s: Snapshot, root: int, x: int, n: nat) returns (m: nat)
    requires Climbs(s, x, root, n)
    ensures m <= n && ClimbsWithin(s, root, x, root, m)
    decreases n
  {
    if x == root {
      m := 0;
    } else {
      m := FirstArrival(s, root, s.processes[x].ppid, n - 1);
      m := m + 1;
    }
  }

  lemma SubtreeIsBranch(s: Snapshot, root: int)
    ensures Branch(s, root, root) == Subtree(s, root)
  {
    forall x | x in Branch(s, root, root) ensures x in Subtree(s, root) {
      var n: nat :| ClimbsWithin(s, root, x, root, n);
      WithinIsClimb(s, root, x, root, n);
    }
    forall x | x in Subtree(s, root) ensures x in Branch(s, root, root) {
      var n: nat :| Climbs(s, x, root, n);
      var _ := FirstArrival(s, root, x, n);
    }
  }

  // ---------------------------------------------------------- child index --

  function Kids(index: map<int, seq<int>>, pid: int): seq<int> {
    if pid in index then index[pid] else []
  }

  /** index lists, once each and in any order, the members of done under their parent. */
  ghost predicate Indexes(s: Snapshot, done: set<int>, index: map<int, seq<int>>)
    requires done <= s.processes.Keys
  {
    && (forall p :: NoDup(Kids(index, p)))
    && (forall p, c :: c in Kids(index, p) <==> c in done && s.processes[c].ppid == p)
  }

  ghost predicate ChildIndex(s: Snapshot, index: map<int, seq<int>>) {
    Indexes(s, s.processes.Keys, index)
  }

  method Children(s: Snapshot) returns (out: map<int, seq<int>>)
    ensures ChildIndex(s, out)
  {
    out := map[];
    var rest := s.processes.Keys;
    ghost var done := {};
    while rest != {}
      invariant done + rest == s.processes.Keys && done !! rest
      invariant Indexes(s, done, out)
      decreases rest
    {
      var pid := NextKey(rest);
      var ppid := s.processes[pid].ppid;
      ghost var before := out;
      out := out[ppid := Kids(out, ppid) + [pid]];
      rest, done := rest - {pid}, done + {pid};
      forall p
        ensures NoDup(Kids(out, p))
        ensures forall c :: c in Kids(out, p) <==> c in done && s.processes[c].ppid == p
      {
        assert NoDup(Kids(before, p));
        if p == ppid {
          assert pid !in Kids(before, p);
          assert Kids(out, p) == Kids(before, p) + [pid];
        } else {
          assert Kids(out, p) == Kids(before, p);
        }
      }
    }
  }

  // ---------------------------------------------------------- Descendants --

  lemma {:induction false} ClosedContains(s: Snapshot, root: int, seen: set<int>, x: int, n: nat)
    requires root in seen
    requires forall c :: c in s.processes && s.processes[c].ppid in seen ==> c in seen
    requires x in s.processes && Climbs(s, x, root, n)
    ensures x in seen
    decreases n
  {
    if n > 0 {
      var up := s.processes[x].ppid;
      if n > 1 { ClosedContains(s, root, seen, up, n - 1); }
    }
  }

  lemma ChildOfSubtree(s: Snapshot, root: int, p: int, c: int)
    requires p in Subtree(s, root) && c in s.processes && s.processes[c].ppid == p
    ensures c in Subtree(s, root)
  {
    var n: nat :| Climbs(s, p, root, n);
    assert Climbs(s, c, root, n + 1);
  }

  /** Breadth-first: each process whose parent chain reaches a listed root, once. */
  method Descendants(s: Snapshot, root: int) returns (out: seq<int>)
    ensures root !in s.processes ==> out == []
    ensures root in s.processes ==> NoDup(out) && forall x :: x in out <==> x in Subtree(s, root)
  {
    if root !in s.processes { return []; }
    var children := Children(s);
    out := [];
    var queue := [root];
    var seen: set<int> := {};
    assert Climbs(s, root, root, 0);
    while queue != []
      invariant NoDup(out) && forall x :: x in out <==> x in seen
      invariant seen <= Subtree(s, root)
      invariant forall q :: q in queue ==> q in Subtree(s, root)
      invariant root in seen || root in queue
      invariant forall c :: c in s.processes && s.processes[c].ppid in seen ==> c in seen || c in queue
      decreases Subtree(s, root) - seen, |queue|
    {
      var pid := queue[0];
      ghost var was := queue;
      queue := queue[1..];
      assert was == [pid] + queue;
      if pid in seen { continue; }
      seen := seen + {pid};
      out := out + [pid];
      forall c | c in Kids(children, pid) ensures c in Subtree(s, root) {
        ChildOfSubtree(s, root, pid, c);
      }
      queue := queue + Kids(children, pid);
    }
    forall x | x in Subtree(s, root) ensures x in out {
      var n: nat :| Climbs(s, x, root, n);
      ClosedContains(s, root, seen, x, n);
    }
  }
}
