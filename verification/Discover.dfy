// Auto-discovery of session roots (internal/discover/patterns.go): which
// matching processes are reported, and how their trees divide the process table.
module Discover {
  import opened Base
  import opened ProcScan

  /** A pattern's Match closure is any predicate on command lines. */
  datatype Pattern = Pattern(agent: string, title: string, matches: string -> bool)

  datatype Root = Root(pid: int, pattern: Pattern, process: RawProcess)

  const WALK_LIMIT: nat := 1000

  /** patterns[i] is the first pattern that accepts command. */
  predicate FirstMatch(command: string, patterns: seq<Pattern>, i: nat) {
    && i < |patterns| && patterns[i].matches(command)
    && forall j :: 0 <= j < i ==> !patterns[j].matches(command)
  }

  ghost predicate FirstPattern(command: string, patterns: seq<Pattern>, p: Pattern) {
    exists i: nat :: FirstMatch(command, patterns, i) && p == patterns[i]
  }

  method MatchOne(command: string, patterns: seq<Pattern>) returns (i: nat, ok: bool)
    ensures ok ==> FirstMatch(command, patterns, i)
    ensures !ok ==> forall j :: 0 <= j < |patterns| ==> !patterns[j].matches(command)
  {
    for k := 0 to |patterns|
      invariant forall j :: 0 <= j < k ==> !patterns[j].matches(command)
    {
      if patterns[k].matches(command) { return k, true; }
    }
    return 0, false;
  }

  ghost predicate AnyMatch(command: string, patterns: seq<Pattern>) {
    exists i :: 0 <= i < |patterns| && patterns[i].matches(command)
  }

  /** The processes auto-discovery may consider. */
  ghost function Candidates(s: Snapshot, patterns: seq<Pattern>, exclude: set<int>): set<int> {
    set p | p in s.processes && p !in exclude && AnyMatch(s.processes[p].command, patterns)
  }

  // ------------------------------------------------------ ancestor search ---

  /** The first n ancestors of pid are not pid 0 and never repeat. */
  ghost predicate CleanClimb(s: Snapshot, pid: int, n: nat) {
    && (forall m: nat, b :: 1 <= m <= n && Climbs(s, pid, b, m) ==> b != 0)
    && (forall l: nat, m: nat, b :: l < m <= n && Climbs(s, pid, b, l) ==> !Climbs(s, pid, b, m))
  }

  /** Some ancestor within the walk limit, before pid 0 or a repeat, is matched. */
  ghost predicate VisibleAncestor(s: Snapshot, matched: set<int>, pid: int) {
    exists n: nat, a :: 1 <= n <= 1000 && CleanClimb(s, pid, n) && Climbs(s, pid, a, n) && a in matched
  }

  lemma {:induction false} ClimbsUnique(s: Snapshot, x: int, p: int, q: int, n: nat)
    requires Climbs(s, x, p, n) && Climbs(s, x, q, n)
    ensures p == q
    decreases n
  {
    if n > 0 { ClimbsUnique(s, s.processes[x].ppid, p, q, n - 1); }
  }

  lemma {:induction false} ClimbsExtend(s: Snapshot, x: int, p: int, n: nat)
    requires Climbs(s, x, p, n) && p in s.processes
    ensures Climbs(s, x, s.processes[p].ppid, n + 1)
    decreases n
  {
    if n > 0 {
      ClimbsExtend(s, s.processes[x].ppid, p, n - 1);
    } else {
      assert Climbs(s, s.processes[x].ppid, s.processes[x].ppid, 0);
    }
  }

  /** A longer climb passes through every intermediate ancestor. */
  lemma {:induction false} ClimbsPrefix(s: Snapshot, x: int, a: int, n: nat, m: nat) returns (b: int)
    requires Climbs(s, x, a, n) && m <= n
    ensures Climbs(s, x, b, m) && Climbs(s, b, a, n - m)
    ensures m < n ==> b in s.processes
    decreases m
  {
    if m == 0 {
      b := x;
    } else {
      b := ClimbsPrefix(s, s.processes[x].ppid, a, n - 1, m - 1);
    }
  }

  /** The upward walk: at most 1000 links, stopping at pid 0, an unlisted pid or a repeat. */
  method HasMatchedAncestor(s: Snapshot, pid: int, matched: map<int, Pattern>) returns (r: bool)
    ensures r <==> VisibleAncestor(s, matched.Keys, pid)
  {
    var seen := {pid};
    var cur := pid;
    assert forall b :: Passed(s, pid, b, 0) <==> Climbs(s, pid, b, 0);
    for i := 0 to WALK_LIMIT
      invariant Climbs(s, pid, cur, i) && CleanClimb(s, pid, i)
      invariant forall b :: b in seen <==> Passed(s, pid, b, i)
      invariant forall m: nat, a :: 1 <= m <= i && Climbs(s, pid, a, m) ==> a !in matched
    {
      if cur !in s.processes {
        NoFurther(s, pid, cur, i);
        return false;
      }
      var parent := s.processes[cur].ppid;
      if parent == 0 || parent in seen {
        Blocked(s, pid, cur, i);
        return false;
      }
      Stepped(s, pid, cur, i, i + 1, seen);
      if parent in matched {
        ghost var n: nat := i + 1;
        assert Climbs(s, pid, parent, n) && CleanClimb(s, pid, n);
        return true;
      }
      seen := seen + {parent};
      cur := parent;
    }
    return false;
  }

  /** b is pid or one of its first i ancestors. */
  ghost predicate Passed(s: Snapshot, pid: int, b: int, i: nat) {
    exists m: nat :: m <= i && Climbs(s, pid, b, m)
  }

  lemma NoFurther(s: Snapshot, pid: int, cur: int, i: nat)
    requires Climbs(s, pid, cur, i) && cur !in s.processes
    ensures forall n: nat, a :: n > i ==> !Climbs(s, pid, a, n)
  {
    forall n: nat, a | n > i ensures !Climbs(s, pid, a, n) {
      if Climbs(s, pid, a, n) {
        var b := ClimbsPrefix(s, pid, a, n, i);
        ClimbsUnique(s, pid, b, cur, i);
      }
    }
  }

  lemma Blocked(s: Snapshot, pid: int, cur: int, i: nat)
    requires Climbs(s, pid, cur, i) && cur in s.processes
    requires s.processes[cur].ppid == 0 || Passed(s, pid, s.processes[cur].ppid, i)
    ensures forall n: nat :: n > i ==> !CleanClimb(s, pid, n)
  {
    ClimbsExtend(s, pid, cur, i);
    var j := i + 1;
    assert Climbs(s, pid, s.processes[cur].ppid, j);
  }

  lemma Stepped(s: Snapshot, pid: int, cur: int, i: nat, j: nat, seen: set<int>)
    requires j == i + 1
    requires Climbs(s, pid, cur, i) && CleanClimb(s, pid, i) && cur in s.processes
    requires forall b :: b in seen <==> Passed(s, pid, b, i)
    requires s.processes[cur].ppid != 0 && s.processes[cur].ppid !in seen
    ensures CleanClimb(s, pid, j) && Climbs(s, pid, s.processes[cur].ppid, j)
    ensures forall a :: Climbs(s, pid, a, j) ==> a == s.processes[cur].ppid
    ensures forall b :: b in seen + {s.processes[cur].ppid} <==> Passed(s, pid, b, j)
  {
    var parent := s.processes[cur].ppid;
    ClimbsExtend(s, pid, cur, i);
    forall a | Climbs(s, pid, a, j) ensures a == parent {
      ClimbsUnique(s, pid, a, parent, j);
    }
    forall b ensures b in seen + {parent} <==> Passed(s, pid, b, j) {
      if m: nat :| m <= j && Climbs(s, pid, b, m) {
        if m < j { assert Passed(s, pid, b, i); }
      }
    }
    forall l: nat, m: nat, b | l < m <= j && Climbs(s, pid, b, l) ensures !Climbs(s, pid, b, m) {
      if m == j { assert Passed(s, pid, b, i); }
    }
  }

  // -------------------------------------------------------------- FindRoots --

  /** roots are exactly the candidates without a visible matched ancestor, once each. */
  ghost predicate AreRoots(s: Snapshot, patterns: seq<Pattern>, exclude: set<int>, roots: seq<Root>) {
    && (forall i, j :: 0 <= i < j < |roots| ==> roots[i].pid != roots[j].pid)
    && (forall r :: r in roots ==>
                      && RootPid(s, Candidates(s, patterns, exclude), r.pid)
                      && r.process == s.processes[r.pid]
                      && FirstPattern(r.process.command, patterns, r.pattern))
    && (forall p :: RootPid(s, Candidates(s, patterns, exclude), p) ==> exists r :: r in roots && r.pid == p)
  }

  ghost predicate RootPid(s: Snapshot, matched: set<int>, p: int) {
    p in matched && !VisibleAncestor(s, matched, p)
  }

  method FindMatched(s: Snapshot, patterns: seq<Pattern>, exclude: set<int>) returns (matched: map<int, Pattern>)
    ensures matched.Keys == Candidates(s, patterns, exclude)
    ensures forall p :: p in matched ==>
              FirstPattern(s.processes[p].command, patterns, matched[p])
  {
    matched := map[];
    var rest := s.processes.Keys;
    while rest != {}
      invariant rest <= s.processes.Keys
      invariant forall p :: p in matched <==>
                  p in s.processes && p !in rest && p !in exclude && AnyMatch(s.processes[p].command, patterns)
      invariant forall p :: p in matched ==>
                  FirstPattern(s.processes[p].command, patterns, matched[p])
    {
      var pid := NextKey(rest);
      rest := rest - {pid};
      if pid in exclude { continue; }
      var i, ok := MatchOne(s.processes[pid].command, patterns);
      if ok {
        assert FirstPattern(s.processes[pid].command, patterns, patterns[i]);
        matched := matched[pid := patterns[i]];
      }
    }
    forall p ensures p in matched.Keys <==> p in Candidates(s, patterns, exclude) {
      assert p in matched.Keys <==> p in matched;
    }
  }

  method FindRoots(s: Snapshot, patterns: seq<Pattern>, exclude: set<int>) returns (roots: seq<Root>)
    ensures AreRoots(s, patterns, exclude, roots)
  {
    var matched := FindMatched(s, patterns, exclude);
    ghost var all := Candidates(s, patterns, exclude);
    roots := [];
    var rest := matched.Keys;
    while rest != {}
      invariant rest <= all
      invariant forall i, j :: 0 <= i < j < |roots| ==> roots[i].pid != roots[j].pid
      invariant forall r :: r in roots ==>
                  && RootPid(s, all, r.pid) && r.pid !in rest && r.process == s.processes[r.pid]
                  && FirstPattern(r.process.command, patterns, r.pattern)
      invariant forall p :: RootPid(s, all, p) && p !in rest ==> exists r :: r in roots && r.pid == p
    {
      var pid := NextKey(rest);
      ghost var before := rest;
      rest := rest - {pid};
      var covered := HasMatchedAncestor(s, pid, matched);
      if covered { continue; }
      ghost var was := roots;
      var root := Root(pid, matched[pid], s.processes[pid]);
      roots := roots + [root];
      forall p | RootPid(s, all, p) && p !in rest ensures exists r :: r in roots && r.pid == p {
        if p == pid {
          assert root in roots;
        } else {
          var r :| r in was && r.pid == p;
          assert r in roots;
        }
      }
    }
  }

  // ------------------------------------------------- how the trees divide ---

  /** Climbing from p leaves the process table, or arrives at pid 0, after n links. */
  ghost predicate Exits(s: Snapshot, p: int, n: nat) {
    exists x :: Climbs(s, p, x, n) && (x == 0 || x !in s.processes)
  }

  /** Parent chains of matched processes end soon enough for the walk to see all of them. */
  ghost predicate WellRooted(s: Snapshot, matched: set<int>) {
    && matched <= s.processes.Keys && 0 !in matched
    && (0 in s.processes ==> s.processes[0].ppid == 0)
    && forall p :: p in matched ==> exists n: nat :: n <= 1001 && Exits(s, p, n)
  }

  lemma {:induction false} ZeroStays(s: Snapshot, a: int, n: nat)
    requires 0 in s.processes ==> s.processes[0].ppid == 0
    requires Climbs(s, 0, a, n)
    ensures a == 0
    decreases n
  {
    if n > 0 { ZeroStays(s, a, n - 1); }
  }

  /** A chain that exits has no cycle except pid 0 being its own parent. */
  lemma {:induction false} ExitBreaksCycle(s: Snapshot, b: int, k: nat, x: int, j: nat)
    requires 0 in s.processes ==> s.processes[0].ppid == 0
    requires k > 0 && Climbs(s, b, b, k)
    requires Climbs(s, b, x, j) && (x == 0 || x !in s.processes)
    ensures b == 0
    decreases j
  {
    if j >= k {
      ClimbsSplit(s, b, b, x, k, j - k);
      ExitBreaksCycle(s, b, k, x, j - k);
    } else {
      ClimbsSplit(s, b, x, b, j, k - j);
      ZeroStays(s, b, k - j);
    }
  }

  /** Under WellRooted the bounded walk misses nothing. */
  lemma AncestorIsVisible(s: Snapshot, matched: set<int>, p: int, a: int, n: nat)
    requires WellRooted(s, matched) && p in matched && a in matched
    requires n > 0 && Climbs(s, p, a, n)
    ensures VisibleAncestor(s, matched, p)
  {
    var e: nat :| e <= WALK_LIMIT + 1 && Exits(s, p, e);
    var x :| Climbs(s, p, x, e) && (x == 0 || x !in s.processes);
    if n >= e {
      ClimbsSplit(s, p, x, a, e, n - e);
      if x == 0 { ZeroStays(s, a, n - e); }
      assert false;
    }
    forall m: nat, b | 1 <= m <= n && Climbs(s, p, b, m) ensures b != 0 {
      ClimbsSplit(s, p, b, a, m, n - m);
      if b == 0 { ZeroStays(s, a, n - m); }
    }
    forall l: nat, m: nat, b | l < m <= n && Climbs(s, p, b, l) ensures !Climbs(s, p, b, m) {
      if Climbs(s, p, b, m) {
        ClimbsSplit(s, p, b, b, l, m - l);
        ClimbsSplit(s, p, b, x, l, e - l);
        ExitBreaksCycle(s, b, m - l, x, e - l);
      }
    }
    assert CleanClimb(s, p, n);
  }

  lemma {:induction false} TopMatched(s: Snapshot, matched: set<int>, p: int, e: nat) returns (r: int)
    requires WellRooted(s, matched) && p in matched && Exits(s, p, e)
    ensures RootPid(s, matched, r) && p in Subtree(s, r)
    decreases e
  {
    if a, n: nat :| n > 0 && Climbs(s, p, a, n) && a in matched {
      var x :| Climbs(s, p, x, e) && (x == 0 || x !in s.processes);
      if n >= e {
        ClimbsSplit(s, p, x, a, e, n - e);
        if x == 0 { ZeroStays(s, a, n - e); }
        assert false;
      }
      ClimbsSplit(s, p, a, x, n, e - n);
      r := TopMatched(s, matched, a, e - n);
      var m: nat :| Climbs(s, a, r, m);
      ClimbsCompose(s, p, a, r, n, m);
    } else {
      r := p;
      assert Climbs(s, p, p, 0);
    }
  }

  /**
   * The trees of the discovered roots are pairwise disjoint, and every candidate
   * process lies in one of them, hence in exactly one.
   */
  lemma RootsPartition(s: Snapshot, patterns: seq<Pattern>, exclude: set<int>, roots: seq<Root>)
    requires AreRoots(s, patterns, exclude, roots)
    requires WellRooted(s, Candidates(s, patterns, exclude))
    ensures forall i, j :: 0 <= i < j < |roots| ==> Subtree(s, roots[i].pid) !! Subtree(s, roots[j].pid)
    ensures forall p :: p in Candidates(s, patterns, exclude) ==>
              exists r :: r in roots && p in Subtree(s, r.pid)
  {
    var matched := Candidates(s, patterns, exclude);
    forall i, j | 0 <= i < j < |roots|
      ensures Subtree(s, roots[i].pid) !! Subtree(s, roots[j].pid)
    {
      var a, b := roots[i].pid, roots[j].pid;
      assert roots[i] in roots && roots[j] in roots;
      forall x | x in Subtree(s, a) ensures x !in Subtree(s, b) {
        if x in Subtree(s, b) { RootsShareNothing(s, matched, a, b, x); }
      }
    }
    forall p | p in matched ensures exists r :: r in roots && p in Subtree(s, r.pid) {
      var e: nat :| e <= WALK_LIMIT + 1 && Exits(s, p, e);
      var top := TopMatched(s, matched, p, e);
      var r :| r in roots && r.pid == top;
    }
  }

  lemma RootsShareNothing(s: Snapshot, matched: set<int>, a: int, b: int, x: int)
    requires WellRooted(s, matched) && RootPid(s, matched, a) && RootPid(s, matched, b)
    requires x in Subtree(s, a) && x in Subtree(s, b)
    ensures a == b
  {
    var m: nat :| Climbs(s, x, a, m);
    var n: nat :| Climbs(s, x, b, n);
    if m < n {
      ClimbsSplit(s, x, a, b, m, n - m);
      AncestorIsVisible(s, matched, a, b, n - m);
    } else if n < m {
      ClimbsSplit(s, x, b, a, n, m - n);
      AncestorIsVisible(s, matched, b, a, m - n);
    } else {
      ClimbsUnique(s, x, a, b, m);
    }
  }

  // ------------------------------------------------ exactly when they divide it --

  /** The bounded walk up from p meets the matched process a. */
  ghost predicate Sees(s: Snapshot, matched: set<int>, p: int, a: int) {
    a in matched && exists n: nat :: SeesAt(s, p, a, n)
  }

  ghost predicate SeesAt(s: Snapshot, p: int, a: int, n: nat) {
    1 <= n <= 1000 && CleanClimb(s, p, n) && Climbs(s, p, a, n)
  }

  /** Matched processes each of which sees the next, back to the first. */
  ghost predicate Ring(s: Snapshot, matched: set<int>, ring: seq<int>) {
    && |ring| >= 2 && ring[0] == ring[|ring| - 1] && ring[0] in matched
    && forall i :: 0 <= i < |ring| - 1 ==> Sees(s, matched, ring[i], ring[i + 1])
  }

  ghost predicate CoveredBy(s: Snapshot, matched: set<int>, p: int, r: int) {
    RootPid(s, matched, r) && p in Subtree(s, r)
  }

  lemma SeesSomething(s: Snapshot, matched: set<int>, p: int) returns (a: int)
    requires VisibleAncestor(s, matched, p)
    ensures Sees(s, matched, p, a)
  {
    var n: nat, b :| 1 <= n <= WALK_LIMIT && CleanClimb(s, p, n) && Climbs(s, p, b, n) && b in matched;
    a := b;
    assert SeesAt(s, p, a, n);
  }

  lemma SeesIsVisible(s: Snapshot, matched: set<int>, p: int, a: int, n: nat)
    requires a in matched && SeesAt(s, p, a, n)
    ensures VisibleAncestor(s, matched, p)
  {
  }

  /** Following what each process sees, without a ring, ends at a root. */
  lemma {:induction false} WalkEndsAtRoot(s: Snapshot, matched: set<int>, path: seq<int>) returns (r: int)
    requires matched <= s.processes.Keys && path != []
    requires forall i :: 0 <= i < |path| ==> path[i] in matched
    requires forall i :: 0 <= i < |path| - 1 ==> Sees(s, matched, path[i], path[i + 1])
    requires forall ring :: !Ring(s, matched, ring)
    ensures CoveredBy(s, matched, path[|path| - 1], r)
    decreases matched - Elements(path)
  {
    var p := path[|path| - 1];
    if !VisibleAncestor(s, matched, p) {
      r := p;
      assert Climbs(s, p, p, 0);
      return;
    }
    var a := SeesSomething(s, matched, p);
    var more := path + [a];
    if k :| 0 <= k < |path| && path[k] == a {
      var ring := more[k..];
      forall i | 0 <= i < |ring| - 1 ensures Sees(s, matched, ring[i], ring[i + 1]) {
        assert ring[i] == more[k + i] && ring[i + 1] == more[k + i + 1];
      }
      assert Ring(s, matched, ring);
      assert false;
    }
    assert Elements(more) == Elements(path) + {a} && a !in Elements(path);
    r := WalkEndsAtRoot(s, matched, more);
    var n: nat :| SeesAt(s, p, a, n);
    var m: nat :| Climbs(s, a, r, m);
    ClimbsCompose(s, p, a, r, n, m);
  }

  ghost function Elements(path: seq<int>): set<int> { set p | p in path }

  /** A process met on the way to what p sees sees it too. */
  lemma SeesFromBetween(s: Snapshot, p: int, a: int, r: int, n: nat, t: nat)
    requires SeesAt(s, p, a, n) && t < n && Climbs(s, p, r, t)
    ensures SeesAt(s, r, a, n - t)
  {
    ClimbsSplit(s, p, r, a, t, n - t);
    forall m: nat, b | 1 <= m <= n - t && Climbs(s, r, b, m) ensures b != 0 {
      ClimbsCompose(s, p, r, b, t, m);
    }
    forall l: nat, m: nat, b | l < m <= n - t && Climbs(s, r, b, l) ensures !Climbs(s, r, b, m) {
      ClimbsCompose(s, p, r, b, t, l);
      if Climbs(s, r, b, m) { ClimbsCompose(s, p, r, b, t, m); }
    }
  }

  /** Nothing above a ring is a root: whatever t links lead to lies between two members. */
  lemma {:induction false} RingHasNoRoot(s: Snapshot, matched: set<int>, ring: seq<int>, i: nat, r: int, t: nat)
    requires Ring(s, matched, ring) && i < |ring| - 1 && Climbs(s, ring[i], r, t)
    ensures VisibleAncestor(s, matched, r)
    decreases t
  {
    var a := ring[i + 1];
    var n: nat :| SeesAt(s, ring[i], a, n);
    if t < n {
      SeesFromBetween(s, ring[i], a, r, n, t);
      SeesIsVisible(s, matched, r, a, n - t);
    } else {
      ClimbsSplit(s, ring[i], a, r, n, t - n);
      RingHasNoRoot(s, matched, ring, if i + 1 < |ring| - 1 then i + 1 else 0, r, t - n);
    }
  }

  lemma NoRingCovers(s: Snapshot, patterns: seq<Pattern>, exclude: set<int>, roots: seq<Root>, p: int)
    returns (r: Root)
    requires AreRoots(s, patterns, exclude, roots) && p in Candidates(s, patterns, exclude)
    requires forall ring :: !Ring(s, Candidates(s, patterns, exclude), ring)
    ensures r in roots && p in Subtree(s, r.pid)
  {
    var top := WalkEndsAtRoot(s, Candidates(s, patterns, exclude), [p]);
    r :| r in roots && r.pid == top;
  }

  lemma RingIsUncovered(s: Snapshot, patterns: seq<Pattern>, exclude: set<int>, roots: seq<Root>, ring: seq<int>)
    requires AreRoots(s, patterns, exclude, roots) && Ring(s, Candidates(s, patterns, exclude), ring)
    ensures forall r :: r in roots ==> ring[0] !in Subtree(s, r.pid)
  {
    forall r | r in roots ensures ring[0] !in Subtree(s, r.pid) {
      assert RootPid(s, Candidates(s, patterns, exclude), r.pid);
      if t: nat :| Climbs(s, ring[0], r.pid, t) {
        RingHasNoRoot(s, Candidates(s, patterns, exclude), ring, 0, r.pid, t);
      }
    }
  }

  /** Every candidate lies below some root exactly when no candidates see each other in a ring. */
  lemma CoverageExactly(s: Snapshot, patterns: seq<Pattern>, exclude: set<int>, roots: seq<Root>)
    requires AreRoots(s, patterns, exclude, roots)
    ensures (forall p :: p in Candidates(s, patterns, exclude) ==> exists r :: r in roots && p in Subtree(s, r.pid))
            <==> forall ring :: !Ring(s, Candidates(s, patterns, exclude), ring)
  {
    var matched := Candidates(s, patterns, exclude);
    if forall ring :: !Ring(s, matched, ring) {
      forall p | p in matched ensures exists r :: r in roots && p in Subtree(s, r.pid) {
        var r := NoRingCovers(s, patterns, exclude, roots, p);
      }
    } else {
      var ring :| Ring(s, matched, ring);
      RingIsUncovered(s, patterns, exclude, roots, ring);
      assert ring[0] in matched;
    }
  }

  lemma OneAboveTheOther(s: Snapshot, a: int, b: int, x: int)
    requires x in Subtree(s, a) && x in Subtree(s, b) && a in s.processes && b in s.processes
    ensures a in Subtree(s, b) || b in Subtree(s, a)
  {
    var m: nat :| Climbs(s, x, a, m);
    var n: nat :| Climbs(s, x, b, n);
    if m <= n { ClimbsSplit(s, x, a, b, m, n - m); } else { ClimbsSplit(s, x, b, a, n, m - n); }
  }

  /** Two candidates the walk sees no candidate from, one of them on the other's parent chain. */
  ghost predicate Nested(s: Snapshot, matched: set<int>, below: int, above: int) {
    && below != above && RootPid(s, matched, below) && RootPid(s, matched, above)
    && below in Subtree(s, above)
  }

  lemma NestedRootsMeet(s: Snapshot, patterns: seq<Pattern>, exclude: set<int>, roots: seq<Root>, a: int, b: int)
    requires AreRoots(s, patterns, exclude, roots) && Nested(s, Candidates(s, patterns, exclude), a, b)
    ensures exists i, j :: 0 <= i < j < |roots| && !(Subtree(s, roots[i].pid) !! Subtree(s, roots[j].pid))
  {
    var r :| r in roots && r.pid == a;
    var t :| t in roots && t.pid == b;
    assert Climbs(s, a, a, 0);
    CommonProcess(s, roots, r, t, a);
  }

  lemma CommonProcess(s: Snapshot, roots: seq<Root>, r: Root, t: Root, x: int)
    requires r in roots && t in roots && r != t && x in Subtree(s, r.pid) && x in Subtree(s, t.pid)
    ensures exists i, j :: 0 <= i < j < |roots| && !(Subtree(s, roots[i].pid) !! Subtree(s, roots[j].pid))
  {
    var i :| 0 <= i < |roots| && roots[i] == r;
    var j :| 0 <= j < |roots| && roots[j] == t;
    var lower, upper := if i < j then i else j, if i < j then j else i;
    assert x in Subtree(s, roots[lower].pid) && x in Subtree(s, roots[upper].pid);
    assert !(Subtree(s, roots[lower].pid) !! Subtree(s, roots[upper].pid));
  }

  /** And the trees are pairwise disjoint exactly when no two candidates are nested. */
  lemma DisjointExactly(s: Snapshot, patterns: seq<Pattern>, exclude: set<int>, roots: seq<Root>)
    requires AreRoots(s, patterns, exclude, roots)
    ensures (forall i, j :: 0 <= i < j < |roots| ==> Subtree(s, roots[i].pid) !! Subtree(s, roots[j].pid)) <==>
            (forall a, b :: !Nested(s, Candidates(s, patterns, exclude), a, b))
  {
    var matched := Candidates(s, patterns, exclude);
    if a, b :| Nested(s, matched, a, b) {
      NestedRootsMeet(s, patterns, exclude, roots, a, b);
    }
    if i, j :| 0 <= i < j < |roots| && !(Subtree(s, roots[i].pid) !! Subtree(s, roots[j].pid)) {
      var a, b := roots[i].pid, roots[j].pid;
      assert roots[i] in roots && roots[j] in roots;
      var x :| x in Subtree(s, a) && x in Subtree(s, b);
      OneAboveTheOther(s, a, b, x);
      assert Nested(s, matched, a, b) || Nested(s, matched, b, a);
    }
  }

  /** One of the first n links above pid leads to pid 0. */
  ghost predicate PassesZero(s: Snapshot, pid: int, n: nat) {
    exists m: nat :: 1 <= m <= n && Climbs(s, pid, 0, m)
  }

  /** Leaving out the loops of a climb leaves a clean one. */
  lemma {:induction false} WithoutLoops(s: Snapshot, p: int, a: int, n: nat) returns (k: nat)
    requires p != a && Climbs(s, p, a, n) && !PassesZero(s, p, n)
    ensures 1 <= k <= n && Climbs(s, p, a, k) && CleanClimb(s, p, k)
    decreases n
  {
    if CleanClimb(s, p, n) { return n; }
    var l: nat, m: nat, b :| l < m <= n && Climbs(s, p, b, l) && Climbs(s, p, b, m);
    ClimbsSplit(s, p, b, a, m, n - m);
    ClimbsCompose(s, p, b, a, l, n - m);
    k := WithoutLoops(s, p, a, l + n - m);
  }

  /** Nesting takes a chain of more than 1000 links or one that goes on past pid 0, however it is climbed. */
  lemma NestingIsFar(s: Snapshot, matched: set<int>, below: int, above: int, n: nat)
    requires Nested(s, matched, below, above) && Climbs(s, below, above, n)
    ensures n > 1000 || PassesZero(s, below, n)
  {
    if n <= WALK_LIMIT && !PassesZero(s, below, n) {
      var k := WithoutLoops(s, below, above, n);
      SeesIsVisible(s, matched, below, above, k);
    }
  }

  /** It happens: the parent of process 4 is a listed pid 0, whose parent is process 5. */
  lemma TreesMeet(four: RawProcess, zero: RawProcess, five: RawProcess, pattern: Pattern, roots: seq<Root>)
    requires four.ppid == 0 && zero.ppid == 5 && five.ppid == 1
    requires pattern.matches(four.command) && pattern.matches(five.command) && !pattern.matches(zero.command)
    requires AreRoots(Snapshot(map[4 := four, 0 := zero, 5 := five], map[]), [pattern], {}, roots)
    ensures var s := Snapshot(map[4 := four, 0 := zero, 5 := five], map[]);
            && Nested(s, Candidates(s, [pattern], {}), 4, 5)
            && exists i, j :: 0 <= i < j < |roots| && !(Subtree(s, roots[i].pid) !! Subtree(s, roots[j].pid))
  {
    var s := Snapshot(map[4 := four, 0 := zero, 5 := five], map[]);
    var c := Candidates(s, [pattern], {});
    assert [pattern][0].matches(four.command);
    assert c == {4, 5};
    BehindZero(s, c, 4);
    AtTheTop(s, c, 5);
    TwoLinks(s, 4, 0, 5);
    NestedRootsMeet(s, [pattern], {}, roots, 4, 5);
  }

  lemma BehindZero(s: Snapshot, matched: set<int>, x: int)
    requires x in s.processes && s.processes[x].ppid == 0
    ensures !VisibleAncestor(s, matched, x)
  {
    var one := 1;
    assert Climbs(s, 0, 0, 0);
    assert Climbs(s, x, 0, one);
  }

  lemma AtTheTop(s: Snapshot, matched: set<int>, x: int)
    requires x in s.processes && s.processes[x].ppid !in s.processes && s.processes[x].ppid !in matched
    ensures !VisibleAncestor(s, matched, x)
  {
    var one := 1;
    assert Climbs(s, s.processes[x].ppid, s.processes[x].ppid, 0);
    assert Climbs(s, x, s.processes[x].ppid, one);
    NoFurther(s, x, s.processes[x].ppid, one);
    forall a | Climbs(s, x, a, one) ensures a == s.processes[x].ppid {
      ClimbsUnique(s, x, a, s.processes[x].ppid, one);
    }
  }

  lemma TwoLinks(s: Snapshot, x: int, y: int, z: int)
    requires x in s.processes && s.processes[x].ppid == y && y in s.processes && s.processes[y].ppid == z
    ensures x in Subtree(s, z)
  {
    assert Climbs(s, z, z, 0);
    assert Climbs(s, y, z, 1);
    assert Climbs(s, x, z, 2);
  }

  /**
   * With the hook trees excluded, an auto tree can meet a hook tree only when the
   * hook root sits strictly below the auto root. This needs no shape of the table.
   */
  lemma AutoMeetsHookOnlyFromAbove(
      s: Snapshot, patterns: seq<Pattern>, exclude: set<int>, roots: seq<Root>, root: Root, hook: int, x: int)
    requires AreRoots(s, patterns, exclude, roots) && root in roots
    requires hook in s.processes && Subtree(s, hook) <= exclude
    requires x in Subtree(s, root.pid) && x in Subtree(s, hook)
    ensures hook in Subtree(s, root.pid) && hook != root.pid
  {
    var a := root.pid;
    assert a in Candidates(s, patterns, exclude);
    var m: nat :| Climbs(s, x, a, m);
    var n: nat :| Climbs(s, x, hook, n);
    if m <= n {
      ClimbsSplit(s, x, a, hook, m, n - m);
    } else {
      ClimbsSplit(s, x, hook, a, n, m - n);
      assert Climbs(s, a, a, 0);
    }
  }

  /** Without WellRooted coverage fails: two matched processes, each the other's parent, yield no root. */
  lemma CycleHasNoRoot(p: RawProcess, q: RawProcess, pattern: Pattern)
    requires p.pid == 2 && p.ppid == 3 && q.pid == 3 && q.ppid == 2
    requires pattern.matches(p.command) && pattern.matches(q.command)
    ensures var s := Snapshot(map[2 := p, 3 := q], map[]);
            && Candidates(s, [pattern], {}) == {2, 3}
            && AreRoots(s, [pattern], {}, [])
  {
    var s := Snapshot(map[2 := p, 3 := q], map[]);
    assert [pattern][0].matches(p.command);
    var c := Candidates(s, [pattern], {});
    assert c == {2, 3};
    OneLink(s, c, 2, 3);
    OneLink(s, c, 3, 2);
    NoRoots(s, [pattern], {});
  }

  lemma NoRoots(s: Snapshot, patterns: seq<Pattern>, exclude: set<int>)
    requires forall x :: x in Candidates(s, patterns, exclude) ==>
               VisibleAncestor(s, Candidates(s, patterns, exclude), x)
    ensures AreRoots(s, patterns, exclude, [])
  {
  }

  lemma OneLink(s: Snapshot, matched: set<int>, x: int, y: int)
    requires x in s.processes && s.processes[x].ppid == y && x != y && y != 0 && y in matched
    ensures VisibleAncestor(s, matched, x)
  {
    var one := 1;
    assert Climbs(s, y, y, 0);
    assert Climbs(s, x, y, one);
    forall b | Climbs(s, x, b, one) ensures b == y { ClimbsUnique(s, x, b, y, one); }
    assert CleanClimb(s, x, one);
  }
}
