// The attributed process tree: depth-first construction with a visited set,
// pre-order flattening, and the resource totals taken over the flat list
// (buildTree in internal/daemon/daemon.go, Flatten and Evaluate in
// internal/findings/rules.go).
module ProcessTree {
  import opened Base
  import opened ProcScan

  datatype Process = Process(
    pid: int, ppid: int, command: string, startedAt: Time, rss: U64, cpu: real,
    cwd: string, ports: seq<int>, depth: nat, children: seq<Process>)

  // --------------------------------------------------------------- Flatten --

  function Preorder(p: Process): seq<Process>
    decreases p
  {
    [p] + Flatten(p.children)
  }

  function Flatten(tree: seq<Process>): seq<Process>
    decreases tree
  {
    if tree == [] then [] else Preorder(tree[0]) + Flatten(tree[1..])
  }

  lemma {:induction false} FlattenSnoc(tree: seq<Process>, p: Process)
    ensures Flatten(tree + [p]) == Flatten(tree) + Preorder(p)
    decreases |tree|
  {
    if tree == [] {
      assert Flatten([p]) == Preorder(p) + Flatten([]);
    } else {
      FlattenSnoc(tree[1..], p);
      assert (tree + [p])[1..] == tree[1..] + [p];
    }
  }

  /** The `walk` closure: appends one subtree to the list built so far. */
  method Walk(p: Process, out: seq<Process>) returns (out': seq<Process>)
    ensures out' == out + Preorder(p)
    decreases p
  {
    out' := out + [p];
    for i := 0 to |p.children|
      invariant out' == out + [p] + Flatten(p.children[..i])
    {
      out' := Walk(p.children[i], out');
      FlattenSnoc(p.children[..i], p.children[i]);
      assert p.children[..i] + [p.children[i]] == p.children[..i + 1];
    }
    assert p.children[..|p.children|] == p.children;
  }

  method FlattenTree(tree: seq<Process>) returns (out: seq<Process>)
    ensures out == Flatten(tree)
  {
    out := [];
    for i := 0 to |tree|
      invariant out == Flatten(tree[..i])
    {
      out := Walk(tree[i], out);
      FlattenSnoc(tree[..i], tree[i]);
      assert tree[..i] + [tree[i]] == tree[..i + 1];
    }
    assert tree[..|tree|] == tree;
  }

  function Pids(procs: seq<Process>): seq<int> {
    seq(|procs|, i requires 0 <= i < |procs| => procs[i].pid)
  }

  lemma PidsConcat(a: seq<Process>, b: seq<Process>)
    ensures Pids(a + b) == Pids(a) + Pids(b)
  {
  }

  // ---------------------------------------------------- what a tree must be --

  /** The node of a listed process, before its children are attached. */
  function NodeOf(s: Snapshot, pid: int, depth: nat): Process
    requires pid in s.processes
  {
    var rp := s.processes[pid];
    Process(pid, rp.ppid, rp.command, rp.startedAt, rp.rss, rp.cpu, "",
            if pid in s.listenPorts then s.listenPorts[pid] else [], depth, [])
  }

  /** kids are, in ascending order, all processes whose parent is pid, root aside. */
  ghost predicate KidsOf(s: Snapshot, root: int, pid: int, kids: seq<int>) {
    Ascending(kids) &&
    forall c :: c in kids <==> c in s.processes && s.processes[c].ppid == pid && c != root
  }

  /** t is the complete tree below t.pid: every child is present except root itself. */
  ghost predicate IsTree(s: Snapshot, root: int, t: Process)
    decreases t
  {
    && t.pid in s.processes
    && t.(children := []) == NodeOf(s, t.pid, t.depth)
    && KidsOf(s, root, t.pid, Pids(t.children))
    && forall c :: c in t.children ==> c.depth == t.depth + 1 && IsTree(s, root, c)
  }

  /** The snapshot leaves no freedom: map order and the visited set cannot show in the tree. */
  lemma {:induction false} TreeUnique(s: Snapshot, root: int, t: Process, u: Process)
    requires IsTree(s, root, t) && IsTree(s, root, u)
    requires t.pid == u.pid && t.depth == u.depth
    ensures t == u
    decreases t
  {
    var a, b := Pids(t.children), Pids(u.children);
    AscendingUnique(a, b);
    assert |t.children| == |a| == |b| == |u.children|;
    forall i | 0 <= i < |t.children| ensures t.children[i] == u.children[i] {
      assert t.children[i].pid == a[i] == b[i] == u.children[i].pid;
      TreeUnique(s, root, t.children[i], u.children[i]);
    }
    assert t == t.(children := []).(children := t.children);
    assert u == u.(children := []).(children := u.children);
  }

  // ------------------------------------------------------------- branches ---

  lemma BranchStep(s: Snapshot, root: int, p: int, x: int)
    requires p in s.processes
    ensures x in Branch(s, root, p) <==>
            x == p || exists c :: c in s.processes && s.processes[c].ppid == p && c != root && x in Branch(s, root, c)
  {
    if x == p {
      assert ClimbsWithin(s, root, x, p, 0);
    } else {
      if x in Branch(s, root, p) {
        var n: nat :| ClimbsWithin(s, root, x, p, n);
        var c := LastLink(s, root, x, p, n);
      }
      if c :| c in s.processes && s.processes[c].ppid == p && c != root && x in Branch(s, root, c) {
        var n: nat :| ClimbsWithin(s, root, x, c, n);
        assert ClimbsWithin(s, root, p, p, 0);
        assert ClimbsWithin(s, root, c, p, 1);
        WithinCompose(s, root, x, c, p, n, 1);
      }
    }
  }

  /** A climb of at least one link enters p from one of p's children. */
  lemma {:induction false} LastLink(s: Snapshot, root: int, x: int, p: int, n: nat) returns (c: int)
    requires ClimbsWithin(s, root, x, p, n) && n > 0
    ensures c in s.processes && s.processes[c].ppid == p && c != root && ClimbsWithin(s, root, x, c, n - 1)
    decreases n
  {
    if n == 1 {
      c := x;
    } else {
      c := LastLink(s, root, s.processes[x].ppid, p, n - 1);
    }
  }

  /** Distances to the root separate branches: two processes at one depth share no descendant. */
  lemma BranchesDisjoint(s: Snapshot, root: int, p: int, q: int, d: nat, e: nat, x: int)
    requires ClimbsWithin(s, root, p, root, d) && ClimbsWithin(s, root, q, root, e)
    requires x in Branch(s, root, p) && x in Branch(s, root, q)
    ensures d == e ==> p == q
  {
    var m: nat :| ClimbsWithin(s, root, x, p, m);
    var n: nat :| ClimbsWithin(s, root, x, q, n);
    WithinCompose(s, root, x, p, root, m, d);
    WithinCompose(s, root, x, q, root, n, e);
    WithinSameDistance(s, root, x, m + d, n + e);
    if d == e { WithinSameTarget(s, root, x, p, q, m); }
  }

  lemma BranchDeeper(s: Snapshot, root: int, p: int, q: int, d: nat, e: nat)
    requires ClimbsWithin(s, root, p, root, d) && ClimbsWithin(s, root, q, root, e)
    requires p in Branch(s, root, q)
    ensures e <= d
  {
    var m: nat :| ClimbsWithin(s, root, p, q, m);
    WithinCompose(s, root, p, q, root, m, e);
    WithinSameDistance(s, root, p, d, m + e);
  }

  // ------------------------------------------------------------ buildTree ---

  /** Ascending insertion, as sort.Ints leaves a list without duplicates. */
  function Insert(x: int, s: seq<int>): (r: seq<int>)
    requires Ascending(s) && x !in s
    ensures Ascending(r) && forall y :: y in r <==> y == x || y in s
  {
    if s == [] then [x]
    else if x < s[0] then [x] + s
    else
      assert s == [s[0]] + s[1..];
      var rest := Insert(x, s[1..]);
      assert forall i :: 0 <= i < |rest| ==> rest[i] in rest && s[0] < rest[i];
      [s[0]] + rest
  }

  function SortInts(s: seq<int>): (r: seq<int>)
    requires NoDup(s)
    ensures Ascending(r) && forall y :: y in r <==> y in s
  {
    if s == [] then []
    else
      assert s == [s[0]] + s[1..];
      Insert(s[0], SortInts(s[1..]))
  }

  /** The branches of the first i kids, root left out. */
  ghost function Visited(s: Snapshot, root: int, kids: seq<int>): set<int> {
    if kids == [] then {}
    else Visited(s, root, kids[..|kids| - 1]) +
         if kids[|kids| - 1] == root then {} else Branch(s, root, kids[|kids| - 1])
  }

  lemma {:induction false} VisitedMember(s: Snapshot, root: int, kids: seq<int>, x: int)
    ensures x in Visited(s, root, kids) <==> exists c :: c in kids && c != root && x in Branch(s, root, c)
    decreases |kids|
  {
    if kids != [] {
      var k := kids[|kids| - 1];
      VisitedMember(s, root, kids[..|kids| - 1], x);
      assert kids == kids[..|kids| - 1] + [k];
    }
  }

  lemma VisitedNext(s: Snapshot, root: int, kids: seq<int>, i: nat)
    requires i < |kids|
    ensures Visited(s, root, kids[..i + 1]) ==
            Visited(s, root, kids[..i]) + if kids[i] == root then {} else Branch(s, root, kids[i])
  {
    assert kids[..i + 1][..i] == kids[..i];
  }

  /** `build` may be called: pid is at its distance from root and nothing below it has been visited. */
  ghost predicate CanBuild(s: Snapshot, root: int, pid: int, depth: nat, visited: set<int>) {
    && pid in s.processes && ClimbsWithin(s, root, pid, root, depth)
    && Branch(s, root, pid) !! visited && visited <= s.processes.Keys
    && (pid != root ==> root in visited)
  }

  /** The `build` closure: visited comes in as it stands and goes out as it is left. */
  method Build(s: Snapshot, children: map<int, seq<int>>, root: int, pid: int, depth: nat, visited: set<int>)
    returns (mp: Process, visited': set<int>)
    requires ChildIndex(s, children)
    requires CanBuild(s, root, pid, depth, visited)
    ensures mp.pid == pid && mp.depth == depth && IsTree(s, root, mp)
    ensures visited' == visited + Branch(s, root, pid)
    decreases s.processes.Keys - visited
  {
    visited' := visited + {pid};
    var nodes: seq<Process> := [];
    var kids := SortInts(Kids(children, pid));
    KidsListed(s, children, pid, kids);
    NoneAttached(s, root, pid, depth, kids, visited);
    for i := 0 to |kids|
      invariant Attached(s, root, pid, depth, kids, i, visited, visited', nodes)
    {
      var c := kids[i];
      NextChild(s, root, pid, depth, kids, i, visited, visited', nodes);
      if c !in visited' {
        var child, seen := Build(s, children, root, c, depth + 1, visited');
        ChildAttached(s, root, pid, depth, kids, i, visited, visited', nodes, child);
        visited', nodes := seen, nodes + [child];
      } else {
        RootSkipped(s, root, pid, depth, kids, i, visited, visited', nodes);
      }
    }
    Completed(s, root, pid, depth, kids, visited, visited', nodes);
    mp := NodeOf(s, pid, depth).(children := nodes);
  }

  /** The first i kids have been visited, and nodes are their trees. */
  ghost predicate Attached(
      s: Snapshot, root: int, pid: int, depth: nat, kids: seq<int>, i: nat, before: set<int>, visited: set<int>,
      nodes: seq<Process>) {
    && i <= |kids| && visited == before + {pid} + Visited(s, root, kids[..i]) && visited <= s.processes.Keys
    && TreesOf(s, root, depth + 1, kids[..i], nodes)
  }

  lemma NoneAttached(s: Snapshot, root: int, pid: int, depth: nat, kids: seq<int>, before: set<int>)
    requires CanBuild(s, root, pid, depth, before)
    ensures Attached(s, root, pid, depth, kids, 0, before, before + {pid}, [])
  {
  }

  lemma NextChild(
      s: Snapshot, root: int, pid: int, depth: nat, kids: seq<int>, i: nat, before: set<int>, visited: set<int>,
      nodes: seq<Process>)
    requires CanBuild(s, root, pid, depth, before) && AllKids(s, pid, kids) && i < |kids|
    requires Attached(s, root, pid, depth, kids, i, before, visited, nodes)
    ensures kids[i] in visited <==> kids[i] == root
    ensures kids[i] != root ==> CanBuild(s, root, kids[i], depth + 1, visited)
    ensures s.processes.Keys - visited < s.processes.Keys - before
  {
    VisitedOnlyRoot(s, root, pid, depth, before, kids, i);
    BranchStep(s, root, pid, pid);
    assert pid in s.processes.Keys - before && pid !in s.processes.Keys - visited;
  }

  lemma ChildAttached(
      s: Snapshot, root: int, pid: int, depth: nat, kids: seq<int>, i: nat, before: set<int>, visited: set<int>,
      nodes: seq<Process>, child: Process)
    requires Attached(s, root, pid, depth, kids, i, before, visited, nodes) && Ascending(kids) && i < |kids|
    requires child.pid == kids[i] != root && child.depth == depth + 1 && IsTree(s, root, child)
    ensures Attached(s, root, pid, depth, kids, i + 1, before, visited + Branch(s, root, kids[i]), nodes + [child])
  {
    VisitedNext(s, root, kids, i);
    AppendTree(s, root, depth + 1, kids, i, nodes, child);
  }

  lemma RootSkipped(
      s: Snapshot, root: int, pid: int, depth: nat, kids: seq<int>, i: nat, before: set<int>, visited: set<int>,
      nodes: seq<Process>)
    requires Attached(s, root, pid, depth, kids, i, before, visited, nodes) && i < |kids| && kids[i] == root
    ensures Attached(s, root, pid, depth, kids, i + 1, before, visited, nodes)
  {
    VisitedNext(s, root, kids, i);
    SkipRoot(s, root, depth + 1, kids, i, nodes);
  }

  ghost predicate AllKids(s: Snapshot, pid: int, kids: seq<int>) {
    Ascending(kids) && forall c :: c in kids <==> c in s.processes && s.processes[c].ppid == pid
  }

  lemma KidsListed(s: Snapshot, children: map<int, seq<int>>, pid: int, kids: seq<int>)
    requires ChildIndex(s, children) && kids == SortInts(Kids(children, pid))
    ensures AllKids(s, pid, kids)
  {
  }

  /** nodes are the trees of the given kids, root left out. */
  ghost predicate TreesOf(s: Snapshot, root: int, depth: nat, kids: seq<int>, nodes: seq<Process>) {
    && Ascending(Pids(nodes))
    && (forall c :: c in Pids(nodes) <==> c in kids && c != root)
    && forall c :: c in nodes ==> c.depth == depth && IsTree(s, root, c)
  }

  lemma AppendTree(
      s: Snapshot, root: int, depth: nat, kids: seq<int>, i: nat, nodes: seq<Process>, child: Process)
    requires Ascending(kids) && i < |kids|
    requires TreesOf(s, root, depth, kids[..i], nodes)
    requires child.pid == kids[i] != root && child.depth == depth && IsTree(s, root, child)
    ensures TreesOf(s, root, depth, kids[..i + 1], nodes + [child])
  {
    PidsConcat(nodes, [child]);
    assert Pids([child]) == [kids[i]];
    assert kids[..i + 1] == kids[..i] + [kids[i]];
    forall k | 0 <= k < |nodes| ensures Pids(nodes)[k] < kids[i] {
      assert Pids(nodes)[k] in Pids(nodes);
    }
  }

  lemma SkipRoot(s: Snapshot, root: int, depth: nat, kids: seq<int>, i: nat, nodes: seq<Process>)
    requires i < |kids| && kids[i] == root
    requires TreesOf(s, root, depth, kids[..i], nodes)
    ensures TreesOf(s, root, depth, kids[..i + 1], nodes)
  {
  }

  lemma Completed(
      s: Snapshot, root: int, pid: int, depth: nat, kids: seq<int>, before: set<int>, visited: set<int>,
      nodes: seq<Process>)
    requires pid in s.processes && AllKids(s, pid, kids)
    requires Attached(s, root, pid, depth, kids, |kids|, before, visited, nodes)
    ensures IsTree(s, root, NodeOf(s, pid, depth).(children := nodes))
    ensures visited == before + Branch(s, root, pid)
  {
    assert kids[..|kids|] == kids;
    var mp := NodeOf(s, pid, depth).(children := nodes);
    assert mp.(children := []) == NodeOf(s, pid, depth);
    assert KidsOf(s, root, pid, Pids(nodes));
    forall x ensures x in {pid} + Visited(s, root, kids) <==> x in Branch(s, root, pid) {
      VisitedMember(s, root, kids, x);
      BranchStep(s, root, pid, x);
    }
    assert {pid} + Visited(s, root, kids) == Branch(s, root, pid);
  }

  /** The visited test skips a child only when the child is the root: only a cycle through root can be met. */
  lemma VisitedOnlyRoot(
      s: Snapshot, root: int, pid: int, depth: nat, visited: set<int>, kids: seq<int>, i: nat)
    requires pid in s.processes && ClimbsWithin(s, root, pid, root, depth)
    requires Branch(s, root, pid) !! visited
    requires pid != root ==> root in visited
    requires AllKids(s, pid, kids) && i < |kids|
    ensures kids[i] in visited + {pid} + Visited(s, root, kids[..i]) <==> kids[i] == root
    ensures kids[i] in s.processes
    ensures kids[i] != root ==>
              && ClimbsWithin(s, root, kids[i], root, depth + 1)
              && Branch(s, root, kids[i]) !! visited + {pid} + Visited(s, root, kids[..i])
  {
    var c := kids[i];
    assert c in kids;
    if c == root {
      assert c in visited + {pid};
    } else {
      assert ClimbsWithin(s, root, c, root, depth + 1);
      BranchStep(s, root, c, c);
      forall x | x in Branch(s, root, c) ensures x !in visited + {pid} + Visited(s, root, kids[..i]) {
        BranchStep(s, root, pid, x);
        if x == pid {
          BranchDeeper(s, root, pid, c, depth, depth + 1);
        }
        VisitedMember(s, root, kids[..i], x);
        if b :| b in kids[..i] && b != root && x in Branch(s, root, b) {
          assert b in kids;
          assert ClimbsWithin(s, root, b, root, depth + 1);
          BranchesDisjoint(s, root, b, c, depth + 1, depth + 1, x);
        }
      }
    }
  }

  method BuildTree(s: Snapshot, root: int) returns (tree: seq<Process>)
    ensures AttributedTree(s, root, tree)
  {
    if root == 0 { return []; }
    if root !in s.processes { return []; }
    var children := Children(s);
    assert ClimbsWithin(s, root, root, root, 0);
    var mp, _ := Build(s, children, root, root, 0, {});
    tree := [mp];
  }

  // ------------------------------------------- flattening meets descent -----

  /** In a tree, the branch of a node is the node and the branches of its children. */
  lemma TreeBranch(s: Snapshot, root: int, t: Process)
    requires IsTree(s, root, t) && ClimbsWithin(s, root, t.pid, root, t.depth)
    ensures forall c :: c in t.children ==>
              ClimbsWithin(s, root, c.pid, root, c.depth) && t.pid !in Branch(s, root, c.pid)
    ensures forall x :: x in Branch(s, root, t.pid) <==>
                        x == t.pid || exists c :: c in t.children && x in Branch(s, root, c.pid)
  {
    forall c | c in t.children
      ensures ClimbsWithin(s, root, c.pid, root, c.depth) && t.pid !in Branch(s, root, c.pid)
    {
      ChildClimbs(s, root, t, c);
    }
    forall x
      ensures x in Branch(s, root, t.pid) <==>
              x == t.pid || exists c :: c in t.children && x in Branch(s, root, c.pid)
    {
      BranchOfChildren(s, root, t, x);
    }
  }

  lemma ChildPid(t: Process, c: Process)
    requires c in t.children
    ensures c.pid in Pids(t.children)
  {
    var i :| 0 <= i < |t.children| && t.children[i] == c;
    assert Pids(t.children)[i] == c.pid;
  }

  lemma ChildWithPid(t: Process, k: int) returns (c: Process)
    requires k in Pids(t.children)
    ensures c in t.children && c.pid == k
  {
    var i :| 0 <= i < |t.children| && Pids(t.children)[i] == k;
    c := t.children[i];
  }

  lemma ChildClimbs(s: Snapshot, root: int, t: Process, c: Process)
    requires IsTree(s, root, t) && ClimbsWithin(s, root, t.pid, root, t.depth) && c in t.children
    ensures c.depth == t.depth + 1
    ensures ClimbsWithin(s, root, c.pid, root, c.depth) && t.pid !in Branch(s, root, c.pid)
  {
    ChildPid(t, c);
    if t.pid in Branch(s, root, c.pid) {
      BranchDeeper(s, root, t.pid, c.pid, t.depth, t.depth + 1);
    }
  }

  lemma BranchOfChildren(s: Snapshot, root: int, t: Process, x: int)
    requires IsTree(s, root, t)
    ensures x in Branch(s, root, t.pid) <==>
            x == t.pid || exists c :: c in t.children && x in Branch(s, root, c.pid)
  {
    BranchStep(s, root, t.pid, x);
    if k :| k in s.processes && s.processes[k].ppid == t.pid && k != root && x in Branch(s, root, k) {
      var c := ChildWithPid(t, k);
    }
    if c :| c in t.children && x in Branch(s, root, c.pid) { ChildPid(t, c); }
  }

  lemma {:induction false} PreorderIsBranch(s: Snapshot, root: int, t: Process)
    requires IsTree(s, root, t) && ClimbsWithin(s, root, t.pid, root, t.depth)
    ensures NoDup(Pids(Preorder(t)))
    ensures forall x :: x in Pids(Preorder(t)) <==> x in Branch(s, root, t.pid)
    decreases t
  {
    TreeBranch(s, root, t);
    FlattenIsBranches(s, root, t.depth + 1, t.children);
    PidsConcat([t], Flatten(t.children));
    assert Pids([t]) == [t.pid];
    NoDupConcat([t.pid], Pids(Flatten(t.children)));
  }

  lemma {:induction false} FlattenIsBranches(s: Snapshot, root: int, depth: nat, nodes: seq<Process>)
    requires Ascending(Pids(nodes))
    requires forall c :: c in nodes ==>
               c.depth == depth && IsTree(s, root, c) && ClimbsWithin(s, root, c.pid, root, depth)
    ensures NoDup(Pids(Flatten(nodes)))
    ensures forall x :: x in Pids(Flatten(nodes)) <==> exists c :: c in nodes && x in Branch(s, root, c.pid)
    decreases nodes
  {
    if nodes != [] {
      var c, rest := nodes[0], nodes[1..];
      assert nodes == [c] + rest;
      PidsConcat([c], rest);
      forall d | d in rest ensures c.pid < d.pid {
        var i :| 0 <= i < |rest| && rest[i] == d;
        assert Pids(nodes)[0] < Pids(nodes)[i + 1];
      }
      assert Ascending(Pids(rest)) by {
        assert forall i :: 0 <= i < |rest| ==> Pids(rest)[i] == Pids(nodes)[i + 1];
      }
      PreorderIsBranch(s, root, c);
      FlattenIsBranches(s, root, depth, rest);
      PidsConcat(Preorder(c), Flatten(rest));
      forall x | x in Pids(Preorder(c)) ensures x !in Pids(Flatten(rest)) {
        if x in Pids(Flatten(rest)) {
          var d :| d in rest && x in Branch(s, root, d.pid);
          BranchesDisjoint(s, root, c.pid, d.pid, depth, depth, x);
        }
      }
      NoDupConcat(Pids(Preorder(c)), Pids(Flatten(rest)));
    }
  }

  /** Flattening root's tree lists every process whose parent chain reaches root, once each. */
  lemma FlattenIsSubtree(s: Snapshot, root: int, tree: seq<Process>)
    requires |tree| == 1 && tree[0].pid == root && tree[0].depth == 0 && IsTree(s, root, tree[0])
    ensures NoDup(Pids(Flatten(tree)))
    ensures forall x :: x in Pids(Flatten(tree)) <==> x in Subtree(s, root)
  {
    assert tree[1..] == [] && Flatten(tree) == Preorder(tree[0]);
    PreorderIsBranch(s, root, tree[0]);
    SubtreeIsBranch(s, root);
  }

  // ------------------------------------------------------- resource totals --

  ghost function SumRss(s: Snapshot, pids: set<int>): nat
    requires pids <= s.processes.Keys
  {
    if pids == {} then 0
    else var p := AnyOf(pids); s.processes[p].rss + SumRss(s, pids - {p})
  }

  lemma {:induction false} SumRssRemove(s: Snapshot, pids: set<int>, q: int)
    requires pids <= s.processes.Keys && q in pids
    ensures SumRss(s, pids) == s.processes[q].rss + SumRss(s, pids - {q})
    decreases pids
  {
    var p := AnyOf(pids);
    if p != q {
      SumRssRemove(s, pids - {p}, q);
      SumRssRemove(s, pids - {q}, p);
      assert pids - {p} - {q} == pids - {q} - {p};
    }
  }

  function SumList(procs: seq<Process>): nat {
    if procs == [] then 0 else SumList(procs[..|procs| - 1]) + procs[|procs| - 1].rss
  }

  lemma {:induction false} SumListIsSumRss(s: Snapshot, procs: seq<Process>, pids: set<int>)
    requires pids <= s.processes.Keys
    requires NoDup(Pids(procs)) && forall x :: x in Pids(procs) <==> x in pids
    requires forall p :: p in procs ==> p.pid in s.processes && p.rss == s.processes[p.pid].rss
    ensures SumList(procs) == SumRss(s, pids)
    decreases |procs|
  {
    if procs == [] {
      assert pids == {} by {
        assert forall x :: x in pids ==> x in Pids(procs);
      }
    } else {
      PidsInit(procs, pids);
      var init, last := procs[..|procs| - 1], procs[|procs| - 1];
      SumListIsSumRss(s, init, pids - {last.pid});
      SumRssRemove(s, pids, last.pid);
    }
  }

  /** A node shows what the scan says of its own process. */
  ghost predicate FromScan(s: Snapshot, p: Process) {
    && p.pid in s.processes
    && p.ppid == s.processes[p.pid].ppid && p.command == s.processes[p.pid].command
    && p.startedAt == s.processes[p.pid].startedAt && p.rss == s.processes[p.pid].rss
    && p.cpu == s.processes[p.pid].cpu && p.cwd == ""
    && p.ports == if p.pid in s.listenPorts then s.listenPorts[p.pid] else []
  }

  lemma NodeShows(s: Snapshot, c: Process)
    requires c.pid in s.processes && c.(children := []) == NodeOf(s, c.pid, c.depth)
    ensures FromScan(s, c)
  {
    var n := NodeOf(s, c.pid, c.depth);
    assert c.(children := []).rss == n.rss && c.(children := []).cpu == n.cpu && c.(children := []).ports == n.ports;
  }

  /** Every node of a tree does. */
  lemma {:induction false} TreeFields(s: Snapshot, root: int, nodes: seq<Process>, p: Process)
    requires forall c :: c in nodes ==> IsTree(s, root, c)
    requires p in Flatten(nodes)
    ensures FromScan(s, p)
    decreases nodes
  {
    var c, rest := nodes[0], nodes[1..];
    assert c in nodes && nodes == [c] + rest;
    if p in Flatten(rest) {
      TreeFields(s, root, rest, p);
    } else if p != c {
      TreeFields(s, root, c.children, p);
    } else {
      NodeShows(s, c);
    }
  }

  /** CPU shares add up as reals. */
  function SumCpu(procs: seq<Process>): real {
    if procs == [] then 0.0 else SumCpu(procs[..|procs| - 1]) + procs[|procs| - 1].cpu
  }

  function AllPorts(procs: seq<Process>): seq<int> {
    if procs == [] then [] else AllPorts(procs[..|procs| - 1]) + procs[|procs| - 1].ports
  }

  /** The running totals over a flat list, memory on 64-bit counters. */
  method Totals(procs: seq<Process>) returns (rss: U64, cpu: real, ports: seq<int>)
    ensures rss == Wrap(SumList(procs)) && cpu == SumCpu(procs) && ports == AllPorts(procs)
  {
    rss, cpu, ports := 0, 0.0, [];
    for i := 0 to |procs|
      invariant rss == Wrap(SumList(procs[..i])) && cpu == SumCpu(procs[..i]) && ports == AllPorts(procs[..i])
    {
      assert procs[..i + 1][..i] == procs[..i];
      rss := Add64(rss, procs[i].rss);
      WrapAdd(SumList(procs[..i]), procs[i].rss);
      cpu := cpu + procs[i].cpu;
      ports := ports + procs[i].ports;
    }
    assert procs[..|procs|] == procs;
  }

  /** The memory a tick attributes to a session rooted at root. */
  ghost function AttributedRss(s: Snapshot, root: int): U64 {
    if root == 0 || root !in s.processes then 0 else Wrap(SumRss(s, Subtree(s, root)))
  }

  /** The processes a tick attributes to it. */
  ghost function AttributedPids(s: Snapshot, root: int): set<int> {
    if root == 0 || root !in s.processes then {} else Subtree(s, root)
  }

  /** tree is what buildTree returns for root; by TreeUnique there is one such tree. */
  ghost predicate AttributedTree(s: Snapshot, root: int, tree: seq<Process>) {
    if root == 0 || root !in s.processes then tree == []
    else |tree| == 1 && tree[0].pid == root && tree[0].depth == 0 && IsTree(s, root, tree[0])
  }

  // -------------------------------------- totals over the set of processes --

  ghost function SumCpuOf(s: Snapshot, pids: set<int>): real
    requires pids <= s.processes.Keys
  {
    if pids == {} then 0.0
    else var p := AnyOf(pids); s.processes[p].cpu + SumCpuOf(s, pids - {p})
  }

  lemma {:induction false} SumCpuRemove(s: Snapshot, pids: set<int>, q: int)
    requires pids <= s.processes.Keys && q in pids
    ensures SumCpuOf(s, pids) == s.processes[q].cpu + SumCpuOf(s, pids - {q})
    decreases pids
  {
    var p := AnyOf(pids);
    if p != q {
      SumCpuRemove(s, pids - {p}, q);
      SumCpuRemove(s, pids - {q}, p);
      assert pids - {p} - {q} == pids - {q} - {p};
    }
  }

  /** The pids of a flat list without its last entry. */
  lemma PidsInit(procs: seq<Process>, pids: set<int>)
    requires procs != [] && NoDup(Pids(procs)) && forall x :: x in Pids(procs) <==> x in pids
    ensures var init, last := procs[..|procs| - 1], procs[|procs| - 1];
            && last.pid in pids && NoDup(Pids(init))
            && (forall x :: x in Pids(init) <==> x in pids - {last.pid})
            && (forall p :: p in init ==> p in procs) && last in procs
  {
    var n := |procs| - 1;
    var init, last := procs[..n], procs[n];
    assert procs == init + [last];
    PidsConcat(init, [last]);
    assert Pids(procs) == Pids(init) + [last.pid] && Pids(procs)[n] == last.pid;
    forall i | 0 <= i < n ensures Pids(init)[i] != last.pid {
      assert Pids(procs)[i] != Pids(procs)[n];
    }
    forall i, j | 0 <= i < j < n ensures Pids(init)[i] != Pids(init)[j] {
      assert Pids(procs)[i] != Pids(procs)[j];
    }
  }

  lemma {:induction false} SumCpuIsOf(s: Snapshot, procs: seq<Process>, pids: set<int>)
    requires pids <= s.processes.Keys
    requires NoDup(Pids(procs)) && forall x :: x in Pids(procs) <==> x in pids
    requires forall p :: p in procs ==> FromScan(s, p)
    ensures SumCpu(procs) == SumCpuOf(s, pids)
    ensures |procs| == |pids|
    decreases |procs|
  {
    if procs == [] {
      assert pids == {} by {
        assert forall x :: x in pids ==> x in Pids(procs);
      }
    } else {
      PidsInit(procs, pids);
      var init, last := procs[..|procs| - 1], procs[|procs| - 1];
      SumCpuIsOf(s, init, pids - {last.pid});
      SumCpuRemove(s, pids, last.pid);
    }
  }

  lemma {:induction false} PortsIn(procs: seq<Process>, port: int)
    ensures port in AllPorts(procs) <==> exists p :: p in procs && port in p.ports
    decreases |procs|
  {
    if procs != [] {
      var init, last := procs[..|procs| - 1], procs[|procs| - 1];
      assert procs == init + [last];
      PortsIn(init, port);
      assert last in procs;
    }
  }

  /** Ports are listed in the order of the processes, each with all of its own. */
  lemma {:induction false} PortsConcat(a: seq<Process>, b: seq<Process>)
    ensures AllPorts(a + b) == AllPorts(a) + AllPorts(b)
    ensures |b| == 1 ==> AllPorts(b) == b[0].ports
    decreases |b|
  {
    if b == [] {
      assert a + b == a;
    } else {
      PortsConcat(a, b[..|b| - 1]);
      assert (a + b)[..|a + b| - 1] == a + b[..|b| - 1];
    }
  }

  /** One of the processes listens on the port. */
  ghost predicate Listens(s: Snapshot, pids: set<int>, port: int) {
    exists p :: p in pids && p in s.listenPorts && port in s.listenPorts[p]
  }

  lemma ListPorts(s: Snapshot, procs: seq<Process>, pids: set<int>, port: int)
    requires forall x :: x in Pids(procs) <==> x in pids
    requires forall p :: p in procs ==> FromScan(s, p)
    ensures port in AllPorts(procs) <==> Listens(s, pids, port)
  {
    PortsIn(procs, port);
    if p :| p in procs && port in p.ports {
      var i :| 0 <= i < |procs| && procs[i] == p;
      assert Pids(procs)[i] == p.pid;
    }
    if x :| x in pids && x in s.listenPorts && port in s.listenPorts[x] {
      var i :| 0 <= i < |procs| && Pids(procs)[i] == x;
      assert procs[i] in procs && procs[i].pid == x;
    }
  }

  /** CPU and ports of the flat list are those of the attributed processes; ports may be listed more than once. */
  lemma TreeTotals(s: Snapshot, root: int, tree: seq<Process>)
    requires AttributedTree(s, root, tree)
    ensures |Flatten(tree)| == |AttributedPids(s, root)|
    ensures SumCpu(Flatten(tree)) == SumCpuOf(s, AttributedPids(s, root))
    ensures forall port :: port in AllPorts(Flatten(tree)) <==> Listens(s, AttributedPids(s, root), port)
    ensures forall p :: p in Flatten(tree) ==> FromScan(s, p)
  {
    TreeAccounts(s, root, tree);
    if tree != [] {
      forall p | p in Flatten(tree) ensures FromScan(s, p) { TreeFields(s, root, tree, p); }
    }
    SumCpuIsOf(s, Flatten(tree), AttributedPids(s, root));
    forall port ensures port in AllPorts(Flatten(tree)) <==> Listens(s, AttributedPids(s, root), port) {
      ListPorts(s, Flatten(tree), AttributedPids(s, root), port);
    }
  }

  /** Its flat list names each attributed process once, and sums to the attributed memory. */
  lemma TreeAccounts(s: Snapshot, root: int, tree: seq<Process>)
    requires AttributedTree(s, root, tree)
    ensures NoDup(Pids(Flatten(tree)))
    ensures forall x :: x in Pids(Flatten(tree)) <==> x in AttributedPids(s, root)
    ensures Wrap(SumList(Flatten(tree))) == AttributedRss(s, root)
  {
    if root != 0 && root in s.processes {
      FlattenIsSubtree(s, root, tree);
      forall p | p in Flatten(tree) ensures p.pid in s.processes && p.rss == s.processes[p.pid].rss {
        TreeFields(s, root, tree, p);
      }
      SumListIsSumRss(s, Flatten(tree), Subtree(s, root));
    }
  }

  lemma AttributedTreeUnique(s: Snapshot, root: int, t: seq<Process>, u: seq<Process>)
    requires AttributedTree(s, root, t) && AttributedTree(s, root, u)
    ensures t == u
  {
    if t != [] && u != [] {
      TreeUnique(s, root, t[0], u[0]);
      assert t == [t[0]] && u == [u[0]];
    }
  }

  /** buildTree, Flatten and the totals, as Tick and auto-discovery chain them. */
  method Attribute(s: Snapshot, root: int)
    returns (tree: seq<Process>, procs: seq<Process>, rss: U64, cpu: real, ports: seq<int>)
    ensures AttributedTree(s, root, tree) && procs == Flatten(tree)
    ensures rss == AttributedRss(s, root) && cpu == SumCpu(procs) && ports == AllPorts(procs)
    ensures forall x :: x in Pids(procs) <==> x in AttributedPids(s, root)
    ensures cpu == SumCpuOf(s, AttributedPids(s, root))
    ensures forall port :: port in ports <==> Listens(s, AttributedPids(s, root), port)
  {
    tree := BuildTree(s, root);
    procs := FlattenTree(tree);
    rss, cpu, ports := Totals(procs);
    TreeAccounts(s, root, tree);
    TreeTotals(s, root, tree);
  }

  /** The memory finding of Evaluate flattens and sums again; it speaks of the memory the row shows. */
  method MemoryFinding(tree: seq<Process>, threshold: U64) returns (raised: bool)
    ensures forall s, root :: AttributedTree(s, root, tree) ==> (raised <==> AttributedRss(s, root) > threshold)
  {
    var procs := FlattenTree(tree);
    var totalRSS, _, _ := Totals(procs);
    raised := totalRSS > threshold;
    forall s, root | AttributedTree(s, root, tree) ensures totalRSS == AttributedRss(s, root) {
      TreeAccounts(s, root, tree);
    }
  }
}
