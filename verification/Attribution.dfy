// The process rows of one tick: hook-tracked sessions with the trees below their root
// PIDs, and auto-discovered roots nobody announced (Tick and autoDiscoverLocked in
// internal/daemon/daemon.go).
module Attribution {
  import opened Base
  import opened ComposeResult
  import opened Discover
  import opened Lifecycle
  import opened Matching
  import opened Model
  import opened ProcScan
  import opened ProcessTree
  import opened Store
  import Paths

  /** findings.Evaluate: any function of the session, its tree and the time. */
  type Evaluator = (Session, seq<Process>, Time) -> seq<Finding>

  function RowFor(
      session: Session, tree: seq<Process>, rss: U64, peak: U64, scope: ResourceScope, attribution: Attribution,
      findings: seq<Finding>): SessionSnapshot
  {
    var procs := Flatten(tree);
    SessionSnapshot(session, tree, |procs|, SumCpu(procs), rss, peak, AllPorts(procs), findings, NO_USAGE, 0,
                    NO_METRICS, scope, attribution)
  }

  // -------------------------------------------------------------- hook rows --

  /** The row of a tracked session, as the tick leaves the session. */
  ghost predicate IsHookRow(r: Record, s: Snapshot, now: Time, evaluate: Evaluator, row: SessionSnapshot) {
    && AttributedTree(s, r.session.rootPID, row.processTree)
    && row == RowFor(r.session, row.processTree, AttributedRss(s, r.session.rootPID), r.peak, Owned, Confirmed,
                     evaluate(r.session, row.processTree, now))
  }

  /** rows holds one row for each session at the IDs given. */
  ghost predicate AreHookRows(
      t: Tracked, ids: set<string>, s: Snapshot, now: Time, evaluate: Evaluator, rows: Rows)
    requires ids <= t.Keys
  {
    && (forall i, j :: 0 <= i < j < |rows| ==> rows[i].session.id != rows[j].session.id)
    && (forall row :: row in rows ==>
          row.session.id in ids && IsHookRow(t[row.session.id], s, now, evaluate, row))
    && (forall id :: id in ids ==> exists row :: row in rows && row.session.id == id)
  }

  /** Every process a tracked session's tree covers. */
  ghost function CoveredPids(t: Tracked, ids: set<string>, s: Snapshot): set<int>
    requires ids <= t.Keys
  {
    set id, p | id in ids && p in AttributedPids(s, t[id].session.rootPID) :: p
  }

  // -------------------------------------------------------------- auto rows --

  function Digits(n: nat): string {
    if n < 10 then [('0' as int + n) as char] else Digits(n / 10) + [('0' as int + n % 10) as char]
  }

  function Decimal(n: int): string { if n < 0 then "-" + Digits(-n) else Digits(n) }

  function AutoID(pid: int): string { "auto-" + Decimal(pid) }

  lemma {:induction false} DigitsInjective(m: nat, n: nat)
    requires Digits(m) == Digits(n)
    ensures m == n
    decreases m
  {
    var a, b := Digits(m), Digits(n);
    assert a[|a| - 1] == b[|b| - 1];
    assert m % 10 == n % 10;
    if m >= 10 && n >= 10 {
      assert Digits(m / 10) == a[..|a| - 1] == b[..|b| - 1] == Digits(n / 10);
      DigitsInjective(m / 10, n / 10);
    } else {
      DigitsLength(m);
      DigitsLength(n);
    }
  }

  lemma {:induction false} DigitsLength(n: nat)
    ensures |Digits(n)| >= 1 && (n >= 10 ==> |Digits(n)| >= 2)
    ensures forall i :: 0 <= i < |Digits(n)| ==> Digits(n)[i] != '-'
    decreases n
  {
    if n >= 10 { DigitsLength(n / 10); }
  }

  /** The number that decimal digits write. */
  function NumberOf(digits: string): int {
    if digits == "" then 0
    else NumberOf(digits[..|digits| - 1]) * 10 + (digits[|digits| - 1] as int - '0' as int)
  }

  lemma {:induction false} DigitsRead(n: nat)
    ensures NumberOf(Digits(n)) == n && Digits(n) != "" && (n > 0 ==> Digits(n)[0] != '0')
    ensures forall i :: 0 <= i < |Digits(n)| ==> '0' <= Digits(n)[i] <= '9'
    decreases n
  {
    if n >= 10 {
      DigitsRead(n / 10);
      assert Digits(n)[..|Digits(n)| - 1] == Digits(n / 10);
    } else {
      assert Digits(n)[..0] == "";
    }
  }

  /** An auto ID is "auto-" and the pid in decimal digits, without leading zeros. */
  lemma AutoIDReads(pid: nat)
    ensures AutoID(pid)[..5] == "auto-" && NumberOf(AutoID(pid)[5..]) == pid
    ensures forall i :: 5 <= i < |AutoID(pid)| ==> '0' <= AutoID(pid)[i] <= '9'
    ensures |AutoID(pid)| > 5 && (pid > 0 ==> AutoID(pid)[5] != '0')
  {
    DigitsRead(pid);
    assert AutoID(pid)[5..] == Digits(pid);
  }

  lemma DecimalSign(n: int)
    ensures Decimal(n) != "" && (Decimal(n)[0] == '-' <==> n < 0)
  {
    if n >= 0 { DigitsLength(n); }
  }

  lemma AutoIDInjective(p: int, q: int)
    requires AutoID(p) == AutoID(q)
    ensures p == q
  {
    assert Decimal(p) == AutoID(p)[5..] == AutoID(q)[5..] == Decimal(q);
    var d := Decimal(p);
    DecimalSign(p);
    DecimalSign(q);
    if p < 0 && q < 0 {
      assert Digits(-p) == d[1..] == Digits(-q);
      DigitsInjective(-p, -q);
    } else if p >= 0 && q >= 0 {
      DigitsInjective(p, q);
    }
  }

  /** Only a bare CLI has a directory of its own worth showing. */
  predicate ShowsDirectory(agent: Agent, cwd: string) {
    (agent == AGENT_CLAUDE || agent == AGENT_CODEX) && cwd != "" && cwd != "/" && cwd != "."
  }

  function AutoSession(root: Root, firstSeen: Time): Session {
    var shown := ShowsDirectory(root.pattern.agent, root.process.cwd);
    Session(AutoID(root.pid), "", root.pattern.agent,
            if shown then Paths.Base(root.process.cwd) else root.pattern.title,
            if shown then root.process.cwd else "", root.pid, root.process.startedAt, firstSeen, None, Active, Auto,
            0, "", "")
  }

  ghost predicate IsAutoRow(root: Root, firstSeen: Time, s: Snapshot, now: Time, evaluate: Evaluator,
                            row: SessionSnapshot) {
    var session, scope := AutoSession(root, firstSeen), ScopeForAgent(root.pattern.agent);
    && AttributedTree(s, root.pid, row.processTree)
    && row == RowFor(session, row.processTree, AttributedRss(s, root.pid), AttributedRss(s, root.pid), scope,
                     if scope == Shared then SharedTree else Probable, evaluate(session, row.processTree, now))
  }

  function SeenSince(firstSeen: map<int, Time>, pid: int, now: Time): Time {
    if pid in firstSeen then firstSeen[pid] else now
  }

  ghost predicate AreAutoRows(
      roots: seq<Root>, firstSeen: map<int, Time>, s: Snapshot, now: Time, evaluate: Evaluator, rows: Rows) {
    && |rows| == |roots|
    && forall i :: 0 <= i < |roots| ==>
         IsAutoRow(roots[i], SeenSince(firstSeen, roots[i].pid, now), s, now, evaluate, rows[i])
  }

  ghost function RootPids(roots: seq<Root>): set<int> { set r | r in roots :: r.pid }

  /** The first-seen table once the roots of a tick are known. */
  ghost function SeenAfter(firstSeen: map<int, Time>, pids: set<int>, now: Time): map<int, Time> {
    map p | p in pids :: SeenSince(firstSeen, p, now)
  }

  datatype Sighting = Sighting(pids: set<int>, now: Time)

  ghost function SeenOver(ticks: seq<Sighting>): map<int, Time> {
    if ticks == [] then map[]
    else SeenAfter(SeenOver(ticks[..|ticks| - 1]), ticks[|ticks| - 1].pids, ticks[|ticks| - 1].now)
  }

  /** Over any run of ticks, a root's start is the first tick of its unbroken presence up to now. */
  lemma {:induction false} FirstSeenStartsStreak(ticks: seq<Sighting>, p: int) returns (k: nat)
    requires p in SeenOver(ticks)
    ensures k < |ticks| && SeenOver(ticks)[p] == ticks[k].now
    ensures forall i :: k <= i < |ticks| ==> p in ticks[i].pids
    ensures k > 0 ==> p !in ticks[k - 1].pids
    decreases |ticks|
  {
    var n := |ticks| - 1;
    var init := ticks[..n];
    if p in SeenOver(init) {
      k := FirstSeenStartsStreak(init, p);
      assert forall i :: k <= i < n ==> p in init[i].pids;
    } else {
      k := n;
      if n > 0 { assert init[n - 1] == ticks[n - 1]; }
    }
  }

  // ---------------------------------------------------- the rows of one tick --

  /** A tick's process rows: one per tracked session, then one per root nothing tracked covers. */
  datatype TickRows = TickRows(
    t: Tracked, s: Snapshot, now: Time, evaluate: Evaluator, patterns: seq<Pattern>, firstSeen: map<int, Time>,
    hooks: Rows, roots: seq<Root>, autos: Rows)

  ghost predicate AreTickRows(v: TickRows) {
    && AreHookRows(v.t, v.t.Keys, v.s, v.now, v.evaluate, v.hooks)
    && AreRoots(v.s, v.patterns, CoveredPids(v.t, v.t.Keys, v.s), v.roots)
    && AreAutoRows(v.roots, v.firstSeen, v.s, v.now, v.evaluate, v.autos)
  }

  /** Sessions are tracked under their own ID, and no agent name has a colon. */
  ghost predicate ColonFree(t: Tracked, patterns: seq<Pattern>) {
    && (forall id :: id in t ==> t[id].session.id == id && ':' !in t[id].session.agent)
    && (forall i :: 0 <= i < |patterns| ==> ':' !in patterns[i].agent)
  }

  /** A tracked session with the ID and the agent that an auto-discovered root is given. */
  ghost predicate Clash(v: TickRows, id: string, i: nat) {
    && id in v.t && i < |v.roots| && id == AutoID(v.roots[i].pid)
    && v.t[id].session.agent == v.roots[i].pattern.agent
  }

  /** What names the rows of a tick. */
  ghost predicate RowsNamed(v: TickRows) {
    && |v.autos| == |v.roots|
    && (forall i, j :: 0 <= i < j < |v.hooks| ==> v.hooks[i].session.id != v.hooks[j].session.id)
    && (forall i, j :: 0 <= i < j < |v.roots| ==> v.roots[i].pid != v.roots[j].pid)
    && (forall i :: 0 <= i < |v.hooks| ==>
          && v.hooks[i].session.id in v.t && ':' !in v.hooks[i].session.agent
          && v.hooks[i].session.agent == v.t[v.hooks[i].session.id].session.agent)
    && (forall i :: 0 <= i < |v.autos| ==>
          && v.autos[i].session.id == AutoID(v.roots[i].pid) && ':' !in v.autos[i].session.agent
          && v.autos[i].session.agent == v.roots[i].pattern.agent)
  }

  lemma TickRowsNamed(v: TickRows)
    requires AreTickRows(v) && ColonFree(v.t, v.patterns)
    ensures RowsNamed(v)
  {
  }

  /** Rows i and j of the tick have one key only as a clash. */
  lemma NamedApart(v: TickRows, i: nat, j: nat)
    requires RowsNamed(v) && i < j < |v.hooks + v.autos|
    requires KeyOf((v.hooks + v.autos)[i]) == KeyOf((v.hooks + v.autos)[j])
    ensures i < |v.hooks| <= j && Clash(v, v.hooks[i].session.id, j - |v.hooks|)
  {
    var h, a, b := |v.hooks|, (v.hooks + v.autos)[i], (v.hooks + v.autos)[j];
    SessionKeyInjective(a.session.agent, a.session.id, b.session.agent, b.session.id);
    if h <= i { AutoIDInjective(v.roots[i - h].pid, v.roots[j - h].pid); }
  }

  lemma HookIndex(v: TickRows, id: string) returns (h: nat)
    requires AreHookRows(v.t, v.t.Keys, v.s, v.now, v.evaluate, v.hooks) && id in v.t
    ensures h < |v.hooks| && v.hooks[h].session.id == id
  {
    var hook :| hook in v.hooks && hook.session.id == id;
    h :| 0 <= h < |v.hooks| && v.hooks[h] == hook;
  }

  lemma ClashShows(v: TickRows, h: nat, i: nat)
    requires RowsNamed(v) && h < |v.hooks| && Clash(v, v.hooks[h].session.id, i)
    ensures !KeysApart(v.hooks + v.autos)
  {
    var rows := v.hooks + v.autos;
    assert rows[h] == v.hooks[h] && rows[|v.hooks| + i] == v.autos[i];
  }

  /** So the rows handed to the composition have different keys exactly if there is no clash. */
  lemma TickRowsApart(v: TickRows)
    requires AreTickRows(v) && ColonFree(v.t, v.patterns)
    ensures KeysApart(v.hooks + v.autos) <==> forall id, i :: !Clash(v, id, i)
    ensures forall i :: 0 <= i < |v.hooks + v.autos| ==> ':' !in (v.hooks + v.autos)[i].session.agent
  {
    TickRowsNamed(v);
    var rows := v.hooks + v.autos;
    if id, i :| Clash(v, id, i) {
      var h := HookIndex(v, id);
      ClashShows(v, h, i);
    }
    if i, j :| 0 <= i < j < |rows| && KeyOf(rows[i]) == KeyOf(rows[j]) { NamedApart(v, i, j); }
  }

  ghost function ShownPids(row: SessionSnapshot): set<int> { set p | p in Pids(Flatten(row.processTree)) }

  /** The row's totals are those of the processes below root: memory on 64 bits, CPU, ports, and their number. */
  ghost predicate ShowsTotals(s: Snapshot, root: int, row: SessionSnapshot) {
    var pids := AttributedPids(s, root);
    && pids == (if root == 0 || root !in s.processes then {} else Subtree(s, root))
    && ShownPids(row) == pids && row.processCount == |pids|
    && row.memoryBytes == SumRss(s, pids) % 0x1_0000_0000_0000_0000 && row.cpuSeconds == SumCpuOf(s, pids)
    && (forall port :: port in row.listenPorts <==> Listens(s, pids, port))
    && row.usage == NO_USAGE && row.usageUpdatedAt == 0 && row.metrics == NO_METRICS
  }

  lemma RowTotals(
      s: Snapshot, root: int, session: Session, tree: seq<Process>, peak: U64, scope: ResourceScope,
      attribution: Attribution, findings: seq<Finding>)
    requires AttributedTree(s, root, tree)
    ensures ShowsTotals(s, root, RowFor(session, tree, AttributedRss(s, root), peak, scope, attribution, findings))
  {
    TreeAccounts(s, root, tree);
    TreeTotals(s, root, tree);
  }

  /**
   * The row of an auto root: its processes and totals, named and placed by the root's
   * process and pattern, seen since the time the first-seen table says.
   */
  lemma AutoRowShows(v: TickRows, i: nat)
    requires AreTickRows(v) && i < |v.autos|
    ensures v.roots[i].pid in v.s.processes && ShowsTotals(v.s, v.roots[i].pid, v.autos[i])
    ensures var root, row := v.roots[i], v.autos[i];
            var cli := (root.pattern.agent == "claude" || root.pattern.agent == "codex")
                       && root.process.cwd != "" && root.process.cwd != "/" && root.process.cwd != ".";
            var desktop := root.pattern.agent == "claude-desktop" || root.pattern.agent == "chatgpt"
                           || root.pattern.agent == "codex-desktop";
            && row.session.id == "auto-" + Decimal(root.pid) && row.session.agent == root.pattern.agent
            && row.session.rootPID == root.pid && row.session.processStartedAt == root.process.startedAt
            && row.session.startedAt == (if root.pid in v.firstSeen then v.firstSeen[root.pid] else v.now)
            && row.session.cwd == (if cli then root.process.cwd else "")
            && row.session.project == (if cli then Paths.Base(root.process.cwd) else root.pattern.title)
            && row.session.state == Active && row.session.source == Auto && row.session.endedAt == None
            && row.session.lastActivityAt == 0 && row.session.launchID == ""
            && row.peakMemoryBytes == row.memoryBytes
            && row.resourceScope == (if desktop then Shared else Owned)
            && row.attribution == (if desktop then SharedTree else Probable)
            && row.findings == v.evaluate(row.session, row.processTree, v.now)
  {
    var root := v.roots[i];
    assert root in v.roots;
    var session := AutoSession(root, SeenSince(v.firstSeen, root.pid, v.now));
    assert IsAutoRow(root, SeenSince(v.firstSeen, root.pid, v.now), v.s, v.now, v.evaluate, v.autos[i]);
    RowTotals(v.s, root.pid, session, v.autos[i].processTree, AttributedRss(v.s, root.pid), v.autos[i].resourceScope,
              v.autos[i].attribution, v.autos[i].findings);
  }

  /** The processes auto-discovery considers in this tick. */
  ghost function Uncovered(v: TickRows): set<int> { Candidates(v.s, v.patterns, CoveredPids(v.t, v.t.Keys, v.s)) }

  lemma AutoRowShowsSubtree(v: TickRows, i: nat)
    requires AreTickRows(v) && i < |v.autos| && 0 !in Uncovered(v)
    ensures ShownPids(v.autos[i]) == Subtree(v.s, v.roots[i].pid)
  {
    AutoRowShows(v, i);
    assert v.roots[i] in v.roots;
    assert RootPid(v.s, Uncovered(v), v.roots[i].pid);
  }

  /**
   * Where every matched process has a parent chain the walk can see to its end, the auto
   * rows show disjoint sets of processes, and each matched process no tracked session
   * covers is shown by exactly one of them.
   */
  lemma AutoRowsPartition(v: TickRows)
    requires AreTickRows(v) && WellRooted(v.s, Uncovered(v))
    ensures forall i, j :: 0 <= i < j < |v.autos| ==> ShownPids(v.autos[i]) !! ShownPids(v.autos[j])
    ensures forall p :: p in Uncovered(v) ==> exists i :: 0 <= i < |v.autos| && p in ShownPids(v.autos[i])
  {
    RootsPartition(v.s, v.patterns, CoveredPids(v.t, v.t.Keys, v.s), v.roots);
    forall i, j | 0 <= i < j < |v.autos| ensures ShownPids(v.autos[i]) !! ShownPids(v.autos[j]) {
      AutoRowShowsSubtree(v, i);
      AutoRowShowsSubtree(v, j);
    }
    forall p | p in Uncovered(v) ensures exists i :: 0 <= i < |v.autos| && p in ShownPids(v.autos[i]) {
      var i := RootIndex(v.s, v.roots, p);
      AutoRowShowsSubtree(v, i);
    }
  }

  lemma RootIndex(s: Snapshot, roots: seq<Root>, p: int) returns (i: nat)
    requires exists r :: r in roots && p in Subtree(s, r.pid)
    ensures i < |roots| && p in Subtree(s, roots[i].pid)
  {
    var r :| r in roots && p in Subtree(s, r.pid);
    i :| 0 <= i < |roots| && roots[i] == r;
  }

  /** The row of a tracked session: the session itself, its processes, totals and peak. */
  lemma HookRowShows(v: TickRows, hook: SessionSnapshot)
    requires AreTickRows(v) && hook in v.hooks && v.t[hook.session.id].session.id == hook.session.id
    ensures hook.session == v.t[hook.session.id].session && hook.peakMemoryBytes == v.t[hook.session.id].peak
    ensures ShowsTotals(v.s, hook.session.rootPID, hook)
    ensures hook.resourceScope == Owned && hook.attribution == Confirmed
    ensures hook.findings == v.evaluate(hook.session, hook.processTree, v.now)
  {
    var r := v.t[hook.session.id];
    assert IsHookRow(r, v.s, v.now, v.evaluate, hook);
    RowTotals(v.s, hook.session.rootPID, r.session, hook.processTree, r.peak, Owned, Confirmed, hook.findings);
  }

  /**
   * A process attributed both to a tracked session and to an auto-discovered root: the
   * tracked root sits strictly below the auto root. HookRowShows and AutoRowShows say
   * that the rows show just these processes.
   */
  lemma SharedProcessFromAbove(v: TickRows, id: string, i: nat, p: int)
    requires AreTickRows(v) && id in v.t && i < |v.roots|
    requires p in AttributedPids(v.s, v.t[id].session.rootPID) && p in AttributedPids(v.s, v.roots[i].pid)
    ensures v.t[id].session.rootPID in Subtree(v.s, v.roots[i].pid) && v.t[id].session.rootPID != v.roots[i].pid
  {
    assert v.roots[i] in v.roots;
    AutoMeetsHookOnlyFromAbove(v.s, v.patterns, CoveredPids(v.t, v.t.Keys, v.s), v.roots, v.roots[i],
                               v.t[id].session.rootPID, p);
  }

  // ------------------------------------------------------- no other freedom --

  ghost predicate SameScan(v: TickRows, w: TickRows) {
    && v.t == w.t && v.s == w.s && v.now == w.now && v.evaluate == w.evaluate && v.patterns == w.patterns
    && v.firstSeen == w.firstSeen
  }

  lemma HookRowIn(v: TickRows, w: TickRows, row: SessionSnapshot)
    requires AreTickRows(v) && AreTickRows(w) && SameScan(v, w) && row in v.hooks
    ensures row in w.hooks
  {
    var id := row.session.id;
    var other :| other in w.hooks && other.session.id == id;
    assert IsHookRow(v.t[id], v.s, v.now, v.evaluate, row) && IsHookRow(v.t[id], v.s, v.now, v.evaluate, other);
    AttributedTreeUnique(v.s, v.t[id].session.rootPID, row.processTree, other.processTree);
  }

  lemma RootIn(s: Snapshot, patterns: seq<Pattern>, exclude: set<int>, a: seq<Root>, b: seq<Root>, i: nat)
    returns (j: nat)
    requires AreRoots(s, patterns, exclude, a) && AreRoots(s, patterns, exclude, b) && i < |a|
    ensures j < |b| && b[j] == a[i]
  {
    assert a[i] in a;
    var r :| r in b && r.pid == a[i].pid;
    j :| 0 <= j < |b| && b[j] == r;
  }

  lemma AutoRowIn(v: TickRows, w: TickRows, i: nat)
    requires AreTickRows(v) && AreTickRows(w) && SameScan(v, w) && i < |v.autos|
    ensures v.autos[i] in w.autos
  {
    var j := RootIn(v.s, v.patterns, CoveredPids(v.t, v.t.Keys, v.s), v.roots, w.roots, i);
    var root, since := v.roots[i], SeenSince(v.firstSeen, v.roots[i].pid, v.now);
    assert IsAutoRow(root, since, v.s, v.now, v.evaluate, v.autos[i]);
    assert IsAutoRow(root, since, v.s, v.now, v.evaluate, w.autos[j]);
    AttributedTreeUnique(v.s, root.pid, v.autos[i].processTree, w.autos[j].processTree);
  }

  lemma AutoRowsNoDup(v: TickRows)
    requires AreTickRows(v)
    ensures NoDup(v.hooks) && NoDup(v.autos)
  {
  }

  /** One scan gives one collection of rows, whatever order its maps are visited in. */
  lemma TickRowsDetermined(v: TickRows, w: TickRows)
    requires AreTickRows(v) && AreTickRows(w) && SameScan(v, w)
    ensures multiset(v.hooks + v.autos) == multiset(w.hooks + w.autos)
  {
    AutoRowsNoDup(v);
    AutoRowsNoDup(w);
    forall row ensures row in v.hooks <==> row in w.hooks {
      if row in v.hooks { HookRowIn(v, w, row); }
      if row in w.hooks { HookRowIn(w, v, row); }
    }
    forall row ensures row in v.autos <==> row in w.autos {
      if i :| 0 <= i < |v.autos| && v.autos[i] == row { AutoRowIn(v, w, i); }
      if i :| 0 <= i < |w.autos| && w.autos[i] == row { AutoRowIn(w, v, i); }
    }
    NoDupSameMultiset(v.hooks, w.hooks);
    NoDupSameMultiset(v.autos, w.autos);
  }
}
