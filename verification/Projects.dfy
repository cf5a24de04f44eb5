// Deduplicating transcript sources and adding them up by project
// (DeduplicateSources and aggregateProjects in internal/usage/collector.go).
module Projects {
  import opened Base
  import opened Folds
  import opened Model
  import opened Sorting
  import Paths

  // --------------------------------------------------------- deduplication ---

  function DedupKey(s: UsageSource): string {
    if s.sessionID == "" then s.path else SessionKey(s.agent, s.sessionID)
  }

  /** sources[i] is the copy to keep for its key: the first among those modified last. */
  ghost predicate IsKept(sources: seq<UsageSource>, i: nat) {
    i < |sources| &&
    forall j :: 0 <= j < |sources| && DedupKey(sources[j]) == DedupKey(sources[i]) ==>
      sources[j].modifiedUnixNano <= sources[i].modifiedUnixNano &&
      (j < i ==> sources[j].modifiedUnixNano < sources[i].modifiedUnixNano)
  }

  ghost predicate Keeps(sources: seq<UsageSource>, key: string, s: UsageSource) {
    exists i: nat :: IsKept(sources, i) && DedupKey(sources[i]) == key && sources[i] == s
  }

  /** dedup holds, under each key that occurs, the copy to keep. */
  ghost predicate IsDedup(sources: seq<UsageSource>, dedup: map<string, UsageSource>) {
    && (forall s :: s in sources ==> DedupKey(s) in dedup)
    && forall key :: key in dedup ==> Keeps(sources, key, dedup[key])
  }

  lemma IsDedupUnique(sources: seq<UsageSource>, a: map<string, UsageSource>, b: map<string, UsageSource>)
    requires IsDedup(sources, a) && IsDedup(sources, b)
    ensures a == b
  {
  }

  /** One source against the copy kept so far. */
  function KeepNewer(dedup: map<string, UsageSource>, s: UsageSource): map<string, UsageSource> {
    var key := DedupKey(s);
    if key !in dedup || s.modifiedUnixNano > dedup[key].modifiedUnixNano then dedup[key := s] else dedup
  }

  function Dedup(sources: seq<UsageSource>): map<string, UsageSource> {
    if sources == [] then map[] else KeepNewer(Dedup(sources[..|sources| - 1]), sources[|sources| - 1])
  }

  method DeduplicateSources(sources: seq<UsageSource>) returns (dedup: map<string, UsageSource>)
    ensures dedup == Dedup(sources)
  {
    dedup := map[];
    for i := 0 to |sources|
      invariant dedup == Dedup(sources[..i])
    {
      var source := sources[i];
      var key := DedupKey(source);
      if key !in dedup || source.modifiedUnixNano > dedup[key].modifiedUnixNano {
        dedup := dedup[key := source];
      }
      assert sources[..i + 1][..i] == sources[..i];
    }
    assert sources[..|sources|] == sources;
  }

  lemma {:induction false} DedupKeepsNewest(sources: seq<UsageSource>)
    ensures IsDedup(sources, Dedup(sources))
    decreases |sources|
  {
    if sources != [] {
      var init, s := sources[..|sources| - 1], sources[|sources| - 1];
      assert init + [s] == sources;
      DedupKeepsNewest(init);
      OneMoreSource(init, Dedup(init), s, Dedup(sources));
    }
  }

  lemma OneMoreSource(
      sources: seq<UsageSource>, before: map<string, UsageSource>, s: UsageSource, after: map<string, UsageSource>)
    requires IsDedup(sources, before)
    requires after == KeepNewer(before, s)
    ensures IsDedup(sources + [s], after)
  {
    var more := sources + [s];
    var n := |sources|;
    var key := DedupKey(s);
    forall k | k in after ensures Keeps(more, k, after[k]) {
      if k != key || (key in before && s.modifiedUnixNano <= before[key].modifiedUnixNano) {
        var i: nat :| IsKept(sources, i) && DedupKey(sources[i]) == k && sources[i] == before[k];
        assert more[i] == sources[i];
        assert IsKept(more, i);
      } else {
        assert more[n] == s;
        forall j | 0 <= j < n && DedupKey(more[j]) == key
          ensures more[j].modifiedUnixNano < s.modifiedUnixNano
        {
          assert more[j] == sources[j] && sources[j] in sources;
          var i: nat :| IsKept(sources, i) && DedupKey(sources[i]) == key && sources[i] == before[key];
        }
        assert IsKept(more, n);
      }
    }
    forall x | x in more ensures DedupKey(x) in after {
      assert x == s || x in sources;
    }
  }

  // ------------------------------------------------------------ aggregation --

  datatype ProjectUsage = ProjectUsage(
    project: string, cwd: string, usage: TokenUsage, sessions: nat, updatedAt: Time)

  function UsageOf(s: UsageSource): TokenUsage { s.usage }
  function CwdOf(p: ProjectUsage): string { p.cwd }

  /** The deduplicated sources that belong to one directory. */
  ghost function KeysAt(dedup: map<string, UsageSource>, keys: set<string>, cwd: string): set<string> {
    set k | k in keys && k in dedup && dedup[k].cwd == cwd
  }

  function Later(a: Time, b: Time): Time { if b > a then b else a }

  /** The latest modification among the sources at the given keys. */
  ghost function LatestAt(dedup: map<string, UsageSource>, at: set<string>): Time
    requires at <= dedup.Keys
  {
    if at == {} then 0
    else var k := AnyOf(at); Later(LatestAt(dedup, at - {k}), UnixTime(dedup[k].modifiedUnixNano))
  }

  lemma {:induction false} LatestRemove(dedup: map<string, UsageSource>, at: set<string>, k: string)
    requires at <= dedup.Keys && k in at
    ensures LatestAt(dedup, at) == Later(LatestAt(dedup, at - {k}), UnixTime(dedup[k].modifiedUnixNano))
    decreases at
  {
    var p := AnyOf(at);
    if p != k {
      LatestRemove(dedup, at - {p}, k);
      LatestRemove(dedup, at - {k}, p);
      assert at - {p} - {k} == at - {k} - {p};
    }
  }

  /** It is one of them, and none is later. */
  lemma {:induction false} LatestIsMaximum(dedup: map<string, UsageSource>, at: set<string>)
    requires at <= dedup.Keys
    requires forall k :: k in at ==> dedup[k].modifiedUnixNano >= MIN_DURATION
    ensures forall k :: k in at ==> UnixTime(dedup[k].modifiedUnixNano) <= LatestAt(dedup, at)
    ensures at != {} ==> exists k :: k in at && UnixTime(dedup[k].modifiedUnixNano) == LatestAt(dedup, at)
    decreases at
  {
    if at != {} {
      var p := AnyOf(at);
      LatestIsMaximum(dedup, at - {p});
      if at - {p} == {} {
        assert UnixTime(dedup[p].modifiedUnixNano) > 0;
      }
    }
  }

  ghost predicate NamedByDirectory(dedup: map<string, UsageSource>) {
    forall k :: k in dedup ==> dedup[k].project == Paths.ProjectName(dedup[k].cwd)
  }

  /** p is the exact account of the sources at the given keys. */
  ghost predicate Accounts(dedup: map<string, UsageSource>, at: set<string>, p: ProjectUsage)
    requires at <= dedup.Keys
  {
    && p.usage == SumKeys(dedup, UsageOf, at)
    && p.sessions == |at| > 0
    && p.updatedAt == LatestAt(dedup, at)
    && (NamedByDirectory(dedup) ==> p.project == Paths.ProjectName(p.cwd))
  }

  ghost predicate Grouped(
      dedup: map<string, UsageSource>, keys: set<string>, byCwd: map<string, ProjectUsage>) {
    && (forall k :: k in keys && k in dedup ==> dedup[k].cwd in byCwd)
    && forall c :: c in byCwd ==> RowOf(dedup, keys, c, byCwd[c])
  }

  ghost predicate RowOf(dedup: map<string, UsageSource>, keys: set<string>, c: string, p: ProjectUsage) {
    p.cwd == c && Accounts(dedup, KeysAt(dedup, keys, c), p)
  }

  /** A source added to its project's row, or to a row started for it. */
  function Book(row: Option<ProjectUsage>, source: UsageSource): ProjectUsage {
    var p := if row.Some? then row.value else ProjectUsage(source.project, source.cwd, NO_USAGE, 0, 0);
    ProjectUsage(p.project, p.cwd, AddUsage(p.usage, source.usage), p.sessions + 1,
                 Later(p.updatedAt, UnixTime(source.modifiedUnixNano)))
  }

  lemma BookFirst(dedup: map<string, UsageSource>, key: string)
    requires key in dedup
    ensures Accounts(dedup, {key}, Book(None, dedup[key]))
  {
  }

  lemma BookNext(dedup: map<string, UsageSource>, at: set<string>, key: string, p: ProjectUsage)
    requires at <= dedup.Keys && key in dedup && key !in at && Accounts(dedup, at, p)
    ensures Accounts(dedup, at + {key}, Book(Some(p), dedup[key]))
  {
    SumKeysAdd(dedup, UsageOf, at, key);
    LatestRemove(dedup, at + {key}, key);
    assert at + {key} - {key} == at;
  }

  predicate ProjectLess(a: ProjectUsage, b: ProjectUsage) {
    if a.usage.total == b.usage.total then TextLess(a.project, b.project) else a.usage.total > b.usage.total
  }

  lemma ProjectOrder()
    ensures WeakOrder(ProjectLess)
  {
    forall a, b | ProjectLess(a, b) ensures !ProjectLess(b, a) {
      TextLessTotal(a.project, b.project);
    }
    forall a, b, c | !ProjectLess(b, a) && !ProjectLess(c, b) ensures !ProjectLess(c, a) {
      TextLessTransitive(a.project, b.project, c.project);
    }
  }

  /** out accounts for every directory exactly once. */
  ghost predicate IsAggregation(dedup: map<string, UsageSource>, out: seq<ProjectUsage>) {
    && NoDup(Map(CwdOf, out))
    && (forall p :: p in out ==> Accounts(dedup, KeysAt(dedup, dedup.Keys, p.cwd), p))
    && (forall k :: k in dedup ==> dedup[k].cwd in Map(CwdOf, out))
  }

  method AggregateProjects(sources: seq<UsageSource>)
    returns (out: seq<ProjectUsage>)
    ensures IsAggregation(Dedup(sources), out) && SortedBy(out, ProjectLess)
  {
    var dedup := DeduplicateSources(sources);
    var byCwd := GroupByCwd(dedup);
    ProjectOrder();
    out := SortedValues(byCwd, CwdOf, ProjectLess);
    ListedAggregation(dedup, byCwd, out);
  }

  method GroupByCwd(dedup: map<string, UsageSource>) returns (byCwd: map<string, ProjectUsage>)
    ensures Grouped(dedup, dedup.Keys, byCwd)
  {
    byCwd := map[];
    var rest := dedup.Keys;
    ghost var done := {};
    while rest != {}
      invariant done + rest == dedup.Keys && done !! rest
      invariant Grouped(dedup, done, byCwd)
      decreases rest
    {
      var key := NextKey(rest);
      var source := dedup[key];
      ghost var before := byCwd;
      var row := if source.cwd in byCwd then Some(byCwd[source.cwd]) else None;
      byCwd := byCwd[source.cwd := Book(row, source)];
      OneMoreKey(dedup, done, before, key);
      rest, done := rest - {key}, done + {key};
    }
    assert done == dedup.Keys;
  }

  lemma OneMoreKey(dedup: map<string, UsageSource>, done: set<string>, before: map<string, ProjectUsage>, key: string)
    requires done <= dedup.Keys && key in dedup && key !in done && Grouped(dedup, done, before)
    ensures var c := dedup[key].cwd;
            Grouped(dedup, done + {key}, before[c := Book(if c in before then Some(before[c]) else None, dedup[key])])
  {
    var c := dedup[key].cwd;
    RowBooked(dedup, done, before, key);
    forall d | d in before && d != c
      ensures RowOf(dedup, done + {key}, d, before[d])
    {
      OtherRow(dedup, done, key, d, before[d]);
    }
  }

  lemma OtherRow(dedup: map<string, UsageSource>, done: set<string>, key: string, d: string, p: ProjectUsage)
    requires done <= dedup.Keys && key in dedup && d != dedup[key].cwd
    requires RowOf(dedup, done, d, p)
    ensures RowOf(dedup, done + {key}, d, p)
  {
    KeysAtGrow(dedup, done, key);
  }

  lemma KeysAtGrow(dedup: map<string, UsageSource>, done: set<string>, key: string)
    requires done <= dedup.Keys && key in dedup
    ensures forall d :: KeysAt(dedup, done + {key}, d) ==
                        if d == dedup[key].cwd then KeysAt(dedup, done, d) + {key} else KeysAt(dedup, done, d)
  {
  }

  lemma RowBooked(dedup: map<string, UsageSource>, done: set<string>, before: map<string, ProjectUsage>, key: string)
    requires done <= dedup.Keys && key in dedup && key !in done && Grouped(dedup, done, before)
    ensures var c := dedup[key].cwd;
            RowOf(dedup, done + {key}, c, Book(if c in before then Some(before[c]) else None, dedup[key]))
  {
    var c := dedup[key].cwd;
    var at := KeysAt(dedup, done, c);
    KeysAtGrow(dedup, done, key);
    if c in before {
      BookNext(dedup, at, key, before[c]);
    } else {
      assert at == {} && {} + {key} == {key};
      BookFirst(dedup, key);
    }
  }

  /** Rows with different directories are different rows. */
  lemma CwdsSeparate(rows: seq<ProjectUsage>)
    requires NoDup(Map(CwdOf, rows))
    ensures NoDup(rows)
    ensures forall p, q :: p in rows && q in rows && p.cwd == q.cwd ==> p == q
  {
  }

  lemma ListedAggregation(dedup: map<string, UsageSource>, byCwd: map<string, ProjectUsage>, out: seq<ProjectUsage>)
    requires Grouped(dedup, dedup.Keys, byCwd) && ListsValues(byCwd, CwdOf, out)
    ensures IsAggregation(dedup, out)
  {
    var cwds := Map(CwdOf, out);
    forall i, j | 0 <= i < j < |out| ensures cwds[i] != cwds[j] {
      assert out[i] in out && out[j] in out;
    }
    forall k | k in dedup ensures dedup[k].cwd in cwds {
      var p := byCwd[dedup[k].cwd];
      assert p in out;
      var i :| 0 <= i < |out| && out[i] == p;
      assert cwds[i] == p.cwd;
    }
  }

  // ----------------------------------------------------------- conservation --

  function SumProjects(out: seq<ProjectUsage>): TokenUsage {
    if out == [] then NO_USAGE else AddUsage(SumProjects(out[..|out| - 1]), out[|out| - 1].usage)
  }

  function SumSessions(out: seq<ProjectUsage>): nat {
    if out == [] then 0 else SumSessions(out[..|out| - 1]) + out[|out| - 1].sessions
  }

  /** The keys whose directory has a row in out. */
  ghost function Covered(dedup: map<string, UsageSource>, out: seq<ProjectUsage>): set<string> {
    set k | k in dedup && dedup[k].cwd in Map(CwdOf, out)
  }

  lemma CoveredSnoc(dedup: map<string, UsageSource>, init: seq<ProjectUsage>, last: ProjectUsage)
    requires NoDup(Map(CwdOf, init + [last]))
    ensures NoDup(Map(CwdOf, init)) && last.cwd !in Map(CwdOf, init)
    ensures Covered(dedup, init + [last]) == Covered(dedup, init) + KeysAt(dedup, dedup.Keys, last.cwd)
    ensures Covered(dedup, init) !! KeysAt(dedup, dedup.Keys, last.cwd)
  {
    MapSnoc(CwdOf, init, last);
    var cwds, all := Map(CwdOf, init), Map(CwdOf, init + [last]);
    assert all == cwds + [last.cwd] && all[|init|] == last.cwd;
    forall i | 0 <= i < |init| ensures cwds[i] != last.cwd {
      assert all[i] != all[|init|];
    }
    forall i, j | 0 <= i < j < |cwds| ensures cwds[i] != cwds[j] {
      assert all[i] != all[j];
    }
    forall c ensures c in all <==> c in cwds || c == last.cwd {}
  }

  lemma {:induction false} SumsAreCovered(dedup: map<string, UsageSource>, out: seq<ProjectUsage>)
    requires NoDup(Map(CwdOf, out))
    requires forall p :: p in out ==> Accounts(dedup, KeysAt(dedup, dedup.Keys, p.cwd), p)
    ensures SumProjects(out) == SumKeys(dedup, UsageOf, Covered(dedup, out))
    ensures SumSessions(out) == |Covered(dedup, out)|
    decreases |out|
  {
    if out == [] {
      assert Covered(dedup, out) == {};
    } else {
      var init, last := out[..|out| - 1], out[|out| - 1];
      assert out == init + [last];
      CoveredSnoc(dedup, init, last);
      assert forall p :: p in init ==> p in out;
      SumsAreCovered(dedup, init);
      assert last in out;
      var at := KeysAt(dedup, dedup.Keys, last.cwd);
      assert Accounts(dedup, at, last);
      SumKeysUnion(dedup, UsageOf, Covered(dedup, init), at);
      assert |Covered(dedup, init) + at| == |Covered(dedup, init)| + |at|;
    }
  }

  /**
   * Every counter summed over the projects is its sum over the deduplicated sources,
   * and the session counts add up to the number of those sources.
   */
  lemma AggregationConserves(dedup: map<string, UsageSource>, out: seq<ProjectUsage>)
    requires IsAggregation(dedup, out)
    ensures exists sum :: IsSum(sum, Map(RowUsage, out)) && IsSumAt(sum, dedup, UsageOf, dedup.Keys)
    ensures SumOf(SessionsOf, out) == |dedup|
    ensures forall p :: p in out ==> IsSumAt(p.usage, dedup, UsageOf, KeysAt(dedup, dedup.Keys, p.cwd))
  {
    SumsAreCovered(dedup, out);
    assert Covered(dedup, out) == dedup.Keys;
    SumProjectsIsSum(out);
    SumKeysIsSum(dedup, UsageOf, dedup.Keys);
    assert IsSum(SumProjects(out), Map(RowUsage, out)) && IsSumAt(SumProjects(out), dedup, UsageOf, dedup.Keys);
    forall p | p in out ensures IsSumAt(p.usage, dedup, UsageOf, KeysAt(dedup, dedup.Keys, p.cwd)) {
      SumKeysIsSum(dedup, UsageOf, KeysAt(dedup, dedup.Keys, p.cwd));
    }
  }

  function RowUsage(p: ProjectUsage): TokenUsage { p.usage }
  function SessionsOf(p: ProjectUsage): nat { p.sessions }

  lemma {:induction false} SumProjectsIsSum(out: seq<ProjectUsage>)
    ensures IsSum(SumProjects(out), Map(RowUsage, out)) && SumSessions(out) == SumOf(SessionsOf, out)
    decreases |out|
  {
    if out != [] {
      var init, last := out[..|out| - 1], out[|out| - 1];
      assert out == init + [last];
      SumProjectsIsSum(init);
      MapSnoc(RowUsage, init, last);
      IsSumSnoc(SumProjects(init), Map(RowUsage, init), last.usage);
      SumOfSnoc(SessionsOf, init, last);
    }
  }

  /** With one project name per directory, the rows do not depend on map order. */
  lemma AggregationUnique(dedup: map<string, UsageSource>, a: seq<ProjectUsage>, b: seq<ProjectUsage>)
    requires IsAggregation(dedup, a) && IsAggregation(dedup, b) && NamedByDirectory(dedup)
    ensures multiset(a) == multiset(b)
  {
    forall p ensures p in a <==> p in b {
      if p in a { RowAppears(dedup, b, p); }
      if p in b { RowAppears(dedup, a, p); }
    }
    CwdsSeparate(a);
    CwdsSeparate(b);
    NoDupSameMultiset(a, b);
  }

  lemma RowAppears(dedup: map<string, UsageSource>, b: seq<ProjectUsage>, p: ProjectUsage)
    requires Accounts(dedup, KeysAt(dedup, dedup.Keys, p.cwd), p)
    requires IsAggregation(dedup, b) && NamedByDirectory(dedup)
    ensures p in b
  {
    var at := KeysAt(dedup, dedup.Keys, p.cwd);
    assert Accounts(dedup, at, p);
    assert at != {};
    var k := AnyOf(at);
    var i :| 0 <= i < |b| && Map(CwdOf, b)[i] == dedup[k].cwd;
    assert b[i] in b && Accounts(dedup, at, b[i]);
    assert p == b[i];
  }

  /** Sources are filed under agent and session ID, or under their path if they name no session. */
  lemma FiledUnder(s: UsageSource)
    ensures DedupKey(s) == if s.sessionID == "" then s.path else s.agent + ":" + s.sessionID
  {
  }

  /** Projects are listed by tokens, most first, and by name where they have equally many. */
  lemma ListedByTokens(out: seq<ProjectUsage>)
    requires SortedBy(out, ProjectLess)
    ensures forall i, j :: 0 <= i < j < |out| ==>
              && out[i].usage.total >= out[j].usage.total
              && (out[i].usage.total == out[j].usage.total ==> !TextLess(out[j].project, out[i].project))
  {
  }

  /** The time of a project is the modification time, counted from year 1, of one of its sources. */
  lemma TimeIsModification(dedup: map<string, UsageSource>, out: seq<ProjectUsage>, p: ProjectUsage)
    requires IsAggregation(dedup, out) && p in out
    requires forall k :: k in dedup ==> dedup[k].modifiedUnixNano >= MIN_DURATION
    ensures forall k :: k in dedup && dedup[k].cwd == p.cwd ==>
              62_135_596_800_000_000_000 + dedup[k].modifiedUnixNano <= p.updatedAt
    ensures exists k :: k in dedup && dedup[k].cwd == p.cwd &&
                        62_135_596_800_000_000_000 + dedup[k].modifiedUnixNano == p.updatedAt
  {
    LatestIsMaximum(dedup, KeysAt(dedup, dedup.Keys, p.cwd));
  }
}
