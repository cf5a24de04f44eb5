// composeSessionsLocked as it runs: index the sorted rows, take each recent telemetry
// session and then each recent transcript to its row, list what is left
// (internal/daemon/daemon.go). Every method ends in what Composition and ComposeResult specify.
module Compose {
  import opened Base
  import opened ComposeExact
  import opened ComposeResult
  import opened ComposeSafety
  import opened Composition
  import opened Matching
  import opened Model
  import opened ProcessTree
  import opened Projects
  import opened RowTables
  import opened Sorting
  import opened TelemetryIngest

  // -------------------------------------------------------------- the index --

  method IndexProcessRows(combined: Rows) returns (x: RowIndex)
    ensures x == IndexRows(combined)
  {
    var processByID: map<string, nat>, processByLaunch: map<string, nat> := map[], map[];
    var processByPID: map<int, nat>, processStartByPID: map<int, Time> := map[], map[];
    for i := 0 to |combined|
      invariant RowIndex(processByID, processByLaunch, processByPID, processStartByPID) == IndexRows(combined[..i])
    {
      var row := combined[i];
      assert combined[..i + 1][..i] == combined[..i];
      processByID := processByID[SessionKey(row.session.agent, row.session.id) := i];
      if row.session.launchID != "" {
        processByLaunch := processByLaunch[SessionKey(row.session.agent, row.session.launchID) := i];
      }
      ghost var named := RowIndex(processByID, processByLaunch, processByPID, processStartByPID);
      var procs := FlattenTree(row.processTree);
      for j := 0 to |procs|
        invariant RowIndex(processByID, processByLaunch, processByPID, processStartByPID) ==
                  AddProcesses(named, procs[..j], i)
      {
        assert procs[..j + 1][..j] == procs[..j];
        processByPID := processByPID[procs[j].pid := i];
        processStartByPID := processStartByPID[procs[j].pid := procs[j].startedAt];
      }
      assert procs[..|procs|] == procs;
    }
    assert combined[..|combined|] == combined;
    x := RowIndex(processByID, processByLaunch, processByPID, processStartByPID);
  }

  // ------------------------------------------------------------ the two loops --

  /** One turn of the telemetry loop. */
  method TakeTelemetrySession(x: Inputs, st: State, id: string) returns (r: State)
    requires InRange(x, st) && WellKept(x.tel) && id in x.tel
    ensures r == TelemetryStep(x, st, id)
  {
    var t := x.tel[id];
    if !RecentEnough(t.updatedAt, x.now, x.window) { return st; }
    var key := SessionKey(t.agent, t.sessionID);
    var index, matched := 0, key in st.byID;
    if matched { index := st.byID[key]; }
    var confidence, canonicalize := Confirmed, false;
    var launch := SessionKey(t.agent, t.launchID);
    if !matched && t.launchID != "" && launch in x.index.byLaunch {
      index, matched, canonicalize := x.index.byLaunch[launch], true, true;
    }
    if !matched && ValidIdentity(t, st.rows, x.index.owner, x.index.started) {
      index := x.index.owner[t.processPID];
      if index !in st.matched { matched, canonicalize := true, true; }
    }
    if !matched && key in x.probable {
      index := x.probable[key];
      if index !in st.matched { matched, confidence, canonicalize := true, Probable, true; }
    }
    if matched {
      var row := MergeTelemetry(st.rows[index], t);
      if canonicalize { row := Canonicalize(row, t.sessionID, t.launchID); }
      row := SetConfidence(row, confidence);
      r := State(st.rows[index := row], st.byID[key := index], st.matched + {index}, st.logical);
    } else {
      r := State(st.rows, st.byID, st.matched, st.logical[key := FromTelemetry(t)]);
    }
  }

  /** st is what the telemetry loop leaves behind for some order of its map. */
  ghost predicate TelemetryTaken(x: Inputs, rows: Rows, st: State)
    requires InRange(x, Start(x, rows))
  {
    exists order :: OrderOf(order, x.tel.Keys) && st == RunTelemetry(x, Start(x, rows), order)
  }

  method MatchTelemetry(x: Inputs, rows: Rows) returns (st: State)
    requires WellKept(x.tel) && InRange(x, Start(x, rows))
    ensures TelemetryTaken(x, rows, st)
  {
    st := State(rows, x.index.byID, {}, map[]);
    ghost var order := [];
    var rest := x.tel.Keys;
    while rest != {}
      invariant NoDup(order) && forall k :: k in order <==> k in x.tel && k !in rest
      invariant st == RunTelemetry(x, Start(x, rows), order)
    {
      var id := NextKey(rest);
      st := TakeTelemetrySession(x, st, id);
      NoDupConcat(order, [id]);
      assert (order + [id])[..|order|] == order;
      order := order + [id];
      rest := rest - {id};
    }
  }

  /** One turn of the transcript loop. */
  method TakeUsageSource(x: Inputs, st: State, id: string) returns (r: State)
    requires InRange(x, st) && WellKept(x.tel) && KeyedByID(x.srcs) && id in x.srcs
    ensures r == TranscriptStep(x, st, id)
  {
    var source := x.srcs[id];
    if source.sessionID == "" || !RecentEnough(source.updatedAt, x.now, x.window) { return st; }
    var key := SessionKey(source.agent, source.sessionID);
    if key in st.byID {
      var index := st.byID[key];
      return State(st.rows[index := MergeTranscript(st.rows[index], source)], st.byID, st.matched, st.logical);
    }
    if key in x.probable && x.probable[key] !in st.matched {
      var index := x.probable[key];
      var row := st.rows[index];
      if key in x.tel { row := MergeTelemetry(row, x.tel[key]); }
      row := MergeTranscript(row, source);
      row := Canonicalize(row, source.sessionID, "");
      row := SetConfidence(row, Probable);
      return State(st.rows[index := row], st.byID[key := index], st.matched + {index}, st.logical - {key});
    }
    var entry := if key in st.logical then st.logical[key] else NO_ROW;
    if entry.session.id == "" {
      entry := FromTranscript(source);
    } else {
      entry := MergeTranscript(entry, source);
    }
    r := State(st.rows, st.byID, st.matched, st.logical[key := entry]);
  }

  /** What a lookup of a missing key yields. */
  const NO_ROW := SessionSnapshot(
    Session("", "", "", "", "", 0, 0, 0, None, Active, Transcript, 0, "", ""),
    [], 0, 0.0, 0, 0, [], [], NO_USAGE, 0, NO_METRICS, NoResources, NoAttribution)

  /** st is what the transcript loop makes of before for some order of its map. */
  ghost predicate TranscriptsTaken(x: Inputs, before: State, st: State)
    requires InRange(x, before)
  {
    exists order :: OrderOf(order, x.srcs.Keys) && st == RunTranscripts(x, before, order)
  }

  method MatchTranscripts(x: Inputs, before: State) returns (st: State)
    requires WellKept(x.tel) && KeyedByID(x.srcs) && InRange(x, before)
    ensures TranscriptsTaken(x, before, st)
  {
    st := before;
    ghost var order := [];
    var rest := x.srcs.Keys;
    while rest != {}
      invariant NoDup(order) && forall k :: k in order <==> k in x.srcs && k !in rest
      invariant st == RunTranscripts(x, before, order)
    {
      var id := NextKey(rest);
      st := TakeUsageSource(x, st, id);
      NoDupConcat(order, [id]);
      assert (order + [id])[..|order|] == order;
      order := order + [id];
      rest := rest - {id};
    }
  }

  // ----------------------------------------------------------------- listing --

  /** Logical rows sit under their own keys. */
  ghost predicate LogicalKeyed(logical: map<string, SessionSnapshot>) {
    forall k :: k in logical ==> KeyOf(logical[k]) == k
  }

  lemma {:induction false} TelemetryKeyed(x: Inputs, st: State, order: seq<string>)
    requires WellKept(x.tel) && InRange(x, st) && LogicalKeyed(st.logical)
    ensures LogicalKeyed(RunTelemetry(x, st, order).logical)
    decreases |order|
  {
    if order != [] { TelemetryKeyed(x, st, order[..|order| - 1]); }
  }

  lemma {:induction false} TranscriptsKeyed(x: Inputs, st: State, order: seq<string>)
    requires KeyedByID(x.srcs) && InRange(x, st) && LogicalKeyed(st.logical)
    ensures LogicalKeyed(RunTranscripts(x, st, order).logical)
    decreases |order|
  {
    if order != [] { TranscriptsKeyed(x, st, order[..|order| - 1]); }
  }

  /** The map that DeduplicateSources returns is keyed by session. */
  lemma DedupKeyed(sources: seq<UsageSource>)
    ensures KeyedByID(Dedup(sources))
  {
  }

  // -------------------------------------------------------------- the whole --

  /** rows and x are what one composition of these inputs starts from. */
  ghost predicate Derived(
      processSessions: Rows, tel: Sessions, sources: seq<UsageSource>, now: Time, window: int, x: Inputs, rows: Rows) {
    && SortedPermutation(processSessions, rows, RowLess)
    && x.tel == tel && x.srcs == Dedup(sources) && x.now == now && x.window == window
    && Consistent(x, rows)
  }

  /** combined is an outcome for some order of each map. */
  ghost predicate HasOutcome(x: Inputs, rows: Rows, limit: nat, combined: Rows) {
    exists c :: Arranged(x, rows, c) && combined == Shown(x, rows, limit, c)
  }

  /** combined is a list that composeSessionsLocked may return, for some order of everything Go leaves open. */
  ghost predicate IsComposed(
      processSessions: Rows, tel: Sessions, sources: seq<UsageSource>, now: Time, window: int, limit: nat,
      combined: Rows) {
    exists x, rows ::
      Derived(processSessions, tel, sources, now, window, x, rows) && HasOutcome(x, rows, limit, combined)
  }

  /** Sorted rows, their index, and the evidence. */
  method Prepare(processSessions: Rows, tel: Sessions, usageSources: seq<UsageSource>, now: Time, window: int)
    returns (x: Inputs, rows: Rows)
    requires WellKept(tel)
    ensures Derived(processSessions, tel, usageSources, now, window, x, rows)
  {
    RowOrder();
    rows := SortSlice(processSessions, RowLess);
    var index := IndexProcessRows(rows);
    var sources := DeduplicateSources(usageSources);
    DedupKeyed(usageSources);
    var probable := BuildProbableMatches(rows, tel, sources, now, window);
    x := Inputs(tel, sources, now, window, index, probable);
    IndexRowsIsIndex(rows);
  }

  /** Both loops. */
  method MatchSessions(x: Inputs, rows: Rows)
    returns (st: State, ghost telOrder: seq<string>, ghost srcOrder: seq<string>)
    requires WellKept(x.tel) && KeyedByID(x.srcs) && InRange(x, Start(x, rows))
    ensures OrderOf(telOrder, x.tel.Keys) && OrderOf(srcOrder, x.srcs.Keys)
    ensures st == RunBoth(x, rows, telOrder, srcOrder) && LogicalKeyed(st.logical)
  {
    var mid := MatchTelemetry(x, rows);
    telOrder :| OrderOf(telOrder, x.tel.Keys) && mid == RunTelemetry(x, Start(x, rows), telOrder);
    TelemetryKeyed(x, Start(x, rows), telOrder);
    st := MatchTranscripts(x, mid);
    srcOrder :| OrderOf(srcOrder, x.srcs.Keys) && st == RunTranscripts(x, mid, srcOrder);
    TranscriptsKeyed(x, mid, srcOrder);
  }

  /** The logical rows, newest first and cut off at the limit, before the process rows. */
  method ListRows(x: Inputs, rows: Rows, limit: nat) returns (combined: Rows)
    requires WellKept(x.tel) && KeyedByID(x.srcs) && InRange(x, Start(x, rows))
    ensures HasOutcome(x, rows, limit, combined)
  {
    var st;
    ghost var telOrder, srcOrder;
    st, telOrder, srcOrder := MatchSessions(x, rows);
    LogicalOrder();
    var logicalRows := SortedValues(st.logical, KeyOf, LogicalLess);
    ghost var c := Choices(telOrder, srcOrder, logicalRows);
    if |logicalRows| > limit {
      logicalRows := logicalRows[..limit];
    }
    combined := logicalRows + st.rows;
    assert Arranged(x, rows, c) && combined == Shown(x, rows, limit, c);
  }

  /** Composes the process rows with the recent sessions. */
  method ComposeSessions(
      processSessions: Rows, tel: Sessions, usageSources: seq<UsageSource>, now: Time, window: int, limit: nat)
    returns (combined: Rows)
    requires WellKept(tel)
    ensures IsComposed(processSessions, tel, usageSources, now, window, limit, combined)
  {
    var x, rows := Prepare(processSessions, tel, usageSources, now, window);
    ConsistentInRange(x, rows);
    combined := ListRows(x, rows, limit);
  }

  ghost predicate NoColons(tel: Sessions, sources: seq<UsageSource>) {
    && (forall k :: k in tel ==> ':' !in tel[k].agent)
    && (forall s :: s in sources ==> ':' !in s.agent)
  }

  /** Agent names without colons, and process rows of different sessions. */
  ghost predicate NamesApart(processSessions: Rows, tel: Sessions, sources: seq<UsageSource>) {
    && KeysApart(processSessions) && NoColons(tel, sources)
    && (forall i :: 0 <= i < |processSessions| ==> ':' !in processSessions[i].session.agent)
  }

  lemma SortedApart(processSessions: Rows, rows: Rows)
    requires KeysApart(processSessions) && multiset(rows) == multiset(processSessions)
    ensures KeysApart(rows)
  {
    KeysApartSeparates(processSessions);
    NoDupPermutation(processSessions, rows);
    SameElements(processSessions, rows);
    forall i, j | 0 <= i < j < |rows| ensures KeyOf(rows[i]) != KeyOf(rows[j]) {
      assert rows[i] in processSessions && rows[j] in processSessions;
    }
  }

  lemma DedupNoColons(tel: Sessions, sources: seq<UsageSource>)
    requires NoColons(tel, sources)
    ensures forall k :: k in Dedup(sources) ==> ':' !in Dedup(sources)[k].agent
  {
  }

  lemma DerivedWellFormed(
      processSessions: Rows, tel: Sessions, sources: seq<UsageSource>, now: Time, window: int, x: Inputs, rows: Rows)
    requires Derived(processSessions, tel, sources, now, window, x, rows)
    requires NamesApart(processSessions, tel, sources)
    ensures WellFormed(x, rows)
  {
    SortedApart(processSessions, rows);
    DedupNoColons(tel, sources);
    SameElements(processSessions, rows);
    forall i | 0 <= i < |rows| ensures ':' !in rows[i].session.agent {
      assert rows[i] in processSessions;
    }
  }

  /** Whatever Go leaves open, no session is shown twice and the scanned resources are all shown once. */
  lemma ComposedSafely(
      processSessions: Rows, tel: Sessions, sources: seq<UsageSource>, now: Time, window: int, limit: nat,
      combined: Rows)
    requires IsComposed(processSessions, tel, sources, now, window, limit, combined)
    requires NamesApart(processSessions, tel, sources)
    ensures KeysApart(combined)
    ensures exists rows :: SortedPermutation(processSessions, rows, RowLess) &&
                           Conserves(processSessions, rows, limit, combined)
  {
    var x, rows :|
      Derived(processSessions, tel, sources, now, window, x, rows) && HasOutcome(x, rows, limit, combined);
    var c :| Arranged(x, rows, c) && combined == Shown(x, rows, limit, c);
    DerivedWellFormed(processSessions, tel, sources, now, window, x, rows);
    SessionsUnique(x, rows, limit, c);
    ResourcesConserved(processSessions, x, rows, limit, c);
  }

  lemma DerivedUnique(
      processSessions: Rows, tel: Sessions, sources: seq<UsageSource>, now: Time, window: int, x: Inputs, rows: Rows,
      x': Inputs, rows': Rows)
    requires Derived(processSessions, tel, sources, now, window, x, rows)
    requires Derived(processSessions, tel, sources, now, window, x', rows')
    requires KeysApart(processSessions)
    ensures x == x' && rows == rows'
  {
    SortedApart(processSessions, rows);
    SortedRowsUnique(processSessions, rows, rows');
    ProbableInjective(HintsOf(tel, x.srcs, now, window), rows, x.probable, x'.probable);
    IsIndexUnique(rows, x.index, x'.index);
  }

  /** The order in which a tick lists its rows is not an input. */
  lemma PermutedIsComposed(
      processSessions: Rows, permuted: Rows, tel: Sessions, sources: seq<UsageSource>, now: Time, window: int,
      limit: nat, combined: Rows)
    requires multiset(permuted) == multiset(processSessions)
    requires IsComposed(permuted, tel, sources, now, window, limit, combined)
    ensures IsComposed(processSessions, tel, sources, now, window, limit, combined)
  {
    var x, rows :|
      Derived(permuted, tel, sources, now, window, x, rows) && HasOutcome(x, rows, limit, combined);
    assert Derived(processSessions, tel, sources, now, window, x, rows);
  }

  /** No two recent sessions of these inputs compete for a process row or disagree on one they share. */
  ghost predicate NoContention(
      processSessions: Rows, tel: Sessions, sources: seq<UsageSource>, now: Time, window: int) {
    forall x, rows :: Derived(processSessions, tel, sources, now, window, x, rows) ==> Uncontended(x, rows)
  }

  /** Without contention the inputs determine the list, whatever order the process rows came in. */
  lemma ComposedUniquely(
      processSessions: Rows, permuted: Rows, tel: Sessions, sources: seq<UsageSource>, now: Time, window: int,
      limit: nat, combined: Rows, combined': Rows)
    requires multiset(permuted) == multiset(processSessions)
    requires IsComposed(processSessions, tel, sources, now, window, limit, combined)
    requires IsComposed(permuted, tel, sources, now, window, limit, combined')
    requires NamesApart(processSessions, tel, sources)
    requires NoContention(processSessions, tel, sources, now, window)
    ensures combined == combined'
  {
    PermutedIsComposed(processSessions, permuted, tel, sources, now, window, limit, combined');
    var x, rows :|
      Derived(processSessions, tel, sources, now, window, x, rows) && HasOutcome(x, rows, limit, combined);
    var c :| Arranged(x, rows, c) && combined == Shown(x, rows, limit, c);
    var x', rows' :|
      Derived(processSessions, tel, sources, now, window, x', rows') && HasOutcome(x', rows', limit, combined');
    var d :| Arranged(x', rows', d) && combined' == Shown(x', rows', limit, d);
    DerivedUnique(processSessions, tel, sources, now, window, x, rows, x', rows');
    DerivedWellFormed(processSessions, tel, sources, now, window, x, rows);
    OrderIrrelevant(processSessions, x, limit, rows, c, rows', d);
  }
}
