// What every order of the two loops of composeSessionsLocked keeps: one row per
// session, untouched resources, one home per recent session.
module ComposeSafety {
  import opened Base
  import opened Composition
  import opened Matching
  import opened Model
  import opened TelemetryIngest

  // ------------------------------------------------------ single rows --------

  /** Nothing that the OS scan contributed has changed. */
  ghost predicate SameProcess(a: SessionSnapshot, b: SessionSnapshot) {
    && a.processTree == b.processTree && a.processCount == b.processCount && a.cpuSeconds == b.cpuSeconds
    && a.memoryBytes == b.memoryBytes && a.peakMemoryBytes == b.peakMemoryBytes
    && a.listenPorts == b.listenPorts && a.findings == b.findings && a.resourceScope == b.resourceScope
    && a.session.agent == b.session.agent && a.session.rootPID == b.session.rootPID
    && a.session.processStartedAt == b.session.processStartedAt && a.session.startedAt == b.session.startedAt
    && a.session.state == b.session.state && a.session.endedAt == b.session.endedAt
    && (b.resourceScope == Shared && b.attribution == SharedTree ==> a.attribution == SharedTree)
  }

  /** A row that carries no process resources. */
  ghost predicate NoProcess(a: SessionSnapshot) {
    && a.processTree == [] && a.processCount == 0 && a.cpuSeconds == 0.0 && a.memoryBytes == 0
    && a.peakMemoryBytes == 0 && a.listenPorts == [] && a.findings == []
    && a.resourceScope == NoResources && a.attribution == NoAttribution
  }

  lemma TakeTelemetryRow(row: SessionSnapshot, s: TelemetrySession, grade: Grade)
    requires s.sessionID != ""
    ensures SameProcess(TakeTelemetry(row, s, grade), row)
    ensures TakeTelemetry(row, s, grade).session.id == if grade == ByID then row.session.id else s.sessionID
  {
  }

  lemma MergeTranscriptRow(row: SessionSnapshot, s: UsageSource)
    ensures SameProcess(MergeTranscript(row, s), row)
    ensures MergeTranscript(row, s).session.id == row.session.id
    ensures MergeTranscript(row, s).attribution == row.attribution && MergeTranscript(row, s).usage == s.usage
  {
  }

  lemma TakeTranscriptRow(row: SessionSnapshot, t: Option<TelemetrySession>, s: UsageSource)
    requires s.sessionID != ""
    ensures SameProcess(TakeTranscript(row, t, s), row)
    ensures TakeTranscript(row, t, s).session.id == s.sessionID
  {
  }

  lemma SameProcessTransitive(a: SessionSnapshot, b: SessionSnapshot, c: SessionSnapshot)
    requires SameProcess(a, b) && SameProcess(b, c)
    ensures SameProcess(a, c)
  {
  }

  // ------------------------------------------------------------- invariant ---

  /** The logical row of k: telemetry's, with the transcript's usage over it once that was visited. */
  function LogicalValue(x: Inputs, k: string, transcript: bool): SessionSnapshot
    requires x.IsRecent(k)
  {
    var t, s := x.TelAt(k), x.SrcAt(k);
    if t.None? then FromTranscript(s.value)
    else if s.Some? && transcript then MergeTranscript(FromTelemetry(t.value), s.value)
    else FromTelemetry(t.value)
  }

  /** k has been visited by one of the loops, with something recent to show. */
  ghost predicate Visited(x: Inputs, tels: set<string>, srcs: set<string>, k: string) {
    (k in tels && x.TelAt(k).Some?) || (k in srcs && x.SrcAt(k).Some?)
  }

  ghost predicate RowsKeyed(st: State) {
    forall i :: 0 <= i < |st.rows| ==> KeyOf(st.rows[i]) in st.byID && st.byID[KeyOf(st.rows[i])] == i
  }

  ghost predicate RowsKept(st: State, rows: Rows) {
    |st.rows| == |rows| && forall i :: 0 <= i < |rows| ==> SameProcess(st.rows[i], rows[i])
  }

  ghost predicate LogicalKept(x: Inputs, st: State, tels: set<string>, srcs: set<string>) {
    forall k :: k in st.logical ==>
      && k !in st.byID && Visited(x, tels, srcs, k)
      && st.logical[k] == LogicalValue(x, k, k in srcs)
      && (x.TelAt(k).Some? && k in x.probable ==> x.probable[k] in st.matched)
  }

  ghost predicate Housed(x: Inputs, st: State, tels: set<string>, srcs: set<string>) {
    forall k :: Visited(x, tels, srcs, k) ==> k in st.byID || k in st.logical
  }

  ghost predicate Safe(x: Inputs, rows: Rows, st: State, tels: set<string>, srcs: set<string>) {
    && InRange(x, st) && RowsKeyed(st) && RowsKept(st, rows)
    && LogicalKept(x, st, tels, srcs) && Housed(x, st, tels, srcs)
  }

  lemma LogicalRow(x: Inputs, k: string, transcript: bool)
    requires WellKept(x.tel) && KeyedByID(x.srcs) && x.IsRecent(k)
    ensures KeyOf(LogicalValue(x, k, transcript)) == k && LogicalValue(x, k, transcript).session.id != ""
    ensures NoProcess(LogicalValue(x, k, transcript))
  {
  }

  // ---------------------------------------------------- evidence and agents --

  lemma LaunchAgent(x: Inputs, rows: Rows, agent: Agent, launchID: string)
    requires WellFormed(x, rows) && ':' !in agent
    requires SessionKey(agent, launchID) in x.index.byLaunch
    ensures x.index.byLaunch[SessionKey(agent, launchID)] < |rows|
    ensures rows[x.index.byLaunch[SessionKey(agent, launchID)]].session.agent == agent
  {
    assert LastLaunch(rows, SessionKey(agent, launchID), x.index.byLaunch[SessionKey(agent, launchID)]);
    var row := rows[x.index.byLaunch[SessionKey(agent, launchID)]];
    SessionKeyInjective(row.session.agent, row.session.launchID, agent, launchID);
  }

  /** All evidence leads from a session to a row of its own agent, and the weaker kinds to an owned row. */
  ghost predicate Sound(x: Inputs, rows: Rows) {
    && WellKept(x.tel) && KeyedByID(x.srcs)
    && (forall k :: k in x.tel && LaunchOfSession(x.tel[k]) in x.index.byLaunch ==>
          && x.index.byLaunch[LaunchOfSession(x.tel[k])] < |rows|
          && rows[x.index.byLaunch[LaunchOfSession(x.tel[k])]].session.agent == x.tel[k].agent)
    && (forall k :: k in x.probable ==> SoundGuess(x, rows, k))
  }

  function LaunchOfSession(s: TelemetrySession): string { SessionKey(s.agent, s.launchID) }

  ghost predicate SoundGuess(x: Inputs, rows: Rows, k: string)
    requires k in x.probable
  {
    && x.probable[k] < |rows| && rows[x.probable[k]].resourceScope == Owned
    && (x.TelAt(k).Some? ==> rows[x.probable[k]].session.agent == x.tel[k].agent)
    && (x.SrcAt(k).Some? ==> rows[x.probable[k]].session.agent == x.srcs[k].agent)
  }

  lemma WellFormedIsSound(x: Inputs, rows: Rows)
    requires WellFormed(x, rows)
    ensures Sound(x, rows)
  {
    forall k | k in x.tel && LaunchOfSession(x.tel[k]) in x.index.byLaunch
      ensures x.index.byLaunch[LaunchOfSession(x.tel[k])] < |rows|
      ensures rows[x.index.byLaunch[LaunchOfSession(x.tel[k])]].session.agent == x.tel[k].agent
    {
      LaunchAgent(x, rows, x.tel[k].agent, x.tel[k].launchID);
    }
    forall k | k in x.probable ensures SoundGuess(x, rows, k) {
      GuessOwned(x, rows, k);
      if x.TelAt(k).Some? { ProbableAgent(x, rows, k, x.tel[k].agent, x.tel[k].sessionID); }
      if x.SrcAt(k).Some? { ProbableAgent(x, rows, k, x.srcs[k].agent, x.srcs[k].sessionID); }
    }
  }

  lemma GuessOwned(x: Inputs, rows: Rows, k: string)
    requires WellFormed(x, rows) && k in x.probable
    ensures x.probable[k] < |rows| && rows[x.probable[k]].resourceScope == Owned
  {
  }

  /** The evidence behind a match names the row's own agent; weak evidence never touches a shared row. */
  lemma MatchedAgent(x: Inputs, rows: Rows, st: State, s: TelemetrySession, k: string)
    requires Sound(x, rows) && InRange(x, st) && RowsKept(st, rows) && x.TelAt(k) == Some(s)
    ensures var m := FindRow(x, st, s, k);
            m.Matched? && m.grade != ByID ==>
              && k !in st.byID && st.rows[m.row].session.agent == s.agent
              && (m.grade == ByProcess || m.grade == ByGuess ==> st.rows[m.row].resourceScope == Owned)
  {
  }

  lemma ProbableAgent(x: Inputs, rows: Rows, k: string, agent: Agent, id: string)
    requires WellFormed(x, rows) && k in x.probable && ':' !in agent && k == SessionKey(agent, id)
    ensures x.probable[k] < |rows| && rows[x.probable[k]].session.agent == agent
    ensures rows[x.probable[k]].resourceScope == Owned && x.IsRecent(k)
  {
    var hints := HintsOf(x.tel, x.srcs, x.now, x.window);
    assert UniquelyFits(hints, rows, k, x.probable[k]);
    var h := HintAt(x.tel, x.srcs, x.now, x.window, k);
    assert h == Some(hints[k]);
    if x.SrcAt(k).Some? {
      SessionKeyInjective(x.srcs[k].agent, x.srcs[k].sessionID, agent, id);
    } else {
      SessionKeyInjective(x.tel[k].agent, x.tel[k].sessionID, agent, id);
    }
  }

  // ------------------------------------------------------------------ steps --

  lemma StartSafe(x: Inputs, rows: Rows)
    requires WellFormed(x, rows)
    ensures InRange(x, Start(x, rows)) && Safe(x, rows, Start(x, rows), {}, {})
  {
    StartInRange(x, rows);
  }

  /** Putting a transformed row back under the key of the session it was matched to. */
  lemma RowsAfter(st: State, rows: Rows, i: nat, row: SessionSnapshot, k: string)
    requires RowsKeyed(st) && RowsKept(st, rows) && i < |rows|
    requires SameProcess(row, st.rows[i])
    requires if k in st.byID then KeyOf(row) == KeyOf(st.rows[i]) && st.byID[k] == i else KeyOf(row) == k
    ensures RowsKeyed(st.(rows := st.rows[i := row], byID := st.byID[k := i]))
    ensures RowsKept(st.(rows := st.rows[i := row], byID := st.byID[k := i]), rows)
  {
  }

  /** The loops moved on by key k alone. */
  ghost predicate MovedOn(
      x: Inputs, st: State, tels: set<string>, srcs: set<string>, tels': set<string>, srcs': set<string>, k: string) {
    && (forall l :: Visited(x, tels', srcs', l) ==> l == k || Visited(x, tels, srcs, l))
    && (forall l :: Visited(x, tels, srcs, l) ==> Visited(x, tels', srcs', l))
    && (forall l :: l in st.logical && l != k ==> (l in srcs' <==> l in srcs))
  }

  lemma PlacedSafe(
      x: Inputs, rows: Rows, st: State, tels: set<string>, srcs: set<string>, tels': set<string>, srcs': set<string>,
      k: string, i: nat, row: SessionSnapshot, matched: set<nat>)
    requires Safe(x, rows, st, tels, srcs) && MovedOn(x, st, tels, srcs, tels', srcs', k)
    requires i < |rows| && SameProcess(row, st.rows[i]) && st.matched <= matched && k !in st.logical
    requires if k in st.byID then KeyOf(row) == KeyOf(st.rows[i]) && st.byID[k] == i else KeyOf(row) == k
    ensures Safe(x, rows, st.(rows := st.rows[i := row], matched := matched, byID := st.byID[k := i]), tels', srcs')
  {
    RowsAfter(st, rows, i, row, k);
  }

  lemma LogicalSafe(
      x: Inputs, rows: Rows, st: State, tels: set<string>, srcs: set<string>, tels': set<string>, srcs': set<string>,
      k: string)
    requires Safe(x, rows, st, tels, srcs) && MovedOn(x, st, tels, srcs, tels', srcs', k)
    requires k !in st.byID && Visited(x, tels', srcs', k)
    requires x.TelAt(k).Some? && k in x.probable ==> x.probable[k] in st.matched
    ensures Safe(x, rows, st.(logical := st.logical[k := LogicalValue(x, k, k in srcs')]), tels', srcs')
  {
  }

  lemma TelemetryMovesOn(x: Inputs, rows: Rows, st: State, tels: set<string>, k: string)
    requires Safe(x, rows, st, tels, {}) && k !in tels
    ensures MovedOn(x, st, tels, {}, tels + {k}, {}, k) && k !in st.logical
    ensures x.TelAt(k).None? ==> Safe(x, rows, st, tels + {k}, {})
  {
  }

  lemma TelemetryMatchedSafe(x: Inputs, rows: Rows, st: State, tels: set<string>, k: string, s: TelemetrySession)
    requires Sound(x, rows) && Safe(x, rows, st, tels, {}) && k in x.tel && k !in tels
    requires x.TelAt(k) == Some(s) && FindRow(x, st, s, k).Matched?
    ensures var m := FindRow(x, st, s, k);
            Safe(x, rows, st.(rows := st.rows[m.row := TakeTelemetry(st.rows[m.row], s, m.grade)],
                              matched := st.matched + {m.row}, byID := st.byID[k := m.row]), tels + {k}, {})
  {
    var m := FindRow(x, st, s, k);
    TelemetryMovesOn(x, rows, st, tels, k);
    MatchedAgent(x, rows, st, s, k);
    TakeTelemetryRow(st.rows[m.row], s, m.grade);
    assert k == SessionKey(s.agent, s.sessionID);
    PlacedSafe(x, rows, st, tels, {}, tels + {k}, {}, k, m.row, TakeTelemetry(st.rows[m.row], s, m.grade),
               st.matched + {m.row});
  }

  lemma TelemetryStepSafe(x: Inputs, rows: Rows, st: State, tels: set<string>, k: string)
    requires Sound(x, rows) && Safe(x, rows, st, tels, {}) && k in x.tel && k !in tels
    ensures Safe(x, rows, TelemetryStep(x, st, k), tels + {k}, {})
  {
    TelemetryMovesOn(x, rows, st, tels, k);
    if x.TelAt(k).Some? {
      var s := x.TelAt(k).value;
      if FindRow(x, st, s, k).Matched? {
        TelemetryMatchedSafe(x, rows, st, tels, k, s);
      } else {
        LogicalSafe(x, rows, st, tels, {}, tels + {k}, {}, k);
      }
    }
  }

  /** A logical row of k, if there is one, is telemetry's and blocks the probable match. */
  lemma LogicalBefore(x: Inputs, rows: Rows, st: State, srcs: set<string>, k: string)
    requires Sound(x, rows) && Safe(x, rows, st, x.tel.Keys, srcs) && k !in srcs && k !in st.byID
    ensures k in st.logical <==> x.TelAt(k).Some?
    ensures k in st.logical ==>
              && st.logical[k] == LogicalValue(x, k, false) && st.logical[k].session.id != ""
              && (k in x.probable ==> x.probable[k] in st.matched)
  {
  }

  lemma TranscriptMovesOn(x: Inputs, rows: Rows, st: State, srcs: set<string>, k: string)
    requires Safe(x, rows, st, x.tel.Keys, srcs) && k !in srcs
    ensures MovedOn(x, st, x.tel.Keys, srcs, x.tel.Keys, srcs + {k}, k)
    ensures x.SrcAt(k).None? ==> Safe(x, rows, st, x.tel.Keys, srcs + {k})
  {
  }

  lemma KnownTranscriptSafe(x: Inputs, rows: Rows, st: State, srcs: set<string>, k: string, s: UsageSource)
    requires Safe(x, rows, st, x.tel.Keys, srcs) && k !in srcs && k in st.byID
    ensures var i := st.byID[k];
            Safe(x, rows, st.(rows := st.rows[i := MergeTranscript(st.rows[i], s)]), x.tel.Keys, srcs + {k})
  {
    var i := st.byID[k];
    TranscriptMovesOn(x, rows, st, srcs, k);
    MergeTranscriptRow(st.rows[i], s);
    PlacedSafe(x, rows, st, x.tel.Keys, srcs, x.tel.Keys, srcs + {k}, k, i, MergeTranscript(st.rows[i], s), st.matched);
    assert st.byID[k := i] == st.byID;
  }

  lemma GuessedTranscriptSafe(x: Inputs, rows: Rows, st: State, srcs: set<string>, k: string, s: UsageSource)
    requires Sound(x, rows) && Safe(x, rows, st, x.tel.Keys, srcs) && k !in srcs
    requires x.SrcAt(k) == Some(s) && k !in st.byID && k in x.probable && x.probable[k] !in st.matched
    ensures k !in st.logical
    ensures var i := x.probable[k];
            Safe(x, rows, st.(rows := st.rows[i := TakeTranscript(st.rows[i], Get(x.tel, k), s)],
                              matched := st.matched + {i}, byID := st.byID[k := i], logical := st.logical - {k}),
                 x.tel.Keys, srcs + {k})
  {
    var i := x.probable[k];
    LogicalBefore(x, rows, st, srcs, k);
    TranscriptMovesOn(x, rows, st, srcs, k);
    assert SoundGuess(x, rows, k);
    assert SameProcess(st.rows[i], rows[i]);
    assert k == SessionKey(s.agent, s.sessionID);
    TakeTranscriptRow(st.rows[i], Get(x.tel, k), s);
    PlacedSafe(x, rows, st, x.tel.Keys, srcs, x.tel.Keys, srcs + {k}, k, i,
               TakeTranscript(st.rows[i], Get(x.tel, k), s), st.matched + {i});
    assert st.logical - {k} == st.logical;
  }

  lemma LogicalTranscriptSafe(x: Inputs, rows: Rows, st: State, srcs: set<string>, k: string, s: UsageSource)
    requires Sound(x, rows) && Safe(x, rows, st, x.tel.Keys, srcs) && k in x.srcs && k !in srcs
    requires x.SrcAt(k) == Some(s) && k !in st.byID && (k in x.probable ==> x.probable[k] in st.matched)
    ensures Safe(x, rows, st.(logical := st.logical[k := LogicalTranscript(st.logical, k, s)]), x.tel.Keys, srcs + {k})
  {
    LogicalBefore(x, rows, st, srcs, k);
    TranscriptMovesOn(x, rows, st, srcs, k);
    LogicalSafe(x, rows, st, x.tel.Keys, srcs, x.tel.Keys, srcs + {k}, k);
    assert LogicalTranscript(st.logical, k, s) == LogicalValue(x, k, true);
  }

  lemma TranscriptStepSafe(x: Inputs, rows: Rows, st: State, srcs: set<string>, k: string)
    requires Sound(x, rows) && Safe(x, rows, st, x.tel.Keys, srcs) && k in x.srcs && k !in srcs
    ensures Safe(x, rows, TranscriptStep(x, st, k), x.tel.Keys, srcs + {k})
  {
    var o := x.SrcAt(k);
    if o.None? {
      TranscriptMovesOn(x, rows, st, srcs, k);
    } else if k in st.byID {
      KnownTranscriptSafe(x, rows, st, srcs, k, o.value);
    } else if k in x.probable && x.probable[k] !in st.matched {
      GuessedTranscriptSafe(x, rows, st, srcs, k, o.value);
    } else {
      LogicalTranscriptSafe(x, rows, st, srcs, k, o.value);
    }
  }

  /** The `delete(logical, key)` of the transcript loop never finds a row to remove. */
  lemma DeleteRemovesNothing(x: Inputs, rows: Rows, st: State, srcs: set<string>, k: string)
    requires Sound(x, rows) && Safe(x, rows, st, x.tel.Keys, srcs) && k in x.srcs && k !in srcs
    ensures forall l :: l in st.logical ==> l in TranscriptStep(x, st, k).logical
  {
    var o := x.SrcAt(k);
    if o.Some? && k !in st.byID && k in x.probable && x.probable[k] !in st.matched {
      LogicalBefore(x, rows, st, srcs, k);
    }
  }

  ghost function KeySet(order: seq<string>): set<string> { set k | k in order }

  lemma OrderKeys(order: seq<string>, keys: set<string>)
    requires OrderOf(order, keys)
    ensures KeySet(order) == keys && NoDup(order) && forall k :: k in order ==> k in keys
  {
  }

  /** The last visit of an order without repeats. */
  lemma SplitLast(order: seq<string>)
    requires order != [] && NoDup(order)
    ensures var init, last := order[..|order| - 1], order[|order| - 1];
            && NoDup(init) && last !in KeySet(init) && KeySet(order) == KeySet(init) + {last}
            && last in order && (forall k :: k in init ==> k in order)
  {
  }

  lemma {:induction false} RunTelemetrySafe(x: Inputs, rows: Rows, st: State, order: seq<string>)
    requires Sound(x, rows) && Safe(x, rows, st, {}, {})
    requires NoDup(order) && forall k :: k in order ==> k in x.tel
    ensures Safe(x, rows, RunTelemetry(x, st, order), KeySet(order), {})
    decreases |order|
  {
    if order == [] {
      assert KeySet(order) == {};
    } else {
      var init, last := order[..|order| - 1], order[|order| - 1];
      SplitLast(order);
      RunTelemetrySafe(x, rows, st, init);
      TelemetryStepSafe(x, rows, RunTelemetry(x, st, init), KeySet(init), last);
    }
  }

  lemma {:induction false} RunTranscriptsSafe(x: Inputs, rows: Rows, st: State, order: seq<string>)
    requires Sound(x, rows) && Safe(x, rows, st, x.tel.Keys, {})
    requires NoDup(order) && forall k :: k in order ==> k in x.srcs
    ensures Safe(x, rows, RunTranscripts(x, st, order), x.tel.Keys, KeySet(order))
    decreases |order|
  {
    if order == [] {
      assert KeySet(order) == {};
    } else {
      var init, last := order[..|order| - 1], order[|order| - 1];
      SplitLast(order);
      RunTranscriptsSafe(x, rows, st, init);
      TranscriptStepSafe(x, rows, RunTranscripts(x, st, init), KeySet(init), last);
    }
  }

  lemma BothFrom(x: Inputs, rows: Rows, st: State, telOrder: seq<string>, srcOrder: seq<string>)
    requires Sound(x, rows) && Safe(x, rows, st, {}, {})
    requires OrderOf(telOrder, x.tel.Keys) && OrderOf(srcOrder, x.srcs.Keys)
    ensures Safe(x, rows, RunTranscripts(x, RunTelemetry(x, st, telOrder), srcOrder), x.tel.Keys, x.srcs.Keys)
  {
    OrderKeys(telOrder, x.tel.Keys);
    OrderKeys(srcOrder, x.srcs.Keys);
    RunTelemetrySafe(x, rows, st, telOrder);
    RunTranscriptsSafe(x, rows, RunTelemetry(x, st, telOrder), srcOrder);
  }

  /** Both loops, in any order of either map. */
  lemma RunBothSafe(x: Inputs, rows: Rows, telOrder: seq<string>, srcOrder: seq<string>)
    requires WellFormed(x, rows) && OrderOf(telOrder, x.tel.Keys) && OrderOf(srcOrder, x.srcs.Keys)
    ensures InRange(x, Start(x, rows))
    ensures Safe(x, rows, RunBoth(x, rows, telOrder, srcOrder), x.tel.Keys, x.srcs.Keys)
  {
    WellFormedIsSound(x, rows);
    StartSafe(x, rows);
    BothFrom(x, rows, Start(x, rows), telOrder, srcOrder);
  }
}
