// Composing logical sessions with process rows (composeSessionsLocked and its merge
// helpers in internal/daemon/daemon.go), one session at a time. Go visits both maps
// in random order; here the order is an argument.
module Composition {
  import opened Base
  import opened Matching
  import opened Model
  import opened ProcessTree
  import opened TelemetryIngest

  // --------------------------------------------------------- row transforms --

  function MergeTelemetry(t: SessionSnapshot, s: TelemetrySession): SessionSnapshot {
    var adopt := t.session.cwd == "" && s.cwd != "";
    t.(
      usage := s.usage, metrics := s.metrics, usageUpdatedAt := s.updatedAt,
      session := t.session.(
        cwd := if adopt then s.cwd else t.session.cwd,
        project := if adopt then s.project else t.session.project,
        model := if t.session.model == "" then s.model else t.session.model,
        lastActivityAt := if s.updatedAt > t.session.lastActivityAt then s.updatedAt else t.session.lastActivityAt))
  }

  function MergeTranscript(t: SessionSnapshot, s: UsageSource): SessionSnapshot {
    var adopt := t.session.cwd == "";
    t.(
      usage := s.usage, usageUpdatedAt := s.updatedAt,
      session := t.session.(
        cwd := if adopt then s.cwd else t.session.cwd,
        project := if adopt then s.project else t.session.project,
        model := if t.session.model == "" then s.model else t.session.model,
        transcriptPath := if t.session.transcriptPath == "" then s.path else t.session.transcriptPath,
        lastActivityAt := if s.updatedAt > t.session.lastActivityAt then s.updatedAt else t.session.lastActivityAt,
        source := if t.resourceScope == NoResources then Transcript else t.session.source))
  }

  function Canonicalize(t: SessionSnapshot, id: string, launchID: string): SessionSnapshot {
    t.(session := t.session.(
      launchID := if launchID != "" then launchID else t.session.launchID,
      id := if id != "" then id else t.session.id))
  }

  function SetConfidence(t: SessionSnapshot, confidence: Attribution): SessionSnapshot {
    t.(attribution := match t.resourceScope
                      case Shared => SharedTree
                      case NoResources => NoAttribution
                      case Owned => confidence)
  }

  function FromTelemetry(s: TelemetrySession): SessionSnapshot {
    SessionSnapshot(
      Session(s.sessionID, "", s.agent, if s.project == "" then "Codex task" else s.project, s.cwd, 0, 0, s.startedAt,
              None, Active, Telemetry, s.updatedAt, "", s.model),
      [], 0, 0.0, 0, 0, [], [], s.usage, s.updatedAt, s.metrics, NoResources, NoAttribution)
  }

  function FromTranscript(s: UsageSource): SessionSnapshot {
    SessionSnapshot(
      Session(s.sessionID, "", s.agent, s.project, s.cwd, 0, 0, s.startedAt, None,
              if s.archived then Ended else Active, Transcript, s.updatedAt, s.path, s.model),
      [], 0, 0.0, 0, 0, [], [], s.usage, s.updatedAt, NO_METRICS, NoResources, NoAttribution)
  }

  // -------------------------------------------------------------- row index --

  /** Lookup tables over the sorted process rows; a later row wins. */
  datatype RowIndex = RowIndex(
    byID: map<string, nat>, byLaunch: map<string, nat>, owner: map<int, nat>, started: map<int, Time>)

  function AddProcesses(x: RowIndex, procs: seq<Process>, i: nat): RowIndex {
    if procs == [] then x
    else
      var y, p := AddProcesses(x, procs[..|procs| - 1], i), procs[|procs| - 1];
      y.(owner := y.owner[p.pid := i], started := y.started[p.pid := p.startedAt])
  }

  function LaunchKey(row: SessionSnapshot): string { SessionKey(row.session.agent, row.session.launchID) }

  function AddRow(x: RowIndex, row: SessionSnapshot, i: nat): RowIndex {
    AddProcesses(
      x.(byID := x.byID[KeyOf(row) := i],
         byLaunch := if row.session.launchID != "" then x.byLaunch[LaunchKey(row) := i] else x.byLaunch),
      Flatten(row.processTree), i)
  }

  function IndexRows(rows: Rows): RowIndex {
    if rows == [] then RowIndex(map[], map[], map[], map[])
    else AddRow(IndexRows(rows[..|rows| - 1]), rows[|rows| - 1], |rows| - 1)
  }

  // What the tables mean, whatever built them: the last row wins.

  ghost predicate Lists(procs: seq<Process>, p: int) {
    exists q :: q in procs && q.pid == p
  }

  function StartIn(procs: seq<Process>, p: int): Time {
    if procs == [] then 0
    else if procs[|procs| - 1].pid == p then procs[|procs| - 1].startedAt
    else StartIn(procs[..|procs| - 1], p)
  }

  /** Row i is the last one with key k. */
  ghost predicate LastKeyed(rows: Rows, k: string, i: nat) {
    && i < |rows| && KeyOf(rows[i]) == k
    && forall j :: i < j < |rows| ==> KeyOf(rows[j]) != k
  }

  /** Row i is the last one with launch key k. */
  ghost predicate LastLaunch(rows: Rows, k: string, i: nat) {
    && i < |rows| && rows[i].session.launchID != "" && LaunchKey(rows[i]) == k
    && forall j :: i < j < |rows| ==> rows[j].session.launchID == "" || LaunchKey(rows[j]) != k
  }

  /** Row i is the last one whose tree shows p. */
  ghost predicate LastHolder(rows: Rows, p: int, i: nat) {
    && i < |rows| && Lists(Flatten(rows[i].processTree), p)
    && forall j :: i < j < |rows| ==> !Lists(Flatten(rows[j].processTree), p)
  }

  ghost predicate IsIndex(x: RowIndex, rows: Rows) {
    && (forall k :: k in x.byID ==> LastKeyed(rows, k, x.byID[k]))
    && (forall k, i: nat :: LastKeyed(rows, k, i) ==> k in x.byID)
    && (forall k :: k in x.byLaunch ==> LastLaunch(rows, k, x.byLaunch[k]))
    && (forall k, i: nat :: LastLaunch(rows, k, i) ==> k in x.byLaunch)
    && x.owner.Keys == x.started.Keys
    && (forall p :: p in x.owner ==>
          LastHolder(rows, p, x.owner[p]) && x.started[p] == StartIn(Flatten(rows[x.owner[p]].processTree), p))
    && (forall p, i: nat :: LastHolder(rows, p, i) ==> p in x.owner)
  }

  // ------------------------------------------------------------------ state --

  /** What the composition of one snapshot reads. */
  datatype Inputs = Inputs(
    tel: Sessions, srcs: Sources, now: Time, window: int, index: RowIndex, probable: map<string, nat>) {

    function TelAt(k: string): Option<TelemetrySession> { Matching.TelAt(tel, now, window, k) }

    function SrcAt(k: string): Option<UsageSource> { Matching.SrcAt(srcs, now, window, k) }

    predicate IsRecent(k: string) { TelAt(k).Some? || SrcAt(k).Some? }
  }

  /** What it updates: process rows, the ID table, the matched rows, the logical rows. */
  datatype State = State(
    rows: Rows, byID: map<string, nat>, matched: set<nat>, logical: map<string, SessionSnapshot>)

  datatype Grade = ByID | ByLaunch | ByProcess | ByGuess

  datatype Match = Unmatched | Matched(row: nat, grade: Grade)

  /** Every table points at an existing row. */
  predicate InRange(x: Inputs, st: State) {
    && (forall k :: k in st.byID ==> st.byID[k] < |st.rows|)
    && (forall k :: k in x.index.byLaunch ==> x.index.byLaunch[k] < |st.rows|)
    && (forall p :: p in x.index.owner ==> x.index.owner[p] < |st.rows|)
    && (forall k :: k in x.probable ==> x.probable[k] < |st.rows|)
  }

  /** The four grades of evidence in order; the two weaker ones skip a row that is taken. */
  function FindRow(x: Inputs, st: State, s: TelemetrySession, k: string): (m: Match)
    requires InRange(x, st)
    ensures m.Matched? ==> m.row < |st.rows|
  {
    var launch := SessionKey(s.agent, s.launchID);
    if k in st.byID then Matched(st.byID[k], ByID)
    else if s.launchID != "" && launch in x.index.byLaunch then Matched(x.index.byLaunch[launch], ByLaunch)
    else if ValidIdentity(s, st.rows, x.index.owner, x.index.started) && x.index.owner[s.processPID] !in st.matched
    then Matched(x.index.owner[s.processPID], ByProcess)
    else if k in x.probable && x.probable[k] !in st.matched then Matched(x.probable[k], ByGuess)
    else Unmatched
  }

  /** A process row that a telemetry session was matched to. */
  function TakeTelemetry(row: SessionSnapshot, s: TelemetrySession, grade: Grade): SessionSnapshot {
    var merged := MergeTelemetry(row, s);
    SetConfidence(if grade == ByID then merged else Canonicalize(merged, s.sessionID, s.launchID),
                  if grade == ByGuess then Probable else Confirmed)
  }

  /** A process row that only a transcript was matched to; older telemetry comes along. */
  function TakeTranscript(row: SessionSnapshot, t: Option<TelemetrySession>, s: UsageSource): SessionSnapshot {
    var merged := MergeTranscript(if t.Some? then MergeTelemetry(row, t.value) else row, s);
    SetConfidence(Canonicalize(merged, s.sessionID, ""), Probable)
  }

  function TelemetryStep(x: Inputs, st: State, k: string): (r: State)
    requires InRange(x, st)
    ensures InRange(x, r) && |r.rows| == |st.rows|
  {
    var t := x.TelAt(k);
    if t.None? then st
    else
      var m := FindRow(x, st, t.value, k);
      if m.Unmatched? then st.(logical := st.logical[k := FromTelemetry(t.value)])
      else st.(rows := st.rows[m.row := TakeTelemetry(st.rows[m.row], t.value, m.grade)],
               matched := st.matched + {m.row}, byID := st.byID[k := m.row])
  }

  function TranscriptStep(x: Inputs, st: State, k: string): (r: State)
    requires InRange(x, st)
    ensures InRange(x, r) && |r.rows| == |st.rows|
  {
    var s := x.SrcAt(k);
    if s.None? then st
    else if k in st.byID then
      var i := st.byID[k];
      st.(rows := st.rows[i := MergeTranscript(st.rows[i], s.value)])
    else if k in x.probable && x.probable[k] !in st.matched then
      var i := x.probable[k];
      st.(rows := st.rows[i := TakeTranscript(st.rows[i], Get(x.tel, k), s.value)],
          matched := st.matched + {i}, byID := st.byID[k := i], logical := st.logical - {k})
    else
      st.(logical := st.logical[k := LogicalTranscript(st.logical, k, s.value)])
  }

  /** The logical row of a transcript, on top of a telemetry one if there is one. */
  function LogicalTranscript(logical: map<string, SessionSnapshot>, k: string, s: UsageSource): SessionSnapshot {
    if k in logical && logical[k].session.id != "" then MergeTranscript(logical[k], s) else FromTranscript(s)
  }

  function RunTelemetry(x: Inputs, st: State, order: seq<string>): (r: State)
    requires InRange(x, st)
    ensures InRange(x, r) && |r.rows| == |st.rows|
  {
    if order == [] then st
    else TelemetryStep(x, RunTelemetry(x, st, order[..|order| - 1]), order[|order| - 1])
  }

  function RunTranscripts(x: Inputs, st: State, order: seq<string>): (r: State)
    requires InRange(x, st)
    ensures InRange(x, r) && |r.rows| == |st.rows|
  {
    if order == [] then st
    else TranscriptStep(x, RunTranscripts(x, st, order[..|order| - 1]), order[|order| - 1])
  }

  function Start(x: Inputs, rows: Rows): State { State(rows, x.index.byID, {}, map[]) }

  /** Both loops, over some order of each map. */
  function RunBoth(x: Inputs, rows: Rows, telOrder: seq<string>, srcOrder: seq<string>): State
    requires InRange(x, Start(x, rows))
  {
    RunTranscripts(x, RunTelemetry(x, Start(x, rows), telOrder), srcOrder)
  }

  ghost predicate OrderOf(order: seq<string>, keys: set<string>) {
    NoDup(order) && forall k :: k in order <==> k in keys
  }

  // ------------------------------------------------------------- well-formed --

  /** x is what composeSessionsLocked derives from keyed maps and sorted rows. */
  ghost predicate Consistent(x: Inputs, rows: Rows) {
    && WellKept(x.tel) && KeyedByID(x.srcs)
    && IsIndex(x.index, rows)
    && AreProbable(HintsOf(x.tel, x.srcs, x.now, x.window), rows, x.probable)
  }

  /** And its keys tell sessions apart: agent names have no colon, and rows have different keys. */
  ghost predicate WellFormed(x: Inputs, rows: Rows) {
    && Consistent(x, rows)
    && (forall k :: k in x.tel ==> ':' !in x.tel[k].agent)
    && (forall k :: k in x.srcs ==> ':' !in x.srcs[k].agent)
    && (forall i :: 0 <= i < |rows| ==> ':' !in rows[i].session.agent)
    && (forall i, j :: 0 <= i < j < |rows| ==> KeyOf(rows[i]) != KeyOf(rows[j]))
  }

  lemma ConsistentInRange(x: Inputs, rows: Rows)
    requires Consistent(x, rows)
    ensures InRange(x, Start(x, rows))
  {
    forall k | k in x.probable ensures x.probable[k] < |rows| {
      assert UniquelyFits(HintsOf(x.tel, x.srcs, x.now, x.window), rows, k, x.probable[k]);
    }
  }

  lemma StartInRange(x: Inputs, rows: Rows)
    requires WellFormed(x, rows)
    ensures InRange(x, Start(x, rows))
    ensures forall i :: 0 <= i < |rows| ==> KeyOf(rows[i]) in x.index.byID && x.index.byID[KeyOf(rows[i])] == i
  {
    ConsistentInRange(x, rows);
    forall i: nat | i < |rows| ensures KeyOf(rows[i]) in x.index.byID && x.index.byID[KeyOf(rows[i])] == i {
      assert LastKeyed(rows, KeyOf(rows[i]), i);
      var j := x.index.byID[KeyOf(rows[i])];
      assert LastKeyed(rows, KeyOf(rows[i]), j);
    }
  }
}
