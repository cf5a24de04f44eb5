// What a telemetry session is matched to, told by what the process rows show: its own row,
// the row with its launch ID, the row whose tree shows its process, or a guess
// (composeSessionsLocked and validTelemetryProcessIdentity in internal/daemon/daemon.go).
module ComposeEvidence {
  import opened Base
  import opened ComposeSafety
  import opened Composition
  import opened Matching
  import opened Model
  import opened ProcessTree
  import opened RowTables
  import opened TelemetryIngest
  import Paths

  // ---------------------------------------------------------- what rows show --

  /** Row i is the last with this agent and ID. */
  ghost predicate OwnRow(rows: Rows, k: string, i: nat) {
    && i < |rows| && rows[i].session.agent + ":" + rows[i].session.id == k
    && forall j :: i < j < |rows| ==> rows[j].session.agent + ":" + rows[j].session.id != k
  }

  /** Row i is the last with the session's agent and launch ID. */
  ghost predicate LaunchRow(rows: Rows, t: TelemetrySession, i: nat) {
    && t.launchID != "" && i < |rows| && CarriesLaunch(rows[i], t)
    && forall j :: i < j < |rows| ==> !CarriesLaunch(rows[j], t)
  }

  predicate CarriesLaunch(row: SessionSnapshot, t: TelemetrySession) {
    && row.session.launchID != ""
    && row.session.agent + ":" + row.session.launchID == t.agent + ":" + t.launchID
  }

  /** The last entry for pid in a list of processes started then. */
  ghost predicate StartedIn(procs: seq<Process>, pid: int, start: Time) {
    exists j :: 0 <= j < |procs| && procs[j].pid == pid && procs[j].startedAt == start &&
                forall m :: j < m < |procs| ==> procs[m].pid != pid
  }

  /** Row i is the last whose tree shows pid, and shows it with this start. */
  ghost predicate ShowsProcess(rows: Rows, i: nat, pid: int, start: Time) {
    && i < |rows| && StartedIn(Flatten(rows[i].processTree), pid, start)
    && forall j, p :: i < j < |rows| && p in Flatten(rows[j].processTree) ==> p.pid != pid
  }

  /** Two seconds apart at most, or so far that the difference overflows. */
  predicate CloseStart(start: Time, created: Time) {
    -2_000_000_000 <= start - created <= 2_000_000_000 || start - created <= -0x8000_0000_0000_0000
  }

  /** An owned row of the session's agent shows the session's process, started when the session says. */
  ghost predicate ProcessRow(rows: Rows, t: TelemetrySession, i: nat) {
    && t.processPID > 0 && t.processCreatedAt != 0
    && i < |rows| && rows[i].resourceScope == Owned && rows[i].session.agent == t.agent
    && exists start :: start != 0 && ShowsProcess(rows, i, t.processPID, start) && CloseStart(start, t.processCreatedAt)
  }

  // --------------------------------------------------------------- the tables --

  lemma StartedBefore(procs: seq<Process>, pid: int, start: Time)
    requires procs != [] && procs[|procs| - 1].pid != pid && StartedIn(procs[..|procs| - 1], pid, start)
    ensures StartedIn(procs, pid, start)
  {
    var init := procs[..|procs| - 1];
    var j :| 0 <= j < |init| && init[j].pid == pid && init[j].startedAt == start &&
             forall m :: j < m < |init| ==> init[m].pid != pid;
    assert procs[j] == init[j] && forall m :: j < m < |init| ==> procs[m] == init[m];
  }

  lemma ListedBefore(procs: seq<Process>, pid: int)
    requires procs != [] && procs[|procs| - 1].pid != pid && Lists(procs, pid)
    ensures Lists(procs[..|procs| - 1], pid)
  {
    var q :| q in procs && q.pid == pid;
    assert procs == procs[..|procs| - 1] + [procs[|procs| - 1]];
    assert q in procs[..|procs| - 1];
  }

  lemma {:induction false} StartInIs(procs: seq<Process>, pid: int)
    ensures Lists(procs, pid) ==> StartedIn(procs, pid, StartIn(procs, pid))
    decreases |procs|
  {
    if procs != [] && Lists(procs, pid) && procs[|procs| - 1].pid != pid {
      ListedBefore(procs, pid);
      StartInIs(procs[..|procs| - 1], pid);
      StartedBefore(procs, pid, StartIn(procs, pid));
    }
  }

  lemma StartedInUnique(procs: seq<Process>, pid: int, a: Time, b: Time)
    requires StartedIn(procs, pid, a) && StartedIn(procs, pid, b)
    ensures a == b && Lists(procs, pid)
  {
    var j :| 0 <= j < |procs| && procs[j].pid == pid && procs[j].startedAt == a &&
             forall m :: j < m < |procs| ==> procs[m].pid != pid;
    assert procs[j] in procs;
  }

  /** The owner and start tables say which row is the last to show a pid, and since when. */
  lemma OwnerShows(x: RowIndex, rows: Rows, pid: int, i: nat, start: Time)
    requires IsIndex(x, rows)
    ensures pid in x.owner && x.owner[pid] == i && x.started[pid] == start <==> ShowsProcess(rows, i, pid, start)
  {
    if pid in x.owner {
      StartInIs(Flatten(rows[x.owner[pid]].processTree), pid);
      assert LastHolder(rows, pid, x.owner[pid]);
    }
    if ShowsProcess(rows, i, pid, start) {
      StartedInUnique(Flatten(rows[i].processTree), pid, start, start);
      assert LastHolder(rows, pid, i);
      SameHolder(x, rows, pid, i);
      StartedInUnique(Flatten(rows[i].processTree), pid, start, x.started[pid]);
    } else if pid in x.owner && x.owner[pid] == i && x.started[pid] == start {
      HolderShows(rows, pid, i, start);
    }
  }

  lemma SameHolder(x: RowIndex, rows: Rows, pid: int, i: nat)
    requires IsIndex(x, rows) && LastHolder(rows, pid, i)
    ensures pid in x.owner && x.owner[pid] == i
  {
    assert LastHolder(rows, pid, x.owner[pid]);
  }

  lemma HolderShows(rows: Rows, pid: int, i: nat, start: Time)
    requires LastHolder(rows, pid, i) && StartedIn(Flatten(rows[i].processTree), pid, start)
    ensures ShowsProcess(rows, i, pid, start)
  {
    forall j, p | i < j < |rows| && p in Flatten(rows[j].processTree) ensures p.pid != pid {
      assert !Lists(Flatten(rows[j].processTree), pid);
    }
  }

  /** Validated process identity, exactly. */
  lemma IdentityExactly(x: RowIndex, rows: Rows, t: TelemetrySession, i: nat)
    requires IsIndex(x, rows)
    ensures ValidIdentity(t, rows, x.owner, x.started) && x.owner[t.processPID] == i <==> ProcessRow(rows, t, i)
  {
    var pid := t.processPID;
    if pid in x.owner {
      OwnerShows(x, rows, pid, x.owner[pid], x.started[pid]);
      MagnitudeTest(x.started[pid], t.processCreatedAt, 2_000_000_000);
    }
    if ProcessRow(rows, t, i) {
      var start :| start != 0 && ShowsProcess(rows, i, pid, start) && CloseStart(start, t.processCreatedAt);
      OwnerShows(x, rows, pid, i, start);
    }
  }

  lemma LaunchExactly(x: RowIndex, rows: Rows, t: TelemetrySession, i: nat)
    requires IsIndex(x, rows)
    ensures var k := SessionKey(t.agent, t.launchID);
            LaunchRow(rows, t, i) <==> t.launchID != "" && k in x.byLaunch && x.byLaunch[k] == i
  {
    var k := SessionKey(t.agent, t.launchID);
    if t.launchID != "" {
      assert LaunchRow(rows, t, i) <==> LastLaunch(rows, k, i);
      if LastLaunch(rows, k, i) { assert LastLaunch(rows, k, x.byLaunch[k]); }
    }
  }

  lemma OwnExactly(x: RowIndex, rows: Rows, k: string, i: nat)
    requires IsIndex(x, rows)
    ensures k in x.byID && x.byID[k] == i <==> OwnRow(rows, k, i)
  {
    assert OwnRow(rows, k, i) <==> LastKeyed(rows, k, i);
    if LastKeyed(rows, k, i) { assert LastKeyed(rows, k, x.byID[k]); }
  }

  // ------------------------------------------------------------- the decision --

  /** Identity does not look at what the loops change in rows. */
  lemma IdentityKept(x: RowIndex, rows: Rows, st: State, t: TelemetrySession)
    requires RowsKept(st, rows)
    ensures ValidIdentity(t, st.rows, x.owner, x.started) <==> ValidIdentity(t, rows, x.owner, x.started)
  {
  }

  /**
   * The row a session is matched to at any point of the telemetry loop, grade by grade:
   * the row the ID table gives it; else the last row with its launch ID; else the row that
   * shows its process, unless that is taken; else its guess, unless that is taken.
   */
  lemma FindRowExactly(x: Inputs, rows: Rows, st: State, t: TelemetrySession, k: string, i: nat)
    requires IsIndex(x.index, rows) && RowsKept(st, rows) && InRange(x, st)
    ensures var m := FindRow(x, st, t, k);
            && (m == Matched(i, ByID) <==> k in st.byID && st.byID[k] == i)
            && (m == Matched(i, ByLaunch) <==> k !in st.byID && LaunchRow(rows, t, i))
            && (m == Matched(i, ByProcess) <==>
                  && k !in st.byID && (forall j: nat :: !LaunchRow(rows, t, j))
                  && ProcessRow(rows, t, i) && i !in st.matched)
            && (m == Matched(i, ByGuess) <==>
                  && k !in st.byID && (forall j: nat :: !LaunchRow(rows, t, j))
                  && (forall j: nat :: ProcessRow(rows, t, j) ==> j in st.matched)
                  && k in x.probable && x.probable[k] == i && i !in st.matched)
  {
    LaunchRows(x.index, rows, t, i);
    IdentityKept(x.index, rows, st, t);
    ProcessRows(x.index, rows, t, i);
  }

  /** The launch table has the session's launch exactly if some row is its launch row. */
  lemma LaunchRows(x: RowIndex, rows: Rows, t: TelemetrySession, i: nat)
    requires IsIndex(x, rows)
    ensures var k := SessionKey(t.agent, t.launchID);
            && (LaunchRow(rows, t, i) <==> t.launchID != "" && k in x.byLaunch && x.byLaunch[k] == i)
            && ((forall j: nat :: !LaunchRow(rows, t, j)) <==> !(t.launchID != "" && k in x.byLaunch))
  {
    LaunchExactly(x, rows, t, i);
    var k := SessionKey(t.agent, t.launchID);
    if k in x.byLaunch { LaunchExactly(x, rows, t, x.byLaunch[k]); }
    if j: nat :| LaunchRow(rows, t, j) { LaunchExactly(x, rows, t, j); }
  }

  lemma ProcessRows(x: RowIndex, rows: Rows, t: TelemetrySession, i: nat)
    requires IsIndex(x, rows)
    ensures var valid := ValidIdentity(t, rows, x.owner, x.started);
            && (ProcessRow(rows, t, i) <==> valid && x.owner[t.processPID] == i)
            && (forall j: nat :: ProcessRow(rows, t, j) <==> valid && x.owner[t.processPID] == j)
  {
    forall j: nat
      ensures ProcessRow(rows, t, j) <==> ValidIdentity(t, rows, x.owner, x.started) && x.owner[t.processPID] == j
    {
      IdentityExactly(x, rows, t, j);
    }
  }

  /** At the start of the loop the ID table gives a session the last row with its agent and ID. */
  lemma OwnRowFirst(x: Inputs, rows: Rows, k: string, i: nat)
    requires IsIndex(x.index, rows)
    ensures k in Start(x, rows).byID && Start(x, rows).byID[k] == i <==> OwnRow(rows, k, i)
  {
    OwnExactly(x.index, rows, k, i);
  }

  // ------------------------------------------------------------- recent enough --

  /** Which sessions take part: those updated within the window before now. */
  lemma RecentExactly(x: Inputs, k: string)
    ensures x.TelAt(k).Some? <==> k in x.tel && x.tel[k].updatedAt != 0 && x.now - x.tel[k].updatedAt <= x.window
    ensures x.TelAt(k).Some? ==> x.TelAt(k).value == x.tel[k]
    ensures x.SrcAt(k).Some? <==>
            && k in x.srcs && x.srcs[k].sessionID != ""
            && x.srcs[k].updatedAt != 0 && x.now - x.srcs[k].updatedAt <= x.window
    ensures x.SrcAt(k).Some? ==> x.SrcAt(k).value == x.srcs[k]
  {
  }

  /** A row that can be guessed: owned, the hint's agent and cleaned directory, started 45 seconds apart at most. */
  lemma CompatibleExactly(row: SessionSnapshot, h: Hint)
    ensures Compatible(row, h) <==>
            && row.resourceScope == Owned && row.session.agent == h.agent && row.session.cwd != ""
            && Paths.Clean(row.session.cwd) == Paths.Clean(h.cwd)
            && (-45_000_000_000 <= row.session.startedAt - h.startedAt <= 45_000_000_000
                || row.session.startedAt - h.startedAt <= -0x8000_0000_0000_0000)
  {
    MagnitudeTest(row.session.startedAt, h.startedAt, 45_000_000_000);
  }

  /** The hint of a recent session: the transcript's directory and start where it has them, else telemetry's. */
  lemma HintFields(tel: Sessions, srcs: Sources, now: Time, window: int, k: string)
    requires k in HintsOf(tel, srcs, now, window)
    ensures var h, t, s := HintsOf(tel, srcs, now, window)[k], TelAt(tel, now, window, k), SrcAt(srcs, now, window, k);
            && (t.Some? || s.Some?)
            && h.agent == (if s.Some? then s.value.agent else t.value.agent)
            && h.cwd == (if s.Some? && s.value.cwd != "" then s.value.cwd else if t.Some? then t.value.cwd else "")
            && h.startedAt == (if s.Some? && s.value.startedAt != 0 then s.value.startedAt
                               else if t.Some? then t.value.startedAt else 0)
  {
  }
}
