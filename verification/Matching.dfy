// Evidence that connects a logical session to a process row: validated process
// identity, and the unique directory-and-time match (validTelemetryProcessIdentity,
// findProbableProcess and buildProbableProcessMatches in internal/daemon/daemon.go).
module Matching {
  import opened Base
  import opened Model
  import opened TelemetryIngest
  import opened Projects
  import Paths

  type Rows = seq<SessionSnapshot>
  type Sources = map<string, UsageSource>

  function KeyOf(row: SessionSnapshot): string { SessionKey(row.session.agent, row.session.id) }

  // ------------------------------------------------------ process identity --

  const IDENTITY_SLACK: int := 2 * SECOND
  const START_WINDOW: int := 45 * SECOND

  predicate ValidIdentity(s: TelemetrySession, rows: Rows, owner: map<int, nat>, started: map<int, Time>) {
    && s.processPID > 0 && s.processCreatedAt != 0
    && s.processPID in owner && owner[s.processPID] < |rows|
    && rows[owner[s.processPID]].resourceScope == Owned
    && rows[owner[s.processPID]].session.agent == s.agent
    && s.processPID in started && started[s.processPID] != 0
    && Magnitude(Sub(started[s.processPID], s.processCreatedAt)) <= IDENTITY_SLACK
  }

  /**
   * What the 64-bit duration test accepts: times within the slack, and, because
   * negating the least duration overflows, any start that is earlier by 2^63 ns or more.
   */
  lemma MagnitudeTest(a: Time, b: Time, slack: int)
    requires 0 <= slack < MAX_DURATION
    ensures Magnitude(Sub(a, b)) <= slack <==> -slack <= a - b <= slack || a - b <= MIN_DURATION
  {
  }

  /** So a time long before all others counts as close to them: a zero start fits any from year 293 on. */
  lemma UndatedStartFits(b: Time, slack: int)
    requires b >= -MIN_DURATION && 0 <= slack < MAX_DURATION
    ensures Magnitude(Sub(0, b)) <= slack
  {
  }

  // --------------------------------------------------------- probable match --

  datatype Hint = Hint(agent: Agent, cwd: string, startedAt: Time)

  predicate Compatible(row: SessionSnapshot, h: Hint) {
    && row.resourceScope == Owned && row.session.agent == h.agent && row.session.cwd != ""
    && Paths.Clean(row.session.cwd) == Paths.Clean(h.cwd)
    && Magnitude(Sub(row.session.startedAt, h.startedAt)) <= START_WINDOW
  }

  /** Row i is the one row not taken that fits the hint. */
  ghost predicate OnlyFreeFit(rows: Rows, taken: set<nat>, h: Hint, i: nat) {
    && h.cwd != "" && h.startedAt != 0 && i < |rows| && i !in taken && Compatible(rows[i], h)
    && forall j: nat :: j < |rows| && j !in taken && Compatible(rows[j], h) ==> j == i
  }

  /** Row i is the one row that fits the hint. */
  ghost predicate OnlyFit(rows: Rows, h: Hint, i: nat) {
    OnlyFreeFit(rows, {}, h, i)
  }

  method FindProbableProcess(rows: Rows, alreadyMatched: set<nat>, h: Hint) returns (i: nat, ok: bool)
    ensures ok ==> OnlyFreeFit(rows, alreadyMatched, h, i)
    ensures !ok ==> forall j: nat :: !OnlyFreeFit(rows, alreadyMatched, h, j)
  {
    if h.cwd == "" || h.startedAt == 0 { return 0, false; }
    var wantedCwd := Paths.Clean(h.cwd);
    var candidate := -1;
    for index := 0 to |rows|
      invariant -1 <= candidate < index
      invariant candidate >= 0 ==> candidate !in alreadyMatched && Compatible(rows[candidate], h)
      invariant forall j: nat :: j < index && j !in alreadyMatched && Compatible(rows[j], h) ==> j == candidate
    {
      var row := rows[index];
      if index in alreadyMatched || row.resourceScope != Owned || row.session.agent != h.agent
         || row.session.cwd == "" {
        continue;
      }
      if Paths.Clean(row.session.cwd) != wantedCwd { continue; }
      if Magnitude(Sub(row.session.startedAt, h.startedAt)) > START_WINDOW { continue; }
      if candidate >= 0 {
        assert Compatible(rows[candidate], h) && Compatible(rows[index], h);
        return 0, false;
      }
      candidate := index;
    }
    if candidate < 0 { return 0, false; }
    return candidate, true;
  }

  // ------------------------------------------------------------------ hints --

  /** The recent telemetry session of a key. */
  function TelAt(tel: Sessions, now: Time, window: int, key: string): Option<TelemetrySession> {
    if key in tel && RecentEnough(tel[key].updatedAt, now, window) then Some(tel[key]) else None
  }

  /** The recent transcript of a key. */
  function SrcAt(srcs: Sources, now: Time, window: int, key: string): Option<UsageSource> {
    if key in srcs && srcs[key].sessionID != "" && RecentEnough(srcs[key].updatedAt, now, window)
    then Some(srcs[key]) else None
  }

  /** Sources that name a session sit under that session's key. */
  ghost predicate KeyedByID(srcs: Sources) {
    forall k :: k in srcs && srcs[k].sessionID != "" ==> k == SessionKey(srcs[k].agent, srcs[k].sessionID)
  }

  /** A transcript's hint over the telemetry's: its directory and start win when it has them. */
  function Overlay(h: Hint, s: UsageSource): Hint {
    Hint(s.agent, if s.cwd != "" then s.cwd else h.cwd, if s.startedAt != 0 then s.startedAt else h.startedAt)
  }

  function HintFor(t: Option<TelemetrySession>, s: Option<UsageSource>): Option<Hint> {
    var base := if t.Some? then Hint(t.value.agent, t.value.cwd, t.value.startedAt) else Hint("", "", 0);
    if s.Some? then Some(Overlay(base, s.value)) else if t.Some? then Some(base) else None
  }

  function HintAt(tel: Sessions, srcs: Sources, now: Time, window: int, key: string): Option<Hint> {
    HintFor(TelAt(tel, now, window, key), SrcAt(srcs, now, window, key))
  }

  /** The hints of all recent sessions. */
  function HintsOf(tel: Sessions, srcs: Sources, now: Time, window: int): map<string, Hint> {
    map k | k in tel.Keys + srcs.Keys && HintAt(tel, srcs, now, window, k).Some? ::
      HintAt(tel, srcs, now, window, k).value
  }

  function Find(hints: map<string, Hint>, k: string): Option<Hint> {
    if k in hints then Some(hints[k]) else None
  }

  method TelemetryHints(tel: Sessions, now: Time, window: int) returns (hints: map<string, Hint>)
    requires WellKept(tel)
    ensures forall k :: Find(hints, k) == HintFor(TelAt(tel, now, window, k), None)
  {
    hints := map[];
    var rest := tel.Keys;
    while rest != {}
      invariant rest <= tel.Keys
      invariant forall k :: k in rest ==> k !in hints
      invariant forall k :: k !in rest ==> Find(hints, k) == HintFor(TelAt(tel, now, window, k), None)
    {
      var id := NextKey(rest);
      var s := tel[id];
      if RecentEnough(s.updatedAt, now, window) {
        hints := hints[SessionKey(s.agent, s.sessionID) := Hint(s.agent, s.cwd, s.startedAt)];
      }
      rest := rest - {id};
    }
  }

  method TranscriptHints(before: map<string, Hint>, tel: Sessions, srcs: Sources, now: Time, window: int)
    returns (hints: map<string, Hint>)
    requires KeyedByID(srcs)
    requires forall k :: Find(before, k) == HintFor(TelAt(tel, now, window, k), None)
    ensures forall k :: Find(hints, k) == HintAt(tel, srcs, now, window, k)
  {
    hints := before;
    var rest := srcs.Keys;
    while rest != {}
      invariant rest <= srcs.Keys
      invariant forall k :: k in rest ==> Find(hints, k) == Find(before, k)
      invariant forall k :: k !in rest ==> Find(hints, k) == HintAt(tel, srcs, now, window, k)
    {
      var id := NextKey(rest);
      var source := srcs[id];
      rest := rest - {id};
      if source.sessionID == "" || !RecentEnough(source.updatedAt, now, window) { continue; }
      var key := SessionKey(source.agent, source.sessionID);
      assert key == id && Find(hints, key) == HintFor(TelAt(tel, now, window, key), None);
      var hint := if key in hints then hints[key] else Hint("", "", 0);
      hints := hints[key := Overlay(hint, source)];
    }
  }

  method CollectHints(tel: Sessions, srcs: Sources, now: Time, window: int) returns (hints: map<string, Hint>)
    requires WellKept(tel) && KeyedByID(srcs)
    ensures hints == HintsOf(tel, srcs, now, window)
  {
    hints := TelemetryHints(tel, now, window);
    hints := TranscriptHints(hints, tel, srcs, now, window);
    SameHints(hints, tel, srcs, now, window);
  }

  lemma SameHints(hints: map<string, Hint>, tel: Sessions, srcs: Sources, now: Time, window: int)
    requires forall k :: Find(hints, k) == HintAt(tel, srcs, now, window, k)
    ensures hints == HintsOf(tel, srcs, now, window)
  {
    var all := HintsOf(tel, srcs, now, window);
    forall k ensures k in hints <==> k in all
      ensures k in hints ==> hints[k] == all[k]
    {
      assert Find(hints, k) == HintAt(tel, srcs, now, window, k);
    }
  }

  // -------------------------------------------------------------- proposals --

  /** Row i is k's only fit. */
  ghost predicate FitsOnly(hints: map<string, Hint>, rows: Rows, k: string, i: nat) {
    k in hints && OnlyFit(rows, hints[k], i)
  }

  /** Row i is k's only fit, and no other recent session's only fit. */
  ghost predicate UniquelyFits(hints: map<string, Hint>, rows: Rows, k: string, i: nat) {
    FitsOnly(hints, rows, k, i) && forall l :: FitsOnly(hints, rows, l, i) ==> l == k
  }

  /** The result of buildProbableProcessMatches, pair by pair. */
  ghost predicate AreProbable(hints: map<string, Hint>, rows: Rows, m: map<string, nat>) {
    && (forall k :: k in m ==> UniquelyFits(hints, rows, k, m[k]))
    && (forall k, i: nat :: UniquelyFits(hints, rows, k, i) ==> k in m && m[k] == i)
  }

  /** The sessions that propose row i. */
  ghost function Proposers(proposals: map<string, nat>, i: nat): set<string> {
    set k | k in proposals && proposals[k] == i
  }

  /** proposals holds exactly the only fits of the sessions in done. */
  ghost predicate AreProposals(
      hints: map<string, Hint>, rows: Rows, rest: set<string>, proposals: map<string, nat>) {
    && (forall k :: k in proposals ==> k !in rest && FitsOnly(hints, rows, k, proposals[k]))
    && (forall k, i: nat :: FitsOnly(hints, rows, k, i) && k !in rest ==> k in proposals && proposals[k] == i)
  }

  ghost predicate AreCounts(proposals: map<string, nat>, counts: map<nat, nat>) {
    && (forall k :: k in proposals ==> proposals[k] in counts)
    && (forall i :: i in counts ==> counts[i] == |Proposers(proposals, i)|)
  }

  method Propose(rows: Rows, hints: map<string, Hint>)
    returns (proposals: map<string, nat>, ownerCounts: map<nat, nat>)
    ensures AreProposals(hints, rows, {}, proposals) && AreCounts(proposals, ownerCounts)
  {
    proposals := map[];
    ownerCounts := map[];
    var rest := hints.Keys;
    while rest != {}
      invariant rest <= hints.Keys
      invariant AreProposals(hints, rows, rest, proposals) && AreCounts(proposals, ownerCounts)
    {
      var key := NextKey(rest);
      var index, ok := FindProbableProcess(rows, {}, hints[key]);
      if ok {
        OneMoreProposal(hints, rows, rest, proposals, key, index);
        OneMoreCount(proposals, ownerCounts, key, index);
        proposals := proposals[key := index];
        ownerCounts := ownerCounts[index := (if index in ownerCounts then ownerCounts[index] else 0) + 1];
      }
      rest := rest - {key};
    }
  }

  lemma OneMoreProposal(
      hints: map<string, Hint>, rows: Rows, rest: set<string>, proposals: map<string, nat>, key: string, index: nat)
    requires AreProposals(hints, rows, rest, proposals)
    requires key in rest && FitsOnly(hints, rows, key, index)
    ensures key !in proposals && AreProposals(hints, rows, rest - {key}, proposals[key := index])
  {
  }

  lemma OneMoreCount(proposals: map<string, nat>, counts: map<nat, nat>, key: string, index: nat)
    requires AreCounts(proposals, counts) && key !in proposals
    ensures AreCounts(proposals[key := index],
                      counts[index := (if index in counts then counts[index] else 0) + 1])
  {
    var after := proposals[key := index];
    assert Proposers(after, index) == Proposers(proposals, index) + {key};
    assert index !in counts ==> Proposers(proposals, index) == {};
    forall i: nat | i != index ensures Proposers(after, i) == Proposers(proposals, i) {}
  }

  method BuildProbableMatches(rows: Rows, tel: Sessions, srcs: Sources, now: Time, window: int)
    returns (confirmed: map<string, nat>)
    requires WellKept(tel) && KeyedByID(srcs)
    ensures AreProbable(HintsOf(tel, srcs, now, window), rows, confirmed)
  {
    var hints := CollectHints(tel, srcs, now, window);
    var proposals, ownerCounts := Propose(rows, hints);
    confirmed := map[];
    var rest := proposals.Keys;
    while rest != {}
      invariant rest <= proposals.Keys
      invariant forall k :: k in confirmed ==> k in proposals && confirmed[k] == proposals[k]
      invariant forall k :: k in proposals && k !in rest ==> (k in confirmed <==> ownerCounts[proposals[k]] == 1)
      invariant forall k :: k in confirmed ==> k !in rest
    {
      var key := NextKey(rest);
      if ownerCounts[proposals[key]] == 1 {
        confirmed := confirmed[key := proposals[key]];
      }
      rest := rest - {key};
    }
    ConfirmedAreProbable(hints, rows, proposals, ownerCounts, confirmed);
  }

  lemma ConfirmedAreProbable(
      hints: map<string, Hint>, rows: Rows, proposals: map<string, nat>, counts: map<nat, nat>,
      confirmed: map<string, nat>)
    requires AreProposals(hints, rows, {}, proposals) && AreCounts(proposals, counts)
    requires forall k :: k in confirmed ==> k in proposals && confirmed[k] == proposals[k]
    requires forall k :: k in proposals ==> (k in confirmed <==> counts[proposals[k]] == 1)
    ensures AreProbable(hints, rows, confirmed)
  {
    forall k | k in confirmed ensures UniquelyFits(hints, rows, k, confirmed[k]) {
      var i := confirmed[k];
      forall l | FitsOnly(hints, rows, l, i) ensures l == k {
        Singleton(Proposers(proposals, i), k, l);
      }
    }
    forall k, i: nat | UniquelyFits(hints, rows, k, i) ensures k in confirmed && confirmed[k] == i {
      assert k in proposals && proposals[k] == i;
      assert Proposers(proposals, i) == {k};
    }
  }

  lemma Singleton<T>(s: set<T>, x: T, y: T)
    requires |s| == 1 && x in s && y in s
    ensures x == y
  {
    assert |s - {x}| == 0;
    assert x != y ==> y in s - {x};
  }

  /** No two sessions are matched to one row, and the map has no freedom. */
  lemma ProbableInjective(hints: map<string, Hint>, rows: Rows, m: map<string, nat>, m': map<string, nat>)
    requires AreProbable(hints, rows, m) && AreProbable(hints, rows, m')
    ensures m == m'
    ensures forall k, l :: k in m && l in m && m[k] == m[l] ==> k == l
  {
  }
}
