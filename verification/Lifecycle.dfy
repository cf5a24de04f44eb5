// Session lifecycle and durable peak memory (HandleEvent, Tick and New in
// internal/daemon/daemon.go, over the store of internal/db/db.go). The daemon changes
// memory under a lock and writes copies to the store afterwards, so a write may land
// any time later, after newer ones.
module Lifecycle {
  import opened Base
  import opened Model
  import opened ProcScan
  import opened ProcessTree
  import opened Store
  import Paths

  type Tracked = map<string, Record>

  datatype EventKind = SessionStart | SessionEnd | UserPromptSubmit | PreToolUse | PostToolUse | Other(text: string)

  datatype HookEvent = HookEvent(
    kind: EventKind, sessionID: string, agent: Agent, cwd: string, pid: int, launchID: string,
    transcriptPath: string, model: string, timestamp: Time)

  const GRACE: int := 300 * SECOND
  const REHYDRATE_LIMIT: nat := 200

  // ------------------------------------------------------------ hook events --

  predicate Accepted(e: HookEvent) { e.sessionID != "" && !e.kind.Other? }

  function Stamped(e: HookEvent, now: Time): HookEvent {
    if e.timestamp == 0 then e.(timestamp := now) else e
  }

  function NewSession(id: string): Session {
    Session(id, "", "", "", "", 0, 0, 0, None, Active, Hook, 0, "", "")
  }

  function DirectoryName(cwd: string): string {
    var name := Paths.Base(cwd);
    if name == "." || name == "" then "unknown" else name
  }

  /** The switch of HandleEvent, on the session tracked so far. */
  function Transition(known: Option<Session>, e: HookEvent): Session
    requires Accepted(e)
  {
    var s := if known.Some? then known.value else NewSession(e.sessionID);
    match e.kind
    case SessionStart =>
      s.(agent := e.agent, cwd := e.cwd, project := DirectoryName(e.cwd), rootPID := e.pid,
         startedAt := e.timestamp, lastActivityAt := e.timestamp, state := Active, endedAt := None)
    case SessionEnd =>
      s.(startedAt := if known.Some? then s.startedAt else e.timestamp,
         endedAt := Some(e.timestamp), state := Ended, lastActivityAt := e.timestamp)
    case _ =>
      if known.Some? then s.(lastActivityAt := e.timestamp)
      else s.(agent := e.agent, startedAt := e.timestamp, lastActivityAt := e.timestamp)
  }

  /** What any accepted event adds when it carries it. */
  function Detailed(s: Session, e: HookEvent): Session {
    s.(transcriptPath := if e.transcriptPath != "" then e.transcriptPath else s.transcriptPath,
       model := if e.model != "" then e.model else s.model,
       launchID := if e.launchID != "" then e.launchID else s.launchID)
  }

  function AfterEvent(t: Tracked, e: HookEvent): Record
    requires Accepted(e)
  {
    var id := e.sessionID;
    if id in t then Record(Detailed(Transition(Some(t[id].session), e), e), t[id].peak)
    else Record(Detailed(Transition(None, e), e), 0)
  }

  function Handled(t: Tracked, e: HookEvent, now: Time): Tracked {
    if Accepted(e) then t[e.sessionID := AfterEvent(t, Stamped(e, now))] else t
  }

  // ------------------------------------------------------------------ ticks --

  predicate Expired(s: Session, now: Time) {
    s.state == Ended && s.endedAt.Some? && Sub(now, s.endedAt.value) > GRACE
  }

  function Observed(session: Session, s: Snapshot): Session {
    if session.rootPID in s.processes && session.processStartedAt == 0
    then session.(processStartedAt := s.processes[session.rootPID].startedAt) else session
  }

  ghost function Rescanned(r: Record, s: Snapshot): Record {
    Record(Observed(r.session, s), Higher(AttributedRss(s, r.session.rootPID), r.peak))
  }

  ghost function Surviving(t: Tracked, now: Time): set<string> {
    set id | id in t && !Expired(t[id].session, now)
  }

  ghost function Ticked(t: Tracked, s: Snapshot, now: Time): Tracked {
    map id | id in Surviving(t, now) :: Rescanned(t[id], s)
  }

  /** The sessions whose high-water mark a tick raised. */
  ghost function Raised(t: Tracked, s: Snapshot, now: Time): set<string> {
    set id | id in Surviving(t, now) && AttributedRss(s, t[id].session.rootPID) > t[id].peak
  }

  ghost function Copies(t: Tracked, ids: set<string>): set<Record>
    requires ids <= t.Keys
  {
    set id | id in ids :: t[id]
  }

  // --------------------------------------------------------------- restarts --

  /** New picks up the sessions that were active when the daemon stopped. */
  function Rehydrated(recent: seq<Record>): Tracked {
    if recent == [] then map[]
    else
      var t, r := Rehydrated(recent[..|recent| - 1]), recent[|recent| - 1];
      if r.session.state == Active then t[r.session.id := r] else t
  }

  method RehydrateSessions(recent: seq<Record>) returns (t: Tracked)
    ensures t == Rehydrated(recent)
  {
    t := map[];
    for i := 0 to |recent|
      invariant t == Rehydrated(recent[..i])
    {
      assert recent[..i + 1][..i] == recent[..i];
      if recent[i].session.state == Active {
        t := t[recent[i].session.id := recent[i]];
      }
    }
    assert recent[..|recent|] == recent;
  }

  lemma {:induction false} RehydratedEntries(recent: seq<Record>, id: string)
    ensures id in Rehydrated(recent) ==>
              Rehydrated(recent)[id] in recent && Rehydrated(recent)[id].session.id == id &&
              Rehydrated(recent)[id].session.state == Active
    ensures (exists r :: r in recent && r.session.id == id && r.session.state == Active) ==> id in Rehydrated(recent)
    decreases |recent|
  {
    if recent != [] {
      var init, last := recent[..|recent| - 1], recent[|recent| - 1];
      assert recent == init + [last];
      RehydratedEntries(init, id);
    }
  }

  // ------------------------------------------------------------------- runs --

  /** A total some tick attributed to a session. */
  datatype Attributed = Attributed(id: string, total: U64)

  /** Memory, store, copies still to be written, and every total attributed since the first start. */
  datatype World = World(sessions: Tracked, files: Files, pending: multiset<Record>, log: set<Attributed>)

  datatype Step =
    | Handle(e: HookEvent, now: Time)
    | Tick(s: Snapshot, now: Time)
    | Write(r: Record)
    | Restart(recent: seq<Record>)
    | Crash(recent: seq<Record>)

  ghost function Totals(t: Tracked, s: Snapshot, now: Time): set<Attributed> {
    set id | id in Surviving(t, now) :: Attributed(id, AttributedRss(s, t[id].session.rootPID))
  }

  ghost predicate Next(w: World, w': World, step: Step) {
    match step
    case Handle(e, now) =>
      if !Accepted(e) then w' == w
      else
        var t := Handled(w.sessions, e, now);
        w' == w.(sessions := t, pending := w.pending + multiset{t[e.sessionID]})
    case Tick(s, now) =>
      var t := Ticked(w.sessions, s, now);
      w' == w.(sessions := t, pending := w.pending + multiset(Copies(t, Raised(w.sessions, s, now))),
               log := w.log + Totals(w.sessions, s, now))
    case Write(r) =>
      r in w.pending && w' == w.(pending := w.pending - multiset{r}, files := Upserted(w.files, r))
    case Restart(recent) =>
      w.pending == multiset{} && IsRecent(w.files, REHYDRATE_LIMIT, recent) &&
      w' == w.(sessions := Rehydrated(recent))
    case Crash(recent) =>
      IsRecent(w.files, REHYDRATE_LIMIT, recent) &&
      w' == w.(sessions := Rehydrated(recent), pending := multiset{})
  }

  ghost predicate IsRun(ws: seq<World>, steps: seq<Step>) {
    && |ws| == |steps| + 1 && ws[0] == World(map[], map[], multiset{}, {})
    && forall i :: 0 <= i < |steps| ==> Next(ws[i], ws[i + 1], steps[i])
  }

  // ---------------------------------------------------- ended means end time --

  predicate EndsTogether(s: Session) { s.state == Ended <==> s.endedAt.Some? }

  /** In memory, in flight and in the store, a session is ended exactly when its end time is set. */
  ghost predicate Kept(w: World) {
    && WellFiled(w.files)
    && (forall id :: id in w.sessions ==> w.sessions[id].session.id == id && EndsTogether(w.sessions[id].session))
    && (forall r :: r in w.pending ==> EndsTogether(r.session))
    && (forall name :: name in w.files ==> EndsTogether(w.files[name].session))
  }

  lemma RecentFromFiles(files: Files, recent: seq<Record>, id: string)
    requires WellFiled(files) && IsRecent(files, REHYDRATE_LIMIT, recent) && id in Rehydrated(recent)
    ensures FileName(id) in files && files[FileName(id)] == Rehydrated(recent)[id]
    ensures Rehydrated(recent)[id].session.id == id && Rehydrated(recent)[id].session.state == Active
  {
    RehydratedEntries(recent, id);
    var name :| name in files && files[name] == Rehydrated(recent)[id];
  }

  lemma EventRecord(t: Tracked, e: HookEvent, now: Time)
    requires Accepted(e)
    requires e.sessionID in t ==> t[e.sessionID].session.id == e.sessionID && EndsTogether(t[e.sessionID].session)
    ensures var r := AfterEvent(t, Stamped(e, now));
            && r.session.id == e.sessionID && EndsTogether(r.session)
            && r.peak == if e.sessionID in t then t[e.sessionID].peak else 0
  {
  }

  /** A tick changes no more of a session than its peak and, once, its process start. */
  lemma TickedRecord(t: Tracked, s: Snapshot, now: Time, id: string)
    requires id in Ticked(t, s, now)
    ensures var r := Ticked(t, s, now)[id];
            && id in t && r.session == t[id].session.(processStartedAt := r.session.processStartedAt)
            && r.peak == Higher(AttributedRss(s, t[id].session.rootPID), t[id].peak)
            && Attributed(id, AttributedRss(s, t[id].session.rootPID)) in Totals(t, s, now)
  {
  }

  lemma TickedCopy(t: Tracked, s: Snapshot, now: Time, pending: multiset<Record>, r: Record) returns (id: string)
    requires r in pending + multiset(Copies(Ticked(t, s, now), Raised(t, s, now))) && r !in pending
    ensures id in Ticked(t, s, now) && Ticked(t, s, now)[id] == r
  {
    assert r in Copies(Ticked(t, s, now), Raised(t, s, now));
    id :| id in Raised(t, s, now) && Ticked(t, s, now)[id] == r;
  }

  lemma TickKeeps(w: World, w': World, s: Snapshot, now: Time)
    requires Kept(w) && Next(w, w', Tick(s, now))
    ensures Kept(w')
  {
    forall id | id in w'.sessions
      ensures w'.sessions[id].session.id == id && EndsTogether(w'.sessions[id].session)
    {
      TickedRecord(w.sessions, s, now, id);
    }
    forall r | r in w'.pending ensures EndsTogether(r.session) {
      if r !in w.pending {
        var id := TickedCopy(w.sessions, s, now, w.pending, r);
        assert id in w'.sessions;
      }
    }
  }

  /** Sessions read back are active, under their own name, and agree with their record. */
  ghost predicate ReadBack(t: Tracked, files: Files) {
    forall id :: id in t ==>
      FileName(id) in files && files[FileName(id)] == t[id] && t[id].session.id == id && t[id].session.state == Active
  }

  lemma RehydratedReadBack(files: Files, recent: seq<Record>)
    requires WellFiled(files) && IsRecent(files, REHYDRATE_LIMIT, recent)
    ensures ReadBack(Rehydrated(recent), files)
  {
    forall id | id in Rehydrated(recent)
      ensures FileName(id) in files && files[FileName(id)] == Rehydrated(recent)[id]
      ensures Rehydrated(recent)[id].session.id == id && Rehydrated(recent)[id].session.state == Active
    {
      RecentFromFiles(files, recent, id);
    }
  }

  lemma ReadBackKept(w: World, t: Tracked, pending: multiset<Record>)
    requires Kept(w) && ReadBack(t, w.files) && pending <= w.pending
    ensures Kept(w.(sessions := t, pending := pending))
  {
  }

  lemma EventKeeps(w: World, w': World, e: HookEvent, now: Time)
    requires Kept(w) && Next(w, w', Handle(e, now))
    ensures Kept(w')
  {
    if Accepted(e) { EventRecord(w.sessions, e, now); }
  }

  lemma WriteKeeps(w: World, w': World, r: Record)
    requires Kept(w) && Next(w, w', Write(r))
    ensures Kept(w')
  {
    assert forall q :: q in w'.pending ==> q in w.pending;
  }

  lemma NextKeeps(w: World, w': World, step: Step)
    requires Kept(w) && Next(w, w', step)
    ensures Kept(w')
  {
    match step
    case Handle(e, now) => EventKeeps(w, w', e, now);
    case Tick(s, now) => TickKeeps(w, w', s, now);
    case Write(r) => WriteKeeps(w, w', r);
    case Restart(recent) =>
      RehydratedReadBack(w.files, recent);
      ReadBackKept(w, w'.sessions, w.pending);
    case Crash(recent) =>
      RehydratedReadBack(w.files, recent);
      ReadBackKept(w, w'.sessions, multiset{});
  }

  lemma {:induction false} EndedHasEndTime(ws: seq<World>, steps: seq<Step>, k: nat)
    requires IsRun(ws, steps) && k <= |steps|
    ensures Kept(ws[k])
    decreases k
  {
    if k > 0 {
      EndedHasEndTime(ws, steps, k - 1);
      NextKeeps(ws[k - 1], ws[k], steps[k - 1]);
    }
  }

  // ------------------------------------------------------------ transitions --

  /** The last record the store has for a session says it is active. */
  predicate StoredActive(w: World, id: string) {
    FileName(id) in w.files && w.files[FileName(id)].session.id == id && w.files[FileName(id)].session.state == Active
  }

  /** What one hook event does to the state of each session. */
  lemma EventStates(w: World, w': World, e: HookEvent, now: Time, id: string)
    requires Kept(w) && Next(w, w', Handle(e, now))
    ensures id in w.sessions ==> id in w'.sessions
    ensures Accepted(e) && e.sessionID == id ==>
              && id in w'.sessions
              && (e.kind == SessionStart ==> w'.sessions[id].session.state == Active)
              && (e.kind == SessionEnd ==> w'.sessions[id].session.state == Ended)
              && (e.kind != SessionStart && e.kind != SessionEnd ==>
                    w'.sessions[id].session.state == if id in w.sessions then w.sessions[id].session.state else Active)
              && w'.sessions[id].peak == if id in w.sessions then w.sessions[id].peak else 0
    ensures !Accepted(e) || e.sessionID != id ==> (id in w'.sessions <==> id in w.sessions)
    ensures id in w.sessions && (!Accepted(e) || e.sessionID != id) ==> w'.sessions[id] == w.sessions[id]
    ensures !Accepted(e) ==> w' == w
  {
  }

  /** A tick drops exactly the sessions that ended more than the grace period ago. */
  lemma PrunesExactlyExpired(w: World, w': World, s: Snapshot, now: Time, id: string)
    requires Kept(w) && Next(w, w', Tick(s, now)) && id in w.sessions
    ensures id !in w'.sessions <==>
            w.sessions[id].session.state == Ended && now - w.sessions[id].session.endedAt.value > 300_000_000_000
    ensures id in w'.sessions ==>
              && w'.sessions[id].session.state == w.sessions[id].session.state
              && w'.sessions[id].peak >= w.sessions[id].peak
  {
  }

  /** A session started and ended in memory, neither copy written yet. */
  lemma StartThenEnd(start: HookEvent, end: HookEvent, a: Record, b: Record)
    requires Accepted(start) && start.kind == SessionStart && start.timestamp != 0
    requires Accepted(end) && end.kind == SessionEnd && end.timestamp != 0 && end.sessionID == start.sessionID
    requires a == AfterEvent(map[], start) && b == AfterEvent(map[start.sessionID := a], end)
    ensures var id := start.sessionID;
            && Next(World(map[], map[], multiset{}, {}), World(map[id := a], map[], multiset{a}, {}), Handle(start, 0))
            && Next(World(map[id := a], map[], multiset{a}, {}), World(map[id := b], map[], multiset{a, b}, {}),
                    Handle(end, 0))
            && a.session.id == id == b.session.id && a.peak == b.peak == 0
            && a.session.state == Active && b.session.state == Ended
  {
    var id := start.sessionID;
    assert map[id := a][id := b] == map[id := b];
    assert multiset{a} + multiset{b} == multiset{a, b};
  }

  /** The later copy is written first. */
  lemma WrittenInReverse(t: Tracked, a: Record, b: Record)
    requires a.session.id == b.session.id && a.peak == b.peak == 0
    ensures var name := FileName(a.session.id);
            && Next(World(t, map[], multiset{a, b}, {}), World(t, map[name := b], multiset{a}, {}), Write(b))
            && Next(World(t, map[name := b], multiset{a}, {}), World(t, map[name := a], multiset{}, {}), Write(a))
  {
    var name := FileName(a.session.id);
    assert multiset{a, b} - multiset{b} == multiset{a};
    assert multiset{a} - multiset{a} == multiset{};
    assert map[name := b][name := a] == map[name := a];
  }

  lemma RestartWith(t: Tracked, a: Record)
    requires a.session.state == Active
    ensures var files := map[FileName(a.session.id) := a];
            Next(World(t, files, multiset{}, {}), World(map[a.session.id := a], files, multiset{}, {}), Restart([a]))
  {
    var files := map[FileName(a.session.id) := a];
    assert FileName(a.session.id) in files && |files| == 1;
    assert Rehydrated([a][..0]) == map[];
  }

  /**
   * What delayed writes cost: when the copy taken at the end of a session reaches the
   * store before the one taken at its start, a clean restart tracks the session as active.
   */
  lemma StaleWriteRevives(start: HookEvent, end: HookEvent)
    returns (ws: seq<World>, steps: seq<Step>)
    requires Accepted(start) && start.kind == SessionStart && start.timestamp != 0
    requires Accepted(end) && end.kind == SessionEnd && end.timestamp != 0 && end.sessionID == start.sessionID
    ensures IsRun(ws, steps) && |steps| == 5 && steps[4].Restart?
    ensures var id := start.sessionID;
            && id in ws[4].sessions && ws[4].sessions[id].session.state == Ended
            && id in ws[5].sessions && ws[5].sessions[id].session.state == Active
  {
    var id, name := start.sessionID, FileName(start.sessionID);
    var a := AfterEvent(map[], start);
    var b := AfterEvent(map[id := a], end);
    StartThenEnd(start, end, a, b);
    WrittenInReverse(map[id := b], a, b);
    RestartWith(map[id := b], a);
    ws := [World(map[], map[], multiset{}, {}),
           World(map[id := a], map[], multiset{a}, {}),
           World(map[id := b], map[], multiset{a, b}, {}),
           World(map[id := b], map[name := b], multiset{a}, {}),
           World(map[id := b], map[name := a], multiset{}, {}),
           World(map[id := a], map[name := a], multiset{}, {})];
    steps := [Handle(start, 0), Handle(end, 0), Write(b), Write(a), Restart([a])];
  }

  // ------------------------------------------------------------ peak memory --

  /** The store never forgets a peak, whatever is lost or late. */
  lemma StoredPeakGrows(w: World, w': World, step: Step, name: string)
    requires Next(w, w', step)
    ensures StoredPeak(w'.files, name) >= StoredPeak(w.files, name)
  {
  }

  lemma {:induction false} StoredPeakNeverDecreases(ws: seq<World>, steps: seq<Step>, i: nat, j: nat, name: string)
    requires IsRun(ws, steps) && i <= j <= |steps|
    ensures StoredPeak(ws[j].files, name) >= StoredPeak(ws[i].files, name)
    decreases j - i
  {
    if i < j {
      StoredPeakNeverDecreases(ws, steps, i, j - 1, name);
      StoredPeakGrows(ws[j - 1], ws[j], steps[j - 1], name);
    }
  }

  /** The store has at least v under name, or will once a pending copy is written. */
  ghost predicate Secured(w: World, name: string, v: U64) {
    v <= StoredPeak(w.files, name) || exists r :: r in w.pending && FileName(r.session.id) == name && v <= r.peak
  }

  /** v is 0 or a total that was really attributed to a session of that name. */
  ghost predicate Real(log: set<Attributed>, name: string, v: U64) {
    v == 0 || exists a :: a in log && FileName(a.id) == name && a.total == v
  }

  ghost predicate PeaksReal(w: World) {
    && (forall id :: id in w.sessions ==> Real(w.log, FileName(id), w.sessions[id].peak))
    && (forall r :: r in w.pending ==> Real(w.log, FileName(r.session.id), r.peak))
    && (forall name :: name in w.files ==> Real(w.log, name, w.files[name].peak))
  }

  ghost predicate PeaksSecured(w: World) {
    forall id :: id in w.sessions ==> Secured(w, FileName(id), w.sessions[id].peak)
  }

  ghost predicate LogSecured(w: World) {
    forall a :: a in w.log ==> Secured(w, FileName(a.id), a.total)
  }

  lemma WriteKeepsSecured(w: World, w': World, r: Record, name: string, v: U64)
    requires Next(w, w', Write(r)) && Secured(w, name, v)
    ensures Secured(w', name, v)
  {
    UpsertRaises(w.files, r, name);
    if v > StoredPeak(w.files, name) {
      var q :| q in w.pending && FileName(q.session.id) == name && v <= q.peak;
      if q != r { assert q in w'.pending; }
    }
  }

  lemma MorePending(w: World, w': World, name: string, v: U64)
    requires w'.files == w.files && w.pending <= w'.pending && Secured(w, name, v)
    ensures Secured(w', name, v)
  {
    if v > StoredPeak(w.files, name) {
      var q :| q in w.pending && FileName(q.session.id) == name && v <= q.peak;
      assert q in w'.pending;
    }
  }

  lemma HookSecures(w: World, w': World, e: HookEvent, now: Time)
    requires Kept(w) && Next(w, w', Handle(e, now)) && PeaksSecured(w)
    ensures PeaksSecured(w') && (LogSecured(w) ==> LogSecured(w'))
  {
    forall name, v | Secured(w, name, v) ensures Secured(w', name, v) { MorePending(w, w', name, v); }
    forall id | id in w'.sessions ensures Secured(w', FileName(id), w'.sessions[id].peak) {
      EventStates(w, w', e, now, id);
      if id in w.sessions { assert Secured(w, FileName(id), w.sessions[id].peak); }
    }
  }

  /** A tick's total is either pending now or no more than the session's peak was. */
  lemma TickSecures(w: World, w': World, s: Snapshot, now: Time)
    requires Kept(w) && Next(w, w', Tick(s, now)) && PeaksSecured(w)
    ensures PeaksSecured(w') && (LogSecured(w) ==> LogSecured(w'))
  {
    forall name, v | Secured(w, name, v) ensures Secured(w', name, v) { MorePending(w, w', name, v); }
    forall id | id in w'.sessions
      ensures Secured(w', FileName(id), w'.sessions[id].peak)
      ensures Secured(w', FileName(id), AttributedRss(s, w.sessions[id].session.rootPID))
    {
      TickSecuresOne(w, w', s, now, id);
    }
    forall a | a in w'.log && LogSecured(w) ensures Secured(w', FileName(a.id), a.total) {
      if a in w.log { assert Secured(w, FileName(a.id), a.total); } else { assert a.id in w'.sessions; }
    }
  }

  lemma TickSecuresOne(w: World, w': World, s: Snapshot, now: Time, id: string)
    requires Kept(w) && Next(w, w', Tick(s, now)) && PeaksSecured(w) && id in w'.sessions
    ensures Secured(w', FileName(id), w'.sessions[id].peak)
    ensures Secured(w', FileName(id), AttributedRss(s, w.sessions[id].session.rootPID))
  {
    var t, r := Ticked(w.sessions, s, now), w'.sessions[id];
    if id in Raised(w.sessions, s, now) {
      assert r in Copies(t, Raised(w.sessions, s, now));
      assert r in w'.pending && FileName(r.session.id) == FileName(id);
    } else {
      MorePending(w, w', FileName(id), w.sessions[id].peak);
      Less(w', FileName(id), AttributedRss(s, w.sessions[id].session.rootPID), w.sessions[id].peak);
    }
  }

  lemma Less(w: World, name: string, u: U64, v: U64)
    requires u <= v && Secured(w, name, v)
    ensures Secured(w, name, u)
  {
  }

  lemma NextSecures(w: World, w': World, step: Step)
    requires Kept(w) && Next(w, w', step) && PeaksSecured(w)
    ensures PeaksSecured(w') && (LogSecured(w) && !step.Crash? ==> LogSecured(w'))
  {
    match step
    case Handle(e, now) => HookSecures(w, w', e, now);
    case Tick(s, now) => TickSecures(w, w', s, now);
    case Write(r) =>
      forall name, v | Secured(w, name, v) ensures Secured(w', name, v) { WriteKeepsSecured(w, w', r, name, v); }
    case Restart(recent) =>
      RehydratedReadBack(w.files, recent);
      ReadBackSecured(w, w'.sessions, w.pending);
    case Crash(recent) =>
      RehydratedReadBack(w.files, recent);
      ReadBackSecured(w, w'.sessions, multiset{});
  }

  lemma ReadBackSecured(w: World, t: Tracked, pending: multiset<Record>)
    requires ReadBack(t, w.files)
    ensures PeaksSecured(w.(sessions := t, pending := pending))
    ensures LogSecured(w) && pending == w.pending ==> LogSecured(w.(sessions := t, pending := pending))
  {
    var w' := w.(sessions := t, pending := pending);
    assert pending == w.pending ==> forall name, v :: Secured(w, name, v) ==> Secured(w', name, v);
  }

  lemma LongerLog(log: set<Attributed>, log': set<Attributed>, name: string, v: U64)
    requires Real(log, name, v) && log <= log'
    ensures Real(log', name, v)
  {
  }

  lemma TickReal(w: World, s: Snapshot, now: Time, id: string)
    requires PeaksReal(w) && id in Ticked(w.sessions, s, now)
    ensures Real(w.log + Totals(w.sessions, s, now), FileName(id), Ticked(w.sessions, s, now)[id].peak)
  {
    TickedRecord(w.sessions, s, now, id);
    var log' := w.log + Totals(w.sessions, s, now);
    var total := AttributedRss(s, w.sessions[id].session.rootPID);
    assert Attributed(id, total) in log';
    LongerLog(w.log, log', FileName(id), w.sessions[id].peak);
  }

  lemma TickKeepsReal(w: World, w': World, s: Snapshot, now: Time)
    requires Kept(w) && Next(w, w', Tick(s, now)) && PeaksReal(w)
    ensures PeaksReal(w')
  {
    forall id | id in w'.sessions ensures Real(w'.log, FileName(id), w'.sessions[id].peak) {
      TickReal(w, s, now, id);
    }
    forall r | r in w'.pending ensures Real(w'.log, FileName(r.session.id), r.peak) {
      if r in w.pending {
        LongerLog(w.log, w'.log, FileName(r.session.id), r.peak);
      } else {
        var id := TickedCopy(w.sessions, s, now, w.pending, r);
        TickedRecord(w.sessions, s, now, id);
        assert id in w'.sessions && r.session.id == id;
      }
    }
    forall name | name in w'.files ensures Real(w'.log, name, w'.files[name].peak) {
      LongerLog(w.log, w'.log, name, w.files[name].peak);
    }
  }

  lemma ReadBackReal(w: World, t: Tracked, pending: multiset<Record>)
    requires ReadBack(t, w.files) && PeaksReal(w) && pending <= w.pending
    ensures PeaksReal(w.(sessions := t, pending := pending))
  {
  }

  lemma EventKeepsReal(w: World, w': World, e: HookEvent, now: Time)
    requires Kept(w) && Next(w, w', Handle(e, now)) && PeaksReal(w)
    ensures PeaksReal(w')
  {
    if Accepted(e) {
      EventRecord(w.sessions, e, now);
      assert Real(w.log, FileName(e.sessionID), w'.sessions[e.sessionID].peak);
    }
  }

  lemma NextReal(w: World, w': World, step: Step)
    requires Kept(w) && Next(w, w', step) && PeaksReal(w)
    ensures PeaksReal(w')
  {
    match step
    case Handle(e, now) => EventKeepsReal(w, w', e, now);
    case Tick(s, now) => TickKeepsReal(w, w', s, now);
    case Write(r) =>
    case Restart(recent) =>
      RehydratedReadBack(w.files, recent);
      ReadBackReal(w, w'.sessions, w.pending);
    case Crash(recent) =>
      RehydratedReadBack(w.files, recent);
      ReadBackReal(w, w'.sessions, multiset{});
  }

  ghost predicate NoCrash(steps: seq<Step>) {
    forall i :: 0 <= i < |steps| ==> !steps[i].Crash?
  }

  ghost predicate Good(w: World) { Kept(w) && PeaksReal(w) && PeaksSecured(w) }

  lemma NextGood(w: World, w': World, step: Step)
    requires Good(w) && Next(w, w', step)
    ensures Good(w') && (LogSecured(w) && !step.Crash? ==> LogSecured(w'))
  {
    NextKeeps(w, w', step);
    NextReal(w, w', step);
    NextSecures(w, w', step);
  }

  lemma NoCrashBefore(steps: seq<Step>, k: nat)
    requires 0 < k <= |steps| && NoCrash(steps[..k])
    ensures NoCrash(steps[..k - 1]) && !steps[k - 1].Crash?
  {
    assert steps[..k][k - 1] == steps[k - 1];
    assert forall i :: 0 <= i < k - 1 ==> steps[..k - 1][i] == steps[..k][i];
  }

  lemma {:induction false} RunGood(ws: seq<World>, steps: seq<Step>, k: nat)
    requires IsRun(ws, steps) && k <= |steps|
    ensures Good(ws[k])
    decreases k
  {
    if k > 0 {
      RunGood(ws, steps, k - 1);
      NextGood(ws[k - 1], ws[k], steps[k - 1]);
    }
  }

  lemma {:induction false} RunSecures(ws: seq<World>, steps: seq<Step>, k: nat)
    requires IsRun(ws, steps) && k <= |steps| && NoCrash(steps[..k])
    ensures LogSecured(ws[k])
    decreases k
  {
    if k > 0 {
      NoCrashBefore(steps, k);
      RunSecures(ws, steps, k - 1);
      RunGood(ws, steps, k - 1);
      NextGood(ws[k - 1], ws[k], steps[k - 1]);
    }
  }

  /** v is the largest total attributed to sessions of that name, 0 if there was none. */
  ghost predicate IsPeak(log: set<Attributed>, name: string, v: U64) {
    Real(log, name, v) && forall a :: a in log && FileName(a.id) == name ==> a.total <= v
  }

  /**
   * In every run of events, ticks, late writes and clean restarts, once the pending
   * copies are written the stored peak is the largest total ever attributed.
   */
  lemma DrainedPeakIsMaximum(ws: seq<World>, steps: seq<Step>, k: nat, name: string)
    requires IsRun(ws, steps) && k <= |steps| && NoCrash(steps[..k]) && ws[k].pending == multiset{}
    ensures IsPeak(ws[k].log, name, StoredPeak(ws[k].files, name))
  {
    RunGood(ws, steps, k);
    RunSecures(ws, steps, k);
  }

  /** For an ID that shares its record with no other tracked ID, it is that session's own maximum. */
  lemma OwnPeakIsMaximum(ws: seq<World>, steps: seq<Step>, k: nat, id: string)
    requires IsRun(ws, steps) && k <= |steps| && NoCrash(steps[..k]) && ws[k].pending == multiset{}
    requires forall a :: a in ws[k].log && FileName(a.id) == FileName(id) ==> a.id == id
    ensures var peak := StoredPeak(ws[k].files, FileName(id));
            && (forall a :: a in ws[k].log && a.id == id ==> a.total <= peak)
            && (peak == 0 || Attributed(id, peak) in ws[k].log)
  {
    DrainedPeakIsMaximum(ws, steps, k, FileName(id));
    var peak := StoredPeak(ws[k].files, FileName(id));
    if peak != 0 {
      var a :| a in ws[k].log && FileName(a.id) == FileName(id) && a.total == peak;
    }
  }

  /** Even when a crash loses copies, every peak on record was really seen. */
  lemma StoredPeakIsReal(ws: seq<World>, steps: seq<Step>, k: nat, name: string)
    requires IsRun(ws, steps) && k <= |steps|
    ensures Real(ws[k].log, name, StoredPeak(ws[k].files, name))
  {
    RunGood(ws, steps, k);
  }
}
