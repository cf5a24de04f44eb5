// The supervisor object (Daemon in internal/daemon/daemon.go): its maps, and the methods
// that hook events, process scans, telemetry batches and transcript scans call under its
// lock. Each method is proved against the functions and predicates of the other modules.
module Daemon {
  import opened Attribution
  import opened Base
  import opened Usage = Collector
  import opened Compose
  import opened ComposeResult
  import opened Discover
  import opened Lifecycle
  import opened Matching
  import opened Model
  import opened ProcScan
  import opened ProcessTree
  import opened Projects
  import opened Sorting
  import opened Store
  import Paths
  import Telemetry = TelemetryIngest

  datatype Settings = Settings(
    disableAutoDiscover: bool, patterns: seq<Pattern>, evaluate: Evaluator, window: int, limit: int)

  const DEFAULT_WINDOW: int := 86_400 * SECOND
  const DEFAULT_LIMIT: int := 50

  function WithDefaults(cfg: Settings): Settings {
    cfg.(window := if cfg.window <= 0 then DEFAULT_WINDOW else cfg.window,
         limit := if cfg.limit <= 0 then DEFAULT_LIMIT else cfg.limit)
  }

  /** A window of a day and a limit of 50 unless the settings give positive ones; the rest is taken over. */
  lemma DefaultsApply(cfg: Settings)
    ensures WithDefaults(cfg).window == (if cfg.window > 0 then cfg.window else 86_400_000_000_000)
    ensures WithDefaults(cfg).limit == (if cfg.limit > 0 then cfg.limit else 50)
    ensures WithDefaults(cfg) == cfg.(window := WithDefaults(cfg).window, limit := WithDefaults(cfg).limit)
  {
  }

  function TelemetryKey(s: TelemetrySession): string { SessionKey(s.agent, s.sessionID) }

  predicate IDLess(a: TelemetrySession, b: TelemetrySession) { TextLess(a.sessionID, b.sessionID) }

  /** Telemetry is saved by session ID. */
  ghost predicate SavedByID(saved: seq<TelemetrySession>) {
    forall i, j :: 0 <= i < j < |saved| ==> !TextLess(saved[j].sessionID, saved[i].sessionID)
  }

  lemma IDOrder()
    ensures WeakOrder(IDLess)
  {
    forall a, b | IDLess(a, b) ensures !IDLess(b, a) { TextLessTotal(a.sessionID, b.sessionID); }
    forall a, b, c | !IDLess(b, a) && !IDLess(c, b) ensures !IDLess(c, a) {
      TextLessTransitive(a.sessionID, b.sessionID, c.sessionID);
    }
  }

  /** What the dashboard state database holds between runs. */
  class StateDB {
    var telemetry: seq<TelemetrySession>
    var sources: seq<UsageSource>

    constructor ()
      ensures telemetry == [] && sources == []
    {
      telemetry, sources := [], [];
    }

    ghost predicate Valid()
      reads this
    {
      forall s :: s in telemetry ==> |s.recentFingerprints| <= Telemetry.WINDOW
    }
  }

  class Daemon {
    const cfg: Settings
    const store: DB
    const state: StateDB
    const usage: Collector
    var sessions: Tracked
    var autoFirstSeen: map<int, Time>
    var telemetrySessions: Telemetry.Sessions
    var usageSources: seq<UsageSource>
    var processSessions: Rows
    var rows: Rows
    var projectUsage: seq<ProjectUsage>
    var generatedAt: Time

    ghost predicate Valid()
      reads this, store, state, usage
    {
      && cfg.limit > 0 && state.Valid()
      && WellFiled(store.files) && FiledByPath(usage.sources)
      && Telemetry.WellKept(telemetrySessions)
      && forall id :: id in sessions ==> sessions[id].session.id == id
    }

    /** The rows shown are a composition of what the daemon holds. */
    ghost predicate Shows(now: Time)
      reads this
      requires cfg.limit > 0
    {
      IsComposed(processSessions, telemetrySessions, usageSources, now, cfg.window, cfg.limit, rows)
    }

    // ---------------------------------------------------------------- New ---

    constructor (cfg: Settings, usageConfig: Usage.Config, store: DB, state: StateDB)
      requires WellFiled(store.files) && state.Valid()
      ensures Valid() && this.store == store && this.state == state && this.cfg == WithDefaults(cfg)
      ensures fresh(usage) && usage.cfg == usageConfig && usage.sources == FromPersisted(state.sources)
      ensures telemetrySessions == Telemetry.Rehydrate(state.telemetry) && usageSources == state.sources
      ensures exists recent :: IsRecent(store.files, 200, recent) && sessions == Rehydrated(recent)
      ensures processSessions == [] && rows == [] && autoFirstSeen == map[]
    {
      this.cfg := WithDefaults(cfg);
      this.store, this.state := store, state;
      usage := new Collector(usageConfig, state.sources);
      var persistedTelemetry := Telemetry.RehydrateTelemetry(state.telemetry);
      Telemetry.RehydrateKeeps(state.telemetry);
      usageSources := state.sources;
      autoFirstSeen, processSessions, rows, projectUsage, generatedAt := map[], [], [], [], 0;
      var recent := store.RecentSessions(REHYDRATE_LIMIT);
      var active := RehydrateSessions(recent);
      telemetrySessions, sessions := persistedTelemetry, active;
      RehydratedReadBack(store.files, recent);
    }

    // -------------------------------------------------------- HandleEvent ---

    method HandleEvent(event: HookEvent, now: Time) returns (ok: bool)
      requires Valid()
      modifies this`sessions, store
      ensures Valid()
      ensures ok <==> Accepted(event)
      ensures sessions == Handled(old(sessions), event, now)
      ensures store.files == if ok then Upserted(old(store.files), sessions[event.sessionID]) else old(store.files)
    {
      if event.sessionID == "" { return false; }
      var e := if event.timestamp == 0 then event.(timestamp := now) else event;
      if e.kind.Other? { return false; }
      var id := e.sessionID;
      var known := if id in sessions then Some(sessions[id].session) else None;
      var ts := ApplyEvent(known, e);
      var peak := if id in sessions then sessions[id].peak else 0;
      sessions := sessions[id := Record(ts, peak)];
      TransitionNamed(known, e);
      store.UpsertSession(ts, peak);
      ok := true;
    }

    // ---------------------------------------------------------------- Tick ---

    /** Roots nobody announced; first-seen times live as long as their root stays. */
    method AutoDiscoverLocked(s: Snapshot, attributed: set<int>, now: Time) returns (out: Rows, roots: seq<Root>)
      modifies this`autoFirstSeen
      ensures AreRoots(s, cfg.patterns, attributed, roots)
      ensures AreAutoRows(roots, old(autoFirstSeen), s, now, cfg.evaluate, out)
      ensures autoFirstSeen == SeenAfter(old(autoFirstSeen), RootPids(roots), now)
    {
      ghost var before := autoFirstSeen;
      roots := FindRoots(s, cfg.patterns, attributed);
      var seenThisTick;
      out, seenThisTick := ShowRoots(s, roots, now);
      ForgetGone(seenThisTick);
      SeenTable(before, RootPids(roots), now, autoFirstSeen);
    }

    /** The loop over the roots. */
    method ShowRoots(s: Snapshot, roots: seq<Root>, now: Time) returns (out: Rows, seenThisTick: set<int>)
      modifies this`autoFirstSeen
      ensures AreAutoRows(roots, old(autoFirstSeen), s, now, cfg.evaluate, out)
      ensures seenThisTick == RootPids(roots) && autoFirstSeen.Keys == old(autoFirstSeen).Keys + seenThisTick
      ensures forall p :: p in autoFirstSeen ==> autoFirstSeen[p] == SeenSince(old(autoFirstSeen), p, now)
    {
      seenThisTick := {};
      out := [];
      for i := 0 to |roots|
        invariant seenThisTick == RootPids(roots[..i])
        invariant autoFirstSeen.Keys == old(autoFirstSeen).Keys + seenThisTick
        invariant forall p :: p in autoFirstSeen ==> autoFirstSeen[p] == SeenSince(old(autoFirstSeen), p, now)
        invariant AreAutoRows(roots[..i], old(autoFirstSeen), s, now, cfg.evaluate, out)
      {
        var root := roots[i];
        assert roots[..i + 1] == roots[..i] + [root];
        seenThisTick := seenThisTick + {root.pid};
        if root.pid !in autoFirstSeen {
          autoFirstSeen := autoFirstSeen[root.pid := now];
        }
        var row := AutoRow(root, autoFirstSeen[root.pid], s, now);
        out := out + [row];
      }
      assert roots[..|roots|] == roots;
    }

    /** Entries of roots that are gone are deleted. */
    method ForgetGone(seenThisTick: set<int>)
      modifies this`autoFirstSeen
      ensures forall p :: p in autoFirstSeen <==> p in old(autoFirstSeen) && p in seenThisTick
      ensures forall p :: p in autoFirstSeen ==> autoFirstSeen[p] == old(autoFirstSeen)[p]
    {
      var rest := autoFirstSeen.Keys;
      while rest != {}
        invariant rest <= autoFirstSeen.Keys <= old(autoFirstSeen).Keys
        invariant forall p :: p in old(autoFirstSeen) ==> (p in autoFirstSeen <==> p in rest || p in seenThisTick)
        invariant forall p :: p in autoFirstSeen ==> autoFirstSeen[p] == old(autoFirstSeen)[p]
      {
        var pid := NextKey(rest);
        rest := rest - {pid};
        if pid !in seenThisTick {
          autoFirstSeen := autoFirstSeen - {pid};
        }
      }
    }

    method AutoRow(root: Root, firstSeen: Time, s: Snapshot, now: Time) returns (row: SessionSnapshot)
      ensures IsAutoRow(root, firstSeen, s, now, cfg.evaluate, row)
    {
      var session := Session(AutoID(root.pid), "", root.pattern.agent, root.pattern.title, "", root.pid,
                             root.process.startedAt, firstSeen, None, Active, Auto, 0, "", "");
      if ShowsDirectory(session.agent, root.process.cwd) {
        session := session.(cwd := root.process.cwd, project := Paths.Base(root.process.cwd));
      }
      var tree, procs, totalRSS, totalCPU, ports := Attribute(s, root.pid);
      var scope := ScopeForAgent(session.agent);
      var attribution := Probable;
      if scope == Shared { attribution := SharedTree; }
      row := SessionSnapshot(session, tree, |procs|, totalCPU, totalRSS, totalRSS, ports,
                             cfg.evaluate(session, tree, now), NO_USAGE, 0, NO_METRICS, scope, attribution);
    }

    /** What a tick saw, from the table of first-seen times it started with. */
    ghost function View(
        s: Snapshot, now: Time, firstSeen: map<int, Time>, hooks: Rows, roots: seq<Root>, autos: Rows): TickRows
      reads this
    {
      TickRows(sessions, s, now, cfg.evaluate, cfg.patterns, firstSeen, hooks, roots, autos)
    }

    /** The rows of one scan, and the peaks it raised. */
    method Scan(s: Snapshot, now: Time)
      returns (snapshots: Rows, toPersist: seq<Record>, ghost v: TickRows)
      requires Valid()
      modifies this`sessions, this`autoFirstSeen
      ensures Valid() && sessions == Ticked(old(sessions), s, now)
      ensures v == View(s, now, old(autoFirstSeen), v.hooks, v.roots, v.autos) && snapshots == v.hooks + v.autos
      ensures Scanned(cfg, v)
      ensures autoFirstSeen ==
              if cfg.disableAutoDiscover then v.firstSeen else SeenAfter(v.firstSeen, RootPids(v.roots), now)
      ensures multiset(toPersist) == multiset(Copies(sessions, Raised(old(sessions), s, now)))
    {
      ghost var firstSeen := autoFirstSeen;
      var scanned, attributed;
      scanned, snapshots, attributed, toPersist := ScanSessions(sessions, s, now, cfg.evaluate);
      sessions := scanned;
      v := View(s, now, firstSeen, snapshots, [], []);
      if !cfg.disableAutoDiscover {
        var found, roots := AutoDiscoverLocked(s, attributed, now);
        v := View(s, now, firstSeen, snapshots, roots, found);
        snapshots := snapshots + found;
      }
    }

    method Persist(toPersist: seq<Record>)
      requires WellFiled(store.files)
      modifies store
      ensures WellFiled(store.files) && store.files == UpsertedAll(old(store.files), toPersist)
    {
      for i := 0 to |toPersist|
        invariant WellFiled(store.files) && store.files == UpsertedAll(old(store.files), toPersist[..i])
      {
        assert toPersist[..i + 1][..i] == toPersist[..i];
        store.UpsertSession(toPersist[i].session, toPersist[i].peak);
      }
      assert toPersist[..|toPersist|] == toPersist;
    }

    /** The rest of a tick: compose the new rows, then write the raised peaks. */
    method Publish(sessionSnapshots: Rows, toPersist: seq<Record>, now: Time)
      requires Valid()
      modifies this`processSessions, this`rows, this`generatedAt, store
      ensures Valid() && processSessions == sessionSnapshots && Shows(now) && generatedAt == now
      ensures store.files == UpsertedAll(old(store.files), toPersist)
    {
      Show(sessionSnapshots, now);
      Persist(toPersist);
    }

    method Show(sessionSnapshots: Rows, now: Time)
      requires cfg.limit > 0 && Telemetry.WellKept(telemetrySessions)
      modifies this`processSessions, this`rows, this`generatedAt
      ensures processSessions == sessionSnapshots && Shows(now) && generatedAt == now
    {
      processSessions := sessionSnapshots;
      Recompose(now);
    }

    method Recompose(now: Time)
      requires cfg.limit > 0 && Telemetry.WellKept(telemetrySessions)
      modifies this`rows, this`generatedAt
      ensures Shows(now) && generatedAt == now
    {
      ComposeSessionsLocked(now);
      generatedAt := now;
    }

    /** v and copies name the rows and the stored copies in the order the maps were visited. */
    method Tick(s: Snapshot, now: Time) returns (ghost v: TickRows, ghost copies: seq<Record>)
      requires Valid()
      modifies this`sessions, this`autoFirstSeen, this`processSessions, this`rows, this`generatedAt, store
      ensures Valid() && sessions == Ticked(old(sessions), s, now)
      ensures v == View(s, now, old(autoFirstSeen), v.hooks, v.roots, v.autos) && Scanned(cfg, v)
      ensures processSessions == v.hooks + v.autos && Shows(now) && generatedAt == now
      ensures autoFirstSeen ==
              if cfg.disableAutoDiscover then v.firstSeen else SeenAfter(v.firstSeen, RootPids(v.roots), now)
      ensures multiset(copies) == multiset(Copies(sessions, Raised(old(sessions), s, now)))
      ensures store.files == UpsertedAll(old(store.files), copies)
    {
      var sessionSnapshots, toPersist;
      sessionSnapshots, toPersist, v := Scan(s, now);
      copies := toPersist;
      Publish(sessionSnapshots, toPersist, now);
    }

    method ComposeSessionsLocked(now: Time)
      requires cfg.limit > 0 && Telemetry.WellKept(telemetrySessions)
      modifies this`rows
      ensures Shows(now)
    {
      var combined :=
        ComposeSessions(processSessions, telemetrySessions, usageSources, now, cfg.window, cfg.limit);
      rows := combined;
    }

    // ------------------------------------------ telemetry and transcripts ---

    method IngestTelemetry(events: seq<Telemetry.Event>, now: Time)
      requires Valid()
      modifies this`telemetrySessions, this`rows, this`generatedAt, state
      ensures Valid() && telemetrySessions == Telemetry.Ingest(old(telemetrySessions), events)
      ensures events == [] ==> rows == old(rows) && state.telemetry == old(state.telemetry)
      ensures events != [] ==> Shows(now) && generatedAt == now
      ensures events != [] ==>
                Telemetry.Rehydrate(state.telemetry) == telemetrySessions && SavedByID(state.telemetry)
      ensures state.sources == old(state.sources)
    {
      if |events| == 0 { return; }
      Telemetry.IngestKeeps(telemetrySessions, events);
      telemetrySessions := Telemetry.IngestBatch(telemetrySessions, events);
      PublishTelemetry(now);
    }

    method PublishTelemetry(now: Time)
      requires Valid()
      modifies this`rows, this`generatedAt, state`telemetry
      ensures Valid() && Shows(now) && generatedAt == now
      ensures Telemetry.Rehydrate(state.telemetry) == telemetrySessions && SavedByID(state.telemetry)
    {
      Recompose(now);
      SaveTelemetry();
    }

    method SaveTelemetry()
      requires Telemetry.WellKept(telemetrySessions)
      modifies state`telemetry
      ensures state.Valid() && Telemetry.Rehydrate(state.telemetry) == telemetrySessions && SavedByID(state.telemetry)
    {
      IDOrder();
      var persisted := SortedValues(telemetrySessions, TelemetryKey, IDLess);
      SavedTelemetry(telemetrySessions, persisted);
      state.telemetry := persisted;
    }

    method RefreshUsage(files: Usage.Files, now: Time)
      requires Valid()
      modifies this`usageSources, this`projectUsage, this`rows, this`generatedAt, state, usage
      ensures Valid() && usage.sources == AfterScan(old(usage.sources), files, usage.cfg)
      ensures ListsValues(usage.sources, PathOf, usageSources) && IsAggregation(Dedup(usageSources), projectUsage)
      ensures Shows(now) && generatedAt == (if old(generatedAt) == 0 then now else old(generatedAt))
      ensures state.sources == usageSources && FromPersisted(state.sources) == usage.sources
      ensures state.telemetry == old(state.telemetry)
    {
      var projects, sources := ScanUsage(files);
      ShowUsage(projects, sources, now);
    }

    method ScanUsage(files: Usage.Files) returns (projects: seq<ProjectUsage>, sources: seq<UsageSource>)
      requires Valid()
      modifies state`sources, usage
      ensures Valid()
      ensures usage.sources == AfterScan(old(usage.sources), files, usage.cfg)
      ensures ListsValues(usage.sources, PathOf, sources) && IsAggregation(Dedup(sources), projects)
      ensures state.sources == sources && FromPersisted(sources) == usage.sources
    {
      projects, sources := usage.Scan(files);
      RestartReadsIndex(usage.sources, sources);
      state.sources := sources;
    }

    method ShowUsage(projects: seq<ProjectUsage>, sources: seq<UsageSource>, now: Time)
      requires Valid()
      modifies this`usageSources, this`projectUsage, this`rows, this`generatedAt
      ensures Valid() && usageSources == sources && projectUsage == projects && Shows(now)
      ensures generatedAt == if old(generatedAt) == 0 then now else old(generatedAt)
    {
      usageSources := sources;
      projectUsage := projects;
      ComposeSessionsLocked(now);
      if generatedAt == 0 { generatedAt := now; }
    }
  }

  /** What the rows of a tick are, with or without auto-discovery. */
  ghost predicate Scanned(cfg: Settings, v: TickRows) {
    if cfg.disableAutoDiscover
    then AreHookRows(v.t, v.t.Keys, v.s, v.now, v.evaluate, v.hooks) && v.autos == []
    else AreTickRows(v)
  }

  // ------------------------------------------------------------------ events --

  /** The switch of HandleEvent and what follows it, field by field. */
  method ApplyEvent(known: Option<Session>, e: HookEvent) returns (ts: Session)
    requires Accepted(e)
    ensures ts == Detailed(Transition(known, e), e)
  {
    ts := if known.Some? then known.value else NewSession(e.sessionID);
    match e.kind {
      case SessionStart =>
        ts := ts.(agent := e.agent, cwd := e.cwd, project := DirectoryName(e.cwd), rootPID := e.pid);
        if e.launchID != "" { ts := ts.(launchID := e.launchID); }
        ts := ts.(startedAt := e.timestamp, lastActivityAt := e.timestamp, state := Active, endedAt := None);
      case SessionEnd =>
        if known.None? { ts := ts.(startedAt := e.timestamp); }
        ts := ts.(endedAt := Some(e.timestamp), state := Ended, lastActivityAt := e.timestamp);
      case _ =>
        if known.None? { ts := ts.(agent := e.agent, startedAt := e.timestamp); }
        ts := ts.(lastActivityAt := e.timestamp);
    }
    if e.transcriptPath != "" { ts := ts.(transcriptPath := e.transcriptPath); }
    if e.model != "" { ts := ts.(model := e.model); }
    if e.launchID != "" { ts := ts.(launchID := e.launchID); }
  }

  lemma TransitionNamed(known: Option<Session>, e: HookEvent)
    requires Accepted(e) && (known.Some? ==> known.value.id == e.sessionID)
    ensures Detailed(Transition(known, e), e).id == e.sessionID
  {
  }

  // ---------------------------------------------------------- tracked sessions --

  /** One tracked session against a fresh scan. */
  method ScanSession(ts: Record, s: Snapshot, now: Time, evaluate: Evaluator)
    returns (after: Record, row: SessionSnapshot, covered: set<int>, raised: bool)
    ensures after == Rescanned(ts, s) && IsHookRow(after, s, now, evaluate, row)
    ensures covered == AttributedPids(s, ts.session.rootPID)
    ensures raised <==> AttributedRss(s, ts.session.rootPID) > ts.peak
  {
    var session, peak := ts.session, ts.peak;
    if session.rootPID in s.processes && session.processStartedAt == 0 {
      session := session.(processStartedAt := s.processes[session.rootPID].startedAt);
    }
    var tree, procs, totalRSS, totalCPU, ports := Attribute(s, session.rootPID);
    covered := set p | p in Pids(procs);
    raised := totalRSS > peak;
    if raised { peak := totalRSS; }
    after := Record(session, peak);
    row := SessionSnapshot(session, tree, |procs|, totalCPU, totalRSS, peak, ports, evaluate(session, tree, now),
                           NO_USAGE, 0, NO_METRICS, Owned, Confirmed);
  }

  /** The loop over the tracked sessions: expired ones go, the others are scanned. */
  method ScanSessions(before: Tracked, s: Snapshot, now: Time, evaluate: Evaluator)
    returns (sessions: Tracked, hooks: Rows, attributed: set<int>, toPersist: seq<Record>)
    requires forall id :: id in before ==> before[id].session.id == id
    ensures sessions == Ticked(before, s, now)
    ensures AreHookRows(sessions, sessions.Keys, s, now, evaluate, hooks)
    ensures attributed == CoveredPids(sessions, sessions.Keys, s)
    ensures multiset(toPersist) == multiset(Copies(sessions, Raised(before, s, now)))
  {
    ghost var after := Ticked(before, s, now);
    sessions := before;
    hooks, attributed, toPersist := [], {}, [];
    var toPrune: set<string> := {};
    var rest := sessions.Keys;
    NothingScanned(before, s, now, evaluate);
    while rest != {}
      invariant PartlyScanned(before, after, sessions, rest, toPrune)
      invariant Gathered(before, after, rest, s, now, evaluate, hooks, attributed, toPersist)
    {
      var id := NextKey(rest);
      var ts := sessions[id];
      if ts.session.state == Ended && ts.session.endedAt.Some? && Sub(now, ts.session.endedAt.value) > GRACE {
        OnePruned(before, after, rest, id, s, now, evaluate, hooks, attributed, toPersist);
        PrunedMore(before, after, sessions, rest, toPrune, id);
        toPrune := toPrune + {id};
      } else {
        var record, row, covered, up := ScanSession(ts, s, now, evaluate);
        OneScanned(before, after, rest, id, s, now, evaluate, hooks, attributed, toPersist, row);
        ScannedMore(before, after, sessions, rest, toPrune, id);
        sessions := sessions[id := record];
        hooks := hooks + [row];
        attributed := attributed + covered;
        if up { toPersist := toPersist + [record]; }
      }
      rest := rest - {id};
    }
    sessions := sessions - toPrune;
    assert sessions == after;
    AllScanned(before, after, s, now, evaluate, hooks, attributed, toPersist);
  }

  // ------------------------------------------------------------- loop lemmas --

  /** The sessions not in rest have been scanned or marked for pruning. */
  ghost predicate PartlyScanned(
      before: Tracked, after: Tracked, current: Tracked, rest: set<string>, toPrune: set<string>) {
    && rest <= before.Keys && current.Keys == before.Keys && toPrune == before.Keys - rest - after.Keys
    && forall id :: id in before ==> current[id] == if id in rest || id !in after then before[id] else after[id]
  }

  lemma PrunedMore(
      before: Tracked, after: Tracked, current: Tracked, rest: set<string>, toPrune: set<string>, id: string)
    requires PartlyScanned(before, after, current, rest, toPrune) && id in rest && id !in after
    ensures PartlyScanned(before, after, current, rest - {id}, toPrune + {id})
  {
  }

  lemma ScannedMore(
      before: Tracked, after: Tracked, current: Tracked, rest: set<string>, toPrune: set<string>, id: string)
    requires PartlyScanned(before, after, current, rest, toPrune) && id in rest && id in after
    ensures PartlyScanned(before, after, current[id := after[id]], rest - {id}, toPrune)
  {
  }

  /** What the loop has gathered from the sessions not in rest. */
  ghost predicate Gathered(
      before: Tracked, after: Tracked, rest: set<string>, s: Snapshot, now: Time, evaluate: Evaluator,
      hooks: Rows, attributed: set<int>, toPersist: seq<Record>) {
    && after == Ticked(before, s, now)
    && AreHookRows(after, after.Keys - rest, s, now, evaluate, hooks)
    && attributed == CoveredPids(after, after.Keys - rest, s)
    && AreCopies(after, Raised(before, s, now) - rest, toPersist)
  }

  lemma NothingScanned(before: Tracked, s: Snapshot, now: Time, evaluate: Evaluator)
    ensures Gathered(before, Ticked(before, s, now), before.Keys, s, now, evaluate, [], {}, [])
  {
  }

  lemma OnePruned(
      before: Tracked, after: Tracked, rest: set<string>, id: string, s: Snapshot, now: Time, evaluate: Evaluator,
      hooks: Rows, attributed: set<int>, toPersist: seq<Record>)
    requires Gathered(before, after, rest, s, now, evaluate, hooks, attributed, toPersist)
    requires id in before && Expired(before[id].session, now)
    ensures id !in after
    ensures Gathered(before, after, rest - {id}, s, now, evaluate, hooks, attributed, toPersist)
  {
    assert after.Keys - (rest - {id}) == after.Keys - rest;
    assert Raised(before, s, now) - (rest - {id}) == Raised(before, s, now) - rest;
  }

  lemma TickedAt(before: Tracked, s: Snapshot, now: Time, id: string)
    requires id in before && before[id].session.id == id && !Expired(before[id].session, now)
    ensures var after := Ticked(before, s, now);
            && id in after && after[id] == Rescanned(before[id], s) && after[id].session.id == id
            && after[id].session.rootPID == before[id].session.rootPID
    ensures id in Raised(before, s, now) <==> AttributedRss(s, before[id].session.rootPID) > before[id].peak
  {
  }

  lemma OneScanned(
      before: Tracked, after: Tracked, rest: set<string>, id: string, s: Snapshot, now: Time, evaluate: Evaluator,
      hooks: Rows, attributed: set<int>, toPersist: seq<Record>, row: SessionSnapshot)
    requires Gathered(before, after, rest, s, now, evaluate, hooks, attributed, toPersist)
    requires id in rest && id in before && before[id].session.id == id && !Expired(before[id].session, now)
    requires IsHookRow(Rescanned(before[id], s), s, now, evaluate, row)
    ensures id in after && after[id] == Rescanned(before[id], s)
    ensures Gathered(before, after, rest - {id}, s, now, evaluate, hooks + [row],
                     attributed + AttributedPids(s, before[id].session.rootPID),
                     if AttributedRss(s, before[id].session.rootPID) > before[id].peak then toPersist + [after[id]]
                     else toPersist)
  {
    TickedAt(before, s, now, id);
    OneMoreHook(after, rest, id, s, now, evaluate, hooks, row);
    OneMoreCopy(after, Raised(before, s, now), rest, id, toPersist, after[id]);
  }

  lemma AllScanned(
      before: Tracked, after: Tracked, s: Snapshot, now: Time, evaluate: Evaluator, hooks: Rows,
      attributed: set<int>, toPersist: seq<Record>)
    requires Gathered(before, after, {}, s, now, evaluate, hooks, attributed, toPersist)
    requires forall id :: id in after ==> after[id].session.id == id
    ensures AreHookRows(after, after.Keys, s, now, evaluate, hooks)
    ensures attributed == CoveredPids(after, after.Keys, s)
    ensures multiset(toPersist) == multiset(Copies(after, Raised(before, s, now)))
  {
    assert after.Keys - {} == after.Keys && Raised(before, s, now) - {} == Raised(before, s, now);
    CopiesMultiset(after, Raised(before, s, now), toPersist);
  }

  lemma SeenTable(before: map<int, Time>, pids: set<int>, now: Time, after: map<int, Time>)
    requires forall p :: p in after <==> p in pids
    requires forall p :: p in after ==> after[p] == SeenSince(before, p, now)
    ensures after == SeenAfter(before, pids, now)
  {
  }

  /** copies holds the records of the sessions at ids, once each. */
  ghost predicate AreCopies(t: Tracked, ids: set<string>, copies: seq<Record>) {
    NoDup(copies) && forall r :: r in copies <==> r.session.id in ids && r.session.id in t && t[r.session.id] == r
  }

  lemma OneMoreHook(
      t: Tracked, rest: set<string>, id: string, s: Snapshot, now: Time, evaluate: Evaluator, hooks: Rows,
      row: SessionSnapshot)
    requires AreHookRows(t, t.Keys - rest, s, now, evaluate, hooks)
    requires id in rest && id in t && t[id].session.id == id && IsHookRow(t[id], s, now, evaluate, row)
    ensures AreHookRows(t, t.Keys - (rest - {id}), s, now, evaluate, hooks + [row])
    ensures CoveredPids(t, t.Keys - (rest - {id}), s) ==
            CoveredPids(t, t.Keys - rest, s) + AttributedPids(s, t[id].session.rootPID)
  {
    var more := hooks + [row];
    assert forall r :: r in hooks ==> r.session.id != id;
    forall i, j | 0 <= i < j < |more| ensures more[i].session.id != more[j].session.id {
      if j == |hooks| { assert more[i] in hooks; }
    }
    assert row in more;
    forall k | k in t.Keys - (rest - {id}) ensures exists r :: r in more && r.session.id == k {
      if k != id {
        assert k in t.Keys - rest;
        var r :| r in hooks && r.session.id == k;
        assert r in more;
      }
    }
  }

  lemma OneMoreCopy(t: Tracked, raised: set<string>, rest: set<string>, id: string, copies: seq<Record>, r: Record)
    requires AreCopies(t, raised - rest, copies) && id in rest
    requires id in t && t[id] == r && r.session.id == id
    ensures if id in raised then AreCopies(t, raised - (rest - {id}), copies + [r])
            else AreCopies(t, raised - (rest - {id}), copies)
  {
  }

  lemma CopiesMultiset(t: Tracked, ids: set<string>, copies: seq<Record>)
    requires ids <= t.Keys && AreCopies(t, ids, copies)
    requires forall id :: id in t ==> t[id].session.id == id
    ensures multiset(copies) == multiset(Copies(t, ids))
  {
    forall r ensures multiset(copies)[r] == multiset(Copies(t, ids))[r] {
      OnceEach(copies, r);
    }
  }

  lemma SavedTelemetry(m: Telemetry.Sessions, persisted: seq<TelemetrySession>)
    requires Telemetry.WellKept(m) && ListsValues(m, TelemetryKey, persisted)
    ensures Telemetry.Rehydrate(persisted) == m
    ensures forall s :: s in persisted ==> |s.recentFingerprints| <= Telemetry.WINDOW
  {
    forall s ensures s in persisted <==> s in m.Values {
      if s in m.Values {
        var k :| k in m && m[k] == s;
      }
    }
    Telemetry.RestartRestores(m, persisted);
  }

  // --------------------------------------------------------- what it adds up to --

  /** A tick without auto-discovery is one with no patterns. */
  function AsDiscovered(cfg: Settings, v: TickRows): TickRows {
    if cfg.disableAutoDiscover then v.(patterns := [], roots := [], autos := []) else v
  }

  lemma ScannedRows(cfg: Settings, v: TickRows)
    requires Scanned(cfg, v)
    ensures AreTickRows(AsDiscovered(cfg, v))
    ensures AsDiscovered(cfg, v).hooks + AsDiscovered(cfg, v).autos == v.hooks + v.autos
    ensures ColonFree(v.t, v.patterns) ==> ColonFree(v.t, AsDiscovered(cfg, v).patterns)
  {
    if cfg.disableAutoDiscover {
      NoRoots(v.s, [], CoveredPids(v.t, v.t.Keys, v.s));
    }
  }

  /**
   * End to end: after a tick, with or without auto-discovery, no session is shown twice,
   * and the memory shown is the memory of the tick's process rows.
   */
  lemma TickShowsOnce(
      cfg: Settings, v: TickRows, tel: Telemetry.Sessions, sources: seq<UsageSource>, now: Time, window: int,
      limit: nat, rows: Rows)
    requires Scanned(cfg, v) && ColonFree(v.t, v.patterns) && NoColons(tel, sources)
    requires forall id, i :: !Clash(AsDiscovered(cfg, v), id, i)
    requires IsComposed(v.hooks + v.autos, tel, sources, now, window, limit, rows)
    ensures KeysApart(rows) && SumMemory(rows) == SumMemory(v.hooks + v.autos)
  {
    ScannedRows(cfg, v);
    TickRowsApart(AsDiscovered(cfg, v));
    ComposedSafely(v.hooks + v.autos, tel, sources, now, window, limit, rows);
  }

  /**
   * Two ticks that start alike and see the same scan show the same list, position by
   * position, unless sessions compete for a process row.
   */
  lemma TickDetermined(
      cfg: Settings, v: TickRows, w: TickRows, tel: Telemetry.Sessions, sources: seq<UsageSource>, now: Time,
      window: int, limit: nat, rows: Rows, rows': Rows)
    requires Scanned(cfg, v) && Scanned(cfg, w) && SameScan(v, w)
    requires ColonFree(v.t, v.patterns) && NoColons(tel, sources)
    requires forall id, i :: !Clash(AsDiscovered(cfg, v), id, i)
    requires NoContention(v.hooks + v.autos, tel, sources, now, window)
    requires IsComposed(v.hooks + v.autos, tel, sources, now, window, limit, rows)
    requires IsComposed(w.hooks + w.autos, tel, sources, now, window, limit, rows')
    ensures rows == rows'
  {
    ScannedRows(cfg, v);
    ScannedRows(cfg, w);
    TickRowsDetermined(AsDiscovered(cfg, v), AsDiscovered(cfg, w));
    TickRowsApart(AsDiscovered(cfg, v));
    ComposedUniquely(v.hooks + v.autos, w.hooks + w.autos, tel, sources, now, window, limit, rows, rows');
  }
}
