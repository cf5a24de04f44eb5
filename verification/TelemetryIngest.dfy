// Merging telemetry records into per-session totals (IngestTelemetry and
// hasFingerprint in internal/daemon/daemon.go). Each session remembers its last
// 256 accepted fingerprints; the theorems say what that window is worth.
module TelemetryIngest {
  import opened Base
  import opened Folds
  import opened Model
  import Paths

  datatype Event = Event(
    agent: Agent, sessionID: string, launchID: string, processPID: int, processCreatedAt: Time, cwd: string,
    model: string, timestamp: Time, usage: TokenUsage, metrics: AgentMetrics, fingerprint: string)

  const WINDOW: nat := 256

  type Sessions = map<string, TelemetrySession>

  const NO_SESSION := TelemetrySession(
    "", "", "", "", "", "", 0, 0, NO_USAGE, NO_METRICS, 0, 0, "", [])

  // -------------------------------------------------------------- one event --

  function AgentOf(e: Event): Agent {
    if e.agent == "" || e.agent == AGENT_UNKNOWN then AGENT_CODEX else e.agent
  }

  function EventKey(e: Event): string { SessionKey(AgentOf(e), e.sessionID) }

  predicate HasFingerprint(s: TelemetrySession, fingerprint: string) {
    fingerprint != "" && (s.lastFingerprint == fingerprint || fingerprint in s.recentFingerprints)
  }

  function LastN<T>(s: seq<T>, n: nat): seq<T> {
    if |s| > n then s[|s| - n..] else s
  }

  /** The stored session, or a new one started by this event. */
  function Opened(stored: Option<TelemetrySession>, e: Event): TelemetrySession {
    var s := if stored.Some? then stored.value else NO_SESSION;
    if s.sessionID == "" then s.(sessionID := e.sessionID, agent := AgentOf(e), startedAt := e.timestamp) else s
  }

  /** What an event that passed the duplicate check does to its session. */
  function Absorb(s: TelemetrySession, e: Event): TelemetrySession {
    s.(
      cwd := if e.cwd != "" then e.cwd else s.cwd,
      project := if e.cwd != "" then Paths.ProjectName(e.cwd) else s.project,
      model := if e.model != "" then e.model else s.model,
      launchID := if e.launchID != "" then e.launchID else s.launchID,
      processPID := if e.processPID > 0 then e.processPID else s.processPID,
      processCreatedAt := if e.processCreatedAt != 0 then e.processCreatedAt else s.processCreatedAt,
      startedAt := if e.timestamp != 0 && s.startedAt == 0 then e.timestamp else s.startedAt,
      updatedAt := if e.timestamp != 0 && e.timestamp > s.updatedAt then e.timestamp else s.updatedAt,
      usage := AddUsage(s.usage, e.usage),
      metrics := AddMetrics(s.metrics, e.metrics),
      lastFingerprint := e.fingerprint,
      recentFingerprints := LastN(s.recentFingerprints + [e.fingerprint], WINDOW))
  }

  /** One session's step: a duplicate leaves even the map entry alone. */
  function Step(stored: Option<TelemetrySession>, e: Event): Option<TelemetrySession> {
    var s := Opened(stored, e);
    if HasFingerprint(s, e.fingerprint) then stored else Some(Absorb(s, e))
  }

  function Get(m: Sessions, key: string): Option<TelemetrySession> {
    if key in m then Some(m[key]) else None
  }

  function Put(m: Sessions, key: string, s: Option<TelemetrySession>): Sessions {
    if s.Some? then m[key := s.value] else m
  }

  // --------------------------------------------------------------- a batch --

  /** The sessions after a whole batch. */
  function Ingest(m: Sessions, events: seq<Event>): Sessions {
    if events == [] then m
    else
      var before := Ingest(m, events[..|events| - 1]);
      var e := events[|events| - 1];
      if e.sessionID == "" then before else Put(before, EventKey(e), Step(Get(before, EventKey(e)), e))
  }

  /** One session after the events that carry its key. */
  function Run(stored: Option<TelemetrySession>, events: seq<Event>): Option<TelemetrySession> {
    if events == [] then stored else Step(Run(stored, events[..|events| - 1]), events[|events| - 1])
  }

  function ForKey(events: seq<Event>, key: string): seq<Event> {
    if events == [] then []
    else
      var e := events[|events| - 1];
      ForKey(events[..|events| - 1], key) + if e.sessionID != "" && EventKey(e) == key then [e] else []
  }

  /** The loop of IngestTelemetry. */
  method IngestBatch(m: Sessions, events: seq<Event>) returns (sessions: Sessions)
    ensures sessions == Ingest(m, events)
  {
    sessions := m;
    for i := 0 to |events|
      invariant sessions == Ingest(m, events[..i])
    {
      var event := events[i];
      assert events[..i + 1][..i] == events[..i];
      if event.sessionID == "" { continue; }
      var key := EventKey(event);
      var session := if key in sessions then sessions[key] else NO_SESSION;
      if session.sessionID == "" {
        session := session.(sessionID := event.sessionID, agent := AgentOf(event), startedAt := event.timestamp);
      }
      var duplicate := SeenBefore(session, event.fingerprint);
      if duplicate { continue; }
      sessions := sessions[key := Absorb(session, event)];
    }
    assert events[..|events|] == events;
  }

  method SeenBefore(session: TelemetrySession, fingerprint: string) returns (r: bool)
    ensures r <==> HasFingerprint(session, fingerprint)
  {
    if fingerprint == "" { return false; }
    if session.lastFingerprint == fingerprint { return true; }
    for i := 0 to |session.recentFingerprints|
      invariant fingerprint !in session.recentFingerprints[..i]
    {
      if session.recentFingerprints[i] == fingerprint { return true; }
    }
    return false;
  }

  // ---------------------------------------------------------- separability --

  /** One event's effect on the map, seen from one key. */
  lemma StepByKey(m: Sessions, e: Event, key: string)
    ensures Get(Put(m, EventKey(e), Step(Get(m, EventKey(e)), e)), key) ==
            if EventKey(e) == key then Step(Get(m, key), e) else Get(m, key)
  {
  }

  /** A session's state depends on its own events only. */
  lemma {:induction false} IngestByKey(m: Sessions, events: seq<Event>, key: string)
    ensures Get(Ingest(m, events), key) == Run(Get(m, key), ForKey(events, key))
    decreases |events|
  {
    if events != [] {
      var init, e := events[..|events| - 1], events[|events| - 1];
      IngestByKey(m, init, key);
      StepByKey(Ingest(m, init), e, key);
      var own := ForKey(init, key);
      if e.sessionID != "" && EventKey(e) == key {
        assert ForKey(events, key) == own + [e] && (own + [e])[..|own|] == own;
      } else {
        assert ForKey(events, key) == own + [] == own;
      }
    }
  }

  lemma SameEntries(a: Sessions, b: Sessions)
    requires forall key :: Get(a, key) == Get(b, key)
    ensures a == b
  {
    forall key ensures key in a <==> key in b { assert Get(a, key) == Get(b, key); }
    forall key | key in a ensures a[key] == b[key] { assert Get(a, key) == Get(b, key); }
  }

  /** Events are filed under agent and session ID, and an unknown agent is Codex. */
  lemma FiledUnder(e: Event)
    ensures EventKey(e) == (if e.agent == "" || e.agent == "unknown" then "codex" else e.agent) + ":" + e.sessionID
  {
  }

  /** Any interleaving of the sessions' own event orders gives the same state. */
  lemma InterleavingIrrelevant(m: Sessions, a: seq<Event>, b: seq<Event>)
    requires forall key :: ForKey(a, key) == ForKey(b, key)
    ensures Ingest(m, a) == Ingest(m, b)
  {
    forall key ensures Get(Ingest(m, a), key) == Get(Ingest(m, b), key) {
      IngestByKey(m, a, key);
      IngestByKey(m, b, key);
    }
    SameEntries(Ingest(m, a), Ingest(m, b));
  }

  /** Batch boundaries are invisible. */
  lemma {:induction false} IngestConcat(m: Sessions, a: seq<Event>, b: seq<Event>)
    ensures Ingest(m, a + b) == Ingest(Ingest(m, a), b)
    decreases |b|
  {
    if b == [] {
      assert a + b == a;
    } else {
      var init, e := b[..|b| - 1], b[|b| - 1];
      IngestConcat(m, a, init);
      assert (a + b)[..|a + b| - 1] == a + init;
    }
  }

  lemma {:induction false} RunConcat(stored: Option<TelemetrySession>, a: seq<Event>, b: seq<Event>)
    ensures Run(stored, a + b) == Run(Run(stored, a), b)
    decreases |b|
  {
    if b == [] {
      assert a + b == a;
    } else {
      var init := b[..|b| - 1];
      RunConcat(stored, a, init);
      assert (a + b)[..|a + b| - 1] == a + init;
    }
  }

  // --------------------------------------------- the window and exactness ----

  function Fingerprints(events: seq<Event>): seq<string> {
    seq(|events|, i requires 0 <= i < |events| => events[i].fingerprint)
  }

  /** The events a 256-entry window lets through, oldest first. */
  function Accepted(events: seq<Event>): seq<Event> {
    if events == [] then []
    else
      var acc, e := Accepted(events[..|events| - 1]), events[|events| - 1];
      if e.fingerprint != "" && e.fingerprint in LastN(Fingerprints(acc), WINDOW) then acc else acc + [e]
  }

  /** The events unbounded memory would let through: each non-empty fingerprint once. */
  function Exact(events: seq<Event>): seq<Event> {
    if events == [] then []
    else
      var acc, e := Exact(events[..|events| - 1]), events[|events| - 1];
      if e.fingerprint != "" && e.fingerprint in Fingerprints(acc) then acc else acc + [e]
  }

  function SumUsage(events: seq<Event>): TokenUsage {
    if events == [] then NO_USAGE else AddUsage(SumUsage(events[..|events| - 1]), events[|events| - 1].usage)
  }

  function SumMetrics(events: seq<Event>): AgentMetrics {
    if events == [] then NO_METRICS else AddMetrics(SumMetrics(events[..|events| - 1]), events[|events| - 1].metrics)
  }

  function UsageOf(e: Event): TokenUsage { e.usage }
  function MetricsOf(e: Event): AgentMetrics { e.metrics }

  /** The sums of usage and metrics, counter by counter. */
  lemma {:induction false} SumsArePlain(events: seq<Event>)
    ensures IsSum(SumUsage(events), Map(UsageOf, events))
    ensures IsMetricSum(SumMetrics(events), Map(MetricsOf, events))
    decreases |events|
  {
    if events != [] {
      var init, e := events[..|events| - 1], events[|events| - 1];
      assert events == init + [e];
      SumsArePlain(init);
      MapSnoc(UsageOf, init, e);
      MapSnoc(MetricsOf, init, e);
      IsSumSnoc(SumUsage(init), Map(UsageOf, init), e.usage);
      IsMetricSumSnoc(SumMetrics(init), Map(MetricsOf, init), e.metrics);
    }
  }

  lemma FingerprintsSnoc(events: seq<Event>, e: Event)
    ensures Fingerprints(events + [e]) == Fingerprints(events) + [e.fingerprint]
  {
  }

  lemma LastNSnoc<T>(s: seq<T>, x: T, n: nat)
    requires n > 0
    ensures LastN(LastN(s, n) + [x], n) == LastN(s + [x], n)
  {
  }

  function CwdOf(e: Event): string { e.cwd }
  function ModelOf(e: Event): string { e.model }
  function LaunchOf(e: Event): string { e.launchID }
  function TimeOf(e: Event): Time { e.timestamp }
  function PidOf(e: Event): int { e.processPID }
  function CreatedOf(e: Event): Time { e.processCreatedAt }

  /** s is what a session that started with nothing holds after accepting acc. */
  ghost predicate Holds(s: TelemetrySession, acc: seq<Event>)
    requires acc != []
  {
    && s.sessionID != ""
    && s.usage == SumUsage(acc)
    && s.recentFingerprints == LastN(Fingerprints(acc), WINDOW)
    && s.lastFingerprint == acc[|acc| - 1].fingerprint
    && s.cwd == LastText(Map(CwdOf, acc)) && (s.cwd != "" ==> s.project == Paths.ProjectName(s.cwd))
    && s.model == LastText(Map(ModelOf, acc)) && s.launchID == LastText(Map(LaunchOf, acc))
    && s.startedAt == FirstTime(Map(TimeOf, acc)) && s.updatedAt == LatestTime(Map(TimeOf, acc))
    && s.metrics == SumMetrics(acc)
    && s.processPID == LastPositive(Map(PidOf, acc)) && s.processCreatedAt == LastTime(Map(CreatedOf, acc))
  }

  ghost predicate HoldsNothing(s: TelemetrySession, e: Event) {
    && s.usage == NO_USAGE && s.recentFingerprints == [] && s.cwd == s.model == s.launchID == ""
    && s.startedAt == e.timestamp && s.updatedAt == 0 && s.metrics == NO_METRICS
    && s.processPID == 0 && s.processCreatedAt == 0
  }

  lemma AbsorbHolds(s: TelemetrySession, acc: seq<Event>, e: Event)
    requires s.sessionID != ""
    requires acc == [] ==> HoldsNothing(s, e)
    requires acc != [] ==> Holds(s, acc)
    ensures Holds(Absorb(s, e), acc + [e])
  {
    FingerprintsSnoc(acc, e);
    LastNSnoc(Fingerprints(acc), e.fingerprint, WINDOW);
    assert (acc + [e])[..|acc|] == acc;
    MapSnoc(CwdOf, acc, e);
    MapSnoc(ModelOf, acc, e);
    MapSnoc(LaunchOf, acc, e);
    MapSnoc(TimeOf, acc, e);
    LastTextConcat(Map(CwdOf, acc), [e.cwd]);
    LastTextConcat(Map(ModelOf, acc), [e.model]);
    LastTextConcat(Map(LaunchOf, acc), [e.launchID]);
    FirstTimeConcat(Map(TimeOf, acc), [e.timestamp]);
    LatestTimeConcat(Map(TimeOf, acc), [e.timestamp]);
    MapSnoc(PidOf, acc, e);
    MapSnoc(CreatedOf, acc, e);
    assert Map(PidOf, acc + [e])[..|acc|] == Map(PidOf, acc);
    assert Map(CreatedOf, acc + [e])[..|acc|] == Map(CreatedOf, acc);
  }

  lemma WindowDecides(s: TelemetrySession, acc: seq<Event>, f: string)
    requires acc != [] && Holds(s, acc)
    ensures HasFingerprint(s, f) <==> f != "" && f in LastN(Fingerprints(acc), WINDOW)
  {
    var fps := Fingerprints(acc);
    var last := LastN(fps, WINDOW);
    assert last[|last| - 1] == fps[|fps| - 1] == s.lastFingerprint;
  }

  /**
   * From the first event of a session on, its totals are the sum over the accepted
   * events and its window is the last min(n, 256) of their fingerprints.
   */
  lemma {:induction false} RunAccumulates(events: seq<Event>)
    requires events != [] && forall e :: e in events ==> e.sessionID != ""
    ensures Accepted(events) != []
    ensures Run(None, events).Some? && Holds(Run(None, events).value, Accepted(events))
    ensures Run(None, events).value.sessionID == events[0].sessionID
    ensures Run(None, events).value.agent == AgentOf(events[0])
    decreases |events|
  {
    var init, e := events[..|events| - 1], events[|events| - 1];
    assert e in events;
    if init == [] {
      assert Run(None, init) == None && Accepted(init) == [];
      AbsorbHolds(Opened(None, e), [], e);
    } else {
      assert forall x :: x in init ==> x in events;
      RunAccumulates(init);
      var s, acc := Run(None, init).value, Accepted(init);
      WindowDecides(s, acc, e.fingerprint);
      AbsorbHolds(s, acc, e);
      assert Opened(Some(s), e) == s;
    }
  }

  /**
   * In plain terms: s has, of the accepted events acc, the counters added up, the last 256
   * fingerprints, the last directory, model, launch ID, process and process start that was
   * given, the first time and the latest one.
   */
  ghost predicate Accumulated(s: TelemetrySession, acc: seq<Event>) {
    && IsSum(s.usage, Map(UsageOf, acc)) && IsMetricSum(s.metrics, Map(MetricsOf, acc))
    && s.recentFingerprints == (if |acc| > 256 then Fingerprints(acc)[|acc| - 256..] else Fingerprints(acc))
    && IsLastSet(Map(CwdOf, acc), "", s.cwd) && (s.cwd != "" ==> s.project == Paths.ProjectName(s.cwd))
    && IsLastSet(Map(ModelOf, acc), "", s.model) && IsLastSet(Map(LaunchOf, acc), "", s.launchID)
    && IsFirstTime(Map(TimeOf, acc), s.startedAt) && IsLatest(Map(TimeOf, acc), s.updatedAt)
    && IsLastPositive(Map(PidOf, acc), s.processPID) && IsLastSet(Map(CreatedOf, acc), 0, s.processCreatedAt)
  }

  lemma HeldIsAccumulated(s: TelemetrySession, acc: seq<Event>)
    requires acc != [] && Holds(s, acc)
    ensures Accumulated(s, acc)
  {
    SumsArePlain(acc);
    LastTextIs(Map(CwdOf, acc));
    LastTextIs(Map(ModelOf, acc));
    LastTextIs(Map(LaunchOf, acc));
    FirstTimeIs(Map(TimeOf, acc));
    LastPositiveIs(Map(PidOf, acc));
    LastTimeIs(Map(CreatedOf, acc));
  }

  /**
   * From the first event of a session on, its state is what the accepted events add up to;
   * it is named by the first, whose agent counts as Codex when it is not known.
   */
  lemma SessionAccumulates(events: seq<Event>)
    requires events != [] && forall e :: e in events ==> e.sessionID != ""
    ensures Run(None, events).Some? && Accumulated(Run(None, events).value, Accepted(events))
    ensures Run(None, events).value.sessionID == events[0].sessionID
    ensures Run(None, events).value.agent ==
            if events[0].agent == "" || events[0].agent == "unknown" then "codex" else events[0].agent
  {
    RunAccumulates(events);
    HeldIsAccumulated(Run(None, events).value, Accepted(events));
  }

  /** events[j] delivers again the fingerprint first delivered by events[i]. */
  ghost predicate Redelivers(events: seq<Event>, i: nat, j: nat) {
    && i < j < |events| && events[j].fingerprint != "" && events[i].fingerprint == events[j].fingerprint
    && events[i].fingerprint !in Fingerprints(events[..i])
  }

  /** Events new to the session among the deliveries from position i up to j. */
  ghost function NewBetween(events: seq<Event>, i: nat, j: nat): int
    requires i <= |events| && j <= |events|
  {
    |Exact(events[..j])| - |Exact(events[..i])|
  }

  /**
   * Every redelivery of a fingerprint comes while at most 256 events that are new to
   * the session have been delivered, counted from its first delivery on.
   */
  ghost predicate RedeliveredInTime(events: seq<Event>) {
    forall i: nat, j: nat :: Redelivers(events, i, j) ==> NewBetween(events, i, j) <= 256
  }

  lemma {:induction false} ExactRemembers(events: seq<Event>, i: nat, j: nat)
    requires i <= j <= |events|
    ensures Exact(events[..i]) <= Exact(events[..j])
    ensures i < j && events[i].fingerprint != "" && events[i].fingerprint !in Fingerprints(events[..i]) ==>
              && |Exact(events[..i])| < |Exact(events[..j])|
              && Exact(events[..j])[|Exact(events[..i])|].fingerprint == events[i].fingerprint
    decreases j
  {
    if i < j {
      ExactRemembers(events, i, j - 1);
      assert events[..j][..j - 1] == events[..j - 1];
      if i == j - 1 && events[i].fingerprint != "" {
        ExactSameFingerprints(events[..i], events[i].fingerprint);
      }
    }
  }

  lemma {:induction false} ExactSameFingerprints(events: seq<Event>, f: string)
    requires f != ""
    ensures f in Fingerprints(Exact(events)) <==> f in Fingerprints(events)
    decreases |events|
  {
    if events != [] {
      var init, e := events[..|events| - 1], events[|events| - 1];
      ExactSameFingerprints(init, f);
      assert events == init + [e];
      FingerprintsSnoc(init, e);
      FingerprintsSnoc(Exact(init), e);
    }
  }

  lemma {:induction false} ExactDistinct(events: seq<Event>, p: nat, q: nat)
    requires p < q < |Exact(events)| && Exact(events)[q].fingerprint != ""
    ensures Exact(events)[p].fingerprint != Exact(events)[q].fingerprint
    decreases |events|
  {
    var init, e := events[..|events| - 1], events[|events| - 1];
    var acc := Exact(init);
    if q < |acc| {
      ExactDistinct(init, p, q);
    } else {
      assert Fingerprints(acc)[p] == acc[p].fingerprint;
    }
  }

  lemma {:induction false} FirstDelivery(events: seq<Event>, f: string) returns (i: nat)
    requires f in Fingerprints(events)
    ensures i < |events| && events[i].fingerprint == f && f !in Fingerprints(events[..i])
    decreases |events|
  {
    var n := |events| - 1;
    FingerprintsSnoc(events[..n], events[n]);
    assert events[..n] + [events[n]] == events;
    if f in Fingerprints(events[..n]) {
      i := FirstDelivery(events[..n], f);
      assert events[..n][..i] == events[..i];
    } else {
      i := n;
    }
  }

  /** A remembered fingerprint is in the window exactly when its first delivery is recent enough. */
  lemma InWindow(events: seq<Event>, i: nat, j: nat)
    requires i < j <= |events| && events[i].fingerprint != ""
    requires events[i].fingerprint !in Fingerprints(events[..i])
    ensures events[i].fingerprint in LastN(Fingerprints(Exact(events[..j])), WINDOW) <==>
            NewBetween(events, i, j) <= WINDOW
  {
    ExactRemembers(events, i, j);
    var f, all, at := events[i].fingerprint, Exact(events[..j]), |Exact(events[..i])|;
    var fps := Fingerprints(all);
    var last := LastN(fps, WINDOW);
    assert fps[at] == f;
    if |all| - at <= WINDOW {
      assert last[at - (|fps| - |last|)] == f;
    } else {
      forall k | 0 <= k < |last| ensures last[k] != f {
        var q := k + (|fps| - |last|);
        assert last[k] == fps[q] == all[q].fingerprint;
        if all[q].fingerprint == f {
          ExactDistinct(events[..j], at, q);
        }
      }
    }
  }

  /**
   * The bounded window accepts exactly what unbounded memory accepts if and only if
   * every redelivery comes in time; otherwise it accepts strictly more.
   */
  lemma {:induction false} WindowIsExact(events: seq<Event>)
    ensures Accepted(events) == Exact(events) <==> RedeliveredInTime(events)
    ensures Accepted(events) == Exact(events) || |Accepted(events)| > |Exact(events)|
    decreases |events|
  {
    if events != [] {
      var init := events[..|events| - 1];
      WindowIsExact(init);
      PrefixInTime(events);
      if Accepted(init) == Exact(init) {
        NewestInTime(events);
      } else {
        StaysAhead(events);
      }
    }
  }

  /** The redelivery condition, for the newest event alone. */
  ghost predicate NewestOk(events: seq<Event>)
    requires events != []
  {
    var n := |events| - 1;
    forall i: nat :: Redelivers(events, i, n) ==> NewBetween(events, i, n) <= WINDOW
  }

  lemma PrefixInTime(events: seq<Event>)
    requires events != []
    ensures RedeliveredInTime(events) <==> RedeliveredInTime(events[..|events| - 1]) && NewestOk(events)
  {
    var n := |events| - 1;
    var init := events[..n];
    forall i: nat, j: nat | j < n
      ensures Redelivers(init, i, j) <==> Redelivers(events, i, j)
      ensures i <= j ==> NewBetween(init, i, j) == NewBetween(events, i, j)
    {
      if i <= j {
        assert init[..i] == events[..i] && init[..j] == events[..j];
      }
    }
  }

  lemma EarlierIsListed(events: seq<Event>, i: nat, k: nat)
    requires i < k <= |events|
    ensures events[i].fingerprint in Fingerprints(events[..k])
  {
    assert Fingerprints(events[..k])[i] == events[i].fingerprint;
  }

  lemma FirstIsUnique(events: seq<Event>, i: nat, k: nat, j: nat)
    requires Redelivers(events, i, j) && Redelivers(events, k, j)
    ensures i == k
  {
    if i < k { EarlierIsListed(events, i, k); }
    if k < i { EarlierIsListed(events, k, i); }
  }

  lemma NewestInTime(events: seq<Event>)
    requires events != []
    requires Accepted(events[..|events| - 1]) == Exact(events[..|events| - 1])
    ensures Accepted(events) == Exact(events) <==> NewestOk(events)
    ensures Accepted(events) == Exact(events) || |Accepted(events)| > |Exact(events)|
  {
    var n := |events| - 1;
    var init, f := events[..n], events[n].fingerprint;
    if f != "" {
      ExactSameFingerprints(init, f);
      if f in Fingerprints(init) {
        var i := FirstDelivery(init, f);
        assert init[..i] == events[..i] && init[i] == events[i];
        InWindow(events, i, n);
        forall k: nat | Redelivers(events, k, n) ensures k == i { FirstIsUnique(events, i, k, n); }
      } else {
        forall i: nat | i < n ensures !Redelivers(events, i, n) {
          assert Fingerprints(init)[i] == events[i].fingerprint;
        }
      }
    }
  }

  lemma {:induction false} AcceptedSubset(events: seq<Event>, f: string)
    requires f in Fingerprints(Accepted(events))
    ensures f in Fingerprints(events)
    decreases |events|
  {
    var init, e := events[..|events| - 1], events[|events| - 1];
    FingerprintsSnoc(init, e);
    assert events == init + [e];
    FingerprintsSnoc(Accepted(init), e);
    if f in Fingerprints(Accepted(init)) { AcceptedSubset(init, f); }
  }

  /** What is new to unbounded memory is new to the window too, so a lead is never lost. */
  lemma StaysAhead(events: seq<Event>)
    requires events != []
    requires |Accepted(events[..|events| - 1])| > |Exact(events[..|events| - 1])|
    ensures |Accepted(events)| > |Exact(events)|
  {
    var init, f := events[..|events| - 1], events[|events| - 1].fingerprint;
    var acc := Accepted(init);
    if f != "" && f in LastN(Fingerprints(acc), WINDOW) {
      assert f in Fingerprints(acc);
      AcceptedSubset(init, f);
      ExactSameFingerprints(init, f);
    }
  }

  /** Any number of deliveries, all different and none without a fingerprint. */
  ghost predicate AllFresh(events: seq<Event>) {
    NoDup(Fingerprints(events)) && forall f :: f in Fingerprints(events) ==> f != ""
  }

  lemma {:induction false} FreshAreAccepted(events: seq<Event>)
    requires AllFresh(events)
    ensures Accepted(events) == events && Exact(events) == events
    decreases |events|
  {
    if events != [] {
      var n := |events| - 1;
      var init, e := events[..n], events[n];
      var fps := Fingerprints(events);
      assert events == init + [e];
      FingerprintsSnoc(init, e);
      assert fps == Fingerprints(init) + [e.fingerprint];
      PrefixNoDup(Fingerprints(init), e.fingerprint);
      assert e.fingerprint in fps && forall f :: f in Fingerprints(init) ==> f in fps;
      FreshAreAccepted(init);
    }
  }

  lemma PrefixNoDup(a: seq<string>, f: string)
    requires NoDup(a + [f])
    ensures NoDup(a) && f !in a
  {
    var b := a + [f];
    forall i, j | 0 <= i < j < |a| ensures a[i] != a[j] { assert b[i] != b[j]; }
    forall i | 0 <= i < |a| ensures a[i] != f { assert b[i] != b[|a|]; }
  }

  /** Where the window falls short: after 257 different deliveries the first one counts again. */
  lemma WindowFallsShort(events: seq<Event>)
    requires |events| == 257 && AllFresh(events)
    ensures var more := events + [events[0]];
            && Exact(more) == events && Accepted(more) == more && !RedeliveredInTime(more)
  {
    var more, f := events + [events[0]], events[0].fingerprint;
    var fps := Fingerprints(events);
    assert more[..|events|] == events && more[|events|] == events[0];
    FreshAreAccepted(events);
    assert fps[0] == f && f in fps;
    var last := LastN(fps, WINDOW);
    forall i | 0 <= i < |last| ensures last[i] != f {
      assert last[i] == fps[i + 1];
    }
    assert Exact(more) == events;
    assert Accepted(more) == events + [events[0]];
    assert |Accepted(more)| != |Exact(more)|;
    WindowIsExact(more);
  }

  function Marks(n: nat): string { seq(n, i requires 0 <= i < n => 'x') }

  /** Such deliveries exist: fingerprints of 257 different lengths. */
  lemma WindowFallsShortSomewhere() returns (events: seq<Event>)
    ensures |events| == 257 && AllFresh(events)
    ensures Exact(events + [events[0]]) == events && Accepted(events + [events[0]]) == events + [events[0]]
  {
    events := seq(WINDOW + 1, i requires 0 <= i < WINDOW + 1 =>
      Event(AGENT_CODEX, "s", "", 0, 0, "", "", 1, NO_USAGE, NO_METRICS, Marks(i + 1)));
    var fps := Fingerprints(events);
    forall i, j | 0 <= i < j < |fps| ensures fps[i] != fps[j] {
      assert |fps[i]| == i + 1 && |fps[j]| == j + 1;
    }
    forall f | f in fps ensures f != "" {
      var i :| 0 <= i < |fps| && fps[i] == f;
      assert |fps[i]| == i + 1;
    }
    WindowFallsShort(events);
  }

  /** Token totals of a session equal the sum over distinct deliveries when redeliveries come in time. */
  lemma TotalsAreExact(events: seq<Event>)
    requires events != [] && forall e :: e in events ==> e.sessionID != ""
    requires RedeliveredInTime(events)
    ensures Run(None, events).Some?
    ensures IsSum(Run(None, events).value.usage, Map(UsageOf, Exact(events)))
    ensures IsMetricSum(Run(None, events).value.metrics, Map(MetricsOf, Exact(events)))
  {
    RunAccumulates(events);
    WindowIsExact(events);
    SumsArePlain(Exact(events));
  }

  // --------------------------------------------------- over any list of batches --

  function IngestAll(m: Sessions, batches: seq<seq<Event>>): Sessions {
    if batches == [] then m else Ingest(IngestAll(m, batches[..|batches| - 1]), batches[|batches| - 1])
  }

  function AllEvents(batches: seq<seq<Event>>): seq<Event> {
    if batches == [] then [] else AllEvents(batches[..|batches| - 1]) + batches[|batches| - 1]
  }

  lemma {:induction false} IngestAllIsOne(m: Sessions, batches: seq<seq<Event>>)
    ensures IngestAll(m, batches) == Ingest(m, AllEvents(batches))
    decreases |batches|
  {
    if batches != [] {
      var init, last := batches[..|batches| - 1], batches[|batches| - 1];
      IngestAllIsOne(m, init);
      IngestConcat(m, AllEvents(init), last);
    }
  }

  lemma {:induction false} OwnEventsNamed(events: seq<Event>, key: string)
    ensures forall e :: e in ForKey(events, key) ==> e.sessionID != "" && EventKey(e) == key
    decreases |events|
  {
    if events != [] { OwnEventsNamed(events[..|events| - 1], key); }
  }

  /**
   * However a daemon that started with nothing was fed, a session that has received an
   * event holds the sum over the distinct deliveries of its own events, in time.
   */
  lemma BatchTotalsAreExact(batches: seq<seq<Event>>, key: string)
    requires ForKey(AllEvents(batches), key) != [] && RedeliveredInTime(ForKey(AllEvents(batches), key))
    ensures var own := ForKey(AllEvents(batches), key);
            && key in IngestAll(map[], batches)
            && IsSum(IngestAll(map[], batches)[key].usage, Map(UsageOf, Exact(own)))
            && IsMetricSum(IngestAll(map[], batches)[key].metrics, Map(MetricsOf, Exact(own)))
            && IngestAll(map[], batches)[key].recentFingerprints == LastN(Fingerprints(Exact(own)), 256)
  {
    var own := ForKey(AllEvents(batches), key);
    IngestAllIsOne(map[], batches);
    IngestByKey(map[], AllEvents(batches), key);
    OwnEventsNamed(AllEvents(batches), key);
    RunAccumulates(own);
    WindowIsExact(own);
    SumsArePlain(Exact(own));
  }

  // ----------------------------------------------------------------- replay --

  /** A fingerprint that no memory of the stored session knows. */
  ghost predicate Fresh(stored: Option<TelemetrySession>, f: string) {
    f != "" && (stored.Some? ==> !HasFingerprint(stored.value, f))
  }

  function Memory(stored: Option<TelemetrySession>): TelemetrySession {
    if stored.Some? then stored.value else NO_SESSION
  }

  /** r remembers a on top of what s remembered, and a covers events. */
  ghost predicate Remembers(s: TelemetrySession, r: TelemetrySession, events: seq<Event>, a: seq<string>) {
    && |a| <= |events|
    && r.recentFingerprints == LastN(s.recentFingerprints + a, WINDOW)
    && r.lastFingerprint == (if a == [] then s.lastFingerprint else a[|a| - 1])
    && forall e :: e in events ==> e.fingerprint in a
  }

  lemma StepMemory(stored: Option<TelemetrySession>, e: Event)
    ensures var s, r := Memory(stored), Memory(Step(stored, e));
            if HasFingerprint(s, e.fingerprint) then r == s
            else r.recentFingerprints == LastN(s.recentFingerprints + [e.fingerprint], WINDOW) &&
                 r.lastFingerprint == e.fingerprint
  {
  }

  lemma RemembersOneMore(
      s: TelemetrySession, r: TelemetrySession, r': TelemetrySession, init: seq<Event>, e: Event, a: seq<string>)
    returns (a': seq<string>)
    requires |init| < WINDOW && Remembers(s, r, init, a)
    requires e.fingerprint != "" && !HasFingerprint(s, e.fingerprint)
    requires if HasFingerprint(r, e.fingerprint) then r' == r
             else r'.recentFingerprints == LastN(r.recentFingerprints + [e.fingerprint], WINDOW) &&
                  r'.lastFingerprint == e.fingerprint
    ensures Remembers(s, r', init + [e], a')
  {
    if HasFingerprint(r, e.fingerprint) {
      LastNMember(s.recentFingerprints, a, e.fingerprint);
      a' := a;
    } else {
      LastNSnoc(s.recentFingerprints + a, e.fingerprint, WINDOW);
      assert (s.recentFingerprints + a) + [e.fingerprint] == s.recentFingerprints + (a + [e.fingerprint]);
      a' := a + [e.fingerprint];
    }
  }

  lemma {:induction false} RunRemembers(stored: Option<TelemetrySession>, events: seq<Event>)
    returns (a: seq<string>)
    requires |events| <= WINDOW && (stored.Some? ==> |stored.value.recentFingerprints| <= WINDOW)
    requires forall e :: e in events ==> Fresh(stored, e.fingerprint)
    ensures Remembers(Memory(stored), Memory(Run(stored, events)), events, a)
    decreases |events|
  {
    if events == [] {
      a := [];
      var w := Memory(stored).recentFingerprints;
      assert w + [] == w;
    } else {
      var init, e := events[..|events| - 1], events[|events| - 1];
      assert events == init + [e];
      assert e in events && forall x :: x in init ==> x in events;
      a := RunRemembers(stored, init);
      StepMemory(Run(stored, init), e);
      a := RemembersOneMore(Memory(stored), Memory(Run(stored, init)), Memory(Run(stored, events)), init, e, a);
    }
  }

  lemma LastNMember(w: seq<string>, a: seq<string>, f: string)
    requires f in LastN(w + a, WINDOW) || f !in w
    ensures f in LastN(w + a, WINDOW) ==> f in w || f in a
    ensures |a| <= WINDOW && f in a ==> f in LastN(w + a, WINDOW)
  {
    if |a| <= WINDOW && f in a {
      var k :| 0 <= k < |a| && a[k] == f;
      var last := LastN(w + a, WINDOW);
      assert last[|last| - |a| + k] == a[k];
    }
  }

  /** Delivering the same events again leaves the session as it is. */
  lemma {:induction false} ReplayIgnored(stored: Option<TelemetrySession>, events: seq<Event>, k: nat)
    requires |events| <= WINDOW && k <= |events|
    requires stored.Some? ==> |stored.value.recentFingerprints| <= WINDOW
    requires forall e :: e in events ==> Fresh(stored, e.fingerprint)
    ensures Run(Run(stored, events), events[..k]) == Run(stored, events)
    decreases k
  {
    if k > 0 {
      ReplayIgnored(stored, events, k - 1);
      assert events[..k][..k - 1] == events[..k - 1];
      var a := RunRemembers(stored, events);
      var f := events[k - 1].fingerprint;
      assert events[k - 1] in events;
      LastNMember(Memory(stored).recentFingerprints, a, f);
      assert HasFingerprint(Memory(Run(stored, events)), f);
    }
  }

  /** A batch with at most 256 fresh events per session can be delivered twice without effect. */
  lemma ReplayBatch(m: Sessions, events: seq<Event>)
    requires forall key :: |ForKey(events, key)| <= 256
    requires forall key :: key in m ==> |m[key].recentFingerprints| <= 256
    requires forall key, e :: e in ForKey(events, key) ==> Fresh(Get(m, key), e.fingerprint)
    ensures Ingest(Ingest(m, events), events) == Ingest(m, events)
  {
    forall key ensures Get(Ingest(Ingest(m, events), events), key) == Get(Ingest(m, events), key) {
      var own := ForKey(events, key);
      IngestByKey(m, events, key);
      IngestByKey(Ingest(m, events), events, key);
      ReplayIgnored(Get(m, key), own, |own|);
      assert own[..|own|] == own;
    }
    SameEntries(Ingest(Ingest(m, events), events), Ingest(m, events));
  }

  // ------------------------------------------------------ what runs preserve --

  /** Every entry sits under its own key and its window is bounded. */
  ghost predicate WellKept(m: Sessions) {
    forall key :: key in m ==>
      && m[key].sessionID != "" && key == SessionKey(m[key].agent, m[key].sessionID)
      && |m[key].recentFingerprints| <= WINDOW
  }

  lemma {:induction false} IngestKeeps(m: Sessions, events: seq<Event>)
    requires WellKept(m)
    ensures WellKept(Ingest(m, events))
    ensures forall key :: key in m ==> key in Ingest(m, events)
    decreases |events|
  {
    if events != [] {
      IngestKeeps(m, events[..|events| - 1]);
    }
  }

  /** The map New rebuilds from a persisted list. */
  function Rehydrate(persisted: seq<TelemetrySession>): Sessions {
    if persisted == [] then map[]
    else
      var m, s := Rehydrate(persisted[..|persisted| - 1]), persisted[|persisted| - 1];
      if s.sessionID != "" then m[SessionKey(s.agent, s.sessionID) := s] else m
  }

  method RehydrateTelemetry(persisted: seq<TelemetrySession>) returns (m: Sessions)
    ensures m == Rehydrate(persisted)
  {
    m := map[];
    for i := 0 to |persisted|
      invariant m == Rehydrate(persisted[..i])
    {
      assert persisted[..i + 1][..i] == persisted[..i];
      var session := persisted[i];
      if session.sessionID != "" {
        m := m[SessionKey(session.agent, session.sessionID) := session];
      }
    }
    assert persisted[..|persisted|] == persisted;
  }

  lemma {:induction false} RehydrateKeeps(persisted: seq<TelemetrySession>)
    requires forall s :: s in persisted ==> |s.recentFingerprints| <= WINDOW
    ensures WellKept(Rehydrate(persisted))
    decreases |persisted|
  {
    if persisted != [] {
      var init, s := persisted[..|persisted| - 1], persisted[|persisted| - 1];
      assert persisted == init + [s];
      assert s in persisted;
      RehydrateKeeps(init);
    }
  }

  lemma {:induction false} RehydrateEntries(m: Sessions, persisted: seq<TelemetrySession>, key: string)
    requires WellKept(m) && forall s :: s in persisted ==> s in m.Values
    ensures key in Rehydrate(persisted) <==> key in m && m[key] in persisted
    ensures key in Rehydrate(persisted) ==> Rehydrate(persisted)[key] == m[key]
    decreases |persisted|
  {
    if persisted != [] {
      var init, s := persisted[..|persisted| - 1], persisted[|persisted| - 1];
      assert persisted == init + [s];
      RehydrateEntries(m, init, key);
      assert s in persisted;
      var k :| k in m && m[k] == s;
      assert k == SessionKey(s.agent, s.sessionID);
    }
  }

  /** A restart reads back the map it wrote, in whatever order the list was written. */
  lemma RestartRestores(m: Sessions, persisted: seq<TelemetrySession>)
    requires WellKept(m) && forall s :: s in persisted <==> s in m.Values
    ensures Rehydrate(persisted) == m
  {
    forall key ensures Get(Rehydrate(persisted), key) == Get(m, key) {
      RehydrateEntries(m, persisted, key);
      if key in m { assert m[key] in m.Values; }
    }
    SameEntries(Rehydrate(persisted), m);
  }
}
