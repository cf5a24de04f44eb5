// What the fields of a tracked session are after any run: who set the root process, the
// directory, the times and the launch ID (HandleEvent, Tick and New in
// internal/daemon/daemon.go).
module Tracking {
  import opened Base
  import opened Lifecycle
  import opened Model
  import opened ProcScan
  import opened ProcessTree
  import opened Revival
  import opened Store
  import Paths

  // --------------------------------------------------------------- one event --

  /** The time an event counts with: its own, or the daemon's if it has none. */
  function TimeOf(e: HookEvent, now: Time): Time { if e.timestamp == 0 then now else e.timestamp }

  /** What every accepted event adds when it carries it; text is what was known before. */
  function Given(text: string, known: string): string { if text != "" then text else known }

  /** The details an event leaves behind: those it carries, else those known before. */
  ghost predicate KeepsDetails(s: Session, e: HookEvent, path: string, model: string, launch: string) {
    && s.transcriptPath == Given(e.transcriptPath, path) && s.model == Given(e.model, model)
    && s.launchID == Given(e.launchID, launch)
  }

  /** A start sets agent, directory, project, root process and both times, and clears the end. */
  ghost predicate Started(s: Session, e: HookEvent, now: Time) {
    && s.agent == e.agent && s.cwd == e.cwd && s.rootPID == e.pid
    && s.project == (if Paths.Base(e.cwd) == "." then "unknown" else Paths.Base(e.cwd))
    && s.startedAt == TimeOf(e, now) && s.lastActivityAt == TimeOf(e, now)
    && s.state == Active && s.endedAt == None
  }

  /** A session first heard of by another event has no root process, directory or project. */
  ghost predicate FirstHeard(s: Session, e: HookEvent, now: Time) {
    && s.cwd == "" && s.project == "" && s.rootPID == 0 && s.processStartedAt == 0 && s.source == Hook
    && s.agent == (if e.kind == SessionEnd then "" else e.agent)
    && s.startedAt == TimeOf(e, now) && s.lastActivityAt == TimeOf(e, now)
    && s.state == (if e.kind == SessionEnd then Ended else Active)
    && s.endedAt == (if e.kind == SessionEnd then Some(TimeOf(e, now)) else None)
  }

  /** Any other event of a tracked session moves its activity time, an end also ends it; the rest stays. */
  ghost predicate Continued(s: Session, was: Session, e: HookEvent, now: Time) {
    && s.agent == was.agent && s.cwd == was.cwd && s.project == was.project && s.rootPID == was.rootPID
    && s.startedAt == was.startedAt && s.lastActivityAt == TimeOf(e, now)
    && s.state == (if e.kind == SessionEnd then Ended else was.state)
    && s.endedAt == if e.kind == SessionEnd then Some(TimeOf(e, now)) else was.endedAt
  }

  /** An accepted event, field by field; every other session and every other step's effect aside. */
  lemma EventFields(w: World, w': World, e: HookEvent, now: Time)
    requires Kept(w) && Next(w, w', Handle(e, now)) && e.sessionID != "" && !e.kind.Other?
    ensures var id := e.sessionID;
            && id in w'.sessions && w'.sessions[id].session.id == id
            && w'.pending == w.pending + multiset{w'.sessions[id]}
    ensures var s := w'.sessions[e.sessionID].session;
            if e.sessionID in w.sessions
            then var was := w.sessions[e.sessionID].session;
                 && KeepsDetails(s, e, was.transcriptPath, was.model, was.launchID)
                 && s.source == was.source && s.processStartedAt == was.processStartedAt
                 && if e.kind == SessionStart then Started(s, e, now) else Continued(s, was, e, now)
            else && KeepsDetails(s, e, "", "", "")
                 && s.source == Hook && s.processStartedAt == 0
                 && if e.kind == SessionStart then Started(s, e, now) else FirstHeard(s, e, now)
    ensures forall id :: id != e.sessionID ==>
              (id in w'.sessions <==> id in w.sessions) &&
              (id in w.sessions ==> w'.sessions[id] == w.sessions[id])
  {
    BaseNotEmpty(e.cwd);
  }

  /** An event without a session, or of an unknown kind, changes nothing. */
  lemma EventRejected(w: World, w': World, e: HookEvent, now: Time)
    requires Next(w, w', Handle(e, now)) && (e.sessionID == "" || e.kind.Other?)
    ensures w' == w
  {
  }

  lemma BaseNotEmpty(path: string)
    ensures Paths.Base(path) != ""
  {
  }

  /** A tick notes when the root process started, once, and changes no other field of a session. */
  lemma TickFields(w: World, w': World, s: Snapshot, now: Time, id: string)
    requires Next(w, w', Tick(s, now)) && id in w'.sessions
    ensures id in w.sessions
    ensures var was, after := w.sessions[id].session, w'.sessions[id].session;
            && after == was.(processStartedAt := after.processStartedAt)
            && after.processStartedAt ==
               if was.processStartedAt == 0 && was.rootPID in s.processes then s.processes[was.rootPID].startedAt
               else was.processStartedAt
    ensures Attributed(id, AttributedRss(s, w.sessions[id].session.rootPID)) in w'.log
  {
    TickedRecord(w.sessions, s, now, id);
  }

  // ---------------------------------------------------------- the root process --

  /** Step m is the last that gave id a root process: its start, its first mention, or a restart. */
  predicate SetsRoot(w: World, step: Step, id: string) {
    || (EventOf(step, id) && (step.e.kind == SessionStart || id !in w.sessions))
    || step.Restart? || step.Crash?
  }

  /** The root process it gave: the start event's, none, or the stored record's. */
  function RootSet(w: World, step: Step, id: string): int {
    if step.Handle? then (if step.e.kind == SessionStart then step.e.pid else 0)
    else if FileName(id) in w.files then w.files[FileName(id)].session.rootPID else 0
  }

  ghost predicate RootSince(ws: seq<World>, steps: seq<Step>, id: string, m: nat, k: nat)
    requires k <= |steps| < |ws|
  {
    && m < k && SetsRoot(ws[m], steps[m], id)
    && forall n {:trigger steps[n]} :: m < n < k ==> !SetsRoot(ws[n], steps[n], id)
  }

  lemma RootNext(w: World, w': World, step: Step, id: string)
    requires Kept(w) && Next(w, w', step) && id in w'.sessions
    ensures SetsRoot(w, step, id) ==> w'.sessions[id].session.rootPID == RootSet(w, step, id)
    ensures !SetsRoot(w, step, id) ==>
              id in w.sessions && w'.sessions[id].session.rootPID == w.sessions[id].session.rootPID
  {
    match step
    case Handle(e, now) => if Accepted(e) { EventFields(w, w', e, now); }
    case Tick(s, now) => TickFields(w, w', s, now, id);
    case Write(r) =>
    case Restart(recent) => RecentFromFiles(w.files, recent, id);
    case Crash(recent) => RecentFromFiles(w.files, recent, id);
  }

  lemma RootStays(ws: seq<World>, steps: seq<Step>, id: string, m: nat, n: nat, k: nat)
    requires k == n + 1 <= |steps| < |ws| && RootSince(ws, steps, id, m, n) && !SetsRoot(ws[n], steps[n], id)
    ensures RootSince(ws, steps, id, m, k)
  {
  }

  /**
   * In every run, the root process of a tracked session is the one its last start event
   * named, unless it was tracked anew since: then none, or after a restart the one its
   * stored record had.
   */
  lemma {:induction false} RootIsLastSet(ws: seq<World>, steps: seq<Step>, k: nat, id: string) returns (m: nat)
    requires IsRun(ws, steps) && k <= |steps| && id in ws[k].sessions
    ensures RootSince(ws, steps, id, m, k) && ws[k].sessions[id].session.rootPID == RootSet(ws[m], steps[m], id)
    decreases k
  {
    var n := k - 1;
    EndedHasEndTime(ws, steps, n);
    RootNext(ws[n], ws[k], steps[n], id);
    if SetsRoot(ws[n], steps[n], id) {
      m := n;
    } else {
      m := RootIsLastSet(ws, steps, n, id);
      RootStays(ws, steps, id, m, n, k);
    }
  }

  /** So a tick attributes to the session the memory below that process. */
  lemma TickAttributesRoot(ws: seq<World>, steps: seq<Step>, k: nat, id: string) returns (m: nat)
    requires IsRun(ws, steps) && k < |steps| && steps[k].Tick? && id in ws[k + 1].sessions
    ensures RootSince(ws, steps, id, m, k)
    ensures Attributed(id, AttributedRss(steps[k].s, RootSet(ws[m], steps[m], id))) in ws[k + 1].log
  {
    assert Next(ws[k], ws[k + 1], steps[k]);
    TickFields(ws[k], ws[k + 1], steps[k].s, steps[k].now, id);
    m := RootIsLastSet(ws, steps, k, id);
  }
}
