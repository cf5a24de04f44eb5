// What makes a session active, and when one that has ended becomes active again: by events,
// after pruning, and after a restart (New, HandleEvent and Tick in internal/daemon/daemon.go,
// over the delayed writes of Lifecycle).
module Revival {
  import opened Base
  import opened Lifecycle
  import opened Model
  import opened ProcScan
  import opened Store

  // ------------------------------------------------------- what makes active --

  predicate ActiveNow(w: World, id: string) {
    id in w.sessions && w.sessions[id].session.state == Active
  }

  predicate EventOf(step: Step, id: string) {
    step.Handle? && Accepted(step.e) && step.e.sessionID == id
  }

  /** The start of a session, or another sign of life of one that is not tracked. */
  predicate EventActivates(w: World, step: Step, id: string) {
    EventOf(step, id) && (step.e.kind == SessionStart || (step.e.kind != SessionEnd && id !in w.sessions))
  }

  /** Such an event, or a restart that reads the session back as active. */
  predicate Activates(w: World, step: Step, id: string) {
    || EventActivates(w, step, id)
    || ((step.Restart? || step.Crash?) && StoredActive(w, id) && w.files[FileName(id)] in step.recent)
  }

  /** The end of a session, or a restart. */
  predicate Settles(step: Step, id: string) {
    (EventOf(step, id) && step.e.kind == SessionEnd) || step.Restart? || step.Crash?
  }

  lemma RestartActive(w: World, recent: seq<Record>, id: string)
    requires WellFiled(w.files) && IsRecent(w.files, REHYDRATE_LIMIT, recent)
    ensures id in Rehydrated(recent) <==> StoredActive(w, id) && w.files[FileName(id)] in recent
    ensures id in Rehydrated(recent) ==> Rehydrated(recent)[id].session.state == Active
  {
    RehydratedEntries(recent, id);
    if id in Rehydrated(recent) { RecentFromFiles(w.files, recent, id); }
  }

  lemma TickActive(w: World, w': World, s: Snapshot, now: Time, id: string)
    requires Kept(w) && Next(w, w', Tick(s, now))
    ensures ActiveNow(w', id) <==> ActiveNow(w, id)
  {
    if id in Ticked(w.sessions, s, now) { TickedRecord(w.sessions, s, now, id); }
  }

  lemma WriteActive(w: World, w': World, r: Record, id: string)
    requires Next(w, w', Write(r))
    ensures (ActiveNow(w', id) <==> ActiveNow(w, id)) && !Activates(w, Write(r), id) && !Settles(Write(r), id)
  {
  }

  lemma RestartNext(w: World, w': World, recent: seq<Record>, id: string)
    requires Kept(w) && Next(w, w', Restart(recent))
    ensures (ActiveNow(w', id) <==> Activates(w, Restart(recent), id)) && Settles(Restart(recent), id)
  {
    RestartActive(w, recent, id);
  }

  lemma CrashNext(w: World, w': World, recent: seq<Record>, id: string)
    requires Kept(w) && Next(w, w', Crash(recent))
    ensures (ActiveNow(w', id) <==> Activates(w, Crash(recent), id)) && Settles(Crash(recent), id)
  {
    RestartActive(w, recent, id);
  }

  lemma EventActive(w: World, w': World, e: HookEvent, now: Time, id: string)
    requires Kept(w) && Next(w, w', Handle(e, now))
    ensures ActiveNow(w', id) <==>
            EventActivates(w, Handle(e, now), id) || (ActiveNow(w, id) && !Settles(Handle(e, now), id))
  {
    EventStates(w, w', e, now, id);
  }

  /** One step: a session is active exactly if the step activates it, or it was and the step does not settle it. */
  lemma ActiveNext(w: World, w': World, step: Step, id: string)
    requires Kept(w) && Next(w, w', step)
    ensures ActiveNow(w', id) <==> Activates(w, step, id) || (ActiveNow(w, id) && !Settles(step, id))
  {
    match step
    case Handle(e, now) => EventActive(w, w', e, now, id);
    case Tick(s, now) => TickActive(w, w', s, now, id);
    case Write(r) => WriteActive(w, w', r, id);
    case Restart(recent) => RestartNext(w, w', recent, id);
    case Crash(recent) => CrashNext(w, w', recent, id);
  }

  /** Step m activates id and nothing up to k settles it. */
  ghost predicate ActiveSince(ws: seq<World>, steps: seq<Step>, id: string, m: nat, k: nat)
    requires k <= |steps| < |ws|
  {
    && m < k && Activates(ws[m], steps[m], id)
    && forall n :: m < n < k ==> !Settles(steps[n], id)
  }

  /**
   * In every run a session that is not active at one point is active later exactly if some
   * step in between made it so and nothing settled it since: its own start event, another
   * event of it while it was not tracked, or a restart that read back an active record.
   */
  lemma {:induction false} RevivedExactly(ws: seq<World>, steps: seq<Step>, j: nat, k: nat, id: string)
    requires IsRun(ws, steps) && j <= k <= |steps| && !ActiveNow(ws[j], id)
    ensures ActiveNow(ws[k], id) <==> exists m :: j <= m && ActiveSince(ws, steps, id, m, k)
    decreases k
  {
    if j < k {
      var n := k - 1;
      RevivedExactly(ws, steps, j, n, id);
      EndedHasEndTime(ws, steps, n);
      ActiveNext(ws[n], ws[k], steps[n], id);
      SinceNext(ws, steps, id, j, n, k);
    }
  }

  lemma SinceNext(ws: seq<World>, steps: seq<Step>, id: string, j: nat, n: nat, k: nat)
    requires j <= n < |steps| < |ws| && k == n + 1
    ensures (exists m :: j <= m && ActiveSince(ws, steps, id, m, k)) <==>
            Activates(ws[n], steps[n], id) ||
            ((exists m :: j <= m && ActiveSince(ws, steps, id, m, n)) && !Settles(steps[n], id))
  {
    if Activates(ws[n], steps[n], id) {
      assert ActiveSince(ws, steps, id, n, k);
    } else if m :| j <= m && ActiveSince(ws, steps, id, m, k) {
      assert m < n && ActiveSince(ws, steps, id, m, n);
    } else if m :| j <= m && ActiveSince(ws, steps, id, m, n) && !Settles(steps[n], id) {
      assert ActiveSince(ws, steps, id, m, k);
    }
  }

  lemma EndedThenPruned(end: HookEvent, s: Snapshot, b: Record)
    requires Accepted(end) && end.kind == SessionEnd && end.timestamp != 0 && b == AfterEvent(map[], end)
    ensures b.session.state == Ended && b.session.id == end.sessionID && b.peak == 0
    ensures var t := map[end.sessionID := b];
            && Next(World(map[], map[], multiset{}, {}), World(t, map[], multiset{b}, {}), Handle(end, 0))
            && Next(World(t, map[], multiset{b}, {}), World(map[], map[], multiset{b}, {}),
                    Tick(s, end.timestamp + GRACE + 1))
  {
    var t, now := map[end.sessionID := b], end.timestamp + GRACE + 1;
    assert Surviving(t, now) == {} && Ticked(t, s, now) == map[] && Raised(t, s, now) == {};
    assert Copies(Ticked(t, s, now), {}) == {} && Totals(t, s, now) == {};
    assert map[][end.sessionID := b] == t;
  }

  lemma ComesBack(late: HookEvent, b: Record, c: Record)
    requires Accepted(late) && late.kind != SessionStart && late.kind != SessionEnd && late.timestamp != 0
    requires b.session.id == late.sessionID && b.peak == 0 && c == AfterEvent(map[], late)
    ensures c.session.state == Active && c.session.id == late.sessionID && c.peak == 0
    ensures var t, name := map[late.sessionID := c], FileName(late.sessionID);
            && Next(World(map[], map[], multiset{b}, {}), World(map[], map[name := b], multiset{}, {}), Write(b))
            && Next(World(map[], map[name := b], multiset{}, {}), World(t, map[name := b], multiset{c}, {}),
                    Handle(late, 0))
            && Next(World(t, map[name := b], multiset{c}, {}), World(t, map[name := c], multiset{}, {}), Write(c))
  {
    var name := FileName(late.sessionID);
    assert multiset{b} - multiset{b} == multiset{} && multiset{c} - multiset{c} == multiset{};
    assert map[][late.sessionID := c] == map[late.sessionID := c];
    assert map[name := b][name := c] == map[name := c];
  }

  /**
   * Activity that arrives after an ended session was pruned tracks it as active again, with
   * no end time, and its copy replaces the ended record, although every copy is written in order.
   */
  lemma LateActivityRevives(end: HookEvent, late: HookEvent, s: Snapshot)
    returns (ws: seq<World>, steps: seq<Step>)
    requires Accepted(end) && end.kind == SessionEnd && end.timestamp != 0
    requires Accepted(late) && late.kind != SessionStart && late.kind != SessionEnd && late.timestamp != 0
    requires late.sessionID == end.sessionID
    ensures IsRun(ws, steps) && |steps| == 5 && steps[3] == Handle(late, 0)
    ensures var id, name := end.sessionID, FileName(end.sessionID);
            && id in ws[1].sessions && ws[1].sessions[id].session.state == Ended && id !in ws[2].sessions
            && name in ws[3].files && ws[3].files[name].session.state == Ended
            && ActiveNow(ws[4], id) && ws[4].sessions[id].session.endedAt == None && StoredActive(ws[5], id)
  {
    var id, name := end.sessionID, FileName(end.sessionID);
    var b, c := AfterEvent(map[], end), AfterEvent(map[], late);
    EndedThenPruned(end, s, b);
    ComesBack(late, b, c);
    ws := [World(map[], map[], multiset{}, {}),
           World(map[id := b], map[], multiset{b}, {}),
           World(map[], map[], multiset{b}, {}),
           World(map[], map[name := b], multiset{}, {}),
           World(map[id := c], map[name := b], multiset{c}, {}),
           World(map[id := c], map[name := c], multiset{}, {})];
    steps := [Handle(end, 0), Tick(s, end.timestamp + GRACE + 1), Write(b), Handle(late, 0), Write(c)];
  }

  // ----------------------------------------------------------- the last write --

  /** The session in the last copy written under a name. */
  function LastWritten(steps: seq<Step>, name: string): Option<Session> {
    if steps == [] then None
    else
      var last := steps[|steps| - 1];
      if last.Write? && FileName(last.r.session.id) == name then Some(last.r.session)
      else LastWritten(steps[..|steps| - 1], name)
  }

  /** In every run the stored session is the one in the last copy written, whenever that copy was taken. */
  lemma {:induction false} StoredIsLastWritten(ws: seq<World>, steps: seq<Step>, k: nat, name: string)
    requires IsRun(ws, steps) && k <= |steps|
    ensures name in ws[k].files <==> LastWritten(steps[..k], name).Some?
    ensures name in ws[k].files ==> LastWritten(steps[..k], name) == Some(ws[k].files[name].session)
    decreases k
  {
    if k > 0 {
      StoredIsLastWritten(ws, steps, k - 1, name);
      assert steps[..k][..k - 1] == steps[..k - 1];
      FilesNext(ws[k - 1], ws[k], steps[k - 1]);
    }
  }

  lemma FilesNext(w: World, w': World, step: Step)
    requires Next(w, w', step)
    ensures w'.files == if step.Write? then Upserted(w.files, step.r) else w.files
  {
  }

  /**
   * After a clean restart a session is tracked, whatever memory said of it before, exactly if
   * the last copy written under its name is its own, says it is active, and is among the
   * records read.
   */
  lemma RestartRevivesExactly(ws: seq<World>, steps: seq<Step>, k: nat, id: string)
    requires IsRun(ws, steps) && k < |steps| && steps[k].Restart?
    ensures var last := LastWritten(steps[..k], FileName(id));
            id in ws[k + 1].sessions <==>
              && last.Some? && last.value.id == id && last.value.state == Active
              && FileName(id) in ws[k].files && ws[k].files[FileName(id)] in steps[k].recent
    ensures id in ws[k + 1].sessions ==> ws[k + 1].sessions[id].session.state == Active
  {
    EndedHasEndTime(ws, steps, k);
    StoredIsLastWritten(ws, steps, k, FileName(id));
    assert Next(ws[k], ws[k + 1], steps[k]);
    var recent := steps[k].recent;
    RehydratedEntries(recent, id);
    if id in ws[k + 1].sessions { RecentFromFiles(ws[k].files, recent, id); }
  }

  // ------------------------------------------------------- writes in order ---

  /** The copies of a name, oldest first, as they wait to be written. */
  ghost predicate QueueStep(w: World, w': World, step: Step, name: string, q: seq<Record>, q': seq<Record>) {
    match step
    case Handle(e, now) =>
      q' == if Accepted(e) && FileName(e.sessionID) == name && e.sessionID in w'.sessions
            then q + [w'.sessions[e.sessionID]] else q
    case Tick(s, now) =>
      q <= q' && multiset(q'[|q|..]) == multiset(CopiesAt(w, s, now, name))
    case Write(r) =>
      if FileName(r.session.id) == name then q != [] && r == q[0] && q' == q[1..] else q' == q
    case Restart(_) => q' == q
    case Crash(_) => q' == []
  }

  ghost function CopiesAt(w: World, s: Snapshot, now: Time, name: string): set<Record> {
    set r | r in Copies(Ticked(w.sessions, s, now), Raised(w.sessions, s, now)) && FileName(r.session.id) == name
  }

  /** The copies of one name are written in the order they were taken; a tick takes at most one of each session. */
  ghost predicate InOrder(ws: seq<World>, steps: seq<Step>, name: string, qs: seq<seq<Record>>) {
    && |qs| == |ws| == |steps| + 1 && qs[0] == []
    && forall i :: 0 <= i < |steps| ==> QueueStep(ws[i], ws[i + 1], steps[i], name, qs[i], qs[i + 1])
  }

  /** The newest copy of a session, waiting or stored. */
  function LastCopy(files: Files, q: seq<Record>, id: string): Option<Session> {
    if q == [] then
      if FileName(id) in files && files[FileName(id)].session.id == id then Some(files[FileName(id)].session) else None
    else if q[|q| - 1].session.id == id then Some(q[|q| - 1].session)
    else LastCopy(files, q[..|q| - 1], id)
  }

  /** It says of the session what memory says. */
  ghost predicate UpToDate(w: World, q: seq<Record>, id: string) {
    id in w.sessions && LastCopy(w.files, q, id).Some? ==>
      LastCopy(w.files, q, id).value.state == w.sessions[id].session.state
  }

  ghost predicate Queued(w: World, q: seq<Record>, name: string) {
    && multiset(q) <= w.pending && (forall r :: r in q ==> FileName(r.session.id) == name)
    && forall id :: FileName(id) == name ==> UpToDate(w, q, id)
  }

  lemma OneMoreCopy(files: Files, q: seq<Record>, r: Record, id: string)
    ensures LastCopy(files, q + [r], id) == if r.session.id == id then Some(r.session) else LastCopy(files, q, id)
  {
    assert (q + [r])[..|q|] == q;
  }

  lemma {:induction false} MoreCopies(files: Files, q: seq<Record>, c: seq<Record>, id: string, state: SessionState)
    requires forall r :: r in c && r.session.id == id ==> r.session.state == state
    requires LastCopy(files, q, id).Some? ==> LastCopy(files, q, id).value.state == state
    ensures LastCopy(files, q + c, id).Some? ==> LastCopy(files, q + c, id).value.state == state
    decreases |c|
  {
    if c == [] {
      assert q + c == q;
    } else {
      var init, r := c[..|c| - 1], c[|c| - 1];
      assert r in c && forall x :: x in init ==> x in c;
      MoreCopies(files, q, init, id, state);
      assert q + c == (q + init) + [r];
      OneMoreCopy(files, q + init, r, id);
    }
  }

  /** Writing the oldest copy loses nothing newer. */
  lemma {:induction false} Popped(files: Files, q: seq<Record>, id: string)
    requires q != [] && forall r :: r in q ==> FileName(r.session.id) == FileName(id)
    ensures var after := LastCopy(Upserted(files, q[0]), q[1..], id);
            after.Some? ==> after == LastCopy(files, q, id)
    decreases |q|
  {
    var n := |q| - 1;
    if n > 0 {
      assert q == q[..n] + [q[n]] && q[..n][0] == q[0];
      assert q[1..][..n - 1] == q[..n][1..];
      Popped(files, q[..n], id);
    } else {
      assert q[0] in q;
      assert LastCopy(files, q[..0], id) == LastCopy(files, [], id);
    }
  }

  lemma TickQueued(w: World, w': World, s: Snapshot, now: Time, q: seq<Record>, q': seq<Record>, name: string)
    requires Kept(w) && Next(w, w', Tick(s, now)) && Queued(w, q, name)
    requires QueueStep(w, w', Tick(s, now), name, q, q')
    ensures Queued(w', q', name)
  {
    var c := q'[|q|..];
    assert q' == q + c;
    SameMembers(c, CopiesAt(w, s, now, name));
    TickCopies(w, w', s, now, c, name);
    forall id | FileName(id) == name ensures UpToDate(w', q', id) {
      if id in w'.sessions {
        TickedRecord(w.sessions, s, now, id);
        MoreCopies(w.files, q, c, id, w'.sessions[id].session.state);
      }
    }
    assert multiset(q') == multiset(q) + multiset(c);
  }

  lemma SameMembers(c: seq<Record>, records: set<Record>)
    requires multiset(c) == multiset(records)
    ensures forall r :: r in c <==> r in records
  {
    forall r ensures r in c <==> r in records { assert r in c <==> r in multiset(c); }
  }

  lemma TickCopies(w: World, w': World, s: Snapshot, now: Time, c: seq<Record>, name: string)
    requires Kept(w) && Next(w, w', Tick(s, now))
    requires multiset(c) == multiset(CopiesAt(w, s, now, name))
    requires forall r :: r in c <==> r in CopiesAt(w, s, now, name)
    ensures forall r :: r in c ==>
              FileName(r.session.id) == name && r.session.id in w'.sessions && w'.sessions[r.session.id] == r
    ensures multiset(c) <= multiset(Copies(w'.sessions, Raised(w.sessions, s, now)))
  {
    var t, raised := Ticked(w.sessions, s, now), Raised(w.sessions, s, now);
    forall r | r in c ensures r.session.id in t && t[r.session.id] == r {
      assert r in Copies(t, raised);
      var id :| id in raised && t[id] == r;
      TickedRecord(w.sessions, s, now, id);
    }
  }

  lemma WriteQueued(w: World, w': World, r: Record, q: seq<Record>, q': seq<Record>, name: string)
    requires Next(w, w', Write(r)) && Queued(w, q, name) && QueueStep(w, w', Write(r), name, q, q')
    ensures Queued(w', q', name)
  {
    if FileName(r.session.id) == name {
      OwnWritten(w, r, q, name);
    } else {
      OtherWritten(w, r, q, name);
    }
  }

  lemma OwnWritten(w: World, r: Record, q: seq<Record>, name: string)
    requires r in w.pending && Queued(w, q, name) && q != [] && r == q[0]
    ensures Queued(w.(pending := w.pending - multiset{r}, files := Upserted(w.files, r)), q[1..], name)
  {
    assert q == [q[0]] + q[1..];
    assert multiset(q[1..]) == multiset(q) - multiset{r};
    var w' := w.(pending := w.pending - multiset{r}, files := Upserted(w.files, r));
    forall id | FileName(id) == name ensures UpToDate(w', q[1..], id) {
      Popped(w.files, q, id);
      assert UpToDate(w, q, id);
    }
  }

  lemma OtherWritten(w: World, r: Record, q: seq<Record>, name: string)
    requires r in w.pending && Queued(w, q, name) && FileName(r.session.id) != name
    ensures Queued(w.(pending := w.pending - multiset{r}, files := Upserted(w.files, r)), q, name)
  {
    assert r !in q;
    var w' := w.(pending := w.pending - multiset{r}, files := Upserted(w.files, r));
    forall id | FileName(id) == name ensures UpToDate(w', q, id) {
      OtherFile(w.files, r, q, id);
      assert UpToDate(w, q, id);
    }
  }

  lemma {:induction false} OtherFile(files: Files, r: Record, q: seq<Record>, id: string)
    requires FileName(r.session.id) != FileName(id)
    ensures LastCopy(Upserted(files, r), q, id) == LastCopy(files, q, id)
    decreases |q|
  {
    if q != [] { OtherFile(files, r, q[..|q| - 1], id); }
  }

  lemma EventQueued(w: World, w': World, e: HookEvent, now: Time, q: seq<Record>, q': seq<Record>, name: string)
    requires Kept(w) && Next(w, w', Handle(e, now)) && Queued(w, q, name)
    requires QueueStep(w, w', Handle(e, now), name, q, q')
    ensures Queued(w', q', name)
  {
    if Accepted(e) { EventRecord(w.sessions, e, now); }
    forall id | FileName(id) == name ensures UpToDate(w', q', id) {
      assert UpToDate(w, q, id);
      if q' != q { assert q'[..|q' | - 1] == q; }
    }
  }

  lemma ReadBackQueued(w: World, t: Tracked, pending: multiset<Record>, name: string)
    requires ReadBack(t, w.files)
    ensures Queued(w.(sessions := t, pending := pending), [], name)
  {
  }

  lemma NextQueued(w: World, w': World, step: Step, q: seq<Record>, q': seq<Record>, name: string)
    requires Kept(w) && Next(w, w', step) && Queued(w, q, name) && QueueStep(w, w', step, name, q, q')
    ensures Queued(w', q', name)
  {
    match step
    case Handle(e, now) => EventQueued(w, w', e, now, q, q', name);
    case Tick(s, now) => TickQueued(w, w', s, now, q, q', name);
    case Write(r) => WriteQueued(w, w', r, q, q', name);
    case Restart(recent) =>
      NothingWaits(w, q, name);
      RehydratedReadBack(w.files, recent);
      ReadBackQueued(w, w'.sessions, w.pending, name);
    case Crash(recent) =>
      RehydratedReadBack(w.files, recent);
      ReadBackQueued(w, w'.sessions, multiset{}, name);
  }

  lemma NothingWaits(w: World, q: seq<Record>, name: string)
    requires Queued(w, q, name) && w.pending == multiset{}
    ensures q == []
  {
    assert |multiset(q)| == |q|;
  }

  lemma {:induction false} RunQueued(ws: seq<World>, steps: seq<Step>, qs: seq<seq<Record>>, name: string, k: nat)
    requires IsRun(ws, steps) && InOrder(ws, steps, name, qs) && k <= |steps|
    ensures Queued(ws[k], qs[k], name)
    decreases k
  {
    if k > 0 {
      RunQueued(ws, steps, qs, name, k - 1);
      EndedHasEndTime(ws, steps, k - 1);
      NextQueued(ws[k - 1], ws[k], steps[k - 1], qs[k - 1], qs[k], name);
    }
  }

  // ---------------------------------------------------- ended stays ended ----

  predicate EndedIn(s: Option<Session>) { s.Some? ==> s.value.state == Ended }

  /** Memory, the waiting copies and the store know no more of id than that it ended. */
  ghost predicate Quiet(w: World, q: seq<Record>, id: string) {
    !ActiveNow(w, id) && EndedIn(LastCopy(w.files, q, id))
  }

  lemma EventQuiet(w: World, w': World, e: HookEvent, now: Time, q: seq<Record>, q': seq<Record>, id: string)
    requires Kept(w) && Next(w, w', Handle(e, now)) && Quiet(w, q, id) && !EventActivates(w, Handle(e, now), id)
    requires QueueStep(w, w', Handle(e, now), FileName(id), q, q')
    ensures Quiet(w', q', id)
  {
    ActiveNext(w, w', Handle(e, now), id);
    if Accepted(e) {
      var r := w'.sessions[e.sessionID];
      EventRecord(w.sessions, e, now);
      OneMoreCopy(w.files, q, r, id);
    }
  }

  lemma TickQuiet(w: World, w': World, s: Snapshot, now: Time, q: seq<Record>, q': seq<Record>, id: string)
    requires Kept(w) && Next(w, w', Tick(s, now)) && Quiet(w, q, id)
    requires QueueStep(w, w', Tick(s, now), FileName(id), q, q')
    ensures Quiet(w', q', id)
  {
    var c := q'[|q|..];
    assert q' == q + c;
    SameMembers(c, CopiesAt(w, s, now, FileName(id)));
    TickCopies(w, w', s, now, c, FileName(id));
    TickActive(w, w', s, now, id);
    MoreCopies(w.files, q, c, id, Ended);
  }

  lemma WriteQuiet(w: World, w': World, r: Record, q: seq<Record>, q': seq<Record>, id: string)
    requires Next(w, w', Write(r)) && Quiet(w, q, id) && Queued(w, q, FileName(id))
    requires QueueStep(w, w', Write(r), FileName(id), q, q')
    ensures Quiet(w', q', id)
  {
    if FileName(r.session.id) == FileName(id) {
      Popped(w.files, q, id);
    } else {
      OtherFile(w.files, r, q, id);
    }
  }

  lemma RestartQuiet(w: World, w': World, recent: seq<Record>, q: seq<Record>, q': seq<Record>, id: string)
    requires Kept(w) && Next(w, w', Restart(recent)) && Quiet(w, q, id) && Queued(w, q, FileName(id)) && q' == q
    ensures Quiet(w', q', id)
  {
    NothingWaits(w, q, FileName(id));
    RestartActive(w, recent, id);
  }

  lemma NextQuiet(w: World, w': World, step: Step, q: seq<Record>, q': seq<Record>, id: string)
    requires Kept(w) && Next(w, w', step) && !step.Crash? && !EventActivates(w, step, id)
    requires Quiet(w, q, id) && Queued(w, q, FileName(id)) && QueueStep(w, w', step, FileName(id), q, q')
    ensures Quiet(w', q', id)
  {
    match step
    case Handle(e, now) => EventQuiet(w, w', e, now, q, q', id);
    case Tick(s, now) => TickQuiet(w, w', s, now, q, q', id);
    case Write(r) => WriteQuiet(w, w', r, q, q', id);
    case Restart(recent) => RestartQuiet(w, w', recent, q, q', id);
  }

  lemma {:induction false} StaysQuiet(
      ws: seq<World>, steps: seq<Step>, qs: seq<seq<Record>>, j: nat, k: nat, id: string)
    requires IsRun(ws, steps) && InOrder(ws, steps, FileName(id), qs) && j <= k <= |steps|
    requires id in ws[j].sessions && ws[j].sessions[id].session.state == Ended
    requires forall n {:trigger steps[n]} :: j <= n < k ==> !steps[n].Crash? && !EventActivates(ws[n], steps[n], id)
    ensures Quiet(ws[k], qs[k], id)
    decreases k
  {
    if j == k {
      RunQueued(ws, steps, qs, FileName(id), k);
      EndedQuiet(ws[k], qs[k], id);
    } else {
      StaysQuiet(ws, steps, qs, j, k - 1, id);
      StepQuiet(ws, steps, qs, k - 1, id);
    }
  }

  lemma EndedQuiet(w: World, q: seq<Record>, id: string)
    requires Queued(w, q, FileName(id)) && id in w.sessions && w.sessions[id].session.state == Ended
    ensures Quiet(w, q, id)
  {
    assert UpToDate(w, q, id);
  }

  lemma StepQuiet(ws: seq<World>, steps: seq<Step>, qs: seq<seq<Record>>, n: nat, id: string)
    requires IsRun(ws, steps) && InOrder(ws, steps, FileName(id), qs) && n < |steps|
    requires Quiet(ws[n], qs[n], id) && !steps[n].Crash? && !EventActivates(ws[n], steps[n], id)
    ensures Quiet(ws[n + 1], qs[n + 1], id)
  {
    RunQueued(ws, steps, qs, FileName(id), n);
    EndedHasEndTime(ws, steps, n);
    NextQuiet(ws[n], ws[n + 1], steps[n], qs[n], qs[n + 1], id);
  }

  /**
   * When the copies of a record are written in the order they were taken, a session that has
   * ended, pruned since or not, stays so over any number of clean restarts: between an end and
   * any later point with no crash in between, only an event can make it active.
   */
  lemma InOrderNeverRevives(ws: seq<World>, steps: seq<Step>, qs: seq<seq<Record>>, j: nat, k: nat, id: string)
    requires IsRun(ws, steps) && InOrder(ws, steps, FileName(id), qs) && j <= k <= |steps|
    requires id in ws[j].sessions && ws[j].sessions[id].session.state == Ended
    requires forall n :: j <= n < k ==> !steps[n].Crash?
    requires ActiveNow(ws[k], id)
    ensures exists n :: j <= n < k && EventActivates(ws[n], steps[n], id)
  {
    if forall n :: j <= n < k ==> !EventActivates(ws[n], steps[n], id) {
      StaysQuiet(ws, steps, qs, j, k, id);
    }
  }
}
