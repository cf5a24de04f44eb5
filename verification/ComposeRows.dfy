// What the rows of the composed list show, field by field: which source each value of a
// matched or logical row comes from (mergeTelemetry, mergeTranscript and the snapshotFrom
// helpers in internal/daemon/daemon.go).
module ComposeRows {
  import opened Base
  import opened ComposeLocal
  import opened ComposeOrder
  import opened ComposeSafety
  import opened Composition
  import opened Matching
  import opened Model
  import opened TelemetryIngest
  import opened VisitOrders

  /** An earlier source is never overruled, a gap is filled. */
  function Fill(a: string, b: string): string { if a != "" then a else b }

  function CwdFrom(t: Option<TelemetrySession>): string { if t.Some? then t.value.cwd else "" }
  function ModelFrom(t: Option<TelemetrySession>): string { if t.Some? then t.value.model else "" }

  function Latest(a: Time, t: Option<TelemetrySession>, s: Option<UsageSource>): Time {
    var b := if t.Some? && t.value.updatedAt > a then t.value.updatedAt else a;
    if s.Some? && s.value.updatedAt > b then s.value.updatedAt else b
  }

  // ---------------------------------------------------------- matched rows ---

  /** The telemetry a matched row absorbs: the recent one, or any there is when only the guess matched. */
  function Absorbed(x: Inputs, k: string, grade: Grade): Option<TelemetrySession> {
    if x.TelAt(k).Some? then x.TelAt(k) else if grade == ByGuess then Get(x.tel, k) else None
  }

  /** now is the process row was after session k was matched to it with evidence of this grade. */
  ghost predicate ShowsMatched(
      was: SessionSnapshot, now: SessionSnapshot, t: Option<TelemetrySession>, s: Option<UsageSource>, grade: Grade) {
    // Usage has one source, the transcript if there is one.
    && (s.Some? ==> now.usage == s.value.usage && now.usageUpdatedAt == s.value.updatedAt)
    && (s.None? && t.Some? ==> now.usage == t.value.usage && now.usageUpdatedAt == t.value.updatedAt)
    && now.metrics == (if t.Some? then t.value.metrics else was.metrics)
    // What the process row knew itself stays; telemetry and then the transcript fill gaps.
    && now.session.cwd ==
       Fill(was.session.cwd, Fill(CwdFrom(t), if s.Some? then s.value.cwd else ""))
    && now.session.project ==
       (if was.session.cwd != "" then was.session.project
        else if CwdFrom(t) != "" then t.value.project
        else if s.Some? then s.value.project else was.session.project)
    && now.session.model ==
       Fill(was.session.model, Fill(ModelFrom(t), if s.Some? then s.value.model else ""))
    && now.session.transcriptPath ==
       Fill(was.session.transcriptPath, if s.Some? then s.value.path else "")
    && now.session.lastActivityAt == Latest(was.session.lastActivityAt, t, s)
  }

  /** How sure the row says it is, and the launch ID it carries. */
  ghost predicate ShowsGrade(
      was: SessionSnapshot, now: SessionSnapshot, recent: Option<TelemetrySession>, grade: Grade) {
    && (was.resourceScope == Owned && (recent.Some? || grade == ByGuess) ==>
          now.attribution == if grade == ByGuess then Probable else Confirmed)
    && (was.resourceScope == Shared && (recent.Some? || grade == ByGuess) ==> now.attribution == SharedTree)
    && (recent.None? && grade != ByGuess ==> now.attribution == was.attribution)
    && now.session.launchID ==
       if recent.Some? && grade != ByID && recent.value.launchID != "" then recent.value.launchID
       else was.session.launchID
  }

  /** Session k and no other ends up on row i. */
  ghost predicate LandsAlone(x: Inputs, rows: Rows, k: string, i: nat) {
    Lands(x, rows, k, i) && forall l :: Lands(x, rows, l, i) ==> l == k
  }

  /** Row i after k's telemetry and transcript. */
  function Effect(x: Inputs, rows: Rows, k: string, i: nat): SessionSnapshot
    requires i < |rows|
  {
    SrcEffect(x, k, TelEffect(x, rows, k, rows[i]))
  }

  /**
   * A row that one recent session is matched to shows that session under its own name,
   * and every field comes from the source with the highest precedence. Competition for
   * other rows does not matter as long as it drives no session to this one.
   */
  lemma MatchedRowShows(x: Inputs, rows: Rows, telOrder: seq<string>, srcOrder: seq<string>, k: string, i: nat)
    requires WellFormed(x, rows) && (Separated(x, rows) || OnlyReaches(x, rows, k, i))
    requires OrderOf(telOrder, x.tel.Keys) && OrderOf(srcOrder, x.srcs.Keys)
    requires i < |rows| && LandsAlone(x, rows, k, i)
    ensures InRange(x, Start(x, rows)) && i < |RunBoth(x, rows, telOrder, srcOrder).rows|
    ensures var now, grade := RunBoth(x, rows, telOrder, srcOrder).rows[i], Evidence(x, rows, k).grade;
            && KeyOf(now) == k && SameProcess(now, rows[i])
            && ShowsMatched(rows[i], now, Absorbed(x, k, grade), x.SrcAt(k), grade)
            && ShowsGrade(rows[i], now, x.TelAt(k), grade)
  {
    MatchedRow(x, rows, telOrder, srcOrder, k, i);
    WellFormedIsSound(x, rows);
    EffectShows(x, rows, k, i);
    EffectKey(x, rows, k, i);
  }

  lemma MatchedRow(x: Inputs, rows: Rows, telOrder: seq<string>, srcOrder: seq<string>, k: string, i: nat)
    requires WellFormed(x, rows) && (Separated(x, rows) || OnlyReaches(x, rows, k, i))
    requires OrderOf(telOrder, x.tel.Keys) && OrderOf(srcOrder, x.srcs.Keys)
    requires i < |rows| && LandsAlone(x, rows, k, i)
    ensures InRange(x, Start(x, rows)) && i < |RunBoth(x, rows, telOrder, srcOrder).rows|
    ensures RunBoth(x, rows, telOrder, srcOrder).rows[i] == Effect(x, rows, k, i)
  {
    if Separated(x, rows) {
      RunBothSettled(x, rows, telOrder, srcOrder);
      AloneRow(x, rows, telOrder, srcOrder, k, i);
    } else {
      RunBothLocal(x, rows, telOrder, srcOrder, k, i);
      AllVisited(x, rows, k, i);
    }
  }

  lemma AllVisited(x: Inputs, rows: Rows, k: string, i: nat)
    requires i < |rows| && Lands(x, rows, k, i)
    ensures LocalRow(x, rows, x.tel.Keys, x.srcs.Keys, k, i) == Effect(x, rows, k, i)
  {
  }

  lemma FoldOne(x: Inputs, rows: Rows, row: SessionSnapshot, k: string)
    ensures TelFold(x, rows, row, [k]) == TelEffect(x, rows, k, row) && SrcFold(x, row, [k]) == SrcEffect(x, k, row)
  {
    FoldSnoc(x, rows, row, [], k);
    assert [] + [k] == [k];
  }

  lemma AloneRow(x: Inputs, rows: Rows, telOrder: seq<string>, srcOrder: seq<string>, k: string, i: nat)
    requires OrderOf(telOrder, x.tel.Keys) && OrderOf(srcOrder, x.srcs.Keys)
    requires i < |rows| && LandsAlone(x, rows, k, i)
    ensures RowAfter(x, rows, i, Among(telOrder, TelOn(x, rows, i)), Among(srcOrder, SrcOn(x, rows, i))) ==
            Effect(x, rows, k, i)
  {
    AloneTelemetry(x, rows, telOrder, k, i);
    AloneTranscript(x, rows, srcOrder, k, i);
    FoldOne(x, rows, rows[i], k);
    FoldOne(x, rows, TelEffect(x, rows, k, rows[i]), k);
  }

  lemma AloneTelemetry(x: Inputs, rows: Rows, order: seq<string>, k: string, i: nat)
    requires OrderOf(order, x.tel.Keys) && LandsAlone(x, rows, k, i)
    ensures Among(order, TelOn(x, rows, i)) == if x.TelAt(k).Some? then [k] else []
  {
    assert forall l :: TelClaims(x, rows, l, i) ==> Lands(x, rows, l, i);
    AmongMembers(order, TelOn(x, rows, i));
    OnlyOne(Among(order, TelOn(x, rows, i)), TelOn(x, rows, i), k);
  }

  lemma AloneTranscript(x: Inputs, rows: Rows, order: seq<string>, k: string, i: nat)
    requires OrderOf(order, x.srcs.Keys) && LandsAlone(x, rows, k, i)
    ensures Among(order, SrcOn(x, rows, i)) == if x.SrcAt(k).Some? then [k] else []
  {
    AmongMembers(order, SrcOn(x, rows, i));
    OnlyOne(Among(order, SrcOn(x, rows, i)), SrcOn(x, rows, i), k);
  }

  /** The evidence leads to a row of the session's own name, or at least of its agent. */
  lemma EvidenceNames(x: Inputs, rows: Rows, k: string, i: nat)
    requires Sound(x, rows) && IsIndex(x.index, rows) && i < |rows| && Lands(x, rows, k, i)
    ensures var grade := Evidence(x, rows, k).grade;
            if grade == ByID then KeyOf(rows[i]) == k
            else && (x.TelAt(k).Some? ==> rows[i].session.agent == x.tel[k].agent)
                 && (x.TelAt(k).None? ==> grade == ByGuess && x.SrcAt(k).Some? &&
                                          rows[i].session.agent == x.srcs[k].agent)
  {
    var grade := Evidence(x, rows, k).grade;
    if grade == ByLaunch {
      assert LaunchOfSession(x.tel[k]) in x.index.byLaunch;
    } else if grade == ByGuess {
      assert SoundGuess(x, rows, k);
    }
  }

  lemma EffectKey(x: Inputs, rows: Rows, k: string, i: nat)
    requires Sound(x, rows) && IsIndex(x.index, rows) && i < |rows| && Lands(x, rows, k, i)
    ensures KeyOf(Effect(x, rows, k, i)) == k
    ensures SameProcess(Effect(x, rows, k, i), rows[i])
  {
    EvidenceNames(x, rows, k, i);
    var t, s, grade := x.TelAt(k), x.SrcAt(k), Evidence(x, rows, k).grade;
    if t.Some? {
      var mid := TakeTelemetry(rows[i], t.value, grade);
      TakeTelemetryRow(rows[i], t.value, grade);
      if s.Some? {
        MergeTranscriptRow(mid, s.value);
        SameProcessTransitive(MergeTranscript(mid, s.value), mid, rows[i]);
      }
    } else if grade == ByID {
      MergeTranscriptRow(rows[i], s.value);
    } else {
      TakeTranscriptRow(rows[i], Get(x.tel, k), s.value);
    }
  }

  lemma EffectShows(x: Inputs, rows: Rows, k: string, i: nat)
    requires i < |rows| && Lands(x, rows, k, i)
    ensures var now, grade := Effect(x, rows, k, i), Evidence(x, rows, k).grade;
            && ShowsMatched(rows[i], now, Absorbed(x, k, grade), x.SrcAt(k), grade)
            && ShowsGrade(rows[i], now, x.TelAt(k), grade)
  {
    var t, s, grade := x.TelAt(k), x.SrcAt(k), Evidence(x, rows, k).grade;
    if t.Some? {
      TelemetryShows(rows[i], t.value, grade);
      if s.Some? { TranscriptShows(rows[i], TakeTelemetry(rows[i], t.value, grade), t, s.value, grade); }
    } else if grade == ByID {
      TranscriptShows(rows[i], rows[i], None, s.value, grade);
    } else {
      GuessShows(rows[i], Get(x.tel, k), s.value);
    }
  }

  lemma TelemetryShows(was: SessionSnapshot, t: TelemetrySession, grade: Grade)
    ensures ShowsMatched(was, TakeTelemetry(was, t, grade), Some(t), None, grade)
    ensures ShowsGrade(was, TakeTelemetry(was, t, grade), Some(t), grade)
  {
  }

  lemma TranscriptShows(
      was: SessionSnapshot, mid: SessionSnapshot, t: Option<TelemetrySession>, s: UsageSource, grade: Grade)
    requires if t.Some? then ShowsMatched(was, mid, t, None, grade) else mid == was
    ensures ShowsMatched(was, MergeTranscript(mid, s), t, Some(s), grade)
    ensures MergeTranscript(mid, s).attribution == mid.attribution
    ensures MergeTranscript(mid, s).session.launchID == mid.session.launchID
  {
  }

  lemma GuessShows(was: SessionSnapshot, t: Option<TelemetrySession>, s: UsageSource)
    ensures ShowsMatched(was, TakeTranscript(was, t, s), t, Some(s), ByGuess)
    ensures ShowsGrade(was, TakeTranscript(was, t, s), None, ByGuess)
  {
  }

  /** A row no recent session is matched to is shown as it was scanned. */
  lemma UnclaimedRowUnchanged(x: Inputs, rows: Rows, telOrder: seq<string>, srcOrder: seq<string>, i: nat)
    requires WellFormed(x, rows) && (Separated(x, rows) || forall k :: !MayReach(x, rows, k, i))
    requires OrderOf(telOrder, x.tel.Keys) && OrderOf(srcOrder, x.srcs.Keys)
    requires i < |rows| && forall k :: !Lands(x, rows, k, i)
    ensures InRange(x, Start(x, rows)) && i < |RunBoth(x, rows, telOrder, srcOrder).rows|
    ensures RunBoth(x, rows, telOrder, srcOrder).rows[i] == rows[i]
  {
    if Separated(x, rows) {
      RunBothSettled(x, rows, telOrder, srcOrder);
      NobodyLands(x, rows, telOrder, srcOrder, i);
    } else {
      RunBothLocal(x, rows, telOrder, srcOrder, "", i);
    }
  }

  lemma NobodyLands(x: Inputs, rows: Rows, telOrder: seq<string>, srcOrder: seq<string>, i: nat)
    requires OrderOf(telOrder, x.tel.Keys) && OrderOf(srcOrder, x.srcs.Keys)
    requires i < |rows| && forall k :: !Lands(x, rows, k, i)
    ensures RowAfter(x, rows, i, Among(telOrder, TelOn(x, rows, i)), Among(srcOrder, SrcOn(x, rows, i))) == rows[i]
  {
    assert forall l :: TelClaims(x, rows, l, i) ==> Lands(x, rows, l, i);
    AmongMembers(telOrder, TelOn(x, rows, i));
    AmongMembers(srcOrder, SrcOn(x, rows, i));
    NoneLeft(Among(telOrder, TelOn(x, rows, i)));
    NoneLeft(Among(srcOrder, SrcOn(x, rows, i)));
  }

  // ---------------------------------------------------------- logical rows ---

  /** What the row of a session without a process shows. */
  ghost predicate ShowsLogical(row: SessionSnapshot, t: Option<TelemetrySession>, s: Option<UsageSource>) {
    && (s.Some? ==> row.usage == s.value.usage && row.usageUpdatedAt == s.value.updatedAt)
    && (s.None? && t.Some? ==> row.usage == t.value.usage && row.usageUpdatedAt == t.value.updatedAt)
    && row.metrics == (if t.Some? then t.value.metrics else NO_METRICS)
    && row.session.cwd == Fill(CwdFrom(t), if s.Some? then s.value.cwd else "")
    && (t.Some? && (t.value.cwd != "" || s.None?) ==> row.session.project == Fill(t.value.project, "Codex task"))
    && (s.Some? && (t.None? || t.value.cwd == "") ==> row.session.project == s.value.project)
    && row.session.model == Fill(ModelFrom(t), if s.Some? then s.value.model else "")
    && (t.Some? ==> row.session.startedAt == t.value.startedAt)
    && (t.None? && s.Some? ==> row.session.startedAt == s.value.startedAt)
    && (t.Some? || s.Some? ==>
          && row.session.agent == (if t.Some? then t.value.agent else s.value.agent)
          && row.session.id == (if t.Some? then t.value.sessionID else s.value.sessionID))
    && row.session.transcriptPath == (if s.Some? then s.value.path else "")
    && row.session.source == (if s.Some? then Transcript else Telemetry)
    && row.session.state == (if t.None? && s.Some? && s.value.archived then Ended else Active)
    && row.session.launchID == "" && row.session.rootPID == 0 && row.session.endedAt == None
    && row.resourceScope == NoResources && row.attribution == NoAttribution
    && (t.Some? || s.Some? ==>
          row.session.lastActivityAt == Latest(if t.Some? then t.value.updatedAt else s.value.updatedAt, t, s))
    && (row.session.state == Ended <==> t.None? && s.Some? && s.value.archived)
    && row.session.source == (if s.Some? then Transcript else Telemetry)
    && row.session.transcriptPath == (if s.Some? then s.value.path else "")
  }

  lemma LogicalShows(x: Inputs, k: string)
    requires x.IsRecent(k)
    ensures ShowsLogical(LogicalValue(x, k, true), x.TelAt(k), x.SrcAt(k))
    ensures x.SrcAt(k).None? ==> LogicalValue(x, k, false) == LogicalValue(x, k, true)
  {
  }
}
