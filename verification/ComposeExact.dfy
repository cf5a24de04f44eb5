// Exactly when the visiting orders of composeSessionsLocked cannot be told apart: no two
// telemetry sessions compete for a row, and where a row's own session shares it with one
// other, the two agree on every value that the later one would overwrite.
module ComposeExact {
  import opened Base
  import opened ComposeOrder
  import opened ComposeRows
  import opened ComposeSafety
  import opened Composition
  import opened Matching
  import opened Model
  import opened RowTables
  import opened TelemetryIngest
  import opened VisitOrders

  // ------------------------------------------------------ what must agree ----

  /**
   * Telemetry of the row's own session and of one with its launch ID: the same metrics,
   * the same usage unless a transcript replaces it anyway, and no two different answers
   * for a directory or model the row lacks.
   */
  predicate TelemetryAgrees(row: SessionSnapshot, t: TelemetrySession, u: TelemetrySession, hidden: bool) {
    && t.metrics == u.metrics
    && (hidden || (t.usage == u.usage && t.updatedAt == u.updatedAt))
    && (row.session.cwd == "" ==> t.cwd == "" || u.cwd == "" || (t.cwd == u.cwd && t.project == u.project))
    && (row.session.model == "" ==> t.model == "" || u.model == "" || t.model == u.model)
  }

  /** Two transcripts on one row; model is what the second brings, older telemetry included. */
  predicate TranscriptsAgree(
      noCwd: bool, noModel: bool, path: string, s: UsageSource, v: UsageSource, model: string) {
    && s.usage == v.usage && s.updatedAt == v.updatedAt
    && (noCwd ==> (s.cwd == "") != (v.cwd == "") || (s.cwd == v.cwd && s.project == v.project))
    && (noModel ==> s.model == "" || model == "" || s.model == model)
    && (path == "" ==> s.path == "" || v.path == "" || s.path == v.path)
  }

  /** None of the three knows. */
  predicate NoText(own: string, t: string, u: string) { own == "" && t == "" && u == "" }

  /** k is the row's own session and l another one that ends up on it. */
  predicate PairAgrees(x: Inputs, row: SessionSnapshot, k: string, l: string) {
    var t, u, s, v := x.TelAt(k), x.TelAt(l), x.SrcAt(k), x.SrcAt(l);
    && (t.Some? && u.Some? ==> TelemetryAgrees(row, t.value, u.value, s.Some? || v.Some?))
    && (s.Some? && v.Some? ==>
          TranscriptsAgree(
            NoText(row.session.cwd, CwdFrom(t), CwdFrom(u)), NoText(row.session.model, ModelFrom(t), ModelFrom(u)),
            row.session.transcriptPath, s.value, v.value,
            if u.Some? then v.value.model else Fill(ModelFrom(Get(x.tel, l)), v.value.model)))
  }

  /** k is row i's own session, l shares the row with it. */
  ghost predicate Share(x: Inputs, rows: Rows, i: nat, k: string, l: string) {
    k != l && Lands(x, rows, k, i) && Lands(x, rows, l, i) && Home(x, rows, k).grade == ByID
  }

  /** The exact condition: sessions are separated, and those that share a row agree. */
  ghost predicate Uncontended(x: Inputs, rows: Rows) {
    && Separated(x, rows)
    && forall i: nat, k, l :: i < |rows| && Share(x, rows, i, k, l) ==> PairAgrees(x, rows[i], k, l)
  }

  // --------------------------------------------------------- value by value ---

  ghost predicate SameButUsage(p: SessionSnapshot, q: SessionSnapshot) {
    p.(usage := q.usage, usageUpdatedAt := q.usageUpdatedAt) == q
  }

  /** Two rows that a transcript would complete in the same places. */
  ghost predicate Alike(p: SessionSnapshot, q: SessionSnapshot) {
    && (p.session.cwd == "" <==> q.session.cwd == "")
    && (p.session.cwd == "" ==> p.session.project == q.session.project)
    && (p.session.model == "" <==> q.session.model == "")
    && p.session.transcriptPath == q.session.transcriptPath
    && p.session.lastActivityAt == q.session.lastActivityAt
    && p.session.source == q.session.source && p.resourceScope == q.resourceScope
  }

  lemma TelemetryOrder(row: SessionSnapshot, t: TelemetrySession, u: TelemetrySession)
    requires u.launchID != "" && u.sessionID != ""
    ensures var p := TakeTelemetry(TakeTelemetry(row, t, ByID), u, ByLaunch);
            var q := TakeTelemetry(TakeTelemetry(row, u, ByLaunch), t, ByID);
            && (p == q <==> TelemetryAgrees(row, t, u, false))
            && (SameButUsage(p, q) <==> TelemetryAgrees(row, t, u, true)) && Alike(p, q)
            && (p.session.cwd == "" <==> NoText(row.session.cwd, t.cwd, u.cwd))
            && (p.session.model == "" <==> NoText(row.session.model, t.model, u.model))
            && p.session.transcriptPath == row.session.transcriptPath
  {
  }

  lemma MergeAlike(p: SessionSnapshot, q: SessionSnapshot, s: UsageSource)
    requires Alike(p, q)
    ensures Alike(MergeTranscript(p, s), MergeTranscript(q, s))
    ensures SameButUsage(p, q) <==> MergeTranscript(p, s) == MergeTranscript(q, s)
    ensures SameButUsage(p, q) <==> SameButUsage(MergeTranscript(p, s), MergeTranscript(q, s))
  {
  }

  lemma TranscriptOrder(p: SessionSnapshot, s: UsageSource, v: UsageSource)
    ensures MergeTranscript(MergeTranscript(p, s), v) == MergeTranscript(MergeTranscript(p, v), s) <==>
            TranscriptsAgree(p.session.cwd == "", p.session.model == "", p.session.transcriptPath, s, v, v.model)
  {
  }

  lemma GuessOrder(row: SessionSnapshot, s: UsageSource, t: Option<TelemetrySession>, v: UsageSource)
    requires row.session.cwd != "" && v.sessionID != ""
    ensures TakeTranscript(MergeTranscript(row, s), t, v) == MergeTranscript(TakeTranscript(row, t, v), s) <==>
            TranscriptsAgree(false, row.session.model == "", row.session.transcriptPath, s, v,
                             Fill(ModelFrom(t), v.model))
  {
  }

  // ----------------------------------------------- at most two on one row ----

  lemma OneOwn(x: Inputs, rows: Rows, i: nat, k: string, l: string)
    requires WellFormed(x, rows) && Lands(x, rows, k, i) && Lands(x, rows, l, i)
    requires Home(x, rows, k).grade == ByID == Home(x, rows, l).grade
    ensures k == l
  {
    assert LastKeyed(rows, k, i) && LastKeyed(rows, l, i);
  }

  lemma OneOther(x: Inputs, rows: Rows, i: nat, k: string, l: string)
    requires Injective(x.probable) && Separated(x, rows) && Lands(x, rows, k, i) && Lands(x, rows, l, i)
    requires Home(x, rows, k).grade != ByID && Home(x, rows, l).grade != ByID
    ensures k == l
  {
    if x.TelAt(k).Some? { assert TelClaims(x, rows, k, i); }
    if x.TelAt(l).Some? { assert TelClaims(x, rows, l, i); }
  }

  /** Two sessions on one row: one is the row's own, and there is no third. */
  lemma SharersOnly(x: Inputs, rows: Rows, i: nat, k: string, l: string, m: string)
    requires WellFormed(x, rows) && Separated(x, rows) && Share(x, rows, i, k, l) && Lands(x, rows, m, i)
    ensures m == k || m == l
    ensures Home(x, rows, l).grade != ByID
  {
    GuessesInjective(x, rows);
    if Home(x, rows, l).grade == ByID { OneOwn(x, rows, i, k, l); }
    if Home(x, rows, m).grade == ByID { OneOwn(x, rows, i, k, m); } else { OneOther(x, rows, i, l, m); }
  }

  lemma AloneOrShared(x: Inputs, rows: Rows, i: nat, k: string, l: string)
    requires WellFormed(x, rows) && Separated(x, rows) && Lands(x, rows, k, i) && Lands(x, rows, l, i)
    ensures k == l || Share(x, rows, i, k, l) || Share(x, rows, i, l, k)
  {
    GuessesInjective(x, rows);
    if k != l && Home(x, rows, k).grade != ByID && Home(x, rows, l).grade != ByID { OneOther(x, rows, i, k, l); }
  }

  /** What k, the row's own session, and l bring to the row they share. */
  lemma SharedEffects(x: Inputs, rows: Rows, i: nat, k: string, l: string)
    requires WellFormed(x, rows) && Separated(x, rows) && Share(x, rows, i, k, l) && i < |rows|
    ensures x.TelAt(k).Some? ==> x.TelAt(l).Some? && Evidence(x, rows, l).grade == ByLaunch
    ensures k in x.index.byID && l !in x.index.byID
    ensures x.TelAt(k).Some? ==> Evidence(x, rows, k) == Matched(i, ByID)
    ensures x.TelAt(l).Some? ==> Evidence(x, rows, l).Matched?
    ensures x.TelAt(l).None? ==> rows[i].session.cwd != "" && x.SrcAt(l).Some?
    ensures TelOn(x, rows, i) <= {k, l} && SrcOn(x, rows, i) <= {k, l}
    ensures (k in TelOn(x, rows, i) <==> x.TelAt(k).Some?) && (l in TelOn(x, rows, i) <==> x.TelAt(l).Some?)
    ensures (k in SrcOn(x, rows, i) <==> x.SrcAt(k).Some?) && (l in SrcOn(x, rows, i) <==> x.SrcAt(l).Some?)
  {
    SharersOnly(x, rows, i, k, l, k);
    SharersEvidence(x, rows, i, k, l);
    if x.TelAt(l).None? { GuessedRowNamed(x, rows, l); }
    OnlySharers(x, rows, i, k, l);
    SharersSets(x, rows, i, k, l);
  }

  lemma OnlySharers(x: Inputs, rows: Rows, i: nat, k: string, l: string)
    requires WellFormed(x, rows) && Separated(x, rows) && Share(x, rows, i, k, l)
    ensures forall m :: Lands(x, rows, m, i) ==> m == k || m == l
  {
    forall m | Lands(x, rows, m, i) ensures m == k || m == l { SharersOnly(x, rows, i, k, l, m); }
  }

  lemma SharersSets(x: Inputs, rows: Rows, i: nat, k: string, l: string)
    requires forall m :: Lands(x, rows, m, i) ==> m == k || m == l
    requires Lands(x, rows, k, i) && Lands(x, rows, l, i)
    ensures TelOn(x, rows, i) <= {k, l} && SrcOn(x, rows, i) <= {k, l}
    ensures (k in TelOn(x, rows, i) <==> x.TelAt(k).Some?) && (l in TelOn(x, rows, i) <==> x.TelAt(l).Some?)
    ensures (k in SrcOn(x, rows, i) <==> x.SrcAt(k).Some?) && (l in SrcOn(x, rows, i) <==> x.SrcAt(l).Some?)
  {
    assert forall m :: TelClaims(x, rows, m, i) ==> Lands(x, rows, m, i);
  }

  lemma SharersEvidence(x: Inputs, rows: Rows, i: nat, k: string, l: string)
    requires Separated(x, rows) && Share(x, rows, i, k, l) && Home(x, rows, l).grade != ByID
    ensures k in x.index.byID && l !in x.index.byID
    ensures x.TelAt(k).Some? ==> TelClaims(x, rows, k, i) && Evidence(x, rows, k) == Matched(i, ByID)
    ensures x.TelAt(l).Some? ==> TelClaims(x, rows, l, i)
    ensures x.TelAt(k).Some? ==> x.TelAt(l).Some? && Evidence(x, rows, l).grade == ByLaunch
    ensures x.TelAt(l).None? ==> l in x.probable && x.probable[l] == i && x.SrcAt(l).Some?
  {
    if x.TelAt(k).Some? { assert TelClaims(x, rows, k, i); }
    if x.TelAt(l).Some? { assert TelClaims(x, rows, l, i); }
  }

  /** Only a row with a directory can be guessed. */
  lemma GuessedRowNamed(x: Inputs, rows: Rows, k: string)
    requires WellFormed(x, rows) && k in x.probable
    ensures x.probable[k] < |rows| && rows[x.probable[k]].session.cwd != ""
  {
    assert UniquelyFits(HintsOf(x.tel, x.srcs, x.now, x.window), rows, k, x.probable[k]);
  }

  // ---------------------------------------------------- one row, all orders ---

  /** Row i comes out the same from every order of its own sessions. */
  ghost predicate RowFree(x: Inputs, rows: Rows, i: nat)
    requires i < |rows|
  {
    forall a, b, c, d ::
      OrderOf(a, TelOn(x, rows, i)) && OrderOf(b, TelOn(x, rows, i)) &&
      OrderOf(c, SrcOn(x, rows, i)) && OrderOf(d, SrcOn(x, rows, i)) ==>
        RowAfter(x, rows, i, a, c) == RowAfter(x, rows, i, b, d)
  }

  lemma FoldTwo(x: Inputs, rows: Rows, row: SessionSnapshot, k: string, l: string)
    ensures TelFold(x, rows, row, [k, l]) == TelEffect(x, rows, l, TelEffect(x, rows, k, row))
    ensures SrcFold(x, row, [k, l]) == SrcEffect(x, l, SrcEffect(x, k, row))
    ensures TelFold(x, rows, row, [k]) == TelEffect(x, rows, k, row) && SrcFold(x, row, [k]) == SrcEffect(x, k, row)
  {
    FoldOne(x, rows, row, k);
    FoldSnoc(x, rows, row, [k], l);
    assert [k] + [l] == [k, l];
  }

  /** The two telemetry orders of a shared row. */
  lemma SharedTelemetry(x: Inputs, rows: Rows, i: nat, k: string, l: string)
    requires WellFormed(x, rows) && Separated(x, rows) && Share(x, rows, i, k, l) && i < |rows|
    requires x.TelAt(k).Some? && x.TelAt(l).Some?
    ensures var p, q := TelFold(x, rows, rows[i], [k, l]), TelFold(x, rows, rows[i], [l, k]);
            var t, u := x.TelAt(k).value, x.TelAt(l).value;
            && (p == q <==> TelemetryAgrees(rows[i], t, u, false))
            && (SameButUsage(p, q) <==> TelemetryAgrees(rows[i], t, u, true)) && Alike(p, q)
            && (p.session.cwd == "" <==> NoText(rows[i].session.cwd, t.cwd, u.cwd))
            && (p.session.model == "" <==> NoText(rows[i].session.model, t.model, u.model))
            && p.session.transcriptPath == rows[i].session.transcriptPath
  {
    SharedEffects(x, rows, i, k, l);
    FoldTwo(x, rows, rows[i], k, l);
    FoldTwo(x, rows, rows[i], l, k);
    TelemetryOrder(rows[i], x.TelAt(k).value, x.TelAt(l).value);
  }

  /** The order of the telemetry sessions of a shared row in which its own comes first. */
  function OwnFirst(x: Inputs, k: string, l: string): seq<string> {
    if x.TelAt(k).Some? then [k, l] else if x.TelAt(l).Some? then [l] else []
  }

  /** Which gaps of a shared row telemetry leaves open. */
  lemma GapsLeft(x: Inputs, rows: Rows, i: nat, k: string, l: string)
    requires WellFormed(x, rows) && Separated(x, rows) && Share(x, rows, i, k, l) && i < |rows|
    ensures var p, t, u := TelFold(x, rows, rows[i], OwnFirst(x, k, l)), x.TelAt(k), x.TelAt(l);
            && (p.session.cwd == "" <==> NoText(rows[i].session.cwd, CwdFrom(t), CwdFrom(u)))
            && (p.session.model == "" <==> NoText(rows[i].session.model, ModelFrom(t), ModelFrom(u)))
            && p.session.transcriptPath == rows[i].session.transcriptPath
            && (u.None? ==> p == rows[i])
  {
    SharedEffects(x, rows, i, k, l);
    if x.TelAt(k).Some? {
      SharedTelemetry(x, rows, i, k, l);
    } else if x.TelAt(l).Some? {
      FoldOne(x, rows, rows[i], l);
      TelemetryFills(rows[i], x.TelAt(l).value, Evidence(x, rows, l).grade);
    }
  }

  lemma TelemetryFills(row: SessionSnapshot, t: TelemetrySession, grade: Grade)
    ensures var p := TakeTelemetry(row, t, grade);
            && (p.session.cwd == "" <==> row.session.cwd == "" && t.cwd == "")
            && (p.session.model == "" <==> row.session.model == "" && t.model == "")
            && p.session.transcriptPath == row.session.transcriptPath
  {
  }

  lemma SourcesOrder(x: Inputs, rows: Rows, p: SessionSnapshot, k: string, l: string)
    requires x.SrcAt(k).Some? && x.SrcAt(l).Some? && k in x.index.byID && l !in x.index.byID
    requires x.TelAt(l).None? ==> p.session.cwd != "" && x.SrcAt(l).value.sessionID != ""
    ensures SrcFold(x, p, [k, l]) == SrcFold(x, p, [l, k]) <==>
            TranscriptsAgree(
              p.session.cwd == "", p.session.model == "", p.session.transcriptPath, x.SrcAt(k).value, x.SrcAt(l).value,
              if x.TelAt(l).Some? then x.SrcAt(l).value.model
              else Fill(ModelFrom(Get(x.tel, l)), x.SrcAt(l).value.model))
  {
    FoldTwo(x, rows, p, k, l);
    FoldTwo(x, rows, p, l, k);
    if x.TelAt(l).Some? {
      TranscriptOrder(p, x.SrcAt(k).value, x.SrcAt(l).value);
    } else {
      GuessOrder(p, x.SrcAt(k).value, Get(x.tel, l), x.SrcAt(l).value);
    }
  }

  /** The two transcript orders, on what telemetry left of the row. */
  lemma SharedTranscripts(x: Inputs, rows: Rows, i: nat, k: string, l: string)
    requires WellFormed(x, rows) && Separated(x, rows) && Share(x, rows, i, k, l) && i < |rows|
    requires x.SrcAt(k).Some? && x.SrcAt(l).Some?
    ensures RowAfter(x, rows, i, OwnFirst(x, k, l), [k, l]) == RowAfter(x, rows, i, OwnFirst(x, k, l), [l, k]) <==>
            TranscriptsAgree(
              NoText(rows[i].session.cwd, CwdFrom(x.TelAt(k)), CwdFrom(x.TelAt(l))),
              NoText(rows[i].session.model, ModelFrom(x.TelAt(k)), ModelFrom(x.TelAt(l))),
              rows[i].session.transcriptPath, x.SrcAt(k).value, x.SrcAt(l).value,
              if x.TelAt(l).Some? then x.SrcAt(l).value.model
              else Fill(ModelFrom(Get(x.tel, l)), x.SrcAt(l).value.model))
  {
    SharedEffects(x, rows, i, k, l);
    GapsLeft(x, rows, i, k, l);
    SourcesOrder(x, rows, TelFold(x, rows, rows[i], OwnFirst(x, k, l)), k, l);
  }

  /** Transcripts on top of two rows that differ in usage at most. */
  lemma {:induction false} TranscriptsHideUsage(
      x: Inputs, rows: Rows, p: SessionSnapshot, q: SessionSnapshot, c: seq<string>)
    requires Alike(p, q) && c != []
    requires forall k :: k in c ==> x.SrcAt(k).Some? && (x.TelAt(k).Some? || k in x.index.byID)
    ensures SameButUsage(p, q) <==> SrcFold(x, p, c) == SrcFold(x, q, c)
    ensures Alike(SrcFold(x, p, c), SrcFold(x, q, c))
    decreases |c|
  {
    var init, last := c[..|c| - 1], c[|c| - 1];
    assert c == init + [last];
    assert last in c && forall k :: k in init ==> k in c;
    if init != [] { TranscriptsHideUsage(x, rows, p, q, init); }
    MergeAlike(SrcFold(x, p, init), SrcFold(x, q, init), x.SrcAt(last).value);
  }

  lemma OwnFirstIsOrder(x: Inputs, rows: Rows, i: nat, k: string, l: string)
    requires WellFormed(x, rows) && Separated(x, rows) && Share(x, rows, i, k, l) && i < |rows|
    ensures OrderOf(OwnFirst(x, k, l), TelOn(x, rows, i))
    ensures x.TelAt(k).Some? ==> OrderOf([k, l], TelOn(x, rows, i)) && OrderOf([l, k], TelOn(x, rows, i))
    ensures x.SrcAt(k).Some? && x.SrcAt(l).Some? ==>
              OrderOf([k, l], SrcOn(x, rows, i)) && OrderOf([l, k], SrcOn(x, rows, i))
  {
    SharedEffects(x, rows, i, k, l);
    OneOrTwo(TelOn(x, rows, i), k, l);
    OneOrTwo(SrcOn(x, rows, i), k, l);
  }

  /** All visible transcripts of a row whose telemetry has two orders are plain merges. */
  lemma MergesOnly(x: Inputs, rows: Rows, i: nat, k: string, l: string, c: seq<string>)
    requires WellFormed(x, rows) && Separated(x, rows) && Share(x, rows, i, k, l) && i < |rows|
    requires x.TelAt(k).Some? && OrderOf(c, SrcOn(x, rows, i))
    ensures forall m :: m in c ==> x.SrcAt(m).Some? && (x.TelAt(m).Some? || m in x.index.byID)
    ensures c == [] <==> x.SrcAt(k).None? && x.SrcAt(l).None?
  {
    SharedEffects(x, rows, i, k, l);
    FirstThreeIn(c);
    assert k in c <==> x.SrcAt(k).Some?;
    assert l in c <==> x.SrcAt(l).Some?;
  }

  /** The telemetry order of a shared row shows exactly when the two disagree. */
  lemma TelemetryOrderShows(x: Inputs, rows: Rows, i: nat, k: string, l: string, c: seq<string>)
    requires WellFormed(x, rows) && Separated(x, rows) && Share(x, rows, i, k, l) && i < |rows|
    requires x.TelAt(k).Some? && x.TelAt(l).Some? && OrderOf(c, SrcOn(x, rows, i))
    ensures RowAfter(x, rows, i, [k, l], c) == RowAfter(x, rows, i, [l, k], c) <==>
            TelemetryAgrees(rows[i], x.TelAt(k).value, x.TelAt(l).value, x.SrcAt(k).Some? || x.SrcAt(l).Some?)
  {
    SharedTelemetry(x, rows, i, k, l);
    MergesOnly(x, rows, i, k, l, c);
    if c != [] {
      TranscriptsHideUsage(x, rows, TelFold(x, rows, rows[i], [k, l]), TelFold(x, rows, rows[i], [l, k]), c);
    }
  }

  lemma PairSuffices(
      x: Inputs, rows: Rows, i: nat, k: string, l: string, a: seq<string>, c: seq<string>)
    requires WellFormed(x, rows) && Separated(x, rows) && Share(x, rows, i, k, l) && i < |rows|
    requires PairAgrees(x, rows[i], k, l) && OrderOf(a, TelOn(x, rows, i)) && OrderOf(c, SrcOn(x, rows, i))
    ensures RowAfter(x, rows, i, a, c) == RowAfter(x, rows, i, OwnFirst(x, k, l), OwnFirstSrc(x, k, l))
  {
    SharedEffects(x, rows, i, k, l);
    SmallOrders(a, TelOn(x, rows, i), k, l);
    SmallOrders(c, SrcOn(x, rows, i), k, l);
    if x.TelAt(k).Some? { TelemetryOrderShows(x, rows, i, k, l, c); }
    if x.SrcAt(k).Some? && x.SrcAt(l).Some? { SharedTranscripts(x, rows, i, k, l); }
  }

  function OwnFirstSrc(x: Inputs, k: string, l: string): seq<string> {
    if x.SrcAt(k).Some? then (if x.SrcAt(l).Some? then [k, l] else [k])
    else (if x.SrcAt(l).Some? then [l] else [])
  }

  lemma PairNeeded(x: Inputs, rows: Rows, i: nat, k: string, l: string)
    requires WellFormed(x, rows) && Separated(x, rows) && Share(x, rows, i, k, l) && i < |rows|
    requires RowFree(x, rows, i)
    ensures PairAgrees(x, rows[i], k, l)
  {
    OwnFirstIsOrder(x, rows, i, k, l);
    var c := SomeOrder(SrcOn(x, rows, i));
    if x.TelAt(k).Some? && x.TelAt(l).Some? { TelemetryOrderShows(x, rows, i, k, l, c); }
    if x.SrcAt(k).Some? && x.SrcAt(l).Some? { SharedTranscripts(x, rows, i, k, l); }
  }

  /** A row that one session at most ends up on knows one order only. */
  lemma LonelyRow(x: Inputs, rows: Rows, i: nat, a: seq<string>, b: seq<string>, c: seq<string>, d: seq<string>)
    requires i < |rows| && forall k, l :: Lands(x, rows, k, i) && Lands(x, rows, l, i) ==> k == l
    requires OrderOf(a, TelOn(x, rows, i)) && OrderOf(b, TelOn(x, rows, i))
    requires OrderOf(c, SrcOn(x, rows, i)) && OrderOf(d, SrcOn(x, rows, i))
    ensures a == b && c == d
  {
    assert forall k :: TelClaims(x, rows, k, i) ==> Lands(x, rows, k, i);
    OneKey(a, b, TelOn(x, rows, i));
    OneKey(c, d, SrcOn(x, rows, i));
  }

  lemma OneKey(a: seq<string>, b: seq<string>, keys: set<string>)
    requires OrderOf(a, keys) && OrderOf(b, keys) && forall k, l :: k in keys && l in keys ==> k == l
    ensures a == b
  {
    if keys == {} {
      NoneLeft(a);
      NoneLeft(b);
    } else {
      var k := AnyOf(keys);
      OnlyOne(a, keys, k);
      OnlyOne(b, keys, k);
    }
  }

  /** One row: all its orders agree exactly when the pair on it, if there is one, does. */
  lemma RowFreeExactly(x: Inputs, rows: Rows, i: nat)
    requires WellFormed(x, rows) && Separated(x, rows) && i < |rows|
    ensures RowFree(x, rows, i) <==>
            forall k, l :: Share(x, rows, i, k, l) ==> PairAgrees(x, rows[i], k, l)
  {
    if RowFree(x, rows, i) {
      forall k, l | Share(x, rows, i, k, l) ensures PairAgrees(x, rows[i], k, l) {
        PairNeeded(x, rows, i, k, l);
      }
    }
    if forall k, l :: Share(x, rows, i, k, l) ==> PairAgrees(x, rows[i], k, l) {
      forall a, b, c, d |
        OrderOf(a, TelOn(x, rows, i)) && OrderOf(b, TelOn(x, rows, i)) &&
        OrderOf(c, SrcOn(x, rows, i)) && OrderOf(d, SrcOn(x, rows, i))
        ensures RowAfter(x, rows, i, a, c) == RowAfter(x, rows, i, b, d)
      {
        if k, l :| Share(x, rows, i, k, l) {
          PairSuffices(x, rows, i, k, l, a, c);
          PairSuffices(x, rows, i, k, l, b, d);
        } else {
          forall k, l | Lands(x, rows, k, i) && Lands(x, rows, l, i) ensures k == l {
            AloneOrShared(x, rows, i, k, l);
          }
          LonelyRow(x, rows, i, a, b, c, d);
        }
      }
    }
  }

  // ------------------------------------------------------------- both loops --

  /** Every order of both maps ends in the same state. */
  ghost predicate OrderFree(x: Inputs, rows: Rows)
    requires InRange(x, Start(x, rows))
  {
    forall a, b, c, d ::
      OrderOf(a, x.tel.Keys) && OrderOf(b, x.tel.Keys) && OrderOf(c, x.srcs.Keys) && OrderOf(d, x.srcs.Keys) ==>
        RunBoth(x, rows, a, c) == RunBoth(x, rows, b, d)
  }

  /** Every order of both maps ends with the same process rows. */
  ghost predicate RowsFree(x: Inputs, rows: Rows)
    requires InRange(x, Start(x, rows))
  {
    forall a, b, c, d ::
      OrderOf(a, x.tel.Keys) && OrderOf(b, x.tel.Keys) && OrderOf(c, x.srcs.Keys) && OrderOf(d, x.srcs.Keys) ==>
        RunBoth(x, rows, a, c).rows == RunBoth(x, rows, b, d).rows
  }

  lemma AmongOrder(order: seq<string>, keys: set<string>, part: set<string>)
    requires OrderOf(order, keys) && part <= keys
    ensures OrderOf(Among(order, part), part)
  {
    AmongMembers(order, part);
  }

  /** Uncontended sessions leave the same state behind, whatever the orders. */
  lemma UncontendedIsFree(
      x: Inputs, rows: Rows, a: seq<string>, b: seq<string>, c: seq<string>, d: seq<string>)
    requires WellFormed(x, rows) && Uncontended(x, rows)
    requires OrderOf(a, x.tel.Keys) && OrderOf(b, x.tel.Keys)
    requires OrderOf(c, x.srcs.Keys) && OrderOf(d, x.srcs.Keys)
    ensures InRange(x, Start(x, rows)) && RunBoth(x, rows, a, c) == RunBoth(x, rows, b, d)
  {
    RunBothSettled(x, rows, a, c);
    RunBothSettled(x, rows, b, d);
    var st, st' := RunBoth(x, rows, a, c), RunBoth(x, rows, b, d);
    SettledUnique(x, rows, st, st', x.tel.Keys, x.srcs.Keys);
    forall i: nat | i < |rows| ensures st.rows[i] == st'.rows[i] {
      UncontendedRow(x, rows, i, a, b, c, d);
    }
    assert st.rows == st'.rows;
  }

  lemma UncontendedRow(
      x: Inputs, rows: Rows, i: nat, a: seq<string>, b: seq<string>, c: seq<string>, d: seq<string>)
    requires WellFormed(x, rows) && Uncontended(x, rows) && i < |rows|
    requires OrderOf(a, x.tel.Keys) && OrderOf(b, x.tel.Keys)
    requires OrderOf(c, x.srcs.Keys) && OrderOf(d, x.srcs.Keys)
    ensures RowAfter(x, rows, i, Among(a, TelOn(x, rows, i)), Among(c, SrcOn(x, rows, i))) ==
            RowAfter(x, rows, i, Among(b, TelOn(x, rows, i)), Among(d, SrcOn(x, rows, i)))
  {
    AmongOrder(a, x.tel.Keys, TelOn(x, rows, i));
    AmongOrder(b, x.tel.Keys, TelOn(x, rows, i));
    AmongOrder(c, x.srcs.Keys, SrcOn(x, rows, i));
    AmongOrder(d, x.srcs.Keys, SrcOn(x, rows, i));
    RowFreeExactly(x, rows, i);
  }

  /** Any two orders of a row's own sessions occur in orders of the whole maps. */
  lemma FreeRows(x: Inputs, rows: Rows, i: nat)
    requires WellFormed(x, rows) && Separated(x, rows) && i < |rows| && InRange(x, Start(x, rows))
    requires RowsFree(x, rows)
    ensures RowFree(x, rows, i)
  {
    forall a, b, c, d |
      OrderOf(a, TelOn(x, rows, i)) && OrderOf(b, TelOn(x, rows, i)) &&
      OrderOf(c, SrcOn(x, rows, i)) && OrderOf(d, SrcOn(x, rows, i))
      ensures RowAfter(x, rows, i, a, c) == RowAfter(x, rows, i, b, d)
    {
      var a' := Extend(a, TelOn(x, rows, i), x.tel.Keys);
      var b' := Extend(b, TelOn(x, rows, i), x.tel.Keys);
      var c' := Extend(c, SrcOn(x, rows, i), x.srcs.Keys);
      var d' := Extend(d, SrcOn(x, rows, i), x.srcs.Keys);
      RunBothSettled(x, rows, a', c');
      RunBothSettled(x, rows, b', d');
    }
  }

  // -------------------------------------------------- competing claimants ---

  lemma {:induction false} RunTelemetryConcat(x: Inputs, st: State, a: seq<string>, b: seq<string>)
    requires InRange(x, st)
    ensures RunTelemetry(x, st, a + b) == RunTelemetry(x, RunTelemetry(x, st, a), b)
    decreases |b|
  {
    if b == [] {
      assert a + b == a;
    } else {
      RunTelemetryConcat(x, st, a, b[..|b| - 1]);
      assert (a + b)[..|a + b| - 1] == a + b[..|b| - 1];
    }
  }

  /** Once a session has its row it keeps it. */
  lemma {:induction false} TelemetryKeepsEntry(x: Inputs, st: State, order: seq<string>, l: string)
    requires InRange(x, st) && l in st.byID
    ensures l in RunTelemetry(x, st, order).byID && RunTelemetry(x, st, order).byID[l] == st.byID[l]
    decreases |order|
  {
    if order != [] { TelemetryKeepsEntry(x, st, order[..|order| - 1], l); }
  }

  lemma {:induction false} TranscriptsKeepEntry(x: Inputs, st: State, order: seq<string>, l: string)
    requires InRange(x, st) && l in st.byID
    ensures l in RunTranscripts(x, st, order).byID && RunTranscripts(x, st, order).byID[l] == st.byID[l]
    decreases |order|
  {
    if order != [] { TranscriptsKeepEntry(x, st, order[..|order| - 1], l); }
  }

  /** Row i is taken and l has not got it. */
  ghost predicate LostTo(st: State, l: string, i: nat) {
    i in st.matched && (l in st.byID ==> st.byID[l] != i)
  }

  lemma {:induction false} TelemetryKeepsLost(x: Inputs, st: State, order: seq<string>, l: string, i: nat)
    requires InRange(x, st) && LostTo(st, l, i) && l !in order
    ensures LostTo(RunTelemetry(x, st, order), l, i)
    decreases |order|
  {
    if order != [] {
      var init := order[..|order| - 1];
      assert order == init + [order[|order| - 1]];
      TelemetryKeepsLost(x, st, init, l, i);
    }
  }

  lemma {:induction false} TranscriptsKeepLost(x: Inputs, st: State, order: seq<string>, l: string, i: nat)
    requires InRange(x, st) && LostTo(st, l, i)
    ensures LostTo(RunTranscripts(x, st, order), l, i)
    decreases |order|
  {
    if order != [] { TranscriptsKeepLost(x, st, order[..|order| - 1], l, i); }
  }

  lemma FirstVisit(x: Inputs, rows: Rows, k: string, i: nat)
    requires Sound(x, rows) && InRange(x, Start(x, rows)) && TelClaims(x, rows, k, i)
    ensures var st := RunTelemetry(x, Start(x, rows), [k]);
            && st == TelemetryStep(x, Start(x, rows), k)
            && i in st.matched && st.byID == x.index.byID[k := i] && RowsKept(st, rows)
  {
    assert [k][..0] == [];
    assert RunTelemetry(x, Start(x, rows), [k][..0]) == Start(x, rows);
    TakeTelemetryRow(rows[i], x.TelAt(k).value, Evidence(x, rows, k).grade);
  }

  /** A weak claimant that comes second does not get the row. */
  lemma SecondLoses(x: Inputs, rows: Rows, k: string, l: string, i: nat)
    requires Sound(x, rows) && InRange(x, Start(x, rows)) && k != l
    requires TelClaims(x, rows, k, i) && TelClaims(x, rows, l, i) && Weak(Evidence(x, rows, l).grade)
    ensures LostTo(RunTelemetry(x, Start(x, rows), [k, l]), l, i)
  {
    FirstVisit(x, rows, k, i);
    var st := RunTelemetry(x, Start(x, rows), [k]);
    assert [k, l][..1] == [k];
    IdentityUnchanged(x, rows, st, x.TelAt(l).value);
  }

  /** Whether a weak claimant comes before or after another claimant of its row decides where it ends up. */
  lemma WeakContentionShows(x: Inputs, rows: Rows, k: string, l: string, i: nat, rest: seq<string>, c: seq<string>)
    requires Sound(x, rows) && InRange(x, Start(x, rows)) && k != l && l !in rest
    requires TelClaims(x, rows, k, i) && TelClaims(x, rows, l, i) && Weak(Evidence(x, rows, l).grade)
    ensures var first, second := RunBoth(x, rows, [l, k] + rest, c), RunBoth(x, rows, [k, l] + rest, c);
            && l in first.byID && first.byID[l] == i
            && (l in second.byID ==> second.byID[l] != i)
  {
    var st := Start(x, rows);
    FirstVisit(x, rows, l, i);
    RunTelemetryConcat(x, st, [l], [k] + rest);
    assert [l] + ([k] + rest) == [l, k] + rest;
    TelemetryKeepsEntry(x, RunTelemetry(x, st, [l]), [k] + rest, l);
    TranscriptsKeepEntry(x, RunTelemetry(x, st, [l, k] + rest), c, l);
    SecondLoses(x, rows, k, l, i);
    RunTelemetryConcat(x, st, [k, l], rest);
    TelemetryKeepsLost(x, RunTelemetry(x, st, [k, l]), rest, l, i);
    TranscriptsKeepLost(x, RunTelemetry(x, st, [k, l] + rest), c, l, i);
  }

  lemma NotFree(x: Inputs, rows: Rows, a: seq<string>, b: seq<string>, c: seq<string>)
    requires InRange(x, Start(x, rows))
    requires OrderOf(a, x.tel.Keys) && OrderOf(b, x.tel.Keys) && OrderOf(c, x.srcs.Keys)
    requires RunBoth(x, rows, a, c) != RunBoth(x, rows, b, c)
    ensures !OrderFree(x, rows)
  {
  }

  lemma PairFirst(keys: set<string>, k: string, l: string) returns (rest: seq<string>)
    requires k in keys && l in keys && k != l
    ensures OrderOf([k, l] + rest, keys) && OrderOf([l, k] + rest, keys) && l !in rest
  {
    rest := SomeOrder(keys - {k, l});
    NoDupConcat([l, k], rest);
    NoDupConcat([k, l], rest);
  }

  lemma LastOf(keys: set<string>, k: string) returns (a: seq<string>)
    requires k in keys
    ensures OrderOf(a + [k], keys)
  {
    a := SomeOrder(keys - {k});
    NoDupConcat(a, [k]);
  }

  lemma WeakNotFree(x: Inputs, rows: Rows, k: string, l: string, i: nat)
    requires Sound(x, rows) && InRange(x, Start(x, rows)) && k != l
    requires TelClaims(x, rows, k, i) && TelClaims(x, rows, l, i) && Weak(Evidence(x, rows, l).grade)
    ensures !OrderFree(x, rows)
  {
    var rest := PairFirst(x.tel.Keys, k, l);
    var c := SomeOrder(x.srcs.Keys);
    WeakContentionShows(x, rows, k, l, i, rest, c);
    NotFree(x, rows, [l, k] + rest, [k, l] + rest, c);
  }

  lemma LaunchNotFree(x: Inputs, rows: Rows, k: string, l: string, i: nat)
    requires WellFormed(x, rows) && InRange(x, Start(x, rows)) && k != l
    requires TelClaims(x, rows, k, i) && TelClaims(x, rows, l, i)
    requires Evidence(x, rows, k).grade == Evidence(x, rows, l).grade == ByLaunch
    ensures !OrderFree(x, rows)
  {
    var a := LastOf(x.tel.Keys, k);
    var b := LastOf(x.tel.Keys, l);
    var c := SomeOrder(x.srcs.Keys);
    LaunchContentionShows(x, rows, a, b, c, k, l, i);
    NotFree(x, rows, a + [k], b + [l], c);
  }

  /** Competing telemetry sessions always show in some two orders. */
  lemma SeparationNeeded(x: Inputs, rows: Rows)
    requires WellFormed(x, rows) && InRange(x, Start(x, rows)) && OrderFree(x, rows)
    ensures Separated(x, rows)
  {
    WellFormedIsSound(x, rows);
    forall k, l, i | TelClaims(x, rows, k, i) && TelClaims(x, rows, l, i) && k != l
      ensures MayShare(Evidence(x, rows, k).grade, Evidence(x, rows, l).grade)
    {
      if Weak(Evidence(x, rows, l).grade) { WeakNotFree(x, rows, k, l, i); }
      if Weak(Evidence(x, rows, k).grade) { WeakNotFree(x, rows, l, k, i); }
      if Evidence(x, rows, k).grade == Evidence(x, rows, l).grade == ByLaunch { LaunchNotFree(x, rows, k, l, i); }
    }
  }

  /**
   * The visiting orders of the two maps cannot be told apart in the state both loops end
   * in exactly when sessions are separated and those that share a row agree.
   */
  lemma OrderFreeExactly(x: Inputs, rows: Rows)
    requires WellFormed(x, rows)
    ensures InRange(x, Start(x, rows)) && (OrderFree(x, rows) <==> Uncontended(x, rows))
  {
    StartInRange(x, rows);
    if Uncontended(x, rows) {
      forall a, b, c, d |
        OrderOf(a, x.tel.Keys) && OrderOf(b, x.tel.Keys) && OrderOf(c, x.srcs.Keys) && OrderOf(d, x.srcs.Keys)
        ensures RunBoth(x, rows, a, c) == RunBoth(x, rows, b, d)
      {
        UncontendedIsFree(x, rows, a, b, c, d);
      }
    }
    if OrderFree(x, rows) {
      SeparationNeeded(x, rows);
      forall i: nat, k, l | i < |rows| && Share(x, rows, i, k, l) ensures PairAgrees(x, rows[i], k, l) {
        FreeRows(x, rows, i);
        RowFreeExactly(x, rows, i);
      }
    }
  }

  // ------------------------------------------------------- a concrete input ---

  /** A Codex wrapper's row, and telemetry of a session that carries the wrapper's launch ID. */
  const WRAPPER_ROW := SessionSnapshot(
    Session("wrapper", "launch", AGENT_CODEX, "project", "", 7, 0, 1, None, Active, Hook, 1, "", ""),
    [], 0, 0.0, 0, 0, [], [], NO_USAGE, 0, NO_METRICS, Owned, Confirmed)

  function Launched(id: string): TelemetrySession {
    TelemetrySession(id, AGENT_CODEX, "", "", "", "launch", 0, 0, NO_USAGE, NO_METRICS, 5, 5, "", [])
  }

  function Key(id: string): string { SessionKey(AGENT_CODEX, id) }

  function TwoLaunched(): Inputs {
    Inputs(map[Key("a") := Launched("a"), Key("b") := Launched("b")], map[], 6, 10, IndexRows([WRAPPER_ROW]), map[])
  }

  lemma KeysDiffer(a: string, b: string)
    requires a != b
    ensures Key(a) != Key(b)
  {
    assert ':' !in AGENT_CODEX;
    if Key(a) == Key(b) { SessionKeyInjective(AGENT_CODEX, a, AGENT_CODEX, b); }
  }

  lemma NothingGuessed(hints: map<string, Hint>, rows: Rows)
    requires forall i :: 0 <= i < |rows| ==> rows[i].session.cwd == ""
    ensures AreProbable(hints, rows, map[])
  {
  }

  lemma TwoLaunchedWellFormed()
    ensures WellFormed(TwoLaunched(), [WRAPPER_ROW])
    ensures Key("a") != Key("b") && Key("a") != Key("wrapper") && Key("b") != Key("wrapper")
  {
    var x, rows := TwoLaunched(), [WRAPPER_ROW];
    assert "a"[0] != "b"[0] && |"wrapper"| == 7;
    KeysDiffer("a", "b");
    KeysDiffer("a", "wrapper");
    KeysDiffer("b", "wrapper");
    IndexRowsIsIndex(rows);
    NothingGuessed(HintsOf(x.tel, x.srcs, x.now, x.window), rows);
    assert ':' !in AGENT_CODEX;
  }

  /** Two telemetry sessions of one launch: whichever comes last names the row. */
  lemma LaunchContentionOccurs()
    ensures WellFormed(TwoLaunched(), [WRAPPER_ROW]) && InRange(TwoLaunched(), Start(TwoLaunched(), [WRAPPER_ROW]))
    ensures RunBoth(TwoLaunched(), [WRAPPER_ROW], [Key("a"), Key("b")], []).rows[0].session.id == "b"
    ensures RunBoth(TwoLaunched(), [WRAPPER_ROW], [Key("b"), Key("a")], []).rows[0].session.id == "a"
    ensures !OrderFree(TwoLaunched(), [WRAPPER_ROW])
  {
    var x, rows := TwoLaunched(), [WRAPPER_ROW];
    TwoLaunchedWellFormed();
    TwoLaunchedSessions();
    LastNames("a", "b");
    LastNames("b", "a");
    NamesDiffer(x, rows, [Key("a"), Key("b")], [Key("b"), Key("a")]);
  }

  lemma TwoLaunchedSessions()
    requires Key("a") != Key("b")
    ensures var x := TwoLaunched();
            && OrderOf([Key("a"), Key("b")], x.tel.Keys) && OrderOf([Key("b"), Key("a")], x.tel.Keys) && x.srcs == map[]
            && Get(x.tel, Key("a")) == Some(Launched("a")) && Get(x.tel, Key("b")) == Some(Launched("b"))
  {
    TwoOrders(TwoLaunched().tel.Keys, Key("a"), Key("b"));
  }

  lemma NamesDiffer(x: Inputs, rows: Rows, a: seq<string>, b: seq<string>)
    requires InRange(x, Start(x, rows)) && rows != [] && x.srcs == map[]
    requires OrderOf(a, x.tel.Keys) && OrderOf(b, x.tel.Keys)
    requires RunBoth(x, rows, a, []).rows[0].session.id != RunBoth(x, rows, b, []).rows[0].session.id
    ensures !OrderFree(x, rows)
  {
    NotFree(x, rows, a, b, []);
  }

  lemma LastNames(a: string, b: string)
    requires Key(a) != Key(b) && Key(b) != Key("wrapper") && Get(TwoLaunched().tel, Key(b)) == Some(Launched(b))
    requires WellFormed(TwoLaunched(), [WRAPPER_ROW]) && b != ""
    ensures InRange(TwoLaunched(), Start(TwoLaunched(), [WRAPPER_ROW]))
    ensures RunBoth(TwoLaunched(), [WRAPPER_ROW], [Key(a), Key(b)], []).rows[0].session.id == b
  {
    StartInRange(TwoLaunched(), [WRAPPER_ROW]);
    LaunchContention(TwoLaunched(), [WRAPPER_ROW], [Key(a)], [], Key(b), Launched(b));
    assert [Key(a)] + [Key(b)] == [Key(a), Key(b)];
  }
}
