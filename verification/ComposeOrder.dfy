// Which choices of map order can be seen in what composeSessionsLocked returns. Where every
// session ends up does not depend on them as long as no two telemetry sessions compete for a
// row with weak evidence or with one launch ID; what a row then shows is a fold over the few
// sessions that share it.
module ComposeOrder {
  import opened Base
  import opened ComposeSafety
  import opened Composition
  import opened Matching
  import opened Model
  import opened TelemetryIngest
  import opened VisitOrders

  // -------------------------------------------------- evidence and homes -----

  predicate LaunchLinks(x: Inputs, s: TelemetrySession) {
    s.launchID != "" && LaunchOfSession(s) in x.index.byLaunch
  }

  predicate IdentityLinks(x: Inputs, rows: Rows, s: TelemetrySession) {
    ValidIdentity(s, rows, x.index.owner, x.index.started)
  }

  /** The strongest evidence a session has, whatever other sessions do. */
  function Evidence(x: Inputs, rows: Rows, k: string): Match {
    var t := x.TelAt(k);
    if k in x.index.byID then Matched(x.index.byID[k], ByID)
    else if t.Some? && LaunchLinks(x, t.value) then Matched(x.index.byLaunch[LaunchOfSession(t.value)], ByLaunch)
    else if t.Some? && IdentityLinks(x, rows, t.value) then Matched(x.index.owner[t.value.processPID], ByProcess)
    else if k in x.probable then Matched(x.probable[k], ByGuess)
    else Unmatched
  }

  /** The grades that give way to a row already taken. */
  predicate Weak(g: Grade) { g == ByProcess || g == ByGuess }

  /** Row i is what the strongest evidence of the recent telemetry session k points at. */
  ghost predicate TelClaims(x: Inputs, rows: Rows, k: string, i: nat) {
    x.TelAt(k).Some? && Evidence(x, rows, k).Matched? && Evidence(x, rows, k).row == i
  }

  ghost predicate TelClaimed(x: Inputs, rows: Rows, i: nat) {
    exists k :: TelClaims(x, rows, k, i)
  }

  /** Two claimants of a row may meet only as the row's own session and one with its launch ID. */
  ghost predicate MayShare(g: Grade, h: Grade) {
    !Weak(g) && !Weak(h) && (g == ByID || h == ByID)
  }

  ghost predicate Separated(x: Inputs, rows: Rows) {
    forall k, l, i :: TelClaims(x, rows, k, i) && TelClaims(x, rows, l, i) && k != l ==>
      MayShare(Evidence(x, rows, k).grade, Evidence(x, rows, l).grade)
  }

  /** Where a session ends up: telemetry goes first, so a transcript's guess gives way to any claim of telemetry. */
  ghost function Home(x: Inputs, rows: Rows, k: string): Match {
    var e := Evidence(x, rows, k);
    if e.Matched? && e.grade == ByGuess && x.TelAt(k).None? && TelClaimed(x, rows, e.row) then Unmatched else e
  }

  /** The recent session k ends up on row i. */
  ghost predicate Lands(x: Inputs, rows: Rows, k: string, i: nat) {
    x.IsRecent(k) && Home(x, rows, k).Matched? && Home(x, rows, k).row == i
  }

  ghost predicate Injective(m: map<string, nat>) {
    forall k, l :: k in m && l in m && m[k] == m[l] ==> k == l
  }

  // ------------------------------------------------ order-free specification --

  /** k has been given its row by now. */
  ghost predicate Entered(x: Inputs, tels: set<string>, srcs: set<string>, k: string) {
    if x.TelAt(k).Some? then k in tels else x.SrcAt(k).Some? && k in srcs && k !in x.index.byID
  }

  ghost predicate Taken(x: Inputs, rows: Rows, tels: set<string>, srcs: set<string>, i: nat) {
    exists k :: Lands(x, rows, k, i) && Entered(x, tels, srcs, k)
  }

  ghost predicate TableSettled(
      x: Inputs, rows: Rows, byID: map<string, nat>, tels: set<string>, srcs: set<string>) {
    && (forall k :: k in byID <==>
          k in x.index.byID || (Home(x, rows, k).Matched? && Entered(x, tels, srcs, k)))
    && (forall k :: k in byID ==> Home(x, rows, k).Matched? && Home(x, rows, k).row == byID[k])
  }

  ghost predicate LogicalSettled(
      x: Inputs, rows: Rows, logical: map<string, SessionSnapshot>, tels: set<string>, srcs: set<string>) {
    && (forall k :: k in logical <==> Home(x, rows, k).Unmatched? && Visited(x, tels, srcs, k))
    && (forall k :: k in logical ==> logical[k] == LogicalValue(x, k, k in srcs))
  }

  /** The tables and the logical rows once the sessions in tels and srcs have been visited, in whatever order. */
  ghost predicate Settled(x: Inputs, rows: Rows, st: State, tels: set<string>, srcs: set<string>) {
    && (forall i: nat :: i in st.matched <==> Taken(x, rows, tels, srcs, i))
    && TableSettled(x, rows, st.byID, tels, srcs)
    && LogicalSettled(x, rows, st.logical, tels, srcs)
  }

  /** They have no freedom; only the rows can tell two orders apart. */
  lemma SettledUnique(x: Inputs, rows: Rows, a: State, b: State, tels: set<string>, srcs: set<string>)
    requires Settled(x, rows, a, tels, srcs) && Settled(x, rows, b, tels, srcs)
    ensures a.matched == b.matched && a.byID == b.byID && a.logical == b.logical
  {
  }

  // ------------------------------------------------------------------ steps --

  lemma StartSettled(x: Inputs, rows: Rows)
    ensures Settled(x, rows, Start(x, rows), {}, {})
  {
  }

  lemma IdentityUnchanged(x: Inputs, rows: Rows, st: State, s: TelemetrySession)
    requires RowsKept(st, rows)
    ensures ValidIdentity(s, st.rows, x.index.owner, x.index.started) == IdentityLinks(x, rows, s)
  {
  }

  /** A row that a session claims with weak evidence is still free when it is visited. */
  lemma WeakRowIsFree(x: Inputs, rows: Rows, tels: set<string>, k: string)
    requires Separated(x, rows) && x.TelAt(k).Some? && k !in tels
    requires Evidence(x, rows, k).Matched? && Weak(Evidence(x, rows, k).grade)
    ensures !Taken(x, rows, tels, {}, Evidence(x, rows, k).row)
  {
    var i := Evidence(x, rows, k).row;
    if l :| Lands(x, rows, l, i) && Entered(x, tels, {}, l) {
      assert TelClaims(x, rows, k, i) && TelClaims(x, rows, l, i);
    }
  }

  lemma FindRowIsEvidence(x: Inputs, rows: Rows, st: State, tels: set<string>, k: string, s: TelemetrySession)
    requires Separated(x, rows) && Settled(x, rows, st, tels, {}) && RowsKept(st, rows) && InRange(x, st)
    requires x.TelAt(k) == Some(s) && k !in tels
    ensures FindRow(x, st, s, k) == Evidence(x, rows, k)
  {
    IdentityUnchanged(x, rows, st, s);
    if Evidence(x, rows, k).Matched? && Weak(Evidence(x, rows, k).grade) {
      WeakRowIsFree(x, rows, tels, k);
    }
  }

  /** Only key k is new in the visited sets. */
  ghost predicate OnlyNew(tels: set<string>, srcs: set<string>, tels': set<string>, srcs': set<string>, k: string) {
    && tels <= tels' && srcs <= srcs'
    && forall l :: l != k ==> (l in tels' <==> l in tels) && (l in srcs' <==> l in srcs)
  }

  /** A key that has nothing new to show settles nothing. */
  lemma NothingNew(
      x: Inputs, rows: Rows, st: State, tels: set<string>, srcs: set<string>, tels': set<string>, srcs': set<string>,
      k: string)
    requires Settled(x, rows, st, tels, srcs) && OnlyNew(tels, srcs, tels', srcs', k)
    requires Entered(x, tels', srcs', k) <==> Entered(x, tels, srcs, k)
    requires k in st.logical || (Home(x, rows, k).Unmatched? && Visited(x, tels', srcs', k)) ==>
               Visited(x, tels, srcs, k) && LogicalValue(x, k, k in srcs') == LogicalValue(x, k, k in srcs)
    ensures Settled(x, rows, st, tels', srcs')
  {
    assert forall l :: Entered(x, tels', srcs', l) <==> Entered(x, tels, srcs, l);
    assert forall i: nat :: Taken(x, rows, tels', srcs', i) <==> Taken(x, rows, tels, srcs, i);
    assert forall l :: l != k ==> (Visited(x, tels', srcs', l) <==> Visited(x, tels, srcs, l));
    assert Visited(x, tels, srcs, k) ==> Visited(x, tels', srcs', k);
  }

  /** A session is given its row. */
  lemma Placed(
      x: Inputs, rows: Rows, st: State, tels: set<string>, srcs: set<string>, tels': set<string>, srcs': set<string>,
      k: string, st': State)
    requires Settled(x, rows, st, tels, srcs) && OnlyNew(tels, srcs, tels', srcs', k)
    requires x.IsRecent(k) && Home(x, rows, k).Matched? && Entered(x, tels', srcs', k)
    requires st'.matched == st.matched + {Home(x, rows, k).row} && st'.logical == st.logical
    requires st'.byID == st.byID[k := Home(x, rows, k).row]
    ensures Settled(x, rows, st', tels', srcs')
  {
    var i := Home(x, rows, k).row;
    assert forall l :: l != k ==> (Entered(x, tels', srcs', l) <==> Entered(x, tels, srcs, l));
    assert forall l :: l != k ==> (Visited(x, tels', srcs', l) <==> Visited(x, tels, srcs, l));
    PlacedTaken(x, rows, tels, srcs, tels', srcs', k);
  }

  lemma PlacedTaken(
      x: Inputs, rows: Rows, tels: set<string>, srcs: set<string>, tels': set<string>, srcs': set<string>, k: string)
    requires forall l :: l != k ==> (Entered(x, tels', srcs', l) <==> Entered(x, tels, srcs, l))
    requires x.IsRecent(k) && Home(x, rows, k).Matched? && Entered(x, tels', srcs', k)
    ensures forall j: nat :: Taken(x, rows, tels', srcs', j) <==>
                             j == Home(x, rows, k).row || Taken(x, rows, tels, srcs, j)
  {
    assert Lands(x, rows, k, Home(x, rows, k).row);
  }

  /** A session gets a logical row, or its logical row gets the transcript. */
  lemma Listed(
      x: Inputs, rows: Rows, st: State, tels: set<string>, srcs: set<string>, tels': set<string>, srcs': set<string>,
      k: string)
    requires Settled(x, rows, st, tels, srcs) && OnlyNew(tels, srcs, tels', srcs', k)
    requires Home(x, rows, k).Unmatched? && Visited(x, tels', srcs', k)
    ensures Settled(x, rows, st.(logical := st.logical[k := LogicalValue(x, k, k in srcs')]), tels', srcs')
  {
    ListedTaken(x, rows, tels, srcs, tels', srcs', k);
    ListedTable(x, rows, st.byID, tels, srcs, tels', srcs', k);
    ListedLogical(x, rows, st.logical, tels, srcs, tels', srcs', k);
  }

  lemma ListedTable(
      x: Inputs, rows: Rows, byID: map<string, nat>, tels: set<string>, srcs: set<string>, tels': set<string>,
      srcs': set<string>, k: string)
    requires TableSettled(x, rows, byID, tels, srcs) && OnlyNew(tels, srcs, tels', srcs', k)
    requires Home(x, rows, k).Unmatched?
    ensures TableSettled(x, rows, byID, tels', srcs')
  {
    assert forall l :: l != k ==> (Entered(x, tels', srcs', l) <==> Entered(x, tels, srcs, l));
  }

  lemma ListedLogical(
      x: Inputs, rows: Rows, logical: map<string, SessionSnapshot>, tels: set<string>, srcs: set<string>,
      tels': set<string>, srcs': set<string>, k: string)
    requires LogicalSettled(x, rows, logical, tels, srcs) && OnlyNew(tels, srcs, tels', srcs', k)
    requires Home(x, rows, k).Unmatched? && Visited(x, tels', srcs', k)
    ensures LogicalSettled(x, rows, logical[k := LogicalValue(x, k, k in srcs')], tels', srcs')
  {
    assert forall l :: l != k ==> (Visited(x, tels', srcs', l) <==> Visited(x, tels, srcs, l));
  }

  lemma ListedTaken(
      x: Inputs, rows: Rows, tels: set<string>, srcs: set<string>, tels': set<string>, srcs': set<string>, k: string)
    requires OnlyNew(tels, srcs, tels', srcs', k) && Home(x, rows, k).Unmatched?
    ensures forall i: nat :: Taken(x, rows, tels', srcs', i) <==> Taken(x, rows, tels, srcs, i)
  {
    assert forall l :: l != k ==> (Entered(x, tels', srcs', l) <==> Entered(x, tels, srcs, l));
  }

  lemma TelemetryStepSettled(x: Inputs, rows: Rows, st: State, tels: set<string>, k: string)
    requires Separated(x, rows) && Settled(x, rows, st, tels, {}) && RowsKept(st, rows) && InRange(x, st)
    requires k !in tels
    ensures Settled(x, rows, TelemetryStep(x, st, k), tels + {k}, {})
    ensures x.TelAt(k).Some? ==> FindRow(x, st, x.TelAt(k).value, k) == Evidence(x, rows, k)
  {
    if x.TelAt(k).None? {
      NothingNew(x, rows, st, tels, {}, tels + {k}, {}, k);
    } else {
      FindRowIsEvidence(x, rows, st, tels, k, x.TelAt(k).value);
      if Evidence(x, rows, k).Matched? {
        Placed(x, rows, st, tels, {}, tels + {k}, {}, k, TelemetryStep(x, st, k));
      } else {
        Listed(x, rows, st, tels, {}, tels + {k}, {}, k);
      }
    }
  }

  /** When transcripts are visited, a guessed row is taken exactly if telemetry claimed it. */
  lemma GuessedRowTaken(x: Inputs, rows: Rows, srcs: set<string>, k: string)
    requires Injective(x.probable) && x.TelAt(k).None? && k !in x.index.byID && k in x.probable && k !in srcs
    ensures Taken(x, rows, x.tel.Keys, srcs, x.probable[k]) <==> TelClaimed(x, rows, x.probable[k])
  {
    var i := x.probable[k];
    if l :| Lands(x, rows, l, i) && Entered(x, x.tel.Keys, srcs, l) {
      if x.TelAt(l).Some? { assert TelClaims(x, rows, l, i); }
    }
    if l :| TelClaims(x, rows, l, i) {
      assert Lands(x, rows, l, i) && Entered(x, x.tel.Keys, srcs, l);
    }
  }

  lemma TranscriptStepSettled(x: Inputs, rows: Rows, st: State, srcs: set<string>, k: string)
    requires Injective(x.probable) && Settled(x, rows, st, x.tel.Keys, srcs) && InRange(x, st)
    requires WellKept(x.tel) && KeyedByID(x.srcs) && k !in srcs
    ensures Settled(x, rows, TranscriptStep(x, st, k), x.tel.Keys, srcs + {k})
    ensures x.SrcAt(k).Some? ==>
              (k in st.byID <==> (x.TelAt(k).Some? && Home(x, rows, k).Matched?) || k in x.index.byID)
    ensures x.SrcAt(k).Some? && k !in st.byID ==>
              (Home(x, rows, k).Matched? <==> k in x.probable && x.probable[k] !in st.matched)
  {
    var tels := x.tel.Keys;
    if x.SrcAt(k).None? || k in st.byID {
      NothingNew(x, rows, st, tels, srcs, tels, srcs + {k}, k);
    } else {
      if x.TelAt(k).None? && k in x.probable { GuessedRowTaken(x, rows, srcs, k); }
      if Home(x, rows, k).Matched? {
        assert st.logical - {k} == st.logical;
        Placed(x, rows, st, tels, srcs, tels, srcs + {k}, k, TranscriptStep(x, st, k));
      } else {
        Listed(x, rows, st, tels, srcs, tels, srcs + {k}, k);
        if x.TelAt(k).Some? { LogicalRow(x, k, false); }
        assert LogicalTranscript(st.logical, k, x.SrcAt(k).value) == LogicalValue(x, k, true);
      }
    }
  }

  // ------------------------------------------------------------------- rows --

  /** What visiting k's telemetry does to the row it claims. */
  function TelEffect(x: Inputs, rows: Rows, k: string, row: SessionSnapshot): SessionSnapshot {
    var t, e := x.TelAt(k), Evidence(x, rows, k);
    if t.Some? && e.Matched? then TakeTelemetry(row, t.value, e.grade) else row
  }

  /** What visiting k's transcript does to the row k ends up on. */
  function SrcEffect(x: Inputs, k: string, row: SessionSnapshot): SessionSnapshot {
    var s := x.SrcAt(k);
    if s.None? then row
    else if x.TelAt(k).Some? || k in x.index.byID then MergeTranscript(row, s.value)
    else TakeTranscript(row, Get(x.tel, k), s.value)
  }

  function TelFold(x: Inputs, rows: Rows, row: SessionSnapshot, keys: seq<string>): SessionSnapshot {
    if keys == [] then row
    else TelEffect(x, rows, keys[|keys| - 1], TelFold(x, rows, row, keys[..|keys| - 1]))
  }

  function SrcFold(x: Inputs, row: SessionSnapshot, keys: seq<string>): SessionSnapshot {
    if keys == [] then row else SrcEffect(x, keys[|keys| - 1], SrcFold(x, row, keys[..|keys| - 1]))
  }

  /** The telemetry sessions and the transcripts that end up on row i. */
  ghost function TelOn(x: Inputs, rows: Rows, i: nat): set<string> {
    set k | k in x.tel && TelClaims(x, rows, k, i)
  }

  ghost function SrcOn(x: Inputs, rows: Rows, i: nat): set<string> {
    set k | k in x.srcs && x.SrcAt(k).Some? && Lands(x, rows, k, i)
  }

  /** Row i after both loops, from the orders its own few sessions were visited in. */
  ghost function RowAfter(x: Inputs, rows: Rows, i: nat, telOn: seq<string>, srcOn: seq<string>): SessionSnapshot
    requires i < |rows|
  {
    SrcFold(x, TelFold(x, rows, rows[i], telOn), srcOn)
  }

  lemma FoldSnoc(x: Inputs, rows: Rows, row: SessionSnapshot, keys: seq<string>, k: string)
    ensures TelFold(x, rows, row, keys + [k]) == TelEffect(x, rows, k, TelFold(x, rows, row, keys))
    ensures SrcFold(x, row, keys + [k]) == SrcEffect(x, k, SrcFold(x, row, keys))
  {
    assert (keys + [k])[..|keys|] == keys;
  }

  lemma {:induction false} RunTelemetrySettled(x: Inputs, rows: Rows, st: State, order: seq<string>)
    requires Sound(x, rows) && Safe(x, rows, st, {}, {}) && Separated(x, rows) && Settled(x, rows, st, {}, {})
    requires NoDup(order) && forall k :: k in order ==> k in x.tel
    ensures Settled(x, rows, RunTelemetry(x, st, order), KeySet(order), {})
    decreases |order|
  {
    if order == [] {
      assert KeySet(order) == {};
    } else {
      var init, last := order[..|order| - 1], order[|order| - 1];
      SplitLast(order);
      RunTelemetrySettled(x, rows, st, init);
      RunTelemetrySafe(x, rows, st, init);
      TelemetryStepSettled(x, rows, RunTelemetry(x, st, init), KeySet(init), last);
    }
  }

  lemma TelemetryFinds(x: Inputs, rows: Rows, st: State, init: seq<string>, last: string)
    requires Sound(x, rows) && Safe(x, rows, st, {}, {}) && Separated(x, rows) && Settled(x, rows, st, {}, {})
    requires NoDup(init) && last !in KeySet(init) && forall k :: k in init ==> k in x.tel
    ensures InRange(x, st)
    ensures x.TelAt(last).Some? ==>
              FindRow(x, RunTelemetry(x, st, init), x.TelAt(last).value, last) == Evidence(x, rows, last)
  {
    RunTelemetrySettled(x, rows, st, init);
    RunTelemetrySafe(x, rows, st, init);
    TelemetryStepSettled(x, rows, RunTelemetry(x, st, init), KeySet(init), last);
  }

  lemma {:induction false} RunTelemetryRows(x: Inputs, rows: Rows, st: State, order: seq<string>, i: nat)
    requires Sound(x, rows) && Safe(x, rows, st, {}, {}) && Separated(x, rows) && Settled(x, rows, st, {}, {})
    requires NoDup(order) && (forall k :: k in order ==> k in x.tel) && i < |rows|
    ensures RunTelemetry(x, st, order).rows[i] == TelFold(x, rows, st.rows[i], Among(order, TelOn(x, rows, i)))
    decreases |order|
  {
    if order != [] {
      var init, last := order[..|order| - 1], order[|order| - 1];
      SplitLast(order);
      RunTelemetryRows(x, rows, st, init, i);
      TelemetryFinds(x, rows, st, init, last);
      TelemetryStepRow(x, rows, RunTelemetry(x, st, init), last, i);
      AmongLast(order, TelOn(x, rows, i));
      FoldSnoc(x, rows, st.rows[i], Among(init, TelOn(x, rows, i)), last);
    }
  }

  lemma TelemetryStepRow(x: Inputs, rows: Rows, st: State, k: string, i: nat)
    requires InRange(x, st) && i < |st.rows| && k in x.tel
    requires x.TelAt(k).Some? ==> FindRow(x, st, x.TelAt(k).value, k) == Evidence(x, rows, k)
    ensures TelemetryStep(x, st, k).rows[i] ==
            if k in TelOn(x, rows, i) then TelEffect(x, rows, k, st.rows[i]) else st.rows[i]
  {
  }

  lemma {:induction false} RunTranscriptsSettled(x: Inputs, rows: Rows, st: State, order: seq<string>)
    requires Sound(x, rows) && InRange(x, st) && Injective(x.probable) && Settled(x, rows, st, x.tel.Keys, {})
    requires NoDup(order) && forall k :: k in order ==> k in x.srcs
    ensures Settled(x, rows, RunTranscripts(x, st, order), x.tel.Keys, KeySet(order))
    decreases |order|
  {
    if order == [] {
      assert KeySet(order) == {};
    } else {
      var init, last := order[..|order| - 1], order[|order| - 1];
      SplitLast(order);
      RunTranscriptsSettled(x, rows, st, init);
      TranscriptStepSettled(x, rows, RunTranscripts(x, st, init), KeySet(init), last);
    }
  }

  lemma TranscriptLands(x: Inputs, rows: Rows, st: State, init: seq<string>, last: string, i: nat)
    requires Sound(x, rows) && InRange(x, st) && Injective(x.probable) && Settled(x, rows, st, x.tel.Keys, {})
    requires NoDup(init) && last !in KeySet(init) && (forall k :: k in init ==> k in x.srcs)
    requires last in x.srcs && i < |st.rows|
    ensures TranscriptStep(x, RunTranscripts(x, st, init), last).rows[i] ==
            if last in SrcOn(x, rows, i) then SrcEffect(x, last, RunTranscripts(x, st, init).rows[i])
            else RunTranscripts(x, st, init).rows[i]
  {
    RunTranscriptsSettled(x, rows, st, init);
    TranscriptStepSettled(x, rows, RunTranscripts(x, st, init), KeySet(init), last);
    TranscriptStepRow(x, rows, RunTranscripts(x, st, init), KeySet(init), last, i);
  }

  lemma {:induction false} RunTranscriptsRows(x: Inputs, rows: Rows, st: State, order: seq<string>, i: nat)
    requires Sound(x, rows) && InRange(x, st) && Injective(x.probable) && Settled(x, rows, st, x.tel.Keys, {})
    requires NoDup(order) && (forall k :: k in order ==> k in x.srcs) && i < |st.rows|
    ensures RunTranscripts(x, st, order).rows[i] == SrcFold(x, st.rows[i], Among(order, SrcOn(x, rows, i)))
    decreases |order|
  {
    if order != [] {
      var init, last := order[..|order| - 1], order[|order| - 1];
      SplitLast(order);
      RunTranscriptsRows(x, rows, st, init, i);
      TranscriptLands(x, rows, st, init, last, i);
      AmongLast(order, SrcOn(x, rows, i));
      FoldSnoc(x, rows, st.rows[i], Among(init, SrcOn(x, rows, i)), last);
    }
  }

  lemma TranscriptStepRow(x: Inputs, rows: Rows, st: State, srcs: set<string>, k: string, i: nat)
    requires InRange(x, st) && i < |st.rows| && k in x.srcs && Settled(x, rows, st, x.tel.Keys, srcs)
    requires x.SrcAt(k).Some? ==>
               (k in st.byID <==> (x.TelAt(k).Some? && Home(x, rows, k).Matched?) || k in x.index.byID)
    requires x.SrcAt(k).Some? && k !in st.byID ==>
               (Home(x, rows, k).Matched? <==> k in x.probable && x.probable[k] !in st.matched)
    ensures TranscriptStep(x, st, k).rows[i] ==
            if k in SrcOn(x, rows, i) then SrcEffect(x, k, st.rows[i]) else st.rows[i]
  {
  }

  /**
   * When telemetry sessions do not compete, both loops end with the tables and logical
   * rows the order-free specification names, and each row is the fold of its own sessions.
   */
  lemma RunBothSettled(x: Inputs, rows: Rows, telOrder: seq<string>, srcOrder: seq<string>)
    requires WellFormed(x, rows) && Separated(x, rows)
    requires OrderOf(telOrder, x.tel.Keys) && OrderOf(srcOrder, x.srcs.Keys)
    ensures InRange(x, Start(x, rows))
    ensures Settled(x, rows, RunBoth(x, rows, telOrder, srcOrder), x.tel.Keys, x.srcs.Keys)
    ensures |RunBoth(x, rows, telOrder, srcOrder).rows| == |rows|
    ensures forall i: nat :: i < |rows| ==>
              RunBoth(x, rows, telOrder, srcOrder).rows[i] ==
              RowAfter(x, rows, i, Among(telOrder, TelOn(x, rows, i)), Among(srcOrder, SrcOn(x, rows, i)))
  {
    WellFormedIsSound(x, rows);
    StartSafe(x, rows);
    StartSettled(x, rows);
    GuessesInjective(x, rows);
    OrderKeys(telOrder, x.tel.Keys);
    OrderKeys(srcOrder, x.srcs.Keys);
    var st := Start(x, rows);
    RunTelemetrySettled(x, rows, st, telOrder);
    RunTranscriptsSettled(x, rows, RunTelemetry(x, st, telOrder), srcOrder);
    forall i: nat | i < |rows|
      ensures RunBoth(x, rows, telOrder, srcOrder).rows[i] ==
              RowAfter(x, rows, i, Among(telOrder, TelOn(x, rows, i)), Among(srcOrder, SrcOn(x, rows, i)))
    {
      RunTelemetryRows(x, rows, st, telOrder, i);
      RunTranscriptsRows(x, rows, RunTelemetry(x, st, telOrder), srcOrder, i);
    }
  }

  lemma GuessesInjective(x: Inputs, rows: Rows)
    requires WellFormed(x, rows)
    ensures Injective(x.probable)
  {
    ProbableInjective(HintsOf(x.tel, x.srcs, x.now, x.window), rows, x.probable, x.probable);
  }

  // ----------------------------------------------------- what contention does --

  /** The last telemetry session to claim a row by launch ID names the row. */
  lemma LastClaimNames(x: Inputs, rows: Rows, st: State, init: seq<string>, k: string, s: TelemetrySession)
    requires InRange(x, st) && x.TelAt(k) == Some(s) && LaunchLinks(x, s) && s.sessionID != ""
    requires k !in RunTelemetry(x, st, init).byID
    ensures var r := RunTelemetry(x, st, init + [k]);
            var i := x.index.byLaunch[LaunchOfSession(s)];
            r.rows[i].session.id == s.sessionID && i in r.matched
  {
  }

  lemma {:induction false} TranscriptsKeepMatchedNames(x: Inputs, st: State, order: seq<string>, i: nat)
    requires InRange(x, st) && i in st.matched && i < |st.rows|
    ensures i in RunTranscripts(x, st, order).matched
    ensures RunTranscripts(x, st, order).rows[i].session.id == st.rows[i].session.id
    decreases |order|
  {
    if order != [] {
      var init, k := order[..|order| - 1], order[|order| - 1];
      TranscriptsKeepMatchedNames(x, st, init, i);
      var before := RunTranscripts(x, st, init);
      if x.SrcAt(k).Some? && k in before.byID {
        MergeTranscriptRow(before.rows[before.byID[k]], x.SrcAt(k).value);
      }
    }
  }

  lemma {:induction false} NewKeysAreVisited(x: Inputs, st: State, order: seq<string>, k: string)
    requires InRange(x, st) && k in RunTelemetry(x, st, order).byID
    ensures k in st.byID || k in order
    decreases |order|
  {
    if order != [] {
      var init := order[..|order| - 1];
      assert order == init + [order[|order| - 1]];
      if k in RunTelemetry(x, st, init).byID { NewKeysAreVisited(x, st, init, k); }
    }
  }

  /**
   * Two recent telemetry sessions with one launch ID and no row of their own: the row
   * they share is named by whichever the map range visits last.
   */
  lemma LaunchContention(
      x: Inputs, rows: Rows, telOrder: seq<string>, srcOrder: seq<string>, k: string, s: TelemetrySession)
    requires InRange(x, Start(x, rows)) && k !in telOrder
    requires x.TelAt(k) == Some(s) && s.sessionID != "" && LaunchLinks(x, s) && k !in x.index.byID
    ensures var i := x.index.byLaunch[LaunchOfSession(s)];
            i < |rows| && RunBoth(x, rows, telOrder + [k], srcOrder).rows[i].session.id == s.sessionID
  {
    var st := Start(x, rows);
    var i := x.index.byLaunch[LaunchOfSession(s)];
    if k in RunTelemetry(x, st, telOrder).byID { NewKeysAreVisited(x, st, telOrder, k); }
    LastClaimNames(x, rows, st, telOrder, k, s);
    TranscriptsKeepMatchedNames(x, RunTelemetry(x, st, telOrder + [k]), srcOrder, i);
  }

  /** Two such sessions, each visited last once, leave different rows behind. */
  lemma LaunchContentionShows(
      x: Inputs, rows: Rows, a: seq<string>, b: seq<string>, c: seq<string>, k: string, l: string, i: nat)
    requires WellFormed(x, rows) && OrderOf(a + [k], x.tel.Keys) && OrderOf(b + [l], x.tel.Keys) && k != l
    requires TelClaims(x, rows, k, i) && Evidence(x, rows, k).grade == ByLaunch
    requires TelClaims(x, rows, l, i) && Evidence(x, rows, l).grade == ByLaunch
    ensures InRange(x, Start(x, rows)) && i < |rows|
    ensures RunBoth(x, rows, a + [k], c).rows[i].session.id == x.tel[k].sessionID
    ensures RunBoth(x, rows, b + [l], c).rows[i].session.id == x.tel[l].sessionID
    ensures x.tel[k].sessionID != x.tel[l].sessionID
  {
    StartInRange(x, rows);
    NoDupLast(a, k);
    NoDupLast(b, l);
    LaunchedLast(x, rows, a, c, k, i);
    LaunchedLast(x, rows, b, c, l, i);
    WellFormedIsSound(x, rows);
    LaunchedNames(x, rows, k, l, i);
  }

  lemma LaunchedLast(x: Inputs, rows: Rows, a: seq<string>, c: seq<string>, k: string, i: nat)
    requires InRange(x, Start(x, rows)) && k !in a && TelClaims(x, rows, k, i) && x.tel[k].sessionID != ""
    requires Evidence(x, rows, k).grade == ByLaunch
    ensures i < |rows| && RunBoth(x, rows, a + [k], c).rows[i].session.id == x.tel[k].sessionID
  {
    LaunchContention(x, rows, a, c, k, x.tel[k]);
  }

  /** Two sessions with one launch ID differ in their own. */
  lemma LaunchedNames(x: Inputs, rows: Rows, k: string, l: string, i: nat)
    requires Sound(x, rows) && i < |rows| && k != l && TelClaims(x, rows, k, i) && TelClaims(x, rows, l, i)
    requires Evidence(x, rows, k).grade == ByLaunch == Evidence(x, rows, l).grade
    ensures x.tel[k].sessionID != x.tel[l].sessionID
  {
    assert rows[i].session.agent == x.tel[k].agent == x.tel[l].agent;
  }

  lemma NoDupLast(a: seq<string>, k: string)
    requires NoDup(a + [k])
    ensures k !in a
  {
    forall i | 0 <= i < |a| ensures a[i] != k {
      assert (a + [k])[i] != (a + [k])[|a|];
    }
  }
}
