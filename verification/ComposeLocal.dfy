// One process row on its own: if no other session can reach it, what it shows does not
// depend on what sessions do elsewhere, however they compete (composeSessionsLocked in
// internal/daemon/daemon.go).
module ComposeLocal {
  import opened Base
  import opened ComposeOrder
  import opened ComposeSafety
  import opened Composition
  import opened Matching
  import opened Model
  import opened TelemetryIngest
  import opened VisitOrders

  /** Row i is what the strongest evidence of the recent session k points at. */
  ghost predicate Points(x: Inputs, rows: Rows, k: string, i: nat) {
    x.IsRecent(k) && Evidence(x, rows, k).Matched? && Evidence(x, rows, k).row == i
  }

  /** Or the guess it falls back on if its process row is taken. */
  ghost predicate MayReach(x: Inputs, rows: Rows, k: string, i: nat) {
    || Points(x, rows, k, i)
    || (x.IsRecent(k) && Evidence(x, rows, k).Matched? && Evidence(x, rows, k).grade == ByProcess
        && k in x.probable && x.probable[k] == i)
  }

  /** No session but k can reach row i, and k only with its strongest evidence. */
  ghost predicate OnlyReaches(x: Inputs, rows: Rows, k: string, i: nat) {
    forall l :: MayReach(x, rows, l, i) ==> l == k && Points(x, rows, l, i)
  }

  ghost predicate Came(x: Inputs, tels: set<string>, srcs: set<string>, k: string) {
    (k in tels && x.TelAt(k).Some?) || (k in srcs && x.SrcAt(k).Some?)
  }

  /** Row i after the visits, if k alone can reach it. */
  ghost function LocalRow(
      x: Inputs, rows: Rows, tels: set<string>, srcs: set<string>, k: string, i: nat): SessionSnapshot
    requires i < |rows|
  {
    if !Points(x, rows, k, i) then rows[i]
    else
      var mid := if k in tels then TelEffect(x, rows, k, rows[i]) else rows[i];
      if k in srcs then SrcEffect(x, k, mid) else mid
  }

  /** The part of the state that concerns row i. */
  ghost predicate Local(
      x: Inputs, rows: Rows, st: State, tels: set<string>, srcs: set<string>, k: string, i: nat)
    requires i < |rows|
  {
    && i < |st.rows| && st.rows[i] == LocalRow(x, rows, tels, srcs, k, i)
    && (i in st.matched ==> Points(x, rows, k, i) && Came(x, tels, srcs, k))
    && (forall l :: x.IsRecent(l) && l in st.byID && st.byID[l] == i ==> l == k && Points(x, rows, k, i))
    && (forall l :: l in x.index.byID ==> l in st.byID && st.byID[l] == x.index.byID[l])
    && (Points(x, rows, k, i) ==>
          && (k in st.byID <==> k in x.index.byID || Came(x, tels, srcs, k))
          && (k in st.byID ==> st.byID[k] == i))
    && (forall l :: l in tels && x.TelAt(l).Some? && LaunchLinks(x, x.TelAt(l).value) ==> l in st.byID)
  }

  lemma StartLocal(x: Inputs, rows: Rows, k: string, i: nat)
    requires i < |rows| && OnlyReaches(x, rows, k, i)
    ensures Local(x, rows, Start(x, rows), {}, {}, k, i)
  {
    forall l | x.IsRecent(l) && l in x.index.byID && x.index.byID[l] == i
      ensures l == k && Points(x, rows, k, i)
    {
      assert MayReach(x, rows, l, i);
    }
  }

  /** A session that does not point at row i finds another row, or none. */
  lemma FindsElsewhere(x: Inputs, rows: Rows, st: State, tels: set<string>, k: string, i: nat, l: string)
    requires i < |rows| && OnlyReaches(x, rows, k, i) && Local(x, rows, st, tels, {}, k, i)
    requires RowsKept(st, rows) && InRange(x, st) && x.TelAt(l).Some? && !Points(x, rows, l, i)
    ensures var m := FindRow(x, st, x.TelAt(l).value, l); m.Matched? ==> m.row != i
  {
    IdentityUnchanged(x, rows, st, x.TelAt(l).value);
    assert !MayReach(x, rows, l, i);
  }

  lemma FindsIt(x: Inputs, rows: Rows, st: State, tels: set<string>, k: string, i: nat)
    requires i < |rows| && Local(x, rows, st, tels, {}, k, i) && k !in tels
    requires RowsKept(st, rows) && InRange(x, st) && x.TelAt(k).Some? && Points(x, rows, k, i)
    ensures FindRow(x, st, x.TelAt(k).value, k) == Evidence(x, rows, k)
  {
    IdentityUnchanged(x, rows, st, x.TelAt(k).value);
  }

  lemma TelemetryStepLocal(x: Inputs, rows: Rows, st: State, tels: set<string>, k: string, i: nat, l: string)
    requires i < |rows| && OnlyReaches(x, rows, k, i) && Local(x, rows, st, tels, {}, k, i)
    requires RowsKept(st, rows) && InRange(x, st) && l !in tels
    ensures Local(x, rows, TelemetryStep(x, st, l), tels + {l}, {}, k, i)
  {
    if Points(x, rows, l, i) {
      assert MayReach(x, rows, l, i);
      if x.TelAt(l).Some? { FindsIt(x, rows, st, tels, k, i); }
      TelemetryArrives(x, rows, st, tels, k, i);
    } else {
      if x.TelAt(l).Some? { FindsElsewhere(x, rows, st, tels, k, i, l); }
      TelemetryPasses(x, rows, st, tels, k, i, l);
    }
  }

  /** Telemetry that finds another row, or none, leaves row i alone. */
  lemma TelemetryPasses(x: Inputs, rows: Rows, st: State, tels: set<string>, k: string, i: nat, l: string)
    requires i < |rows| && Local(x, rows, st, tels, {}, k, i) && InRange(x, st) && !Points(x, rows, l, i)
    requires x.TelAt(l).Some? ==> var m := FindRow(x, st, x.TelAt(l).value, l); m.Matched? ==> m.row != i
    ensures Local(x, rows, TelemetryStep(x, st, l), tels + {l}, {}, k, i)
  {
    var st' := TelemetryStep(x, st, l);
    assert st'.rows[i] == st.rows[i] && (i in st'.matched <==> i in st.matched);
    assert forall m :: m != l ==> (m in st'.byID <==> m in st.byID) && (m in st.byID ==> st'.byID[m] == st.byID[m]);
    assert Points(x, rows, k, i) ==> (Came(x, tels + {l}, {}, k) <==> Came(x, tels, {}, k));
  }

  lemma TelemetryArrives(x: Inputs, rows: Rows, st: State, tels: set<string>, k: string, i: nat)
    requires i < |rows| && Local(x, rows, st, tels, {}, k, i) && InRange(x, st)
    requires Points(x, rows, k, i) && k !in tels
    requires x.TelAt(k).Some? ==> FindRow(x, st, x.TelAt(k).value, k) == Evidence(x, rows, k)
    ensures Local(x, rows, TelemetryStep(x, st, k), tels + {k}, {}, k, i)
  {
    var st' := TelemetryStep(x, st, k);
    assert st'.rows[i] == TelEffect(x, rows, k, st.rows[i]);
    assert forall m :: m != k ==> (m in st'.byID <==> m in st.byID) && (m in st.byID ==> st'.byID[m] == st.byID[m]);
  }

  lemma GuessesElsewhere(x: Inputs, rows: Rows, st: State, srcs: set<string>, k: string, i: nat, l: string)
    requires i < |rows| && OnlyReaches(x, rows, k, i) && Local(x, rows, st, x.tel.Keys, srcs, k, i)
    requires x.SrcAt(l).Some? && !Points(x, rows, l, i)
    ensures if l in st.byID then st.byID[l] != i else l in x.probable ==> x.probable[l] != i
  {
    assert !MayReach(x, rows, l, i);
  }

  /** A transcript that settles on another row, or none, leaves row i alone. */
  lemma TranscriptPasses(x: Inputs, rows: Rows, st: State, srcs: set<string>, k: string, i: nat, l: string)
    requires i < |rows| && Local(x, rows, st, x.tel.Keys, srcs, k, i) && InRange(x, st)
    requires !Points(x, rows, l, i)
    requires x.SrcAt(l).Some? ==> if l in st.byID then st.byID[l] != i else l in x.probable ==> x.probable[l] != i
    ensures Local(x, rows, TranscriptStep(x, st, l), x.tel.Keys, srcs + {l}, k, i)
  {
    var st' := TranscriptStep(x, st, l);
    assert st'.rows[i] == st.rows[i] && (i in st'.matched <==> i in st.matched);
    assert forall m :: m != l ==> (m in st'.byID <==> m in st.byID) && (m in st.byID ==> st'.byID[m] == st.byID[m]);
    assert Points(x, rows, k, i) ==> (Came(x, x.tel.Keys, srcs + {l}, k) <==> Came(x, x.tel.Keys, srcs, k));
  }

  lemma TranscriptArrives(x: Inputs, rows: Rows, st: State, srcs: set<string>, k: string, i: nat)
    requires i < |rows| && Local(x, rows, st, x.tel.Keys, srcs, k, i) && InRange(x, st)
    requires Points(x, rows, k, i) && x.SrcAt(k).Some? && k !in srcs
    ensures Local(x, rows, TranscriptStep(x, st, k), x.tel.Keys, srcs + {k}, k, i)
  {
    var st' := TranscriptStep(x, st, k);
    assert k in st.byID <==> k in x.index.byID || x.TelAt(k).Some?;
    assert st'.rows[i] == SrcEffect(x, k, st.rows[i]);
    assert forall m :: m != k ==> (m in st'.byID <==> m in st.byID) && (m in st.byID ==> st'.byID[m] == st.byID[m]);
  }

  lemma TranscriptStepLocal(x: Inputs, rows: Rows, st: State, srcs: set<string>, k: string, i: nat, l: string)
    requires i < |rows| && OnlyReaches(x, rows, k, i) && Local(x, rows, st, x.tel.Keys, srcs, k, i)
    requires InRange(x, st) && l !in srcs
    ensures Local(x, rows, TranscriptStep(x, st, l), x.tel.Keys, srcs + {l}, k, i)
  {
    if Points(x, rows, l, i) {
      assert MayReach(x, rows, l, i);
      if x.SrcAt(l).Some? { TranscriptArrives(x, rows, st, srcs, k, i); }
    } else {
      if x.SrcAt(l).Some? { GuessesElsewhere(x, rows, st, srcs, k, i, l); }
      TranscriptPasses(x, rows, st, srcs, k, i, l);
    }
  }

  lemma {:induction false} RunTelemetryLocal(x: Inputs, rows: Rows, order: seq<string>, k: string, i: nat)
    requires Sound(x, rows) && Safe(x, rows, Start(x, rows), {}, {}) && i < |rows| && OnlyReaches(x, rows, k, i)
    requires NoDup(order) && forall l :: l in order ==> l in x.tel
    ensures Local(x, rows, RunTelemetry(x, Start(x, rows), order), KeySet(order), {}, k, i)
    decreases |order|
  {
    if order == [] {
      assert KeySet(order) == {};
      StartLocal(x, rows, k, i);
    } else {
      var init, last := order[..|order| - 1], order[|order| - 1];
      SplitLast(order);
      RunTelemetryLocal(x, rows, init, k, i);
      RunTelemetrySafe(x, rows, Start(x, rows), init);
      TelemetryStepLocal(x, rows, RunTelemetry(x, Start(x, rows), init), KeySet(init), k, i, last);
    }
  }

  lemma {:induction false} RunTranscriptsLocal(x: Inputs, rows: Rows, st: State, order: seq<string>, k: string, i: nat)
    requires InRange(x, st) && i < |rows| && OnlyReaches(x, rows, k, i)
    requires NoDup(order) && Local(x, rows, st, x.tel.Keys, {}, k, i)
    ensures Local(x, rows, RunTranscripts(x, st, order), x.tel.Keys, KeySet(order), k, i)
    decreases |order|
  {
    if order == [] {
      assert KeySet(order) == {};
    } else {
      var init, last := order[..|order| - 1], order[|order| - 1];
      SplitLast(order);
      RunTranscriptsLocal(x, rows, st, init, k, i);
      TranscriptStepLocal(x, rows, RunTranscripts(x, st, init), KeySet(init), k, i, last);
    }
  }

  /** Both loops leave a row that k alone can reach as k alone would. */
  lemma RunBothLocal(x: Inputs, rows: Rows, telOrder: seq<string>, srcOrder: seq<string>, k: string, i: nat)
    requires WellFormed(x, rows) && i < |rows| && OnlyReaches(x, rows, k, i)
    requires OrderOf(telOrder, x.tel.Keys) && OrderOf(srcOrder, x.srcs.Keys)
    ensures InRange(x, Start(x, rows)) && i < |RunBoth(x, rows, telOrder, srcOrder).rows|
    ensures RunBoth(x, rows, telOrder, srcOrder).rows[i] == LocalRow(x, rows, x.tel.Keys, x.srcs.Keys, k, i)
  {
    WellFormedIsSound(x, rows);
    StartSafe(x, rows);
    OrderKeys(telOrder, x.tel.Keys);
    RunTelemetryLocal(x, rows, telOrder, k, i);
    OrderKeys(srcOrder, x.srcs.Keys);
    RunTranscriptsLocal(x, rows, RunTelemetry(x, Start(x, rows), telOrder), srcOrder, k, i);
  }
}
