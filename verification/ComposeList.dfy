// Exactly when the visiting orders of composeSessionsLocked show in the list it returns,
// for a limit that cuts off no session (internal/daemon/daemon.go).
module ComposeList {
  import opened Base
  import opened ComposeExact
  import opened ComposeOrder
  import opened ComposeResult
  import opened ComposeSafety
  import opened Composition
  import opened Matching
  import opened Model
  import opened Sorting
  import opened TelemetryIngest
  import opened VisitOrders

  /** The recent sessions without a process row of their own: those that can get a logical row. */
  ghost function Loose(x: Inputs): set<string> {
    set k | k in x.tel.Keys + x.srcs.Keys && x.IsRecent(k) && k !in x.index.byID
  }

  /** Everything Go may choose gives the same list. */
  ghost predicate ListFree(x: Inputs, rows: Rows, limit: nat)
    requires InRange(x, Start(x, rows))
  {
    forall c, d :: Arranged(x, rows, c) && Arranged(x, rows, d) ==> Shown(x, rows, limit, c) == Shown(x, rows, limit, d)
  }

  // --------------------------------------------------- every order has a list --

  lemma {:induction false} SomeValues(m: map<string, SessionSnapshot>, keys: set<string>) returns (out: Rows)
    requires keys <= m.Keys && forall k :: k in m ==> KeyOf(m[k]) == k
    ensures NoDup(out) && |out| == |keys|
    ensures forall v :: v in out <==> KeyOf(v) in keys && m[KeyOf(v)] == v
    decreases keys
  {
    if keys == {} { return []; }
    var k := AnyOf(keys);
    var rest := SomeValues(m, keys - {k});
    NoDupConcat([m[k]], rest);
    out := [m[k]] + rest;
  }

  lemma SomeListing(logical: map<string, SessionSnapshot>) returns (listing: Rows)
    requires forall k :: k in logical ==> KeyOf(logical[k]) == k
    ensures IsListing(logical, listing)
  {
    var all := SomeValues(logical, logical.Keys);
    LogicalOrder();
    SortedSorts(all, LogicalLess);
    listing := Sorted(all, LogicalLess);
    SameElements(all, listing);
    NoDupPermutation(all, listing);
  }

  lemma Arrange(x: Inputs, rows: Rows, a: seq<string>, c: seq<string>) returns (chosen: Choices)
    requires WellFormed(x, rows) && OrderOf(a, x.tel.Keys) && OrderOf(c, x.srcs.Keys)
    ensures Arranged(x, rows, chosen) && chosen.telOrder == a && chosen.srcOrder == c
  {
    RunBothSafe(x, rows, a, c);
    WellFormedIsSound(x, rows);
    var st := RunBoth(x, rows, a, c);
    LogicalKeys(x, rows, st);
    var listing := SomeListing(st.logical);
    chosen := Choices(a, c, listing);
  }

  lemma LogicalKeys(x: Inputs, rows: Rows, st: State)
    requires Sound(x, rows) && Safe(x, rows, st, x.tel.Keys, x.srcs.Keys)
    ensures forall k :: k in st.logical ==> KeyOf(st.logical[k]) == k
  {
    forall k | k in st.logical ensures KeyOf(st.logical[k]) == k {
      LogicalRow(x, k, k in x.srcs.Keys);
    }
  }

  // ------------------------------------------------------ what the list shows --

  /** The process rows are in the list whatever the limit. */
  lemma RowsShow(x: Inputs, rows: Rows, limit: nat, c: Choices, d: Choices)
    requires WellFormed(x, rows) && Arranged(x, rows, c) && Arranged(x, rows, d)
    requires Shown(x, rows, limit, c) == Shown(x, rows, limit, d)
    ensures Final(x, rows, c).rows == Final(x, rows, d).rows
    ensures Truncated(c.listing, limit) == Truncated(d.listing, limit)
  {
    SameSuffix(
      Truncated(c.listing, limit), Final(x, rows, c).rows,
      Truncated(d.listing, limit), Final(x, rows, d).rows);
  }

  lemma SameSuffix(a: Rows, b: Rows, c: Rows, d: Rows)
    requires a + b == c + d && |b| == |d|
    ensures a == c && b == d
  {
    assert a == (a + b)[..|a|] && c == (c + d)[..|c|];
    assert b == (a + b)[|a|..] && d == (c + d)[|c|..];
  }

  lemma ListFreeRows(x: Inputs, rows: Rows, limit: nat)
    requires WellFormed(x, rows) && InRange(x, Start(x, rows)) && ListFree(x, rows, limit)
    ensures RowsFree(x, rows)
  {
    forall a, b, c, d |
      OrderOf(a, x.tel.Keys) && OrderOf(b, x.tel.Keys) && OrderOf(c, x.srcs.Keys) && OrderOf(d, x.srcs.Keys)
      ensures RunBoth(x, rows, a, c).rows == RunBoth(x, rows, b, d).rows
    {
      var p := Arrange(x, rows, a, c);
      var q := Arrange(x, rows, b, d);
      RowsShow(x, rows, limit, p, q);
    }
  }

  /** With room for every loose session nothing is cut off. */
  lemma NothingCut(x: Inputs, rows: Rows, limit: nat, c: Choices)
    requires WellFormed(x, rows) && Arranged(x, rows, c) && |Loose(x)| <= limit
    ensures Truncated(c.listing, limit) == c.listing
  {
    SafeComposition(x, rows, c);
    OwnRowsStay(x, rows, c.telOrder, c.srcOrder);
    var st := Final(x, rows, c);
    assert forall k :: k in st.logical ==> Visited(x, x.tel.Keys, x.srcs.Keys, k);
    assert st.logical.Keys <= Loose(x);
    Smaller(st.logical.Keys, Loose(x));
  }

  lemma {:induction false} Smaller<T>(a: set<T>, b: set<T>)
    requires a <= b
    ensures |a| <= |b|
    decreases a
  {
    if x :| x in a { Smaller(a - {x}, b - {x}); }
  }

  lemma OwnRowsStay(x: Inputs, rows: Rows, a: seq<string>, c: seq<string>)
    requires InRange(x, Start(x, rows))
    ensures forall k :: k in x.index.byID ==> k in RunBoth(x, rows, a, c).byID
  {
    forall k | k in x.index.byID ensures k in RunBoth(x, rows, a, c).byID {
      TelemetryKeepsEntry(x, Start(x, rows), a, k);
      TranscriptsKeepEntry(x, RunTelemetry(x, Start(x, rows), a), c, k);
    }
  }

  // -------------------------------------------------- a weak claimant, last ----

  lemma {:induction false} LogicalStays(x: Inputs, rows: Rows, st: State, order: seq<string>, l: string)
    requires Sound(x, rows) && Safe(x, rows, st, x.tel.Keys, {}) && l in st.logical
    requires NoDup(order) && forall k :: k in order ==> k in x.srcs
    ensures l in RunTranscripts(x, st, order).logical
    decreases |order|
  {
    if order != [] {
      var init, last := order[..|order| - 1], order[|order| - 1];
      SplitLast(order);
      LogicalStays(x, rows, st, init, l);
      RunTranscriptsSafe(x, rows, st, init);
      DeleteRemovesNothing(x, rows, RunTranscripts(x, st, init), KeySet(init), last);
    }
  }

  /** l has a row of its own other than row i, process row or logical one. */
  ghost predicate Elsewhere(st: State, l: string, i: nat) {
    l in st.logical || (l in st.byID && st.byID[l] != i && st.byID[l] < |st.rows| && KeyOf(st.rows[st.byID[l]]) == l)
  }

  /** A weak claimant that finds row i taken ends up elsewhere, under its own key. */
  lemma SentElsewhere(x: Inputs, rows: Rows, st: State, l: string, i: nat)
    requires Sound(x, rows) && InRange(x, st) && RowsKept(st, rows) && l !in st.byID && i in st.matched
    requires TelClaims(x, rows, l, i) && Weak(Evidence(x, rows, l).grade)
    ensures var after := TelemetryStep(x, st, l);
            && Elsewhere(after, l, i)
            && (l in after.byID ==>
                  after.byID[l] in after.matched && after.rows[after.byID[l]].session.id == x.tel[l].sessionID)
  {
    var s := x.TelAt(l).value;
    IdentityUnchanged(x, rows, st, s);
    MatchedAgent(x, rows, st, s, l);
    var m := FindRow(x, st, s, l);
    if m.Matched? {
      assert SameProcess(st.rows[m.row], rows[m.row]);
      TakeTelemetryRow(st.rows[m.row], s, m.grade);
    }
  }

  /** The transcripts leave it there. */
  lemma StaysElsewhere(x: Inputs, rows: Rows, st: State, c: seq<string>, l: string, i: nat)
    requires Sound(x, rows) && Safe(x, rows, st, x.tel.Keys, {}) && Elsewhere(st, l, i)
    requires OrderOf(c, x.srcs.Keys)
    requires l in st.byID ==> st.byID[l] in st.matched
    ensures Elsewhere(RunTranscripts(x, st, c), l, i)
  {
    OrderKeys(c, x.srcs.Keys);
    RunTranscriptsSafe(x, rows, st, c);
    if l in st.logical {
      LogicalStays(x, rows, st, c, l);
    } else {
      var j := st.byID[l];
      TranscriptsKeepEntry(x, st, c, l);
      TranscriptsKeepMatchedNames(x, st, c, j);
      assert SameProcess(st.rows[j], rows[j]) && SameProcess(RunTranscripts(x, st, c).rows[j], rows[j]);
    }
  }

  /** A weak claimant visited after everybody else, another claimant of its row before all. */
  lemma LastGoesElsewhere(x: Inputs, rows: Rows, k: string, l: string, i: nat, rest: seq<string>, c: seq<string>)
    requires WellFormed(x, rows) && k != l
    requires TelClaims(x, rows, k, i) && TelClaims(x, rows, l, i) && Weak(Evidence(x, rows, l).grade)
    requires OrderOf([k] + rest + [l], x.tel.Keys) && OrderOf(c, x.srcs.Keys)
    ensures InRange(x, Start(x, rows)) && Elsewhere(RunBoth(x, rows, [k] + rest + [l], c), l, i)
  {
    WellFormedIsSound(x, rows);
    StartSafe(x, rows);
    var st, init, all := Start(x, rows), [k] + rest, [k] + rest + [l];
    OrderKeys(all, x.tel.Keys);
    SplitLast(all);
    assert all[..|all| - 1] == init && all[|all| - 1] == l;
    RunTelemetrySafe(x, rows, st, init);
    RunTelemetrySafe(x, rows, st, all);
    TakenBefore(x, rows, k, l, i, rest);
    var before := RunTelemetry(x, st, init);
    SentElsewhere(x, rows, before, l, i);
    assert RunTelemetry(x, st, all) == TelemetryStep(x, before, l);
    StaysElsewhere(x, rows, RunTelemetry(x, st, all), c, l, i);
  }

  lemma TakenBefore(x: Inputs, rows: Rows, k: string, l: string, i: nat, rest: seq<string>)
    requires Sound(x, rows) && InRange(x, Start(x, rows)) && k != l && l !in rest
    requires TelClaims(x, rows, k, i) && TelClaims(x, rows, l, i) && Weak(Evidence(x, rows, l).grade)
    ensures var before := RunTelemetry(x, Start(x, rows), [k] + rest); i in before.matched && l !in before.byID
  {
    FirstVisit(x, rows, k, i);
    var st := Start(x, rows);
    RunTelemetryConcat(x, st, [k], rest);
    TelemetryKeepsLost(x, RunTelemetry(x, st, [k]), rest, l, i);
    if l in RunTelemetry(x, st, [k] + rest).byID { NewKeysAreVisited(x, st, [k] + rest, l); }
  }

  // ------------------------------------------------------------- the converse --

  /** Where l has row i in one state and is elsewhere in another, the lists differ. */
  lemma ListsDiffer(x: Inputs, rows: Rows, limit: nat, c: Choices, d: Choices, l: string, i: nat)
    requires WellFormed(x, rows) && Arranged(x, rows, c) && Arranged(x, rows, d) && |Loose(x)| <= limit
    requires l in Final(x, rows, c).byID && Final(x, rows, c).byID[l] == i && Elsewhere(Final(x, rows, d), l, i)
    ensures Shown(x, rows, limit, c) != Shown(x, rows, limit, d)
  {
    if Shown(x, rows, limit, c) == Shown(x, rows, limit, d) {
      RowsShow(x, rows, limit, c, d);
      NothingCut(x, rows, limit, c);
      NothingCut(x, rows, limit, d);
      SafeComposition(x, rows, c);
      SafeComposition(x, rows, d);
      SameListing(x, rows, Final(x, rows, c), Final(x, rows, d), c.listing);
      NotBoth(x, rows, Final(x, rows, c), Final(x, rows, d), l, i);
    }
  }

  /** One listing lists one set of keys. */
  lemma SameListing(x: Inputs, rows: Rows, st: State, st': State, listing: Rows)
    requires Sound(x, rows) && Safe(x, rows, st', x.tel.Keys, x.srcs.Keys)
    requires IsListing(st.logical, listing) && IsListing(st'.logical, listing)
    ensures st'.logical.Keys <= st.logical.Keys
  {
    LogicalKeys(x, rows, st');
    forall m | m in st'.logical ensures m in st.logical { assert st'.logical[m] in listing; }
  }

  lemma NotBoth(x: Inputs, rows: Rows, st: State, st': State, l: string, i: nat)
    requires Safe(x, rows, st, x.tel.Keys, x.srcs.Keys) && st'.logical.Keys <= st.logical.Keys && st.rows == st'.rows
    requires l in st.byID && st.byID[l] == i
    ensures !Elsewhere(st', l, i)
  {
  }

  /** A weak claimant beside any other claimant always shows in some two lists. */
  lemma WeakShows(x: Inputs, rows: Rows, limit: nat, k: string, l: string, i: nat)
    requires WellFormed(x, rows) && InRange(x, Start(x, rows)) && k != l && |Loose(x)| <= limit
    requires TelClaims(x, rows, k, i) && TelClaims(x, rows, l, i) && Weak(Evidence(x, rows, l).grade)
    ensures !ListFree(x, rows, limit)
  {
    WellFormedIsSound(x, rows);
    var rest := PairFirst(x.tel.Keys, k, l);
    var srcOrder := SomeOrder(x.srcs.Keys);
    WeakContentionShows(x, rows, k, l, i, rest, srcOrder);
    FirstAndLast(x.tel.Keys, k, l, rest);
    LastGoesElsewhere(x, rows, k, l, i, rest, srcOrder);
    var c := Arrange(x, rows, [l, k] + rest, srcOrder);
    var d := Arrange(x, rows, [k] + rest + [l], srcOrder);
    ListsDiffer(x, rows, limit, c, d, l, i);
  }

  lemma FirstAndLast(keys: set<string>, k: string, l: string, rest: seq<string>)
    requires OrderOf([k, l] + rest, keys)
    ensures OrderOf([k] + rest + [l], keys)
  {
    NoDupTail([k, l], rest);
    assert [k, l][0] == k && [k, l][1] == l;
    NoDupConcat([k], rest);
    NoDupConcat([k] + rest, [l]);
  }

  lemma NoDupTail(a: seq<string>, b: seq<string>)
    requires NoDup(a + b)
    ensures NoDup(a) && NoDup(b) && forall m :: m in a ==> m !in b
  {
    var c := a + b;
    assert forall i :: 0 <= i < |a| ==> a[i] == c[i];
    assert forall i :: 0 <= i < |b| ==> b[i] == c[|a| + i];
  }

  lemma LaunchShows(x: Inputs, rows: Rows, k: string, l: string, i: nat)
    requires WellFormed(x, rows) && InRange(x, Start(x, rows)) && k != l
    requires TelClaims(x, rows, k, i) && TelClaims(x, rows, l, i)
    requires Evidence(x, rows, k).grade == Evidence(x, rows, l).grade == ByLaunch
    ensures !RowsFree(x, rows)
  {
    var a := LastOf(x.tel.Keys, k);
    var b := LastOf(x.tel.Keys, l);
    var c := SomeOrder(x.srcs.Keys);
    LaunchContentionShows(x, rows, a, b, c, k, l, i);
    RowsNotFree(x, rows, a + [k], b + [l], c, i);
  }

  lemma RowsNotFree(x: Inputs, rows: Rows, a: seq<string>, b: seq<string>, c: seq<string>, i: nat)
    requires InRange(x, Start(x, rows)) && i < |rows|
    requires OrderOf(a, x.tel.Keys) && OrderOf(b, x.tel.Keys) && OrderOf(c, x.srcs.Keys)
    requires RunBoth(x, rows, a, c).rows[i].session.id != RunBoth(x, rows, b, c).rows[i].session.id
    ensures !RowsFree(x, rows)
  {
  }

  lemma ListFreeSeparated(x: Inputs, rows: Rows, limit: nat)
    requires WellFormed(x, rows) && InRange(x, Start(x, rows)) && |Loose(x)| <= limit && ListFree(x, rows, limit)
    ensures Separated(x, rows)
  {
    ListFreeRows(x, rows, limit);
    forall k, l, i | TelClaims(x, rows, k, i) && TelClaims(x, rows, l, i) && k != l
      ensures MayShare(Evidence(x, rows, k).grade, Evidence(x, rows, l).grade)
    {
      if Weak(Evidence(x, rows, l).grade) { WeakShows(x, rows, limit, k, l, i); }
      if Weak(Evidence(x, rows, k).grade) { WeakShows(x, rows, limit, l, k, i); }
      if Evidence(x, rows, k).grade == Evidence(x, rows, l).grade == ByLaunch { LaunchShows(x, rows, k, l, i); }
    }
  }

  /**
   * The orders of the two maps cannot be seen in the composed list, which has room for
   * every loose session, exactly when sessions are uncontended.
   */
  lemma ListFreeExactly(x: Inputs, rows: Rows, limit: nat)
    requires WellFormed(x, rows) && |Loose(x)| <= limit
    ensures InRange(x, Start(x, rows)) && (ListFree(x, rows, limit) <==> Uncontended(x, rows))
  {
    StartInRange(x, rows);
    if Uncontended(x, rows) {
      forall c, d | Arranged(x, rows, c) && Arranged(x, rows, d)
        ensures Shown(x, rows, limit, c) == Shown(x, rows, limit, d)
      {
        VisitOrderIrrelevant(x, rows, limit, c, d);
      }
    }
    if ListFree(x, rows, limit) {
      ListFreeRows(x, rows, limit);
      ListFreeSeparated(x, rows, limit);
      forall i: nat, k, l | i < |rows| && Share(x, rows, i, k, l) ensures PairAgrees(x, rows[i], k, l) {
        FreeRows(x, rows, i);
        RowFreeExactly(x, rows, i);
      }
    }
  }
}
