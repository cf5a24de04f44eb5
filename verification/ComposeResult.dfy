// The composed list: sorted process rows after sorted, truncated logical rows
// (composeSessionsLocked in internal/daemon/daemon.go), and what it guarantees.
module ComposeResult {
  import opened Base
  import opened ComposeExact
  import opened ComposeOrder
  import opened ComposeRows
  import opened ComposeSafety
  import opened Composition
  import opened Folds
  import opened Matching
  import opened Model
  import opened Sorting
  import opened TelemetryIngest

  // --------------------------------------------------------------- ordering --

  predicate RowLess(a: SessionSnapshot, b: SessionSnapshot) {
    if a.resourceScope != b.resourceScope then TextLess(ScopeText(a.resourceScope), ScopeText(b.resourceScope))
    else if a.session.project != b.session.project then TextLess(a.session.project, b.session.project)
    else if a.session.agent != b.session.agent then TextLess(a.session.agent, b.session.agent)
    else TextLess(a.session.id, b.session.id)
  }

  predicate LogicalLess(a: SessionSnapshot, b: SessionSnapshot) {
    if a.session.lastActivityAt != b.session.lastActivityAt
    then a.session.lastActivityAt > b.session.lastActivityAt
    else RowLess(a, b)
  }

  lemma ScopeTextInjective(a: ResourceScope, b: ResourceScope)
    ensures ScopeText(a) == ScopeText(b) ==> a == b
  {
  }

  lemma RowLessAsymmetric(a: SessionSnapshot, b: SessionSnapshot)
    ensures !(RowLess(a, b) && RowLess(b, a))
    ensures KeyOf(a) != KeyOf(b) ==> RowLess(a, b) || RowLess(b, a)
  {
    ScopeTextInjective(a.resourceScope, b.resourceScope);
    TextLessTotal(ScopeText(a.resourceScope), ScopeText(b.resourceScope));
    TextLessTotal(a.session.project, b.session.project);
    TextLessTotal(a.session.agent, b.session.agent);
    TextLessTotal(a.session.id, b.session.id);
  }

  lemma RowLessTransitive(a: SessionSnapshot, b: SessionSnapshot, c: SessionSnapshot)
    requires !RowLess(b, a) && !RowLess(c, b)
    ensures !RowLess(c, a)
  {
    var sa, sb, sc := ScopeText(a.resourceScope), ScopeText(b.resourceScope), ScopeText(c.resourceScope);
    ScopeTextInjective(a.resourceScope, b.resourceScope);
    ScopeTextInjective(b.resourceScope, c.resourceScope);
    ScopeTextInjective(a.resourceScope, c.resourceScope);
    Order3(sa, sb, sc);
    Order3(a.session.project, b.session.project, c.session.project);
    Order3(a.session.agent, b.session.agent, c.session.agent);
    Order3(a.session.id, b.session.id, c.session.id);
  }

  lemma Order3(a: string, b: string, c: string)
    ensures !TextLess(b, a) && !TextLess(c, b) ==> !TextLess(c, a)
    ensures a == c && !TextLess(b, a) && !TextLess(c, b) ==> a == b
    ensures a != b ==> (TextLess(a, b) <==> !TextLess(b, a))
    ensures b != c ==> (TextLess(b, c) <==> !TextLess(c, b))
    ensures a != c ==> (TextLess(a, c) <==> !TextLess(c, a))
  {
    TextLessTransitive(a, b, c);
    TextLessTotal(a, b);
    TextLessTotal(b, c);
    TextLessTotal(a, c);
  }

  lemma RowOrder()
    ensures WeakOrder(RowLess)
  {
    forall a, b | RowLess(a, b) ensures !RowLess(b, a) { RowLessAsymmetric(a, b); }
    forall a, b, c | !RowLess(b, a) && !RowLess(c, b) ensures !RowLess(c, a) { RowLessTransitive(a, b, c); }
  }

  lemma LogicalOrder()
    ensures WeakOrder(LogicalLess)
  {
    forall a, b | LogicalLess(a, b) ensures !LogicalLess(b, a) { RowLessAsymmetric(a, b); }
    forall a, b, c | !LogicalLess(b, a) && !LogicalLess(c, b) ensures !LogicalLess(c, a) {
      if a.session.lastActivityAt == b.session.lastActivityAt == c.session.lastActivityAt {
        RowLessTransitive(a, b, c);
      }
    }
  }

  /** Rows with different keys have one sorted order. */
  ghost predicate KeysApart(rows: Rows) {
    forall i, j :: 0 <= i < j < |rows| ==> KeyOf(rows[i]) != KeyOf(rows[j])
  }

  lemma KeysApartSeparates(rows: Rows)
    requires KeysApart(rows)
    ensures Separates(multiset(rows), RowLess) && Separates(multiset(rows), LogicalLess)
    ensures NoDup(rows)
  {
    forall a, b | a in multiset(rows) && b in multiset(rows) && a != b
      ensures RowLess(a, b) || RowLess(b, a)
      ensures LogicalLess(a, b) || LogicalLess(b, a)
    {
      var i :| 0 <= i < |rows| && rows[i] == a;
      var j :| 0 <= j < |rows| && rows[j] == b;
      RowLessAsymmetric(a, b);
    }
  }

  // ------------------------------------------------------------- the result --

  /** listing shows every logical row once, newest first. */
  ghost predicate IsListing(logical: map<string, SessionSnapshot>, listing: Rows) {
    ListsValues(logical, KeyOf, listing) && SortedBy(listing, LogicalLess)
  }

  function Truncated(listing: Rows, limit: nat): Rows {
    if |listing| > limit then listing[..limit] else listing
  }

  /** What Go leaves open once the rows are sorted: two map orders, and the sorted logical rows. */
  datatype Choices = Choices(telOrder: seq<string>, srcOrder: seq<string>, listing: Rows)

  ghost predicate Arranged(x: Inputs, rows: Rows, c: Choices) {
    && OrderOf(c.telOrder, x.tel.Keys) && OrderOf(c.srcOrder, x.srcs.Keys)
    && InRange(x, Start(x, rows))
    && IsListing(RunBoth(x, rows, c.telOrder, c.srcOrder).logical, c.listing)
  }

  /** The state both loops end in. */
  function Final(x: Inputs, rows: Rows, c: Choices): State
    requires InRange(x, Start(x, rows))
  {
    RunBoth(x, rows, c.telOrder, c.srcOrder)
  }

  /** The composed list. */
  function Shown(x: Inputs, rows: Rows, limit: nat, c: Choices): Rows
    requires InRange(x, Start(x, rows))
  {
    Truncated(c.listing, limit) + Final(x, rows, c).rows
  }

  lemma ListingKeys(x: Inputs, rows: Rows, st: State, listing: Rows)
    requires Safe(x, rows, st, x.tel.Keys, x.srcs.Keys) && IsListing(st.logical, listing)
    requires Sound(x, rows)
    ensures KeysApart(listing)
    ensures forall r :: r in listing ==> NoProcess(r) && KeyOf(r) !in st.byID
  {
    forall i, j | 0 <= i < j < |listing| ensures KeyOf(listing[i]) != KeyOf(listing[j]) {
      assert listing[i] in listing && listing[j] in listing;
    }
    forall r | r in listing ensures NoProcess(r) && KeyOf(r) !in st.byID {
      LogicalRow(x, KeyOf(r), KeyOf(r) in x.srcs.Keys);
    }
  }

  /** No two rows of the composed list show the same session, whatever the map orders. */
  lemma SessionsUnique(x: Inputs, rows: Rows, limit: nat, c: Choices)
    requires WellFormed(x, rows) && Arranged(x, rows, c)
    ensures var result := Shown(x, rows, limit, c);
            && KeysApart(result)
            && forall i, j :: 0 <= i < j < |result| ==>
                 result[i].session.agent != result[j].session.agent || result[i].session.id != result[j].session.id
  {
    SafeComposition(x, rows, c);
    ShownApart(x, rows, Final(x, rows, c), c.listing, limit);
    KeysSayAll(Shown(x, rows, limit, c));
  }

  lemma SafeComposition(x: Inputs, rows: Rows, c: Choices)
    requires WellFormed(x, rows) && Arranged(x, rows, c)
    ensures Sound(x, rows) && Safe(x, rows, Final(x, rows, c), x.tel.Keys, x.srcs.Keys)
    ensures IsListing(Final(x, rows, c).logical, c.listing)
  {
    RunBothSafe(x, rows, c.telOrder, c.srcOrder);
    WellFormedIsSound(x, rows);
  }

  lemma ShownApart(x: Inputs, rows: Rows, st: State, listing: Rows, limit: nat)
    requires Sound(x, rows) && Safe(x, rows, st, x.tel.Keys, x.srcs.Keys) && IsListing(st.logical, listing)
    ensures KeysApart(Truncated(listing, limit) + st.rows)
  {
    ListingKeys(x, rows, st, listing);
    var shown := Truncated(listing, limit);
    forall r | r in shown ensures r in listing {}
    assert KeysApart(shown);
    ApartTogether(shown, st);
  }

  lemma KeysSayAll(result: Rows)
    requires KeysApart(result)
    ensures forall i, j :: 0 <= i < j < |result| ==>
              result[i].session.agent != result[j].session.agent || result[i].session.id != result[j].session.id
  {
  }

  lemma ApartTogether(shown: Rows, st: State)
    requires KeysApart(shown) && RowsKeyed(st)
    requires forall r :: r in shown ==> KeyOf(r) !in st.byID
    ensures KeysApart(shown + st.rows)
  {
  }

  // ------------------------------------------------------------ conservation --

  function MemoryOf(row: SessionSnapshot): nat { row.memoryBytes }

  function SumMemory(rows: Rows): nat { SumOf(MemoryOf, rows) }

  lemma {:induction false} SumMemorySame(a: Rows, b: Rows)
    requires |a| == |b| && forall i :: 0 <= i < |a| ==> a[i].memoryBytes == b[i].memoryBytes
    ensures SumMemory(a) == SumMemory(b)
    decreases |a|
  {
    if a != [] { SumMemorySame(a[1..], b[1..]); }
  }

  lemma {:induction false} SumMemoryNone(a: Rows)
    requires forall r :: r in a ==> r.memoryBytes == 0
    ensures SumMemory(a) == 0
    decreases |a|
  {
    if a != [] {
      assert a[0] in a;
      SumMemoryNone(a[1..]);
    }
  }

  /**
   * The process rows are the suffix of the list, in sorted order and with nothing the
   * scan contributed changed; the rows before them carry no resources, and the memory
   * shown adds up to the memory scanned.
   */
  ghost predicate Conserves(processRows: Rows, rows: Rows, limit: nat, result: Rows) {
    && |rows| == |processRows| && |rows| <= |result| <= limit + |rows|
    && (forall i :: 0 <= i < |result| - |rows| ==> NoProcess(result[i]))
    && (forall i :: 0 <= i < |rows| ==> SameProcess(result[|result| - |rows| + i], rows[i]))
    && SumMemory(result) == SumMemory(processRows)
  }

  /** Composing neither creates nor loses resources. */
  lemma ResourcesConserved(processRows: Rows, x: Inputs, rows: Rows, limit: nat, c: Choices)
    requires multiset(rows) == multiset(processRows)
    requires WellFormed(x, rows) && Arranged(x, rows, c)
    ensures Conserves(processRows, rows, limit, Shown(x, rows, limit, c))
  {
    SafeComposition(x, rows, c);
    ConservedFrom(processRows, x, rows, Final(x, rows, c), c.listing, limit);
  }

  lemma ConservedFrom(processRows: Rows, x: Inputs, rows: Rows, st: State, listing: Rows, limit: nat)
    requires multiset(rows) == multiset(processRows)
    requires Sound(x, rows) && Safe(x, rows, st, x.tel.Keys, x.srcs.Keys) && IsListing(st.logical, listing)
    ensures Conserves(processRows, rows, limit, Truncated(listing, limit) + st.rows)
  {
    SortingConserves(processRows, rows);
    ShownConserves(x, rows, st, listing, limit);
    ConservesFrom(processRows, rows, Truncated(listing, limit), st.rows, limit);
  }

  lemma SortingConserves(processRows: Rows, rows: Rows)
    requires multiset(rows) == multiset(processRows)
    ensures |rows| == |processRows| && SumMemory(rows) == SumMemory(processRows)
  {
    SameElements(processRows, rows);
    SumOfPermutation(MemoryOf, processRows, rows);
  }

  lemma ConservesFrom(processRows: Rows, rows: Rows, shown: Rows, now: Rows, limit: nat)
    requires |rows| == |processRows| && SumMemory(rows) == SumMemory(processRows) && |shown| <= limit
    requires |now| == |rows| && forall i :: 0 <= i < |rows| ==> SameProcess(now[i], rows[i])
    requires forall r :: r in shown ==> NoProcess(r)
    requires SumMemory(shown + now) == SumMemory(rows)
    ensures Conserves(processRows, rows, limit, shown + now)
  {
  }

  lemma ShownConserves(x: Inputs, rows: Rows, st: State, listing: Rows, limit: nat)
    requires Sound(x, rows) && Safe(x, rows, st, x.tel.Keys, x.srcs.Keys) && IsListing(st.logical, listing)
    ensures |Truncated(listing, limit)| <= limit && |st.rows| == |rows|
    ensures forall r :: r in Truncated(listing, limit) ==> NoProcess(r)
    ensures forall i :: 0 <= i < |rows| ==> SameProcess(st.rows[i], rows[i])
    ensures SumMemory(Truncated(listing, limit) + st.rows) == SumMemory(rows)
  {
    ListingKeys(x, rows, st, listing);
    var shown := Truncated(listing, limit);
    forall r | r in shown ensures r in listing {}
    SumMemoryNone(shown);
    SumOfConcat(MemoryOf, shown, st.rows);
    SumMemorySame(st.rows, rows);
  }

  /** The logical rows of the composed list: all rows before the process rows. */
  function ShownLogical(x: Inputs, rows: Rows, limit: nat, c: Choices): Rows
    requires InRange(x, Start(x, rows))
  {
    Shown(x, rows, limit, c)[..|Shown(x, rows, limit, c)| - |rows|]
  }

  /** A logical session that the limit cuts off is no newer than any logical row shown. */
  lemma DroppedNotNewer(x: Inputs, rows: Rows, limit: nat, c: Choices, k: string, r: SessionSnapshot)
    requires WellFormed(x, rows) && Arranged(x, rows, c) && k in Final(x, rows, c).logical
    requires Final(x, rows, c).logical[k] !in ShownLogical(x, rows, limit, c)
    requires r in ShownLogical(x, rows, limit, c)
    ensures Final(x, rows, c).logical[k].session.lastActivityAt <= r.session.lastActivityAt
    ensures |ShownLogical(x, rows, limit, c)| == limit
  {
    SafeComposition(x, rows, c);
    assert ShownLogical(x, rows, limit, c) == Truncated(c.listing, limit);
    InListing(x, rows, Final(x, rows, c), c.listing, k);
    CutOff(c.listing, limit, Final(x, rows, c).logical[k], r);
  }

  lemma InListing(x: Inputs, rows: Rows, st: State, listing: Rows, k: string)
    requires Sound(x, rows) && Safe(x, rows, st, x.tel.Keys, x.srcs.Keys) && IsListing(st.logical, listing)
    requires k in st.logical
    ensures st.logical[k] in listing
  {
    LogicalRow(x, k, k in x.srcs.Keys);
  }

  lemma CutOff(listing: Rows, limit: nat, dropped: SessionSnapshot, r: SessionSnapshot)
    requires SortedBy(listing, LogicalLess) && dropped in listing
    requires dropped !in Truncated(listing, limit) && r in Truncated(listing, limit)
    ensures dropped.session.lastActivityAt <= r.session.lastActivityAt && |Truncated(listing, limit)| == limit
  {
    var shown := Truncated(listing, limit);
    var j :| 0 <= j < |listing| && listing[j] == dropped;
    var i :| 0 <= i < |shown| && shown[i] == r;
    OutsidePrefix(listing, |shown|, j);
    assert !LogicalLess(listing[j], listing[i]);
  }

  // ------------------------------------------------------------ list order --

  /** The text a row is ordered by comes first: "none", then "owned", then "shared". */
  function ScopeRank(s: ResourceScope): nat {
    match s
    case NoResources => 0
    case Owned => 1
    case Shared => 2
  }

  lemma ScopeRanks(a: ResourceScope, b: ResourceScope)
    ensures TextLess(ScopeText(a), ScopeText(b)) <==> ScopeRank(a) < ScopeRank(b)
  {
    assert TextLess("none", "owned") && TextLess("owned", "shared") && TextLess("none", "shared");
    TextLessTotal(ScopeText(a), ScopeText(b));
    assert ScopeText(a) in {"none", "owned", "shared"} && ScopeText(b) in {"none", "owned", "shared"};
  }

  /** a is not listed after b: scope, then project, agent and ID decide. */
  predicate InRowOrder(a: SessionSnapshot, b: SessionSnapshot) {
    var s, t := a.session, b.session;
    var sameScope := a.resourceScope == b.resourceScope;
    var sameProject := sameScope && s.project == t.project;
    var sameAgent := sameProject && s.agent == t.agent;
    && ScopeRank(a.resourceScope) <= ScopeRank(b.resourceScope)
    && (sameScope ==> !TextLess(t.project, s.project))
    && (sameProject ==> !TextLess(t.agent, s.agent))
    && (sameAgent ==> !TextLess(t.id, s.id))
  }

  lemma RowLessIs(a: SessionSnapshot, b: SessionSnapshot)
    ensures !RowLess(b, a) <==> InRowOrder(a, b)
  {
    ScopeRanks(b.resourceScope, a.resourceScope);
    TextLessTotal(b.session.project, a.session.project);
    TextLessTotal(b.session.agent, a.session.agent);
  }

  /**
   * In the composed list the rows without a process come newest first; behind them come the
   * process rows, composed in the order of scope, project, agent and ID.
   */
  lemma ListOrder(processRows: Rows, x: Inputs, rows: Rows, limit: nat, c: Choices)
    requires SortedPermutation(processRows, rows, RowLess) && Arranged(x, rows, c)
    ensures var shown := Truncated(c.listing, limit);
            && Shown(x, rows, limit, c) == shown + Final(x, rows, c).rows
            && forall i, j :: 0 <= i < j < |shown| ==>
                 && shown[i].session.lastActivityAt >= shown[j].session.lastActivityAt
                 && (shown[i].session.lastActivityAt == shown[j].session.lastActivityAt ==>
                       InRowOrder(shown[i], shown[j]))
    ensures |Final(x, rows, c).rows| == |rows| && forall i, j :: 0 <= i < j < |rows| ==> InRowOrder(rows[i], rows[j])
  {
    forall i, j | 0 <= i < j < |rows| ensures InRowOrder(rows[i], rows[j]) { RowLessIs(rows[i], rows[j]); }
    var listing := c.listing;
    forall i, j | 0 <= i < j < |listing|
      ensures listing[i].session.lastActivityAt >= listing[j].session.lastActivityAt
      ensures listing[i].session.lastActivityAt == listing[j].session.lastActivityAt ==>
                InRowOrder(listing[i], listing[j])
    {
      RowLessIs(listing[i], listing[j]);
    }
  }

  // ------------------------------------------------------------------ homes --

  /**
   * A session's one home: a logical row of its own, or the process row the ID table
   * gives it. A logical row shows the transcript's usage when there is a recent
   * transcript and telemetry's otherwise, never both added up.
   */
  ghost predicate HasOneHome(x: Inputs, st: State, k: string) {
    && (k in st.logical <==> k !in st.byID)
    && (k in st.byID ==> st.byID[k] < |st.rows|)
    && (k in st.logical ==>
          && KeyOf(st.logical[k]) == k && NoProcess(st.logical[k])
          && ShowsLogical(st.logical[k], x.TelAt(k), x.SrcAt(k)))
  }

  lemma HomeFrom(x: Inputs, rows: Rows, st: State, k: string)
    requires Sound(x, rows) && Safe(x, rows, st, x.tel.Keys, x.srcs.Keys) && x.IsRecent(k)
    ensures HasOneHome(x, st, k)
  {
    assert Visited(x, x.tel.Keys, x.srcs.Keys, k);
    LogicalRow(x, k, k in x.srcs.Keys);
    LogicalShows(x, k);
  }

  /** Every recent session has exactly one home, whatever the map orders. */
  lemma OneHome(x: Inputs, rows: Rows, c: Choices, k: string)
    requires WellFormed(x, rows) && Arranged(x, rows, c) && x.IsRecent(k)
    ensures HasOneHome(x, Final(x, rows, c), k)
  {
    SafeComposition(x, rows, c);
    HomeFrom(x, rows, Final(x, rows, c), k);
  }

  // ------------------------------------------------------- shared rows' names --

  /** Some recent telemetry session carries the row's launch ID. */
  ghost predicate LaunchNamed(x: Inputs, i: nat) {
    exists k :: x.TelAt(k).Some? && LaunchLinks(x, x.tel[k]) && x.index.byLaunch[LaunchOfSession(x.tel[k])] == i
  }

  ghost predicate NamesKept(x: Inputs, rows: Rows, st: State) {
    |st.rows| == |rows| && forall i: nat :: i < |rows| && rows[i].resourceScope != Owned && !LaunchNamed(x, i) ==>
      st.rows[i].session.id == rows[i].session.id
  }

  lemma TelemetryKeepsNames(x: Inputs, rows: Rows, st: State, k: string)
    requires Sound(x, rows) && InRange(x, st) && RowsKept(st, rows) && NamesKept(x, rows, st)
    ensures NamesKept(x, rows, TelemetryStep(x, st, k))
  {
    var t := x.TelAt(k);
    if t.Some? {
      var m := FindRow(x, st, t.value, k);
      MatchedAgent(x, rows, st, t.value, k);
      if m.Matched? {
        assert SameProcess(st.rows[m.row], rows[m.row]);
        TakeTelemetryRow(st.rows[m.row], t.value, m.grade);
        assert m.grade == ByLaunch ==> LaunchNamed(x, m.row);
      }
    }
  }

  lemma TranscriptKeepsNames(x: Inputs, rows: Rows, st: State, k: string)
    requires Sound(x, rows) && InRange(x, st) && RowsKept(st, rows) && NamesKept(x, rows, st)
    ensures NamesKept(x, rows, TranscriptStep(x, st, k))
  {
    var s := x.SrcAt(k);
    if s.Some? {
      if k in st.byID {
        MergeTranscriptRow(st.rows[st.byID[k]], s.value);
      } else if k in x.probable {
        assert SoundGuess(x, rows, k);
      }
    }
  }

  lemma {:induction false} RunTelemetryKeepsNames(x: Inputs, rows: Rows, st: State, order: seq<string>)
    requires Sound(x, rows) && Safe(x, rows, st, {}, {}) && NamesKept(x, rows, st)
    requires NoDup(order) && forall k :: k in order ==> k in x.tel
    ensures NamesKept(x, rows, RunTelemetry(x, st, order))
    decreases |order|
  {
    if order != [] {
      var init := order[..|order| - 1];
      SplitLast(order);
      RunTelemetryKeepsNames(x, rows, st, init);
      RunTelemetrySafe(x, rows, st, init);
      TelemetryKeepsNames(x, rows, RunTelemetry(x, st, init), order[|order| - 1]);
    }
  }

  lemma {:induction false} RunTranscriptsKeepsNames(x: Inputs, rows: Rows, st: State, order: seq<string>)
    requires Sound(x, rows) && Safe(x, rows, st, x.tel.Keys, {}) && NamesKept(x, rows, st)
    requires NoDup(order) && forall k :: k in order ==> k in x.srcs
    ensures NamesKept(x, rows, RunTranscripts(x, st, order))
    decreases |order|
  {
    if order != [] {
      var init := order[..|order| - 1];
      SplitLast(order);
      RunTranscriptsKeepsNames(x, rows, st, init);
      RunTranscriptsSafe(x, rows, st, init);
      TranscriptKeepsNames(x, rows, RunTranscripts(x, st, init), order[|order| - 1]);
    }
  }

  /** A shared row keeps its name unless a recent session carries its very launch ID. */
  lemma SharedKeepsName(x: Inputs, rows: Rows, telOrder: seq<string>, srcOrder: seq<string>)
    requires WellFormed(x, rows) && OrderOf(telOrder, x.tel.Keys) && OrderOf(srcOrder, x.srcs.Keys)
    ensures InRange(x, Start(x, rows)) && NamesKept(x, rows, RunBoth(x, rows, telOrder, srcOrder))
  {
    WellFormedIsSound(x, rows);
    StartSafe(x, rows);
    OrderKeys(telOrder, x.tel.Keys);
    OrderKeys(srcOrder, x.srcs.Keys);
    var st := Start(x, rows);
    RunTelemetryKeepsNames(x, rows, st, telOrder);
    RunTelemetrySafe(x, rows, st, telOrder);
    RunTranscriptsKeepsNames(x, rows, RunTelemetry(x, st, telOrder), srcOrder);
  }

  // ------------------------------------------------------- order independence --

  lemma ListingUnique(logical: map<string, SessionSnapshot>, a: Rows, b: Rows)
    requires IsListing(logical, a) && IsListing(logical, b)
    ensures a == b
  {
    NoDupSameMultiset(a, b);
    forall i, j | 0 <= i < j < |a| ensures KeyOf(a[i]) != KeyOf(a[j]) {
      assert a[i] in a && a[j] in a;
    }
    KeysApartSeparates(a);
    SortedUnique(a, b, multiset(a), LogicalLess);
  }

  lemma SortedRowsUnique(processRows: Rows, a: Rows, b: Rows)
    requires KeysApart(a)
    requires SortedPermutation(processRows, a, RowLess) && SortedPermutation(processRows, b, RowLess)
    ensures a == b
  {
    KeysApartSeparates(a);
    SortedUnique(a, b, multiset(a), RowLess);
  }

  /** Uncontended sessions: the orders of the two maps cannot be seen in the composed list. */
  lemma VisitOrderIrrelevant(x: Inputs, rows: Rows, limit: nat, c: Choices, d: Choices)
    requires WellFormed(x, rows) && Uncontended(x, rows)
    requires Arranged(x, rows, c) && Arranged(x, rows, d)
    ensures Shown(x, rows, limit, c) == Shown(x, rows, limit, d)
  {
    UncontendedIsFree(x, rows, c.telOrder, d.telOrder, c.srcOrder, d.srcOrder);
    ListingUnique(Final(x, rows, c).logical, c.listing, d.listing);
  }

  /**
   * For uncontended sessions the composed list is one and the same sequence for every
   * sorted order of the rows and every order of the two maps, positions and cut-off
   * included.
   */
  lemma OrderIrrelevant(
      processRows: Rows, x: Inputs, limit: nat, rows: Rows, c: Choices, rows': Rows, d: Choices)
    requires SortedPermutation(processRows, rows, RowLess) && SortedPermutation(processRows, rows', RowLess)
    requires WellFormed(x, rows) && Uncontended(x, rows)
    requires Arranged(x, rows, c) && Arranged(x, rows', d)
    ensures Shown(x, rows, limit, c) == Shown(x, rows', limit, d)
  {
    SortedRowsUnique(processRows, rows, rows');
    VisitOrderIrrelevant(x, rows, limit, c, d);
  }
}
