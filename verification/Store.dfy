// The on-disk session history (internal/db/db.go): one record per sanitised session ID.
module Store {
  import opened Base
  import opened Model
  import opened Sorting

  /** A session with its memory high-water mark, as tracked in memory and as stored. */
  datatype Record = Record(session: Session, peak: U64)

  // ---------------------------------------------------------- record names --

  predicate IsSafe(c: char) {
    'a' <= c <= 'z' || 'A' <= c <= 'Z' || '0' <= c <= '9' || c == '-' || c == '_'
  }

  function FileName(id: string): string {
    seq(|id|, i requires 0 <= i < |id| => if IsSafe(id[i]) then id[i] else '_')
  }

  predicate AllSafe(id: string) {
    forall i :: 0 <= i < |id| ==> IsSafe(id[i])
  }

  /** Two IDs of safe characters, like those Biewer makes itself, never share a record. */
  lemma SafeNamesDiffer(a: string, b: string)
    requires AllSafe(a) && AllSafe(b) && FileName(a) == FileName(b)
    ensures a == b
  {
    assert FileName(a) == a && FileName(b) == b;
  }

  /** Every unsafe ID shares its record with some other ID, the safe one it is sanitised to. */
  lemma UnsafeNamesCollide(a: string)
    requires !AllSafe(a)
    ensures AllSafe(FileName(a)) && FileName(a) != a && FileName(FileName(a)) == FileName(a)
  {
  }

  /** No other ID whatever shares the record of an ID exactly if it is safe and has no underscore. */
  lemma OwnRecordExactly(a: string)
    ensures (forall b :: FileName(b) == FileName(a) ==> b == a) <==> AllSafe(a) && '_' !in a
  {
    if !AllSafe(a) {
      UnsafeNamesCollide(a);
    } else if '_' in a {
      var i :| 0 <= i < |a| && a[i] == '_';
      var b := a[i := '.'];
      assert FileName(b) == FileName(a) && b[i] != a[i];
    } else {
      forall b | FileName(b) == FileName(a) ensures b == a {
        forall i | 0 <= i < |b| ensures b[i] == a[i] {
          assert FileName(b)[i] == FileName(a)[i] == a[i];
          assert a[i] in a;
        }
      }
    }
  }

  /** A safe ID that shares its record all the same. */
  lemma UnderscoreShares()
    ensures AllSafe("a_b") && FileName("a_b") == FileName("a.b")
  {
    assert FileName("a.b") == ['a', '_', 'b'];
  }

  /** Letters, digits, '-' and '_' stay, anything else becomes '_'. */
  lemma NameExactly(id: string)
    ensures |FileName(id)| == |id|
    ensures forall i :: 0 <= i < |id| ==>
              var kept :=
                'a' <= id[i] <= 'z' || 'A' <= id[i] <= 'Z' || '0' <= id[i] <= '9' || id[i] == '-' || id[i] == '_';
              FileName(id)[i] == if kept then id[i] else '_'
  {
  }

  // ------------------------------------------------------------- the store --

  type Files = map<string, Record>

  function StoredPeak(files: Files, name: string): U64 {
    if name in files then files[name].peak else 0
  }

  function Higher(a: U64, b: U64): U64 { if a > b then a else b }

  /** The record written is the caller's copy; only the peak is merged with what was there. */
  function Upserted(files: Files, r: Record): Files {
    var name := FileName(r.session.id);
    files[name := Record(r.session, Higher(StoredPeak(files, name), r.peak))]
  }

  function NameOf(r: Record): string { FileName(r.session.id) }

  /** Every record is stored under its own session's name. */
  ghost predicate WellFiled(files: Files) {
    forall name :: name in files ==> FileName(files[name].session.id) == name
  }

  predicate StartedLater(a: Record, b: Record) { a.session.startedAt > b.session.startedAt }

  /** out lists the limit most recently started records (all, if limit is 0), latest first. */
  ghost predicate IsRecent(files: Files, limit: nat, out: seq<Record>) {
    && NoDup(out) && SortedBy(out, StartedLater)
    && (forall r :: r in out ==> r in files.Values)
    && |out| == (if limit > 0 && |files| > limit then limit else |files|)
    && forall r, s :: r in files.Values && r !in out && s in out ==> !StartedLater(r, s)
  }

  lemma StartedOrder()
    ensures WeakOrder(StartedLater)
  {
  }

  class DB {
    var files: Files

    constructor ()
      ensures files == map[]
    {
      files := map[];
    }

    method UpsertSession(s: Session, peakMemoryBytes: U64)
      modifies this
      ensures files == Upserted(old(files), Record(s, peakMemoryBytes))
    {
      var peak := peakMemoryBytes;
      var name := FileName(s.id);
      if name in files && files[name].peak > peak {
        peak := files[name].peak;
      }
      files := files[name := Record(s, peak)];
    }

    method RecentSessions(limit: nat) returns (out: seq<Record>)
      requires WellFiled(files)
      ensures IsRecent(files, limit, out)
    {
      StartedOrder();
      out := SortedValues(files, NameOf, StartedLater);
      ghost var all := out;
      if limit > 0 && |out| > limit {
        out := out[..limit];
      }
      Cut(files, all, limit);
    }
  }

  lemma Cut(files: Files, sorted: seq<Record>, limit: nat)
    requires WellFiled(files) && ListsValues(files, NameOf, sorted) && SortedBy(sorted, StartedLater)
    ensures IsRecent(files, limit, if limit > 0 && |sorted| > limit then sorted[..limit] else sorted)
  {
    var out := if limit > 0 && |sorted| > limit then sorted[..limit] else sorted;
    forall r ensures r in sorted <==> r in files.Values {
      if r in files.Values {
        var name :| name in files && files[name] == r;
      }
    }
    forall r, s | r in files.Values && r !in out && s in out ensures !StartedLater(r, s) {
      var i :| 0 <= i < |sorted| && sorted[i] == r;
      var j :| 0 <= j < |out| && out[j] == s;
      OutsidePrefix(sorted, |out|, i);
      assert !StartedLater(sorted[i], sorted[j]);
    }
  }

  /** Storing a copy never lowers any stored peak, and touches no other record. */
  lemma UpsertRaises(files: Files, r: Record, name: string)
    ensures StoredPeak(Upserted(files, r), name) >= StoredPeak(files, name)
    ensures FileName(r.session.id) == name ==> StoredPeak(Upserted(files, r), name) >= r.peak
    ensures FileName(r.session.id) != name ==> StoredPeak(Upserted(files, r), name) == StoredPeak(files, name)
    ensures StoredPeak(Upserted(files, r), name) in {StoredPeak(files, name), r.peak}
  {
  }

  /** The store after a list of copies has been written, one by one. */
  function UpsertedAll(files: Files, copies: seq<Record>): Files {
    if copies == [] then files else Upserted(UpsertedAll(files, copies[..|copies| - 1]), copies[|copies| - 1])
  }

  /** The records read back are the latest started, latest first. */
  lemma LatestStarted(files: Files, limit: nat, out: seq<Record>)
    requires IsRecent(files, limit, out)
    ensures forall i, j :: 0 <= i < j < |out| ==> out[i].session.startedAt >= out[j].session.startedAt
    ensures forall r, s :: r in files.Values && r !in out && s in out ==> r.session.startedAt <= s.session.startedAt
  {
  }
}
