// The lookup tables that composeSessionsLocked fills mean what Composition.IsIndex says:
// a key, a launch key or a pid belongs to the last row that has it.
module RowTables {
  import opened Base
  import opened Composition
  import opened Matching
  import opened Model
  import opened ProcessTree

  lemma {:induction false} AddProcessesAt(x: RowIndex, procs: seq<Process>, i: nat, p: int)
    requires p in x.owner <==> p in x.started
    ensures var y := AddProcesses(x, procs, i);
            && (p in y.owner <==> p in y.started) && y.byID == x.byID && y.byLaunch == x.byLaunch
            && (if Lists(procs, p) then p in y.owner && y.owner[p] == i && y.started[p] == StartIn(procs, p)
                else (p in y.owner <==> p in x.owner) &&
                     (p in y.owner ==> y.owner[p] == x.owner[p] && y.started[p] == x.started[p]))
    decreases |procs|
  {
    if procs != [] {
      var init, q := procs[..|procs| - 1], procs[|procs| - 1];
      assert procs == init + [q];
      AddProcessesAt(x, init, i, p);
      assert q in procs;
      if q.pid != p && Lists(procs, p) {
        var r :| r in procs && r.pid == p;
        assert r in init;
      }
      assert forall r :: r in init ==> r in procs;
    }
  }

  /** The index of the rows so far, with the next row's own keys. */
  function Named(rows: Rows, row: SessionSnapshot): RowIndex {
    var x := IndexRows(rows);
    x.(byID := x.byID[KeyOf(row) := |rows|],
       byLaunch := if row.session.launchID != "" then x.byLaunch[LaunchKey(row) := |rows|] else x.byLaunch)
  }

  /** processByPID and processStartByPID point at the last row that shows a pid, and at its start there. */
  lemma {:induction false} OwnerIsLastHolder(rows: Rows, p: int)
    ensures var x := IndexRows(rows);
            && (p in x.owner <==> p in x.started)
            && (p in x.owner <==> exists i: nat :: LastHolder(rows, p, i))
            && (p in x.owner ==>
                  LastHolder(rows, p, x.owner[p]) &&
                  x.started[p] == StartIn(Flatten(rows[x.owner[p]].processTree), p))
    decreases |rows|
  {
    if rows != [] {
      var n := |rows| - 1;
      var init, row := rows[..n], rows[n];
      OwnerIsLastHolder(init, p);
      AddProcessesAt(Named(init, row), Flatten(row.processTree), n, p);
      if Lists(Flatten(row.processTree), p) {
        assert LastHolder(rows, p, n);
      } else if p in IndexRows(init).owner {
        assert LastHolder(rows, p, IndexRows(init).owner[p]);
      } else if i: nat :| LastHolder(rows, p, i) {
        assert LastHolder(init, p, i);
      }
    }
  }

  /** processByLaunch points at the last row with a launch ID. */
  lemma {:induction false} LaunchIsLatest(rows: Rows, k: string)
    ensures var x := IndexRows(rows);
            && (k in x.byLaunch <==> exists i: nat :: LastLaunch(rows, k, i))
            && (k in x.byLaunch ==> LastLaunch(rows, k, x.byLaunch[k]))
    decreases |rows|
  {
    if rows != [] {
      var n := |rows| - 1;
      var init, row := rows[..n], rows[n];
      LaunchIsLatest(init, k);
      OwnerIsLastHolder(init, 0);
      AddProcessesAt(Named(init, row), Flatten(row.processTree), n, 0);
      if row.session.launchID != "" && LaunchKey(row) == k {
        assert LastLaunch(rows, k, n);
      } else if k in IndexRows(init).byLaunch {
        assert LastLaunch(rows, k, IndexRows(init).byLaunch[k]);
      } else if i: nat :| LastLaunch(rows, k, i) {
        assert LastLaunch(init, k, i);
      }
    }
  }

  /** processByID points at the last row with a key. */
  lemma {:induction false} KeyIsLatest(rows: Rows, k: string)
    ensures var x := IndexRows(rows);
            && (k in x.byID <==> exists i: nat :: LastKeyed(rows, k, i))
            && (k in x.byID ==> LastKeyed(rows, k, x.byID[k]))
    decreases |rows|
  {
    if rows != [] {
      var n := |rows| - 1;
      var init, row := rows[..n], rows[n];
      KeyIsLatest(init, k);
      OwnerIsLastHolder(init, 0);
      AddProcessesAt(Named(init, row), Flatten(row.processTree), n, 0);
      if KeyOf(row) == k {
        assert LastKeyed(rows, k, n);
      } else if k in IndexRows(init).byID {
        assert LastKeyed(rows, k, IndexRows(init).byID[k]);
      } else if i: nat :| LastKeyed(rows, k, i) {
        assert LastKeyed(init, k, i);
      }
    }
  }

  lemma IndexRowsIsIndex(rows: Rows)
    ensures IsIndex(IndexRows(rows), rows)
  {
    var x := IndexRows(rows);
    forall k
      ensures k in x.byID ==> LastKeyed(rows, k, x.byID[k])
      ensures k in x.byLaunch ==> LastLaunch(rows, k, x.byLaunch[k])
      ensures forall i: nat :: LastKeyed(rows, k, i) ==> k in x.byID
      ensures forall i: nat :: LastLaunch(rows, k, i) ==> k in x.byLaunch
    {
      KeyIsLatest(rows, k);
      LaunchIsLatest(rows, k);
    }
    forall p
      ensures p in x.owner <==> p in x.started
      ensures p in x.owner ==>
                LastHolder(rows, p, x.owner[p]) && x.started[p] == StartIn(Flatten(rows[x.owner[p]].processTree), p)
      ensures forall i: nat :: LastHolder(rows, p, i) ==> p in x.owner
    {
      OwnerIsLastHolder(rows, p);
    }
  }

  lemma OwnersAgree(rows: Rows, a: RowIndex, b: RowIndex, p: int)
    requires IsIndex(a, rows) && IsIndex(b, rows) && p in a.owner
    ensures p in b.owner && b.owner[p] == a.owner[p] && b.started[p] == a.started[p]
  {
    var i := a.owner[p];
    assert LastHolder(rows, p, i);
    var j := b.owner[p];
    assert LastHolder(rows, p, j);
    assert i == j;
  }

  /** The meaning determines the tables. */
  lemma IsIndexUnique(rows: Rows, a: RowIndex, b: RowIndex)
    requires IsIndex(a, rows) && IsIndex(b, rows)
    ensures a == b
  {
    assert a.byID == b.byID;
    assert a.byLaunch == b.byLaunch;
    forall p ensures p in a.owner <==> p in b.owner
      ensures p in a.owner ==> a.owner[p] == b.owner[p] && a.started[p] == b.started[p]
    {
      if p in a.owner { OwnersAgree(rows, a, b, p); }
      if p in b.owner { OwnersAgree(rows, b, a, p); }
    }
    assert a.owner == b.owner;
    assert a.started == b.started;
  }
}
