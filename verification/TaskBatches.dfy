/**
 * How the task table is kept in files: each published plan is one batch file, later changes are
 * one snapshot per task that overrides the batch row. Publication is one file, so a plan is
 * visible as a whole or not at all.
 */
module TaskBatches {
  import opened Options
  import opened CoordTask
  import opened CoordProtocol

  /** Batches in the order of their file names, which says nothing about their age. */
  datatype Files = Files(batches: seq<seq<Task>>, snapshots: map<string, Task>)

  function Rows(batches: seq<seq<Task>>): seq<Task> {
    if batches == [] then [] else Rows(batches[..|batches| - 1]) + batches[|batches| - 1]
  }

  /** The rows by id; None when an id occurs twice. */
  function LoadRows(rows: seq<Task>): Option<map<string, Task>> {
    if rows == [] then Some(map[])
    else match LoadRows(rows[..|rows| - 1])
      case None => None
      case Some(m) => if rows[|rows| - 1].id in m then None else Some(m[rows[|rows| - 1].id := rows[|rows| - 1]])
  }

  /** The task table, unless the batches are damaged. */
  function Table(f: Files): Option<map<string, Task>> {
    match LoadRows(Rows(f.batches)) case None => None case Some(m) => Some(m + f.snapshots)
  }

  /** One task: its snapshot, otherwise its batch row. */
  function LoadTask(f: Files, id: string): Option<Task> {
    if id in f.snapshots then Some(f.snapshots[id])
    else match LoadRows(Rows(f.batches))
      case None => None
      case Some(m) => if id in m then Some(m[id]) else None
  }

  function PublishAt(f: Files, at: nat, drafts: seq<Task>): Files
    requires at <= |f.batches|
  {
    f.(batches := f.batches[..at] + [drafts] + f.batches[at..])
  }

  ghost predicate DistinctIds(rows: seq<Task>) {
    forall i, j | 0 <= i < j < |rows| :: rows[i].id != rows[j].id
  }

  ghost predicate IsIndex(m: map<string, Task>, rows: seq<Task>) {
    && (forall i | 0 <= i < |rows| :: rows[i].id in m && m[rows[i].id] == rows[i])
    && (forall k | k in m :: exists i :: 0 <= i < |rows| && rows[i].id == k)
  }

  lemma IndexGrows(m: map<string, Task>, rows: seq<Task>, t: Task)
    requires IsIndex(m, rows) && t.id !in m
    ensures IsIndex(m[t.id := t], rows + [t])
  {
    var more := rows + [t];
    assert more[|rows|] == t && forall i | 0 <= i < |rows| :: more[i] == rows[i];
    forall k | k in m || k == t.id ensures exists i :: 0 <= i < |more| && more[i].id == k {
      if k == t.id {
        assert more[|rows|].id == k;
      } else {
        var i :| 0 <= i < |rows| && rows[i].id == k;
        assert more[i].id == k;
      }
    }
  }

  lemma DistinctGrows(m: map<string, Task>, rows: seq<Task>, t: Task)
    requires IsIndex(m, rows) && DistinctIds(rows)
    ensures DistinctIds(rows + [t]) <==> t.id !in m
  {
    var more := rows + [t];
    assert more[|rows|] == t && forall i | 0 <= i < |rows| :: more[i] == rows[i];
    if t.id in m {
      var i :| 0 <= i < |rows| && rows[i].id == t.id;
      assert more[i].id == more[|rows|].id;
    }
  }

  /** Loading succeeds exactly when no id occurs twice. */
  lemma {:induction false} LoadsIff(rows: seq<Task>)
    ensures LoadRows(rows).Some? <==> DistinctIds(rows)
    ensures LoadRows(rows).Some? ==> IsIndex(LoadRows(rows).value, rows)
  {
    if rows != [] {
      var front, t := rows[..|rows| - 1], rows[|rows| - 1];
      LoadsIff(front);
      assert rows == front + [t];
      if LoadRows(front).Some? {
        var m := LoadRows(front).value;
        DistinctGrows(m, front, t);
        hide DistinctIds, IsIndex;
        if t.id !in m {
          IndexGrows(m, front, t);
        }
      } else {
        hide LoadRows;
        assert forall i | 0 <= i < |front| :: rows[i] == front[i];
      }
    }
  }

  lemma {:induction false} RowsSplit(a: seq<seq<Task>>, b: seq<seq<Task>>)
    ensures Rows(a + b) == Rows(a) + Rows(b)
  {
    if b == [] {
      assert a + b == a;
    } else {
      var n := |b| - 1;
      RowsSplit(a, b[..n]);
      assert (a + b)[..|a + b| - 1] == a + b[..n] && (a + b)[|a + b| - 1] == b[n];
      assert Rows(a + b) == Rows(a + b[..n]) + b[n] && Rows(b) == Rows(b[..n]) + b[n];
      hide Rows;
    }
  }

  lemma {:induction false} Drafted(tasks: map<string, Task>, drafts: seq<Task>, k: string)
    requires DistinctIds(drafts)
    ensures k in WithDrafts(tasks, drafts) <==> k in tasks || exists i :: 0 <= i < |drafts| && drafts[i].id == k
    ensures k in tasks && (forall i | 0 <= i < |drafts| :: drafts[i].id != k) ==>
      k in WithDrafts(tasks, drafts) && WithDrafts(tasks, drafts)[k] == tasks[k]
    ensures forall i | 0 <= i < |drafts| && drafts[i].id == k ::
      k in WithDrafts(tasks, drafts) && WithDrafts(tasks, drafts)[k] == drafts[i]
  {
    if drafts != [] {
      var n := |drafts| - 1;
      Drafted(tasks, drafts[..n], k);
      assert forall i | 0 <= i < n :: drafts[..n][i] == drafts[i];
    }
  }

  lemma InsertIndex(m: map<string, Task>, x: map<string, Task>, front: seq<Task>, drafts: seq<Task>, back: seq<Task>,
      k: string)
    requires IsIndex(m, front + back) && IsIndex(x, front + drafts + back)
    ensures k in x <==> k in m || exists i :: 0 <= i < |drafts| && drafts[i].id == k
    ensures k in m ==> k in x && x[k] == m[k]
    ensures forall i | 0 <= i < |drafts| :: drafts[i].id in x && x[drafts[i].id] == drafts[i]
  {
    var rows, all := front + back, front + drafts + back;
    forall i | 0 <= i < |rows| ensures rows[i].id in x && x[rows[i].id] == rows[i] {
      assert rows[i] == all[if i < |front| then i else i + |drafts|];
    }
    forall i | 0 <= i < |drafts| ensures drafts[i].id in x && x[drafts[i].id] == drafts[i] {
      assert drafts[i] == all[|front| + i];
    }
    if k in x {
      var j :| 0 <= j < |all| && all[j].id == k;
      if j < |front| {
        assert rows[j].id == k;
      } else if j < |front| + |drafts| {
        assert drafts[j - |front|].id == k;
      } else {
        assert rows[j - |drafts|].id == k;
      }
    }
  }

  /** Publishing new drafts adds exactly them, wherever their file comes in the listing. */
  lemma PublishAddsBatch(f: Files, at: nat, drafts: seq<Task>)
    requires at <= |f.batches| && Table(f).Some? && DistinctIds(drafts)
    requires forall i | 0 <= i < |drafts| :: drafts[i].id !in Table(f).value
    ensures Table(PublishAt(f, at, drafts)) == Some(WithDrafts(Table(f).value, drafts))
  {
    var front, back := Rows(f.batches[..at]), Rows(f.batches[at..]);
    RowsInserted(f.batches, at, drafts);
    LoadsIff(front + back);
    LoadsIff(front + drafts + back);
    var m := LoadRows(front + back).value;
    hide LoadRows, Rows, IsIndex, DistinctIds;
    StaysDistinct(front, drafts, back, m);
    SameTables(m, LoadRows(front + drafts + back).value, f.snapshots, front, drafts, back);
  }

  lemma RowsInserted(batches: seq<seq<Task>>, at: nat, drafts: seq<Task>)
    requires at <= |batches|
    ensures Rows(batches) == Rows(batches[..at]) + Rows(batches[at..])
    ensures Rows(batches[..at] + [drafts] + batches[at..]) == Rows(batches[..at]) + drafts + Rows(batches[at..])
  {
    assert batches == batches[..at] + batches[at..];
    RowsSplit(batches[..at], batches[at..]);
    RowsSplit(batches[..at] + [drafts], batches[at..]);
    RowsSplit(batches[..at], [drafts]);
    assert [drafts][..0] == [] && Rows([drafts]) == drafts;
  }

  lemma StaysDistinct(front: seq<Task>, drafts: seq<Task>, back: seq<Task>, m: map<string, Task>)
    requires DistinctIds(front + back) && DistinctIds(drafts) && IsIndex(m, front + back)
    requires forall i | 0 <= i < |drafts| :: drafts[i].id !in m
    ensures DistinctIds(front + drafts + back)
  {
    var rows, all := front + back, front + drafts + back;
    forall i, j | 0 <= i < j < |all| ensures all[i].id != all[j].id {
      var a, b := |front|, |front| + |drafts|;
      assert i < a ==> all[i] == rows[i];
      assert a <= i < b ==> all[i] == drafts[i - a];
      assert i >= b ==> all[i] == rows[i - |drafts|];
      assert j < a ==> all[j] == rows[j];
      assert a <= j < b ==> all[j] == drafts[j - a];
      assert j >= b ==> all[j] == rows[j - |drafts|];
    }
  }

  lemma SameTables(m: map<string, Task>, x: map<string, Task>, snapshots: map<string, Task>, front: seq<Task>,
      drafts: seq<Task>, back: seq<Task>)
    requires IsIndex(m, front + back) && IsIndex(x, front + drafts + back) && DistinctIds(drafts)
    requires forall i | 0 <= i < |drafts| :: drafts[i].id !in m + snapshots
    ensures x + snapshots == WithDrafts(m + snapshots, drafts)
  {
    hide WithDrafts, IsIndex, DistinctIds;
    var t, u := WithDrafts(m + snapshots, drafts), x + snapshots;
    forall k
      ensures k in u <==> k in t
      ensures k in t ==> t[k] == u[k]
    {
      SameEntry(m, x, snapshots, front, drafts, back, k);
    }
  }

  lemma SameEntry(m: map<string, Task>, x: map<string, Task>, snapshots: map<string, Task>, front: seq<Task>,
      drafts: seq<Task>, back: seq<Task>, k: string)
    requires IsIndex(m, front + back) && IsIndex(x, front + drafts + back) && DistinctIds(drafts)
    requires forall i | 0 <= i < |drafts| :: drafts[i].id !in m + snapshots
    ensures k in x + snapshots <==> k in WithDrafts(m + snapshots, drafts)
    ensures k in WithDrafts(m + snapshots, drafts) ==> WithDrafts(m + snapshots, drafts)[k] == (x + snapshots)[k]
  {
    hide WithDrafts, IsIndex, DistinctIds;
    Drafted(m + snapshots, drafts, k);
    InsertIndex(m, x, front, drafts, back, k);
  }

  /** Saving a task's snapshot changes that task and no other. */
  lemma SnapshotOverrides(f: Files, t: Task)
    requires Table(f).Some?
    ensures Table(f.(snapshots := f.snapshots[t.id := t])) == Some(Table(f).value[t.id := t])
  {
    var m := LoadRows(Rows(f.batches)).value;
    assert m + f.snapshots[t.id := t] == (m + f.snapshots)[t.id := t];
  }

  /** Reading one task and reading the table agree. */
  lemma OneTaskAgrees(f: Files, id: string)
    requires Table(f).Some?
    ensures LoadTask(f, id) == if id in Table(f).value then Some(Table(f).value[id]) else None
  {
  }

  lemma Extend(a: seq<Task>, rows: seq<Task>, j: nat)
    requires j < |rows| && LoadRows(a + rows[..j]).Some?
    ensures var m := LoadRows(a + rows[..j]).value;
      LoadRows(a + rows[..j + 1]) == if rows[j].id in m then None else Some(m[rows[j].id := rows[j]])
  {
    var more := a + rows[..j + 1];
    assert more[..|more| - 1] == a + rows[..j] && more[|more| - 1] == rows[j];
  }

  /** What was damaged stays damaged however much follows. */
  lemma PrefixFails(front: seq<Task>, rows: seq<Task>)
    requires front <= rows && LoadRows(front).None?
    ensures LoadRows(rows).None?
  {
    LoadsIff(front);
    LoadsIff(rows);
    hide LoadRows;
    assert forall i | 0 <= i < |front| :: rows[i] == front[i];
  }

  lemma StartsWith(batches: seq<seq<Task>>, i: nat, j: nat)
    requires i < |batches| && j < |batches[i]|
    ensures Rows(batches[..i]) + batches[i][..j + 1] <= Rows(batches)
  {
    RowsSplit(batches[..i + 1], batches[i + 1..]);
    assert batches == batches[..i + 1] + batches[i + 1..] && batches[..i + 1][..i] == batches[..i];
    assert Rows(batches[..i + 1]) == Rows(batches[..i]) + batches[i];
  }

  class BatchFiles {
    var batches: seq<seq<Task>>
    var snapshots: map<string, Task>

    ghost function View(): Files
      reads this
    {
      Files(batches, snapshots)
    }

    constructor ()
      ensures Table(View()) == Some(map[])
    {
      batches, snapshots := [], map[];
    }

    /** Reads batch after batch and row after row; an id met twice is an error. */
    method Load() returns (tasks: Option<map<string, Task>>)
      ensures tasks == LoadRows(Rows(batches))
    {
      var found: map<string, Task> := map[];
      for i := 0 to |batches|
        invariant LoadRows(Rows(batches[..i])) == Some(found)
      {
        var rows := batches[i];
        assert batches[..i + 1][..i] == batches[..i] && Rows(batches[..i]) + rows[..0] == Rows(batches[..i]);
        for j := 0 to |rows|
          invariant LoadRows(Rows(batches[..i]) + rows[..j]) == Some(found)
        {
          Extend(Rows(batches[..i]), rows, j);
          if rows[j].id in found {
            StartsWith(batches, i, j);
            PrefixFails(Rows(batches[..i]) + rows[..j + 1], Rows(batches));
            return None;
          }
          found := found[rows[j].id := rows[j]];
        }
        assert rows[..|rows|] == rows;
      }
      assert batches[..|batches|] == batches;
      tasks := Some(found);
    }

    /** One new file. */
    method Publish(at: nat, drafts: seq<Task>)
      requires at <= |batches| && Table(View()).Some? && DistinctIds(drafts)
      requires forall i | 0 <= i < |drafts| :: drafts[i].id !in Table(View()).value
      modifies this`batches
      ensures Table(View()) == Some(WithDrafts(old(Table(View())).value, drafts))
    {
      PublishAddsBatch(View(), at, drafts);
      batches := batches[..at] + [drafts] + batches[at..];
    }

    method Save(t: Task)
      requires Table(View()).Some?
      modifies this`snapshots
      ensures Table(View()) == Some(old(Table(View())).value[t.id := t])
    {
      SnapshotOverrides(View(), t);
      snapshots := snapshots[t.id := t];
    }
  }
}
