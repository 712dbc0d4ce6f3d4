/**
 The record store, and the private record list of a worker that `updateRecord` and `rollback` work on.
 */
module Storage {
  import opened Options
  import opened Validator

  /** A record as it was when the transaction read it, and whether the transaction has overwritten it since. */
  datatype Saved = Saved(index: nat, value: int, isUpdated: bool)

  // ---------- the bookkeeping, as functions ----------

  /** The first entry for record `index`, or `|saved|` when there is none. */
  function Find(saved: seq<Saved>, index: nat): (n: nat)
    ensures n <= |saved|
    ensures n < |saved| ==> saved[n].index == index
    ensures forall m :: 0 <= m < n ==> saved[m].index != index
  {
    if saved == [] then 0 else if saved[0].index == index then 0 else 1 + Find(saved[1..], index)
  }

  /** The list after `updateRecord(index, _)` when the store holds `current` there. */
  function MarkUpdated(saved: seq<Saved>, index: nat, current: int): (res: seq<Saved>) {
    var n := Find(saved, index);
    if n < |saved| then saved[n := saved[n].(isUpdated := true)] else saved + [Saved(index, current, true)]
  }

  function UndoOne(values: seq<int>, entry: Saved): (res: seq<int>)
    requires entry.index < |values|
    ensures |res| == |values|
  {
    if entry.isUpdated then values[entry.index := entry.value] else values
  }

  ghost predicate Indexed(saved: seq<Saved>, n: nat) {
    forall m :: 0 <= m < |saved| ==> saved[m].index < n
  }

  function UndoAll(values: seq<int>, saved: seq<Saved>): (res: seq<int>)
    requires Indexed(saved, |values|)
    ensures |res| == |values|
  {
    if saved == [] then values
    else UndoOne(UndoAll(values, saved[..|saved|-1]), saved[|saved|-1])
  }

  /** Each record is saved at most once. */
  ghost predicate DistinctRecords(saved: seq<Saved>) {
    forall a, b :: 0 <= a < b < |saved| ==> saved[a].index != saved[b].index
  }

  /** What `rollback` leaves in every record: the saved value where the transaction wrote, nothing new elsewhere. */
  lemma {:induction false} UndoAllAt(values: seq<int>, saved: seq<Saved>, r: nat)
    requires Indexed(saved, |values|) && DistinctRecords(saved) && r < |values|
    ensures var n := Find(saved, r);
      UndoAll(values, saved)[r] == if n < |saved| && saved[n].isUpdated then saved[n].value else values[r]
  {
    if saved != [] {
      var front := saved[..|saved|-1];
      UndoAllAt(values, front, r);
      var n, m := Find(saved, r), Find(front, r);
      if n < |front| { assert front[n].index == r; }
      if m < |front| { assert saved[m].index == r; }
    }
  }

  /** An entry that is not marked still holds the value in the store. */
  ghost predicate Faithful(values: seq<int>, saved: seq<Saved>) {
    forall m :: 0 <= m < |saved| && saved[m].index < |values| && !saved[m].isUpdated
      ==> saved[m].value == values[saved[m].index]
  }

  lemma MarkKeeps(values: seq<int>, saved: seq<Saved>, index: nat, value: int)
    requires Indexed(saved, |values|) && DistinctRecords(saved) && Faithful(values, saved) && index < |values|
    ensures var saved' := MarkUpdated(saved, index, values[index]);
      Indexed(saved', |values|) && DistinctRecords(saved') && Faithful(values[index := value], saved')
  {
    var saved' := MarkUpdated(saved, index, values[index]);
    assert forall m :: 0 <= m < |saved| ==> saved'[m].index == saved[m].index;
    forall m | 0 <= m < |saved'| && saved'[m].index < |values| && !saved'[m].isUpdated
      ensures saved'[m].value == values[index := value][saved'[m].index]
    {
      assert saved'[m] == saved[m];
    }
  }

  /** An update does not change what `rollback` would restore. */
  lemma UpdateKeepsOrigin(values: seq<int>, saved: seq<Saved>, index: nat, value: int)
    requires Indexed(saved, |values|) && DistinctRecords(saved) && Faithful(values, saved) && index < |values|
    ensures var saved' := MarkUpdated(saved, index, values[index]);
      && Indexed(saved', |values|) && DistinctRecords(saved') && Faithful(values[index := value], saved')
      && UndoAll(values[index := value], saved') == UndoAll(values, saved)
  {
    var saved' := MarkUpdated(saved, index, values[index]);
    MarkKeeps(values, saved, index, value);
    forall r: nat | r < |values|
      ensures UndoAll(values[index := value], saved')[r] == UndoAll(values, saved)[r]
    {
      UndoAllAt(values[index := value], saved', r);
      UndoAllAt(values, saved, r);
      FindMarked(saved, index, values[index], r);
    }
  }

  lemma FindMarked(saved: seq<Saved>, index: nat, current: int, r: nat)
    ensures Find(MarkUpdated(saved, index, current), r) ==
      if Find(saved, r) < |saved| || r == index then Find(saved, r) else |MarkUpdated(saved, index, current)|
  {
    var saved' := MarkUpdated(saved, index, current);
    var n, n' := Find(saved, r), Find(saved', r);
    assert forall m :: 0 <= m < |saved| ==> saved'[m].index == saved[m].index;
    if n < |saved| || r == index {
      assert saved'[n].index == r;
    }
  }

  // ---------- the objects ----------

  class Database {
    var records: seq<int>

    constructor (numRecords: nat)
      ensures records == InitialRecords(numRecords)
    {
      records := [];
      new;
      for i := 0 to numRecords
        invariant records == InitialRecords(i)
      {
        records := records + [DEFAULT_RECORD_VALUE];
      }
    }

    /** `None` stands for the thrown exception. */
    method Get(index: int) returns (value: Option<int>)
      ensures value == if 0 <= index < |records| then Some(records[index]) else None
    {
      if index >= |records| || index < 0 {
        return None;
      }
      return Some(records[index]);
    }

    /** `false` stands for the thrown exception. */
    method Set(index: int, value: int) returns (ok: bool)
      modifies this
      ensures ok == (0 <= index < |old(records)|)
      ensures records == if ok then old(records)[index := value] else old(records)
    {
      if index >= |records| || index < 0 {
        return false;
      }
      records := records[index := value];
      return true;
    }
  }

  class WorkerThread {
    const db: Database
    var saved: seq<Saved>

    ghost predicate Valid()
      reads this, db
    {
      Indexed(saved, |db.records|)
    }

    constructor (db: Database)
      ensures this.db == db && saved == [] && Valid()
    {
      this.db := db;
      saved := [];
    }

    method Prepare()
      modifies this
      ensures saved == [] && Valid()
    {
      saved := [];
    }

    method ReadRecord(index: nat) returns (value: Option<int>)
      requires Valid()
      modifies this
      ensures Valid()
      ensures value == if index < |db.records| then Some(db.records[index]) else None
      ensures saved == if index < |db.records| then old(saved) + [Saved(index, db.records[index], false)]
                         else old(saved)
    {
      value := db.Get(index);
      if value.Some? {
        saved := saved + [Saved(index, value.value, false)];
      }
    }

    method UpdateRecord(index: nat, value: int) returns (ok: bool)
      requires Valid()
      modifies this, db
      ensures Valid()
      ensures ok == (index < |old(db.records)|)
      ensures ok ==> saved == MarkUpdated(old(saved), index, old(db.records)[index])
      ensures ok ==> db.records == old(db.records)[index := value]
      ensures !ok ==> saved == old(saved) && db.records == old(db.records)
    {
      var idx := -1;
      var i := 0;
      while i < |saved|
        invariant 0 <= i <= |saved| && idx == -1
        invariant forall m :: 0 <= m < i ==> saved[m].index != index
      {
        if saved[i].index == index {
          idx := i;
          break;
        }
        i := i + 1;
      }
      if idx == -1 {
        idx := |saved|;
        var value := ReadRecord(index);
        if value.None? {
          return false;
        }
      }
      saved := saved[idx := saved[idx].(isUpdated := true)];
      ok := db.Set(index, value);
    }

    method Rollback()
      requires Valid()
      modifies db
      ensures Valid()
      ensures db.records == UndoAll(old(db.records), saved)
    {
      var i := 0;
      while i < |saved|
        invariant 0 <= i <= |saved|
        invariant |db.records| == |old(db.records)|
        invariant db.records == UndoAll(old(db.records), saved[..i])
      {
        assert saved[..i+1][..i] == saved[..i];
        if saved[i].isUpdated {
          var ok := db.Set(saved[i].index, saved[i].value);
        }
        i := i + 1;
      }
      assert saved[..i] == saved;
    }
  }
}
