/**
 The main results about the transaction engine, for any numbers of workers and records and every run.
 */
module Engine {
  import opened Options
  import opened Locks
  import opened Deadlock
  import opened Validator
  import opened Storage
  import opened Transactions
  import opened Serializability
  import opened Refusals

  // ---------- lock queues ----------

  /** The granted elements of a queue: a prefix, all readers unless it is one writer. */
  ghost predicate GrantedPart(q: Queue, n: nat) {
    && n <= |q|
    && (forall p :: 0 <= p < |q| ==> (!q[p].isBlocked <==> p < n))
    && ((forall p :: 0 <= p < n ==> q[p].isReader) || n == 1)
  }

  lemma {:induction false} QueueGrantedPart(q: Queue, p: nat) returns (n: nat)
    requires GrantsOk(q) && p <= |q|
    requires forall i :: 0 <= i < p ==> !q[i].isBlocked
    ensures GrantedPart(q, n)
    decreases |q| - p
  {
    if p < |q| && !q[p].isBlocked {
      n := QueueGrantedPart(q, p + 1);
    } else {
      n := p;
      forall i: nat | p <= i < |q| ensures q[i].isBlocked {
        if !q[i].isBlocked { GrantedPrefix(q, i, p); }
      }
      if p > 1 { forall i: nat | i < p ensures q[i].isReader { GrantedPrefix(q, p - 1, i); } }
    }
  }

  /** In every reachable state, in every queue: no thread occurs twice, and the granted elements are as described
      above. */
  lemma LockQueues(run: seq<State>, numWorkers: nat, numRecords: nat, last: nat, n: nat, r: nat)
    requires Run(run, numWorkers, numRecords, last) && n < |run| && r < numRecords
    ensures |run[n].table.locks| == numRecords
    ensures NoDup(run[n].table.locks[r]) && exists g :: GrantedPart(run[n].table.locks[r], g)
  {
    RunKeepsInv(run, numWorkers, numRecords, last, n);
    var g := QueueGrantedPart(run[n].table.locks[r], 0);
  }

  /** `hasCycle` is asked in well-formed tables only, and the predecessor it looks at is another thread's element. */
  lemma CycleAssertUnreachable(run: seq<State>, numWorkers: nat, numRecords: nat, last: nat, n: nat, t: nat)
    requires Run(run, numWorkers, numRecords, last) && n < |run| && t < |run[n].workers|
    requires run[n].workers[t].phase.Requesting?
    ensures var s := run[n]; var w := s.workers[t]; var st := w.phase.stage; var r := Target(w, st);
      && t < |s.table.adj| && r < |s.table.locks| && !Holds(s.table, t, r)
      && var q := AddLock(s.table, t, r, st == 0).locks[r];
        var p := Pos(q, t);
        p < |q| && (!CanEnter(q, p) ==> p > 0 && q[p-1].tid != t)
  {
    RunKeepsInv(run, numWorkers, numRecords, last, n);
    var s := run[n];
    var w := s.workers[t];
    TargetFree(s, t, w.phase.stage);
    AddLockElements(s.table, t, Target(w, w.phase.stage), w.phase.stage == 0);
  }

  // ---------- deadlock ----------

  /** No reachable state has a cycle of workers waiting for one another. */
  lemma NeverDeadlocked(run: seq<State>, numWorkers: nat, numRecords: nat, last: nat, n: nat, path: seq<nat>)
    requires Run(run, numWorkers, numRecords, last) && n < |run|
    requires |path| > 1 && WaitPath(run[n].table, WaitingSet(run[n]), path)
    ensures path[0] != path[|path|-1]
  {
    RunKeepsInv(run, numWorkers, numRecords, last, n);
  }

  /** A transaction is rolled back for a deadlock only on account of a chain of workers from it back to itself, one of
      which waits. */
  lemma AbortHasChain(run: seq<State>, numWorkers: nat, numRecords: nat, last: nat, n: nat, t: nat)
    requires Run(run, numWorkers, numRecords, last) && n + 1 < |run| && Step(run[n], run[n+1], t, last)
    requires run[n].workers[t].phase.Requesting? && run[n+1].workers[t].phase.Undoing?
    ensures Suspicion(run[n+1].table, t)
    ensures exists u: nat :: u != t && u in WaitingSet(run[n])
  {
    RunKeepsInv(run, numWorkers, numRecords, last, n);
    var s := run[n];
    var w := s.workers[t];
    var st := w.phase.stage;
    TargetFree(s, t, st);
    RefusalHasChain(s.table, t, Target(w, st), st == 0);
    SuspicionNeedsBlocked(run[n+1].table, t);
    var u: nat :| u != t && BlockedSomewhere(run[n+1].table, u);
    OldBlocked(s.table, t, Target(w, st), st == 0, u);
    var r: nat, p: nat :| BlockedAt(s.table, u, r, p);
    BlockedAreWaiting(s);
  }

  /** A waiting worker that cannot enter. */
  ghost predicate Stuck(s: State, t: nat)
    requires Shape(s) && t < |s.workers| && s.workers[t].phase.Waiting?
  {
    TargetHeld(s, t, s.workers[t].phase.stage);
    var r := Target(s.workers[t], s.workers[t].phase.stage);
    !CanEnter(s.table.locks[r], Pos(s.table.locks[r], t))
  }

  /** All transactions under way are stuck. */
  ghost predicate AllStuck(s: State)
    requires Shape(s)
  {
    forall t :: 0 <= t < |s.workers| && Active(s.workers[t].phase) ==> s.workers[t].phase.Waiting? && Stuck(s, t)
  }

  lemma BlockedIsStuck(s: State, r: nat, p: nat)
    requires LockInv(s) && AllStuck(s) && r < |s.db| && p < |s.table.locks[r]| && s.table.locks[r][p].isBlocked
    ensures !CanEnter(s.table.locks[r], p)
  {
    var u := s.table.locks[r][p].tid;
    PosIs(s.table.locks[r], p);
    assert CoveredAt(s.table, r, p);
    assert Owns(s.table, s.workers[u], u, r);
    assert WorkerOk(s.workers[u], |s.db|);
    TargetHeld(s, u, s.workers[u].phase.stage);
    assert Stuck(s, u);
  }

  /** When all are stuck, a blocked element has a writer ahead of it or is a writer behind another element. */
  lemma {:induction false} WriterAhead(s: State, r: nat, p: nat) returns (c: nat)
    requires LockInv(s) && AllStuck(s) && r < |s.db| && p < |s.table.locks[r]| && s.table.locks[r][p].isBlocked
    requires s.table.locks[r][p].isReader
    ensures c < p && !s.table.locks[r][c].isReader
    decreases p
  {
    var q := s.table.locks[r];
    BlockedIsStuck(s, r, p);
    if q[p-1].isReader {
      c := WriterAhead(s, r, p - 1);
    } else {
      c := p - 1;
    }
  }

  lemma StuckWaitsFor(s: State, t: nat) returns (u: nat)
    requires LockInv(s) && AllStuck(s) && t in WaitingSet(s)
    ensures u in WaitingSet(s) && Waits(s.table, t, u)
  {
    var st := s.workers[t].phase.stage;
    var r := Target(s.workers[t], st);
    TargetHeld(s, t, st);
    var q := s.table.locks[r];
    var p := Pos(q, t);
    BlockedIsStuck(s, r, p);
    var c := p - 1;
    if q[p].isReader { c := WriterAhead(s, r, p); }
    u := q[c].tid;
    assert c <= (if q[p].isReader then c else p) <= p && !q[if q[p].isReader then c else p].isReader;
    assert WaitsAt(s.table, t, u, r, p, c);
    PosIs(q, c);
    assert CoveredAt(s.table, r, c);
    assert Owns(s.table, s.workers[u], u, r);
  }

  ghost predicate DistinctSeq(path: seq<nat>) {
    forall a, b :: 0 <= a < b < |path| ==> path[a] != path[b]
  }

  lemma {:induction false} DistinctBound(path: seq<nat>, ws: set<nat>)
    requires DistinctSeq(path) && forall i :: 0 <= i < |path| ==> path[i] in ws
    ensures |path| <= |ws|
  {
    if path != [] {
      var n := |path| - 1;
      assert forall i :: 0 <= i < n ==> path[..n][i] == path[i];
      DistinctBound(path[..n], ws - {path[n]});
    }
  }

  /** Following waits-for edges from a stuck worker would go on for ever without meeting a worker twice. */
  lemma {:induction false} ChaseWaiters(s: State, path: seq<nat>)
    requires LockInv(s) && AllStuck(s)
    requires path != [] && DistinctSeq(path) && WaitPath(s.table, WaitingSet(s), path)
    requires forall i :: 0 <= i < |path| ==> path[i] in WaitingSet(s)
    ensures false
    decreases |WaitingSet(s)| - |path|
  {
    var u := StuckWaitsFor(s, path[|path|-1]);
    FreshWaiter(s.table, WaitingSet(s), path, u);
    DistinctBound(path + [u], WaitingSet(s));
    ChaseWaiters(s, path + [u]);
  }

  lemma FreshWaiter(tb: Table, ws: set<nat>, path: seq<nat>, u: nat)
    requires Acyclic(tb, ws) && path != [] && WaitPath(tb, ws, path)
    requires path[|path|-1] in ws && Waits(tb, path[|path|-1], u)
    ensures WaitPath(tb, ws, path + [u]) && forall i :: 0 <= i < |path| ==> path[i] != u
  {
    var path' := path + [u];
    forall i | 0 <= i < |path'| - 1 ensures WaitStep(tb, ws, path', i) {
      if i < |path| - 1 { assert WaitStep(tb, ws, path, i); }
    }
    forall i | 0 <= i < |path| ensures path[i] != u {
      SubPath(tb, ws, path', i, |path'|);
      assert path'[i..|path'|][0] == path[i];
    }
  }

  lemma NotAllStuck(s: State)
    requires LockInv(s) && exists t :: 0 <= t < |s.workers| && Active(s.workers[t].phase)
    ensures !AllStuck(s)
  {
    if AllStuck(s) {
      var t :| 0 <= t < |s.workers| && Active(s.workers[t].phase);
      ChaseWaiters(s, [t]);
    }
  }

  /** While a transaction is under way, one that is can take a step that is not a mere yield. */
  lemma ActiveCanStep(s: State, last: nat) returns (t: nat, s': State)
    requires LockInv(s) && |s.db| >= 3 && exists t :: 0 <= t < |s.workers| && Active(s.workers[t].phase)
    ensures Step(s, s', t, last) && s' != s && Active(s.workers[t].phase)
  {
    if s.mutex == None {
      NotAllStuck(s);
      t :| t < |s.workers| && Active(s.workers[t].phase) && !(s.workers[t].phase.Waiting? && Stuck(s, t));
      s' := FreeStep(s, t, last);
    } else {
      t := s.mutex.value;
      assert s.workers[t].phase.Undoing?;
      UndoMoves(s, t, last);
      s' := UndoStep(s, t);
    }
  }

  /** Progress: while some worker is unfinished, some worker can take a step that is not a mere yield. */
  lemma SomeWorkerCanStep(run: seq<State>, numWorkers: nat, numRecords: nat, last: nat, n: nat)
    requires Run(run, numWorkers, numRecords, last) && n < |run| && numRecords >= 3
    requires exists t :: 0 <= t < |run[n].workers| && !run[n].workers[t].phase.Done?
    ensures exists t, s' :: Step(run[n], s', t, last) && s' != run[n]
  {
    RunKeepsInv(run, numWorkers, numRecords, last, n);
    CanStep(run[n], last);
  }

  lemma CanStep(s: State, last: nat)
    requires LockInv(s) && |s.db| >= 3
    requires exists t :: 0 <= t < |s.workers| && !s.workers[t].phase.Done?
    ensures exists t, s' :: Step(s, s', t, last) && s' != s
  {
    if exists t :: 0 <= t < |s.workers| && Active(s.workers[t].phase) {
      var t, s' := ActiveCanStep(s, last);
    } else {
      var t :| 0 <= t < |s.workers| && !s.workers[t].phase.Done?;
      assert !s.workers[t].phase.Undoing?;
      var s' := FreeStep(s, t, last);
    }
  }

  lemma UndoMoves(s: State, t: nat, last: nat)
    requires LockInv(s) && t < |s.workers| && s.workers[t].phase.Undoing?
    ensures Step(s, UndoStep(s, t), t, last) && UndoStep(s, t) != s
  {
    assert UndoStep(s, t).workers[t] != s.workers[t];
  }

  lemma FreeStep(s: State, t: nat, last: nat) returns (s': State)
    requires LockInv(s) && s.mutex == None && t < |s.workers| && |s.db| >= 3
    requires !s.workers[t].phase.Done? && !s.workers[t].phase.Undoing?
    requires !(s.workers[t].phase.Waiting? && Stuck(s, t))
    ensures Step(s, s', t, last) && s' != s
  {
    match s.workers[t].phase
    case Beginning =>
      s' := Put(s, t, s.workers[t].(phase := Requesting(0), i := 0, j := 1, k := 2, saved := []));
      assert Begin(s, s', t);
      assert s'.workers[t] != s.workers[t];
    case Requesting(_) => s' := RequestStep(s, t); assert s'.workers[t] != s.workers[t];
    case Waiting(_) => s' := PollStep(s, t); assert s'.workers[t] != s.workers[t];
    case Reading(_) => s' := ReadStep(s, t); assert s'.workers[t] != s.workers[t];
    case Writing(_) => s' := WriteStep(s, t); assert s'.workers[t] != s.workers[t];
    case Committing => s' := CommitStep(s, t, last); assert s'.workers[t] != s.workers[t];
  }

  // ---------- serializability ----------

  /** The commit log of every reachable state is a serial execution: lines numbered from 1, each with the values that
      the lines before it produce; and the log files of the workers hold exactly these lines. */
  lemma CommitLogIsSerial(run: seq<State>, numWorkers: nat, numRecords: nat, last: nat, n: nat)
    requires Run(run, numWorkers, numRecords, last) && n < |run|
    ensures var s := run[n];
      && |s.history| == (if s.order < last then s.order else last)
      && SerialHistory(s.history, numRecords, |s.history|)
      && AllInRange(s.history, numRecords)
      && (forall m :: 0 <= m < |s.history| ==> ReadOk(s.history, numRecords, m))
      && multiset(Concat(Files(s))) == multiset(s.history)
  {
    RunKeepsInv(run, numWorkers, numRecords, last, n);
    var s := run[n];
    forall m | 0 <= m < |s.history| ensures LineOk(s.history, numRecords, m) {}
  }

  lemma DistinctStep(s: State, s': State, t: nat, last: nat)
    requires Step(s, s', t, last) && AllDistinct(s.history)
    ensures AllDistinct(s'.history)
  {
    assert WorkerOk(s.workers[t], |s.db|);
    match s.workers[t].phase
    case Requesting(st) =>
      TargetFree(s, t, st);
      var res := RequestLock(s.table, t, Target(s.workers[t], st), st == 0);
      assert AfterRequest(s, t, res).history == s.history;
    case Waiting(st) => TargetHeld(s, t, st);
    case Reading(st) => TargetHeld(s, t, st);
    case Writing(st) => TargetHeld(s, t, st);
    case _ =>
  }

  lemma {:induction false} HistoryDistinct(run: seq<State>, numWorkers: nat, numRecords: nat, last: nat, n: nat)
    requires Run(run, numWorkers, numRecords, last) && n < |run|
    ensures AllDistinct(run[n].history)
  {
    if n > 0 {
      HistoryDistinct(run, numWorkers, numRecords, last, n - 1);
      assert Steps(run, n - 1, last);
      var t: nat :| Step(run[n-1], run[n], t, last);
      DistinctStep(run[n-1], run[n], t, last);
    }
  }

  /** Every commit raises the sum of the committed records by exactly one. */
  lemma CommittedSum(run: seq<State>, numWorkers: nat, numRecords: nat, last: nat, n: nat)
    requires Run(run, numWorkers, numRecords, last) && n < |run|
    ensures AllInRange(run[n].history, numRecords)
    ensures Sum(Replay(run[n].history, numRecords)) == 100 * numRecords + |run[n].history|
  {
    CommitLogIsSerial(run, numWorkers, numRecords, last, n);
    HistoryDistinct(run, numWorkers, numRecords, last, n);
    SumOfReplay(run[n].history, numRecords);
  }

  /** Every record that no running transaction has overwritten holds the value of the serial execution. */
  lemma CleanRecordsAreCommitted(run: seq<State>, numWorkers: nat, numRecords: nat, last: nat, n: nat, r: nat)
    requires Run(run, numWorkers, numRecords, last) && n < |run| && r < numRecords
    requires forall t :: !Dirtied(run[n], t, r)
    ensures |run[n].db| == numRecords && AllInRange(run[n].history, numRecords)
    ensures run[n].db[r] == Replay(run[n].history, numRecords)[r]
  {
    RunKeepsInv(run, numWorkers, numRecords, last, n);
    assert CleanOrDirty(run[n], Replay(run[n].history, numRecords), r);
  }

  /** At most one transaction has a record dirty; its saved entry holds the committed value. */
  lemma DirtyRecordIsSaved(run: seq<State>, numWorkers: nat, numRecords: nat, last: nat, n: nat, t: nat, r: nat)
    requires Run(run, numWorkers, numRecords, last) && n < |run| && r < numRecords && Dirtied(run[n], t, r)
    ensures AllInRange(run[n].history, numRecords)
    ensures forall u :: Dirtied(run[n], u, r) ==> u == t
    ensures Saved(r, Replay(run[n].history, numRecords)[r], true) in run[n].workers[t].saved
  {
    RunKeepsInv(run, numWorkers, numRecords, last, n);
    var s := run[n];
    var w := s.workers[t];
    forall u: nat | Dirtied(s, u, r) ensures u == t {
      assert WorkerOk(s.workers[u], |s.db|);
      assert Owns(s.table, s.workers[u], u, r);
      DirtyExcludes(s, t, u, r);
    }
    assert WorkerOk(w, |s.db|);
    assert LocalOk(w, Replay(s.history, |s.db|));
    assert EntryOk(w, Replay(s.history, |s.db|), StageOf(w, r));
  }

  /** `rollback`, on the deadlock path and on the path past the last order number, restores the committed state of every
      record of the transaction, and changes no other record. */
  lemma RollbackRestores(run: seq<State>, numWorkers: nat, numRecords: nat, last: nat, n: nat, t: nat, r: nat)
    requires Run(run, numWorkers, numRecords, last) && n < |run| && t < |run[n].workers| && r < numRecords
    requires run[n].workers[t].phase.Undoing? && run[n].workers[t].phase.pos == 0
    ensures var s := run[n]; var w := s.workers[t];
      && |s.db| == numRecords && AllInRange(s.history, numRecords) && Indexed(w.saved, |s.db|)
      && UndoAll(s.db, w.saved)[r] == (if Dirtied(s, t, r) then Replay(s.history, numRecords)[r] else s.db[r])
  {
    RunKeepsInv(run, numWorkers, numRecords, last, n);
    var s := run[n];
    var w := s.workers[t];
    var committed := Replay(s.history, |s.db|);
    assert WorkerOk(w, |s.db|) && LocalOk(w, committed);
    forall m | 0 <= m < |w.saved|
      ensures w.saved[m] == Saved(Target(w, m), committed[Target(w, m)], 1 <= m < Writes(w.phase)) {
      assert EntryOk(w, committed, m);
    }
    UndoAllAt(s.db, w.saved, r);
  }

  /** What the interleaved steps of `rollback` have reached: the entries before its position hold their committed
      values, and nobody can have changed them since. */
  lemma UndoneSoFar(run: seq<State>, numWorkers: nat, numRecords: nat, last: nat, n: nat, t: nat, m: nat)
    requires Run(run, numWorkers, numRecords, last) && n < |run| && t < |run[n].workers|
    requires run[n].workers[t].phase.Undoing?
    requires m < run[n].workers[t].phase.pos && m < |run[n].workers[t].saved|
    ensures var s := run[n]; var r := s.workers[t].saved[m].index;
      r < |s.db| == numRecords && AllInRange(s.history, numRecords) && s.db[r] == Replay(s.history, numRecords)[r]
  {
    RunKeepsInv(run, numWorkers, numRecords, last, n);
    RestoredStays(run[n], t, m, Replay(run[n].history, numRecords));
  }

  lemma RestoredStays(s: State, t: nat, m: nat, committed: seq<int>)
    requires Shape(s) && DataOk(s, committed) && t < |s.workers| && s.workers[t].phase.Undoing?
    requires m < s.workers[t].phase.pos && m < |s.workers[t].saved|
    ensures var r := s.workers[t].saved[m].index; r < |s.db| && s.db[r] == committed[r]
  {
    var w := s.workers[t];
    assert WorkerOk(w, |s.db|) && LocalOk(w, committed);
    assert EntryOk(w, committed, m);
    TargetHeld(s, t, m);
    var r := Target(w, m);
    assert CleanOrDirty(s, committed, r);
    if s.db[r] != committed[r] {
      var u :| Dirtied(s, u, r);
      DirtyExcludes(s, u, t, r);
    }
  }

  /** When `rollback` has come to its end, every record that the transaction has read holds its committed value, and
      none is dirty in it. */
  lemma RollbackFinished(run: seq<State>, numWorkers: nat, numRecords: nat, last: nat, n: nat, t: nat)
    requires Run(run, numWorkers, numRecords, last) && n < |run| && t < |run[n].workers|
    requires run[n].workers[t].phase.Undoing?
    requires run[n].workers[t].phase.pos >= |run[n].workers[t].saved|
    ensures |run[n].db| == numRecords && AllInRange(run[n].history, numRecords)
    ensures forall m :: 0 <= m < |run[n].workers[t].saved| ==> var r := run[n].workers[t].saved[m].index;
      r < numRecords && run[n].db[r] == Replay(run[n].history, numRecords)[r]
    ensures forall r: nat :: !Dirtied(run[n], t, r)
  {
    RunKeepsInv(run, numWorkers, numRecords, last, n);
    var s := run[n];
    forall m | 0 <= m < |s.workers[t].saved|
      ensures var r := s.workers[t].saved[m].index; r < numRecords && s.db[r] == Replay(s.history, numRecords)[r]
    {
      UndoneSoFar(run, numWorkers, numRecords, last, n, t, m);
    }
    assert LocalOk(s.workers[t], Replay(s.history, numRecords));
  }

  /** After all workers have terminated, the store is the serial replay of exactly `last` transactions, the sum of its
      records has grown by `last`, and the validator, given the workers' log files, accepts (see the contract of
      `Validator.Validate`). */
  lemma FinishedRunValidates(run: seq<State>, numWorkers: nat, numRecords: nat, last: nat, n: nat)
    requires Run(run, numWorkers, numRecords, last) && n < |run| && numWorkers > 0
    requires forall t :: 0 <= t < |run[n].workers| ==> run[n].workers[t].phase.Done?
    ensures var s := run[n];
      && AllInRange(s.history, numRecords) && s.db == Replay(s.history, numRecords)
      && Sum(s.db) == 100 * numRecords + last
      && exists order: seq<Log> :: multiset(order) == multiset(Concat(Files(s)))
           && SerialHistory(order, numRecords, last)
  {
    CommitLogIsSerial(run, numWorkers, numRecords, last, n);
    CommittedSum(run, numWorkers, numRecords, last, n);
    RunKeepsInv(run, numWorkers, numRecords, last, n);
    var s := run[n];
    assert Finishing(s.workers[0].phase);
    forall r: nat | r < numRecords ensures s.db[r] == Replay(s.history, numRecords)[r] {
      CleanRecordsAreCommitted(run, numWorkers, numRecords, last, n, r);
    }
  }
}
