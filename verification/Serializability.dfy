/**
 The transaction engine is serializable: in every reachable state the store holds the serial replay of the commit log,
 except where a running transaction has written, and what that transaction saved is the replayed value.
 */
module Serializability {
  import opened Options
  import opened Locks
  import opened Validator
  import opened Storage
  import opened Transactions

  /** How many of its records a worker has read. */
  function Reads(phase: Phase): nat {
    match phase
    case Beginning => 0
    case Requesting(st) => st
    case Waiting(st) => st
    case Reading(st) => st
    case Writing(st) => st + 1
    case Committing => 3
    case Undoing(_, held, terminating) => if terminating || held == 0 then 3 else held - 1
    case Done => 0
  }

  /** The stages from 1 up to this one have been written. */
  function Writes(phase: Phase): nat {
    if phase.Writing? then phase.stage else Reads(phase)
  }

  /** Worker `w` has overwritten record `r`, and has not restored it. */
  ghost predicate Dirty(w: Worker, r: nat) {
    && 1 <= StageOf(w, r) < Writes(w.phase)
    && StageOf(w, r) < 3
    && (w.phase.Undoing? ==> w.phase.pos <= StageOf(w, r))
  }

  function NewValue(w: Worker, r: nat): int {
    if r == w.j then w.vj else w.vk
  }

  ghost predicate EntryOk(w: Worker, committed: seq<int>, st: nat) {
    && st < |w.saved|
    && Target(w, st) < |committed|
    && w.saved[st] == Saved(Target(w, st), committed[Target(w, st)], 1 <= st < Writes(w.phase))
  }

  /** What a worker has saved and computed is derived from the committed values. */
  ghost predicate LocalOk(w: Worker, committed: seq<int>) {
    Active(w.phase) ==>
      && |w.saved| == Reads(w.phase)
      && (forall st :: 0 <= st < Reads(w.phase) ==> EntryOk(w, committed, st))
      && (Reads(w.phase) >= 1 ==> w.i < |committed| && w.vi == committed[w.i])
      && (Reads(w.phase) >= 2 ==> w.j < |committed| && w.vj == committed[w.j] + w.vi + 1)
      && (Reads(w.phase) >= 3 ==> w.k < |committed| && w.vk == committed[w.k] - w.vi)
  }

  ghost predicate Dirtied(s: State, t: nat, r: nat) {
    t < |s.workers| && Dirty(s.workers[t], r)
  }

  /** Record `r` holds its committed value, or a running transaction has written it. */
  ghost predicate CleanOrDirty(s: State, committed: seq<int>, r: nat)
    requires r < |s.db| == |committed|
  {
    s.db[r] == committed[r] || exists t :: Dirtied(s, t, r)
  }

  ghost predicate DataOk(s: State, committed: seq<int>) {
    && |committed| == |s.db|
    && (forall t :: 0 <= t < |s.workers| ==> LocalOk(s.workers[t], committed))
    && (forall r :: 0 <= r < |s.db| ==> CleanOrDirty(s, committed, r))
    && (forall t: nat, r: nat :: r < |s.db| && Dirtied(s, t, r) ==> s.db[r] == NewValue(s.workers[t], r))
  }

  function Files(s: State): seq<seq<Log>> {
    seq(|s.workers|, t requires 0 <= t < |s.workers| => s.workers[t].clog)
  }

  /** Line `n` of the history also logs the committed value of record i. */
  ghost predicate ReadOk(history: seq<Log>, numRecords: nat, n: nat)
    requires n < |history| && AllInRange(history, numRecords)
  {
    history[n].vi == Replay(history[..n], numRecords)[history[n].i]
  }

  ghost predicate LinesOk(history: seq<Log>, numRecords: nat) {
    && AllInRange(history, numRecords)
    && forall n :: 0 <= n < |history| ==> LineOk(history, numRecords, n) && ReadOk(history, numRecords, n)
  }

  /** The number of commits follows the order counter, and workers stop only past the last order number. */
  ghost predicate CountOk(s: State, last: nat) {
    && |s.history| == (if s.order < last then s.order else last)
    && (forall t :: 0 <= t < |s.workers| && Finishing(s.workers[t].phase) ==> s.order > last)
  }

  ghost predicate FilesOk(s: State) {
    multiset(Concat(Files(s))) == multiset(s.history)
  }

  ghost predicate HistoryOk(s: State, last: nat) {
    CountOk(s, last) && LinesOk(s.history, |s.db|) && FilesOk(s)
  }

  predicate Finishing(phase: Phase) {
    phase.Done? || (phase.Undoing? && phase.terminating)
  }

  ghost predicate Inv(s: State, last: nat) {
    LockInv(s) && HistoryOk(s, last) && DataOk(s, Replay(s.history, |s.db|))
  }

  // ---------- locks exclude ----------

  lemma GrantedWriterAlone(q: Queue, a: nat, b: nat)
    requires GrantsOk(q) && a < |q| && b < |q| && !q[a].isBlocked && !q[b].isBlocked && !q[a].isReader
    ensures a == b
  {
    if a < b { GrantedPrefix(q, b, a); }
    if b < a { GrantedPrefix(q, a, a); }
  }

  /** While a worker has a record dirty, no other worker owns a granted lock on it. */
  lemma DirtyExcludes(s: State, t: nat, u: nat, r: nat)
    requires Shape(s) && r < |s.db| && Dirtied(s, t, r) && u < |s.workers| && HasGranted(s.table, u, r)
    ensures t == u
  {
    var w := s.workers[t];
    assert WorkerOk(w, |s.db|);
    assert Owns(s.table, w, t, r);
    GrantedWriterAlone(s.table.locks[r], Pos(s.table.locks[r], t), Pos(s.table.locks[r], u));
  }

  // ---------- steps that leave the store and the history alone ----------

  lemma KeepData(s: State, s': State, t: nat, committed: seq<int>)
    requires DataOk(s, committed) && OthersSame(s, s', t) && s'.db == s.db
    requires LocalOk(s'.workers[t], committed)
    requires forall r :: Dirty(s'.workers[t], r) <==> Dirty(s.workers[t], r)
    requires forall r :: Dirty(s.workers[t], r) ==> NewValue(s'.workers[t], r) == NewValue(s.workers[t], r)
    ensures DataOk(s', committed)
  {
    forall u: nat, r: nat | r < |s'.db| && Dirtied(s', u, r) ensures s'.db[r] == NewValue(s'.workers[u], r) {
      assert Dirtied(s, u, r);
    }
    forall r | 0 <= r < |s'.db| ensures CleanOrDirty(s', committed, r) {
      assert CleanOrDirty(s, committed, r);
      if s.db[r] != committed[r] {
        var u :| Dirtied(s, u, r);
        assert Dirtied(s', u, r);
      }
    }
  }

  lemma EntriesCarry(w: Worker, w': Worker, committed: seq<int>)
    requires LocalOk(w, committed) && Active(w.phase)
    requires w' == w.(phase := w'.phase) && Reads(w'.phase) == Reads(w.phase) && Writes(w'.phase) == Writes(w.phase)
    ensures LocalOk(w', committed)
  {
    forall st | 0 <= st < Reads(w'.phase) ensures EntryOk(w', committed, st) { assert EntryOk(w, committed, st); }
  }

  lemma BeginData(s: State, s': State, t: nat, committed: seq<int>)
    requires DataOk(s, committed) && t < |s.workers| && s.workers[t].phase.Beginning? && Begin(s, s', t)
    ensures DataOk(s', committed)
  {
    KeepData(s, s', t, committed);
  }

  lemma RequestData(s: State, t: nat, res: (LockResult, Table), committed: seq<int>)
    requires DataOk(s, committed) && t < |s.workers| && s.workers[t].phase.Requesting? && WorkerOk(s.workers[t], |s.db|)
    ensures DataOk(AfterRequest(s, t, res), committed)
  {
    var s' := AfterRequest(s, t, res);
    EntriesCarry(s.workers[t], s'.workers[t], committed);
    KeepData(s, s', t, committed);
  }

  lemma PollData(s: State, t: nat, committed: seq<int>)
    requires Shape(s) && DataOk(s, committed) && t < |s.workers| && s.workers[t].phase.Waiting?
    ensures DataOk(PollStep(s, t), committed)
  {
    var s' := PollStep(s, t);
    if s' != s {
      EntriesCarry(s.workers[t], s'.workers[t], committed);
      KeepData(s, s', t, committed);
    }
  }

  /** A worker that owns a granted lock reads the committed value. */
  lemma ReadsCommitted(s: State, t: nat, st: nat, committed: seq<int>)
    requires Shape(s) && DataOk(s, committed) && t < |s.workers|
    requires s.workers[t].phase == Reading(st) || (s.workers[t].phase == Writing(st))
    ensures var r := Target(s.workers[t], st); r < |s.db| && s.db[r] == committed[r]
  {
    var w := s.workers[t];
    TargetHeld(s, t, st);
    var r := Target(w, st);
    assert CleanOrDirty(s, committed, r);
    if s.db[r] != committed[r] {
      var u :| Dirtied(s, u, r);
      DirtyExcludes(s, u, t, r);
    }
  }

  lemma ReadData(s: State, t: nat, committed: seq<int>)
    requires Shape(s) && DataOk(s, committed) && t < |s.workers| && s.workers[t].phase.Reading?
    ensures DataOk(ReadStep(s, t), committed)
  {
    var w := s.workers[t];
    var st := w.phase.stage;
    var s' := ReadStep(s, t);
    var w' := s'.workers[t];
    TargetHeld(s, t, st);
    ReadsCommitted(s, t, st, committed);
    forall x | 0 <= x < Reads(w'.phase) ensures EntryOk(w', committed, x) {
      if x < st { assert EntryOk(w, committed, x); }
    }
    KeepData(s, s', t, committed);
  }

  // ---------- writing ----------

  lemma FindStage(w: Worker, committed: seq<int>, st: nat, n: nat)
    requires LocalOk(w, committed) && w.phase == Writing(st) && WorkerOk(w, n)
    ensures Find(w.saved, Target(w, st)) == st < |w.saved|
  {
    forall x | 0 <= x <= st ensures w.saved[x].index == Target(w, x) { assert EntryOk(w, committed, x); }
  }

  lemma WriteLocal(s: State, t: nat, committed: seq<int>)
    requires Shape(s) && DataOk(s, committed) && t < |s.workers| && s.workers[t].phase.Writing?
    ensures LocalOk(WriteStep(s, t).workers[t], committed)
  {
    var w := s.workers[t];
    var st := w.phase.stage;
    var w' := WriteStep(s, t).workers[t];
    assert WorkerOk(w, |s.db|);
    FindStage(w, committed, st, |s.db|);
    forall x | 0 <= x < Reads(w'.phase) ensures EntryOk(w', committed, x) {
      assert EntryOk(w, committed, x);
    }
  }

  lemma WriteData(s: State, t: nat, committed: seq<int>)
    requires Shape(s) && DataOk(s, committed) && t < |s.workers| && s.workers[t].phase.Writing?
    ensures DataOk(WriteStep(s, t), committed)
  {
    var w := s.workers[t];
    var st := w.phase.stage;
    var s' := WriteStep(s, t);
    var w' := s'.workers[t];
    var r := Target(w, st);
    TargetHeld(s, t, st);
    WriteLocal(s, t, committed);
    assert forall x :: Dirty(w', x) <==> Dirty(w, x) || x == r;
    forall u: nat, x: nat | x < |s'.db| && Dirtied(s', u, x) ensures s'.db[x] == NewValue(s'.workers[u], x) {
      if u != t {
        assert Dirtied(s, u, x);
        if x == r { DirtyExcludes(s, u, t, r); }
      } else {
        assert x != r ==> Dirtied(s, t, x);
      }
    }
    forall x | 0 <= x < |s'.db| ensures CleanOrDirty(s', committed, x) {
      if x == r {
        assert Dirtied(s', t, r);
      } else {
        assert CleanOrDirty(s, committed, x);
        if s.db[x] != committed[x] {
          var u :| Dirtied(s, u, x);
          assert Dirtied(s', u, x);
        }
      }
    }
  }

  // ---------- undoing ----------

  lemma UndoLocal(s: State, t: nat, committed: seq<int>)
    requires DataOk(s, committed) && t < |s.workers| && s.workers[t].phase.Undoing? && |s.table.adj| == |s.workers|
    requires s.workers[t].phase.pos < |s.workers[t].saved|
    ensures LocalOk(UndoStep(s, t).workers[t], committed)
  {
    EntriesCarry(s.workers[t], UndoStep(s, t).workers[t], committed);
  }

  /** Restoring one entry puts the committed value back and makes the record clean. */
  lemma UndoData(s: State, t: nat, committed: seq<int>)
    requires Shape(s) && DataOk(s, committed) && t < |s.workers| && s.workers[t].phase.Undoing?
    requires s.workers[t].phase.pos < |s.workers[t].saved|
    ensures DataOk(UndoStep(s, t), committed)
  {
    var w := s.workers[t];
    var pos := w.phase.pos;
    var s' := UndoStep(s, t);
    var w' := s'.workers[t];
    assert WorkerOk(w, |s.db|);
    assert EntryOk(w, committed, pos);
    var r := Target(w, pos);
    UndoLocal(s, t, committed);
    TargetHeld(s, t, pos);
    if !w.saved[pos].isUpdated {
      assert forall x :: Dirty(w', x) <==> Dirty(w, x);
      KeepData(s, s', t, committed);
    } else {
      assert Dirty(w, r) && Dirtied(s, t, r);
      assert forall x :: Dirty(w', x) <==> Dirty(w, x) && x != r;
      forall u: nat, x: nat | x < |s'.db| && Dirtied(s', u, x) ensures s'.db[x] == NewValue(s'.workers[u], x) {
        assert Dirtied(s, u, x);
        if u != t && x == r { DirtyExcludes(s, u, t, r); }
      }
      forall x | 0 <= x < |s'.db| ensures CleanOrDirty(s', committed, x) {
        assert CleanOrDirty(s, committed, x);
        if x != r && s.db[x] != committed[x] {
          var u :| Dirtied(s, u, x);
          assert Dirtied(s', u, x);
        }
      }
    }
  }

  /** After the last entry nothing is dirty any more. */
  lemma UndoneData(s: State, t: nat, committed: seq<int>)
    requires Shape(s) && DataOk(s, committed) && t < |s.workers| && s.workers[t].phase.Undoing?
    requires s.workers[t].phase.pos >= |s.workers[t].saved|
    ensures DataOk(UndoStep(s, t), committed)
  {
    var s' := UndoStep(s, t);
    assert LocalOk(s.workers[t], committed);
    KeepData(s, s', t, committed);
  }

  // ---------- committing ----------

  function LogOf(s: State, t: nat): Log
    requires t < |s.workers|
  {
    var w := s.workers[t];
    Log(s.order + 1, w.i, w.j, w.k, w.vi, w.vj, w.vk)
  }

  lemma LinesSnoc(history: seq<Log>, log: Log, numRecords: nat)
    requires LinesOk(history, numRecords) && InRange(log, numRecords)
    requires log.commitId == |history| + 1 && log.i != log.j && log.j != log.k && log.k != log.i
    requires var c := Replay(history, numRecords);
      log.vi == c[log.i] && log.vj == c[log.j] + log.vi + 1 && log.vk == c[log.k] - log.vi
    ensures LinesOk(history + [log], numRecords)
    ensures Replay(history + [log], numRecords) == Apply(Replay(history, numRecords), log)
  {
    var h := history + [log];
    var n := |history|;
    ReplaySnoc(history, log, numRecords);
    forall m | 0 <= m < |h| ensures LineOk(h, numRecords, m) && ReadOk(h, numRecords, m) {
      if m < n {
        assert LineOk(history, numRecords, m) && ReadOk(history, numRecords, m);
        assert h[..m+1] == history[..m+1] && h[..m] == history[..m];
      } else {
        assert h[..n+1] == h && h[..n] == history;
      }
    }
  }

  lemma CommitLines(s: State, t: nat, last: nat)
    requires CountOk(s, last) && LinesOk(s.history, |s.db|) && t < |s.workers| && s.workers[t].phase.Committing?
    requires s.order < last
    requires WorkerOk(s.workers[t], |s.db|) && LocalOk(s.workers[t], Replay(s.history, |s.db|))
    ensures var h := s.history + [LogOf(s, t)];
      LinesOk(h, |s.db|) && Replay(h, |s.db|) == Apply(Replay(s.history, |s.db|), LogOf(s, t))
  {
    LinesSnoc(s.history, LogOf(s, t), |s.db|);
  }

  lemma CommitFiles(s: State, t: nat, last: nat)
    requires FilesOk(s) && t < |s.workers| && |s.table.adj| == |s.workers|
    ensures FilesOk(CommitStep(s, t, last))
  {
    var s' := CommitStep(s, t, last);
    if s.order < last {
      var log := LogOf(s, t);
      assert Files(s') == Files(s)[t := Files(s)[t] + [log]];
      ConcatAppend(Files(s), t, log);
    } else {
      assert Files(s') == Files(s);
    }
  }

  lemma {:induction false} ConcatAppend(files: seq<seq<Log>>, t: nat, log: Log)
    requires t < |files|
    ensures multiset(Concat(files[t := files[t] + [log]])) == multiset(Concat(files)) + multiset{log}
  {
    var n := |files| - 1;
    var files' := files[t := files[t] + [log]];
    if t < n {
      assert files'[..n] == files[..n][t := files[..n][t] + [log]];
      ConcatAppend(files[..n], t, log);
    } else {
      assert files'[..n] == files[..n];
    }
  }

  /** A worker that holds a granted lock elsewhere keeps its view when another transaction commits. */
  lemma OthersKeepView(s: State, t: nat, u: nat, committed: seq<int>, committed': seq<int>)
    requires Shape(s) && DataOk(s, committed) && t < |s.workers| && s.workers[t].phase.Committing?
    requires u < |s.workers| && u != t
    requires |committed'| == |committed|
    requires forall r :: 0 <= r < |committed| && r != s.workers[t].j && r != s.workers[t].k
               ==> committed'[r] == committed[r]
    ensures LocalOk(s.workers[u], committed')
  {
    var x := s.workers[u];
    assert LocalOk(x, committed) && WorkerOk(x, |s.db|) && WorkerOk(s.workers[t], |s.db|);
    forall st | 0 <= st < Reads(x.phase) && Active(x.phase)
      ensures EntryOk(x, committed', st) && Target(x, st) != s.workers[t].j && Target(x, st) != s.workers[t].k
    {
      assert EntryOk(x, committed, st);
      TargetHeld(s, u, st);
      if Target(x, st) == s.workers[t].j { DirtyExcludes(s, t, u, Target(x, st)); }
      if Target(x, st) == s.workers[t].k { DirtyExcludes(s, t, u, Target(x, st)); }
    }
    if Active(x.phase) {
      if Reads(x.phase) >= 1 { assert Target(x, 0) == x.i; }
      if Reads(x.phase) >= 2 { assert Target(x, 1) == x.j; }
      if Reads(x.phase) >= 3 { assert Target(x, 2) == x.k; }
    }
  }

  lemma CommitData(s: State, t: nat, last: nat)
    requires Shape(s) && CountOk(s, last) && LinesOk(s.history, |s.db|) && DataOk(s, Replay(s.history, |s.db|))
    requires t < |s.workers| && s.workers[t].phase.Committing?
    ensures var s' := CommitStep(s, t, last);
      LinesOk(s'.history, |s'.db|) && CountOk(s', last) && DataOk(s', Replay(s'.history, |s'.db|))
  {
    var committed := Replay(s.history, |s.db|);
    assert LocalOk(s.workers[t], committed) && WorkerOk(s.workers[t], |s.db|);
    if s.order < last {
      CommitLines(s, t, last);
      CommitSuccessData(s, CommitStep(s, t, last), t, committed, Apply(committed, LogOf(s, t)));
    } else {
      LateCommitData(s, t, last, committed);
    }
  }

  /** Past the last order number the worker begins to undo. */
  lemma LateCommitData(s: State, t: nat, last: nat, committed: seq<int>)
    requires DataOk(s, committed) && t < |s.workers| == |s.table.adj| && s.workers[t].phase.Committing?
    requires s.order >= last
    ensures DataOk(CommitStep(s, t, last), committed)
  {
    var s' := CommitStep(s, t, last);
    assert LocalOk(s.workers[t], committed);
    EntriesCarry(s.workers[t], s'.workers[t], committed);
    KeepData(s, s', t, committed);
  }

  lemma CommitSuccessData(s: State, s': State, t: nat, committed: seq<int>, committed': seq<int>)
    requires Shape(s) && DataOk(s, committed) && OthersSame(s, s', t) && s'.db == s.db
    requires s.workers[t].phase.Committing? && s'.workers[t].phase.Beginning?
    requires var w := s.workers[t];
      && WorkerOk(w, |s.db|)
      && |committed| == |s.db| && committed' == Apply(committed, LogOf(s, t))
    ensures DataOk(s', committed')
  {
    var w := s.workers[t];
    assert LocalOk(w, committed);
    assert Dirtied(s, t, w.j) && Dirtied(s, t, w.k);
    assert committed'[w.j] == w.vj && committed'[w.k] == w.vk;
    forall u | 0 <= u < |s'.workers| ensures LocalOk(s'.workers[u], committed') {
      if u != t { OthersKeepView(s, t, u, committed, committed'); }
    }
    forall u: nat, x: nat | x < |s'.db| && Dirtied(s', u, x) ensures s'.db[x] == NewValue(s'.workers[u], x) {
      assert u != t && Dirtied(s, u, x);
    }
    forall x | 0 <= x < |s'.db| ensures CleanOrDirty(s', committed', x) {
      if x != w.j && x != w.k {
        assert CleanOrDirty(s, committed, x);
        if s.db[x] != committed[x] {
          var u :| Dirtied(s, u, x);
          assert Dirtied(s', u, x);
        }
      }
    }
  }

  // ---------- every reachable state ----------

  lemma SameHistory(s: State, s': State, t: nat, last: nat)
    requires HistoryOk(s, last) && OthersSame(s, s', t) && |s'.db| == |s.db|
    requires s'.history == s.history && s'.order == s.order && s'.workers[t].clog == s.workers[t].clog
    requires Finishing(s'.workers[t].phase) ==> Finishing(s.workers[t].phase)
    ensures HistoryOk(s', last)
  {
    assert Files(s') == Files(s);
  }

  lemma AfterRequestHistory(s: State, t: nat, res: (LockResult, Table), last: nat)
    requires HistoryOk(s, last) && t < |s.workers| && s.workers[t].phase.Requesting?
    ensures var s' := AfterRequest(s, t, res); s'.history == s.history && |s'.db| == |s.db| && HistoryOk(s', last)
  {
    SameHistory(s, AfterRequest(s, t, res), t, last);
  }

  lemma RequestInv(s: State, t: nat, last: nat)
    requires Inv(s, last) && t < |s.workers| && s.workers[t].phase.Requesting? && s.mutex == None
    ensures Inv(RequestStep(s, t), last)
  {
    RequestLockInv(s, t);
    var st := s.workers[t].phase.stage;
    TargetFree(s, t, st);
    assert WorkerOk(s.workers[t], |s.db|);
    var res := RequestLock(s.table, t, Target(s.workers[t], st), st == 0);
    RequestData(s, t, res, Replay(s.history, |s.db|));
    AfterRequestHistory(s, t, res, last);
  }

  lemma UndoInv(s: State, t: nat, last: nat)
    requires Inv(s, last) && t < |s.workers| && s.workers[t].phase.Undoing? && s.mutex == Some(t)
    ensures Inv(UndoStep(s, t), last)
  {
    UndoLockInv(s, t);
    UndoHistory(s, t, last);
    if s.workers[t].phase.pos < |s.workers[t].saved| {
      UndoData(s, t, Replay(s.history, |s.db|));
    } else {
      UndoneData(s, t, Replay(s.history, |s.db|));
    }
  }

  lemma UndoHistory(s: State, t: nat, last: nat)
    requires HistoryOk(s, last) && t < |s.workers| == |s.table.adj| && s.workers[t].phase.Undoing?
    ensures var s' := UndoStep(s, t); s'.history == s.history && |s'.db| == |s.db| && HistoryOk(s', last)
  {
    SameHistory(s, UndoStep(s, t), t, last);
  }

  lemma BeginInv(s: State, s': State, t: nat, last: nat)
    requires Inv(s, last) && t < |s.workers| && s.workers[t].phase.Beginning? && Begin(s, s', t)
    ensures Inv(s', last)
  {
    LocalLockInv(s, s', t);
    BeginData(s, s', t, Replay(s.history, |s.db|));
    SameHistory(s, s', t, last);
  }

  lemma PollInv(s: State, t: nat, last: nat)
    requires Inv(s, last) && t < |s.workers| && s.workers[t].phase.Waiting? && s.mutex == None
    ensures Inv(PollStep(s, t), last)
  {
    PollLockInv(s, t);
    PollData(s, t, Replay(s.history, |s.db|));
    if PollStep(s, t) != s { SameHistory(s, PollStep(s, t), t, last); }
  }

  lemma ReadInv(s: State, t: nat, last: nat)
    requires Inv(s, last) && t < |s.workers| && s.workers[t].phase.Reading?
    ensures Inv(ReadStep(s, t), last)
  {
    ReadLockInv(s, t);
    ReadData(s, t, Replay(s.history, |s.db|));
    SameHistory(s, ReadStep(s, t), t, last);
  }

  lemma WriteInv(s: State, t: nat, last: nat)
    requires Inv(s, last) && t < |s.workers| && s.workers[t].phase.Writing?
    ensures Inv(WriteStep(s, t), last)
  {
    WriteLockInv(s, t);
    WriteData(s, t, Replay(s.history, |s.db|));
    TargetHeld(s, t, s.workers[t].phase.stage);
    SameHistory(s, WriteStep(s, t), t, last);
  }

  lemma CommitInv(s: State, t: nat, last: nat)
    requires Inv(s, last) && t < |s.workers| && s.workers[t].phase.Committing? && s.mutex == None
    ensures Inv(CommitStep(s, t, last), last)
  {
    CommitLockInv(s, t, last);
    CommitFiles(s, t, last);
    CommitData(s, t, last);
  }

  lemma StepInv(s: State, s': State, t: nat, last: nat)
    requires Inv(s, last) && Step(s, s', t, last)
    ensures Inv(s', last)
  {
    match s.workers[t].phase
    case Beginning => BeginInv(s, s', t, last);
    case Requesting(_) => RequestInv(s, t, last);
    case Waiting(_) => PollInv(s, t, last);
    case Reading(_) => ReadInv(s, t, last);
    case Writing(_) => WriteInv(s, t, last);
    case Committing => CommitInv(s, t, last);
    case Undoing(_, _, _) => UndoInv(s, t, last);
  }

  lemma NextInv(s: State, s': State, last: nat)
    requires Inv(s, last) && Next(s, s', last)
    ensures Inv(s', last) && |s'.db| == |s.db| && |s'.workers| == |s.workers|
  {
    var t :| Step(s, s', t, last);
    StepInv(s, s', t, last);
    StepSizes(s, s', t, last);
  }

  lemma StepSizes(s: State, s': State, t: nat, last: nat)
    requires Step(s, s', t, last)
    ensures |s'.db| == |s.db| && |s'.workers| == |s.workers|
  {
  }

  lemma InitInv(s: State, numWorkers: nat, numRecords: nat, last: nat)
    requires Init(s, numWorkers, numRecords)
    ensures Inv(s, last)
  {
    InitLockInv(s, numWorkers, numRecords);
    NoLogs(Files(s));
  }

  lemma {:induction false} NoLogs(files: seq<seq<Log>>)
    requires forall t :: 0 <= t < |files| ==> files[t] == []
    ensures Concat(files) == []
  {
    if files != [] { NoLogs(files[..|files|-1]); }
  }

  lemma StepOfRun(run: seq<State>, numWorkers: nat, numRecords: nat, last: nat, n: nat)
    requires Run(run, numWorkers, numRecords, last) && 0 < n < |run| && Inv(run[n-1], last)
    ensures Inv(run[n], last) && |run[n].workers| == |run[n-1].workers| && |run[n].db| == |run[n-1].db|
  {
    assert Steps(run, n - 1, last);
    NextInv(run[n-1], run[n], last);
  }

  /** The invariant of the engine holds in every state of every run. */
  lemma {:induction false} RunKeepsInv(run: seq<State>, numWorkers: nat, numRecords: nat, last: nat, n: nat)
    requires Run(run, numWorkers, numRecords, last) && n < |run|
    ensures Inv(run[n], last) && |run[n].workers| == numWorkers && |run[n].db| == numRecords
  {
    if n == 0 {
      InitInv(run[0], numWorkers, numRecords, last);
    } else {
      RunKeepsInv(run, numWorkers, numRecords, last, n - 1);
      StepOfRun(run, numWorkers, numRecords, last, n);
    }
  }
}
