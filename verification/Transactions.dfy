/**
 The transaction engine as a step machine. A worker repeats: pick three distinct records i, j, k; read-lock i and read
 it; write-lock j, read it and raise it by the value of i plus one; write-lock k, read it and lower it by the value of
 i; take the next order number and commit. A detected deadlock, or an order number past the last one, undoes the
 writes.

 One step is one section under the table mutex or one access to the record store; while a worker undoes its writes it
 keeps the mutex, and restores one saved record a step. `history` is an auxiliary variable: all commits in order.
 */
module Transactions {
  import opened Options
  import opened Locks
  import opened Deadlock
  import opened Validator
  import opened Storage

  /** Where a worker stands. Stage 0, 1, 2 is the access to record i, j, k. `held` counts the queue elements still
      owned. */
  datatype Phase =
    | Beginning
    | Requesting(stage: nat)
    | Waiting(stage: nat)
    | Reading(stage: nat)
    | Writing(stage: nat)
    | Committing
    | Undoing(pos: nat, held: nat, terminating: bool)
    | Done

  datatype Worker = Worker(phase: Phase, i: nat, j: nat, k: nat, saved: seq<Saved>, vi: int, vj: int, vk: int,
                           clog: seq<Log>)

  datatype State = State(table: Table, db: seq<int>, workers: seq<Worker>, order: nat, mutex: Option<nat>,
                         history: seq<Log>)

  function Target(w: Worker, stage: nat): nat {
    if stage == 0 then w.i else if stage == 1 then w.j else w.k
  }

  /** The stage that accesses record `r`, or 3. */
  function StageOf(w: Worker, r: nat): nat {
    if r == w.i then 0 else if r == w.j then 1 else if r == w.k then 2 else 3
  }

  /** How many lock queues hold an element of a worker in this phase: those of its first stages. */
  function Owned(phase: Phase): nat {
    match phase
    case Beginning => 0
    case Requesting(st) => st
    case Waiting(st) => st + 1
    case Reading(st) => st + 1
    case Writing(st) => st + 1
    case Committing => 3
    case Undoing(_, held, _) => held
    case Done => 0
  }

  /** The stage whose element is not granted, or 3. */
  function BlockedStage(phase: Phase): nat {
    match phase
    case Waiting(st) => st
    case Undoing(_, held, terminating) => if terminating || held == 0 then 3 else held - 1
    case _ => 3
  }

  ghost predicate PhaseOk(phase: Phase) {
    match phase
    case Requesting(st) => st <= 2
    case Waiting(st) => st <= 2
    case Reading(st) => st <= 2
    case Writing(st) => 1 <= st <= 2
    case Undoing(_, held, terminating) => 1 <= held <= 3 && (terminating ==> held == 3)
    case _ => true
  }

  ghost predicate Active(phase: Phase) {
    !phase.Beginning? && !phase.Done?
  }

  ghost predicate WorkerOk(w: Worker, numRecords: nat) {
    && PhaseOk(w.phase)
    && (Active(w.phase) ==>
         && w.i < numRecords && w.j < numRecords && w.k < numRecords
         && w.i != w.j && w.j != w.k && w.k != w.i)
  }

  /** The element of worker `t` in the queue of record `r` is the one its phase calls for. */
  ghost predicate Owns(tb: Table, w: Worker, t: nat, r: nat) {
    && (Holds(tb, t, r) <==> StageOf(w, r) < Owned(w.phase))
    && (Holds(tb, t, r) ==>
          ElementOf(tb, t, r) == LockElement(t, StageOf(w, r) == 0, StageOf(w, r) == BlockedStage(w.phase)))
  }

  ghost predicate Shape(s: State) {
    && |s.table.adj| == |s.workers|
    && |s.table.locks| == |s.db|
    && WellFormed(s.table)
    && (forall t :: 0 <= t < |s.workers| ==> WorkerOk(s.workers[t], |s.db|))
    && (forall t, r :: 0 <= t < |s.workers| && 0 <= r < |s.db| ==> Owns(s.table, s.workers[t], t, r))
  }

  ghost predicate Init(s: State, numWorkers: nat, numRecords: nat) {
    && s.table == EmptyTable(numWorkers, numRecords)
    && s.db == InitialRecords(numRecords)
    && |s.workers| == numWorkers
    && (forall t :: 0 <= t < numWorkers ==> s.workers[t].phase == Beginning && s.workers[t].clog == [])
    && s.order == 0 && s.mutex == None && s.history == []
  }

  // ---------- the steps ----------

  function Put(s: State, t: nat, w: Worker): State
    requires t < |s.workers|
  {
    s.(workers := s.workers[t := w])
  }

  /** `prepare` and the random choice. */
  ghost predicate Begin(s: State, s': State, t: nat)
    requires t < |s.workers|
  {
    exists i: nat, j: nat, k: nat ::
      && i < |s.db| && j < |s.db| && k < |s.db| && i != j && j != k && k != i
      && s' == Put(s, t, s.workers[t].(phase := Requesting(0), i := i, j := j, k := k, saved := []))
  }

  lemma TargetFree(s: State, t: nat, stage: nat)
    requires Shape(s) && t < |s.workers| && s.workers[t].phase == Requesting(stage)
    ensures Target(s.workers[t], stage) < |s.table.locks| && !Holds(s.table, t, Target(s.workers[t], stage))
    ensures forall r :: Holds(s.table, t, r) ==> !ElementOf(s.table, t, r).isBlocked
  {
    var w := s.workers[t];
    assert WorkerOk(w, |s.db|);
    assert Owns(s.table, w, t, Target(w, stage));
    forall r | Holds(s.table, t, r) ensures !ElementOf(s.table, t, r).isBlocked { assert Owns(s.table, w, t, r); }
  }

  /** The critical section of a lock request. A detected deadlock keeps the mutex and starts the undo. */
  function RequestStep(s: State, t: nat): State
    requires Shape(s) && t < |s.workers| && s.workers[t].phase.Requesting?
  {
    var w := s.workers[t];
    var st := w.phase.stage;
    TargetFree(s, t, st);
    AfterRequest(s, t, RequestLock(s.table, t, Target(w, st), st == 0))
  }

  function AfterRequest(s: State, t: nat, res: (LockResult, Table)): State
    requires t < |s.workers| && s.workers[t].phase.Requesting?
  {
    var w := s.workers[t];
    var st := w.phase.stage;
    match res.0
    case Acquired => Put(s, t, w.(phase := Reading(st))).(table := res.1)
    case MustWait => Put(s, t, w.(phase := Waiting(st))).(table := res.1)
    case DeadlockDetected => Put(s, t, w.(phase := Undoing(0, st + 1, false))).(table := res.1, mutex := Some(t))
  }

  lemma TargetHeld(s: State, t: nat, stage: nat)
    requires Shape(s) && t < |s.workers| && stage < Owned(s.workers[t].phase)
    ensures var w := s.workers[t]; var r := Target(w, stage);
      && WorkerOk(w, |s.db|) && stage <= 2
      && r < |s.db| && StageOf(w, r) == stage && Holds(s.table, t, r)
      && ElementOf(s.table, t, r) == LockElement(t, stage == 0, stage == BlockedStage(w.phase))
  {
    var w := s.workers[t];
    assert WorkerOk(w, |s.db|);
    assert Owns(s.table, w, t, Target(w, stage));
  }

  /** One round of the waiting loop of `rwlock`. */
  function PollStep(s: State, t: nat): State
    requires Shape(s) && t < |s.workers| && s.workers[t].phase.Waiting?
  {
    var w := s.workers[t];
    var st := w.phase.stage;
    TargetHeld(s, t, st);
    var res := TryEnter(s.table, t, Target(w, st));
    if res.0 then Put(s, t, w.(phase := Reading(st))).(table := res.1) else s
  }

  /** `readRecord`, and the computation of the new value. */
  function ReadStep(s: State, t: nat): State
    requires Shape(s) && t < |s.workers| && s.workers[t].phase.Reading?
  {
    var w := s.workers[t];
    var st := w.phase.stage;
    TargetHeld(s, t, st);
    var value := s.db[Target(w, st)];
    var w' := w.(saved := w.saved + [Saved(Target(w, st), value, false)]);
    Put(s, t,
        if st == 0 then w'.(phase := Requesting(1), vi := value)
        else if st == 1 then w'.(phase := Writing(1), vj := value + w.vi + 1)
        else w'.(phase := Writing(2), vk := value - w.vi))
  }

  /** `updateRecord`. */
  function WriteStep(s: State, t: nat): State
    requires Shape(s) && t < |s.workers| && s.workers[t].phase.Writing?
  {
    var w := s.workers[t];
    var st := w.phase.stage;
    TargetHeld(s, t, st);
    var r := Target(w, st);
    var w' := w.(saved := MarkUpdated(w.saved, r, s.db[r]), phase := if st == 1 then Requesting(2) else Committing);
    Put(s, t, w').(db := s.db[r := if st == 1 then w.vj else w.vk])
  }

  /** The commit section: take an order number, then release and log, or start undoing when past the last order
      `last`. */
  function CommitStep(s: State, t: nat, last: nat): State
    requires t < |s.workers| && |s.table.adj| == |s.workers|
  {
    var w := s.workers[t];
    var id := s.order + 1;
    if id > last then
      Put(s, t, w.(phase := Undoing(0, 3, true))).(order := id, mutex := Some(t))
    else
      var log := Log(id, w.i, w.j, w.k, w.vi, w.vj, w.vk);
      Put(s, t, w.(phase := Beginning, clog := w.clog + [log]))
        .(order := id, table := UnlockAll(s.table, t), history := s.history + [log])
  }

  /** `rollback` restores one saved record a step; then `unlockAll` and the release of the mutex. */
  function UndoStep(s: State, t: nat): State
    requires t < |s.workers| && |s.table.adj| == |s.workers| && s.workers[t].phase.Undoing?
  {
    var w := s.workers[t];
    var pos := w.phase.pos;
    if pos < |w.saved| then
      Put(s, t, w.(phase := w.phase.(pos := pos + 1)))
        .(db := if w.saved[pos].index < |s.db| then UndoOne(s.db, w.saved[pos]) else s.db)
    else
      Put(s, t, w.(phase := if w.phase.terminating then Done else Beginning))
        .(table := UnlockAll(s.table, t), mutex := None)
  }

  /** Worker `t` takes a step. `Shape` holds in every reachable state (lemma `RunKeepsInv`), so it never
      prevents one. */
  ghost predicate Step(s: State, s': State, t: nat, last: nat) {
    && Shape(s)
    && t < |s.workers|
    && match s.workers[t].phase
       case Beginning => Begin(s, s', t)
       case Requesting(_) => s.mutex == None && s' == RequestStep(s, t)
       case Waiting(_) => s.mutex == None && s' == PollStep(s, t)
       case Reading(_) => s' == ReadStep(s, t)
       case Writing(_) => s' == WriteStep(s, t)
       case Committing => s.mutex == None && s' == CommitStep(s, t, last)
       case Undoing(_, _, _) => s.mutex == Some(t) && s' == UndoStep(s, t)
       case Done => false
  }

  ghost predicate Next(s: State, s': State, last: nat) {
    exists t :: Step(s, s', t, last)
  }

  /** A run from the start with `numWorkers` workers, `numRecords` records and last order number `last`. */
  ghost predicate Run(run: seq<State>, numWorkers: nat, numRecords: nat, last: nat) {
    && |run| > 0
    && Init(run[0], numWorkers, numRecords)
    && forall n :: 0 <= n < |run| - 1 ==> Steps(run, n, last)
  }

  ghost predicate Steps(run: seq<State>, n: nat, last: nat)
    requires n + 1 < |run|
  {
    Next(run[n], run[n+1], last)
  }

  // ---------- the lock discipline ----------

  function WaitingSet(s: State): set<nat> {
    set t: nat | t < |s.workers| && s.workers[t].phase.Waiting?
  }

  ghost predicate MutexOk(s: State) {
    forall t: nat :: (t < |s.workers| && s.workers[t].phase.Undoing?) <==> s.mutex == Some(t)
  }

  ghost predicate LockInv(s: State) {
    Shape(s) && MutexOk(s) && Acyclic(s.table, WaitingSet(s))
  }

  /** Only worker `t` differs. */
  ghost predicate OthersSame(s: State, s': State, t: nat) {
    && |s'.workers| == |s.workers|
    && t < |s.workers|
    && (forall u :: 0 <= u < |s.workers| && u != t ==> s'.workers[u] == s.workers[u])
  }

  /** A step that keeps the table, and what worker `t` owns and waits for. */
  lemma LocalLockInv(s: State, s': State, t: nat)
    requires LockInv(s) && OthersSame(s, s', t)
    requires s'.table == s.table && |s'.db| == |s.db| && s'.mutex == s.mutex
    requires WorkerOk(s'.workers[t], |s.db|)
    requires var p, p' := s.workers[t].phase, s'.workers[t].phase;
      && Owned(p') == Owned(p) && BlockedStage(p') == BlockedStage(p)
      && p.Waiting? == p'.Waiting? && p.Undoing? == p'.Undoing?
    requires Owned(s.workers[t].phase) == 0 || forall r :: StageOf(s'.workers[t], r) == StageOf(s.workers[t], r)
    ensures LockInv(s')
  {
    forall u, r | 0 <= u < |s'.workers| && 0 <= r < |s'.db| ensures Owns(s'.table, s'.workers[u], u, r) {
      assert Owns(s.table, s.workers[u], u, r);
    }
    assert WaitingSet(s') == WaitingSet(s);
  }

  /** A step that changes elements of worker `t` only keeps what the others own. */
  lemma OthersOwn(s: State, s': State, t: nat)
    requires Shape(s) && OthersSame(s, s', t)
    requires |s'.table.adj| == |s.table.adj| && |s'.table.locks| == |s.table.locks| && |s'.db| == |s.db|
    requires WellFormed(s'.table)
    requires forall u, r :: u != t ==> SameElement(s.table, s'.table, u, r)
    requires WorkerOk(s'.workers[t], |s.db|)
    requires forall r :: 0 <= r < |s.db| ==> Owns(s'.table, s'.workers[t], t, r)
    ensures Shape(s')
  {
    forall u, r | 0 <= u < |s'.workers| && 0 <= r < |s'.db| ensures Owns(s'.table, s'.workers[u], u, r) {
      assert Owns(s.table, s.workers[u], u, r);
      assert u != t ==> SameElement(s.table, s'.table, u, r);
    }
    forall u | 0 <= u < |s'.workers| ensures WorkerOk(s'.workers[u], |s'.db|) {
      assert WorkerOk(s.workers[u], |s.db|);
    }
  }

  lemma BlockedAreWaiting(s: State)
    requires LockInv(s) && s.mutex == None
    ensures BlockedIn(s.table, WaitingSet(s))
  {
    forall r, p | 0 <= r < |s.table.locks| && 0 <= p < |s.table.locks[r]| && s.table.locks[r][p].isBlocked
      ensures s.table.locks[r][p].tid in WaitingSet(s)
    {
      var t := s.table.locks[r][p].tid;
      PosIs(s.table.locks[r], p);
      assert CoveredAt(s.table, r, p);
      assert Owns(s.table, s.workers[t], t, r);
      assert WorkerOk(s.workers[t], |s.db|);
    }
  }

  /** The requester owns at most one reader element: only stage 0 reads. */
  lemma RequestOneReader(s: State, t: nat)
    requires Shape(s) && t < |s.workers| && s.workers[t].phase.Requesting?
    ensures var w := s.workers[t]; var st := w.phase.stage;
      Target(w, st) < |s.table.locks| && OneReader(AddLock(s.table, t, Target(w, st), st == 0))
  {
    var w := s.workers[t];
    var st := w.phase.stage;
    TargetFree(s, t, st);
    var r0 := Target(w, st);
    var tb' := AddLock(s.table, t, r0, st == 0);
    AddLockElements(s.table, t, r0, st == 0);
    forall u, r, r' | Holds(tb', u, r) && Holds(tb', u, r') && ElementOf(tb', u, r).isReader
      && ElementOf(tb', u, r').isReader
      ensures r == r'
    {
      ReaderIsStageZero(s, t, st, tb', u, r);
      ReaderIsStageZero(s, t, st, tb', u, r');
    }
  }

  lemma ReaderIsStageZero(s: State, t: nat, st: nat, tb': Table, u: nat, r: nat)
    requires Shape(s) && t < |s.workers| && s.workers[t].phase == Requesting(st)
    requires Target(s.workers[t], st) < |s.table.locks|
    requires tb' == AddLock(s.table, t, Target(s.workers[t], st), st == 0)
    requires Holds(tb', t, Target(s.workers[t], st))
    requires ElementOf(tb', t, Target(s.workers[t], st)) == LockElement(t, st == 0, true)
    requires forall x, y :: x != t || y != Target(s.workers[t], st) ==> SameElement(s.table, tb', x, y)
    requires Holds(tb', u, r) && ElementOf(tb', u, r).isReader
    ensures u < |s.workers| && r == s.workers[u].i
  {
    var w := s.workers[t];
    assert WorkerOk(w, |s.db|);
    if u == t && r == Target(w, st) {
    } else {
      assert SameElement(s.table, tb', u, r);
      TokenOf(s.table, u, r);
      assert Owns(s.table, s.workers[u], u, r);
    }
  }

  lemma RequestLockInv(s: State, t: nat)
    requires LockInv(s) && t < |s.workers| && s.workers[t].phase.Requesting? && s.mutex == None
    ensures LockInv(RequestStep(s, t))
  {
    var w := s.workers[t];
    var st := w.phase.stage;
    TargetFree(s, t, st);
    RequestOneReader(s, t);
    BlockedAreWaiting(s);
    RequestLockAcyclic(s.table, WaitingSet(s), t, Target(w, st), st == 0);
    RequestLockElements(s.table, t, Target(w, st), st == 0);
    AfterRequestLockInv(s, t, RequestLock(s.table, t, Target(w, st), st == 0));
  }

  ghost predicate Answered(s: State, t: nat, res: (LockResult, Table))
    requires t < |s.workers| && s.workers[t].phase.Requesting?
  {
    var w := s.workers[t];
    var r := Target(w, w.phase.stage);
    && |res.1.adj| == |s.table.adj| && |res.1.locks| == |s.table.locks|
    && Holds(res.1, t, r) && ElementOf(res.1, t, r) == LockElement(t, w.phase.stage == 0, !res.0.Acquired?)
    && (forall u, x :: u != t || x != r ==> SameElement(s.table, res.1, u, x))
  }

  lemma AfterRequestOwns(s: State, t: nat, res: (LockResult, Table), x: nat)
    requires t < |s.workers| && s.workers[t].phase.Requesting? && Answered(s, t, res) && x < |s.db|
    requires WorkerOk(s.workers[t], |s.db|) && Owns(s.table, s.workers[t], t, x)
    ensures Owns(res.1, AfterRequest(s, t, res).workers[t], t, x)
  {
    var w := s.workers[t];
    assert x != Target(w, w.phase.stage) ==> SameElement(s.table, res.1, t, x);
  }

  lemma AfterRequestLockInv(s: State, t: nat, res: (LockResult, Table))
    requires LockInv(s) && t < |s.workers| && s.workers[t].phase.Requesting? && s.mutex == None
    requires WellFormed(res.1) && Answered(s, t, res)
    requires Acyclic(res.1, if res.0.MustWait? then WaitingSet(s) + {t} else WaitingSet(s))
    ensures LockInv(AfterRequest(s, t, res))
  {
    var s' := AfterRequest(s, t, res);
    assert WorkerOk(s.workers[t], |s.db|);
    forall x | 0 <= x < |s.db| ensures Owns(s'.table, s'.workers[t], t, x) {
      assert Owns(s.table, s.workers[t], t, x);
      AfterRequestOwns(s, t, res, x);
    }
    OthersOwn(s, s', t);
    assert WaitingSet(s') == if res.0.MustWait? then WaitingSet(s) + {t} else WaitingSet(s);
  }

  lemma PollLockInv(s: State, t: nat)
    requires LockInv(s) && t < |s.workers| && s.workers[t].phase.Waiting? && s.mutex == None
    ensures LockInv(PollStep(s, t))
  {
    var w := s.workers[t];
    var st := w.phase.stage;
    var r := Target(w, st);
    var s' := PollStep(s, t);
    TargetHeld(s, t, st);
    if TryEnter(s.table, t, r).0 {
      SetGrantedKeeps(s.table, t, r);
      SetGrantedElements(s.table, t, r);
      SetGrantedAcyclic(s.table, t, r, WaitingSet(s));
      forall x | 0 <= x < |s.db| ensures Owns(s'.table, s'.workers[t], t, x) {
        assert Owns(s.table, w, t, x);
        assert x != r ==> SameElement(s.table, s'.table, t, x);
      }
      OthersOwn(s, s', t);
      forall x, u | x in WaitingSet(s') && Waits(s'.table, x, u) ensures x in WaitingSet(s) {}
      AcyclicMono(s'.table, WaitingSet(s), s'.table, WaitingSet(s'));
    }
  }

  /** `unlockAll` at the end of a transaction. */
  lemma UnlockLockInv(s: State, s': State, t: nat)
    requires LockInv(s) && OthersSame(s, s', t) && |s'.db| == |s.db|
    requires !s.workers[t].phase.Waiting? && (s'.workers[t].phase.Beginning? || s'.workers[t].phase.Done?)
    requires s.mutex == None || s.mutex == Some(t)
    requires s'.table == UnlockAll(s.table, t) && s'.mutex == None
    ensures LockInv(s')
  {
    UnlockAllKeeps(s.table, t);
    UnlockAllElements(s.table, t);
    UnlockAllAcyclic(s.table, t, WaitingSet(s));
    assert WaitingSet(s') == WaitingSet(s);
    OthersOwn(s, s', t);
  }

  lemma InitLockInv(s: State, numWorkers: nat, numRecords: nat)
    requires Init(s, numWorkers, numRecords)
    ensures LockInv(s)
  {
    assert WaitingSet(s) == {};
    NobodyWaits(s.table);
  }

  lemma ReadLockInv(s: State, t: nat)
    requires LockInv(s) && t < |s.workers| && s.workers[t].phase.Reading?
    ensures LockInv(ReadStep(s, t))
  {
    TargetHeld(s, t, s.workers[t].phase.stage);
    LocalLockInv(s, ReadStep(s, t), t);
  }

  lemma WriteLockInv(s: State, t: nat)
    requires LockInv(s) && t < |s.workers| && s.workers[t].phase.Writing?
    ensures LockInv(WriteStep(s, t))
  {
    TargetHeld(s, t, s.workers[t].phase.stage);
    LocalLockInv(s, WriteStep(s, t), t);
  }

  lemma UndoLockInv(s: State, t: nat)
    requires LockInv(s) && t < |s.workers| && s.workers[t].phase.Undoing? && s.mutex == Some(t)
    ensures LockInv(UndoStep(s, t))
  {
    assert WorkerOk(s.workers[t], |s.db|);
    if s.workers[t].phase.pos < |s.workers[t].saved| {
      LocalLockInv(s, UndoStep(s, t), t);
    } else {
      UnlockLockInv(s, UndoStep(s, t), t);
    }
  }

  lemma StepLockInv(s: State, s': State, t: nat, last: nat)
    requires LockInv(s) && Step(s, s', t, last)
    ensures LockInv(s')
  {
    match s.workers[t].phase
    case Beginning => LocalLockInv(s, s', t);
    case Requesting(_) => RequestLockInv(s, t);
    case Waiting(_) => PollLockInv(s, t);
    case Reading(_) => ReadLockInv(s, t);
    case Writing(_) => WriteLockInv(s, t);
    case Committing => CommitLockInv(s, t, last);
    case Undoing(_, _, _) => UndoLockInv(s, t);
  }

  lemma CommitLockInv(s: State, t: nat, last: nat)
    requires LockInv(s) && t < |s.workers| && s.workers[t].phase.Committing? && s.mutex == None
    ensures LockInv(CommitStep(s, t, last))
  {
    var s' := CommitStep(s, t, last);
    if s.order + 1 > last {
      assert WaitingSet(s') == WaitingSet(s);
      forall r | 0 <= r < |s.db| ensures Owns(s'.table, s'.workers[t], t, r) {
        assert Owns(s.table, s.workers[t], t, r);
      }
      assert WorkerOk(s.workers[t], |s.db|);
      OthersOwn(s, s', t);
    } else {
      UnlockLockInv(s, s', t);
    }
  }
}
