/**
 The workers come to an end: once a worker has drawn an order number past the last one it is done for good, and from
 every reachable state the run can be continued until all workers are.
 */
module Termination {
  import opened Options
  import opened Sums
  import opened Locks
  import opened Deadlock
  import opened Storage
  import opened Transactions
  import opened Serializability
  import opened Refusals
  import opened Engine

  // ---------- one step of one worker ----------

  /** How a step takes a worker on, and what it makes of the order counter. */
  ghost predicate Moved(w: Worker, w': Worker, order: nat, order': nat, last: nat) {
    && (order' == if w.phase.Committing? then order + 1 else order)
    && (w.phase.Reading? || w.phase.Writing? || w.phase.Beginning? || w'.saved == w.saved)
    && match w.phase
       case Beginning => w'.phase == Requesting(0)
       case Requesting(st) => w'.phase in {Reading(st), Waiting(st), Undoing(0, st + 1, false)}
       case Waiting(st) => w' == w || w'.phase == Reading(st)
       case Reading(st) => w'.phase == if st == 0 then Requesting(1) else if st == 1 then Writing(1) else Writing(2)
       case Writing(st) => w'.phase == if st == 1 then Requesting(2) else Committing
       case Committing => w'.phase == if order' > last then Undoing(0, 3, true) else Beginning
       case Undoing(pos, _, terminating) =>
         if pos < |w.saved| then w'.phase == w.phase.(pos := pos + 1)
         else w'.phase == if terminating then Done else Beginning
       case Done => false
  }

  ghost predicate MovedBy(s: State, s': State, t: nat, last: nat) {
    OthersSame(s, s', t) && Moved(s.workers[t], s'.workers[t], s.order, s'.order, last)
  }

  lemma RequestMoves(s: State, t: nat, res: (LockResult, Table), last: nat)
    requires t < |s.workers| && s.workers[t].phase.Requesting?
    ensures MovedBy(s, AfterRequest(s, t, res), t, last)
  {
  }

  lemma PollMoves(s: State, t: nat, last: nat)
    requires Shape(s) && t < |s.workers| && s.workers[t].phase.Waiting?
    ensures MovedBy(s, PollStep(s, t), t, last)
  {
    TargetHeld(s, t, s.workers[t].phase.stage);
  }

  lemma ReadMoves(s: State, t: nat, last: nat)
    requires Shape(s) && t < |s.workers| && s.workers[t].phase.Reading?
    ensures MovedBy(s, ReadStep(s, t), t, last)
  {
    TargetHeld(s, t, s.workers[t].phase.stage);
  }

  lemma WriteMoves(s: State, t: nat, last: nat)
    requires Shape(s) && t < |s.workers| && s.workers[t].phase.Writing?
    ensures MovedBy(s, WriteStep(s, t), t, last)
  {
    TargetHeld(s, t, s.workers[t].phase.stage);
  }

  lemma CommitMoves(s: State, t: nat, last: nat)
    requires t < |s.workers| == |s.table.adj| && s.workers[t].phase.Committing?
    ensures MovedBy(s, CommitStep(s, t, last), t, last)
  {
  }

  lemma UndoStepMoves(s: State, t: nat, last: nat)
    requires t < |s.workers| == |s.table.adj| && s.workers[t].phase.Undoing?
    ensures MovedBy(s, UndoStep(s, t), t, last)
  {
  }

  lemma StepMoves(s: State, s': State, t: nat, last: nat)
    requires Step(s, s', t, last)
    ensures MovedBy(s, s', t, last)
  {
    match s.workers[t].phase
    case Beginning =>
    case Requesting(st) =>
      TargetFree(s, t, st);
      RequestMoves(s, t, RequestLock(s.table, t, Target(s.workers[t], st), st == 0), last);
    case Waiting(_) => PollMoves(s, t, last);
    case Reading(_) => ReadMoves(s, t, last);
    case Writing(_) => WriteMoves(s, t, last);
    case Committing => CommitMoves(s, t, last);
    case Undoing(_, _, _) => UndoStepMoves(s, t, last);
  }

  // ---------- done for good ----------

  /** A worker past the last order number undoes its writes and is then done; done it stays. */
  ghost predicate Onward(phase: Phase, phase': Phase) {
    && (Finishing(phase) ==> Finishing(phase'))
    && (phase.Done? ==> phase'.Done?)
  }

  lemma NextOnward(s: State, s': State, last: nat, t: nat)
    requires Next(s, s', last) && t < |s.workers|
    ensures t < |s'.workers| && Onward(s.workers[t].phase, s'.workers[t].phase)
  {
    var u :| Step(s, s', u, last);
    StepMoves(s, s', u, last);
  }

  lemma RunSizes(run: seq<State>, numWorkers: nat, numRecords: nat, last: nat, n: nat)
    requires Run(run, numWorkers, numRecords, last) && n < |run|
    ensures |run[n].workers| == numWorkers && |run[n].db| == numRecords
  {
    RunKeepsInv(run, numWorkers, numRecords, last, n);
  }

  lemma {:induction false} StaysOnward(run: seq<State>, numWorkers: nat, numRecords: nat, last: nat,
                                       n: nat, m: nat, t: nat)
    requires Run(run, numWorkers, numRecords, last) && n <= m < |run| && t < numWorkers
    ensures |run[n].workers| == |run[m].workers| == numWorkers
    ensures Onward(run[n].workers[t].phase, run[m].workers[t].phase)
  {
    RunSizes(run, numWorkers, numRecords, last, n);
    RunSizes(run, numWorkers, numRecords, last, m);
    if n < m {
      StaysOnward(run, numWorkers, numRecords, last, n, m - 1, t);
      assert Steps(run, m - 1, last);
      NextOnward(run[m-1], run[m], last, t);
    }
  }

  /** A worker that has drawn an order number past the last one undoes its writes, and from then on is done. */
  lemma TerminatedIsDone(run: seq<State>, numWorkers: nat, numRecords: nat, last: nat, n: nat, m: nat, t: nat)
    requires Run(run, numWorkers, numRecords, last) && n <= m < |run| && t < numWorkers
    ensures |run[n].workers| == |run[m].workers| == numWorkers
    ensures var phase, phase' := run[n].workers[t].phase, run[m].workers[t].phase;
      && (phase.Undoing? && phase.terminating ==> phase'.Done? || (phase'.Undoing? && phase'.terminating))
      && (phase.Done? ==> phase'.Done?)
  {
    StaysOnward(run, numWorkers, numRecords, last, n, m, t);
  }

  // ---------- how far the transactions under way have to go ----------

  function Rank(w: Worker): nat {
    match w.phase
    case Beginning => 0
    case Done => 0
    case Undoing(pos, _, _) => if pos < |w.saved| then 1 + |w.saved| - pos else 1
    case Committing => 5
    case Writing(st) => if st <= 2 then 14 - 4 * st else 0
    case Reading(st) => if st <= 2 then 15 - 4 * st else 0
    case Waiting(st) => if st <= 2 then 16 - 4 * st else 0
    case Requesting(st) => if st <= 2 then 17 - 4 * st else 0
  }

  lemma MoveLowersRank(w: Worker, w': Worker, order: nat, order': nat, last: nat)
    requires Moved(w, w', order, order', last) && w' != w && Active(w.phase) && PhaseOk(w.phase) && |w.saved| <= 3
    ensures Rank(w') < Rank(w)
  {
  }

  lemma SavedAtMostThree(s: State, last: nat, t: nat)
    requires Inv(s, last) && t < |s.workers| && Active(s.workers[t].phase)
    ensures |s.workers[t].saved| <= 3 && PhaseOk(s.workers[t].phase)
  {
    assert WorkerOk(s.workers[t], |s.db|);
    assert LocalOk(s.workers[t], Validator.Replay(s.history, |s.db|));
  }

  lemma StepChangesWorker(s: State, s': State, t: nat, last: nat)
    requires Step(s, s', t, last) && s' != s && MovedBy(s, s', t, last) && |s.workers[t].saved| <= 3
    ensures s'.workers[t] != s.workers[t]
  {
    if s.workers[t].phase.Waiting? { TargetHeld(s, t, s.workers[t].phase.stage); }
  }

  /** Every step of a transaction under way brings it nearer to its end, whatever the others do in between. */
  lemma RankFalls(s: State, s': State, t: nat, last: nat)
    requires Inv(s, last) && Step(s, s', t, last) && s' != s && Active(s.workers[t].phase)
    ensures MovedBy(s, s', t, last) && Rank(s'.workers[t]) < Rank(s.workers[t])
  {
    SavedAtMostThree(s, last, t);
    StepMoves(s, s', t, last);
    StepChangesWorker(s, s', t, last);
    MoveLowersRank(s.workers[t], s'.workers[t], s.order, s'.order, last);
  }

  function Ranks(s: State): seq<nat> {
    seq(|s.workers|, t requires 0 <= t < |s.workers| => Rank(s.workers[t]))
  }

  // ---------- continuing a run ----------

  function Final(run: seq<State>): State
    requires run != []
  {
    run[|run|-1]
  }

  ghost predicate Quiet(s: State) {
    forall t :: 0 <= t < |s.workers| ==> !Active(s.workers[t].phase)
  }

  lemma Extend(run: seq<State>, numWorkers: nat, numRecords: nat, last: nat, s': State, t: nat)
    requires Run(run, numWorkers, numRecords, last) && Step(Final(run), s', t, last)
    ensures Run(run + [s'], numWorkers, numRecords, last)
  {
    var run' := run + [s'];
    assert Next(Final(run), s', last);
    forall n | 0 <= n < |run'| - 1 ensures Steps(run', n, last) {
      if n < |run| - 1 { assert Steps(run, n, last); }
    }
  }

  /** One step of a transaction under way, by continuing the run. */
  lemma Advance(run: seq<State>, numWorkers: nat, numRecords: nat, last: nat) returns (s': State, t: nat)
    requires Run(run, numWorkers, numRecords, last) && numRecords >= 3 && !Quiet(Final(run))
    ensures Run(run + [s'], numWorkers, numRecords, last)
    ensures Step(Final(run), s', t, last) && MovedBy(Final(run), s', t, last) && Active(Final(run).workers[t].phase)
    ensures Rank(s'.workers[t]) < Rank(Final(run).workers[t])
  {
    RunKeepsInv(run, numWorkers, numRecords, last, |run| - 1);
    t, s' := ActiveCanStep(Final(run), last);
    RankFalls(Final(run), s', t, last);
    Extend(run, numWorkers, numRecords, last, s', t);
  }

  /** All transactions under way can be brought to an end. */
  lemma {:induction false} Drain(run: seq<State>, numWorkers: nat, numRecords: nat, last: nat)
    returns (run': seq<State>)
    requires Run(run, numWorkers, numRecords, last) && numRecords >= 3
    ensures run <= run' && Run(run', numWorkers, numRecords, last) && Quiet(Final(run'))
    decreases Sum(Ranks(Final(run)))
  {
    if Quiet(Final(run)) {
      run' := run;
    } else {
      var s', t := Advance(run, numWorkers, numRecords, last);
      SumAt(Ranks(Final(run)), Ranks(s'), t);
      run' := Drain(run + [s'], numWorkers, numRecords, last);
    }
  }

  // ---------- one transaction alone ----------

  /** Nobody but worker `t` has a transaction under way. */
  ghost predicate Solo(s: State, t: nat) {
    t < |s.workers| && forall u :: 0 <= u < |s.workers| && u != t ==> !Active(s.workers[u].phase)
  }

  lemma BlockedOwner(s: State, u: nat, r: nat, p: nat)
    requires Shape(s) && BlockedAt(s.table, u, r, p)
    ensures u < |s.workers| && Active(s.workers[u].phase)
  {
    PosIs(s.table.locks[r], p);
    assert CoveredAt(s.table, r, p);
    assert Owns(s.table, s.workers[u], u, r);
  }

  lemma NobodyElseBlocks(s: State, t: nat, u: nat)
    requires Shape(s) && Solo(s, t) && u != t
    ensures !BlockedSomewhere(s.table, u)
  {
    if BlockedSomewhere(s.table, u) {
      var r: nat, p: nat :| BlockedAt(s.table, u, r, p);
      BlockedOwner(s, u, r, p);
    }
  }

  ghost predicate Unrefused(phase: Phase) {
    phase.Undoing? ==> phase.terminating
  }

  lemma SoloIsNotRefused(s: State, s': State, t: nat, last: nat)
    requires Solo(s, t) && Step(s, s', t, last) && MovedBy(s, s', t, last) && Unrefused(s.workers[t].phase)
    ensures Unrefused(s'.workers[t].phase)
  {
    var w := s.workers[t];
    if w.phase.Requesting? {
      var st := w.phase.stage;
      TargetFree(s, t, st);
      forall u: nat | u != t ensures !BlockedSomewhere(s.table, u) { NobodyElseBlocks(s, t, u); }
      NoRefusalWithoutWaiter(s.table, t, Target(w, st), st == 0);
      assert s' == AfterRequest(s, t, RequestLock(s.table, t, Target(w, st), st == 0));
    }
  }

  /** A transaction alone is not refused: it commits with the next order number, or this is past the last one and the
      worker is done. */
  lemma {:induction false} SoloRuns(run: seq<State>, numWorkers: nat, numRecords: nat, last: nat, t: nat)
    returns (run': seq<State>)
    requires Run(run, numWorkers, numRecords, last) && numRecords >= 3
    requires Solo(Final(run), t) && Active(Final(run).workers[t].phase) && Unrefused(Final(run).workers[t].phase)
    ensures run <= run' && Run(run', numWorkers, numRecords, last) && Quiet(Final(run'))
    ensures OthersSame(Final(run), Final(run'), t)
    ensures var s, s' := Final(run), Final(run');
      && s.order <= s'.order
      && (s'.workers[t].phase.Done? || (!s.workers[t].phase.Undoing? && s'.order == s.order + 1 <= last))
    decreases Rank(Final(run).workers[t])
  {
    var s := Final(run);
    var s', u := Advance(run, numWorkers, numRecords, last);
    assert u == t;
    SoloIsNotRefused(s, s', t, last);
    var longer := run + [s'];
    assert Final(longer) == s';
    if Active(s'.workers[t].phase) {
      run' := SoloRuns(longer, numWorkers, numRecords, last, t);
    } else {
      run' := longer;
    }
  }

  /** A worker at the beginning may pick any three distinct records. */
  lemma AnyThreeRecords(run: seq<State>, numWorkers: nat, numRecords: nat, last: nat, t: nat, i: nat, j: nat, k: nat)
    returns (s': State)
    requires Run(run, numWorkers, numRecords, last) && t < |Final(run).workers|
    requires Final(run).workers[t].phase.Beginning?
    requires i < numRecords && j < numRecords && k < numRecords && i != j && j != k && k != i
    ensures Run(run + [s'], numWorkers, numRecords, last) && Final(run + [s']) == s'
    ensures s' == Put(Final(run), t,
                      Final(run).workers[t].(phase := Requesting(0), i := i, j := j, k := k, saved := []))
  {
    RunKeepsInv(run, numWorkers, numRecords, last, |run| - 1);
    s' := Put(Final(run), t, Final(run).workers[t].(phase := Requesting(0), i := i, j := j, k := k, saved := []));
    assert Begin(Final(run), s', t);
    Extend(run, numWorkers, numRecords, last, s', t);
  }

  // ---------- the end ----------

  function Unfinished(s: State): seq<nat> {
    seq(|s.workers|, t requires 0 <= t < |s.workers| => if s.workers[t].phase.Done? then 0 else 1)
  }

  function ToGo(s: State, last: nat): nat {
    Sum(Unfinished(s)) + if s.order < last then last - s.order else 0
  }

  /** One more transaction, of worker `t` alone. */
  lemma OneMore(run: seq<State>, numWorkers: nat, numRecords: nat, last: nat, t: nat) returns (run': seq<State>)
    requires Run(run, numWorkers, numRecords, last) && numRecords >= 3 && Quiet(Final(run))
    requires t < |Final(run).workers| && !Final(run).workers[t].phase.Done?
    ensures run <= run' && Run(run', numWorkers, numRecords, last) && Quiet(Final(run'))
    ensures ToGo(Final(run'), last) < ToGo(Final(run), last)
  {
    var s := Final(run);
    var s' := AnyThreeRecords(run, numWorkers, numRecords, last, t, 0, 1, 2);
    run' := SoloRuns(run + [s'], numWorkers, numRecords, last, t);
    SumAt(Unfinished(s), Unfinished(Final(run')), t);
  }

  lemma {:induction false} Finish(run: seq<State>, numWorkers: nat, numRecords: nat, last: nat)
    returns (run': seq<State>)
    requires Run(run, numWorkers, numRecords, last) && numRecords >= 3 && Quiet(Final(run))
    ensures run <= run' && Run(run', numWorkers, numRecords, last)
    ensures forall t :: 0 <= t < |Final(run').workers| ==> Final(run').workers[t].phase.Done?
    decreases ToGo(Final(run), last)
  {
    if t: nat :| t < |Final(run).workers| && !Final(run).workers[t].phase.Done? {
      run' := OneMore(run, numWorkers, numRecords, last, t);
      run' := Finish(run', numWorkers, numRecords, last);
    } else {
      run' := run;
    }
  }

  /** From every reachable state some continuation of the run leads to a state in which every worker is done. */
  lemma EveryRunCanFinish(run: seq<State>, numWorkers: nat, numRecords: nat, last: nat) returns (run': seq<State>)
    requires Run(run, numWorkers, numRecords, last) && numRecords >= 3
    ensures run <= run' && Run(run', numWorkers, numRecords, last)
    ensures forall t :: 0 <= t < |Final(run').workers| ==> Final(run').workers[t].phase.Done?
  {
    run' := Drain(run, numWorkers, numRecords, last);
    run' := Finish(run', numWorkers, numRecords, last);
  }
}
