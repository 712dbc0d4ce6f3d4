/**
 The calls of the optimistic list come to an end: a validation fails only if another thread has changed the list since
 the round began, and from every reachable state the calls under way can all be finished.
 */
module OptimisticProgress {
  import opened Options
  import opened Sums
  import opened LockFreeHeap
  import opened ListHeap
  import opened LockWaits
  import opened NodeLocks
  import opened OptimisticList

  predicate Busy(phase: Phase) {
    !phase.Idle? && !phase.Returned?
  }

  // ---------- what a failed validation is paid with ----------

  /** While nothing has changed since the round began, the two nodes of the walk are neighbours, and a validation does
      not fail. */
  ghost predicate RoundOk(hist: seq<Heap>, th: Thread)
    requires |hist| > 0
  {
    var quiet := th.round == |hist| - 1;
    && th.start <= th.round < |hist| && th.restarts <= th.round - th.start
    && match th.phase
       case Walk(prev, curr) => quiet ==> Adjacent(hist, prev, curr)
       case LockPrev(prev, curr) => quiet ==> Adjacent(hist, prev, curr)
       case LockCurr(prev, curr) => quiet ==> Adjacent(hist, prev, curr)
       case Validate(prev, curr, _) => quiet ==> Adjacent(hist, prev, curr)
       case FreePrev(_, _, result) => result == None ==> !quiet
       case FreeCurr(_, result) => result == None ==> !quiet
       case _ => true
  }

  ghost predicate Rounds(s: State) {
    |s.hist| > 0 && forall u :: 0 <= u < |s.threads| && !s.threads[u].phase.Idle? ==> RoundOk(s.hist, s.threads[u])
  }

  /** The node after a live one is live. */
  lemma AdjacentNext(hist: seq<Heap>, prev: nat, curr: nat)
    requires |hist| > 0 && Adjacent(hist, prev, curr) && curr != TAIL
    ensures curr < |hist[|hist|-1]| && hist[|hist|-1][curr].next.To?
    ensures Adjacent(hist, curr, hist[|hist|-1][curr].next.id)
  {
    var h := hist[|hist|-1];
    assert prev != TAIL;
    assert LinkOk(h, prev) && LinkOk(h, curr);
    ReachNext(h, HEAD, prev);
  }

  lemma OwnRound(s: State, s': State, u: nat)
    requires Inv(s) && Rounds(s) && Step(s, s', u)
    ensures u < |s'.threads| && |s'.hist| > 0 && (!s'.threads[u].phase.Idle? ==> RoundOk(s'.hist, s'.threads[u]))
  {
    assert ThreadOk(s, u);
    TrailOk(s.hist, Now(s));
    var th := s.threads[u];
    if th.phase.Start? { assert LiveAt(s.hist, Now(s), HEAD); }
    if th.phase.Walk? && th.round == Now(s) && Mem(s)[th.phase.curr].key < th.op.key {
      AdjacentNext(s.hist, th.phase.prev, th.phase.curr);
    }
    if th.phase.Validate? { ValidateInv(s, s', u); }
  }

  lemma OtherRound(hist: seq<Heap>, hist': seq<Heap>, th: Thread)
    requires |hist| > 0 && RoundOk(hist, th) && (hist' == hist || |hist'| == |hist| + 1)
    ensures RoundOk(hist', th)
  {
  }

  lemma StepSame(s: State, s': State, w: nat)
    requires Inv(s) && Step(s, s', w)
    ensures |s'.threads| == |s.threads| && Recorded(s, s', w)
    ensures forall u :: 0 <= u < |s.threads| && u != w ==> s'.threads[u] == s.threads[u]
    ensures s'.hist == s.hist || (|s'.hist| == |s.hist| + 1 && HasStored(s'.threads[w]) && !HasStored(s.threads[w]))
  {
    assert ThreadOk(s, w);
    StepRecorded(s, s', w);
  }

  lemma StepRounds(s: State, s': State, u: nat)
    requires Inv(s) && Rounds(s) && Step(s, s', u)
    ensures Rounds(s')
  {
    OwnRound(s, s', u);
    StepSame(s, s', u);
    forall w | 0 <= w < |s'.threads| && !s'.threads[w].phase.Idle? ensures RoundOk(s'.hist, s'.threads[w]) {
      if w != u { OtherRound(s.hist, s'.hist, s.threads[w]); }
    }
  }

  lemma {:induction false} RunKeepsRounds(run: seq<State>, n: nat)
    requires Run(run) && n < |run|
    ensures Inv(run[n]) && Rounds(run[n])
  {
    RunKeepsInv(run, n);
    if n > 0 {
      RunKeepsRounds(run, n - 1);
      assert Steps(run, n - 1);
      var u: nat :| Step(run[n-1], run[n], u);
      StepRounds(run[n-1], run[n], u);
    }
  }

  /** A call fails to validate at most as often as other threads have changed the list since it began. */
  lemma RestartsMeanProgress(run: seq<State>, n: nat, u: nat)
    requires Run(run) && n < |run| && u < |run[n].threads| && Busy(run[n].threads[u].phase)
    ensures var s, th := run[n], run[n].threads[u];
      && |s.hist| == |s.writers| + 1 && th.restarts <= |s.writers| - th.start
      && (!HasStored(th) ==> NoneBy(s.writers, u, th.start))
  {
    RunKeepsRounds(run, n);
    RunKeepsWriters(run, n);
    assert MadeOk(run[n], u);
  }

  // ---------- how far a call has to go ----------

  /** A whole round. */
  const ROUND: nat := 2 * (MAX_KEY - MIN_KEY) + 9

  function Base(h: Heap, phase: Phase): nat {
    match phase
    case Start => ROUND
    case Walk(_, curr) => ToTail(h, curr) + (MAX_KEY - MIN_KEY) + 8
    case LockPrev(_, _) => (MAX_KEY - MIN_KEY) + 7
    case LockCurr(_, _) => (MAX_KEY - MIN_KEY) + 6
    case Validate(_, _, it) => ToTail(h, it) + 5
    case Act(_, _) => 4
    case Cut(_, _, _) => 3
    case FreePrev(_, _, _) => 2
    case FreeCurr(_, _) => 1
    case _ => 0
  }

  /** A round that others have disturbed may have to be repeated. */
  function Rank(s: State, th: Thread): nat
    requires |s.hist| > 0
  {
    Base(Mem(s), th.phase) + if th.round < Now(s) && Busy(th.phase) then ROUND + 1 else 0
  }

  function Ranks(s: State): seq<nat>
    requires |s.hist| > 0
  {
    seq(|s.threads|, u requires 0 <= u < |s.threads| => Rank(s, s.threads[u]))
  }

  /** The calls that may still store. */
  function Pending(s: State): seq<nat> {
    seq(|s.threads|, u requires 0 <= u < |s.threads| =>
      if Busy(s.threads[u].phase) && !HasStored(s.threads[u]) then 1 else 0)
  }

  lemma QuietFalls(s: State, s': State, u: nat)
    requires Inv(s) && Rounds(s) && Step(s, s', u) && Busy(s.threads[u].phase) && s'.hist == s.hist
    ensures u < |s'.threads| && Rank(s', s'.threads[u]) < Rank(s, s.threads[u])
  {
    assert ThreadOk(s, u);
    TrailOk(s.hist, Now(s));
    var h := Mem(s);
    var th := s.threads[u];
    assert RoundOk(s.hist, th);
    if th.phase.Start? { ToNext(h, HEAD); }
    if th.phase.Walk? && h[th.phase.curr].key < th.op.key { ToNext(h, th.phase.curr); }
    if th.phase.Validate? && h[th.phase.it].next.To? { ToNext(h, th.phase.it); }
  }

  // ---------- somebody under way can move ----------

  /** The chain of lock waits from a call under way ends at a call under way. */
  lemma BusyMoves(s: State, t: nat) returns (w: nat, s': State)
    requires Inv(s) && t < |s.threads| && Busy(s.threads[t].phase)
    ensures Step(s, s', w) && Busy(s.threads[w].phase)
  {
    WaitsRise(s);
    var path := EndOfChain(ViewOf(s), t);
    w := path[|path|-1];
    if |path| > 1 {
      assert WaitLink(ViewOf(s), path, |path| - 2);
      OwnerIsBusy(s, path[|path|-2], w);
    }
    s' := FreeMoves(s, w);
  }

  lemma OwnerIsBusy(s: State, t: nat, w: nat)
    requires Inv(s) && WaitsOn(ViewOf(s), t, w) && w < |s.threads|
    ensures Busy(s.threads[w].phase)
  {
    assert LockOk(s.locks, Holding(s), Wanted(s.threads[t]).value, w);
  }

  // ---------- the run goes on ----------

  function Final(run: seq<State>): State
    requires run != []
  {
    run[|run|-1]
  }

  ghost predicate NobodyBusy(s: State) {
    forall u :: 0 <= u < |s.threads| ==> !Busy(s.threads[u].phase)
  }

  /** The call of `u` is the same, and over if it was over. */
  ghost predicate SameCall(th: Thread, th': Thread) {
    if Busy(th.phase) then !th'.phase.Idle? && th'.op == th.op && th'.start == th.start else th' == th
  }

  ghost predicate SameCalls(s: State, s': State) {
    |s'.threads| == |s.threads| && forall u :: 0 <= u < |s.threads| ==> SameCall(s.threads[u], s'.threads[u])
  }

  /** An idle thread may call any operation on any key but those of the sentinels. */
  lemma AnyCall(run: seq<State>, t: nat, op: Op)
    requires Run(run) && t < |Final(run).threads| && Final(run).threads[t].phase.Idle?
    requires -2147483648 < op.key < 2147483647
    ensures exists s' :: Step(Final(run), s', t) && s'.threads[t].op == op && Busy(s'.threads[t].phase)
  {
    RunKeepsInv(run, |run| - 1);
    var s := Final(run);
    TrailOk(s.hist, Now(s));
    var s' := Put(s, t, Thread(Start, op, Now(s), 0, 0, Now(s), 0));
    assert Call(s, s', t);
    assert Step(s, s', t);
  }

  lemma Extend(run: seq<State>, s': State, w: nat)
    requires Run(run) && Step(Final(run), s', w)
    ensures Run(run + [s']) && Final(run + [s']) == s'
  {
    var run' := run + [s'];
    assert Next(Final(run), s');
    forall n | 0 <= n < |run'| - 1 ensures Steps(run', n) { if n < |run| - 1 { assert Steps(run, n); } }
  }

  /** One more step: a call stores, or all calls together are nearer to their returns. */
  lemma StepFalls(s: State, s': State, w: nat)
    requires Inv(s) && Rounds(s) && Step(s, s', w) && Busy(s.threads[w].phase) && |s'.hist| > 0
    ensures Sum(Pending(s')) < Sum(Pending(s))
      || (Sum(Pending(s')) <= Sum(Pending(s)) && Sum(Ranks(s')) < Sum(Ranks(s)))
  {
    StepSame(s, s', w);
    SumAt(Pending(s), Pending(s'), w);
    if s'.hist == s.hist {
      QuietFalls(s, s', w);
      SumAt(Ranks(s), Ranks(s'), w);
    }
  }

  lemma OneMore(run: seq<State>) returns (s': State)
    requires Run(run) && !NobodyBusy(Final(run))
    ensures |Final(run).hist| > 0 && |s'.hist| > 0
    ensures Run(run + [s']) && Final(run + [s']) == s' && SameCalls(Final(run), s')
    ensures var s := Final(run);
      Sum(Pending(s')) < Sum(Pending(s)) || (Sum(Pending(s')) <= Sum(Pending(s)) && Sum(Ranks(s')) < Sum(Ranks(s)))
  {
    var s := Final(run);
    RunKeepsRounds(run, |run| - 1);
    var t: nat :| t < |s.threads| && Busy(s.threads[t].phase);
    var w;
    w, s' := BusyMoves(s, t);
    Extend(run, s', w);
    StepSame(s, s', w);
    StaysInCall(s, s', w, w);
    StepFalls(s, s', w);
  }

  /** From every reachable state the run can be continued, without a new call, until all calls have returned. */
  lemma {:induction false} EveryCallCanReturn(run: seq<State>) returns (run': seq<State>)
    requires Run(run)
    ensures run <= run' && Run(run') && NobodyBusy(Final(run')) && SameCalls(Final(run), Final(run'))
    decreases Sum(Pending(Final(run))), if |Final(run).hist| > 0 then Sum(Ranks(Final(run))) else 0
  {
    if NobodyBusy(Final(run)) {
      run' := run;
    } else {
      var s' := OneMore(run);
      run' := EveryCallCanReturn(run + [s']);
    }
  }
}
