/**
 A call of the lock-free list that goes on alone returns: each of its steps brings it nearer to its end, from every
 reachable state, whatever the others have left behind.
 */
module LockFreeAlone {
  import opened LockFreeHeap
  import opened LockFreeList
  import opened LockFreeCalls

  predicate Busy(phase: Phase) {
    !phase.Idle? && !phase.Returned?
  }

  /** A whole search. */
  const ROUND: nat := 2 * (MAX_KEY - MIN_KEY) + 6

  function Base(h: Heap, phase: Phase): nat {
    match phase
    case Find => ROUND
    case Walk(_, curr) => 2 * ToTail(h, curr) + 5
    case Unlink(_, curr, _) => 2 * ToTail(h, curr) + 4
    case Insert(_, _) => 3
    case Load(_) => 3
    case Mark(_, _) => 2
    case Look(curr) => ToTail(h, curr) + 1
    case _ => 0
  }

  /** A search that others have disturbed may have to be repeated, and so has one after a mark. */
  ghost function Rank(h: Heap, writers: seq<nat>, t: nat, th: Thread): nat {
    if !Busy(th.phase) then 0 else
      Base(h, th.phase)
      + (if OwnSince(writers, t, th.round) then 0 else ROUND + 1)
      + (if th.op.Remove? && Contains(h, th.op.key) then ROUND + 1 else 0)
  }

  ghost function RankOf(s: State, t: nat): nat
    requires t < |s.threads| && |s.hist| > 0
  {
    Rank(Mem(s), s.writers, t, s.threads[t])
  }

  // ---------- each step ----------

  lemma FindFalls(s: State, s': State, t: nat)
    requires Step(s, s', t) && HeapOk(Mem(s)) && s.threads[t].phase.Find? && |s.hist| == |s.writers| + 1
    ensures RankOf(s', t) < RankOf(s, t)
  {
    ToNext(Mem(s), HEAD);
  }

  lemma WalkFalls(s: State, s': State, t: nat)
    requires Step(s, s', t) && HeapOk(Mem(s)) && s.threads[t].phase.Walk? && s.threads[t].op.key < MAX_KEY
    ensures RankOf(s', t) < RankOf(s, t)
  {
    if s.threads[t].phase.curr != TAIL { ToNext(Mem(s), s.threads[t].phase.curr); }
  }

  lemma LookFalls(s: State, s': State, t: nat)
    requires Step(s, s', t) && HeapOk(Mem(s)) && s.threads[t].phase.Look? && s.threads[t].op.key < MAX_KEY
    ensures RankOf(s', t) < RankOf(s, t)
  {
    if s.threads[t].phase.curr != TAIL { ToNext(Mem(s), s.threads[t].phase.curr); }
  }

  lemma RetryFalls(s: State, t: nat)
    requires t < |s.threads| && |s.hist| == |s.writers| + 1 && Busy(s.threads[t].phase)
    requires !OwnSince(s.writers, t, s.threads[t].round)
    ensures RankOf(Retry(s, t), t) < RankOf(s, t)
  {
  }

  lemma UnlinkFalls(s: State, s': State, t: nat)
    requires Inv(s) && CallsOk(s) && Step(s, s', t) && s.threads[t].phase.Unlink?
    ensures RankOf(s', t) < RankOf(s, t)
  {
    assert ThreadOk(s, t);
    var h := Mem(s);
    var phase := s.threads[t].phase;
    HeapAtOk(s.hist, |s.hist| - 1);
    assert phase.curr != TAIL;
    ToNext(h, phase.curr);
    if Cas(h, phase.prev, To(phase.curr)) {
      UnlinkOk(h, phase.prev, phase.curr);
      OwnSwing(s.writers, t, s.threads[t].round);
    } else {
      assert CallOk(s.hist, s.writers, t, s.threads[t]);
      RetryFalls(s, t);
    }
  }

  lemma OwnSwing(writers: seq<nat>, t: nat, a: nat)
    requires a <= |writers|
    ensures OwnSince(writers + [t], t, a) <==> OwnSince(writers, t, a)
  {
    if OwnSince(writers + [t], t, a) {
      forall i | a <= i < |writers| ensures writers[i] == t { assert (writers + [t])[i] == t; }
    }
  }

  lemma MarkFalls(s: State, s': State, t: nat)
    requires Inv(s) && CallsOk(s) && Step(s, s', t) && s.threads[t].phase.Mark?
    ensures RankOf(s', t) < RankOf(s, t)
  {
    assert ThreadOk(s, t);
    var h := Mem(s);
    var phase := s.threads[t].phase;
    HeapAtOk(s.hist, |s.hist| - 1);
    assert CallOk(s.hist, s.writers, t, s.threads[t]);
    if Cas(h, phase.curr, phase.succ) {
      MarkOk(h, phase.curr);
      OwnSwing(s.writers, t, s.threads[t].round);
    } else {
      RetryFalls(s, t);
    }
  }

  lemma InsertFalls(s: State, s': State, t: nat)
    requires CallsOk(s) && Step(s, s', t) && s.threads[t].phase.Insert?
    ensures RankOf(s', t) < RankOf(s, t)
  {
    assert CallOk(s.hist, s.writers, t, s.threads[t]);
    if !Cas(Mem(s), s.threads[t].phase.prev, To(s.threads[t].phase.curr)) { RetryFalls(s, t); }
  }

  lemma StepFalls(s: State, s': State, t: nat)
    requires Inv(s) && CallsOk(s) && Step(s, s', t) && Busy(s.threads[t].phase)
    ensures t < |s'.threads| && |s'.hist| > 0 && RankOf(s', t) < RankOf(s, t)
  {
    assert ThreadOk(s, t);
    HeapAtOk(s.hist, |s.hist| - 1);
    match s.threads[t].phase
    case Find => FindFalls(s, s', t);
    case Walk(_, _) => WalkFalls(s, s', t);
    case Unlink(_, _, _) => UnlinkFalls(s, s', t);
    case Insert(_, _) => InsertFalls(s, s', t);
    case Load(_) =>
    case Mark(_, _) => MarkFalls(s, s', t);
    case Look(_) => LookFalls(s, s', t);
  }

  /** A call under way always has a step, and no other way to become idle than to return. */
  lemma HasStep(s: State, t: nat) returns (s': State)
    requires Inv(s) && t < |s.threads| && Busy(s.threads[t].phase)
    ensures Step(s, s', t) && !s'.threads[t].phase.Idle? && s'.threads[t].op == s.threads[t].op
  {
    assert ThreadOk(s, t);
    HeapAtOk(s.hist, |s.hist| - 1);
    var h := Mem(s);
    var th := s.threads[t];
    assert LinkOk(h, HEAD);
    match th.phase
    case Find => s' := PutThread(s, t, FirstNode(th, h, |s.hist| - 1));
    case Walk(prev, curr) => s' := Put(s, t, AfterWalk(h, th.op, prev, curr));
    case Unlink(prev, curr, succ) =>
      s' := if Cas(h, prev, To(curr)) && succ.To?
            then Swing(s, t, th.(phase := Walk(prev, succ.id)), h[prev := h[prev].(next := succ)])
            else Retry(s, t);
    case Insert(prev, curr) =>
      s' := if Cas(h, prev, To(curr))
            then Swing(s, t, th.(phase := Returned(true), at := |s.hist| - 1), InsertNode(h, prev, curr, th.op.key))
            else Retry(s, t);
    case Load(curr) => s' := Put(s, t, Mark(curr, h[curr].next));
    case Mark(curr, succ) =>
      s' := if Cas(h, curr, succ) then Swing(s, t, th.(phase := Find, marks := th.marks + 1), MarkNode(h, curr))
            else Retry(s, t);
    case Look(curr) =>
      if curr != TAIL { assert LinkOk(h, curr); }
      s' := Put(s, t, AfterLook(h, th.op, curr));
  }

  /** An idle thread may call any operation on any key but those of the sentinels. */
  lemma AnyCall(run: seq<State>, t: nat, op: Op)
    requires Run(run) && t < |run[|run|-1].threads| && run[|run|-1].threads[t].phase.Idle?
    requires -2147483648 < op.key < 2147483647
    ensures exists s' :: Step(run[|run|-1], s', t) && s'.threads[t].op == op && Busy(s'.threads[t].phase)
  {
    RunKeepsInv(run, |run| - 1);
    var s := run[|run|-1];
    HeapAtOk(s.hist, |s.hist| - 1);
    var s' := PutThread(s, t, NewCall(op, |s.hist| - 1));
    assert Call(s, s', t);
    assert Step(s, s', t);
  }

  // ---------- the run goes on ----------

  ghost predicate AloneFrom(run: seq<State>, n: nat, t: nat) {
    forall m :: n <= m < |run| - 1 ==> StepsOf(run, m, t)
  }

  ghost predicate StepsOf(run: seq<State>, n: nat, t: nat)
    requires n + 1 < |run|
  {
    Step(run[n], run[n+1], t)
  }

  lemma RankBound(s: State, t: nat)
    requires Inv(s) && t < |s.threads|
    ensures RankOf(s, t) <= 3 * ROUND + 2
  {
    HeapAtOk(s.hist, |s.hist| - 1);
    assert ThreadOk(s, t);
    var h := Mem(s);
    forall n | 0 <= n < |h| ensures h[n].key >= MIN_KEY { assert n != TAIL ==> LinkOk(h, n); }
  }

  /** From every reachable state a call that goes on alone returns, within a number of its steps that depends on the
      range of the keys only. */
  lemma {:induction false} AloneReturns(run: seq<State>, t: nat) returns (run': seq<State>)
    requires Run(run) && t < |run[|run|-1].threads| && !run[|run|-1].threads[t].phase.Idle?
    ensures |run[|run|-1].hist| > 0
    ensures run <= run' && Run(run') && AloneFrom(run', |run| - 1, t)
    ensures |run'| <= |run| + RankOf(run[|run|-1], t) <= |run| + 3 * ROUND + 2
    ensures t < |run'[|run'|-1].threads| && run'[|run'|-1].threads[t].phase.Returned?
    ensures run'[|run'|-1].threads[t].op == run[|run|-1].threads[t].op
    decreases if |run[|run|-1].hist| > 0 then RankOf(run[|run|-1], t) else 0
  {
    var s := run[|run|-1];
    RunKeepsCalls(run, |run| - 1);
    RankBound(s, t);
    run' := run;
    if Busy(s.threads[t].phase) {
      var s' := HasStep(s, t);
      StepFalls(s, s', t);
      var longer := run + [s'];
      assert Next(s, s');
      forall n | 0 <= n < |longer| - 1 ensures Steps(longer, n) { if n < |run| - 1 { assert Steps(run, n); } }
      run' := AloneReturns(longer, t);
      assert run'[..|longer|] == longer;
      assert run'[|run|-1] == s && run'[|run|] == s';
      assert StepsOf(run', |run| - 1, t);
      forall m | |run| - 1 <= m < |run'| - 1 ensures StepsOf(run', m, t) {}
    }
  }
}
