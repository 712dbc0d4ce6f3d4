/**
 The calls of the snapshot as wholes: every update stores its value, once and under the next stamp, and no call ever
 waits for another, since each of its steps brings it nearer to its return.
 */
module SnapshotCalls {
  import opened Options
  import opened Snapshot

  // ---------- updates ----------

  predicate Updating(th: Thread) {
    !th.phase.Idle? && th.op.Update?
  }

  /** The step from `s` to `s'` begins an update of thread `t`. */
  predicate Begins(s: State, s': State, t: nat) {
    t < |s.threads| && t < |s'.threads| && s.threads[t].phase.Idle? && Updating(s'.threads[t])
  }

  /** The values of all updates of thread `t` that have begun by moment `n`. */
  function Begun(run: seq<State>, n: nat, t: nat): seq<int>
    requires n < |run|
  {
    if n == 0 then []
    else if Begins(run[n-1], run[n], t) then Begun(run, n - 1, t) + [run[n].threads[t].op.value]
    else Begun(run, n - 1, t)
  }

  /** Register `t` holds the last update of thread `t` that is over. */
  ghost predicate Holds(s: State, t: nat, begun: seq<int>) {
    && t < |s.registers| && t < |s.threads|
    && |begun| == s.registers[t].stamp + (if Updating(s.threads[t]) then 1 else 0)
    && s.registers[t].value == (if s.registers[t].stamp == 0 then 0 else begun[s.registers[t].stamp - 1])
    && (Updating(s.threads[t]) ==> begun[|begun|-1] == s.threads[t].op.value)
    && (s.threads[t].phase.Loaded? ==> s.threads[t].phase.stamp == s.registers[t].stamp)
  }

  lemma HoldsStep(s: State, s': State, u: nat, variant: Variant, t: nat, begun: seq<int>)
    requires Step(s, s', u, variant) && Holds(s, t, begun)
    ensures Holds(s', t, if Begins(s, s', t) then begun + [s'.threads[t].op.value] else begun)
  {
  }

  /** The stamp of a register counts the updates of its thread that are over, and its value is that of the last. */
  lemma {:induction false} UpdatesAreStored(run: seq<State>, capacity: nat, variant: Variant, n: nat, t: nat)
    requires Run(run, capacity, variant) && n < |run| && t < capacity
    ensures |run[n].registers| == capacity && Holds(run[n], t, Begun(run, n, t))
  {
    RunKeepsInv(run, capacity, variant, n);
    if n > 0 {
      UpdatesAreStored(run, capacity, variant, n - 1, t);
      assert Steps(run, n - 1, variant);
      var u: nat :| Step(run[n-1], run[n], u, variant);
      HoldsStep(run[n-1], run[n], u, variant, t, Begun(run, n - 1, t));
    }
  }

  // ---------- no waiting ----------

  /** How many steps a call still takes at most, with `n` registers. */
  function Rank(th: Thread, n: nat): nat {
    match th.phase
    case Idle => 0
    case Loaded(_) => 1
    case Scanned => 2
    case Second => Passes(n, Count(th.moved)) + (if |th.newCopy| < n then n - |th.newCopy| else 0) + 3
    case First => Passes(n, 0) + n + 4 + (if |th.oldCopy| < n then n - |th.oldCopy| else 0)
  }

  /** The passes to come when `k` registers have been seen to move. */
  function Passes(n: nat, k: nat): nat {
    if k < n then (n - k) * (n + 1) else 0
  }

  lemma OnePassLess(n: nat, k: nat)
    requires k < n
    ensures Passes(n, k) == Passes(n, k + 1) + n + 1
  {
    assert (n - k) * (n + 1) == (n - k - 1) * (n + 1) + (n + 1);
  }

  lemma CompareFalls(s: State, t: nat, variant: Variant)
    requires t < |s.threads| && |s.hist| > 0 && Collected(s, t) && s.threads[t].phase.Second?
    ensures Rank(CompareStep(s, t, variant).threads[t], |s.registers|) < Rank(s.threads[t], |s.registers|)
  {
    var th := s.threads[t];
    var i := FirstMoved(th.oldCopy, th.newCopy, 0);
    if i < |th.oldCopy| && !th.moved[i] {
      CountSet(th.moved, i);
      OnePassLess(|s.registers|, Count(th.moved));
    }
  }

  lemma FirstFalls(s: State, t: nat)
    requires t < |s.threads| && |s.hist| > 0 && s.threads[t].phase.First?
    requires |s.threads[t].moved| == |s.registers| && |s.threads[t].oldCopy| <= |s.registers|
    requires s.threads[t].moved == NoMoves(|s.registers|)
    ensures Rank(FirstStep(s, t).threads[t], |s.registers|) < Rank(s.threads[t], |s.registers|)
  {
    CountNone(|s.registers|);
  }

  lemma SecondFalls(s: State, t: nat)
    requires t < |s.threads| && s.threads[t].phase.Second? && |s.threads[t].newCopy| < |s.registers|
    ensures Rank(SecondStep(s, t).threads[t], |s.registers|) < Rank(s.threads[t], |s.registers|)
  {
  }

  lemma StepFalls(s: State, s': State, t: nat, variant: Variant)
    requires Step(s, s', t, variant) && !s.threads[t].phase.Idle?
    requires s.threads[t].phase.First? ==> s.threads[t].moved == NoMoves(|s.registers|)
    ensures t < |s'.threads| && Rank(s'.threads[t], |s.registers|) < Rank(s.threads[t], |s.registers|)
  {
    var th := s.threads[t];
    assert ThreadShape(th, t, |s.registers|);
    match th.phase
    case First => FirstFalls(s, t);
    case Second => if |th.newCopy| < |s.registers| { SecondFalls(s, t); } else { CompareFalls(s, t, variant); }
    case _ =>
  }

  lemma RankBound(th: Thread, n: nat)
    ensures Rank(th, n) <= n * (n + 1) + 2 * n + 4
  {
    var k := Count(th.moved);
    if k < n { assert (n - k) * (n + 1) <= n * (n + 1); }
  }

  /** Wait-freedom: each step of a call brings it nearer to its return, which it reaches within a number of its own
      steps that depends on the number of registers only; steps of others do not set it back. A call ends with its scan
      or, if it is an update, with its store. */
  lemma WaitFree(run: seq<State>, capacity: nat, variant: Variant, n: nat, w: nat, t: nat)
    requires Run(run, capacity, variant) && n + 1 < |run| && Step(run[n], run[n+1], w, variant)
    requires t < |run[n].threads| && !run[n].threads[t].phase.Idle?
    ensures |run[n+1].threads| == |run[n].threads|
    ensures var th, th' := run[n].threads[t], run[n+1].threads[t];
      && Rank(th, capacity) <= capacity * (capacity + 1) + 2 * capacity + 4
      && (if w == t then Rank(th', capacity) < Rank(th, capacity) else th' == th)
      && (th'.phase.Idle? ==> if th.op.Scan? then th.phase.Scanned? else th.phase.Loaded?)
  {
    RunKeepsInv(run, capacity, variant, n);
    assert ThreadOk(run[n], t, variant);
    RankBound(run[n].threads[t], capacity);
    OnlyOne(run[n], run[n+1], w, variant, t);
    if w == t { StepFalls(run[n], run[n+1], t, variant); }
  }

  lemma OnlyOne(s: State, s': State, w: nat, variant: Variant, t: nat)
    requires Step(s, s', w, variant) && t < |s.threads| && !s.threads[t].phase.Idle?
    ensures |s'.threads| == |s.threads| && (w != t ==> s'.threads[t] == s.threads[t])
    ensures s'.threads[t].phase.Idle?
      ==> if s.threads[t].op.Scan? then s.threads[t].phase.Scanned? else s.threads[t].phase.Loaded?
  {
    if w == t { assert ThreadShape(s.threads[t], t, |s.registers|); }
  }

  /** At every moment of its call a thread has a step, whatever the others do; between calls it may scan or, if it has a
      register, update it with any value. */
  lemma AlwaysHasStep(run: seq<State>, capacity: nat, variant: Variant, n: nat, t: nat)
    requires Run(run, capacity, variant) && n < |run| && t < |run[n].threads|
    ensures |run[n].hist| > 0 && exists s' :: Step(run[n], s', t, variant)
    ensures run[n].threads[t].phase.Idle?
      ==> forall op: Op :: (op.Update? ==> t < capacity) ==> Step(run[n], BeginStep(run[n], t, op), t, variant)
  {
    RunKeepsInv(run, capacity, variant, n);
    var s := run[n];
    forall u | 0 <= u < |s.threads| ensures ThreadShape(s.threads[u], u, |s.registers|) {
      assert ThreadOk(s, u, variant);
    }
    assert ThreadShape(s.threads[t], t, |s.registers|);
    var s' := match s.threads[t].phase
      case Idle => BeginStep(s, t, Scan)
      case First => FirstStep(s, t)
      case Second => if |s.threads[t].newCopy| < |s.registers| then SecondStep(s, t) else CompareStep(s, t, variant)
      case Scanned => FinishStep(s, t)
      case Loaded(_) => StoreStep(s, t);
    assert Step(s, s', t, variant);
  }
}
