/**
 The calls of the hand-over-hand list come to an end: each step of a call brings it nearer to its return, and from every
 reachable state the calls under way can all be finished.
 */
module HandOverHandProgress {
  import opened Options
  import opened Sums
  import opened LockFreeHeap
  import opened ListHeap
  import opened LockWaits
  import opened NodeLocks
  import opened HandOverHand

  predicate Busy(phase: Phase) {
    !phase.Idle? && !phase.Returned?
  }

  /** How many steps a call still takes at most. */
  function Rank(h: Heap, phase: Phase): nat {
    match phase
    case LockHead => 3 * (MAX_KEY - MIN_KEY) + 6
    case Load(prev) => 3 * ToTail(h, prev) + 5
    case LockNext(_, curr) => 3 * ToTail(h, curr) + 7
    case Look(_, curr) => 3 * ToTail(h, curr) + 6
    case Cut(_, _, _) => 4
    case FreePrev(_, _, _) => 3
    case FreeCurr(_, _) => 2
    case Reclaim(_) => 1
    case _ => 0
  }

  function Ranks(s: State): seq<nat>
    requires |s.hist| > 0
  {
    seq(|s.threads|, u requires 0 <= u < |s.threads| => Rank(Mem(s), s.threads[u].phase))
  }

  /** The keys of the nodes that a thread is at stay, so its rank does. */
  lemma RankLasts(h: Heap, h': Heap, hist: seq<Heap>, th: Thread)
    requires |hist| > 0 && h == hist[|hist|-1] && |h| <= |h'| && forall n :: 0 <= n < |h| ==> h'[n].key == h[n].key
    requires !th.phase.Idle? ==> PhaseOk(hist, th)
    ensures Rank(h', th.phase) == Rank(h, th.phase)
  {
    if th.phase.Load? { assert RefersOk(h, th, th.phase.prev); }
    if th.phase.LockNext? || th.phase.Look? { assert RefersOk(h, th, th.phase.curr); }
  }

  lemma KeysStay(s: State, s': State, u: nat)
    requires Step(s, s', u)
    ensures |s'.hist| > 0 && |Mem(s)| <= |Mem(s')|
    ensures forall n :: 0 <= n < |Mem(s)| ==> Mem(s')[n].key == Mem(s)[n].key
  {
  }

  lemma StepFalls(s: State, s': State, u: nat)
    requires Inv(s) && Step(s, s', u) && Busy(s.threads[u].phase)
    ensures u < |s'.threads| && |s'.hist| > 0 && !s'.threads[u].phase.Idle?
    ensures Rank(Mem(s'), s'.threads[u].phase) < Rank(Mem(s), s.threads[u].phase)
  {
    assert ThreadOk(s, u);
    TrailOk(s.hist, Now(s));
    var h := Mem(s);
    var phase := s.threads[u].phase;
    if phase.Load? { ToNext(h, phase.prev); }
    if phase.LockNext? || phase.Look? { TailHasNoNext(s, phase.prev, phase.curr); }
  }

  /** Every own step of a call brings it nearer to its return, and the steps of others do not set it back: hand over
      hand nobody ever walks again. */
  lemma StepsCount(run: seq<State>, n: nat, w: nat, u: nat)
    requires Run(run) && n + 1 < |run| && Step(run[n], run[n+1], w) && u < |run[n].threads|
    requires Busy(run[n].threads[u].phase)
    ensures |run[n].hist| > 0 && |run[n+1].hist| > 0 && u < |run[n+1].threads|
    ensures var r, r' := Rank(Mem(run[n]), run[n].threads[u].phase), Rank(Mem(run[n+1]), run[n+1].threads[u].phase);
      r <= 3 * (MAX_KEY - MIN_KEY) + 6 && if w == u then r' < r else r' == r
  {
    RunKeepsInv(run, n);
    var s, s' := run[n], run[n+1];
    assert ThreadOk(s, u);
    StepRecordedHere(s, s', w);
    KeysStay(s, s', w);
    if w == u { StepFalls(s, s', u); } else { RankLasts(Mem(s), Mem(s'), s.hist, s.threads[u]); }
    RankBound(s, u);
  }

  lemma StepRecordedHere(s: State, s': State, w: nat)
    requires Inv(s) && Step(s, s', w)
    ensures |s'.threads| == |s.threads| && Recorded(s, s', w)
    ensures forall u :: 0 <= u < |s.threads| && u != w ==> s'.threads[u] == s.threads[u]
  {
    assert ThreadOk(s, w);
    StepRecorded(s, s', w);
  }

  lemma RankBound(s: State, u: nat)
    requires Inv(s) && u < |s.threads| && Busy(s.threads[u].phase)
    ensures Rank(Mem(s), s.threads[u].phase) <= 3 * (MAX_KEY - MIN_KEY) + 6
  {
    assert ThreadOk(s, u);
    TrailOk(s.hist, Now(s));
    var h := Mem(s);
    var phase := s.threads[u].phase;
    if phase.Load? { assert phase.prev != TAIL ==> LinkOk(h, phase.prev); }
    if phase.LockNext? || phase.Look? {
      TailHasNoNext(s, phase.prev, phase.curr);
      ToNext(h, phase.prev);
    }
  }

  // ---------- somebody under way can move ----------

  /** The chain of lock waits from a call under way ends at a call under way. */
  lemma BusyMoves(s: State, t: nat) returns (w: nat, s': State)
    requires Inv(s) && t < |s.threads| && Busy(s.threads[t].phase)
    ensures Step(s, s', w) && Busy(s.threads[w].phase)
  {
    WaitsRise(s);
    var path := EndOfChain(ViewOf(s), t);
    w := path[|path|-1];
    if |path| > 1 {
      assert WaitLink(ViewOf(s), path, |path| - 2);
      OwnerIsBusy(s, path[|path|-2], w);
    }
    s' := FreeMoves(s, w);
  }

  lemma OwnerIsBusy(s: State, t: nat, w: nat)
    requires Inv(s) && WaitsOn(ViewOf(s), t, w) && w < |s.threads|
    ensures Busy(s.threads[w].phase)
  {
    assert LockOk(s.locks, Holding(s), Wanted(s.threads[t]).value, w);
  }

  // ---------- the run goes on ----------

  function Final(run: seq<State>): State
    requires run != []
  {
    run[|run|-1]
  }

  ghost predicate NobodyBusy(s: State) {
    forall u :: 0 <= u < |s.threads| ==> !Busy(s.threads[u].phase)
  }

  /** The call of `u` is the same, and over if it was over. */
  ghost predicate SameCall(th: Thread, th': Thread) {
    if Busy(th.phase) then !th'.phase.Idle? && th'.op == th.op && th'.start == th.start else th' == th
  }

  ghost predicate SameCalls(s: State, s': State) {
    |s'.threads| == |s.threads| && forall u :: 0 <= u < |s.threads| ==> SameCall(s.threads[u], s'.threads[u])
  }

  /** An idle thread may call any operation on any key but those of the sentinels. */
  lemma AnyCall(run: seq<State>, t: nat, op: Op)
    requires Run(run) && t < |Final(run).threads| && Final(run).threads[t].phase.Idle?
    requires -2147483648 < op.key < 2147483647
    ensures exists s' :: Step(Final(run), s', t) && s'.threads[t].op == op && Busy(s'.threads[t].phase)
  {
    RunKeepsInv(run, |run| - 1);
    var s := Final(run);
    TrailOk(s.hist, Now(s));
    var s' := s.(threads := s.threads[t := Thread(LockHead, op, Now(s), 0)]);
    assert Call(s, s', t);
    assert Step(s, s', t);
  }

  lemma Extend(run: seq<State>, s': State, w: nat)
    requires Run(run) && Step(Final(run), s', w)
    ensures Run(run + [s']) && Final(run + [s']) == s'
  {
    var run' := run + [s'];
    assert Next(Final(run), s');
    forall n | 0 <= n < |run'| - 1 ensures Steps(run', n) { if n < |run| - 1 { assert Steps(run, n); } }
  }

  lemma OneMore(run: seq<State>) returns (s': State)
    requires Run(run) && !NobodyBusy(Final(run))
    ensures |Final(run).hist| > 0 && |s'.hist| > 0
    ensures Run(run + [s']) && Final(run + [s']) == s' && SameCalls(Final(run), s')
    ensures Sum(Ranks(s')) < Sum(Ranks(Final(run)))
  {
    var s := Final(run);
    RunKeepsInv(run, |run| - 1);
    var t: nat :| t < |s.threads| && Busy(s.threads[t].phase);
    var w;
    w, s' := BusyMoves(s, t);
    Extend(run, s', w);
    StepRecordedHere(s, s', w);
    StepFalls(s, s', w);
    KeysStay(s, s', w);
    forall u | 0 <= u < |s.threads| && u != w ensures Ranks(s')[u] == Ranks(s)[u] {
      assert ThreadOk(s, u);
      RankLasts(Mem(s), Mem(s'), s.hist, s.threads[u]);
    }
    SumAt(Ranks(s), Ranks(s'), w);
  }

  /** From every reachable state the run can be continued, without a new call, until all calls have returned. */
  lemma {:induction false} EveryCallCanReturn(run: seq<State>) returns (run': seq<State>)
    requires Run(run)
    ensures run <= run' && Run(run') && NobodyBusy(Final(run')) && SameCalls(Final(run), Final(run'))
    decreases if |Final(run).hist| > 0 then Sum(Ranks(Final(run))) else 0
  {
    if NobodyBusy(Final(run)) {
      run' := run;
    } else {
      var s' := OneMore(run);
      run' := EveryCallCanReturn(run + [s']);
    }
  }
}
