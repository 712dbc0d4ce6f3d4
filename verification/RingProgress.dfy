/**
 The calls of the bounded queue come to an end as far as the bounds let them: without a new call, every call returns
 but a dequeue whose enqueue has not been called and an enqueue without room.
 */
module RingProgress {
  import opened Options
  import opened Sums
  import opened RingQueue

  /** How many steps a call still takes, not counting the turns of its wait. */
  function Rank(phase: Phase): nat {
    match phase
    case Idle => 0
    case EnqWait => 4
    case EnqKey => 3
    case EnqFlag => 2
    case EnqStore(_) => 1
    case DeqWait => 4
    case DeqRead => 3
    case DeqFlag => 2
    case DeqStore(_) => 1
  }

  function Ranks(s: State): seq<nat> {
    seq(|s.threads|, u requires 0 <= u < |s.threads| => Rank(s.threads[u].phase))
  }

  /** Thread `u` is idle, or waits for what has not been called: as a dequeue for its enqueue, as an enqueue for the
      dequeue of the round before. */
  ghost predicate AtRest(s: State, u: nat)
    requires u < |s.threads|
  {
    var th := s.threads[u];
    || th.phase.Idle?
    || (th.phase.DeqWait? && s.rear <= th.ticket)
    || (th.phase.EnqWait? && |s.buckets| + s.front <= th.ticket)
  }

  /** An idle thread may call either operation, with any key, and draws the next ticket. */
  lemma AnyCall(s: State, u: nat, key: int)
    requires u < |s.threads| && s.threads[u].phase.Idle? && |s.buckets| > 0
    ensures exists s' :: Step(s, s', u) && s'.threads[u] == Thread(EnqWait, s.rear, key)
    ensures exists s' :: Step(s, s', u) && s'.threads[u].phase.DeqWait? && s'.threads[u].ticket == s.front
  {
    assert Step(s, EnqTicket(s, u, key), u);
    assert Step(s, DeqTicket(s, u), u) && DeqTicket(s, u).threads[u].phase.DeqWait?;
  }

  /** No call has begun in between, and no call has become another one. */
  ghost predicate SameCalls(s: State, s': State) {
    && |s'.threads| == |s.threads| && s'.keys == s.keys && s'.front == s.front && s'.rear == s.rear
    && forall u :: 0 <= u < |s.threads| ==> SameCall(s.threads[u], s'.threads[u])
  }

  ghost predicate SameCall(th: Thread, th': Thread) {
    if th.phase.Idle? then th' == th
    else th'.phase.Idle? || (th'.ticket == th.ticket && Enqueuing(th') == Enqueuing(th))
  }

  lemma StepFalls(s: State, s': State, u: nat)
    requires Inv(s) && Step(s, s', u) && s' != s && !s.threads[u].phase.Idle?
    ensures SameCalls(s, s') && Sum(Ranks(s')) < Sum(Ranks(s))
  {
    SumAt(Ranks(s), Ranks(s'), u);
  }

  /** A call that is not at rest has its partner or its room. */
  lemma RestlessIsOwed(s: State, u: nat)
    requires Inv(s) && u < |s.threads| && !AtRest(s, u)
    ensures Owed(s, s.threads[u].ticket)
  {
    assert ThreadOk(s, u);
    var th := s.threads[u];
    var t := th.ticket;
    var n := |s.buckets|;
    assert TicketOk(s, t);
    if Enqueuing(th) {
      assert EnqBy(s, t, u);
      if t >= n && EnqInside(th) {
        RoundBefore(t, n);
        assert TicketOk(s, t - n);
      }
    } else {
      assert DeqBy(s, t, u);
    }
  }

  lemma RoundBefore(t: nat, n: nat)
    requires 0 < n <= t
    ensures Slot(t - n, n) == Slot(t, n) && Round(t - n, n) + 1 == Round(t, n)
  {
    var r, b := t / n - 1, t % n;
    assert t - n == r * n + b;
    DivMod(r, b, n);
  }

  /** From every reachable state the run can be continued, without a new call, until all calls are at rest. */
  lemma {:induction false} EveryOwedCallCanReturn(run: seq<State>) returns (run': seq<State>)
    requires Run(run)
    ensures run <= run' && Run(run') && SameCalls(run[|run|-1], run'[|run'|-1])
    ensures var s' := run'[|run'|-1]; forall u :: 0 <= u < |s'.threads| ==> AtRest(s', u)
    decreases Sum(Ranks(run[|run|-1]))
  {
    var s := run[|run|-1];
    if w: nat :| w < |s.threads| && !AtRest(s, w) {
      RunKeepsInv(run, |run| - 1);
      RestlessIsOwed(s, w);
      var u, s' := Mover(s, s.threads[w].ticket);
      StepFalls(s, s', u);
      var longer := run + [s'];
      assert Next(s, s');
      forall n | 0 <= n < |longer| - 1 ensures Steps(longer, n) { if n < |run| - 1 { assert Steps(run, n); } }
      run' := EveryOwedCallCanReturn(longer);
    } else {
      run' := run;
    }
  }
}
