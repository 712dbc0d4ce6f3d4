/**
 The calls of the unbounded queue as wholes: every enqueue links its key once and every dequeue takes one node, and a
 call that goes on alone returns.
 */
module LinkedQueueCalls {
  import opened Options
  import opened LinkedQueue

  // ---------- every call does its work once ----------

  /** The keys of the calls of `enqueue` that have not linked their node yet. */
  ghost function Unlinked(threads: seq<Thread>): multiset<int> {
    if threads == [] then multiset{} else Unlinked(threads[..|threads|-1]) + UnlinkedKey(threads[|threads|-1])
  }

  function UnlinkedKey(th: Thread): multiset<int> {
    if IsEnq(th) && !th.phase.EnqSwing? then multiset{th.key} else multiset{}
  }

  /** How many calls of `dequeue` have not taken a node yet. */
  ghost function Empty(threads: seq<Thread>): nat {
    if threads == [] then 0 else Empty(threads[..|threads|-1]) + Hand(threads[|threads|-1])
  }

  function Hand(th: Thread): nat {
    if th.phase.DeqLoad? || th.phase.DeqNext? || th.phase.DeqSwing? then 1 else 0
  }

  lemma Exchange(a: multiset<int>, b: multiset<int>, c: multiset<int>, x: multiset<int>, y: multiset<int>)
    requires a + x == b + y
    ensures a + c + x == b + c + y
  {
    assert a + c + x == a + x + c;
  }

  lemma {:induction false} OneThreadKeys(threads: seq<Thread>, u: nat, th: Thread)
    requires u < |threads|
    ensures Unlinked(threads[u := th]) + UnlinkedKey(threads[u]) == Unlinked(threads) + UnlinkedKey(th)
  {
    var n := |threads| - 1;
    if u < n {
      assert threads[u := th][..n] == threads[..n][u := th];
      OneThreadKeys(threads[..n], u, th);
      Exchange(Unlinked(threads[..n][u := th]), Unlinked(threads[..n]), UnlinkedKey(threads[n]),
               UnlinkedKey(threads[u]), UnlinkedKey(th));
    } else {
      assert threads[u := th][..n] == threads[..n];
      Exchange(Unlinked(threads[..n]), Unlinked(threads[..n]), UnlinkedKey(th), UnlinkedKey(threads[u]),
               UnlinkedKey(threads[u]));
    }
  }

  lemma {:induction false} OneThreadHands(threads: seq<Thread>, u: nat, th: Thread)
    requires u < |threads|
    ensures Empty(threads[u := th]) + Hand(threads[u]) == Empty(threads) + Hand(th)
  {
    var n := |threads| - 1;
    if u < n {
      assert threads[u := th][..n] == threads[..n][u := th];
      OneThreadHands(threads[..n], u, th);
    } else {
      assert threads[u := th][..n] == threads[..n];
    }
  }

  lemma {:induction false} NobodyCounts(threads: seq<Thread>)
    requires forall u :: 0 <= u < |threads| ==> threads[u].phase.Idle?
    ensures Unlinked(threads) == multiset{} && Empty(threads) == 0
  {
    if threads != [] { NobodyCounts(threads[..|threads|-1]); }
  }

  /** Each call of `enqueue` is about to link its key or has linked it, once; each call of `dequeue` is looking for a
      node or has taken one. */
  ghost predicate Accounted(s: State) {
    && |s.nodes| > 0
    && multiset(s.enqueues) == multiset(Keys(s.nodes)[1..]) + Unlinked(s.threads)
    && s.dequeues == |s.answers| + Empty(s.threads)
  }

  /** What one step does to the accounts of the enqueues. */
  ghost predicate KeysBalanced(e: seq<int>, e': seq<int>, k: seq<int>, k': seq<int>, th: Thread, th': Thread) {
    || (e' == e && k' == k && UnlinkedKey(th') == UnlinkedKey(th))
    || (e' == e + [th'.key] && k' == k && UnlinkedKey(th) == multiset{} && UnlinkedKey(th') == multiset{th'.key})
    || (e' == e && k' == k + [th.key] && UnlinkedKey(th) == multiset{th.key} && UnlinkedKey(th') == multiset{})
  }

  lemma Cancel(a: multiset<int>, b: multiset<int>, x: multiset<int>)
    requires a + x == b + x
    ensures a == b
  {
    forall v ensures a[v] == b[v] { assert (a + x)[v] == (b + x)[v]; }
  }

  lemma KeysAdd(e: seq<int>, e': seq<int>, k: seq<int>, k': seq<int>, th: Thread, th': Thread,
                rest: multiset<int>, rest': multiset<int>)
    requires multiset(e) == multiset(k) + rest && KeysBalanced(e, e', k, k', th, th')
    requires rest' + UnlinkedKey(th) == rest + UnlinkedKey(th')
    ensures multiset(e') == multiset(k') + rest'
  {
    if e' == e && k' == k {
      Cancel(rest', rest, UnlinkedKey(th));
    } else if k' == k {
      assert rest' == rest + multiset{th'.key};
    } else {
      assert rest == rest' + multiset{th.key};
    }
  }

  lemma LinkKeys(nodes: seq<Node>, nodes': seq<Node>, curr: nat, key: int)
    requires curr < |nodes| && nodes' == nodes[curr := nodes[curr].(next := Some(|nodes|))] + [Node(key, None)]
    ensures Keys(nodes')[1..] == Keys(nodes)[1..] + [key]
  {
    assert Keys(nodes') == Keys(nodes) + [key];
  }

  lemma StepKeys(s: State, s': State, u: nat)
    requires Step(s, s', u) && |s.nodes| > 0
    ensures |s'.nodes| > 0 && |s'.threads| == |s.threads|
    ensures KeysBalanced(s.enqueues, s'.enqueues, Keys(s.nodes)[1..], Keys(s'.nodes)[1..], s.threads[u], s'.threads[u])
  {
    var phase := s.threads[u].phase;
    if phase.EnqLink? && s.nodes[phase.curr].next == None {
      LinkKeys(s.nodes, s'.nodes, phase.curr, s.threads[u].key);
    } else {
      assert s'.nodes == s.nodes;
    }
  }

  lemma StepHands(s: State, s': State, u: nat)
    requires Step(s, s', u)
    ensures |s'.threads| == |s.threads| && s'.threads == s.threads[u := s'.threads[u]]
    ensures s'.dequeues + |s.answers| + Hand(s.threads[u]) == s.dequeues + |s'.answers| + Hand(s'.threads[u])
  {
  }

  lemma StepAccounted(s: State, s': State, u: nat)
    requires Accounted(s) && Step(s, s', u)
    ensures Accounted(s')
  {
    StepKeys(s, s', u);
    StepHands(s, s', u);
    OneThreadKeys(s.threads, u, s'.threads[u]);
    OneThreadHands(s.threads, u, s'.threads[u]);
    KeysAdd(s.enqueues, s'.enqueues, Keys(s.nodes)[1..], Keys(s'.nodes)[1..], s.threads[u], s'.threads[u],
            Unlinked(s.threads), Unlinked(s'.threads));
  }

  lemma {:induction false} RunAccounted(run: seq<State>, n: nat)
    requires Run(run) && n < |run|
    ensures Accounted(run[n])
  {
    if n == 0 {
      NobodyCounts(run[0].threads);
      assert Keys(run[0].nodes)[1..] == [];
    } else {
      RunAccounted(run, n - 1);
      assert Steps(run, n - 1);
      var u: nat :| Step(run[n-1], run[n], u);
      StepAccounted(run[n-1], run[n], u);
    }
  }

  /** No enqueue is lost, or done twice: the keys of all calls so far are those of the nodes after the sentinel and
      those of the calls that have yet to link, and a call that has returned is none of these. */
  lemma EnqueuesAreLinkedOnce(run: seq<State>, n: nat)
    requires Run(run) && n < |run|
    ensures |run[n].nodes| > 0
    ensures multiset(run[n].enqueues) == multiset(Keys(run[n].nodes)[1..]) + Unlinked(run[n].threads)
    ensures (forall u :: 0 <= u < |run[n].threads| ==> run[n].threads[u].phase.Idle?)
      ==> multiset(run[n].enqueues) == multiset(Keys(run[n].nodes)[1..])
  {
    RunAccounted(run, n);
    if forall u :: 0 <= u < |run[n].threads| ==> run[n].threads[u].phase.Idle? { NobodyCounts(run[n].threads); }
  }

  /** No dequeue returns without a node: at rest there are as many answers as there have been calls, each the key of a
      node of its own, in the order of the nodes. */
  lemma DequeuesTakeOnce(run: seq<State>, n: nat)
    requires Run(run) && n < |run|
    ensures run[n].dequeues == |run[n].answers| + Empty(run[n].threads)
    ensures (forall u :: 0 <= u < |run[n].threads| ==> run[n].threads[u].phase.Idle?)
      ==> run[n].dequeues == |run[n].answers| < |run[n].nodes|
          && forall i :: 0 <= i < run[n].dequeues ==> run[n].answers[i] == Some(run[n].nodes[i+1].key)
  {
    RunAccounted(run, n);
    RunKeepsInv(run, n);
    if forall u :: 0 <= u < |run[n].threads| ==> run[n].threads[u].phase.Idle? {
      NobodyCounts(run[n].threads);
      forall i | 0 <= i < run[n].dequeues ensures run[n].answers[i] == Some(run[n].nodes[i+1].key) {
        assert TakenOk(run[n], i);
      }
    }
  }

  // ---------- a call alone ----------

  /** How many steps a call alone still takes at most. A dequeue alone on an empty queue would wait for ever. */
  function Rank(s: State, th: Thread): nat {
    var last := |s.nodes| - 1;
    match th.phase
    case Idle => 0
    case EnqSwing(_, _) => 1
    case EnqLoad => if s.tail == last then 3 else 7
    case EnqLink(curr) => if curr == last then 2 else if s.tail == curr || s.tail == last then 6 else 10
    case EnqNext(curr) => if s.tail == curr || s.tail == last then 5 else 9
    case EnqHelp(curr, _) => if s.tail == curr || s.tail == last then 4 else 8
    case DeqKey(_) => 1
    case DeqSwing(prev, _) => if s.head == prev then 2 else 5
    case DeqNext(prev) => if s.head == prev then 3 else 6
    case DeqLoad => 4
  }

  function AfterStep(s: State, u: nat): State
    requires Inv(s) && u < |s.threads|
  {
    var th := s.threads[u];
    assert ThreadOk(s, u);
    match th.phase
    case Idle => s
    case EnqLoad => Go(s, u, EnqLink(s.tail))
    case EnqLink(curr) => if s.nodes[curr].next == None then Link(s, u, curr) else Go(s, u, EnqNext(curr))
    case EnqNext(curr) => Go(s, u, EnqHelp(curr, s.nodes[curr].next))
    case EnqHelp(curr, next) => Retry(s, u, EnqLoad).(tail := if s.tail == curr then next.value else s.tail)
    case EnqSwing(curr, node) => Go(s, u, Idle).(tail := if s.tail == curr then node else s.tail)
    case DeqLoad => Go(s, u, DeqNext(s.head))
    case DeqNext(prev) =>
      Go(s, u, if s.nodes[prev].next == None then DeqLoad else DeqSwing(prev, s.nodes[prev].next.value))
    case DeqSwing(prev, curr) => if s.head == prev then Take(s, u, curr) else Retry(s, u, DeqLoad)
    case DeqKey(curr) => Answer(s, u, curr)
  }

  /** An idle thread may call either operation, with any key. */
  lemma AnyCall(s: State, u: nat, key: int)
    requires u < |s.threads| && s.threads[u].phase.Idle?
    ensures exists s' :: Step(s, s', u) && s'.threads[u].phase.EnqLoad? && s'.threads[u].key == key
    ensures exists s' :: Step(s, s', u) && s'.threads[u].phase.DeqLoad?
  {
    var enq := s.(threads := s.threads[u := Thread(EnqLoad, key, s.tail, |s.nodes|, 0)],
                  enqueues := s.enqueues + [key]);
    var deq := s.(threads := s.threads[u := Thread(DeqLoad, 0, s.head, |s.nodes|, 0)], dequeues := s.dequeues + 1);
    assert Step(s, enq, u) && enq.threads[u].phase.EnqLoad?;
    assert Step(s, deq, u) && deq.threads[u].phase.DeqLoad?;
  }

  /** A call that is an enqueue, has taken its node, or finds the queue not empty. */
  ghost predicate CanReturn(s: State, u: nat)
    requires u < |s.threads|
  {
    IsEnq(s.threads[u]) || s.threads[u].phase.DeqKey? || s.head + 1 < |s.nodes|
  }

  lemma StepForward(s: State, u: nat)
    requires Inv(s) && u < |s.threads| && !s.threads[u].phase.Idle? && CanReturn(s, u)
    ensures var s' := AfterStep(s, u);
      && Step(s, s', u) && |s'.threads| == |s.threads|
      && Rank(s', s'.threads[u]) < Rank(s, s.threads[u]) && (s'.threads[u].phase.Idle? || CanReturn(s', u))
  {
    assert ThreadOk(s, u);
  }

  /** From moment `n` on only `u` takes steps. */
  ghost predicate AloneFrom(run: seq<State>, n: nat, u: nat) {
    forall m :: n <= m < |run| - 1 ==> StepsOf(run, m, u)
  }

  ghost predicate StepsOf(run: seq<State>, n: nat, u: nat)
    requires n + 1 < |run|
  {
    Step(run[n], run[n+1], u)
  }

  /** From every reachable state a call that goes on alone returns, within ten steps, unless it is a dequeue that finds
      the queue empty. */
  lemma {:induction false} AloneReturns(run: seq<State>, u: nat) returns (run': seq<State>)
    requires Run(run) && u < |run[|run|-1].threads|
    requires CanReturn(run[|run|-1], u) || run[|run|-1].threads[u].phase.Idle?
    ensures run <= run' && Run(run') && AloneFrom(run', |run| - 1, u)
    ensures |run'| <= |run| + Rank(run[|run|-1], run[|run|-1].threads[u]) <= |run| + 10
    ensures u < |run'[|run'|-1].threads| && run'[|run'|-1].threads[u].phase.Idle?
    decreases Rank(run[|run|-1], run[|run|-1].threads[u])
  {
    var s := run[|run|-1];
    run' := run;
    if !s.threads[u].phase.Idle? {
      RunKeepsInv(run, |run| - 1);
      StepForward(s, u);
      var longer := run + [AfterStep(s, u)];
      assert Next(s, AfterStep(s, u));
      forall n | 0 <= n < |longer| - 1 ensures Steps(longer, n) { if n < |run| - 1 { assert Steps(run, n); } }
      run' := AloneReturns(longer, u);
      assert run'[..|longer|] == longer;
      assert run'[|run|-1] == s && run'[|run|] == AfterStep(s, u);
      assert StepsOf(run', |run| - 1, u);
      forall m | |run| - 1 <= m < |run'| - 1 ensures StepsOf(run', m, u) {}
    }
  }
}
