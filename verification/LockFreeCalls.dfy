/**
 Whole calls of the lock-free list: what a remove does although it always answers false, whose insertion a successful
 add reports, and what the restarts of a call are paid with.
 */
module LockFreeCalls {
  import opened LockFreeHeap
  import opened LockFreeList

  /** How many changes from instant `a` to instant `b` were made by other threads than `t`. */
  function Others(writers: seq<nat>, t: nat, a: nat, b: nat): nat
    requires b <= |writers|
  {
    if b <= a then 0 else Others(writers, t, a, b - 1) + (if writers[b-1] != t then 1 else 0)
  }

  ghost predicate OwnSince(writers: seq<nat>, t: nat, a: nat) {
    forall i :: a <= i < |writers| ==> writers[i] == t
  }

  ghost predicate SameAt(hist: seq<Heap>, a: nat, key: int) {
    a + 1 < |hist| && (Contains(hist[a+1], key) <==> Contains(hist[a], key))
  }

  /** Since `start` no thread but `t` has put the key in or taken it out. */
  ghost predicate Undisturbed(hist: seq<Heap>, writers: seq<nat>, t: nat, start: nat, key: int) {
    forall a: nat :: start <= a < |writers| && writers[a] != t ==> SameAt(hist, a, key)
  }

  ghost predicate SameSince(hist: seq<Heap>, start: nat, key: int)
    requires start < |hist|
  {
    forall v: nat :: start <= v < |hist| ==> (InAt(hist, v, key) <==> InAt(hist, start, key))
  }

  /** The marks of a remove were made while its key was in the set, each further one after somebody else had put it
      back; if nobody else touches the key, it has marked something exactly when the key was there at the call. */
  ghost predicate RemoveOk(hist: seq<Heap>, writers: seq<nat>, t: nat, th: Thread)
    requires th.start < |hist|
  {
    && (th.marks > 0 ==> SeenIn(hist, th.start, th.op.key))
    && |hist| == |writers| + 1
    && th.marks + (if Contains(hist[|hist|-1], th.op.key) then 1 else 0) <= 1 + Others(writers, t, th.start, |writers|)
    && (Undisturbed(hist, writers, t, th.start, th.op.key) ==>
        if th.marks == 0 then SameSince(hist, th.start, th.op.key) else InAt(hist, th.start, th.op.key))
  }

  /** If nobody else has changed anything since the search began, the next compare-and-swap will succeed. */
  ghost predicate RoundOk(h: Heap, writers: seq<nat>, t: nat, th: Thread) {
    OwnSince(writers, t, th.round) ==>
      match th.phase
      case Walk(prev, curr) => Cas(h, prev, To(curr))
      case Unlink(prev, curr, _) => Cas(h, prev, To(curr))
      case Insert(prev, curr) => Cas(h, prev, To(curr))
      case Load(curr) => curr < |h| && !h[curr].marked
      case Mark(curr, succ) => Cas(h, curr, succ)
      case _ => true
  }

  ghost predicate CallOk(hist: seq<Heap>, writers: seq<nat>, t: nat, th: Thread) {
    && |hist| == |writers| + 1 && th.start <= th.round < |hist|
    && th.restarts <= Others(writers, t, th.start, th.round)
    && RoundOk(hist[|hist|-1], writers, t, th)
    && (th.op.Add? && th.phase == Returned(true) ==> th.at < |writers| && writers[th.at] == t)
    && (th.op.Remove? ==> RemoveOk(hist, writers, t, th))
  }

  ghost predicate CallsOk(s: State) {
    && |s.hist| == |s.writers| + 1
    && forall t :: 0 <= t < |s.threads| && !s.threads[t].phase.Idle? ==> CallOk(s.hist, s.writers, t, s.threads[t])
  }

  // ---------- knowledge lasts ----------

  lemma {:induction false} OthersPrefix(writers: seq<nat>, w: nat, t: nat, a: nat, b: nat)
    requires b <= |writers|
    ensures Others(writers + [w], t, a, b) == Others(writers, t, a, b)
  {
    if b > a { OthersPrefix(writers, w, t, a, b - 1); }
  }

  lemma {:induction false} OthersMono(writers: seq<nat>, t: nat, a: nat, b: nat, c: nat)
    requires b <= c <= |writers|
    ensures Others(writers, t, a, b) <= Others(writers, t, a, c)
    ensures a <= b && (exists i :: b <= i < c && writers[i] != t)
      ==> Others(writers, t, a, b) < Others(writers, t, a, c)
  {
    if b < c { OthersMono(writers, t, a, b, c - 1); }
  }

  /** A failed compare-and-swap is paid for by a change that another thread has made since the search began. */
  lemma RetryPays(writers: seq<nat>, t: nat, th: Thread)
    requires th.start <= th.round <= |writers| && th.restarts <= Others(writers, t, th.start, th.round)
    requires !OwnSince(writers, t, th.round)
    ensures th.restarts + 1 <= Others(writers, t, th.start, |writers|)
  {
    OthersMono(writers, t, th.start, th.round, |writers|);
  }

  /** A change that leaves the key alone, or that the remove's own thread does not make. */
  lemma RemoveExtends(hist: seq<Heap>, writers: seq<nat>, h': Heap, w: nat, t: nat, th: Thread, th': Thread)
    requires |hist| == |writers| + 1 && th.start < |hist| && RemoveOk(hist, writers, t, th)
    requires th'.start == th.start && th'.op == th.op && th'.marks == th.marks
    requires w == t ==> (Contains(h', th.op.key) <==> Contains(hist[|hist|-1], th.op.key))
    ensures RemoveOk(hist + [h'], writers + [w], t, th')
  {
    var hist', writers' := hist + [h'], writers + [w];
    var key, now := th.op.key, |hist| - 1;
    OthersPrefix(writers, w, t, th.start, |writers|);
    SeenExtends(hist, h', th.start, th.at, key);
    assert forall v :: 0 <= v < |hist| ==> hist'[v] == hist[v];
    if Undisturbed(hist', writers', t, th.start, key) {
      UndisturbedBefore(hist, writers, h', w, t, th.start, key);
      assert InAt(hist, th.start, key) <==> InAt(hist', th.start, key);
      if th.marks == 0 {
        forall v: nat | th.start <= v < |hist'| ensures InAt(hist', v, key) <==> InAt(hist', th.start, key) {
          assert InAt(hist, now, key) <==> InAt(hist, th.start, key);
          if v < |hist| { assert InAt(hist, v, key) <==> InAt(hist, th.start, key); }
        }
      }
    }
  }

  lemma UndisturbedBefore(hist: seq<Heap>, writers: seq<nat>, h': Heap, w: nat, t: nat, start: nat, key: int)
    requires |hist| == |writers| + 1 && start < |hist|
    requires Undisturbed(hist + [h'], writers + [w], t, start, key)
    ensures Undisturbed(hist, writers, t, start, key)
    ensures w != t ==> (Contains(h', key) <==> Contains(hist[|hist|-1], key))
  {
    var hist', writers' := hist + [h'], writers + [w];
    assert writers'[|writers|] == w;
    assert w != t ==> SameAt(hist', |writers|, key);
    forall a: nat | start <= a < |writers| && writers[a] != t ensures SameAt(hist, a, key) {
      assert writers'[a] == writers[a];
      assert SameAt(hist', a, key);
      assert hist'[a] == hist[a] && hist'[a+1] == hist[a+1];
    }
  }

  lemma OtherExtends(hist: seq<Heap>, writers: seq<nat>, h': Heap, w: nat, t: nat, th: Thread)
    requires CallOk(hist, writers, t, th) && w != t
    ensures CallOk(hist + [h'], writers + [w], t, th)
  {
    OthersPrefix(writers, w, t, th.start, th.round);
    assert (writers + [w])[|writers|] == w;
    if th.op.Remove? { RemoveExtends(hist, writers, h', w, t, th, th); }
  }

  // ---------- each step ----------

  lemma LocalCalls(s: State, s': State, t: nat)
    requires CallsOk(s) && t < |s.threads| && t < |s'.threads| && s' == PutThread(s, t, s'.threads[t])
    requires !s'.threads[t].phase.Idle? ==> CallOk(s.hist, s.writers, t, s'.threads[t])
    ensures CallsOk(s')
  {
  }

  lemma SwingCalls(s: State, t: nat, th': Thread, h': Heap)
    requires CallsOk(s) && t < |s.threads| && CallOk(s.hist + [h'], s.writers + [t], t, th')
    ensures CallsOk(Swing(s, t, th', h'))
  {
    var s' := Swing(s, t, th', h');
    forall u | 0 <= u < |s'.threads| && !s'.threads[u].phase.Idle?
      ensures CallOk(s'.hist, s'.writers, u, s'.threads[u]) {
      if u != t { OtherExtends(s.hist, s.writers, h', t, u, s.threads[u]); }
    }
  }

  lemma RetryCalls(s: State, t: nat)
    requires CallsOk(s) && t < |s.threads| && !s.threads[t].phase.Idle? && !OwnSince(s.writers, t, s.threads[t].round)
    ensures CallsOk(Retry(s, t))
  {
    var th := s.threads[t];
    RetryPays(s.writers, t, th);
    var th' := Retry(s, t).threads[t];
    assert CallOk(s.hist, s.writers, t, th);
    LocalCalls(s, Retry(s, t), t);
  }

  lemma FindCalls(s: State, t: nat)
    requires Inv(s) && CallsOk(s) && t < |s.threads| && s.threads[t].phase.Find? && |Mem(s)| > 0
    requires Mem(s)[HEAD].next.To?
    ensures CallsOk(PutThread(s, t, FirstNode(s.threads[t], Mem(s), |s.hist| - 1)))
  {
    var th := s.threads[t];
    HeapAtOk(s.hist, |s.hist| - 1);
    OthersMono(s.writers, t, th.start, th.round, |s.writers|);
    LocalCalls(s, PutThread(s, t, FirstNode(th, Mem(s), |s.hist| - 1)), t);
  }

  lemma WalkCalls(s: State, t: nat, prev: nat, curr: nat)
    requires Inv(s) && CallsOk(s) && t < |s.threads| && s.threads[t].phase == Walk(prev, curr) && curr < |Mem(s)|
    ensures CallsOk(Put(s, t, AfterWalk(Mem(s), s.threads[t].op, prev, curr)))
  {
    assert ThreadOk(s, t);
    HeapAtOk(s.hist, |s.hist| - 1);
    if curr != TAIL { assert LinkOk(Mem(s), curr); }
    LocalCalls(s, Put(s, t, AfterWalk(Mem(s), s.threads[t].op, prev, curr)), t);
  }

  lemma UnlinkCalls(s: State, s': State, t: nat, prev: nat, curr: nat, succ: Ref)
    requires Inv(s) && CallsOk(s) && Step(s, s', t) && s.threads[t].phase == Unlink(prev, curr, succ)
    ensures CallsOk(s')
  {
    assert ThreadOk(s, t);
    var h := Mem(s);
    var th := s.threads[t];
    HeapAtOk(s.hist, |s.hist| - 1);
    assert curr != TAIL && LinkOk(h, curr);
    if Cas(h, prev, To(curr)) {
      var h' := UnlinkNode(h, prev, curr);
      var th' := th.(phase := Walk(prev, succ.id));
      UnlinkOk(h, prev, curr);
      OthersPrefix(s.writers, t, t, th.start, th.round);
      if th.op.Remove? { RemoveExtends(s.hist, s.writers, h', t, t, th, th'); }
      SwingCalls(s, t, th', h');
    } else {
      RetryCalls(s, t);
    }
  }

  lemma InsertCalls(s: State, s': State, t: nat, prev: nat, curr: nat)
    requires Inv(s) && CallsOk(s) && Step(s, s', t) && s.threads[t].phase == Insert(prev, curr)
    ensures CallsOk(s')
  {
    assert ThreadOk(s, t);
    var th := s.threads[t];
    if Cas(Mem(s), prev, To(curr)) {
      OthersPrefix(s.writers, t, t, th.start, th.round);
      SwingCalls(s, t, s'.threads[t], InsertNode(Mem(s), prev, curr, th.op.key));
    } else {
      RetryCalls(s, t);
    }
  }

  lemma MarkCalls(s: State, s': State, t: nat, curr: nat, succ: Ref)
    requires Inv(s) && CallsOk(s) && Step(s, s', t) && s.threads[t].phase == Mark(curr, succ)
    ensures CallsOk(s')
  {
    assert ThreadOk(s, t);
    var th := s.threads[t];
    HeapAtOk(s.hist, |s.hist| - 1);
    if Cas(Mem(s), curr, succ) {
      MarkOk(Mem(s), curr);
      OthersPrefix(s.writers, t, t, th.start, th.round);
      RemoveMarks(s.hist, s.writers, MarkNode(Mem(s), curr), t, th, s'.threads[t]);
      SwingCalls(s, t, s'.threads[t], MarkNode(Mem(s), curr));
    } else {
      RetryCalls(s, t);
    }
  }

  lemma RemoveMarks(hist: seq<Heap>, writers: seq<nat>, h': Heap, t: nat, th: Thread, th': Thread)
    requires |hist| == |writers| + 1 && th.start < |hist| && RemoveOk(hist, writers, t, th)
    requires th'.start == th.start && th'.op == th.op && th'.marks == th.marks + 1
    requires Contains(hist[|hist|-1], th.op.key) && !Contains(h', th.op.key)
    ensures RemoveOk(hist + [h'], writers + [t], t, th')
  {
    var hist' := hist + [h'];
    var now := |hist| - 1;
    assert hist'[now] == hist[now] && hist'[th.start] == hist[th.start];
    OthersPrefix(writers, t, t, th.start, |writers|);
    assert InAt(hist, now, th.op.key) && InAt(hist', now, th.op.key);
    if Undisturbed(hist', writers + [t], t, th.start, th.op.key) {
      UndisturbedBefore(hist, writers, h', t, t, th.start, th.op.key);
      assert InAt(hist, th.start, th.op.key);
    }
  }

  lemma CallCalls(s: State, s': State, t: nat)
    requires CallsOk(s) && t < |s.threads| && Call(s, s', t)
    ensures CallsOk(s')
  {
    var th := s'.threads[t];
    if th.op.Remove? { assert SameSince(s.hist, th.start, th.op.key); }
    LocalCalls(s, s', t);
  }

  lemma StepCalls(s: State, s': State, t: nat)
    requires Inv(s) && CallsOk(s) && Step(s, s', t)
    ensures CallsOk(s')
  {
    assert ThreadOk(s, t);
    match s.threads[t].phase
    case Idle => CallCalls(s, s', t);
    case Find => FindCalls(s, t);
    case Walk(prev, curr) => WalkCalls(s, t, prev, curr);
    case Unlink(prev, curr, succ) => UnlinkCalls(s, s', t, prev, curr, succ);
    case Insert(prev, curr) => InsertCalls(s, s', t, prev, curr);
    case Load(_) => LocalCalls(s, s', t);
    case Mark(curr, succ) => MarkCalls(s, s', t, curr, succ);
    case Look(_) => LocalCalls(s, s', t);
    case Returned(_) => LocalCalls(s, s', t);
  }

  lemma {:induction false} RunKeepsCalls(run: seq<State>, n: nat)
    requires Run(run) && n < |run|
    ensures Inv(run[n]) && CallsOk(run[n])
  {
    RunKeepsInv(run, n);
    if n > 0 {
      RunKeepsCalls(run, n - 1);
      assert Steps(run, n - 1);
      var t: nat :| Step(run[n-1], run[n], t);
      StepCalls(run[n-1], run[n], t);
    }
  }

  // ---------- what holds of every call ----------

  /** A true `list_add` reports an insertion of its own: the change at `at` was made by its thread. */
  lemma AddReportsItsOwn(run: seq<State>, n: nat, t: nat)
    requires Run(run) && n < |run| && t < |run[n].threads|
    requires run[n].threads[t].op.Add? && run[n].threads[t].phase == Returned(true)
    ensures var s, th := run[n], run[n].threads[t];
      && th.start <= th.at < |s.writers| && |s.hist| == |s.writers| + 1 && s.writers[th.at] == t
      && AddedAt(s.hist, th.at, th.op.key)
  {
    RunKeepsCalls(run, n);
    assert ThreadOk(run[n], t);
  }

  /** No two successful adds report the same insertion. */
  lemma InsertionsAreDistinct(run: seq<State>, n: nat, t: nat, u: nat)
    requires Run(run) && n < |run| && t < |run[n].threads| && u < |run[n].threads|
    requires run[n].threads[t].op.Add? && run[n].threads[t].phase == Returned(true)
    requires run[n].threads[u].op.Add? && run[n].threads[u].phase == Returned(true)
    requires run[n].threads[t].at == run[n].threads[u].at
    ensures t == u
  {
    RunKeepsCalls(run, n);
  }

  /** A remove during which its key is never in the set has marked nothing; its answer false is the intended one. */
  lemma AbsentMeansNoMark(run: seq<State>, n: nat, t: nat)
    requires Run(run) && n < |run| && t < |run[n].threads| && run[n].threads[t].op.Remove?
    requires !run[n].threads[t].phase.Idle?
    requires forall v: nat :: run[n].threads[t].start <= v < |run[n].hist|
               ==> !Contains(run[n].hist[v], run[n].threads[t].op.key)
    ensures run[n].threads[t].marks == 0
  {
    RunKeepsCalls(run, n);
    assert CallOk(run[n].hist, run[n].writers, t, run[n].threads[t]);
  }

  /** A remove whose key no other thread touches has deleted the key, and answers false all the same, if and only if
      the key was in the set at the call. */
  lemma RemoveAnswersAsIntended(run: seq<State>, n: nat, t: nat)
    requires Run(run) && n < |run| && t < |run[n].threads| && run[n].threads[t].op.Remove?
    requires run[n].threads[t].phase.Returned?
    requires Undisturbed(run[n].hist, run[n].writers, t, run[n].threads[t].start, run[n].threads[t].op.key)
    ensures var th := run[n].threads[t];
      && !th.phase.result && th.start < |run[n].hist|
      && (th.marks > 0 <==> Contains(run[n].hist[th.start], th.op.key))
      && (th.phase.result == (th.marks > 0) <==> !Contains(run[n].hist[th.start], th.op.key))
  {
    RunKeepsCalls(run, n);
    var s := run[n];
    var th := s.threads[t];
    assert ThreadOk(s, t);
    assert RemoveOk(s.hist, s.writers, t, th);
    var v: nat :| th.start <= v && OutAt(s.hist, v, th.op.key);
    assert !InAt(s.hist, v, th.op.key);
  }

  /** Lock-freedom: the restarts of a call are at most the changes that other threads have made since it began. */
  lemma RestartsMeanProgress(run: seq<State>, n: nat, t: nat)
    requires Run(run) && n < |run| && t < |run[n].threads| && !run[n].threads[t].phase.Idle?
    ensures var s, th := run[n], run[n].threads[t];
      th.restarts <= Others(s.writers, t, th.start, |s.writers|)
  {
    RunKeepsCalls(run, n);
    var s, th := run[n], run[n].threads[t];
    OthersMono(s.writers, t, th.start, th.round, |s.writers|);
  }

  /** `list_remove` also goes round after a mark of its own. It marks at most once more than others have changed the
      list since it began, since each further mark needs the key put back. */
  lemma MarksMeanProgress(run: seq<State>, n: nat, t: nat)
    requires Run(run) && n < |run| && t < |run[n].threads| && run[n].threads[t].op.Remove?
    requires !run[n].threads[t].phase.Idle?
    ensures var s, th := run[n], run[n].threads[t];
      th.marks <= 1 + Others(s.writers, t, th.start, |s.writers|)
  {
    RunKeepsCalls(run, n);
    assert CallOk(run[n].hist, run[n].writers, t, run[n].threads[t]);
  }

  /** `list_contains` goes from node to node with strictly increasing keys, so it never waits for anybody. */
  lemma ContainsGoesUp(run: seq<State>, n: nat, t: nat, curr: nat)
    requires Run(run) && n + 1 < |run| && Step(run[n], run[n+1], t) && run[n].threads[t].phase == Look(curr)
    ensures |run[n].hist| > 0 && curr < |Mem(run[n])|
    ensures run[n+1].hist == run[n].hist
    ensures match run[n+1].threads[t].phase
      case Look(next) => next < |Mem(run[n])| && Mem(run[n])[curr].key < Mem(run[n])[next].key
      case Returned(_) => Mem(run[n])[curr].key >= run[n].threads[t].op.key
      case _ => false
  {
    RunKeepsInv(run, n);
    assert ThreadOk(run[n], t);
    HeapAtOk(run[n].hist, |run[n].hist| - 1);
    if curr != TAIL { assert LinkOk(Mem(run[n]), curr); }
  }

  // ---------- a remove that deletes and answers false ----------

  function Added5(): Heap {
    [Node(MIN_KEY, To(2), false), Node(MAX_KEY, Null, false), Node(5, To(TAIL), false)]
  }

  function Marked5(): Heap {
    [Node(MIN_KEY, To(2), false), Node(MAX_KEY, Null, false), Node(5, To(TAIL), true)]
  }

  function Unlinked5(): Heap {
    [Node(MIN_KEY, To(TAIL), false), Node(MAX_KEY, Null, false), Node(5, To(TAIL), true)]
  }

  /** The state of a run with one thread. */
  function Solo(phase: Phase, op: Op, start: nat, marks: nat, round: nat, hist: seq<Heap>): State
    requires |hist| > 0
  {
    State([Thread(phase, op, start, 0, marks, round, 0)], hist, seq(|hist| - 1, a => 0))
  }

  function AddRun(): seq<State> {
    var hist := [InitialHeap()];
    [Solo(Idle, Add(5), 0, 0, 0, hist), Solo(Find, Add(5), 0, 0, 0, hist),
     Solo(Walk(HEAD, TAIL), Add(5), 0, 0, 0, hist),
     Solo(Insert(HEAD, TAIL), Add(5), 0, 0, 0, hist)]
    + [Solo(Returned(true), Add(5), 0, 0, 0, hist + [Added5()]), Solo(Idle, Add(5), 0, 0, 0, hist + [Added5()])]
  }

  function RemoveRun(): seq<State> {
    var hist1 := [InitialHeap(), Added5()];
    var hist2 := hist1 + [Marked5()];
    var hist3 := hist2 + [Unlinked5()];
    [Solo(Find, Remove(5), 1, 0, 1, hist1), Solo(Walk(HEAD, 2), Remove(5), 1, 0, 1, hist1),
     Solo(Load(2), Remove(5), 1, 0, 1, hist1),
     Solo(Mark(2, To(TAIL)), Remove(5), 1, 0, 1, hist1)]
    + [Solo(Find, Remove(5), 1, 1, 1, hist2), Solo(Walk(HEAD, 2), Remove(5), 1, 1, 2, hist2),
       Solo(Unlink(HEAD, 2, To(TAIL)), Remove(5), 1, 1, 2, hist2)]
    + [Solo(Walk(HEAD, TAIL), Remove(5), 1, 1, 2, hist3), Solo(Returned(false), Remove(5), 1, 1, 2, hist3)]
  }

  ghost predicate Chained(run: seq<State>) {
    forall n :: 0 <= n < |run| - 1 ==> Steps(run, n)
  }

  lemma ChainsJoin(a: seq<State>, b: seq<State>)
    requires a != [] && b != [] && Chained(a) && Chained(b) && Next(a[|a|-1], b[0])
    ensures Chained(a + b)
  {
    var run := a + b;
    forall n | 0 <= n < |run| - 1 ensures Steps(run, n) {
      if n < |a| - 1 { assert Steps(a, n); } else if n >= |a| { assert Steps(b, n - |a|); }
    }
  }

  lemma SwingIs(s: State, s': State, h': Heap)
    requires |s.threads| == |s'.threads| == 1 && |s.hist| > 0 && s'.hist == s.hist + [h']
    requires s.writers == seq(|s.hist| - 1, a => 0) && s'.writers == seq(|s'.hist| - 1, a => 0)
    ensures s' == Swing(s, 0, s'.threads[0], h')
  {
    assert s'.threads == s.threads[0 := s'.threads[0]];
    assert s'.writers == s.writers + [0];
  }

  lemma AddChained()
    ensures Chained(AddRun()) && Init(AddRun()[0])
  {
    var run := AddRun();
    assert run[1].threads[0] == NewCall(Add(5), 0);
    assert Call(run[0], run[1], 0);
    assert InsertNode(InitialHeap(), HEAD, TAIL, 5) == Added5();
    SwingIs(run[3], run[4], Added5());
    forall n | 0 <= n < |run| - 1 ensures Steps(run, n) { assert Step(run[n], run[n+1], 0); }
  }

  lemma RemoveChained()
    ensures Chained(RemoveRun())
  {
    var run := RemoveRun();
    assert MarkNode(Added5(), 2) == Marked5();
    SwingIs(run[3], run[4], Marked5());
    assert UnlinkNode(Marked5(), HEAD, 2) == Unlinked5();
    SwingIs(run[6], run[7], Unlinked5());
    forall n | 0 <= n < |run| - 1 ensures Steps(run, n) { assert Step(run[n], run[n+1], 0); }
  }

  /** A remove with no other thread about that finds its key, deletes it, and answers false. */
  lemma DeletesAndAnswersFalse() returns (run: seq<State>)
    ensures Run(run) && |run[|run|-1].threads| == 1
    ensures var s := run[|run|-1]; var th := s.threads[0];
      && th.op == Remove(5) && th.phase == Returned(false) && th.marks == 1 && th.start < |s.hist|
      && Contains(s.hist[th.start], 5) && !Contains(s.hist[|s.hist|-1], 5)
  {
    AddChained();
    RemoveChained();
    var a, b := AddRun(), RemoveRun();
    assert b[0].threads[0] == NewCall(Remove(5), 1);
    assert Call(a[5], b[0], 0);
    assert Step(a[5], b[0], 0);
    ChainsJoin(a, b);
    run := a + b;
    assert Holder(Added5(), 2, 5);
  }
}
