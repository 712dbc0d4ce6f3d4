/**
 The lock-free sorted list as a step machine: any number of threads, each step one load of a `next` word or one
 compare-and-swap. `hist` lists the heaps since the start, one successful compare-and-swap apart; an instant is a
 position in it. Every operation is explained by an instant between its call and its return.

 `list_remove` is modelled as written: after a successful mark it goes round its loop again, so it returns only when it
 has not found the key, and then returns false.
 */
module LockFreeList {
  import opened LockFreeHeap

  datatype Phase =
    | Idle
    | Find                                        // at RETRY
    | Walk(prev: nat, curr: nat)                  // about to load curr->next
    | Unlink(prev: nat, curr: nat, succ: Ref)     // curr->next was marked
    | Insert(prev: nat, curr: nat)                // about to swing prev->next to the new node
    | Load(curr: nat)                             // about to load the successor of the node to delete
    | Mark(curr: nat, succ: Ref)                  // about to mark
    | Look(curr: nat)                             // list_contains at curr
    | Returned(result: bool)

  /** Auxiliary, of the current call: `start` and `round` are the instants at which it and its last search began, `at`
      that of its insertion; `marks` counts its successful marks and `restarts` its failed compare-and-swaps. */
  datatype Thread = Thread(phase: Phase, op: Op, start: nat, at: nat, marks: nat, round: nat, restarts: nat)

  /** `writers[a]` is the thread that made the change from instant `a` to the next. */
  datatype State = State(threads: seq<Thread>, hist: seq<Heap>, writers: seq<nat>)

  function Mem(s: State): Heap
    requires |s.hist| > 0
  {
    s.hist[|s.hist|-1]
  }

  function PutThread(s: State, t: nat, th: Thread): State
    requires t < |s.threads|
  {
    s.(threads := s.threads[t := th])
  }

  function Put(s: State, t: nat, phase: Phase): State
    requires t < |s.threads|
  {
    PutThread(s, t, s.threads[t].(phase := phase))
  }

  /** A failed compare-and-swap. */
  function Retry(s: State, t: nat): State
    requires t < |s.threads| && |s.hist| > 0
  {
    PutThread(s, t, s.threads[t].(phase := Find, round := |s.hist| - 1, restarts := s.threads[t].restarts + 1))
  }

  /** A successful one. */
  function Swing(s: State, t: nat, th: Thread, h: Heap): State
    requires t < |s.threads|
  {
    PutThread(s, t, th).(hist := s.hist + [h], writers := s.writers + [t])
  }

  ghost predicate Init(s: State) {
    s.hist == [InitialHeap()] && s.writers == [] && forall t :: 0 <= t < |s.threads| ==> s.threads[t].phase == Idle
  }

  function NewCall(op: Op, now: nat): Thread {
    Thread(if op.Contain? then Look(HEAD) else Find, op, now, 0, 0, now, 0)
  }

  /** A call. The keys of the sentinels are reserved. */
  ghost predicate Call(s: State, s': State, t: nat)
    requires t < |s.threads| && |s.hist| > 0
  {
    exists op: Op ::
      && MIN_KEY < op.key < MAX_KEY
      && s' == PutThread(s, t, NewCall(op, |s.hist| - 1))
  }

  /** What follows the load of `curr->next` in `list_find`, and the branch of the caller once the place is found. */
  function AfterWalk(h: Heap, op: Op, prev: nat, curr: nat): Phase
    requires curr < |h|
  {
    var n := h[curr];
    if n.marked then Unlink(prev, curr, n.next)
    else if n.key < op.key then (if n.next.To? then Walk(curr, n.next.id) else Find)
    else if op.Add? then (if n.key == op.key then Returned(false) else Insert(prev, curr))
    else if n.key != op.key then Returned(false)
    else Load(curr)
  }

  function AfterLook(h: Heap, op: Op, curr: nat): Phase
    requires curr < |h|
  {
    var n := h[curr];
    if n.key < op.key then (if n.next.To? then Look(n.next.id) else Idle)
    else Returned(n.key == op.key && !n.marked)
  }

  /** The load of `head->next`, with which a search begins. */
  function FirstNode(th: Thread, h: Heap, now: nat): Thread
    requires |h| > 0 && h[HEAD].next.To?
  {
    th.(phase := Walk(HEAD, h[HEAD].next.id), round := now)
  }

  ghost predicate Step(s: State, s': State, t: nat) {
    && t < |s.threads| && |s.hist| > 0 && |Mem(s)| >= 2
    && var h := Mem(s);
      var th := s.threads[t];
      var op := th.op;
      match th.phase
      case Idle => Call(s, s', t)
      case Find => h[HEAD].next.To? && s' == PutThread(s, t, FirstNode(th, h, |s.hist| - 1))
      case Walk(prev, curr) => curr < |h| && s' == Put(s, t, AfterWalk(h, op, prev, curr))
      case Unlink(prev, curr, succ) =>
        if Cas(h, prev, To(curr)) && succ.To?
        then s' == Swing(s, t, th.(phase := Walk(prev, succ.id)), h[prev := h[prev].(next := succ)])
        else s' == Retry(s, t)
      case Insert(prev, curr) =>
        if Cas(h, prev, To(curr))
        then s' == Swing(s, t, th.(phase := Returned(true), at := |s.hist| - 1), InsertNode(h, prev, curr, op.key))
        else s' == Retry(s, t)
      case Load(curr) => curr < |h| && s' == Put(s, t, Mark(curr, h[curr].next))
      case Mark(curr, succ) =>
        if Cas(h, curr, succ)
        then s' == Swing(s, t, th.(phase := Find, marks := th.marks + 1), MarkNode(h, curr))
        else s' == Retry(s, t)
      case Look(curr) => curr < |h| && s' == Put(s, t, AfterLook(h, op, curr))
      case Returned(_) => s' == Put(s, t, Idle)
  }

  ghost predicate Next(s: State, s': State) {
    exists t: nat :: Step(s, s', t)
  }

  ghost predicate Run(run: seq<State>) {
    && |run| > 0 && Init(run[0])
    && forall n :: 0 <= n < |run| - 1 ==> Steps(run, n)
  }

  ghost predicate Steps(run: seq<State>, n: nat)
    requires n + 1 < |run|
  {
    Next(run[n], run[n+1])
  }

  // ---------- what the threads know ----------

  /** At instant `v`, since `start`, `prev` was unmarked and linked to `curr`. */
  ghost predicate LinkedAt(hist: seq<Heap>, start: nat, v: nat, prev: nat, curr: nat) {
    start <= v < |hist| && prev < |hist[v]| && hist[v][prev].next == To(curr) && !hist[v][prev].marked
  }

  ghost predicate LinkSeen(hist: seq<Heap>, start: nat, prev: nat, curr: nat) {
    exists v: nat :: LinkedAt(hist, start, v, prev, curr)
  }

  /** At instant `v`, since `start`, `curr` was reachable; unless it is the head, from a linked node with a smaller
      key. */
  ghost predicate VisitedAt(hist: seq<Heap>, start: nat, v: nat, p: nat, curr: nat, key: int) {
    && start <= v < |hist| && HeapOk(hist[v]) && curr < |hist[v]| && Reach(hist[v], HEAD, curr)
    && (curr == HEAD ||
        (p < |hist[v]| && Reach(hist[v], HEAD, p) && hist[v][p].next == To(curr) && hist[v][p].key < key))
  }

  ghost predicate Visited(hist: seq<Heap>, start: nat, curr: nat, key: int) {
    exists v: nat, p: nat :: VisitedAt(hist, start, v, p, curr, key)
  }

  ghost predicate InAt(hist: seq<Heap>, v: nat, key: int) {
    v < |hist| && Contains(hist[v], key)
  }

  ghost predicate OutAt(hist: seq<Heap>, v: nat, key: int) {
    v < |hist| && !Contains(hist[v], key)
  }

  /** The key was in the set at some instant since `start`. */
  ghost predicate SeenIn(hist: seq<Heap>, start: nat, key: int) {
    exists v: nat :: start <= v && InAt(hist, v, key)
  }

  ghost predicate SeenOut(hist: seq<Heap>, start: nat, key: int) {
    exists v: nat :: start <= v && OutAt(hist, v, key)
  }

  /** The change from instant `v` to the next put the key into the set, and no other key in or out. */
  ghost predicate AddedAt(hist: seq<Heap>, v: nat, key: int) {
    && v + 1 < |hist| && !Contains(hist[v], key)
    && forall k :: Contains(hist[v+1], k) <==> Contains(hist[v], k) || k == key
  }

  /** What a result says; `at` is the instant of the call's own insertion. */
  ghost predicate ResultOk(hist: seq<Heap>, start: nat, at: nat, op: Op, result: bool) {
    match op
    case Add(key) => if result then start <= at && AddedAt(hist, at, key) else SeenIn(hist, start, key)
    case Remove(key) => !result && SeenOut(hist, start, key)
    case Contain(key) => if result then SeenIn(hist, start, key) else SeenOut(hist, start, key)
  }

  ghost predicate PhaseOk(hist: seq<Heap>, th: Thread)
    requires |hist| > 0
  {
    var h := hist[|hist|-1];
    var key := th.op.key;
    && th.start < |hist| && MIN_KEY < key < MAX_KEY
    && match th.phase
       case Idle => true
       case Find => !th.op.Contain?
       case Walk(prev, curr) =>
         !th.op.Contain? && prev < |h| && curr < |h| && h[prev].key < key && LinkSeen(hist, th.start, prev, curr)
       case Unlink(prev, curr, succ) =>
         !th.op.Contain? && prev < |h| && curr < |h| && h[prev].key < key && h[curr].marked && h[curr].next == succ
       case Insert(prev, curr) =>
         th.op.Add? && prev < |h| && curr < |h| && h[prev].key < key < h[curr].key
       case Load(curr) => th.op.Remove? && curr < |h| && h[curr].key == key
       case Mark(curr, _) => th.op.Remove? && curr < |h| && h[curr].key == key
       case Look(curr) => th.op.Contain? && curr < |h| && Visited(hist, th.start, curr, key)
       case Returned(result) => ResultOk(hist, th.start, th.at, th.op, result)
  }

  ghost predicate ThreadOk(s: State, t: nat)
    requires t < |s.threads| && |s.hist| > 0
  {
    !s.threads[t].phase.Idle? ==> PhaseOk(s.hist, s.threads[t])
  }

  ghost predicate Inv(s: State) {
    History(s.hist) && forall t :: 0 <= t < |s.threads| ==> ThreadOk(s, t)
  }

  // ---------- knowledge lasts ----------

  lemma SeenExtends(hist: seq<Heap>, h: Heap, start: nat, at: nat, key: int)
    ensures SeenIn(hist, start, key) ==> SeenIn(hist + [h], start, key)
    ensures SeenOut(hist, start, key) ==> SeenOut(hist + [h], start, key)
    ensures AddedAt(hist, at, key) ==> AddedAt(hist + [h], at, key)
  {
    var hist' := hist + [h];
    assert forall v :: 0 <= v < |hist| ==> hist'[v] == hist[v];
    if v: nat :| start <= v && InAt(hist, v, key) { assert InAt(hist', v, key); }
    if v: nat :| start <= v && OutAt(hist, v, key) { assert OutAt(hist', v, key); }
  }

  lemma PhaseExtends(hist: seq<Heap>, h': Heap, th: Thread)
    requires |hist| > 0 && PhaseOk(hist, th)
    requires var h := hist[|hist|-1]; forall n: nat :: Frozen(h, h', n)
    ensures PhaseOk(hist + [h'], th)
  {
    var h := hist[|hist|-1];
    var hist' := hist + [h'];
    assert hist'[|hist'|-1] == h';
    match th.phase
    case Walk(prev, curr) =>
      assert Frozen(h, h', prev) && Frozen(h, h', curr);
      var v: nat :| LinkedAt(hist, th.start, v, prev, curr);
      assert LinkedAt(hist', th.start, v, prev, curr);
    case Unlink(prev, curr, _) => assert Frozen(h, h', prev) && Frozen(h, h', curr);
    case Insert(prev, curr) => assert Frozen(h, h', prev) && Frozen(h, h', curr);
    case Load(curr) => assert Frozen(h, h', curr);
    case Mark(curr, _) => assert Frozen(h, h', curr);
    case Look(curr) =>
      assert Frozen(h, h', curr);
      var v: nat, p: nat :| VisitedAt(hist, th.start, v, p, curr, th.op.key);
      assert VisitedAt(hist', th.start, v, p, curr, th.op.key);
    case Returned(_) => SeenExtends(hist, h', th.start, th.at, th.op.key);
    case _ =>
  }

  /** A step that changes no node. */
  lemma LocalInv(s: State, s': State, t: nat)
    requires Inv(s) && t < |s.threads| == |s'.threads| && s'.hist == s.hist
    requires forall u :: 0 <= u < |s.threads| && u != t ==> s'.threads[u] == s.threads[u]
    requires ThreadOk(s', t)
    ensures Inv(s')
  {
    forall u | 0 <= u < |s'.threads| ensures ThreadOk(s', u) { assert ThreadOk(s, u); }
  }

  /** A successful compare-and-swap. */
  lemma SwingInv(s: State, t: nat, th: Thread, h': Heap, change: Change)
    requires Inv(s) && t < |s.threads| && ChangeStep(Mem(s), h', change)
    requires PhaseOk(s.hist + [h'], th)
    ensures Inv(Swing(s, t, th, h'))
  {
    var s' := Swing(s, t, th, h');
    forall a | 0 <= a < |s'.hist| - 1 ensures StepAt(s'.hist, a) {
      if a < |s.hist| - 1 { assert StepAt(s.hist, a); }
    }
    forall n: nat ensures Frozen(Mem(s), h', n) { HeapStepFrozen(Mem(s), h', n); }
    forall u | 0 <= u < |s'.threads| ensures ThreadOk(s', u) {
      assert ThreadOk(s, u);
      if u != t && !s.threads[u].phase.Idle? { PhaseExtends(s.hist, h', s.threads[u]); }
    }
  }

  // ---------- list_find ----------

  lemma FindInv(s: State, t: nat)
    requires Inv(s) && t < |s.threads| && s.threads[t].phase.Find? && |Mem(s)| >= 2 && Mem(s)[HEAD].next.To?
    ensures Inv(PutThread(s, t, FirstNode(s.threads[t], Mem(s), |s.hist| - 1)))
  {
    assert ThreadOk(s, t);
    var now := |s.hist| - 1;
    HeapAtOk(s.hist, now);
    assert LinkOk(Mem(s), HEAD);
    assert LinkedAt(s.hist, s.threads[t].start, now, HEAD, Mem(s)[HEAD].next.id);
    LocalInv(s, PutThread(s, t, FirstNode(s.threads[t], Mem(s), now)), t);
  }

  /** When the search stops between two nodes, the key was absent when it loaded the link between them. */
  lemma LinkMeansOut(hist: seq<Heap>, start: nat, prev: nat, curr: nat, key: int)
    requires History(hist) && LinkSeen(hist, start, prev, curr)
    requires var h := hist[|hist|-1]; prev < |h| && curr < |h| && h[prev].key < key < h[curr].key
    ensures SeenOut(hist, start, key)
  {
    var v: nat :| LinkedAt(hist, start, v, prev, curr);
    var now := |hist| - 1;
    HeapAtOk(hist, v);
    StaysFrozen(hist, v, now, prev);
    StaysFrozen(hist, v, now, curr);
    assert prev != TAIL;
    assert LinkOk(hist[v], prev);
    GapIsEmpty(hist[v], prev, key);
    assert OutAt(hist, v, key);
  }

  lemma WalkInv(s: State, t: nat, prev: nat, curr: nat)
    requires Inv(s) && t < |s.threads| && s.threads[t].phase == Walk(prev, curr) && curr < |Mem(s)|
    ensures Inv(Put(s, t, AfterWalk(Mem(s), s.threads[t].op, prev, curr)))
  {
    assert ThreadOk(s, t);
    var th := s.threads[t];
    var h := Mem(s);
    var n := h[curr];
    var now := |s.hist| - 1;
    HeapAtOk(s.hist, now);
    if !n.marked {
      if n.key < th.op.key {
        assert LinkOk(h, curr);
        assert LinkedAt(s.hist, th.start, now, curr, n.next.id);
      } else if n.key == th.op.key {
        assert Holder(h, curr, th.op.key);
        assert InAt(s.hist, now, th.op.key);
      } else {
        LinkMeansOut(s.hist, th.start, prev, curr, th.op.key);
      }
    }
    LocalInv(s, Put(s, t, AfterWalk(h, th.op, prev, curr)), t);
  }

  lemma UnlinkInv(s: State, t: nat, prev: nat, curr: nat, succ: Ref)
    requires Inv(s) && t < |s.threads| && s.threads[t].phase == Unlink(prev, curr, succ)
    requires Cas(Mem(s), prev, To(curr)) && succ.To?
    ensures Inv(Swing(s, t, s.threads[t].(phase := Walk(prev, succ.id)), Mem(s)[prev := Mem(s)[prev].(next := succ)]))
  {
    assert ThreadOk(s, t);
    var h := Mem(s);
    var now := |s.hist| - 1;
    HeapAtOk(s.hist, now);
    assert LinkOk(h, curr);
    var h' := h[prev := h[prev].(next := succ)];
    assert ChangeStep(h, h', Unlinked(prev, curr));
    assert LinkedAt(s.hist + [h'], s.threads[t].start, now + 1, prev, succ.id);
    SwingInv(s, t, s.threads[t].(phase := Walk(prev, succ.id)), h', Unlinked(prev, curr));
  }

  lemma InsertInv(s: State, t: nat, prev: nat, curr: nat)
    requires Inv(s) && t < |s.threads| && s.threads[t].phase == Insert(prev, curr) && Cas(Mem(s), prev, To(curr))
    ensures Inv(Swing(s, t, s.threads[t].(phase := Returned(true), at := |s.hist| - 1),
                      InsertNode(Mem(s), prev, curr, s.threads[t].op.key)))
  {
    assert ThreadOk(s, t);
    var h := Mem(s);
    var key := s.threads[t].op.key;
    var now := |s.hist| - 1;
    HeapAtOk(s.hist, now);
    var h' := InsertNode(h, prev, curr, key);
    InsertOk(h, prev, curr, key);
    var hist' := s.hist + [h'];
    assert hist'[now] == h && hist'[now+1] == h';
    assert AddedAt(hist', now, key);
    SwingInv(s, t, s.threads[t].(phase := Returned(true), at := now), h', Inserted(prev, curr, key));
  }

  lemma MarkInv(s: State, t: nat, curr: nat, succ: Ref)
    requires Inv(s) && t < |s.threads| && s.threads[t].phase == Mark(curr, succ) && Cas(Mem(s), curr, succ)
    ensures Inv(Swing(s, t, s.threads[t].(phase := Find, marks := s.threads[t].marks + 1), MarkNode(Mem(s), curr)))
  {
    assert ThreadOk(s, t);
    HeapAtOk(s.hist, |s.hist| - 1);
    SwingInv(s, t, s.threads[t].(phase := Find, marks := s.threads[t].marks + 1), MarkNode(Mem(s), curr), Marked(curr));
  }

  // ---------- list_contains ----------

  /** The next node is visited too: by hindsight it followed the current one at an instant of the call. */
  lemma LookOn(hist: seq<Heap>, start: nat, curr: nat, key: int)
    requires History(hist) && Visited(hist, start, curr, key)
    requires var h := hist[|hist|-1]; curr < |h| && h[curr].key < key < MAX_KEY
    ensures var h := hist[|hist|-1];
      h[curr].next.To? && h[curr].next.id < |h| && Visited(hist, start, h[curr].next.id, key)
  {
    var h := hist[|hist|-1];
    var a: nat, p: nat :| VisitedAt(hist, start, a, p, curr, key);
    var v := Hindsight(hist, a, curr);
    HeapAtOk(hist, |hist| - 1);
    assert LinkOk(h, curr) && LinkOk(hist[v], curr);
    ReachNext(hist[v], HEAD, curr);
    assert VisitedAt(hist, start, v, curr, h[curr].next.id, key);
  }

  /** The answer of `list_contains` was right at some instant of the call. */
  lemma LookAnswer(hist: seq<Heap>, start: nat, curr: nat, key: int)
    requires History(hist) && Visited(hist, start, curr, key) && start < |hist| && MIN_KEY < key < MAX_KEY
    requires var h := hist[|hist|-1]; curr < |h| && h[curr].key >= key
    ensures var h := hist[|hist|-1];
      if h[curr].key == key && !h[curr].marked then SeenIn(hist, start, key) else SeenOut(hist, start, key)
  {
    var now := |hist| - 1;
    var h := hist[now];
    var a: nat, p: nat :| VisitedAt(hist, start, a, p, curr, key);
    StaysFrozen(hist, a, now, curr);
    HeapAtOk(hist, now);
    if h[curr].key > key {
      assert LinkOk(hist[a], p);
      GapIsEmpty(hist[a], p, key);
      assert OutAt(hist, a, key);
    } else if !h[curr].marked {
      assert Holder(h, curr, key);
      assert InAt(hist, now, key);
    } else {
      var v := Hindsight(hist, a, curr);
      MarkedIsAbsent(hist[v], curr);
      assert OutAt(hist, v, key);
    }
  }

  lemma LookInv(s: State, t: nat, curr: nat)
    requires Inv(s) && t < |s.threads| && s.threads[t].phase == Look(curr) && curr < |Mem(s)|
    ensures Inv(Put(s, t, AfterLook(Mem(s), s.threads[t].op, curr)))
  {
    assert ThreadOk(s, t);
    var th := s.threads[t];
    if Mem(s)[curr].key < th.op.key {
      LookOn(s.hist, th.start, curr, th.op.key);
    } else {
      LookAnswer(s.hist, th.start, curr, th.op.key);
    }
    LocalInv(s, Put(s, t, AfterLook(Mem(s), th.op, curr)), t);
  }

  lemma CallInv(s: State, s': State, t: nat)
    requires Inv(s) && t < |s.threads| && Call(s, s', t)
    ensures Inv(s')
  {
    var now := |s.hist| - 1;
    HeapAtOk(s.hist, now);
    var key := s'.threads[t].op.key;
    assert Reach(Mem(s), HEAD, HEAD);
    assert VisitedAt(s.hist, now, now, HEAD, HEAD, key);
    LocalInv(s, s', t);
  }

  // ---------- every reachable state ----------

  lemma StepInv(s: State, s': State, t: nat)
    requires Inv(s) && Step(s, s', t)
    ensures Inv(s')
  {
    assert ThreadOk(s, t);
    HeapAtOk(s.hist, |s.hist| - 1);
    match s.threads[t].phase
    case Idle => CallInv(s, s', t);
    case Find => FindInv(s, t);
    case Walk(prev, curr) => WalkInv(s, t, prev, curr);
    case Unlink(prev, curr, succ) =>
      if Cas(Mem(s), prev, To(curr)) && succ.To? { UnlinkInv(s, t, prev, curr, succ); } else { LocalInv(s, s', t); }
    case Insert(prev, curr) =>
      if Cas(Mem(s), prev, To(curr)) { InsertInv(s, t, prev, curr); } else { LocalInv(s, s', t); }
    case Load(_) => LocalInv(s, s', t);
    case Mark(curr, succ) => if Cas(Mem(s), curr, succ) { MarkInv(s, t, curr, succ); } else { LocalInv(s, s', t); }
    case Look(curr) => LookInv(s, t, curr);
    case Returned(_) => LocalInv(s, s', t);
  }

  lemma {:induction false} RunKeepsInv(run: seq<State>, n: nat)
    requires Run(run) && n < |run|
    ensures Inv(run[n])
  {
    if n > 0 {
      RunKeepsInv(run, n - 1);
      assert Steps(run, n - 1);
      var t: nat :| Step(run[n-1], run[n], t);
      StepInv(run[n-1], run[n], t);
    }
  }

  // ---------- the main results ----------

  /** Under any interleaving: following references from any node gives strictly increasing keys up to the tail, and
      every unmarked node is reachable from the head. */
  lemma ListStructure(run: seq<State>, n: nat, a: nat)
    requires Run(run) && n < |run|
    ensures |run[n].hist| > 0 && HeapOk(Mem(run[n]))
    ensures a < |Mem(run[n])|
      ==> Reach(Mem(run[n]), a, TAIL) && (!Mem(run[n])[a].marked ==> Reach(Mem(run[n]), HEAD, a))
  {
    RunKeepsInv(run, n);
    HeapAtOk(run[n].hist, |run[n].hist| - 1);
    if a < |Mem(run[n])| { ReachTail(Mem(run[n]), a); }
  }

  /** No step ever changes the key of a node, or the `next` word of a marked one. */
  lemma MarkedNodesAreFrozen(run: seq<State>, n: nat, a: nat)
    requires Run(run) && n + 1 < |run|
    ensures |run[n].hist| > 0 && |run[n+1].hist| > 0 && Frozen(Mem(run[n]), Mem(run[n+1]), a)
  {
    RunKeepsInv(run, n);
    RunKeepsInv(run, n + 1);
    assert Steps(run, n);
    var t: nat :| Step(run[n], run[n+1], t);
    assert |run[n+1].hist| == |run[n].hist| || run[n+1].hist[..|run[n].hist|] == run[n].hist;
    if |run[n+1].hist| > |run[n].hist| {
      assert StepAt(run[n+1].hist, |run[n].hist| - 1);
      HeapStepFrozen(Mem(run[n]), Mem(run[n+1]), a);
    }
  }

  /** How one step changes the set. */
  ghost predicate SetStep(h: Heap, h': Heap, th: Thread, th': Thread) {
    if th.phase.Insert? && th'.phase == Returned(true) then
      !Contains(h, th.op.key) && forall k :: Contains(h', k) <==> Contains(h, k) || k == th.op.key
    else if th.phase.Mark? && h' != h then
      Contains(h, th.op.key) && forall k :: Contains(h', k) <==> Contains(h, k) && k != th.op.key
    else
      forall k :: Contains(h', k) <==> Contains(h, k)
  }

  ghost predicate SetStepBy(s: State, s': State, t: nat)
    requires |s.hist| > 0 && |s'.hist| > 0
  {
    t < |s.threads| == |s'.threads| && SetStep(Mem(s), Mem(s'), s.threads[t], s'.threads[t])
  }

  ghost predicate SetNext(s: State, s': State)
    requires |s.hist| > 0 && |s'.hist| > 0
  {
    exists t: nat :: Step(s, s', t) && SetStepBy(s, s', t)
  }

  /** The machine refines a set: the successful insertion puts in a key that was absent, the successful mark takes out
      a key that was present, and no other step changes the set. */
  lemma RefinesSet(run: seq<State>, n: nat)
    requires Run(run) && n + 1 < |run|
    ensures |run[n].hist| > 0 && |run[n+1].hist| > 0
    ensures SetNext(run[n], run[n+1])
  {
    RunKeepsInv(run, n);
    RunKeepsInv(run, n + 1);
    assert Steps(run, n);
    var t: nat :| Step(run[n], run[n+1], t);
    StepSets(run[n], run[n+1], t);
  }

  lemma StepSets(s: State, s': State, t: nat)
    requires Inv(s) && Step(s, s', t)
    ensures |s'.hist| > 0 && SetStepBy(s, s', t)
  {
    assert ThreadOk(s, t);
    var h := Mem(s);
    HeapAtOk(s.hist, |s.hist| - 1);
    match s.threads[t].phase
    case Unlink(prev, curr, succ) =>
      if Cas(h, prev, To(curr)) && succ.To? {
        assert LinkOk(h, curr);
        UnlinkOk(h, prev, curr);
      }
    case Insert(prev, curr) =>
      if Cas(h, prev, To(curr)) { InsertOk(h, prev, curr, s.threads[t].op.key); }
    case Mark(curr, succ) =>
      if Cas(h, curr, succ) { MarkOk(h, curr); }
    case _ =>
  }

  /** Linearizability of the answers: what an operation returns was true at an instant between its call and its
      return. A successful add put its key in at its own instant `at`, during the call; a false add saw the key
      present; any return of a remove, which is always false, saw the key absent; and `list_contains`, which walks
      through marked and unlinked nodes, was right at some instant of the call. */
  lemma AnswersAreLinearizable(run: seq<State>, n: nat, t: nat)
    requires Run(run) && n < |run| && t < |run[n].threads| && run[n].threads[t].phase.Returned?
    ensures var th := run[n].threads[t];
      th.start < |run[n].hist| && ResultOk(run[n].hist, th.start, th.at, th.op, th.phase.result)
  {
    RunKeepsInv(run, n);
    assert ThreadOk(run[n], t);
  }
}
