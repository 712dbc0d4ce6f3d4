/**
 The hand-over-hand list as a step machine. A thread locks the next node before it lets go of the previous one, and
 `list_remove` frees the node it has unlinked. The two stores of `list_add` are one step: no other thread can read
 either of the words that they write before both are done, since it would need the lock of `prev`.
 */
module HandOverHand {
  import opened Options
  import opened LockFreeHeap
  import opened ListHeap
  import opened LockWaits
  import opened NodeLocks

  datatype Phase =
    | Idle
    | LockHead                                           // about to lock the head
    | Load(prev: nat)                                    // prev locked, about to load prev->next
    | LockNext(prev: nat, curr: nat)                     // about to lock curr
    | Look(prev: nat, curr: nat)                         // both locked, about to look at curr->key
    | Cut(prev: nat, curr: nat, succ: Ref)               // curr->next loaded, about to store it in prev->next
    | FreePrev(prev: nat, curr: nat, result: bool)       // about to unlock prev
    | FreeCurr(curr: nat, result: bool)                  // about to unlock curr
    | Reclaim(curr: nat)                                 // about to free curr
    | Returned(answer: bool)

  /** `start` and `at` are the instants of the call and of the decision, for the statements. */
  datatype Thread = Thread(phase: Phase, op: Op, start: nat, at: nat)

  /** `writers[a]` is the thread that made the change from instant `a` to the next. */
  datatype State = State(threads: seq<Thread>, hist: seq<Heap>, locks: seq<Option<nat>>, freed: set<nat>,
                         writers: seq<nat>)

  function Mem(s: State): Heap
    requires |s.hist| > 0
  {
    s.hist[|s.hist|-1]
  }

  function Now(s: State): nat
    requires |s.hist| > 0
  {
    |s.hist| - 1
  }

  function Go(s: State, u: nat, phase: Phase): State
    requires u < |s.threads|
  {
    s.(threads := s.threads[u := s.threads[u].(phase := phase)])
  }

  function Lock(s: State, n: nat, owner: Option<nat>): State
    requires n < |s.locks|
  {
    s.(locks := s.locks[n := owner])
  }

  function Decide(s: State, u: nat, prev: nat, curr: nat, result: bool): State
    requires u < |s.threads| && |s.hist| > 0
  {
    s.(threads := s.threads[u := s.threads[u].(phase := FreePrev(prev, curr, result), at := Now(s))])
  }

  ghost predicate Init(s: State) {
    && s.hist == [InitialHeap()] && s.locks == [None, None] && s.freed == {} && s.writers == []
    && forall u :: 0 <= u < |s.threads| ==> s.threads[u].phase == Idle
  }

  /** A call. The keys of the sentinels are reserved. */
  ghost predicate Call(s: State, s': State, u: nat)
    requires u < |s.threads| && |s.hist| > 0
  {
    exists op: Op :: MIN_KEY < op.key < MAX_KEY && s' == s.(threads := s.threads[u := Thread(LockHead, op, Now(s), 0)])
  }

  /** The loop condition, the letting go of `prev`, and the branch after the loop. */
  function LookStep(s: State, u: nat, prev: nat, curr: nat): State
    requires u < |s.threads| && |s.hist| > 0 && |s.locks| == |Mem(s)| && prev < |Mem(s)| && curr < |Mem(s)|
  {
    var h := Mem(s);
    if h[curr].key < s.threads[u].op.key then Lock(Go(s, u, Load(curr)), prev, None)
    else match s.threads[u].op
      case Add(key) =>
        if h[curr].key == key then Decide(s, u, prev, curr, false)
        else Decide(s, u, prev, curr, true).(hist := s.hist + [InsertNode(h, prev, curr, key)],
                                             locks := s.locks + [None], writers := s.writers + [u])
      case Remove(key) =>
        if h[curr].key != key then Decide(s, u, prev, curr, false) else Go(s, u, Cut(prev, curr, h[curr].next))
      case Contain(key) => Decide(s, u, prev, curr, h[curr].key == key)
  }

  function CutStep(s: State, u: nat, prev: nat, curr: nat, succ: Ref): State
    requires u < |s.threads| && |s.hist| > 0 && prev < |Mem(s)|
  {
    Decide(s, u, prev, curr, true).(hist := s.hist + [Mem(s)[prev := Mem(s)[prev].(next := succ)]],
                                    writers := s.writers + [u])
  }

  ghost predicate Step(s: State, s': State, u: nat) {
    && u < |s.threads| && |s.hist| > 0 && |s.locks| == |Mem(s)| >= 2
    && var h := Mem(s);
      var th := s.threads[u];
      match th.phase
      case Idle => Call(s, s', u)
      case LockHead => s.locks[HEAD] == None && s' == Lock(Go(s, u, Load(HEAD)), HEAD, Some(u))
      case Load(prev) => prev < |h| && h[prev].next.To? && s' == Go(s, u, LockNext(prev, h[prev].next.id))
      case LockNext(prev, curr) =>
        curr < |h| && s.locks[curr] == None && s' == Lock(Go(s, u, Look(prev, curr)), curr, Some(u))
      case Look(prev, curr) => prev < |h| && curr < |h| && s' == LookStep(s, u, prev, curr)
      case Cut(prev, curr, succ) => prev < |h| && s' == CutStep(s, u, prev, curr, succ)
      case FreePrev(prev, curr, result) => prev < |h| && s' == Lock(Go(s, u, FreeCurr(curr, result)), prev, None)
      case FreeCurr(curr, result) =>
        && curr < |h|
        && s' == Lock(Go(s, u, if result && th.op.Remove? then Reclaim(curr) else Returned(result)), curr, None)
      case Reclaim(curr) => s' == Go(s, u, Returned(true)).(freed := s.freed + {curr})
      case Returned(_) => s' == Go(s, u, Idle)
  }

  ghost predicate Next(s: State, s': State) {
    exists u: nat :: Step(s, s', u)
  }

  ghost predicate Run(run: seq<State>) {
    && |run| > 0 && Init(run[0])
    && forall n :: 0 <= n < |run| - 1 ==> Steps(run, n)
  }

  ghost predicate Steps(run: seq<State>, n: nat)
    requires n + 1 < |run|
  {
    Next(run[n], run[n+1])
  }

  // ---------- what the threads know ----------

  predicate Holds(th: Thread, n: nat) {
    match th.phase
    case Load(prev) => n == prev
    case LockNext(prev, _) => n == prev
    case Look(prev, curr) => n == prev || n == curr
    case Cut(prev, curr, _) => n == prev || n == curr
    case FreePrev(prev, curr, _) => n == prev || n == curr
    case FreeCurr(curr, _) => n == curr
    case _ => false
  }

  /** The nodes that a thread has a reference to and may still touch. */
  predicate Refers(th: Thread, n: nat) {
    Holds(th, n) || (th.phase.LockHead? && n == HEAD) || (th.phase.LockNext? && n == th.phase.curr)
    || (th.phase.Reclaim? && n == th.phase.curr)
  }

  /** The node that a thread has unlinked and will free. */
  predicate Garbage(th: Thread, n: nat) {
    match th.phase
    case FreePrev(_, curr, result) => th.op.Remove? && result && n == curr
    case FreeCurr(curr, result) => th.op.Remove? && result && n == curr
    case Reclaim(curr) => n == curr
    case _ => false
  }

  function Holding(s: State): (nat, nat) -> bool {
    (u: nat, n: nat) => u < |s.threads| && Holds(s.threads[u], n)
  }

  ghost predicate MutexesOk(s: State) {
    LocksOk(s.locks, |s.threads|, Holding(s))
  }

  /** A node that a thread refers to is on the list, unless the thread itself has unlinked it. */
  ghost predicate RefersOk(h: Heap, th: Thread, n: nat) {
    (Refers(th, n) ==> n < |h|) && (Refers(th, n) && !Garbage(th, n) ==> ListOk(h) && Live(h, n))
  }

  /** What a thread has unlinked is not on the list, not freed, and its own. */
  ghost predicate GarbageOk(s: State, u: nat, n: nat)
    requires u < |s.threads| && |s.hist| > 0
  {
    Garbage(s.threads[u], n) ==>
      && n < |Mem(s)| && ListOk(Mem(s)) && !Live(Mem(s), n) && n !in s.freed
      && forall w :: 0 <= w < |s.threads| && Garbage(s.threads[w], n) ==> w == u
  }

  ghost predicate FreedOk(s: State, n: nat)
    requires |s.hist| > 0
  {
    n in s.freed ==> n < |Mem(s)| && ListOk(Mem(s)) && !Live(Mem(s), n)
  }

  ghost predicate PhaseOk(hist: seq<Heap>, th: Thread)
    requires |hist| > 0
  {
    var h := hist[|hist|-1];
    var key := th.op.key;
    && th.start < |hist| && MIN_KEY < key < MAX_KEY
    && (forall n: nat :: RefersOk(h, th, n))
    && match th.phase
      case Load(prev) => prev < |h| && h[prev].key < key
      case LockNext(prev, curr) => prev < |h| && h[prev].key < key && Adjacent(hist, prev, curr)
      case Look(prev, curr) => prev < |h| && h[prev].key < key && Adjacent(hist, prev, curr)
      case Cut(prev, curr, succ) =>
        && Around(h, prev, curr, key) && Adjacent(hist, prev, curr)
        && th.op.Remove? && h[curr].key == key && h[curr].next == succ
      case FreePrev(prev, curr, result) =>
        && prev != curr && (!Stores(th.op, result) ==> Around(h, prev, curr, key) && Adjacent(hist, prev, curr))
        && th.start <= th.at && AnswerOk(hist, th.at, th.op, result)
      case FreeCurr(curr, result) => th.start <= th.at && AnswerOk(hist, th.at, th.op, result)
      case Reclaim(curr) => th.op.Remove? && th.start <= th.at && AnswerOk(hist, th.at, th.op, true)
      case Returned(answer) => th.start <= th.at && AnswerOk(hist, th.at, th.op, answer)
      case _ => true
  }

  ghost predicate ThreadOk(s: State, u: nat)
    requires u < |s.threads| && |s.hist| > 0
  {
    !s.threads[u].phase.Idle? ==> PhaseOk(s.hist, s.threads[u])
  }

  ghost predicate Inv(s: State) {
    && Trail(s.hist) && |s.locks| == |Mem(s)| && MutexesOk(s)
    && (forall u :: 0 <= u < |s.threads| ==> ThreadOk(s, u))
    && (forall u, n: nat :: 0 <= u < |s.threads| ==> GarbageOk(s, u, n))
    && (forall n: nat :: FreedOk(s, n))
  }

  lemma InitInv(s: State)
    requires Init(s)
    ensures Inv(s)
  {
    assert Mem(s) == InitialHeap();
  }

  // ---------- knowledge lasts ----------

  /** A store that stays away from the nodes the thread has locked leaves what it knows. */
  lemma KnowledgeLasts(hist: seq<Heap>, h': Heap, edit: Edit, th: Thread)
    requires Trail(hist) && EditStep(hist[|hist|-1], h', edit) && ListOk(h')
    requires forall n: nat :: Holds(th, n) ==> !Writes(edit, n)
    requires PhaseOk(hist, th)
    ensures PhaseOk(hist + [h'], th)
  {
    var h := hist[|hist|-1];
    var hist' := hist + [h'];
    assert forall v :: 0 <= v < |hist| ==> hist'[v] == hist[v];
    KeysLast(h, h', edit);
    forall n: nat ensures RefersOk(h', th, n) {
      assert RefersOk(h, th, n);
      if Refers(th, n) { RefersLasts(h, h', edit, th, n); }
    }
    match th.phase
    case LockNext(prev, curr) =>
      assert Holds(th, prev);
      Elsewhere(h, h', edit, prev);
    case Look(prev, curr) =>
      assert Holds(th, prev);
      Elsewhere(h, h', edit, prev);
    case Cut(prev, curr, _) =>
      assert Holds(th, prev) && Holds(th, curr);
      Elsewhere(h, h', edit, prev);
      Elsewhere(h, h', edit, curr);
    case FreePrev(prev, _, result) =>
      assert Holds(th, prev);
      if !Stores(th.op, result) { Elsewhere(h, h', edit, prev); }
      AnswerLasts(hist, h', th.at, th.op, result);
    case FreeCurr(_, result) => AnswerLasts(hist, h', th.at, th.op, result);
    case Reclaim(_) => AnswerLasts(hist, h', th.at, th.op, true);
    case Returned(answer) => AnswerLasts(hist, h', th.at, th.op, answer);
    case _ =>
  }

  /** The successor of a locked node stays on the list even while nobody has locked it. */
  lemma RefersLasts(h: Heap, h': Heap, edit: Edit, th: Thread, n: nat)
    requires EditStep(h, h', edit) && ListOk(h') && RefersOk(h, th, n) && Refers(th, n)
    requires forall m: nat :: Holds(th, m) ==> !Writes(edit, m)
    requires th.phase.LockNext?
      ==> th.phase.prev < |h| && Live(h, th.phase.prev) && h[th.phase.prev].next == To(th.phase.curr)
    ensures RefersOk(h', th, n)
  {
    KeysLast(h, h', edit);
    if Holds(th, n) {
      Elsewhere(h, h', edit, n);
    } else if th.phase.LockNext? {
      assert Holds(th, th.phase.prev);
      Elsewhere(h, h', edit, th.phase.prev);
      assert th.phase.prev != TAIL;
      ReachNext(h', HEAD, th.phase.prev);
    }
  }

  // ---------- each step keeps the invariant ----------

  /** Threads refer to linked nodes only. */
  lemma NobodyHoldsNew(s: State)
    requires Inv(s)
    ensures forall w: nat :: w < |s.threads| ==> !Holds(s.threads[w], |s.locks|)
  {
    forall w: nat | w < |s.threads| ensures !Holds(s.threads[w], |s.locks|) {
      assert ThreadOk(s, w);
      assert !s.threads[w].phase.Idle? ==> RefersOk(Mem(s), s.threads[w], |s.locks|);
    }
  }

  /** A step that changes and frees no node. */
  lemma LocalInv(s: State, s': State, u: nat)
    requires Inv(s) && u < |s.threads| == |s'.threads| && s'.threads == s.threads[u := s'.threads[u]]
    requires s'.hist == s.hist && s'.freed == s.freed
    requires MutexesOk(s') && |s'.locks| == |s.locks| && ThreadOk(s', u)
    requires forall n: nat :: Garbage(s'.threads[u], n) ==> Garbage(s.threads[u], n)
    ensures Inv(s')
  {
    forall w | 0 <= w < |s'.threads| ensures ThreadOk(s', w) { assert ThreadOk(s, w); }
    forall w, n: nat | 0 <= w < |s'.threads| ensures GarbageOk(s', w, n) { assert GarbageOk(s, w, n); }
    forall n: nat ensures FreedOk(s', n) { assert FreedOk(s, n); }
  }

  /** A store, by the thread that has locked the nodes concerned. */
  lemma StoreInv(s: State, s': State, u: nat, h': Heap, edit: Edit)
    requires Inv(s) && u < |s.threads| == |s'.threads| && s'.threads == s.threads[u := s'.threads[u]]
    requires s'.hist == s.hist + [h'] && EditStep(Mem(s), h', edit) && ListOk(h') && s'.freed == s.freed
    requires forall n: nat :: Writes(edit, n) ==> n < |s.locks| && Holds(s.threads[u], n)
    requires MutexesOk(s') && |s'.locks| == |h'| && ThreadOk(s', u)
    requires forall n: nat :: Garbage(s'.threads[u], n) ==> edit.Removed? && n == edit.c && Live(Mem(s), n)
    ensures Inv(s')
  {
    var a := |s.hist| - 1;
    forall b | 0 <= b < |s'.hist| - 1 ensures TrailStep(s'.hist, b) {
      if b < a { assert TrailStep(s.hist, b); } else { assert EditStep(s'.hist[b], s'.hist[b+1], edit); }
    }
    forall w | 0 <= w < |s'.threads| ensures ThreadOk(s', w) {
      if w != u && !s.threads[w].phase.Idle? {
        assert ThreadOk(s, w);
        forall n: nat | Holds(s.threads[w], n) ensures !Writes(edit, n) {
          if n < |s.locks| { assert LockOk(s.locks, Holding(s), n, u) && LockOk(s.locks, Holding(s), n, w); }
        }
        KnowledgeLasts(s.hist, h', edit, s.threads[w]);
      }
    }
    StoreGarbage(s, s', u, h', edit);
  }

  lemma StoreGarbage(s: State, s': State, u: nat, h': Heap, edit: Edit)
    requires Inv(s) && u < |s.threads| == |s'.threads| && s'.threads == s.threads[u := s'.threads[u]]
    requires s'.hist == s.hist + [h'] && EditStep(Mem(s), h', edit) && ListOk(h') && s'.freed == s.freed
    requires forall n: nat :: Garbage(s'.threads[u], n) ==> edit.Removed? && n == edit.c && Live(Mem(s), n)
    ensures forall w, n: nat :: 0 <= w < |s'.threads| ==> GarbageOk(s', w, n)
    ensures forall n: nat :: FreedOk(s', n)
  {
    var h := Mem(s);
    forall w, n: nat | 0 <= w < |s'.threads| ensures GarbageOk(s', w, n) {
      assert GarbageOk(s, w, n) && FreedOk(s, n);
      if n < |h| { EditedLive(h, edit, n); }
      forall v | 0 <= v < |s'.threads| && Garbage(s'.threads[v], n) && Garbage(s'.threads[w], n) ensures v == w {
        assert GarbageOk(s, v, n);
      }
    }
    forall n: nat ensures FreedOk(s', n) {
      assert FreedOk(s, n);
      if n < |h| { EditedLive(h, edit, n); }
    }
  }

  lemma LockHeadInv(s: State, s': State, u: nat)
    requires Inv(s) && Step(s, s', u) && s.threads[u].phase.LockHead?
    ensures Inv(s')
  {
    assert ThreadOk(s, u);
    TrailOk(s.hist, Now(s));
    forall n: nat ensures RefersOk(Mem(s), s'.threads[u], n) { assert RefersOk(Mem(s), s.threads[u], n); }
    LocksStep(s.locks, s'.locks, |s.threads|, Holding(s), Holding(s'), u, HEAD);
    LocalInv(s, s', u);
  }

  lemma LoadInv(s: State, s': State, u: nat)
    requires Inv(s) && Step(s, s', u) && s.threads[u].phase.Load?
    ensures Inv(s')
  {
    assert ThreadOk(s, u);
    TrailOk(s.hist, Now(s));
    var h := Mem(s);
    var prev := s.threads[u].phase.prev;
    assert RefersOk(h, s.threads[u], prev);
    ReachNext(h, HEAD, prev);
    assert LinkOk(h, prev);
    forall n: nat ensures RefersOk(h, s'.threads[u], n) { assert RefersOk(h, s.threads[u], n); }
    SameLocks(s.locks, |s.threads|, Holding(s), Holding(s'));
    LocalInv(s, s', u);
  }

  lemma LockNextInv(s: State, s': State, u: nat)
    requires Inv(s) && Step(s, s', u) && s.threads[u].phase.LockNext?
    ensures Inv(s')
  {
    assert ThreadOk(s, u);
    var h := Mem(s);
    forall n: nat ensures RefersOk(h, s'.threads[u], n) { assert RefersOk(h, s.threads[u], n); }
    LocksStep(s.locks, s'.locks, |s.threads|, Holding(s), Holding(s'), u, s.threads[u].phase.curr);
    LocalInv(s, s', u);
  }

  lemma AddInv(s: State, u: nat)
    requires Inv(s) && u < |s.threads| && s.threads[u].phase.Look? && s.threads[u].op.Add? && ThreadOk(s, u)
    requires s.threads[u].phase.curr < |Mem(s)| && Mem(s)[s.threads[u].phase.curr].key > s.threads[u].op.key
    ensures Inv(LookStep(s, u, s.threads[u].phase.prev, s.threads[u].phase.curr))
    ensures Plus(s.hist + [InsertNode(Mem(s), s.threads[u].phase.prev, s.threads[u].phase.curr, s.threads[u].op.key)],
                 Now(s), s.threads[u].op.key)
  {
    var th := s.threads[u];
    var prev, curr, key := th.phase.prev, th.phase.curr, th.op.key;
    var s' := LookStep(s, u, prev, curr);
    var h, h' := Mem(s), InsertNode(Mem(s), prev, curr, key);
    var edit := Edit.Added(prev, curr, key);
    TailHasNoNext(s, prev, curr);
    assert CanEdit(h, edit);
    EditedOk(h, edit);
    AddedMember(h, prev, curr, key);
    assert s'.hist[Now(s)] == h && s'.hist[Now(s) + 1] == h';
    assert forall k :: MemberAt(s'.hist, Now(s) + 1, k) <==> Member(h', k);
    assert forall k :: MemberAt(s'.hist, Now(s), k) <==> Member(h, k);
    assert EditStep(h, h', edit);
    NobodyHoldsNew(s);
    NewLock(s.locks, |s.threads|, Holding(s), Holding(s'));
    forall n: nat ensures RefersOk(h', s'.threads[u], n) {
      assert RefersOk(h, th, n);
      if n < |h| { EditedLive(h, edit, n); }
    }
    StoreInv(s, s', u, h', edit);
  }

  lemma TailHasNoNext(s: State, prev: nat, curr: nat)
    requires Inv(s) && Adjacent(s.hist, prev, curr)
    ensures prev != TAIL && curr < |Mem(s)| && Mem(s)[prev].key < Mem(s)[curr].key
  {
    assert Mem(s)[TAIL].next == Null;
    assert LinkOk(Mem(s), prev);
  }

  lemma LookInv(s: State, s': State, u: nat)
    requires Inv(s) && Step(s, s', u) && s.threads[u].phase.Look?
    ensures Inv(s')
  {
    assert ThreadOk(s, u);
    var th := s.threads[u];
    var prev, curr := th.phase.prev, th.phase.curr;
    var h := Mem(s);
    TailHasNoNext(s, prev, curr);
    if h[curr].key > th.op.key && th.op.Add? {
      AddInv(s, u);
    } else {
      if h[curr].key >= th.op.key { Lookup(h, prev, curr, th.op.key); }
      forall n: nat ensures RefersOk(h, s'.threads[u], n) { assert RefersOk(h, th, n); }
      if h[curr].key < th.op.key {
        assert LockOk(s.locks, Holding(s), prev, u);
        LocksStep(s.locks, s'.locks, |s.threads|, Holding(s), Holding(s'), u, prev);
      } else {
        SameLocks(s.locks, |s.threads|, Holding(s), Holding(s'));
      }
      LocalInv(s, s', u);
    }
  }

  lemma CutInv(s: State, s': State, u: nat)
    requires Inv(s) && Step(s, s', u) && s.threads[u].phase.Cut?
    ensures Inv(s') && Minus(s'.hist, Now(s), s.threads[u].op.key)
  {
    assert ThreadOk(s, u);
    var th := s.threads[u];
    var prev, curr, key := th.phase.prev, th.phase.curr, th.op.key;
    var h := Mem(s);
    var h' := UnlinkNode(h, prev, curr);
    var edit := Edit.Removed(prev, curr);
    assert CanEdit(h, edit);
    EditedOk(h, edit);
    RemovedMember(h, prev, curr);
    Lookup(h, prev, curr, key);
    assert s'.hist == s.hist + [h'];
    assert s'.hist[Now(s)] == h && s'.hist[Now(s) + 1] == h';
    assert forall k :: MemberAt(s'.hist, Now(s) + 1, k) <==> Member(h', k);
    assert forall k :: MemberAt(s'.hist, Now(s), k) <==> Member(h, k);
    assert EditStep(h, h', edit);
    SameLocks(s.locks, |s.threads|, Holding(s), Holding(s'));
    forall n: nat ensures RefersOk(h', s'.threads[u], n) {
      assert RefersOk(h, th, n);
      if n < |h| { EditedLive(h, edit, n); }
    }
    StoreInv(s, s', u, h', edit);
  }

  lemma FreeInv(s: State, s': State, u: nat)
    requires Inv(s) && Step(s, s', u) && (s.threads[u].phase.FreePrev? || s.threads[u].phase.FreeCurr?)
    ensures Inv(s')
  {
    assert ThreadOk(s, u);
    var n := if s.threads[u].phase.FreePrev? then s.threads[u].phase.prev else s.threads[u].phase.curr;
    assert RefersOk(Mem(s), s.threads[u], n);
    assert LockOk(s.locks, Holding(s), n, u);
    forall m: nat ensures RefersOk(Mem(s), s'.threads[u], m) { assert RefersOk(Mem(s), s.threads[u], m); }
    LocksStep(s.locks, s'.locks, |s.threads|, Holding(s), Holding(s'), u, n);
    LocalInv(s, s', u);
  }

  lemma ReclaimInv(s: State, s': State, u: nat)
    requires Inv(s) && Step(s, s', u) && s.threads[u].phase.Reclaim?
    ensures Inv(s')
  {
    assert ThreadOk(s, u);
    var c := s.threads[u].phase.curr;
    assert GarbageOk(s, u, c);
    SameLocks(s.locks, |s.threads|, Holding(s), Holding(s'));
    forall m: nat ensures RefersOk(Mem(s), s'.threads[u], m) { assert RefersOk(Mem(s), s.threads[u], m); }
    forall w | 0 <= w < |s'.threads| ensures ThreadOk(s', w) { assert ThreadOk(s, w); }
    forall w, n: nat | 0 <= w < |s'.threads| ensures GarbageOk(s', w, n) { assert GarbageOk(s, w, n); }
    forall n: nat ensures FreedOk(s', n) { assert FreedOk(s, n); }
  }

  lemma OtherInv(s: State, s': State, u: nat)
    requires Inv(s) && Step(s, s', u) && (s.threads[u].phase.Idle? || s.threads[u].phase.Returned?)
    ensures Inv(s')
  {
    assert ThreadOk(s, u);
    TrailOk(s.hist, Now(s));
    SameLocks(s.locks, |s.threads|, Holding(s), Holding(s'));
    assert forall n: nat :: RefersOk(Mem(s), s'.threads[u], n);
    LocalInv(s, s', u);
  }

  lemma StepInv(s: State, s': State, u: nat)
    requires Inv(s) && Step(s, s', u)
    ensures Inv(s')
  {
    match s.threads[u].phase
    case LockHead => LockHeadInv(s, s', u);
    case Load(_) => LoadInv(s, s', u);
    case LockNext(_, _) => LockNextInv(s, s', u);
    case Look(_, _) => LookInv(s, s', u);
    case Cut(_, _, _) => CutInv(s, s', u);
    case FreePrev(_, _, _) => FreeInv(s, s', u);
    case FreeCurr(_, _) => FreeInv(s, s', u);
    case Reclaim(_) => ReclaimInv(s, s', u);
    case _ => OtherInv(s, s', u);
  }

  lemma {:induction false} RunKeepsInv(run: seq<State>, n: nat)
    requires Run(run) && n < |run|
    ensures Inv(run[n])
  {
    if n == 0 {
      InitInv(run[0]);
    } else {
      RunKeepsInv(run, n - 1);
      assert Steps(run, n - 1);
      var u: nat :| Step(run[n-1], run[n], u);
      StepInv(run[n-1], run[n], u);
    }
  }

  // ---------- what holds in every reachable state ----------

  /** No use after free: no thread has a reference to a freed node. */
  lemma FreedNodesAreForgotten(run: seq<State>, n: nat, u: nat, m: nat)
    requires Run(run) && n < |run| && u < |run[n].threads| && Refers(run[n].threads[u], m)
    ensures m !in run[n].freed
  {
    RunKeepsInv(run, n);
    var s := run[n];
    assert ThreadOk(s, u) && RefersOk(Mem(s), s.threads[u], m) && GarbageOk(s, u, m) && FreedOk(s, m);
  }

  /** A thread about to free a node is the only one with a reference to it, and no node is freed while on the list. */
  lemma FreesWhatNobodyUses(run: seq<State>, n: nat, u: nat, w: nat)
    requires Run(run) && n < |run| && u < |run[n].threads| && w < |run[n].threads| && w != u
    requires run[n].threads[u].phase.Reclaim?
    ensures !Refers(run[n].threads[w], run[n].threads[u].phase.curr)
    ensures |run[n].hist| > 0 && ListOk(Mem(run[n])) && !Live(Mem(run[n]), run[n].threads[u].phase.curr)
  {
    RunKeepsInv(run, n);
    var s := run[n];
    var m := s.threads[u].phase.curr;
    assert ThreadOk(s, w) && GarbageOk(s, u, m) && GarbageOk(s, w, m);
    assert !s.threads[w].phase.Idle? ==> RefersOk(Mem(s), s.threads[w], m);
  }

  // ---------- no leaks ----------

  ghost predicate Waste(s: State, u: nat, n: nat) {
    u < |s.threads| && Garbage(s.threads[u], n)
  }

  /** Node `n` is on the list, freed, or about to be. */
  ghost predicate Kept(s: State, n: nat)
    requires |s.hist| > 0
  {
    (ListOk(Mem(s)) && Live(Mem(s), n)) || n in s.freed || exists u: nat :: Waste(s, u, n)
  }

  ghost predicate NoLeak(s: State) {
    |s.hist| > 0 && forall n: nat :: n < |Mem(s)| ==> Kept(s, n)
  }

  /** A step that changes no node passes on what it is going to free. */
  lemma QuietKept(s: State, s': State, u: nat, n: nat)
    requires Step(s, s', u) && s'.hist == s.hist && Kept(s, n)
    ensures Kept(s', n)
  {
    if w: nat :| Waste(s, w, n) {
      assert Waste(s', w, n) || n in s'.freed;
    }
  }

  lemma AddKept(s: State, s': State, u: nat, n: nat)
    requires Inv(s) && Inv(s') && Step(s, s', u) && s.threads[u].phase.Look? && s'.hist != s.hist && n < |Mem(s')|
    requires n < |Mem(s)| ==> Kept(s, n)
    ensures Kept(s', n)
  {
    assert ThreadOk(s, u);
    var th := s.threads[u];
    var prev, curr, key := th.phase.prev, th.phase.curr, th.op.key;
    TailHasNoNext(s, prev, curr);
    TrailOk(s'.hist, Now(s'));
    assert Mem(s') == InsertNode(Mem(s), prev, curr, key);
    if n < |Mem(s)| {
      EditedLive(Mem(s), Edit.Added(prev, curr, key), n);
      if w: nat :| Waste(s, w, n) { assert Waste(s', w, n); }
    } else {
      NewIsLive(Mem(s), prev, curr, key);
    }
  }

  lemma CutKept(s: State, s': State, u: nat, n: nat)
    requires Inv(s) && Inv(s') && Step(s, s', u) && s.threads[u].phase.Cut? && n < |Mem(s)| && Kept(s, n)
    ensures Kept(s', n)
  {
    assert ThreadOk(s, u);
    var th := s.threads[u];
    var prev, curr := th.phase.prev, th.phase.curr;
    TrailOk(s'.hist, Now(s'));
    assert Mem(s') == UnlinkNode(Mem(s), prev, curr);
    EditedLive(Mem(s), Edit.Removed(prev, curr), n);
    if n == curr { assert Waste(s', u, n); }
    if w: nat :| Waste(s, w, n) { assert Waste(s', w, n); }
  }

  lemma LeakStep(s: State, s': State, u: nat)
    requires Inv(s) && Inv(s') && Step(s, s', u) && NoLeak(s)
    ensures NoLeak(s')
  {
    forall n: nat | n < |Mem(s')| ensures Kept(s', n) {
      if s'.hist == s.hist {
        QuietKept(s, s', u, n);
      } else if s.threads[u].phase.Look? {
        AddKept(s, s', u, n);
      } else {
        CutKept(s, s', u, n);
      }
    }
  }

  lemma {:induction false} RunNoLeak(run: seq<State>, n: nat)
    requires Run(run) && n < |run|
    ensures Inv(run[n]) && NoLeak(run[n])
  {
    RunKeepsInv(run, n);
    if n == 0 {
      AllLive();
    } else {
      RunNoLeak(run, n - 1);
      assert Steps(run, n - 1);
      var u: nat :| Step(run[n-1], run[n], u);
      LeakStep(run[n-1], run[n], u);
    }
  }

  /** Nothing leaks: every node that has been taken off the list is freed or its remover is about to free it. When no
      call is under way, the nodes freed are exactly those not on the list. */
  lemma RemovedNodesAreFreed(run: seq<State>, n: nat, m: nat)
    requires Run(run) && n < |run| && |run[n].hist| > 0 && m < |Mem(run[n])|
    ensures ListOk(Mem(run[n]))
    ensures !Live(Mem(run[n]), m) ==> m in run[n].freed || exists u: nat :: Waste(run[n], u, m)
    ensures (forall u :: 0 <= u < |run[n].threads|
               ==> run[n].threads[u].phase.Idle? || run[n].threads[u].phase.Returned?)
      ==> (m in run[n].freed <==> !Live(Mem(run[n]), m))
  {
    RunNoLeak(run, n);
    TrailOk(run[n].hist, Now(run[n]));
    assert Kept(run[n], m) && FreedOk(run[n], m);
  }

  lemma AllLive()
    ensures ListOk(InitialHeap()) && forall n: nat :: n < 2 ==> Live(InitialHeap(), n)
  {
    var h := InitialHeap();
    assert Linked(h) && Reach(h, HEAD, TAIL);
  }

  /** The two nodes that a thread has locked, unless it has stored to one of them. */
  ghost predicate BothLocked(th: Thread, prev: nat, curr: nat) {
    match th.phase
    case Look(p, c) => p == prev && c == curr
    case Cut(p, c, _) => p == prev && c == curr
    case FreePrev(p, c, result) => p == prev && c == curr && !Stores(th.op, result)
    case _ => false
  }

  /** While a thread has its two locks they are on two neighbours of the list, whatever the others do, until it stores
      or unlocks. */
  lemma LockedNeighbours(run: seq<State>, n: nat, u: nat, prev: nat, curr: nat)
    requires Run(run) && n < |run| && u < |run[n].threads| && BothLocked(run[n].threads[u], prev, curr)
    ensures |run[n].hist| > 0 && Adjacent(run[n].hist, prev, curr)
  {
    RunKeepsInv(run, n);
    assert ThreadOk(run[n], u);
  }

  /** The list refines a set, as the optimistic one does. */
  lemma RefinesSet(run: seq<State>, n: nat, u: nat)
    requires Run(run) && n + 1 < |run| && Step(run[n], run[n+1], u)
    ensures var s, s', th, th' := run[n], run[n+1], run[n].threads[u], run[n+1].threads[u];
      if th.phase.Look? && th.op.Add? && th'.phase.FreePrev? && th'.phase.result then
        |s'.hist| == |s.hist| + 1 && Plus(s'.hist, Now(s), th.op.key)
      else if th.phase.Cut? then
        th.op.Remove? && |s'.hist| == |s.hist| + 1 && Minus(s'.hist, Now(s), th.op.key)
      else s'.hist == s.hist
  {
    RunKeepsInv(run, n);
    var s := run[n];
    var th := s.threads[u];
    assert ThreadOk(s, u);
    if th.phase.Look? && th.op.Add? && Mem(s)[th.phase.curr].key > th.op.key { AddInv(s, u); }
    if th.phase.Cut? { CutInv(s, run[n+1], u); }
  }

  /** Every answer is the right one for the set at an instant between the call and the return. */
  lemma AnswersAreLinearizable(run: seq<State>, n: nat, u: nat)
    requires Run(run) && n < |run| && u < |run[n].threads| && run[n].threads[u].phase.Returned?
    ensures |run[n].hist| > 0
    ensures var s, th := run[n], run[n].threads[u];
      th.start <= th.at <= Now(s) && AnswerOk(s.hist, th.at, th.op, th.phase.answer)
  {
    RunKeepsInv(run, n);
    assert ThreadOk(run[n], u);
  }

  /** Whether the current call has stored. */
  predicate HasStored(th: Thread) {
    match th.phase
    case FreePrev(_, _, result) => Stores(th.op, result)
    case FreeCurr(_, result) => Stores(th.op, result)
    case Reclaim(_) => true
    case Returned(answer) => Stores(th.op, answer)
    case _ => false
  }

  predicate Removing(phase: Phase) {
    phase.Cut? || phase.Reclaim?
  }

  /** The current call of `u` has made one change, at the instant of its decision, or none. */
  ghost predicate MadeOk(s: State, u: nat)
    requires u < |s.threads|
  {
    var th := s.threads[u];
    !th.phase.Idle? ==>
      && th.start <= |s.writers| && MadeBy(s.writers, u, th.start, th.at, HasStored(th))
      && (Removing(th.phase) ==> th.op.Remove?)
  }

  ghost predicate Writers(s: State) {
    |s.writers| + 1 == |s.hist| && forall u :: 0 <= u < |s.threads| ==> MadeOk(s, u)
  }

  /** What a step does about the record of changes. */
  ghost predicate Recorded(s: State, s': State, u: nat)
    requires u < |s.threads| == |s'.threads| && |s.hist| > 0
  {
    var th, th' := s.threads[u], s'.threads[u];
    if th.phase.Idle? then
      s'.writers == s.writers && s'.hist == s.hist && th'.start == Now(s) && !HasStored(th') && !Removing(th'.phase)
    else
      && th'.op == th.op && th'.start == th.start && (Removing(th'.phase) ==> th.op.Remove?)
      && if |s'.hist| == |s.hist| then
           && s'.writers == s.writers
           && (!th'.phase.Idle? ==> HasStored(th') == HasStored(th) && (HasStored(th) ==> th'.at == th.at))
         else
           && |s'.hist| == |s.hist| + 1 && s'.writers == s.writers + [u]
           && !HasStored(th) && HasStored(th') && th'.at == Now(s)
  }

  lemma StepRecorded(s: State, s': State, u: nat)
    requires Step(s, s', u) && (Removing(s.threads[u].phase) ==> s.threads[u].op.Remove?)
    ensures |s'.threads| == |s.threads| && Recorded(s, s', u)
    ensures forall w :: 0 <= w < |s.threads| && w != u ==> s'.threads[w] == s.threads[w]
  {
  }

  lemma OwnMade(s: State, s': State, u: nat)
    requires u < |s.threads| == |s'.threads| && |s.writers| + 1 == |s.hist| && Recorded(s, s', u) && MadeOk(s, u)
    ensures MadeOk(s', u) && |s'.writers| + 1 == |s'.hist|
  {
    var th := s.threads[u];
    if !th.phase.Idle? { MadeOn(s.writers, u, th.start, th.at, HasStored(th), u); }
  }

  lemma WritersStep(s: State, s': State, u: nat)
    requires Writers(s) && Step(s, s', u)
    ensures Writers(s')
  {
    assert MadeOk(s, u);
    StepRecorded(s, s', u);
    OwnMade(s, s', u);
    forall w | 0 <= w < |s'.threads| ensures MadeOk(s', w) {
      assert MadeOk(s, w);
      var th := s.threads[w];
      if w != u && !th.phase.Idle? { MadeOn(s.writers, w, th.start, th.at, HasStored(th), u); }
    }
  }

  lemma {:induction false} RunKeepsWriters(run: seq<State>, n: nat)
    requires Run(run) && n < |run|
    ensures Writers(run[n])
  {
    if n > 0 {
      RunKeepsWriters(run, n - 1);
      assert Steps(run, n - 1);
      var u: nat :| Step(run[n-1], run[n], u);
      WritersStep(run[n-1], run[n], u);
    }
  }

  lemma StaysInCall(s: State, s': State, w: nat, u: nat)
    requires Step(s, s', w) && u < |s.threads| && !s.threads[u].phase.Idle? && !s.threads[u].phase.Returned?
    ensures u < |s'.threads| && !s'.threads[u].phase.Idle?
    ensures s'.threads[u].op == s.threads[u].op && s'.threads[u].start == s.threads[u].start
  {
  }

  /** A call ends by its answer only: between a moment inside it and a later idle one it has returned. */
  lemma {:induction false} CallsReturn(run: seq<State>, m: nat, n: nat, u: nat) returns (k: nat)
    requires Run(run) && m <= n < |run| && u < |run[m].threads| && !run[m].threads[u].phase.Idle?
    requires u < |run[n].threads| && run[n].threads[u].phase.Idle?
    ensures m <= k < n && u < |run[k].threads| && run[k].threads[u].phase.Returned?
    ensures run[k].threads[u].op == run[m].threads[u].op && run[k].threads[u].start == run[m].threads[u].start
    decreases n - m
  {
    if run[m].threads[u].phase.Returned? {
      k := m;
    } else {
      assert Steps(run, m);
      var w: nat :| Step(run[m], run[m+1], w);
      StaysInCall(run[m], run[m+1], w, u);
      k := CallsReturn(run, m + 1, n, u);
    }
  }

  /** A call that has returned true to an add or a remove has made exactly one change of the list, the one that its
      answer speaks of; any other has made none. */
  lemma OneChangeACall(run: seq<State>, n: nat, u: nat)
    requires Run(run) && n < |run| && u < |run[n].threads| && run[n].threads[u].phase.Returned?
    ensures var s, th := run[n], run[n].threads[u];
      && |s.hist| == |s.writers| + 1
      && MadeBy(s.writers, u, th.start, th.at, th.phase.answer && !th.op.Contain?)
      && (th.phase.answer && th.op.Add? ==> th.at + 1 < |s.hist| && Plus(s.hist, th.at, th.op.key))
      && (th.phase.answer && th.op.Remove? ==> th.at + 1 < |s.hist| && Minus(s.hist, th.at, th.op.key))
  {
    RunKeepsWriters(run, n);
    AnswersAreLinearizable(run, n, u);
    assert MadeOk(run[n], u);
  }

  // ---------- lock waits ----------

  function Wanted(th: Thread): Option<nat> {
    match th.phase
    case LockHead => Some(HEAD)
    case LockNext(_, curr) => Some(curr)
    case _ => None
  }

  function ViewOf(s: State): View
    requires |s.hist| > 0
  {
    View(seq(|s.threads|, t requires 0 <= t < |s.threads| => Wanted(s.threads[t])), s.locks,
         seq(|Mem(s)|, n requires 0 <= n < |Mem(s)| => Mem(s)[n].key))
  }

  lemma WaitsRise(s: State)
    requires Inv(s)
    ensures Rising(ViewOf(s))
  {
    TrailOk(s.hist, Now(s));
    var v := ViewOf(s);
    forall n | 0 <= n < |v.keys| ensures v.keys[n] <= MAX_KEY { if n != TAIL { assert LinkOk(Mem(s), n); } }
    forall t: nat, u: nat | WaitsOn(v, t, u) ensures u < |v.wants| && WantedKey(v, t) < WantedKey(v, u) {
      assert LockOk(s.locks, Holding(s), Wanted(s.threads[t]).value, u);
      assert ThreadOk(s, u);
      if s.threads[u].phase.LockNext? { TailHasNoNext(s, s.threads[u].phase.prev, s.threads[u].phase.curr); }
    }
  }

  /** A thread keeps the lock of one node while it takes that of the next, whose key is greater: no cycle of lock
      waits. */
  lemma NoCycleOfLockWaits(run: seq<State>, n: nat, path: seq<nat>)
    requires Run(run) && n < |run| && |path| > 1
    ensures |run[n].hist| > 0 && (WaitChain(ViewOf(run[n]), path) ==> path[0] != path[|path|-1])
  {
    RunKeepsInv(run, n);
    WaitsRise(run[n]);
    if WaitChain(ViewOf(run[n]), path) { KeysRise(ViewOf(run[n]), path); }
  }

  /** A thread that is not waiting for a lock can take a step. */
  lemma FreeMoves(s: State, u: nat) returns (s': State)
    requires Inv(s) && u < |s.threads| && !Blocked(ViewOf(s), u)
    ensures Step(s, s', u) && s' != s
  {
    assert ThreadOk(s, u);
    TrailOk(s.hist, Now(s));
    var th := s.threads[u];
    if Wanted(th).Some? {
      var m := Wanted(th).value;
      assert Refers(th, m);
      assert RefersOk(Mem(s), th, m);
      if s.locks[m].Some? { assert WaitsOn(ViewOf(s), u, s.locks[m].value); }
    }
    s' := SomeStep(s, u);
    assert s'.threads[u].phase != th.phase;
  }

  lemma SomeStep(s: State, u: nat) returns (s': State)
    requires Inv(s) && u < |s.threads| && ThreadOk(s, u) && ListOk(Mem(s))
    requires Wanted(s.threads[u]).Some?
      ==> Wanted(s.threads[u]).value < |s.locks| && s.locks[Wanted(s.threads[u]).value] == None
    ensures Step(s, s', u) && s'.threads[u].phase != s.threads[u].phase
  {
    var h := Mem(s);
    var th := s.threads[u];
    match th.phase
    case Idle => s' := s.(threads := s.threads[u := Thread(LockHead, Contain(0), Now(s), 0)]);
    case LockHead => s' := Lock(Go(s, u, Load(HEAD)), HEAD, Some(u));
    case Load(prev) =>
      assert RefersOk(h, th, prev);
      assert LinkOk(h, prev);
      s' := Go(s, u, LockNext(prev, h[prev].next.id));
    case LockNext(prev, curr) => s' := Lock(Go(s, u, Look(prev, curr)), curr, Some(u));
    case Look(prev, curr) =>
      TailHasNoNext(s, prev, curr);
      s' := LookStep(s, u, prev, curr);
    case Cut(prev, curr, succ) => s' := CutStep(s, u, prev, curr, succ);
    case FreePrev(prev, curr, result) =>
      assert RefersOk(h, th, prev);
      s' := Lock(Go(s, u, FreeCurr(curr, result)), prev, None);
    case FreeCurr(curr, result) =>
      assert RefersOk(h, th, curr);
      s' := Lock(Go(s, u, if result && th.op.Remove? then Reclaim(curr) else Returned(result)), curr, None);
    case Reclaim(curr) => s' := Go(s, u, Returned(true)).(freed := s.freed + {curr});
    case Returned(_) => s' := Go(s, u, Idle);
  }

  /** From every thread the chain of lock waits leads to a thread that can take a step. */
  lemma SomeThreadMoves(run: seq<State>, n: nat, t: nat) returns (w: nat, path: seq<nat>)
    requires Run(run) && n < |run| && t < |run[n].threads|
    ensures |run[n].hist| > 0 && WaitChain(ViewOf(run[n]), path) && path[0] == t && path[|path|-1] == w
    ensures exists s' :: Step(run[n], s', w) && s' != run[n]
  {
    RunKeepsInv(run, n);
    WaitsRise(run[n]);
    path := EndOfChain(ViewOf(run[n]), t);
    w := path[|path|-1];
    var s' := FreeMoves(run[n], w);
  }
}
