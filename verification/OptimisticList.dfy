/**
 The optimistic list as a step machine: a walk without locks, then locks on the two nodes found, then another walk
 from the head to see that they are still on the list and adjacent. Each step is one load, one store or one lock
 operation of one thread. `hist` lists the heaps since the start, one store to a linked node apart; an instant is a
 position in it.
 */
module OptimisticList {
  import opened Options
  import opened LockFreeHeap
  import opened ListHeap
  import opened LockWaits
  import opened NodeLocks

  datatype Phase =
    | Idle
    | Start                                              // about to load head->next
    | Walk(prev: nat, curr: nat)                         // at curr in the walk without locks
    | LockPrev(prev: nat, curr: nat)                     // about to lock prev
    | LockCurr(prev: nat, curr: nat)                     // prev locked, about to lock curr
    | Validate(prev: nat, curr: nat, it: nat)            // both locked, list_validate at it
    | Act(prev: nat, curr: nat)                          // validated
    | Cut(prev: nat, curr: nat, succ: Ref)               // curr->next loaded, about to store it in prev->next
    | FreePrev(prev: nat, curr: nat, result: Option<bool>)  // about to unlock prev
    | FreeCurr(curr: nat, result: Option<bool>)          // about to unlock curr
    | Returned(answer: bool)

  /** For the statements: `start`, `round`, `since` and `at` are the instants of the call, of the beginning of the last
      round, of the second lock and of the decision, and `restarts` counts the failed validations. */
  datatype Thread = Thread(phase: Phase, op: Op, start: nat, since: nat, at: nat, round: nat, restarts: nat)

  /** `writers[a]` is the thread that made the change from instant `a` to the next. */
  datatype State = State(threads: seq<Thread>, hist: seq<Heap>, locks: seq<Option<nat>>, writers: seq<nat>)

  function Mem(s: State): Heap
    requires |s.hist| > 0
  {
    s.hist[|s.hist|-1]
  }

  function Now(s: State): nat
    requires |s.hist| > 0
  {
    |s.hist| - 1
  }

  function Put(s: State, u: nat, th: Thread): State
    requires u < |s.threads|
  {
    s.(threads := s.threads[u := th])
  }

  function Go(s: State, u: nat, phase: Phase): State
    requires u < |s.threads|
  {
    Put(s, u, s.threads[u].(phase := phase))
  }

  function Lock(s: State, n: nat, owner: Option<nat>): State
    requires n < |s.locks|
  {
    s.(locks := s.locks[n := owner])
  }

  /** The first load of a round. */
  function FirstNode(th: Thread, h: Heap, now: nat): Thread
    requires |h| > 0 && h[HEAD].next.To?
  {
    th.(phase := Walk(HEAD, h[HEAD].next.id), round := now)
  }

  /** What follows the second unlock: another round after a failed validation, or the return. */
  function Unlocked(th: Thread, result: Option<bool>, now: nat): Thread {
    if result == None then th.(phase := Start, round := now, restarts := th.restarts + 1)
    else th.(phase := Returned(result.value))
  }

  /** Go on to unlock with a result decided now. */
  function Decide(s: State, u: nat, prev: nat, curr: nat, result: bool): State
    requires u < |s.threads| && |s.hist| > 0
  {
    Put(s, u, s.threads[u].(phase := FreePrev(prev, curr, Some(result)), at := Now(s)))
  }

  ghost predicate Init(s: State) {
    && s.hist == [InitialHeap()] && s.locks == [None, None] && s.writers == []
    && forall u :: 0 <= u < |s.threads| ==> s.threads[u].phase == Idle
  }

  /** A call. The keys of the sentinels are reserved. */
  ghost predicate Call(s: State, s': State, u: nat)
    requires u < |s.threads| && |s.hist| > 0
  {
    exists op: Op :: MIN_KEY < op.key < MAX_KEY && s' == Put(s, u, Thread(Start, op, Now(s), 0, 0, Now(s), 0))
  }

  /** The next turn of the loop of `list_validate`, and where its answer leads. */
  function ValidateNext(h: Heap, prev: nat, curr: nat, it: nat): Phase
    requires prev < |h| && it < |h|
  {
    if h[it].key > h[prev].key then FreePrev(prev, curr, None)
    else if it == prev then (if h[it].next == To(curr) then Act(prev, curr) else FreePrev(prev, curr, None))
    else if h[it].next.To? then Validate(prev, curr, h[it].next.id)
    else FreePrev(prev, curr, None)
  }

  function ActStep(s: State, u: nat, prev: nat, curr: nat): State
    requires u < |s.threads| && |s.hist| > 0 && prev < |Mem(s)| && curr < |Mem(s)|
  {
    var h := Mem(s);
    match s.threads[u].op
    case Add(key) =>
      if h[curr].key == key then Decide(s, u, prev, curr, false)
      else Decide(s, u, prev, curr, true).(hist := s.hist + [InsertNode(h, prev, curr, key)], locks := s.locks + [None],
                                           writers := s.writers + [u])
    case Remove(key) =>
      if h[curr].key != key then Decide(s, u, prev, curr, false) else Go(s, u, Cut(prev, curr, h[curr].next))
    case Contain(key) => Decide(s, u, prev, curr, h[curr].key == key)
  }

  function CutStep(s: State, u: nat, prev: nat, curr: nat, succ: Ref): State
    requires u < |s.threads| && |s.hist| > 0 && prev < |Mem(s)|
  {
    Decide(s, u, prev, curr, true).(hist := s.hist + [Mem(s)[prev := Mem(s)[prev].(next := succ)]],
                                    writers := s.writers + [u])
  }

  ghost predicate Step(s: State, s': State, u: nat) {
    && u < |s.threads| && |s.hist| > 0 && |s.locks| == |Mem(s)| >= 2
    && var h := Mem(s);
      var th := s.threads[u];
      match th.phase
      case Idle => Call(s, s', u)
      case Start => h[HEAD].next.To? && s' == Put(s, u, FirstNode(th, h, Now(s)))
      case Walk(prev, curr) =>
        && curr < |h|
        && (if h[curr].key < th.op.key
            then h[curr].next.To? && s' == Go(s, u, Walk(curr, h[curr].next.id))
            else s' == Go(s, u, LockPrev(prev, curr)))
      case LockPrev(prev, curr) =>
        prev < |h| && s.locks[prev] == None && s' == Lock(Go(s, u, LockCurr(prev, curr)), prev, Some(u))
      case LockCurr(prev, curr) =>
        && curr < |h| && s.locks[curr] == None
        && s' == Lock(Put(s, u, th.(phase := Validate(prev, curr, HEAD), since := Now(s))), curr, Some(u))
      case Validate(prev, curr, it) => prev < |h| && it < |h| && s' == Go(s, u, ValidateNext(h, prev, curr, it))
      case Act(prev, curr) => prev < |h| && curr < |h| && s' == ActStep(s, u, prev, curr)
      case Cut(prev, curr, succ) => prev < |h| && s' == CutStep(s, u, prev, curr, succ)
      case FreePrev(prev, curr, result) => prev < |h| && s' == Lock(Go(s, u, FreeCurr(curr, result)), prev, None)
      case FreeCurr(curr, result) =>
        curr < |h| && s' == Lock(Put(s, u, Unlocked(th, result, Now(s))), curr, None)
      case Returned(_) => s' == Go(s, u, Idle)
  }

  ghost predicate Next(s: State, s': State) {
    exists u: nat :: Step(s, s', u)
  }

  ghost predicate Run(run: seq<State>) {
    && |run| > 0 && Init(run[0])
    && forall n :: 0 <= n < |run| - 1 ==> Steps(run, n)
  }

  ghost predicate Steps(run: seq<State>, n: nat)
    requires n + 1 < |run|
  {
    Next(run[n], run[n+1])
  }

  // ---------- what the threads know ----------

  predicate Holds(th: Thread, n: nat) {
    match th.phase
    case LockCurr(prev, _) => n == prev
    case Validate(prev, curr, _) => n == prev || n == curr
    case Act(prev, curr) => n == prev || n == curr
    case Cut(prev, curr, _) => n == prev || n == curr
    case FreePrev(prev, curr, _) => n == prev || n == curr
    case FreeCurr(curr, _) => n == curr
    case _ => false
  }

  function Holding(s: State): (nat, nat) -> bool {
    (u: nat, n: nat) => u < |s.threads| && Holds(s.threads[u], n)
  }

  ghost predicate MutexesOk(s: State) {
    LocksOk(s.locks, |s.threads|, Holding(s))
  }

  ghost predicate LiveSince(hist: seq<Heap>, since: nat, n: nat) {
    exists v: nat :: since <= v && LiveAt(hist, v, n)
  }

  /** `prev` was on the list at instant `since` just in case it is now. */
  ghost predicate Steady(hist: seq<Heap>, since: nat, prev: nat)
    requires |hist| > 0
  {
    since < |hist| && prev < |hist[since]| && (LiveAt(hist, since, prev) ==> LiveAt(hist, |hist| - 1, prev))
  }

  ghost predicate PhaseOk(hist: seq<Heap>, th: Thread)
    requires |hist| > 0
  {
    var h := hist[|hist|-1];
    var key := th.op.key;
    && th.start < |hist| && MIN_KEY < key < MAX_KEY
    && match th.phase
      case Idle => true
      case Start => true
      case Walk(prev, curr) => prev < |h| && curr < |h| && prev != TAIL && h[prev].key < key
      case LockPrev(prev, curr) => Around(h, prev, curr, key)
      case LockCurr(prev, curr) => Around(h, prev, curr, key)
      case Validate(prev, curr, it) =>
        && Around(h, prev, curr, key) && it < |h|
        && Steady(hist, th.since, prev) && LiveSince(hist, th.since, it)
        && (LiveAt(hist, |hist| - 1, prev) ==> h[it].key <= h[prev].key)
      case Act(prev, curr) => Around(h, prev, curr, key) && Adjacent(hist, prev, curr)
      case Cut(prev, curr, succ) =>
        && Around(h, prev, curr, key) && Adjacent(hist, prev, curr)
        && th.op.Remove? && h[curr].key == key && h[curr].next == succ
      case FreePrev(prev, curr, result) =>
        && prev < |h| && curr < |h| && prev != curr
        && (result.Some? && !Stores(th.op, result.value) ==> Around(h, prev, curr, key) && Adjacent(hist, prev, curr))
        && (result.Some? ==> th.start <= th.at && AnswerOk(hist, th.at, th.op, result.value))
      case FreeCurr(curr, result) => curr < |h|
        && (result.Some? ==> th.start <= th.at && AnswerOk(hist, th.at, th.op, result.value))
      case Returned(result) => th.start <= th.at && AnswerOk(hist, th.at, th.op, result)
  }

  ghost predicate ThreadOk(s: State, u: nat)
    requires u < |s.threads| && |s.hist| > 0
  {
    !s.threads[u].phase.Idle? ==> PhaseOk(s.hist, s.threads[u])
  }

  ghost predicate Inv(s: State) {
    && Trail(s.hist) && |s.locks| == |Mem(s)| && MutexesOk(s)
    && forall u :: 0 <= u < |s.threads| ==> ThreadOk(s, u)
  }

  // ---------- knowledge lasts ----------

  lemma ValidateLasts(hist: seq<Heap>, h': Heap, edit: Edit, th: Thread)
    requires Trail(hist) && EditStep(hist[|hist|-1], h', edit) && ListOk(h')
    requires th.phase.Validate? && !Writes(edit, th.phase.prev) && PhaseOk(hist, th)
    ensures PhaseOk(hist + [h'], th)
  {
    var hist' := hist + [h'];
    KeysLast(hist[|hist|-1], h', edit);
    Elsewhere(hist[|hist|-1], h', edit, th.phase.prev);
    assert forall v :: 0 <= v < |hist| ==> hist'[v] == hist[v];
    var v: nat :| th.since <= v && LiveAt(hist, v, th.phase.it);
    assert LiveAt(hist', v, th.phase.it);
  }

  lemma FreePrevLasts(hist: seq<Heap>, h': Heap, edit: Edit, th: Thread)
    requires Trail(hist) && EditStep(hist[|hist|-1], h', edit) && ListOk(h')
    requires th.phase.FreePrev? && !Writes(edit, th.phase.prev) && PhaseOk(hist, th)
    ensures PhaseOk(hist + [h'], th)
  {
    var result := th.phase.result;
    KeysLast(hist[|hist|-1], h', edit);
    if result.Some? {
      if !Stores(th.op, result.value) { Elsewhere(hist[|hist|-1], h', edit, th.phase.prev); }
      AnswerLasts(hist, h', th.at, th.op, result.value);
    }
  }

  /** A store that stays away from the nodes the thread has locked leaves what it knows. */
  lemma KnowledgeLasts(hist: seq<Heap>, h': Heap, edit: Edit, th: Thread)
    requires Trail(hist) && EditStep(hist[|hist|-1], h', edit) && ListOk(h')
    requires forall n: nat :: Holds(th, n) ==> !Writes(edit, n)
    requires PhaseOk(hist, th)
    ensures PhaseOk(hist + [h'], th)
  {
    var h := hist[|hist|-1];
    var hist' := hist + [h'];
    assert forall v :: 0 <= v < |hist| ==> hist'[v] == hist[v];
    KeysLast(h, h', edit);
    match th.phase
    case Validate(prev, _, _) =>
      assert Holds(th, prev);
      ValidateLasts(hist, h', edit, th);
    case Act(prev, curr) =>
      assert Holds(th, prev);
      Elsewhere(h, h', edit, prev);
    case Cut(prev, curr, _) =>
      assert Holds(th, prev) && Holds(th, curr);
      Elsewhere(h, h', edit, prev);
      Elsewhere(h, h', edit, curr);
    case FreePrev(prev, _, _) =>
      assert Holds(th, prev);
      FreePrevLasts(hist, h', edit, th);
    case FreeCurr(_, result) => if result.Some? { AnswerLasts(hist, h', th.at, th.op, result.value); }
    case Returned(answer) => AnswerLasts(hist, h', th.at, th.op, answer);
    case _ =>
  }

  // ---------- each step keeps the invariant ----------

  lemma InitInv(s: State)
    requires Init(s)
    ensures Inv(s)
  {
    assert Mem(s) == InitialHeap();
  }

  /** A step that changes no node. */
  lemma LocalInv(s: State, s': State, u: nat)
    requires Inv(s) && u < |s.threads| == |s'.threads| && s'.threads == s.threads[u := s'.threads[u]]
    requires s'.hist == s.hist
    requires MutexesOk(s') && |s'.locks| == |s.locks| && ThreadOk(s', u)
    ensures Inv(s')
  {
    forall w | 0 <= w < |s'.threads| ensures ThreadOk(s', w) { assert ThreadOk(s, w); }
  }

  /** A store, by the thread that has locked the nodes concerned. */
  lemma StoreInv(s: State, s': State, u: nat, h': Heap, edit: Edit)
    requires Inv(s) && u < |s.threads| == |s'.threads| && s'.threads == s.threads[u := s'.threads[u]]
    requires s'.hist == s.hist + [h'] && EditStep(Mem(s), h', edit) && ListOk(h')
    requires forall n: nat :: Writes(edit, n) ==> n < |s.locks| && Holds(s.threads[u], n)
    requires MutexesOk(s') && |s'.locks| == |h'| && ThreadOk(s', u)
    ensures Inv(s')
  {
    var a := |s.hist| - 1;
    forall b | 0 <= b < |s'.hist| - 1 ensures TrailStep(s'.hist, b) {
      if b < a { assert TrailStep(s.hist, b); } else { assert EditStep(s'.hist[b], s'.hist[b+1], edit); }
    }
    forall w | 0 <= w < |s'.threads| ensures ThreadOk(s', w) {
      if w != u && !s.threads[w].phase.Idle? {
        assert ThreadOk(s, w);
        forall n: nat | Holds(s.threads[w], n) ensures !Writes(edit, n) {
          if n < |s.locks| { assert LockOk(s.locks, Holding(s), n, u) && LockOk(s.locks, Holding(s), n, w); }
        }
        KnowledgeLasts(s.hist, h', edit, s.threads[w]);
      }
    }
  }

  lemma LockPrevInv(s: State, s': State, u: nat)
    requires Inv(s) && Step(s, s', u) && s.threads[u].phase.LockPrev?
    ensures Inv(s')
  {
    assert ThreadOk(s, u);
    LocksStep(s.locks, s'.locks, |s.threads|, Holding(s), Holding(s'), u, s.threads[u].phase.prev);
    LocalInv(s, s', u);
  }

  lemma LockCurrInv(s: State, s': State, u: nat)
    requires Inv(s) && Step(s, s', u) && s.threads[u].phase.LockCurr?
    ensures Inv(s')
  {
    assert ThreadOk(s, u);
    LocksStep(s.locks, s'.locks, |s.threads|, Holding(s), Holding(s'), u, s.threads[u].phase.curr);
    TrailOk(s.hist, Now(s));
    assert LiveAt(s.hist, Now(s), HEAD);
    if s.threads[u].phase.prev != HEAD { assert LinkOk(Mem(s), s.threads[u].phase.prev); }
    LocalInv(s, s', u);
  }

  lemma FreeInv(s: State, s': State, u: nat)
    requires Inv(s) && Step(s, s', u) && (s.threads[u].phase.FreePrev? || s.threads[u].phase.FreeCurr?)
    ensures Inv(s')
  {
    assert ThreadOk(s, u);
    var n := if s.threads[u].phase.FreePrev? then s.threads[u].phase.prev else s.threads[u].phase.curr;
    assert LockOk(s.locks, Holding(s), n, u);
    LocksStep(s.locks, s'.locks, |s.threads|, Holding(s), Holding(s'), u, n);
    LocalInv(s, s', u);
  }

  /** `list_validate` goes on along nodes that were on the list while it ran, and not beyond `prev` if `prev` is
      there. */
  lemma WalkOn(hist: seq<Heap>, since: nat, prev: nat, it: nat)
    requires Trail(hist) && Steady(hist, since, prev) && LiveSince(hist, since, it)
    requires var h := hist[|hist|-1]; prev < |h| && it < |h| && h[it].key <= h[prev].key < MAX_KEY && it != prev
    ensures var h := hist[|hist|-1];
      && h[it].next.To? && h[it].next.id < |h| && LiveSince(hist, since, h[it].next.id)
      && (LiveAt(hist, |hist| - 1, prev) ==> h[h[it].next.id].key <= h[prev].key)
  {
    var now := |hist| - 1;
    var h := hist[now];
    TrailOk(hist, now);
    var a: nat :| since <= a && LiveAt(hist, a, it);
    var v := WasLive(hist, a, now, it);
    assert it != TAIL && LinkOk(h, it) && LinkOk(hist[v], it);
    var m := h[it].next.id;
    ReachNext(hist[v], HEAD, it);
    assert LiveAt(hist, v, m);
    StaysKept(hist, since, v, prev);
    StaysKept(hist, v, now, prev);
    StaysKept(hist, v, now, it);
    StaysKept(hist, v, now, m);
    if Live(h, prev) { Before(hist[v], it, prev); }
  }

  /** Of two nodes on the list, the successor of the earlier one is not beyond the later one. */
  lemma Before(h: Heap, it: nat, prev: nat)
    requires Linked(h) && Live(h, it) && Live(h, prev) && it != prev && h[it].key <= h[prev].key && it != TAIL
    ensures h[it].next.To? && h[it].next.id < |h| && h[h[it].next.id].key <= h[prev].key
  {
    assert LinkOk(h, it);
    ReachLinear(h, HEAD, it, prev);
    if Reach(h, prev, it) { ReachKey(h, prev, it); }
    ReachKey(h, h[it].next.id, prev);
  }

  /** `prev` met by the walk is on the list now. */
  lemma MetIsLive(hist: seq<Heap>, since: nat, prev: nat)
    requires Trail(hist) && Steady(hist, since, prev) && LiveSince(hist, since, prev)
    ensures LiveAt(hist, |hist| - 1, prev)
  {
    var a: nat :| since <= a && LiveAt(hist, a, prev);
    StaysKept(hist, since, a, prev);
  }

  lemma ValidateInv(s: State, s': State, u: nat)
    requires Inv(s) && Step(s, s', u) && s.threads[u].phase.Validate?
    ensures Inv(s')
    ensures var prev, curr := s.threads[u].phase.prev, s.threads[u].phase.curr;
      match s'.threads[u].phase
      case Validate(_, _, _) => true
      case Act(p, c) => p == prev && c == curr && Adjacent(s.hist, prev, curr)
      case _ => s'.threads[u].phase == FreePrev(prev, curr, None) && !Adjacent(s.hist, prev, curr)
  {
    assert ThreadOk(s, u);
    var th := s.threads[u];
    var prev, it := th.phase.prev, th.phase.it;
    var h := Mem(s);
    if h[it].key <= h[prev].key {
      if it == prev { MetIsLive(s.hist, th.since, prev); } else { WalkOn(s.hist, th.since, prev, it); }
    }
    SameLocks(s.locks, |s.threads|, Holding(s), Holding(s'));
    LocalInv(s, s', u);
  }

  lemma AdjacentLookup(s: State, prev: nat, curr: nat, key: int)
    requires Inv(s) && Around(Mem(s), prev, curr, key) && Adjacent(s.hist, prev, curr) && key < MAX_KEY
    ensures ListOk(Mem(s)) && (MemberAt(s.hist, Now(s), key) <==> Mem(s)[curr].key == key)
  {
    Lookup(Mem(s), prev, curr, key);
  }

  lemma AddInv(s: State, u: nat)
    requires Inv(s) && u < |s.threads| && s.threads[u].phase.Act? && s.threads[u].op.Add? && ThreadOk(s, u)
    requires Mem(s)[s.threads[u].phase.curr].key != s.threads[u].op.key
    ensures Inv(ActStep(s, u, s.threads[u].phase.prev, s.threads[u].phase.curr))
    ensures Plus(s.hist + [InsertNode(Mem(s), s.threads[u].phase.prev, s.threads[u].phase.curr, s.threads[u].op.key)],
                 Now(s), s.threads[u].op.key)
  {
    var th := s.threads[u];
    var prev, curr, key := th.phase.prev, th.phase.curr, th.op.key;
    var s' := ActStep(s, u, prev, curr);
    var h, h' := Mem(s), InsertNode(Mem(s), prev, curr, key);
    var edit := Edit.Added(prev, curr, key);
    assert CanEdit(h, edit);
    EditedOk(h, edit);
    AddedMember(h, prev, curr, key);
    assert s'.hist[Now(s)] == h && s'.hist[Now(s) + 1] == h';
    assert forall k :: MemberAt(s'.hist, Now(s) + 1, k) <==> Member(h', k);
    assert forall k :: MemberAt(s'.hist, Now(s), k) <==> Member(h, k);
    assert EditStep(h, h', edit);
    NobodyHoldsNew(s);
    NewLock(s.locks, |s.threads|, Holding(s), Holding(s'));
    StoreInv(s, s', u, h', edit);
  }

  /** Threads refer to linked nodes only. */
  lemma NobodyHoldsNew(s: State)
    requires Inv(s)
    ensures forall w: nat :: w < |s.threads| ==> !Holds(s.threads[w], |s.locks|)
  {
    forall w: nat | w < |s.threads| ensures !Holds(s.threads[w], |s.locks|) {
      assert ThreadOk(s, w);
    }
  }

  lemma ActInv(s: State, s': State, u: nat)
    requires Inv(s) && Step(s, s', u) && s.threads[u].phase.Act?
    ensures Inv(s')
  {
    assert ThreadOk(s, u);
    var th := s.threads[u];
    var prev, curr := th.phase.prev, th.phase.curr;
    if th.op.Add? && Mem(s)[curr].key != th.op.key {
      AddInv(s, u);
    } else {
      AdjacentLookup(s, prev, curr, th.op.key);
      SameLocks(s.locks, |s.threads|, Holding(s), Holding(s'));
      LocalInv(s, s', u);
    }
  }

  lemma CutInv(s: State, s': State, u: nat)
    requires Inv(s) && Step(s, s', u) && s.threads[u].phase.Cut?
    ensures Inv(s') && Minus(s'.hist, Now(s), s.threads[u].op.key)
  {
    assert ThreadOk(s, u);
    var th := s.threads[u];
    var prev, curr, key := th.phase.prev, th.phase.curr, th.op.key;
    var h := Mem(s);
    var h' := UnlinkNode(h, prev, curr);
    var edit := Edit.Removed(prev, curr);
    assert CanEdit(h, edit);
    EditedOk(h, edit);
    RemovedMember(h, prev, curr);
    assert s'.hist == s.hist + [h'];
    assert s'.hist[Now(s)] == h && s'.hist[Now(s) + 1] == h';
    assert forall k :: MemberAt(s'.hist, Now(s) + 1, k) <==> Member(h', k);
    assert forall k :: MemberAt(s'.hist, Now(s), k) <==> Member(h, k);
    assert EditStep(h, h', edit);
    SameLocks(s.locks, |s.threads|, Holding(s), Holding(s'));
    StoreInv(s, s', u, h', edit);
  }

  lemma OtherInv(s: State, s': State, u: nat)
    requires Inv(s) && Step(s, s', u)
    requires var phase := s.threads[u].phase; phase.Idle? || phase.Start? || phase.Walk? || phase.Returned?
    ensures Inv(s')
  {
    assert ThreadOk(s, u);
    TrailOk(s.hist, Now(s));
    var h := Mem(s);
    var phase := s.threads[u].phase;
    if phase.Start? { assert LinkOk(h, HEAD); }
    if phase.Walk? && phase.curr != TAIL { assert LinkOk(h, phase.curr); }
    SameLocks(s.locks, |s.threads|, Holding(s), Holding(s'));
    LocalInv(s, s', u);
  }

  lemma StepInv(s: State, s': State, u: nat)
    requires Inv(s) && Step(s, s', u)
    ensures Inv(s')
  {
    match s.threads[u].phase
    case LockPrev(_, _) => LockPrevInv(s, s', u);
    case LockCurr(_, _) => LockCurrInv(s, s', u);
    case Validate(_, _, _) => ValidateInv(s, s', u);
    case Act(_, _) => ActInv(s, s', u);
    case Cut(_, _, _) => CutInv(s, s', u);
    case FreePrev(_, _, _) => FreeInv(s, s', u);
    case FreeCurr(_, _) => FreeInv(s, s', u);
    case _ => OtherInv(s, s', u);
  }

  lemma {:induction false} RunKeepsInv(run: seq<State>, n: nat)
    requires Run(run) && n < |run|
    ensures Inv(run[n])
  {
    if n == 0 {
      InitInv(run[0]);
    } else {
      RunKeepsInv(run, n - 1);
      assert Steps(run, n - 1);
      var u: nat :| Step(run[n-1], run[n], u);
      StepInv(run[n-1], run[n], u);
    }
  }

  // ---------- what holds in every reachable state ----------

  /** The list is always sorted and linked through to the tail, removed nodes included. */
  lemma AlwaysSorted(run: seq<State>, n: nat)
    requires Run(run) && n < |run|
    ensures |run[n].hist| > 0
    ensures ListOk(Mem(run[n])) && forall m :: 0 <= m < |Mem(run[n])| ==> Reach(Mem(run[n]), m, TAIL)
  {
    RunKeepsInv(run, n);
    var h := Mem(run[n]);
    TrailOk(run[n].hist, Now(run[n]));
    forall m | 0 <= m < |h| ensures Reach(h, m, TAIL) { ReachTail(h, m); }
  }

  /** `list_validate` is exact: when its walk ends, it answers true if and only if `prev` is on the list and linked to
      `curr` at that moment. */
  lemma ValidateIsExact(run: seq<State>, n: nat, u: nat)
    requires Run(run) && n + 1 < |run| && Step(run[n], run[n+1], u) && run[n].threads[u].phase.Validate?
    requires !run[n+1].threads[u].phase.Validate?
    ensures run[n+1].threads[u].phase.Act? <==>
      Adjacent(run[n].hist, run[n].threads[u].phase.prev, run[n].threads[u].phase.curr)
  {
    RunKeepsInv(run, n);
    ValidateInv(run[n], run[n+1], u);
  }

  /** The two nodes between which a thread that has validated them still stands: before its decision, and after one that
      stored nothing until it unlocks `prev`. */
  ghost predicate Validated(th: Thread, prev: nat, curr: nat) {
    match th.phase
    case Act(p, c) => p == prev && c == curr
    case Cut(p, c, _) => p == prev && c == curr
    case FreePrev(p, c, result) => p == prev && c == curr && result.Some? && !Stores(th.op, result.value)
    case _ => false
  }

  /** It stays so, whatever the others do, until the validated thread itself stores or unlocks. */
  lemma ValidatedStays(run: seq<State>, n: nat, u: nat, prev: nat, curr: nat)
    requires Run(run) && n < |run| && u < |run[n].threads| && Validated(run[n].threads[u], prev, curr)
    ensures |run[n].hist| > 0
    ensures Adjacent(run[n].hist, prev, curr)
    ensures Around(Mem(run[n]), prev, curr, run[n].threads[u].op.key)
  {
    RunKeepsInv(run, n);
    assert ThreadOk(run[n], u);
  }

  /** The list refines a set: the store of `list_add` inserts its key, which was absent, the store of `list_remove`
      deletes its key, which was present, and no other step changes anything. */
  lemma RefinesSet(run: seq<State>, n: nat, u: nat)
    requires Run(run) && n + 1 < |run| && Step(run[n], run[n+1], u)
    ensures var s, s', th, th' := run[n], run[n+1], run[n].threads[u], run[n+1].threads[u];
      if th.phase.Act? && th.op.Add? && th'.phase.FreePrev? && th'.phase.result == Some(true) then
        |s'.hist| == |s.hist| + 1 && Plus(s'.hist, Now(s), th.op.key)
      else if th.phase.Cut? then
        th.op.Remove? && |s'.hist| == |s.hist| + 1 && Minus(s'.hist, Now(s), th.op.key)
      else s'.hist == s.hist
  {
    RunKeepsInv(run, n);
    var s := run[n];
    var th := s.threads[u];
    assert ThreadOk(s, u);
    if th.phase.Act? && th.op.Add? && Mem(s)[th.phase.curr].key != th.op.key { AddInv(s, u); }
    if th.phase.Cut? { CutInv(s, run[n+1], u); }
  }

  /** Every answer is the right one for the set at an instant between the call and the return, and an instant that
      changed the set changed it as the answer says. */
  lemma AnswersAreLinearizable(run: seq<State>, n: nat, u: nat)
    requires Run(run) && n < |run| && u < |run[n].threads| && run[n].threads[u].phase.Returned?
    ensures |run[n].hist| > 0
    ensures var s, th := run[n], run[n].threads[u];
      th.start <= th.at <= Now(s) && AnswerOk(s.hist, th.at, th.op, th.phase.answer)
  {
    RunKeepsInv(run, n);
    assert ThreadOk(run[n], u);
  }

  /** Whether the current call has stored. */
  predicate HasStored(th: Thread) {
    match th.phase
    case FreePrev(_, _, result) => result.Some? && Stores(th.op, result.value)
    case FreeCurr(_, result) => result.Some? && Stores(th.op, result.value)
    case Returned(answer) => Stores(th.op, answer)
    case _ => false
  }

  predicate Removing(phase: Phase) {
    phase.Cut?
  }

  /** The current call of `u` has made one change, at the instant of its decision, or none. */
  ghost predicate MadeOk(s: State, u: nat)
    requires u < |s.threads|
  {
    var th := s.threads[u];
    !th.phase.Idle? ==>
      && th.start <= |s.writers| && MadeBy(s.writers, u, th.start, th.at, HasStored(th))
      && (Removing(th.phase) ==> th.op.Remove?)
  }

  ghost predicate Writers(s: State) {
    |s.writers| + 1 == |s.hist| && forall u :: 0 <= u < |s.threads| ==> MadeOk(s, u)
  }

  /** What a step does about the record of changes. */
  ghost predicate Recorded(s: State, s': State, u: nat)
    requires u < |s.threads| == |s'.threads| && |s.hist| > 0
  {
    var th, th' := s.threads[u], s'.threads[u];
    if th.phase.Idle? then
      s'.writers == s.writers && s'.hist == s.hist && th'.start == Now(s) && !HasStored(th') && !Removing(th'.phase)
    else
      && th'.op == th.op && th'.start == th.start && (Removing(th'.phase) ==> th.op.Remove?)
      && if |s'.hist| == |s.hist| then
           && s'.writers == s.writers
           && (!th'.phase.Idle? ==> HasStored(th') == HasStored(th) && (HasStored(th) ==> th'.at == th.at))
         else
           && |s'.hist| == |s.hist| + 1 && s'.writers == s.writers + [u]
           && !HasStored(th) && HasStored(th') && th'.at == Now(s)
  }

  lemma StepRecorded(s: State, s': State, u: nat)
    requires Step(s, s', u) && (Removing(s.threads[u].phase) ==> s.threads[u].op.Remove?)
    ensures |s'.threads| == |s.threads| && Recorded(s, s', u)
    ensures forall w :: 0 <= w < |s.threads| && w != u ==> s'.threads[w] == s.threads[w]
  {
  }

  lemma OwnMade(s: State, s': State, u: nat)
    requires u < |s.threads| == |s'.threads| && |s.writers| + 1 == |s.hist| && Recorded(s, s', u) && MadeOk(s, u)
    ensures MadeOk(s', u) && |s'.writers| + 1 == |s'.hist|
  {
    var th := s.threads[u];
    if !th.phase.Idle? { MadeOn(s.writers, u, th.start, th.at, HasStored(th), u); }
  }

  lemma WritersStep(s: State, s': State, u: nat)
    requires Writers(s) && Step(s, s', u)
    ensures Writers(s')
  {
    assert MadeOk(s, u);
    StepRecorded(s, s', u);
    OwnMade(s, s', u);
    forall w | 0 <= w < |s'.threads| ensures MadeOk(s', w) {
      assert MadeOk(s, w);
      var th := s.threads[w];
      if w != u && !th.phase.Idle? { MadeOn(s.writers, w, th.start, th.at, HasStored(th), u); }
    }
  }

  lemma {:induction false} RunKeepsWriters(run: seq<State>, n: nat)
    requires Run(run) && n < |run|
    ensures Writers(run[n])
  {
    if n > 0 {
      RunKeepsWriters(run, n - 1);
      assert Steps(run, n - 1);
      var u: nat :| Step(run[n-1], run[n], u);
      WritersStep(run[n-1], run[n], u);
    }
  }

  lemma StaysInCall(s: State, s': State, w: nat, u: nat)
    requires Step(s, s', w) && u < |s.threads| && !s.threads[u].phase.Idle? && !s.threads[u].phase.Returned?
    ensures u < |s'.threads| && !s'.threads[u].phase.Idle?
    ensures s'.threads[u].op == s.threads[u].op && s'.threads[u].start == s.threads[u].start
  {
  }

  /** A call ends by its answer only: between a moment inside it and a later idle one it has returned. */
  lemma {:induction false} CallsReturn(run: seq<State>, m: nat, n: nat, u: nat) returns (k: nat)
    requires Run(run) && m <= n < |run| && u < |run[m].threads| && !run[m].threads[u].phase.Idle?
    requires u < |run[n].threads| && run[n].threads[u].phase.Idle?
    ensures m <= k < n && u < |run[k].threads| && run[k].threads[u].phase.Returned?
    ensures run[k].threads[u].op == run[m].threads[u].op && run[k].threads[u].start == run[m].threads[u].start
    decreases n - m
  {
    if run[m].threads[u].phase.Returned? {
      k := m;
    } else {
      assert Steps(run, m);
      var w: nat :| Step(run[m], run[m+1], w);
      StaysInCall(run[m], run[m+1], w, u);
      k := CallsReturn(run, m + 1, n, u);
    }
  }

  /** A call that has returned true to an add or a remove has made exactly one change of the list, the one that its
      answer speaks of; any other has made none. */
  lemma OneChangeACall(run: seq<State>, n: nat, u: nat)
    requires Run(run) && n < |run| && u < |run[n].threads| && run[n].threads[u].phase.Returned?
    ensures var s, th := run[n], run[n].threads[u];
      && |s.hist| == |s.writers| + 1
      && MadeBy(s.writers, u, th.start, th.at, th.phase.answer && !th.op.Contain?)
      && (th.phase.answer && th.op.Add? ==> th.at + 1 < |s.hist| && Plus(s.hist, th.at, th.op.key))
      && (th.phase.answer && th.op.Remove? ==> th.at + 1 < |s.hist| && Minus(s.hist, th.at, th.op.key))
  {
    RunKeepsWriters(run, n);
    AnswersAreLinearizable(run, n, u);
    assert MadeOk(run[n], u);
  }

  /** A node is locked by one thread at a time, and stores go to locked nodes only. */
  lemma LocksExclude(run: seq<State>, n: nat, m: nat, u: nat, w: nat)
    requires Run(run) && n < |run| && u < |run[n].threads| && w < |run[n].threads| && m < |run[n].locks|
    requires Holds(run[n].threads[u], m) && Holds(run[n].threads[w], m)
    ensures u == w
  {
    RunKeepsInv(run, n);
    assert LockOk(run[n].locks, Holding(run[n]), m, u) && LockOk(run[n].locks, Holding(run[n]), m, w);
  }

  // ---------- lock waits ----------

  function Wanted(th: Thread): Option<nat> {
    match th.phase
    case LockPrev(prev, _) => Some(prev)
    case LockCurr(_, curr) => Some(curr)
    case _ => None
  }

  function ViewOf(s: State): View
    requires |s.hist| > 0
  {
    View(seq(|s.threads|, t requires 0 <= t < |s.threads| => Wanted(s.threads[t])), s.locks,
         seq(|Mem(s)|, n requires 0 <= n < |Mem(s)| => Mem(s)[n].key))
  }

  lemma WaitsRise(s: State)
    requires Inv(s)
    ensures Rising(ViewOf(s))
  {
    TrailOk(s.hist, Now(s));
    var v := ViewOf(s);
    forall n | 0 <= n < |v.keys| ensures v.keys[n] <= MAX_KEY { if n != TAIL { assert LinkOk(Mem(s), n); } }
    forall t: nat, u: nat | WaitsOn(v, t, u) ensures u < |v.wants| && WantedKey(v, t) < WantedKey(v, u) {
      assert LockOk(s.locks, Holding(s), Wanted(s.threads[t]).value, u);
      assert ThreadOk(s, u);
    }
  }

  /** Locking in the order of the keys rules out a cycle of lock waits. */
  lemma NoCycleOfLockWaits(run: seq<State>, n: nat, path: seq<nat>)
    requires Run(run) && n < |run| && |path| > 1
    ensures |run[n].hist| > 0 && (WaitChain(ViewOf(run[n]), path) ==> path[0] != path[|path|-1])
  {
    RunKeepsInv(run, n);
    WaitsRise(run[n]);
    if WaitChain(ViewOf(run[n]), path) { KeysRise(ViewOf(run[n]), path); }
  }

  /** A thread that is not waiting for a lock can take a step. */
  lemma FreeMoves(s: State, u: nat) returns (s': State)
    requires Inv(s) && u < |s.threads| && !Blocked(ViewOf(s), u)
    ensures Step(s, s', u) && s' != s
  {
    assert ThreadOk(s, u);
    TrailOk(s.hist, Now(s));
    var h := Mem(s);
    var th := s.threads[u];
    if Wanted(th).Some? {
      var m := Wanted(th).value;
      if s.locks[m].Some? { assert WaitsOn(ViewOf(s), u, s.locks[m].value); }
    }
    assert LinkOk(h, HEAD);
    if th.phase.Walk? && th.phase.curr != TAIL { assert LinkOk(h, th.phase.curr); }
    if th.phase.Validate? { ValidateMoves(s, u); }
    s' := NextState(s, u);
    assert s'.threads[u].phase != th.phase;
    assert Step(s, s', u);
  }

  lemma ValidateMoves(s: State, u: nat)
    requires Inv(s) && u < |s.threads| && s.threads[u].phase.Validate? && ThreadOk(s, u)
    ensures var phase := s.threads[u].phase; phase.prev < |Mem(s)| && phase.it < |Mem(s)|
    ensures var phase := s.threads[u].phase; ValidateNext(Mem(s), phase.prev, phase.curr, phase.it) != phase
  {
    TrailOk(s.hist, Now(s));
    var it := s.threads[u].phase.it;
    if it != TAIL { assert LinkOk(Mem(s), it); }
  }

  /** A step of `u`; for an idle thread, one of its calls. */
  function NextState(s: State, u: nat): State
    requires u < |s.threads| && |s.hist| > 0 && |s.locks| == |Mem(s)| >= 2 && Mem(s)[HEAD].next.To?
    requires match s.threads[u].phase
             case Walk(_, curr) =>
               curr < |Mem(s)| && (Mem(s)[curr].key < s.threads[u].op.key ==> Mem(s)[curr].next.To?)
             case LockPrev(prev, _) => prev < |Mem(s)|
             case LockCurr(_, curr) => curr < |Mem(s)|
             case Validate(prev, _, it) => prev < |Mem(s)| && it < |Mem(s)|
             case Act(prev, curr) => prev < |Mem(s)| && curr < |Mem(s)|
             case Cut(prev, _, _) => prev < |Mem(s)|
             case FreePrev(prev, _, _) => prev < |Mem(s)|
             case FreeCurr(curr, _) => curr < |Mem(s)|
             case _ => true
  {
    var h := Mem(s);
    var th := s.threads[u];
    match th.phase
    case Idle => Put(s, u, Thread(Start, Contain(0), Now(s), 0, 0, Now(s), 0))
    case Start => Put(s, u, FirstNode(th, h, Now(s)))
    case Walk(prev, curr) => Go(s, u, if h[curr].key < th.op.key then Walk(curr, h[curr].next.id)
                                        else LockPrev(prev, curr))
    case LockPrev(prev, curr) => Lock(Go(s, u, LockCurr(prev, curr)), prev, Some(u))
    case LockCurr(prev, curr) => Lock(Put(s, u, th.(phase := Validate(prev, curr, HEAD), since := Now(s))), curr,
                                      Some(u))
    case Validate(prev, curr, it) => Go(s, u, ValidateNext(h, prev, curr, it))
    case Act(prev, curr) => ActStep(s, u, prev, curr)
    case Cut(prev, curr, succ) => CutStep(s, u, prev, curr, succ)
    case FreePrev(prev, curr, result) => Lock(Go(s, u, FreeCurr(curr, result)), prev, None)
    case FreeCurr(curr, result) => Lock(Put(s, u, Unlocked(th, result, Now(s))), curr, None)
    case Returned(_) => Go(s, u, Idle)
  }

  /** From every thread the chain of lock waits leads to a thread that can take a step. */
  lemma SomeThreadMoves(run: seq<State>, n: nat, t: nat) returns (w: nat, path: seq<nat>)
    requires Run(run) && n < |run| && t < |run[n].threads|
    ensures |run[n].hist| > 0 && WaitChain(ViewOf(run[n]), path) && path[0] == t && path[|path|-1] == w
    ensures exists s' :: Step(run[n], s', w) && s' != run[n]
  {
    RunKeepsInv(run, n);
    WaitsRise(run[n]);
    path := EndOfChain(ViewOf(run[n]), t);
    w := path[|path|-1];
    var s' := FreeMoves(run[n], w);
  }
}
