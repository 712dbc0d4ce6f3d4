/**
 The CLH queue lock: any number of threads over one cell more than there are threads. A thread sets its own cell,
 swaps it into `tail`, spins on the cell it got, and on leaving takes that cell over as its own.

 The program's critical section is one increment of a shared counter, a load and a store.
 */
module ClhLock {

  datatype Phase =
    | Outside
    | Armed              // own cell set, about to swap
    | Spinning
    | Critical           // about to load the counter
    | Loaded(value: int) // about to store it
    | Leaving            // about to clear the own cell
    | Recycling          // about to take over the predecessor's cell

  /** `ticket` and `rounds` are there for the statements only: the place in the order of the swaps, and the swaps so
      far. */
  datatype Thread = Thread(phase: Phase, node: nat, pred: nat, ticket: nat, rounds: nat)

  /** `swaps` and `entries` list the threads in the order of their swaps and of their entries, `released` counts
      unlocks. */
  datatype State = State(threads: seq<Thread>, cells: seq<int>, tail: nat, counter: int,
                         swaps: seq<nat>, entries: seq<nat>, released: nat)

  function Put(s: State, t: nat, th: Thread): State
    requires t < |s.threads|
  {
    s.(threads := s.threads[t := th])
  }

  ghost predicate Init(s: State) {
    && |s.cells| == |s.threads| + 1
    && (forall c :: 0 <= c < |s.cells| ==> s.cells[c] == 0)
    && (forall t :: 0 <= t < |s.threads| ==> s.threads[t] == Thread(Outside, t + 1, 0, 0, 0))
    && s.tail == 0 && s.counter == 0 && s.swaps == [] && s.entries == [] && s.released == 0
  }

  function ArmStep(s: State, t: nat): State
    requires t < |s.threads| && s.threads[t].node < |s.cells|
  {
    Put(s, t, s.threads[t].(phase := Armed)).(cells := s.cells[s.threads[t].node := 1])
  }

  function SwapStep(s: State, t: nat): State
    requires t < |s.threads|
  {
    var th := s.threads[t];
    Put(s, t, th.(phase := Spinning, pred := s.tail, ticket := |s.swaps|, rounds := th.rounds + 1))
    .(tail := th.node, swaps := s.swaps + [t])
  }

  function SpinStep(s: State, t: nat): State
    requires t < |s.threads| && s.threads[t].pred < |s.cells|
  {
    if s.cells[s.threads[t].pred] == 1 then s
    else Put(s, t, s.threads[t].(phase := Critical)).(entries := s.entries + [t])
  }

  function LeaveStep(s: State, t: nat): State
    requires t < |s.threads| && s.threads[t].node < |s.cells|
  {
    Put(s, t, s.threads[t].(phase := Recycling)).(cells := s.cells[s.threads[t].node := 0], released := s.released + 1)
  }

  ghost predicate Step(s: State, s': State, t: nat) {
    && t < |s.threads|
    && var th := s.threads[t];
      && th.node < |s.cells| && th.pred < |s.cells|
      && match th.phase
         case Outside => s' == ArmStep(s, t)
         case Armed => s' == SwapStep(s, t)
         case Spinning => s' == SpinStep(s, t)
         case Critical => s' == Put(s, t, th.(phase := Loaded(s.counter)))
         case Loaded(v) => s' == Put(s, t, th.(phase := Leaving)).(counter := v + 1)
         case Leaving => s' == LeaveStep(s, t)
         case Recycling => s' == Put(s, t, th.(phase := Outside, node := th.pred))
  }

  ghost predicate Next(s: State, s': State) {
    exists t: nat :: Step(s, s', t)
  }

  ghost predicate Run(run: seq<State>) {
    && |run| > 0 && Init(run[0])
    && forall n :: 0 <= n < |run| - 1 ==> Steps(run, n)
  }

  ghost predicate Steps(run: seq<State>, n: nat)
    requires n + 1 < |run|
  {
    Next(run[n], run[n+1])
  }

  // ---------- the invariant ----------

  predicate Queued(th: Thread) {
    th.phase.Spinning? || Inside(th)
  }

  /** Between the return of `lock` and the clearing of the cell in `unlock`. */
  predicate Inside(th: Thread) {
    th.phase.Critical? || th.phase.Loaded? || th.phase.Leaving?
  }

  /** The cell that is a thread's own. */
  function Own(th: Thread): nat {
    if th.phase.Recycling? then th.pred else th.node
  }

  /** The cell that is nobody's own: the one the first in the queue looks at, or the tail of an empty queue. */
  ghost function Spare(s: State): nat
    requires Slots(s)
  {
    if s.released < |s.swaps| then
      assert SlotOk(s, s.released);
      s.threads[s.swaps[s.released]].pred
    else s.tail
  }

  ghost predicate Slots(s: State) {
    s.released <= |s.swaps| && forall i :: s.released <= i < |s.swaps| ==> SlotOk(s, i)
  }

  ghost predicate SlotOk(s: State, i: nat)
    requires i < |s.swaps|
  {
    && s.swaps[i] < |s.threads|
    && Queued(s.threads[s.swaps[i]]) && s.threads[s.swaps[i]].ticket == i
  }

  ghost predicate ThreadOk(s: State, t: nat)
    requires t < |s.threads| && Slots(s)
  {
    var th := s.threads[t];
    && th.node < |s.cells| && th.pred < |s.cells|
    && th.rounds == multiset(s.swaps)[t]
    && (th.phase.Armed? || Queued(th) ==> s.cells[th.node] == 1)
    && (Queued(th) ==> TicketOk(s, t))
    && (Inside(th) ==> th.ticket == s.released)
    && (th.phase.Loaded? ==> th.phase.value == s.counter)
  }

  ghost predicate TicketOk(s: State, t: nat)
    requires t < |s.threads| && Slots(s)
  {
    var k := s.threads[t].ticket;
    && s.released <= k < |s.swaps| && s.swaps[k] == t
    && (k > s.released ==> assert SlotOk(s, k - 1); s.threads[t].pred == s.threads[s.swaps[k-1]].node)
  }

  ghost predicate Apart(s: State, t: nat, u: nat)
    requires t < |s.threads| && u < |s.threads|
  {
    t != u ==> Own(s.threads[t]) != Own(s.threads[u])
  }

  /** The cells are partitioned: one for each thread, and one spare. */
  ghost predicate Partition(s: State)
    requires Slots(s)
  {
    && |s.cells| == |s.threads| + 1 && Spare(s) < |s.cells| && s.cells[Spare(s)] == 0
    && (forall t, u :: 0 <= t < |s.threads| && 0 <= u < |s.threads| ==> Apart(s, t, u))
    && (forall t :: 0 <= t < |s.threads| ==> Own(s.threads[t]) != Spare(s))
  }

  ghost predicate TailOk(s: State)
    requires Slots(s)
  {
    s.tail < |s.cells| && (s.released < |s.swaps|
      ==> assert SlotOk(s, |s.swaps| - 1); s.tail == s.threads[s.swaps[|s.swaps|-1]].node)
  }

  /** The first in the queue may be inside, and may have stored the counter. */
  ghost predicate LogOk(s: State)
    requires Slots(s)
  {
    if s.released == |s.swaps| then
      s.entries == s.swaps && s.counter == s.released
    else
      assert SlotOk(s, s.released);
      var first := s.threads[s.swaps[s.released]];
      && s.entries == (if Inside(first) then s.swaps[..s.released + 1] else s.swaps[..s.released])
      && s.counter == s.released + (if first.phase.Leaving? then 1 else 0)
  }

  ghost predicate Inv(s: State) {
    && Slots(s) && Partition(s) && TailOk(s) && LogOk(s)
    && forall t :: 0 <= t < |s.threads| ==> ThreadOk(s, t)
  }

  lemma InitInv(s: State)
    requires Init(s)
    ensures Inv(s)
  {
    assert multiset(s.swaps) == multiset{};
  }

  /** Whoever is not the first in the queue looks at a cell that is set. */
  lemma WaiterIsBlocked(s: State, t: nat)
    requires Inv(s) && t < |s.threads| && Queued(s.threads[t]) && s.threads[t].ticket > s.released
    ensures s.threads[t].pred < |s.cells| && s.cells[s.threads[t].pred] == 1
  {
    assert ThreadOk(s, t);
    var k := s.threads[t].ticket;
    assert SlotOk(s, k - 1);
    assert ThreadOk(s, s.swaps[k-1]);
  }

  lemma FirstIsFree(s: State, t: nat)
    requires Inv(s) && t < |s.threads| && Queued(s.threads[t]) && s.threads[t].ticket <= s.released
    ensures s.threads[t].ticket == s.released < |s.swaps| && s.swaps[s.released] == t
    ensures s.threads[t].pred == Spare(s) < |s.cells| && s.cells[s.threads[t].pred] == 0
  {
    assert ThreadOk(s, t);
    assert SlotOk(s, s.released);
  }

  /** A step of `t` that neither joins nor leaves the queue. */
  ghost predicate Stays(s: State, s': State, t: nat) {
    && t < |s.threads| && t < |s'.threads| && s'.threads == s.threads[t := s'.threads[t]] && |s'.cells| == |s.cells|
    && s'.swaps == s.swaps && s'.released == s.released && s'.tail == s.tail
    && var th, th' := s.threads[t], s'.threads[t];
      && Queued(th) == Queued(th') && Own(th') == Own(th) && th'.rounds == th.rounds
      && (Queued(th) ==> th'.node == th.node && th'.pred == th.pred && th'.ticket == th.ticket)
  }

  lemma StaysSlots(s: State, s': State, t: nat)
    requires Inv(s) && Stays(s, s', t)
    ensures Slots(s') && Spare(s') == Spare(s) && TailOk(s')
    ensures forall u :: 0 <= u < |s.threads| && Queued(s.threads[u]) && TicketOk(s, u) ==> TicketOk(s', u)
    ensures !Queued(s.threads[t]) && s'.entries == s.entries && s'.counter == s.counter ==> LogOk(s')
  {
    forall i | s'.released <= i < |s'.swaps| ensures SlotOk(s', i) { assert SlotOk(s, i); }
    forall u | 0 <= u < |s.threads| && Queued(s.threads[u]) && TicketOk(s, u) ensures TicketOk(s', u) {
      if s.threads[u].ticket > s.released { assert SlotOk(s, s.threads[u].ticket - 1); }
    }
    if s.released < |s.swaps| { assert SlotOk(s, s.released) && SlotOk(s, |s.swaps| - 1); }
  }

  lemma StaysPartition(s: State, s': State, t: nat)
    requires Inv(s) && Stays(s, s', t)
    requires Slots(s') && Spare(s') == Spare(s) && s'.cells[Spare(s)] == s.cells[Spare(s)]
    ensures Partition(s')
  {
    forall u, v | 0 <= u < |s'.threads| && 0 <= v < |s'.threads| ensures Apart(s', u, v) { assert Apart(s, u, v); }
  }

  lemma ArmInv(s: State, t: nat)
    requires Inv(s) && t < |s.threads| && s.threads[t].phase.Outside? && s.threads[t].node < |s.cells|
    ensures Inv(ArmStep(s, t))
  {
    var s' := ArmStep(s, t);
    StaysSlots(s, s', t);
    forall u | 0 <= u < |s'.threads| ensures ThreadOk(s', u) { assert ThreadOk(s, u) && Apart(s, t, u); }
    StaysPartition(s, s', t);
  }

  lemma RecycleInv(s: State, s': State, t: nat)
    requires Inv(s) && t < |s.threads| && s.threads[t].phase.Recycling?
    requires s' == Put(s, t, s.threads[t].(phase := Outside, node := s.threads[t].pred))
    ensures Inv(s')
  {
    StaysSlots(s, s', t);
    forall u | 0 <= u < |s'.threads| ensures ThreadOk(s', u) { assert ThreadOk(s, u); }
    StaysPartition(s, s', t);
  }

  /** The steps of the first in the queue up to the store. */
  ghost predicate Inner(s: State, s': State, t: nat) {
    && t < |s.threads| && s.threads[t].pred < |s.cells|
    && match s.threads[t].phase
      case Spinning => s.cells[s.threads[t].pred] != 1 && s' == SpinStep(s, t)
      case Critical => s' == Put(s, t, s.threads[t].(phase := Loaded(s.counter)))
      case Loaded(v) => s' == Put(s, t, s.threads[t].(phase := Leaving)).(counter := v + 1)
      case _ => false
  }

  lemma InnerThread(s: State, s': State, t: nat, u: nat)
    requires Inv(s) && Inner(s, s', t) && Slots(s') && s.threads[t].ticket == s.released < |s.swaps|
    requires s.swaps[s.released] == t
    requires u < |s.threads| && (Queued(s.threads[u]) && TicketOk(s, u) ==> TicketOk(s', u))
    ensures ThreadOk(s', u)
  {
    assert ThreadOk(s, u);
  }

  lemma InnerIsFirst(s: State, s': State, t: nat)
    requires Inv(s) && Inner(s, s', t)
    ensures s.threads[t].ticket == s.released < |s.swaps| && s.swaps[s.released] == t
    ensures Stays(s, s', t)
  {
    assert ThreadOk(s, t);
    if s.threads[t].phase.Spinning? && s.threads[t].ticket > s.released { WaiterIsBlocked(s, t); }
    FirstIsFree(s, t);
  }

  /** The queue and the logs after such a step. */
  lemma InnerLog(s: State, s': State, t: nat)
    requires Inv(s) && Inner(s, s', t) && Stays(s, s', t)
    requires s.threads[t].ticket == s.released < |s.swaps| && s.swaps[s.released] == t
    ensures Slots(s') && Spare(s') == Spare(s) && TailOk(s') && LogOk(s')
    ensures forall u :: 0 <= u < |s.threads| && Queued(s.threads[u]) && TicketOk(s, u) ==> TicketOk(s', u)
  {
    assert ThreadOk(s, t);
    StaysSlots(s, s', t);
    assert SlotOk(s, s.released) && SlotOk(s', s.released);
    assert s.swaps[..s.released + 1] == s.swaps[..s.released] + [t];
  }

  lemma InnerInv(s: State, s': State, t: nat)
    requires Inv(s) && Inner(s, s', t)
    ensures Inv(s')
  {
    InnerIsFirst(s, s', t);
    InnerLog(s, s', t);
    forall u | 0 <= u < |s'.threads| ensures ThreadOk(s', u) { InnerThread(s, s', t, u); }
    StaysPartition(s, s', t);
  }

  lemma SwapSlots(s: State, t: nat)
    requires Inv(s) && t < |s.threads| && s.threads[t].phase.Armed?
    ensures var s' := SwapStep(s, t); Slots(s') && Spare(s') == Spare(s) && TailOk(s') && LogOk(s')
  {
    var s' := SwapStep(s, t);
    var k := |s.swaps|;
    assert ThreadOk(s, t);
    forall i | s'.released <= i < |s'.swaps| ensures SlotOk(s', i) { if i < k { assert SlotOk(s, i); } }
    if s.released < k { assert SlotOk(s, s.released); }
    assert SlotOk(s', s.released);
    assert s'.swaps[..s.released] == s.swaps[..s.released];
    assert s.released < k ==> s'.swaps[..s.released + 1] == s.swaps[..s.released + 1];
  }

  lemma SwapThread(s: State, t: nat, u: nat)
    requires Inv(s) && t < |s.threads| && s.threads[t].phase.Armed? && u < |s.threads| && Slots(SwapStep(s, t))
    ensures ThreadOk(SwapStep(s, t), u)
  {
    assert ThreadOk(s, u) && ThreadOk(s, t);
    if u == t {
      if s.released < |s.swaps| { assert SlotOk(s, |s.swaps| - 1); }
    } else if Queued(s.threads[u]) && s.threads[u].ticket > s.released {
      assert SlotOk(s, s.threads[u].ticket - 1);
    }
  }

  lemma SwapInv(s: State, t: nat)
    requires Inv(s) && t < |s.threads| && s.threads[t].phase.Armed?
    ensures Inv(SwapStep(s, t))
  {
    var s' := SwapStep(s, t);
    SwapSlots(s, t);
    forall u | 0 <= u < |s'.threads| ensures ThreadOk(s', u) { SwapThread(s, t, u); }
    forall u, v | 0 <= u < |s'.threads| && 0 <= v < |s'.threads| ensures Apart(s', u, v) { assert Apart(s, u, v); }
  }

  lemma LeaveInv(s: State, t: nat)
    requires Inv(s) && t < |s.threads| && s.threads[t].phase.Leaving? && s.threads[t].node < |s.cells|
    ensures Inv(LeaveStep(s, t))
  {
    var s' := LeaveStep(s, t);
    assert ThreadOk(s, t);
    FirstIsFree(s, t);
    forall i | s'.released <= i < |s'.swaps| ensures SlotOk(s', i) { assert SlotOk(s, i); }
    assert SlotOk(s, |s.swaps| - 1);
    if s'.released < |s.swaps| {
      assert SlotOk(s, s'.released) && SlotOk(s', |s.swaps| - 1);
      assert ThreadOk(s, s.swaps[s'.released]);
    }
    assert Spare(s') == s.threads[t].node;
    forall u | 0 <= u < |s'.threads| ensures ThreadOk(s', u) {
      assert ThreadOk(s, u) && Apart(s, t, u);
      if u != t && Queued(s.threads[u]) && s.threads[u].ticket > s'.released {
        assert SlotOk(s, s.threads[u].ticket - 1);
      }
    }
    forall u, v | 0 <= u < |s'.threads| && 0 <= v < |s'.threads| ensures Apart(s', u, v) { assert Apart(s, u, v); }
    forall u | 0 <= u < |s'.threads| ensures Own(s'.threads[u]) != Spare(s') { assert Apart(s, t, u); }
  }

  lemma StepInv(s: State, s': State, t: nat)
    requires Inv(s) && Step(s, s', t)
    ensures Inv(s')
  {
    match s.threads[t].phase
    case Outside => ArmInv(s, t);
    case Armed => SwapInv(s, t);
    case Spinning => if s.cells[s.threads[t].pred] != 1 { InnerInv(s, s', t); }
    case Critical => InnerInv(s, s', t);
    case Loaded(_) => InnerInv(s, s', t);
    case Leaving => LeaveInv(s, t);
    case Recycling => RecycleInv(s, s', t);
  }

  lemma {:induction false} RunKeepsInv(run: seq<State>, n: nat)
    requires Run(run) && n < |run|
    ensures Inv(run[n])
  {
    if n == 0 {
      InitInv(run[0]);
    } else {
      RunKeepsInv(run, n - 1);
      assert Steps(run, n - 1);
      var t: nat :| Step(run[n-1], run[n], t);
      StepInv(run[n-1], run[n], t);
    }
  }

  // ---------- what holds in every reachable state ----------

  /** At most one thread is between `lock` and `unlock`. */
  lemma MutualExclusion(run: seq<State>, n: nat, t: nat, u: nat)
    requires Run(run) && n < |run| && t < |run[n].threads| && u < |run[n].threads|
    requires Inside(run[n].threads[t]) && Inside(run[n].threads[u])
    ensures t == u
  {
    RunKeepsInv(run, n);
    assert ThreadOk(run[n], t) && ThreadOk(run[n], u);
  }

  /** The threads have entered in the order of their swaps, and all but possibly the last to enter have left. */
  lemma EntryOrderIsSwapOrder(run: seq<State>, n: nat)
    requires Run(run) && n < |run|
    ensures var s := run[n];
      && |s.entries| <= |s.swaps| && s.entries == s.swaps[..|s.entries|]
      && s.released <= |s.entries| <= s.released + 1
  {
    RunKeepsInv(run, n);
    var s := run[n];
    if s.released == |s.swaps| { assert s.swaps[..|s.swaps|] == s.swaps; }
  }

  function Upto(n: nat): (r: set<nat>)
    ensures |r| == n
    ensures forall c: nat :: c in r <==> c < n
  {
    if n == 0 then {} else Upto(n - 1) + {n - 1}
  }

  function Owned(threads: seq<Thread>, n: nat): set<nat>
    requires n <= |threads|
  {
    if n == 0 then {} else Owned(threads, n - 1) + {Own(threads[n-1])}
  }

  lemma {:induction false} OwnedSize(s: State, n: nat)
    requires n <= |s.threads| && forall t, u :: 0 <= t < |s.threads| && 0 <= u < |s.threads| ==> Apart(s, t, u)
    ensures |Owned(s.threads, n)| == n
    ensures forall c :: c in Owned(s.threads, n) <==> exists t :: 0 <= t < n && Own(s.threads[t]) == c
  {
    if n > 0 {
      OwnedSize(s, n - 1);
      forall t | 0 <= t < n - 1 ensures Own(s.threads[t]) != Own(s.threads[n-1]) { assert Apart(s, t, n - 1); }
    }
  }

  lemma SubsetOfSameSize(x: set<nat>, y: set<nat>)
    requires x <= y && |x| >= |y|
    ensures x == y
  {
    assert y == x + (y - x);
    assert |y| == |x| + |y - x|;
  }

  lemma EveryCellHasAHome(s: State, c: nat)
    requires Inv(s) && c < |s.cells|
    ensures c == Spare(s) || exists t :: 0 <= t < |s.threads| && Own(s.threads[t]) == c
  {
    var own := Owned(s.threads, |s.threads|);
    OwnedSize(s, |s.threads|);
    forall d | d in own ensures d < |s.cells| {
      var t :| 0 <= t < |s.threads| && Own(s.threads[t]) == d;
      assert ThreadOk(s, t);
    }
    SubsetOfSameSize(own + {Spare(s)}, Upto(|s.cells|));
    assert c in own + {Spare(s)};
  }

  /** The cells stay partitioned: each is the own cell of exactly one thread, or else the spare one. */
  lemma CellsArePartitioned(run: seq<State>, n: nat, c: nat)
    requires Run(run) && n < |run| && c < |run[n].cells|
    ensures Slots(run[n])
    ensures var s := run[n];
      && (c == Spare(s) <==> !exists t :: 0 <= t < |s.threads| && Own(s.threads[t]) == c)
      && forall t, u :: 0 <= t < |s.threads| && 0 <= u < |s.threads| && Own(s.threads[t]) == c == Own(s.threads[u])
           ==> t == u
  {
    RunKeepsInv(run, n);
    var s := run[n];
    EveryCellHasAHome(s, c);
    forall t, u | 0 <= t < |s.threads| && 0 <= u < |s.threads| && Own(s.threads[t]) == c == Own(s.threads[u])
      ensures t == u {
      assert Apart(s, t, u);
    }
  }

  /** While any thread spins, the first in the queue can take a step that is not a turn of its spin loop. */
  lemma FirstInQueueMoves(run: seq<State>, n: nat, u: nat)
    requires Run(run) && n < |run| && u < |run[n].threads| && run[n].threads[u].phase.Spinning?
    ensures run[n].released < |run[n].swaps| && exists s' :: Step(run[n], s', run[n].swaps[run[n].released])
                                                  && s' != run[n]
  {
    RunKeepsInv(run, n);
    var s := run[n];
    assert ThreadOk(s, u) && SlotOk(s, s.released);
    var t := s.swaps[s.released];
    assert ThreadOk(s, t);
    FirstIsFree(s, t);
    var th := s.threads[t];
    var s' :=
      if th.phase.Spinning? then SpinStep(s, t)
      else if th.phase.Critical? then Put(s, t, th.(phase := Loaded(s.counter)))
      else if th.phase.Loaded? then Put(s, t, th.(phase := Leaving)).(counter := th.phase.value + 1)
      else LeaveStep(s, t);
    assert s'.threads[t].phase != th.phase;
    assert Step(s, s', t);
  }

  /** Threads 0 to n - 1 have together made `|swaps|` swaps when no other thread has made any. */
  lemma {:induction false} SwapTotal(m: multiset<nat>, n: nat, rounds: nat)
    requires forall t :: 0 <= t < n ==> m[t] == rounds
    requires forall t :: t in m ==> t < n
    ensures |m| == n * rounds
  {
    if n > 0 {
      var rest := m[n - 1 := 0];
      SwapTotal(rest, n - 1, rounds);
      assert m == rest + multiset{}[n - 1 := rounds];
    } else {
      assert m == multiset{};
    }
  }

  /** No increment is lost: when every thread has finished its rounds, the counter is the number of threads times
      rounds. */
  lemma NoIncrementLost(run: seq<State>, n: nat, rounds: nat)
    requires Run(run) && n < |run|
    requires forall t :: 0 <= t < |run[n].threads|
               ==> run[n].threads[t].phase.Outside? && run[n].threads[t].rounds == rounds
    ensures run[n].counter == |run[n].threads| * rounds
  {
    RunKeepsInv(run, n);
    SwapsInRange(run, n);
    var s := run[n];
    assert s.released < |s.swaps| ==> SlotOk(s, s.released);
    forall t | 0 <= t < |s.threads| ensures multiset(s.swaps)[t] == rounds { assert ThreadOk(s, t); }
    SwapTotal(multiset(s.swaps), |s.threads|, rounds);
  }

  lemma {:induction false} SwapsInRange(run: seq<State>, n: nat)
    requires Run(run) && n < |run|
    ensures forall t :: t in multiset(run[n].swaps) ==> t < |run[n].threads|
  {
    if n > 0 {
      SwapsInRange(run, n - 1);
      assert Steps(run, n - 1);
      var t: nat :| Step(run[n-1], run[n], t);
      assert run[n].swaps == run[n-1].swaps || multiset(run[n].swaps) == multiset(run[n-1].swaps) + multiset{t};
    }
  }
}
