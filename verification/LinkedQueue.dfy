/**
 The unbounded queue: a linked list that starts at a sentinel, changed by compare-and-swap. Nodes are numbered in the
 order in which they are linked and are never freed. `tail` is brought up to date in a second step, by anyone.
 */
module LinkedQueue {
  import opened Options

  datatype Node = Node(key: int, next: Option<nat>)

  datatype Phase =
    | Idle
    | EnqLoad                              // about to load tail
    | EnqLink(curr: nat)                   // about to swing curr->next from null to the new node
    | EnqNext(curr: nat)                   // about to load curr->next
    | EnqHelp(curr: nat, next: Option<nat>)  // about to swing tail from curr to that
    | EnqSwing(curr: nat, node: nat)       // about to swing tail from curr to the new node
    | DeqLoad                              // about to load head
    | DeqNext(prev: nat)                   // about to load prev->next
    | DeqSwing(prev: nat, curr: nat)       // about to swing head from prev to curr
    | DeqKey(curr: nat)                    // about to load the key of curr

  /** `base` and `nodes` are the end that the call works at and the number of nodes when it began, and `fails` counts
      its rounds that came to nothing: these serve the statements only. */
  datatype Thread = Thread(phase: Phase, key: int, base: nat, nodes: nat, fails: nat)

  /** `answers` and `takers` serve the statements only: by node, starting after the sentinel, the key that its dequeue
      has returned and the thread that took it. So do the keys of all calls of `enqueue`, and the number of those of
      `dequeue`. */
  datatype State = State(threads: seq<Thread>, nodes: seq<Node>, head: nat, tail: nat,
                         answers: seq<Option<int>>, takers: seq<nat>, enqueues: seq<int>, dequeues: nat)

  function Go(s: State, u: nat, phase: Phase): State
    requires u < |s.threads|
  {
    s.(threads := s.threads[u := s.threads[u].(phase := phase)])
  }

  function Retry(s: State, u: nat, phase: Phase): State
    requires u < |s.threads|
  {
    s.(threads := s.threads[u := s.threads[u].(phase := phase, fails := s.threads[u].fails + 1)])
  }

  ghost predicate Init(s: State) {
    && s.nodes == [Node(0, None)] && s.head == s.tail == 0 && s.answers == [] && s.takers == []
    && s.enqueues == [] && s.dequeues == 0
    && forall u :: 0 <= u < |s.threads| ==> s.threads[u].phase == Idle
  }

  ghost predicate Call(s: State, s': State, u: nat)
    requires u < |s.threads|
  {
    || s' == s.(threads := s.threads[u := Thread(DeqLoad, 0, s.head, |s.nodes|, 0)], dequeues := s.dequeues + 1)
    || exists key :: s' == s.(threads := s.threads[u := Thread(EnqLoad, key, s.tail, |s.nodes|, 0)],
                              enqueues := s.enqueues + [key])
  }

  function Link(s: State, u: nat, curr: nat): State
    requires u < |s.threads| && curr < |s.nodes|
  {
    Go(s, u, EnqSwing(curr, |s.nodes|))
    .(nodes := s.nodes[curr := s.nodes[curr].(next := Some(|s.nodes|))] + [Node(s.threads[u].key, None)])
  }

  function Take(s: State, u: nat, curr: nat): State
    requires u < |s.threads|
  {
    Go(s, u, DeqKey(curr)).(head := curr, answers := s.answers + [None], takers := s.takers + [u])
  }

  function Answer(s: State, u: nat, curr: nat): State
    requires u < |s.threads| && 0 < curr <= |s.answers| && curr < |s.nodes|
  {
    Go(s, u, Idle).(answers := s.answers[curr - 1 := Some(s.nodes[curr].key)])
  }

  ghost predicate Step(s: State, s': State, u: nat) {
    && u < |s.threads|
    && match s.threads[u].phase
      case Idle => Call(s, s', u)
      case EnqLoad => s' == Go(s, u, EnqLink(s.tail))
      case EnqLink(curr) =>
        && curr < |s.nodes|
        && s' == if s.nodes[curr].next == None then Link(s, u, curr) else Go(s, u, EnqNext(curr))
      case EnqNext(curr) => curr < |s.nodes| && s' == Go(s, u, EnqHelp(curr, s.nodes[curr].next))
      case EnqHelp(curr, next) =>
        && next.Some?
        && s' == Retry(s, u, EnqLoad).(tail := if s.tail == curr then next.value else s.tail)
      case EnqSwing(curr, node) => s' == Go(s, u, Idle).(tail := if s.tail == curr then node else s.tail)
      case DeqLoad => s' == Go(s, u, DeqNext(s.head))
      case DeqNext(prev) =>
        && prev < |s.nodes|
        && s' == Go(s, u, if s.nodes[prev].next == None then DeqLoad else DeqSwing(prev, s.nodes[prev].next.value))
      case DeqSwing(prev, curr) => s' == if s.head == prev then Take(s, u, curr) else Retry(s, u, DeqLoad)
      case DeqKey(curr) => 0 < curr <= |s.answers| && curr < |s.nodes| && s' == Answer(s, u, curr)
  }

  ghost predicate Next(s: State, s': State) {
    exists u: nat :: Step(s, s', u)
  }

  ghost predicate Run(run: seq<State>) {
    && |run| > 0 && Init(run[0])
    && forall n :: 0 <= n < |run| - 1 ==> Steps(run, n)
  }

  ghost predicate Steps(run: seq<State>, n: nat)
    requires n + 1 < |run|
  {
    Next(run[n], run[n+1])
  }

  // ---------- the invariant ----------

  /** Each node but the last is linked to the one that was linked next. */
  ghost predicate Linked(nodes: seq<Node>) {
    forall i :: 0 <= i < |nodes| ==> nodes[i].next == if i < |nodes| - 1 then Some(i + 1) else None
  }

  ghost predicate PhaseOk(s: State, th: Thread) {
    var n := |s.nodes|;
    match th.phase
    case Idle => true
    case EnqLoad => th.base + th.fails <= s.tail
    case EnqLink(curr) => th.base + th.fails <= curr <= s.tail
    case EnqNext(curr) => th.base + th.fails <= curr <= s.tail && curr < n - 1
    case EnqHelp(curr, next) => th.base + th.fails <= curr <= s.tail && next == Some(curr + 1) && curr < n - 1
    case EnqSwing(curr, node) => th.base + th.fails <= curr <= s.tail && node == curr + 1 < n
    case DeqLoad => th.base + th.fails <= s.head
    case DeqNext(prev) => th.base + th.fails <= prev <= s.head
    case DeqSwing(prev, curr) => th.base + th.fails <= prev <= s.head && curr == prev + 1 < n
    case DeqKey(curr) => th.base + th.fails < curr <= s.head
  }

  ghost predicate ThreadOk(s: State, u: nat)
    requires u < |s.threads| && |s.takers| == |s.answers|
  {
    var th := s.threads[u];
    && PhaseOk(s, th)
    && (!th.phase.Idle? ==> th.nodes <= |s.nodes|)
    && (IsEnq(th) ==> th.nodes <= th.base + 2)
    && (th.phase.DeqKey? ==> Takes(s, u, th.phase.curr))
  }

  /** Thread `u` took node `curr` and has yet to return its key. */
  ghost predicate Takes(s: State, u: nat, curr: nat)
    requires |s.takers| == |s.answers|
  {
    0 < curr <= |s.answers| && s.takers[curr-1] == u && s.answers[curr-1] == None
  }

  predicate IsEnq(th: Thread) {
    th.phase.EnqLoad? || th.phase.EnqLink? || th.phase.EnqNext? || th.phase.EnqHelp? || th.phase.EnqSwing?
  }

  /** The dequeue that took node `i + 1` returns its key, or has yet to. */
  ghost predicate TakenOk(s: State, i: nat)
    requires i < |s.answers| == |s.takers| && i + 1 < |s.nodes|
  {
    if s.answers[i] == None then s.takers[i] < |s.threads| && s.threads[s.takers[i]].phase == DeqKey(i + 1)
    else s.answers[i] == Some(s.nodes[i+1].key)
  }

  ghost predicate Inv(s: State) {
    && Linked(s.nodes) && s.head < |s.nodes| && s.tail < |s.nodes| <= s.tail + 2
    && |s.answers| == |s.takers| == s.head
    && (forall i :: 0 <= i < s.head ==> TakenOk(s, i))
    && (forall u :: 0 <= u < |s.threads| ==> ThreadOk(s, u))
  }

  lemma InitInv(s: State)
    requires Init(s)
    ensures Inv(s)
  {
  }

  /** What the other threads rely on: both ends only move forward, nodes and answers stay. */
  ghost predicate Forward(s: State, s': State, u: nat) {
    && u < |s.threads| == |s'.threads| && s'.threads == s.threads[u := s'.threads[u]]
    && s.head <= s'.head && s.tail <= s'.tail && |s.nodes| <= |s'.nodes|
    && |s.answers| <= |s'.answers| == |s'.takers| && |s.takers| == |s.answers|
    && forall i :: 0 <= i < |s.answers|
         ==> s'.takers[i] == s.takers[i] && (s.takers[i] != u ==> s'.answers[i] == s.answers[i])
  }

  lemma OtherThread(s: State, s': State, u: nat, w: nat)
    requires Forward(s, s', u) && w < |s.threads| && w != u && ThreadOk(s, w)
    ensures ThreadOk(s', w)
  {
  }

  /** A step that changes one thread, and perhaps moves the tail on. */
  lemma LocalInv(s: State, s': State, u: nat)
    requires Inv(s) && u < |s.threads| == |s'.threads| && !s.threads[u].phase.DeqKey?
    requires s' == s.(threads := s.threads[u := s'.threads[u]], tail := s'.tail,
                      enqueues := s'.enqueues, dequeues := s'.dequeues) && s.tail <= s'.tail < |s.nodes|
    requires ThreadOk(s', u)
    ensures Inv(s')
  {
    forall i | 0 <= i < s'.head ensures TakenOk(s', i) { assert TakenOk(s, i); }
    forall w | 0 <= w < |s'.threads| ensures ThreadOk(s', w) { if w != u { OtherThread(s, s', u, w); } }
  }

  lemma LinkInv(s: State, u: nat, curr: nat)
    requires Inv(s) && u < |s.threads| && s.threads[u].phase == EnqLink(curr) && curr < |s.nodes|
    requires s.nodes[curr].next == None
    ensures Inv(Link(s, u, curr))
  {
    var s' := Link(s, u, curr);
    assert ThreadOk(s, u);
    forall i | 0 <= i < s'.head ensures TakenOk(s', i) { assert TakenOk(s, i); }
    forall w | 0 <= w < |s'.threads| ensures ThreadOk(s', w) { if w != u { OtherThread(s, s', u, w); } }
  }

  lemma TakeInv(s: State, u: nat, prev: nat, curr: nat)
    requires Inv(s) && u < |s.threads| && s.threads[u].phase == DeqSwing(prev, curr) && s.head == prev
    ensures Inv(Take(s, u, curr))
  {
    var s' := Take(s, u, curr);
    assert ThreadOk(s, u);
    forall i | 0 <= i < s'.head ensures TakenOk(s', i) { if i < s.head { assert TakenOk(s, i); } }
    forall w | 0 <= w < |s'.threads| ensures ThreadOk(s', w) { if w != u { OtherThread(s, s', u, w); } }
  }

  lemma AnswerInv(s: State, u: nat, curr: nat)
    requires Inv(s) && u < |s.threads| && s.threads[u].phase == DeqKey(curr) && 0 < curr <= |s.answers|
    requires curr < |s.nodes|
    ensures Inv(Answer(s, u, curr))
  {
    var s' := Answer(s, u, curr);
    assert ThreadOk(s, u);
    forall i | 0 <= i < s'.head ensures TakenOk(s', i) { assert TakenOk(s, i); }
    forall w | 0 <= w < |s'.threads| ensures ThreadOk(s', w) {
      assert ThreadOk(s, w);
    }
  }

  lemma EnqInv(s: State, s': State, u: nat)
    requires Inv(s) && Step(s, s', u) && IsEnq(s.threads[u])
    ensures Inv(s')
  {
    var phase := s.threads[u].phase;
    assert ThreadOk(s, u);
    if phase.EnqLink? && s.nodes[phase.curr].next == None {
      LinkInv(s, u, phase.curr);
    } else {
      assert ThreadOk(s', u);
      LocalInv(s, s', u);
    }
  }

  /** A call, and the steps of `dequeue` up to its swing. */
  lemma SearchInv(s: State, s': State, u: nat)
    requires Inv(s) && Step(s, s', u)
    requires var phase := s.threads[u].phase;
      phase.Idle? || phase.DeqLoad? || phase.DeqNext? || (phase.DeqSwing? && s.head != phase.prev)
    ensures Inv(s')
  {
    assert ThreadOk(s, u);
    assert ThreadOk(s', u);
    LocalInv(s, s', u);
  }

  lemma DeqInv(s: State, s': State, u: nat)
    requires Inv(s) && Step(s, s', u) && !IsEnq(s.threads[u])
    ensures Inv(s')
  {
    var phase := s.threads[u].phase;
    assert ThreadOk(s, u);
    if phase.DeqSwing? && s.head == phase.prev {
      TakeInv(s, u, phase.prev, phase.curr);
    } else if phase.DeqKey? {
      AnswerInv(s, u, phase.curr);
    } else {
      SearchInv(s, s', u);
    }
  }

  lemma StepInv(s: State, s': State, u: nat)
    requires Inv(s) && Step(s, s', u)
    ensures Inv(s')
  {
    if IsEnq(s.threads[u]) { EnqInv(s, s', u); } else { DeqInv(s, s', u); }
  }

  lemma {:induction false} RunKeepsInv(run: seq<State>, n: nat)
    requires Run(run) && n < |run|
    ensures Inv(run[n])
  {
    if n == 0 {
      InitInv(run[0]);
    } else {
      RunKeepsInv(run, n - 1);
      assert Steps(run, n - 1);
      var u: nat :| Step(run[n-1], run[n], u);
      StepInv(run[n-1], run[n], u);
    }
  }

  // ---------- what holds in every reachable state ----------

  /** The queue: the keys strictly after `head`. */
  function Contents(s: State): seq<int>
    requires s.head < |s.nodes|
  {
    Keys(s.nodes)[s.head + 1..]
  }

  function Keys(nodes: seq<Node>): (r: seq<int>)
    ensures |r| == |nodes|
  {
    seq(|nodes|, i requires 0 <= i < |nodes| => nodes[i].key)
  }

  /** Only a successful swing of `next` appends, the key of that call; only a successful swing of `head` removes, the
      first key, which is the one that the call goes on to return. */
  lemma RefinesQueue(run: seq<State>, n: nat, u: nat)
    requires Run(run) && n + 1 < |run| && Step(run[n], run[n+1], u)
    ensures run[n].head < |run[n].nodes| && run[n+1].head < |run[n+1].nodes|
    ensures var s, s', th, th' := run[n], run[n+1], run[n].threads[u], run[n+1].threads[u];
      if th.phase.EnqLink? && th'.phase.EnqSwing? then
        Contents(s') == Contents(s) + [th.key]
      else if th.phase.DeqSwing? && th'.phase.DeqKey? then
        && Contents(s) == [s.nodes[th.phase.curr].key] + Contents(s')
        && th'.phase.curr == th.phase.curr
      else Contents(s') == Contents(s)
  {
    RunKeepsInv(run, n);
    RunKeepsInv(run, n + 1);
    StepRefines(run[n], run[n+1], u);
  }

  lemma StepRefines(s: State, s': State, u: nat)
    requires Inv(s) && Step(s, s', u) && s'.head < |s'.nodes|
    ensures var th, th' := s.threads[u], s'.threads[u];
      if th.phase.EnqLink? && th'.phase.EnqSwing? then
        Contents(s') == Contents(s) + [th.key]
      else if th.phase.DeqSwing? && th'.phase.DeqKey? then
        && Contents(s) == [s.nodes[th.phase.curr].key] + Contents(s')
        && th'.phase.curr == th.phase.curr
      else Contents(s') == Contents(s)
  {
    assert ThreadOk(s, u);
    var phase := s.threads[u].phase;
    if phase.EnqLink? && s.nodes[phase.curr].next == None {
      assert Keys(s'.nodes) == Keys(s.nodes) + [s.threads[u].key];
    } else {
      assert s'.nodes == s.nodes;
    }
  }

  /** A dequeue that finds no next node and goes on waiting sees an empty queue, although it loaded `head` earlier. */
  lemma WaitsOnEmpty(run: seq<State>, n: nat, u: nat)
    requires Run(run) && n + 1 < |run| && Step(run[n], run[n+1], u)
    requires run[n].threads[u].phase.DeqNext? && run[n+1].threads[u].phase.DeqLoad?
    ensures run[n].head < |run[n].nodes| && Contents(run[n]) == []
  {
    RunKeepsInv(run, n);
    assert ThreadOk(run[n], u);
  }

  /** `tail` is the last node or the one before it, wherever `head` is. */
  lemma TailIsNearTheEnd(run: seq<State>, n: nat)
    requires Run(run) && n < |run|
    ensures var last := |run[n].nodes| - 1; last >= 0 && (run[n].tail == last || run[n].tail == last - 1)
    ensures forall i :: 0 <= i < |run[n].nodes| - 1 ==> run[n].nodes[i].next == Some(i + 1)
    ensures run[n].nodes[|run[n].nodes|-1].next == None
  {
    RunKeepsInv(run, n);
  }

  /** `tail` can fall behind `head`: an enqueue has linked its node and not moved `tail` yet, and a dequeue takes the
      node. */
  lemma TailCanFallBehindHead() returns (run: seq<State>)
    ensures Run(run) && run[|run|-1].tail < run[|run|-1].head
  {
    var idle := Thread(Idle, 0, 0, 0, 0);
    var s0 := State([idle, idle], [Node(0, None)], 0, 0, [], [], [], 0);
    var s1 := s0.(threads := [Thread(EnqLoad, 7, 0, 1, 0), idle], enqueues := [7]);
    var s2 := Go(s1, 0, EnqLink(0));
    var s3 := Link(s2, 0, 0);
    var s4 := s3.(threads := s3.threads[1 := Thread(DeqLoad, 0, 0, 2, 0)], dequeues := 1);
    var s5 := Go(s4, 1, DeqNext(0));
    var s6 := Go(s5, 1, DeqSwing(0, 1));
    var s7 := Take(s6, 1, 1);
    run := [s0, s1, s2, s3, s4, s5, s6, s7];
    assert s1 == s0.(threads := s0.threads[0 := Thread(EnqLoad, 7, s0.tail, |s0.nodes|, 0)],
                     enqueues := s0.enqueues + [7]);
    assert s4 == s3.(threads := s3.threads[1 := Thread(DeqLoad, 0, s3.head, |s3.nodes|, 0)],
                     dequeues := s3.dequeues + 1);
    assert Step(s0, s1, 0) && Step(s1, s2, 0) && Step(s2, s3, 0);
    assert Step(s3, s4, 1) && Step(s4, s5, 1) && Step(s5, s6, 1) && Step(s6, s7, 1);
  }

  /** No node is lost or taken twice: the answers so far are the keys of the nodes up to `head`, in order, except for
      the calls that have taken their node and not read its key yet. */
  lemma AnswersInOrder(run: seq<State>, n: nat, i: nat)
    requires Run(run) && n < |run| && i < |run[n].answers|
    ensures |run[n].answers| == run[n].head && i + 1 < |run[n].nodes|
    ensures run[n].answers[i] == Some(run[n].nodes[i+1].key) || (run[n].answers[i] == None
      && OneTaker(run[n], i + 1))
  {
    RunKeepsInv(run, n);
    var s := run[n];
    assert TakenOk(s, i);
    if s.answers[i] == None {
      var u := s.takers[i];
      var node := i + 1;
      assert Reads(s, u, node);
      forall w: nat | Reads(s, w, node) ensures w == u { assert ThreadOk(s, w); }
    }
  }

  ghost predicate Reads(s: State, u: nat, node: nat) {
    u < |s.threads| && s.threads[u].phase == DeqKey(node)
  }

  ghost predicate OneTaker(s: State, node: nat) {
    (exists u :: Reads(s, u, node)) && forall u, w :: Reads(s, u, node) && Reads(s, w, node) ==> u == w
  }

  /** Lock-freedom: the fruitless rounds of a call are paid for by the progress of others. An enqueue has at most one
      more than nodes have been linked since it began, a dequeue at most as many as nodes have been taken. */
  lemma RetriesMeanProgress(run: seq<State>, n: nat, u: nat)
    requires Run(run) && n < |run| && u < |run[n].threads| && !run[n].threads[u].phase.Idle?
    ensures var s, th := run[n], run[n].threads[u];
      if IsEnq(th) then th.fails <= |s.nodes| - th.nodes + 1 else th.base + th.fails <= s.head
  {
    RunKeepsInv(run, n);
    assert ThreadOk(run[n], u);
  }
}
