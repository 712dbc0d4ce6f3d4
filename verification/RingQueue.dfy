/**
 The bounded queue: a ring of buckets of any size. `enqueue` and `dequeue` draw tickets; the flag of a bucket says whose
 turn it is: 2 * round for the enqueue of that round, one more for the dequeue. `flag++` is a load and a store.
 */
module RingQueue {
  import opened Options

  datatype Bucket = Bucket(key: int, flag: int)

  datatype Phase =
    | Idle
    | EnqWait | EnqKey | EnqFlag | EnqStore(flag: int)
    | DeqWait | DeqRead | DeqFlag | DeqStore(flag: int)

  /** `key` is the key to enqueue, or the key that was read. */
  datatype Thread = Thread(phase: Phase, ticket: nat, key: int)

  /** The last four fields are there for the statements only: by ticket, the key to enqueue, the enqueuer, the
      dequeuer and the key that the dequeue returned. */
  datatype State = State(threads: seq<Thread>, buckets: seq<Bucket>, front: nat, rear: nat,
                         keys: seq<int>, enqBy: seq<nat>, deqBy: seq<nat>, results: seq<Option<int>>)

  function Slot(t: nat, size: nat): (b: nat)
    requires size > 0
    ensures b < size
  {
    t % size
  }

  function Round(t: nat, size: nat): nat
    requires size > 0
  {
    t / size
  }

  /** A ticket is determined by its bucket and its round. */
  lemma SamePlace(t: nat, u: nat, size: nat)
    requires size > 0 && Slot(t, size) == Slot(u, size) && Round(t, size) == Round(u, size)
    ensures t == u
  {
  }

  function BucketOf(s: State, t: nat): Bucket
    requires |s.buckets| > 0
  {
    s.buckets[Slot(t, |s.buckets|)]
  }

  function Flag(s: State, t: nat): int
    requires |s.buckets| > 0
  {
    BucketOf(s, t).flag
  }

  /** The flag that lets the enqueue of ticket `t` in. */
  function Turn(s: State, t: nat): int
    requires |s.buckets| > 0
  {
    2 * Round(t, |s.buckets|)
  }

  predicate Enqueuing(th: Thread) {
    th.phase.EnqWait? || EnqInside(th)
  }

  /** Past the guard, and before the end of `flag++`. */
  predicate EnqInside(th: Thread) {
    th.phase.EnqKey? || th.phase.EnqFlag? || th.phase.EnqStore?
  }

  predicate Dequeuing(th: Thread) {
    th.phase.DeqWait? || DeqInside(th)
  }

  predicate DeqInside(th: Thread) {
    th.phase.DeqRead? || th.phase.DeqFlag? || th.phase.DeqStore?
  }

  // ---------- the steps ----------

  function Put(s: State, u: nat, th: Thread): State
    requires u < |s.threads|
  {
    s.(threads := s.threads[u := th])
  }

  function Go(s: State, u: nat, phase: Phase): State
    requires u < |s.threads|
  {
    Put(s, u, s.threads[u].(phase := phase))
  }

  function SetBucket(s: State, t: nat, bucket: Bucket): State
    requires |s.buckets| > 0
  {
    s.(buckets := s.buckets[Slot(t, |s.buckets|) := bucket])
  }

  ghost predicate Init(s: State) {
    && |s.buckets| > 0 && s.front == 0 && s.rear == 0
    && s.keys == [] && s.enqBy == [] && s.deqBy == [] && s.results == []
    && (forall b :: 0 <= b < |s.buckets| ==> s.buckets[b].flag == 0)
    && (forall u :: 0 <= u < |s.threads| ==> s.threads[u].phase == Idle)
  }

  function EnqTicket(s: State, u: nat, key: int): State
    requires u < |s.threads|
  {
    Put(s, u, Thread(EnqWait, s.rear, key)).(rear := s.rear + 1, keys := s.keys + [key], enqBy := s.enqBy + [u])
  }

  function DeqTicket(s: State, u: nat): State
    requires u < |s.threads|
  {
    Put(s, u, Thread(DeqWait, s.front, 0)).(front := s.front + 1, deqBy := s.deqBy + [u], results := s.results + [None])
  }

  predicate EnqGuard(s: State, t: nat)
    requires |s.buckets| > 0
  {
    Flag(s, t) % 2 != 1 && Flag(s, t) / 2 == Round(t, |s.buckets|)
  }

  predicate DeqGuard(s: State, t: nat)
    requires |s.buckets| > 0
  {
    Flag(s, t) % 2 != 0 && Flag(s, t) / 2 == Round(t, |s.buckets|)
  }

  function KeyStep(s: State, u: nat): State
    requires u < |s.threads| && |s.buckets| > 0
  {
    var th := s.threads[u];
    SetBucket(Go(s, u, EnqFlag), th.ticket, BucketOf(s, th.ticket).(key := th.key))
  }

  function EnqStoreStep(s: State, u: nat, v: int): State
    requires u < |s.threads| && |s.buckets| > 0
  {
    var th := s.threads[u];
    SetBucket(Go(s, u, Idle), th.ticket, BucketOf(s, th.ticket).(flag := v + 1))
  }

  function DeqStoreStep(s: State, u: nat, v: int): State
    requires u < |s.threads| && |s.buckets| > 0 && s.threads[u].ticket < |s.results|
  {
    var th := s.threads[u];
    SetBucket(Go(s, u, Idle), th.ticket, BucketOf(s, th.ticket).(flag := v + 1))
    .(results := s.results[th.ticket := Some(th.key)])
  }

  ghost predicate Call(s: State, s': State, u: nat)
    requires u < |s.threads|
  {
    s' == DeqTicket(s, u) || exists key :: s' == EnqTicket(s, u, key)
  }

  ghost predicate Step(s: State, s': State, u: nat) {
    && u < |s.threads| && |s.buckets| > 0
    && var th := s.threads[u];
      match th.phase
      case Idle => Call(s, s', u)
      case EnqWait => s' == if EnqGuard(s, th.ticket) then Go(s, u, EnqKey) else s
      case EnqKey => s' == KeyStep(s, u)
      case EnqFlag => s' == Go(s, u, EnqStore(Flag(s, th.ticket)))
      case EnqStore(v) => s' == EnqStoreStep(s, u, v)
      case DeqWait => s' == if DeqGuard(s, th.ticket) then Go(s, u, DeqRead) else s
      case DeqRead => s' == Put(s, u, th.(phase := DeqFlag, key := BucketOf(s, th.ticket).key))
      case DeqFlag => s' == Go(s, u, DeqStore(Flag(s, th.ticket)))
      case DeqStore(v) => th.ticket < |s.results| && s' == DeqStoreStep(s, u, v)
  }

  ghost predicate Next(s: State, s': State) {
    exists u: nat :: Step(s, s', u)
  }

  ghost predicate Run(run: seq<State>) {
    && |run| > 0 && Init(run[0])
    && forall n :: 0 <= n < |run| - 1 ==> Steps(run, n)
  }

  ghost predicate Steps(run: seq<State>, n: nat)
    requires n + 1 < |run|
  {
    Next(run[n], run[n+1])
  }

  // ---------- the invariant ----------

  ghost predicate Sizes(s: State) {
    && |s.buckets| > 0 && |s.keys| == |s.enqBy| == s.rear && |s.deqBy| == |s.results| == s.front
  }

  /** What the flag of its bucket says about a ticket, drawn or not. */
  ghost predicate TicketOk(s: State, t: nat)
    requires Sizes(s)
  {
    var f, turn := Flag(s, t), Turn(s, t);
    && f >= 0
    && (f > turn ==> t < s.rear)
    && (f == turn + 1 ==> BucketOf(s, t).key == s.keys[t])
    && (f > turn + 1 ==> t < s.front && s.results[t] == Some(s.keys[t]))
    && (t < s.rear && f <= turn ==> EnqBy(s, t, s.enqBy[t]))
    && (t < s.front && f <= turn + 1 ==> DeqBy(s, t, s.deqBy[t]) && s.results[t] == None)
  }

  ghost predicate EnqBy(s: State, t: nat, u: nat) {
    u < |s.threads| && Enqueuing(s.threads[u]) && s.threads[u].ticket == t
  }

  ghost predicate DeqBy(s: State, t: nat, u: nat) {
    u < |s.threads| && Dequeuing(s.threads[u]) && s.threads[u].ticket == t
  }

  ghost predicate EnqOk(s: State, u: nat)
    requires Sizes(s) && u < |s.threads|
  {
    var th := s.threads[u];
    && th.ticket < s.rear && s.enqBy[th.ticket] == u && s.keys[th.ticket] == th.key
    && Flag(s, th.ticket) <= Turn(s, th.ticket)
    && (EnqInside(th) ==> Flag(s, th.ticket) == Turn(s, th.ticket))
    && (th.phase.EnqFlag? || th.phase.EnqStore? ==> BucketOf(s, th.ticket).key == th.key)
    && (th.phase.EnqStore? ==> th.phase.flag == Flag(s, th.ticket))
  }

  ghost predicate DeqOk(s: State, u: nat)
    requires Sizes(s) && u < |s.threads|
  {
    var th := s.threads[u];
    && th.ticket < s.front && s.deqBy[th.ticket] == u
    && Flag(s, th.ticket) <= Turn(s, th.ticket) + 1
    && (DeqInside(th) ==> th.ticket < s.rear && Flag(s, th.ticket) == Turn(s, th.ticket) + 1)
    && (th.phase.DeqFlag? || th.phase.DeqStore? ==> th.key == s.keys[th.ticket])
    && (th.phase.DeqStore? ==> th.phase.flag == Flag(s, th.ticket))
  }

  ghost predicate ThreadOk(s: State, u: nat)
    requires Sizes(s) && u < |s.threads|
  {
    && (Enqueuing(s.threads[u]) ==> EnqOk(s, u))
    && (Dequeuing(s.threads[u]) ==> DeqOk(s, u))
  }

  ghost predicate Inv(s: State) {
    && Sizes(s)
    && (forall t: nat :: TicketOk(s, t))
    && (forall u :: 0 <= u < |s.threads| ==> ThreadOk(s, u))
  }

  lemma InitInv(s: State)
    requires Init(s)
    ensures Inv(s)
  {
  }

  lemma EnqTicketInv(s: State, u: nat, key: int)
    requires Inv(s) && u < |s.threads| && s.threads[u].phase.Idle?
    ensures Inv(EnqTicket(s, u, key))
  {
    var s' := EnqTicket(s, u, key);
    assert TicketOk(s, s.rear);
    forall t: nat ensures TicketOk(s', t) { assert TicketOk(s, t); }
    forall w | 0 <= w < |s'.threads| ensures ThreadOk(s', w) { assert ThreadOk(s, w); }
  }

  lemma DeqTicketInv(s: State, u: nat)
    requires Inv(s) && u < |s.threads| && s.threads[u].phase.Idle?
    ensures Inv(DeqTicket(s, u))
  {
    var s' := DeqTicket(s, u);
    assert TicketOk(s, s.front);
    forall t: nat ensures TicketOk(s', t) { assert TicketOk(s, t); }
    forall w | 0 <= w < |s'.threads| ensures ThreadOk(s', w) { assert ThreadOk(s, w); }
  }

  /** A step that only moves thread `u` on within its call. */
  lemma LocalInv(s: State, s': State, u: nat)
    requires Inv(s) && u < |s.threads| && u < |s'.threads| && s' == Put(s, u, s'.threads[u]) && ThreadOk(s', u)
    requires s'.threads[u].ticket == s.threads[u].ticket
    requires Enqueuing(s'.threads[u]) == Enqueuing(s.threads[u]) && Dequeuing(s'.threads[u]) == Dequeuing(s.threads[u])
    ensures Inv(s')
  {
    forall t: nat ensures TicketOk(s', t) { assert TicketOk(s, t); }
    forall w | 0 <= w < |s'.threads| ensures ThreadOk(s', w) { assert ThreadOk(s, w); }
  }

  lemma KeyInv(s: State, u: nat)
    requires Inv(s) && u < |s.threads| && s.threads[u].phase.EnqKey?
    ensures Inv(KeyStep(s, u))
  {
    var s' := KeyStep(s, u);
    var c := s.threads[u].ticket;
    var n := |s.buckets|;
    assert ThreadOk(s, u);
    forall t: nat ensures TicketOk(s', t) { assert TicketOk(s, t); }
    forall w | 0 <= w < |s'.threads| ensures ThreadOk(s', w) {
      assert ThreadOk(s, w);
      var d := s.threads[w].ticket;
      if Slot(d, n) == Slot(c, n) && Round(d, n) == Round(c, n) { SamePlace(d, c, n); }
    }
  }

  lemma EnqStoreInv(s: State, u: nat)
    requires Inv(s) && u < |s.threads| && s.threads[u].phase.EnqStore?
    ensures Inv(EnqStoreStep(s, u, s.threads[u].phase.flag))
  {
    var s' := EnqStoreStep(s, u, s.threads[u].phase.flag);
    var c := s.threads[u].ticket;
    var n := |s.buckets|;
    assert ThreadOk(s, u);
    forall t: nat ensures TicketOk(s', t) {
      assert TicketOk(s, t);
      if Slot(t, n) == Slot(c, n) && Round(t, n) == Round(c, n) { SamePlace(t, c, n); }
    }
    forall w | 0 <= w < |s'.threads| ensures ThreadOk(s', w) {
      assert ThreadOk(s, w);
      var d := s.threads[w].ticket;
      if Slot(d, n) == Slot(c, n) && Round(d, n) == Round(c, n) { SamePlace(d, c, n); }
    }
  }

  lemma DeqStoreInv(s: State, u: nat)
    requires Inv(s) && u < |s.threads| && s.threads[u].phase.DeqStore? && s.threads[u].ticket < |s.results|
    ensures Inv(DeqStoreStep(s, u, s.threads[u].phase.flag))
  {
    var s' := DeqStoreStep(s, u, s.threads[u].phase.flag);
    var c := s.threads[u].ticket;
    var n := |s.buckets|;
    assert ThreadOk(s, u);
    forall t: nat ensures TicketOk(s', t) {
      assert TicketOk(s, t);
      if Slot(t, n) == Slot(c, n) && Round(t, n) == Round(c, n) { SamePlace(t, c, n); }
    }
    forall w | 0 <= w < |s'.threads| ensures ThreadOk(s', w) {
      assert ThreadOk(s, w);
      var d := s.threads[w].ticket;
      if Slot(d, n) == Slot(c, n) && Round(d, n) == Round(c, n) { SamePlace(d, c, n); }
    }
  }

  lemma StepInv(s: State, s': State, u: nat)
    requires Inv(s) && Step(s, s', u)
    ensures Inv(s')
  {
    assert ThreadOk(s, u);
    match s.threads[u].phase
    case Idle =>
      if s' == DeqTicket(s, u) {
        DeqTicketInv(s, u);
      } else {
        var key :| s' == EnqTicket(s, u, key);
        EnqTicketInv(s, u, key);
      }
    case EnqWait => LocalInv(s, s', u);
    case EnqKey => KeyInv(s, u);
    case EnqFlag => LocalInv(s, s', u);
    case EnqStore(_) => EnqStoreInv(s, u);
    case DeqWait =>
      assert TicketOk(s, s.threads[u].ticket);
      LocalInv(s, s', u);
    case DeqRead =>
      assert TicketOk(s, s.threads[u].ticket);
      LocalInv(s, s', u);
    case DeqFlag => LocalInv(s, s', u);
    case DeqStore(_) => DeqStoreInv(s, u);
  }

  lemma {:induction false} RunKeepsInv(run: seq<State>, n: nat)
    requires Run(run) && n < |run|
    ensures Inv(run[n])
  {
    if n == 0 {
      InitInv(run[0]);
    } else {
      RunKeepsInv(run, n - 1);
      assert Steps(run, n - 1);
      var u: nat :| Step(run[n-1], run[n], u);
      StepInv(run[n-1], run[n], u);
    }
  }

  // ---------- what holds in every reachable state ----------

  /** The dequeue with ticket `t` returns the key of the enqueue with ticket `t`. */
  lemma DequeueReturnsItsKey(run: seq<State>, n: nat, t: nat)
    requires Run(run) && n < |run| && t < |run[n].results| && run[n].results[t].Some?
    ensures t < |run[n].keys| && run[n].results[t].value == run[n].keys[t]
  {
    RunKeepsInv(run, n);
    assert TicketOk(run[n], t);
  }

  /** Tickets are never drawn twice, and neither the key of a ticket nor the answer to one ever changes. */
  lemma {:induction false} TicketsArePermanent(run: seq<State>, m: nat, n: nat)
    requires Run(run) && m <= n < |run|
    ensures run[m].keys <= run[n].keys && |run[m].results| <= |run[n].results|
    ensures forall t :: 0 <= t < |run[m].results| && run[m].results[t].Some? ==> run[n].results[t] == run[m].results[t]
  {
    if m < n {
      TicketsArePermanent(run, m, n - 1);
      RunKeepsInv(run, n - 1);
      assert Steps(run, n - 1);
      var u: nat :| Step(run[n-1], run[n], u);
      assert ThreadOk(run[n-1], u);
      var c := run[n-1].threads[u].ticket;
      assert TicketOk(run[n-1], c);
    }
  }

  /** At most one thread is between a bucket's guard and the end of its `flag++`. */
  lemma OneThreadInABucket(run: seq<State>, n: nat, u: nat, w: nat)
    requires Run(run) && n < |run| && u < |run[n].threads| && w < |run[n].threads|
    requires EnqInside(run[n].threads[u]) || DeqInside(run[n].threads[u])
    requires EnqInside(run[n].threads[w]) || DeqInside(run[n].threads[w])
    requires |run[n].buckets| > 0
    requires Slot(run[n].threads[u].ticket, |run[n].buckets|) == Slot(run[n].threads[w].ticket, |run[n].buckets|)
    ensures u == w
  {
    RunKeepsInv(run, n);
    var s := run[n];
    assert ThreadOk(s, u) && ThreadOk(s, w);
    SamePlace(s.threads[u].ticket, s.threads[w].ticket, |s.buckets|);
  }

  /** A key that was enqueued and has not been returned stands in its bucket. */
  lemma StoredKeysStay(run: seq<State>, n: nat, t: nat)
    requires Run(run) && n < |run| && t < |run[n].keys|
    requires !exists u :: EnqBy(run[n], t, u)
    requires t < |run[n].results| ==> run[n].results[t] == None
    ensures |run[n].buckets| > 0 && BucketOf(run[n], t).key == run[n].keys[t] && Flag(run[n], t) == Turn(run[n], t) + 1
  {
    RunKeepsInv(run, n);
    assert TicketOk(run[n], t);
  }

  /** Nothing lost, nothing duplicated: when no call is under way, the dequeues have returned exactly the first keys, in
      the order of the enqueues. */
  lemma QuiescentResults(run: seq<State>, n: nat)
    requires Run(run) && n < |run| && forall u :: 0 <= u < |run[n].threads| ==> run[n].threads[u].phase.Idle?
    ensures run[n].front <= run[n].rear == |run[n].keys| && |run[n].results| == run[n].front
    ensures forall t :: 0 <= t < run[n].front ==> run[n].results[t] == Some(run[n].keys[t])
  {
    RunKeepsInv(run, n);
    var s := run[n];
    if s.front > 0 { assert TicketOk(s, s.front - 1); }
    forall t | 0 <= t < s.front ensures t < s.rear && s.results[t] == Some(s.keys[t]) { assert TicketOk(s, t); }
  }

  // ---------- refinement to a FIFO queue ----------

  /** A ticket is served from the moment at which both its enqueue and its dequeue have been drawn. */
  function Served(s: State): nat {
    if s.front < s.rear then s.front else s.rear
  }

  /** The queue: an enqueue takes effect at its draw, the dequeue of a ticket at the later of the two draws of that
      ticket. */
  function Contents(s: State): seq<int>
    requires |s.keys| == s.rear
  {
    s.keys[Served(s)..]
  }

  /** A step appends at most one key, at the back, and serves at most one dequeue, from the front; a key drawn for a
      dequeue that already waits passes through. Only draws do either. */
  lemma RefinesFifo(run: seq<State>, n: nat, u: nat)
    requires Run(run) && n + 1 < |run| && Step(run[n], run[n+1], u)
    ensures var s, s' := run[n], run[n+1];
      && |s.keys| == s.rear && |s'.keys| == s'.rear
      && s.keys <= s'.keys && |s'.keys| <= |s.keys| + 1 && Served(s) <= Served(s') <= Served(s) + 1
      && Contents(s) + s'.keys[|s.keys|..] == s'.keys[Served(s)..Served(s')] + Contents(s')
      && (!s.threads[u].phase.Idle? ==> s'.keys == s.keys && Served(s') == Served(s))
      && (s'.keys != s.keys ==> s'.threads[u] == Thread(EnqWait, s.rear, s'.keys[s.rear]))
  {
    RunKeepsInv(run, n);
    RunKeepsInv(run, n + 1);
    var s, s' := run[n], run[n+1];
    assert s.keys <= s'.keys;
    assert s'.keys[Served(s)..] == s'.keys[Served(s)..Served(s')] + s'.keys[Served(s')..];
    assert s'.keys[Served(s)..] == s.keys[Served(s)..] + s'.keys[|s.keys|..];
  }

  /** The step from `m` serves the dequeue of ticket `t`. */
  ghost predicate ServedAt(run: seq<State>, m: nat, t: nat) {
    m + 1 < |run| && Served(run[m]) <= t < Served(run[m+1])
  }

  lemma {:induction false} ServedOnce(run: seq<State>, n: nat, t: nat) returns (m: nat)
    requires Run(run) && n < |run| && t < Served(run[n])
    ensures m < n && ServedAt(run, m, t)
  {
    if t < Served(run[n-1]) { m := ServedOnce(run, n - 1, t); } else { m := n - 1; }
  }

  lemma {:induction false} ServedMono(run: seq<State>, m: nat, n: nat)
    requires Run(run) && m <= n < |run|
    ensures Served(run[m]) <= Served(run[n])
  {
    if m < n {
      ServedMono(run, m, n - 1);
      assert Steps(run, n - 1);
      var u: nat :| Step(run[n-1], run[n], u);
      RefinesFifo(run, n - 1, u);
    }
  }

  /** Dequeues take effect one at a time, in the order of their tickets: a ticket is served when it is the next one. */
  lemma ServedInOrder(run: seq<State>, m: nat, t: nat, m': nat, t': nat)
    requires Run(run) && ServedAt(run, m, t) && ServedAt(run, m', t')
    ensures t == Served(run[m]) && (t < t' <==> m < m')
  {
    assert Steps(run, m) && Steps(run, m');
    var u: nat :| Step(run[m], run[m+1], u);
    var u': nat :| Step(run[m'], run[m'+1], u');
    RefinesFifo(run, m, u);
    RefinesFifo(run, m', u');
    if m < m' { ServedMono(run, m + 1, m'); }
    if m' < m { ServedMono(run, m' + 1, m); }
  }

  lemma FlagGrows(s: State, s': State, u: nat, t: nat)
    requires Inv(s) && Inv(s') && Step(s, s', u)
    ensures Flag(s, t) <= Flag(s', t) && |s'.buckets| == |s.buckets|
    ensures s.deqBy <= s'.deqBy
  {
    assert ThreadOk(s, u);
  }

  lemma {:induction false} FlagsGrow(run: seq<State>, m: nat, n: nat, t: nat)
    requires Run(run) && m <= n < |run|
    ensures Inv(run[m]) && Inv(run[n]) && Flag(run[m], t) <= Flag(run[n], t)
    ensures |run[m].buckets| == |run[n].buckets| && run[m].deqBy <= run[n].deqBy
  {
    RunKeepsInv(run, m);
    RunKeepsInv(run, n);
    if m < n {
      FlagsGrow(run, m, n - 1, t);
      assert Steps(run, n - 1);
      var u: nat :| Step(run[n-1], run[n], u);
      FlagGrows(run[n-1], run[n], u, t);
    }
  }

  /** The effect of a dequeue lies inside its call: it comes before the return of the key, and from then to the return
      the thread is in that call. An enqueue is inside its call by being its first step. */
  lemma EffectInsideCall(run: seq<State>, n: nat, u: nat) returns (m: nat)
    requires Run(run) && n < |run| && u < |run[n].threads| && DeqInside(run[n].threads[u])
    ensures m < n && ServedAt(run, m, run[n].threads[u].ticket)
    ensures forall i :: m < i <= n ==> DeqBy(run[i], run[n].threads[u].ticket, u)
  {
    RunKeepsInv(run, n);
    assert ThreadOk(run[n], u);
    var t := run[n].threads[u].ticket;
    m := ServedOnce(run, n, t);
    forall i | m < i <= n ensures DeqBy(run[i], t, u) {
      ServedMono(run, m + 1, i);
      FlagsGrow(run, i, n, t);
      assert TicketOk(run[i], t);
    }
  }

  // ---------- progress ----------

  function CurrentTicket(b: nat, r: nat, size: nat): (c: nat)
    requires b < size
    ensures Slot(c, size) == b && Round(c, size) == r
  {
    assert (r * size + b) / size == r && (r * size + b) % size == b by { DivMod(r, b, size); }
    r * size + b
  }

  lemma DivMod(r: nat, b: nat, size: nat)
    requires b < size
    ensures (r * size + b) / size == r && (r * size + b) % size == b
  {
    var x := r * size + b;
    if x / size > r { Bigger(x / size, r, b, size); }
    if x / size < r { Bigger(r, x / size, x % size, size); }
  }

  lemma Bigger(q: nat, r: nat, b: nat, size: nat)
    requires q > r && b < size
    ensures q * size > r * size + b
  {
    var d := q - r - 1;
    assert q * size == (r + 1 + d) * size == r * size + size + d * size;
  }

  lemma EarlierRound(c: nat, t: nat, size: nat)
    requires size > 0 && Slot(c, size) == Slot(t, size) && Round(c, size) <= Round(t, size)
    ensures c <= t && (Round(c, size) < Round(t, size) ==> c <= t - size)
  {
    var d := Round(t, size) - Round(c, size);
    assert t - c == d * size;
    if d > 0 { assert d * size >= size; }
  }

  /** A call has its partner or its room when it is a dequeue whose enqueue has been called, or an enqueue into a bucket
      whose previous round has its dequeue. */
  ghost predicate Owed(s: State, t: nat)
    requires Sizes(s)
  {
    || (t < s.front && t < s.rear && s.results[t] == None)
    || (t < s.rear && (exists u :: EnqBy(s, t, u)) && (t < |s.buckets| || t - |s.buckets| < s.front))
  }

  /** While some call has its partner or its room, some call can take a step that is not a turn of its wait. */
  lemma OwedCallsMove(run: seq<State>, n: nat, t: nat)
    requires Run(run) && n < |run|
    ensures Sizes(run[n])
    ensures Owed(run[n], t)
      ==> exists u: nat, s' :: Step(run[n], s', u) && s' != run[n] && !run[n].threads[u].phase.Idle?
  {
    RunKeepsInv(run, n);
    if Owed(run[n], t) { var u, s' := Mover(run[n], t); }
  }

  lemma Mover(s: State, t: nat) returns (u: nat, s': State)
    requires Inv(s) && Owed(s, t)
    ensures Step(s, s', u) && s' != s && !s.threads[u].phase.Idle?
  {
    var n := |s.buckets|;
    var f := Flag(s, t);
    assert TicketOk(s, t);
    if w :| EnqBy(s, t, w) && !(t < s.front && t < s.rear && s.results[t] == None) { assert ThreadOk(s, w); }
    assert f <= Turn(s, t) + 1;
    var c := CurrentTicket(Slot(t, n), f / 2, n);
    EarlierRound(c, t, n);
    assert TicketOk(s, c) && Flag(s, c) == f;
    u := if f % 2 == 0 then s.enqBy[c] else s.deqBy[c];
    assert ThreadOk(s, u);
    s' := MovesNow(s, u);
  }

  lemma MovesNow(s: State, u: nat) returns (s': State)
    requires Inv(s) && u < |s.threads|
    requires var th := s.threads[u];
      || EnqInside(th) || DeqInside(th)
      || (th.phase.EnqWait? && EnqGuard(s, th.ticket)) || (th.phase.DeqWait? && DeqGuard(s, th.ticket))
    ensures Step(s, s', u) && s' != s
  {
    assert ThreadOk(s, u);
    var th := s.threads[u];
    s' := match th.phase
      case EnqWait => Go(s, u, EnqKey)
      case EnqKey => KeyStep(s, u)
      case EnqFlag => Go(s, u, EnqStore(Flag(s, th.ticket)))
      case EnqStore(v) => EnqStoreStep(s, u, v)
      case DeqWait => Go(s, u, DeqRead)
      case DeqRead => Put(s, u, th.(phase := DeqFlag, key := BucketOf(s, th.ticket).key))
      case DeqFlag => Go(s, u, DeqStore(Flag(s, th.ticket)))
      case DeqStore(v) => DeqStoreStep(s, u, v);
    assert s'.threads[u].phase != th.phase;
    assert Step(s, s', u);
  }
}
