/**
 The lock table of the transaction engine: one FIFO reader/writer queue a record, and for each thread
 the list of the lock tokens it owns.

 A granted element stays in its queue with `isBlocked == false`. Threads and records are numbered from 0.
 A token's list iterator is represented by the pair (thread, queue): see `NoDup`.
 */
module Locks {

  datatype LockElement = LockElement(tid: nat, isReader: bool, isBlocked: bool)

  datatype LockToken = LockToken(tid: nat, index: nat)

  type Queue = seq<LockElement>

  datatype Table = Table(locks: seq<Queue>, adj: seq<seq<LockToken>>)

  // ---------- queues ----------

  /** The position of thread `t` in `q`, or `|q|` when it is not there. */
  function Pos(q: Queue, t: nat): (p: nat)
    ensures p <= |q|
    ensures p < |q| ==> q[p].tid == t
    ensures forall i :: 0 <= i < p ==> q[i].tid != t
  {
    if q == [] then 0 else if q[0].tid == t then 0 else 1 + Pos(q[1..], t)
  }

  predicate InQueue(q: Queue, t: nat) {
    Pos(q, t) < |q|
  }

  /** A thread occurs at most once in a queue, so (thread, queue) identifies a list node. */
  ghost predicate NoDup(q: Queue) {
    forall a, b :: 0 <= a < b < |q| ==> q[a].tid != q[b].tid
  }

  /** A granted element that is not at the head is a reader right behind a granted reader. */
  ghost predicate GrantsOk(q: Queue) {
    forall p :: 0 < p < |q| && !q[p].isBlocked ==> q[p].isReader && q[p-1].isReader && !q[p-1].isBlocked
  }

  predicate CanEnter(q: Queue, p: nat)
    requires p < |q|
  {
    || !q[p].isBlocked
    || p == 0
    || (q[p].isReader && q[p-1].isReader && !q[p-1].isBlocked)
  }

  function Erase(q: Queue, t: nat): Queue {
    var p := Pos(q, t);
    if p < |q| then q[..p] + q[p+1..] else q
  }

  lemma PosIs(q: Queue, p: nat)
    requires NoDup(q) && p < |q|
    ensures Pos(q, q[p].tid) == p
  {
  }

  /** The granted elements form a prefix of the queue: all readers, or one writer at the head. */
  lemma {:induction false} GrantedPrefix(q: Queue, g: nat, p: nat)
    requires GrantsOk(q) && p <= g < |q| && !q[g].isBlocked
    ensures !q[p].isBlocked
    ensures q[p].isReader || g == 0
    decreases g - p
  {
    if p < g {
      GrantedPrefix(q, g, p + 1);
    }
  }

  // ---------- the table ----------

  ghost predicate QueuesOk(tb: Table) {
    forall r :: 0 <= r < |tb.locks| ==> NoDup(tb.locks[r]) && GrantsOk(tb.locks[r])
  }

  /** Every queue element belongs to a token of its thread. */
  ghost predicate Covered(tb: Table) {
    forall r, p :: 0 <= r < |tb.locks| && 0 <= p < |tb.locks[r]| ==> CoveredAt(tb, r, p)
  }

  ghost predicate CoveredAt(tb: Table, r: nat, p: nat)
    requires r < |tb.locks| && p < |tb.locks[r]|
  {
    && tb.locks[r][p].tid < |tb.adj|
    && LockToken(tb.locks[r][p].tid, r) in tb.adj[tb.locks[r][p].tid]
  }

  ghost predicate TokenOk(tb: Table, t: nat, token: LockToken) {
    token.tid == t && Holds(tb, t, token.index)
  }

  /** Every token points at an element of its thread, one token a queue. */
  ghost predicate TokensOk(tb: Table) {
    && (forall t, k :: 0 <= t < |tb.adj| && 0 <= k < |tb.adj[t]| ==> TokenOk(tb, t, tb.adj[t][k]))
    && (forall t :: 0 <= t < |tb.adj| ==> DistinctIndexes(tb.adj[t]))
  }

  ghost predicate DistinctIndexes(tokens: seq<LockToken>) {
    forall a, b :: 0 <= a < b < |tokens| ==> tokens[a].index != tokens[b].index
  }

  ghost predicate WellFormed(tb: Table) {
    QueuesOk(tb) && Covered(tb) && TokensOk(tb)
  }

  ghost predicate Holds(tb: Table, t: nat, r: nat) {
    r < |tb.locks| && InQueue(tb.locks[r], t)
  }

  function ElementOf(tb: Table, t: nat, r: nat): LockElement
    requires r < |tb.locks| && InQueue(tb.locks[r], t)
  {
    tb.locks[r][Pos(tb.locks[r], t)]
  }

  ghost predicate HasGranted(tb: Table, t: nat, r: nat) {
    Holds(tb, t, r) && !ElementOf(tb, t, r).isBlocked
  }

  /** Each thread owns at most one reader element in the whole table. */
  ghost predicate OneReader(tb: Table) {
    forall t, r, r' ::
      Holds(tb, t, r) && Holds(tb, t, r') && ElementOf(tb, t, r).isReader && ElementOf(tb, t, r').isReader ==> r == r'
  }

  function EmptyTable(numWorkers: nat, numRecords: nat): Table {
    Table(seq(numRecords, i => []), seq(numWorkers, i => []))
  }

  // ---------- operations, as functions on the value of the table ----------

  /** `addLock` and the `push_back` on the thread's token list. */
  function AddLock(tb: Table, t: nat, r: nat, isReader: bool): Table
    requires t < |tb.adj| && r < |tb.locks|
  {
    Table(tb.locks[r := tb.locks[r] + [LockElement(t, isReader, true)]],
          tb.adj[t := tb.adj[t] + [LockToken(t, r)]])
  }

  function SetGranted(tb: Table, t: nat, r: nat): Table
    requires r < |tb.locks| && InQueue(tb.locks[r], t)
  {
    var q := tb.locks[r];
    var p := Pos(q, t);
    tb.(locks := tb.locks[r := q[p := q[p].(isBlocked := false)]])
  }

  /** `canEnter`: it also grants the element when it answers true. */
  function TryEnter(tb: Table, t: nat, r: nat): (res: (bool, Table))
    requires r < |tb.locks| && InQueue(tb.locks[r], t)
  {
    if CanEnter(tb.locks[r], Pos(tb.locks[r], t)) then (true, SetGranted(tb, t, r)) else (false, tb)
  }

  function UnlockAll(tb: Table, t: nat): Table
    requires t < |tb.adj|
  {
    Table(seq(|tb.locks|, r requires 0 <= r < |tb.locks| => Erase(tb.locks[r], t)), tb.adj[t := []])
  }

  function UpTo(n: nat): (s: set<nat>)
    ensures forall t: nat :: t in s <==> t < n
  {
    if n == 0 then {} else UpTo(n - 1) + {n - 1}
  }

  function Threads(tb: Table): set<nat> {
    UpTo(|tb.adj|)
  }

  /** The recursive search of `detectCycle`: the answer and the set `visit` it leaves behind. */
  function Detect(tb: Table, me: nat, x: nat, blocked: bool, visit: set<nat>): (res: (bool, set<nat>))
    requires WellFormed(tb) && x < |tb.adj| && x !in visit
    ensures visit <= res.1
    decreases Threads(tb) - visit, 0, 0
  {
    if x == me then (blocked, visit) else DetectFrom(tb, me, x, 0, blocked, visit + {x})
  }

  /** The loop of `detectCycle` over the tokens of `x`, from token `k` on. */
  function DetectFrom(tb: Table, me: nat, x: nat, k: nat, blocked: bool, visit: set<nat>): (res: (bool, set<nat>))
    requires WellFormed(tb) && x < |tb.adj| && k <= |tb.adj[x]|
    ensures visit <= res.1
    decreases Threads(tb) - visit, 1, |tb.adj[x]| - k
  {
    if k == |tb.adj[x]| then (false, visit) else
    var q := tb.locks[tb.adj[x][k].index];
    var p := Pos(q, x);
    if p == 0 || q[p-1].tid in visit then
      DetectFrom(tb, me, x, k + 1, blocked, visit)
    else
      assert CoveredAt(tb, tb.adj[x][k].index, p - 1);
      var sub := Detect(tb, me, q[p-1].tid, blocked || q[p].isBlocked, visit);
      if sub.0 then sub else DetectFrom(tb, me, x, k + 1, blocked, sub.1)
  }

  /** `hasCycle` for the token that thread `t` has just queued on record `r`. */
  function HasCycle(tb: Table, t: nat, r: nat): bool
    requires WellFormed(tb) && r < |tb.locks| && InQueue(tb.locks[r], t)
  {
    var q := tb.locks[r];
    var p := Pos(q, t);
    if CanEnter(q, p) then false else assert CoveredAt(tb, r, p - 1); Detect(tb, t, q[p-1].tid, false, {}).0
  }

  datatype LockResult = Acquired | DeadlockDetected | MustWait

  /** `rwlock` up to its waiting loop: queue the element, try to enter, and search for a cycle before waiting. */
  function RequestLock(tb: Table, t: nat, r: nat, isReader: bool): (res: (LockResult, Table))
    requires WellFormed(tb) && t < |tb.adj| && r < |tb.locks| && !Holds(tb, t, r)
  {
    AddLockKeeps(tb, t, r, isReader);
    AddLockElements(tb, t, r, isReader);
    var tb' := AddLock(tb, t, r, isReader);
    var entered := TryEnter(tb', t, r);
    if entered.0 then (Acquired, entered.1)
    else if HasCycle(tb', t, r) then (DeadlockDetected, tb')
    else (MustWait, tb')
  }

  // ---------- the operations keep the table well formed ----------

  /** The element of `u` in queue `s` is the same in both tables, or absent from both. */
  ghost predicate SameElement(tb: Table, tb': Table, u: nat, s: nat) {
    && (Holds(tb', u, s) <==> Holds(tb, u, s))
    && (Holds(tb, u, s) ==> ElementOf(tb', u, s) == ElementOf(tb, u, s))
  }

  lemma AppendPos(q: Queue, e: LockElement, u: nat)
    ensures Pos(q + [e], u) == if InQueue(q, u) then Pos(q, u) else if u == e.tid then |q| else |q| + 1
  {
    var p, p' := Pos(q, u), Pos(q + [e], u);
    assert forall i :: 0 <= i < |q| ==> (q + [e])[i] == q[i];
    if p < |q| {
      assert p' <= p && p <= p';
    } else {
      assert forall i :: 0 <= i < |q| ==> (q + [e])[i].tid != u;
      assert (q + [e])[|q|] == e;
      assert u == e.tid ==> p' <= |q|;
    }
  }

  lemma AppendFacts(q: Queue, e: LockElement)
    requires NoDup(q) && GrantsOk(q) && !InQueue(q, e.tid) && e.isBlocked
    ensures NoDup(q + [e]) && GrantsOk(q + [e])
  {
    var q' := q + [e];
    forall p: nat | p < |q| ensures q[p].tid != e.tid { PosIs(q, p); }
  }

  lemma AddLockElements(tb: Table, t: nat, r: nat, isReader: bool)
    requires QueuesOk(tb) && t < |tb.adj| && r < |tb.locks| && !Holds(tb, t, r)
    ensures var tb' := AddLock(tb, t, r, isReader);
      && QueuesOk(tb')
      && Holds(tb', t, r) && Pos(tb'.locks[r], t) == |tb.locks[r]|
        && ElementOf(tb', t, r) == LockElement(t, isReader, true)
      && (forall u, s :: u != t || s != r ==> SameElement(tb, tb', u, s))
  {
    var e := LockElement(t, isReader, true);
    var tb' := AddLock(tb, t, r, isReader);
    AppendFacts(tb.locks[r], e);
    AppendPos(tb.locks[r], e, t);
    forall u: nat, s: nat | u != t || s != r ensures SameElement(tb, tb', u, s) {
      if s == r { AppendPos(tb.locks[r], e, u); }
    }
  }

  lemma AddLockCovered(tb: Table, t: nat, r: nat, isReader: bool)
    requires Covered(tb) && t < |tb.adj| && r < |tb.locks|
    ensures Covered(AddLock(tb, t, r, isReader))
  {
    var tb' := AddLock(tb, t, r, isReader);
    forall s, p | 0 <= s < |tb'.locks| && 0 <= p < |tb'.locks[s]|
      ensures CoveredAt(tb', s, p)
    {
      if s == r && p == |tb.locks[r]| {
        assert tb'.adj[t][|tb.adj[t]|] == LockToken(t, r);
      } else {
        var u := tb.locks[s][p].tid;
        assert tb'.locks[s][p] == tb.locks[s][p];
        assert CoveredAt(tb, s, p);
        assert u == t ==> tb'.adj[t] == tb.adj[t] + [LockToken(t, r)];
      }
    }
  }

  lemma AddLockTokens(tb: Table, t: nat, r: nat, isReader: bool)
    requires QueuesOk(tb) && TokensOk(tb) && t < |tb.adj| && r < |tb.locks| && !Holds(tb, t, r)
    ensures TokensOk(AddLock(tb, t, r, isReader))
  {
    var tb' := AddLock(tb, t, r, isReader);
    AddLockElements(tb, t, r, isReader);
    forall u, k | 0 <= u < |tb'.adj| && 0 <= k < |tb'.adj[u]|
      ensures TokenOk(tb', u, tb'.adj[u][k])
    {
      if !(u == t && k == |tb.adj[t]|) {
        assert TokenOk(tb, u, tb.adj[u][k]);
        assert SameElement(tb, tb', u, tb.adj[u][k].index);
      }
    }
    forall a, b | 0 <= a < b < |tb'.adj[t]|
      ensures tb'.adj[t][a].index != tb'.adj[t][b].index
    {
      assert TokenOk(tb, t, tb.adj[t][a]);
      assert DistinctIndexes(tb.adj[t]);
    }
  }

  lemma AddLockKeeps(tb: Table, t: nat, r: nat, isReader: bool)
    requires WellFormed(tb) && t < |tb.adj| && r < |tb.locks| && !Holds(tb, t, r)
    ensures WellFormed(AddLock(tb, t, r, isReader))
  {
    AddLockElements(tb, t, r, isReader);
    AddLockCovered(tb, t, r, isReader);
    AddLockTokens(tb, t, r, isReader);
  }

  lemma GrantPos(q: Queue, at: nat, u: nat)
    requires at < |q|
    ensures Pos(q[at := q[at].(isBlocked := false)], u) == Pos(q, u)
  {
    var q' := q[at := q[at].(isBlocked := false)];
    assert forall p :: 0 <= p < |q| ==> q'[p].tid == q[p].tid;
    if InQueue(q, u) { assert q'[Pos(q, u)].tid == u; }
    if InQueue(q', u) { assert q[Pos(q', u)].tid == u; }
  }

  lemma GrantFacts(q: Queue, at: nat)
    requires NoDup(q) && GrantsOk(q) && at < |q| && CanEnter(q, at)
    ensures var q' := q[at := q[at].(isBlocked := false)];
      NoDup(q') && GrantsOk(q') && forall u :: Pos(q', u) == Pos(q, u)
  {
    forall u: nat ensures Pos(q[at := q[at].(isBlocked := false)], u) == Pos(q, u) { GrantPos(q, at, u); }
  }

  lemma SetGrantedElements(tb: Table, t: nat, r: nat)
    requires QueuesOk(tb) && Holds(tb, t, r) && CanEnter(tb.locks[r], Pos(tb.locks[r], t))
    ensures var tb' := SetGranted(tb, t, r);
      && QueuesOk(tb')
      && Holds(tb', t, r) && ElementOf(tb', t, r) == ElementOf(tb, t, r).(isBlocked := false)
      && (forall u, s :: u != t || s != r ==> SameElement(tb, tb', u, s))
  {
    var tb' := SetGranted(tb, t, r);
    var q := tb.locks[r];
    GrantFacts(q, Pos(q, t));
    forall u, s | u != t || s != r ensures SameElement(tb, tb', u, s) {
      if s == r && InQueue(q, u) { assert Pos(tb'.locks[r], u) == Pos(q, u) != Pos(q, t); }
    }
  }

  lemma SetGrantedKeeps(tb: Table, t: nat, r: nat)
    requires WellFormed(tb) && Holds(tb, t, r) && CanEnter(tb.locks[r], Pos(tb.locks[r], t))
    ensures WellFormed(SetGranted(tb, t, r))
  {
    var tb' := SetGranted(tb, t, r);
    SetGrantedElements(tb, t, r);
    forall s, p | 0 <= s < |tb'.locks| && 0 <= p < |tb'.locks[s]|
      ensures CoveredAt(tb', s, p)
    {
      assert CoveredAt(tb, s, p) && tb'.locks[s][p].tid == tb.locks[s][p].tid;
    }
    forall u, k | 0 <= u < |tb'.adj| && 0 <= k < |tb'.adj[u]|
      ensures TokenOk(tb', u, tb'.adj[u][k])
    {
      assert TokenOk(tb, u, tb.adj[u][k]);
      assert u != t || tb.adj[u][k].index != r ==> SameElement(tb, tb', u, tb.adj[u][k].index);
    }
  }

  /** Positions in `Erase(q, t)` are positions in `q`, shifted past the erased element. */
  function Shift(q: Queue, t: nat, p: nat): nat {
    if p < Pos(q, t) then p else p + 1
  }

  lemma EraseAt(q: Queue, t: nat)
    requires InQueue(q, t)
    ensures |Erase(q, t)| == |q| - 1
    ensures forall p :: 0 <= p < |Erase(q, t)| ==> Erase(q, t)[p] == q[Shift(q, t, p)]
  {
  }

  lemma EraseFacts(q: Queue, t: nat)
    requires NoDup(q)
    ensures NoDup(Erase(q, t)) && !InQueue(Erase(q, t), t)
    ensures forall u :: u != t ==> (InQueue(Erase(q, t), u) <==> InQueue(q, u))
    ensures forall u :: u != t && InQueue(q, u)
              ==> InQueue(Erase(q, t), u) && Erase(q, t)[Pos(Erase(q, t), u)] == q[Pos(q, u)]
  {
    var q' := Erase(q, t);
    if InQueue(q, t) {
      EraseAt(q, t);
      assert NoDup(q');
      if InQueue(q', t) { PosIs(q, Shift(q, t, Pos(q', t))); }
      forall u | u != t
        ensures InQueue(q', u) <==> InQueue(q, u)
        ensures InQueue(q, u) ==> q'[Pos(q', u)] == q[Pos(q, u)]
      {
        if InQueue(q, u) {
          var p := Pos(q, u);
          var p' := if p < Pos(q, t) then p else p - 1;
          assert q'[p'] == q[p];
          PosIs(q', p');
        }
        if InQueue(q', u) { PosIs(q, Shift(q, t, Pos(q', u))); }
      }
    }
  }

  lemma EraseGrants(q: Queue, t: nat)
    requires GrantsOk(q)
    ensures GrantsOk(Erase(q, t))
  {
    var q' := Erase(q, t);
    if InQueue(q, t) {
      EraseAt(q, t);
      forall p | 0 < p < |q'| && !q'[p].isBlocked
        ensures q'[p].isReader && q'[p-1].isReader && !q'[p-1].isBlocked
      {
        GrantedPrefix(q, Shift(q, t, p), Shift(q, t, p - 1));
        GrantedPrefix(q, Shift(q, t, p), Shift(q, t, p));
      }
    }
  }

  /** `UnlockAll` removes the elements of `t` and no other. */
  lemma UnlockAllElements(tb: Table, t: nat)
    requires QueuesOk(tb) && t < |tb.adj|
    ensures var tb' := UnlockAll(tb, t);
      && QueuesOk(tb')
      && (forall s :: !Holds(tb', t, s))
      && (forall u, s :: u != t ==> SameElement(tb, tb', u, s))
  {
    var tb' := UnlockAll(tb, t);
    forall r | 0 <= r < |tb.locks|
      ensures NoDup(tb'.locks[r]) && GrantsOk(tb'.locks[r])
    {
      EraseFacts(tb.locks[r], t);
      EraseGrants(tb.locks[r], t);
    }
    forall s: nat ensures !Holds(tb', t, s) {
      if s < |tb.locks| { EraseFacts(tb.locks[s], t); }
    }
    forall u: nat, s: nat | u != t ensures SameElement(tb, tb', u, s) {
      if s < |tb.locks| { EraseFacts(tb.locks[s], t); }
    }
  }

  lemma UnlockAllKeeps(tb: Table, t: nat)
    requires WellFormed(tb) && t < |tb.adj|
    ensures WellFormed(UnlockAll(tb, t))
  {
    var tb' := UnlockAll(tb, t);
    UnlockAllElements(tb, t);
    forall s, p | 0 <= s < |tb'.locks| && 0 <= p < |tb'.locks[s]|
      ensures CoveredAt(tb', s, p)
    {
      var u := tb'.locks[s][p].tid;
      PosIs(tb'.locks[s], p);
      assert Holds(tb', u, s);
      assert u != t && SameElement(tb, tb', u, s);
      var p0 := Pos(tb.locks[s], u);
      assert CoveredAt(tb, s, p0);
    }
    forall u, k | 0 <= u < |tb'.adj| && 0 <= k < |tb'.adj[u]|
      ensures TokenOk(tb', u, tb'.adj[u][k])
    {
      assert u != t && TokenOk(tb, u, tb.adj[u][k]);
      assert SameElement(tb, tb', u, tb.adj[u][k].index);
    }
  }

  /** Whatever its answer, a lock request leaves a well-formed table that differs by the one new element. */
  lemma RequestLockElements(tb: Table, t: nat, r: nat, isReader: bool)
    requires WellFormed(tb) && t < |tb.adj| && r < |tb.locks| && !Holds(tb, t, r)
    ensures var res := RequestLock(tb, t, r, isReader);
      && WellFormed(res.1) && |res.1.adj| == |tb.adj| && |res.1.locks| == |tb.locks|
      && Holds(res.1, t, r) && ElementOf(res.1, t, r) == LockElement(t, isReader, !res.0.Acquired?)
      && (forall u, s :: u != t || s != r ==> SameElement(tb, res.1, u, s))
  {
    var tb' := AddLock(tb, t, r, isReader);
    AddLockKeeps(tb, t, r, isReader);
    AddLockElements(tb, t, r, isReader);
    if CanEnter(tb'.locks[r], Pos(tb'.locks[r], t)) {
      var tb2 := SetGranted(tb', t, r);
      SetGrantedKeeps(tb', t, r);
      SetGrantedElements(tb', t, r);
      forall u: nat, s: nat | u != t || s != r ensures SameElement(tb, tb2, u, s) {
        assert SameElement(tb, tb', u, s) && SameElement(tb', tb2, u, s);
      }
    }
  }

  /** Asking again after `canEnter` gives the same answer and the same table. */
  lemma TryEnterTwice(tb: Table, t: nat, r: nat)
    requires r < |tb.locks| && InQueue(tb.locks[r], t) && NoDup(tb.locks[r]) && GrantsOk(tb.locks[r])
    ensures var tb' := TryEnter(tb, t, r).1;
      InQueue(tb'.locks[r], t) && TryEnter(tb', t, r) == TryEnter(tb, t, r)
  {
    var q := tb.locks[r];
    if CanEnter(q, Pos(q, t)) {
      GrantFacts(q, Pos(q, t));
      var tb' := SetGranted(tb, t, r);
      var q' := q[Pos(q, t) := q[Pos(q, t)].(isBlocked := false)];
      assert tb'.locks[r] == q' && Pos(q', t) == Pos(q, t);
      assert q'[Pos(q, t) := q'[Pos(q, t)].(isBlocked := false)] == q';
      assert tb'.locks[r := q'] == tb'.locks;
    }
  }

  ghost predicate HasToken(tokens: seq<LockToken>, r: nat) {
    exists i :: 0 <= i < |tokens| && tokens[i].index == r
  }

  /** The queues after erasing the elements of `t` that `tokens` point at. */
  ghost predicate ErasedFor(locks: seq<Queue>, locks': seq<Queue>, tokens: seq<LockToken>, t: nat) {
    && |locks'| == |locks|
    && forall r :: 0 <= r < |locks| ==> locks'[r] == if HasToken(tokens, r) then Erase(locks[r], t) else locks[r]
  }

  lemma EraseNext(locks: seq<Queue>, locks': seq<Queue>, tokens: seq<LockToken>, t: nat, token: LockToken)
    requires ErasedFor(locks, locks', tokens, t) && token.index < |locks| && DistinctIndexes(tokens + [token])
    ensures locks'[token.index] == locks[token.index]
    ensures ErasedFor(locks, locks'[token.index := Erase(locks'[token.index], t)], tokens + [token], t)
  {
    var next := tokens + [token];
    forall i | 0 <= i < |tokens| ensures tokens[i].index != token.index {
      assert next[i] == tokens[i] && next[|tokens|] == token;
    }
    forall r: nat ensures HasToken(next, r) <==> HasToken(tokens, r) || r == token.index {
      if HasToken(tokens, r) {
        var i :| 0 <= i < |tokens| && tokens[i].index == r;
        assert next[i].index == r;
      }
      assert next[|tokens|] == token;
    }
  }

  lemma EraseUpTo(tb: Table, locks': seq<Queue>, t: nat, k: nat)
    requires TokensOk(tb) && t < |tb.adj| && k < |tb.adj[t]| && ErasedFor(tb.locks, locks', tb.adj[t][..k], t)
    ensures var token := tb.adj[t][k];
      && token.tid == t && token.index < |tb.locks| && InQueue(tb.locks[token.index], t)
      && locks'[token.index] == tb.locks[token.index]
      && ErasedFor(tb.locks, locks'[token.index := Erase(locks'[token.index], t)], tb.adj[t][..k+1], t)
  {
    var tokens := tb.adj[t];
    assert TokenOk(tb, t, tokens[k]);
    assert tokens[..k+1] == tokens[..k] + [tokens[k]];
    assert DistinctIndexes(tokens[..k+1]);
    EraseNext(tb.locks, locks', tokens[..k], t, tokens[k]);
  }

  lemma EraseAllTokens(tb: Table, locks': seq<Queue>, t: nat)
    requires Covered(tb) && t < |tb.adj| && ErasedFor(tb.locks, locks', tb.adj[t], t)
    ensures Table(locks', tb.adj[t := []]) == UnlockAll(tb, t)
  {
    forall r | 0 <= r < |tb.locks| ensures locks'[r] == Erase(tb.locks[r], t) {
      if InQueue(tb.locks[r], t) { assert CoveredAt(tb, r, Pos(tb.locks[r], t)); }
    }
  }
}
