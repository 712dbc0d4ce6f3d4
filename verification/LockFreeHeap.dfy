/**
 The nodes of the lock-free list: what the three kinds of successful compare-and-swap do to them, and what every visited
 node has been in the past.

 A node's `next` word is a reference and a mark; marking a node's word deletes the node. Nodes are numbered in the order
 in which they were published and are never freed.
 */
module LockFreeHeap {

  datatype Ref = Null | To(id: nat)

  datatype Node = Node(key: int, next: Ref, marked: bool)

  type Heap = seq<Node>

  /** The operations of all the lists. */
  datatype Op = Add(key: int) | Remove(key: int) | Contain(key: int)

  const HEAD: nat := 0
  const TAIL: nat := 1
  const MIN_KEY: int := -0x8000_0000
  const MAX_KEY: int := 0x7fff_ffff

  function InitialHeap(): Heap {
    [Node(MIN_KEY, To(TAIL), false), Node(MAX_KEY, Null, false)]
  }

  /** The keys strictly increase along every reference, so every chain of references ends at the tail. */
  ghost predicate Linked(h: Heap) {
    && |h| >= 2
    && h[HEAD].key == MIN_KEY && h[TAIL] == Node(MAX_KEY, Null, false) && !h[HEAD].marked
    && forall n :: 0 <= n < |h| && n != TAIL ==> LinkOk(h, n)
  }

  ghost predicate LinkOk(h: Heap, n: nat)
    requires n < |h|
  {
    h[n].next.To? && h[n].next.id < |h| && h[n].key < h[h[n].next.id].key <= MAX_KEY
      && (n != HEAD ==> MIN_KEY < h[n].key)
  }

  /** How far it is from node `n` to the tail, by keys. */
  function ToTail(h: Heap, n: nat): nat {
    if n < |h| && h[n].key <= MAX_KEY then MAX_KEY - h[n].key else 0
  }

  lemma ToNext(h: Heap, n: nat)
    requires Linked(h) && n < |h| && n != TAIL
    ensures h[n].next.To? && h[n].next.id < |h| && ToTail(h, h[n].next.id) < ToTail(h, n) <= MAX_KEY - MIN_KEY
  {
    assert LinkOk(h, n);
  }

  /** Following references from `a` leads to `b`. */
  ghost predicate Reach(h: Heap, a: nat, b: nat)
    requires Linked(h) && a < |h|
    decreases MAX_KEY - h[a].key
  {
    a == b || (a != TAIL && assert LinkOk(h, a); Reach(h, h[a].next.id, b))
  }

  ghost predicate HeapOk(h: Heap) {
    && Linked(h)
    && forall n :: 0 <= n < |h| && !h[n].marked ==> Reach(h, HEAD, n)
  }

  /** The set the list stands for: the keys of the unmarked nodes between the sentinels. */
  ghost predicate Contains(h: Heap, key: int) {
    exists n :: Holder(h, n, key)
  }

  ghost predicate Holder(h: Heap, n: int, key: int) {
    2 <= n < |h| && !h[n].marked && h[n].key == key
  }

  // ---------- reachability ----------

  lemma {:induction false} ReachKey(h: Heap, a: nat, b: nat)
    requires Linked(h) && a < |h| && Reach(h, a, b)
    ensures b < |h| && h[a].key <= h[b].key && (h[a].key == h[b].key ==> a == b)
    decreases MAX_KEY - h[a].key
  {
    if a != b { assert LinkOk(h, a); ReachKey(h, h[a].next.id, b); }
  }

  lemma {:induction false} ReachTail(h: Heap, a: nat)
    requires Linked(h) && a < |h|
    ensures Reach(h, a, TAIL)
    decreases MAX_KEY - h[a].key
  {
    if a != TAIL { assert LinkOk(h, a); ReachTail(h, h[a].next.id); }
  }

  lemma {:induction false} ReachNext(h: Heap, a: nat, b: nat)
    requires Linked(h) && a < |h| && Reach(h, a, b) && b != TAIL
    ensures b < |h| && h[b].next.To? && Reach(h, a, h[b].next.id)
    decreases MAX_KEY - h[a].key
  {
    assert LinkOk(h, a);
    if a != b { ReachNext(h, h[a].next.id, b); } else { assert Reach(h, h[b].next.id, h[b].next.id); }
  }

  /** Of two nodes on one chain, one is behind the other. */
  lemma {:induction false} ReachLinear(h: Heap, a: nat, b: nat, c: nat)
    requires Linked(h) && a < |h| && Reach(h, a, b) && Reach(h, a, c)
    ensures b < |h| && c < |h| && (Reach(h, b, c) || Reach(h, c, b))
    decreases MAX_KEY - h[a].key
  {
    ReachKey(h, a, b);
    ReachKey(h, a, c);
    if a != b && a != c { assert LinkOk(h, a); ReachLinear(h, h[a].next.id, b, c); }
  }

  /** No key of the set lies strictly between a reachable node and its successor. */
  lemma GapIsEmpty(h: Heap, p: nat, key: int)
    requires HeapOk(h) && p < |h| && Reach(h, HEAD, p) && p != TAIL
    requires LinkOk(h, p) && h[p].key < key < h[h[p].next.id].key
    ensures !Contains(h, key)
  {
    if n :| Holder(h, n, key) {
      ReachLinear(h, HEAD, p, n);
      if Reach(h, n, p) { ReachKey(h, n, p); }
      ReachKey(h, h[p].next.id, n);
    }
  }

  /** A reachable marked node rules its key out of the set. */
  lemma MarkedIsAbsent(h: Heap, c: nat)
    requires HeapOk(h) && c < |h| && Reach(h, HEAD, c) && h[c].marked
    ensures !Contains(h, h[c].key)
  {
    if n :| Holder(h, n, h[c].key) {
      ReachLinear(h, HEAD, c, n);
      if Reach(h, n, c) { ReachKey(h, n, c); } else { ReachKey(h, c, n); }
    }
  }

  // ---------- the successful compare-and-swaps ----------

  ghost predicate Cas(h: Heap, p: nat, c: Ref) {
    p < |h| && h[p].next == c && !h[p].marked
  }

  function InsertNode(h: Heap, p: nat, c: nat, key: int): Heap
    requires p < |h|
  {
    h[p := h[p].(next := To(|h|))] + [Node(key, To(c), false)]
  }

  function MarkNode(h: Heap, c: nat): Heap
    requires c < |h|
  {
    h[c := h[c].(marked := true)]
  }

  function UnlinkNode(h: Heap, p: nat, c: nat): Heap
    requires p < |h| && c < |h|
  {
    h[p := h[p].(next := h[c].next)]
  }

  ghost predicate CanInsert(h: Heap, p: nat, c: nat, key: int) {
    Cas(h, p, To(c)) && p != TAIL && c < |h| && h[p].key < key < h[c].key
  }

  ghost predicate CanMark(h: Heap, c: nat) {
    2 <= c < |h| && !h[c].marked
  }

  ghost predicate CanUnlink(h: Heap, p: nat, c: nat) {
    Cas(h, p, To(c)) && p != TAIL && c < |h| && c != TAIL && h[c].marked
  }

  datatype Change = Inserted(p: nat, c: nat, key: int) | Marked(c: nat) | Unlinked(p: nat, c: nat)

  ghost predicate ChangeStep(h: Heap, h': Heap, change: Change) {
    match change
    case Inserted(p, c, key) => CanInsert(h, p, c, key) && h' == InsertNode(h, p, c, key)
    case Marked(c) => CanMark(h, c) && h' == MarkNode(h, c)
    case Unlinked(p, c) => CanUnlink(h, p, c) && h' == UnlinkNode(h, p, c)
  }

  ghost predicate HeapStep(h: Heap, h': Heap) {
    exists change :: ChangeStep(h, h', change)
  }

  lemma InsertLinked(h: Heap, p: nat, c: nat, key: int)
    requires Linked(h) && CanInsert(h, p, c, key)
    ensures Linked(InsertNode(h, p, c, key))
  {
    var h' := InsertNode(h, p, c, key);
    assert LinkOk(h, p);
    forall n | 0 <= n < |h'| && n != TAIL ensures LinkOk(h', n) {
      if n < |h| { assert LinkOk(h, n); assert h'[h[n].next.id].key == h[h[n].next.id].key; }
      if n == |h| { assert h'[c].key == h[c].key; }
    }
  }

  lemma {:induction false} InsertReach(h: Heap, p: nat, c: nat, key: int, a: nat, n: nat)
    requires Linked(h) && CanInsert(h, p, c, key) && Linked(InsertNode(h, p, c, key)) && a < |h| && Reach(h, a, n)
    ensures Reach(InsertNode(h, p, c, key), a, n)
    decreases MAX_KEY - h[a].key
  {
    var h' := InsertNode(h, p, c, key);
    if a != n {
      assert LinkOk(h, a) && LinkOk(h', a);
      InsertReach(h, p, c, key, h[a].next.id, n);
      if a == p { assert Reach(h', |h|, n); }
    }
  }

  lemma InsertOk(h: Heap, p: nat, c: nat, key: int)
    requires HeapOk(h) && CanInsert(h, p, c, key)
    ensures HeapOk(InsertNode(h, p, c, key))
    ensures !Contains(h, key)
    ensures forall k :: Contains(InsertNode(h, p, c, key), k) <==> Contains(h, k) || k == key
  {
    var h' := InsertNode(h, p, c, key);
    InsertLinked(h, p, c, key);
    assert LinkOk(h, p) && LinkOk(h', p);
    GapIsEmpty(h, p, key);
    forall n | 0 <= n < |h'| && !h'[n].marked ensures Reach(h', HEAD, n) {
      if n < |h| {
        InsertReach(h, p, c, key, HEAD, n);
      } else {
        InsertReach(h, p, c, key, HEAD, p);
        ReachNext(h', HEAD, p);
      }
    }
    InsertContains(h, p, c, key);
  }

  lemma InsertContains(h: Heap, p: nat, c: nat, key: int)
    requires Linked(h) && CanInsert(h, p, c, key)
    ensures forall k :: Contains(InsertNode(h, p, c, key), k) <==> Contains(h, k) || k == key
  {
    var h' := InsertNode(h, p, c, key);
    assert forall n, k :: n < |h| ==> (Holder(h', n, k) <==> Holder(h, n, k));
    assert Holder(h', |h|, key);
    forall k ensures Contains(h', k) <==> Contains(h, k) || k == key {
      if n :| Holder(h, n, k) { assert Holder(h', n, k); }
      if n :| Holder(h', n, k) && n < |h| { assert Holder(h, n, k); }
    }
  }

  lemma {:induction false} MarkReach(h: Heap, c: nat, a: nat, n: nat)
    requires Linked(h) && c < |h| && Linked(MarkNode(h, c)) && a < |h| && Reach(h, a, n)
    ensures Reach(MarkNode(h, c), a, n)
    decreases MAX_KEY - h[a].key
  {
    if a != n {
      assert LinkOk(h, a) && LinkOk(MarkNode(h, c), a);
      MarkReach(h, c, h[a].next.id, n);
    }
  }

  lemma MarkOk(h: Heap, c: nat)
    requires HeapOk(h) && CanMark(h, c)
    ensures HeapOk(MarkNode(h, c)) && Reach(MarkNode(h, c), HEAD, c)
    ensures Contains(h, h[c].key)
    ensures forall k :: Contains(MarkNode(h, c), k) <==> Contains(h, k) && k != h[c].key
  {
    var h' := MarkNode(h, c);
    forall n | 0 <= n < |h'| && n != TAIL ensures LinkOk(h', n) { assert LinkOk(h, n); }
    assert Linked(h');
    forall n | 0 <= n < |h'| && !h'[n].marked ensures Reach(h', HEAD, n) { MarkReach(h, c, HEAD, n); }
    MarkReach(h, c, HEAD, c);
    MarkedIsAbsent(h', c);
    assert Holder(h, c, h[c].key);
    forall k ensures Contains(h', k) <==> Contains(h, k) && k != h[c].key {
      if n :| Holder(h, n, k) && k != h[c].key { assert Holder(h', n, k); }
      if n :| Holder(h', n, k) { assert Holder(h, n, k); }
    }
  }

  lemma {:induction false} UnlinkReach(h: Heap, p: nat, c: nat, a: nat, n: nat)
    requires Linked(h) && CanUnlink(h, p, c) && Linked(UnlinkNode(h, p, c)) && a < |h| && Reach(h, a, n) && n != c
    ensures Reach(UnlinkNode(h, p, c), a, n)
    decreases MAX_KEY - h[a].key
  {
    var h' := UnlinkNode(h, p, c);
    if a != n {
      assert LinkOk(h, a) && LinkOk(h', a) && LinkOk(h, c);
      if a == p {
        UnlinkReach(h, p, c, h[c].next.id, n);
      } else {
        UnlinkReach(h, p, c, h[a].next.id, n);
      }
    }
  }

  lemma UnlinkOk(h: Heap, p: nat, c: nat)
    requires HeapOk(h) && CanUnlink(h, p, c)
    ensures HeapOk(UnlinkNode(h, p, c))
    ensures forall k :: Contains(UnlinkNode(h, p, c), k) <==> Contains(h, k)
  {
    var h' := UnlinkNode(h, p, c);
    assert LinkOk(h, c) && LinkOk(h, p);
    forall n | 0 <= n < |h'| && n != TAIL ensures LinkOk(h', n) { assert LinkOk(h, n); }
    forall n | 0 <= n < |h'| && !h'[n].marked ensures Reach(h', HEAD, n) { UnlinkReach(h, p, c, HEAD, n); }
    assert forall n, k :: Holder(h', n, k) <==> Holder(h, n, k);
  }

  lemma HeapStepOk(h: Heap, h': Heap)
    requires HeapOk(h) && HeapStep(h, h')
    ensures HeapOk(h')
  {
    var change :| ChangeStep(h, h', change);
    match change
    case Inserted(p, c, key) => InsertOk(h, p, c, key);
    case Marked(c) => MarkOk(h, c);
    case Unlinked(p, c) => UnlinkOk(h, p, c);
  }

  // ---------- histories ----------

  /** The heaps of a run, from the initial one, one successful compare-and-swap apart. */
  ghost predicate History(hist: seq<Heap>) {
    && |hist| > 0 && hist[0] == InitialHeap()
    && forall a :: 0 <= a < |hist| - 1 ==> StepAt(hist, a)
  }

  ghost predicate StepAt(hist: seq<Heap>, a: nat)
    requires a + 1 < |hist|
  {
    HeapStep(hist[a], hist[a+1])
  }

  lemma InitialOk()
    ensures HeapOk(InitialHeap())
    ensures forall k :: !Contains(InitialHeap(), k)
    ensures InitialHeap()[HEAD].key == -2147483648 && InitialHeap()[TAIL].key == 2147483647
  {
    var h := InitialHeap();
    assert LinkOk(h, HEAD);
    assert Linked(h);
    assert Reach(h, TAIL, TAIL);
  }

  lemma {:induction false} HeapAtOk(hist: seq<Heap>, a: nat)
    requires History(hist) && a < |hist|
    ensures HeapOk(hist[a])
  {
    if a == 0 {
      InitialOk();
    } else {
      HeapAtOk(hist, a - 1);
      assert StepAt(hist, a - 1);
      HeapStepOk(hist[a-1], hist[a]);
    }
  }

  /** Nodes stay, keys stay, and a marked node's word never changes again. */
  ghost predicate Frozen(h: Heap, h': Heap, n: nat) {
    n < |h| ==> n < |h'| && h'[n].key == h[n].key && (h[n].marked ==> h'[n] == h[n])
  }

  lemma HeapStepFrozen(h: Heap, h': Heap, n: nat)
    requires HeapStep(h, h')
    ensures Frozen(h, h', n)
    ensures n < |h| && !h[n].marked && h'[n].marked ==> CanMark(h, n) && h' == MarkNode(h, n)
  {
    var change :| ChangeStep(h, h', change);
  }

  lemma {:induction false} StaysFrozen(hist: seq<Heap>, a: nat, b: nat, n: nat)
    requires History(hist) && a <= b < |hist|
    ensures Frozen(hist[a], hist[b], n)
  {
    if a < b {
      StaysFrozen(hist, a, b - 1, n);
      assert StepAt(hist, b - 1);
      HeapStepFrozen(hist[b-1], hist[b], n);
    }
  }

  /** Between an instant at which a node was unmarked and one at which it is marked lies the instant right after the
      mark. */
  lemma {:induction false} MarkInstant(hist: seq<Heap>, a: nat, b: nat, n: nat) returns (v: nat)
    requires History(hist) && a <= b < |hist| && n < |hist[a]| && n < |hist[b]| && !hist[a][n].marked
    requires hist[b][n].marked
    ensures a < v <= b && n < |hist[v]| && hist[v][n] == hist[b][n]
    ensures HeapOk(hist[v]) && Reach(hist[v], HEAD, n)
  {
    assert StepAt(hist, b - 1);
    StaysFrozen(hist, a, b - 1, n);
    HeapStepFrozen(hist[b-1], hist[b], n);
    if hist[b-1][n].marked {
      v := MarkInstant(hist, a, b - 1, n);
    } else {
      v := b;
      HeapAtOk(hist, b - 1);
      MarkOk(hist[b-1], n);
    }
  }

  /** Hindsight: a node that was reachable at an instant was, at that instant or later, both reachable and linked to
      whatever it is linked to now. */
  lemma Hindsight(hist: seq<Heap>, a: nat, n: nat) returns (v: nat)
    requires History(hist) && a < |hist| && HeapOk(hist[a]) && n < |hist[a]| && Reach(hist[a], HEAD, n)
    ensures a <= v < |hist| && n < |hist[v]| && n < |hist[|hist|-1]|
    ensures HeapOk(hist[v]) && Reach(hist[v], HEAD, n)
    ensures hist[v][n] == hist[|hist|-1][n]
  {
    var now := |hist| - 1;
    StaysFrozen(hist, a, now, n);
    HeapAtOk(hist, now);
    if !hist[now][n].marked {
      v := now;
    } else if hist[a][n].marked {
      v := a;
    } else {
      v := MarkInstant(hist, a, now, n);
    }
  }
}
