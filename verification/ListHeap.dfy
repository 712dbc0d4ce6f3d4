/**
 The nodes of the two lists that are changed under locks, the optimistic and the hand-over-hand one. They are the
 nodes of `LockFreeHeap` with the marks unused: a node is deleted by unlinking it, and the set is what can be reached.
 Nodes are numbered in the order in which they were linked, and a number is never used again.
 */
module ListHeap {
  import opened LockFreeHeap

  ghost predicate ListOk(h: Heap) {
    Linked(h) && forall n :: 0 <= n < |h| ==> !h[n].marked
  }

  ghost predicate Live(h: Heap, n: nat)
    requires Linked(h)
  {
    n < |h| && Reach(h, HEAD, n)
  }

  /** The set the list stands for. */
  ghost predicate Member(h: Heap, key: int)
    requires Linked(h)
  {
    exists n: nat :: Carrier(h, n, key)
  }

  ghost predicate Carrier(h: Heap, n: nat, key: int)
    requires Linked(h)
  {
    n != HEAD && n != TAIL && Live(h, n) && h[n].key == key
  }

  // ---------- the two edits ----------

  datatype Edit = Added(p: nat, c: nat, key: int) | Removed(p: nat, c: nat)

  ghost predicate CanEdit(h: Heap, edit: Edit)
    requires Linked(h)
  {
    match edit
    case Added(p, c, key) => Live(h, p) && CanInsert(h, p, c, key)
    case Removed(p, c) => Live(h, p) && p != TAIL && c < |h| && c != TAIL && h[p].next == To(c)
  }

  function Edited(h: Heap, edit: Edit): Heap
    requires edit.p < |h| && edit.c < |h|
  {
    match edit
    case Added(p, c, key) => InsertNode(h, p, c, key)
    case Removed(p, c) => UnlinkNode(h, p, c)
  }

  ghost predicate Writes(edit: Edit, n: nat) {
    n == edit.p || (edit.Removed? && n == edit.c)
  }

  lemma EditedOk(h: Heap, edit: Edit)
    requires ListOk(h) && CanEdit(h, edit)
    ensures edit.c < |h| && ListOk(Edited(h, edit))
  {
    match edit
    case Added(p, c, key) => InsertLinked(h, p, c, key);
    case Removed(p, c) =>
      var h' := UnlinkNode(h, p, c);
      assert LinkOk(h, p) && LinkOk(h, c);
      forall n | 0 <= n < |h'| && n != TAIL ensures LinkOk(h', n) { assert LinkOk(h, n); }
  }

  lemma {:induction false} ReachAdded(h: Heap, p: nat, c: nat, key: int, a: nat, n: nat)
    requires Linked(h) && CanInsert(h, p, c, key) && Linked(InsertNode(h, p, c, key)) && a < |h| && n < |h|
    ensures Reach(InsertNode(h, p, c, key), a, n) <==> Reach(h, a, n)
    decreases MAX_KEY - h[a].key
  {
    var h' := InsertNode(h, p, c, key);
    if a != n && a != TAIL {
      assert LinkOk(h, a) && LinkOk(h', a);
      ReachAdded(h, p, c, key, h[a].next.id, n);
      assert h'[a].next == if a == p then To(|h|) else h[a].next;
      if a == p { assert Reach(h', |h|, n) == Reach(h', c, n); }
    }
  }

  lemma {:induction false} ReachRemoved(h: Heap, p: nat, c: nat, a: nat, n: nat)
    requires Linked(h) && CanEdit(h, Removed(p, c)) && Linked(UnlinkNode(h, p, c)) && a < |h|
    ensures Reach(UnlinkNode(h, p, c), a, n) ==> Reach(h, a, n)
    ensures n != c && Reach(h, a, n) ==> Reach(UnlinkNode(h, p, c), a, n)
    decreases MAX_KEY - h[a].key
  {
    var h' := UnlinkNode(h, p, c);
    if a != n && a != TAIL {
      assert LinkOk(h, a) && LinkOk(h', a) && LinkOk(h, c);
      ReachRemoved(h, p, c, h'[a].next.id, n);
      if a == p { assert Reach(h, c, n) == (c == n || Reach(h, h[c].next.id, n)); }
    }
  }

  /** Adding puts the new node on the list and keeps the others as they are; removing takes `c` off and no other. */
  lemma EditedLive(h: Heap, edit: Edit, n: nat)
    requires ListOk(h) && CanEdit(h, edit) && ListOk(Edited(h, edit)) && n < |h|
    ensures Live(Edited(h, edit), n) <==> Live(h, n) && !(edit.Removed? && n == edit.c)
  {
    match edit
    case Added(p, c, key) => ReachAdded(h, p, c, key, HEAD, n);
    case Removed(p, c) =>
      ReachRemoved(h, p, c, HEAD, n);
      if n == c { Unreached(h, p, c); }
  }

  lemma Unreached(h: Heap, p: nat, c: nat)
    requires ListOk(h) && CanEdit(h, Removed(p, c)) && ListOk(UnlinkNode(h, p, c))
    ensures !Live(UnlinkNode(h, p, c), c)
  {
    var h' := UnlinkNode(h, p, c);
    assert LinkOk(h, p) && LinkOk(h, c) && LinkOk(h', p);
    ReachRemoved(h, p, c, HEAD, p);
    if Reach(h', HEAD, c) {
      ReachLinear(h', HEAD, p, c);
      if Reach(h', c, p) { ReachKey(h', c, p); } else { ReachKey(h', h[c].next.id, c); }
    }
  }

  lemma NewIsLive(h: Heap, p: nat, c: nat, key: int)
    requires ListOk(h) && CanEdit(h, Added(p, c, key)) && ListOk(InsertNode(h, p, c, key))
    ensures Live(InsertNode(h, p, c, key), |h|)
  {
    ReachAdded(h, p, c, key, HEAD, p);
    ReachNext(InsertNode(h, p, c, key), HEAD, p);
  }

  lemma OneCarrier(h: Heap, m: nat, n: nat)
    requires Linked(h) && Live(h, m) && Live(h, n) && h[m].key == h[n].key
    ensures m == n
  {
    ReachLinear(h, HEAD, m, n);
    if Reach(h, m, n) { ReachKey(h, m, n); } else { ReachKey(h, n, m); }
  }

  /** A live node and its successor decide about the keys between them. */
  lemma Lookup(h: Heap, p: nat, c: nat, key: int)
    requires Linked(h) && Live(h, p) && p != TAIL && h[p].next == To(c) && c < |h|
    requires h[p].key < key <= h[c].key && key < MAX_KEY
    ensures Live(h, c) && (Member(h, key) <==> h[c].key == key)
  {
    ReachNext(h, HEAD, p);
    if h[c].key == key { assert LinkOk(h, p); assert Carrier(h, c, key); }
    if n: nat :| Carrier(h, n, key) {
      ReachLinear(h, HEAD, p, n);
      if Reach(h, n, p) { ReachKey(h, n, p); } else { ReachKey(h, c, n); }
    }
  }

  lemma AddedMember(h: Heap, p: nat, c: nat, key: int)
    requires ListOk(h) && CanEdit(h, Added(p, c, key)) && ListOk(InsertNode(h, p, c, key)) && key < MAX_KEY
    ensures !Member(h, key)
    ensures forall k :: Member(InsertNode(h, p, c, key), k) <==> Member(h, k) || k == key
  {
    var h' := InsertNode(h, p, c, key);
    Lookup(h, p, c, key);
    NewIsLive(h, p, c, key);
    assert Carrier(h', |h|, key);
    forall n: nat, k ensures n < |h| ==> (Carrier(h', n, k) <==> Carrier(h, n, k)) {
      if n < |h| { EditedLive(h, Added(p, c, key), n); }
    }
    forall k ensures Member(h', k) <==> Member(h, k) || k == key {
      if n: nat :| Carrier(h, n, k) { assert Carrier(h', n, k); }
      if n: nat :| Carrier(h', n, k) && n != |h| { assert Carrier(h, n, k); }
    }
  }

  lemma RemovedMember(h: Heap, p: nat, c: nat)
    requires ListOk(h) && CanEdit(h, Removed(p, c)) && ListOk(UnlinkNode(h, p, c))
    ensures Member(h, h[c].key)
    ensures forall k :: Member(UnlinkNode(h, p, c), k) <==> Member(h, k) && k != h[c].key
  {
    var h' := UnlinkNode(h, p, c);
    assert LinkOk(h, p);
    ReachNext(h, HEAD, p);
    assert Carrier(h, c, h[c].key);
    forall k ensures Member(h', k) <==> Member(h, k) && k != h[c].key {
      if n: nat :| Carrier(h, n, k) && k != h[c].key {
        EditedLive(h, Removed(p, c), n);
        assert Carrier(h', n, k);
      }
      if n: nat :| Carrier(h', n, k) {
        EditedLive(h, Removed(p, c), n);
        assert Carrier(h, n, k);
        if k == h[c].key { OneCarrier(h, n, c); }
      }
    }
  }

  // ---------- histories ----------

  ghost predicate EditStep(h: Heap, h': Heap, edit: Edit) {
    ListOk(h) && CanEdit(h, edit) && edit.c < |h| && h' == Edited(h, edit)
  }

  ghost predicate Trail(hist: seq<Heap>) {
    && |hist| > 0 && hist[0] == InitialHeap()
    && forall a :: 0 <= a < |hist| - 1 ==> TrailStep(hist, a)
  }

  ghost predicate TrailStep(hist: seq<Heap>, a: nat)
    requires a + 1 < |hist|
  {
    Edits(hist[a], hist[a+1])
  }

  ghost predicate Edits(h: Heap, h': Heap) {
    exists edit :: EditStep(h, h', edit)
  }

  lemma {:induction false} TrailOk(hist: seq<Heap>, a: nat)
    requires Trail(hist) && a < |hist|
    ensures ListOk(hist[a])
  {
    if a == 0 {
      InitialOk();
    } else {
      TrailOk(hist, a - 1);
      assert TrailStep(hist, a - 1);
      var edit :| EditStep(hist[a-1], hist[a], edit);
      EditedOk(hist[a-1], edit);
    }
  }

  /** Nodes and keys stay; a removed node stays removed and its successor stays. */
  ghost predicate Kept(h: Heap, h': Heap, n: nat)
    requires Linked(h) && Linked(h')
  {
    n < |h| ==> n < |h'| && h'[n].key == h[n].key && (!Live(h, n) ==> !Live(h', n) && h'[n] == h[n])
  }

  lemma EditKeeps(h: Heap, h': Heap, edit: Edit, n: nat)
    requires ListOk(h) && ListOk(h') && EditStep(h, h', edit)
    ensures Kept(h, h', n)
  {
    if n < |h| { EditedLive(h, edit, n); }
  }

  lemma {:induction false} StaysKept(hist: seq<Heap>, a: nat, b: nat, n: nat)
    requires Trail(hist) && a <= b < |hist|
    ensures ListOk(hist[a]) && ListOk(hist[b]) && Kept(hist[a], hist[b], n)
  {
    TrailOk(hist, a);
    TrailOk(hist, b);
    if a < b {
      StaysKept(hist, a, b - 1, n);
      assert TrailStep(hist, b - 1);
      var edit :| EditStep(hist[b-1], hist[b], edit);
      EditKeeps(hist[b-1], hist[b], edit, n);
    }
  }

  /** Hindsight: a node that was live at instant `a` was live, at that instant or later, while its word was what it is
      at instant `b`. */
  lemma {:induction false} WasLive(hist: seq<Heap>, a: nat, b: nat, n: nat) returns (v: nat)
    requires Trail(hist) && a <= b < |hist| && ListOk(hist[a]) && Live(hist[a], n)
    ensures a <= v <= b && ListOk(hist[v]) && Live(hist[v], n)
    ensures n < |hist[b]| && hist[v][n] == hist[b][n]
  {
    StaysKept(hist, a, b, n);
    if Live(hist[b], n) {
      v := b;
    } else {
      StaysKept(hist, a, b - 1, n);
      assert TrailStep(hist, b - 1);
      var edit :| EditStep(hist[b-1], hist[b], edit);
      EditedLive(hist[b-1], edit, n);
      v := WasLive(hist, a, b - 1, n);
    }
  }

  // ---------- answers ----------

  ghost predicate LiveAt(hist: seq<Heap>, v: nat, n: nat) {
    v < |hist| && ListOk(hist[v]) && Live(hist[v], n)
  }

  ghost predicate Around(h: Heap, prev: nat, curr: nat, key: int) {
    prev < |h| && curr < |h| && prev != TAIL && h[prev].key < key <= h[curr].key
  }

  ghost predicate Adjacent(hist: seq<Heap>, prev: nat, curr: nat)
    requires |hist| > 0
  {
    LiveAt(hist, |hist| - 1, prev) && prev < |hist[|hist|-1]| && hist[|hist|-1][prev].next == To(curr)
  }

  ghost predicate MemberAt(hist: seq<Heap>, v: nat, key: int)
    requires v < |hist|
  {
    ListOk(hist[v]) && Member(hist[v], key)
  }

  /** Whether an operation with this result has changed the list. */
  predicate Stores(op: Op, result: bool) {
    result && !op.Contain?
  }

  /** What a result decided at instant `v` says. */
  ghost predicate AnswerOk(hist: seq<Heap>, v: nat, op: Op, result: bool) {
    && v < |hist|
    && match op
      case Add(key) => if result then v + 1 < |hist| && Plus(hist, v, key) else MemberAt(hist, v, key)
      case Remove(key) => if result then v + 1 < |hist| && Minus(hist, v, key) else !MemberAt(hist, v, key)
      case Contain(key) => result == MemberAt(hist, v, key)
  }

  /** The change after instant `v` put the key, which was absent, into the set, and changed nothing else. */
  ghost predicate Plus(hist: seq<Heap>, v: nat, key: int)
    requires v + 1 < |hist|
  {
    !MemberAt(hist, v, key) && forall k :: MemberAt(hist, v + 1, k) <==> MemberAt(hist, v, k) || k == key
  }

  ghost predicate Minus(hist: seq<Heap>, v: nat, key: int)
    requires v + 1 < |hist|
  {
    MemberAt(hist, v, key) && forall k :: MemberAt(hist, v + 1, k) <==> MemberAt(hist, v, k) && k != key
  }

  lemma AnswerLasts(hist: seq<Heap>, h': Heap, v: nat, op: Op, result: bool)
    requires AnswerOk(hist, v, op, result)
    ensures AnswerOk(hist + [h'], v, op, result)
  {
    var hist' := hist + [h'];
    assert forall v :: 0 <= v < |hist| ==> hist'[v] == hist[v];
    assert forall v, k :: 0 <= v < |hist| ==> (MemberAt(hist', v, k) <==> MemberAt(hist, v, k));
  }

  // ---------- who made the changes ----------

  /** Of the changes from instant `a` on, thread `u` has made none. `writers[b]` made the one after instant `b`. */
  ghost predicate NoneBy(writers: seq<nat>, u: nat, a: nat) {
    forall b: nat :: a <= b < |writers| ==> writers[b] != u
  }

  /** It has made exactly one, the one after instant `at`. */
  ghost predicate OneBy(writers: seq<nat>, u: nat, a: nat, at: nat) {
    a <= at < |writers| && forall b: nat :: a <= b < |writers| ==> (writers[b] == u <==> b == at)
  }

  ghost predicate MadeBy(writers: seq<nat>, u: nat, a: nat, at: nat, stored: bool) {
    if stored then OneBy(writers, u, a, at) else NoneBy(writers, u, a)
  }

  lemma MadeOn(writers: seq<nat>, u: nat, a: nat, at: nat, stored: bool, w: nat)
    requires MadeBy(writers, u, a, at, stored) && a <= |writers|
    ensures w != u ==> MadeBy(writers + [w], u, a, at, stored)
    ensures w == u && !stored ==> MadeBy(writers + [w], u, a, |writers|, true)
  {
  }

  lemma Elsewhere(h: Heap, h': Heap, edit: Edit, n: nat)
    requires EditStep(h, h', edit) && ListOk(h') && n < |h| && !Writes(edit, n)
    ensures n < |h'| && h'[n] == h[n] && (Live(h', n) <==> Live(h, n))
  {
    EditedLive(h, edit, n);
  }

  lemma KeysLast(h: Heap, h': Heap, edit: Edit)
    requires EditStep(h, h', edit)
    ensures |h| <= |h'| && forall n :: 0 <= n < |h| ==> h'[n].key == h[n].key
  {
  }
}
