/**
 While no thread is in a queue twice, the tables with nodes and the tables of `Locks` do the same: every operation on
 nodes leads, after forgetting the nodes, to what the operation of `Locks` leads to.
 */
module PlainTables {
  import opened Locks
  import opened LockNodes

  /** No thread is in a queue twice. */
  ghost predicate NoTwice(nt: NodeTable) {
    forall r :: 0 <= r < |nt.locks| ==> NoDup(Elems(nt.locks[r]))
  }

  lemma PlainAt(nt: NodeTable, r: nat)
    requires r < |nt.locks|
    ensures Plain(nt).locks[r] == Elems(nt.locks[r])
  {
  }

  /** A token of `t` names the one node of `t` in its queue. */
  lemma TokenPos(nt: NodeTable, t: nat, k: nat)
    requires NodesOk(nt) && NoTwice(nt) && t < |nt.adj| && k < |nt.adj[t]|
    ensures var token := nt.adj[t][k];
      && token.tid == t && token.index < |nt.locks| && At(nt.locks[token.index], token.id) < |nt.locks[token.index]|
      && Pos(Elems(nt.locks[token.index]), t) == At(nt.locks[token.index], token.id)
  {
    var token := nt.adj[t][k];
    assert NodeTokenOk(nt, t, token);
    PosIs(Elems(nt.locks[token.index]), At(nt.locks[token.index], token.id));
  }

  lemma PlainOk(nt: NodeTable)
    requires NodesOk(nt) && NoTwice(nt)
    ensures WellFormed(Plain(nt))
  {
    var tb := Plain(nt);
    forall r: nat | r < |tb.locks| ensures NoDup(tb.locks[r]) && GrantsOk(tb.locks[r]) { assert QueueOk(nt, r); }
    forall r: nat, p: nat | r < |tb.locks| && p < |tb.locks[r]| ensures CoveredAt(tb, r, p) {
      assert NodeOk(nt, r, p);
      var u := nt.locks[r][p].elem.tid;
      var k :| 0 <= k < |nt.adj[u]| && nt.adj[u][k] == NodeToken(u, r, nt.locks[r][p].id);
      assert tb.adj[u][k] == LockToken(u, r);
    }
    forall t: nat, k: nat | t < |tb.adj| && k < |tb.adj[t]| ensures TokenOk(tb, t, tb.adj[t][k]) { TokenPos(nt, t, k); }
    forall t: nat | t < |tb.adj| ensures DistinctIndexes(tb.adj[t]) {
      assert DistinctTokens(nt.adj[t]);
      forall a, b | 0 <= a < b < |tb.adj[t]| ensures tb.adj[t][a].index != tb.adj[t][b].index {
        TokenPos(nt, t, a);
        TokenPos(nt, t, b);
      }
    }
  }

  lemma AddPlain(nt: NodeTable, t: nat, r: nat, isReader: bool)
    requires t < |nt.adj| && r < |nt.locks|
    ensures Plain(AddNode(nt, t, r, isReader)) == AddLock(Plain(nt), t, r, isReader)
  {
    var nt' := AddNode(nt, t, r, isReader);
    assert Elems(nt'.locks[r]) == Elems(nt.locks[r]) + [LockElement(t, isReader, true)];
    assert PlainTokens(nt'.adj[t]) == PlainTokens(nt.adj[t]) + [LockToken(t, r)];
    assert Plain(nt').locks == AddLock(Plain(nt), t, r, isReader).locks;
    assert Plain(nt').adj == AddLock(Plain(nt), t, r, isReader).adj;
  }

  lemma GrantPlain(nt: NodeTable, r: nat, p: nat)
    requires r < |nt.locks| && p < |nt.locks[r]| && NoDup(Elems(nt.locks[r]))
    ensures var t := nt.locks[r][p].elem.tid;
      InQueue(Plain(nt).locks[r], t) && Plain(GrantNode(nt, r, p)) == SetGranted(Plain(nt), t, r)
  {
    var nt' := GrantNode(nt, r, p);
    var q := Elems(nt.locks[r]);
    PosIs(q, p);
    assert Elems(nt'.locks[r]) == q[p := q[p].(isBlocked := false)];
    assert Plain(nt').locks == SetGranted(Plain(nt), q[p].tid, r).locks;
  }

  lemma EraseLast(q: Queue, e: LockElement, t: nat)
    requires NoDup(q + [e])
    ensures Erase(q + [e], t) == if e.tid == t then q else Erase(q, t) + [e]
    ensures e.tid == t ==> Erase(q, t) == q
  {
    var q', p := q + [e], Pos(q, t);
    AppendPos(q, e, t);
    forall i: nat | i < |q| ensures q[i].tid != e.tid { assert q'[i] == q[i] && q'[|q|] == e; }
    if e.tid == t {
      assert q'[..|q|] + q'[|q| + 1..] == q;
    } else if p < |q| {
      assert q'[..p] + q'[p+1..] == q[..p] + q[p+1..] + [e];
    }
  }

  lemma ElemsOf(q: seq<ListNode>)
    requires q != []
    ensures var n := |q| - 1; Elems(q) == Elems(q[..n]) + [q[n].elem]
  {
  }

  lemma NoDupPrefix(q: Queue, e: LockElement)
    requires NoDup(q + [e])
    ensures NoDup(q)
  {
    assert forall i :: 0 <= i < |q| ==> (q + [e])[i] == q[i];
  }

  ghost predicate NamesOf(q: seq<ListNode>, r: nat, tokens: seq<NodeToken>, t: nat) {
    forall i :: 0 <= i < |q| ==> NamesAt(q, r, tokens, t, i)
  }

  ghost predicate NamesAt(q: seq<ListNode>, r: nat, tokens: seq<NodeToken>, t: nat, i: nat)
    requires i < |q|
  {
    Named(q[i], r, tokens) <==> q[i].elem.tid == t
  }

  lemma {:induction false} DropErase(q: seq<ListNode>, r: nat, tokens: seq<NodeToken>, t: nat)
    requires NoDup(Elems(q)) && NamesOf(q, r, tokens, t)
    ensures Elems(Drop(q, r, tokens)) == Erase(Elems(q), t)
  {
    if q != [] {
      var n := |q| - 1;
      var d := Drop(q[..n], r, tokens);
      ElemsOf(q);
      NoDupPrefix(Elems(q[..n]), q[n].elem);
      forall i: nat | i < n ensures NamesAt(q[..n], r, tokens, t, i) { assert NamesAt(q, r, tokens, t, i); }
      DropErase(q[..n], r, tokens, t);
      EraseLast(Elems(q[..n]), q[n].elem, t);
      assert NamesAt(q, r, tokens, t, n);
      if Named(q[n], r, tokens) {
        assert Drop(q, r, tokens) == d;
      } else {
        ElemsOf(d + [q[n]]); assert (d + [q[n]])[..|d|] == d;
      }
    }
  }

  lemma ReleasePlain(nt: NodeTable, t: nat)
    requires NodesOk(nt) && NoTwice(nt) && t < |nt.adj|
    ensures Plain(ReleaseNodes(nt, t)) == UnlockAll(Plain(nt), t)
  {
    var nt' := ReleaseNodes(nt, t);
    forall r: nat | r < |nt.locks| ensures Elems(nt'.locks[r]) == Erase(Elems(nt.locks[r]), t) {
      forall i: nat | i < |nt.locks[r]| ensures NamesAt(nt.locks[r], r, nt.adj[t], t, i) {
        NamedOwner(nt, t, r, i);
      }
      DropErase(nt.locks[r], r, nt.adj[t], t);
    }
    assert Plain(nt').locks == UnlockAll(Plain(nt), t).locks;
    assert Plain(nt').adj == UnlockAll(Plain(nt), t).adj;
  }

  lemma SameToken(nt: NodeTable, x: nat, k: nat, q: seq<ListNode>, p: nat)
    requires x < |nt.adj| && k < |nt.adj[x]| && nt.adj[x][k].index < |nt.locks| && q == nt.locks[nt.adj[x][k].index]
    requires p < |q| && Pos(Elems(q), x) == p
    ensures var index := Plain(nt).adj[x][k].index;
      && index == nt.adj[x][k].index && Plain(nt).locks[index] == Elems(q) && Pos(Plain(nt).locks[index], x) == p
      && Plain(nt).locks[index][p].isBlocked == q[p].elem.isBlocked
      && (p > 0 ==> Plain(nt).locks[index][p-1].tid == q[p-1].elem.tid)
  {
  }

  lemma {:induction false} SearchPlain(nt: NodeTable, me: nat, x: nat, blocked: bool, visit: set<nat>)
    requires NodesOk(nt) && NoTwice(nt) && WellFormed(Plain(nt)) && x < |nt.adj| && x !in visit
    ensures Search(nt, me, x, blocked, visit) == Detect(Plain(nt), me, x, blocked, visit)
    decreases UpTo(|nt.adj|) - visit, 0, 0
  {
    if x != me { SearchFromPlain(nt, me, x, 0, blocked, visit + {x}); }
  }

  lemma {:induction false} SearchFromPlain(nt: NodeTable, me: nat, x: nat, k: nat, blocked: bool, visit: set<nat>)
    requires NodesOk(nt) && NoTwice(nt) && WellFormed(Plain(nt)) && x < |nt.adj| && k <= |nt.adj[x]|
    ensures SearchFrom(nt, me, x, k, blocked, visit) == DetectFrom(Plain(nt), me, x, k, blocked, visit)
    decreases UpTo(|nt.adj|) - visit, 1, |nt.adj[x]| - k
  {
    if k < |nt.adj[x]| {
      TokenPos(nt, x, k);
      var token := nt.adj[x][k];
      var q := nt.locks[token.index];
      var p := At(q, token.id);
      SameToken(nt, x, k, q, p);
      if p == 0 || q[p-1].elem.tid in visit {
        SearchFromPlain(nt, me, x, k + 1, blocked, visit);
      } else {
        assert NodeOk(nt, token.index, p - 1);
        SearchPlain(nt, me, q[p-1].elem.tid, blocked || q[p].elem.isBlocked, visit);
        var sub := Search(nt, me, q[p-1].elem.tid, blocked || q[p].elem.isBlocked, visit);
        if !sub.0 { SearchFromPlain(nt, me, x, k + 1, blocked, sub.1); }
      }
    }
  }

  ghost predicate SameAnswer(answer: Answer, res: LockResult) {
    match answer
    case Granted => res.Acquired?
    case Refused => res.DeadlockDetected?
    case LeftWaiting => res.MustWait?
    case AssertionFails => false
  }

  lemma AddedPlain(nt: NodeTable, t: nat, r: nat, isReader: bool)
    requires NodesOk(nt) && NoTwice(nt) && t < |nt.adj| && r < |nt.locks| && !Holds(Plain(nt), t, r)
    ensures var nt' := AddNode(nt, t, r, isReader);
      && WellFormed(Plain(nt)) && NodesOk(nt') && NoTwice(nt')
      && Plain(nt') == AddLock(Plain(nt), t, r, isReader) && WellFormed(Plain(nt'))
      && Pos(Plain(nt').locks[r], t) == |nt.locks[r]| == |nt'.locks[r]| - 1
  {
    var nt' := AddNode(nt, t, r, isReader);
    PlainOk(nt);
    AddNodeOk(nt, t, r, isReader);
    AddPlain(nt, t, r, isReader);
    AddLockKeeps(Plain(nt), t, r, isReader);
    AddLockElements(Plain(nt), t, r, isReader);
    forall s: nat | s < |nt'.locks| ensures NoDup(Elems(nt'.locks[s])) { PlainAt(nt', s); }
  }

  /** A request for a record that the thread is not queued for: the assertion holds, and answer and table are those of
      `Locks`. */
  lemma AskPlain(nt: NodeTable, t: nat, r: nat, isReader: bool)
    requires NodesOk(nt) && NoTwice(nt) && t < |nt.adj| && r < |nt.locks| && !Holds(Plain(nt), t, r)
    ensures WellFormed(Plain(nt)) && NoTwice(Ask(nt, t, r, isReader).1)
    ensures var res := RequestLock(Plain(nt), t, r, isReader);
      SameAnswer(Ask(nt, t, r, isReader).0, res.0) && Plain(Ask(nt, t, r, isReader).1) == res.1
  {
    var nt' := AddNode(nt, t, r, isReader);
    AddedPlain(nt, t, r, isReader);
    PlainAt(nt', r);
    var p := |nt.locks[r]|;
    if CanEnter(Elems(nt'.locks[r]), p) {
      GrantPlain(nt', r, p);
      GrantNoTwice(nt', r, p);
    } else {
      AskSearch(nt', t, r);
    }
  }

  lemma GrantNoTwice(nt: NodeTable, r: nat, p: nat)
    requires NoTwice(nt) && r < |nt.locks| && p < |nt.locks[r]|
    ensures NoTwice(GrantNode(nt, r, p))
  {
    var nt' := GrantNode(nt, r, p);
    forall s: nat | s < |nt'.locks| ensures NoDup(Elems(nt'.locks[s])) {
      assert forall i :: 0 <= i < |nt.locks[s]| ==> Elems(nt'.locks[s])[i].tid == Elems(nt.locks[s])[i].tid;
    }
  }

  lemma AskSearch(nt: NodeTable, t: nat, r: nat)
    requires NodesOk(nt) && NoTwice(nt) && WellFormed(Plain(nt)) && t < |nt.adj| && r < |nt.locks|
    requires Pos(Plain(nt).locks[r], t) == |nt.locks[r]| - 1 && !CanEnter(Elems(nt.locks[r]), |nt.locks[r]| - 1)
    ensures |nt.locks[r]| > 1
    ensures var q := nt.locks[r]; var x := q[|q|-2].elem.tid;
      x < |nt.adj| && x != t && Search(nt, t, x, false, {}).0 == HasCycle(Plain(nt), t, r)
  {
    var q := nt.locks[r];
    PlainAt(nt, r);
    assert NodeOk(nt, r, |q| - 2);
    assert Elems(q)[|q|-2].tid != Elems(q)[|q|-1].tid;
    SearchPlain(nt, t, q[|q|-2].elem.tid, false, {});
  }
}
