/**
 Waits in tables with nodes, where a thread may stand in a queue more than once, and may then wait for itself: the
 steps that make no wait, the search among writers only, and the fate of a cycle of waits.
 */
module NodeWaits {
  import opened Locks
  import opened Deadlock
  import opened LockNodes
  import opened NodeClients

  /** In queue `r`, the node at `p` is blocked behind the node at `m`, of thread `u`. */
  lemma PlainWaitsAt(nt: NodeTable, t: nat, u: nat, r: nat, p: nat, m: nat, c: nat)
    requires r < |nt.locks| && m < p < |nt.locks[r]| && m <= c <= p
    requires var q := nt.locks[r];
      q[p].elem.tid == t && q[p].elem.isBlocked && q[m].elem.tid == u && !q[c].elem.isReader
    ensures WaitsAt(Plain(nt), t, u, r, p, m) && Waits(Plain(nt), t, u)
  {
    assert m <= c <= p && !Plain(nt).locks[r][c].isReader;
    assert WaitsAt(Plain(nt), t, u, r, p, m);
  }

  lemma WaiterWaits(nt: NodeTable, t: nat, u: nat) returns (r: nat, p: nat, m: nat, c: nat)
    requires Waits(Plain(nt), t, u)
    ensures r < |nt.locks| && m < p < |nt.locks[r]| && m <= c <= p
    ensures var q := nt.locks[r];
      q[p].elem.tid == t && q[p].elem.isBlocked && q[m].elem.tid == u && !q[c].elem.isReader
    ensures IsWaiting(nt, t)
  {
    var r', p', m' :| WaitsAt(Plain(nt), t, u, r', p', m');
    var c' :| m' <= c' <= p' && !Plain(nt).locks[r'][c'].isReader;
    r, p, m, c := r', p', m', c';
    assert WaitsHere(nt, t, r, p);
  }

  // ---------- steps that make no wait ----------

  lemma GrantWaits(nt: NodeTable, r: nat, p: nat, t: nat, u: nat)
    requires r < |nt.locks| && p < |nt.locks[r]| && Waits(Plain(GrantNode(nt, r, p)), t, u)
    ensures Waits(Plain(nt), t, u) && IsWaiting(nt, t)
  {
    var s, i, m, c := WaiterWaits(GrantNode(nt, r, p), t, u);
    PlainWaitsAt(nt, t, u, s, i, m, c);
    assert WaitsHere(nt, t, s, i);
  }

  /** A node that has stayed was where the nodes before it that stayed make it now. */
  lemma {:induction false} DropFrom(q: seq<ListNode>, r: nat, tokens: seq<NodeToken>, j: nat) returns (i: nat)
    requires j < |Drop(q, r, tokens)|
    ensures i < |q| && !Named(q[i], r, tokens) && |Drop(q[..i], r, tokens)| == j && Drop(q, r, tokens)[j] == q[i]
  {
    var n := |q| - 1;
    if j < |Drop(q[..n], r, tokens)| {
      i := DropFrom(q[..n], r, tokens, j);
      assert q[..n][..i] == q[..i];
    } else {
      i := n;
    }
  }

  lemma ReleaseWaits(nt: NodeTable, v: nat, t: nat, u: nat)
    requires v < |nt.adj| && Waits(Plain(ReleaseNodes(nt, v)), t, u)
    ensures Waits(Plain(nt), t, u) && IsWaiting(nt, t)
  {
    var r, p, m, c := WaiterWaits(ReleaseNodes(nt, v), t, u);
    var q, tokens := nt.locks[r], nt.adj[v];
    var p0 := DropFrom(q, r, tokens, p);
    var m0 := DropFrom(q, r, tokens, m);
    var c0 := DropFrom(q, r, tokens, c);
    if p0 <= m0 { DropMono(q, r, tokens, p0, m0); }
    if c0 < m0 { DropMono(q, r, tokens, c0, m0); }
    if p0 < c0 { DropMono(q, r, tokens, p0, c0); }
    PlainWaitsAt(nt, t, u, r, p0, m0, c0);
    assert WaitsHere(nt, t, r, p0);
  }

  lemma AddWaits(nt: NodeTable, v: nat, r: nat, isReader: bool, t: nat, u: nat)
    requires v < |nt.adj| && r < |nt.locks| && t != v && Waits(Plain(AddNode(nt, v, r, isReader)), t, u)
    ensures Waits(Plain(nt), t, u) && IsWaiting(nt, t)
  {
    var s, p, m, c := WaiterWaits(AddNode(nt, v, r, isReader), t, u);
    PlainWaitsAt(nt, t, u, s, p, m, c);
    assert WaitsHere(nt, t, s, p);
  }

  /** No new waits among the old waiting threads. */
  lemma FewerWaits(nt: NodeTable, nt': NodeTable)
    requires Free(nt) && NodesOk(nt) && |nt'.adj| == |nt.adj|
    requires forall t: nat, u: nat :: Waits(Plain(nt'), t, u) ==> Waits(Plain(nt), t, u) && IsWaiting(nt, t)
    ensures Free(nt')
  {
    AcyclicMono(Plain(nt), WaitingThreads(nt), Plain(nt'), WaitingThreads(nt'));
  }

  // ---------- writers only ----------

  ghost predicate WritersOnly(nt: NodeTable) {
    forall r, p :: 0 <= r < |nt.locks| && 0 <= p < |nt.locks[r]| ==> !nt.locks[r][p].elem.isReader
  }

  /** Some node of `x` stands right behind one of `y`. */
  ghost predicate RightBehind(nt: NodeTable, x: nat, y: nat) {
    exists r: nat, p: nat :: BehindAt(nt, x, y, r, p)
  }

  ghost predicate BehindAt(nt: NodeTable, x: nat, y: nat, r: nat, p: nat) {
    r < |nt.locks| && 0 < p < |nt.locks[r]| && nt.locks[r][p].elem.tid == x && nt.locks[r][p-1].elem.tid == y
  }

  /** A writer behind another node is blocked. */
  lemma BehindWaits(nt: NodeTable, x: nat, y: nat, r: nat, p: nat)
    requires NodesOk(nt) && WritersOnly(nt) && BehindAt(nt, x, y, r, p)
    ensures nt.locks[r][p].elem.isBlocked && Waits(Plain(nt), x, y) && IsWaiting(nt, x)
  {
    assert QueueOk(nt, r);
    var q := Elems(nt.locks[r]);
    assert q[p] == nt.locks[r][p].elem;
    PlainWaitsAt(nt, x, y, r, p, p - 1, p);
    assert WaitsHere(nt, x, r, p);
  }

  /** What a search that answers false leaves behind: whoever stands right ahead of a node of an explored thread has
      been visited too, and the requester has not. */
  ghost predicate Swept(nt: NodeTable, xs: set<nat>, v: set<nat>) {
    forall x, y :: x in xs && RightBehind(nt, x, y) ==> y in v
  }

  lemma {:induction false} SearchSweeps(nt: NodeTable, me: nat, x: nat, blocked: bool, visit: set<nat>)
    requires NodesOk(nt) && WritersOnly(nt) && x < |nt.adj| && x !in visit && me !in visit && (x == me ==> blocked)
    requires !Search(nt, me, x, blocked, visit).0
    ensures var v := Search(nt, me, x, blocked, visit).1; x in v && me !in v && Swept(nt, v - visit, v)
    decreases UpTo(|nt.adj|) - visit, 0, 0
  {
    SearchFromSweeps(nt, me, x, 0, blocked, visit + {x});
    var v := Search(nt, me, x, blocked, visit).1;
    forall z, y | z in v - visit && RightBehind(nt, z, y) ensures y in v {
      if z == x {
        var r: nat, p: nat :| BehindAt(nt, x, y, r, p);
        var k := TokenFor(nt, x, r, p);
        assert AheadIn(nt, x, k, v);
      }
    }
  }

  lemma TokenFor(nt: NodeTable, x: nat, r: nat, p: nat) returns (k: nat)
    requires NodesOk(nt) && r < |nt.locks| && p < |nt.locks[r]| && nt.locks[r][p].elem.tid == x
    ensures x < |nt.adj| && k < |nt.adj[x]| && nt.adj[x][k] == NodeToken(x, r, nt.locks[r][p].id)
    ensures At(nt.locks[r], nt.locks[r][p].id) == p
  {
    assert NodeOk(nt, r, p);
    assert QueueOk(nt, r);
    k :| 0 <= k < |nt.adj[x]| && nt.adj[x][k] == NodeToken(x, r, nt.locks[r][p].id);
    AtIs(nt.locks[r], p);
  }

  /** The node ahead of the one that token `k` of `x` names, if any, belongs to a thread of `v`. */
  ghost predicate AheadIn(nt: NodeTable, x: nat, k: nat, v: set<nat>)
    requires NodesOk(nt) && x < |nt.adj| && k < |nt.adj[x]|
  {
    var token := nt.adj[x][k];
    assert NodeTokenOk(nt, x, token);
    var q := nt.locks[token.index];
    var p := At(q, token.id);
    p > 0 ==> q[p-1].elem.tid in v
  }

  lemma {:induction false} SearchFromSweeps(nt: NodeTable, me: nat, x: nat, k: nat, blocked: bool, visit: set<nat>)
    requires NodesOk(nt) && WritersOnly(nt) && x < |nt.adj| && k <= |nt.adj[x]| && me !in visit
    requires !SearchFrom(nt, me, x, k, blocked, visit).0
    ensures var v := SearchFrom(nt, me, x, k, blocked, visit).1;
      && me !in v && Swept(nt, v - visit, v)
      && forall j: nat :: k <= j < |nt.adj[x]| ==> AheadIn(nt, x, j, v)
    decreases UpTo(|nt.adj|) - visit, 1, |nt.adj[x]| - k
  {
    if k < |nt.adj[x]| {
      var token := nt.adj[x][k];
      assert NodeTokenOk(nt, x, token);
      var q := nt.locks[token.index];
      var p := At(q, token.id);
      if p == 0 || q[p-1].elem.tid in visit {
        SearchFromSweeps(nt, me, x, k + 1, blocked, visit);
      } else {
        assert NodeOk(nt, token.index, p - 1);
        var y := q[p-1].elem.tid;
        assert BehindAt(nt, x, y, token.index, p);
        BehindWaits(nt, x, y, token.index, p);
        SearchSweeps(nt, me, y, true, visit);
        var v1 := Search(nt, me, y, true, visit).1;
        SearchFromSweeps(nt, me, x, k + 1, blocked, v1);
      }
    }
  }

  /** Everybody ahead of a visited writer has been visited. */
  lemma {:induction false} AllAhead(nt: NodeTable, v: set<nat>, r: nat, p: nat, m: nat)
    requires Swept(nt, v, v) && r < |nt.locks| && m <= p < |nt.locks[r]| && nt.locks[r][p].elem.tid in v
    ensures nt.locks[r][m].elem.tid in v
    decreases p
  {
    if m < p {
      assert BehindAt(nt, nt.locks[r][p].elem.tid, nt.locks[r][p-1].elem.tid, r, p);
      AllAhead(nt, v, r, p - 1, m);
    }
  }

  lemma {:induction false} PathInside(nt: NodeTable, ws: set<nat>, v: set<nat>, path: seq<nat>, a: nat, b: nat)
    requires Swept(nt, v, v) && WaitPath(Plain(nt), ws, path) && a <= b < |path| && path[a] in v
    ensures path[b] in v
  {
    if a < b {
      PathInside(nt, ws, v, path, a, b - 1);
      assert WaitStep(Plain(nt), ws, path, b - 1);
      var r, p, m, c := WaiterWaits(nt, path[b-1], path[b]);
      AllAhead(nt, v, r, p, m);
    }
  }

  /** Among writers the search is complete, even if a thread stands in a queue more than once: a request that is left
      to wait makes no deadlock. */
  lemma WritersComplete(nt: NodeTable, t: nat, r: nat)
    requires NodesOk(nt) && WritersOnly(nt) && Free(nt) && t < |nt.adj| && r < |nt.locks| && !IsWaiting(nt, t)
    requires Ask(nt, t, r, false).0.LeftWaiting?
    ensures Free(Ask(nt, t, r, false).1)
  {
    var nt' := AddNode(nt, t, r, false);
    var v := SweptByAsk(nt, t, r);
    var ws := WaitingThreads(nt');
    forall path: seq<nat> | |path| > 1 && WaitPath(Plain(nt'), ws, path) ensures path[0] != path[|path|-1] {
      WritersCycle(nt, t, r, v, path);
    }
  }

  lemma SweptByAsk(nt: NodeTable, t: nat, r: nat) returns (v: set<nat>)
    requires NodesOk(nt) && WritersOnly(nt) && t < |nt.adj| && r < |nt.locks| && Ask(nt, t, r, false).0.LeftWaiting?
    ensures var nt' := AddNode(nt, t, r, false);
      |nt.locks[r]| > 0 && t !in v && Swept(nt', v, v) && nt.locks[r][|nt.locks[r]|-1].elem.tid in v
  {
    var nt' := AddNode(nt, t, r, false);
    AddNodeOk(nt, t, r, false);
    var n := |nt.locks[r]|;
    var x := nt'.locks[r][n-1].elem.tid;
    assert NodeOk(nt', r, n - 1);
    SearchSweeps(nt', t, x, false, {});
    v := Search(nt', t, x, false, {}).1;
    assert v - {} == v;
  }

  lemma WritersCycle(nt: NodeTable, t: nat, r: nat, v: set<nat>, path: seq<nat>)
    requires NodesOk(nt) && Free(nt) && t < |nt.adj| && r < |nt.locks| && !IsWaiting(nt, t)
    requires var nt' := AddNode(nt, t, r, false);
      && |nt.locks[r]| > 0 && t !in v && Swept(nt', v, v) && nt.locks[r][|nt.locks[r]|-1].elem.tid in v
      && |path| > 1 && WaitPath(Plain(nt'), WaitingThreads(nt'), path)
    ensures path[0] != path[|path|-1]
  {
    var nt' := AddNode(nt, t, r, false);
    var ws := WaitingThreads(nt');
    var last := |path| - 1;
    if path[0] == path[last] {
      if i :| 0 <= i < last && path[i] == t {
        assert WaitStep(Plain(nt'), ws, path, i);
        RequesterWaits(nt, t, r, v, path[i+1]);
        PathInside(nt', ws, v, path, i + 1, last);
        PathInside(nt', ws, v, path, 0, i);
      } else {
        forall i | 0 <= i < last ensures WaitStep(Plain(nt), WaitingThreads(nt), path, i) {
          assert WaitStep(Plain(nt'), ws, path, i);
          AddWaits(nt, t, r, false, path[i], path[i+1]);
        }
        assert WaitPath(Plain(nt), WaitingThreads(nt), path);
      }
    }
  }

  /** Whom the requester waits for has been visited. */
  lemma RequesterWaits(nt: NodeTable, t: nat, r: nat, v: set<nat>, u: nat)
    requires t < |nt.adj| && r < |nt.locks| && !IsWaiting(nt, t)
    requires var nt' := AddNode(nt, t, r, false);
      && |nt.locks[r]| > 0 && Swept(nt', v, v) && nt.locks[r][|nt.locks[r]|-1].elem.tid in v
      && Waits(Plain(nt'), t, u)
    ensures u in v
  {
    var nt' := AddNode(nt, t, r, false);
    var s, p, m, c := WaiterWaits(nt', t, u);
    if s != r || p != |nt.locks[r]| { assert WaitsHere(nt, t, s, p); }
    AllAhead(nt', v, r, |nt.locks[r]| - 1, m);
  }

  // ---------- reports among writers ----------

  /** A search that answers true has found a chain of waits to the requester. */
  lemma {:induction false} SearchChain(nt: NodeTable, me: nat, x: nat, blocked: bool, visit: set<nat>)
    returns (path: seq<nat>)
    requires NodesOk(nt) && WritersOnly(nt) && x < |nt.adj| && x !in visit && Search(nt, me, x, blocked, visit).0
    ensures path != [] && path[0] == x && path[|path|-1] == me && WaitPath(Plain(nt), WaitingThreads(nt), path)
    decreases UpTo(|nt.adj|) - visit, 0, 0
  {
    if x == me { path := [me]; } else { path := SearchFromChain(nt, me, x, 0, blocked, visit + {x}); }
  }

  lemma {:induction false} SearchFromChain(nt: NodeTable, me: nat, x: nat, k: nat, blocked: bool, visit: set<nat>)
    returns (path: seq<nat>)
    requires NodesOk(nt) && WritersOnly(nt) && x < |nt.adj| && k <= |nt.adj[x]|
    requires SearchFrom(nt, me, x, k, blocked, visit).0
    ensures path != [] && path[0] == x && path[|path|-1] == me && WaitPath(Plain(nt), WaitingThreads(nt), path)
    decreases UpTo(|nt.adj|) - visit, 1, |nt.adj[x]| - k
  {
    var token := nt.adj[x][k];
    assert NodeTokenOk(nt, x, token);
    var q := nt.locks[token.index];
    var p := At(q, token.id);
    if p == 0 || q[p-1].elem.tid in visit {
      path := SearchFromChain(nt, me, x, k + 1, blocked, visit);
    } else {
      assert NodeOk(nt, token.index, p - 1);
      var y := q[p-1].elem.tid;
      var sub := Search(nt, me, y, blocked || q[p].elem.isBlocked, visit);
      if sub.0 {
        assert BehindAt(nt, x, y, token.index, p);
        var rest := SearchChain(nt, me, y, blocked || q[p].elem.isBlocked, visit);
        path := ChainFrom(nt, x, y, token.index, p, rest);
      } else {
        path := SearchFromChain(nt, me, x, k + 1, blocked, sub.1);
      }
    }
  }

  lemma ChainFrom(nt: NodeTable, x: nat, y: nat, r: nat, p: nat, rest: seq<nat>) returns (path: seq<nat>)
    requires NodesOk(nt) && WritersOnly(nt) && x < |nt.adj| && BehindAt(nt, x, y, r, p)
    requires rest != [] && rest[0] == y && WaitPath(Plain(nt), WaitingThreads(nt), rest)
    ensures path == [x] + rest && WaitPath(Plain(nt), WaitingThreads(nt), path)
  {
    path := [x] + rest;
    BehindWaits(nt, x, y, r, p);
    forall i | 0 <= i < |path| - 1 ensures WaitStep(Plain(nt), WaitingThreads(nt), path, i) {
      if i > 0 { assert WaitStep(Plain(nt), WaitingThreads(nt), rest, i - 1); }
    }
  }

  /** A cycle of waits among waiting threads. */
  ghost predicate WaitCycle(nt: NodeTable, path: seq<nat>) {
    |path| > 1 && path[0] == path[|path|-1] && WaitPath(Plain(nt), WaitingThreads(nt), path)
  }

  /** The refused thread waits for itself through a chain of waits. */
  ghost predicate RealReport(nt: NodeTable, t: nat) {
    exists path: seq<nat> :: WaitCycle(nt, path) && path[0] == t
  }

  lemma WritersReport(nt: NodeTable, t: nat, r: nat)
    requires NodesOk(nt) && WritersOnly(nt) && t < |nt.adj| && r < |nt.locks| && Ask(nt, t, r, false).0.Refused?
    ensures RealReport(Ask(nt, t, r, false).1, t)
  {
    var nt' := AddNode(nt, t, r, false);
    AddNodeOk(nt, t, r, false);
    var n := |nt.locks[r]|;
    var x := nt'.locks[r][n-1].elem.tid;
    assert NodeOk(nt', r, n - 1);
    var rest := SearchChain(nt', t, x, false, {});
    assert BehindAt(nt', t, x, r, n);
    var path := ChainFrom(nt', t, x, r, n, rest);
    assert WaitCycle(nt', path);
  }

  // ---------- a cycle stays ----------

  /** A thread of the cycle, and whoever keeps it from entering, waits. */
  lemma WriterWaits(nt: NodeTable, r: nat, c: nat)
    requires NodesOk(nt) && r < |nt.locks| && 0 < c < |nt.locks[r]| && !nt.locks[r][c].elem.isReader
    ensures IsWaiting(nt, nt.locks[r][c].elem.tid)
  {
    assert QueueOk(nt, r);
    assert Elems(nt.locks[r])[c] == nt.locks[r][c].elem;
    assert WaitsHere(nt, nt.locks[r][c].elem.tid, r, c);
  }

  lemma AddKeepsWait(nt: NodeTable, v: nat, s: nat, isReader: bool, t: nat, u: nat)
    requires v < |nt.adj| && s < |nt.locks| && Waits(Plain(nt), t, u)
    ensures Waits(Plain(AddNode(nt, v, s, isReader)), t, u) && IsWaiting(AddNode(nt, v, s, isReader), t)
  {
    var r, p, m, c := WaiterWaits(nt, t, u);
    var nt' := AddNode(nt, v, s, isReader);
    PlainWaitsAt(nt', t, u, r, p, m, c);
    assert WaitsHere(nt', t, r, p);
  }

  /** A grant goes to a node that nobody keeps waiting. */
  lemma GrantKeepsWait(nt: NodeTable, s: nat, i: nat, t: nat, u: nat)
    requires NodesOk(nt) && s < |nt.locks| && i < |nt.locks[s]| && CanEnter(Elems(nt.locks[s]), i)
    requires Waits(Plain(nt), t, u)
    ensures Waits(Plain(GrantNode(nt, s, i)), t, u) && IsWaiting(GrantNode(nt, s, i), t)
  {
    var r, p, m, c := WaiterWaits(nt, t, u);
    assert QueueOk(nt, r);
    assert m <= c <= p && !Elems(nt.locks[r])[c].isReader;
    BehindCannotEnter(Elems(nt.locks[r]), p, m);
    var nt' := GrantNode(nt, s, i);
    PlainWaitsAt(nt', t, u, r, p, m, c);
    assert WaitsHere(nt', t, r, p);
  }

  /** Releasing the locks of a thread that owns none of the three nodes keeps the wait that they make. */
  lemma ReleaseKeepsWait(nt: NodeTable, v: nat, r: nat, p: nat, m: nat, c: nat)
    requires NodesOk(nt) && v < |nt.adj| && r < |nt.locks| && m < p < |nt.locks[r]| && m <= c <= p
    requires var q := nt.locks[r]; q[p].elem.isBlocked && !q[c].elem.isReader
    requires StaysAt(nt, v, r, p) && StaysAt(nt, v, r, m) && StaysAt(nt, v, r, c)
    ensures var nt', t, u := ReleaseNodes(nt, v), nt.locks[r][p].elem.tid, nt.locks[r][m].elem.tid;
      Waits(Plain(nt'), t, u) && IsWaiting(nt', t)
  {
    var nt' := ReleaseNodes(nt, v);
    var q, tokens := nt.locks[r], nt.adj[v];
    NamedOwner(nt, v, r, p);
    NamedOwner(nt, v, r, m);
    NamedOwner(nt, v, r, c);
    DropAt(q, r, tokens, p);
    DropAt(q, r, tokens, m);
    DropAt(q, r, tokens, c);
    DropMono(q, r, tokens, m, c);
    DropMono(q, r, tokens, c, p);
    DropMono(q, r, tokens, m, p);
    var p', m', c' := |Drop(q[..p], r, tokens)|, |Drop(q[..m], r, tokens)|, |Drop(q[..c], r, tokens)|;
    PlainWaitsAt(nt', q[p].elem.tid, q[m].elem.tid, r, p', m', c');
    assert WaitsHere(nt', q[p].elem.tid, r, p');
  }

  ghost predicate StaysAt(nt: NodeTable, v: nat, r: nat, c: nat)
    requires r < |nt.locks| && c < |nt.locks[r]|
  {
    nt.locks[r][c].elem.tid != v
  }
}
