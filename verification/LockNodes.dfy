/**
 The lock table with its list nodes: a queue is a list of nodes, and a token names a node, as the iterator in the
 program does. Here a thread may stand in a queue more than once. `Plain` forgets the nodes; while no thread is in a
 queue twice it leads to the tables of `Locks`, whose tokens name a thread and a queue.
 */
module LockNodes {
  import opened Locks

  datatype ListNode = ListNode(id: nat, elem: LockElement)

  datatype NodeToken = NodeToken(tid: nat, index: nat, id: nat)

  /** `nextId` is a number that no node has had. */
  datatype NodeTable = NodeTable(locks: seq<seq<ListNode>>, adj: seq<seq<NodeToken>>, nextId: nat)

  function Elems(q: seq<ListNode>): (r: Queue)
    ensures |r| == |q|
  {
    seq(|q|, p requires 0 <= p < |q| => q[p].elem)
  }

  function PlainTokens(tokens: seq<NodeToken>): (r: seq<LockToken>)
    ensures |r| == |tokens|
  {
    seq(|tokens|, k requires 0 <= k < |tokens| => LockToken(tokens[k].tid, tokens[k].index))
  }

  function Plain(nt: NodeTable): (tb: Table)
    ensures |tb.locks| == |nt.locks| && |tb.adj| == |nt.adj|
  {
    Table(seq(|nt.locks|, r requires 0 <= r < |nt.locks| => Elems(nt.locks[r])),
          seq(|nt.adj|, t requires 0 <= t < |nt.adj| => PlainTokens(nt.adj[t])))
  }

  /** The position of node `id`, or `|q|`. */
  function At(q: seq<ListNode>, id: nat): (p: nat)
    ensures p <= |q|
    ensures p < |q| ==> q[p].id == id
    ensures forall i :: 0 <= i < p ==> q[i].id != id
  {
    if q == [] then 0 else if q[0].id == id then 0 else 1 + At(q[1..], id)
  }

  // ---------- well-formed tables ----------

  ghost predicate IdsOk(q: seq<ListNode>) {
    forall a, b :: 0 <= a < b < |q| ==> q[a].id != q[b].id
  }

  ghost predicate QueueOk(nt: NodeTable, r: nat)
    requires r < |nt.locks|
  {
    IdsOk(nt.locks[r]) && GrantsOk(Elems(nt.locks[r]))
  }

  ghost predicate NodeOk(nt: NodeTable, r: nat, p: nat)
    requires r < |nt.locks| && p < |nt.locks[r]|
  {
    var node := nt.locks[r][p];
    node.id < nt.nextId && node.elem.tid < |nt.adj| && NodeToken(node.elem.tid, r, node.id) in nt.adj[node.elem.tid]
  }

  ghost predicate NodeTokenOk(nt: NodeTable, t: nat, token: NodeToken) {
    && token.tid == t && token.index < |nt.locks|
    && var q := nt.locks[token.index];
      At(q, token.id) < |q| && q[At(q, token.id)].elem.tid == t
  }

  /** Each node is named by a token of its thread, each token names a node, and grants are in order. */
  ghost predicate NodesOk(nt: NodeTable) {
    && (forall r :: 0 <= r < |nt.locks| ==> QueueOk(nt, r))
    && (forall r, p :: 0 <= r < |nt.locks| && 0 <= p < |nt.locks[r]| ==> NodeOk(nt, r, p))
    && (forall t, k :: 0 <= t < |nt.adj| && 0 <= k < |nt.adj[t]| ==> NodeTokenOk(nt, t, nt.adj[t][k]))
    && (forall t :: 0 <= t < |nt.adj| ==> DistinctTokens(nt.adj[t]))
  }

  ghost predicate DistinctTokens(tokens: seq<NodeToken>) {
    forall a, b :: 0 <= a < b < |tokens| ==> tokens[a] != tokens[b]
  }

  lemma AtIs(q: seq<ListNode>, p: nat)
    requires IdsOk(q) && p < |q|
    ensures At(q, q[p].id) == p
  {
  }

  // ---------- operations ----------

  function EmptyNodes(numWorkers: nat, numRecords: nat): NodeTable {
    NodeTable(seq(numRecords, i => []), seq(numWorkers, i => []), 0)
  }

  function AddNode(nt: NodeTable, t: nat, r: nat, isReader: bool): NodeTable
    requires t < |nt.adj| && r < |nt.locks|
  {
    NodeTable(nt.locks[r := nt.locks[r] + [ListNode(nt.nextId, LockElement(t, isReader, true))]],
              nt.adj[t := nt.adj[t] + [NodeToken(t, r, nt.nextId)]], nt.nextId + 1)
  }

  function GrantNode(nt: NodeTable, r: nat, p: nat): NodeTable
    requires r < |nt.locks| && p < |nt.locks[r]|
  {
    var q := nt.locks[r];
    nt.(locks := nt.locks[r := q[p := q[p].(elem := q[p].elem.(isBlocked := false))]])
  }

  /** The nodes of queue `r` that no token names. */
  function Drop(q: seq<ListNode>, r: nat, tokens: seq<NodeToken>): seq<ListNode> {
    if q == [] then [] else
    var n := |q| - 1;
    Drop(q[..n], r, tokens) + (if Named(q[n], r, tokens) then [] else [q[n]])
  }

  predicate Named(node: ListNode, r: nat, tokens: seq<NodeToken>) {
    NodeToken(node.elem.tid, r, node.id) in tokens
  }

  /** `unlockAll`: erase the nodes that the tokens of `t` name. */
  function ReleaseNodes(nt: NodeTable, t: nat): NodeTable
    requires t < |nt.adj|
  {
    NodeTable(seq(|nt.locks|, r requires 0 <= r < |nt.locks| => Drop(nt.locks[r], r, nt.adj[t])), nt.adj[t := []],
              nt.nextId)
  }

  /** `detectCycle`. */
  function Search(nt: NodeTable, me: nat, x: nat, blocked: bool, visit: set<nat>): (res: (bool, set<nat>))
    requires NodesOk(nt) && x < |nt.adj| && x !in visit
    ensures visit <= res.1
    decreases UpTo(|nt.adj|) - visit, 0, 0
  {
    if x == me then (blocked, visit) else SearchFrom(nt, me, x, 0, blocked, visit + {x})
  }

  function SearchFrom(nt: NodeTable, me: nat, x: nat, k: nat, blocked: bool, visit: set<nat>): (res: (bool, set<nat>))
    requires NodesOk(nt) && x < |nt.adj| && k <= |nt.adj[x]|
    ensures visit <= res.1
    decreases UpTo(|nt.adj|) - visit, 1, |nt.adj[x]| - k
  {
    if k == |nt.adj[x]| then (false, visit) else
    var token := nt.adj[x][k];
    assert NodeTokenOk(nt, x, token);
    var q := nt.locks[token.index];
    var p := At(q, token.id);
    if p == 0 || q[p-1].elem.tid in visit then
      SearchFrom(nt, me, x, k + 1, blocked, visit)
    else
      assert NodeOk(nt, token.index, p - 1);
      var sub := Search(nt, me, q[p-1].elem.tid, blocked || q[p].elem.isBlocked, visit);
      if sub.0 then sub else SearchFrom(nt, me, x, k + 1, blocked, sub.1)
  }

  datatype Answer = Granted | Refused | LeftWaiting | AssertionFails

  /** `rwlock` up to its waiting loop. `AssertionFails` is line 94 of the program, where it stops. */
  function Ask(nt: NodeTable, t: nat, r: nat, isReader: bool): (res: (Answer, NodeTable))
    requires NodesOk(nt) && t < |nt.adj| && r < |nt.locks|
  {
    AddNodeOk(nt, t, r, isReader);
    var nt' := AddNode(nt, t, r, isReader);
    var q := nt'.locks[r];
    var p := |q| - 1;
    if CanEnter(Elems(q), p) then (Granted, GrantNode(nt', r, p))
    else if q[p-1].elem.tid == t then (AssertionFails, nt')
    else
      assert NodeOk(nt', r, p - 1);
      if Search(nt', t, q[p-1].elem.tid, false, {}).0 then (Refused, nt') else (LeftWaiting, nt')
  }

  // ---------- the operations keep tables well formed ----------

  lemma AppendAt(q: seq<ListNode>, node: ListNode, id: nat)
    ensures At(q + [node], id) == if At(q, id) < |q| then At(q, id) else if id == node.id then |q| else |q| + 1
  {
    var p, p' := At(q, id), At(q + [node], id);
    assert forall i :: 0 <= i < |q| ==> (q + [node])[i] == q[i];
    if p < |q| { assert p' <= p && p <= p'; }
    assert (q + [node])[|q|] == node;
  }

  lemma AddNodeOk(nt: NodeTable, t: nat, r: nat, isReader: bool)
    requires NodesOk(nt) && t < |nt.adj| && r < |nt.locks|
    ensures NodesOk(AddNode(nt, t, r, isReader))
  {
    var nt' := AddNode(nt, t, r, isReader);
    var node := ListNode(nt.nextId, LockElement(t, isReader, true));
    forall s: nat | s < |nt'.locks| ensures QueueOk(nt', s) {
      assert QueueOk(nt, s);
      if s == r {
        forall p: nat | p < |nt.locks[r]| ensures nt.locks[r][p].id != nt.nextId { assert NodeOk(nt, r, p); }
        AppendGrants(nt.locks[r], node);
      }
    }
    forall s: nat, p: nat | s < |nt'.locks| && p < |nt'.locks[s]| ensures NodeOk(nt', s, p) {
      if s == r && p == |nt.locks[r]| {
        assert nt'.adj[t][|nt.adj[t]|] == NodeToken(t, r, nt.nextId);
      } else {
        assert nt'.locks[s][p] == nt.locks[s][p];
        assert NodeOk(nt, s, p);
        assert nt.locks[s][p].elem.tid == t ==> nt'.adj[t] == nt.adj[t] + [NodeToken(t, r, nt.nextId)];
      }
    }
    forall u: nat, k: nat | u < |nt'.adj| && k < |nt'.adj[u]| ensures NodeTokenOk(nt', u, nt'.adj[u][k]) {
      if u == t && k == |nt.adj[t]| { NewNodeAt(nt, t, r, isReader); } else { AddNodeToken(nt, t, r, isReader, u, k); }
    }
    forall k: nat | k < |nt.adj[t]| ensures nt.adj[t][k] != NodeToken(t, r, nt.nextId) { OldToken(nt, t, k); }
    assert DistinctTokens(nt'.adj[t]);
  }

  lemma OldToken(nt: NodeTable, t: nat, k: nat)
    requires NodesOk(nt) && t < |nt.adj| && k < |nt.adj[t]|
    ensures nt.adj[t][k].id < nt.nextId
  {
    var token := nt.adj[t][k];
    assert NodeTokenOk(nt, t, token);
    assert NodeOk(nt, token.index, At(nt.locks[token.index], token.id));
  }

  lemma AppendGrants(q: seq<ListNode>, node: ListNode)
    requires GrantsOk(Elems(q)) && node.elem.isBlocked
    ensures GrantsOk(Elems(q + [node]))
  {
    assert forall p :: 0 <= p < |q| ==> Elems(q + [node])[p] == Elems(q)[p];
  }

  lemma NewNodeAt(nt: NodeTable, t: nat, r: nat, isReader: bool)
    requires NodesOk(nt) && t < |nt.adj| && r < |nt.locks|
    ensures At(AddNode(nt, t, r, isReader).locks[r], nt.nextId) == |nt.locks[r]|
  {
    var q := nt.locks[r];
    forall p: nat | p < |q| ensures q[p].id != nt.nextId { assert NodeOk(nt, r, p); }
    AppendAt(q, ListNode(nt.nextId, LockElement(t, isReader, true)), nt.nextId);
  }

  lemma AddNodeToken(nt: NodeTable, t: nat, r: nat, isReader: bool, u: nat, k: nat)
    requires NodesOk(nt) && t < |nt.adj| && r < |nt.locks| && u < |nt.adj| && k < |nt.adj[u]|
    ensures var nt' := AddNode(nt, t, r, isReader); nt'.adj[u][k] == nt.adj[u][k] && NodeTokenOk(nt', u, nt.adj[u][k])
  {
    var token := nt.adj[u][k];
    assert NodeTokenOk(nt, u, token);
    if token.index == r { AppendAt(nt.locks[r], ListNode(nt.nextId, LockElement(t, isReader, true)), token.id); }
  }

  lemma GrantAt(q: seq<ListNode>, p: nat, id: nat)
    requires p < |q|
    ensures At(q[p := q[p].(elem := q[p].elem.(isBlocked := false))], id) == At(q, id)
  {
    var q' := q[p := q[p].(elem := q[p].elem.(isBlocked := false))];
    assert forall i :: 0 <= i < |q| ==> q'[i].id == q[i].id;
    if At(q, id) < |q| { assert q'[At(q, id)].id == id; }
    if At(q', id) < |q| { assert q[At(q', id)].id == id; }
  }

  lemma GrantNodeOk(nt: NodeTable, r: nat, p: nat)
    requires NodesOk(nt) && r < |nt.locks| && p < |nt.locks[r]| && CanEnter(Elems(nt.locks[r]), p)
    ensures NodesOk(GrantNode(nt, r, p))
  {
    var nt' := GrantNode(nt, r, p);
    forall s: nat | s < |nt'.locks| ensures QueueOk(nt', s) {
      assert QueueOk(nt, s);
      if s == r { GrantQueue(nt.locks[r], p); }
    }
    forall s: nat, i: nat | s < |nt'.locks| && i < |nt'.locks[s]| ensures NodeOk(nt', s, i) { assert NodeOk(nt, s, i); }
    forall u: nat, k: nat | u < |nt'.adj| && k < |nt'.adj[u]| ensures NodeTokenOk(nt', u, nt'.adj[u][k]) {
      assert NodeTokenOk(nt, u, nt.adj[u][k]);
      GrantAt(nt.locks[r], p, nt.adj[u][k].id);
    }
  }

  lemma GrantQueue(q: seq<ListNode>, p: nat)
    requires p < |q| && IdsOk(q) && GrantsOk(Elems(q)) && CanEnter(Elems(q), p)
    ensures var q' := q[p := q[p].(elem := q[p].elem.(isBlocked := false))];
      IdsOk(q') && Elems(q') == Elems(q)[p := Elems(q)[p].(isBlocked := false)] && GrantsOk(Elems(q'))
  {
    var q' := q[p := q[p].(elem := q[p].elem.(isBlocked := false))];
    assert Elems(q') == Elems(q)[p := Elems(q)[p].(isBlocked := false)];
  }

  // ---------- erasing ----------

  lemma {:induction false} DropIn(q: seq<ListNode>, r: nat, tokens: seq<NodeToken>, node: ListNode)
    ensures node in Drop(q, r, tokens) <==> node in q && !Named(node, r, tokens)
  {
    if q != [] {
      var n := |q| - 1;
      DropIn(q[..n], r, tokens, node);
      assert q == q[..n] + [q[n]];
    }
  }

  /** Where a node that stays comes to stand: after those before it that stay. */
  lemma {:induction false} DropAt(q: seq<ListNode>, r: nat, tokens: seq<NodeToken>, i: nat)
    requires i < |q| && !Named(q[i], r, tokens)
    ensures |Drop(q[..i], r, tokens)| < |Drop(q, r, tokens)|
    ensures Drop(q, r, tokens)[|Drop(q[..i], r, tokens)|] == q[i]
  {
    var n := |q| - 1;
    if i < n {
      DropAt(q[..n], r, tokens, i);
      assert q[..n][..i] == q[..i];
    }
  }

  lemma {:induction false} DropMono(q: seq<ListNode>, r: nat, tokens: seq<NodeToken>, i: nat, j: nat)
    requires i <= j <= |q|
    ensures |Drop(q[..i], r, tokens)| <= |Drop(q[..j], r, tokens)|
    ensures i < j && !Named(q[i], r, tokens) ==> |Drop(q[..i], r, tokens)| < |Drop(q[..j], r, tokens)|
  {
    if i < j {
      DropMono(q, r, tokens, i, j - 1);
      assert q[..j][..j-1] == q[..j-1];
    }
  }

  /** A node behind nodes that stay in order: what is granted ahead of a granted node is a granted reader. */
  lemma KeepLast(q: seq<ListNode>, d: seq<ListNode>, n: nat)
    requires n < |q| && IdsOk(q) && GrantsOk(Elems(q))
    requires IdsOk(d) && GrantsOk(Elems(d)) && forall p :: 0 <= p < |d| ==> d[p] in q[..n]
    ensures IdsOk(d + [q[n]]) && GrantsOk(Elems(d + [q[n]]))
  {
    var d' := d + [q[n]];
    forall p: nat | p < |d| ensures d[p].id != q[n].id {
      var i :| 0 <= i < n && q[..n][i] == d[p];
      assert q[i] == d[p];
    }
    assert Elems(d') == Elems(d) + [q[n].elem];
    if d != [] && !q[n].elem.isBlocked {
      var i :| 0 <= i < n && q[..n][i] == d[|d|-1];
      assert q[i] == d[|d|-1] && Elems(q)[i] == Elems(d)[|d|-1];
      GrantedPrefix(Elems(q), n, i);
      GrantedPrefix(Elems(q), n, n);
    }
  }

  lemma Prefix(q: seq<ListNode>, n: nat)
    requires n <= |q| && IdsOk(q) && GrantsOk(Elems(q))
    ensures IdsOk(q[..n]) && GrantsOk(Elems(q[..n]))
  {
    assert Elems(q[..n]) == Elems(q)[..n];
  }

  lemma {:induction false} DropOk(q: seq<ListNode>, r: nat, tokens: seq<NodeToken>)
    requires IdsOk(q) && GrantsOk(Elems(q))
    ensures IdsOk(Drop(q, r, tokens)) && GrantsOk(Elems(Drop(q, r, tokens)))
  {
    if q != [] {
      var n := |q| - 1;
      Prefix(q, n);
      DropOk(q[..n], r, tokens);
      var d := Drop(q[..n], r, tokens);
      if Named(q[n], r, tokens) {
        assert Drop(q, r, tokens) == d;
      } else {
        forall p: nat | p < |d| ensures d[p] in q[..n] { DropIn(q[..n], r, tokens, d[p]); }
        KeepLast(q, d, n);
      }
    }
  }

  lemma ReleaseNodesOk(nt: NodeTable, t: nat)
    requires NodesOk(nt) && t < |nt.adj|
    ensures NodesOk(ReleaseNodes(nt, t))
  {
    var nt' := ReleaseNodes(nt, t);
    forall s: nat | s < |nt'.locks| ensures QueueOk(nt', s) {
      assert QueueOk(nt, s);
      DropOk(nt.locks[s], s, nt.adj[t]);
    }
    forall s: nat, p: nat | s < |nt'.locks| && p < |nt'.locks[s]| ensures NodeOk(nt', s, p) {
      var node := nt'.locks[s][p];
      DropIn(nt.locks[s], s, nt.adj[t], node);
      var i :| 0 <= i < |nt.locks[s]| && nt.locks[s][i] == node;
      assert NodeOk(nt, s, i);
    }
    forall u: nat, k: nat | u < |nt'.adj| && k < |nt'.adj[u]| ensures NodeTokenOk(nt', u, nt'.adj[u][k]) {
      TokenStays(nt, t, u, nt.adj[u][k]);
    }
  }

  lemma TokenStays(nt: NodeTable, t: nat, u: nat, token: NodeToken)
    requires NodesOk(nt) && t < |nt.adj| && u < |nt.adj| && u != t && token in nt.adj[u]
    ensures NodeTokenOk(ReleaseNodes(nt, t), u, token)
  {
    var nt' := ReleaseNodes(nt, t);
    assert NodeTokenOk(nt, u, token);
    var r := token.index;
    var i := At(nt.locks[r], token.id);
    NamedOwner(nt, t, r, i);
    DropAt(nt.locks[r], r, nt.adj[t], i);
    assert QueueOk(nt, r);
    DropOk(nt.locks[r], r, nt.adj[t]);
    AtIs(nt'.locks[r], |Drop(nt.locks[r][..i], r, nt.adj[t])|);
  }

  /** The tokens of `t` name exactly the nodes of `t`. */
  lemma NamedOwner(nt: NodeTable, t: nat, r: nat, i: nat)
    requires NodesOk(nt) && t < |nt.adj| && r < |nt.locks| && i < |nt.locks[r]|
    ensures Named(nt.locks[r][i], r, nt.adj[t]) <==> nt.locks[r][i].elem.tid == t
  {
    var node := nt.locks[r][i];
    assert NodeOk(nt, r, i);
    if Named(node, r, nt.adj[t]) {
      var k :| 0 <= k < |nt.adj[t]| && nt.adj[t][k] == NodeToken(node.elem.tid, r, node.id);
      assert NodeTokenOk(nt, t, nt.adj[t][k]);
    }
  }

  lemma AskOk(nt: NodeTable, t: nat, r: nat, isReader: bool)
    requires NodesOk(nt) && t < |nt.adj| && r < |nt.locks|
    ensures NodesOk(Ask(nt, t, r, isReader).1)
    ensures |Ask(nt, t, r, isReader).1.adj| == |nt.adj| && |Ask(nt, t, r, isReader).1.locks| == |nt.locks|
  {
    var nt' := AddNode(nt, t, r, isReader);
    AddNodeOk(nt, t, r, isReader);
    if Ask(nt, t, r, isReader).0.Granted? { GrantNodeOk(nt', r, |nt.locks[r]|); }
  }
}
