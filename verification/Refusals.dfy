/**
 What the answer to a lock request means, for readers and writers alike: when a request is granted at once, and what
 chain of threads a refusal rests on. The chain is weaker than a deadlock, since the search follows granted elements
 too.
 */
module Refusals {
  import opened Locks
  import opened LockNodes
  import opened NodeClients

  /** In queue `r`, the element at `p` is one of `x`, right behind one of `y`. */
  ghost predicate LinkAt(tb: Table, x: nat, y: nat, r: nat, p: nat) {
    r < |tb.locks| && 0 < p < |tb.locks[r]| && tb.locks[r][p].tid == x && tb.locks[r][p-1].tid == y
  }

  /** Some element of `x` stands right behind one of `y`. */
  ghost predicate Link(tb: Table, x: nat, y: nat) {
    exists r: nat, p: nat :: LinkAt(tb, x, y, r, p)
  }

  ghost predicate BlockedLink(tb: Table, x: nat, y: nat) {
    exists r: nat, p: nat :: LinkAt(tb, x, y, r, p) && tb.locks[r][p].isBlocked
  }

  ghost predicate ChainStep(tb: Table, me: nat, path: seq<nat>, i: nat)
    requires i + 1 < |path|
  {
    path[i] != me && Link(tb, path[i], path[i+1])
  }

  ghost predicate BlockedStep(tb: Table, path: seq<nat>, i: nat) {
    i + 1 < |path| && BlockedLink(tb, path[i], path[i+1])
  }

  /** A chain of links from `x` to `me`, which it meets at its end only. */
  ghost predicate ChainTo(tb: Table, me: nat, x: nat, path: seq<nat>) {
    && path != [] && path[0] == x && path[|path|-1] == me
    && forall i: nat :: i + 1 < |path| ==> ChainStep(tb, me, path, i)
  }

  /** A chain of threads from `t` back to itself, each with an element right behind one of the next, on which some
      thread other than `t` has a blocked element in this place. */
  ghost predicate Suspicion(tb: Table, t: nat) {
    exists x: nat, path: seq<nat> :: SuspectChain(tb, t, x, path)
  }

  ghost predicate SuspectChain(tb: Table, t: nat, x: nat, path: seq<nat>) {
    && Link(tb, t, x) && x != t && ChainTo(tb, t, x, path)
    && exists i: nat :: BlockedStep(tb, path, i)
  }

  /** Thread `u` owns a blocked element. */
  ghost predicate BlockedSomewhere(tb: Table, u: nat) {
    exists r: nat, p: nat :: BlockedAt(tb, u, r, p)
  }

  ghost predicate BlockedAt(tb: Table, u: nat, r: nat, p: nat) {
    r < |tb.locks| && p < |tb.locks[r]| && tb.locks[r][p].tid == u && tb.locks[r][p].isBlocked
  }

  lemma SuspicionNeedsBlocked(tb: Table, t: nat)
    requires Suspicion(tb, t)
    ensures exists u: nat :: u != t && BlockedSomewhere(tb, u)
  {
    var x: nat, path: seq<nat> :| SuspectChain(tb, t, x, path);
    var i: nat :| BlockedStep(tb, path, i);
    assert ChainStep(tb, t, path, i);
    var r: nat, p: nat :| LinkAt(tb, path[i], path[i+1], r, p) && tb.locks[r][p].isBlocked;
    assert BlockedAt(tb, path[i], r, p);
    assert BlockedSomewhere(tb, path[i]);
  }

  /** The elements of other threads are those from before the request. */
  lemma OldBlocked(tb: Table, t: nat, r: nat, isReader: bool, u: nat)
    requires t < |tb.adj| && r < |tb.locks| && u != t && BlockedSomewhere(AddLock(tb, t, r, isReader), u)
    ensures BlockedSomewhere(tb, u)
  {
    var s: nat, p: nat :| BlockedAt(AddLock(tb, t, r, isReader), u, s, p);
    assert BlockedAt(tb, u, s, p);
  }

  lemma ChainGrows(tb: Table, me: nat, x: nat, y: nat, r: nat, p: nat, rest: seq<nat>) returns (path: seq<nat>)
    requires x != me && LinkAt(tb, x, y, r, p) && ChainTo(tb, me, y, rest)
    ensures ChainTo(tb, me, x, path)
    ensures (exists i: nat :: BlockedStep(tb, rest, i)) || tb.locks[r][p].isBlocked
      ==> exists i: nat :: BlockedStep(tb, path, i)
  {
    path := [x] + rest;
    forall i: nat | i + 1 < |path| ensures ChainStep(tb, me, path, i) {
      if i > 0 { assert ChainStep(tb, me, rest, i - 1); }
    }
    if i: nat :| BlockedStep(tb, rest, i) { assert BlockedStep(tb, path, i + 1); }
    if tb.locks[r][p].isBlocked { assert BlockedStep(tb, path, 0); }
  }

  // ---------- tables without nodes ----------

  lemma {:induction false} DetectChain(tb: Table, me: nat, x: nat, blocked: bool, visit: set<nat>)
    returns (path: seq<nat>)
    requires WellFormed(tb) && x < |tb.adj| && x !in visit && Detect(tb, me, x, blocked, visit).0
    ensures ChainTo(tb, me, x, path) && (blocked || exists i: nat :: BlockedStep(tb, path, i))
    decreases Threads(tb) - visit, 0, 0
  {
    if x == me { path := [me]; } else { path := DetectFromChain(tb, me, x, 0, blocked, visit + {x}); }
  }

  lemma {:induction false} DetectFromChain(tb: Table, me: nat, x: nat, k: nat, blocked: bool, visit: set<nat>)
    returns (path: seq<nat>)
    requires WellFormed(tb) && x < |tb.adj| && k <= |tb.adj[x]| && x != me && DetectFrom(tb, me, x, k, blocked, visit).0
    ensures ChainTo(tb, me, x, path) && (blocked || exists i: nat :: BlockedStep(tb, path, i))
    decreases Threads(tb) - visit, 1, |tb.adj[x]| - k
  {
    assert TokenOk(tb, x, tb.adj[x][k]);
    var r := tb.adj[x][k].index;
    var q := tb.locks[r];
    var p := Pos(q, x);
    if p == 0 || q[p-1].tid in visit {
      path := DetectFromChain(tb, me, x, k + 1, blocked, visit);
    } else {
      assert CoveredAt(tb, r, p - 1);
      var y := q[p-1].tid;
      var sub := Detect(tb, me, y, blocked || q[p].isBlocked, visit);
      if sub.0 {
        var rest := DetectChain(tb, me, y, blocked || q[p].isBlocked, visit);
        path := ChainGrows(tb, me, x, y, r, p, rest);
      } else {
        path := DetectFromChain(tb, me, x, k + 1, blocked, sub.1);
      }
    }
  }

  /** A refusal rests on a chain from the requester back to itself. */
  lemma RefusalHasChain(tb: Table, t: nat, r: nat, isReader: bool)
    requires WellFormed(tb) && t < |tb.adj| && r < |tb.locks| && !Holds(tb, t, r)
    requires RequestLock(tb, t, r, isReader).0.DeadlockDetected?
    ensures Suspicion(RequestLock(tb, t, r, isReader).1, t)
  {
    var tb' := AddLock(tb, t, r, isReader);
    AddLockKeeps(tb, t, r, isReader);
    AddLockElements(tb, t, r, isReader);
    var p := |tb.locks[r]|;
    var x := tb'.locks[r][p-1].tid;
    assert CoveredAt(tb', r, p - 1);
    PosIs(tb'.locks[r], p - 1);
    var path := DetectChain(tb', t, x, false, {});
    assert LinkAt(tb', t, x, r, p);
    assert SuspectChain(tb', t, x, path);
  }

  /** No request is refused while no other thread owns a blocked element. */
  lemma NoRefusalWithoutWaiter(tb: Table, t: nat, r: nat, isReader: bool)
    requires WellFormed(tb) && t < |tb.adj| && r < |tb.locks| && !Holds(tb, t, r)
    requires forall u: nat :: u != t ==> !BlockedSomewhere(tb, u)
    ensures !RequestLock(tb, t, r, isReader).0.DeadlockDetected?
  {
    if RequestLock(tb, t, r, isReader).0.DeadlockDetected? {
      var tb' := AddLock(tb, t, r, isReader);
      RefusalHasChain(tb, t, r, isReader);
      SuspicionNeedsBlocked(tb', t);
      var u: nat :| u != t && BlockedSomewhere(tb', u);
      OldBlocked(tb, t, r, isReader, u);
    }
  }

  /** A request is granted at once if and only if nobody is queued, or it is to read and only granted readers are. */
  lemma GrantedAtOnce(tb: Table, t: nat, r: nat, isReader: bool)
    requires WellFormed(tb) && t < |tb.adj| && r < |tb.locks| && !Holds(tb, t, r)
    ensures RequestLock(tb, t, r, isReader).0.Acquired? <==>
      tb.locks[r] == [] || (isReader && forall p :: 0 <= p < |tb.locks[r]| ==>
        tb.locks[r][p].isReader && !tb.locks[r][p].isBlocked)
  {
    AddLockElements(tb, t, r, isReader);
    var q := tb.locks[r];
    if q != [] && q[|q|-1].isReader && !q[|q|-1].isBlocked {
      forall p | 0 <= p < |q| ensures q[p].isReader && !q[p].isBlocked { GrantedPrefix(q, |q| - 1, p); }
    }
  }

  // ---------- tables with nodes ----------

  lemma {:induction false} SearchLinks(nt: NodeTable, me: nat, x: nat, blocked: bool, visit: set<nat>)
    returns (path: seq<nat>)
    requires NodesOk(nt) && x < |nt.adj| && x !in visit && Search(nt, me, x, blocked, visit).0
    ensures ChainTo(Plain(nt), me, x, path) && (blocked || exists i: nat :: BlockedStep(Plain(nt), path, i))
    decreases UpTo(|nt.adj|) - visit, 0, 0
  {
    if x == me { path := [me]; } else { path := SearchFromLinks(nt, me, x, 0, blocked, visit + {x}); }
  }

  lemma {:induction false} SearchFromLinks(nt: NodeTable, me: nat, x: nat, k: nat, blocked: bool, visit: set<nat>)
    returns (path: seq<nat>)
    requires NodesOk(nt) && x < |nt.adj| && k <= |nt.adj[x]| && x != me
    requires SearchFrom(nt, me, x, k, blocked, visit).0
    ensures ChainTo(Plain(nt), me, x, path) && (blocked || exists i: nat :: BlockedStep(Plain(nt), path, i))
    decreases UpTo(|nt.adj|) - visit, 1, |nt.adj[x]| - k
  {
    var token := nt.adj[x][k];
    assert NodeTokenOk(nt, x, token);
    var q := nt.locks[token.index];
    var p := At(q, token.id);
    if p == 0 || q[p-1].elem.tid in visit {
      path := SearchFromLinks(nt, me, x, k + 1, blocked, visit);
    } else {
      assert NodeOk(nt, token.index, p - 1);
      var y := q[p-1].elem.tid;
      var sub := Search(nt, me, y, blocked || q[p].elem.isBlocked, visit);
      if sub.0 {
        var rest := SearchLinks(nt, me, y, blocked || q[p].elem.isBlocked, visit);
        assert LinkAt(Plain(nt), x, y, token.index, p);
        path := ChainGrows(Plain(nt), me, x, y, token.index, p, rest);
      } else {
        path := SearchFromLinks(nt, me, x, k + 1, blocked, sub.1);
      }
    }
  }

  lemma NodeRefusalHasChain(nt: NodeTable, t: nat, r: nat, isReader: bool)
    requires NodesOk(nt) && t < |nt.adj| && r < |nt.locks| && Ask(nt, t, r, isReader).0.Refused?
    ensures Suspicion(Plain(Ask(nt, t, r, isReader).1), t)
  {
    var nt' := AddNode(nt, t, r, isReader);
    AddNodeOk(nt, t, r, isReader);
    var p := |nt.locks[r]|;
    var x := nt'.locks[r][p-1].elem.tid;
    assert NodeOk(nt', r, p - 1);
    var path := SearchLinks(nt', t, x, false, {});
    assert LinkAt(Plain(nt'), t, x, r, p);
    assert SuspectChain(Plain(nt'), t, x, path);
  }

  lemma OldWaiting(nt: NodeTable, t: nat, r: nat, isReader: bool, u: nat)
    requires t < |nt.adj| && r < |nt.locks| && u != t && BlockedSomewhere(Plain(AddNode(nt, t, r, isReader)), u)
    ensures IsWaiting(nt, u)
  {
    var s: nat, p: nat :| BlockedAt(Plain(AddNode(nt, t, r, isReader)), u, s, p);
    assert WaitsHere(nt, u, s, p);
  }

  lemma NoNodeRefusalWithoutWaiter(nt: NodeTable, t: nat, r: nat, isReader: bool)
    requires NodesOk(nt) && t < |nt.adj| && r < |nt.locks| && forall u: nat :: u != t ==> !IsWaiting(nt, u)
    ensures !Ask(nt, t, r, isReader).0.Refused?
  {
    if Ask(nt, t, r, isReader).0.Refused? {
      var nt' := AddNode(nt, t, r, isReader);
      NodeRefusalHasChain(nt, t, r, isReader);
      SuspicionNeedsBlocked(Plain(nt'), t);
      var u: nat :| u != t && BlockedSomewhere(Plain(nt'), u);
      OldWaiting(nt, t, r, isReader, u);
    }
  }

  /** And so it is with nodes, whoever the elements in the queue belong to. */
  lemma NodeGrantedAtOnce(nt: NodeTable, t: nat, r: nat, isReader: bool)
    requires NodesOk(nt) && t < |nt.adj| && r < |nt.locks|
    ensures Ask(nt, t, r, isReader).0.Granted? <==>
      nt.locks[r] == [] || (isReader && forall p :: 0 <= p < |nt.locks[r]| ==>
        nt.locks[r][p].elem.isReader && !nt.locks[r][p].elem.isBlocked)
  {
    assert QueueOk(nt, r);
    var q := Elems(nt.locks[r]);
    assert forall p :: 0 <= p < |q| ==> q[p] == nt.locks[r][p].elem;
    if q != [] && q[|q|-1].isReader && !q[|q|-1].isBlocked {
      forall p | 0 <= p < |q| ensures q[p].isReader && !q[p].isBlocked { GrantedPrefix(q, |q| - 1, p); }
    }
  }
}
