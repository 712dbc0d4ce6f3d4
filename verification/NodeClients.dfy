/**
 Clients of the lock table. A client has three obligations, which the workers meet: a thread asks for a read lock only
 while it owns fewer than `n` of them; unless `again` holds, it asks for no record that it already has a node for; and
 after a refusal it gives up all its locks. (A thread that waits asks for nothing, since `rwlock` has not returned.)
 */
module NodeClients {
  import opened Locks
  import opened Deadlock
  import opened DeadlockLimit
  import opened LockNodes
  import opened PlainTables

  ghost predicate WaitsHere(nt: NodeTable, t: nat, r: nat, p: nat) {
    && r < |nt.locks| && p < |nt.locks[r]|
    && nt.locks[r][p].elem.tid == t && nt.locks[r][p].elem.isBlocked
  }

  ghost predicate IsWaiting(nt: NodeTable, t: nat) {
    exists r: nat, p: nat :: WaitsHere(nt, t, r, p)
  }

  ghost function WaitingThreads(nt: NodeTable): set<nat> {
    set t | t in UpTo(|nt.adj|) && IsWaiting(nt, t)
  }

  /** No waits-for path among the waiting threads comes back to its start. */
  ghost predicate Free(nt: NodeTable) {
    Acyclic(Plain(nt), WaitingThreads(nt))
  }

  /** How many reader nodes of `t` a queue holds, and the first `k` queues hold. */
  function ReaderNodes(q: seq<ListNode>, t: nat): nat {
    if q == [] then 0 else
    ReaderNodes(q[..|q|-1], t) + (if q[|q|-1].elem.tid == t && q[|q|-1].elem.isReader then 1 else 0)
  }

  function ReadersOwned(nt: NodeTable, t: nat, k: nat): nat
    requires k <= |nt.locks|
  {
    if k == 0 then 0 else ReadersOwned(nt, t, k - 1) + ReaderNodes(nt.locks[k-1], t)
  }

  ghost predicate HasNode(nt: NodeTable, t: nat, r: nat) {
    r < |nt.locks| && exists p :: 0 <= p < |nt.locks[r]| && nt.locks[r][p].elem.tid == t
  }

  ghost predicate MayAsk(nt: NodeTable, t: nat, r: nat, isReader: bool, n: nat, again: bool) {
    && t < |nt.adj| && r < |nt.locks| && !IsWaiting(nt, t)
    && (isReader ==> ReadersOwned(nt, t, |nt.locks|) < n)
    && (!again ==> !HasNode(nt, t, r))
  }

  // ---------- runs ----------

  ghost predicate Asks(nt: NodeTable, nt': NodeTable, t: nat, r: nat, isReader: bool, n: nat, again: bool)
    requires NodesOk(nt)
  {
    && MayAsk(nt, t, r, isReader, n, again)
    && var res := Ask(nt, t, r, isReader);
      AskOk(nt, t, r, isReader);
      !res.0.AssertionFails? && nt' == if res.0.Refused? then ReleaseNodes(res.1, t) else res.1
  }

  ghost predicate Grants(nt: NodeTable, nt': NodeTable, r: nat, p: nat) {
    r < |nt.locks| && p < |nt.locks[r]| && CanEnter(Elems(nt.locks[r]), p) && nt' == GrantNode(nt, r, p)
  }

  ghost predicate Frees(nt: NodeTable, nt': NodeTable, t: nat) {
    t < |nt.adj| && !IsWaiting(nt, t) && nt' == ReleaseNodes(nt, t)
  }

  /** One action of a client. Tables stay well formed, so `NodesOk` never prevents one (lemma `RunNodesOk`). */
  ghost predicate NodeStep(nt: NodeTable, nt': NodeTable, n: nat, again: bool) {
    NodesOk(nt) && ((exists t: nat, r: nat, isReader: bool :: Asks(nt, nt', t, r, isReader, n, again))
      || (exists r: nat, p: nat :: Grants(nt, nt', r, p))
      || (exists t: nat :: Frees(nt, nt', t)))
  }

  ghost predicate NodeRun(run: seq<NodeTable>, n: nat, again: bool, numWorkers: nat, numRecords: nat) {
    && |run| > 0 && run[0] == EmptyNodes(numWorkers, numRecords)
    && forall i :: 0 <= i < |run| - 1 ==> NodeSteps(run, n, again, i)
  }

  ghost predicate NodeSteps(run: seq<NodeTable>, n: nat, again: bool, i: nat)
    requires i + 1 < |run|
  {
    NodeStep(run[i], run[i+1], n, again)
  }

  lemma StepNodesOk(nt: NodeTable, nt': NodeTable, n: nat, again: bool)
    requires NodeStep(nt, nt', n, again)
    ensures NodesOk(nt') && |nt'.adj| == |nt.adj| && |nt'.locks| == |nt.locks|
  {
    if t: nat, r: nat, isReader: bool :| Asks(nt, nt', t, r, isReader, n, again) {
      AskOk(nt, t, r, isReader);
      ReleaseNodesOk(Ask(nt, t, r, isReader).1, t);
    } else if r: nat, p: nat :| Grants(nt, nt', r, p) {
      GrantNodeOk(nt, r, p);
    } else {
      var t: nat :| Frees(nt, nt', t);
      ReleaseNodesOk(nt, t);
    }
  }

  /** Client steps keep tables well formed, whatever the client. */
  lemma {:induction false} RunNodesOk(run: seq<NodeTable>, n: nat, again: bool, numWorkers: nat, numRecords: nat,
                                      i: nat)
    requires NodeRun(run, n, again, numWorkers, numRecords) && i < |run|
    ensures NodesOk(run[i]) && |run[i].adj| == numWorkers && |run[i].locks| == numRecords
  {
    if i > 0 {
      RunNodesOk(run, n, again, numWorkers, numRecords, i - 1);
      assert NodeSteps(run, n, again, i - 1);
      StepNodesOk(run[i-1], run[i], n, again);
    }
  }

  // ---------- clients that never ask twice ----------

  lemma PlainHolds(nt: NodeTable, t: nat, r: nat)
    requires r < |nt.locks|
    ensures Holds(Plain(nt), t, r) <==> HasNode(nt, t, r)
  {
    var q := Elems(nt.locks[r]);
    if HasNode(nt, t, r) {
      var p :| 0 <= p < |nt.locks[r]| && nt.locks[r][p].elem.tid == t;
      assert q[p].tid == t;
    }
    if InQueue(q, t) { assert nt.locks[r][Pos(q, t)].elem.tid == t; }
  }

  lemma PlainBlocked(nt: NodeTable, t: nat)
    requires NodesOk(nt) && NoTwice(nt)
    ensures OwnsBlocked(Plain(nt), t) <==> IsWaiting(nt, t)
  {
    if OwnsBlocked(Plain(nt), t) {
      var r: nat :| Holds(Plain(nt), t, r) && ElementOf(Plain(nt), t, r).isBlocked;
      assert WaitsHere(nt, t, r, Pos(Elems(nt.locks[r]), t));
    }
    if r: nat, p: nat :| WaitsHere(nt, t, r, p) {
      PosIs(Elems(nt.locks[r]), p);
      assert Holds(Plain(nt), t, r) && ElementOf(Plain(nt), t, r).isBlocked;
    }
  }

  lemma PlainWaiting(nt: NodeTable)
    requires NodesOk(nt) && NoTwice(nt)
    ensures Waiting(Plain(nt)) == WaitingThreads(nt)
  {
    forall t: nat ensures OwnsBlocked(Plain(nt), t) <==> IsWaiting(nt, t) { PlainBlocked(nt, t); }
  }

  lemma {:induction false} ReaderNodesOnce(q: seq<ListNode>, t: nat)
    requires NoDup(Elems(q))
    ensures ReaderNodes(q, t) == if InQueue(Elems(q), t) && Elems(q)[Pos(Elems(q), t)].isReader then 1 else 0
  {
    if q != [] {
      var n := |q| - 1;
      ElemsOf(q);
      NoDupPrefix(Elems(q[..n]), q[n].elem);
      ReaderNodesOnce(q[..n], t);
      AppendPos(Elems(q[..n]), q[n].elem, t);
      if InQueue(Elems(q[..n]), t) {
        assert Elems(q)[Pos(Elems(q[..n]), t)].tid == t != Elems(q)[n].tid;
      }
    }
  }

  lemma {:induction false} PlainReaders(nt: NodeTable, t: nat, k: nat)
    requires NoTwice(nt) && k <= |nt.locks|
    ensures ReadersBelow(Plain(nt), t, k) == ReadersOwned(nt, t, k)
  {
    if k > 0 {
      PlainReaders(nt, t, k - 1);
      ReaderNodesOnce(nt.locks[k-1], t);
      PlainAt(nt, k - 1);
    }
  }

  lemma PlainMayAsk(nt: NodeTable, t: nat, r: nat, isReader: bool, n: nat)
    requires NodesOk(nt) && NoTwice(nt)
    ensures MayAsk(nt, t, r, isReader, n, false) <==> MayRequest(Plain(nt), t, r, isReader, n)
  {
    PlainBlocked(nt, t);
    PlainReaders(nt, t, |nt.locks|);
    if r < |nt.locks| { PlainHolds(nt, t, r); }
  }

  lemma PlainAsks(nt: NodeTable, nt': NodeTable, t: nat, r: nat, isReader: bool, n: nat)
    requires NodesOk(nt) && NoTwice(nt) && WellFormed(Plain(nt)) && Asks(nt, nt', t, r, isReader, n, false)
    ensures NoTwice(nt') && Requests(Plain(nt), Plain(nt'), t, r, isReader, n)
  {
    PlainMayAsk(nt, t, r, isReader, n);
    AskPlain(nt, t, r, isReader);
    AskOk(nt, t, r, isReader);
    var asked := Ask(nt, t, r, isReader).1;
    if Ask(nt, t, r, isReader).0.Refused? {
      ReleasePlain(asked, t);
      ReleaseNoTwice(asked, t);
    }
  }

  lemma ReleaseNoTwice(nt: NodeTable, t: nat)
    requires NodesOk(nt) && NoTwice(nt) && t < |nt.adj|
    ensures NoTwice(ReleaseNodes(nt, t))
  {
    var nt' := ReleaseNodes(nt, t);
    ReleasePlain(nt, t);
    forall r: nat | r < |nt'.locks| ensures NoDup(Elems(nt'.locks[r])) {
      PlainAt(nt', r);
      PlainAt(nt, r);
      EraseFacts(Elems(nt.locks[r]), t);
    }
  }

  lemma PlainStep(nt: NodeTable, nt': NodeTable, n: nat)
    requires NoTwice(nt) && NodeStep(nt, nt', n, false)
    ensures NoTwice(nt') && ClientStep(Plain(nt), Plain(nt'), n)
  {
    PlainOk(nt);
    if t: nat, r: nat, isReader: bool :| Asks(nt, nt', t, r, isReader, n, false) {
      PlainAsks(nt, nt', t, r, isReader, n);
    } else if r: nat, p: nat :| Grants(nt, nt', r, p) {
      GrantPlain(nt, r, p);
      GrantNoTwice(nt, r, p);
      PosIs(Elems(nt.locks[r]), p);
      assert Enters(Plain(nt), Plain(nt'), nt.locks[r][p].elem.tid, r);
    } else {
      var t: nat :| Frees(nt, nt', t);
      ReleasePlain(nt, t);
      ReleaseNoTwice(nt, t);
      PlainBlocked(nt, t);
      assert Releases(Plain(nt), Plain(nt'), t);
    }
  }

  function PlainRun(run: seq<NodeTable>): (r: seq<Table>)
    ensures |r| == |run|
  {
    seq(|run|, i requires 0 <= i < |run| => Plain(run[i]))
  }

  lemma {:induction false} RunNoTwice(run: seq<NodeTable>, n: nat, numWorkers: nat, numRecords: nat, i: nat)
    requires NodeRun(run, n, false, numWorkers, numRecords) && i < |run|
    ensures NoTwice(run[i])
  {
    if i > 0 {
      RunNoTwice(run, n, numWorkers, numRecords, i - 1);
      assert NodeSteps(run, n, false, i - 1);
      PlainStep(run[i-1], run[i], n);
    }
  }

  lemma PlainEmpty(numWorkers: nat, numRecords: nat)
    ensures Plain(EmptyNodes(numWorkers, numRecords)) == EmptyTable(numWorkers, numRecords)
  {
    assert Plain(EmptyNodes(numWorkers, numRecords)).locks == EmptyTable(numWorkers, numRecords).locks;
    assert Plain(EmptyNodes(numWorkers, numRecords)).adj == EmptyTable(numWorkers, numRecords).adj;
  }

  lemma PlainStepAt(run: seq<NodeTable>, n: nat, numWorkers: nat, numRecords: nat, i: nat)
    requires NodeRun(run, n, false, numWorkers, numRecords) && i + 1 < |run|
    ensures ClientStep(Plain(run[i]), Plain(run[i+1]), n)
  {
    RunNoTwice(run, n, numWorkers, numRecords, i);
    assert NodeSteps(run, n, false, i);
    PlainStep(run[i], run[i+1], n);
  }

  /** Forgetting the nodes turns a run of such a client into a run on the tables of `Locks`. */
  lemma PlainRunIsRun(run: seq<NodeTable>, n: nat, numWorkers: nat, numRecords: nat)
    requires NodeRun(run, n, false, numWorkers, numRecords)
    ensures ClientRun(PlainRun(run), n, numWorkers, numRecords)
  {
    PlainEmpty(numWorkers, numRecords);
    forall i | 0 <= i < |run| - 1 ensures ClientSteps(PlainRun(run), n, i) {
      PlainStepAt(run, n, numWorkers, numRecords, i);
    }
  }

  // ---------- and back ----------

  lemma LiftStep(nt: NodeTable, tb': Table, n: nat, again: bool) returns (nt': NodeTable)
    requires NodesOk(nt) && NoTwice(nt) && ClientStep(Plain(nt), tb', n)
    ensures NodesOk(nt') && NoTwice(nt') && Plain(nt') == tb' && NodeStep(nt, nt', n, again)
  {
    var tb := Plain(nt);
    if t: nat, r: nat, isReader: bool :| Requests(tb, tb', t, r, isReader, n) {
      nt' := LiftRequest(nt, tb', t, r, isReader, n, again);
    } else if t: nat, r: nat :| Enters(tb, tb', t, r) {
      var p := Pos(Elems(nt.locks[r]), t);
      PlainAt(nt, r);
      nt' := GrantNode(nt, r, p);
      GrantPlain(nt, r, p);
      GrantNoTwice(nt, r, p);
      GrantNodeOk(nt, r, p);
      assert Grants(nt, nt', r, p);
    } else {
      var t: nat :| Releases(tb, tb', t);
      nt' := ReleaseNodes(nt, t);
      ReleasePlain(nt, t);
      ReleaseNoTwice(nt, t);
      ReleaseNodesOk(nt, t);
      PlainBlocked(nt, t);
      assert Frees(nt, nt', t);
    }
  }

  lemma LiftRequest(nt: NodeTable, tb': Table, t: nat, r: nat, isReader: bool, n: nat, again: bool)
    returns (nt': NodeTable)
    requires NodesOk(nt) && NoTwice(nt) && WellFormed(Plain(nt)) && Requests(Plain(nt), tb', t, r, isReader, n)
    ensures NodesOk(nt') && NoTwice(nt') && Plain(nt') == tb' && NodeStep(nt, nt', n, again)
  {
    PlainMayAsk(nt, t, r, isReader, n);
    AskPlain(nt, t, r, isReader);
    AskOk(nt, t, r, isReader);
    nt' := Ask(nt, t, r, isReader).1;
    if Ask(nt, t, r, isReader).0.Refused? {
      ReleasePlain(nt', t);
      ReleaseNoTwice(nt', t);
      ReleaseNodesOk(nt', t);
      nt' := ReleaseNodes(nt', t);
    }
    assert Asks(nt, nt', t, r, isReader, n, again);
  }

  lemma RunExtends(run: seq<NodeTable>, nt: NodeTable, n: nat, again: bool, numWorkers: nat, numRecords: nat)
    requires NodeRun(run, n, again, numWorkers, numRecords) && NodeStep(run[|run|-1], nt, n, again)
    ensures NodeRun(run + [nt], n, again, numWorkers, numRecords)
  {
    var run' := run + [nt];
    forall j | 0 <= j < |run'| - 1 ensures NodeSteps(run', n, again, j) {
      if j < |run| - 1 { assert NodeSteps(run, n, again, j); }
    }
  }

  /** Every run on the tables of `Locks` comes from a run on nodes. */
  lemma {:induction false} LiftRun(plain: seq<Table>, n: nat, again: bool, numWorkers: nat, numRecords: nat, i: nat)
    returns (run: seq<NodeTable>)
    requires ClientRun(plain, n, numWorkers, numRecords) && i < |plain|
    ensures NodeRun(run, n, again, numWorkers, numRecords) && |run| == i + 1
    ensures NodesOk(run[i]) && NoTwice(run[i]) && Plain(run[i]) == plain[i]
  {
    if i == 0 {
      run := [EmptyNodes(numWorkers, numRecords)];
      PlainEmpty(numWorkers, numRecords);
    } else {
      var before := LiftRun(plain, n, again, numWorkers, numRecords, i - 1);
      assert ClientSteps(plain, n, i - 1);
      var nt := LiftStep(before[i-1], plain[i], n, again);
      run := before + [nt];
      RunExtends(before, nt, n, again, numWorkers, numRecords);
    }
  }
}
