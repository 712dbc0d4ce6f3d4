/**
 For which clients the deadlock search is right. `n` is the limit on the read locks a thread may own when it asks for
 one more, and `again` says whether a thread may ask for a record that it already has a node for. In every run of
 every client with these habits, which gives up all locks of a thread after its refusal,

 - no deadlock arises unreported if and only if n == 0, or n == 1 and not again;
 - the assertion in `hasCycle` never fails if and only if not again;
 - every report is of a real cycle of waits if and only if n == 0.
 */
module SearchLimits {
  import opened Locks
  import opened Deadlock
  import opened DeadlockLimit
  import opened LockNodes
  import opened PlainTables
  import opened NodeClients
  import opened NodeWaits

  // ---------- what a deadlock does ----------

  lemma WaitKept(nt: NodeTable, nt': NodeTable, n: nat, again: bool, t: nat, u: nat)
    requires NodeStep(nt, nt', n, again) && Waits(Plain(nt), t, u) && IsWaiting(nt, t) && IsWaiting(nt, u)
    ensures Waits(Plain(nt'), t, u) && IsWaiting(nt', t)
  {
    if v: nat, r: nat, isReader: bool :| Asks(nt, nt', v, r, isReader, n, again) {
      AskKeepsWait(nt, nt', v, r, isReader, n, again, t, u);
    } else if r: nat, p: nat :| Grants(nt, nt', r, p) {
      GrantKeepsWait(nt, r, p, t, u);
    } else {
      var v: nat :| Frees(nt, nt', v);
      var r, p, m, c := WaiterWaits(nt, t, u);
      if c > 0 { WriterWaits(nt, r, c); }
      ReleaseKeepsWait(nt, v, r, p, m, c);
    }
  }

  lemma AskKeepsWait(nt: NodeTable, nt': NodeTable, v: nat, r: nat, isReader: bool, n: nat, again: bool, t: nat, u: nat)
    requires NodesOk(nt) && Asks(nt, nt', v, r, isReader, n, again)
    requires Waits(Plain(nt), t, u) && IsWaiting(nt, t) && IsWaiting(nt, u)
    ensures Waits(Plain(nt'), t, u) && IsWaiting(nt', t)
  {
    var added := AddNode(nt, v, r, isReader);
    AddNodeOk(nt, v, r, isReader);
    AddKeepsWait(nt, v, r, isReader, t, u);
    var answer := Ask(nt, v, r, isReader).0;
    if answer.Granted? {
      GrantKeepsWait(added, r, |nt.locks[r]|, t, u);
    } else if answer.Refused? {
      RefusedKeepsWait(nt, v, r, isReader, t, u);
    }
  }

  lemma RefusedKeepsWait(nt: NodeTable, v: nat, r: nat, isReader: bool, t: nat, u: nat)
    requires NodesOk(nt) && v < |nt.adj| && r < |nt.locks| && !IsWaiting(nt, v)
    requires Waits(Plain(nt), t, u) && IsWaiting(nt, t) && IsWaiting(nt, u)
    ensures var nt' := ReleaseNodes(AddNode(nt, v, r, isReader), v); Waits(Plain(nt'), t, u) && IsWaiting(nt', t)
  {
    var added := AddNode(nt, v, r, isReader);
    AddNodeOk(nt, v, r, isReader);
    var s, p, m, c := WaiterWaits(nt, t, u);
    if c > 0 { WriterWaits(nt, s, c); }
    ReleaseKeepsWait(added, v, s, p, m, c);
  }

  lemma CycleKept(nt: NodeTable, nt': NodeTable, n: nat, again: bool, path: seq<nat>)
    requires NodeStep(nt, nt', n, again) && WaitCycle(nt, path)
    ensures WaitCycle(nt', path)
  {
    StepNodesOk(nt, nt', n, again);
    var last := |path| - 1;
    forall i | 0 <= i < last ensures WaitStep(Plain(nt'), WaitingThreads(nt'), path, i) {
      assert WaitStep(Plain(nt), WaitingThreads(nt), path, i);
      assert WaitStep(Plain(nt), WaitingThreads(nt), path, if i + 1 < last then i + 1 else 0);
      WaitKept(nt, nt', n, again, path[i], path[i+1]);
    }
  }

  /** A deadlock is for ever: whatever the other threads do, the threads of a cycle go on waiting for one another, and
      none of them can enter. */
  lemma {:induction false} DeadlockIsForever(run: seq<NodeTable>, n: nat, again: bool, numWorkers: nat, numRecords: nat,
                                             i: nat, j: nat, path: seq<nat>)
    requires NodeRun(run, n, again, numWorkers, numRecords) && i <= j < |run| && WaitCycle(run[i], path)
    ensures WaitCycle(run[j], path)
    ensures forall k :: 0 <= k < |path| ==> IsWaiting(run[j], path[k])
  {
    if i < j {
      DeadlockIsForever(run, n, again, numWorkers, numRecords, i, j - 1, path);
      assert NodeSteps(run, n, again, j - 1);
      CycleKept(run[j-1], run[j], n, again, path);
    }
    forall k | 0 <= k < |path| ensures IsWaiting(run[j], path[k]) {
      assert WaitStep(Plain(run[j]), WaitingThreads(run[j]), path, if k < |path| - 1 then k else 0);
    }
  }

  // ---------- the three properties of a client ----------

  ghost predicate AlwaysFree(run: seq<NodeTable>) {
    forall i :: 0 <= i < |run| ==> Free(run[i])
  }

  /** No run of a client reaches a deadlock: the search has reported it in time. */
  ghost predicate MissesNothing(n: nat, again: bool) {
    forall run: seq<NodeTable>, numWorkers: nat, numRecords: nat ::
      NodeRun(run, n, again, numWorkers, numRecords) ==> AlwaysFree(run)
  }

  /** What holds of the answer to every request that the client may make in the last table of a run. */
  ghost predicate NoFailure(nt: NodeTable, n: nat, again: bool)
    requires NodesOk(nt)
  {
    forall t: nat, r: nat, isReader: bool :: MayAsk(nt, t, r, isReader, n, again)
      ==> !Ask(nt, t, r, isReader).0.AssertionFails?
  }

  ghost predicate RealReports(nt: NodeTable, n: nat, again: bool)
    requires NodesOk(nt)
  {
    forall t: nat, r: nat, isReader: bool :: MayAsk(nt, t, r, isReader, n, again) ==> ReportOk(nt, t, r, isReader)
  }

  ghost predicate ReportOk(nt: NodeTable, t: nat, r: nat, isReader: bool)
    requires NodesOk(nt) && t < |nt.adj| && r < |nt.locks|
  {
    Ask(nt, t, r, isReader).0.Refused? ==> RealReport(Ask(nt, t, r, isReader).1, t)
  }

  ghost predicate Reachable(nt: NodeTable, n: nat, again: bool) {
    exists run: seq<NodeTable>, numWorkers: nat, numRecords: nat :: ReachedBy(nt, n, again, run, numWorkers, numRecords)
  }

  ghost predicate ReachedBy(nt: NodeTable, n: nat, again: bool, run: seq<NodeTable>, numWorkers: nat, numRecords: nat) {
    NodeRun(run, n, again, numWorkers, numRecords) && run[|run|-1] == nt
  }

  lemma ReachableOk(nt: NodeTable, n: nat, again: bool)
    requires Reachable(nt, n, again)
    ensures NodesOk(nt)
  {
    var run: seq<NodeTable>, numWorkers: nat, numRecords: nat :| ReachedBy(nt, n, again, run, numWorkers, numRecords);
    RunNodesOk(run, n, again, numWorkers, numRecords, |run| - 1);
  }

  /** The assertion in `hasCycle` holds in every run of the client. */
  ghost predicate AssertionHolds(n: nat, again: bool) {
    forall nt: NodeTable :: Reachable(nt, n, again) ==> NodesOk(nt) && NoFailure(nt, n, again)
  }

  /** Every request that is refused in a run of the client closes a cycle of waits through its thread. */
  ghost predicate ReportsAreReal(n: nat, again: bool) {
    forall nt: NodeTable :: Reachable(nt, n, again) ==> NodesOk(nt) && RealReports(nt, n, again)
  }

  // ---------- writers only ----------

  ghost predicate WritersInv(nt: NodeTable) {
    NodesOk(nt) && WritersOnly(nt) && Free(nt)
  }

  lemma GrantedWaits(nt: NodeTable, t: nat, r: nat, x: nat, u: nat)
    requires t < |nt.adj| && r < |nt.locks| && !IsWaiting(nt, t)
    requires var added := AddNode(nt, t, r, false); Waits(Plain(GrantNode(added, r, |nt.locks[r]|)), x, u)
    ensures Waits(Plain(nt), x, u) && IsWaiting(nt, x)
  {
    var added := AddNode(nt, t, r, false);
    var s, p, m, c := WaiterWaits(GrantNode(added, r, |nt.locks[r]|), x, u);
    assert WaitsHere(nt, x, s, p);
    GrantWaits(added, r, |nt.locks[r]|, x, u);
    AddWaits(nt, t, r, false, x, u);
  }

  lemma RefusedWaits(nt: NodeTable, t: nat, r: nat, x: nat, u: nat)
    requires NodesOk(nt) && t < |nt.adj| && r < |nt.locks|
    requires Waits(Plain(ReleaseNodes(AddNode(nt, t, r, false), t)), x, u)
    ensures Waits(Plain(nt), x, u) && IsWaiting(nt, x)
  {
    var added := AddNode(nt, t, r, false);
    AddNodeOk(nt, t, r, false);
    var s, p, m, c := WaiterWaits(ReleaseNodes(added, t), x, u);
    var i := DropFrom(added.locks[s], s, added.adj[t], p);
    NamedOwner(added, t, s, i);
    ReleaseWaits(added, t, x, u);
    AddWaits(nt, t, r, false, x, u);
  }

  lemma WritersAsk(nt: NodeTable, nt': NodeTable, t: nat, r: nat, again: bool)
    requires WritersInv(nt) && Asks(nt, nt', t, r, false, 0, again)
    ensures WritersInv(nt')
  {
    var added := AddNode(nt, t, r, false);
    AskOk(nt, t, r, false);
    AddNodeOk(nt, t, r, false);
    match Ask(nt, t, r, false).0
    case Granted =>
      forall x: nat, u: nat | Waits(Plain(nt'), x, u) ensures Waits(Plain(nt), x, u) && IsWaiting(nt, x) {
        GrantedWaits(nt, t, r, x, u);
      }
      FewerWaits(nt, nt');
    case Refused =>
      ReleaseNodesOk(added, t);
      ReleaseWriters(added, t);
      forall x: nat, u: nat | Waits(Plain(nt'), x, u) ensures Waits(Plain(nt), x, u) && IsWaiting(nt, x) {
        RefusedWaits(nt, t, r, x, u);
      }
      FewerWaits(nt, nt');
    case LeftWaiting => WritersComplete(nt, t, r);
  }

  lemma ReleaseWriters(nt: NodeTable, t: nat)
    requires WritersOnly(nt) && t < |nt.adj|
    ensures WritersOnly(ReleaseNodes(nt, t))
  {
    var nt' := ReleaseNodes(nt, t);
    forall r: nat, p: nat | r < |nt'.locks| && p < |nt'.locks[r]| ensures !nt'.locks[r][p].elem.isReader {
      var i := DropFrom(nt.locks[r], r, nt.adj[t], p);
    }
  }

  lemma WritersStep(nt: NodeTable, nt': NodeTable, again: bool)
    requires WritersInv(nt) && NodeStep(nt, nt', 0, again)
    ensures WritersInv(nt')
  {
    StepNodesOk(nt, nt', 0, again);
    if t: nat, r: nat, isReader: bool :| Asks(nt, nt', t, r, isReader, 0, again) {
      WritersAsk(nt, nt', t, r, again);
    } else if r: nat, p: nat :| Grants(nt, nt', r, p) {
      forall x: nat, u: nat | Waits(Plain(nt'), x, u) ensures Waits(Plain(nt), x, u) && IsWaiting(nt, x) {
        GrantWaits(nt, r, p, x, u);
      }
      FewerWaits(nt, nt');
    } else {
      var t: nat :| Frees(nt, nt', t);
      ReleaseWriters(nt, t);
      forall x: nat, u: nat | Waits(Plain(nt'), x, u) ensures Waits(Plain(nt), x, u) && IsWaiting(nt, x) {
        ReleaseWaits(nt, t, x, u);
      }
      FewerWaits(nt, nt');
    }
  }

  lemma EmptyIsFree(numWorkers: nat, numRecords: nat)
    ensures WritersInv(EmptyNodes(numWorkers, numRecords))
  {
    var nt := EmptyNodes(numWorkers, numRecords);
    NobodyWaits(Plain(nt));
    assert forall t: nat :: !IsWaiting(nt, t);
    assert WaitingThreads(nt) == {};
  }

  lemma {:induction false} WritersRun(run: seq<NodeTable>, again: bool, numWorkers: nat, numRecords: nat, i: nat)
    requires NodeRun(run, 0, again, numWorkers, numRecords) && i < |run|
    ensures WritersInv(run[i])
  {
    if i == 0 {
      EmptyIsFree(numWorkers, numRecords);
    } else {
      WritersRun(run, again, numWorkers, numRecords, i - 1);
      assert NodeSteps(run, 0, again, i - 1);
      WritersStep(run[i-1], run[i], again);
    }
  }

  // ---------- at most one read lock, and no record twice ----------

  lemma OneReadRun(run: seq<NodeTable>, n: nat, numWorkers: nat, numRecords: nat, i: nat)
    requires n <= 1 && NodeRun(run, n, false, numWorkers, numRecords) && i < |run|
    ensures Free(run[i])
  {
    RunNodesOk(run, n, false, numWorkers, numRecords, i);
    RunNoTwice(run, n, numWorkers, numRecords, i);
    PlainRunIsRun(run, n, numWorkers, numRecords);
    ClientRunInv(PlainRun(run), n, numWorkers, numRecords, i);
    PlainWaiting(run[i]);
  }

  lemma NeverTwiceNoFailure(nt: NodeTable, n: nat)
    requires NodesOk(nt) && NoTwice(nt)
    ensures NoFailure(nt, n, false)
  {
    forall t: nat, r: nat, isReader: bool | MayAsk(nt, t, r, isReader, n, false)
      ensures !Ask(nt, t, r, isReader).0.AssertionFails?
    {
      PlainHolds(nt, t, r);
      AskPlain(nt, t, r, isReader);
    }
  }

  // ---------- small runs ----------

  /** A run that has come to table `nt`. */
  ghost predicate Comes(run: seq<NodeTable>, nt: NodeTable, n: nat, again: bool, numWorkers: nat, numRecords: nat) {
    ReachedBy(nt, n, again, run, numWorkers, numRecords) && NodesOk(nt)
  }

  lemma {:induction false} NoReaderNodes(q: seq<ListNode>, t: nat)
    requires forall p :: 0 <= p < |q| && q[p].elem.tid == t ==> !q[p].elem.isReader
    ensures ReaderNodes(q, t) == 0
  {
    if q != [] { NoReaderNodes(q[..|q|-1], t); }
  }

  ghost predicate OwnsNoReader(nt: NodeTable, t: nat) {
    forall r, p :: 0 <= r < |nt.locks| && 0 <= p < |nt.locks[r]| && nt.locks[r][p].elem.tid == t
      ==> !nt.locks[r][p].elem.isReader
  }

  lemma {:induction false} NoReadersOwned(nt: NodeTable, t: nat, k: nat)
    requires k <= |nt.locks| && OwnsNoReader(nt, t)
    ensures ReadersOwned(nt, t, k) == 0
  {
    if k > 0 {
      NoReadersOwned(nt, t, k - 1);
      NoReaderNodes(nt.locks[k-1], t);
    }
  }

  /** A request that a client with the limit `n` may make, for a read lock only if the thread owns none. */
  ghost predicate Asker(nt: NodeTable, t: nat, r: nat, isReader: bool, n: nat, again: bool) {
    && t < |nt.adj| && r < |nt.locks| && !IsWaiting(nt, t)
    && (isReader ==> OwnsNoReader(nt, t) && n > 0)
    && (!again ==> !HasNode(nt, t, r))
  }

  /** `nt'` is `nt` with one more node at the end of queue `r`. */
  ghost predicate OneMore(nt: NodeTable, nt': NodeTable, r: nat, e: LockElement) {
    && |nt'.locks| == |nt.locks| && |nt'.adj| == |nt.adj| && r < |nt.locks| && e.tid < |nt.adj|
      && nt'.nextId == nt.nextId + 1
    && (forall s :: 0 <= s < |nt.locks| ==>
          nt'.locks[s] == if s == r then nt.locks[s] + [ListNode(nt.nextId, e)] else nt.locks[s])
    && (forall u :: 0 <= u < |nt.adj| ==>
          nt'.adj[u] == if u == e.tid then nt.adj[u] + [NodeToken(u, r, nt.nextId)] else nt.adj[u])
  }

  lemma OneMoreIs(nt: NodeTable, nt': NodeTable, r: nat, e: LockElement)
    requires OneMore(nt, nt', r, e)
    ensures nt' == NodeTable(nt.locks[r := nt.locks[r] + [ListNode(nt.nextId, e)]],
                             nt.adj[e.tid := nt.adj[e.tid] + [NodeToken(e.tid, r, nt.nextId)]], nt.nextId + 1)
  {
    assert nt'.locks == nt.locks[r := nt.locks[r] + [ListNode(nt.nextId, e)]];
    assert nt'.adj == nt.adj[e.tid := nt.adj[e.tid] + [NodeToken(e.tid, r, nt.nextId)]];
  }

  lemma AskerMayAsk(nt: NodeTable, t: nat, r: nat, isReader: bool, n: nat, again: bool)
    requires Asker(nt, t, r, isReader, n, again)
    ensures MayAsk(nt, t, r, isReader, n, again)
  {
    if isReader { NoReadersOwned(nt, t, |nt.locks|); }
  }

  lemma ComeByGrant(run: seq<NodeTable>, nt: NodeTable, nt': NodeTable, n: nat, again: bool, numWorkers: nat,
                    numRecords: nat,
                    t: nat, r: nat, isReader: bool)
    requires Comes(run, nt, n, again, numWorkers, numRecords) && Asker(nt, t, r, isReader, n, again)
    requires OneMore(nt, nt', r, LockElement(t, isReader, false))
    requires var q := nt.locks[r]; q == [] || (isReader && q[|q|-1].elem.isReader && !q[|q|-1].elem.isBlocked)
    ensures Comes(run + [nt'], nt', n, again, numWorkers, numRecords)
  {
    AskerMayAsk(nt, t, r, isReader, n, again);
    OneMoreIs(nt, nt', r, LockElement(t, isReader, false));
    var added := AddNode(nt, t, r, isReader);
    var q := nt.locks[r];
    assert GrantNode(added, r, |q|).locks[r] == q + [ListNode(nt.nextId, LockElement(t, isReader, false))];
    assert GrantNode(added, r, |q|) == nt';
    AskOk(nt, t, r, isReader);
    assert Asks(nt, nt', t, r, isReader, n, again);
    RunExtends(run, nt', n, again, numWorkers, numRecords);
  }

  lemma ComeByWait(run: seq<NodeTable>, nt: NodeTable, nt': NodeTable, n: nat, again: bool, numWorkers: nat,
                   numRecords: nat,
                   t: nat, r: nat)
    requires Comes(run, nt, n, again, numWorkers, numRecords) && Asker(nt, t, r, false, n, again)
    requires OneMore(nt, nt', r, LockElement(t, false, true)) && Ask(nt, t, r, false).0.LeftWaiting?
    ensures Comes(run + [nt'], nt', n, again, numWorkers, numRecords)
  {
    AskerMayAsk(nt, t, r, false, n, again);
    OneMoreIs(nt, nt', r, LockElement(t, false, true));
    AskOk(nt, t, r, false);
    assert Asks(nt, nt', t, r, false, n, again);
    RunExtends(run, nt', n, again, numWorkers, numRecords);
  }

  lemma ComeEmpty(n: nat, again: bool, numWorkers: nat, numRecords: nat)
    ensures Comes([EmptyNodes(numWorkers, numRecords)], EmptyNodes(numWorkers, numRecords), n, again, numWorkers,
                  numRecords)
  {
  }

  function Read(t: nat): LockElement { LockElement(t, true, false) }

  function Write(t: nat): LockElement { LockElement(t, false, false) }

  // ---------- asking twice: the assertion fails ----------

  function OneWriter(): NodeTable {
    NodeTable([[ListNode(0, Write(0))]], [[NodeToken(0, 0, 0)]], 1)
  }

  lemma OneWriterRun(n: nat)
    ensures Comes([EmptyNodes(1, 1)] + [OneWriter()], OneWriter(), n, true, 1, 1)
  {
    ComeEmpty(n, true, 1, 1);
    ComeByGrant([EmptyNodes(1, 1)], EmptyNodes(1, 1), OneWriter(), n, true, 1, 1, 0, 0, false);
  }

  lemma TwiceAsked(n: nat)
    requires NodesOk(OneWriter())
    ensures MayAsk(OneWriter(), 0, 0, false, n, true) && Ask(OneWriter(), 0, 0, false).0.AssertionFails?
  {
    AskerMayAsk(OneWriter(), 0, 0, false, n, true);
    assert Ask(OneWriter(), 0, 0, false).0.AssertionFails?;
  }

  /** A thread that asks for a record it has locked, and that nobody else waits for, meets the assertion. */
  lemma TwiceFails(n: nat)
    ensures Reachable(OneWriter(), n, true) && NodesOk(OneWriter()) && !NoFailure(OneWriter(), n, true)
  {
    OneWriterRun(n);
    assert ReachedBy(OneWriter(), n, true, [EmptyNodes(1, 1)] + [OneWriter()], 1, 1);
    TwiceAsked(n);
  }

  // ---------- asking twice: a missed deadlock ----------

  function UpgradeStage(): NodeTable {
    NodeTable([[ListNode(0, Read(0))]], [[NodeToken(0, 0, 0)], []], 1)
  }

  function UpgradeReaders(): NodeTable {
    NodeTable([[ListNode(0, Read(0)), ListNode(1, Read(1))]], [[NodeToken(0, 0, 0)], [NodeToken(1, 0, 1)]], 2)
  }

  function Upgrade(): NodeTable {
    NodeTable([[ListNode(0, Read(0)), ListNode(1, Read(1)), ListNode(2, LockElement(0, false, true))]],
              [[NodeToken(0, 0, 0), NodeToken(0, 0, 2)], [NodeToken(1, 0, 1)]], 3)
  }

  function UpgradeRun(): seq<NodeTable> {
    [EmptyNodes(2, 1)] + [UpgradeStage()] + [UpgradeReaders()]
  }

  lemma UpgradeReads(n: nat)
    requires n >= 1
    ensures Comes([EmptyNodes(2, 1)] + [UpgradeStage()], UpgradeStage(), n, true, 2, 1)
  {
    ComeEmpty(n, true, 2, 1);
    ComeByGrant([EmptyNodes(2, 1)], EmptyNodes(2, 1), UpgradeStage(), n, true, 2, 1, 0, 0, true);
  }

  lemma UpgradeReadsTwice(n: nat)
    requires n >= 1
    ensures Comes(UpgradeRun(), UpgradeReaders(), n, true, 2, 1)
  {
    UpgradeReads(n);
    ComeByGrant([EmptyNodes(2, 1)] + [UpgradeStage()], UpgradeStage(), UpgradeReaders(), n, true, 2, 1, 1, 0, true);
  }

  lemma UpgradeAsks(n: nat)
    requires n >= 1
    ensures Comes(UpgradeRun() + [Upgrade()], Upgrade(), n, true, 2, 1)
  {
    UpgradeReadsTwice(n);
    UpgradeWaits();
    ComeByWait(UpgradeRun(), UpgradeReaders(), Upgrade(), n, true, 2, 1, 0, 0);
  }

  lemma UpgradeNotFree()
    ensures !Free(Upgrade())
  {
    PlainWaitsAt(Upgrade(), 0, 0, 0, 2, 0, 2);
    assert WaitsHere(Upgrade(), 0, 0, 2);
    assert WaitStep(Plain(Upgrade()), WaitingThreads(Upgrade()), [0, 0], 0);
    assert WaitPath(Plain(Upgrade()), WaitingThreads(Upgrade()), [0, 0]);
  }

  /** Two threads have locked a record for reading and one of them asks for writing: it waits for itself, and the
      search, which comes to it by way of the other reader, has not passed a blocked node. */
  lemma UpgradeMissed(n: nat) returns (run: seq<NodeTable>)
    requires n >= 1
    ensures NodeRun(run, n, true, 2, 1) && run[|run|-1] == Upgrade() && !Free(Upgrade())
  {
    UpgradeAsks(n);
    UpgradeNotFree();
    run := UpgradeRun() + [Upgrade()];
  }

  lemma UpgradeWaits()
    requires NodesOk(UpgradeReaders())
    ensures Ask(UpgradeReaders(), 0, 0, false).0.LeftWaiting?
  {
    var nt := AddNode(UpgradeReaders(), 0, 0, false);
    AddNodeOk(UpgradeReaders(), 0, 0, false);
    assert nt.locks[0] == Upgrade().locks[0] && nt.adj[1] == [NodeToken(1, 0, 1)];
    assert nt.locks[0][1].id == 1 && nt.locks[0][0].id == 0;
    assert At(nt.locks[0], 1) == 1;
    assert SearchFrom(nt, 0, 1, 1, false, {1}) == (false, {1});
    assert Search(nt, 0, 0, false, {1}) == (false, {1});
    assert SearchFrom(nt, 0, 1, 0, false, {1}) == (false, {1});
    assert {} + {1} == {1};
    assert Search(nt, 0, 1, false, {}) == (false, {1});
  }

  // ---------- a false alarm ----------

  function AlarmStage1(): NodeTable {
    NodeTable([[ListNode(0, Write(1))], [], []], [[], [NodeToken(1, 0, 0)], []], 1)
  }

  function AlarmStage2(): NodeTable {
    NodeTable([[ListNode(0, Write(1))], [ListNode(1, Read(2))], []], [[], [NodeToken(1, 0, 0)], [NodeToken(2, 1, 1)]],
              2)
  }

  function AlarmStage3(): NodeTable {
    NodeTable([[ListNode(0, Write(1))], [ListNode(1, Read(2)), ListNode(2, Read(1))], []],
              [[], [NodeToken(1, 0, 0), NodeToken(1, 1, 2)], [NodeToken(2, 1, 1)]], 3)
  }

  function AlarmStage4(): NodeTable {
    NodeTable([[ListNode(0, Write(1))], [ListNode(1, Read(2)), ListNode(2, Read(1))], [ListNode(3, Read(0))]],
              [[NodeToken(0, 2, 3)], [NodeToken(1, 0, 0), NodeToken(1, 1, 2)], [NodeToken(2, 1, 1)]], 4)
  }

  /** Thread 1 has locked record 0 for writing, 2 and 1 record 1 for reading, and 2 waits behind 0 to write record 2. */
  function Alarm(): NodeTable {
    NodeTable([[ListNode(0, Write(1))], [ListNode(1, Read(2)), ListNode(2, Read(1))],
               [ListNode(3, Read(0)), ListNode(4, LockElement(2, false, true))]],
              [[NodeToken(0, 2, 3)], [NodeToken(1, 0, 0), NodeToken(1, 1, 2)],
               [NodeToken(2, 1, 1), NodeToken(2, 2, 4)]], 5)
  }

  /** Thread 0 asks for record 0. */
  function AlarmAsked(): NodeTable {
    NodeTable([[ListNode(0, Write(1)), ListNode(5, LockElement(0, false, true))],
               [ListNode(1, Read(2)), ListNode(2, Read(1))],
               [ListNode(3, Read(0)), ListNode(4, LockElement(2, false, true))]],
              [[NodeToken(0, 2, 3), NodeToken(0, 0, 5)], [NodeToken(1, 0, 0), NodeToken(1, 1, 2)],
               [NodeToken(2, 1, 1), NodeToken(2, 2, 4)]], 6)
  }

  function AlarmRun(k: nat): seq<NodeTable>
    requires k <= 6
  {
    [EmptyNodes(3, 3), AlarmStage1(), AlarmStage2(), AlarmStage3(), AlarmStage4(), Alarm()][..k]
  }

  lemma AlarmTo1(n: nat, again: bool)
    ensures Comes(AlarmRun(2), AlarmStage1(), n, again, 3, 3)
  {
    ComeEmpty(n, again, 3, 3);
    assert AlarmRun(1) == [EmptyNodes(3, 3)];
    ComeByGrant(AlarmRun(1), EmptyNodes(3, 3), AlarmStage1(), n, again, 3, 3, 1, 0, false);
    assert AlarmRun(2) == AlarmRun(1) + [AlarmStage1()];
  }

  lemma AlarmTo2(n: nat, again: bool)
    requires n >= 1
    ensures Comes(AlarmRun(3), AlarmStage2(), n, again, 3, 3)
  {
    AlarmTo1(n, again);
    ComeByGrant(AlarmRun(2), AlarmStage1(), AlarmStage2(), n, again, 3, 3, 2, 1, true);
    assert AlarmRun(3) == AlarmRun(2) + [AlarmStage2()];
  }

  lemma AlarmTo3(n: nat, again: bool)
    requires n >= 1
    ensures Comes(AlarmRun(4), AlarmStage3(), n, again, 3, 3)
  {
    AlarmTo2(n, again);
    ComeByGrant(AlarmRun(3), AlarmStage2(), AlarmStage3(), n, again, 3, 3, 1, 1, true);
    assert AlarmRun(4) == AlarmRun(3) + [AlarmStage3()];
  }

  lemma AlarmTo4(n: nat, again: bool)
    requires n >= 1
    ensures Comes(AlarmRun(5), AlarmStage4(), n, again, 3, 3)
  {
    AlarmTo3(n, again);
    ComeByGrant(AlarmRun(4), AlarmStage3(), AlarmStage4(), n, again, 3, 3, 0, 2, true);
    assert AlarmRun(5) == AlarmRun(4) + [AlarmStage4()];
  }

  lemma AlarmTo5(n: nat, again: bool)
    requires n >= 1
    ensures Comes(AlarmRun(6), Alarm(), n, again, 3, 3)
  {
    AlarmTo4(n, again);
    AlarmWaits();
    ComeByWait(AlarmRun(5), AlarmStage4(), Alarm(), n, again, 3, 3, 2, 2);
    assert AlarmRun(6) == AlarmRun(5) + [Alarm()];
  }

  lemma AlarmWaits()
    requires NodesOk(AlarmStage4())
    ensures Ask(AlarmStage4(), 2, 2, false).0.LeftWaiting?
  {
    var nt := Alarm();
    OneMoreIs(AlarmStage4(), nt, 2, LockElement(2, false, true));
    AddNodeOk(AlarmStage4(), 2, 2, false);
    assert SearchFrom(nt, 2, 0, 1, false, {0}) == (false, {0});
    assert SearchFrom(nt, 2, 0, 0, false, {0}) == (false, {0});
    assert {} + {0} == {0};
    assert Search(nt, 2, 0, false, {}) == (false, {0});
  }

  lemma AlarmRefused()
    requires NodesOk(Alarm())
    ensures Ask(Alarm(), 0, 0, false) == (Refused, AlarmAsked())
  {
    OneMoreIs(Alarm(), AlarmAsked(), 0, LockElement(0, false, true));
    AddNodeOk(Alarm(), 0, 0, false);
    AlarmSearch(AlarmAsked());
  }

  lemma AlarmSearch(nt: NodeTable)
    requires nt == AlarmAsked() && NodesOk(nt)
    ensures Search(nt, 0, 1, false, {}).0
  {
    AlarmSearchFrom2(nt);
    assert nt.locks[1][1].id == 2 && At(nt.locks[1], 2) == 1;
    assert Search(nt, 0, 2, false, {1}).0;
    assert SearchFrom(nt, 0, 1, 1, false, {1}).0;
    assert SearchFrom(nt, 0, 1, 0, false, {1}).0;
    assert {} + {1} == {1};
  }

  lemma AlarmSearchFrom2(nt: NodeTable)
    requires nt == AlarmAsked() && NodesOk(nt)
    ensures SearchFrom(nt, 0, 2, 0, false, {1} + {2}).0
  {
    var v := {1} + {2};
    assert nt.locks[2][1].id == 4 && At(nt.locks[2], 4) == 1;
    assert Search(nt, 0, 0, true, v) == (true, v);
    assert SearchFrom(nt, 0, 2, 1, false, v) == (true, v);
  }

  /** Thread 0 would wait for thread 1 only, which waits for nobody. */
  lemma AlarmIsFalse()
    ensures !RealReport(AlarmAsked(), 0)
  {
    var nt := AlarmAsked();
    assert !IsWaiting(nt, 1);
    forall path: seq<nat> | WaitCycle(nt, path) ensures path[0] != 0 {
      if path[0] == 0 {
        assert WaitStep(Plain(nt), WaitingThreads(nt), path, 0);
        var r, p, m, c := WaiterWaits(nt, 0, path[1]);
        WaitsOnPath(nt, path, 1);
      }
    }
  }

  lemma WaitsOnPath(nt: NodeTable, path: seq<nat>, i: nat)
    requires i + 1 < |path| && WaitPath(Plain(nt), WaitingThreads(nt), path)
    ensures IsWaiting(nt, path[i])
  {
    assert WaitStep(Plain(nt), WaitingThreads(nt), path, i);
  }

  /** From the empty table, with at most one read lock a thread and no record twice, to a report of a deadlock that is
      none. */
  lemma FalseAlarm(n: nat, again: bool)
    requires n >= 1
    ensures Reachable(Alarm(), n, again) && NodesOk(Alarm()) && !RealReports(Alarm(), n, again)
  {
    AlarmTo5(n, again);
    assert ReachedBy(Alarm(), n, again, AlarmRun(6), 3, 3);
    AlarmRefused();
    AlarmIsFalse();
    AskerMayAsk(Alarm(), 0, 0, false, n, again);
    assert !ReportOk(Alarm(), 0, 0, false);
  }

  // ---------- the exact limits ----------

  lemma TwoReadersMissed(n: nat, again: bool)
    requires n >= 2
    ensures !MissesNothing(n, again)
  {
    MissedDeadlockRun(n);
    var i :| 0 <= i < |Stages()| && !NoDeadlock(Stages()[i]);
    var run := LiftRun(Stages(), n, again, 4, 4, i);
    PlainWaiting(run[i]);
    assert !Free(run[i]);
  }

  /** No deadlock arises unreported, in any run of any client with these habits, if and only if threads own no read
      locks, or at most one and ask for no record twice. */
  lemma MissesNothingExactly(n: nat, again: bool)
    ensures MissesNothing(n, again) <==> n == 0 || (n == 1 && !again)
  {
    if n == 0 || (n == 1 && !again) {
      forall run: seq<NodeTable>, numWorkers: nat, numRecords: nat | NodeRun(run, n, again, numWorkers, numRecords)
        ensures AlwaysFree(run)
      {
        forall i | 0 <= i < |run| ensures Free(run[i]) {
          if n == 0 {
            WritersRun(run, again, numWorkers, numRecords, i);
          } else {
            OneReadRun(run, n, numWorkers, numRecords, i);
          }
        }
      }
    } else if n >= 2 {
      TwoReadersMissed(n, again);
    } else {
      var run := UpgradeMissed(n);
      assert !AlwaysFree(run);
    }
  }

  /** The assertion in `hasCycle` never fails if and only if threads ask for no record twice. */
  lemma AssertionExactly(n: nat, again: bool)
    ensures AssertionHolds(n, again) <==> !again
  {
    if again {
      TwiceFails(n);
    } else {
      forall nt: NodeTable | Reachable(nt, n, again) ensures NodesOk(nt) && NoFailure(nt, n, again) {
        ReachableOk(nt, n, again);
        var run: seq<NodeTable>, numWorkers: nat, numRecords: nat :|
          ReachedBy(nt, n, again, run, numWorkers, numRecords);
        RunNoTwice(run, n, numWorkers, numRecords, |run| - 1);
        NeverTwiceNoFailure(nt, n);
      }
    }
  }

  /** `hasCycle` does its work, reporting every deadlock in time and never stopping the program, if and only if
      threads own at most one read lock and ask for no record twice. */
  lemma SearchWorksExactly(n: nat, again: bool)
    ensures MissesNothing(n, again) && AssertionHolds(n, again) <==> n <= 1 && !again
  {
    MissesNothingExactly(n, again);
    AssertionExactly(n, again);
  }

  lemma WritersReportsReal(nt: NodeTable, again: bool)
    requires WritersInv(nt)
    ensures RealReports(nt, 0, again)
  {
    forall t: nat, r: nat, isReader: bool | MayAsk(nt, t, r, isReader, 0, again) ensures ReportOk(nt, t, r, isReader) {
      if Ask(nt, t, r, isReader).0.Refused? { WritersReport(nt, t, r); }
    }
  }

  /** Every report is of a real cycle of waits through the refused thread if and only if threads own no read locks. */
  lemma ReportsAreRealExactly(n: nat, again: bool)
    ensures ReportsAreReal(n, again) <==> n == 0
  {
    if n == 0 {
      forall nt: NodeTable | Reachable(nt, 0, again) ensures NodesOk(nt) && RealReports(nt, 0, again) {
        var run: seq<NodeTable>, numWorkers: nat, numRecords: nat :|
          ReachedBy(nt, 0, again, run, numWorkers, numRecords);
        WritersRun(run, again, numWorkers, numRecords, |run| - 1);
        WritersReportsReal(nt, again);
      }
    } else {
      FalseAlarm(n, again);
    }
  }
}
