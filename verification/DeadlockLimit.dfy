/**
 The limit on read locks up to which the deadlock search is complete, for clients whose threads never ask for a record
 that they are queued for already, ask for nothing while they wait, and give up all their locks after a refusal. A
 client has the limit `n` when no thread asks for a read lock while it owns `n` of them; the workers have the limit 1.

 What happens when a thread does ask for a record twice needs tables whose tokens name list nodes: see `SearchLimits`.
 */
module DeadlockLimit {
  import opened Locks
  import opened Deadlock

  /** How many reader elements thread `t` owns in the first `k` queues. */
  function ReadersBelow(tb: Table, t: nat, k: nat): nat
    requires k <= |tb.locks|
  {
    if k == 0 then 0 else
    ReadersBelow(tb, t, k - 1) + (if InQueue(tb.locks[k-1], t) && ElementOf(tb, t, k - 1).isReader then 1 else 0)
  }

  function Readers(tb: Table, t: nat): nat {
    ReadersBelow(tb, t, |tb.locks|)
  }

  ghost predicate AtMostReaders(tb: Table, n: nat) {
    forall t: nat :: Readers(tb, t) <= n
  }

  ghost predicate OwnsReader(tb: Table, t: nat, r: nat) {
    Holds(tb, t, r) && ElementOf(tb, t, r).isReader
  }

  lemma {:induction false} ReaderCounts(tb: Table, t: nat, k: nat, r: nat)
    requires k <= |tb.locks| && r < k && OwnsReader(tb, t, r)
    ensures ReadersBelow(tb, t, k) >= 1
  {
    if r < k - 1 { ReaderCounts(tb, t, k - 1, r); }
  }

  lemma {:induction false} TwoReadersCount(tb: Table, t: nat, k: nat, r: nat, r': nat)
    requires k <= |tb.locks| && r < r' < k && OwnsReader(tb, t, r) && OwnsReader(tb, t, r')
    ensures ReadersBelow(tb, t, k) >= 2
  {
    if r' < k - 1 { TwoReadersCount(tb, t, k - 1, r, r'); } else { ReaderCounts(tb, t, k - 1, r); }
  }

  lemma AtMostOne(tb: Table)
    requires AtMostReaders(tb, 1)
    ensures OneReader(tb)
  {
    forall t: nat, r: nat, r': nat | OwnsReader(tb, t, r) && OwnsReader(tb, t, r') ensures r == r' {
      assert Readers(tb, t) <= 1;
      if r < r' { TwoReadersCount(tb, t, |tb.locks|, r, r'); }
      if r' < r { TwoReadersCount(tb, t, |tb.locks|, r', r); }
    }
    forall t: nat, r: nat, r': nat
      | Holds(tb, t, r) && Holds(tb, t, r') && ElementOf(tb, t, r).isReader && ElementOf(tb, t, r').isReader
      ensures r == r'
    {
      assert OwnsReader(tb, t, r) && OwnsReader(tb, t, r');
    }
  }

  // ---------- one request ----------

  ghost predicate OwnsBlocked(tb: Table, t: nat) {
    exists r: nat :: Holds(tb, t, r) && ElementOf(tb, t, r).isBlocked
  }

  ghost function Waiting(tb: Table): set<nat> {
    set t | t in UpTo(|tb.adj|) && OwnsBlocked(tb, t)
  }

  /** No waits-for path among the waiting threads comes back to its start. */
  ghost predicate NoDeadlock(tb: Table) {
    Acyclic(tb, Waiting(tb))
  }

  /** A request that a client with the limit `n` may make: not while it waits, not twice for a record, and not for one
      reader too many. */
  ghost predicate MayRequest(tb: Table, t: nat, r: nat, isReader: bool, n: nat) {
    t < |tb.adj| && r < |tb.locks| && !OwnsBlocked(tb, t) && !Holds(tb, t, r) && (isReader ==> Readers(tb, t) < n)
  }

  ghost predicate WaitIsSafe(tb: Table, t: nat, r: nat, isReader: bool)
    requires WellFormed(tb) && t < |tb.adj| && r < |tb.locks| && !Holds(tb, t, r)
  {
    RequestLock(tb, t, r, isReader).0.MustWait? ==> NoDeadlock(RequestLock(tb, t, r, isReader).1)
  }

  /** The search is complete for the limit `n` as long as no record is asked for twice: in every table within the
      limit and without a deadlock, a request that is left to wait makes none. */
  ghost predicate CompleteWith(n: nat) {
    forall tb: Table, t: nat, r: nat, isReader: bool ::
      WellFormed(tb) && NoDeadlock(tb) && AtMostReaders(tb, n) && MayRequest(tb, t, r, isReader, n)
      ==> WaitIsSafe(tb, t, r, isReader)
  }

  lemma WaitingOwnBlocked(tb: Table)
    requires WellFormed(tb)
    ensures BlockedIn(tb, Waiting(tb))
  {
    forall r, p | 0 <= r < |tb.locks| && 0 <= p < |tb.locks[r]| && tb.locks[r][p].isBlocked
      ensures tb.locks[r][p].tid in Waiting(tb)
    {
      assert CoveredAt(tb, r, p);
      PosIs(tb.locks[r], p);
      assert Holds(tb, tb.locks[r][p].tid, r);
    }
  }

  lemma StillOneReader(tb: Table, t: nat, r: nat, isReader: bool)
    requires WellFormed(tb) && OneReader(tb) && t < |tb.adj| && r < |tb.locks| && !Holds(tb, t, r)
    requires isReader ==> Readers(tb, t) == 0
    ensures OneReader(AddLock(tb, t, r, isReader))
  {
    var tb' := AddLock(tb, t, r, isReader);
    forall u: nat, s: nat, s': nat
      | Holds(tb', u, s) && Holds(tb', u, s') && ElementOf(tb', u, s).isReader && ElementOf(tb', u, s').isReader
      ensures s == s'
    {
      OldReader(tb, t, r, isReader, u, s);
      OldReader(tb, t, r, isReader, u, s');
    }
  }

  /** A reader element after the request is the new one, or an old one whose owner did not ask for another. */
  lemma OldReader(tb: Table, t: nat, r: nat, isReader: bool, u: nat, s: nat)
    requires WellFormed(tb) && t < |tb.adj| && r < |tb.locks| && !Holds(tb, t, r)
    requires isReader ==> Readers(tb, t) == 0
    requires OwnsReader(AddLock(tb, t, r, isReader), u, s)
    ensures (u == t && s == r && isReader) || (OwnsReader(tb, u, s) && !(u == t && isReader))
  {
    AddLockElements(tb, t, r, isReader);
    if u != t || s != r {
      assert SameElement(tb, AddLock(tb, t, r, isReader), u, s);
      if u == t && isReader { ReaderCounts(tb, t, |tb.locks|, s); }
    }
  }

  /** Within the limit 1, whatever the answer to a request, there is no deadlock. */
  lemma RequestWithinOne(tb: Table, t: nat, r: nat, isReader: bool, n: nat)
    requires n <= 1 && WellFormed(tb) && NoDeadlock(tb) && OneReader(tb) && MayRequest(tb, t, r, isReader, n)
    ensures OneReader(AddLock(tb, t, r, isReader))
    ensures var res := RequestLock(tb, t, r, isReader);
      Acyclic(res.1, if res.0.MustWait? then Waiting(tb) + {t} else Waiting(tb))
        && (!res.0.DeadlockDetected? ==> NoDeadlock(res.1))
  {
    var res := RequestLock(tb, t, r, isReader);
    var waiting := if res.0.MustWait? then Waiting(tb) + {t} else Waiting(tb);
    StillOneReader(tb, t, r, isReader);
    WaitingOwnBlocked(tb);
    assert forall s :: Holds(tb, t, s) ==> !ElementOf(tb, t, s).isBlocked;
    RequestLockAcyclic(tb, Waiting(tb), t, r, isReader);
    RequestLockElements(tb, t, r, isReader);
    if !res.0.DeadlockDetected? {
      forall u | u in Waiting(res.1) ensures u in waiting {
        var s: nat :| Holds(res.1, u, s) && ElementOf(res.1, u, s).isBlocked;
        if u != t || s != r { assert SameElement(tb, res.1, u, s); }
      }
      AcyclicMono(res.1, waiting, res.1, Waiting(res.1));
    }
  }

  // ---------- clients ----------

  /** One action of a client of the lock table: a request, after whose refusal the thread gives up all its locks as the
      workers do; a grant to a waiting thread; a release by a thread that does not wait. */
  ghost predicate ClientStep(tb: Table, tb': Table, n: nat) {
    WellFormed(tb) && ((exists t: nat, r: nat, isReader: bool :: Requests(tb, tb', t, r, isReader, n))
      || (exists t: nat, r: nat :: Enters(tb, tb', t, r))
      || (exists t: nat :: Releases(tb, tb', t)))
  }

  ghost predicate Requests(tb: Table, tb': Table, t: nat, r: nat, isReader: bool, n: nat)
    requires WellFormed(tb)
  {
    && MayRequest(tb, t, r, isReader, n)
    && var res := RequestLock(tb, t, r, isReader);
      RequestLockElements(tb, t, r, isReader);
      tb' == if res.0.DeadlockDetected? then UnlockAll(res.1, t) else res.1
  }

  ghost predicate Enters(tb: Table, tb': Table, t: nat, r: nat) {
    Holds(tb, t, r) && CanEnter(tb.locks[r], Pos(tb.locks[r], t)) && tb' == SetGranted(tb, t, r)
  }

  ghost predicate Releases(tb: Table, tb': Table, t: nat) {
    t < |tb.adj| && !OwnsBlocked(tb, t) && tb' == UnlockAll(tb, t)
  }

  ghost predicate ClientRun(run: seq<Table>, n: nat, numWorkers: nat, numRecords: nat) {
    && |run| > 0 && run[0] == EmptyTable(numWorkers, numRecords)
    && forall i :: 0 <= i < |run| - 1 ==> ClientSteps(run, n, i)
  }

  ghost predicate ClientSteps(run: seq<Table>, n: nat, i: nat)
    requires i + 1 < |run|
  {
    ClientStep(run[i], run[i+1], n)
  }

  ghost predicate RunIsSafe(run: seq<Table>) {
    forall i :: 0 <= i < |run| ==> NoDeadlock(run[i])
  }

  /** No client with the limit `n`, of any size and in any run, ever reaches a deadlock. */
  ghost predicate DeadlockFree(n: nat) {
    forall run: seq<Table>, numWorkers: nat, numRecords: nat :: ClientRun(run, n, numWorkers, numRecords)
      ==> RunIsSafe(run)
  }

  /** The elements of `tb'` are elements of `tb`, some of them granted since. */
  ghost predicate Fewer(tb: Table, tb': Table) {
    forall u: nat, s: nat :: Holds(tb', u, s) ==> FewerAt(tb, tb', u, s)
  }

  ghost predicate FewerAt(tb: Table, tb': Table, u: nat, s: nat)
    requires Holds(tb', u, s)
  {
    && Holds(tb, u, s) && ElementOf(tb', u, s).isReader == ElementOf(tb, u, s).isReader
    && (ElementOf(tb', u, s).isBlocked ==> ElementOf(tb, u, s).isBlocked)
  }

  lemma FewerKeeps(tb: Table, tb': Table)
    requires Fewer(tb, tb') && |tb'.adj| == |tb.adj|
    ensures OneReader(tb) ==> OneReader(tb')
    ensures Waiting(tb') <= Waiting(tb)
  {
    forall u: nat | u in Waiting(tb') ensures u in Waiting(tb) {
      var s: nat :| Holds(tb', u, s) && ElementOf(tb', u, s).isBlocked;
      assert FewerAt(tb, tb', u, s);
    }
    if OneReader(tb) {
      forall u: nat, s: nat, s': nat
        | Holds(tb', u, s) && Holds(tb', u, s') && ElementOf(tb', u, s).isReader && ElementOf(tb', u, s').isReader
        ensures s == s'
      {
        assert FewerAt(tb, tb', u, s) && FewerAt(tb, tb', u, s');
      }
    }
  }

  lemma EnterFewer(tb: Table, t: nat, r: nat)
    requires WellFormed(tb) && Holds(tb, t, r) && CanEnter(tb.locks[r], Pos(tb.locks[r], t))
    ensures Fewer(tb, SetGranted(tb, t, r))
  {
    var tb' := SetGranted(tb, t, r);
    SetGrantedElements(tb, t, r);
    forall u: nat, s: nat | Holds(tb', u, s) ensures FewerAt(tb, tb', u, s) {
      if u != t || s != r { assert SameElement(tb, tb', u, s); }
    }
  }

  lemma ReleaseFewer(tb: Table, t: nat)
    requires WellFormed(tb) && t < |tb.adj|
    ensures Fewer(tb, UnlockAll(tb, t)) && !OwnsBlocked(UnlockAll(tb, t), t)
  {
    var tb' := UnlockAll(tb, t);
    UnlockAllElements(tb, t);
    forall u: nat, s: nat | Holds(tb', u, s) ensures FewerAt(tb, tb', u, s) { assert SameElement(tb, tb', u, s); }
  }

  ghost predicate ClientInv(tb: Table) {
    WellFormed(tb) && OneReader(tb) && NoDeadlock(tb)
  }

  lemma RequestStepInv(tb: Table, tb': Table, t: nat, r: nat, isReader: bool, n: nat)
    requires n <= 1 && ClientInv(tb) && Requests(tb, tb', t, r, isReader, n)
    ensures ClientInv(tb')
  {
    var res := RequestLock(tb, t, r, isReader);
    var asked := AddLock(tb, t, r, isReader);
    RequestWithinOne(tb, t, r, isReader, n);
    RequestLockElements(tb, t, r, isReader);
    AddLockKeeps(tb, t, r, isReader);
    AddLockElements(tb, t, r, isReader);
    if res.0.Acquired? {
      EnterFewer(asked, t, r);
      FewerKeeps(asked, res.1);
    } else if res.0.DeadlockDetected? {
      UnlockAllKeeps(asked, t);
      ReleaseFewer(asked, t);
      FewerKeeps(asked, tb');
      UnlockAllAcyclic(asked, t, Waiting(tb));
      forall u | u in Waiting(tb') ensures u in Waiting(tb) {
        var s: nat :| Holds(asked, u, s) && ElementOf(asked, u, s).isBlocked;
        assert u != t && SameElement(tb, asked, u, s);
      }
      AcyclicMono(tb', Waiting(tb), tb', Waiting(tb'));
    }
  }

  lemma ClientStepInv(tb: Table, tb': Table, n: nat)
    requires n <= 1 && ClientInv(tb) && ClientStep(tb, tb', n)
    ensures ClientInv(tb')
  {
    if t: nat, r: nat, isReader: bool :| Requests(tb, tb', t, r, isReader, n) {
      RequestStepInv(tb, tb', t, r, isReader, n);
    } else if t: nat, r: nat :| Enters(tb, tb', t, r) {
      EnterFewer(tb, t, r);
      FewerKeeps(tb, tb');
      SetGrantedKeeps(tb, t, r);
      SetGrantedAcyclic(tb, t, r, Waiting(tb));
      AcyclicMono(tb', Waiting(tb), tb', Waiting(tb'));
    } else {
      var t: nat :| Releases(tb, tb', t);
      ReleaseFewer(tb, t);
      FewerKeeps(tb, tb');
      UnlockAllKeeps(tb, t);
      UnlockAllAcyclic(tb, t, Waiting(tb));
      AcyclicMono(tb', Waiting(tb), tb', Waiting(tb'));
    }
  }

  lemma {:induction false} ClientRunInv(run: seq<Table>, n: nat, numWorkers: nat, numRecords: nat, i: nat)
    requires n <= 1 && ClientRun(run, n, numWorkers, numRecords) && i < |run|
    ensures ClientInv(run[i])
  {
    if i == 0 {
      NobodyWaits(run[0]);
      assert forall t, r :: !Holds(run[0], t, r);
      assert Waiting(run[0]) == {};
    } else {
      ClientRunInv(run, n, numWorkers, numRecords, i - 1);
      assert ClientSteps(run, n, i - 1);
      ClientStepInv(run[i-1], run[i], n);
    }
  }

  /** Client steps keep tables well formed, whatever the limit. */
  lemma {:induction false} ClientRunWellFormed(run: seq<Table>, n: nat, numWorkers: nat, numRecords: nat, i: nat)
    requires ClientRun(run, n, numWorkers, numRecords) && i < |run|
    ensures WellFormed(run[i])
  {
    if i > 0 {
      ClientRunWellFormed(run, n, numWorkers, numRecords, i - 1);
      assert ClientSteps(run, n, i - 1);
      var tb, tb' := run[i-1], run[i];
      if t: nat, r: nat, isReader: bool :| Requests(tb, tb', t, r, isReader, n) {
        RequestLockElements(tb, t, r, isReader);
        UnlockAllKeeps(RequestLock(tb, t, r, isReader).1, t);
      } else if t: nat, r: nat :| Enters(tb, tb', t, r) {
        SetGrantedKeeps(tb, t, r);
      } else {
        var t: nat :| Releases(tb, tb', t);
        UnlockAllKeeps(tb, t);
      }
    }
  }

  // ---------- a client with the limit 2 ----------

  function Grant(tb: Table, t: nat, r: nat, isReader: bool): Table
    requires t < |tb.adj| && r < |tb.locks|
  {
    Table(tb.locks[r := tb.locks[r] + [LockElement(t, isReader, false)]],
          tb.adj[t := tb.adj[t] + [LockToken(t, r)]])
  }

  /** A request for a free lock, or for a reader lock behind a granted reader, is granted. */
  lemma RequestGranted(tb: Table, t: nat, r: nat, isReader: bool)
    requires WellFormed(tb) && t < |tb.adj| && r < |tb.locks| && !Holds(tb, t, r)
    requires var q := tb.locks[r]; q == [] || (isReader && q[|q|-1].isReader && !q[|q|-1].isBlocked)
    ensures RequestLock(tb, t, r, isReader) == (Acquired, Grant(tb, t, r, isReader))
    ensures WellFormed(Grant(tb, t, r, isReader))
  {
    var q := tb.locks[r];
    var tb' := AddLock(tb, t, r, isReader);
    AddLockElements(tb, t, r, isReader);
    RequestLockElements(tb, t, r, isReader);
    assert tb'.locks[r][|q| := tb'.locks[r][|q|].(isBlocked := false)] == q + [LockElement(t, isReader, false)];
    assert SetGranted(tb', t, r) == Grant(tb, t, r, isReader);
  }

  /** Elements and requests of one thread in a table whose last two queues hold writers only. */
  ghost predicate StageAsks(tb: Table, t: nat, r: nat, isReader: bool) {
    && |tb.locks| == |tb.adj| == 4 && t < 4 && r < 4
    && (forall p :: 0 <= p < |tb.locks[2]| ==> !tb.locks[2][p].isReader)
    && (forall p :: 0 <= p < |tb.locks[3]| ==> !tb.locks[3][p].isReader)
    && (forall p :: 0 <= p < |tb.locks[r]| ==> tb.locks[r][p].tid != t)
    && (isReader ==> r < 2)
    && (forall s, p :: 0 <= s < 4 && 0 <= p < |tb.locks[s]| && tb.locks[s][p].tid == t ==> !tb.locks[s][p].isBlocked)
  }

  lemma StageMayRequest(tb: Table, t: nat, r: nat, isReader: bool, n: nat)
    requires StageAsks(tb, t, r, isReader) && n >= 2
    ensures MayRequest(tb, t, r, isReader, n)
  {
    forall s: nat | Holds(tb, t, s) ensures !ElementOf(tb, t, s).isBlocked {
      assert tb.locks[s][Pos(tb.locks[s], t)].tid == t;
    }
    assert ReadersBelow(tb, t, 4) == ReadersBelow(tb, t, 3) == ReadersBelow(tb, t, 2);
    assert ReadersBelow(tb, t, 0) == 0;
    assert isReader ==> ReadersBelow(tb, t, 2) <= 1;
  }

  /** A step that may be taken by a client with any limit from 2 on. */
  ghost predicate Leads(tb: Table, tb': Table) {
    forall n: nat :: LeadsWith(tb, tb', n)
  }

  ghost predicate LeadsWith(tb: Table, tb': Table, n: nat) {
    WellFormed(tb) && n >= 2 ==> WellFormed(tb') && ClientStep(tb, tb', n)
  }

  /** `tb'` is `tb` with one more element at the end of queue `r`. */
  ghost predicate Appended(tb: Table, tb': Table, r: nat, e: LockElement) {
    && |tb.locks| == |tb.adj| == |tb'.locks| == |tb'.adj| == 4 && e.tid < 4 && r < 4
    && (forall s :: 0 <= s < 4 ==> tb'.locks[s] == if s == r then tb.locks[s] + [e] else tb.locks[s])
    && (forall u :: 0 <= u < 4 ==> tb'.adj[u] == if u == e.tid then tb.adj[u] + [LockToken(u, r)] else tb.adj[u])
  }

  lemma AppendedIs(tb: Table, tb': Table, r: nat, e: LockElement)
    requires Appended(tb, tb', r, e)
    ensures tb' == Table(tb.locks[r := tb.locks[r] + [e]], tb.adj[e.tid := tb.adj[e.tid] + [LockToken(e.tid, r)]])
  {
    assert tb'.locks == tb.locks[r := tb.locks[r] + [e]];
    assert tb'.adj == tb.adj[e.tid := tb.adj[e.tid] + [LockToken(e.tid, r)]];
  }

  lemma GrantLeads(tb: Table, tb': Table, t: nat, r: nat, isReader: bool)
    requires StageAsks(tb, t, r, isReader) && Appended(tb, tb', r, LockElement(t, isReader, false))
    requires var q := tb.locks[r]; q == [] || (isReader && q[|q|-1].isReader && !q[|q|-1].isBlocked)
    ensures Leads(tb, tb')
  {
    AppendedIs(tb, tb', r, LockElement(t, isReader, false));
    forall n: nat ensures LeadsWith(tb, tb', n) {
      if WellFormed(tb) && n >= 2 {
        StageMayRequest(tb, t, r, isReader, n);
        RequestGranted(tb, t, r, isReader);
        assert Requests(tb, tb', t, r, isReader, n);
      }
    }
  }

  lemma WaitLeads(tb: Table, tb': Table, t: nat, r: nat, isReader: bool)
    requires StageAsks(tb, t, r, isReader) && Appended(tb, tb', r, LockElement(t, isReader, true))
    requires |tb'.locks[r]| > 1 && !isReader
    requires WellFormed(tb') && InQueue(tb'.locks[r], t) ==> !HasCycle(tb', t, r)
    ensures Leads(tb, tb')
  {
    AppendedIs(tb, tb', r, LockElement(t, isReader, true));
    forall n: nat ensures LeadsWith(tb, tb', n) {
      if WellFormed(tb) && n >= 2 {
        StageMayRequest(tb, t, r, isReader, n);
        AddLockKeeps(tb, t, r, isReader);
        AddLockElements(tb, t, r, isReader);
        assert Requests(tb, tb', t, r, isReader, n);
      }
    }
  }

  function Rd(t: nat): LockElement { LockElement(t, true, false) }

  function Wr(t: nat): LockElement { LockElement(t, false, false) }

  function Stage1(): Table {
    Table([[Rd(1)], [], [], []], [[], [LockToken(1, 0)], [], []])
  }

  function Stage2(): Table {
    Table([[Rd(1), Rd(3)], [], [], []], [[], [LockToken(1, 0)], [], [LockToken(3, 0)]])
  }

  function Stage3(): Table {
    Table([[Rd(1), Rd(3)], [Rd(0)], [], []], [[LockToken(0, 1)], [LockToken(1, 0)], [], [LockToken(3, 0)]])
  }

  function Stage4(): Table {
    Table([[Rd(1), Rd(3)], [Rd(0), Rd(1)], [], []],
          [[LockToken(0, 1)], [LockToken(1, 0), LockToken(1, 1)], [], [LockToken(3, 0)]])
  }

  function Stage5(): Table {
    Table([[Rd(1), Rd(3)], [Rd(0), Rd(1)], [Wr(2)], []],
          [[LockToken(0, 1)], [LockToken(1, 0), LockToken(1, 1)], [LockToken(2, 2)], [LockToken(3, 0)]])
  }

  function Stage6(): Table {
    Table([[Rd(1), Rd(3)], [Rd(0), Rd(1), LockElement(2, false, true)], [Wr(2)], []],
          [[LockToken(0, 1)], [LockToken(1, 0), LockToken(1, 1)], [LockToken(2, 2), LockToken(2, 1)],
           [LockToken(3, 0)]])
  }

  function Stage7(): Table {
    Table([[Rd(1), Rd(3)], [Rd(0), Rd(1), LockElement(2, false, true)], [Wr(2)], [Wr(3)]],
          [[LockToken(0, 1)], [LockToken(1, 0), LockToken(1, 1)], [LockToken(2, 2), LockToken(2, 1)],
           [LockToken(3, 0), LockToken(3, 3)]])
  }

  lemma Granted1() ensures Leads(EmptyTable(4, 4), Stage1()) { GrantLeads(EmptyTable(4, 4), Stage1(), 1, 0, true); }

  lemma Granted2() ensures Leads(Stage1(), Stage2()) { GrantLeads(Stage1(), Stage2(), 3, 0, true); }

  lemma Granted3() ensures Leads(Stage2(), Stage3()) { GrantLeads(Stage2(), Stage3(), 0, 1, true); }

  lemma Granted4() ensures Leads(Stage3(), Stage4()) { GrantLeads(Stage3(), Stage4(), 1, 1, true); }

  lemma Granted5() ensures Leads(Stage4(), Stage5()) { GrantLeads(Stage4(), Stage5(), 2, 2, false); }

  lemma Granted7() ensures Leads(Stage6(), Stage7()) { GrantLeads(Stage6(), Stage7(), 3, 3, false); }

  lemma Waits6()
    ensures Leads(Stage5(), Stage6())
  {
    if WellFormed(Stage6()) && InQueue(Stage6().locks[1], 2) { SixthWaits(); }
    WaitLeads(Stage5(), Stage6(), 2, 1, false);
  }

  lemma Waits8()
    ensures Leads(Stage7(), TwoReaders())
  {
    if WellFormed(TwoReaders()) && InQueue(TwoReaders().locks[2], 3) { EighthWaits(); }
    WaitLeads(Stage7(), TwoReaders(), 3, 2, false);
  }

  lemma NinthWaits()
    requires WellFormed(TwoReadersAsked()) && InQueue(TwoReadersAsked().locks[3], 0)
    ensures !HasCycle(TwoReadersAsked(), 0, 3)
  {
    TwoReadersMissDeadlock();
  }

  lemma NinthAppends()
    ensures StageAsks(TwoReaders(), 0, 3, false)
    ensures Appended(TwoReaders(), TwoReadersAsked(), 3, LockElement(0, false, true))
    ensures |TwoReadersAsked().locks[3]| == 2
  {
  }

  /** The request that closes the cycle is one of this client. */
  lemma Waits9()
    ensures Leads(TwoReaders(), TwoReadersAsked())
  {
    if WellFormed(TwoReadersAsked()) && InQueue(TwoReadersAsked().locks[3], 0) { NinthWaits(); }
    NinthAppends();
    WaitLeads(TwoReaders(), TwoReadersAsked(), 0, 3, false);
  }

  lemma SixthWaits()
    requires WellFormed(Stage6()) && InQueue(Stage6().locks[1], 2)
    ensures !HasCycle(Stage6(), 2, 1)
  {
    var tb := Stage6();
    PosAt(tb.locks[0], 0);
    PosAt(tb.locks[1], 0); PosAt(tb.locks[1], 1); PosAt(tb.locks[1], 2);
    assert {1} + {0} == {1, 0};
    assert DetectFrom(tb, 2, 0, 1, false, {1, 0}) == (false, {1, 0});
    assert DetectFrom(tb, 2, 0, 0, false, {1, 0}) == (false, {1, 0});
    assert Detect(tb, 2, 0, false, {1}) == (false, {1, 0});
    assert DetectFrom(tb, 2, 1, 2, false, {1, 0}) == (false, {1, 0});
    assert DetectFrom(tb, 2, 1, 1, false, {1}) == (false, {1, 0});
    assert DetectFrom(tb, 2, 1, 0, false, {1}) == (false, {1, 0});
    assert {} + {1} == {1};
    assert Detect(tb, 2, 1, false, {}) == (false, {1, 0});
  }

  lemma EighthWaits()
    requires WellFormed(TwoReaders()) && InQueue(TwoReaders().locks[2], 3)
    ensures !HasCycle(TwoReaders(), 3, 2)
  {
    var tb := TwoReaders();
    PosAt(tb.locks[0], 0);
    PosAt(tb.locks[1], 0); PosAt(tb.locks[1], 1); PosAt(tb.locks[1], 2);
    PosAt(tb.locks[2], 0); PosAt(tb.locks[2], 1);
    var all := {2, 1, 0};
    assert {2} + {1} == {2, 1} && {2, 1} + {0} == all;
    assert DetectFrom(tb, 3, 0, 1, true, all) == (false, all);
    assert DetectFrom(tb, 3, 0, 0, true, all) == (false, all);
    assert Detect(tb, 3, 0, true, {2, 1}) == (false, all);
    assert DetectFrom(tb, 3, 1, 2, true, all) == (false, all);
    assert DetectFrom(tb, 3, 1, 1, true, {2, 1}) == (false, all);
    assert DetectFrom(tb, 3, 1, 0, true, {2, 1}) == (false, all);
    assert Detect(tb, 3, 1, true, {2}) == (false, all);
    assert DetectFrom(tb, 3, 2, 2, false, all) == (false, all);
    assert DetectFrom(tb, 3, 2, 1, false, {2}) == (false, all);
    assert DetectFrom(tb, 3, 2, 0, false, {2}) == (false, all);
    assert {} + {2} == {2};
    assert Detect(tb, 3, 2, false, {}) == (false, all);
  }

  lemma TwoReadersCycle()
    requires WaitPath(TwoReadersAsked(), UpTo(4), [0, 3, 2, 0])
    ensures !NoDeadlock(TwoReadersAsked())
  {
    var tb := TwoReadersAsked();
    var path := [0, 3, 2, 0];
    PosAt(tb.locks[3], 1); PosAt(tb.locks[2], 1); PosAt(tb.locks[1], 2);
    assert OwnsBlocked(tb, 0) by { assert Holds(tb, 0, 3); }
    assert OwnsBlocked(tb, 3) by { assert Holds(tb, 3, 2); }
    assert OwnsBlocked(tb, 2) by { assert Holds(tb, 2, 1); }
    forall i | 0 <= i < |path| - 1 ensures WaitStep(tb, Waiting(tb), path, i) {
      assert WaitStep(tb, UpTo(4), path, i);
      assert i == 0 || i == 1 || i == 2;
    }
  }

  function Stages(): seq<Table> {
    [EmptyTable(4, 4), Stage1(), Stage2(), Stage3(), Stage4(), Stage5(), Stage6(), Stage7(), TwoReaders(),
     TwoReadersAsked()]
  }

  ghost predicate LeadsAt(run: seq<Table>, j: nat)
    requires j + 1 < |run|
  {
    Leads(run[j], run[j+1])
  }

  lemma AllStages(j: nat)
    requires j < 9
    ensures LeadsAt(Stages(), j)
  {
    if j == 0 { Granted1(); }
    else if j == 1 { Granted2(); }
    else if j == 2 { Granted3(); }
    else if j == 3 { Granted4(); }
    else if j == 4 { Granted5(); }
    else if j == 5 { Waits6(); }
    else if j == 6 { Granted7(); }
    else if j == 7 { Waits8(); }
    else { Waits9(); }
  }

  lemma {:induction false} AllLead(run: seq<Table>, n: nat, i: nat)
    requires i + 1 < |run| && WellFormed(run[0]) && n >= 2 && forall j: nat :: j <= i ==> LeadsAt(run, j)
    ensures WellFormed(run[i+1]) && ClientSteps(run, n, i)
  {
    assert LeadsAt(run, i);
    assert LeadsWith(run[i], run[i+1], n);
    if i > 0 { AllLead(run, n, i - 1); }
  }

  /** From the empty table, requests of four threads that each own at most two read locks lead to a deadlock that no
      request reports. */
  lemma MissedDeadlockRun(n: nat)
    requires n >= 2
    ensures ClientRun(Stages(), n, 4, 4) && !RunIsSafe(Stages())
  {
    var run := Stages();
    assert WellFormed(run[0]);
    forall i | 0 <= i < |run| - 1 ensures ClientSteps(run, n, i) {
      forall j: nat | j <= i ensures LeadsAt(run, j) { AllStages(j); }
      AllLead(run, n, i);
    }
    TwoReadersMissDeadlock();
    TwoReadersCycle();
    assert run[9] == TwoReadersAsked();
  }

  // ---------- the exact limits ----------

  lemma TwoReadersWithin(n: nat)
    requires n >= 2
    ensures AtMostReaders(TwoReaders(), n)
  {
    var tb := TwoReaders();
    forall t: nat ensures Readers(tb, t) <= n {
      assert ReadersBelow(tb, t, 4) == ReadersBelow(tb, t, 3) == ReadersBelow(tb, t, 2);
      assert ReadersBelow(tb, t, 1) <= 1;
    }
  }

  lemma IncompleteAtTwo(n: nat)
    requires n >= 2
    ensures var tb := TwoReaders();
      WellFormed(tb) && NoDeadlock(tb) && MayRequest(tb, 0, 3, false, n) && !WaitIsSafe(tb, 0, 3, false)
  {
    TwoReadersSound();
    StageMayRequest(TwoReaders(), 0, 3, false, n);
    TwoReadersAnswer();
  }

  lemma TwoReadersSound()
    ensures WellFormed(TwoReaders()) && NoDeadlock(TwoReaders())
  {
    TwoReadersOk();
    TwoReadersBefore();
    AcyclicMono(TwoReaders(), UpTo(4), TwoReaders(), Waiting(TwoReaders()));
  }

  lemma TwoReadersAnswer()
    requires WellFormed(TwoReaders()) && !Holds(TwoReaders(), 0, 3)
    ensures !WaitIsSafe(TwoReaders(), 0, 3, false)
  {
    TwoReadersMissDeadlock();
    TwoReadersCycle();
  }

  /** `hasCycle` misses no deadlock, in any table that a client which asks for no record twice may have, if and only
      if no thread may own two read locks. */
  lemma CompleteExactly(n: nat)
    ensures CompleteWith(n) <==> n <= 1
  {
    if n <= 1 {
      forall tb: Table, t: nat, r: nat, isReader: bool
        | WellFormed(tb) && NoDeadlock(tb) && AtMostReaders(tb, n) && MayRequest(tb, t, r, isReader, n)
        ensures WaitIsSafe(tb, t, r, isReader)
      {
        AtMostOne(tb);
        RequestWithinOne(tb, t, r, isReader, n);
      }
    } else {
      TwoReadersWithin(n);
      IncompleteAtTwo(n);
    }
  }

  /** A client with the limit `n` which asks for no record twice and releases after a refusal, of any size and in any
      run from the empty table, never reaches a deadlock if and only if `n` is at most 1. */
  lemma DeadlockFreeExactly(n: nat)
    ensures DeadlockFree(n) <==> n <= 1
  {
    if n <= 1 {
      forall run: seq<Table>, numWorkers: nat, numRecords: nat | ClientRun(run, n, numWorkers, numRecords)
        ensures RunIsSafe(run) {
        forall i | 0 <= i < |run| ensures NoDeadlock(run[i]) { ClientRunInv(run, n, numWorkers, numRecords, i); }
      }
    } else {
      MissedDeadlockRun(n);
    }
  }
}
