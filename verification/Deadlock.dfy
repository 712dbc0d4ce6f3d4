/**
 Deadlocks of the lock table: the real waits-for relation, and the completeness of the depth-first search that runs
 before a thread starts to wait.
 */
module Deadlock {
  import opened Locks

  /** The blocked element at `p` has to wait until the element at `m` leaves: a writer stands from `m` through `p`. */
  ghost predicate Behind(q: Queue, p: int, m: int) {
    0 <= m < p < |q| && q[p].isBlocked && exists c :: m <= c <= p && !q[c].isReader
  }

  ghost predicate WaitsAt(tb: Table, t: nat, u: nat, r: int, p: int, m: int) {
    && 0 <= r < |tb.locks|
    && Behind(tb.locks[r], p, m)
    && tb.locks[r][p].tid == t
    && tb.locks[r][m].tid == u
  }

  /** The real waits-for relation: `t` cannot proceed before `u` releases a lock. */
  ghost predicate Waits(tb: Table, t: nat, u: nat) {
    exists r, p, m :: WaitsAt(tb, t, u, r, p, m)
  }

  /** Who waits for somebody cannot enter. */
  lemma BehindCannotEnter(q: Queue, p: int, m: int)
    requires GrantsOk(q) && Behind(q, p, m)
    ensures !CanEnter(q, p)
  {
    var c :| m <= c <= p && !q[c].isReader;
    if q[p].isReader && !q[p-1].isBlocked { GrantedPrefix(q, p - 1, c); }
  }

  /** A path of the waits-for relation all of whose steps leave from a thread of `ws`. */
  ghost predicate WaitPath(tb: Table, ws: set<nat>, path: seq<nat>) {
    forall i :: 0 <= i < |path| - 1 ==> WaitStep(tb, ws, path, i)
  }

  ghost predicate WaitStep(tb: Table, ws: set<nat>, path: seq<nat>, i: int)
    requires 0 <= i < |path| - 1
  {
    path[i] in ws && Waits(tb, path[i], path[i+1])
  }

  /** No deadlock among the threads of `ws`. */
  ghost predicate Acyclic(tb: Table, ws: set<nat>) {
    forall path :: |path| > 1 && WaitPath(tb, ws, path) ==> path[0] != path[|path|-1]
  }

  /** Every thread that owns a blocked element is in `ws`. */
  ghost predicate BlockedIn(tb: Table, ws: set<nat>) {
    forall r, p :: 0 <= r < |tb.locks| && 0 <= p < |tb.locks[r]| && tb.locks[r][p].isBlocked
      ==> tb.locks[r][p].tid in ws
  }

  lemma AcyclicMono(tb: Table, ws: set<nat>, tb': Table, ws': set<nat>)
    requires Acyclic(tb, ws)
    requires forall t, u :: t in ws' && Waits(tb', t, u) ==> t in ws && Waits(tb, t, u)
    ensures Acyclic(tb', ws')
  {
    forall path | |path| > 1 && WaitPath(tb', ws', path)
      ensures path[0] != path[|path|-1]
    {
      forall i | 0 <= i < |path| - 1 ensures WaitStep(tb, ws, path, i) { assert WaitStep(tb', ws', path, i); }
      assert WaitPath(tb, ws, path);
    }
  }

  lemma SubPath(tb: Table, ws: set<nat>, path: seq<nat>, i: nat, j: nat)
    requires WaitPath(tb, ws, path) && i <= j <= |path|
    ensures WaitPath(tb, ws, path[i..j])
  {
    forall k | 0 <= k < j - i - 1 ensures WaitStep(tb, ws, path[i..j], k) { assert WaitStep(tb, ws, path, i + k); }
  }

  // ---------- the operations and the waits-for relation ----------

  lemma SetGrantedAcyclic(tb: Table, t: nat, r: nat, ws: set<nat>)
    requires Holds(tb, t, r)
    requires Acyclic(tb, ws)
    ensures Acyclic(SetGranted(tb, t, r), ws)
  {
    var tb' := SetGranted(tb, t, r);
    forall x, u | Waits(tb', x, u)
      ensures Waits(tb, x, u)
    {
      var s, p, m :| WaitsAt(tb', x, u, s, p, m);
      var c :| m <= c <= p && !tb'.locks[s][c].isReader;
      assert m <= c <= p && !tb.locks[s][c].isReader;
      assert WaitsAt(tb, x, u, s, p, m);
    }
    AcyclicMono(tb, ws, tb', ws);
  }

  lemma UnlockAllEdges(tb: Table, t: nat, x: nat, u: nat)
    requires t < |tb.adj| && Waits(UnlockAll(tb, t), x, u)
    ensures Waits(tb, x, u)
  {
    var tb' := UnlockAll(tb, t);
    var s, p, m :| WaitsAt(tb', x, u, s, p, m);
    var c :| m <= c <= p && !tb'.locks[s][c].isReader;
    var q := tb.locks[s];
    if InQueue(q, t) {
      EraseAt(q, t);
      var p1, m1, c1 := Shift(q, t, p), Shift(q, t, m), Shift(q, t, c);
      assert m1 <= c1 <= p1 && !q[c1].isReader;
      assert WaitsAt(tb, x, u, s, p1, m1);
    } else {
      assert WaitsAt(tb, x, u, s, p, m);
    }
  }

  lemma UnlockAllAcyclic(tb: Table, t: nat, ws: set<nat>)
    requires t < |tb.adj|
    requires Acyclic(tb, ws)
    ensures Acyclic(UnlockAll(tb, t), ws)
  {
    forall x, u | Waits(UnlockAll(tb, t), x, u) ensures Waits(tb, x, u) { UnlockAllEdges(tb, t, x, u); }
    AcyclicMono(tb, ws, UnlockAll(tb, t), ws);
  }

  lemma AddLockEdges(tb: Table, me: nat, r: nat, isReader: bool, x: nat, u: nat)
    requires me < |tb.adj| && r < |tb.locks| && x != me
    requires Waits(AddLock(tb, me, r, isReader), x, u)
    ensures Waits(tb, x, u)
  {
    var tb' := AddLock(tb, me, r, isReader);
    var s, p, m :| WaitsAt(tb', x, u, s, p, m);
    var c :| m <= c <= p && !tb'.locks[s][c].isReader;
    assert m <= c <= p && !tb.locks[s][c].isReader;
    assert WaitsAt(tb, x, u, s, p, m);
  }

  // ---------- the search is complete ----------

  /** What a failed search from `root` knows about a visited `y`: its predecessor in queue `r` was visited too, except
      that a granted `y` may stand right behind `me`, in a queue where `root` is granted as well. */
  ghost predicate Explored(tb: Table, me: nat, root: nat, blocked: bool, y: nat, r: nat, visit: set<nat>) {
    Holds(tb, y, r) && Pos(tb.locks[r], y) > 0 ==>
      if tb.locks[r][Pos(tb.locks[r], y) - 1].tid == me
      then !blocked && HasGranted(tb, y, r) && HasGranted(tb, root, r)
      else tb.locks[r][Pos(tb.locks[r], y) - 1].tid in visit
  }

  ghost predicate Closed(tb: Table, me: nat, root: nat, blocked: bool, s: set<nat>, visit: set<nat>) {
    forall y, r :: y in s ==> Explored(tb, me, root, blocked, y, r, visit)
  }

  lemma {:induction false} DetectClosed(tb: Table, me: nat, x: nat, blocked: bool, visit: set<nat>)
    requires WellFormed(tb) && OneReader(tb) && x < |tb.adj| && x !in visit && me !in visit
    requires !Detect(tb, me, x, blocked, visit).0
    ensures var v := Detect(tb, me, x, blocked, visit).1;
      && (x == me ==> !blocked)
      && (x != me ==> x in v)
      && me !in v
      && Closed(tb, me, x, blocked, v - visit, v)
    decreases Threads(tb) - visit, 0, 0
  {
    if x != me {
      DetectFromClosed(tb, me, x, 0, blocked, visit + {x});
      var v := DetectFrom(tb, me, x, 0, blocked, visit + {x}).1;
      forall y, r | y in v - visit
        ensures Explored(tb, me, x, blocked, y, r, v)
      {
        if y == x {
          if Holds(tb, x, r) { TokenOf(tb, x, r); }
        } else {
          assert y in v - (visit + {x});
        }
      }
    }
  }

  lemma TokenOf(tb: Table, x: nat, r: nat)
    requires Covered(tb) && Holds(tb, x, r)
    ensures x < |tb.adj| && exists k :: 0 <= k < |tb.adj[x]| && tb.adj[x][k] == LockToken(x, r)
  {
    var p := Pos(tb.locks[r], x);
    assert CoveredAt(tb, r, p);
  }

  lemma {:induction false} DetectFromClosed(tb: Table, me: nat, x: nat, k: nat, blocked: bool, visit: set<nat>)
    requires WellFormed(tb) && OneReader(tb) && x < |tb.adj| && k <= |tb.adj[x]| && me !in visit
    requires !DetectFrom(tb, me, x, k, blocked, visit).0
    ensures var v := DetectFrom(tb, me, x, k, blocked, visit).1;
      && me !in v
      && Closed(tb, me, x, blocked, v - visit, v)
      && (forall i :: k <= i < |tb.adj[x]| ==> Explored(tb, me, x, blocked, x, tb.adj[x][i].index, v))
    decreases Threads(tb) - visit, 1, |tb.adj[x]| - k
  {
    if k < |tb.adj[x]| {
      assert TokenOk(tb, x, tb.adj[x][k]);
      var r := tb.adj[x][k].index;
      var q := tb.locks[r];
      var p := Pos(q, x);
      if p == 0 || q[p-1].tid in visit {
        DetectFromClosed(tb, me, x, k + 1, blocked, visit);
      } else {
        var y := q[p-1].tid;
        assert CoveredAt(tb, r, p - 1);
        var blocked' := blocked || q[p].isBlocked;
        DetectClosed(tb, me, y, blocked', visit);
        var v1 := Detect(tb, me, y, blocked', visit).1;
        DetectFromClosed(tb, me, x, k + 1, blocked, v1);
        var v := DetectFrom(tb, me, x, k + 1, blocked, v1).1;
        MergeClosed(tb, me, x, r, y, blocked, blocked', visit, v1, v);
        if y == me { PredecessorGranted(tb, x, r); }
      }
    }
  }

  lemma PredecessorGranted(tb: Table, x: nat, r: nat)
    requires QueuesOk(tb) && HasGranted(tb, x, r) && Pos(tb.locks[r], x) > 0
    ensures var q := tb.locks[r]; var p := Pos(q, x);
      !q[p-1].isBlocked && q[p-1].isReader && q[p].isReader && HasGranted(tb, q[p-1].tid, r)
  {
    PosIs(tb.locks[r], Pos(tb.locks[r], x) - 1);
  }

  /** A search started at `y` on behalf of `x`, followed by the rest of the search of `x`. */
  lemma MergeClosed(tb: Table, me: nat, x: nat, r: nat, y: nat, blocked: bool, blocked': bool, visit: set<nat>,
                    v1: set<nat>, v: set<nat>)
    requires QueuesOk(tb) && OneReader(tb) && me !in v
    requires Holds(tb, x, r) && Pos(tb.locks[r], x) > 0 && tb.locks[r][Pos(tb.locks[r], x) - 1].tid == y
    requires blocked' == (blocked || ElementOf(tb, x, r).isBlocked)
    requires visit <= v1 <= v
    requires Closed(tb, me, y, blocked', v1 - visit, v1)
    requires Closed(tb, me, x, blocked, v - v1, v)
    ensures Closed(tb, me, x, blocked, v - visit, v)
  {
    forall z: nat, s: nat | z in v - visit
      ensures Explored(tb, me, x, blocked, z, s, v)
    {
      if z in v1 {
        assert z in v1 - visit;
        assert Explored(tb, me, y, blocked', z, s, v1);
        if Holds(tb, z, s) && Pos(tb.locks[s], z) > 0 && tb.locks[s][Pos(tb.locks[s], z) - 1].tid == me {
          PredecessorGranted(tb, x, r);
          PredecessorGranted(tb, z, s);
          GrantedIsReader(tb.locks[s], Pos(tb.locks[s], z), Pos(tb.locks[s], y));
          assert ElementOf(tb, y, r).isReader && ElementOf(tb, y, s).isReader;
        }
      } else {
        assert z in v - v1;
      }
    }
  }

  lemma GrantedIsReader(q: Queue, g: nat, p: nat)
    requires GrantsOk(q) && 0 < g < |q| && p < |q| && !q[g].isBlocked && !q[p].isBlocked
    ensures q[p].isReader
  {
    if p <= g { GrantedPrefix(q, g, p); } else { GrantedPrefix(q, p, p); }
  }

  /** The situation of the completeness proof: `me` has queued on `r` behind `t1`, and the search from `t1` found
      nothing. */
  ghost predicate Searched(tb: Table, me: nat, r: nat, t1: nat, v: set<nat>) {
    && QueuesOk(tb) && OneReader(tb)
    && Holds(tb, me, r)
    && Pos(tb.locks[r], me) == |tb.locks[r]| - 1 > 0
    && tb.locks[r][|tb.locks[r]| - 2].tid == t1
    && (forall s :: Holds(tb, me, s) && s != r ==> !ElementOf(tb, me, s).isBlocked)
    && t1 in v && me !in v
    && Closed(tb, me, t1, false, v, v)
  }

  /** `t1` is granted in queue `s`, which `me` has not just joined, among the readers at its head. */
  ghost predicate Gap(tb: Table, r: nat, t1: nat, s: nat, p: int) {
    s != r && HasGranted(tb, t1, s) && exists g :: 0 < g <= p && g < |tb.locks[s]| && !tb.locks[s][g].isBlocked
  }

  /** Walking down a queue from a visited thread either stays among visited threads or meets `me` through
      the one gap. */
  lemma {:induction false} WalkDown(tb: Table, me: nat, r: nat, t1: nat, v: set<nat>, s: nat, p: nat, m: nat)
    requires Searched(tb, me, r, t1, v)
    requires s < |tb.locks| && m <= p < |tb.locks[s]| && tb.locks[s][p].tid in v
    ensures tb.locks[s][m].tid in v || Gap(tb, r, t1, s, p)
    decreases p
  {
    if m < p {
      var q := tb.locks[s];
      PosIs(q, p);
      assert Explored(tb, me, t1, false, q[p].tid, s, v);
      if q[p-1].tid == me {
        PosIs(q, p - 1);
        assert 0 < p <= p && !q[p].isBlocked;
      } else {
        WalkDown(tb, me, r, t1, v, s, p - 1, m);
      }
    }
  }

  lemma PathSplice(tb: Table, ws: set<nat>, a: seq<nat>, b: seq<nat>)
    requires WaitPath(tb, ws, a) && WaitPath(tb, ws, b) && |a| > 0 && |b| > 0 && a[|a|-1] == b[0]
    ensures WaitPath(tb, ws, a + b[1..])
  {
    var c := a + b[1..];
    forall i | 0 <= i < |c| - 1
      ensures WaitStep(tb, ws, c, i)
    {
      if i < |a| - 1 {
        assert WaitStep(tb, ws, a, i);
      } else {
        assert WaitStep(tb, ws, b, i - (|a| - 1));
      }
    }
  }

  /** When `me` waits for `x1` on `r` from behind `t1`, then `t1`, being a blocked writer there, waits for `x1` as
      well. */
  lemma NeighbourWaits(tb: Table, me: nat, r: nat, t1: nat, v: set<nat>, x1: nat, s: nat)
    requires Searched(tb, me, r, t1, v)
    requires HasGranted(tb, t1, s) && ElementOf(tb, t1, s).isReader && s != r
    requires Waits(tb, me, x1) && x1 != t1
    ensures Waits(tb, t1, x1)
  {
    var r1, p1, m1 :| WaitsAt(tb, me, x1, r1, p1, m1);
    PosIs(tb.locks[r1], p1);
    assert Holds(tb, me, r1) && ElementOf(tb, me, r1).isBlocked;
    var q := tb.locks[r];
    var p := |q| - 2;
    PosIs(q, p);
    assert !ElementOf(tb, t1, r).isReader;
    assert m1 <= p <= p && !q[p].isReader;
    assert WaitsAt(tb, t1, x1, r, p, m1);
  }

  /** A waiter beyond the gap waits for `t1`: a writer stands between it and the granted readers. */
  lemma WaitsForRoot(tb: Table, r: nat, t1: nat, x: nat, s: nat, p: int, m: int)
    requires QueuesOk(tb) && s < |tb.locks| && Gap(tb, r, t1, s, p) && Behind(tb.locks[s], p, m)
    requires tb.locks[s][p].tid == x
    ensures Waits(tb, x, t1) && ElementOf(tb, t1, s).isReader
  {
    var q := tb.locks[s];
    var g :| 0 < g <= p && g < |q| && !q[g].isBlocked;
    var c :| m <= c <= p && !q[c].isReader;
    var a := Pos(q, t1);
    GrantedIsReader(q, g, a);
    if a >= c { GrantedPrefix(q, a, c); if a == 0 { assert false; } }
    assert a <= c <= p && !q[c].isReader;
    assert WaitsAt(tb, x, t1, s, p, a);
  }

  ghost predicate Requested(tb0: Table, tb: Table, ws: set<nat>, me: nat, r: nat, isReader: bool) {
    && me < |tb0.adj| && r < |tb0.locks| && tb == AddLock(tb0, me, r, isReader)
    && Acyclic(tb0, ws) && BlockedIn(tb0, ws)
  }

  lemma OldStep(tb0: Table, tb: Table, ws: set<nat>, me: nat, r: nat, isReader: bool, x: nat, u: nat)
    requires Requested(tb0, tb, ws, me, r, isReader) && x != me && Waits(tb, x, u)
    ensures x in ws && Waits(tb0, x, u)
  {
    AddLockEdges(tb0, me, r, isReader, x, u);
    var r2, p2, m2 :| WaitsAt(tb0, x, u, r2, p2, m2);
  }

  lemma NoOldCycle(tb0: Table, tb: Table, ws: set<nat>, me: nat, r: nat, isReader: bool, cycle: seq<nat>)
    requires Requested(tb0, tb, ws, me, r, isReader)
    requires |cycle| > 1 && forall i :: 0 <= i < |cycle| - 1 ==> cycle[i] != me && Waits(tb, cycle[i], cycle[i+1])
    ensures cycle[0] != cycle[|cycle|-1]
  {
    forall i | 0 <= i < |cycle| - 1 ensures WaitStep(tb0, ws, cycle, i) {
      OldStep(tb0, tb, ws, me, r, isReader, cycle[i], cycle[i+1]);
    }
    assert WaitPath(tb0, ws, cycle);
  }

  lemma CycleEdges(tb: Table, ws: set<nat>, me: nat, t1: nat, front: seq<nat>, cycle: seq<nat>)
    requires |front| > 1 && WaitPath(tb, ws, front) && Waits(tb, front[|front|-1], t1)
    requires t1 != me && forall i :: 1 <= i < |front| ==> front[i] != me
    requires front[1] == t1 || Waits(tb, t1, front[1])
    requires cycle == (if front[1] == t1 then front[1..] else front[0 := t1]) + [t1]
    ensures forall i :: 0 <= i < |cycle| - 1 ==> cycle[i] != me && Waits(tb, cycle[i], cycle[i+1])
  {
    forall i | 0 <= i < |cycle| - 1
      ensures cycle[i] != me && Waits(tb, cycle[i], cycle[i+1])
    {
      var j := i + if front[1] == t1 then 1 else 0;
      if j < |front| - 1 { assert WaitStep(tb, ws, front, j); }
    }
  }

  /** A path from `me` that leaves the visited threads through the gap would close a cycle that was there before. */
  lemma EscapeIsOldCycle(tb0: Table, tb: Table, ws: set<nat>, me: nat, r: nat, isReader: bool, t1: nat, v: set<nat>,
                         front: seq<nat>, s: nat, p: int, m: int)
    requires Requested(tb0, tb, ws, me, r, isReader) && Searched(tb, me, r, t1, v)
    requires |front| > 1 && front[0] == me && WaitPath(tb, ws + {me}, front)
    requires forall i :: 1 <= i < |front| ==> front[i] in v
    requires s < |tb.locks| && Behind(tb.locks[s], p, m) && tb.locks[s][p].tid == front[|front|-1]
    ensures !Gap(tb, r, t1, s, p)
  {
    if Gap(tb, r, t1, s, p) {
      var n := |front|;
      WaitsForRoot(tb, r, t1, front[n-1], s, p, m);
      assert WaitStep(tb, ws + {me}, front, 0);
      if front[1] != t1 { NeighbourWaits(tb, me, r, t1, v, front[1], s); }
      assert me !in v && t1 != me;
      var cycle := (if front[1] == t1 then front[1..] else front[0 := t1]) + [t1];
      CycleEdges(tb, ws + {me}, me, t1, front, cycle);
      NoOldCycle(tb0, tb, ws, me, r, isReader, cycle);
    }
  }

  lemma FirstStep(tb: Table, me: nat, r: nat, t1: nat, v: set<nat>, z: nat)
    requires Searched(tb, me, r, t1, v) && Waits(tb, me, z)
    ensures z in v
  {
    var s, p, m :| WaitsAt(tb, me, z, s, p, m);
    PosIs(tb.locks[s], p);
    assert Holds(tb, me, s) && ElementOf(tb, me, s).isBlocked;
    WalkDown(tb, me, r, t1, v, r, p - 1, m);
  }

  /** Every waits-for path from `me` stays among the visited threads, so it never comes back. */
  lemma {:induction false} PathStays(tb0: Table, tb: Table, ws: set<nat>, me: nat, r: nat, isReader: bool, t1: nat,
                                     v: set<nat>, path: seq<nat>)
    requires Requested(tb0, tb, ws, me, r, isReader) && Searched(tb, me, r, t1, v)
    requires |path| > 1 && path[0] == me && WaitPath(tb, ws + {me}, path)
    ensures forall i :: 1 <= i < |path| ==> path[i] in v
  {
    var n := |path|;
    assert WaitStep(tb, ws + {me}, path, n - 2);
    if n == 2 {
      FirstStep(tb, me, r, t1, v, path[1]);
    } else {
      var front := path[..n-1];
      SubPath(tb, ws + {me}, path, 0, n - 1);
      PathStays(tb0, tb, ws, me, r, isReader, t1, v, front);
      assert forall i :: 1 <= i < n - 1 ==> path[i] == front[i];
      var s, p, m :| WaitsAt(tb, path[n-2], path[n-1], s, p, m);
      WalkDown(tb, me, r, t1, v, s, p, m);
      EscapeIsOldCycle(tb0, tb, ws, me, r, isReader, t1, v, front, s, p, m);
    }
  }

  /** The completeness of `hasCycle`: when the waits-for relation is acyclic, every thread owns at most one reader
      element and the requester's other locks are granted, a request that is left to wait closes no cycle. */
  lemma RequestKeepsAcyclic(tb: Table, ws: set<nat>, me: nat, r: nat, isReader: bool)
    requires WellFormed(tb) && me < |tb.adj| && r < |tb.locks| && !Holds(tb, me, r)
    requires forall s :: Holds(tb, me, s) ==> !ElementOf(tb, me, s).isBlocked
    requires OneReader(AddLock(tb, me, r, isReader))
    requires Acyclic(tb, ws) && BlockedIn(tb, ws)
    ensures WellFormed(AddLock(tb, me, r, isReader)) && Holds(AddLock(tb, me, r, isReader), me, r)
    ensures var tb' := AddLock(tb, me, r, isReader);
      !CanEnter(tb'.locks[r], Pos(tb'.locks[r], me)) && !HasCycle(tb', me, r) ==> Acyclic(tb', ws + {me})
  {
    var tb' := AddLock(tb, me, r, isReader);
    AddLockKeeps(tb, me, r, isReader);
    AddLockElements(tb, me, r, isReader);
    OthersGranted(tb, tb', me, r);
    var q := tb'.locks[r];
    if !CanEnter(q, Pos(q, me)) && !HasCycle(tb', me, r) {
      var v := FailedSearch(tb', me, r);
      forall path | |path| > 1 && WaitPath(tb', ws + {me}, path)
        ensures path[0] != path[|path|-1]
      {
        NoCycle(tb, tb', ws, me, r, isReader, q[|q|-2].tid, v, path);
      }
    }
  }

  lemma FailedSearch(tb: Table, me: nat, r: nat) returns (v: set<nat>)
    requires WellFormed(tb) && OneReader(tb) && Holds(tb, me, r) && Pos(tb.locks[r], me) == |tb.locks[r]| - 1
    requires !CanEnter(tb.locks[r], Pos(tb.locks[r], me)) && !HasCycle(tb, me, r)
    requires forall s :: Holds(tb, me, s) && s != r ==> !ElementOf(tb, me, s).isBlocked
    ensures |tb.locks[r]| > 1 && Searched(tb, me, r, tb.locks[r][|tb.locks[r]|-2].tid, v)
  {
    var q := tb.locks[r];
    var t1 := q[|q|-2].tid;
    assert CoveredAt(tb, r, |q| - 2);
    v := Detect(tb, me, t1, false, {}).1;
    DetectClosed(tb, me, t1, false, {});
    assert v - {} == v;
  }

  lemma OthersGranted(tb: Table, tb': Table, me: nat, r: nat)
    requires forall s :: Holds(tb, me, s) ==> !ElementOf(tb, me, s).isBlocked
    requires forall s :: s != r ==> SameElement(tb, tb', me, s)
    ensures forall s :: Holds(tb', me, s) && s != r ==> !ElementOf(tb', me, s).isBlocked
  {
    forall s | Holds(tb', me, s) && s != r ensures !ElementOf(tb', me, s).isBlocked {
      assert SameElement(tb, tb', me, s);
    }
  }

  lemma NoCycle(tb0: Table, tb: Table, ws: set<nat>, me: nat, r: nat, isReader: bool, t1: nat, v: set<nat>,
                path: seq<nat>)
    requires Requested(tb0, tb, ws, me, r, isReader) && Searched(tb, me, r, t1, v)
    requires |path| > 1 && WaitPath(tb, ws + {me}, path)
    ensures path[0] != path[|path|-1]
  {
    if path[0] == path[|path|-1] {
      if i :| 0 <= i < |path| - 1 && path[i] == me {
        SubPath(tb, ws + {me}, path, i, |path|);
        SubPath(tb, ws + {me}, path, 0, i + 1);
        PathSplice(tb, ws + {me}, path[i..|path|], path[0..i+1]);
        var c := path[i..|path|] + path[0..i+1][1..];
        assert c[0] == me && c[|c|-1] == me;
        PathStays(tb0, tb, ws, me, r, isReader, t1, v, c);
      } else {
        forall i | 0 <= i < |path| - 1 ensures path[i] != me && Waits(tb, path[i], path[i+1]) {
          assert WaitStep(tb, ws + {me}, path, i);
        }
        NoOldCycle(tb0, tb, ws, me, r, isReader, path);
      }
    }
  }

  /** A lock request keeps the table free of deadlock: with the requester among the waiters if it is told to wait. */
  lemma RequestLockAcyclic(tb: Table, ws: set<nat>, me: nat, r: nat, isReader: bool)
    requires WellFormed(tb) && me < |tb.adj| && r < |tb.locks| && !Holds(tb, me, r) && me !in ws
    requires forall s :: Holds(tb, me, s) ==> !ElementOf(tb, me, s).isBlocked
    requires OneReader(AddLock(tb, me, r, isReader))
    requires Acyclic(tb, ws) && BlockedIn(tb, ws)
    ensures var res := RequestLock(tb, me, r, isReader);
      Acyclic(res.1, if res.0.MustWait? then ws + {me} else ws)
  {
    var tb' := AddLock(tb, me, r, isReader);
    RequestKeepsAcyclic(tb, ws, me, r, isReader);
    forall x, u | x in ws && Waits(tb', x, u) ensures Waits(tb, x, u) { AddLockEdges(tb, me, r, isReader, x, u); }
    AcyclicMono(tb, ws, tb', ws);
    if CanEnter(tb'.locks[r], Pos(tb'.locks[r], me)) { SetGrantedAcyclic(tb', me, r, ws); }
  }

  lemma NobodyWaits(tb: Table)
    ensures Acyclic(tb, {})
  {
    forall path: seq<nat> | |path| > 1 ensures !WaitPath(tb, {}, path) { assert !WaitStep(tb, {}, path, 0); }
  }

  // ---------- why one reader a thread matters ----------

  /** Threads 0 to 3, records 0 to 3. Thread 1 owns two reader elements; thread 2 waits on record 1, thread 3 on
      record 2. */
  function TwoReaders(): Table {
    Table([[LockElement(1, true, false), LockElement(3, true, false)],
           [LockElement(0, true, false), LockElement(1, true, false), LockElement(2, false, true)],
           [LockElement(2, false, false), LockElement(3, false, true)],
           [LockElement(3, false, false)]],
          [[LockToken(0, 1)],
           [LockToken(1, 0), LockToken(1, 1)],
           [LockToken(2, 2), LockToken(2, 1)],
           [LockToken(3, 0), LockToken(3, 3), LockToken(3, 2)]])
  }

  lemma PosAt(q: Queue, p: nat)
    requires p < |q| && forall i :: 0 <= i < p ==> q[i].tid != q[p].tid
    ensures Pos(q, q[p].tid) == p
  {
  }

  /** Thread 0 queues for record 3, behind thread 3. */
  function TwoReadersAsked(): Table {
    AddLock(TwoReaders(), 0, 3, false)
  }

  lemma TwoReadersCovered()
    ensures Covered(TwoReaders())
  {
    var tb := TwoReaders();
    assert tb.adj[0][0] == LockToken(0, 1);
    assert tb.adj[1][0] == LockToken(1, 0) && tb.adj[1][1] == LockToken(1, 1);
    assert tb.adj[2][0] == LockToken(2, 2) && tb.adj[2][1] == LockToken(2, 1);
    assert tb.adj[3][0] == LockToken(3, 0) && tb.adj[3][2] == LockToken(3, 2) && tb.adj[3][1] == LockToken(3, 3);
  }

  lemma TwoReadersTokens()
    ensures TokensOk(TwoReaders())
  {
    var tb := TwoReaders();
    PosAt(tb.locks[0], 0); PosAt(tb.locks[0], 1);
    PosAt(tb.locks[1], 0); PosAt(tb.locks[1], 1); PosAt(tb.locks[1], 2);
    PosAt(tb.locks[2], 0); PosAt(tb.locks[2], 1);
    PosAt(tb.locks[3], 0);
  }

  lemma TwoReadersOk()
    ensures WellFormed(TwoReaders()) && !Holds(TwoReaders(), 0, 3) && WellFormed(TwoReadersAsked())
  {
    var tb := TwoReaders();
    TwoReadersCovered();
    TwoReadersTokens();
    assert QueuesOk(tb);
    assert tb.locks[3][0].tid == 3;
    AddLockKeeps(tb, 0, 3, false);
  }

  /** Before the request nobody is in a cycle: each thread waits only for threads with smaller numbers. */
  lemma TwoReadersBefore()
    ensures Acyclic(TwoReaders(), UpTo(4))
  {
    var tb := TwoReaders();
    forall t, u | Waits(tb, t, u) ensures t > u {
      var r, p, m :| WaitsAt(tb, t, u, r, p, m);
    }
    forall path | |path| > 1 && WaitPath(tb, UpTo(4), path) ensures path[0] != path[|path|-1] {
      PathDescends(tb, path, |path| - 1);
    }
  }

  lemma {:induction false} PathDescends(tb: Table, path: seq<nat>, n: nat)
    requires forall t, u :: Waits(tb, t, u) ==> t > u
    requires 0 < n < |path| && WaitPath(tb, UpTo(4), path)
    ensures path[0] > path[n]
  {
    assert WaitStep(tb, UpTo(4), path, n - 1);
    if n > 1 { PathDescends(tb, path, n - 1); }
  }

  /** Without the limit of one reader element a thread, the search misses a deadlock: it reaches thread 1 first without
      having passed a blocked element, finds thread 0 from there, and never looks at thread 1 again. */
  lemma TwoReadersMissDeadlock()
    ensures var tb := TwoReadersAsked();
      && WellFormed(tb) && InQueue(tb.locks[3], 0)
      && !CanEnter(tb.locks[3], Pos(tb.locks[3], 0))
      && !HasCycle(tb, 0, 3)
      && WaitPath(tb, UpTo(4), [0, 3, 2, 0])
      && !OneReader(tb)
  {
    TwoReadersOk();
    var tb := TwoReadersAsked();
    PosAt(tb.locks[0], 0);
    PosAt(tb.locks[1], 1);
    PosAt(tb.locks[3], 1);
    TwoReadersSearch(tb);
    TwoReadersWait(tb);
    assert ElementOf(tb, 1, 0).isReader && ElementOf(tb, 1, 1).isReader;
  }

  /** The search from thread 3, thread by thread. */
  lemma TwoReadersSearch(tb: Table)
    requires tb == TwoReadersAsked() && WellFormed(tb)
    ensures !Detect(tb, 0, 3, false, {}).0
  {
    PosAt(tb.locks[0], 0); PosAt(tb.locks[0], 1);
    PosAt(tb.locks[1], 0); PosAt(tb.locks[1], 1); PosAt(tb.locks[1], 2);
    PosAt(tb.locks[2], 0); PosAt(tb.locks[2], 1);
    PosAt(tb.locks[3], 0); PosAt(tb.locks[3], 1);
    assert Detect(tb, 0, 0, false, {3, 1}) == (false, {3, 1});
    assert DetectFrom(tb, 0, 1, 2, false, {3, 1}) == (false, {3, 1});
    assert DetectFrom(tb, 0, 1, 1, false, {3, 1}) == (false, {3, 1});
    assert DetectFrom(tb, 0, 1, 0, false, {3, 1}) == (false, {3, 1});
    assert {3} + {1} == {3, 1};
    assert Detect(tb, 0, 1, false, {3}) == (false, {3, 1});
    var all := {3, 1, 2};
    assert {3, 1} + {2} == all;
    assert DetectFrom(tb, 0, 2, 2, true, all) == (false, all);
    assert DetectFrom(tb, 0, 2, 1, true, all) == (false, all);
    assert DetectFrom(tb, 0, 2, 0, true, all) == (false, all);
    assert Detect(tb, 0, 2, true, {3, 1}) == (false, all);
    assert DetectFrom(tb, 0, 3, 3, false, all) == (false, all);
    assert DetectFrom(tb, 0, 3, 2, false, {3, 1}) == (false, all);
    assert DetectFrom(tb, 0, 3, 1, false, {3, 1}) == (false, all);
    assert DetectFrom(tb, 0, 3, 0, false, {3}) == (false, all);
    assert {} + {3} == {3};
    assert Detect(tb, 0, 3, false, {}) == (false, all);
  }

  lemma TwoReadersWait(tb: Table)
    requires tb == TwoReadersAsked()
    ensures WaitPath(tb, UpTo(4), [0, 3, 2, 0])
  {
    var path := [0, 3, 2, 0];
    assert 0 <= 1 <= 1 && !tb.locks[3][1].isReader;
    assert WaitsAt(tb, 0, 3, 3, 1, 0);
    assert 0 <= 1 <= 1 && !tb.locks[2][1].isReader;
    assert WaitsAt(tb, 3, 2, 2, 1, 0);
    assert 0 <= 2 <= 2 && !tb.locks[1][2].isReader;
    assert WaitsAt(tb, 2, 0, 1, 2, 0);
    forall i | 0 <= i < |path| - 1 ensures WaitStep(tb, UpTo(4), path, i) {
      assert i == 0 || i == 1 || i == 2;
    }
  }
}
