/**
 The lock table as the object the workers share. Every method runs under the table mutex; the caller's thread id, which
 the program takes from thread-local storage, is the parameter `me`.
 */
module LockTableObject {
  import opened Locks

  class LockTable {
    var locks: seq<Queue>
    var adj: seq<seq<LockToken>>

    function View(): Table
      reads this
    {
      Table(locks, adj)
    }

    constructor (numWorkers: nat, numRecords: nat)
      ensures View() == EmptyTable(numWorkers, numRecords) && WellFormed(View())
    {
      adj := seq(numWorkers, i => []);
      locks := [];
      new;
      for i := 0 to numRecords
        invariant adj == seq(numWorkers, j => [])
        invariant locks == seq(i, j => [])
      {
        locks := locks + [[]];
      }
    }

    method AddLock(me: nat, index: nat, isReader: bool) returns (token: LockToken)
      requires me < |adj| && index < |locks|
      modifies this
      ensures token == LockToken(me, index)
      ensures View() == Locks.AddLock(old(View()), me, index, isReader)
    {
      locks := locks[index := locks[index] + [LockElement(me, isReader, true)]];
      token := LockToken(me, index);
      adj := adj[me := adj[me] + [token]];
    }

    method CanEnter(token: LockToken) returns (entered: bool)
      requires token.index < |locks| && InQueue(locks[token.index], token.tid)
      modifies `locks
      ensures (entered, View()) == Locks.TryEnter(old(View()), token.tid, token.index)
    {
      var q := locks[token.index];
      var p := Pos(q, token.tid);
      if !q[p].isBlocked || p == 0 {
        locks := locks[token.index := q[p := q[p].(isBlocked := false)]];
        return true;
      }
      if q[p].isReader {
        if q[p-1].isReader && !q[p-1].isBlocked {
          locks := locks[token.index := q[p := q[p].(isBlocked := false)]];
          return true;
        }
      }
      return false;
    }

    method Unlock(token: LockToken)
      requires token.index < |locks| && InQueue(locks[token.index], token.tid)
      modifies `locks
      ensures locks == old(locks)[token.index := Erase(old(locks)[token.index], token.tid)]
    {
      locks := locks[token.index := Erase(locks[token.index], token.tid)];
    }

    /** `visit` is passed by reference in the program: here it is handed in and out. */
    method DetectCycle(me: nat, nextTid: nat, blocked: bool, visit: set<nat>) returns (found: bool, visited: set<nat>)
      requires WellFormed(View()) && nextTid < |adj| && nextTid !in visit
      ensures (found, visited) == Detect(View(), me, nextTid, blocked, visit)
      decreases Threads(View()) - visit
    {
      if nextTid == me {
        return blocked, visit;
      }
      visited := visit + {nextTid};
      var tokens := adj[nextTid];
      for k := 0 to |tokens|
        invariant visit + {nextTid} <= visited
        invariant DetectFrom(View(), me, nextTid, k, blocked, visited) == Detect(View(), me, nextTid, blocked, visit)
      {
        assert TokenOk(View(), nextTid, tokens[k]);
        var q := locks[tokens[k].index];
        var p := Pos(q, nextTid);
        if p == 0 {
          continue;
        }
        var tid := q[p-1].tid;
        assert CoveredAt(View(), tokens[k].index, p - 1);
        if tid !in visited {
          found, visited := DetectCycle(me, tid, blocked || q[p].isBlocked, visited);
          if found {
            return;
          }
        }
      }
      found := false;
    }

    /** The source's assertion that the predecessor is another thread's element holds by `NoDup`. */
    method HasCycle(token: LockToken) returns (found: bool)
      requires WellFormed(View()) && token.tid < |adj| && Holds(View(), token.tid, token.index)
      modifies `locks
      ensures found == Locks.HasCycle(old(View()), token.tid, token.index)
      ensures View() == Locks.TryEnter(old(View()), token.tid, token.index).1
    {
      var entered := CanEnter(token);
      if entered {
        return false;
      }
      var q := locks[token.index];
      var p := Pos(q, token.tid);
      assert q[p-1].tid != token.tid;
      assert CoveredAt(View(), token.index, p - 1);
      var visited;
      found, visited := DetectCycle(token.tid, q[p-1].tid, false, {});
    }

    /** `rwlock` up to its first look at the waiting condition: `MustWait` is where the thread starts to poll. */
    method RequestLock(me: nat, index: nat, isReader: bool) returns (result: LockResult)
      requires WellFormed(View()) && me < |adj| && index < |locks| && !Holds(View(), me, index)
      modifies this
      ensures WellFormed(View())
      ensures (result, View()) == Locks.RequestLock(old(View()), me, index, isReader)
    {
      AddLockKeeps(View(), me, index, isReader);
      AddLockElements(View(), me, index, isReader);
      RequestLockElements(View(), me, index, isReader);
      TryEnterTwice(Locks.AddLock(View(), me, index, isReader), me, index);
      var token := AddLock(me, index, isReader);
      var cycle := HasCycle(token);
      if cycle {
        return DeadlockDetected;
      }
      var entered := CanEnter(token);
      if entered {
        return Acquired;
      }
      return MustWait;
    }

    method UnlockAll(me: nat)
      requires Covered(View()) && TokensOk(View()) && me < |adj|
      modifies this
      ensures View() == Locks.UnlockAll(old(View()), me)
    {
      ghost var before := View();
      var tokens := adj[me];
      for k := 0 to |tokens|
        invariant adj == before.adj
        invariant ErasedFor(before.locks, locks, tokens[..k], me)
      {
        EraseUpTo(before, locks, me, k);
        Unlock(tokens[k]);
      }
      assert tokens[..|tokens|] == tokens;
      EraseAllTokens(before, locks, me);
      adj := adj[me := []];
    }
  }
}
