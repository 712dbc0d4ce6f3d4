/**
 Lock waits in a list whose nodes are locked in the order of their keys. A view of a state says which node each thread
 wants to lock, who has locked each node, and the keys of the nodes.
 */
module LockWaits {
  import opened Options
  import opened LockFreeHeap

  datatype View = View(wants: seq<Option<nat>>, owners: seq<Option<nat>>, keys: seq<int>)

  /** Thread `t` waits for a lock that thread `u` has. */
  ghost predicate WaitsOn(v: View, t: nat, u: nat) {
    && t < |v.wants| && v.wants[t].Some?
    && v.wants[t].value < |v.owners| && v.owners[v.wants[t].value] == Some(u)
  }

  ghost predicate Blocked(v: View, t: nat) {
    exists u: nat :: WaitsOn(v, t, u)
  }

  ghost predicate WaitChain(v: View, path: seq<nat>) {
    |path| > 0 && forall i :: 0 <= i < |path| - 1 ==> WaitLink(v, path, i)
  }

  ghost predicate WaitLink(v: View, path: seq<nat>, i: nat)
    requires i + 1 < |path|
  {
    WaitsOn(v, path[i], path[i+1])
  }

  function WantedKey(v: View, t: nat): int {
    if t < |v.wants| && v.wants[t].Some? && v.wants[t].value < |v.keys| then v.keys[v.wants[t].value] else MAX_KEY + 1
  }

  /** Whoever is waited for wants a node with a greater key, or waits for nothing. */
  ghost predicate Rising(v: View) {
    && (forall t: nat, u: nat :: WaitsOn(v, t, u) ==> u < |v.wants| && WantedKey(v, t) < WantedKey(v, u))
    && forall n :: 0 <= n < |v.keys| ==> v.keys[n] <= MAX_KEY
  }

  lemma {:induction false} KeysRise(v: View, path: seq<nat>)
    requires Rising(v) && WaitChain(v, path) && |path| > 1
    ensures WantedKey(v, path[0]) < WantedKey(v, path[|path|-1])
  {
    var n := |path| - 1;
    assert WaitLink(v, path, n - 1);
    if n > 1 {
      forall i | 0 <= i < n - 1 ensures WaitLink(v, path[..n], i) { assert WaitLink(v, path, i); }
      KeysRise(v, path[..n]);
    }
  }

  /** Every chain of waits leads to a thread that waits for nobody. */
  lemma {:induction false} EndOfChain(v: View, t: nat) returns (path: seq<nat>)
    requires Rising(v) && t < |v.wants|
    ensures WaitChain(v, path) && path[0] == t && path[|path|-1] < |v.wants| && !Blocked(v, path[|path|-1])
    decreases MAX_KEY + 1 - WantedKey(v, t)
  {
    path := [t];
    if Blocked(v, t) {
      var u: nat :| WaitsOn(v, t, u);
      var rest := EndOfChain(v, u);
      path := [t] + rest;
      forall i | 0 <= i < |path| - 1 ensures WaitLink(v, path, i) { if i > 0 { assert WaitLink(v, rest, i - 1); } }
    }
  }
}
