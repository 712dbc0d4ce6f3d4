/**
 Who has locked which node. `owners` is the state of the node mutexes, and `holds` says which thread, by its program
 counter, has locked which node; `threads` is the number of threads.
 */
module NodeLocks {
  import opened Options

  ghost predicate LockOk(owners: seq<Option<nat>>, holds: (nat, nat) -> bool, n: nat, u: nat)
    requires n < |owners|
  {
    owners[n] == Some(u) <==> holds(u, n)
  }

  /** The mutexes and the program counters agree. */
  ghost predicate LocksOk(owners: seq<Option<nat>>, threads: nat, holds: (nat, nat) -> bool) {
    && (forall n, u :: 0 <= n < |owners| && 0 <= u < threads ==> LockOk(owners, holds, n, u))
    && (forall n :: 0 <= n < |owners| && owners[n].Some? ==> owners[n].value < threads)
  }

  /** Only thread `u` has moved, and of the first `size` nodes its hold of `n` at most has changed. */
  ghost predicate OnlyAt(holds: (nat, nat) -> bool, holds': (nat, nat) -> bool, threads: nat, size: nat, u: nat,
                         n: nat) {
    forall w: nat, m: nat :: w < threads && m < size && (w != u || m != n) ==> holds'(w, m) == holds(w, m)
  }

  /** Thread `u` takes or frees the lock of node `n`. */
  lemma LocksStep(owners: seq<Option<nat>>, owners': seq<Option<nat>>, threads: nat,
                  holds: (nat, nat) -> bool, holds': (nat, nat) -> bool, u: nat, n: nat)
    requires LocksOk(owners, threads, holds) && u < threads && n < |owners|
    requires owners[n] == None || owners[n] == Some(u)
    requires owners' == owners[n := if holds'(u, n) then Some(u) else None]
    requires OnlyAt(holds, holds', threads, |owners|, u, n)
    ensures LocksOk(owners', threads, holds')
  {
    forall m, w | 0 <= m < |owners'| && 0 <= w < threads ensures LockOk(owners', holds', m, w) {
      assert LockOk(owners, holds, m, w);
    }
  }

  /** No lock changes hands. */
  lemma SameLocks(owners: seq<Option<nat>>, threads: nat, holds: (nat, nat) -> bool, holds': (nat, nat) -> bool)
    requires LocksOk(owners, threads, holds)
    requires forall w: nat, m: nat :: w < threads && m < |owners| ==> holds'(w, m) == holds(w, m)
    ensures LocksOk(owners, threads, holds')
  {
    forall m, w | 0 <= m < |owners| && 0 <= w < threads ensures LockOk(owners, holds', m, w) {
      assert LockOk(owners, holds, m, w);
    }
  }

  /** A new node comes unlocked. */
  lemma NewLock(owners: seq<Option<nat>>, threads: nat, holds: (nat, nat) -> bool, holds': (nat, nat) -> bool)
    requires LocksOk(owners, threads, holds)
    requires forall w: nat, m: nat :: w < threads && m < |owners| ==> holds'(w, m) == holds(w, m)
    requires forall w: nat :: w < threads ==> !holds'(w, |owners|)
    ensures LocksOk(owners + [None], threads, holds')
  {
    forall m, w | 0 <= m <= |owners| && 0 <= w < threads ensures LockOk(owners + [None], holds', m, w) {
      if m < |owners| { assert LockOk(owners, holds, m, w); }
    }
  }
}
