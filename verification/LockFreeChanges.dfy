/**
 What one call of the lock-free list changes in the set: an add that answers true inserts its key once and does nothing
 else, a remove deletes its key as often as it marks, and all the rest leave the set alone.
 */
module LockFreeChanges {
  import opened LockFreeHeap
  import opened LockFreeList

  /** The change from instant `a` to the next leaves the set as it is. */
  ghost predicate SetSame(hist: seq<Heap>, a: nat) {
    a + 1 < |hist| && forall k :: Contains(hist[a+1], k) <==> Contains(hist[a], k)
  }

  /** It takes the key out and no other. */
  ghost predicate DeletedAt(hist: seq<Heap>, a: nat, key: int) {
    && a + 1 < |hist| && Contains(hist[a], key)
    && forall k :: Contains(hist[a+1], k) <==> Contains(hist[a], k) && k != key
  }

  ghost predicate Own(writers: seq<nat>, t: nat, start: nat, a: nat) {
    start <= a < |writers| && writers[a] == t
  }

  /** How many of the changes of thread `t` from instant `a` to instant `b` take the key out. */
  ghost function Deletions(hist: seq<Heap>, writers: seq<nat>, t: nat, key: int, a: nat, b: nat): nat
    requires b <= |writers|
  {
    if b <= a then 0
    else Deletions(hist, writers, t, key, a, b - 1) + if writers[b-1] == t && DeletedAt(hist, b - 1, key) then 1 else 0
  }

  /** The own changes of an add since `start`: at `at` if it has inserted, and otherwise none that changes the set. */
  ghost predicate AddChanges(hist: seq<Heap>, writers: seq<nat>, t: nat, start: nat, at: nat, key: int,
                             inserted: bool) {
    && (inserted ==> Own(writers, t, start, at) && AddedAt(hist, at, key))
    && forall a: nat :: Own(writers, t, start, a) && !(inserted && a == at) ==> SetSame(hist, a)
  }

  ghost predicate RemoveChanges(hist: seq<Heap>, writers: seq<nat>, t: nat, start: nat, key: int, marks: nat) {
    && marks == Deletions(hist, writers, t, key, start, |writers|)
    && forall a: nat :: Own(writers, t, start, a) ==> SetSame(hist, a) || DeletedAt(hist, a, key)
  }

  ghost predicate ContainChanges(writers: seq<nat>, t: nat, start: nat) {
    forall a: nat :: !Own(writers, t, start, a)
  }

  ghost predicate OwnOk(hist: seq<Heap>, writers: seq<nat>, t: nat, th: Thread) {
    && |hist| == |writers| + 1 && th.start <= |writers|
    && match th.op
       case Add(key) => AddChanges(hist, writers, t, th.start, th.at, key, th.phase == Returned(true))
       case Remove(key) => RemoveChanges(hist, writers, t, th.start, key, th.marks)
       case Contain(_) => ContainChanges(writers, t, th.start)
  }

  ghost predicate ChangesOk(s: State) {
    && |s.hist| == |s.writers| + 1
    && forall t :: 0 <= t < |s.threads| && !s.threads[t].phase.Idle? ==> OwnOk(s.hist, s.writers, t, s.threads[t])
  }

  // ---------- one more change ----------

  lemma EarlierChanges(hist: seq<Heap>, h': Heap, a: nat)
    ensures SetSame(hist, a) ==> SetSame(hist + [h'], a)
    ensures a + 1 < |hist| ==> forall key :: DeletedAt(hist + [h'], a, key) <==> DeletedAt(hist, a, key)
    ensures forall key :: AddedAt(hist, a, key) ==> AddedAt(hist + [h'], a, key)
  {
  }

  lemma {:induction false} DeletionsPrefix(hist: seq<Heap>, writers: seq<nat>, h': Heap, w: nat, t: nat, key: int,
                                           a: nat, b: nat)
    requires b <= |writers| && |hist| == |writers| + 1
    ensures Deletions(hist + [h'], writers + [w], t, key, a, b) == Deletions(hist, writers, t, key, a, b)
  {
    if b > a {
      DeletionsPrefix(hist, writers, h', w, t, key, a, b - 1);
      EarlierChanges(hist, h', b - 1);
    }
  }

  lemma EarlierOwn(hist: seq<Heap>, writers: seq<nat>, h': Heap, w: nat, t: nat, start: nat, a: nat)
    requires |hist| == |writers| + 1 && Own(writers + [w], t, start, a)
    ensures a == |writers| ==> w == t
    ensures a < |writers| ==> Own(writers, t, start, a)
    ensures SetSame(hist, a) ==> SetSame(hist + [h'], a)
    ensures a < |writers| ==> forall key :: DeletedAt(hist, a, key) ==> DeletedAt(hist + [h'], a, key)
  {
    EarlierChanges(hist, h', a);
  }

  /** Somebody else makes a change, or the call itself one that `th'` accounts for. */
  lemma AddOn(hist: seq<Heap>, writers: seq<nat>, h': Heap, w: nat, t: nat, start: nat, at: nat, at': nat, key: int,
              before: bool, after: bool)
    requires |hist| == |writers| + 1 && start <= |writers|
    requires AddChanges(hist, writers, t, start, at, key, before)
    requires w != t ==> at' == at && before == after
    requires w == t ==> !before
    requires w == t ==> if after then at' == |writers| && AddedAt(hist + [h'], at', key)
                        else SetSame(hist + [h'], |writers|)
    ensures AddChanges(hist + [h'], writers + [w], t, start, at', key, after)
  {
    if after && w != t { EarlierChanges(hist, h', at); assert Own(writers + [w], t, start, at'); }
    forall a: nat | Own(writers + [w], t, start, a) && !(after && a == at') ensures SetSame(hist + [h'], a) {
      EarlierOwn(hist, writers, h', w, t, start, a);
    }
  }

  lemma RemoveOn(hist: seq<Heap>, writers: seq<nat>, h': Heap, w: nat, t: nat, start: nat, key: int, marks: nat,
                 marks': nat)
    requires |hist| == |writers| + 1 && start <= |writers|
    requires RemoveChanges(hist, writers, t, start, key, marks)
    requires w != t ==> marks' == marks
    requires w == t ==> if marks' == marks then SetSame(hist + [h'], |writers|)
                        else marks' == marks + 1 && DeletedAt(hist + [h'], |writers|, key)
    ensures RemoveChanges(hist + [h'], writers + [w], t, start, key, marks')
  {
    DeletionsPrefix(hist, writers, h', w, t, key, start, |writers|);
    forall a: nat | Own(writers + [w], t, start, a) ensures SetSame(hist + [h'], a) || DeletedAt(hist + [h'], a, key) {
      EarlierOwn(hist, writers, h', w, t, start, a);
    }
  }

  lemma OthersChange(hist: seq<Heap>, writers: seq<nat>, h': Heap, w: nat, t: nat, th: Thread)
    requires OwnOk(hist, writers, t, th) && w != t
    ensures OwnOk(hist + [h'], writers + [w], t, th)
  {
    match th.op
    case Add(key) =>
      var done := th.phase == Returned(true);
      AddOn(hist, writers, h', w, t, th.start, th.at, th.at, key, done, done);
    case Remove(key) => RemoveOn(hist, writers, h', w, t, th.start, key, th.marks, th.marks);
    case Contain(_) =>
      forall a: nat ensures !Own(writers + [w], t, th.start, a) { assert !Own(writers, t, th.start, a); }
  }

  // ---------- each step ----------

  /** A successful compare-and-swap of the call itself. */
  lemma OwnChange(s: State, s': State, t: nat)
    requires Inv(s) && Step(s, s', t) && s'.hist != s.hist && OwnOk(s.hist, s.writers, t, s.threads[t])
    ensures |s'.hist| > 0 && s'.hist == s.hist + [Mem(s')] && s'.writers == s.writers + [t]
    ensures OwnOk(s'.hist, s'.writers, t, s'.threads[t])
  {
    assert ThreadOk(s, t);
    var th, th' := s.threads[t], s'.threads[t];
    var h' := Mem(s');
    var now := |s.writers|;
    StepSets(s, s', t);
    assert s'.hist == s.hist + [h'];
    assert s'.hist[now] == Mem(s) && s'.hist[now+1] == h';
    match th.op
    case Add(key) =>
      AddOn(s.hist, s.writers, h', t, t, th.start, th.at, th'.at, key, false, th'.phase == Returned(true));
    case Remove(key) =>
      if th.phase.Mark? { MarkDiffers(Mem(s), th.phase.curr); }
      RemoveOn(s.hist, s.writers, h', t, t, th.start, key, th.marks, th'.marks);
  }

  lemma MarkDiffers(h: Heap, curr: nat)
    requires curr < |h| && !h[curr].marked
    ensures MarkNode(h, curr) != h
  {
    assert MarkNode(h, curr)[curr].marked;
  }

  lemma StepChanges(s: State, s': State, t: nat)
    requires Inv(s) && ChangesOk(s) && Step(s, s', t)
    ensures ChangesOk(s')
  {
    if s'.hist == s.hist {
      QuietStep(s, s', t);
    } else {
      assert !s.threads[t].phase.Idle?;
      OwnChange(s, s', t);
      forall u | 0 <= u < |s'.threads| && !s'.threads[u].phase.Idle?
        ensures OwnOk(s'.hist, s'.writers, u, s'.threads[u]) {
        if u != t { OthersChange(s.hist, s.writers, Mem(s'), t, u, s.threads[u]); }
      }
    }
  }

  lemma QuietStep(s: State, s': State, t: nat)
    requires Inv(s) && ChangesOk(s) && Step(s, s', t) && s'.hist == s.hist
    ensures ChangesOk(s')
  {
    assert ThreadOk(s, t);
    forall u | 0 <= u < |s'.threads| && !s'.threads[u].phase.Idle?
      ensures OwnOk(s'.hist, s'.writers, u, s'.threads[u]) {
      if u != t { assert OwnOk(s.hist, s.writers, u, s.threads[u]); }
    }
  }

  lemma {:induction false} RunKeepsChanges(run: seq<State>, n: nat)
    requires Run(run) && n < |run|
    ensures Inv(run[n]) && ChangesOk(run[n])
  {
    RunKeepsInv(run, n);
    if n > 0 {
      RunKeepsChanges(run, n - 1);
      assert Steps(run, n - 1);
      var t: nat :| Step(run[n-1], run[n], t);
      StepChanges(run[n-1], run[n], t);
    }
  }

  // ---------- the results ----------

  /** What a call that has returned has changed in the set, all its successful compare-and-swaps taken together. */
  lemma ChangesOfACall(run: seq<State>, n: nat, t: nat)
    requires Run(run) && n < |run| && t < |run[n].threads| && run[n].threads[t].phase.Returned?
    ensures var s, th := run[n], run[n].threads[t];
      && |s.hist| == |s.writers| + 1
      && match th.op
         case Add(key) => AddChanges(s.hist, s.writers, t, th.start, th.at, key, th.phase.result)
         case Remove(key) => !th.phase.result && RemoveChanges(s.hist, s.writers, t, th.start, key, th.marks)
         case Contain(_) => ContainChanges(s.writers, t, th.start)
  {
    RunKeepsChanges(run, n);
    AnswersAreLinearizable(run, n, t);
    assert OwnOk(run[n].hist, run[n].writers, t, run[n].threads[t]);
  }

  lemma StaysInCall(s: State, s': State, w: nat, t: nat)
    requires Inv(s) && Step(s, s', w) && t < |s.threads|
    requires !s.threads[t].phase.Idle? && !s.threads[t].phase.Returned?
    ensures t < |s'.threads| && !s'.threads[t].phase.Idle?
    ensures s'.threads[t].op == s.threads[t].op && s'.threads[t].start == s.threads[t].start
  {
    assert ThreadOk(s, t);
    HeapAtOk(s.hist, |s.hist| - 1);
    if s.threads[t].phase.Look? && s.threads[t].phase.curr != TAIL { assert LinkOk(Mem(s), s.threads[t].phase.curr); }
  }

  /** A call ends by its answer only: between a moment inside it and a later idle one it has returned. */
  lemma {:induction false} CallsReturn(run: seq<State>, m: nat, n: nat, t: nat) returns (k: nat)
    requires Run(run) && m <= n < |run| && t < |run[m].threads| && !run[m].threads[t].phase.Idle?
    requires t < |run[n].threads| && run[n].threads[t].phase.Idle?
    ensures m <= k < n && t < |run[k].threads| && run[k].threads[t].phase.Returned?
    ensures run[k].threads[t].op == run[m].threads[t].op && run[k].threads[t].start == run[m].threads[t].start
    decreases n - m
  {
    if run[m].threads[t].phase.Returned? {
      k := m;
    } else {
      RunKeepsInv(run, m);
      assert Steps(run, m);
      var w: nat :| Step(run[m], run[m+1], w);
      StaysInCall(run[m], run[m+1], w, t);
      k := CallsReturn(run, m + 1, n, t);
    }
  }
}
