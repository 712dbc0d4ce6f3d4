/**
 The main results about the snapshot: for any number of registers and every run.
 */
module SnapshotResults {
  import opened Options
  import opened Snapshot

  // ---------- as written ----------

  /** Whatever copy is borrowed from: a finished scan shows all registers at one instant not after now. */
  lemma ScanShowsOneInstant(run: seq<State>, capacity: nat, variant: Variant, n: nat, t: nat)
    requires Run(run, capacity, variant) && n < |run| && t < |run[n].threads|
    requires run[n].threads[t].phase.Scanned? || run[n].threads[t].phase.Loaded?
    ensures var s := run[n]; var th := s.threads[t];
      && th.at < |s.hist| && |th.result| == |s.hist[th.at]| == capacity && th.result == Values(s.hist[th.at])
  {
    RunKeepsInv(run, capacity, variant, n);
    assert ThreadOk(run[n], t, variant);
    assert LaterAll(run[n].hist[run[n].threads[t].at], run[n].hist[|run[n].hist|-1]);
  }

  lemma HistGrowsStep(s: State, s': State, variant: Variant)
    requires Next(s, s', variant)
    ensures s.hist <= s'.hist
  {
    var t: nat :| Step(s, s', t, variant);
  }

  lemma {:induction false} HistGrows(run: seq<State>, capacity: nat, variant: Variant, n: nat, m: nat)
    requires Run(run, capacity, variant) && n <= m < |run|
    ensures run[n].hist <= run[m].hist
  {
    if n < m {
      HistGrows(run, capacity, variant, n, m - 1);
      assert Steps(run, m - 1, variant);
      HistGrowsStep(run[m-1], run[m], variant);
    }
  }

  /** Two results are the register contents at two instants, and one instant has no smaller stamp anywhere. */
  ghost predicate ShownInOrder(hist: seq<seq<Cell>>, a: int, result: seq<int>, b: int, result': seq<int>) {
    && 0 <= a < |hist| && 0 <= b < |hist|
    && result == Values(hist[a]) && result' == Values(hist[b])
    && (LaterAll(hist[a], hist[b]) || LaterAll(hist[b], hist[a]))
  }

  /** Any two results of scans, of any threads at any times, are ordered: one shows every register at the same or a
      later stamp than the other. */
  lemma ResultsAreOrdered(run: seq<State>, capacity: nat, variant: Variant, n: nat, t: nat, m: nat, u: nat)
    requires Run(run, capacity, variant) && n <= m < |run| && t < |run[n].threads| && u < |run[m].threads|
    requires run[n].threads[t].phase.Scanned? && run[m].threads[u].phase.Scanned?
    ensures exists a, b :: ShownInOrder(run[m].hist, a, run[n].threads[t].result, b, run[m].threads[u].result)
  {
    ScanShowsOneInstant(run, capacity, variant, n, t);
    ScanShowsOneInstant(run, capacity, variant, m, u);
    HistGrows(run, capacity, variant, n, m);
    RunKeepsInv(run, capacity, variant, m);
    var a, b := run[n].threads[t].at, run[m].threads[u].at;
    assert run[m].hist[a] == run[n].hist[a];
    assert if a <= b then LaterAll(run[m].hist[a], run[m].hist[b]) else LaterAll(run[m].hist[b], run[m].hist[a]);
    assert ShownInOrder(run[m].hist, a, run[n].threads[t].result, b, run[m].threads[u].result);
  }

  /** A borrowed result comes from a register write inside the scan, by an update whose own scan began after that
      thread's previous write; a result that is not borrowed shows an instant inside the scan. */
  lemma WhereResultsComeFrom(run: seq<State>, capacity: nat, variant: Variant, n: nat, t: nat)
    requires Run(run, capacity, variant) && n < |run| && t < |run[n].threads| && run[n].threads[t].phase.Scanned?
    ensures var s := run[n]; var th := s.threads[t];
      if th.lender.Some? then Lent(s.hist, th, variant) else th.start <= th.at < |s.hist|
  {
    RunKeepsInv(run, capacity, variant, n);
    assert ThreadOk(run[n], t, variant);
  }

  // ---------- wait-freedom ----------

  /** The label COLLECT is passed at most capacity + 1 times, whatever the other threads do. */
  lemma BoundedPasses(run: seq<State>, capacity: nat, variant: Variant, n: nat, t: nat)
    requires Run(run, capacity, variant) && n < |run| && t < |run[n].threads| && !run[n].threads[t].phase.Idle?
    ensures run[n].threads[t].passes <= capacity + 1
    ensures run[n].threads[t].phase.Second? ==> run[n].threads[t].passes == Count(run[n].threads[t].moved) + 1
  {
    RunKeepsInv(run, capacity, variant, n);
    assert ThreadOk(run[n], t, variant);
  }

  /** The register borrowed from has been written: its snapshot is there, with one entry a register. */
  lemma BorrowedSnapPresent(run: seq<State>, capacity: nat, variant: Variant, n: nat, t: nat, i: nat)
    requires Run(run, capacity, variant) && n < |run| && t < |run[n].threads| && run[n].threads[t].phase.Second?
    requires i < |run[n].threads[t].moved| && run[n].threads[t].moved[i]
    ensures var th := run[n].threads[t];
      i < |th.oldCopy| && th.oldCopy[i].stamp >= 1 && |th.oldCopy[i].snap| == capacity
  {
    RunKeepsInv(run, capacity, variant, n);
    var s := run[n];
    var th := s.threads[t];
    assert ThreadOk(s, t, variant);
    assert Seen(s.hist, th.start, th.mid, i, th.oldCopy[i]);
    var a :| 0 <= a < |s.hist| && i < |s.hist[a]| && s.hist[a][i] == th.oldCopy[i];
    assert SnapOk(s.hist, a, i, variant);
    assert LaterAll(s.hist[a], s.hist[|s.hist|-1]);
  }

  // ---------- linearizability ----------

  /** The result of a finished scan is the content of the registers at some instant between its call and now. */
  ghost predicate InInterval(s: State, t: nat)
    requires t < |s.threads|
  {
    exists a :: s.threads[t].start <= a < |s.hist| && s.threads[t].result == Values(s.hist[a])
  }

  ghost predicate Linearizable(capacity: nat, variant: Variant) {
    forall run: seq<State>, n: nat, t: nat :: Run(run, capacity, variant) && n < |run| && t < |run[n].threads|
      && run[n].threads[t].phase.Scanned?
      ==> InInterval(run[n], t)
  }

  lemma RepairedAt(run: seq<State>, capacity: nat, n: nat, t: nat)
    requires Run(run, capacity, BorrowNew) && n < |run| && t < |run[n].threads| && run[n].threads[t].phase.Scanned?
    ensures InInterval(run[n], t)
  {
    RunKeepsInv(run, capacity, BorrowNew, n);
    assert ThreadOk(run[n], t, BorrowNew);
  }

  /** Borrowing from the newer copy makes scans linearizable for every number of registers. */
  lemma RepairedIsLinearizable(capacity: nat)
    ensures Linearizable(capacity, BorrowNew)
  {
    forall run: seq<State>, n: nat, t: nat | Run(run, capacity, BorrowNew) && n < |run| && t < |run[n].threads|
      && run[n].threads[t].phase.Scanned?
      ensures InInterval(run[n], t)
    {
      RepairedAt(run, capacity, n, t);
    }
  }

  /** The instant at which the cell that register `i` holds at instant `a` was written. */
  lemma {:induction false} FirstInstant(hist: seq<seq<Cell>>, a: nat, i: nat) returns (w: nat)
    requires Ordered(hist) && a < |hist| && i < |hist[a]|
    ensures w <= a && i < |hist[w]| == |hist[a]| && hist[w][i] == hist[a][i]
    ensures w > 0 ==> i < |hist[w-1]| == |hist[a]| && hist[w-1][i].stamp < hist[w][i].stamp
  {
    w := a;
    if a > 0 {
      assert LaterAll(hist[a-1], hist[a]);
      if hist[a-1][i].stamp == hist[a][i].stamp {
        assert Later(hist[a-1][i], hist[a][i]);
        w := FirstInstant(hist, a - 1, i);
      }
    }
  }

  /** The snapshot stored in a register shows an instant before the write, which made instant `w`. */
  lemma StoredSnapsShowOneInstant(run: seq<State>, capacity: nat, variant: Variant, n: nat, i: nat) returns (w: nat)
    requires Run(run, capacity, variant) && n < |run| && i < |run[n].registers| && run[n].registers[i].stamp > 0
    ensures var s := run[n]; var c := s.registers[i];
      && 0 < w < |s.hist| && i < |s.hist[w-1]| && i < |s.hist[w]|
      && s.hist[w][i] == c && s.hist[w-1][i].stamp < c.stamp
      && c.at < w && |c.snap| == capacity && c.snap == Values(s.hist[c.at])
  {
    RunKeepsInv(run, capacity, variant, n);
    var s := run[n];
    w := FirstInstant(s.hist, |s.hist| - 1, i);
    assert SnapOk(s.hist, w, i, variant);
    assert LaterAll(s.hist[w], s.hist[|s.hist|-1]);
  }

  /** A snapshot borrowed from the only register shows what the register held right before the write of the borrowed
      cell. */
  lemma SingleLent(hist: seq<seq<Cell>>, start: nat, at: nat, a: nat) returns (w: nat)
    requires Ordered(hist) && LentAt(hist, start, 0, at, BorrowOld, a) && |hist[start]| == 1
    requires forall b, i :: 0 <= b < |hist| && 0 <= i < |hist[b]| ==> SnapOk(hist, b, i, BorrowOld)
    ensures start < w < |hist| && at < |hist| && hist[at] == hist[w-1]
  {
    w := FirstInstant(hist, a, 0);
    var c := hist[a][0];
    assert SnapOk(hist, w, 0, BorrowOld);
    forall b: nat | b <= start ensures |hist[b]| == 1 && hist[b][0].stamp <= hist[start][0].stamp {
      assert LaterAll(hist[b], hist[start]);
    }
    OrderedAt(hist, c.began, c.at, 0);
    OrderedAt(hist, c.at, w - 1, 0);
    assert hist[at][0] == hist[w-1][0];
  }

  lemma SingleAt(run: seq<State>, capacity: nat, n: nat, t: nat)
    requires capacity <= 1
    requires Run(run, capacity, BorrowOld) && n < |run| && t < |run[n].threads| && run[n].threads[t].phase.Scanned?
    ensures InInterval(run[n], t)
  {
    RunKeepsInv(run, capacity, BorrowOld, n);
    var s := run[n];
    var th := s.threads[t];
    assert ThreadOk(s, t, BorrowOld);
    if th.lender.Some? {
      var a: nat :| LentAt(s.hist, th.start, th.lender.value, th.at, BorrowOld, a);
      assert SnapOk(s.hist, a, 0, BorrowOld);
      var w := SingleLent(s.hist, th.start, th.at, a);
      assert th.result == Values(s.hist[w-1]);
    }
  }

  /** As written, scans are linearizable exactly when there is at most one register. */
  lemma AsWrittenIsLinearizable(capacity: nat)
    ensures Linearizable(capacity, BorrowOld) <==> capacity <= 1
  {
    if capacity <= 1 {
      forall run: seq<State>, n: nat, t: nat | Run(run, capacity, BorrowOld) && n < |run| && t < |run[n].threads|
        && run[n].threads[t].phase.Scanned?
        ensures InInterval(run[n], t)
      {
        SingleAt(run, capacity, n, t);
      }
    } else {
      var run := StaleRun(capacity);
      assert !InInterval(run[|run|-1], 0);
    }
  }

  // ---------- the run that shows a stale result ----------

  function Last(run: seq<State>): State
    requires |run| > 0
  {
    run[|run|-1]
  }

  lemma Extend(run: seq<State>, capacity: nat, s: State, t: nat)
    requires Run(run, capacity, BorrowOld) && Step(Last(run), s, t, BorrowOld)
    ensures Run(run + [s], capacity, BorrowOld) && Last(run + [s]) == s
  {
    var run' := run + [s];
    forall n | 0 <= n < |run'| - 1 ensures Steps(run', n, BorrowOld) {
      if n < |run| - 1 { assert Steps(run, n, BorrowOld); } else { assert Next(run'[n], run'[n+1], BorrowOld); }
    }
  }

  lemma ShapeOf(run: seq<State>, capacity: nat)
    requires Run(run, capacity, BorrowOld)
    ensures Shape(Last(run)) && |Last(run).registers| == capacity <= |Last(run).threads|
  {
    RunKeepsInv(run, capacity, BorrowOld, |run| - 1);
    var s := Last(run);
    forall t | 0 <= t < |s.threads| ensures ThreadShape(s.threads[t], t, |s.registers|) {
      assert ThreadOk(s, t, BorrowOld);
    }
  }

  ghost predicate Running(run: seq<State>, capacity: nat, t: nat) {
    Run(run, capacity, BorrowOld) && t < |Last(run).threads|
  }

  /** The first collect, without interference, up to the label. */
  lemma {:induction false} SoloFirst(run: seq<State>, capacity: nat, t: nat) returns (run': seq<State>)
    requires Running(run, capacity, t)
    requires var s := Last(run); var th := s.threads[t];
      th.phase.First? && |th.oldCopy| <= |s.registers| && th.oldCopy == s.registers[..|th.oldCopy|]
    ensures Running(run', capacity, t) && |Last(run).hist| > 0
    ensures var s := Last(run);
      Last(run') == Put(s, t, s.threads[t].(phase := Second, oldCopy := s.registers, newCopy := [], mid := |s.hist| - 1,
                                            passes := 1))
    decreases |Last(run).registers| - |Last(run).threads[t].oldCopy|
  {
    ShapeOf(run, capacity);
    var s := Last(run);
    var s' := FirstStep(s, t);
    Extend(run, capacity, s', t);
    run' := run + [s'];
    if |s.threads[t].oldCopy| < |s.registers| {
      var k := |s.threads[t].oldCopy|;
      assert s.registers[..k+1] == s.registers[..k] + [s.registers[k]];
      run' := SoloFirst(run', capacity, t);
      assert Put(s', t, Last(run').threads[t]) == Put(s, t, Last(run').threads[t]);
    } else {
      assert s.registers[..|s.registers|] == s.registers;
    }
  }

  /** The second collect, without interference. */
  lemma {:induction false} SoloSecond(run: seq<State>, capacity: nat, t: nat) returns (run': seq<State>)
    requires Running(run, capacity, t)
    requires var s := Last(run); var th := s.threads[t];
      th.phase.Second? && |th.newCopy| <= |s.registers| && th.newCopy == s.registers[..|th.newCopy|]
    ensures Running(run', capacity, t)
    ensures var s := Last(run); Last(run') == Put(s, t, s.threads[t].(newCopy := s.registers))
    decreases |Last(run).registers| - |Last(run).threads[t].newCopy|
  {
    ShapeOf(run, capacity);
    var s := Last(run);
    var k := |s.threads[t].newCopy|;
    if k < |s.registers| {
      var s' := SecondStep(s, t);
      Extend(run, capacity, s', t);
      assert s.registers[..k+1] == s.registers[..k] + [s.registers[k]];
      run' := SoloSecond(run + [s'], capacity, t);
      assert Put(s', t, Last(run').threads[t]) == Put(s, t, Last(run').threads[t]);
    } else {
      assert s.registers[..k] == s.registers;
      run' := run;
      assert s.threads[t := s.threads[t].(newCopy := s.registers)] == s.threads;
    }
  }

  /** A whole scan without interference is clean. */
  lemma SoloScan(run: seq<State>, capacity: nat, t: nat, op: Op) returns (run': seq<State>)
    requires Running(run, capacity, t) && Last(run).threads[t].phase.Idle? && (op.Update? ==> t < capacity)
    ensures Running(run', capacity, t)
    ensures var s := Last(run); var now := |s.hist| - 1;
      && now >= 0
      && Last(run') == Put(s, t, Thread(Scanned, op, NoMoves(|s.registers|), s.registers, s.registers,
                                        Values(s.registers), 1, now, now, now, None))
  {
    ShapeOf(run, capacity);
    var s := Last(run);
    Extend(run, capacity, BeginStep(s, t, op), t);
    run' := SoloFirst(run + [BeginStep(s, t, op)], capacity, t);
    run' := SoloSecond(run', capacity, t);
    var s2 := Last(run');
    ShapeOf(run', capacity);
    Extend(run', capacity, CompareStep(s2, t, BorrowOld), t);
    run' := run' + [CompareStep(s2, t, BorrowOld)];
    assert Put(s2, t, Last(run').threads[t]) == Put(s, t, Last(run').threads[t]);
  }

  /** The state after thread `t` has stored `value` with a snapshot of instant `at`. */
  ghost predicate Stored(s: State, s': State, t: nat, c: Cell) {
    && |s'.threads| == |s.threads| && t < |s.threads| && t < |s.registers|
    && s'.registers == s.registers[t := c]
    && s'.hist == s.hist + [s'.registers]
    && s'.threads[t].phase.Idle?
    && forall u :: 0 <= u < |s.threads| && u != t ==> s'.threads[u] == s.threads[u]
  }

  /** An update that has scanned loads and stores. */
  lemma SoloStore(run: seq<State>, capacity: nat, t: nat) returns (run': seq<State>)
    requires Running(run, capacity, t) && Last(run).threads[t].phase.Scanned? && Last(run).threads[t].op.Update?
    ensures Running(run', capacity, t) && t < |Last(run).registers|
    ensures var s := Last(run); var th := s.threads[t];
      Stored(s, Last(run'), t, Cell(s.registers[t].stamp + 1, th.op.value, th.result, th.at, th.start))
  {
    ShapeOf(run, capacity);
    var s := Last(run);
    var s1 := FinishStep(s, t);
    Extend(run, capacity, s1, t);
    run' := run + [s1];
    ShapeOf(run', capacity);
    var s2 := StoreStep(s1, t);
    Extend(run', capacity, s2, t);
    run' := run' + [s2];
  }

  lemma SoloUpdate(run: seq<State>, capacity: nat, t: nat, value: int) returns (run': seq<State>)
    requires Running(run, capacity, t) && Last(run).threads[t].phase.Idle? && t < capacity
    ensures Running(run', capacity, t) && t < |Last(run).registers| && |Last(run).hist| > 0
    ensures var s := Last(run); var now := |s.hist| - 1;
      Stored(s, Last(run'), t, Cell(s.registers[t].stamp + 1, value, Values(s.registers), now, now))
  {
    ShapeOf(run, capacity);
    var mid := SoloScan(run, capacity, t, Update(value));
    run' := SoloStore(mid, capacity, t);
  }

  /** One pass of the double collect, after the registers have changed at `i` only. */
  lemma SoloPass(run: seq<State>, capacity: nat, t: nat, i: nat) returns (run': seq<State>)
    requires Running(run, capacity, t)
    requires var s := Last(run); var th := s.threads[t];
      && th.phase.Second? && th.newCopy == [] && |th.oldCopy| == |s.registers| == |th.moved|
      && i < |s.registers| && s.registers[i].stamp != th.oldCopy[i].stamp
      && (forall j :: 0 <= j < i ==> s.registers[j] == th.oldCopy[j])
    ensures Running(run', capacity, t) && |Last(run).hist| > 0
    ensures var s := Last(run); var th := s.threads[t];
      Last(run') == Put(s, t,
        if th.moved[i] then th.(phase := Scanned, newCopy := s.registers, result := th.oldCopy[i].snap,
                                at := th.oldCopy[i].at, lender := Some(i))
        else th.(moved := th.moved[i := true], oldCopy := s.registers, newCopy := [], mid := |s.hist| - 1,
                 passes := th.passes + 1))
  {
    ShapeOf(run, capacity);
    var s := Last(run);
    assert s.registers[..0] == [];
    run' := SoloSecond(run, capacity, t);
    var s2 := Last(run');
    ShapeOf(run', capacity);
    var s3 := CompareStep(s2, t, BorrowOld);
    Extend(run', capacity, s3, t);
    run' := run' + [s3];
    assert Put(s2, t, s3.threads[t]) == Put(s, t, s3.threads[t]);
  }

  /** Thread 1 scans for an update; thread 0 then completes an update of its own and starts to scan; thread 1
      stores twice while it does. Thread 0 borrows the first stored snapshot, which does not contain its own
      finished update. */
  lemma StaleRun(capacity: nat) returns (run: seq<State>)
    requires capacity >= 2
    ensures Running(run, capacity, 0) && Last(run).threads[0].phase.Scanned? && !InInterval(Last(run), 0)
  {
    var idle := Thread(Idle, Scan, [], [], [], [], 0, 0, 0, 0, None);
    var row0 := seq(capacity, i => Cell(0, 0, [], 0, 0));
    var s0 := State(row0, seq(capacity, i => idle), [row0]);
    run := [s0];
    assert Init(s0, capacity);
    run := SoloScan(run, capacity, 1, Update(7));
    var s1 := Last(run);
    run := SoloUpdate(run, capacity, 0, 5);
    var s2 := Last(run);
    var row1 := s2.registers;
    assert s2.threads[1] == s1.threads[1];
    ShapeOf(run, capacity);
    Extend(run, capacity, BeginStep(s2, 0, Scan), 0);
    run := SoloFirst(run + [BeginStep(s2, 0, Scan)], capacity, 0);
    var s3 := Last(run);
    run := SoloStore(run, capacity, 1);
    var s4 := Last(run);
    run := StaleEnd(run, capacity, s3, s4, row0, row1);
  }

  lemma StaleEnd(run0: seq<State>, capacity: nat, s3: State, s4: State, row0: seq<Cell>, row1: seq<Cell>)
    returns (run: seq<State>)
    requires capacity >= 2 && Running(run0, capacity, 0) && Last(run0) == s4
    requires |row0| == |row1| == capacity && row0[0].value == 0 && row1[0].value == 5 && row1[1].stamp == 0
    requires s3.registers == row1 && s3.hist == [row0, row1] && |s3.threads| == capacity && s3.threads[1].phase.Scanned?
    requires var th := s3.threads[0];
      th.phase.Second? && th.oldCopy == row1 && th.newCopy == [] && th.start == 1 && th.moved == NoMoves(capacity)
    requires exists v :: Stored(s3, s4, 1, Cell(1, v, Values(row0), 0, 0))
    ensures Running(run, capacity, 0) && Last(run).threads[0].phase.Scanned? && !InInterval(Last(run), 0)
  {
    var row2 := s4.registers;
    assert s4.threads[0] == s3.threads[0];
    run := SoloPass(run0, capacity, 0, 1);
    var s5 := Last(run);
    run := SoloUpdate(run, capacity, 1, 8);
    var s6 := Last(run);
    assert s6.threads[0] == s5.threads[0];
    var row3 := s6.registers;
    run := SoloPass(run, capacity, 0, 1);
    var s7 := Last(run);
    assert s7.hist == [row0, row1, row2, row3];
    assert s7.threads[0].result == Values(row0) && s7.threads[0].result[0] == 0;
    forall a | 1 <= a < |s7.hist| ensures Values(s7.hist[a])[0] == 5 {
      assert a == 1 || a == 2 || a == 3;
    }
  }
}
