/**
 The wait-free snapshot: one stamped register for each thread that updates, a double collect, and the borrowing of a
 snapshot from a register that has been seen to move twice. Threads beyond the registers only scan.

 One step is one atomic load or store of a register. The instants of a run are the positions in `hist`, the list of
 all contents the registers have had. The fields `at` and `began` of a cell and `start`, `mid`, `at`, `lender` of a
 thread are auxiliary: they name instants and change no step.
 */
module Snapshot {
  import opened Options

  /** Which copy line 50 of the source borrows from: the older one as written, or the newer one. */
  datatype Variant = BorrowOld | BorrowNew

  /** A register value. `snap` is the embedded snapshot ([] for NULL), `at` an instant it shows, `began` the instant at
      which the scan behind it began. */
  datatype Cell = Cell(stamp: nat, value: int, snap: seq<int>, at: nat, began: nat)

  datatype Op = Scan | Update(value: int)

  datatype Phase = Idle | First | Second | Scanned | Loaded(stamp: nat)

  datatype Thread = Thread(phase: Phase, op: Op, moved: seq<bool>, oldCopy: seq<Cell>, newCopy: seq<Cell>,
                           result: seq<int>, passes: nat, start: nat, mid: nat, at: nat, lender: Option<nat>)

  datatype State = State(registers: seq<Cell>, threads: seq<Thread>, hist: seq<seq<Cell>>)

  function Values(cells: seq<Cell>): (values: seq<int>)
    ensures |values| == |cells|
  {
    seq(|cells|, i requires 0 <= i < |cells| => cells[i].value)
  }

  /** The first register whose stamp differs between the two copies, or the capacity. */
  function FirstMoved(oldCopy: seq<Cell>, newCopy: seq<Cell>, i: nat): (r: nat)
    requires i <= |oldCopy| == |newCopy|
    ensures i <= r <= |oldCopy|
    ensures r < |oldCopy| ==> oldCopy[r].stamp != newCopy[r].stamp
    ensures forall j :: i <= j < r ==> oldCopy[j].stamp == newCopy[j].stamp
    decreases |oldCopy| - i
  {
    if i == |oldCopy| then i
    else if oldCopy[i].stamp != newCopy[i].stamp then i
    else FirstMoved(oldCopy, newCopy, i + 1)
  }

  function Now(s: State): int {
    |s.hist| - 1
  }

  function Put(s: State, t: nat, th: Thread): State
    requires t < |s.threads|
  {
    s.(threads := s.threads[t := th])
  }

  function NoMoves(n: nat): seq<bool> {
    seq(n, i => false)
  }

  ghost predicate Init(s: State, capacity: nat) {
    && s.registers == seq(capacity, i => Cell(0, 0, [], 0, 0))
    && |s.threads| >= capacity
    && (forall t :: 0 <= t < |s.threads| ==> s.threads[t].phase == Idle)
    && s.hist == [s.registers]
  }

  // ---------- the steps ----------

  function BeginStep(s: State, t: nat, op: Op): State
    requires t < |s.threads| && |s.hist| > 0
  {
    Put(s, t, Thread(First, op, NoMoves(|s.registers|), [], [], [], 0, Now(s), Now(s), Now(s), None))
  }

  /** The first `collect`; after its last load the label COLLECT is passed for the first time. */
  function FirstStep(s: State, t: nat): State
    requires t < |s.threads| && |s.hist| > 0
  {
    var th := s.threads[t];
    if |th.oldCopy| < |s.registers|
    then Put(s, t, th.(oldCopy := th.oldCopy + [s.registers[|th.oldCopy|]]))
    else Put(s, t, th.(phase := Second, newCopy := [], mid := Now(s), passes := 1))
  }

  /** The second `collect`, one load a step. */
  function SecondStep(s: State, t: nat): State
    requires t < |s.threads| && |s.threads[t].newCopy| < |s.registers|
  {
    var th := s.threads[t];
    Put(s, t, th.(newCopy := th.newCopy + [s.registers[|th.newCopy|]]))
  }

  predicate Collected(s: State, t: nat)
    requires t < |s.threads|
  {
    |s.threads[t].oldCopy| == |s.threads[t].newCopy| == |s.threads[t].moved| == |s.registers|
  }

  /** The comparison of the two copies: a clean double collect, a borrowed result, or another pass. */
  function CompareStep(s: State, t: nat, variant: Variant): State
    requires t < |s.threads| && |s.hist| > 0 && Collected(s, t)
  {
    var th := s.threads[t];
    var i := FirstMoved(th.oldCopy, th.newCopy, 0);
    Put(s, t,
        if i == |th.oldCopy| then
          th.(phase := Scanned, result := Values(th.newCopy), at := th.mid, lender := None)
        else if th.moved[i] then
          var lent := if variant.BorrowOld? then th.oldCopy[i] else th.newCopy[i];
          th.(phase := Scanned, result := lent.snap, at := lent.at, lender := Some(i))
        else
          th.(moved := th.moved[i := true], oldCopy := th.newCopy, newCopy := [], mid := Now(s),
              passes := th.passes + 1))
  }

  /** `scan` returns; or `update` loads its own register. */
  function FinishStep(s: State, t: nat): State
    requires t < |s.threads| && (s.threads[t].op.Update? ==> t < |s.registers|)
  {
    var th := s.threads[t];
    Put(s, t, th.(phase := if th.op.Scan? then Idle else Loaded(s.registers[t].stamp)))
  }

  /** `update` stores the new value with the next stamp and the snapshot it scanned. */
  function StoreStep(s: State, t: nat): State
    requires t < |s.threads| && t < |s.registers| && s.threads[t].phase.Loaded? && s.threads[t].op.Update?
  {
    var th := s.threads[t];
    var registers := s.registers[t := Cell(th.phase.stamp + 1, th.op.value, th.result, th.at, th.start)];
    Put(s, t, th.(phase := Idle)).(registers := registers, hist := s.hist + [registers])
  }

  /** The sizes that the steps rely on; they hold in every reachable state (lemma `RunKeepsInv`). */
  ghost predicate Shape(s: State) {
    && |s.hist| > 0
    && |s.threads| >= |s.registers|
    && forall t :: 0 <= t < |s.threads| ==> ThreadShape(s.threads[t], t, |s.registers|)
  }

  ghost predicate ThreadShape(th: Thread, t: nat, n: nat) {
    && (!th.phase.Idle? ==> |th.moved| == n && (th.op.Update? ==> t < n))
    && (th.phase.First? ==> |th.oldCopy| <= n)
    && (th.phase.Second? ==> |th.oldCopy| == n && |th.newCopy| <= n)
    && (th.phase.Loaded? ==> th.op.Update?)
  }

  ghost predicate Step(s: State, s': State, t: nat, variant: Variant) {
    && Shape(s)
    && t < |s.threads|
    && match s.threads[t].phase
       case Idle => exists op: Op :: (op.Update? ==> t < |s.registers|) && s' == BeginStep(s, t, op)
       case First => s' == FirstStep(s, t)
       case Second =>
         s' == if |s.threads[t].newCopy| < |s.registers| then SecondStep(s, t) else CompareStep(s, t, variant)
       case Scanned => s' == FinishStep(s, t)
       case Loaded(_) => s' == StoreStep(s, t)
  }

  ghost predicate Next(s: State, s': State, variant: Variant) {
    exists t: nat :: Step(s, s', t, variant)
  }

  ghost predicate Run(run: seq<State>, capacity: nat, variant: Variant) {
    && |run| > 0
    && Init(run[0], capacity)
    && forall n :: 0 <= n < |run| - 1 ==> Steps(run, n, variant)
  }

  ghost predicate Steps(run: seq<State>, n: nat, variant: Variant)
    requires n + 1 < |run|
  {
    Next(run[n], run[n+1], variant)
  }

  // ---------- the history ----------

  /** Between two instants a register's stamp does not fall, and equal stamps mean the same cell. */
  ghost predicate Later(earlier: Cell, later: Cell) {
    earlier.stamp <= later.stamp && (earlier.stamp == later.stamp ==> earlier == later)
  }

  ghost predicate LaterAll(a: seq<Cell>, b: seq<Cell>) {
    |a| == |b| && forall i :: 0 <= i < |a| ==> Later(a[i], b[i])
  }

  ghost predicate Ordered(hist: seq<seq<Cell>>) {
    forall a, b :: 0 <= a <= b < |hist| ==> LaterAll(hist[a], hist[b])
  }

  /** The snapshot embedded in a cell written by thread `i` shows the registers at instant `at`, before the write; its
      scan began after the thread's previous write; and, if the newer copy is borrowed or there is nobody to borrow
      from, not after the instant shown. */
  ghost predicate SnapOk(hist: seq<seq<Cell>>, a: nat, i: nat, variant: Variant)
    requires a < |hist| && i < |hist[a]|
  {
    var c := hist[a][i];
    c.stamp > 0 ==>
      && c.at < a && c.began < a
      && |hist[c.at]| == |hist[a]| && |hist[c.began]| == |hist[a]|
      && c.snap == Values(hist[c.at])
      && hist[c.began][i].stamp + 1 == c.stamp
      && (variant.BorrowNew? || |hist[a]| == 1 ==> c.began <= c.at)
  }

  ghost predicate HistOk(s: State, variant: Variant) {
    && |s.hist| > 0 && s.hist[|s.hist|-1] == s.registers
    && Ordered(s.hist)
    && forall a, i :: 0 <= a < |s.hist| && 0 <= i < |s.hist[a]| ==> SnapOk(s.hist, a, i, variant)
  }

  /** Cell `c` was the content of register `i` at some instant from `lo` through `hi`. */
  ghost predicate Seen(hist: seq<seq<Cell>>, lo: int, hi: int, i: int, c: Cell) {
    exists a :: 0 <= lo <= a <= hi < |hist| && 0 <= i < |hist[a]| && hist[a][i] == c
  }

  // ---------- the threads ----------

  function Count(moved: seq<bool>): (k: nat)
    ensures k <= |moved|
  {
    if moved == [] then 0 else Count(moved[..|moved|-1]) + (if moved[|moved|-1] then 1 else 0)
  }

  lemma {:induction false} CountSet(moved: seq<bool>, i: nat)
    requires i < |moved| && !moved[i]
    ensures Count(moved[i := true]) == Count(moved) + 1
  {
    var n := |moved| - 1;
    if i < n {
      assert moved[i := true][..n] == moved[..n][i := true];
      CountSet(moved[..n], i);
    } else {
      assert moved[i := true][..n] == moved[..n];
    }
  }

  lemma {:induction false} CountNone(n: nat)
    ensures Count(NoMoves(n)) == 0
  {
    if n > 0 {
      assert NoMoves(n)[..n-1] == NoMoves(n - 1);
      CountNone(n - 1);
    }
  }

  ghost predicate CopySeen(hist: seq<seq<Cell>>, lo: int, hi: int, copy: seq<Cell>) {
    forall i :: 0 <= i < |copy| ==> Seen(hist, lo, hi, i, copy[i])
  }

  /** A register marked as moved has been written since the scan began, and the older copy shows such a write. */
  ghost predicate MovedOk(hist: seq<seq<Cell>>, th: Thread) {
    && th.start < |hist| && |th.moved| == |hist[th.start]|
    && forall i :: 0 <= i < |th.moved| && th.moved[i]
         ==> i < |th.oldCopy| && hist[th.start][i].stamp < th.oldCopy[i].stamp
  }

  /** What a finished scan has found. `lender` says from which register the result was borrowed. */
  ghost predicate ResultOk(hist: seq<seq<Cell>>, th: Thread, variant: Variant) {
    && th.at < |hist|
    && th.result == Values(hist[th.at])
    && (th.lender.None? || variant.BorrowNew? ==> th.start <= th.at)
    && (th.lender.Some? ==> Lent(hist, th, variant))
  }

  /** A borrowed result comes from a cell that was written during the scan. Its own scan began after the lender's
      previous write; when the newer copy is borrowed, also after this scan began. */
  ghost predicate Lent(hist: seq<seq<Cell>>, th: Thread, variant: Variant) {
    && th.lender.Some?
    && th.start < |hist|
    && exists a: nat :: LentAt(hist, th.start, th.lender.value, th.at, variant, a)
  }

  ghost predicate LentAt(hist: seq<seq<Cell>>, start: nat, i: nat, at: nat, variant: Variant, a: nat) {
    && start < a < |hist|
    && i < |hist[a]| == |hist[start]|
    && hist[start][i].stamp < hist[a][i].stamp
    && hist[a][i].at == at
    && hist[a][i].began < |hist| && i < |hist[hist[a][i].began]|
    && hist[hist[a][i].began][i].stamp + 1 == hist[a][i].stamp
    && (variant.BorrowNew? ==> start < hist[a][i].began)
  }

  ghost predicate ThreadOk(s: State, t: nat, variant: Variant)
    requires t < |s.threads|
  {
    var th := s.threads[t];
    var n := |s.registers|;
    !th.phase.Idle? ==>
      && th.start < |s.hist| && |s.hist[th.start]| == n
      && (t < n ==> s.hist[th.start][t] == s.registers[t]) && (th.op.Update? ==> t < n)
      && |th.moved| == n && th.passes <= n + 1
      && MovedOk(s.hist, th)
      && match th.phase
         case First => th.moved == NoMoves(n) && |th.oldCopy| <= n && CopySeen(s.hist, th.start, Now(s), th.oldCopy)
         case Second =>
           && |th.oldCopy| == n && |th.newCopy| <= n
           && th.start <= th.mid < |s.hist|
           && CopySeen(s.hist, th.start, th.mid, th.oldCopy)
           && CopySeen(s.hist, th.mid, Now(s), th.newCopy)
           && th.passes == Count(th.moved) + 1
         case Scanned => ResultOk(s.hist, th, variant)
         case Loaded(stamp) => th.op.Update? && stamp == s.registers[t].stamp && ResultOk(s.hist, th, variant)
         case Idle => true
  }

  ghost predicate Inv(s: State, variant: Variant) {
    && |s.threads| >= |s.registers|
    && HistOk(s, variant)
    && forall t :: 0 <= t < |s.threads| ==> ThreadOk(s, t, variant)
  }

  // ---------- facts about the history ----------

  lemma LaterTrans(a: seq<Cell>, b: seq<Cell>, c: seq<Cell>)
    requires LaterAll(a, b) && LaterAll(b, c)
    ensures LaterAll(a, c)
  {
    forall i | 0 <= i < |a| ensures Later(a[i], c[i]) { assert Later(a[i], b[i]) && Later(b[i], c[i]); }
  }

  lemma OrderedAt(hist: seq<seq<Cell>>, a: nat, b: nat, i: nat)
    requires Ordered(hist) && a <= b < |hist| && i < |hist[a]|
    ensures |hist[a]| == |hist[b]| && Later(hist[a][i], hist[b][i])
  {
    assert LaterAll(hist[a], hist[b]);
  }

  lemma SeenExtends(hist: seq<seq<Cell>>, row: seq<Cell>, lo: int, hi: int, copy: seq<Cell>)
    requires CopySeen(hist, lo, hi, copy)
    ensures CopySeen(hist + [row], lo, hi, copy)
    ensures hi == |hist| - 1 ==> CopySeen(hist + [row], lo, hi + 1, copy)
  {
    forall i | 0 <= i < |copy|
      ensures Seen(hist + [row], lo, hi, i, copy[i])
      ensures hi == |hist| - 1 ==> Seen(hist + [row], lo, hi + 1, i, copy[i])
    {
      assert Seen(hist, lo, hi, i, copy[i]);
      var a :| 0 <= lo <= a <= hi < |hist| && 0 <= i < |hist[a]| && hist[a][i] == copy[i];
      assert (hist + [row])[a] == hist[a];
    }
  }

  /** A register seen with the same stamp before and after an instant has that content at the instant. */
  lemma Sandwich(hist: seq<seq<Cell>>, start: int, mid: nat, now: int, i: nat, c: Cell, c': Cell)
    requires Ordered(hist) && mid < |hist|
    requires Seen(hist, start, mid, i, c) && Seen(hist, mid, now, i, c') && c.stamp == c'.stamp
    ensures i < |hist[mid]| && hist[mid][i] == c'
  {
    var a :| 0 <= start <= a <= mid && 0 <= i < |hist[a]| && hist[a][i] == c;
    var b :| mid <= b <= now < |hist| && 0 <= i < |hist[b]| && hist[b][i] == c';
    OrderedAt(hist, a, mid, i);
    OrderedAt(hist, mid, b, i);
  }

  /** A clean double collect is the content of the registers at the end of the first collect. */
  lemma CleanCollect(hist: seq<seq<Cell>>, start: int, mid: nat, now: int, oldCopy: seq<Cell>, newCopy: seq<Cell>)
    requires Ordered(hist) && mid < |hist| && |oldCopy| == |newCopy| == |hist[mid]|
    requires CopySeen(hist, start, mid, oldCopy) && CopySeen(hist, mid, now, newCopy)
    requires forall i :: 0 <= i < |oldCopy| ==> oldCopy[i].stamp == newCopy[i].stamp
    ensures newCopy == hist[mid]
  {
    forall i | 0 <= i < |newCopy| ensures newCopy[i] == hist[mid][i] {
      Sandwich(hist, start, mid, now, i, oldCopy[i], newCopy[i]);
    }
  }

  lemma SeenOrder(hist: seq<seq<Cell>>, start: int, mid: nat, now: int, i: nat, c: Cell, c': Cell)
    requires Ordered(hist) && Seen(hist, start, mid, i, c) && Seen(hist, mid, now, i, c')
    ensures Later(c, c')
  {
    var a :| 0 <= start <= a <= mid && 0 <= i < |hist[a]| && hist[a][i] == c;
    var b :| mid <= b <= now < |hist| && 0 <= i < |hist[b]| && hist[b][i] == c';
    OrderedAt(hist, a, b, i);
  }

  lemma SeenSinceStart(hist: seq<seq<Cell>>, start: nat, hi: int, i: nat, c: Cell)
    requires Ordered(hist) && Seen(hist, start, hi, i, c)
    ensures start < |hist| && i < |hist[start]| && Later(hist[start][i], c)
  {
    var a :| 0 <= start <= a <= hi < |hist| && 0 <= i < |hist[a]| && hist[a][i] == c;
    assert LaterAll(hist[start], hist[a]);
    OrderedAt(hist, start, a, i);
  }

  // ---------- a store keeps everybody's facts ----------

  lemma StoreHist(s: State, t: nat, variant: Variant)
    requires Inv(s, variant) && t < |s.threads| && t < |s.registers|
    requires s.threads[t].phase.Loaded? && s.threads[t].op.Update?
    ensures HistOk(StoreStep(s, t), variant)
    ensures LaterAll(s.registers, StoreStep(s, t).registers)
  {
    assert ThreadOk(s, t, variant);
    var s' := StoreStep(s, t);
    var n := |s.hist|;
    assert LaterAll(s.registers, s'.registers);
    forall a, b | 0 <= a <= b < |s'.hist| ensures LaterAll(s'.hist[a], s'.hist[b]) {
      if b < n {
        assert LaterAll(s.hist[a], s.hist[b]);
      } else if a < n {
        assert LaterAll(s.hist[a], s.hist[n-1]);
        LaterTrans(s.hist[a], s.registers, s'.registers);
      }
    }
    forall a, i | 0 <= a < |s'.hist| && 0 <= i < |s'.hist[a]| ensures SnapOk(s'.hist, a, i, variant) {
      StoreSnap(s, s', t, variant, a, i);
    }
  }

  lemma StoreSnap(s: State, s': State, t: nat, variant: Variant, a: nat, i: nat)
    requires HistOk(s, variant) && t < |s.threads| && t < |s.registers| && ThreadOk(s, t, variant)
    requires s.threads[t].phase.Loaded?
    requires s' == StoreStep(s, t)
    requires a < |s'.hist| && i < |s'.hist[a]|
    ensures SnapOk(s'.hist, a, i, variant)
  {
    var n := |s.hist|;
    var last := n - 1;
    assert LaterAll(s.hist[s.threads[t].at], s.hist[last]) && LaterAll(s.hist[s.threads[t].start], s.hist[last]);
    if a < n {
      assert SnapOk(s.hist, a, i, variant);
    } else if i != t {
      assert SnapOk(s.hist, last, i, variant);
      assert s'.hist[a][i] == s.hist[last][i];
    } else if |s.registers| == 1 {
      NothingLent(s.hist, s.threads[t], variant);
    }
  }

  /** With one register its owner never borrows: nobody else writes. */
  lemma NothingLent(hist: seq<seq<Cell>>, th: Thread, variant: Variant)
    requires Ordered(hist) && th.start < |hist| && |hist[th.start]| == |hist[|hist|-1]| == 1
    requires hist[th.start][0] == hist[|hist|-1][0]
    ensures !Lent(hist, th, variant)
  {
    forall a: nat, i: nat ensures !LentAt(hist, th.start, i, th.at, variant, a) {
      if a < |hist| { assert LaterAll(hist[a], hist[|hist|-1]); }
    }
  }

  lemma StoreOther(s: State, t: nat, u: nat, variant: Variant)
    requires HistOk(s, variant) && t < |s.threads| && t < |s.registers| && s.threads[t].phase.Loaded?
    requires s.threads[t].op.Update?
    requires u < |s.threads| && u != t && ThreadOk(s, u, variant)
    ensures ThreadOk(StoreStep(s, t), u, variant)
  {
    var s' := StoreStep(s, t);
    var th := s.threads[u];
    var row := s'.registers;
    match th.phase
    case First => SeenExtends(s.hist, row, th.start, Now(s), th.oldCopy);
    case Second =>
      SeenExtends(s.hist, row, th.start, th.mid, th.oldCopy);
      SeenExtends(s.hist, row, th.mid, Now(s), th.newCopy);
    case Scanned => ResultExtends(s.hist, row, th, variant);
    case Loaded(_) => ResultExtends(s.hist, row, th, variant);
    case Idle =>
  }

  lemma ResultExtends(hist: seq<seq<Cell>>, row: seq<Cell>, th: Thread, variant: Variant)
    requires ResultOk(hist, th, variant)
    ensures ResultOk(hist + [row], th, variant)
  {
    if th.lender.Some? {
      var a: nat :| LentAt(hist, th.start, th.lender.value, th.at, variant, a);
      var hist' := hist + [row];
      assert hist'[a] == hist[a] && hist'[th.start] == hist[th.start];
      assert hist'[hist[a][th.lender.value].began] == hist[hist[a][th.lender.value].began];
      assert LentAt(hist', th.start, th.lender.value, th.at, variant, a);
    }
  }

  // ---------- the steps of one thread ----------

  /** A step that changes thread `t` only, and no register. */
  lemma LocalInv(s: State, s': State, t: nat, variant: Variant)
    requires Inv(s, variant) && t < |s.threads| && t < |s'.threads| && s' == Put(s, t, s'.threads[t])
    requires ThreadOk(s', t, variant)
    ensures Inv(s', variant)
  {
    forall u | 0 <= u < |s'.threads| ensures ThreadOk(s', u, variant) {
      assert ThreadOk(s, u, variant);
      if u != t { assert s'.threads[u] == s.threads[u]; }
    }
  }

  lemma BeginInv(s: State, t: nat, op: Op, variant: Variant)
    requires Inv(s, variant) && t < |s.threads| && s.threads[t].phase.Idle? && (op.Update? ==> t < |s.registers|)
    ensures Inv(BeginStep(s, t, op), variant)
  {
    LocalInv(s, BeginStep(s, t, op), t, variant);
  }

  lemma SeenSnoc(hist: seq<seq<Cell>>, lo: int, copy: seq<Cell>)
    requires 0 <= lo < |hist| && |copy| < |hist[|hist|-1]|
    requires CopySeen(hist, lo, |hist| - 1, copy)
    ensures CopySeen(hist, lo, |hist| - 1, copy + [hist[|hist|-1][|copy|]])
  {
    var copy' := copy + [hist[|hist|-1][|copy|]];
    forall i | 0 <= i < |copy'| ensures Seen(hist, lo, |hist| - 1, i, copy'[i]) {
      if i < |copy| {
        assert Seen(hist, lo, |hist| - 1, i, copy[i]);
      } else {
        var a := |hist| - 1;
        assert 0 <= lo <= a <= |hist| - 1 && hist[a][i] == copy'[i];
      }
    }
  }

  lemma FirstInv(s: State, t: nat, variant: Variant)
    requires Inv(s, variant) && t < |s.threads| && s.threads[t].phase.First?
    ensures Inv(FirstStep(s, t), variant)
  {
    assert ThreadOk(s, t, variant);
    var th := s.threads[t];
    if |th.oldCopy| < |s.registers| {
      SeenSnoc(s.hist, th.start, th.oldCopy);
    } else {
      CountNone(|s.registers|);
    }
    LocalInv(s, FirstStep(s, t), t, variant);
  }

  lemma SecondOk(s: State, t: nat, variant: Variant)
    requires |s.hist| > 0 && s.hist[|s.hist|-1] == s.registers
    requires t < |s.threads| && ThreadOk(s, t, variant) && s.threads[t].phase.Second?
    requires |s.threads[t].newCopy| < |s.registers|
    ensures ThreadOk(SecondStep(s, t), t, variant)
  {
    SeenSnoc(s.hist, s.threads[t].mid, s.threads[t].newCopy);
    assert SecondStep(s, t).hist == s.hist;
  }

  lemma SecondInv(s: State, t: nat, variant: Variant)
    requires Inv(s, variant) && t < |s.threads| && s.threads[t].phase.Second? && |s.threads[t].newCopy| < |s.registers|
    ensures Inv(SecondStep(s, t), variant)
  {
    assert ThreadOk(s, t, variant);
    SecondOk(s, t, variant);
    LocalInv(s, SecondStep(s, t), t, variant);
  }

  lemma SeenInstant(hist: seq<seq<Cell>>, start: nat, hi: int, i: nat, c: Cell) returns (a: nat)
    requires Ordered(hist) && Seen(hist, start, hi, i, c)
    ensures start <= a < |hist| && i < |hist[a]| == |hist[start]| && hist[a][i] == c
  {
    a :| start <= a <= hi < |hist| && 0 <= i < |hist[a]| && hist[a][i] == c;
    assert LaterAll(hist[start], hist[a]);
  }

  /** A cell written since `start` and, if the newer copy is borrowed, not as the first one since then. */
  lemma LenderOk(hist: seq<seq<Cell>>, start: nat, a: nat, i: nat, variant: Variant)
    requires start <= a < |hist| && i < |hist[a]| == |hist[start]| && Ordered(hist) && SnapOk(hist, a, i, variant)
    requires hist[start][i].stamp + (if variant.BorrowNew? then 1 else 0) < hist[a][i].stamp
    ensures LentAt(hist, start, i, hist[a][i].at, variant, a)
  {
    var began := hist[a][i].began;
    if began <= start { OrderedAt(hist, began, start, i); }
  }

  /** The instant of the cell borrowed from: it was written since the scan began, the newer copy's as the second one. */
  lemma BorrowedAt(hist: seq<seq<Cell>>, start: nat, mid: nat, i: nat, c: Cell, c': Cell, variant: Variant)
    returns (a: nat)
    requires |hist| > 0 && Ordered(hist) && start <= mid < |hist| && i < |hist[start]|
    requires Seen(hist, start, mid, i, c) && Seen(hist, mid, |hist| - 1, i, c')
    requires c.stamp != c'.stamp && hist[start][i].stamp < c.stamp
    ensures start <= a < |hist| && i < |hist[a]| == |hist[start]|
    ensures hist[a][i] == (if variant.BorrowOld? then c else c')
    ensures hist[start][i].stamp + (if variant.BorrowNew? then 1 else 0) < hist[a][i].stamp
  {
    SeenOrder(hist, start, mid, |hist| - 1, i, c, c');
    SeenEarlier(hist, start, mid, |hist| - 1, i, c');
    if variant.BorrowOld? {
      a := SeenInstant(hist, start, mid, i, c);
    } else {
      a := SeenInstant(hist, start, |hist| - 1, i, c');
    }
  }

  lemma BorrowOk(s: State, t: nat, variant: Variant, i: nat)
    requires Inv(s, variant) && t < |s.threads| && s.threads[t].phase.Second? && Collected(s, t)
    requires i == FirstMoved(s.threads[t].oldCopy, s.threads[t].newCopy, 0) < |s.registers| && s.threads[t].moved[i]
    ensures ResultOk(s.hist, CompareStep(s, t, variant).threads[t], variant)
  {
    assert ThreadOk(s, t, variant);
    var th := s.threads[t];
    var a := BorrowedAt(s.hist, th.start, th.mid, i, th.oldCopy[i], th.newCopy[i], variant);
    assert SnapOk(s.hist, a, i, variant);
    LenderOk(s.hist, th.start, a, i, variant);
  }

  lemma CompareInv(s: State, t: nat, variant: Variant)
    requires Inv(s, variant) && t < |s.threads| && s.threads[t].phase.Second? && Collected(s, t)
    ensures Inv(CompareStep(s, t, variant), variant)
  {
    CompareOk(s, t, variant);
    LocalInv(s, CompareStep(s, t, variant), t, variant);
  }

  lemma CompareOk(s: State, t: nat, variant: Variant)
    requires Inv(s, variant) && t < |s.threads| && s.threads[t].phase.Second? && Collected(s, t)
    ensures ThreadOk(CompareStep(s, t, variant), t, variant)
  {
    assert ThreadOk(s, t, variant);
    var th := s.threads[t];
    var i := FirstMoved(th.oldCopy, th.newCopy, 0);
    if i == |th.oldCopy| {
      CleanOk(s, t, variant);
    } else if th.moved[i] {
      BorrowOk(s, t, variant, i);
    } else {
      AgainOk(s, t, variant, i);
    }
  }

  lemma CleanOk(s: State, t: nat, variant: Variant)
    requires Inv(s, variant) && t < |s.threads| && s.threads[t].phase.Second? && Collected(s, t)
    requires FirstMoved(s.threads[t].oldCopy, s.threads[t].newCopy, 0) == |s.threads[t].oldCopy|
    ensures ThreadOk(CompareStep(s, t, variant), t, variant)
  {
    assert ThreadOk(s, t, variant);
    var th := s.threads[t];
    assert LaterAll(s.hist[th.mid], s.hist[|s.hist|-1]);
    CleanCollect(s.hist, th.start, th.mid, Now(s), th.oldCopy, th.newCopy);
  }

  lemma AgainOk(s: State, t: nat, variant: Variant, i: nat)
    requires Inv(s, variant) && t < |s.threads| && s.threads[t].phase.Second? && Collected(s, t)
    requires i == FirstMoved(s.threads[t].oldCopy, s.threads[t].newCopy, 0) < |s.registers| && !s.threads[t].moved[i]
    ensures ThreadOk(CompareStep(s, t, variant), t, variant)
  {
    assert ThreadOk(s, t, variant);
    CountSet(s.threads[t].moved, i);
    AnotherPass(s.hist, s.threads[t], CompareStep(s, t, variant).threads[t], i);
  }

  /** One more register has moved: the newer copy becomes the older one. */
  lemma AnotherPass(hist: seq<seq<Cell>>, th: Thread, th': Thread, i: nat)
    requires |hist| > 0 && Ordered(hist) && MovedOk(hist, th) && th.start <= th.mid < |hist|
    requires |th.oldCopy| == |th.newCopy| == |th.moved|
    requires CopySeen(hist, th.start, th.mid, th.oldCopy) && CopySeen(hist, th.mid, |hist| - 1, th.newCopy)
    requires i < |th.oldCopy| && th.oldCopy[i].stamp != th.newCopy[i].stamp
    requires th'.start == th.start && th'.moved == th.moved[i := true] && th'.oldCopy == th.newCopy
    ensures MovedOk(hist, th') && CopySeen(hist, th.start, |hist| - 1, th.newCopy)
  {
    forall j: nat | j < |th.newCopy|
      ensures Later(th.oldCopy[j], th.newCopy[j]) && Later(hist[th.start][j], th.oldCopy[j])
      ensures Seen(hist, th.start, |hist| - 1, j, th.newCopy[j])
    {
      assert Seen(hist, th.start, th.mid, j, th.oldCopy[j]) && Seen(hist, th.mid, |hist| - 1, j, th.newCopy[j]);
      SeenOrder(hist, th.start, th.mid, |hist| - 1, j, th.oldCopy[j], th.newCopy[j]);
      SeenSinceStart(hist, th.start, th.mid, j, th.oldCopy[j]);
      SeenEarlier(hist, th.start, th.mid, |hist| - 1, j, th.newCopy[j]);
    }
  }

  lemma SeenEarlier(hist: seq<seq<Cell>>, start: nat, mid: nat, hi: int, i: int, c: Cell)
    requires start <= mid && Seen(hist, mid, hi, i, c)
    ensures Seen(hist, start, hi, i, c)
  {
    var a :| 0 <= mid <= a <= hi < |hist| && 0 <= i < |hist[a]| && hist[a][i] == c;
    assert 0 <= start <= a <= hi < |hist| && hist[a][i] == c;
  }

  lemma StoreInv(s: State, t: nat, variant: Variant)
    requires Inv(s, variant) && t < |s.threads| && t < |s.registers|
    requires s.threads[t].phase.Loaded? && s.threads[t].op.Update?
    ensures Inv(StoreStep(s, t), variant)
  {
    assert ThreadOk(s, t, variant);
    StoreHist(s, t, variant);
    var s' := StoreStep(s, t);
    forall u | 0 <= u < |s'.threads| ensures ThreadOk(s', u, variant) {
      if u != t {
        assert ThreadOk(s, u, variant);
        StoreOther(s, t, u, variant);
      }
    }
  }

  lemma InitInv(s: State, capacity: nat, variant: Variant)
    requires Init(s, capacity)
    ensures Inv(s, variant)
  {
    forall a, i | 0 <= a < |s.hist| && 0 <= i < |s.hist[a]| ensures SnapOk(s.hist, a, i, variant) {}
  }

  lemma FinishInv(s: State, t: nat, variant: Variant)
    requires Inv(s, variant) && t < |s.threads| && s.threads[t].phase.Scanned?
    requires s.threads[t].op.Update? ==> t < |s.registers|
    ensures Inv(FinishStep(s, t), variant)
  {
    assert ThreadOk(s, t, variant);
    LocalInv(s, FinishStep(s, t), t, variant);
  }

  lemma NextInv(s: State, s': State, variant: Variant)
    requires Inv(s, variant) && Next(s, s', variant)
    ensures Inv(s', variant) && |s'.registers| == |s.registers|
  {
    var t: nat :| Step(s, s', t, variant);
    assert ThreadOk(s, t, variant);
    match s.threads[t].phase
    case Idle =>
      var op: Op :| (op.Update? ==> t < |s.registers|) && s' == BeginStep(s, t, op);
      BeginInv(s, t, op, variant);
    case First => FirstInv(s, t, variant);
    case Second =>
      if |s.threads[t].newCopy| < |s.registers| { SecondInv(s, t, variant); } else { CompareInv(s, t, variant); }
    case Scanned => FinishInv(s, t, variant);
    case Loaded(_) => StoreInv(s, t, variant);
  }

  lemma StepOfRun(run: seq<State>, capacity: nat, variant: Variant, n: nat)
    requires Run(run, capacity, variant) && 0 < n < |run| && Inv(run[n-1], variant)
    ensures Inv(run[n], variant) && |run[n].registers| == |run[n-1].registers|
  {
    assert Steps(run, n - 1, variant);
    NextInv(run[n-1], run[n], variant);
  }

  lemma {:induction false} RunKeepsInv(run: seq<State>, capacity: nat, variant: Variant, n: nat)
    requires Run(run, capacity, variant) && n < |run|
    ensures Inv(run[n], variant) && |run[n].registers| == capacity && |run[n].threads| >= capacity
  {
    if n == 0 {
      InitInv(run[0], capacity, variant);
    } else {
      RunKeepsInv(run, capacity, variant, n - 1);
      StepOfRun(run, capacity, variant, n);
    }
  }
}
