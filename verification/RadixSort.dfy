/**
 The in-place most-significant-byte radix sort. `last[v + 1]` is the moving pointer of bucket `v`, and `last[0]` is
 where the records start, as in the program, which shifts its pointer array by one.
 */
module RadixSort {
  import opened RadixSpec

  const THRESHOLD_SORT: nat := 500

  /** The ghost list `rel` holds the bucket pointers relative to `lo`. */
  ghost predicate Pointers(last: array<int>, lo: int, rel: seq<int>)
    reads last
  {
    last.Length == 257 && |rel| == 256 && last[0] == lo && forall v :: 0 <= v < 256 ==> last[v+1] == lo + rel[v]
  }

  ghost predicate AtStarts(last: array<int>, lo: int, starts: seq<int>)
    reads last
  {
    last.Length == 257 && |starts| == 257 && forall v :: 0 <= v <= 256 ==> last[v] == lo + starts[v]
  }

  method CountBytes(a: array<Record>, lo: nat, hi: nat, b: nat) returns (count: array<int>)
    requires lo <= hi <= a.Length && b < NB_KEY
    ensures fresh(count) && count.Length == 256
    ensures forall v :: 0 <= v < 256 ==> count[v] == Count(a[lo..hi], b, v)
  {
    count := new int[256](i => 0);
    var p := lo;
    while p < hi
      invariant lo <= p <= hi
      invariant forall v :: 0 <= v < 256 ==> count[v] == Count(a[lo..p], b, v)
    {
      assert a[lo..p+1][..p-lo] == a[lo..p];
      count[a[p].key[b]] := count[a[p].key[b]] + 1;
      p := p + 1;
    }
  }

  method BucketStarts(count: array<int>, lo: nat, b: nat, ghost s: seq<Record>)
    returns (last: array<int>, ghost starts: seq<int>)
    requires count.Length == 256 && b < NB_KEY && forall v :: 0 <= v < 256 ==> count[v] == Count(s, b, v)
    ensures fresh(last) && StartsOf(starts, s, b)
    ensures forall v :: 0 <= v < 256 ==> count[v] == starts[v+1] - starts[v]
    ensures Pointers(last, lo, starts[..256])
  {
    last := new int[257];
    last[0] := lo;
    last[1] := lo;
    var i := 1;
    while i < 256
      invariant 1 <= i <= 256 && last[0] == lo
      invariant forall v :: 0 <= v < i ==> last[v+1] == lo + Below(s, b, v)
    {
      last[i+1] := last[i] + count[i-1];
      i := i + 1;
    }
    starts := seq(257, v requires 0 <= v < 257 => Below(s, b, v));
    forall v | 0 <= v < 256 ensures count[v] == starts[v+1] - starts[v] { StartsStep(starts, s, b, v); }
  }

  /** `s` is the slice that starts at `lo`, with the record in hand standing at the hole `c`. */
  ghost predicate InHand(a: array<Record>, lo: nat, s: seq<Record>, c: nat, swapper: Record)
    reads a
  {
    && c < |s| && lo + |s| <= a.Length && s[c] == swapper
    && forall p :: 0 <= p < |s| && p != c ==> s[p] == a[lo + p]
  }

  ghost predicate OutsideIs(a: array<Record>, lo: nat, hi: nat, was: seq<Record>)
    requires |was| == a.Length
    reads a
  {
    forall p :: 0 <= p < a.Length && !(lo <= p < hi) ==> a[p] == was[p]
  }

  /** Exchange the record in hand with the one at the pointer of bucket `tag`, and move that pointer on. */
  method Exchange(a: array<Record>, lo: nat, last: array<int>, tag: nat, swapper: Record, ghost s: seq<Record>,
                  ghost c: nat, ghost rel: seq<int>)
    returns (out: Record)
    requires InHand(a, lo, s, c, swapper) && Pointers(last, lo, rel) && tag < 256 && 0 <= rel[tag] < |s|
    requires rel[tag] != c
    modifies a, last
    ensures InHand(a, lo, Swap(s, c, rel[tag]), c, out) && Pointers(last, lo, rel[tag := rel[tag] + 1])
    ensures OutsideIs(a, lo, lo + |s|, old(a[..]))
  {
    var at := last[tag+1];
    out := a[at];
    a[at] := swapper;
    last[tag+1] := at + 1;
  }

  method PutDown(a: array<Record>, lo: nat, hole: nat, swapper: Record, ghost s: seq<Record>, ghost c: nat)
    requires InHand(a, lo, s, c, swapper) && hole == lo + c
    modifies a
    ensures a[lo..lo + |s|] == s && OutsideIs(a, lo, lo + |s|, old(a[..]))
  {
    a[hole] := swapper;
  }

  /** The cycle that starts at the pointer of bucket `i`: records go to their buckets until one of byte `i` turns up. */
  method Chase(a: array<Record>, lo: nat, hi: nat, b: nat, i: nat, last: array<int>, ghost starts: seq<int>,
               ghost rel0: seq<int>)
    returns (ghost rel: seq<int>)
    requires lo <= hi <= a.Length && Passing(a[lo..hi], starts, rel0, b) && Pointers(last, lo, rel0)
    requires i < 256 && rel0[i] < starts[i+1]
    modifies a, last
    ensures OutsideIs(a, lo, hi, old(a[..]))
    ensures multiset(a[lo..hi]) == multiset(old(a[lo..hi]))
    ensures Pointers(last, lo, rel) && rel0[i] >= 0 && Chasing(a[lo..hi], starts, rel0, rel, b, i, rel0[i])
    ensures a[lo..hi][rel0[i]].key[b] == i
  {
    ghost var s := a[lo..hi];
    ChaseStart(s, starts, rel0, b, i);
    var hole := last[i+1];
    var swapper := a[hole];
    rel := rel0;
    if swapper.key[b] != i {
      swapper, s, rel := ChaseCycle(a, lo, b, i, last, swapper, s, rel0[i], starts, rel0);
      PutDown(a, lo, hole, swapper, s, rel0[i]);
    }
  }

  method ChaseOne(a: array<Record>, lo: nat, b: nat, i: nat, last: array<int>, swapper: Record, ghost s: seq<Record>,
                  ghost c: nat,
                  ghost starts: seq<int>, ghost rel0: seq<int>, ghost rel: seq<int>)
    returns (swapper': Record, ghost s': seq<Record>, ghost rel': seq<int>)
    requires InHand(a, lo, s, c, swapper) && Pointers(last, lo, rel) && Chasing(s, starts, rel0, rel, b, i, c)
    requires swapper.key[b] != i
    modifies a, last
    ensures InHand(a, lo, s', c, swapper') && Pointers(last, lo, rel') && Chasing(s', starts, rel0, rel', b, i, c)
    ensures multiset(s') == multiset(s) && |s'| == |s|
    ensures 0 <= Unplaced(starts, rel', 256) < Unplaced(starts, rel, 256)
    ensures OutsideIs(a, lo, lo + |s|, old(a[..]))
  {
    ChaseStep(s, starts, rel0, rel, b, i, c);
    var tag := swapper.key[b];
    swapper' := Exchange(a, lo, last, tag, swapper, s, c, rel);
    s', rel' := Swap(s, c, rel[tag]), rel[tag := rel[tag] + 1];
  }

  /** The loop of the cycle. */
  method ChaseCycle(a: array<Record>, lo: nat, b: nat, i: nat, last: array<int>, swapper0: Record,
                    ghost s0: seq<Record>, ghost c: nat,
                    ghost starts: seq<int>, ghost rel0: seq<int>)
    returns (swapper: Record, ghost s: seq<Record>, ghost rel: seq<int>)
    requires InHand(a, lo, s0, c, swapper0) && Pointers(last, lo, rel0) && Chasing(s0, starts, rel0, rel0, b, i, c)
    requires swapper0.key[b] != i
    modifies a, last
    ensures InHand(a, lo, s, c, swapper) && Pointers(last, lo, rel) && Chasing(s, starts, rel0, rel, b, i, c)
    ensures swapper.key[b] == i && multiset(s) == multiset(s0) && |s| == |s0|
    ensures OutsideIs(a, lo, lo + |s0|, old(a[..]))
  {
    swapper, s, rel := swapper0, s0, rel0;
    var tag := swapper.key[b];
    while tag != i
      invariant |s| == |s0| && InHand(a, lo, s, c, swapper) && tag == swapper.key[b]
      invariant Pointers(last, lo, rel) && Chasing(s, starts, rel0, rel, b, i, c)
      invariant multiset(s) == multiset(s0)
      invariant OutsideIs(a, lo, lo + |s0|, old(a[..]))
      decreases Unplaced(starts, rel, 256)
    {
      swapper, s, rel := ChaseOne(a, lo, b, i, last, swapper, s, c, starts, rel0, rel);
      tag := swapper.key[b];
    }
  }

  /** Fill bucket `i` up to `end`. */
  method FillBucket(a: array<Record>, lo: nat, hi: nat, b: nat, i: nat, end: int, last: array<int>,
                    ghost starts: seq<int>, ghost rel0: seq<int>)
    returns (ghost rel: seq<int>)
    requires lo <= hi <= a.Length && Passing(a[lo..hi], starts, rel0, b) && Pointers(last, lo, rel0)
    requires i < 256 && end == lo + starts[i+1]
    modifies a, last
    ensures forall p :: 0 <= p < a.Length && !(lo <= p < hi) ==> a[p] == old(a[p])
    ensures multiset(a[lo..hi]) == multiset(old(a[lo..hi]))
    ensures Passing(a[lo..hi], starts, rel, b) && Pointers(last, lo, rel)
    ensures rel[i] == starts[i+1]
    ensures forall v :: 0 <= v < 256 ==> rel0[v] <= rel[v]
  {
    rel := rel0;
    while last[i+1] != end
      invariant Passing(a[lo..hi], starts, rel, b) && Pointers(last, lo, rel)
      invariant forall p :: 0 <= p < a.Length && !(lo <= p < hi) ==> a[p] == old(a[p])
      invariant multiset(a[lo..hi]) == multiset(old(a[lo..hi]))
      invariant forall v :: 0 <= v < 256 ==> rel0[v] <= rel[v]
      decreases Unplaced(starts, rel, 256)
    {
      assert Filled(a[lo..hi], starts, rel, b, i);
      rel := Chase(a, lo, hi, b, i, last, starts, rel);
      assert Filled(a[lo..hi], starts, rel, b, i);
      AdvanceStep(a[lo..hi], starts, rel, b, i);
      UnplacedStep(starts, rel, i, 256);
      UnplacedNonNegative(a[lo..hi], starts, rel, b, 256);
      last[i+1] := last[i+1] + 1;
      rel := rel[i := rel[i] + 1];
    }
  }

  /** The American-flag pass: it ends with every record in the bucket of its byte and every pointer at its bucket's
      end. */
  method FlagPass(a: array<Record>, lo: nat, hi: nat, b: nat, count: array<int>, last: array<int>,
                  ghost starts: seq<int>)
    requires lo <= hi <= a.Length && b < NB_KEY && StartsOf(starts, a[lo..hi], b)
    requires count.Length == 256 && count != last && forall v :: 0 <= v < 256 ==> count[v] == starts[v+1] - starts[v]
    requires Pointers(last, lo, starts[..256])
    modifies a, last
    ensures forall p :: 0 <= p < a.Length && !(lo <= p < hi) ==> a[p] == old(a[p])
    ensures multiset(a[lo..hi]) == multiset(old(a[lo..hi]))
    ensures StartsOf(starts, a[lo..hi], b) && InBuckets(a[lo..hi], starts, b)
    ensures AtStarts(last, lo, starts)
  {
    ghost var s0 := a[lo..hi];
    ghost var rel := starts[..256];
    forall v | 0 <= v < 256 ensures Filled(a[lo..hi], starts, rel, b, v) { StartsStep(starts, s0, b, v); }
    var i := 0;
    while i < 256
      invariant 0 <= i <= 256
      invariant Passing(a[lo..hi], starts, rel, b) && Pointers(last, lo, rel)
      invariant forall p :: 0 <= p < a.Length && !(lo <= p < hi) ==> a[p] == old(a[p])
      invariant multiset(a[lo..hi]) == multiset(s0)
      invariant forall v :: 0 <= v < i ==> rel[v] == starts[v+1]
    {
      var end := last[i] + count[i];
      assert starts[0] == Below(s0, b, 0) == 0;
      assert i > 0 ==> last[i] == lo + rel[i-1];
      assert end == lo + starts[i+1];
      if end == hi {
        EarlyExit(a[lo..hi], starts, rel, b, i);
        ExitPointers(a[lo..hi], starts, rel, b, i);
        last[i+1] := hi;
        forall v | 0 <= v <= 256 ensures last[v] == lo + starts[v] {
          assert v > 0 && v != i + 1 ==> rel[v-1] == starts[v];
        }
        return;
      }
      ghost var rel0 := rel;
      ghost var before := a[..];
      rel := FillBucket(a, lo, hi, b, i, end, last, starts, rel);
      forall v | 0 <= v < i ensures rel[v] == starts[v+1] { assert Filled(a[lo..hi], starts, rel, b, v); }
      i := i + 1;
    }
    BelowAll(a[lo..hi], b);
    EarlyExit(a[lo..hi], starts, rel, b, 255);
    forall v | 0 <= v <= 256 ensures last[v] == lo + starts[v] { assert v > 0 ==> rel[v-1] == starts[v]; }
  }

  /** At the early exit the pointers of the later, empty buckets are already where they belong. */
  lemma ExitPointers(s: seq<Record>, starts: seq<int>, rel: seq<int>, b: nat, i: nat)
    requires Passing(s, starts, rel, b) && i < 256 && starts[i+1] == |s|
    requires forall v :: 0 <= v < i ==> rel[v] == starts[v+1]
    ensures forall v :: 0 <= v < 256 && v != i ==> rel[v] == starts[v+1]
  {
    forall v | 0 <= v < 256 && v != i ensures rel[v] == starts[v+1] {
      assert Filled(s, starts, rel, b, v);
      if v > i { StartsMono(starts, s, b, i + 1, v); }
    }
  }

  method WriteBack(a: array<Record>, lo: nat, sorted: seq<Record>)
    requires lo + |sorted| <= a.Length
    modifies a
    ensures forall p :: 0 <= p < a.Length && !(lo <= p < lo + |sorted|) ==> a[p] == old(a[p])
    ensures a[lo..lo + |sorted|] == sorted
  {
    var p := 0;
    while p < |sorted|
      invariant 0 <= p <= |sorted|
      invariant forall q :: 0 <= q < p ==> a[lo + q] == sorted[q]
      invariant forall q :: 0 <= q < a.Length && !(lo <= q < lo + p) ==> a[q] == old(a[q])
    {
      a[lo + p] := sorted[p];
      p := p + 1;
    }
  }

  method SmallSort(a: array<Record>, lo: nat, hi: nat, b: nat)
    requires lo <= hi <= a.Length && b < NB_KEY
    modifies a
    ensures forall p :: 0 <= p < a.Length && !(lo <= p < hi) ==> a[p] == old(a[p])
    ensures multiset(a[lo..hi]) == multiset(old(a[lo..hi])) && SortedFrom(a[lo..hi], b)
  {
    WriteBack(a, lo, LibrarySort(a[lo..hi], b));
  }

  /** Sort `a[lo..hi]` by the key bytes from `b` on; `b == 0` sorts by the whole key. The parallel recursive calls
      work on disjoint slices and are run one after the other here. */
  method RadixSort(a: array<Record>, lo: nat, hi: nat, b: nat)
    requires lo <= hi <= a.Length && b < NB_KEY
    modifies a
    ensures forall p :: 0 <= p < a.Length && !(lo <= p < hi) ==> a[p] == old(a[p])
    ensures multiset(a[lo..hi]) == multiset(old(a[lo..hi]))
    ensures SortedFrom(a[lo..hi], b)
    decreases NB_KEY - b, 2
  {
    if hi - lo <= THRESHOLD_SORT {
      SmallSort(a, lo, hi, b);
      return;
    }
    var count := CountBytes(a, lo, hi, b);
    var last;
    ghost var starts;
    last, starts := BucketStarts(count, lo, b, a[lo..hi]);
    ghost var s0 := a[lo..hi];
    FlagPass(a, lo, hi, b, count, last, starts);
    if b < NB_KEY - 1 {
      SortBuckets(a, lo, hi, b, count, last, starts);
    } else {
      forall v: nat | v < 256 ensures BucketSorted(a[lo..hi], starts, b, v) { StartsStep(starts, a[lo..hi], b, v); }
      BucketsSorted(a[lo..hi], starts, b);
    }
  }

  method SortBuckets(a: array<Record>, lo: nat, hi: nat, b: nat, count: array<int>, last: array<int>,
                     ghost starts: seq<int>)
    requires lo <= hi <= a.Length && b < NB_KEY - 1
    requires StartsOf(starts, a[lo..hi], b) && InBuckets(a[lo..hi], starts, b) && AtStarts(last, lo, starts)
    requires count.Length == 256 && forall v :: 0 <= v < 256 ==> count[v] == starts[v+1] - starts[v]
    modifies a
    ensures forall p :: 0 <= p < a.Length && !(lo <= p < hi) ==> a[p] == old(a[p])
    ensures multiset(a[lo..hi]) == multiset(old(a[lo..hi]))
    ensures SortedFrom(a[lo..hi], b)
    decreases NB_KEY - b, 1
  {
    var i := 0;
    while i < 256
      invariant 0 <= i <= 256
      invariant forall p :: 0 <= p < a.Length && !(lo <= p < hi) ==> a[p] == old(a[p])
      invariant multiset(a[lo..hi]) == multiset(old(a[lo..hi]))
      invariant SortedBuckets(a[lo..hi], starts, b, i)
    {
      StartsStep(starts, a[lo..hi], b, i);
      if count[i] > 1 {
        SortBucket(a, lo, hi, b, i, last[i], last[i+1], starts);
      } else {
        BucketTrivial(a[lo..hi], starts, b, i);
      }
      i := i + 1;
    }
    BucketsSorted(a[lo..hi], starts, b);
  }

  /** The recursive call on bucket `i`, and what it does to the whole slice. */
  method SortBucket(a: array<Record>, lo: nat, hi: nat, b: nat, i: nat, x: nat, y: nat, ghost starts: seq<int>)
    requires lo <= hi <= a.Length && b < NB_KEY - 1 && i < 256 && SortedBuckets(a[lo..hi], starts, b, i)
    requires 0 <= starts[i] <= starts[i+1] <= hi - lo && x == lo + starts[i] && y == lo + starts[i+1]
    modifies a
    ensures forall p :: 0 <= p < a.Length && !(lo <= p < hi) ==> a[p] == old(a[p])
    ensures multiset(a[lo..hi]) == multiset(old(a[lo..hi])) && SortedBuckets(a[lo..hi], starts, b, i + 1)
    decreases NB_KEY - b, 0
  {
    ghost var s := a[lo..hi];
    SliceOfSlice(a[..], lo, hi, x, y);
    RadixSort(a, x, y, b + 1);
    SliceOfSlice(a[..], lo, hi, x, y);
    BucketDone(s, a[lo..hi], starts, b, i);
  }
}
