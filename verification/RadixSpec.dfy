/**
 Records with a ten-byte key, their order, and what one American-flag pass does to a sequence of them.
 */
module RadixSpec {

  type Byte = x: int | 0 <= x < 256

  const NB_KEY: nat := 10

  datatype Raw = Raw(key: seq<Byte>, payload: seq<Byte>)

  type Record = r: Raw | |r.key| == 10 witness Raw(seq(10, i => 0), [])

  /** Unsigned lexicographic comparison of the key bytes from `b` on. */
  predicate LeqFrom(x: Record, y: Record, b: nat)
    requires b <= NB_KEY
    decreases NB_KEY - b
  {
    b == NB_KEY || x.key[b] < y.key[b] || (x.key[b] == y.key[b] && LeqFrom(x, y, b + 1))
  }

  ghost predicate SortedFrom(s: seq<Record>, b: nat)
    requires b <= NB_KEY
  {
    forall p, q :: 0 <= p < q < |s| ==> LeqFrom(s[p], s[q], b)
  }

  lemma {:induction false} LeqTotal(x: Record, y: Record, b: nat)
    requires b <= NB_KEY
    ensures LeqFrom(x, y, b) || LeqFrom(y, x, b)
    decreases NB_KEY - b
  {
    if b < NB_KEY { LeqTotal(x, y, b + 1); }
  }

  lemma {:induction false} LeqTrans(x: Record, y: Record, z: Record, b: nat)
    requires b <= NB_KEY && LeqFrom(x, y, b) && LeqFrom(y, z, b)
    ensures LeqFrom(x, z, b)
    decreases NB_KEY - b
  {
    if b < NB_KEY && x.key[b] == y.key[b] == z.key[b] { LeqTrans(x, y, z, b + 1); }
  }

  /** At position `d` the keys differ for the first time, and the byte of `x` is the smaller. */
  ghost predicate SmallerAt(x: Record, y: Record, d: nat) {
    d < |x.key| && d < |y.key| && x.key[..d] == y.key[..d] && x.key[d] < y.key[d]
  }

  /** The order of the keys as sequences of bytes. */
  ghost predicate InKeyOrder(x: Record, y: Record) {
    x.key == y.key || exists d: nat :: SmallerAt(x, y, d)
  }

  lemma {:induction false} LeqIsKeyOrder(x: Record, y: Record, b: nat)
    requires b <= NB_KEY && x.key[..b] == y.key[..b]
    ensures LeqFrom(x, y, b) <==> InKeyOrder(x, y)
    decreases NB_KEY - b
  {
    if b < NB_KEY {
      if x.key[b] == y.key[b] {
        assert x.key[..b+1] == x.key[..b] + [x.key[b]] && y.key[..b+1] == y.key[..b] + [y.key[b]];
        LeqIsKeyOrder(x, y, b + 1);
      } else {
        DifferHere(x, y, b);
      }
    } else {
      assert x.key == x.key[..b] && y.key == y.key[..b];
    }
  }

  lemma SameByte(x: Record, y: Record, n: nat, d: nat)
    requires d < n <= NB_KEY && x.key[..n] == y.key[..n]
    ensures x.key[d] == y.key[d]
  {
    assert x.key[..n][d] == y.key[..n][d];
  }

  lemma DifferHere(x: Record, y: Record, b: nat)
    requires b < NB_KEY && x.key[..b] == y.key[..b] && x.key[b] != y.key[b]
    ensures InKeyOrder(x, y) <==> x.key[b] < y.key[b]
  {
    if x.key[b] < y.key[b] { assert SmallerAt(x, y, b); }
    if d: nat :| SmallerAt(x, y, d) && d != b { SameByte(x, y, if d < b then b else d, if d < b then d else b); }
  }

  /** Only equal keys are in order both ways. */
  lemma LeqAntisym(x: Record, y: Record)
    requires LeqFrom(x, y, 0) && LeqFrom(y, x, 0)
    ensures x.key == y.key
  {
    LeqIsKeyOrder(x, y, 0);
    LeqIsKeyOrder(y, x, 0);
    if d: nat :| SmallerAt(x, y, d) { DifferHere(x, y, d); DifferHere(y, x, d); }
  }

  /** Sorted from the first byte on means in the order of the whole keys. */
  lemma SortedIsByKey(s: seq<Record>)
    ensures SortedFrom(s, 0) <==> forall p, q :: 0 <= p < q < |s| ==> InKeyOrder(s[p], s[q])
  {
    forall p, q | 0 <= p < q < |s| ensures LeqFrom(s[p], s[q], 0) <==> InKeyOrder(s[p], s[q]) {
      LeqIsKeyOrder(s[p], s[q], 0);
    }
  }

  // ---------- counting ----------

  /** How many records of `s` have byte `v` at position `b` of the key. */
  function Count(s: seq<Record>, b: nat, v: int): (n: nat)
    requires b < NB_KEY
    ensures n <= |s|
  {
    if s == [] then 0 else Count(s[..|s|-1], b, v) + (if s[|s|-1].key[b] == v then 1 else 0)
  }

  /** How many have a smaller byte: where the bucket of `v` starts. */
  function Below(s: seq<Record>, b: nat, v: nat): (n: nat)
    requires b < NB_KEY
  {
    if v == 0 then 0 else Below(s, b, v - 1) + Count(s, b, v - 1)
  }

  lemma {:induction false} CountConcat(s: seq<Record>, t: seq<Record>, b: nat, v: int)
    requires b < NB_KEY
    ensures Count(s + t, b, v) == Count(s, b, v) + Count(t, b, v)
  {
    if t == [] {
      assert s + t == s;
    } else {
      assert (s + t)[..|s + t|-1] == s + t[..|t|-1];
      CountConcat(s, t[..|t|-1], b, v);
    }
  }

  lemma {:induction false} CountUpdate(s: seq<Record>, p: nat, x: Record, b: nat, v: int)
    requires b < NB_KEY && p < |s|
    ensures Count(s[p := x], b, v) == Count(s, b, v)
      - (if s[p].key[b] == v then 1 else 0) + (if x.key[b] == v then 1 else 0)
  {
    var n := |s| - 1;
    if p < n {
      assert s[p := x][..n] == s[..n][p := x];
      CountUpdate(s[..n], p, x, b, v);
    } else {
      assert s[p := x][..n] == s[..n];
    }
  }

  lemma {:induction false} CountAll(s: seq<Record>, b: nat, v: int)
    requires b < NB_KEY && forall p :: 0 <= p < |s| ==> s[p].key[b] == v
    ensures Count(s, b, v) == |s|
  {
    if s != [] { CountAll(s[..|s|-1], b, v); }
  }

  lemma CountOne(s: seq<Record>, p: nat, b: nat, v: int)
    requires b < NB_KEY && p < |s| && s[p].key[b] == v
    ensures Count(s, b, v) >= 1
  {
    assert s == s[..p] + [s[p]] + s[p+1..];
    CountConcat(s[..p] + [s[p]], s[p+1..], b, v);
    CountConcat(s[..p], [s[p]], b, v);
    CountAll([s[p]], b, v);
  }

  /** A block of records with byte `v`, and one more such record outside it. */
  lemma CountBlock(s: seq<Record>, lo: nat, hi: nat, p: nat, b: nat, v: int)
    requires b < NB_KEY && lo <= hi <= |s| && p < |s| && !(lo <= p < hi)
    requires s[p].key[b] == v && forall q :: lo <= q < hi ==> s[q].key[b] == v
    ensures Count(s, b, v) >= hi - lo + 1
  {
    assert s == s[..lo] + s[lo..hi] + s[hi..];
    CountConcat(s[..lo] + s[lo..hi], s[hi..], b, v);
    CountConcat(s[..lo], s[lo..hi], b, v);
    CountAll(s[lo..hi], b, v);
    if p < lo {
      CountOne(s[..lo], p, b, v);
    } else {
      assert s[hi..][p-hi] == s[p];
      CountOne(s[hi..], p - hi, b, v);
    }
  }

  lemma {:induction false} BelowMono(s: seq<Record>, b: nat, v: nat, w: nat)
    requires b < NB_KEY && v <= w
    ensures Below(s, b, v) <= Below(s, b, w)
  {
    if v < w { BelowMono(s, b, v, w - 1); }
  }

  lemma {:induction false} BelowSnoc(s: seq<Record>, x: Record, b: nat, v: nat)
    requires b < NB_KEY
    ensures Below(s + [x], b, v) == Below(s, b, v) + (if x.key[b] < v then 1 else 0)
  {
    if v > 0 {
      BelowSnoc(s, x, b, v - 1);
      assert (s + [x])[..|s|] == s;
    }
  }

  lemma {:induction false} BelowAll(s: seq<Record>, b: nat)
    requires b < NB_KEY
    ensures Below(s, b, 256) == |s|
  {
    if s == [] {
      BelowEmpty(b, 256);
    } else {
      var n := |s| - 1;
      BelowAll(s[..n], b);
      BelowSnoc(s[..n], s[n], b, 256);
      assert s[..n] + [s[n]] == s;
    }
  }

  lemma {:induction false} BelowEmpty(b: nat, v: nat)
    requires b < NB_KEY
    ensures Below([], b, v) == 0
  {
    if v > 0 { BelowEmpty(b, v - 1); }
  }

  // ---------- the pass ----------

  ghost predicate SameCounts(s: seq<Record>, s': seq<Record>, b: nat)
    requires b < NB_KEY
  {
    |s| == |s'| && forall v: int :: Count(s, b, v) == Count(s', b, v)
  }

  lemma {:induction false} SameBelow(s: seq<Record>, s': seq<Record>, b: nat, v: nat)
    requires b < NB_KEY && SameCounts(s, s', b)
    ensures Below(s, b, v) == Below(s', b, v)
  {
    if v > 0 { SameBelow(s, s', b, v - 1); }
  }

  function Swap(s: seq<Record>, p: nat, q: nat): seq<Record>
    requires p < |s| && q < |s|
  {
    s[p := s[q]][q := s[p]]
  }

  lemma SwapKeeps(s: seq<Record>, p: nat, q: nat, b: nat)
    requires p < |s| && q < |s| && p != q && b < NB_KEY
    ensures multiset(Swap(s, p, q)) == multiset(s) && SameCounts(s, Swap(s, p, q), b)
  {
    forall v: int ensures Count(s, b, v) == Count(Swap(s, p, q), b, v) {
      CountUpdate(s, p, s[q], b, v);
      CountUpdate(s[p := s[q]], q, s[p], b, v);
    }
  }

  /** `starts[v]` is where bucket `v` starts. */
  ghost predicate StartsOf(starts: seq<int>, s: seq<Record>, b: nat)
    requires b < NB_KEY
  {
    |starts| == 257 && forall v :: 0 <= v <= 256 ==> starts[v] == Below(s, b, v)
  }

  lemma StartsStep(starts: seq<int>, s: seq<Record>, b: nat, v: nat)
    requires b < NB_KEY && StartsOf(starts, s, b) && v < 256
    ensures starts[v+1] == starts[v] + Count(s, b, v) && 0 <= starts[v] <= starts[v+1] <= |s|
  {
    assert starts[v] == Below(s, b, v) && starts[v+1] == Below(s, b, v + 1);
    BelowMono(s, b, v + 1, 256);
    BelowAll(s, b);
  }

  lemma StartsMono(starts: seq<int>, s: seq<Record>, b: nat, v: nat, w: nat)
    requires b < NB_KEY && StartsOf(starts, s, b) && v <= w <= 256
    ensures 0 <= starts[v] <= starts[w] <= |s|
  {
    assert starts[v] == Below(s, b, v) && starts[w] == Below(s, b, w);
    BelowMono(s, b, v, w);
    BelowMono(s, b, w, 256);
    BelowAll(s, b);
  }

  /** The pointer of bucket `v` stays in its bucket, and what it has passed has byte `v`. */
  ghost predicate Filled(s: seq<Record>, starts: seq<int>, last: seq<int>, b: nat, v: nat)
    requires b < NB_KEY && |starts| == 257 && |last| == 256 && v < 256
  {
    && 0 <= starts[v] <= last[v] <= starts[v+1] <= |s|
    && forall p :: starts[v] <= p < last[v] ==> s[p].key[b] == v
  }

  ghost predicate Passing(s: seq<Record>, starts: seq<int>, last: seq<int>, b: nat) {
    && b < NB_KEY && |last| == 256 && StartsOf(starts, s, b)
    && forall v :: 0 <= v < 256 ==> Filled(s, starts, last, b, v)
  }

  /** A record that its bucket's pointer has not passed leaves room in that bucket. */
  lemma Room(s: seq<Record>, starts: seq<int>, last: seq<int>, b: nat, p: nat)
    requires Passing(s, starts, last, b) && p < |s|
    requires var v := s[p].key[b]; !(starts[v] <= p < last[v])
    ensures var v := s[p].key[b]; last[v] < starts[v+1]
  {
    var v := s[p].key[b];
    assert Filled(s, starts, last, b, v);
    StartsStep(starts, s, b, v);
    CountBlock(s, starts[v], last[v], p, b, v);
  }

  /** Buckets do not overlap. */
  lemma Apart(s: seq<Record>, starts: seq<int>, b: nat, v: nat, w: nat, p: int)
    requires b < NB_KEY && StartsOf(starts, s, b) && v < 256 && w < 256
    requires starts[v] <= p < starts[v+1] && starts[w] <= p < starts[w+1]
    ensures v == w
  {
    if v < w { StartsMono(starts, s, b, v + 1, w); }
    if w < v { StartsMono(starts, s, b, w + 1, v); }
  }

  /** One swap of the cycle: the record in hand, which belongs at the hole `c`, goes to its bucket. */
  lemma SwapStep(s: seq<Record>, starts: seq<int>, last: seq<int>, b: nat, i: nat, c: nat)
    requires Passing(s, starts, last, b) && i < 256 && c < |s| && c == last[i] < starts[i+1] && s[c].key[b] != i
    ensures var tag := s[c].key[b]; var q := last[tag];
      && q < starts[tag+1] && 0 <= q < |s| && q != c
      && Passing(Swap(s, c, q), starts, last[tag := q + 1], b)
      && multiset(Swap(s, c, q)) == multiset(s)
  {
    var tag: nat := s[c].key[b];
    var q := last[tag];
    assert Filled(s, starts, last, b, tag) && Filled(s, starts, last, b, i);
    if starts[tag] <= c < q { Apart(s, starts, b, tag, i, c); }
    Room(s, starts, last, b, c);
    if q == c { Apart(s, starts, b, tag, i, c); }
    var s' := Swap(s, c, q);
    var last' := last[tag := q + 1];
    SwapKeeps(s, c, q, b);
    forall v | 0 <= v <= 256 ensures starts[v] == Below(s', b, v) { SameBelow(s, s', b, v); }
    forall v: nat | v < 256 ensures Filled(s', starts, last', b, v) {
      assert Filled(s, starts, last, b, v);
      if v != tag && v != i {
        if starts[v] <= c < last[v] { Apart(s, starts, b, v, i, c); }
        if starts[v] <= q < last[v] { Apart(s, starts, b, v, tag, q); }
      }
      if v == i && starts[i] <= q < last[i] { Apart(s, starts, b, i, tag, q); }
      if v == tag && starts[tag] <= c < last[tag] { Apart(s, starts, b, tag, i, c); }
    }
  }

  /** A record of byte `i` at the pointer of bucket `i` is in place. */
  lemma AdvanceStep(s: seq<Record>, starts: seq<int>, last: seq<int>, b: nat, i: nat)
    requires Passing(s, starts, last, b) && i < 256 && last[i] < starts[i+1]
    requires Filled(s, starts, last, b, i) && s[last[i]].key[b] == i
    ensures Passing(s, starts, last[i := last[i] + 1], b)
  {
    var last' := last[i := last[i] + 1];
    forall v | 0 <= v < 256 ensures Filled(s, starts, last', b, v) { assert Filled(s, starts, last, b, v); }
  }

  /** Unplaced slots. Every swap and every advance takes one away. */
  function Unplaced(starts: seq<int>, last: seq<int>, v: nat): int
    requires |starts| == 257 && |last| == 256 && v <= 256
  {
    if v == 0 then 0 else Unplaced(starts, last, v - 1) + starts[v] - last[v-1]
  }

  lemma {:induction false} UnplacedStep(starts: seq<int>, last: seq<int>, w: nat, v: nat)
    requires |starts| == 257 && |last| == 256 && w < 256 && v <= 256
    ensures Unplaced(starts, last[w := last[w] + 1], v) == Unplaced(starts, last, v) - (if w < v then 1 else 0)
  {
    if v > 0 { UnplacedStep(starts, last, w, v - 1); }
  }

  lemma {:induction false} UnplacedNonNegative(s: seq<Record>, starts: seq<int>, last: seq<int>, b: nat, v: nat)
    requires Passing(s, starts, last, b) && v <= 256
    ensures Unplaced(starts, last, v) >= 0
  {
    if v > 0 {
      UnplacedNonNegative(s, starts, last, b, v - 1);
      assert Filled(s, starts, last, b, v - 1);
    }
  }

  /** Every record stands in the bucket of its byte. */
  ghost predicate InBuckets(s: seq<Record>, starts: seq<int>, b: nat)
    requires b < NB_KEY && |starts| == 257
  {
    forall p :: 0 <= p < |s| ==> InItsBucket(s, starts, b, p)
  }

  ghost predicate InItsBucket(s: seq<Record>, starts: seq<int>, b: nat, p: nat)
    requires b < NB_KEY && |starts| == 257 && p < |s|
  {
    starts[s[p].key[b]] <= p < starts[s[p].key[b] + 1]
  }

  /** The pass is over when the buckets before `i` are full and bucket `i` ends where the records end; so it is right to
      stop there even if bucket `i` has not been looked at. */
  lemma EarlyExit(s: seq<Record>, starts: seq<int>, last: seq<int>, b: nat, i: nat)
    requires Passing(s, starts, last, b) && i < 256 && starts[i+1] == |s|
    requires forall v :: 0 <= v < i ==> last[v] == starts[v+1]
    ensures InBuckets(s, starts, b)
  {
    forall p | 0 <= p < |s| ensures InItsBucket(s, starts, b, p) {
      var v: nat := s[p].key[b];
      assert Filled(s, starts, last, b, v);
      if !(starts[v] <= p < last[v]) {
        Room(s, starts, last, b, p);
        StartsStep(starts, s, b, v);
        if v > i { StartsMono(starts, s, b, i + 1, v); }
        if i > 0 && p < starts[i] { Positions(s, starts, last, b, i, p); }
      }
    }
  }

  /** Positions before bucket `i` belong to the full buckets before it. */
  lemma {:induction false} Positions(s: seq<Record>, starts: seq<int>, last: seq<int>, b: nat, i: nat, p: nat)
    requires Passing(s, starts, last, b) && i <= 256 && p < starts[i] && p < |s|
    requires forall v :: 0 <= v < i ==> last[v] == starts[v+1]
    ensures s[p].key[b] < i && starts[s[p].key[b]] <= p < last[s[p].key[b]]
  {
    assert starts[0] == Below(s, b, 0) == 0;
    assert i > 0;
    assert Filled(s, starts, last, b, i - 1);
    if p < starts[i-1] { Positions(s, starts, last, b, i - 1, p); }
  }

  // ---------- sorting the buckets ----------

  lemma BucketByte(s: seq<Record>, starts: seq<int>, b: nat, v: nat, p: nat)
    requires b < NB_KEY && StartsOf(starts, s, b) && InBuckets(s, starts, b) && v < 256 && p < |s|
    ensures s[p].key[b] == v <==> starts[v] <= p < starts[v+1]
  {
    assert InItsBucket(s, starts, b, p);
    if starts[v] <= p < starts[v+1] { Apart(s, starts, b, v, s[p].key[b], p); }
  }

  /** Rearranging one bucket changes no count, so the buckets stay where they are. */
  lemma BucketRearranged(s: seq<Record>, t: seq<Record>, starts: seq<int>, b: nat, v: nat)
    requires b < NB_KEY && StartsOf(starts, s, b) && InBuckets(s, starts, b) && v < 256
    requires 0 <= starts[v] <= starts[v+1] <= |s|
    requires multiset(t) == multiset(s[starts[v]..starts[v+1]])
    ensures var s' := s[..starts[v]] + t + s[starts[v+1]..];
      && |t| == starts[v+1] - starts[v] && |s'| == |s|
      && multiset(s') == multiset(s)
      && StartsOf(starts, s', b) && InBuckets(s', starts, b)
  {
    var u := s[starts[v]..starts[v+1]];
    assert |t| == |multiset(t)| == |multiset(u)| == |u|;
    var x, z := s[..starts[v]], s[starts[v+1]..];
    assert s == x + u + z;
    forall p | 0 <= p < |u| ensures u[p].key[b] == v { BucketByte(s, starts, b, v, starts[v] + p); }
    SameBytes(t, u, b, v);
    forall w: nat | w <= 256 ensures starts[w] == Below(x + t + z, b, w) {
      BelowSame(x, t, u, z, b, v, w);
    }
    RearrangedInBuckets(x, t, u, z, starts, b, v);
  }

  lemma SameBytes(t: seq<Record>, u: seq<Record>, b: nat, v: nat)
    requires b < NB_KEY && multiset(t) == multiset(u) && forall p :: 0 <= p < |u| ==> u[p].key[b] == v
    ensures forall p :: 0 <= p < |t| ==> t[p].key[b] == v
  {
    forall p | 0 <= p < |t| ensures t[p].key[b] == v {
      assert t[p] in multiset(u);
      assert t[p] in u;
    }
  }

  lemma RearrangedInBuckets(x: seq<Record>, t: seq<Record>, u: seq<Record>, z: seq<Record>, starts: seq<int>, b: nat,
                            v: nat)
    requires b < NB_KEY && |starts| == 257 && InBuckets(x + u + z, starts, b) && v < 256
    requires |x| == starts[v] && |t| == |u| == starts[v+1] - starts[v]
    requires forall p :: 0 <= p < |t| ==> t[p].key[b] == v
    ensures InBuckets(x + t + z, starts, b)
  {
    var s, s' := x + u + z, x + t + z;
    forall p | 0 <= p < |s'| ensures InItsBucket(s', starts, b, p) {
      if |x| <= p < |x| + |t| {
        assert s'[p] == t[p - |x|];
      } else {
        assert InItsBucket(s, starts, b, p);
        assert s'[p] == s[p];
      }
    }
  }

  lemma {:induction false} BelowSame(x: seq<Record>, t: seq<Record>, u: seq<Record>, z: seq<Record>, b: nat, v: nat,
                                     w: nat)
    requires b < NB_KEY && |t| == |u|
    requires (forall p :: 0 <= p < |t| ==> t[p].key[b] == v) && (forall p :: 0 <= p < |u| ==> u[p].key[b] == v)
    ensures Below(x + t + z, b, w) == Below(x + u + z, b, w)
  {
    if w > 0 {
      BelowSame(x, t, u, z, b, v, w - 1);
      CountMiddle(x, t, z, b, w - 1);
      CountMiddle(x, u, z, b, w - 1);
      CountUniform(t, b, v, w - 1);
      CountUniform(u, b, v, w - 1);
    }
  }

  lemma CountMiddle(x: seq<Record>, t: seq<Record>, z: seq<Record>, b: nat, w: nat)
    requires b < NB_KEY
    ensures Count(x + t + z, b, w) == Count(x, b, w) + Count(t, b, w) + Count(z, b, w)
  {
    CountConcat(x + t, z, b, w);
    CountConcat(x, t, b, w);
  }

  lemma CountUniform(s: seq<Record>, b: nat, v: nat, w: nat)
    requires b < NB_KEY && forall p :: 0 <= p < |s| ==> s[p].key[b] == v
    ensures Count(s, b, w) == if w == v then |s| else 0
  {
    if w == v { CountAll(s, b, v); } else { CountNone(s, b, v, w); }
  }

  lemma {:induction false} CountNone(s: seq<Record>, b: nat, v: nat, w: nat)
    requires b < NB_KEY && v != w && forall p :: 0 <= p < |s| ==> s[p].key[b] == v
    ensures Count(s, b, w) == 0
  {
    if s != [] { CountNone(s[..|s|-1], b, v, w); }
  }

  /** Bucket `v` is sorted by the key bytes after `b`. */
  ghost predicate BucketSorted(s: seq<Record>, starts: seq<int>, b: nat, v: nat)
    requires b < NB_KEY && |starts| == 257 && v < 256
  {
    0 <= starts[v] <= starts[v+1] <= |s| && SortedFrom(s[starts[v]..starts[v+1]], b + 1)
  }

  /** Buckets in byte order, each sorted by the rest of the key, are sorted. */
  lemma BucketsSorted(s: seq<Record>, starts: seq<int>, b: nat)
    requires b < NB_KEY && StartsOf(starts, s, b) && InBuckets(s, starts, b)
    requires forall v: nat :: v < 256 ==> BucketSorted(s, starts, b, v)
    ensures SortedFrom(s, b)
  {
    forall p, q | 0 <= p < q < |s| ensures LeqFrom(s[p], s[q], b) {
      TwoSorted(s, starts, b, p, q);
    }
  }

  lemma TwoSorted(s: seq<Record>, starts: seq<int>, b: nat, p: nat, q: nat)
    requires b < NB_KEY && StartsOf(starts, s, b) && InBuckets(s, starts, b) && p < q < |s|
    requires BucketSorted(s, starts, b, s[p].key[b])
    ensures LeqFrom(s[p], s[q], b)
  {
    var v, w := s[p].key[b], s[q].key[b];
    assert InItsBucket(s, starts, b, p) && InItsBucket(s, starts, b, q);
    if v > w { StartsMono(starts, s, b, w + 1, v); }
    if v == w {
      var u := s[starts[v]..starts[v+1]];
      assert u[p - starts[v]] == s[p] && u[q - starts[v]] == s[q];
    }
  }

  /** The buckets hold their bytes, and those before `i` are sorted by the rest of the key. */
  ghost predicate SortedBuckets(s: seq<Record>, starts: seq<int>, b: nat, i: nat) {
    && b < NB_KEY && i <= 256 && StartsOf(starts, s, b) && InBuckets(s, starts, b)
    && forall v: nat :: v < i ==> BucketSorted(s, starts, b, v)
  }

  lemma Sandwich(s: seq<Record>, s': seq<Record>, x: nat, y: nat)
    requires x <= y <= |s| == |s'|
    requires forall p :: 0 <= p < |s| && !(x <= p < y) ==> s'[p] == s[p]
    ensures s' == s[..x] + s'[x..y] + s[y..]
    ensures forall v: nat, w: nat :: v <= w <= x || y <= v <= w <= |s| ==> s'[v..w] == s[v..w]
  {
  }

  lemma SliceOfSlice(s: seq<Record>, lo: nat, hi: nat, x: nat, y: nat)
    requires lo <= x <= y <= hi <= |s|
    ensures s[x..y] == s[lo..hi][x - lo..y - lo]
  {
    var u := s[lo..hi];
    forall p | 0 <= p < y - x ensures u[x - lo..y - lo][p] == s[x..y][p] { assert u[x - lo + p] == s[x + p]; }
  }

  /** Replacing bucket `i` by a sorted rearrangement. */
  lemma BucketDone(s: seq<Record>, s': seq<Record>, starts: seq<int>, b: nat, i: nat)
    requires i < 256 && SortedBuckets(s, starts, b, i)
    requires 0 <= starts[i] <= starts[i+1] <= |s| == |s'|
    requires forall p :: 0 <= p < |s| && !(starts[i] <= p < starts[i+1]) ==> s'[p] == s[p]
    requires multiset(s'[starts[i]..starts[i+1]]) == multiset(s[starts[i]..starts[i+1]])
    requires SortedFrom(s'[starts[i]..starts[i+1]], b + 1)
    ensures multiset(s') == multiset(s) && SortedBuckets(s', starts, b, i + 1)
  {
    BucketRearranged(s, s'[starts[i]..starts[i+1]], starts, b, i);
    Sandwich(s, s', starts[i], starts[i+1]);
    forall v: nat | v < i + 1 ensures BucketSorted(s', starts, b, v) {
      if v < i {
        assert BucketSorted(s, starts, b, v);
        StartsMono(starts, s, b, v + 1, i);
      }
    }
  }

  /** A bucket with at most one record needs no sorting. */
  lemma BucketTrivial(s: seq<Record>, starts: seq<int>, b: nat, i: nat)
    requires i < 256 && SortedBuckets(s, starts, b, i) && starts[i+1] - starts[i] <= 1
    ensures SortedBuckets(s, starts, b, i + 1)
  {
    StartsStep(starts, s, b, i);
    assert BucketSorted(s, starts, b, i);
  }

  // ---------- one cycle ----------

  /** The state of the cycle that fills the hole at `c`, the pointer of bucket `i`. */
  ghost predicate Chasing(s: seq<Record>, starts: seq<int>, rel0: seq<int>, rel: seq<int>, b: nat, i: nat, c: nat) {
    && Passing(s, starts, rel, b) && i < 256 && c < |s|
    && |rel0| == 256 && rel[i] == rel0[i] == c < starts[i+1]
    && (forall v :: 0 <= v < 256 ==> rel0[v] <= rel[v])
    && Unplaced(starts, rel, 256) <= Unplaced(starts, rel0, 256)
  }

  lemma ChaseStart(s: seq<Record>, starts: seq<int>, rel: seq<int>, b: nat, i: nat)
    requires Passing(s, starts, rel, b) && i < 256 && rel[i] < starts[i+1]
    ensures rel[i] >= 0 && Chasing(s, starts, rel, rel, b, i, rel[i])
  {
    assert Filled(s, starts, rel, b, i);
  }

  lemma ChaseStep(s: seq<Record>, starts: seq<int>, rel0: seq<int>, rel: seq<int>, b: nat, i: nat, c: nat)
    requires Chasing(s, starts, rel0, rel, b, i, c) && s[c].key[b] != i
    ensures var tag := s[c].key[b]; var q := rel[tag];
      && 0 <= q < |s| && q != c
      && Chasing(Swap(s, c, q), starts, rel0, rel[tag := q + 1], b, i, c)
      && multiset(Swap(s, c, q)) == multiset(s)
      && 0 <= Unplaced(starts, rel[tag := q + 1], 256) < Unplaced(starts, rel, 256)
  {
    SwapStep(s, starts, rel, b, i, c);
    var tag := s[c].key[b];
    UnplacedStep(starts, rel, tag, 256);
    UnplacedNonNegative(Swap(s, c, rel[tag]), starts, rel[tag := rel[tag] + 1], b, 256);
  }

  // ---------- the library sort ----------

  function InsertRecord(x: Record, s: seq<Record>, b: nat): (r: seq<Record>)
    requires b <= NB_KEY
    ensures multiset(r) == multiset{x} + multiset(s) && |r| == |s| + 1
  {
    if s == [] || LeqFrom(x, s[0], b) then [x] + s
    else
      assert s == [s[0]] + s[1..];
      [s[0]] + InsertRecord(x, s[1..], b)
  }

  lemma {:induction false} InsertRecordSorted(x: Record, s: seq<Record>, b: nat)
    requires b <= NB_KEY && SortedFrom(s, b)
    ensures SortedFrom(InsertRecord(x, s, b), b)
  {
    if s == [] {
    } else if LeqFrom(x, s[0], b) {
      forall q | 0 <= q < |s| ensures LeqFrom(x, s[q], b) { if q > 0 { LeqTrans(x, s[0], s[q], b); } }
    } else {
      var r := InsertRecord(x, s[1..], b);
      InsertRecordSorted(x, s[1..], b);
      LeqTotal(x, s[0], b);
      forall q | 0 <= q < |r| ensures LeqFrom(s[0], r[q], b) {
        assert r[q] in multiset(r);
        assert r[q] == x || r[q] in s[1..];
      }
    }
  }

  /** Stands for `std::sort` with the comparison of the key bytes from `b` on. */
  function LibrarySort(s: seq<Record>, b: nat): (r: seq<Record>)
    requires b <= NB_KEY
    ensures multiset(r) == multiset(s) && |r| == |s| && SortedFrom(r, b)
  {
    if s == [] then [] else
    assert s == [s[0]] + s[1..];
    var rest := LibrarySort(s[1..], b);
    InsertRecordSorted(s[0], rest, b);
    InsertRecord(s[0], rest, b)
  }
}
