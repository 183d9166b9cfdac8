/**
 Aligned near-duplicate search over one-second perceptual fingerprints. Values are
 indexed by pairs of equal eighths; the index must find every alignment that the
 scan over all offsets would find.
 */
module Fingerprints {
  import opened Common

  /** A fingerprint for each second, missing where the second tells nothing. */
  type Track = seq<Option<nat>>

  const MIN_ALIGNED: nat := 8

  // ---------------------------------------------------------------- bits

  function Xor(x: nat, y: nat): nat
    decreases x + y
  {
    if x == 0 && y == 0 then 0 else (if x % 2 == y % 2 then 0 else 1) + 2 * Xor(x / 2, y / 2)
  }

  function BitCount(n: nat): nat
  {
    if n == 0 then 0 else n % 2 + BitCount(n / 2)
  }

  /** `(x ^ y).bit_count()` */
  function Distance(x: nat, y: nat): nat { BitCount(Xor(x, y)) }

  /** `x >> n` */
  function Shr(x: nat, n: nat): nat
  {
    if n == 0 then x else Shr(x / 2, n - 1)
  }

  /** `x & ((1 << n) - 1)` */
  function Low(x: nat, n: nat): nat
  {
    if n == 0 then 0 else x % 2 + 2 * Low(x / 2, n - 1)
  }

  function Chunk(x: nat, width: nat, i: nat): nat { Low(Shr(x, width * i), width) }

  predicate Close(x: Option<nat>, y: Option<nat>, distance: nat)
  {
    x.Some? && y.Some? && Distance(x.value, y.value) <= distance
  }

  // ---------------------------------------------------------------- the naive relation

  /** Second `i` of `a` is close to second `i + delta` of `b`. */
  ghost predicate CloseAt(a: Track, b: Track, distance: nat, delta: int, i: int)
  {
    0 <= i < |a| && 0 <= i + delta < |b| && Close(a[i], b[i + delta], distance)
  }

  /** Eight close seconds in a row, from second `s` of `a` and second `s + delta` of `b`. */
  ghost predicate AlignedAt(a: Track, b: Track, distance: nat, s: int, delta: int)
  {
    forall i :: s <= i < s + MIN_ALIGNED ==> CloseAt(a, b, distance, delta, i)
  }

  /** Some eight consecutive seconds of each track are pairwise close. */
  ghost predicate Aligned(a: Track, b: Track, distance: nat)
  {
    exists s, delta :: AlignedAt(a, b, distance, s, delta)
  }

  // ---------------------------------------------------------------- pigeonhole

  lemma BitStep(bit: nat, rest: nat)
    requires bit < 2
    ensures BitCount(bit + 2 * rest) == bit + BitCount(rest)
  {
    assert (bit + 2 * rest) % 2 == bit && (bit + 2 * rest) / 2 == rest;
  }

  lemma DistanceStep(x: nat, y: nat)
    ensures Distance(x, y) == (if x % 2 == y % 2 then 0 else 1) + Distance(x / 2, y / 2)
  {
    if x != 0 || y != 0 {
      hide BitCount;
      BitStep(if x % 2 == y % 2 then 0 else 1, Xor(x / 2, y / 2));
    }
  }

  lemma {:induction false} DistanceSymmetric(x: nat, y: nat)
    ensures Distance(x, y) == Distance(y, x)
    decreases x + y
  {
    DistanceStep(x, y);
    DistanceStep(y, x);
    if x != 0 || y != 0 {
      DistanceSymmetric(x / 2, y / 2);
    }
  }

  /** A differing low part costs at least one bit, on top of what differs above it. */
  lemma {:induction false} LowPartCosts(x: nat, y: nat, n: nat)
    ensures Distance(x, y) >= (if Low(x, n) == Low(y, n) then 0 else 1) + Distance(Shr(x, n), Shr(y, n))
    decreases n
  {
    if n > 0 {
      DistanceStep(x, y);
      LowPartCosts(x / 2, y / 2, n - 1);
    }
  }

  lemma {:induction false} ShrTwice(x: nat, m: nat, n: nat)
    ensures Shr(Shr(x, m), n) == Shr(x, m + n)
    decreases m
  {
    if m > 0 {
      ShrTwice(x / 2, m - 1, n);
    }
  }

  /** Chunks from `i` on that differ. */
  ghost function Differing(x: nat, y: nat, width: nat, i: nat): nat
    requires i <= 8
    decreases 8 - i
  {
    if i == 8 then 0
    else (if Chunk(x, width, i) == Chunk(y, width, i) then 0 else 1) + Differing(x, y, width, i + 1)
  }

  lemma {:induction false} ChunksCost(x: nat, y: nat, width: nat, i: nat)
    requires i <= 8
    ensures Distance(Shr(x, width * i), Shr(y, width * i)) >= Differing(x, y, width, i)
    decreases 8 - i
  {
    if i < 8 {
      ChunksCost(x, y, width, i + 1);
      LowPartCosts(Shr(x, width * i), Shr(y, width * i), width);
      ShrTwice(x, width * i, width);
      ShrTwice(y, width * i, width);
      assert width * i + width == width * (i + 1);
    }
  }

  lemma {:induction false} OneEqual(x: nat, y: nat, width: nat, i: nat) returns (p: nat)
    requires i < 8 && Differing(x, y, width, i) <= 7 - i
    ensures i <= p < 8 && Chunk(x, width, p) == Chunk(y, width, p)
    decreases 8 - i
  {
    if Chunk(x, width, i) == Chunk(y, width, i) {
      p := i;
    } else {
      p := OneEqual(x, y, width, i + 1);
    }
  }

  lemma {:induction false} TwoEqual(x: nat, y: nat, width: nat, i: nat) returns (p: nat, q: nat)
    requires i < 7 && Differing(x, y, width, i) <= 6 - i
    ensures i <= p < q < 8
    ensures Chunk(x, width, p) == Chunk(y, width, p) && Chunk(x, width, q) == Chunk(y, width, q)
    decreases 8 - i
  {
    if Chunk(x, width, i) == Chunk(y, width, i) {
      p := i;
      q := OneEqual(x, y, width, i + 1);
    } else {
      p, q := TwoEqual(x, y, width, i + 1);
    }
  }

  /** With at most six bit errors, two of the eight chunks agree. */
  lemma Pigeonhole(x: nat, y: nat, width: nat) returns (p: nat, q: nat)
    requires Distance(x, y) <= 6
    ensures p < q < 8 && Chunk(x, width, p) == Chunk(y, width, p) && Chunk(x, width, q) == Chunk(y, width, q)
  {
    ChunksCost(x, y, width, 0);
    assert width * 0 == 0;
    p, q := TwoEqual(x, y, width, 0);
  }

  // ---------------------------------------------------------------- the index

  datatype Key = Key(first: nat, second: nat, low: nat, high: nat)

  function KeyOf(x: nat, width: nat, p: nat, q: nat): Key
  {
    Key(p, q, Chunk(x, width, p), Chunk(x, width, q))
  }

  /** Position `j` is filed under each of its keys below the pair `(p, q)`. */
  ghost predicate Filed(buckets: map<Key, seq<nat>>, x: nat, width: nat, j: nat, p: nat, q: nat)
  {
    KeyOf(x, width, p, q) in buckets && j in buckets[KeyOf(x, width, p, q)]
  }

  ghost predicate FiledAll(buckets: map<Key, seq<nat>>, b: Track, width: nat, j: nat)
    requires j < |b|
  {
    b[j].Some? ==> forall p: nat, q: nat :: p < q < 8 ==> Filed(buckets, b[j].value, width, j, p, q)
  }

  /** Every filed entry of `old` is kept. */
  ghost predicate Grows(before: map<Key, seq<nat>>, after: map<Key, seq<nat>>)
  {
    forall k, j :: k in before && j in before[k] ==> k in after && j in after[k]
  }

  method FileValue(buckets0: map<Key, seq<nat>>, x: nat, width: nat, j: nat) returns (buckets: map<Key, seq<nat>>)
    ensures Grows(buckets0, buckets)
    ensures forall p: nat, q: nat :: p < q < 8 ==> Filed(buckets, x, width, j, p, q)
  {
    buckets := buckets0;
    for p := 0 to 8
      invariant Grows(buckets0, buckets)
      invariant forall p': nat, q: nat :: p' < p && p' < q < 8 ==> Filed(buckets, x, width, j, p', q)
    {
      for q := p + 1 to 8
        invariant Grows(buckets0, buckets)
        invariant forall p': nat, q': nat :: p' < p && p' < q' < 8 ==> Filed(buckets, x, width, j, p', q')
        invariant forall q': nat :: p < q' < q ==> Filed(buckets, x, width, j, p, q')
      {
        ghost var before := buckets;
        var key := KeyOf(x, width, p, q);
        buckets := buckets[key := (if key in buckets then buckets[key] else []) + [j]];
        assert Grows(before, buckets);
        assert Filed(buckets, x, width, j, p, q);
        forall p': nat, q': nat | p' < p && p' < q' < 8
          ensures Filed(buckets, x, width, j, p', q')
        {
          assert Filed(before, x, width, j, p', q');
        }
        forall q': nat | p < q' < q
          ensures Filed(buckets, x, width, j, p, q')
        {
          assert Filed(before, x, width, j, p, q');
        }
      }
    }
  }

  method Index(b: Track, width: nat) returns (buckets: map<Key, seq<nat>>)
    ensures forall j: nat :: j < |b| ==> FiledAll(buckets, b, width, j)
  {
    buckets := map[];
    for j := 0 to |b|
      invariant forall k: nat :: k < j ==> FiledAll(buckets, b, width, k)
    {
      if b[j].Some? {
        ghost var before := buckets;
        buckets := FileValue(buckets, b[j].value, width, j);
        forall k: nat | k < j
          ensures FiledAll(buckets, b, width, k)
        {
          assert FiledAll(before, b, width, k);
          if b[k].Some? {
            forall p: nat, q: nat | p < q < 8
              ensures Filed(buckets, b[k].value, width, k, p, q)
            {
              assert Filed(before, b[k].value, width, k, p, q);
            }
          }
        }
      }
    }
  }

  /** Offsets at which value `x` at position `i` meets an indexed value. */
  ghost predicate Meets(buckets: map<Key, seq<nat>>, x: nat, width: nat, i: int, p: nat, q: nat, offsets: set<int>)
  {
    forall j :: KeyOf(x, width, p, q) in buckets && j in buckets[KeyOf(x, width, p, q)] ==> j - i in offsets
  }

  method Probe(buckets: map<Key, seq<nat>>, x: nat, width: nat, i: int, offsets0: set<int>) returns (offsets: set<int>)
    ensures offsets0 <= offsets
    ensures forall p: nat, q: nat :: p < q < 8 ==> Meets(buckets, x, width, i, p, q, offsets)
  {
    offsets := offsets0;
    for p := 0 to 8
      invariant offsets0 <= offsets
      invariant forall p': nat, q: nat :: p' < p && p' < q < 8 ==> Meets(buckets, x, width, i, p', q, offsets)
    {
      for q := p + 1 to 8
        invariant offsets0 <= offsets
        invariant forall p': nat, q': nat :: p' < p && p' < q' < 8 ==> Meets(buckets, x, width, i, p', q', offsets)
        invariant forall q': nat :: p < q' < q ==> Meets(buckets, x, width, i, p, q', offsets)
      {
        ghost var before := offsets;
        var key := KeyOf(x, width, p, q);
        var locations := if key in buckets then buckets[key] else [];
        offsets := offsets + set j | j in locations :: j - i;
        forall p': nat, q': nat | Meets(buckets, x, width, i, p', q', before)
          ensures Meets(buckets, x, width, i, p', q', offsets)
        {
        }
      }
    }
  }

  /** No close pair of positions escapes the collected offsets. */
  ghost predicate Collected(a: Track, b: Track, distance: nat, offsets: set<int>)
  {
    forall i: nat, j: nat :: i < |a| && j < |b| && Close(a[i], b[j], distance) ==> j - i in offsets
  }

  method Offsets(a: Track, b: Track, width: nat) returns (offsets: set<int>)
    ensures Collected(a, b, 6, offsets)
  {
    var buckets := Index(b, width);
    offsets := {};
    for i := 0 to |a|
      invariant forall k: nat :: k < i && a[k].Some? ==>
                  forall p: nat, q: nat :: p < q < 8 ==> Meets(buckets, a[k].value, width, k, p, q, offsets)
    {
      if a[i].Some? {
        ghost var before := offsets;
        offsets := Probe(buckets, a[i].value, width, i, offsets);
        forall k: nat, p: nat, q: nat | k < i && a[k].Some? && p < q < 8
          ensures Meets(buckets, a[k].value, width, k, p, q, offsets)
        {
          assert Meets(buckets, a[k].value, width, k, p, q, before);
        }
      }
    }
    forall i: nat, j: nat | i < |a| && j < |b| && Close(a[i], b[j], 6)
      ensures j - i in offsets
    {
      assert a[i].Some? && b[j].Some?;
      var p, q := Pigeonhole(a[i].value, b[j].value, width);
      assert FiledAll(buckets, b, width, j);
      assert Filed(buckets, b[j].value, width, j, p, q);
      assert Meets(buckets, a[i].value, width, i, p, q, offsets);
      assert KeyOf(a[i].value, width, p, q) == KeyOf(b[j].value, width, p, q);
    }
  }

  // ---------------------------------------------------------------- scanning one offset

  /** Eight close positions in a row end before `i` at this offset. */
  ghost predicate RunBefore(a: Track, b: Track, distance: nat, delta: int, i: int)
  {
    exists s :: s + MIN_ALIGNED <= i && AlignedAt(a, b, distance, s, delta)
  }

  method Scan(a: Track, b: Track, distance: nat, delta: int) returns (found: bool)
    ensures found <==> exists s :: AlignedAt(a, b, distance, s, delta)
  {
    var lo, hi := MaxInt(0, -delta), MinInt(|a|, |b| - delta);
    var run := 0;
    var i := lo;
    NoRunYet(a, b, distance, delta);
    while i < hi
      invariant lo <= i && (i <= hi || i == lo) && 0 <= run < MIN_ALIGNED && run <= i - lo
      invariant forall k :: i - run <= k < i ==> CloseAt(a, b, distance, delta, k)
      invariant !CloseAt(a, b, distance, delta, i - run - 1)
      invariant !RunBefore(a, b, distance, delta, i)
    {
      run := if Close(a[i], b[i + delta], distance) then run + 1 else 0;
      if run >= MIN_ALIGNED {
        assert AlignedAt(a, b, distance, i + 1 - MIN_ALIGNED, delta);
        return true;
      }
      NoNewRun(a, b, distance, delta, i, run);
      i := i + 1;
    }
    forall s
      ensures !AlignedAt(a, b, distance, s, delta)
    {
      if s + MIN_ALIGNED > i {
        assert !CloseAt(a, b, distance, delta, s + MIN_ALIGNED - 1);
      }
    }
    return false;
  }

  lemma NoRunYet(a: Track, b: Track, distance: nat, delta: int)
    ensures !RunBefore(a, b, distance, delta, MaxInt(0, -delta))
  {
    forall s | s + MIN_ALIGNED <= MaxInt(0, -delta)
      ensures !AlignedAt(a, b, distance, s, delta)
    {
      assert !CloseAt(a, b, distance, delta, s + MIN_ALIGNED - 1);
    }
  }

  lemma NoNewRun(a: Track, b: Track, distance: nat, delta: int, i: int, run: int)
    requires 0 <= run < MIN_ALIGNED && !CloseAt(a, b, distance, delta, i - run)
    requires !RunBefore(a, b, distance, delta, i)
    ensures !RunBefore(a, b, distance, delta, i + 1)
  {
    forall s | s + MIN_ALIGNED <= i + 1
      ensures !AlignedAt(a, b, distance, s, delta)
    {
    }
  }

  // ---------------------------------------------------------------- main result

  method ScanAll(a: Track, b: Track, distance: nat, offsets: set<int>) returns (found: bool)
    ensures found <==> exists delta, s :: delta in offsets && AlignedAt(a, b, distance, s, delta)
  {
    var todo := offsets;
    while todo != {}
      invariant todo <= offsets
      invariant forall delta, s :: delta in offsets && delta !in todo ==> !AlignedAt(a, b, distance, s, delta)
      decreases |todo|
    {
      var offset := AnyOf(todo);
      found := Scan(a, b, distance, offset);
      if found {
        return;
      }
      todo := todo - {offset};
    }
    found := false;
  }

  /**
   The indexed search is sound for every distance, and complete for distances up to
   six: it answers exactly what comparing all pairs of positions would answer.
   */
  method Matches(a: Track, b: Track, width: nat, distance: nat) returns (found: bool)
    ensures found ==> Aligned(a, b, distance)
    ensures distance <= 6 ==> (found <==> Aligned(a, b, distance))
  {
    var offsets := Offsets(a, b, width / 8);
    found := ScanAll(a, b, distance, offsets);
    if distance <= 6 && !found {
      NothingMissed(a, b, distance, offsets);
    }
  }

  lemma NothingMissed(a: Track, b: Track, distance: nat, offsets: set<int>)
    requires distance <= 6 && Collected(a, b, 6, offsets)
    requires forall delta, s :: delta in offsets ==> !AlignedAt(a, b, distance, s, delta)
    ensures !Aligned(a, b, distance)
  {
    forall s, delta
      ensures !AlignedAt(a, b, distance, s, delta)
    {
      if CloseAt(a, b, distance, delta, s) {
        assert Close(a[s], b[s + delta], 6);
        assert s + delta - s in offsets;
      }
    }
  }

  /** Near-duplication is symmetric. */
  lemma AlignedSymmetric(a: Track, b: Track, distance: nat)
    requires Aligned(a, b, distance)
    ensures Aligned(b, a, distance)
  {
    var s, delta :| AlignedAt(a, b, distance, s, delta);
    var t, back := s + delta, -delta;
    forall i | t <= i < t + MIN_ALIGNED
      ensures CloseAt(b, a, distance, back, i)
    {
      assert CloseAt(a, b, distance, delta, i - delta);
      DistanceSymmetric(a[i - delta].value, b[i].value);
    }
    assert AlignedAt(b, a, distance, t, back);
  }
}
