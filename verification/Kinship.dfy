/**
 Which sources are kin, said of their fields and the bits of their fingerprints, and what that
 makes of groups and splits.
 */
module Kinship {
  import opened Common
  import opened Catalog
  import opened Chains
  import opened Fingerprints
  import Ordering

  // ---------------------------------------------------------------- bits that differ

  function Pow2(n: nat): (r: nat)
    ensures r > 0
  {
    if n == 0 then 1 else 2 * Pow2(n - 1)
  }

  /** Bit `i` of a number. */
  function Bit(x: nat, i: nat): nat { x / Pow2(i) % 2 }

  /** The bits below `n` in which two numbers differ. */
  ghost function Different(x: nat, y: nat, n: nat): set<nat>
  {
    set i | 0 <= i < n && Bit(x, i) != Bit(y, i)
  }

  /** The same, counted from the highest bit down. */
  function Tally(x: nat, y: nat, n: nat): nat
  {
    if n == 0 then 0 else Tally(x, y, n - 1) + if Bit(x, n - 1) != Bit(y, n - 1) then 1 else 0
  }

  lemma {:induction false} TallyIsSize(x: nat, y: nat, n: nat)
    ensures |Different(x, y, n)| == Tally(x, y, n)
    decreases n
  {
    hide Bit;
    if n == 0 {
      assert Different(x, y, 0) == {};
    } else {
      TallyIsSize(x, y, n - 1);
      var all, below := Different(x, y, n), Different(x, y, n - 1);
      assert all == if Bit(x, n - 1) != Bit(y, n - 1) then below + {n - 1} else below;
      assert n - 1 !in below;
    }
  }

  lemma DivideTwice(x: nat, p: nat)
    requires p > 0
    ensures x / (2 * p) == x / 2 / p
  {
    var q, r := x / 2 / p, x / 2 % p;
    assert x / 2 == q * p + r;
    assert x == 2 * (x / 2) + x % 2;
    var rest := 2 * r + x % 2;
    assert x == q * (2 * p) + rest by {
      assert 2 * (q * p) == q * (2 * p);
    }
    assert 0 <= rest < 2 * p;
    Quotient(x, 2 * p, q, rest);
  }

  lemma Quotient(x: nat, d: nat, q: nat, r: nat)
    requires d > 0 && x == q * d + r && r < d
    ensures x / d == q
  {
    var e := x / d;
    assert x == e * d + x % d;
    assert (e + 1) * d == e * d + d && (q + 1) * d == q * d + d;
    Cancel(e, q + 1, d);
    Cancel(q, e + 1, d);
  }

  lemma Cancel(a: nat, b: nat, d: nat)
    requires d > 0 && a * d < b * d
    ensures a < b
  {
  }

  lemma HigherBit(x: nat, i: nat)
    ensures Bit(x, i + 1) == Bit(x / 2, i) && Bit(x, 0) == x % 2
  {
    DivideTwice(x, Pow2(i));
  }

  lemma {:induction false} LowestFirst(x: nat, y: nat, n: nat)
    ensures Tally(x, y, n + 1) == (if x % 2 == y % 2 then 0 else 1) + Tally(x / 2, y / 2, n)
    decreases n
  {
    hide Bit;
    HigherBit(x, n);
    HigherBit(y, n);
    if n > 0 {
      LowestFirst(x, y, n - 1);
      HigherBit(x, n - 1);
      HigherBit(y, n - 1);
    }
  }

  /** The distance of two fingerprints is the number of bits in which they differ. */
  lemma {:induction false} DistanceCountsBits(x: nat, y: nat, n: nat)
    requires x < Pow2(n) && y < Pow2(n)
    ensures Distance(x, y) == |Different(x, y, n)|
    decreases n
  {
    TallyIsSize(x, y, n);
    hide Bit, Different, BitCount, Xor;
    if n == 0 {
      SameDistance(x);
    } else {
      DistanceStep(x, y);
      LowestFirst(x, y, n - 1);
      TallyIsSize(x / 2, y / 2, n - 1);
      DistanceCountsBits(x / 2, y / 2, n - 1);
    }
  }

  lemma SameDistance(x: nat)
    requires x == 0
    ensures Distance(x, x) == 0
  {
  }

  // ---------------------------------------------------------------- kin

  /** Both seconds tell something, and few bits differ; `n` bounds the width of both. */
  ghost predicate Near(x: Option<nat>, y: Option<nat>, most: nat)
  {
    x.Some? && y.Some? &&
    exists n :: x.value < Pow2(n) && y.value < Pow2(n) && |Different(x.value, y.value, n)| <= most
  }

  /** Eight seconds in a row are near, from second `s` of one track and second `t` of the other. */
  ghost predicate Runs(a: Track, b: Track, most: nat, s: nat, t: nat)
  {
    forall k :: 0 <= k < 8 ==> NearAt(a, b, most, s, t, k)
  }

  ghost predicate NearAt(a: Track, b: Track, most: nat, s: nat, t: nat, k: nat)
  {
    s + k < |a| && t + k < |b| && Near(a[s + k], b[t + k], most)
  }

  /** The same file, parent and child, the same named creator, or the same eight seconds to see or hear. */
  ghost predicate Kin(a: Source, b: Source)
  {
    || a.id == b.id || a.sha256 == b.sha256 || b.id in a.parents || a.id in b.parents
    || (a.creator == b.creator && a.creator != "")
    || (exists s, t :: Runs(a.visual, b.visual, 6, s, t))
    || (exists s, t :: Runs(a.audio, b.audio, 5, s, t))
  }

  lemma {:induction false} Bounded(x: nat, y: nat) returns (n: nat)
    ensures x < Pow2(n) && y < Pow2(n)
    decreases x + y
  {
    if x == 0 && y == 0 {
      n := 0;
    } else {
      var m := Bounded(x / 2, y / 2);
      n := m + 1;
    }
  }

  lemma NearMeans(x: Option<nat>, y: Option<nat>, most: nat)
    ensures Close(x, y, most) <==> Near(x, y, most)
  {
    hide Distance, Different;
    if x.Some? && y.Some? {
      forall n | x.value < Pow2(n) && y.value < Pow2(n)
        ensures Distance(x.value, y.value) == |Different(x.value, y.value, n)|
      {
        DistanceCountsBits(x.value, y.value, n);
      }
      var m := Bounded(x.value, y.value);
    }
  }

  lemma RunsMean(a: Track, b: Track, most: nat, s: nat, t: nat)
    ensures Runs(a, b, most, s, t) <==> AlignedAt(a, b, most, s, t - s)
  {
    hide Close, Near;
    forall x, y
      ensures Close(x, y, most) <==> Near(x, y, most)
    {
      NearMeans(x, y, most);
    }
    forall k: nat | k < 8
      ensures NearAt(a, b, most, s, t, k) <==> CloseAt(a, b, most, t - s, s + k)
    {
    }
    if Runs(a, b, most, s, t) {
      var delta := t - s;
      forall i | s <= i < s + 8
        ensures CloseAt(a, b, most, delta, i)
      {
        assert NearAt(a, b, most, s, t, i - s);
      }
    }
    if AlignedAt(a, b, most, s, t - s) {
      forall k: nat | k < 8
        ensures NearAt(a, b, most, s, t, k)
      {
        assert CloseAt(a, b, most, t - s, s + k);
      }
    }
  }

  lemma AlignedMeans(a: Track, b: Track, most: nat)
    ensures Aligned(a, b, most) <==> exists s, t :: Runs(a, b, most, s, t)
  {
    hide Runs, AlignedAt;
    if s, delta :| AlignedAt(a, b, most, s, delta) {
      AlignedInside(a, b, most, s, delta);
      RunsMean(a, b, most, s, s + delta);
    }
    if s: nat, t: nat :| Runs(a, b, most, s, t) {
      RunsMean(a, b, most, s, t);
    }
  }

  lemma AlignedInside(a: Track, b: Track, most: nat, s: int, delta: int)
    requires AlignedAt(a, b, most, s, delta)
    ensures s >= 0 && s + delta >= 0
  {
    assert CloseAt(a, b, most, delta, s);
  }

  lemma RelatedMeans(a: Source, b: Source)
    ensures Related(a, b) <==> Kin(a, b)
  {
    AlignedMeans(a.visual, b.visual, 6);
    AlignedMeans(a.audio, b.audio, 5);
    hide Aligned, Runs;
  }

  // ---------------------------------------------------------------- chains of kin

  /** Neighbouring ids of the path belong to kin. */
  ghost predicate KinPath(sources: seq<Source>, path: seq<string>, x: string, y: string)
  {
    path != [] && path[0] == x && path[|path| - 1] == y
      && forall i :: 0 < i < |path| ==> KinIds(sources, path[i - 1], path[i])
  }

  ghost predicate KinIds(sources: seq<Source>, x: string, y: string)
  {
    exists s, t :: s in sources && t in sources && s.id == x && t.id == y && Kin(s, t)
  }

  lemma AdjacentMeans(sources: seq<Source>, x: string, y: string)
    ensures Adjacent(Lineage(sources), x, y) <==> KinIds(sources, x, y)
  {
    hide Related, Kin;
    forall s, t
      ensures Related(s, t) <==> Kin(s, t)
      ensures Kin(s, t) <==> Kin(t, s)
    {
      RelatedMeans(s, t);
      RelatedMeans(t, s);
      RelatedSymmetric(s, t);
    }
  }

  lemma LinkedMeans(sources: seq<Source>, x: string, y: string)
    ensures Linked(Lineage(sources), x, y) <==> exists path :: KinPath(sources, path, x, y)
  {
    hide Lineage, Adjacent, KinIds;
    forall u, v
      ensures Adjacent(Lineage(sources), u, v) <==> KinIds(sources, u, v)
    {
      AdjacentMeans(sources, u, v);
    }
    if path :| Path(Lineage(sources), path, x, y) {
      assert KinPath(sources, path, x, y);
    }
    if path :| KinPath(sources, path, x, y) {
      assert Path(Lineage(sources), path, x, y);
    }
  }

  /** Two ids share a group exactly when a path of kin joins them, and the group is the least id so joined. */
  lemma GroupsMean(sources: seq<Source>, groups: map<string, string>, x: string, y: string)
    requires Grouping(sources, groups) && x in groups && y in groups
    ensures groups[x] == groups[y] <==> exists path :: KinPath(sources, path, x, y)
    ensures exists path :: KinPath(sources, path, x, groups[x])
    ensures (exists path :: KinPath(sources, path, x, y)) ==> y == groups[x] || Ordering.Less(groups[x], y)
  {
    GroupsAreComponents(sources, groups, x, y);
    LinkedMeans(sources, x, y);
    LinkedMeans(sources, x, groups[x]);
    assert SmallestLinked(sources, groups[x], x);
    hide Linked, KinPath;
  }

  /** A catalogue is refused for its splits exactly when a path of kin leads from one usable split into another. */
  lemma CrossingMeans(sources: seq<Source>, splits: map<string, Split>)
    requires splits.Keys == Ids(sources)
    ensures SplitsClosed(sources, splits) <==>
      forall x, y, path ::
        (x in splits && y in splits && KinPath(sources, path, x, y)
         && splits[x] != Quarantine && splits[y] != Quarantine) ==> splits[x] == splits[y]
  {
    hide Linked, KinPath;
    forall x, y
      ensures Linked(Lineage(sources), x, y) <==> exists path :: KinPath(sources, path, x, y)
    {
      LinkedMeans(sources, x, y);
    }
  }
}
