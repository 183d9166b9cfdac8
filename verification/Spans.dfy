/**
 Time spans of claims and facts: merging into canonical form, length of a union and
 length of the intersection of two unions. Points are half-open: `[start, end)`.

 The reference for every length is `MeasureOn`: cut the line at finitely many points
 and add up the cells whose left end is covered.
 */
module Spans {
  import opened Common
  import opened Rationals

  datatype Span = Span(start: real, end: real)

  predicate Leq(a: Span, b: Span)
  {
    a.start < b.start || (a.start == b.start && a.end <= b.end)
  }

  predicate Sorted(spans: seq<Span>)
  {
    forall i, j :: 0 <= i < j < |spans| ==> Leq(spans[i], spans[j])
  }

  function Insert(x: Span, spans: seq<Span>): seq<Span>
  {
    if spans == [] || Leq(x, spans[0]) then [x] + spans else [spans[0]] + Insert(x, spans[1..])
  }

  /** The `sorted` builtin on pairs of numbers. */
  function Sort(spans: seq<Span>): seq<Span>
  {
    if spans == [] then [] else Insert(spans[0], Sort(spans[1..]))
  }

  /** One step of the merge over the spans in ascending order. */
  function Absorb(done: seq<Span>, s: Span): seq<Span>
  {
    if s.end <= s.start then done
    else if done != [] && s.start <= done[|done| - 1].end then
      done[|done| - 1 := Span(done[|done| - 1].start, Max(s.end, done[|done| - 1].end))]
    else done + [s]
  }

  function Merge(sorted: seq<Span>): seq<Span>
  {
    if sorted == [] then [] else Absorb(Merge(sorted[..|sorted| - 1]), sorted[|sorted| - 1])
  }

  function Canon(spans: seq<Span>): seq<Span> { Merge(Sort(spans)) }

  function Total(spans: seq<Span>): real
  {
    if spans == [] then 0.0
    else Total(spans[..|spans| - 1]) + (spans[|spans| - 1].end - spans[|spans| - 1].start)
  }

  function Length(spans: seq<Span>): real { Total(Canon(spans)) }

  /** Pairwise overlaps of one span with a list; empty overlaps are kept, as in the program. */
  function MeetOne(a: Span, right: seq<Span>): (r: seq<Span>)
    ensures |r| == |right|
    ensures forall i :: 0 <= i < |r| ==> r[i] == Span(Max(a.start, right[i].start), Min(a.end, right[i].end))
  {
    if right == [] then []
    else [Span(Max(a.start, right[0].start), Min(a.end, right[0].end))] + MeetOne(a, right[1..])
  }

  function MeetAll(left: seq<Span>, right: seq<Span>): seq<Span>
  {
    if left == [] then [] else MeetOne(left[0], right) + MeetAll(left[1..], right)
  }

  function Intersection(left: seq<Span>, right: seq<Span>): real
  {
    Length(MeetAll(Canon(left), Canon(right)))
  }

  // ---------------------------------------------------------------- the loop of the program

  method Intervals(spans: seq<Span>) returns (result: seq<Span>)
    ensures result == Canon(spans)
    ensures Canonical(result) && Covered(result) == Covered(spans)
  {
    var sorted := Sort(spans);
    result := [];
    for i := 0 to |sorted|
      invariant result == Merge(sorted[..i])
    {
      var s := sorted[i];
      assert sorted[..i + 1][..i] == sorted[..i];
      if s.end > s.start {
        if result != [] && s.start <= result[|result| - 1].end {
          var last := result[|result| - 1];
          result := result[|result| - 1 := Span(last.start, Max(s.end, last.end))];
        } else {
          result := result + [s];
        }
      }
    }
    assert sorted[..|sorted|] == sorted;
    CanonIsCanonical(spans);
  }

  // ---------------------------------------------------------------- points and reference measure

  ghost predicate Holds(s: Span, x: real) { s.start <= x < s.end }

  ghost function Covered(spans: seq<Span>): iset<real>
  {
    iset x: real | In(spans, x)
  }

  ghost predicate In(spans: seq<Span>, x: real)
  {
    exists i :: 0 <= i < |spans| && Holds(spans[i], x)
  }

  ghost function PointsOf(s: Span): iset<real>
  {
    iset x: real | Holds(s, x)
  }

  /** Sorted, nonempty and strictly separated spans. */
  ghost predicate Canonical(spans: seq<Span>)
  {
    && (forall i :: 0 <= i < |spans| ==> spans[i].start < spans[i].end)
    && (forall i, j :: 0 <= i < j < |spans| ==> spans[i].end < spans[j].start)
  }

  ghost predicate Ascending(cuts: seq<real>)
  {
    forall i, j :: 0 <= i < j < |cuts| ==> cuts[i] <= cuts[j]
  }

  ghost function MeasureOn(cuts: seq<real>, points: iset<real>): real
  {
    if |cuts| < 2 then 0.0
    else (if cuts[0] in points then cuts[1] - cuts[0] else 0.0) + MeasureOn(cuts[1..], points)
  }

  /** Every endpoint of a nonempty span is a cut. */
  ghost predicate Resolves(cuts: seq<real>, spans: seq<Span>)
  {
    && Ascending(cuts)
    && forall i :: 0 <= i < |spans| && spans[i].start < spans[i].end ==>
                     spans[i].start in cuts && spans[i].end in cuts
  }

  // ---------------------------------------------------------------- canonical form

  ghost predicate Reaches(spans: seq<Span>, bound: real)
  {
    forall i :: 0 <= i < |spans| ==> spans[i].start <= bound
  }

  ghost predicate EndpointsOf(a: seq<Span>, b: seq<Span>)
  {
    forall i :: 0 <= i < |a| ==>
      (exists j :: 0 <= j < |b| && b[j].start < b[j].end && b[j].start == a[i].start) &&
      (exists j :: 0 <= j < |b| && b[j].start < b[j].end && b[j].end == a[i].end)
  }

  lemma CoveredAppend(spans: seq<Span>, s: Span)
    ensures Covered(spans + [s]) == Covered(spans) + PointsOf(s)
  {
    forall x: real
      ensures x in Covered(spans + [s]) <==> x in Covered(spans) || Holds(s, x)
    {
      if x in Covered(spans) {
        var i :| 0 <= i < |spans| && Holds(spans[i], x);
        assert Holds((spans + [s])[i], x);
      }
      if Holds(s, x) {
        assert Holds((spans + [s])[|spans|], x);
      }
      if x in Covered(spans + [s]) && !Holds(s, x) {
        var i :| 0 <= i < |spans + [s]| && Holds((spans + [s])[i], x);
        assert Holds(spans[i], x);
      }
    }
  }

  lemma AbsorbShape(done: seq<Span>, s: Span)
    requires Canonical(done) && Reaches(done, s.start)
    ensures Canonical(Absorb(done, s)) && Reaches(Absorb(done, s), s.start)
  {
  }

  lemma AbsorbKeeps(done: seq<Span>, s: Span)
    requires Reaches(done, s.start)
    ensures Covered(Absorb(done, s)) == Covered(done) + PointsOf(s)
  {
    CoveredAppend(done, s);
    if s.end <= s.start {
      assert PointsOf(s) == iset{};
    } else if done != [] && s.start <= done[|done| - 1].end {
      var n := |done| - 1;
      var joined := Span(done[n].start, Max(s.end, done[n].end));
      CoveredAppend(done[..n], done[n]);
      CoveredAppend(done[..n], joined);
      assert done == done[..n] + [done[n]] && Absorb(done, s) == done[..n] + [joined];
      assert PointsOf(joined) == PointsOf(done[n]) + PointsOf(s);
    }
  }

  lemma AbsorbEndpoints(done: seq<Span>, s: Span, all: seq<Span>)
    requires EndpointsOf(done, all)
    requires s.start < s.end ==> s in all
    ensures EndpointsOf(Absorb(done, s), all)
  {
    if s.start < s.end {
      var j :| 0 <= j < |all| && all[j] == s;
    }
  }

  lemma {:induction false} MergeKeeps(sorted: seq<Span>, all: seq<Span>)
    requires Sorted(sorted) && forall s :: s in sorted ==> s in all
    ensures Canonical(Merge(sorted)) && Covered(Merge(sorted)) == Covered(sorted)
    ensures sorted != [] ==> Reaches(Merge(sorted), sorted[|sorted| - 1].start)
    ensures EndpointsOf(Merge(sorted), all)
    decreases |sorted|
  {
    if sorted != [] {
      var n := |sorted| - 1;
      MergeKeeps(sorted[..n], all);
      assert Reaches(Merge(sorted[..n]), sorted[n].start);
      AbsorbShape(Merge(sorted[..n]), sorted[n]);
      AbsorbKeeps(Merge(sorted[..n]), sorted[n]);
      AbsorbEndpoints(Merge(sorted[..n]), sorted[n], all);
      CoveredAppend(sorted[..n], sorted[n]);
      assert sorted == sorted[..n] + [sorted[n]];
    }
  }

  lemma CoveredMembers(a: seq<Span>, b: seq<Span>)
    requires forall s :: s in a ==> s in b
    ensures Covered(a) <= Covered(b)
  {
    forall x | x in Covered(a)
      ensures x in Covered(b)
    {
      var i :| 0 <= i < |a| && Holds(a[i], x);
      assert a[i] in b;
      var j :| 0 <= j < |b| && b[j] == a[i];
      assert Holds(b[j], x);
    }
  }

  lemma {:induction false} InsertSorts(x: Span, spans: seq<Span>)
    requires Sorted(spans)
    ensures Sorted(Insert(x, spans))
    ensures forall y :: y in Insert(x, spans) <==> y == x || y in spans
    decreases |spans|
  {
    if spans != [] && !Leq(x, spans[0]) {
      var rest := Insert(x, spans[1..]);
      InsertSorts(x, spans[1..]);
      assert spans == [spans[0]] + spans[1..];
      forall k | 0 <= k < |rest|
        ensures Leq(spans[0], rest[k])
      {
        assert rest[k] in rest;
      }
    }
  }

  lemma {:induction false} SortSorts(spans: seq<Span>)
    ensures Sorted(Sort(spans))
    ensures forall s :: s in Sort(spans) <==> s in spans
    decreases |spans|
  {
    if spans != [] {
      SortSorts(spans[1..]);
      InsertSorts(spans[0], Sort(spans[1..]));
      assert spans == [spans[0]] + spans[1..];
    }
  }

  /** The merge yields sorted, strictly separated spans with exactly the input's points. */
  lemma CanonIsCanonical(spans: seq<Span>)
    ensures Canonical(Canon(spans)) && Covered(Canon(spans)) == Covered(spans)
    ensures EndpointsOf(Canon(spans), spans)
  {
    SortSorts(spans);
    MergeKeeps(Sort(spans), spans);
    CoveredMembers(Sort(spans), spans);
    CoveredMembers(spans, Sort(spans));
  }

  // ---------------------------------------------------------------- the reference measure

  /** The measure of one span, for cuts that start inside or before it. */
  lemma {:induction false} MeasureTail(cuts: seq<real>, s: Span)
    requires Ascending(cuts) && cuts != [] && s.start <= cuts[0] <= s.end && s.end in cuts
    ensures MeasureOn(cuts, PointsOf(s)) == s.end - cuts[0]
    decreases |cuts|
  {
    var points := PointsOf(s);
    if cuts[0] == s.end {
      MeasureNone(cuts, points);
    } else {
      assert s.end in cuts[1..];
      MeasureTail(cuts[1..], s);
    }
  }

  lemma {:induction false} MeasureNone(cuts: seq<real>, points: iset<real>)
    requires forall i :: 0 <= i < |cuts| ==> cuts[i] !in points
    ensures MeasureOn(cuts, points) == 0.0
    decreases |cuts|
  {
    if |cuts| >= 2 {
      MeasureNone(cuts[1..], points);
    }
  }

  lemma {:induction false} MeasureOfSpan(cuts: seq<real>, s: Span)
    requires Ascending(cuts) && s.start < s.end && s.start in cuts && s.end in cuts
    ensures MeasureOn(cuts, PointsOf(s)) == s.end - s.start
    decreases |cuts|
  {
    if cuts[0] == s.start {
      MeasureTail(cuts, s);
    } else {
      assert s.start in cuts[1..] && s.end in cuts[1..];
      MeasureOfSpan(cuts[1..], s);
      assert cuts[0] < s.start by {
        var i :| 0 <= i < |cuts| && cuts[i] == s.start;
      }
    }
  }

  /** The reference measure is modular, so inclusion and exclusion balance. */
  lemma {:induction false} MeasureModular(cuts: seq<real>, p: iset<real>, q: iset<real>)
    ensures MeasureOn(cuts, p + q) + MeasureOn(cuts, p * q) == MeasureOn(cuts, p) + MeasureOn(cuts, q)
    decreases |cuts|
  {
    if |cuts| >= 2 {
      MeasureModular(cuts[1..], p, q);
    }
  }

  lemma {:induction false} MeasureMonotone(cuts: seq<real>, p: iset<real>, q: iset<real>)
    requires Ascending(cuts) && p <= q
    ensures 0.0 <= MeasureOn(cuts, p) <= MeasureOn(cuts, q)
    decreases |cuts|
  {
    if |cuts| >= 2 {
      MeasureMonotone(cuts[1..], p, q);
    }
  }

  lemma {:induction false} MeasureDisjoint(cuts: seq<real>, p: iset<real>, q: iset<real>)
    requires p !! q
    ensures MeasureOn(cuts, p + q) == MeasureOn(cuts, p) + MeasureOn(cuts, q)
    decreases |cuts|
  {
    if |cuts| >= 2 {
      MeasureDisjoint(cuts[1..], p, q);
    }
  }

  lemma LastIsApart(spans: seq<Span>)
    requires Canonical(spans) && spans != []
    ensures var n := |spans| - 1;
            Canonical(spans[..n]) && Covered(spans) == Covered(spans[..n]) + PointsOf(spans[n]) &&
            Covered(spans[..n]) !! PointsOf(spans[n])
  {
    var n := |spans| - 1;
    CoveredAppend(spans[..n], spans[n]);
    assert spans == spans[..n] + [spans[n]];
  }

  lemma {:induction false} TotalIsMeasure(spans: seq<Span>, cuts: seq<real>)
    requires Canonical(spans) && Resolves(cuts, spans)
    ensures Total(spans) == MeasureOn(cuts, Covered(spans))
    decreases |spans|
  {
    if spans == [] {
      MeasureNone(cuts, Covered(spans));
    } else {
      var n := |spans| - 1;
      assert spans[n].start < spans[n].end && spans[n].start in cuts && spans[n].end in cuts;
      MeasureOfSpan(cuts, spans[n]);
      LastIsApart(spans);
      TotalIsMeasure(spans[..n], cuts);
      MeasureDisjoint(cuts, Covered(spans[..n]), PointsOf(spans[n]));
    }
  }

  /** `length` is the measure of the union, whatever cut points are used to measure it. */
  lemma LengthIsMeasure(spans: seq<Span>, cuts: seq<real>)
    requires Resolves(cuts, spans)
    ensures Length(spans) == MeasureOn(cuts, Covered(spans))
  {
    CanonIsCanonical(spans);
    TotalIsMeasure(Canon(spans), cuts);
  }

  lemma {:induction false} SortCuts(xs: seq<real>) returns (cuts: seq<real>)
    ensures Ascending(cuts) && forall x :: x in cuts <==> x in xs
  {
    if xs == [] {
      cuts := [];
    } else {
      var rest := SortCuts(xs[1..]);
      cuts := InsertCut(xs[0], rest);
      assert xs == [xs[0]] + xs[1..];
    }
  }

  lemma {:induction false} InsertCut(x: real, xs: seq<real>) returns (cuts: seq<real>)
    requires Ascending(xs)
    ensures Ascending(cuts) && forall y :: y in cuts <==> y == x || y in xs
  {
    if xs == [] || x <= xs[0] {
      cuts := [x] + xs;
    } else {
      var rest := InsertCut(x, xs[1..]);
      cuts := [xs[0]] + rest;
      assert xs == [xs[0]] + xs[1..];
      forall k | 0 <= k < |rest|
        ensures xs[0] <= rest[k]
      {
        assert rest[k] in rest;
      }
    }
  }

  ghost function Endpoints(spans: seq<Span>): (r: seq<real>)
    ensures forall s :: s in spans ==> s.start in r && s.end in r
  {
    if spans == [] then []
    else
      assert forall s :: s in spans ==> s == spans[0] || s in spans[1..];
      [spans[0].start, spans[0].end] + Endpoints(spans[1..])
  }

  /** Common cut points for two lists of spans. */
  lemma CutsFor(a: seq<Span>, b: seq<Span>) returns (cuts: seq<real>)
    ensures Resolves(cuts, a) && Resolves(cuts, b)
  {
    cuts := SortCuts(Endpoints(a) + Endpoints(b));
  }

  // ---------------------------------------------------------------- main results

  /** Reordering, duplicating and splitting spans keep the points, hence the length. */
  lemma LengthDependsOnPoints(a: seq<Span>, b: seq<Span>)
    requires Covered(a) == Covered(b)
    ensures Length(a) == Length(b)
  {
    var cuts := CutsFor(a, b);
    LengthIsMeasure(a, cuts);
    LengthIsMeasure(b, cuts);
  }

  lemma MeetOneCovers(a: Span, right: seq<Span>)
    ensures Covered(MeetOne(a, right)) == PointsOf(a) * Covered(right)
  {
    var meet := MeetOne(a, right);
    forall x: real
      ensures In(meet, x) <==> Holds(a, x) && In(right, x)
    {
      if In(meet, x) {
        var j :| 0 <= j < |meet| && Holds(meet[j], x);
        assert Holds(right[j], x);
      }
      if Holds(a, x) && In(right, x) {
        var j :| 0 <= j < |right| && Holds(right[j], x);
        assert Holds(meet[j], x);
      }
    }
  }

  lemma {:induction false} MeetAllCovers(left: seq<Span>, right: seq<Span>)
    ensures Covered(MeetAll(left, right)) == Covered(left) * Covered(right)
    decreases |left|
  {
    if left != [] {
      MeetOneCovers(left[0], right);
      MeetAllCovers(left[1..], right);
      CoveredConcat(MeetOne(left[0], right), MeetAll(left[1..], right));
      CoveredConcat([left[0]], left[1..]);
      CoveredAppend([], left[0]);
      assert [] + [left[0]] == [left[0]] && [left[0]] + left[1..] == left;
    }
  }

  lemma OverlapPoints(left: seq<Span>, right: seq<Span>)
    ensures Covered(MeetAll(Canon(left), Canon(right))) == Covered(left) * Covered(right)
  {
    MeetAllCovers(Canon(left), Canon(right));
    CanonIsCanonical(left);
    CanonIsCanonical(right);
  }

  lemma {:induction false} ResolvesMeet(left: seq<Span>, right: seq<Span>, cuts: seq<real>)
    requires Resolves(cuts, left) && Resolves(cuts, right)
    ensures Resolves(cuts, MeetAll(left, right))
    decreases |left|
  {
    if left != [] {
      ResolvesMeet(left[1..], right, cuts);
      assert Resolves(cuts, MeetOne(left[0], right));
    }
  }

  /** `intersection` is the measure of the points common to both unions. */
  lemma IntersectionIsMeasure(left: seq<Span>, right: seq<Span>, cuts: seq<real>)
    requires Resolves(cuts, left) && Resolves(cuts, right)
    ensures Intersection(left, right) == MeasureOn(cuts, Covered(left) * Covered(right))
  {
    CanonIsCanonical(left);
    CanonIsCanonical(right);
    ResolvesMeet(Canon(left), Canon(right), cuts);
    LengthIsMeasure(MeetAll(Canon(left), Canon(right)), cuts);
    OverlapPoints(left, right);
  }

  lemma CoveredConcat(a: seq<Span>, b: seq<Span>)
    ensures Covered(a + b) == Covered(a) + Covered(b)
  {
    CoveredMembers(a, a + b);
    CoveredMembers(b, a + b);
    forall x | x in Covered(a + b)
      ensures x in Covered(a) || x in Covered(b)
    {
      var i :| 0 <= i < |a + b| && Holds((a + b)[i], x);
      if i < |a| {
        assert Holds(a[i], x);
      } else {
        assert Holds(b[i - |a|], x);
      }
    }
  }

  /** Inclusion and exclusion, and the bounds that make a coverage ratio a score. */
  lemma InclusionExclusion(left: seq<Span>, right: seq<Span>)
    ensures Length(left + right) + Intersection(left, right) == Length(left) + Length(right)
    ensures 0.0 <= Intersection(left, right) <= Length(left)
    ensures Intersection(left, right) == Intersection(right, left)
  {
    var cuts := CutsFor(left, right);
    assert Resolves(cuts, left + right);
    LengthIsMeasure(left, cuts);
    LengthIsMeasure(right, cuts);
    LengthIsMeasure(left + right, cuts);
    IntersectionIsMeasure(left, right, cuts);
    IntersectionIsMeasure(right, left, cuts);
    CoveredConcat(left, right);
    MeasureModular(cuts, Covered(left), Covered(right));
    MeasureMonotone(cuts, Covered(left) * Covered(right), Covered(left));
    assert Covered(left) * Covered(right) == Covered(right) * Covered(left);
  }

  lemma IntersectionDependsOnPoints(a: seq<Span>, b: seq<Span>, c: seq<Span>, d: seq<Span>)
    requires Covered(a) == Covered(c) && Covered(b) == Covered(d)
    ensures Intersection(a, b) == Intersection(c, d)
  {
    OverlapPoints(a, b);
    OverlapPoints(c, d);
    LengthDependsOnPoints(MeetAll(Canon(a), Canon(b)), MeetAll(Canon(c), Canon(d)));
  }

  lemma LastEndSeen(a: seq<Span>, b: seq<Span>)
    requires Canonical(a) && Canonical(b) && a != []
    requires b == [] || b[|b| - 1].end < a[|a| - 1].end
    ensures exists x :: x in Covered(a) && x !in Covered(b)
  {
    var s := a[|a| - 1];
    var x := if b == [] then s.start else Max(b[|b| - 1].end, s.start);
    assert Holds(s, x) && x in Covered(a);
    assert forall i :: 0 <= i < |b| ==> b[i].end <= x;
    assert x !in Covered(b);
  }

  lemma LastStartSeen(a: seq<Span>, b: seq<Span>)
    requires Canonical(a) && Canonical(b) && a != [] && b != []
    requires a[|a| - 1].end == b[|b| - 1].end && b[|b| - 1].start < a[|a| - 1].start
    ensures exists x :: x in Covered(b) && x !in Covered(a)
  {
    // just below the last span of `a` there is a gap that the last span of `b` covers
    var s, t := a[|a| - 1], b[|b| - 1];
    var before := if |a| == 1 then t.start else Max(t.start, a[|a| - 2].end);
    var x := (before + s.start) / 2.0;
    assert Holds(t, x) && x in Covered(b);
    assert forall i :: 0 <= i < |a| - 1 ==> a[i].end <= before;
    assert x !in Covered(a);
  }

  /** Canonical form is determined by the points alone. */
  lemma {:induction false} CanonicalUnique(a: seq<Span>, b: seq<Span>)
    requires Canonical(a) && Canonical(b) && Covered(a) == Covered(b)
    ensures a == b
    decreases |a|
  {
    if a == [] && b == [] {
    } else if a == [] || (b != [] && a[|a| - 1].end < b[|b| - 1].end) {
      LastEndSeen(b, a);
      assert false;
    } else if b == [] || b[|b| - 1].end < a[|a| - 1].end {
      LastEndSeen(a, b);
      assert false;
    } else if a[|a| - 1].start < b[|b| - 1].start {
      LastStartSeen(b, a);
      assert false;
    } else if b[|b| - 1].start < a[|a| - 1].start {
      LastStartSeen(a, b);
      assert false;
    } else {
      LastIsApart(a);
      LastIsApart(b);
      CanonicalUnique(a[..|a| - 1], b[..|b| - 1]);
    }
  }

  /** Two spans that touch or overlap may be replaced by one: the effect of splitting. */
  lemma SplitKeepsLength(before: seq<Span>, after: seq<Span>, s: Span, at: real)
    requires s.start <= at <= s.end
    ensures Length(before + [s] + after) == Length(before + [Span(s.start, at), Span(at, s.end)] + after)
  {
    var parts := [Span(s.start, at), Span(at, s.end)];
    CoveredConcat(before + [s], after);
    CoveredConcat(before, [s]);
    CoveredConcat(before + parts, after);
    CoveredConcat(before, parts);
    CoveredAppend([], s);
    CoveredAppend([], parts[0]);
    CoveredAppend([parts[0]], parts[1]);
    assert [] + [s] == [s] && [] + [parts[0]] == [parts[0]] && [parts[0]] + [parts[1]] == parts;
    assert PointsOf(s) == PointsOf(parts[0]) + PointsOf(parts[1]);
    LengthDependsOnPoints(before + [s] + after, before + parts + after);
  }

  // ---------------------------------------------------------------- measure of a set of points

  ghost predicate Measurable(points: iset<real>)
  {
    exists spans: seq<Span> :: Covered(spans) == points
  }

  /** The measure of a finite union of spans, independent of the spans that describe it. */
  ghost function Extent(points: iset<real>): real
    requires Measurable(points)
  {
    var spans: seq<Span> :| Covered(spans) == points;
    Length(spans)
  }

  lemma ExtentIsLength(spans: seq<Span>)
    ensures Measurable(Covered(spans)) && Extent(Covered(spans)) == Length(spans)
  {
    var other: seq<Span> :| Covered(other) == Covered(spans) && Extent(Covered(spans)) == Length(other);
    LengthDependsOnPoints(spans, other);
  }

  lemma ExtentIsIntersection(left: seq<Span>, right: seq<Span>)
    ensures Measurable(Covered(left) * Covered(right))
    ensures Extent(Covered(left) * Covered(right)) == Intersection(left, right)
  {
    OverlapPoints(left, right);
    ExtentIsLength(MeetAll(Canon(left), Canon(right)));
  }

  /** A union that contains a nonempty span has positive measure. */
  lemma LengthPositive(spans: seq<Span>, s: Span)
    requires s in spans && s.start < s.end
    ensures Length(spans) > 0.0
  {
    var cuts := CutsFor(spans, [s]);
    LengthIsMeasure(spans, cuts);
    MeasureOfSpan(cuts, s);
    CoveredAppend([], s);
    assert [] + [s] == [s];
    CoveredMembers([s], spans);
    MeasureMonotone(cuts, PointsOf(s), Covered(spans));
  }

  // ---------------------------------------------------------------- common units

  ghost predicate OnTicks(spans: seq<Span>, tick: nat)
  {
    forall i :: 0 <= i < |spans| ==> Grid(spans[i].start, tick) && Grid(spans[i].end, tick)
  }

  lemma {:induction false} TotalOnTicks(spans: seq<Span>, tick: nat)
    requires OnTicks(spans, tick)
    ensures Grid(Total(spans), tick)
    decreases |spans|
  {
    if spans == [] {
      IsGrid(0.0, tick, 0);
    } else {
      var n := |spans| - 1;
      TotalOnTicks(spans[..n], tick);
      GridSum(spans[n].end, spans[n].start, tick);
      GridSum(Total(spans[..n]), spans[n].end - spans[n].start, tick);
    }
  }

  lemma CanonOnTicks(spans: seq<Span>, tick: nat)
    requires OnTicks(spans, tick)
    ensures OnTicks(Canon(spans), tick)
  {
    CanonIsCanonical(spans);
    var canon := Canon(spans);
    forall i | 0 <= i < |canon|
      ensures Grid(canon[i].start, tick) && Grid(canon[i].end, tick)
    {
      var j :| 0 <= j < |spans| && spans[j].start == canon[i].start;
      var k :| 0 <= k < |spans| && spans[k].end == canon[i].end;
    }
  }

  lemma {:induction false} MeetOnTicks(left: seq<Span>, right: seq<Span>, tick: nat)
    requires OnTicks(left, tick) && OnTicks(right, tick)
    ensures OnTicks(MeetAll(left, right), tick)
    decreases |left|
  {
    if left != [] {
      MeetOnTicks(left[1..], right, tick);
      assert OnTicks(MeetOne(left[0], right), tick);
    }
  }

  /** Lengths of spans given in common units are multiples of that unit. */
  lemma LengthsOnTicks(left: seq<Span>, right: seq<Span>, tick: nat)
    requires OnTicks(left, tick) && OnTicks(right, tick)
    ensures Grid(Length(left), tick) && Grid(Intersection(left, right), tick)
  {
    CanonOnTicks(left, tick);
    CanonOnTicks(right, tick);
    TotalOnTicks(Canon(left), tick);
    MeetOnTicks(Canon(left), Canon(right), tick);
    CanonOnTicks(MeetAll(Canon(left), Canon(right)), tick);
    TotalOnTicks(Canon(MeetAll(Canon(left), Canon(right))), tick);
  }
}
