/**
 The one statistical look at a challenger after three complete videos, and the
 best-possible-completion bound that is checked after every video.

 A batch is a fixed list of videos whose order was drawn uniformly. A stop is
 false when the full batch would have cleared the king by the margin.
 */
module Stopping {
  import opened Common

  datatype Video = Video(quality: real, reward: real)

  datatype Bound = BestPossibleCompletion | FiniteBatch90

  datatype Stop = Stop(bound: Bound, qualityUpper: real, rewardUpper: real)

  predicate InUnit(v: real) { 0.0 <= v <= 1.0 }

  /** Nearest fixed-point value, ties upwards. */
  function Quantize(value: real): (r: Try<int>)
  {
    if InUnit(value) then Ok((value * SCALE as real + 0.5).Floor) else Err("invalid_score")
  }

  /** Smallest fixed-point value that is not below the bound. */
  function UpperUnits(value: real): (r: Try<int>)
  {
    if InUnit(value) then Ok(MinInt(SCALE, Ceil(value * SCALE as real))) else Err("invalid_score_bound")
  }

  predicate ValidVideo(v: Video) { 0.0 <= v.reward <= v.quality <= 1.0 }

  function Choose(n: nat, k: nat): nat
  {
    if k == 0 then 1 else if n == 0 then 0 else Choose(n - 1, k - 1) + Choose(n - 1, k)
  }

  /** Missing all of the `k` largest of `total` rewards has probability at most one tenth. */
  predicate RareMiss(total: nat, n: nat, k: nat)
    requires k <= total
  {
    (if total - k >= n then Choose(total - k, n) else 0) * 10 <= Choose(total, n)
  }

  function FirstRare(total: nat, n: nat, k: nat): (r: nat)
    requires 1 <= k <= total && 0 < n
    ensures k <= r <= total && RareMiss(total, n, r)
    ensures forall j :: k <= j < r ==> !RareMiss(total, n, j)
    decreases total - k
  {
    if RareMiss(total, n, k) then k else FirstRare(total, n, k + 1)
  }

  function Sum(xs: seq<real>): real
  {
    if xs == [] then 0.0 else Sum(xs[..|xs| - 1]) + xs[|xs| - 1]
  }

  function Rewards(videos: seq<Video>): (r: seq<real>)
    ensures |r| == |videos| && forall i :: 0 <= i < |r| ==> r[i] == videos[i].reward
  {
    seq(|videos|, i requires 0 <= i < |videos| => videos[i].reward)
  }

  function Qualities(videos: seq<Video>): (r: seq<real>)
    ensures |r| == |videos| && forall i :: 0 <= i < |r| ==> r[i] == videos[i].quality
  {
    seq(|videos|, i requires 0 <= i < |videos| => videos[i].quality)
  }

  function MaxOf(xs: seq<real>): (m: real)
    requires xs != []
    ensures m in xs && forall x :: x in xs ==> x <= m
  {
    if |xs| == 1 then xs[0]
    else
      var rest := MaxOf(xs[1..]);
      assert forall x :: x in xs ==> x == xs[0] || x in xs[1..];
      Max(xs[0], rest)
  }

  /** Sum of the observed values when every unseen video scores one, over the whole batch. */
  function Completion(seen: seq<real>, total: int): real
    requires 0 < |seen| < total
  {
    (Sum(seen) + (total - |seen|) as real) / total as real
  }

  /** The sharper of the two reward bounds; the statistical one exists only after three videos. */
  function RewardBound(rewards: seq<real>, total: int): (real, Bound)
    requires 0 < |rewards| < total
  {
    if |rewards| == 3 && Statistical(rewards, total) < Completion(rewards, total)
    then (Statistical(rewards, total), FiniteBatch90)
    else (Completion(rewards, total), BestPossibleCompletion)
  }

  /** The comparison in transmitted units; the bound errs on the challenger's side. */
  function CannotClear(reward: real, king: real): Try<bool>
  {
    match (UpperUnits(reward), Quantize(king))
    case (Ok(upper), Ok(units)) => Ok((upper - units) * 100 <= 2 * SCALE)
    case (Err(e), _) => Err(e)
    case (_, Err(e)) => Err(e)
  }

  /** The look itself; `Ok(None)` means evaluation continues. */
  function Futility(videos: seq<Video>, kingReward: real, total: int): Try<Option<Stop>>
  {
    if total < 3 then Err("invalid_planned_videos")
    else if !(0 < |videos| < total) then Ok(None)
    else if exists i :: 0 <= i < |videos| && !ValidVideo(videos[i]) then Err("invalid_video_score")
    else
      var (reward, bound) := RewardBound(Rewards(videos), total);
      match CannotClear(reward, kingReward)
      case Err(e) => Err(e)
      case Ok(stop) =>
        if stop then Ok(Some(Stop(bound, Completion(Qualities(videos), total), reward))) else Ok(None)
  }

  function Statistical(rewards: seq<real>, total: int): real
    requires 0 < |rewards| < total
  {
    var k := FirstRare(total, |rewards|, 1);
    TopBound(total, k, MaxOf(rewards)) / total as real
  }

  /** A sum of `total` scores of which all but `k - 1` are at most `m`. */
  function TopBound(total: nat, k: nat, m: real): real
  {
    (k - 1) as real + (total - k + 1) as real * m
  }

  // ---------------------------------------------------------------- the fixed batch

  ghost predicate Batch(batch: seq<Video>)
  {
    |batch| > 3 && forall i :: 0 <= i < |batch| ==> ValidVideo(batch[i])
  }

  ghost function Mean(xs: seq<real>): real
    requires xs != []
  {
    Sum(xs) / |xs| as real
  }

  /** The completed evaluation beats the king by more than the margin, in the units sent on chain. */
  ghost predicate Clears(batch: seq<Video>, king: real)
    requires batch != []
  {
    var full := Quantize(Mean(Rewards(batch)));
    full.Ok? && Quantize(king).Ok? && (full.value - Quantize(king).value) * 100 > 2 * SCALE
  }

  /** `order` lists distinct videos of the batch: a prefix of some draw order. */
  ghost predicate Draw(order: seq<nat>, n: nat)
  {
    && (forall i :: 0 <= i < |order| ==> order[i] < n)
    && (forall i, j :: 0 <= i < j < |order| ==> order[i] != order[j])
  }

  ghost function Elements(order: seq<nat>): set<nat>
  {
    set i | i in order
  }

  ghost function Pick(batch: seq<Video>, order: seq<nat>): (r: seq<Video>)
    requires Draw(order, |batch|)
    ensures |r| == |order| && forall i :: 0 <= i < |r| ==> r[i] == batch[order[i]]
  {
    seq(|order|, i requires 0 <= i < |order| => batch[order[i]])
  }

  ghost function Below(n: nat): set<nat>
  {
    set i: nat | i < n && IsIndex(i, n)
  }

  ghost predicate IsIndex(i: nat, n: nat) { i < n }

  lemma {:induction false} BelowSize(n: nat)
    ensures |Below(n)| == n
  {
    if n == 0 {
      assert Below(0) == {};
    } else {
      BelowSize(n - 1);
      assert Below(n) == Below(n - 1) + {n - 1};
    }
  }

  ghost function Subsets(m: set<nat>, k: nat): set<set<nat>>
  {
    set s | s <= m && |s| == k
  }

  ghost predicate Stopped(batch: seq<Video>, king: real, order: seq<nat>)
    requires Draw(order, |batch|)
  {
    var r := Futility(Pick(batch, order), king, |batch|);
    r.Ok? && r.value.Some?
  }

  ghost predicate SomeOrderStops(batch: seq<Video>, king: real, s: set<nat>)
  {
    exists order: seq<nat> :: Draw(order, |batch|) && Elements(order) == s && Stopped(batch, king, order)
  }

  /** Every three-video sample that stops in at least one of its orders. */
  ghost function StoppedSamples(batch: seq<Video>, king: real): set<set<nat>>
  {
    set s | s in Subsets(Below(|batch|), 3) && SomeOrderStops(batch, king, s)
  }

  // ---------------------------------------------------------------- sums

  lemma {:induction false} SumUpdate(xs: seq<real>, i: nat, v: real)
    requires i < |xs|
    ensures Sum(xs[i := v]) == Sum(xs) - xs[i] + v
    decreases |xs|
  {
    var n := |xs| - 1;
    if i == n {
      assert xs[i := v][..n] == xs[..n];
    } else {
      assert xs[i := v][..n] == xs[..n][i := v];
      SumUpdate(xs[..n], i, v);
    }
  }

  lemma {:induction false} SumMonotone(xs: seq<real>, ys: seq<real>)
    requires |xs| == |ys| && forall i :: 0 <= i < |xs| ==> xs[i] <= ys[i]
    ensures Sum(xs) <= Sum(ys)
    decreases |xs|
  {
    if xs != [] {
      SumMonotone(xs[..|xs| - 1], ys[..|ys| - 1]);
    }
  }

  lemma {:induction false} SumConstant(xs: seq<real>, c: real)
    requires forall i :: 0 <= i < |xs| ==> xs[i] == c
    ensures Sum(xs) == |xs| as real * c
    decreases |xs|
  {
    if xs != [] {
      SumConstant(xs[..|xs| - 1], c);
    }
  }

  lemma SumBounds(xs: seq<real>)
    requires forall i :: 0 <= i < |xs| ==> InUnit(xs[i])
    ensures 0.0 <= Sum(xs) <= |xs| as real
  {
    var zeros, ones := seq(|xs|, _ => 0.0), seq(|xs|, _ => 1.0);
    SumConstant(zeros, 0.0);
    SumConstant(ones, 1.0);
    SumMonotone(zeros, xs);
    SumMonotone(xs, ones);
  }

  lemma Scaled(a: real, b: real, n: real)
    requires n > 0.0 && a <= b
    ensures a / n <= b / n
  {
  }

  lemma OneOfItself(n: real)
    requires n > 0.0
    ensures n / n == 1.0 && 0.0 / n == 0.0
  {
  }

  // ---------------------------------------------------------------- rounding

  lemma UpperNotBelow(bound: real, mean: real)
    requires InUnit(mean) && InUnit(bound) && mean <= bound
    ensures Quantize(mean).value <= UpperUnits(bound).value
  {
    assert mean * SCALE as real <= bound * SCALE as real;
  }

  // ---------------------------------------------------------------- completion bound

  /** Unseen videos can add at most one each. */
  lemma {:induction false} CompletionCovers(xs: seq<real>, order: seq<nat>, seen: seq<real>)
    requires forall i :: 0 <= i < |xs| ==> InUnit(xs[i])
    requires Draw(order, |xs|) && |seen| == |order|
    requires forall i :: 0 <= i < |seen| ==> seen[i] == xs[order[i]]
    ensures |order| <= |xs|
    ensures Sum(xs) <= Sum(seen) + (|xs| - |order|) as real
  {
    var padded := Pad(xs, order, seen);
    SumMonotone(xs, padded);
    DrawFits(order, |xs|);
  }

  lemma {:induction false} DrawFits(order: seq<nat>, n: nat)
    requires Draw(order, n)
    ensures |order| <= n && |Elements(order)| == |order|
  {
    if order == [] {
    } else {
      var init, last := order[..|order| - 1], order[|order| - 1];
      DrawFits(init, n);
      assert last !in init;
      assert Elements(order) == Elements(init) + {last};
    }
    DrawnBelow(order, n);
    BelowSize(n);
    Subset(Elements(order), Below(n));
  }

  lemma DrawnBelow(order: seq<nat>, n: nat)
    requires Draw(order, n)
    ensures Elements(order) <= Below(n)
  {
    forall i | i in Elements(order) ensures i in Below(n) {
      var p :| 0 <= p < |order| && order[p] == i;
    }
  }

  lemma {:induction false} Subset<T>(a: set<T>, b: set<T>)
    requires a <= b
    ensures |a| <= |b|
    ensures |b - a| == |b| - |a|
  {
    assert b == a + (b - a);
  }

  /** The values with every unseen position replaced by one. */
  lemma {:induction false} Pad(xs: seq<real>, order: seq<nat>, seen: seq<real>) returns (padded: seq<real>)
    requires Draw(order, |xs|) && |seen| == |order|
    requires forall i :: 0 <= i < |seen| ==> seen[i] == xs[order[i]]
    ensures |padded| == |xs|
    ensures forall i :: 0 <= i < |xs| ==> padded[i] == if i in order then xs[i] else 1.0
    ensures Sum(padded) == Sum(seen) + (|xs| - |order|) as real
  {
    if order == [] {
      padded := seq(|xs|, _ => 1.0);
      SumConstant(padded, 1.0);
    } else {
      var n := |order| - 1;
      assert order == order[..n] + [order[n]];
      var before := Pad(xs, order[..n], seen[..n]);
      padded := before[order[n] := seen[n]];
      SumUpdate(before, order[n], seen[n]);
    }
  }

  // ---------------------------------------------------------------- statistical bound

  ghost predicate Within(s: set<nat>, n: nat)
  {
    forall i :: i in s ==> i < n
  }

  lemma WithinFits(s: set<nat>, n: nat)
    requires Within(s, n)
    ensures s <= Below(n) && |s| <= n && |Below(n) - s| == n - |s|
  {
    BelowSize(n);
    Subset(s, Below(n));
  }

  ghost predicate Dominates(xs: seq<real>, top: set<nat>)
  {
    forall i, j :: i in top && i < |xs| && 0 <= j < |xs| && j !in top ==> xs[j] <= xs[i]
  }

  /** Some `k` positions hold the `k` largest values. */
  lemma {:induction false} Largest(xs: seq<real>, k: nat) returns (top: set<nat>)
    requires k <= |xs|
    ensures Within(top, |xs|) && |top| == k
    ensures Dominates(xs, top)
  {
    if k == 0 {
      top := {};
    } else {
      var less := Largest(xs, k - 1);
      WithinFits(less, |xs|);
      var rest := Below(|xs|) - less;
      var best := ArgMax(xs, rest);
      top := less + {best};
    }
  }

  lemma {:induction false} ArgMax(xs: seq<real>, s: set<nat>) returns (best: nat)
    requires s != {} && forall i :: i in s ==> i < |xs|
    ensures best in s && forall i :: i in s ==> xs[i] <= xs[best]
    decreases s
  {
    var x :| x in s;
    if s == {x} {
      best := x;
    } else {
      var other := ArgMax(xs, s - {x});
      best := if xs[other] <= xs[x] then x else other;
    }
  }

  /** `ones` values of at most one and `others` values of at most `low`. */
  ghost function TwoValued(ones: nat, others: nat, low: real): real
  {
    if others == 0 then ones as real else TwoValued(ones, others - 1, low) + low
  }

  lemma {:induction false} OneMore(ones: nat, others: nat, low: real)
    ensures TwoValued(ones + 1, others, low) == TwoValued(ones, others, low) + 1.0
  {
    if others > 0 {
      OneMore(ones, others - 1, low);
    }
  }

  lemma {:induction false} TwoValuedClosed(ones: nat, others: nat, low: real)
    ensures TwoValued(ones, others, low) == ones as real + others as real * low
  {
    if others > 0 {
      TwoValuedClosed(ones, others - 1, low);
      assert others as real == (others - 1) as real + 1.0;
    }
  }

  lemma TwoValuedStep(xs: seq<real>, ones: nat, others: nat, low: real, high: bool)
    requires xs != [] && Sum(xs[..|xs| - 1]) <= TwoValued(ones, others, low)
    requires xs[|xs| - 1] <= if high then 1.0 else low
    ensures Sum(xs) <= if high then TwoValued(ones + 1, others, low) else TwoValued(ones, others + 1, low)
  {
    OneMore(ones, others, low);
  }

  lemma DropTop(n: nat, high: set<nat>)
    requires Within(high, n + 1)
    ensures Within(high - {n}, n)
    ensures |high| == |high - {n}| + (if n in high then 1 else 0)
  {
    if n in high {
      assert high == (high - {n}) + {n};
    } else {
      assert high == high - {n};
    }
  }

  lemma {:induction false} SumTwoValues(xs: seq<real>, high: set<nat>, low: real)
    requires forall i :: 0 <= i < |xs| ==> xs[i] <= (if i in high then 1.0 else low)
    requires Within(high, |xs|)
    ensures |high| <= |xs|
    ensures Sum(xs) <= TwoValued(|high|, |xs| - |high|, low)
    decreases |xs|
  {
    if xs == [] {
      assert high == {};
    } else {
      var n := |xs| - 1;
      var below := high - {n};
      DropTop(n, high);
      SumTwoValues(xs[..n], below, low);
      TwoValuedStep(xs, |below|, n - |below|, low, n in high);
    }
  }

  /** Seeing one of the `k` largest values bounds the whole sum. */
  lemma TopSeenBounds(xs: seq<real>, top: set<nat>, seen: nat, m: real)
    requires forall i :: 0 <= i < |xs| ==> InUnit(xs[i])
    requires Within(top, |xs|) && seen in top && xs[seen] <= m
    requires forall j :: 0 <= j < |xs| && j !in top ==> xs[j] <= xs[seen]
    ensures |top| <= |xs|
    ensures Sum(xs) <= TopBound(|xs|, |top|, m)
  {
    WithinFits(top, |xs|);
    DropOne(top, seen);
    SumTwoValues(xs, top - {seen}, m);
    TopBoundClosed(|xs|, |top|, m);
  }

  lemma TopBoundClosed(total: nat, k: nat, m: real)
    requires 1 <= k <= total
    ensures TwoValued(k - 1, total - (k - 1), m) == TopBound(total, k, m)
  {
    var c := total - (k - 1);
    TwoValuedClosed(k - 1, c, m);
    calc {
      TopBound(total, k, m);
      (k - 1) as real + (total - k + 1) as real * m;
      { assert total - k + 1 == c; }
      (k - 1) as real + c as real * m;
      TwoValued(k - 1, c, m);
    }
  }

  lemma DropOne(s: set<nat>, x: nat)
    requires x in s
    ensures |s - {x}| == |s| - 1
  {
  }

  // ---------------------------------------------------------------- counting samples

  lemma {:induction false} CountSubsets(m: set<nat>, k: nat)
    ensures |Subsets(m, k)| == Choose(|m|, k)
    decreases |m|
  {
    if k == 0 {
      assert Subsets(m, 0) == {{}};
    } else if m == {} {
      assert Subsets(m, k) == {};
    } else {
      var x :| x in m;
      CountSubsets(m - {x}, k - 1);
      CountSubsets(m - {x}, k);
      CountSplit(m, k, x);
      Subset({x}, m);
    }
  }

  lemma CountSplit(m: set<nat>, k: nat, x: nat)
    requires x in m && k > 0
    ensures |Subsets(m, k)| == |Subsets(m - {x}, k)| + |Subsets(m - {x}, k - 1)|
  {
    CountExtended(Subsets(m - {x}, k - 1), x);
    SplitSubsets(m, k, x);
  }

  ghost function Extend(family: set<set<nat>>, x: nat): set<set<nat>>
  {
    set s | s in family :: s + {x}
  }

  lemma SplitSubsets(m: set<nat>, k: nat, x: nat)
    requires x in m && k > 0
    ensures Subsets(m, k) == Subsets(m - {x}, k) + Extend(Subsets(m - {x}, k - 1), x)
    ensures Subsets(m - {x}, k) !! Extend(Subsets(m - {x}, k - 1), x)
  {
    forall s | s in Subsets(m, k)
      ensures s in Subsets(m - {x}, k) + Extend(Subsets(m - {x}, k - 1), x)
    {
      if x in s {
        assert s - {x} in Subsets(m - {x}, k - 1) && s == (s - {x}) + {x};
      }
    }
  }

  /** Adding a new element to every member keeps the number of members. */
  lemma {:induction false} CountExtended(family: set<set<nat>>, x: nat)
    requires forall s :: s in family ==> x !in s
    ensures |Extend(family, x)| == |family|
    decreases |family|
  {
    if family == {} {
    } else {
      var s :| s in family;
      var rest := family - {s};
      CountExtended(rest, x);
      forall t | t in rest ensures t + {x} != s + {x} {
        assert t == (t + {x}) - {x} && s == (s + {x}) - {x};
      }
      assert Extend(family, x) == Extend(rest, x) + {s + {x}};
    }
  }

  // ---------------------------------------------------------------- main results

  lemma MeanInUnit(xs: seq<real>)
    requires xs != [] && forall i :: 0 <= i < |xs| ==> InUnit(xs[i])
    ensures InUnit(Mean(xs))
  {
    SumBounds(xs);
    Scaled(0.0, Sum(xs), |xs| as real);
    Scaled(Sum(xs), |xs| as real, |xs| as real);
    OneOfItself(|xs| as real);
    hide Sum;
  }

  lemma CompletionInUnit(seen: seq<real>, total: int)
    requires 0 < |seen| < total && forall i :: 0 <= i < |seen| ==> InUnit(seen[i])
    ensures InUnit(Completion(seen, total))
  {
    SumBounds(seen);
    var s, n := Sum(seen) + (total - |seen|) as real, total as real;
    Scaled(0.0, s, n);
    Scaled(s, n, n);
    OneOfItself(n);
  }

  lemma TopBoundInRange(total: nat, k: nat, m: real)
    requires 1 <= k <= total && InUnit(m)
    ensures 0.0 <= TopBound(total, k, m) <= total as real
  {
    var c := (total - k + 1) as real;
    assert 0.0 <= c * m <= c * 1.0;
  }

  lemma StatisticalInUnit(seen: seq<real>, total: int)
    requires 0 < |seen| < total && forall i :: 0 <= i < |seen| ==> InUnit(seen[i])
    ensures InUnit(Statistical(seen, total))
  {
    var t, n := TopBound(total, FirstRare(total, |seen|, 1), MaxOf(seen)), total as real;
    TopBoundInRange(total, FirstRare(total, |seen|, 1), MaxOf(seen));
    Scaled(0.0, t, n);
    Scaled(t, n, n);
  }

  lemma CompletionNotBelowMean(xs: seq<real>, order: seq<nat>, seen: seq<real>)
    requires forall i :: 0 <= i < |xs| ==> InUnit(xs[i])
    requires Draw(order, |xs|) && 0 < |seen| == |order| < |xs|
    requires forall i :: 0 <= i < |seen| ==> seen[i] == xs[order[i]]
    ensures Mean(xs) <= Completion(seen, |xs|)
  {
    CompletionCovers(xs, order, seen);
    Scaled(Sum(xs), Sum(seen) + (|xs| - |order|) as real, |xs| as real);
  }

  /** A stop whose reward bound reaches the mean can only hit a batch that does not clear the king. */
  lemma SoundStop(bound: real, mean: real, king: real)
    requires InUnit(bound) && InUnit(mean) && InUnit(king)
    requires CannotClear(bound, king) == Ok(true) && mean <= bound
    ensures (Quantize(mean).value - Quantize(king).value) * 100 <= 2 * SCALE
  {
    UpperNotBelow(bound, mean);
  }

  /** A false stop rests on the statistical bound alone, and that bound underestimates the batch. */
  lemma FalseStopUnderestimates(batch: seq<Video>, king: real, order: seq<nat>)
    requires Batch(batch) && Clears(batch, king) && Draw(order, |batch|) && Stopped(batch, king, order)
    ensures |order| == 3
    ensures Futility(Pick(batch, order), king, |batch|).value.value.bound == FiniteBatch90
    ensures Statistical(Rewards(Pick(batch, order)), |batch|) < Mean(Rewards(batch))
  {
    var xs, seen := Rewards(batch), Rewards(Pick(batch, order));
    MeanInUnit(xs);
    CompletionNotBelowMean(xs, order, seen);
    CompletionInUnit(seen, |batch|);
    var (bound, kind) := RewardBound(seen, |batch|);
    if |seen| == 3 {
      StatisticalInUnit(seen, |batch|);
    }
    if Mean(xs) <= bound {
      SoundStop(bound, Mean(xs), king);
    }
  }

  /**
   The completion bound is never wrong: a batch that clears the king is only ever
   stopped by the statistical look, hence only after exactly three videos.
   */
  lemma CompletionNeverStopsAWinner(batch: seq<Video>, king: real, order: seq<nat>)
    requires Batch(batch) && Clears(batch, king) && Draw(order, |batch|)
    ensures Futility(Pick(batch, order), king, |batch|).Ok?
    ensures |order| != 3 ==> Futility(Pick(batch, order), king, |batch|) == Ok(None)
    ensures Stopped(batch, king, order) ==>
              Futility(Pick(batch, order), king, |batch|).value.value.bound == FiniteBatch90
  {
    var seen := Rewards(Pick(batch, order));
    if 0 < |order| < |batch| {
      CompletionInUnit(seen, |batch|);
      StatisticalInUnit(seen, |batch|);
    }
    if Stopped(batch, king, order) {
      FalseStopUnderestimates(batch, king, order);
    }
  }

  /** A sample that stops a winner misses every one of the `k` largest rewards. */
  lemma StopMissesTop(batch: seq<Video>, king: real, order: seq<nat>, top: set<nat>, p: nat)
    requires Batch(batch) && Clears(batch, king) && Draw(order, |batch|) && Stopped(batch, king, order)
    requires Within(top, |batch|) && |top| == FirstRare(|batch|, 3, 1) && Dominates(Rewards(batch), top)
    requires p < |order|
    ensures order[p] !in top
  {
    FalseStopUnderestimates(batch, king, order);
    if order[p] in top {
      var xs, seen := Rewards(batch), Rewards(Pick(batch, order));
      assert seen[p] == xs[order[p]] && seen[p] in seen;
      TopSeenBounds(xs, top, order[p], MaxOf(seen));
      Scaled(Sum(xs), TopBound(|xs|, |top|, MaxOf(seen)), |xs| as real);
      assert false;
    }
  }

  /**
   Finite-batch guarantee. Of all three-video samples of a batch that clears the
   king, at most one tenth lead to a stop, whatever the order inside the sample.
   */
  lemma AtMostOneTenthStopAWinner(batch: seq<Video>, king: real)
    requires Batch(batch) && Clears(batch, king)
    ensures |StoppedSamples(batch, king)| * 10 <= |Subsets(Below(|batch|), 3)| == Choose(|batch|, 3)
  {
    var top := Largest(Rewards(batch), FirstRare(|batch|, 3, 1));
    forall s | s in StoppedSamples(batch, king)
      ensures s in Subsets(Below(|batch|) - top, 3)
    {
      StoppedSampleAvoids(batch, king, s, top);
    }
    AvoidingIsRare(|batch|, top, StoppedSamples(batch, king));
  }

  /** Samples that avoid the `k` largest rewards are at most one tenth of all samples. */
  lemma AvoidingIsRare(n: nat, top: set<nat>, samples: set<set<nat>>)
    requires n > 3 && Within(top, n) && |top| == FirstRare(n, 3, 1)
    requires samples <= Subsets(Below(n) - top, 3)
    ensures |samples| * 10 <= |Subsets(Below(n), 3)| == Choose(n, 3)
  {
    Subset(samples, Subsets(Below(n) - top, 3));
    WithinFits(top, n);
    BelowSize(n);
    CountSubsets(Below(n), 3);
    CountSubsets(Below(n) - top, 3);
    RareMissCount(n, |top|);
  }

  lemma RareMissCount(total: nat, k: nat)
    requires k <= total && RareMiss(total, 3, k)
    ensures Choose(total - k, 3) * 10 <= Choose(total, 3)
  {
    if total - k < 3 {
      TooFew(total - k, 3);
    }
  }

  lemma StoppedSampleAvoids(batch: seq<Video>, king: real, s: set<nat>, top: set<nat>)
    requires Batch(batch) && Clears(batch, king) && s in StoppedSamples(batch, king)
    requires Within(top, |batch|) && |top| == FirstRare(|batch|, 3, 1) && Dominates(Rewards(batch), top)
    ensures s in Subsets(Below(|batch|) - top, 3)
  {
    var order: seq<nat> :| Draw(order, |batch|) && Elements(order) == s && Stopped(batch, king, order);
    forall i | i in s
      ensures i !in top
    {
      assert i in order;
      var p :| 0 <= p < |order| && order[p] == i;
      StopMissesTop(batch, king, order, top, p);
    }
  }

  lemma {:induction false} TooFew(m: nat, k: nat)
    requires m < k
    ensures Choose(m, k) == 0
  {
    if m > 0 {
      TooFew(m - 1, k - 1);
      TooFew(m - 1, k);
    }
  }

  /**
   What an early stop publishes never understates the completed evaluation, except in
   the rare statistical case: the on-chain bounds dominate the rounded batch means.
   */
  lemma PublishedBoundDominates(batch: seq<Video>, king: real, order: seq<nat>)
    requires Batch(batch) && Draw(order, |batch|) && Stopped(batch, king, order)
    ensures var stop := Futility(Pick(batch, order), king, |batch|).value.value;
            && InUnit(Mean(Qualities(batch))) && InUnit(Mean(Rewards(batch)))
            && InUnit(stop.qualityUpper) && InUnit(stop.rewardUpper)
            && Quantize(Mean(Qualities(batch))).value <= UpperUnits(stop.qualityUpper).value
            && (stop.bound == BestPossibleCompletion || Mean(Rewards(batch)) <= stop.rewardUpper ==>
                  Quantize(Mean(Rewards(batch))).value <= UpperUnits(stop.rewardUpper).value)
  {
    BoundDominates(Rewards(batch), order, Rewards(Pick(batch, order)));
    BoundDominates(Qualities(batch), order, Qualities(Pick(batch, order)));
    MeanInUnit(Rewards(batch));
    StatisticalInUnit(Rewards(Pick(batch, order)), |batch|);
    var stop := Futility(Pick(batch, order), king, |batch|).value.value;
    if Mean(Rewards(batch)) <= stop.rewardUpper {
      UpperNotBelow(stop.rewardUpper, Mean(Rewards(batch)));
    }
  }

  lemma BoundDominates(xs: seq<real>, order: seq<nat>, seen: seq<real>)
    requires forall i :: 0 <= i < |xs| ==> InUnit(xs[i])
    requires Draw(order, |xs|) && 0 < |seen| == |order| < |xs|
    requires forall i :: 0 <= i < |seen| ==> seen[i] == xs[order[i]]
    ensures InUnit(Mean(xs)) && InUnit(Completion(seen, |xs|))
    ensures Quantize(Mean(xs)).value <= UpperUnits(Completion(seen, |xs|)).value
  {
    MeanInUnit(xs);
    CompletionInUnit(seen, |xs|);
    CompletionNotBelowMean(xs, order, seen);
    UpperNotBelow(Completion(seen, |xs|), Mean(xs));
  }

  // ---------------------------------------------------------------- exactly when the look stops

  /** Three draws miss all of the `k` largest with probability at most one tenth. */
  ghost predicate Rare(total: nat, k: nat)
    requires k <= total
  {
    Choose(total - k, 3) * 10 <= Choose(total, 3)
  }

  /** The fewest largest rewards that are rarely all missed. */
  ghost predicate FewestRare(total: nat, k: nat)
  {
    1 <= k <= total && Rare(total, k) && forall j :: 1 <= j < k ==> !Rare(total, j)
  }

  lemma RareMissMeans(total: nat, k: nat)
    requires k <= total
    ensures RareMiss(total, 3, k) <==> Rare(total, k)
  {
    if total - k < 3 {
      TooFew(total - k, 3);
    }
  }

  lemma FirstRareMeans(total: nat, k: nat)
    requires FewestRare(total, k)
    ensures FirstRare(total, 3, 1) == k
  {
    hide RareMiss, Rare, FirstRare;
    var r := FirstRare(total, 3, 1);
    RareMissMeans(total, r);
    RareMissMeans(total, k);
  }

  /** A rounded bound is within the margin exactly when the bound itself is, in units of the wire. */
  lemma WithinMargin(x: real, king: real, units: int)
    requires InUnit(x) && InUnit(king)
    requires units as real <= king * 65535.0 + 0.5 < units as real + 1.0
    ensures CannotClear(x, king) == Ok(x * 65535.0 <= units as real + 1310.0)
  {
    var y := x * 65535.0;
    assert 0.0 <= y <= 65535.0;
    assert Quantize(king) == Ok(units);
    assert UpperUnits(x).value == Ceil(y);
    assert (Ceil(y) - units) * 100 <= 2 * SCALE <==> Ceil(y) <= units + 1310;
  }

  lemma PerVideo(sum: real, total: real, bar: real)
    requires total > 0.0
    ensures sum / total * 65535.0 <= bar <==> sum * 65535.0 <= bar * total
  {
    var x := sum / total;
    assert x * total == sum;
    if x * 65535.0 <= bar {
      assert (bar - x * 65535.0) * total >= 0.0;
    } else {
      assert (x * 65535.0 - bar) * total > 0.0;
    }
  }

  /**
   When the look stops, for every number of videos: with valid scores it stops exactly when the best
   possible completion stays within the margin of the king, or after three videos the finite-batch
   bound does; and it publishes the bound it used, the sharper one, with the completed quality.
   */
  lemma StopsExactly(videos: seq<Video>, king: real, total: nat, units: int, k: nat, top: real, best: real, rare: real)
    requires 3 <= total && 0 < |videos| < total && InUnit(king) && FewestRare(total, k)
    requires forall v :: v in videos ==> 0.0 <= v.reward <= v.quality <= 1.0
    requires units as real <= king * 65535.0 + 0.5 < units as real + 1.0
    requires (exists v :: v in videos && v.reward == top) && forall v :: v in videos ==> v.reward <= top
    requires best == Sum(Rewards(videos)) + (total - |videos|) as real
    requires rare == (k - 1) as real + (total - k + 1) as real * top
    ensures var r, bar := Futility(videos, king, total), (units as real + 1310.0) * total as real;
      && r.Ok?
      && (r.value.Some? <==> best * 65535.0 <= bar || (|videos| == 3 && rare * 65535.0 <= bar))
    ensures var r, sharp := Futility(videos, king, total), |videos| == 3 && rare / total as real < best / total as real;
      r.value.Some? ==>
        && r.value.value.qualityUpper == (Sum(Qualities(videos)) + (total - |videos|) as real) / total as real
        && r.value.value.rewardUpper == (if sharp then rare else best) / total as real
        && (r.value.value.bound == FiniteBatch90 <==> sharp)
  {
    hide Futility, Sum, Choose, FewestRare, CannotClear, MaxOf, FirstRare, Rewards, Qualities, RewardBound, InUnit;
    FutilityMeans(videos, king, total);
    BoundMeans(videos, total, k, top, best, rare);
    SharpWithin(best, rare, total as real, king, units, |videos| == 3);
  }

  lemma SharpWithin(best: real, rare: real, n: real, king: real, units: int, both: bool)
    requires n > 0.0 && InUnit(king) && InUnit((if both && rare / n < best / n then rare else best) / n)
    requires units as real <= king * 65535.0 + 0.5 < units as real + 1.0
    ensures var bar := (units as real + 1310.0) * n;
      CannotClear((if both && rare / n < best / n then rare else best) / n, king) ==
        Ok(best * 65535.0 <= bar || (both && rare * 65535.0 <= bar))
  {
    hide InUnit, CannotClear;
    WithinMargin((if both && rare / n < best / n then rare else best) / n, king, units);
    EitherBound(best, rare, n, units as real + 1310.0, both);
  }

  /** The sharper of two bounds is within the bar exactly when one of them is. */
  lemma EitherBound(best: real, rare: real, n: real, bar: real, both: bool)
    requires n > 0.0
    ensures (if both && rare / n < best / n then rare else best) / n * 65535.0 <= bar <==>
            best * 65535.0 <= bar * n || (both && rare * 65535.0 <= bar * n)
  {
    PerVideo(best, n, bar);
    PerVideo(rare, n, bar);
    var x, y := best / n, rare / n;
    assert y < x ==> y * 65535.0 < x * 65535.0;
    assert y >= x ==> y * 65535.0 >= x * 65535.0;
  }

  lemma FutilityMeans(videos: seq<Video>, king: real, total: nat)
    requires 3 <= total && 0 < |videos| < total && forall v :: v in videos ==> 0.0 <= v.reward <= v.quality <= 1.0
    ensures var (reward, bound) := RewardBound(Rewards(videos), total);
      Futility(videos, king, total) ==
        match CannotClear(reward, king)
        case Err(e) => Err(e)
        case Ok(stop) =>
          Ok(if stop
             then Some(Stop(bound, (Sum(Qualities(videos)) + (total - |videos|) as real) / total as real, reward))
             else None)
  {
    assert forall i :: 0 <= i < |videos| ==> videos[i] in videos;
    hide RewardBound, CannotClear, Sum;
  }

  lemma BoundMeans(videos: seq<Video>, total: nat, k: nat, top: real, best: real, rare: real)
    requires 3 <= total && 0 < |videos| < total && FewestRare(total, k)
    requires forall v :: v in videos ==> 0.0 <= v.reward <= v.quality <= 1.0
    requires (exists v :: v in videos && v.reward == top) && forall v :: v in videos ==> v.reward <= top
    requires best == Sum(Rewards(videos)) + (total - |videos|) as real
    requires rare == (k - 1) as real + (total - k + 1) as real * top
    ensures RewardBound(Rewards(videos), total) ==
      if |videos| == 3 && rare / total as real < best / total as real then (rare / total as real, FiniteBatch90)
      else (best / total as real, BestPossibleCompletion)
    ensures InUnit(RewardBound(Rewards(videos), total).0)
  {
    hide Sum, Choose, FewestRare, MaxOf, FirstRare, Rewards, InUnit, Statistical;
    var xs := Rewards(videos);
    VideosInUnit(videos);
    CompletionInUnit(xs, total);
    StatisticalInUnit(xs, total);
    if |videos| == 3 {
      StatisticalMeans(videos, total, k, top, rare);
    }
  }

  lemma StatisticalMeans(videos: seq<Video>, total: nat, k: nat, top: real, rare: real)
    requires |videos| == 3 < total && FewestRare(total, k)
    requires (exists v :: v in videos && v.reward == top) && forall v :: v in videos ==> v.reward <= top
    requires rare == (k - 1) as real + (total - k + 1) as real * top
    ensures Statistical(Rewards(videos), total) == rare / total as real
  {
    TopReward(videos, top);
    FirstRareMeans(total, k);
    hide MaxOf, FirstRare, Rewards, FewestRare;
  }

  lemma VideosInUnit(videos: seq<Video>)
    requires forall v :: v in videos ==> 0.0 <= v.reward <= v.quality <= 1.0
    ensures forall i :: 0 <= i < |videos| ==> InUnit(Rewards(videos)[i])
  {
  }

  lemma TopReward(videos: seq<Video>, top: real)
    requires videos != []
    requires (exists v :: v in videos && v.reward == top) && forall v :: v in videos ==> v.reward <= top
    ensures MaxOf(Rewards(videos)) == top
  {
    var v :| v in videos && v.reward == top;
    var i :| 0 <= i < |videos| && videos[i] == v;
    assert Rewards(videos)[i] in Rewards(videos);
    var m := MaxOf(Rewards(videos));
    var j :| 0 <= j < |videos| && Rewards(videos)[j] == m;
    assert videos[j] in videos;
  }

  lemma BoundInUnit(videos: seq<Video>, total: nat)
    requires 3 <= total && 0 < |videos| < total && forall v :: v in videos ==> 0.0 <= v.reward <= v.quality <= 1.0
    ensures InUnit(RewardBound(Rewards(videos), total).0)
  {
    hide Sum, Choose, FirstRare, Statistical;
    var xs := Rewards(videos);
    VideosInUnit(videos);
    CompletionInUnit(xs, total);
    if |xs| == 3 {
      StatisticalInUnit(xs, total);
    }
  }

  /**
   When the look is refused: fewer than three videos are planned, or, with some but not all of them seen,
   a score is out of range or above the quality, or the king's score is out of range.
   */
  lemma RefusesExactly(videos: seq<Video>, king: real, total: int)
    ensures Futility(videos, king, total).Err? <==>
      total < 3
      || (0 < |videos| < total && (!(0.0 <= king <= 1.0)
                                   || exists v :: v in videos && !(0.0 <= v.reward <= v.quality <= 1.0)))
    ensures total >= 3 && !(0 < |videos| < total) ==> Futility(videos, king, total) == Ok(None)
  {
    if total >= 3 && 0 < |videos| < total {
      if forall v :: v in videos ==> 0.0 <= v.reward <= v.quality <= 1.0 {
        FutilityMeans(videos, king, total);
        BoundInUnit(videos, total);
        hide Futility, RewardBound, Sum;
      } else {
        var v :| v in videos && !(0.0 <= v.reward <= v.quality <= 1.0);
        var i :| 0 <= i < |videos| && videos[i] == v;
        hide RewardBound, Sum, CannotClear;
      }
    }
  }
}
