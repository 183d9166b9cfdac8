/**
 The rotation of first pairs: who is seated before whom, over an order of candidates that grows by
 arrivals and shrinks by retirements.
 */
module Rotation {
  import opened Common
  import opened Decide
  import opened LedgerSpec
  import opened LedgerPanel

  // ---------------------------------------------------------------- one order

  /** The candidates in the order in which they will be seated. */
  function Rotated(order: seq<Submission>, after: Option<Hotkey>): seq<Submission>
  {
    var k := ResumeAt(order, after);
    order[k..] + order[..k]
  }

  ghost function Names(s: seq<Submission>): set<Hotkey> { set x | x in s :: x.candidate.hotkey }

  /** The position of a hotkey, or the length. */
  function Place(s: seq<Submission>, h: Hotkey): (p: nat)
    ensures p <= |s| && (p < |s| ==> s[p].candidate.hotkey == h)
    ensures forall j :: 0 <= j < p ==> s[j].candidate.hotkey != h
  {
    if s == [] || s[0].candidate.hotkey == h then 0 else 1 + Place(s[1..], h)
  }

  ghost function Preceding(s: seq<Submission>, h: Hotkey): set<Hotkey> { Names(s[..Place(s, h)]) }

  /** Who is seated before `h` when the turn is after `after`. */
  ghost function Ahead(order: seq<Submission>, after: Option<Hotkey>, h: Hotkey): set<Hotkey>
  {
    Preceding(Rotated(order, after), h)
  }

  lemma {:induction false} NamesCount(s: seq<Submission>)
    requires Unique(s)
    ensures |Names(s)| == |s|
    decreases |s|
  {
    if s == [] {
      assert Names(s) == {};
    } else {
      var n := |s| - 1;
      NamesCount(s[..n]);
      assert s == s[..n] + [s[n]];
      assert Names(s) == Names(s[..n]) + {s[n].candidate.hotkey};
      assert s[n].candidate.hotkey !in Names(s[..n]);
    }
  }

  lemma RotatedUnique(order: seq<Submission>, after: Option<Hotkey>)
    requires Unique(order)
    ensures Unique(Rotated(order, after)) && Names(Rotated(order, after)) == Names(order)
  {
    var k := ResumeAt(order, after);
    hide ResumeAt;
    assert order == order[..k] + order[k..];
    assert forall x :: x in Rotated(order, after) <==> x in order;
  }

  lemma PrecedingCount(s: seq<Submission>, h: Hotkey)
    requires Unique(s)
    ensures |Preceding(s, h)| == Place(s, h)
  {
    NamesCount(s[..Place(s, h)]);
  }

  lemma PlaceAt(s: seq<Submission>, p: nat)
    requires Unique(s) && p < |s|
    ensures Place(s, s[p].candidate.hotkey) == p
  {
  }

  lemma {:induction false} ResumeAfter(order: seq<Submission>, j: nat)
    requires Unique(order) && j < |order|
    ensures ResumeAt(order, Some(order[j].candidate.hotkey)) == j + 1
    decreases j
  {
    if j > 0 {
      ResumeAfter(order[1..], j - 1);
    }
  }

  function LastOfPair(order: seq<Submission>, after: Option<Hotkey>): Option<Hotkey>
    requires |order| >= 2
  {
    PairAt(order, after);
    Some(NextPair(order, after)[1].candidate.hotkey)
  }

  /** Serving a pair brings it to the back. */
  lemma NextRotation(order: seq<Submission>, after: Option<Hotkey>)
    requires Unique(order) && |order| >= 2
    ensures var s := Rotated(order, after);
      && NextPair(order, after) == s[..2] && Rotated(order, LastOfPair(order, after)) == s[2..] + s[..2]
  {
    PairAt(order, after);
    var k, n := ResumeAt(order, after), |order|;
    ResumeAfter(order, Wrap(k + 1, n));
    hide ResumeAt, Unique, NextPair;
    PastPair(order, k);
  }

  lemma PastPair(order: seq<Submission>, k: nat)
    requires |order| >= 2 && k <= |order|
    ensures var s, j := order[k..] + order[..k], Wrap(k + 1, |order|);
      && [order[Wrap(k, |order|)], order[j]] == s[..2] && order[j + 1..] + order[..j + 1] == s[2..] + s[..2]
  {
    var s, n := order[k..] + order[..k], |order|;
    if k == n - 1 {
      assert order[..k] == order[..1] + order[1..k];
    } else if k == n {
      assert s == order;
    } else {
      assert order[k..] == order[k..k + 2] + order[k + 2..];
    }
  }

  lemma SeatedNow(order: seq<Submission>, after: Option<Hotkey>, h: Hotkey)
    requires Unique(order) && |order| >= 2 && h in Names(order) && |Ahead(order, after, h)| < 2
    ensures h in Names(NextPair(order, after))
  {
    var s := Rotated(order, after);
    RotatedUnique(order, after);
    PrecedingCount(s, h);
    NextRotation(order, after);
    hide Rotated, ResumeAt, NextPair, Unique;
    var x :| x in s && x.candidate.hotkey == h;
    assert s[..2][Place(s, h)] == s[Place(s, h)];
  }

  lemma AheadShrinks(order: seq<Submission>, after: Option<Hotkey>, h: Hotkey)
    requires Unique(order) && |order| >= 2 && h in Names(order) && |Ahead(order, after, h)| >= 2
    ensures |Ahead(order, LastOfPair(order, after), h)| == |Ahead(order, after, h)| - 2
  {
    var s := Rotated(order, after);
    var next := s[2..] + s[..2];
    RotatedUnique(order, after);
    RotatedUnique(order, LastOfPair(order, after));
    NextRotation(order, after);
    PrecedingCount(s, h);
    PrecedingCount(next, h);
    hide Rotated, ResumeAt, NextPair, LastOfPair;
    var x :| x in s && x.candidate.hotkey == h;
    assert next[Place(s, h) - 2].candidate.hotkey == h;
    PlaceAt(next, Place(s, h) - 2);
  }

  /** So that among `n` candidates that stay the same nobody waits for more than `(n + 1) / 2` pairs. */
  lemma AheadBound(order: seq<Submission>, after: Option<Hotkey>, h: Hotkey)
    requires Unique(order) && h in Names(order)
    ensures |Ahead(order, after, h)| < |order|
    ensures NobodyCutsIn(order, order, after, h) && !Restarts(order, order, after)
  {
    var s := Rotated(order, after);
    RotatedUnique(order, after);
    PrecedingCount(s, h);
    hide Rotated;
    var x :| x in s && x.candidate.hotkey == h;
  }

  // ---------------------------------------------------------------- changing orders

  /** The last one served has left, so that the rotation begins again. */
  predicate Restarts(order: seq<Submission>, next: seq<Submission>, after: Option<Hotkey>)
  {
    ResumeAt(order, after) > 0 && ResumeAt(next, after) == 0
  }

  /** Candidates come and go, and nobody new gets in before `h`. */
  ghost predicate NobodyCutsIn(order: seq<Submission>, next: seq<Submission>, after: Option<Hotkey>, h: Hotkey)
  {
    && Preceding(next, h) <= Preceding(order, h)
    && (!Restarts(order, next, after) ==> Ahead(next, after, h) <= Ahead(order, after, h))
  }

  /** Whoever arrives behind `order[i]` while the turn has not passed it cuts nobody off. */
  lemma ArrivalsBehind(order: seq<Submission>, next: seq<Submission>, after: Option<Hotkey>, i: nat)
    requires Unique(order) && Unique(next) && i < |order| && order[..i + 1] <= next
    requires ResumeAt(order, after) <= i && ResumeAt(next, after) <= i
    ensures NobodyCutsIn(order, next, after, order[i].candidate.hotkey) && !Restarts(order, next, after)
  {
    hide ResumeAt, Preceding, Unique;
    SameTurn(order, next, after, i);
    SamePreceding(order, next, 0, i);
    SamePreceding(order, next, ResumeAt(order, after), i);
    assert order[0..] + order[..0] == order && next[0..] + next[..0] == next;
  }

  lemma SamePreceding(order: seq<Submission>, next: seq<Submission>, k: nat, i: nat)
    requires Unique(order) && Unique(next) && k <= i < |order| && order[..i + 1] <= next
    ensures Preceding(next[k..] + next[..k], order[i].candidate.hotkey) ==
            Preceding(order[k..] + order[..k], order[i].candidate.hotkey)
  {
    PrecedingAt(order, k, i);
    PrecedingAt(next, k, i);
    hide Preceding, Unique;
    assert next[i] == order[..i + 1][i] == order[i];
    assert next[k..i] == order[..i + 1][k..i] == order[k..i];
  }

  lemma SameTurn(order: seq<Submission>, next: seq<Submission>, after: Option<Hotkey>, i: nat)
    requires Unique(order) && Unique(next) && i < |order| && order[..i + 1] <= next
    requires ResumeAt(order, after) <= i && ResumeAt(next, after) <= i
    ensures ResumeAt(next, after) == ResumeAt(order, after)
  {
    var k, l := ResumeAt(order, after), ResumeAt(next, after);
    assert forall j :: 0 <= j <= i ==> next[j] == order[..i + 1][j] == order[j] && order[j] in order;
    if k > 0 {
      ResumeAfter(next, k - 1);
    } else if l > 0 {
      assert false;
    }
  }

  /** Before `order[i]`, from place `k` on. */
  lemma PrecedingAt(order: seq<Submission>, k: nat, i: nat)
    requires Unique(order) && k <= i < |order|
    ensures Preceding(order[k..] + order[..k], order[i].candidate.hotkey) == Names(order[k..i])
  {
    var s := order[k..] + order[..k];
    assert Unique(s) && s[i - k] == order[i];
    PlaceAt(s, i - k);
    assert s[..i - k] == order[k..i];
  }

  /** The order without the hotkeys that have left. */
  function Remaining(order: seq<Submission>, gone: set<Hotkey>): (r: seq<Submission>)
    ensures forall x :: x in r <==> x in order && x.candidate.hotkey !in gone
  {
    if order == [] then []
    else
      assert order == [order[0]] + order[1..];
      (if order[0].candidate.hotkey in gone then [] else [order[0]]) + Remaining(order[1..], gone)
  }

  lemma {:induction false} RemainingConcat(a: seq<Submission>, b: seq<Submission>, gone: set<Hotkey>)
    ensures Remaining(a + b, gone) == Remaining(a, gone) + Remaining(b, gone)
    decreases |a|
  {
    if a == [] {
      assert a + b == b;
    } else {
      assert (a + b)[1..] == a[1..] + b;
      RemainingConcat(a[1..], b, gone);
    }
  }

  lemma {:induction false} RemainingUnique(s: seq<Submission>, gone: set<Hotkey>)
    requires Unique(s)
    ensures Unique(Remaining(s, gone))
    decreases |s|
  {
    if s != [] {
      RemainingUnique(s[1..], gone);
      var rest := Remaining(s[1..], gone);
      forall j | 0 <= j < |rest|
        ensures rest[j].candidate.hotkey != s[0].candidate.hotkey
      {
        assert rest[j] in s[1..];
      }
    }
  }

  /** Of those before `h` the remaining ones are before it still. */
  lemma {:induction false} RemainingPreceding(s: seq<Submission>, gone: set<Hotkey>, h: Hotkey)
    requires h !in gone
    ensures Preceding(Remaining(s, gone), h) <= Preceding(s, h)
    decreases |s|
  {
    if s != [] && s[0].candidate.hotkey != h {
      var rest := Remaining(s[1..], gone);
      RemainingPreceding(s[1..], gone, h);
      PrecedingTail(s, h);
      if s[0].candidate.hotkey in gone {
        assert Remaining(s, gone) == rest;
      } else {
        PrecedingTail([s[0]] + rest, h);
        assert ([s[0]] + rest)[1..] == rest;
      }
    }
  }

  lemma PrecedingTail(s: seq<Submission>, h: Hotkey)
    requires s != [] && s[0].candidate.hotkey != h
    ensures Preceding(s, h) == {s[0].candidate.hotkey} + Preceding(s[1..], h)
  {
    var p := Place(s[1..], h);
    assert s[..p + 1] == [s[0]] + s[1..][..p];
  }

  /** Whoever retires or loses its registration cuts nobody off either. */
  lemma DeparturesCutNobody(order: seq<Submission>, gone: set<Hotkey>, after: Option<Hotkey>, h: Hotkey)
    requires Unique(order) && h !in gone
    ensures NobodyCutsIn(order, Remaining(order, gone), after, h)
    ensures Restarts(order, Remaining(order, gone), after) <==> after.Some? && after.value in Names(order) * gone
  {
    var next, k := Remaining(order, gone), ResumeAt(order, after);
    RemainingPreceding(order, gone, h);
    RemainingUnique(order, gone);
    if k > 0 {
      assert order[k - 1] in order;
      if after.value !in gone {
        StillAt(order, gone, k);
        RemainingPreceding(Rotated(order, after), gone, h);
        RemainingConcat(order[k..], order[..k], gone);
      }
    }
    NotResumed(next, after);
    NotResumed(order, after);
  }

  lemma NotResumed(order: seq<Submission>, after: Option<Hotkey>)
    ensures ResumeAt(order, after) > 0 <==> after.Some? && after.value in Names(order)
    ensures ResumeAt(order, after) == 0 ==> Rotated(order, after) == order
  {
    if ResumeAt(order, after) > 0 {
      assert order[ResumeAt(order, after) - 1] in order;
    }
  }

  /** The turn stands behind the same candidate. */
  lemma StillAt(order: seq<Submission>, gone: set<Hotkey>, k: nat)
    requires Unique(order) && 0 < k <= |order| && order[k - 1].candidate.hotkey !in gone
    ensures var after, front := Some(order[k - 1].candidate.hotkey), Remaining(order[..k], gone);
      && ResumeAt(Remaining(order, gone), after) == |front|
      && Rotated(Remaining(order, gone), after) == Remaining(order[k..], gone) + front
  {
    var front, back, x := Remaining(order[..k], gone), Remaining(order[k..], gone), order[k - 1];
    assert order == order[..k] + order[k..] && order[..k] == order[..k - 1] + [x];
    RemainingConcat(order[..k], order[k..], gone);
    RemainingConcat(order[..k - 1], [x], gone);
    assert Remaining([x], gone) == [x];
    RemainingUnique(order, gone);
    ResumeAfter(front + back, |front| - 1);
    hide ResumeAt;
    assert (front + back)[|front|..] == back && (front + back)[..|front|] == front;
  }
}
