/** Finite sums of real values over sets. */
module Sums {

  ghost function Sum<T(!new)>(s: set<T>, y: T -> real): real
  {
    if s == {} then 0.0
    else
      var x :| x in s;
      y(x) + Sum(s - {x}, y)
  }

  lemma {:induction false} SumPick<T(!new)>(s: set<T>, y: T -> real, x: T)
    requires x in s
    ensures Sum(s, y) == y(x) + Sum(s - {x}, y)
    decreases |s|
  {
    var z :| z in s && Sum(s, y) == y(z) + Sum(s - {z}, y);
    if z != x {
      SumPick(s - {z}, y, x);
      SumPick(s - {x}, y, z);
      assert s - {z} - {x} == s - {x} - {z};
    }
  }

  lemma {:induction false} SumAgree<T(!new)>(s: set<T>, y: T -> real, z: T -> real)
    requires forall x :: x in s ==> y(x) == z(x)
    ensures Sum(s, y) == Sum(s, z)
    decreases |s|
  {
    if s != {} {
      var x :| x in s;
      SumPick(s, y, x);
      SumPick(s, z, x);
      SumAgree(s - {x}, y, z);
    }
  }

  lemma {:induction false} SumBelow<T(!new)>(s: set<T>, y: T -> real, z: T -> real)
    requires forall x :: x in s ==> y(x) <= z(x)
    ensures Sum(s, y) <= Sum(s, z)
    decreases |s|
  {
    if s != {} {
      var x :| x in s;
      SumPick(s, y, x);
      SumPick(s, z, x);
      SumBelow(s - {x}, y, z);
    }
  }

  lemma {:induction false} SumNonNegative<T(!new)>(s: set<T>, y: T -> real)
    requires forall x :: x in s ==> y(x) >= 0.0
    ensures Sum(s, y) >= 0.0
    decreases |s|
  {
    if s != {} {
      var x :| x in s;
      SumPick(s, y, x);
      SumNonNegative(s - {x}, y);
    }
  }

  lemma {:induction false} SumZero<T(!new)>(s: set<T>, y: T -> real)
    requires forall x :: x in s ==> y(x) == 0.0
    ensures Sum(s, y) == 0.0
    decreases |s|
  {
    if s != {} {
      var x :| x in s;
      SumPick(s, y, x);
      SumZero(s - {x}, y);
    }
  }

  lemma {:induction false} SumSplit<T(!new)>(a: set<T>, b: set<T>, y: T -> real)
    requires a !! b
    ensures Sum(a + b, y) == Sum(a, y) + Sum(b, y)
    decreases |a|
  {
    if a == {} {
      assert a + b == b;
    } else {
      var x :| x in a;
      SumPick(a, y, x);
      SumPick(a + b, y, x);
      assert a + b - {x} == (a - {x}) + b;
      SumSplit(a - {x}, b, y);
    }
  }

  /** Changing one summand changes the sum by the same amount. */
  lemma SumChange<T(!new)>(s: set<T>, y: T -> real, z: T -> real, x: T)
    requires forall w :: w in s && w != x ==> y(w) == z(w)
    ensures Sum(s, z) == Sum(s, y) + if x in s then z(x) - y(x) else 0.0
  {
    if x in s {
      SumPick(s, y, x);
      SumPick(s, z, x);
      SumAgree(s - {x}, y, z);
    } else {
      SumAgree(s, y, z);
    }
  }

  lemma SumSubset<T(!new)>(a: set<T>, b: set<T>, y: T -> real)
    requires a <= b && forall x :: x in b ==> y(x) >= 0.0
    ensures Sum(a, y) <= Sum(b, y)
  {
    SumSplit(a, b - a, y);
    assert a + (b - a) == b;
    SumNonNegative(b - a, y);
  }

  lemma {:induction false} SumOnes<T(!new)>(s: set<T>, y: T -> real)
    requires forall x :: x in s ==> y(x) <= 1.0
    ensures Sum(s, y) <= |s| as real
    decreases |s|
  {
    if s != {} {
      var x :| x in s;
      SumPick(s, y, x);
      SumOnes(s - {x}, y);
    }
  }
}
