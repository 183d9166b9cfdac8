/**
 The round-robin position of every owner. Entering or being served puts an owner behind
 everybody; whoever waits longest among the ready owners is served next.
 */
module Turns {

  type Owner = string

  type Table = map<Owner, nat>

  ghost predicate Greatest(turns: Table, k: Owner) { k in turns && forall j :: j in turns ==> turns[j] <= turns[k] }

  lemma {:induction false} GreatestExists(turns: Table) returns (k: Owner)
    requires turns != map[]
    ensures Greatest(turns, k)
    decreases |turns|
  {
    var x :| x in turns;
    var rest := turns - {x};
    if rest == map[] {
      k := x;
      assert forall j :: j in turns ==> j == x || j in rest;
    } else {
      var y := GreatestExists(rest);
      k := if turns[y] <= turns[x] then x else y;
      assert forall j :: j in turns && j != x ==> j in rest && rest[j] == turns[j];
    }
  }

  /** `COALESCE(MAX(turn), 0)` */
  function Latest(turns: Table): (n: nat)
    ensures forall k :: k in turns ==> turns[k] <= n
  {
    if turns == map[] then 0
    else
      assert exists n :: n in turns.Values && forall m :: m in turns.Values ==> m <= n by {
        var k := GreatestExists(turns);
        assert turns[k] in turns.Values;
      }
      var n :| n in turns.Values && forall m :: m in turns.Values ==> m <= n;
      assert forall k :: k in turns ==> turns[k] in turns.Values;
      n
  }

  /** `INSERT OR IGNORE`: a new owner joins at the back. */
  function Enter(turns: Table, k: Owner): Table
  {
    if k in turns then turns else turns[k := Latest(turns) + 1]
  }

  /** Being served sends an owner to the back. */
  function Serve(turns: Table, k: Owner): Table
  {
    if k in turns then turns[k := Latest(turns) + 1] else turns
  }

  ghost predicate Distinct(turns: Table)
  {
    forall j, k :: j in turns && k in turns && turns[j] == turns[k] ==> j == k
  }

  lemma EnterDistinct(turns: Table, k: Owner)
    requires Distinct(turns)
    ensures Distinct(Enter(turns, k)) && forall j :: j in turns ==>
      j in Enter(turns, k) && Enter(turns, k)[j] == turns[j]
  {
  }

  lemma ServeDistinct(turns: Table, k: Owner)
    requires Distinct(turns)
    ensures Distinct(Serve(turns, k)) && Serve(turns, k).Keys == turns.Keys
  {
  }

  /** Owners with an earlier turn. */
  function Ahead(turns: Table, k: Owner): set<Owner>
    requires k in turns
  {
    set j | j in turns && turns[j] < turns[k]
  }

  lemma EnterKeepsAhead(turns: Table, j: Owner, k: Owner)
    requires k in turns
    ensures k in Enter(turns, j) && Ahead(Enter(turns, j), k) == Ahead(turns, k)
  {
  }

  /** Serving somebody ahead of `k` brings `k` one place forward; serving anybody else changes nothing for `k`. */
  lemma ServeShrinksAhead(turns: Table, j: Owner, k: Owner)
    requires k in turns && j in turns && j != k
    ensures k in Serve(turns, j) && Ahead(Serve(turns, j), k) == Ahead(turns, k) - {j}
  {
  }
}
