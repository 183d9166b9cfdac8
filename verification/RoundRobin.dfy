/**
 Taking turns between owners: every owner with work left serves one item per round,
 its own items first in, first out. Both the ledger's first coronation and the
 dispatch queue draw from this order.
 */
module RoundRobin {
  import opened Common

  type Owner = string

  /** The work of one owner. A dictionary of lists is the sequence of its entries in insertion order. */
  datatype Group<V> = Group(owner: Owner, items: seq<V>)

  predicate Occupied<V>(groups: seq<Group<V>>)
  {
    forall i :: 0 <= i < |groups| ==> groups[i].items != []
  }

  // ---------------------------------------------------------------- grouping by owner

  /** `groups.setdefault(owner, []).append(v)` */
  function Append<V>(groups: seq<Group<V>>, owner: Owner, v: V): (r: seq<Group<V>>)
    ensures Occupied(groups) ==> Occupied(r)
  {
    if groups == [] then [Group(owner, [v])]
    else if groups[0].owner == owner then [Group(owner, groups[0].items + [v])] + groups[1..]
    else [groups[0]] + Append(groups[1..], owner, v)
  }

  function Grouped<V>(rows: seq<V>, owner: V -> Owner): (r: seq<Group<V>>)
    ensures Occupied(r)
  {
    if rows == [] then []
    else Append(Grouped(rows[..|rows| - 1], owner), owner(rows[|rows| - 1]), rows[|rows| - 1])
  }

  // ---------------------------------------------------------------- one round after another

  function Heads<V>(groups: seq<Group<V>>): (r: seq<V>)
    requires Occupied(groups)
    ensures |r| == |groups|
    ensures forall i :: 0 <= i < |r| ==> r[i] == groups[i].items[0]
  {
    if groups == [] then []
    else Heads(groups[..|groups| - 1]) + [groups[|groups| - 1].items[0]]
  }

  /** The owners that still have work after serving one item, and that work. */
  function Tails<V>(groups: seq<Group<V>>): (r: seq<Group<V>>)
    requires Occupied(groups)
    ensures Occupied(r)
  {
    if groups == [] then []
    else
      var front, last := Tails(groups[..|groups| - 1]), groups[|groups| - 1];
      if |last.items| == 1 then front else front + [Group(last.owner, last.items[1..])]
  }

  function Size<V>(groups: seq<Group<V>>): nat
  {
    if groups == [] then 0 else Size(groups[..|groups| - 1]) + |groups[|groups| - 1].items|
  }

  lemma {:induction false} TailsShrink<V>(groups: seq<Group<V>>)
    requires Occupied(groups)
    ensures Size(Tails(groups)) + |groups| == Size(groups)
    decreases |groups|
  {
    if groups != [] {
      var front, last := groups[..|groups| - 1], groups[|groups| - 1];
      TailsShrink(front);
      if |last.items| != 1 {
        var rest := Tails(front) + [Group(last.owner, last.items[1..])];
        assert Tails(groups) == rest && rest[..|rest| - 1] == Tails(front);
        assert Size(rest) == Size(Tails(front)) + |last.items[1..]|;
      }
    }
  }

  /** The whole order of service. */
  function Rounds<V>(groups: seq<Group<V>>): (r: seq<V>)
    requires Occupied(groups)
    ensures |r| == Size(groups)
    decreases Size(groups)
  {
    TailsShrink(groups);
    if groups == [] then [] else Heads(groups) + Rounds(Tails(groups))
  }

  function Take<V>(s: seq<V>, count: Option<nat>): seq<V>
  {
    if count.Some? && count.value < |s| then s[..count.value] else s
  }

  lemma Middle<T>(done: seq<T>, x: T, rest: seq<T>, s: seq<T>)
    requires s == done + ([x] + rest)
    ensures |s| == |done| + 1 + |rest| && s[|done|] == x
    ensures s[..|done|] + s[|done| + 1..] == done + rest
    ensures forall y :: s[|done| := y] == (done + [y]) + rest
  {
  }

  /** The dictionary once the first `i` owners have served: those emptied are deleted in place. */
  function Served<V>(before: seq<Group<V>>, i: nat): seq<Group<V>>
    requires i <= |before| && Occupied(before)
  {
    Tails(before[..i]) + before[i..]
  }

  function Place<V>(before: seq<Group<V>>, i: nat): nat
    requires i <= |before| && Occupied(before)
  {
    |Tails(before[..i])|
  }

  lemma TailsAppend<V>(groups: seq<Group<V>>, g: Group<V>)
    requires Occupied(groups) && g.items != []
    ensures Occupied(groups + [g])
    ensures Tails(groups + [g]) == if |g.items| == 1 then Tails(groups)
      else Tails(groups) + [Group(g.owner, g.items[1..])]
  {
    assert (groups + [g])[..|groups|] == groups;
  }

  lemma ServeNext<V>(before: seq<Group<V>>, i: nat)
    requires i < |before| && Occupied(before)
    ensures var groups, at, items := Served(before, i), Place(before, i), before[i].items;
      && items != [] && Heads(before)[i] == items[0] && at < |groups| && groups[at] == before[i]
      && (|items| == 1 ==> Served(before, i + 1) == groups[..at] + groups[at + 1..] && Place(before, i + 1) == at)
      && (|items| != 1 ==> Served(before, i + 1) == groups[at := Group(before[i].owner, items[1..])]
                           && Place(before, i + 1) == at + 1)
  {
    assert before[..i + 1][..i] == before[..i];
    assert before[i..] == [before[i]] + before[i + 1..];
    assert before[..i + 1] == before[..i] + [before[i]];
    TailsAppend(before[..i], before[i]);
    hide Tails, Heads, Occupied;
    Middle(Tails(before[..i]), before[i], before[i + 1..], Served(before, i));
  }

  lemma ServeEnds<V>(before: seq<Group<V>>)
    requires Occupied(before)
    ensures Served(before, 0) == before && Place(before, 0) == 0
    ensures Served(before, |before|) == Tails(before)
  {
    assert before[..|before|] == before;
  }

  /** The next owner pops its head and is deleted when nothing is left. */
  method Pop<V>(groups: seq<Group<V>>, at: nat) returns (item: V, rest: seq<Group<V>>, next: nat)
    requires at < |groups| && groups[at].items != []
    ensures item == groups[at].items[0]
    ensures |groups[at].items| == 1 ==> rest == groups[..at] + groups[at + 1..] && next == at
    ensures |groups[at].items| != 1 ==>
      rest == groups[at := Group(groups[at].owner, groups[at].items[1..])] && next == at + 1
  {
    var group := groups[at];
    item := group.items[0];
    if |group.items| == 1 {
      return item, groups[..at] + groups[at + 1..], at;
    }
    return item, groups[at := Group(group.owner, group.items[1..])], at + 1;
  }

  /** One pass over the owners, cut short when `room` items are out. */
  method ServeRound<V>(before: seq<Group<V>>, room: Option<nat>) returns (groups: seq<Group<V>>, served: seq<V>)
    requires Occupied(before)
    ensures served == Take(Heads(before), room)
    ensures room == None || room.value >= |before| ==> groups == Tails(before)
  {
    hide Tails, Heads, Served, Place, Occupied;
    groups, served := before, [];
    var at, i := 0, 0;
    ServeEnds(before);
    while i < |before| && (room == None || i < room.value)
      invariant 0 <= i <= |before| && (room.Some? ==> i <= room.value)
      invariant groups == Served(before, i) && at == Place(before, i)
      invariant served == Heads(before)[..i]
    {
      ServeNext(before, i);
      var item;
      item, groups, at := Pop(groups, at);
      served := served + [item];
      i := i + 1;
    }
    assert served == Take(Heads(before), room);
  }

  lemma Unfold<V>(groups: seq<Group<V>>)
    requires Occupied(groups) && groups != []
    ensures Rounds(groups) == Heads(groups) + Rounds(Tails(groups)) && Occupied(Tails(groups))
    ensures Size(Tails(groups)) < Size(groups)
  {
    TailsShrink(groups);
  }

  /** Round after round until the owners run dry or `count` items are out. */
  method TakeTurns<V>(all: seq<Group<V>>, count: Option<nat>) returns (result: seq<V>)
    requires Occupied(all)
    ensures result == Take(Rounds(all), count)
  {
    result := [];
    var groups := all;
    hide Tails, Heads, Size, Rounds, Occupied;
    while groups != [] && (count == None || |result| < count.value)
      invariant Occupied(groups) && Rounds(all) == result + Rounds(groups)
      invariant count.Some? ==> |result| <= count.value
      decreases Size(groups)
    {
      ghost var before := groups;
      Unfold(before);
      var room := if count == None then None else Some(count.value - |result|);
      var served;
      groups, served := ServeRound(groups, room);
      result := result + served;
      if count.Some? && |result| == count.value {
        return;
      }
    }
    NothingLeft(groups);
  }

  lemma NothingLeft<V>(groups: seq<Group<V>>)
    requires Occupied(groups)
    ensures groups == [] ==> Rounds(groups) == []
  {
  }

  // ---------------------------------------------------------------- what the order is

  predicate At<V>(groups: seq<Group<V>>, i: nat, d: nat) { i < |groups| && d < |groups[i].items| }

  /** When item `d` of owner `i` is served. */
  function Slot<V>(groups: seq<Group<V>>, i: nat, d: nat): nat
    requires Occupied(groups) && At(groups, i, d)
    decreases d
  {
    TailAt(groups, i);
    if d == 0 then i else |groups| + Slot(Tails(groups), Place(groups, i), d - 1)
  }

  lemma {:induction false} TailAt<V>(groups: seq<Group<V>>, i: nat)
    requires Occupied(groups) && i < |groups|
    ensures var items := groups[i].items;
      |items| > 1 ==>
        Place(groups, i) < |Tails(groups)| && Tails(groups)[Place(groups, i)] == Group(groups[i].owner, items[1..])
    decreases |groups|
  {
    var n := |groups| - 1;
    assert groups[..n][..i] == groups[..i];
    if i < n {
      TailAt(groups[..n], i);
      assert Place(groups[..n], i) == Place(groups, i);
    }
  }

  lemma {:induction false} PlaceGrows<V>(groups: seq<Group<V>>, i: nat, j: nat)
    requires Occupied(groups) && i <= j <= |groups|
    ensures Place(groups, i) <= Place(groups, j)
    ensures i < j && |groups[i].items| > 1 ==> Place(groups, i) < Place(groups, j)
    decreases j - i
  {
    if i < j {
      PlaceGrows(groups, i, j - 1);
      assert groups[..j][..j - 1] == groups[..j - 1];
    }
  }

  lemma {:induction false} PlaceOnto<V>(groups: seq<Group<V>>, q: nat) returns (i: nat)
    requires Occupied(groups) && q < |Tails(groups)|
    ensures i < |groups| && |groups[i].items| > 1 && Place(groups, i) == q
    decreases |groups|
  {
    var n := |groups| - 1;
    if q < |Tails(groups[..n])| {
      i := PlaceOnto(groups[..n], q);
      assert groups[..n][..i] == groups[..i];
    } else {
      i := n;
    }
  }

  /** Item `d` of owner `i` is served exactly at its slot. */
  lemma {:induction false} SlotHolds<V>(groups: seq<Group<V>>, i: nat, d: nat)
    requires Occupied(groups) && At(groups, i, d)
    ensures Slot(groups, i, d) < |Rounds(groups)| && Rounds(groups)[Slot(groups, i, d)] == groups[i].items[d]
    decreases d
  {
    hide Rounds, Tails, Heads, Size, Place, Occupied;
    Unfold(groups);
    TailAt(groups, i);
    Split(Heads(groups), Rounds(Tails(groups)), Rounds(groups));
    if d == 0 {
      assert Rounds(groups)[i] == Heads(groups)[i];
    } else {
      var q := Slot(Tails(groups), Place(groups, i), d - 1);
      SlotHolds(Tails(groups), Place(groups, i), d - 1);
      assert Rounds(groups)[|groups| + q] == Rounds(Tails(groups))[q];
    }
  }

  lemma Split<T>(a: seq<T>, b: seq<T>, s: seq<T>)
    requires s == a + b
    ensures forall i :: 0 <= i < |a| ==> s[i] == a[i]
    ensures forall i :: 0 <= i < |b| ==> s[|a| + i] == b[i]
  {
  }

  /** Layer by layer: nobody gets turn `d + 1` before every owner with that much work got turn `d`. */
  lemma {:induction false} SlotOrdered<V>(groups: seq<Group<V>>, i: nat, d: nat, j: nat, e: nat)
    requires Occupied(groups) && At(groups, i, d) && At(groups, j, e)
    ensures Slot(groups, i, d) < Slot(groups, j, e) <==> d < e || (d == e && i < j)
    decreases d + e
  {
    if d > 0 && e > 0 {
      TailAt(groups, i);
      TailAt(groups, j);
      SlotOrdered(Tails(groups), Place(groups, i), d - 1, Place(groups, j), e - 1);
      if i < j {
        PlaceGrows(groups, i, j);
      } else if j < i {
        PlaceGrows(groups, j, i);
      }
    }
  }

  /** Every turn belongs to some item. */
  lemma {:induction false} SlotOnto<V>(groups: seq<Group<V>>, p: nat) returns (i: nat, d: nat)
    requires Occupied(groups) && p < |Rounds(groups)|
    ensures At(groups, i, d) && Slot(groups, i, d) == p
    decreases Size(groups)
  {
    hide Rounds, Tails, Heads, Size, Place, Occupied, Slot;
    if p < |groups| {
      i, d := p, 0;
      FirstSlot(groups, p);
    } else {
      NothingLeft(groups);
      Unfold(groups);
      var q, e := SlotOnto(Tails(groups), p - |groups|);
      i := PlaceOnto(groups, q);
      d := e + 1;
      NextSlot(groups, i, e);
    }
  }

  lemma FirstSlot<V>(groups: seq<Group<V>>, i: nat)
    requires Occupied(groups) && i < |groups|
    ensures At(groups, i, 0) && Slot(groups, i, 0) == i
  {
    assert groups[i].items != [];
  }

  /** A later turn in these groups is an earlier one in what is left. */
  lemma NextSlot<V>(groups: seq<Group<V>>, i: nat, e: nat)
    requires Occupied(groups) && i < |groups| && |groups[i].items| > 1 && At(Tails(groups), Place(groups, i), e)
    ensures At(groups, i, e + 1) && Slot(groups, i, e + 1) == |groups| + Slot(Tails(groups), Place(groups, i), e)
  {
    TailAt(groups, i);
  }

  /**
   Depth layers: what stands at position `p` is some owner's item number `d`, and every item with a
   smaller number, or the same number and an earlier owner, stands before it.
   */
  lemma TakeIsLayered<V>(groups: seq<Group<V>>, count: Option<nat>, p: nat) returns (i: nat, d: nat)
    requires Occupied(groups) && p < |Take(Rounds(groups), count)|
    ensures At(groups, i, d) && Take(Rounds(groups), count)[p] == groups[i].items[d]
    ensures forall j: nat, e: nat :: At(groups, j, e) && (e < d || (e == d && j < i)) ==>
              Slot(groups, j, e) < p && Take(Rounds(groups), count)[Slot(groups, j, e)] == groups[j].items[e]
  {
    hide Rounds, Slot;
    i, d := SlotOnto(groups, p);
    SlotHolds(groups, i, d);
    forall j: nat, e: nat | At(groups, j, e) && (e < d || (e == d && j < i))
      ensures Slot(groups, j, e) < p
      ensures Take(Rounds(groups), count)[Slot(groups, j, e)] == groups[j].items[e]
    {
      SlotHolds(groups, j, e);
      SlotOrdered(groups, j, e, i, d);
    }
  }

  // ---------------------------------------------------------------- what grouping keeps

  predicate Distinct<T(==)>(s: seq<T>) { forall i, j :: 0 <= i < j < |s| ==> s[i] != s[j] }

  /** The rows of one owner, in their order. */
  function RowsOf<V>(rows: seq<V>, owner: V -> Owner, o: Owner): (r: seq<V>)
    ensures forall v :: v in r ==> v in rows && owner(v) == o
  {
    if rows == [] then []
    else
      var front, last := RowsOf(rows[..|rows| - 1], owner, o), rows[|rows| - 1];
      if owner(last) == o then front + [last] else front
  }

  /** Owners in the order of their first row. */
  function FirstSeen<V>(rows: seq<V>, owner: V -> Owner): (r: seq<Owner>)
    ensures Distinct(r)
    ensures forall o :: o in r <==> exists i :: 0 <= i < |rows| && owner(rows[i]) == o
  {
    if rows == [] then []
    else
      var front, last := FirstSeen(rows[..|rows| - 1], owner), owner(rows[|rows| - 1]);
      assert forall i :: 0 <= i < |rows| - 1 ==> rows[i] == rows[..|rows| - 1][i];
      if last in front then front else front + [last]
  }

  lemma {:induction false} AppendAt<V>(groups: seq<Group<V>>, o: Owner, v: V, i: nat)
    requires i <= |groups| && (forall j :: 0 <= j < i ==> groups[j].owner != o)
    requires i < |groups| ==> groups[i].owner == o
    ensures i < |groups| ==> Append(groups, o, v) == groups[i := Group(o, groups[i].items + [v])]
    ensures i == |groups| ==> Append(groups, o, v) == groups + [Group(o, [v])]
    decreases i
  {
    if i > 0 {
      AppendAt(groups[1..], o, v, i - 1);
    }
  }

  /** The groups are those of the named owners, each holding that owner's rows in order. */
  ghost predicate GroupsOf<V>(rows: seq<V>, owner: V -> Owner, names: seq<Owner>, g: seq<Group<V>>)
  {
    |g| == |names| && forall i :: 0 <= i < |g| ==> g[i] == Group(names[i], RowsOf(rows, owner, names[i]))
  }

  /** One group per owner, in order of first appearance. */
  lemma {:induction false} GroupedRows<V>(rows: seq<V>, owner: V -> Owner)
    ensures GroupsOf(rows, owner, FirstSeen(rows, owner), Grouped(rows, owner))
    decreases |rows|
  {
    if rows != [] {
      var front, last := rows[..|rows| - 1], rows[|rows| - 1];
      GroupedRows(front, owner);
      var g, names := Grouped(front, owner), FirstSeen(front, owner);
      hide GroupsOf, FirstSeen, Grouped;
      LastGrouped(rows, owner);
      LastSeen(rows, owner);
      if owner(last) in names {
        var i :| 0 <= i < |names| && names[i] == owner(last);
        KnownOwner(rows, owner, names, g, i);
      } else {
        NoRows(front, owner, owner(last));
        NewOwner(rows, owner, names, g);
      }
    }
  }

  ghost predicate OwnsNone<V>(rows: seq<V>, owner: V -> Owner, o: Owner)
  {
    forall i :: 0 <= i < |rows| ==> owner(rows[i]) != o
  }

  lemma LastSeen<V>(rows: seq<V>, owner: V -> Owner)
    requires rows != []
    ensures var names, o := FirstSeen(rows[..|rows| - 1], owner), owner(rows[|rows| - 1]);
      Distinct(names) && FirstSeen(rows, owner) == (if o in names then names else names + [o])
    ensures owner(rows[|rows| - 1]) !in FirstSeen(rows[..|rows| - 1], owner) ==>
              OwnsNone(rows[..|rows| - 1], owner, owner(rows[|rows| - 1]))
  {
  }

  lemma KnownOwner<V>(rows: seq<V>, owner: V -> Owner, names: seq<Owner>, g: seq<Group<V>>, i: nat)
    requires rows != [] && Distinct(names) && GroupsOf(rows[..|rows| - 1], owner, names, g)
    requires i < |names| && names[i] == owner(rows[|rows| - 1])
    ensures GroupsOf(rows, owner, names, Append(g, names[i], rows[|rows| - 1]))
  {
    hide Append;
    AppendAt(g, names[i], rows[|rows| - 1], i);
  }

  lemma NewOwner<V>(rows: seq<V>, owner: V -> Owner, names: seq<Owner>, g: seq<Group<V>>)
    requires rows != [] && GroupsOf(rows[..|rows| - 1], owner, names, g)
    requires owner(rows[|rows| - 1]) !in names && RowsOf(rows[..|rows| - 1], owner, owner(rows[|rows| - 1])) == []
    ensures var o := owner(rows[|rows| - 1]); GroupsOf(rows, owner, names + [o], Append(g, o, rows[|rows| - 1]))
  {
    hide Append;
    AppendAt(g, owner(rows[|rows| - 1]), rows[|rows| - 1], |g|);
  }

  /** Everything in a group is a row of its owner. */
  lemma GroupMembers<V>(rows: seq<V>, owner: V -> Owner, g: Group<V>)
    requires g in Grouped(rows, owner)
    ensures g.items != [] && g.items == RowsOf(rows, owner, g.owner)
    ensures forall d :: 0 <= d < |g.items| ==> g.items[d] in rows && owner(g.items[d]) == g.owner
  {
    GroupedRows(rows, owner);
    var i :| 0 <= i < |Grouped(rows, owner)| && Grouped(rows, owner)[i] == g;
    assert g == Group(FirstSeen(rows, owner)[i], RowsOf(rows, owner, FirstSeen(rows, owner)[i]));
    hide Grouped, FirstSeen, GroupsOf;
    assert forall d :: 0 <= d < |g.items| ==> g.items[d] in RowsOf(rows, owner, g.owner);
  }

  lemma {:induction false} NoRows<V>(rows: seq<V>, owner: V -> Owner, o: Owner)
    requires OwnsNone(rows, owner, o)
    ensures RowsOf(rows, owner, o) == []
    decreases |rows|
  {
    if rows != [] {
      NoRows(rows[..|rows| - 1], owner, o);
    }
  }

  // ---------------------------------------------------------------- nothing is lost or repeated

  ghost function Work<V>(groups: seq<Group<V>>): multiset<V>
  {
    if groups == [] then multiset{}
    else Work(groups[..|groups| - 1]) + multiset(groups[|groups| - 1].items)
  }

  lemma {:induction false} WorkConcat<V>(a: seq<Group<V>>, b: seq<Group<V>>)
    ensures Work(a + b) == Work(a) + Work(b)
    decreases |b|
  {
    if b == [] {
      assert a + b == a;
    } else {
      assert (a + b)[..|a + b| - 1] == a + b[..|b| - 1];
      WorkConcat(a, b[..|b| - 1]);
    }
  }

  lemma {:induction false} WorkServed<V>(groups: seq<Group<V>>)
    requires Occupied(groups)
    ensures Work(groups) == multiset(Heads(groups)) + Work(Tails(groups))
    decreases |groups|
  {
    if groups != [] {
      LastServed(groups);
      hide Work, Heads, Tails, Occupied;
      var front, last := groups[..|groups| - 1], groups[|groups| - 1];
      WorkServed(front);
      assert multiset(Heads(groups)) == multiset(Heads(front)) + multiset{last.items[0]};
      assert last.items == [last.items[0]] + last.items[1..];
      assert multiset(last.items) == multiset{last.items[0]} + multiset(last.items[1..]);
      if |last.items| == 1 {
        assert last.items[1..] == [];
      } else {
        WorkOne(Tails(front), Group(last.owner, last.items[1..]));
      }
    }
  }

  lemma LastServed<V>(groups: seq<Group<V>>)
    requires Occupied(groups) && groups != []
    ensures var front, last := groups[..|groups| - 1], groups[|groups| - 1];
      && last.items != [] && Occupied(front) && Heads(groups) == Heads(front) + [last.items[0]]
      && Work(groups) == Work(front) + multiset(last.items)
      && Tails(groups) == (if |last.items| == 1 then Tails(front)
        else Tails(front) + [Group(last.owner, last.items[1..])])
  {
  }

  lemma WorkOne<V>(groups: seq<Group<V>>, g: Group<V>)
    ensures Work(groups + [g]) == Work(groups) + multiset(g.items)
  {
    assert (groups + [g])[..|groups|] == groups;
  }

  lemma {:induction false} WorkAppend<V>(groups: seq<Group<V>>, o: Owner, v: V)
    ensures Work(Append(groups, o, v)) == Work(groups) + multiset{v}
    decreases |groups|
  {
    var r := Append(groups, o, v);
    if groups == [] {
      assert r[..0] == [];
      assert multiset([v]) == multiset{v};
    } else {
      var head, rest := groups[0], groups[1..];
      assert groups == [head] + rest;
      WorkConcat([head], rest);
      assert [head][..0] == [];
      if head.owner == o {
        var grown := Group(o, head.items + [v]);
        WorkConcat([grown], rest);
        assert [grown][..0] == [];
      } else {
        WorkAppend(rest, o, v);
        WorkConcat([head], Append(rest, o, v));
      }
    }
  }

  lemma {:induction false} RoundsServeAll<V>(groups: seq<Group<V>>)
    requires Occupied(groups)
    ensures multiset(Rounds(groups)) == Work(groups)
    decreases Size(groups)
  {
    if groups == [] {
      NothingLeft(groups);
    } else {
      Unfold(groups);
      WorkServed(groups);
      hide Work, Heads, Tails, Size, Rounds, Occupied;
      RoundsServeAll(Tails(groups));
    }
  }

  /** Taking turns only reorders the rows. */
  lemma {:induction false} TurnsKeepRows<V>(rows: seq<V>, owner: V -> Owner)
    ensures multiset(Rounds(Grouped(rows, owner))) == multiset(rows)
  {
    GroupedWork(rows, owner);
    RoundsServeAll(Grouped(rows, owner));
  }

  lemma {:induction false} GroupedWork<V>(rows: seq<V>, owner: V -> Owner)
    ensures Work(Grouped(rows, owner)) == multiset(rows)
    decreases |rows|
  {
    hide Grouped, Append, Work;
    if rows == [] {
      NothingGrouped(rows, owner);
    } else {
      LastGrouped(rows, owner);
      var front, last := rows[..|rows| - 1], rows[|rows| - 1];
      GroupedWork(front, owner);
      WorkAppend(Grouped(front, owner), owner(last), last);
      assert rows == front + [last];
      assert multiset(rows) == multiset(front) + multiset{last};
    }
  }

  lemma NothingGrouped<V>(rows: seq<V>, owner: V -> Owner)
    requires rows == []
    ensures Work(Grouped(rows, owner)) == multiset(rows)
  {
  }

  lemma LastGrouped<V>(rows: seq<V>, owner: V -> Owner)
    requires rows != []
    ensures Grouped(rows, owner) == Append(Grouped(rows[..|rows| - 1], owner), owner(rows[|rows| - 1]),
      rows[|rows| - 1])
  {
  }
}
