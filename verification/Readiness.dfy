/**
 What the dispatch order means in terms of rows: which rows may be dispatched now, and the one
 order they are dispatched in. No group, no sort and no loop occurs in the statements.
 */
module Readiness {
  import opened Common
  import opened Decide
  import opened Queue
  import opened RoundRobin
  import Ordering
  import Fairness
  import Lifecycle
  import Schedule
  import Turns

  // ---------------------------------------------------------------- rows in the running

  /** The block a row counts from: its readmission, or else its commitment. */
  function Age(e: Entry): nat { if e.readmission.Some? then e.readmission.value else e.block }

  predicate Unsettled(e: Entry) { e.status == Queued || e.status == Running || e.status == Failed }

  /** The rows that wait for a window opened at block `before`. */
  ghost function Waiters(q: Tables, before: nat): set<nat>
  {
    set i | 0 <= i < |q.rows| && Unsettled(q.rows[i]) && q.rows[i].owner in q.turns && Age(q.rows[i]) < before
  }

  /** Row `i` of an owner comes before its row `j`. */
  predicate Sooner(q: Tables, i: nat, j: nat)
  {
    i < |q.rows| && j < |q.rows| && q.rows[i].owner == q.rows[j].owner &&
    (Age(q.rows[i]) < Age(q.rows[j]) ||
     (Age(q.rows[i]) == Age(q.rows[j]) && Ordering.Less(q.rows[i].hotkey, q.rows[j].hotkey)))
  }

  /** No row of its owner in the pool comes before it. */
  ghost predicate Foremost(q: Tables, pool: set<nat>, f: nat)
  {
    f in pool && forall j :: j in pool ==> !Sooner(q, j, f)
  }

  /** `f` is a first row of the owner of `i`. */
  ghost predicate Leads(q: Tables, pool: set<nat>, f: nat, i: nat)
  {
    Foremost(q, pool, f) && f < |q.rows| && i < |q.rows| && q.rows[f].owner == q.rows[i].owner
  }

  lemma WaitersMean(q: Tables, before: nat)
    ensures forall i: nat :: i in Waiters(q, before) <==> Waiting(q, i, before)
    ensures forall i: nat :: i in Waiters(q, before) <==> i in WaitingIds(q, before, |q.rows|)
  {
  }

  // ---------------------------------------------------------------- who may be dispatched now

  lemma PrecedesMeans(q: Tables, i: nat, j: nat)
    requires Fairness.Precedes(q, i, j) && q.rows[i].owner == q.rows[j].owner
    ensures !Sooner(q, j, i)
  {
    var x, y := q.rows[i].hotkey, q.rows[j].hotkey;
    Ordering.LessIrreflexive(x);
    if Ordering.Less(x, y) && Ordering.Less(y, x) {
      Ordering.LessTransitive(x, y, x);
    }
  }

  lemma OwnRow(ids: seq<nat>, q: Tables, g: Group<nat>, id: nat)
    requires g in Grouped(ids, OwnerOf(q)) && id in ids && OwnerOf(q)(id) == g.owner
    ensures id in g.items
  {
    GroupMembers(ids, OwnerOf(q), g);
    hide Grouped;
    RowsOfAll(ids, OwnerOf(q), g.owner, id);
  }

  lemma {:induction false} RowsOfAll<V>(rows: seq<V>, owner: V -> Owner, o: Owner, v: V)
    requires v in rows && owner(v) == o
    ensures v in RowsOf(rows, owner, o)
    decreases |rows|
  {
    if v != rows[|rows| - 1] {
      RowsOfAll(rows[..|rows| - 1], owner, o, v);
    }
  }

  /** The head of a group is a first row of its owner. */
  lemma HeadLeads(q: Tables, pool: set<nat>, ids: seq<nat>, before: nat, g: Group<nat>)
    requires Fairness.InOrder(q, ids, before) && (forall i :: i in ids <==> i in pool)
    requires g in Grouped(ids, OwnerOf(q))
    ensures g.items != [] && g.items[0] in pool && g.items[0] < |q.rows| && q.rows[g.items[0]].owner == g.owner
    ensures Foremost(q, pool, g.items[0])
  {
    GroupMembers(ids, OwnerOf(q), g);
    Fairness.RowsInOrder(q, before, ids, g.owner);
    hide Grouped, RowsOf;
    var f := g.items[0];
    assert f in ids;
    forall j | j in pool && Sooner(q, j, f)
      ensures false
    {
      OwnRow(ids, q, g, j);
      var k :| 0 <= k < |g.items| && g.items[k] == j;
      if k > 0 {
        assert Fairness.Precedes(q, f, j);
        PrecedesMeans(q, f, j);
      } else {
        Ordering.LessIrreflexive(q.rows[f].hotkey);
      }
    }
  }

  lemma GroupOf(q: Tables, ids: seq<nat>, id: nat) returns (g: Group<nat>)
    requires id in ids
    ensures g in Grouped(ids, OwnerOf(q)) && g.owner == OwnerOf(q)(id) && id in g.items
  {
    var k :| 0 <= k < |ids| && ids[k] == id;
    GroupedRows(ids, OwnerOf(q));
    var names := FirstSeen(ids, OwnerOf(q));
    assert OwnerOf(q)(id) in names;
    hide FirstSeen, RowsOf, Grouped;
    var i :| 0 <= i < |names| && names[i] == OwnerOf(q)(id);
    g := Grouped(ids, OwnerOf(q))[i];
    OwnRow(ids, q, g, id);
  }

  /** Some first row of the owner may go now. */
  ghost predicate Ready(q: Tables, s: Tables, pool: set<nat>, current: nat, id: nat)
  {
    exists f: nat :: Leads(q, pool, f, id) && f < |s.rows| && s.rows[f].retryBlock <= current
  }

  /** Some first row of the owner has to wait longer. */
  ghost predicate Held(q: Tables, s: Tables, pool: set<nat>, current: nat, id: nat)
  {
    exists f: nat :: Leads(q, pool, f, id) && f < |s.rows| && s.rows[f].retryBlock > current
  }

  lemma TakenRow(q: Tables, s: Tables, pool: set<nat>, ids: seq<nat>, before: nat, current: nat,
    p: nat) returns (i: nat, d: nat)
    requires Fairness.InOrder(q, ids, before) && (forall i :: i in ids <==> i in pool)
    requires p < |Rounds(Fairness.ReadyOn(q, s, ids, current))|
    ensures var groups := Fairness.ReadyOn(q, s, ids, current);
      && At(groups, i, d) && Slot(groups, i, d) == p && Rounds(groups)[p] == groups[i].items[d]
      && groups[i] in Grouped(ids, OwnerOf(q)) && HeadReady(s, groups[i], current)
      && groups[i].items[d] in pool && groups[i].items[d] < |q.rows|
        && q.rows[groups[i].items[d]].owner == groups[i].owner
  {
    var groups := Fairness.ReadyOn(q, s, ids, current);
    i, d := SlotOnto(groups, p);
    assert groups[i] in groups;
    hide Rounds, Slot, Grouped, RowsOf;
    SlotHolds(groups, i, d);
    Fairness.SlotRow(q, s, before, ids, current, i, d);
    GroupMembers(ids, OwnerOf(q), groups[i]);
  }

  lemma TakenIsReady(q: Tables, s: Tables, pool: set<nat>, ids: seq<nat>, before: nat, current: nat, p: nat)
    requires Fairness.InOrder(q, ids, before) && (forall i :: i in ids <==> i in pool)
    requires p < |Rounds(Fairness.ReadyOn(q, s, ids, current))|
    ensures var id := Rounds(Fairness.ReadyOn(q, s, ids, current))[p];
      id in pool && Ready(q, s, pool, current, id)
  {
    var i, d := TakenRow(q, s, pool, ids, before, current, p);
    var g := Fairness.ReadyOn(q, s, ids, current)[i];
    hide Rounds, Slot, Grouped, RowsOf, Fairness.ReadyOn, Fairness.InOrder;
    HeadLeads(q, pool, ids, before, g);
    assert Leads(q, pool, g.items[0], g.items[d]);
  }

  lemma ReadyIsTaken(q: Tables, s: Tables, pool: set<nat>, ids: seq<nat>, before: nat, current: nat, id: nat)
    requires Fairness.InOrder(q, ids, before) && (forall i :: i in ids <==> i in pool) && |s.rows| == |q.rows|
    requires id in pool && id !in Rounds(Fairness.ReadyOn(q, s, ids, current))
    ensures Held(q, s, pool, current, id)
  {
    var groups := Fairness.ReadyOn(q, s, ids, current);
    var g := GroupOf(q, ids, id);
    HeadLeads(q, pool, ids, before, g);
    if HeadReady(s, g, current) {
      assert g in groups;
      var i :| 0 <= i < |groups| && groups[i] == g;
      var d :| 0 <= d < |g.items| && g.items[d] == id;
      hide Rounds, Slot, Grouped;
      SlotHolds(groups, i, d);
    } else {
      InPool(q, ids, before, id);
      hide Rounds, Grouped;
      assert Leads(q, pool, g.items[0], id);
    }
  }

  lemma InPool(q: Tables, ids: seq<nat>, before: nat, id: nat)
    requires Fairness.InOrder(q, ids, before) && id in ids
    ensures id < |q.rows|
  {
  }

  /**
   Every row the queue offers belongs to an owner whose first waiting row may go by now; and as long
   as there is room, a waiting row that is not offered has an owner whose first row must wait longer.
   */
  lemma PendingIsReady(q: Tables, count: nat, before: nat, current: nat)
    ensures var r, pool := Pending(q, count, before, current), Waiters(q, before);
      && |r| <= count && (forall id :: id in r ==> id in pool && Ready(q, q, pool, current, id))
      && (|r| < count ==> forall id :: id in pool && id !in r ==> Held(q, q, pool, current, id))
  {
    var pool, ids := Waiters(q, before), WaitingIds(q, before, |q.rows|);
    WaitersMean(q, before);
    Fairness.WaitingInOrder(q, before, |q.rows|);
    hide WaitingIds, Waiters, Fairness.InOrder;
    TakenMeans(q, q, pool, ids, before, current, count);
    hide Rounds, ReadyGroups, Grouped, Ready, Held;
  }

  lemma TakenMeans(q: Tables, s: Tables, pool: set<nat>, ids: seq<nat>, before: nat, current: nat, count: nat)
    requires Fairness.InOrder(q, ids, before) && (forall i: nat :: i in ids <==> i in pool) && |s.rows| == |q.rows|
    ensures var r := Take(Rounds(Fairness.ReadyOn(q, s, ids, current)), Some(count));
      && |r| <= count && (forall id :: id in r ==> id in pool && Ready(q, s, pool, current, id))
      && (|r| < count ==> forall id :: id in pool && id !in r ==> Held(q, s, pool, current, id))
  {
    var all := Rounds(Fairness.ReadyOn(q, s, ids, current));
    var r := Take(all, Some(count));
    hide Rounds, Fairness.ReadyOn, Fairness.InOrder, Ready, Held;
    forall id | id in r
      ensures id in pool && Ready(q, s, pool, current, id)
    {
      var p :| 0 <= p < |r| && r[p] == id;
      assert all[p] == id;
      TakenIsReady(q, s, pool, ids, before, current, p);
    }
    if |r| < count {
      forall id | id in pool && id !in r
        ensures Held(q, s, pool, current, id)
      {
        ReadyIsTaken(q, s, pool, ids, before, current, id);
      }
    }
  }

  // ---------------------------------------------------------------- the scheduler's rows

  /** Parked until the window changes. */
  predicate Suspended(e: Entry)
  {
    e.reason == Some("EvaluationRoundBudgetExceeded") || e.reason == Some("InfrastructureRoundBudgetExceeded")
  }

  /** The waiting rows that challenge in this window: budget left, not parked, on the panel under that hotkey. */
  ghost function Contestants(q: Tables, w: Schedule.World, before: nat): set<nat>
  {
    set i | i in Waiters(q, before) && Contests(w, q.rows[i])
  }

  predicate Contests(w: Schedule.World, e: Entry)
  {
    && e.timeouts < 2 && e.reason != Some("DownloadBudgetExceeded")
    && (Suspended(e) ==> w.interruption(e.window) == Some("window_changed"))
    && e.model in w.candidates && w.candidates[e.model] == e.hotkey
  }

  /** A row parked in an earlier window need not wait in the new one. */
  function Clocked(e: Entry): Entry { if Suspended(e) then e.(retryBlock := 0) else e }

  ghost function Clock(q: Tables): Tables
  {
    q.(rows := seq(|q.rows|, i requires 0 <= i < |q.rows| => Clocked(q.rows[i])))
  }

  lemma ContestantsMean(q: Tables, w: Schedule.World, before: nat)
    requires Schedule.InRange(q, WaitingIds(q, before, |q.rows|))
    ensures forall i: nat :: i in Contestants(q, w, before) <==>
      i in Schedule.OfferedIds(q, w, WaitingIds(q, before, |q.rows|))
  {
    WaitersMean(q, before);
    hide Waiters, WaitingIds;
    forall i: nat | i < |q.rows|
      ensures Contests(w, q.rows[i]) <==> Schedule.Offered(w, q.rows[i])
    {
    }
    hide Contests, Schedule.Offered;
  }

  /** Swept and clocked tables agree on when a contestant may go. */
  lemma SweptClock(q: Tables, w: Schedule.World, before: nat, id: nat)
    requires id in Contestants(q, w, before)
    ensures id < |Schedule.Swept(q, w, before).rows| == |q.rows|
    ensures Schedule.Swept(q, w, before).rows[id].retryBlock == Clock(q).rows[id].retryBlock
  {
    var ids := WaitingIds(q, before, |q.rows|);
    Schedule.WaitingInRange(q, before);
    WaitingDistinct(q, before, |q.rows|);
    WaitersMean(q, before);
    hide Waiters, WaitingIds;
    assert id in ids;
    Lifecycle.VisitedOnce(q, w, ids, id);
  }

  lemma SameReady(q: Tables, s: Tables, t: Tables, pool: set<nat>, current: nat, id: nat)
    requires |s.rows| == |q.rows| == |t.rows|
    requires forall f: nat :: f in pool && f < |q.rows| ==> s.rows[f].retryBlock == t.rows[f].retryBlock
    ensures Ready(q, s, pool, current, id) ==> Ready(q, t, pool, current, id)
    ensures Held(q, s, pool, current, id) ==> Held(q, t, pool, current, id)
  {
    if Ready(q, s, pool, current, id) {
      var f: nat :| Leads(q, pool, f, id) && f < |s.rows| && s.rows[f].retryBlock <= current;
      assert t.rows[f].retryBlock <= current;
    }
    if Held(q, s, pool, current, id) {
      var f: nat :| Leads(q, pool, f, id) && f < |s.rows| && s.rows[f].retryBlock > current;
      assert t.rows[f].retryBlock > current;
    }
  }

  /** The same of the scheduler, whose rows also have to challenge in the current window. */
  lemma ScheduledIsReady(q: Tables, w: Schedule.World, count: nat, before: nat, current: nat)
    ensures var r, pool := Schedule.Pending(q, w, count, before, current), Contestants(q, w, before);
      && |r| <= count && (forall id :: id in r ==> id in pool && Ready(q, Clock(q), pool, current, id))
      && (|r| < count ==> forall id :: id in pool && id !in r ==> Held(q, Clock(q), pool, current, id))
  {
    var pool, all, s := Contestants(q, w, before), WaitingIds(q, before, |q.rows|), Schedule.Swept(q, w, before);
    Schedule.WaitingInRange(q, before);
    var ids := Schedule.OfferedIds(q, w, all);
    ContestantsMean(q, w, before);
    Fairness.WaitingInOrder(q, before, |q.rows|);
    Lifecycle.OfferedInOrder(q, w, all, before);
    forall f: nat | f in pool
      ensures f < |s.rows| == |q.rows| && s.rows[f].retryBlock == Clock(q).rows[f].retryBlock
    {
      SweptClock(q, w, before, f);
    }
    SweptSize(q, w, before);
    hide WaitingIds, Contestants, Fairness.InOrder, Schedule.OfferedIds, Schedule.Swept, Clock;
    TakenMeans(q, s, pool, ids, before, current, count);
    hide Rounds, ReadyGroups, Grouped, Ready, Held;
    forall id
      ensures Ready(q, s, pool, current, id) ==> Ready(q, Clock(q), pool, current, id)
      ensures Held(q, s, pool, current, id) ==> Held(q, Clock(q), pool, current, id)
    {
      SameReady(q, s, Clock(q), pool, current, id);
    }
  }

  lemma SweptSize(q: Tables, w: Schedule.World, before: nat)
    ensures |Schedule.Swept(q, w, before).rows| == |q.rows| == |Clock(q).rows|
  {
    Schedule.WaitingInRange(q, before);
  }

  // ---------------------------------------------------------------- the one order of dispatch

  /** How many rows of its owner come before it. */
  ghost function Rank(q: Tables, pool: set<nat>, i: nat): nat { |set j | j in pool && Sooner(q, j, i)| }

  /** Fewer rows of its owner before it, or as many and an earlier turn. */
  ghost predicate Before(q: Tables, pool: set<nat>, i: nat, j: nat)
  {
    && i < |q.rows| && j < |q.rows| && q.rows[i].owner in q.turns && q.rows[j].owner in q.turns
    && (Rank(q, pool, i) < Rank(q, pool, j)
        || (Rank(q, pool, i) == Rank(q, pool, j) && q.turns[q.rows[i].owner] < q.turns[q.rows[j].owner]))
  }

  /** One waiting row per hotkey, and owners at different turns. */
  ghost predicate Clear(q: Tables, pool: set<nat>)
  {
    && Turns.Distinct(q.turns)
    && forall i, j :: i in pool && j in pool && i < |q.rows| && j < |q.rows| && i != j ==>
         q.rows[i].hotkey != q.rows[j].hotkey
  }

  /** The offer is the first `count` ready rows in that order. */
  ghost predicate Ranked(q: Tables, s: Tables, pool: set<nat>, current: nat, count: nat, r: seq<nat>)
  {
    && |r| <= count && (forall id :: id in r ==> id in pool && Ready(q, s, pool, current, id))
    && (forall a, b :: 0 <= a < b < |r| ==> Before(q, pool, r[a], r[b]))
    && (forall id :: id in pool && Ready(q, s, pool, current, id) && id !in r ==>
          |r| == count && forall x :: x in r ==> Before(q, pool, x, id))
  }

  lemma StrictlySooner(q: Tables, pool: set<nat>, i: nat, j: nat)
    requires Fairness.Precedes(q, i, j) && q.rows[i].owner == q.rows[j].owner
    requires Clear(q, pool) && i in pool && j in pool && i != j
    ensures Sooner(q, i, j) && !Sooner(q, j, i)
  {
    PrecedesMeans(q, i, j);
  }

  lemma {:induction false} PrefixSize(s: seq<nat>, d: nat)
    requires Distinct(s) && d <= |s|
    ensures |set i | 0 <= i < d :: s[i]| == d
    decreases d
  {
    var now := set i | 0 <= i < d :: s[i];
    if d == 0 {
      assert now == {};
    } else {
      PrefixSize(s, d - 1);
      var front := set i | 0 <= i < d - 1 :: s[i];
      assert s[d - 1] !in front;
      assert now == front + {s[d - 1]};
    }
  }

  lemma {:induction false} RowsDistinct<V>(rows: seq<V>, owner: V -> Owner, o: Owner)
    requires Distinct(rows)
    ensures Distinct(RowsOf(rows, owner, o))
    decreases |rows|
  {
    if rows != [] {
      var n := |rows| - 1;
      RowsDistinct(rows[..n], owner, o);
      var front := RowsOf(rows[..n], owner, o);
      assert forall i :: 0 <= i < n ==> rows[..n][i] == rows[i];
      assert rows[n] !in front;
    }
  }

  lemma RankIsDepth(q: Tables, pool: set<nat>, ids: seq<nat>, before: nat, g: Group<nat>, d: nat)
    requires Fairness.InOrder(q, ids, before) && (forall i: nat :: i in ids <==> i in pool) && Distinct(ids)
    requires g in Grouped(ids, OwnerOf(q)) && d < |g.items| && Clear(q, pool)
    ensures Rank(q, pool, g.items[d]) == d
  {
    GroupMembers(ids, OwnerOf(q), g);
    Fairness.RowsInOrder(q, before, ids, g.owner);
    RowsDistinct(ids, OwnerOf(q), g.owner);
    hide Grouped, RowsOf;
    var sooner := set j | j in pool && Sooner(q, j, g.items[d]);
    var front := set k | 0 <= k < d :: g.items[k];
    forall j | j in pool
      ensures Sooner(q, j, g.items[d]) <==> j in front
    {
      SoonerInGroup(q, pool, ids, before, g, d, j);
    }
    assert sooner == front;
    PrefixSize(g.items, d);
  }

  lemma SoonerInGroup(q: Tables, pool: set<nat>, ids: seq<nat>, before: nat, g: Group<nat>, d: nat, j: nat)
    requires (forall i: nat :: i in ids <==> i in pool) && g in Grouped(ids, OwnerOf(q)) && d < |g.items|
    requires Fairness.InOrder(q, g.items, before) && Distinct(g.items) && Clear(q, pool) && j in pool
    requires forall k :: 0 <= k < |g.items| ==> g.items[k] in pool && OwnerOf(q)(g.items[k]) == g.owner
    ensures Sooner(q, j, g.items[d]) <==> exists k :: 0 <= k < d && g.items[k] == j
  {
    hide Grouped, Clear;
    if Sooner(q, j, g.items[d]) {
      OwnRow(ids, q, g, j);
      var k :| 0 <= k < |g.items| && g.items[k] == j;
      if k > d {
        assert Fairness.Precedes(q, g.items[d], j);
        StrictlySooner(q, pool, g.items[d], j);
      } else if k == d {
        Ordering.LessIrreflexive(q.rows[j].hotkey);
      }
    } else if k :| 0 <= k < d && g.items[k] == j {
      assert Fairness.Precedes(q, j, g.items[d]);
      StrictlySooner(q, pool, j, g.items[d]);
    }
  }

  lemma TurnsDiffer(q: Tables, pool: set<nat>, groups: seq<Group<nat>>, i: nat, j: nat)
    requires Fairness.GroupsInTurn(q, groups) && Clear(q, pool) && i < j < |groups|
    ensures groups[i].owner in q.turns && groups[j].owner in q.turns
    ensures q.turns[groups[i].owner] < q.turns[groups[j].owner]
  {
    assert Fairness.TurnLeq(q, groups[i].owner, groups[j].owner);
  }

  lemma TakenBefore(q: Tables, s: Tables, pool: set<nat>, ids: seq<nat>, before: nat, current: nat, a: nat, b: nat)
    requires Fairness.InOrder(q, ids, before) && (forall i: nat :: i in ids <==> i in pool) && Distinct(ids)
    requires Clear(q, pool) && a < b < |Rounds(Fairness.ReadyOn(q, s, ids, current))|
    ensures var all := Rounds(Fairness.ReadyOn(q, s, ids, current)); Before(q, pool, all[a], all[b])
  {
    var groups := Fairness.ReadyOn(q, s, ids, current);
    var i, d := TakenRow(q, s, pool, ids, before, current, a);
    var j, e := TakenRow(q, s, pool, ids, before, current, b);
    Fairness.GroupedInTurn(q, before, ids);
    Fairness.ReadyInTurn(q, s, Grouped(ids, OwnerOf(q)), current);
    SlotOrdered(groups, i, d, j, e);
    RankIsDepth(q, pool, ids, before, groups[i], d);
    RankIsDepth(q, pool, ids, before, groups[j], e);
    hide Rounds, Slot, Grouped, Fairness.ReadyOn, Fairness.InOrder, Rank, Clear;
    if d == e {
      TurnsDiffer(q, pool, groups, i, j);
    }
    hide Distinct;
  }

  lemma TakenRanked(q: Tables, s: Tables, pool: set<nat>, ids: seq<nat>, before: nat, current: nat, count: nat)
    requires Fairness.InOrder(q, ids, before) && (forall i: nat :: i in ids <==> i in pool) && Distinct(ids)
    requires Clear(q, pool) && |s.rows| == |q.rows|
    ensures Ranked(q, s, pool, current, count, Take(Rounds(Fairness.ReadyOn(q, s, ids, current)), Some(count)))
  {
    var all := Rounds(Fairness.ReadyOn(q, s, ids, current));
    hide Rounds, Fairness.ReadyOn, Fairness.InOrder, Distinct, Before, Ready, Held, Clear;
    TakenMeans(q, s, pool, ids, before, current, count);
    forall a, b | 0 <= a < b < |all|
      ensures Before(q, pool, all[a], all[b])
    {
      TakenBefore(q, s, pool, ids, before, current, a, b);
    }
    forall id | id in pool && Ready(q, s, pool, current, id)
      ensures id in all
    {
      if id !in all {
        ReadyIsTaken(q, s, pool, ids, before, current, id);
        NotBoth(q, s, pool, current, id);
      }
    }
    CutInOrder(q, s, pool, current, all, count);
  }

  /** What is cut off comes after what is offered. */
  lemma CutInOrder(q: Tables, s: Tables, pool: set<nat>, current: nat, all: seq<nat>, count: nat)
    requires forall id :: id in pool && Ready(q, s, pool, current, id) ==> id in all
    requires forall a, b :: 0 <= a < b < |all| ==> Before(q, pool, all[a], all[b])
    ensures var r := Take(all, Some(count));
      && (forall a, b :: 0 <= a < b < |r| ==> Before(q, pool, r[a], r[b]))
      && (forall id :: id in pool && Ready(q, s, pool, current, id) && id !in r ==>
            |r| == count && forall x :: x in r ==> Before(q, pool, x, id))
  {
    hide Ready, Before;
    var r := Take(all, Some(count));
    assert forall a :: 0 <= a < |r| ==> r[a] == all[a];
    forall id | id in pool && Ready(q, s, pool, current, id) && id !in r
      ensures |r| == count && forall x :: x in r ==> Before(q, pool, x, id)
    {
      var p :| 0 <= p < |all| && all[p] == id;
      assert p >= |r|;
    }
  }

  /** With one row per hotkey the first row of an owner is unique. */
  lemma OneLeader(q: Tables, pool: set<nat>, f: nat, g: nat, id: nat)
    requires Clear(q, pool) && Leads(q, pool, f, id) && Leads(q, pool, g, id)
    ensures f == g
  {
    Ordering.LessTotal(q.rows[f].hotkey, q.rows[g].hotkey);
    assert !Sooner(q, f, g) && !Sooner(q, g, f);
  }

  lemma NotBoth(q: Tables, s: Tables, pool: set<nat>, current: nat, id: nat)
    requires Clear(q, pool)
    ensures !(Ready(q, s, pool, current, id) && Held(q, s, pool, current, id))
  {
    hide Clear, Leads;
    forall f: nat, g: nat | Leads(q, pool, f, id) && Leads(q, pool, g, id)
      ensures f == g
    {
      OneLeader(q, pool, f, g, id);
    }
  }

  lemma PendingRanked(q: Tables, count: nat, before: nat, current: nat)
    requires Clear(q, Waiters(q, before))
    ensures Ranked(q, q, Waiters(q, before), current, count, Pending(q, count, before, current))
  {
    var pool, ids := Waiters(q, before), WaitingIds(q, before, |q.rows|);
    WaitersMean(q, before);
    Fairness.WaitingInOrder(q, before, |q.rows|);
    WaitingDistinct(q, before, |q.rows|);
    hide WaitingIds, Waiters, Fairness.InOrder, Distinct, Clear;
    TakenRanked(q, q, pool, ids, before, current, count);
    hide Rounds, ReadyGroups, Grouped, Ranked;
  }

  lemma {:induction false} OfferedDistinct(q: Tables, w: Schedule.World, ids: seq<nat>)
    requires Schedule.InRange(q, ids) && Distinct(ids)
    ensures Distinct(Schedule.OfferedIds(q, w, ids))
    decreases |ids|
  {
    if ids != [] {
      hide Schedule.Offered;
      OfferedDistinct(q, w, ids[..|ids| - 1]);
    }
  }

  lemma RankedClock(q: Tables, s: Tables, t: Tables, pool: set<nat>, current: nat, count: nat, r: seq<nat>)
    requires Ranked(q, s, pool, current, count, r) && |s.rows| == |q.rows| == |t.rows|
    requires forall f: nat :: f in pool && f < |q.rows| ==> s.rows[f].retryBlock == t.rows[f].retryBlock
    ensures Ranked(q, t, pool, current, count, r)
  {
    hide Before, Ready;
    forall id
      ensures Ready(q, s, pool, current, id) <==> Ready(q, t, pool, current, id)
    {
      SameReady(q, s, t, pool, current, id);
      SameReady(q, t, s, pool, current, id);
    }
  }

  lemma ScheduledRanked(q: Tables, w: Schedule.World, count: nat, before: nat, current: nat)
    requires Clear(q, Contestants(q, w, before))
    ensures Ranked(q, Clock(q), Contestants(q, w, before), current, count,
                   Schedule.Pending(q, w, count, before, current))
  {
    var pool, all, s := Contestants(q, w, before), WaitingIds(q, before, |q.rows|), Schedule.Swept(q, w, before);
    Schedule.WaitingInRange(q, before);
    var ids := Schedule.OfferedIds(q, w, all);
    ContestantsMean(q, w, before);
    Fairness.WaitingInOrder(q, before, |q.rows|);
    Lifecycle.OfferedInOrder(q, w, all, before);
    WaitingDistinct(q, before, |q.rows|);
    OfferedDistinct(q, w, all);
    forall f: nat | f in pool
      ensures f < |s.rows| == |q.rows| && s.rows[f].retryBlock == Clock(q).rows[f].retryBlock
    {
      SweptClock(q, w, before, f);
    }
    SweptSize(q, w, before);
    hide WaitingIds, Contestants, Fairness.InOrder, Schedule.OfferedIds, Schedule.Swept, Clock, Distinct, Clear;
    TakenRanked(q, s, pool, ids, before, current, count);
    hide Rounds, ReadyGroups, Grouped, Ranked;
    RankedClock(q, s, Clock(q), pool, current, count, Schedule.Pending(q, w, count, before, current));
  }

  // ---------------------------------------------------------------- in every reachable state

  lemma LiveApart(q: Tables, pool: set<nat>)
    requires Lifecycle.OneEach(q.rows) && Turns.Distinct(q.turns)
    requires forall i :: i in pool ==> i < |q.rows| && Unsettled(q.rows[i])
    ensures Clear(q, pool)
  {
  }

  /**
   Over every run of the scheduler the offer is exactly the first `count` ready challengers, ordered by
   how many rows of their owner come before them and then by the turn of the owner.
   */
  lemma ScheduledOrder(events: seq<Lifecycle.Event>, w: Schedule.World, count: nat, before: nat, current: nat)
    ensures var q := Lifecycle.Run(events);
      Ranked(q, Clock(q), Contestants(q, w, before), current, count, Schedule.Pending(q, w, count, before, current))
  {
    var q := Lifecycle.Run(events);
    Lifecycle.RunSound(events);
    Lifecycle.SoundParts(q);
    Lifecycle.TurnsStayDistinct(events);
    hide Lifecycle.Run, Lifecycle.OneEach, Lifecycle.AllGood, Turns.Distinct, Clear, Ranked, Schedule.Pending, Clock;
    LiveApart(q, Contestants(q, w, before));
    ScheduledRanked(q, w, count, before, current);
  }

  /** Without the scheduler a row is live, consumed or reset, and one undiscarded row stands per hotkey. */
  ghost predicate Tidy(q: Tables)
  {
    && Lifecycle.OneEach(q.rows) && Turns.Distinct(q.turns)
    && forall i :: 0 <= i < |q.rows| ==> Plain(q.rows[i])
  }

  predicate Plain(e: Entry) { e.status != Excluded && e.status != Withdrawn }

  lemma RowTidy(q: Tables, g: Registry, row: Row)
    requires Tidy(q)
    ensures Lifecycle.OneEach(ObserveRow(q, g, row).rows)
    ensures forall i :: 0 <= i < |ObserveRow(q, g, row).rows| ==> Plain(ObserveRow(q, g, row).rows[i])
  {
    hide Turns.Distinct, SameCommitment;
    if Admitted(q, g, row) {
      forall i | 0 <= i < |q.rows| && q.rows[i].status != Reset
        ensures q.rows[i].hotkey != row.hotkey
      {
        assert q.rows[i] in q.rows && Plain(q.rows[i]);
      }
    }
  }

  lemma {:induction false} ObserveTidy(q: Tables, g: Registry, rows: seq<Row>)
    requires Tidy(q)
    ensures Tidy(ObserveRows(q, g, rows))
    decreases |rows|
  {
    Fairness.ObserveTurns(q, g, rows, "");
    if rows != [] {
      ObserveTidy(q, g, rows[..|rows| - 1]);
      hide Lifecycle.OneEach, Turns.Distinct, ObserveRow;
      RowTidy(ObserveRows(q, g, rows[..|rows| - 1]), g, rows[|rows| - 1]);
    }
  }

  /** One row changes its status and no row changes its hotkey. */
  lemma ChangedTidy(q: Tables, id: nat, e: Entry)
    requires Tidy(q) && id < |q.rows| && e.hotkey == q.rows[id].hotkey && Plain(e) && q.rows[id].status != Reset
    ensures Lifecycle.OneEach(SetRow(q, id, e).rows)
    ensures forall i :: 0 <= i < |q.rows| ==> Plain(SetRow(q, id, e).rows[i])
  {
  }

  lemma OutdatedTidy(q: Tables, block: nat)
    requires Tidy(q)
    ensures Lifecycle.OneEach(Outdated(q.rows, block))
    ensures forall i :: 0 <= i < |q.rows| ==> Plain(Outdated(q.rows, block)[i])
  {
  }

  lemma EventTidy(q: Tables, e: Fairness.Event)
    requires Tidy(q)
    ensures Tidy(Fairness.Apply(q, e))
  {
    Fairness.ApplyDistinct(q, e);
    hide Lifecycle.OneEach, Turns.Distinct, Pending, Arrivals, Turns.Serve, Outdated, ArchiveOf, LiveRow;
    match e
    case Observe(g, rows) => ObserveTidy(q, g, Arrivals(rows));
    case Dispatch(before, current, into) =>
      var head := Pending(q, 1, before, current);
      if head != [] && head[0] < |q.rows| && Start(q, head[0], into).Ok? {
        var x := q.rows[head[0]];
        ChangedTidy(q, head[0], x.(status := Running, window := into, attempts := x.attempts + 1));
      }
    case Defer(id, cause, retry) =>
      if id < |q.rows| && q.rows[id].status == Running {
        ChangedTidy(q, id, q.rows[id].(status := Queued, reason := Some(cause), retryBlock := retry));
      }
    case Finish(id, status, reason, result) =>
      if id < |q.rows| && Terminal(status) && q.rows[id].status != Reset {
        ChangedTidy(q, id, q.rows[id].(status := status, reason := reason, result := result));
      }
    case Reconcile(hotkey, result, window, rejected) =>
      var id := LiveRow(q.rows, hotkey);
      if id < |q.rows| {
        ChangedTidy(q, id, q.rows[id].(window := Some(window), status := if rejected then Rejected else Done,
                                       reason := Some("finalized_on_chain"), result := result));
      }
    case NewGeneration(reset) =>
      if reset.Some? {
        OutdatedTidy(q, reset.value.block);
      }
  }

  lemma {:induction false} RunTidy(q: Tables, events: seq<Fairness.Event>)
    requires Tidy(q)
    ensures Tidy(Fairness.Run(q, events))
    decreases |events|
  {
    if events != [] {
      EventTidy(q, events[0]);
      hide Tidy, Fairness.Apply;
      RunTidy(Fairness.Apply(q, events[0]), events[1..]);
    }
  }

  /** The same over every run of the queue without the scheduler. */
  lemma QueueOrder(events: seq<Fairness.Event>, count: nat, before: nat, current: nat)
    ensures var q := Fairness.Run(EMPTY_QUEUE, events);
      Ranked(q, q, Waiters(q, before), current, count, Pending(q, count, before, current))
  {
    var q := Fairness.Run(EMPTY_QUEUE, events);
    RunTidy(EMPTY_QUEUE, events);
    hide Fairness.Run, Lifecycle.OneEach, Turns.Distinct, Clear, Ranked, Pending;
    LiveApart(q, Waiters(q, before));
    PendingRanked(q, count, before, current);
  }
}
