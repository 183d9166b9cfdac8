/** Dispatch is fair: owners wait their turn, rows of one owner keep their order. */
module Fairness {
  import opened Common
  import Ordering
  import opened Decide
  import opened Queue
  import RoundRobin
  import Turns

  // ---------------------------------------------------------------- the order of the waiting rows

  ghost predicate InOrder(q: Tables, ids: seq<nat>, before: nat)
  {
    AllWaiting(q, ids, before) && forall i, j :: 0 <= i < j < |ids| ==> Precedes(q, ids[i], ids[j])
  }

  ghost predicate Precedes(q: Tables, i: nat, j: nat)
  {
    i < |q.rows| && j < |q.rows| && q.rows[i].owner in q.turns && q.rows[j].owner in q.turns && DispatchLeq(q, i, j)
  }

  lemma PrecedesTransitive(q: Tables, i: nat, j: nat, k: nat)
    requires Precedes(q, i, j) && Precedes(q, j, k)
    ensures Precedes(q, i, k)
  {
    var x, y, z := q.rows[i].hotkey, q.rows[j].hotkey, q.rows[k].hotkey;
    if Ordering.Less(x, y) && Ordering.Less(y, z) {
      Ordering.LessTransitive(x, y, z);
    }
  }

  lemma PrecedesTotal(q: Tables, i: nat, j: nat, before: nat)
    requires Waiting(q, i, before) && Waiting(q, j, before) && !DispatchLeq(q, i, j)
    ensures Precedes(q, j, i)
  {
    Ordering.LessTotal(q.rows[i].hotkey, q.rows[j].hotkey);
  }

  lemma {:induction false} InsertInOrder(q: Tables, before: nat, x: nat, ids: seq<nat>)
    requires Waiting(q, x, before) && InOrder(q, ids, before)
    ensures InOrder(q, InsertId(q, before, x, ids), before)
    decreases |ids|
  {
    if ids != [] {
      assert ids[0] in ids;
      assert ids == [ids[0]] + ids[1..];
      hide DispatchLeq, Waiting;
      if DispatchLeq(q, x, ids[0]) {
        HeadPrecedes(q, before, x, ids);
      } else {
        PrecedesTotal(q, x, ids[0], before);
        InsertInOrder(q, before, x, ids[1..]);
        var rest := InsertId(q, before, x, ids[1..]);
        forall i | 0 <= i < |rest|
          ensures Precedes(q, ids[0], rest[i])
        {
          assert rest[i] in rest;
        }
      }
    }
  }

  lemma HeadPrecedes(q: Tables, before: nat, x: nat, ids: seq<nat>)
    requires Waiting(q, x, before) && InOrder(q, ids, before) && ids != [] && Precedes(q, x, ids[0])
    ensures forall i :: 0 <= i < |ids| ==> Precedes(q, x, ids[i])
  {
    hide DispatchLeq, Waiting;
    forall i | 0 <= i < |ids|
      ensures Precedes(q, x, ids[i])
    {
      if i > 0 {
        PrecedesTransitive(q, x, ids[0], ids[i]);
      }
    }
  }

  lemma {:induction false} WaitingInOrder(q: Tables, before: nat, n: nat)
    requires n <= |q.rows|
    ensures InOrder(q, WaitingIds(q, before, n), before)
    decreases n
  {
    if n > 0 {
      WaitingInOrder(q, before, n - 1);
      hide InOrder;
      if Waiting(q, n - 1, before) {
        InsertInOrder(q, before, n - 1, WaitingIds(q, before, n - 1));
      }
    }
  }

  // ---------------------------------------------------------------- the order of the owners

  ghost predicate TurnLeq(q: Tables, a: Owner, b: Owner) { a in q.turns && b in q.turns && q.turns[a] <= q.turns[b] }

  ghost predicate InTurn(q: Tables, o: seq<Owner>)
  {
    (forall i :: 0 <= i < |o| ==> o[i] in q.turns) && forall i, j :: 0 <= i < j < |o| ==> TurnLeq(q, o[i], o[j])
  }

  /** Owners first appear in the order of their turns. */
  lemma {:induction false} OwnersInTurn(q: Tables, before: nat, ids: seq<nat>)
    requires InOrder(q, ids, before)
    ensures InTurn(q, RoundRobin.FirstSeen(ids, OwnerOf(q)))
    decreases |ids|
  {
    if ids != [] {
      var n := |ids| - 1;
      LastInOrder(q, before, ids);
      OwnersInTurn(q, before, ids[..n]);
      OwnersBefore(q, ids);
      RoundRobin.LastSeen(ids, OwnerOf(q));
      hide RoundRobin.FirstSeen, InOrder, InTurn, TurnLeq, OwnerOf;
      AppendInTurn(q, RoundRobin.FirstSeen(ids[..n], OwnerOf(q)), OwnerOf(q)(ids[n]));
    }
  }

  /** Every owner seen before the last row has a turn at most that of the last row's owner. */
  lemma OwnersBefore(q: Tables, ids: seq<nat>)
    requires ids != [] && forall i :: 0 <= i < |ids| - 1 ==> TurnLeq(q, OwnerOf(q)(ids[i]), OwnerOf(q)(ids[|ids| - 1]))
    ensures TurnsUpTo(q, RoundRobin.FirstSeen(ids[..|ids| - 1], OwnerOf(q)), OwnerOf(q)(ids[|ids| - 1]))
  {
    var n := |ids| - 1;
    var front := RoundRobin.FirstSeen(ids[..n], OwnerOf(q));
    hide TurnLeq, OwnerOf;
    forall o | o in front
      ensures TurnLeq(q, o, OwnerOf(q)(ids[n]))
    {
      var j :| 0 <= j < n && OwnerOf(q)(ids[..n][j]) == o;
      assert ids[..n][j] == ids[j];
    }
  }

  ghost predicate TurnsUpTo(q: Tables, owners: seq<Owner>, o: Owner) { forall x :: x in owners ==> TurnLeq(q, x, o) }

  lemma AppendInTurn(q: Tables, owners: seq<Owner>, o: Owner)
    requires InTurn(q, owners) && TurnsUpTo(q, owners, o) && o in q.turns
    ensures InTurn(q, owners + [o])
  {
    hide TurnLeq;
    assert forall i :: 0 <= i < |owners| ==> owners[i] in owners;
  }

  lemma LastInOrder(q: Tables, before: nat, ids: seq<nat>)
    requires InOrder(q, ids, before) && ids != []
    ensures var n := |ids| - 1;
      && InOrder(q, ids[..n], before) && OwnerOf(q)(ids[n]) in q.turns
      && forall i :: 0 <= i < n ==> TurnLeq(q, OwnerOf(q)(ids[i]), OwnerOf(q)(ids[n]))
  {
    var n := |ids| - 1;
    assert forall i :: 0 <= i <= n ==> ids[i] in ids;
    forall i | 0 <= i < n
      ensures TurnLeq(q, OwnerOf(q)(ids[i]), OwnerOf(q)(ids[n]))
    {
      assert Precedes(q, ids[i], ids[n]);
    }
  }

  ghost predicate GroupsInTurn(q: Tables, groups: seq<RoundRobin.Group<nat>>)
  {
    (forall i :: 0 <= i < |groups| ==> groups[i].owner in q.turns)
    && forall i, j :: 0 <= i < j < |groups| ==>
      TurnLeq(q, groups[i].owner, groups[j].owner) && groups[i].owner != groups[j].owner
  }

  lemma GroupedInTurn(q: Tables, before: nat, ids: seq<nat>)
    requires InOrder(q, ids, before)
    ensures GroupsInTurn(q, RoundRobin.Grouped(ids, OwnerOf(q)))
  {
    OwnersInTurn(q, before, ids);
    RoundRobin.GroupedRows(ids, OwnerOf(q));
    hide RoundRobin.Grouped, RoundRobin.RowsOf;
  }

  /** Readiness is judged on tables `s`, turns on tables `q`. */
  lemma {:induction false} ReadyInTurn(q: Tables, s: Tables, groups: seq<RoundRobin.Group<nat>>, current: nat)
    requires RoundRobin.Occupied(groups) && GroupsInTurn(q, groups)
    ensures GroupsInTurn(q, ReadyGroups(s, groups, current))
    decreases |groups|
  {
    if groups != [] {
      var n := |groups| - 1;
      ReadyInTurn(q, s, groups[..n], current);
      var front := ReadyGroups(s, groups[..n], current);
      forall i | 0 <= i < |front|
        ensures TurnLeq(q, front[i].owner, groups[n].owner) && front[i].owner != groups[n].owner
      {
        assert front[i] in groups[..n];
      }
    }
  }

  // ---------------------------------------------------------------- bounded waiting

  /** Some row of the owner heads a group that may be dispatched now. */
  ghost predicate Eligible(q: Tables, k: Owner, before: nat, current: nat)
  {
    exists g :: g in ReadyByOwner(q, before, current) && g.owner == k
  }

  lemma HeadOfPending(q: Tables, before: nat, current: nat)
    requires ReadyByOwner(q, before, current) != []
    ensures var g := ReadyByOwner(q, before, current)[0];
      && g.items != [] && Pending(q, 1, before, current) == [g.items[0]]
      && g.items[0] < |q.rows| && q.rows[g.items[0]].owner == g.owner && Waiting(q, g.items[0], before)
  {
    hide RoundRobin.Rounds, RoundRobin.Grouped, RoundRobin.RowsOf, RoundRobin.Tails, RoundRobin.Heads, WaitingIds;
    var groups := ReadyByOwner(q, before, current);
    RoundRobin.Unfold(groups);
    assert groups[0] in groups;
    RoundRobin.GroupMembers(WaitingIds(q, before, |q.rows|), OwnerOf(q), groups[0]);
  }

  /** The head of the queue belongs to the eligible owner that has waited longest. */
  lemma HeadHasWaitedLongest(q: Tables, k: Owner, before: nat, current: nat)
    requires Eligible(q, k, before, current) && Turns.Distinct(q.turns)
    ensures var p := Pending(q, 1, before, current);
      && |p| == 1 && p[0] < |q.rows| && q.rows[p[0]].owner in q.turns && k in q.turns && Waiting(q, p[0], before)
      && (q.rows[p[0]].owner != k ==> q.rows[p[0]].owner in Turns.Ahead(q.turns, k))
  {
    var groups := ReadyByOwner(q, before, current);
    var ids := WaitingIds(q, before, |q.rows|);
    WaitingInOrder(q, before, |q.rows|);
    GroupedInTurn(q, before, ids);
    ReadyInTurn(q, q, RoundRobin.Grouped(ids, OwnerOf(q)), current);
    var g :| g in groups && g.owner == k;
    var i :| 0 <= i < |groups| && groups[i] == g;
    HeadOfPending(q, before, current);
    hide ReadyByOwner, Pending;
    if i > 0 {
      assert TurnLeq(q, groups[0].owner, k);
    }
  }

  /** Everything that can happen to the queue; a dispatch starts the head of the queue. */
  datatype Event =
    | Observe(registry: Registry, commitments: seq<Row>)
    | Dispatch(before: nat, current: nat, into: Option<nat>)
    | Defer(id: nat, cause: string, retryBlock: nat)
    | Finish(id: nat, status: Status, reason: Option<string>, result: Option<string>)
    | Reconcile(hotkey: Hotkey, result: Option<string>, window: nat, rejected: bool)
    | NewGeneration(reset: Option<Generation>)

  function Settle(q: Tables, r: Try<Tables>): Tables { if r.Ok? then r.value else q }

  function Apply(q: Tables, e: Event): Tables
  {
    match e
    case Observe(g, rows) => ObserveRows(q, g, Arrivals(rows))
    case Dispatch(before, current, window) =>
      var head := Pending(q, 1, before, current);
      if head == [] then q else Settle(q, Start(q, head[0], window))
    case Defer(id, reason, retry) => Queue.Defer(q, id, reason, retry)
    case Finish(id, status, reason, result) => Settle(q, Queue.Finish(q, id, status, reason, result))
    case Reconcile(hotkey, result, window, rejected) => Queue.Reconcile(q, hotkey, result, window, rejected)
    case NewGeneration(reset) => Settle(q, ApplyReset(q, reset))
  }

  function Run(q: Tables, events: seq<Event>): Tables
    decreases |events|
  {
    if events == [] then q else Run(Apply(q, events[0]), events[1..])
  }

  lemma {:induction false} ObserveTurns(q: Tables, g: Registry, rows: seq<Row>, k: Owner)
    requires Turns.Distinct(q.turns)
    ensures var r := ObserveRows(q, g, rows).turns;
      Turns.Distinct(r) && (k in q.turns ==> k in r && Turns.Ahead(r, k) == Turns.Ahead(q.turns, k))
    decreases |rows|
  {
    if rows != [] {
      var before, row := ObserveRows(q, g, rows[..|rows| - 1]), rows[|rows| - 1];
      ObserveTurns(q, g, rows[..|rows| - 1], k);
      hide Admitted, SameCommitment, Turns.Distinct, Turns.Enter, Turns.Ahead;
      if Admitted(before, g, row) {
        Turns.EnterDistinct(before.turns, g.coldkeys[row.hotkey]);
        if k in q.turns {
          Turns.EnterKeepsAhead(before.turns, g.coldkeys[row.hotkey], k);
        }
      }
    }
  }

  /** Turns stay pairwise distinct whatever happens. */
  lemma ApplyDistinct(q: Tables, e: Event)
    requires Turns.Distinct(q.turns)
    ensures Turns.Distinct(Apply(q, e).turns)
  {
    hide Turns.Distinct, Turns.Serve, Pending, Arrivals;
    match e
    case Observe(g, rows) => ObserveTurns(q, g, Arrivals(rows), "");
    case Dispatch(before, current, window) =>
      var head := Pending(q, 1, before, current);
      if head != [] && head[0] < |q.rows| {
        Turns.ServeDistinct(q.turns, q.rows[head[0]].owner);
      }
    case _ =>
  }

  lemma {:induction false} TurnsStayDistinct(events: seq<Event>, q: Tables)
    requires Turns.Distinct(q.turns)
    ensures Turns.Distinct(Run(q, events).turns)
    decreases |events|
  {
    if events != [] {
      ApplyDistinct(q, events[0]);
      hide Apply;
      TurnsStayDistinct(events[1..], Apply(q, events[0]));
    }
  }

  function Dispatches(events: seq<Event>): nat
  {
    if events == [] then 0 else (if events[0].Dispatch? then 1 else 0) + Dispatches(events[1..])
  }

  /** The owner could be served at every dispatch of the run. */
  ghost predicate EligibleThroughout(q: Tables, events: seq<Event>, k: Owner)
    decreases |events|
  {
    events != [] ==>
      (events[0].Dispatch? ==> Eligible(q, k, events[0].before, events[0].current))
      && EligibleThroughout(Apply(q, events[0]), events[1..], k)
  }

  /** The event starts a row of the owner. */
  predicate Serves(q: Tables, e: Event, k: Owner)
  {
    e.Dispatch? &&
    var head := Pending(q, 1, e.before, e.current);
    head != [] && head[0] < |q.rows| && q.rows[head[0]].owner == k
  }

  lemma EventAhead(q: Tables, e: Event, k: Owner)
    requires Turns.Distinct(q.turns) && k in q.turns && !Serves(q, e, k)
    requires e.Dispatch? ==> Eligible(q, k, e.before, e.current)
    ensures k in Apply(q, e).turns
    ensures |Turns.Ahead(Apply(q, e).turns, k)| + (if e.Dispatch? then 1 else 0) <= |Turns.Ahead(q.turns, k)|
  {
    hide Turns.Distinct, Turns.Serve, Turns.Ahead, Pending, Arrivals, Eligible, Waiting;
    match e
    case Observe(g, rows) => ObserveTurns(q, g, Arrivals(rows), k);
    case Dispatch(before, current, window) =>
      HeadHasWaitedLongest(q, k, before, current);
      var id := Pending(q, 1, before, current)[0];
      HeadStarts(q, id, before, window);
      Turns.ServeShrinksAhead(q.turns, q.rows[id].owner, k);
    case _ =>
  }

  lemma HeadStarts(q: Tables, id: nat, before: nat, window: Option<nat>)
    requires Waiting(q, id, before)
    ensures Start(q, id, window).Ok? && Start(q, id, window).value.turns == Turns.Serve(q.turns, q.rows[id].owner)
  {
  }

  /**
   Bounded waiting: an owner that stays eligible is served within as many dispatches as there
   are owners with an earlier turn, plus one, whatever else happens in between.
   */
  lemma {:induction false} BoundedWaiting(q: Tables, events: seq<Event>, k: Owner) returns (i: nat)
    requires Turns.Distinct(q.turns) && k in q.turns && EligibleThroughout(q, events, k)
    requires Dispatches(events) > |Turns.Ahead(q.turns, k)|
    ensures i < |events| && Serves(Run(q, events[..i]), events[i], k)
    ensures Dispatches(events[..i]) <= |Turns.Ahead(q.turns, k)|
    decreases |events|
  {
    hide Apply, Turns.Ahead, Turns.Distinct, Eligible, Serves;
    if Serves(q, events[0], k) {
      i := 0;
    } else {
      EventAhead(q, events[0], k);
      ApplyDistinct(q, events[0]);
      var j := BoundedWaiting(Apply(q, events[0]), events[1..], k);
      i := j + 1;
      assert events[..i][0] == events[0] && events[..i][1..] == events[1..][..j];
    }
  }

  // ---------------------------------------------------------------- the preview

  /**
   Depth layers: the row at position `p` is some owner's row number `d`, and every row with a
   smaller number, or the same number and an earlier owner, stands before it.
   */
  lemma PendingIsLayered(q: Tables, count: nat, before: nat, current: nat, p: nat) returns (i: nat, d: nat)
    requires p < |Pending(q, count, before, current)|
    ensures var groups, r := ReadyByOwner(q, before, current), Pending(q, count, before, current);
      && RoundRobin.At(groups, i, d) && r[p] == groups[i].items[d]
      && forall j: nat, e: nat :: RoundRobin.At(groups, j, e) && (e < d || (e == d && j < i)) ==>
           RoundRobin.Slot(groups, j, e) < p && r[RoundRobin.Slot(groups, j, e)] == groups[j].items[e]
  {
    hide ReadyByOwner, RoundRobin.Rounds, RoundRobin.Slot, RoundRobin.Take;
    i, d := RoundRobin.TakeIsLayered(ReadyByOwner(q, before, current), Some(count), p);
  }

  lemma {:induction false} RowsInOrder(q: Tables, before: nat, ids: seq<nat>, o: Owner)
    requires InOrder(q, ids, before)
    ensures InOrder(q, RoundRobin.RowsOf(ids, OwnerOf(q), o), before)
    decreases |ids|
  {
    if ids != [] {
      var n := |ids| - 1;
      FrontInOrder(q, before, ids);
      RowsInOrder(q, before, ids[..n], o);
      hide Precedes, Waiting;
      var front := RoundRobin.RowsOf(ids[..n], OwnerOf(q), o);
      forall i | 0 <= i < |front|
        ensures Precedes(q, front[i], ids[n])
      {
        assert front[i] in front;
      }
    }
  }

  lemma FrontInOrder(q: Tables, before: nat, ids: seq<nat>)
    requires InOrder(q, ids, before) && ids != []
    ensures var n := |ids| - 1;
      InOrder(q, ids[..n], before) && Waiting(q, ids[n], before) && forall id: nat :: id in ids[..n] ==>
        Precedes(q, id, ids[n])
  {
    var n := |ids| - 1;
    assert forall i :: 0 <= i <= n ==> ids[i] in ids;
  }

  /** Groups of rows in dispatch order on `q`, those held back on `s` left out. */
  function ReadyOn(q: Tables, s: Tables, ids: seq<nat>, current: nat): (r: seq<RoundRobin.Group<nat>>)
    ensures RoundRobin.Occupied(r)
  {
    ReadyGroups(s, RoundRobin.Grouped(ids, OwnerOf(q)), current)
  }

  /** Taking turns keeps the rows of one owner in dispatch order. */
  lemma OwnerKeepsOrder(q: Tables, s: Tables, before: nat, ids: seq<nat>, current: nat, a: nat, b: nat)
    requires InOrder(q, ids, before) && a < b < |RoundRobin.Rounds(ReadyOn(q, s, ids, current))|
    requires var r := RoundRobin.Rounds(ReadyOn(q, s, ids, current));
      r[a] < |q.rows| && r[b] < |q.rows| && q.rows[r[a]].owner == q.rows[r[b]].owner
    ensures var r := RoundRobin.Rounds(ReadyOn(q, s, ids, current)); Precedes(q, r[a], r[b])
  {
    var groups := ReadyOn(q, s, ids, current);
    var i, d := RoundRobin.SlotOnto(groups, a);
    var j, e := RoundRobin.SlotOnto(groups, b);
    SlotRow(q, s, before, ids, current, i, d);
    SlotRow(q, s, before, ids, current, j, e);
    GroupedInTurn(q, before, ids);
    ReadyInTurn(q, s, RoundRobin.Grouped(ids, OwnerOf(q)), current);
    RoundRobin.SlotOrdered(groups, i, d, j, e);
    hide ReadyOn, RoundRobin.Rounds, RoundRobin.Slot, Precedes;
    assert i == j;
  }

  /** Row `d` of a ready group is that owner's, and the group lists them in order. */
  lemma SlotRow(q: Tables, s: Tables, before: nat, ids: seq<nat>, current: nat, i: nat, d: nat)
    requires InOrder(q, ids, before) && RoundRobin.At(ReadyOn(q, s, ids, current), i, d)
    ensures var groups := ReadyOn(q, s, ids, current);
      && groups[i].items[d] < |q.rows| && q.rows[groups[i].items[d]].owner == groups[i].owner
      && InOrder(q, groups[i].items, before)
      && RoundRobin.Slot(groups, i, d) < |RoundRobin.Rounds(groups)|
      && RoundRobin.Rounds(groups)[RoundRobin.Slot(groups, i, d)] == groups[i].items[d]
  {
    var groups := ReadyOn(q, s, ids, current);
    assert groups[i] in groups;
    assert AllWaiting(q, ids, before);
    hide RoundRobin.Rounds, RoundRobin.Slot, RoundRobin.Grouped, RoundRobin.RowsOf, InOrder;
    RoundRobin.SlotHolds(groups, i, d);
    RoundRobin.GroupMembers(ids, OwnerOf(q), groups[i]);
    RowsInOrder(q, before, ids, groups[i].owner);
  }

  /** First in, first out: rows of one owner are dispatched oldest first. */
  lemma OwnerIsFirstInFirstOut(q: Tables, count: nat, before: nat, current: nat, a: nat, b: nat)
    requires a < b < |Pending(q, count, before, current)|
    requires var r := Pending(q, count, before, current);
      r[a] < |q.rows| && r[b] < |q.rows| && q.rows[r[a]].owner == q.rows[r[b]].owner
    ensures Precedes(q, Pending(q, count, before, current)[a], Pending(q, count, before, current)[b])
  {
    hide RoundRobin.Rounds, RoundRobin.Grouped, WaitingIds, Precedes, ReadyGroups;
    WaitingInOrder(q, before, |q.rows|);
    OwnerKeepsOrder(q, q, before, WaitingIds(q, before, |q.rows|), current, a, b);
  }
}
