/**
 The life of a challenge over every run of the scheduler from a fresh queue, in which only
 rows returned by `Pending` are started.
 */
module Lifecycle {
  import opened Common
  import opened Decide
  import opened Queue
  import Fairness
  import LedgerSpec
  import RoundRobin
  import Schedule
  import Turns

  datatype Event =
    | Observe(registry: Registry, commitments: seq<Row>)
    | Preview(world: Schedule.World, count: nat, before: nat, current: nat)
    | Dispatch(world: Schedule.World, count: nat, before: nat, current: nat, accepted: set<nat>, into: Option<nat>)
    | Defer(world: Schedule.World, id: nat, cause: string, retryBlock: nat)
    | Finish(id: nat, status: Status, reason: Option<string>, result: Option<string>)
    | Reconcile(hotkey: Hotkey, result: Option<string>, window: nat, rejected: bool)
    | Recover(world: Schedule.World)
    | Withdraw(world: Schedule.World, id: nat, cause: string)
    | NewGeneration(reset: Option<Generation>)

  /** The position of the first offered row that is accepted: not waiting for publication, not published. */
  function Picked(ids: seq<nat>, accepted: set<nat>): (p: nat)
    ensures p <= |ids| && (p < |ids| ==> ids[p] in accepted)
    ensures forall i :: 0 <= i < p ==> ids[i] !in accepted
  {
    if ids == [] || ids[0] in accepted then 0 else 1 + Picked(ids[1..], accepted)
  }

  /** The offered row at a position, if there is one, is started. */
  function Started(q: Tables, w: Schedule.World, count: nat, before: nat, current: nat, p: nat, into: Option<nat>)
    : Tables
  {
    var ids, swept := Schedule.Pending(q, w, count, before, current), Schedule.Swept(q, w, before);
    if p < |ids| then Fairness.Settle(swept, Start(swept, ids[p], into)) else swept
  }

  function Apply(q: Tables, e: Event): Tables
  {
    match e
    case Observe(g, rows) => Schedule.Observe(q, g, rows)
    case Preview(w, _, before, _) => Schedule.Swept(q, w, before)
    case Dispatch(w, count, before, current, accepted, into) =>
      Started(q, w, count, before, current, Picked(Schedule.Pending(q, w, count, before, current), accepted), into)
    case Defer(w, id, cause, retry) => Schedule.Defer(q, w, id, cause, retry)
    case Finish(id, status, reason, result) => Fairness.Settle(q, Queue.Finish(q, id, status, reason, result))
    case Reconcile(hotkey, result, window, rejected) => Schedule.Reconcile(q, hotkey, result, window, rejected)
    case Recover(w) => Schedule.Recover(q, w)
    case Withdraw(w, id, cause) => Schedule.Withdraw(q, w, id, cause)
    case NewGeneration(reset) => Fairness.Settle(q, ApplyReset(q, reset))
  }

  function Run(events: seq<Event>): Tables
  {
    if events == [] then EMPTY_QUEUE else Apply(Run(events[..|events| - 1]), events[|events| - 1])
  }

  // ---------------------------------------------------------------- invariants

  ghost predicate Good(e: Entry)
  {
    && e.status != Excluded && e.status != Failed
    && (Live(e) ==> e.timeouts < Schedule.MAX_TIMEOUT_FAILURES)
    && (e.status == Withdrawn ==> e.removedBlock >= Since(e))
  }

  /** The binding of a challenge. */
  ghost predicate SameBinding(a: Entry, b: Entry)
  {
    a.hotkey == b.hotkey && a.value == b.value && a.block == b.block && a.owner == b.owner && a.uid == b.uid
      && a.model == b.model
  }

  ghost predicate Evolved(a: Entry, b: Entry)
  {
    SameBinding(a, b) && Good(b) && (a.status == Reset ==> b.status == Reset)
  }

  ghost predicate OneEach(rows: seq<Entry>)
  {
    forall i, j :: 0 <= i < j < |rows| && rows[i].status != Reset && rows[j].status != Reset ==>
      rows[i].hotkey != rows[j].hotkey
  }

  ghost predicate AllGood(rows: seq<Entry>) { forall i :: 0 <= i < |rows| ==> Good(rows[i]) }

  /** Rows that outlived a reset were committed after it. */
  ghost predicate Current(q: Tables)
  {
    q.reset.Some? ==> forall i :: 0 <= i < |q.rows| && q.rows[i].status != Reset ==>
      q.rows[i].block >= q.reset.value.block
  }

  ghost predicate Sound(q: Tables)
  {
    AllGood(q.rows) && OneEach(q.rows) && Current(q)
  }

  ghost predicate AllEvolved(a: seq<Entry>, b: seq<Entry>)
  {
    |a| <= |b| && forall i :: 0 <= i < |a| ==> Evolved(a[i], b[i])
  }

  lemma EvolvedSound(q: Tables, r: Tables)
    requires Sound(q) && AllEvolved(q.rows, r.rows) && |r.rows| == |q.rows| && r.reset == q.reset
    ensures Sound(r)
  {
    forall i, j | 0 <= i < j < |r.rows| && r.rows[i].status != Reset && r.rows[j].status != Reset
      ensures r.rows[i].hotkey != r.rows[j].hotkey
    {
      assert Evolved(q.rows[i], r.rows[i]) && Evolved(q.rows[j], r.rows[j]);
    }
  }

  // ---------------------------------------------------------------- one row at a time

  lemma SetEvolved(q: Tables, id: nat, e: Entry)
    requires AllGood(q.rows) && (id < |q.rows| ==> Evolved(q.rows[id], e))
    ensures id < |q.rows| ==> AllEvolved(q.rows, SetRow(q, id, e).rows)
    ensures AllEvolved(q.rows, q.rows)
  {
  }

  lemma WithdrawEvolved(w: Schedule.World, e: Entry, why: string)
    requires e.status != Reset
    ensures Evolved(e, Schedule.WithdrawnEntry(w, e, why))
  {
  }

  ghost predicate Steady(q: Tables, r: Tables)
  {
    AllEvolved(q.rows, r.rows) && |r.rows| == |q.rows| && r.reset == q.reset
  }

  lemma WithdrawSteady(q: Tables, w: Schedule.World, id: nat, why: string)
    requires AllGood(q.rows)
    ensures Steady(q, Schedule.Withdraw(q, w, id, why))
  {
    if id < |q.rows| && q.rows[id].status != Reset {
      WithdrawEvolved(w, q.rows[id], why);
      SetEvolved(q, id, Schedule.WithdrawnEntry(w, q.rows[id], why));
    }
  }

  lemma DeferSteady(q: Tables, id: nat, why: string, retry: nat)
    requires AllGood(q.rows)
    ensures Steady(q, Queue.Defer(q, id, why, retry))
  {
    if id < |q.rows| && q.rows[id].status == Running {
      SetEvolved(q, id, q.rows[id].(status := Queued, reason := Some(why), retryBlock := retry));
    }
  }

  lemma SteadyTransitive(q: Tables, r: Tables, s: Tables)
    requires Steady(q, r) && Steady(r, s)
    ensures Steady(q, s)
  {
    forall i | 0 <= i < |q.rows|
      ensures Evolved(q.rows[i], s.rows[i])
    {
      assert Evolved(q.rows[i], r.rows[i]) && Evolved(r.rows[i], s.rows[i]);
    }
  }

  /** A second timed-out attempt withdraws the row in the same transaction that counts it. */
  lemma TimeoutSteady(q: Tables, w: Schedule.World, id: nat)
    requires AllGood(q.rows) && id < |q.rows| && q.rows[id].status == Running
    ensures var e := q.rows[id];
      var counted := SetRow(q, id, e.(timeouts := e.timeouts + 1));
      if e.timeouts + 1 >= Schedule.MAX_TIMEOUT_FAILURES then
        Steady(q, Schedule.Withdraw(counted, w, id, "retry_limit_exceeded"))
      else Steady(q, counted) && AllGood(counted.rows)
  {
    var e := q.rows[id];
    var late := e.(timeouts := e.timeouts + 1);
    var counted := SetRow(q, id, late);
    if e.timeouts + 1 >= Schedule.MAX_TIMEOUT_FAILURES {
      var out := Schedule.WithdrawnEntry(w, late, "retry_limit_exceeded");
      SetEvolved(q, id, out);
      assert Schedule.Withdraw(counted, w, id, "retry_limit_exceeded").rows == q.rows[id := out];
    } else {
      SetEvolved(q, id, late);
    }
  }

  lemma ScheduleDeferSteady(q: Tables, w: Schedule.World, id: nat, cause: string, retry: nat)
    requires AllGood(q.rows)
    ensures Steady(q, Schedule.Defer(q, w, id, cause, retry))
  {
    hide AllGood, Queue.Defer, Schedule.Withdraw, Steady;
    if id >= |q.rows| {
      SameSteady(q);
    } else {
      var e := q.rows[id];
      var planned := w.interruption(e.window);
      var why := if planned.Some? then planned.value else cause;
      var wait := Schedule.Capped(w, if planned.Some? then 0 else retry);
      SameSteady(q);
      DeferSteady(q, id, why, 0);
      DeferSteady(q, id, why, Schedule.Capped(w, retry));
      DeferSteady(q, id, cause, Schedule.PARKED);
      DeferSteady(q, id, why, wait);
      if cause in Schedule.MINER_FAILURES {
        WithdrawSteady(q, w, id, Schedule.MINER_FAILURES[cause]);
      }
      if Schedule.TimedOut(e, cause, planned) {
        TimeoutSteady(q, w, id);
        if e.timeouts + 1 < Schedule.MAX_TIMEOUT_FAILURES {
          var counted := SetRow(q, id, e.(timeouts := e.timeouts + 1));
          DeferSteady(counted, id, cause, Schedule.PARKED);
          DeferSteady(counted, id, why, wait);
          SteadyTransitive(q, counted, Queue.Defer(counted, id, cause, Schedule.PARKED));
          SteadyTransitive(q, counted, Queue.Defer(counted, id, why, wait));
        }
      }
    }
  }

  lemma SameSteady(q: Tables)
    requires AllGood(q.rows)
    ensures Steady(q, q)
  {
  }

  // ---------------------------------------------------------------- all rows at once

  lemma RecoverSteady(q: Tables, w: Schedule.World)
    requires AllGood(q.rows)
    ensures Steady(q, Schedule.Recover(q, w))
  {
    forall i | 0 <= i < |q.rows|
      ensures Evolved(q.rows[i], Schedule.Recovered(w, q.rows[i]))
    {
      assert Good(q.rows[i]);
    }
  }

  lemma {:induction false} VisitSteady(q: Tables, w: Schedule.World, ids: seq<nat>, before: nat)
    requires AllGood(q.rows) && Schedule.InRange(q, ids) && AllWaiting(q, ids, before)
    ensures Steady(q, Schedule.VisitAll(q, w, ids))
    decreases |ids|
  {
    if ids == [] {
      SameSteady(q);
    } else {
      var n := |ids| - 1;
      var front, e := Schedule.VisitAll(q, w, ids[..n]), q.rows[ids[n]];
      assert AllWaiting(q, ids[..n], before) && Waiting(q, ids[n], before) by { assert ids[n] in ids; }
      VisitSteady(q, w, ids[..n], before);
      assert Good(e);
      assert Evolved(e, Schedule.Visited(w, e));
      hide Schedule.Visited, Good;
    }
  }

  lemma SweptSteady(q: Tables, w: Schedule.World, before: nat)
    requires AllGood(q.rows)
    ensures Steady(q, Schedule.Swept(q, w, before))
  {
    Schedule.WaitingInRange(q, before);
    VisitSteady(q, w, WaitingIds(q, before, |q.rows|), before);
  }

  // ---------------------------------------------------------------- dispatch

  lemma {:induction false} VisitedOnce(q: Tables, w: Schedule.World, ids: seq<nat>, id: nat)
    requires Schedule.InRange(q, ids) && RoundRobin.Distinct(ids) && id in ids
    ensures id < |q.rows| && Schedule.VisitAll(q, w, ids).rows[id] == Schedule.Visited(w, q.rows[id])
    decreases |ids|
  {
    var n := |ids| - 1;
    if ids[n] != id {
      assert id in ids[..n];
      VisitedOnce(q, w, ids[..n], id);
    }
  }

  /** Whatever is offered for dispatch is a live challenger of the window with fewer than two timed-out attempts. */
  lemma PendingOffered(q: Tables, w: Schedule.World, count: nat, before: nat, current: nat, p: nat)
    requires p < |Schedule.Pending(q, w, count, before, current)|
    ensures var id := Schedule.Pending(q, w, count, before, current)[p];
      && Waiting(q, id, before) && Schedule.Offered(w, q.rows[id])
      && |Schedule.Swept(q, w, before).rows| == |q.rows|
      && Schedule.Swept(q, w, before).rows[id] == Schedule.Visited(w, q.rows[id])
  {
    var ids := WaitingIds(q, before, |q.rows|);
    Schedule.WaitingInRange(q, before);
    WaitingDistinct(q, before, |q.rows|);
    var offered := Schedule.OfferedIds(q, w, ids);
    var id := Schedule.Pending(q, w, count, before, current)[p];
    DispatchableRow(q, w, before, current, p);
    hide WaitingIds, Schedule.OfferedIds, Schedule.Dispatchable, Schedule.VisitAll, Schedule.Visited, RoundRobin.Rounds;
    VisitedOnce(q, w, ids, id);
  }

  lemma DispatchableRow(q: Tables, w: Schedule.World, before: nat, current: nat, p: nat)
    requires p < |RoundRobin.Rounds(Schedule.Dispatchable(q, w, before, current))|
    requires Schedule.InRange(q, WaitingIds(q, before, |q.rows|))
    ensures RoundRobin.Rounds(Schedule.Dispatchable(q, w, before, current))[p] in
            Schedule.OfferedIds(q, w, WaitingIds(q, before, |q.rows|))
  {
    var groups := Schedule.Dispatchable(q, w, before, current);
    var offered := Schedule.OfferedIds(q, w, WaitingIds(q, before, |q.rows|));
    var i, d := RoundRobin.SlotOnto(groups, p);
    assert groups[i] in groups;
    hide RoundRobin.Rounds, RoundRobin.Slot, RoundRobin.Grouped, WaitingIds, Schedule.OfferedIds;
    RoundRobin.SlotHolds(groups, i, d);
    RoundRobin.GroupMembers(offered, OwnerOf(q), groups[i]);
  }

  lemma DispatchSteady(q: Tables, w: Schedule.World, count: nat, before: nat, current: nat, pick: nat,
                       into: Option<nat>)
    requires AllGood(q.rows)
    ensures Steady(q, Started(q, w, count, before, current, pick, into))
  {
    hide Schedule.Pending, Schedule.Swept, Steady, AllGood;
    var ids, swept := Schedule.Pending(q, w, count, before, current), Schedule.Swept(q, w, before);
    SweptSteady(q, w, before);
    if pick < |ids| {
      PendingOffered(q, w, count, before, current, pick);
      SweptSteady(q, w, before);
      StartSteady(q, w, ids[pick], before, swept, into);
    }
  }

  lemma StartSteady(q: Tables, w: Schedule.World, id: nat, before: nat, swept: Tables, into: Option<nat>)
    requires AllGood(q.rows) && Steady(q, swept) && Waiting(q, id, before) && Schedule.Offered(w, q.rows[id])
    requires swept.rows[id] == Schedule.Visited(w, q.rows[id])
    ensures Start(swept, id, into).Ok? && Steady(q, Start(swept, id, into).value)
    ensures Start(swept, id, into).value.rows[id].status == Running
  {
    assert Good(q.rows[id]);
    var e := swept.rows[id];
    assert Live(e) && e.timeouts < Schedule.MAX_TIMEOUT_FAILURES;
    var started := e.(status := Running, window := into, attempts := e.attempts + 1);
    assert Evolved(q.rows[id], started);
    hide Schedule.Visited, Schedule.Offered, Good;
    assert Start(swept, id, into).value.rows == swept.rows[id := started];
  }

  // ---------------------------------------------------------------- finalized results

  lemma ReconcileSteady(q: Tables, hotkey: Hotkey, result: Option<string>, window: nat, rejected: bool)
    requires AllGood(q.rows) && OneEach(q.rows)
    ensures Steady(q, Schedule.Reconcile(q, hotkey, result, window, rejected))
  {
    var restored := q.(rows := Schedule.RestoreAll(hotkey, q.rows));
    var id := LiveRow(restored.rows, hotkey);
    var r := Schedule.Reconcile(q, hotkey, result, window, rejected);
    hide Schedule.RestoreAll, LiveRow;
    forall i | 0 <= i < |q.rows|
      ensures Evolved(q.rows[i], r.rows[i])
    {
      assert Good(q.rows[i]);
      if i != id {
        OnlyLiveRow(q, hotkey, restored.rows, id, i);
      }
    }
  }

  /** A restored row is the one the result is recorded on. */
  lemma OnlyLiveRow(q: Tables, hotkey: Hotkey, restored: seq<Entry>, id: nat, i: nat)
    requires OneEach(q.rows) && |restored| == |q.rows| && i < |q.rows| && id <= |restored| && i != id
    requires forall j :: 0 <= j < |restored| ==> restored[j] == Schedule.Restored(hotkey, q.rows[j])
    requires id < |restored| ==> Live(restored[id]) && restored[id].hotkey == hotkey
    requires id == |restored| ==> forall e :: e in restored && e.hotkey == hotkey ==> !Live(e)
    ensures restored[i] == q.rows[i]
  {
    assert restored[i] in restored;
    assert restored[i] == Schedule.Restored(hotkey, q.rows[i]);
  }

  // ---------------------------------------------------------------- arrivals and generations

  ghost predicate NoneWithdrawn(rows: seq<Entry>, hotkeys: set<Hotkey>)
  {
    forall i :: 0 <= i < |rows| && rows[i].status == Withdrawn ==> rows[i].hotkey !in hotkeys
  }

  lemma ReadmitSteady(q: Tables, g: Registry, rows: seq<Row>)
    requires AllGood(q.rows)
    ensures Steady(q, q.(rows := Schedule.ReadmitAll(g, rows, q.rows)))
    ensures NoneWithdrawn(Schedule.ReadmitAll(g, rows, q.rows), g.hotkeys - Schedule.WithdrawnHotkeys(q))
  {
    var r := Schedule.ReadmitAll(g, rows, q.rows);
    hide Schedule.Renewal, Schedule.ReadmitAll;
    forall i | 0 <= i < |q.rows|
      ensures Evolved(q.rows[i], r[i])
      ensures r[i].status == Withdrawn ==> r[i].hotkey in Schedule.WithdrawnHotkeys(q)
    {
      assert Good(q.rows[i]) && q.rows[i] in q.rows;
    }
  }

  /** A hotkey that can bind has no row but discarded ones, so its arrival makes its only row. */
  lemma ArrivalSound(q: Tables, g: Registry, row: Row)
    requires Sound(q) && NoneWithdrawn(q.rows, g.hotkeys)
    ensures Sound(ObserveRow(q, g, row)) && NoneWithdrawn(ObserveRow(q, g, row).rows, g.hotkeys)
    ensures AllEvolved(q.rows, ObserveRow(q, g, row).rows)
  {
    SoundParts(q);
    SameSteady(q);
    if Admitted(q, g, row) {
      FreeHotkey(q, g, row);
      NewBinding(q, g, row);
      hide Admitted, SameCommitment, NewEntry, Turns.Enter, Sound, NoneWithdrawn, AllEvolved, AllGood, OneEach;
      var turns := Turns.Enter(q.turns, g.coldkeys[row.hotkey]);
      TurnsIrrelevant(q, turns);
      AppendSound(q, NewEntry(g, row), turns, g);
    }
  }

  lemma FreeHotkey(q: Tables, g: Registry, row: Row)
    requires Sound(q) && NoneWithdrawn(q.rows, g.hotkeys) && Admitted(q, g, row)
    ensures forall i :: 0 <= i < |q.rows| && q.rows[i].status != Reset ==> q.rows[i].hotkey != row.hotkey
  {
    hide LedgerSpec.ParseSubmission;
    forall i | 0 <= i < |q.rows|
      ensures q.rows[i].status != Reset ==> q.rows[i].hotkey != row.hotkey
    {
      assert q.rows[i] in q.rows && Good(q.rows[i]);
    }
  }

  lemma NewBinding(q: Tables, g: Registry, row: Row)
    requires Admitted(q, g, row)
    ensures var e := NewEntry(g, row);
      e.hotkey == row.hotkey && e.status == Queued && e.timeouts == 0
        && (q.reset.Some? ==> e.block >= q.reset.value.block)
  {
    hide LedgerSpec.ParseSubmission;
  }

  lemma TurnsIrrelevant(q: Tables, turns: Turns.Table)
    requires Sound(q)
    ensures Sound(q.(turns := turns))
  {
  }

  lemma AppendSound(q: Tables, e: Entry, turns: Turns.Table, g: Registry)
    requires Sound(q) && NoneWithdrawn(q.rows, g.hotkeys)
    requires e.status == Queued && e.timeouts == 0 && (q.reset.Some? ==> e.block >= q.reset.value.block)
    requires forall i :: 0 <= i < |q.rows| && q.rows[i].status != Reset ==> q.rows[i].hotkey != e.hotkey
    ensures var r := q.(turns := turns, rows := q.rows + [e]);
      Sound(r) && NoneWithdrawn(r.rows, g.hotkeys) && AllEvolved(q.rows, r.rows)
  {
  }

  lemma {:induction false} ArrivalsSound(q: Tables, g: Registry, rows: seq<Row>)
    requires Sound(q) && NoneWithdrawn(q.rows, g.hotkeys)
    ensures var r := ObserveRows(q, g, rows);
      Sound(r) && NoneWithdrawn(r.rows, g.hotkeys) && AllEvolved(q.rows, r.rows)
    decreases |rows|
  {
    if rows == [] {
      SameSteady(q);
    } else {
      var front := ObserveRows(q, g, rows[..|rows| - 1]);
      ArrivalsSound(q, g, rows[..|rows| - 1]);
      ArrivalSound(front, g, rows[|rows| - 1]);
      hide ObserveRow, Sound, NoneWithdrawn;
      EvolvedTransitive(q.rows, front.rows, ObserveRows(q, g, rows).rows);
    }
  }

  lemma EvolvedTransitive(a: seq<Entry>, b: seq<Entry>, c: seq<Entry>)
    requires AllEvolved(a, b) && AllEvolved(b, c)
    ensures AllEvolved(a, c)
  {
    forall i | 0 <= i < |a|
      ensures Evolved(a[i], c[i])
    {
      assert Evolved(a[i], b[i]) && Evolved(b[i], c[i]);
    }
  }

  lemma ObserveSound(q: Tables, g: Registry, rows: seq<Row>)
    requires Sound(q)
    ensures Sound(Schedule.Observe(q, g, rows)) && AllEvolved(q.rows, Schedule.Observe(q, g, rows).rows)
  {
    var r := q.(rows := Schedule.ReadmitAll(g, rows, q.rows));
    ReadmitSteady(q, g, rows);
    EvolvedSound(q, r);
    hide Sound, NoneWithdrawn, Schedule.ReadmitAll, Arrivals;
    ArrivalsSound(r, g.(hotkeys := g.hotkeys - Schedule.WithdrawnHotkeys(q)), Arrivals(rows));
    EvolvedTransitive(q.rows, r.rows, Schedule.Observe(q, g, rows).rows);
  }

  lemma GenerationSound(q: Tables, reset: Option<Generation>)
    requires Sound(q)
    ensures var r := Fairness.Settle(q, ApplyReset(q, reset)); Sound(r) && AllEvolved(q.rows, r.rows)
  {
    var r := Fairness.Settle(q, ApplyReset(q, reset));
    SameSteady(q);
    if reset.Some? && q.reset == None {
      var block := reset.value.block;
      hide Outdated;
      forall i | 0 <= i < |q.rows|
        ensures Evolved(q.rows[i], r.rows[i])
      {
        assert Good(q.rows[i]);
        assert r.rows[i] == if q.rows[i].block < block then q.rows[i].(status := Reset) else q.rows[i];
      }
      assert forall i :: 0 <= i < |r.rows| && r.rows[i].status != Reset ==> r.rows[i] == q.rows[i];
    }
  }

  lemma FinishSteady(q: Tables, id: nat, status: Status, reason: Option<string>, result: Option<string>)
    requires AllGood(q.rows)
    ensures Steady(q, Fairness.Settle(q, Queue.Finish(q, id, status, reason, result)))
  {
    SameSteady(q);
    if id < |q.rows| && Terminal(status) && q.rows[id].status != Reset {
      SetEvolved(q, id, q.rows[id].(status := status, reason := reason, result := result));
    }
  }

  // ---------------------------------------------------------------- every run

  lemma ApplySound(q: Tables, e: Event)
    requires Sound(q)
    ensures Sound(Apply(q, e)) && AllEvolved(q.rows, Apply(q, e).rows)
  {
    SoundParts(q);
    match e {
      case Observe(g, rows) => ObserveSound(q, g, rows);
      case NewGeneration(reset) => GenerationSound(q, reset);
      case Dispatch(w, count, before, current, accepted, into) =>
        var p := Picked(Schedule.Pending(q, w, count, before, current), accepted);
        DispatchSteady(q, w, count, before, current, p, into);
        SteadySound(q, Apply(q, e));
      case Preview(w, count, before, current) =>
        SweptSteady(q, w, before);
        SteadySound(q, Apply(q, e));
      case Defer(w, id, cause, retry) =>
        ScheduleDeferSteady(q, w, id, cause, retry);
        SteadySound(q, Apply(q, e));
      case Finish(id, status, reason, result) =>
        FinishSteady(q, id, status, reason, result);
        SteadySound(q, Apply(q, e));
      case Reconcile(hotkey, result, window, rejected) =>
        ReconcileSteady(q, hotkey, result, window, rejected);
        SteadySound(q, Apply(q, e));
      case Recover(w) =>
        RecoverSteady(q, w);
        SteadySound(q, Apply(q, e));
      case Withdraw(w, id, cause) =>
        WithdrawSteady(q, w, id, cause);
        SteadySound(q, Apply(q, e));
    }
  }

  lemma SoundParts(q: Tables)
    requires Sound(q)
    ensures AllGood(q.rows) && OneEach(q.rows)
  {
  }

  lemma SteadySound(q: Tables, r: Tables)
    requires Sound(q) && Steady(q, r)
    ensures Sound(r) && AllEvolved(q.rows, r.rows)
  {
    EvolvedSound(q, r);
  }

  lemma {:induction false} RunSound(events: seq<Event>)
    ensures Sound(Run(events))
    decreases |events|
  {
    if events != [] {
      RunSound(events[..|events| - 1]);
      ApplySound(Run(events[..|events| - 1]), events[|events| - 1]);
      hide Apply, Sound;
    }
  }

  /** Rows only evolve: a binding, once made, is the same after any continuation of the run. */
  lemma {:induction false} BindingsAreImmutable(a: seq<Event>, b: seq<Event>)
    ensures AllEvolved(Run(a).rows, Run(a + b).rows)
    decreases |b|
  {
    RunSound(a);
    if b == [] {
      assert a + b == a;
      SoundParts(Run(a));
      SameSteady(Run(a));
    } else {
      var n := |b| - 1;
      assert (a + b)[..|a + b| - 1] == a + b[..n];
      BindingsAreImmutable(a, b[..n]);
      RunSound(a + b[..n]);
      ApplySound(Run(a + b[..n]), b[n]);
      hide Apply, Sound;
      EvolvedTransitive(Run(a).rows, Run(a + b[..n]).rows, Run(a + b).rows);
    }
  }

  /**
   One challenge per hotkey for good: as long as a row has not been discarded by a new
   generation, every undiscarded row of its hotkey is that row, with the value first bound.
   */
  lemma OneChallengePerHotkey(a: seq<Event>, b: seq<Event>, i: nat, j: nat)
    requires i < |Run(a).rows| && i < |Run(a + b).rows| && j < |Run(a + b).rows|
    requires Run(a + b).rows[i].status != Reset && Run(a + b).rows[j].status != Reset
    requires Run(a + b).rows[j].hotkey == Run(a).rows[i].hotkey
    ensures j == i && Run(a + b).rows[j].value == Run(a).rows[i].value
  {
    BindingsAreImmutable(a, b);
    RunSound(a + b);
    SoundParts(Run(a + b));
    hide Run;
    assert Evolved(Run(a).rows[i], Run(a + b).rows[i]);
  }

  // ---------------------------------------------------------------- withdrawn and consumed rows

  /** How a row that is out of dispatch can change at all. */
  ghost predicate Leaves(q: Tables, e: Event, i: nat, after: Entry)
    requires i < |q.rows|
  {
    var row := q.rows[i];
    match e
    case Observe(g, rows) =>
      row.status == Withdrawn && after.status == Queued && after.timeouts == 0
      && exists r :: r in rows && Schedule.Renews(g, row, r) && after.readmission == Some(r.block)
    case Reconcile(hotkey, _, _, rejected) =>
      row.status == Withdrawn && hotkey == row.hotkey && after.status == if rejected then Rejected else Done
    case Finish(id, status, _, _) => row.status == Withdrawn && id == i && Terminal(status) && after.status == status
    case NewGeneration(reset) =>
      reset.Some? && q.reset == None && row.block < reset.value.block && after.status == Reset
    case _ => false
  }

  predicate Out(e: Entry) { e.status == Withdrawn || Terminal(e.status) }

  lemma {:induction false} ArrivalsKeepRows(q: Tables, g: Registry, rows: seq<Row>)
    ensures q.rows <= ObserveRows(q, g, rows).rows
    decreases |rows|
  {
    if rows != [] {
      hide Admitted, SameCommitment, NewEntry;
      ArrivalsKeepRows(q, g, rows[..|rows| - 1]);
    }
  }

  lemma ObserveLeaves(q: Tables, g: Registry, rows: seq<Row>, i: nat)
    requires i < |q.rows| && Out(q.rows[i])
    ensures i < |Schedule.Observe(q, g, rows).rows|
    ensures var after := Schedule.Observe(q, g, rows).rows[i];
      after == q.rows[i] || Leaves(q, Observe(g, rows), i, after)
  {
    var r := q.(rows := Schedule.ReadmitAll(g, rows, q.rows));
    hide Schedule.ReadmitAll, Arrivals, ObserveRows;
    ArrivalsKeepRows(r, g.(hotkeys := g.hotkeys - Schedule.WithdrawnHotkeys(q)), Arrivals(rows));
    assert Schedule.Observe(q, g, rows).rows[i] == r.rows[i] == Schedule.Readmitted(g, rows, q.rows[i]);
  }

  lemma SweepLeaves(q: Tables, w: Schedule.World, before: nat, i: nat)
    requires i < |q.rows| && Out(q.rows[i])
    ensures |Schedule.Swept(q, w, before).rows| == |q.rows| && Schedule.Swept(q, w, before).rows[i] == q.rows[i]
  {
    Schedule.WaitingInRange(q, before);
    Schedule.VisitUntouched(q, w, WaitingIds(q, before, |q.rows|), i);
  }

  lemma DispatchLeaves(q: Tables, w: Schedule.World, count: nat, before: nat, current: nat, pick: nat,
                       into: Option<nat>, i: nat)
    requires Sound(q) && i < |q.rows| && Out(q.rows[i])
    ensures i < |Started(q, w, count, before, current, pick, into).rows|
    ensures Started(q, w, count, before, current, pick, into).rows[i] == q.rows[i]
  {
    SweepLeaves(q, w, before, i);
    hide Schedule.Swept, WaitingIds, Schedule.VisitAll;
    if pick < |Schedule.Pending(q, w, count, before, current)| {
      PendingOffered(q, w, count, before, current, pick);
      hide Schedule.Pending, Schedule.Swept, WaitingIds, Schedule.VisitAll, Sound;
    }
  }

  lemma ReconcileLeaves(q: Tables, hotkey: Hotkey, result: Option<string>, window: nat, rejected: bool, i: nat)
    requires Sound(q) && i < |q.rows| && Out(q.rows[i])
    ensures var e, r := Reconcile(hotkey, result, window, rejected),
      Schedule.Reconcile(q, hotkey, result, window, rejected);
      i < |r.rows| && (r.rows[i] == q.rows[i] || Leaves(q, e, i, r.rows[i]))
  {
    var restored := Schedule.RestoreAll(hotkey, q.rows);
    var id := LiveRow(restored, hotkey);
    SoundParts(q);
    hide Schedule.RestoreAll, LiveRow, Sound, AllGood, OneEach;
    if id != i {
      OnlyLiveRow(q, hotkey, restored, id, i);
    }
  }

  /**
   A withdrawn row changes only by the same value committed again above the block of its removal,
   by a finalized or recorded result, or by a new generation; a consumed one only by the latter.
   */
  lemma OutOfDispatchLeavesOnlyBy(q: Tables, e: Event, i: nat)
    requires Sound(q) && i < |q.rows| && Out(q.rows[i])
    ensures i < |Apply(q, e).rows|
    ensures Apply(q, e).rows[i] == q.rows[i] || Leaves(q, e, i, Apply(q, e).rows[i])
  {
    match e {
      case Observe(g, rows) => ObserveLeaves(q, g, rows, i);
      case Dispatch(w, count, before, current, accepted, into) =>
        var p := Picked(Schedule.Pending(q, w, count, before, current), accepted);
        DispatchLeaves(q, w, count, before, current, p, into, i);
      case Preview(w, count, before, current) => SweepLeaves(q, w, before, i);
      case Reconcile(hotkey, result, window, rejected) => ReconcileLeaves(q, hotkey, result, window, rejected, i);
      case NewGeneration(reset) =>
        hide Outdated;
      case Recover(w) =>
        hide Schedule.RecoverAll;
      case Defer(w, id, cause, retry) => DeferLeaves(q, w, id, cause, retry, i);
      case Finish(id, status, reason, result) =>
      case Withdraw(w, id, cause) =>
    }
  }

  lemma DeferLeaves(q: Tables, w: Schedule.World, id: nat, cause: string, retry: nat, i: nat)
    requires i < |q.rows| && Out(q.rows[i])
    ensures i < |Schedule.Defer(q, w, id, cause, retry).rows|
      && Schedule.Defer(q, w, id, cause, retry).rows[i] == q.rows[i]
  {
    hide Queue.Defer, Schedule.Withdraw;
    if id < |q.rows| {
      var counted := SetRow(q, id, q.rows[id].(timeouts := q.rows[id].timeouts + 1));
      QueueDeferLeaves(q, id, i);
      WithdrawLeaves(q, w, id, i);
      if q.rows[id].status == Running {
        QueueDeferLeaves(counted, id, i);
        WithdrawLeaves(counted, w, id, i);
      }
    }
  }

  lemma QueueDeferLeaves(q: Tables, id: nat, i: nat)
    requires i < |q.rows| && Out(q.rows[i])
    ensures forall why, retry ::
      |Queue.Defer(q, id, why, retry).rows| == |q.rows| && Queue.Defer(q, id, why, retry).rows[i] == q.rows[i]
  {
  }

  lemma WithdrawLeaves(q: Tables, w: Schedule.World, id: nat, i: nat)
    requires i < |q.rows| && Out(q.rows[i])
    ensures forall why ::
      |Schedule.Withdraw(q, w, id, why).rows| == |q.rows| && Schedule.Withdraw(q, w, id, why).rows[i] == q.rows[i]
  {
  }

  /** Over every run, a row dispatched has fewer than two timed-out attempts and is a live challenger of its window. */
  lemma NeverDispatchedAfterTwoTimeouts(events: seq<Event>, w: Schedule.World, count: nat, before: nat, current: nat,
                                        p: nat, into: Option<nat>)
    requires p < |Schedule.Pending(Run(events), w, count, before, current)|
    ensures var q := Run(events);
      var id := Schedule.Pending(q, w, count, before, current)[p];
      && id < |q.rows| && Live(q.rows[id]) && q.rows[id].timeouts < Schedule.MAX_TIMEOUT_FAILURES
      && q.rows[id].model in w.candidates && w.candidates[q.rows[id].model] == q.rows[id].hotkey
      && id < |Apply(q, Dispatch(w, count, before, current, {id}, into)).rows|
      && Apply(q, Dispatch(w, count, before, current, {id}, into)).rows[id].status == Running
  {
    RunSound(events);
    SoundParts(Run(events));
    hide Run, Sound, Apply;
    OfferedStarts(Run(events), w, count, before, current, p, into);
  }

  lemma OfferedStarts(q: Tables, w: Schedule.World, count: nat, before: nat, current: nat, p: nat, into: Option<nat>)
    requires AllGood(q.rows) && p < |Schedule.Pending(q, w, count, before, current)|
    ensures var id := Schedule.Pending(q, w, count, before, current)[p];
      && id < |q.rows| && Live(q.rows[id]) && q.rows[id].timeouts < Schedule.MAX_TIMEOUT_FAILURES
      && q.rows[id].model in w.candidates && w.candidates[q.rows[id].model] == q.rows[id].hotkey
      && id < |Apply(q, Dispatch(w, count, before, current, {id}, into)).rows|
      && Apply(q, Dispatch(w, count, before, current, {id}, into)).rows[id].status == Running
  {
    hide Schedule.Pending, Schedule.Swept, AllGood, Steady, Schedule.Visited;
    var ids := Schedule.Pending(q, w, count, before, current);
    PendingOffered(q, w, count, before, current, p);
    SweptSteady(q, w, before);
    StartSteady(q, w, ids[p], before, Schedule.Swept(q, w, before), into);
    assert ids[Picked(ids, {ids[p]})] == ids[p];
  }

  /** While a row is live it has budget for another attempt: the second timeout withdraws it at once. */
  lemma SecondTimeoutWithdraws(events: seq<Event>, i: nat)
    requires i < |Run(events).rows| && Run(events).rows[i].timeouts >= Schedule.MAX_TIMEOUT_FAILURES
    ensures !Live(Run(events).rows[i])
  {
    RunSound(events);
    assert Good(Run(events).rows[i]);
  }

  // ---------------------------------------------------------------- the order of the offer

  lemma {:induction false} OfferedInOrder(q: Tables, w: Schedule.World, ids: seq<nat>, before: nat)
    requires Schedule.InRange(q, ids) && Fairness.InOrder(q, ids, before)
    ensures Fairness.InOrder(q, Schedule.OfferedIds(q, w, ids), before)
    decreases |ids|
  {
    if ids != [] {
      var n := |ids| - 1;
      Fairness.FrontInOrder(q, before, ids);
      OfferedInOrder(q, w, ids[..n], before);
      hide Fairness.Precedes, Waiting, Schedule.Offered;
      var front := Schedule.OfferedIds(q, w, ids[..n]);
      forall i | 0 <= i < |front|
        ensures Fairness.Precedes(q, front[i], ids[n])
      {
        assert front[i] in front;
      }
    }
  }

  lemma DispatchableInTurn(q: Tables, w: Schedule.World, before: nat, current: nat)
    ensures Fairness.GroupsInTurn(q, Schedule.Dispatchable(q, w, before, current))
  {
    var ids := WaitingIds(q, before, |q.rows|);
    Schedule.WaitingInRange(q, before);
    Fairness.WaitingInOrder(q, before, |q.rows|);
    OfferedInOrder(q, w, ids, before);
    var offered := Schedule.OfferedIds(q, w, ids);
    Fairness.GroupedInTurn(q, before, offered);
    Fairness.ReadyInTurn(q, Schedule.Swept(q, w, before), RoundRobin.Grouped(offered, OwnerOf(q)), current);
  }

  lemma OfferedOwner(q: Tables, w: Schedule.World, before: nat, current: nat, i: nat, d: nat)
    requires RoundRobin.At(Schedule.Dispatchable(q, w, before, current), i, d)
    ensures var g := Schedule.Dispatchable(q, w, before, current)[i];
      g.items[d] < |q.rows| && q.rows[g.items[d]].owner == g.owner
  {
    var groups := Schedule.Dispatchable(q, w, before, current);
    var ids := WaitingIds(q, before, |q.rows|);
    Schedule.WaitingInRange(q, before);
    assert groups[i] in groups && groups[i].items[d] in groups[i].items;
    hide RoundRobin.Grouped, RoundRobin.RowsOf, WaitingIds, Schedule.OfferedIds;
    RoundRobin.GroupMembers(Schedule.OfferedIds(q, w, ids), OwnerOf(q), groups[i]);
  }

  /** The scheduler serves in depth layers too. */
  lemma PendingIsLayered(q: Tables, w: Schedule.World, count: nat, before: nat, current: nat, p: nat)
    returns (i: nat, d: nat)
    requires p < |Schedule.Pending(q, w, count, before, current)|
    ensures var groups, r := Schedule.Dispatchable(q, w, before, current),
      Schedule.Pending(q, w, count, before, current);
      && RoundRobin.At(groups, i, d) && r[p] == groups[i].items[d]
      && forall j: nat, e: nat :: RoundRobin.At(groups, j, e) && (e < d || (e == d && j < i)) ==>
           RoundRobin.Slot(groups, j, e) < p && r[RoundRobin.Slot(groups, j, e)] == groups[j].items[e]
  {
    hide Schedule.Dispatchable, RoundRobin.Rounds, RoundRobin.Slot, RoundRobin.Take;
    i, d := RoundRobin.TakeIsLayered(Schedule.Dispatchable(q, w, before, current), Some(count), p);
  }

  /** And first in, first out inside an owner: by block of the commitment or of its readmission, then hotkey. */
  lemma OwnerIsFirstInFirstOut(q: Tables, w: Schedule.World, count: nat, before: nat, current: nat, a: nat, b: nat)
    requires a < b < |Schedule.Pending(q, w, count, before, current)|
    requires var r := Schedule.Pending(q, w, count, before, current);
      r[a] < |q.rows| && r[b] < |q.rows| && q.rows[r[a]].owner == q.rows[r[b]].owner
    ensures var r := Schedule.Pending(q, w, count, before, current); Fairness.Precedes(q, r[a], r[b])
  {
    hide RoundRobin.Rounds, RoundRobin.Grouped, WaitingIds, Fairness.Precedes, ReadyGroups, Schedule.OfferedIds,
      Schedule.Swept;
    var ids := WaitingIds(q, before, |q.rows|);
    Schedule.WaitingInRange(q, before);
    Fairness.WaitingInOrder(q, before, |q.rows|);
    OfferedInOrder(q, w, ids, before);
    Fairness.OwnerKeepsOrder(q, Schedule.Swept(q, w, before), before, Schedule.OfferedIds(q, w, ids), current, a, b);
  }

  function RunFrom(q: Tables, events: seq<Event>): Tables
    decreases |events|
  {
    if events == [] then q else RunFrom(Apply(q, events[0]), events[1..])
  }

  // ---------------------------------------------------------------- bounded waiting

  /**
   Item `d` of group `i` is accepted, and no group behind it has an accepted item at a smaller depth.
   For a group whose first item is accepted this says nothing more.
   */
  ghost predicate Foremost(groups: seq<RoundRobin.Group<nat>>, accepted: set<nat>, i: nat, d: nat)
  {
    && RoundRobin.At(groups, i, d) && groups[i].items[d] in accepted
    && forall j: nat, e: nat :: RoundRobin.At(groups, j, e) && e < d && groups[j].items[e] in accepted ==> j < i
  }

  lemma HeadIsForemost(groups: seq<RoundRobin.Group<nat>>, accepted: set<nat>, i: nat)
    requires RoundRobin.At(groups, i, 0) && groups[i].items[0] in accepted
    ensures Foremost(groups, accepted, i, 0)
  {
  }

  /** The first accepted item belongs to a group that is foremost itself or stands before it. */
  lemma PickedInTurn(groups: seq<RoundRobin.Group<nat>>, count: nat, accepted: set<nat>, i: nat, d: nat)
    returns (j: nat, e: nat)
    requires RoundRobin.Occupied(groups) && Foremost(groups, accepted, i, d)
    requires var ids := RoundRobin.Take(RoundRobin.Rounds(groups), Some(count)); Picked(ids, accepted) < |ids|
    ensures j <= i && RoundRobin.At(groups, j, e)
    ensures var ids := RoundRobin.Take(RoundRobin.Rounds(groups), Some(count));
      ids[Picked(ids, accepted)] == groups[j].items[e]
  {
    hide RoundRobin.Rounds, RoundRobin.Slot;
    var ids := RoundRobin.Take(RoundRobin.Rounds(groups), Some(count));
    var p := Picked(ids, accepted);
    j, e := RoundRobin.SlotOnto(groups, p);
    RoundRobin.SlotHolds(groups, j, e);
    RoundRobin.SlotHolds(groups, i, d);
    RoundRobin.SlotOrdered(groups, i, d, j, e);
    PickedFirst(RoundRobin.Rounds(groups), count, accepted, RoundRobin.Slot(groups, i, d));
  }

  lemma PickedFirst(all: seq<nat>, count: nat, accepted: set<nat>, n: nat)
    requires n < |all| && all[n] in accepted
    ensures Picked(RoundRobin.Take(all, Some(count)), accepted) <= n
  {
  }

  /** The owner has an accepted row, no deeper in its queue than that of any owner behind it. */
  ghost predicate Eligible(q: Tables, k: Owner, w: Schedule.World, before: nat, current: nat, accepted: set<nat>)
  {
    var groups := Schedule.Dispatchable(q, w, before, current);
    exists i: nat, d: nat :: Foremost(groups, accepted, i, d) && groups[i].owner == k
  }

  /** In particular when the first row it offers is accepted. */
  lemma HeadIsEligible(q: Tables, w: Schedule.World, before: nat, current: nat, accepted: set<nat>,
                       g: RoundRobin.Group<nat>)
    requires g in Schedule.Dispatchable(q, w, before, current) && g.items != [] && g.items[0] in accepted
    ensures Eligible(q, g.owner, w, before, current, accepted)
  {
    var groups := Schedule.Dispatchable(q, w, before, current);
    hide Schedule.Dispatchable;
    var i :| 0 <= i < |groups| && groups[i] == g;
    HeadIsForemost(groups, accepted, i);
  }

  /** The event starts a row; a preview, or an offer without an accepted row, starts nothing. */
  predicate Starts(q: Tables, e: Event)
  {
    e.Dispatch? &&
    var ids := Schedule.Pending(q, e.world, e.count, e.before, e.current);
    Picked(ids, e.accepted) < |ids|
  }

  /** The row an event starts. */
  function StartedId(q: Tables, e: Event): nat
    requires Starts(q, e)
  {
    var ids := Schedule.Pending(q, e.world, e.count, e.before, e.current);
    ids[Picked(ids, e.accepted)]
  }

  predicate Serves(q: Tables, e: Event, k: Owner)
  {
    Starts(q, e) && StartedId(q, e) < |q.rows| && q.rows[StartedId(q, e)].owner == k
  }

  /** Whoever is served has waited at least as long as any eligible owner. */
  lemma ServedInTurn(q: Tables, e: Event, k: Owner)
    requires Starts(q, e) && Turns.Distinct(q.turns)
    requires Eligible(q, k, e.world, e.before, e.current, e.accepted)
    ensures var id := StartedId(q, e);
      && id < |q.rows| && q.rows[id].owner in q.turns && k in q.turns
      && (q.rows[id].owner != k ==> q.rows[id].owner in Turns.Ahead(q.turns, k))
  {
    var groups := Schedule.Dispatchable(q, e.world, e.before, e.current);
    DispatchableInTurn(q, e.world, e.before, e.current);
    hide Schedule.Dispatchable, RoundRobin.Rounds, RoundRobin.Take, RoundRobin.Slot, Foremost, Turns.Distinct,
      Fairness.TurnLeq;
    var i: nat, d: nat :| Foremost(groups, e.accepted, i, d) && groups[i].owner == k;
    var j, x := PickedInTurn(groups, e.count, e.accepted, i, d);
    OfferedOwner(q, e.world, e.before, e.current, j, x);
    assert i < |groups| by { Placed(groups, e.accepted, i, d); }
    if j < i {
      AheadByTurn(q, groups[j].owner, k);
    }
  }

  lemma Placed(groups: seq<RoundRobin.Group<nat>>, accepted: set<nat>, i: nat, d: nat)
    requires Foremost(groups, accepted, i, d)
    ensures i < |groups|
  {
  }

  lemma AheadByTurn(q: Tables, a: Owner, b: Owner)
    requires Turns.Distinct(q.turns) && Fairness.TurnLeq(q, a, b) && a != b
    ensures a in Turns.Ahead(q.turns, b)
  {
  }

  /** How many rows the run starts. */
  function StartsIn(q: Tables, events: seq<Event>): nat
    decreases |events|
  {
    if events == [] then 0 else (if Starts(q, events[0]) then 1 else 0) + StartsIn(Apply(q, events[0]), events[1..])
  }

  /** At every start of the run the owner is among those that could be served. */
  ghost predicate EligibleThroughout(q: Tables, events: seq<Event>, k: Owner)
    decreases |events|
  {
    events != [] ==>
      && (Starts(q, events[0]) ==>
            Eligible(q, k, events[0].world, events[0].before, events[0].current, events[0].accepted))
      && EligibleThroughout(Apply(q, events[0]), events[1..], k)
  }

  lemma SweptTurns(q: Tables, w: Schedule.World, before: nat)
    ensures Schedule.Swept(q, w, before).turns == q.turns
  {
  }

  lemma DispatchTurns(q: Tables, e: Event)
    requires AllGood(q.rows) && Starts(q, e)
    ensures var id := StartedId(q, e);
      id < |q.rows| && Apply(q, e).turns == Turns.Serve(q.turns, q.rows[id].owner)
  {
    hide Turns.Serve, Schedule.Pending, Schedule.Swept, Good, Picked;
    var id, swept := StartedId(q, e), Schedule.Swept(q, e.world, e.before);
    var ids := Schedule.Pending(q, e.world, e.count, e.before, e.current);
    PendingOffered(q, e.world, e.count, e.before, e.current, Picked(ids, e.accepted));
    SweptSteady(q, e.world, e.before);
    StartSteady(q, e.world, id, e.before, swept, e.into);
    SweptTurns(q, e.world, e.before);
    assert Evolved(q.rows[id], swept.rows[id]);
  }

  lemma NothingStarted(q: Tables, e: Event)
    requires e.Dispatch? && !Starts(q, e)
    ensures Apply(q, e).turns == q.turns
  {
    SweptTurns(q, e.world, e.before);
  }

  lemma ArrivalTurns(q: Tables, g: Registry, rows: seq<Row>, k: Owner)
    requires Turns.Distinct(q.turns)
    ensures var r := Schedule.Observe(q, g, rows).turns;
      Turns.Distinct(r) && (k in q.turns ==> k in r && Turns.Ahead(r, k) == Turns.Ahead(q.turns, k))
  {
    hide Turns.Distinct, Turns.Ahead, Schedule.ReadmitAll, Arrivals, ObserveRows;
    Fairness.ObserveTurns(q.(rows := Schedule.ReadmitAll(g, rows, q.rows)),
                          g.(hotkeys := g.hotkeys - Schedule.WithdrawnHotkeys(q)), Arrivals(rows), k);
  }

  lemma QuietTurns(q: Tables, e: Event)
    requires !e.Observe? && !e.Dispatch?
    ensures Apply(q, e).turns == q.turns
  {
    hide Schedule.Swept, Schedule.RecoverAll, Schedule.RestoreAll, LiveRow, Outdated, ArchiveOf;
    if e.Preview? {
      SweptTurns(q, e.world, e.before);
    }
  }

  /** Turns stay pairwise distinct, and only a start moves anybody forward. */
  lemma EventTurns(q: Tables, e: Event, k: Owner)
    requires Sound(q) && Turns.Distinct(q.turns)
    ensures Turns.Distinct(Apply(q, e).turns) && (k in q.turns ==> k in Apply(q, e).turns)
    ensures k in q.turns && !Starts(q, e) ==> Turns.Ahead(Apply(q, e).turns, k) == Turns.Ahead(q.turns, k)
  {
    hide Turns.Distinct, Turns.Serve, Turns.Ahead, Schedule.Observe, Sound, Started, Starts, StartedId;
    match e {
      case Observe(g, rows) => ArrivalTurns(q, g, rows, k);
      case Dispatch(_, _, _, _, _, _) =>
        if Starts(q, e) {
          SoundParts(q);
          DispatchTurns(q, e);
          Turns.ServeDistinct(q.turns, q.rows[StartedId(q, e)].owner);
        } else {
          NothingStarted(q, e);
        }
      case _ => QuietTurns(q, e);
    }
  }

  lemma {:induction false} TurnsStayDistinct(events: seq<Event>)
    ensures Turns.Distinct(Run(events).turns)
    decreases |events|
  {
    if events != [] {
      var n := |events| - 1;
      RunSound(events[..n]);
      TurnsStayDistinct(events[..n]);
      hide Apply, Sound, Turns.Distinct;
      EventTurns(Run(events[..n]), events[n], "");
    }
  }

  /** Over every run: the owner of the row that is started has waited at least as long as any eligible owner. */
  lemma LongestWaitingIsServed(events: seq<Event>, e: Event, k: Owner)
    requires Starts(Run(events), e) && Eligible(Run(events), k, e.world, e.before, e.current, e.accepted)
    ensures var q, id := Run(events), StartedId(Run(events), e);
      && id < |q.rows| && q.rows[id].owner in q.turns && k in q.turns
      && (q.rows[id].owner != k ==> q.turns[q.rows[id].owner] < q.turns[k])
  {
    TurnsStayDistinct(events);
    hide Run, Starts, StartedId, Eligible, Turns.Distinct;
    ServedInTurn(Run(events), e, k);
  }

  lemma StepCloser(q: Tables, e: Event, k: Owner)
    requires Sound(q) && Turns.Distinct(q.turns) && k in q.turns && !Serves(q, e, k)
    requires Starts(q, e) ==> Eligible(q, k, e.world, e.before, e.current, e.accepted)
    ensures k in Apply(q, e).turns
    ensures |Turns.Ahead(Apply(q, e).turns, k)| + (if Starts(q, e) then 1 else 0) <= |Turns.Ahead(q.turns, k)|
  {
    hide Turns.Distinct, Turns.Serve, Turns.Ahead, Eligible, Apply, Starts, StartedId, Sound;
    EventTurns(q, e, k);
    if Starts(q, e) {
      SoundParts(q);
      DispatchTurns(q, e);
      ServedInTurn(q, e, k);
      Turns.ServeShrinksAhead(q.turns, q.rows[StartedId(q, e)].owner, k);
    }
  }

  lemma {:induction false} BoundedWaitingFrom(q: Tables, events: seq<Event>, k: Owner) returns (i: nat)
    requires Sound(q) && Turns.Distinct(q.turns) && k in q.turns && EligibleThroughout(q, events, k)
    requires StartsIn(q, events) > |Turns.Ahead(q.turns, k)|
    ensures i < |events| && Serves(RunFrom(q, events[..i]), events[i], k)
    ensures StartsIn(q, events[..i]) <= |Turns.Ahead(q.turns, k)|
    decreases |events|
  {
    hide Apply, Turns.Ahead, Turns.Distinct, Eligible, Serves, Sound, Starts;
    if Serves(q, events[0], k) {
      i := 0;
    } else {
      StepCloser(q, events[0], k);
      EventTurns(q, events[0], k);
      ApplySound(q, events[0]);
      var j := BoundedWaitingFrom(Apply(q, events[0]), events[1..], k);
      i := j + 1;
      assert events[..i][0] == events[0] && events[..i][1..] == events[1..][..j];
    }
  }

  lemma {:induction false} RunContinues(a: seq<Event>, b: seq<Event>)
    ensures Run(a + b) == RunFrom(Run(a), b)
    decreases |b|
  {
    hide Apply;
    if b == [] {
      assert a + b == a;
    } else {
      assert (a + [b[0]])[..|a + [b[0]]| - 1] == a;
      assert Run(a + [b[0]]) == Apply(Run(a), b[0]);
      RunContinues(a + [b[0]], b[1..]);
      assert a + [b[0]] + b[1..] == a + b;
    }
  }

  /**
   Bounded waiting in the scheduler: after any run `a`, an owner that could be served at every later
   start is served within as many starts as there are owners with an earlier turn, plus one. Every
   start takes the first offered row that is accepted; previews, withdrawals, deferrals, arrivals and
   results happen anywhere in between.
   */
  lemma BoundedWaiting(a: seq<Event>, b: seq<Event>, k: Owner) returns (i: nat)
    requires k in Run(a).turns && EligibleThroughout(Run(a), b, k)
    requires StartsIn(Run(a), b) > |Turns.Ahead(Run(a).turns, k)|
    ensures i < |b| && Serves(Run(a + b[..i]), b[i], k)
    ensures StartsIn(Run(a), b[..i]) <= |Turns.Ahead(Run(a).turns, k)|
  {
    RunSound(a);
    TurnsStayDistinct(a);
    hide Run, Sound, Turns.Distinct, Turns.Ahead, EligibleThroughout, StartsIn, Serves;
    i := BoundedWaitingFrom(Run(a), b, k);
    RunContinues(a, b[..i]);
  }
}
