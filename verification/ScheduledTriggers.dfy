/** The scheduler's queue: dispatches the active window fairly without punishing planned cancellation. */
module ScheduledTriggers {
  import opened Common
  import opened Decide
  import opened Queue
  import RoundRobin
  import Schedule
  import Triggers

  class ScheduledTriggers {
    /** The queue this class extends. */
    const base: Triggers.Triggers

    constructor ()
      ensures fresh(base) && base.db == EMPTY_QUEUE
    {
      base := new Triggers.Triggers();
    }

    method EarliestRenewal(g: Registry, former: Entry, rows: seq<Row>) returns (block: Option<nat>)
      ensures block == Schedule.Renewal(g, former, rows)
    {
      block := None;
      for i := 0 to |rows|
        invariant block == Schedule.Renewal(g, former, rows[..i])
      {
        var r := rows[i];
        assert rows[..i + 1][..i] == rows[..i];
        if r.hotkey == former.hotkey && r.value == former.value && r.block > former.removedBlock
          && r.hotkey in g.hotkeys {
          if block == None || r.block < block.value {
            block := Some(r.block);
          }
        }
      }
      assert rows[..|rows|] == rows;
    }

    /** A withdrawn binding returns only by being committed again; other hotkeys bind anew. */
    method Observe(g: Registry, rows: seq<Row>)
      modifies base`db
      ensures base.db == Schedule.Observe(old(base.db), g, rows)
    {
      var before := base.db;
      for i := 0 to |before.rows|
        invariant |base.db.rows| == |before.rows| && base.db == before.(rows := base.db.rows)
        invariant forall j :: 0 <= j < i ==> base.db.rows[j] == Schedule.Readmitted(g, rows, before.rows[j])
        invariant forall j :: i <= j < |before.rows| ==> base.db.rows[j] == before.rows[j]
      {
        var row := before.rows[i];
        if row.status == Withdrawn {
          var block := EarliestRenewal(g, row, rows);
          if block.Some? {
            base.db := SetRow(base.db, i, row.(status := Queued, reason := Some("resubmitted"), readmission := block,
                                               retryBlock := 0, timeouts := 0));
          }
        }
      }
      assert base.db.rows == Schedule.ReadmitAll(g, rows, before.rows);
      base.Observe(g.(hotkeys := g.hotkeys - Schedule.WithdrawnHotkeys(before)), rows);
    }

    /** A finalized result reaches rows that are out of dispatch, too. */
    method Reconcile(hotkey: Hotkey, result: Option<string>, window: nat, rejected: bool)
      modifies base`db
      ensures base.db == Schedule.Reconcile(old(base.db), hotkey, result, window, rejected)
    {
      var before := base.db;
      for i := 0 to |before.rows|
        invariant |base.db.rows| == |before.rows| && base.db == before.(rows := base.db.rows)
        invariant forall j :: 0 <= j < i ==> base.db.rows[j] == Schedule.Restored(hotkey, before.rows[j])
        invariant forall j :: i <= j < |before.rows| ==> base.db.rows[j] == before.rows[j]
      {
        var row := before.rows[i];
        if row.hotkey == hotkey && (row.status == Excluded || row.status == Withdrawn) {
          base.db := SetRow(base.db, i, row.(status := Queued));
        }
      }
      assert base.db.rows == Schedule.RestoreAll(hotkey, before.rows);
      base.Reconcile(hotkey, result, window, rejected);
    }

    /** Remove a row from dispatch; its binding and history stay. */
    method Withdraw(w: Schedule.World, id: nat, reason: string)
      modifies base`db
      ensures base.db == Schedule.Withdraw(old(base.db), w, id, reason)
    {
      if id < |base.db.rows| {
        var row := base.db.rows[id];
        if Live(row) || row.status == Excluded {
          base.db := SetRow(base.db, id, Schedule.WithdrawnEntry(w, row, reason));
        }
      }
    }

    /** One immediate retry after a restart. */
    method RecoverInterrupted(w: Schedule.World)
      modifies base`db
      ensures base.db == Schedule.Recover(old(base.db), w)
    {
      var before := base.db;
      for i := 0 to |before.rows|
        invariant |base.db.rows| == |before.rows| && base.db == before.(rows := base.db.rows)
        invariant forall j :: 0 <= j < i ==> base.db.rows[j] == Schedule.Recovered(w, before.rows[j])
        invariant forall j :: i <= j < |before.rows| ==> base.db.rows[j] == before.rows[j]
      {
        RecoverOne(w, i);
      }
      assert base.db.rows == Schedule.RecoverAll(w, before.rows);
    }

    method RecoverOne(w: Schedule.World, i: nat)
      requires i < |base.db.rows|
      modifies base`db
      ensures base.db == SetRow(old(base.db), i, Schedule.Recovered(w, old(base.db.rows[i])))
    {
      var row := base.db.rows[i];
      if row.status == Excluded {
        Withdraw(w, i, "compression_required");
      } else if (row.status == Queued || row.status == Failed) && row.reason == Some(Schedule.DOWNLOAD_BUDGET) {
        Withdraw(w, i, "download_time_limit");
      }
      row := base.db.rows[i];
      if row.status == Queued && row.retryBlock > 0
        && (row.reason == Some("TimeoutError") || row.reason == Some("InterruptedError")) {
        row := row.(retryBlock := 0, reason := Some("retry_after_restart"));
      }
      if w.block.Some? && row.status == Queued && row.retryBlock > w.block.value + Schedule.RETRY_HORIZON {
        if !Schedule.Parked(row.reason) && row.reason != Some(Schedule.DOWNLOAD_BUDGET) {
          row := row.(retryBlock := w.block.value + Schedule.RETRY_HORIZON);
        }
      }
      base.db := SetRow(base.db, i, row);
    }

    /** Look at one waiting row: withdraw it, wake it for a new window, or leave it. */
    method Visit(w: Schedule.World, id: nat, row: Entry) returns (offered: bool)
      requires id < |base.db.rows| && base.db.rows[id] == row && Live(row)
      modifies base`db
      ensures base.db == SetRow(old(base.db), id, Schedule.Visited(w, row)) && offered == Schedule.Offered(w, row)
    {
      if row.timeouts >= Schedule.MAX_TIMEOUT_FAILURES {
        Withdraw(w, id, "retry_limit_exceeded");
        return false;
      }
      var reason := row.reason;
      if Schedule.Parked(reason) {
        if w.interruption(row.window) != Some(Schedule.CHANGED) {
          return false;
        }
        base.db := SetRow(base.db, id, row.(retryBlock := 0, reason := Some("new_window")));
        reason := Some("new_window");
      }
      if reason == Some(Schedule.DOWNLOAD_BUDGET) {
        Withdraw(w, id, "download_time_limit");
        return false;
      }
      return row.model in w.candidates && w.candidates[row.model] == row.hotkey;
    }

    method Pending(w: Schedule.World, count: nat, before: nat, current: nat) returns (result: seq<nat>)
      modifies base`db
      ensures base.db == Schedule.Swept(old(base.db), w, before)
      ensures result == Schedule.Pending(old(base.db), w, count, before, current)
    {
      ghost var start := base.db;
      var ids := WaitingIds(base.db, before, |base.db.rows|);
      Schedule.WaitingInRange(base.db, before);
      assert forall i :: 0 <= i < |ids| ==> ids[i] in ids;
      var owner := OwnerOf(base.db);
      hide WaitingIds, Schedule.OfferedIds, Schedule.VisitAll, ReadyGroups, RoundRobin.Grouped, RoundRobin.Rounds;
      var offered := Sweep(w, before, ids);
      var groups := GroupByOwner(offered, owner);
      var ready := Ready(groups, current);
      result := RoundRobin.TakeTurns(ready, Some(count));
    }

    method GroupByOwner(ids: seq<nat>, owner: nat -> Owner) returns (groups: seq<RoundRobin.Group<nat>>)
      ensures groups == RoundRobin.Grouped(ids, owner)
    {
      groups := [];
      for i := 0 to |ids|
        invariant groups == RoundRobin.Grouped(ids[..i], owner)
      {
        assert ids[..i + 1][..i] == ids[..i];
        groups := RoundRobin.Append(groups, owner(ids[i]), ids[i]);
      }
      assert ids[..|ids|] == ids;
    }

    /** Owners whose first offered row may run now; a waiting first row keeps its whole group out. */
    method Ready(groups: seq<RoundRobin.Group<nat>>, current: nat) returns (ready: seq<RoundRobin.Group<nat>>)
      requires RoundRobin.Occupied(groups)
      ensures ready == ReadyGroups(base.db, groups, current)
    {
      ready := [];
      for i := 0 to |groups|
        invariant ready == ReadyGroups(base.db, groups[..i], current)
      {
        assert groups[..i + 1][..i] == groups[..i];
        if HeadReady(base.db, groups[i], current) {
          ready := ready + [groups[i]];
        }
      }
      assert groups[..|groups|] == groups;
    }

    method Sweep(w: Schedule.World, before: nat, ids: seq<nat>) returns (offered: seq<nat>)
      requires ids == WaitingIds(base.db, before, |base.db.rows|) && Schedule.InRange(base.db, ids)
      requires forall i :: 0 <= i < |ids| ==> Live(base.db.rows[ids[i]])
      modifies base`db
      ensures base.db == Schedule.VisitAll(old(base.db), w, ids)
      ensures offered == Schedule.OfferedIds(old(base.db), w, ids)
    {
      offered := [];
      ghost var start := base.db;
      WaitingDistinct(start, before, |start.rows|);
      hide WaitingIds, Schedule.Visited, Schedule.Offered;
      for i := 0 to |ids|
        invariant base.db == Schedule.VisitAll(start, w, ids[..i])
        invariant offered == Schedule.OfferedIds(start, w, ids[..i])
      {
        var id := ids[i];
        assert ids[..i + 1][..i] == ids[..i];
        Schedule.VisitUntouched(start, w, ids[..i], id);
        var keep := Visit(w, id, base.db.rows[id]);
        if keep {
          offered := offered + [id];
        }
      }
      assert ids[..|ids|] == ids;
    }

    method Defer(w: Schedule.World, id: nat, reason: string, retryBlock: nat)
      modifies base`db
      ensures base.db == Schedule.Defer(old(base.db), w, id, reason, retryBlock)
    {
      if id >= |base.db.rows| {
        return;
      }
      var row := base.db.rows[id];
      var planned := w.interruption(row.window);
      if planned.Some? && planned != Some(Schedule.ELAPSED) {
        base.Defer(id, planned.value, 0);
        return;
      }
      if reason in Schedule.MINER_FAILURES {
        if row.status == Running {
          Withdraw(w, id, Schedule.MINER_FAILURES[reason]);
        }
        return;
      }
      if reason == "InfrastructureError" || reason == "TimeoutError" {
        base.Defer(id, if planned.Some? then planned.value else reason,
                   if planned.Some? then 0 else Schedule.Capped(w, retryBlock));
        return;
      }
      if reason == Schedule.INFRASTRUCTURE_BUDGET {
        base.Defer(id, reason, Schedule.PARKED);
        return;
      }
      if row.status == Running
        && (reason == Schedule.ROUND_BUDGET || reason == Schedule.ELAPSED || planned == Some(Schedule.ELAPSED)) {
        base.db := SetRow(base.db, id, row.(timeouts := row.timeouts + 1));
        if base.db.rows[id].timeouts >= Schedule.MAX_TIMEOUT_FAILURES {
          Withdraw(w, id, "retry_limit_exceeded");
          return;
        }
      }
      if reason == Schedule.ROUND_BUDGET {
        base.Defer(id, reason, Schedule.PARKED);
        return;
      }
      var why, retry := reason, retryBlock;
      if planned.Some? {
        why, retry := planned.value, 0;
      }
      base.Defer(id, why, Schedule.Capped(w, retry));
    }
  }
}
