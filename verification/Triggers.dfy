/** The durable queue: one-shot hotkeys, coldkeys taking turns. */
module Triggers {
  import opened Common
  import opened Decide
  import opened Queue
  import LedgerSpec
  import RoundRobin
  import Turns

  class Triggers {
    var db: Tables

    constructor ()
      ensures db == EMPTY_QUEUE
    {
      db := EMPTY_QUEUE;
    }

    method ApplyReset(reset: Option<Generation>) returns (r: Try<()>)
      modifies this`db
      ensures match Queue.ApplyReset(old(db), reset)
        case Ok(q) => r.Ok? && db == q
        case Err(_) => r.Err? && db == old(db)
    {
      if reset == None {
        return Ok(());
      }
      if db.reset.Some? {
        return if db.reset != reset then Err("hotkey_reset_changed") else Ok(());
      }
      var before, block := db, reset.value.block;
      ResetNone(before, block);
      for i := 0 to |before.rows|
        invariant db == ResetFirst(before, block, i)
      {
        ResetNext(before, block, i);
        var row := db.rows[i];
        if row.block < block {
          db := db.(archive := db.archive[i := row]);
          db := SetRow(db, i, row.(status := Reset));
        }
      }
      ResetAll(before, block);
      db := db.(reset := reset);
      return Ok(());
    }

    /** Newly bound challenges, oldest first. */
    method Observe(g: Registry, commitments: seq<Row>)
      modifies this`db
      ensures db == ObserveRows(old(db), g, Arrivals(commitments))
    {
      var rows := Arrivals(commitments);
      ghost var before := db;
      hide Arrivals;
      for i := 0 to |rows|
        invariant db == ObserveRows(before, g, rows[..i])
      {
        var row := rows[i];
        assert rows[..i + 1][..i] == rows[..i];
        if row.hotkey !in g.hotkeys || row.block < (if db.reset.Some? then db.reset.value.block else 0) {
          continue;
        }
        if LedgerSpec.ParseSubmission(row.value).Err? || Bound(db, row.hotkey) {
          continue;
        }
        if row.hotkey !in g.coldkeys || row.hotkey !in g.uids {
          continue;
        }
        db := db.(turns := Turns.Enter(db.turns, g.coldkeys[row.hotkey]));
        if !SameCommitment(db, row) {
          db := db.(rows := db.rows + [NewEntry(g, row)]);
        }
      }
      assert rows[..|rows|] == rows;
    }

    /** The waiting rows of each owner, owners in the order of their turns. */
    method GroupWaiting(rows: seq<nat>) returns (groups: seq<RoundRobin.Group<nat>>)
      requires forall id :: id in rows ==> id < |db.rows|
      ensures groups == RoundRobin.Grouped(rows, OwnerOf(db))
    {
      groups := [];
      var owner := OwnerOf(db);
      for i := 0 to |rows|
        invariant groups == RoundRobin.Grouped(rows[..i], owner)
      {
        assert rows[..i + 1][..i] == rows[..i];
        assert rows[i] in rows;
        groups := RoundRobin.Append(groups, db.rows[rows[i]].owner, rows[i]);
      }
      assert rows[..|rows|] == rows;
    }

    /** The owners whose first row is not held back. */
    method KeepReady(groups: seq<RoundRobin.Group<nat>>, current: nat) returns (ready: seq<RoundRobin.Group<nat>>)
      requires RoundRobin.Occupied(groups)
      ensures ready == ReadyGroups(db, groups, current)
    {
      ready := [];
      for i := 0 to |groups|
        invariant ready == ReadyGroups(db, groups[..i], current)
      {
        assert groups[..i + 1][..i] == groups[..i];
        if HeadReady(db, groups[i], current) {
          ready := ready + [groups[i]];
        }
      }
      assert groups[..|groups|] == groups;
    }

    /** A preview of the dispatch order; no rotation until `Start`. */
    method Pending(count: nat, before: nat, current: nat) returns (result: seq<nat>)
      ensures result == Queue.Pending(db, count, before, current)
    {
      var rows := WaitingIds(db, before, |db.rows|);
      hide WaitingIds, RoundRobin.Grouped, ReadyGroups;
      var groups := GroupWaiting(rows);
      var ready := KeepReady(groups, current);
      result := RoundRobin.TakeTurns(ready, Some(count));
    }

    method Start(id: nat, window: Option<nat>) returns (r: Try<()>)
      modifies this`db
      ensures match Queue.Start(old(db), id, window)
        case Ok(q) => r.Ok? && db == q
        case Err(_) => r.Err? && db == old(db)
    {
      if id >= |db.rows| || Terminal(db.rows[id].status) || db.rows[id].status == Reset {
        return Err("hotkey_already_consumed");
      }
      var row := db.rows[id];
      db := db.(turns := Turns.Serve(db.turns, row.owner));
      db := SetRow(db, id, row.(status := Running, window := window, attempts := row.attempts + 1));
      return Ok(());
    }

    method Defer(id: nat, reason: string, retryBlock: nat)
      modifies this`db
      ensures db == Queue.Defer(old(db), id, reason, retryBlock)
    {
      if id < |db.rows| && db.rows[id].status == Running {
        db := SetRow(db, id, db.rows[id].(status := Queued, reason := Some(reason), retryBlock := retryBlock));
      }
    }

    method Finish(id: nat, status: Status, reason: Option<string>, result: Option<string>) returns (r: Try<()>)
      modifies this`db
      ensures match Queue.Finish(old(db), id, status, reason, result)
              case Ok(q) => r.Ok? && db == q case Err(_) => r.Err? && db == old(db)
    {
      if !Terminal(status) {
        return Err("use_defer_for_infrastructure_failures");
      }
      if id < |db.rows| && !Terminal(db.rows[id].status) && db.rows[id].status != Reset {
        db := SetRow(db, id, db.rows[id].(status := status, reason := reason, result := result));
      }
      return Ok(());
    }

    /** A finalized result consumes the live challenge of its hotkey. */
    method Reconcile(hotkey: Hotkey, result: Option<string>, window: nat, rejected: bool)
      modifies this`db
      ensures db == Queue.Reconcile(old(db), hotkey, result, window, rejected)
    {
      var id := LiveRow(db.rows, hotkey);
      if id < |db.rows| {
        db := SetRow(db, id, db.rows[id].(window := Some(window)));
        var _ := Finish(id, if rejected then Rejected else Done, Some("finalized_on_chain"), result);
      }
    }
  }
}
