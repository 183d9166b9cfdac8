/**
 The life of one row under the scheduler: how each event may change it, with the reasons, waits and
 limits spelled out, and which rows enter. No table function occurs in the statements.
 */
module Lives {
  import opened Common
  import opened Wire
  import opened Decide
  import opened Queue
  import opened Lifecycle
  import opened Readiness
  import Fairness
  import LedgerSpec
  import RoundRobin
  import Schedule
  import Turns

  type World = Schedule.World

  // ---------------------------------------------------------------- single changes

  /** Out of dispatch, dated the greatest of the current block, the commitment and the readmission. */
  ghost predicate Leaves(w: World, e: Entry, x: Entry, why: string)
  {
    && x == e.(status := Withdrawn, reason := Some(why), retryBlock := 0, removedBlock := x.removedBlock)
    && x.removedBlock >= e.block && x.removedBlock >= Age(e) && (w.block.Some? ==> x.removedBlock >= w.block.value)
    && (x.removedBlock == e.block || x.removedBlock == Age(e) || w.block == Some(x.removedBlock))
  }

  /** Queued again, from the given block on. */
  predicate Queues(e: Entry, x: Entry, why: string, retry: nat)
  {
    x == e.(status := Queued, reason := Some(why), retryBlock := retry)
  }

  /** At most five blocks ahead, when the current block is known. */
  function Soon(w: World, retry: nat): nat
  {
    if w.block.Some? && w.block.value + 5 < retry then w.block.value + 5 else retry
  }

  /** A look at a waiting row. */
  ghost predicate Looked(w: World, e: Entry, x: Entry)
  {
    if e.timeouts >= 2 then Leaves(w, e, x, "retry_limit_exceeded")
    else if Suspended(e) && w.interruption(e.window) == Some("window_changed")
    then x == e.(retryBlock := 0, reason := Some("new_window"))
    else if e.reason == Some("DownloadBudgetExceeded") then Leaves(w, e, x, "download_time_limit")
    else x == e
  }

  /** Failures that are the miner's own end its attempt for good. */
  predicate Blamed(cause: string, why: string)
  {
    || (cause == "MinerUnavailable" && why == "miner_unavailable")
    || (cause == "MinerDownloadExpired" && why == "download_time_limit")
    || (cause == "DownloadBudgetExceeded" && why == "download_time_limit")
    || (cause == "CompressionRequired" && why == "compression_required")
    || (cause == "MinerInvalidPackage" && why == "invalid_model_package")
  }

  /** How an attempt that did not finish ends. */
  ghost predicate Ended(w: World, e: Entry, cause: string, retry: nat, x: Entry)
    requires e.status == Running
  {
    var p, late := w.interruption(e.window), w.interruption(e.window) == Some("attempt_budget_elapsed");
    if p.Some? && !late then Queues(e, x, p.value, 0)
    else if exists why :: Blamed(cause, why) then exists why :: Blamed(cause, why) && Leaves(w, e, x, why)
    else if cause == "InfrastructureError" || cause == "TimeoutError" then
      (if late then Queues(e, x, "attempt_budget_elapsed", 0) else Queues(e, x, cause, Soon(w, retry)))
    else if cause == "InfrastructureRoundBudgetExceeded" then Queues(e, x, cause, 9223372036854775807)
    else
      var strike := late || cause == "EvaluationRoundBudgetExceeded" || cause == "attempt_budget_elapsed";
      var counted := if strike then e.(timeouts := e.timeouts + 1) else e;
      if strike && e.timeouts >= 1 then Leaves(w, counted, x, "retry_limit_exceeded")
      else if cause == "EvaluationRoundBudgetExceeded" then Queues(counted, x, cause, 9223372036854775807)
      else if late then Queues(counted, x, "attempt_budget_elapsed", 0)
      else Queues(counted, x, cause, Soon(w, retry))
  }

  /** A restart: failures of the transport leave, timeouts retry at once, other waits are capped. */
  ghost predicate Restarted(w: World, e: Entry, x: Entry)
  {
    if e.status == Excluded then Leaves(w, e, x, "compression_required")
    else if (e.status == Queued || e.status == Failed) && e.reason == Some("DownloadBudgetExceeded")
    then Leaves(w, e, x, "download_time_limit")
    else if e.status == Queued && e.retryBlock > 0
            && (e.reason == Some("TimeoutError") || e.reason == Some("InterruptedError"))
    then x == e.(retryBlock := 0, reason := Some("retry_after_restart"))
    else if e.status == Queued && w.block.Some? && !Suspended(e) then x == e.(retryBlock := Soon(w, e.retryBlock))
    else x == e
  }

  /** The same value, committed again above the block of the withdrawal by a registered hotkey. */
  predicate Recommits(g: Registry, e: Entry, r: Row)
  {
    r.hotkey == e.hotkey && r.value == e.value && r.block > e.removedBlock && r.hotkey in g.hotkeys
  }

  /** A withdrawn row comes back at the earliest block it was committed again. */
  ghost predicate Returned(g: Registry, rows: seq<Row>, e: Entry, x: Entry)
  {
    if e.status == Withdrawn && exists r :: r in rows && Recommits(g, e, r)
    then
      exists r :: r in rows && Recommits(g, e, r)
        && (forall y :: y in rows && Recommits(g, e, y) ==> r.block <= y.block)
        && x == e.(status := Queued, reason := Some("resubmitted"), readmission := Some(r.block), retryBlock := 0,
                   timeouts := 0)
    else x == e
  }

  // ---------------------------------------------------------------- one event

  /** The first offered row that is accepted. */
  ghost predicate Takes(ids: seq<nat>, accepted: set<nat>, i: nat)
  {
    exists k :: 0 <= k < |ids| && ids[k] == i && i in accepted && forall j :: 0 <= j < k ==> ids[j] !in accepted
  }

  ghost predicate Swept(q: Tables, w: World, before: nat, i: nat, x: Entry)
    requires i < |q.rows|
  {
    if i in Waiters(q, before) then Looked(w, q.rows[i], x) else x == q.rows[i]
  }

  /** What an event makes of row `i`. */
  ghost predicate Moves(q: Tables, e: Event, i: nat, x: Entry)
    requires i < |q.rows|
  {
    var a := q.rows[i];
    match e
    case Observe(g, rows) => Returned(g, rows, a, x)
    case Preview(w, _, before, _) => Swept(q, w, before, i, x)
    case Dispatch(w, count, before, current, accepted, into) =>
      exists y :: Swept(q, w, before, i, y) &&
        x == if Takes(Schedule.Pending(q, w, count, before, current), accepted, i)
             then y.(status := Running, window := into, attempts := y.attempts + 1) else y
    case Defer(w, id, cause, retry) =>
      if i == id && a.status == Running then Ended(w, a, cause, retry, x) else x == a
    case Finish(id, status, reason, result) =>
      x == if i == id && (status == Done || status == Rejected) && a.status != Done && a.status != Rejected
              && a.status != Reset
           then a.(status := status, reason := reason, result := result) else a
    case Reconcile(hotkey, result, window, rejected) =>
      x == if a.hotkey == hotkey && a.status != Done && a.status != Rejected && a.status != Reset
           then a.(window := Some(window), status := if rejected then Rejected else Done,
                   reason := Some("finalized_on_chain"), result := result) else a
    case Recover(w) => Restarted(w, a, x)
    case Withdraw(w, id, cause) =>
      if i == id && (Unsettled(a) || a.status == Excluded) then Leaves(w, a, x, cause) else x == a
    case NewGeneration(reset) =>
      x == if reset.Some? && q.reset == None && a.block < reset.value.block then a.(status := Reset) else a
  }

  // ---------------------------------------------------------------- proofs

  lemma WithdrawnLeaves(w: World, e: Entry, why: string)
    ensures Leaves(w, e, Schedule.WithdrawnEntry(w, e, why), why)
  {
  }

  lemma VisitLooks(w: World, e: Entry)
    ensures Looked(w, e, Schedule.Visited(w, e))
  {
    WithdrawnLeaves(w, e, "retry_limit_exceeded");
    WithdrawnLeaves(w, e, "download_time_limit");
    hide Leaves, Schedule.WithdrawnEntry;
  }

  lemma RecoverRestarts(w: World, e: Entry)
    ensures Restarted(w, e, Schedule.Recovered(w, e))
  {
    WithdrawnLeaves(w, e, "compression_required");
    WithdrawnLeaves(w, e, "download_time_limit");
    WithdrawnStays(w, e, "compression_required");
    WithdrawnStays(w, e, "download_time_limit");
    hide Leaves, Schedule.WithdrawnEntry;
  }

  lemma WithdrawnStays(w: World, e: Entry, why: string)
    ensures Schedule.WithdrawnEntry(w, e, why).status == Withdrawn
  {
  }

  lemma RenewalReturns(g: Registry, rows: seq<Row>, e: Entry)
    ensures Returned(g, rows, e, Schedule.Readmitted(g, rows, e))
  {
    forall r
      ensures Schedule.Renews(g, e, r) <==> Recommits(g, e, r)
    {
    }
    hide Schedule.Renews, Recommits;
    var b := Schedule.Renewal(g, e, rows);
    if b.Some? {
      var r :| r in rows && Schedule.Renews(g, e, r) && r.block == b.value;
      assert Recommits(g, e, r);
    }
  }

  lemma BlamedMeans(cause: string)
    ensures cause in Schedule.MINER_FAILURES <==> exists why :: Blamed(cause, why)
    ensures cause in Schedule.MINER_FAILURES ==> Blamed(cause, Schedule.MINER_FAILURES[cause])
    ensures (exists why :: Blamed(cause, why)) ==>
      cause != "InfrastructureError" && cause != "TimeoutError" && cause != "InfrastructureRoundBudgetExceeded"
  {
    if cause in Schedule.MINER_FAILURES {
      assert Blamed(cause, Schedule.MINER_FAILURES[cause]);
    }
  }

  lemma SoonMeans(w: World, retry: nat)
    ensures Schedule.Capped(w, retry) == Soon(w, retry) && Soon(w, 0) == 0
  {
  }

  /** The attempt was cut short by something that is not its deadline. */
  predicate Interrupted(w: World, e: Entry)
  {
    w.interruption(e.window).Some? && w.interruption(e.window) != Some("attempt_budget_elapsed")
  }

  lemma BlameEnds(q: Tables, w: World, id: nat, cause: string, retry: nat)
    requires id < |q.rows| && q.rows[id].status == Running && !Interrupted(w, q.rows[id])
    requires cause in Schedule.MINER_FAILURES
    ensures id < |Schedule.Defer(q, w, id, cause, retry).rows|
    ensures Ended(w, q.rows[id], cause, retry, Schedule.Defer(q, w, id, cause, retry).rows[id])
  {
    hide Leaves, Schedule.WithdrawnEntry, Blamed, Schedule.Capped, Soon, Queue.Defer;
    BlamedMeans(cause);
    WithdrawnLeaves(w, q.rows[id], Schedule.MINER_FAILURES[cause]);
    var x := Schedule.Defer(q, w, id, cause, retry).rows[id];
    assert x == Schedule.WithdrawnEntry(w, q.rows[id], Schedule.MINER_FAILURES[cause]);
    assert Blamed(cause, Schedule.MINER_FAILURES[cause])
        && Leaves(w, q.rows[id], x, Schedule.MINER_FAILURES[cause]);
  }

  lemma StrikeEnds(q: Tables, w: World, id: nat, cause: string, retry: nat)
    requires id < |q.rows| && q.rows[id].status == Running && !Interrupted(w, q.rows[id])
    requires cause !in Schedule.MINER_FAILURES && cause != "InfrastructureError" && cause != "TimeoutError"
    requires cause != "InfrastructureRoundBudgetExceeded"
    ensures id < |Schedule.Defer(q, w, id, cause, retry).rows|
    ensures Ended(w, q.rows[id], cause, retry, Schedule.Defer(q, w, id, cause, retry).rows[id])
  {
    hide Leaves, Schedule.WithdrawnEntry, Blamed, Schedule.Capped, Soon;
    BlamedMeans(cause);
    SoonMeans(w, retry);
    SoonMeans(w, 0);
    WithdrawnLeaves(w, q.rows[id].(timeouts := q.rows[id].timeouts + 1), "retry_limit_exceeded");
  }

  lemma OtherwiseEnds(q: Tables, w: World, id: nat, cause: string, retry: nat)
    requires id < |q.rows| && q.rows[id].status == Running
    requires Interrupted(w, q.rows[id])
      || (cause !in Schedule.MINER_FAILURES && (cause == "InfrastructureError" || cause == "TimeoutError"
                                                || cause == "InfrastructureRoundBudgetExceeded"))
    ensures id < |Schedule.Defer(q, w, id, cause, retry).rows|
    ensures Ended(w, q.rows[id], cause, retry, Schedule.Defer(q, w, id, cause, retry).rows[id])
  {
    hide Leaves, Schedule.WithdrawnEntry, Blamed, Schedule.Capped, Soon;
    BlamedMeans(cause);
    SoonMeans(w, retry);
  }

  /** The row of an unfinished attempt in the tables of the scheduler. */
  lemma DeferEnds(q: Tables, w: World, id: nat, cause: string, retry: nat)
    requires id < |q.rows| && q.rows[id].status == Running
    ensures id < |Schedule.Defer(q, w, id, cause, retry).rows|
    ensures Ended(w, q.rows[id], cause, retry, Schedule.Defer(q, w, id, cause, retry).rows[id])
  {
    hide Schedule.Defer, Ended;
    BlamedMeans(cause);
    if !Interrupted(w, q.rows[id]) && cause in Schedule.MINER_FAILURES {
      BlameEnds(q, w, id, cause, retry);
    } else if Interrupted(w, q.rows[id]) || cause == "InfrastructureError" || cause == "TimeoutError"
              || cause == "InfrastructureRoundBudgetExceeded" {
      OtherwiseEnds(q, w, id, cause, retry);
    } else {
      StrikeEnds(q, w, id, cause, retry);
    }
  }

  /** Every other row stays as it is. */
  lemma DeferElsewhere(q: Tables, w: World, id: nat, cause: string, retry: nat, i: nat)
    requires i < |q.rows| && (i != id || q.rows[i].status != Running)
    ensures var r := Schedule.Defer(q, w, id, cause, retry); |r.rows| == |q.rows| && r.rows[i] == q.rows[i]
  {
    hide Schedule.WithdrawnEntry, Schedule.Capped;
  }

  lemma SweepLooks(q: Tables, w: World, before: nat, i: nat)
    requires i < |q.rows|
    ensures var r := Schedule.Swept(q, w, before); |r.rows| == |q.rows| && Swept(q, w, before, i, r.rows[i])
  {
    var ids := WaitingIds(q, before, |q.rows|);
    Schedule.WaitingInRange(q, before);
    WaitingDistinct(q, before, |q.rows|);
    WaitersMean(q, before);
    VisitLooks(w, q.rows[i]);
    hide WaitingIds, Waiters, Looked, Schedule.Visited, Schedule.VisitAll;
    if i in ids {
      VisitedOnce(q, w, ids, i);
    } else {
      Schedule.VisitUntouched(q, w, ids, i);
    }
  }

  lemma PickedTakes(ids: seq<nat>, accepted: set<nat>, i: nat)
    requires RoundRobin.Distinct(ids)
    ensures Takes(ids, accepted, i) <==> Picked(ids, accepted) < |ids| && ids[Picked(ids, accepted)] == i
  {
    var p := Picked(ids, accepted);
    if Takes(ids, accepted, i) {
      var k :| 0 <= k < |ids| && ids[k] == i && i in accepted && forall j :: 0 <= j < k ==> ids[j] !in accepted;
      assert p == k;
    }
  }

  // ---------------------------------------------------------------- rows that enter

  /** The value names a manifest: the first half of 64 bytes after the prefix. */
  ghost predicate Submits(value: string, manifest: seq<byte>)
  {
    && 4 <= |value| <= 128 && value[..4] == "wm2|"
    && exists raw :: DecodeBytes(value[4..], 64) == Ok(raw) && manifest == raw[..32]
  }

  /** A registered hotkey of known owner and uid that has no row but discarded ones, and not this commitment. */
  ghost predicate Newcomer(q: Tables, g: Registry, row: Row, manifest: seq<byte>)
  {
    && row.hotkey in g.hotkeys && row.hotkey in g.coldkeys && row.hotkey in g.uids
    && (q.reset.Some? ==> row.block >= q.reset.value.block) && Submits(row.value, manifest)
    && forall e :: e in q.rows && e.hotkey == row.hotkey ==>
         e.status == Reset && !(e.value == row.value && e.block == row.block)
  }

  ghost predicate Arrives(q: Tables, g: Registry, row: Row) { exists manifest :: Newcomer(q, g, row, manifest) }

  /** A new row: bound to the earliest commitment of its hotkey, with nothing tried yet. */
  ghost predicate Enters(q: Tables, g: Registry, rows: seq<Row>, e: Entry)
  {
    exists row: Row, manifest :: EntersBy(q, g, rows, e, row, manifest)
  }

  ghost predicate EntersBy(q: Tables, g: Registry, rows: seq<Row>, e: Entry, row: Row, manifest: seq<byte>)
  {
    && row in rows && Newcomer(q, g, row, manifest)
    && (forall y :: y in rows && y.hotkey == row.hotkey && Arrives(q, g, y) ==> row.block <= y.block)
    && e == Entry(row.hotkey, row.value, row.block, g.coldkeys[row.hotkey], g.uids[row.hotkey],
                  g.challenge(row.hotkey, manifest), Queued, None, None, 0, 0, None, 0, None, 0)
  }

  ghost predicate Holds(rows: seq<Entry>, hotkey: Hotkey)
  {
    exists e :: e in rows && e.hotkey == hotkey && e.status != Reset
  }

  /** Rows are only added, each as a newcomer, and every newcomer has one. */
  ghost predicate Grows(q: Tables, g: Registry, rows: seq<Row>, r: Tables)
  {
    && r.reset == q.reset && |r.rows| >= |q.rows| && r.rows[..|q.rows|] == q.rows
    && (forall j :: |q.rows| <= j < |r.rows| ==> Enters(q, g, rows, r.rows[j]) && r.rows[j].owner in r.turns)
    && (forall y :: y in rows && Arrives(q, g, y) ==> Holds(r.rows, y.hotkey))
  }

  /** Owners keep their turns, and new ones stand behind all of them. */
  ghost predicate JoinsBehind(before: Turns.Table, now: Turns.Table)
  {
    && (forall k :: k in before ==> k in now && now[k] == before[k])
    && forall k, j :: k in now && k !in before && j in before ==> now[j] < now[k]
  }

  lemma ParsedSubmits(value: string)
    ensures LedgerSpec.ParseSubmission(value).Ok? ==> Submits(value, LedgerSpec.ParseSubmission(value).value)
    ensures forall manifest :: Submits(value, manifest) ==> LedgerSpec.ParseSubmission(value) == Ok(manifest)
  {
    var p := LedgerSpec.SUBMISSION_PREFIX + "|";
    assert p == "wm2|";
    assert p <= value <==> |value| >= 4 && value[..4] == p;
    hide DecodeBytes;
  }

  /** Rows are live, consumed or discarded wherever a hotkey may still arrive. */
  ghost predicate Ordinary(q: Tables, g: Registry)
  {
    forall e :: e in q.rows && e.hotkey in g.hotkeys ==> e.status != Withdrawn && e.status != Excluded
  }

  lemma AdmittedArrives(q: Tables, g: Registry, row: Row)
    requires Ordinary(q, g)
    ensures Admitted(q, g, row) && !SameCommitment(q, row) ==>
      Newcomer(q, g, row, LedgerSpec.ParseSubmission(row.value).value)
    ensures Arrives(q, g, row) ==> Admitted(q, g, row) && !SameCommitment(q, row)
  {
    ParsedSubmits(row.value);
    hide LedgerSpec.ParseSubmission, Submits;
    if Admitted(q, g, row) && !SameCommitment(q, row) {
      forall e | e in q.rows && e.hotkey == row.hotkey
        ensures e.status == Reset && !(e.value == row.value && e.block == row.block)
      {
      }
    }
  }

  lemma RowsAfter(q: Tables, g: Registry, rows: seq<Row>, t: Tables, e: Entry)
    requires Grows(q, g, rows, t) && e in t.rows && e !in q.rows
    ensures e.status == Queued && e.hotkey in g.hotkeys && exists y ::
      y in rows && Arrives(q, g, y) && y.hotkey == e.hotkey
  {
    hide Newcomer;
    var j :| 0 <= j < |t.rows| && t.rows[j] == e;
    if j < |q.rows| {
      assert t.rows[..|q.rows|][j] == q.rows[j];
    }
    var row: Row, manifest :| EntersBy(q, g, rows, e, row, manifest);
    assert row.hotkey in g.hotkeys by { assert Newcomer(q, g, row, manifest); NewcomerRegistered(q, g, row, manifest); }
    assert Arrives(q, g, row);
  }

  lemma NewcomerRegistered(q: Tables, g: Registry, row: Row, manifest: seq<byte>)
    requires Newcomer(q, g, row, manifest)
    ensures row.hotkey in g.hotkeys && row.hotkey in g.coldkeys && row.hotkey in g.uids
  {
  }

  lemma OldRows(q: Tables, g: Registry, rows: seq<Row>, t: Tables)
    requires Grows(q, g, rows, t)
    ensures forall e :: e in q.rows ==> e in t.rows
  {
    forall e | e in q.rows
      ensures e in t.rows
    {
      var j :| 0 <= j < |q.rows| && q.rows[j] == e;
      assert t.rows[..|q.rows|][j] == t.rows[j];
    }
  }

  lemma StillOrdinary(q: Tables, g: Registry, rows: seq<Row>, t: Tables)
    requires Grows(q, g, rows, t) && Ordinary(q, g)
    ensures Ordinary(t, g)
  {
    forall e | e in t.rows && e.hotkey in g.hotkeys
      ensures e.status != Withdrawn && e.status != Excluded
    {
      if e !in q.rows {
        RowsAfter(q, g, rows, t, e);
      }
    }
  }

  /** A row is let in exactly when its hotkey has not come in with an earlier row of the same call. */
  lemma FirstComes(q: Tables, g: Registry, rows: seq<Row>, t: Tables, x: Row)
    requires Grows(q, g, rows, t) && Ordinary(q, g)
    ensures var open := Admitted(t, g, x) && !SameCommitment(t, x);
      && (open ==> Newcomer(q, g, x, LedgerSpec.ParseSubmission(x.value).value)
                   && forall y :: y in rows && y.hotkey == x.hotkey ==> !Arrives(q, g, y))
      && (!open && Arrives(q, g, x) ==> Holds(t.rows, x.hotkey))
  {
    OldRows(q, g, rows, t);
    StillOrdinary(q, g, rows, t);
    AdmittedArrives(q, g, x);
    GrownReset(q, g, rows, t);
    hide LedgerSpec.ParseSubmission, Admitted, SameCommitment, Newcomer, Ordinary;
    if Admitted(t, g, x) && !SameCommitment(t, x) {
      OpenRow(q, t, g, x);
      forall y | y in rows && y.hotkey == x.hotkey
        ensures !Arrives(q, g, y)
      {
        if Arrives(q, g, y) {
          HeldIsBound(t, g, x);
        }
      }
    } else if Arrives(q, g, x) {
      TakenHotkey(q, g, rows, t, x);
    }
  }

  lemma GrownReset(q: Tables, g: Registry, rows: seq<Row>, t: Tables)
    requires Grows(q, g, rows, t)
    ensures t.reset == q.reset && forall y :: y in rows && Arrives(q, g, y) ==> Holds(t.rows, y.hotkey)
  {
  }

  lemma HeldIsBound(t: Tables, g: Registry, x: Row)
    requires Holds(t.rows, x.hotkey) && Ordinary(t, g)
    ensures !Admitted(t, g, x)
  {
    hide LedgerSpec.ParseSubmission;
  }

  lemma TakenHotkey(q: Tables, g: Registry, rows: seq<Row>, t: Tables, x: Row)
    requires Grows(q, g, rows, t) && Admitted(q, g, x) && !SameCommitment(q, x)
    requires !(Admitted(t, g, x) && !SameCommitment(t, x))
    ensures Holds(t.rows, x.hotkey)
  {
    hide LedgerSpec.ParseSubmission, Grows, Arrives;
    GrownReset(q, g, rows, t);
    if Bound(t, x.hotkey) {
    } else {
      assert SameCommitment(t, x);
      var e :| e in t.rows && e.hotkey == x.hotkey && e.value == x.value && e.block == x.block;
      RowsAfter(q, g, rows, t, e);
    }
  }

  lemma OpenRow(q: Tables, t: Tables, g: Registry, x: Row)
    requires Admitted(t, g, x) && !SameCommitment(t, x) && t.reset == q.reset && forall e :: e in q.rows ==> e in t.rows
    ensures Admitted(q, g, x) && !SameCommitment(q, x)
  {
    hide LedgerSpec.ParseSubmission;
  }

  ghost predicate Chronological(rows: seq<Row>) { forall i, j :: 0 <= i < j < |rows| ==>
    rows[i].block <= rows[j].block }

  lemma EntersMore(q: Tables, g: Registry, rows: seq<Row>, x: Row, e: Entry)
    requires Enters(q, g, rows, e) && forall y :: y in rows ==> y.block <= x.block
    ensures Enters(q, g, rows + [x], e)
  {
    hide Newcomer, Arrives;
    var row: Row, manifest :| EntersBy(q, g, rows, e, row, manifest);
    assert forall y :: y in rows + [x] <==> y in rows || y == x;
    assert EntersBy(q, g, rows + [x], e, row, manifest);
  }

  lemma EntersNow(q: Tables, g: Registry, rows: seq<Row>, x: Row, e: Entry, manifest: seq<byte>)
    requires Newcomer(q, g, x, manifest) && forall y :: y in rows && y.hotkey == x.hotkey ==> !Arrives(q, g, y)
    requires e == Entry(x.hotkey, x.value, x.block, g.coldkeys[x.hotkey], g.uids[x.hotkey],
                        g.challenge(x.hotkey, manifest), Queued, None, None, 0, 0, None, 0, None, 0)
    ensures Enters(q, g, rows + [x], e)
  {
    NewcomerRegistered(q, g, x, manifest);
    hide Newcomer, Arrives;
    assert forall y :: y in rows + [x] <==> y in rows || y == x;
    assert EntersBy(q, g, rows + [x], e, x, manifest);
  }

  lemma HoldsMore(rows: seq<Entry>, e: Entry, h: Hotkey)
    ensures Holds(rows, h) || (e.hotkey == h && e.status != Reset) ==> Holds(rows + [e], h)
  {
    if Holds(rows, h) {
      var x :| x in rows && x.hotkey == h && x.status != Reset;
      assert x in rows + [e];
    }
    assert e in rows + [e];
  }

  lemma RowGrows(q: Tables, g: Registry, rows: seq<Row>, t: Tables, x: Row)
    requires Grows(q, g, rows, t) && Ordinary(q, g) && forall y :: y in rows ==> y.block <= x.block
    ensures Grows(q, g, rows + [x], ObserveRow(t, g, x))
  {
    hide LedgerSpec.ParseSubmission, Newcomer, Ordinary, Turns.Enter, Enters, Arrives, Holds;
    FirstComes(q, g, rows, t, x);
    KeptOwners(t, g, x);
    MoreEnter(q, g, rows, t, x);
    if Admitted(t, g, x) && !SameCommitment(t, x) {
      EntersNow(q, g, rows, x, NewEntry(g, x), LedgerSpec.ParseSubmission(x.value).value);
      hide Admitted, SameCommitment;
      OneMore(q, g, rows, t, x, ObserveRow(t, g, x), NewEntry(g, x));
    } else {
      hide Admitted, SameCommitment;
      NoMore(q, g, rows, t, x, ObserveRow(t, g, x));
    }
  }

  lemma OneMore(q: Tables, g: Registry, rows: seq<Row>, t: Tables, x: Row, r: Tables, e: Entry)
    requires Grows(q, g, rows, t) && r.reset == t.reset && r.rows == t.rows + [e] && e.hotkey == x.hotkey
    requires (forall k :: k in t.turns ==> k in r.turns) && e.owner in r.turns && e.status != Reset
    requires forall j :: |q.rows| <= j < |t.rows| ==> Enters(q, g, rows + [x], t.rows[j])
    requires Enters(q, g, rows + [x], e)
    ensures Grows(q, g, rows + [x], r)
  {
    hide Enters, Arrives, Holds;
    forall y | y in rows + [x] && Arrives(q, g, y)
      ensures Holds(r.rows, y.hotkey)
    {
      HoldsMore(t.rows, e, y.hotkey);
    }
  }

  lemma NoMore(q: Tables, g: Registry, rows: seq<Row>, t: Tables, x: Row, r: Tables)
    requires Grows(q, g, rows, t) && r.reset == t.reset && r.rows == t.rows
    requires forall k :: k in t.turns ==> k in r.turns
    requires forall j :: |q.rows| <= j < |t.rows| ==> Enters(q, g, rows + [x], t.rows[j])
    requires Arrives(q, g, x) ==> Holds(t.rows, x.hotkey)
    ensures Grows(q, g, rows + [x], r)
  {
    hide Enters, Arrives, Holds;
  }

  lemma MoreEnter(q: Tables, g: Registry, rows: seq<Row>, t: Tables, x: Row)
    requires Grows(q, g, rows, t) && forall y :: y in rows ==> y.block <= x.block
    ensures forall j :: |q.rows| <= j < |t.rows| ==> Enters(q, g, rows + [x], t.rows[j])
  {
    hide Enters;
    forall j | |q.rows| <= j < |t.rows|
      ensures Enters(q, g, rows + [x], t.rows[j])
    {
      EntersMore(q, g, rows, x, t.rows[j]);
    }
  }

  lemma KeptOwners(t: Tables, g: Registry, x: Row)
    ensures var r := ObserveRow(t, g, x);
      && r.reset == t.reset && (forall k :: k in t.turns ==> k in r.turns)
      && (Admitted(t, g, x) ==> NewEntry(g, x).owner in r.turns)
  {
    hide LedgerSpec.ParseSubmission, SameCommitment, Turns.Latest;
  }

  lemma {:induction false} RowsGrow(q: Tables, g: Registry, rows: seq<Row>)
    requires Ordinary(q, g) && Chronological(rows)
    ensures Grows(q, g, rows, ObserveRows(q, g, rows))
    decreases |rows|
  {
    hide Grows, Ordinary, ObserveRow;
    if rows == [] {
      NothingGrows(q, g);
    } else {
      var n := |rows| - 1;
      RowsGrow(q, g, rows[..n]);
      RowGrows(q, g, rows[..n], ObserveRows(q, g, rows[..n]), rows[n]);
      assert rows == rows[..n] + [rows[n]];
    }
  }

  lemma NothingGrows(q: Tables, g: Registry)
    ensures Grows(q, g, [], q)
  {
  }

  lemma {:induction false} OwnersJoin(q: Tables, g: Registry, rows: seq<Row>)
    ensures JoinsBehind(q.turns, ObserveRows(q, g, rows).turns)
    decreases |rows|
  {
    hide Admitted, SameCommitment, LedgerSpec.ParseSubmission, Turns.Latest;
    if rows != [] {
      OwnersJoin(q, g, rows[..|rows| - 1]);
    }
  }

  lemma {:induction false} InsertChronological(x: Row, rows: seq<Row>)
    requires Chronological(rows)
    ensures Chronological(InsertArrival(x, rows))
    decreases |rows|
  {
    if rows != [] && !ArrivalLeq(x, rows[0]) {
      InsertChronological(x, rows[1..]);
      var rest := InsertArrival(x, rows[1..]);
      forall i | 0 <= i < |rest|
        ensures rows[0].block <= rest[i].block
      {
        assert rest[i] in rest;
      }
    }
  }

  lemma {:induction false} ArrivalsChronological(rows: seq<Row>)
    ensures Chronological(Arrivals(rows))
    decreases |rows|
  {
    if rows != [] {
      ArrivalsChronological(rows[1..]);
      InsertChronological(rows[0], Arrivals(rows[1..]));
    }
  }

  lemma GrowsSame(q: Tables, g: Registry, a: seq<Row>, b: seq<Row>, r: Tables)
    requires Grows(q, g, a, r) && forall y :: y in a <==> y in b
    ensures Grows(q, g, b, r)
  {
    hide Arrives, Newcomer, Holds;
    forall j | |q.rows| <= j < |r.rows|
      ensures Enters(q, g, b, r.rows[j])
    {
      var row: Row, manifest :| EntersBy(q, g, a, r.rows[j], row, manifest);
      assert EntersBy(q, g, b, r.rows[j], row, manifest);
    }
  }

  // ---------------------------------------------------------------- observing

  /** After an observation: rows of before move one by one, newcomers stand behind them. */
  ghost predicate Observed(q: Tables, g: Registry, rows: seq<Row>, r: Tables)
  {
    && r.reset == q.reset && |r.rows| >= |q.rows|
    && (forall j :: |q.rows| <= j < |r.rows| ==> Enters(q, g, rows, r.rows[j]) && r.rows[j].owner in r.turns)
    && (forall y :: y in rows && Arrives(q, g, y) ==> Holds(r.rows, y.hotkey))
    && JoinsBehind(q.turns, r.turns)
  }

  lemma NewcomersAgree(q: Tables, g: Registry, p: Tables, h: Registry, row: Row, manifest: seq<byte>)
    requires h == g.(hotkeys := g.hotkeys - Schedule.WithdrawnHotkeys(q)) && p.reset == q.reset && |p.rows| == |q.rows|
    requires forall i :: 0 <= i < |q.rows| ==> Kept(q.rows[i], p.rows[i])
    ensures Newcomer(q, g, row, manifest) <==> Newcomer(p, h, row, manifest)
  {
    hide Submits;
    if Newcomer(q, g, row, manifest) {
      forall e | e in p.rows && e.hotkey == row.hotkey
        ensures e.status == Reset && !(e.value == row.value && e.block == row.block)
      {
        var i :| 0 <= i < |p.rows| && p.rows[i] == e;
        assert q.rows[i] in q.rows;
      }
      assert row.hotkey !in Schedule.WithdrawnHotkeys(q);
    }
    if Newcomer(p, h, row, manifest) {
      forall e | e in q.rows && e.hotkey == row.hotkey
        ensures e.status == Reset && !(e.value == row.value && e.block == row.block)
      {
        var i :| 0 <= i < |q.rows| && q.rows[i] == e;
        assert p.rows[i] in p.rows;
      }
    }
  }

  /** A row that comes back is still the row of its binding. */
  predicate Kept(a: Entry, b: Entry)
  {
    a.hotkey == b.hotkey && a.value == b.value && a.block == b.block && (a.status == Reset <==> b.status == Reset)
  }

  lemma ReadmittedKept(g: Registry, rows: seq<Row>, e: Entry)
    ensures Kept(e, Schedule.Readmitted(g, rows, e))
  {
    hide Schedule.Renewal;
  }

  lemma EntersAgree(q: Tables, g: Registry, p: Tables, h: Registry, rows: seq<Row>, e: Entry)
    requires h == g.(hotkeys := h.hotkeys) && forall row, manifest :: Newcomer(q, g, row, manifest) <==>
      Newcomer(p, h, row, manifest)
    requires Enters(p, h, rows, e)
    ensures Enters(q, g, rows, e)
  {
    hide Newcomer;
    var row: Row, manifest :| EntersBy(p, h, rows, e, row, manifest);
    assert Newcomer(q, g, row, manifest);
    NewcomerRegistered(q, g, row, manifest);
    assert EntersBy(q, g, rows, e, row, manifest);
  }

  lemma OrdinaryNow(q: Tables, g: Registry, rows: seq<Row>)
    requires AllGood(q.rows)
    ensures Ordinary(q.(rows := Schedule.ReadmitAll(g, rows, q.rows)),
                     g.(hotkeys := g.hotkeys - Schedule.WithdrawnHotkeys(q)))
  {
    var p := Schedule.ReadmitAll(g, rows, q.rows);
    hide Schedule.Renewal;
    forall e | e in p && e.hotkey in g.hotkeys - Schedule.WithdrawnHotkeys(q)
      ensures e.status != Withdrawn && e.status != Excluded
    {
      var i :| 0 <= i < |p| && p[i] == e;
      assert q.rows[i] in q.rows && Good(q.rows[i]);
    }
  }

  lemma ObserveMeans(q: Tables, g: Registry, rows: seq<Row>)
    requires AllGood(q.rows)
    ensures Observed(q, g, rows, Schedule.Observe(q, g, rows))
    ensures forall i :: 0 <= i < |q.rows| ==> Returned(g, rows, q.rows[i], Schedule.Observe(q, g, rows).rows[i])
  {
    var p, h := q.(rows := Schedule.ReadmitAll(g, rows, q.rows)),
      g.(hotkeys := g.hotkeys - Schedule.WithdrawnHotkeys(q));
    var r := Schedule.Observe(q, g, rows);
    OrdinaryNow(q, g, rows);
    ArrivalsChronological(rows);
    RowsGrow(p, h, Arrivals(rows));
    OwnersJoin(p, h, Arrivals(rows));
    GrowsSame(p, h, Arrivals(rows), rows, r);
    hide Arrivals, ObserveRows, Schedule.Renewal, Newcomer, Enters, Returned, JoinsBehind, Holds, Schedule.Readmitted,
      Good;
    forall i | 0 <= i < |q.rows|
      ensures Kept(q.rows[i], p.rows[i]) && Returned(g, rows, q.rows[i], r.rows[i])
    {
      ReadmittedKept(g, rows, q.rows[i]);
      RenewalReturns(g, rows, q.rows[i]);
      assert r.rows[..|q.rows|][i] == r.rows[i];
    }
    forall row, manifest
      ensures Newcomer(q, g, row, manifest) <==> Newcomer(p, h, row, manifest)
    {
      NewcomersAgree(q, g, p, h, row, manifest);
    }
    forall j | |q.rows| <= j < |r.rows|
      ensures Enters(q, g, rows, r.rows[j])
    {
      EntersAgree(q, g, p, h, rows, r.rows[j]);
    }
    assert forall y :: Arrives(q, g, y) <==> Arrives(p, h, y);
  }

  // ---------------------------------------------------------------- every event

  lemma DispatchMoves(q: Tables, w: World, count: nat, before: nat, current: nat, accepted: set<nat>,
                      into: Option<nat>, i: nat)
    requires AllGood(q.rows) && i < |q.rows|
    ensures var e := Dispatch(w, count, before, current, accepted, into);
      |Apply(q, e).rows| == |q.rows| && Moves(q, e, i, Apply(q, e).rows[i])
  {
    var ids, swept := Schedule.Pending(q, w, count, before, current), Schedule.Swept(q, w, before);
    hide Schedule.Pending, Schedule.Swept, Swept, Takes, Picked, AllGood;
    SweepLooks(q, w, before, i);
    PendingDistinct(q, w, count, before, current);
    PickedTakes(ids, accepted, i);
    var p := Picked(ids, accepted);
    if p < |ids| {
      OfferedStarts(q, w, count, before, current, p, into);
      hide Start;
    }
  }

  /** An offered row starts on the swept tables. */
  lemma OfferedStarts(q: Tables, w: World, count: nat, before: nat, current: nat, p: nat, into: Option<nat>)
    requires AllGood(q.rows) && p < |Schedule.Pending(q, w, count, before, current)|
    ensures var id, s := Schedule.Pending(q, w, count, before, current)[p], Schedule.Swept(q, w, before);
      && id < |s.rows| == |q.rows| && Start(s, id, into).Ok?
      && Start(s, id, into).value.rows
         == s.rows[id := s.rows[id].(status := Running, window := into, attempts := s.rows[id].attempts + 1)]
      && Start(s, id, into).value.turns == Turns.Serve(s.turns, s.rows[id].owner)
      && s.rows[id].owner == q.rows[id].owner
  {
    var id, s := Schedule.Pending(q, w, count, before, current)[p], Schedule.Swept(q, w, before);
    PendingOffered(q, w, count, before, current, p);
    SweptSteady(q, w, before);
    StartSteady(q, w, id, before, s, into);
    hide Schedule.Pending, Schedule.Swept, AllGood, Schedule.Offered, Schedule.Visited, Turns.Serve, Waiting;
    assert Evolved(q.rows[id], s.rows[id]);
    hide Evolved;
  }

  lemma PendingDistinct(q: Tables, w: World, count: nat, before: nat, current: nat)
    ensures RoundRobin.Distinct(Schedule.Pending(q, w, count, before, current))
  {
    var ids := WaitingIds(q, before, |q.rows|);
    Schedule.WaitingInRange(q, before);
    WaitingDistinct(q, before, |q.rows|);
    Fairness.WaitingInOrder(q, before, |q.rows|);
    OfferedInOrder(q, w, ids, before);
    OfferedDistinct(q, w, ids);
    hide WaitingIds;
    TakenDistinct(q, Schedule.Swept(q, w, before), Schedule.OfferedIds(q, w, ids), before, current, count);
  }

  lemma TakenDistinct(q: Tables, s: Tables, ids: seq<nat>, before: nat, current: nat, count: nat)
    requires Fairness.InOrder(q, ids, before) && RoundRobin.Distinct(ids)
    ensures RoundRobin.Distinct(RoundRobin.Take(RoundRobin.Rounds(Fairness.ReadyOn(q, s, ids, current)), Some(count)))
  {
    var pool := set i | i in ids;
    var groups := Fairness.ReadyOn(q, s, ids, current);
    var all := RoundRobin.Rounds(groups);
    forall a, b | 0 <= a < b < |all|
      ensures all[a] != all[b]
    {
      var i, d := TakenRow(q, s, pool, ids, before, current, a);
      var j, e := TakenRow(q, s, pool, ids, before, current, b);
      SlotsApart(q, s, ids, before, current, i, d, j, e);
    }
  }

  lemma SlotsApart(q: Tables, s: Tables, ids: seq<nat>, before: nat, current: nat, i: nat, d: nat, j: nat, e: nat)
    requires Fairness.InOrder(q, ids, before) && RoundRobin.Distinct(ids)
    requires var g := Fairness.ReadyOn(q, s, ids, current);
      && RoundRobin.At(g, i, d) && RoundRobin.At(g, j, e)
      && g[i] in RoundRobin.Grouped(ids, OwnerOf(q)) && g[j] in RoundRobin.Grouped(ids, OwnerOf(q))
      && RoundRobin.Slot(g, i, d) != RoundRobin.Slot(g, j, e)
    ensures var g := Fairness.ReadyOn(q, s, ids, current); g[i].items[d] != g[j].items[e]
  {
    var g := Fairness.ReadyOn(q, s, ids, current);
    RoundRobin.GroupMembers(ids, OwnerOf(q), g[i]);
    RoundRobin.GroupMembers(ids, OwnerOf(q), g[j]);
    RowsDistinct(ids, OwnerOf(q), g[i].owner);
    Fairness.GroupedInTurn(q, before, ids);
    Fairness.ReadyInTurn(q, s, RoundRobin.Grouped(ids, OwnerOf(q)), current);
    hide Fairness.ReadyOn, RoundRobin.Grouped, RoundRobin.RowsOf, RoundRobin.Slot, Fairness.InOrder;
  }

  lemma ReconcileMoves(q: Tables, hotkey: Hotkey, result: Option<string>, window: nat, rejected: bool, i: nat)
    requires AllGood(q.rows) && OneEach(q.rows) && i < |q.rows|
    ensures var e := Reconcile(hotkey, result, window, rejected);
      |Apply(q, e).rows| == |q.rows| && Moves(q, e, i, Apply(q, e).rows[i])
  {
    var restored := Schedule.RestoreAll(hotkey, q.rows);
    var id := LiveRow(restored, hotkey);
    hide AllGood, OneEach, LiveRow, Schedule.RestoreAll, Schedule.Restored;
    if id == i {
      RestoredLive(q, hotkey, restored, i);
    } else {
      OnlyLiveRow(q, hotkey, restored, id, i);
      OthersSettled(q, hotkey, restored, id, i);
    }
  }

  lemma RestoredLive(q: Tables, hotkey: Hotkey, restored: seq<Entry>, i: nat)
    requires AllGood(q.rows) && |restored| == |q.rows| && i < |q.rows|
    requires forall j :: 0 <= j < |restored| ==> restored[j] == Schedule.Restored(hotkey, q.rows[j])
    requires Live(restored[i]) && restored[i].hotkey == hotkey
    ensures var a := q.rows[i];
      && a.hotkey == hotkey && a.status != Done && a.status != Rejected && a.status != Reset
      && restored[i] == a.(status := restored[i].status)
  {
    assert Good(q.rows[i]);
  }

  /** When another row of the hotkey is the live one, or none is, this one is settled or another hotkey's. */
  lemma OthersSettled(q: Tables, hotkey: Hotkey, restored: seq<Entry>, id: nat, i: nat)
    requires AllGood(q.rows) && OneEach(q.rows) && |restored| == |q.rows| && i < |q.rows| && id <= |restored| && i != id
    requires forall j :: 0 <= j < |restored| ==> restored[j] == Schedule.Restored(hotkey, q.rows[j])
    requires id < |restored| ==> Live(restored[id]) && restored[id].hotkey == hotkey
    requires id == |restored| ==> forall e :: e in restored && e.hotkey == hotkey ==> !Live(e)
    ensures q.rows[i].hotkey == hotkey ==>
      q.rows[i].status == Done || q.rows[i].status == Rejected || q.rows[i].status == Reset
  {
    assert restored[i] in restored;
    assert Good(q.rows[i]);
  }

  lemma DeferMoves(q: Tables, w: World, id: nat, cause: string, retry: nat, i: nat)
    requires i < |q.rows|
    ensures var e := Defer(w, id, cause, retry);
      |Apply(q, e).rows| == |q.rows| && Moves(q, e, i, Apply(q, e).rows[i])
  {
    DeferSize(q, w, id, cause, retry);
    hide Schedule.Defer, Ended;
    if i == id && q.rows[i].status == Running {
      DeferEnds(q, w, id, cause, retry);
    } else {
      DeferElsewhere(q, w, id, cause, retry, i);
    }
  }

  lemma DeferSize(q: Tables, w: World, id: nat, cause: string, retry: nat)
    ensures |Schedule.Defer(q, w, id, cause, retry).rows| == |q.rows|
  {
    hide Schedule.WithdrawnEntry, Schedule.Capped;
  }

  lemma ObserveMoves(q: Tables, g: Registry, rows: seq<Row>, i: nat)
    requires AllGood(q.rows) && i < |q.rows|
    ensures var e := Observe(g, rows);
      && |Apply(q, e).rows| >= |q.rows| && Moves(q, e, i, Apply(q, e).rows[i]) && Observed(q, g, rows, Apply(q, e))
  {
    hide Schedule.Observe, Returned, Enters;
    ObserveMeans(q, g, rows);
  }

  lemma FinishMoves(q: Tables, id: nat, status: Status, reason: Option<string>, result: Option<string>, i: nat)
    requires i < |q.rows|
    ensures var e := Finish(id, status, reason, result);
      |Apply(q, e).rows| == |q.rows| && Moves(q, e, i, Apply(q, e).rows[i])
  {
  }

  lemma GenerationMoves(q: Tables, reset: Option<Generation>, i: nat)
    requires i < |q.rows|
    ensures var e := NewGeneration(reset);
      |Apply(q, e).rows| == |q.rows| && Moves(q, e, i, Apply(q, e).rows[i])
  {
  }

  /** Every event moves every row as its life allows, and only an observation adds rows. */
  lemma EventMoves(q: Tables, e: Event, i: nat)
    requires AllGood(q.rows) && OneEach(q.rows) && i < |q.rows|
    ensures i < |Apply(q, e).rows| && Moves(q, e, i, Apply(q, e).rows[i])
    ensures if e.Observe? then Observed(q, e.registry, e.commitments, Apply(q, e)) else |Apply(q, e).rows| == |q.rows|
  {
    hide AllGood, OneEach, Observed;
    match e
    case Observe(g, rows) =>
      hide Apply, Moves;
      ObserveMoves(q, g, rows, i);
    case Preview(w, _, before, _) =>
      hide Schedule.Swept, Swept;
      SweepLooks(q, w, before, i);
    case Dispatch(w, count, before, current, accepted, into) =>
      hide Started, Moves;
      DispatchMoves(q, w, count, before, current, accepted, into, i);
    case Defer(w, id, cause, retry) =>
      hide Schedule.Defer, Moves;
      DeferMoves(q, w, id, cause, retry, i);
    case Reconcile(hotkey, result, window, rejected) =>
      hide Schedule.Reconcile, Moves;
      ReconcileMoves(q, hotkey, result, window, rejected, i);
    case Recover(w) =>
      hide Restarted, Schedule.Recovered, Schedule.RecoverAll;
      RecoverRestarts(w, q.rows[i]);
    case Withdraw(w, id, cause) =>
      hide Leaves, Schedule.WithdrawnEntry;
      WithdrawnLeaves(w, q.rows[i], cause);
    case Finish(id, status, reason, result) =>
      hide Apply, Moves;
      FinishMoves(q, id, status, reason, result, i);
    case NewGeneration(reset) =>
      hide Apply, Moves;
      GenerationMoves(q, reset, i);
  }

  /** The owner that is served goes behind everybody; nobody else moves. */
  ghost predicate GoesLast(before: Turns.Table, now: Turns.Table, k: string)
  {
    && now.Keys == before.Keys && (forall j :: j in before && j != k ==> now[j] == before[j])
    && (k in now ==> forall j :: j in now && j != k ==> now[j] < now[k])
  }

  lemma ServedLast(q: Tables, e: Event, i: nat)
    requires AllGood(q.rows) && e.Dispatch? && i < |q.rows|
    requires Takes(Schedule.Pending(q, e.world, e.count, e.before, e.current), e.accepted, i)
    ensures GoesLast(q.turns, Apply(q, e).turns, q.rows[i].owner)
  {
    var ids := Schedule.Pending(q, e.world, e.count, e.before, e.current);
    var p := Picked(ids, e.accepted);
    hide Schedule.Pending, Schedule.Swept, Takes, Picked, AllGood, Turns.Latest;
    PendingDistinct(q, e.world, e.count, e.before, e.current);
    PickedTakes(ids, e.accepted, i);
    OfferedStarts(q, e.world, e.count, e.before, e.current, p, e.into);
    SweptTurns(q, e.world, e.before);
    hide Start;
  }

  lemma SweptTurns(q: Tables, w: World, before: nat)
    ensures Schedule.Swept(q, w, before).turns == q.turns
  {
    Schedule.WaitingInRange(q, before);
  }

  /** What a new generation discards it keeps in the archive as it was. */
  lemma DiscardedIsArchived(q: Tables, reset: Generation, i: nat)
    requires q.reset == None && i < |q.rows| && q.rows[i].block < reset.block
    ensures var r := Apply(q, NewGeneration(Some(reset)));
      r.reset == Some(reset) && i in r.archive && r.archive[i] == q.rows[i]
  {
  }

  /** Over every run of the scheduler every row lives by these rules. */
  lemma RowsLiveByTheRules(events: seq<Event>, e: Event, i: nat)
    requires i < |Run(events).rows|
    ensures i < |Run(events + [e]).rows| && Moves(Run(events), e, i, Run(events + [e]).rows[i])
  {
    assert (events + [e])[..|events + [e]| - 1] == events;
    RunSound(events);
    SoundParts(Run(events));
    hide Apply, Moves, Run, OneEach, AllGood, Sound;
    EventMoves(Run(events), e, i);
  }

  /** And every row entered by an observation, bound to the first commitment of a newcomer. */
  lemma RowsEnterByTheRules(events: seq<Event>, g: Registry, rows: seq<Row>)
    ensures Observed(Run(events), g, rows, Run(events + [Observe(g, rows)]))
  {
    assert (events + [Observe(g, rows)])[..|events|] == events;
    RunSound(events);
    SoundParts(Run(events));
    hide Run, OneEach, AllGood, Sound, Schedule.Observe, Observed;
    ObserveMeans(Run(events), g, rows);
  }
}
