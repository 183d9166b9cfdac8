/**
 The scheduling layer over the queue: withdrawal and readmission of miners, retries after
 timeouts, and parking of rows whose budget for the current window is spent.
 */
module Schedule {
  import opened Common
  import opened Decide
  import opened Queue
  import RoundRobin

  const MAX_TIMEOUT_FAILURES: nat := 2
  const PARKED: nat := 0x7FFF_FFFF_FFFF_FFFF
  const RETRY_HORIZON: nat := 5

  /** The callbacks of the scheduler, as they answer during one call. */
  datatype World = World(candidates: map<ModelId, Hotkey>, interruption: Option<nat> -> Option<string>,
                         block: Option<nat>)

  const ELAPSED := "attempt_budget_elapsed"
  const CHANGED := "window_changed"
  const ROUND_BUDGET := "EvaluationRoundBudgetExceeded"
  const INFRASTRUCTURE_BUDGET := "InfrastructureRoundBudgetExceeded"
  const DOWNLOAD_BUDGET := "DownloadBudgetExceeded"

  /** Failures that are the miner's: reason of the failure to reason of the withdrawal. */
  const MINER_FAILURES: map<string, string> := map[
    "MinerUnavailable" := "miner_unavailable",
    "MinerDownloadExpired" := "download_time_limit",
    DOWNLOAD_BUDGET := "download_time_limit",
    "CompressionRequired" := "compression_required",
    "MinerInvalidPackage" := "invalid_model_package"]

  // ---------------------------------------------------------------- withdrawal

  function WithdrawnEntry(w: World, e: Entry, reason: string): Entry
  {
    var now := if w.block.Some? then w.block.value else 0;
    e.(status := Withdrawn, reason := Some(reason), removedBlock := MaxNat(now, MaxNat(e.block, Since(e))),
      retryBlock := 0)
  }

  function MaxNat(a: nat, b: nat): nat { if a >= b then a else b }

  function MinNat(a: nat, b: nat): nat { if a <= b then a else b }

  function Withdraw(q: Tables, w: World, id: nat, reason: string): Tables
  {
    if id < |q.rows| && (Live(q.rows[id]) || q.rows[id].status == Excluded)
    then SetRow(q, id, WithdrawnEntry(w, q.rows[id], reason)) else q
  }

  // ---------------------------------------------------------------- readmission

  /** The same binding, committed again after the removal by a registered hotkey. */
  predicate Renews(g: Registry, e: Entry, r: Row)
  {
    r.hotkey == e.hotkey && r.value == e.value && r.block > e.removedBlock && r.hotkey in g.hotkeys
  }

  /** The earliest renewing block. */
  function Renewal(g: Registry, e: Entry, rows: seq<Row>): (b: Option<nat>)
    ensures b == None ==> forall r :: r in rows ==> !Renews(g, e, r)
    ensures b.Some? ==> exists r :: r in rows && Renews(g, e, r) && r.block == b.value
    ensures b.Some? ==> forall r :: r in rows && Renews(g, e, r) ==> b.value <= r.block
  {
    if rows == [] then None
    else
      var front, last := Renewal(g, e, rows[..|rows| - 1]), rows[|rows| - 1];
      assert rows == rows[..|rows| - 1] + [last];
      if !Renews(g, e, last) then front
      else if front == None || last.block < front.value then Some(last.block) else front
  }

  function Readmitted(g: Registry, rows: seq<Row>, e: Entry): Entry
  {
    if e.status != Withdrawn || Renewal(g, e, rows) == None then e
    else e.(status := Queued, reason := Some("resubmitted"), readmission := Renewal(g, e, rows), retryBlock := 0,
      timeouts := 0)
  }

  function ReadmitAll(g: Registry, rows: seq<Row>, entries: seq<Entry>): (r: seq<Entry>)
    ensures |r| == |entries|
    ensures forall i :: 0 <= i < |r| ==> r[i] == Readmitted(g, rows, entries[i])
  {
    if entries == [] then []
    else ReadmitAll(g, rows, entries[..|entries| - 1]) + [Readmitted(g, rows, entries[|entries| - 1])]
  }

  function WithdrawnHotkeys(q: Tables): set<Hotkey> { set e | e in q.rows && e.status == Withdrawn :: e.hotkey }

  /** Withdrawn bindings are kept; only other hotkeys can bind anew. */
  function Observe(q: Tables, g: Registry, rows: seq<Row>): Tables
  {
    ObserveRows(q.(rows := ReadmitAll(g, rows, q.rows)), g.(hotkeys := g.hotkeys - WithdrawnHotkeys(q)), Arrivals(rows))
  }

  // ---------------------------------------------------------------- finalized results

  function Restored(hotkey: Hotkey, e: Entry): Entry
  {
    if e.hotkey == hotkey && (e.status == Excluded || e.status == Withdrawn) then e.(status := Queued) else e
  }

  function RestoreAll(hotkey: Hotkey, entries: seq<Entry>): (r: seq<Entry>)
    ensures |r| == |entries|
    ensures forall i :: 0 <= i < |r| ==> r[i] == Restored(hotkey, entries[i])
  {
    if entries == [] then []
    else RestoreAll(hotkey, entries[..|entries| - 1]) + [Restored(hotkey, entries[|entries| - 1])]
  }

  function Reconcile(q: Tables, hotkey: Hotkey, result: Option<string>, window: nat, rejected: bool): Tables
  {
    Queue.Reconcile(q.(rows := RestoreAll(hotkey, q.rows)), hotkey, result, window, rejected)
  }

  // ---------------------------------------------------------------- restarts

  predicate Parked(reason: Option<string>) { reason == Some(ROUND_BUDGET) || reason == Some(INFRASTRUCTURE_BUDGET) }

  /** One row after a restart: transport failures are withdrawn, timeouts retry at once, waits are capped. */
  function Recovered(w: World, e: Entry): Entry
  {
    var a :=
      if e.status == Excluded then WithdrawnEntry(w, e, "compression_required")
      else if (e.status == Queued || e.status == Failed) && e.reason == Some(DOWNLOAD_BUDGET)
      then WithdrawnEntry(w, e, "download_time_limit") else e;
    var b :=
      if a.status == Queued && a.retryBlock > 0
        && (a.reason == Some("TimeoutError") || a.reason == Some("InterruptedError"))
      then a.(retryBlock := 0, reason := Some("retry_after_restart")) else a;
    if w.block.Some? && b.status == Queued && b.retryBlock > w.block.value + RETRY_HORIZON
       && !Parked(b.reason) && b.reason != Some(DOWNLOAD_BUDGET)
    then b.(retryBlock := w.block.value + RETRY_HORIZON) else b
  }

  function RecoverAll(w: World, entries: seq<Entry>): (r: seq<Entry>)
    ensures |r| == |entries|
    ensures forall i :: 0 <= i < |r| ==> r[i] == Recovered(w, entries[i])
  {
    if entries == [] then []
    else RecoverAll(w, entries[..|entries| - 1]) + [Recovered(w, entries[|entries| - 1])]
  }

  function Recover(q: Tables, w: World): Tables { q.(rows := RecoverAll(w, q.rows)) }

  /** A second restart at the same block recovers nothing more. */
  lemma RecoverTwice(q: Tables, w: World)
    ensures Recover(Recover(q, w), w) == Recover(q, w)
  {
    hide WithdrawnEntry;
    var once := RecoverAll(w, q.rows);
    forall i | 0 <= i < |q.rows|
      ensures Recovered(w, once[i]) == once[i]
    {
      RecoveredTwice(w, q.rows[i]);
    }
    assert RecoverAll(w, once) == once;
  }

  lemma RecoveredTwice(w: World, e: Entry)
    ensures Recovered(w, Recovered(w, e)) == Recovered(w, e)
  {
  }

  // ---------------------------------------------------------------- dispatch

  /** What a look at a waiting row does to it. */
  function Visited(w: World, e: Entry): Entry
  {
    if e.timeouts >= MAX_TIMEOUT_FAILURES then WithdrawnEntry(w, e, "retry_limit_exceeded")
    else if Parked(e.reason) then
      (if w.interruption(e.window) != Some(CHANGED) then e else e.(retryBlock := 0, reason := Some("new_window")))
    else if e.reason == Some(DOWNLOAD_BUDGET) then WithdrawnEntry(w, e, "download_time_limit")
    else e
  }

  /** Whether the row stays in the running: a challenger of the active window with budget left. */
  predicate Offered(w: World, e: Entry)
  {
    && e.timeouts < MAX_TIMEOUT_FAILURES
    && (if Parked(e.reason) then w.interruption(e.window) == Some(CHANGED) else e.reason != Some(DOWNLOAD_BUDGET))
    && e.model in w.candidates && w.candidates[e.model] == e.hotkey
  }

  ghost predicate InRange(q: Tables, ids: seq<nat>) { forall i :: 0 <= i < |ids| ==> ids[i] < |q.rows| }

  function VisitAll(q: Tables, w: World, ids: seq<nat>): (r: Tables)
    requires InRange(q, ids)
    ensures |r.rows| == |q.rows| && r == q.(rows := r.rows)
  {
    if ids == [] then q
    else
      var front, id := VisitAll(q, w, ids[..|ids| - 1]), ids[|ids| - 1];
      SetRow(front, id, Visited(w, q.rows[id]))
  }

  lemma {:induction false} VisitUntouched(q: Tables, w: World, ids: seq<nat>, id: nat)
    requires InRange(q, ids) && id < |q.rows| && id !in ids
    ensures VisitAll(q, w, ids).rows[id] == q.rows[id]
    decreases |ids|
  {
    if ids != [] {
      VisitUntouched(q, w, ids[..|ids| - 1], id);
    }
  }

  function OfferedIds(q: Tables, w: World, ids: seq<nat>): (r: seq<nat>)
    requires InRange(q, ids)
    ensures forall id: nat :: id in r <==> id in ids && Offered(w, q.rows[id])
  {
    if ids == [] then []
    else
      var front, id := OfferedIds(q, w, ids[..|ids| - 1]), ids[|ids| - 1];
      if Offered(w, q.rows[id]) then front + [id] else front
  }

  lemma WaitingInRange(q: Tables, before: nat)
    ensures InRange(q, WaitingIds(q, before, |q.rows|))
  {
    var ids := WaitingIds(q, before, |q.rows|);
    assert forall i :: 0 <= i < |ids| ==> ids[i] in ids;
  }

  /** The tables after looking at every waiting row. */
  function Swept(q: Tables, w: World, before: nat): Tables
  {
    WaitingInRange(q, before);
    VisitAll(q, w, WaitingIds(q, before, |q.rows|))
  }

  function Dispatchable(q: Tables, w: World, before: nat, current: nat): (r: seq<RoundRobin.Group<nat>>)
    ensures RoundRobin.Occupied(r)
  {
    WaitingInRange(q, before);
    var ids := OfferedIds(q, w, WaitingIds(q, before, |q.rows|));
    ReadyGroups(Swept(q, w, before), RoundRobin.Grouped(ids, OwnerOf(q)), current)
  }

  function Pending(q: Tables, w: World, count: nat, before: nat, current: nat): seq<nat>
  {
    RoundRobin.Take(RoundRobin.Rounds(Dispatchable(q, w, before, current)), Some(count))
  }

  // ---------------------------------------------------------------- ending an attempt

  function Capped(w: World, retryBlock: nat): nat
  {
    if w.block.Some? then MinNat(retryBlock, w.block.value + RETRY_HORIZON) else retryBlock
  }

  predicate TimedOut(e: Entry, reason: string, planned: Option<string>)
  {
    e.status == Running && (reason == ROUND_BUDGET || reason == ELAPSED || planned == Some(ELAPSED))
  }

  function Defer(q: Tables, w: World, id: nat, reason: string, retryBlock: nat): Tables
  {
    if id >= |q.rows| then q
    else
      var e := q.rows[id];
      var planned := w.interruption(e.window);
      if planned.Some? && planned != Some(ELAPSED) then Queue.Defer(q, id, planned.value, 0)
      else if reason in MINER_FAILURES then
        (if e.status == Running then Withdraw(q, w, id, MINER_FAILURES[reason]) else q)
      else if reason == "InfrastructureError" || reason == "TimeoutError" then
        if planned.Some? then Queue.Defer(q, id, planned.value, 0)
        else Queue.Defer(q, id, reason, Capped(w, retryBlock))
      else if reason == INFRASTRUCTURE_BUDGET then Queue.Defer(q, id, reason, PARKED)
      else
        var counted := if TimedOut(e, reason, planned) then SetRow(q, id, e.(timeouts := e.timeouts + 1)) else q;
        if TimedOut(e, reason, planned) && e.timeouts + 1 >= MAX_TIMEOUT_FAILURES
        then Withdraw(counted, w, id, "retry_limit_exceeded")
        else if reason == ROUND_BUDGET then Queue.Defer(counted, id, reason, PARKED)
        else Queue.Defer(counted, id, if planned.Some? then planned.value else reason,
                         Capped(w, if planned.Some? then 0 else retryBlock))
  }
}
