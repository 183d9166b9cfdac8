/**
 The tables of the dispatch queue and what each transition does to them. A row is the
 one challenge of a hotkey; rows are never deleted and their ids count up from 0.
 */
module Queue {
  import opened Common
  import Ordering
  import opened Wire
  import opened Decide
  import LedgerSpec
  import RoundRobin
  import Turns

  type Owner = string

  datatype Status = Queued | Running | Failed | Done | Rejected | Excluded | Withdrawn | Reset

  datatype Entry = Entry(hotkey: Hotkey, value: string, block: nat, owner: Owner, uid: nat, model: ModelId,
                         status: Status, reason: Option<string>, window: Option<nat>, retryBlock: nat, attempts: nat,
                         result: Option<string>, removedBlock: nat, readmission: Option<nat>, timeouts: nat)

  datatype Generation = Generation(window: nat, block: nat)

  datatype Tables = Tables(rows: seq<Entry>, turns: Turns.Table, reset: Option<Generation>, archive: map<nat, Entry>)

  const EMPTY_QUEUE: Tables := Tables([], map[], None, map[])

  /** `status IN ('queued','running','failed')` */
  predicate Live(e: Entry) { e.status == Queued || e.status == Running || e.status == Failed }

  predicate Terminal(s: Status) { s == Done || s == Rejected }

  function SetRow(q: Tables, id: nat, e: Entry): Tables
    requires id < |q.rows|
  {
    q.(rows := q.rows[id := e])
  }

  // ---------------------------------------------------------------- admission generation

  function Outdated(rows: seq<Entry>, block: nat): (r: seq<Entry>)
    ensures |r| == |rows|
    ensures forall i :: 0 <= i < |r| ==> r[i] == if rows[i].block < block then rows[i].(status := Reset) else rows[i]
  {
    if rows == [] then []
    else
      var last := rows[|rows| - 1];
      Outdated(rows[..|rows| - 1], block) + [if last.block < block then last.(status := Reset) else last]
  }

  function ArchiveOf(rows: seq<Entry>, block: nat): map<nat, Entry>
  {
    map i | 0 <= i < |rows| && rows[i].block < block :: rows[i]
  }

  /** The tables while the first `i` rows have been looked at. */
  function ResetFirst(q: Tables, block: nat, i: nat): Tables
    requires i <= |q.rows|
  {
    q.(rows := Outdated(q.rows[..i], block) + q.rows[i..], archive := q.archive + ArchiveOf(q.rows[..i], block))
  }

  lemma ResetNone(q: Tables, block: nat)
    ensures ResetFirst(q, block, 0) == q
  {
    assert q.rows[0..] == q.rows && ArchiveOf(q.rows[..0], block) == map[];
  }

  lemma ResetAll(q: Tables, block: nat)
    ensures ResetFirst(q, block, |q.rows|) == q.(rows := Outdated(q.rows, block),
      archive := q.archive + ArchiveOf(q.rows, block))
  {
    assert q.rows[..|q.rows|] == q.rows;
  }

  lemma ResetNext(q: Tables, block: nat, i: nat)
    requires i < |q.rows|
    ensures var now, row := ResetFirst(q, block, i), q.rows[i];
      && i < |now.rows| && now.rows[i] == row
      && ResetFirst(q, block, i + 1) ==
         if row.block < block then SetRow(now, i, row.(status := Reset)).(archive := now.archive[i := row]) else now
  {
    OutdatedNext(q.rows, block, i);
    ArchiveNext(q.archive, q.rows, block, i);
    hide Outdated, ArchiveOf;
  }

  lemma OutdatedNext(rows: seq<Entry>, block: nat, i: nat)
    requires i < |rows|
    ensures var now, row := Outdated(rows[..i], block) + rows[i..], rows[i];
      && |now| == |rows| && now[i] == row
      && Outdated(rows[..i + 1], block) + rows[i + 1..] == if row.block < block then now[i := row.(status := Reset)]
        else now
  {
    hide Outdated;
  }

  lemma ArchiveNext(archive: map<nat, Entry>, rows: seq<Entry>, block: nat, i: nat)
    requires i < |rows|
    ensures archive + ArchiveOf(rows[..i + 1], block)
         == if rows[i].block < block then (archive + ArchiveOf(rows[..i], block))[i := rows[i]]
           else archive + ArchiveOf(rows[..i], block)
  {
    assert forall j :: 0 <= j < i ==> rows[..i + 1][j] == rows[..i][j];
  }

  function ApplyReset(q: Tables, reset: Option<Generation>): Try<Tables>
  {
    if reset == None then Ok(q)
    else if q.reset.Some? then if q.reset == reset then Ok(q) else Err("hotkey_reset_changed")
    else Ok(q.(rows := Outdated(q.rows, reset.value.block), reset := reset,
               archive := q.archive + ArchiveOf(q.rows, reset.value.block)))
  }

  // ---------------------------------------------------------------- arrivals

  /** The hotkey already has its one challenge. */
  predicate Bound(q: Tables, hotkey: Hotkey)
  {
    exists e :: e in q.rows && e.hotkey == hotkey && (Live(e) || Terminal(e.status))
  }

  predicate SameCommitment(q: Tables, row: Row)
  {
    exists e :: e in q.rows && e.hotkey == row.hotkey && e.value == row.value && e.block == row.block
  }

  /** What finalized ownership tells about a hotkey. */
  datatype Registry = Registry(hotkeys: set<Hotkey>, coldkeys: map<Hotkey, Owner>, uids: map<Hotkey, nat>,
                               challenge: (Hotkey, seq<byte>) -> ModelId)

  predicate Admitted(q: Tables, g: Registry, row: Row)
  {
    && row.hotkey in g.hotkeys && (q.reset.Some? ==> row.block >= q.reset.value.block)
    && LedgerSpec.ParseSubmission(row.value).Ok? && !Bound(q, row.hotkey)
    && row.hotkey in g.coldkeys && row.hotkey in g.uids
  }

  function NewEntry(g: Registry, row: Row): Entry
    requires row.hotkey in g.coldkeys && row.hotkey in g.uids && LedgerSpec.ParseSubmission(row.value).Ok?
  {
    Entry(row.hotkey, row.value, row.block, g.coldkeys[row.hotkey], g.uids[row.hotkey],
          g.challenge(row.hotkey, LedgerSpec.ParseSubmission(row.value).value),
          Queued, None, None, 0, 0, None, 0, None, 0)
  }

  function ObserveRow(q: Tables, g: Registry, row: Row): Tables
  {
    if !Admitted(q, g, row) then q
    else
      q.(turns := Turns.Enter(q.turns, g.coldkeys[row.hotkey]),
         rows := if SameCommitment(q, row) then q.rows else q.rows + [NewEntry(g, row)])
  }

  function ObserveRows(q: Tables, g: Registry, rows: seq<Row>): Tables
  {
    if rows == [] then q else ObserveRow(ObserveRows(q, g, rows[..|rows| - 1]), g, rows[|rows| - 1])
  }

  predicate ArrivalLeq(a: Row, b: Row)
  {
    a.block < b.block || (a.block == b.block && Ordering.Leq(a.hotkey, b.hotkey))
  }

  function InsertArrival(x: Row, rows: seq<Row>): (r: seq<Row>)
    ensures forall y :: y in r <==> y == x || y in rows
  {
    if rows == [] || ArrivalLeq(x, rows[0]) then [x] + rows
    else
      assert rows == [rows[0]] + rows[1..];
      [rows[0]] + InsertArrival(x, rows[1..])
  }

  /** `sorted(rows, key=(block, hotkey))`, stable. */
  function Arrivals(rows: seq<Row>): (r: seq<Row>)
    ensures forall y :: y in r <==> y in rows
  {
    if rows == [] then []
    else
      assert rows == [rows[0]] + rows[1..];
      InsertArrival(rows[0], Arrivals(rows[1..]))
  }

  // ---------------------------------------------------------------- the life of a row

  function Start(q: Tables, id: nat, window: Option<nat>): Try<Tables>
  {
    if id >= |q.rows| || Terminal(q.rows[id].status) || q.rows[id].status == Reset then Err("hotkey_already_consumed")
    else
      var e := q.rows[id];
      Ok(SetRow(q, id, e.(status := Running, window := window, attempts := e.attempts + 1))
         .(turns := Turns.Serve(q.turns, e.owner)))
  }

  function Defer(q: Tables, id: nat, reason: string, retryBlock: nat): Tables
  {
    if id < |q.rows| && q.rows[id].status == Running
    then SetRow(q, id, q.rows[id].(status := Queued, reason := Some(reason), retryBlock := retryBlock))
    else q
  }

  function Finish(q: Tables, id: nat, status: Status, reason: Option<string>, result: Option<string>): Try<Tables>
  {
    if !Terminal(status) then Err("use_defer_for_infrastructure_failures")
    else if id < |q.rows| && !Terminal(q.rows[id].status) && q.rows[id].status != Reset
    then Ok(SetRow(q, id, q.rows[id].(status := status, reason := reason, result := result)))
    else Ok(q)
  }

  /** The live row of a hotkey, or the number of rows. */
  function LiveRow(rows: seq<Entry>, hotkey: Hotkey): (i: nat)
    ensures i <= |rows|
    ensures i < |rows| ==> Live(rows[i]) && rows[i].hotkey == hotkey
    ensures i == |rows| ==> forall e :: e in rows && e.hotkey == hotkey ==> !Live(e)
  {
    if rows == [] then 0
    else if Live(rows[0]) && rows[0].hotkey == hotkey then 0
    else
      assert rows == [rows[0]] + rows[1..];
      1 + LiveRow(rows[1..], hotkey)
  }

  function Reconcile(q: Tables, hotkey: Hotkey, result: Option<string>, window: nat, rejected: bool): Tables
  {
    var id := LiveRow(q.rows, hotkey);
    if id == |q.rows| then q
    else
      SetRow(q, id, q.rows[id].(window := Some(window), status := if rejected then Rejected else Done,
                                reason := Some("finalized_on_chain"), result := result))
  }

  // ---------------------------------------------------------------- dispatch order

  function Since(e: Entry): nat { if e.readmission.Some? then e.readmission.value else e.block }

  predicate Waiting(q: Tables, id: nat, before: nat)
  {
    id < |q.rows| && Live(q.rows[id]) && q.rows[id].owner in q.turns && Since(q.rows[id]) < before
  }

  predicate DispatchLeq(q: Tables, i: nat, j: nat)
    requires i < |q.rows| && j < |q.rows| && q.rows[i].owner in q.turns && q.rows[j].owner in q.turns
  {
    var x, y := q.rows[i], q.rows[j];
    q.turns[x.owner] < q.turns[y.owner] ||
    (q.turns[x.owner] == q.turns[y.owner] &&
     (Since(x) < Since(y) || (Since(x) == Since(y) && Ordering.Leq(x.hotkey, y.hotkey))))
  }

  ghost predicate AllWaiting(q: Tables, ids: seq<nat>, before: nat)
  {
    forall id :: id in ids ==> Waiting(q, id, before)
  }

  function InsertId(q: Tables, before: nat, x: nat, ids: seq<nat>): (r: seq<nat>)
    requires Waiting(q, x, before) && AllWaiting(q, ids, before)
    ensures forall y :: y in r <==> y == x || y in ids
  {
    assert ids != [] ==> ids[0] in ids;
    if ids == [] || DispatchLeq(q, x, ids[0]) then [x] + ids
    else
      assert ids == [ids[0]] + ids[1..];
      [ids[0]] + InsertId(q, before, x, ids[1..])
  }

  /** The rows waiting below a block, by turn of the owner, then age, then hotkey. */
  function WaitingIds(q: Tables, before: nat, n: nat): (r: seq<nat>)
    requires n <= |q.rows|
    ensures forall id: nat :: id in r <==> id < n && Waiting(q, id, before)
  {
    if n == 0 then []
    else
      var rest := WaitingIds(q, before, n - 1);
      if Waiting(q, n - 1, before) then InsertId(q, before, n - 1, rest) else rest
  }

  lemma {:induction false} InsertDistinct(q: Tables, before: nat, x: nat, ids: seq<nat>)
    requires Waiting(q, x, before) && AllWaiting(q, ids, before) && RoundRobin.Distinct(ids) && x !in ids
    ensures RoundRobin.Distinct(InsertId(q, before, x, ids))
    decreases |ids|
  {
    if ids != [] && !(ids[0] in ids && DispatchLeq(q, x, ids[0])) {
      InsertDistinct(q, before, x, ids[1..]);
      var rest := InsertId(q, before, x, ids[1..]);
      forall i | 0 <= i < |rest|
        ensures rest[i] != ids[0]
      {
        assert rest[i] in rest;
      }
    }
  }

  /** No row waits twice. */
  lemma {:induction false} WaitingDistinct(q: Tables, before: nat, n: nat)
    requires n <= |q.rows|
    ensures RoundRobin.Distinct(WaitingIds(q, before, n))
    decreases n
  {
    if n > 0 {
      WaitingDistinct(q, before, n - 1);
      if Waiting(q, n - 1, before) {
        InsertDistinct(q, before, n - 1, WaitingIds(q, before, n - 1));
      }
    }
  }

  function OwnerOf(q: Tables): nat -> Owner { (id: nat) => if id < |q.rows| then q.rows[id].owner else "" }

  /** An owner whose first row must wait holds back all of its rows. */
  function ReadyGroups(q: Tables, groups: seq<RoundRobin.Group<nat>>, current: nat): (r: seq<RoundRobin.Group<nat>>)
    requires RoundRobin.Occupied(groups)
    ensures RoundRobin.Occupied(r)
    ensures forall g :: g in r <==> g in groups && HeadReady(q, g, current)
  {
    if groups == [] then []
    else
      var front, last := ReadyGroups(q, groups[..|groups| - 1], current), groups[|groups| - 1];
      if HeadReady(q, last, current) then front + [last] else front
  }

  predicate HeadReady(q: Tables, g: RoundRobin.Group<nat>, current: nat)
  {
    g.items != [] && g.items[0] < |q.rows| && q.rows[g.items[0]].retryBlock <= current
  }

  function ReadyByOwner(q: Tables, before: nat, current: nat): (r: seq<RoundRobin.Group<nat>>)
    ensures RoundRobin.Occupied(r)
  {
    ReadyGroups(q, RoundRobin.Grouped(WaitingIds(q, before, |q.rows|), OwnerOf(q)), current)
  }

  /** The actual fair dispatch order. */
  function Pending(q: Tables, count: nat, before: nat, current: nat): seq<nat>
  {
    RoundRobin.Take(RoundRobin.Rounds(ReadyByOwner(q, before, current)), Some(count))
  }
}
