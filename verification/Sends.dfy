/**
 The weight-send record of a validator: written before a send is handed to the writer
 thread, so that a crash or a lost receipt does not lead to a second send by itself.
 Every write of a status file may fail, before or after it has replaced the file.
 */
module Sends {
  import opened Common

  datatype Status = Submitting | Unknown | Submitted | Rejected | Applied

  datatype Vector = Vector(uids: seq<nat>, weights: seq<real>)

  /** `weight-send.json` */
  datatype Send = Send(block: nat, vector: Vector, status: Status)

  /** `last-weights.json` */
  datatype Last = Last(block: nat, vector: Vector)

  datatype Operation = Weights(block: nat, vector: Vector) | Commitment(block: nat)

  /** What is on disk, and the one operation the process has in flight. */
  datatype State = State(record: Option<Send>, last: Option<Last>, running: Option<Operation>)

  /** What the future of the running operation says when it is looked at. */
  datatype Outcome = StillRunning | Accepted | Refused | Raised

  /** A private write that is not `Done` raises: before the file is replaced, or when its directory is synced. */
  datatype Write = Done | FailedBefore | FailedAfter
  {
    predicate Persisted() { this != FailedBefore }
  }

  /** How each write of one step ends. */
  datatype Disk = Disk(receipt: Write, receiptLast: Write, fallback: Write, applied: Write, appliedLast: Write,
                       submitting: Write)

  /** `submit` returns the future, or raises when no thread starts although the work is already queued. */
  datatype HandOver = Tracked | Orphaned

  /** The chain and the process as one step sees them; `shows` compares the applied weights with a vector. */
  datatype World = World(block: nat, vector: Vector, shows: Vector -> bool, lastUpdate: Option<nat>,
                         rateLimit: nat, tempo: nat, caughtUp: bool, signing: bool, permitted: bool, allowed: bool,
                         evaluating: bool, quiet: bool, handOver: HandOver, disk: Disk)

  const REJECTED_WAIT: nat := 5

  const FRESH: State := State(None, None, None)

  const SOUND_DISK: Disk := Disk(Done, Done, Done, Done, Done, Done)

  // ---------------------------------------------------------------- completion

  /** A new process finds the disk and nothing in flight. A start that fails is no process and takes no step. */
  function Restart(s: State): State
  {
    var interrupted := s.record.Some? && s.record.value.status == Submitting;
    State(if interrupted then Some(s.record.value.(status := Unknown)) else s.record, s.last, None)
  }

  function Written(record: Option<Send>, send: Send, w: Write): Option<Send>
  {
    if w.Persisted() then Some(send) else record
  }

  /** The record and the last weights before an exception is handled. */
  function Receipt(s: State, outcome: Outcome, d: Disk): State
    requires s.running.Some? && s.running.value.Weights?
  {
    var status := if outcome == Accepted then Submitted else Rejected;
    var send := Send(s.running.value.block, s.running.value.vector, status);
    if outcome == Raised then s
    else
      var t := s.(record := Written(s.record, send, d.receipt));
      if outcome == Accepted && d.receipt == Done && d.receiptLast.Persisted()
      then t.(last := Some(Last(send.block, send.vector))) else t
  }

  /** Whether recording the receipt ends in the exception handler. */
  predicate Handled(s: State, outcome: Outcome, d: Disk)
    requires s.running.Some?
  {
    outcome == Raised ||
    (s.running.value.Weights? && (d.receipt != Done || (outcome == Accepted && d.receiptLast != Done)))
  }

  predicate Finished(s: State, outcome: Outcome) { s.running.Some? && outcome != StillRunning }

  function Complete(s: State, outcome: Outcome, d: Disk): State
  {
    if !Finished(s, outcome) then s
    else if s.running.value.Commitment? then s.(running := None)
    else
      var t, o := Receipt(s, outcome, d), s.running.value;
      State(if Handled(s, outcome, d)
            then Written(t.record, Send(o.block, o.vector, Unknown), d.fallback) else t.record,
            t.last, None)
  }

  /** The exception handler itself raises, which ends the step. */
  predicate CompletionRaises(s: State, outcome: Outcome, d: Disk)
  {
    Finished(s, outcome) && Handled(s, outcome, d) && d.fallback != Done
  }

  // ---------------------------------------------------------------- the decision to send

  /** A send of unknown or submitted status that the chain shows as applied. */
  predicate Observed(s: State, w: World)
  {
    && s.record.Some? && (s.record.value.status == Unknown || s.record.value.status == Submitted)
    && w.shows(s.record.value.vector)
    && (if w.lastUpdate.Some? then w.lastUpdate.value else w.block) >= s.record.value.block
  }

  function Reconciled(s: State, w: World): State
  {
    if !Observed(s, w) then s
    else
      var send := s.record.value.(status := Applied);
      var t := s.(record := Written(s.record, send, w.disk.applied));
      if w.disk.applied == Done && w.disk.appliedLast.Persisted()
      then t.(last := Some(Last(send.block, send.vector))) else t
  }

  predicate ReconcilingRaises(s: State, w: World)
  {
    Observed(s, w) && (w.disk.applied != Done || w.disk.appliedLast != Done)
  }

  predicate Due(s: State, w: World)
  {
    var lastBlock := if s.last.Some? then s.last.value.block else 0;
    var lastChain := if w.lastUpdate.Some? then w.lastUpdate.value else 0;
    if s.record.Some? && (s.record.value.status == Unknown || s.record.value.status == Submitted) then false
    else if s.record.Some? && s.record.value.status == Rejected && w.block as int - s.record.value.block < REJECTED_WAIT
    then false
    else if w.block as int - MaxInt(lastBlock, lastChain) < w.rateLimit then false
    else s.last == None || s.last.value.vector != w.vector || w.block as int - lastBlock >= w.tempo
  }

  /** Looking at the record happens only with a vector to sign and nothing in flight. */
  predicate Looks(s: State, w: World) { w.caughtUp && s.running == None && w.signing }

  predicate Wants(s: State, w: World) { Looks(s, w) && Due(s, w) && w.permitted }

  /** A send reaches the queue of the writer, tracked or not. */
  predicate Sends(s: State, w: World) { Wants(s, w) && w.allowed && w.disk.submitting == Done }

  /** The record of a new send, and its future when the hand-over returned one. */
  function HandedOver(s: State, w: World): State
  {
    s.(record := Written(s.record, Send(w.block, w.vector, Submitting), w.disk.submitting),
       running := if w.disk.submitting == Done && w.handOver == Tracked then Some(Weights(w.block, w.vector)) else None)
  }

  function Stepped(s: State, w: World): State
  {
    if Wants(s, w) then (if w.allowed then HandedOver(s, w) else s)
    else
      var t := if Looks(s, w) then Reconciled(s, w) else s;
      if (Looks(s, w) && ReconcilingRaises(s, w)) || !w.caughtUp || s.running.Some? || !w.evaluating || !w.quiet then t
      else t.(running := if w.handOver == Tracked then Some(Commitment(w.block)) else None)
  }

  // ---------------------------------------------------------------- the validator

  class Validator {
    var record: Option<Send>
    var last: Option<Last>
    var running: Option<Operation>

    ghost function Now(): State
      reads this
    {
      State(record, last, running)
    }

    constructor (record: Option<Send>, last: Option<Last>)
      ensures forall lost :: Now() == Restart(State(record, last, lost))
    {
      this.record, this.last, running := record, last, None;
      if record.Some? && record.value.status == Submitting {
        this.record := Some(record.value.(status := Unknown));
      }
    }

    method WriteRecord(send: Send, w: Write) returns (ok: bool)
      modifies this`record
      ensures record == Written(old(record), send, w) && ok == (w == Done)
    {
      if w.Persisted() {
        record := Some(send);
      }
      return w == Done;
    }

    method WriteLast(newest: Last, w: Write) returns (ok: bool)
      modifies this`last
      ensures last == (if w.Persisted() then Some(newest) else old(last)) && ok == (w == Done)
    {
      if w.Persisted() {
        last := Some(newest);
      }
      return w == Done;
    }

    /** Record the receipt of a finished operation, or that its outcome is unknown. */
    method CompleteWrite(outcome: Outcome, d: Disk) returns (r: Try<()>)
      modifies this
      ensures Now() == Complete(old(Now()), outcome, d)
      ensures r.Err? <==> CompletionRaises(old(Now()), outcome, d)
    {
      if running == None || outcome == StillRunning {
        return Ok(());
      }
      var operation := running.value;
      var fine := outcome != Raised;
      if fine && operation.Weights? {
        var status := if outcome == Accepted then Submitted else Rejected;
        fine := WriteRecord(Send(operation.block, operation.vector, status), d.receipt);
        if fine && outcome == Accepted {
          fine := WriteLast(Last(operation.block, operation.vector), d.receiptLast);
        }
      }
      r := Ok(());
      if !fine {
        var noted := d.fallback == Done;
        if operation.Weights? {
          noted := WriteRecord(Send(operation.block, operation.vector, Unknown), d.fallback);
        }
        if !noted {
          r := Err("OSError");
        }
      }
      running := None;
    }

    /** Whether to sign; an observed earlier send is recorded as applied on the way. */
    method IsDue(w: World) returns (r: Try<bool>)
      modifies this`record, this`last
      ensures Now() == Reconciled(old(Now()), w)
      ensures if ReconcilingRaises(old(Now()), w) then r.Err? else r == Ok(Due(old(Now()), w))
    {
      if record.Some? && (record.value.status == Unknown || record.value.status == Submitted) {
        var state := record.value;
        if w.shows(state.vector) && (if w.lastUpdate.Some? then w.lastUpdate.value else w.block) >= state.block {
          var fine := WriteRecord(state.(status := Applied), w.disk.applied);
          if fine {
            fine := WriteLast(Last(state.block, state.vector), w.disk.appliedLast);
          }
          if !fine {
            return Err("OSError");
          }
        }
        return Ok(false);
      }
      if record.Some? && record.value.status == Rejected && w.block as int - record.value.block < REJECTED_WAIT {
        return Ok(false);
      }
      var lastBlock := if last.Some? then last.value.block else 0;
      var lastChain := if w.lastUpdate.Some? then w.lastUpdate.value else 0;
      if w.block as int - MaxInt(lastBlock, lastChain) < w.rateLimit {
        return Ok(false);
      }
      return Ok(last == None || last.value.vector != w.vector || w.block as int - lastBlock >= w.tempo);
    }

    /** One step after the ledger has caught up; an error leaves what was already written. */
    method Step(outcome: Outcome, w: World) returns (r: Try<bool>)
      modifies this
      ensures Now() == Apply(old(Now()), Stepping(outcome, w))
      ensures r == Ok(true) <==> Dispatches(old(Now()), Stepping(outcome, w)) && w.handOver == Tracked
    {
      var completed := CompleteWrite(outcome, w.disk);
      if completed.Err? {
        return Err(completed.error);
      }
      if !w.caughtUp || running.Some? {
        return Ok(false);
      }
      var due := Ok(false);
      if w.signing {
        due := IsDue(w);
      }
      if due.Err? {
        return due;
      }
      if due.value && w.permitted {
        if !w.allowed {
          return Err("chain_disallows_burn_allocation");
        }
        var recorded := WriteRecord(Send(w.block, w.vector, Submitting), w.disk.submitting);
        if !recorded {
          return Err("OSError");
        }
        if w.handOver == Orphaned {
          return Err("can't start new thread");
        }
        running := Some(Weights(w.block, w.vector));
        return Ok(true);
      }
      if w.evaluating && w.quiet {
        if w.handOver == Orphaned {
          return Err("can't start new thread");
        }
        running := Some(Commitment(w.block));
      }
      return Ok(false);
    }
  }

  // ---------------------------------------------------------------- no duplicate send

  /** The process steps, or is killed at any moment and started again. */
  datatype Event = Stepping(outcome: Outcome, world: World) | Restarting

  function Apply(s: State, e: Event): State
  {
    match e
    case Restarting => Restart(s)
    case Stepping(outcome, w) =>
      var t := Complete(s, outcome, w.disk);
      if CompletionRaises(s, outcome, w.disk) then t else Stepped(t, w)
  }

  function Run(events: seq<Event>): State
  {
    if events == [] then FRESH else Apply(Run(events[..|events| - 1]), events[|events| - 1])
  }

  /** The step gets past its completion, in state `Complete(...)`. */
  predicate Proceeds(s: State, e: Event) { e.Stepping? && !CompletionRaises(s, e.outcome, e.world.disk) }

  /** The event hands a send to the writer. */
  predicate Dispatches(s: State, e: Event)
  {
    Proceeds(s, e) && Sends(Complete(s, e.outcome, e.world.disk), e.world)
  }

  /** The send of block `b` is observed as applied, or known as rejected with the waiting time over. */
  predicate Clears(s: State, e: Event, b: nat)
  {
    Proceeds(s, e) &&
    var t := Complete(s, e.outcome, e.world.disk);
    && t.record.Some? && t.record.value.block == b
    && ((Looks(t, e.world) && Observed(t, e.world))
        || (t.record.value.status == Rejected && e.world.block >= b + REJECTED_WAIT))
  }

  /** The receipt of a send arrives and neither it nor `unknown` reaches the disk. */
  predicate LosesReceipt(s: State, e: Event)
  {
    && e.Stepping? && Finished(s, e.outcome) && s.running.value.Weights?
    && (e.outcome == Raised || e.world.disk.receipt == FailedBefore) && e.world.disk.fallback == FailedBefore
  }

  /** The send is queued, and the exception hides its future. */
  predicate LosesFuture(s: State, e: Event) { Dispatches(s, e) && e.world.handOver == Orphaned }

  predicate Loses(s: State, e: Event) { LosesReceipt(s, e) || LosesFuture(s, e) }

  /** The record of an unresolved send blocks the next one, in memory or on disk. */
  ghost predicate Guarded(s: State, b: nat)
  {
    && s.record.Some? && s.record.value.block == b
    && match s.record.value.status
       case Submitting => s.running == Some(Weights(b, s.record.value.vector))
       case Applied => false
       case _ => s.running == None || s.running.value.Commitment?
  }

  lemma DispatchGuards(s: State, e: Event)
    requires Dispatches(s, e) && !LosesFuture(s, e)
    ensures Guarded(Apply(s, e), e.world.block)
  {
  }

  lemma GuardHolds(s: State, e: Event, b: nat)
    requires Guarded(s, b) && !Clears(s, e, b)
    ensures !Dispatches(s, e)
    ensures !LosesReceipt(s, e) ==> Guarded(Apply(s, e), b)
  {
  }

  /** The receipt of a send arrived, it was refused, and the refusal reached the disk. */
  ghost predicate RefusalRecorded(events: seq<Event>, l: nat)
  {
    && l < |events| && events[l].Stepping? && events[l].outcome == Refused
    && Run(events[..l]).running.Some? && Run(events[..l]).running.value.Weights?
    && var d := events[l].world.disk; d.receipt == Done || (d.receipt == FailedAfter && d.fallback == FailedBefore)
  }

  /** Some receipt since the send at `i` was a refusal. */
  ghost predicate RefusedSince(events: seq<Event>, i: nat, k: nat)
  {
    exists l :: i < l <= k && RefusalRecorded(events, l)
  }

  /** The chain shows the weights that were sent, set at the block of the send or later. */
  predicate ShownBy(sent: World, w: World)
  {
    w.shows(sent.vector) && (if w.lastUpdate.Some? then w.lastUpdate.value else w.block) >= sent.block
  }

  /**
   Event `k` settles the send at `i`: the chain shows its weights to a step that looks, or its receipt
   was a refusal and at least five blocks have gone by.
   */
  ghost predicate Settles(events: seq<Event>, i: nat, k: nat)
    requires i < k < |events| && events[i].Stepping?
  {
    var sent, e := events[i].world, events[k];
    && Proceeds(Run(events[..k]), e)
    && if RefusedSince(events, i, k) then e.world.block >= sent.block + 5
       else && e.world.caughtUp && e.world.signing
            && (Run(events[..k]).running == None || e.outcome != StillRunning)
            && ShownBy(sent, e.world)
  }

  /** Nothing of the send at `i` is lost or settled before `m`. */
  ghost predicate Unresolved(events: seq<Event>, i: nat, m: nat)
  {
    && i < m <= |events| && Dispatches(Run(events[..i]), events[i])
    && (forall k :: i <= k < m ==> !Loses(Run(events[..k]), events[k]))
    && (forall k :: i < k < m ==> !Settles(events, i, k))
  }

  /** The guard of a send, its weights, and why its record may say rejected. */
  ghost predicate Explained(events: seq<Event>, i: nat, m: nat)
    requires i < m <= |events| && events[i].Stepping?
  {
    var s := Run(events[..m]);
    && Guarded(s, events[i].world.block) && s.record.value.vector == events[i].world.vector
    && (s.record.value.status == Rejected <==> RefusedSince(events, i, m - 1))
  }

  /** The event records the refusal of the send in flight. */
  predicate Refuses(s: State, e: Event)
  {
    && e.Stepping? && e.outcome == Refused && s.running.Some? && s.running.value.Weights?
    && (e.world.disk.receipt == Done || (e.world.disk.receipt == FailedAfter && e.world.disk.fallback == FailedBefore))
  }

  lemma GuardKeeps(s: State, e: Event, b: nat)
    requires Guarded(s, b) && !Clears(s, e, b) && !LosesReceipt(s, e)
    ensures var t := Apply(s, e);
      && Guarded(t, b) && t.record.value.vector == s.record.value.vector
      && (t.record.value.status == Rejected <==> s.record.value.status == Rejected || Refuses(s, e))
  {
  }

  lemma ClearsMeans(s: State, e: Event, b: nat)
    requires Guarded(s, b) && e.Stepping?
    ensures Clears(s, e, b) <==>
      && Proceeds(s, e)
      && if s.record.value.status == Rejected || Refuses(s, e) then e.world.block >= b + 5
         else && e.world.caughtUp && e.world.signing && (s.running == None || e.outcome != StillRunning)
              && e.world.shows(s.record.value.vector)
              && (if e.world.lastUpdate.Some? then e.world.lastUpdate.value else e.world.block) >= b
  {
  }

  lemma RefusedNext(events: seq<Event>, i: nat, m: nat)
    requires i < m < |events|
    ensures RefusedSince(events, i, m) <==>
      RefusedSince(events, i, m - 1) || Refuses(Run(events[..m]), events[m])
    ensures !RefusedSince(events, i, i)
  {
    hide Run;
    assert RefusalRecorded(events, m) <==> Refuses(Run(events[..m]), events[m]);
  }

  /** What settles a send in the records is what settles it in the events. */
  lemma SettlesIsClears(events: seq<Event>, i: nat, m: nat)
    requires i < m < |events| && events[i].Stepping? && Explained(events, i, m)
    ensures Settles(events, i, m) <==> Clears(Run(events[..m]), events[m], events[i].world.block)
  {
    hide Run, RefusedSince;
    RefusedNext(events, i, m);
    if events[m].Stepping? {
      ClearsMeans(Run(events[..m]), events[m], events[i].world.block);
    }
  }

  lemma SentIsExplained(events: seq<Event>, i: nat)
    requires i < |events| && Dispatches(Run(events[..i]), events[i]) && !Loses(Run(events[..i]), events[i])
    ensures Explained(events, i, i + 1)
  {
    assert events[..i + 1][..i] == events[..i];
    assert Run(events[..i + 1]) == Apply(Run(events[..i]), events[i]);
    hide Run, RefusalRecorded;
    assert !RefusedSince(events, i, i);
    SentRecord(Run(events[..i]), events[i]);
    DispatchGuards(Run(events[..i]), events[i]);
    hide Apply, Dispatches, Guarded;
  }

  lemma SentRecord(s: State, e: Event)
    requires Dispatches(s, e)
    ensures Apply(s, e).record == Some(Send(e.world.block, e.world.vector, Submitting))
  {
  }

  lemma ExplainedStep(events: seq<Event>, i: nat, m: nat)
    requires i < m < |events| && events[i].Stepping? && Explained(events, i, m) && !Settles(events, i, m)
    requires !Loses(Run(events[..m]), events[m])
    ensures Explained(events, i, m + 1)
  {
    assert events[..m + 1][..m] == events[..m];
    assert Run(events[..m + 1]) == Apply(Run(events[..m]), events[m]);
    SettlesIsClears(events, i, m);
    RefusedNext(events, i, m);
    hide Run, RefusedSince, Apply, Clears, Guarded, Refuses;
    GuardKeeps(Run(events[..m]), events[m], events[i].world.block);
  }

  lemma {:induction false} StillExplained(events: seq<Event>, i: nat, m: nat)
    requires Unresolved(events, i, m)
    ensures Explained(events, i, m)
    decreases m
  {
    assert events[i].Stepping?;
    hide Settles, Explained, Loses, Dispatches, Run;
    if m == i + 1 {
      SentIsExplained(events, i);
    } else {
      StillExplained(events, i, m - 1);
      ExplainedStep(events, i, m - 1);
    }
  }

  lemma GuardedUntilCleared(events: seq<Event>, i: nat, m: nat)
    requires Unresolved(events, i, m)
    ensures Guarded(Run(events[..m]), events[i].world.block)
    ensures Run(events[..m]).record.value.vector == events[i].world.vector
  {
    StillExplained(events, i, m);
    hide Guarded;
  }

  /**
   Over every interleaving of steps, completions and restarts, and whatever writes fail: between two
   sends the first one is seen on the chain, or its receipt was a refusal and at least five blocks have
   gone by, unless its future or the record of its receipt was lost.
   */
  lemma NoDuplicateSend(events: seq<Event>, i: nat, j: nat)
    requires i < j < |events| && Dispatches(Run(events[..i]), events[i]) && Dispatches(Run(events[..j]), events[j])
    requires forall k :: i <= k < j ==> !Loses(Run(events[..k]), events[k])
    ensures exists k :: i < k <= j && Settles(events, i, k)
  {
    var b := events[i].world.block;
    hide Clears, Dispatches, Guarded, Run, Loses, Settles;
    if forall k :: i < k < j ==> !Settles(events, i, k) {
      StillExplained(events, i, j);
      SettlesIsClears(events, i, j);
      if !Settles(events, i, j) {
        GuardHolds(Run(events[..j]), events[j], b);
      }
    }
  }

  /** An accepted send is followed by no second one before the chain shows it. */
  lemma AcceptedIsShownFirst(events: seq<Event>, i: nat, j: nat)
    requires i < j < |events| && Dispatches(Run(events[..i]), events[i]) && Dispatches(Run(events[..j]), events[j])
    requires forall k :: i <= k < j ==> !Loses(Run(events[..k]), events[k])
    requires forall l :: i < l <= j ==> events[l].Stepping? ==> events[l].outcome != Refused
    ensures exists k :: i < k <= j && events[k].Stepping? && ShownBy(events[i].world, events[k].world)
  {
    NoDuplicateSend(events, i, j);
    hide Dispatches, Run, Loses, Proceeds;
    var k :| i < k <= j && Settles(events, i, k);
    assert !RefusedSince(events, i, k);
  }

  /** Some next event sends although the send of block `b` is not cleared. */
  ghost predicate Reopened(s: State, b: nat) { exists next :: Dispatches(s, next) && !Clears(s, next, b) }

  /** A record that says submitting with nothing in flight does not block the next step. */
  lemma UnguardedReopens(s: State, b: nat, v: Vector)
    requires s.record.Some? && s.record.value.status == Submitting && s.running == None
    ensures Reopened(s, b)
  {
    var last := if s.last.Some? then s.last.value.block else 0;
    var w := World(last, v, (x: Vector) => false, None, 0, 0, true, true, true, true, false, false, Tracked,
      SOUND_DISK);
    assert Dispatches(s, Stepping(StillRunning, w)) && !Clears(s, Stepping(StillRunning, w), b);
  }

  lemma LossReopens(s: State, e: Event, b: nat)
    requires LosesFuture(s, e) || (Guarded(s, b) && LosesReceipt(s, e))
    ensures Reopened(Apply(s, e), b)
  {
    var t := Apply(s, e);
    assert t.record.Some? && t.record.value.status == Submitting && t.running == None;
    UnguardedReopens(t, b, t.record.value.vector);
  }

  lemma GuardBlocks(s: State, b: nat)
    requires Guarded(s, b)
    ensures !Reopened(s, b)
  {
    forall next | Dispatches(s, next)
      ensures Clears(s, next, b)
    {
      if !Clears(s, next, b) {
        GuardHolds(s, next, b);
      }
    }
  }

  /** A second send is possible right after one exactly when the first lost its future. */
  lemma SendingStep(s: State, e: Event)
    requires Dispatches(s, e)
    ensures Reopened(Apply(s, e), e.world.block) <==> Loses(s, e)
  {
    hide Reopened, Apply, Guarded;
    SendingLosesNoReceipt(s, e);
    if LosesFuture(s, e) {
      LossReopens(s, e, e.world.block);
    } else {
      DispatchGuards(s, e);
      GuardBlocks(Apply(s, e), e.world.block);
    }
  }

  /** An event after it that does not clear the send. */
  lemma LastStep(s: State, e: Event, b: nat)
    requires Guarded(s, b) && !Clears(s, e, b)
    ensures Reopened(Apply(s, e), b) <==> Loses(s, e)
  {
    hide Reopened, Apply, Guarded, Clears, Dispatches, LosesReceipt;
    GuardHolds(s, e, b);
    if LosesReceipt(s, e) {
      LossReopens(s, e, b);
    } else {
      GuardBlocks(Apply(s, e), b);
    }
  }

  /**
   The exact condition, in every run: while a send is unresolved and nothing of it is lost, the next
   event makes an unsettled second send possible exactly when it loses the receipt.
   */
  lemma ReopenedExactlyByALoss(events: seq<Event>, i: nat, e: Event)
    requires i < |events| && Unresolved(events, i, |events|) && !Settles(events + [e], i, |events|)
    ensures Reopened(Apply(Run(events), e), events[i].world.block) <==> Loses(Run(events), e)
  {
    assert events[..|events|] == events;
    GuardedUntilCleared(events, i, |events|);
    LastSettles(events, i, e);
    hide *;
    LastStep(Run(events), e, events[i].world.block);
  }

  lemma LastSettles(events: seq<Event>, i: nat, e: Event)
    requires i < |events| && Unresolved(events, i, |events|)
    ensures Settles(events + [e], i, |events|) <==> Clears(Run(events), e, events[i].world.block)
  {
    var n, more := |events|, events + [e];
    assert more[..n] == events && events[..n] == events;
    StillExplained(events, i, n);
    SameStates(events, e);
    hide Run, Settles, Clears, Loses, Dispatches, Guarded;
    RefusedAlike(events, i, e);
    hide RefusedSince;
    SettlesIsClears(more, i, n);
  }

  lemma SameStates(events: seq<Event>, e: Event)
    ensures forall k :: 0 <= k <= |events| ==> (events + [e])[..k] == events[..k]
  {
  }

  lemma RefusedAlike(events: seq<Event>, i: nat, e: Event)
    requires i < |events|
    ensures RefusedSince(events + [e], i, |events| - 1) <==> RefusedSince(events, i, |events| - 1)
  {
    SameStates(events, e);
    hide Run;
    assert forall l :: 0 <= l < |events| ==> (RefusalRecorded(events + [e], l) <==> RefusalRecorded(events, l));
    hide RefusalRecorded;
  }

  /** A step that sends has recorded the receipt before it, if there was one. */
  lemma SendingLosesNoReceipt(s: State, e: Event)
    requires Dispatches(s, e)
    ensures !LosesReceipt(s, e)
  {
  }

  // ---------------------------------------------------------------- what the record says

  /** The receipt of a send of these weights came back with this outcome. */
  ghost predicate Answered(events: seq<Event>, b: nat, v: Vector, outcome: Outcome)
  {
    exists k :: 0 <= k < |events| && AnsweredAt(events, k, b, v, outcome)
  }

  ghost predicate AnsweredAt(events: seq<Event>, k: nat, b: nat, v: Vector, outcome: Outcome)
    requires k < |events|
  {
    && events[k].Stepping? && events[k].outcome == outcome
    && Run(events[..k]).running == Some(Weights(b, v))
  }

  /** Some step saw these weights on the chain. */
  ghost predicate Seen(events: seq<Event>, b: nat, v: Vector)
  {
    exists e :: e in events && e.Stepping? && e.world.shows(v)
                && (if e.world.lastUpdate.Some? then e.world.lastUpdate.value else e.world.block) >= b
  }

  /** The status of a record is what was learnt about its send. */
  ghost predicate Truthful(events: seq<Event>, record: Option<Send>)
  {
    record.Some? ==>
      var send := record.value;
      match send.status
      case Submitted => Answered(events, send.block, send.vector, Accepted)
      case Rejected => Answered(events, send.block, send.vector, Refused)
      case Applied => Seen(events, send.block, send.vector)
      case _ => true
  }

  lemma CompletionWrites(s: State, outcome: Outcome, d: Disk)
    ensures var t := Complete(s, outcome, d);
      t.record == s.record ||
      (t.record.Some? && s.running == Some(Weights(t.record.value.block, t.record.value.vector)) &&
       match t.record.value.status
       case Submitted => outcome == Accepted
       case Rejected => outcome == Refused
       case Unknown => true
       case _ => false)
  {
  }

  lemma StepWrites(s: State, w: World)
    ensures var t := Stepped(s, w);
      t.record == s.record ||
      (t.record.Some? &&
       match t.record.value.status
       case Submitting => true
       case Applied => w.shows(t.record.value.vector)
                       && (if w.lastUpdate.Some? then w.lastUpdate.value else w.block) >= t.record.value.block
       case _ => false)
  {
    hide Due;
  }

  /** What one event writes into the record, if it changes it at all. */
  lemma RecordWritten(s: State, e: Event)
    ensures var t := Apply(s, e);
      t.record == s.record ||
      (t.record.Some? &&
       var send := t.record.value;
       match send.status
       case Submitted => e.Stepping? && e.outcome == Accepted && s.running == Some(Weights(send.block, send.vector))
       case Rejected => e.Stepping? && e.outcome == Refused && s.running == Some(Weights(send.block, send.vector))
       case Applied => && e.Stepping? && e.world.shows(send.vector)
                       && (if e.world.lastUpdate.Some? then e.world.lastUpdate.value else e.world.block) >= send.block
       case _ => true)
  {
    hide Complete, Stepped, CompletionRaises;
    match e
    case Restarting =>
    case Stepping(outcome, w) =>
      CompletionWrites(s, outcome, w.disk);
      StepWrites(Complete(s, outcome, w.disk), w);
  }

  /**
   Over every run the record tells the truth: it says submitted only after an accepted receipt for
   exactly these weights, rejected only after a refused one, and applied only after the chain showed them.
   */
  lemma {:induction false} RecordIsTruthful(events: seq<Event>)
    ensures Truthful(events, Run(events).record)
    decreases |events|
  {
    if events != [] {
      var n := |events| - 1;
      RecordIsTruthful(events[..n]);
      RecordWritten(Run(events[..n]), events[n]);
      assert Run(events) == Apply(Run(events[..n]), events[n]);
      hide Apply, Run;
      TruthGrows(events, Run(events[..n]).record);
      if Run(events).record != Run(events[..n]).record {
        var send := Run(events).record.value;
        assert events[n].Stepping? ==> AnsweredAt(events, n, send.block, send.vector, events[n].outcome)
                                       || Run(events[..n]).running != Some(Weights(send.block, send.vector));
      }
    }
  }

  lemma TruthGrows(events: seq<Event>, record: Option<Send>)
    requires events != [] && Truthful(events[..|events| - 1], record)
    ensures Truthful(events, record)
  {
    hide Run;
    var front := events[..|events| - 1];
    if record.Some? {
      var send := record.value;
      forall k, outcome | 0 <= k < |front| && AnsweredAt(front, k, send.block, send.vector, outcome)
        ensures AnsweredAt(events, k, send.block, send.vector, outcome)
      {
        assert front[..k] == events[..k];
      }
      hide AnsweredAt;
    }
  }

  /** What every receipt leaves behind, whichever of its writes fail, and how. */
  lemma ReceiptIsRecorded(s: State, b: nat, v: Vector, outcome: Outcome, d: Disk)
    requires s.running == Some(Weights(b, v)) && outcome != StillRunning
    ensures var t := Complete(s, outcome, d);
      var fine := outcome != Raised && d.receipt == Done && (outcome == Refused || d.receiptLast == Done);
      var said := Send(b, v, if outcome == Accepted then Submitted else Rejected);
      && t.running == None
      && t.record == (if fine then Some(said)
                      else if d.fallback != FailedBefore then Some(Send(b, v, Unknown))
                      else if outcome != Raised && d.receipt != FailedBefore then Some(said)
                      else s.record)
      && t.last == (if outcome == Accepted && d.receipt == Done && d.receiptLast != FailedBefore
                    then Some(Last(b, v)) else s.last)
      && (CompletionRaises(s, outcome, d) <==> !fine && d.fallback != Done)
  {
  }

  /** Exactly when a step with nothing in flight hands a send to the writer. */
  lemma SendsExactly(s: State, w: World)
    requires s.running == None
    ensures Dispatches(s, Stepping(StillRunning, w)) <==>
      && w.caughtUp && w.signing && w.permitted && w.allowed && w.disk.submitting == Done
      && (s.record.Some? ==>
            && s.record.value.status != Unknown && s.record.value.status != Submitted
            && (s.record.value.status == Rejected ==> w.block >= s.record.value.block + 5))
      && (s.last.Some? ==> w.block >= s.last.value.block + w.rateLimit)
      && w.block >= w.rateLimit && (w.lastUpdate.Some? ==> w.block >= w.lastUpdate.value + w.rateLimit)
      && (s.last == None || s.last.value.vector != w.vector || w.block >= s.last.value.block + w.tempo)
  {
  }

  /** And exactly when it hands the next evaluator commitment to the writer instead. */
  lemma PublishesExactly(s: State, w: World)
    requires s.running == None && !ReconcilingRaises(s, w)
    ensures Apply(s, Stepping(StillRunning, w)).running == Some(Commitment(w.block)) <==>
      && w.caughtUp && w.evaluating && w.quiet && w.handOver == Tracked
      && !(w.signing && w.permitted && Due(s, w))
  {
  }

  /** A completion that does not raise makes way for the same decision in the same step. */
  lemma SendsAfterCompletion(s: State, outcome: Outcome, w: World)
    requires Finished(s, outcome)
    ensures Dispatches(s, Stepping(outcome, w)) <==>
      !CompletionRaises(s, outcome, w.disk) && Dispatches(Complete(s, outcome, w.disk), Stepping(StillRunning, w))
  {
  }

  /** Five blocks after the refused send, within the rate limit, and with a new vector or a tempo gone by. */
  ghost predicate MayGoAgain(b: nat, last: Option<Last>, w: World)
  {
    && w.block >= b + 5 && w.caughtUp && w.signing && w.permitted && w.allowed && w.disk.submitting == Done
    && w.block >= w.rateLimit && (w.lastUpdate.Some? ==> w.block >= w.lastUpdate.value + w.rateLimit)
    && (last.Some? ==> w.block >= last.value.block + w.rateLimit
                       && (last.value.vector != w.vector || w.block >= last.value.block + w.tempo))
  }

  /**
   A refused send whose record reached the disk stands in the way for five blocks and no longer: the step
   that learns of the refusal, and every later one, sends exactly when the send may go again.
   */
  lemma RefusalReleases(events: seq<Event>, b: nat, v: Vector, d: World, w: World)
    requires Run(events).running == Some(Weights(b, v)) && d.disk.receipt == Done
    ensures Dispatches(Run(events), Stepping(Refused, d)) <==> MayGoAgain(b, Run(events).last, d)
    ensures !d.caughtUp ==>
      var s := Run(events + [Stepping(Refused, d)]);
      && s == State(Some(Send(b, v, Rejected)), Run(events).last, None)
      && (Dispatches(s, Stepping(StillRunning, w)) <==> MayGoAgain(b, s.last, w))
  {
    var e := Stepping(Refused, d);
    assert (events + [e])[..|events + [e]| - 1] == events;
    assert Run(events + [e]) == Apply(Run(events), e);
    ReceiptIsRecorded(Run(events), b, v, Refused, d.disk);
    var s := Complete(Run(events), Refused, d.disk);
    assert s == State(Some(Send(b, v, Rejected)), Run(events).last, None);
    SendsAfterCompletion(Run(events), Refused, d);
    SendsExactly(s, d);
    SendsExactly(s, w);
  }

  // ---------------------------------------------------------------- where the record fails to block

  /** The same step again, with a sound disk and a writer that takes the hand-over. */
  function Retry(w: World): Event { Stepping(StillRunning, w.(handOver := Tracked, disk := SOUND_DISK)) }

  /**
   In every state that is about to send: the step blocks its own repetition exactly when its record
   was written and its hand-over returned the future. A record torn by the directory sync says
   submitting with nothing queued; an orphaned hand-over says so with a send that may still leave.
   */
  lemma SendBlocksIffTracked(s: State, outcome: Outcome, w: World)
    requires Proceeds(s, Stepping(outcome, w)) && Wants(Complete(s, outcome, w.disk), w) && w.allowed
    ensures var t := Apply(s, Stepping(outcome, w));
      Dispatches(t, Retry(w)) <==> !(w.disk.submitting == Done && w.handOver == Tracked)
    ensures w.disk.submitting != FailedBefore ==>
              Apply(s, Stepping(outcome, w)).record == Some(Send(w.block, w.vector, Submitting))
  {
    hide Receipt;
    var t := Complete(s, outcome, w.disk);
    assert Wants(Apply(s, Stepping(outcome, w)), w) || Apply(s, Stepping(outcome, w)).running.Some?;
  }

  /** A send, a receipt of which neither write reaches the disk, and a second send one block later. */
  lemma LostReceiptSendsTwice(w: World, outcome: Outcome)
    requires Sends(FRESH, w) && w.handOver == Tracked && outcome != StillRunning
    ensures var events := [Stepping(StillRunning, w),
                           Stepping(outcome,
                             w.(disk := SOUND_DISK.(receipt := FailedBefore, fallback := FailedBefore))),
                           Retry(w.(block := w.block + 1))];
      && Dispatches(Run(events[..0]), events[0]) && Dispatches(Run(events[..2]), events[2])
      && !Clears(Run(events[..1]), events[1], w.block) && !Clears(Run(events[..2]), events[2], w.block)
  {
    var events := [Stepping(StillRunning, w),
                   Stepping(outcome, w.(disk := SOUND_DISK.(receipt := FailedBefore, fallback := FailedBefore))),
                   Retry(w.(block := w.block + 1))];
    assert events[..1][..0] == events[..0] && events[..2][..1] == events[..1];
    assert Run(events[..0]) == FRESH;
    assert Run(events[..1]) == State(Some(Send(w.block, w.vector, Submitting)), None, Some(Weights(w.block, w.vector)));
    assert Run(events[..2]) == State(Some(Send(w.block, w.vector, Submitting)), None, None);
  }

  /** After a restart nothing is sent until the chain shows the interrupted send. */
  lemma RestartBlocks(s: State, outcome: Outcome, w: World)
    requires s.record.Some? && s.record.value.status == Submitting
    ensures !Dispatches(Restart(s), Stepping(outcome, w))
    ensures var r := Apply(Restart(s), Stepping(outcome, w)).record;
      r.Some? && r.value.block == s.record.value.block && (r.value.status == Unknown || r.value.status == Applied)
  {
  }
}
