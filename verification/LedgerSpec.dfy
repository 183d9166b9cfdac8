/**
 What one finalized block does to the tables of the ledger. Crossing into another
 window closes the open one on the recorded votes before the block's own commitments
 are read.
 */
module LedgerSpec {
  import opened Common
  import opened Dicts
  import Ordering
  import opened Wire
  import opened Decide
  import RoundRobin

  const WINDOW_EPOCHS: nat := 2
  const HOTKEY_RESET_WINDOW: nat := 32
  const SUBMISSION_PREFIX := "wm2"

  /** What a replay is started with; hashes and the policy schedule are given functions. */
  datatype Config = Config(activationBlock: nat, activationEpoch: nat, versioned: bool,
                           policyFor: nat -> string, challenge: (Hotkey, seq<byte>) -> ModelId)

  /** A finalized block as read from the chain. */
  datatype Frame = Frame(block: nat, epoch: nat, uids: map<Hotkey, nat>, coldkeys: map<Hotkey, string>,
                         validators: map<Hotkey, real>)

  datatype Submission = Submission(candidate: Candidate, coldkey: string, manifest: seq<byte>, value: string)

  datatype Opening = Opening(id: nat, startBlock: nat, king: Option<Candidate>, candidates: map<ModelId, Candidate>,
                             policy: string)

  datatype Closing = Closing(decision: Decision, block: nat)

  datatype Window = Window(opening: Opening, closing: Option<Closing>)

  datatype Use = Use(window: nat, value: string)

  datatype Slot = Slot(evaluator: Hotkey, window: nat, model: ModelId)

  /** The active indexes as they stood when the admission generation changed. */
  datatype Archive = Archive(window: nat, submissions: seq<Submission>, uses: map<(Hotkey, Hotkey), Use>,
                             pending: map<Slot, string>)

  /** The tables of the database, and the keys of its `state` table. */
  datatype Tables = Tables(cursor: int, active: Option<Opening>, king: Option<Candidate>,
                           commitments: seq<Row>, submissions: seq<Submission>, windows: map<nat, Window>,
                           uses: map<(Hotkey, Hotkey), Use>, pending: map<Slot, string>, archive: seq<Archive>,
                           reset: Option<nat>, retired: set<Hotkey>, after: Option<Hotkey>)

  function Fresh(cfg: Config): Tables
  {
    Tables(cfg.activationBlock - 1, None, None, [], [], map[], map[], map[], [], None, {}, None)
  }

  /** `INSERT OR IGNORE` into the table of uses, whose key is the pair. */
  function InsertUse(uses: map<(Hotkey, Hotkey), Use>, key: (Hotkey, Hotkey), u: Use): map<(Hotkey, Hotkey), Use>
  {
    if key in uses then uses else uses[key := u]
  }

  // ---------------------------------------------------------------- votes at a close

  function Between(rows: seq<Row>, start: nat, end: nat): (r: seq<Row>)
    ensures forall x :: x in r <==> x in rows && start <= x.block < end
  {
    if rows == [] then []
    else
      var front, last := Between(rows[..|rows| - 1], start, end), rows[|rows| - 1];
      if start <= last.block < end then front + [last] else front
  }

  /** A baseline, an unresolved partial bound, or the very row recorded as the evaluator's use. */
  predicate Votes(t: Tables, o: Opening, row: Row)
  {
    match Parse(row.value)
    case Err(_) => false
    case Ok(r) =>
      r.Baseline() ||
      (r.modelId in o.candidates &&
       var key := (row.hotkey, o.candidates[r.modelId].hotkey);
       (r.Partial() && (key !in t.uses || t.uses[key].window == o.id)) ||
       (key in t.uses && t.uses[key] == Use(o.id, row.value)))
  }

  function VotesOf(t: Tables, o: Opening, rows: seq<Row>): (r: seq<Row>)
    ensures forall x :: x in r <==> x in rows && Votes(t, o, x)
  {
    if rows == [] then []
    else
      var front, last := VotesOf(t, o, rows[..|rows| - 1]), rows[|rows| - 1];
      if Votes(t, o, last) then front + [last] else front
  }

  function VotingHistory(t: Tables, o: Opening, end: nat): seq<Row>
  {
    VotesOf(t, o, Sort(Between(t.commitments, o.startBlock, end)))
  }

  function RoundOf(o: Opening, f: Frame): Round
  {
    Round(o.id, o.policy, o.king, o.candidates, Snapshot(f.validators, f.uids))
  }

  function BallotAt(t: Tables, o: Opening, f: Frame): Ballot
  {
    Fold(RoundOf(o, f), Sort(VotingHistory(t, o, f.block)))
  }

  function DecisionAt(t: Tables, o: Opening, f: Frame): Decision
  {
    FoldWellFormed(RoundOf(o, f), Sort(VotingHistory(t, o, f.block)));
    DecisionOf(RoundOf(o, f), BallotAt(t, o, f))
  }

  /** Losses name a listed candidate by their own wire format. */
  predicate LossListed(o: Opening, l: Loss)
  {
    Parse(l.value).Ok? && Parse(l.value).value.modelId in o.candidates
  }

  function LossKey(o: Opening, l: Loss): (Hotkey, Hotkey)
    requires LossListed(o, l)
  {
    (l.hotkey, o.candidates[Parse(l.value).value.modelId].hotkey)
  }

  function ConsumeLosses(uses: map<(Hotkey, Hotkey), Use>, o: Opening, losses: seq<Loss>): map<(Hotkey, Hotkey), Use>
    requires forall l :: l in losses ==> LossListed(o, l)
  {
    if losses == [] then uses
    else
      var last := losses[|losses| - 1];
      InsertUse(ConsumeLosses(uses, o, losses[..|losses| - 1]), LossKey(o, last), Use(o.id, last.value))
  }

  function PanelKeys(o: Opening): set<Hotkey> { set m | m in o.candidates :: o.candidates[m].hotkey }

  /** Some validator of the block has used every hotkey of the panel. */
  predicate Evaluated(uses: map<(Hotkey, Hotkey), Use>, o: Opening, f: Frame)
  {
    PanelKeys(o) != {} && exists v :: v in f.validators && forall h :: h in PanelKeys(o) ==> (v, h) in uses
  }

  // ---------------------------------------------------------------- early losses name the panel

  ghost predicate FiledUnder(c: Round, m: ModelId, votes: map<Hotkey, Result>)
  {
    m in c.candidates && forall v :: v in votes ==> votes[v].modelId == m && votes[v].Valid()
  }

  ghost predicate Filed(c: Round, b: Ballot)
  {
    forall m :: m in b.records.items ==> FiledUnder(c, m, b.records.items[m].items)
  }

  lemma VoteFiled(c: Round, b: Ballot, voter: Hotkey, r: Result)
    requires Filed(c, b) && r.Valid() && r.modelId in c.candidates
    ensures Filed(c, Vote(b, voter, r))
  {
    hide Result.Valid, Result.Partial;
    var votes := Get(b.records, r.modelId, Empty());
    assert FiledUnder(c, r.modelId, votes.items);
    assert FiledUnder(c, r.modelId, Put(votes, voter, r).items);
  }

  lemma StepFiled(c: Round, b: Ballot, row: Row)
    requires Filed(c, b)
    ensures Filed(c, Step(c, b, row))
  {
    hide Parse, Result.Valid, Result.Partial, Result.Baseline, Result.ControlsOk, Vote, FiledUnder;
    if Parse(row.value).Ok? {
      var r := Parse(row.value).value;
      CommitParsed(row.value);
      if r.modelId in c.candidates {
        var b1 := b.(used := b.used + {(row.hotkey, c.candidates[r.modelId].hotkey)});
        VoteFiled(c, b, row.hotkey, r);
        VoteFiled(c, Panel(b1, row.hotkey, r.modelId), row.hotkey, r);
      }
    }
  }

  lemma {:induction false} FoldFiled(c: Round, rows: seq<Row>)
    ensures Filed(c, Fold(c, rows))
    decreases |rows|
  {
    hide Step;
    if rows != [] {
      FoldFiled(c, rows[..|rows| - 1]);
      StepFiled(c, Fold(c, rows[..|rows| - 1]), rows[|rows| - 1]);
    }
  }

  predicate Bounded(c: Round, l: Loss)
  {
    Parse(l.value).Ok? && Parse(l.value).value.Partial() && Parse(l.value).value.modelId in c.candidates
  }

  lemma ModelLossesBounded(c: Round, b: Ballot, m: ModelId)
    requires WellFormed(b) && Filed(c, b) && m in b.records.items
    ensures forall l :: l in ModelLosses(c, b, m) ==> Bounded(c, l)
  {
    hide Result.Valid, Result.Partial, Parse, Result.Commitment;
    assert FiledUnder(c, m, b.records.items[m].items);
    forall l | l in ModelLosses(c, b, m)
      ensures Bounded(c, l)
    {
      var votes := b.records.items[m].items;
      var v :| v in votes && votes[v].Partial() && l == Loss(v, votes[v].Commitment());
      ParseCommitment(votes[v]);
    }
  }

  lemma {:induction false} LossesBounded(c: Round, b: Ballot, models: seq<ModelId>)
    requires WellFormed(b) && Filed(c, b) && forall m :: m in models ==> m in b.records.items
    ensures forall l :: l in Losses(c, b, models) ==> Bounded(c, l)
    decreases |models|
  {
    hide ModelLosses, WellFormed, Filed, Bounded;
    if models != [] {
      LossesBounded(c, b, models[..|models| - 1]);
      ModelLossesBounded(c, b, models[|models| - 1]);
    }
  }

  /** Every early loss is the partial bound of a submission on the panel. */
  lemma EarlyLossesListed(t: Tables, o: Opening, f: Frame)
    ensures forall l :: l in DecisionAt(t, o, f).earlyLosses ==> Bounded(RoundOf(o, f), l)
    ensures forall l :: l in DecisionAt(t, o, f).earlyLosses ==> LossListed(o, l)
  {
    var c, rows := RoundOf(o, f), Sort(VotingHistory(t, o, f.block));
    FoldFiled(c, rows);
    FoldWellFormed(c, rows);
    LossesBounded(c, Fold(c, rows), Fold(c, rows).records.keys);
  }

  // ---------------------------------------------------------------- closing a window

  function CloseOf(t: Tables, o: Opening, f: Frame): Tables
  {
    EarlyLossesListed(t, o, f);
    var d := DecisionAt(t, o, f);
    var uses := ConsumeLosses(t.uses, o, d.earlyLosses);
    t.(windows :=
         if o.id in t.windows then t.windows[o.id := t.windows[o.id].(closing := Some(Closing(d, f.block)))]
         else t.windows,
       king := d.winner, uses := uses,
       retired :=
         if o.king == None && d.winner == None && Evaluated(uses, o, f) then t.retired + PanelKeys(o)
         else t.retired)
  }

  /** One network-wide second admission generation, after the old window closed. */
  function ResetOf(cfg: Config, t: Tables, f: Frame, window: nat): Tables
  {
    if !cfg.versioned || window < HOTKEY_RESET_WINDOW || t.reset.Some? then t
    else t.(archive := t.archive + [Archive(HOTKEY_RESET_WINDOW, t.submissions, t.uses, t.pending)],
            submissions := [], uses := map[], pending := map[],
            retired := {}, after := None, reset := Some(f.block))
  }

  // ---------------------------------------------------------------- opening a window

  predicate SubmissionLeq(a: Submission, b: Submission)
  {
    a.candidate.block < b.candidate.block ||
    (a.candidate.block == b.candidate.block && Ordering.Leq(a.candidate.hotkey, b.candidate.hotkey))
  }

  function InsertSubmission(x: Submission, rows: seq<Submission>): (r: seq<Submission>)
    ensures |r| == |rows| + 1
    ensures forall y :: y in r <==> y == x || y in rows
  {
    if rows == [] || SubmissionLeq(x, rows[0]) then [x] + rows
    else
      assert rows == [rows[0]] + rows[1..];
      [rows[0]] + InsertSubmission(x, rows[1..])
  }

  /** `sorted(..., key=(block, hotkey))` */
  function SortSubmissions(rows: seq<Submission>): (r: seq<Submission>)
    ensures |r| == |rows|
    ensures forall y :: y in r <==> y in rows
  {
    if rows == [] then []
    else
      assert rows == [rows[0]] + rows[1..];
      InsertSubmission(rows[0], SortSubmissions(rows[1..]))
  }

  function Models(list: seq<Submission>): set<ModelId> { set x | x in list :: x.candidate.modelId }

  predicate Admissible(f: Frame, retired: set<Hotkey>, x: Submission)
  {
    x.candidate.block < f.block && x.candidate.hotkey in f.uids && x.candidate.hotkey !in retired
  }

  /** Admitted before the window and still registered; an earlier submission keeps a shared model. */
  function Listed(rows: seq<Submission>, f: Frame, retired: set<Hotkey>): seq<Submission>
  {
    if rows == [] then []
    else
      var front, x := Listed(rows[..|rows| - 1], f, retired), rows[|rows| - 1];
      if Admissible(f, retired, x) && x.candidate.modelId !in Models(front)
      then front + [x.(candidate := x.candidate.(uid := f.uids[x.candidate.hotkey]))] else front
  }

  function Reigning(king: Option<Candidate>, f: Frame): Option<Candidate>
  {
    if king == None || king.value.hotkey !in f.uids then None
    else Some(king.value.(uid := f.uids[king.value.hotkey]))
  }

  /** `candidates.pop(model, None)` */
  function Without(list: seq<Submission>, model: ModelId): (r: seq<Submission>)
    ensures forall x :: x in r <==> x in list && x.candidate.modelId != model
  {
    if list == [] then []
    else
      var front, x := Without(list[..|list| - 1], model), list[|list| - 1];
      if x.candidate.modelId == model then front else front + [x]
  }

  /** Owners take turns, each with its own submissions oldest first. */
  function BootstrapOrder(list: seq<Submission>): seq<Submission>
  {
    RoundRobin.Rounds(RoundRobin.Grouped(SortSubmissions(list), (x: Submission) => x.coldkey))
  }

  /** One past the submission that closed the last pair, or 0. */
  function ResumeAt(order: seq<Submission>, after: Option<Hotkey>): (k: nat)
    ensures k <= |order|
    ensures k > 0 ==> Some(order[k - 1].candidate.hotkey) == after
    ensures k == 0 ==> forall x :: x in order ==> Some(x.candidate.hotkey) != after
    decreases |order|
  {
    if order == [] then 0
    else if Some(order[0].candidate.hotkey) == after then 1
    else
      var k := ResumeAt(order[1..], after);
      assert order == [order[0]] + order[1..];
      if k == 0 then 0 else k + 1
  }

  function NextPair(order: seq<Submission>, after: Option<Hotkey>): seq<Submission>
  {
    var k := ResumeAt(order, after);
    if |order| >= 2 then (order[k..] + order[..k])[..2] else []
  }

  function AsPanel(list: seq<Submission>): map<ModelId, Candidate>
  {
    if list == [] then map[]
    else AsPanel(list[..|list| - 1])[list[|list| - 1].candidate.modelId := list[|list| - 1].candidate]
  }

  /** The submissions a window will compare. */
  function PanelList(t: Tables, f: Frame): seq<Submission>
  {
    var list, king := Listed(SortSubmissions(t.submissions), f, t.retired), Reigning(t.king, f);
    if king.Some? then Without(list, king.value.modelId) else NextPair(BootstrapOrder(list), t.after)
  }

  function OpeningOf(cfg: Config, t: Tables, f: Frame, window: nat): Opening
  {
    Opening(window, f.block, Reigning(t.king, f), AsPanel(PanelList(t, f)), cfg.policyFor(window))
  }

  function OpenOf(cfg: Config, t: Tables, f: Frame, window: nat): Try<Tables>
  {
    if window in t.windows then Err("UNIQUE constraint failed: windows.id")
    else
      var pair, o := PanelList(t, f), OpeningOf(cfg, t, f, window);
      Ok(t.(after := if o.king == None && pair != [] then Some(pair[|pair| - 1].candidate.hotkey) else t.after,
            windows := t.windows[window := Window(o, None)], active := Some(o)))
  }

  // ---------------------------------------------------------------- the rows of a block

  function ParseSubmission(value: string): Try<seq<byte>>
  {
    if |value| > MAX_COMMITMENT || !(SUBMISSION_PREFIX + "|" <= value) then Err("not_a_v2_p2p_submission")
    else
      match DecodeBytes(value[4..], 64)
      case Err(e) => Err(e)
      case Ok(raw) => Ok(raw[..32])
  }

  function AddRow(rows: seq<Row>, row: Row): seq<Row> { if row in rows then rows else rows + [row] }

  predicate Submitted(rows: seq<Submission>, hotkey: Hotkey) { exists x :: x in rows && x.candidate.hotkey == hotkey }

  function Submit(cfg: Config, t: Tables, f: Frame, row: Row): Try<Tables>
  {
    match ParseSubmission(row.value)
    case Err(_) => Ok(t)
    case Ok(manifest) =>
      if row.hotkey !in f.uids then Ok(t)
      else if row.hotkey !in f.coldkeys then Err("KeyError")
      else if Submitted(t.submissions, row.hotkey) then Ok(t)
      else
        var c := Candidate(row.hotkey, f.uids[row.hotkey], cfg.challenge(row.hotkey, manifest), row.block);
        Ok(t.(submissions := t.submissions + [Submission(c, f.coldkeys[row.hotkey], manifest, row.value)]))
  }

  /** A full measurement of a panel submission by a validator of this block. */
  predicate Measures(o: Opening, f: Frame, window: nat, row: Row)
  {
    match Parse(row.value)
    case Err(_) => false
    case Ok(r) =>
      && r.window == window && r.policy == Prefix(o.policy) && !r.Baseline() && !r.Partial()
      && r.modelId in o.candidates && r.uid == o.candidates[r.modelId].uid && row.hotkey in f.validators
  }

  function Record(t: Tables, o: Opening, f: Frame, window: nat, row: Row): Tables
  {
    if !Measures(o, f, window, row) then t
    else
      var r := Parse(row.value).value;
      var key := (row.hotkey, o.candidates[r.modelId].hotkey);
      if key in t.uses then t
      else if o.king.Some? then t.(uses := t.uses[key := Use(window, row.value)])
      else
        var slot := Slot(row.hotkey, window, r.modelId);
        if slot in t.pending then t else t.(pending := t.pending[slot := row.value])
  }

  function Admit(cfg: Config, t: Tables, o: Opening, f: Frame, window: nat, row: Row): Try<Tables>
  {
    if row.block != f.block then Err("commitment_not_from_this_block")
    else
      match Submit(cfg, t.(commitments := AddRow(t.commitments, row)), f, row)
      case Err(e) => Err(e)
      case Ok(u) => Ok(Record(u, o, f, window, row))
  }

  function AdmitAll(cfg: Config, t: Tables, o: Opening, f: Frame, window: nat, rows: seq<Row>): Try<Tables>
  {
    if rows == [] then Ok(t)
    else
      match AdmitAll(cfg, t, o, f, window, rows[..|rows| - 1])
      case Err(e) => Err(e)
      case Ok(u) => Admit(cfg, u, o, f, window, rows[|rows| - 1])
  }

  // ---------------------------------------------------------------- complete bootstrap pairs

  predicate OnPanel(o: Opening, h: Hotkey) { exists m :: m in o.candidates && o.candidates[m].hotkey == h }

  ghost function Holder(o: Opening, h: Hotkey): (m: ModelId)
    requires OnPanel(o, h)
    ensures m in o.candidates && o.candidates[m].hotkey == h
  {
    var m :| m in o.candidates && o.candidates[m].hotkey == h;
    m
  }

  function Reported(pending: map<Slot, string>, window: nat, v: Hotkey): set<ModelId>
  {
    set p | p in pending && p.evaluator == v && p.window == window :: p.model
  }

  /** The evaluator has reported on exactly the two submissions of the panel. */
  predicate Complete(pending: map<Slot, string>, o: Opening, v: Hotkey)
  {
    Reported(pending, o.id, v) == o.candidates.Keys
  }

  predicate Pairs(o: Opening) { o.king == None && |o.candidates| == 2 }

  /** The pairs of `evaluators` turn into uses, all of a pair or none of it. */
  ghost function Consume(uses: map<(Hotkey, Hotkey), Use>, pending: map<Slot, string>, o: Opening,
                         evaluators: set<Hotkey>): map<(Hotkey, Hotkey), Use>
  {
    var gained := set v, h |
      v in evaluators && h in PanelKeys(o) && Complete(pending, o, v) && (v, h) !in uses :: (v, h);
    uses + map k | k in gained :: Pairing(pending, o, k)
  }

  ghost function Pairing(pending: map<Slot, string>, o: Opening, k: (Hotkey, Hotkey)): Use
    requires k.1 in PanelKeys(o) && Complete(pending, o, k.0)
  {
    assert Holder(o, k.1) in Reported(pending, o.id, k.0);
    Use(o.id, pending[Slot(k.0, o.id, Holder(o, k.1))])
  }

  /** Distinct models of a panel have distinct hotkeys. */
  ghost predicate OneModelEach(o: Opening)
  {
    forall m, n :: m in o.candidates && n in o.candidates && o.candidates[m].hotkey == o.candidates[n].hotkey ==> m == n
  }

  lemma ConsumeNone(uses: map<(Hotkey, Hotkey), Use>, pending: map<Slot, string>, o: Opening)
    ensures Consume(uses, pending, o, {}) == uses
  {
  }

  /** One more evaluator: its complete pair is consumed, an incomplete one leaves no trace. */
  lemma ConsumeOneMore(uses: map<(Hotkey, Hotkey), Use>, pending: map<Slot, string>, o: Opening, done: set<Hotkey>,
                       v: Hotkey, now: map<(Hotkey, Hotkey), Use>)
    requires OneModelEach(o) && v !in done
    requires ConsumedBy(Consume(uses, pending, o, done), pending, o, v, now)
    ensures now == Consume(uses, pending, o, done + {v})
  {
    hide Reported;
    var before, next := Consume(uses, pending, o, done), Consume(uses, pending, o, done + {v});
    forall k | k in now
      ensures k in next && now[k] == next[k]
    {
      if k !in before {
        NewPairing(pending, o, v, before, now, k);
      }
    }
    assert forall k :: k in next ==> k in now;
  }

  lemma NewPairing(pending: map<Slot, string>, o: Opening, v: Hotkey, before: map<(Hotkey, Hotkey), Use>,
                   now: map<(Hotkey, Hotkey), Use>, k: (Hotkey, Hotkey))
    requires OneModelEach(o) && ConsumedBy(before, pending, o, v, now) && k in now && k !in before
    ensures k.0 == v && k.1 in PanelKeys(o) && Complete(pending, o, v) && now[k] == Pairing(pending, o, k)
  {
    hide Reported;
    var m :| m in o.candidates && k == (v, o.candidates[m].hotkey) && Slot(v, o.id, m) in pending
             && now[k] == Use(o.id, pending[Slot(v, o.id, m)]);
    assert m == Holder(o, k.1);
  }

  ghost predicate ConsumedBy(before: map<(Hotkey, Hotkey), Use>, pending: map<Slot, string>, o: Opening, v: Hotkey,
                             now: map<(Hotkey, Hotkey), Use>)
  {
    if !Complete(pending, o, v) then now == before
    else
      && (forall k :: k in before ==> k in now && now[k] == before[k])
      && (forall h :: h in PanelKeys(o) ==> (v, h) in now)
      && (forall k :: k in now && k !in before ==>
            exists m :: m in o.candidates && k == (v, o.candidates[m].hotkey) && Slot(v, o.id, m) in pending
                        && now[k] == Use(o.id, pending[Slot(v, o.id, m)]))
  }

  /** While the panel of `v` is being consumed: the hotkeys of `done` are used, by the results of `v`. */
  ghost predicate Consuming(before: map<(Hotkey, Hotkey), Use>, pending: map<Slot, string>, o: Opening, v: Hotkey,
                            done: set<ModelId>, now: map<(Hotkey, Hotkey), Use>)
  {
    && (forall k :: k in before ==> k in now && now[k] == before[k])
    && (forall m :: m in done && m in o.candidates ==> (v, o.candidates[m].hotkey) in now)
    && (forall k :: k in now && k !in before ==>
          exists m :: m in o.candidates && k == (v, o.candidates[m].hotkey) && Slot(v, o.id, m) in pending
                      && now[k] == Use(o.id, pending[Slot(v, o.id, m)]))
  }

  lemma ConsumeNext(before: map<(Hotkey, Hotkey), Use>, pending: map<Slot, string>, o: Opening, v: Hotkey,
                    done: set<ModelId>, now: map<(Hotkey, Hotkey), Use>, m: ModelId)
    requires Consuming(before, pending, o, v, done, now) && m in o.candidates && Slot(v, o.id, m) in pending
    ensures var use := Use(o.id, pending[Slot(v, o.id, m)]);
      Consuming(before, pending, o, v, done + {m}, InsertUse(now, (v, o.candidates[m].hotkey), use))
  {
  }

  lemma NothingConsumed(before: map<(Hotkey, Hotkey), Use>, pending: map<Slot, string>, o: Opening, v: Hotkey)
    ensures Consuming(before, pending, o, v, {}, before)
    ensures !Complete(pending, o, v) ==> ConsumedBy(before, pending, o, v, before)
  {
  }

  lemma AllConsumed(before: map<(Hotkey, Hotkey), Use>, pending: map<Slot, string>, o: Opening, v: Hotkey,
                    now: map<(Hotkey, Hotkey), Use>)
    requires Consuming(before, pending, o, v, o.candidates.Keys, now) && Complete(pending, o, v)
    ensures ConsumedBy(before, pending, o, v, now)
  {
  }

  function Evaluators(pending: map<Slot, string>, window: nat): set<Hotkey>
  {
    set p | p in pending && p.window == window :: p.evaluator
  }

  ghost function CompleteOf(t: Tables, o: Opening): Tables
  {
    if Pairs(o) then t.(uses := Consume(t.uses, t.pending, o, Evaluators(t.pending, o.id))) else t
  }

  // ---------------------------------------------------------------- one block

  function WindowOf(cfg: Config, f: Frame): nat
    requires f.epoch >= cfg.activationEpoch
  {
    (f.epoch - cfg.activationEpoch) / WINDOW_EPOCHS
  }

  /** Close the active window if the block belongs to another one, then open that one. */
  function Rotate(cfg: Config, t: Tables, f: Frame, window: nat): (r: Try<Tables>)
    ensures r.Ok? ==> r.value.active.Some? && r.value.active.value.id == window
  {
    match t.active
    case None => OpenOf(cfg, ResetOf(cfg, t, f, window), f, window)
    case Some(o) =>
      if o.id == window then Ok(t)
      else OpenOf(cfg, ResetOf(cfg, CloseOf(t, o, f), f, window), f, window)
  }

  /** The tables after a block, or the error that leaves them as they were. */
  ghost function Next(cfg: Config, t: Tables, f: Frame, rows: seq<Row>): Try<Tables>
  {
    if f.block != t.cursor + 1 then Err("noncontiguous_finalized_history")
    else if f.epoch < cfg.activationEpoch then Err("activation_epoch_not_reached")
    else
      var window := WindowOf(cfg, f);
      match Rotate(cfg, t, f, window)
      case Err(e) => Err(e)
      case Ok(u) =>
        match AdmitAll(cfg, u, u.active.value, f, window, Sort(rows))
        case Err(e) => Err(e)
        case Ok(w) => Ok(CompleteOf(w, u.active.value).(cursor := f.block))
  }
}
