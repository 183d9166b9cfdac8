/**
 The consensus decision at the close of a window: rows of the finalized chain are
 folded into votes, votes into stake-weighted exact means, and the means into at
 most one winner. A partial vote carries upper bounds instead of measured scores.
 */
module Decide {
  import opened Common
  import opened Dicts
  import Ordering
  import opened Wire

  type Hotkey = string
  type ModelId = string

  datatype Row = Row(block: nat, hotkey: Hotkey, value: string)

  datatype Candidate = Candidate(hotkey: Hotkey, uid: nat, modelId: ModelId, block: nat)

  datatype Snapshot = Snapshot(validators: map<Hotkey, real>, uids: map<Hotkey, nat>)

  /** Everything `decide` is told besides the rows. */
  datatype Round = Round(window: nat, policy: string, king: Option<Candidate>,
                         candidates: map<ModelId, Candidate>, snapshot: Snapshot)

  /** The dictionaries that the loop over the rows updates. */
  datatype Ballot = Ballot(records: Dict<ModelId, Dict<Hotkey, Result>>,
                           baselines: map<(Hotkey, ModelId), Result>,
                           used: set<(Hotkey, Hotkey)>,
                           panels: map<Hotkey, set<ModelId>>)

  datatype Aggregate = Aggregate(quality: real, reward: real, delta: real, bounded: bool, evaluators: seq<Hotkey>)

  datatype Loss = Loss(hotkey: Hotkey, value: string)

  datatype Decision = Decision(winner: Option<Candidate>, inconclusive: set<ModelId>, earlyLosses: seq<Loss>)

  // ---------------------------------------------------------------- order of the rows

  predicate RowLeq(a: Row, b: Row)
  {
    a.block < b.block ||
    (a.block == b.block && (Ordering.Less(a.hotkey, b.hotkey) ||
                            (a.hotkey == b.hotkey && Ordering.Leq(a.value, b.value))))
  }

  predicate Sorted(rows: seq<Row>)
  {
    forall i, j :: 0 <= i < j < |rows| ==> RowLeq(rows[i], rows[j])
  }

  function Insert(x: Row, rows: seq<Row>): seq<Row>
  {
    if rows == [] || RowLeq(x, rows[0]) then [x] + rows else [rows[0]] + Insert(x, rows[1..])
  }

  /** `sorted(results, key=(block, hotkey, value))` */
  function Sort(rows: seq<Row>): seq<Row>
  {
    if rows == [] then [] else Insert(rows[0], Sort(rows[1..]))
  }

  // ---------------------------------------------------------------- folding rows into votes

  function Prefix(policy: string): string { if |policy| <= 24 then policy else policy[..24] }

  predicate Staked(c: Round, voter: Hotkey)
  {
    voter in c.snapshot.validators && c.snapshot.validators[voter] > 0.0
  }

  const NO_VOTES: Ballot := Ballot(Empty(), map[], {}, map[])

  function Vote(b: Ballot, voter: Hotkey, r: Result): Ballot
  {
    var votes := Get(b.records, r.modelId, Empty());
    b.(records := Put(b.records, r.modelId,
                      if voter !in votes.items || !r.Partial() then Put(votes, voter, r) else votes))
  }

  function Panel(b: Ballot, voter: Hotkey, model: ModelId): Ballot
  {
    b.(panels := b.panels[voter := (if voter in b.panels then b.panels[voter] else {}) + {model}])
  }

  /** A parsed result for this window and policy, from a staked voter, for a listed candidate. */
  function Accept(c: Round, b: Ballot, voter: Hotkey, r: Result): Ballot
    requires r.modelId in c.candidates
  {
    var key := (voter, c.candidates[r.modelId].hotkey);
    if key in b.used then b
    else
      var b1 := if r.Partial() then b else b.(used := b.used + {key});
      if !r.ControlsOk() then b1
      else if r.Partial() then (if c.king == None then b1 else Vote(b1, voter, r))
      else Vote(Panel(b1, voter, r.modelId), voter, r)
  }

  function Step(c: Round, b: Ballot, row: Row): Ballot
  {
    match Parse(row.value)
    case Err(_) => b
    case Ok(r) =>
      if r.window != c.window || r.policy != Prefix(c.policy) || !Staked(c, row.hotkey) then b
      else if r.Baseline() then
        (if (row.hotkey, r.modelId) in b.baselines then b
         else b.(baselines := b.baselines[(row.hotkey, r.modelId) := r]))
      else if r.modelId !in c.candidates || c.candidates[r.modelId].uid != r.uid then b
      else Accept(c, b, row.hotkey, r)
  }

  function Fold(c: Round, rows: seq<Row>): Ballot
  {
    if rows == [] then NO_VOTES else Step(c, Fold(c, rows[..|rows| - 1]), rows[|rows| - 1])
  }

  // ---------------------------------------------------------------- stake-weighted means

  /** A vote counts when its evaluator covered the bootstrap pair, or bound the same king scores. */
  predicate Counts(c: Round, b: Ballot, voter: Hotkey, r: Result)
  {
    match c.king
    case None => |c.candidates| == 2 && voter in b.panels && b.panels[voter] == c.candidates.Keys
    case Some(king) =>
      (voter, king.modelId) in b.baselines &&
      var base := b.baselines[(voter, king.modelId)];
      !base.Rejected() && base.ControlsOk() && base.quality == r.kingQuality && base.reward == r.kingReward
  }

  function Counted(c: Round, b: Ballot, votes: Dict<Hotkey, Result>, voters: seq<Hotkey>): (r: seq<Hotkey>)
    requires forall v :: v in voters ==> v in votes.items
    ensures forall v :: v in r <==> v in voters && Counts(c, b, v, votes.items[v])
  {
    if voters == [] then []
    else
      var last := voters[|voters| - 1];
      Counted(c, b, votes, voters[..|voters| - 1]) + if Counts(c, b, last, votes.items[last]) then [last] else []
  }

  datatype Field = Quality | Reward | Gain

  function Score(f: Field, r: Result): int
  {
    match f
    case Quality => r.quality
    case Reward => r.reward
    case Gain => r.reward - r.kingReward
  }

  function Stake(c: Round, voter: Hotkey): real
  {
    if voter in c.snapshot.validators then c.snapshot.validators[voter] else 0.0
  }

  function TotalStake(c: Round, voters: seq<Hotkey>): real
  {
    if voters == [] then 0.0 else TotalStake(c, voters[..|voters| - 1]) + Stake(c, voters[|voters| - 1])
  }

  function Share(c: Round, voter: Hotkey, r: Result, f: Field): real
  {
    Stake(c, voter) * Score(f, r) as real
  }

  function Weighted(c: Round, voters: seq<Hotkey>, votes: map<Hotkey, Result>, f: Field): real
    requires forall v :: v in voters ==> v in votes
  {
    if voters == [] then 0.0
    else
      var last := voters[|voters| - 1];
      Weighted(c, voters[..|voters| - 1], votes, f) + Share(c, last, votes[last], f)
  }

  /** Exact mean in the unit interval; `total` is positive for a nonempty list of staked voters. */
  function MeanOf(c: Round, voters: seq<Hotkey>, votes: map<Hotkey, Result>, f: Field): real
    requires forall v :: v in voters ==> v in votes
  {
    if TotalStake(c, voters) <= 0.0 then 0.0
    else Weighted(c, voters, votes, f) / TotalStake(c, voters) / SCALE as real
  }

  const FLOOR: real := 5.0 / 100.0
  const MARGIN: real := 2.0 / 100.0

  function AggregateOf(c: Round, b: Ballot, votes: Dict<Hotkey, Result>): Option<Aggregate>
  {
    var voters := Counted(c, b, votes, votes.keys);
    if voters == [] then None
    else Some(Aggregate(MeanOf(c, voters, votes.items, Quality), MeanOf(c, voters, votes.items, Reward),
                        MeanOf(c, voters, votes.items, Gain),
                        exists v :: v in voters && votes.items[v].Partial(), voters))
  }

  /** Entries of the `aggregates` dictionary: a mean exists and clears the quality floor. */
  function Standing(c: Round, b: Ballot, m: ModelId): Option<Aggregate>
  {
    if m !in b.records.items then None
    else
      match AggregateOf(c, b, b.records.items[m])
      case None => None
      case Some(a) => if a.quality <= FLOOR then None else Some(a)
  }

  predicate Inconclusive(c: Round, b: Ballot, m: ModelId)
  {
    Standing(c, b, m).Some? && Standing(c, b, m).value.bounded && Standing(c, b, m).value.delta > MARGIN
  }

  /** With no king, some evaluator must have reported on two submissions. */
  predicate PairReported(b: Ballot) { exists v :: v in b.panels && |b.panels[v]| == 2 }

  predicate Eligible(c: Round, b: Ballot, m: ModelId)
  {
    && m in c.candidates && Standing(c, b, m).Some?
    && c.candidates[m].hotkey in c.snapshot.uids
    && !Standing(c, b, m).value.bounded
    && (c.king == None || Standing(c, b, m).value.delta > MARGIN)
    && (c.king == None ==> PairReported(b))
  }

  function Metric(c: Round, b: Ballot, m: ModelId): real
    requires Standing(c, b, m).Some?
  {
    if c.king.Some? then Standing(c, b, m).value.delta else Standing(c, b, m).value.reward
  }

  /** Strictly smaller under the key `(-metric, block, hotkey)`. */
  predicate Before(c: Round, b: Ballot, m: ModelId, n: ModelId)
    requires Eligible(c, b, m) && Eligible(c, b, n)
  {
    var x, y := c.candidates[m], c.candidates[n];
    Metric(c, b, m) > Metric(c, b, n) ||
    (Metric(c, b, m) == Metric(c, b, n) &&
     (x.block < y.block || (x.block == y.block && Ordering.Less(x.hotkey, y.hotkey))))
  }

  function EligibleOf(c: Round, b: Ballot, models: seq<ModelId>): (r: seq<ModelId>)
    ensures forall m :: m in r <==> m in models && Eligible(c, b, m)
  {
    if models == [] then []
    else
      EligibleOf(c, b, models[..|models| - 1]) +
      if Eligible(c, b, models[|models| - 1]) then [models[|models| - 1]] else []
  }

  /** `min(..., key=...)`: the first of the smallest. */
  function Best(c: Round, b: Ballot, models: seq<ModelId>): (r: ModelId)
    requires models != [] && forall m :: m in models ==> Eligible(c, b, m)
    ensures r in models
  {
    var last := models[|models| - 1];
    if |models| == 1 then last
    else
      var rest := Best(c, b, models[..|models| - 1]);
      if Before(c, b, last, rest) then last else rest
  }

  function Chosen(c: Round, b: Ballot): Option<ModelId>
  {
    var eligible := EligibleOf(c, b, b.records.keys);
    var best := if eligible == [] then None else Some(Best(c, b, eligible));
    if exists m :: m in b.records.items && Inconclusive(c, b, m) &&
                   (best == None || Metric(c, b, m) >= Metric(c, b, best.value))
    then None else best
  }

  function Winner(c: Round, b: Ballot): Option<Candidate>
  {
    var chosen := Chosen(c, b);
    var winner := if chosen.Some? then Some(c.candidates[chosen.value]) else c.king;
    if winner.Some? && winner.value.hotkey !in c.snapshot.uids then None else winner
  }

  /** The bounds already rule out victory. */
  predicate Lost(a: Aggregate) { a.quality <= FLOOR || a.delta <= MARGIN }

  predicate WellFormed(b: Ballot)
  {
    forall m, v :: m in b.records.items && v in b.records.items[m].items ==> b.records.items[m].items[v].Valid()
  }

  function LossesOf(votes: map<Hotkey, Result>, voters: seq<Hotkey>): (r: seq<Loss>)
    requires forall v :: v in voters ==> v in votes && votes[v].Valid()
    ensures forall l :: l in r <==> exists v :: v in voters && votes[v].Partial() && l == Loss(v, votes[v].Commitment())
  {
    if voters == [] then []
    else
      var last := voters[|voters| - 1];
      LossesOf(votes, voters[..|voters| - 1]) +
      if votes[last].Partial() then [Loss(last, votes[last].Commitment())] else []
  }

  function ModelLosses(c: Round, b: Ballot, m: ModelId): seq<Loss>
    requires WellFormed(b) && m in b.records.items
  {
    var votes := b.records.items[m];
    match AggregateOf(c, b, votes)
    case None => []
    case Some(a) => if Lost(a) then LossesOf(votes.items, Counted(c, b, votes, votes.keys)) else []
  }

  function Losses(c: Round, b: Ballot, models: seq<ModelId>): seq<Loss>
    requires WellFormed(b) && forall m :: m in models ==> m in b.records.items
  {
    if models == [] then []
    else Losses(c, b, models[..|models| - 1]) + ModelLosses(c, b, models[|models| - 1])
  }

  function DecisionOf(c: Round, b: Ballot): Decision
    requires WellFormed(b)
  {
    Decision(Winner(c, b), (set m | m in b.records.items && Inconclusive(c, b, m)), Losses(c, b, b.records.keys))
  }

  lemma VoteWellFormed(b: Ballot, voter: Hotkey, r: Result)
    requires WellFormed(b) && r.Valid()
    ensures WellFormed(Vote(b, voter, r))
  {
    hide Result.Valid, Result.Partial;
    var votes := Get(b.records, r.modelId, Empty());
    assert forall v :: v in votes.items ==> votes.items[v].Valid();
  }

  lemma AggregateSome(c: Round, b: Ballot, votes: Dict<Hotkey, Result>)
    ensures AggregateOf(c, b, votes).Some? <==> Counted(c, b, votes, votes.keys) != []
  {
  }

  lemma StepWellFormed(c: Round, b: Ballot, row: Row)
    requires WellFormed(b)
    ensures WellFormed(Step(c, b, row))
  {
    StepRecords(c, b, row);
    hide Parse, Step, Vote, WellFormed;
    if Parse(row.value).Ok? {
      CommitParsed(row.value);
      VoteWellFormed(b, row.hotkey, Parse(row.value).value);
      SameRecords(Vote(b, row.hotkey, Parse(row.value).value), Step(c, b, row));
    }
    SameRecords(b, Step(c, b, row));
  }

  lemma SameRecords(a: Ballot, b: Ballot)
    requires WellFormed(a)
    ensures b.records == a.records ==> WellFormed(b)
  {
  }

  /** A row leaves the votes alone or casts one. */
  lemma StepRecords(c: Round, b: Ballot, row: Row)
    ensures Step(c, b, row).records == b.records ||
            (Parse(row.value).Ok? && Step(c, b, row).records == Vote(b, row.hotkey, Parse(row.value).value).records)
  {
    hide Parse, Result.Valid, Result.Baseline, Result.Partial, Result.ControlsOk;
  }

  lemma {:induction false} FoldWellFormed(c: Round, rows: seq<Row>)
    ensures WellFormed(Fold(c, rows))
    decreases |rows|
  {
    if rows != [] {
      FoldWellFormed(c, rows[..|rows| - 1]);
      StepWellFormed(c, Fold(c, rows[..|rows| - 1]), rows[|rows| - 1]);
    }
  }

  // ---------------------------------------------------------------- the loops of the program

  /** Replays the rows in chain order into the four dictionaries. */
  method Tally(results: seq<Row>, c: Round) returns (b: Ballot)
    ensures b == Fold(c, Sort(results))
  {
    var sorted := Sort(results);
    var records: Dict<ModelId, Dict<Hotkey, Result>>, baselines, used, panels := Empty(), map[], {}, map[];
    for i := 0 to |sorted|
      invariant Ballot(records, baselines, used, panels) == Fold(c, sorted[..i])
    {
      var row := sorted[i];
      assert sorted[..i + 1][..i] == sorted[..i];
      var parsed := Parse(row.value);
      if parsed.Err? {
        continue;
      }
      var result, voter := parsed.value, row.hotkey;
      if result.window != c.window || result.policy != Prefix(c.policy) || !Staked(c, voter) {
        continue;
      }
      if result.Baseline() {
        if (voter, result.modelId) !in baselines {
          baselines := baselines[(voter, result.modelId) := result];
        }
        continue;
      }
      if result.modelId !in c.candidates || c.candidates[result.modelId].uid != result.uid {
        continue;
      }
      var key := (voter, c.candidates[result.modelId].hotkey);
      if key in used {
        continue;
      }
      if !result.Partial() {
        used := used + {key};
      }
      if !result.ControlsOk() {
        continue;
      }
      if result.Partial() {
        if c.king == None {
          continue;
        }
      } else {
        panels := panels[voter := (if voter in panels then panels[voter] else {}) + {result.modelId}];
      }
      var votes := Get(records, result.modelId, Empty());
      if voter !in votes.items || !result.Partial() {
        votes := Put(votes, voter, result);
      }
      records := Put(records, result.modelId, votes);
    }
    assert sorted[..|sorted|] == sorted;
    b := Ballot(records, baselines, used, panels);
  }

  method Decide(results: seq<Row>, c: Round) returns (d: Decision)
    ensures WellFormed(Fold(c, Sort(results))) && d == DecisionOf(c, Fold(c, Sort(results)))
  {
    var b := Tally(results, c);
    FoldWellFormed(c, Sort(results));
    hide Fold, Sort, Winner, Counted, AggregateOf, LossesOf, WellFormed, Losses, ModelLosses, Standing, Lost;
    var earlyLosses := [];
    var aggregates: map<ModelId, Aggregate> := map[];
    var keys := b.records.keys;
    NoLosses(c, b);
    for i := 0 to |keys|
      invariant earlyLosses == Losses(c, b, keys[..i])
      invariant Aggregated(c, b, keys[..i], aggregates)
    {
      var votes := b.records.items[keys[i]];
      var voters := Counted(c, b, votes, votes.keys);
      NextModel(c, b, keys, i, aggregates);
      if voters == [] {
        continue;
      }
      var a := AggregateOf(c, b, votes).value;
      if Lost(a) {
        earlyLosses := earlyLosses + LossesOf(votes.items, voters);
      }
      if a.quality <= FLOOR {
        continue;
      }
      aggregates := aggregates[keys[i] := a];
    }
    assert keys[..|keys|] == keys;
    InconclusiveModels(c, b, aggregates);
    var inconclusive := set m | m in aggregates && aggregates[m].bounded && aggregates[m].delta > MARGIN;
    d := Decision(Winner(c, b), inconclusive, earlyLosses);
  }

  /** The `aggregates` dictionary over the models looked at so far. */
  ghost predicate Aggregated(c: Round, b: Ballot, models: seq<ModelId>, aggregates: map<ModelId, Aggregate>)
  {
    && (forall m :: m in aggregates <==> m in models && Standing(c, b, m).Some?)
    && (forall m :: m in aggregates ==> aggregates[m] == Standing(c, b, m).value)
  }

  lemma NoLosses(c: Round, b: Ballot)
    requires WellFormed(b)
    ensures Losses(c, b, b.records.keys[..0]) == [] && Aggregated(c, b, b.records.keys[..0], map[])
  {
  }

  /** How looking at one more model extends the losses and the aggregates. */
  lemma NextModel(c: Round, b: Ballot, keys: seq<ModelId>, i: nat, aggregates: map<ModelId, Aggregate>)
    requires WellFormed(b) && i < |keys| && (forall m :: m in keys ==> m in b.records.items)
    requires Aggregated(c, b, keys[..i], aggregates)
    ensures var votes := b.records.items[keys[i]];
      var voters, a, before := Counted(c, b, votes, votes.keys), AggregateOf(c, b, votes), Losses(c, b, keys[..i]);
      && (a.Some? <==> voters != [])
      && (forall v :: v in voters ==> v in votes.items && votes.items[v].Valid())
      && Losses(c, b, keys[..i + 1]) == (if a.Some? && Lost(a.value) then before + LossesOf(votes.items, voters)
        else before)
      && Aggregated(c, b, keys[..i + 1],
                    if a.Some? && a.value.quality > FLOOR then aggregates[keys[i] := a.value] else aggregates)
  {
    hide Counted, AggregateOf, LossesOf, Lost, Result.Valid;
    assert keys[..i + 1] == keys[..i] + [keys[i]] && keys[..i + 1][..i] == keys[..i];
    AggregateSome(c, b, b.records.items[keys[i]]);
    assert Losses(c, b, keys[..i + 1]) == Losses(c, b, keys[..i]) + ModelLosses(c, b, keys[i]);
  }

  lemma InconclusiveModels(c: Round, b: Ballot, aggregates: map<ModelId, Aggregate>)
    requires Aggregated(c, b, b.records.keys, aggregates)
    ensures (set m | m in aggregates && aggregates[m].bounded && aggregates[m].delta > MARGIN)
         == (set m | m in b.records.items && Inconclusive(c, b, m))
  {
    hide AggregateOf;
  }
}
