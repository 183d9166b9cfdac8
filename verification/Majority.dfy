/**
 The decision on a ballot, said of stakes and raw scores: sums over the evaluators that count,
 with no mean, no list order and no tie-breaking loop.
 */
module Majority {
  import opened Common
  import opened Dicts
  import opened Wire
  import opened Decide
  import opened Sums
  import Consensus
  import Ordering
  import Verdict

  // ---------------------------------------------------------------- sums over the evaluators that count

  function QualityOf(r: Result): int { r.quality }

  function RewardOf(r: Result): int { r.reward }

  function GainOf(r: Result): int { r.reward - r.kingReward }

  /** The evaluator covered the bootstrap pair, or bound the king scores of its own accepted baseline. */
  ghost predicate Admitted(c: Round, b: Ballot, v: Hotkey, r: Result)
  {
    if c.king == None then |c.candidates| == 2 && v in b.panels && b.panels[v] == c.candidates.Keys
    else
      (v, c.king.value.modelId) in b.baselines &&
      var base := b.baselines[(v, c.king.value.modelId)];
      && Verdict.Passing(base) && !Verdict.Rejection(base)
      && base.quality == r.kingQuality && base.reward == r.kingReward
  }

  ghost function Supporters(c: Round, b: Ballot, m: ModelId): set<Hotkey>
  {
    if m in b.records.items
    then set v | v in b.records.items[m].items && Admitted(c, b, v, b.records.items[m].items[v])
    else {}
  }

  ghost function Stakes(c: Round): Hotkey -> real
  {
    (v: Hotkey) => if v in c.snapshot.validators then c.snapshot.validators[v] else 0.0
  }

  /** Stake times raw score. */
  ghost function Scores(c: Round, votes: map<Hotkey, Result>, f: Result -> int): Hotkey -> real
  {
    (v: Hotkey) =>
      if v in c.snapshot.validators && v in votes then c.snapshot.validators[v] * f(votes[v]) as real else 0.0
  }

  ghost function Power(c: Round, b: Ballot, m: ModelId): real { Sum(Supporters(c, b, m), Stakes(c)) }

  ghost function Weigh(c: Round, b: Ballot, m: ModelId, f: Result -> int): real
  {
    if m in b.records.items then Sum(Supporters(c, b, m), Scores(c, b.records.items[m].items, f)) else 0.0
  }

  // ---------------------------------------------------------------- what the numbers decide

  /** The weighted quality exceeds the floor of five hundredths. */
  ghost predicate Rated(c: Round, b: Ballot, m: ModelId)
  {
    Supporters(c, b, m) != {} && 100.0 * Weigh(c, b, m, QualityOf) > 5.0 * 65535.0 * Power(c, b, m)
  }

  /** The weighted improvement over the king exceeds two hundredths. */
  ghost predicate Beats(c: Round, b: Ballot, m: ModelId)
  {
    100.0 * Weigh(c, b, m, GainOf) > 2.0 * 65535.0 * Power(c, b, m)
  }

  ghost predicate Unfinished(c: Round, b: Ballot, m: ModelId)
  {
    m in b.records.items && exists v :: v in Supporters(c, b, m) && Verdict.Bound(b.records.items[m].items[v])
  }

  ghost predicate Contends(c: Round, b: Ballot, m: ModelId)
  {
    && m in c.candidates && c.candidates[m].hotkey in c.snapshot.uids
    && Rated(c, b, m) && !Unfinished(c, b, m)
    && if c.king.Some? then Beats(c, b, m) else exists v :: v in b.panels && |b.panels[v]| == 2
  }

  /** Only its bounds say that it could win. */
  ghost predicate MayWin(c: Round, b: Ballot, m: ModelId)
  {
    Rated(c, b, m) && Unfinished(c, b, m) && Beats(c, b, m)
  }

  /** Mean improvement against a king, mean reward without one, in units of the wire. */
  ghost function Merit(c: Round, b: Ballot, m: ModelId): real
  {
    if Power(c, b, m) == 0.0 then 0.0
    else Weigh(c, b, m, if c.king.Some? then GainOf else RewardOf) / Power(c, b, m)
  }

  ghost predicate Outranks(c: Round, b: Ballot, m: ModelId, n: ModelId)
    requires m in c.candidates && n in c.candidates
  {
    var x, y := c.candidates[m], c.candidates[n];
    Merit(c, b, m) > Merit(c, b, n) ||
    (Merit(c, b, m) == Merit(c, b, n) &&
     (x.block < y.block || (x.block == y.block && Ordering.Less(x.hotkey, y.hotkey))))
  }

  ghost predicate Crowned(c: Round, b: Ballot, m: ModelId)
  {
    && Contends(c, b, m)
    && (forall n :: Contends(c, b, n) && n != m ==> Outranks(c, b, m, n))
    && (forall n :: MayWin(c, b, n) ==> Merit(c, b, n) < Merit(c, b, m))
  }

  // ---------------------------------------------------------------- lists of voters are sets

  ghost predicate Distinct(s: seq<Hotkey>) { forall i, j :: 0 <= i < j < |s| ==> s[i] != s[j] }

  ghost function Members(s: seq<Hotkey>): set<Hotkey> { set v | v in s }

  lemma MembersMore(s: seq<Hotkey>)
    requires s != [] && Distinct(s)
    ensures var n := |s| - 1;
      && Distinct(s[..n]) && s[n] !in Members(s[..n]) && Members(s) == Members(s[..n]) + {s[n]}
      && Members(s) - {s[n]} == Members(s[..n])
  {
    var n := |s| - 1;
    assert s == s[..n] + [s[n]];
  }

  lemma {:induction false} TotalIsSum(c: Round, voters: seq<Hotkey>)
    requires Distinct(voters)
    ensures TotalStake(c, voters) == Sum(Members(voters), Stakes(c))
    decreases |voters|
  {
    if voters == [] {
      assert Members(voters) == {};
    } else {
      var n := |voters| - 1;
      MembersMore(voters);
      TotalIsSum(c, voters[..n]);
      SumPick(Members(voters), Stakes(c), voters[n]);
    }
  }

  function Reading(f: Field): Result -> int
  {
    match f
    case Quality => QualityOf
    case Reward => RewardOf
    case Gain => GainOf
  }

  lemma {:induction false} WeightedIsSum(c: Round, voters: seq<Hotkey>, votes: map<Hotkey, Result>, f: Field)
    requires Distinct(voters) && forall v :: v in voters ==> v in votes
    ensures Weighted(c, voters, votes, f) == Sum(Members(voters), Scores(c, votes, Reading(f)))
    decreases |voters|
  {
    if voters == [] {
      assert Members(voters) == {};
    } else {
      var n := |voters| - 1;
      MembersMore(voters);
      WeightedIsSum(c, voters[..n], votes, f);
      SumPick(Members(voters), Scores(c, votes, Reading(f)), voters[n]);
      ShareIsScore(c, voters[n], votes, f);
    }
  }

  lemma ShareIsScore(c: Round, v: Hotkey, votes: map<Hotkey, Result>, f: Field)
    requires v in votes
    ensures Share(c, v, votes[v], f) == Scores(c, votes, Reading(f))(v)
  {
  }

  lemma {:induction false} CountedDistinct(c: Round, b: Ballot, votes: Dict<Hotkey, Result>, voters: seq<Hotkey>)
    requires Distinct(voters) && forall v :: v in voters ==> v in votes.items
    ensures Distinct(Counted(c, b, votes, voters))
    decreases |voters|
  {
    if voters != [] {
      var n := |voters| - 1;
      MembersMore(voters);
      CountedDistinct(c, b, votes, voters[..n]);
      var front := Counted(c, b, votes, voters[..n]);
      assert forall i :: 0 <= i < |front| ==> front[i] in front;
    }
  }

  lemma CountsMeans(c: Round, b: Ballot, v: Hotkey, r: Result)
    ensures Counts(c, b, v, r) <==> Admitted(c, b, v, r)
  {
  }

  lemma SupportersAreCounted(c: Round, b: Ballot, m: ModelId)
    requires m in b.records.items
    ensures var votes := b.records.items[m];
      && Distinct(Counted(c, b, votes, votes.keys))
      && Supporters(c, b, m) == Members(Counted(c, b, votes, votes.keys))
  {
    var votes := b.records.items[m];
    CountedDistinct(c, b, votes, votes.keys);
    forall v | v in votes.items
      ensures Counts(c, b, v, votes.items[v]) <==> Admitted(c, b, v, votes.items[v])
    {
      CountsMeans(c, b, v, votes.items[v]);
    }
    hide Counts, Admitted;
  }

  // ---------------------------------------------------------------- means are stake-weighted

  /** A mean in the unit interval, times a stake, in units of the wire. */
  ghost function InUnits(mean: real, power: real): real { mean * (power * 65535.0) }

  lemma Divided(w: real, p: real)
    requires p > 0.0
    ensures InUnits(w / p / SCALE as real, p) == w
  {
    var q := w / p;
    assert q * p == w;
    assert q / 65535.0 * 65535.0 == q;
    Regroup(q / 65535.0, p);
  }

  lemma Regroup(x: real, p: real)
    ensures x * (p * 65535.0) == x * 65535.0 * p
  {
  }

  lemma VotersStaked(c: Round, b: Ballot, m: ModelId)
    requires m in b.records.items && Supporters(c, b, m) != {} && Consensus.Reachable(c, b)
    ensures var votes := b.records.items[m]; TotalStake(c, Counted(c, b, votes, votes.keys)) > 0.0
  {
    var votes := b.records.items[m];
    var voters := Counted(c, b, votes, votes.keys);
    SupportersAreCounted(c, b, m);
    assert Consensus.ProperVotes(c, votes);
    assert voters != [];
    Consensus.StakeIsPositive(c, voters);
  }

  lemma MeanInUnits(c: Round, b: Ballot, m: ModelId, f: Field)
    requires m in b.records.items && Supporters(c, b, m) != {} && Consensus.Reachable(c, b)
    ensures var votes := b.records.items[m];
      && Power(c, b, m) > 0.0
      && InUnits(MeanOf(c, Counted(c, b, votes, votes.keys), votes.items, f), Power(c, b, m))
         == Weigh(c, b, m, Reading(f))
  {
    var votes := b.records.items[m];
    var voters := Counted(c, b, votes, votes.keys);
    SupportersAreCounted(c, b, m);
    TotalIsSum(c, voters);
    WeightedIsSum(c, voters, votes.items, f);
    VotersStaked(c, b, m);
    hide Counted, Supporters, Weighted, TotalStake, Sum, Stakes, Scores, Consensus.Reachable, Distinct, InUnits,
      Members;
    Divided(Weighted(c, voters, votes.items, f), TotalStake(c, voters));
  }

  /**
   The mean of the evaluators that count is weighted by their stake: the mean, times their stake, is
   the sum of each one's stake times its raw score.
   */
  lemma MeanIsStakeWeighted(c: Round, b: Ballot, m: ModelId, f: Field)
    requires m in b.records.items && Supporters(c, b, m) != {} && Consensus.Reachable(c, b)
    ensures var votes := b.records.items[m];
      && Power(c, b, m) > 0.0
      && MeanOf(c, Counted(c, b, votes, votes.keys), votes.items, f) * (Power(c, b, m) * 65535.0)
         == Weigh(c, b, m, Reading(f))
  {
    hide Counted, Supporters, MeanOf, Power, Weigh, Consensus.Reachable;
    MeanInUnits(c, b, m, f);
  }

  // ---------------------------------------------------------------- the program's decision is this one

  lemma Threshold(x: real, w: real, p: real, k: real)
    requires p > 0.0 && InUnits(x, p) == w
    ensures x > k / 100.0 <==> 100.0 * w > k * 65535.0 * p
  {
    var d := p * 65535.0;
    assert 100.0 * w == x * 100.0 * d by { Swap(x, d); }
    assert k * 65535.0 * p == k * d by { Third(k, p); }
    Order(x * 100.0, k, d);
  }

  lemma Swap(x: real, d: real)
    ensures 100.0 * (x * d) == x * 100.0 * d
  {
  }

  lemma Third(k: real, p: real)
    ensures k * 65535.0 * p == k * (p * 65535.0)
  {
  }

  lemma Order(x: real, y: real, d: real)
    requires d > 0.0
    ensures x > y <==> x * d > y * d
    ensures x == y <==> x * d == y * d
  {
    if x > y {
      assert (x - y) * d > 0.0;
    } else if x < y {
      assert (y - x) * d > 0.0;
    }
  }

  /** A model stands exactly when somebody counts and the weighted quality clears the floor. */
  lemma StandingMeans(c: Round, b: Ballot, m: ModelId)
    requires Consensus.Reachable(c, b)
    ensures Standing(c, b, m).Some? <==> Rated(c, b, m)
    ensures Rated(c, b, m) ==>
      var a := Standing(c, b, m).value;
      && m in b.records.items && Power(c, b, m) > 0.0
      && (a.bounded <==> Unfinished(c, b, m)) && (a.delta > MARGIN <==> Beats(c, b, m))
      && InUnits(a.delta, Power(c, b, m)) == Weigh(c, b, m, GainOf)
      && InUnits(a.reward, Power(c, b, m)) == Weigh(c, b, m, RewardOf)
  {
    hide AggregateOf, Supporters, Weigh, Power, Consensus.Reachable, InUnits;
    if m in b.records.items {
      AggregateMeans(c, b, m);
    } else {
      assert Supporters(c, b, m) == {} by { NobodySupports(c, b, m); }
    }
  }

  lemma NobodySupports(c: Round, b: Ballot, m: ModelId)
    requires m !in b.records.items
    ensures Supporters(c, b, m) == {}
  {
  }

  lemma AggregateMeans(c: Round, b: Ballot, m: ModelId)
    requires m in b.records.items && Consensus.Reachable(c, b)
    ensures AggregateOf(c, b, b.records.items[m]).Some? <==> Supporters(c, b, m) != {}
    ensures Supporters(c, b, m) != {} ==>
      var a := AggregateOf(c, b, b.records.items[m]).value;
      && Power(c, b, m) > 0.0 && (a.bounded <==> Unfinished(c, b, m))
      && (a.quality > FLOOR <==> 100.0 * Weigh(c, b, m, QualityOf) > 5.0 * 65535.0 * Power(c, b, m))
      && (a.delta > MARGIN <==> Beats(c, b, m))
      && InUnits(a.delta, Power(c, b, m)) == Weigh(c, b, m, GainOf)
      && InUnits(a.reward, Power(c, b, m)) == Weigh(c, b, m, RewardOf)
  {
    hide Counted, MeanOf, Weigh, Power, Distinct, Consensus.Reachable, InUnits, Supporters;
    var votes := b.records.items[m];
    SomebodyCounts(c, b, m);
    if Counted(c, b, votes, votes.keys) != [] {
      MeanThreshold(c, b, m, Quality, 5.0);
      MeanThreshold(c, b, m, Gain, 2.0);
      MeanInUnits(c, b, m, Reward);
      SupportersAreCounted(c, b, m);
    }
  }

  lemma SomebodyCounts(c: Round, b: Ballot, m: ModelId)
    requires m in b.records.items
    ensures var votes := b.records.items[m];
      Counted(c, b, votes, votes.keys) != [] <==> Supporters(c, b, m) != {}
  {
    SupportersAreCounted(c, b, m);
    var votes := b.records.items[m];
    var voters := Counted(c, b, votes, votes.keys);
    hide Counted, Supporters;
    assert voters != [] ==> voters[0] in Members(voters);
  }

  lemma MeanThreshold(c: Round, b: Ballot, m: ModelId, f: Field, k: real)
    requires m in b.records.items && Supporters(c, b, m) != {} && Consensus.Reachable(c, b)
    ensures var votes, p, w := b.records.items[m], Power(c, b, m), Weigh(c, b, m, Reading(f));
      var mean := MeanOf(c, Counted(c, b, votes, votes.keys), votes.items, f);
      && p > 0.0 && InUnits(mean, p) == w && (mean > k / 100.0 <==> 100.0 * w > k * 65535.0 * p)
  {
    hide Counted, Supporters, MeanOf, Weigh, Power, Consensus.Reachable, InUnits;
    var votes := b.records.items[m];
    MeanInUnits(c, b, m, f);
    Threshold(MeanOf(c, Counted(c, b, votes, votes.keys), votes.items, f), Weigh(c, b, m, Reading(f)), Power(c, b, m),
      k);
  }

  /** Merit orders models as the exact means do. */
  lemma MeritIsMetric(c: Round, b: Ballot, m: ModelId)
    requires Consensus.Reachable(c, b) && Rated(c, b, m)
    ensures Standing(c, b, m).Some? && Merit(c, b, m) == Metric(c, b, m) * 65535.0
  {
    StandingMeans(c, b, m);
    hide Standing, Rated, Weigh, Power, Consensus.Reachable;
    Quotient(Metric(c, b, m), Power(c, b, m));
  }

  lemma Quotient(x: real, p: real)
    requires p > 0.0
    ensures InUnits(x, p) / p == x * 65535.0
  {
    Regroup(x, p);
    assert x * 65535.0 * p / p == x * 65535.0;
  }

  lemma EligibleMeans(c: Round, b: Ballot, m: ModelId)
    requires Consensus.Reachable(c, b)
    ensures Eligible(c, b, m) <==> Contends(c, b, m)
    ensures Inconclusive(c, b, m) <==> MayWin(c, b, m)
  {
    StandingMeans(c, b, m);
    hide Standing, Rated, Beats, Unfinished, Consensus.Reachable;
  }

  lemma BeforeMeans(c: Round, b: Ballot, m: ModelId, n: ModelId)
    requires Consensus.Reachable(c, b) && Contends(c, b, m) && Contends(c, b, n)
    ensures Eligible(c, b, m) && Eligible(c, b, n) && (Before(c, b, m, n) <==> Outranks(c, b, m, n))
  {
    EligibleMeans(c, b, m);
    EligibleMeans(c, b, n);
    MeritIsMetric(c, b, m);
    MeritIsMetric(c, b, n);
    hide Eligible, Merit, Metric, Contends;
    Order(Metric(c, b, m), Metric(c, b, n), 65535.0);
    Order(Metric(c, b, n), Metric(c, b, m), 65535.0);
  }

  /** The chosen challenger is the crowned one: the program's loop finds exactly what the numbers say. */
  lemma ChosenIsCrowned(c: Round, b: Ballot, m: ModelId)
    requires Consensus.Reachable(c, b) && Consensus.DistinctHotkeys(c)
    ensures Chosen(c, b) == Some(m) <==> Crowned(c, b, m)
  {
    hide Eligible, Before, Inconclusive, Contends, MayWin, Outranks, Merit, Consensus.Reachable,
      Consensus.DistinctHotkeys;
    if Chosen(c, b) == Some(m) {
      ChosenOutranks(c, b, m);
    }
    if Crowned(c, b, m) {
      CrownedIsChosen(c, b, m);
    }
  }

  lemma ChosenOutranks(c: Round, b: Ballot, m: ModelId)
    requires Consensus.Reachable(c, b) && Consensus.DistinctHotkeys(c) && Chosen(c, b) == Some(m)
    ensures Crowned(c, b, m)
  {
    Consensus.CrownListed(c, b);
    EligibleMeans(c, b, m);
    hide Eligible, Before, Inconclusive, Contends, MayWin, Outranks, Merit, Consensus.Reachable,
      Consensus.DistinctHotkeys, Chosen;
    forall n | Contends(c, b, n) && n != m
      ensures Outranks(c, b, m, n)
    {
      EligibleMeans(c, b, n);
      EligibleRecorded(c, b, n);
      Consensus.CrownIsUniqueMinimum(c, b, n);
      BeforeMeans(c, b, m, n);
    }
    forall n | MayWin(c, b, n)
      ensures Merit(c, b, n) < Merit(c, b, m)
    {
      DoubtfulIsBelow(c, b, m, n);
    }
  }

  lemma EligibleRecorded(c: Round, b: Ballot, m: ModelId)
    ensures Eligible(c, b, m) || Inconclusive(c, b, m) ==> m in b.records.items
  {
  }

  lemma DoubtfulIsBelow(c: Round, b: Ballot, m: ModelId, n: ModelId)
    requires Consensus.Reachable(c, b) && Chosen(c, b) == Some(m) && MayWin(c, b, n)
    ensures Merit(c, b, n) < Merit(c, b, m)
  {
    Consensus.CrownListed(c, b);
    EligibleMeans(c, b, n);
    EligibleMeans(c, b, m);
    EligibleRecorded(c, b, n);
    ContenderRated(c, b, m);
    MeritIsMetric(c, b, m);
    MeritIsMetric(c, b, n);
    hide Eligible, Inconclusive, Contends, MayWin, Merit, Metric, Before, Consensus.Reachable;
    Order(Metric(c, b, m), Metric(c, b, n), 65535.0);
  }

  lemma ContenderRated(c: Round, b: Ballot, m: ModelId)
    ensures Contends(c, b, m) ==> Rated(c, b, m)
    ensures MayWin(c, b, m) ==> Rated(c, b, m)
  {
  }

  lemma CrownedIsChosen(c: Round, b: Ballot, m: ModelId)
    requires Consensus.Reachable(c, b) && Consensus.DistinctHotkeys(c) && Crowned(c, b, m)
    ensures Chosen(c, b) == Some(m)
  {
    EligibleMeans(c, b, m);
    EligibleRecorded(c, b, m);
    hide Eligible, Before, Inconclusive, Contends, MayWin, Outranks, Merit, Metric, Consensus.Reachable,
      Consensus.DistinctHotkeys, Chosen;
    forall n | n in b.records.items && Inconclusive(c, b, n)
      ensures Metric(c, b, n) < Metric(c, b, m)
    {
      EligibleMeans(c, b, n);
      ContenderRated(c, b, m);
      ContenderRated(c, b, n);
      MeritIsMetric(c, b, m);
      MeritIsMetric(c, b, n);
      Order(Metric(c, b, m), Metric(c, b, n), 65535.0);
    }
    forall n | n in b.records.items && Eligible(c, b, n) && n != m
      ensures Consensus.Precedes(c, b, m, n)
    {
      EligibleMeans(c, b, n);
      BeforeMeans(c, b, m, n);
    }
    Consensus.MinimumIsChosen(c, b, m);
  }

  // ---------------------------------------------------------------- early losses

  /** `l` is the partial vote of an evaluator that counts, on a model whose numbers cannot win. */
  ghost predicate LostBound(c: Round, b: Ballot, m: ModelId, v: Hotkey, l: Loss)
    requires WellFormed(b)
  {
    && v in Supporters(c, b, m) && m in b.records.items && v in b.records.items[m].items
    && Verdict.Bound(b.records.items[m].items[v]) && !(Rated(c, b, m) && Beats(c, b, m))
    && l == Loss(v, b.records.items[m].items[v].Commitment())
  }

  lemma ModelLossesMean(c: Round, b: Ballot, m: ModelId, l: Loss)
    requires WellFormed(b) && Consensus.Reachable(c, b) && m in b.records.items
    ensures l in ModelLosses(c, b, m) <==> exists v :: LostBound(c, b, m, v, l)
  {
    hide AggregateOf, Counted, LossesOf, Supporters, Beats, Rated, WellFormed, Consensus.Reachable, LostBound;
    var votes := b.records.items[m];
    var voters := Counted(c, b, votes, votes.keys);
    VotersValid(c, b, m);
    if Supporters(c, b, m) != {} && !(Rated(c, b, m) && Beats(c, b, m)) {
      LossesOfVoters(c, b, m, l);
      LostMeans(c, b, m);
    } else {
      NobodyLost(c, b, m, l);
      LostMeans(c, b, m);
    }
  }

  lemma VotersValid(c: Round, b: Ballot, m: ModelId)
    requires WellFormed(b) && m in b.records.items
    ensures var votes := b.records.items[m];
      forall v :: v in Counted(c, b, votes, votes.keys) ==> v in votes.items && votes.items[v].Valid()
  {
    hide Result.Valid;
  }

  lemma NobodyLost(c: Round, b: Ballot, m: ModelId, l: Loss)
    requires WellFormed(b) && (Supporters(c, b, m) == {} || (Rated(c, b, m) && Beats(c, b, m)))
    ensures !exists v :: LostBound(c, b, m, v, l)
  {
    hide Supporters, Rated, Beats, Result.Commitment, Result.Valid;
  }

  lemma LostMeans(c: Round, b: Ballot, m: ModelId)
    requires Consensus.Reachable(c, b) && m in b.records.items
    ensures var a := AggregateOf(c, b, b.records.items[m]);
      (a.Some? && Lost(a.value)) <==> (Supporters(c, b, m) != {} && !(Rated(c, b, m) && Beats(c, b, m)))
  {
    AggregateMeans(c, b, m);
    hide AggregateOf, Supporters, Weigh, Power, InUnits, Consensus.Reachable;
  }

  lemma LossesOfVoters(c: Round, b: Ballot, m: ModelId, l: Loss)
    requires WellFormed(b) && m in b.records.items && !(Rated(c, b, m) && Beats(c, b, m))
    ensures var votes := b.records.items[m];
      var voters := Counted(c, b, votes, votes.keys);
      && (forall v :: v in voters ==> v in votes.items && votes.items[v].Valid())
      && (l in LossesOf(votes.items, voters) <==> exists v :: LostBound(c, b, m, v, l))
  {
    var votes := b.records.items[m];
    var voters := Counted(c, b, votes, votes.keys);
    SupportersAreCounted(c, b, m);
    VotersValid(c, b, m);
    hide Counted, Supporters, Distinct, WellFormed, Rated, Beats, Result.Commitment, Result.Valid;
    forall v
      ensures LostBound(c, b, m, v, l) <==>
        v in voters && votes.items[v].Partial() && l == Loss(v, votes.items[v].Commitment())
    {
      assert v in Supporters(c, b, m) <==> v in Members(voters);
    }
    hide LostBound;
  }

  lemma {:induction false} LossesListed(c: Round, b: Ballot, models: seq<ModelId>, l: Loss)
    requires WellFormed(b) && forall m :: m in models ==> m in b.records.items
    ensures l in Losses(c, b, models) <==> exists m :: m in models && l in ModelLosses(c, b, m)
    decreases |models|
  {
    hide ModelLosses, WellFormed;
    if models != [] {
      var n := |models| - 1;
      LossesListed(c, b, models[..n], l);
      assert forall m :: m in models <==> m in models[..n] || m == models[n];
    }
  }

  lemma LossesMean(c: Round, b: Ballot, l: Loss)
    requires WellFormed(b) && Consensus.Reachable(c, b)
    ensures l in Losses(c, b, b.records.keys) <==> exists m, v :: LostBound(c, b, m, v, l)
  {
    LossesListed(c, b, b.records.keys, l);
    forall m | m in b.records.items
      ensures l in ModelLosses(c, b, m) <==> exists v :: LostBound(c, b, m, v, l)
    {
      ModelLossesMean(c, b, m, l);
    }
    assert forall m, v :: LostBound(c, b, m, v, l) ==> m in b.records.keys;
    hide LostBound, ModelLosses, Losses, WellFormed;
  }

  // ---------------------------------------------------------------- the whole decision

  /**
   What a decision says, from the finalized rows to the winner: the first results count, the crowned
   challenger of the stake-weighted sums wins, otherwise the king keeps its place as long as it is
   registered; inconclusive is what only its bounds could crown; and a loss is a bound that cannot win.
   */
  lemma DecisionMeans(c: Round, rows: seq<Row>)
    requires Consensus.DistinctHotkeys(c)
    ensures var b := Fold(c, Sort(rows));
      && WellFormed(b) && Verdict.Counted(c, rows, b)
      && var d := DecisionOf(c, b);
         && (forall m :: Crowned(c, b, m) ==> m in c.candidates && d.winner == Some(c.candidates[m]))
         && ((forall m :: !Crowned(c, b, m)) ==>
               d.winner == if c.king.Some? && c.king.value.hotkey in c.snapshot.uids then c.king else None)
         && (forall m :: m in d.inconclusive <==> MayWin(c, b, m))
         && (forall l :: l in d.earlyLosses <==> exists m, v :: LostBound(c, b, m, v, l))
  {
    var b := Fold(c, Sort(rows));
    Verdict.FirstResultsCount(c, rows);
    FoldWellFormed(c, Sort(rows));
    Consensus.FoldReachable(c, Sort(rows));
    hide Fold, Sort, Verdict.Counted, LostBound, WellFormed, Losses, Consensus.Reachable, Consensus.DistinctHotkeys;
    WinnerMeans(c, b);
    forall m
      ensures m in b.records.items && Inconclusive(c, b, m) <==> MayWin(c, b, m)
    {
      EligibleMeans(c, b, m);
      EligibleRecorded(c, b, m);
    }
    forall l
      ensures l in Losses(c, b, b.records.keys) <==> exists m, v :: LostBound(c, b, m, v, l)
    {
      LossesMean(c, b, l);
    }
    hide Winner, Crowned, MayWin, Inconclusive;
  }

  lemma WinnerMeans(c: Round, b: Ballot)
    requires Consensus.Reachable(c, b) && Consensus.DistinctHotkeys(c)
    ensures forall m :: Crowned(c, b, m) ==> m in c.candidates && Winner(c, b) == Some(c.candidates[m])
    ensures (forall m :: !Crowned(c, b, m)) ==>
      Winner(c, b) == if c.king.Some? && c.king.value.hotkey in c.snapshot.uids then c.king else None
  {
    hide Chosen, Rated, Unfinished, Beats, Outranks, MayWin, Merit, Consensus.Reachable, Consensus.DistinctHotkeys;
    forall m
      ensures Chosen(c, b) == Some(m) <==> Crowned(c, b, m)
    {
      ChosenIsCrowned(c, b, m);
    }
    assert Chosen(c, b).Some? ==> Crowned(c, b, Chosen(c, b).value);
  }
}
