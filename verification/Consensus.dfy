/** What the decision guarantees: independence of row order, and safety of early stopping. */
module Consensus {
  import opened Common
  import opened Dicts
  import Ordering
  import opened Wire
  import opened Decide

  // ---------------------------------------------------------------- the order of the rows

  lemma RowTotal(a: Row, b: Row)
    ensures RowLeq(a, b) || RowLeq(b, a)
    ensures RowLeq(a, b) && RowLeq(b, a) ==> a == b
  {
    Ordering.LessTotal(a.hotkey, b.hotkey);
    Ordering.LessTotal(a.value, b.value);
    if Ordering.Less(a.hotkey, b.hotkey) { Ordering.LessAsymmetric(a.hotkey, b.hotkey); }
    if Ordering.Less(b.hotkey, a.hotkey) { Ordering.LessAsymmetric(b.hotkey, a.hotkey); }
    if Ordering.Less(a.value, b.value) { Ordering.LessAsymmetric(a.value, b.value); }
    if Ordering.Less(b.value, a.value) { Ordering.LessAsymmetric(b.value, a.value); }
  }

  lemma RowTransitive(a: Row, b: Row, d: Row)
    requires RowLeq(a, b) && RowLeq(b, d)
    ensures RowLeq(a, d)
  {
    if Ordering.Less(a.hotkey, b.hotkey) && Ordering.Less(b.hotkey, d.hotkey) {
      Ordering.LessTransitive(a.hotkey, b.hotkey, d.hotkey);
    }
    if Ordering.Less(a.value, b.value) && Ordering.Less(b.value, d.value) {
      Ordering.LessTransitive(a.value, b.value, d.value);
    }
  }

  lemma {:induction false} InsertSorts(x: Row, rows: seq<Row>)
    requires Sorted(rows)
    ensures Sorted(Insert(x, rows))
    ensures forall y :: y in Insert(x, rows) <==> y == x || y in rows
    decreases |rows|
  {
    if rows == [] {
    } else if RowLeq(x, rows[0]) {
      forall k | 0 <= k < |rows|
        ensures RowLeq(x, rows[k])
      {
        if k > 0 { RowTransitive(x, rows[0], rows[k]); }
      }
    } else {
      var rest := Insert(x, rows[1..]);
      InsertSorts(x, rows[1..]);
      assert rows == [rows[0]] + rows[1..];
      forall k | 0 <= k < |rest|
        ensures RowLeq(rows[0], rest[k])
      {
        RowTotal(x, rows[0]);
        assert rest[k] in rest;
      }
    }
  }

  lemma {:induction false} SortSorts(rows: seq<Row>)
    ensures Sorted(Sort(rows))
    ensures forall y :: y in Sort(rows) <==> y in rows
    decreases |rows|
  {
    if rows != [] {
      SortSorts(rows[1..]);
      InsertSorts(rows[0], Sort(rows[1..]));
      assert rows == [rows[0]] + rows[1..];
    }
  }

  ghost predicate SameRows(a: seq<Row>, b: seq<Row>) { forall r :: r in a <==> r in b }

  lemma SortKeepsRows(rows: seq<Row>)
    ensures Sorted(Sort(rows)) && SameRows(Sort(rows), rows)
  {
    SortSorts(rows);
  }

  // ---------------------------------------------------------------- repetition

  lemma VoteTwice(b: Ballot, voter: Hotkey, r: Result)
    requires r.Partial()
    ensures Vote(Vote(b, voter, r), voter, r) == Vote(b, voter, r)
  {
    hide Result.Partial;
    var votes := Get(b.records, r.modelId, Empty());
    PutTwice(votes, voter, r);
    PutTwice(b.records, r.modelId, Vote(b, voter, r).records.items[r.modelId]);
  }

  /** Replaying a row changes nothing, whatever its flags. */
  lemma StepTwice(c: Round, b: Ballot, row: Row)
    ensures Step(c, Step(c, b, row), row) == Step(c, b, row)
  {
    hide Parse, Result.Partial, Result.Baseline, Result.ControlsOk, Vote;
    if Parse(row.value).Ok? {
      var r := Parse(row.value).value;
      if r.Partial() {
        VoteTwice(b, row.hotkey, r);
        UsedByVote(b, row.hotkey, r);
      } else if r.modelId in c.candidates {
        var b1 := b.(used := b.used + {(row.hotkey, c.candidates[r.modelId].hotkey)});
        UsedByVote(Panel(b1, row.hotkey, r.modelId), row.hotkey, r);
      }
    }
  }

  lemma UsedByVote(b: Ballot, voter: Hotkey, r: Result)
    ensures Vote(b, voter, r).used == b.used && Vote(b, voter, r).baselines == b.baselines
    ensures Vote(b, voter, r).panels == b.panels
  {
  }

  /** Sorted lists with the same rows fold to the same votes, however often a row is repeated. */
  lemma {:induction false} SameRowsSameFold(c: Round, a: seq<Row>, b: seq<Row>)
    requires Sorted(a) && Sorted(b) && SameRows(a, b)
    ensures Fold(c, a) == Fold(c, b)
    decreases |a| + |b|
  {
    hide Step, Sorted, SameRows;
    BothEmpty(a, b);
    if a != [] {
      var m, n := |a| - 1, |b| - 1;
      SortedFront(a);
      SortedFront(b);
      SameLast(a, b);
      if m > 0 && a[m - 1] == a[m] {
        DropRepeated(c, a);
        SameMembersWithout(a, b);
        SameRowsSameFold(c, a[..m], b);
      } else if n > 0 && b[n - 1] == b[n] {
        DropRepeated(c, b);
        SameMembersWithout(b, a);
        SameRowsSameFold(c, a, b[..n]);
      } else {
        SameFronts(a, b);
        SameRowsSameFold(c, a[..m], b[..n]);
      }
    }
  }

  lemma BothEmpty(a: seq<Row>, b: seq<Row>)
    requires SameRows(a, b)
    ensures (a == [] <==> b == []) && SameRows(b, a)
  {
    assert a == [] || a[0] in a;
    assert b == [] || b[0] in b;
  }

  lemma SortedFront(a: seq<Row>)
    requires a != [] && Sorted(a)
    ensures Sorted(a[..|a| - 1])
  {
  }

  lemma SameLast(a: seq<Row>, b: seq<Row>)
    requires a != [] && b != [] && Sorted(a) && Sorted(b) && SameRows(a, b)
    ensures a[|a| - 1] == b[|b| - 1]
  {
    LastIsGreatest(a, b);
    LastIsGreatest(b, a);
    RowTotal(a[|a| - 1], b[|b| - 1]);
  }

  lemma SameFronts(a: seq<Row>, b: seq<Row>)
    requires a != [] && b != [] && Sorted(a) && Sorted(b) && SameRows(a, b) && a[|a| - 1] == b[|b| - 1]
    requires (|a| > 1 ==> a[|a| - 2] != a[|a| - 1]) && (|b| > 1 ==> b[|b| - 2] != b[|b| - 1])
    ensures SameRows(a[..|a| - 1], b[..|b| - 1])
  {
    var m, n := |a| - 1, |b| - 1;
    LastIsFresh(a);
    LastIsFresh(b);
    assert a == a[..m] + [a[m]] && b == b[..n] + [b[n]];
    forall r
      ensures r in a[..m] <==> r in b[..n]
    {
      assert r in a <==> r in a[..m] || r == a[m];
      assert r in b <==> r in b[..n] || r == b[n];
    }
  }

  lemma LastIsGreatest(a: seq<Row>, b: seq<Row>)
    requires a != [] && b != [] && Sorted(b) && forall r :: r in a ==> r in b
    ensures RowLeq(a[|a| - 1], b[|b| - 1])
  {
    assert a[|a| - 1] in a;
    var i :| 0 <= i < |b| && b[i] == a[|a| - 1];
    RowTotal(b[|b| - 1], b[|b| - 1]);
  }

  lemma LastIsFresh(a: seq<Row>)
    requires a != [] && Sorted(a) && (|a| > 1 ==> a[|a| - 2] != a[|a| - 1])
    ensures a[|a| - 1] !in a[..|a| - 1]
  {
    var m := |a| - 1;
    forall i | 0 <= i < m
      ensures a[i] != a[m]
    {
      if i < m - 1 && a[i] == a[m] {
        RowTotal(a[m - 1], a[m]);
      }
    }
  }

  lemma SameMembersWithout(a: seq<Row>, b: seq<Row>)
    requires |a| > 1 && a[|a| - 2] == a[|a| - 1] && SameRows(a, b)
    ensures SameRows(a[..|a| - 1], b) && SameRows(b, a[..|a| - 1])
  {
    var m := |a| - 1;
    assert a == a[..m] + [a[m]];
    assert a[..m][m - 1] == a[m];
  }

  lemma DropRepeated(c: Round, a: seq<Row>)
    requires |a| > 1 && a[|a| - 2] == a[|a| - 1]
    ensures Fold(c, a) == Fold(c, a[..|a| - 1])
  {
    hide Step;
    var m := |a| - 1;
    assert a[..m][..m - 1] == a[..m - 1];
    StepTwice(c, Fold(c, a[..m - 1]), a[m]);
  }

  /** The decision depends only on the set of finalized rows. */
  lemma OrderAndRepetitionIrrelevant(c: Round, rows: seq<Row>, other: seq<Row>)
    requires forall r :: r in rows <==> r in other
    ensures Fold(c, Sort(rows)) == Fold(c, Sort(other))
    ensures WellFormed(Fold(c, Sort(rows)))
    ensures DecisionOf(c, Fold(c, Sort(rows))) == DecisionOf(c, Fold(c, Sort(other)))
  {
    SortSorts(rows);
    SortSorts(other);
    SameRowsSameFold(c, Sort(rows), Sort(other));
    FoldWellFormed(c, Sort(rows));
  }

  // ---------------------------------------------------------------- the winner

  ghost predicate DistinctHotkeys(c: Round)
  {
    forall m, n :: m in c.candidates && n in c.candidates && c.candidates[m].hotkey == c.candidates[n].hotkey ==> m == n
  }

  /** `Before` without the definedness of its arguments. */
  ghost predicate Precedes(c: Round, b: Ballot, m: ModelId, n: ModelId)
  {
    Eligible(c, b, m) && Eligible(c, b, n) && Before(c, b, m, n)
  }

  lemma BeforeTotal(c: Round, b: Ballot, m: ModelId, n: ModelId)
    requires Eligible(c, b, m) && Eligible(c, b, n) && DistinctHotkeys(c) && m != n
    ensures Before(c, b, m, n) || Before(c, b, n, m)
    ensures !(Before(c, b, m, n) && Before(c, b, n, m))
  {
    hide Standing;
    Ordering.LessTotal(c.candidates[m].hotkey, c.candidates[n].hotkey);
    if Ordering.Less(c.candidates[m].hotkey, c.candidates[n].hotkey) {
      Ordering.LessAsymmetric(c.candidates[m].hotkey, c.candidates[n].hotkey);
    }
  }

  lemma BeforeTransitive(c: Round, b: Ballot, m: ModelId, n: ModelId, k: ModelId)
    requires Eligible(c, b, m) && Eligible(c, b, n) && Eligible(c, b, k)
    requires Before(c, b, m, n) && Before(c, b, n, k)
    ensures Before(c, b, m, k)
  {
    hide Standing;
    var x, y, z := c.candidates[m].hotkey, c.candidates[n].hotkey, c.candidates[k].hotkey;
    if Ordering.Less(x, y) && Ordering.Less(y, z) {
      Ordering.LessTransitive(x, y, z);
    }
  }

  lemma {:induction false} BestIsMinimum(c: Round, b: Ballot, models: seq<ModelId>)
    requires models != [] && (forall m :: m in models ==> Eligible(c, b, m)) && DistinctHotkeys(c)
    ensures forall m :: m in models && m != Best(c, b, models) ==> Precedes(c, b, Best(c, b, models), m)
    decreases |models|
  {
    hide Before, Eligible;
    var n := |models| - 1;
    assert models == models[..n] + [models[n]];
    if n > 0 {
      var rest := Best(c, b, models[..n]);
      BestIsMinimum(c, b, models[..n]);
      if rest != models[n] {
        BeforeTotal(c, b, rest, models[n]);
      }
      forall m | m in models && m != Best(c, b, models)
        ensures Precedes(c, b, Best(c, b, models), m)
      {
        if m in models[..n] && m != rest {
          assert Precedes(c, b, rest, m);
          if Before(c, b, models[n], rest) {
            BeforeTransitive(c, b, models[n], rest, m);
          }
        }
      }
    }
  }

  /** The crowned challenger precedes every other eligible one: highest metric, then oldest, then hotkey. */
  lemma CrownIsUniqueMinimum(c: Round, b: Ballot, m: ModelId)
    requires DistinctHotkeys(c) && Chosen(c, b).Some?
    requires m in b.records.items && Eligible(c, b, m) && m != Chosen(c, b).value
    ensures Precedes(c, b, Chosen(c, b).value, m)
  {
    hide Eligible, Before, Inconclusive;
    BestIsMinimum(c, b, EligibleOf(c, b, b.records.keys));
  }

  // ---------------------------------------------------------------- reachable ballots

  ghost predicate ProperVotes(c: Round, votes: Dict<Hotkey, Result>)
  {
    forall v :: v in votes.items ==> Staked(c, v) && (c.king == None ==> !votes.items[v].Partial())
  }

  /** Only staked evaluators vote, and partial votes exist only against a king. */
  ghost predicate Reachable(c: Round, b: Ballot)
  {
    forall m :: m in b.records.items ==> ProperVotes(c, b.records.items[m])
  }

  lemma VoteReachable(c: Round, b: Ballot, voter: Hotkey, r: Result)
    requires Reachable(c, b) && Staked(c, voter) && (c.king == None ==> !r.Partial())
    ensures Reachable(c, Vote(b, voter, r))
  {
    hide Result.Partial, Staked;
    var votes := Get(b.records, r.modelId, Empty());
    assert ProperVotes(c, votes);
    assert ProperVotes(c, Put(votes, voter, r));
  }

  lemma StepReachable(c: Round, b: Ballot, row: Row)
    requires Reachable(c, b)
    ensures Reachable(c, Step(c, b, row))
  {
    hide Parse, Result.Partial, Result.Baseline, Result.ControlsOk, Vote, Staked;
    if Parse(row.value).Ok? && Staked(c, row.hotkey) {
      var r := Parse(row.value).value;
      if r.Partial() {
        if c.king != None {
          VoteReachable(c, b, row.hotkey, r);
        }
      } else if r.modelId in c.candidates {
        var b1 := b.(used := b.used + {(row.hotkey, c.candidates[r.modelId].hotkey)});
        VoteReachable(c, Panel(b1, row.hotkey, r.modelId), row.hotkey, r);
      }
    }
  }

  lemma {:induction false} FoldReachable(c: Round, rows: seq<Row>)
    ensures Reachable(c, Fold(c, rows))
    decreases |rows|
  {
    hide Step;
    if rows != [] {
      FoldReachable(c, rows[..|rows| - 1]);
      StepReachable(c, Fold(c, rows[..|rows| - 1]), rows[|rows| - 1]);
    }
  }

  /** Means are only taken over a positive stake. */
  lemma {:induction false} StakeIsPositive(c: Round, voters: seq<Hotkey>)
    requires voters != [] && forall v :: v in voters ==> Staked(c, v)
    ensures TotalStake(c, voters) > 0.0
    decreases |voters|
  {
    assert voters[|voters| - 1] in voters;
    if |voters| > 1 {
      StakeIsPositive(c, voters[..|voters| - 1]);
    }
  }

  // ---------------------------------------------------------------- finishing partial votes

  /** A partial bound is replaced by a full result that it dominates; full results stay. */
  ghost predicate FinishedVote(r: Result, full: Result)
  {
    if r.Partial() then
      !full.Partial() && full.kingQuality == r.kingQuality && full.kingReward == r.kingReward
      && full.quality <= r.quality && full.reward <= r.reward
    else full == r
  }

  ghost predicate AdvancedVotes(votes: Dict<Hotkey, Result>, now: Dict<Hotkey, Result>)
  {
    && now.keys == votes.keys
    && forall v :: v in votes.items ==>
                     now.items[v] == votes.items[v] || FinishedVote(votes.items[v], now.items[v])
  }

  /** The same ballot once some of the partial evaluations have been completed. */
  ghost predicate Advanced(c: Round, b: Ballot, now: Ballot)
  {
    && now.baselines == b.baselines && (c.king == None ==> now.panels == b.panels)
    && now.records.keys == b.records.keys
    && forall m :: m in b.records.items ==> AdvancedVotes(b.records.items[m], now.records.items[m])
  }

  /** No evaluation is left unfinished. */
  ghost predicate AllFull(b: Ballot)
  {
    forall m :: m in b.records.items ==> FullVotes(b.records.items[m])
  }

  ghost predicate FullVotes(votes: Dict<Hotkey, Result>)
  {
    forall v :: v in votes.items ==> !votes.items[v].Partial()
  }

  lemma {:induction false} SameCounted(c: Round, b: Ballot, now: Ballot, votes: Dict<Hotkey, Result>,
                                       done: Dict<Hotkey, Result>, voters: seq<Hotkey>)
    requires AdvancedVotes(votes, done) && Advanced(c, b, now) && forall v :: v in voters ==> v in votes.items
    ensures forall v :: v in voters ==> v in done.items
    ensures Counted(c, b, votes, voters) == Counted(c, now, done, voters)
    decreases |voters|
  {
    hide Result.Rejected, Result.ControlsOk;
    if voters != [] {
      SameCounted(c, b, now, votes, done, voters[..|voters| - 1]);
      assert voters[|voters| - 1] in voters;
    }
  }

  lemma {:induction false} WeightedBelow(c: Round, voters: seq<Hotkey>, votes: map<Hotkey, Result>,
                                         done: map<Hotkey, Result>, f: Field)
    requires forall v :: v in voters ==>
      v in votes && v in done && Staked(c, v) && Score(f, done[v]) <= Score(f, votes[v])
    ensures Weighted(c, voters, done, f) <= Weighted(c, voters, votes, f)
    decreases |voters|
  {
    if voters != [] {
      var last := voters[|voters| - 1];
      WeightedBelow(c, voters[..|voters| - 1], votes, done, f);
      assert last in voters;
      ShareBelow(c, last, votes[last], done[last], f);
      hide Share;
    }
  }

  lemma ShareBelow(c: Round, voter: Hotkey, r: Result, full: Result, f: Field)
    requires Staked(c, voter) && Score(f, full) <= Score(f, r)
    ensures Share(c, voter, full, f) <= Share(c, voter, r, f)
  {
    assert Score(f, full) as real <= Score(f, r) as real;
  }

  lemma DivideBelow(a: real, b: real, k: real)
    requires k > 0.0 && a <= b
    ensures a / k <= b / k
  {
  }

  lemma MeanBelow(c: Round, voters: seq<Hotkey>, votes: map<Hotkey, Result>, done: map<Hotkey, Result>, f: Field)
    requires forall v :: v in voters ==>
      v in votes && v in done && Staked(c, v) && Score(f, done[v]) <= Score(f, votes[v])
    ensures MeanOf(c, voters, done, f) <= MeanOf(c, voters, votes, f)
  {
    WeightedBelow(c, voters, votes, done, f);
    var total := TotalStake(c, voters);
    if total > 0.0 {
      DivideBelow(Weighted(c, voters, done, f), Weighted(c, voters, votes, f), total);
      DivideBelow(Weighted(c, voters, done, f) / total, Weighted(c, voters, votes, f) / total, SCALE as real);
    }
  }

  lemma ScoresBelow(r: Result, full: Result, f: Field)
    requires full == r || FinishedVote(r, full)
    ensures Score(f, full) <= Score(f, r)
  {
  }

  /** Completion never raises a mean, and leaves an unbounded aggregate as it was. */
  lemma AggregateAdvanced(c: Round, b: Ballot, now: Ballot, votes: Dict<Hotkey, Result>, done: Dict<Hotkey, Result>)
    requires Advanced(c, b, now) && AdvancedVotes(votes, done) && ProperVotes(c, votes)
    ensures AggregateOf(c, b, votes).Some? == AggregateOf(c, now, done).Some?
    ensures AggregateOf(c, b, votes).Some? ==>
              var a, e := AggregateOf(c, b, votes).value, AggregateOf(c, now, done).value;
              && e.quality <= a.quality && e.delta <= a.delta && (!a.bounded ==> e == a)
              && (FullVotes(done) ==> !e.bounded)
  {
    hide Result.Partial;
    SameCounted(c, b, now, votes, done, votes.keys);
    var voters := Counted(c, b, votes, votes.keys);
    hide MeanOf, Counted, FinishedVote;
    forall f | true
      ensures MeanOf(c, voters, done.items, f) <= MeanOf(c, voters, votes.items, f)
      ensures !(exists v :: v in voters && votes.items[v].Partial()) ==>
                MeanOf(c, voters, done.items, f) == MeanOf(c, voters, votes.items, f)
    {
      MeanAdvanced(c, voters, votes, done, f);
    }
    VoteStays(votes, done);
  }

  lemma MeanAdvanced(c: Round, voters: seq<Hotkey>, votes: Dict<Hotkey, Result>, done: Dict<Hotkey, Result>, f: Field)
    requires AdvancedVotes(votes, done) && ProperVotes(c, votes) && forall v :: v in voters ==> v in votes.items
    ensures forall v :: v in voters ==> v in done.items
    ensures MeanOf(c, voters, done.items, f) <= MeanOf(c, voters, votes.items, f)
    ensures !(exists v :: v in voters && votes.items[v].Partial()) ==>
              MeanOf(c, voters, done.items, f) == MeanOf(c, voters, votes.items, f)
  {
    hide MeanOf, FinishedVote, Result.Partial, Staked, Score;
    forall v | v in voters
      ensures Score(f, done.items[v]) <= Score(f, votes.items[v])
    {
      ScoresBelow(votes.items[v], done.items[v], f);
    }
    VoteStays(votes, done);
    MeanBelow(c, voters, votes.items, done.items, f);
    if !(exists v :: v in voters && votes.items[v].Partial()) {
      MeanBelow(c, voters, done.items, votes.items, f);
    }
  }

  /** A full vote stays as it is. */
  lemma VoteStays(votes: Dict<Hotkey, Result>, done: Dict<Hotkey, Result>)
    requires AdvancedVotes(votes, done)
    ensures forall v :: v in votes.items ==> v in done.items
    ensures forall v :: v in votes.items && !votes.items[v].Partial() ==> done.items[v] == votes.items[v]
  {
    hide Result.Partial;
    assert forall v :: v in votes.items ==> v in done.keys;
  }

  lemma StandingAdvanced(c: Round, b: Ballot, now: Ballot, m: ModelId)
    requires Advanced(c, b, now) && Reachable(c, b)
    ensures Standing(c, now, m).Some? ==>
              && Standing(c, b, m).Some? && Standing(c, now, m).value.delta <= Standing(c, b, m).value.delta
              && (Standing(c, now, m).value.bounded ==> Standing(c, b, m).value.bounded && !AllFull(now))
    ensures Standing(c, b, m).Some? && !Standing(c, b, m).value.bounded ==> Standing(c, now, m) == Standing(c, b, m)
  {
    hide AggregateOf, FullVotes, AdvancedVotes, ProperVotes;
    if m in b.records.items {
      assert m in now.records.keys;
      AggregateAdvanced(c, b, now, b.records.items[m], now.records.items[m]);
    } else {
      assert m !in now.records.keys;
    }
  }

  lemma BoundedNeedsKing(c: Round, b: Ballot, m: ModelId)
    requires Reachable(c, b) && Standing(c, b, m).Some? && Standing(c, b, m).value.bounded
    ensures c.king.Some?
  {
    hide Result.Partial;
    assert ProperVotes(c, b.records.items[m]);
  }

  /** Whoever is eligible or inconclusive after completion was so before; an eligible challenger stays as it was. */
  lemma EligibleAdvanced(c: Round, b: Ballot, now: Ballot, m: ModelId)
    requires Advanced(c, b, now) && Reachable(c, b)
    ensures Eligible(c, now, m) ==> Eligible(c, b, m) || Inconclusive(c, b, m)
    ensures Eligible(c, b, m) ==> Eligible(c, now, m) && Metric(c, now, m) == Metric(c, b, m)
    ensures Inconclusive(c, now, m) ==>
              Inconclusive(c, b, m) && Metric(c, now, m) <= Metric(c, b, m) && !AllFull(now)
  {
    StandingAdvanced(c, b, now, m);
    hide Standing, AllFull;
    if Standing(c, b, m).Some? && Standing(c, b, m).value.bounded {
      BoundedNeedsKing(c, b, m);
    }
  }

  /** A unique minimum is what `min` returns. */
  lemma MinimumIsChosen(c: Round, b: Ballot, m: ModelId)
    requires DistinctHotkeys(c) && m in b.records.items && Eligible(c, b, m)
    requires forall n :: n in b.records.items && Inconclusive(c, b, n) ==> Metric(c, b, n) < Metric(c, b, m)
    requires forall n :: n in b.records.items && Eligible(c, b, n) && n != m ==> Precedes(c, b, m, n)
    ensures Chosen(c, b) == Some(m)
  {
    hide Eligible, Before, Inconclusive;
    var eligible := EligibleOf(c, b, b.records.keys);
    var best := Best(c, b, eligible);
    BestIsMinimum(c, b, eligible);
    if best != m {
      assert Precedes(c, b, best, m) && Precedes(c, b, m, best);
      BeforeTotal(c, b, m, best);
    }
  }

  lemma NoneEligible(c: Round, b: Ballot)
    requires forall m :: m in b.records.items ==> !Eligible(c, b, m)
    ensures Chosen(c, b) == None
  {
    hide Eligible, Inconclusive;
    NothingListed(c, b, b.records.keys);
  }

  lemma {:induction false} NothingListed(c: Round, b: Ballot, models: seq<ModelId>)
    requires forall m :: m in models ==> !Eligible(c, b, m)
    ensures EligibleOf(c, b, models) == []
    decreases |models|
  {
    hide Eligible;
    if models != [] {
      NothingListed(c, b, models[..|models| - 1]);
      assert models[|models| - 1] in models;
    }
  }

  /** The crowned challenger still precedes everyone, and no bound reaches it, once others are completed. */
  lemma CrownSurvives(c: Round, b: Ballot, now: Ballot, m: ModelId)
    requires DistinctHotkeys(c) && Reachable(c, b) && Advanced(c, b, now) && Chosen(c, b).Some?
    requires m in now.records.items && m != Chosen(c, b).value
    ensures Eligible(c, now, m) ==> Precedes(c, now, Chosen(c, b).value, m)
    ensures Eligible(c, now, Chosen(c, b).value)
    ensures Inconclusive(c, now, m) ==> Metric(c, now, m) < Metric(c, now, Chosen(c, b).value)
  {
    var crown := Chosen(c, b).value;
    assert crown in b.records.items && Eligible(c, b, crown);
    EligibleAdvanced(c, b, now, crown);
    EligibleAdvanced(c, b, now, m);
    assert m in b.records.items by {
      assert m in now.records.keys;
    }
    if Eligible(c, b, m) {
      CrownIsUniqueMinimum(c, b, m);
    } else if Eligible(c, now, m) {
      StandingAdvanced(c, b, now, m);
      BoundedNeedsKing(c, b, m);
    }
  }

  /**
   Early stopping never changes a crown. Completing any of the partial evaluations with results
   inside their published bounds crowns the same challenger; and when nothing was inconclusive,
   the whole outcome is the same.
   */
  lemma EarlyStoppingKeepsTheCrown(c: Round, rows: seq<Row>, now: Ballot)
    requires DistinctHotkeys(c) && Advanced(c, Fold(c, Sort(rows)), now)
    ensures var b := Fold(c, Sort(rows));
      && (Chosen(c, b).Some? || (forall m :: !Inconclusive(c, b, m)) ==>
            Chosen(c, now) == Chosen(c, b) && Winner(c, now) == Winner(c, b))
      && (AllFull(now) ==> forall m :: !Inconclusive(c, now, m))
  {
    hide Fold, Sort, Chosen, Inconclusive, Advanced, Reachable, AllFull, DistinctHotkeys;
    var b := Fold(c, Sort(rows));
    FoldReachable(c, Sort(rows));
    CrownKept(c, b, now);
  }

  lemma CrownKept(c: Round, b: Ballot, now: Ballot)
    requires DistinctHotkeys(c) && Reachable(c, b) && Advanced(c, b, now)
    ensures Chosen(c, b).Some? || (forall m :: !Inconclusive(c, b, m)) ==> Chosen(c, now) == Chosen(c, b)
    ensures AllFull(now) ==> forall m :: !Inconclusive(c, now, m)
  {
    hide Eligible, Inconclusive, Before, Precedes, Advanced, Reachable, AllFull, Metric, DistinctHotkeys;
    forall m | true
      ensures Inconclusive(c, now, m) ==> Inconclusive(c, b, m) && !AllFull(now)
      ensures Eligible(c, now, m) ==> Eligible(c, b, m) || Inconclusive(c, b, m)
    {
      EligibleAdvanced(c, b, now, m);
    }
    SameModels(c, b, now);
    if Chosen(c, b).Some? {
      CrownStays(c, b, now);
    } else if forall m :: !Inconclusive(c, b, m) {
      forall m | m in now.records.items
        ensures !Eligible(c, now, m)
      {
        UncrownedHasNoEligible(c, b, m);
      }
      NoneEligible(c, now);
    }
  }

  lemma SameModels(c: Round, b: Ballot, now: Ballot)
    requires Advanced(c, b, now)
    ensures forall m :: m in now.records.items <==> m in b.records.items
  {
    assert forall m :: m in now.records.items <==> m in now.records.keys;
  }

  lemma CrownStays(c: Round, b: Ballot, now: Ballot)
    requires DistinctHotkeys(c) && Reachable(c, b) && Advanced(c, b, now) && Chosen(c, b).Some?
    ensures Chosen(c, now) == Chosen(c, b)
  {
    var crown := Chosen(c, b).value;
    SameModels(c, b, now);
    EligibleAdvanced(c, b, now, crown);
    CrownListed(c, b);
    hide Eligible, Inconclusive, Before, Precedes, Advanced, Reachable, Chosen, Metric, DistinctHotkeys;
    forall m | m in now.records.items && m != crown
      ensures Eligible(c, now, m) ==> Precedes(c, now, crown, m)
      ensures Inconclusive(c, now, m) ==> Metric(c, now, m) < Metric(c, now, crown)
    {
      CrownSurvives(c, b, now, m);
    }
    EligibleIsConclusive(c, now, crown);
    MinimumIsChosen(c, now, crown);
  }

  lemma CrownListed(c: Round, b: Ballot)
    requires Chosen(c, b).Some?
    ensures Chosen(c, b).value in b.records.items && Eligible(c, b, Chosen(c, b).value)
  {
    hide Eligible, Inconclusive, Before;
  }

  lemma EligibleIsConclusive(c: Round, b: Ballot, m: ModelId)
    requires Eligible(c, b, m)
    ensures !Inconclusive(c, b, m)
  {
  }

  lemma UncrownedHasNoEligible(c: Round, b: Ballot, m: ModelId)
    requires Chosen(c, b) == None && m in b.records.items && forall n :: !Inconclusive(c, b, n)
    ensures !Eligible(c, b, m)
  {
    hide Eligible, Inconclusive;
    var eligible := EligibleOf(c, b, b.records.keys);
    assert m in b.records.keys;
    assert Eligible(c, b, m) ==> m in eligible;
  }

  /** A bound reported as a loss rules out victory: no completion makes that model eligible. */
  lemma EarlyLossIsDefinitive(c: Round, b: Ballot, now: Ballot, m: ModelId)
    requires Reachable(c, b) && WellFormed(b) && Advanced(c, b, now) && m in b.records.items
    requires ModelLosses(c, b, m) != []
    ensures !Eligible(c, now, m)
  {
    var votes := b.records.items[m];
    AggregateAdvanced(c, b, now, votes, now.records.items[m]);
    var a := AggregateOf(c, b, votes).value;
    var losses := ModelLosses(c, b, m);
    assert losses[0] in losses;
    BoundedVotes(c, b, m);
  }

  /** Losses come from partial votes, which only exist against a king. */
  lemma BoundedVotes(c: Round, b: Ballot, m: ModelId)
    requires Reachable(c, b) && WellFormed(b) && m in b.records.items && ModelLosses(c, b, m) != []
    ensures c.king.Some?
  {
    hide Result.Partial, Result.Valid, Result.Commitment;
    var votes := b.records.items[m];
    var losses := ModelLosses(c, b, m);
    assert ProperVotes(c, votes);
    assert losses[0] in losses;
  }

  // ---------------------------------------------------------------- full results on chain

  /** A later row carrying a full result for a vote that is still partial. */
  ghost predicate Completes(c: Round, b: Ballot, row: Row)
  {
    && Parse(row.value).Ok?
    && var r := Parse(row.value).value;
       && r.window == c.window && r.policy == Prefix(c.policy) && !r.Baseline() && r.ControlsOk()
       && r.modelId in b.records.items && row.hotkey in b.records.items[r.modelId].items
       && r.modelId in c.candidates && c.candidates[r.modelId].uid == r.uid
       && b.records.items[r.modelId].items[row.hotkey].Partial()
       && FinishedVote(b.records.items[r.modelId].items[row.hotkey], r)
       && (row.hotkey, c.candidates[r.modelId].hotkey) !in b.used
  }

  ghost predicate UnderwayVotes(m: ModelId, votes: Dict<Hotkey, Result>, late: set<(Hotkey, ModelId)>,
                                now: Dict<Hotkey, Result>)
  {
    && now.keys == votes.keys
    && forall v :: v in votes.items ==>
                     if (v, m) in late then FinishedVote(votes.items[v], now.items[v])
                       else now.items[v] == votes.items[v]
  }

  /** Only completed votes have used up a hotkey since `b`. */
  ghost predicate UnderwayUsed(c: Round, b: Ballot, late: set<(Hotkey, ModelId)>, used: set<(Hotkey, Hotkey)>)
  {
    forall m, v :: m in c.candidates && (v, c.candidates[m].hotkey) in used ==>
                     (v, c.candidates[m].hotkey) in b.used || (v, m) in late
  }

  /** The votes of `late` rows are completed, all others are as in `b`. */
  ghost predicate Underway(c: Round, b: Ballot, late: set<(Hotkey, ModelId)>, now: Ballot)
  {
    && now.baselines == b.baselines && now.records.keys == b.records.keys
    && (forall m :: m in b.records.items ==> UnderwayVotes(m, b.records.items[m], late, now.records.items[m]))
    && UnderwayUsed(c, b, late, now.used)
  }

  lemma CompletionAccepted(c: Round, b: Ballot, now: Ballot, row: Row)
    requires Reachable(c, b) && Completes(c, b, row)
    ensures var r := Parse(row.value).value;
            var key := (row.hotkey, c.candidates[r.modelId].hotkey);
            Step(c, now, row) == if key in now.used then now
                                 else Vote(Panel(now.(used := now.used + {key}), row.hotkey, r.modelId), row.hotkey, r)
  {
    hide Parse, Vote, Panel, Result.Partial, Result.Baseline, Result.ControlsOk, Staked;
    assert ProperVotes(c, b.records.items[Parse(row.value).value.modelId]);
    assert !Parse(row.value).value.Partial();
  }

  lemma PutUnderway(n: ModelId, votes: Dict<Hotkey, Result>, late: set<(Hotkey, ModelId)>, now: Dict<Hotkey, Result>,
                    v: Hotkey, m: ModelId, r: Result)
    requires UnderwayVotes(n, votes, late, now)
    requires n == m ==> v in votes.items && FinishedVote(votes.items[v], r)
    ensures UnderwayVotes(n, votes, late + {(v, m)}, if n == m then Put(now, v, r) else now)
  {
    hide FinishedVote;
    if n == m {
      assert v in now.keys && v in now.items;
    }
  }

  lemma UsedUnderway(c: Round, b: Ballot, late: set<(Hotkey, ModelId)>, used: set<(Hotkey, Hotkey)>, v: Hotkey,
                     m: ModelId)
    requires DistinctHotkeys(c) && m in c.candidates && UnderwayUsed(c, b, late, used)
    ensures UnderwayUsed(c, b, late + {(v, m)}, used + {(v, c.candidates[m].hotkey)})
  {
  }

  lemma VoteUnderway(c: Round, b: Ballot, late: set<(Hotkey, ModelId)>, now: Ballot, v: Hotkey, r: Result)
    requires Underway(c, b, late, now) && DistinctHotkeys(c) && r.modelId in c.candidates
    requires r.modelId in b.records.items && v in b.records.items[r.modelId].items
    requires FinishedVote(b.records.items[r.modelId].items[v], r) && !r.Partial()
    ensures var key := (v, c.candidates[r.modelId].hotkey);
            Underway(c, b, late + {(v, r.modelId)},
                     Vote(Panel(now.(used := now.used + {key}), v, r.modelId), v, r))
  {
    hide Result.Partial, FinishedVote, UnderwayVotes, UnderwayUsed, DistinctHotkeys;
    var m := r.modelId;
    assert m in now.records.keys;
    forall n | n in b.records.items
      ensures UnderwayVotes(n, b.records.items[n], late + {(v, m)},
                            if n == m then Put(now.records.items[n], v, r) else now.records.items[n])
    {
      assert n in now.records.keys;
      PutUnderway(n, b.records.items[n], late, now.records.items[n], v, m, r);
    }
    UsedUnderway(c, b, late, now.used, v, m);
  }

  lemma CompletionStep(c: Round, b: Ballot, late: set<(Hotkey, ModelId)>, now: Ballot, row: Row)
    requires DistinctHotkeys(c) && Reachable(c, b) && Completes(c, b, row) && Underway(c, b, late, now)
    ensures Underway(c, b, late + {(row.hotkey, ModelOf(row))}, Step(c, now, row))
  {
    hide Parse, Step, Vote, Panel, Result.Partial, FinishedVote;
    var r := Parse(row.value).value;
    CompletionAccepted(c, b, now, row);
    if (row.hotkey, c.candidates[r.modelId].hotkey) in now.used {
      assert late + {(row.hotkey, r.modelId)} == late;
    } else {
      FullVote(b, row, c);
      VoteUnderway(c, b, late, now, row.hotkey, r);
    }
  }

  lemma FullVote(b: Ballot, row: Row, c: Round)
    requires Completes(c, b, row)
    ensures !Parse(row.value).value.Partial()
  {
    hide Parse, Result.Partial;
  }

  ghost function ModelOf(row: Row): ModelId
  {
    if Parse(row.value).Ok? then Parse(row.value).value.modelId else ""
  }

  ghost function LateVotes(rows: seq<Row>): set<(Hotkey, ModelId)>
  {
    set r | r in rows :: (r.hotkey, ModelOf(r))
  }

  lemma {:induction false} CompletionRun(c: Round, rows: seq<Row>, late: seq<Row>)
    requires DistinctHotkeys(c) && forall r :: r in late ==> Completes(c, Fold(c, rows), r)
    ensures Underway(c, Fold(c, rows), LateVotes(late), Fold(c, rows + late))
    decreases |late|
  {
    hide Parse, Completes, Step, ModelOf;
    if late == [] {
      assert rows + late == rows;
    } else {
      hide Underway;
      var n := |late| - 1;
      CompletionRun(c, rows, late[..n]);
      FoldReachable(c, rows);
      assert late[n] in late && late == late[..n] + [late[n]];
      CompletionStep(c, Fold(c, rows), LateVotes(late[..n]), Fold(c, rows + late[..n]), late[n]);
      assert (rows + late)[..|rows + late| - 1] == rows + late[..n];
      assert LateVotes(late) == LateVotes(late[..n]) + {(late[n].hotkey, ModelOf(late[n]))};
    }
  }

  /**
   The same guarantee on chain: let later rows deliver full results, within their published bounds,
   for any of the partial votes. The crowned challenger stays crowned.
   */
  lemma LateResultsKeepTheCrown(c: Round, rows: seq<Row>, late: seq<Row>)
    requires DistinctHotkeys(c) && Sorted(rows) && Sorted(rows + late)
    requires forall r :: r in late ==> Completes(c, Fold(c, rows), r)
    ensures var b, now := Fold(c, Sort(rows)), Fold(c, Sort(rows + late));
      Chosen(c, b).Some? || (forall m :: !Inconclusive(c, b, m)) ==>
        Chosen(c, now) == Chosen(c, b) && Winner(c, now) == Winner(c, b)
  {
    hide *;
    SortKeepsRows(rows);
    SortKeepsRows(rows + late);
    SameRowsSameFold(c, Sort(rows), rows);
    SameRowsSameFold(c, Sort(rows + late), rows + late);
    FoldReachable(c, rows);
    if late == [] {
      assert rows + late == rows;
    } else {
      CompletesNeedsKing(c, Fold(c, rows), late[0]);
      CompletionRun(c, rows, late);
      UnderwayAdvances(c, Fold(c, rows), LateVotes(late), Fold(c, rows + late));
      EarlyStoppingKeepsTheCrown(c, rows, Fold(c, rows + late));
    }
  }

  lemma CompletesNeedsKing(c: Round, b: Ballot, row: Row)
    requires Reachable(c, b) && Completes(c, b, row)
    ensures c.king.Some?
  {
    hide Parse, Result.Partial;
    assert ProperVotes(c, b.records.items[Parse(row.value).value.modelId]);
  }

  lemma UnderwayAdvances(c: Round, b: Ballot, late: set<(Hotkey, ModelId)>, now: Ballot)
    requires c.king.Some? && Underway(c, b, late, now)
    ensures Advanced(c, b, now)
  {
    hide Result.Partial, FinishedVote;
    forall m | m in b.records.items
      ensures AdvancedVotes(b.records.items[m], now.records.items[m])
    {
    }
  }
}
