/** Duplicate evaluators never multiply stake: splitting one evaluator over several changes no decision. */
module Splitting {
  import opened Common
  import opened Dicts
  import opened Wire
  import opened Decide
  import opened Sums
  import opened Verdict
  import opened Majority
  import Consensus

  /**
   In `d` the stake of `v` is divided among the evaluators `parts`, each of which publishes what `v`
   published in `c`.
   */
  ghost predicate Split(c: Round, rows: seq<Row>, d: Round, more: seq<Row>, v: Hotkey, parts: set<Hotkey>)
  {
    && parts != {} && v in c.snapshot.validators && c.snapshot.validators[v] > 0.0
    && d == c.(snapshot := d.snapshot) && d.snapshot.uids == c.snapshot.uids
    && (forall u :: u in parts && u in c.snapshot.validators ==> u == v)
    && (forall u :: u in d.snapshot.validators <==> u in parts || (u in c.snapshot.validators && u != v))
    && (forall u :: u in parts ==> d.snapshot.validators[u] > 0.0)
    && (forall u :: u in c.snapshot.validators && u != v ==> d.snapshot.validators[u] == c.snapshot.validators[u])
    && Sum(parts, Stakes(d)) == c.snapshot.validators[v]
    && (forall row :: row in more <==>
          if row.hotkey in parts then Named(row, v) in rows else row.hotkey != v && row in rows)
  }

  function Named(row: Row, u: Hotkey): Row { row.(hotkey := u) }

  /** Whom an evaluator of the divided round stands for. */
  function Origin(u: Hotkey, v: Hotkey, parts: set<Hotkey>): Hotkey { if u in parts then v else u }

  /** Everyone but `v` itself, unless it kept a part. */
  predicate Stays(u: Hotkey, v: Hotkey, parts: set<Hotkey>) { u in parts || u != v }

  // ---------------------------------------------------------------- rows correspond

  lemma RowsCorrespond(c: Round, rows: seq<Row>, d: Round, more: seq<Row>, v: Hotkey, parts: set<Hotkey>, u: Hotkey)
    requires Split(c, rows, d, more, v, parts) && Stays(u, v, parts)
    ensures forall row: Row :: row.hotkey == u ==> (row in more <==> Named(row, Origin(u, v, parts)) in rows)
  {
    forall row: Row | row.hotkey == u
      ensures row in more <==> Named(row, Origin(u, v, parts)) in rows
    {
      assert u !in parts ==> Named(row, u) == row;
    }
  }

  lemma SpeaksAlike(c: Round, rows: seq<Row>, d: Round, more: seq<Row>, v: Hotkey, parts: set<Hotkey>, row: Row,
                    r: Result)
    requires Split(c, rows, d, more, v, parts) && Stays(row.hotkey, v, parts)
    ensures Speaks(d, row, r) <==> Speaks(c, Named(row, Origin(row.hotkey, v, parts)), r)
  {
    hide Parse;
  }

  lemma KindsAlike(c: Round, rows: seq<Row>, d: Round, more: seq<Row>, v: Hotkey, parts: set<Hotkey>, row: Row,
                   m: string, r: Result)
    requires Split(c, rows, d, more, v, parts) && Stays(row.hotkey, v, parts)
    ensures var u, x := row.hotkey, Origin(row.hotkey, v, parts);
      && (Terminal(d, row, u, m, r) <==> Terminal(c, Named(row, x), x, m, r))
      && (Estimate(d, row, u, m, r) <==> Estimate(c, Named(row, x), x, m, r))
      && (Baseline(d, row, u, m, r) <==> Baseline(c, Named(row, x), x, m, r))
  {
    SpeaksAlike(c, rows, d, more, v, parts, row, r);
    hide Speaks, Split;
    assert d == c.(snapshot := d.snapshot) by { SameRound(c, rows, d, more, v, parts); }
  }

  lemma SameRound(c: Round, rows: seq<Row>, d: Round, more: seq<Row>, v: Hotkey, parts: set<Hotkey>)
    requires Split(c, rows, d, more, v, parts)
    ensures d == c.(snapshot := d.snapshot) && d.snapshot.uids == c.snapshot.uids
  {
  }

  /** What the two lemmas above say of one evaluator `u` of the divided round and the one it stands for. */
  ghost predicate Alike(c: Round, rows: seq<Row>, d: Round, more: seq<Row>, u: Hotkey, x: Hotkey)
  {
    && d.candidates == c.candidates && d.king == c.king
    && (forall row: Row {:trigger row in more} {:trigger Named(row, x)} ::
          row.hotkey == u ==> (row in more <==> Named(row, x) in rows))
    && (forall row: Row, h, r {:trigger Terminal(d, row, u, h, r)} {:trigger Terminal(c, Named(row, x), x, h, r)} ::
          row.hotkey == u ==> (Terminal(d, row, u, h, r) <==> Terminal(c, Named(row, x), x, h, r)))
    && (forall row: Row, m, r {:trigger Estimate(d, row, u, m, r)} {:trigger Estimate(c, Named(row, x), x, m, r)} ::
          row.hotkey == u ==> (Estimate(d, row, u, m, r) <==> Estimate(c, Named(row, x), x, m, r)))
    && (forall row: Row, m, r {:trigger Baseline(d, row, u, m, r)} {:trigger Baseline(c, Named(row, x), x, m, r)} ::
          row.hotkey == u ==> (Baseline(d, row, u, m, r) <==> Baseline(c, Named(row, x), x, m, r)))
  }

  lemma EvaluatorsAlike(c: Round, rows: seq<Row>, d: Round, more: seq<Row>, v: Hotkey, parts: set<Hotkey>, u: Hotkey)
    requires Split(c, rows, d, more, v, parts) && Stays(u, v, parts)
    ensures Alike(c, rows, d, more, u, Origin(u, v, parts))
  {
    SameRound(c, rows, d, more, v, parts);
    RowsCorrespond(c, rows, d, more, v, parts, u);
    var x := Origin(u, v, parts);
    hide Split, Terminal, Estimate, Baseline, Origin;
    forall row: Row, h: string, r: Result | row.hotkey == u
      ensures Terminal(d, row, u, h, r) <==> Terminal(c, Named(row, x), x, h, r)
      ensures Estimate(d, row, u, h, r) <==> Estimate(c, Named(row, x), x, h, r)
      ensures Baseline(d, row, u, h, r) <==> Baseline(c, Named(row, x), x, h, r)
    {
      KindsAlike(c, rows, d, more, v, parts, row, h, r);
    }
  }

  lemma EarlierAlike(a: Row, b: Row, x: Hotkey)
    ensures Earlier(Named(a, x), Named(b, x)) == Earlier(a, b)
  {
  }

  lemma VotersOwnRows(c: Round, v: Hotkey)
    ensures forall row, h, r :: Terminal(c, row, v, h, r) ==> row.hotkey == v
    ensures forall row, m, r :: Estimate(c, row, v, m, r) ==> row.hotkey == v
    ensures forall row, m, r :: Baseline(c, row, v, m, r) ==> row.hotkey == v
  {
  }

  lemma FirstTerminalAlike(c: Round, rows: seq<Row>, d: Round, more: seq<Row>, u: Hotkey, x: Hotkey, row: Row,
                           h: Hotkey, r: Result)
    requires Alike(c, rows, d, more, u, x) && row.hotkey == u
    ensures FirstTerminal(d, more, row, u, h, r) <==> FirstTerminal(c, rows, Named(row, x), x, h, r)
  {
    VotersOwnRows(c, x);
    VotersOwnRows(d, u);
    hide Terminal, Estimate, Baseline, Earlier;
    if FirstTerminal(d, more, row, u, h, r) {
      forall other, s | other in rows && Terminal(c, other, x, h, s)
        ensures !Earlier(other, Named(row, x))
      {
        assert Named(Named(other, u), x) == other;
        EarlierAlike(Named(other, u), row, x);
      }
    }
    if FirstTerminal(c, rows, Named(row, x), x, h, r) {
      forall other, s | other in more && Terminal(d, other, u, h, s)
        ensures !Earlier(other, row)
      {
        EarlierAlike(other, row, x);
      }
    }
  }

  lemma FirstEstimateAlike(c: Round, rows: seq<Row>, d: Round, more: seq<Row>, u: Hotkey, x: Hotkey, row: Row,
                           m: ModelId, r: Result)
    requires Alike(c, rows, d, more, u, x) && row.hotkey == u && m in c.candidates
    ensures FirstEstimate(d, more, row, u, m, r) <==> FirstEstimate(c, rows, Named(row, x), x, m, r)
  {
    VotersOwnRows(c, x);
    VotersOwnRows(d, u);
    hide Terminal, Estimate, Baseline, Earlier;
    if FirstEstimate(d, more, row, u, m, r) {
      forall other, s | other in rows && Estimate(c, other, x, m, s)
        ensures !Earlier(other, Named(row, x))
      {
        assert Named(Named(other, u), x) == other;
        EarlierAlike(Named(other, u), row, x);
      }
      forall other, s | other in rows && Terminal(c, other, x, c.candidates[m].hotkey, s)
        ensures Earlier(Named(row, x), other)
      {
        assert Named(Named(other, u), x) == other;
        EarlierAlike(row, Named(other, u), x);
      }
    }
    if FirstEstimate(c, rows, Named(row, x), x, m, r) {
      forall other, s | other in more && Estimate(d, other, u, m, s)
        ensures !Earlier(other, row)
      {
        EarlierAlike(other, row, x);
      }
      forall other, s | other in more && Terminal(d, other, u, c.candidates[m].hotkey, s)
        ensures Earlier(row, other)
      {
        EarlierAlike(row, other, x);
      }
    }
  }

  lemma FirstBaselineAlike(c: Round, rows: seq<Row>, d: Round, more: seq<Row>, u: Hotkey, x: Hotkey, row: Row,
                           m: ModelId, r: Result)
    requires Alike(c, rows, d, more, u, x) && row.hotkey == u
    ensures FirstBaseline(d, more, row, u, m, r) <==> FirstBaseline(c, rows, Named(row, x), x, m, r)
  {
    VotersOwnRows(c, x);
    VotersOwnRows(d, u);
    hide Terminal, Estimate, Baseline, Earlier;
    if FirstBaseline(d, more, row, u, m, r) {
      forall other, s | other in rows && Baseline(c, other, x, m, s)
        ensures !Earlier(other, Named(row, x))
      {
        assert Named(Named(other, u), x) == other;
        EarlierAlike(Named(other, u), row, x);
      }
    }
    if FirstBaseline(c, rows, Named(row, x), x, m, r) {
      forall other, s | other in more && Baseline(d, other, u, m, s)
        ensures !Earlier(other, row)
      {
        EarlierAlike(other, row, x);
      }
    }
  }

  /** The parts vote as the whole did. */
  lemma FinalAlike(c: Round, rows: seq<Row>, d: Round, more: seq<Row>, u: Hotkey, x: Hotkey, m: ModelId, r: Result)
    requires Alike(c, rows, d, more, u, x) && m in c.candidates
    ensures FinalVote(d, more, u, m, r) <==> FinalVote(c, rows, x, m, r)
  {
    var h := c.candidates[m].hotkey;
    VotersOwnRows(c, x);
    VotersOwnRows(d, u);
    if row :| FirstTerminal(d, more, row, u, h, r) {
      FirstTerminalAlike(c, rows, d, more, u, x, row, h, r);
    }
    if row :| FirstTerminal(c, rows, row, x, h, r) {
      FirstTerminalAlike(c, rows, d, more, u, x, Named(row, u), h, r);
      assert Named(Named(row, u), x) == row;
    }
    hide Terminal, Alike;
  }

  lemma VotesAlike(c: Round, rows: seq<Row>, d: Round, more: seq<Row>, u: Hotkey, x: Hotkey, m: ModelId, r: Result)
    requires Alike(c, rows, d, more, u, x)
    ensures Votes(d, more, u, m, r) <==> Votes(c, rows, x, m, r)
  {
    if m in c.candidates {
      forall q
        ensures FinalVote(d, more, u, m, q) <==> FinalVote(c, rows, x, m, q)
      {
        FinalAlike(c, rows, d, more, u, x, m, q);
      }
      BoundsAlike(c, rows, d, more, u, x, m, r);
    }
    hide FinalVote, FirstEstimate, Alike;
  }

  lemma BoundsAlike(c: Round, rows: seq<Row>, d: Round, more: seq<Row>, u: Hotkey, x: Hotkey, m: ModelId, r: Result)
    requires Alike(c, rows, d, more, u, x) && m in c.candidates
    ensures (exists row :: FirstEstimate(d, more, row, u, m, r)) <==>
      (exists row :: FirstEstimate(c, rows, row, x, m, r))
  {
    VotersOwnRows(c, x);
    VotersOwnRows(d, u);
    if row :| FirstEstimate(d, more, row, u, m, r) {
      FirstEstimateAlike(c, rows, d, more, u, x, row, m, r);
    }
    if row :| FirstEstimate(c, rows, row, x, m, r) {
      FirstEstimateAlike(c, rows, d, more, u, x, Named(row, u), m, r);
      assert Named(Named(row, u), x) == row;
    }
    hide Terminal, Estimate, Alike;
  }

  lemma KingScoresAlike(c: Round, rows: seq<Row>, d: Round, more: seq<Row>, u: Hotkey, x: Hotkey, m: ModelId, r: Result)
    requires Alike(c, rows, d, more, u, x)
    ensures KingScores(d, more, u, m, r) <==> KingScores(c, rows, x, m, r)
  {
    VotersOwnRows(c, x);
    VotersOwnRows(d, u);
    if row :| FirstBaseline(d, more, row, u, m, r) {
      FirstBaselineAlike(c, rows, d, more, u, x, row, m, r);
    }
    if row :| FirstBaseline(c, rows, row, x, m, r) {
      FirstBaselineAlike(c, rows, d, more, u, x, Named(row, u), m, r);
      assert Named(Named(row, u), x) == row;
    }
    hide Baseline, Alike;
  }

  lemma CoveredAlike(c: Round, rows: seq<Row>, d: Round, more: seq<Row>, u: Hotkey, x: Hotkey, m: ModelId)
    requires Alike(c, rows, d, more, u, x)
    ensures Covered(d, more, u, m) <==> Covered(c, rows, x, m)
  {
    if m in c.candidates {
      forall r
        ensures FinalVote(d, more, u, m, r) <==> FinalVote(c, rows, x, m, r)
      {
        FinalAlike(c, rows, d, more, u, x, m, r);
      }
    }
    hide FinalVote, Alike;
  }

  // ---------------------------------------------------------------- ballots correspond

  /** What evaluator `u` of ballot `e` did is what `x` of ballot `b` did. */
  ghost predicate SameVoter(b: Ballot, e: Ballot, u: Hotkey, x: Hotkey)
  {
    && (forall m, r :: Filed(e, u, m, r) <==> Filed(b, x, m, r))
    && (forall m, r :: Scored(e, u, m, r) <==> Scored(b, x, m, r))
    && (forall m :: (u in e.panels && m in e.panels[u]) <==> (x in b.panels && m in b.panels[x]))
  }

  lemma VotersAlike(c: Round, rows: seq<Row>, b: Ballot, d: Round, more: seq<Row>, e: Ballot, u: Hotkey, x: Hotkey)
    requires Alike(c, rows, d, more, u, x) && Verdict.Counted(c, rows, b) && Verdict.Counted(d, more, e)
    ensures SameVoter(b, e, u, x)
  {
    hide Alike, Votes, KingScores, Covered, Filed, Scored, HasBaseline, HasTerminal;
    forall m, r
      ensures Filed(e, u, m, r) <==> Filed(b, x, m, r)
    {
      VotesAlike(c, rows, d, more, u, x, m, r);
    }
    forall m, r
      ensures Scored(e, u, m, r) <==> Scored(b, x, m, r)
    {
      KingScoresAlike(c, rows, d, more, u, x, m, r);
    }
    forall m
      ensures (u in e.panels && m in e.panels[u]) <==> (x in b.panels && m in b.panels[x])
    {
      CoveredAlike(c, rows, d, more, u, x, m);
    }
  }

  /** An evaluator without stake has no vote. */
  lemma UnstakedIsSilent(c: Round, rows: seq<Row>, b: Ballot, u: Hotkey)
    requires Verdict.Counted(c, rows, b) && u !in c.snapshot.validators
    ensures forall m, r :: !Filed(b, u, m, r)
    ensures forall m :: !(u in b.panels && m in b.panels[u])
  {
    forall row, h, m, r
      ensures !Terminal(c, row, u, h, r) && !Estimate(c, row, u, m, r)
    {
    }
    hide Terminal, Estimate;
  }

  lemma AdmittedAlike(c: Round, b: Ballot, d: Round, e: Ballot, u: Hotkey, x: Hotkey, r: Result)
    requires d.candidates == c.candidates && d.king == c.king && SameVoter(b, e, u, x)
    ensures Admitted(d, e, u, r) <==> Admitted(c, b, x, r)
  {
    if c.king == None {
      if |c.candidates| == 2 {
        assert c.candidates.Keys != {} by { assert |c.candidates.Keys| == 2; }
        PanelsAlike(b, e, u, x, c.candidates.Keys);
      }
    } else {
      var k := c.king.value.modelId;
      if (u, k) in e.baselines {
        assert Scored(e, u, k, e.baselines[(u, k)]);
      }
      if (x, k) in b.baselines {
        assert Scored(b, x, k, b.baselines[(x, k)]);
      }
    }
  }

  lemma PanelsAlike(b: Ballot, e: Ballot, u: Hotkey, x: Hotkey, keys: set<ModelId>)
    requires SameVoter(b, e, u, x) && keys != {}
    ensures (u in e.panels && e.panels[u] == keys) <==> (x in b.panels && b.panels[x] == keys)
  {
    var k :| k in keys;
    hide Filed, Scored;
    if u in e.panels && x in b.panels {
      assert forall m :: m in e.panels[u] <==> m in b.panels[x];
    }
  }

  lemma SupportsAlike(c: Round, b: Ballot, d: Round, e: Ballot, u: Hotkey, x: Hotkey, m: ModelId)
    requires d.candidates == c.candidates && d.king == c.king && SameVoter(b, e, u, x)
    ensures u in Supporters(d, e, m) <==> x in Supporters(c, b, m)
    ensures u in Supporters(d, e, m) ==>
      && m in e.records.items && u in e.records.items[m].items && m in b.records.items && x in b.records.items[m].items
      && e.records.items[m].items[u] == b.records.items[m].items[x]
  {
    if m in e.records.items && u in e.records.items[m].items {
      var r := e.records.items[m].items[u];
      assert Filed(e, u, m, r) && Filed(b, x, m, r);
      AdmittedAlike(c, b, d, e, u, x, r);
    }
    if m in b.records.items && x in b.records.items[m].items {
      var r := b.records.items[m].items[x];
      assert Filed(b, x, m, r) && Filed(e, u, m, r);
      AdmittedAlike(c, b, d, e, u, x, r);
    }
  }

  // ---------------------------------------------------------------- sums correspond

  /** Both ballots, with every evaluator alike and the absent ones silent. */
  ghost predicate Parallel(c: Round, b: Ballot, d: Round, e: Ballot, v: Hotkey, parts: set<Hotkey>)
  {
    && d == c.(snapshot := d.snapshot) && d.snapshot.uids == c.snapshot.uids
    && parts != {} && v in c.snapshot.validators && Sum(parts, Stakes(d)) == c.snapshot.validators[v]
    && (forall u :: Stays(u, v, parts) ==> SameVoter(b, e, u, Origin(u, v, parts)))
    && (forall u :: u in d.snapshot.validators <==> u in parts || (u in c.snapshot.validators && u != v))
    && (forall u :: u in c.snapshot.validators && u != v ==>
          u !in parts && d.snapshot.validators[u] == c.snapshot.validators[u])
    && (forall u, m, r :: Filed(b, u, m, r) ==> u in c.snapshot.validators)
    && (forall u, m, r :: Filed(e, u, m, r) ==> u in d.snapshot.validators)
    && (forall u :: u in b.panels && b.panels[u] != {} ==> u in c.snapshot.validators)
    && (forall u :: u in e.panels && e.panels[u] != {} ==> u in d.snapshot.validators)
  }

  lemma SplitParallel(c: Round, rows: seq<Row>, b: Ballot, d: Round, more: seq<Row>, e: Ballot, v: Hotkey,
                      parts: set<Hotkey>)
    requires Split(c, rows, d, more, v, parts) && Verdict.Counted(c, rows, b) && Verdict.Counted(d, more, e)
    ensures Parallel(c, b, d, e, v, parts)
  {
    hide Verdict.Counted, Alike, SameVoter, Filed, Sum;
    forall u | Stays(u, v, parts)
      ensures SameVoter(b, e, u, Origin(u, v, parts))
    {
      EvaluatorsAlike(c, rows, d, more, v, parts, u);
      VotersAlike(c, rows, b, d, more, e, u, Origin(u, v, parts));
    }
    forall u
      ensures u !in c.snapshot.validators ==>
        (forall m, r :: !Filed(b, u, m, r)) && (u in b.panels ==> b.panels[u] == {})
      ensures u !in d.snapshot.validators ==>
        (forall m, r :: !Filed(e, u, m, r)) && (u in e.panels ==> e.panels[u] == {})
    {
      if u !in c.snapshot.validators {
        UnstakedIsSilent(c, rows, b, u);
      }
      if u !in d.snapshot.validators {
        UnstakedIsSilent(d, more, e, u);
      }
    }
  }

  /** One supporter of the divided round, and whom it stands for. */
  lemma SupporterSplit(c: Round, b: Ballot, d: Round, e: Ballot, v: Hotkey, parts: set<Hotkey>, m: ModelId, u: Hotkey)
    requires Parallel(c, b, d, e, v, parts)
    ensures u in Supporters(d, e, m) <==> Stays(u, v, parts) && Origin(u, v, parts) in Supporters(c, b, m)
    ensures u in Supporters(d, e, m) ==>
      var x := Origin(u, v, parts);
      && m in e.records.items && u in e.records.items[m].items && m in b.records.items && x in b.records.items[m].items
      && e.records.items[m].items[u] == b.records.items[m].items[x]
  {
    SupportersHaveStake(c, b, d, e, v, parts, m);
    hide SameVoter, Supporters, Sum, Filed;
    if Stays(u, v, parts) {
      SupportsAlike(c, b, d, e, u, Origin(u, v, parts), m);
    }
  }

  /** The supporters of a model, with the parts in place of the whole. */
  lemma SupportersSplit(c: Round, b: Ballot, d: Round, e: Ballot, v: Hotkey, parts: set<Hotkey>, m: ModelId)
    requires Parallel(c, b, d, e, v, parts)
    ensures var was, now := Supporters(c, b, m), Supporters(d, e, m);
      now == (was - {v}) + (if v in was then parts else {}) && (was - {v}) !! parts
  {
    hide Parallel, Supporters;
    forall u | u in Supporters(c, b, m) - {v}
      ensures u !in parts
    {
      StakeStays(c, b, d, e, v, parts, m, u);
    }
    forall u
      ensures u in Supporters(d, e, m) <==> Stays(u, v, parts) && Origin(u, v, parts) in Supporters(c, b, m)
    {
      SupporterSplit(c, b, d, e, v, parts, m, u);
    }
  }

  lemma StakeStays(c: Round, b: Ballot, d: Round, e: Ballot, v: Hotkey, parts: set<Hotkey>, m: ModelId, u: Hotkey)
    requires Parallel(c, b, d, e, v, parts) && u in Supporters(c, b, m) && u != v
    ensures u !in parts && u in c.snapshot.validators && u in d.snapshot.validators
    ensures d.snapshot.validators[u] == c.snapshot.validators[u]
  {
    SupportersHaveStake(c, b, d, e, v, parts, m);
    hide SameVoter, Supporters, Sum, Filed;
  }

  lemma PartsHaveStake(c: Round, b: Ballot, d: Round, e: Ballot, v: Hotkey, parts: set<Hotkey>)
    requires Parallel(c, b, d, e, v, parts)
    ensures parts != {} && parts <= d.snapshot.validators.Keys && v in c.snapshot.validators
    ensures Sum(parts, Stakes(d)) == c.snapshot.validators[v]
  {
    hide SameVoter, Sum, Filed;
  }

  lemma SupportersHaveStake(c: Round, b: Ballot, d: Round, e: Ballot, v: Hotkey, parts: set<Hotkey>, m: ModelId)
    requires Parallel(c, b, d, e, v, parts)
    ensures Supporters(c, b, m) <= c.snapshot.validators.Keys && Supporters(d, e, m) <= d.snapshot.validators.Keys
  {
    hide SameVoter, Sum, Admitted;
    forall u | u in Supporters(c, b, m)
      ensures u in c.snapshot.validators
    {
      assert Filed(b, u, m, b.records.items[m].items[u]);
    }
    forall u | u in Supporters(d, e, m)
      ensures u in d.snapshot.validators
    {
      assert Filed(e, u, m, e.records.items[m].items[u]);
    }
  }

  function Times(a: real, k: real): real { a * k }

  lemma {:induction false} SumScaled<T(!new)>(s: set<T>, y: T -> real, z: T -> real, k: real)
    requires forall x :: x in s ==> z(x) == Times(y(x), k)
    ensures Sum(s, z) == Times(Sum(s, y), k)
    decreases |s|
  {
    hide Times;
    if s == {} {
      Distribute(0.0, 0.0, k);
    } else {
      var x :| x in s;
      SumPick(s, y, x);
      SumPick(s, z, x);
      SumScaled(s - {x}, y, z, k);
      Distribute(y(x), Sum(s - {x}, y), k);
    }
  }

  lemma Distribute(a: real, b: real, k: real)
    ensures Times(a + b, k) == Times(a, k) + Times(b, k)
  {
  }

  /** A sum over the supporters is the same when the parts of `v` together weigh what `v` did. */
  lemma SumSplitParts(was: set<Hotkey>, parts: set<Hotkey>, v: Hotkey, y: Hotkey -> real, z: Hotkey -> real)
    requires (was - {v}) !! parts && (forall u :: u in was - {v} ==> z(u) == y(u))
      && (v in was ==> Sum(parts, z) == y(v))
    ensures Sum((was - {v}) + (if v in was then parts else {}), z) == Sum(was, y)
  {
    SumAgree(was - {v}, y, z);
    if v in was {
      SumSplit(was - {v}, parts, z);
      SumPick(was, y, v);
    } else {
      assert was - {v} == was && was + {} == was;
    }
  }

  lemma PowerSplit(c: Round, b: Ballot, d: Round, e: Ballot, v: Hotkey, parts: set<Hotkey>, m: ModelId)
    requires Parallel(c, b, d, e, v, parts)
    ensures Power(d, e, m) == Power(c, b, m)
  {
    hide Parallel, Supporters, Sum;
    SupportersSplit(c, b, d, e, v, parts, m);
    PartsHaveStake(c, b, d, e, v, parts);
    forall u | u in Supporters(c, b, m) - {v}
      ensures Stakes(d)(u) == Stakes(c)(u)
    {
      StakeStays(c, b, d, e, v, parts, m, u);
    }
    SumSplitParts(Supporters(c, b, m), parts, v, Stakes(c), Stakes(d));
  }

  lemma WeighSplit(c: Round, b: Ballot, d: Round, e: Ballot, v: Hotkey, parts: set<Hotkey>, m: ModelId,
                   f: Result -> int)
    requires Parallel(c, b, d, e, v, parts)
    ensures Weigh(d, e, m, f) == Weigh(c, b, m, f)
  {
    hide Parallel, Supporters, Weigh;
    SupportersSplit(c, b, d, e, v, parts, m);
    PartsHaveStake(c, b, d, e, v, parts);
    SomeSupport(Supporters(c, b, m), Supporters(d, e, m), v, parts);
    if Supporters(d, e, m) == {} {
      NothingWeighed(c, b, m, f);
      NothingWeighed(d, e, m, f);
    } else {
      var u :| u in Supporters(d, e, m);
      SupporterSplit(c, b, d, e, v, parts, m, u);
      WeighParts(c, b, d, e, v, parts, m, f);
    }
  }

  lemma NothingWeighed(c: Round, b: Ballot, m: ModelId, f: Result -> int)
    requires Supporters(c, b, m) == {}
    ensures Weigh(c, b, m, f) == 0.0
  {
  }

  lemma WeighParts(c: Round, b: Ballot, d: Round, e: Ballot, v: Hotkey, parts: set<Hotkey>, m: ModelId,
                   f: Result -> int)
    requires Parallel(c, b, d, e, v, parts) && m in b.records.items && m in e.records.items
    ensures Weigh(d, e, m, f) == Weigh(c, b, m, f)
  {
    var y, z := Scores(c, b.records.items[m].items, f), Scores(d, e.records.items[m].items, f);
    var was := Supporters(c, b, m);
    SupportersSplit(c, b, d, e, v, parts, m);
    hide Parallel, Supporters, Sum, Scores;
    forall u | u in was - {v}
      ensures z(u) == y(u)
    {
      ScoreStays(c, b, d, e, v, parts, m, f, u);
    }
    if v in was {
      PartsScore(c, b, d, e, v, parts, m, f);
    }
    SumSplitParts(was, parts, v, y, z);
  }

  lemma ScoreStays(c: Round, b: Ballot, d: Round, e: Ballot, v: Hotkey, parts: set<Hotkey>, m: ModelId,
                   f: Result -> int, u: Hotkey)
    requires Parallel(c, b, d, e, v, parts) && m in b.records.items && m in e.records.items
    requires u in Supporters(c, b, m) && u != v
    ensures Scores(d, e.records.items[m].items, f)(u) == Scores(c, b.records.items[m].items, f)(u)
  {
    hide Parallel, Supporters;
    StakeStays(c, b, d, e, v, parts, m, u);
    SupporterSplit(c, b, d, e, v, parts, m, u);
  }

  lemma PartsScore(c: Round, b: Ballot, d: Round, e: Ballot, v: Hotkey, parts: set<Hotkey>, m: ModelId,
                   f: Result -> int)
    requires Parallel(c, b, d, e, v, parts) && m in b.records.items && m in e.records.items
    requires v in Supporters(c, b, m)
    ensures Sum(parts, Scores(d, e.records.items[m].items, f)) == Scores(c, b.records.items[m].items, f)(v)
  {
    hide Parallel, Supporters, Sum, Times;
    var z := Scores(d, e.records.items[m].items, f);
    SupporterVoted(c, b, v, m);
    PartsHaveStake(c, b, d, e, v, parts);
    var k := f(b.records.items[m].items[v]) as real;
    hide Scores, Stakes;
    forall u | u in parts
      ensures z(u) == Times(Stakes(d)(u), k)
    {
      PartScores(c, b, d, e, v, parts, m, f, u);
    }
    SumScaled(parts, Stakes(d), z, k);
    WholeScores(c, b, v, m, f);
  }

  lemma SupporterVoted(c: Round, b: Ballot, v: Hotkey, m: ModelId)
    requires v in Supporters(c, b, m)
    ensures m in b.records.items && v in b.records.items[m].items
  {
  }

  lemma SupportersVoted(c: Round, b: Ballot, m: ModelId)
    ensures forall v :: v in Supporters(c, b, m) ==> m in b.records.items && v in b.records.items[m].items
  {
  }

  lemma WholeScores(c: Round, b: Ballot, v: Hotkey, m: ModelId, f: Result -> int)
    requires m in b.records.items && v in b.records.items[m].items && v in c.snapshot.validators
    ensures Scores(c, b.records.items[m].items, f)(v) ==
            Times(c.snapshot.validators[v], f(b.records.items[m].items[v]) as real)
  {
  }

  lemma PartScores(c: Round, b: Ballot, d: Round, e: Ballot, v: Hotkey, parts: set<Hotkey>, m: ModelId,
                   f: Result -> int, u: Hotkey)
    requires Parallel(c, b, d, e, v, parts) && m in b.records.items && m in e.records.items
    requires v in Supporters(c, b, m) && u in parts
    ensures v in b.records.items[m].items
    ensures Scores(d, e.records.items[m].items, f)(u) == Times(Stakes(d)(u), f(b.records.items[m].items[v]) as real)
  {
    hide Parallel, Supporters;
    PartsHaveStake(c, b, d, e, v, parts);
    SupporterSplit(c, b, d, e, v, parts, m, u);
    assert u in d.snapshot.validators;
  }

  // ---------------------------------------------------------------- the decision is the same

  lemma NumbersAlike(c: Round, b: Ballot, d: Round, e: Ballot, v: Hotkey, parts: set<Hotkey>, m: ModelId)
    requires Parallel(c, b, d, e, v, parts)
    ensures Rated(d, e, m) == Rated(c, b, m) && Beats(d, e, m) == Beats(c, b, m)
    ensures Unfinished(d, e, m) == Unfinished(c, b, m) && Merit(d, e, m) == Merit(c, b, m)
  {
    assert d.king == c.king;
    hide Parallel, Supporters, Sum, Power, Weigh, Unfinished, Merit;
    PartsHaveStake(c, b, d, e, v, parts);
    PowerSplit(c, b, d, e, v, parts, m);
    WeighSplit(c, b, d, e, v, parts, m, QualityOf);
    WeighSplit(c, b, d, e, v, parts, m, RewardOf);
    WeighSplit(c, b, d, e, v, parts, m, GainOf);
    SupportersSplit(c, b, d, e, v, parts, m);
    UnfinishedAlike(c, b, d, e, v, parts, m);
    SomeSupport(Supporters(c, b, m), Supporters(d, e, m), v, parts);
    MeritAlike(c, b, d, e, m);
  }

  lemma MeritAlike(c: Round, b: Ballot, d: Round, e: Ballot, m: ModelId)
    requires d.king == c.king && Power(d, e, m) == Power(c, b, m)
    requires Weigh(d, e, m, RewardOf) == Weigh(c, b, m, RewardOf) && Weigh(d, e, m, GainOf) == Weigh(c, b, m, GainOf)
    ensures Merit(d, e, m) == Merit(c, b, m)
  {
    hide Power, Weigh;
  }

  lemma SomeSupport(was: set<Hotkey>, now: set<Hotkey>, v: Hotkey, parts: set<Hotkey>)
    requires parts != {} && now == (was - {v}) + (if v in was then parts else {})
    ensures now == {} <==> was == {}
  {
    var u :| u in parts;
    assert v in was ==> u in now;
    assert v !in was ==> now == was;
  }

  lemma UnfinishedAlike(c: Round, b: Ballot, d: Round, e: Ballot, v: Hotkey, parts: set<Hotkey>, m: ModelId)
    requires Parallel(c, b, d, e, v, parts)
    ensures Unfinished(d, e, m) == Unfinished(c, b, m)
  {
    hide Parallel, Supporters, Bound;
    PartsHaveStake(c, b, d, e, v, parts);
    SupportersVoted(c, b, m);
    SupportersVoted(d, e, m);
    if Unfinished(c, b, m) {
      var x :| x in Supporters(c, b, m) && Bound(b.records.items[m].items[x]);
      if x != v {
        StakeStays(c, b, d, e, v, parts, m, x);
      }
      var u := if x == v then AnyPart(parts) else x;
      SupporterSplit(c, b, d, e, v, parts, m, u);
      assert Bound(e.records.items[m].items[u]);
    }
    if Unfinished(d, e, m) {
      var u :| u in Supporters(d, e, m) && Bound(e.records.items[m].items[u]);
      SupporterSplit(c, b, d, e, v, parts, m, u);
      assert Bound(b.records.items[m].items[Origin(u, v, parts)]);
    }
  }

  lemma PairsAlike(c: Round, b: Ballot, d: Round, e: Ballot, v: Hotkey, parts: set<Hotkey>)
    requires Parallel(c, b, d, e, v, parts)
    ensures (exists u :: u in e.panels && |e.panels[u]| == 2) <==> (exists u :: u in b.panels && |b.panels[u]| == 2)
  {
    hide Sum, Filed, Scored, Stakes;
    if u :| u in e.panels && |e.panels[u]| == 2 {
      assert u in d.snapshot.validators && Stays(u, v, parts);
      assert SameVoter(b, e, u, Origin(u, v, parts));
      SamePanel(b, e, u, Origin(u, v, parts));
    }
    if x :| x in b.panels && |b.panels[x]| == 2 {
      assert x in c.snapshot.validators;
      var u := if x == v then AnyPart(parts) else x;
      assert Stays(u, v, parts) && Origin(u, v, parts) == x;
      assert SameVoter(b, e, u, x);
      SamePanel(b, e, u, x);
    }
  }

  ghost function AnyPart(parts: set<Hotkey>): (u: Hotkey)
    requires parts != {}
    ensures u in parts
  {
    var u :| u in parts;
    u
  }

  lemma SamePanel(b: Ballot, e: Ballot, u: Hotkey, x: Hotkey)
    requires SameVoter(b, e, u, x)
    ensures u in e.panels && |e.panels[u]| == 2 ==> x in b.panels && |b.panels[x]| == 2
    ensures x in b.panels && |b.panels[x]| == 2 ==> u in e.panels && |e.panels[u]| == 2
  {
    if u in e.panels && e.panels[u] != {} {
      PanelsAlike(b, e, u, x, e.panels[u]);
    }
    if x in b.panels && b.panels[x] != {} {
      PanelsAlike(b, e, u, x, b.panels[x]);
    }
  }

  lemma ContendsAlike(c: Round, b: Ballot, d: Round, e: Ballot, v: Hotkey, parts: set<Hotkey>, m: ModelId)
    requires Parallel(c, b, d, e, v, parts)
    ensures Contends(d, e, m) == Contends(c, b, m) && MayWin(d, e, m) == MayWin(c, b, m)
    ensures Merit(d, e, m) == Merit(c, b, m)
  {
    assert d == c.(snapshot := d.snapshot) && d.snapshot.uids == c.snapshot.uids;
    PairsAlike(c, b, d, e, v, parts);
    hide Parallel, Rated, Beats, Unfinished, Merit;
    NumbersAlike(c, b, d, e, v, parts, m);
  }

  /** Every model stands the same in both rounds. */
  ghost predicate SameStandings(c: Round, b: Ballot, d: Round, e: Ballot)
  {
    && d.candidates == c.candidates
    && (forall m {:trigger Contends(d, e, m)} {:trigger Contends(c, b, m)} :: Contends(d, e, m) == Contends(c, b, m))
    && (forall m {:trigger MayWin(d, e, m)} {:trigger MayWin(c, b, m)} :: MayWin(d, e, m) == MayWin(c, b, m))
    && (forall m {:trigger Merit(d, e, m)} {:trigger Merit(c, b, m)} :: Merit(d, e, m) == Merit(c, b, m))
  }

  lemma CrownPasses(c: Round, b: Ballot, d: Round, e: Ballot, m: ModelId)
    requires SameStandings(c, b, d, e) && Crowned(c, b, m)
    ensures Crowned(d, e, m)
  {
    hide Contends, MayWin, Merit;
    ContendersListed(c, b);
    ContendersListed(d, e);
    forall n | Contends(d, e, n) && n != m
      ensures Outranks(d, e, m, n)
    {
      assert Outranks(c, b, m, n);
    }
  }

  lemma CrownedAlike(c: Round, b: Ballot, d: Round, e: Ballot, v: Hotkey, parts: set<Hotkey>)
    requires Parallel(c, b, d, e, v, parts)
    ensures forall m :: Crowned(d, e, m) == Crowned(c, b, m)
    ensures forall m :: MayWin(d, e, m) == MayWin(c, b, m)
  {
    assert d.candidates == c.candidates;
    hide Parallel, Contends, MayWin, Merit, Crowned;
    forall m
      ensures Contends(d, e, m) == Contends(c, b, m) && MayWin(d, e, m) == MayWin(c, b, m)
      ensures Merit(d, e, m) == Merit(c, b, m)
    {
      ContendsAlike(c, b, d, e, v, parts, m);
    }
    assert SameStandings(c, b, d, e) && SameStandings(d, e, c, b);
    forall m
      ensures Crowned(d, e, m) == Crowned(c, b, m)
    {
      if Crowned(c, b, m) {
        CrownPasses(c, b, d, e, m);
      } else if Crowned(d, e, m) {
        CrownPasses(d, e, c, b, m);
      }
    }
  }

  lemma ContendersListed(c: Round, b: Ballot)
    ensures forall m :: Contends(c, b, m) ==> m in c.candidates
  {
  }

  /**
   Dividing the stake of one evaluator among several that publish the same rows leaves the winner and
   the inconclusive models as they are.
   */
  lemma SplittingChangesNothing(c: Round, rows: seq<Row>, d: Round, more: seq<Row>, v: Hotkey, parts: set<Hotkey>)
    requires Consensus.DistinctHotkeys(c) && Split(c, rows, d, more, v, parts)
    ensures var b, e := Fold(c, Sort(rows)), Fold(d, Sort(more));
      && WellFormed(b) && WellFormed(e)
      && DecisionOf(d, e).winner == DecisionOf(c, b).winner
      && DecisionOf(d, e).inconclusive == DecisionOf(c, b).inconclusive
  {
    var b, e := Fold(c, Sort(rows)), Fold(d, Sort(more));
    SameRound(c, rows, d, more, v, parts);
    assert Consensus.DistinctHotkeys(d);
    DecisionMeans(c, rows);
    DecisionMeans(d, more);
    hide Fold, Sort, Split, Consensus.DistinctHotkeys, Verdict.Counted, Crowned, MayWin, LostBound, WellFormed,
      DecisionOf;
    SplitParallel(c, rows, b, d, more, e, v, parts);
    CrownedAlike(c, b, d, e, v, parts);
    hide Parallel;
    if m :| Crowned(c, b, m) {
      assert Crowned(d, e, m);
    }
  }
}
