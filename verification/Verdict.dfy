/**
 What the decision means, said of the rows and the stakes themselves: whose first results
 count, which challenger a stake-weighted majority prefers, and that splitting a stake over
 several evaluators changes nothing.
 */
module Verdict {
  import opened Common
  import opened Dicts
  import opened Wire
  import opened Decide
  import opened Sums
  import Consensus
  import Ordering

  // ---------------------------------------------------------------- rows that count

  predicate Passing(r: Result) { r.flags % 2 == 1 }

  predicate Rejection(r: Result) { r.flags / 2 % 2 == 1 }

  predicate KingScore(r: Result) { r.flags / 4 % 2 == 1 }

  predicate Bound(r: Result) { r.flags / 8 % 2 == 1 }

  /** A row of a staked evaluator for this window and policy. */
  ghost predicate Speaks(c: Round, row: Row, r: Result)
  {
    && Parse(row.value) == Ok(r) && r.window == c.window
    && r.policy == (if |c.policy| <= 24 then c.policy else c.policy[..24])
    && row.hotkey in c.snapshot.validators && c.snapshot.validators[row.hotkey] > 0.0
  }

  /** A report on a listed submission under its own uid. */
  ghost predicate Reports(c: Round, row: Row, v: Hotkey, r: Result)
  {
    && Speaks(c, row, r) && row.hotkey == v && !KingScore(r)
    && r.modelId in c.candidates && c.candidates[r.modelId].uid == r.uid
  }

  /** A terminal report on the submission of hotkey `h`. */
  ghost predicate Terminal(c: Round, row: Row, v: Hotkey, h: Hotkey, r: Result)
  {
    Reports(c, row, v, r) && !Bound(r) && c.candidates[r.modelId].hotkey == h
  }

  /** An upper bound on model `m`, which only exists against a king. */
  ghost predicate Estimate(c: Round, row: Row, v: Hotkey, m: ModelId, r: Result)
  {
    Reports(c, row, v, r) && Bound(r) && Passing(r) && c.king.Some? && r.modelId == m
  }

  ghost predicate Baseline(c: Round, row: Row, v: Hotkey, m: ModelId, r: Result)
  {
    Speaks(c, row, r) && row.hotkey == v && KingScore(r) && r.modelId == m
  }

  /** Two rows of one evaluator in the order of the chain. */
  predicate Earlier(a: Row, b: Row)
  {
    a.block < b.block || (a.block == b.block && Ordering.Less(a.value, b.value))
  }

  // ---------------------------------------------------------------- votes

  ghost predicate FirstTerminal(c: Round, rows: seq<Row>, row: Row, v: Hotkey, h: Hotkey, r: Result)
  {
    && row in rows && Terminal(c, row, v, h, r)
    && forall other, s :: other in rows && Terminal(c, other, v, h, s) ==> !Earlier(other, row)
  }

  ghost predicate HasTerminal(c: Round, rows: seq<Row>, v: Hotkey, h: Hotkey)
  {
    exists row, r :: row in rows && Terminal(c, row, v, h, r)
  }

  /** The first bound, if it came before anything terminal on the same hotkey. */
  ghost predicate FirstEstimate(c: Round, rows: seq<Row>, row: Row, v: Hotkey, m: ModelId, r: Result)
    requires m in c.candidates
  {
    && row in rows && Estimate(c, row, v, m, r)
    && (forall other, s :: other in rows && Estimate(c, other, v, m, s) ==> !Earlier(other, row))
    && (forall other, s :: other in rows && Terminal(c, other, v, c.candidates[m].hotkey, s) ==> Earlier(row, other))
  }

  /** `v` voted on `m` by its first terminal result, whatever it amended later. */
  ghost predicate FinalVote(c: Round, rows: seq<Row>, v: Hotkey, m: ModelId, r: Result)
    requires m in c.candidates
  {
    r.modelId == m && Passing(r) && exists row :: FirstTerminal(c, rows, row, v, c.candidates[m].hotkey, r)
  }

  ghost predicate BoundVote(c: Round, rows: seq<Row>, v: Hotkey, m: ModelId, r: Result)
    requires m in c.candidates
  {
    (forall s :: !FinalVote(c, rows, v, m, s)) && exists row :: FirstEstimate(c, rows, row, v, m, r)
  }

  ghost predicate Votes(c: Round, rows: seq<Row>, v: Hotkey, m: ModelId, r: Result)
  {
    m in c.candidates && (FinalVote(c, rows, v, m, r) || BoundVote(c, rows, v, m, r))
  }

  ghost predicate FirstBaseline(c: Round, rows: seq<Row>, row: Row, v: Hotkey, m: ModelId, r: Result)
  {
    && row in rows && Baseline(c, row, v, m, r)
    && forall other, s :: other in rows && Baseline(c, other, v, m, s) ==> !Earlier(other, row)
  }

  ghost predicate HasBaseline(c: Round, rows: seq<Row>, v: Hotkey, m: ModelId)
  {
    exists row, r :: row in rows && Baseline(c, row, v, m, r)
  }

  ghost predicate KingScores(c: Round, rows: seq<Row>, v: Hotkey, m: ModelId, r: Result)
  {
    exists row :: FirstBaseline(c, rows, row, v, m, r)
  }

  ghost predicate Covered(c: Round, rows: seq<Row>, v: Hotkey, m: ModelId)
  {
    m in c.candidates && exists r :: FinalVote(c, rows, v, m, r)
  }

  // ---------------------------------------------------------------- the ballot holds exactly these votes

  predicate Filed(b: Ballot, v: Hotkey, m: ModelId, r: Result)
  {
    m in b.records.items && v in b.records.items[m].items && b.records.items[m].items[v] == r
  }

  predicate Scored(b: Ballot, v: Hotkey, m: ModelId, r: Result)
  {
    (v, m) in b.baselines && b.baselines[(v, m)] == r
  }

  ghost predicate Counted(c: Round, rows: seq<Row>, b: Ballot)
  {
    && (forall v, m, r :: Filed(b, v, m, r) <==> Votes(c, rows, v, m, r))
    && (forall v, m, r :: Scored(b, v, m, r) <==> KingScores(c, rows, v, m, r))
    && (forall v, m :: (v, m) in b.baselines <==> HasBaseline(c, rows, v, m))
    && (forall v, h :: (v, h) in b.used <==> HasTerminal(c, rows, v, h))
    && (forall v, m :: (v in b.panels && m in b.panels[v]) <==> Covered(c, rows, v, m))
  }

  // ---------------------------------------------------------------- one more row

  /** `x` comes no earlier than any row of its evaluator so far. */
  ghost predicate Latest(rows: seq<Row>, x: Row)
  {
    forall y :: y in rows && y.hotkey == x.hotkey ==> !Earlier(x, y)
  }

  lemma SameRow(a: Row, b: Row)
    requires a.hotkey == b.hotkey && !Earlier(a, b) && !Earlier(b, a)
    ensures a == b
  {
    Ordering.LessTotal(a.value, b.value);
  }

  lemma NotBoth(a: Row, b: Row)
    requires Earlier(a, b)
    ensures !Earlier(b, a)
  {
    if Ordering.Less(a.value, b.value) {
      Ordering.LessAsymmetric(a.value, b.value);
    }
  }

  lemma InMore(rows: seq<Row>, x: Row)
    ensures forall y :: y in rows + [x] <==> y in rows || y == x
  {
  }

  lemma TerminalMore(c: Round, rows: seq<Row>, x: Row, v: Hotkey, h: Hotkey)
    ensures HasTerminal(c, rows + [x], v, h) <==> HasTerminal(c, rows, v, h) || exists r :: Terminal(c, x, v, h, r)
  {
    InMore(rows, x);
    hide Terminal;
    if HasTerminal(c, rows, v, h) {
      var row, r :| row in rows && Terminal(c, row, v, h, r);
      assert row in rows + [x];
    }
    if r :| Terminal(c, x, v, h, r) {
      assert x in rows + [x];
    }
  }

  lemma FinalMore(c: Round, rows: seq<Row>, x: Row, v: Hotkey, m: ModelId, r: Result)
    requires Latest(rows, x) && m in c.candidates
    ensures FinalVote(c, rows + [x], v, m, r) <==>
      FinalVote(c, rows, v, m, r) || (!HasTerminal(c, rows, v, c.candidates[m].hotkey) && r.modelId == m && Passing(r)
                                      && Terminal(c, x, v, c.candidates[m].hotkey, r))
  {
    var h := c.candidates[m].hotkey;
    InMore(rows, x);
    TerminalVoter(c, v, h);
    hide Terminal, Earlier, Passing;
    if row :| FirstTerminal(c, rows, row, v, h, r) {
      assert FirstTerminal(c, rows + [x], row, v, h, r);
    }
    if row :| FirstTerminal(c, rows + [x], row, v, h, r) {
      if row in rows {
        assert FirstTerminal(c, rows, row, v, h, r);
      } else if HasTerminal(c, rows, v, h) {
        var other, s :| other in rows && Terminal(c, other, v, h, s);
        SameRow(other, x);
      }
    }
    if !HasTerminal(c, rows, v, h) && Terminal(c, x, v, h, r) {
      NeverEarlierThanItself(x);
      assert FirstTerminal(c, rows + [x], x, v, h, r);
    }
  }

  lemma TerminalVoter(c: Round, v: Hotkey, h: Hotkey)
    ensures forall row, r :: Terminal(c, row, v, h, r) ==> row.hotkey == v
  {
  }

  lemma NeverEarlierThanItself(x: Row)
    ensures !Earlier(x, x)
  {
    Ordering.LessIrreflexive(x.value);
  }

  ghost predicate HasEstimate(c: Round, rows: seq<Row>, v: Hotkey, m: ModelId)
  {
    exists row, r :: row in rows && Estimate(c, row, v, m, r)
  }

  lemma EstimateVoter(c: Round, v: Hotkey, m: ModelId)
    ensures forall row, r :: Estimate(c, row, v, m, r) ==> row.hotkey == v
    ensures m in c.candidates ==> forall row, r, s ::
              Estimate(c, row, v, m, r) ==> !Terminal(c, row, v, c.candidates[m].hotkey, s)
  {
  }

  /** A bound counts from the first one on that comes before every terminal result. */
  lemma EstimateMore(c: Round, rows: seq<Row>, x: Row, v: Hotkey, m: ModelId, r: Result)
    requires Latest(rows, x) && m in c.candidates
    ensures (exists row :: FirstEstimate(c, rows + [x], row, v, m, r)) <==>
      (exists row :: FirstEstimate(c, rows, row, v, m, r))
      || (Estimate(c, x, v, m, r) && !HasEstimate(c, rows, v, m) && !HasTerminal(c, rows, v, c.candidates[m].hotkey))
  {
    InMore(rows, x);
    TerminalVoter(c, v, c.candidates[m].hotkey);
    EstimateVoter(c, v, m);
    hide Terminal, Earlier, Estimate;
    if row :| FirstEstimate(c, rows, row, v, m, r) {
      EstimateStays(c, rows, x, v, m, r, row);
    }
    if row :| FirstEstimate(c, rows + [x], row, v, m, r) {
      if row in rows {
        assert FirstEstimate(c, rows, row, v, m, r);
      } else {
        NewEstimate(c, rows, x, v, m, r);
      }
    }
    if Estimate(c, x, v, m, r) && !HasEstimate(c, rows, v, m) && !HasTerminal(c, rows, v, c.candidates[m].hotkey) {
      NeverEarlierThanItself(x);
      assert FirstEstimate(c, rows + [x], x, v, m, r);
    }
  }

  lemma EstimateStays(c: Round, rows: seq<Row>, x: Row, v: Hotkey, m: ModelId, r: Result, row: Row)
    requires Latest(rows, x) && m in c.candidates && FirstEstimate(c, rows, row, v, m, r)
    ensures FirstEstimate(c, rows + [x], row, v, m, r)
  {
    InMore(rows, x);
    TerminalVoter(c, v, c.candidates[m].hotkey);
    EstimateVoter(c, v, m);
    hide Terminal, Earlier, Estimate;
    forall other, s | other in rows + [x] && Terminal(c, other, v, c.candidates[m].hotkey, s)
      ensures Earlier(row, other)
    {
      if other !in rows && !Earlier(row, x) {
        SameRow(row, x);
      }
    }
  }

  lemma NewEstimate(c: Round, rows: seq<Row>, x: Row, v: Hotkey, m: ModelId, r: Result)
    requires Latest(rows, x) && m in c.candidates && FirstEstimate(c, rows + [x], x, v, m, r) && x !in rows
    ensures !HasEstimate(c, rows, v, m) && !HasTerminal(c, rows, v, c.candidates[m].hotkey)
  {
    InMore(rows, x);
    TerminalVoter(c, v, c.candidates[m].hotkey);
    EstimateVoter(c, v, m);
    hide Terminal, Earlier, Estimate;
    if HasEstimate(c, rows, v, m) {
      var other, s :| other in rows && Estimate(c, other, v, m, s);
      SameRow(other, x);
    }
  }

  /** Where bounds came and nothing terminal did, one of them is first. */
  lemma {:induction false} EarliestEstimate(c: Round, rows: seq<Row>, v: Hotkey, m: ModelId) returns (row: Row,
    r: Result)
    requires HasEstimate(c, rows, v, m)
    ensures row in rows && Estimate(c, row, v, m, r)
    ensures forall other, s :: other in rows && Estimate(c, other, v, m, s) ==> !Earlier(other, row)
    decreases |rows|
  {
    EstimateVoter(c, v, m);
    hide Estimate, Earlier;
    var n := |rows| - 1;
    var x := rows[n];
    assert rows == rows[..n] + [x];
    if HasEstimate(c, rows[..n], v, m) {
      row, r := EarliestEstimate(c, rows[..n], v, m);
      if s :| Estimate(c, x, v, m, s) && Earlier(x, row) {
        EarlierIsTransitive(c, rows[..n], v, m, x, row);
        NeverEarlierThanItself(x);
        row, r := x, s;
      }
    } else {
      row, r :| row in rows && Estimate(c, row, v, m, r);
      NeverEarlierThanItself(x);
    }
  }

  lemma EarlierIsTransitive(c: Round, rows: seq<Row>, v: Hotkey, m: ModelId, x: Row, row: Row)
    requires Earlier(x, row) && forall other, s :: other in rows && Estimate(c, other, v, m, s) ==> !Earlier(other, row)
    ensures forall other, s :: other in rows && Estimate(c, other, v, m, s) ==> !Earlier(other, x)
  {
    hide Estimate;
    forall other, s | other in rows && Estimate(c, other, v, m, s)
      ensures !Earlier(other, x)
    {
      if Earlier(other, x) && Ordering.Less(other.value, x.value) && Ordering.Less(x.value, row.value) {
        Ordering.LessTransitive(other.value, x.value, row.value);
      }
    }
  }

  lemma BaselineMore(c: Round, rows: seq<Row>, x: Row, v: Hotkey, m: ModelId, r: Result)
    requires Latest(rows, x)
    ensures KingScores(c, rows + [x], v, m, r) <==>
      KingScores(c, rows, v, m, r)
      || (Baseline(c, x, v, m, r) && !HasBaseline(c, rows, v, m))
  {
    InMore(rows, x);
    assert forall row, s :: Baseline(c, row, v, m, s) ==> row.hotkey == v;
    hide Baseline, Earlier;
    if row :| FirstBaseline(c, rows, row, v, m, r) {
      assert FirstBaseline(c, rows + [x], row, v, m, r);
    }
    if row :| FirstBaseline(c, rows + [x], row, v, m, r) {
      if row in rows {
        assert FirstBaseline(c, rows, row, v, m, r);
      } else if other, s :| other in rows && Baseline(c, other, v, m, s) {
        SameRow(other, x);
      }
    }
    if Baseline(c, x, v, m, r) && !HasBaseline(c, rows, v, m) {
      NeverEarlierThanItself(x);
      assert FirstBaseline(c, rows + [x], x, v, m, r);
    }
  }

  lemma HasBaselineMore(c: Round, rows: seq<Row>, x: Row, v: Hotkey, m: ModelId)
    ensures HasBaseline(c, rows + [x], v, m) <==> HasBaseline(c, rows, v, m) || exists r :: Baseline(c, x, v, m, r)
  {
    InMore(rows, x);
    hide Baseline;
    if HasBaseline(c, rows, v, m) {
      var other, s :| other in rows && Baseline(c, other, v, m, s);
      assert other in rows + [x];
    }
    if s :| Baseline(c, x, v, m, s) {
      assert x in rows + [x];
    }
  }

  // ---------------------------------------------------------------- one more row of the fold

  lemma SilentStep(c: Round, b: Ballot, x: Row)
    requires forall r :: Speaks(c, x, r) ==> !KingScore(r) && !Reports(c, x, x.hotkey, r)
    ensures Step(c, b, x) == b
  {
    hide Parse, Accept;
    if Parse(x.value).Ok? {
      var r := Parse(x.value).value;
      assert Speaks(c, x, r) ==> !Reports(c, x, x.hotkey, r);
    }
  }

  lemma BaselineStep(c: Round, b: Ballot, x: Row, r: Result)
    requires Baseline(c, x, x.hotkey, r.modelId, r)
    ensures Step(c, b, x) ==
      if (x.hotkey, r.modelId) in b.baselines then b
      else b.(baselines := b.baselines[(x.hotkey, r.modelId) := r])
  {
    hide Parse, Accept;
  }

  /** Filing a result replaces a bound, and a bound replaces nothing. */
  /** The votes on a model, as a map. */
  ghost function VotesOn(b: Ballot, m: ModelId): map<Hotkey, Result>
  {
    if m in b.records.items then b.records.items[m].items else map[]
  }

  lemma FiledOn(b: Ballot, v: Hotkey, m: ModelId, r: Result)
    ensures Filed(b, v, m, r) <==> v in VotesOn(b, m) && VotesOn(b, m)[v] == r
  {
  }

  lemma VotesAfter(b: Ballot, voter: Hotkey, r: Result, m: ModelId)
    ensures VotesOn(Vote(b, voter, r), m) ==
      var votes := VotesOn(b, m);
      if m == r.modelId && (voter !in votes || !r.Partial()) then votes[voter := r] else votes
  {
    hide Result.Partial;
  }

  lemma VoteFilesAt(b: Ballot, voter: Hotkey, r: Result, v: Hotkey, m: ModelId, s: Result)
    ensures Filed(Vote(b, voter, r), v, m, s) <==>
      if v == voter && m == r.modelId && (!r.Partial() || forall q :: !Filed(b, v, m, q)) then s == r
      else Filed(b, v, m, s)
  {
    hide Result.Partial, Vote, VotesOn, Filed;
    VotesAfter(b, voter, r, m);
    FiledOn(Vote(b, voter, r), v, m, s);
    forall q
      ensures Filed(b, v, m, q) <==> v in VotesOn(b, m) && VotesOn(b, m)[v] == q
    {
      FiledOn(b, v, m, q);
    }
    if v in VotesOn(b, m) {
      assert Filed(b, v, m, VotesOn(b, m)[v]);
    }
  }

  lemma VoteFiles(b: Ballot, voter: Hotkey, r: Result)
    ensures var t := Vote(b, voter, r);
      && t == b.(records := t.records)
      && forall v, m, s :: Filed(t, v, m, s) <==>
           if v == voter && m == r.modelId && (!r.Partial() || forall q :: !Filed(b, v, m, q)) then s == r
           else Filed(b, v, m, s)
  {
    VoteRecords(b, voter, r);
    hide Vote, Filed, Result.Partial;
    forall v, m, s
      ensures Filed(Vote(b, voter, r), v, m, s) <==>
        if v == voter && m == r.modelId && (!r.Partial() || forall q :: !Filed(b, v, m, q)) then s == r
        else Filed(b, v, m, s)
    {
      VoteFilesAt(b, voter, r, v, m, s);
    }
  }

  lemma VoteRecords(b: Ballot, voter: Hotkey, r: Result)
    ensures Vote(b, voter, r) == b.(records := Vote(b, voter, r).records)
  {
    hide Result.Partial;
  }

  lemma TerminalStep(c: Round, b: Ballot, x: Row, r: Result)
    requires Reports(c, x, x.hotkey, r) && !Bound(r)
    ensures var key, t := (x.hotkey, c.candidates[r.modelId].hotkey), Step(c, b, x);
      && t.baselines == b.baselines
      && (key in b.used ==> t == b)
      && (key !in b.used ==> t.used == b.used + {key})
      && (key !in b.used && !Passing(r) ==> t.records == b.records && t.panels == b.panels)
      && (key !in b.used && Passing(r) ==>
            && (forall v, m, s :: Filed(t, v, m, s) <==>
                  if v == x.hotkey && m == r.modelId then s == r else Filed(b, v, m, s))
            && (forall v, m :: (v in t.panels && m in t.panels[v]) <==>
                  (v in b.panels && m in b.panels[v]) || (v == x.hotkey && m == r.modelId)))
  {
    var b1 := b.(used := b.used + {(x.hotkey, c.candidates[r.modelId].hotkey)});
    hide Parse, Vote, Panel;
    VoteFiles(Panel(b1, x.hotkey, r.modelId), x.hotkey, r);
    PanelCovers(b, b1, x.hotkey, r.modelId);
    hide Filed;
  }

  lemma PanelCovers(b: Ballot, b1: Ballot, voter: Hotkey, model: ModelId)
    requires b1 == b.(used := b1.used)
    ensures var t := Panel(b1, voter, model);
      && t == b1.(panels := t.panels) && (forall v, m, s :: Filed(t, v, m, s) <==> Filed(b, v, m, s))
      && forall v, m :: (v in t.panels && m in t.panels[v]) <==>
           (v in b.panels && m in b.panels[v]) || (v == voter && m == model)
  {
  }

  lemma EstimateStep(c: Round, b: Ballot, x: Row, r: Result)
    requires Reports(c, x, x.hotkey, r) && Bound(r)
    ensures var key, t := (x.hotkey, c.candidates[r.modelId].hotkey), Step(c, b, x);
      && t.baselines == b.baselines && t.used == b.used && t.panels == b.panels
      && (forall v, m, s :: Filed(t, v, m, s) <==>
            if v == x.hotkey && m == r.modelId && key !in b.used && Passing(r) && c.king.Some?
               && (forall q :: !Filed(b, v, m, q)) then s == r else Filed(b, v, m, s))
  {
    VoteFiles(b, x.hotkey, r);
    hide Parse, Vote, Filed;
  }

  // ---------------------------------------------------------------- the fold counts

  /** A row that reports nothing leaves every vote as it was. */
  lemma SilentCounted(c: Round, rows: seq<Row>, b: Ballot, x: Row)
    requires Counted(c, rows, b) && Latest(rows, x)
    requires forall r :: Speaks(c, x, r) ==> !KingScore(r) && !Reports(c, x, x.hotkey, r)
    ensures Counted(c, rows + [x], b)
  {
    forall v, h, m, r
      ensures !Terminal(c, x, v, h, r) && !Estimate(c, x, v, m, r) && !Baseline(c, x, v, m, r)
    {
      assert Speaks(c, x, r) && x.hotkey == v ==> !KingScore(r) && !Reports(c, x, v, r);
    }
    hide Speaks, Reports, Terminal, Estimate, Baseline;
    SameCounted(c, rows, b, x);
  }

  lemma SameCounted(c: Round, rows: seq<Row>, b: Ballot, x: Row)
    requires Counted(c, rows, b) && Latest(rows, x)
    requires forall v, h, r :: Terminal(c, x, v, h, r) ==> HasTerminal(c, rows, v, h)
    requires forall v, m, r :: Estimate(c, x, v, m, r) && m in c.candidates ==>
               HasTerminal(c, rows, v, c.candidates[m].hotkey)
    requires forall v, m, r :: Baseline(c, x, v, m, r) ==> HasBaseline(c, rows, v, m)
    ensures Counted(c, rows + [x], b)
  {
    hide Speaks, Reports, Terminal, Estimate, Baseline, Latest, HasTerminal, HasBaseline, HasEstimate, FirstTerminal,
      FirstEstimate, FirstBaseline, KingScores, FinalVote, Filed, Scored, Votes, Covered;
    forall v, m, r
      ensures Votes(c, rows + [x], v, m, r) == Votes(c, rows, v, m, r)
      ensures KingScores(c, rows + [x], v, m, r) == KingScores(c, rows, v, m, r)
    {
      VotesMore(c, rows, x, v, m, r);
      BaselineMore(c, rows, x, v, m, r);
    }
    forall v, h
      ensures HasTerminal(c, rows + [x], v, h) == HasTerminal(c, rows, v, h)
    {
      TerminalMore(c, rows, x, v, h);
    }
    forall v, m
      ensures HasBaseline(c, rows + [x], v, m) == HasBaseline(c, rows, v, m)
    {
      HasBaselineMore(c, rows, x, v, m);
    }
    forall v, m
      ensures Covered(c, rows + [x], v, m) == Covered(c, rows, v, m)
    {
      SameCovered(c, rows, x, v, m);
    }
  }

  lemma SameCovered(c: Round, rows: seq<Row>, x: Row, v: Hotkey, m: ModelId)
    requires Latest(rows, x) && forall h, s :: Terminal(c, x, v, h, s) ==> HasTerminal(c, rows, v, h)
    ensures Covered(c, rows + [x], v, m) == Covered(c, rows, v, m)
  {
    hide FinalVote, Latest, HasTerminal, Terminal, Passing;
    if m in c.candidates {
      CoveredMore(c, rows, x, v, m);
    }
  }

  lemma CoveredMore(c: Round, rows: seq<Row>, x: Row, v: Hotkey, m: ModelId)
    requires Latest(rows, x) && m in c.candidates
    ensures Covered(c, rows + [x], v, m) <==>
      Covered(c, rows, v, m) || (!HasTerminal(c, rows, v, c.candidates[m].hotkey)
                                 && exists r: Result :: r.modelId == m && Passing(r)
                                                && Terminal(c, x, v, c.candidates[m].hotkey, r))
  {
    hide FinalVote, Latest, HasTerminal, Terminal, Passing;
    forall r
      ensures FinalVote(c, rows + [x], v, m, r) <==>
        FinalVote(c, rows, v, m, r) || (!HasTerminal(c, rows, v, c.candidates[m].hotkey) && r.modelId == m
                                        && Passing(r) && Terminal(c, x, v, c.candidates[m].hotkey, r))
    {
      FinalMore(c, rows, x, v, m, r);
    }
  }

  /** What one more row does to one vote. */
  lemma VotesMore(c: Round, rows: seq<Row>, x: Row, v: Hotkey, m: ModelId, r: Result)
    requires Latest(rows, x)
    requires forall h, s :: Terminal(c, x, v, h, s) ==> HasTerminal(c, rows, v, h)
    requires forall s :: Estimate(c, x, v, m, s) && m in c.candidates ==>
               HasTerminal(c, rows, v, c.candidates[m].hotkey)
    ensures Votes(c, rows + [x], v, m, r) == Votes(c, rows, v, m, r)
  {
    hide Speaks, Reports, Terminal, Estimate, Latest, HasTerminal, HasEstimate, FirstTerminal, FirstEstimate, FinalVote;
    if m in c.candidates {
      forall s
        ensures FinalVote(c, rows + [x], v, m, s) == FinalVote(c, rows, v, m, s)
      {
        FinalMore(c, rows, x, v, m, s);
      }
      EstimateMore(c, rows, x, v, m, r);
    }
  }

  lemma BaselineCounted(c: Round, rows: seq<Row>, b: Ballot, x: Row, r: Result)
    requires Counted(c, rows, b) && Latest(rows, x) && Baseline(c, x, x.hotkey, r.modelId, r)
    ensures Counted(c, rows + [x], Step(c, b, x))
  {
    BaselineStep(c, b, x, r);
    OnlyBaseline(c, x, r);
    hide Step, Speaks, Terminal, Estimate, Baseline, Latest, HasTerminal, HasBaseline, KingScores, Votes, Covered,
      Filed;
    if (x.hotkey, r.modelId) in b.baselines {
      SameCounted(c, rows, b, x);
    } else {
      var t := Step(c, b, x);
      SameButBaselines(c, rows, b, x);
      forall v, m, s
        ensures Scored(t, v, m, s) <==> KingScores(c, rows + [x], v, m, s)
      {
        BaselineMore(c, rows, x, v, m, s);
      }
      forall v, m
        ensures (v, m) in t.baselines <==> HasBaseline(c, rows + [x], v, m)
      {
        HasBaselineMore(c, rows, x, v, m);
      }
      assert forall v, m, s :: Filed(t, v, m, s) == Filed(b, v, m, s) by { FiledInRecords(t, b); }
    }
  }

  lemma FiledInRecords(t: Ballot, b: Ballot)
    requires t.records == b.records
    ensures forall v, m, s :: Filed(t, v, m, s) == Filed(b, v, m, s)
  {
  }

  lemma OnlyBaseline(c: Round, x: Row, r: Result)
    requires Baseline(c, x, x.hotkey, r.modelId, r)
    ensures forall v, h, s :: !Terminal(c, x, v, h, s)
    ensures forall v, m, s :: !Estimate(c, x, v, m, s)
    ensures forall v, m, s :: Baseline(c, x, v, m, s) <==> v == x.hotkey && m == r.modelId && s == r
  {
    hide Parse;
  }

  lemma SameButBaselines(c: Round, rows: seq<Row>, b: Ballot, x: Row)
    requires Counted(c, rows, b) && Latest(rows, x)
    requires (forall v, h, r :: !Terminal(c, x, v, h, r)) && (forall v, m, r :: !Estimate(c, x, v, m, r))
    ensures forall v, m, r :: Filed(b, v, m, r) <==> Votes(c, rows + [x], v, m, r)
    ensures forall v, h :: (v, h) in b.used <==> HasTerminal(c, rows + [x], v, h)
    ensures forall v, m :: (v in b.panels && m in b.panels[v]) <==> Covered(c, rows + [x], v, m)
  {
    hide Terminal, Estimate, Baseline, Latest, HasTerminal, HasBaseline, KingScores, Filed, Scored, Votes, Covered;
    forall v, m, r
      ensures Votes(c, rows + [x], v, m, r) == Votes(c, rows, v, m, r)
    {
      VotesMore(c, rows, x, v, m, r);
    }
    forall v, h
      ensures HasTerminal(c, rows + [x], v, h) == HasTerminal(c, rows, v, h)
    {
      TerminalMore(c, rows, x, v, h);
    }
    forall v, m
      ensures Covered(c, rows + [x], v, m) == Covered(c, rows, v, m)
    {
      SameCovered(c, rows, x, v, m);
    }
  }

  lemma SameBaselines(c: Round, rows: seq<Row>, b: Ballot, x: Row)
    requires Counted(c, rows, b) && Latest(rows, x) && forall v, m, r :: !Baseline(c, x, v, m, r)
    ensures forall v, m, r :: Scored(b, v, m, r) <==> KingScores(c, rows + [x], v, m, r)
    ensures forall v, m :: (v, m) in b.baselines <==> HasBaseline(c, rows + [x], v, m)
  {
    hide Baseline, Latest, HasTerminal, HasBaseline, KingScores, Filed, Scored, Votes, Covered;
    forall v, m, r
      ensures KingScores(c, rows + [x], v, m, r) == KingScores(c, rows, v, m, r)
    {
      BaselineMore(c, rows, x, v, m, r);
    }
    forall v, m
      ensures HasBaseline(c, rows + [x], v, m) == HasBaseline(c, rows, v, m)
    {
      HasBaselineMore(c, rows, x, v, m);
    }
  }

  lemma OnlyTerminal(c: Round, x: Row, r: Result)
    requires Reports(c, x, x.hotkey, r) && !Bound(r)
    ensures forall v, h, s :: Terminal(c, x, v, h, s) <==>
              v == x.hotkey && s == r && h == c.candidates[r.modelId].hotkey
    ensures (forall v, m, s :: !Estimate(c, x, v, m, s)) && (forall v, m, s :: !Baseline(c, x, v, m, s))
  {
    hide Parse;
  }

  /** The first terminal result on a hotkey is the vote, and settles what was only bounded. */
  lemma VotesAfterTerminal(c: Round, rows: seq<Row>, x: Row, r: Result, v: Hotkey, m: ModelId, s: Result)
    requires Latest(rows, x) && Reports(c, x, x.hotkey, r) && !Bound(r)
    requires !HasTerminal(c, rows, x.hotkey, c.candidates[r.modelId].hotkey)
    ensures Votes(c, rows + [x], v, m, s) <==>
      if v == x.hotkey && m == r.modelId && Passing(r) then s == r else Votes(c, rows, v, m, s)
  {
    hide Latest, HasTerminal, Terminal, Estimate, FinalVote, FirstEstimate, HasEstimate, Passing, Bound, Speaks;
    if m in c.candidates {
      BoundsAfterTerminal(c, rows, x, r, v, m, s);
      forall q
        ensures FinalVote(c, rows + [x], v, m, q) <==>
          FinalVote(c, rows, v, m, q) || (v == x.hotkey && m == r.modelId && q == r && Passing(r))
        ensures v == x.hotkey && m == r.modelId ==> !FinalVote(c, rows, v, m, q)
      {
        FinalAfterTerminal(c, rows, x, r, v, m, q);
      }
      assert v == x.hotkey && m == r.modelId && Passing(r) ==> FinalVote(c, rows + [x], v, m, r);
    }
  }

  lemma BoundsAfterTerminal(c: Round, rows: seq<Row>, x: Row, r: Result, v: Hotkey, m: ModelId, s: Result)
    requires Latest(rows, x) && Reports(c, x, x.hotkey, r) && !Bound(r) && m in c.candidates
    ensures (exists row :: FirstEstimate(c, rows + [x], row, v, m, s)) <==>
            (exists row :: FirstEstimate(c, rows, row, v, m, s))
  {
    OnlyTerminal(c, x, r);
    hide Latest, HasTerminal, Terminal, Estimate, FirstEstimate, HasEstimate, Bound, Reports;
    EstimateMore(c, rows, x, v, m, s);
  }

  lemma FinalAfterTerminal(c: Round, rows: seq<Row>, x: Row, r: Result, v: Hotkey, m: ModelId, q: Result)
    requires Latest(rows, x) && Reports(c, x, x.hotkey, r) && !Bound(r) && m in c.candidates
    requires !HasTerminal(c, rows, x.hotkey, c.candidates[r.modelId].hotkey)
    ensures FinalVote(c, rows + [x], v, m, q) <==>
      FinalVote(c, rows, v, m, q) || (v == x.hotkey && m == r.modelId && q == r && Passing(r))
    ensures v == x.hotkey && m == r.modelId ==> !FinalVote(c, rows, v, m, q)
  {
    OnlyTerminal(c, x, r);
    hide Latest, HasTerminal, Terminal, FinalVote, Passing, Bound, Speaks;
    FinalMore(c, rows, x, v, m, q);
    FinalIsTerminal(c, rows, v, m, q);
  }

  lemma FinalIsTerminal(c: Round, rows: seq<Row>, v: Hotkey, m: ModelId, r: Result)
    requires m in c.candidates
    ensures FinalVote(c, rows, v, m, r) ==> HasTerminal(c, rows, v, c.candidates[m].hotkey)
  {
  }

  lemma TerminalCounted(c: Round, rows: seq<Row>, b: Ballot, x: Row, r: Result)
    requires Counted(c, rows, b) && Latest(rows, x) && Reports(c, x, x.hotkey, r) && !Bound(r)
    ensures Counted(c, rows + [x], Step(c, b, x))
  {
    OnlyTerminal(c, x, r);
    if (x.hotkey, c.candidates[r.modelId].hotkey) in b.used {
      TerminalStep(c, b, x, r);
      hide Step, Terminal, Estimate, Baseline, Latest, Votes, Covered, KingScores;
      SameCounted(c, rows, b, x);
    } else {
      hide Step, Reports, Terminal, Estimate, Baseline, Latest, HasTerminal, HasBaseline, KingScores, Votes, Covered,
        Bound, Filed, Scored;
      NewTerminal(c, rows, b, x, r);
    }
  }

  lemma NewTerminal(c: Round, rows: seq<Row>, b: Ballot, x: Row, r: Result)
    requires Counted(c, rows, b) && Latest(rows, x) && Reports(c, x, x.hotkey, r) && !Bound(r)
    requires (x.hotkey, c.candidates[r.modelId].hotkey) !in b.used
    ensures Counted(c, rows + [x], Step(c, b, x))
  {
    var t, more := Step(c, b, x), rows + [x];
    NewTerminalRest(c, rows, b, x, r);
    hide Counted, Step, Reports, Latest, HasTerminal, HasBaseline, KingScores, Votes, Covered, Bound, Filed, Scored;
    forall v, m, s
      ensures Filed(t, v, m, s) <==> Votes(c, more, v, m, s)
    {
      FiledAfterTerminal(c, rows, b, x, r, v, m, s);
    }
    forall v, m
      ensures (v in t.panels && m in t.panels[v]) <==> Covered(c, more, v, m)
    {
      PanelsAfterTerminal(c, rows, b, x, r, v, m);
    }
    CountedParts(c, more, t);
  }

  lemma CountedParts(c: Round, rows: seq<Row>, b: Ballot)
    requires forall v, m, r :: Filed(b, v, m, r) <==> Votes(c, rows, v, m, r)
    requires forall v, m, r :: Scored(b, v, m, r) <==> KingScores(c, rows, v, m, r)
    requires forall v, m :: (v, m) in b.baselines <==> HasBaseline(c, rows, v, m)
    requires forall v, h :: (v, h) in b.used <==> HasTerminal(c, rows, v, h)
    requires forall v, m :: (v in b.panels && m in b.panels[v]) <==> Covered(c, rows, v, m)
    ensures Counted(c, rows, b)
  {
  }

  lemma NewTerminalRest(c: Round, rows: seq<Row>, b: Ballot, x: Row, r: Result)
    requires Counted(c, rows, b) && Latest(rows, x) && Reports(c, x, x.hotkey, r) && !Bound(r)
    requires (x.hotkey, c.candidates[r.modelId].hotkey) !in b.used
    ensures var t, more := Step(c, b, x), rows + [x];
      && (forall v, m, s :: Scored(t, v, m, s) <==> KingScores(c, more, v, m, s))
      && (forall v, m :: (v, m) in t.baselines <==> HasBaseline(c, more, v, m))
      && (forall v, h :: (v, h) in t.used <==> HasTerminal(c, more, v, h))
  {
    var t := Step(c, b, x);
    TerminalStep(c, b, x, r);
    OnlyTerminal(c, x, r);
    ScoredInBaselines(t, b);
    hide Step, Terminal, Estimate, Baseline, Latest, HasTerminal, HasBaseline, KingScores, Votes, Covered, Filed,
      Scored,
      Speaks, Passing, Bound;
    SameBaselines(c, rows, b, x);
    forall v, h
      ensures (v, h) in t.used <==> HasTerminal(c, rows + [x], v, h)
    {
      UsedAfterTerminal(c, rows, x, r, v, h);
    }
  }

  lemma UsedAfterTerminal(c: Round, rows: seq<Row>, x: Row, r: Result, v: Hotkey, h: Hotkey)
    requires Reports(c, x, x.hotkey, r) && !Bound(r)
    ensures HasTerminal(c, rows + [x], v, h) <==>
      HasTerminal(c, rows, v, h) || (v == x.hotkey && h == c.candidates[r.modelId].hotkey)
  {
    OnlyTerminal(c, x, r);
    hide Terminal, HasTerminal, Reports, Bound;
    TerminalMore(c, rows, x, v, h);
    assert Terminal(c, x, x.hotkey, c.candidates[r.modelId].hotkey, r);
  }

  lemma FiledAfterTerminal(c: Round, rows: seq<Row>, b: Ballot, x: Row, r: Result, v: Hotkey, m: ModelId, s: Result)
    requires Counted(c, rows, b) && Latest(rows, x) && Reports(c, x, x.hotkey, r) && !Bound(r)
    requires (x.hotkey, c.candidates[r.modelId].hotkey) !in b.used
    ensures Filed(Step(c, b, x), v, m, s) <==> Votes(c, rows + [x], v, m, s)
  {
    TerminalStep(c, b, x, r);
    hide Step, Terminal, Estimate, Baseline, Latest, HasTerminal, HasBaseline, KingScores, Votes, Covered, Scored,
      Speaks, Passing, Bound;
    VotesAfterTerminal(c, rows, x, r, v, m, s);
  }

  lemma PanelsAfterTerminal(c: Round, rows: seq<Row>, b: Ballot, x: Row, r: Result, v: Hotkey, m: ModelId)
    requires Counted(c, rows, b) && Latest(rows, x) && Reports(c, x, x.hotkey, r) && !Bound(r)
    requires (x.hotkey, c.candidates[r.modelId].hotkey) !in b.used
    ensures var t := Step(c, b, x); (v in t.panels && m in t.panels[v]) <==> Covered(c, rows + [x], v, m)
  {
    TerminalStep(c, b, x, r);
    hide Step, Terminal, Estimate, Baseline, Latest, HasTerminal, HasBaseline, KingScores, Votes, Covered, Scored,
      Filed,
      Speaks, Passing, Bound;
    CoveredAfterTerminal(c, rows, x, r, v, m);
  }

  lemma ScoredInBaselines(t: Ballot, b: Ballot)
    requires t.baselines == b.baselines
    ensures forall v, m, s :: Scored(t, v, m, s) == Scored(b, v, m, s)
  {
  }

  lemma CoveredAfterTerminal(c: Round, rows: seq<Row>, x: Row, r: Result, v: Hotkey, m: ModelId)
    requires Latest(rows, x) && Reports(c, x, x.hotkey, r) && !Bound(r)
    requires !HasTerminal(c, rows, x.hotkey, c.candidates[r.modelId].hotkey)
    ensures Covered(c, rows + [x], v, m) <==>
      Covered(c, rows, v, m) || (v == x.hotkey && m == r.modelId && Passing(r))
  {
    OnlyTerminal(c, x, r);
    if m in c.candidates {
      CoveredMore(c, rows, x, v, m);
    }
    hide Latest, HasTerminal, Terminal, FinalVote, Passing;
  }

  lemma OnlyEstimate(c: Round, x: Row, r: Result)
    requires Reports(c, x, x.hotkey, r) && Bound(r)
    ensures forall v, m, s :: Estimate(c, x, v, m, s) <==>
              v == x.hotkey && s == r && m == r.modelId && Passing(r) && c.king.Some?
    ensures (forall v, h, s :: !Terminal(c, x, v, h, s)) && (forall v, m, s :: !Baseline(c, x, v, m, s))
  {
    hide Parse;
  }

  /** The first bound is the vote until something terminal comes. */
  lemma VotesAfterEstimate(c: Round, rows: seq<Row>, x: Row, r: Result, v: Hotkey, m: ModelId, s: Result)
    requires Latest(rows, x) && Reports(c, x, x.hotkey, r) && Bound(r)
    ensures Votes(c, rows + [x], v, m, s) <==>
      if v == x.hotkey && m == r.modelId && !HasTerminal(c, rows, v, c.candidates[m].hotkey) && Passing(r)
         && c.king.Some? && (forall q :: !Votes(c, rows, v, m, q)) then s == r else Votes(c, rows, v, m, s)
  {
    hide Latest, HasTerminal, Terminal, Estimate, FinalVote, FirstEstimate, HasEstimate, Passing, Bound, Speaks;
    if m in c.candidates {
      OnlyEstimateOf(c, rows, x, r, v, m, s);
      if HasTerminal(c, rows, v, c.candidates[m].hotkey) {
      } else {
        SomeEstimateVotes(c, rows, v, m);
        assert (exists row :: FirstEstimate(c, rows, row, v, m, s)) <==> Votes(c, rows, v, m, s);
        assert (exists row :: FirstEstimate(c, rows + [x], row, v, m, s)) <==> Votes(c, rows + [x], v, m, s);
      }
    }
  }

  lemma OnlyEstimateOf(c: Round, rows: seq<Row>, x: Row, r: Result, v: Hotkey, m: ModelId, s: Result)
    requires Latest(rows, x) && Reports(c, x, x.hotkey, r) && Bound(r) && m in c.candidates
    ensures forall q :: FinalVote(c, rows + [x], v, m, q) == FinalVote(c, rows, v, m, q)
    ensures forall q :: FinalVote(c, rows, v, m, q) ==> HasTerminal(c, rows, v, c.candidates[m].hotkey)
    ensures (exists row :: FirstEstimate(c, rows + [x], row, v, m, s)) <==>
      (exists row :: FirstEstimate(c, rows, row, v, m, s))
      || (v == x.hotkey && s == r && m == r.modelId && Passing(r) && c.king.Some? && !HasEstimate(c, rows, v, m)
          && !HasTerminal(c, rows, v, c.candidates[m].hotkey))
  {
    OnlyEstimate(c, x, r);
    hide Latest, HasTerminal, Terminal, Estimate, FinalVote, FirstEstimate, HasEstimate, Passing, Bound, Reports;
    EstimateMore(c, rows, x, v, m, s);
    forall q
      ensures FinalVote(c, rows + [x], v, m, q) == FinalVote(c, rows, v, m, q)
      ensures FinalVote(c, rows, v, m, q) ==> HasTerminal(c, rows, v, c.candidates[m].hotkey)
    {
      FinalMore(c, rows, x, v, m, q);
      FinalIsTerminal(c, rows, v, m, q);
    }
  }

  lemma SomeEstimateVotes(c: Round, rows: seq<Row>, v: Hotkey, m: ModelId)
    requires m in c.candidates && !HasTerminal(c, rows, v, c.candidates[m].hotkey)
    ensures HasEstimate(c, rows, v, m) <==> exists r :: Votes(c, rows, v, m, r)
  {
    forall q ensures !FinalVote(c, rows, v, m, q) {
      FinalIsTerminal(c, rows, v, m, q);
    }
    hide FinalVote, Terminal, Estimate, Earlier;
    if HasEstimate(c, rows, v, m) {
      var row, r := EarliestEstimate(c, rows, v, m);
      assert FirstEstimate(c, rows, row, v, m, r);
      assert Votes(c, rows, v, m, r);
    }
    if r :| Votes(c, rows, v, m, r) {
      var row :| FirstEstimate(c, rows, row, v, m, r);
    }
  }

  lemma EstimateCounted(c: Round, rows: seq<Row>, b: Ballot, x: Row, r: Result)
    requires Counted(c, rows, b) && Latest(rows, x) && Reports(c, x, x.hotkey, r) && Bound(r)
    ensures Counted(c, rows + [x], Step(c, b, x))
  {
    var t := Step(c, b, x);
    EstimateStep(c, b, x, r);
    OnlyEstimate(c, x, r);
    ScoredInBaselines(t, b);
    hide Step, Speaks, Terminal, Estimate, Baseline, Latest, HasTerminal, HasBaseline, KingScores, Votes, Covered,
      Reports, Bound, Passing, Filed, Scored;
    SameBaselines(c, rows, b, x);
    forall v, m, s
      ensures Filed(t, v, m, s) <==> Votes(c, rows + [x], v, m, s)
    {
      VotesAfterEstimate(c, rows, x, r, v, m, s);
    }
    forall v, k
      ensures (v, k) in t.used <==> HasTerminal(c, rows + [x], v, k)
    {
      TerminalMore(c, rows, x, v, k);
    }
    forall v, m
      ensures (v in t.panels && m in t.panels[v]) <==> Covered(c, rows + [x], v, m)
    {
      SameCovered(c, rows, x, v, m);
    }
  }

  lemma StepCounted(c: Round, rows: seq<Row>, b: Ballot, x: Row)
    requires Counted(c, rows, b) && Latest(rows, x)
    ensures Counted(c, rows + [x], Step(c, b, x))
  {
    hide Counted, Latest, Step;
    if r :| Speaks(c, x, r) && KingScore(r) {
      BaselineCounted(c, rows, b, x, r);
    } else if r :| Reports(c, x, x.hotkey, r) && Bound(r) {
      EstimateCounted(c, rows, b, x, r);
    } else if r :| Reports(c, x, x.hotkey, r) {
      TerminalCounted(c, rows, b, x, r);
    } else {
      SilentCounted(c, rows, b, x);
      SilentStep(c, b, x);
    }
  }

  lemma SortedLatest(rows: seq<Row>, n: nat)
    requires Sorted(rows) && n < |rows|
    ensures Latest(rows[..n], rows[n])
  {
    forall y | y in rows[..n] && y.hotkey == rows[n].hotkey
      ensures !Earlier(rows[n], y)
    {
      var i :| 0 <= i < n && rows[i] == y;
      assert RowLeq(rows[i], rows[n]);
      Ordering.LessIrreflexive(y.hotkey);
      if Ordering.Less(y.value, rows[n].value) {
        Ordering.LessAsymmetric(y.value, rows[n].value);
      } else {
        Ordering.LessIrreflexive(y.value);
      }
    }
  }

  lemma {:induction false} FoldCounted(c: Round, rows: seq<Row>)
    requires Sorted(rows)
    ensures Counted(c, rows, Fold(c, rows))
    decreases |rows|
  {
    if rows == [] {
      NobodyYet(c);
    } else {
      var n := |rows| - 1;
      FoldCounted(c, rows[..n]);
      SortedLatest(rows, n);
      hide Counted, Latest, Step;
      StepCounted(c, rows[..n], Fold(c, rows[..n]), rows[n]);
      assert rows == rows[..n] + [rows[n]];
    }
  }

  lemma NobodyYet(c: Round)
    ensures Counted(c, [], NO_VOTES)
  {
  }

  /**
   Whose results count, said of the finalized rows as a set: each evaluator votes on a submission by its
   first terminal report on that hotkey, if the controls passed, and later ones change nothing; before
   that, against a king, by its first bound. Its king scores are its first baseline of that model.
   */
  lemma FirstResultsCount(c: Round, rows: seq<Row>)
    ensures Counted(c, rows, Fold(c, Sort(rows)))
  {
    Consensus.SortSorts(rows);
    FoldCounted(c, Sort(rows));
    SameSetCounted(c, Sort(rows), rows, Fold(c, Sort(rows)));
  }

  lemma SameSetCounted(c: Round, rows: seq<Row>, other: seq<Row>, b: Ballot)
    requires Counted(c, rows, b) && forall y :: y in rows <==> y in other
    ensures Counted(c, other, b)
  {
    hide Terminal, Estimate, Baseline, Earlier, Passing, Votes, KingScores, Covered, HasBaseline, HasTerminal, Filed,
      Scored;
    forall v, m, r
      ensures Votes(c, rows, v, m, r) == Votes(c, other, v, m, r)
      ensures KingScores(c, rows, v, m, r) == KingScores(c, other, v, m, r)
    {
      SameSetVotes(c, rows, other, v, m, r);
    }
    forall v, m
      ensures HasBaseline(c, rows, v, m) == HasBaseline(c, other, v, m)
    {
      SameSetPresent(c, rows, other, v, m);
    }
    forall v, m
      ensures HasTerminal(c, rows, v, m) == HasTerminal(c, other, v, m)
    {
      SameSetPresent(c, rows, other, v, m);
    }
    forall v, m
      ensures Covered(c, rows, v, m) == Covered(c, other, v, m)
    {
      SameSetCovered(c, rows, other, v, m);
    }
  }

  lemma SameSetPresent(c: Round, rows: seq<Row>, other: seq<Row>, v: Hotkey, m: string)
    requires forall y :: y in rows <==> y in other
    ensures HasBaseline(c, rows, v, m) == HasBaseline(c, other, v, m)
    ensures HasTerminal(c, rows, v, m) == HasTerminal(c, other, v, m)
  {
    hide Terminal, Baseline;
  }

  lemma SameSetFinal(c: Round, rows: seq<Row>, other: seq<Row>, v: Hotkey, m: ModelId, r: Result)
    requires m in c.candidates && forall y :: y in rows <==> y in other
    ensures FinalVote(c, rows, v, m, r) == FinalVote(c, other, v, m, r)
  {
    hide Terminal, Earlier, Passing;
    var h := c.candidates[m].hotkey;
    forall row
      ensures FirstTerminal(c, rows, row, v, h, r) == FirstTerminal(c, other, row, v, h, r)
    {
    }
    hide FirstTerminal;
  }

  lemma SameSetCovered(c: Round, rows: seq<Row>, other: seq<Row>, v: Hotkey, m: ModelId)
    requires forall y :: y in rows <==> y in other
    ensures Covered(c, rows, v, m) == Covered(c, other, v, m)
  {
    hide FinalVote;
    if m in c.candidates {
      forall r
        ensures FinalVote(c, rows, v, m, r) == FinalVote(c, other, v, m, r)
      {
        SameSetFinal(c, rows, other, v, m, r);
      }
    }
  }

  lemma SameSetVotes(c: Round, rows: seq<Row>, other: seq<Row>, v: Hotkey, m: ModelId, r: Result)
    requires forall y :: y in rows <==> y in other
    ensures Votes(c, rows, v, m, r) == Votes(c, other, v, m, r)
    ensures KingScores(c, rows, v, m, r) == KingScores(c, other, v, m, r)
  {
    hide Terminal, Estimate, Baseline, Earlier, FinalVote;
    forall row
      ensures FirstBaseline(c, rows, row, v, m, r) == FirstBaseline(c, other, row, v, m, r)
    {
    }
    if m in c.candidates {
      forall q
        ensures FinalVote(c, rows, v, m, q) == FinalVote(c, other, v, m, q)
      {
        SameSetFinal(c, rows, other, v, m, q);
      }
      forall row
        ensures FirstEstimate(c, rows, row, v, m, r) == FirstEstimate(c, other, row, v, m, r)
      {
      }
    }
    hide FirstBaseline, FirstEstimate;
  }
}
