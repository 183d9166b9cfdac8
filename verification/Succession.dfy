/**
 How the crown passes from window to window: the king is always the winner that the last
 closed window recorded, and that winner is the one the stakes of the voters prefer.
 */
module Succession {
  import opened Common
  import opened Wire
  import opened Decide
  import opened LedgerSpec
  import opened LedgerPanel
  import opened LedgerHistory
  import opened LedgerRuns
  import Consensus
  import Majority
  import Verdict

  // ---------------------------------------------------------------- one closing block

  predicate Ended(t: Tables, w: nat) { w in t.windows && t.windows[w].closing.Some? }

  /** The block closes the open window. */
  ghost predicate Closes(cfg: Config, t: Tables, i: Input)
  {
    t.active.Some? && Deliver(cfg, t, i).active != t.active
  }

  /** The rows a close counts: king scores, unresolved bounds, and the very rows recorded as uses. */
  ghost predicate MayVote(t: Tables, o: Opening, x: Row)
  {
    Parse(x.value).Ok? &&
    var r := Parse(x.value).value;
    Verdict.KingScore(r) ||
    (r.modelId in o.candidates &&
     var key := (x.hotkey, o.candidates[r.modelId].hotkey);
     (Verdict.Bound(r) && (key !in t.uses || t.uses[key].window == o.id)) ||
     (key in t.uses && t.uses[key].window == o.id && t.uses[key].value == x.value))
  }

  /** Exactly the rows of the window's blocks that may vote. */
  ghost predicate VotingRows(t: Tables, o: Opening, end: nat, rows: seq<Row>)
  {
    forall x :: x in rows <==> x in t.commitments && o.startBlock <= x.block < end && MayVote(t, o, x)
  }

  lemma MayVoteMeans(t: Tables, o: Opening, x: Row)
    ensures MayVote(t, o, x) <==> Votes(t, o, x)
  {
    hide Parse;
  }

  lemma HistoryVotes(t: Tables, o: Opening, end: nat)
    ensures VotingRows(t, o, end, VotingHistory(t, o, end))
  {
    hide Votes, MayVote;
    Consensus.SortSorts(VotingHistory(t, o, end));
    forall x
      ensures x in VotingHistory(t, o, end) <==> x in t.commitments && o.startBlock <= x.block < end && MayVote(t, o, x)
    {
      VotingRow(t, o, end, x);
      MayVoteMeans(t, o, x);
    }
  }

  /** The round that the closing block settles, with the stakes and registrations of that block. */
  function Settling(o: Opening, f: Frame): Round
  {
    Round(o.id, o.policy, o.king, o.candidates, Snapshot(f.validators, f.uids))
  }

  /** The king who enters a window under his current uid, as long as he is registered. */
  ghost predicate Enthroned(king: Option<Candidate>, f: Frame, o: Opening)
  {
    o.king ==
    if king.Some? && king.value.hotkey in f.uids
    then Some(Candidate(king.value.hotkey, f.uids[king.value.hotkey], king.value.modelId, king.value.block))
    else None
  }

  /** What a close records: its own block, and a decision that leaves every other window alone. */
  ghost predicate Records(t: Tables, r: Tables, o: Opening, f: Frame, d: Decision)
  {
    && o.id in r.windows && r.windows[o.id] == Window(o, Some(Closing(d, f.block)))
    && forall w :: w in t.windows && w != o.id ==> w in r.windows && r.windows[w] == t.windows[w]
  }

  lemma ClosingTables(cfg: Config, t: Tables, f: Frame, window: nat)
    requires t.active.Some? && t.active.value.id in t.windows
    requires t.windows[t.active.value.id] == Window(t.active.value, None)
    ensures var u, o, d := Turned(cfg, t, f, window), t.active.value, DecisionAt(t, t.active.value, f);
      u.king == d.winner && u.windows == t.windows[o.id := Window(o, Some(Closing(d, f.block)))]
  {
    hide DecisionAt, ConsumeLosses, Evaluated, LossListed;
  }

  lemma OpeningTables(cfg: Config, t: Tables, f: Frame, window: nat)
    requires OpenOf(cfg, t, f, window).Ok?
    ensures var u, o := OpenOf(cfg, t, f, window).value, OpeningOf(cfg, t, f, window);
      && window !in t.windows && u.windows == t.windows[window := Window(o, None)] && u.active == Some(o)
      && u.king == t.king && o.id == window && o.startBlock == f.block && o.policy == cfg.policyFor(window)
      && Enthroned(t.king, f, o)
  {
    hide PanelList, AsPanel;
  }

  /** The block that opens a window, and closes the one before it. */
  lemma OpeningBlock(cfg: Config, t: Tables, i: Input)
    requires Settled(t) && Opens(cfg, t, i)
    ensures var f, window, r := i.frame, WindowOf(cfg, i.frame), Deliver(cfg, t, i);
      var u := Turned(cfg, t, f, window);
      && OpenOf(cfg, u, f, window).Ok? && r.windows == OpenOf(cfg, u, f, window).value.windows && r.king == u.king
      && r.active == Some(OpeningOf(cfg, u, f, window)) && r.cursor == f.block == t.cursor + 1
      && f.epoch >= cfg.activationEpoch && (t.active.Some? ==> t.active.value.id != window)
  {
    hide Rotate, AdmitAll, Consume, Sort, Sound, OpeningOf, CloseOf;
    var f, window := i.frame, WindowOf(cfg, i.frame);
    var u := Rotate(cfg, t, f, window).value;
    RotateSound(cfg, t, f, window);
    SoundUnique(u, f.block);
    AdmitAllKeyed(cfg, u, u.active.value, f, window, Sort(i.rows));
    SoundUnique(t, t.cursor);
    RotatedTo(cfg, t, f, window);
  }

  /** Any other block leaves the windows and the king as they are. */
  lemma QuietBlock(cfg: Config, t: Tables, i: Input)
    requires Settled(t) && !Opens(cfg, t, i)
    ensures var r := Deliver(cfg, t, i);
      r.windows == t.windows && r.king == t.king && r.active == t.active && t.cursor <= r.cursor
  {
    hide AdmitAll, Consume, Sort, Sound, CloseOf, OpenOf;
    if Next(cfg, t, i.frame, i.rows).Ok? {
      SoundUnique(t, t.cursor);
      AdmitAllKeyed(cfg, t, t.active.value, i.frame, WindowOf(cfg, i.frame), Sort(i.rows));
    }
  }

  lemma ClosingBlock(cfg: Config, t: Tables, i: Input)
    requires Settled(t)
    ensures var f := i.frame;
      f.epoch >= cfg.activationEpoch ==>
        var u := Turned(cfg, t, f, WindowOf(cfg, f));
        && (t.active == None ==> u.king == t.king && u.windows == t.windows)
        && (t.active.Some? ==>
              var o, d := t.active.value, DecisionAt(t, t.active.value, f);
              && o.id in t.windows && u.king == d.winner
              && u.windows == t.windows[o.id := Window(o, Some(Closing(d, f.block)))])
  {
    var f := i.frame;
    if f.epoch >= cfg.activationEpoch && t.active.Some? {
      SettledInProgress(t);
      ClosingTables(cfg, t, f, WindowOf(cfg, f));
    }
    hide DecisionAt, Sound, CloseOf;
  }

  /** Everything but the close: which window opens, and under whom. */
  ghost predicate OpensUnder(cfg: Config, king: Option<Candidate>, f: Frame, o: Opening)
  {
    && f.epoch >= cfg.activationEpoch && o.id == (f.epoch - cfg.activationEpoch) / 2
    && o.startBlock == f.block && o.policy == cfg.policyFor(o.id) && Enthroned(king, f, o)
  }

  /** The window just opened is new, and it is open. */
  ghost predicate NewlyOpen(t: Tables, r: Tables, o: Opening)
  {
    r.active == Some(o) && o.id !in t.windows && r.windows.Keys == t.windows.Keys + {o.id}
      && o.id in r.windows && r.windows[o.id] == Window(o, None)
  }

  lemma FirstTables(t: Tables, r: Tables, n: Opening)
    requires n.id !in t.windows && r.windows == t.windows[n.id := Window(n, None)] && r.active == Some(n)
    ensures NewlyOpen(t, r, n)
  {
  }

  lemma RecordedTables(t: Tables, r: Tables, o: Opening, f: Frame, d: Decision, n: Opening)
    requires o.id in t.windows && n.id !in t.windows && r.active == Some(n)
    requires r.windows == t.windows[o.id := Window(o, Some(Closing(d, f.block)))][n.id := Window(n, None)]
    ensures Records(t, r, o, f, d) && NewlyOpen(t, r, n)
  {
  }

  /** The winner recorded in the closing of the window just closed is king, and the next window opens under him. */
  lemma ClosePassesTheCrown(cfg: Config, t: Tables, i: Input)
    requires Settled(t) && Opens(cfg, t, i)
    ensures var f, r := i.frame, Deliver(cfg, t, i);
      && (t.active == None ==> r.king == t.king)
      && (t.active.Some? ==>
            var d := DecisionAt(t, t.active.value, f);
            Records(t, r, t.active.value, f, d) && r.king == d.winner)
      && r.active.Some? && NewlyOpen(t, r, r.active.value) && OpensUnder(cfg, r.king, f, r.active.value)
  {
    var f, window := i.frame, WindowOf(cfg, i.frame);
    var u := Turned(cfg, t, f, window);
    OpeningBlock(cfg, t, i);
    ClosingBlock(cfg, t, i);
    hide Deliver, Next, Opens, Settled, DecisionAt, OpeningOf, Enthroned, Turned, Records, NewlyOpen;
    OpeningTables(cfg, u, f, window);
    hide OpenOf;
    if t.active.Some? {
      RecordedTables(t, Deliver(cfg, t, i), t.active.value, f, DecisionAt(t, t.active.value, f),
                     OpeningOf(cfg, u, f, window));
    } else {
      FirstTables(t, Deliver(cfg, t, i), OpeningOf(cfg, u, f, window));
    }
  }

  // ---------------------------------------------------------------- every reachable state

  /** The window whose closing block is the latest of all. */
  ghost predicate LastEnded(t: Tables, w: nat)
  {
    Ended(t, w) && forall v :: Ended(t, v) && v != w ==>
      t.windows[v].closing.value.block < t.windows[w].closing.value.block
  }

  /** Nobody reigns before a window has closed; afterwards it is the winner of the last one. */
  ghost predicate Reigns(t: Tables)
  {
    && (forall w :: Ended(t, w) ==> t.windows[w].opening.startBlock < t.windows[w].closing.value.block <= t.cursor)
    && ((exists w :: Ended(t, w)) ==> exists w :: LastEnded(t, w))
    && (forall w :: LastEnded(t, w) ==> t.king == t.windows[w].closing.value.decision.winner)
    && ((forall w :: !Ended(t, w)) ==> t.king == None)
  }

  lemma NotEnded(t: Tables, o: Opening)
    requires Settled(t) && t.active == Some(o)
    ensures !Ended(t, o.id) && o.id in t.windows && o.startBlock <= t.cursor && t.windows[o.id] == Window(o, None)
  {
    SettledInProgress(t);
  }

  /** After a close the window just closed is the last one. */
  lemma EndReigns(t: Tables, r: Tables, o: Opening, f: Frame, d: Decision)
    requires Reigns(t) && t.active == Some(o) && !Ended(t, o.id) && o.startBlock <= t.cursor
    requires f.block == r.cursor == t.cursor + 1 && r.active.Some? && NewlyOpen(t, r, r.active.value)
    requires Records(t, r, o, f, d) && r.king == d.winner
    ensures Reigns(r)
  {
    forall w | Ended(r, w)
      ensures w == o.id || (Ended(t, w) && r.windows[w] == t.windows[w])
    {
    }
    hide NewlyOpen, Records;
    assert LastEnded(r, o.id);
    forall w | LastEnded(r, w)
      ensures w == o.id
    {
    }
  }

  lemma SameEnded(t: Tables, r: Tables)
    requires Reigns(t) && t.cursor <= r.cursor && r.king == t.king
    requires forall w :: Ended(r, w) <==> Ended(t, w)
    requires forall w :: Ended(t, w) ==> w in r.windows && r.windows[w] == t.windows[w]
    ensures Reigns(r)
  {
    assert forall w :: LastEnded(r, w) <==> LastEnded(t, w);
  }

  lemma DeliverReigns(cfg: Config, t: Tables, i: Input)
    requires Settled(t) && Reigns(t)
    ensures Reigns(Deliver(cfg, t, i))
  {
    var r := Deliver(cfg, t, i);
    if Opens(cfg, t, i) {
      OpeningBlock(cfg, t, i);
      ClosePassesTheCrown(cfg, t, i);
      hide Deliver, Opens, Settled, Reigns, Records, Enthroned, OpenOf, OpeningOf, Turned, DecisionAt;
      if t.active.Some? {
        NotEnded(t, t.active.value);
        EndReigns(t, r, t.active.value, i.frame, DecisionAt(t, t.active.value, i.frame));
      } else {
        OpenedFirst(cfg, t, i);
        SameEnded(t, r);
      }
    } else {
      QuietBlock(cfg, t, i);
      hide Deliver, Opens, Settled, Reigns;
      SameEnded(t, r);
    }
  }

  lemma OpenedFirst(cfg: Config, t: Tables, i: Input)
    requires Settled(t) && Opens(cfg, t, i) && t.active == None
    ensures var r := Deliver(cfg, t, i);
      && (forall w :: Ended(r, w) <==> Ended(t, w))
        && (forall w :: Ended(t, w) ==> w in r.windows && r.windows[w] == t.windows[w])
  {
    OpeningBlock(cfg, t, i);
    hide Deliver, Opens, Settled, OpeningOf;
  }

  /**
   In every reachable state the king is the winner recorded in the latest closing, and nobody
   before the first one.
   */
  lemma {:induction false} KingIsTheLastWinner(cfg: Config, inputs: seq<Input>)
    ensures Reigns(Replay(cfg, inputs))
    decreases |inputs|
  {
    if inputs != [] {
      var n := |inputs| - 1;
      KingIsTheLastWinner(cfg, inputs[..n]);
      ReplaySettled(cfg, inputs[..n]);
      hide Reigns, Settled, Deliver;
      DeliverReigns(cfg, Replay(cfg, inputs[..n]), inputs[n]);
    }
  }

  // ---------------------------------------------------------------- by what right

  /** The decision is the verdict of the ballot on the settling round. */
  ghost predicate Settles(c: Round, b: Ballot, d: Decision)
    requires WellFormed(b)
  {
    && (forall m :: Majority.Crowned(c, b, m) ==> m in c.candidates && d.winner == Some(c.candidates[m]))
    && ((forall m :: !Majority.Crowned(c, b, m)) ==>
          d.winner == if c.king.Some? && c.king.value.hotkey in c.snapshot.uids then c.king else None)
    && (forall m :: m in d.inconclusive <==> Majority.MayWin(c, b, m))
    && (forall l :: l in d.earlyLosses <==> exists m, v :: Majority.LostBound(c, b, m, v, l))
  }

  lemma DecisionAtSettles(t: Tables, o: Opening, f: Frame) returns (rows: seq<Row>, b: Ballot)
    requires InProgress(t, o, t.cursor)
    ensures VotingRows(t, o, f.block, rows) && WellFormed(b) && Verdict.Counted(Settling(o, f), rows, b)
    ensures Settles(Settling(o, f), b, DecisionAt(t, o, f))
  {
    var c := RoundOf(o, f);
    rows := VotingHistory(t, o, f.block);
    b := Fold(c, Sort(rows));
    PanelHotkeys(t, o, f);
    HistoryVotes(t, o, f.block);
    hide VotingRows, VotingHistory, Fold, Sort, InProgress, Consensus.DistinctHotkeys, DecisionOf, WellFormed,
      Verdict.Counted, Majority.Crowned, Majority.MayWin, Majority.LostBound;
    Majority.DecisionMeans(c, rows);
  }

  /**
   Whoever is king after a close was put there by the stakes of the closing block: the voters' first
   rows of that window's blocks, the sums of their scores, and nothing else decide it.
   */
  lemma CrownIsEarned(cfg: Config, inputs: seq<Input>, i: Input) returns (rows: seq<Row>, b: Ballot)
    requires Replay(cfg, inputs).active.Some? && Opens(cfg, Replay(cfg, inputs), i)
    ensures var t, r := Replay(cfg, inputs), Replay(cfg, inputs + [i]);
      var o, c := t.active.value, Settling(t.active.value, i.frame);
      && VotingRows(t, o, i.frame.block, rows) && WellFormed(b) && Verdict.Counted(c, rows, b)
      && Ended(r, o.id) && Settles(c, b, r.windows[o.id].closing.value.decision)
      && r.king == r.windows[o.id].closing.value.decision.winner
      && r.active.Some? && Enthroned(r.king, i.frame, r.active.value)
  {
    var t := Replay(cfg, inputs);
    assert (inputs + [i])[..|inputs + [i]| - 1] == inputs;
    ReplaySettled(cfg, inputs);
    SettledInProgress(t);
    ClosePassesTheCrown(cfg, t, i);
    hide Replay, Deliver, Opens, Settled, InProgress, DecisionAt, VotingRows, Settles, Settling, Verdict.Counted,
      WellFormed,
      Enthroned, NewlyOpen;
    rows, b := DecisionAtSettles(t, t.active.value, i.frame);
  }
}
