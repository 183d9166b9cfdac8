/** What whole histories of the ledger guarantee to miners: retirement, rotation, and safe early stopping. */
module LedgerRuns {
  import opened Common
  import opened Wire
  import opened Decide
  import opened LedgerSpec
  import opened LedgerPanel
  import opened LedgerHistory
  import opened Rotation
  import Consensus

  // ---------------------------------------------------------------- one delivery at a time

  /** The tables a new window is opened on: the old one closed, the admission generation settled. */
  function Turned(cfg: Config, t: Tables, f: Frame, window: nat): Tables
  {
    ResetOf(cfg, if t.active == None then t else CloseOf(t, t.active.value, f), f, window)
  }

  /** The delivered block opens a window. */
  ghost predicate Opens(cfg: Config, t: Tables, i: Input)
  {
    Next(cfg, t, i.frame, i.rows).Ok? && (t.active == None || t.active.value.id != WindowOf(cfg, i.frame))
  }

  /** What an opening block leaves: its window, frozen on the turned tables. */
  lemma OpenedWindow(cfg: Config, t: Tables, i: Input)
    requires Settled(t) && Opens(cfg, t, i)
    ensures var f, window, r := i.frame, WindowOf(cfg, i.frame), Deliver(cfg, t, i);
      var u := Turned(cfg, t, f, window);
      var v := OpenOf(cfg, u, f, window);
      && v.Ok? && Unique(u.submissions) && r.active == Some(OpeningOf(cfg, u, f, window))
      && r.after == v.value.after && r.retired == u.retired && r.reset == u.reset && r.windows == v.value.windows
      && window !in u.windows
  {
    hide Rotate, AdmitAll, Consume, Sort, Sound, OpeningOf, CloseOf;
    var f, window := i.frame, WindowOf(cfg, i.frame);
    var u := Rotate(cfg, t, f, window).value;
    RotateSound(cfg, t, f, window);
    SoundUnique(u, f.block);
    AdmitAllKeyed(cfg, u, u.active.value, f, window, Sort(i.rows));
    SoundUnique(t, t.cursor);
    RotatedTo(cfg, t, f, window);
  }

  lemma RotatedTo(cfg: Config, t: Tables, f: Frame, window: nat)
    requires Unique(t.submissions) && (t.active == None || t.active.value.id != window) && Rotate(cfg, t, f, window).Ok?
    ensures Rotate(cfg, t, f, window) == OpenOf(cfg, Turned(cfg, t, f, window), f, window)
    ensures Unique(Turned(cfg, t, f, window).submissions)
  {
    hide OpenOf, DecisionAt, ConsumeLosses, Evaluated, LossListed, Unique;
    EmptyUnique();
  }

  /** Any other block leaves panel, rotation and retirement alone. */
  lemma SameWindow(cfg: Config, t: Tables, i: Input)
    requires Settled(t) && !Opens(cfg, t, i)
    ensures var r := Deliver(cfg, t, i);
      r.active == t.active && r.after == t.after && r.retired == t.retired && r.reset == t.reset
        && r.windows == t.windows
  {
    hide AdmitAll, Consume, Sort, Sound, CloseOf, OpenOf;
    if Next(cfg, t, i.frame, i.rows).Ok? {
      SoundUnique(t, t.cursor);
      AdmitAllKeyed(cfg, t, t.active.value, i.frame, WindowOf(cfg, i.frame), Sort(i.rows));
    }
  }

  /** The windows of the closing step are those of before, with one more decision. */
  lemma TurnedWindows(cfg: Config, t: Tables, f: Frame, window: nat)
    ensures Turned(cfg, t, f, window).windows.Keys == t.windows.Keys
    ensures Turned(cfg, t, f, window).reset == t.reset ==> t.retired <= Turned(cfg, t, f, window).retired
    ensures Turned(cfg, t, f, window).reset == t.reset ==> Turned(cfg, t, f, window).after == t.after
  {
    hide DecisionAt, ConsumeLosses, Evaluated, LossListed;
  }

  // ---------------------------------------------------------------- retirement

  /** `h` is retired in `t` and on no panel opened since `s`. */
  ghost predicate SitsOut(s: Tables, t: Tables, h: Hotkey)
  {
    h in t.retired && forall w :: w in t.windows && w !in s.windows ==> h !in PanelKeys(t.windows[w].opening)
  }

  lemma SitsOutStep(cfg: Config, s: Tables, t: Tables, i: Input, h: Hotkey)
    requires Settled(t) && SitsOut(s, t, h) && Deliver(cfg, t, i).reset == t.reset
    ensures SitsOut(s, Deliver(cfg, t, i), h)
  {
    hide Settled, Deliver, PanelKeys, Opens;
    DeliverAccumulates(cfg, t, i);
    RetiredStep(cfg, t, i, h);
    if Opens(cfg, t, i) {
      OneNewWindow(cfg, t, i);
    } else {
      SameWindow(cfg, t, i);
    }
  }

  /** An opening block adds exactly the window it makes active. */
  lemma OneNewWindow(cfg: Config, t: Tables, i: Input)
    requires Settled(t) && Opens(cfg, t, i)
    ensures var r := Deliver(cfg, t, i);
      && r.active.Some? && r.active != t.active && r.active.value.id in r.windows
      && r.windows[r.active.value.id].opening == r.active.value
      && forall w :: w in r.windows ==> w in t.windows || w == r.active.value.id
  {
    OpenedWindow(cfg, t, i);
    TurnedWindows(cfg, t, i.frame, WindowOf(cfg, i.frame));
    hide Settled, Deliver, Next, Turned, PanelList, Reigning;
  }

  /** A retired hotkey stays retired, and off every panel opened later, over every continuation without the reset. */
  lemma {:induction false} RetiredSitsOut(cfg: Config, a: seq<Input>, b: seq<Input>, h: Hotkey)
    requires h in Replay(cfg, a).retired && Replay(cfg, a + b).reset == Replay(cfg, a).reset
    ensures SitsOut(Replay(cfg, a), Replay(cfg, a + b), h)
    decreases |b|
  {
    if b == [] {
      assert a + b == a;
    } else {
      var n := |b| - 1;
      assert (a + b)[..|a + b| - 1] == a + b[..n];
      ReplayKept(cfg, a, b[..n]);
      ReplaySettled(cfg, a + b[..n]);
      DeliverKept(cfg, Replay(cfg, a + b[..n]), b[n]);
      assert Replay(cfg, a + b) == Deliver(cfg, Replay(cfg, a + b[..n]), b[n]);
      hide Replay, Settled, Deliver, SitsOut;
      RetiredSitsOut(cfg, a, b[..n], h);
      SitsOutStep(cfg, Replay(cfg, a), Replay(cfg, a + b[..n]), b[n], h);
    }
  }

  /** A first window that some validator evaluated and that crowned nobody retires its pair at the close. */
  lemma EvaluatedPairRetires(cfg: Config, inputs: seq<Input>, i: Input)
    requires var t := Replay(cfg, inputs);
      && t.active.Some? && Opens(cfg, t, i) && Deliver(cfg, t, i).reset == t.reset
      && t.active.value.king == None && DecisionAt(t, t.active.value, i.frame).winner == None
      && Evaluated(t.uses, t.active.value, i.frame)
    ensures PanelKeys(Replay(cfg, inputs).active.value) <= Deliver(cfg, Replay(cfg, inputs), i).retired
  {
    var t := Replay(cfg, inputs);
    var o := t.active.value;
    ReplaySettled(cfg, inputs);
    OpenedWindow(cfg, t, i);
    hide Replay, Settled, Deliver, Next, Opens, OpeningOf, DecisionAt, ConsumeLosses, LossListed;
    EarlyLossesListed(t, o, i.frame);
    LossesExtend(t.uses, o, DecisionAt(t, o, i.frame).earlyLosses);
    StillEvaluated(t.uses, CloseOf(t, o, i.frame).uses, o, i.frame);
    hide Evaluated;
  }

  lemma StillEvaluated(uses: Uses, more: Uses, o: Opening, f: Frame)
    requires Evaluated(uses, o, f) && Extends(uses, more)
    ensures Evaluated(more, o, f)
  {
  }

  // ---------------------------------------------------------------- rotation of first pairs

  ghost function Continue(cfg: Config, t: Tables, b: seq<Input>): Tables
    decreases |b|
  {
    if b == [] then t else Continue(cfg, Deliver(cfg, t, b[0]), b[1..])
  }

  lemma {:induction false} ReplayContinues(cfg: Config, a: seq<Input>, b: seq<Input>)
    ensures Replay(cfg, a + b) == Continue(cfg, Replay(cfg, a), b)
    decreases |b|
  {
    if b == [] {
      assert a + b == a;
    } else {
      assert (a + [b[0]])[..|a + [b[0]]| - 1] == a;
      ReplayContinues(cfg, a + [b[0]], b[1..]);
      assert a + [b[0]] + b[1..] == a + b;
      hide Deliver;
    }
  }

  /** The candidates of the window that a block opens without a king, in rotation order. */
  ghost function OrderAt(cfg: Config, t: Tables, i: Input): seq<Submission>
    requires Opens(cfg, t, i)
  {
    BootstrapOrder(CandidateList(Turned(cfg, t, i.frame, WindowOf(cfg, i.frame)), i.frame))
  }

  /** The block opens a first window with a pair. */
  ghost predicate OpensPair(cfg: Config, t: Tables, i: Input)
  {
    && Opens(cfg, t, i) && |OrderAt(cfg, t, i)| >= 2
    && Reigning(Turned(cfg, t, i.frame, WindowOf(cfg, i.frame)).king, i.frame) == None
  }

  /**
   Without a reset and without a king, `h` stays a candidate of every window that opens, and nobody
   new gets in before it. Other candidates arrive, retire and lose their registration at any time;
   `order` is the order of the last opening.
   */
  ghost predicate KeepsItsPlace(cfg: Config, t: Tables, b: seq<Input>, order: seq<Submission>, h: Hotkey)
    decreases |b|
  {
    b != [] ==>
      var next := if Opens(cfg, t, b[0]) then OrderAt(cfg, t, b[0]) else order;
      && Deliver(cfg, t, b[0]).reset == t.reset
      && (Opens(cfg, t, b[0]) ==>
            OpensPair(cfg, t, b[0]) && h in Names(next) && NobodyCutsIn(order, next, t.after, h))
      && KeepsItsPlace(cfg, Deliver(cfg, t, b[0]), b[1..], next, h)
  }

  /** How many windows the run opens. */
  ghost function OpeningsIn(cfg: Config, t: Tables, b: seq<Input>): nat
    decreases |b|
  {
    if b == [] then 0
    else (if Opens(cfg, t, b[0]) then 1 else 0) + OpeningsIn(cfg, Deliver(cfg, t, b[0]), b[1..])
  }

  /** At how many of them the candidate served last has left, so that the rotation begins again. */
  ghost function RestartsIn(cfg: Config, t: Tables, b: seq<Input>, order: seq<Submission>): nat
    decreases |b|
  {
    if b == [] then 0
    else
      var next := if Opens(cfg, t, b[0]) then OrderAt(cfg, t, b[0]) else order;
      (if Opens(cfg, t, b[0]) && Restarts(order, next, t.after) then 1 else 0)
      + RestartsIn(cfg, Deliver(cfg, t, b[0]), b[1..], next)
  }

  /** One opening of the rotation: the next pair is the panel, and the turn moves past it. */
  lemma PairOpened(cfg: Config, t: Tables, i: Input)
    requires Settled(t) && OpensPair(cfg, t, i) && Deliver(cfg, t, i).reset == t.reset
    ensures var r, order := Deliver(cfg, t, i), OrderAt(cfg, t, i);
      && Unique(order) && r.after == LastOfPair(order, t.after) && r.active.Some?
      && Names(NextPair(order, t.after)) <= PanelKeys(r.active.value)
  {
    var f, window := i.frame, WindowOf(cfg, i.frame);
    var u := Turned(cfg, t, f, window);
    OpenedWindow(cfg, t, i);
    TurnedWindows(cfg, t, f, window);
    hide Settled, Deliver, Next, Turned, BootstrapOrder, CandidateList, NextPair, LastOfPair, Unique, OpenOf, OpeningOf,
      PanelKeys, Names, Reigning;
    OrderUnique(u, f);
    PairTurn(cfg, u, f, window);
  }

  lemma PairTurn(cfg: Config, t: Tables, f: Frame, window: nat)
    requires Unique(t.submissions) && Reigning(t.king, f) == None && OpenOf(cfg, t, f, window).Ok?
    requires |BootstrapOrder(CandidateList(t, f))| >= 2
    ensures var order := BootstrapOrder(CandidateList(t, f));
      && OpenOf(cfg, t, f, window).value.after == LastOfPair(order, t.after)
      && Names(NextPair(order, t.after)) <= PanelKeys(OpeningOf(cfg, t, f, window))
  {
    hide BootstrapOrder, CandidateList, NextPair, Unique, AsPanel, PanelList, PanelKeys, Names, Reigning;
    PairAt(BootstrapOrder(CandidateList(t, f)), t.after);
    PairSeated(t, f, OpeningOf(cfg, t, f, window));
  }

  lemma PairSeated(t: Tables, f: Frame, o: Opening)
    requires Unique(t.submissions) && Reigning(t.king, f) == None && o.candidates == AsPanel(PanelList(t, f))
    ensures PanelList(t, f) == NextPair(BootstrapOrder(CandidateList(t, f)), t.after)
    ensures Names(PanelList(t, f)) <= PanelKeys(o)
  {
    PanelSelected(t, f);
    KinglessPanel(t, f);
    hide BootstrapOrder, CandidateList, NextPair, Selected, PanelList, AsPanel, PanelKeys, Unique;
    SeatedKeys(t, f, CandidateList(t, f), PanelList(t, f), o);
  }

  lemma KinglessPanel(t: Tables, f: Frame)
    requires Reigning(t.king, f) == None
    ensures PanelList(t, f) == NextPair(BootstrapOrder(CandidateList(t, f)), t.after)
  {
  }

  lemma OrderUnique(t: Tables, f: Frame)
    requires Unique(t.submissions)
    ensures Unique(BootstrapOrder(CandidateList(t, f)))
  {
    var sorted := SortSubmissions(t.submissions);
    SortKeepsRows(t.submissions);
    ReorderedUnique(t.submissions, sorted);
    ListedRows(sorted, f, t.retired);
    OrderKeepsRows(CandidateList(t, f));
  }

  lemma SeatedKeys(t: Tables, f: Frame, list: seq<Submission>, panel: seq<Submission>, o: Opening)
    requires Selected(t, f, list, panel) && o.candidates == AsPanel(panel)
    ensures forall x :: x in panel ==> x.candidate.hotkey in PanelKeys(o)
  {
    PanelEntries(panel);
    hide AsPanel, Selected;
    forall x | x in panel
      ensures x.candidate.hotkey in PanelKeys(o)
    {
      assert o.candidates[x.candidate.modelId] == x.candidate;
    }
  }

  /** Restarts cost a candidate at most those that stand before it. */
  lemma Patience(order: seq<Submission>, next: seq<Submission>, after: Option<Hotkey>, h: Hotkey, r: nat)
    requires NobodyCutsIn(order, next, after, h)
    ensures var more := if Restarts(order, next, after) then 1 else 0;
      |Ahead(next, after, h)| + |Preceding(next, h)| * r <= |Ahead(order, after, h)| + |Preceding(order,
        h)| * (r + more)
  {
    hide Preceding, ResumeAt;
    FewerNames(Preceding(next, h), Preceding(order, h));
    Product(|Preceding(next, h)|, |Preceding(order, h)|, r);
    if Restarts(order, next, after) {
      assert Rotated(next, after) == next;
    } else {
      FewerNames(Ahead(next, after, h), Ahead(order, after, h));
    }
  }

  lemma Product(a: nat, b: nat, r: nat)
    requires a <= b
    ensures a * r <= b * r && a + a * r <= b * (r + 1)
  {
  }

  lemma {:induction false} FewerNames(a: set<Hotkey>, b: set<Hotkey>)
    requires a <= b
    ensures |a| <= |b|
    decreases |a|
  {
    if a != {} {
      var x :| x in a;
      FewerNames(a - {x}, b - {x});
    }
  }

  /**
   No submission holds up the first coronation: over every history of first windows, while nobody
   new gets in before it, a candidate is on the panel as soon as the openings, each of two, outnumber
   those ahead of it and, for every restart of the rotation, those that stand before it.
   */
  lemma {:induction false} EveryoneIsOnAPanel(cfg: Config, t: Tables, b: seq<Input>, order: seq<Submission>, h: Hotkey)
    returns (k: nat)
    requires Settled(t) && KeepsItsPlace(cfg, t, b, order, h)
    requires 2 * OpeningsIn(cfg, t, b) > |Ahead(order, t.after, h)| + |Preceding(order, h)| * RestartsIn(cfg, t, b,
      order)
    ensures k < |b| && Opens(cfg, Continue(cfg, t, b[..k]), b[k])
    ensures Continue(cfg, t, b[..k + 1]).active.Some?
    ensures h in PanelKeys(Continue(cfg, t, b[..k + 1]).active.value)
    decreases |b|
  {
    hide Settled, Deliver, Next, Opens, OrderAt, NobodyCutsIn, Restarts, NextPair, ResumeAt, Unique, Ahead, Preceding,
      PanelKeys, LastOfPair, Reigning, Names;
    var next := if Opens(cfg, t, b[0]) then OrderAt(cfg, t, b[0]) else order;
    var rest := RestartsIn(cfg, Deliver(cfg, t, b[0]), b[1..], next);
    if Opens(cfg, t, b[0]) {
      PairOpened(cfg, t, b[0]);
      Patience(order, next, t.after, h, rest);
    }
    if Opens(cfg, t, b[0]) && |Ahead(next, t.after, h)| < 2 {
      SeatedNow(next, t.after, h);
      k := 0;
      FirstDelivery(cfg, t, b);
    } else {
      if Opens(cfg, t, b[0]) {
        AheadShrinks(next, t.after, h);
      } else {
        SameWindow(cfg, t, b[0]);
      }
      DeliverSettled(cfg, t, b[0]);
      var j := EveryoneIsOnAPanel(cfg, Deliver(cfg, t, b[0]), b[1..], next, h);
      k := j + 1;
      LaterDelivery(cfg, t, b, j);
      LaterDelivery(cfg, t, b, j + 1);
    }
  }

  lemma FirstDelivery(cfg: Config, t: Tables, b: seq<Input>)
    requires b != []
    ensures Continue(cfg, t, b[..0]) == t && Continue(cfg, t, b[..1]) == Deliver(cfg, t, b[0])
  {
    hide Deliver;
    assert b[..1][1..] == [];
  }

  lemma LaterDelivery(cfg: Config, t: Tables, b: seq<Input>, j: nat)
    requires j < |b|
    ensures Continue(cfg, t, b[..j + 1]) == Continue(cfg, Deliver(cfg, t, b[0]), b[1..][..j])
  {
    hide Deliver;
    assert b[..j + 1][1..] == b[1..][..j];
  }

  /** The same from every reachable state. */
  lemma EveryoneGetsAPanel(cfg: Config, a: seq<Input>, b: seq<Input>, order: seq<Submission>, h: Hotkey)
    returns (k: nat)
    requires var t := Replay(cfg, a);
      && KeepsItsPlace(cfg, t, b, order, h)
      && 2 * OpeningsIn(cfg, t, b) > |Ahead(order, t.after, h)| + |Preceding(order, h)| * RestartsIn(cfg, t, b, order)
    ensures k < |b| && Replay(cfg, a + b[..k + 1]).active.Some? && Opens(cfg, Replay(cfg, a + b[..k]), b[k])
    ensures h in PanelKeys(Replay(cfg, a + b[..k + 1]).active.value)
  {
    ReplaySettled(cfg, a);
    hide Replay, Settled, Deliver, KeepsItsPlace, OpeningsIn, RestartsIn, Opens, Ahead, Preceding;
    k := EveryoneIsOnAPanel(cfg, Replay(cfg, a), b, order, h);
    ReplayContinues(cfg, a, b[..k]);
    ReplayContinues(cfg, a, b[..k + 1]);
  }

  // ---------------------------------------------------------------- early stopping

  lemma PanelHotkeys(t: Tables, o: Opening, f: Frame)
    requires InProgress(t, o, t.cursor)
    ensures Consensus.DistinctHotkeys(RoundOf(o, f))
  {
    assert WindowOk(t, t.cursor, o.id);
  }

  /**
   At every reachable close: whatever the unfinished evaluations would have measured within their
   published bounds, a crowned challenger stays crowned; and when nothing was inconclusive, the
   winner is the same in every case.
   */
  lemma EarlyStoppingIsSafeAtEveryClose(cfg: Config, inputs: seq<Input>, f: Frame, full: Ballot)
    requires var t := Replay(cfg, inputs);
      t.active.Some? && Consensus.Advanced(RoundOf(t.active.value, f), BallotAt(t, t.active.value, f), full)
    ensures var t := Replay(cfg, inputs);
      var c, b := RoundOf(t.active.value, f), BallotAt(t, t.active.value, f);
      && (Chosen(c, b).Some? || (forall m :: !Inconclusive(c, b, m)) ==>
            Chosen(c, full) == Chosen(c, b) && Winner(c, full) == Winner(c, b))
  {
    var t := Replay(cfg, inputs);
    ReplaySettled(cfg, inputs);
    SettledInProgress(t);
    PanelHotkeys(t, t.active.value, f);
    hide Replay, Settled, Chosen, Winner, Inconclusive, Fold, Sort, Consensus.Advanced, Consensus.DistinctHotkeys;
    Consensus.EarlyStoppingKeepsTheCrown(RoundOf(t.active.value, f), VotingHistory(t, t.active.value, f.block), full);
  }
}
