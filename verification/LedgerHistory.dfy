/**
 What holds over every replay: hotkeys are used once per evaluator until the single
 archived reset, first pairs are consumed whole, panels are frozen, and the votes of a
 close are exactly the recorded uses of its window.
 */
module LedgerHistory {
  import opened Common
  import opened Dicts
  import opened Wire
  import opened Decide
  import opened LedgerSpec
  import opened LedgerPanel
  import Consensus

  datatype Input = Input(frame: Frame, rows: seq<Row>)

  /** One delivery: a refused block leaves no trace. */
  ghost function Deliver(cfg: Config, t: Tables, i: Input): Tables
  {
    match Next(cfg, t, i.frame, i.rows) case Ok(u) => u case Err(_) => t
  }

  ghost function Replay(cfg: Config, inputs: seq<Input>): Tables
  {
    if inputs == [] then Fresh(cfg)
    else Deliver(cfg, Replay(cfg, inputs[..|inputs| - 1]), inputs[|inputs| - 1])
  }

  type Uses = map<(Hotkey, Hotkey), Use>

  // ---------------------------------------------------------------- uses are written once

  ghost predicate Extends(a: Uses, b: Uses) { forall k :: k in a ==> k in b && b[k] == a[k] }

  /** Every use survives as it was written, in the table or in the archive of the one reset. */
  ghost predicate Kept(s: Tables, t: Tables)
  {
    && (s.reset.Some? ==> t.reset == s.reset)
    && (t.reset == s.reset ==> t.archive == s.archive && Extends(s.uses, t.uses))
    && (t.reset != s.reset ==> |t.archive| == |s.archive| + 1 && t.archive[..|s.archive|] == s.archive
                               && Extends(s.uses, t.archive[|s.archive|].uses))
  }

  lemma KeptTransitive(s: Tables, t: Tables, u: Tables)
    requires Kept(s, t) && Kept(t, u)
    ensures Kept(s, u)
  {
  }

  lemma {:induction false} LossesExtend(uses: Uses, o: Opening, losses: seq<Loss>)
    requires forall l :: l in losses ==> LossListed(o, l)
    ensures Extends(uses, ConsumeLosses(uses, o, losses))
    decreases |losses|
  {
    if losses != [] {
      hide LossListed, LossKey;
      LossesExtend(uses, o, losses[..|losses| - 1]);
    }
  }

  lemma RotateKept(cfg: Config, t: Tables, f: Frame, window: nat)
    requires Rotate(cfg, t, f, window).Ok?
    ensures Kept(t, Rotate(cfg, t, f, window).value)
  {
    hide DecisionAt, ConsumeLosses, OpeningOf, PanelList, Evaluated, LossListed;
    if t.active.Some? && t.active.value.id != window {
      EarlyLossesListed(t, t.active.value, f);
      LossesExtend(t.uses, t.active.value, DecisionAt(t, t.active.value, f).earlyLosses);
    }
  }

  lemma {:induction false} AdmitAllKept(cfg: Config, t: Tables, o: Opening, f: Frame, window: nat, rows: seq<Row>)
    requires AdmitAll(cfg, t, o, f, window, rows).Ok?
    ensures Kept(t, AdmitAll(cfg, t, o, f, window, rows).value)
    decreases |rows|
  {
    if rows != [] {
      hide Admit, Kept;
      var u := AdmitAll(cfg, t, o, f, window, rows[..|rows| - 1]).value;
      AdmitAllKept(cfg, t, o, f, window, rows[..|rows| - 1]);
      AdmitKept(cfg, u, o, f, window, rows[|rows| - 1]);
      KeptTransitive(t, u, AdmitAll(cfg, t, o, f, window, rows).value);
    } else {
      KeptReflexive(t);
    }
  }

  lemma KeptReflexive(t: Tables)
    ensures Kept(t, t)
  {
  }

  lemma AdmitKept(cfg: Config, t: Tables, o: Opening, f: Frame, window: nat, row: Row)
    requires Admit(cfg, t, o, f, window, row).Ok?
    ensures Kept(t, Admit(cfg, t, o, f, window, row).value)
  {
    hide Parse, ParseSubmission, Measures;
  }

  lemma DeliverKept(cfg: Config, t: Tables, i: Input)
    ensures Kept(t, Deliver(cfg, t, i))
  {
    hide Rotate, AdmitAll, Consume, Sort;
    if Next(cfg, t, i.frame, i.rows).Ok? {
      var window := WindowOf(cfg, i.frame);
      var u := Rotate(cfg, t, i.frame, window).value;
      RotateKept(cfg, t, i.frame, window);
      AdmitAllKept(cfg, u, u.active.value, i.frame, window, Sort(i.rows));
      var w := AdmitAll(cfg, u, u.active.value, i.frame, window, Sort(i.rows)).value;
      KeptTransitive(t, u, w);
      CompletionKept(w, u.active.value, i.frame.block);
      KeptTransitive(t, w, Deliver(cfg, t, i));
    }
  }

  lemma CompletionKept(t: Tables, o: Opening, block: nat)
    ensures Kept(t, CompleteOf(t, o).(cursor := block))
  {
  }

  lemma {:induction false} ReplayKept(cfg: Config, a: seq<Input>, b: seq<Input>)
    ensures Kept(Replay(cfg, a), Replay(cfg, a + b))
    decreases |b|
  {
    if b == [] {
      assert a + b == a;
    } else {
      hide Deliver;
      var n := |b| - 1;
      assert (a + b)[..|a + b| - 1] == a + b[..n];
      ReplayKept(cfg, a, b[..n]);
      DeliverKept(cfg, Replay(cfg, a + b[..n]), b[n]);
      KeptTransitive(Replay(cfg, a), Replay(cfg, a + b[..n]), Replay(cfg, a + b));
    }
  }

  /** One reset in the whole life of a ledger, and exactly one archive for it. */
  lemma {:induction false} OneArchive(cfg: Config, inputs: seq<Input>)
    ensures |Replay(cfg, inputs).archive| == if Replay(cfg, inputs).reset.Some? then 1 else 0
    decreases |inputs|
  {
    if inputs != [] {
      var n := |inputs| - 1;
      OneArchive(cfg, inputs[..n]);
      DeliverKept(cfg, Replay(cfg, inputs[..n]), inputs[n]);
      hide Deliver;
    }
  }

  /**
   Write-once: what an evaluator used a hotkey for never changes over any continuation of
   the chain. It leaves the active table only into the single archive of the single reset.
   */
  lemma UsesAreWrittenOnce(cfg: Config, a: seq<Input>, b: seq<Input>, k: (Hotkey, Hotkey))
    requires k in Replay(cfg, a).uses
    ensures var s, t := Replay(cfg, a), Replay(cfg, a + b);
      (t.reset == s.reset && k in t.uses && t.uses[k] == s.uses[k]) ||
      (s.reset == None && t.reset.Some? && |t.archive| == 1 && k in t.archive[0].uses
        && t.archive[0].uses[k] == s.uses[k])
  {
    ReplayKept(cfg, a, b);
    OneArchive(cfg, a);
    OneArchive(cfg, a + b);
  }

  // ---------------------------------------------------------------- what every reachable table satisfies

  /** The value is a measurement of the panel submission of `h`, for this window and policy. */
  ghost predicate Report(o: Opening, h: Hotkey, value: string)
  {
    Parse(value).Ok? &&
    var r := Parse(value).value;
    && r.window == o.id && r.policy == Prefix(o.policy) && !r.Baseline()
    && r.modelId in o.candidates && o.candidates[r.modelId].hotkey == h && o.candidates[r.modelId].uid == r.uid
  }

  /** It stands on chain in a block of the window: from the opening block on, before the closing one. */
  ghost predicate Arrived(commitments: seq<Row>, w: Window, now: int, v: Hotkey, value: string)
  {
    exists row :: row in commitments && row.hotkey == v && row.value == value && InTime(w, now, row.block)
  }

  predicate InTime(w: Window, now: int, block: nat)
  {
    w.opening.startBlock <= block <= now && (w.closing.Some? ==> block < w.closing.value.block)
  }

  ghost predicate UseOk(t: Tables, now: int, k: (Hotkey, Hotkey))
    requires k in t.uses
  {
    var u := t.uses[k];
    && u.window in t.windows && Report(t.windows[u.window].opening, k.1, u.value)
    && Arrived(t.commitments, t.windows[u.window], now, k.0, u.value)
    && (Parse(u.value).value.Partial() ==> t.windows[u.window].closing.Some? && t.windows[u.window].opening.king.Some?)
  }

  predicate UsedIn(uses: Uses, v: Hotkey, h: Hotkey, window: nat) { (v, h) in uses && uses[(v, h)].window == window }

  /** A report on a first pair waits until its evaluator has reported on both. */
  ghost predicate PendingOk(t: Tables, p: Slot)
  {
    && p.window in t.windows && t.windows[p.window].opening.king == None
    && p.model in t.windows[p.window].opening.candidates && p in t.pending
    && Parse(t.pending[p]).Ok? && Parse(t.pending[p]).value.modelId == p.model
    && Report(t.windows[p.window].opening, t.windows[p.window].opening.candidates[p.model].hotkey, t.pending[p])
    && !Parse(t.pending[p]).value.Partial()
    && (t.windows[p.window].closing == None ==>
          var key := (p.evaluator, t.windows[p.window].opening.candidates[p.model].hotkey);
          key in t.uses ==> t.uses[key].window == p.window)
  }

  ghost predicate PendingArrived(t: Tables, now: int, p: Slot)
  {
    p in t.pending && p.window in t.windows
      && Arrived(t.commitments, t.windows[p.window], now, p.evaluator, t.pending[p])
  }

  /** Under no king an evaluator has used the whole pair in that window, or none of it. */
  ghost predicate AllOrNone(o: Opening, uses: Uses)
  {
    forall v, h, g :: h in PanelKeys(o) && g in PanelKeys(o) && UsedIn(uses, v, h, o.id) ==> UsedIn(uses, v, g, o.id)
  }

  ghost predicate PanelOk(o: Opening)
  {
    && OneModelEach(o)
    && (forall m :: m in o.candidates ==> o.candidates[m].modelId == m && o.candidates[m].block < o.startBlock)
    && (o.king == None ==> |o.candidates| == 0 || |o.candidates| == 2)
  }

  ghost predicate WindowOk(t: Tables, now: int, w: nat)
  {
    && w in t.windows && t.windows[w].opening.id == w && PanelOk(t.windows[w].opening)
    && t.windows[w].opening.startBlock <= now
    && (t.windows[w].closing == None ==> t.active == Some(t.windows[w].opening))
    && (t.windows[w].opening.king == None ==>
          AllOrNone(t.windows[w].opening, t.uses)
          && forall i :: 0 <= i < |t.archive| ==> AllOrNone(t.windows[w].opening, t.archive[i].uses))
  }

  ghost predicate ArchiveOk(t: Tables, i: nat)
  {
    i < |t.archive| && forall k :: k in t.archive[i].uses ==> t.archive[i].uses[k].window in t.windows
  }

  ghost predicate Sound(t: Tables, now: int)
  {
    && Unique(t.submissions)
    && (forall w :: w in t.windows ==> WindowOk(t, now, w))
    && (forall k :: k in t.uses ==> UseOk(t, now, k))
    && (forall p :: p in t.pending ==> PendingOk(t, p) && PendingArrived(t, now, p))
    && (forall i :: 0 <= i < |t.archive| ==> ArchiveOk(t, i))
    && (t.active.Some? ==> t.active.value.id in t.windows && t.windows[t.active.value.id].opening == t.active.value)
  }

  /** Between blocks the active window is the open one. */
  ghost predicate Settled(t: Tables)
  {
    Sound(t, t.cursor) && (t.active.Some? ==> t.windows[t.active.value.id] == Window(t.active.value, None))
  }

  lemma FreshSettled(cfg: Config)
    ensures Settled(Fresh(cfg))
  {
  }

  lemma ArrivedLater(a: seq<Row>, b: seq<Row>, w: Window, now: int, later: int, v: Hotkey, value: string)
    requires Arrived(a, w, now, v, value) && now <= later && forall row :: row in a ==> row in b
    ensures Arrived(b, w, later, v, value)
  {
  }

  // ---------------------------------------------------------------- one more row

  /** Admitting a row as a commitment and a submission only adds to the tables. */
  lemma AddedSound(t: Tables, u: Tables, now: int, later: int)
    requires Sound(t, now) && now <= later && Unique(u.submissions)
    requires forall row :: row in t.commitments ==> row in u.commitments
    requires u == t.(commitments := u.commitments, submissions := u.submissions)
    ensures Sound(u, later)
  {
    hide Report, OneModelEach, AllOrNone, Unique;
    forall k | k in u.uses
      ensures UseOk(u, later, k)
    {
      assert UseOk(t, now, k);
      ArrivedLater(t.commitments, u.commitments, t.windows[t.uses[k].window], now, later, k.0, t.uses[k].value);
    }
    forall p | p in u.pending
      ensures PendingOk(u, p) && PendingArrived(u, later, p)
    {
      assert PendingOk(t, p) && PendingArrived(t, now, p);
      ArrivedLater(t.commitments, u.commitments, t.windows[p.window], now, later, p.evaluator, t.pending[p]);
    }
    forall w | w in u.windows
      ensures WindowOk(u, later, w)
    {
      assert WindowOk(t, now, w);
    }
    forall i | 0 <= i < |u.archive|
      ensures ArchiveOk(u, i)
    {
      assert ArchiveOk(t, i);
    }
  }

  /** New uses of one window leave every other window as it was. */
  lemma UsesGrow(t: Tables, u: Tables, now: int, o: Opening)
    requires Sound(t, now) && u == t.(uses := u.uses) && Extends(t.uses, u.uses)
    requires o.id in t.windows && t.windows[o.id].opening == o
    requires forall k :: k in u.uses && k !in t.uses ==> UseOk(u, now, k) && u.uses[k].window == o.id
    requires forall w :: w in t.windows && t.windows[w].closing == None ==> w == o.id
    requires o.king == None ==> AllOrNone(o, u.uses)
    ensures Sound(u, now)
  {
    hide Report, OneModelEach, Unique, Arrived;
    forall k | k in u.uses
      ensures UseOk(u, now, k)
    {
      if k in t.uses {
        assert UseOk(t, now, k);
      }
    }
    forall p | p in u.pending
      ensures PendingOk(u, p) && PendingArrived(u, now, p)
    {
      assert PendingOk(t, p) && PendingArrived(t, now, p);
    }
    forall w | w in u.windows
      ensures WindowOk(u, now, w)
    {
      assert WindowOk(t, now, w);
      if w != o.id {
        assert forall v, h :: UsedIn(t.uses, v, h, w) <==> UsedIn(u.uses, v, h, w);
      }
    }
    forall i | 0 <= i < |u.archive|
      ensures ArchiveOk(u, i)
    {
      assert ArchiveOk(t, i);
    }
  }

  ghost predicate InProgress(t: Tables, o: Opening, now: int)
  {
    Sound(t, now) && t.active == Some(o) && o.id in t.windows && t.windows[o.id] == Window(o, None)
      && o.startBlock <= now
  }

  lemma OnlyOneOpen(t: Tables, o: Opening, now: int)
    requires InProgress(t, o, now)
    ensures forall w :: w in t.windows && t.windows[w].closing == None ==> w == o.id
  {
    forall w | w in t.windows && t.windows[w].closing == None
      ensures w == o.id
    {
      assert WindowOk(t, now, w);
    }
  }

  lemma RecordSound(t: Tables, o: Opening, f: Frame, row: Row)
    requires InProgress(t, o, f.block) && row in t.commitments && row.block == f.block
    ensures InProgress(Record(t, o, f, o.id, row), o, f.block)
  {
    hide Parse, Sound, Measures;
    if Measures(o, f, o.id, row) {
      MeasuredReport(o, f, row);
      var m := Parse(row.value).value.modelId;
      var key := (row.hotkey, o.candidates[m].hotkey);
      if key !in t.uses {
        if o.king.Some? {
          MeasuredUse(t, o, f, row, key);
        } else if Slot(row.hotkey, o.id, m) !in t.pending {
          MeasuredWaits(t, o, f, row, m);
        }
      }
    }
  }

  lemma MeasuredReport(o: Opening, f: Frame, row: Row)
    requires Measures(o, f, o.id, row)
    ensures Parse(row.value).Ok? && !Parse(row.value).value.Partial() && Parse(row.value).value.modelId in o.candidates
    ensures Report(o, o.candidates[Parse(row.value).value.modelId].hotkey, row.value)
  {
    hide Parse, Result.Baseline, Result.Partial;
  }

  lemma MeasuredUse(t: Tables, o: Opening, f: Frame, row: Row, key: (Hotkey, Hotkey))
    requires InProgress(t, o, f.block) && row in t.commitments && row.block == f.block && o.king.Some?
    requires key !in t.uses && key.0 == row.hotkey
    requires Report(o, key.1, row.value) && !Parse(row.value).value.Partial()
    ensures Sound(t.(uses := t.uses[key := Use(o.id, row.value)]), f.block)
  {
    hide Parse, Result.Partial, Result.Baseline, Sound;
    OnlyOneOpen(t, o, f.block);
    assert Parse(row.value).Ok?;
    hide Report, OneModelEach;
    assert InTime(t.windows[o.id], f.block, row.block);
    assert Arrived(t.commitments, t.windows[o.id], f.block, row.hotkey, row.value);
    var u := t.(uses := t.uses[key := Use(o.id, row.value)]);
    assert UseOk(u, f.block, key);
    UsesGrow(t, u, f.block, o);
  }

  lemma MeasuredWaits(t: Tables, o: Opening, f: Frame, row: Row, m: ModelId)
    requires InProgress(t, o, f.block) && row in t.commitments && row.block == f.block && o.king == None
    requires m in o.candidates && (row.hotkey, o.candidates[m].hotkey) !in t.uses
      && Slot(row.hotkey, o.id, m) !in t.pending
    requires Report(o, o.candidates[m].hotkey, row.value) && !Parse(row.value).value.Partial()
    requires Parse(row.value).value.modelId == m
    ensures Sound(t.(pending := t.pending[Slot(row.hotkey, o.id, m) := row.value]), f.block)
  {
    hide Parse, Result.Partial, Result.Baseline, Sound;
    assert Parse(row.value).Ok?;
    hide Report, OneModelEach;
    var p := Slot(row.hotkey, o.id, m);
    var u := t.(pending := t.pending[p := row.value]);
    assert InTime(t.windows[o.id], f.block, row.block);
    assert PendingArrived(u, f.block, p);
    assert PendingOk(u, p);
    WaitingSound(t, u, o, f.block, p);
  }

  lemma WaitingSound(t: Tables, u: Tables, o: Opening, now: int, p: Slot)
    requires InProgress(t, o, now) && p !in t.pending && u == t.(pending := u.pending)
    requires p in u.pending && u.pending == t.pending[p := u.pending[p]] && PendingOk(u, p) && PendingArrived(u, now, p)
    ensures Sound(u, now)
  {
    hide Report, OneModelEach, Unique, Arrived, AllOrNone, Parse, Result.Partial, PanelOk;
    forall k | k in u.uses
      ensures UseOk(u, now, k)
    {
      assert UseOk(t, now, k);
    }
    forall q | q in u.pending
      ensures PendingOk(u, q) && PendingArrived(u, now, q)
    {
      if q != p {
        assert PendingOk(t, q) && PendingArrived(t, now, q);
      }
    }
    forall w | w in u.windows
      ensures WindowOk(u, now, w)
    {
      assert WindowOk(t, now, w);
    }
    forall i | 0 <= i < |u.archive|
      ensures ArchiveOk(u, i)
    {
      assert ArchiveOk(t, i);
    }
  }

  lemma {:induction false} AdmitAllSound(cfg: Config, t: Tables, o: Opening, f: Frame, rows: seq<Row>)
    requires InProgress(t, o, f.block) && AdmitAll(cfg, t, o, f, o.id, rows).Ok?
    ensures InProgress(AdmitAll(cfg, t, o, f, o.id, rows).value, o, f.block)
    decreases |rows|
  {
    if rows != [] {
      AdmitAllSound(cfg, t, o, f, rows[..|rows| - 1]);
      hide Record, ParseSubmission, Sound, Unique;
      var u, row := AdmitAll(cfg, t, o, f, o.id, rows[..|rows| - 1]).value, rows[|rows| - 1];
      var added := u.(commitments := AddRow(u.commitments, row));
      SoundUnique(u, f.block);
      SubmitUnique(cfg, added, f, row);
      var w := Submit(cfg, added, f, row).value;
      AddedSound(u, w, f.block, f.block);
      RecordSound(w, o, f, row);
    }
  }

  lemma SoundUnique(t: Tables, now: int)
    requires Sound(t, now)
    ensures Unique(t.submissions)
  {
  }

  // ---------------------------------------------------------------- consuming complete pairs

  lemma CompleteSound(t: Tables, o: Opening, now: int)
    requires InProgress(t, o, now)
    ensures InProgress(CompleteOf(t, o), o, now)
  {
    hide Sound, UseOk, AllOrNone, Consume, OneModelEach;
    if Pairs(o) {
      var u := CompleteOf(t, o);
      OnlyOneOpen(t, o, now);
      CompletionExtends(t, o);
      forall k | k in u.uses && k !in t.uses
        ensures UseOk(u, now, k) && u.uses[k].window == o.id
      {
        PairingOk(t, o, now, k);
      }
      WholePair(t, o, now);
      UsesGrow(t, u, now, o);
    }
  }

  lemma CompletionExtends(t: Tables, o: Opening)
    ensures Extends(t.uses, CompleteOf(t, o).uses) && CompleteOf(t, o) == t.(uses := CompleteOf(t, o).uses)
  {
  }

  lemma PairingOk(t: Tables, o: Opening, now: int, k: (Hotkey, Hotkey))
    requires InProgress(t, o, now) && Pairs(o) && k in CompleteOf(t, o).uses && k !in t.uses
    ensures UseOk(CompleteOf(t, o), now, k) && CompleteOf(t, o).uses[k].window == o.id
  {
    hide Report, Arrived, Unique, AllOrNone;
    var m := Holder(o, k.1);
    assert m in Reported(t.pending, o.id, k.0);
    var p := Slot(k.0, o.id, m);
    assert PendingOk(t, p) && PendingArrived(t, now, p);
  }

  /** The pair of an evaluator is consumed at once: neither hotkey had been used before its second report. */
  lemma WholePair(t: Tables, o: Opening, now: int)
    requires InProgress(t, o, now) && Pairs(o)
    ensures AllOrNone(o, CompleteOf(t, o).uses)
  {
    var uses := CompleteOf(t, o).uses;
    forall v, h, g | h in PanelKeys(o) && g in PanelKeys(o) && UsedIn(uses, v, h, o.id)
      ensures UsedIn(uses, v, g, o.id)
    {
      BothUsed(t, o, now, v, h, g);
    }
  }

  lemma BothUsed(t: Tables, o: Opening, now: int, v: Hotkey, h: Hotkey, g: Hotkey)
    requires InProgress(t, o, now) && Pairs(o) && h in PanelKeys(o) && g in PanelKeys(o)
    requires UsedIn(CompleteOf(t, o).uses, v, h, o.id)
    ensures UsedIn(CompleteOf(t, o).uses, v, g, o.id)
  {
    hide Sound, Complete, Consume, PanelKeys, Evaluators;
    PairBefore(t, o, now, v, h, g);
    Consumed(t.uses, t.pending, o, Evaluators(t.pending, o.id), (v, h));
    Consumed(t.uses, t.pending, o, Evaluators(t.pending, o.id), (v, g));
  }

  lemma Consumed(uses: Uses, pending: map<Slot, string>, o: Opening, evaluators: set<Hotkey>, k: (Hotkey, Hotkey))
    ensures var u := Consume(uses, pending, o, evaluators);
      && (k in u <==> k in uses || (k.0 in evaluators && k.1 in PanelKeys(o) && Complete(pending, o, k.0)))
      && (k in uses ==> u[k] == uses[k])
      && (k in u && k !in uses ==> u[k].window == o.id)
  {
    hide Complete, PanelKeys;
  }

  /** Before completion the window's own uses are all or none, and a waiting hotkey is unused elsewhere. */
  lemma PairBefore(t: Tables, o: Opening, now: int, v: Hotkey, h: Hotkey, g: Hotkey)
    requires InProgress(t, o, now) && Pairs(o) && h in PanelKeys(o) && g in PanelKeys(o)
    ensures UsedIn(t.uses, v, h, o.id) ==> UsedIn(t.uses, v, g, o.id)
    ensures Complete(t.pending, o, v) && (v, g) in t.uses ==> t.uses[(v, g)].window == o.id
  {
    hide Report, Unique, OneModelEach;
    assert WindowOk(t, now, o.id);
    if Complete(t.pending, o, v) && (v, g) in t.uses {
      var n :| n in o.candidates && o.candidates[n].hotkey == g;
      assert n in Reported(t.pending, o.id, v);
      assert PendingOk(t, Slot(v, o.id, n));
    }
  }

  // ---------------------------------------------------------------- votes come from rows

  /** A row that can carry the vote `r` of `v`: everything but the question whether it is the first. */
  ghost predicate Casts(c: Round, row: Row, v: Hotkey, r: Result)
  {
    && row.hotkey == v && Parse(row.value) == Ok(r) && Staked(c, v) && r.window == c.window
      && r.policy == Prefix(c.policy)
    && !r.Baseline() && r.ControlsOk() && r.modelId in c.candidates && c.candidates[r.modelId].uid == r.uid
  }

  ghost predicate Sourced(c: Round, rows: seq<Row>, m: ModelId, votes: map<Hotkey, Result>)
  {
    forall v :: v in votes ==> votes[v].modelId == m && exists row :: row in rows && Casts(c, row, v, votes[v])
  }

  ghost predicate AllSourced(c: Round, rows: seq<Row>, b: Ballot)
  {
    forall m :: m in b.records.items ==> Sourced(c, rows, m, b.records.items[m].items)
  }

  lemma VoteSourced(c: Round, rows: seq<Row>, b: Ballot, row: Row, r: Result)
    requires AllSourced(c, rows, b) && row in rows && Casts(c, row, row.hotkey, r)
    ensures AllSourced(c, rows, Vote(b, row.hotkey, r))
  {
    hide Casts, Vote, Get;
    var votes, next := Get(b.records, r.modelId, Empty()).items, Vote(b, row.hotkey, r).records.items;
    VoteItems(b, row.hotkey, r);
    VotesBefore(c, rows, b, r.modelId);
    SourcedPut(c, rows, votes, row, r);
    hide Sourced;
    forall m | m in next
      ensures Sourced(c, rows, m, next[m].items)
    {
      if m != r.modelId {
        VotesBefore(c, rows, b, m);
      }
    }
  }

  lemma VotesBefore(c: Round, rows: seq<Row>, b: Ballot, m: ModelId)
    requires AllSourced(c, rows, b)
    ensures Sourced(c, rows, m, Get(b.records, m, Empty()).items)
    ensures m in b.records.items ==> Sourced(c, rows, m, b.records.items[m].items)
  {
  }

  lemma SourcedPut(c: Round, rows: seq<Row>, votes: map<Hotkey, Result>, row: Row, r: Result)
    requires Sourced(c, rows, r.modelId, votes) && row in rows && Casts(c, row, row.hotkey, r)
    ensures Sourced(c, rows, r.modelId, votes[row.hotkey := r])
  {
    hide Casts;
  }

  /** A vote changes at most one entry of one model. */
  lemma VoteItems(b: Ballot, v: Hotkey, r: Result)
    ensures var next, votes := Vote(b, v, r).records.items, Get(b.records, r.modelId, Empty()).items;
      && next.Keys == b.records.items.Keys + {r.modelId}
      && (forall m :: m in b.records.items && m != r.modelId ==> next[m] == b.records.items[m])
      && (next[r.modelId].items == votes || next[r.modelId].items == votes[v := r])
  {
    hide Result.Partial;
  }

  lemma MoreRowsSourced(c: Round, front: seq<Row>, rows: seq<Row>, b: Ballot)
    requires AllSourced(c, front, b) && forall row :: row in front ==> row in rows
    ensures AllSourced(c, rows, b)
  {
    hide Casts;
    forall m | m in b.records.items
      ensures Sourced(c, rows, m, b.records.items[m].items)
    {
      assert Sourced(c, front, m, b.records.items[m].items);
    }
  }

  lemma StepSourced(c: Round, rows: seq<Row>, b: Ballot, row: Row)
    requires AllSourced(c, rows, b) && row in rows
    ensures AllSourced(c, rows, Step(c, b, row))
  {
    hide Parse, Result.Partial, Result.Baseline, Result.ControlsOk, Vote, Staked, Sourced;
    if Parse(row.value).Ok? {
      var r := Parse(row.value).value;
      if Staked(c, row.hotkey) && r.modelId in c.candidates && Casts(c, row, row.hotkey, r) {
        var b1 := b.(used := b.used + {(row.hotkey, c.candidates[r.modelId].hotkey)});
        VoteSourced(c, rows, b, row, r);
        VoteSourced(c, rows, Panel(b1, row.hotkey, r.modelId), row, r);
      }
    }
  }

  lemma {:induction false} FoldSourced(c: Round, rows: seq<Row>)
    ensures AllSourced(c, rows, Fold(c, rows))
    decreases |rows|
  {
    hide Step, AllSourced;
    if rows == [] {
      NothingSourced(c);
    } else {
      var front, last := rows[..|rows| - 1], rows[|rows| - 1];
      FoldSourced(c, front);
      MoreRowsSourced(c, front, rows, Fold(c, front));
      StepSourced(c, rows, Fold(c, front), last);
    }
  }

  lemma NothingSourced(c: Round)
    ensures AllSourced(c, [], NO_VOTES)
  {
  }

  lemma VotingRow(t: Tables, o: Opening, end: nat, row: Row)
    ensures row in Sort(VotingHistory(t, o, end)) <==>
            row in t.commitments && o.startBlock <= row.block < end && Votes(t, o, row)
  {
    Consensus.SortSorts(Between(t.commitments, o.startBlock, end));
    Consensus.SortSorts(VotingHistory(t, o, end));
  }

  lemma {:induction false} LossOfModel(c: Round, b: Ballot, models: seq<ModelId>, l: Loss) returns (m: ModelId)
    requires WellFormed(b) && (forall m :: m in models ==> m in b.records.items) && l in Losses(c, b, models)
    ensures m in b.records.items && l in ModelLosses(c, b, m)
    decreases |models|
  {
    hide ModelLosses, WellFormed;
    if models != [] {
      if l in Losses(c, b, models[..|models| - 1]) {
        m := LossOfModel(c, b, models[..|models| - 1], l);
      } else {
        m := models[|models| - 1];
      }
    }
  }

  /** An early loss is the partial report of a row of the window, and exists only under a king. */
  ghost predicate LostRow(t: Tables, o: Opening, f: Frame, l: Loss)
  {
    && o.king.Some? && LossListed(o, l) && Report(o, LossKey(o, l).1, l.value) && Parse(l.value).value.Partial()
    && exists row ::
      row in t.commitments && row.hotkey == l.hotkey && row.value == l.value && o.startBlock <= row.block < f.block
  }

  lemma LossIsRow(t: Tables, o: Opening, f: Frame, l: Loss)
    requires l in DecisionAt(t, o, f).earlyLosses
    ensures LostRow(t, o, f, l)
  {
    var c, rows := RoundOf(o, f), Sort(VotingHistory(t, o, f.block));
    var b := Fold(c, rows);
    FoldWellFormed(c, rows);
    var m := LossOfModel(c, b, b.records.keys, l);
    Consensus.FoldReachable(c, rows);
    FoldSourced(c, rows);
    hide Fold, Sort, Result.Partial, Result.Commitment, Result.ControlsOk, Result.Baseline, Parse, Staked, WellFormed,
      DecisionAt;
    Consensus.BoundedVotes(c, b, m);
    var v, row := LossVote(c, rows, b, m, l);
    VotingRow(t, o, f.block, row);
  }

  lemma LossVote(c: Round, rows: seq<Row>, b: Ballot, m: ModelId, l: Loss) returns (v: Hotkey, row: Row)
    requires WellFormed(b) && AllSourced(c, rows, b) && m in b.records.items && l in ModelLosses(c, b, m)
    ensures v in b.records.items[m].items && row in rows && Casts(c, row, v, b.records.items[m].items[v])
    ensures l == Loss(v, row.value) && b.records.items[m].items[v].Partial()
  {
    hide Result.Partial, Result.Commitment, Casts, Parse, Result.Valid;
    var votes := b.records.items[m].items;
    assert Sourced(c, rows, m, votes);
    v :| v in votes && votes[v].Partial() && l == Loss(v, votes[v].Commitment());
    row :| row in rows && Casts(c, row, v, votes[v]);
    CastCommits(c, row, v, votes[v]);
  }

  lemma CastCommits(c: Round, row: Row, v: Hotkey, r: Result)
    requires Casts(c, row, v, r)
    ensures row.hotkey == v && r.Commitment() == row.value
  {
    CommitParsed(row.value);
  }

  // ---------------------------------------------------------------- closing keeps the tables sound

  function Shut(t: Tables, o: Opening, closing: Closing): Tables
  {
    t.(windows := t.windows[o.id := Window(o, Some(closing))])
  }

  lemma ShutSound(t: Tables, o: Opening, now: int, closing: Closing)
    requires InProgress(t, o, now) && now < closing.block
    ensures Sound(Shut(t, o, closing), now)
  {
    var u := Shut(t, o, closing);
    hide Report, OneModelEach, Unique, AllOrNone, UseOk, PendingOk, PendingArrived, Arrived;
    forall k | k in u.uses
      ensures UseOk(u, now, k)
    {
      ShutUse(t, o, now, closing, k);
    }
    forall p | p in u.pending
      ensures PendingOk(u, p) && PendingArrived(u, now, p)
    {
      ShutPending(t, o, now, closing, p);
    }
    forall w | w in u.windows
      ensures WindowOk(u, now, w)
    {
      assert WindowOk(t, now, w);
    }
    forall i | 0 <= i < |u.archive|
      ensures ArchiveOk(u, i)
    {
      assert ArchiveOk(t, i);
    }
  }

  lemma ShutUse(t: Tables, o: Opening, now: int, closing: Closing, k: (Hotkey, Hotkey))
    requires InProgress(t, o, now) && now < closing.block && k in t.uses
    ensures UseOk(Shut(t, o, closing), now, k)
  {
    hide Report, Arrived, OneModelEach, Unique, AllOrNone, WindowOk, PendingOk, PendingArrived, ArchiveOk, Parse,
      Result.Partial;
    UseWas(t, k, now);
    hide Sound;
    if t.uses[k].window == o.id {
      StillArrived(t, o, now, closing, k.0, t.uses[k].value);
    }
  }

  lemma UseWas(t: Tables, k: (Hotkey, Hotkey), now: int)
    requires Sound(t, now) && k in t.uses
    ensures UseOk(t, now, k)
  {
  }

  lemma ShutPending(t: Tables, o: Opening, now: int, closing: Closing, p: Slot)
    requires InProgress(t, o, now) && now < closing.block && p in t.pending
    ensures PendingOk(Shut(t, o, closing), p) && PendingArrived(Shut(t, o, closing), now, p)
  {
    hide Report, Arrived, AllOrNone, OneModelEach, Unique, UseOk, WindowOk, ArchiveOk, Parse, Result.Partial;
    PendingWas(t, p, now);
    hide Sound;
    if p.window == o.id {
      StillArrived(t, o, now, closing, p.evaluator, t.pending[p]);
    }
  }

  lemma PendingWas(t: Tables, p: Slot, now: int)
    requires Sound(t, now) && p in t.pending
    ensures PendingOk(t, p) && PendingArrived(t, now, p)
  {
  }

  lemma StillArrived(t: Tables, o: Opening, now: int, closing: Closing, v: Hotkey, value: string)
    requires now < closing.block && Arrived(t.commitments, Window(o, None), now, v, value)
    ensures Arrived(t.commitments, Window(o, Some(closing)), now, v, value)
  {
    var row :| row in t.commitments && row.hotkey == v && row.value == value && InTime(Window(o, None), now, row.block);
    assert InTime(Window(o, Some(closing)), now, row.block);
  }

  lemma {:induction false} NewLosses(uses: Uses, o: Opening, losses: seq<Loss>, k: (Hotkey, Hotkey)) returns (l: Loss)
    requires (forall l :: l in losses ==> LossListed(o, l)) && k in ConsumeLosses(uses, o, losses) && k !in uses
    ensures l in losses && k == LossKey(o, l) && ConsumeLosses(uses, o, losses)[k] == Use(o.id, l.value)
    decreases |losses|
  {
    hide LossListed, LossKey;
    var last := losses[|losses| - 1];
    if k in ConsumeLosses(uses, o, losses[..|losses| - 1]) {
      l := NewLosses(uses, o, losses[..|losses| - 1], k);
    } else {
      l := last;
    }
  }

  lemma CloseSound(t: Tables, o: Opening, f: Frame)
    requires InProgress(t, o, t.cursor) && f.block == t.cursor + 1
    ensures Sound(CloseOf(t, o, f), t.cursor) && Closed(CloseOf(t, o, f)) && CloseOf(t, o, f).cursor == t.cursor
  {
    var closing := Closing(DecisionAt(t, o, f), f.block);
    var u := Shut(t, o, closing);
    OnlyOneOpen(t, o, t.cursor);
    hide Sound, ConsumeLosses, DecisionAt, Evaluated, LossListed;
    LossesSound(t, o, f);
    KingIrrelevant(u.(uses := CloseOf(t, o, f).uses), CloseOf(t, o, f), t.cursor);
  }

  lemma LossesSound(t: Tables, o: Opening, f: Frame)
    requires InProgress(t, o, t.cursor) && f.block == t.cursor + 1
    ensures Sound(Shut(t, o, Closing(DecisionAt(t, o, f), f.block)).(uses := CloseOf(t, o, f).uses), t.cursor)
  {
    hide Sound, ConsumeLosses, DecisionAt, Evaluated, LossListed, LostRow, UseOk, AllOrNone;
    var closing := Closing(DecisionAt(t, o, f), f.block);
    var u, losses := Shut(t, o, closing), DecisionAt(t, o, f).earlyLosses;
    EarlyLossesListed(t, o, f);
    ShutSound(t, o, t.cursor, closing);
    OnlyOneOpen(t, o, t.cursor);
    var uses := ConsumeLosses(t.uses, o, losses);
    LossesExtend(t.uses, o, losses);
    forall k | k in uses && k !in u.uses
      ensures UseOk(u.(uses := uses), t.cursor, k) && uses[k].window == o.id && o.king.Some?
    {
      LossUse(t, o, f, k);
    }
    if o.king == None {
      assert uses == t.uses;
      ShutAllOrNone(t, o, t.cursor);
    }
    UsesGrow(u, u.(uses := uses), t.cursor, o);
  }

  lemma LossUse(t: Tables, o: Opening, f: Frame, k: (Hotkey, Hotkey))
    requires InProgress(t, o, t.cursor) && f.block == t.cursor + 1 && k in CloseOf(t, o, f).uses && k !in t.uses
    ensures var u := Shut(t, o, Closing(DecisionAt(t, o, f), f.block)).(uses := CloseOf(t, o, f).uses);
      UseOk(u, t.cursor, k) && u.uses[k].window == o.id && o.king.Some?
  {
    hide Sound, ConsumeLosses, DecisionAt, Evaluated, LossListed, LossKey, UseOk, Parse, Report, Result.Partial;
    EarlyLossesListed(t, o, f);
    var l := NewLosses(t.uses, o, DecisionAt(t, o, f).earlyLosses, k);
    LossIsRow(t, o, f, l);
    LostUse(t, o, f, l, Closing(DecisionAt(t, o, f), f.block), CloseOf(t, o, f).uses);
  }

  ghost predicate Closed(t: Tables)
  {
    forall w :: w in t.windows ==> t.windows[w].closing.Some?
  }

  lemma ShutAllOrNone(t: Tables, o: Opening, now: int)
    requires InProgress(t, o, now) && o.king == None
    ensures AllOrNone(o, t.uses)
  {
    assert WindowOk(t, now, o.id);
  }

  lemma LostUse(t: Tables, o: Opening, f: Frame, l: Loss, closing: Closing, uses: Uses)
    requires InProgress(t, o, t.cursor) && f.block == t.cursor + 1 && closing.block == f.block && LostRow(t, o, f, l)
    requires LossKey(o, l) in uses && uses[LossKey(o, l)] == Use(o.id, l.value)
    ensures UseOk(Shut(t, o, closing).(uses := uses), t.cursor, LossKey(o, l))
  {
    hide Parse, Sound, Report, Result.Partial;
    var row :| row in t.commitments && row.hotkey == l.hotkey && row.value == l.value
      && o.startBlock <= row.block < f.block;
    assert InTime(Window(o, Some(closing)), t.cursor, row.block);
  }

  /** The crown, the retired hotkeys and the rotation are outside the invariant. */
  lemma KingIrrelevant(t: Tables, u: Tables, now: int)
    requires Sound(t, now) && u == t.(king := u.king, retired := u.retired, after := u.after)
    ensures Sound(u, now)
  {
    hide Report, OneModelEach, Unique, AllOrNone, Arrived, Parse, Result.Partial, PanelOk;
    forall k | k in u.uses
      ensures UseOk(u, now, k)
    {
      assert UseOk(t, now, k);
    }
    forall p | p in u.pending
      ensures PendingOk(u, p) && PendingArrived(u, now, p)
    {
      assert PendingOk(t, p) && PendingArrived(t, now, p);
    }
    forall w | w in u.windows
      ensures WindowOk(u, now, w)
    {
      assert WindowOk(t, now, w);
    }
    forall i | 0 <= i < |u.archive|
      ensures ArchiveOk(u, i)
    {
      assert ArchiveOk(t, i);
    }
  }

  // ---------------------------------------------------------------- resetting and opening

  lemma ResetSound(cfg: Config, t: Tables, f: Frame, window: nat, now: int)
    requires Sound(t, now)
    ensures Sound(ResetOf(cfg, t, f, window), now)
  {
    hide Report, OneModelEach, AllOrNone, Arrived, PendingOk, PendingArrived, Unique, PanelOk;
    var u := ResetOf(cfg, t, f, window);
    if u != t {
      EmptyUnique();
      forall w | w in u.windows
        ensures WindowOk(u, now, w)
      {
        assert WindowOk(t, now, w);
        EmptyAllOrNone(t.windows[w].opening);
      }
      forall i | 0 <= i < |u.archive|
        ensures ArchiveOk(u, i)
      {
        if i < |t.archive| {
          assert ArchiveOk(t, i);
        } else {
          assert forall k :: k in t.uses ==> UseOk(t, now, k);
        }
      }
    }
  }

  lemma EmptyAllOrNone(o: Opening)
    ensures AllOrNone(o, map[])
  {
  }

  lemma OpenSound(cfg: Config, t: Tables, f: Frame, window: nat)
    requires Sound(t, t.cursor) && Closed(t) && f.block == t.cursor + 1 && OpenOf(cfg, t, f, window).Ok?
    ensures var u := OpenOf(cfg, t, f, window).value;
      u.active.Some? && InProgress(u, u.active.value, f.block) && u.active.value.id == window
  {
    hide Sound, PanelOk, Frozen, PanelList;
    var o := OpeningOf(cfg, t, f, window);
    SoundUnique(t, t.cursor);
    OpeningIsFrozen(cfg, t, f, window);
    FrozenPanelOk(t, f, o);
    var u := t.(windows := t.windows[window := Window(o, None)], active := Some(o));
    NewWindowSound(t, u, o, f.block);
    OpenedInProgress(cfg, t, u, o, f, window);
  }

  lemma NewWindowSound(t: Tables, u: Tables, o: Opening, now: int)
    requires Sound(t, t.cursor) && Closed(t) && o.id !in t.windows && t.cursor < now && PanelOk(o)
      && o.startBlock == now
    requires u == t.(windows := t.windows[o.id := Window(o, None)], active := Some(o))
    ensures Sound(u, now)
  {
    hide Report, OneModelEach, AllOrNone, Arrived, Unique, PanelOk, UseOk, PendingOk, PendingArrived, WindowOk;
    forall k | k in u.uses
      ensures UseOk(u, now, k)
    {
      OpenUse(t, u, o, now, k);
    }
    forall p | p in u.pending
      ensures PendingOk(u, p) && PendingArrived(u, now, p)
    {
      OpenPending(t, u, o, now, p);
    }
    forall w | w in u.windows
      ensures WindowOk(u, now, w)
    {
      OpenWindowOk(t, u, o, now, w);
    }
    forall i | 0 <= i < |u.archive|
      ensures ArchiveOk(u, i)
    {
      assert ArchiveOk(t, i);
    }
  }

  lemma OpenedInProgress(cfg: Config, t: Tables, u: Tables, o: Opening, f: Frame, window: nat)
    requires Sound(u, f.block) && OpenOf(cfg, t, f, window).Ok? && o == OpeningOf(cfg, t, f, window)
    requires u == t.(windows := t.windows[window := Window(o, None)], active := Some(o))
    ensures InProgress(OpenOf(cfg, t, f, window).value, o, f.block)
  {
    hide Sound, PanelList;
    KingIrrelevant(u, OpenOf(cfg, t, f, window).value, f.block);
  }

  lemma OpenUse(t: Tables, u: Tables, o: Opening, now: int, k: (Hotkey, Hotkey))
    requires Sound(t, t.cursor) && o.id !in t.windows && t.cursor < now && k in t.uses
    requires u == t.(windows := t.windows[o.id := Window(o, None)], active := Some(o))
    ensures UseOk(u, now, k)
  {
    assert UseOk(t, t.cursor, k);
    hide Report, Arrived, Sound;
    ArrivedLater(t.commitments, t.commitments, t.windows[t.uses[k].window], t.cursor, now, k.0, t.uses[k].value);
  }

  lemma OpenPending(t: Tables, u: Tables, o: Opening, now: int, p: Slot)
    requires Sound(t, t.cursor) && o.id !in t.windows && t.cursor < now && p in t.pending
    requires u == t.(windows := t.windows[o.id := Window(o, None)], active := Some(o))
    ensures PendingOk(u, p) && PendingArrived(u, now, p)
  {
    hide Report, Arrived, Parse, Result.Partial, OneModelEach, Unique, AllOrNone, UseOk, WindowOk, ArchiveOk;
    PendingWas(t, p, t.cursor);
    hide Sound;
    ArrivedLater(t.commitments, t.commitments, t.windows[p.window], t.cursor, now, p.evaluator, t.pending[p]);
  }

  lemma FrozenPanelOk(t: Tables, f: Frame, o: Opening)
    requires Frozen(t, f, o) && o.startBlock == f.block
    ensures PanelOk(o)
  {
    hide OneModelEach;
    forall m | m in o.candidates
      ensures o.candidates[m].modelId == m && o.candidates[m].block < o.startBlock
    {
      assert Candidacy(t, f, m, o.candidates[m]);
    }
  }

  lemma UsesKnowTheirWindow(t: Tables, v: Hotkey, h: Hotkey, w: nat)
    requires Sound(t, t.cursor)
    ensures UsedIn(t.uses, v, h, w) ==> w in t.windows
  {
    assert UsedIn(t.uses, v, h, w) ==> UseOk(t, t.cursor, (v, h));
  }

  lemma OpenWindowOk(t: Tables, u: Tables, o: Opening, now: nat, w: nat)
    requires Sound(t, t.cursor) && Closed(t) && o.id !in t.windows && t.cursor < now && PanelOk(o)
      && o.startBlock == now
    requires u == t.(windows := t.windows[o.id := Window(o, None)], active := Some(o)) && w in u.windows
    ensures WindowOk(u, now, w)
  {
    hide Report, PanelOk, Unique, Arrived;
    if w == o.id {
      forall v, h
        ensures !UsedIn(t.uses, v, h, w)
      {
        UsesKnowTheirWindow(t, v, h, w);
      }
      forall i, v, h | 0 <= i < |t.archive|
        ensures !UsedIn(t.archive[i].uses, v, h, w)
      {
        assert ArchiveOk(t, i);
      }
    } else {
      assert WindowOk(t, t.cursor, w);
    }
  }

  // ---------------------------------------------------------------- every reachable table is sound

  lemma RotateSound(cfg: Config, t: Tables, f: Frame, window: nat)
    requires Settled(t) && f.block == t.cursor + 1 && Rotate(cfg, t, f, window).Ok?
    ensures var u := Rotate(cfg, t, f, window).value; InProgress(u, u.active.value, f.block)
  {
    hide Report, OneModelEach, AllOrNone, Arrived, Unique;
    match t.active
    case None =>
      NothingOpen(t);
      ResetSound(cfg, t, f, window, t.cursor);
      OpenSound(cfg, ResetOf(cfg, t, f, window), f, window);
    case Some(o) =>
      SettledInProgress(t);
      hide Sound, CloseOf, OpenOf;
      if o.id == window {
        AddedSound(t, t, t.cursor, f.block);
      } else {
        var u := CloseOf(t, o, f);
        CloseSound(t, o, f);
        ResetSound(cfg, u, f, window, t.cursor);
        OpenSound(cfg, ResetOf(cfg, u, f, window), f, window);
      }
  }

  lemma NothingOpen(t: Tables)
    requires Settled(t) && t.active == None
    ensures Closed(t)
  {
    forall w | w in t.windows
      ensures t.windows[w].closing.Some?
    {
      assert WindowOk(t, t.cursor, w);
    }
  }

  lemma SettledInProgress(t: Tables)
    requires Settled(t) && t.active.Some?
    ensures InProgress(t, t.active.value, t.cursor) && Unique(t.submissions)
  {
    assert WindowOk(t, t.cursor, t.active.value.id);
  }

  lemma DeliverSettled(cfg: Config, t: Tables, i: Input)
    requires Settled(t)
    ensures Settled(Deliver(cfg, t, i))
  {
    hide Rotate, AdmitAll, CompleteOf, Sort, Settled, Sound;
    if Next(cfg, t, i.frame, i.rows).Ok? {
      var f, window := i.frame, WindowOf(cfg, i.frame);
      var u := Rotate(cfg, t, f, window).value;
      var o := u.active.value;
      RotateSound(cfg, t, f, window);
      AdmitAllSound(cfg, u, o, f, Sort(i.rows));
      var w := AdmitAll(cfg, u, o, f, window, Sort(i.rows)).value;
      CompleteSound(w, o, f.block);
      CursorSettles(CompleteOf(w, o), o, f.block);
    }
  }

  lemma CursorSettles(t: Tables, o: Opening, block: nat)
    requires InProgress(t, o, block)
    ensures Settled(t.(cursor := block))
  {
    var u := t.(cursor := block);
    hide Report, OneModelEach, AllOrNone, Arrived, Unique, PanelOk;
    forall k | k in u.uses
      ensures UseOk(u, block, k)
    {
      assert UseOk(t, block, k);
    }
    forall p | p in u.pending
      ensures PendingOk(u, p) && PendingArrived(u, block, p)
    {
      PendingWas(t, p, block);
    }
    forall w | w in u.windows
      ensures WindowOk(u, block, w)
    {
      assert WindowOk(t, block, w);
    }
    forall i | 0 <= i < |u.archive|
      ensures ArchiveOk(u, i)
    {
      assert ArchiveOk(t, i);
    }
  }

  lemma {:induction false} ReplaySettled(cfg: Config, inputs: seq<Input>)
    ensures Settled(Replay(cfg, inputs))
    decreases |inputs|
  {
    if inputs == [] {
      FreshSettled(cfg);
    } else {
      hide Settled, Deliver;
      ReplaySettled(cfg, inputs[..|inputs| - 1]);
      DeliverSettled(cfg, Replay(cfg, inputs[..|inputs| - 1]), inputs[|inputs| - 1]);
    }
  }

  // ---------------------------------------------------------------- first pairs

  /**
   In a window opened without a king the panel is a pair or empty, and an evaluator's uses of
   that window cover both hotkeys or neither, in the active table and in the archive.
   */
  lemma FirstPairsAreWhole(cfg: Config, inputs: seq<Input>, w: nat, v: Hotkey, h: Hotkey, g: Hotkey)
    requires w in Replay(cfg, inputs).windows && Replay(cfg, inputs).windows[w].opening.king == None
    requires h in PanelKeys(Replay(cfg, inputs).windows[w].opening)
      && g in PanelKeys(Replay(cfg, inputs).windows[w].opening)
    ensures var t := Replay(cfg, inputs);
      && |t.windows[w].opening.candidates| == 2
      && (UsedIn(t.uses, v, h, w) <==> UsedIn(t.uses, v, g, w))
      && forall i :: 0 <= i < |t.archive| ==>
        (UsedIn(t.archive[i].uses, v, h, w) <==> UsedIn(t.archive[i].uses, v, g, w))
  {
    var t := Replay(cfg, inputs);
    ReplaySettled(cfg, inputs);
    hide Replay;
    assert WindowOk(t, t.cursor, w);
    hide PanelOk, Report, Sound;
  }

  // ---------------------------------------------------------------- windows are frozen

  /** Openings and decisions only accumulate. */
  ghost predicate Accumulates(s: Tables, t: Tables)
  {
    forall w :: w in s.windows ==>
      w in t.windows && t.windows[w].opening == s.windows[w].opening
      && (s.windows[w].closing.Some? ==> t.windows[w].closing == s.windows[w].closing)
  }

  lemma DeliverAccumulates(cfg: Config, t: Tables, i: Input)
    requires Settled(t)
    ensures Accumulates(t, Deliver(cfg, t, i))
  {
    hide Rotate, AdmitAll, Consume, Sort, Sound;
    if Next(cfg, t, i.frame, i.rows).Ok? {
      var f, window := i.frame, WindowOf(cfg, i.frame);
      var u := Rotate(cfg, t, f, window).value;
      RotateAccumulates(cfg, t, f, window);
      SoundUnique(t, t.cursor);
      RotateSound(cfg, t, f, window);
      SoundUnique(u, f.block);
      AdmitAllKeyed(cfg, u, u.active.value, f, window, Sort(i.rows));
    }
  }

  lemma RotateAccumulates(cfg: Config, t: Tables, f: Frame, window: nat)
    requires Settled(t) && Rotate(cfg, t, f, window).Ok?
    ensures Accumulates(t, Rotate(cfg, t, f, window).value)
  {
    hide DecisionAt, ConsumeLosses, OpeningOf, Evaluated, LossListed, Sound, PanelList;
    if t.active.Some? {
      SettledInProgress(t);
    }
  }

  /** No block ever changes a panel or a decision that has been recorded. */
  lemma {:induction false} WindowsAreFrozen(cfg: Config, a: seq<Input>, b: seq<Input>)
    ensures Accumulates(Replay(cfg, a), Replay(cfg, a + b))
    decreases |b|
  {
    if b == [] {
      assert a + b == a;
    } else {
      hide Deliver, Settled;
      var n := |b| - 1;
      assert (a + b)[..|a + b| - 1] == a + b[..n];
      WindowsAreFrozen(cfg, a, b[..n]);
      ReplaySettled(cfg, a + b[..n]);
      DeliverAccumulates(cfg, Replay(cfg, a + b[..n]), b[n]);
    }
  }

  /** While a window stays open its panel is the one frozen at its opening, submitted strictly before it. */
  lemma PanelNeverChanges(cfg: Config, a: seq<Input>, b: seq<Input>)
    requires Replay(cfg, a).active.Some? && Replay(cfg, a + b).active.Some?
    requires Replay(cfg, a).active.value.id == Replay(cfg, a + b).active.value.id
    ensures Replay(cfg, a).active == Replay(cfg, a + b).active
    ensures forall m :: m in Replay(cfg, a).active.value.candidates ==>
              Replay(cfg, a).active.value.candidates[m].block < Replay(cfg, a).active.value.startBlock
  {
    var s, t := Replay(cfg, a), Replay(cfg, a + b);
    ReplaySettled(cfg, a);
    ReplaySettled(cfg, a + b);
    WindowsAreFrozen(cfg, a, b);
    hide Replay;
    assert WindowOk(s, s.cursor, s.active.value.id);
  }

  /**
   Late results cannot slide into another window: every use is a measurement for its own window,
   policy and submission, and stood on chain between the opening and the closing block.
   */
  lemma UsesBelongToTheirWindow(cfg: Config, inputs: seq<Input>, k: (Hotkey, Hotkey))
    requires k in Replay(cfg, inputs).uses
    ensures var t := Replay(cfg, inputs);
      var u := t.uses[k];
      && u.window in t.windows && Report(t.windows[u.window].opening, k.1, u.value)
      && exists row :: row in t.commitments && row.hotkey == k.0 && row.value == u.value
                       && t.windows[u.window].opening.startBlock <= row.block
                       && (t.windows[u.window].closing.Some? ==> row.block < t.windows[u.window].closing.value.block)
  {
    ReplaySettled(cfg, inputs);
    hide Replay, Report;
    var t := Replay(cfg, inputs);
    UseWas(t, k, t.cursor);
    hide Settled, Sound;
    var row :| row in t.commitments && row.hotkey == k.0 && row.value == t.uses[k].value
               && InTime(t.windows[t.uses[k].window], t.cursor, row.block);
  }

  /** One block keeps a retired hotkey retired, and off the panel it opens, unless it resets. */
  lemma RetiredStep(cfg: Config, t: Tables, i: Input, h: Hotkey)
    requires Settled(t) && h in t.retired && Deliver(cfg, t, i).reset == t.reset
    ensures var u := Deliver(cfg, t, i);
      h in u.retired && (u.active != t.active && u.active.Some? ==> h !in PanelKeys(u.active.value))
  {
    hide Rotate, AdmitAll, Consume, Sort, Sound;
    if Next(cfg, t, i.frame, i.rows).Ok? {
      var f, window := i.frame, WindowOf(cfg, i.frame);
      var u := Rotate(cfg, t, f, window).value;
      SoundUnique(t, t.cursor);
      RotateSound(cfg, t, f, window);
      SoundUnique(u, f.block);
      AdmitAllKeyed(cfg, u, u.active.value, f, window, Sort(i.rows));
      RotateRetires(cfg, t, f, window, h);
    }
  }

  lemma RotateRetires(cfg: Config, t: Tables, f: Frame, window: nat, h: Hotkey)
    requires Unique(t.submissions) && h in t.retired && Rotate(cfg, t, f, window).Ok?
    requires Rotate(cfg, t, f, window).value.reset == t.reset
    ensures var u := Rotate(cfg, t, f, window).value;
      h in u.retired && (u.active != t.active ==> h !in PanelKeys(u.active.value))
  {
    hide DecisionAt, ConsumeLosses, OpeningOf, Unique, PanelList, Evaluated, LossListed, PanelKeys;
    if t.active == None || t.active.value.id != window {
      var u := ResetOf(cfg, if t.active == None then t else CloseOf(t, t.active.value, f), f, window);
      assert u.submissions == t.submissions && h in u.retired;
      OpeningIsFrozen(cfg, u, f, window);
      FrozenAvoidsRetired(u, f, OpeningOf(cfg, u, f, window), h);
    }
  }

  lemma FrozenAvoidsRetired(t: Tables, f: Frame, o: Opening, h: Hotkey)
    requires Frozen(t, f, o) && h in t.retired
    ensures h !in PanelKeys(o)
  {
    hide OneModelEach;
    assert forall m :: m in o.candidates ==> Candidacy(t, f, m, o.candidates[m]);
  }

  // ---------------------------------------------------------------- the votes of a close

  /** A full vote in the ballot. */
  ghost predicate FullVote(b: Ballot, m: ModelId, v: Hotkey)
  {
    m in b.records.items && v in b.records.items[m].items && !b.records.items[m].items[v].Partial()
  }

  /** A row that is the recorded use of its evaluator, seen with the evaluator staked. */
  ghost predicate Recorded(uses: Uses, c: Round, row: Row)
  {
    Parse(row.value).Ok? &&
    var r := Parse(row.value).value;
    && !r.Baseline() && !r.Partial() && r.modelId in c.candidates && Staked(c, row.hotkey)
    && r.window == c.window && r.policy == Prefix(c.policy) && c.candidates[r.modelId].uid == r.uid
    && KeyOf(c, row) in uses && uses[KeyOf(c, row)] == Use(c.window, row.value)
  }

  function KeyOf(c: Round, row: Row): (Hotkey, Hotkey)
    requires Parse(row.value).Ok? && Parse(row.value).value.modelId in c.candidates
  {
    (row.hotkey, c.candidates[Parse(row.value).value.modelId].hotkey)
  }

  /** Only recorded rows and unresolved bounds reach the fold. */
  ghost predicate Filtered(uses: Uses, c: Round, row: Row)
  {
    Parse(row.value).Ok? &&
    var r := Parse(row.value).value;
    r.Baseline() || (r.modelId in c.candidates &&
      (r.Partial() || (KeyOf(c, row) in uses && uses[KeyOf(c, row)] == Use(c.window, row.value))))
  }

  /** The recorded row of a used key has been cast. */
  ghost predicate Cast(uses: Uses, c: Round, b: Ballot, k: (Hotkey, Hotkey))
  {
    && k in uses && Parse(uses[k].value).Ok?
    && var r := Parse(uses[k].value).value;
    && r.modelId in c.candidates && c.candidates[r.modelId].hotkey == k.1
    && (r.ControlsOk() ==> FullVote(b, r.modelId, k.0) && b.records.items[r.modelId].items[k.0] == r)
  }

  ghost predicate AllCast(uses: Uses, c: Round, b: Ballot) { forall k :: k in b.used ==> Cast(uses, c, b, k) }

  lemma VoteCast(uses: Uses, c: Round, b: Ballot, v: Hotkey, r: Result)
    requires AllCast(uses, c, b) && r.modelId in c.candidates && (v, c.candidates[r.modelId].hotkey) !in b.used
    ensures forall k :: k in b.used ==> Cast(uses, c, Vote(b, v, r), k)
    ensures !r.Partial() ==>
      FullVote(Vote(b, v, r), r.modelId, v) && Vote(b, v, r).records.items[r.modelId].items[v] == r
  {
    hide Parse, Result.Partial, Result.ControlsOk;
    forall k | k in b.used
      ensures Cast(uses, c, Vote(b, v, r), k)
    {
      assert Cast(uses, c, b, k);
    }
  }

  lemma StepCast(uses: Uses, c: Round, b: Ballot, row: Row)
    requires AllCast(uses, c, b) && Filtered(uses, c, row)
    ensures AllCast(uses, c, Step(c, b, row)) && b.used <= Step(c, b, row).used
    ensures Recorded(uses, c, row) ==> KeyOf(c, row) in Step(c, b, row).used
  {
    hide Parse, Result.Partial, Result.Baseline, Result.ControlsOk, Staked, Vote, FullVote, AllCast, Recorded;
    var r := Parse(row.value).value;
    if Accepts(c, b, row) {
      AcceptCast(uses, c, b, row);
    } else {
      StepOther(uses, c, b, row);
    }
  }

  /** The row reaches the first-result rule with a free key. */
  ghost predicate Accepts(c: Round, b: Ballot, row: Row)
  {
    Parse(row.value).Ok? &&
    var r := Parse(row.value).value;
    && r.window == c.window && r.policy == Prefix(c.policy) && Staked(c, row.hotkey) && !r.Baseline()
    && r.modelId in c.candidates && c.candidates[r.modelId].uid == r.uid && KeyOf(c, row) !in b.used
  }

  lemma StepOther(uses: Uses, c: Round, b: Ballot, row: Row)
    requires !Accepts(c, b, row) && AllCast(uses, c, b)
    ensures AllCast(uses, c, Step(c, b, row)) && Step(c, b, row).used == b.used
    ensures Recorded(uses, c, row) ==> KeyOf(c, row) in b.used
  {
    hide Parse, Result.Partial, Result.Baseline, Result.ControlsOk, Staked, Vote;
  }

  lemma AcceptCast(uses: Uses, c: Round, b: Ballot, row: Row)
    requires Accepts(c, b, row) && AllCast(uses, c, b) && Filtered(uses, c, row)
    ensures AllCast(uses, c, Step(c, b, row)) && b.used <= Step(c, b, row).used
    ensures Recorded(uses, c, row) ==> KeyOf(c, row) in Step(c, b, row).used
  {
    hide Parse, Result.Partial, Result.Baseline, Result.ControlsOk, Staked, Vote, FullVote;
    var r, v, key := Parse(row.value).value, row.hotkey, KeyOf(c, row);
    var next, b1 := Step(c, b, row), b.(used := b.used + {key});
    VoteCast(uses, c, b, v, r);
    VoteParts(b, b, v, r);
    VoteParts(Panel(b1, v, r.modelId), b, v, r);
    assert next == Accept(c, b, v, r);
    hide Step;
    if !r.Partial() {
      assert next.used == b.used + {key};
      assert next.records == if r.ControlsOk() then Vote(b, v, r).records else b.records;
      SameRecords(uses, c, if r.ControlsOk() then Vote(b, v, r) else b, next, b.used);
      assert Cast(uses, c, next, key) by {
        if r.ControlsOk() { SameFull(Vote(b, v, r), next, r.modelId, v); }
      }
    } else {
      assert next.used == b.used;
    }
  }

  lemma VoteParts(x: Ballot, b: Ballot, v: Hotkey, r: Result)
    requires x.records == b.records
    ensures Vote(x, v, r).records == Vote(b, v, r).records && Vote(x, v, r).used == x.used
  {
  }

  lemma SameFull(x: Ballot, y: Ballot, m: ModelId, v: Hotkey)
    requires x.records == y.records
    ensures FullVote(x, m, v) <==> FullVote(y, m, v)
  {
  }

  lemma SameRecords(uses: Uses, c: Round, x: Ballot, y: Ballot, keys: set<(Hotkey, Hotkey)>)
    requires x.records == y.records && forall k :: k in keys ==> Cast(uses, c, x, k)
    ensures forall k :: k in keys ==> Cast(uses, c, y, k)
  {
    hide Parse, Result.Partial, Result.ControlsOk;
    forall k | k in keys
      ensures Cast(uses, c, y, k)
    {
      assert Cast(uses, c, x, k);
    }
  }

  lemma {:induction false} FoldCast(uses: Uses, c: Round, rows: seq<Row>)
    requires forall row :: row in rows ==> Filtered(uses, c, row)
    ensures AllCast(uses, c, Fold(c, rows))
    ensures forall row :: row in rows && Recorded(uses, c, row) ==> KeyOf(c, row) in Fold(c, rows).used
    decreases |rows|
  {
    hide Step, Filtered, AllCast, Cast;
    if rows == [] {
      NothingCast(uses, c);
    } else {
      var front, last := rows[..|rows| - 1], rows[|rows| - 1];
      FoldCast(uses, c, front);
      StepCast(uses, c, Fold(c, front), last);
      assert rows == front + [last];
    }
  }

  lemma NothingCast(uses: Uses, c: Round)
    ensures AllCast(uses, c, NO_VOTES)
  {
  }

  /** The evaluator's use of the hotkey in this window, a measurement with passing controls by a staked voter. */
  ghost predicate CountsAtClose(t: Tables, o: Opening, f: Frame, m: ModelId, v: Hotkey)
    requires m in o.candidates
  {
    var key := (v, o.candidates[m].hotkey);
    Staked(RoundOf(o, f), v) && UsedIn(t.uses, v, key.1, o.id)
    && Parse(t.uses[key].value).Ok? && Parse(t.uses[key].value).value.ControlsOk()
  }

  /**
   At every reachable close, a full vote of `v` on `m` is in the ballot exactly when `v`, staked at
   the closing block, is recorded as having used that submission in this window with passing
   controls. The vote is the recorded one, it stood on chain in `[startBlock, closing block)`, and
   the submission is strictly older than the window.
   */
  lemma BallotIsTheRecord(cfg: Config, inputs: seq<Input>, f: Frame, m: ModelId, v: Hotkey)
    requires Replay(cfg, inputs).active.Some? && f.block == Replay(cfg, inputs).cursor + 1
    requires m in Replay(cfg, inputs).active.value.candidates
    ensures var t := Replay(cfg, inputs);
      var o := t.active.value;
      var b, key := BallotAt(t, o, f), (v, o.candidates[m].hotkey);
      && (FullVote(b, m, v) <==> CountsAtClose(t, o, f, m, v))
      && o.candidates[m].block < o.startBlock
      && (FullVote(b, m, v) ==>
            Parse(t.uses[key].value) == Ok(b.records.items[m].items[v])
            && exists row :: row in t.commitments && row.hotkey == v && row.value == t.uses[key].value
                             && o.startBlock <= row.block < f.block)
  {
    var t := Replay(cfg, inputs);
    ReplaySettled(cfg, inputs);
    SettledInProgress(t);
    hide Replay, Settled, Parse, Fold, Sort, Result.Partial, Result.Baseline, Result.ControlsOk, Staked, Sound;
    var o := t.active.value;
    PanelOlder(t, o, m);
    if FullVote(BallotAt(t, o, f), m, v) {
      VoteIsRecorded(t, o, f, m, v);
    }
    if CountsAtClose(t, o, f, m, v) {
      RecordIsVote(t, o, f, m, v);
    }
  }

  lemma PanelOlder(t: Tables, o: Opening, m: ModelId)
    requires InProgress(t, o, t.cursor) && m in o.candidates
    ensures o.candidates[m].block < o.startBlock && OneModelEach(o)
  {
    assert WindowOk(t, t.cursor, o.id);
  }

  lemma VoteIsRecorded(t: Tables, o: Opening, f: Frame, m: ModelId, v: Hotkey)
    requires m in o.candidates && FullVote(BallotAt(t, o, f), m, v)
    ensures CountsAtClose(t, o, f, m, v)
    ensures var key := (v, o.candidates[m].hotkey);
      Parse(t.uses[key].value) == Ok(BallotAt(t, o, f).records.items[m].items[v])
      && exists row :: row in t.commitments && row.hotkey == v && row.value == t.uses[key].value
                       && o.startBlock <= row.block < f.block
  {
    hide Parse, Fold, Sort, Result.Partial, Result.Baseline, Result.ControlsOk, Staked;
    var c, rows := RoundOf(o, f), Sort(VotingHistory(t, o, f.block));
    var b := Fold(c, rows);
    FoldSourced(c, rows);
    assert Sourced(c, rows, m, b.records.items[m].items);
    var row :| row in rows && Casts(c, row, v, b.records.items[m].items[v]);
    VotingRow(t, o, f.block, row);
  }

  lemma RecordIsVote(t: Tables, o: Opening, f: Frame, m: ModelId, v: Hotkey)
    requires InProgress(t, o, t.cursor) && f.block == t.cursor + 1 && m in o.candidates && CountsAtClose(t, o, f, m, v)
    ensures FullVote(BallotAt(t, o, f), m, v)
  {
    hide Parse, Fold, Sort, Result.Partial, Result.Baseline, Result.ControlsOk, Staked, Sound, FullVote, Cast, AllCast;
    var c, rows, key := RoundOf(o, f), Sort(VotingHistory(t, o, f.block)), (v, o.candidates[m].hotkey);
    var row := RecordedRow(t, o, f, m, v);
    VotingRow(t, o, f.block, row);
    forall x | x in rows
      ensures Filtered(t.uses, c, x)
    {
      VotingRow(t, o, f.block, x);
    }
    FoldCast(t.uses, c, rows);
    CastIsVote(t.uses, c, Fold(c, rows), key, m);
  }

  /** The chain row behind a use that counts. */
  lemma RecordedRow(t: Tables, o: Opening, f: Frame, m: ModelId, v: Hotkey) returns (row: Row)
    requires InProgress(t, o, t.cursor) && f.block == t.cursor + 1 && m in o.candidates && CountsAtClose(t, o, f, m, v)
    ensures row in t.commitments && o.startBlock <= row.block < f.block && Votes(t, o, row)
    ensures Recorded(t.uses, RoundOf(o, f), row) && KeyOf(RoundOf(o, f), row) == (v, o.candidates[m].hotkey)
    ensures Parse(t.uses[(v, o.candidates[m].hotkey)].value).value.modelId == m
  {
    hide Parse, Result.Partial, Result.Baseline, Result.ControlsOk, Staked;
    var key := (v, o.candidates[m].hotkey);
    PanelOlder(t, o, m);
    UseWas(t, key, t.cursor);
    hide Sound;
    assert Report(o, key.1, t.uses[key].value);
    row :| row in t.commitments && row.hotkey == v && row.value == t.uses[key].value
           && InTime(Window(o, None), t.cursor, row.block);
  }

  lemma CastIsVote(uses: Uses, c: Round, b: Ballot, key: (Hotkey, Hotkey), m: ModelId)
    requires AllCast(uses, c, b) && key in b.used && key in uses && Parse(uses[key].value).Ok?
    requires Parse(uses[key].value).value.modelId == m && Parse(uses[key].value).value.ControlsOk()
    ensures FullVote(b, m, key.0)
  {
    hide Parse, Result.ControlsOk, FullVote;
    assert Cast(uses, c, b, key);
  }
}
