/** The replayable ledger: every finalized block is ingested once, in order, as one transaction. */
module Ledger {
  import opened Common
  import opened Wire
  import opened Decide
  import opened LedgerPanel
  import opened LedgerSpec
  import RoundRobin

  class Ledger {
    const cfg: Config
    var db: Tables

    constructor (cfg: Config)
      ensures this.cfg == cfg && db == Fresh(cfg)
    {
      this.cfg := cfg;
      db := Fresh(cfg);
    }

    method History(start: nat, end: nat) returns (rows: seq<Row>)
      ensures rows == Sort(Between(db.commitments, start, end))
    {
      var found := [];
      for i := 0 to |db.commitments|
        invariant found == Between(db.commitments[..i], start, end)
      {
        var row := db.commitments[i];
        assert db.commitments[..i + 1][..i] == db.commitments[..i];
        if start <= row.block < end {
          found := found + [row];
        }
      }
      assert db.commitments[..|db.commitments|] == db.commitments;
      rows := Sort(found);
    }

    method VotingRows(o: Opening, end: nat) returns (rows: seq<Row>)
      ensures rows == VotingHistory(db, o, end)
    {
      hide Parse, Result.Baseline, Result.Partial, Sort;
      var history := History(o.startBlock, end);
      rows := [];
      for i := 0 to |history|
        invariant rows == VotesOf(db, o, history[..i])
      {
        var row := history[i];
        assert history[..i + 1][..i] == history[..i];
        var parsed := Parse(row.value);
        if parsed.Err? {
          continue;
        }
        var result := parsed.value;
        if result.Baseline() {
          rows := rows + [row];
          continue;
        }
        if result.modelId !in o.candidates {
          continue;
        }
        var key := (row.hotkey, o.candidates[result.modelId].hotkey);
        if result.Partial() && (key !in db.uses || db.uses[key].window == o.id) {
          rows := rows + [row];
          continue;
        }
        if key in db.uses && db.uses[key].window == o.id && db.uses[key].value == row.value {
          rows := rows + [row];
        }
      }
      assert history[..|history|] == history;
    }

    /** Decide on the recorded votes, consume definitive losses, retire an evaluated first pair. */
    method Close(o: Opening, f: Frame)
      modifies this`db
      ensures db == CloseOf(old(db), o, f)
    {
      ghost var before := db;
      EarlyLossesListed(before, o, f);
      hide Parse, DecisionOf, Fold;
      var rows := VotingRows(o, f.block);
      var d := Decide.Decide(rows, RoundOf(o, f));
      if o.id in db.windows {
        db := db.(windows := db.windows[o.id := db.windows[o.id].(closing := Some(Closing(d, f.block)))]);
      }
      db := db.(king := d.winner);
      var losses := d.earlyLosses;
      for i := 0 to |losses|
        invariant db == before.(windows := db.windows, king := d.winner,
          uses := ConsumeLosses(before.uses, o, losses[..i]))
        invariant db.windows == CloseOf(before, o, f).windows
      {
        assert losses[..i + 1][..i] == losses[..i];
        var key := LossKey(o, losses[i]);
        db := db.(uses := InsertUse(db.uses, key, Use(o.id, losses[i].value)));
      }
      assert losses[..|losses|] == losses;
      if o.king == None && d.winner == None {
        if Evaluated(db.uses, o, f) {
          db := db.(retired := db.retired + PanelKeys(o));
        }
      }
    }

    method ResetAdmissions(f: Frame, window: nat)
      modifies this`db
      ensures db == ResetOf(cfg, old(db), f, window)
    {
      if !cfg.versioned || window < HOTKEY_RESET_WINDOW || db.reset.Some? {
        return;
      }
      db := db.(archive := db.archive + [Archive(HOTKEY_RESET_WINDOW, db.submissions, db.uses, db.pending)]);
      db := db.(submissions := [], uses := map[], pending := map[]);
      db := db.(retired := {}, after := None);
      db := db.(reset := Some(f.block));
    }

    method FirstPair(list: seq<Submission>) returns (pair: seq<Submission>)
      ensures pair == NextPair(BootstrapOrder(list), db.after)
    {
      var sorted := SortSubmissions(list);
      var owner := (x: Submission) => x.coldkey;
      var groups: seq<RoundRobin.Group<Submission>> := [];
      for i := 0 to |sorted|
        invariant groups == RoundRobin.Grouped(sorted[..i], owner)
      {
        assert sorted[..i + 1][..i] == sorted[..i];
        groups := RoundRobin.Append(groups, sorted[i].coldkey, sorted[i]);
      }
      assert sorted[..|sorted|] == sorted;
      var order := RoundRobin.TakeTurns(groups, None);
      var index := ResumeAt(order, db.after);
      order := order[index..] + order[..index];
      pair := if |order| >= 2 then order[..2] else [];
    }

    method Candidates(f: Frame) returns (candidates: seq<Submission>)
      ensures candidates == Listed(SortSubmissions(db.submissions), f, db.retired)
    {
      hide SortSubmissions;
      var rows := SortSubmissions(db.submissions);
      candidates := [];
      for i := 0 to |rows|
        invariant candidates == Listed(rows[..i], f, db.retired)
      {
        var row := rows[i];
        assert rows[..i + 1][..i] == rows[..i];
        if row.candidate.block < f.block && row.candidate.hotkey in f.uids && row.candidate.hotkey !in db.retired {
          if row.candidate.modelId !in Models(candidates) {
            candidates := candidates + [row.(candidate := row.candidate.(uid := f.uids[row.candidate.hotkey]))];
          }
        }
      }
      assert rows[..|rows|] == rows;
    }

    /** Freeze the panel of a new window. */
    method Open(f: Frame, window: nat) returns (r: Try<()>)
      modifies this`db
      ensures match OpenOf(cfg, old(db), f, window) case Ok(t) => r.Ok? && db == t case Err(_) => r.Err?
    {
      hide SortSubmissions, Listed, BootstrapOrder, NextPair, AsPanel, Without;
      var candidates := Candidates(f);
      var king := db.king;
      if king.Some? && king.value.hotkey !in f.uids {
        king := None;
      }
      if king.Some? {
        king := Some(king.value.(uid := f.uids[king.value.hotkey]));
        candidates := Without(candidates, king.value.modelId);
      } else {
        candidates := FirstPair(candidates);
        if candidates != [] {
          db := db.(after := Some(candidates[|candidates| - 1].candidate.hotkey));
        }
      }
      var opening := Opening(window, f.block, king, AsPanel(candidates), cfg.policyFor(window));
      if window in db.windows {
        return Err("UNIQUE constraint failed: windows.id");
      }
      db := db.(windows := db.windows[window := Window(opening, None)]);
      db := db.(active := Some(opening));
      return Ok(());
    }

    method AdmitRow(o: Opening, f: Frame, window: nat, row: Row) returns (r: Try<()>)
      modifies this`db
      ensures match Admit(cfg, old(db), o, f, window, row) case Ok(t) => r.Ok? && db == t case Err(_) => r.Err?
    {
      hide Parse, ParseSubmission, Result.Baseline, Result.Partial;
      if row.block != f.block {
        return Err("commitment_not_from_this_block");
      }
      db := db.(commitments := AddRow(db.commitments, row));
      var submission := ParseSubmission(row.value);
      if submission.Ok? && row.hotkey in f.uids {
        if row.hotkey !in f.coldkeys {
          return Err("KeyError");
        }
        var own := Candidate(row.hotkey, f.uids[row.hotkey], cfg.challenge(row.hotkey, submission.value), row.block);
        if !Submitted(db.submissions, row.hotkey) {
          var more := [Submission(own, f.coldkeys[row.hotkey], submission.value, row.value)];
          db := db.(submissions := db.submissions + more);
        }
      }
      r := Ok(());
      var parsed := Parse(row.value);
      if parsed.Err? {
        return;
      }
      var result := parsed.value;
      if result.window != window || result.policy != Prefix(o.policy) || result.Baseline() || result.Partial() {
        return;
      }
      if result.modelId !in o.candidates || result.uid != o.candidates[result.modelId].uid
        || row.hotkey !in f.validators {
        return;
      }
      var key := (row.hotkey, o.candidates[result.modelId].hotkey);
      if key in db.uses {
        return;
      }
      if o.king.Some? {
        db := db.(uses := db.uses[key := Use(window, row.value)]);
      } else if Slot(row.hotkey, window, result.modelId) !in db.pending {
        db := db.(pending := db.pending[Slot(row.hotkey, window, result.modelId) := row.value]);
      }
    }

    /** The reports of the window by evaluator and model. */
    method Panels(window: nat) returns (panels: map<Hotkey, map<ModelId, string>>)
      ensures panels.Keys == Evaluators(db.pending, window)
      ensures forall v :: v in panels ==> panels[v].Keys == Reported(db.pending, window, v)
      ensures forall v, m :: v in panels && m in panels[v] ==>
                Slot(v, window, m) in db.pending && panels[v][m] == db.pending[Slot(v, window, m)]
    {
      panels := map[];
      var todo := set p | p in db.pending && p.window == window;
      while todo != {}
        invariant todo <= set p | p in db.pending && p.window == window
        invariant forall p :: p in db.pending && p.window == window && p !in todo ==>
                    p.evaluator in panels && p.model in panels[p.evaluator]
        invariant forall v :: v in panels ==> v in Evaluators(db.pending, window)
        invariant forall v, m :: v in panels && m in panels[v] ==>
                    Slot(v, window, m) in db.pending && panels[v][m] == db.pending[Slot(v, window, m)]
        decreases |todo|
      {
        var p := AnyOf(todo);
        todo := todo - {p};
        var panel := if p.evaluator in panels then panels[p.evaluator] else map[];
        panels := panels[p.evaluator := panel[p.model := db.pending[p]]];
      }
      forall v | v in panels
        ensures panels[v].Keys == Reported(db.pending, window, v)
      {
        assert forall m :: m in panels[v] ==> Slot(v, window, m) in db.pending;
      }
    }

    method ConsumePanel(o: Opening, v: Hotkey, panel: map<ModelId, string>)
      requires panel.Keys == Reported(db.pending, o.id, v)
      requires forall m :: m in panel ==> Slot(v, o.id, m) in db.pending && panel[m] == db.pending[Slot(v, o.id, m)]
      modifies this`db
      ensures ConsumedBy(old(db.uses), db.pending, o, v, db.uses) && db == old(db).(uses := db.uses)
    {
      hide ConsumedBy, Consuming, InsertUse, Reported;
      ghost var before := db;
      NothingConsumed(before.uses, before.pending, o, v);
      if panel.Keys != o.candidates.Keys {
        return;
      }
      var todo := panel.Keys;
      assert panel.Keys - todo == {};
      while todo != {}
        invariant todo <= panel.Keys && db == before.(uses := db.uses)
        invariant Consuming(before.uses, before.pending, o, v, panel.Keys - todo, db.uses)
        decreases |todo|
      {
        var m := AnyOf(todo);
        ConsumeNext(before.uses, before.pending, o, v, panel.Keys - todo, db.uses, m);
        assert panel.Keys - (todo - {m}) == panel.Keys - todo + {m};
        todo := todo - {m};
        db := db.(uses := InsertUse(db.uses, (v, o.candidates[m].hotkey), Use(o.id, panel[m])));
      }
      assert panel.Keys - todo == panel.Keys;
      AllConsumed(before.uses, before.pending, o, v, db.uses);
    }

    /** Turn every complete pair of reports into uses. */
    method CompletePairs(o: Opening)
      requires OneModelEach(o)
      modifies this`db
      ensures db == CompleteOf(old(db), o)
    {
      hide Consume, ConsumedBy, Reported, Evaluators, OneModelEach, Complete;
      if o.king == None && |o.candidates| == 2 {
        ghost var before, done: set<Hotkey> := db, {};
        var panels := Panels(o.id);
        var todo := panels.Keys;
        ConsumeNone(before.uses, before.pending, o);
        while todo != {}
          invariant todo !! done && todo + done == panels.Keys && db == before.(uses := db.uses)
          invariant db.uses == Consume(before.uses, before.pending, o, done)
          decreases |todo|
        {
          var v := AnyOf(todo);
          todo := todo - {v};
          ConsumePanel(o, v, panels[v]);
          ConsumeOneMore(before.uses, before.pending, o, done, v, db.uses);
          done := done + {v};
        }
      }
    }

    /** The first block of another window closes the active one before anything else. */
    method Turn(f: Frame, window: nat) returns (r: Try<()>)
      requires Keyed(db)
      modifies this`db
      ensures match Rotate(cfg, old(db), f, window) case Ok(t) => r.Ok? && db == t && Keyed(db) case Err(_) => r.Err?
    {
      ghost var before := db;
      hide CloseOf, ResetOf, OpenOf, Keyed;
      r := Ok(());
      var active := db.active;
      if active.Some? && window != active.value.id {
        Close(active.value, f);
      }
      if active == None || window != active.value.id {
        ResetAdmissions(f, window);
        r := Open(f, window);
      }
      if r.Ok? {
        RotateKeyed(cfg, before, f, window);
      }
    }

    method AdmitRows(o: Opening, f: Frame, window: nat, sorted: seq<Row>) returns (r: Try<()>)
      modifies this`db
      ensures match AdmitAll(cfg, old(db), o, f, window, sorted) case Ok(t) => r.Ok? && db == t case Err(_) => r.Err?
    {
      ghost var before := db;
      hide Admit;
      for i := 0 to |sorted|
        invariant AdmitAll(cfg, before, o, f, window, sorted[..i]) == Ok(db)
      {
        assert sorted[..i + 1][..i] == sorted[..i];
        r := AdmitRow(o, f, window, sorted[i]);
        if r.Err? {
          RowRefused(cfg, before, o, f, window, sorted, i + 1);
          return;
        }
      }
      assert sorted[..|sorted|] == sorted;
      r := Ok(());
    }

    /** One contiguous finalized block; an error leaves the tables as they were. */
    method Ingest(f: Frame, rows: seq<Row>) returns (r: Try<()>)
      requires Keyed(db)
      modifies this`db
      ensures Keyed(db)
      ensures match Next(cfg, old(db), f, rows) case Ok(t) => r.Ok? && db == t case Err(_) => r.Err? && db == old(db)
    {
      hide Next, Rotate, AdmitAll, CompleteOf, Sort, Keyed;
      var block, epoch := f.block, f.epoch;
      if block != db.cursor + 1 {
        BlockRefused(cfg, db, f, rows);
        return Err("noncontiguous_finalized_history");
      }
      if epoch < cfg.activationEpoch {
        BlockRefused(cfg, db, f, rows);
        return Err("activation_epoch_not_reached");
      }
      var window := (epoch - cfg.activationEpoch) / WINDOW_EPOCHS;
      var saved := db;
      r := Turn(f, window);
      if r.Err? {
        TurnRefused(cfg, saved, f, rows);
        db := saved;
        return;
      }
      ghost var turned := db;
      var o := db.active.value;
      r := AdmitRows(o, f, window, Sort(rows));
      if r.Err? {
        RowsRefused(cfg, saved, f, rows);
        db := saved;
        return;
      }
      BlockAccepted(cfg, saved, f, rows, turned, db);
      CompletePairs(o);
      db := db.(cursor := block);
    }
  }

  lemma BlockRefused(cfg: Config, t: Tables, f: Frame, rows: seq<Row>)
    requires f.block != t.cursor + 1 || f.epoch < cfg.activationEpoch
    ensures Next(cfg, t, f, rows).Err?
  {
  }

  lemma TurnRefused(cfg: Config, t: Tables, f: Frame, rows: seq<Row>)
    requires f.block == t.cursor + 1 && f.epoch >= cfg.activationEpoch
    requires Rotate(cfg, t, f, WindowOf(cfg, f)).Err?
    ensures Next(cfg, t, f, rows).Err?
  {
    hide Rotate, AdmitAll;
  }

  lemma RowsRefused(cfg: Config, t: Tables, f: Frame, rows: seq<Row>)
    requires f.block == t.cursor + 1 && f.epoch >= cfg.activationEpoch && Rotate(cfg, t, f, WindowOf(cfg, f)).Ok?
    requires var u := Rotate(cfg, t, f, WindowOf(cfg, f)).value;
      AdmitAll(cfg, u, u.active.value, f, WindowOf(cfg, f), Sort(rows)).Err?
    ensures Next(cfg, t, f, rows).Err?
  {
    hide Rotate, AdmitAll, Sort;
  }

  /** An accepted block: rotated, admitted, and about to complete its pairs. */
  lemma BlockAccepted(cfg: Config, t: Tables, f: Frame, rows: seq<Row>, u: Tables, w: Tables)
    requires f.block == t.cursor + 1 && f.epoch >= cfg.activationEpoch && Rotate(cfg, t, f, WindowOf(cfg, f)) == Ok(u)
    requires Keyed(u) && u.active.Some? && AdmitAll(cfg, u, u.active.value, f, WindowOf(cfg, f), Sort(rows)) == Ok(w)
    ensures OneModelEach(u.active.value)
    ensures Next(cfg, t, f, rows) == Ok(CompleteOf(w, u.active.value).(cursor := f.block))
    ensures Keyed(CompleteOf(w, u.active.value).(cursor := f.block))
  {
    hide Rotate, AdmitAll, Sort, Unique, OneModelEach, Consume;
    AdmitAllKeyed(cfg, u, u.active.value, f, WindowOf(cfg, f), Sort(rows));
  }

  /** One refused row refuses the block. */
  lemma {:induction false} RowRefused(cfg: Config, t: Tables, o: Opening, f: Frame, window: nat, rows: seq<Row>, i: nat)
    requires i <= |rows| && AdmitAll(cfg, t, o, f, window, rows[..i]).Err?
    ensures AdmitAll(cfg, t, o, f, window, rows).Err?
    decreases |rows| - i
  {
    if i == |rows| {
      assert rows[..i] == rows;
    } else {
      assert rows[..i + 1][..i] == rows[..i];
      hide Admit;
      RowRefused(cfg, t, o, f, window, rows, i + 1);
    }
  }
}
