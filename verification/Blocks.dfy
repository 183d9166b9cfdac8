/** What one finalized block adds to the tables of the ledger, said of its rows instead of a loop over them. */
module Blocks {
  import opened Common
  import opened Wire
  import opened Decide
  import opened LedgerSpec
  import opened LedgerPanel
  import opened LedgerHistory
  import opened LedgerRuns
  import opened Succession
  import Consensus
  import Ordering
  import Verdict

  // ---------------------------------------------------------------- what a row says

  /** A registered hotkey publishes a manifest, the first half of 64 bytes after the prefix. */
  ghost predicate Offers(f: Frame, row: Row, h: Hotkey, manifest: seq<byte>)
  {
    && row.hotkey == h && h in f.uids && 4 <= |row.value| <= 128 && row.value[..4] == "wm2|"
    && exists raw :: DecodeBytes(row.value[4..], 64) == Ok(raw) && manifest == raw[..32]
  }

  ghost predicate Offered(f: Frame, rows: seq<Row>, h: Hotkey)
  {
    exists row, manifest :: row in rows && Offers(f, row, h, manifest)
  }

  /** The least value by which `h` submits in this block. */
  ghost predicate FirstOffer(f: Frame, rows: seq<Row>, row: Row, h: Hotkey, manifest: seq<byte>)
  {
    && row in rows && Offers(f, row, h, manifest)
    && forall y, n :: y in rows && Offers(f, y, h, n) ==> !Ordering.Less(y.value, row.value)
  }

  /** A full measurement of panel submission `m`, reported by a validator of the block. */
  ghost predicate Reads(o: Opening, f: Frame, row: Row, v: Hotkey, m: ModelId)
  {
    row.hotkey == v && v in f.validators && m in o.candidates && Parse(row.value).Ok? &&
    var r := Parse(row.value).value;
    && r.window == o.id && r.policy == (if |o.policy| <= 24 then o.policy else o.policy[..24])
    && !Verdict.KingScore(r) && !Verdict.Bound(r) && r.modelId == m && r.uid == o.candidates[m].uid
  }

  ghost predicate Measured(o: Opening, f: Frame, rows: seq<Row>, v: Hotkey, m: ModelId)
  {
    exists row :: row in rows && Reads(o, f, row, v, m)
  }

  ghost predicate FirstRead(o: Opening, f: Frame, rows: seq<Row>, row: Row, v: Hotkey, m: ModelId)
  {
    row in rows && Reads(o, f, row, v, m)
      && forall y :: y in rows && Reads(o, f, y, v, m) ==> !Ordering.Less(y.value, row.value)
  }

  // ---------------------------------------------------------------- order within a block

  /** The values of one hotkey ascend. */
  ghost predicate Ascending(rows: seq<Row>)
  {
    forall i, j :: 0 <= i < j < |rows| && rows[i].hotkey == rows[j].hotkey ==>
      !Ordering.Less(rows[j].value, rows[i].value)
  }

  predicate OfBlock(f: Frame, rows: seq<Row>) { forall x :: x in rows ==> x.block == f.block }

  lemma RowsAscend(a: Row, b: Row)
    requires RowLeq(a, b) && a.block == b.block && a.hotkey == b.hotkey
    ensures !Ordering.Less(b.value, a.value)
  {
    Ordering.LessIrreflexive(a.hotkey);
    Ordering.LessIrreflexive(a.value);
    if Ordering.Less(a.value, b.value) && Ordering.Less(b.value, a.value) {
      Ordering.LessTransitive(a.value, b.value, a.value);
    }
  }

  lemma SortedAscends(f: Frame, rows: seq<Row>)
    requires OfBlock(f, rows)
    ensures Ascending(Sort(rows)) && OfBlock(f, Sort(rows)) && forall x :: x in Sort(rows) <==> x in rows
  {
    Consensus.SortSorts(rows);
    var s := Sort(rows);
    hide Sort;
    forall i, j | 0 <= i < j < |s| && s[i].hotkey == s[j].hotkey
      ensures !Ordering.Less(s[j].value, s[i].value)
    {
      assert s[i] in s && s[j] in s;
      RowsAscend(s[i], s[j]);
    }
  }

  lemma AscendingFront(rows: seq<Row>)
    requires rows != [] && Ascending(rows)
    ensures var n := |rows| - 1;
      && Ascending(rows[..n]) && (forall y :: y in rows <==> y in rows[..n] || y == rows[n])
      && forall y :: y in rows[..n] && y.hotkey == rows[n].hotkey ==> !Ordering.Less(rows[n].value, y.value)
  {
    assert rows == rows[..|rows| - 1] + [rows[|rows| - 1]];
  }

  // ---------------------------------------------------------------- which blocks are refused

  /** The row is of this block, and a submitting hotkey has an owner. */
  ghost predicate Admits(f: Frame, row: Row)
  {
    row.block == f.block && (row.hotkey in f.coldkeys || forall manifest :: !Offers(f, row, row.hotkey, manifest))
  }

  lemma ParsedOffer(f: Frame, row: Row)
    ensures ParseSubmission(row.value).Ok? && row.hotkey in f.uids ==>
      Offers(f, row, row.hotkey, ParseSubmission(row.value).value)
    ensures forall h, manifest :: Offers(f, row, h, manifest) ==>
      h == row.hotkey && h in f.uids && ParseSubmission(row.value) == Ok(manifest)
  {
    var p := SUBMISSION_PREFIX + "|";
    assert p == "wm2|";
    assert p <= row.value <==> |row.value| >= 4 && row.value[..4] == p;
    hide DecodeBytes;
  }

  lemma AdmitsRow(cfg: Config, t: Tables, o: Opening, f: Frame, window: nat, row: Row)
    ensures Admit(cfg, t, o, f, window, row).Ok? <==> Admits(f, row)
  {
    ParsedOffer(f, row);
    hide ParseSubmission, Offers, Record;
  }

  lemma {:induction false} AdmitsAll(cfg: Config, t: Tables, o: Opening, f: Frame, window: nat, rows: seq<Row>)
    ensures AdmitAll(cfg, t, o, f, window, rows).Ok? <==> forall x :: x in rows ==> Admits(f, x)
    decreases |rows|
  {
    hide Admits, Admit;
    if rows != [] {
      var n := |rows| - 1;
      AdmitsAll(cfg, t, o, f, window, rows[..n]);
      assert rows == rows[..n] + [rows[n]];
      if AdmitAll(cfg, t, o, f, window, rows[..n]).Ok? {
        AdmitsRow(cfg, AdmitAll(cfg, t, o, f, window, rows[..n]).value, o, f, window, rows[n]);
      }
    }
  }

  // ---------------------------------------------------------------- submissions

  /** A submission carries the uid and the owner of its block, and a challenge bound to its hotkey. */
  predicate Entry(cfg: Config, f: Frame, row: Row, manifest: seq<byte>, x: Submission)
  {
    && row.hotkey in f.uids && row.hotkey in f.coldkeys
    && x.candidate.hotkey == row.hotkey && x.candidate.uid == f.uids[row.hotkey] && x.candidate.block == f.block
    && x.candidate.modelId == cfg.challenge(row.hotkey, manifest)
    && x.coldkey == f.coldkeys[row.hotkey] && x.manifest == manifest && x.value == row.value
  }

  /** Hotkeys without a submission enter with the first one they publish; the others stay as they are. */
  ghost predicate Registers(cfg: Config, before: seq<Submission>, f: Frame, rows: seq<Row>, now: seq<Submission>)
  {
    && (forall x :: x in before ==> x in now)
    && (forall h :: Submitted(now, h) <==> Submitted(before, h) || Offered(f, rows, h))
    && (forall x :: x in now ==> x in before || Enters(cfg, before, f, rows, x))
  }

  ghost predicate Enters(cfg: Config, before: seq<Submission>, f: Frame, rows: seq<Row>, x: Submission)
  {
    !Submitted(before, x.candidate.hotkey) &&
    exists row: Row, manifest :: FirstOffer(f, rows, row, row.hotkey, manifest) && Entry(cfg, f, row, manifest, x)
  }

  lemma OfferedMore(f: Frame, rows: seq<Row>, x: Row, h: Hotkey)
    ensures Offered(f, rows + [x], h) <==> Offered(f, rows, h) || exists manifest :: Offers(f, x, h, manifest)
  {
    Verdict.InMore(rows, x);
    hide Offers;
    if Offered(f, rows, h) {
      var row, manifest :| row in rows && Offers(f, row, h, manifest);
      assert row in rows + [x];
    }
    if manifest :| Offers(f, x, h, manifest) {
      assert x in rows + [x];
    }
  }

  lemma FirstOfferMore(f: Frame, rows: seq<Row>, x: Row, row: Row, manifest: seq<byte>)
    requires forall y :: y in rows && y.hotkey == x.hotkey ==> !Ordering.Less(x.value, y.value)
    requires FirstOffer(f, rows, row, row.hotkey, manifest)
    ensures FirstOffer(f, rows + [x], row, row.hotkey, manifest)
  {
    Verdict.InMore(rows, x);
  }

  lemma NewFirstOffer(f: Frame, rows: seq<Row>, x: Row, manifest: seq<byte>)
    requires Offers(f, x, x.hotkey, manifest) && !Offered(f, rows, x.hotkey)
    ensures FirstOffer(f, rows + [x], x, x.hotkey, manifest)
  {
    Verdict.InMore(rows, x);
    Ordering.LessIrreflexive(x.value);
    hide Offers;
  }

  lemma EntersMore(cfg: Config, before: seq<Submission>, f: Frame, rows: seq<Row>, x: Row, y: Submission)
    requires forall z :: z in rows && z.hotkey == x.hotkey ==> !Ordering.Less(x.value, z.value)
    requires Enters(cfg, before, f, rows, y)
    ensures Enters(cfg, before, f, rows + [x], y)
  {
    hide FirstOffer, Entry;
    var row: Row, manifest :| FirstOffer(f, rows, row, row.hotkey, manifest) && Entry(cfg, f, row, manifest, y);
    FirstOfferMore(f, rows, x, row, manifest);
  }

  lemma SubmittedMore(list: seq<Submission>, x: Submission, h: Hotkey)
    ensures Submitted(list + [x], h) <==> Submitted(list, h) || x.candidate.hotkey == h
  {
    if Submitted(list, h) {
      var y :| y in list && y.candidate.hotkey == h;
      assert y in list + [x];
    }
    assert x in list + [x];
  }

  /** One row either enters its hotkey or leaves the submissions alone. */
  lemma SubmitMeans(cfg: Config, t: Tables, f: Frame, row: Row) returns (x: Submission, manifest: seq<byte>)
    requires Admits(f, row)
    ensures Submit(cfg, t, f, row).Ok?
    ensures var list := Submit(cfg, t, f, row).value.submissions;
      && Submit(cfg, t, f, row).value == t.(submissions := list)
      && if (exists n :: Offers(f, row, row.hotkey, n)) && !Submitted(t.submissions, row.hotkey)
         then Offers(f, row, row.hotkey, manifest) && Entry(cfg, f, row, manifest, x) && list == t.submissions + [x]
         else list == t.submissions
  {
    ParsedOffer(f, row);
    hide ParseSubmission, Offers, Submitted;
    x, manifest := Submission(Candidate("", 0, "", 0), "", [], ""), [];
    if ParseSubmission(row.value).Ok? && row.hotkey in f.uids && !Submitted(t.submissions, row.hotkey) {
      manifest := ParseSubmission(row.value).value;
      x := Submit(cfg, t, f, row).value.submissions[|t.submissions|];
    }
  }

  lemma OffersOwn(f: Frame, x: Row, h: Hotkey)
    ensures forall manifest :: Offers(f, x, h, manifest) ==> h == x.hotkey
  {
  }

  lemma RegistersMore(cfg: Config, before: seq<Submission>, f: Frame, rows: seq<Row>, t: Tables, x: Row)
    requires Registers(cfg, before, f, rows, t.submissions) && Admits(f, x)
    requires forall z :: z in rows && z.hotkey == x.hotkey ==> !Ordering.Less(x.value, z.value)
    ensures Submit(cfg, t, f, x).Ok? && Registers(cfg, before, f, rows + [x], Submit(cfg, t, f, x).value.submissions)
    ensures Submit(cfg, t, f, x).value == t.(submissions := Submit(cfg, t, f, x).value.submissions)
  {
    var y, manifest := SubmitMeans(cfg, t, f, x);
    var now := Submit(cfg, t, f, x).value.submissions;
    hide Offers, Submit, Admits, Submitted, Enters, Offered;
    forall h
      ensures Submitted(now, h) <==> Submitted(before, h) || Offered(f, rows + [x], h)
    {
      SubmittedMore(t.submissions, y, h);
      OfferedMore(f, rows, x, h);
      OffersOwn(f, x, h);
    }
    forall z | z in now
      ensures z in before || Enters(cfg, before, f, rows + [x], z)
    {
      if z !in before {
        if z in t.submissions {
          EntersMore(cfg, before, f, rows, x, z);
        } else {
          NewFirstOffer(f, rows, x, manifest);
          EntersNow(cfg, before, f, rows + [x], x, manifest, z);
        }
      }
    }
  }

  lemma EntersNow(cfg: Config, before: seq<Submission>, f: Frame, rows: seq<Row>, x: Row, manifest: seq<byte>,
                  y: Submission)
    requires FirstOffer(f, rows, x, x.hotkey, manifest) && Entry(cfg, f, x, manifest, y)
    requires !Submitted(before, x.hotkey)
    ensures Enters(cfg, before, f, rows, y)
  {
  }

  lemma NothingRegistered(cfg: Config, before: seq<Submission>, f: Frame)
    ensures Registers(cfg, before, f, [], before)
  {
  }

  // ---------------------------------------------------------------- measurements

  /** Under a king every first measurement of a pair is a use; nothing else becomes one. */
  ghost predicate Consumes(o: Opening, f: Frame, rows: seq<Row>, u: Tables, w: Tables)
  {
    && w.pending == u.pending && Extends(u.uses, w.uses)
    && (forall v, m :: m in o.candidates && Measured(o, f, rows, v, m) ==> (v, o.candidates[m].hotkey) in w.uses)
    && (forall k :: k in w.uses && k !in u.uses ==> Consumed(o, f, rows, k, w.uses[k]))
  }

  ghost predicate Consumed(o: Opening, f: Frame, rows: seq<Row>, k: (Hotkey, Hotkey), use: Use)
  {
    exists row, m ::
      && FirstRead(o, f, rows, row, k.0, m) && m in o.candidates && o.candidates[m].hotkey == k.1
      && use == Use(o.id, row.value)
  }

  /** Without a king it waits for its counterpart, unless the evaluator has used that hotkey before. */
  ghost predicate Waits(o: Opening, f: Frame, rows: seq<Row>, u: Tables, w: Tables)
  {
    && w.uses == u.uses && (forall p :: p in u.pending ==> p in w.pending && w.pending[p] == u.pending[p])
    && (forall v, m :: m in o.candidates && Measured(o, f, rows, v, m) && (v, o.candidates[m].hotkey) !in u.uses ==>
          Slot(v, o.id, m) in w.pending)
    && (forall p :: p in w.pending && p !in u.pending ==> Waited(o, f, rows, u, p, w.pending[p]))
  }

  ghost predicate Waited(o: Opening, f: Frame, rows: seq<Row>, u: Tables, p: Slot, value: string)
  {
    && p.window == o.id && p.model in o.candidates && (p.evaluator, o.candidates[p.model].hotkey) !in u.uses
    && exists row :: FirstRead(o, f, rows, row, p.evaluator, p.model) && value == row.value
  }

  ghost predicate Measurements(o: Opening, f: Frame, rows: seq<Row>, u: Tables, w: Tables)
  {
    if o.king.Some? then Consumes(o, f, rows, u, w) else Waits(o, f, rows, u, w)
  }

  lemma ReadsMeasures(o: Opening, f: Frame, row: Row, m: ModelId)
    ensures Reads(o, f, row, row.hotkey, m) <==> Measures(o, f, o.id, row) && Parse(row.value).value.modelId == m
  {
    hide Parse;
  }

  lemma MeasuredMore(o: Opening, f: Frame, rows: seq<Row>, x: Row, v: Hotkey, m: ModelId)
    ensures Measured(o, f, rows + [x], v, m) <==> Measured(o, f, rows, v, m) || Reads(o, f, x, v, m)
  {
    Verdict.InMore(rows, x);
    hide Reads;
    if Measured(o, f, rows, v, m) {
      var row :| row in rows && Reads(o, f, row, v, m);
      assert row in rows + [x];
    }
    assert x in rows + [x];
  }

  lemma FirstReadMore(o: Opening, f: Frame, rows: seq<Row>, x: Row, row: Row, v: Hotkey, m: ModelId)
    requires forall y :: y in rows && y.hotkey == x.hotkey ==> !Ordering.Less(x.value, y.value)
    requires FirstRead(o, f, rows, row, v, m)
    ensures FirstRead(o, f, rows + [x], row, v, m)
  {
    Verdict.InMore(rows, x);
    hide Parse;
  }

  lemma NewFirstRead(o: Opening, f: Frame, rows: seq<Row>, x: Row, v: Hotkey, m: ModelId)
    requires Reads(o, f, x, v, m) && !Measured(o, f, rows, v, m)
    ensures FirstRead(o, f, rows + [x], x, v, m)
  {
    Verdict.InMore(rows, x);
    Ordering.LessIrreflexive(x.value);
    hide Reads;
  }

  lemma ConsumedMore(o: Opening, f: Frame, rows: seq<Row>, x: Row, k: (Hotkey, Hotkey), use: Use)
    requires forall y :: y in rows && y.hotkey == x.hotkey ==> !Ordering.Less(x.value, y.value)
    requires Consumed(o, f, rows, k, use)
    ensures Consumed(o, f, rows + [x], k, use)
  {
    hide FirstRead;
    var row, m :| FirstRead(o, f, rows, row, k.0, m) && m in o.candidates && o.candidates[m].hotkey == k.1
                  && use == Use(o.id, row.value);
    FirstReadMore(o, f, rows, x, row, k.0, m);
  }

  lemma WaitedMore(o: Opening, f: Frame, rows: seq<Row>, x: Row, u: Tables, p: Slot, value: string)
    requires forall y :: y in rows && y.hotkey == x.hotkey ==> !Ordering.Less(x.value, y.value)
    requires Waited(o, f, rows, u, p, value)
    ensures Waited(o, f, rows + [x], u, p, value)
  {
    hide FirstRead;
    var row :| FirstRead(o, f, rows, row, p.evaluator, p.model) && value == row.value;
    FirstReadMore(o, f, rows, x, row, p.evaluator, p.model);
  }

  /** What one row does under a king. */
  lemma RecordUnderKing(t: Tables, o: Opening, f: Frame, x: Row) returns (m: ModelId)
    requires o.king.Some?
    ensures var w := Record(t, o, f, o.id, x);
      && w == t.(uses := w.uses)
      && if Reads(o, f, x, x.hotkey, m)
         then w.uses == InsertUse(t.uses, (x.hotkey, o.candidates[m].hotkey), Use(o.id, x.value))
         else w.uses == t.uses && forall n :: !Reads(o, f, x, x.hotkey, n)
    ensures forall v, n :: Reads(o, f, x, v, n) ==> v == x.hotkey && n == m
  {
    m := if Parse(x.value).Ok? then Parse(x.value).value.modelId else "";
    ReadsMeasures(o, f, x, m);
    forall v, n | Reads(o, f, x, v, n)
      ensures v == x.hotkey && n == m
    {
    }
    hide Parse, Reads, Measures;
  }

  lemma RecordWithoutKing(t: Tables, o: Opening, f: Frame, x: Row) returns (m: ModelId)
    requires o.king == None
    ensures var w := Record(t, o, f, o.id, x);
      && w == t.(pending := w.pending)
      && if Reads(o, f, x, x.hotkey, m) && (x.hotkey, o.candidates[m].hotkey) !in t.uses
         then w.pending == if Slot(x.hotkey, o.id, m) in t.pending then t.pending
                           else t.pending[Slot(x.hotkey, o.id, m) := x.value]
         else w.pending == t.pending
    ensures forall v, n :: Reads(o, f, x, v, n) ==> v == x.hotkey && n == m
  {
    m := if Parse(x.value).Ok? then Parse(x.value).value.modelId else "";
    ReadsMeasures(o, f, x, m);
    forall v, n | Reads(o, f, x, v, n)
      ensures v == x.hotkey && n == m
    {
    }
    hide Parse, Reads, Measures;
  }

  lemma ConsumesMore(o: Opening, f: Frame, rows: seq<Row>, u: Tables, t: Tables, x: Row)
    requires o.king.Some? && Consumes(o, f, rows, u, t)
    requires forall y :: y in rows && y.hotkey == x.hotkey ==> !Ordering.Less(x.value, y.value)
    ensures Consumes(o, f, rows + [x], u, Record(t, o, f, o.id, x))
  {
    var w := Record(t, o, f, o.id, x);
    var m := RecordUnderKing(t, o, f, x);
    hide Reads, Record, Measured, Consumed;
    StillUsed(u, t, w);
    hide Extends;
    forall v, n | n in o.candidates && Measured(o, f, rows + [x], v, n)
      ensures (v, o.candidates[n].hotkey) in w.uses
    {
      MeasuredMore(o, f, rows, x, v, n);
    }
    forall k | k in w.uses && k !in u.uses
      ensures Consumed(o, f, rows + [x], k, w.uses[k])
    {
      ConsumedOne(o, f, rows, u, t, x, m, k);
    }
  }

  lemma StillUsed(u: Tables, t: Tables, w: Tables)
    requires Extends(u.uses, t.uses)
    requires w.uses == t.uses || exists k, use :: w.uses == InsertUse(t.uses, k, use)
    ensures Extends(u.uses, w.uses) && Extends(t.uses, w.uses)
  {
  }

  lemma ConsumedOne(o: Opening, f: Frame, rows: seq<Row>, u: Tables, t: Tables, x: Row, m: ModelId,
                    k: (Hotkey, Hotkey))
    requires o.king.Some? && Consumes(o, f, rows, u, t) && k !in u.uses && k in Record(t, o, f, o.id, x).uses
    requires forall y :: y in rows && y.hotkey == x.hotkey ==> !Ordering.Less(x.value, y.value)
    requires var w := Record(t, o, f, o.id, x);
      if Reads(o, f, x, x.hotkey, m)
      then w.uses == InsertUse(t.uses, (x.hotkey, o.candidates[m].hotkey), Use(o.id, x.value))
      else w.uses == t.uses
    ensures Consumed(o, f, rows + [x], k, Record(t, o, f, o.id, x).uses[k])
  {
    hide Reads, Record, Measured, Consumed, Extends;
    if k in t.uses {
      ConsumedMore(o, f, rows, x, k, t.uses[k]);
    } else {
      ConsumedNow(o, f, rows, t, x, m, k);
    }
  }

  lemma ConsumedNow(o: Opening, f: Frame, rows: seq<Row>, t: Tables, x: Row, m: ModelId, k: (Hotkey, Hotkey))
    requires Reads(o, f, x, x.hotkey, m) && k == (x.hotkey, o.candidates[m].hotkey) && k !in t.uses
    requires forall v, n :: n in o.candidates && Measured(o, f, rows, v, n) ==> (v, o.candidates[n].hotkey) in t.uses
    ensures Consumed(o, f, rows + [x], k, Use(o.id, x.value))
  {
    NewFirstRead(o, f, rows, x, x.hotkey, m);
    hide FirstRead, Measured;
  }

  lemma WaitsMore(o: Opening, f: Frame, rows: seq<Row>, u: Tables, t: Tables, x: Row)
    requires o.king == None && Waits(o, f, rows, u, t)
    requires forall y :: y in rows && y.hotkey == x.hotkey ==> !Ordering.Less(x.value, y.value)
    ensures Waits(o, f, rows + [x], u, Record(t, o, f, o.id, x))
  {
    var w := Record(t, o, f, o.id, x);
    var m := RecordWithoutKing(t, o, f, x);
    hide Reads, Record, Measured, Waited;
    forall v, n | n in o.candidates && Measured(o, f, rows + [x], v, n) && (v, o.candidates[n].hotkey) !in u.uses
      ensures Slot(v, o.id, n) in w.pending
    {
      WaitsNow(o, f, rows, u, t, x, m, v, n, w);
    }
    forall p | p in w.pending && p !in u.pending
      ensures Waited(o, f, rows + [x], u, p, w.pending[p])
    {
      WaitedOne(o, f, rows, u, t, x, m, p, w);
    }
  }

  lemma WaitsNow(o: Opening, f: Frame, rows: seq<Row>, u: Tables, t: Tables, x: Row, m: ModelId, v: Hotkey, n: ModelId,
                 w: Tables)
    requires Waits(o, f, rows, u, t) && n in o.candidates && Measured(o, f, rows + [x], v, n)
    requires (v, o.candidates[n].hotkey) !in u.uses
    requires forall y, l :: Reads(o, f, x, y, l) ==> y == x.hotkey && l == m
    requires if Reads(o, f, x, x.hotkey, m) && (x.hotkey, o.candidates[m].hotkey) !in t.uses
      then w.pending == if Slot(x.hotkey, o.id, m) in t.pending then t.pending
                        else t.pending[Slot(x.hotkey, o.id, m) := x.value]
      else w.pending == t.pending
    ensures Slot(v, o.id, n) in w.pending
  {
    hide Reads, Measured, Waited;
    MeasuredMore(o, f, rows, x, v, n);
  }

  lemma WaitedOne(o: Opening, f: Frame, rows: seq<Row>, u: Tables, t: Tables, x: Row, m: ModelId, p: Slot, w: Tables)
    requires Waits(o, f, rows, u, t) && p !in u.pending && p in w.pending
    requires forall y :: y in rows && y.hotkey == x.hotkey ==> !Ordering.Less(x.value, y.value)
    requires if Reads(o, f, x, x.hotkey, m) && (x.hotkey, o.candidates[m].hotkey) !in t.uses
      then w.pending == if Slot(x.hotkey, o.id, m) in t.pending then t.pending
                        else t.pending[Slot(x.hotkey, o.id, m) := x.value]
      else w.pending == t.pending
    ensures Waited(o, f, rows + [x], u, p, w.pending[p])
  {
    hide Reads, Measured, Waited;
    if p in t.pending {
      WaitedMore(o, f, rows, x, u, p, t.pending[p]);
    } else {
      WaitedNow(o, f, rows, u, t, x, m, p);
    }
  }

  lemma WaitedNow(o: Opening, f: Frame, rows: seq<Row>, u: Tables, t: Tables, x: Row, m: ModelId, p: Slot)
    requires Reads(o, f, x, x.hotkey, m) && p == Slot(x.hotkey, o.id, m) && p !in t.pending
    requires (x.hotkey, o.candidates[m].hotkey) !in u.uses
    requires forall v, n ::
      n in o.candidates && Measured(o, f, rows, v, n) && (v, o.candidates[n].hotkey) !in u.uses ==>
      Slot(v, o.id, n) in t.pending
    ensures Waited(o, f, rows + [x], u, p, x.value)
  {
    NewFirstRead(o, f, rows, x, x.hotkey, m);
    hide FirstRead, Measured;
  }

  lemma NothingMeasured(o: Opening, f: Frame, u: Tables)
    ensures Measurements(o, f, [], u, u)
  {
  }

  lemma SameMeasurements(o: Opening, f: Frame, rows: seq<Row>, u: Tables, t: Tables, w: Tables)
    requires Measurements(o, f, rows, u, t) && w.uses == t.uses && w.pending == t.pending
    ensures Measurements(o, f, rows, u, w)
  {
    hide Measured, Consumed, Waited;
  }

  // ---------------------------------------------------------------- a whole block

  /** Everything the rows of a block leave in the tables. */
  ghost predicate Absorbs(cfg: Config, u: Tables, o: Opening, f: Frame, rows: seq<Row>, w: Tables)
  {
    && (forall x :: x in w.commitments <==> x in u.commitments || x in rows)
    && Registers(cfg, u.submissions, f, rows, w.submissions) && Measurements(o, f, rows, u, w)
  }

  lemma AbsorbsRow(cfg: Config, u: Tables, o: Opening, f: Frame, rows: seq<Row>, t: Tables, x: Row)
    requires OneModelEach(o) && Absorbs(cfg, u, o, f, rows, t) && Admits(f, x)
    requires forall y :: y in rows && y.hotkey == x.hotkey ==> !Ordering.Less(x.value, y.value)
    ensures Admit(cfg, t, o, f, o.id, x).Ok? && Absorbs(cfg, u, o, f, rows + [x], Admit(cfg, t, o, f, o.id, x).value)
  {
    var added := t.(commitments := AddRow(t.commitments, x));
    hide Record, Submit, Registers, Measurements, OneModelEach;
    assert x.block == f.block;
    RegistersMore(cfg, u.submissions, f, rows, added, x);
    hide Admits;
    var sent := Submit(cfg, added, f, x).value;
    SameMeasurements(o, f, rows, u, t, sent);
    MeasurementsMore(o, f, rows, u, sent, x);
  }

  lemma MeasurementsMore(o: Opening, f: Frame, rows: seq<Row>, u: Tables, t: Tables, x: Row)
    requires OneModelEach(o) && Measurements(o, f, rows, u, t)
    requires forall y :: y in rows && y.hotkey == x.hotkey ==> !Ordering.Less(x.value, y.value)
    ensures var w := Record(t, o, f, o.id, x);
      Measurements(o, f, rows + [x], u, w) && w == t.(uses := w.uses, pending := w.pending)
  {
    RecordTables(t, o, f, x);
    hide Record, Consumes, Waits, OneModelEach;
    if o.king.Some? {
      ConsumesMore(o, f, rows, u, t, x);
    } else {
      WaitsMore(o, f, rows, u, t, x);
    }
  }

  lemma RecordTables(t: Tables, o: Opening, f: Frame, x: Row)
    ensures var w := Record(t, o, f, o.id, x); w == t.(uses := w.uses, pending := w.pending)
  {
    hide Parse, Measures;
  }

  lemma NothingAbsorbed(cfg: Config, u: Tables, o: Opening, f: Frame)
    ensures Absorbs(cfg, u, o, f, [], u)
  {
    NothingRegistered(cfg, u.submissions, f);
    NothingMeasured(o, f, u);
    hide Registers, Measurements;
  }

  lemma {:induction false} AdmitAllAbsorbs(cfg: Config, u: Tables, o: Opening, f: Frame, rows: seq<Row>)
    requires OneModelEach(o) && Ascending(rows) && AdmitAll(cfg, u, o, f, o.id, rows).Ok?
    ensures Absorbs(cfg, u, o, f, rows, AdmitAll(cfg, u, o, f, o.id, rows).value)
    decreases |rows|
  {
    hide Absorbs, Ascending, Admits, Admit, OneModelEach;
    if rows == [] {
      NothingAbsorbed(cfg, u, o, f);
    } else {
      var n := |rows| - 1;
      AscendingFront(rows);
      AdmitsAll(cfg, u, o, f, o.id, rows);
      AdmitAllAbsorbs(cfg, u, o, f, rows[..n]);
      AbsorbsRow(cfg, u, o, f, rows[..n], AdmitAll(cfg, u, o, f, o.id, rows[..n]).value, rows[n]);
      assert rows == rows[..n] + [rows[n]];
    }
  }

  /** Only the set of rows matters, not the list that carries it. */
  lemma AbsorbsSame(cfg: Config, u: Tables, o: Opening, f: Frame, a: seq<Row>, b: seq<Row>, w: Tables)
    requires Absorbs(cfg, u, o, f, a, w) && forall x :: x in a <==> x in b
    ensures Absorbs(cfg, u, o, f, b, w)
  {
    RegistersSame(cfg, u.submissions, f, a, b, w.submissions);
    hide Registers;
    hide Consumes, Waits;
    if o.king.Some? {
      ConsumesSame(o, f, a, b, u, w);
    } else {
      WaitsSame(o, f, a, b, u, w);
    }
  }

  lemma SameReads(o: Opening, f: Frame, a: seq<Row>, b: seq<Row>, v: Hotkey, m: ModelId)
    requires forall x :: x in a <==> x in b
    ensures Measured(o, f, a, v, m) <==> Measured(o, f, b, v, m)
    ensures forall row :: FirstRead(o, f, a, row, v, m) ==> FirstRead(o, f, b, row, v, m)
  {
    hide Reads;
  }

  lemma ConsumesSame(o: Opening, f: Frame, a: seq<Row>, b: seq<Row>, u: Tables, w: Tables)
    requires Consumes(o, f, a, u, w) && forall x :: x in a <==> x in b
    ensures Consumes(o, f, b, u, w)
  {
    hide Measured, FirstRead, Extends;
    forall v, m | m in o.candidates && Measured(o, f, b, v, m)
      ensures (v, o.candidates[m].hotkey) in w.uses
    {
      SameReads(o, f, a, b, v, m);
    }
    forall k | k in w.uses && k !in u.uses
      ensures Consumed(o, f, b, k, w.uses[k])
    {
      var row, m :| FirstRead(o, f, a, row, k.0, m) && m in o.candidates && o.candidates[m].hotkey == k.1
                    && w.uses[k] == Use(o.id, row.value);
      SameReads(o, f, a, b, k.0, m);
    }
  }

  lemma WaitsSame(o: Opening, f: Frame, a: seq<Row>, b: seq<Row>, u: Tables, w: Tables)
    requires Waits(o, f, a, u, w) && forall x :: x in a <==> x in b
    ensures Waits(o, f, b, u, w)
  {
    hide Measured, FirstRead;
    forall v, m | m in o.candidates && Measured(o, f, b, v, m) && (v, o.candidates[m].hotkey) !in u.uses
      ensures Slot(v, o.id, m) in w.pending
    {
      SameReads(o, f, a, b, v, m);
    }
    forall p | p in w.pending && p !in u.pending
      ensures Waited(o, f, b, u, p, w.pending[p])
    {
      var row :| FirstRead(o, f, a, row, p.evaluator, p.model) && w.pending[p] == row.value;
      SameReads(o, f, a, b, p.evaluator, p.model);
    }
  }

  lemma RegistersSame(cfg: Config, before: seq<Submission>, f: Frame, a: seq<Row>, b: seq<Row>, now: seq<Submission>)
    requires Registers(cfg, before, f, a, now) && forall x :: x in a <==> x in b
    ensures Registers(cfg, before, f, b, now)
  {
    hide Offers, Submitted, Entry;
    assert forall h :: Offered(f, a, h) <==> Offered(f, b, h);
    forall x | x in now && x !in before
      ensures Enters(cfg, before, f, b, x)
    {
      var row: Row, manifest :| FirstOffer(f, a, row, row.hotkey, manifest) && Entry(cfg, f, row, manifest, x);
      assert FirstOffer(f, b, row, row.hotkey, manifest);
    }
  }

  // ---------------------------------------------------------------- first pairs

  /** A first pair becomes two uses as soon as one evaluator has reported on both of it. */
  ghost predicate Completes(o: Opening, w: Tables, r: Tables)
  {
    && r.submissions == w.submissions && r.pending == w.pending && r.commitments == w.commitments
    && Extends(w.uses, r.uses)
    && (forall v, m :: m in o.candidates && o.king == None && |o.candidates| == 2 && BothWait(o, w, v) ==>
          (v, o.candidates[m].hotkey) in r.uses)
    && (forall k :: k in r.uses && k !in w.uses ==>
          o.king == None && |o.candidates| == 2 && BothWait(o, w, k.0) && FromPending(o, w, k, r.uses[k]))
  }

  ghost predicate BothWait(o: Opening, w: Tables, v: Hotkey)
  {
    forall m :: m in o.candidates ==> Slot(v, o.id, m) in w.pending
  }

  ghost predicate FromPending(o: Opening, w: Tables, k: (Hotkey, Hotkey), use: Use)
  {
    exists m :: m in o.candidates && o.candidates[m].hotkey == k.1 && Slot(k.0, o.id, m) in w.pending
                && use == Use(o.id, w.pending[Slot(k.0, o.id, m)])
  }

  lemma PendingListed(w: Tables, o: Opening, now: int, p: Slot)
    requires InProgress(w, o, now) && p in w.pending && p.window == o.id
    ensures p.model in o.candidates
  {
    PendingWas(w, p, now);
    hide Sound, Report, PendingArrived;
  }

  lemma CompleteMeans(w: Tables, o: Opening, now: int, v: Hotkey)
    requires InProgress(w, o, now)
    ensures Complete(w.pending, o, v) <==> BothWait(o, w, v)
  {
    hide InProgress;
    forall m | Slot(v, o.id, m) in w.pending
      ensures m in o.candidates
    {
      PendingListed(w, o, now, Slot(v, o.id, m));
    }
    CompletePair(w.pending, o, v);
    hide Complete;
  }

  lemma CompletePair(pending: map<Slot, string>, o: Opening, v: Hotkey)
    requires forall m :: Slot(v, o.id, m) in pending ==> m in o.candidates
    ensures Complete(pending, o, v) <==> forall m :: m in o.candidates ==> Slot(v, o.id, m) in pending
  {
    ReportedMeans(pending, o, v);
    hide Reported;
  }

  lemma ReportedMeans(pending: map<Slot, string>, o: Opening, v: Hotkey)
    ensures forall m :: m in Reported(pending, o.id, v) <==> Slot(v, o.id, m) in pending
  {
  }

  lemma CompletionMeans(w: Tables, o: Opening, now: int)
    requires InProgress(w, o, now)
    ensures Completes(o, w, CompleteOf(w, o))
  {
    var r := CompleteOf(w, o);
    CompletionExtends(w, o);
    CompletionTables(w, o);
    hide InProgress, CompleteOf, Complete, BothWait, FromPending, Extends;
    forall v, m | m in o.candidates && Pairs(o) && BothWait(o, w, v)
      ensures (v, o.candidates[m].hotkey) in r.uses
    {
      CompleteMeans(w, o, now, v);
      BothUsed(w, o, v, m);
    }
    forall k | k in r.uses && k !in w.uses
      ensures Pairs(o) && BothWait(o, w, k.0) && FromPending(o, w, k, r.uses[k])
    {
      CompletedNow(w, o, k);
      CompleteMeans(w, o, now, k.0);
    }
  }

  lemma CompletionTables(w: Tables, o: Opening)
    ensures var r := CompleteOf(w, o);
      r.submissions == w.submissions && r.pending == w.pending && r.commitments == w.commitments
  {
  }

  lemma CompletedNow(w: Tables, o: Opening, k: (Hotkey, Hotkey))
    requires k in CompleteOf(w, o).uses && k !in w.uses
    ensures Pairs(o) && Complete(w.pending, o, k.0) && FromPending(o, w, k, CompleteOf(w, o).uses[k])
  {
    var m := Holder(o, k.1);
    assert m in Reported(w.pending, o.id, k.0);
  }

  lemma BothUsed(w: Tables, o: Opening, v: Hotkey, m: ModelId)
    requires Pairs(o) && m in o.candidates && BothWait(o, w, v) && Complete(w.pending, o, v)
    ensures (v, o.candidates[m].hotkey) in CompleteOf(w, o).uses
  {
    hide Complete;
    assert Slot(v, o.id, m) in w.pending;
    assert v in Evaluators(w.pending, o.id);
    assert o.candidates[m].hotkey in PanelKeys(o);
    hide BothWait;
  }

  // ---------------------------------------------------------------- crossing into another window

  /** The listed submission that an early loss is about. */
  ghost predicate Attempt(o: Opening, l: Loss, k: (Hotkey, Hotkey))
  {
    Parse(l.value).Ok? && Parse(l.value).value.modelId in o.candidates
      && k == (l.hotkey, o.candidates[Parse(l.value).value.modelId].hotkey)
  }

  /** Every definitive loss consumes its attempt, and no other attempt is consumed. */
  ghost predicate Spends(o: Opening, d: Decision, before: Uses, now: Uses)
  {
    && Extends(before, now)
    && (forall l :: l in d.earlyLosses ==> exists k :: Attempt(o, l, k) && k in now)
    && (forall k :: k in now && k !in before ==>
          exists l :: l in d.earlyLosses && Attempt(o, l, k) && now[k] == Use(o.id, l.value))
  }

  /** Some validator of the block has a use of every hotkey of the panel. */
  ghost predicate Judged(o: Opening, f: Frame, uses: Uses)
  {
    o.candidates != map[] && exists v :: v in f.validators && JudgedBy(o, uses, v)
  }

  ghost predicate JudgedBy(o: Opening, uses: Uses, v: Hotkey)
  {
    forall m :: m in o.candidates ==> (v, o.candidates[m].hotkey) in uses
  }

  /** A judged first pair that crowned nobody retires. */
  ghost predicate Retires(o: Opening, f: Frame, d: Decision, uses: Uses, before: set<Hotkey>, now: set<Hotkey>)
  {
    forall h :: h in now <==>
      h in before || (o.king == None && d.winner == None && Judged(o, f, uses)
                      && exists m :: m in o.candidates && o.candidates[m].hotkey == h)
  }

  /** From window 32 on, once, and only under a versioned policy: everything active is archived. */
  ghost predicate Renews(cfg: Config, t: Tables, f: Frame, window: nat, uses: Uses, retired: set<Hotkey>, u: Tables)
  {
    && u.commitments == t.commitments
    && if cfg.versioned && window >= 32 && t.reset == None
       then u.archive == t.archive + [Archive(32, t.submissions, uses, t.pending)] && u.reset == Some(f.block)
            && u.submissions == [] && u.uses == map[] && u.pending == map[] && u.retired == {}
       else u.archive == t.archive && u.reset == t.reset
            && u.submissions == t.submissions && u.uses == uses && u.pending == t.pending && u.retired == retired
  }

  /** Where the rotation stands: past the second of a first pair, and where it was when no pair is seated. */
  ghost predicate Seats(after: Option<Hotkey>, u: Tables)
  {
    u.active.Some? &&
    var o := u.active.value;
    if o.king.Some? || o.candidates == map[] then u.after == after
    else exists m :: m in o.candidates && u.after == Some(o.candidates[m].hotkey)
  }

  lemma LossSpent(o: Opening, front: seq<Loss>, l: Loss, key: (Hotkey, Hotkey), uses: Uses, before: Uses)
    requires Spends(o, Decision(None, {}, front), uses, before) && Attempt(o, l, key)
    ensures Spends(o, Decision(None, {}, front + [l]), uses, InsertUse(before, key, Use(o.id, l.value)))
  {
    hide Attempt;
    var now := InsertUse(before, key, Use(o.id, l.value));
    forall x | x in front + [l]
      ensures exists k :: Attempt(o, x, k) && k in now
    {
      if x in front {
        var k :| Attempt(o, x, k) && k in before;
        assert k in now;
      }
    }
    assert l in front + [l];
  }

  lemma {:induction false} LossesSpent(uses: Uses, o: Opening, losses: seq<Loss>)
    requires forall l :: l in losses ==> LossListed(o, l)
    ensures Spends(o, Decision(None, {}, losses), uses, ConsumeLosses(uses, o, losses))
    decreases |losses|
  {
    hide Parse, Spends;
    if losses == [] {
      NothingSpent(o, uses);
    } else {
      var n := |losses| - 1;
      assert losses == losses[..n] + [losses[n]];
      LossesSpent(uses, o, losses[..n]);
      LossSpent(o, losses[..n], losses[n], LossKey(o, losses[n]), uses, ConsumeLosses(uses, o, losses[..n]));
    }
  }

  lemma NothingSpent(o: Opening, uses: Uses)
    ensures Spends(o, Decision(None, {}, []), uses, uses)
  {
  }

  lemma EvaluatedMeans(uses: Uses, o: Opening, f: Frame)
    ensures Evaluated(uses, o, f) <==> Judged(o, f, uses)
    ensures forall h :: h in PanelKeys(o) <==> exists m :: m in o.candidates && o.candidates[m].hotkey == h
  {
    if m :| m in o.candidates {
      assert o.candidates[m].hotkey in PanelKeys(o);
    }
    forall v
      ensures JudgedBy(o, uses, v) <==> forall h :: h in PanelKeys(o) ==> (v, h) in uses
    {
      forall m | m in o.candidates && forall h :: h in PanelKeys(o) ==> (v, h) in uses
        ensures (v, o.candidates[m].hotkey) in uses
      {
        assert o.candidates[m].hotkey in PanelKeys(o);
      }
    }
  }

  /** The close: losses are spent, a judged first pair retires, the rest stays. */
  ghost predicate Winds(t: Tables, o: Opening, f: Frame, d: Decision, u: Tables)
  {
    && Spends(o, d, t.uses, u.uses) && Retires(o, f, d, u.uses, t.retired, u.retired)
    && u.commitments == t.commitments && u.submissions == t.submissions && u.pending == t.pending
    && u.archive == t.archive && u.reset == t.reset && u.after == t.after
  }

  lemma CloseWinds(t: Tables, o: Opening, f: Frame)
    ensures Winds(t, o, f, DecisionAt(t, o, f), CloseOf(t, o, f))
  {
    var d := DecisionAt(t, o, f);
    EarlyLossesListed(t, o, f);
    LossesSpent(t.uses, o, d.earlyLosses);
    var uses := ConsumeLosses(t.uses, o, d.earlyLosses);
    assert Spends(o, d, t.uses, uses);
    hide DecisionAt, ConsumeLosses, Spends, Evaluated, Judged, LossListed;
    EvaluatedMeans(uses, o, f);
    hide PanelKeys;
  }

  lemma ResetRenews(cfg: Config, t: Tables, f: Frame, window: nat)
    ensures Renews(cfg, t, f, window, t.uses, t.retired, ResetOf(cfg, t, f, window))
  {
  }

  lemma ResetMatters(cfg: Config, t: Tables, f: Frame, window: nat, u: Tables)
    requires OpenOf(cfg, ResetOf(cfg, t, f, window), f, window) == Ok(u)
    ensures Renews(cfg, t, f, window, t.uses, t.retired, u)
    ensures Seats(if cfg.versioned && window >= 32 && t.reset == None then None else t.after, u)
  {
    ResetRenews(cfg, t, f, window);
    OpenSeats(cfg, ResetOf(cfg, t, f, window), f, window);
    ResetAfter(cfg, t, f, window);
    hide ResetOf, PanelList, OpeningOf, Seats;
  }

  lemma ResetAfter(cfg: Config, t: Tables, f: Frame, window: nat)
    ensures ResetOf(cfg, t, f, window).after
         == if cfg.versioned && window >= 32 && t.reset == None then None else t.after
  {
  }

  lemma OpenSeats(cfg: Config, t: Tables, f: Frame, window: nat)
    requires OpenOf(cfg, t, f, window).Ok?
    ensures Seats(t.after, OpenOf(cfg, t, f, window).value)
  {
    var panel, o := PanelList(t, f), OpeningOf(cfg, t, f, window);
    assert o.candidates == AsPanel(panel);
    hide PanelList, Reigning;
    if panel != [] {
      LastEntry(panel);
      hide AsPanel;
      var last := panel[|panel| - 1].candidate;
      assert last.modelId in o.candidates && o.candidates[last.modelId] == last;
    }
  }

  // ---------------------------------------------------------------- one delivery

  /** The tables that the rows of the block meet: those of before, or those a crossing leaves. */
  ghost predicate Meets(cfg: Config, t: Tables, i: Input, c: Tables, u: Tables, r: Tables)
  {
    if !Opens(cfg, t, i) then u == t
    else
      && Renews(cfg, c, i.frame, WindowOf(cfg, i.frame), c.uses, c.retired, u)
      && Seats(if c.reset != u.reset then None else t.after, u)
      && match t.active
         case None => c == t
         case Some(o) => Ended(r, o.id) && Winds(t, o, i.frame, r.windows[o.id].closing.value.decision, c)
  }

  lemma SeatsAgree(cfg: Config, t: Tables, c: Tables, f: Frame, window: nat, u: Tables)
    requires c.after == t.after && OpenOf(cfg, ResetOf(cfg, c, f, window), f, window) == Ok(u)
    ensures Renews(cfg, c, f, window, c.uses, c.retired, u)
    ensures Seats(if c.reset != u.reset then None else t.after, u)
  {
    ResetMatters(cfg, c, f, window, u);
    hide OpenOf, ResetOf, Seats;
  }

  lemma ClosedWinds(cfg: Config, t: Tables, i: Input)
    requires Settled(t) && Opens(cfg, t, i) && t.active.Some?
    ensures var o, c, r := t.active.value, CloseOf(t, t.active.value, i.frame), Deliver(cfg, t, i);
      Ended(r, o.id) && Winds(t, o, i.frame, r.windows[o.id].closing.value.decision, c) && c.after == t.after
  {
    ClosePassesTheCrown(cfg, t, i);
    CloseWinds(t, t.active.value, i.frame);
    hide Settled, Deliver, CloseOf, Opens, DecisionAt, Enthroned, Spends, Retires, NewlyOpen;
  }

  lemma RotationMeets(cfg: Config, t: Tables, i: Input) returns (c: Tables)
    requires Settled(t) && Next(cfg, t, i.frame, i.rows).Ok?
    ensures Meets(cfg, t, i, c, Rotate(cfg, t, i.frame, WindowOf(cfg, i.frame)).value, Deliver(cfg, t, i))
  {
    hide Settled, Deliver, CloseOf, ResetOf, OpenOf, AdmitAll, DecisionAt, Winds, Renews, Seats, CompleteOf, Sort;
    var f, window := i.frame, WindowOf(cfg, i.frame);
    c := t;
    if Opens(cfg, t, i) {
      if t.active.Some? {
        c := CloseOf(t, t.active.value, f);
        ClosedWinds(cfg, t, i);
      }
      var u := Rotate(cfg, t, f, window).value;
      assert OpenOf(cfg, ResetOf(cfg, c, f, window), f, window) == Ok(u);
      hide Rotate, Next;
      SeatsAgree(cfg, t, c, f, window, u);
    }
  }

  /** A block in all its effects: the crossing, its rows, and the pairs they complete. */
  lemma DeliveryMeans(cfg: Config, t: Tables, i: Input) returns (c: Tables, u: Tables, w: Tables)
    requires Settled(t) && Next(cfg, t, i.frame, i.rows).Ok?
    ensures var r := Deliver(cfg, t, i);
      && Meets(cfg, t, i, c, u, r) && r.active.Some? && r.cursor == i.frame.block
      && Absorbs(cfg, u, r.active.value, i.frame, i.rows, w) && Completes(r.active.value, w, r)
      && r.retired == u.retired && r.archive == u.archive && r.reset == u.reset && r.after == u.after
  {
    c := RotationMeets(cfg, t, i);
    var f, window := i.frame, WindowOf(cfg, i.frame);
    u := Rotate(cfg, t, f, window).value;
    var o := u.active.value;
    RotateSound(cfg, t, f, window);
    hide Rotate, Meets, Settled;
    w := RowsMean(cfg, u, o, f, i.rows);
    hide InProgress;
    var done := CompleteOf(w, o);
    assert Deliver(cfg, t, i) == done.(cursor := f.block);
    hide AdmitAll, CompleteOf;
    CompletesCursor(o, w, done, f.block);
    hide Completes, Absorbs, Next, Deliver;
  }

  lemma CompletesCursor(o: Opening, w: Tables, r: Tables, block: nat)
    requires Completes(o, w, r)
    ensures Completes(o, w, r.(cursor := block))
  {
    hide BothWait, FromPending, Extends;
  }

  lemma RowsMean(cfg: Config, u: Tables, o: Opening, f: Frame, rows: seq<Row>) returns (w: Tables)
    requires InProgress(u, o, f.block) && AdmitAll(cfg, u, o, f, o.id, Sort(rows)).Ok?
    ensures w == AdmitAll(cfg, u, o, f, o.id, Sort(rows)).value && Absorbs(cfg, u, o, f, rows, w)
    ensures Completes(o, w, CompleteOf(w, o))
    ensures CompleteOf(w, o) == w.(uses := CompleteOf(w, o).uses) && w.active == u.active
    ensures w.retired == u.retired && w.archive == u.archive && w.reset == u.reset && w.after == u.after
  {
    w := AdmitAll(cfg, u, o, f, o.id, Sort(rows)).value;
    SoundUnique(u, f.block);
    PanelOlderNow(u, o, f.block);
    AdmitAllKeyed(cfg, u, o, f, o.id, Sort(rows));
    AdmitAllSound(cfg, u, o, f, Sort(rows));
    hide InProgress, Completes, Absorbs, Unique, OneModelEach;
    CompletionMeans(w, o, f.block);
    CompletionExtends(w, o);
    AdmitsAll(cfg, u, o, f, o.id, Sort(rows));
    Consensus.SortSorts(rows);
    forall x | x in rows
      ensures x.block == f.block
    {
      assert x in Sort(rows);
      assert Admits(f, x);
    }
    hide Admits, AdmitAll, CompleteOf;
    SortedAscends(f, rows);
    hide Sort, Ascending;
    AdmitAllAbsorbs(cfg, u, o, f, Sort(rows));
    AbsorbsSame(cfg, u, o, f, Sort(rows), rows, w);
  }

  lemma PanelOlderNow(t: Tables, o: Opening, now: int)
    requires InProgress(t, o, now)
    ensures OneModelEach(o)
  {
    assert WindowOk(t, now, o.id);
  }

  /**
   Exactly which blocks are refused: one out of order or before activation, one whose window has
   been open before, and one with a row of another block or a submission without an owner.
   */
  lemma AcceptedBlocks(cfg: Config, t: Tables, i: Input)
    ensures Next(cfg, t, i.frame, i.rows).Ok? <==>
      && i.frame.block == t.cursor + 1 && i.frame.epoch >= cfg.activationEpoch
      && (forall x :: x in i.rows ==> Admits(i.frame, x))
      && ((t.active.Some? && t.active.value.id == (i.frame.epoch - cfg.activationEpoch) / 2)
          || (i.frame.epoch - cfg.activationEpoch) / 2 !in t.windows)
  {
    hide Sort, AdmitAll, CompleteOf, Admits;
    var f := i.frame;
    if f.epoch >= cfg.activationEpoch {
      var window := WindowOf(cfg, f);
      TurnedWindows(cfg, t, f, window);
      hide CloseOf, ResetOf;
      if Rotate(cfg, t, f, window).Ok? {
        var u := Rotate(cfg, t, f, window).value;
        AdmitsAll(cfg, u, u.active.value, f, window, Sort(i.rows));
        Consensus.SortSorts(i.rows);
      }
    }
  }
}
