/** Who gets onto the panel of a window, and in which order first pairs take their turn. */
module LedgerPanel {
  import opened Common
  import opened Wire
  import opened Decide
  import opened LedgerSpec
  import RoundRobin

  /** One row per hotkey: the primary key of the submissions table. */
  ghost predicate Unique(rows: seq<Submission>)
  {
    forall i, j :: 0 <= i < j < |rows| ==> rows[i].candidate.hotkey != rows[j].candidate.hotkey
  }

  ghost predicate DistinctModels(rows: seq<Submission>)
  {
    forall i, j :: 0 <= i < j < |rows| ==> rows[i].candidate.modelId != rows[j].candidate.modelId
  }

  lemma UniqueOwner(rows: seq<Submission>, x: Submission, y: Submission)
    requires Unique(rows) && x in rows && y in rows && x.candidate.hotkey == y.candidate.hotkey
    ensures x == y
  {
  }

  // ---------------------------------------------------------------- the candidates

  /** A row as it appears on a panel: its uid is the one at the opening block. */
  function Seated(f: Frame, x: Submission): Submission
    requires x.candidate.hotkey in f.uids
  {
    x.(candidate := x.candidate.(uid := f.uids[x.candidate.hotkey]))
  }

  ghost predicate FromAdmissible(rows: seq<Submission>, f: Frame, retired: set<Hotkey>, y: Submission)
  {
    exists x :: x in rows && Admissible(f, retired, x) && y == Seated(f, x)
  }

  ghost predicate ApartFrom(list: seq<Submission>, x: Submission)
  {
    forall y :: y in list ==> y.candidate.hotkey != x.candidate.hotkey && y.candidate.modelId != x.candidate.modelId
  }

  lemma AppendApart(list: seq<Submission>, x: Submission)
    requires Unique(list) && DistinctModels(list) && ApartFrom(list, x)
    ensures Unique(list + [x]) && DistinctModels(list + [x])
  {
    forall i | 0 <= i < |list|
      ensures list[i].candidate.hotkey != x.candidate.hotkey && list[i].candidate.modelId != x.candidate.modelId
    {
      assert list[i] in list;
    }
  }

  lemma ModelsAppend(list: seq<Submission>, x: Submission)
    ensures Models(list + [x]) == Models(list) + {x.candidate.modelId}
    ensures ApartFrom(list, x) ==> x.candidate.modelId !in Models(list)
  {
    assert forall y :: y in list ==> y in list + [x];
    assert x in list + [x];
  }

  /** The admitted rows of a prefix are admitted, and stand apart from a row behind it. */
  lemma FrontListed(rows: seq<Submission>, f: Frame, retired: set<Hotkey>, front: seq<Submission>)
    requires rows != [] && Unique(rows)
    requires forall y :: y in front ==> FromAdmissible(rows[..|rows| - 1], f, retired, y)
    ensures forall y :: y in front ==>
      FromAdmissible(rows, f, retired, y) && y.candidate.hotkey != rows[|rows| - 1].candidate.hotkey
  {
    var n := |rows| - 1;
    hide Admissible;
    forall y | y in front
      ensures FromAdmissible(rows, f, retired, y) && y.candidate.hotkey != rows[n].candidate.hotkey
    {
      assert FromAdmissible(rows[..n], f, retired, y);
    }
  }

  lemma FrontModels(list: seq<Submission>)
    ensures forall y :: y in list ==> y.candidate.modelId in Models(list)
  {
  }

  lemma {:induction false} ListedRows(rows: seq<Submission>, f: Frame, retired: set<Hotkey>)
    requires Unique(rows)
    ensures var list := Listed(rows, f, retired);
      && Unique(list) && DistinctModels(list)
      && (forall y :: y in list ==> FromAdmissible(rows, f, retired, y))
      && (forall x :: x in rows && Admissible(f, retired, x) ==> x.candidate.modelId in Models(list))
    decreases |rows|
  {
    if rows != [] {
      var n := |rows| - 1;
      var front, x := Listed(rows[..n], f, retired), rows[n];
      ListedRows(rows[..n], f, retired);
      FrontListed(rows, f, retired, front);
      FrontModels(front);
      assert rows == rows[..n] + [x];
      if Admissible(f, retired, x) && x.candidate.modelId !in Models(front) {
        var y := Seated(f, x);
        assert ApartFrom(front, y) && FromAdmissible(rows, f, retired, y);
        hide Unique, DistinctModels, Models, FromAdmissible, ApartFrom, Admissible;
        AppendApart(front, y);
        ModelsAppend(front, y);
      }
    }
  }

  lemma LastApart(list: seq<Submission>)
    requires list != [] && Unique(list) && DistinctModels(list)
    ensures var n := |list| - 1; ApartFrom(list[..n], list[n]) && Unique(list[..n]) && DistinctModels(list[..n])
  {
  }

  lemma {:induction false} WithoutKeeps(list: seq<Submission>, model: ModelId)
    requires Unique(list) && DistinctModels(list)
    ensures Unique(Without(list, model)) && DistinctModels(Without(list, model))
    decreases |list|
  {
    if list != [] {
      var n := |list| - 1;
      LastApart(list);
      var front := Without(list[..n], model);
      assert ApartFrom(front, list[n]);
      hide Unique, DistinctModels, ApartFrom;
      WithoutKeeps(list[..n], model);
      AppendApart(front, list[n]);
    }
  }

  lemma PutNew(m: map<ModelId, Candidate>, k: ModelId, c: Candidate)
    requires k !in m
    ensures m[k := c].Keys == m.Keys + {k} && |m[k := c]| == |m| + 1
  {
    assert m[k := c].Keys == m.Keys + {k};
    assert |m[k := c].Keys| == |m.Keys| + 1;
  }

  lemma {:induction false} PanelEntries(list: seq<Submission>)
    requires DistinctModels(list) && Unique(list)
    ensures AsPanel(list).Keys == Models(list) && |AsPanel(list)| == |list|
    ensures forall x :: x in list ==>
      x.candidate.modelId in AsPanel(list) && AsPanel(list)[x.candidate.modelId] == x.candidate
    decreases |list|
  {
    hide Models, AsPanel;
    if list == [] {
      NoEntries(list);
    } else {
      var n := |list| - 1;
      LastApart(list);
      hide Unique, DistinctModels;
      PanelEntries(list[..n]);
      LastEntry(list);
      assert list == list[..n] + [list[n]];
      ModelsAppend(list[..n], list[n]);
      PutNew(AsPanel(list[..n]), list[n].candidate.modelId, list[n].candidate);
    }
  }

  lemma NoEntries(list: seq<Submission>)
    requires list == []
    ensures AsPanel(list).Keys == Models(list) == {} && |AsPanel(list)| == 0
  {
  }

  lemma LastEntry(list: seq<Submission>)
    requires list != []
    ensures var n := |list| - 1; AsPanel(list) == AsPanel(list[..n])[list[n].candidate.modelId := list[n].candidate]
  {
  }

  // ---------------------------------------------------------------- first pairs

  lemma Twice<T>(s: seq<T>, i: nat, j: nat)
    requires i < j < |s| && s[i] == s[j]
    ensures multiset(s)[s[i]] >= 2
  {
    assert s == s[..j] + [s[j]] + s[j + 1..];
    assert s[i] in s[..j];
  }

  lemma {:induction false} Once(s: seq<Submission>, x: Submission)
    requires Unique(s)
    ensures multiset(s)[x] <= 1
    decreases |s|
  {
    if s != [] {
      assert s == [s[0]] + s[1..];
      Once(s[1..], x);
      if x == s[0] {
        assert forall i :: 1 <= i < |s| ==> s[i].candidate.hotkey != s[0].candidate.hotkey;
        assert x !in s[1..];
      }
    }
  }

  /** Reordering keeps hotkeys apart. */
  lemma ReorderedUnique(s: seq<Submission>, r: seq<Submission>)
    requires Unique(s) && multiset(r) == multiset(s)
    ensures Unique(r) && |r| == |s| && forall x :: x in r <==> x in s
    ensures DistinctModels(s) ==> DistinctModels(r)
  {
    assert |multiset(r)| == |r| && |multiset(s)| == |s|;
    assert forall x :: x in r <==> x in multiset(r);
    assert forall x :: x in s <==> x in multiset(s);
    forall i, j | 0 <= i < j < |r|
      ensures r[i].candidate.hotkey != r[j].candidate.hotkey
      ensures DistinctModels(s) ==> r[i].candidate.modelId != r[j].candidate.modelId
    {
      assert r[i] in s && r[j] in s;
      Once(s, r[i]);
      if r[i] == r[j] {
        Twice(r, i, j);
      }
    }
  }

  lemma {:induction false} SortDistinctModels(rows: seq<Submission>)
    requires Unique(rows) && DistinctModels(rows)
    ensures Unique(SortSubmissions(rows)) && DistinctModels(SortSubmissions(rows))
  {
    SortKeepsRows(rows);
    ReorderedUnique(rows, SortSubmissions(rows));
  }

  lemma {:induction false} SortKeepsRows(rows: seq<Submission>)
    ensures multiset(SortSubmissions(rows)) == multiset(rows)
    decreases |rows|
  {
    if rows != [] {
      SortKeepsRows(rows[1..]);
      InsertKeepsRows(rows[0], SortSubmissions(rows[1..]));
      assert rows == [rows[0]] + rows[1..];
    }
  }

  lemma {:induction false} InsertKeepsRows(x: Submission, rows: seq<Submission>)
    ensures multiset(InsertSubmission(x, rows)) == multiset(rows) + multiset{x}
    decreases |rows|
  {
    if rows != [] && !SubmissionLeq(x, rows[0]) {
      InsertKeepsRows(x, rows[1..]);
      assert rows == [rows[0]] + rows[1..];
    }
  }

  /** The rotation order is a reordering of the candidates. */
  lemma OrderKeepsRows(list: seq<Submission>)
    requires Unique(list) && DistinctModels(list)
    ensures var order := BootstrapOrder(list);
      Unique(order) && DistinctModels(order) && |order| == |list| && forall x :: x in order <==> x in list
  {
    var sorted := SortSubmissions(list);
    SortDistinctModels(list);
    RoundRobin.TurnsKeepRows(sorted, (x: Submission) => x.coldkey);
    hide SortSubmissions, Unique, DistinctModels;
    ReorderedUnique(sorted, BootstrapOrder(list));
  }

  /** An index past the end starts over. */
  function Wrap(i: nat, n: nat): nat
    requires i < 2 * n
    ensures Wrap(i, n) < n
  {
    if i < n then i else i - n
  }

  /** The next two in the cyclic order, starting after the last one served. */
  lemma PairAt(order: seq<Submission>, after: Option<Hotkey>)
    requires |order| >= 2
    ensures var k, n := ResumeAt(order, after), |order|;
      NextPair(order, after) == [order[Wrap(k, n)], order[Wrap(k + 1, n)]]
  {
    hide ResumeAt;
  }

  lemma PairKept(order: seq<Submission>, after: Option<Hotkey>)
    requires Unique(order) && DistinctModels(order)
    ensures var pair := NextPair(order, after);
      && Unique(pair) && DistinctModels(pair) && |pair| == (if |order| >= 2 then 2 else 0)
      && forall x :: x in pair ==> x in order
  {
    if |order| >= 2 {
      PairAt(order, after);
      hide ResumeAt, NextPair;
    }
  }

  // ---------------------------------------------------------------- the panel of a window

  ghost predicate Candidacy(t: Tables, f: Frame, m: ModelId, c: Candidate)
  {
    c.modelId == m && exists x :: x in t.submissions && Admissible(f, t.retired, x) && c == Seated(f, x).candidate
  }

  /**
   What an opening freezes: submissions made strictly before the opening block by hotkeys
   that are registered and not retired, one per hotkey. Under a king it is every such model
   but the king's own; without one it is a pair or nobody.
   */
  ghost predicate Frozen(t: Tables, f: Frame, o: Opening)
  {
    && OneModelEach(o)
    && (forall m :: m in o.candidates ==> Candidacy(t, f, m, o.candidates[m]))
    && (o.king == None ==> |o.candidates| == 0 || |o.candidates| == 2)
    && (o.king.Some? ==> EveryOther(t, f, o.candidates, o.king.value.modelId))
  }

  /** Every admissible model but one. */
  ghost predicate EveryOther(t: Tables, f: Frame, candidates: map<ModelId, Candidate>, king: ModelId)
  {
    forall m :: m in candidates <==>
      m != king && exists x :: x in t.submissions && Admissible(f, t.retired, x) && x.candidate.modelId == m
  }

  /** `list` holds every admissible submission and nothing else; the panel is drawn from it. */
  ghost predicate Selected(t: Tables, f: Frame, list: seq<Submission>, panel: seq<Submission>)
  {
    && Unique(panel) && DistinctModels(panel) && (forall x :: x in panel ==> x in list)
    && (forall y :: y in list ==> FromAdmissible(t.submissions, f, t.retired, y))
    && (forall x :: x in t.submissions && Admissible(f, t.retired, x) ==> x.candidate.modelId in Models(list))
  }

  function CandidateList(t: Tables, f: Frame): seq<Submission>
  {
    Listed(SortSubmissions(t.submissions), f, t.retired)
  }

  lemma PanelSelected(t: Tables, f: Frame)
    requires Unique(t.submissions)
    ensures Selected(t, f, CandidateList(t, f), PanelList(t, f))
    ensures Reigning(t.king, f) == None ==> |PanelList(t, f)| == 0 || |PanelList(t, f)| == 2
    ensures Reigning(t.king, f).Some? ==>
      PanelList(t, f) == Without(CandidateList(t, f), Reigning(t.king, f).value.modelId)
  {
    var sorted := SortSubmissions(t.submissions);
    SortKeepsRows(t.submissions);
    ReorderedUnique(t.submissions, sorted);
    ListedRows(sorted, f, t.retired);
    var list, king := Listed(sorted, f, t.retired), Reigning(t.king, f);
    forall y | y in list
      ensures FromAdmissible(t.submissions, f, t.retired, y)
    {
      assert FromAdmissible(sorted, f, t.retired, y);
    }
    hide Unique, DistinctModels, Listed, SortSubmissions, NextPair, BootstrapOrder, Models, FromAdmissible;
    if king.Some? {
      WithoutKeeps(list, king.value.modelId);
    } else {
      OrderKeepsRows(list);
      PairKept(BootstrapOrder(list), t.after);
    }
  }

  lemma OpeningIsFrozen(cfg: Config, t: Tables, f: Frame, window: nat)
    requires Unique(t.submissions)
    ensures Frozen(t, f, OpeningOf(cfg, t, f, window))
  {
    PanelSelected(t, f);
    var panel, list, o := PanelList(t, f), CandidateList(t, f), OpeningOf(cfg, t, f, window);
    hide Unique, DistinctModels, AsPanel, CandidateList, PanelList, OneModelEach, Candidacy, Models, Selected, Reigning,
      EveryOther, Without;
    EntriesOf(t, f, list, panel);
    forall m | m in o.candidates
      ensures Candidacy(t, f, m, o.candidates[m])
    {
      SeatedCandidacy(t, f, list, panel, m);
    }
    OnePerHotkey(t, f, list, panel, o);
    if o.king.Some? {
      EveryCandidate(t, f, list, panel, o.king.value.modelId);
    }
  }

  lemma EntriesOf(t: Tables, f: Frame, list: seq<Submission>, panel: seq<Submission>)
    requires Selected(t, f, list, panel)
    ensures |AsPanel(panel)| == |panel|
  {
    PanelEntries(panel);
  }

  lemma SeatedCandidacy(t: Tables, f: Frame, list: seq<Submission>, panel: seq<Submission>, m: ModelId)
    requires Selected(t, f, list, panel) && m in AsPanel(panel)
    ensures Candidacy(t, f, m, AsPanel(panel)[m])
  {
    PanelEntries(panel);
    hide AsPanel;
    var y :| y in panel && y.candidate.modelId == m;
    assert FromAdmissible(t.submissions, f, t.retired, y);
  }

  lemma OnePerHotkey(t: Tables, f: Frame, list: seq<Submission>, panel: seq<Submission>, o: Opening)
    requires Selected(t, f, list, panel) && o.candidates == AsPanel(panel)
    ensures OneModelEach(o)
  {
    PanelEntries(panel);
    hide AsPanel, Unique;
    forall m, n | m in o.candidates && n in o.candidates && o.candidates[m].hotkey == o.candidates[n].hotkey
      ensures m == n
    {
      var x :| x in panel && x.candidate.modelId == m;
      var y :| y in panel && y.candidate.modelId == n;
      UniqueOwner(panel, x, y);
    }
  }

  lemma EveryCandidate(t: Tables, f: Frame, list: seq<Submission>, panel: seq<Submission>, king: ModelId)
    requires Selected(t, f, list, panel) && panel == Without(list, king)
    ensures EveryOther(t, f, AsPanel(panel), king)
  {
    PanelEntries(panel);
    hide Without, Admissible, AsPanel;
    forall x | x in t.submissions && Admissible(f, t.retired, x) && x.candidate.modelId != king
      ensures x.candidate.modelId in AsPanel(panel)
    {
      var y :| y in list && y.candidate.modelId == x.candidate.modelId;
      assert y in panel;
    }
    forall m | m in AsPanel(panel)
      ensures m != king && exists x :: x in t.submissions && Admissible(f, t.retired, x) && x.candidate.modelId == m
    {
      var y :| y in panel && y.candidate.modelId == m;
      assert FromAdmissible(t.submissions, f, t.retired, y);
    }
  }

  // ---------------------------------------------------------------- keys stay keys

  ghost predicate Keyed(t: Tables)
  {
    Unique(t.submissions) && (t.active.Some? ==> OneModelEach(t.active.value))
  }

  lemma RotateKeyed(cfg: Config, t: Tables, f: Frame, window: nat)
    requires Keyed(t) && Rotate(cfg, t, f, window).Ok?
    ensures Keyed(Rotate(cfg, t, f, window).value)
  {
    hide DecisionAt, ConsumeLosses, OpeningOf, Unique, OneModelEach, PanelList, Evaluated;
    if t.active == None || t.active.value.id != window {
      var u := ResetOf(cfg, if t.active == None then t else CloseOf(t, t.active.value, f), f, window);
      assert Unique(u.submissions) by { EmptyUnique(); }
      OpeningIsFrozen(cfg, u, f, window);
    }
  }

  lemma EmptyUnique()
    ensures Unique([])
  {
  }

  lemma SubmitUnique(cfg: Config, t: Tables, f: Frame, row: Row)
    requires Unique(t.submissions) && Submit(cfg, t, f, row).Ok?
    ensures Unique(Submit(cfg, t, f, row).value.submissions)
  {
    hide ParseSubmission;
    assert forall i :: 0 <= i < |t.submissions| ==> t.submissions[i] in t.submissions;
  }

  /** Rows of a block never change who is on the panel, nor any earlier submission. */
  lemma {:induction false} AdmitAllKeyed(cfg: Config, t: Tables, o: Opening, f: Frame, window: nat, rows: seq<Row>)
    requires Unique(t.submissions) && AdmitAll(cfg, t, o, f, window, rows).Ok?
    ensures var u := AdmitAll(cfg, t, o, f, window, rows).value;
      Unique(u.submissions) && u.active == t.active && t.submissions <= u.submissions && u.windows == t.windows
      && u.king == t.king && u.reset == t.reset && u.archive == t.archive
      && u.retired == t.retired && u.after == t.after && u.cursor == t.cursor
    decreases |rows|
  {
    if rows != [] {
      hide Unique, Admit;
      AdmitAllKeyed(cfg, t, o, f, window, rows[..|rows| - 1]);
      var u, row := AdmitAll(cfg, t, o, f, window, rows[..|rows| - 1]).value, rows[|rows| - 1];
      AdmitKeyed(cfg, u, o, f, window, row);
      PrefixTransitive(t.submissions, u.submissions, AdmitAll(cfg, t, o, f, window, rows).value.submissions);
    }
  }

  lemma PrefixTransitive(a: seq<Submission>, b: seq<Submission>, c: seq<Submission>)
    requires a <= b && b <= c
    ensures a <= c
  {
  }

  lemma AdmitKeyed(cfg: Config, t: Tables, o: Opening, f: Frame, window: nat, row: Row)
    requires Unique(t.submissions) && Admit(cfg, t, o, f, window, row).Ok?
    ensures var u := Admit(cfg, t, o, f, window, row).value;
      Unique(u.submissions) && u.active == t.active && t.submissions <= u.submissions && u.windows == t.windows
      && u.king == t.king && u.reset == t.reset && u.archive == t.archive
      && u.retired == t.retired && u.after == t.after && u.cursor == t.cursor
  {
    hide Unique, Parse, ParseSubmission, Measures;
    SubmitUnique(cfg, t.(commitments := AddRow(t.commitments, row)), f, row);
  }
}
