/**
 Who is on the panel of a window, said of the submissions themselves: the earliest submission of a
 shared model is nominated, and first pairs are drawn in one order over the owners.
 */
module Panels {
  import opened Common
  import opened Decide
  import opened LedgerSpec
  import opened LedgerPanel
  import Ordering
  import RoundRobin
  import Readiness

  // ---------------------------------------------------------------- nominations

  /** By block, and within a block by hotkey. */
  predicate Prior(x: Submission, y: Submission)
  {
    x.candidate.block < y.candidate.block ||
    (x.candidate.block == y.candidate.block && Ordering.Less(x.candidate.hotkey, y.candidate.hotkey))
  }

  /** Submitted in an earlier block by a hotkey that is registered now and not retired. */
  predicate Stands(t: Tables, f: Frame, x: Submission)
  {
    x in t.submissions && x.candidate.block < f.block && x.candidate.hotkey in f.uids
      && x.candidate.hotkey !in t.retired
  }

  /** Of all that stand with one model only the earliest is nominated. */
  ghost predicate Nominated(t: Tables, f: Frame, x: Submission)
  {
    Stands(t, f, x) && forall y :: Stands(t, f, y) && y.candidate.modelId == x.candidate.modelId ==> !Prior(y, x)
  }

  /** The nomination as the opening records it: under the uid of that block. */
  predicate Registered(f: Frame, x: Submission, y: Submission)
  {
    x.candidate.hotkey in f.uids
      && y == Submission(Candidate(x.candidate.hotkey, f.uids[x.candidate.hotkey], x.candidate.modelId,
                                   x.candidate.block), x.coldkey, x.manifest, x.value)
  }

  // ---------------------------------------------------------------- sorting

  ghost predicate Chronological(rows: seq<Submission>)
  {
    forall i, j :: 0 <= i < j < |rows| ==> !Prior(rows[j], rows[i])
  }

  lemma LeqMeans(x: Submission, y: Submission)
    ensures SubmissionLeq(x, y) ==> !Prior(y, x)
    ensures !SubmissionLeq(x, y) ==> Prior(y, x)
  {
    var a, b := x.candidate.hotkey, y.candidate.hotkey;
    Ordering.LessIrreflexive(a);
    Ordering.LessTotal(a, b);
    if Ordering.Less(a, b) && Ordering.Less(b, a) {
      Ordering.LessTransitive(a, b, a);
    }
  }

  lemma PriorTransitive(x: Submission, y: Submission, z: Submission)
    requires !Prior(y, x) && !Prior(z, y)
    ensures !Prior(z, x)
  {
    LeqMeans(x, y);
    LeqMeans(y, z);
    var a, b, c := x.candidate.hotkey, y.candidate.hotkey, z.candidate.hotkey;
    if Ordering.Less(a, b) && Ordering.Less(b, c) {
      Ordering.LessTransitive(a, b, c);
    }
    LeqMeans(x, z);
  }

  lemma {:induction false} InsertChronological(x: Submission, rows: seq<Submission>)
    requires Chronological(rows)
    ensures Chronological(InsertSubmission(x, rows))
    decreases |rows|
  {
    hide Prior, SubmissionLeq;
    if rows != [] {
      LeqMeans(x, rows[0]);
      if SubmissionLeq(x, rows[0]) {
        forall i | 0 <= i < |rows|
          ensures !Prior(rows[i], x)
        {
          if i > 0 {
            PriorTransitive(x, rows[0], rows[i]);
          }
        }
      } else {
        InsertChronological(x, rows[1..]);
        var rest := InsertSubmission(x, rows[1..]);
        forall i | 0 <= i < |rest|
          ensures !Prior(rest[i], rows[0])
        {
          assert rest[i] in rest;
          NotBackwards(rows[0], x);
        }
      }
    }
  }

  lemma NotBackwards(x: Submission, y: Submission)
    ensures Prior(x, y) ==> !Prior(y, x)
  {
    var a, b := x.candidate.hotkey, y.candidate.hotkey;
    Ordering.LessIrreflexive(a);
    if Ordering.Less(a, b) && Ordering.Less(b, a) {
      Ordering.LessTransitive(a, b, a);
    }
  }

  lemma {:induction false} SortedByTime(rows: seq<Submission>)
    ensures Chronological(SortSubmissions(rows))
    decreases |rows|
  {
    if rows != [] {
      SortedByTime(rows[1..]);
      InsertChronological(rows[0], SortSubmissions(rows[1..]));
    }
  }

  // ---------------------------------------------------------------- who is nominated

  /** Of the rows so far, `y` records one that stands and that no row before it shadows. */
  ghost predicate FirstOfModel(f: Frame, retired: set<Hotkey>, rows: seq<Submission>, y: Submission)
  {
    exists i :: 0 <= i < |rows| && Admissible(f, retired, rows[i]) && Registered(f, rows[i], y)
      && forall j :: 0 <= j < i && Admissible(f, retired, rows[j]) ==>
           rows[j].candidate.modelId != rows[i].candidate.modelId
  }

  lemma FirstOfModelMore(f: Frame, retired: set<Hotkey>, rows: seq<Submission>, y: Submission)
    requires rows != [] && FirstOfModel(f, retired, rows[..|rows| - 1], y)
    ensures FirstOfModel(f, retired, rows, y)
  {
    hide Admissible, Registered;
    var front := rows[..|rows| - 1];
    var i :| 0 <= i < |front| && Admissible(f, retired, front[i]) && Registered(f, front[i], y)
             && forall j :: 0 <= j < i && Admissible(f, retired, front[j]) ==>
               front[j].candidate.modelId != front[i].candidate.modelId;
    assert rows[i] == front[i];
    assert forall j :: 0 <= j < i ==> rows[j] == front[j];
  }

  lemma LastOfModel(f: Frame, retired: set<Hotkey>, rows: seq<Submission>, y: Submission)
    requires rows != [] && Admissible(f, retired, rows[|rows| - 1]) && Registered(f, rows[|rows| - 1], y)
    requires forall x :: x in rows[..|rows| - 1] && Admissible(f, retired, x) ==>
      x.candidate.modelId != rows[|rows| - 1].candidate.modelId
    ensures FirstOfModel(f, retired, rows, y)
  {
    hide Admissible, Registered;
    var n := |rows| - 1;
    forall j | 0 <= j < n && Admissible(f, retired, rows[j])
      ensures rows[j].candidate.modelId != rows[n].candidate.modelId
    {
      assert rows[j] in rows[..n];
    }
  }

  lemma {:induction false} ListedFirst(rows: seq<Submission>, f: Frame, retired: set<Hotkey>)
    requires Unique(rows)
    ensures forall y :: y in Listed(rows, f, retired) ==> FirstOfModel(f, retired, rows, y)
    decreases |rows|
  {
    if rows != [] {
      var n := |rows| - 1;
      ListedFirst(rows[..n], f, retired);
      ListedRows(rows[..n], f, retired);
      var front := Listed(rows[..n], f, retired);
      hide Unique, DistinctModels, Models, FirstOfModel;
      forall y | y in Listed(rows, f, retired)
        ensures FirstOfModel(f, retired, rows, y)
      {
        if y in front {
          FirstOfModelMore(f, retired, rows, y);
        } else {
          LastOfModel(f, retired, rows, y);
        }
      }
    }
  }

  lemma Irreflexive(x: Submission)
    ensures !Prior(x, x)
  {
    Ordering.LessIrreflexive(x.candidate.hotkey);
  }

  lemma FirstIsNominated(t: Tables, f: Frame, rows: seq<Submission>, y: Submission) returns (x: Submission)
    requires Chronological(rows) && (forall z :: z in rows <==> z in t.submissions)
      && FirstOfModel(f, t.retired, rows, y)
    ensures Nominated(t, f, x) && Registered(f, x, y)
  {
    hide Prior, Registered;
    var i :| 0 <= i < |rows| && Admissible(f, t.retired, rows[i]) && Registered(f, rows[i], y)
             && forall j :: 0 <= j < i && Admissible(f, t.retired, rows[j]) ==>
               rows[j].candidate.modelId != rows[i].candidate.modelId;
    x := rows[i];
    forall z | Stands(t, f, z) && z.candidate.modelId == x.candidate.modelId
      ensures !Prior(z, x)
    {
      var j :| 0 <= j < |rows| && rows[j] == z;
      if j == i {
        Irreflexive(x);
      }
    }
  }

  lemma OneNomination(t: Tables, f: Frame, x: Submission, y: Submission)
    requires Unique(t.submissions) && Nominated(t, f, x) && Nominated(t, f, y)
    requires x.candidate.modelId == y.candidate.modelId
    ensures x == y
  {
    assert !Prior(x, y) && !Prior(y, x);
    Ordering.LessTotal(x.candidate.hotkey, y.candidate.hotkey);
    UniqueOwner(t.submissions, x, y);
  }

  lemma ModelListed(list: seq<Submission>, m: ModelId) returns (y: Submission)
    requires m in Models(list)
    ensures y in list && y.candidate.modelId == m
  {
    y :| y in list && y.candidate.modelId == m;
  }

  /** The candidates of an opening are exactly the nominations. */
  lemma CandidatesAreNominated(t: Tables, f: Frame, y: Submission)
    requires Unique(t.submissions)
    ensures y in CandidateList(t, f) <==> exists x :: Nominated(t, f, x) && Registered(f, x, y)
  {
    var rows, list := SortSubmissions(t.submissions), CandidateList(t, f);
    SortedByTime(t.submissions);
    SortKeepsRows(t.submissions);
    ReorderedUnique(t.submissions, rows);
    ListedFirst(rows, f, t.retired);
    ListedRows(rows, f, t.retired);
    hide SortSubmissions, Unique, DistinctModels, Chronological, Listed, Nominated, FirstOfModel, FromAdmissible;
    if y in list {
      var x := FirstIsNominated(t, f, rows, y);
    }
    if x :| Nominated(t, f, x) && Registered(f, x, y) {
      NominationStands(t, f, rows, x);
      hide Models;
      var z := ModelListed(list, x.candidate.modelId);
      var n := FirstIsNominated(t, f, rows, z);
      OneNomination(t, f, x, n);
    }
  }

  lemma NominationStands(t: Tables, f: Frame, rows: seq<Submission>, x: Submission)
    requires Nominated(t, f, x) && forall z :: z in rows <==> z in t.submissions
    ensures x in rows && Admissible(f, t.retired, x)
  {
  }

  // ---------------------------------------------------------------- the panel under a king

  /** The king's own model sits out; everybody else who is nominated challenges. */
  lemma PanelUnderKing(cfg: Config, t: Tables, f: Frame, window: nat, m: ModelId, c: Candidate)
    requires Unique(t.submissions) && OpeningOf(cfg, t, f, window).king.Some?
    ensures var o := OpeningOf(cfg, t, f, window);
      (m in o.candidates && o.candidates[m] == c) <==>
      m != o.king.value.modelId && exists x, y ::
        Nominated(t, f, x) && Registered(f, x, y) && y.candidate == c && c.modelId == m
  {
    var o, panel, list := OpeningOf(cfg, t, f, window), PanelList(t, f), CandidateList(t, f);
    PanelSelected(t, f);
    forall y
      ensures y in list <==> exists x :: Nominated(t, f, x) && Registered(f, x, y)
    {
      CandidatesAreNominated(t, f, y);
    }
    assert o.candidates == AsPanel(panel) && panel == Without(list, o.king.value.modelId);
    hide Nominated, Registered, CandidateList, PanelList, Unique, DistinctModels, Without, OpeningOf, Reigning;
    PanelMember(list, panel, m, c);
    hide AsPanel;
  }

  lemma PanelMember(list: seq<Submission>, panel: seq<Submission>, m: ModelId, c: Candidate)
    requires Unique(panel) && DistinctModels(panel)
    ensures (m in AsPanel(panel) && AsPanel(panel)[m] == c) <==>
      exists y :: y in panel && y.candidate == c && c.modelId == m
  {
    PanelEntries(panel);
    hide AsPanel, Unique, DistinctModels;
    if m in AsPanel(panel) {
      var y := ModelListed(panel, m);
    }
  }

  // ---------------------------------------------------------------- the order of first pairs

  /** How many submissions of its owner come before it. */
  ghost function Rank(list: seq<Submission>, x: Submission): nat
  {
    |set y | y in list && y.coldkey == x.coldkey && Prior(y, x)|
  }

  /** The first submission of the owner of `x`. */
  ghost predicate Leads(list: seq<Submission>, f: Submission, x: Submission)
  {
    f in list && f.coldkey == x.coldkey && forall y :: y in list && y.coldkey == x.coldkey ==> !Prior(y, f)
  }

  /** Fewer before it of its own owner, or as many and an owner who came first. */
  ghost predicate Ahead(list: seq<Submission>, x: Submission, y: Submission)
  {
    Rank(list, x) < Rank(list, y) ||
    (Rank(list, x) == Rank(list, y) && exists f, g :: Leads(list, f, x) && Leads(list, g, y) && Prior(f, g))
  }

  ghost predicate Ascends(rows: seq<Submission>) { forall i, j :: 0 <= i < j < |rows| ==> Prior(rows[i], rows[j]) }

  lemma UniqueAscends(rows: seq<Submission>)
    requires Unique(rows) && Chronological(rows)
    ensures Ascends(rows)
  {
    forall i, j | 0 <= i < j < |rows|
      ensures Prior(rows[i], rows[j])
    {
      Ordering.LessTotal(rows[i].candidate.hotkey, rows[j].candidate.hotkey);
    }
  }

  function Owner(): Submission -> string { (x: Submission) => x.coldkey }

  lemma {:induction false} OwnersAscend(rows: seq<Submission>, o: string)
    requires Ascends(rows)
    ensures Ascends(RoundRobin.RowsOf(rows, Owner(), o))
    decreases |rows|
  {
    if rows != [] {
      hide Prior;
      var n := |rows| - 1;
      assert forall i, j :: 0 <= i < j < n ==> Prior(rows[..n][i], rows[..n][j]);
      OwnersAscend(rows[..n], o);
      var front := RoundRobin.RowsOf(rows[..n], Owner(), o);
      forall i | 0 <= i < |front|
        ensures Prior(front[i], rows[n])
      {
        assert front[i] in rows[..n];
      }
    }
  }

  lemma {:induction false} FirstOnes(s: seq<Submission>, d: nat)
    requires Ascends(s) && d <= |s|
    ensures |set i | 0 <= i < d :: s[i]| == d
    decreases d
  {
    var now := set i | 0 <= i < d :: s[i];
    if d == 0 {
      assert now == {};
    } else {
      FirstOnes(s, d - 1);
      var front := set i | 0 <= i < d - 1 :: s[i];
      Irreflexive(s[d - 1]);
      assert s[d - 1] !in front;
      assert now == front + {s[d - 1]};
    }
  }

  lemma RankIsDepth(list: seq<Submission>, rows: seq<Submission>, items: seq<Submission>, d: nat)
    requires Ascends(rows) && (forall x :: x in rows <==> x in list) && d < |items|
    requires items == RoundRobin.RowsOf(rows, Owner(), items[d].coldkey)
    ensures Rank(list, items[d]) == d && Leads(list, items[0], items[d])
  {
    var o := items[d].coldkey;
    OwnersAscend(rows, o);
    forall y | y in list && y.coldkey == o
      ensures y in items
    {
      Readiness.RowsOfAll(rows, Owner(), o, y);
    }
    assert forall k :: 0 <= k < |items| ==> items[k] in RoundRobin.RowsOf(rows, Owner(), o);
    hide RoundRobin.RowsOf;
    var before := set y | y in list && y.coldkey == o && Prior(y, items[d]);
    var front := set k | 0 <= k < d :: items[k];
    forall y
      ensures y in before <==> y in front
    {
      InFront(items, d, y);
    }
    FirstOnes(items, d);
    assert before == front;
    forall y | y in items
      ensures !Prior(y, items[0])
    {
      InFront(items, 0, y);
    }
  }

  lemma InFront(items: seq<Submission>, d: nat, y: Submission)
    requires Ascends(items) && d < |items|
    ensures (exists k :: 0 <= k < d && items[k] == y) <==> y in items && Prior(y, items[d])
  {
    hide Prior;
    if y in items && Prior(y, items[d]) {
      var k :| 0 <= k < |items| && items[k] == y;
      if k == d {
        Irreflexive(y);
      } else if k > d {
        NotBackwards(items[d], y);
      }
    }
  }

  /** Owners are seen in the order of their first submissions. */
  lemma {:induction false} OwnersInTurn(rows: seq<Submission>, i: nat, j: nat)
    requires Ascends(rows) && i < j < |RoundRobin.Grouped(rows, Owner())|
    ensures var g := RoundRobin.Grouped(rows, Owner()); Prior(g[i].items[0], g[j].items[0])
    decreases |rows|
  {
    var n := |rows| - 1;
    var front, x, g := RoundRobin.Grouped(rows[..n], Owner()), rows[n], RoundRobin.Grouped(rows, Owner());
    RoundRobin.LastGrouped(rows, Owner());
    var k := GroupIndex(front, x.coldkey);
    RoundRobin.AppendAt(front, x.coldkey, x, k);
    assert rows[..n] + [x] == rows;
    if j < |front| {
      assert forall a, b :: 0 <= a < b < n ==> Prior(rows[..n][a], rows[..n][b]);
      OwnersInTurn(rows[..n], i, j);
    } else {
      assert front[i] in front;
      RoundRobin.GroupMembers(rows[..n], Owner(), front[i]);
      var h := front[i].items[0];
      var a :| 0 <= a < n && rows[..n][a] == h;
      assert Prior(rows[a], rows[n]);
    }
  }

  lemma {:induction false} GroupIndex(groups: seq<RoundRobin.Group<Submission>>, o: string) returns (k: nat)
    ensures k <= |groups| && (forall j :: 0 <= j < k ==> groups[j].owner != o)
    ensures k < |groups| ==> groups[k].owner == o
    decreases |groups|
  {
    if groups == [] || groups[0].owner == o {
      k := 0;
    } else {
      var j := GroupIndex(groups[1..], o);
      k := j + 1;
      assert forall i :: 1 <= i < k ==> groups[i] == groups[1..][i - 1];
    }
  }

  lemma SlotItem(rows: seq<Submission>, list: seq<Submission>, p: nat) returns (i: nat, d: nat)
    requires Ascends(rows) && (forall x :: x in rows <==> x in list)
    requires p < |RoundRobin.Rounds(RoundRobin.Grouped(rows, Owner()))|
    ensures var g := RoundRobin.Grouped(rows, Owner());
      && RoundRobin.At(g, i, d) && RoundRobin.Slot(g, i, d) == p && RoundRobin.Rounds(g)[p] == g[i].items[d]
      && Rank(list, g[i].items[d]) == d && Leads(list, g[i].items[0], g[i].items[d])
  {
    var g := RoundRobin.Grouped(rows, Owner());
    i, d := RoundRobin.SlotOnto(g, p);
    assert g[i] in g;
    RoundRobin.GroupMembers(rows, Owner(), g[i]);
    hide RoundRobin.Grouped, RoundRobin.Rounds, RoundRobin.Slot, RoundRobin.RowsOf, Rank, Leads;
    RoundRobin.SlotHolds(g, i, d);
    RankIsDepth(list, rows, g[i].items, d);
  }

  lemma OrderMeans(rows: seq<Submission>, list: seq<Submission>, a: nat, b: nat)
    requires Ascends(rows) && (forall x :: x in rows <==> x in list)
    requires a < b < |RoundRobin.Rounds(RoundRobin.Grouped(rows, Owner()))|
    ensures var r := RoundRobin.Rounds(RoundRobin.Grouped(rows, Owner())); Ahead(list, r[a], r[b])
  {
    var g := RoundRobin.Grouped(rows, Owner());
    var i, d := SlotItem(rows, list, a);
    var j, e := SlotItem(rows, list, b);
    RoundRobin.SlotOrdered(g, i, d, j, e);
    hide RoundRobin.Grouped, RoundRobin.Rounds, RoundRobin.Slot, Rank, Leads;
    if d == e {
      OwnersInTurn(rows, i, j);
    }
  }

  /**
   The rotation order: every owner's first submission, owner by owner in the order of those, then
   every owner's second one, and so on.
   */
  lemma RotationOrder(t: Tables, f: Frame, a: nat, b: nat)
    requires Unique(t.submissions) && a < b < |BootstrapOrder(CandidateList(t, f))|
    ensures var list := CandidateList(t, f); Ahead(list, BootstrapOrder(list)[a], BootstrapOrder(list)[b])
    ensures forall x :: x in BootstrapOrder(CandidateList(t, f)) <==> x in CandidateList(t, f)
  {
    var list := CandidateList(t, f);
    CandidatesApart(t, f);
    OrderKeepsRows(list);
    var rows := SortSubmissions(list);
    SortedByTime(list);
    SortDistinctModels(list);
    UniqueAscends(rows);
    SortKeepsRows(list);
    ReorderedUnique(list, rows);
    assert BootstrapOrder(list) == RoundRobin.Rounds(RoundRobin.Grouped(rows, Owner())) by {
      SameOwner(rows);
      hide RoundRobin.Rounds, RoundRobin.Grouped, SortSubmissions;
    }
    hide BootstrapOrder, CandidateList, SortSubmissions, Unique, DistinctModels, Ahead, Chronological;
    OrderMeans(rows, list, a, b);
  }

  lemma CandidatesApart(t: Tables, f: Frame)
    requires Unique(t.submissions)
    ensures Unique(CandidateList(t, f)) && DistinctModels(CandidateList(t, f))
  {
    var sorted := SortSubmissions(t.submissions);
    SortKeepsRows(t.submissions);
    ReorderedUnique(t.submissions, sorted);
    ListedRows(sorted, f, t.retired);
  }

  /** Grouping asks the same question of every row. */
  lemma SameOwner(rows: seq<Submission>)
    ensures RoundRobin.Grouped(rows, (x: Submission) => x.coldkey) == RoundRobin.Grouped(rows, Owner())
  {
    assert forall x: Submission :: ((x: Submission) => x.coldkey)(x) == Owner()(x);
  }
}
