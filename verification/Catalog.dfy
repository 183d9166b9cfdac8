/** Source lineage: related sources share one group, named after its smallest member. */
module Catalog {
  import opened Common
  import opened Fingerprints
  import opened Chains
  import Forest
  import Ordering

  /**
   `creator` is the creator after stripping and case folding, empty when it is
   missing or blank.
   */
  datatype Source = Source(id: string, sha256: string, creator: string, parents: seq<string>,
                           visual: Track, audio: Track)

  ghost predicate SameOrigin(a: Source, b: Source)
  {
    a.id == b.id || a.sha256 == b.sha256 || a.id in b.parents || b.id in a.parents ||
    (a.creator != "" && b.creator != "" && a.creator == b.creator)
  }

  ghost predicate Related(a: Source, b: Source)
  {
    SameOrigin(a, b) || Aligned(a.visual, b.visual, 6) || Aligned(a.audio, b.audio, 5)
  }

  method IsRelated(a: Source, b: Source) returns (r: bool)
    ensures r <==> Related(a, b)
  {
    if a.id == b.id || a.sha256 == b.sha256 || a.id in b.parents || b.id in a.parents
       || (a.creator != "" && b.creator != "" && a.creator == b.creator) {
      return true;
    }
    r := Matches(a.visual, b.visual, 64, 6);
    if !r {
      r := Matches(a.audio, b.audio, 32, 5);
    }
  }

  lemma RelatedSymmetric(a: Source, b: Source)
    ensures Related(a, b) <==> Related(b, a)
  {
    if Aligned(a.visual, b.visual, 6) { AlignedSymmetric(a.visual, b.visual, 6); }
    if Aligned(b.visual, a.visual, 6) { AlignedSymmetric(b.visual, a.visual, 6); }
    if Aligned(a.audio, b.audio, 5) { AlignedSymmetric(a.audio, b.audio, 5); }
    if Aligned(b.audio, a.audio, 5) { AlignedSymmetric(b.audio, a.audio, 5); }
  }

  // ---------------------------------------------------------------- lineage

  function Ids(sources: seq<Source>): set<string>
  {
    set s | s in sources :: s.id
  }

  /** Pairs of ids that belong to related sources. */
  ghost function Lineage(sources: seq<Source>): set<(string, string)>
  {
    set s, t | s in sources && t in sources && Related(s, t) :: (s.id, t.id)
  }

  lemma LineageWithinIds(sources: seq<Source>)
    ensures Within(Lineage(sources), Ids(sources))
  {
  }

  // ---------------------------------------------------------------- grouping

  /** The pairs visited before the inner loop reaches `(i, j)`. */
  ghost predicate Visited(n: nat, i: nat, j: nat, p: nat, q: nat)
  {
    p < q < n && (p < i || (p == i && q < j))
  }

  /** Every related pair visited so far shares a representative. */
  ghost predicate SettledBefore(sources: seq<Source>, root: string -> string, i: nat, j: nat)
  {
    forall p: nat, q: nat :: Visited(|sources|, i, j, p, q) && Related(sources[p], sources[q]) ==>
                               root(sources[p].id) == root(sources[q].id)
  }

  lemma SettledNext(sources: seq<Source>, before: string -> string, after: string -> string, i: nat, j: nat)
    requires i < j < |sources| && SettledBefore(sources, before, i, j)
    requires forall k, l :: before(k) == before(l) ==> after(k) == after(l)
    requires Related(sources[i], sources[j]) ==> after(sources[i].id) == after(sources[j].id)
    ensures SettledBefore(sources, after, i, j + 1)
  {
    hide Related;
    forall p: nat, q: nat | Visited(|sources|, i, j + 1, p, q) && Related(sources[p], sources[q])
      ensures after(sources[p].id) == after(sources[q].id)
    {
      assert Visited(|sources|, i, j, p, q) || (p == i && q == j);
    }
  }

  lemma SettledRow(sources: seq<Source>, root: string -> string, i: nat)
    requires i < |sources|
    ensures SettledBefore(sources, root, 0, 0)
    ensures SettledBefore(sources, root, i, 0) ==> SettledBefore(sources, root, i, i + 1)
    ensures SettledBefore(sources, root, i, |sources|) ==> SettledBefore(sources, root, i + 1, 0)
  {
    hide Related;
    assert forall p: nat, q: nat :: Visited(|sources|, i, i + 1, p, q) ==> Visited(|sources|, i, 0, p, q);
    assert forall p: nat, q: nat :: Visited(|sources|, i + 1, 0, p, q) ==> Visited(|sources|, i, |sources|, p, q);
  }

  lemma AllSettled(sources: seq<Source>, root: string -> string)
    requires SettledBefore(sources, root, |sources|, 0)
    ensures Settled(Lineage(sources), root)
  {
    forall s, t | s in sources && t in sources && Related(s, t)
      ensures root(s.id) == root(t.id)
    {
      var i: nat :| i < |sources| && sources[i] == s;
      var j: nat :| j < |sources| && sources[j] == t;
      RelatedSymmetric(s, t);
      assert i < j ==> Visited(|sources|, |sources|, 0, i, j);
      assert j < i ==> Visited(|sources|, |sources|, 0, j, i);
    }
  }

  /** Representatives are linked to their keys, and the pairs before `(i, j)` are settled. */
  ghost predicate Progress(sources: seq<Source>, root: string -> string, i: nat, j: nat)
  {
    Sound(Lineage(sources), Ids(sources), root) && SettledBefore(sources, root, i, j)
  }

  lemma ProgressStarts(sources: seq<Source>, root: string -> string)
    requires forall k :: root(k) == k
    ensures Progress(sources, root, 0, 0)
  {
    forall x
      ensures Linked(Lineage(sources), x, root(x))
    {
      LinkedReflexive(Lineage(sources), x);
    }
  }

  lemma ProgressRow(sources: seq<Source>, root: string -> string, i: nat)
    requires i < |sources|
    ensures Progress(sources, root, i, 0) ==> Progress(sources, root, i, i + 1)
    ensures Progress(sources, root, i, |sources|) ==> Progress(sources, root, i + 1, 0)
  {
    SettledRow(sources, root, i);
  }

  /** Pairwise grouping; pairs whose representatives already agree are skipped. */
  method Group(sources: seq<Source>) returns (f: Forest.Forest<string>)
    ensures fresh(f) && f.Valid() && f.parent.Keys == Ids(sources)
    ensures Sound(Lineage(sources), Ids(sources), f.root) && Settled(Lineage(sources), f.root)
  {
    f := new Forest.Forest(Ids(sources));
    ProgressStarts(sources, f.root);
    hide *;
    for i := 0 to |sources|
      invariant f.Valid() && f.parent.Keys == Ids(sources) && Progress(sources, f.root, i, 0)
    {
      JoinRow(sources, f, i);
    }
    ProgressEnds(sources, f.root);
  }

  /** The inner loop: one source against all later ones. */
  method JoinRow(sources: seq<Source>, f: Forest.Forest<string>, i: nat)
    requires i < |sources| && f.Valid() && f.parent.Keys == Ids(sources) && Progress(sources, f.root, i, 0)
    modifies f
    ensures f.Valid() && f.parent.Keys == Ids(sources) && Progress(sources, f.root, i + 1, 0)
  {
    hide *;
    ProgressRow(sources, f.root, i);
    for j := i + 1 to |sources|
      invariant f.Valid() && f.parent.Keys == Ids(sources) && Progress(sources, f.root, i, j)
    {
      Join(sources, f, i, j);
    }
    ProgressRow(sources, f.root, i);
  }

  lemma ProgressEnds(sources: seq<Source>, root: string -> string)
    requires Progress(sources, root, |sources|, 0)
    ensures Sound(Lineage(sources), Ids(sources), root) && Settled(Lineage(sources), root)
  {
    AllSettled(sources, root);
  }

  method Join(sources: seq<Source>, f: Forest.Forest<string>, i: nat, j: nat)
    requires i < j < |sources| && f.Valid() && f.parent.Keys == Ids(sources)
    requires Progress(sources, f.root, i, j)
    modifies f
    ensures f.Valid() && f.parent.Keys == Ids(sources) && Progress(sources, f.root, i, j + 1)
  {
    hide Related, Sound, SettledBefore, Forest.IsForest;
    assert sources[i].id in Ids(sources) && sources[j].id in Ids(sources);
    ghost var before := f.root;
    var a := f.Find(sources[i].id);
    var b := f.Find(sources[j].id);
    if a != b {
      var related := IsRelated(sources[i], sources[j]);
      if related {
        f.Link(b, a);
        LineagePair(sources, i, j);
        MergeSound(Lineage(sources), Ids(sources), before, f.root, sources[i].id, sources[j].id);
      }
    }
    SettledNext(sources, before, f.root, i, j);
  }

  lemma LineagePair(sources: seq<Source>, i: nat, j: nat)
    requires i < |sources| && j < |sources| && Related(sources[i], sources[j])
    ensures (sources[i].id, sources[j].id) in Lineage(sources)
  {
    hide Related;
  }

  // ---------------------------------------------------------------- group names

  /** `m` is the smallest id that a chain from `x` reaches. */
  ghost predicate SmallestLinked(sources: seq<Source>, m: string, x: string)
  {
    Linked(Lineage(sources), x, m) && forall y :: Linked(Lineage(sources), x, y) ==> Ordering.Leq(m, y)
  }

  /** Every id is mapped to the smallest id its chains reach. */
  ghost predicate Grouping(sources: seq<Source>, groups: map<string, string>)
  {
    groups.Keys == Ids(sources) && forall x :: x in groups ==> SmallestLinked(sources, groups[x], x)
  }

  method Smallest(ids: set<string>) returns (m: string)
    requires ids != {}
    ensures m in ids && forall y :: y in ids ==> Ordering.Leq(m, y)
  {
    m := AnyOf(ids);
    var todo := ids - {m};
    while todo != {}
      invariant m in ids && todo <= ids
      invariant forall y :: y in ids && y !in todo ==> Ordering.Leq(m, y)
      decreases |todo|
    {
      var y := AnyOf(todo);
      Ordering.LessTotal(m, y);
      if Ordering.Less(y, m) {
        forall z | z in ids && z !in todo
          ensures Ordering.Leq(y, z)
        {
          if m != z { Ordering.LessTransitive(y, m, z); }
        }
        m := y;
      }
      todo := todo - {y};
    }
  }

  /** Ids represented by `r`. */
  ghost function Component(ids: set<string>, root: string -> string, r: string): set<string>
  {
    set x | x in ids && root(x) == r
  }

  /** The ids in `done` are filed under their representatives. */
  ghost predicate Filed(done: set<string>, root: string -> string, members: map<string, set<string>>)
  {
    && (forall x :: x in done ==> root(x) in members)
    && (forall r :: r in members ==> members[r] == Component(done, root, r) && members[r] != {})
  }

  lemma FileOne(done: set<string>, root: string -> string, members: map<string, set<string>>, x: string)
    requires Filed(done, root, members) && x !in done
    ensures var r := root(x);
            Filed(done + {x}, root, members[r := (if r in members then members[r] else {}) + {x}])
  {
    var r := root(x);
    var more := members[r := (if r in members then members[r] else {}) + {x}];
    forall s | s in more
      ensures more[s] == Component(done + {x}, root, s) && more[s] != {}
    {
      if s !in members {
        assert Component(done, root, s) == {};
      }
    }
  }

  lemma FileNext(ids: set<string>, todo: set<string>, root: string -> string, members: map<string, set<string>>,
                 x: string)
    requires Filed(ids - todo, root, members) && x in todo && todo <= ids
    ensures var r := root(x);
            Filed(ids - (todo - {x}), root, members[r := (if r in members then members[r] else {}) + {x}])
  {
    hide Filed;
    FileOne(ids - todo, root, members, x);
    assert ids - (todo - {x}) == ids - todo + {x};
  }

  lemma FileNone(ids: set<string>, root: string -> string, members: map<string, set<string>>)
    ensures Filed(ids - ids, root, map[])
    ensures Filed(ids - {}, root, members) ==> Filed(ids, root, members)
  {
    assert ids - ids == {} && ids - {} == ids;
  }

  /** `members[find(x)].append(x)` for every id. */
  method Members(f: Forest.Forest<string>, ids: set<string>) returns (members: map<string, set<string>>)
    requires f.Valid() && f.parent.Keys == ids
    modifies f`parent
    ensures Filed(ids, f.root, members)
  {
    hide *;
    members := map[];
    var todo := ids;
    FileNone(ids, f.root, members);
    while todo != {}
      invariant f.Valid() && f.parent.Keys == ids && todo <= ids
      invariant Filed(ids - todo, f.root, members)
      decreases |todo|
    {
      var x := AnyOf(todo);
      var r := f.Find(x);
      FileNext(ids, todo, f.root, members, x);
      members := members[r := (if r in members then members[r] else {}) + {x}];
      todo := todo - {x};
    }
    FileNone(ids, f.root, members);
  }

  /** `m` is the smallest id with representative `r`. */
  ghost predicate SmallestOf(ids: set<string>, root: string -> string, m: string, r: string)
  {
    m in ids && root(m) == r && forall y :: y in ids && root(y) == r ==> Ordering.Leq(m, y)
  }

  /** Every component outside `names` has its name. */
  ghost predicate Named(ids: set<string>, root: string -> string, names: set<string>, groups: map<string, string>)
  {
    && (forall x :: x in groups <==> x in ids && root(x) !in names)
    && (forall x :: x in groups ==> SmallestOf(ids, root, groups[x], root(x)))
  }

  lemma NameOne(ids: set<string>, root: string -> string, names: set<string>, groups: map<string, string>,
                r: string, m: string)
    requires Named(ids, root, names, groups) && r in names && SmallestOf(ids, root, m, r)
    ensures Named(ids, root, names - {r}, groups + map x | x in Component(ids, root, r) :: m)
  {
    hide SmallestOf;
  }

  lemma NothingNamed(ids: set<string>, root: string -> string, members: map<string, set<string>>)
    requires Filed(ids, root, members)
    ensures Named(ids, root, members.Keys, map[])
  {
  }

  lemma FiledComponent(ids: set<string>, root: string -> string, members: map<string, set<string>>, r: string)
    requires Filed(ids, root, members) && r in members
    ensures members[r] == Component(ids, root, r) && members[r] != {}
  {
  }

  lemma SmallestMember(ids: set<string>, root: string -> string, members: map<string, set<string>>, r: string,
                       m: string)
    requires Filed(ids, root, members) && r in members && m in members[r]
    requires forall y :: y in members[r] ==> Ordering.Leq(m, y)
    ensures SmallestOf(ids, root, m, r)
  {
  }

  /** The grouping of the catalogue: connected components named after their smallest id. */
  method Build(sources: seq<Source>) returns (groups: map<string, string>)
    ensures Grouping(sources, groups)
  {
    hide Grouping, Sound, Settled, Ids, Filed;
    var f := Group(sources);
    ghost var ids, root := Ids(sources), f.root;
    var members := Members(f, f.parent.Keys);
    groups := map[];
    var names := members.Keys;
    NothingNamed(ids, root, members);
    while names != {}
      invariant names <= members.Keys && Named(ids, root, names, groups)
      decreases |names|
    {
      hide Named, SmallestOf;
      var r := AnyOf(names);
      FiledComponent(ids, root, members, r);
      var m := Smallest(members[r]);
      SmallestMember(ids, root, members, r, m);
      NameOne(ids, root, names, groups, r, m);
      groups := groups + map x | x in members[r] :: m;
      names := names - {r};
    }
    NamesAreGroups(sources, root, groups);
  }

  lemma NameIsGroup(sources: seq<Source>, root: string -> string, m: string, x: string)
    requires Sound(Lineage(sources), Ids(sources), root) && Settled(Lineage(sources), root)
    requires x in Ids(sources) && SmallestOf(Ids(sources), root, m, root(x))
    ensures SmallestLinked(sources, m, x)
  {
    hide Linked, Sound, Settled;
    var edges, ids := Lineage(sources), Ids(sources);
    RootsAreComponents(edges, ids, root, x, m);
    forall y | Linked(edges, x, y)
      ensures Ordering.Leq(m, y)
    {
      LineageWithinIds(sources);
      LinkedStays(edges, ids, x, y);
      RootsAreComponents(edges, ids, root, x, y);
    }
  }

  lemma NamesAreGroups(sources: seq<Source>, root: string -> string, groups: map<string, string>)
    requires Sound(Lineage(sources), Ids(sources), root) && Settled(Lineage(sources), root)
    requires Named(Ids(sources), root, {}, groups)
    ensures Grouping(sources, groups)
  {
    hide Ids, Sound, Settled, SmallestLinked, SmallestOf, Lineage, Linked, Ordering.Leq;
    assert groups.Keys == Ids(sources);
    forall x | x in groups
      ensures SmallestLinked(sources, groups[x], x)
    {
      NameIsGroup(sources, root, groups[x], x);
    }
  }

  // ---------------------------------------------------------------- what a grouping means

  /** Two sources share a group exactly when a chain links them; group names name themselves. */
  lemma GroupsAreComponents(sources: seq<Source>, groups: map<string, string>, x: string, y: string)
    requires Grouping(sources, groups) && x in groups && y in groups
    ensures groups[x] == groups[y] <==> Linked(Lineage(sources), x, y)
    ensures groups[x] in groups && groups[groups[x]] == groups[x]
  {
    var edges := Lineage(sources);
    if groups[x] == groups[y] {
      LinkedSymmetric(edges, y, groups[y]);
      LinkedTransitive(edges, x, groups[x], y);
    }
    if Linked(edges, x, y) {
      SameGroup(sources, groups, x, y);
    }
    LineageWithinIds(sources);
    LinkedStays(edges, Ids(sources), x, groups[x]);
    SameGroup(sources, groups, x, groups[x]);
  }

  lemma SameGroup(sources: seq<Source>, groups: map<string, string>, x: string, y: string)
    requires Grouping(sources, groups) && x in groups && y in groups && Linked(Lineage(sources), x, y)
    ensures groups[x] == groups[y]
  {
    var edges := Lineage(sources);
    LinkedTransitive(edges, x, y, groups[y]);
    LinkedSymmetric(edges, x, y);
    LinkedTransitive(edges, y, x, groups[x]);
    if groups[x] != groups[y] {
      Ordering.LessAsymmetric(groups[x], groups[y]);
    }
  }

  /** The grouping does not depend on the order, or the repetition, of the sources. */
  lemma GroupingIgnoresOrder(sources: seq<Source>, other: seq<Source>, groups: map<string, string>, more: map<string,
                             string>)
    requires forall s :: s in sources <==> s in other
    requires Grouping(sources, groups) && Grouping(other, more)
    ensures groups == more
  {
    hide Related, Linked;
    assert Ids(sources) == Ids(other);
    assert Lineage(sources) == Lineage(other);
    forall x | x in groups
      ensures groups[x] == more[x]
    {
      if groups[x] != more[x] {
        Ordering.LessAsymmetric(groups[x], more[x]);
      }
    }
  }

  // ---------------------------------------------------------------- validation of a built catalogue

  datatype Split = Train | Dev | Eval | Quarantine

  ghost predicate DistinctIds(sources: seq<Source>) { |Ids(sources)| == |sources| }

  ghost predicate ParentsKnown(sources: seq<Source>)
  {
    forall s, p :: s in sources && p in s.parents ==> p in Ids(sources)
  }

  /** No chain of related sources leads from one usable split into another. */
  ghost predicate SplitsClosed(sources: seq<Source>, splits: map<string, Split>)
    requires splits.Keys == Ids(sources)
  {
    forall x, y ::
      && x in splits && y in splits && Linked(Lineage(sources), x, y)
      && splits[x] != Quarantine && splits[y] != Quarantine
      ==> splits[x] == splits[y]
  }

  predicate CrossesSplits(groups: map<string, string>, splits: map<string, Split>)
    requires splits.Keys == groups.Keys
  {
    exists x, y :: x in groups && y in groups && groups[x] == groups[y] &&
                   splits[x] != Quarantine && splits[y] != Quarantine && splits[x] != splits[y]
  }

  /** A catalogue is accepted exactly when no lineage crosses its splits and its references resolve. */
  method Create(sources: seq<Source>, splits: map<string, Split>) returns (r: Try<map<string, string>>)
    ensures r.Ok? ==> Grouping(sources, r.value)
    ensures r.Ok? <==> DistinctIds(sources) && splits.Keys == Ids(sources) && ParentsKnown(sources) &&
                       SplitsClosed(sources, splits)
  {
    var groups := Build(sources);
    var ids := Ids(sources);
    NamesNameThemselves(sources, groups);
    if |ids| != |sources| || splits.Keys != ids || groups.Keys != ids
       || exists x :: x in groups && (groups[x] !in groups || groups[groups[x]] != groups[x]) {
      return Err("catalog_source_identity_mismatch");
    }
    if exists s :: s in sources && exists p :: p in s.parents && p !in ids {
      return Err("unknown_source_parent");
    }
    CrossingIsLineage(sources, splits, groups);
    if CrossesSplits(groups, splits) {
      return Err("source_lineage_crosses_splits");
    }
    return Ok(groups);
  }

  lemma NamesNameThemselves(sources: seq<Source>, groups: map<string, string>)
    requires Grouping(sources, groups)
    ensures forall x :: x in groups ==> groups[x] in groups && groups[groups[x]] == groups[x]
  {
    forall x | x in groups
      ensures groups[x] in groups && groups[groups[x]] == groups[x]
    {
      GroupsAreComponents(sources, groups, x, x);
    }
  }

  lemma CrossingIsLineage(sources: seq<Source>, splits: map<string, Split>, groups: map<string, string>)
    requires Grouping(sources, groups) && splits.Keys == Ids(sources)
    ensures CrossesSplits(groups, splits) <==> !SplitsClosed(sources, splits)
  {
    forall x, y | x in groups && y in groups
      ensures groups[x] == groups[y] <==> Linked(Lineage(sources), x, y)
    {
      GroupsAreComponents(sources, groups, x, y);
    }
  }
}
