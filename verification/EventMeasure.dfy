/** The loops of event scoring, proved to compute the score that EventScoring defines. */
module EventMeasure {
  import opened Common
  import opened Chains
  import opened Credit
  import opened Dicts
  import opened EventScoring
  import opened Rationals
  import opened Spans
  import opened Sums
  import Forest
  import Ordering

  // ---------------------------------------------------------------- joining facts

  /** A name is a key that does not come after the key it names. */
  ghost predicate Down(keys: set<FactKey>, root: FactKey -> FactKey, k: FactKey)
  {
    root(k) in keys && k.Labelled? && root(k).Labelled? && (root(k) == k || KeyLess(root(k), k))
  }

  ghost predicate AllDown(keys: set<FactKey>, root: FactKey -> FactKey)
  {
    forall k {:trigger Down(keys, root, k)} :: k in keys ==> Down(keys, root, k)
  }

  /** The pairs in `done` are joined; names stay on chains and only move down. */
  ghost predicate Joining(x: Input, root: FactKey -> FactKey, done: set<(FactKey, FactKey)>)
  {
    Sound(Joined(x), FactKeys(x), root) && AllDown(FactKeys(x), root) && Settled(done, root)
  }

  lemma JoiningStarts(x: Input, root: FactKey -> FactKey)
    requires forall k :: root(k) == k
    ensures Joining(x, root, {})
  {
    forall k ensures Linked(Joined(x), k, root(k)) {
      LinkedReflexive(Joined(x), k);
    }
    KeysAreLabelled(x);
  }

  lemma KeyLessTransitive(a: FactKey, b: FactKey, c: FactKey)
    requires a.Labelled? && b.Labelled? && c.Labelled? && KeyLess(a, b) && KeyLess(b, c)
    ensures KeyLess(a, c)
  {
    if a.reference == b.reference == c.reference {
      Ordering.LessTransitive(a.id, b.id, c.id);
    }
  }

  lemma KeyLessTotal(a: FactKey, b: FactKey)
    requires a.Labelled? && b.Labelled?
    ensures a == b || KeyLess(a, b) || KeyLess(b, a)
  {
    Ordering.LessTotal(a.id, b.id);
  }

  lemma MergeDown(keys: set<FactKey>, root: FactKey -> FactKey, child: FactKey, target: FactKey)
    requires AllDown(keys, root) && target in keys && child in keys && child.Labelled? && target.Labelled?
    requires KeyLess(target, child)
    ensures AllDown(keys, Forest.Merged(root, child, target))
  {
    var merged := Forest.Merged(root, child, target);
    forall k | k in keys
      ensures Down(keys, merged, k)
    {
      assert Down(keys, root, k);
      if root(k) == child && child != k {
        KeyLessTransitive(target, child, k);
      }
    }
  }

  lemma MergeJoins(x: Input, root: FactKey -> FactKey, done: set<(FactKey, FactKey)>, a: FactKey, b: FactKey,
                   child: FactKey, target: FactKey)
    requires Joining(x, root, done) && (a, b) in Joined(x) && a in FactKeys(x) && b in FactKeys(x)
    requires (child == root(b) && target == root(a)) || (child == root(a) && target == root(b))
    requires child in FactKeys(x) && target in FactKeys(x) && child.Labelled? && target.Labelled?
      && KeyLess(target, child)
    ensures Joining(x, Forest.Merged(root, child, target), done + {(a, b)})
  {
    hide Joined, FactKeys, Linked, KeyLess;
    var merged := Forest.Merged(root, child, target);
    MergeDown(FactKeys(x), root, child, target);
    if child == root(b) {
      MergeSound(Joined(x), FactKeys(x), root, merged, a, b);
    } else {
      MergeSound(Joined(x), FactKeys(x), root, merged, b, a);
    }
    SettledStays(done, root, merged);
  }

  /** `join(a, b)`: the larger representative is hung below the smaller one. */
  method Join(x: Input, f: Forest.Forest<FactKey>, a: FactKey, b: FactKey, ghost done: set<(FactKey, FactKey)>)
    requires f.Valid() && f.parent.Keys == FactKeys(x) && Joining(x, f.root, done)
    requires (a, b) in Joined(x) && a in FactKeys(x) && b in FactKeys(x)
    modifies f
    ensures f.Valid() && f.parent.Keys == FactKeys(x) && Joining(x, f.root, done + {(a, b)})
  {
    hide Joined, FactKeys, Sound, Forest.IsForest, KeyLess;
    assert Down(FactKeys(x), f.root, a) && Down(FactKeys(x), f.root, b);
    ghost var before := f.root;
    var r := f.Find(a);
    var s := f.Find(b);
    if r != s {
      KeyLessTotal(r, s);
      if KeyLess(r, s) {
        f.Link(s, r);
        MergeJoins(x, before, done, a, b, s, r);
      } else {
        f.Link(r, s);
        MergeJoins(x, before, done, a, b, r, s);
      }
    }
  }

  /** Every pair of duplicate labels is joined. */
  method JoinDuplicates(x: Input, f: Forest.Forest<FactKey>, keys: set<FactKey>)
    returns (ghost done: set<(FactKey, FactKey)>)
    requires f.Valid() && f.parent.Keys == FactKeys(x) == keys && Joining(x, f.root, {})
    modifies f
    ensures f.Valid() && f.parent.Keys == FactKeys(x) && Joining(x, f.root, done)
    ensures forall a, b :: a in keys && b in keys && Duplicates(x, a, b) ==> (a, b) in done
  {
    hide Joining, Duplicates, FactKeys, Forest.IsForest;
    done := {};
    var left := keys;
    while left != {}
      invariant f.Valid() && f.parent.Keys == FactKeys(x) && Joining(x, f.root, done) && left <= keys
      invariant forall a, b :: a in keys && a !in left && b in keys && Duplicates(x, a, b) ==> (a, b) in done
      decreases |left|
    {
      var a := AnyOf(left);
      done := JoinDuplicatesOf(x, f, keys, a, done);
      left := left - {a};
    }
  }

  lemma DuplicatesJoined(x: Input, a: FactKey, b: FactKey)
    requires a in FactKeys(x) && b in FactKeys(x) && Duplicates(x, a, b)
    ensures (a, b) in Joined(x)
  {
  }

  method JoinDuplicatesOf(x: Input, f: Forest.Forest<FactKey>, keys: set<FactKey>, a: FactKey,
                          ghost done0: set<(FactKey, FactKey)>)
    returns (ghost done: set<(FactKey, FactKey)>)
    requires f.Valid() && f.parent.Keys == FactKeys(x) == keys && Joining(x, f.root, done0) && a in keys
    modifies f
    ensures f.Valid() && f.parent.Keys == FactKeys(x) && Joining(x, f.root, done) && done0 <= done
    ensures forall b :: b in keys && Duplicates(x, a, b) ==> (a, b) in done
  {
    hide Joining, Duplicates, FactKeys, Forest.IsForest, Joined;
    done := done0;
    var right := keys;
    while right != {}
      invariant f.Valid() && f.parent.Keys == FactKeys(x) && Joining(x, f.root, done) && right <= keys && done0 <= done
      invariant forall b :: b in keys && b !in right && Duplicates(x, a, b) ==> (a, b) in done
      decreases |right|
    {
      var b := AnyOf(right);
      if Duplicates(x, a, b) {
        DuplicatesJoined(x, a, b);
        Join(x, f, a, b, done);
        done := done + {(a, b)};
      }
      right := right - {b};
    }
  }

  // ---------------------------------------------------------------- alias lists

  /** The dictionary of alias lists after `n` assessments and the first `m` parts of the next one. */
  ghost predicate AliasTable(x: Input, claim: string, n: nat, m: nat, table: map<string, seq<FactKey>>)
    requires n <= |x.assessments| && (n < |x.assessments| ==> m <= |Verdicts(x.assessments[n], claim)|)
  {
    forall text :: Listed(table, text) == AliasesUpTo(x, claim, n, m, text)
  }

  function Listed(table: map<string, seq<FactKey>>, text: string): seq<FactKey>
  {
    if text in table then table[text] else []
  }

  ghost function AliasesUpTo(x: Input, claim: string, n: nat, m: nat, text: string): seq<FactKey>
    requires n <= |x.assessments| && (n < |x.assessments| ==> m <= |Verdicts(x.assessments[n], claim)|)
  {
    Aliases(x.assessments, n, claim, text) +
    if n < |x.assessments| then PartAliases(n, Verdicts(x.assessments[n], claim)[..m], text) else []
  }

  /** `aliases[text].append(...)` for a part that cites a single fact in support. */
  function Noted(table: map<string, seq<FactKey>>, n: nat, p: Part): map<string, seq<FactKey>>
  {
    if p.status == Supported && |p.facts| == 1 then table[p.text := Listed(table, p.text) + [Labelled(n, p.facts[0])]]
    else table
  }

  lemma NotedAt(table: map<string, seq<FactKey>>, n: nat, p: Part, text: string)
    ensures Listed(Noted(table, n, p), text) == Listed(table, text) + PartAliases(n, [p], text)
  {
    assert [p][..0] == [];
    assert PartAliases(n, [], text) == [];
  }

  lemma AliasesNext(x: Input, claim: string, n: nat, m: nat, text: string)
    requires n < |x.assessments| && m < |Verdicts(x.assessments[n], claim)|
    ensures AliasesUpTo(x, claim, n, m + 1, text) ==
            AliasesUpTo(x, claim, n, m, text) + PartAliases(n, [Verdicts(x.assessments[n], claim)[m]], text)
  {
    var parts := Verdicts(x.assessments[n], claim);
    assert parts[..m + 1][..m] == parts[..m];
    assert [parts[m]][..0] == [];
    assert PartAliases(n, [], text) == [];
  }

  lemma AliasNext(x: Input, claim: string, n: nat, m: nat, table: map<string, seq<FactKey>>)
    requires n < |x.assessments| && m < |Verdicts(x.assessments[n], claim)| && AliasTable(x, claim, n, m, table)
    ensures AliasTable(x, claim, n, m + 1, Noted(table, n, Verdicts(x.assessments[n], claim)[m]))
  {
    var p := Verdicts(x.assessments[n], claim)[m];
    hide Noted, Listed, AliasesUpTo, PartAliases, Verdicts;
    forall text
      ensures Listed(Noted(table, n, p), text) == AliasesUpTo(x, claim, n, m + 1, text)
    {
      NotedAt(table, n, p, text);
      AliasesNext(x, claim, n, m, text);
    }
  }

  lemma AliasRow(x: Input, claim: string, n: nat, table: map<string, seq<FactKey>>)
    requires n < |x.assessments|
    ensures AliasTable(x, claim, n, |Verdicts(x.assessments[n], claim)|, table) ==>
      AliasTable(x, claim, n + 1, 0, table)
  {
    var parts := Verdicts(x.assessments[n], claim);
    assert parts[..|parts|] == parts;
    forall text
      ensures AliasesUpTo(x, claim, n + 1, 0, text) == AliasesUpTo(x, claim, n, |parts|, text)
    {
    }
  }

  method AliasLists(x: Input, claim: string) returns (table: map<string, seq<FactKey>>)
    ensures AliasTable(x, claim, |x.assessments|, 0, table)
  {
    table := map[];
    assert AliasTable(x, claim, 0, 0, table);
    hide *;
    for n := 0 to |x.assessments|
      invariant AliasTable(x, claim, n, 0, table)
    {
      table := AliasesOf(x, claim, n, table);
    }
  }

  /** The parts of one assessment. */
  method AliasesOf(x: Input, claim: string, n: nat, table0: map<string, seq<FactKey>>)
    returns (table: map<string, seq<FactKey>>)
    requires n < |x.assessments| && AliasTable(x, claim, n, 0, table0)
    ensures AliasTable(x, claim, n + 1, 0, table)
  {
    hide AliasTable;
    table := table0;
    var parts := Verdicts(x.assessments[n], claim);
    for m := 0 to |parts|
      invariant AliasTable(x, claim, n, m, table)
    {
      var p := parts[m];
      AliasNext(x, claim, n, m, table);
      if p.status == Supported && |p.facts| == 1 {
        table := table[p.text := Listed(table, p.text) + [Labelled(n, p.facts[0])]];
      }
    }
    AliasRow(x, claim, n, table);
  }

  /** Neighbours of one alias list that lie in different annotations and overlap are joined. */
  ghost predicate ListJoined(x: Input, list: seq<FactKey>, n: int, done: set<(FactKey, FactKey)>)
  {
    forall i :: 0 <= i < |list| - 1 && i < n && Cross(x, list[i], list[i + 1]) ==> (list[i], list[i + 1]) in done
  }

  method JoinList(x: Input, f: Forest.Forest<FactKey>, ghost c: Claim, ghost text: string, list: seq<FactKey>,
                  ghost done0: set<(FactKey, FactKey)>)
    returns (ghost done: set<(FactKey, FactKey)>)
    requires f.Valid() && f.parent.Keys == FactKeys(x) && Joining(x, f.root, done0) && c in x.claims
    requires list == Aliases(x.assessments, |x.assessments|, c.id, text)
    modifies f
    ensures f.Valid() && f.parent.Keys == FactKeys(x) && Joining(x, f.root, done) && done0 <= done
    ensures ListJoined(x, list, |list|, done)
  {
    hide Joining, FactKeys, Forest.IsForest, Joined, Aliases, Cross;
    done := done0;
    var i := 0;
    while i < |list| - 1
      invariant 0 <= i && f.Valid() && f.parent.Keys == FactKeys(x) && Joining(x, f.root, done) && done0 <= done
      invariant ListJoined(x, list, i, done)
    {
      var a, b := list[i], list[i + 1];
      if Cross(x, a, b) {
        AliasJoined(x, c, text, i, a, b);
        Join(x, f, a, b, done);
        done := done + {(a, b)};
      }
      i := i + 1;
    }
  }

  lemma AliasJoined(x: Input, c: Claim, text: string, i: int, a: FactKey, b: FactKey)
    requires c in x.claims
    requires var list := Aliases(x.assessments, |x.assessments|, c.id, text);
             0 <= i < |list| - 1 && list[i] == a && list[i + 1] == b && Cross(x, a, b)
    ensures a in FactKeys(x) && b in FactKeys(x) && (a, b) in Joined(x)
  {
    assert AliasedAt(x, c.id, text, i, a, b);
    assert Aliased(x, c.id, a, b);
  }

  /** Every aliased pair of one claim is joined. */
  ghost predicate ClaimJoined(x: Input, claim: string, done: set<(FactKey, FactKey)>)
  {
    forall text :: var list := Aliases(x.assessments, |x.assessments|, claim, text); ListJoined(x, list, |list|, done)
  }

  lemma ListStays(x: Input, list: seq<FactKey>, n: int, done: set<(FactKey, FactKey)>, more: set<(FactKey, FactKey)>)
    requires ListJoined(x, list, n, done) && done <= more
    ensures ListJoined(x, list, n, more)
  {
  }

  method JoinClaim(x: Input, f: Forest.Forest<FactKey>, c: Claim, ghost done0: set<(FactKey, FactKey)>)
    returns (ghost done: set<(FactKey, FactKey)>)
    requires f.Valid() && f.parent.Keys == FactKeys(x) && Joining(x, f.root, done0) && c in x.claims
    modifies f
    ensures f.Valid() && f.parent.Keys == FactKeys(x) && Joining(x, f.root, done) && done0 <= done
    ensures ClaimJoined(x, c.id, done)
  {
    var table := AliasLists(x, c.id);
    AliasTableIs(x, c.id, table);
    hide *;
    done := done0;
    var todo := table.Keys;
    while todo != {}
      invariant f.Valid() && f.parent.Keys == FactKeys(x) && Joining(x, f.root, done) && done0 <= done
        && todo <= table.Keys
      invariant forall text :: text in table && text !in todo ==> ListJoined(x, table[text], |table[text]|, done)
      decreases |todo|
    {
      var text := AnyOf(todo);
      ghost var before := done;
      done := JoinList(x, f, c, text, table[text], done);
      forall t | t in table && t !in todo
        ensures ListJoined(x, table[t], |table[t]|, done)
      {
        ListStays(x, table[t], |table[t]|, before, done);
      }
      todo := todo - {text};
    }
    TableJoined(x, c.id, table, done);
  }

  lemma AliasTableIs(x: Input, claim: string, table: map<string, seq<FactKey>>)
    requires AliasTable(x, claim, |x.assessments|, 0, table)
    ensures forall text :: Listed(table, text) == Aliases(x.assessments, |x.assessments|, claim, text)
  {
    forall text
      ensures AliasesUpTo(x, claim, |x.assessments|, 0, text) == Aliases(x.assessments, |x.assessments|, claim, text)
    {
    }
  }

  lemma TableJoined(x: Input, claim: string, table: map<string, seq<FactKey>>, done: set<(FactKey, FactKey)>)
    requires forall text :: Listed(table, text) == Aliases(x.assessments, |x.assessments|, claim, text)
    requires forall text :: text in table ==> ListJoined(x, table[text], |table[text]|, done)
    ensures ClaimJoined(x, claim, done)
  {
    hide Aliases, Cross;
    forall text
      ensures var list := Aliases(x.assessments, |x.assessments|, claim, text); ListJoined(x, list, |list|, done)
    {
      if text in table {
        assert ListJoined(x, table[text], |table[text]|, done);
      }
    }
  }

  method JoinAliases(x: Input, f: Forest.Forest<FactKey>, ghost done0: set<(FactKey, FactKey)>)
    returns (ghost done: set<(FactKey, FactKey)>)
    requires f.Valid() && f.parent.Keys == FactKeys(x) && Joining(x, f.root, done0)
    modifies f
    ensures f.Valid() && f.parent.Keys == FactKeys(x) && Joining(x, f.root, done) && done0 <= done
    ensures forall c :: c in x.claims ==> ClaimJoined(x, c.id, done)
  {
    hide *;
    done := done0;
    for i := 0 to |x.claims|
      invariant f.Valid() && f.parent.Keys == FactKeys(x) && Joining(x, f.root, done) && done0 <= done
      invariant forall j :: 0 <= j < i ==> ClaimJoined(x, x.claims[j].id, done)
    {
      ghost var before := done;
      done := JoinClaim(x, f, x.claims[i], done);
      forall j | 0 <= j < i
        ensures ClaimJoined(x, x.claims[j].id, done)
      {
        ClaimStays(x, x.claims[j].id, before, done);
      }
    }
  }

  lemma ClaimStays(x: Input, claim: string, done: set<(FactKey, FactKey)>, more: set<(FactKey, FactKey)>)
    requires ClaimJoined(x, claim, done) && done <= more
    ensures ClaimJoined(x, claim, more)
  {
    hide Aliases, Cross;
  }

  lemma AllJoined(x: Input, done: set<(FactKey, FactKey)>)
    requires forall a, b :: a in FactKeys(x) && b in FactKeys(x) && Duplicates(x, a, b) ==> (a, b) in done
    requires forall c :: c in x.claims ==> ClaimJoined(x, c.id, done)
    ensures Joined(x) <= done
  {
    hide Aliases, Duplicates, FactKeys;
    forall a, b | (a, b) in Joined(x)
      ensures (a, b) in done
    {
      if !Duplicates(x, a, b) {
        var c :| c in x.claims && Aliased(x, c.id, a, b);
        assert ClaimJoined(x, c.id, done);
        var text, i :| AliasedAt(x, c.id, text, i, a, b);
        var list := Aliases(x.assessments, |x.assessments|, c.id, text);
        assert ListJoined(x, list, |list|, done);
      }
    }
  }

  /** One name per event: the least key of its component. */
  method Identify(x: Input) returns (root: map<FactKey, FactKey>)
    ensures Identities(x, root)
  {
    var keys := FactKeys(x);
    var f := new Forest.Forest(keys);
    JoiningStarts(x, f.root);
    ghost var done := JoinDuplicates(x, f, keys);
    done := JoinAliases(x, f, done);
    root := NameAll(x, f, keys);
    JoinedIdentities(x, f.root, root, done);
  }

  method NameAll(x: Input, f: Forest.Forest<FactKey>, keys: set<FactKey>) returns (root: map<FactKey, FactKey>)
    requires f.Valid() && f.parent.Keys == keys
    modifies f`parent
    ensures root.Keys == keys && forall k :: k in keys ==> root[k] == f.root(k)
  {
    hide Forest.IsForest;
    root := map[];
    var todo := keys;
    while todo != {}
      invariant f.Valid() && f.parent.Keys == keys && todo <= keys
      invariant root.Keys == keys - todo && forall k :: k in root ==> root[k] == f.root(k)
      decreases |todo|
    {
      var k := AnyOf(todo);
      var r := f.Find(k);
      root := root[k := r];
      todo := todo - {k};
    }
  }

  lemma JoinedIdentities(x: Input, name: FactKey -> FactKey, root: map<FactKey, FactKey>, done: set<(FactKey, FactKey)>)
    requires Joining(x, name, done) && root.Keys == FactKeys(x) && forall k :: k in root ==> root[k] == name(k)
    requires forall a, b :: a in FactKeys(x) && b in FactKeys(x) && Duplicates(x, a, b) ==> (a, b) in done
    requires forall c :: c in x.claims ==> ClaimJoined(x, c.id, done)
    ensures Identities(x, root)
  {
    hide Joined, FactKeys, Linked, KeyLess, ClaimJoined, Duplicates, Settled;
    AllJoined(x, done);
    SettledNames(x, name, root, done);
    forall k | k in FactKeys(x)
      ensures NamedDown(x, root, k) && Naming(root)(k) == name(k)
    {
      assert Down(FactKeys(x), name, k);
    }
  }

  lemma SettledNames(x: Input, name: FactKey -> FactKey, root: map<FactKey, FactKey>, done: set<(FactKey, FactKey)>)
    requires Settled(done, name) && Joined(x) <= done
    requires root.Keys == FactKeys(x) && forall k :: k in root ==> root[k] == name(k)
    ensures Settled(Joined(x), Naming(root))
  {
    JoinedInside(x);
    hide Joined, FactKeys;
    forall e | e in Joined(x)
      ensures Naming(root)(e.0) == Naming(root)(e.1)
    {
      assert e in done;
    }
  }

  // ---------------------------------------------------------------- gathering claims and evidence

  /** The dictionaries that the loop over the claims fills. */
  datatype Tally = Tally(predicted: Dict<set<FactKey>, seq<Span>>, facts: map<FactKey, seq<Span>>,
                         refuted: set<Proposition>, lacking: set<Proposition>)

  function SpansOf(facts: map<FactKey, seq<Span>>, f: FactKey): seq<Span>
  {
    if f in facts then facts[f] else []
  }

  function Add(t: Tally, c: Contribution): Tally
  {
    match c
    case Supports(targets, span) =>
      t.(predicted := Put(t.predicted, targets, Get(t.predicted, targets, []) + [span]))
    case Confirms(event, evidence, span) =>
      t.(facts := t.facts[event := SpansOf(t.facts, event) + evidence],
         predicted := Put(t.predicted, {event}, Get(t.predicted, {event}, []) + [span]))
    case Refutes(key) => t.(refuted := t.refuted + {key})
    case Lacks(key) => t.(lacking := t.lacking + {key})
  }

  ghost predicate ClaimSpan(cs: seq<Contribution>, t: set<FactKey>, s: Span)
  {
    exists c :: c in cs && TargetOf(c) == Some(t) && c.span == s
  }

  ghost predicate LabelSpan(x: Input, root: map<FactKey, FactKey>, f: FactKey, s: Span)
  {
    exists k :: k in FactKeys(x) && Rep(root, k) == f && SpanOf(FactOf(x, k).claim) == s
  }

  ghost predicate ReviewSpan(cs: seq<Contribution>, f: FactKey, s: Span)
  {
    exists c :: c in cs && c.Confirms? && c.event == f && s in c.evidence
  }

  ghost predicate PredictedOk(cs: seq<Contribution>, predicted: Dict<set<FactKey>, seq<Span>>)
  {
    predicted.keys == TargetList(cs) &&
    forall t, s :: t in predicted.items ==> (s in predicted.items[t] <==> ClaimSpan(cs, t, s))
  }

  ghost predicate FactsOk(x: Input, root: map<FactKey, FactKey>, cs: seq<Contribution>, facts: map<FactKey, seq<Span>>)
  {
    forall f, s :: s in SpansOf(facts, f) <==> LabelSpan(x, root, f, s) || ReviewSpan(cs, f, s)
  }

  ghost predicate Gathered(x: Input, root: map<FactKey, FactKey>, cs: seq<Contribution>, t: Tally)
  {
    && PredictedOk(cs, t.predicted) && FactsOk(x, root, cs, t.facts)
    && t.refuted == Refuted(cs) && t.lacking == Lacking(cs)
  }

  lemma InAppend<T>(xs: seq<T>, x: T)
    ensures forall y :: y in xs + [x] <==> y in xs || y == x
  {
  }

  lemma PredictedStep(cs: seq<Contribution>, predicted: Dict<set<FactKey>, seq<Span>>, c: Contribution)
    requires PredictedOk(cs, predicted)
    ensures PredictedOk(cs + [c],
              if TargetOf(c).Some? then Put(predicted, TargetOf(c).value,
                Get(predicted, TargetOf(c).value, []) + [c.span])
              else predicted)
  {
    TargetsStep(cs, c);
    InAppend(cs, c);
    var more := if TargetOf(c).Some? then Put(predicted, TargetOf(c).value,
      Get(predicted, TargetOf(c).value, []) + [c.span])
                else predicted;
    forall t, s | t in more.items
      ensures s in more.items[t] <==> ClaimSpan(cs + [c], t, s)
    {
      PredictedAt(cs, predicted, c, t, s);
    }
  }

  lemma PredictedAt(cs: seq<Contribution>, predicted: Dict<set<FactKey>, seq<Span>>, c: Contribution, t: set<FactKey>,
                    s: Span)
    requires PredictedOk(cs, predicted)
    ensures ClaimSpan(cs + [c], t, s) <==> ClaimSpan(cs, t, s) || (TargetOf(c) == Some(t) && c.span == s)
    ensures t !in predicted.items ==> !ClaimSpan(cs, t, s)
  {
    hide TargetList;
    InAppend(cs, c);
    if ClaimSpan(cs, t, s) {
      var d :| d in cs && TargetOf(d) == Some(t) && d.span == s;
      assert d in cs + [c];
      assert t in TargetList(cs);
    }
    if TargetOf(c) == Some(t) && c.span == s {
      assert c in cs + [c];
    }
  }

  lemma FactsStep(x: Input, root: map<FactKey, FactKey>, cs: seq<Contribution>, facts: map<FactKey, seq<Span>>,
                  c: Contribution)
    requires FactsOk(x, root, cs, facts)
    ensures FactsOk(x, root, cs + [c],
              if c.Confirms? then facts[c.event := SpansOf(facts, c.event) + c.evidence] else facts)
  {
    hide LabelSpan;
    forall f, s
      ensures ReviewSpan(cs + [c], f, s) <==> ReviewSpan(cs, f, s) || (c.Confirms? && c.event == f && s in c.evidence)
    {
      InAppend(cs, c);
      if ReviewSpan(cs, f, s) {
        var d :| d in cs && d.Confirms? && d.event == f && s in d.evidence;
        assert d in cs + [c];
      }
      if c.Confirms? && c.event == f && s in c.evidence {
        assert c in cs + [c];
      }
    }
  }

  lemma VerdictsStep(cs: seq<Contribution>, c: Contribution)
    ensures Refuted(cs + [c]) == Refuted(cs) + if c.Refutes? then {c.key} else {}
    ensures Lacking(cs + [c]) == Lacking(cs) + if c.Lacks? then {c.key} else {}
  {
    InAppend(cs, c);
    assert c in cs + [c];
    forall d | d in cs ensures d in cs + [c] {
    }
  }

  lemma GatheredStep(x: Input, root: map<FactKey, FactKey>, cs: seq<Contribution>, t: Tally, c: Contribution)
    requires Gathered(x, root, cs, t)
    ensures Gathered(x, root, cs + [c], Add(t, c))
  {
    PredictedStep(cs, t.predicted, c);
    FactsStep(x, root, cs, t.facts, c);
    VerdictsStep(cs, c);
    hide PredictedOk, FactsOk, Refuted, Lacking, Put, Get, SpansOf;
    match c {
      case Supports(_, _) => assert Add(t, c).facts == t.facts;
      case Confirms(_, _, _) => assert Add(t, c).refuted == t.refuted;
      case Refutes(_) => assert Add(t, c).predicted == t.predicted;
      case Lacks(_) => assert Add(t, c).predicted == t.predicted;
    }
  }

  method FactSpans(x: Input, root: map<FactKey, FactKey>) returns (facts: map<FactKey, seq<Span>>)
    ensures FactsOk(x, root, [], facts)
  {
    facts := map[];
    var keys := FactKeys(x);
    var todo := keys;
    while todo != {}
      invariant todo <= keys
      invariant forall f, s :: s in SpansOf(facts, f) <==>
                  exists k :: k in keys && k !in todo && Rep(root, k) == f && SpanOf(FactOf(x, k).claim) == s
      decreases |todo|
    {
      var k := AnyOf(todo);
      var r := Rep(root, k);
      ghost var before := facts;
      facts := facts[r := SpansOf(facts, r) + [SpanOf(FactOf(x, k).claim)]];
      forall f, s
        ensures s in SpansOf(facts, f) <==>
                exists l :: l in keys && l !in todo - {k} && Rep(root, l) == f && SpanOf(FactOf(x, l).claim) == s
      {
        InAppend(SpansOf(before, f), SpanOf(FactOf(x, k).claim));
      }
      todo := todo - {k};
    }
  }

  lemma NothingGathered(x: Input, root: map<FactKey, FactKey>, facts: map<FactKey, seq<Span>>)
    requires FactsOk(x, root, [], facts) && x.assessments != []
    ensures Contributions(x, root, []) == []
    ensures Gathered(x, root, [], Tally(Empty(), facts, {}, {}))
  {
  }

  /** The loop over the parts of one claim. */
  method GatherClaim(x: Input, root: map<FactKey, FactKey>, c: Claim, ghost cs: seq<Contribution>, t0: Tally)
    returns (t: Tally)
    requires x.assessments != [] && Gathered(x, root, cs, t0)
    ensures Gathered(x, root, cs + ClaimContributions(x, root, c), t)
  {
    hide Gathered, Best, PartContributions;
    var predicted, facts, refuted, lacking := t0.predicted, t0.facts, t0.refuted, t0.lacking;
    var i := Best(x.assessments, c.id, |x.assessments|);
    var parts := Verdicts(x.assessments[i], c.id);
    PartsEmpty(x, root, c, i, cs);
    for m := 0 to |parts|
      invariant Gathered(x, root, cs + PartContributions(x, root, c, i, parts[..m]),
        Tally(predicted, facts, refuted, lacking))
    {
      var p := parts[m];
      var key := Proposition(c.modality, c.subject, p.text);
      var review := ReviewOf(x, c, p);
      ghost var before := Tally(predicted, facts, refuted, lacking);
      PartsNext(x, root, c, i, parts, m, cs);
      GatheredStep(x, root, cs + PartContributions(x, root, c, i, parts[..m]), before, Classify(x, root, c, i, p));
      if p.status == Supported {
        var targets := Targets(root, i, p.facts);
        predicted := Put(predicted, targets, Get(predicted, targets, []) + [SpanOf(c)]);
      } else if review.Some? && review.value.status == Supported {
        var target := Reviewed(review.value.event);
        facts := facts[target := SpansOf(facts, target) + review.value.spans];
        predicted := Put(predicted, {target}, Get(predicted, {target}, []) + [SpanOf(c)]);
      } else if p.status == Contradicted || (review.Some? && review.value.status == Contradicted) {
        refuted := refuted + {key};
      } else {
        lacking := lacking + {key};
      }
    }
    assert parts[..|parts|] == parts;
    t := Tally(predicted, facts, refuted, lacking);
  }

  lemma PartsEmpty(x: Input, root: map<FactKey, FactKey>, c: Claim, i: nat, cs: seq<Contribution>)
    ensures cs + PartContributions(x, root, c, i, []) == cs
  {
  }

  lemma PartsNext(x: Input, root: map<FactKey, FactKey>, c: Claim, i: nat, parts: seq<Part>, m: nat,
                  cs: seq<Contribution>)
    requires m < |parts|
    ensures cs + PartContributions(x, root, c, i, parts[..m + 1]) ==
            cs + PartContributions(x, root, c, i, parts[..m]) + [Classify(x, root, c, i, parts[m])]
  {
    assert parts[..m + 1][..m] == parts[..m];
  }

  lemma ContributionsNext(x: Input, root: map<FactKey, FactKey>, n: nat)
    requires x.assessments != [] && n < |x.claims|
    ensures Contributions(x, root, x.claims[..n + 1]) ==
            Contributions(x, root, x.claims[..n]) + ClaimContributions(x, root, x.claims[n])
  {
    hide ClaimContributions;
    assert x.claims[..n + 1][..n] == x.claims[..n];
  }

  method Gather(x: Input, root: map<FactKey, FactKey>) returns (t: Tally)
    requires x.assessments != []
    ensures Gathered(x, root, Contributions(x, root, x.claims), t)
  {
    var facts := FactSpans(x, root);
    t := Tally(Empty(), facts, {}, {});
    NothingGathered(x, root, facts);
    hide *;
    for n := 0 to |x.claims|
      invariant Gathered(x, root, Contributions(x, root, x.claims[..n]), t)
    {
      ContributionsNext(x, root, n);
      t := GatherClaim(x, root, x.claims[n], Contributions(x, root, x.claims[..n]), t);
    }
    assert x.claims[..|x.claims|] == x.claims;
  }

  // ---------------------------------------------------------------- common units

  /** All times are multiples of `1 / tick`, as finite floating-point times are. */
  ghost predicate Ticked(x: Input, tick: nat)
  {
    && tick > 0 && Grid(x.policy.tolerance, tick)
    && (forall c :: c in x.claims ==> Grid(c.start, tick) && Grid(c.end, tick))
    && (forall k :: k in FactKeys(x) ==> Grid(FactOf(x, k).claim.start, tick) && Grid(FactOf(x, k).claim.end, tick))
    && (forall k :: k in x.reviews ==> OnTicks(x.reviews[k].spans, tick))
  }

  ghost predicate Proper(c: Contribution, tick: nat)
  {
    && (TargetOf(c).Some? ==> c.span.start < c.span.end && Grid(c.span.start, tick) && Grid(c.span.end, tick))
    && (c.Confirms? ==> OnTicks(c.evidence, tick))
  }

  lemma {:induction false} PartsProper(x: Input, root: map<FactKey, FactKey>, c: Claim, i: nat, parts: seq<Part>,
                                       tick: nat)
    requires Ticked(x, tick) && c.start < c.end && c in x.claims
    ensures forall d :: d in PartContributions(x, root, c, i, parts) ==> Proper(d, tick)
    decreases |parts|
  {
    hide Grid, FactKeys, OnTicks;
    if parts != [] {
      PartsProper(x, root, c, i, parts[..|parts| - 1], tick);
      assert Proper(Classify(x, root, c, i, parts[|parts| - 1]), tick);
    }
  }

  lemma {:induction false} ContributionsProper(x: Input, root: map<FactKey, FactKey>, claims: seq<Claim>, tick: nat)
    requires x.assessments != [] && Ticked(x, tick) && forall c :: c in claims ==> c.start < c.end && c in x.claims
    ensures forall d :: d in Contributions(x, root, claims) ==> Proper(d, tick)
    decreases |claims|
  {
    hide Ticked, Proper;
    if claims != [] {
      var c := claims[|claims| - 1];
      ContributionsProper(x, root, claims[..|claims| - 1], tick);
      var i := Best(x.assessments, c.id, |x.assessments|);
      assert c in claims;
      PartsProper(x, root, c, i, Verdicts(x.assessments[i], c.id), tick);
    }
  }

  // ---------------------------------------------------------------- demands

  /** The evidence spans of all targets, widened on both sides. */
  method SupportedSpans(facts: map<FactKey, seq<Span>>, targets: set<FactKey>, tolerance: real)
    returns (spans: seq<Span>)
    ensures forall s :: s in spans <==>
      exists f, o :: f in targets && o in SpansOf(facts, f) && s == Widen(o, tolerance)
  {
    spans := [];
    var todo := targets;
    while todo != {}
      invariant todo <= targets
      invariant forall s :: s in spans <==>
                  exists f, o :: f in targets && f !in todo && o in SpansOf(facts, f) && s == Widen(o, tolerance)
      decreases |todo|
    {
      var f := AnyOf(todo);
      var more := WidenAll(SpansOf(facts, f), tolerance);
      spans := spans + more;
      todo := todo - {f};
    }
  }

  function WidenAll(spans: seq<Span>, tolerance: real): (r: seq<Span>)
    ensures forall s :: s in r <==> exists o :: o in spans && s == Widen(o, tolerance)
  {
    if spans == [] then []
    else
      assert forall o :: o in spans <==> o == spans[0] || o in spans[1..];
      [Widen(spans[0], tolerance)] + WidenAll(spans[1..], tolerance)
  }

  /** Spans that cover the same points as their members say. */
  ghost predicate MemberCovers(spans: seq<Span>, y: real)
  {
    exists s :: s in spans && Holds(s, y)
  }

  lemma CoveredByMembers(spans: seq<Span>, y: real)
    ensures y in Covered(spans) <==> MemberCovers(spans, y)
  {
    if MemberCovers(spans, y) {
      var s :| s in spans && Holds(s, y);
      var i :| 0 <= i < |spans| && spans[i] == s;
      assert Holds(spans[i], y);
    }
    if In(spans, y) {
      var i :| 0 <= i < |spans| && Holds(spans[i], y);
      assert spans[i] in spans;
    }
  }

  lemma ClaimPointsCovered(cs: seq<Contribution>, t: set<FactKey>, spans: seq<Span>)
    requires forall s :: s in spans <==> ClaimSpan(cs, t, s)
    ensures Covered(spans) == ClaimPoints(cs, t)
  {
    forall y: real
      ensures y in Covered(spans) <==> Claims(cs, t, y)
    {
      CoveredByMembers(spans, y);
      if Claims(cs, t, y) {
        var c :| c in cs && TargetOf(c) == Some(t) && Holds(c.span, y);
        assert ClaimSpan(cs, t, c.span);
      }
    }
  }

  lemma EvidentBySpan(x: Input, root: map<FactKey, FactKey>, cs: seq<Contribution>, facts: map<FactKey, seq<Span>>,
                      f: FactKey, y: real)
    requires FactsOk(x, root, cs, facts)
    ensures Evident(x, root, cs, f, y) <==> exists o :: o in SpansOf(facts, f) && Holds(Widen(o, x.policy.tolerance), y)
  {
    hide Holds, FactKeys;
    if k :| FactWitness(x, root, f, k, y) {
      assert LabelSpan(x, root, f, SpanOf(FactOf(x, k).claim));
    } else if c, s :| ReviewWitness(x, cs, f, c, s, y) {
      assert ReviewSpan(cs, f, s);
    }
    if o :| o in SpansOf(facts, f) && Holds(Widen(o, x.policy.tolerance), y) {
      if LabelSpan(x, root, f, o) {
        var k :| k in FactKeys(x) && Rep(root, k) == f && SpanOf(FactOf(x, k).claim) == o;
        assert FactWitness(x, root, f, k, y);
      } else {
        var c :| c in cs && c.Confirms? && c.event == f && o in c.evidence;
        assert ReviewWitness(x, cs, f, c, o, y);
      }
    }
  }

  lemma EvidencePointsCovered(x: Input, root: map<FactKey, FactKey>, cs: seq<Contribution>, facts: map<FactKey,
                              seq<Span>>,
                              targets: set<FactKey>, spans: seq<Span>)
    requires FactsOk(x, root, cs, facts)
    requires forall s :: s in spans <==>
      exists f, o :: f in targets && o in SpansOf(facts, f) && s == Widen(o, x.policy.tolerance)
    ensures Covered(spans) == EvidencePoints(x, root, cs, targets)
  {
    forall y: real
      ensures y in Covered(spans) <==> EvidentAny(x, root, cs, targets, y)
    {
      CoveredByMembers(spans, y);
      EvidentByMembers(x, root, cs, facts, targets, spans, y);
    }
  }

  lemma EvidentByMembers(x: Input, root: map<FactKey, FactKey>, cs: seq<Contribution>, facts: map<FactKey, seq<Span>>,
                         targets: set<FactKey>, spans: seq<Span>, y: real)
    requires FactsOk(x, root, cs, facts)
    requires forall s :: s in spans <==>
      exists f, o :: f in targets && o in SpansOf(facts, f) && s == Widen(o, x.policy.tolerance)
    ensures MemberCovers(spans, y) <==> EvidentAny(x, root, cs, targets, y)
  {
    hide Holds, FactsOk, Evident;
    forall f
      ensures Evident(x, root, cs, f, y) <==>
        exists o :: o in SpansOf(facts, f) && Holds(Widen(o, x.policy.tolerance), y)
    {
      EvidentBySpan(x, root, cs, facts, f, y);
    }
    if MemberCovers(spans, y) {
      var s :| s in spans && Holds(s, y);
      var f, o :| f in targets && o in SpansOf(facts, f) && s == Widen(o, x.policy.tolerance);
      assert Evident(x, root, cs, f, y);
    }
    if EvidentAny(x, root, cs, targets, y) {
      var f :| f in targets && Evident(x, root, cs, f, y);
      var o :| o in SpansOf(facts, f) && Holds(Widen(o, x.policy.tolerance), y);
      assert Widen(o, x.policy.tolerance) in spans;
    }
  }

  /** The purity of one target, and why it is a rational score. */
  lemma PurityIsDemand(x: Input, root: map<FactKey, FactKey>, cs: seq<Contribution>, t: Tally, targets: set<FactKey>,
                       support: seq<Span>, tick: nat)
    requires Gathered(x, root, cs, t) && targets in t.predicted.items && Ticked(x, tick)
    requires forall c :: c in cs ==> Proper(c, tick)
    requires forall s :: s in support <==>
               exists f, o :: f in targets && o in SpansOf(t.facts, f) && s == Widen(o, x.policy.tolerance)
    ensures var spans := t.predicted.items[targets];
            && Length(spans) > 0.0
            && DemandOf(x, root, cs, targets) == Demand(targets, Min(1.0, Intersection(spans, support) / Length(spans)))
            && Rational(Min(1.0, Intersection(spans, support) / Length(spans)))
  {
    var spans := t.predicted.items[targets];
    hide Length, Intersection, Rational, Proper, Ticked, Fraction, Covered, ClaimPoints, EvidencePoints, SpansOf, Widen;
    PurityPoints(x, root, cs, t, targets, support);
    ProperSpans(cs, t, targets, tick);
    SupportOnTicks(x, root, cs, t, targets, support, tick);
    hide Gathered;
    FractionIs(spans, support);
    PurityRational(spans, support, tick);
  }

  lemma PurityRational(spans: seq<Span>, support: seq<Span>, tick: nat)
    requires tick > 0 && OnTicks(spans, tick) && OnTicks(support, tick) && Length(spans) > 0.0
    ensures Rational(Min(1.0, Intersection(spans, support) / Length(spans)))
  {
    hide OnTicks, Length, Intersection, Rational, Grid;
    LengthsOnTicks(spans, support, tick);
    RatioRational(Intersection(spans, support), Length(spans), tick);
    OneRational();
  }

  lemma OneRational()
    ensures Rational(1.0)
  {
    IsGrid(1.0, 1, 1);
  }

  lemma PurityPoints(x: Input, root: map<FactKey, FactKey>, cs: seq<Contribution>, t: Tally, targets: set<FactKey>,
                     support: seq<Span>)
    requires Gathered(x, root, cs, t) && targets in t.predicted.items
    requires forall s :: s in support <==>
               exists f, o :: f in targets && o in SpansOf(t.facts, f) && s == Widen(o, x.policy.tolerance)
    ensures Covered(t.predicted.items[targets]) == ClaimPoints(cs, targets)
    ensures Covered(support) == EvidencePoints(x, root, cs, targets)
  {
    hide Covered, ClaimPoints, EvidencePoints;
    ClaimPointsCovered(cs, targets, t.predicted.items[targets]);
    EvidencePointsCovered(x, root, cs, t.facts, targets, support);
  }

  lemma ProperSpans(cs: seq<Contribution>, t: Tally, targets: set<FactKey>, tick: nat)
    requires PredictedOk(cs, t.predicted) && targets in t.predicted.items && forall c :: c in cs ==> Proper(c, tick)
    ensures OnTicks(t.predicted.items[targets], tick) && Length(t.predicted.items[targets]) > 0.0
  {
    var spans := t.predicted.items[targets];
    assert targets in TargetList(cs);
    var c :| c in cs && TargetOf(c) == Some(targets);
    assert ClaimSpan(cs, targets, c.span) && Proper(c, tick);
    LengthPositive(spans, c.span);
    forall i | 0 <= i < |spans|
      ensures Grid(spans[i].start, tick) && Grid(spans[i].end, tick)
    {
      assert spans[i] in spans;
      var d :| d in cs && TargetOf(d) == Some(targets) && d.span == spans[i];
      assert Proper(d, tick);
    }
  }

  lemma SupportOnTicks(x: Input, root: map<FactKey, FactKey>, cs: seq<Contribution>, t: Tally, targets: set<FactKey>,
                       support: seq<Span>, tick: nat)
    requires FactsOk(x, root, cs, t.facts) && Ticked(x, tick) && forall c :: c in cs ==> Proper(c, tick)
    requires forall s :: s in support <==>
               exists f, o :: f in targets && o in SpansOf(t.facts, f) && s == Widen(o, x.policy.tolerance)
    ensures OnTicks(support, tick)
  {
    hide Grid, FactKeys;
    forall i | 0 <= i < |support|
      ensures Grid(support[i].start, tick) && Grid(support[i].end, tick)
    {
      assert support[i] in support;
      var f, o :| f in targets && o in SpansOf(t.facts, f) && support[i] == Widen(o, x.policy.tolerance);
      FactSpanOnTicks(x, root, cs, t.facts, f, o, tick);
      GridSum(o.start, x.policy.tolerance, tick);
      GridSum(o.end, x.policy.tolerance, tick);
    }
  }

  lemma FactSpanOnTicks(x: Input, root: map<FactKey, FactKey>, cs: seq<Contribution>, facts: map<FactKey, seq<Span>>,
                        f: FactKey, o: Span, tick: nat)
    requires FactsOk(x, root, cs, facts) && Ticked(x, tick) && forall c :: c in cs ==> Proper(c, tick)
    requires o in SpansOf(facts, f)
    ensures Grid(o.start, tick) && Grid(o.end, tick)
  {
    hide Grid, FactKeys;
    if !LabelSpan(x, root, f, o) {
      var c :| c in cs && c.Confirms? && c.event == f && o in c.evidence;
      assert Proper(c, tick);
      var i :| 0 <= i < |c.evidence| && c.evidence[i] == o;
    }
  }

  method DemandList(x: Input, ghost root: map<FactKey, FactKey>, ghost cs: seq<Contribution>, t: Tally, ghost tick: nat)
    returns (demands: seq<Demand>)
    requires Gathered(x, root, cs, t) && Ticked(x, tick) && forall c :: c in cs ==> Proper(c, tick)
    ensures demands == Demands(x, root, cs, t.predicted.keys)
    ensures forall i :: 0 <= i < |demands| ==> Rational(demands[i].amount)
  {
    hide Gathered, Ticked, Proper, DemandOf, Rational;
    demands := [];
    var keys := t.predicted.keys;
    for n := 0 to |keys|
      invariant demands == Demands(x, root, cs, keys[..n])
      invariant forall i :: 0 <= i < |demands| ==> Rational(demands[i].amount)
    {
      assert keys[..n + 1][..n] == keys[..n];
      var spans := t.predicted.items[keys[n]];
      var support := SupportedSpans(t.facts, keys[n], x.policy.tolerance);
      PurityIsDemand(x, root, cs, t, keys[n], support, tick);
      var purity := Intersection(spans, support) / Length(spans);
      demands := demands + [Demand(keys[n], Min(1.0, purity))];
    }
    assert keys[..|keys|] == keys;
  }

  // ---------------------------------------------------------------- recall

  method OwnSpans(x: Input, root: map<FactKey, FactKey>, i: nat, k: FactKey) returns (spans: seq<Span>, core: bool)
    requires i < |x.references|
    ensures forall s :: s in spans <==>
      exists f :: OwnWitness(x, root, i, k, f) && SpanOf(x.references[i][f].claim) == s
    ensures core <==> exists f :: OwnWitness(x, root, i, k, f) && x.references[i][f].core
  {
    spans, core := [], false;
    var reference := x.references[i];
    var todo := reference.Keys;
    while todo != {}
      invariant todo <= reference.Keys
      invariant forall s :: s in spans <==>
                  exists f :: f !in todo && OwnWitness(x, root, i, k, f) && SpanOf(reference[f].claim) == s
      invariant core <==> exists f :: f !in todo && OwnWitness(x, root, i, k, f) && reference[f].core
      decreases |todo|
    {
      var f := AnyOf(todo);
      if reference[f].annotated && Rep(root, Labelled(i, f)) == k {
        assert OwnWitness(x, root, i, k, f);
        InAppend(spans, SpanOf(reference[f].claim));
        spans := spans + [SpanOf(reference[f].claim)];
        core := core || reference[f].core;
      }
      todo := todo - {f};
    }
  }

  /** The claim spans, widened by the tolerance, whose verdicts in annotation `i` support event `k`. */
  method CoverSpans(x: Input, root: map<FactKey, FactKey>, i: nat, k: FactKey) returns (spans: seq<Span>)
    requires i < |x.assessments|
    ensures forall s :: s in spans <==> CoverSpan(x, root, i, k, s, |x.claims|)
  {
    spans := [];
    for n := 0 to |x.claims|
      invariant forall s :: s in spans <==> CoverSpan(x, root, i, k, s, n)
    {
      var c := x.claims[n];
      var supported := exists p ::
        p in Verdicts(x.assessments[i], c.id) && p.status == Supported && k in Targets(root, i, p.facts);
      ghost var before := spans;
      if supported {
        spans := spans + [Widen(SpanOf(c), x.policy.tolerance)];
      }
      forall s
        ensures s in spans <==> CoverSpan(x, root, i, k, s, n + 1)
      {
        InAppend(before, Widen(SpanOf(c), x.policy.tolerance));
        CoverSpanNext(x, root, i, k, s, n);
      }
    }
  }

  ghost predicate CoverSpanAt(x: Input, root: map<FactKey, FactKey>, i: nat, k: FactKey, s: Span, j: nat)
    requires i < |x.assessments| && j < |x.claims|
  {
    s == Widen(SpanOf(x.claims[j]), x.policy.tolerance) &&
    exists p :: p in Verdicts(x.assessments[i], x.claims[j].id) && p.status == Supported
      && k in Targets(root, i, p.facts)
  }

  ghost predicate CoverSpan(x: Input, root: map<FactKey, FactKey>, i: nat, k: FactKey, s: Span, n: nat)
    requires i < |x.assessments| && n <= |x.claims|
  {
    exists j :: 0 <= j < n && CoverSpanAt(x, root, i, k, s, j)
  }

  lemma CoverSpanNext(x: Input, root: map<FactKey, FactKey>, i: nat, k: FactKey, s: Span, n: nat)
    requires i < |x.assessments| && n < |x.claims|
    ensures CoverSpan(x, root, i, k, s, n + 1) <==> CoverSpan(x, root, i, k, s, n) || CoverSpanAt(x, root, i, k, s, n)
  {
    hide CoverSpanAt;
  }

  lemma OwnPointsCovered(x: Input, root: map<FactKey, FactKey>, i: nat, k: FactKey, spans: seq<Span>)
    requires i < |x.references|
    requires forall s :: s in spans <==>
      exists f :: OwnWitness(x, root, i, k, f) && SpanOf(x.references[i][f].claim) == s
    ensures Covered(spans) == OwnPoints(x, root, i, k)
  {
    forall y: real
      ensures y in Covered(spans) <==> OwnCovers(x, root, i, k, y)
    {
      CoveredByMembers(spans, y);
      if OwnCovers(x, root, i, k, y) {
        var f :| OwnWitness(x, root, i, k, f) && Holds(SpanOf(x.references[i][f].claim), y);
        assert SpanOf(x.references[i][f].claim) in spans;
      }
    }
  }

  lemma CoverPointsCovered(x: Input, root: map<FactKey, FactKey>, i: nat, k: FactKey, spans: seq<Span>)
    requires i < |x.assessments| && forall s :: s in spans <==> CoverSpan(x, root, i, k, s, |x.claims|)
    ensures Covered(spans) == CoverPoints(x, root, i, k)
  {
    hide Holds, Targets;
    forall y: real
      ensures y in Covered(spans) <==> CoverCovers(x, root, i, k, y)
    {
      CoveredByMembers(spans, y);
      if CoverCovers(x, root, i, k, y) {
        var c, p :| CoverWitness(x, root, i, k, c, p) && Holds(Widen(SpanOf(c), x.policy.tolerance), y);
        var j :| 0 <= j < |x.claims| && x.claims[j] == c;
        assert CoverSpanAt(x, root, i, k, Widen(SpanOf(c), x.policy.tolerance), j);
      }
      if MemberCovers(spans, y) {
        var s :| s in spans && Holds(s, y);
        var j :| 0 <= j < |x.claims| && CoverSpanAt(x, root, i, k, s, j);
        var p :| p in Verdicts(x.assessments[i], x.claims[j].id) && p.status == Supported
          && k in Targets(root, i, p.facts);
        assert CoverWitness(x, root, i, k, x.claims[j], p);
      }
    }
  }

  /** Weight and covered share of one event of annotation `i`. */
  method EventRecall(x: Input, root: map<FactKey, FactKey>, i: nat, k: FactKey) returns (weight: real, gain: real)
    requires i < |x.references| == |x.assessments| && k in Own(x, root, i) && Typed(x)
    ensures weight == Weight(x, root, i)(k) && gain == Gained(x, root, i)(k)
  {
    var own, core := OwnSpans(x, root, i, k);
    var cover := CoverSpans(x, root, i, k);
    OwnLength(x, root, i, k, own);
    OwnPointsCovered(x, root, i, k, own);
    CoverPointsCovered(x, root, i, k, cover);
    FractionIs(own, cover);
    weight := if core then 1.0 else x.policy.detailWeight;
    gain := Times(weight, Intersection(own, cover) / Length(own));
  }

  lemma OwnLength(x: Input, root: map<FactKey, FactKey>, i: nat, k: FactKey, spans: seq<Span>)
    requires i < |x.references| && k in Own(x, root, i) && Typed(x)
    requires forall s :: s in spans <==>
      exists f :: OwnWitness(x, root, i, k, f) && SpanOf(x.references[i][f].claim) == s
    ensures Length(spans) > 0.0
  {
    var f :| f in x.references[i] && x.references[i][f].annotated && Rep(root, Labelled(i, f)) == k;
    assert OwnWitness(x, root, i, k, f);
    assert x.references[i] in x.references;
    LengthPositive(spans, SpanOf(x.references[i][f].claim));
  }

  method RecallOf(x: Input, root: map<FactKey, FactKey>, i: nat) returns (recall: real)
    requires i < |x.references| == |x.assessments| && Typed(x)
    ensures recall == ReferenceRecall(x, root, i)
  {
    hide Typed, Weight, Gained, Sum;
    var own := Own(x, root, i);
    var weighted, total := 0.0, 0.0;
    var todo := own;
    SumZero({}, Weight(x, root, i));
    SumZero({}, Gained(x, root, i));
    assert own - todo == {};
    while todo != {}
      invariant todo <= own
      invariant total == Sum(own - todo, Weight(x, root, i)) && weighted == Sum(own - todo, Gained(x, root, i))
      decreases |todo|
    {
      var k := AnyOf(todo);
      var weight, gain := EventRecall(x, root, i, k);
      SumPick(own - (todo - {k}), Weight(x, root, i), k);
      SumPick(own - (todo - {k}), Gained(x, root, i), k);
      assert own - (todo - {k}) - {k} == own - todo;
      total, weighted := total + weight, weighted + gain;
      todo := todo - {k};
    }
    assert own - todo == own;
    recall := if total == 0.0 then 0.0 else weighted / total;
  }

  method MeanRecall(x: Input, root: map<FactKey, FactKey>) returns (recall: real)
    requires 0 < |x.references| == |x.assessments| && Typed(x)
    ensures recall == Recall(x, root)
  {
    hide Typed, ReferenceRecall;
    var sum := 0.0;
    for i := 0 to |x.references|
      invariant sum == RecallSum(x, root, i)
    {
      var r := RecallOf(x, root, i);
      sum := sum + r;
    }
    recall := sum / |x.references| as real;
  }

  // ---------------------------------------------------------------- the whole measurement

  /** Scores the claims against all references, or reports an inadmissible assessment. */
  method Measure(x: Input, ghost tick: nat) returns (r: Try<Score>)
    requires Typed(x) && Ticked(x, tick)
    ensures r.Ok? <==> Assessed(x)
    ensures r.Ok? ==> Measures(x, r.value)
  {
    hide Typed, Ticked, Measures;
    if !Assessed(x) {
      return Err(if x.references == [] || |x.references| != |x.assessments| then "reference_assessment_count_mismatch"
                 else "invalid_assessment");
    }
    var s := MeasureAssessed(x, tick);
    r := Ok(s);
  }

  method MeasureAssessed(x: Input, ghost tick: nat) returns (s: Score)
    requires Typed(x) && Ticked(x, tick) && Assessed(x)
    ensures Measures(x, s)
  {
    hide *;
    ReferencesMatch(x);
    TypedClaims(x);
    var root := Identify(x);
    var t := Gather(x, root);
    ghost var cs := Contributions(x, root, x.claims);
    ContributionsProper(x, root, x.claims, tick);
    var demands := DemandList(x, root, cs, t, tick);
    GatheredParts(x, root, cs, t);
    DemandsInUnit(x, root, cs, t.predicted.keys);
    var credit := MaxCredit(demands);
    var unsupported := t.lacking - t.refuted;
    var precision := Precision(x.policy, |t.predicted.keys| + |unsupported| + |t.refuted|, |t.refuted|, credit);
    var recall := MeanRecall(x, root);
    s := Score(Harmonic(precision, recall), precision, recall);
    ScoresIntro(x, root, credit, s);
  }

  lemma ScoresIntro(x: Input, root: map<FactKey, FactKey>, credit: real, s: Score)
    requires Assessed(x) && Identities(x, root)
    requires var cs := Contributions(x, root, x.claims);
             && Optimum(Demands(x, root, cs, TargetList(cs)), credit)
             && s.precision == Precision(x.policy, |TargetList(cs)| + |Unsupported(cs)| + |Refuted(cs)|, |Refuted(cs)|,
               credit)
    requires s.recall == Recall(x, root) && s.quality == Harmonic(s.precision, s.recall)
    ensures Measures(x, s)
  {
    hide Identities, Optimum, Contributions, Demands, Precision, Recall, Harmonic, Assessed;
    assert Scores(x, root, credit, s);
  }

  lemma TypedClaims(x: Input)
    requires Typed(x)
    ensures forall c :: c in x.claims ==> c.start < c.end
  {
  }

  lemma GatheredParts(x: Input, root: map<FactKey, FactKey>, cs: seq<Contribution>, t: Tally)
    requires Gathered(x, root, cs, t)
    ensures t.predicted.keys == TargetList(cs) && t.refuted == Refuted(cs) && t.lacking - t.refuted == Unsupported(cs)
  {
  }
}
