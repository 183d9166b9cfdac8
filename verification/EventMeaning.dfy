/**
 What an event score means, said of verdicts, facts and points in time: which annotation judges a
 claim, what its parts then count for, and the sums that make precision, recall and quality. No
 best-of loop, contribution list or table occurs in the statements.
 */
module EventMeaning {
  import opened Common
  import opened Chains
  import opened Credit
  import opened EventScoring
  import opened Spans
  import opened Sums
  import Ordering

  // ---------------------------------------------------------------- which annotation judges a claim

  /** How many parts have the status. */
  ghost function Tally(parts: seq<Part>, s: Status): nat
  {
    |set k | 0 <= k < |parts| && parts[k].status == s|
  }

  /** Shares compared by counting: a larger share supported, or the same and no larger share contradicted. */
  ghost predicate NoWorse(a: seq<Part>, b: seq<Part>)
  {
    Tally(a, Supported) * |b| > Tally(b, Supported) * |a| ||
    (Tally(a, Supported) * |b| == Tally(b, Supported) * |a| &&
     Tally(a, Contradicted) * |b| <= Tally(b, Contradicted) * |a|)
  }

  ghost predicate Tied(a: seq<Part>, b: seq<Part>)
  {
    Tally(a, Supported) * |b| == Tally(b, Supported) * |a| &&
    Tally(a, Contradicted) * |b| == Tally(b, Contradicted) * |a|
  }

  /** Every annotation has a verdict of at least one part on the claim. */
  predicate AllJudge(x: Input, claim: string)
  {
    forall j :: 0 <= j < |x.assessments| ==>
      claim in x.assessments[j].decisions && x.assessments[j].decisions[claim] != []
  }

  /** Annotation `i` judges the claim: none is better, and it is the first of those that are as good. */
  ghost predicate Judges(x: Input, claim: string, i: nat)
    requires AllJudge(x, claim)
  {
    i < |x.assessments| && forall j :: 0 <= j < |x.assessments| ==>
      var a, b := x.assessments[i].decisions[claim], x.assessments[j].decisions[claim];
      NoWorse(a, b) && (Tied(a, b) ==> i <= j)
  }

  lemma TallyMore(front: seq<Part>, p: Part, s: Status)
    ensures Tally(front + [p], s) == Tally(front, s) + if p.status == s then 1 else 0
  {
    var parts, n := front + [p], |front|;
    var all := set k | 0 <= k < n + 1 && parts[k].status == s;
    var before := set k | 0 <= k < n && front[k].status == s;
    assert forall k :: 0 <= k < n ==> parts[k] == front[k];
    assert all == if p.status == s then before + {n} else before;
    assert n !in before;
  }

  lemma NothingTallied(parts: seq<Part>, s: Status)
    requires parts == []
    ensures Tally(parts, s) == 0
  {
  }

  lemma {:induction false} TallyIsCount(parts: seq<Part>, s: Status)
    ensures Tally(parts, s) == Count(parts, s)
    decreases |parts|
  {
    if parts == [] {
      NothingTallied(parts, s);
    } else {
      hide Tally;
      var n := |parts| - 1;
      TallyIsCount(parts[..n], s);
      TallyMore(parts[..n], parts[n], s);
      assert parts == parts[..n] + [parts[n]];
    }
  }

  lemma Fractions(a: nat, n: nat, b: nat, m: nat)
    requires n > 0 && m > 0
    ensures a as real / n as real > b as real / m as real <==> a * m > b * n
    ensures a as real / n as real == b as real / m as real <==> a * m == b * n
  {
    var p, q := a as real / n as real, b as real / m as real;
    assert p * n as real == a as real && q * m as real == b as real;
    var k := n as real * m as real;
    assert k > 0.0;
    assert p * k == a as real * m as real && q * k == b as real * n as real;
    Scaled(p, q, k);
    assert (a * m) as real == a as real * m as real && (b * n) as real == b as real * n as real;
  }

  lemma Scaled(p: real, q: real, k: real)
    requires k > 0.0
    ensures p > q <==> p * k > q * k
    ensures p == q <==> p * k == q * k
  {
  }

  lemma SharesMean(a: seq<Part>, b: seq<Part>, s: Status)
    requires a != [] && b != []
    ensures Share(a, s) > Share(b, s) <==> Tally(a, s) * |b| > Tally(b, s) * |a|
    ensures Share(a, s) == Share(b, s) <==> Tally(a, s) * |b| == Tally(b, s) * |a|
  {
    TallyIsCount(a, s);
    TallyIsCount(b, s);
    hide Tally, Count;
    Fractions(Count(a, s), |a|, Count(b, s), |b|);
  }

  lemma BetterMeans(a: seq<Part>, b: seq<Part>)
    requires a != [] && b != []
    ensures NoWorse(a, b) <==> !Better(b, a)
    ensures Tied(a, b) <==> !Better(a, b) && !Better(b, a)
  {
    SharesMean(a, b, Supported);
    SharesMean(a, b, Contradicted);
    SharesMean(b, a, Supported);
    SharesMean(b, a, Contradicted);
    hide Tally, Share;
  }

  lemma BetterTransitive(a: seq<Part>, b: seq<Part>, c: seq<Part>)
    ensures !Better(b, a) && !Better(c, b) ==> !Better(c, a)
    ensures Better(a, b) && !Better(c, b) ==> Better(a, c)
    ensures Better(a, b) ==> !Better(b, a)
  {
    hide Share;
  }

  /** Among the first `n`: nobody is better, and everybody before is worse. */
  lemma {:induction false} BestOfFirst(x: Input, claim: string, n: nat)
    requires AllJudge(x, claim) && 1 <= n <= |x.assessments|
    ensures var i := Best(x.assessments, claim, n);
      forall j :: 0 <= j < n ==>
        var a, b := x.assessments[i].decisions[claim], x.assessments[j].decisions[claim];
        !Better(b, a) && (j < i ==> Better(a, b))
    decreases n
  {
    hide Better;
    if n == 1 {
      BetterTransitive(Verdicts(x.assessments[0], claim), Verdicts(x.assessments[0], claim), []);
    } else {
      BestOfFirst(x, claim, n - 1);
      var i, k := Best(x.assessments, claim, n - 1), Best(x.assessments, claim, n);
      var last, was := x.assessments[n - 1].decisions[claim], x.assessments[i].decisions[claim];
      BetterTransitive(last, was, []);
      forall j | 0 <= j < n
        ensures !Better(x.assessments[j].decisions[claim], x.assessments[k].decisions[claim])
        ensures j < k ==> Better(x.assessments[k].decisions[claim], x.assessments[j].decisions[claim])
      {
        BetterTransitive(last, was, x.assessments[j].decisions[claim]);
        BetterTransitive(last, last, last);
      }
    }
  }

  /** The annotation whose verdicts are scored, by counting alone. */
  lemma BestJudges(x: Input, claim: string, i: nat)
    requires AllJudge(x, claim) && x.assessments != []
    ensures i == Best(x.assessments, claim, |x.assessments|) <==> Judges(x, claim, i)
  {
    var k, n := Best(x.assessments, claim, |x.assessments|), |x.assessments|;
    BestOfFirst(x, claim, n);
    hide Best, NoWorse, Tied, Better;
    forall j | 0 <= j < n
      ensures NoWorse(x.assessments[k].decisions[claim], x.assessments[j].decisions[claim])
      ensures Tied(x.assessments[k].decisions[claim], x.assessments[j].decisions[claim]) ==> k <= j
    {
      BetterMeans(x.assessments[k].decisions[claim], x.assessments[j].decisions[claim]);
    }
    if Judges(x, claim, i) {
      BetterMeans(x.assessments[i].decisions[claim], x.assessments[k].decisions[claim]);
      BetterMeans(x.assessments[k].decisions[claim], x.assessments[i].decisions[claim]);
    }
  }

  // ---------------------------------------------------------------- what a part counts for

  /** A part of the verdict by which claim `c` is judged. */
  ghost predicate Ruling(x: Input, c: Claim, i: nat, p: Part)
  {
    c in x.claims && AllJudge(x, c.id) && Judges(x, c.id, i) && p in x.assessments[i].decisions[c.id]
  }

  predicate Reviewed(x: Input, c: Claim, p: Part, s: Status)
  {
    (c.id, p.text) in x.reviews && x.reviews[(c.id, p.text)].status == s
  }

  predicate Repaired(x: Input, c: Claim, p: Part) { p.status != Supported && Reviewed(x, c, p, Supported) }

  /** Contradicted by the judge or by the review, and not supported by either. */
  predicate Denied(x: Input, c: Claim, p: Part)
  {
    p.status != Supported && !Reviewed(x, c, p, Supported)
      && (p.status == Contradicted || Reviewed(x, c, p, Contradicted))
  }

  predicate LeftOpen(x: Input, c: Claim, p: Part)
  {
    p.status == Unresolved && !Reviewed(x, c, p, Supported) && !Reviewed(x, c, p, Contradicted)
  }

  function Says(c: Claim, p: Part): Proposition { Proposition(c.modality, c.subject, p.text) }

  /** Names of the facts that annotation `i` cites. */
  ghost function Cited(root: map<FactKey, FactKey>, i: nat, facts: seq<string>): set<FactKey>
  {
    set f | f in facts && Labelled(i, f) in root :: root[Labelled(i, f)]
  }

  /** The part aims at these events, over the time of its claim. */
  ghost predicate Aims(x: Input, root: map<FactKey, FactKey>, c: Claim, i: nat, p: Part, t: set<FactKey>)
  {
    Ruling(x, c, i, p) &&
    if p.status == Supported then t == Cited(root, i, p.facts)
    else Repaired(x, c, p) && t == {FactKey.Reviewed(x.reviews[(c.id, p.text)].event)}
  }

  ghost predicate RefutedKey(x: Input, k: Proposition)
  {
    exists c, i, p :: Ruling(x, c, i, p) && Denied(x, c, p) && k == Says(c, p)
  }

  ghost predicate LackingKey(x: Input, k: Proposition)
  {
    exists c, i, p :: Ruling(x, c, i, p) && LeftOpen(x, c, p) && k == Says(c, p)
  }

  ghost predicate TargetKey(x: Input, root: map<FactKey, FactKey>, t: set<FactKey>)
  {
    exists c, i, p :: Aims(x, root, c, i, p, t)
  }

  /** Some claim that aims at the events covers the instant. */
  ghost predicate Claimed(x: Input, root: map<FactKey, FactKey>, t: set<FactKey>, y: real)
  {
    exists c, i, p :: Aims(x, root, c, i, p, t) && c.start <= y < c.end
  }

  ghost predicate FactShows(x: Input, root: map<FactKey, FactKey>, f: FactKey, i: nat, g: string, y: real)
  {
    && i < |x.references| && g in x.references[i] && Labelled(i, g) in root && root[Labelled(i, g)] == f
    && x.references[i][g].claim.start - x.policy.tolerance <= y < x.references[i][g].claim.end + x.policy.tolerance
  }

  ghost predicate ReviewShows(x: Input, f: FactKey, c: Claim, i: nat, p: Part, s: Span, y: real)
  {
    && Ruling(x, c, i, p) && Repaired(x, c, p) && f == FactKey.Reviewed(x.reviews[(c.id, p.text)].event)
    && s in x.reviews[(c.id, p.text)].spans && s.start - x.policy.tolerance <= y < s.end + x.policy.tolerance
  }

  /** A fact of that name, or a review that repaired a part, shows the event at the instant. */
  ghost predicate Shown(x: Input, root: map<FactKey, FactKey>, f: FactKey, y: real)
  {
    (exists i, g :: FactShows(x, root, f, i, g, y)) || (exists c, i, p, s :: ReviewShows(x, f, c, i, p, s, y))
  }

  ghost predicate ShownAny(x: Input, root: map<FactKey, FactKey>, t: set<FactKey>, y: real)
  {
    exists f :: f in t && Shown(x, root, f, y)
  }

  // ---------------------------------------------------------------- the list of contributions means the rulings

  ghost predicate Ruled(x: Input)
  {
    x.assessments != [] && forall c :: c in x.claims ==> AllJudge(x, c.id)
  }

  lemma AssessedIsRuled(x: Input)
    requires Typed(x) && Assessed(x)
    ensures Ruled(x) && |x.references| == |x.assessments|
  {
    forall c, j | c in x.claims && 0 <= j < |x.assessments|
      ensures c.id in x.assessments[j].decisions && x.assessments[j].decisions[c.id] != []
    {
      assert ValidAssessment(x.references[j], x.claims, x.assessments[j], x.policy);
      assert c.id in Ids(x.claims);
      assert x.assessments[j] in x.assessments;
    }
  }

  lemma {:induction false} PartContributed(x: Input, root: map<FactKey, FactKey>, c: Claim, i: nat, parts: seq<Part>,
                                           d: Contribution)
    ensures d in PartContributions(x, root, c, i, parts) <==> exists p :: p in parts && d == Classify(x, root, c, i, p)
    decreases |parts|
  {
    hide Classify;
    if parts != [] {
      var n := |parts| - 1;
      PartContributed(x, root, c, i, parts[..n], d);
      assert parts == parts[..n] + [parts[n]];
    }
  }

  lemma ClaimContributed(x: Input, root: map<FactKey, FactKey>, c: Claim, d: Contribution)
    requires Ruled(x) && c in x.claims
    ensures d in ClaimContributions(x, root, c) <==>
            exists i, p :: Ruling(x, c, i, p) && d == Classify(x, root, c, i, p)
  {
    var k := Best(x.assessments, c.id, |x.assessments|);
    var parts := Verdicts(x.assessments[k], c.id);
    PartContributed(x, root, c, k, parts, d);
    BestJudges(x, c.id, k);
    assert parts == x.assessments[k].decisions[c.id];
    hide Best, Judges, Classify, PartContributions;
    if p :| p in parts && d == Classify(x, root, c, k, p) {
      assert Ruling(x, c, k, p);
    }
    if i: nat, p :| Ruling(x, c, i, p) && d == Classify(x, root, c, i, p) {
      BestJudges(x, c.id, i);
      assert p in parts;
    }
  }

  lemma {:induction false} Contributed(x: Input, root: map<FactKey, FactKey>, claims: seq<Claim>, d: Contribution)
    requires Ruled(x) && forall c :: c in claims ==> c in x.claims
    ensures d in Contributions(x, root, claims) <==>
            exists c, i, p :: c in claims && Ruling(x, c, i, p) && d == Classify(x, root, c, i, p)
    decreases |claims|
  {
    hide ClaimContributions, Classify, Ruling, Ruled;
    if claims != [] {
      var n := |claims| - 1;
      assert claims == claims[..n] + [claims[n]];
      Contributed(x, root, claims[..n], d);
      ClaimContributed(x, root, claims[n], d);
    }
  }

  predicate Cites(x: Input, c: Claim, i: nat, p: Part, f: string)
  {
    c in x.claims && i < |x.assessments| && c.id in x.assessments[i].decisions
      && p in x.assessments[i].decisions[c.id] && f in p.facts
  }

  /** Names are given to every fact, and the verdicts cite facts of the reference. */
  ghost predicate Grounded(x: Input, root: map<FactKey, FactKey>)
  {
    && (forall i: nat, g: string :: (i < |x.references| && g in x.references[i]) <==> Labelled(i, g) in root)
    && (forall c, i: nat, p, f :: Cites(x, c, i, p, f) ==> Labelled(i, f) in root)
  }

  lemma AssessedIsGrounded(x: Input, root: map<FactKey, FactKey>)
    requires Assessed(x) && root.Keys == FactKeys(x)
    ensures Grounded(x, root)
  {
    forall i: nat, g: string
      ensures (i < |x.references| && g in x.references[i]) <==> Labelled(i, g) in root
    {
    }
    hide FactKeys;
    forall c, i: nat, p, f | Cites(x, c, i, p, f)
      ensures Labelled(i, f) in root
    {
      assert ValidAssessment(x.references[i], x.claims, x.assessments[i], x.policy);
      assert ValidPart(x.references[i], c, x.assessments[i], p, x.policy);
    }
  }

  lemma CitedTargets(x: Input, root: map<FactKey, FactKey>, c: Claim, i: nat, p: Part)
    requires Grounded(x, root) && Ruling(x, c, i, p)
    ensures Targets(root, i, p.facts) == Cited(root, i, p.facts)
  {
    assert forall f :: f in p.facts ==> Cites(x, c, i, p, f);
    assert forall f :: f in p.facts ==> Labelled(i, f) in root;
    hide Ruling, Grounded;
  }

  /** The four ways a part is classified. */
  lemma Classified(x: Input, root: map<FactKey, FactKey>, c: Claim, i: nat, p: Part)
    requires Grounded(x, root) && Ruling(x, c, i, p)
    ensures var d := Classify(x, root, c, i, p);
      && (d.Refutes? <==> Denied(x, c, p)) && (d.Lacks? <==> LeftOpen(x, c, p))
      && (d.Refutes? || d.Lacks? ==> d.key == Says(c, p))
      && (d.Confirms? <==> Repaired(x, c, p)) && (d.Supports? <==> p.status == Supported)
      && (d.Supports? ==> d.targets == Cited(root, i, p.facts))
      && (d.Confirms? ==> d.event == FactKey.Reviewed(x.reviews[(c.id, p.text)].event)
                          && d.evidence == x.reviews[(c.id, p.text)].spans)
      && (d.Supports? || d.Confirms? ==> d.span == Span(c.start, c.end))
  {
    CitedTargets(x, root, c, i, p);
    hide Targets, Ruling, Grounded, Cited;
  }

  lemma ClassifiedTarget(x: Input, root: map<FactKey, FactKey>, c: Claim, i: nat, p: Part, t: set<FactKey>)
    requires Grounded(x, root) && Ruling(x, c, i, p)
    ensures TargetOf(Classify(x, root, c, i, p)) == Some(t) <==> Aims(x, root, c, i, p, t)
  {
    Classified(x, root, c, i, p);
    hide Classify, Ruling, Grounded, Cited;
  }

  /** What every ruling on the claims contributes, and nothing else. */
  ghost predicate Collects(x: Input, root: map<FactKey, FactKey>, cs: seq<Contribution>)
  {
    forall d :: d in cs <==> exists c, i, p :: Ruling(x, c, i, p) && d == Classify(x, root, c, i, p)
  }

  lemma ContributionsCollect(x: Input, root: map<FactKey, FactKey>)
    requires Ruled(x)
    ensures Collects(x, root, Contributions(x, root, x.claims))
  {
    hide Classify;
    forall d
      ensures d in Contributions(x, root, x.claims) <==>
              exists c, i, p :: Ruling(x, c, i, p) && d == Classify(x, root, c, i, p)
    {
      Contributed(x, root, x.claims, d);
    }
  }

  lemma RefutedMeans(x: Input, root: map<FactKey, FactKey>, cs: seq<Contribution>, k: Proposition)
    requires Grounded(x, root) && Collects(x, root, cs)
    ensures k in Refuted(cs) <==> RefutedKey(x, k)
  {
    hide Classify, Ruling, Grounded, Denied;
    if d :| d in cs && d.Refutes? && d.key == k {
      var c, i, p :| Ruling(x, c, i, p) && d == Classify(x, root, c, i, p);
      Classified(x, root, c, i, p);
    }
    if c, i: nat, p :| Ruling(x, c, i, p) && Denied(x, c, p) && k == Says(c, p) {
      Classified(x, root, c, i, p);
      assert Classify(x, root, c, i, p) in cs;
    }
  }

  lemma LackingMeans(x: Input, root: map<FactKey, FactKey>, cs: seq<Contribution>, k: Proposition)
    requires Grounded(x, root) && Collects(x, root, cs)
    ensures k in Lacking(cs) <==> LackingKey(x, k)
  {
    hide Classify, Ruling, Grounded, LeftOpen;
    if d :| d in cs && d.Lacks? && d.key == k {
      var c, i, p :| Ruling(x, c, i, p) && d == Classify(x, root, c, i, p);
      Classified(x, root, c, i, p);
    }
    if c, i: nat, p :| Ruling(x, c, i, p) && LeftOpen(x, c, p) && k == Says(c, p) {
      Classified(x, root, c, i, p);
      assert Classify(x, root, c, i, p) in cs;
    }
  }

  lemma TargetMeans(x: Input, root: map<FactKey, FactKey>, cs: seq<Contribution>, t: set<FactKey>)
    requires Grounded(x, root) && Collects(x, root, cs)
    ensures t in TargetList(cs) <==> TargetKey(x, root, t)
  {
    hide Classify, Grounded, TargetOf, Cited, Repaired;
    if d :| d in cs && TargetOf(d) == Some(t) {
      var c, i, p :| Ruling(x, c, i, p) && d == Classify(x, root, c, i, p);
      ClassifiedTarget(x, root, c, i, p, t);
    }
    if c, i: nat, p :| Aims(x, root, c, i, p, t) {
      ClassifiedTarget(x, root, c, i, p, t);
      assert Classify(x, root, c, i, p) in cs;
    }
  }

  lemma ClaimedMeans(x: Input, root: map<FactKey, FactKey>, cs: seq<Contribution>, t: set<FactKey>, y: real)
    requires Grounded(x, root) && Collects(x, root, cs)
    ensures Claims(cs, t, y) <==> Claimed(x, root, t, y)
  {
    hide Classify, Grounded, Cited, Repaired, Ruling;
    if d :| d in cs && TargetOf(d) == Some(t) && Holds(d.span, y) {
      var c, i, p :| Ruling(x, c, i, p) && d == Classify(x, root, c, i, p);
      ClassifiedTarget(x, root, c, i, p, t);
      Classified(x, root, c, i, p);
    }
    if c, i: nat, p :| Aims(x, root, c, i, p, t) && c.start <= y < c.end {
      ClassifiedTarget(x, root, c, i, p, t);
      Classified(x, root, c, i, p);
      var d := Classify(x, root, c, i, p);
      assert d in cs && TargetOf(d) == Some(t) && Holds(d.span, y);
    }
  }

  lemma FactMeans(x: Input, root: map<FactKey, FactKey>, f: FactKey, y: real)
    requires Grounded(x, root) && root.Keys == FactKeys(x)
    ensures (exists k :: FactWitness(x, root, f, k, y)) <==> exists i, g :: FactShows(x, root, f, i, g, y)
  {
    if k :| FactWitness(x, root, f, k, y) {
      assert FactShows(x, root, f, k.reference, k.id, y);
    }
    if i: nat, g: string :| FactShows(x, root, f, i, g, y) {
      assert FactWitness(x, root, f, Labelled(i, g), y);
    }
  }

  lemma ReviewMeans(x: Input, root: map<FactKey, FactKey>, cs: seq<Contribution>, f: FactKey, y: real)
    requires Grounded(x, root) && Collects(x, root, cs)
    ensures (exists c, s :: ReviewWitness(x, cs, f, c, s, y)) <==> exists c, i, p, s :: ReviewShows(x, f, c, i, p, s, y)
  {
    hide Classify, Grounded, Ruling, Repaired;
    if d, s :| ReviewWitness(x, cs, f, d, s, y) {
      var c, i, p :| Ruling(x, c, i, p) && d == Classify(x, root, c, i, p);
      Classified(x, root, c, i, p);
      assert ReviewShows(x, f, c, i, p, s, y);
    }
    if c, i: nat, p, s :| ReviewShows(x, f, c, i, p, s, y) {
      Classified(x, root, c, i, p);
      assert ReviewWitness(x, cs, f, Classify(x, root, c, i, p), s, y);
    }
  }

  lemma ShownMeans(x: Input, root: map<FactKey, FactKey>, cs: seq<Contribution>, t: set<FactKey>, y: real)
    requires Grounded(x, root) && Collects(x, root, cs) && root.Keys == FactKeys(x)
    ensures EvidentAny(x, root, cs, t, y) <==> ShownAny(x, root, t, y)
  {
    hide FactWitness, ReviewWitness, FactShows, ReviewShows, Grounded, Collects, FactKeys;
    forall f
      ensures Evident(x, root, cs, f, y) <==> Shown(x, root, f, y)
    {
      FactMeans(x, root, f, y);
      ReviewMeans(x, root, cs, f, y);
    }
    hide Evident, Shown;
  }

  // ---------------------------------------------------------------- a claim that somebody fully supports

  lemma {:induction false} AllOrSome(parts: seq<Part>)
    ensures Tally(parts, Supported) <= |parts|
    ensures Tally(parts, Supported) == |parts| <==> forall p :: p in parts ==> p.status == Supported
    decreases |parts|
  {
    TallyIsCount(parts, Supported);
    if parts != [] {
      var n := |parts| - 1;
      AllOrSome(parts[..n]);
      TallyIsCount(parts[..n], Supported);
      assert parts == parts[..n] + [parts[n]];
    }
    hide Tally;
  }

  lemma Cancel(a: nat, n: nat, m: nat)
    requires m > 0 && a * m >= n * m
    ensures a >= n
  {
  }

  /** If some annotation supports a claim in every part, nothing of the claim is refuted or lacking. */
  lemma FullySupported(x: Input, c: Claim, j: nat, i: nat, p: Part)
    requires AllJudge(x, c.id) && j < |x.assessments|
    requires forall q :: q in x.assessments[j].decisions[c.id] ==> q.status == Supported
    requires Ruling(x, c, i, p)
    ensures p.status == Supported && !Denied(x, c, p) && !LeftOpen(x, c, p)
  {
    var a, b := x.assessments[i].decisions[c.id], x.assessments[j].decisions[c.id];
    assert NoWorse(a, b);
    AllOrSome(a);
    AllOrSome(b);
    hide Tally, Reviewed;
    assert Tally(a, Supported) * |b| >= |a| * |b|;
    Cancel(Tally(a, Supported), |a|, |b|);
  }

  // ---------------------------------------------------------------- shares of points in time

  /** The part of `p` that lies in `q`, measured on spans that cover exactly those points. */
  ghost predicate ShareIs(p: iset<real>, q: iset<real>, amount: real)
  {
    exists left: seq<Span>, right: seq<Span> ::
      Covered(left) == p && Covered(right) == q && Length(left) > 0.0
        && amount * Length(left) == Intersection(left, right)
  }

  lemma FractionIsShare(left: seq<Span>, right: seq<Span>, p: iset<real>, q: iset<real>)
    requires Covered(left) == p && Covered(right) == q && Length(left) > 0.0
    ensures ShareIs(p, q, Fraction(p, q)) && 0.0 <= Fraction(p, q) <= 1.0
  {
    hide *;
    FractionIs(left, right);
    FractionInUnit(p, q);
    Divided(Intersection(left, right), Length(left));
    ShareIntro(left, right, p, q, Fraction(p, q));
  }

  lemma ShareIntro(left: seq<Span>, right: seq<Span>, p: iset<real>, q: iset<real>, amount: real)
    requires Covered(left) == p && Covered(right) == q && Length(left) > 0.0
    requires amount * Length(left) == Intersection(left, right)
    ensures ShareIs(p, q, amount)
  {
    hide Covered, Length, Intersection;
  }

  lemma Divided(a: real, b: real)
    requires b > 0.0
    ensures a / b * b == a
  {
  }

  lemma {:induction false} ListOf(s: set<Span>) returns (r: seq<Span>)
    ensures forall x :: x in r <==> x in s
    decreases |s|
  {
    if s == {} {
      r := [];
    } else {
      var x :| x in s;
      var rest := ListOf(s - {x});
      r := [x] + rest;
    }
  }

  ghost function ClaimedPoints(x: Input, root: map<FactKey, FactKey>, t: set<FactKey>): iset<real>
  {
    iset y: real | Claimed(x, root, t, y)
  }

  ghost function ShownPoints(x: Input, root: map<FactKey, FactKey>, t: set<FactKey>): iset<real>
  {
    iset y: real | ShownAny(x, root, t, y)
  }

  lemma ListCovers(r: seq<Span>, y: real)
    ensures y in Covered(r) <==> exists s :: s in r && Holds(s, y)
  {
    if s :| s in r && Holds(s, y) {
      var i :| 0 <= i < |r| && r[i] == s;
    }
  }

  ghost function ClaimSpans(cs: seq<Contribution>, t: set<FactKey>): set<Span>
  {
    set d | d in cs && TargetOf(d) == Some(t) :: d.span
  }

  lemma ClaimsCovered(cs: seq<Contribution>, t: set<FactKey>, y: real, r: seq<Span>)
    requires forall s :: s in r <==> s in ClaimSpans(cs, t)
    ensures y in Covered(r) <==> Claims(cs, t, y)
  {
    ListCovers(r, y);
    hide Holds, Covered;
    if Claims(cs, t, y) {
      var d :| d in cs && TargetOf(d) == Some(t) && Holds(d.span, y);
      assert d.span in r;
    }
  }

  ghost function FactSpans(x: Input, root: map<FactKey, FactKey>, t: set<FactKey>): set<Span>
  {
    set k | k in FactKeys(x) && Rep(root, k) in t :: Widen(SpanOf(FactOf(x, k).claim), x.policy.tolerance)
  }

  ghost function ReviewSpans(x: Input, cs: seq<Contribution>, t: set<FactKey>): set<Span>
  {
    set d, s | d in cs && d.Confirms? && d.event in t && s in d.evidence :: Widen(s, x.policy.tolerance)
  }

  lemma FactCovers(x: Input, root: map<FactKey, FactKey>, t: set<FactKey>, f: FactKey, k: FactKey, y: real)
    requires f in t && FactWitness(x, root, f, k, y)
    ensures exists s :: s in FactSpans(x, root, t) && Holds(s, y)
  {
    assert Widen(SpanOf(FactOf(x, k).claim), x.policy.tolerance) in FactSpans(x, root, t);
  }

  lemma ReviewCovers(x: Input, cs: seq<Contribution>, t: set<FactKey>, f: FactKey, c: Contribution, e: Span, y: real)
    requires f in t && ReviewWitness(x, cs, f, c, e, y)
    ensures exists s :: s in ReviewSpans(x, cs, t) && Holds(s, y)
  {
    assert Widen(e, x.policy.tolerance) in ReviewSpans(x, cs, t);
  }

  lemma SpanEvident(x: Input, root: map<FactKey, FactKey>, cs: seq<Contribution>, t: set<FactKey>, y: real, s: Span)
    requires s in FactSpans(x, root, t) + ReviewSpans(x, cs, t) && Holds(s, y)
    ensures EvidentAny(x, root, cs, t, y)
  {
    hide Holds;
    if s in FactSpans(x, root, t) {
      var k :| k in FactKeys(x) && Rep(root, k) in t && s == Widen(SpanOf(FactOf(x, k).claim), x.policy.tolerance);
      assert FactWitness(x, root, Rep(root, k), k, y);
      assert Evident(x, root, cs, Rep(root, k), y);
    } else {
      var d, e :| d in cs && d.Confirms? && d.event in t && e in d.evidence && s == Widen(e, x.policy.tolerance);
      assert ReviewWitness(x, cs, d.event, d, e, y);
      assert Evident(x, root, cs, d.event, y);
    }
  }

  lemma EvidenceCovered(x: Input, root: map<FactKey, FactKey>, cs: seq<Contribution>, t: set<FactKey>, y: real,
                        r: seq<Span>)
    requires forall s :: s in r <==> s in FactSpans(x, root, t) + ReviewSpans(x, cs, t)
    ensures y in Covered(r) <==> EvidentAny(x, root, cs, t, y)
  {
    ListCovers(r, y);
    hide Holds, Covered, FactWitness, ReviewWitness, FactSpans, ReviewSpans;
    if EvidentAny(x, root, cs, t, y) {
      var f :| f in t && Evident(x, root, cs, f, y);
      if k :| FactWitness(x, root, f, k, y) {
        FactCovers(x, root, t, f, k, y);
      } else {
        var c, e :| ReviewWitness(x, cs, f, c, e, y);
        ReviewCovers(x, cs, t, f, c, e, y);
      }
    }
    if s :| s in r && Holds(s, y) {
      SpanEvident(x, root, cs, t, y, s);
    }
  }

  /** The amount demanded of a target is the share of the claimed time that evidence shows. */
  lemma DemandIsShare(x: Input, root: map<FactKey, FactKey>, cs: seq<Contribution>, t: set<FactKey>)
    requires Typed(x) && Ruled(x) && Grounded(x, root) && root.Keys == FactKeys(x)
    requires Collects(x, root, cs) && TargetKey(x, root, t)
    ensures ShareIs(ClaimedPoints(x, root, t), ShownPoints(x, root, t), DemandOf(x, root, cs, t).amount)
  {
    var left := ListOf(ClaimSpans(cs, t));
    var right := ListOf(FactSpans(x, root, t) + ReviewSpans(x, cs, t));
    var p, q := ClaimPoints(cs, t), EvidencePoints(x, root, cs, t);
    forall y: real
      ensures y in Covered(left) <==> Claims(cs, t, y)
      ensures y in Covered(right) <==> EvidentAny(x, root, cs, t, y)
      ensures Claims(cs, t, y) <==> Claimed(x, root, t, y)
      ensures EvidentAny(x, root, cs, t, y) <==> ShownAny(x, root, t, y)
    {
      ClaimsCovered(cs, t, y, left);
      EvidenceCovered(x, root, cs, t, y, right);
      ClaimedMeans(x, root, cs, t, y);
      ShownMeans(x, root, cs, t, y);
    }
    hide Claims, EvidentAny, Claimed, ShownAny, Covered, Collects, FactSpans, ReviewSpans, Grounded, FactKeys;
    assert Covered(left) == p == ClaimedPoints(x, root, t);
    assert Covered(right) == q == ShownPoints(x, root, t);
    TimeClaimed(x, root, cs, t, left);
    hide ClaimPoints, EvidencePoints, ClaimedPoints, ShownPoints, Length, Fraction;
    FractionIsShare(left, right, p, q);
  }

  lemma TimeClaimed(x: Input, root: map<FactKey, FactKey>, cs: seq<Contribution>, t: set<FactKey>, left: seq<Span>)
    requires Typed(x) && Grounded(x, root) && Collects(x, root, cs) && TargetKey(x, root, t)
    requires forall s :: s in left <==> s in ClaimSpans(cs, t)
    ensures Length(left) > 0.0
  {
    hide Classify, Grounded, Ruling, Cited, Repaired, Length;
    var c, i, p :| Aims(x, root, c, i, p, t);
    ClassifiedTarget(x, root, c, i, p, t);
    Classified(x, root, c, i, p);
    var d := Classify(x, root, c, i, p);
    assert d in cs && d.span in left;
    RulingClaim(x, c, i, p);
    LengthPositive(left, d.span);
  }

  lemma RulingClaim(x: Input, c: Claim, i: nat, p: Part)
    requires Typed(x) && Ruling(x, c, i, p)
    ensures c.start < c.end
  {
  }

  // ---------------------------------------------------------------- recall of one annotation

  /** Fact `g` of annotation `i` was labelled by its annotator, and bears the name. */
  ghost predicate Labels(x: Input, root: map<FactKey, FactKey>, i: nat, k: FactKey, g: string)
  {
    && i < |x.references| && g in x.references[i] && x.references[i][g].annotated
    && Labelled(i, g) in root && root[Labelled(i, g)] == k
  }

  ghost predicate OwnedAt(x: Input, root: map<FactKey, FactKey>, i: nat, k: FactKey, y: real)
  {
    exists g :: Labels(x, root, i, k, g) && x.references[i][g].claim.start <= y < x.references[i][g].claim.end
  }

  /** A part that supports the event against this annotation, over the widened time of its claim. */
  ghost predicate Matches(x: Input, root: map<FactKey, FactKey>, i: nat, k: FactKey, c: Claim, p: Part)
  {
    && i < |x.assessments| && c in x.claims && c.id in x.assessments[i].decisions
    && p in x.assessments[i].decisions[c.id] && p.status == Supported && k in Cited(root, i, p.facts)
  }

  ghost predicate MatchedAt(x: Input, root: map<FactKey, FactKey>, i: nat, k: FactKey, y: real)
  {
    exists c, p :: Matches(x, root, i, k, c, p) && c.start - x.policy.tolerance <= y < c.end + x.policy.tolerance
  }

  ghost function OwnedPoints(x: Input, root: map<FactKey, FactKey>, i: nat, k: FactKey): iset<real>
  {
    iset y: real | OwnedAt(x, root, i, k, y)
  }

  ghost function MatchedPoints(x: Input, root: map<FactKey, FactKey>, i: nat, k: FactKey): iset<real>
  {
    iset y: real | MatchedAt(x, root, i, k, y)
  }

  /** One for an event that is labelled core, the weight of a detail otherwise. */
  ghost function Worth(x: Input, root: map<FactKey, FactKey>, i: nat): FactKey -> real
  {
    (k: FactKey) =>
      if exists g :: Labels(x, root, i, k, g) && x.references[i][g].core then 1.0 else x.policy.detailWeight
  }

  ghost function Earned(x: Input, root: map<FactKey, FactKey>, i: nat, share: FactKey -> real): FactKey -> real
  {
    (k: FactKey) => Worth(x, root, i)(k) * share(k)
  }

  /** The worth of the matched shares, over the worth of all events the annotation labels. */
  ghost predicate RecallIs(x: Input, root: map<FactKey, FactKey>, i: nat, r: real)
  {
    exists keys: set<FactKey>, share: FactKey -> real :: RecallOf(x, root, i, keys, share, r)
  }

  ghost predicate RecallOf(x: Input, root: map<FactKey, FactKey>, i: nat, keys: set<FactKey>, share: FactKey -> real,
                           r: real)
  {
    && (forall k :: k in keys <==> exists g :: Labels(x, root, i, k, g))
    && (forall k :: k in keys ==> ShareIs(OwnedPoints(x, root, i, k), MatchedPoints(x, root, i, k), share(k)))
    && if Sum(keys, Worth(x, root, i)) == 0.0 then r == 0.0
       else r * Sum(keys, Worth(x, root, i)) == Sum(keys, Earned(x, root, i, share))
  }

  ghost function OwnSpans(x: Input, root: map<FactKey, FactKey>, i: nat, k: FactKey): set<Span>
    requires i < |x.references|
  {
    set g | g in x.references[i] && OwnWitness(x, root, i, k, g) :: SpanOf(x.references[i][g].claim)
  }

  ghost function MatchSpans(x: Input, root: map<FactKey, FactKey>, i: nat, k: FactKey): set<Span>
    requires i < |x.assessments|
  {
    set c | c in x.claims && (exists p :: CoverWitness(x, root, i, k, c, p)) :: Widen(SpanOf(c), x.policy.tolerance)
  }

  lemma LabelsMean(x: Input, root: map<FactKey, FactKey>, i: nat, k: FactKey, g: string)
    requires Grounded(x, root) && i < |x.references|
    ensures OwnWitness(x, root, i, k, g) <==> Labels(x, root, i, k, g)
  {
  }

  lemma MatchesMean(x: Input, root: map<FactKey, FactKey>, i: nat, k: FactKey, c: Claim, p: Part)
    requires Grounded(x, root) && Ruled(x) && i < |x.assessments|
    ensures CoverWitness(x, root, i, k, c, p) <==> Matches(x, root, i, k, c, p)
  {
    if c in x.claims {
      assert AllJudge(x, c.id);
      if p in x.assessments[i].decisions[c.id] {
        assert forall f :: f in p.facts ==> Cites(x, c, i, p, f);
        assert forall f :: f in p.facts ==> Labelled(i, f) in root;
        assert Targets(root, i, p.facts) == Cited(root, i, p.facts);
      }
    }
  }

  lemma OwnedCovered(x: Input, root: map<FactKey, FactKey>, i: nat, k: FactKey, y: real, r: seq<Span>)
    requires Grounded(x, root) && i < |x.references| && forall s :: s in r <==> s in OwnSpans(x, root, i, k)
    ensures y in Covered(r) <==> OwnCovers(x, root, i, k, y)
    ensures OwnCovers(x, root, i, k, y) <==> OwnedAt(x, root, i, k, y)
  {
    ListCovers(r, y);
    hide Covered, Grounded;
    forall g
      ensures OwnWitness(x, root, i, k, g) <==> Labels(x, root, i, k, g)
    {
      LabelsMean(x, root, i, k, g);
    }
    if g :| OwnWitness(x, root, i, k, g) && Holds(SpanOf(x.references[i][g].claim), y) {
      assert SpanOf(x.references[i][g].claim) in r;
      assert Labels(x, root, i, k, g);
    }
    if g :| Labels(x, root, i, k, g) && x.references[i][g].claim.start <= y < x.references[i][g].claim.end {
      assert OwnWitness(x, root, i, k, g);
    }
  }

  lemma MatchedCovered(x: Input, root: map<FactKey, FactKey>, i: nat, k: FactKey, y: real, r: seq<Span>)
    requires Grounded(x, root) && Ruled(x) && i < |x.assessments|
    requires forall s :: s in r <==> s in MatchSpans(x, root, i, k)
    ensures y in Covered(r) <==> CoverCovers(x, root, i, k, y)
    ensures CoverCovers(x, root, i, k, y) <==> MatchedAt(x, root, i, k, y)
  {
    ListCovers(r, y);
    hide Covered, Grounded, Ruled;
    forall c, p
      ensures CoverWitness(x, root, i, k, c, p) <==> Matches(x, root, i, k, c, p)
    {
      MatchesMean(x, root, i, k, c, p);
    }
    hide Matches, CoverWitness;
    if c, p :| CoverWitness(x, root, i, k, c, p) && Holds(Widen(SpanOf(c), x.policy.tolerance), y) {
      WitnessClaim(x, root, i, k, c, p);
      assert Widen(SpanOf(c), x.policy.tolerance) in r;
      assert Matches(x, root, i, k, c, p);
    }
    if c, p :| Matches(x, root, i, k, c, p) && c.start - x.policy.tolerance <= y < c.end + x.policy.tolerance {
      assert CoverWitness(x, root, i, k, c, p);
    }
  }

  lemma WitnessClaim(x: Input, root: map<FactKey, FactKey>, i: nat, k: FactKey, c: Claim, p: Part)
    requires i < |x.assessments| && CoverWitness(x, root, i, k, c, p)
    ensures c in x.claims
  {
  }

  lemma RecallShare(x: Input, root: map<FactKey, FactKey>, i: nat, k: FactKey)
    requires Typed(x) && Grounded(x, root) && Ruled(x) && i < |x.references| == |x.assessments|
    requires exists g :: Labels(x, root, i, k, g)
    ensures ShareIs(OwnedPoints(x, root, i, k), MatchedPoints(x, root, i, k),
                    Fraction(OwnPoints(x, root, i, k), CoverPoints(x, root, i, k)))
  {
    var left := ListOf(OwnSpans(x, root, i, k));
    var right := ListOf(MatchSpans(x, root, i, k));
    forall y: real
      ensures y in Covered(left) <==> OwnCovers(x, root, i, k, y)
      ensures y in Covered(right) <==> CoverCovers(x, root, i, k, y)
      ensures OwnCovers(x, root, i, k, y) <==> OwnedAt(x, root, i, k, y)
      ensures CoverCovers(x, root, i, k, y) <==> MatchedAt(x, root, i, k, y)
    {
      OwnedCovered(x, root, i, k, y, left);
      MatchedCovered(x, root, i, k, y, right);
    }
    hide OwnCovers, CoverCovers, OwnedAt, MatchedAt, Covered, MatchSpans, Ruled, Fraction;
    assert Covered(left) == OwnPoints(x, root, i, k) == OwnedPoints(x, root, i, k);
    assert Covered(right) == CoverPoints(x, root, i, k) == MatchedPoints(x, root, i, k);
    TimeLabelled(x, root, i, k, left);
    hide OwnPoints, CoverPoints, OwnedPoints, MatchedPoints, Length;
    FractionIsShare(left, right, OwnPoints(x, root, i, k), CoverPoints(x, root, i, k));
  }

  lemma TimeLabelled(x: Input, root: map<FactKey, FactKey>, i: nat, k: FactKey, left: seq<Span>)
    requires Typed(x) && Grounded(x, root) && i < |x.references| && exists g :: Labels(x, root, i, k, g)
    requires forall s :: s in left <==> s in OwnSpans(x, root, i, k)
    ensures Length(left) > 0.0
  {
    hide Length;
    var g :| Labels(x, root, i, k, g);
    LabelsMean(x, root, i, k, g);
    assert x.references[i] in x.references;
    assert SpanOf(x.references[i][g].claim) in left;
    LengthPositive(left, SpanOf(x.references[i][g].claim));
  }

  ghost function Shares(x: Input, root: map<FactKey, FactKey>, i: nat): FactKey -> real
    requires i < |x.references| == |x.assessments|
  {
    (k: FactKey) => Fraction(OwnPoints(x, root, i, k), CoverPoints(x, root, i, k))
  }

  lemma WorthMeans(x: Input, root: map<FactKey, FactKey>, i: nat, k: FactKey)
    requires Grounded(x, root) && i < |x.references| == |x.assessments|
    ensures Weight(x, root, i)(k) == Worth(x, root, i)(k)
    ensures Gained(x, root, i)(k) == Earned(x, root, i, Shares(x, root, i))(k)
  {
    hide Fraction;
    forall g
      ensures OwnWitness(x, root, i, k, g) <==> Labels(x, root, i, k, g)
    {
      LabelsMean(x, root, i, k, g);
    }
    hide Grounded, OwnWitness, Labels;
    assert WeightOf(x, root, i, k) == Worth(x, root, i)(k);
  }

  lemma OwnMeans(x: Input, root: map<FactKey, FactKey>, i: nat, k: FactKey)
    requires Grounded(x, root) && i < |x.references|
    ensures k in Own(x, root, i) <==> exists g :: Labels(x, root, i, k, g)
  {
    if g :| g in x.references[i] && x.references[i][g].annotated && Rep(root, Labelled(i, g)) == k {
      LabelsMean(x, root, i, k, g);
    }
    if g :| Labels(x, root, i, k, g) {
      LabelsMean(x, root, i, k, g);
    }
  }

  lemma RecallSums(x: Input, root: map<FactKey, FactKey>, i: nat)
    requires Grounded(x, root) && i < |x.references| == |x.assessments|
    ensures var keys, share := Own(x, root, i), Shares(x, root, i);
      && Sum(keys, Weight(x, root, i)) == Sum(keys, Worth(x, root, i))
      && Sum(keys, Gained(x, root, i)) == Sum(keys, Earned(x, root, i, share))
  {
    hide Own, Grounded, Worth, Weight, Gained, Earned, Shares;
    forall k
      ensures Weight(x, root, i)(k) == Worth(x, root, i)(k)
      ensures Gained(x, root, i)(k) == Earned(x, root, i, Shares(x, root, i))(k)
    {
      WorthMeans(x, root, i, k);
    }
    SumAgree(Own(x, root, i), Weight(x, root, i), Worth(x, root, i));
    SumAgree(Own(x, root, i), Gained(x, root, i), Earned(x, root, i, Shares(x, root, i)));
  }

  lemma ShareAt(x: Input, root: map<FactKey, FactKey>, i: nat, k: FactKey)
    requires Typed(x) && Grounded(x, root) && Ruled(x) && i < |x.references| == |x.assessments|
    requires exists g :: Labels(x, root, i, k, g)
    ensures ShareIs(OwnedPoints(x, root, i, k), MatchedPoints(x, root, i, k), Shares(x, root, i)(k))
  {
    RecallShare(x, root, i, k);
    hide Fraction, ShareIs, OwnPoints, CoverPoints, OwnedPoints, MatchedPoints, Labels;
  }

  lemma ReferenceRecallMeans(x: Input, root: map<FactKey, FactKey>, i: nat)
    requires Typed(x) && Grounded(x, root) && Ruled(x) && i < |x.references| == |x.assessments|
    ensures RecallIs(x, root, i, ReferenceRecall(x, root, i))
  {
    hide Own, Grounded, Typed, Ruled, Worth, Weight, Gained, Earned, Labels, Shares, ShareIs, OwnedPoints,
      MatchedPoints;
    var keys, share := Own(x, root, i), Shares(x, root, i);
    forall k
      ensures k in keys <==> exists g :: Labels(x, root, i, k, g)
    {
      OwnMeans(x, root, i, k);
    }
    forall k | k in keys
      ensures ShareIs(OwnedPoints(x, root, i, k), MatchedPoints(x, root, i, k), share(k))
    {
      ShareAt(x, root, i, k);
    }
    RecallSums(x, root, i);
    var total := Sum(keys, Worth(x, root, i));
    if total != 0.0 {
      Ratio(Sum(keys, Earned(x, root, i, share)), total);
    }
    assert RecallOf(x, root, i, keys, share, ReferenceRecall(x, root, i));
  }

  lemma Ratio(a: real, b: real)
    requires b != 0.0
    ensures a / b * b == a
  {
  }

  // ---------------------------------------------------------------- the score

  ghost function Added(values: seq<real>): real
  {
    if values == [] then 0.0 else Added(values[..|values| - 1]) + values[|values| - 1]
  }

  lemma {:induction false} RecallSumMeans(x: Input, root: map<FactKey, FactKey>, n: nat) returns (recalls: seq<real>)
    requires Typed(x) && Grounded(x, root) && Ruled(x) && n <= |x.references| == |x.assessments|
    ensures |recalls| == n && forall i :: 0 <= i < n ==> RecallIs(x, root, i, recalls[i])
    ensures RecallSum(x, root, n) == Added(recalls)
    decreases n
  {
    hide RecallIs, ReferenceRecall, Typed, Grounded, Ruled;
    if n == 0 {
      recalls := [];
    } else {
      var front := RecallSumMeans(x, root, n - 1);
      ReferenceRecallMeans(x, root, n - 1);
      recalls := front + [ReferenceRecall(x, root, n - 1)];
    }
  }

  /** Precision from what is demanded, what is refuted and what is lacking. */
  ghost predicate PrecisionIs(policy: Policy, events: nat, refuted: nat, credit: real, precision: real)
  {
    if events == 0 then precision == 0.0
    else precision * events as real ==
         (if credit >= policy.penalty * refuted as real then credit - policy.penalty * refuted as real else 0.0)
  }

  ghost predicate QualityIs(s: Score)
  {
    if s.precision + s.recall == 0.0 then s.quality == 0.0
    else s.quality * (s.precision + s.recall) == 2.0 * (s.precision * s.recall)
  }

  ghost predicate DistinctTargets(demands: seq<Demand>)
  {
    forall i, j :: 0 <= i < j < |demands| ==> demands[i].facts != demands[j].facts
  }

  /** One demand for every target of the rulings, for the share of its claimed time that is shown. */
  ghost predicate Demanded(x: Input, root: map<FactKey, FactKey>, demands: seq<Demand>)
  {
    && DistinctTargets(demands)
    && (forall t :: (exists i :: 0 <= i < |demands| && demands[i].facts == t) <==> TargetKey(x, root, t))
    && (forall i :: 0 <= i < |demands| ==>
          ShareIs(ClaimedPoints(x, root, demands[i].facts), ShownPoints(x, root, demands[i].facts), demands[i].amount))
  }

  lemma {:induction false} TargetsDistinct(cs: seq<Contribution>)
    ensures forall i, j :: 0 <= i < j < |TargetList(cs)| ==> TargetList(cs)[i] != TargetList(cs)[j]
    decreases |cs|
  {
    if cs != [] {
      hide TargetOf;
      TargetsDistinct(cs[..|cs| - 1]);
    }
  }

  lemma DemandAmount(x: Input, root: map<FactKey, FactKey>, cs: seq<Contribution>, demands: seq<Demand>, i: nat)
    requires Typed(x) && Ruled(x) && Grounded(x, root) && root.Keys == FactKeys(x) && Collects(x, root, cs)
    requires demands == Demands(x, root, cs, TargetList(cs)) && i < |demands|
    ensures demands[i].facts == TargetList(cs)[i] && TargetKey(x, root, demands[i].facts)
    ensures ShareIs(ClaimedPoints(x, root, demands[i].facts), ShownPoints(x, root, demands[i].facts), demands[i].amount)
  {
    hide Collects, Typed, Ruled, Grounded, FactKeys, TargetKey, ShareIs, Fraction, ClaimPoints, EvidencePoints,
      ClaimedPoints, ShownPoints;
    var t := TargetList(cs)[i];
    assert demands[i] == DemandOf(x, root, cs, t);
    assert t in TargetList(cs);
    hide TargetList;
    TargetMeans(x, root, cs, t);
    DemandIsShare(x, root, cs, t);
  }

  lemma DemandsMean(x: Input, root: map<FactKey, FactKey>, cs: seq<Contribution>)
    requires Typed(x) && Ruled(x) && Grounded(x, root) && root.Keys == FactKeys(x) && Collects(x, root, cs)
    ensures Demanded(x, root, Demands(x, root, cs, TargetList(cs)))
  {
    var demands, list := Demands(x, root, cs, TargetList(cs)), TargetList(cs);
    TargetsDistinct(cs);
    hide Collects, Typed, Ruled, Grounded, FactKeys, TargetKey, ShareIs, DemandOf, TargetList, Demands, ClaimedPoints,
      ShownPoints;
    forall i | 0 <= i < |demands|
      ensures demands[i].facts == list[i] && TargetKey(x, root, demands[i].facts)
      ensures ShareIs(ClaimedPoints(x, root, demands[i].facts), ShownPoints(x, root, demands[i].facts),
        demands[i].amount)
    {
      DemandAmount(x, root, cs, demands, i);
    }
    forall t | TargetKey(x, root, t)
      ensures exists i :: 0 <= i < |demands| && demands[i].facts == t
    {
      TargetMeans(x, root, cs, t);
      var i :| 0 <= i < |list| && list[i] == t;
      assert demands[i].facts == t;
    }
  }

  // ---------------------------------------------------------------- one name per event

  /** Exact duplicate labels of occurrences that touch. */
  ghost predicate SameFact(x: Input, i: nat, f: string, j: nat, g: string)
  {
    && i < |x.references| && f in x.references[i] && j < |x.references| && g in x.references[j]
    && var c, d := x.references[i][f].claim, x.references[j][g].claim;
       c.modality == d.modality && c.subject == d.subject && c.description == d.description
       && c.end >= d.start && d.end >= c.start
  }

  /** Part `m` of annotation `i` supports the proposition by a single fact. */
  ghost predicate Single(x: Input, claim: string, text: string, i: nat, m: nat, f: string)
  {
    && i < |x.assessments| && claim in x.assessments[i].decisions && m < |x.assessments[i].decisions[claim]|
    && x.assessments[i].decisions[claim][m] == Part(text, Supported, [f])
  }

  predicate After(i: nat, m: nat, j: nat, n: nat) { i < j || (i == j && m < n) }

  /** No single-fact support of the proposition stands between the two places. */
  ghost predicate Neighbours(x: Input, claim: string, text: string, i: nat, m: nat, j: nat, n: nat)
  {
    After(i, m, j, n) &&
    forall k, l, h :: Single(x, claim, text, k, l, h) ==> !(After(i, m, k, l) && After(k, l, j, n))
  }

  /** Different annotations support one proposition by overlapping facts. */
  ghost predicate Synonyms(x: Input, i: nat, f: string, j: nat, g: string)
  {
    && i < |x.references| && f in x.references[i] && j < |x.references| && g in x.references[j] && i != j
    && x.references[i][f].claim.end > x.references[j][g].claim.start
    && x.references[j][g].claim.end > x.references[i][f].claim.start
    && exists c, text, m, n :: c in x.claims && Single(x, c.id, text, i, m, f) && Single(x, c.id, text, j, n, g)
                               && Neighbours(x, c.id, text, i, m, j, n)
  }

  /** The two facts are one event. */
  ghost predicate Joint(x: Input, a: FactKey, b: FactKey)
  {
    a.Labelled? && b.Labelled? && (SameFact(x, a.reference, a.id, b.reference, b.id)
                                   || Synonyms(x, a.reference, a.id, b.reference, b.id))
  }

  ghost predicate Chain(x: Input, path: seq<FactKey>, a: FactKey, b: FactKey)
  {
    path != [] && path[0] == a && path[|path| - 1] == b
      && forall i :: 0 < i < |path| ==> Joint(x, path[i - 1], path[i]) || Joint(x, path[i], path[i - 1])
  }

  /** Facts share a name exactly when a chain of such pairs leads from one to the other. */
  ghost predicate SharedNames(x: Input, root: map<FactKey, FactKey>)
  {
    forall a, b :: a in root && b in root ==> (root[a] == root[b] <==> exists path :: Chain(x, path, a, b))
  }

  /** The name is the least fact that bears it. */
  ghost predicate LeastNames(root: map<FactKey, FactKey>)
  {
    && (forall a :: a in root ==> root[a] in root && root[root[a]] == root[a])
    && (forall a :: a in root ==> !Precedes(a, root[a]))
  }

  ghost predicate Names(x: Input, root: map<FactKey, FactKey>)
  {
    && (forall k :: k in root <==> k.Labelled? && k.reference < |x.references| && k.id in x.references[k.reference])
    && SharedNames(x, root) && LeastNames(root)
  }

  predicate Precedes(a: FactKey, b: FactKey)
  {
    a.Labelled? && b.Labelled?
      && (a.reference < b.reference || (a.reference == b.reference && Ordering.Less(a.id, b.id)))
  }

  // ---------------------------------------------------------------- alias lists are the places in order

  ghost predicate Lone(p: Part, text: string) { p.status == Supported && |p.facts| == 1 && p.text == text }

  /** Where the alias list of one annotation takes its facts from. */
  ghost function PartPlaces(i: nat, parts: seq<Part>, text: string): seq<(nat, nat)>
  {
    if parts == [] then []
    else
      var n := |parts| - 1;
      PartPlaces(i, parts[..n], text) + if Lone(parts[n], text) then [(i, n)] else []
  }

  ghost function Places(assessments: seq<Assessment>, n: nat, claim: string, text: string): seq<(nat, nat)>
    requires n <= |assessments|
  {
    if n == 0 then []
    else
      Places(assessments, n - 1, claim, text) + PartPlaces(n - 1, Verdicts(assessments[n - 1], claim), text)
  }

  ghost predicate InSequence(s: seq<(nat, nat)>)
  {
    forall q, r :: 0 <= q < r < |s| ==> After(s[q].0, s[q].1, s[r].0, s[r].1)
  }

  lemma {:induction false} PartPlacesMean(i: nat, parts: seq<Part>, text: string)
    ensures var s, list := PartPlaces(i, parts, text), PartAliases(i, parts, text);
      && |s| == |list| && InSequence(s)
      && (forall q :: 0 <= q < |s| ==> s[q].0 == i && s[q].1 < |parts| && Lone(parts[s[q].1], text)
                                       && list[q] == Labelled(i, parts[s[q].1].facts[0]))
      && forall m: nat :: m < |parts| && Lone(parts[m], text) ==> (i, m) in s
    decreases |parts|
  {
    if parts != [] {
      var n := |parts| - 1;
      PartPlacesMean(i, parts[..n], text);
      var s, front := PartPlaces(i, parts, text), PartPlaces(i, parts[..n], text);
      forall m: nat | m < |parts| && Lone(parts[m], text)
        ensures (i, m) in s
      {
        if m < n {
          assert parts[..n][m] == parts[m];
          assert (i, m) in front;
        } else {
          assert s[|s| - 1] == (i, m);
        }
      }
    }
  }

  /** Place `q` of the list is where its fact `q` is cited. */
  ghost predicate PlaceOf(assessments: seq<Assessment>, n: nat, claim: string, p: (nat, nat), text: string, k: FactKey)
    requires n <= |assessments|
  {
    p.0 < n && p.1 < |Verdicts(assessments[p.0], claim)| && Lone(Verdicts(assessments[p.0], claim)[p.1], text)
      && k == Labelled(p.0, Verdicts(assessments[p.0], claim)[p.1].facts[0])
  }

  ghost predicate PlacesOf(assessments: seq<Assessment>, n: nat, claim: string, text: string, s: seq<(nat, nat)>,
                           list: seq<FactKey>)
    requires n <= |assessments|
  {
    && |s| == |list| && InSequence(s)
    && (forall q :: 0 <= q < |s| ==> PlaceOf(assessments, n, claim, s[q], text, list[q]))
    && forall p: (nat, nat), k :: PlaceOf(assessments, n, claim, p, text, k) ==> p in s
  }

  lemma {:induction false} PlacesMean(assessments: seq<Assessment>, n: nat, claim: string, text: string)
    requires n <= |assessments|
    ensures PlacesOf(assessments, n, claim, text, Places(assessments, n, claim, text),
                     Aliases(assessments, n, claim, text))
    decreases n
  {
    if n > 0 {
      PlacesMean(assessments, n - 1, claim, text);
      var parts := Verdicts(assessments[n - 1], claim);
      PartPlacesMean(n - 1, parts, text);
      var front, back := Places(assessments, n - 1, claim, text), PartPlaces(n - 1, parts, text);
      var list, more := Aliases(assessments, n - 1, claim, text), PartAliases(n - 1, parts, text);
      hide Places, PartPlaces, Aliases, PartAliases, Verdicts, Lone;
      PlacesAppend(assessments, n, claim, text, front, back, list, more);
      assert Places(assessments, n, claim, text) == front + back
        && Aliases(assessments, n, claim, text) == list + more by {
        AliasesStep(assessments, n, claim, text);
      }
    }
  }

  lemma AliasesStep(assessments: seq<Assessment>, n: nat, claim: string, text: string)
    requires 0 < n <= |assessments|
    ensures var parts := Verdicts(assessments[n - 1], claim);
      && Places(assessments, n, claim, text) == Places(assessments, n - 1, claim, text) + PartPlaces(n - 1, parts, text)
      && Aliases(assessments, n, claim, text)
         == Aliases(assessments, n - 1, claim, text) + PartAliases(n - 1, parts, text)
  {
  }

  lemma PlacesAppend(assessments: seq<Assessment>, n: nat, claim: string, text: string, front: seq<(nat, nat)>,
                     back: seq<(nat, nat)>, list: seq<FactKey>, more: seq<FactKey>)
    requires 0 < n <= |assessments| && PlacesOf(assessments, n - 1, claim, text, front, list)
    requires |back| == |more| && InSequence(back)
    requires var parts := Verdicts(assessments[n - 1], claim);
      && (forall q :: 0 <= q < |back| ==> back[q].0 == n - 1 && back[q].1 < |parts| && Lone(parts[back[q].1], text)
                                          && more[q] == Labelled(n - 1, parts[back[q].1].facts[0]))
      && forall m: nat :: m < |parts| && Lone(parts[m], text) ==> (n - 1, m) in back
    ensures PlacesOf(assessments, n, claim, text, front + back, list + more)
  {
    hide Verdicts, Lone;
    var s, all := front + back, list + more;
    forall q | 0 <= q < |s|
      ensures PlaceOf(assessments, n, claim, s[q], text, all[q])
    {
      if q < |front| {
        assert PlaceOf(assessments, n - 1, claim, front[q], text, list[q]);
      }
    }
    forall p: (nat, nat), k | PlaceOf(assessments, n, claim, p, text, k)
      ensures p in s
    {
      if p.0 < n - 1 {
        assert PlaceOf(assessments, n - 1, claim, p, text, k);
      }
    }
    forall q, r | 0 <= q < r < |s|
      ensures After(s[q].0, s[q].1, s[r].0, s[r].1)
    {
      if q < |front| <= r {
        assert PlaceOf(assessments, n - 1, claim, front[q], text, list[q]);
      }
    }
  }

  lemma SingleMeans(x: Input, claim: string, text: string, i: nat, m: nat, f: string)
    ensures Single(x, claim, text, i, m, f) <==>
            PlaceOf(x.assessments, |x.assessments|, claim, (i, m), text, Labelled(i, f))
  {
    if i < |x.assessments| && m < |Verdicts(x.assessments[i], claim)| {
      var p := Verdicts(x.assessments[i], claim)[m];
      if Lone(p, text) {
        assert p.facts == [p.facts[0]];
        assert p == Part(text, Supported, [p.facts[0]]);
      }
    }
  }

  /** Entry `q` of the list is cited at place `q`. */
  lemma PlaceCites(x: Input, claim: string, text: string, s: seq<(nat, nat)>, list: seq<FactKey>, q: nat)
    requires PlacesOf(x.assessments, |x.assessments|, claim, text, s, list) && q < |s|
    ensures list[q].Labelled? && s[q].0 == list[q].reference && Single(x, claim, text, s[q].0, s[q].1, list[q].id)
  {
    hide Lone, Verdicts, Single, InSequence;
    assert PlaceOf(x.assessments, |x.assessments|, claim, s[q], text, list[q]);
    SingleMeans(x, claim, text, s[q].0, s[q].1, list[q].id);
  }

  lemma PlaceIndex(x: Input, claim: string, text: string, s: seq<(nat, nat)>, list: seq<FactKey>, i: nat, m: nat,
                   f: string) returns (q: nat)
    requires PlacesOf(x.assessments, |x.assessments|, claim, text, s, list) && Single(x, claim, text, i, m, f)
    ensures q < |s| && s[q] == (i, m) && list[q] == Labelled(i, f)
  {
    SingleMeans(x, claim, text, i, m, f);
    hide Lone, Verdicts, Single, InSequence;
    q :| q < |s| && s[q] == (i, m);
    assert PlaceOf(x.assessments, |x.assessments|, claim, s[q], text, list[q]);
  }

  lemma SequenceNeighbours(x: Input, claim: string, text: string, s: seq<(nat, nat)>, list: seq<FactKey>, q: nat)
    requires PlacesOf(x.assessments, |x.assessments|, claim, text, s, list) && q + 1 < |s|
    ensures Neighbours(x, claim, text, s[q].0, s[q].1, s[q + 1].0, s[q + 1].1)
  {
    hide Single, Lone, Verdicts;
    forall k: nat, l: nat, h | Single(x, claim, text, k, l, h)
      ensures !(After(s[q].0, s[q].1, k, l) && After(k, l, s[q + 1].0, s[q + 1].1))
    {
      var r := PlaceIndex(x, claim, text, s, list, k, l, h);
      if r < q {
        assert After(s[r].0, s[r].1, s[q].0, s[q].1);
      } else if r > q + 1 {
        assert After(s[q + 1].0, s[q + 1].1, s[r].0, s[r].1);
      }
    }
  }

  /** Neighbours in a list are neighbouring places. */
  lemma ListNeighbours(x: Input, claim: string, text: string, q: int, a: FactKey, b: FactKey)
    requires AliasedAt(x, claim, text, q, a, b)
    ensures exists i, m, j, n :: a.Labelled? && b.Labelled? && i == a.reference && j == b.reference
              && Single(x, claim, text, i, m, a.id) && Single(x, claim, text, j, n, b.id)
              && Neighbours(x, claim, text, i, m, j, n)
  {
    var all, count := x.assessments, |x.assessments|;
    var s, list := Places(all, count, claim, text), Aliases(all, count, claim, text);
    PlacesMean(all, count, claim, text);
    hide Places, Aliases, Cross, Single, Neighbours, InSequence, PlaceOf;
    PlaceCites(x, claim, text, s, list, q);
    PlaceCites(x, claim, text, s, list, q + 1);
    SequenceNeighbours(x, claim, text, s, list, q);
  }

  lemma NextPlace(x: Input, claim: string, text: string, s: seq<(nat, nat)>, list: seq<FactKey>, q: nat, r: nat)
    requires PlacesOf(x.assessments, |x.assessments|, claim, text, s, list) && q < |s| && r < |s|
    requires Neighbours(x, claim, text, s[q].0, s[q].1, s[r].0, s[r].1)
    ensures r == q + 1
  {
    hide Lone, Verdicts;
    assert After(s[q].0, s[q].1, s[r].0, s[r].1);
    if r > q + 1 {
      var p := s[q + 1];
      assert PlaceOf(x.assessments, |x.assessments|, claim, p, text, list[q + 1]);
      SingleMeans(x, claim, text, p.0, p.1, list[q + 1].id);
    }
  }

  lemma NeighboursListed(x: Input, claim: string, text: string, i: nat, m: nat, f: string, j: nat, n: nat, g: string)
    requires Single(x, claim, text, i, m, f) && Single(x, claim, text, j, n, g)
    requires Neighbours(x, claim, text, i, m, j, n) && Cross(x, Labelled(i, f), Labelled(j, g))
    ensures exists q :: AliasedAt(x, claim, text, q, Labelled(i, f), Labelled(j, g))
  {
    var all, count := x.assessments, |x.assessments|;
    var s, list := Places(all, count, claim, text), Aliases(all, count, claim, text);
    PlacesMean(all, count, claim, text);
    PlaceCount(all, count, claim, text, s, list);
    hide Places, Aliases, Cross, Single, Neighbours, PlacesOf;
    var q := PlaceIndex(x, claim, text, s, list, i, m, f);
    var r := PlaceIndex(x, claim, text, s, list, j, n, g);
    NextPlace(x, claim, text, s, list, q, r);
    assert AliasedAt(x, claim, text, q, Labelled(i, f), Labelled(j, g));
  }

  lemma PlaceCount(assessments: seq<Assessment>, n: nat, claim: string, text: string, s: seq<(nat, nat)>,
                   list: seq<FactKey>)
    requires n <= |assessments| && PlacesOf(assessments, n, claim, text, s, list)
    ensures |s| == |list|
  {
  }

  lemma FactSpan(x: Input, k: FactKey)
    requires Typed(x) && k in FactKeys(x)
    ensures FactOf(x, k).claim.start < FactOf(x, k).claim.end
  {
    assert x.references[k.reference] in x.references;
  }

  lemma CrossMeans(x: Input, i: nat, f: string, j: nat, g: string)
    requires Typed(x)
    ensures Cross(x, Labelled(i, f), Labelled(j, g)) <==>
      && i < |x.references| && f in x.references[i] && j < |x.references| && g in x.references[j] && i != j
      && x.references[i][f].claim.end > x.references[j][g].claim.start
      && x.references[j][g].claim.end > x.references[i][f].claim.start
  {
    if Labelled(i, f) in FactKeys(x) && Labelled(j, g) in FactKeys(x) {
      FactSpan(x, Labelled(i, f));
      FactSpan(x, Labelled(j, g));
    }
    hide Typed;
  }

  lemma JoinedMeans(x: Input, a: FactKey, b: FactKey)
    requires Typed(x)
    ensures (a, b) in Joined(x) <==> Joint(x, a, b)
  {
    if a.Labelled? && b.Labelled? {
      DuplicatesMean(x, a, b);
      SynonymsMean(x, a, b);
    }
    hide Typed, Duplicates, Aliased, SameFact, Synonyms;
    KeysAreLabelled(x);
  }

  lemma DuplicatesMean(x: Input, a: FactKey, b: FactKey)
    requires Typed(x) && a.Labelled? && b.Labelled?
    ensures SameFact(x, a.reference, a.id, b.reference, b.id) <==>
            a in FactKeys(x) && b in FactKeys(x) && Duplicates(x, a, b)
  {
    if a in FactKeys(x) && b in FactKeys(x) {
      FactSpan(x, a);
      FactSpan(x, b);
    }
    hide Typed;
  }

  lemma SynonymsMean(x: Input, a: FactKey, b: FactKey)
    requires Typed(x) && a.Labelled? && b.Labelled?
    ensures Synonyms(x, a.reference, a.id, b.reference, b.id) <==>
            a in FactKeys(x) && b in FactKeys(x) && exists c :: c in x.claims && Aliased(x, c.id, a, b)
  {
    var i, f, j, g := a.reference, a.id, b.reference, b.id;
    CrossMeans(x, i, f, j, g);
    hide Typed, Aliases, Single, Neighbours;
    if Synonyms(x, i, f, j, g) {
      var c, text, m: nat, n: nat :| c in x.claims && Single(x, c.id, text, i, m, f) && Single(x, c.id, text, j, n, g)
                                     && Neighbours(x, c.id, text, i, m, j, n);
      NeighboursListed(x, c.id, text, i, m, f, j, n, g);
      assert Aliased(x, c.id, a, b);
    }
    if c :| a in FactKeys(x) && b in FactKeys(x) && c in x.claims && Aliased(x, c.id, a, b) {
      var text, q :| AliasedAt(x, c.id, text, q, a, b);
      ListNeighbours(x, c.id, text, q, a, b);
    }
  }

  lemma ChainMeans(x: Input, a: FactKey, b: FactKey)
    requires Typed(x)
    ensures Linked(Joined(x), a, b) <==> exists path :: Chain(x, path, a, b)
  {
    hide Typed, Joined, Joint;
    forall u, v
      ensures Adjacent(Joined(x), u, v) <==> Joint(x, u, v) || Joint(x, v, u)
    {
      JoinedMeans(x, u, v);
      JoinedMeans(x, v, u);
    }
    if path :| Path(Joined(x), path, a, b) {
      assert Chain(x, path, a, b);
    }
    if path :| Chain(x, path, a, b) {
      assert Path(Joined(x), path, a, b);
    }
  }

  lemma NamesShared(x: Input, root: map<FactKey, FactKey>, a: FactKey, b: FactKey)
    requires Typed(x) && Identities(x, root) && a in root && b in root
    ensures root[a] == root[b] <==> exists path :: Chain(x, path, a, b)
  {
    hide FactKeys, Joined, Typed, Linked, Chain, Sound, Settled;
    RootsAreComponents(Joined(x), FactKeys(x), Naming(root), a, b);
    ChainMeans(x, a, b);
  }

  lemma NameIsNamed(x: Input, root: map<FactKey, FactKey>, a: FactKey)
    requires Identities(x, root) && a in root
    ensures root[a] in root && root[root[a]] == root[a]
  {
    hide Joined, FactKeys, Linked;
    var keys := FactKeys(x);
    assert NamedDown(x, root, a);
    assert Naming(root)(a) == root[a];
    RootsAreComponents(Joined(x), keys, Naming(root), a, root[a]);
  }

  lemma NameIsLeast(x: Input, root: map<FactKey, FactKey>, a: FactKey)
    requires Identities(x, root) && a in root
    ensures !Precedes(a, root[a])
  {
    assert NamedDown(x, root, a);
    hide Identities, FactKeys;
    if Precedes(a, root[a]) {
      if root[a] == a {
        Ordering.LessIrreflexive(a.id);
      } else {
        KeyLessAsymmetric(a, root[a]);
      }
    }
  }

  lemma NamedKeys(x: Input, root: map<FactKey, FactKey>)
    requires Identities(x, root)
    ensures forall k :: k in root <==> k.Labelled? && k.reference < |x.references| && k.id in x.references[k.reference]
  {
    hide Joined, Linked;
    forall k
      ensures k in FactKeys(x) <==> k.Labelled? && k.reference < |x.references| && k.id in x.references[k.reference]
    {
    }
    hide FactKeys;
  }

  /** The identities that score the input are the least names of chains of joint facts. */
  lemma IdentitiesName(x: Input, root: map<FactKey, FactKey>)
    requires Typed(x) && Identities(x, root)
    ensures Names(x, root)
  {
    NamedKeys(x, root);
    NamesAreShared(x, root);
    NamesAreLeast(x, root);
    hide Identities, Typed, SharedNames, LeastNames;
  }

  lemma NamesAreShared(x: Input, root: map<FactKey, FactKey>)
    requires Typed(x) && Identities(x, root)
    ensures SharedNames(x, root)
  {
    hide Identities, Typed, Chain;
    forall a, b | a in root && b in root
      ensures root[a] == root[b] <==> exists path :: Chain(x, path, a, b)
    {
      NamesShared(x, root, a, b);
    }
  }

  lemma NamesAreLeast(x: Input, root: map<FactKey, FactKey>)
    requires Identities(x, root)
    ensures LeastNames(root)
  {
    hide Identities, Precedes;
    forall a | a in root
      ensures root[a] in root && root[root[a]] == root[a] && !Precedes(a, root[a])
    {
      NameIsNamed(x, root, a);
      NameIsLeast(x, root, a);
    }
  }

  // ---------------------------------------------------------------- the meaning of a score

  /** The three numbers, from what the claims were ruled to say. */
  ghost predicate Amounts(x: Input, root: map<FactKey, FactKey>, demands: seq<Demand>, credit: real,
                          refuted: set<Proposition>, lacking: set<Proposition>, recalls: seq<real>, s: Score)
  {
    && (forall k :: k in refuted <==> RefutedKey(x, k)) && (forall k :: k in lacking <==> LackingKey(x, k))
    && Demanded(x, root, demands) && Optimum(demands, credit)
    && PrecisionIs(x.policy, |demands| + |lacking - refuted| + |refuted|, |refuted|, credit, s.precision)
    && |recalls| == |x.references| && (forall i :: 0 <= i < |recalls| ==> RecallIs(x, root, i, recalls[i]))
    && s.recall * |recalls| as real == Added(recalls) && QualityIs(s)
  }

  lemma PrecisionMeans(policy: Policy, events: nat, refuted: nat, credit: real)
    ensures PrecisionIs(policy, events, refuted, credit, Precision(policy, events, refuted, credit))
  {
    if events != 0 {
      Ratio(Max(0.0, credit - policy.penalty * refuted as real), events as real);
    }
  }

  lemma QualityMeans(s: Score)
    requires s.quality == Harmonic(s.precision, s.recall)
    ensures QualityIs(s)
  {
    if s.precision + s.recall != 0.0 {
      Ratio(2.0 * Times(s.precision, s.recall), s.precision + s.recall);
    }
  }

  /**
   What a measured score means: the facts bear the least names of their chains, every claim is ruled by
   the first annotation that counts best for it, and precision, recall and quality follow by sums.
   */
  lemma MeasuresMeans(x: Input, s: Score)
    returns (root: map<FactKey, FactKey>, demands: seq<Demand>, credit: real, refuted: set<Proposition>,
             lacking: set<Proposition>, recalls: seq<real>)
    requires Typed(x) && Assessed(x) && Measures(x, s)
    ensures Names(x, root) && Amounts(x, root, demands, credit, refuted, lacking, recalls, s)
  {
    root, credit :| Scores(x, root, credit, s);
    hide *;
    demands, refuted, lacking, recalls := ScoreMeans(x, root, credit, s);
  }

  lemma ScoreMeans(x: Input, root: map<FactKey, FactKey>, credit: real, s: Score)
    returns (demands: seq<Demand>, refuted: set<Proposition>, lacking: set<Proposition>, recalls: seq<real>)
    requires Typed(x) && Assessed(x) && Scores(x, root, credit, s)
    ensures Names(x, root) && Amounts(x, root, demands, credit, refuted, lacking, recalls, s)
  {
    hide *;
    AssessedIsRuled(x);
    var cs := Contributions(x, root, x.claims);
    refuted, lacking, demands := Refuted(cs), Lacking(cs), Demands(x, root, cs, TargetList(cs));
    ScoreIdentities(x, root, credit, s);
    ContributionsCollect(x, root);
    IdentityKeys(x, root);
    AssessedIsGrounded(x, root);
    IdentitiesName(x, root);
    DemandsMean(x, root, cs);
    recalls := RecallSumMeans(x, root, |x.references|);
    forall k
      ensures k in refuted <==> RefutedKey(x, k)
      ensures k in lacking <==> LackingKey(x, k)
    {
      RefutedMeans(x, root, cs, k);
      LackingMeans(x, root, cs, k);
    }
    NumbersMean(x, root, cs, credit, s);
    AmountsIntro(x, root, demands, credit, refuted, lacking, recalls, s);
  }

  lemma ScoreIdentities(x: Input, root: map<FactKey, FactKey>, credit: real, s: Score)
    requires Assessed(x) && Scores(x, root, credit, s)
    ensures Identities(x, root)
  {
    hide Contributions, Demands, TargetList, Unsupported, Refuted, Optimum, Precision, Harmonic, RecallSum, Identities;
  }

  lemma NumbersMean(x: Input, root: map<FactKey, FactKey>, cs: seq<Contribution>, credit: real, s: Score)
    requires Assessed(x) && Scores(x, root, credit, s) && cs == Contributions(x, root, x.claims)
    ensures |x.references| == |x.assessments|
    ensures var demands := Demands(x, root, cs, TargetList(cs));
      && |demands| == |TargetList(cs)| && Optimum(demands, credit)
      && PrecisionIs(x.policy, |demands| + |Lacking(cs) - Refuted(cs)| + |Refuted(cs)|, |Refuted(cs)|, credit,
        s.precision)
      && s.recall * |x.references| as real == RecallSum(x, root, |x.references|) && QualityIs(s)
  {
    hide *;
    ReferencesMatch(x);
    ScoreParts(x, root, credit, s);
    UnsupportedMeans(cs);
    HasScoreMeans(x.policy, Demands(x, root, cs, TargetList(cs)), |TargetList(cs)| + |Unsupported(cs)| + |Refuted(cs)|,
                  |Refuted(cs)|, RecallSum(x, root, |x.references|), |x.references|, credit, s);
  }

  lemma UnsupportedMeans(cs: seq<Contribution>)
    ensures Unsupported(cs) == Lacking(cs) - Refuted(cs)
  {
    hide Lacking, Refuted;
  }

  lemma HasScoreMeans(policy: Policy, demands: seq<Demand>, events: nat, refuted: nat, recalls: real, n: nat,
                      credit: real, s: Score)
    requires HasScore(policy, demands, events, refuted, recalls, n, credit, s)
    ensures Optimum(demands, credit) && PrecisionIs(policy, events, refuted, credit, s.precision)
    ensures s.recall * n as real == recalls && QualityIs(s)
  {
    hide Optimum, Precision, PrecisionIs, Harmonic, QualityIs;
    PrecisionMeans(policy, events, refuted, credit);
    QualityMeans(s);
    Ratio(recalls, n as real);
  }

  lemma AmountsIntro(x: Input, root: map<FactKey, FactKey>, demands: seq<Demand>, credit: real,
                     refuted: set<Proposition>, lacking: set<Proposition>, recalls: seq<real>, s: Score)
    requires (forall k :: k in refuted <==> RefutedKey(x, k)) && (forall k :: k in lacking <==> LackingKey(x, k))
    requires Demanded(x, root, demands) && Optimum(demands, credit)
    requires PrecisionIs(x.policy, |demands| + |lacking - refuted| + |refuted|, |refuted|, credit, s.precision)
    requires |recalls| == |x.references| && forall i :: 0 <= i < |recalls| ==> RecallIs(x, root, i, recalls[i])
    requires s.recall * |x.references| as real == Added(recalls) && QualityIs(s)
    ensures Amounts(x, root, demands, credit, refuted, lacking, recalls, s)
  {
    hide RefutedKey, LackingKey, Demanded, Optimum, PrecisionIs, RecallIs, Added, QualityIs;
  }

  // ---------------------------------------------------------------- which input is measured at all

  /** Whichever ends are taken, they leave the share of the claim that the policy asks for. */
  ghost predicate Overlaps(c: Claim, f: Claim, p: Policy)
  {
    var least := p.minOverlap * (c.end - c.start);
    && c.modality == f.modality && c.end - c.start >= least && c.end - (f.start - p.tolerance) >= least
    && f.end + p.tolerance - c.start >= least && f.end + p.tolerance - (f.start - p.tolerance) >= least
  }

  /** Distinct facts of the annotation that overlap the claim; an uncited contradiction has been reviewed. */
  ghost predicate Citable(x: Input, i: nat, c: Claim, p: Part)
    requires i < |x.references| && i < |x.assessments|
  {
    && (forall m, n :: 0 <= m < n < |p.facts| ==> p.facts[m] != p.facts[n]) && |p.facts| <= x.policy.maxFacts
    && (forall f :: f in p.facts ==> f in x.references[i] && Overlaps(c, x.references[i][f].claim, x.policy))
    && (p.status == Contradicted && p.facts == [] ==> x.assessments[i].reviewed)
  }

  lemma CitableMeans(x: Input, i: nat, c: Claim, p: Part)
    requires i < |x.references| && i < |x.assessments|
    ensures ValidPart(x.references[i], c, x.assessments[i], p, x.policy) <==> Citable(x, i, c, p)
  {
    forall f | f in x.references[i]
      ensures Compatible(c, x.references[i][f].claim, x.policy) <==> Overlaps(c, x.references[i][f].claim, x.policy)
    {
    }
    hide Compatible, Overlaps;
  }

  /** One assessment per annotation, each with a decision on every claim and on nothing else. */
  ghost predicate Answers(x: Input, i: nat)
    requires i < |x.references| && i < |x.assessments|
  {
    && (forall id :: id in x.assessments[i].decisions <==> exists c :: c in x.claims && c.id == id)
    && forall c, p :: c in x.claims && c.id in x.assessments[i].decisions && p in x.assessments[i].decisions[c.id] ==>
         Citable(x, i, c, p)
  }

  lemma AnswersMean(x: Input, i: nat)
    requires i < |x.references| && i < |x.assessments|
    ensures ValidAssessment(x.references[i], x.claims, x.assessments[i], x.policy) <==> Answers(x, i)
  {
    var a := x.assessments[i];
    forall c, p
      ensures ValidPart(x.references[i], c, a, p, x.policy) <==> Citable(x, i, c, p)
    {
      CitableMeans(x, i, c, p);
    }
    hide ValidPart, Citable;
    forall id
      ensures id in Ids(x.claims) <==> exists c :: c in x.claims && c.id == id
    {
    }
    hide Ids;
    if ValidAssessment(x.references[i], x.claims, a, x.policy) {
      assert forall id :: id in a.decisions <==> id in Ids(x.claims);
    }
    if Answers(x, i) {
      assert a.decisions.Keys == Ids(x.claims);
    }
  }

  /** Exactly the input that is scored rather than refused. */
  lemma ScoredInput(x: Input)
    ensures Assessed(x) <==>
      |x.references| == |x.assessments| > 0 && forall i :: 0 <= i < |x.references| ==> Answers(x, i)
  {
    hide ValidAssessment, Answers;
    forall i | 0 <= i < |x.references| && i < |x.assessments|
      ensures ValidAssessment(x.references[i], x.claims, x.assessments[i], x.policy) <==> Answers(x, i)
    {
      AnswersMean(x, i);
    }
  }

  /** Every refuted or lacking proposition of a measured score comes from a claim that nobody fully supports. */
  lemma FullySupportedAddsNothing(x: Input, c: Claim, j: nat, k: Proposition) returns (d: Claim, i: nat, p: Part)
    requires Typed(x) && Assessed(x) && c in x.claims && j < |x.assessments|
    requires c.id in x.assessments[j].decisions
    requires forall q :: q in x.assessments[j].decisions[c.id] ==> q.status == Supported
    requires RefutedKey(x, k) || LackingKey(x, k)
    ensures d != c && Ruling(x, d, i, p) && (Denied(x, d, p) || LeftOpen(x, d, p)) && k == Says(d, p)
  {
    AssessedIsRuled(x);
    hide Typed, Assessed, Judges, Reviewed;
    if RefutedKey(x, k) {
      d, i, p :| Ruling(x, d, i, p) && Denied(x, d, p) && k == Says(d, p);
    } else {
      d, i, p :| Ruling(x, d, i, p) && LeftOpen(x, d, p) && k == Says(d, p);
    }
    if d == c {
      FullySupported(x, c, j, i, p);
    }
  }
}
