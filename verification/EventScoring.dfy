/**
 What an event score is: duplicate facts share one identity, repeated claims share
 one event, and only the points in time that claims and evidence cover matter.

 Texts stand for their normal form (case folded, punctuation collapsed), which is
 all that the score ever compares.
 */
module EventScoring {
  import opened Common
  import opened Chains
  import opened Credit
  import opened Spans
  import opened Sums
  import Ordering

  datatype Status = Supported | Contradicted | Unresolved

  datatype Part = Part(text: string, status: Status, facts: seq<string>)

  datatype Claim = Claim(id: string, start: real, end: real, subject: string, description: string, modality: string)

  datatype Annotation = Annotation(claim: Claim, core: bool, annotated: bool)

  /** Facts of one reference by their ids. */
  type Reference = map<string, Annotation>

  /** Verdicts of one judge on every claim, against one reference. */
  datatype Assessment = Assessment(decisions: map<string, seq<Part>>, reviewed: bool)

  datatype Review = Review(status: Status, event: string, spans: seq<Span>)

  datatype Policy = Policy(tolerance: real, minOverlap: real, detailWeight: real, penalty: real, maxFacts: nat)

  datatype Input = Input(references: seq<Reference>, claims: seq<Claim>, assessments: seq<Assessment>,
                         policy: Policy, reviews: map<(string, string), Review>)

  // ---------------------------------------------------------------- admissible input

  function Ids(claims: seq<Claim>): set<string>
  {
    set c | c in claims :: c.id
  }

  /** Constraints that the record types themselves enforce. */
  ghost predicate Typed(x: Input)
  {
    && (forall c :: c in x.claims ==> c.start < c.end)
    && (forall i, j :: 0 <= i < j < |x.claims| ==> x.claims[i].id != x.claims[j].id)
    && (forall r: Reference :: r in x.references ==> forall f: string :: f in r ==> r[f].claim.start < r[f].claim.end)
    && (forall a: Assessment :: a in x.assessments ==> forall c: string :: c in a.decisions ==> a.decisions[c] != [])
    && 0.0 <= x.policy.tolerance && 0.0 < x.policy.detailWeight <= 1.0 && 0.0 <= x.policy.penalty
  }

  predicate Compatible(c: Claim, f: Claim, p: Policy)
  {
    c.modality == f.modality &&
    Min(c.end, f.end + p.tolerance) - Max(c.start, f.start - p.tolerance) >= p.minOverlap * (c.end - c.start)
  }

  predicate ValidPart(r: Reference, c: Claim, a: Assessment, p: Part, policy: Policy)
  {
    && (forall i, j :: 0 <= i < j < |p.facts| ==> p.facts[i] != p.facts[j]) && |p.facts| <= policy.maxFacts
    && (forall f :: f in p.facts ==> f in r && Compatible(c, r[f].claim, policy))
    && !(p.status == Contradicted && p.facts == [] && !a.reviewed)
  }

  predicate ValidAssessment(r: Reference, claims: seq<Claim>, a: Assessment, policy: Policy)
  {
    a.decisions.Keys == Ids(claims) &&
    forall c :: c in claims ==> forall p :: p in a.decisions[c.id] ==> ValidPart(r, c, a, p, policy)
  }

  predicate Assessed(x: Input)
  {
    x.references != [] && |x.references| == |x.assessments| &&
    forall i :: 0 <= i < |x.references| ==> ValidAssessment(x.references[i], x.claims, x.assessments[i], x.policy)
  }

  // ---------------------------------------------------------------- one identity per event

  function FactKeys(x: Input): set<FactKey>
  {
    set i: nat, f | i < |x.references| && f in x.references[i] :: Labelled(i, f)
  }

  function FactOf(x: Input, k: FactKey): Annotation
    requires k in FactKeys(x)
  {
    x.references[k.reference][k.id]
  }

  /** Exact duplicate labels for touching occurrences. */
  predicate Duplicates(x: Input, a: FactKey, b: FactKey)
    requires a in FactKeys(x) && b in FactKeys(x)
  {
    var c, d := FactOf(x, a).claim, FactOf(x, b).claim;
    c.modality == d.modality && c.subject == d.subject && c.description == d.description &&
    Min(c.end, d.end) >= Max(c.start, d.start)
  }

  /** Facts that single-fact verdicts of one assessment give for a proposition of a claim. */
  function PartAliases(i: nat, parts: seq<Part>, text: string): seq<FactKey>
  {
    if parts == [] then []
    else
      var p := parts[|parts| - 1];
      PartAliases(i, parts[..|parts| - 1], text) +
      if p.status == Supported && |p.facts| == 1 && p.text == text then [Labelled(i, p.facts[0])] else []
  }

  function Verdicts(a: Assessment, claim: string): seq<Part>
  {
    if claim in a.decisions then a.decisions[claim] else []
  }

  /** The same over the first `n` assessments, in order. */
  function Aliases(assessments: seq<Assessment>, n: nat, claim: string, text: string): seq<FactKey>
    requires n <= |assessments|
  {
    if n == 0 then []
    else Aliases(assessments, n - 1, claim, text) + PartAliases(n - 1, Verdicts(assessments[n - 1], claim), text)
  }

  predicate Cross(x: Input, a: FactKey, b: FactKey)
  {
    a in FactKeys(x) && b in FactKeys(x) && a.reference != b.reference &&
    var c, d := FactOf(x, a).claim, FactOf(x, b).claim; Min(c.end, d.end) > Max(c.start, d.start)
  }

  /** Neighbours in the alias list of some proposition of the claim. */
  ghost predicate Aliased(x: Input, claim: string, a: FactKey, b: FactKey)
  {
    exists text, i :: AliasedAt(x, claim, text, i, a, b)
  }

  ghost predicate AliasedAt(x: Input, claim: string, text: string, i: int, a: FactKey, b: FactKey)
  {
    var list := Aliases(x.assessments, |x.assessments|, claim, text);
    0 <= i < |list| - 1 && list[i] == a && list[i + 1] == b && Cross(x, a, b)
  }

  /** Every pair of facts that is joined. */
  ghost function Joined(x: Input): set<(FactKey, FactKey)>
  {
    set a, b | a in FactKeys(x) && b in FactKeys(x) &&
               (Duplicates(x, a, b) || exists c :: c in x.claims && Aliased(x, c.id, a, b)) :: (a, b)
  }

  predicate KeyLess(a: FactKey, b: FactKey)
    requires a.Labelled? && b.Labelled?
  {
    a.reference < b.reference || (a.reference == b.reference && Ordering.Less(a.id, b.id))
  }

  function Rep(root: map<FactKey, FactKey>, k: FactKey): FactKey
  {
    if k in root then root[k] else k
  }

  function Naming(root: map<FactKey, FactKey>): FactKey -> FactKey
  {
    (k: FactKey) => Rep(root, k)
  }

  /** The name of a key is a key that does not come after it. */
  ghost predicate NamedDown(x: Input, root: map<FactKey, FactKey>, k: FactKey)
    requires k in root && k in FactKeys(x)
  {
    root[k] in FactKeys(x) && (root[k] == k || KeyLess(root[k], k))
  }

  /** `root` names every component of joined facts by its least member. */
  ghost predicate Identities(x: Input, root: map<FactKey, FactKey>)
  {
    && root.Keys == FactKeys(x)
    && Sound(Joined(x), FactKeys(x), Naming(root)) && Settled(Joined(x), Naming(root))
    && forall k {:trigger NamedDown(x, root, k)} :: k in FactKeys(x) ==> NamedDown(x, root, k)
  }

  lemma JoinedInside(x: Input)
    ensures Within(Joined(x), FactKeys(x))
  {
  }

  lemma KeysAreLabelled(x: Input)
    ensures forall k :: k in FactKeys(x) ==> k.Labelled?
  {
  }

  /** Identities are determined by the joined pairs alone. */
  lemma IdentitiesUnique(x: Input, y: Input, root: map<FactKey, FactKey>, other: map<FactKey, FactKey>)
    requires Identities(x, root) && Identities(y, other)
    requires FactKeys(x) == FactKeys(y) && Joined(x) == Joined(y)
    ensures root == other
  {
    IdentityKeys(x, root);
    IdentityKeys(y, other);
    hide Joined, FactKeys, Identities;
    forall k | k in FactKeys(x)
      ensures root[k] == other[k]
    {
      SameIdentity(x, y, root, other, k);
    }
  }

  lemma IdentityKeys(x: Input, root: map<FactKey, FactKey>)
    requires Identities(x, root)
    ensures root.Keys == FactKeys(x)
  {
  }

  lemma SameIdentity(x: Input, y: Input, root: map<FactKey, FactKey>, other: map<FactKey, FactKey>, k: FactKey)
    requires Identities(x, root) && Identities(y, other)
    requires FactKeys(x) == FactKeys(y) && Joined(x) == Joined(y) && k in FactKeys(x)
    ensures root[k] == other[k]
  {
    hide Linked, Joined, FactKeys;
    var edges, keys := Joined(x), FactKeys(x);
    var a, b := root[k], other[k];
    assert NamedDown(x, root, k) && NamedDown(y, other, k);
    assert NamedDown(x, root, b) && NamedDown(y, other, a);
    assert Naming(root)(k) == a && Naming(other)(k) == b;
    LinkedSymmetric(edges, k, a);
    LinkedTransitive(edges, a, k, b);
    RootsAreComponents(edges, keys, Naming(root), a, b);
    RootsAreComponents(edges, keys, Naming(other), a, b);
    RootsAreComponents(edges, keys, Naming(root), k, a);
    RootsAreComponents(edges, keys, Naming(other), k, b);
    KeysAreLabelled(x);
    if KeyLess(a, b) {
      KeyLessAsymmetric(a, b);
    }
  }

  lemma KeyLessAsymmetric(a: FactKey, b: FactKey)
    requires a.Labelled? && b.Labelled? && KeyLess(a, b)
    ensures !KeyLess(b, a) && a != b
  {
    if a.reference == b.reference {
      Ordering.LessAsymmetric(a.id, b.id);
    }
  }

  // ---------------------------------------------------------------- what each proposition contributes

  datatype Proposition = Proposition(modality: string, subject: string, text: string)

  datatype Contribution =
    | Supports(targets: set<FactKey>, span: Span)
    | Confirms(event: FactKey, evidence: seq<Span>, span: Span)
    | Refutes(key: Proposition)
    | Lacks(key: Proposition)

  function Count(parts: seq<Part>, status: Status): nat
  {
    if parts == [] then 0
    else Count(parts[..|parts| - 1], status) + if parts[|parts| - 1].status == status then 1 else 0
  }

  function Share(parts: seq<Part>, status: Status): real
  {
    if parts == [] then 0.0 else Count(parts, status) as real / |parts| as real
  }

  /** Larger share supported; then smaller share contradicted. */
  predicate Better(a: seq<Part>, b: seq<Part>)
  {
    Share(a, Supported) > Share(b, Supported) ||
    (Share(a, Supported) == Share(b, Supported) && Share(a, Contradicted) < Share(b, Contradicted))
  }

  /** The best annotation of a claim among the first `n`; ties go to the first. */
  function Best(assessments: seq<Assessment>, claim: string, n: nat): (i: nat)
    requires 1 <= n <= |assessments|
    ensures i < n
  {
    if n == 1 then 0
    else
      var i := Best(assessments, claim, n - 1);
      if Better(Verdicts(assessments[n - 1], claim), Verdicts(assessments[i], claim)) then n - 1 else i
  }

  function SpanOf(c: Claim): Span { Span(c.start, c.end) }

  function Widen(s: Span, by_: real): Span { Span(s.start - by_, s.end + by_) }

  function Targets(root: map<FactKey, FactKey>, i: nat, facts: seq<string>): set<FactKey>
  {
    set f | f in facts :: Rep(root, Labelled(i, f))
  }

  function ReviewOf(x: Input, c: Claim, p: Part): Option<Review>
  {
    if (c.id, p.text) in x.reviews then Some(x.reviews[(c.id, p.text)]) else None
  }

  function Classify(x: Input, root: map<FactKey, FactKey>, c: Claim, i: nat, p: Part): Contribution
  {
    var key := Proposition(c.modality, c.subject, p.text);
    var review := ReviewOf(x, c, p);
    if p.status == Supported then Supports(Targets(root, i, p.facts), SpanOf(c))
    else if review.Some? && review.value.status == Supported then
      Confirms(Reviewed(review.value.event), review.value.spans, SpanOf(c))
    else if p.status == Contradicted || (review.Some? && review.value.status == Contradicted) then Refutes(key)
    else Lacks(key)
  }

  function PartContributions(x: Input, root: map<FactKey, FactKey>, c: Claim, i: nat,
                             parts: seq<Part>): seq<Contribution>
  {
    if parts == [] then []
    else PartContributions(x, root, c, i, parts[..|parts| - 1]) + [Classify(x, root, c, i, parts[|parts| - 1])]
  }

  function ClaimContributions(x: Input, root: map<FactKey, FactKey>, c: Claim): seq<Contribution>
    requires x.assessments != []
  {
    var i := Best(x.assessments, c.id, |x.assessments|);
    PartContributions(x, root, c, i, Verdicts(x.assessments[i], c.id))
  }

  function Contributions(x: Input, root: map<FactKey, FactKey>, claims: seq<Claim>): seq<Contribution>
    requires x.assessments != []
  {
    if claims == [] then []
    else Contributions(x, root, claims[..|claims| - 1]) + ClaimContributions(x, root, claims[|claims| - 1])
  }

  // ---------------------------------------------------------------- covered points in time

  function TargetOf(c: Contribution): Option<set<FactKey>>
  {
    match c
    case Supports(t, _) => Some(t)
    case Confirms(e, _, _) => Some({e})
    case _ => None
  }

  /** Distinct targets in order of their first claim. */
  function TargetList(cs: seq<Contribution>): (r: seq<set<FactKey>>)
    ensures forall t :: t in r <==> exists c :: c in cs && TargetOf(c) == Some(t)
  {
    if cs == [] then []
    else
      var before := TargetList(cs[..|cs| - 1]);
      var t := TargetOf(cs[|cs| - 1]);
      assert forall c :: c in cs <==> c in cs[..|cs| - 1] || c == cs[|cs| - 1];
      if t.Some? && t.value !in before then before + [t.value] else before
  }

  ghost predicate Claims(cs: seq<Contribution>, t: set<FactKey>, y: real)
  {
    exists c :: c in cs && TargetOf(c) == Some(t) && Holds(c.span, y)
  }

  ghost function ClaimPoints(cs: seq<Contribution>, t: set<FactKey>): iset<real>
  {
    iset y: real | Claims(cs, t, y)
  }

  ghost predicate FactWitness(x: Input, root: map<FactKey, FactKey>, f: FactKey, k: FactKey, y: real)
  {
    k in FactKeys(x) && Rep(root, k) == f && Holds(Widen(SpanOf(FactOf(x, k).claim), x.policy.tolerance), y)
  }

  ghost predicate ReviewWitness(x: Input, cs: seq<Contribution>, f: FactKey, c: Contribution, s: Span, y: real)
  {
    c in cs && c.Confirms? && c.event == f && s in c.evidence && Holds(Widen(s, x.policy.tolerance), y)
  }

  /** Some evidence for the event covers the point, within the tolerance. */
  ghost predicate Evident(x: Input, root: map<FactKey, FactKey>, cs: seq<Contribution>, f: FactKey, y: real)
  {
    (exists k :: FactWitness(x, root, f, k, y)) || (exists c, s :: ReviewWitness(x, cs, f, c, s, y))
  }

  ghost predicate EvidentAny(x: Input, root: map<FactKey, FactKey>, cs: seq<Contribution>, t: set<FactKey>, y: real)
  {
    exists f :: f in t && Evident(x, root, cs, f, y)
  }

  ghost function EvidencePoints(x: Input, root: map<FactKey, FactKey>, cs: seq<Contribution>,
                                t: set<FactKey>): iset<real>
  {
    iset y: real | EvidentAny(x, root, cs, t, y)
  }

  /** Share of `p` that lies in `q`, by measure. */
  ghost function Fraction(p: iset<real>, q: iset<real>): real
  {
    if Measurable(p) && Measurable(p * q) && Extent(p) > 0.0 then Extent(p * q) / Extent(p) else 0.0
  }

  lemma FractionIs(left: seq<Span>, right: seq<Span>)
    requires Length(left) > 0.0
    ensures Fraction(Covered(left), Covered(right)) == Intersection(left, right) / Length(left)
  {
    ExtentIsLength(left);
    ExtentIsIntersection(left, right);
  }

  lemma FractionInUnit(p: iset<real>, q: iset<real>)
    ensures 0.0 <= Fraction(p, q) <= 1.0
  {
    if Measurable(p) && Measurable(p * q) && Extent(p) > 0.0 {
      var a: seq<Span> :| Covered(a) == p;
      var b: seq<Span> :| Covered(b) == p * q;
      ExtentIsLength(a);
      ExtentIsIntersection(a, b);
      assert p * (p * q) == p * q;
      InclusionExclusion(a, b);
      Quotient(Extent(p * q), Extent(p));
    }
  }

  lemma Quotient(a: real, b: real)
    requires b > 0.0 && 0.0 <= a <= b
    ensures 0.0 <= a / b <= 1.0
  {
  }

  // ---------------------------------------------------------------- precision

  function Refuted(cs: seq<Contribution>): set<Proposition>
  {
    set c | c in cs && c.Refutes? :: c.key
  }

  function Lacking(cs: seq<Contribution>): set<Proposition>
  {
    set c | c in cs && c.Lacks? :: c.key
  }

  /** Unsupported propositions; contradictory evidence wins. */
  function Unsupported(cs: seq<Contribution>): set<Proposition> { Lacking(cs) - Refuted(cs) }

  ghost function DemandOf(x: Input, root: map<FactKey, FactKey>, cs: seq<Contribution>, t: set<FactKey>): Demand
  {
    Demand(t, Min(1.0, Fraction(ClaimPoints(cs, t), EvidencePoints(x, root, cs, t))))
  }

  ghost function Demands(x: Input, root: map<FactKey, FactKey>, cs: seq<Contribution>,
                         targets: seq<set<FactKey>>): (r: seq<Demand>)
    ensures |r| == |targets| && forall i :: 0 <= i < |r| ==> r[i] == DemandOf(x, root, cs, targets[i])
  {
    if targets == [] then []
    else Demands(x, root, cs, targets[..|targets| - 1]) + [DemandOf(x, root, cs, targets[|targets| - 1])]
  }

  function Precision(policy: Policy, events: nat, refuted: nat, credit: real): real
  {
    if events == 0 then 0.0 else Max(0.0, credit - policy.penalty * refuted as real) / events as real
  }

  // ---------------------------------------------------------------- recall

  /** Identities that annotation `i` labels on its own. */
  function Own(x: Input, root: map<FactKey, FactKey>, i: nat): set<FactKey>
    requires i < |x.references|
  {
    set f | f in x.references[i] && x.references[i][f].annotated :: Rep(root, Labelled(i, f))
  }

  ghost predicate OwnWitness(x: Input, root: map<FactKey, FactKey>, i: nat, k: FactKey, f: string)
    requires i < |x.references|
  {
    f in x.references[i] && x.references[i][f].annotated && Rep(root, Labelled(i, f)) == k
  }

  ghost predicate OwnCovers(x: Input, root: map<FactKey, FactKey>, i: nat, k: FactKey, y: real)
    requires i < |x.references|
  {
    exists f :: OwnWitness(x, root, i, k, f) && Holds(SpanOf(x.references[i][f].claim), y)
  }

  ghost predicate CoverWitness(x: Input, root: map<FactKey, FactKey>, i: nat, k: FactKey, c: Claim, p: Part)
    requires i < |x.assessments|
  {
    c in x.claims && p in Verdicts(x.assessments[i], c.id) && p.status == Supported && k in Targets(root, i, p.facts)
  }

  ghost predicate CoverCovers(x: Input, root: map<FactKey, FactKey>, i: nat, k: FactKey, y: real)
    requires i < |x.assessments|
  {
    exists c, p :: CoverWitness(x, root, i, k, c, p) && Holds(Widen(SpanOf(c), x.policy.tolerance), y)
  }

  ghost function OwnPoints(x: Input, root: map<FactKey, FactKey>, i: nat, k: FactKey): iset<real>
    requires i < |x.references|
  {
    iset y: real | OwnCovers(x, root, i, k, y)
  }

  ghost function CoverPoints(x: Input, root: map<FactKey, FactKey>, i: nat, k: FactKey): iset<real>
    requires i < |x.assessments|
  {
    iset y: real | CoverCovers(x, root, i, k, y)
  }

  /** Core events weigh one, details less. */
  ghost function WeightOf(x: Input, root: map<FactKey, FactKey>, i: nat, k: FactKey): real
    requires i < |x.references|
  {
    if exists f :: OwnWitness(x, root, i, k, f) && x.references[i][f].core then 1.0 else x.policy.detailWeight
  }

  ghost function GainOf(x: Input, root: map<FactKey, FactKey>, i: nat, k: FactKey): real
    requires i < |x.references| == |x.assessments|
  {
    Times(WeightOf(x, root, i, k), Fraction(OwnPoints(x, root, i, k), CoverPoints(x, root, i, k)))
  }

  function Times(a: real, b: real): real { a * b }

  ghost function Weight(x: Input, root: map<FactKey, FactKey>, i: nat): FactKey -> real
    requires i < |x.references|
  {
    (k: FactKey) => WeightOf(x, root, i, k)
  }

  ghost function Gained(x: Input, root: map<FactKey, FactKey>, i: nat): FactKey -> real
    requires i < |x.references| == |x.assessments|
  {
    (k: FactKey) => GainOf(x, root, i, k)
  }

  ghost function ReferenceRecall(x: Input, root: map<FactKey, FactKey>, i: nat): real
    requires i < |x.references| == |x.assessments|
  {
    var total := Sum(Own(x, root, i), Weight(x, root, i));
    if total == 0.0 then 0.0 else Sum(Own(x, root, i), Gained(x, root, i)) / total
  }

  ghost function RecallSum(x: Input, root: map<FactKey, FactKey>, n: nat): real
    requires n <= |x.references| == |x.assessments|
  {
    if n == 0 then 0.0 else RecallSum(x, root, n - 1) + ReferenceRecall(x, root, n - 1)
  }

  ghost function Recall(x: Input, root: map<FactKey, FactKey>): real
    requires 0 < |x.references| == |x.assessments|
  {
    RecallSum(x, root, |x.references|) / |x.references| as real
  }

  // ---------------------------------------------------------------- the score

  datatype Score = Score(quality: real, precision: real, recall: real)

  function Harmonic(p: real, r: real): real
  {
    if p + r == 0.0 then 0.0 else 2.0 * Times(p, r) / (p + r)
  }

  ghost predicate Scores(x: Input, root: map<FactKey, FactKey>, credit: real, s: Score)
    requires Assessed(x)
  {
    var cs := Contributions(x, root, x.claims);
    var targets := TargetList(cs);
    && Identities(x, root)
    && Optimum(Demands(x, root, cs, targets), credit)
    && s.precision == Precision(x.policy, |targets| + |Unsupported(cs)| + |Refuted(cs)|, |Refuted(cs)|, credit)
    && s.recall == Recall(x, root)
    && s.quality == Harmonic(s.precision, s.recall)
  }

  /** `s` is what the input scores. */
  ghost predicate Measures(x: Input, s: Score)
    requires Assessed(x)
  {
    exists root, credit :: Scores(x, root, credit, s)
  }

  // ---------------------------------------------------------------- every score lies in the unit interval

  lemma DemandsInUnit(x: Input, root: map<FactKey, FactKey>, cs: seq<Contribution>, targets: seq<set<FactKey>>)
    ensures forall i :: 0 <= i < |targets| ==> 0.0 <= Demands(x, root, cs, targets)[i].amount <= 1.0
  {
    forall i | 0 <= i < |targets|
      ensures 0.0 <= DemandOf(x, root, cs, targets[i]).amount <= 1.0
    {
      FractionInUnit(ClaimPoints(cs, targets[i]), EvidencePoints(x, root, cs, targets[i]));
    }
  }

  lemma PrecisionInUnit(policy: Policy, events: nat, refuted: nat, credit: real)
    requires 0.0 <= policy.penalty && 0.0 <= credit <= events as real
    ensures 0.0 <= Precision(policy, events, refuted, credit) <= 1.0
  {
    if events > 0 {
      Penalised(policy.penalty, refuted as real);
      Quotient(Max(0.0, credit - policy.penalty * refuted as real), events as real);
    }
  }

  lemma Penalised(a: real, b: real)
    requires a >= 0.0 && b >= 0.0
    ensures a * b >= 0.0
  {
  }

  lemma Discount(w: real, f: real)
    requires w >= 0.0 && 0.0 <= f <= 1.0
    ensures 0.0 <= Times(w, f) <= w
  {
  }

  lemma GainBounded(x: Input, root: map<FactKey, FactKey>, i: nat, k: FactKey)
    requires i < |x.references| == |x.assessments| && Typed(x)
    ensures 0.0 <= GainOf(x, root, i, k) <= WeightOf(x, root, i, k)
  {
    var w, f := WeightOf(x, root, i, k), Fraction(OwnPoints(x, root, i, k), CoverPoints(x, root, i, k));
    FractionInUnit(OwnPoints(x, root, i, k), CoverPoints(x, root, i, k));
    assert w >= 0.0;
    hide Fraction, WeightOf, Times;
    Discount(w, f);
  }

  lemma ReferenceRecallInUnit(x: Input, root: map<FactKey, FactKey>, i: nat)
    requires i < |x.references| == |x.assessments| && Typed(x)
    ensures 0.0 <= ReferenceRecall(x, root, i) <= 1.0
  {
    var own := Own(x, root, i);
    forall k | k in own
      ensures 0.0 <= Gained(x, root, i)(k) <= Weight(x, root, i)(k)
    {
      GainBounded(x, root, i, k);
    }
    hide Own;
    SumNonNegative(own, Gained(x, root, i));
    SumBelow(own, Gained(x, root, i), Weight(x, root, i));
    if Sum(own, Weight(x, root, i)) != 0.0 {
      Quotient(Sum(own, Gained(x, root, i)), Sum(own, Weight(x, root, i)));
    }
  }

  lemma {:induction false} RecallSumBounded(x: Input, root: map<FactKey, FactKey>, n: nat)
    requires n <= |x.references| == |x.assessments| && Typed(x)
    ensures 0.0 <= RecallSum(x, root, n) <= n as real
    decreases n
  {
    hide ReferenceRecall, Typed;
    if n > 0 {
      RecallSumBounded(x, root, n - 1);
      ReferenceRecallInUnit(x, root, n - 1);
    }
  }

  lemma HarmonicInUnit(p: real, r: real)
    requires 0.0 <= p <= 1.0 && 0.0 <= r <= 1.0
    ensures 0.0 <= Harmonic(p, r) <= 1.0
  {
    if p + r != 0.0 {
      MeanProduct(p, r);
      Quotient(2.0 * Times(p, r), p + r);
    }
  }

  lemma MeanProduct(p: real, r: real)
    requires 0.0 <= p <= 1.0 && 0.0 <= r <= 1.0
    ensures 0.0 <= 2.0 * Times(p, r) <= p + r
  {
    Discount(p, r);
    Discount(r, p);
    assert Times(p, r) == Times(r, p);
    assert Times(p, r) <= p;
    assert Times(p, r) <= r;
  }

  /** Precision, recall and quality always lie between zero and one. */
  lemma ScoreInUnit(x: Input, s: Score)
    requires Typed(x) && Assessed(x) && Measures(x, s)
    ensures 0.0 <= s.precision <= 1.0 && 0.0 <= s.recall <= 1.0 && 0.0 <= s.quality <= 1.0
  {
    var root, credit :| Scores(x, root, credit, s);
    hide *;
    PartsInUnit(x, root, credit, s);
    HarmonicInUnit(s.precision, s.recall);
    QualityIs(x, root, credit, s);
  }

  lemma QualityIs(x: Input, root: map<FactKey, FactKey>, credit: real, s: Score)
    requires Assessed(x) && Scores(x, root, credit, s)
    ensures s.quality == Harmonic(s.precision, s.recall)
  {
  }

  lemma PartsInUnit(x: Input, root: map<FactKey, FactKey>, credit: real, s: Score)
    requires Typed(x) && Assessed(x) && Scores(x, root, credit, s)
    ensures 0.0 <= s.precision <= 1.0 && 0.0 <= s.recall <= 1.0
  {
    hide Typed, Identities, Optimum, Contributions, TargetList, Precision, RecallSum;
    var cs := Contributions(x, root, x.claims);
    var targets := TargetList(cs);
    DemandsInUnit(x, root, cs, targets);
    OptimumBounds(Demands(x, root, cs, targets), credit);
    PolicyTyped(x);
    PrecisionInUnit(x.policy, |targets| + |Unsupported(cs)| + |Refuted(cs)|, |Refuted(cs)|, credit);
    RecallSumBounded(x, root, |x.references|);
    Quotient(RecallSum(x, root, |x.references|), |x.references| as real);
  }

  lemma PolicyTyped(x: Input)
    requires Typed(x)
    ensures 0.0 <= x.policy.penalty
  {
  }

  // ---------------------------------------------------------------- repeating a claim

  /** `y` is `x` with a copy of claim `p`, under a fresh id, inserted at position `k` after it. */
  ghost predicate Repeats(x: Input, y: Input, p: nat, k: nat)
  {
    && p < k <= |x.claims| && |y.claims| == |x.claims| + 1
    && var c := y.claims[k];
       && c.id !in Ids(x.claims) && c == x.claims[p].(id := c.id)
       && y.claims == x.claims[..k] + [c] + x.claims[k..]
       && y.references == x.references && y.policy == x.policy && |y.assessments| == |x.assessments|
       && (forall i :: 0 <= i < |x.assessments| ==> SameVerdicts(x, y, i))
       && (forall i :: 0 <= i < |x.assessments| ==>
             Verdicts(y.assessments[i], c.id) == Verdicts(x.assessments[i], x.claims[p].id))
       && (forall d, q :: d in x.claims ==> ReviewOf(y, d, q) == ReviewOf(x, d, q))
       && (forall q :: ReviewOf(y, c, q) == ReviewOf(x, x.claims[p], q))
  }

  ghost predicate SameVerdicts(x: Input, y: Input, i: nat)
    requires i < |x.assessments| == |y.assessments|
  {
    forall d :: d in x.claims ==> Verdicts(y.assessments[i], d.id) == Verdicts(x.assessments[i], d.id)
  }

  /** Claims `d` in `y` and `c` in `x` are judged alike. */
  ghost predicate JudgedAlike(x: Input, y: Input, c: Claim, d: Claim)
  {
    && |x.assessments| == |y.assessments| && d == c.(id := d.id)
    && (forall i :: 0 <= i < |x.assessments| ==> Verdicts(y.assessments[i], d.id) == Verdicts(x.assessments[i], c.id))
    && (forall q :: ReviewOf(y, d, q) == ReviewOf(x, c, q))
  }

  lemma {:induction false} AlikeBest(x: Input, y: Input, c: Claim, d: Claim, n: nat)
    requires JudgedAlike(x, y, c, d) && 1 <= n <= |x.assessments|
    ensures Best(y.assessments, d.id, n) == Best(x.assessments, c.id, n)
    decreases n
  {
    if n > 1 {
      AlikeBest(x, y, c, d, n - 1);
    }
  }

  lemma {:induction false} AlikeParts(x: Input, y: Input, root: map<FactKey, FactKey>, c: Claim, d: Claim, i: nat,
                                      parts: seq<Part>)
    requires JudgedAlike(x, y, c, d)
    ensures PartContributions(y, root, d, i, parts) == PartContributions(x, root, c, i, parts)
    decreases |parts|
  {
    if parts != [] {
      AlikeParts(x, y, root, c, d, i, parts[..|parts| - 1]);
    }
  }

  lemma AlikeContributions(x: Input, y: Input, root: map<FactKey, FactKey>, c: Claim, d: Claim)
    requires JudgedAlike(x, y, c, d) && x.assessments != []
    ensures ClaimContributions(y, root, d) == ClaimContributions(x, root, c)
  {
    AlikeBest(x, y, c, d, |x.assessments|);
    var i := Best(x.assessments, c.id, |x.assessments|);
    AlikeParts(x, y, root, c, d, i, Verdicts(x.assessments[i], c.id));
  }

  lemma {:induction false} AlikeAliases(x: Input, y: Input, c: Claim, d: Claim, text: string, n: nat)
    requires JudgedAlike(x, y, c, d) && n <= |x.assessments|
    ensures Aliases(y.assessments, n, d.id, text) == Aliases(x.assessments, n, c.id, text)
    decreases n
  {
    if n > 0 {
      AlikeAliases(x, y, c, d, text, n - 1);
    }
  }

  lemma AlikeJoins(x: Input, y: Input, c: Claim, d: Claim, a: FactKey, b: FactKey)
    requires JudgedAlike(x, y, c, d) && y.references == x.references
    ensures Aliased(y, d.id, a, b) <==> Aliased(x, c.id, a, b)
  {
    forall text
      ensures Aliases(y.assessments, |y.assessments|, d.id, text) == Aliases(x.assessments, |x.assessments|, c.id, text)
    {
      AlikeAliases(x, y, c, d, text, |x.assessments|);
    }
    assert FactKeys(x) == FactKeys(y);
    forall text, i
      ensures AliasedAt(y, d.id, text, i, a, b) <==> AliasedAt(x, c.id, text, i, a, b)
    {
    }
  }

  /** Every claim of `y` is judged like some claim of `x`, and every claim of `x` is still there. */
  lemma RepeatsAlike(x: Input, y: Input, p: nat, k: nat)
    requires Repeats(x, y, p, k)
    ensures JudgedAlike(x, y, x.claims[p], y.claims[k])
    ensures forall d :: d in x.claims ==> d in y.claims && JudgedAlike(x, y, d, d)
    ensures forall d :: d in y.claims ==> d == y.claims[k] || d in x.claims
  {
    hide ReviewOf, Verdicts;
    forall d | d in x.claims
      ensures JudgedAlike(x, y, d, d)
    {
      forall i | 0 <= i < |x.assessments|
        ensures Verdicts(y.assessments[i], d.id) == Verdicts(x.assessments[i], d.id)
      {
        assert SameVerdicts(x, y, i);
      }
    }
    assert x.claims == x.claims[..k] + x.claims[k..];
  }

  lemma RepeatsJoined(x: Input, y: Input, p: nat, k: nat)
    requires Repeats(x, y, p, k)
    ensures Joined(y) == Joined(x) && FactKeys(y) == FactKeys(x)
  {
    RepeatsAlike(x, y, p, k);
    hide Repeats, JudgedAlike, Aliased;
    SameReferences(x, y, p, k);
    forall a, b | a in FactKeys(x) && b in FactKeys(x)
      ensures (exists c :: c in y.claims && Aliased(y, c.id, a, b)) <==>
        (exists c :: c in x.claims && Aliased(x, c.id, a, b))
      ensures Duplicates(x, a, b) <==> Duplicates(y, a, b)
    {
      forall c | c in x.claims
        ensures Aliased(y, c.id, a, b) <==> Aliased(x, c.id, a, b)
      {
        AlikeJoins(x, y, c, c, a, b);
      }
      AlikeJoins(x, y, x.claims[p], y.claims[k], a, b);
      assert x.claims[p] in x.claims && y.claims[k] in y.claims;
    }
  }

  lemma SameReferences(x: Input, y: Input, p: nat, k: nat)
    requires Repeats(x, y, p, k)
    ensures y.references == x.references && y.policy == x.policy && FactKeys(y) == FactKeys(x)
    ensures p < |x.claims| && k < |y.claims|
  {
  }

  lemma {:induction false} ContributionsConcat(x: Input, root: map<FactKey, FactKey>, a: seq<Claim>, b: seq<Claim>)
    requires x.assessments != []
    ensures Contributions(x, root, a + b) == Contributions(x, root, a) + Contributions(x, root, b)
    decreases |b|
  {
    hide ClaimContributions;
    if b == [] {
      assert a + b == a;
    } else {
      var n := |b| - 1;
      ContributionsConcat(x, root, a, b[..n]);
      assert (a + b)[..|a + b| - 1] == a + b[..n];
    }
  }

  lemma {:induction false} ContributionsAlike(x: Input, y: Input, root: map<FactKey, FactKey>, claims: seq<Claim>)
    requires x.assessments != [] && y.assessments != [] && forall c :: c in claims ==> JudgedAlike(x, y, c, c)
    ensures Contributions(y, root, claims) == Contributions(x, root, claims)
    decreases |claims|
  {
    hide ClaimContributions, JudgedAlike;
    if claims != [] {
      var n := |claims| - 1;
      ContributionsAlike(x, y, root, claims[..n]);
      assert claims[n] in claims;
      AlikeContributions(x, y, root, claims[n], claims[n]);
    }
  }

  /** All contributions of a claim are among those of the list. */
  lemma {:induction false} Contributes(x: Input, root: map<FactKey, FactKey>, claims: seq<Claim>, p: nat)
    requires x.assessments != [] && p < |claims|
    ensures forall c :: c in ClaimContributions(x, root, claims[p]) ==> c in Contributions(x, root, claims)
    decreases |claims|
  {
    hide ClaimContributions;
    if p < |claims| - 1 {
      Contributes(x, root, claims[..|claims| - 1], p);
    }
  }

  /** The repeated contributions sit between two stretches of the original ones. */
  lemma RepeatedContributions(x: Input, y: Input, root: map<FactKey, FactKey>, p: nat, k: nat)
    returns (a: seq<Contribution>, r: seq<Contribution>, b: seq<Contribution>)
    requires Repeats(x, y, p, k) && x.assessments != []
    ensures Contributions(x, root, x.claims) == a + b && Contributions(y, root, y.claims) == a + r + b
    ensures forall c :: c in r ==> c in a
  {
    RepeatsAlike(x, y, p, k);
    var first, second, copy := x.claims[..k], x.claims[k..], y.claims[k];
    RepeatsShape(x, y, p, k);
    hide Repeats, Contributions, ClaimContributions, JudgedAlike;
    a, r, b := Contributions(x, root, first), ClaimContributions(x, root, x.claims[p]), Contributions(x, root, second);
    ContributionsConcat(x, root, first, second);
    ContributionsConcat(y, root, first + [copy], second);
    ContributionsConcat(y, root, first, [copy]);
    ContributionsAlike(x, y, root, first);
    ContributionsAlike(x, y, root, second);
    AlikeContributions(x, y, root, x.claims[p], copy);
    SingleContributions(y, root, copy);
    assert first[p] == x.claims[p];
    Contributes(x, root, first, p);
  }

  lemma RepeatsShape(x: Input, y: Input, p: nat, k: nat)
    requires Repeats(x, y, p, k)
    ensures p < k <= |x.claims| && k < |y.claims| && |y.assessments| == |x.assessments|
    ensures x.claims == x.claims[..k] + x.claims[k..] && y.claims == x.claims[..k] + [y.claims[k]] + x.claims[k..]
  {
  }

  lemma SingleContributions(x: Input, root: map<FactKey, FactKey>, c: Claim)
    requires x.assessments != []
    ensures Contributions(x, root, [c]) == ClaimContributions(x, root, c)
  {
    assert [c][..0] == [];
    assert Contributions(x, root, []) == [];
  }

  lemma TargetsStep(cs: seq<Contribution>, c: Contribution)
    ensures TargetList(cs + [c]) ==
            if TargetOf(c).Some? && TargetOf(c).value !in TargetList(cs) then TargetList(cs) + [TargetOf(c).value]
            else TargetList(cs)
  {
    assert (cs + [c])[..|cs|] == cs;
  }

  lemma {:induction false} TargetsKnown(a: seq<Contribution>, r: seq<Contribution>)
    requires forall c :: c in r ==> c in a
    ensures TargetList(a + r) == TargetList(a)
    decreases |r|
  {
    hide TargetList, TargetOf;
    if r == [] {
      assert a + r == a;
    } else {
      var n := |r| - 1;
      assert r[n] in r;
      KnownTarget(a, r[n]);
      TargetsKnown(a, r[..n]);
      TargetsStep(a + r[..n], r[n]);
      assert a + r == a + r[..n] + [r[n]];
    }
  }

  lemma KnownTarget(a: seq<Contribution>, c: Contribution)
    requires c in a
    ensures TargetOf(c).Some? ==> TargetOf(c).value in TargetList(a)
  {
  }

  lemma {:induction false} TargetsAfter(a: seq<Contribution>, d: seq<Contribution>, b: seq<Contribution>)
    requires TargetList(a) == TargetList(d)
    ensures TargetList(a + b) == TargetList(d + b)
    decreases |b|
  {
    hide TargetList;
    if b == [] {
      assert a + b == a && d + b == d;
    } else {
      var n := |b| - 1;
      TargetsAfter(a, d, b[..n]);
      TargetsStep(a + b[..n], b[n]);
      TargetsStep(d + b[..n], b[n]);
      assert a + b == a + b[..n] + [b[n]] && d + b == d + b[..n] + [b[n]];
    }
  }

  lemma TargetsRepeat(a: seq<Contribution>, r: seq<Contribution>, b: seq<Contribution>)
    requires forall c :: c in r ==> c in a
    ensures TargetList(a + r + b) == TargetList(a + b)
  {
    hide TargetList;
    TargetsKnown(a, r);
    TargetsAfter(a, a + r, b);
  }

  /** Demands, counts and coverage only depend on which contributions occur. */
  lemma SameContributions(x: Input, y: Input, root: map<FactKey, FactKey>, cs: seq<Contribution>, ds: seq<Contribution>)
    requires forall c :: c in cs <==> c in ds
    requires FactKeys(x) == FactKeys(y) && x.references == y.references && x.policy == y.policy
    ensures Refuted(cs) == Refuted(ds) && Unsupported(cs) == Unsupported(ds)
    ensures forall t :: DemandOf(x, root, cs, t) == DemandOf(y, root, ds, t)
  {
    forall t
      ensures DemandOf(x, root, cs, t) == DemandOf(y, root, ds, t)
    {
      SameDemand(x, y, root, cs, ds, t);
    }
  }

  lemma SameDemand(x: Input, y: Input, root: map<FactKey, FactKey>, cs: seq<Contribution>, ds: seq<Contribution>,
                   t: set<FactKey>)
    requires forall c :: c in cs <==> c in ds
    requires FactKeys(x) == FactKeys(y) && x.references == y.references && x.policy == y.policy
    ensures DemandOf(x, root, cs, t) == DemandOf(y, root, ds, t)
  {
    hide Fraction, Holds;
    forall z: real
      ensures Claims(cs, t, z) <==> Claims(ds, t, z)
      ensures EvidentAny(x, root, cs, t, z) <==> EvidentAny(y, root, ds, t, z)
    {
      forall f
        ensures Evident(x, root, cs, f, z) <==> Evident(y, root, ds, f, z)
      {
        SameEvidence(x, y, root, cs, ds, f, z);
      }
    }
    assert ClaimPoints(cs, t) == ClaimPoints(ds, t);
    assert EvidencePoints(x, root, cs, t) == EvidencePoints(y, root, ds, t);
  }

  lemma SameEvidence(x: Input, y: Input, root: map<FactKey, FactKey>, cs: seq<Contribution>, ds: seq<Contribution>,
                     f: FactKey, z: real)
    requires forall c :: c in cs <==> c in ds
    requires FactKeys(x) == FactKeys(y) && x.references == y.references && x.policy == y.policy
    ensures Evident(x, root, cs, f, z) <==> Evident(y, root, ds, f, z)
  {
    hide Holds;
    forall k
      ensures FactWitness(x, root, f, k, z) <==> FactWitness(y, root, f, k, z)
    {
    }
    forall c, s
      ensures ReviewWitness(x, cs, f, c, s, z) <==> ReviewWitness(y, ds, f, c, s, z)
    {
    }
  }

  lemma CoverageRepeats(x: Input, y: Input, root: map<FactKey, FactKey>, p: nat, k: nat, i: nat)
    requires Repeats(x, y, p, k) && i < |x.references| == |x.assessments|
    ensures ReferenceRecall(x, root, i) == ReferenceRecall(y, root, i)
  {
    RepeatsAlike(x, y, p, k);
    SameReferences(x, y, p, k);
    hide Repeats, Fraction, Holds;
    forall key, z: real
      ensures CoverCovers(x, root, i, key, z) <==> CoverCovers(y, root, i, key, z)
    {
      SameCoverage(x, y, root, x.claims[p], y.claims[k], i, key, z);
    }
    forall key
      ensures GainOf(x, root, i, key) == GainOf(y, root, i, key)
      ensures WeightOf(x, root, i, key) == WeightOf(y, root, i, key)
    {
      assert CoverPoints(x, root, i, key) == CoverPoints(y, root, i, key);
      assert OwnPoints(x, root, i, key) == OwnPoints(y, root, i, key);
    }
    assert Own(x, root, i) == Own(y, root, i);
    hide Own, GainOf, WeightOf;
    SumAgree(Own(x, root, i), Gained(x, root, i), Gained(y, root, i));
    SumAgree(Own(x, root, i), Weight(x, root, i), Weight(y, root, i));
  }

  lemma SameCoverage(x: Input, y: Input, root: map<FactKey, FactKey>, c: Claim, copy: Claim, i: nat, key: FactKey,
                     z: real)
    requires c in x.claims && copy in y.claims && JudgedAlike(x, y, c, copy) && x.policy == y.policy
    requires forall d :: d in x.claims ==> d in y.claims && JudgedAlike(x, y, d, d)
    requires forall d :: d in y.claims ==> d == copy || d in x.claims
    requires i < |x.assessments|
    ensures CoverCovers(x, root, i, key, z) <==> CoverCovers(y, root, i, key, z)
  {
    hide Holds, Verdicts;
    if CoverCovers(x, root, i, key, z) {
      var d, q :| CoverWitness(x, root, i, key, d, q) && Holds(Widen(SpanOf(d), x.policy.tolerance), z);
      assert CoverWitness(y, root, i, key, d, q);
    }
    if CoverCovers(y, root, i, key, z) {
      var d, q :| CoverWitness(y, root, i, key, d, q) && Holds(Widen(SpanOf(d), y.policy.tolerance), z);
      var e := if d == copy then c else d;
      assert SpanOf(e) == SpanOf(d) && CoverWitness(x, root, i, key, e, q);
    }
  }

  lemma {:induction false} SameRecallSum(x: Input, y: Input, root: map<FactKey, FactKey>, n: nat)
    requires n <= |x.references| == |x.assessments| == |y.references| == |y.assessments|
    requires forall i :: 0 <= i < |x.references| ==> ReferenceRecall(x, root, i) == ReferenceRecall(y, root, i)
    ensures RecallSum(x, root, n) == RecallSum(y, root, n)
    decreases n
  {
    hide ReferenceRecall;
    if n > 0 {
      SameRecallSum(x, y, root, n - 1);
    }
  }

  lemma RecallRepeats(x: Input, y: Input, root: map<FactKey, FactKey>, p: nat, k: nat)
    requires Repeats(x, y, p, k) && |x.references| == |x.assessments|
    ensures y.policy == x.policy && |y.references| == |y.assessments| == |x.references|
    ensures RecallSum(x, root, |x.references|) == RecallSum(y, root, |x.references|)
  {
    SameReferences(x, y, p, k);
    RepeatsShape(x, y, p, k);
    forall i | 0 <= i < |x.references|
      ensures ReferenceRecall(x, root, i) == ReferenceRecall(y, root, i)
    {
      CoverageRepeats(x, y, root, p, k, i);
    }
    SameRecallSum(x, y, root, |x.references|);
  }

  lemma {:induction false} SameDemands(x: Input, y: Input, root: map<FactKey, FactKey>, cs: seq<Contribution>,
                                       ds: seq<Contribution>, targets: seq<set<FactKey>>)
    requires forall t :: DemandOf(x, root, cs, t) == DemandOf(y, root, ds, t)
    ensures Demands(x, root, cs, targets) == Demands(y, root, ds, targets)
    decreases |targets|
  {
    hide DemandOf;
    if targets != [] {
      SameDemands(x, y, root, cs, ds, targets[..|targets| - 1]);
    }
  }

  lemma RepeatKeepsPrecision(x: Input, y: Input, root: map<FactKey, FactKey>, p: nat, k: nat)
    requires Repeats(x, y, p, k) && x.assessments != []
    ensures y.assessments != []
    ensures var cs, ds := Contributions(x, root, x.claims), Contributions(y, root, y.claims);
            && TargetList(cs) == TargetList(ds) && Refuted(cs) == Refuted(ds) && Unsupported(cs) == Unsupported(ds)
            && Demands(x, root, cs, TargetList(cs)) == Demands(y, root, ds, TargetList(ds))
  {
    RepeatsShape(x, y, p, k);
    SameReferences(x, y, p, k);
    var a, r, b := RepeatedContributions(x, y, root, p, k);
    hide Repeats, Contributions, TargetList, Demands, DemandOf, Refuted, Unsupported, FactKeys;
    TargetsRepeat(a, r, b);
    SameContributions(x, y, root, a + b, a + r + b);
    SameDemands(x, y, root, a + b, a + r + b, TargetList(a + b));
  }

  /** Repeating a claim with the same verdicts changes neither precision, recall nor quality. */
  lemma RepeatingAClaimChangesNothing(x: Input, y: Input, p: nat, k: nat, s: Score, t: Score)
    requires Typed(x) && Assessed(x) && Assessed(y) && Repeats(x, y, p, k)
    requires Measures(x, s) && Measures(y, t)
    ensures s == t
  {
    var root, credit :| Scores(x, root, credit, s);
    var other, credit' :| Scores(y, other, credit', t);
    SameRoots(x, y, p, k, root, credit, s, other, credit', t);
    SameScore(x, y, p, k, root, credit, s, credit', t);
  }

  lemma SameRoots(x: Input, y: Input, p: nat, k: nat, root: map<FactKey, FactKey>, credit: real, s: Score,
                  other: map<FactKey, FactKey>, credit': real, t: Score)
    requires Assessed(x) && Assessed(y) && Repeats(x, y, p, k)
    requires Scores(x, root, credit, s) && Scores(y, other, credit', t)
    ensures root == other
  {
    RepeatsJoined(x, y, p, k);
    IdentitiesUnique(x, y, root, other);
  }

  lemma SameScore(x: Input, y: Input, p: nat, k: nat, root: map<FactKey, FactKey>, credit: real, s: Score,
                  credit': real, t: Score)
    requires Assessed(x) && Assessed(y) && Repeats(x, y, p, k)
    requires Scores(x, root, credit, s) && Scores(y, root, credit', t)
    ensures s == t
  {
    hide *;
    ReferencesMatch(x);
    ReferencesMatch(y);
    RepeatKeepsPrecision(x, y, root, p, k);
    RecallRepeats(x, y, root, p, k);
    ScoreParts(x, root, credit, s);
    ScoreParts(y, root, credit', t);
    var cs := Contributions(x, root, x.claims);
    DemandsInUnit(x, root, cs, TargetList(cs));
    Deterministic(x.policy, Demands(x, root, cs, TargetList(cs)), |TargetList(cs)| + |Unsupported(cs)| + |Refuted(cs)|,
                  |Refuted(cs)|, RecallSum(x, root, |x.references|), |x.references|, credit, s, credit', t);
  }

  /** The score from its demands, its counts and the sum of its recalls. */
  ghost predicate HasScore(policy: Policy, demands: seq<Demand>, events: nat, refuted: nat, recalls: real, n: nat,
                           credit: real, s: Score)
  {
    n > 0 && Optimum(demands, credit) && s.precision == Precision(policy, events, refuted, credit) &&
    s.recall == recalls / n as real && s.quality == Harmonic(s.precision, s.recall)
  }

  lemma Deterministic(policy: Policy, demands: seq<Demand>, events: nat, refuted: nat, recalls: real, n: nat,
                      credit: real, s: Score, credit': real, t: Score)
    requires forall i :: 0 <= i < |demands| ==> 0.0 <= demands[i].amount <= 1.0
    requires HasScore(policy, demands, events, refuted, recalls, n, credit, s)
    requires HasScore(policy, demands, events, refuted, recalls, n, credit', t)
    ensures s == t
  {
    hide Optimum, Precision, Harmonic;
    OptimumBounds(demands, credit);
  }

  lemma ReferencesMatch(x: Input)
    requires Assessed(x)
    ensures 0 < |x.references| == |x.assessments|
  {
  }

  lemma ScoreParts(x: Input, root: map<FactKey, FactKey>, credit: real, s: Score)
    requires Assessed(x) && Scores(x, root, credit, s)
    ensures var cs := Contributions(x, root, x.claims);
            HasScore(x.policy, Demands(x, root, cs, TargetList(cs)),
              |TargetList(cs)| + |Unsupported(cs)| + |Refuted(cs)|,
                     |Refuted(cs)|, RecallSum(x, root, |x.references|), |x.references|, credit, s)
  {
    hide Contributions, Demands, TargetList, Unsupported, Refuted, Optimum, Precision, Harmonic, RecallSum, Identities;
  }
}
