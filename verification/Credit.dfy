/**
 Shared credit: every supported proposition demands at most its purity, every
 referenced event pays out at most one. The credit is the optimum of this
 fractional matching, found by shortest augmenting paths in a residual graph.
 */
module Credit {
  import opened Common
  import opened Rationals
  import opened Sums

  /** Identity of an evidence event: an annotated fact, or an event confirmed by review. */
  datatype FactKey = Labelled(reference: nat, id: string) | Reviewed(event: string)

  datatype Demand = Demand(facts: set<FactKey>, amount: real)

  datatype Node = Source | Prediction(index: nat) | Fact(key: FactKey) | Sink

  datatype Edge = Edge(from: Node, to: Node)

  /** Residual capacities. */
  type Graph = map<Edge, real>

  datatype Pair = Pair(index: nat, fact: FactKey)

  // ---------------------------------------------------------------- the matching problem

  ghost function Facts(demands: seq<Demand>): set<FactKey>
  {
    set i, f | 0 <= i < |demands| && f in demands[i].facts :: f
  }

  ghost function Pairs(demands: seq<Demand>): set<Pair>
  {
    set i: nat, f | i < |demands| && f in demands[i].facts :: Pair(i, f)
  }

  ghost function Row(demands: seq<Demand>, i: nat): set<Pair>
  {
    set p | p in Pairs(demands) && p.index == i
  }

  ghost function Column(demands: seq<Demand>, f: FactKey): set<Pair>
  {
    set p | p in Pairs(demands) && p.fact == f
  }

  /** Shares of events given to propositions: no demand and no event is exceeded. */
  ghost predicate Feasible(demands: seq<Demand>, y: Pair -> real)
  {
    && (forall p :: p in Pairs(demands) ==> y(p) >= 0.0)
    && (forall i: nat :: i < |demands| ==> Sum(Row(demands, i), y) <= demands[i].amount)
    && (forall f :: f in Facts(demands) ==> Sum(Column(demands, f), y) <= 1.0)
  }

  ghost function Total(demands: seq<Demand>, y: Pair -> real): real { Sum(Pairs(demands), y) }

  ghost predicate Optimum(demands: seq<Demand>, total: real)
  {
    && (exists y: Pair -> real :: Feasible(demands, y) && Total(demands, y) == total)
    && (forall y: Pair -> real :: Feasible(demands, y) ==> Total(demands, y) <= total)
  }

  // ---------------------------------------------------------------- the residual network

  predicate Arc(demands: seq<Demand>, e: Edge)
  {
    match e
    case Edge(Source, Prediction(i)) => i < |demands|
    case Edge(Prediction(i), Fact(f)) => i < |demands| && f in demands[i].facts
    case Edge(Fact(f), Sink) => exists i :: 0 <= i < |demands| && f in demands[i].facts
    case _ => false
  }

  ghost function Capacity(demands: seq<Demand>, e: Edge): real
    requires Arc(demands, e)
  {
    if e.from == Source then demands[e.to.index].amount else 1.0
  }

  function Back(e: Edge): Edge { Edge(e.to, e.from) }

  ghost predicate Residual(demands: seq<Demand>, g: Graph)
  {
    && (forall e :: e in g ==> g[e] >= 0.0 && (Arc(demands, e) || Arc(demands, Back(e))))
    && (forall e :: Arc(demands, e) ==> e in g && Back(e) in g && g[e] + g[Back(e)] == Capacity(demands, e))
  }

  ghost function Value(g: Graph, a: Node, b: Node): real
  {
    if Edge(a, b) in g then g[Edge(a, b)] else 0.0
  }

  /** The flow read off the residual graph: capacity already moved to the back edges. */
  ghost function Flow(g: Graph): Pair -> real
  {
    (p: Pair) => Value(g, Fact(p.fact), Prediction(p.index))
  }

  ghost function Drawn(g: Graph): nat -> real
  {
    (i: nat) => Value(g, Prediction(i), Source)
  }

  ghost function Paid(g: Graph, f: FactKey): real { Value(g, Sink, Fact(f)) }

  ghost function Indices(demands: seq<Demand>): set<nat>
  {
    set i: nat | i < |demands| && Index(i)
  }

  ghost predicate Index(i: nat) { true }

  ghost function At(node: Node, here: Node, amount: real): real
  {
    if node == here then amount else 0.0
  }

  /** Flow is conserved everywhere, except that `amount` is still missing on the way into `at`. */
  ghost predicate Balanced(demands: seq<Demand>, g: Graph, at: Node, amount: real)
  {
    && (forall i: nat :: i < |demands| ==>
          Sum(Row(demands, i), Flow(g)) - Drawn(g)(i) == At(Prediction(i), at, amount))
    && (forall f :: f in Facts(demands) ==>
          Paid(g, f) - Sum(Column(demands, f), Flow(g)) == At(Fact(f), at, amount))
  }

  // ---------------------------------------------------------------- pushing along one edge

  function Push(g: Graph, e: Edge, amount: real): Graph
    requires e in g && Back(e) in g && e.from != e.to
  {
    g[e := g[e] - amount][Back(e) := g[Back(e)] + amount]
  }

  lemma PushResidual(demands: seq<Demand>, g: Graph, e: Edge, amount: real)
    requires Residual(demands, g) && e in g && Back(e) in g && e.from != e.to && 0.0 <= amount <= g[e]
    ensures Residual(demands, Push(g, e, amount))
  {
    assert Back(Back(e)) == e;
  }

  lemma PushValue(g: Graph, e: Edge, amount: real)
    requires e in g && Back(e) in g && e.from != e.to
    ensures forall a, b :: Value(Push(g, e, amount), a, b) == Value(g, a, b) +
              (if Edge(a, b) == e then -amount else if Edge(b, a) == e then amount else 0.0)
  {
  }

  lemma PushShifts(g: Graph, e: Edge, amount: real, p: Pair, change: real)
    requires e in g && Back(e) in g
    requires (e == Edge(Prediction(p.index), Fact(p.fact)) && change == amount) ||
             (e == Edge(Fact(p.fact), Prediction(p.index)) && change == -amount)
    ensures Shifted(g, Push(g, e, amount), p, change)
  {
    PushValue(g, e, amount);
  }

  lemma PushForward(demands: seq<Demand>, g: Graph, p: Pair, amount: real)
    requires Residual(demands, g) && p in Pairs(demands)
    requires Balanced(demands, g, Fact(p.fact), amount)
    ensures var e := Edge(Prediction(p.index), Fact(p.fact));
            e in g && Back(e) in g && Balanced(demands, Push(g, e, amount), e.from, amount)
  {
    var e := Edge(Prediction(p.index), Fact(p.fact));
    assert Arc(demands, e);
    PushShifts(g, e, amount, p, amount);
    Shift(demands, g, Push(g, e, amount), p, e.to, e.from, amount, amount);
  }

  lemma PushBackward(demands: seq<Demand>, g: Graph, p: Pair, amount: real)
    requires Residual(demands, g) && p in Pairs(demands)
    requires Balanced(demands, g, Prediction(p.index), amount)
    ensures var e := Edge(Fact(p.fact), Prediction(p.index));
            e in g && Back(e) in g && Balanced(demands, Push(g, e, amount), e.from, amount)
  {
    var e := Edge(Fact(p.fact), Prediction(p.index));
    assert Arc(demands, Back(e)) && Back(Back(e)) == e;
    PushShifts(g, e, amount, p, -amount);
    Shift(demands, g, Push(g, e, amount), p, e.to, e.from, amount, -amount);
  }

  /** `h` differs from `g` only by `change` more flow on `p`. */
  ghost predicate Shifted(g: Graph, h: Graph, p: Pair, change: real)
  {
    && (forall q: Pair :: Flow(h)(q) == Flow(g)(q) + if q == p then change else 0.0)
    && (forall i: nat :: Value(h, Prediction(i), Source) == Value(g, Prediction(i), Source))
    && (forall f :: Paid(h, f) == Paid(g, f))
  }

  lemma RowShift(demands: seq<Demand>, g: Graph, h: Graph, p: Pair, change: real, i: nat)
    requires p in Pairs(demands) && Shifted(g, h, p, change)
    ensures Sum(Row(demands, i), Flow(h)) ==
            Sum(Row(demands, i), Flow(g)) + if i == p.index then change else 0.0
  {
    SumChange(Row(demands, i), Flow(g), Flow(h), p);
  }

  lemma ColumnShift(demands: seq<Demand>, g: Graph, h: Graph, p: Pair, change: real, f: FactKey)
    requires p in Pairs(demands) && Shifted(g, h, p, change)
    ensures Sum(Column(demands, f), Flow(h)) ==
            Sum(Column(demands, f), Flow(g)) + if f == p.fact then change else 0.0
  {
    SumChange(Column(demands, f), Flow(g), Flow(h), p);
  }

  /** Changing the flow of one pair moves the missing amount between its two ends. */
  lemma Shift(demands: seq<Demand>, g: Graph, h: Graph, p: Pair, at: Node, next: Node, amount: real, change: real)
    requires p in Pairs(demands) && Balanced(demands, g, at, amount) && Shifted(g, h, p, change)
    requires (change == amount && at == Fact(p.fact) && next == Prediction(p.index)) ||
             (change == -amount && at == Prediction(p.index) && next == Fact(p.fact))
    ensures Balanced(demands, h, next, amount)
  {
    forall i: nat | i < |demands|
      ensures Sum(Row(demands, i), Flow(h)) - Drawn(h)(i) == At(Prediction(i), next, amount)
    {
      RowShift(demands, g, h, p, change, i);
      assert Sum(Row(demands, i), Flow(g)) - Drawn(g)(i) == At(Prediction(i), at, amount);
    }
    forall f | f in Facts(demands)
      ensures Paid(h, f) - Sum(Column(demands, f), Flow(h)) == At(Fact(f), next, amount)
    {
      ColumnShift(demands, g, h, p, change, f);
      assert Paid(g, f) - Sum(Column(demands, f), Flow(g)) == At(Fact(f), at, amount);
    }
  }

  lemma FlowSame(demands: seq<Demand>, g: Graph, h: Graph)
    requires forall q :: Flow(h)(q) == Flow(g)(q)
    ensures forall i: nat :: Sum(Row(demands, i), Flow(h)) == Sum(Row(demands, i), Flow(g))
    ensures forall f :: Sum(Column(demands, f), Flow(h)) == Sum(Column(demands, f), Flow(g))
  {
    forall i: nat
      ensures Sum(Row(demands, i), Flow(h)) == Sum(Row(demands, i), Flow(g))
    {
      SumAgree(Row(demands, i), Flow(h), Flow(g));
    }
    forall f
      ensures Sum(Column(demands, f), Flow(h)) == Sum(Column(demands, f), Flow(g))
    {
      SumAgree(Column(demands, f), Flow(h), Flow(g));
    }
  }

  /** An edge at an end of the network changes no flow, only what is drawn or paid there. */
  lemma ShiftEnd(demands: seq<Demand>, g: Graph, h: Graph, at: Node, next: Node, amount: real)
    requires Balanced(demands, g, at, amount) && forall q :: Flow(h)(q) == Flow(g)(q)
    requires forall i: nat ::
      Drawn(h)(i) - Drawn(g)(i) == At(Prediction(i), at, amount) - At(Prediction(i), next, amount)
    requires forall f :: Paid(h, f) - Paid(g, f) == At(Fact(f), next, amount) - At(Fact(f), at, amount)
    ensures Balanced(demands, h, next, amount)
  {
    FlowSame(demands, g, h);
    hide Flow, Drawn, Paid, Sum, Row, Column, At;
  }

  lemma PushStart(demands: seq<Demand>, g: Graph, i: nat, amount: real)
    requires Residual(demands, g) && i < |demands|
    requires Balanced(demands, g, Prediction(i), amount)
    ensures var e := Edge(Source, Prediction(i));
            e in g && Back(e) in g && Balanced(demands, Push(g, e, amount), Source, amount)
  {
    var e := Edge(Source, Prediction(i));
    assert Arc(demands, e);
    PushValue(g, e, amount);
    hide Balanced, Residual, Arc, Value, Push;
    ShiftEnd(demands, g, Push(g, e, amount), Prediction(i), Source, amount);
  }

  lemma PushEnd(demands: seq<Demand>, g: Graph, f: FactKey, amount: real)
    requires Residual(demands, g) && f in Facts(demands)
    requires Balanced(demands, g, Sink, amount)
    ensures var e := Edge(Fact(f), Sink);
            e in g && Back(e) in g && Balanced(demands, Push(g, e, amount), e.from, amount)
  {
    var e := Edge(Fact(f), Sink);
    assert Arc(demands, e);
    PushValue(g, e, amount);
    hide Balanced, Residual, Arc, Value, Push;
    ShiftEnd(demands, g, Push(g, e, amount), Sink, Fact(f), amount);
  }

  /** Only an edge out of the source changes what is drawn from the source. */
  lemma PushDraws(demands: seq<Demand>, g: Graph, e: Edge, amount: real)
    requires e in g && Back(e) in g && e.from != e.to && e.to != Source
    requires Arc(demands, e) || Arc(demands, Back(e))
    ensures Sum(Indices(demands), Drawn(Push(g, e, amount))) ==
            Sum(Indices(demands), Drawn(g)) + At(Source, e.from, amount)
  {
    PushValue(g, e, amount);
    var h := Push(g, e, amount);
    if e.from == Source {
      SumChange(Indices(demands), Drawn(g), Drawn(h), e.to.index);
    } else {
      SumAgree(Indices(demands), Drawn(g), Drawn(h));
    }
  }

  lemma ArcShape(demands: seq<Demand>, e: Edge)
    requires Arc(demands, e)
    ensures match e
            case Edge(Source, Prediction(i)) => i < |demands|
            case Edge(Prediction(i), Fact(f)) => Pair(i, f) in Pairs(demands)
            case Edge(Fact(f), Sink) => f in Facts(demands)
            case _ => false
  {
  }

  /** One push moves the missing amount from the head of the edge to its tail. */
  lemma PushBalances(demands: seq<Demand>, g: Graph, e: Edge, amount: real)
    requires Residual(demands, g) && e in g && e.to != Source && e.from != Sink
    requires Balanced(demands, g, e.to, amount)
    ensures e.from != e.to && Back(e) in g && Balanced(demands, Push(g, e, amount), e.from, amount)
  {
    if Arc(demands, e) {
      ArcShape(demands, e);
      match e {
        case Edge(Source, Prediction(i)) => PushStart(demands, g, i, amount);
        case Edge(Prediction(i), Fact(f)) => PushForward(demands, g, Pair(i, f), amount);
        case Edge(Fact(f), Sink) => PushEnd(demands, g, f, amount);
        case _ =>
      }
    } else {
      ArcShape(demands, Back(e));
      match e {
        case Edge(Fact(f), Prediction(i)) => PushBackward(demands, g, Pair(i, f), amount);
        case _ =>
      }
    }
  }

  // ---------------------------------------------------------------- the cut

  ghost function RowSums(demands: seq<Demand>, y: Pair -> real): nat -> real
  {
    (i: nat) => Sum(Row(demands, i), y)
  }

  ghost function ColumnSums(demands: seq<Demand>, y: Pair -> real): FactKey -> real
  {
    (f: FactKey) => Sum(Column(demands, f), y)
  }

  ghost function PairsOfRows(demands: seq<Demand>, rows: set<nat>): set<Pair>
  {
    set p | p in Pairs(demands) && p.index in rows
  }

  ghost function PairsOfColumns(demands: seq<Demand>, columns: set<FactKey>): set<Pair>
  {
    set p | p in Pairs(demands) && p.fact in columns
  }

  lemma PeelRow(demands: seq<Demand>, rows: set<nat>, i: nat)
    requires i in rows
    ensures PairsOfRows(demands, rows) == Row(demands, i) + PairsOfRows(demands, rows - {i})
    ensures Row(demands, i) !! PairsOfRows(demands, rows - {i})
  {
  }

  lemma PeelColumn(demands: seq<Demand>, columns: set<FactKey>, f: FactKey)
    requires f in columns
    ensures PairsOfColumns(demands, columns) == Column(demands, f) + PairsOfColumns(demands, columns - {f})
    ensures Column(demands, f) !! PairsOfColumns(demands, columns - {f})
  {
  }

  lemma {:induction false} SumByRows(demands: seq<Demand>, rows: set<nat>, y: Pair -> real)
    ensures Sum(PairsOfRows(demands, rows), y) == Sum(rows, RowSums(demands, y))
    decreases |rows|
  {
    if rows == {} {
      assert PairsOfRows(demands, rows) == {};
    } else {
      var i :| i in rows;
      SumByRows(demands, rows - {i}, y);
      SumPick(rows, RowSums(demands, y), i);
      PeelRow(demands, rows, i);
      SumSplit(Row(demands, i), PairsOfRows(demands, rows - {i}), y);
    }
  }

  lemma {:induction false} SumByColumns(demands: seq<Demand>, columns: set<FactKey>, y: Pair -> real)
    ensures Sum(PairsOfColumns(demands, columns), y) == Sum(columns, ColumnSums(demands, y))
    decreases |columns|
  {
    if columns == {} {
      assert PairsOfColumns(demands, columns) == {};
    } else {
      var f :| f in columns;
      SumByColumns(demands, columns - {f}, y);
      SumPick(columns, ColumnSums(demands, y), f);
      PeelColumn(demands, columns, f);
      SumSplit(Column(demands, f), PairsOfColumns(demands, columns - {f}), y);
    }
  }

  ghost function OutsideRows(demands: seq<Demand>, r: set<Node>): set<nat>
  {
    set i | i in Indices(demands) && Prediction(i) !in r
  }

  ghost function InsideColumns(demands: seq<Demand>, r: set<Node>): set<FactKey>
  {
    set f | f in Facts(demands) && Fact(f) in r
  }

  ghost function Crossing(demands: seq<Demand>, r: set<Node>): set<Pair>
  {
    set p | p in Pairs(demands) && Prediction(p.index) in r && Fact(p.fact) !in r
  }

  ghost function Amounts(demands: seq<Demand>): nat -> real
  {
    (i: nat) => if i < |demands| then demands[i].amount else 0.0
  }

  function One<T>(): T -> real { (x: T) => 1.0 }

  /** Capacity of the edges that leave `r`. */
  ghost function Cut(demands: seq<Demand>, r: set<Node>): real
  {
    Sum(OutsideRows(demands, r), Amounts(demands)) + Sum(InsideColumns(demands, r), One())
    + Sum(Crossing(demands, r), One())
  }

  /** Pairs that start and end inside `r`. */
  ghost function Inner(demands: seq<Demand>, r: set<Node>): set<Pair>
  {
    set p | p in Pairs(demands) && Prediction(p.index) in r && Fact(p.fact) in r
  }

  lemma SplitTotal(demands: seq<Demand>, r: set<Node>, y: Pair -> real)
    ensures Total(demands, y) == Sum(OutsideRows(demands, r), RowSums(demands, y)) +
                                 Sum(Inner(demands, r), y) + Sum(Crossing(demands, r), y)
  {
    var rows := PairsOfRows(demands, OutsideRows(demands, r));
    SumByRows(demands, OutsideRows(demands, r), y);
    SumSplit(rows, Inner(demands, r), y);
    SumSplit(rows + Inner(demands, r), Crossing(demands, r), y);
    assert Pairs(demands) == rows + Inner(demands, r) + Crossing(demands, r);
  }

  lemma PairWithinColumn(demands: seq<Demand>, y: Pair -> real, p: Pair)
    requires Feasible(demands, y) && p in Pairs(demands)
    ensures y(p) <= 1.0
  {
    SumPick(Column(demands, p.fact), y, p);
    SumNonNegative(Column(demands, p.fact) - {p}, y);
    assert p.fact in Facts(demands);
  }

  /** No feasible assignment exceeds a cut. */
  lemma WeakDuality(demands: seq<Demand>, r: set<Node>, y: Pair -> real)
    requires Feasible(demands, y)
    ensures Total(demands, y) <= Cut(demands, r)
  {
    SplitTotal(demands, r, y);
    SumBelow(OutsideRows(demands, r), RowSums(demands, y), Amounts(demands));
    var columns := InsideColumns(demands, r);
    SumSubset(Inner(demands, r), PairsOfColumns(demands, columns), y);
    SumByColumns(demands, columns, y);
    SumBelow(columns, ColumnSums(demands, y), One());
    forall p | p in Crossing(demands, r) ensures y(p) <= 1.0 {
      PairWithinColumn(demands, y, p);
    }
    SumBelow(Crossing(demands, r), y, One());
  }

  /** `r` is closed under edges with remaining capacity and separates source from sink. */
  ghost predicate ClosedCut(g: Graph, r: set<Node>)
  {
    Source in r && Sink !in r && forall e :: e in g && e.from in r && g[e] > 0.0 ==> e.to in r
  }

  lemma FlowFeasible(demands: seq<Demand>, g: Graph)
    requires Residual(demands, g) && Balanced(demands, g, Sink, 0.0)
    ensures Feasible(demands, Flow(g))
  {
    FlowNonNegative(demands, g);
    DrawnFits(demands, g);
    PaidFits(demands, g);
    hide Sum, Flow, Drawn, Paid, Row, Column, Residual;
  }

  lemma FlowNonNegative(demands: seq<Demand>, g: Graph)
    requires Residual(demands, g)
    ensures forall p :: p in Pairs(demands) ==> Flow(g)(p) >= 0.0
  {
    forall p | p in Pairs(demands) ensures Flow(g)(p) >= 0.0 {
      assert Arc(demands, Edge(Prediction(p.index), Fact(p.fact)));
    }
  }

  lemma DrawnFits(demands: seq<Demand>, g: Graph)
    requires Residual(demands, g)
    ensures forall i: nat :: i < |demands| ==> Drawn(g)(i) <= demands[i].amount
  {
    forall i: nat | i < |demands| ensures Drawn(g)(i) <= demands[i].amount {
      assert Arc(demands, Edge(Source, Prediction(i)));
    }
  }

  lemma PaidFits(demands: seq<Demand>, g: Graph)
    requires Residual(demands, g)
    ensures forall f :: f in Facts(demands) ==> Paid(g, f) <= 1.0
  {
    forall f | f in Facts(demands) ensures Paid(g, f) <= 1.0 {
      assert Arc(demands, Edge(Fact(f), Sink));
    }
  }

  lemma SaturatedRows(demands: seq<Demand>, g: Graph, r: set<Node>)
    requires Residual(demands, g) && Balanced(demands, g, Sink, 0.0) && ClosedCut(g, r)
    ensures Sum(OutsideRows(demands, r), RowSums(demands, Flow(g))) == Sum(OutsideRows(demands, r), Amounts(demands))
  {
    forall i | i in OutsideRows(demands, r)
      ensures RowSums(demands, Flow(g))(i) == Amounts(demands)(i)
    {
      assert Arc(demands, Edge(Source, Prediction(i)));
    }
    SumAgree(OutsideRows(demands, r), RowSums(demands, Flow(g)), Amounts(demands));
  }

  /** Every reached fact is fully paid: its edge to the sink is closed. */
  lemma FullColumns(demands: seq<Demand>, g: Graph, r: set<Node>)
    requires Residual(demands, g) && Balanced(demands, g, Sink, 0.0) && ClosedCut(g, r)
    ensures Sum(InsideColumns(demands, r), ColumnSums(demands, Flow(g))) == Sum(InsideColumns(demands, r), One())
  {
    hide Sum;
    forall f | f in InsideColumns(demands, r) ensures ColumnSums(demands, Flow(g))(f) == 1.0 {
      assert Arc(demands, Edge(Fact(f), Sink));
    }
    SumAgree(InsideColumns(demands, r), ColumnSums(demands, Flow(g)), One());
  }

  /** Nothing flows into the reached facts from demands that are not reached. */
  lemma NothingEnters(demands: seq<Demand>, g: Graph, r: set<Node>)
    requires Residual(demands, g) && ClosedCut(g, r)
    ensures var entering := PairsOfColumns(demands, InsideColumns(demands, r)) - Inner(demands, r);
      Sum(entering, Flow(g)) == 0.0
  {
    hide Sum;
    var entering := PairsOfColumns(demands, InsideColumns(demands, r)) - Inner(demands, r);
    forall p | p in entering ensures Flow(g)(p) == 0.0 {
      assert Arc(demands, Edge(Prediction(p.index), Fact(p.fact)));
    }
    SumZero(entering, Flow(g));
  }

  lemma InnerColumns(demands: seq<Demand>, r: set<Node>)
    ensures Inner(demands, r) <= PairsOfColumns(demands, InsideColumns(demands, r))
  {
  }

  lemma SaturatedColumns(demands: seq<Demand>, g: Graph, r: set<Node>)
    requires Residual(demands, g) && Balanced(demands, g, Sink, 0.0) && ClosedCut(g, r)
    ensures Sum(Inner(demands, r), Flow(g)) == Sum(InsideColumns(demands, r), One())
  {
    hide Sum, Residual, Balanced, ClosedCut, Inner, InsideColumns, PairsOfColumns, ColumnSums, Flow;
    var columns, inner := InsideColumns(demands, r), Inner(demands, r);
    FullColumns(demands, g, r);
    SumByColumns(demands, columns, Flow(g));
    NothingEnters(demands, g, r);
    InnerColumns(demands, r);
    SumSplit(inner, PairsOfColumns(demands, columns) - inner, Flow(g));
    assert PairsOfColumns(demands, columns) == inner + (PairsOfColumns(demands, columns) - inner);
  }

  lemma SaturatedCrossing(demands: seq<Demand>, g: Graph, r: set<Node>)
    requires Residual(demands, g) && ClosedCut(g, r)
    ensures Sum(Crossing(demands, r), Flow(g)) == Sum(Crossing(demands, r), One())
  {
    forall p | p in Crossing(demands, r) ensures Flow(g)(p) == 1.0 {
      assert Arc(demands, Edge(Prediction(p.index), Fact(p.fact)));
    }
    SumAgree(Crossing(demands, r), Flow(g), One());
  }

  lemma DrawnIsTotal(demands: seq<Demand>, g: Graph)
    requires Balanced(demands, g, Sink, 0.0)
    ensures Sum(Indices(demands), Drawn(g)) == Total(demands, Flow(g))
  {
    SumByRows(demands, Indices(demands), Flow(g));
    SumAgree(Indices(demands), RowSums(demands, Flow(g)), Drawn(g));
    assert PairsOfRows(demands, Indices(demands)) == Pairs(demands);
  }

  /** When no augmenting path is left, the reachable nodes form a cut that proves optimality. */
  lemma NoPathIsOptimal(demands: seq<Demand>, g: Graph, r: set<Node>, total: real, denom: nat)
    requires Carries(demands, g, total, denom) && ClosedCut(g, r)
    ensures Optimum(demands, total)
  {
    FlowFeasible(demands, g);
    DrawnIsTotal(demands, g);
    SplitTotal(demands, r, Flow(g));
    SaturatedRows(demands, g, r);
    SaturatedColumns(demands, g, r);
    SaturatedCrossing(demands, g, r);
    forall y: Pair -> real | Feasible(demands, y)
      ensures Total(demands, y) <= Total(demands, Flow(g))
    {
      WeakDuality(demands, r, y);
    }
  }

  // ---------------------------------------------------------------- common denominators

  ghost predicate OnGrid(g: Graph, denom: nat)
  {
    forall e :: e in g ==> Grid(g[e], denom)
  }

  lemma PushOnGrid(g: Graph, e: Edge, amount: real, denom: nat)
    requires OnGrid(g, denom) && Grid(amount, denom) && e in g && Back(e) in g && e.from != e.to
    ensures OnGrid(Push(g, e, amount), denom)
  {
    GridSum(g[e], amount, denom);
    GridSum(g[Back(e)], amount, denom);
  }

  // ---------------------------------------------------------------- building the network

  /** Capacities of the fresh network: forward edges full, back edges empty. */
  ghost predicate Fresh(demands: seq<Demand>, g: Graph)
  {
    && (forall e :: e in g ==> Arc(demands, e) || Arc(demands, Back(e)))
    && (forall e :: Arc(demands, e) ==> e in g && Back(e) in g && g[e] == Capacity(demands, e) && g[Back(e)] == 0.0)
  }

  /** `edge(a, b, cap)` of the program: reset the capacity, keep an existing back edge. */
  function AddEdge(g: Graph, e: Edge, capacity: real): Graph
    requires e.from != e.to
  {
    var h := g[e := capacity];
    if Back(e) in h then h else h[Back(e) := 0.0]
  }

  /** A fresh network restricted to the arcs added so far. */
  ghost predicate Laid(demands: seq<Demand>, arcs: set<Edge>, g: Graph)
  {
    && (forall e :: e in arcs ==> Arc(demands, e) && e in g && Back(e) in g)
    && (forall e :: e in g ==> e in arcs || Back(e) in arcs)
    && (forall e :: e in arcs ==> g[e] == Capacity(demands, e) && g[Back(e)] == 0.0)
  }

  lemma LayEdge(demands: seq<Demand>, arcs: set<Edge>, g: Graph, e: Edge)
    requires Laid(demands, arcs, g) && Arc(demands, e)
    ensures e.from != e.to && Laid(demands, arcs + {e}, AddEdge(g, e, Capacity(demands, e)))
  {
    assert !Arc(demands, Back(e)) && Back(Back(e)) == e;
    forall a | a in arcs ensures a != Back(e) && Back(a) != e {
      assert !Arc(demands, Back(a)) && Back(Back(a)) == a;
    }
  }

  lemma WholeOnGrid(g: Graph, e: Edge, denom: nat)
    requires OnGrid(g, denom) && e.from != e.to
    ensures OnGrid(AddEdge(g, e, 1.0), denom)
  {
    assert Grid(1.0, denom) && Grid(0.0, denom);
  }

  /** Every arc that demand `i` contributes for the facts in `done`. */
  ghost predicate Contributed(arcs: set<Edge>, i: nat, done: set<FactKey>)
  {
    && Edge(Source, Prediction(i)) in arcs
    && (forall f :: f in done ==> Edge(Prediction(i), Fact(f)) in arcs && Edge(Fact(f), Sink) in arcs)
  }

  lemma LaidIsFresh(demands: seq<Demand>, arcs: set<Edge>, g: Graph)
    requires Laid(demands, arcs, g)
    requires forall i: nat :: i < |demands| ==> Contributed(arcs, i, demands[i].facts)
    ensures Fresh(demands, g)
  {
    forall e | Arc(demands, e)
      ensures e in arcs
    {
      match e {
        case Edge(Source, Prediction(i)) => assert Contributed(arcs, i, demands[i].facts);
        case Edge(Prediction(i), Fact(f)) => assert Contributed(arcs, i, demands[i].facts);
        case Edge(Fact(f), Sink) =>
          var i: nat :| i < |demands| && f in demands[i].facts;
          assert Contributed(arcs, i, demands[i].facts);
        case _ =>
      }
    }
  }

  method AddFacts(demands: seq<Demand>, n: nat, g0: Graph, ghost arcs0: set<Edge>, ghost denom: nat)
    returns (g: Graph, ghost arcs: set<Edge>)
    requires n < |demands| && Laid(demands, arcs0, g0) && OnGrid(g0, denom)
    ensures Laid(demands, arcs, g) && OnGrid(g, denom) && arcs0 <= arcs
    ensures forall f :: f in demands[n].facts ==> Edge(Prediction(n), Fact(f)) in arcs && Edge(Fact(f), Sink) in arcs
  {
    g, arcs := g0, arcs0;
    var todo := demands[n].facts;
    while todo != {}
      invariant todo <= demands[n].facts && arcs0 <= arcs
      invariant Laid(demands, arcs, g) && OnGrid(g, denom)
      invariant forall f :: f in demands[n].facts - todo ==>
                  Edge(Prediction(n), Fact(f)) in arcs && Edge(Fact(f), Sink) in arcs
      decreases |todo|
    {
      var f :| f in todo;
      ghost var first, second := Edge(Prediction(n), Fact(f)), Edge(Fact(f), Sink);
      assert Arc(demands, first) && Arc(demands, second);
      hide Laid, OnGrid, Grid, Arc, AddEdge;
      LayEdge(demands, arcs, g, first);
      WholeOnGrid(g, first, denom);
      g, arcs := AddEdge(g, Edge(Prediction(n), Fact(f)), 1.0), arcs + {first};
      LayEdge(demands, arcs, g, second);
      WholeOnGrid(g, second, denom);
      g, arcs := AddEdge(g, Edge(Fact(f), Sink), 1.0), arcs + {second};
      todo := todo - {f};
    }
  }

  method Build(demands: seq<Demand>, ghost denom: nat) returns (g: Graph)
    requires forall i :: 0 <= i < |demands| ==> Grid(demands[i].amount, denom)
    ensures Fresh(demands, g) && OnGrid(g, denom)
  {
    g := map[];
    ghost var arcs := {};
    for n := 0 to |demands|
      invariant Laid(demands, arcs, g) && OnGrid(g, denom)
      invariant forall i: nat :: i < n ==> Contributed(arcs, i, demands[i].facts)
    {
      hide Laid, OnGrid, Contributed, Fresh, Grid;
      ghost var before := arcs;
      g, arcs := AddDemand(demands, n, g, arcs, denom);
      forall i: nat | i < n ensures Contributed(arcs, i, demands[i].facts) {
        ContributedGrows(before, arcs, i, demands[i].facts);
      }
    }
    LaidIsFresh(demands, arcs, g);
  }

  lemma ContributedGrows(before: set<Edge>, arcs: set<Edge>, i: nat, done: set<FactKey>)
    requires Contributed(before, i, done) && before <= arcs
    ensures Contributed(arcs, i, done)
  {
  }

  /** The edges of one demand: from the source, to its facts, and on to the sink. */
  method AddDemand(demands: seq<Demand>, n: nat, g0: Graph, ghost arcs0: set<Edge>, ghost denom: nat)
    returns (g: Graph, ghost arcs: set<Edge>)
    requires n < |demands| && Laid(demands, arcs0, g0) && OnGrid(g0, denom) && Grid(demands[n].amount, denom)
    ensures Laid(demands, arcs, g) && OnGrid(g, denom) && arcs0 <= arcs && Contributed(arcs, n, demands[n].facts)
  {
    LayEdge(demands, arcs0, g0, Edge(Source, Prediction(n)));
    g, arcs := AddEdge(g0, Edge(Source, Prediction(n)), demands[n].amount), arcs0 + {Edge(Source, Prediction(n))};
    assert OnGrid(g, denom);
    hide Laid, OnGrid, Grid;
    g, arcs := AddFacts(demands, n, g, arcs, denom);
  }

  lemma FreshCarries(demands: seq<Demand>, g: Graph, denom: nat)
    requires Fresh(demands, g) && OnGrid(g, denom)
    requires forall i :: 0 <= i < |demands| ==> demands[i].amount >= 0.0
    ensures Carries(demands, g, 0.0, denom)
  {
    forall p | p in Pairs(demands) ensures Flow(g)(p) == 0.0 {
      assert Arc(demands, Edge(Prediction(p.index), Fact(p.fact)));
    }
    forall i: nat | i < |demands|
      ensures Sum(Row(demands, i), Flow(g)) == 0.0 == Drawn(g)(i)
    {
      SumZero(Row(demands, i), Flow(g));
      assert Arc(demands, Edge(Source, Prediction(i)));
    }
    forall f | f in Facts(demands)
      ensures Sum(Column(demands, f), Flow(g)) == 0.0 == Paid(g, f)
    {
      SumZero(Column(demands, f), Flow(g));
      assert Arc(demands, Edge(Fact(f), Sink));
    }
    SumZero(Indices(demands), Drawn(g));
  }

  // ---------------------------------------------------------------- breadth-first search

  /** Search tree: every reached node other than the source has an open edge from its parent. */
  ghost predicate Tree(g: Graph, parent: map<Node, Option<Node>>, depth: map<Node, nat>)
  {
    && depth.Keys == parent.Keys
    && Source in parent && parent[Source] == None
    && forall t :: t in parent && t != Source ==>
         && parent[t].Some? && parent[t].value in parent && parent[t].value != Sink
         && depth[parent[t].value] < depth[t]
         && Edge(parent[t].value, t) in g && g[Edge(parent[t].value, t)] > 0.0
  }

  /** All open edges out of the node lead to reached nodes, except possibly into `todo`. */
  ghost predicate Explored(g: Graph, parent: map<Node, Option<Node>>, node: Node, todo: set<Node>)
  {
    forall e :: e in g && e.from == node && g[e] > 0.0 ==> e.to in parent || e.to in todo
  }

  ghost function Nodes(g: Graph): set<Node>
  {
    set e | e in g :: e.to
  }

  method Visit(g: Graph, node: Node, parent0: map<Node, Option<Node>>, queue0: seq<Node>, ghost depth0: map<Node, nat>)
    returns (parent: map<Node, Option<Node>>, queue: seq<Node>, ghost depth: map<Node, nat>)
    requires Tree(g, parent0, depth0) && node in parent0 && node != Sink
    ensures Tree(g, parent, depth) && Explored(g, parent, node, {})
    ensures parent0.Keys <= parent.Keys <= parent0.Keys + Nodes(g)
    ensures |queue| - |queue0| == |parent.Keys| - |parent0.Keys|
    ensures (forall n :: n in queue0 ==> n in queue) && (forall n :: n in queue ==> n in queue0 || n in parent)
    ensures forall n :: n in parent && n !in parent0 ==> n in queue
  {
    parent, queue, depth := parent0, queue0, depth0;
    var todo := set e | e in g && e.from == node :: e.to;
    while todo != {}
      invariant todo <= Nodes(g)
      invariant Tree(g, parent, depth) && Explored(g, parent, node, todo)
      invariant forall t :: t in todo ==> Edge(node, t) in g
      invariant parent0.Keys <= parent.Keys <= parent0.Keys + Nodes(g)
      invariant |queue| - |queue0| == |parent.Keys| - |parent0.Keys|
      invariant (forall n :: n in queue0 ==> n in queue) && (forall n :: n in queue ==> n in queue0 || n in parent)
      invariant forall n :: n in parent && n !in parent0 ==> n in queue
      decreases |todo|
    {
      var target :| target in todo;
      if g[Edge(node, target)] > 0.0 && target !in parent {
        assert (parent[target := Some(node)]).Keys == parent.Keys + {target};
        parent, depth := parent[target := Some(node)], depth[target := depth[node] + 1];
        queue := queue + [target];
      }
      todo := todo - {target};
    }
  }

  /** Reached nodes are explored or still waiting. */
  ghost predicate Frontier(g: Graph, parent: map<Node, Option<Node>>, queue: seq<Node>)
  {
    && (forall n :: n in queue ==> n in parent)
    && (forall n :: n in parent && n !in queue ==> Explored(g, parent, n, {}))
  }

  lemma FrontierStep(g: Graph, before: map<Node, Option<Node>>, waiting: seq<Node>,
                     parent: map<Node, Option<Node>>, queue: seq<Node>)
    requires waiting != [] && Frontier(g, before, waiting) && Explored(g, parent, waiting[0], {})
    requires before.Keys <= parent.Keys
    requires (forall n :: n in waiting[1..] ==> n in queue)
      && (forall n :: n in queue ==> n in waiting[1..] || n in parent)
    requires forall n :: n in parent && n !in before ==> n in queue
    ensures Frontier(g, parent, queue)
  {
    forall n | n in parent && n !in queue
      ensures Explored(g, parent, n, {})
    {
      if n != waiting[0] {
        assert n in before && n !in waiting[1..];
        assert Explored(g, before, n, {});
      }
    }
  }

  lemma Exhausted(g: Graph, parent: map<Node, Option<Node>>)
    requires Frontier(g, parent, []) && Source in parent && Sink !in parent
    ensures ClosedCut(g, parent.Keys)
  {
    forall e | e in g && e.from in parent.Keys && g[e] > 0.0
      ensures e.to in parent.Keys
    {
      assert Explored(g, parent, e.from, {});
    }
  }

  /** Either a tree that contains the sink, or a closed cut. */
  method Search(g: Graph) returns (parent: map<Node, Option<Node>>, ghost depth: map<Node, nat>)
    ensures Tree(g, parent, depth)
    ensures Sink !in parent ==> ClosedCut(g, parent.Keys)
  {
    parent, depth := map[Source := None], map[Source := 0];
    var queue := [Source];
    ghost var all := {Source} + Nodes(g);
    while queue != [] && Sink !in parent
      invariant Tree(g, parent, depth) && Frontier(g, parent, queue)
      invariant parent.Keys <= all
      decreases |all - parent.Keys| + |queue|
    {
      ghost var before, waiting := parent, queue;
      parent, queue, depth := Visit(g, queue[0], parent, queue[1..], depth);
      FrontierStep(g, before, waiting, parent, queue);
      Shrinks(all, before.Keys, parent.Keys);
    }
    if Sink !in parent {
      Exhausted(g, parent);
    }
  }

  lemma Shrinks<T>(all: set<T>, a: set<T>, b: set<T>)
    requires a <= b <= all
    ensures |all - a| - |all - b| == |b| - |a|
  {
    assert all == a + (all - a) && all == b + (all - b);
  }

  // ---------------------------------------------------------------- augmentation

  /** Every edge on the tree path into `node` has `amount` of capacity in `g`. */
  ghost predicate OpenPath(tree: Graph, parent: map<Node, Option<Node>>, depth: map<Node, nat>,
                           g: Graph, node: Node, amount: real)
    requires Tree(tree, parent, depth) && tree.Keys == g.Keys && node in parent
    decreases depth[node]
  {
    node == Source ||
    (g[Edge(parent[node].value, node)] >= amount && OpenPath(tree, parent, depth, g, parent[node].value, amount))
  }

  lemma {:induction false} OpenPathLess(tree: Graph, parent: map<Node, Option<Node>>, depth: map<Node, nat>,
                     g: Graph, node: Node, amount: real, less: real)
    requires Tree(tree, parent, depth) && tree.Keys == g.Keys && node in parent
    requires OpenPath(tree, parent, depth, g, node, amount) && less <= amount
    ensures OpenPath(tree, parent, depth, g, node, less)
    decreases depth[node]
  {
    if node != Source {
      OpenPathLess(tree, parent, depth, g, parent[node].value, amount, less);
    }
  }

  /** A push into a deeper node leaves the rest of the path open. */
  lemma {:induction false} PushKeepsPath(tree: Graph, parent: map<Node, Option<Node>>, depth: map<Node, nat>,
                                         g: Graph, e: Edge, amount: real, node: Node)
    requires Tree(tree, parent, depth) && tree.Keys == g.Keys && node in parent && e.to in parent
    requires e in g && Back(e) in g && e.from != e.to && amount >= 0.0
    requires OpenPath(tree, parent, depth, g, node, amount) && depth[node] < depth[e.to]
    ensures OpenPath(tree, parent, depth, Push(g, e, amount), node, amount)
    decreases depth[node]
  {
    if node != Source {
      PushKeepsPath(tree, parent, depth, g, e, amount, parent[node].value);
    }
  }

  /** The bottleneck of the path to the sink, starting from at most one. */
  method Bottleneck(g: Graph, parent: map<Node, Option<Node>>, ghost depth: map<Node, nat>, ghost denom: nat)
    returns (amount: real)
    requires Tree(g, parent, depth) && Sink in parent && OnGrid(g, denom)
    ensures 0.0 < amount && Grid(amount, denom) && OpenPath(g, parent, depth, g, Sink, amount)
  {
    var node := Sink;
    amount := 1.0;
    while parent[node].Some?
      invariant node in parent && 0.0 < amount && Grid(amount, denom)
      invariant forall a :: a <= amount && OpenPath(g, parent, depth, g, node, a) ==>
                  OpenPath(g, parent, depth, g, Sink, a)
      decreases depth[node]
    {
      var previous := parent[node].value;
      amount := Min(amount, g[Edge(previous, node)]);
      node := previous;
    }
  }

  /** Between augmentations: a residual graph that carries a flow of value `total`. */
  ghost predicate Carries(demands: seq<Demand>, g: Graph, total: real, denom: nat)
  {
    && Residual(demands, g) && OnGrid(g, denom) && Balanced(demands, g, Sink, 0.0)
    && Sum(Indices(demands), Drawn(g)) == total
  }

  /** During an augmentation: the part of the path after `node` has been pushed. */
  ghost predicate Pushing(demands: seq<Demand>, g: Graph, node: Node, amount: real, total: real, denom: nat)
  {
    && Residual(demands, g) && OnGrid(g, denom) && Balanced(demands, g, node, amount)
    && Sum(Indices(demands), Drawn(g)) == total + At(Source, node, amount)
  }

  lemma PushStep(demands: seq<Demand>, g: Graph, e: Edge, amount: real, total: real, denom: nat)
    requires Pushing(demands, g, e.to, amount, total, denom) && Grid(amount, denom)
    requires e in g && e.to != Source && e.from != Sink && 0.0 <= amount <= g[e]
    ensures e.from != e.to && Back(e) in g
    ensures Pushing(demands, Push(g, e, amount), e.from, amount, total, denom)
  {
    PushBalances(demands, g, e, amount);
    PushDraws(demands, g, e, amount);
    PushResidual(demands, g, e, amount);
    PushOnGrid(g, e, amount, denom);
  }

  lemma PushEnds(demands: seq<Demand>, g: Graph, amount: real, total: real, denom: nat)
    ensures Carries(demands, g, total, denom) ==> Pushing(demands, g, Sink, amount, total, denom)
    ensures Pushing(demands, g, Source, amount, total, denom) ==> Carries(demands, g, total + amount, denom)
  {
    hide Residual, OnGrid, Balanced, Drawn, Indices, Sum;
    BalancedAtEnds(demands, g, amount);
  }

  /** What is missing at the ends of the network is missing nowhere else. */
  lemma BalancedAtEnds(demands: seq<Demand>, g: Graph, amount: real)
    ensures Balanced(demands, g, Sink, amount) == Balanced(demands, g, Sink, 0.0)
    ensures Balanced(demands, g, Source, amount) == Balanced(demands, g, Sink, 0.0)
  {
    hide Paid, Column, Flow, Drawn, Row, Facts, Sum;
  }

  /** Move `amount` along the tree path, from the sink back to the source. */
  method Augment(ghost demands: seq<Demand>, tree: Graph, parent: map<Node, Option<Node>>, ghost depth: map<Node, nat>,
                 amount: real, ghost total: real, ghost denom: nat)
    returns (g: Graph)
    requires Carries(demands, tree, total, denom) && Tree(tree, parent, depth) && Sink in parent
    requires 0.0 < amount && Grid(amount, denom) && OpenPath(tree, parent, depth, tree, Sink, amount)
    ensures Carries(demands, g, total + amount, denom)
  {
    hide Residual, Balanced, OnGrid;
    g := tree;
    var node := Sink;
    PushEnds(demands, g, amount, total, denom);
    while parent[node].Some?
      invariant node in parent && g.Keys == tree.Keys
      invariant Pushing(demands, g, node, amount, total, denom)
      invariant OpenPath(tree, parent, depth, g, node, amount)
      decreases depth[node]
    {
      var previous := parent[node].value;
      ghost var e := Edge(previous, node);
      PushStep(demands, g, e, amount, total, denom);
      PushKeepsPath(tree, parent, depth, g, e, amount, previous);
      ghost var before := g;
      g := g[Edge(previous, node) := g[Edge(previous, node)] - amount];
      g := g[Edge(node, previous) := g[Edge(node, previous)] + amount];
      assert g == Push(before, e, amount);
      node := previous;
    }
    PushEnds(demands, g, amount, total, denom);
  }

  lemma CarriedBounded(demands: seq<Demand>, g: Graph, total: real, denom: nat)
    requires Carries(demands, g, total, denom)
    ensures total <= Sum(Indices(demands), Amounts(demands))
  {
    forall i | i in Indices(demands) ensures Drawn(g)(i) <= Amounts(demands)(i) {
      assert Arc(demands, Edge(Source, Prediction(i)));
    }
    SumBelow(Indices(demands), Drawn(g), Amounts(demands));
  }

  ghost function Room(bound: real, total: real, denom: nat): int { ((bound - total) * denom as real).Floor }

  lemma RoomShrinks(bound: real, total: real, amount: real, denom: nat)
    requires denom > 0 && Grid(amount, denom) && amount > 0.0 && total + amount <= bound
    ensures 0 <= Room(bound, total + amount, denom) < Room(bound, total, denom)
  {
    GridPositive(amount, denom);
    var d := denom as real;
    assert (bound - total) * d == (bound - (total + amount)) * d + amount * d;
    assert (bound - (total + amount)) * d >= 0.0;
  }

  lemma CarriedOnGrid(demands: seq<Demand>, g: Graph, total: real, denom: nat)
    requires Carries(demands, g, total, denom)
    ensures OnGrid(g, denom)
  {
  }

  /** What is left for further augmentations, counted in units of the common denominator. */
  ghost function Left(demands: seq<Demand>, total: real, denom: nat): int
  {
    Room(Sum(Indices(demands), Amounts(demands)), total, denom)
  }

  /** One pass of the outer loop: search, and push along the path that was found. */
  method Pass(ghost demands: seq<Demand>, g0: Graph, total0: real, ghost denom: nat)
    returns (finished: bool, g: Graph, total: real)
    requires denom > 0 && Carries(demands, g0, total0, denom)
    ensures Carries(demands, g, total, denom)
    ensures finished ==> Optimum(demands, total)
    ensures !finished ==> 0 <= Left(demands, total, denom) < Left(demands, total0, denom)
  {
    hide *;
    g, total := g0, total0;
    var parent, depth := Search(g);
    finished := Sink !in parent;
    if finished {
      NoPathIsOptimal(demands, g, parent.Keys, total, denom);
    } else {
      CarriedOnGrid(demands, g, total, denom);
      var amount := Bottleneck(g, parent, depth, denom);
      g := Augment(demands, g, parent, depth, amount, total, denom);
      LeftShrinks(demands, g, total, amount, denom);
      total := total + amount;
    }
  }

  lemma LeftShrinks(demands: seq<Demand>, g: Graph, total: real, amount: real, denom: nat)
    requires denom > 0 && Grid(amount, denom) && amount > 0.0 && Carries(demands, g, total + amount, denom)
    ensures 0 <= Left(demands, total + amount, denom) < Left(demands, total, denom)
  {
    CarriedBounded(demands, g, total + amount, denom);
    RoomShrinks(Sum(Indices(demands), Amounts(demands)), total, amount, denom);
  }

  /** The loop of the program, for amounts that are multiples of `1 / denom`. */
  method Maximise(demands: seq<Demand>, ghost denom: nat) returns (total: real)
    requires denom > 0
    requires forall i :: 0 <= i < |demands| ==> demands[i].amount >= 0.0 && Grid(demands[i].amount, denom)
    ensures Optimum(demands, total)
  {
    var g := Build(demands, denom);
    FreshCarries(demands, g, denom);
    hide *;
    total := 0.0;
    var finished := false;
    while !finished
      invariant Carries(demands, g, total, denom)
      invariant finished ==> Optimum(demands, total)
      decreases !finished, Left(demands, total, denom)
    {
      finished, g, total := Pass(demands, g, total, denom);
    }
  }

  /**
   Maximum fractional matching in exact arithmetic: terminates for all rational
   amounts and returns the optimum.
   */
  method MaxCredit(demands: seq<Demand>) returns (total: real)
    requires forall i :: 0 <= i < |demands| ==> demands[i].amount >= 0.0 && Rational(demands[i].amount)
    ensures Optimum(demands, total)
  {
    ghost var amounts := seq(|demands|, i requires 0 <= i < |demands| => demands[i].amount);
    ghost var denom := CommonDenominator(amounts);
    hide *;
    forall i | 0 <= i < |demands|
      ensures Grid(demands[i].amount, denom)
    {
      assert Grid(amounts[i], denom);
    }
    total := Maximise(demands, denom);
  }

  /** The optimum is unique and lies between zero and the number of demands. */
  lemma OptimumBounds(demands: seq<Demand>, total: real)
    requires Optimum(demands, total)
    requires forall i :: 0 <= i < |demands| ==> 0.0 <= demands[i].amount <= 1.0
    ensures 0.0 <= total <= |demands| as real
    ensures forall other :: Optimum(demands, other) ==> other == total
  {
    var y: Pair -> real :| Feasible(demands, y) && Total(demands, y) == total;
    SumNonNegative(Pairs(demands), y);
    SumByRows(demands, Indices(demands), y);
    assert PairsOfRows(demands, Indices(demands)) == Pairs(demands);
    SumOnes(Indices(demands), RowSums(demands, y));
    CountIndices(demands);
    forall other | Optimum(demands, other)
      ensures other == total
    {
      var z: Pair -> real :| Feasible(demands, z) && Total(demands, z) == other;
    }
  }

  lemma {:induction false} CountIndices(demands: seq<Demand>)
    ensures |Indices(demands)| == |demands|
    decreases |demands|
  {
    if demands == [] {
      assert Indices(demands) == {};
    } else {
      var n := |demands| - 1;
      CountIndices(demands[..n]);
      assert Indices(demands) == Indices(demands[..n]) + {n as nat};
    }
  }
}
