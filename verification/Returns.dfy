/** Sales and their returns: one small model and database on which the planner's limits show as wrong numbers. */
module Returns {
  import opened Fields
  import opened Options
  import opened JoinGraph
  import opened JoinTree
  import opened Relational
  import opened Seqs
  import opened Terms
  import opened SideQuery
  import opened Composite
  import opened Build

  /** Returns refer to sales; a ratio over sales, then a count of returns. */
  function MovingModel(): Model {
    Model(["sales", "returns"], [Relationship("returns", "sales", ["sale"], ["id"], Inner)], map["sales" := ["id"], "returns" := ["id"]])
  }

  function SumOf(ds: Dataset, f: string): AggTerm {
    AggTerm("SUM", false, f, [FieldRef(ds, f)])
  }

  function MovingMetrics(): seq<Metric> {
    [Metric("margin", SumOf("sales", "profit"), Some(SumOf("sales", "price"))), Metric("refunds", SumOf("returns", "amount"), None)]
  }

  /**
   The root can move: the ratio over sales is accepted for the single pass while
   sales is the root, the later metric makes returns the root, and the ratio's
   sums then run over rows the join repeats once per return.
   */
  lemma RootCanMove()
    ensures var m, ctx, ms := MovingModel(), Context("", [], [], []), MovingMetrics();
            && Acyclic(m.rels)
            && SafeRoot(m, BaseAfter(m, ctx, ms, 0) + MetricDatasets(ms[0]), ms[0], "sales")
            && InlineOf(m, ctx, ms, 2) == ms
            && IsRoot(m, BaseAfter(m, ctx, ms, 2), "returns")
            && !TermSafe(ms[0].numerator, "returns")
  {
    MovingAcyclic();
    MovingRoots();
    MovingFirst();
    MovingBases();
    OffRootUnsafe("profit");
  }

  lemma OffRootUnsafe(f: string)
    ensures !TermSafe(SumOf("sales", f), "returns")
  {
    assert |"sales"| != |"returns"|;
    assert SumOf("sales", f).refs[0].dataset == "sales";
  }

  lemma MovingFirst()
    ensures var m, ctx, ms := MovingModel(), Context("", [], [], []), MovingMetrics();
            BaseAfter(m, ctx, ms, 0) + MetricDatasets(ms[0]) == {"sales"} && SafeRoot(m, {"sales"}, ms[0], "sales")
  {
    MovingRoots();
    RefOne("sales", "profit");
    RefOne("sales", "price");
    assert BaseAfter(MovingModel(), Context("", [], [], []), MovingMetrics(), 0) == {};
  }

  lemma MovingBases()
    ensures var m, ctx, ms := MovingModel(), Context("", [], [], []), MovingMetrics();
            BaseAfter(m, ctx, ms, 2) == {"sales", "returns"} && InlineOf(m, ctx, ms, 2) == ms
  {
    var m, ctx, ms := MovingModel(), Context("", [], [], []), MovingMetrics();
    MovingFirst();
    RefOne("returns", "amount");
    var base := BaseAfter(m, ctx, ms, 1);
    assert Inlined(m, BaseAfter(m, ctx, ms, 0), ms[0]) && Inlined(m, base, ms[1]);
    assert base == {"sales"};
    assert InlineOf(m, ctx, ms, 2) == InlineOf(m, ctx, ms, 1) + [ms[1]] && InlineOf(m, ctx, ms, 1) == InlineOf(m, ctx, ms, 0) + [ms[0]];
  }

  lemma MovingRoots()
    ensures IsRoot(MovingModel(), {"sales"}, "sales") && Connectable(MovingModel().rels, MovingModel().order, {"sales"})
    ensures IsRoot(MovingModel(), {"sales", "returns"}, "returns")
  {
    var m := MovingModel();
    var rels := m.rels;
    var one, two: set<Dataset> := {"sales"}, {"sales", "returns"};
    ReachesSelf(rels, "sales");
    ReachesSelf(rels, "returns");
    assert Edge(rels, "returns", "sales") by {
      assert rels[0].from == "returns" && rels[0].to == "sales";
    }
    ReachesStep(rels, "returns", "returns", "sales");
    assert Covers(rels, "sales", one) && Covers(rels, "returns", two);
    SalesReachNothing();
    assert m.order[0] == "sales";
    MovingSelected(one);
    MovingSelected(two);
    assert Candidates(m.order, one)[0] == "sales";
    var c := Candidates(m.order, two);
    assert c[0] == "sales" && c[1] == "returns";
  }

  lemma MovingSelected(required: set<Dataset>)
    requires "sales" in required
    ensures Selected(["sales", "returns"], required) == ["sales"] + if "returns" in required then ["returns"] else []
  {
    var order := ["sales", "returns"];
    assert order[..1] == ["sales"] && ["sales"][..0] == [];
    assert Selected(["sales"], required) == Selected([], required) + ["sales"];
  }

  lemma SalesReachNothing()
    ensures !Covers(MovingModel().rels, "sales", {"sales", "returns"})
  {
    var rels := MovingModel().rels;
    if Reaches(rels, "sales", "returns") {
      var p :| PathBetween(rels, p, "sales", "returns");
      ClosedHoldsPath(rels, {"sales"}, p);
    }
  }

  lemma RefOne(ds: Dataset, f: string)
    ensures RefDatasets(SumOf(ds, f).refs) == {ds}
  {
    assert SumOf(ds, f).refs[0].dataset == ds;
  }

  lemma MovingAcyclic()
    ensures Acyclic(MovingModel().rels)
  {
    var rels := MovingModel().rels;
    forall p | IsPath(rels, p) && |p| >= 2 ensures p[0] != p[|p| - 1] {
      assert Edge(rels, p[0], p[0 + 1]);
      assert Edge(rels, p[|p| - 2], p[|p| - 2 + 1]);
    }
  }

  // ------------------------------------------------------ a database

  /** A real sum: the numbers of a bag added up, in whatever order. */
  ghost function Total(b: multiset<Value>): int
    decreases |b|
  {
    if b == multiset{} then 0 else var v :| v in b; NumberOf(v) + Total(b - multiset{v})
  }

  function NumberOf(v: Value): int {
    if v.Num? then v.n else 0
  }

  lemma TotalPicks(b: multiset<Value>) returns (w: Value)
    requires b != multiset{}
    ensures w in b && Total(b) == NumberOf(w) + Total(b - multiset{w})
  {
    w :| w in b && Total(b) == NumberOf(w) + Total(b - multiset{w});
  }

  lemma RemoveTwo(b: multiset<Value>, v: Value, w: Value)
    ensures b - multiset{w} - multiset{v} == b - multiset{v} - multiset{w}
  {}

  lemma {:induction false} TotalPick(b: multiset<Value>, v: Value)
    requires v in b
    ensures Total(b) == NumberOf(v) + Total(b - multiset{v})
    decreases |b|
  {
    var w := TotalPicks(b);
    if w != v {
      TotalPick(b - multiset{w}, v);
      TotalPick(b - multiset{v}, w);
      RemoveTwo(b, v, w);
    }
  }

  lemma TotalMore(vals: seq<Value>, v: Value)
    ensures Total(multiset(vals + [v])) == Total(multiset(vals)) + NumberOf(v)
  {
    var b := multiset(vals + [v]);
    TotalPick(b, v);
    assert b - multiset{v} == multiset(vals);
  }

  /** Fields are columns, scalars are single references, aggregates are sums, and every test passes. */
  ghost function SumSem(): Sem {
    Sem((ref: FieldRef, row) => Col(row, ref.field), (text, xs) => if |xs| == 1 then xs[0] else Null, (func, b) => Num(Total(b)),
        (pred, row) => true, (op, v, vs) => true, (grain, v) => v)
  }

  function Sale(id: int, profit: int): Row {
    map["id" := Num(id), "price" := Num(5), "profit" := Num(profit)]
  }

  function Return(sale: int): Row {
    map["sale" := Num(sale), "kind" := Text("size")]
  }

  /** Two sales of five; the first comes back in two parts, the second in one. */
  function ReturnsDb(): Database {
    map["sales" := [Sale(1, 1), Sale(2, 4)], "returns" := [Return(1), Return(1), Return(2)]]
  }

  /** The database holds those sales and returns. */
  predicate Returned(db: Database) {
    Table(db, "sales") == [Sale(1, 1), Sale(2, 4)] && Table(db, "returns") == [Return(1), Return(1), Return(2)]
  }

  function ReturnsTree(): Tree {
    Tree("returns", MovingModel().rels)
  }

  function Pair(sale: int, profit: int): Joined {
    map["returns" := Some(Return(sale)), "sales" := Some(Sale(sale, profit))]
  }

  lemma FilterTwo<A(!new)>(p: A -> bool, a: A, b: A)
    ensures Filter(p, [a, b]) == (if p(a) then [a] else []) + if p(b) then [b] else []
  {
    assert [a] + [b] == [a, b] && [] + [a] == [a];
    FilterLast(p, [a], b);
    FilterLast(p, [], a);
  }

  /** A return is joined with the sale it names. */
  lemma ReturnOn(sale: int, n: int, profit: int)
    ensures On(MovingModel().rels[0], Start("returns", Return(sale)), Sale(n, profit)) <==> n == sale
  {
    var rel, j := MovingModel().rels[0], Start("returns", Return(sale));
    assert Tuple(Sale(n, profit), rel.toColumns) == [Num(n)] && Tuple(Bound(j, "returns"), rel.fromColumns) == [Num(sale)];
  }

  lemma ReturnExtends(db: Database, sale: int, profit: int)
    requires Returned(db)
    requires (sale == 1 && profit == 1) || (sale == 2 && profit == 4)
    ensures Extend(db, MovingModel().rels[0], Start("returns", Return(sale))) == [Pair(sale, profit)]
  {
    var rel, j := MovingModel().rels[0], Start("returns", Return(sale));
    ReturnOn(sale, 1, 1);
    ReturnOn(sale, 2, 4);
    FilterTwo((r: Row) => On(rel, j, r), Sale(1, 1), Sale(2, 4));
    assert j["sales" := Some(Sale(sale, profit))] == Pair(sale, profit);
  }

  lemma SaleOf(db: Database, sale: int, profit: int)
    requires Returned(db)
    requires (sale == 1 && profit == 1) || (sale == 2 && profit == 4)
    ensures FromRow(db, ReturnsTree(), Return(sale)) == [Pair(sale, profit)]
  {
    var rel, j := MovingModel().rels[0], Start("returns", Return(sale));
    ReturnExtends(db, sale, profit);
    OneJoin(db, rel, j);
  }

  lemma OneJoin(db: Database, rel: Relationship, j: Joined)
    ensures EvalJoins(db, [rel], [j]) == Extend(db, rel, j)
  {
    FlatMapOne((j: Joined) => Extend(db, rel, j), j);
    assert [rel][1..] == [] && [rel][0] == rel;
  }

  lemma FlatMapThree<A(!new), B(!new)>(f: A -> seq<B>, a: A, b: A, c: A)
    ensures FlatMap(f, [a, b, c]) == f(a) + f(b) + f(c)
  {
    assert [a, b] + [c] == [a, b, c] && [a] + [b] == [a, b];
    FlatMapLast(f, [a, b], c);
    FlatMapLast(f, [a], b);
    FlatMapOne(f, a);
  }

  /** Each sale is joined once a return. */
  lemma ReturnsJoined(db: Database)
    requires Returned(db)
    ensures EvalFrom(db, ReturnsTree()) == [Pair(1, 1), Pair(1, 1), Pair(2, 4)]
  {
    var tree := ReturnsTree();
    ReturnsPerRow(db);
    FlatMapThree(r => FromRow(db, tree, r), Return(1), Return(1), Return(2));
    SaleOf(db, 1, 1);
    SaleOf(db, 2, 4);
    assert [Pair(1, 1)] + [Pair(1, 1)] + [Pair(2, 4)] == [Pair(1, 1), Pair(1, 1), Pair(2, 4)];
  }

  lemma ReturnsPerRow(db: Database)
    requires Returned(db)
    ensures EvalFrom(db, ReturnsTree()) == FlatMap(r => FromRow(db, ReturnsTree(), r), [Return(1), Return(1), Return(2)])
  {
    assert Table(db, "returns") == [Return(1), Return(1), Return(2)];
    FromIsPerRow(db, ReturnsTree(), Table(db, "returns"));
  }

  /** The database keeps what the model declares. */
  lemma ReturnsSound(db: Database)
    requires Returned(db)
    ensures ToKeyed(db, ReturnsTree().joins) && PrimaryKey(Table(db, "sales"), ["id"]) && AllInner(ReturnsTree())
  {
    var table := Table(db, "sales");
    assert table == [Sale(1, 1), Sale(2, 4)];
    assert Tuple(table[0], ["id"]) == [Num(1)] && Tuple(table[1], ["id"]) == [Num(2)];
    assert [Num(1)][0] != [Num(2)][0];
    assert KeyOf(table, ["id"]);
    forall k | 0 <= k < |ReturnsTree().joins| ensures KeyOf(Table(db, ReturnsTree().joins[k].to), ReturnsTree().joins[k].toColumns) {
      assert k == 0;
    }
  }

  lemma ReturnsPlanned()
    ensures IsJoinTree(MovingModel().rels, {"sales", "returns"}, ReturnsTree())
    ensures InTree(ReturnsTree()) == {"sales", "returns"}
  {
    var t := ReturnsTree();
    assert t.joins[0] in MovingModel().rels;
    assert BoundBy(t.root, t.joins, 0, t.joins[0].from);
    assert |"sales"| != |"returns"|;
    assert t.joins[0].to == "sales";
  }

  /** With one relationship there is one tree that joins its target from elsewhere. */
  lemma OneRelTree(rel: Relationship, required: set<Dataset>, t: Tree)
    requires IsJoinTree([rel], required, t) && rel.to in required && rel.to != t.root
    ensures t.joins == [rel]
  {
    var k :| 0 <= k < |t.joins| && t.joins[k].to == rel.to;
    forall i | 0 <= i < |t.joins| ensures t.joins[i] == rel && i == k {
      assert t.joins[i] in [rel] && t.joins[i].to == t.joins[k].to;
    }
  }

  lemma OnlyTree()
    ensures Planned(MovingModel().rels, {"sales", "returns"}, ReturnsTree())
  {
    var rels := MovingModel().rels;
    MovingRoots();
    RootInOrder(MovingModel(), {"sales", "returns"}, "returns");
    var t := PlannedFrom(rels, {"sales", "returns"}, "returns");
    assert |"sales"| != |"returns"|;
    OneRelTree(rels[0], {"sales", "returns"}, t);
    assert rels == [rels[0]] && t == ReturnsTree();
  }

  // ------------------------------------------------------ its numbers

  /** A term over one column of the sales. */
  predicate OverSales(t: AggTerm, column: string) {
    t.refs == [FieldRef("sales", column)]
  }

  lemma SaleVal(t: AggTerm, column: string, row: Row)
    requires OverSales(t, column)
    ensures RowTermVal(SumSem(), t, row) == Col(row, column)
  {
    var sem := SumSem();
    assert Map(ref => sem.field(ref, row), t.refs) == [Col(row, column)];
  }

  /** Both joined sales fall into group `k`. */
  ghost predicate BothIn(ctx: Context, k: seq<Value>) {
    InGroup(SumSem(), ctx, [], k, Pair(1, 1)) && InGroup(SumSem(), ctx, [], k, Pair(2, 4))
  }

  lemma SaleLinked(db: Database, ctx: Context, k: seq<Value>, sale: int, profit: int)
    requires Returned(db)
    requires BothIn(ctx, k) && ((sale == 1 && profit == 1) || (sale == 2 && profit == 4))
    ensures Linked(db, ReturnsTree(), "sales", (j: Joined) => InGroup(SumSem(), ctx, [], k, j), Sale(sale, profit))
  {
    ReturnsJoined(db);
    var rows := [Pair(1, 1), Pair(1, 1), Pair(2, 4)];
    assert rows[0] == Pair(1, 1) && rows[2] == Pair(2, 4);
    assert Pair(sale, profit) in EvalFrom(db, ReturnsTree()) && Pair(sale, profit)["sales"] == Some(Sale(sale, profit));
  }

  lemma SalesOnce(db: Database, ctx: Context, k: seq<Value>)
    requires Returned(db)
    requires BothIn(ctx, k)
    ensures OnceRows(db, ReturnsTree(), "sales", (j: Joined) => InGroup(SumSem(), ctx, [], k, j)) == [Sale(1, 1), Sale(2, 4)]
  {
    var p := (j: Joined) => InGroup(SumSem(), ctx, [], k, j);
    SaleLinked(db, ctx, k, 1, 1);
    SaleLinked(db, ctx, k, 2, 4);
    assert Table(db, "sales") == [Sale(1, 1), Sale(2, 4)];
    FilterTwo((r: Row) => Linked(db, ReturnsTree(), "sales", p, r), Sale(1, 1), Sale(2, 4));
  }

  /** Taken once per sale. */
  lemma OnceOver(db: Database, ctx: Context, k: seq<Value>, t: AggTerm, column: string, distinct: bool)
    requires Returned(db)
    requires BothIn(ctx, k) && OverSales(t, column)
    ensures OnceValue(SumSem(), ctx, db, ReturnsTree(), [], t, distinct, "sales", k)
         == Aggregate(SumSem(), t.func, distinct, [Col(Sale(1, 1), column), Col(Sale(2, 4), column)])
  {
    SalesOnce(db, ctx, k);
    SaleVal(t, column, Sale(1, 1));
    SaleVal(t, column, Sale(2, 4));
    assert Map(r => RowTermVal(SumSem(), t, r), [Sale(1, 1), Sale(2, 4)]) == [Col(Sale(1, 1), column), Col(Sale(2, 4), column)];
  }

  lemma TotalOf2(a: int, b: int)
    ensures Total(multiset([Num(a), Num(b)])) == a + b
  {
    assert [] + [Num(a)] == [Num(a)] && [Num(a)] + [Num(b)] == [Num(a), Num(b)];
    TotalMore([], Num(a));
    TotalMore([Num(a)], Num(b));
  }

  lemma TotalOf3(a: int, b: int, c: int)
    ensures Total(multiset([Num(a), Num(b), Num(c)])) == a + b + c
  {
    TotalOf2(a, b);
    assert [Num(a), Num(b)] + [Num(c)] == [Num(a), Num(b), Num(c)];
    TotalMore([Num(a), Num(b)], Num(c));
  }

  lemma SumOf2(a: int, b: int)
    ensures Aggregate(SumSem(), "SUM", false, [Num(a), Num(b)]) == Num(a + b)
  {
    TotalOf2(a, b);
  }

  lemma DistinctSumOf(a: int)
    ensures Aggregate(SumSem(), "SUM", true, [Num(a), Num(a)]) == Num(a)
  {
    var vals := [Num(a), Num(a)];
    assert vals[0] in vals;
    assert (set v | v in vals) == {Num(a)};
    assert multiset({Num(a)}) == multiset([Num(a)]) && [] + [Num(a)] == [Num(a)];
    TotalMore([], Num(a));
  }

  /** The context without dimensions or filters. */
  function Plainly(): Context { Context("", [], [], []) }

  /** In one pass, once per return. */
  lemma PassOver(db: Database, t: AggTerm, column: string)
    requires Returned(db)
    requires OverSales(t, column) && !t.distinct
    ensures SideValue(SumSem(), Plainly(), db, Direct(ReturnsTree(), [], t), [])
         == Aggregate(SumSem(), t.func, false, [Col(Sale(1, 1), column), Col(Sale(1, 1), column), Col(Sale(2, 4), column)])
  {
    var ctx, all := Plainly(), [Pair(1, 1), Pair(1, 1), Pair(2, 4)];
    ReturnsJoined(db);
    GroupFilter(SumSem(), ctx, [], [], all);
    AllPass(ctx, all);
    PassVals3(t, column);
  }

  lemma PassVals3(t: AggTerm, column: string)
    requires OverSales(t, column)
    ensures Map((j: Joined) => TermVal(SumSem(), t, j), [Pair(1, 1), Pair(1, 1), Pair(2, 4)])
         == [Col(Sale(1, 1), column), Col(Sale(1, 1), column), Col(Sale(2, 4), column)]
  {
    PairVal(t, column, 1, 1);
    PairVal(t, column, 2, 4);
  }

  lemma PairVal(t: AggTerm, column: string, sale: int, profit: int)
    requires OverSales(t, column)
    ensures TermVal(SumSem(), t, Pair(sale, profit)) == Col(Sale(sale, profit), column)
  {
    TermValIsRowTermVal(SumSem(), t, "sales", Pair(sale, profit));
    SaleVal(t, column, Sale(sale, profit));
  }

  lemma {:induction false} AllPass(ctx: Context, rows: seq<Joined>)
    requires ctx.dims == []
    ensures Filter((j: Joined) => InGroup(SumSem(), ctx, [], [], j), rows) == rows
  {
    if rows != [] {
      var l := |rows| - 1;
      assert rows == rows[..l] + [rows[l]];
      AllPass(ctx, rows[..l]);
      FilterLast((j: Joined) => InGroup(SumSem(), ctx, [], [], j), rows[..l], rows[l]);
    }
  }

  /** Revenue over sales, not a ratio, and refunds over returns. */
  function RevenueMetrics(): seq<Metric> {
    [Metric("revenue", SumOf("sales", "price"), None), Metric("refunds", SumOf("returns", "amount"), None)]
  }

  lemma PassPlans(ms: seq<Metric>)
    ensures PlansFlat(MovingModel(), Plainly(), {"sales", "returns"}, Flat(ReturnsTree(), [], ms, []))
  {
    ReturnsPlanned();
    OnlyTree();
    MovingRoots();
    NoConditions(Plainly());
  }

  lemma RevenueBases()
    ensures BaseAfter(MovingModel(), Plainly(), RevenueMetrics(), 2) == {"sales", "returns"}
    ensures InlineOf(MovingModel(), Plainly(), RevenueMetrics(), 2) == RevenueMetrics()
  {
    var m, ctx, ms := MovingModel(), Plainly(), RevenueMetrics();
    RefOne("sales", "price");
    RefOne("returns", "amount");
    assert Inlined(m, BaseAfter(m, ctx, ms, 0), ms[0]) && Inlined(m, BaseAfter(m, ctx, ms, 1), ms[1]);
    assert BaseAfter(m, ctx, ms, 0) == {} && BaseAfter(m, ctx, ms, 1) == {"sales"};
    assert InlineOf(m, ctx, ms, 1) == [ms[0]] && InlineOf(m, ctx, ms, 2) == [ms[0]] + [ms[1]] == ms;
  }

  lemma ReturnsHeld()
    ensures Returned(ReturnsDb())
  {
  }

  /**
   A metric that is no ratio is not checked for fan-out: asked for together with refunds, revenue is summed once per
   return, and reads 15 where the sales add up to 10.
   */
  lemma RevenueInflated()
    ensures var m, ctx, ms, db := MovingModel(), Plainly(), RevenueMetrics(), ReturnsDb();
            var f := Flat(ReturnsTree(), [], ms, []);
            && InlineOf(m, ctx, ms, 2) == ms && PlansFlat(m, ctx, BaseAfter(m, ctx, ms, 2), f)
            && ToKeyed(db, f.tree.joins) && PrimaryKey(Table(db, "sales"), ["id"])
            && SideValue(SumSem(), ctx, db, Direct(f.tree, f.conds, ms[0].numerator), []) == Num(15)
            && OnceValue(SumSem(), ctx, db, f.tree, f.conds, ms[0].numerator, false, "sales", []) == Num(10)
  {
    RevenueBases();
    PassPlans(RevenueMetrics());
    ReturnsHeld();
    ReturnsSound(ReturnsDb());
    PriceSums(ReturnsDb(), SumOf("sales", "price"));
  }

  lemma PriceSums(db: Database, t: AggTerm)
    requires Returned(db)
    requires t == SumOf("sales", "price")
    ensures SideValue(SumSem(), Plainly(), db, Direct(ReturnsTree(), [], t), []) == Num(15)
    ensures OnceValue(SumSem(), Plainly(), db, ReturnsTree(), [], t, false, "sales", []) == Num(10)
  {
    PassOver(db, t, "price");
    OnceOver(db, Plainly(), [], t, "price", false);
    SalePrices();
    SumOf3(5, 5, 5);
    SumOf2(5, 5);
  }

  lemma ProfitSums(db: Database, t: AggTerm)
    requires Returned(db)
    requires t == SumOf("sales", "profit")
    ensures SideValue(SumSem(), Plainly(), db, Direct(ReturnsTree(), [], t), []) == Num(6)
    ensures OnceValue(SumSem(), Plainly(), db, ReturnsTree(), [], t, false, "sales", []) == Num(5)
  {
    PassOver(db, t, "profit");
    OnceOver(db, Plainly(), [], t, "profit", false);
    SalePrices();
    SumOf3(1, 1, 4);
    SumOf2(1, 4);
  }

  lemma SalePrices()
    ensures forall n, g :: Col(Sale(n, g), "price") == Num(5) && Col(Sale(n, g), "profit") == Num(g)
  {
  }

  lemma SumOf3(a: int, b: int, c: int)
    ensures Aggregate(SumSem(), "SUM", false, [Num(a), Num(b), Num(c)]) == Num(a + b + c)
  {
    TotalOf3(a, b, c);
  }

  lemma MarginValue(db: Database, div: (Value, Value) -> Value)
    requires Returned(db)
    ensures InlineVal(Env(SumSem(), div, Plainly(), db), ReturnsTree(), [], MovingMetrics()[0], []) == div(Num(6), Num(15))
  {
    PriceSums(db, SumOf("sales", "price"));
    ProfitSums(db, SumOf("sales", "profit"));
  }

  /** When the root moves, the inlined margin divides 6 by 15 where its sides are 5 and 10. */
  lemma MovedMarginWrong(div: (Value, Value) -> Value)
    ensures var m, ctx, ms, db := MovingModel(), Plainly(), MovingMetrics(), ReturnsDb();
            var f := Flat(ReturnsTree(), [], ms, []);
            && InlineOf(m, ctx, ms, 2) == ms && PlansFlat(m, ctx, BaseAfter(m, ctx, ms, 2), f) && ToKeyed(db, f.tree.joins)
            && InlineVal(Env(SumSem(), div, ctx, db), f.tree, f.conds, ms[0], []) == div(Num(6), Num(15))
            && OnceValue(SumSem(), ctx, db, f.tree, f.conds, SumOf("sales", "profit"), false, "sales", []) == Num(5)
            && OnceValue(SumSem(), ctx, db, f.tree, f.conds, SumOf("sales", "price"), false, "sales", []) == Num(10)
            && ms[0] == Metric("margin", SumOf("sales", "profit"), Some(SumOf("sales", "price")))
  {
    MovingBases();
    PassPlans(MovingMetrics());
    ReturnsHeld();
    ReturnsSound(ReturnsDb());
    MarginValue(ReturnsDb(), div);
    PriceSums(ReturnsDb(), SumOf("sales", "price"));
    ProfitSums(ReturnsDb(), SumOf("sales", "profit"));
  }

  // ------------------------------------------------------ a dropped DISTINCT

  /** Grouped by the kind of return. */
  function ByKind(): Context { Context("", [DimSpec(FieldRef("returns", "kind"), false)], [], []) }

  function DistinctPrices(): AggTerm {
    AggTerm("SUM", true, "price", [FieldRef("sales", "price")])
  }

  function PricesSide(): Side {
    Dedup(ReturnsTree(), [], "sales", ["id"], DistinctPrices())
  }

  lemma OneDataset(t: AggTerm, ds: Dataset)
    requires |t.refs| == 1 && t.refs[0].dataset == ds
    ensures TermDatasets(t) == [ds] && RefDatasets(t.refs) == {ds}
  {
    var names := Map((r: FieldRef) => r.dataset, t.refs);
    assert names == [ds] && [ds][..0] == [];
    assert Distinct([ds]) == [ds];
  }

  lemma PricesRequired()
    ensures SideRequired(ByKind(), DistinctPrices()) == {"sales", "returns"}
  {
    var t, ctx := DistinctPrices(), ByKind();
    OneDataset(t, "sales");
    assert ctx.dims[0].ref.dataset == "returns";
    assert DimDatasets(ctx.dims) == {"returns"};
  }

  lemma PricesTree()
    ensures IsJoinTree(MovingModel().rels, SideRequired(ByKind(), DistinctPrices()), ReturnsTree())
    ensures IsRoot(MovingModel(), SideRequired(ByKind(), DistinctPrices()), "returns")
    ensures Planned(MovingModel().rels, SideRequired(ByKind(), DistinctPrices()), ReturnsTree())
  {
    ReturnsPlanned();
    OnlyTree();
    MovingRoots();
    PricesRequired();
  }

  lemma NoConditions(ctx: Context)
    requires ctx.filters == [] && ctx.groups == []
    ensures forall sem, j :: Where(sem, [], j) <==> Admits(sem, ctx.filters, ctx.groups, j)
  {
  }

  lemma PricesDeduplicated()
    ensures !OnePass(DistinctPrices(), "returns") && TermDatasets(DistinctPrices()) == ["sales"]
  {
    OneDataset(DistinctPrices(), "sales");
    assert |"sales"| != |"returns"| && ["sales"][0] != ["returns"][0];
    assert |"SUM"| != |"COUNT"|;
  }

  lemma SidePlans(m: Model, ctx: Context, t: AggTerm, s: Side)
    requires s.Dedup? && s.term == t && s.conds == [] && ctx.filters == [] && ctx.groups == []
    requires IsJoinTree(m.rels, SideRequired(ctx, t), s.tree) && Planned(m.rels, SideRequired(ctx, t), s.tree)
    requires IsRoot(m, SideRequired(ctx, t), s.tree.root) && !OnePass(t, s.tree.root)
    requires TermDatasets(t) == [s.measure] && s.pk == PrimaryKeyOf(m, s.measure) != []
    ensures PlansSide(m, ctx, t, s)
  {
    NoConditions(ctx);
  }

  lemma PricesPlanned()
    ensures PlansSide(MovingModel(), ByKind(), DistinctPrices(), PricesSide()) && TermDatasets(DistinctPrices()) == ["sales"]
  {
    PricesTree();
    PricesDeduplicated();
    assert PrimaryKeyOf(MovingModel(), "sales") == ["id"];
    SidePlans(MovingModel(), ByKind(), DistinctPrices(), PricesSide());
  }

  lemma DistinctSums(db: Database)
    requires Returned(db)
    ensures SideSound(SumSem(), db, PricesSide())
    ensures SideValue(SumSem(), ByKind(), db, PricesSide(), [Text("size")]) == Num(10)
    ensures OnceValue(SumSem(), ByKind(), db, ReturnsTree(), [], DistinctPrices(), true, "sales", [Text("size")]) == Num(5)
  {
    var k := [Text("size")];
    ReturnsSound(db);
    ReturnsPlanned();
    KindOf(1, 1);
    KindOf(2, 4);
    DedupValue(SumSem(), ByKind(), db, PricesSide(), k);
    OnceOver(db, ByKind(), k, DistinctPrices(), "price", false);
    OnceOver(db, ByKind(), k, DistinctPrices(), "price", true);
    SalePrices();
    SumOf2(5, 5);
    DistinctSumOf(5);
  }

  /** SUM(DISTINCT price) by kind of return, over two sales of five: the deduplicating side answers 10, the DISTINCT sum is 5. */
  lemma DistinctSumDoubled()
    ensures var k := [Text("size")];
            && PlansSide(MovingModel(), ByKind(), DistinctPrices(), PricesSide())
            && SideSound(SumSem(), ReturnsDb(), PricesSide())
            && SideValue(SumSem(), ByKind(), ReturnsDb(), PricesSide(), k) == Num(10)
            && OnceValue(SumSem(), ByKind(), ReturnsDb(), ReturnsTree(), [], DistinctPrices(), true, "sales", k) == Num(5)
  {
    PricesPlanned();
    ReturnsHeld();
    DistinctSums(ReturnsDb());
  }

  lemma KindOf(sale: int, profit: int)
    ensures InGroup(SumSem(), ByKind(), [], [Text("size")], Pair(sale, profit))
  {
    var ctx, j := ByKind(), Pair(sale, profit);
    assert DimVal(SumSem(), "", ctx.dims[0], j) == Text("size");
    assert DimTuple(SumSem(), ctx.grain, ctx.dims, j) == [Text("size")];
  }

  // ------------------------------------------------------ a ratio asked for twice

  /** Refunds over revenue: its denominator is not on the root. */
  function RefundRate(): Metric {
    Metric("rate", SumOf("returns", "amount"), Some(SumOf("sales", "price")))
  }

  lemma RateSplit(n: nat)
    requires n <= 2
    ensures var m, ms := MovingModel(), [RefundRate(), RefundRate()];
            && BaseAfter(m, Plainly(), ms, n) == {} && InlineOf(m, Plainly(), ms, n) == [] && SplitOf(m, Plainly(), ms, n) == ms[..n]
  {
    if n > 0 {
      var m, ms := MovingModel(), [RefundRate(), RefundRate()];
      RateSplit(n - 1);
      RateNotInlined(ms[n - 1]);
      assert ms[..n] == ms[..n - 1] + [ms[n - 1]];
    }
  }

  lemma RateNotInlined(mt: Metric)
    requires mt == RefundRate()
    ensures !Inlined(MovingModel(), {}, mt)
  {
    var m := MovingModel();
    RefOne("sales", "price");
    RefOne("returns", "amount");
    assert MetricDatasets(mt) == {"sales", "returns"} && {} + MetricDatasets(mt) == {"sales", "returns"};
    forall root | SafeRoot(m, {"sales", "returns"}, mt, root) ensures false {
      MovingRoots();
      FirstCoverUnique(m, {"sales", "returns"}, root, "returns");
      OffRootUnsafe("price");
    }
  }

  lemma SidePlannable(ds: Dataset, column: string)
    requires ds == "sales" || ds == "returns"
    ensures Plannable(MovingModel(), Plainly(), SumOf(ds, column))
  {
    var m, t := MovingModel(), SumOf(ds, column);
    RefOne(ds, column);
    assert SideRequired(Plainly(), t) == {ds};
    OneRoots(ds);
    OneDataset(t, ds);
    forall root | IsRoot(m, {ds}, root) ensures OnePass(t, root) {
      FirstCoverUnique(m, {ds}, root, ds);
    }
  }

  lemma OneRoots(ds: Dataset)
    requires ds == "sales" || ds == "returns"
    ensures IsRoot(MovingModel(), {ds}, ds) && Connectable(MovingModel().rels, MovingModel().order, {ds})
  {
    var m := MovingModel();
    if ds == "sales" {
      MovingRoots();
    } else {
      ReachesSelf(m.rels, "returns");
      assert Covers(m.rels, "returns", {"returns"}) && m.order[1] == "returns";
      ReturnsSelected();
      assert Candidates(m.order, {"returns"})[0] == "returns";
    }
  }

  lemma ReturnsSelected()
    ensures Selected(["sales", "returns"], {"returns"}) == ["returns"]
  {
    var order := ["sales", "returns"];
    assert order[..1] == ["sales"] && ["sales"][..0] == [] && |"sales"| != |"returns"|;
    assert Selected(["sales"], {"returns"}) == [] && [] + ["returns"] == ["returns"];
  }

  /** One split ratio asked for twice is planned, with two tables of one name. */
  method PlanRateTwice() returns (q: Query)
    ensures PlansQuery(MovingModel(), Plainly(), {}, [], [RefundRate(), RefundRate()], ["rate", "rate"], [], q)
    ensures |q.ctes| == 4 && q.ctes[0].name == q.ctes[2].name && q.ctes[1].name == q.ctes[3].name && !DistinctCtes(q.ctes)
  {
    var m, ms := MovingModel(), [RefundRate(), RefundRate()];
    RateSplit(2);
    assert ms[..2] == ms;
    SidePlannable("returns", "amount");
    SidePlannable("sales", "price");
    assert FirstPlannable(m, Plainly(), ms, 0) && FirstPlannable(m, Plainly(), ms, 1) && FirstPlannable(m, Plainly(), ms, 2);
    var r := BuildPlan(m, Plainly(), ms, []);
    q := r.value.query;
    assert Map((mt: Metric) => mt.name, ms) == ["rate", "rate"];
    PlansAreShaped(m, Plainly(), {}, [], ms, ["rate", "rate"], [], q);
    assert CteName([], ms, 0) == CteName([], ms, 2) && CteName([], ms, 1) == CteName([], ms, 3);
  }
}
