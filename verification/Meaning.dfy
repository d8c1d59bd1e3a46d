/** What a built plan answers. */
module Meaning {
  // From planning to numbers: on a database that keeps what the model declares, every ratio the plan answers is the
  // quotient of two aggregates taken once per measure row, whichever of the planner's forms it was given.

  import opened JoinGraph
  import opened JoinTree
  import opened Relational
  import opened Seqs
  import opened Terms
  import opened SideQuery
  import opened Composite
  import opened Build
  import opened FanOut

  function EvalPlan(e: Env, p: Plan): seq<OutRow>
    requires p.CompositePlan? ==> p.query.ctes != []
  {
    match p
    case FlatPlan(f) => EvalFlat(e, f)
    case CompositePlan(q) => EvalQuery(e, q)
  }

  /** The FROM and WHERE clauses one side of a ratio is read from. */
  datatype Clauses = Clauses(tree: Tree, conds: seq<Cond>)

  /** They join what the side needs, and admit what the user and the roles admit. */
  ghost predicate Reads(m: Model, ctx: Context, t: AggTerm, c: Clauses) {
    MeansAdmits(ctx, c.conds) && exists required :: SideRequired(ctx, t) <= required && IsJoinTree(m.rels, required, c.tree)
  }

  /** The aggregate of one side for a group, over the linked rows of its dataset, each taken once. */
  ghost function OnceIn(e: Env, c: Clauses, t: AggTerm, k: seq<Value>): Value
    requires |TermDatasets(t)| == 1
  {
    OnceValue(e.sem, e.ctx, e.db, c.tree, c.conds, t, t.distinct, TermDatasets(t)[0], k)
  }

  /** The database keeps every key the model declares. */
  ghost predicate KeepsKeys(m: Model, db: Database) {
    && (forall rel :: rel in m.rels ==> KeyOf(Table(db, rel.to), rel.toColumns))
    && forall ds :: PrimaryKeyOf(m, ds) != [] ==> PrimaryKey(Table(db, ds), PrimaryKeyOf(m, ds))
  }

  /** One dataset, plain or COUNT(DISTINCT), and null-strict if it may be LEFT-joined, off the root of what is joined for it. */
  ghost predicate GoodSide(m: Model, sem: Sem, t: AggTerm, joined: set<Dataset>) {
    && |TermDatasets(t)| == 1 && (t.distinct ==> t.func == "COUNT")
    && ((forall rel :: rel in m.rels ==> rel.joinType.Inner?) || NullStrict(sem, t) || forall root :: IsRoot(m, joined, root) ==> RefsOn(t, root))
  }

  /** What is joined for a side of a ratio: all the single pass needs, or what the side needs by itself. */
  ghost function JoinedFor(m: Model, ctx: Context, metrics: seq<Metric>, x: nat, t: AggTerm): set<Dataset>
    requires x < |metrics|
  {
    if Inlined(m, BaseAfter(m, ctx, metrics, x), metrics[x]) then BaseAfter(m, ctx, metrics, |metrics|) else SideRequired(ctx, t)
  }

  ghost predicate GoodRatio(m: Model, sem: Sem, ctx: Context, metrics: seq<Metric>, x: nat)
    requires x < |metrics|
  {
    && metrics[x].denominator.Some?
    && GoodSide(m, sem, metrics[x].numerator, JoinedFor(m, ctx, metrics, x, metrics[x].numerator))
    && GoodSide(m, sem, metrics[x].denominator.value, JoinedFor(m, ctx, metrics, x, metrics[x].denominator.value))
  }

  /** A ratio accepted for the single pass is still at a root that reaches all the metrics require in the end. */
  ghost predicate RootHolds(m: Model, ctx: Context, metrics: seq<Metric>, x: nat)
    requires x < |metrics| && metrics[x].denominator.Some?
  {
    forall root :: SafeRoot(m, BaseAfter(m, ctx, metrics, x) + MetricDatasets(metrics[x]), metrics[x], root)
      ==> Covers(m.rels, root, BaseAfter(m, ctx, metrics, |metrics|))
  }

  lemma TreeKeyed(m: Model, db: Database, required: set<Dataset>, tree: Tree)
    requires KeepsKeys(m, db) && IsJoinTree(m.rels, required, tree)
    ensures ToKeyed(db, tree.joins)
    ensures (forall rel :: rel in m.rels ==> rel.joinType.Inner?) ==> AllInner(tree)
  {
  }

  // ------------------------------------------------------ where a metric goes

  /** Every metric is in the part its turn chose. */
  lemma {:induction false} Placed(m: Model, ctx: Context, metrics: seq<Metric>, n: nat, x: nat)
    requires x < n <= |metrics|
    ensures if Inlined(m, BaseAfter(m, ctx, metrics, x), metrics[x]) then metrics[x] in InlineOf(m, ctx, metrics, n)
            else metrics[x] in SplitOf(m, ctx, metrics, n)
  {
    if x < n - 1 {
      Placed(m, ctx, metrics, n - 1, x);
    }
  }

  /** Nothing else is. */
  lemma {:induction false} InlineFrom(m: Model, ctx: Context, metrics: seq<Metric>, n: nat, mt: Metric) returns (x: nat)
    requires n <= |metrics| && mt in InlineOf(m, ctx, metrics, n)
    ensures x < n && metrics[x] == mt && Inlined(m, BaseAfter(m, ctx, metrics, x), mt)
  {
    if mt in InlineOf(m, ctx, metrics, n - 1) {
      x := InlineFrom(m, ctx, metrics, n - 1, mt);
    } else {
      x := n - 1;
    }
  }

  lemma {:induction false} SplitFrom(m: Model, ctx: Context, metrics: seq<Metric>, n: nat, mt: Metric) returns (x: nat)
    requires n <= |metrics| && mt in SplitOf(m, ctx, metrics, n)
    ensures x < n && metrics[x] == mt && !Inlined(m, BaseAfter(m, ctx, metrics, x), mt)
  {
    if mt in SplitOf(m, ctx, metrics, n - 1) {
      x := SplitFrom(m, ctx, metrics, n - 1, mt);
    } else {
      x := n - 1;
    }
  }

  lemma {:induction false} SplitsNamedApart(m: Model, ctx: Context, metrics: seq<Metric>, n: nat)
    requires n <= |metrics| && DistinctNames(metrics)
    ensures DistinctNames(SplitOf(m, ctx, metrics, n))
  {
    if n > 0 {
      SplitsNamedApart(m, ctx, metrics, n - 1);
      var init := SplitOf(m, ctx, metrics, n - 1);
      forall i | 0 <= i < |init| ensures init[i].name != metrics[n - 1].name {
        var x := SplitFrom(m, ctx, metrics, n - 1, init[i]);
        assert metrics[x].name != metrics[n - 1].name;
      }
    }
  }

  lemma NameFound(ms: seq<Metric>, mt: Metric)
    requires mt in ms
    ensures MetricIndex(ms, mt.name) < |ms|
  {
    var i :| 0 <= i < |ms| && ms[i] == mt;
  }

  lemma SameName(metrics: seq<Metric>, x: nat, y: nat)
    requires DistinctNames(metrics) && x < |metrics| && y < |metrics| && metrics[x].name == metrics[y].name
    ensures x == y
  {
  }

  /** An inlined metric's base column is its own. */
  lemma InlineAt(m: Model, ctx: Context, metrics: seq<Metric>, x: nat) returns (c: nat)
    requires DistinctNames(metrics) && x < |metrics| && Inlined(m, BaseAfter(m, ctx, metrics, x), metrics[x])
    ensures var inline := InlineOf(m, ctx, metrics, |metrics|);
            c == MetricIndex(inline, metrics[x].name) && c < |inline| && inline[c] == metrics[x]
  {
    var inline := InlineOf(m, ctx, metrics, |metrics|);
    Placed(m, ctx, metrics, |metrics|, x);
    NameFound(inline, metrics[x]);
    c := MetricIndex(inline, metrics[x].name);
    var y := InlineFrom(m, ctx, metrics, |metrics|, inline[c]);
    SameName(metrics, x, y);
  }

  /** A split metric has no base column, and a place of its own among the splits. */
  lemma SplitAt(m: Model, ctx: Context, metrics: seq<Metric>, x: nat) returns (si: nat)
    requires DistinctNames(metrics) && x < |metrics| && !Inlined(m, BaseAfter(m, ctx, metrics, x), metrics[x])
    ensures var inline, splits := InlineOf(m, ctx, metrics, |metrics|), SplitOf(m, ctx, metrics, |metrics|);
            MetricIndex(inline, metrics[x].name) == |inline| && si < |splits| && splits[si] == metrics[x]
  {
    var inline, splits := InlineOf(m, ctx, metrics, |metrics|), SplitOf(m, ctx, metrics, |metrics|);
    Placed(m, ctx, metrics, |metrics|, x);
    si :| si < |splits| && splits[si] == metrics[x];
    var c := MetricIndex(inline, metrics[x].name);
    if c < |inline| {
      var y := InlineFrom(m, ctx, metrics, |metrics|, inline[c]);
      SameName(metrics, x, y);
      assert false;
    }
  }

  lemma AllKnown(m: Model, ctx: Context, metrics: seq<Metric>, name: string)
    requires name in Map((mt: Metric) => mt.name, metrics)
    ensures Known(InlineOf(m, ctx, metrics, |metrics|), SplitOf(m, ctx, metrics, |metrics|), name)
  {
    var names := Map((mt: Metric) => mt.name, metrics);
    var x :| 0 <= x < |names| && names[x] == name;
    Placed(m, ctx, metrics, |metrics|, x);
    if Inlined(m, BaseAfter(m, ctx, metrics, x), metrics[x]) {
      NameFound(InlineOf(m, ctx, metrics, |metrics|), metrics[x]);
    } else {
      NameFound(SplitOf(m, ctx, metrics, |metrics|), metrics[x]);
    }
  }

  // ------------------------------------------------------ an inlined ratio

  /** The quotient of the two, or by NULL where the denominator is zero. */
  predicate QuotientIs(e: Env, v: Value, num: Value, den: Value) {
    && (den == Num(0) ==> v == e.div(num, Null))
    && (den != Num(0) ==> v == e.div(num, den))
  }

  lemma MetricRequired(m: Model, ctx: Context, metrics: seq<Metric>, x: nat, t: AggTerm)
    requires x < |metrics| && Inlined(m, BaseAfter(m, ctx, metrics, x), metrics[x]) && metrics[x].denominator.Some?
    requires t == metrics[x].numerator || t == metrics[x].denominator.value
    ensures SideRequired(ctx, t) <= BaseAfter(m, ctx, metrics, |metrics|)
  {
    BaseGrows(m, ctx, metrics, x + 1, |metrics|);
    BaseGrows(m, ctx, metrics, 0, x);
  }

  /** One side of an inlined ratio, in the final single pass. */
  lemma InlinedSide(e: Env, m: Model, metrics: seq<Metric>, x: nat, f: Flat, t: AggTerm, k: seq<Value>)
    requires Acyclic(m.rels) && KeepsKeys(m, e.db) && x < |metrics| && GoodRatio(m, e.sem, e.ctx, metrics, x) && RootHolds(m, e.ctx, metrics, x)
    requires Inlined(m, BaseAfter(m, e.ctx, metrics, x), metrics[x])
    requires t == metrics[x].numerator || t == metrics[x].denominator.value
    requires PlansFlat(m, e.ctx, BaseAfter(m, e.ctx, metrics, |metrics|), f)
    ensures SideValue(e.sem, e.ctx, e.db, Direct(f.tree, f.conds, t), k) == OnceIn(e, Clauses(f.tree, f.conds), t, k)
  {
    var all := BaseAfter(m, e.ctx, metrics, |metrics|);
    var ds := TermDatasets(t)[0];
    OneDatasetRefs(t);
    MetricRequired(m, e.ctx, metrics, x, t);
    assert t.refs[0].dataset == ds;
    TreeKeyed(m, e.db, all, f.tree);
    StaysSafe(m, e.ctx, metrics, x, f, t);
    InlineTermOncePerRow(e, f.tree, f.conds, t, ds, k);
  }

  lemma StaysSafe(m: Model, ctx: Context, metrics: seq<Metric>, x: nat, f: Flat, t: AggTerm)
    requires Acyclic(m.rels) && x < |metrics| && metrics[x].denominator.Some? && RootHolds(m, ctx, metrics, x)
    requires Inlined(m, BaseAfter(m, ctx, metrics, x), metrics[x]) && t.refs != []
    requires t == metrics[x].numerator || t == metrics[x].denominator.value
    requires PlansFlat(m, ctx, BaseAfter(m, ctx, metrics, |metrics|), f)
    ensures TermSafe(t, f.tree.root)
  {
    if RootBound(t) {
      var root :| SafeRoot(m, BaseAfter(m, ctx, metrics, x) + MetricDatasets(metrics[x]), metrics[x], root);
      InlinedRatioSafeIff(m, ctx, metrics, x, t, root, f.tree.root);
    }
  }

  lemma InlinedReads(m: Model, ctx: Context, metrics: seq<Metric>, x: nat, f: Flat, t: AggTerm)
    requires [] !in ctx.groups && x < |metrics| && metrics[x].denominator.Some? && Inlined(m, BaseAfter(m, ctx, metrics, x), metrics[x])
    requires t == metrics[x].numerator || t == metrics[x].denominator.value
    requires PlansFlat(m, ctx, BaseAfter(m, ctx, metrics, |metrics|), f)
    ensures Reads(m, ctx, t, Clauses(f.tree, f.conds))
  {
    MetricRequired(m, ctx, metrics, x, t);
  }

  /** The value of an inlined ratio. */
  lemma InlinedRatio(e: Env, m: Model, metrics: seq<Metric>, x: nat, f: Flat, k: seq<Value>)
    requires Acyclic(m.rels) && KeepsKeys(m, e.db) && x < |metrics| && GoodRatio(m, e.sem, e.ctx, metrics, x) && RootHolds(m, e.ctx, metrics, x)
    requires Inlined(m, BaseAfter(m, e.ctx, metrics, x), metrics[x])
    requires PlansFlat(m, e.ctx, BaseAfter(m, e.ctx, metrics, |metrics|), f)
    ensures QuotientIs(e, InlineVal(e, f.tree, f.conds, metrics[x], k),
                       OnceIn(e, Clauses(f.tree, f.conds), metrics[x].numerator, k), OnceIn(e, Clauses(f.tree, f.conds), metrics[x].denominator.value, k))
  {
    InlinedSide(e, m, metrics, x, f, metrics[x].numerator, k);
    InlinedSide(e, m, metrics, x, f, metrics[x].denominator.value, k);
  }

  // ------------------------------------------------------ a split ratio

  lemma SideIsSound(m: Model, sem: Sem, ctx: Context, db: Database, t: AggTerm, s: Side)
    requires KeepsKeys(m, db) && GoodSide(m, sem, t, SideRequired(ctx, t)) && PlansSide(m, ctx, t, s)
    ensures SideSound(sem, db, s) && DistinctSafe(s)
    ensures [] !in ctx.groups ==> Reads(m, ctx, t, Clauses(s.tree, s.conds))
  {
    TreeKeyed(m, db, SideRequired(ctx, t), s.tree);
  }

  lemma SplitSides(e: Env, m: Model, inline: seq<Metric>, splits: seq<Metric>, q: Query, si: nat, i: nat)
    requires KeepsKeys(m, e.db) && [] !in e.ctx.groups && si < |splits| && splits[si].denominator.Some?
    requires GoodSide(m, e.sem, splits[si].numerator, SideRequired(e.ctx, splits[si].numerator))
    requires GoodSide(m, e.sem, splits[si].denominator.value, SideRequired(e.ctx, splits[si].denominator.value))
    requires i == BaseCount(inline) + 2 * si && SplitPair(m, e.ctx, BaseCount(inline), splits, si, q.ctes)
    ensures i + 1 < |q.ctes|
    ensures SoundSide(e, m, splits[si].numerator, q.ctes[i].body) && SoundSide(e, m, splits[si].denominator.value, q.ctes[i + 1].body)
    ensures Reads(m, e.ctx, splits[si].numerator, ClausesOf(q.ctes[i])) && Reads(m, e.ctx, splits[si].denominator.value, ClausesOf(q.ctes[i + 1]))
  {
    PairPlanned(m, e.ctx, BaseCount(inline), splits, si, q.ctes, i);
    OneSide(e, m, splits[si].numerator, q.ctes[i]);
    OneSide(e, m, splits[si].denominator.value, q.ctes[i + 1]);
  }

  lemma PairPlanned(m: Model, ctx: Context, b: nat, splits: seq<Metric>, si: nat, ctes: seq<Cte>, i: nat)
    requires si < |splits| && splits[si].denominator.Some? && SplitPair(m, ctx, b, splits, si, ctes) && i == b + 2 * si
    ensures i + 1 < |ctes| && ctes[i].body.SideBody? && ctes[i + 1].body.SideBody?
    ensures PlansSide(m, ctx, splits[si].numerator, ctes[i].body.side)
    ensures PlansSide(m, ctx, splits[si].denominator.value, ctes[i + 1].body.side)
  {
    assert PairIs(m, ctx, splits[si], ctes[i], ctes[i + 1]);
  }

  lemma OneSide(e: Env, m: Model, t: AggTerm, c: Cte)
    requires KeepsKeys(m, e.db) && [] !in e.ctx.groups && GoodSide(m, e.sem, t, SideRequired(e.ctx, t))
    requires c.body.SideBody? && PlansSide(m, e.ctx, t, c.body.side)
    ensures SoundSide(e, m, t, c.body) && Reads(m, e.ctx, t, ClausesOf(c))
  {
    SideIsSound(m, e.sem, e.ctx, e.db, t, c.body.side);
  }

  /** The value of a split ratio. */
  lemma SplitRatio(e: Env, m: Model, inline: seq<Metric>, splits: seq<Metric>, q: Query, si: nat, i: nat, k: seq<Value>)
    requires DistinctNames(splits) && si < |splits| && splits[si].denominator.Some? && i == BaseCount(inline) + 2 * si && i + 1 < |q.ctes|
    requires SoundSide(e, m, splits[si].numerator, q.ctes[i].body) && SoundSide(e, m, splits[si].denominator.value, q.ctes[i + 1].body)
    requires MetricIndex(inline, splits[si].name) == |inline| && InAll(QueryTables(e, q), k)
    ensures QuotientIs(e, MetricCell(Ops(e.div, e.sem.test), inline, splits, splits[si].name, TupleAt(QueryTables(e, q), k)),
                       OnceIn(e, ClausesOf(q.ctes[i]), splits[si].numerator, k), OnceIn(e, ClausesOf(q.ctes[i + 1]), splits[si].denominator.value, k))
  {
    var n, d := SplitColumnOncePerRow(e, m, inline, splits, q, si, i, k);
  }

  function ClausesOf(c: Cte): Clauses {
    match c.body
    case FlatBody(f) => Clauses(f.tree, f.conds)
    case SideBody(s) => Clauses(s.tree, s.conds)
  }

  // ------------------------------------------------------ which groups there are

  /** What a plan reads from: the single pass, or every table of the composite query. */
  function Froms(p: Plan): seq<Clauses> {
    match p
    case FlatPlan(f) => [Clauses(f.tree, f.conds)]
    case CompositePlan(q) => Map(c => ClausesOf(c), q.ctes)
  }

  /** It joins at least what the dimensions and filters of the request need, and admits what the user and the roles admit. */
  ghost predicate Serves(m: Model, ctx: Context, c: Clauses) {
    MeansAdmits(ctx, c.conds) && exists required :: BaseRequired(ctx) <= required && IsJoinTree(m.rels, required, c.tree)
  }

  lemma FlatServes(m: Model, ctx: Context, base: set<Dataset>, f: Flat)
    requires [] !in ctx.groups && BaseRequired(ctx) <= base && PlansFlat(m, ctx, base, f)
    ensures Serves(m, ctx, Clauses(f.tree, f.conds))
  {
  }

  lemma SideServes(m: Model, ctx: Context, t: AggTerm, s: Side)
    requires [] !in ctx.groups && PlansSide(m, ctx, t, s)
    ensures Serves(m, ctx, Clauses(s.tree, s.conds))
  {
    assert BaseRequired(ctx) <= SideRequired(ctx, t);
  }

  /** Whatever a plan reads from serves the request. */
  lemma FromsServe(m: Model, ctx: Context, metrics: seq<Metric>, filters: seq<MetricFilter>, p: Plan)
    requires Builds(m, ctx, metrics, filters, p) && [] !in ctx.groups
    ensures forall i :: 0 <= i < |Froms(p)| ==> Serves(m, ctx, Froms(p)[i])
  {
    BaseGrows(m, ctx, metrics, 0, |metrics|);
    if p.FlatPlan? {
      FlatServes(m, ctx, BaseAfter(m, ctx, metrics, |metrics|), p.flat);
    } else {
      CtesServe(m, ctx, BaseAfter(m, ctx, metrics, |metrics|), InlineOf(m, ctx, metrics, |metrics|), SplitOf(m, ctx, metrics, |metrics|),
                Map((mt: Metric) => mt.name, metrics), filters, p.query);
    }
  }

  lemma CtesServe(m: Model, ctx: Context, base: set<Dataset>, inline: seq<Metric>, splits: seq<Metric>, names: seq<string>, filters: seq<MetricFilter>, q: Query)
    requires forall x :: 0 <= x < |splits| ==> splits[x].denominator.Some?
    requires [] !in ctx.groups && BaseRequired(ctx) <= base && PlansQuery(m, ctx, base, inline, splits, names, filters, q)
    ensures forall i :: 0 <= i < |q.ctes| ==> Serves(m, ctx, ClausesOf(q.ctes[i]))
  {
    var b := BaseCount(inline);
    forall i | 0 <= i < |q.ctes| ensures Serves(m, ctx, ClausesOf(q.ctes[i])) {
      if i < b {
        assert q.ctes[i] == q.ctes[0];
        BaseServes(m, ctx, base, inline, splits, names, filters, q);
      } else {
        LaterServes(m, ctx, b, splits, q.ctes, i);
      }
    }
  }

  lemma BaseServes(m: Model, ctx: Context, base: set<Dataset>, inline: seq<Metric>, splits: seq<Metric>, names: seq<string>, filters: seq<MetricFilter>, q: Query)
    requires forall x :: 0 <= x < |splits| ==> splits[x].denominator.Some?
    requires [] !in ctx.groups && BaseRequired(ctx) <= base && PlansQuery(m, ctx, base, inline, splits, names, filters, q) && inline != []
    ensures Serves(m, ctx, ClausesOf(q.ctes[0]))
  {
    FlatServes(m, ctx, base, q.ctes[0].body.flat);
  }

  lemma LaterServes(m: Model, ctx: Context, b: nat, splits: seq<Metric>, ctes: seq<Cte>, i: nat)
    requires forall x :: 0 <= x < |splits| ==> splits[x].denominator.Some?
    requires [] !in ctx.groups && SplitCtes(m, ctx, b, splits, |splits|, ctes) && b <= i < |ctes|
    ensures Serves(m, ctx, ClausesOf(ctes[i]))
  {
    var si := PairOf(b, |splits|, i);
    var k := b + 2 * si;
    LaterPair(m, ctx, b, splits, ctes, si, k);
    assert ctes[i] == ctes[k] || ctes[i] == ctes[k + 1];
  }

  lemma PairOf(b: nat, n: nat, i: nat) returns (si: nat)
    requires b <= i < b + 2 * n
    ensures si < n && (i == b + 2 * si || i == b + 2 * si + 1)
  {
    si := (i - b) / 2;
  }

  lemma LaterPair(m: Model, ctx: Context, b: nat, splits: seq<Metric>, ctes: seq<Cte>, si: nat, k: nat)
    requires forall x :: 0 <= x < |splits| ==> splits[x].denominator.Some?
    requires [] !in ctx.groups && SplitCtes(m, ctx, b, splits, |splits|, ctes) && si < |splits| && k == b + 2 * si
    ensures k + 1 < |ctes| && Serves(m, ctx, ClausesOf(ctes[k])) && Serves(m, ctx, ClausesOf(ctes[k + 1]))
  {
    PairThere(m, ctx, b, splits, ctes, si, k);
    PairServes(m, ctx, splits[si], ctes[k], ctes[k + 1]);
  }

  lemma PairThere(m: Model, ctx: Context, b: nat, splits: seq<Metric>, ctes: seq<Cte>, si: nat, k: nat)
    requires forall x :: 0 <= x < |splits| ==> splits[x].denominator.Some?
    requires SplitCtes(m, ctx, b, splits, |splits|, ctes) && si < |splits| && k == b + 2 * si
    ensures k + 1 < |ctes| && PairIs(m, ctx, splits[si], ctes[k], ctes[k + 1])
  {
    assert SplitPair(m, ctx, b, splits, si, ctes);
  }

  lemma PairServes(m: Model, ctx: Context, mt: Metric, num: Cte, den: Cte)
    requires [] !in ctx.groups && mt.denominator.Some? && PairIs(m, ctx, mt, num, den)
    ensures Serves(m, ctx, ClausesOf(num)) && Serves(m, ctx, ClausesOf(den))
  {
    SideServes(m, ctx, mt.numerator, num.body.side);
    SideServes(m, ctx, mt.denominator.value, den.body.side);
  }

  /** Some joined row that passes falls into group `k`; without dimensions there is the one group, rows or not. */
  ghost predicate HasGroup(e: Env, c: Clauses, k: seq<Value>) {
    if |e.ctx.dims| == 0 then k == [] else exists j :: j in EvalFrom(e.db, c.tree) && InGroup(e.sem, e.ctx, c.conds, k, j)
  }

  /** Everything the plan reads from has the group. */
  ghost predicate Grouped(e: Env, p: Plan, k: seq<Value>) {
    forall i :: 0 <= i < |Froms(p)| ==> HasGroup(e, Froms(p)[i], k)
  }

  lemma KeysAreGroups(e: Env, tree: Tree, conds: seq<Cond>, k: seq<Value>)
    ensures k in Keys(|e.ctx.dims|, (j: Joined) => DimTuple(e.sem, e.ctx.grain, e.ctx.dims, j), JoinedRows(e.sem, e.db, tree, conds))
       <==> HasGroup(e, Clauses(tree, conds), k)
  {
    var rows := JoinedRows(e.sem, e.db, tree, conds);
    if |e.ctx.dims| > 0 {
      if i :| 0 <= i < |rows| && DimTuple(e.sem, e.ctx.grain, e.ctx.dims, rows[i]) == k {
        assert rows[i] in rows;
      }
      if j :| j in EvalFrom(e.db, tree) && InGroup(e.sem, e.ctx, conds, k, j) {
        assert j in rows;
      }
    }
  }

  lemma HasKeyIff(rows: seq<OutRow>, k: seq<Value>)
    ensures HasKey(rows, k) <==> k in RowKeys(rows)
  {
    var keys := RowKeys(rows);
    if HasKey(rows, k) {
      assert keys[RowIndex(rows, k)] == k;
    }
    if k in keys {
      var i :| 0 <= i < |keys| && keys[i] == k;
    }
  }

  /** A single pass returns the groups of its joined rows that pass its HAVING. */
  lemma FlatReturns(e: Env, f: Flat, k: seq<Value>)
    ensures k in RowKeys(EvalFlat(e, f)) <==> HasGroup(e, Clauses(f.tree, f.conds), k) && forall h :: h in f.having ==> HavingHolds(e, f, h, k)
  {
    var p := (k: seq<Value>) => forall h :: h in f.having ==> HavingHolds(e, f, h, k);
    KeysAreGroups(e, f.tree, f.conds, k);
    assert RowKeys(EvalFlat(e, f)) == Filter(p, FlatKeys(e, f));
  }

  /** A side returns all of them. */
  lemma SideReturns(e: Env, s: Side, k: seq<Value>)
    ensures k in RowKeys(EvalSide(e.sem, e.ctx, e.db, s)) <==> HasGroup(e, Clauses(s.tree, s.conds), k)
  {
    if s.Dedup? {
      DedupKeys(e.sem, e.ctx, e.db, s);
    }
    KeysAreGroups(e, s.tree, s.conds, k);
    assert RowKeys(EvalSide(e.sem, e.ctx, e.db, s)) == SideKeys(e.sem, e.ctx, e.db, s);
  }

  ghost predicate NoHaving(c: Cte) {
    c.body.FlatBody? ==> c.body.flat.having == []
  }

  lemma CteReturns(e: Env, c: Cte, k: seq<Value>)
    requires NoHaving(c)
    ensures HasKey(EvalCte(e, c), k) <==> HasGroup(e, ClausesOf(c), k)
  {
    HasKeyIff(EvalCte(e, c), k);
    match c.body
    case FlatBody(f) => FlatReturns(e, f, k);
    case SideBody(s) => SideReturns(e, s, k);
  }

  lemma InAllGrouped(e: Env, q: Query, k: seq<Value>)
    requires forall i :: 0 <= i < |q.ctes| ==> NoHaving(q.ctes[i])
    ensures InAll(QueryTables(e, q), k) <==> Grouped(e, CompositePlan(q), k)
  {
    forall i | 0 <= i < |q.ctes| ensures HasKey(QueryTables(e, q)[i], k) <==> HasGroup(e, Froms(CompositePlan(q))[i], k) {
      CteReturns(e, q.ctes[i], k);
    }
  }

  lemma NoneHaving(m: Model, ctx: Context, base: set<Dataset>, inline: seq<Metric>, splits: seq<Metric>, names: seq<string>, filters: seq<MetricFilter>, q: Query)
    requires forall i :: 0 <= i < |splits| ==> splits[i].denominator.Some?
    requires PlansQuery(m, ctx, base, inline, splits, names, filters, q)
    ensures forall i :: 0 <= i < |q.ctes| ==> NoHaving(q.ctes[i])
  {
    PlansAreShaped(m, ctx, base, inline, splits, names, filters, q);
  }

  // ------------------------------------------------------ the whole plan

  /** The value for group `k` of the metric in column `x`: from the single pass, or from the tables of its part of the request. */
  ghost function ValueOf(e: Env, m: Model, metrics: seq<Metric>, p: Plan, x: nat, k: seq<Value>): Value
    requires x < |metrics|
  {
    match p
    case FlatPlan(f) => InlineVal(e, f.tree, f.conds, metrics[x], k)
    case CompositePlan(q) =>
      MetricCell(Ops(e.div, e.sem.test), InlineOf(m, e.ctx, metrics, |metrics|), SplitOf(m, e.ctx, metrics, |metrics|),
                 metrics[x].name, TupleAt(QueryTables(e, q), k))
  }

  /** Every metric filter holds of the value of the metric it names. */
  ghost predicate FiltersHold(e: Env, m: Model, metrics: seq<Metric>, filters: seq<MetricFilter>, p: Plan, k: seq<Value>) {
    forall f, x :: f in filters && 0 <= x < |metrics| && metrics[x].name == f.metric ==>
      MetricAsks(e.sem, f, ValueOf(e, m, metrics, p, x, k))
  }

  /** What a metric filter asks of a metric's value. */
  predicate MetricAsks(sem: Sem, f: MetricFilter, v: Value) {
    if f.op == "BETWEEN" then sem.test(f.op, v, f.values) else sem.test(f.op, v, [f.value])
  }

  ghost predicate RowIs(e: Env, m: Model, metrics: seq<Metric>, p: Plan, row: OutRow) {
    |row.vals| == |metrics| && forall x :: 0 <= x < |metrics| ==> row.vals[x] == ValueOf(e, m, metrics, p, x, row.key)
  }

  /** The plan's rows: one for each group of everything it reads from whose metrics pass the filters, with the metrics' values. */
  ghost predicate Returns(e: Env, m: Model, metrics: seq<Metric>, filters: seq<MetricFilter>, p: Plan)
    requires p.CompositePlan? ==> p.query.ctes != []
  {
    && DupFree(RowKeys(EvalPlan(e, p)))
    && (forall k :: k in RowKeys(EvalPlan(e, p)) <==> Grouped(e, p, k) && FiltersHold(e, m, metrics, filters, p, k))
    && forall row :: row in EvalPlan(e, p) ==> RowIs(e, m, metrics, p, row)
  }

  lemma FlatPlanReturns(e: Env, m: Model, metrics: seq<Metric>, filters: seq<MetricFilter>, p: Plan)
    requires Builds(m, e.ctx, metrics, filters, p) && p.FlatPlan? && DistinctNames(metrics)
    requires forall f :: f in filters ==> f.metric in Map((mt: Metric) => mt.name, metrics)
    ensures Returns(e, m, metrics, filters, p)
  {
    FlatKeyed(e, p.flat);
    forall k ensures k in RowKeys(EvalFlat(e, p.flat)) <==> Grouped(e, p, k) && FiltersHold(e, m, metrics, filters, p, k) {
      FlatKeyReturned(e, m, metrics, filters, p, k);
    }
    forall row | row in EvalFlat(e, p.flat) ensures RowIs(e, m, metrics, p, row) {
      FlatRowIs(e, m, metrics, p, row.key);
    }
  }

  lemma FlatRowIs(e: Env, m: Model, metrics: seq<Metric>, p: Plan, k: seq<Value>)
    requires p.FlatPlan? && p.flat.metrics == metrics
    ensures RowIs(e, m, metrics, p, FlatRow(e, p.flat, k))
  {
  }

  lemma FlatKeyReturned(e: Env, m: Model, metrics: seq<Metric>, filters: seq<MetricFilter>, p: Plan, k: seq<Value>)
    requires p.FlatPlan? && p.flat.metrics == metrics && p.flat.having == filters && DistinctNames(metrics)
    requires forall f :: f in filters ==> f.metric in Map((mt: Metric) => mt.name, metrics)
    ensures k in RowKeys(EvalFlat(e, p.flat)) <==> Grouped(e, p, k) && FiltersHold(e, m, metrics, filters, p, k)
  {
    HavingIsFilters(e, m, metrics, filters, p, k);
    FlatReturns(e, p.flat, k);
    assert Froms(p)[0] == Clauses(p.flat.tree, p.flat.conds);
  }

  lemma HavingIsFilters(e: Env, m: Model, metrics: seq<Metric>, filters: seq<MetricFilter>, p: Plan, k: seq<Value>)
    requires p.FlatPlan? && p.flat.metrics == metrics && DistinctNames(metrics)
    requires forall f :: f in filters ==> f.metric in Map((mt: Metric) => mt.name, metrics)
    ensures (forall h :: h in filters ==> HavingHolds(e, p.flat, h, k)) <==> FiltersHold(e, m, metrics, filters, p, k)
  {
    forall h | h in filters
      ensures HavingHolds(e, p.flat, h, k)
         <==> forall x :: 0 <= x < |metrics| && metrics[x].name == h.metric ==> MetricAsks(e.sem, h, ValueOf(e, m, metrics, p, x, k))
    {
      var i := Named(metrics, h.metric);
    }
  }

  /** The one metric of that name. */
  lemma Named(metrics: seq<Metric>, name: string) returns (i: nat)
    requires DistinctNames(metrics) && name in Map((mt: Metric) => mt.name, metrics)
    ensures i < |metrics| && MetricIndex(metrics, name) == i && forall x :: 0 <= x < |metrics| ==> (metrics[x].name == name <==> x == i)
  {
    var names := Map((mt: Metric) => mt.name, metrics);
    var l :| 0 <= l < |names| && names[l] == name;
    i := l;
    MetricIndexAt(metrics, i);
    forall x | 0 <= x < |metrics| && metrics[x].name == name ensures x == i {
      SameName(metrics, x, i);
    }
  }

  lemma CompositePlanReturns(e: Env, m: Model, metrics: seq<Metric>, filters: seq<MetricFilter>, p: Plan)
    requires Builds(m, e.ctx, metrics, filters, p) && p.CompositePlan? && DistinctNames(metrics)
    requires forall f :: f in filters ==> f.metric in Map((mt: Metric) => mt.name, metrics)
    ensures p.query.ctes != [] && Returns(e, m, metrics, filters, p)
  {
    var n := |metrics|;
    var names, inline, splits, q := Map((mt: Metric) => mt.name, metrics), InlineOf(m, e.ctx, metrics, n), SplitOf(m, e.ctx, metrics, n), p.query;
    SplitsNamedApart(m, e.ctx, metrics, n);
    forall name | name in names ensures Known(inline, splits, name) {
      AllKnown(m, e.ctx, metrics, name);
    }
    NoneHaving(m, e.ctx, BaseAfter(m, e.ctx, metrics, n), inline, splits, names, filters, q);
    CompositeMeaning(e, m, BaseAfter(m, e.ctx, metrics, n), inline, splits, names, filters, q);
    AnsweredReturns(e, m, metrics, filters, p, inline, splits, names);
  }

  lemma AnsweredReturns(e: Env, m: Model, metrics: seq<Metric>, filters: seq<MetricFilter>, p: Plan, inline: seq<Metric>, splits: seq<Metric>, names: seq<string>)
    requires p.CompositePlan? && p.query.ctes != [] && DistinctNames(metrics) && names == Map((mt: Metric) => mt.name, metrics)
    requires inline == InlineOf(m, e.ctx, metrics, |metrics|) && splits == SplitOf(m, e.ctx, metrics, |metrics|)
    requires forall f :: f in filters ==> f.metric in names
    requires forall i :: 0 <= i < |p.query.ctes| ==> NoHaving(p.query.ctes[i])
    requires var ops, tables := Ops(e.div, e.sem.test), QueryTables(e, p.query);
             var keys := AnswerKeys(ops, inline, splits, filters, tables);
             && DupFree(keys)
             && (forall k :: k in keys <==> InAll(tables, k) && Passes(ops, inline, splits, filters, TupleAt(tables, k)))
             && EvalQuery(e, p.query) == Map(k => AnswerRow(ops, inline, splits, names, tables, k), keys)
    ensures Returns(e, m, metrics, filters, p)
  {
    var ops, tables := Ops(e.div, e.sem.test), QueryTables(e, p.query);
    var keys := AnswerKeys(ops, inline, splits, filters, tables);
    AnsweredKeys(ops, inline, splits, names, tables, keys, EvalQuery(e, p.query));
    forall k ensures k in keys <==> Grouped(e, p, k) && FiltersHold(e, m, metrics, filters, p, k) {
      InAllGrouped(e, p.query, k);
      PassesIsFilters(e, m, metrics, filters, p, k);
    }
    forall row | row in EvalQuery(e, p.query) ensures RowIs(e, m, metrics, p, row) {
      AnsweredRowIs(e, m, metrics, p, inline, splits, names, row.key);
    }
  }

  lemma AnsweredKeys(ops: Ops, inline: seq<Metric>, splits: seq<Metric>, names: seq<string>, tables: seq<seq<OutRow>>, keys: seq<seq<Value>>, rows: seq<OutRow>)
    requires rows == Map(k => AnswerRow(ops, inline, splits, names, tables, k), keys)
    ensures RowKeys(rows) == keys
    ensures forall row :: row in rows ==> row == AnswerRow(ops, inline, splits, names, tables, row.key)
  {
  }

  lemma AnsweredRowIs(e: Env, m: Model, metrics: seq<Metric>, p: Plan, inline: seq<Metric>, splits: seq<Metric>, names: seq<string>, k: seq<Value>)
    requires p.CompositePlan? && names == Map((mt: Metric) => mt.name, metrics)
    requires inline == InlineOf(m, e.ctx, metrics, |metrics|) && splits == SplitOf(m, e.ctx, metrics, |metrics|)
    ensures RowIs(e, m, metrics, p, AnswerRow(Ops(e.div, e.sem.test), inline, splits, names, QueryTables(e, p.query), k))
  {
  }

  lemma PassesIsFilters(e: Env, m: Model, metrics: seq<Metric>, filters: seq<MetricFilter>, p: Plan, k: seq<Value>)
    requires p.CompositePlan? && DistinctNames(metrics)
    requires forall f :: f in filters ==> f.metric in Map((mt: Metric) => mt.name, metrics)
    ensures Passes(Ops(e.div, e.sem.test), InlineOf(m, e.ctx, metrics, |metrics|), SplitOf(m, e.ctx, metrics, |metrics|), filters,
                   TupleAt(QueryTables(e, p.query), k))
       <==> FiltersHold(e, m, metrics, filters, p, k)
  {
    forall f | f in filters
      ensures e.sem.test(f.op, MetricCell(Ops(e.div, e.sem.test), InlineOf(m, e.ctx, metrics, |metrics|), SplitOf(m, e.ctx, metrics, |metrics|),
                                          f.metric, TupleAt(QueryTables(e, p.query), k)), MetricOperands(f))
         <==> forall x :: 0 <= x < |metrics| && metrics[x].name == f.metric ==> MetricAsks(e.sem, f, ValueOf(e, m, metrics, p, x, k))
    {
      var i := Named(metrics, f.metric);
    }
  }

  lemma PlanReturns(e: Env, m: Model, metrics: seq<Metric>, filters: seq<MetricFilter>, p: Plan)
    requires Builds(m, e.ctx, metrics, filters, p) && DistinctNames(metrics)
    requires forall f :: f in filters ==> f.metric in Map((mt: Metric) => mt.name, metrics)
    ensures p.CompositePlan? ==> p.query.ctes != []
    ensures Returns(e, m, metrics, filters, p)
  {
    if p.FlatPlan? {
      FlatPlanReturns(e, m, metrics, filters, p);
    } else {
      CompositePlanReturns(e, m, metrics, filters, p);
    }
  }

  /**
   Every row of a built plan shows, in each grained column, the field truncated to the requested grain, and in each other
   column the field itself, of a joined row that passes: in the single pass, and in every table of the composite query.
   */
  lemma RowShowsGrain(e: Env, m: Model, metrics: seq<Metric>, filters: seq<MetricFilter>, p: Plan, row: OutRow, i: nat)
    requires Builds(m, e.ctx, metrics, filters, p) && DistinctNames(metrics)
    requires forall f :: f in filters ==> f.metric in Map((mt: Metric) => mt.name, metrics)
    requires p.CompositePlan? ==> p.query.ctes != []
    requires row in EvalPlan(e, p) && i < |Froms(p)| && e.ctx.dims != []
    ensures |row.key| == |e.ctx.dims|
    ensures exists j :: j in EvalFrom(e.db, Froms(p)[i].tree) && Where(e.sem, Froms(p)[i].conds, j) &&
              forall d :: 0 <= d < |e.ctx.dims| ==>
                var dm := e.ctx.dims[d];
                var v := e.sem.field(dm.ref, Bound(j, dm.ref.dataset));
                row.key[d] == if dm.grained then e.sem.trunc(e.ctx.grain, v) else v
  {
    PlanReturns(e, m, metrics, filters, p);
    KeyOfRow(EvalPlan(e, p), row);
    assert Grouped(e, p, row.key) && HasGroup(e, Froms(p)[i], row.key);
    var j :| j in EvalFrom(e.db, Froms(p)[i].tree) && InGroup(e.sem, e.ctx, Froms(p)[i].conds, row.key, j);
    forall d | 0 <= d < |e.ctx.dims|
      ensures ColumnShows(e.sem, e.ctx.grain, e.ctx.dims[d], Bound(j, e.ctx.dims[d].ref.dataset), row.key[d])
    {
    }
  }

  lemma KeyOfRow(rows: seq<OutRow>, row: OutRow)
    requires row in rows
    ensures row.key in RowKeys(rows)
  {
    var i :| 0 <= i < |rows| && rows[i] == row;
    assert RowKeys(rows)[i] == row.key;
  }

  /** Joined rows that show the same, truncated where the dimension is grained, fall into one row. */
  lemma SameGrainOneRow(e: Env, m: Model, metrics: seq<Metric>, filters: seq<MetricFilter>, p: Plan, a: nat, b: nat, j: Joined, j': Joined)
    requires Builds(m, e.ctx, metrics, filters, p) && DistinctNames(metrics)
    requires forall f :: f in filters ==> f.metric in Map((mt: Metric) => mt.name, metrics)
    requires p.CompositePlan? ==> p.query.ctes != []
    requires a < |EvalPlan(e, p)| && b < |EvalPlan(e, p)|
    requires KeyIs(e.sem, e.ctx.grain, e.ctx.dims, j, EvalPlan(e, p)[a].key) && KeyIs(e.sem, e.ctx.grain, e.ctx.dims, j', EvalPlan(e, p)[b].key)
    requires forall d :: 0 <= d < |e.ctx.dims| ==> ShownAlike(e, e.ctx.dims[d], j, j')
    ensures a == b
  {
    var ka, kb := EvalPlan(e, p)[a].key, EvalPlan(e, p)[b].key;
    PlanReturns(e, m, metrics, filters, p);
    forall d | 0 <= d < |e.ctx.dims| ensures ka[d] == kb[d] {
      assert ShownAlike(e, e.ctx.dims[d], j, j');
      assert ColumnShows(e.sem, e.ctx.grain, e.ctx.dims[d], Bound(j, e.ctx.dims[d].ref.dataset), ka[d]);
      assert ColumnShows(e.sem, e.ctx.grain, e.ctx.dims[d], Bound(j', e.ctx.dims[d].ref.dataset), kb[d]);
    }
    assert RowKeys(EvalPlan(e, p))[a] == ka == kb == RowKeys(EvalPlan(e, p))[b];
  }

  ghost predicate ShownAlike(e: Env, dm: DimSpec, j: Joined, j': Joined) {
    var v, v' := e.sem.field(dm.ref, Bound(j, dm.ref.dataset)), e.sem.field(dm.ref, Bound(j', dm.ref.dataset));
    if dm.grained then e.sem.trunc(e.ctx.grain, v) == e.sem.trunc(e.ctx.grain, v') else v == v'
  }

  /** The column of a ratio, for every group: the quotient of the metric's sides, each taken once per row of its dataset. */
  ghost predicate ColumnIs(e: Env, m: Model, metrics: seq<Metric>, p: Plan, x: nat, num: Clauses, den: Clauses)
    requires x < |metrics| && metrics[x].denominator.Some?
    requires |TermDatasets(metrics[x].numerator)| == 1 && |TermDatasets(metrics[x].denominator.value)| == 1
  {
    forall k | Grouped(e, p, k) ::
      QuotientIs(e, ValueOf(e, m, metrics, p, x, k), OnceIn(e, num, metrics[x].numerator, k), OnceIn(e, den, metrics[x].denominator.value, k))
  }

  lemma FlatColumn(e: Env, m: Model, metrics: seq<Metric>, filters: seq<MetricFilter>, p: Plan, x: nat)
    requires Acyclic(m.rels) && KeepsKeys(m, e.db) && x < |metrics| && GoodRatio(m, e.sem, e.ctx, metrics, x) && RootHolds(m, e.ctx, metrics, x)
    requires Builds(m, e.ctx, metrics, filters, p) && p.FlatPlan?
    ensures Inlined(m, BaseAfter(m, e.ctx, metrics, x), metrics[x])
    ensures ColumnIs(e, m, metrics, p, x, Clauses(p.flat.tree, p.flat.conds), Clauses(p.flat.tree, p.flat.conds))
  {
    Placed(m, e.ctx, metrics, |metrics|, x);
    forall k { InlinedRatio(e, m, metrics, x, p.flat, k); }
  }

  lemma InlinedColumn(e: Env, m: Model, metrics: seq<Metric>, filters: seq<MetricFilter>, p: Plan, x: nat)
    requires Acyclic(m.rels) && KeepsKeys(m, e.db) && x < |metrics| && GoodRatio(m, e.sem, e.ctx, metrics, x) && RootHolds(m, e.ctx, metrics, x)
    requires Builds(m, e.ctx, metrics, filters, p) && p.CompositePlan? && DistinctNames(metrics)
    requires Inlined(m, BaseAfter(m, e.ctx, metrics, x), metrics[x]) && p.query.ctes != []
    requires forall i :: 0 <= i < |p.query.ctes| ==> NoHaving(p.query.ctes[i])
    ensures p.query.ctes[0].body.FlatBody? && PlansFlat(m, e.ctx, BaseAfter(m, e.ctx, metrics, |metrics|), p.query.ctes[0].body.flat)
    ensures ColumnIs(e, m, metrics, p, x, ClausesOf(p.query.ctes[0]), ClausesOf(p.query.ctes[0]))
  {
    var q := p.query;
    var c := InlineAt(m, e.ctx, metrics, x);
    var f := q.ctes[0].body.flat;
    forall k | Grouped(e, p, k) ensures ValueOf(e, m, metrics, p, x, k) == InlineVal(e, f.tree, f.conds, metrics[x], k) {
      InAllGrouped(e, q, k);
      BaseCell(e, q, c, k);
    }
    forall k { InlinedRatio(e, m, metrics, x, f, k); }
  }

  lemma SplitColumn(e: Env, m: Model, metrics: seq<Metric>, filters: seq<MetricFilter>, p: Plan, x: nat, i: nat, si: nat)
    requires KeepsKeys(m, e.db) && [] !in e.ctx.groups && x < |metrics| && GoodRatio(m, e.sem, e.ctx, metrics, x)
    requires Builds(m, e.ctx, metrics, filters, p) && p.CompositePlan? && DistinctNames(metrics)
    requires var inline, splits := InlineOf(m, e.ctx, metrics, |metrics|), SplitOf(m, e.ctx, metrics, |metrics|);
             && MetricIndex(inline, metrics[x].name) == |inline| && si < |splits| && splits[si] == metrics[x]
             && !Inlined(m, BaseAfter(m, e.ctx, metrics, x), metrics[x])
             && i == BaseCount(inline) + 2 * si
    requires forall i :: 0 <= i < |p.query.ctes| ==> NoHaving(p.query.ctes[i])
    ensures i + 1 < |p.query.ctes|
    ensures Reads(m, e.ctx, metrics[x].numerator, ClausesOf(p.query.ctes[i])) && Reads(m, e.ctx, metrics[x].denominator.value, ClausesOf(p.query.ctes[i + 1]))
    ensures ColumnIs(e, m, metrics, p, x, ClausesOf(p.query.ctes[i]), ClausesOf(p.query.ctes[i + 1]))
  {
    var inline, splits, q := InlineOf(m, e.ctx, metrics, |metrics|), SplitOf(m, e.ctx, metrics, |metrics|), p.query;
    SplitsNamedApart(m, e.ctx, metrics, |metrics|);
    assert SplitPair(m, e.ctx, BaseCount(inline), splits, si, q.ctes);
    SplitSides(e, m, inline, splits, q, si, i);
    forall k | Grouped(e, p, k)
      ensures QuotientIs(e, ValueOf(e, m, metrics, p, x, k),
                         OnceIn(e, ClausesOf(q.ctes[i]), metrics[x].numerator, k), OnceIn(e, ClausesOf(q.ctes[i + 1]), metrics[x].denominator.value, k))
    {
      InAllGrouped(e, q, k);
      SplitRatio(e, m, inline, splits, q, si, i, k);
    }
  }

  /**
   What BuildPlan builds answers with one row for each group of what it reads from whose metrics pass the filters, and
   every requested ratio with the quotient of its two sides, each aggregated over the linked rows of its dataset once
   each, under the joins and conditions the request asks for: on every database that keeps the declared keys, for every
   engine, in whichever form the ratio was planned. Asked of the request is that metrics are named apart, that each side
   is over one dataset and plain or COUNT(DISTINCT), and, for an inlined ratio, that later metrics left its root in place.
   */
  lemma RatioColumn(e: Env, m: Model, metrics: seq<Metric>, filters: seq<MetricFilter>, p: Plan, x: nat) returns (num: Clauses, den: Clauses)
    requires Builds(m, e.ctx, metrics, filters, p)
    requires Acyclic(m.rels) && KeepsKeys(m, e.db) && [] !in e.ctx.groups && DistinctNames(metrics)
    requires forall f :: f in filters ==> f.metric in Map((mt: Metric) => mt.name, metrics)
    requires x < |metrics| && GoodRatio(m, e.sem, e.ctx, metrics, x) && RootHolds(m, e.ctx, metrics, x)
    ensures p.CompositePlan? ==> p.query.ctes != []
    ensures Returns(e, m, metrics, filters, p) && forall i :: 0 <= i < |Froms(p)| ==> Serves(m, e.ctx, Froms(p)[i])
    ensures Reads(m, e.ctx, metrics[x].numerator, num) && Reads(m, e.ctx, metrics[x].denominator.value, den)
    ensures ColumnIs(e, m, metrics, p, x, num, den)
  {
    FromsServe(m, e.ctx, metrics, filters, p);
    PlanReturns(e, m, metrics, filters, p);
    if p.FlatPlan? {
      FlatColumn(e, m, metrics, filters, p, x);
      num, den := Clauses(p.flat.tree, p.flat.conds), Clauses(p.flat.tree, p.flat.conds);
      InlinedReads(m, e.ctx, metrics, x, p.flat, metrics[x].numerator);
      InlinedReads(m, e.ctx, metrics, x, p.flat, metrics[x].denominator.value);
    } else {
      num, den := CompositeColumn(e, m, metrics, filters, p, x);
    }
  }

  lemma CompositeColumn(e: Env, m: Model, metrics: seq<Metric>, filters: seq<MetricFilter>, p: Plan, x: nat) returns (num: Clauses, den: Clauses)
    requires Builds(m, e.ctx, metrics, filters, p) && p.CompositePlan? && p.query.ctes != []
    requires Acyclic(m.rels) && KeepsKeys(m, e.db) && [] !in e.ctx.groups && DistinctNames(metrics)
    requires x < |metrics| && GoodRatio(m, e.sem, e.ctx, metrics, x) && RootHolds(m, e.ctx, metrics, x)
    ensures Reads(m, e.ctx, metrics[x].numerator, num) && Reads(m, e.ctx, metrics[x].denominator.value, den)
    ensures ColumnIs(e, m, metrics, p, x, num, den)
  {
    var n := |metrics|;
    NoneHaving(m, e.ctx, BaseAfter(m, e.ctx, metrics, n), InlineOf(m, e.ctx, metrics, n), SplitOf(m, e.ctx, metrics, n),
               Map((mt: Metric) => mt.name, metrics), filters, p.query);
    if Inlined(m, BaseAfter(m, e.ctx, metrics, x), metrics[x]) {
      InlinedColumn(e, m, metrics, filters, p, x);
      num, den := ClausesOf(p.query.ctes[0]), ClausesOf(p.query.ctes[0]);
      InlinedReads(m, e.ctx, metrics, x, p.query.ctes[0].body.flat, metrics[x].numerator);
      InlinedReads(m, e.ctx, metrics, x, p.query.ctes[0].body.flat, metrics[x].denominator.value);
    } else {
      var si := SplitAt(m, e.ctx, metrics, x);
      var i := BaseCount(InlineOf(m, e.ctx, metrics, |metrics|)) + 2 * si;
      SplitColumn(e, m, metrics, filters, p, x, i, si);
      num, den := ClausesOf(p.query.ctes[i]), ClausesOf(p.query.ctes[i + 1]);
    }
  }
}
