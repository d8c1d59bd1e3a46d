/** The single-pass query and the composite query. */
module Composite {
  // Common table expressions are joined null-safe on their dimension columns.

  import opened Options
  import opened JoinGraph
  import opened JoinTree
  import opened Relational
  import opened Seqs
  import opened Terms
  import opened SideQuery

  /** An aggregation, or a ratio of two. */
  datatype Metric = Metric(name: string, numerator: AggTerm, denominator: Option<AggTerm>)

  datatype MetricFilter = MetricFilter(metric: string, op: string, value: Value, values: seq<Value>)

  /** One pass: dimensions and inline metrics over one join tree. */
  datatype Flat = Flat(tree: Tree, conds: seq<Cond>, metrics: seq<Metric>, having: seq<MetricFilter>)

  datatype CteBody = FlatBody(flat: Flat) | SideBody(side: Side)

  datatype Cte = Cte(name: string, body: CteBody)

  datatype OutCol = Field(cte: string, column: string) | Quotient(num: string, den: string)

  datatype Query = Query(ctes: seq<Cte>, cols: seq<OutCol>, filters: seq<(OutCol, MetricFilter)>)

  /** num / NULLIF(den, 0), with division a parameter. */
  function Ratio(div: (Value, Value) -> Value, num: Value, den: Value): Value {
    div(num, if den == Num(0) then Null else den)
  }

  function MetricOperands(f: MetricFilter): seq<Value> {
    if f.op == "BETWEEN" then f.values else [f.value]
  }

  datatype Env = Env(sem: Sem, div: (Value, Value) -> Value, ctx: Context, db: Database)

  // ------------------------------------------------------------- single pass

  function InlineVal(e: Env, tree: Tree, conds: seq<Cond>, m: Metric, k: seq<Value>): Value {
    var num := SideValue(e.sem, e.ctx, e.db, Direct(tree, conds, m.numerator), k);
    match m.denominator
    case None => num
    case Some(den) => Ratio(e.div, num, SideValue(e.sem, e.ctx, e.db, Direct(tree, conds, den), k))
  }

  function FlatRow(e: Env, f: Flat, k: seq<Value>): OutRow {
    OutRow(k, Map(m => InlineVal(e, f.tree, f.conds, m, k), f.metrics))
  }

  /** The first metric of that name, as a column alias resolves. */
  function MetricIndex(ms: seq<Metric>, name: string): (i: nat)
    ensures i <= |ms|
    ensures i < |ms| ==> ms[i].name == name
    ensures forall j :: 0 <= j < i ==> ms[j].name != name
  {
    if ms == [] then 0 else if ms[0].name == name then 0 else 1 + MetricIndex(ms[1..], name)
  }

  function HavingHolds(e: Env, f: Flat, h: MetricFilter, k: seq<Value>): bool {
    var i := MetricIndex(f.metrics, h.metric);
    i < |f.metrics| && e.sem.test(h.op, InlineVal(e, f.tree, f.conds, f.metrics[i], k), MetricOperands(h))
  }

  function FlatKeys(e: Env, f: Flat): seq<seq<Value>> {
    Keys(|e.ctx.dims|, (j: Joined) => DimTuple(e.sem, e.ctx.grain, e.ctx.dims, j), JoinedRows(e.sem, e.db, f.tree, f.conds))
  }

  function EvalFlat(e: Env, f: Flat): seq<OutRow> {
    Map(k => FlatRow(e, f, k), Filter((k: seq<Value>) => forall h :: h in f.having ==> HavingHolds(e, f, h, k), FlatKeys(e, f)))
  }

  /** Plans the single-pass query. */
  method PlanFlat(m: Model, ctx: Context, required: set<Dataset>, metrics: seq<Metric>, having: seq<MetricFilter>)
    returns (r: Result<Flat>)
    requires FilterDatasets(ctx.groups) <= required
    ensures r.Ok? <==> required != {} && Connectable(m.rels, m.order, required) && forall f :: f in ctx.filters ==> FilterOk(f)
    ensures r.Ok? ==> PlansFlat(m, ctx, required, r.value) && r.value.metrics == metrics && r.value.having == having
  {
    var tree := FindJoinTree(m.rels, m.order, required);
    if tree.None? {
      return Err("no join path");
    }
    var conds := WhereClauses(ctx.filters, ctx.groups, InTree(tree.value));
    if conds.Err? {
      return Err(conds.error);
    }
    return Ok(Flat(tree.value, conds.value, metrics, having));
  }

  ghost predicate PlansFlat(m: Model, ctx: Context, required: set<Dataset>, f: Flat) {
    && IsJoinTree(m.rels, required, f.tree) && Planned(m.rels, required, f.tree)
    && IsRoot(m, required, f.tree.root)
    && ([] !in ctx.groups ==> forall sem, j :: Where(sem, f.conds, j) <==> Admits(sem, ctx.filters, ctx.groups, j))
  }

  /**
   An inline term the planner found safe aggregates the surviving root rows, each
   once; COUNT(DISTINCT) over one dataset counts its linked rows' values.
   */
  lemma InlineTermOncePerRow(e: Env, tree: Tree, conds: seq<Cond>, t: AggTerm, m: Dataset, k: seq<Value>)
    requires Ordered(tree.root, tree.joins) && ToKeyed(e.db, tree.joins)
    requires TermSafe(t, tree.root) && RefsOn(t, m) && m in InTree(tree)
    requires t.refs != [] || m == tree.root
    requires AllInner(tree) || RefsOn(t, tree.root) || NullStrict(e.sem, t)
    ensures SideValue(e.sem, e.ctx, e.db, Direct(tree, conds, t), k)
         == OnceValue(e.sem, e.ctx, e.db, tree, conds, t, t.distinct, m, k)
  {
    if RefsOn(t, tree.root) && (m == tree.root || t.refs != []) {
      assert t.refs != [] ==> t.refs[0].dataset == m == tree.root;
      DirectOnRoot(e.sem, e.ctx, e.db, tree, conds, t, k);
    } else {
      DirectCountDistinct(e.sem, e.ctx, e.db, tree, conds, t, m, k);
    }
  }

  // ---------------------------------------------------- common table expressions

  function EvalCte(e: Env, c: Cte): seq<OutRow> {
    match c.body
    case FlatBody(f) => EvalFlat(e, f)
    case SideBody(s) => EvalSide(e.sem, e.ctx, e.db, s)
  }

  function RowKeys(rows: seq<OutRow>): seq<seq<Value>> {
    Map((r: OutRow) => r.key, rows)
  }

  /** Keyed by its dimension columns: every key of the right width and occurring once. */
  ghost predicate KeyedBy(n: nat, rows: seq<OutRow>) {
    && DupFree(RowKeys(rows))
    && forall i :: 0 <= i < |rows| ==> |rows[i].key| == n
  }

  /** Null-safe equality of all dimension columns; with none, a CROSS JOIN. */
  predicate Matches(n: nat, a: OutRow, b: OutRow)
    requires |a.key| == n && |b.key| == n
  {
    n == 0 || forall i :: 0 <= i < n ==> a.key[i] == b.key[i]
  }

  /** Joins one more table to the joined tuples, whose first component is the anchor. */
  function JoinCte(n: nat, tuples: seq<seq<OutRow>>, rows: seq<OutRow>): seq<seq<OutRow>> {
    FlatMap((t: seq<OutRow>) => JoinTuple(n, t, rows), tuples)
  }

  function JoinTuple(n: nat, t: seq<OutRow>, rows: seq<OutRow>): seq<seq<OutRow>> {
    if |t| > 0 && |t[0].key| == n
    then Map(r => t + [r], Filter((r: OutRow) => |r.key| == n && Matches(n, t[0], r), rows))
    else []
  }

  function JoinAll(n: nat, tables: seq<seq<OutRow>>): seq<seq<OutRow>>
    requires |tables| > 0
  {
    if |tables| == 1 then Map(r => [r], tables[0])
    else JoinCte(n, JoinAll(n, tables[..|tables| - 1]), tables[|tables| - 1])
  }

  /** The row with that key; its position is unique in a keyed table. */
  function RowIndex(rows: seq<OutRow>, k: seq<Value>): (i: nat)
    ensures i <= |rows|
    ensures i < |rows| ==> rows[i].key == k
    ensures forall j :: 0 <= j < i ==> rows[j].key != k
  {
    if rows == [] then 0 else if rows[0].key == k then 0 else 1 + RowIndex(rows[1..], k)
  }

  predicate HasKey(rows: seq<OutRow>, k: seq<Value>) {
    RowIndex(rows, k) < |rows|
  }

  function RowAt(rows: seq<OutRow>, k: seq<Value>): OutRow {
    if HasKey(rows, k) then rows[RowIndex(rows, k)] else OutRow(k, [])
  }

  predicate InAll(tables: seq<seq<OutRow>>, k: seq<Value>) {
    forall i :: 0 <= i < |tables| ==> HasKey(tables[i], k)
  }

  function TupleAt(tables: seq<seq<OutRow>>, k: seq<Value>): seq<OutRow> {
    Map(rows => RowAt(rows, k), tables)
  }

  /** The reference answer: one tuple a key present in every table, holding each table's own row of that key. */
  function Aligned(tables: seq<seq<OutRow>>): seq<seq<OutRow>>
    requires |tables| > 0
  {
    AlignedUpTo(tables, |tables[0]|)
  }

  lemma KeyedRowIndex(n: nat, rows: seq<OutRow>, i: nat)
    requires KeyedBy(n, rows) && i < |rows|
    ensures RowIndex(rows, rows[i].key) == i
  {
    forall j | 0 <= j < i ensures rows[j].key != rows[i].key {
      assert RowKeys(rows)[j] != RowKeys(rows)[i];
    }
  }

  lemma KeyedInit(n: nat, rows: seq<OutRow>, l: nat)
    requires KeyedBy(n, rows) && l + 1 == |rows|
    ensures KeyedBy(n, rows[..l]) && forall j :: 0 <= j < l ==> rows[j].key != rows[l].key
  {
    assert forall i :: 0 <= i < l ==> RowKeys(rows[..l])[i] == RowKeys(rows)[i];
    forall j | 0 <= j < l ensures rows[j].key != rows[l].key {
      assert RowKeys(rows)[j] != RowKeys(rows)[l];
    }
  }

  lemma RowOfLast(init: seq<OutRow>, last: OutRow, k: seq<Value>)
    requires forall j :: 0 <= j < |init| ==> init[j].key != last.key
    ensures HasKey(init + [last], k) <==> HasKey(init, k) || last.key == k
    ensures HasKey(init, k) ==> last.key != k && RowAt(init + [last], k) == RowAt(init, k)
    ensures last.key == k ==> !HasKey(init, k) && RowAt(init + [last], k) == last
  {
    RowIndexLast(init, last, k);
  }

  lemma MatchesIsKey(n: nat, a: OutRow, r: OutRow)
    requires |a.key| == n && |r.key| == n
    ensures Matches(n, a, r) <==> r.key == a.key
  {
  }

  /** A keyed table matches an anchor row in the row of its key, or not at all. */
  lemma {:induction false} MatchOnce(n: nat, a: OutRow, rows: seq<OutRow>)
    requires |a.key| == n && KeyedBy(n, rows)
    ensures Filter((r: OutRow) => |r.key| == n && Matches(n, a, r), rows)
         == if HasKey(rows, a.key) then [RowAt(rows, a.key)] else []
  {
    var p := (r: OutRow) => |r.key| == n && Matches(n, a, r);
    if rows != [] {
      var l := |rows| - 1;
      var init, last := rows[..l], rows[l];
      assert rows == init + [last];
      KeyedInit(n, rows, l);
      MatchOnce(n, a, init);
      MatchesIsKey(n, a, last);
      FilterLast(p, init, last);
      RowOfLast(init, last, a.key);
    }
  }

  lemma {:induction false} RowIndexLast(rows: seq<OutRow>, last: OutRow, k: seq<Value>)
    ensures RowIndex(rows + [last], k)
         == if HasKey(rows, k) then RowIndex(rows, k) else if last.key == k then |rows| else |rows| + 1
  {
    if rows != [] && rows[0].key != k {
      assert (rows + [last])[1..] == rows[1..] + [last];
      RowIndexLast(rows[1..], last, k);
    }
  }

  /** `Aligned` over the first `c` anchor rows. */
  function AlignedUpTo(tables: seq<seq<OutRow>>, c: nat): seq<seq<OutRow>>
    requires |tables| > 0 && c <= |tables[0]|
  {
    if c == 0 then []
    else
      var k := tables[0][c - 1].key;
      AlignedUpTo(tables, c - 1) + if InAll(tables, k) then [TupleAt(tables, k)] else []
  }

  lemma JoinCteLast(n: nat, tuples: seq<seq<OutRow>>, t: seq<OutRow>, rows: seq<OutRow>)
    ensures JoinCte(n, tuples + [t], rows) == JoinCte(n, tuples, rows) + JoinTuple(n, t, rows)
  {
    FlatMapLast((t: seq<OutRow>) => JoinTuple(n, t, rows), tuples, t);
  }

  lemma InAllMore(init: seq<seq<OutRow>>, last: seq<OutRow>, k: seq<Value>)
    ensures InAll(init + [last], k) <==> InAll(init, k) && HasKey(last, k)
  {
    var tables := init + [last];
    assert tables[|init|] == last;
    if InAll(tables, k) {
      forall i | 0 <= i < |init| ensures HasKey(init[i], k) {
        assert HasKey(tables[i], k);
      }
    }
  }

  /** One more joined table keeps the tuples whose key it has. */
  lemma JoinTupleAligned(n: nat, init: seq<seq<OutRow>>, last: seq<OutRow>, k: seq<Value>)
    requires |init| > 0 && KeyedBy(n, init[0]) && KeyedBy(n, last) && InAll(init, k)
    ensures JoinTuple(n, TupleAt(init, k), last) == if HasKey(last, k) then [TupleAt(init + [last], k)] else []
  {
    var t := TupleAt(init, k);
    assert HasKey(init[0], k);
    MatchOnce(n, t[0], last);
    assert TupleAt(init + [last], k) == t + [RowAt(last, k)];
  }

  lemma {:induction false} AlignOne(n: nat, tables: seq<seq<OutRow>>, c: nat)
    requires |tables| == 1 && KeyedBy(n, tables[0]) && c <= |tables[0]|
    ensures Map(r => [r], tables[0][..c]) == AlignedUpTo(tables, c)
  {
    if c > 0 {
      AlignOne(n, tables, c - 1);
      KeyedRowIndex(n, tables[0], c - 1);
      assert tables[0][..c] == tables[0][..c - 1] + [tables[0][c - 1]];
      MapLast(r => [r], tables[0][..c - 1], tables[0][c - 1]);
      assert TupleAt(tables, tables[0][c - 1].key) == [tables[0][c - 1]];
    }
  }

  lemma {:induction false} AlignMore(n: nat, init: seq<seq<OutRow>>, last: seq<OutRow>, c: nat)
    requires |init| > 0 && KeyedBy(n, init[0]) && KeyedBy(n, last) && c <= |init[0]|
    ensures JoinCte(n, AlignedUpTo(init, c), last) == AlignedUpTo(init + [last], c)
  {
    var tables := init + [last];
    if c > 0 {
      AlignMore(n, init, last, c - 1);
      var k := init[0][c - 1].key;
      InAllMore(init, last, k);
      assert tables[0] == init[0];
      if InAll(init, k) {
        JoinCteLast(n, AlignedUpTo(init, c - 1), TupleAt(init, k), last);
        JoinTupleAligned(n, init, last, k);
      } else {
        assert AlignedUpTo(init, c) == AlignedUpTo(init, c - 1);
      }
    }
  }

  /** Joining keyed tables null-safe on all their dimension columns aligns them by key. */
  lemma {:induction false} JoinAligns(n: nat, tables: seq<seq<OutRow>>)
    requires |tables| > 0 && forall i :: 0 <= i < |tables| ==> KeyedBy(n, tables[i])
    ensures JoinAll(n, tables) == Aligned(tables)
    decreases |tables|
  {
    var anchor, l := tables[0], |tables| - 1;
    if l == 0 {
      AlignOne(n, tables, |anchor|);
      assert anchor[..|anchor|] == anchor;
    } else {
      JoinAligns(n, tables[..l]);
      AlignMore(n, tables[..l], tables[l], |anchor|);
      assert tables[..l] + [tables[l]] == tables;
    }
  }

  // ------------------------------------------------------- one row a key

  lemma {:induction false} AlignedIsFilter(tables: seq<seq<OutRow>>, c: nat)
    requires |tables| > 0 && c <= |tables[0]|
    ensures AlignedUpTo(tables, c) == Map(k => TupleAt(tables, k), Filter((k: seq<Value>) => InAll(tables, k), RowKeys(tables[0])[..c]))
  {
    if c > 0 {
      var keys, k := RowKeys(tables[0]), tables[0][c - 1].key;
      AlignedIsFilter(tables, c - 1);
      assert keys[..c] == keys[..c - 1] + [k];
      FilterLast((k: seq<Value>) => InAll(tables, k), keys[..c - 1], k);
      var kept := Filter((k: seq<Value>) => InAll(tables, k), keys[..c - 1]);
      if InAll(tables, k) {
        MapLast(k => TupleAt(tables, k), kept, k);
      } else {
        assert kept + [] == kept;
      }
    }
  }

  /**
   The composite join returns exactly one tuple for every dimension tuple present
   in every table, made of each table's own row for it; exactly one tuple in all
   when there are no dimensions and each table has its one row.
   */
  lemma OneRowPerKey(n: nat, tables: seq<seq<OutRow>>)
    requires |tables| > 0 && forall i :: 0 <= i < |tables| ==> KeyedBy(n, tables[i])
    ensures var keys := Filter((k: seq<Value>) => InAll(tables, k), RowKeys(tables[0]));
            && JoinAll(n, tables) == Map(k => TupleAt(tables, k), keys)
            && DupFree(keys)
            && (forall k :: k in keys <==> InAll(tables, k))
            && (forall k :: k in keys ==> TupleAt(tables, k)[0].key == k)
    ensures n == 0 && (forall i :: 0 <= i < |tables| ==> |tables[i]| == 1) ==> |JoinAll(n, tables)| == 1
  {
    var all := RowKeys(tables[0]);
    JoinAligns(n, tables);
    AlignedIsFilter(tables, |tables[0]|);
    assert all[..|tables[0]|] == all;
    FilterDupFree((k: seq<Value>) => InAll(tables, k), all);
    forall k | InAll(tables, k) ensures k in all && TupleAt(tables, k)[0].key == k {
      assert HasKey(tables[0], k);
      assert all[RowIndex(tables[0], k)] == k;
    }
    if n == 0 && forall i :: 0 <= i < |tables| ==> |tables[i]| == 1 {
      forall i | 0 <= i < |tables| ensures HasKey(tables[i], all[0]) {
        assert tables[i][0].key == [] == all[0];
      }
      assert all == [] + [all[0]];
      FilterLast((k: seq<Value>) => InAll(tables, k), [], all[0]);
    }
  }

  /** Every CTE is keyed by the dimensions; without dimensions it is a single row. */
  lemma SideKeyed(e: Env, s: Side)
    ensures KeyedBy(|e.ctx.dims|, EvalSide(e.sem, e.ctx, e.db, s))
    ensures |e.ctx.dims| == 0 ==> |EvalSide(e.sem, e.ctx, e.db, s)| == 1
    ensures forall r :: r in EvalSide(e.sem, e.ctx, e.db, s) ==> r == OutRow(r.key, [SideValue(e.sem, e.ctx, e.db, s, r.key)])
  {
    var keys, rows := SideKeys(e.sem, e.ctx, e.db, s), EvalSide(e.sem, e.ctx, e.db, s);
    if s.Dedup? {
      DedupKeys(e.sem, e.ctx, e.db, s);
    }
    assert RowKeys(rows) == keys;
    forall i | 0 <= i < |rows| ensures |rows[i].key| == |e.ctx.dims| {
      assert keys[i] in keys;
    }
  }

  lemma FlatKeyed(e: Env, f: Flat)
    ensures KeyedBy(|e.ctx.dims|, EvalFlat(e, f))
    ensures |e.ctx.dims| == 0 && f.having == [] ==> |EvalFlat(e, f)| == 1
    ensures forall r :: r in EvalFlat(e, f) ==> r == FlatRow(e, f, r.key)
  {
    var p := (k: seq<Value>) => forall h :: h in f.having ==> HavingHolds(e, f, h, k);
    var all := FlatKeys(e, f);
    var keys, rows := Filter(p, all), EvalFlat(e, f);
    FilterDupFree(p, all);
    assert RowKeys(rows) == keys;
    forall i | 0 <= i < |rows| ensures |rows[i].key| == |e.ctx.dims| {
      assert keys[i] in keys && keys[i] in all;
    }
    if |e.ctx.dims| == 0 && f.having == [] {
      FilterLast(p, [], []);
      assert [] + [[]] == all;
    }
  }

  // -------------------------------------------------------------- the planner

  function BaseCount(inline: seq<Metric>): nat {
    if inline != [] then 1 else 0
  }

  function NumName(name: string): string { "m_" + name + "_num" }

  function DenName(name: string): string { "m_" + name + "_den" }

  function ColFor(inline: seq<Metric>, name: string): OutCol {
    if MetricIndex(inline, name) < |inline| then Field("base", "m_" + name) else Quotient(NumName(name), DenName(name))
  }

  /** The numerator and denominator subqueries of the first `n` split metrics, in order. */
  ghost predicate SplitCtes(m: Model, ctx: Context, b: nat, splits: seq<Metric>, n: nat, ctes: seq<Cte>)
    requires n <= |splits| && forall i :: 0 <= i < |splits| ==> splits[i].denominator.Some?
  {
    |ctes| == b + 2 * n && forall i {:trigger SplitPair(m, ctx, b, splits, i, ctes)} :: 0 <= i < n ==> SplitPair(m, ctx, b, splits, i, ctes)
  }

  /** The two subqueries of the `i`-th split metric. */
  ghost predicate SplitPair(m: Model, ctx: Context, b: nat, splits: seq<Metric>, i: nat, ctes: seq<Cte>)
    requires i < |splits| && splits[i].denominator.Some?
  {
    var k := b + 2 * i;
    k + 1 < |ctes| && PairIs(m, ctx, splits[i], ctes[k], ctes[k + 1])
  }

  ghost predicate PairIs(m: Model, ctx: Context, mt: Metric, num: Cte, den: Cte)
    requires mt.denominator.Some?
  {
    && num.name == NumName(mt.name) && num.body.SideBody? && PlansSide(m, ctx, mt.numerator, num.body.side)
    && den.name == DenName(mt.name) && den.body.SideBody? && PlansSide(m, ctx, mt.denominator.value, den.body.side)
  }

  lemma SplitCtesMore(m: Model, ctx: Context, b: nat, splits: seq<Metric>, n: nat, ctes: seq<Cte>, num: Cte, den: Cte)
    requires n < |splits| && forall i :: 0 <= i < |splits| ==> splits[i].denominator.Some?
    requires SplitCtes(m, ctx, b, splits, n, ctes) && PairIs(m, ctx, splits[n], num, den)
    ensures SplitCtes(m, ctx, b, splits, n + 1, ctes + [num, den])
  {
    var all := ctes + [num, den];
    forall i | 0 <= i < n + 1 ensures SplitPair(m, ctx, b, splits, i, all) {
      if i < n {
        PairKept(m, ctx, b, splits, i, ctes, all);
      }
    }
  }

  lemma PairKept(m: Model, ctx: Context, b: nat, splits: seq<Metric>, i: nat, ctes: seq<Cte>, all: seq<Cte>)
    requires i < |splits| && splits[i].denominator.Some? && SplitPair(m, ctx, b, splits, i, ctes) && ctes <= all
    ensures SplitPair(m, ctx, b, splits, i, all)
  {
    var k := b + 2 * i;
    assert all[k] == ctes[k] && all[k + 1] == ctes[k + 1];
  }

  ghost predicate PlansQuery(m: Model, ctx: Context, baseRequired: set<Dataset>, inline: seq<Metric>, splits: seq<Metric>,
                             names: seq<string>, filters: seq<MetricFilter>, q: Query)
    requires forall i :: 0 <= i < |splits| ==> splits[i].denominator.Some?
  {
    && SplitCtes(m, ctx, BaseCount(inline), splits, |splits|, q.ctes)
    && (inline != [] ==>
         && q.ctes[0].name == "base" && q.ctes[0].body.FlatBody?
         && PlansFlat(m, ctx, baseRequired, q.ctes[0].body.flat)
         && q.ctes[0].body.flat.metrics == inline && q.ctes[0].body.flat.having == [])
    && q.cols == Map(name => ColFor(inline, name), names)
    && q.filters == Map((f: MetricFilter) => (ColFor(inline, f.metric), f), filters)
  }

  ghost predicate FlatPlannable(m: Model, ctx: Context, required: set<Dataset>) {
    && required != {} && Connectable(m.rels, m.order, required)
    && forall f :: f in ctx.filters ==> FilterOk(f)
  }

  /** Both sides of a ratio can be planned. */
  ghost predicate PairPlannable(m: Model, ctx: Context, mt: Metric)
    requires mt.denominator.Some?
  {
    Plannable(m, ctx, mt.numerator) && Plannable(m, ctx, mt.denominator.value)
  }

  /** The first `n` split metrics can be planned. */
  ghost predicate FirstPlannable(m: Model, ctx: Context, splits: seq<Metric>, n: nat)
    requires n <= |splits| && forall i :: 0 <= i < |splits| ==> splits[i].denominator.Some?
  {
    n == 0 || (FirstPlannable(m, ctx, splits, n - 1) && PairPlannable(m, ctx, splits[n - 1]))
  }

  lemma {:induction false} FirstPlannableDown(m: Model, ctx: Context, splits: seq<Metric>, n: nat, k: nat)
    requires k <= n <= |splits| && forall i :: 0 <= i < |splits| ==> splits[i].denominator.Some?
    requires FirstPlannable(m, ctx, splits, n)
    ensures FirstPlannable(m, ctx, splits, k)
    decreases n
  {
    if k < n {
      FirstPlannableDown(m, ctx, splits, n - 1, k);
    }
  }

  ghost predicate CompositePlannable(m: Model, ctx: Context, baseRequired: set<Dataset>, inline: seq<Metric>, splits: seq<Metric>)
    requires forall i :: 0 <= i < |splits| ==> splits[i].denominator.Some?
  {
    && (inline != [] ==> FlatPlannable(m, ctx, baseRequired))
    && FirstPlannable(m, ctx, splits, |splits|)
  }

  /** Plans the two subqueries of one split ratio. */
  method PlanPair(m: Model, ctx: Context, mt: Metric) returns (r: Result<(Cte, Cte)>)
    requires mt.denominator.Some?
    ensures r.Ok? <==> PairPlannable(m, ctx, mt)
    ensures r.Ok? ==> PairIs(m, ctx, mt, r.value.0, r.value.1)
  {
    var num := PlanSide(m, ctx, mt.numerator);
    if num.Err? {
      return Err(num.error);
    }
    var den := PlanSide(m, ctx, mt.denominator.value);
    if den.Err? {
      return Err(den.error);
    }
    return Ok((Cte(NumName(mt.name), SideBody(num.value)), Cte(DenName(mt.name), SideBody(den.value))));
  }

  /** Adds the two subqueries of every split ratio. */
  method PlanSplits(m: Model, ctx: Context, splits: seq<Metric>, base: seq<Cte>) returns (r: Result<seq<Cte>>)
    requires forall i :: 0 <= i < |splits| ==> splits[i].denominator.Some?
    ensures r.Ok? <==> FirstPlannable(m, ctx, splits, |splits|)
    ensures r.Ok? ==> base <= r.value && SplitCtes(m, ctx, |base|, splits, |splits|, r.value)
  {
    var ctes := base;
    for i := 0 to |splits|
      invariant base <= ctes && SplitCtes(m, ctx, |base|, splits, i, ctes)
      invariant FirstPlannable(m, ctx, splits, i)
    {
      var pair := PlanPair(m, ctx, splits[i]);
      if pair.Err? {
        if FirstPlannable(m, ctx, splits, |splits|) {
          FirstPlannableDown(m, ctx, splits, |splits|, i + 1);
        }
        return Err(pair.error);
      }
      SplitCtesMore(m, ctx, |base|, splits, i, ctes, pair.value.0, pair.value.1);
      ctes := ctes + [pair.value.0, pair.value.1];
    }
    return Ok(ctes);
  }

  /** Plans the base query and two subqueries for every split ratio. */
  method PlanComposite(m: Model, ctx: Context, baseRequired: set<Dataset>, inline: seq<Metric>, splits: seq<Metric>,
                       names: seq<string>, filters: seq<MetricFilter>)
    returns (r: Result<Query>)
    requires FilterDatasets(ctx.groups) <= baseRequired
    requires splits != [] && forall i :: 0 <= i < |splits| ==> splits[i].denominator.Some?
    ensures r.Ok? <==> CompositePlannable(m, ctx, baseRequired, inline, splits)
    ensures r.Ok? ==> PlansQuery(m, ctx, baseRequired, inline, splits, names, filters, r.value)
  {
    var ctes: seq<Cte> := [];
    var b := BaseCount(inline);
    if |inline| > 0 {
      var f := PlanFlat(m, ctx, baseRequired, inline, []);
      if f.Err? {
        return Err(f.error);
      }
      ctes := [Cte("base", FlatBody(f.value))];
    }
    var all := PlanSplits(m, ctx, splits, ctes);
    if all.Err? {
      return Err(all.error);
    }
    ctes := all.value;
    var cols := Map(name => ColFor(inline, name), names);
    var wheres := Map((f: MetricFilter) => (ColFor(inline, f.metric), f), filters);
    return Ok(Query(ctes, cols, wheres));
  }

  // ------------------------------------------------------------- its meaning

  /** The first CTE of that name. */
  function CteIndex(ctes: seq<Cte>, name: string): (i: nat)
    ensures i <= |ctes|
    ensures i < |ctes| ==> ctes[i].name == name
    ensures forall j :: 0 <= j < i ==> ctes[j].name != name
  {
    if ctes == [] then 0 else if ctes[0].name == name then 0 else 1 + CteIndex(ctes[1..], name)
  }

  function Cell(t: seq<OutRow>, i: nat, c: nat): Value {
    if i < |t| && c < |t[i].vals| then t[i].vals[c] else Null
  }

  /** The column an alias such as m_NAME resolves to. */
  function ColumnIndex(ms: seq<Metric>, column: string): (i: nat)
    ensures i <= |ms|
    ensures i < |ms| ==> "m_" + ms[i].name == column
    ensures forall j :: 0 <= j < i ==> "m_" + ms[j].name != column
  {
    if ms == [] then 0 else if "m_" + ms[0].name == column then 0 else 1 + ColumnIndex(ms[1..], column)
  }

  function ColVal(div: (Value, Value) -> Value, q: Query, c: OutCol, t: seq<OutRow>): Value {
    match c
    case Field(cte, column) =>
      var i := CteIndex(q.ctes, cte);
      if i < |q.ctes| && q.ctes[i].body.FlatBody? then Cell(t, i, ColumnIndex(q.ctes[i].body.flat.metrics, column)) else Null
    case Quotient(num, den) =>
      Ratio(div, Cell(t, CteIndex(q.ctes, num), 0), Cell(t, CteIndex(q.ctes, den), 0))
  }

  /** What the outer SELECT reads of the engine: division and comparison. */
  datatype Ops = Ops(div: (Value, Value) -> Value, test: (string, Value, seq<Value>) -> bool)

  predicate Kept(ops: Ops, q: Query, t: seq<OutRow>) {
    forall f :: f in q.filters ==> ops.test(f.1.op, ColVal(ops.div, q, f.0, t), MetricOperands(f.1))
  }

  function QueryRow(ops: Ops, q: Query, t: seq<OutRow>): OutRow {
    OutRow(if |t| > 0 then t[0].key else [], Map(c => ColVal(ops.div, q, c, t), q.cols))
  }

  /** The outer SELECT over the tables of the CTEs. */
  function Answer(ops: Ops, n: nat, q: Query, tables: seq<seq<OutRow>>): seq<OutRow>
    requires |tables| > 0
  {
    Map(t => QueryRow(ops, q, t), Filter((t: seq<OutRow>) => Kept(ops, q, t), JoinAll(n, tables)))
  }

  function QueryTables(e: Env, q: Query): seq<seq<OutRow>> {
    Map(c => EvalCte(e, c), q.ctes)
  }

  function EvalQuery(e: Env, q: Query): seq<OutRow>
    requires |q.ctes| > 0
  {
    Answer(Ops(e.div, e.sem.test), |e.ctx.dims|, q, QueryTables(e, q))
  }

  /** The base query first, then a numerator and a denominator for each split metric. */
  function CteName(inline: seq<Metric>, splits: seq<Metric>, i: nat): string
    requires i < BaseCount(inline) + 2 * |splits|
  {
    var b := BaseCount(inline);
    if i < b then "base" else Affixed(splits[(i - b) / 2].name, (i - b) % 2 == 0)
  }

  function Affixed(name: string, numerator: bool): string {
    if numerator then NumName(name) else DenName(name)
  }

  /** The layout of a composite query: its tables in order, by name and kind, and its columns. */
  ghost predicate Shaped(inline: seq<Metric>, splits: seq<Metric>, names: seq<string>, filters: seq<MetricFilter>, q: Query) {
    var b := BaseCount(inline);
    && |q.ctes| == b + 2 * |splits|
    && (inline != [] ==> q.ctes[0].body.FlatBody? && q.ctes[0].body.flat.metrics == inline)
    && (forall i :: 0 <= i < |q.ctes| ==> q.ctes[i].name == CteName(inline, splits, i) && (i >= b ==> q.ctes[i].body.SideBody?))
    && q.cols == Map(name => ColFor(inline, name), names)
    && q.filters == Map((f: MetricFilter) => (ColFor(inline, f.metric), f), filters)
  }

  lemma PairNamed(m: Model, ctx: Context, inline: seq<Metric>, splits: seq<Metric>, x: nat, ctes: seq<Cte>, i: nat)
    requires x < |splits| && splits[x].denominator.Some? && SplitPair(m, ctx, BaseCount(inline), splits, x, ctes)
    requires i == BaseCount(inline) + 2 * x || i == BaseCount(inline) + 2 * x + 1
    ensures i < |ctes| && i < BaseCount(inline) + 2 * |splits| && ctes[i].body.SideBody?
    ensures ctes[i].name == CteName(inline, splits, i)
  {
    SplitNames(inline, splits, x);
  }

  lemma PlansAreShaped(m: Model, ctx: Context, baseRequired: set<Dataset>, inline: seq<Metric>, splits: seq<Metric>,
                       names: seq<string>, filters: seq<MetricFilter>, q: Query)
    requires forall i :: 0 <= i < |splits| ==> splits[i].denominator.Some?
    requires PlansQuery(m, ctx, baseRequired, inline, splits, names, filters, q)
    ensures Shaped(inline, splits, names, filters, q)
  {
    var b := BaseCount(inline);
    forall i | 0 <= i < |q.ctes|
      ensures q.ctes[i].name == CteName(inline, splits, i) && (i >= b ==> q.ctes[i].body.SideBody?)
    {
      if i >= b {
        var x := (i - b) / 2;
        assert SplitPair(m, ctx, b, splits, x, q.ctes);
        PairNamed(m, ctx, inline, splits, x, q.ctes, i);
      }
    }
  }

  /** A metric's value in a joined tuple: its base column, or the ratio of its own two tables. */
  function MetricCell(ops: Ops, inline: seq<Metric>, splits: seq<Metric>, name: string, t: seq<OutRow>): Value {
    var ii, i := MetricIndex(inline, name), BaseCount(inline) + 2 * MetricIndex(splits, name);
    if ii < |inline| then Cell(t, 0, ii) else Ratio(ops.div, Cell(t, i, 0), Cell(t, i + 1, 0))
  }

  ghost predicate DistinctNames(ms: seq<Metric>) {
    forall i, j :: 0 <= i < j < |ms| ==> ms[i].name != ms[j].name
  }

  ghost predicate DistinctCtes(ctes: seq<Cte>) {
    forall i, j :: 0 <= i < j < |ctes| ==> ctes[i].name != ctes[j].name
  }

  lemma AffixInjective(pre: string, a: string, b: string, post: string)
    requires pre + a + post == pre + b + post
    ensures a == b
  {
    assert |a| == |b|;
    assert (pre + a + post)[|pre|..|pre| + |a|] == a;
    assert (pre + b + post)[|pre|..|pre| + |b|] == b;
  }

  lemma NamesDiffer(a: string, b: string)
    ensures NumName(a) != DenName(b) && NumName(a) != "base" && DenName(a) != "base"
    ensures NumName(a) == NumName(b) ==> a == b
    ensures DenName(a) == DenName(b) ==> a == b
  {
    assert NumName(a)[|NumName(a)| - 1] == 'm' && DenName(b)[|DenName(b)| - 1] == 'n';
    assert NumName(a)[0] == 'm' && DenName(a)[0] == 'm' && "base"[0] == 'b';
    if NumName(a) == NumName(b) {
      AffixInjective("m_", a, b, "_num");
    }
    if DenName(a) == DenName(b) {
      AffixInjective("m_", a, b, "_den");
    }
  }

  lemma SplitNames(inline: seq<Metric>, splits: seq<Metric>, si: nat)
    requires si < |splits|
    ensures CteName(inline, splits, BaseCount(inline) + 2 * si) == NumName(splits[si].name)
    ensures CteName(inline, splits, BaseCount(inline) + 2 * si + 1) == DenName(splits[si].name)
  {
    Halves(BaseCount(inline), si);
  }

  lemma Halves(b: nat, x: nat)
    ensures (b + 2 * x - b) / 2 == x && (b + 2 * x - b) % 2 == 0
    ensures (b + 2 * x + 1 - b) / 2 == x && (b + 2 * x + 1 - b) % 2 == 1
  {}

  lemma AffixedDiffer(a: string, b: string, num: bool, num': bool)
    ensures Affixed(a, num) != "base"
    ensures a != b || num != num' ==> Affixed(a, num) != Affixed(b, num')
  {
    NamesDiffer(a, b);
    NamesDiffer(b, a);
  }

  lemma CteNamePair(inline: seq<Metric>, splits: seq<Metric>, i: nat, j: nat)
    requires DistinctNames(splits) && i < j < BaseCount(inline) + 2 * |splits|
    ensures CteName(inline, splits, i) != CteName(inline, splits, j)
  {
    var b := BaseCount(inline);
    var y := (j - b) / 2;
    if i < b {
      AffixedDiffer(splits[y].name, "", (j - b) % 2 == 0, true);
    } else {
      var x := (i - b) / 2;
      assert x == y ==> (i - b) % 2 != (j - b) % 2;
      assert x != y ==> splits[x].name != splits[y].name;
      var p, q := (i - b) % 2 == 0, (j - b) % 2 == 0;
      AffixedDiffer(splits[x].name, splits[y].name, p, q);
      assert CteName(inline, splits, i) == Affixed(splits[x].name, p) && CteName(inline, splits, j) == Affixed(splits[y].name, q);
    }
  }

  /** The query's table names are distinct exactly when no split metric is requested twice. */
  lemma CteNamesDistinct(inline: seq<Metric>, splits: seq<Metric>, names: seq<string>, filters: seq<MetricFilter>, q: Query)
    requires Shaped(inline, splits, names, filters, q)
    ensures DistinctCtes(q.ctes) <==> DistinctNames(splits)
  {
    var b := BaseCount(inline);
    if DistinctNames(splits) {
      forall i, j | 0 <= i < j < |q.ctes| ensures q.ctes[i].name != q.ctes[j].name {
        CteNamePair(inline, splits, i, j);
      }
    }
    if DistinctCtes(q.ctes) {
      forall i, j | 0 <= i < j < |splits| ensures splits[i].name != splits[j].name {
        SplitNames(inline, splits, i);
        SplitNames(inline, splits, j);
        assert q.ctes[b + 2 * i].name != q.ctes[b + 2 * j].name;
      }
    }
  }

  lemma CteIndexAt(ctes: seq<Cte>, i: nat)
    requires DistinctCtes(ctes) && i < |ctes|
    ensures CteIndex(ctes, ctes[i].name) == i
  {}

  lemma {:induction false} ColumnIsMetric(ms: seq<Metric>, name: string)
    ensures ColumnIndex(ms, "m_" + name) == MetricIndex(ms, name)
  {
    if ms != [] {
      ColumnIsMetric(ms[1..], name);
      assert ("m_" + ms[0].name)[2..] == ms[0].name && ("m_" + name)[2..] == name;
    }
  }

  ghost predicate Known(inline: seq<Metric>, splits: seq<Metric>, name: string) {
    MetricIndex(inline, name) < |inline| || MetricIndex(splits, name) < |splits|
  }

  lemma QuotientAt(div: (Value, Value) -> Value, inline: seq<Metric>, splits: seq<Metric>, names: seq<string>, filters: seq<MetricFilter>,
                   q: Query, si: nat, t: seq<OutRow>)
    requires Shaped(inline, splits, names, filters, q) && DistinctNames(splits) && si < |splits|
    ensures ColVal(div, q, Quotient(NumName(splits[si].name), DenName(splits[si].name)), t)
         == Ratio(div, Cell(t, BaseCount(inline) + 2 * si, 0), Cell(t, BaseCount(inline) + 2 * si + 1, 0))
  {
    var i := BaseCount(inline) + 2 * si;
    SplitNames(inline, splits, si);
    CteNamesDistinct(inline, splits, names, filters, q);
    CteIndexAt(q.ctes, i);
    CteIndexAt(q.ctes, i + 1);
  }

  lemma FieldAt(div: (Value, Value) -> Value, inline: seq<Metric>, splits: seq<Metric>, names: seq<string>, filters: seq<MetricFilter>,
                q: Query, name: string, t: seq<OutRow>)
    requires Shaped(inline, splits, names, filters, q) && MetricIndex(inline, name) < |inline|
    ensures ColVal(div, q, Field("base", "m_" + name), t) == Cell(t, 0, MetricIndex(inline, name))
  {
    assert q.ctes[0].name == "base" && CteIndex(q.ctes, "base") == 0;
    ColumnIsMetric(inline, name);
  }

  /** An output column resolves to the metric's own value. */
  lemma ColIsCell(ops: Ops, inline: seq<Metric>, splits: seq<Metric>, names: seq<string>, filters: seq<MetricFilter>,
                  q: Query, name: string, t: seq<OutRow>)
    requires Shaped(inline, splits, names, filters, q) && DistinctNames(splits) && Known(inline, splits, name)
    ensures ColVal(ops.div, q, ColFor(inline, name), t) == MetricCell(ops, inline, splits, name, t)
  {
    if MetricIndex(inline, name) < |inline| {
      FieldAt(ops.div, inline, splits, names, filters, q, name, t);
    } else {
      QuotientAt(ops.div, inline, splits, names, filters, q, MetricIndex(splits, name), t);
    }
  }

  /** A tuple passes when every metric filter holds of the metric's own value. */
  predicate Passes(ops: Ops, inline: seq<Metric>, splits: seq<Metric>, filters: seq<MetricFilter>, t: seq<OutRow>) {
    forall f :: f in filters ==> ops.test(f.op, MetricCell(ops, inline, splits, f.metric, t), MetricOperands(f))
  }

  lemma KeptIsPasses(ops: Ops, inline: seq<Metric>, splits: seq<Metric>, names: seq<string>, filters: seq<MetricFilter>,
                     q: Query, t: seq<OutRow>)
    requires Shaped(inline, splits, names, filters, q) && DistinctNames(splits)
    requires forall f :: f in filters ==> Known(inline, splits, f.metric)
    ensures Kept(ops, q, t) <==> Passes(ops, inline, splits, filters, t)
  {
    forall i | 0 <= i < |filters|
      ensures filters[i] in filters && q.filters[i] in q.filters && q.filters[i] == (ColFor(inline, filters[i].metric), filters[i])
      ensures ColVal(ops.div, q, q.filters[i].0, t) == MetricCell(ops, inline, splits, filters[i].metric, t)
    {
      assert Known(inline, splits, filters[i].metric);
      ColIsCell(ops, inline, splits, names, filters, q, filters[i].metric, t);
    }
    if Kept(ops, q, t) {
      forall f | f in filters ensures ops.test(f.op, MetricCell(ops, inline, splits, f.metric, t), MetricOperands(f)) {
        var i :| 0 <= i < |filters| && filters[i] == f;
        assert q.filters[i] in q.filters;
      }
    }
  }

  lemma RowIsCells(ops: Ops, inline: seq<Metric>, splits: seq<Metric>, names: seq<string>, filters: seq<MetricFilter>,
                   q: Query, t: seq<OutRow>)
    requires Shaped(inline, splits, names, filters, q) && DistinctNames(splits) && |t| > 0
    requires forall name :: name in names ==> Known(inline, splits, name)
    ensures QueryRow(ops, q, t) == OutRow(t[0].key, Map(name => MetricCell(ops, inline, splits, name, t), names))
  {
    var row := QueryRow(ops, q, t);
    forall i | 0 <= i < |names| ensures row.vals[i] == MetricCell(ops, inline, splits, names[i], t) {
      assert names[i] in names && Known(inline, splits, names[i]);
      ColIsCell(ops, inline, splits, names, filters, q, names[i], t);
    }
  }

  lemma {:induction false} FilterMap<A(!new), B(!new)>(p: B -> bool, g: A -> B, r: A -> bool, s: seq<A>)
    requires forall x :: x in s ==> p(g(x)) == r(x)
    ensures Filter(p, Map(g, s)) == Map(g, Filter(r, s))
  {
    if s != [] {
      var n := |s| - 1;
      var init, last := s[..n], s[n];
      assert s == init + [last];
      assert last in s && forall x :: x in init ==> x in s;
      FilterMap(p, g, r, init);
      MapLast(g, init, last);
      FilterLast(p, Map(g, init), g(last));
      FilterLast(r, init, last);
      if r(last) {
        MapLast(g, Filter(r, init), last);
      } else {
        NothingMore(Filter(r, init), Map(g, Filter(r, init)));
      }
    }
  }

  lemma NothingMore<A, B>(s: seq<A>, t: seq<B>)
    ensures s + [] == s && t + [] == t
  {
  }

  lemma PassingTuples(ops: Ops, inline: seq<Metric>, splits: seq<Metric>, filters: seq<MetricFilter>,
                      tables: seq<seq<OutRow>>, ks: seq<seq<Value>>)
    ensures Filter((t: seq<OutRow>) => Passes(ops, inline, splits, filters, t), Map(k => TupleAt(tables, k), ks))
         == Map(k => TupleAt(tables, k), Filter((k: seq<Value>) => Passes(ops, inline, splits, filters, TupleAt(tables, k)), ks))
  {
    FilterMap((t: seq<OutRow>) => Passes(ops, inline, splits, filters, t), k => TupleAt(tables, k),
              (k: seq<Value>) => Passes(ops, inline, splits, filters, TupleAt(tables, k)), ks);
  }

  /** The dimension tuples present in every table whose tuple passes the metric filters, in the anchor's order. */
  function AnswerKeys(ops: Ops, inline: seq<Metric>, splits: seq<Metric>, filters: seq<MetricFilter>, tables: seq<seq<OutRow>>): seq<seq<Value>>
    requires |tables| > 0
  {
    Filter((k: seq<Value>) => Passes(ops, inline, splits, filters, TupleAt(tables, k)),
           Filter((k: seq<Value>) => InAll(tables, k), RowKeys(tables[0])))
  }

  lemma AnswerKeysAre(ops: Ops, n: nat, inline: seq<Metric>, splits: seq<Metric>, filters: seq<MetricFilter>, tables: seq<seq<OutRow>>)
    requires |tables| > 0 && forall i :: 0 <= i < |tables| ==> KeyedBy(n, tables[i])
    ensures DupFree(AnswerKeys(ops, inline, splits, filters, tables))
    ensures forall k :: k in AnswerKeys(ops, inline, splits, filters, tables)
                   <==> InAll(tables, k) && Passes(ops, inline, splits, filters, TupleAt(tables, k))
  {
    OneRowPerKey(n, tables);
    FilterDupFree((k: seq<Value>) => Passes(ops, inline, splits, filters, TupleAt(tables, k)),
                  Filter((k: seq<Value>) => InAll(tables, k), RowKeys(tables[0])));
  }

  /** The tuples the metric filters keep are those of the answer's keys. */
  lemma KeptTuples(ops: Ops, n: nat, inline: seq<Metric>, splits: seq<Metric>, names: seq<string>, filters: seq<MetricFilter>,
                   q: Query, tables: seq<seq<OutRow>>)
    requires Shaped(inline, splits, names, filters, q) && DistinctNames(splits)
    requires |tables| > 0 && forall i :: 0 <= i < |tables| ==> KeyedBy(n, tables[i])
    requires forall f :: f in filters ==> Known(inline, splits, f.metric)
    ensures Filter((t: seq<OutRow>) => Kept(ops, q, t), JoinAll(n, tables))
         == Map(k => TupleAt(tables, k), AnswerKeys(ops, inline, splits, filters, tables))
  {
    OneRowPerKey(n, tables);
    var kept, passes := (t: seq<OutRow>) => Kept(ops, q, t), (t: seq<OutRow>) => Passes(ops, inline, splits, filters, t);
    forall t | t in JoinAll(n, tables) ensures kept(t) == passes(t) {
      KeptIsPasses(ops, inline, splits, names, filters, q, t);
    }
    FilterCong(kept, passes, JoinAll(n, tables));
    PassingTuples(ops, inline, splits, filters, tables, Filter((k: seq<Value>) => InAll(tables, k), RowKeys(tables[0])));
  }

  /** The row of an answered key. */
  function AnswerRow(ops: Ops, inline: seq<Metric>, splits: seq<Metric>, names: seq<string>, tables: seq<seq<OutRow>>, k: seq<Value>): OutRow {
    OutRow(k, Map(name => MetricCell(ops, inline, splits, name, TupleAt(tables, k)), names))
  }

  /**
   The outer SELECT returns, for each dimension tuple present in every table and
   passing the metric filters, exactly one row, whose columns are the requested
   metrics' own values for that tuple.
   */
  lemma AnswerMeaning(ops: Ops, n: nat, inline: seq<Metric>, splits: seq<Metric>, names: seq<string>, filters: seq<MetricFilter>,
                      q: Query, tables: seq<seq<OutRow>>)
    requires Shaped(inline, splits, names, filters, q) && DistinctNames(splits)
    requires |tables| > 0 && forall i :: 0 <= i < |tables| ==> KeyedBy(n, tables[i])
    requires forall f :: f in filters ==> Known(inline, splits, f.metric)
    requires forall name :: name in names ==> Known(inline, splits, name)
    ensures DupFree(AnswerKeys(ops, inline, splits, filters, tables))
    ensures forall k :: k in AnswerKeys(ops, inline, splits, filters, tables)
                   <==> InAll(tables, k) && Passes(ops, inline, splits, filters, TupleAt(tables, k))
    ensures Answer(ops, n, q, tables) == Map(k => AnswerRow(ops, inline, splits, names, tables, k), AnswerKeys(ops, inline, splits, filters, tables))
  {
    KeptTuples(ops, n, inline, splits, names, filters, q, tables);
    AnswerKeysAre(ops, n, inline, splits, filters, tables);
    var keys := AnswerKeys(ops, inline, splits, filters, tables);
    forall i | 0 <= i < |keys|
      ensures QueryRow(ops, q, TupleAt(tables, keys[i])) == AnswerRow(ops, inline, splits, names, tables, keys[i])
    {
      assert keys[i] in keys;
      TupleKey(tables, keys[i]);
      RowIsCells(ops, inline, splits, names, filters, q, TupleAt(tables, keys[i]));
    }
  }

  lemma TupleKey(tables: seq<seq<OutRow>>, k: seq<Value>)
    requires |tables| > 0 && InAll(tables, k)
    ensures TupleAt(tables, k)[0].key == k
  {
    assert HasKey(tables[0], k);
  }

  lemma TablesKeyed(e: Env, q: Query)
    ensures forall i :: 0 <= i < |q.ctes| ==> KeyedBy(|e.ctx.dims|, QueryTables(e, q)[i])
  {
    forall i | 0 <= i < |q.ctes| ensures KeyedBy(|e.ctx.dims|, QueryTables(e, q)[i]) {
      match q.ctes[i].body
      case FlatBody(f) => FlatKeyed(e, f);
      case SideBody(s) => SideKeyed(e, s);
    }
  }

  /** The composite query of a plan: one row a dimension tuple, each column the metric's own value. */
  lemma CompositeMeaning(e: Env, m: Model, baseRequired: set<Dataset>, inline: seq<Metric>, splits: seq<Metric>,
                         names: seq<string>, filters: seq<MetricFilter>, q: Query)
    requires splits != [] && forall i :: 0 <= i < |splits| ==> splits[i].denominator.Some?
    requires PlansQuery(m, e.ctx, baseRequired, inline, splits, names, filters, q) && DistinctNames(splits)
    requires forall f :: f in filters ==> Known(inline, splits, f.metric)
    requires forall name :: name in names ==> Known(inline, splits, name)
    ensures |q.ctes| > 0
    ensures var ops, tables := Ops(e.div, e.sem.test), QueryTables(e, q);
            var keys := AnswerKeys(ops, inline, splits, filters, tables);
            && DupFree(keys)
            && (forall k :: k in keys <==> InAll(tables, k) && Passes(ops, inline, splits, filters, TupleAt(tables, k)))
            && EvalQuery(e, q) == Map(k => AnswerRow(ops, inline, splits, names, tables, k), keys)
  {
    PlansAreShaped(m, e.ctx, baseRequired, inline, splits, names, filters, q);
    TablesKeyed(e, q);
    AnswerMeaning(Ops(e.div, e.sem.test), |e.ctx.dims|, inline, splits, names, filters, q, QueryTables(e, q));
  }

  lemma RowAtKey(rows: seq<OutRow>, k: seq<Value>)
    requires HasKey(rows, k)
    ensures RowAt(rows, k) in rows && RowAt(rows, k).key == k
  {}

  lemma SideCell(e: Env, q: Query, i: nat, k: seq<Value>)
    requires i < |q.ctes| && q.ctes[i].body.SideBody? && InAll(QueryTables(e, q), k)
    ensures Cell(TupleAt(QueryTables(e, q), k), i, 0) == SideValue(e.sem, e.ctx, e.db, q.ctes[i].body.side, k)
  {
    var tables := QueryTables(e, q);
    assert HasKey(tables[i], k);
    RowAtKey(tables[i], k);
    SideKeyed(e, q.ctes[i].body.side);
  }

  lemma BaseCell(e: Env, q: Query, c: nat, k: seq<Value>)
    requires |q.ctes| > 0 && q.ctes[0].body.FlatBody? && c < |q.ctes[0].body.flat.metrics| && InAll(QueryTables(e, q), k)
    ensures var f := q.ctes[0].body.flat;
            Cell(TupleAt(QueryTables(e, q), k), 0, c) == InlineVal(e, f.tree, f.conds, f.metrics[c], k)
  {
    var tables := QueryTables(e, q);
    assert HasKey(tables[0], k);
    RowAtKey(tables[0], k);
    FlatKeyed(e, q.ctes[0].body.flat);
  }

  lemma SideCellOnce(e: Env, m: Model, q: Query, i: nat, t: AggTerm, k: seq<Value>)
    requires i < |q.ctes| && q.ctes[i].body.SideBody? && PlansSide(m, e.ctx, t, q.ctes[i].body.side)
    requires |TermDatasets(t)| == 1 && SideSound(e.sem, e.db, q.ctes[i].body.side) && DistinctSafe(q.ctes[i].body.side)
    requires InAll(QueryTables(e, q), k)
    ensures Cell(TupleAt(QueryTables(e, q), k), i, 0) == OnceOf(e.sem, e.ctx, e.db, q.ctes[i].body.side, k)
  {
    SideCell(e, q, i, k);
    SideValueOnce(e.sem, m, e.ctx, e.db, t, q.ctes[i].body.side, k);
  }

  lemma MetricCellIsRatio(ops: Ops, inline: seq<Metric>, splits: seq<Metric>, name: string, i: nat, t: seq<OutRow>)
    requires MetricIndex(inline, name) == |inline| && i == BaseCount(inline) + 2 * MetricIndex(splits, name)
    ensures MetricCell(ops, inline, splits, name, t) == Ratio(ops.div, Cell(t, i, 0), Cell(t, i + 1, 0))
  {}

  lemma MetricIndexAt(ms: seq<Metric>, i: nat)
    requires DistinctNames(ms) && i < |ms|
    ensures MetricIndex(ms, ms[i].name) == i
  {
    var j := MetricIndex(ms, ms[i].name);
    assert j <= i;
  }

  /** A planned side over one measure dataset that keeps its DISTINCT, on a database that meets the model's declarations. */
  ghost predicate SoundSide(e: Env, m: Model, t: AggTerm, body: CteBody) {
    && body.SideBody? && PlansSide(m, e.ctx, t, body.side) && |TermDatasets(t)| == 1
    && SideSound(e.sem, e.db, body.side) && DistinctSafe(body.side)
  }

  /**
   The column of a split ratio is its two sides' aggregates, each over the measure
   rows linked to the row's dimension tuple, taken once: fan-out does not reach it.
   */
  lemma SplitColumnOncePerRow(e: Env, m: Model, inline: seq<Metric>, splits: seq<Metric>, q: Query, si: nat, i: nat, k: seq<Value>)
    returns (num: Value, den: Value)
    requires DistinctNames(splits) && si < |splits| && splits[si].denominator.Some?
    requires i == BaseCount(inline) + 2 * si && i + 1 < |q.ctes|
    requires SoundSide(e, m, splits[si].numerator, q.ctes[i].body) && SoundSide(e, m, splits[si].denominator.value, q.ctes[i + 1].body)
    requires MetricIndex(inline, splits[si].name) == |inline|
    requires InAll(QueryTables(e, q), k)
    ensures num == OnceOf(e.sem, e.ctx, e.db, q.ctes[i].body.side, k)
    ensures den == OnceOf(e.sem, e.ctx, e.db, q.ctes[i + 1].body.side, k)
    ensures MetricCell(Ops(e.div, e.sem.test), inline, splits, splits[si].name, TupleAt(QueryTables(e, q), k)) == Ratio(e.div, num, den)
  {
    var t := TupleAt(QueryTables(e, q), k);
    num, den := Cell(t, i, 0), Cell(t, i + 1, 0);
    MetricIndexAt(splits, si);
    MetricCellIsRatio(Ops(e.div, e.sem.test), inline, splits, splits[si].name, i, t);
    SideCellOnce(e, m, q, i, splits[si].numerator, k);
    SideCellOnce(e, m, q, i + 1, splits[si].denominator.value, k);
  }
}
