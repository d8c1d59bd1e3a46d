/** What fan-out and a dropped DISTINCT can change. */
module FanOut {
  // For a planned query, over every engine that shares an aggregate and every sound database: exactly when a side
  // keeps its DISTINCT, and exactly when a column of the single pass is taken once per row. The other direction
  // needs a database for any tree and any bag of values; it is built from rows that carry one number, their tag.

  import opened Fields
  import opened Options
  import opened JoinGraph
  import opened JoinTree
  import opened Relational
  import opened Seqs
  import opened Terms
  import opened SideQuery
  import opened Composite

  type Agg = (string, multiset<Value>) -> Value

  /** Every relationship pairs at least one column, as validation demands. */
  ghost predicate Paired(joins: seq<Relationship>) {
    forall k :: 0 <= k < |joins| ==> PairedAt(joins[k])
  }

  predicate PairedAt(rel: Relationship) {
    rel.fromColumns != [] && |rel.fromColumns| == |rel.toColumns|
  }

  lemma JoinsPaired(rels: seq<Relationship>, joins: seq<Relationship>)
    requires Paired(rels) && forall k :: 0 <= k < |joins| ==> joins[k] in rels
    ensures Paired(joins)
  {
    forall k | 0 <= k < |joins| ensures PairedAt(joins[k]) {
      var i :| 0 <= i < |rels| && rels[i] == joins[k];
    }
  }

  // ------------------------------------------------------ the tagged database

  /** Every column holds the tag. */
  function TagRow(cols: set<string>, n: int): Row {
    map c | c in cols :: Num(n)
  }

  function TagTable(cols: set<string>, tags: seq<int>): seq<Row> {
    Map(n => TagRow(cols, n), tags)
  }

  /** The root holds rows tagged `roots`, every other dataset one row a tag. */
  function TagDb(cols: set<string>, tree: Tree, roots: seq<int>, tags: seq<int>): Database {
    map ds | ds in InTree(tree) :: TagTable(cols, if ds == tree.root then roots else tags)
  }

  function TagJoined(cols: set<string>, bound: set<Dataset>, n: int): Joined {
    map ds | ds in bound :: Some(TagRow(cols, n))
  }

  /** Columns the rows must have for the joins to be evaluated on them. */
  ghost predicate HasColumns(cols: set<string>, joins: seq<Relationship>) {
    forall k :: 0 <= k < |joins| ==> ColumnsIn(cols, joins[k])
  }

  ghost predicate ColumnsIn(cols: set<string>, rel: Relationship) {
    (forall c :: c in rel.fromColumns ==> c in cols) && forall c :: c in rel.toColumns ==> c in cols
  }

  lemma TagTuple(cols: set<string>, names: seq<string>, n: int)
    requires forall c :: c in names ==> c in cols
    ensures Tuple(TagRow(cols, n), names) == seq(|names|, i => Num(n))
  {
  }

  lemma TagOn(cols: set<string>, rel: Relationship, bound: set<Dataset>, n: int, m: int)
    requires PairedAt(rel) && ColumnsIn(cols, rel) && rel.from in bound
    ensures On(rel, TagJoined(cols, bound, n), TagRow(cols, m)) <==> m == n
  {
    TagTuple(cols, rel.toColumns, m);
    TagTuple(cols, rel.fromColumns, n);
    assert Bound(TagJoined(cols, bound, n), rel.from) == TagRow(cols, n);
    var a, b := Tuple(TagRow(cols, n), rel.fromColumns), Tuple(TagRow(cols, m), rel.toColumns);
    assert a[0] == Num(n) && b[0] == Num(m);
  }

  lemma {:induction false} FilterTag<B(!new)>(p: B -> bool, f: int -> B, tags: seq<int>, n: int)
    requires DupFree(tags) && forall m :: m in tags ==> (p(f(m)) <==> m == n)
    ensures Filter(p, Map(f, tags)) == if n in tags then [f(n)] else []
  {
    if tags != [] {
      var l := |tags| - 1;
      assert tags == tags[..l] + [tags[l]] && tags[l] !in tags[..l];
      FilterTag(p, f, tags[..l], n);
      MapLast(f, tags[..l], tags[l]);
      FilterLast(p, Map(f, tags[..l]), f(tags[l]));
    }
  }

  lemma TagExtend(db: Database, cols: set<string>, rel: Relationship, bound: set<Dataset>, tags: seq<int>, n: int)
    requires PairedAt(rel) && ColumnsIn(cols, rel) && rel.from in bound && rel.to !in bound
    requires Table(db, rel.to) == TagTable(cols, tags) && DupFree(tags) && n in tags
    ensures Extend(db, rel, TagJoined(cols, bound, n)) == [TagJoined(cols, bound + {rel.to}, n)]
  {
    var j := TagJoined(cols, bound, n);
    forall m ensures On(rel, j, TagRow(cols, m)) <==> m == n {
      TagOn(cols, rel, bound, n, m);
    }
    FilterTag((r: Row) => On(rel, j, r), m => TagRow(cols, m), tags, n);
    assert j[rel.to := Some(TagRow(cols, n))] == TagJoined(cols, bound + {rel.to}, n);
  }

  /** Every join starts at a bound alias and binds a new one. */
  ghost predicate OrderedFrom(bound: set<Dataset>, joins: seq<Relationship>)
    decreases |joins|
  {
    joins == [] || (joins[0].from in bound && joins[0].to !in bound && OrderedFrom(bound + {joins[0].to}, joins[1..]))
  }

  lemma {:induction false} OrderedSuffix(root: Dataset, joins: seq<Relationship>, n: nat)
    requires Ordered(root, joins) && n <= |joins|
    ensures OrderedFrom({root} + Aliases(joins[..n]), joins[n..])
    decreases |joins| - n
  {
    if n < |joins| {
      var bound := {root} + Aliases(joins[..n]);
      assert BoundBy(root, joins, n, joins[n].from);
      if joins[n].from != root {
        var k :| 0 <= k < n && joins[k].to == joins[n].from;
        assert joins[..n][k].to == joins[n].from;
      }
      OrderedSuffix(root, joins, n + 1);
      AliasesLast(joins, n);
      assert joins[n].to !in bound;
      assert joins[n..][0] == joins[n] && joins[n..][1..] == joins[n + 1..];
      assert bound + {joins[n].to} == {root} + Aliases(joins[..n + 1]);
    }
  }

  lemma AliasesLast(joins: seq<Relationship>, n: nat)
    requires n < |joins|
    ensures Aliases(joins[..n + 1]) == Aliases(joins[..n]) + {joins[n].to}
  {
    var a, b := joins[..n + 1], joins[..n];
    forall ds | ds in Aliases(a) ensures ds in Aliases(b) + {joins[n].to} {
      var k :| 0 <= k < |a| && a[k].to == ds;
      assert k < n ==> b[k].to == ds;
    }
    forall ds | ds in Aliases(b) ensures ds in Aliases(a) {
      var k :| 0 <= k < |b| && b[k].to == ds;
      assert a[k].to == ds;
    }
    assert a[n].to == joins[n].to;
  }

  ghost predicate TablesTagged(db: Database, cols: set<string>, joins: seq<Relationship>, tags: seq<int>) {
    forall k :: 0 <= k < |joins| ==> Table(db, joins[k].to) == TagTable(cols, tags)
  }

  lemma {:induction false} TagJoins(db: Database, cols: set<string>, joins: seq<Relationship>, bound: set<Dataset>, tags: seq<int>, n: int)
    requires OrderedFrom(bound, joins) && Paired(joins) && HasColumns(cols, joins)
    requires TablesTagged(db, cols, joins, tags) && DupFree(tags) && n in tags
    ensures EvalJoins(db, joins, [TagJoined(cols, bound, n)]) == [TagJoined(cols, bound + Aliases(joins), n)]
    decreases |joins|
  {
    if joins == [] {
      assert bound + Aliases(joins) == bound;
    } else {
      var f := (j: Joined) => Extend(db, joins[0], j);
      assert PairedAt(joins[0]) && ColumnsIn(cols, joins[0]);
      TagExtend(db, cols, joins[0], bound, tags, n);
      FlatMapOne(f, TagJoined(cols, bound, n));
      assert forall k :: 0 <= k < |joins[1..]| ==> joins[1..][k] == joins[k + 1];
      TagJoins(db, cols, joins[1..], bound + {joins[0].to}, tags, n);
      AliasesStep(joins);
      assert bound + {joins[0].to} + Aliases(joins[1..]) == bound + Aliases(joins);
    }
  }

  /** What the construction asks of the tree, the columns and the tags. */
  ghost predicate Taggable(cols: set<string>, tree: Tree, roots: seq<int>, tags: seq<int>) {
    && Ordered(tree.root, tree.joins) && Paired(tree.joins) && HasColumns(cols, tree.joins)
    && DupFree(tags) && (forall n :: n in roots ==> n in tags)
  }

  lemma TagTables(cols: set<string>, tree: Tree, roots: seq<int>, tags: seq<int>)
    requires Ordered(tree.root, tree.joins)
    ensures Table(TagDb(cols, tree, roots, tags), tree.root) == TagTable(cols, roots)
    ensures TablesTagged(TagDb(cols, tree, roots, tags), cols, tree.joins, tags)
    ensures forall ds :: ds in InTree(tree) && ds != tree.root ==> Table(TagDb(cols, tree, roots, tags), ds) == TagTable(cols, tags)
  {
  }

  lemma TagFromRow(cols: set<string>, tree: Tree, roots: seq<int>, tags: seq<int>, n: int)
    requires Taggable(cols, tree, roots, tags) && n in tags
    ensures FromRow(TagDb(cols, tree, roots, tags), tree, TagRow(cols, n)) == [TagJoined(cols, InTree(tree), n)]
  {
    TagTables(cols, tree, roots, tags);
    OrderedWhole(tree);
    TagJoins(TagDb(cols, tree, roots, tags), cols, tree.joins, {tree.root}, tags, n);
    assert Start(tree.root, TagRow(cols, n)) == TagJoined(cols, {tree.root}, n);
    assert InTree(tree) == {tree.root} + Aliases(tree.joins);
  }

  lemma OrderedWhole(tree: Tree)
    requires Ordered(tree.root, tree.joins)
    ensures OrderedFrom({tree.root}, tree.joins)
  {
    OrderedSuffix(tree.root, tree.joins, 0);
    assert tree.joins[..0] == [] && tree.joins[0..] == tree.joins;
    assert {tree.root} + Aliases(tree.joins[..0]) == {tree.root};
  }

  /** One joined row for each root row, every alias bound to the row of its tag. */
  lemma TagFrom(cols: set<string>, tree: Tree, roots: seq<int>, tags: seq<int>)
    requires Taggable(cols, tree, roots, tags)
    ensures EvalFrom(TagDb(cols, tree, roots, tags), tree) == Map(n => TagJoined(cols, InTree(tree), n), roots)
  {
    var db := TagDb(cols, tree, roots, tags);
    TagTables(cols, tree, roots, tags);
    FromIsPerRow(db, tree, TagTable(cols, roots));
    TagRows(db, cols, tree, roots, tags, roots);
  }

  lemma {:induction false} TagRows(db: Database, cols: set<string>, tree: Tree, roots: seq<int>, tags: seq<int>, part: seq<int>)
    requires Taggable(cols, tree, roots, tags) && db == TagDb(cols, tree, roots, tags) && forall n :: n in part ==> n in tags
    ensures FlatMap(r => FromRow(db, tree, r), TagTable(cols, part)) == Map(n => TagJoined(cols, InTree(tree), n), part)
  {
    if part != [] {
      var l := |part| - 1;
      assert part == part[..l] + [part[l]];
      TagRows(db, cols, tree, roots, tags, part[..l]);
      TagFromRow(cols, tree, roots, tags, part[l]);
      MapLast(n => TagRow(cols, n), part[..l], part[l]);
      MapLast(n => TagJoined(cols, InTree(tree), n), part[..l], part[l]);
      FlatMapLast(r => FromRow(db, tree, r), TagTable(cols, part[..l]), TagRow(cols, part[l]));
    }
  }

  lemma TagKeyed(cols: set<string>, tags: seq<int>, key: seq<string>)
    requires DupFree(tags) && key != [] && forall c :: c in key ==> c in cols
    ensures PrimaryKey(TagTable(cols, tags), key)
  {
    var table := TagTable(cols, tags);
    forall i | 0 <= i < |table| ensures Tuple(table[i], key) == seq(|key|, k => Num(tags[i])) {
      TagTuple(cols, key, tags[i]);
    }
    forall i, j | 0 <= i < j < |table| ensures Tuple(table[i], key) != Tuple(table[j], key) {
      assert Tuple(table[i], key)[0] == Num(tags[i]) && Tuple(table[j], key)[0] == Num(tags[j]);
    }
    forall r | r in table ensures Null !in Tuple(r, key) {
      var i :| 0 <= i < |table| && table[i] == r;
    }
  }

  lemma TagDbKeyed(cols: set<string>, tree: Tree, roots: seq<int>, tags: seq<int>)
    requires Taggable(cols, tree, roots, tags)
    ensures ToKeyed(TagDb(cols, tree, roots, tags), tree.joins)
  {
    TagTables(cols, tree, roots, tags);
    forall k | 0 <= k < |tree.joins| ensures KeyOf(Table(TagDb(cols, tree, roots, tags), tree.joins[k].to), tree.joins[k].toColumns) {
      assert PairedAt(tree.joins[k]) && ColumnsIn(cols, tree.joins[k]);
      TagKeyed(cols, tags, tree.joins[k].toColumns);
    }
  }

  // ------------------------------------------------------ the tagged engine

  /** Columns of the joins, of a key, and the tag itself. */
  ghost function ColumnsFor(joins: seq<Relationship>, key: seq<string>): (cols: set<string>)
    ensures HasColumns(cols, joins) && "tag" in cols && forall c :: c in key ==> c in cols
  {
    var cols := {"tag"} + (set c | c in key) + (set k, i | 0 <= k < |joins| && 0 <= i < |joins[k].fromColumns| :: joins[k].fromColumns[i])
              + set k, i | 0 <= k < |joins| && 0 <= i < |joins[k].toColumns| :: joins[k].toColumns[i];
    assert HasColumns(cols, joins) by {
      forall k | 0 <= k < |joins| ensures ColumnsIn(cols, joins[k]) {}
    }
    cols
  }

  /** The field `star` reads the tag, every other field zero, and no field reads anything of a null-extended row. */
  function TagField(star: Option<FieldRef>, ref: FieldRef, row: Row): Value {
    if "tag" !in row then Null else if star == Some(ref) then row["tag"] else Num(0)
  }

  /** The scalar's value at the tag its `p`-th reference reads. */
  function TagScalar(p: nat, vals: seq<Value>, xs: seq<Value>): Value {
    if p < |xs| && xs[p].Num? && 0 <= xs[p].n < |vals| then vals[xs[p].n] else Null
  }

  /** Everything passes, DATE_TRUNC forgets, and the aggregate is the given one. */
  function TagSem(agg: Agg, star: Option<FieldRef>, p: nat, vals: seq<Value>): Sem {
    Sem((ref, row) => TagField(star, ref, row), (text, xs) => TagScalar(p, vals, xs), agg,
        (pred, row) => true, (op, v, vs) => true, (grain, v) => Null)
  }

  /** All the values are one value. */
  predicate Constant(vals: seq<Value>) {
    forall i, j :: 0 <= i < j < |vals| ==> vals[i] == vals[j]
  }

  /** Grouping by the term's own fields leaves its scalar one value a group. */
  predicate Pinned(ctx: Context, t: AggTerm) {
    forall i :: 0 <= i < |t.refs| ==> PinnedAt(ctx, t.refs[i])
  }

  predicate PinnedAt(ctx: Context, ref: FieldRef) {
    exists d :: 0 <= d < |ctx.dims| && ctx.dims[d].ref == ref && !ctx.dims[d].grained
  }

  /** The aggregate does not notice repeated values, among the values a group can hold. */
  ghost predicate IgnoresRepeats(agg: Agg, func: string, pinned: bool) {
    forall vals: seq<Value> :: (pinned ==> Constant(vals)) ==> IgnoredAt(agg, func, vals)
  }

  predicate IgnoredAt(agg: Agg, func: string, vals: seq<Value>) {
    agg(func, multiset(vals)) == agg(func, multiset(set v | v in vals))
  }

  ghost predicate IgnoresNull(agg: Agg, func: string) {
    forall b: multiset<Value> :: agg(func, b) == agg(func, b[Null := 0])
  }

  /** The reference the scalar's values hang on, if grouping leaves one free: not a dimension by itself. */
  ghost predicate StarFor(ctx: Context, t: AggTerm, star: Option<FieldRef>, p: nat, vals: seq<Value>) {
    && p < |t.refs|
    && (star.None? ==> Constant(vals))
    && (star.Some? ==> star.value == t.refs[p] && !PinnedAt(ctx, star.value))
  }

  /** The one group all tagged rows fall into. */
  function TagKey(ctx: Context): seq<Value> {
    Map((d: DimSpec) => if d.grained then Null else Num(0), ctx.dims)
  }

  lemma TagDims(ctx: Context, agg: Agg, star: Option<FieldRef>, p: nat, vals: seq<Value>, cols: set<string>, bound: set<Dataset>, n: int)
    requires "tag" in cols && (star.Some? ==> !PinnedAt(ctx, star.value))
    requires forall d :: 0 <= d < |ctx.dims| ==> ctx.dims[d].ref.dataset in bound
    ensures DimTuple(TagSem(agg, star, p, vals), ctx.grain, ctx.dims, TagJoined(cols, bound, n)) == TagKey(ctx)
  {
    var sem, j := TagSem(agg, star, p, vals), TagJoined(cols, bound, n);
    forall d | 0 <= d < |ctx.dims| ensures DimVal(sem, ctx.grain, ctx.dims[d], j) == if ctx.dims[d].grained then Null else Num(0) {
      assert Bound(j, ctx.dims[d].ref.dataset) == TagRow(cols, n);
    }
  }

  lemma TagTermVal(ctx: Context, t: AggTerm, agg: Agg, star: Option<FieldRef>, p: nat, vals: seq<Value>, cols: set<string>, n: int)
    requires "tag" in cols && StarFor(ctx, t, star, p, vals) && 0 <= n < |vals|
    ensures RowTermVal(TagSem(agg, star, p, vals), t, TagRow(cols, n)) == vals[n]
  {
    var sem := TagSem(agg, star, p, vals);
    var xs := Map(ref => sem.field(ref, TagRow(cols, n)), t.refs);
    assert xs[p] == TagField(star, t.refs[p], TagRow(cols, n));
    assert star.None? && n > 0 ==> vals[0] == vals[n];
  }

  lemma TagNullStrict(t: AggTerm, agg: Agg, star: Option<FieldRef>, p: nat, vals: seq<Value>)
    requires p < |t.refs| && IgnoresNull(agg, t.func)
    ensures NullStrict(TagSem(agg, star, p, vals), t)
  {
    var sem := TagSem(agg, star, p, vals);
    var xs := Map(ref => sem.field(ref, map[]), t.refs);
    assert xs[p] == Null;
    assert RowTermVal(sem, t, map[]) == TagScalar(p, vals, xs);
  }

  lemma TagAdmits(agg: Agg, star: Option<FieldRef>, p: nat, vals: seq<Value>, ctx: Context, j: Joined)
    ensures Admits(TagSem(agg, star, p, vals), ctx.filters, ctx.groups, j)
  {
    if ctx.groups != [] {
      assert ctx.groups[0] in ctx.groups && PassesGroup(TagSem(agg, star, p, vals), ctx.groups[0], j);
    }
  }

  /** A reference to hang the values on, unless grouping pins them all and they are one value. */
  lemma FindStar(ctx: Context, t: AggTerm, vals: seq<Value>) returns (star: Option<FieldRef>, p: nat)
    requires t.refs != [] && (Pinned(ctx, t) ==> Constant(vals))
    ensures StarFor(ctx, t, star, p, vals)
  {
    if Pinned(ctx, t) {
      star, p := None, 0;
    } else {
      p :| p < |t.refs| && !PinnedAt(ctx, t.refs[p]);
      star := Some(t.refs[p]);
    }
  }

  /** The WHERE conjuncts mean what the user and the roles asked for. */
  ghost predicate MeansAdmits(ctx: Context, conds: seq<Cond>) {
    forall sem, j :: Where(sem, conds, j) <==> Admits(sem, ctx.filters, ctx.groups, j)
  }

  /** A tagged engine and database for a tree, a context and a term. */
  datatype Tagged = Tagged(sem: Sem, db: Database, cols: set<string>, vals: seq<Value>)

  ghost predicate Fits(x: Tagged, agg: Agg, ctx: Context, tree: Tree, conds: seq<Cond>, t: AggTerm, roots: seq<int>, tags: seq<int>) {
    && Taggable(x.cols, tree, roots, tags) && "tag" in x.cols
    && (exists star, p :: x.sem == TagSem(agg, star, p, x.vals) && StarFor(ctx, t, star, p, x.vals))
    && x.db == TagDb(x.cols, tree, roots, tags)
    && MeansAdmits(ctx, conds) && DimDatasets(ctx.dims) <= InTree(tree)
    && (forall n :: n in tags ==> 0 <= n < |x.vals|)
  }

  lemma MakeTagged(agg: Agg, ctx: Context, tree: Tree, conds: seq<Cond>, t: AggTerm, key: seq<string>, vals: seq<Value>, roots: seq<int>, tags: seq<int>)
    returns (x: Tagged)
    requires Ordered(tree.root, tree.joins) && Paired(tree.joins) && DupFree(tags) && forall n :: n in roots ==> n in tags
    requires t.refs != [] && (Pinned(ctx, t) ==> Constant(vals))
    requires MeansAdmits(ctx, conds) && DimDatasets(ctx.dims) <= InTree(tree) && forall n :: n in tags ==> 0 <= n < |vals|
    ensures Fits(x, agg, ctx, tree, conds, t, roots, tags) && x.vals == vals && forall c :: c in key ==> c in x.cols
    ensures x.sem.aggregate == agg && (IgnoresNull(agg, t.func) ==> NullStrict(x.sem, t))
  {
    var cols := ColumnsFor(tree.joins, key);
    var star, p := FindStar(ctx, t, vals);
    x := Tagged(TagSem(agg, star, p, vals), TagDb(cols, tree, roots, tags), cols, vals);
    if IgnoresNull(agg, t.func) {
      TagNullStrict(t, agg, star, p, vals);
    }
  }

  lemma TagInGroup(x: Tagged, agg: Agg, ctx: Context, tree: Tree, conds: seq<Cond>, t: AggTerm, roots: seq<int>, tags: seq<int>, n: int)
    requires Fits(x, agg, ctx, tree, conds, t, roots, tags)
    ensures InGroup(x.sem, ctx, conds, TagKey(ctx), TagJoined(x.cols, InTree(tree), n))
  {
    var star, p :| x.sem == TagSem(agg, star, p, x.vals) && StarFor(ctx, t, star, p, x.vals);
    TagAdmits(agg, star, p, x.vals, ctx, TagJoined(x.cols, InTree(tree), n));
    TagDims(ctx, agg, star, p, x.vals, x.cols, InTree(tree), n);
  }

  lemma TagVal(x: Tagged, agg: Agg, ctx: Context, tree: Tree, conds: seq<Cond>, t: AggTerm, roots: seq<int>, tags: seq<int>, n: int)
    requires Fits(x, agg, ctx, tree, conds, t, roots, tags) && n in tags
    ensures RowTermVal(x.sem, t, TagRow(x.cols, n)) == x.vals[n]
  {
    var star, p :| x.sem == TagSem(agg, star, p, x.vals) && StarFor(ctx, t, star, p, x.vals);
    TagTermVal(ctx, t, agg, star, p, x.vals, x.cols, n);
  }

  lemma {:induction false} FilterAll<A(!new)>(p: A -> bool, s: seq<A>)
    requires forall a :: a in s ==> p(a)
    ensures Filter(p, s) == s
  {
    if s != [] {
      var l := |s| - 1;
      assert s == s[..l] + [s[l]];
      FilterAll(p, s[..l]);
    }
  }

  function ValAt(vals: seq<Value>, n: int): Value {
    if 0 <= n < |vals| then vals[n] else Null
  }

  function ValsAt(vals: seq<Value>, tags: seq<int>): (r: seq<Value>)
    ensures |r| == |tags| && forall i :: 0 <= i < |tags| ==> r[i] == ValAt(vals, tags[i])
  {
    Map(n => ValAt(vals, n), tags)
  }

  lemma TagOnceRows(x: Tagged, agg: Agg, ctx: Context, tree: Tree, conds: seq<Cond>, t: AggTerm, roots: seq<int>, tags: seq<int>, ds: Dataset)
    requires Fits(x, agg, ctx, tree, conds, t, roots, tags) && ds in InTree(tree) && ds != tree.root && forall n :: n in tags ==> n in roots
    ensures OnceRows(x.db, tree, ds, (j: Joined) => InGroup(x.sem, ctx, conds, TagKey(ctx), j)) == TagTable(x.cols, tags)
  {
    var p := (j: Joined) => InGroup(x.sem, ctx, conds, TagKey(ctx), j);
    var table := TagTable(x.cols, tags);
    TagTables(x.cols, tree, roots, tags);
    forall r | r in table ensures Linked(x.db, tree, ds, p, r) {
      var i :| 0 <= i < |table| && table[i] == r;
      TagLinked(x, agg, ctx, tree, conds, t, roots, tags, ds, tags[i]);
    }
    FilterAll((r: Row) => Linked(x.db, tree, ds, p, r), table);
  }

  lemma TagTableVals(x: Tagged, agg: Agg, ctx: Context, tree: Tree, conds: seq<Cond>, t: AggTerm, roots: seq<int>, tags: seq<int>)
    requires Fits(x, agg, ctx, tree, conds, t, roots, tags)
    ensures Map(r => RowTermVal(x.sem, t, r), TagTable(x.cols, tags)) == ValsAt(x.vals, tags)
  {
    forall i | 0 <= i < |tags| ensures RowTermVal(x.sem, t, TagRow(x.cols, tags[i])) == ValAt(x.vals, tags[i]) {
      TagVal(x, agg, ctx, tree, conds, t, roots, tags, tags[i]);
    }
  }

  /** The reference value of the tagged group is the aggregate of the tags' values. */
  lemma TagOnce(x: Tagged, agg: Agg, ctx: Context, tree: Tree, conds: seq<Cond>, t: AggTerm, roots: seq<int>, tags: seq<int>, ds: Dataset, distinct: bool)
    requires Fits(x, agg, ctx, tree, conds, t, roots, tags) && ds in InTree(tree) && ds != tree.root && forall n :: n in tags ==> n in roots
    ensures OnceValue(x.sem, ctx, x.db, tree, conds, t, distinct, ds, TagKey(ctx)) == Aggregate(x.sem, t.func, distinct, ValsAt(x.vals, tags))
  {
    TagOnceRows(x, agg, ctx, tree, conds, t, roots, tags, ds);
    TagTableVals(x, agg, ctx, tree, conds, t, roots, tags);
  }

  lemma TagLinked(x: Tagged, agg: Agg, ctx: Context, tree: Tree, conds: seq<Cond>, t: AggTerm, roots: seq<int>, tags: seq<int>, ds: Dataset, n: int)
    requires Fits(x, agg, ctx, tree, conds, t, roots, tags) && ds in InTree(tree) && n in roots
    ensures Linked(x.db, tree, ds, (j: Joined) => InGroup(x.sem, ctx, conds, TagKey(ctx), j), TagRow(x.cols, n))
  {
    TagFrom(x.cols, tree, roots, tags);
    var i :| 0 <= i < |roots| && roots[i] == n;
    var j := TagJoined(x.cols, InTree(tree), n);
    assert EvalFrom(x.db, tree)[i] == j;
    TagInGroup(x, agg, ctx, tree, conds, t, roots, tags, n);
    assert j in EvalFrom(x.db, tree) && j[ds] == Some(TagRow(x.cols, n));
  }

  lemma TagGroup(x: Tagged, agg: Agg, ctx: Context, tree: Tree, conds: seq<Cond>, t: AggTerm, roots: seq<int>, tags: seq<int>)
    requires Fits(x, agg, ctx, tree, conds, t, roots, tags)
    ensures Filter((j: Joined) => DimTuple(x.sem, ctx.grain, ctx.dims, j) == TagKey(ctx), JoinedRows(x.sem, x.db, tree, conds))
         == Map(n => TagJoined(x.cols, InTree(tree), n), roots)
  {
    var p := (j: Joined) => InGroup(x.sem, ctx, conds, TagKey(ctx), j);
    var all := Map(n => TagJoined(x.cols, InTree(tree), n), roots);
    TagFrom(x.cols, tree, roots, tags);
    GroupFilter(x.sem, ctx, conds, TagKey(ctx), all);
    forall j | j in all ensures p(j) {
      var i :| 0 <= i < |all| && all[i] == j;
      TagInGroup(x, agg, ctx, tree, conds, t, roots, tags, roots[i]);
    }
    FilterAll(p, all);
  }

  lemma TagJoinedVals(x: Tagged, agg: Agg, ctx: Context, tree: Tree, conds: seq<Cond>, t: AggTerm, roots: seq<int>, tags: seq<int>, ds: Dataset)
    requires Fits(x, agg, ctx, tree, conds, t, roots, tags) && RefsOn(t, ds) && ds in InTree(tree)
    ensures Map((j: Joined) => TermVal(x.sem, t, j), Map(n => TagJoined(x.cols, InTree(tree), n), roots)) == ValsAt(x.vals, roots)
  {
    forall i | 0 <= i < |roots| ensures TermVal(x.sem, t, TagJoined(x.cols, InTree(tree), roots[i])) == ValAt(x.vals, roots[i]) {
      TermValIsRowTermVal(x.sem, t, ds, TagJoined(x.cols, InTree(tree), roots[i]));
      assert roots[i] in tags;
      TagVal(x, agg, ctx, tree, conds, t, roots, tags, roots[i]);
    }
  }

  /** One pass sees the value of every root row's tag. */
  lemma TagDirect(x: Tagged, agg: Agg, ctx: Context, tree: Tree, conds: seq<Cond>, t: AggTerm, roots: seq<int>, tags: seq<int>, ds: Dataset)
    requires Fits(x, agg, ctx, tree, conds, t, roots, tags) && RefsOn(t, ds) && ds in InTree(tree)
    ensures SideValue(x.sem, ctx, x.db, Direct(tree, conds, t), TagKey(ctx)) == Aggregate(x.sem, t.func, t.distinct, ValsAt(x.vals, roots))
  {
    TagGroup(x, agg, ctx, tree, conds, t, roots, tags);
    TagJoinedVals(x, agg, ctx, tree, conds, t, roots, tags, ds);
  }

  // ------------------------------------------------------ a dropped DISTINCT

  ghost predicate KeepsDistinct(sem: Sem, ctx: Context, s: Side)
    requires |TermDatasets(s.term)| == 1
  {
    forall db, k | SideSound(sem, db, s) :: SideValue(sem, ctx, db, s, k) == OnceOf(sem, ctx, db, s, k)
  }

  function Upto(n: nat): (r: seq<int>)
    ensures |r| == n && (forall i :: 0 <= i < n ==> r[i] == i) && DupFree(r) && forall i :: i in r <==> 0 <= i < n
  {
    if n == 0 then []
    else
      var init := Upto(n - 1);
      assert forall i :: i in init + [n - 1] <==> i in init || i == n - 1;
      init + [n - 1]
  }

  lemma UptoVals(vals: seq<Value>)
    ensures ValsAt(vals, Upto(|vals|)) == vals
  {
  }

  /** A deduplicated DISTINCT term goes wrong on some sound database, for any bag of values on which the aggregate notices repeats. */
  lemma DistinctLost(agg: Agg, m: Model, ctx: Context, t: AggTerm, s: Side, vals: seq<Value>) returns (x: Tagged)
    requires PlansSide(m, ctx, t, s) && |TermDatasets(t)| == 1 && [] !in ctx.groups && Paired(m.rels) && s.Dedup? && t.distinct
    requires AllInner(s.tree) || IgnoresNull(agg, t.func)
    requires (Pinned(ctx, t) ==> Constant(vals)) && !IgnoredAt(agg, t.func, vals)
    ensures x.sem.aggregate == agg && SideSound(x.sem, x.db, s)
    ensures SideValue(x.sem, ctx, x.db, s, TagKey(ctx)) != OnceOf(x.sem, ctx, x.db, s, TagKey(ctx))
  {
    var tags := Upto(|vals|);
    SidePlanned(m, ctx, t, s);
    JoinsPaired(m.rels, s.tree.joins);
    x := MakeTagged(agg, ctx, s.tree, s.conds, t, s.pk, vals, tags, tags);
    TagDbKeyed(x.cols, s.tree, tags, tags);
    TagTables(x.cols, s.tree, tags, tags);
    TagKeyed(x.cols, tags, s.pk);
    DedupValue(x.sem, ctx, x.db, s, TagKey(ctx));
    TagOnce(x, agg, ctx, s.tree, s.conds, t, tags, tags, s.measure, false);
    TagOnce(x, agg, ctx, s.tree, s.conds, t, tags, tags, s.measure, true);
    UptoVals(vals);
  }

  /** What planning a deduplicated side fixes. */
  lemma SidePlanned(m: Model, ctx: Context, t: AggTerm, s: Side)
    requires PlansSide(m, ctx, t, s) && |TermDatasets(t)| == 1 && [] !in ctx.groups
    ensures Ordered(s.tree.root, s.tree.joins) && MeansAdmits(ctx, s.conds) && DimDatasets(ctx.dims) <= InTree(s.tree)
    ensures RefsOn(t, TermDatasets(t)[0]) && t.refs != [] && TermDatasets(t)[0] in InTree(s.tree)
    ensures s.Dedup? ==> s.measure == TermDatasets(t)[0] != s.tree.root && s.pk != []
  {
    OneDatasetRefs(t);
    assert t.refs[0].dataset in SideRequired(ctx, t);
  }

  // ------------------------------------------------------ pinned groups

  lemma PinnedTermVal(sem: Sem, ctx: Context, t: AggTerm, j: Joined, j': Joined)
    requires Pinned(ctx, t) && DimTuple(sem, ctx.grain, ctx.dims, j) == DimTuple(sem, ctx.grain, ctx.dims, j')
    ensures TermVal(sem, t, j) == TermVal(sem, t, j')
  {
    forall i | 0 <= i < |t.refs| ensures FieldVal(sem, t.refs[i], j) == FieldVal(sem, t.refs[i], j') {
      assert PinnedAt(ctx, t.refs[i]);
      var d :| 0 <= d < |ctx.dims| && ctx.dims[d].ref == t.refs[i] && !ctx.dims[d].grained;
      assert DimTuple(sem, ctx.grain, ctx.dims, j)[d] == FieldVal(sem, t.refs[i], j);
      assert DimTuple(sem, ctx.grain, ctx.dims, j')[d] == FieldVal(sem, t.refs[i], j');
    }
    assert Map(ref => FieldVal(sem, ref, j), t.refs) == Map(ref => FieldVal(sem, ref, j'), t.refs);
  }

  /** The values of the rows of `ds` linked to group `k`. */
  ghost function OnceVals(sem: Sem, ctx: Context, db: Database, tree: Tree, conds: seq<Cond>, t: AggTerm, ds: Dataset, k: seq<Value>): seq<Value> {
    Map(r => RowTermVal(sem, t, r), OnceRows(db, tree, ds, (j: Joined) => InGroup(sem, ctx, conds, k, j)))
  }

  lemma PinnedOnce(sem: Sem, ctx: Context, db: Database, tree: Tree, conds: seq<Cond>, t: AggTerm, ds: Dataset, k: seq<Value>)
    requires Pinned(ctx, t) && RefsOn(t, ds)
    ensures Constant(OnceVals(sem, ctx, db, tree, conds, t, ds, k))
  {
    var p := (j: Joined) => InGroup(sem, ctx, conds, k, j);
    var once := OnceRows(db, tree, ds, p);
    forall i, l | 0 <= i < l < |once| ensures RowTermVal(sem, t, once[i]) == RowTermVal(sem, t, once[l]) {
      assert once[i] in once && once[l] in once;
      var j: Joined :| j in EvalFrom(db, tree) && p(j) && ds in j && j[ds] == Some(once[i]);
      var j': Joined :| j' in EvalFrom(db, tree) && p(j') && ds in j' && j'[ds] == Some(once[l]);
      PinnedTermVal(sem, ctx, t, j, j');
      TermValIsRowTermVal(sem, t, ds, j);
      TermValIsRowTermVal(sem, t, ds, j');
    }
  }

  /** Where the aggregate ignores repeats, DISTINCT makes no difference to the reference value. */
  lemma OnceIgnores(sem: Sem, ctx: Context, db: Database, tree: Tree, conds: seq<Cond>, t: AggTerm, ds: Dataset, k: seq<Value>)
    requires RefsOn(t, ds) && IgnoresRepeats(sem.aggregate, t.func, Pinned(ctx, t))
    ensures OnceValue(sem, ctx, db, tree, conds, t, false, ds, k) == OnceValue(sem, ctx, db, tree, conds, t, true, ds, k)
  {
    if Pinned(ctx, t) {
      PinnedOnce(sem, ctx, db, tree, conds, t, ds, k);
    }
    assert IgnoredAt(sem.aggregate, t.func, OnceVals(sem, ctx, db, tree, conds, t, ds, k));
  }

  /**
   A planned side computes the DISTINCT or plain aggregate the metric asks for, over the measure rows once each, on
   every sound database and for every engine with that aggregate, exactly when the term is not DISTINCT, the plan is
   one pass, or the aggregate does not notice repeated values (MAX does not, SUM does) among those a group can hold.
   */
  lemma DistinctKeptIff(agg: Agg, m: Model, ctx: Context, t: AggTerm, s: Side)
    requires PlansSide(m, ctx, t, s) && |TermDatasets(t)| == 1 && [] !in ctx.groups && Paired(m.rels)
    requires AllInner(s.tree) || IgnoresNull(agg, t.func)
    ensures (forall sem: Sem :: sem.aggregate == agg ==> KeepsDistinct(sem, ctx, s))
       <==> !t.distinct || OnePass(t, s.tree.root) || IgnoresRepeats(agg, t.func, Pinned(ctx, t))
  {
    if !t.distinct || OnePass(t, s.tree.root) || IgnoresRepeats(agg, t.func, Pinned(ctx, t)) {
      forall sem: Sem | sem.aggregate == agg ensures KeepsDistinct(sem, ctx, s) {
        forall db, k | SideSound(sem, db, s) ensures SideValue(sem, ctx, db, s, k) == OnceOf(sem, ctx, db, s, k) {
          DistinctKept(sem, m, ctx, db, t, s, k);
        }
      }
    } else {
      var vals: seq<Value> :| (Pinned(ctx, t) ==> Constant(vals)) && !IgnoredAt(agg, t.func, vals);
      var x := DistinctLost(agg, m, ctx, t, s, vals);
      assert !KeepsDistinct(x.sem, ctx, s);
    }
  }

  lemma DistinctKept(sem: Sem, m: Model, ctx: Context, db: Database, t: AggTerm, s: Side, k: seq<Value>)
    requires PlansSide(m, ctx, t, s) && |TermDatasets(t)| == 1 && [] !in ctx.groups && SideSound(sem, db, s)
    requires !t.distinct || OnePass(t, s.tree.root) || IgnoresRepeats(sem.aggregate, t.func, Pinned(ctx, t))
    ensures SideValue(sem, ctx, db, s, k) == OnceOf(sem, ctx, db, s, k)
  {
    if DistinctSafe(s) {
      SideValueOnce(sem, m, ctx, db, t, s, k);
    } else {
      SidePlanned(m, ctx, t, s);
      OffRoot(t, s.tree.root);
      DedupValue(sem, ctx, db, s, k);
      OnceIgnores(sem, ctx, db, s.tree, s.conds, t, s.measure, k);
    }
  }

  // ------------------------------------------------------ values that tell the keys apart

  /** Rows on which the term has one value are rows with one key. */
  ghost predicate TellsKeys(sem: Sem, t: AggTerm, table: seq<Row>, pk: seq<string>) {
    forall r, r' :: r in table && r' in table && RowTermVal(sem, t, r) == RowTermVal(sem, t, r') ==> Tuple(r, pk) == Tuple(r', pk)
  }

  lemma KeyedRowsDiffer(table: seq<Row>, pk: seq<string>)
    requires PrimaryKey(table, pk)
    ensures DupFree(table)
  {
    forall i, j | 0 <= i < j < |table| ensures table[i] != table[j] {
      assert table[i] in table;
    }
  }

  lemma ValuesDiffer(sem: Sem, t: AggTerm, table: seq<Row>, rows: seq<Row>, pk: seq<string>)
    requires PrimaryKey(table, pk) && TellsKeys(sem, t, table, pk) && DupFree(rows) && forall r :: r in rows ==> r in table
    ensures DupFree(Map(r => RowTermVal(sem, t, r), rows))
  {
    forall i, j | 0 <= i < j < |rows| ensures RowTermVal(sem, t, rows[i]) != RowTermVal(sem, t, rows[j]) {
      assert rows[i] in rows && rows[j] in rows;
      if Tuple(rows[i], pk) == Tuple(rows[j], pk) {
        OneRowAKey(table, pk, rows[i], rows[j]);
      }
    }
  }

  lemma OneRowAKey(table: seq<Row>, pk: seq<string>, r: Row, r': Row)
    requires PrimaryKey(table, pk) && r in table && r' in table && Tuple(r, pk) == Tuple(r', pk)
    ensures r == r'
  {
    var i :| 0 <= i < |table| && table[i] == r;
    var j :| 0 <= j < |table| && table[j] == r';
    assert i < j || j < i || i == j;
  }

  lemma DifferentValues(vals: seq<Value>)
    requires DupFree(vals)
    ensures multiset(vals) == multiset(set v | v in vals)
  {
    forall v ensures multiset(vals)[v] == multiset(set v | v in vals)[v] {
      DupFreeCount(vals, v);
    }
  }

  /**
   Whatever the aggregate, the deduplicating plan keeps DISTINCT on a database where the term's values tell the
   keys apart: then no value is repeated.
   */
  lemma DistinctKeptByKey(sem: Sem, m: Model, ctx: Context, db: Database, t: AggTerm, s: Side, k: seq<Value>)
    requires PlansSide(m, ctx, t, s) && |TermDatasets(t)| == 1 && [] !in ctx.groups && SideSound(sem, db, s) && s.Dedup?
    requires TellsKeys(sem, t, Table(db, s.measure), s.pk)
    ensures SideValue(sem, ctx, db, s, k) == OnceOf(sem, ctx, db, s, k)
  {
    SidePlanned(m, ctx, t, s);
    DedupValue(sem, ctx, db, s, k);
    OnceDiffer(sem, ctx, db, s.tree, s.conds, t, s.measure, s.pk, k);
  }

  lemma OnceDiffer(sem: Sem, ctx: Context, db: Database, tree: Tree, conds: seq<Cond>, t: AggTerm, ds: Dataset, pk: seq<string>, k: seq<Value>)
    requires PrimaryKey(Table(db, ds), pk) && TellsKeys(sem, t, Table(db, ds), pk)
    ensures OnceValue(sem, ctx, db, tree, conds, t, false, ds, k) == OnceValue(sem, ctx, db, tree, conds, t, true, ds, k)
  {
    var p := (j: Joined) => InGroup(sem, ctx, conds, k, j);
    KeyedRowsDiffer(Table(db, ds), pk);
    FilterDupFree((r: Row) => Linked(db, tree, ds, p, r), Table(db, ds));
    ValuesDiffer(sem, t, Table(db, ds), OnceRows(db, tree, ds, p), pk);
    DifferentValues(OnceVals(sem, ctx, db, tree, conds, t, ds, k));
  }

  /** The term is one field, which the engine reads as the column `c`, taken as it is or told apart by the scalar. */
  ghost predicate ReadsColumn(sem: Sem, t: AggTerm, c: string) {
    && |t.refs| == 1
    && (forall r: Row :: [sem.field(t.refs[0], r)] == Tuple(r, [c]))
    && forall v, v' :: sem.scalar(t.scalar, [v]) == sem.scalar(t.scalar, [v']) ==> v == v'
  }

  /** For an engine that reads a DISTINCT term as the single primary-key column, the planned side keeps it on every sound database. */
  lemma KeyColumnKeepsDistinct(sem: Sem, m: Model, ctx: Context, t: AggTerm, s: Side, c: string)
    requires PlansSide(m, ctx, t, s) && |TermDatasets(t)| == 1 && [] !in ctx.groups
    requires ReadsColumn(sem, t, c) && PrimaryKeyOf(m, TermDatasets(t)[0]) == [c]
    ensures KeepsDistinct(sem, ctx, s)
  {
    forall db, k | SideSound(sem, db, s) ensures SideValue(sem, ctx, db, s, k) == OnceOf(sem, ctx, db, s, k) {
      if DistinctSafe(s) {
        SideValueOnce(sem, m, ctx, db, t, s, k);
      } else {
        ColumnTells(sem, t, Table(db, s.measure), c);
        DistinctKeptByKey(sem, m, ctx, db, t, s, k);
      }
    }
  }

  lemma ColumnTells(sem: Sem, t: AggTerm, table: seq<Row>, c: string)
    requires ReadsColumn(sem, t, c)
    ensures TellsKeys(sem, t, table, [c])
  {
    forall r, r' | r in table && r' in table && RowTermVal(sem, t, r) == RowTermVal(sem, t, r') ensures Tuple(r, [c]) == Tuple(r', [c]) {
      OneFieldVal(sem, t, r);
      OneFieldVal(sem, t, r');
    }
  }

  lemma OneFieldVal(sem: Sem, t: AggTerm, r: Row)
    requires |t.refs| == 1
    ensures RowTermVal(sem, t, r) == sem.scalar(t.scalar, [sem.field(t.refs[0], r)])
  {
    assert Map(ref => sem.field(ref, r), t.refs) == [sem.field(t.refs[0], r)];
  }

  // ------------------------------------------------------ fan-out in one pass

  /** The database meets the model's declarations for one term of a single pass, and off the root a LEFT-joined scalar is null-strict. */
  ghost predicate PassSound(sem: Sem, db: Database, tree: Tree, t: AggTerm) {
    ToKeyed(db, tree.joins) && (AllInner(tree) || RefsOn(t, tree.root) || NullStrict(sem, t))
  }

  /** On every sound database each group's value aggregates its linked rows of `ds` once each. */
  ghost predicate OncePerRow(sem: Sem, ctx: Context, tree: Tree, conds: seq<Cond>, t: AggTerm, ds: Dataset) {
    forall db, k | PassSound(sem, db, tree, t) ::
      SideValue(sem, ctx, db, Direct(tree, conds, t), k) == OnceValue(sem, ctx, db, tree, conds, t, t.distinct, ds, k)
  }

  /** The position where a value first occurs. */
  function First(vals: seq<Value>, v: Value): (i: int)
    ensures v in vals ==> 0 <= i < |vals| && vals[i] == v
  {
    if vals == [] then 0 else if vals[0] == v then 0 else 1 + First(vals[1..], v)
  }

  function Firsts(vals: seq<Value>): (r: seq<int>)
    ensures |r| == |vals| && forall i :: 0 <= i < |vals| ==> r[i] == First(vals, vals[i])
  {
    Map(v => First(vals, v), vals)
  }

  /** A root row for each value, and a measure row for each different one. */
  lemma FirstVals(vals: seq<Value>)
    ensures ValsAt(vals, Firsts(vals)) == vals
    ensures multiset(ValsAt(vals, Distinct(Firsts(vals)))) == multiset(set v | v in vals)
    ensures forall n :: n in Distinct(Firsts(vals)) ==> 0 <= n < |vals|
  {
    var roots := Firsts(vals);
    var tags := Distinct(roots);
    var once := ValsAt(vals, tags);
    forall i | 0 <= i < |vals| ensures vals[i] in vals && ValAt(vals, roots[i]) == vals[i] {}
    forall n | n in tags ensures 0 <= n < |vals| && First(vals, vals[n]) == n {
      var i :| 0 <= i < |roots| && roots[i] == n;
      assert vals[i] in vals;
    }
    forall i, j | 0 <= i < j < |once| ensures once[i] != once[j] {
      assert tags[i] in tags && tags[j] in tags;
    }
    forall v ensures v in once <==> v in vals {
      if v in vals {
        var i :| 0 <= i < |vals| && vals[i] == v;
        assert roots[i] in tags;
        var l :| 0 <= l < |tags| && tags[l] == roots[i];
        assert once[l] == v;
      }
      if v in once {
        var l :| 0 <= l < |once| && once[l] == v;
        assert tags[l] in tags;
      }
    }
    forall v ensures multiset(once)[v] == multiset(set w | w in vals)[v] {
      DupFreeCount(once, v);
    }
  }

  /** Off the root, repeats that the aggregate notices reach it on some sound database. */
  lemma FanOutReaches(agg: Agg, m: Model, ctx: Context, required: set<Dataset>, f: Flat, t: AggTerm, ds: Dataset, vals: seq<Value>) returns (x: Tagged)
    requires PassPlanned(m, ctx, required, f, t, ds) && ds != f.tree.root && !t.distinct
    requires AllInner(f.tree) || IgnoresNull(agg, t.func)
    requires (Pinned(ctx, t) ==> Constant(vals)) && !IgnoredAt(agg, t.func, vals)
    ensures x.sem.aggregate == agg && PassSound(x.sem, x.db, f.tree, t)
    ensures SideValue(x.sem, ctx, x.db, Direct(f.tree, f.conds, t), TagKey(ctx))
         != OnceValue(x.sem, ctx, x.db, f.tree, f.conds, t, false, ds, TagKey(ctx))
  {
    var roots := Firsts(vals);
    var tags := Distinct(roots);
    FirstVals(vals);
    JoinsPaired(m.rels, f.tree.joins);
    x := MakeTagged(agg, ctx, f.tree, f.conds, t, [], vals, roots, tags);
    TagDbKeyed(x.cols, f.tree, roots, tags);
    TagDirect(x, agg, ctx, f.tree, f.conds, t, roots, tags, ds);
    TagOnce(x, agg, ctx, f.tree, f.conds, t, roots, tags, ds, false);
  }

  /** A term over `ds` in a planned single pass. */
  ghost predicate PassPlanned(m: Model, ctx: Context, required: set<Dataset>, f: Flat, t: AggTerm, ds: Dataset) {
    && PlansFlat(m, ctx, required, f) && BaseRequired(ctx) <= required && [] !in ctx.groups && Paired(m.rels)
    && RefsOn(t, ds) && t.refs != [] && ds in InTree(f.tree)
  }

  /** The values one pass sees in group `k`. */
  function PassVals(sem: Sem, ctx: Context, db: Database, tree: Tree, conds: seq<Cond>, t: AggTerm, k: seq<Value>): seq<Value> {
    Map((j: Joined) => TermVal(sem, t, j), Filter((j: Joined) => DimTuple(sem, ctx.grain, ctx.dims, j) == k, JoinedRows(sem, db, tree, conds)))
  }

  lemma PinnedPass(sem: Sem, ctx: Context, db: Database, tree: Tree, conds: seq<Cond>, t: AggTerm, k: seq<Value>)
    requires Pinned(ctx, t)
    ensures Constant(PassVals(sem, ctx, db, tree, conds, t, k))
  {
    var rows := Filter((j: Joined) => DimTuple(sem, ctx.grain, ctx.dims, j) == k, JoinedRows(sem, db, tree, conds));
    forall i, l | 0 <= i < l < |rows| ensures TermVal(sem, t, rows[i]) == TermVal(sem, t, rows[l]) {
      assert rows[i] in rows && rows[l] in rows;
      PinnedTermVal(sem, ctx, t, rows[i], rows[l]);
    }
  }

  /** Where the aggregate ignores repeats, so does one pass: its value is that of the DISTINCT term. */
  lemma PassIgnores(sem: Sem, ctx: Context, db: Database, tree: Tree, conds: seq<Cond>, t: AggTerm, k: seq<Value>)
    requires IgnoresRepeats(sem.aggregate, t.func, Pinned(ctx, t)) && !t.distinct
    ensures SideValue(sem, ctx, db, Direct(tree, conds, t), k) == SideValue(sem, ctx, db, Direct(tree, conds, t.(distinct := true)), k)
  {
    if Pinned(ctx, t) {
      PinnedPass(sem, ctx, db, tree, conds, t, k);
    }
    assert IgnoredAt(sem.aggregate, t.func, PassVals(sem, ctx, db, tree, conds, t, k));
    SameVals(sem, ctx, db, tree, conds, t, k);
  }

  lemma SameVals(sem: Sem, ctx: Context, db: Database, tree: Tree, conds: seq<Cond>, t: AggTerm, k: seq<Value>)
    ensures PassVals(sem, ctx, db, tree, conds, t, k) == PassVals(sem, ctx, db, tree, conds, t.(distinct := true), k)
  {
  }

  /**
   A term over one dataset in the single pass is taken once per row of that dataset, on every sound database and for
   every engine with the given aggregate, exactly when the dataset is the root, the term is DISTINCT, or the aggregate
   does not notice repeats. For a plain SUM that is the planner's own test, which a ratio passes and nothing else is
   put to.
   */
  lemma OncePerRowIff(agg: Agg, m: Model, ctx: Context, required: set<Dataset>, f: Flat, t: AggTerm, ds: Dataset)
    requires PassPlanned(m, ctx, required, f, t, ds)
    requires AllInner(f.tree) || IgnoresNull(agg, t.func)
    ensures (forall sem: Sem :: sem.aggregate == agg ==> OncePerRow(sem, ctx, f.tree, f.conds, t, ds))
       <==> TermSafe(t, f.tree.root) || t.distinct || IgnoresRepeats(agg, t.func, Pinned(ctx, t))
  {
    if TermSafe(t, f.tree.root) || t.distinct || IgnoresRepeats(agg, t.func, Pinned(ctx, t)) {
      forall sem: Sem | sem.aggregate == agg ensures OncePerRow(sem, ctx, f.tree, f.conds, t, ds) {
        forall db, k | PassSound(sem, db, f.tree, t)
          ensures SideValue(sem, ctx, db, Direct(f.tree, f.conds, t), k) == OnceValue(sem, ctx, db, f.tree, f.conds, t, t.distinct, ds, k)
        {
          PassOnce(sem, m, ctx, db, required, f, t, ds, k);
        }
      }
    } else {
      assert t.refs[0].dataset == ds;
      var vals: seq<Value> :| (Pinned(ctx, t) ==> Constant(vals)) && !IgnoredAt(agg, t.func, vals);
      var x := FanOutReaches(agg, m, ctx, required, f, t, ds, vals);
      assert !OncePerRow(x.sem, ctx, f.tree, f.conds, t, ds);
    }
  }

  lemma PassOnce(sem: Sem, m: Model, ctx: Context, db: Database, required: set<Dataset>, f: Flat, t: AggTerm, ds: Dataset, k: seq<Value>)
    requires PassPlanned(m, ctx, required, f, t, ds) && PassSound(sem, db, f.tree, t)
    requires TermSafe(t, f.tree.root) || t.distinct || IgnoresRepeats(sem.aggregate, t.func, Pinned(ctx, t))
    ensures SideValue(sem, ctx, db, Direct(f.tree, f.conds, t), k) == OnceValue(sem, ctx, db, f.tree, f.conds, t, t.distinct, ds, k)
  {
    assert t.refs[0].dataset == ds;
    if RefsOn(t, f.tree.root) {
      DirectOnRoot(sem, ctx, db, f.tree, f.conds, t, k);
    } else if t.distinct {
      DirectCountDistinct(sem, ctx, db, f.tree, f.conds, t, ds, k);
    } else {
      PassIgnores(sem, ctx, db, f.tree, f.conds, t, k);
      DistinctOnce(sem, ctx, db, f.tree, f.conds, t, ds, k);
      OnceIgnores(sem, ctx, db, f.tree, f.conds, t, ds, k);
    }
  }

  /** The DISTINCT form of a term, in one pass, has the DISTINCT reference value. */
  lemma DistinctOnce(sem: Sem, ctx: Context, db: Database, tree: Tree, conds: seq<Cond>, t: AggTerm, ds: Dataset, k: seq<Value>)
    requires RefsOn(t, ds) && ds in InTree(tree) && (AllInner(tree) || NullStrict(sem, t))
    ensures SideValue(sem, ctx, db, Direct(tree, conds, t.(distinct := true)), k) == OnceValue(sem, ctx, db, tree, conds, t, true, ds, k)
  {
    var d := t.(distinct := true);
    SameRowVals(sem, t);
    DirectCountDistinct(sem, ctx, db, tree, conds, d, ds, k);
    var once := OnceRows(db, tree, ds, (j: Joined) => InGroup(sem, ctx, conds, k, j));
    assert Map(r => RowTermVal(sem, d, r), once) == Map(r => RowTermVal(sem, t, r), once);
  }

  lemma SameRowVals(sem: Sem, t: AggTerm)
    ensures forall r :: RowTermVal(sem, t.(distinct := true), r) == RowTermVal(sem, t, r)
    ensures NullStrict(sem, t) ==> NullStrict(sem, t.(distinct := true))
  {
  }
}
