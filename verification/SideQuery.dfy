/** One side of a split ratio metric. */
module SideQuery {
  // The plan the builder chooses (aggregate in one pass, or deduplicate on the primary key first)
  // and the proof that whichever it chooses aggregates every linked measure row once.

  import opened Fields
  import opened Options
  import opened JoinGraph
  import opened JoinTree
  import opened Relational
  import opened Seqs
  import opened Terms

  /** What the builder reads of a compiled model. */
  datatype Model = Model(order: seq<Dataset>, rels: seq<Relationship>, primaryKey: map<Dataset, seq<string>>)

  function PrimaryKeyOf(m: Model, ds: Dataset): seq<string> {
    if ds in m.primaryKey then m.primaryKey[ds] else []
  }

  datatype Context = Context(grain: string, dims: seq<DimSpec>, filters: seq<UserFilter>, groups: seq<seq<RowFilter>>)

  datatype Side =
    | Direct(tree: Tree, conds: seq<Cond>, term: AggTerm)
    | Dedup(tree: Tree, conds: seq<Cond>, measure: Dataset, pk: seq<string>, term: AggTerm)

  /** One output row: the dimension columns and the aggregates. */
  datatype OutRow = OutRow(key: seq<Value>, vals: seq<Value>)

  /** One row of the deduplicating subquery. */
  datatype DedupRow = DedupRow(pk: seq<Value>, key: seq<Value>, mval: Value)

  // ------------------------------------------------------------------ meaning

  function JoinedRows(sem: Sem, db: Database, tree: Tree, conds: seq<Cond>): seq<Joined> {
    Filter((j: Joined) => Where(sem, conds, j), EvalFrom(db, tree))
  }

  /** GROUP BY the dimension columns: one row a distinct key, or a single row when there are none. */
  function Keys<A(!new)>(ndims: nat, key: A -> seq<Value>, rows: seq<A>): (ks: seq<seq<Value>>)
    ensures DupFree(ks)
    ensures ndims > 0 ==> forall k :: k in ks <==> exists i :: 0 <= i < |rows| && key(rows[i]) == k
  {
    if ndims == 0 then [[]]
    else
      var all := Map(key, rows);
      assert forall i :: 0 <= i < |rows| ==> all[i] in all;
      Distinct(all)
  }

  function DedupRows(sem: Sem, ctx: Context, db: Database, s: Side): seq<DedupRow>
    requires s.Dedup?
  {
    Distinct(Map((j: Joined) => DedupRow(Tuple(Bound(j, s.measure), s.pk), DimTuple(sem, ctx.grain, ctx.dims, j), TermVal(sem, s.term, j)),
                 JoinedRows(sem, db, s.tree, s.conds)))
  }

  function SideValue(sem: Sem, ctx: Context, db: Database, s: Side, k: seq<Value>): Value {
    match s
    case Direct(tree, conds, term) =>
      Aggregate(sem, term.func, term.distinct,
                Map((j: Joined) => TermVal(sem, term, j),
                    Filter((j: Joined) => DimTuple(sem, ctx.grain, ctx.dims, j) == k, JoinedRows(sem, db, tree, conds))))
    case Dedup(tree, conds, measure, pk, term) =>
      Aggregate(sem, term.func, false,
                Map((d: DedupRow) => d.mval, Filter((d: DedupRow) => d.key == k, DedupRows(sem, ctx, db, s))))
  }

  function SideKeys(sem: Sem, ctx: Context, db: Database, s: Side): seq<seq<Value>> {
    match s
    case Direct(tree, conds, term) =>
      Keys(|ctx.dims|, (j: Joined) => DimTuple(sem, ctx.grain, ctx.dims, j), JoinedRows(sem, db, tree, conds))
    case Dedup(tree, conds, measure, pk, term) =>
      Keys(|ctx.dims|, (d: DedupRow) => d.key, DedupRows(sem, ctx, db, s))
  }

  /** The rows the side's SQL returns. */
  function EvalSide(sem: Sem, ctx: Context, db: Database, s: Side): seq<OutRow> {
    Map(k => OutRow(k, [SideValue(sem, ctx, db, s, k)]), SideKeys(sem, ctx, db, s))
  }

  // --------------------------------------------------- once per linked row

  /** The joined row passes the WHERE clause and shows the columns `k`: each field as it is, or truncated to the requested grain. */
  predicate InGroup(sem: Sem, ctx: Context, conds: seq<Cond>, k: seq<Value>, j: Joined): (b: bool)
    ensures b <==> Where(sem, conds, j) && DimTuple(sem, ctx.grain, ctx.dims, j) == k
  {
    TupleIsKey(sem, ctx.grain, ctx.dims, j, k);
    Where(sem, conds, j) && KeyIs(sem, ctx.grain, ctx.dims, j, k)
  }

  /**
   The reference definition: the aggregate over the rows of `m` that some joined
   row of the group links, each taken once, whatever the join multiplicity.
   */
  ghost function OnceValue(sem: Sem, ctx: Context, db: Database, tree: Tree, conds: seq<Cond>, term: AggTerm, distinct: bool,
                           m: Dataset, k: seq<Value>): Value
  {
    Aggregate(sem, term.func, distinct,
              Map(r => RowTermVal(sem, term, r), OnceRows(db, tree, m, (j: Joined) => InGroup(sem, ctx, conds, k, j))))
  }

  /** A declared primary key: no NULLs and no two rows alike. */
  ghost predicate PrimaryKey(table: seq<Row>, pk: seq<string>) {
    && pk != []
    && KeyOf(table, pk)
    && forall r :: r in table ==> Null !in Tuple(r, pk)
  }

  ghost predicate AllInner(t: Tree) {
    forall k :: 0 <= k < |t.joins| ==> t.joins[k].joinType.Inner?
  }

  /** The scalar is NULL on a null-extended row and the aggregate ignores NULLs, as SQL aggregates do. */
  ghost predicate NullStrict(sem: Sem, t: AggTerm) {
    && RowTermVal(sem, t, map[]) == Null
    && forall b: multiset<Value> :: sem.aggregate(t.func, b) == sem.aggregate(t.func, b[Null := 0])
  }

  lemma {:induction false} GroupFilter(sem: Sem, ctx: Context, conds: seq<Cond>, k: seq<Value>, rows: seq<Joined>)
    ensures Filter((j: Joined) => DimTuple(sem, ctx.grain, ctx.dims, j) == k, Filter((j: Joined) => Where(sem, conds, j), rows))
         == Filter((j: Joined) => InGroup(sem, ctx, conds, k, j), rows)
  {
    if rows != [] {
      var n := |rows| - 1;
      GroupFilter(sem, ctx, conds, k, rows[..n]);
      if Where(sem, conds, rows[n]) {
        FilterLast((j: Joined) => DimTuple(sem, ctx.grain, ctx.dims, j) == k, Filter((j: Joined) => Where(sem, conds, j), rows[..n]), rows[n]);
      } else {
        assert Filter((j: Joined) => Where(sem, conds, j), rows) == Filter((j: Joined) => Where(sem, conds, j), rows[..n]);
      }
    }
  }

  /** One pass over a tree rooted at the measure dataset aggregates every linked root row once. */
  lemma DirectOnRoot(sem: Sem, ctx: Context, db: Database, tree: Tree, conds: seq<Cond>, term: AggTerm, k: seq<Value>)
    requires Ordered(tree.root, tree.joins) && ToKeyed(db, tree.joins) && RefsOn(term, tree.root)
    ensures SideValue(sem, ctx, db, Direct(tree, conds, term), k)
         == OnceValue(sem, ctx, db, tree, conds, term, term.distinct, tree.root, k)
  {
    var p := (j: Joined) => InGroup(sem, ctx, conds, k, j);
    GroupFilter(sem, ctx, conds, k, EvalFrom(db, tree));
    RootRowsOnce(db, tree, p);
    var rows := Filter(p, EvalFrom(db, tree));
    var left := Map((j: Joined) => TermVal(sem, term, j), rows);
    var right := Map(r => RowTermVal(sem, term, r), Map((j: Joined) => Bound(j, tree.root), rows));
    forall i | 0 <= i < |rows| ensures left[i] == right[i] {
      TermValIsRowTermVal(sem, term, tree.root, rows[i]);
    }
    assert left == right;
  }

  /** What a term over `m` sees in one joined row: its value on the linked row, or on the null-extended one. */
  lemma JoinedTermVal(sem: Sem, db: Database, tree: Tree, term: AggTerm, m: Dataset, j: Joined)
    requires RefsOn(term, m) && m in InTree(tree) && j in EvalFrom(db, tree)
    ensures m in j && TermVal(sem, term, j) == RowTermVal(sem, term, Bound(j, m))
    ensures AllInner(tree) ==> j[m].Some?
    ensures j[m].Some? ==> Bound(j, m) == j[m].value && Bound(j, m) in Table(db, m)
    ensures j[m].None? ==> Bound(j, m) == map[]
  {
    FromShape(db, tree);
    TermValIsRowTermVal(sem, term, m, j);
  }

  /** The values a COUNT(DISTINCT) sees do not depend on how often the join repeats a row. */
  lemma CountDistinctValues(sem: Sem, ctx: Context, db: Database, tree: Tree, conds: seq<Cond>, term: AggTerm, m: Dataset, k: seq<Value>, v: Value)
    requires RefsOn(term, m) && m in InTree(tree)
    requires AllInner(tree) || (NullStrict(sem, term) && v != Null)
    ensures v in Map((j: Joined) => TermVal(sem, term, j), Filter((j: Joined) => InGroup(sem, ctx, conds, k, j), EvalFrom(db, tree)))
       <==> v in Map(r => RowTermVal(sem, term, r), OnceRows(db, tree, m, (j: Joined) => InGroup(sem, ctx, conds, k, j)))
  {
    var p := (j: Joined) => InGroup(sem, ctx, conds, k, j);
    var rows, once := Filter(p, EvalFrom(db, tree)), OnceRows(db, tree, m, p);
    var left, right := Map((j: Joined) => TermVal(sem, term, j), rows), Map(r => RowTermVal(sem, term, r), once);
    if v in left {
      var i :| 0 <= i < |rows| && left[i] == v;
      assert rows[i] in rows;
      JoinedTermVal(sem, db, tree, term, m, rows[i]);
      var r := Bound(rows[i], m);
      assert Linked(db, tree, m, p, r) && r in once;
      var l :| 0 <= l < |once| && once[l] == r;
      assert right[l] == v;
    }
    if v in right {
      var l :| 0 <= l < |once| && right[l] == v;
      assert once[l] in once;
      var j: Joined :| j in EvalFrom(db, tree) && p(j) && m in j && j[m] == Some(once[l]);
      JoinedTermVal(sem, db, tree, term, m, j);
      assert j in rows;
      var i :| 0 <= i < |rows| && rows[i] == j;
      assert left[i] == v;
    }
  }

  /** COUNT(DISTINCT) in one pass counts the values of the linked rows, whatever the multiplicity. */
  lemma DirectCountDistinct(sem: Sem, ctx: Context, db: Database, tree: Tree, conds: seq<Cond>, term: AggTerm, m: Dataset, k: seq<Value>)
    requires RefsOn(term, m) && m in InTree(tree) && term.distinct
    requires AllInner(tree) || NullStrict(sem, term)
    ensures SideValue(sem, ctx, db, Direct(tree, conds, term), k)
         == OnceValue(sem, ctx, db, tree, conds, term, true, m, k)
  {
    var p := (j: Joined) => InGroup(sem, ctx, conds, k, j);
    GroupFilter(sem, ctx, conds, k, EvalFrom(db, tree));
    var left := Map((j: Joined) => TermVal(sem, term, j), Filter(p, EvalFrom(db, tree)));
    var right := Map(r => RowTermVal(sem, term, r), OnceRows(db, tree, m, p));
    var sl, sr := (set v | v in left), set v | v in right;
    forall v | AllInner(tree) || v != Null ensures v in left <==> v in right {
      CountDistinctValues(sem, ctx, db, tree, conds, term, m, k, v);
    }
    if AllInner(tree) {
      assert sl == sr;
    } else {
      assert multiset(sl)[Null := 0] == multiset(sr)[Null := 0];
      assert sem.aggregate(term.func, multiset(sl)) == sem.aggregate(term.func, multiset(sl)[Null := 0]);
      assert sem.aggregate(term.func, multiset(sr)) == sem.aggregate(term.func, multiset(sr)[Null := 0]);
    }
  }

  /** The joined rows of a group, as a set: how often the joins repeat them is lost. */
  function GroupSet(sem: Sem, ctx: Context, db: Database, tree: Tree, conds: seq<Cond>, k: seq<Value>): set<Joined> {
    set j | j in EvalFrom(db, tree) && InGroup(sem, ctx, conds, k, j)
  }

  /**
   A DISTINCT aggregate in one pass, over any number of datasets, depends on the set of joined rows only: two trees
   over two databases that join the same rows, however often each, give the same value.
   */
  lemma DirectDistinctIgnoresRepeats(sem: Sem, ctx: Context, db: Database, tree: Tree, db': Database, tree': Tree,
                                     conds: seq<Cond>, term: AggTerm, k: seq<Value>)
    requires term.distinct && GroupSet(sem, ctx, db, tree, conds, k) == GroupSet(sem, ctx, db', tree', conds, k)
    ensures SideValue(sem, ctx, db, Direct(tree, conds, term), k) == SideValue(sem, ctx, db', Direct(tree', conds, term), k)
  {
    DirectValues(sem, ctx, db, tree, conds, term, k);
    DirectValues(sem, ctx, db', tree', conds, term, k);
  }

  /** The values a DISTINCT aggregate sees are those of the group's joined rows. */
  lemma DirectValues(sem: Sem, ctx: Context, db: Database, tree: Tree, conds: seq<Cond>, term: AggTerm, k: seq<Value>)
    requires term.distinct
    ensures SideValue(sem, ctx, db, Direct(tree, conds, term), k)
         == sem.aggregate(term.func, multiset(set j | j in GroupSet(sem, ctx, db, tree, conds, k) :: TermVal(sem, term, j)))
  {
    var p := (j: Joined) => InGroup(sem, ctx, conds, k, j);
    GroupFilter(sem, ctx, conds, k, EvalFrom(db, tree));
    var rows := Filter(p, EvalFrom(db, tree));
    var vals := Map((j: Joined) => TermVal(sem, term, j), rows);
    var group := GroupSet(sem, ctx, db, tree, conds, k);
    forall v ensures v in vals <==> v in (set j | j in group :: TermVal(sem, term, j)) {
      if v in vals {
        var i :| 0 <= i < |vals| && vals[i] == v;
        assert rows[i] in rows && rows[i] in group;
      }
      if v in (set j | j in group :: TermVal(sem, term, j)) {
        var j :| j in group && TermVal(sem, term, j) == v;
        assert j in rows;
        var i :| 0 <= i < |rows| && rows[i] == j;
        assert vals[i] == v;
      }
    }
    assert (set v | v in vals) == set j | j in group :: TermVal(sem, term, j);
  }

  // ----------------------------------------------------------- deduplication

  /** The deduplicated row of a linked measure row. */
  ghost predicate OnceRowIs(sem: Sem, db: Database, s: Side, k: seq<Value>, p: Joined -> bool, d: DedupRow)
    requires s.Dedup?
  {
    exists r :: r in OnceRows(db, s.tree, s.measure, p) && d == DedupRow(Tuple(r, s.pk), k, RowTermVal(sem, s.term, r))
  }

  /** The deduplicated row of the null-extended measure row. */
  ghost predicate NullRowIs(sem: Sem, db: Database, s: Side, k: seq<Value>, p: Joined -> bool, d: DedupRow)
    requires s.Dedup?
  {
    NullExtended(db, s.tree, s.measure, p) && d == DedupRow(Tuple(map[], s.pk), k, RowTermVal(sem, s.term, map[]))
  }

  ghost predicate GroupOf(sem: Sem, ctx: Context, s: Side, k: seq<Value>, p: Joined -> bool) {
    forall j: Joined :: p(j) <==> InGroup(sem, ctx, s.conds, k, j)
  }

  function Projected(sem: Sem, ctx: Context, s: Side, j: Joined): DedupRow
    requires s.Dedup?
  {
    DedupRow(Tuple(Bound(j, s.measure), s.pk), DimTuple(sem, ctx.grain, ctx.dims, j), TermVal(sem, s.term, j))
  }

  /** A deduplicated row is the projection of some joined row that passes the conditions. */
  lemma DedupRowFrom(sem: Sem, ctx: Context, db: Database, s: Side, d: DedupRow) returns (j: Joined)
    requires s.Dedup? && d in DedupRows(sem, ctx, db, s)
    ensures j in EvalFrom(db, s.tree) && Where(sem, s.conds, j) && d == Projected(sem, ctx, s, j)
  {
    var rows := JoinedRows(sem, db, s.tree, s.conds);
    var all := Map((j: Joined) => DedupRow(Tuple(Bound(j, s.measure), s.pk), DimTuple(sem, ctx.grain, ctx.dims, j), TermVal(sem, s.term, j)), rows);
    assert d in all;
    var i :| 0 <= i < |all| && all[i] == d;
    j := rows[i];
    assert j in rows;
  }

  lemma DedupRowOf(sem: Sem, ctx: Context, db: Database, s: Side, j: Joined)
    requires s.Dedup? && j in EvalFrom(db, s.tree) && Where(sem, s.conds, j)
    ensures Projected(sem, ctx, s, j) in DedupRows(sem, ctx, db, s)
  {
    var rows := JoinedRows(sem, db, s.tree, s.conds);
    var all := Map((j: Joined) => DedupRow(Tuple(Bound(j, s.measure), s.pk), DimTuple(sem, ctx.grain, ctx.dims, j), TermVal(sem, s.term, j)), rows);
    assert j in rows;
    var i :| 0 <= i < |rows| && rows[i] == j;
    assert all[i] == Projected(sem, ctx, s, j);
  }

  lemma GroupRowIs(sem: Sem, ctx: Context, db: Database, s: Side, k: seq<Value>, p: Joined -> bool, j: Joined)
    requires s.Dedup? && RefsOn(s.term, s.measure) && s.measure in InTree(s.tree) && GroupOf(sem, ctx, s, k, p)
    requires j in EvalFrom(db, s.tree) && p(j)
    ensures var d := Projected(sem, ctx, s, j);
            d.key == k && (OnceRowIs(sem, db, s, k, p, d) || NullRowIs(sem, db, s, k, p, d))
  {
    JoinedTermVal(sem, db, s.tree, s.term, s.measure, j);
    if j[s.measure].Some? {
      assert Linked(db, s.tree, s.measure, p, Bound(j, s.measure));
    }
  }

  lemma OnceRowMeans(sem: Sem, ctx: Context, db: Database, s: Side, k: seq<Value>, p: Joined -> bool, d: DedupRow)
    requires s.Dedup? && RefsOn(s.term, s.measure) && s.measure in InTree(s.tree) && GroupOf(sem, ctx, s, k, p)
    requires OnceRowIs(sem, db, s, k, p, d)
    ensures d in DedupRows(sem, ctx, db, s) && d.key == k
  {
    var r :| r in OnceRows(db, s.tree, s.measure, p) && d == DedupRow(Tuple(r, s.pk), k, RowTermVal(sem, s.term, r));
    var j: Joined :| j in EvalFrom(db, s.tree) && p(j) && s.measure in j && j[s.measure] == Some(r);
    JoinedTermVal(sem, db, s.tree, s.term, s.measure, j);
    DedupRowOf(sem, ctx, db, s, j);
  }

  lemma NullRowMeans(sem: Sem, ctx: Context, db: Database, s: Side, k: seq<Value>, p: Joined -> bool, d: DedupRow)
    requires s.Dedup? && RefsOn(s.term, s.measure) && s.measure in InTree(s.tree) && GroupOf(sem, ctx, s, k, p)
    requires NullRowIs(sem, db, s, k, p, d)
    ensures d in DedupRows(sem, ctx, db, s) && d.key == k
  {
    var j: Joined :| j in EvalFrom(db, s.tree) && p(j) && s.measure in j && j[s.measure] == None;
    JoinedTermVal(sem, db, s.tree, s.term, s.measure, j);
    DedupRowOf(sem, ctx, db, s, j);
  }

  /** The deduplicated rows of group `k` are the group's linked rows, once each, plus at most one null-extended row. */
  lemma DedupGroup(sem: Sem, ctx: Context, db: Database, s: Side, k: seq<Value>, p: Joined -> bool, d: DedupRow)
    requires s.Dedup? && RefsOn(s.term, s.measure) && s.measure in InTree(s.tree) && GroupOf(sem, ctx, s, k, p)
    ensures d in DedupRows(sem, ctx, db, s) && d.key == k <==> OnceRowIs(sem, db, s, k, p, d) || NullRowIs(sem, db, s, k, p, d)
  {
    if d in DedupRows(sem, ctx, db, s) && d.key == k {
      var j := DedupRowFrom(sem, ctx, db, s, d);
      GroupRowIs(sem, ctx, db, s, k, p, j);
    } else if OnceRowIs(sem, db, s, k, p, d) {
      OnceRowMeans(sem, ctx, db, s, k, p, d);
    } else if NullRowIs(sem, db, s, k, p, d) {
      NullRowMeans(sem, ctx, db, s, k, p, d);
    }
  }

  ghost predicate NullExtended(db: Database, t: Tree, m: Dataset, p: Joined -> bool) {
    exists j: Joined :: j in EvalFrom(db, t) && p(j) && m in j && j[m] == None
  }

  lemma {:induction false} KeyedDupFree(table: seq<Row>, pk: seq<string>)
    requires PrimaryKey(table, pk)
    ensures DupFree(table)
  {
    forall i, j | 0 <= i < j < |table| ensures table[i] != table[j] {
      assert table[i] in table;
    }
  }

  /** Rows of a keyed table have different keys. */
  lemma KeyInjective(table: seq<Row>, pk: seq<string>, r: Row, r': Row)
    requires PrimaryKey(table, pk) && r in table && r' in table && Tuple(r, pk) == Tuple(r', pk)
    ensures r == r'
  {
    var i, j :| 0 <= i < |table| && 0 <= j < |table| && table[i] == r && table[j] == r';
  }

  /** The distinct rows a group should hold: one a linked measure row, and a null-extended one if there is any. */
  ghost function WantedRows(sem: Sem, db: Database, s: Side, k: seq<Value>, p: Joined -> bool): seq<DedupRow>
    requires s.Dedup?
  {
    Map((r: Row) => DedupRow(Tuple(r, s.pk), k, RowTermVal(sem, s.term, r)), OnceRows(db, s.tree, s.measure, p))
    + if NullExtended(db, s.tree, s.measure, p) then [DedupRow(Tuple(map[], s.pk), k, RowTermVal(sem, s.term, map[]))] else []
  }

  lemma WantedMembers(sem: Sem, db: Database, s: Side, k: seq<Value>, p: Joined -> bool, d: DedupRow)
    requires s.Dedup?
    ensures d in WantedRows(sem, db, s, k, p) <==> OnceRowIs(sem, db, s, k, p, d) || NullRowIs(sem, db, s, k, p, d)
  {
    var once, want := OnceRows(db, s.tree, s.measure, p), WantedRows(sem, db, s, k, p);
    if OnceRowIs(sem, db, s, k, p, d) {
      var r :| r in once && d == DedupRow(Tuple(r, s.pk), k, RowTermVal(sem, s.term, r));
      var i :| 0 <= i < |once| && once[i] == r;
      assert want[i] == d;
    }
    if NullRowIs(sem, db, s, k, p, d) {
      assert want[|once|] == d;
    }
    if d in want {
      var i :| 0 <= i < |want| && want[i] == d;
      assert i < |once| ==> once[i] in once;
    }
  }

  lemma DedupBag(sem: Sem, ctx: Context, db: Database, s: Side, k: seq<Value>)
    requires s.Dedup? && RefsOn(s.term, s.measure) && s.measure in InTree(s.tree)
    requires PrimaryKey(Table(db, s.measure), s.pk)
    ensures multiset(Filter((d: DedupRow) => d.key == k, DedupRows(sem, ctx, db, s)))
         == multiset(WantedRows(sem, db, s, k, (j: Joined) => InGroup(sem, ctx, s.conds, k, j)))
  {
    var p := (j: Joined) => InGroup(sem, ctx, s.conds, k, j);
    var got := Filter((d: DedupRow) => d.key == k, DedupRows(sem, ctx, db, s));
    FilterDupFree((d: DedupRow) => d.key == k, DedupRows(sem, ctx, db, s));
    WantDupFree(sem, db, s, k, p);
    forall d ensures d in got <==> d in WantedRows(sem, db, s, k, p) {
      DedupGroup(sem, ctx, db, s, k, p, d);
      WantedMembers(sem, db, s, k, p, d);
    }
    DupFreePermutation(got, WantedRows(sem, db, s, k, p));
  }

  lemma WantedValues(sem: Sem, db: Database, s: Side, k: seq<Value>, p: Joined -> bool)
    requires s.Dedup? && (AllInner(s.tree) || RowTermVal(sem, s.term, map[]) == Null)
    ensures Map((d: DedupRow) => d.mval, WantedRows(sem, db, s, k, p))
         == Map(r => RowTermVal(sem, s.term, r), OnceRows(db, s.tree, s.measure, p))
          + if NullExtended(db, s.tree, s.measure, p) then [Null] else []
    ensures NullExtended(db, s.tree, s.measure, p) ==> !AllInner(s.tree)
  {
    FromShape(db, s.tree);
  }

  /** The aggregate over a group's distinct rows is the aggregate over its linked measure rows. */
  lemma DedupAggregate(sem: Sem, ctx: Context, db: Database, s: Side, k: seq<Value>, p: Joined -> bool)
    requires s.Dedup? && PrimaryKey(Table(db, s.measure), s.pk)
    requires AllInner(s.tree) || NullStrict(sem, s.term)
    requires multiset(Filter((d: DedupRow) => d.key == k, DedupRows(sem, ctx, db, s))) == multiset(WantedRows(sem, db, s, k, p))
    ensures Aggregate(sem, s.term.func, false, Map((d: DedupRow) => d.mval, Filter((d: DedupRow) => d.key == k, DedupRows(sem, ctx, db, s))))
         == Aggregate(sem, s.term.func, false, Map(r => RowTermVal(sem, s.term, r), OnceRows(db, s.tree, s.measure, p)))
  {
    var mval := (d: DedupRow) => d.mval;
    var vals := Map(r => RowTermVal(sem, s.term, r), OnceRows(db, s.tree, s.measure, p));
    MapPermutation(mval, Filter((d: DedupRow) => d.key == k, DedupRows(sem, ctx, db, s)), WantedRows(sem, db, s, k, p));
    WantedValues(sem, db, s, k, p);
    if NullExtended(db, s.tree, s.measure, p) {
      NullIgnored(sem, s.term, vals);
    } else {
      assert vals + [] == vals;
    }
  }

  /** Deduplicating on the primary key leaves each linked measure row once. */
  lemma DedupValue(sem: Sem, ctx: Context, db: Database, s: Side, k: seq<Value>)
    requires s.Dedup? && RefsOn(s.term, s.measure) && s.measure in InTree(s.tree)
    requires PrimaryKey(Table(db, s.measure), s.pk)
    requires AllInner(s.tree) || NullStrict(sem, s.term)
    ensures SideValue(sem, ctx, db, s, k) == OnceValue(sem, ctx, db, s.tree, s.conds, s.term, false, s.measure, k)
  {
    DedupBag(sem, ctx, db, s, k);
    DedupAggregate(sem, ctx, db, s, k, (j: Joined) => InGroup(sem, ctx, s.conds, k, j));
  }

  lemma NullIgnored(sem: Sem, t: AggTerm, vals: seq<Value>)
    requires NullStrict(sem, t)
    ensures sem.aggregate(t.func, multiset(vals + [Null])) == sem.aggregate(t.func, multiset(vals))
  {
    var b := multiset(vals);
    assert multiset(vals + [Null]) == b + multiset{Null};
    assert sem.aggregate(t.func, b + multiset{Null}) == sem.aggregate(t.func, (b + multiset{Null})[Null := 0]);
    assert (b + multiset{Null})[Null := 0] == b[Null := 0];
  }

  lemma WantDupFree(sem: Sem, db: Database, s: Side, k: seq<Value>, p: Joined -> bool)
    requires s.Dedup? && PrimaryKey(Table(db, s.measure), s.pk)
    ensures DupFree(WantedRows(sem, db, s, k, p))
  {
    var g := (r: Row) => DedupRow(Tuple(r, s.pk), k, RowTermVal(sem, s.term, r));
    var once := OnceRows(db, s.tree, s.measure, p);
    var table := Table(db, s.measure);
    KeyedDupFree(table, s.pk);
    FilterDupFree((r: Row) => Linked(db, s.tree, s.measure, p, r), table);
    forall i, j | 0 <= i < j < |once| ensures g(once[i]) != g(once[j]) {
      assert once[i] in once && once[j] in once;
      if Tuple(once[i], s.pk) == Tuple(once[j], s.pk) {
        KeyInjective(table, s.pk, once[i], once[j]);
      }
    }
    forall i | 0 <= i < |once| ensures g(once[i]) != g(map[]) {
      assert once[i] in once;
      assert Tuple(map[], s.pk)[0] == Null;
      assert Null !in Tuple(once[i], s.pk);
    }
  }

  /** Deduplication keeps the groups of the joined rows. */
  lemma DedupKeys(sem: Sem, ctx: Context, db: Database, s: Side)
    requires s.Dedup?
    ensures SideKeys(sem, ctx, db, s) == SideKeys(sem, ctx, db, Direct(s.tree, s.conds, s.term))
  {
    var proj := (j: Joined) => DedupRow(Tuple(Bound(j, s.measure), s.pk), DimTuple(sem, ctx.grain, ctx.dims, j), TermVal(sem, s.term, j));
    var key := (d: DedupRow) => d.key;
    var rows := JoinedRows(sem, db, s.tree, s.conds);
    DistinctMapDistinct(key, Map(proj, rows));
    assert Map(key, Map(proj, rows)) == Map((j: Joined) => DimTuple(sem, ctx.grain, ctx.dims, j), rows);
  }

  // ------------------------------------------------------------- the planner

  function DimDatasets(dims: seq<DimSpec>): set<Dataset> {
    set i | 0 <= i < |dims| :: dims[i].ref.dataset
  }

  function UserFilterDatasets(filters: seq<UserFilter>): set<Dataset> {
    set i | 0 <= i < |filters| :: filters[i].ref.dataset
  }

  function RefDatasets(refs: seq<FieldRef>): set<Dataset> {
    set i | 0 <= i < |refs| :: refs[i].dataset
  }

  /** The datasets dimensions, filters and row filters mention. */
  function BaseRequired(ctx: Context): set<Dataset> {
    DimDatasets(ctx.dims) + UserFilterDatasets(ctx.filters) + FilterDatasets(ctx.groups)
  }

  function SideRequired(ctx: Context, t: AggTerm): set<Dataset> {
    BaseRequired(ctx) + RefDatasets(t.refs)
  }

  /** Safe in one pass: COUNT(DISTINCT ...), or a single measure dataset that is the root. */
  predicate OnePass(t: AggTerm, root: Dataset) {
    (t.func == "COUNT" && t.distinct) || TermDatasets(t) == [root]
  }

  /** A deduplicating plan exists: one measure dataset, with a primary key. */
  predicate CanDedup(m: Model, t: AggTerm) {
    |TermDatasets(t)| == 1 && PrimaryKeyOf(m, TermDatasets(t)[0]) != []
  }

  ghost predicate IsRoot(m: Model, required: set<Dataset>, root: Dataset) {
    FirstCover(m.rels, Candidates(m.order, required), required, root)
  }

  /** When a side has a plan. */
  ghost predicate Plannable(m: Model, ctx: Context, t: AggTerm) {
    var required := SideRequired(ctx, t);
    && required != {} && Connectable(m.rels, m.order, required)
    && (forall f :: f in ctx.filters ==> FilterOk(f))
    && (forall root :: IsRoot(m, required, root) ==> OnePass(t, root) || CanDedup(m, t))
  }

  /** What the chosen plan satisfies. */
  ghost predicate PlansSide(m: Model, ctx: Context, t: AggTerm, s: Side) {
    && s.term == t
    && IsJoinTree(m.rels, SideRequired(ctx, t), s.tree) && Planned(m.rels, SideRequired(ctx, t), s.tree)
    && IsRoot(m, SideRequired(ctx, t), s.tree.root)
    && ([] !in ctx.groups ==> forall sem, j :: Where(sem, s.conds, j) <==> Admits(sem, ctx.filters, ctx.groups, j))
    && (s.Direct? <==> OnePass(t, s.tree.root))
    && (s.Dedup? ==> TermDatasets(t) == [s.measure] && s.pk == PrimaryKeyOf(m, s.measure) != [])
  }

  lemma FirstCoverUnique(m: Model, required: set<Dataset>, a: Dataset, b: Dataset)
    requires IsRoot(m, required, a) && IsRoot(m, required, b)
    ensures a == b
  {
    var c := Candidates(m.order, required);
    var i :| 0 <= i < |c| && c[i] == a && forall j :: 0 <= j < i ==> !Covers(m.rels, c[j], required);
    var k :| 0 <= k < |c| && c[k] == b && forall j :: 0 <= j < k ==> !Covers(m.rels, c[j], required);
    assert i == k;
  }

  method RequiredBy(ctx: Context) returns (required: set<Dataset>)
    ensures required == BaseRequired(ctx)
  {
    required := {};
    for i := 0 to |ctx.dims|
      invariant required == DimDatasets(ctx.dims[..i])
    {
      assert ctx.dims[..i + 1] == ctx.dims[..i] + [ctx.dims[i]];
      assert DimDatasets(ctx.dims[..i + 1]) == DimDatasets(ctx.dims[..i]) + {ctx.dims[i].ref.dataset};
      required := required + {ctx.dims[i].ref.dataset};
    }
    assert ctx.dims[..|ctx.dims|] == ctx.dims;
    for i := 0 to |ctx.filters|
      invariant required == DimDatasets(ctx.dims) + UserFilterDatasets(ctx.filters[..i])
    {
      assert UserFilterDatasets(ctx.filters[..i + 1]) == UserFilterDatasets(ctx.filters[..i]) + {ctx.filters[i].ref.dataset};
      required := required + {ctx.filters[i].ref.dataset};
    }
    assert ctx.filters[..|ctx.filters|] == ctx.filters;
    ghost var before := required;
    for i := 0 to |ctx.groups|
      invariant required == before + FilterDatasets(ctx.groups[..i])
    {
      var g := ctx.groups[i];
      for k := 0 to |g|
        invariant required == before + FilterDatasets(ctx.groups[..i]) + (set b | 0 <= b < k :: g[b].dataset)
      {
        required := required + {g[k].dataset};
      }
      GroupsGrow(ctx.groups, i);
    }
    assert ctx.groups[..|ctx.groups|] == ctx.groups;
  }

  lemma GroupsGrow(groups: seq<seq<RowFilter>>, i: nat)
    requires i < |groups|
    ensures FilterDatasets(groups[..i + 1]) == FilterDatasets(groups[..i]) + (set b | 0 <= b < |groups[i]| :: groups[i][b].dataset)
  {
    var more: seq<seq<RowFilter>>, fewer: seq<seq<RowFilter>> := groups[..i + 1], groups[..i];
    forall a: nat, b: nat | a < i + 1 && b < |more[a]|
      ensures more[a][b].dataset in FilterDatasets(fewer) + (set b | 0 <= b < |groups[i]| :: groups[i][b].dataset)
    {
      assert a < i ==> more[a] == fewer[a];
    }
    forall a: nat, b: nat | a < i && b < |fewer[a]| ensures fewer[a][b].dataset in FilterDatasets(more) {
      assert more[a] == fewer[a];
    }
    forall b | 0 <= b < |groups[i]| ensures groups[i][b].dataset in FilterDatasets(more) {
      assert more[i] == groups[i];
    }
  }

  /** Plans one side of a split ratio. */
  method PlanSide(m: Model, ctx: Context, t: AggTerm) returns (r: Result<Side>)
    ensures r.Ok? <==> Plannable(m, ctx, t)
    ensures r.Ok? ==> PlansSide(m, ctx, t, r.value)
  {
    var required := RequiredFor(ctx, t);
    var tree := FindJoinTree(m.rels, m.order, required);
    if tree.None? {
      return Err("no join path");
    }
    forall other | IsRoot(m, required, other) ensures other == tree.value.root {
      FirstCoverUnique(m, required, other, tree.value.root);
    }
    var conds := WhereClauses(ctx.filters, ctx.groups, InTree(tree.value));
    if conds.Err? {
      return Err(conds.error);
    }
    r := ChooseSide(m, tree.value, conds.value, t);
  }

  /** The datasets a side needs joined. */
  method RequiredFor(ctx: Context, t: AggTerm) returns (required: set<Dataset>)
    ensures required == SideRequired(ctx, t)
  {
    required := RequiredBy(ctx);
    for i := 0 to |t.refs|
      invariant required == BaseRequired(ctx) + RefDatasets(t.refs[..i])
    {
      assert RefDatasets(t.refs[..i + 1]) == RefDatasets(t.refs[..i]) + {t.refs[i].dataset};
      required := required + {t.refs[i].dataset};
    }
    assert t.refs[..|t.refs|] == t.refs;
  }

  /** One pass over the tree where that is safe, else deduplication of the one measure dataset on its primary key. */
  method ChooseSide(m: Model, tree: Tree, conds: seq<Cond>, t: AggTerm) returns (r: Result<Side>)
    ensures r.Ok? <==> OnePass(t, tree.root) || CanDedup(m, t)
    ensures r.Ok? ==> r.value.term == t && r.value.tree == tree && r.value.conds == conds
    ensures r.Ok? ==> (r.value.Direct? <==> OnePass(t, tree.root))
    ensures r.Ok? && r.value.Dedup? ==> TermDatasets(t) == [r.value.measure] && r.value.pk == PrimaryKeyOf(m, r.value.measure) != []
  {
    var measures := TermDatasets(t);
    var safe := (t.func == "COUNT" && t.distinct) || (|measures| == 1 && measures[0] == tree.root);
    assert safe <==> OnePass(t, tree.root);
    if safe {
      return Ok(Direct(tree, conds, t));
    }
    if |measures| != 1 {
      return Err("references multiple datasets and is not fan-out safe");
    }
    var pk := PrimaryKeyOf(m, measures[0]);
    if |pk| == 0 {
      return Err("no primary_key");
    }
    assert TermDatasets(t) == [measures[0]];
    return Ok(Dedup(tree, conds, measures[0], pk, t));
  }

  /** The database meets the model's declarations for this side, and off the root a LEFT-joined scalar is null-strict. */
  ghost predicate SideSound(sem: Sem, db: Database, s: Side) {
    && ToKeyed(db, s.tree.joins)
    && (s.Dedup? ==> PrimaryKey(Table(db, s.measure), s.pk))
    && (AllInner(s.tree) || RefsOn(s.term, s.tree.root) || NullStrict(sem, s.term))
  }

  /** The reference value of a side over one measure dataset: its aggregate, DISTINCT or not, over the linked measure rows, each once. */
  ghost function OnceOf(sem: Sem, ctx: Context, db: Database, s: Side, k: seq<Value>): Value
    requires |TermDatasets(s.term)| == 1
  {
    OnceValue(sem, ctx, db, s.tree, s.conds, s.term, s.term.distinct, TermDatasets(s.term)[0], k)
  }

  /** The plan does not lose the term's DISTINCT. */
  predicate DistinctSafe(s: Side) {
    !s.term.distinct || s.Direct?
  }

  lemma SideValueOnce(sem: Sem, m: Model, ctx: Context, db: Database, t: AggTerm, s: Side, k: seq<Value>)
    requires PlansSide(m, ctx, t, s) && |TermDatasets(t)| == 1 && SideSound(sem, db, s) && DistinctSafe(s)
    ensures SideValue(sem, ctx, db, s, k) == OnceOf(sem, ctx, db, s, k)
  {
    OneDatasetRefs(t);
    assert t.refs[0].dataset in SideRequired(ctx, t);
    if TermDatasets(t) == [s.tree.root] {
      DirectOnRoot(sem, ctx, db, s.tree, s.conds, t, k);
    } else {
      OffRoot(t, s.tree.root);
      if s.Dedup? {
        DedupValue(sem, ctx, db, s, k);
      } else {
        DirectCountDistinct(sem, ctx, db, s.tree, s.conds, t, TermDatasets(t)[0], k);
      }
    }
  }

  /** A term over one dataset other than the root has a reference off the root. */
  lemma OffRoot(t: AggTerm, root: Dataset)
    requires |TermDatasets(t)| == 1 && TermDatasets(t) != [root]
    ensures !RefsOn(t, root)
  {
    OneDatasetRefs(t);
    assert t.refs[0].dataset == TermDatasets(t)[0] != root;
  }

  /**
   Whichever plan the builder chooses for a side over one measure dataset, the
   query returns one row a group of the joined rows, holding the aggregate over
   the measure rows linked to that group, each taken once.
   */
  lemma SideIsOncePerRow(sem: Sem, m: Model, ctx: Context, db: Database, t: AggTerm, s: Side)
    requires PlansSide(m, ctx, t, s) && |TermDatasets(t)| == 1 && SideSound(sem, db, s) && DistinctSafe(s)
    ensures EvalSide(sem, ctx, db, s)
         == Map(k => OutRow(k, [OnceOf(sem, ctx, db, s, k)]), SideKeys(sem, ctx, db, Direct(s.tree, s.conds, t)))
  {
    if s.Dedup? {
      DedupKeys(sem, ctx, db, s);
    }
    forall k: seq<Value> ensures SideValue(sem, ctx, db, s, k) == OnceOf(sem, ctx, db, s, k) {
      SideValueOnce(sem, m, ctx, db, t, s, k);
    }
  }
}
