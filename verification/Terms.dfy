/** Fields, aggregation terms and row conditions. */
module Terms {
  // The meaning of scalar text, functions and operators is a parameter (`Sem`), so the theorems
  // hold for whatever the engine computes for them.

  import opened Fields
  import opened JoinGraph
  import opened Relational
  import opened Seqs

  datatype Result<+T> = Ok(value: T) | Err(error: string)

  /** FUNC([DISTINCT] scalar), where the scalar's only column references are `refs`. */
  datatype AggTerm = AggTerm(func: string, distinct: bool, scalar: string, refs: seq<FieldRef>)

  datatype DimSpec = DimSpec(ref: FieldRef, grained: bool)

  datatype UserFilter = UserFilter(ref: FieldRef, op: string, value: Value, values: seq<Value>)

  datatype RowFilter = RowFilter(dataset: Dataset, pred: string)

  /** What the engine computes: for field expressions, scalars, aggregates, row-filter predicates, operators and DATE_TRUNC. */
  datatype Sem = Sem(
    field: (FieldRef, Row) -> Value,
    scalar: (string, seq<Value>) -> Value,
    aggregate: (string, multiset<Value>) -> Value,
    rowTest: (string, Row) -> bool,
    test: (string, Value, seq<Value>) -> bool,
    trunc: (string, Value) -> Value)

  function FieldVal(sem: Sem, ref: FieldRef, j: Joined): Value {
    sem.field(ref, Bound(j, ref.dataset))
  }

  function DimVal(sem: Sem, grain: string, dm: DimSpec, j: Joined): Value {
    if dm.grained then sem.trunc(grain, FieldVal(sem, dm.ref, j)) else FieldVal(sem, dm.ref, j)
  }

  function DimTuple(sem: Sem, grain: string, dims: seq<DimSpec>, j: Joined): (k: seq<Value>)
    ensures |k| == |dims|
  {
    Map(dm => DimVal(sem, grain, dm, j), dims)
  }

  /** What a dimension column shows of a joined row: the field of the row that is joined, truncated to the requested grain where the dimension is grained. */
  predicate KeyIs(sem: Sem, grain: string, dims: seq<DimSpec>, j: Joined, k: seq<Value>) {
    |k| == |dims| && forall i :: 0 <= i < |dims| ==> ColumnShows(sem, grain, dims[i], Bound(j, dims[i].ref.dataset), k[i])
  }

  predicate ColumnShows(sem: Sem, grain: string, dm: DimSpec, r: Row, v: Value) {
    v == (if dm.grained then sem.trunc(grain, sem.field(dm.ref, r)) else sem.field(dm.ref, r))
  }

  lemma TupleIsKey(sem: Sem, grain: string, dims: seq<DimSpec>, j: Joined, k: seq<Value>)
    ensures KeyIs(sem, grain, dims, j, k) <==> DimTuple(sem, grain, dims, j) == k
  {
    var t := DimTuple(sem, grain, dims, j);
    forall i | 0 <= i < |dims| ensures ColumnShows(sem, grain, dims[i], Bound(j, dims[i].ref.dataset), t[i]) {}
    if KeyIs(sem, grain, dims, j, k) {
      forall i | 0 <= i < |dims| ensures k[i] == t[i] {
        assert ColumnShows(sem, grain, dims[i], Bound(j, dims[i].ref.dataset), k[i]);
      }
    }
  }

  function TermVal(sem: Sem, t: AggTerm, j: Joined): Value {
    sem.scalar(t.scalar, Map(ref => FieldVal(sem, ref, j), t.refs))
  }

  /** The term's scalar on one row of the dataset all its references name. */
  function RowTermVal(sem: Sem, t: AggTerm, r: Row): Value {
    sem.scalar(t.scalar, Map(ref => sem.field(ref, r), t.refs))
  }

  function Aggregate(sem: Sem, func: string, distinct: bool, vals: seq<Value>): Value {
    sem.aggregate(func, if distinct then multiset(set v | v in vals) else multiset(vals))
  }

  /** The datasets a term references, in order of first occurrence. */
  function TermDatasets(t: AggTerm): (ds: seq<Dataset>)
  {
    Distinct(Map((r: FieldRef) => r.dataset, t.refs))
  }

  /** Every reference of the term names `m`. */
  predicate RefsOn(t: AggTerm, m: Dataset) {
    forall i :: 0 <= i < |t.refs| ==> t.refs[i].dataset == m
  }

  lemma OneDatasetRefs(t: AggTerm)
    requires |TermDatasets(t)| == 1
    ensures RefsOn(t, TermDatasets(t)[0]) && t.refs != []
  {
    var names := Map((r: FieldRef) => r.dataset, t.refs);
    assert TermDatasets(t)[0] in names;
    forall i | 0 <= i < |t.refs| ensures t.refs[i].dataset == TermDatasets(t)[0] {
      assert names[i] in TermDatasets(t);
    }
  }

  /** COUNT(DISTINCT ...), or every reference on the root: what one pass over a tree may aggregate. */
  predicate TermSafe(t: AggTerm, root: Dataset) {
    (t.func == "COUNT" && t.distinct) || RefsOn(t, root)
  }

  lemma TermValIsRowTermVal(sem: Sem, t: AggTerm, m: Dataset, j: Joined)
    requires RefsOn(t, m)
    ensures TermVal(sem, t, j) == RowTermVal(sem, t, Bound(j, m))
  {
    assert Map(ref => FieldVal(sem, ref, j), t.refs) == Map(ref => sem.field(ref, Bound(j, m)), t.refs);
  }

  // ------------------------------------------------------------ row conditions

  datatype Cond =
    | Test(filter: UserFilter)
    | RowCond(filterRow: RowFilter)
    | And(all: seq<Cond>)
    | Or(any: seq<Cond>)

  function Operands(f: UserFilter): seq<Value> {
    if f.op in ["IN", "NOT IN", "BETWEEN"] then f.values else [f.value]
  }

  predicate Holds(sem: Sem, c: Cond, j: Joined) {
    match c
    case Test(f) => sem.test(f.op, FieldVal(sem, f.ref, j), Operands(f))
    case RowCond(rf) => sem.rowTest(rf.pred, Bound(j, rf.dataset))
    case And(cs) => forall c :: c in cs ==> Holds(sem, c, j)
    case Or(cs) => exists c :: c in cs && Holds(sem, c, j)
  }

  /** The conjuncts of a WHERE clause. */
  predicate Where(sem: Sem, conds: seq<Cond>, j: Joined) {
    forall c :: c in conds ==> Holds(sem, c, j)
  }

  predicate FilterOk(f: UserFilter) {
    || f.op in ["=", "!=", "<", "<=", ">", ">=", "LIKE"]
    || (f.op in ["IN", "NOT IN"] && f.values != [])
    || (f.op == "BETWEEN" && |f.values| == 2)
  }

  /** What a user filter asks of a field's value: list operators take all the filter's values, the others its one value. */
  predicate Asks(sem: Sem, f: UserFilter, v: Value) {
    if f.op == "IN" || f.op == "NOT IN" || f.op == "BETWEEN" then sem.test(f.op, v, f.values) else sem.test(f.op, v, [f.value])
  }

  predicate PassesFilters(sem: Sem, filters: seq<UserFilter>, j: Joined) {
    forall f :: f in filters ==> Asks(sem, f, sem.field(f.ref, Bound(j, f.ref.dataset)))
  }

  predicate PassesGroup(sem: Sem, g: seq<RowFilter>, j: Joined) {
    forall rf :: rf in g ==> sem.rowTest(rf.pred, Bound(j, rf.dataset))
  }

  /** The user filters hold and, when any role is restricted, some role's whole filter set holds. */
  predicate Admits(sem: Sem, filters: seq<UserFilter>, groups: seq<seq<RowFilter>>, j: Joined) {
    && PassesFilters(sem, filters, j)
    && (groups == [] || exists g :: g in groups && PassesGroup(sem, g, j))
  }

  function FilterDatasets(groups: seq<seq<RowFilter>>): set<Dataset> {
    set i, k | 0 <= i < |groups| && 0 <= k < |groups[i]| :: groups[i][k].dataset
  }

  /**
   The WHERE conjuncts: user filters, then one disjunction over the roles of the
   conjunction of each role's filters. A row filter on a dataset outside the
   join tree is an error; no dataset outside it is ever mentioned.
   */
  method WhereClauses(filters: seq<UserFilter>, groups: seq<seq<RowFilter>>, inTree: set<Dataset>) returns (r: Result<seq<Cond>>)
    ensures r.Ok? <==> (forall f :: f in filters ==> FilterOk(f)) && FilterDatasets(groups) <= inTree
    ensures r.Ok? && [] !in groups ==> forall sem, j :: Where(sem, r.value, j) <==> Admits(sem, filters, groups, j)
  {
    var out: seq<Cond> := [];
    for i := 0 to |filters|
      invariant out == Map(f => Test(f), filters[..i])
      invariant forall k :: 0 <= k < i ==> FilterOk(filters[k])
    {
      if !FilterOk(filters[i]) {
        return Err("unsupported filter");
      }
      assert filters[..i + 1] == filters[..i] + [filters[i]];
      out := out + [Test(filters[i])];
    }
    assert filters[..|filters|] == filters;
    var roleTerms: seq<Cond> := [];
    for i := 0 to |groups|
      invariant roleTerms == RoleTerms(groups[..i])
      invariant forall a, k :: 0 <= a < i && 0 <= k < |groups[a]| ==> groups[a][k].dataset in inTree
    {
      var g := groups[i];
      var conj: seq<Cond> := [];
      for k := 0 to |g|
        invariant conj == Map(rf => RowCond(rf), g[..k])
        invariant forall b :: 0 <= b < k ==> g[b].dataset in inTree
      {
        if g[k].dataset !in inTree {
          assert groups[i][k].dataset in FilterDatasets(groups);
          return Err("row filter dataset not in join tree");
        }
        assert g[..k + 1] == g[..k] + [g[k]];
        conj := conj + [RowCond(g[k])];
      }
      assert g[..|g|] == g;
      assert groups[..i + 1][..i] == groups[..i];
      if |conj| > 0 {
        roleTerms := roleTerms + [And(conj)];
      }
    }
    assert groups[..|groups|] == groups;
    if |roleTerms| > 0 {
      out := out + [Or(roleTerms)];
    }
    WhereMeaning(filters, groups);
    return Ok(out);
  }

  /** The roles' conjunctions; a group without filters contributes none. */
  function RoleTerms(groups: seq<seq<RowFilter>>): seq<Cond> {
    if groups == [] then []
    else
      var n := |groups| - 1;
      RoleTerms(groups[..n]) + if |groups[n]| > 0 then [And(Map(rf => RowCond(rf), groups[n]))] else []
  }

  function Clauses(filters: seq<UserFilter>, groups: seq<seq<RowFilter>>): seq<Cond> {
    Map(f => Test(f), filters) + if RoleTerms(groups) != [] then [Or(RoleTerms(groups))] else []
  }

  lemma {:induction false} RoleTermsAre(groups: seq<seq<RowFilter>>)
    requires [] !in groups
    ensures RoleTerms(groups) == Map(g => And(Map(rf => RowCond(rf), g)), groups)
  {
    if groups != [] {
      var n := |groups| - 1;
      assert groups[..n] + [groups[n]] == groups;
      assert groups[n] in groups && [] !in groups[..n];
      RoleTermsAre(groups[..n]);
    }
  }

  lemma GroupHolds(sem: Sem, g: seq<RowFilter>, j: Joined)
    ensures Holds(sem, And(Map(rf => RowCond(rf), g)), j) <==> PassesGroup(sem, g, j)
  {
    var cs: seq<Cond> := Map(rf => RowCond(rf), g);
    forall i | 0 <= i < |g| ensures cs[i] in cs && g[i] in g && cs[i] == RowCond(g[i]) {}
    if Holds(sem, And(cs), j) {
      forall rf | rf in g ensures sem.rowTest(rf.pred, Bound(j, rf.dataset)) {
        var i :| 0 <= i < |g| && g[i] == rf;
        assert Holds(sem, cs[i], j);
      }
    }
  }

  lemma WhereMeaning(filters: seq<UserFilter>, groups: seq<seq<RowFilter>>)
    ensures [] !in groups ==> forall sem, j :: Where(sem, Clauses(filters, groups), j) <==> Admits(sem, filters, groups, j)
  {
    if [] !in groups {
      forall sem, j ensures Where(sem, Clauses(filters, groups), j) <==> Admits(sem, filters, groups, j) {
        WhereMeaningAt(filters, groups, sem, j);
      }
    }
  }

  lemma TestsHold(filters: seq<UserFilter>, sem: Sem, j: Joined)
    ensures Where(sem, Map(f => Test(f), filters), j) <==> PassesFilters(sem, filters, j)
  {
    var tests: seq<Cond> := Map(f => Test(f), filters);
    if Where(sem, tests, j) {
      forall f | f in filters ensures Asks(sem, f, FieldVal(sem, f.ref, j)) {
        var i :| 0 <= i < |filters| && filters[i] == f;
        assert Holds(sem, tests[i], j);
      }
    }
  }

  lemma RolesHold(groups: seq<seq<RowFilter>>, sem: Sem, j: Joined)
    requires [] !in groups
    ensures Holds(sem, Or(RoleTerms(groups)), j) <==> exists g :: g in groups && PassesGroup(sem, g, j)
  {
    RoleTermsAre(groups);
    var roles: seq<Cond> := RoleTerms(groups);
    if g :| g in groups && PassesGroup(sem, g, j) {
      var i :| 0 <= i < |groups| && groups[i] == g;
      GroupHolds(sem, g, j);
      assert roles[i] in roles;
    }
    if c :| c in roles && Holds(sem, c, j) {
      var i :| 0 <= i < |roles| && roles[i] == c;
      GroupHolds(sem, groups[i], j);
      assert groups[i] in groups;
    }
  }

  lemma WhereMeaningAt(filters: seq<UserFilter>, groups: seq<seq<RowFilter>>, sem: Sem, j: Joined)
    requires [] !in groups
    ensures Where(sem, Clauses(filters, groups), j) <==> Admits(sem, filters, groups, j)
  {
    RoleTermsAre(groups);
    TestsHold(filters, sem, j);
    RolesHold(groups, sem, j);
    var tests, roles := Map(f => Test(f), filters), RoleTerms(groups);
    if roles != [] {
      assert Clauses(filters, groups) == tests + [Or(roles)];
    }
  }
}
