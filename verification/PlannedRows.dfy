/** The rows a planned query keeps. */
module PlannedRows {
  // Row filters decide which joined rows pass, and also which datasets are joined at all: a filter's dataset
  // is required, may move the root, and may bring an INNER join that drops rows. Exactly when every row of a
  // planned query is kept by the query planned under other filter groups.

  import opened Options
  import opened JoinGraph
  import opened JoinTree
  import opened Relational
  import opened Seqs
  import opened Terms
  import opened SideQuery
  import opened Composite
  import opened FanOut
  import opened Meaning
  import opened Fields
  import opened Governance
  import opened Authorize
  import opened RowAccess
  import opened Returns

  // ------------------------------------------------------ trees of one search

  /** The edges that lead into `kept`. */
  function Keep(es: seq<Relationship>, kept: set<Dataset>): (r: seq<Relationship>)
    ensures forall e :: e in r <==> e in es && e.to in kept
  {
    if es == [] then [] else (if es[0].to in kept then [es[0]] else []) + Keep(es[1..], kept)
  }

  lemma {:induction false} KeepLast(es: seq<Relationship>, e: Relationship, kept: set<Dataset>)
    ensures Keep(es + [e], kept) == Keep(es, kept) + if e.to in kept then [e] else []
  {
    if es == [] {
      assert [] + [e] == [e] && [e][1..] == [];
    } else {
      assert (es + [e])[1..] == es[1..] + [e];
      KeepLast(es[1..], e, kept);
    }
  }

  lemma {:induction false} KeepSame(es: seq<Relationship>, a: set<Dataset>, b: set<Dataset>)
    requires forall e :: e in es ==> (e.to in a <==> e.to in b)
    ensures Keep(es, a) == Keep(es, b)
  {
    if es != [] {
      assert es[0] in es && forall e :: e in es[1..] ==> e in es;
      KeepSame(es[1..], a, b);
    }
  }

  lemma AliasesOf(joins: seq<Relationship>, last: Relationship)
    ensures Aliases(joins + [last]) == Aliases(joins) + {last.to}
  {
    InTreeAppend("", joins, last);
    assert InTree(Tree("", joins + [last])) == {""} + Aliases(joins + [last]) && InTree(Tree("", joins)) == {""} + Aliases(joins);
    AliasesLast(joins + [last], |joins|);
    assert (joins + [last])[..|joins|] == joins && (joins + [last])[..|joins| + 1] == joins + [last];
  }

  /** Pruning keeps, in order, the discovered edges into the datasets it keeps. */
  lemma {:induction false} PruneKeeps(rels: seq<Relationship>, root: Dataset, disc: seq<nat>, required: set<Dataset>)
    requires Indices(rels, disc) && Ordered(root, Edges(rels, disc))
    ensures Prune(rels, disc, required) == Keep(Edges(rels, disc), Aliases(Prune(rels, disc, required)))
  {
    if disc != [] {
      var init, last := disc[..|disc| - 1], rels[disc[|disc| - 1]];
      var es := Edges(rels, init);
      assert Edges(rels, disc) == es + [last];
      OrderedInit(root, es, last);
      NotAgain(root, es, last);
      var r := if last.to in required then required - {last.to} + {last.from} else required;
      PruneKeeps(rels, root, init, r);
      if last.to in required {
        PruneAdds(es, last, Prune(rels, init, r));
      } else {
        PruneSkips(es, last, Prune(rels, init, r));
      }
    }
  }

  lemma NotAgain(root: Dataset, es: seq<Relationship>, last: Relationship)
    requires Ordered(root, es + [last])
    ensures forall e :: e in es ==> e.to != last.to
  {
    var all := es + [last];
    forall e | e in es ensures e.to != last.to {
      var i :| 0 <= i < |es| && es[i] == e;
      assert all[i].to != all[|es|].to;
    }
  }

  lemma PruneAdds(es: seq<Relationship>, last: Relationship, pruned: seq<Relationship>)
    requires pruned == Keep(es, Aliases(pruned)) && forall e :: e in es ==> e.to != last.to
    ensures pruned + [last] == Keep(es + [last], Aliases(pruned + [last]))
  {
    AliasesOf(pruned, last);
    KeepLast(es, last, Aliases(pruned + [last]));
    KeepSame(es, Aliases(pruned), Aliases(pruned + [last]));
  }

  lemma PruneSkips(es: seq<Relationship>, last: Relationship, pruned: seq<Relationship>)
    requires pruned == Keep(es, Aliases(pruned)) && forall e :: e in es ==> e.to != last.to
    ensures pruned == Keep(es + [last], Aliases(pruned))
  {
    LastIsNew(es, last, pruned);
    KeepLast(es, last, Aliases(pruned));
    assert pruned + [] == pruned;
  }

  lemma LastIsNew(es: seq<Relationship>, last: Relationship, pruned: seq<Relationship>)
    requires (forall e :: e in pruned ==> e in es) && forall e :: e in es ==> e.to != last.to
    ensures last.to !in Aliases(pruned)
  {
    forall ds | ds in Aliases(pruned) ensures ds != last.to {
      var k :| 0 <= k < |pruned| && pruned[k].to == ds;
      assert pruned[k] in pruned;
    }
  }

  /** Every edge leads somewhere new, and into `kept` only from within it. */
  ghost predicate Rooted(es: seq<Relationship>, bound: set<Dataset>, kept: set<Dataset>)
    decreases |es|
  {
    es == [] ||
    (es[0].to !in bound && (es[0].to in kept ==> es[0].from in bound * kept) && Rooted(es[1..], bound + {es[0].to}, kept))
  }

  lemma {:induction false} RootedSuffix(root: Dataset, es: seq<Relationship>, kept: set<Dataset>, n: nat)
    requires Ordered(root, es) && n <= |es| && root in kept && forall e :: e in es && e.to in kept ==> e.from in kept
    ensures Rooted(es[n..], {root} + Aliases(es[..n]), kept)
    decreases |es| - n
  {
    if n < |es| {
      var bound := {root} + Aliases(es[..n]);
      assert BoundBy(root, es, n, es[n].from) && es[n] in es;
      if es[n].from != root {
        var k :| 0 <= k < n && es[k].to == es[n].from;
        assert es[..n][k].to == es[n].from;
      }
      RootedSuffix(root, es, kept, n + 1);
      AliasesLast(es, n);
      assert es[n].to !in bound;
      assert es[n..][0] == es[n] && es[n..][1..] == es[n + 1..];
      assert bound + {es[n].to} == {root} + Aliases(es[..n + 1]);
    }
  }

  /** A planned tree keeps, of its root's search, the edges into its own datasets; each comes from within it. */
  lemma PlannedKeeps(rels: seq<Relationship>, required: set<Dataset>, t: Tree)
    requires Planned(rels, required, t) && Ordered(t.root, t.joins)
    ensures Indices(rels, Bfs(rels, t.root))
    ensures var es := Edges(rels, Bfs(rels, t.root));
            && Ordered(t.root, es) && t.joins == Keep(es, InTree(t)) && Rooted(es, {t.root}, InTree(t))
  {
    BfsReaches(rels, t.root);
    var es := Edges(rels, Bfs(rels, t.root));
    PruneKeeps(rels, t.root, Bfs(rels, t.root), required);
    assert InTree(t) == {t.root} + Aliases(t.joins);
    forall e | e in es ensures e.to != t.root {
      var i :| 0 <= i < |es| && es[i] == e;
    }
    KeepSame(es, Aliases(t.joins), InTree(t));
    FromWithin(t, es);
    RootedSuffix(t.root, es, InTree(t), 0);
    assert es[..0] == [] && es[0..] == es && {t.root} + Aliases(es[..0]) == {t.root};
  }

  lemma FromWithin(t: Tree, es: seq<Relationship>)
    requires Ordered(t.root, t.joins) && t.joins == Keep(es, InTree(t))
    ensures forall e :: e in es && e.to in InTree(t) ==> e.from in InTree(t)
  {
    forall e | e in es && e.to in InTree(t) ensures e.from in InTree(t) {
      var i :| 0 <= i < |t.joins| && t.joins[i] == e;
      assert BoundBy(t.root, t.joins, i, t.joins[i].from);
    }
  }

  // ------------------------------------------------------ one row through both trees

  /** The two rows agree on every dataset both bind. */
  ghost predicate Agree(j: Joined, j': Joined) {
    forall ds | ds in j && ds in j' :: j[ds] == j'[ds]
  }

  lemma {:induction false} JoinsOfOne(db: Database, joins: seq<Relationship>, rows: seq<Joined>, z: Joined)
    ensures z in EvalJoins(db, joins, rows) <==> exists i :: 0 <= i < |rows| && z in EvalJoins(db, joins, [rows[i]])
    decreases |rows|
  {
    if rows == [] {
      EvalJoinsNone(db, joins);
    } else {
      var l := |rows| - 1;
      assert rows == rows[..l] + [rows[l]];
      EvalJoinsConcat(db, joins, rows[..l], [rows[l]]);
      JoinsOfOne(db, joins, rows[..l], z);
      if z in EvalJoins(db, joins, rows[..l]) {
        var i :| 0 <= i < l && z in EvalJoins(db, joins, [rows[..l][i]]);
        assert rows[i] == rows[..l][i];
      }
      if i :| 0 <= i < |rows| && z in EvalJoins(db, joins, [rows[i]]) {
        assert i < l ==> rows[..l][i] == rows[i];
      }
    }
  }

  /** One join first. */
  lemma JoinFirst(db: Database, e: Relationship, rest: seq<Relationship>, j: Joined, z: Joined)
    ensures z in EvalJoins(db, [e] + rest, [j]) <==> exists x :: x in Extend(db, e, j) && z in EvalJoins(db, rest, [x])
  {
    assert ([e] + rest)[1..] == rest && ([e] + rest)[0] == e;
    FlatMapOne((j: Joined) => Extend(db, e, j), j);
    var rows := Extend(db, e, j);
    JoinsOfOne(db, rest, rows, z);
    if x :| x in rows && z in EvalJoins(db, rest, [x]) {
      var i :| 0 <= i < |rows| && rows[i] == x;
    }
    if i :| 0 <= i < |rows| && z in EvalJoins(db, rest, [rows[i]]) {
      assert rows[i] in rows;
    }
  }

  /** A join depends on the row only through the dataset it starts from. */
  lemma ExtendSame(db: Database, e: Relationship, j: Joined, j': Joined, x: Joined)
    requires Bound(j, e.from) == Bound(j', e.from) && x in Extend(db, e, j)
    ensures e.to in x && x == j[e.to := x[e.to]] && j'[e.to := x[e.to]] in Extend(db, e, j')
  {
    var p, p' := (r: Row) => On(e, j, r), (r: Row) => On(e, j', r);
    FilterCong(p, p', Table(db, e.to));
    var ms := Filter(p, Table(db, e.to));
    if ms == [] && e.joinType.Left? {
      assert x == j[e.to := None];
    } else {
      var i :| 0 <= i < |ms| && x == j[e.to := Some(ms[i])];
      assert Map(r => j'[e.to := Some(r)], ms)[i] == j'[e.to := Some(ms[i])];
    }
  }

  lemma LeftGoesOn(db: Database, e: Relationship, j: Joined) returns (x: Joined)
    requires e.joinType.Left?
    ensures x in Extend(db, e, j) && e.to in x && x == j[e.to := x[e.to]]
  {
    x := Extend(db, e, j)[0];
    ExtendSame(db, e, j, j, x);
  }

  /** What both trees have bound so far. */
  ghost predicate InStepAt(bound: set<Dataset>, kept: set<Dataset>, kept': set<Dataset>, j: Joined, j': Joined) {
    j.Keys == bound * kept && j'.Keys == bound * kept' && Agree(j, j')
  }

  /** A row of one tree is followed by a row of the other that agrees with it, when the joins only the other has are LEFT. */
  lemma {:induction false} Follow(db: Database, es: seq<Relationship>, bound: set<Dataset>, kept: set<Dataset>, kept': set<Dataset>,
                                  j: Joined, j': Joined, z: Joined) returns (z': Joined)
    requires Rooted(es, bound, kept) && Rooted(es, bound, kept') && InStepAt(bound, kept, kept', j, j')
    requires z in EvalJoins(db, Keep(es, kept), [j])
    requires forall e :: e in es && e.to in kept' && e.to !in kept ==> e.joinType.Left?
    ensures z' in EvalJoins(db, Keep(es, kept'), [j']) && Agree(z, z')
    decreases |es|
  {
    if es == [] {
      z' := j';
    } else {
      var e, rest, next := es[0], es[1..], bound + {es[0].to};
      assert e in es && forall e :: e in rest ==> e in es;
      var x, x' := j, j';
      if e.to in kept {
        JoinFirst(db, e, Keep(rest, kept), j, z);
        x :| x in Extend(db, e, j) && z in EvalJoins(db, Keep(rest, kept), [x]);
        ExtendSame(db, e, j, j, x);
      } else {
        assert [] + Keep(rest, kept) == Keep(rest, kept);
      }
      if e.to in kept' {
        x' := FollowOne(db, e, bound, kept, kept', j, j', x);
      }
      StillInStep(e, bound, kept, kept', j, j', x, x');
      z' := Follow(db, rest, next, kept, kept', x, x', z);
      if e.to in kept' {
        JoinFirst(db, e, Keep(rest, kept'), j', z');
      } else {
        assert [] + Keep(rest, kept') == Keep(rest, kept');
      }
    }
  }

  lemma FollowOne(db: Database, e: Relationship, bound: set<Dataset>, kept: set<Dataset>, kept': set<Dataset>, j: Joined, j': Joined, x: Joined)
    returns (x': Joined)
    requires InStepAt(bound, kept, kept', j, j') && e.to in kept' && e.from in bound * kept'
    requires e.to in kept ==> e.from in bound * kept && x in Extend(db, e, j)
    requires e.to !in kept ==> e.joinType.Left?
    ensures x' in Extend(db, e, j') && e.to in x' && x' == j'[e.to := x'[e.to]] && (e.to in kept ==> e.to in x && x'[e.to] == x[e.to])
  {
    if e.to in kept {
      assert j[e.from] == j'[e.from];
      ExtendSame(db, e, j, j', x);
      x' := j'[e.to := x[e.to]];
    } else {
      x' := LeftGoesOn(db, e, j');
    }
  }

  lemma StillInStep(e: Relationship, bound: set<Dataset>, kept: set<Dataset>, kept': set<Dataset>, j: Joined, j': Joined, x: Joined, x': Joined)
    requires InStepAt(bound, kept, kept', j, j') && e.to !in bound
    requires if e.to in kept then e.to in x && x == j[e.to := x[e.to]] else x == j
    requires if e.to in kept' then e.to in x' && x' == j'[e.to := x'[e.to]] else x' == j'
    requires e.to in kept && e.to in kept' ==> x[e.to] == x'[e.to]
    ensures InStepAt(bound + {e.to}, kept, kept', x, x')
  {
    assert x.Keys == (bound + {e.to}) * kept && x'.Keys == (bound + {e.to}) * kept';
  }

  /** The joins the new tree adds are LEFT. */
  ghost predicate AddsLeft(t: Tree, t': Tree) {
    forall e :: e in t'.joins && e !in t.joins ==> e.joinType.Left?
  }

  /** Every joined row of a planned tree is followed, over the same root row, by one of a tree planned from the same root. */
  lemma RowFollowed(db: Database, rels: seq<Relationship>, required: set<Dataset>, required': set<Dataset>, t: Tree, t': Tree, j: Joined)
    returns (j': Joined)
    requires Planned(rels, required, t) && Ordered(t.root, t.joins) && Planned(rels, required', t') && Ordered(t'.root, t'.joins)
    requires t'.root == t.root && AddsLeft(t, t') && j in EvalFrom(db, t)
    ensures j' in EvalFrom(db, t') && Agree(j, j')
  {
    PlannedKeeps(rels, required, t);
    PlannedKeeps(rels, required', t');
    j' := FollowRoot(db, Edges(rels, Bfs(rels, t.root)), t, t', j);
  }

  lemma FollowRoot(db: Database, es: seq<Relationship>, t: Tree, t': Tree, j: Joined) returns (j': Joined)
    requires t.joins == Keep(es, InTree(t)) && Rooted(es, {t.root}, InTree(t))
    requires t'.joins == Keep(es, InTree(t')) && Rooted(es, {t.root}, InTree(t'))
    requires t'.root == t.root && AddsLeft(t, t') && j in EvalFrom(db, t)
    ensures j' in EvalFrom(db, t') && Agree(j, j')
  {
    var r := FromSome(db, t, j);
    AddedLeft(es, t, t');
    var start := Start(t.root, r);
    assert InStepAt({t.root}, InTree(t), InTree(t'), start, start);
    j' := Follow(db, es, {t.root}, InTree(t), InTree(t'), start, start, j);
    FromAny(db, t', r, j');
  }

  lemma FromSome(db: Database, t: Tree, j: Joined) returns (r: Row)
    requires j in EvalFrom(db, t)
    ensures r in Table(db, t.root) && j in EvalJoins(db, t.joins, [Start(t.root, r)])
  {
    var table := Table(db, t.root);
    FromIsPerRow(db, t, table);
    var i :| 0 <= i < |table| && j in FromRow(db, t, table[i]);
    r := table[i];
  }

  lemma FromAny(db: Database, t: Tree, r: Row, j: Joined)
    requires r in Table(db, t.root) && j in EvalJoins(db, t.joins, [Start(t.root, r)])
    ensures j in EvalFrom(db, t)
  {
    var table := Table(db, t.root);
    FromIsPerRow(db, t, table);
    var i :| 0 <= i < |table| && table[i] == r;
    assert j in FromRow(db, t, table[i]);
  }

  lemma AddedLeft(es: seq<Relationship>, t: Tree, t': Tree)
    requires t.joins == Keep(es, InTree(t)) && t'.joins == Keep(es, InTree(t')) && AddsLeft(t, t')
    ensures forall e :: e in es && e.to in InTree(t') && e.to !in InTree(t) ==> e.joinType.Left?
  {
    forall e | e in es && e.to in InTree(t') && e.to !in InTree(t) ensures e.joinType.Left? {
      assert e in t'.joins && e !in t.joins;
    }
  }

  /** What the old groups admit of a row, groups that ask for no more admit of a row that agrees with it. */
  lemma AdmitsFollowed(sem: Sem, filters: seq<UserFilter>, out: seq<seq<RowFilter>>, out': seq<seq<RowFilter>>, j: Joined, j': Joined)
    requires Agree(j, j') && Covered(out, out') && Admits(sem, filters, out, j)
    requires UserFilterDatasets(filters) + FilterDatasets(out) <= j.Keys && UserFilterDatasets(filters) + FilterDatasets(out') <= j'.Keys
    ensures Admits(sem, filters, out', j')
  {
    forall f | f in filters ensures FieldVal(sem, f.ref, j) == FieldVal(sem, f.ref, j') {
      var i :| 0 <= i < |filters| && filters[i] == f;
      assert f.ref.dataset in UserFilterDatasets(filters);
    }
    if out' != [] {
      var g :| g in out && PassesGroup(sem, g, j);
      var g' :| g' in out' && AsksNoMore(g, g');
      forall f | f in g' ensures sem.rowTest(f.pred, Bound(j', f.dataset)) {
        assert f in g;
        InFilterDatasets(out, g, f);
        InFilterDatasets(out', g', f);
        assert Bound(j, f.dataset) == Bound(j', f.dataset);
      }
    }
  }

  lemma InFilterDatasets(groups: seq<seq<RowFilter>>, g: seq<RowFilter>, f: RowFilter)
    requires g in groups && f in g
    ensures f.dataset in FilterDatasets(groups)
  {
    var i :| 0 <= i < |groups| && groups[i] == g;
    var k :| 0 <= k < |g| && g[k] == f;
    assert groups[i][k].dataset == f.dataset;
  }

  // ------------------------------------------------------ planned queries

  /** The request under other filter groups. */
  function Under(ctx: Context, groups: seq<seq<RowFilter>>): Context {
    ctx.(groups := groups)
  }

  /** What a query over the datasets `extra` of its own requires. */
  function Needs(ctx: Context, extra: set<Dataset>): set<Dataset> {
    extra + BaseRequired(ctx)
  }

  /** `j'` is the new query's row for `j`: over the same row of the old root, and the same in every dataset both join. */
  ghost predicate Keeping(root: Dataset, j: Joined, j': Joined) {
    root in j' && Agree(j, j')
  }

  /** Every row of the old query has one in the new, on every database that keeps the declared keys and for every engine. */
  ghost predicate KeepsRows(m: Model, f: Flat, f': Flat) {
    forall sem, db, j | KeepsKeys(m, db) && j in JoinedRows(sem, db, f.tree, f.conds) ::
      exists j' :: j' in JoinedRows(sem, db, f'.tree, f'.conds) && Keeping(f.tree.root, j, j')
  }

  /** The new query reads the same root, joins what it adds LEFT, and asks of each row no more than the old groups did. */
  ghost predicate Gentle(out: seq<seq<RowFilter>>, out': seq<seq<RowFilter>>, f: Flat, f': Flat) {
    Covered(out, out') && f'.tree.root == f.tree.root && AddsLeft(f.tree, f'.tree)
  }

  lemma GentleKeeps(m: Model, ctx: Context, extra: set<Dataset>, out': seq<seq<RowFilter>>, f: Flat, f': Flat)
    requires [] !in ctx.groups && [] !in out'
    requires PlansFlat(m, ctx, Needs(ctx, extra), f) && PlansFlat(m, Under(ctx, out'), Needs(Under(ctx, out'), extra), f')
    requires Gentle(ctx.groups, out', f, f')
    ensures KeepsRows(m, f, f')
  {
    forall sem, db, j | KeepsKeys(m, db) && j in JoinedRows(sem, db, f.tree, f.conds)
      ensures exists j' :: j' in JoinedRows(sem, db, f'.tree, f'.conds) && Keeping(f.tree.root, j, j')
    {
      var j' := RowFollowed(db, m.rels, Needs(ctx, extra), Needs(Under(ctx, out'), extra), f.tree, f'.tree, j);
      FromShape(db, f.tree);
      FromShape(db, f'.tree);
      AdmitsFollowed(sem, ctx.filters, ctx.groups, out', j, j');
      assert j' in JoinedRows(sem, db, f'.tree, f'.conds);
    }
  }

  // ------------------------------------------------------ one row in every table

  ghost function LongestIn(cols: set<string>): (n: nat)
    ensures forall c :: c in cols ==> |c| <= n
  {
    if cols == {} then 0
    else
      var c :| c in cols;
      var n := LongestIn(cols - {c});
      if |c| > n then |c| else n
  }

  /** A column name that none of the given ones is. */
  ghost function Fresh(cols: set<string>): (c: string)
    ensures c !in cols
  {
    var n := LongestIn(cols);
    seq(n + 1, i => 'x')
  }

  /** Every column is zero, and one tells the dataset. */
  function MarkRow(cols: set<string>, mark: string, ds: Dataset): Row {
    map c | c in cols + {mark} :: if c == mark then Text(ds) else Num(0)
  }

  function OneRowDb(cols: set<string>, mark: string, all: set<Dataset>): Database {
    map ds | ds in all :: [MarkRow(cols, mark, ds)]
  }

  function MarkJoined(cols: set<string>, mark: string, bound: set<Dataset>): Joined {
    map ds | ds in bound :: Some(MarkRow(cols, mark, ds))
  }

  lemma MarkOn(cols: set<string>, mark: string, e: Relationship, bound: set<Dataset>)
    requires PairedAt(e) && ColumnsIn(cols, e) && e.from in bound && mark !in cols
    ensures On(e, MarkJoined(cols, mark, bound), MarkRow(cols, mark, e.to))
  {
    MarkTuple(cols, mark, e.from, e.fromColumns);
    MarkTuple(cols, mark, e.to, e.toColumns);
    assert Bound(MarkJoined(cols, mark, bound), e.from) == MarkRow(cols, mark, e.from);
  }

  lemma MarkTuple(cols: set<string>, mark: string, ds: Dataset, names: seq<string>)
    requires mark !in cols && forall c :: c in names ==> c in cols
    ensures Tuple(MarkRow(cols, mark, ds), names) == seq(|names|, i => Num(0))
  {
  }

  lemma MarkExtend(db: Database, cols: set<string>, mark: string, e: Relationship, bound: set<Dataset>)
    requires PairedAt(e) && ColumnsIn(cols, e) && e.from in bound && e.to !in bound && mark !in cols
    requires Table(db, e.to) == [MarkRow(cols, mark, e.to)]
    ensures Extend(db, e, MarkJoined(cols, mark, bound)) == [MarkJoined(cols, mark, bound + {e.to})]
  {
    var j, r := MarkJoined(cols, mark, bound), MarkRow(cols, mark, e.to);
    MarkOn(cols, mark, e, bound);
    assert [] + [r] == [r];
    FilterLast((r: Row) => On(e, j, r), [], r);
    assert j[e.to := Some(r)] == MarkJoined(cols, mark, bound + {e.to});
  }

  lemma {:induction false} MarkJoins(db: Database, cols: set<string>, mark: string, joins: seq<Relationship>, bound: set<Dataset>)
    requires OrderedFrom(bound, joins) && Paired(joins) && HasColumns(cols, joins) && mark !in cols
    requires forall k :: 0 <= k < |joins| ==> Table(db, joins[k].to) == [MarkRow(cols, mark, joins[k].to)]
    ensures EvalJoins(db, joins, [MarkJoined(cols, mark, bound)]) == [MarkJoined(cols, mark, bound + Aliases(joins))]
    decreases |joins|
  {
    if joins == [] {
      assert bound + Aliases(joins) == bound;
    } else {
      assert PairedAt(joins[0]) && ColumnsIn(cols, joins[0]);
      MarkExtend(db, cols, mark, joins[0], bound);
      FlatMapOne((j: Joined) => Extend(db, joins[0], j), MarkJoined(cols, mark, bound));
      assert forall k :: 0 <= k < |joins[1..]| ==> joins[1..][k] == joins[k + 1];
      MarkJoins(db, cols, mark, joins[1..], bound + {joins[0].to});
      AliasesStep(joins);
      assert bound + {joins[0].to} + Aliases(joins[1..]) == bound + Aliases(joins);
    }
  }

  /** Where every dataset of the tree has its one row, there is one joined row. */
  lemma MarkFrom(cols: set<string>, mark: string, all: set<Dataset>, t: Tree)
    requires Ordered(t.root, t.joins) && Paired(t.joins) && HasColumns(cols, t.joins) && mark !in cols && InTree(t) <= all
    ensures EvalFrom(OneRowDb(cols, mark, all), t) == [MarkJoined(cols, mark, InTree(t))]
  {
    var db := OneRowDb(cols, mark, all);
    OrderedWhole(t);
    MarkJoins(db, cols, mark, t.joins, {t.root});
    MarkStart(cols, mark, all, t.root);
    assert InTree(t) == {t.root} + Aliases(t.joins);
  }

  lemma MarkStart(cols: set<string>, mark: string, all: set<Dataset>, root: Dataset)
    requires root in all
    ensures Map(r => Start(root, r), Table(OneRowDb(cols, mark, all), root)) == [MarkJoined(cols, mark, {root})]
  {
    assert Start(root, MarkRow(cols, mark, root)) == MarkJoined(cols, mark, {root});
  }

  /** The columns of all relationships and keys of a model. */
  ghost function ModelColumns(m: Model): (cols: set<string>)
    ensures HasColumns(cols, m.rels) && forall ds, c :: c in PrimaryKeyOf(m, ds) ==> c in cols
  {
    var cols := ColumnsFor(m.rels, []) + set ds, c | ds in m.primaryKey && c in m.primaryKey[ds] :: c;
    assert HasColumns(cols, m.rels) by {
      forall k | 0 <= k < |m.rels| ensures ColumnsIn(cols, m.rels[k]) {
        assert ColumnsIn(ColumnsFor(m.rels, []), m.rels[k]);
      }
    }
    cols
  }

  /** The one-row database keeps every key, whichever tables are empty. */
  lemma OneRowKeeps(m: Model, mark: string, all: set<Dataset>)
    requires mark !in ModelColumns(m)
    ensures KeepsKeys(m, OneRowDb(ModelColumns(m), mark, all))
  {
    var cols := ModelColumns(m);
    var db := OneRowDb(cols, mark, all);
    assert forall ds :: |Table(db, ds)| <= 1;
    forall ds | PrimaryKeyOf(m, ds) != [] ensures PrimaryKey(Table(db, ds), PrimaryKeyOf(m, ds)) {
      forall r | r in Table(db, ds) ensures Null !in Tuple(r, PrimaryKeyOf(m, ds)) {
        MarkTuple(cols, mark, ds, PrimaryKeyOf(m, ds));
      }
    }
  }

  // ------------------------------------------------------ rows that are lost

  /** A planned query over a model whose relationships pair columns. */
  ghost predicate Query(m: Model, ctx: Context, extra: set<Dataset>, f: Flat) {
    [] !in ctx.groups && Paired(m.rels) && FlatPlannable(m, ctx, Needs(ctx, extra)) && PlansFlat(m, ctx, Needs(ctx, extra), f)
  }

  /** The query's one row on a one-row database, for an engine that admits it. */
  lemma OnlyRow(m: Model, ctx: Context, extra: set<Dataset>, f: Flat, sem: Sem, mark: string, all: set<Dataset>)
    requires Query(m, ctx, extra, f) && mark !in ModelColumns(m) && InTree(f.tree) <= all
    ensures var j, db := MarkJoined(ModelColumns(m), mark, InTree(f.tree)), OneRowDb(ModelColumns(m), mark, all);
            && (forall z :: z in JoinedRows(sem, db, f.tree, f.conds) ==> z == j)
            && (j in JoinedRows(sem, db, f.tree, f.conds) <==> Admits(sem, ctx.filters, ctx.groups, j))
  {
    JoinsPaired(m.rels, f.tree.joins);
    JoinsColumned(m.rels, f.tree.joins, ModelColumns(m));
    MarkFrom(ModelColumns(m), mark, all, f.tree);
  }

  lemma JoinsColumned(rels: seq<Relationship>, joins: seq<Relationship>, cols: set<string>)
    requires HasColumns(cols, rels) && forall k :: 0 <= k < |joins| ==> joins[k] in rels
    ensures HasColumns(cols, joins)
  {
    forall k | 0 <= k < |joins| ensures ColumnsIn(cols, joins[k]) {
      var i :| 0 <= i < |rels| && rels[i] == joins[k];
    }
  }

  /** An engine for which, on marked rows, exactly the filters of `g` hold. */
  function MarkSem(g: seq<RowFilter>, cols: set<string>, mark: string): Sem {
    Sem((r, row) => Null, (s, xs) => Null, (f, b) => Null,
        (pred, row) => exists f | f in g :: f.pred == pred && row == MarkRow(cols, mark, f.dataset),
        (op, v, vs) => true, (grain, v) => v)
  }

  lemma MarkPasses(g: seq<RowFilter>, g': seq<RowFilter>, cols: set<string>, mark: string, bound: set<Dataset>)
    requires forall f :: f in g' ==> f.dataset in bound
    ensures PassesGroup(MarkSem(g, cols, mark), g', MarkJoined(cols, mark, bound)) <==> AsksNoMore(g, g')
  {
    forall f | f in g' ensures MarkSem(g, cols, mark).rowTest(f.pred, Bound(MarkJoined(cols, mark, bound), f.dataset)) <==> f in g {
      if e :| e in g && e.pred == f.pred && MarkRow(cols, mark, f.dataset) == MarkRow(cols, mark, e.dataset) {
        assert MarkRow(cols, mark, f.dataset)[mark] == Text(f.dataset);
        assert e == f;
      }
    }
  }

  lemma GroupsWithin(groups: seq<seq<RowFilter>>, g: seq<RowFilter>, bound: set<Dataset>)
    requires g in groups && FilterDatasets(groups) <= bound
    ensures forall f :: f in g ==> f.dataset in bound
  {
    forall f | f in g ensures f.dataset in bound {
      InFilterDatasets(groups, g, f);
    }
  }

  /** A group that no new one replaces: its row is lost on a database where everything is joined. */
  lemma UncoveredLoses(m: Model, ctx: Context, extra: set<Dataset>, out': seq<seq<RowFilter>>, f: Flat, f': Flat)
    requires Query(m, ctx, extra, f) && Query(m, Under(ctx, out'), extra, f') && !Covered(ctx.groups, out')
    ensures !KeepsRows(m, f, f')
  {
    var g := if ctx.groups == [] then [] else UncoveredGroup(ctx.groups, out');
    var cols, mark, all := ModelColumns(m), Fresh(ModelColumns(m)), InTree(f.tree) + InTree(f'.tree);
    var sem, db := MarkSem(g, cols, mark), OneRowDb(cols, mark, all);
    var j := MarkJoined(cols, mark, InTree(f.tree));
    OneRowKeeps(m, mark, all);
    OldAdmits(m, ctx, extra, f, g, mark, all);
    NewRefuses(ctx.groups, out', g, cols, mark, InTree(f'.tree), ctx.filters);
    OnlyRow(m, Under(ctx, out'), extra, f', sem, mark, all);
    assert j in JoinedRows(sem, db, f.tree, f.conds);
    assert forall j' :: j' !in JoinedRows(sem, db, f'.tree, f'.conds);
  }

  lemma OldAdmits(m: Model, ctx: Context, extra: set<Dataset>, f: Flat, g: seq<RowFilter>, mark: string, all: set<Dataset>)
    requires Query(m, ctx, extra, f) && mark !in ModelColumns(m) && InTree(f.tree) <= all
    requires if ctx.groups == [] then g == [] else g in ctx.groups
    ensures MarkJoined(ModelColumns(m), mark, InTree(f.tree))
         in JoinedRows(MarkSem(g, ModelColumns(m), mark), OneRowDb(ModelColumns(m), mark, all), f.tree, f.conds)
  {
    var cols := ModelColumns(m);
    OnlyRow(m, ctx, extra, f, MarkSem(g, cols, mark), mark, all);
    if ctx.groups != [] {
      GroupsWithin(ctx.groups, g, InTree(f.tree));
      MarkPasses(g, g, cols, mark, InTree(f.tree));
    }
  }

  lemma NewRefuses(out: seq<seq<RowFilter>>, out': seq<seq<RowFilter>>, g: seq<RowFilter>, cols: set<string>, mark: string, bound: set<Dataset>,
                   filters: seq<UserFilter>)
    requires !Covered(out, out') && [] !in out' && FilterDatasets(out') <= bound
    requires if out == [] then g == [] else g in out && forall g' | g' in out' :: !AsksNoMore(g, g')
    ensures !Admits(MarkSem(g, cols, mark), filters, out', MarkJoined(cols, mark, bound))
  {
    forall g' | g' in out' ensures !PassesGroup(MarkSem(g, cols, mark), g', MarkJoined(cols, mark, bound)) {
      GroupsWithin(out', g', bound);
      MarkPasses(g, g', cols, mark, bound);
      if out == [] {
        assert g'[0] in g';
      }
    }
  }

  /** On a one-row database, for an engine that admits everything, the old query has its row. */
  lemma RowStands(m: Model, ctx: Context, extra: set<Dataset>, f: Flat, all: set<Dataset>) returns (sem: Sem, db: Database, j: Joined)
    requires Query(m, ctx, extra, f) && InTree(f.tree) <= all
    ensures KeepsKeys(m, db) && j in JoinedRows(sem, db, f.tree, f.conds) && (forall ds :: ds !in all ==> Table(db, ds) == [])
  {
    var mark := Fresh(ModelColumns(m));
    var agg := (f: string, b: multiset<Value>) => Null;
    sem, db, j := TagSem(agg, None, 0, []), OneRowDb(ModelColumns(m), mark, all), MarkJoined(ModelColumns(m), mark, InTree(f.tree));
    OneRowKeeps(m, mark, all);
    OnlyRow(m, ctx, extra, f, sem, mark, all);
    TagAdmits(agg, None, 0, [], ctx, j);
  }

  /** An empty root table leaves no row. */
  lemma NoRootNoRows(sem: Sem, db: Database, f: Flat)
    requires Table(db, f.tree.root) == []
    ensures JoinedRows(sem, db, f.tree, f.conds) == []
  {
    EvalJoinsNone(db, f.tree.joins);
  }

  lemma ExtendNone(db: Database, e: Relationship, j: Joined)
    requires e.joinType.Inner? && Table(db, e.to) == []
    ensures Extend(db, e, j) == []
  {
  }

  lemma {:induction false} JoinNone(db: Database, e: Relationship, rows: seq<Joined>)
    requires e.joinType.Inner? && Table(db, e.to) == []
    ensures FlatMap((j: Joined) => Extend(db, e, j), rows) == []
  {
    if rows != [] {
      JoinNone(db, e, rows[..|rows| - 1]);
      ExtendNone(db, e, rows[|rows| - 1]);
    }
  }

  /** An INNER join with an empty table leaves no row. */
  lemma {:induction false} InnerEmpties(db: Database, joins: seq<Relationship>, rows: seq<Joined>, e: Relationship)
    requires e in joins && e.joinType.Inner? && Table(db, e.to) == []
    ensures EvalJoins(db, joins, rows) == []
    decreases |joins|
  {
    var next := FlatMap((j: Joined) => Extend(db, joins[0], j), rows);
    if joins[0] == e {
      JoinNone(db, e, rows);
      EvalJoinsNone(db, joins[1..]);
    } else {
      assert e in joins[1..];
      InnerEmpties(db, joins[1..], next, e);
    }
  }

  /** A root that moved: the old root's row is not joined any more, or the new root may have no row. */
  lemma MovedRootLoses(m: Model, ctx: Context, extra: set<Dataset>, out': seq<seq<RowFilter>>, f: Flat, f': Flat)
    requires Query(m, ctx, extra, f) && Query(m, Under(ctx, out'), extra, f') && Acyclic(m.rels) && f'.tree.root != f.tree.root
    ensures !KeepsRows(m, f, f')
  {
    var sem, db, j := RowStands(m, ctx, extra, f, InTree(f.tree));
    if f.tree.root in InTree(f'.tree) {
      NotBoth(m, f, f');
      NoRootNoRows(sem, db, f');
    } else {
      FromShape(db, f'.tree);
      forall j' | j' in JoinedRows(sem, db, f'.tree, f'.conds) ensures !Keeping(f.tree.root, j, j') {
        assert j' in EvalFrom(db, f'.tree);
      }
    }
  }

  /** Of two roots in an acyclic graph, at most one joins the other. */
  lemma NotBoth(m: Model, f: Flat, f': Flat)
    requires Acyclic(m.rels) && f'.tree.root != f.tree.root && f.tree.root in InTree(f'.tree)
    requires Ordered(f.tree.root, f.tree.joins) && Ordered(f'.tree.root, f'.tree.joins)
    requires forall k :: 0 <= k < |f.tree.joins| ==> f.tree.joins[k] in m.rels
    requires forall k :: 0 <= k < |f'.tree.joins| ==> f'.tree.joins[k] in m.rels
    ensures f'.tree.root !in InTree(f.tree)
  {
    BoundIsReachable(m.rels, f'.tree, |f'.tree.joins|, f.tree.root);
    if f'.tree.root in InTree(f.tree) {
      BoundIsReachable(m.rels, f.tree, |f.tree.joins|, f'.tree.root);
      MutualReachIsCycle(m.rels, f.tree.root, f'.tree.root);
    }
  }

  /** An INNER join the new tree adds: its table may be empty. */
  lemma AddedInnerLoses(m: Model, ctx: Context, extra: set<Dataset>, out': seq<seq<RowFilter>>, f: Flat, f': Flat, e: Relationship)
    requires Query(m, ctx, extra, f) && Query(m, Under(ctx, out'), extra, f') && f'.tree.root == f.tree.root
    requires e in f'.tree.joins && e !in f.tree.joins && e.joinType.Inner?
    ensures !KeepsRows(m, f, f')
  {
    PlannedKeeps(m.rels, Needs(ctx, extra), f.tree);
    PlannedKeeps(m.rels, Needs(Under(ctx, out'), extra), f'.tree);
    assert e.to !in InTree(f.tree);
    var sem, db, j := RowStands(m, ctx, extra, f, InTree(f.tree));
    InnerEmpties(db, f'.tree.joins, Map(r => Start(f'.tree.root, r), Table(db, f'.tree.root)), e);
    assert JoinedRows(sem, db, f'.tree, f'.conds) == [];
  }

  /**
   Under new filter groups a planned query keeps every row of the old one, on every sound database and for every engine,
   exactly when each old group has a new one that asks for no more, the root has not moved, and every join the new groups
   add is LEFT. Equal requirements are the simple case: then the trees are one, and only the groups count.
   */
  lemma KeepsRowsIff(m: Model, ctx: Context, extra: set<Dataset>, out': seq<seq<RowFilter>>, f: Flat, f': Flat)
    requires Query(m, ctx, extra, f) && Query(m, Under(ctx, out'), extra, f') && Acyclic(m.rels)
    ensures KeepsRows(m, f, f') <==> Gentle(ctx.groups, out', f, f')
    ensures Needs(ctx, extra) == Needs(Under(ctx, out'), extra) ==> f.tree == f'.tree
  {
    if Gentle(ctx.groups, out', f, f') {
      GentleKeeps(m, ctx, extra, out', f, f');
    } else if !Covered(ctx.groups, out') {
      UncoveredLoses(m, ctx, extra, out', f, f');
    } else if f'.tree.root != f.tree.root {
      MovedRootLoses(m, ctx, extra, out', f, f');
    } else {
      var e :| e in f'.tree.joins && e !in f.tree.joins && !e.joinType.Left?;
      AddedInnerLoses(m, ctx, extra, out', f, f', e);
    }
    if Needs(ctx, extra) == Needs(Under(ctx, out'), extra) {
      FirstCoverUnique(m, Needs(ctx, extra), f.tree.root, f'.tree.root);
    }
  }

  // ------------------------------------------------------ requests that are not answered any more

  lemma {:induction false} FirstExists(rels: seq<Relationship>, c: seq<Dataset>, required: set<Dataset>) returns (root: Dataset)
    requires exists ds :: ds in c && Covers(rels, ds, required)
    ensures FirstCover(rels, c, required, root)
    decreases |c|
  {
    var l := |c| - 1;
    assert c == c[..l] + [c[l]];
    if exists ds :: ds in c[..l] && Covers(rels, ds, required) {
      root := FirstExists(rels, c[..l], required);
      var k :| 0 <= k < l && c[..l][k] == root && Covers(rels, root, required) && forall j :: 0 <= j < k ==> !Covers(rels, c[..l][j], required);
      assert c[k] == root && forall j :: 0 <= j < k ==> c[j] == c[..l][j];
    } else {
      root := c[l];
      forall j | 0 <= j < l ensures !Covers(rels, c[j], required) {
        assert c[..l][j] == c[j] && c[j] in c[..l];
      }
      assert c[l] == root;
    }
  }

  /** Whatever can be planned has a plan. */
  lemma PlanExists(m: Model, ctx: Context, extra: set<Dataset>) returns (f: Flat)
    requires FlatPlannable(m, ctx, Needs(ctx, extra)) && [] !in ctx.groups && Paired(m.rels)
    ensures Query(m, ctx, extra, f)
  {
    var required := Needs(ctx, extra);
    var root := FirstExists(m.rels, Candidates(m.order, required), required);
    var t := PlannedFrom(m.rels, required, root);
    WhereMeaning(ctx.filters, ctx.groups);
    f := Flat(t, Terms.Clauses(ctx.filters, ctx.groups), [], []);
  }

  /**
   New filter groups leave a request answered, with all its rows, exactly when what they require still connects and the
   query that is then planned is gentle.
   */
  lemma AnsweredInFullIff(m: Model, ctx: Context, extra: set<Dataset>, out': seq<seq<RowFilter>>, f: Flat)
    requires Query(m, ctx, extra, f) && [] !in out' && Acyclic(m.rels)
    ensures var ctx', required := Under(ctx, out'), Needs(Under(ctx, out'), extra);
            && (FlatPlannable(m, ctx', required) <==> required != {} && Connectable(m.rels, m.order, required))
            && ((exists f' :: Query(m, ctx', extra, f') && KeepsRows(m, f, f'))
                <==> FlatPlannable(m, ctx', required) && forall f' :: Query(m, ctx', extra, f') ==> Gentle(ctx.groups, out', f, f'))
  {
    var ctx' := Under(ctx, out');
    forall f' | Query(m, ctx', extra, f') ensures KeepsRows(m, f, f') <==> Gentle(ctx.groups, out', f, f') {
      KeepsRowsIff(m, ctx, extra, out', f, f');
    }
    if FlatPlannable(m, ctx', Needs(ctx', extra)) {
      var f' := PlanExists(m, ctx', extra);
      forall g | Query(m, ctx', extra, g) ensures g.tree == f'.tree {
        FirstCoverUnique(m, Needs(ctx', extra), g.tree.root, f'.tree.root);
      }
    }
  }

  // ------------------------------------------------------ more roles

  /** Roles that stay effective keep their filter groups. */
  lemma RolesCover(globs: Globs, spec: Spec, names: set<string>, more: set<string>, metrics: seq<string>, refs: seq<FieldRef>,
                   v: Verdict<Decision>, w: Verdict<Decision>, expand: string -> Option<string>, datasets: set<Dataset>,
                   out: seq<seq<RowFilter>>, out': seq<seq<RowFilter>>)
    requires Effective(spec, names) <= Effective(spec, more) && AllCompile(globs, spec, more)
    requires Decides(globs, spec, names, metrics, refs, v) && Decides(globs, spec, more, metrics, refs, w) && v.Granted?
    ensures w.Granted?
    ensures Expands(v.value.groups, expand, datasets, out) && Expands(w.value.groups, expand, datasets, out') ==> Covered(out, out')
  {
    MoreRolesGrantMore(globs, spec, names, more, metrics, refs);
    assert Granting(globs, spec, names, metrics, refs) != {};
    if Expands(v.value.groups, expand, datasets, out) && Expands(w.value.groups, expand, datasets, out') && out' != [] {
      assert forall n :: n in v.value.roles ==> n in w.value.roles;
      GroupsCover(spec, v.value, w.value, expand, datasets, out, out');
    }
  }

  lemma GroupsCover(spec: Spec, d: Decision, d': Decision, expand: string -> Option<string>, datasets: set<Dataset>,
                    out: seq<seq<RowFilter>>, out': seq<seq<RowFilter>>)
    requires (forall n | n in d.roles :: Grants(spec, n)) && (forall n | n in d'.roles :: Grants(spec, n))
    requires GroupsOf(spec, d.roles, d.groups) && GroupsOf(spec, d'.roles, d'.groups) && d.roles != []
    requires (forall n :: n in d.roles ==> n in d'.roles) && out' != []
    requires Expands(d.groups, expand, datasets, out) && Expands(d'.groups, expand, datasets, out')
    ensures Covered(out, out')
  {
    assert d.roles[0] in d.roles && PolicyOf(spec, d.roles[0]).rowFilters != [];
    forall g | g in out ensures exists g' | g' in out' :: AsksNoMore(g, g') {
      var i :| 0 <= i < |out| && out[i] == g;
      assert d.roles[i] in d.roles;
      var l :| 0 <= l < |d'.roles| && d'.roles[l] == d.roles[i];
      assert Some(out'[l]) == RowAccess.Expand(PolicyOf(spec, d.roles[i]).rowFilters, expand, datasets) == Some(out[i]);
      assert out'[l] in out' && AsksNoMore(g, out'[l]);
    }
  }

  /**
   Naming more roles, all of the old ones staying effective: the request is granted, and the query planned for it keeps
   every row exactly when the filters of the new roles leave the root in place and join what they add LEFT.
   */
  lemma MoreRolesKeepRowsIff(globs: Globs, spec: Spec, names: set<string>, more: set<string>, metrics: seq<string>, refs: seq<FieldRef>,
                             v: Verdict<Decision>, w: Verdict<Decision>, expand: string -> Option<string>, datasets: set<Dataset>,
                             m: Model, ctx: Context, extra: set<Dataset>, out': seq<seq<RowFilter>>, f: Flat, f': Flat)
    requires Effective(spec, names) <= Effective(spec, more) && AllCompile(globs, spec, more)
    requires Decides(globs, spec, names, metrics, refs, v) && Decides(globs, spec, more, metrics, refs, w) && v.Granted? && w.Granted?
    requires Expands(v.value.groups, expand, datasets, ctx.groups) && Expands(w.value.groups, expand, datasets, out')
    requires Query(m, ctx, extra, f) && Query(m, Under(ctx, out'), extra, f') && Acyclic(m.rels)
    ensures KeepsRows(m, f, f') <==> f'.tree.root == f.tree.root && AddsLeft(f.tree, f'.tree)
  {
    RolesCover(globs, spec, names, more, metrics, refs, v, w, expand, datasets, ctx.groups, out');
    KeepsRowsIff(m, ctx, extra, out', f, f');
  }

  // ------------------------------------------------------ where rows and answers are lost

  /** The staff's filter is on sales; the auditors' is on returns. */
  function StaffFilter(): seq<RowFilter> { [RowFilter("sales", "open")] }

  function AuditFilter(): seq<RowFilter> { [RowFilter("returns", "late")] }

  function AsStaff(): Context { Under(Plainly(), [StaffFilter()]) }

  function AsBoth(): Context { Under(Plainly(), [StaffFilter(), AuditFilter()]) }

  /** One sale, and no return. */
  function OneSaleDb(): Database {
    map["sales" := [Sale(1, 1)], "returns" := []]
  }

  lemma FiltersOn(ctx: Context)
    requires ctx == AsStaff() || ctx == AsBoth()
    ensures Needs(ctx, {"sales"}) == if ctx == AsStaff() then {"sales"} else {"sales", "returns"}
    ensures [] !in ctx.groups
  {
    assert ctx.groups[0][0].dataset == "sales" && ctx.groups[0] == StaffFilter();
    if ctx == AsBoth() {
      assert |ctx.groups| == 2 && ctx.groups[1] == AuditFilter() && ctx.groups[1][0].dataset == "returns";
    } else {
      assert |ctx.groups| == 1;
    }
  }

  lemma SalesRootOf(f: Flat)
    requires Query(MovingModel(), AsStaff(), {"sales"}, f)
    ensures f.tree == Tree("sales", [])
  {
    FiltersOn(AsStaff());
    MovingRoots();
    FirstCoverUnique(MovingModel(), {"sales"}, f.tree.root, "sales");
    SalesAlone(f.tree.joins);
  }

  lemma SalesAlone(joins: seq<Relationship>)
    requires Ordered("sales", joins) && forall k :: 0 <= k < |joins| ==> joins[k] in MovingModel().rels
    ensures joins == []
  {
    assert |"sales"| != |"returns"|;
    if joins != [] {
      FirstFromRoot("sales", joins);
    }
  }

  lemma FirstFromRoot(root: Dataset, joins: seq<Relationship>)
    requires Ordered(root, joins) && joins != []
    ensures joins[0].from == root
  {
    assert BoundBy(root, joins, 0, joins[0].from);
  }

  lemma ReturnsRootOf(f: Flat)
    requires Query(MovingModel(), AsBoth(), {"sales"}, f)
    ensures f.tree.root == "returns"
  {
    FiltersOn(AsBoth());
    MovingRoots();
    FirstCoverUnique(MovingModel(), {"sales", "returns"}, f.tree.root, "returns");
  }

  /** Both requests are answered. */
  lemma BothPlanned() returns (f: Flat, f': Flat)
    ensures Query(MovingModel(), AsStaff(), {"sales"}, f) && Query(MovingModel(), AsBoth(), {"sales"}, f')
  {
    FiltersOn(AsStaff());
    FiltersOn(AsBoth());
    MovingRoots();
    MovingPaired();
    RootConnects({"sales", "returns"}, "returns");
    f := PlanExists(MovingModel(), AsStaff(), {"sales"});
    f' := PlanExists(MovingModel(), AsBoth(), {"sales"});
  }

  lemma MovingPaired()
    ensures Paired(MovingModel().rels)
  {
  }

  lemma RootConnects(required: set<Dataset>, root: Dataset)
    requires IsRoot(MovingModel(), required, root)
    ensures Connectable(MovingModel().rels, MovingModel().order, required)
  {
  }

  lemma StaffCovered()
    ensures Covered(AsStaff().groups, AsBoth().groups)
  {
    var out, out' := AsStaff().groups, AsBoth().groups;
    assert out'[0] in out' && AsksNoMore(out[0], out'[0]) && out == [out[0]];
  }

  /**
   Staff who become auditors too lose a sale that nobody returned: their own filter admits it, but the auditors' filter
   joins the returns, INNER, and makes them the root.
   */
  lemma AuditorsLoseSale(f: Flat, f': Flat)
    requires Query(MovingModel(), AsStaff(), {"sales"}, f) && Query(MovingModel(), AsBoth(), {"sales"}, f')
    ensures Covered(AsStaff().groups, AsBoth().groups) && KeepsKeys(MovingModel(), OneSaleDb())
    ensures var sem := TagSem((g, b) => Null, None, 0, []);
            |JoinedRows(sem, OneSaleDb(), f.tree, f.conds)| == 1 && JoinedRows(sem, OneSaleDb(), f'.tree, f'.conds) == []
  {
    var db := OneSaleDb();
    SalesRootOf(f);
    ReturnsRootOf(f');
    NoRootNoRows(TagSem((g, b) => Null, None, 0, []), db, f');
    OneSaleStands(f);
    OneSaleKeyed();
    StaffCovered();
  }

  lemma OneSaleKeyed()
    ensures KeepsKeys(MovingModel(), OneSaleDb())
  {
    var m, db := MovingModel(), OneSaleDb();
    assert forall ds :: |Table(db, ds)| <= 1;
    forall ds | PrimaryKeyOf(m, ds) != [] ensures PrimaryKey(Table(db, ds), PrimaryKeyOf(m, ds)) {
      forall r | r in Table(db, ds) ensures Null !in Tuple(r, PrimaryKeyOf(m, ds)) {
        assert r == Sale(1, 1) && Tuple(r, ["id"]) == [Num(1)];
      }
    }
  }

  lemma OneSaleStands(f: Flat)
    requires Query(MovingModel(), AsStaff(), {"sales"}, f) && f.tree == Tree("sales", [])
    ensures |JoinedRows(TagSem((g, b) => Null, None, 0, []), OneSaleDb(), f.tree, f.conds)| == 1
  {
    var sem, r := TagSem((g, b) => Null, None, 0, []), Sale(1, 1);
    assert Table(OneSaleDb(), "sales") == [r] && Map(r => Start("sales", r), [r]) == [Start("sales", r)];
    assert EvalFrom(OneSaleDb(), f.tree) == [Start("sales", r)];
    TagAdmits((g, b) => Null, None, 0, [], AsStaff(), Start("sales", r));
    assert [] + [Start("sales", r)] == [Start("sales", r)];
    FilterLast((j: Joined) => Where(sem, f.conds, j), [], Start("sales", r));
  }

  /** Two datasets that nothing relates. */
  function ApartModel(): Model { Model(["sales", "stock"], [], map[]) }

  /** A filter on a dataset that does not connect makes a request fail that was answered. */
  lemma UnrelatedFilterFails()
    ensures FlatPlannable(ApartModel(), Plainly(), Needs(Plainly(), {"sales"}))
    ensures var ctx := Under(Plainly(), [[RowFilter("stock", "open")]]); !FlatPlannable(ApartModel(), ctx, Needs(ctx, {"sales"}))
  {
    var m, ctx := ApartModel(), Under(Plainly(), [[RowFilter("stock", "open")]]);
    ReachesSelf(m.rels, "sales");
    assert Needs(Plainly(), {"sales"}) == {"sales"} && m.order[0] == "sales" && Covers(m.rels, "sales", {"sales"});
    assert ctx.groups[0][0].dataset == "stock" && |ctx.groups| == 1;
    assert "stock" in Needs(ctx, {"sales"}) && "sales" in Needs(ctx, {"sales"}) && |"sales"| == |"stock"|;
    forall ds ensures !Covers(m.rels, ds, Needs(ctx, {"sales"})) {
      if Reaches(m.rels, ds, "sales") && Reaches(m.rels, ds, "stock") {
        NothingElse(ds, "sales");
        NothingElse(ds, "stock");
      }
    }
  }

  lemma NothingElse(a: Dataset, b: Dataset)
    requires Reaches([], a, b)
    ensures a == b
  {
    var p :| PathBetween([], p, a, b);
    ClosedHoldsPath([], {a}, p);
  }
}
