/** What a FROM clause denotes on a finite database. */
module Relational {
  // Left-deep joins over bags of rows, with SQL equality (never true on NULL) and null extension
  // for LEFT joins.

  import opened Options
  import opened JoinGraph
  import opened JoinTree
  import opened Seqs

  datatype Value = Null | Num(n: int) | Text(s: string)

  type Row = map<string, Value>
  type Database = map<Dataset, seq<Row>>

  /** One joined row: the row bound to each alias, or None where a LEFT join found no match. */
  type Joined = map<Dataset, Option<Row>>

  function Table(db: Database, ds: Dataset): seq<Row> {
    if ds in db then db[ds] else []
  }

  function Col(r: Row, c: string): Value {
    if c in r then r[c] else Null
  }

  function Tuple(r: Row, cols: seq<string>): seq<Value> {
    Map(c => Col(r, c), cols)
  }

  /** The row an alias contributes; a null-extended alias contributes only NULLs. */
  function Bound(j: Joined, ds: Dataset): Row {
    if ds in j && j[ds].Some? then j[ds].value else map[]
  }

  /** The ON condition: every column pair is equal and not NULL. */
  predicate On(rel: Relationship, j: Joined, r: Row) {
    Null !in Tuple(r, rel.toColumns) && Tuple(Bound(j, rel.from), rel.fromColumns) == Tuple(r, rel.toColumns)
  }

  function Extend(db: Database, rel: Relationship, j: Joined): seq<Joined> {
    var ms := Filter(r => On(rel, j, r), Table(db, rel.to));
    if ms == [] && rel.joinType.Left? then [j[rel.to := None]] else Map(r => j[rel.to := Some(r)], ms)
  }

  function EvalJoins(db: Database, joins: seq<Relationship>, rows: seq<Joined>): seq<Joined> {
    if joins == [] then rows
    else EvalJoins(db, joins[1..], FlatMap((j: Joined) => Extend(db, joins[0], j), rows))
  }

  function Start(root: Dataset, r: Row): Joined {
    map[root := Some(r)]
  }

  function EvalFrom(db: Database, t: Tree): seq<Joined> {
    EvalJoins(db, t.joins, Map(r => Start(t.root, r), Table(db, t.root)))
  }

  /** No two rows agree on the columns without a NULL among them. */
  ghost predicate KeyOf(table: seq<Row>, cols: seq<string>) {
    forall i, j :: 0 <= i < j < |table| && Tuple(table[i], cols) == Tuple(table[j], cols) ==> Null in Tuple(table[i], cols)
  }

  /** Every relationship's to-columns are a key of its one side. */
  ghost predicate ToKeyed(db: Database, joins: seq<Relationship>) {
    forall k :: 0 <= k < |joins| ==> KeyOf(Table(db, joins[k].to), joins[k].toColumns)
  }

  // ------------------------------------------------- one joined row per root row

  lemma {:induction false} FilterNone<A(!new)>(p: A -> bool, s: seq<A>)
    requires forall x :: x in s ==> !p(x)
    ensures Filter(p, s) == []
  {
    if s != [] {
      assert s[..|s| - 1] + [s[|s| - 1]] == s;
      FilterNone(p, s[..|s| - 1]);
    }
  }

  lemma {:induction false} FilterAtMostOne<A(!new)>(p: A -> bool, s: seq<A>)
    requires forall i, j :: 0 <= i < j < |s| ==> !(p(s[i]) && p(s[j]))
    ensures |Filter(p, s)| <= 1
  {
    if s != [] {
      var n := |s| - 1;
      FilterAtMostOne(p, s[..n]);
      if p(s[n]) {
        FilterNone(p, s[..n]);
      }
    }
  }

  /** A join to a key side never multiplies a row; a LEFT join never drops one. */
  lemma ExtendAtMostOne(db: Database, rel: Relationship, j: Joined)
    requires KeyOf(Table(db, rel.to), rel.toColumns)
    ensures |Extend(db, rel, j)| <= 1
    ensures rel.joinType.Left? ==> |Extend(db, rel, j)| == 1
    ensures forall j': Joined :: j' in Extend(db, rel, j) ==> forall ds :: ds != rel.to && ds in j ==> ds in j' && j'[ds] == j[ds]
  {
    FilterAtMostOne(r => On(rel, j, r), Table(db, rel.to));
  }

  /** Joins act on each row by itself. */
  lemma {:induction false} EvalJoinsConcat(db: Database, joins: seq<Relationship>, a: seq<Joined>, b: seq<Joined>)
    ensures EvalJoins(db, joins, a + b) == EvalJoins(db, joins, a) + EvalJoins(db, joins, b)
    decreases |joins|
  {
    if joins != [] {
      var f := (j: Joined) => Extend(db, joins[0], j);
      FlatMapConcat(f, a, b);
      EvalJoinsConcat(db, joins[1..], FlatMap(f, a), FlatMap(f, b));
    }
  }

  lemma {:induction false} EvalJoinsNone(db: Database, joins: seq<Relationship>)
    ensures EvalJoins(db, joins, []) == []
    decreases |joins|
  {
    if joins != [] {
      EvalJoinsNone(db, joins[1..]);
    }
  }

  lemma {:induction false} OneRowAtMost(db: Database, joins: seq<Relationship>, j: Joined)
    requires ToKeyed(db, joins)
    ensures |EvalJoins(db, joins, [j])| <= 1
    ensures (forall k :: 0 <= k < |joins| ==> joins[k].joinType.Left?) ==> |EvalJoins(db, joins, [j])| == 1
    decreases |joins|
  {
    if joins != [] {
      var f := (j: Joined) => Extend(db, joins[0], j);
      var next := f(j);
      FlatMapOne(f, j);
      ExtendAtMostOne(db, joins[0], j);
      assert ToKeyed(db, joins[1..]);
      if next == [] {
        EvalJoinsNone(db, joins[1..]);
      } else {
        assert next == [next[0]];
        OneRowAtMost(db, joins[1..], next[0]);
        if forall k :: 0 <= k < |joins| ==> joins[k].joinType.Left? {
          assert forall k :: 0 <= k < |joins[1..]| ==> joins[1..][k] == joins[k + 1];
        }
      }
    }
  }

  /** Joining keeps the aliases already bound, as long as no join rebinds them. */
  lemma {:induction false} JoinsKeepAlias(db: Database, joins: seq<Relationship>, rows: seq<Joined>, ds: Dataset, v: Option<Row>)
    requires forall k :: 0 <= k < |joins| ==> joins[k].to != ds
    requires forall j: Joined :: j in rows ==> ds in j && j[ds] == v
    ensures forall j: Joined :: j in EvalJoins(db, joins, rows) ==> ds in j && j[ds] == v
    decreases |joins|
  {
    if joins != [] {
      var f := (j: Joined) => Extend(db, joins[0], j);
      forall j: Joined | j in FlatMap(f, rows) ensures ds in j && j[ds] == v {
        var i :| 0 <= i < |rows| && j in f(rows[i]);
        assert rows[i] in rows;
      }
      JoinsKeepAlias(db, joins[1..], FlatMap(f, rows), ds, v);
    }
  }

  /** The joined rows of one root row. */
  function FromRow(db: Database, t: Tree, r: Row): seq<Joined> {
    EvalJoins(db, t.joins, [Start(t.root, r)])
  }

  /** A FROM clause is evaluated root row by root row. */
  lemma {:induction false} FromIsPerRow(db: Database, t: Tree, table: seq<Row>)
    ensures EvalJoins(db, t.joins, Map(r => Start(t.root, r), table)) == FlatMap(r => FromRow(db, t, r), table)
  {
    if table == [] {
      EvalJoinsNone(db, t.joins);
    } else {
      var n := |table| - 1;
      var start := r => Start(t.root, r);
      assert table == table[..n] + [table[n]];
      MapLast(start, table[..n], table[n]);
      EvalJoinsConcat(db, t.joins, Map(start, table[..n]), [start(table[n])]);
      FromIsPerRow(db, t, table[..n]);
    }
  }

  /** The row bound to `m` in some joined row that meets `p` is `r`. */
  ghost predicate Linked(db: Database, t: Tree, m: Dataset, p: Joined -> bool, r: Row) {
    exists j: Joined :: j in EvalFrom(db, t) && p(j) && m in j && j[m] == Some(r)
  }

  /** The rows of `m` linked to a joined row that meets `p`, each as often as the table holds it. */
  ghost function OnceRows(db: Database, t: Tree, m: Dataset, p: Joined -> bool): seq<Row> {
    Filter((r: Row) => Linked(db, t, m, p, r), Table(db, m))
  }

  lemma FromRowShape(db: Database, t: Tree, r: Row)
    requires Ordered(t.root, t.joins) && ToKeyed(db, t.joins)
    ensures |FromRow(db, t, r)| <= 1
    ensures forall j: Joined :: j in FromRow(db, t, r) ==> t.root in j && j[t.root] == Some(r)
  {
    OneRowAtMost(db, t.joins, Start(t.root, r));
    JoinsKeepAlias(db, t.joins, [Start(t.root, r)], t.root, Some(r));
  }

  /** A root row is linked exactly when its own joined row meets the condition. */
  lemma LinkedIsOwnRow(db: Database, t: Tree, p: Joined -> bool, r: Row)
    requires Ordered(t.root, t.joins) && ToKeyed(db, t.joins) && r in Table(db, t.root)
    ensures Linked(db, t, t.root, p, r) <==> exists j: Joined :: j in FromRow(db, t, r) && p(j)
  {
    var table := Table(db, t.root);
    FromIsPerRow(db, t, table);
    FromRowShape(db, t, r);
    if j: Joined :| j in FromRow(db, t, r) && p(j) {
      var i :| 0 <= i < |table| && table[i] == r;
      assert j in EvalFrom(db, t);
    }
    if Linked(db, t, t.root, p, r) {
      var j: Joined :| j in EvalFrom(db, t) && p(j) && t.root in j && j[t.root] == Some(r);
      var i :| 0 <= i < |table| && j in FromRow(db, t, table[i]);
      FromRowShape(db, t, table[i]);
    }
  }

  lemma FromRowLinks(db: Database, t: Tree, p: Joined -> bool, r: Row)
    requires Ordered(t.root, t.joins) && ToKeyed(db, t.joins) && r in Table(db, t.root)
    ensures Map((j: Joined) => Bound(j, t.root), Filter(p, FromRow(db, t, r)))
         == if Linked(db, t, t.root, p, r) then [r] else []
  {
    FromRowShape(db, t, r);
    LinkedIsOwnRow(db, t, p, r);
    var rows := FromRow(db, t, r);
    if Linked(db, t, t.root, p, r) {
      var j: Joined :| j in rows && p(j);
      assert rows == [j];
      FilterLast(p, [], j);
    } else {
      FilterNone(p, rows);
    }
  }

  lemma {:induction false} RootRowsOncePrefix(db: Database, t: Tree, p: Joined -> bool, n: nat)
    requires Ordered(t.root, t.joins) && ToKeyed(db, t.joins) && n <= |Table(db, t.root)|
    ensures Map((j: Joined) => Bound(j, t.root), Filter(p, FlatMap(r => FromRow(db, t, r), Table(db, t.root)[..n])))
         == Filter((r: Row) => Linked(db, t, t.root, p, r), Table(db, t.root)[..n])
  {
    if n > 0 {
      var f := r => FromRow(db, t, r);
      var g := (j: Joined) => Bound(j, t.root);
      var table := Table(db, t.root);
      var r := table[n - 1];
      assert table[..n] == table[..n - 1] + [r];
      RootRowsOncePrefix(db, t, p, n - 1);
      FlatMapLast(f, table[..n - 1], r);
      FilterConcat(p, FlatMap(f, table[..n - 1]), f(r));
      MapConcat(g, Filter(p, FlatMap(f, table[..n - 1])), Filter(p, f(r)));
      FromRowLinks(db, t, p, r);
      FilterLast((r: Row) => Linked(db, t, t.root, p, r), table[..n - 1], r);
    }
  }

  /**
   Over a tree of key-side joins, the joined rows that meet any condition are in
   order the root's linked rows, each exactly as often as the root table holds it.
   */
  lemma RootRowsOnce(db: Database, t: Tree, p: Joined -> bool)
    requires Ordered(t.root, t.joins) && ToKeyed(db, t.joins)
    ensures Map((j: Joined) => Bound(j, t.root), Filter(p, EvalFrom(db, t))) == OnceRows(db, t, t.root, p)
    ensures |EvalFrom(db, t)| <= |Table(db, t.root)|
    ensures (forall k :: 0 <= k < |t.joins| ==> t.joins[k].joinType.Left?) ==> |EvalFrom(db, t)| == |Table(db, t.root)|
  {
    var table := Table(db, t.root);
    assert table[..|table|] == table;
    FromIsPerRow(db, t, table);
    RootRowsOncePrefix(db, t, p, |table|);
    CountRows(db, t, |table|);
  }

  lemma FlatMapCount<A(!new), B(!new)>(f: A -> seq<B>, s: seq<A>, x: A)
    ensures |FlatMap(f, s + [x])| == |FlatMap(f, s)| + |f(x)|
  {
    FlatMapLast(f, s, x);
  }

  lemma {:induction false} CountRows(db: Database, t: Tree, n: nat)
    requires ToKeyed(db, t.joins) && n <= |Table(db, t.root)|
    ensures |FlatMap(r => FromRow(db, t, r), Table(db, t.root)[..n])| <= n
    ensures (forall k :: 0 <= k < |t.joins| ==> t.joins[k].joinType.Left?) ==>
              |FlatMap(r => FromRow(db, t, r), Table(db, t.root)[..n])| == n
  {
    if n > 0 {
      var table := Table(db, t.root);
      assert table[..n] == table[..n - 1] + [table[n - 1]];
      CountRows(db, t, n - 1);
      OneRowAtMost(db, t.joins, Start(t.root, table[n - 1]));
      FlatMapCount(r => FromRow(db, t, r), table[..n - 1], table[n - 1]);
    }
  }

  /** Every bound row comes from its alias's table. */
  ghost predicate FromTables(db: Database, j: Joined) {
    forall ds :: ds in j && j[ds].Some? ==> j[ds].value in Table(db, ds)
  }

  /** No alias is null-extended. */
  ghost predicate NoneNull(j: Joined) {
    forall ds :: ds in j ==> j[ds].Some?
  }

  lemma ExtendShape(db: Database, rel: Relationship, j: Joined, j': Joined)
    requires j' in Extend(db, rel, j)
    ensures j'.Keys == j.Keys + {rel.to}
    ensures FromTables(db, j) ==> FromTables(db, j')
    ensures NoneNull(j) && rel.joinType.Inner? ==> NoneNull(j')
  {
  }

  lemma JoinedFrom(db: Database, rel: Relationship, rows: seq<Joined>, j': Joined) returns (j: Joined)
    requires j' in FlatMap((j: Joined) => Extend(db, rel, j), rows)
    ensures j in rows && j' in Extend(db, rel, j)
  {
    var i :| 0 <= i < |rows| && j' in Extend(db, rel, rows[i]);
    j := rows[i];
  }

  /** Joins add their aliases, take bound rows from the tables, and null-extend only under LEFT joins. */
  lemma {:induction false} JoinsShape(db: Database, joins: seq<Relationship>, rows: seq<Joined>, bound: set<Dataset>)
    requires forall j: Joined :: j in rows ==> j.Keys == bound && FromTables(db, j)
    ensures forall j: Joined :: j in EvalJoins(db, joins, rows) ==> j.Keys == bound + Aliases(joins) && FromTables(db, j)
    decreases |joins|
  {
    if joins != [] {
      var next := FlatMap((j: Joined) => Extend(db, joins[0], j), rows);
      forall j': Joined | j' in next ensures j'.Keys == bound + {joins[0].to} && FromTables(db, j') {
        var j := JoinedFrom(db, joins[0], rows, j');
        ExtendShape(db, joins[0], j, j');
      }
      JoinsShape(db, joins[1..], next, bound + {joins[0].to});
      AliasesStep(joins);
    }
  }

  lemma {:induction false} InnerJoinsBind(db: Database, joins: seq<Relationship>, rows: seq<Joined>)
    requires forall k :: 0 <= k < |joins| ==> joins[k].joinType.Inner?
    requires forall j: Joined :: j in rows ==> NoneNull(j)
    ensures forall j: Joined :: j in EvalJoins(db, joins, rows) ==> NoneNull(j)
    decreases |joins|
  {
    if joins != [] {
      var next := FlatMap((j: Joined) => Extend(db, joins[0], j), rows);
      forall j': Joined | j' in next ensures NoneNull(j') {
        var j := JoinedFrom(db, joins[0], rows, j');
        ExtendShape(db, joins[0], j, j');
      }
      InnerJoinsBind(db, joins[1..], next);
    }
  }

  function Aliases(joins: seq<Relationship>): set<Dataset> {
    set k | 0 <= k < |joins| :: joins[k].to
  }

  lemma AliasesStep(joins: seq<Relationship>)
    requires joins != []
    ensures Aliases(joins) == {joins[0].to} + Aliases(joins[1..])
  {
    var rest := joins[1..];
    forall ds | ds in Aliases(joins) ensures ds in {joins[0].to} + Aliases(rest) {
      var k :| 0 <= k < |joins| && joins[k].to == ds;
      assert k > 0 ==> rest[k - 1].to == ds;
    }
    forall ds | ds in Aliases(rest) ensures ds in Aliases(joins) {
      var k :| 0 <= k < |rest| && rest[k].to == ds;
      assert joins[k + 1].to == ds;
    }
  }

  /** What every joined row of a tree satisfies. */
  lemma FromShape(db: Database, t: Tree)
    ensures forall j: Joined :: j in EvalFrom(db, t) ==> j.Keys == InTree(t)
    ensures forall j: Joined, ds :: j in EvalFrom(db, t) && ds in j && j[ds].Some? ==> j[ds].value in Table(db, ds)
    ensures (forall k :: 0 <= k < |t.joins| ==> t.joins[k].joinType.Inner?) ==>
              forall j: Joined, ds :: j in EvalFrom(db, t) && ds in j ==> j[ds].Some?
  {
    var rows := Map(r => Start(t.root, r), Table(db, t.root));
    JoinsShape(db, t.joins, rows, {t.root});
    assert InTree(t) == {t.root} + Aliases(t.joins);
    if forall k :: 0 <= k < |t.joins| ==> t.joins[k].joinType.Inner? {
      InnerJoinsBind(db, t.joins, rows);
    }
  }
}
