/** The join graph of a compiled model. */
module JoinGraph {
  // Relationships are edges from the many side to the one side. Reachability is stated by explicit
  // paths.

  type Dataset = string

  datatype JoinType = Inner | Left

  datatype Relationship = Relationship(
    from: Dataset, to: Dataset,
    fromColumns: seq<string>, toColumns: seq<string>, joinType: JoinType)

  ghost predicate Edge(rels: seq<Relationship>, a: Dataset, b: Dataset) {
    exists k :: 0 <= k < |rels| && rels[k].from == a && rels[k].to == b
  }

  ghost predicate IsPath(rels: seq<Relationship>, p: seq<Dataset>) {
    |p| > 0 && forall i :: 0 <= i < |p| - 1 ==> Edge(rels, p[i], p[i + 1])
  }

  ghost predicate PathBetween(rels: seq<Relationship>, p: seq<Dataset>, a: Dataset, b: Dataset) {
    IsPath(rels, p) && p[0] == a && p[|p| - 1] == b
  }

  ghost predicate Reaches(rels: seq<Relationship>, a: Dataset, b: Dataset) {
    exists p :: PathBetween(rels, p, a, b)
  }

  /** `root` reaches every required dataset. */
  ghost predicate Covers(rels: seq<Relationship>, root: Dataset, required: set<Dataset>) {
    forall ds :: ds in required ==> Reaches(rels, root, ds)
  }

  /** No path of at least one edge returns to its start. */
  ghost predicate Acyclic(rels: seq<Relationship>) {
    forall p :: IsPath(rels, p) && |p| >= 2 ==> p[0] != p[|p| - 1]
  }

  lemma ReachesSelf(rels: seq<Relationship>, a: Dataset)
    ensures Reaches(rels, a, a)
  {
    assert PathBetween(rels, [a], a, a);
  }

  lemma PathAppend(rels: seq<Relationship>, p: seq<Dataset>, a: Dataset, b: Dataset, c: Dataset)
    requires PathBetween(rels, p, a, b) && Edge(rels, b, c)
    ensures PathBetween(rels, p + [c], a, c)
  {
    var q := p + [c];
    forall i | 0 <= i < |q| - 1
      ensures Edge(rels, q[i], q[i + 1])
    {
      if i < |p| - 1 {
        assert Edge(rels, p[i], p[i + 1]);
      }
    }
  }

  lemma ReachesStep(rels: seq<Relationship>, a: Dataset, b: Dataset, c: Dataset)
    requires Reaches(rels, a, b) && Edge(rels, b, c)
    ensures Reaches(rels, a, c)
  {
    var p :| PathBetween(rels, p, a, b);
    PathAppend(rels, p, a, b, c);
  }

  lemma {:induction false} ReachesTrans(rels: seq<Relationship>, a: Dataset, b: Dataset, c: Dataset, q: seq<Dataset>)
    requires Reaches(rels, a, b) && PathBetween(rels, q, b, c)
    ensures Reaches(rels, a, c)
    decreases |q|
  {
    if |q| > 1 {
      var q' := q[..|q| - 1];
      assert PathBetween(rels, q', b, q[|q| - 2]);
      ReachesTrans(rels, a, b, q[|q| - 2], q');
      assert Edge(rels, q[|q| - 2], q[|q| - 2 + 1]);
      ReachesStep(rels, a, q[|q| - 2], c);
    }
  }

  /** A set that contains the start and is closed under edges contains every node of a path. */
  lemma {:induction false} ClosedHoldsPath(rels: seq<Relationship>, s: set<Dataset>, p: seq<Dataset>)
    requires IsPath(rels, p) && p[0] in s
    requires forall k :: 0 <= k < |rels| && rels[k].from in s ==> rels[k].to in s
    ensures p[|p| - 1] in s
    decreases |p|
  {
    if |p| > 1 {
      ClosedHoldsPath(rels, s, p[..|p| - 1]);
      assert Edge(rels, p[|p| - 2], p[|p| - 2 + 1]);
    }
  }

  /** Two different datasets that reach each other lie on a cycle. */
  lemma MutualReachIsCycle(rels: seq<Relationship>, a: Dataset, b: Dataset)
    requires a != b && Reaches(rels, a, b) && Reaches(rels, b, a)
    ensures !Acyclic(rels)
  {
    var p :| PathBetween(rels, p, a, b);
    var q :| PathBetween(rels, q, b, a);
    var r := p + q[1..];
    forall i | 0 <= i < |r| - 1
      ensures Edge(rels, r[i], r[i + 1])
    {
      if i < |p| - 1 {
        assert Edge(rels, p[i], p[i + 1]);
      } else {
        var k := i - (|p| - 1);
        assert Edge(rels, q[k], q[k + 1]);
        assert r[i] == q[k] && r[i + 1] == q[k + 1];
      }
    }
    assert IsPath(rels, r) && r[0] == r[|r| - 1];
  }
}
