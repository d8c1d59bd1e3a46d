/** Routes through the join graph. */
module Routes {
  // A route is the list of the relationships it follows, by their positions in the spec. Shorter routes come
  // before longer ones, and among routes of one length the spec order of the first difference decides.

  import opened JoinGraph

  /** The relationships at `c`, one after the other, lead from `root` to `ds`. */
  ghost predicate Route(rels: seq<Relationship>, root: Dataset, c: seq<nat>, ds: Dataset) {
    if c == [] then ds == root
    else
      var n := |c| - 1;
      c[n] < |rels| && rels[c[n]].to == ds && Route(rels, root, c[..n], rels[c[n]].from)
  }

  predicate LexLess(c: seq<nat>, d: seq<nat>) {
    c != [] && d != [] && (c[0] < d[0] || (c[0] == d[0] && LexLess(c[1..], d[1..])))
  }

  predicate Before(c: seq<nat>, d: seq<nat>) {
    |c| < |d| || (|c| == |d| && LexLess(c, d))
  }

  /** No other route to the dataset is shorter, nor is one of its length earlier in spec order. */
  ghost predicate FirstRoute(rels: seq<Relationship>, root: Dataset, c: seq<nat>, ds: Dataset) {
    Route(rels, root, c, ds) && forall d :: Route(rels, root, d, ds) ==> d == c || Before(c, d)
  }

  /** The relationships a route follows. */
  ghost function Along(rels: seq<Relationship>, c: seq<nat>): (es: seq<Relationship>)
    requires forall i :: 0 <= i < |c| ==> c[i] < |rels|
    ensures |es| == |c| && forall i :: 0 <= i < |c| ==> es[i] == rels[c[i]]
  {
    seq(|c|, i requires 0 <= i < |c| => rels[c[i]])
  }

  lemma {:induction false} RouteInside(rels: seq<Relationship>, root: Dataset, c: seq<nat>, ds: Dataset)
    requires Route(rels, root, c, ds)
    ensures forall i :: 0 <= i < |c| ==> c[i] < |rels|
  {
    if c != [] {
      var n := |c| - 1;
      RouteInside(rels, root, c[..n], rels[c[n]].from);
      assert forall i :: 0 <= i < n ==> c[..n][i] == c[i];
    }
  }

  lemma RouteMore(rels: seq<Relationship>, root: Dataset, c: seq<nat>, i: nat)
    requires i < |rels| && Route(rels, root, c, rels[i].from)
    ensures Route(rels, root, c + [i], rels[i].to)
  {
    assert (c + [i])[..|c|] == c;
  }

  /** A path of datasets is followed by some route. */
  lemma {:induction false} PathRoute(rels: seq<Relationship>, p: seq<Dataset>, root: Dataset, ds: Dataset) returns (c: seq<nat>)
    requires PathBetween(rels, p, root, ds)
    ensures Route(rels, root, c, ds) && |c| == |p| - 1
    decreases |p|
  {
    if |p| == 1 {
      c := [];
    } else {
      var n := |p| - 1;
      assert Edge(rels, p[n - 1], p[n - 1 + 1]);
      var i :| 0 <= i < |rels| && rels[i].from == p[n - 1] && rels[i].to == p[n];
      PathInit(rels, p, root);
      c := PathRoute(rels, p[..n], root, p[n - 1]);
      RouteMore(rels, root, c, i);
      c := c + [i];
    }
  }

  lemma PathInit(rels: seq<Relationship>, p: seq<Dataset>, root: Dataset)
    requires IsPath(rels, p) && p[0] == root && |p| > 1
    ensures PathBetween(rels, p[..|p| - 1], root, p[|p| - 2])
  {
    var q := p[..|p| - 1];
    forall i | 0 <= i < |q| - 1 ensures Edge(rels, q[i], q[i + 1]) {
      assert Edge(rels, p[i], p[i + 1]);
    }
  }

  // ------------------------------------------------------ the order of routes

  lemma {:induction false} LexTotal(c: seq<nat>, d: seq<nat>)
    requires |c| == |d|
    ensures c == d || LexLess(c, d) || LexLess(d, c)
  {
    if c != [] {
      LexTotal(c[1..], d[1..]);
      assert c == [c[0]] + c[1..] && d == [d[0]] + d[1..];
    }
  }

  lemma {:induction false} LexTrans(a: seq<nat>, b: seq<nat>, c: seq<nat>)
    requires LexLess(a, b) && LexLess(b, c)
    ensures LexLess(a, c)
  {
    if a[0] == b[0] == c[0] {
      LexTrans(a[1..], b[1..], c[1..]);
    }
  }

  lemma {:induction false} LexIrreflexive(c: seq<nat>)
    ensures !LexLess(c, c)
  {
    if c != [] {
      LexIrreflexive(c[1..]);
    }
  }

  /** With one more relationship at the end of each, the earlier difference still decides. */
  lemma {:induction false} LexMore(a: seq<nat>, b: seq<nat>, x: nat, y: nat)
    requires |a| == |b|
    ensures LexLess(a + [x], b + [y]) <==> LexLess(a, b) || (a == b && x < y)
  {
    if a == [] {
      assert a + [x] == [x] && b + [y] == [y] && [x][1..] == [] && [y][1..] == [];
    } else {
      LexMore(a[1..], b[1..], x, y);
      assert (a + [x])[1..] == a[1..] + [x] && (b + [y])[1..] == b[1..] + [y];
      assert (a + [x])[0] == a[0] && (b + [y])[0] == b[0];
      assert a == [a[0]] + a[1..] && b == [b[0]] + b[1..];
    }
  }

  lemma BeforeTotal(c: seq<nat>, d: seq<nat>)
    ensures c == d || Before(c, d) || Before(d, c)
  {
    if |c| == |d| {
      LexTotal(c, d);
    }
  }

  lemma BeforeTrans(a: seq<nat>, b: seq<nat>, c: seq<nat>)
    requires Before(a, b) && Before(b, c)
    ensures Before(a, c)
  {
    if |a| == |b| == |c| {
      LexTrans(a, b, c);
    }
  }

  lemma NotBefore(c: seq<nat>, d: seq<nat>)
    requires Before(c, d)
    ensures c != d && !Before(d, c)
  {
    if |c| == |d| {
      if LexLess(d, c) {
        LexTrans(c, d, c);
      }
      LexIrreflexive(c);
    }
  }

  lemma BeforeMore(a: seq<nat>, b: seq<nat>, x: nat, y: nat)
    ensures Before(a + [x], b + [y]) <==> Before(a, b) || (a == b && x < y)
  {
    if |a| == |b| {
      LexMore(a, b, x, y);
    }
  }

  /** The first route is one. */
  lemma FirstRouteUnique(rels: seq<Relationship>, root: Dataset, c: seq<nat>, d: seq<nat>, ds: Dataset)
    requires FirstRoute(rels, root, c, ds) && FirstRoute(rels, root, d, ds)
    ensures c == d
  {
    if c != d {
      NotBefore(c, d);
    }
  }

  /** The first route is no longer than any path. */
  lemma FirstIsShortest(rels: seq<Relationship>, root: Dataset, c: seq<nat>, ds: Dataset, p: seq<Dataset>)
    requires FirstRoute(rels, root, c, ds) && PathBetween(rels, p, root, ds)
    ensures |c| <= |p| - 1
  {
    var d := PathRoute(rels, p, root, ds);
  }
}
