/** The search finds first routes. */
module Nearest {
  // What a breadth-first search has found at any moment: each dataset over the first of all its routes, in the
  // order of these routes, and nothing missing that could come earlier.

  import opened JoinGraph
  import opened Routes

  /** The joins that lead to a dataset from the root, read back from the last one. */
  function Chain(joins: seq<Relationship>, ds: Dataset): seq<Relationship> {
    if joins == [] then []
    else
      var n := |joins| - 1;
      if joins[n].to == ds then Chain(joins[..n], joins[n].from) + [joins[n]] else Chain(joins[..n], ds)
  }

  /** `ds` has been found over `c` or an earlier route. */
  ghost predicate Placed(ns: seq<Dataset>, cs: seq<seq<nat>>, c: seq<nat>, ds: Dataset)
    requires |cs| == |ns|
  {
    exists j :: 0 <= j < |ns| && ns[j] == ds && (cs[j] == c || Before(cs[j], c))
  }

  ghost predicate Sorted(cs: seq<seq<nat>>) {
    forall i, j :: 0 <= i < j < |cs| ==> Before(cs[i], cs[j])
  }

  ghost predicate AllFirst(rels: seq<Relationship>, root: Dataset, ns: seq<Dataset>, cs: seq<seq<nat>>)
    requires |cs| == |ns|
  {
    forall i :: 0 <= i < |ns| ==> FirstRoute(rels, root, cs[i], ns[i])
  }

  /** Relationship `e` has been followed from the dataset at `i`. */
  ghost predicate FollowedAt(rels: seq<Relationship>, ns: seq<Dataset>, cs: seq<seq<nat>>, i: nat, e: nat)
    requires |cs| == |ns| && i < |ns| && e < |rels|
  {
    rels[e].from == ns[i] ==> Placed(ns, cs, cs[i] + [e], rels[e].to)
  }

  /** All relationships have been followed from the first `m` datasets, and the first `n` from the next. */
  ghost predicate Followed(rels: seq<Relationship>, ns: seq<Dataset>, cs: seq<seq<nat>>, m: nat, n: nat)
    requires |cs| == |ns|
  {
    forall i, e :: 0 <= i <= m && i < |ns| && 0 <= e < |rels| && (i < m || e < n) ==> FollowedAt(rels, ns, cs, i, e)
  }

  ghost predicate Ahead(cs: seq<seq<nat>>, c: seq<nat>) {
    forall i :: 0 <= i < |cs| ==> Before(cs[i], c)
  }

  /** What has been found when the first `n` relationships have been looked at for the dataset at `m`. */
  ghost predicate Wave(rels: seq<Relationship>, root: Dataset, ns: seq<Dataset>, cs: seq<seq<nat>>, m: nat, n: nat) {
    && |cs| == |ns| && m < |ns| && n <= |rels| && ns[0] == root && cs[0] == []
    && Sorted(cs) && AllFirst(rels, root, ns, cs) && Followed(rels, ns, cs, m, n) && Ahead(cs, cs[m] + [n])
  }

  lemma WaveStart(rels: seq<Relationship>, root: Dataset)
    ensures Wave(rels, root, [root], [[]], 0, 0)
  {
    var c: seq<nat> := [];
    forall d | Route(rels, root, d, root) ensures d == c || Before(c, d) {
    }
  }

  /** A route that comes before the one at hand leads to a dataset that was found. */
  lemma {:induction false} EarlierIsPlaced(rels: seq<Relationship>, root: Dataset, ns: seq<Dataset>, cs: seq<seq<nat>>, m: nat, n: nat,
                                           d: seq<nat>, ds: Dataset)
    requires Wave(rels, root, ns, cs, m, n) && Route(rels, root, d, ds) && Before(d, cs[m] + [n])
    ensures Placed(ns, cs, d, ds)
    decreases |d|
  {
    if d == [] {
      assert ns[0] == ds && cs[0] == d;
    } else {
      var l := |d| - 1;
      var d0, e := d[..l], d[l];
      assert d == d0 + [e];
      BeforeMore(d0, cs[m], e, n);
      ShorterBefore(d0, cs[m], n);
      EarlierIsPlaced(rels, root, ns, cs, m, n, d0, rels[e].from);
      var i :| 0 <= i < |ns| && ns[i] == rels[e].from && (cs[i] == d0 || Before(cs[i], d0));
      StepIsPlaced(rels, root, ns, cs, m, n, d0, e, i);
    }
  }

  lemma ShorterBefore(d: seq<nat>, c: seq<nat>, n: nat)
    requires d == c || Before(d, c)
    ensures Before(d, c + [n])
  {
  }

  lemma StepIsPlaced(rels: seq<Relationship>, root: Dataset, ns: seq<Dataset>, cs: seq<seq<nat>>, m: nat, n: nat, d: seq<nat>, e: nat, i: nat)
    requires Wave(rels, root, ns, cs, m, n) && e < |rels| && i < |ns| && ns[i] == rels[e].from
    requires cs[i] == d || Before(cs[i], d)
    requires Before(d, cs[m]) || (d == cs[m] && e < n)
    ensures Placed(ns, cs, d + [e], rels[e].to)
  {
    IndexBefore(cs, i, m, d);
    if Before(d, cs[m]) {
      NotBefore(d, cs[m]);
    }
    assert i < m || (i == m && d == cs[m] && e < n);
    assert FollowedAt(rels, ns, cs, i, e);
    var j :| 0 <= j < |ns| && ns[j] == rels[e].to && (cs[j] == cs[i] + [e] || Before(cs[j], cs[i] + [e]));
    if cs[i] != d {
      BeforeMore(cs[i], d, e, e);
      if cs[j] != cs[i] + [e] {
        BeforeTrans(cs[j], cs[i] + [e], d + [e]);
      }
    }
  }

  /** In the order of routes, one that is not behind `cs[m]` stands at `m` at most. */
  lemma IndexBefore(cs: seq<seq<nat>>, i: nat, m: nat, d: seq<nat>)
    requires Sorted(cs) && i < |cs| && m < |cs|
    requires (cs[i] == d || Before(cs[i], d)) && (Before(d, cs[m]) || d == cs[m])
    ensures i <= m && (i == m ==> d == cs[m])
  {
    if cs[i] != cs[m] {
      if cs[i] != d && d != cs[m] {
        BeforeTrans(cs[i], d, cs[m]);
      }
      NotBefore(cs[i], cs[m]);
    } else {
      if d != cs[m] {
        NotBefore(d, cs[m]);
      }
    }
    if i > m {
      assert Before(cs[m], cs[i]);
      NotBefore(cs[m], cs[i]);
    }
  }

  /** What is found next is found over its first route. */
  lemma NewIsFirst(rels: seq<Relationship>, root: Dataset, ns: seq<Dataset>, cs: seq<seq<nat>>, m: nat, n: nat)
    requires Wave(rels, root, ns, cs, m, n) && n < |rels| && rels[n].from == ns[m] && rels[n].to !in ns
    ensures FirstRoute(rels, root, cs[m] + [n], rels[n].to)
  {
    var c := cs[m] + [n];
    assert FirstRoute(rels, root, cs[m], ns[m]);
    RouteMore(rels, root, cs[m], n);
    forall d | Route(rels, root, d, rels[n].to) ensures d == c || Before(c, d) {
      BeforeTotal(c, d);
      if Before(d, c) {
        EarlierIsPlaced(rels, root, ns, cs, m, n, d, rels[n].to);
        assert false;
      }
    }
  }

  lemma PlacedStill(ns: seq<Dataset>, cs: seq<seq<nat>>, c: seq<nat>, ds: Dataset, x: Dataset, cx: seq<nat>)
    requires |cs| == |ns| && Placed(ns, cs, c, ds)
    ensures Placed(ns + [x], cs + [cx], c, ds)
  {
    var j :| 0 <= j < |ns| && ns[j] == ds && (cs[j] == c || Before(cs[j], c));
    assert (ns + [x])[j] == ds && (cs + [cx])[j] == cs[j];
  }

  lemma WaveFound(rels: seq<Relationship>, root: Dataset, ns: seq<Dataset>, cs: seq<seq<nat>>, m: nat, n: nat, next: nat)
    requires Wave(rels, root, ns, cs, m, n) && n < |rels| && rels[n].from == ns[m] && rels[n].to !in ns && next == n + 1
    ensures Wave(rels, root, ns + [rels[n].to], cs + [cs[m] + [n]], m, next)
  {
    var x, c := rels[n].to, cs[m] + [n];
    var ns', cs' := ns + [x], cs + [c];
    NewIsFirst(rels, root, ns, cs, m, n);
    forall i | 0 <= i < |ns'| ensures FirstRoute(rels, root, cs'[i], ns'[i]) {
      assert i < |ns| ==> cs'[i] == cs[i] && ns'[i] == ns[i];
    }
    forall i, e | 0 <= i <= m && i < |ns'| && 0 <= e < |rels| && (i < m || e < n + 1) ensures FollowedAt(rels, ns', cs', i, e) {
      FoundFollows(rels, ns, cs, m, n, i, e);
    }
    assert Sorted(cs');
    BeforeMore(cs[m], cs[m], n, n + 1);
    forall i | 0 <= i < |cs'| ensures Before(cs'[i], cs'[m] + [n + 1]) {
      if i < |cs| {
        BeforeTrans(cs[i], c, cs[m] + [n + 1]);
      }
    }
  }

  lemma FoundFollows(rels: seq<Relationship>, ns: seq<Dataset>, cs: seq<seq<nat>>, m: nat, n: nat, i: nat, e: nat)
    requires |cs| == |ns| && m < |ns| && n < |rels| && rels[n].from == ns[m] && Followed(rels, ns, cs, m, n)
    requires i <= m && e < |rels| && (i < m || e < n + 1)
    ensures FollowedAt(rels, ns + [rels[n].to], cs + [cs[m] + [n]], i, e)
  {
    var x, c := rels[n].to, cs[m] + [n];
    var ns', cs' := ns + [x], cs + [c];
    if i == m && e == n {
      assert ns'[|ns|] == x && cs'[|ns|] == c && cs'[i] == cs[i];
    } else {
      assert FollowedAt(rels, ns, cs, i, e);
      if rels[e].from == ns[i] {
        PlacedStill(ns, cs, cs[i] + [e], rels[e].to, x, c);
      }
    }
  }

  lemma WaveSkipped(rels: seq<Relationship>, root: Dataset, ns: seq<Dataset>, cs: seq<seq<nat>>, m: nat, n: nat, next: nat)
    requires Wave(rels, root, ns, cs, m, n) && n < |rels| && (rels[n].from != ns[m] || rels[n].to in ns) && next == n + 1
    ensures Wave(rels, root, ns, cs, m, next)
  {
    if rels[n].from == ns[m] {
      var j :| 0 <= j < |ns| && ns[j] == rels[n].to;
      assert Before(cs[j], cs[m] + [n]);
      assert Placed(ns, cs, cs[m] + [n], rels[n].to);
    }
    assert FollowedAt(rels, ns, cs, m, n);
    forall i, e | 0 <= i <= m && i < |ns| && 0 <= e < |rels| && (i < m || e < n + 1) ensures FollowedAt(rels, ns, cs, i, e) {
      assert i < m || e < n || (i == m && e == n);
    }
    BeforeMore(cs[m], cs[m], n, n + 1);
    forall i | 0 <= i < |cs| ensures Before(cs[i], cs[m] + [n + 1]) {
      BeforeTrans(cs[i], cs[m] + [n], cs[m] + [n + 1]);
    }
  }

  lemma WaveNext(rels: seq<Relationship>, root: Dataset, ns: seq<Dataset>, cs: seq<seq<nat>>, m: nat)
    requires Wave(rels, root, ns, cs, m, |rels|) && m + 1 < |ns|
    ensures Wave(rels, root, ns, cs, m + 1, 0)
  {
    forall i, e | 0 <= i <= m + 1 && i < |ns| && 0 <= e < |rels| && (i < m + 1 || e < 0) ensures FollowedAt(rels, ns, cs, i, e) {
    }
    BeforeMore(cs[m], cs[m + 1], |rels|, 0);
    forall i | 0 <= i < |cs| ensures Before(cs[i], cs[m + 1] + [0]) {
      BeforeTrans(cs[i], cs[m] + [|rels|], cs[m + 1] + [0]);
    }
  }

  // ------------------------------------------------------ the joins it gives

  /** Each dataset's chain of joins is the relationships of its route. */
  ghost predicate Chained(rels: seq<Relationship>, es: seq<Relationship>, ns: seq<Dataset>, cs: seq<seq<nat>>)
    requires |cs| == |ns|
  {
    forall i :: 0 <= i < |ns| ==> ChainIs(rels, es, ns[i], cs[i])
  }

  ghost predicate ChainIs(rels: seq<Relationship>, es: seq<Relationship>, ds: Dataset, c: seq<nat>) {
    (forall k :: 0 <= k < |c| ==> c[k] < |rels|) && Chain(es, ds) == Along(rels, c)
  }

  lemma ChainLast(es: seq<Relationship>, last: Relationship, ds: Dataset)
    ensures Chain(es + [last], ds) == if last.to == ds then Chain(es, last.from) + [last] else Chain(es, ds)
  {
    assert (es + [last])[..|es|] == es;
  }

  lemma ChainedMore(rels: seq<Relationship>, es: seq<Relationship>, ns: seq<Dataset>, cs: seq<seq<nat>>, m: nat, n: nat)
    requires |cs| == |ns| && Chained(rels, es, ns, cs) && m < |ns| && n < |rels| && rels[n].from == ns[m] && rels[n].to !in ns
    ensures Chained(rels, es + [rels[n]], ns + [rels[n].to], cs + [cs[m] + [n]])
  {
    var es', ns', cs' := es + [rels[n]], ns + [rels[n].to], cs + [cs[m] + [n]];
    forall i | 0 <= i < |ns'| ensures ChainIs(rels, es', ns'[i], cs'[i]) {
      ChainLast(es, rels[n], ns'[i]);
      if i < |ns| {
        assert ChainIs(rels, es, ns[i], cs[i]);
      } else {
        assert ChainIs(rels, es, ns[m], cs[m]);
        assert Along(rels, cs[m] + [n]) == Along(rels, cs[m]) + [rels[n]];
      }
    }
  }

  /** The joins lead to `ds` over its first route. */
  ghost predicate OverFirst(rels: seq<Relationship>, root: Dataset, joins: seq<Relationship>, ds: Dataset) {
    exists c :: FirstRoute(rels, root, c, ds) && ChainIs(rels, joins, ds, c)
  }

  /** The joins stand in the order of the first routes to their targets. */
  ghost predicate InRouteOrder(rels: seq<Relationship>, root: Dataset, joins: seq<Relationship>) {
    forall i, j :: 0 <= i < j < |joins| ==> RoutesInOrder(rels, root, joins[i].to, joins[j].to)
  }

  ghost predicate RoutesInOrder(rels: seq<Relationship>, root: Dataset, a: Dataset, b: Dataset) {
    forall c, d :: FirstRoute(rels, root, c, a) && FirstRoute(rels, root, d, b) ==> Before(c, d)
  }

  lemma SortedInOrder(rels: seq<Relationship>, root: Dataset, es: seq<Relationship>, ns: seq<Dataset>, cs: seq<seq<nat>>)
    requires |cs| == |ns| == |es| + 1 && Sorted(cs) && AllFirst(rels, root, ns, cs)
    requires forall k :: 0 <= k < |es| ==> ns[k + 1] == es[k].to
    ensures InRouteOrder(rels, root, es)
  {
    forall i, j | 0 <= i < j < |es| ensures RoutesInOrder(rels, root, es[i].to, es[j].to) {
      forall c, d | FirstRoute(rels, root, c, es[i].to) && FirstRoute(rels, root, d, es[j].to) ensures Before(c, d) {
        FirstRouteUnique(rels, root, c, cs[i + 1], es[i].to);
        FirstRouteUnique(rels, root, d, cs[j + 1], es[j].to);
      }
    }
  }
}
