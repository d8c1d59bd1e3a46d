/** The check that the relationships of a model form no directed cycle: a depth-first search with three colours. */
module Cycle {
  import opened Options
  import opened JoinGraph

  /** White nodes are those with no colour yet. */
  datatype Color = Gray | Black

  type Edges = map<Dataset, seq<Dataset>>

  function Successors(edges: Edges, n: Dataset): seq<Dataset> {
    if n in edges then edges[n] else []
  }

  /** The adjacency lists hold exactly the edges of the relationships. */
  ghost predicate Represents(edges: Edges, rels: seq<Relationship>) {
    forall a, b :: Edge(rels, a, b) <==> b in Successors(edges, a)
  }

  method EdgesOf(rels: seq<Relationship>) returns (edges: Edges)
    ensures Represents(edges, rels)
  {
    edges := map[];
    for i := 0 to |rels|
      invariant Represents(edges, rels[..i])
    {
      ghost var before := edges;
      var r := rels[i];
      edges := edges[r.from := Successors(edges, r.from) + [r.to]];
      assert rels[..i + 1] == rels[..i] + [r];
      forall a, b ensures Edge(rels[..i + 1], a, b) <==> b in Successors(edges, a) {
        EdgeAppend(rels[..i], r, a, b);
      }
    }
    assert rels[..|rels|] == rels;
  }

  lemma EdgeAppend(rels: seq<Relationship>, r: Relationship, a: Dataset, b: Dataset)
    ensures Edge(rels + [r], a, b) <==> Edge(rels, a, b) || (r.from == a && r.to == b)
  {
    var all := rels + [r];
    if r.from == a && r.to == b {
      assert all[|rels|] == r;
    }
    if Edge(rels, a, b) {
      var k :| 0 <= k < |rels| && rels[k].from == a && rels[k].to == b;
      assert all[k] == rels[k];
    }
  }

  /** Every node is listed once and all its successors are listed before it. */
  ghost predicate Finished(edges: Edges, order: seq<Dataset>) {
    && (forall i, j | 0 <= i < j < |order| :: order[i] != order[j])
    && forall i | 0 <= i < |order| :: forall b | b in Successors(edges, order[i]) :: b in order[..i]
  }

  lemma FinishedGrows(edges: Edges, order: seq<Dataset>, n: Dataset)
    requires Finished(edges, order) && n !in order
    requires forall b | b in Successors(edges, n) :: b in order
    ensures Finished(edges, order + [n])
  {
    var all := order + [n];
    forall i | 0 <= i < |all| ensures forall b | b in Successors(edges, all[i]) :: b in all[..i] {
      assert all[..i] == order[..i];
      assert i == |order| ==> all[..i] == order;
    }
  }

  /** A path that ends at a node already on it. */
  ghost predicate ClosesOn(rels: seq<Relationship>, c: seq<Dataset>) {
    |c| >= 2 && IsPath(rels, c) && c[|c| - 1] in c[..|c| - 1]
  }

  lemma ClosedPathIsCycle(rels: seq<Relationship>, c: seq<Dataset>)
    requires ClosesOn(rels, c)
    ensures !Acyclic(rels)
  {
    var k :| 0 <= k < |c| - 1 && c[k] == c[|c| - 1];
    var p := c[k..];
    forall i | 0 <= i < |p| - 1 ensures Edge(rels, p[i], p[i + 1]) {
      assert Edge(rels, c[k + i], c[k + i + 1]);
    }
    assert IsPath(rels, p) && p[0] == p[|p| - 1];
  }

  /** Along a path, nodes come earlier and earlier in a finished order. */
  lemma {:induction false} PathDescends(rels: seq<Relationship>, edges: Edges, order: seq<Dataset>, p: seq<Dataset>, i: nat) returns (j: nat)
    requires Represents(edges, rels) && Finished(edges, order) && IsPath(rels, p)
    requires i < |order| && order[i] == p[0]
    ensures j <= i && order[j] == p[|p| - 1] && (|p| >= 2 ==> j < i)
    decreases |p|
  {
    if |p| == 1 {
      j := i;
    } else {
      assert Edge(rels, p[0], p[0 + 1]);
      var k :| 0 <= k < i && order[..i][k] == p[1];
      var q := p[1..];
      forall a | 0 <= a < |q| - 1 ensures Edge(rels, q[a], q[a + 1]) {
        assert Edge(rels, p[a + 1], p[a + 1 + 1]);
      }
      j := PathDescends(rels, edges, order, q, k);
    }
  }

  lemma FinishedIsAcyclic(rels: seq<Relationship>, edges: Edges, order: seq<Dataset>)
    requires Represents(edges, rels) && Finished(edges, order) && forall n | n in edges :: n in order
    ensures Acyclic(rels)
  {
    forall p | IsPath(rels, p) && |p| >= 2 ensures p[0] != p[|p| - 1] {
      assert Edge(rels, p[0], p[0 + 1]);
      var i :| 0 <= i < |order| && order[i] == p[0];
      var j := PathDescends(rels, edges, order, p, i);
    }
  }

  lemma Extend(rels: seq<Relationship>, path: seq<Dataset>, n: Dataset)
    requires path != [] ==> IsPath(rels, path) && Edge(rels, path[|path| - 1], n)
    ensures IsPath(rels, path + [n])
  {
    var p := path + [n];
    forall i | 0 <= i < |p| - 1 ensures Edge(rels, p[i], p[i + 1]) {
      if i < |path| - 1 {
        assert Edge(rels, path[i], path[i + 1]);
      }
    }
  }

  class Finder {
    const edges: Edges
    ghost const rels: seq<Relationship>
    var color: map<Dataset, Color>
    var path: seq<Dataset>
    ghost var order: seq<Dataset>

    constructor (edges: Edges, ghost rels: seq<Relationship>)
      requires Represents(edges, rels)
      ensures Valid() && this.edges == edges && this.rels == rels && path == [] && order == []
    {
      this.edges, this.rels := edges, rels;
      color, path, order := map[], [], [];
    }

    /** Gray nodes are those on the path, black ones are finished, and the path follows edges. */
    ghost predicate Valid()
      reads this
    {
      && Represents(edges, rels) && Finished(edges, order)
      && (forall n :: n in color && color[n] == Black <==> n in order)
      && (forall n :: n in color && color[n] == Gray <==> n in path)
      && (path != [] ==> IsPath(rels, path))
      && forall i, j | 0 <= i < j < |path| :: path[i] != path[j]
    }

    ghost function White(): set<Dataset>
      reads this
    {
      (edges.Keys + set n, i | n in edges && 0 <= i < |edges[n]| :: edges[n][i]) - color.Keys
    }

    method Enter(n: Dataset)
      requires Valid() && n !in color
      requires path != [] ==> Edge(rels, path[|path| - 1], n)
      modifies this
      ensures Valid() && path == old(path) + [n] && order == old(order) && color.Keys == old(color.Keys) + {n}
    {
      Extend(rels, path, n);
      color := color[n := Gray];
      path := path + [n];
    }

    method Leave(n: Dataset)
      requires Valid() && path != [] && path[|path| - 1] == n
      requires forall b | b in Successors(edges, n) :: b in order
      modifies this
      ensures Valid() && path == old(path)[..|old(path)| - 1] && order == old(order) + [n] && color.Keys == old(color.Keys)
    {
      assert n in path;
      FinishedGrows(edges, order, n);
      color := color[n := Black];
      path := path[..|path| - 1];
      order := order + [n];
    }

    /** Explores from a white node; either finds a path that closes on itself, or finishes the node. */
    method Dfs(n: Dataset) returns (c: Option<seq<Dataset>>)
      requires Valid() && n in White()
      requires path != [] ==> Edge(rels, path[|path| - 1], n)
      modifies this
      ensures c.Some? ==> ClosesOn(rels, c.value)
      ensures c.None? ==> Valid() && path == old(path) && n in order
      ensures c.None? ==> old(color.Keys) <= color.Keys && forall m | m in old(order) :: m in order
      decreases White()
    {
      Enter(n);
      var next := Successors(edges, n);
      for i := 0 to |next|
        invariant Valid() && path == old(path) + [n]
        invariant old(color.Keys) + {n} <= color.Keys
        invariant forall m | m in old(order) :: m in order
        invariant forall k | 0 <= k < i :: next[k] in order
      {
        var b := next[i];
        assert Edge(rels, n, b) by {
          assert b in Successors(edges, n);
        }
        if b in color {
          if color[b] == Gray {
            Extend(rels, path, b);
            assert (path + [b])[..|path|] == path;
            return Some(path + [b]);
          }
        } else {
          WhiteSuccessor(n, i);
          c := Dfs(b);
          if c.Some? {
            return;
          }
        }
      }
      Leave(n);
      return None;
    }

    lemma WhiteSuccessor(n: Dataset, i: nat)
      requires i < |Successors(edges, n)| && Successors(edges, n)[i] !in color
      ensures Successors(edges, n)[i] in White()
    {
      assert n in edges && edges[n][i] == Successors(edges, n)[i];
    }
  }

  /** A path is reported just when the relationships have a cycle, whatever order the datasets are taken in. */
  method FindCycle(edges: Edges, ghost rels: seq<Relationship>) returns (c: Option<seq<Dataset>>)
    requires Represents(edges, rels)
    ensures c.None? <==> Acyclic(rels)
    ensures c.Some? ==> ClosesOn(rels, c.value)
  {
    var f := new Finder(edges, rels);
    var rest := edges.Keys;
    while rest != {}
      invariant fresh(f) && f.Valid() && f.edges == edges && f.rels == rels && f.path == []
      invariant rest <= edges.Keys && forall n | n in edges && n !in rest :: n in f.order
      decreases |rest|
    {
      var n :| n in rest;
      rest := rest - {n};
      if n !in f.color {
        assert n in f.White();
        c := f.Dfs(n);
        if c.Some? {
          ClosedPathIsCycle(rels, c.value);
          return;
        }
      }
    }
    FinishedIsAcyclic(rels, edges, f.order);
    return None;
  }

  /** The error message asks for a tree, but two ways to the same dataset are accepted. */
  lemma DiamondAccepted()
    ensures Acyclic([Relationship("a", "b", ["x"], ["x"], Inner), Relationship("a", "c", ["y"], ["y"], Inner),
                     Relationship("b", "d", ["z"], ["z"], Inner), Relationship("c", "d", ["z"], ["z"], Inner)])
  {
    var rels := [Relationship("a", "b", ["x"], ["x"], Inner), Relationship("a", "c", ["y"], ["y"], Inner),
                 Relationship("b", "d", ["z"], ["z"], Inner), Relationship("c", "d", ["z"], ["z"], Inner)];
    var edges: Edges := map["a" := ["b", "c"], "b" := ["d"], "c" := ["d"]];
    forall x, y ensures Edge(rels, x, y) <==> y in Successors(edges, x) {
      assert rels[0].from == "a" && rels[1].from == "a" && rels[2].from == "b" && rels[3].from == "c";
    }
    var order := ["d", "b", "c", "a"];
    assert order[..1] == ["d"] && order[..2] == ["d", "b"] && order[..3] == ["d", "b", "c"];
    FinishedIsAcyclic(rels, edges, order);
  }
}
