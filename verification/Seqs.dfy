/**
 Sequence operations the relational model is written with: mapping, filtering,
 flattening and first occurrences, and how each of them distributes over
 concatenation, which is what the join and grouping theorems rest on.
 */
module Seqs {
  function Map<A, B>(f: A -> B, s: seq<A>): (r: seq<B>)
    ensures |r| == |s| && forall i :: 0 <= i < |s| ==> r[i] == f(s[i])
  {
    seq(|s|, i requires 0 <= i < |s| => f(s[i]))
  }

  function Filter<A(!new)>(p: A -> bool, s: seq<A>): (r: seq<A>)
    ensures forall x :: x in r <==> x in s && p(x)
  {
    if s == [] then []
    else
      var n := |s| - 1;
      assert s == s[..n] + [s[n]];
      Filter(p, s[..n]) + if p(s[n]) then [s[n]] else []
  }

  function FlatMap<A(!new), B(!new)>(f: A -> seq<B>, s: seq<A>): (r: seq<B>)
    ensures forall y :: y in r <==> exists i :: 0 <= i < |s| && y in f(s[i])
  {
    if s == [] then []
    else
      var n := |s| - 1;
      FlatMap(f, s[..n]) + f(s[n])
  }

  /** Each element once, in the order of first occurrence: SQL's DISTINCT. */
  function Distinct<A(==,!new)>(s: seq<A>): (r: seq<A>)
    ensures forall x :: x in r <==> x in s
    ensures DupFree(r)
  {
    if s == [] then []
    else
      var n := |s| - 1;
      var init := Distinct(s[..n]);
      assert s == s[..n] + [s[n]];
      if s[n] in init then init else init + [s[n]]
  }

  ghost predicate DupFree<A>(s: seq<A>) {
    forall i, j :: 0 <= i < j < |s| ==> s[i] != s[j]
  }

  lemma MapLast<A, B>(f: A -> B, s: seq<A>, x: A)
    ensures Map(f, s + [x]) == Map(f, s) + [f(x)]
  {}

  lemma MapConcat<A, B>(f: A -> B, s: seq<A>, t: seq<A>)
    ensures Map(f, s + t) == Map(f, s) + Map(f, t)
  {}

  lemma FilterLast<A(!new)>(p: A -> bool, s: seq<A>, x: A)
    ensures Filter(p, s + [x]) == Filter(p, s) + if p(x) then [x] else []
  {
    assert (s + [x])[..|s|] == s;
  }

  lemma {:induction false} FilterConcat<A(!new)>(p: A -> bool, s: seq<A>, t: seq<A>)
    ensures Filter(p, s + t) == Filter(p, s) + Filter(p, t)
  {
    if t == [] {
      assert s + t == s;
    } else {
      var n := |t| - 1;
      assert s + t == (s + t[..n]) + [t[n]];
      FilterLast(p, s + t[..n], t[n]);
      FilterConcat(p, s, t[..n]);
    }
  }

  lemma FlatMapLast<A(!new), B(!new)>(f: A -> seq<B>, s: seq<A>, x: A)
    ensures FlatMap(f, s + [x]) == FlatMap(f, s) + f(x)
  {
    assert (s + [x])[..|s|] == s;
  }

  lemma {:induction false} FlatMapConcat<A(!new), B(!new)>(f: A -> seq<B>, s: seq<A>, t: seq<A>)
    ensures FlatMap(f, s + t) == FlatMap(f, s) + FlatMap(f, t)
  {
    if t == [] {
      assert s + t == s;
    } else {
      var n := |t| - 1;
      assert s + t == (s + t[..n]) + [t[n]];
      FlatMapLast(f, s + t[..n], t[n]);
      FlatMapConcat(f, s, t[..n]);
    }
  }

  lemma FlatMapOne<A(!new), B(!new)>(f: A -> seq<B>, x: A)
    ensures FlatMap(f, [x]) == f(x)
  {
    assert [x][..0] == [];
  }

  lemma {:induction false} FilterCong<A(!new)>(p: A -> bool, q: A -> bool, s: seq<A>)
    requires forall x :: x in s ==> p(x) == q(x)
    ensures Filter(p, s) == Filter(q, s)
  {
    if s != [] {
      var init, last := s[..|s| - 1], s[|s| - 1];
      assert s == init + [last] && last in s && forall x :: x in init ==> x in s;
      FilterCong(p, q, init);
      FilterLast(p, init, last);
      FilterLast(q, init, last);
    }
  }

  lemma {:induction false} FilterDupFree<A(!new)>(p: A -> bool, s: seq<A>)
    requires DupFree(s)
    ensures DupFree(Filter(p, s))
  {
    if s != [] {
      var n := |s| - 1;
      FilterDupFree(p, s[..n]);
      assert s[n] !in s[..n];
    }
  }

  /** Keeping the first occurrences before or after a projection gives the same distinct projections. */
  lemma {:induction false} DistinctMapDistinct<A(!new), B(!new)>(g: A -> B, s: seq<A>)
    ensures Distinct(Map(g, Distinct(s))) == Distinct(Map(g, s))
  {
    if s != [] {
      var n := |s| - 1;
      var init := s[..n];
      DistinctMapDistinct(g, init);
      assert s == init + [s[n]];
      MapLast(g, init, s[n]);
      assert Map(g, s)[..n] == Map(g, init);
      if s[n] in Distinct(init) {
        var i :| 0 <= i < |init| && init[i] == s[n];
        assert Map(g, init)[i] == g(s[n]);
      } else {
        MapLast(g, Distinct(init), s[n]);
        assert (Map(g, Distinct(init)) + [g(s[n])])[..|Distinct(init)|] == Map(g, Distinct(init));
      }
    }
  }

  lemma {:induction false} DupFreeCount<A>(s: seq<A>, x: A)
    requires DupFree(s)
    ensures multiset(s)[x] == if x in s then 1 else 0
  {
    if s != [] {
      var n := |s| - 1;
      assert s == s[..n] + [s[n]];
      assert s[n] !in s[..n];
      DupFreeCount(s[..n], x);
    }
  }

  /** Two duplicate-free lists of the same elements are permutations of each other. */
  lemma DupFreePermutation<A(!new)>(s: seq<A>, t: seq<A>)
    requires DupFree(s) && DupFree(t) && forall x :: x in s <==> x in t
    ensures multiset(s) == multiset(t)
  {
    forall x ensures multiset(s)[x] == multiset(t)[x] {
      DupFreeCount(s, x);
      DupFreeCount(t, x);
    }
  }

  lemma MapPick<A, B>(f: A -> B, a: seq<A>, x: A, b: seq<A>)
    ensures multiset(a + [x] + b) == multiset(a + b) + multiset{x}
    ensures multiset(Map(f, a + [x] + b)) == multiset(Map(f, a + b)) + multiset{f(x)}
  {
    MapConcat(f, a + [x], b);
    MapConcat(f, a, b);
    MapLast(f, a, x);
  }

  lemma {:induction false} MapPermutation<A, B>(f: A -> B, s: seq<A>, t: seq<A>)
    requires multiset(s) == multiset(t)
    ensures multiset(Map(f, s)) == multiset(Map(f, t))
    decreases |s|
  {
    if s == [] {
      assert |multiset(t)| == |t|;
    } else {
      var n := |s| - 1;
      var x := s[n];
      assert s == s[..n] + [x] + [];
      assert x in multiset(t);
      var i :| 0 <= i < |t| && t[i] == x;
      assert t == t[..i] + [x] + t[i + 1..];
      MapPick(f, s[..n], x, []);
      MapPick(f, t[..i], x, t[i + 1..]);
      assert s[..n] + [] == s[..n];
      assert multiset(s[..n]) == multiset(s) - multiset{x} == multiset(t[..i] + t[i + 1..]);
      MapPermutation(f, s[..n], t[..i] + t[i + 1..]);
    }
  }
}
