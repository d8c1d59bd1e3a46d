/** The join tree of a query. */
module JoinTree {
  // Breadth-first discovery from a root, pruning to the edges that lead to a required dataset, and
  // the choice of the root.

  import opened Options
  import opened JoinGraph
  import opened Nearest
  import opened Routes

  datatype Tree = Tree(root: Dataset, joins: seq<Relationship>)

  /** `ds` is the root or the target of one of the first `n` joins: its alias is bound there. */
  ghost predicate BoundBy(root: Dataset, joins: seq<Relationship>, n: nat, ds: Dataset)
    requires n <= |joins|
  {
    ds == root || exists k :: 0 <= k < n && joins[k].to == ds
  }

  /** Joins in an order in which every alias is bound before it is used, and bound once. */
  ghost predicate Ordered(root: Dataset, joins: seq<Relationship>) {
    && (forall k {:trigger BoundBy(root, joins, k, joins[k].from)} :: 0 <= k < |joins| ==> BoundBy(root, joins, k, joins[k].from))
    && (forall k :: 0 <= k < |joins| ==> joins[k].to != root)
    && (forall i, j :: 0 <= i < j < |joins| ==> joins[i].to != joins[j].to)
  }

  /** The datasets whose aliases the tree binds. */
  function InTree(t: Tree): set<Dataset> {
    {t.root} + set k | 0 <= k < |t.joins| :: t.joins[k].to
  }

  /** Every join serves a required dataset, directly or through a later join. */
  ghost predicate Pruned(joins: seq<Relationship>, required: set<Dataset>) {
    forall k :: 0 <= k < |joins| ==>
      joins[k].to in required || exists j :: k < j < |joins| && joins[j].from == joins[k].to
  }

  ghost predicate IsJoinTree(rels: seq<Relationship>, required: set<Dataset>, t: Tree) {
    && Ordered(t.root, t.joins)
    && (forall k :: 0 <= k < |t.joins| ==> t.joins[k] in rels)
    && required <= InTree(t)
    && Pruned(t.joins, required)
  }

  // ---------------------------------------------------------------- discovery

  ghost predicate Indices(rels: seq<Relationship>, disc: seq<nat>) {
    forall k :: 0 <= k < |disc| ==> disc[k] < |rels|
  }

  /** The relationships behind a list of discovered edge indices. */
  function Edges(rels: seq<Relationship>, disc: seq<nat>): (es: seq<Relationship>)
    requires Indices(rels, disc)
    ensures |es| == |disc| && forall k :: 0 <= k < |disc| ==> es[k] == rels[disc[k]]
  {
    seq(|disc|, k requires 0 <= k < |disc| => rels[disc[k]])
  }

  /** What the search keeps at every step: an ordered list of edges, the nodes they bind, and one parent edge per node. */
  ghost predicate Searched(rels: seq<Relationship>, root: Dataset, disc: seq<nat>, parent: map<Dataset, nat>, visited: set<Dataset>) {
    && Indices(rels, disc)
    && Ordered(root, Edges(rels, disc))
    && visited == InTree(Tree(root, Edges(rels, disc)))
    && parent.Keys == visited - {root}
    && (forall k :: 0 <= k < |disc| ==> rels[disc[k]].to in parent && parent[rels[disc[k]].to] == disc[k])
  }

  lemma InTreeAppend(root: Dataset, joins: seq<Relationship>, last: Relationship)
    ensures InTree(Tree(root, joins + [last])) == InTree(Tree(root, joins)) + {last.to}
  {
    var all := joins + [last];
    forall k | 0 <= k < |joins| ensures joins[k].to in InTree(Tree(root, all)) {
      assert all[k].to == joins[k].to;
    }
    assert all[|joins|].to == last.to;
  }

  lemma OrderedAppend(root: Dataset, joins: seq<Relationship>, last: Relationship)
    requires Ordered(root, joins)
    requires last.from in InTree(Tree(root, joins)) && last.to !in InTree(Tree(root, joins))
    ensures Ordered(root, joins + [last])
    ensures InTree(Tree(root, joins + [last])) == InTree(Tree(root, joins)) + {last.to}
  {
    var all := joins + [last];
    InTreeAppend(root, joins, last);
    forall k | 0 <= k < |all|
      ensures BoundBy(root, all, k, all[k].from)
    {
      if all[k].from != root {
        if k < |joins| {
          assert BoundBy(root, joins, k, joins[k].from);
        }
        var j :| 0 <= j < k && j < |joins| && joins[j].to == all[k].from;
        assert all[j].to == all[k].from;
      }
    }
    forall k | 0 <= k < |joins| ensures joins[k].to in InTree(Tree(root, joins)) {}
  }

  lemma SearchedExtend(rels: seq<Relationship>, root: Dataset, disc: seq<nat>, parent: map<Dataset, nat>, visited: set<Dataset>, i: nat)
    requires Searched(rels, root, disc, parent, visited) && i < |rels|
    requires rels[i].from in visited && rels[i].to !in visited
    ensures Searched(rels, root, disc + [i], parent[rels[i].to := i], visited + {rels[i].to})
  {
    var es := Edges(rels, disc);
    assert Edges(rels, disc + [i]) == es + [rels[i]];
    OrderedAppend(root, es, rels[i]);
  }

  /** The edges among the first `n` that leave `s` lead to `visited`. */
  ghost predicate LeadInto(rels: seq<Relationship>, n: nat, s: set<Dataset>, visited: set<Dataset>)
    requires n <= |rels|
  {
    forall k :: 0 <= k < n && rels[k].from in s ==> rels[k].to in visited
  }

  ghost function Targets(rels: seq<Relationship>): set<Dataset> {
    set k | 0 <= k < |rels| :: rels[k].to
  }

  function SetOf(s: seq<Dataset>): set<Dataset> {
    set ds | ds in s
  }

  lemma SetOfLast(s: seq<Dataset>, x: Dataset)
    ensures SetOf(s + [x]) == SetOf(s) + {x}
  {
  }

  /** What a search has found: the edges in order of discovery, the edge that led to each dataset, those visited and those still to be expanded. */
  datatype State = State(disc: seq<nat>, parent: map<Dataset, nat>, visited: set<Dataset>, queue: seq<Dataset>)

  /** The search after the first `n` edges have been looked at for `cur`. */
  ghost function ExpandTo(rels: seq<Relationship>, cur: Dataset, n: nat, st: State): State
    requires n <= |rels|
  {
    if n == 0 then st
    else
      Looked(rels, cur, ExpandTo(rels, cur, n - 1, st), n - 1)
  }

  /** Edge `i` looked at: followed if it leaves `cur` for a dataset not visited yet. */
  function Looked(rels: seq<Relationship>, cur: Dataset, s: State, i: nat): State
    requires i < |rels|
  {
    if rels[i].from == cur && rels[i].to !in s.visited then Found(s, rels[i].to, i) else s
  }

  /** One more dataset, found over edge `i`. */
  function Found(s: State, to: Dataset, i: nat): State {
    State(s.disc + [i], s.parent[to := i], s.visited + {to}, s.queue + [to])
  }

  /** The search after the first queued dataset has been expanded. */
  ghost function Turn(rels: seq<Relationship>, st: State): State
    requires st.queue != []
  {
    ExpandTo(rels, st.queue[0], |rels|, st.(queue := st.queue[1..]))
  }

  /** The search from a state on, until nothing is left to expand. */
  ghost function Search(rels: seq<Relationship>, root: Dataset, st: State): State
    decreases {root} + Targets(rels) - st.visited, |st.queue|
  {
    if st.queue == [] then st
    else
      TurnShrinks(rels, root, st);
      Search(rels, root, Turn(rels, st))
  }

  lemma {:induction false} ExpandGrows(rels: seq<Relationship>, cur: Dataset, n: nat, st: State)
    requires n <= |rels|
    ensures var r := ExpandTo(rels, cur, n, st);
            st.visited <= r.visited <= st.visited + Targets(rels) && (r.visited == st.visited ==> r.queue == st.queue)
  {
    if n > 0 {
      ExpandGrows(rels, cur, n - 1, st);
    }
  }

  /** A turn visits a new dataset or leaves less to expand. */
  lemma TurnShrinks(rels: seq<Relationship>, root: Dataset, st: State)
    requires st.queue != []
    ensures var next, all := Turn(rels, st), {root} + Targets(rels);
            all - next.visited < all - st.visited || (next.visited == st.visited && |next.queue| < |st.queue|)
  {
    var next := Turn(rels, st);
    ExpandGrows(rels, st.queue[0], |rels|, st.(queue := st.queue[1..]));
    if next.visited != st.visited {
      assert st.visited < next.visited;
      var ds :| ds in next.visited && ds !in st.visited;
      assert ds in Targets(rels);
    }
  }

  function Begin(root: Dataset): State {
    State([], map[], {root}, [root])
  }

  /** The edges a breadth-first search from `root` discovers, in order. */
  ghost function Bfs(rels: seq<Relationship>, root: Dataset): seq<nat> {
    Search(rels, root, Begin(root)).disc
  }

  /** The inner loop of the search: every edge that leaves `cur`, in spec order. */
  method Expand(rels: seq<Relationship>, cur: Dataset, st: State) returns (r: State)
    ensures r == ExpandTo(rels, cur, |rels|, st)
  {
    r := st;
    for i := 0 to |rels|
      invariant r == ExpandTo(rels, cur, i, st)
    {
      if rels[i].from == cur && rels[i].to !in r.visited {
        r := Found(r, rels[i].to, i);
      }
    }
  }

  /** Every visited dataset is finished (its edges lead to visited datasets) or still queued. */
  ghost predicate Frontier(rels: seq<Relationship>, visited: set<Dataset>, done: set<Dataset>, queue: seq<Dataset>) {
    visited == done + SetOf(queue) && LeadInto(rels, |rels|, done, visited)
  }

  /** Breadth-first search over the relationships in their order. */
  method Discover(rels: seq<Relationship>, root: Dataset)
    returns (disc: seq<nat>, parent: map<Dataset, nat>, visited: set<Dataset>)
    ensures Searched(rels, root, disc, parent, visited)
    ensures LeadInto(rels, |rels|, visited, visited)
    ensures disc == Bfs(rels, root) && ByFirstRoutes(rels, Tree(root, Edges(rels, disc)))
  {
    BfsByFirstRoutes(rels, root);
    var st := Begin(root);
    while |st.queue| > 0
      invariant Search(rels, root, Begin(root)) == Search(rels, root, st)
      decreases {root} + Targets(rels) - st.visited, |st.queue|
    {
      TurnShrinks(rels, root, st);
      var cur := st.queue[0];
      st := Expand(rels, cur, st.(queue := st.queue[1..]));
    }
    SearchIsDone(rels, root);
    return st.disc, st.parent, st.visited;
  }

  lemma FoundKeeps(rels: seq<Relationship>, root: Dataset, s: State, i: nat)
    requires i < |rels| && Searched(rels, root, s.disc, s.parent, s.visited)
    requires rels[i].from in s.visited && rels[i].to !in s.visited
    ensures var r := Found(s, rels[i].to, i); Searched(rels, root, r.disc, r.parent, r.visited)
  {
    SearchedExtend(rels, root, s.disc, s.parent, s.visited, i);
  }

  /** Expanding a dataset keeps the search in order and follows every edge that leaves it. */
  lemma {:induction false} ExpandKeeps(rels: seq<Relationship>, root: Dataset, cur: Dataset, n: nat, st: State)
    requires n <= |rels| && Searched(rels, root, st.disc, st.parent, st.visited) && cur in st.visited
    ensures var r := ExpandTo(rels, cur, n, st); Searched(rels, root, r.disc, r.parent, r.visited)
  {
    if n > 0 {
      ExpandKeeps(rels, root, cur, n - 1, st);
      ExpandGrows(rels, cur, n - 1, st);
      var s := ExpandTo(rels, cur, n - 1, st);
      if rels[n - 1].from == cur && rels[n - 1].to !in s.visited {
        FoundKeeps(rels, root, s, n - 1);
      }
    }
  }

  lemma {:induction false} ExpandFollows(rels: seq<Relationship>, cur: Dataset, n: nat, st: State)
    requires n <= |rels|
    ensures LeadInto(rels, n, {cur}, ExpandTo(rels, cur, n, st).visited)
  {
    if n > 0 {
      ExpandFollows(rels, cur, n - 1, st);
    }
  }

  /** What is newly visited is queued, and nothing else. */
  lemma {:induction false} ExpandQueues(rels: seq<Relationship>, cur: Dataset, n: nat, st: State)
    requires n <= |rels|
    ensures var r := ExpandTo(rels, cur, n, st);
            forall ds :: ds in r.visited || ds in SetOf(st.queue) <==> ds in st.visited || ds in SetOf(r.queue)
    ensures SetOf(st.queue) <= SetOf(ExpandTo(rels, cur, n, st).queue)
  {
    if n > 0 {
      ExpandQueues(rels, cur, n - 1, st);
      var s := ExpandTo(rels, cur, n - 1, st);
      SetOfLast(s.queue, rels[n - 1].to);
    }
  }

  lemma FrontierTurn(rels: seq<Relationship>, st: State, done: set<Dataset>)
    requires st.queue != [] && Frontier(rels, st.visited, done, st.queue)
    ensures Frontier(rels, Turn(rels, st).visited, done + {st.queue[0]}, Turn(rels, st).queue)
  {
    var cur, rest := st.queue[0], st.(queue := st.queue[1..]);
    assert st.queue == [cur] + st.queue[1..];
    ExpandGrows(rels, cur, |rels|, rest);
    ExpandQueues(rels, cur, |rels|, rest);
    ExpandFollows(rels, cur, |rels|, rest);
  }

  /** A finished search is in order, and no edge leaves it. */
  lemma {:induction false} SearchKeeps(rels: seq<Relationship>, root: Dataset, st: State, done: set<Dataset>)
    requires Searched(rels, root, st.disc, st.parent, st.visited) && Frontier(rels, st.visited, done, st.queue)
    ensures var r := Search(rels, root, st); Searched(rels, root, r.disc, r.parent, r.visited) && LeadInto(rels, |rels|, r.visited, r.visited)
    decreases {root} + Targets(rels) - st.visited, |st.queue|
  {
    if st.queue != [] {
      assert st.queue[0] in SetOf(st.queue);
      ExpandKeeps(rels, root, st.queue[0], |rels|, st.(queue := st.queue[1..]));
      FrontierTurn(rels, st, done);
      TurnShrinks(rels, root, st);
      SearchKeeps(rels, root, Turn(rels, st), done + {st.queue[0]});
    }
  }

  lemma SearchIsDone(rels: seq<Relationship>, root: Dataset)
    ensures var r := Search(rels, root, Begin(root)); Searched(rels, root, r.disc, r.parent, r.visited) && LeadInto(rels, |rels|, r.visited, r.visited)
  {
    assert Edges(rels, []) == [] && InTree(Tree(root, [])) == {root};
    SearchKeeps(rels, root, Begin(root), {});
  }

  // ------------------------------------------------------------ breadth first

  /** A tree joins each of its datasets over the first of all routes from the root, in the order of these routes. */
  ghost predicate ByFirstRoutes(rels: seq<Relationship>, t: Tree) {
    && (forall ds :: ds in InTree(t) ==> OverFirst(rels, t.root, t.joins, ds))
    && InRouteOrder(rels, t.root, t.joins)
  }

  /** The chain of joins to a dataset is no longer than any path there. */
  ghost predicate Shortest(rels: seq<Relationship>, t: Tree) {
    forall ds, p :: ds in InTree(t) && PathBetween(rels, p, t.root, ds) ==> |Chain(t.joins, ds)| <= |p| - 1
  }

  lemma FirstRoutesAreShortest(rels: seq<Relationship>, t: Tree)
    requires ByFirstRoutes(rels, t)
    ensures Shortest(rels, t)
  {
    forall ds, p | ds in InTree(t) && PathBetween(rels, p, t.root, ds) ensures |Chain(t.joins, ds)| <= |p| - 1 {
      var c :| FirstRoute(rels, t.root, c, ds) && ChainIs(rels, t.joins, ds, c);
      FirstIsShortest(rels, t.root, c, ds, p);
    }
  }

  /** The `k`-th edge led to the dataset found after `k` others and the root. */
  ghost predicate FoundAs(rels: seq<Relationship>, disc: seq<nat>, ns: seq<Dataset>, k: nat)
    requires Indices(rels, disc) && |ns| == |disc| + 1 && k < |disc|
  {
    ns[k + 1] == rels[disc[k]].to
  }

  /** The datasets found, root first, with the routes over which they were found. */
  ghost predicate FoundOver(rels: seq<Relationship>, root: Dataset, disc: seq<nat>, visited: set<Dataset>, ns: seq<Dataset>, cs: seq<seq<nat>>) {
    && Indices(rels, disc) && |cs| == |ns| == |disc| + 1 && ns[0] == root
    && (forall k :: 0 <= k < |disc| ==> FoundAs(rels, disc, ns, k))
    && visited == SetOf(ns) && Chained(rels, Edges(rels, disc), ns, cs)
  }

  /** The dataset at `m` is being expanded; those after it are queued. */
  ghost predicate Expanding(rels: seq<Relationship>, root: Dataset, st: State, ns: seq<Dataset>, cs: seq<seq<nat>>, m: nat, n: nat) {
    FoundOver(rels, root, st.disc, st.visited, ns, cs) && Wave(rels, root, ns, cs, m, n) && st.queue == ns[m + 1..]
  }

  lemma FoundTracks(rels: seq<Relationship>, root: Dataset, s: State, ns: seq<Dataset>, cs: seq<seq<nat>>, m: nat, n: nat, next: nat)
    requires Expanding(rels, root, s, ns, cs, m, n) && n < |rels| && rels[n].from == ns[m] && rels[n].to !in s.visited && next == n + 1
    ensures Expanding(rels, root, Found(s, rels[n].to, n), ns + [rels[n].to], cs + [cs[m] + [n]], m, next)
  {
    WaveFound(rels, root, ns, cs, m, n, next);
    FoundOverMore(rels, root, s.disc, s.visited, ns, cs, m, n);
    SuffixMore(ns, rels[n].to, m + 1);
  }

  lemma SuffixMore(ns: seq<Dataset>, x: Dataset, k: nat)
    requires k <= |ns|
    ensures (ns + [x])[k..] == ns[k..] + [x]
  {}

  lemma FoundOverMore(rels: seq<Relationship>, root: Dataset, disc: seq<nat>, visited: set<Dataset>, ns: seq<Dataset>, cs: seq<seq<nat>>, m: nat, n: nat)
    requires FoundOver(rels, root, disc, visited, ns, cs) && m < |ns| && n < |rels| && rels[n].from == ns[m] && rels[n].to !in visited
    ensures FoundOver(rels, root, disc + [n], visited + {rels[n].to}, ns + [rels[n].to], cs + [cs[m] + [n]])
  {
    forall k | 0 <= k < |disc + [n]| ensures FoundAs(rels, disc + [n], ns + [rels[n].to], k) {
      assert k < |disc| ==> FoundAs(rels, disc, ns, k);
    }
    SetOfLast(ns, rels[n].to);
    ChainedMore(rels, Edges(rels, disc), ns, cs, m, n);
    assert Edges(rels, disc + [n]) == Edges(rels, disc) + [rels[n]];
  }

  ghost predicate At(rels: seq<Relationship>, root: Dataset, cur: Dataset, st: State, ns: seq<Dataset>, cs: seq<seq<nat>>, m: nat, n: nat) {
    Expanding(rels, root, st, ns, cs, m, n) && ns[m] == cur
  }

  ghost predicate Stands(rels: seq<Relationship>, root: Dataset, cur: Dataset, st: State, m: nat, n: nat) {
    exists ns, cs :: At(rels, root, cur, st, ns, cs, m, n)
  }

  lemma FoundAt(rels: seq<Relationship>, root: Dataset, cur: Dataset, s: State, ns: seq<Dataset>, cs: seq<seq<nat>>, m: nat, e: nat, next: nat)
    requires At(rels, root, cur, s, ns, cs, m, e) && e < |rels| && next == e + 1 && rels[e].from == cur && rels[e].to !in s.visited
    ensures At(rels, root, cur, Found(s, rels[e].to, e), ns + [rels[e].to], cs + [cs[m] + [e]], m, next)
  {
    FoundTracks(rels, root, s, ns, cs, m, e, next);
  }

  lemma SkippedAt(rels: seq<Relationship>, root: Dataset, cur: Dataset, s: State, ns: seq<Dataset>, cs: seq<seq<nat>>, m: nat, e: nat, next: nat)
    requires At(rels, root, cur, s, ns, cs, m, e) && e < |rels| && next == e + 1 && (rels[e].from != cur || rels[e].to in s.visited)
    ensures At(rels, root, cur, s, ns, cs, m, next)
  {
    WaveSkipped(rels, root, ns, cs, m, e, next);
  }

  lemma StepTracks(rels: seq<Relationship>, root: Dataset, cur: Dataset, s: State, m: nat, e: nat, next: nat)
    requires Stands(rels, root, cur, s, m, e) && e < |rels| && next == e + 1
    ensures Stands(rels, root, cur, Looked(rels, cur, s, e), m, next)
  {
    var ns, cs :| At(rels, root, cur, s, ns, cs, m, e);
    if rels[e].from == cur && rels[e].to !in s.visited {
      FoundAt(rels, root, cur, s, ns, cs, m, e, next);
    } else {
      SkippedAt(rels, root, cur, s, ns, cs, m, e, next);
    }
  }

  lemma {:induction false} ExpandTracks(rels: seq<Relationship>, root: Dataset, cur: Dataset, n: nat, st: State, m: nat)
    requires n <= |rels| && Stands(rels, root, cur, st, m, 0)
    ensures Stands(rels, root, cur, ExpandTo(rels, cur, n, st), m, n)
  {
    if n > 0 {
      ExpandTracks(rels, root, cur, n - 1, st, m);
      StepTracks(rels, root, cur, ExpandTo(rels, cur, n - 1, st), m, n - 1, n);
    }
  }

  /** Whatever is queued was found in order and is next to be expanded. */
  ghost predicate Tracked(rels: seq<Relationship>, root: Dataset, st: State, ns: seq<Dataset>, cs: seq<seq<nat>>, m: nat) {
    && FoundOver(rels, root, st.disc, st.visited, ns, cs) && m <= |ns| && st.queue == ns[m..]
    && Sorted(cs) && AllFirst(rels, root, ns, cs) && (m < |ns| ==> Wave(rels, root, ns, cs, m, 0))
  }

  lemma TurnTracks(rels: seq<Relationship>, root: Dataset, st: State, ns0: seq<Dataset>, cs0: seq<seq<nat>>, m: nat)
    returns (ns: seq<Dataset>, cs: seq<seq<nat>>)
    requires Tracked(rels, root, st, ns0, cs0, m) && st.queue != []
    ensures Tracked(rels, root, Turn(rels, st), ns, cs, m + 1)
  {
    assert st.queue[0] == ns0[m] && st.queue[1..] == ns0[m + 1..];
    var cur, rest := st.queue[0], st.(queue := st.queue[1..]);
    assert At(rels, root, cur, rest, ns0, cs0, m, 0);
    ExpandTracks(rels, root, cur, |rels|, rest, m);
    var ns1, cs1 :| At(rels, root, cur, Turn(rels, st), ns1, cs1, m, |rels|);
    ns, cs := ns1, cs1;
    TurnEnds(rels, root, cur, Turn(rels, st), ns, cs, m);
  }

  lemma TurnEnds(rels: seq<Relationship>, root: Dataset, cur: Dataset, st: State, ns: seq<Dataset>, cs: seq<seq<nat>>, m: nat)
    requires At(rels, root, cur, st, ns, cs, m, |rels|)
    ensures Tracked(rels, root, st, ns, cs, m + 1)
  {
    if m + 1 < |ns| {
      WaveNext(rels, root, ns, cs, m);
    }
  }

  lemma {:induction false} SearchTracks(rels: seq<Relationship>, root: Dataset, st: State, ns0: seq<Dataset>, cs0: seq<seq<nat>>, m: nat)
    returns (ns: seq<Dataset>, cs: seq<seq<nat>>)
    requires Tracked(rels, root, st, ns0, cs0, m)
    ensures var r := Search(rels, root, st); FoundOver(rels, root, r.disc, r.visited, ns, cs) && Sorted(cs) && AllFirst(rels, root, ns, cs)
    decreases {root} + Targets(rels) - st.visited, |st.queue|
  {
    if st.queue == [] {
      ns, cs := ns0, cs0;
    } else {
      ns, cs := TurnTracks(rels, root, st, ns0, cs0, m);
      TurnShrinks(rels, root, st);
      ns, cs := SearchTracks(rels, root, Turn(rels, st), ns, cs, m + 1);
    }
  }

  lemma FoundByFirstRoutes(rels: seq<Relationship>, root: Dataset, disc: seq<nat>, visited: set<Dataset>, ns: seq<Dataset>, cs: seq<seq<nat>>)
    requires FoundOver(rels, root, disc, visited, ns, cs) && Sorted(cs) && AllFirst(rels, root, ns, cs)
    ensures ByFirstRoutes(rels, Tree(root, Edges(rels, disc)))
  {
    var es := Edges(rels, disc);
    forall ds | ds in InTree(Tree(root, es)) ensures OverFirst(rels, root, es, ds) {
      var i := 0;
      if ds != root {
        var k :| 0 <= k < |es| && es[k].to == ds;
        assert FoundAs(rels, disc, ns, k);
        i := k + 1;
      }
      assert ns[i] == ds && FirstRoute(rels, root, cs[i], ns[i]) && ChainIs(rels, es, ns[i], cs[i]);
    }
    forall k | 0 <= k < |es| ensures ns[k + 1] == es[k].to {
      assert FoundAs(rels, disc, ns, k);
    }
    SortedInOrder(rels, root, es, ns, cs);
  }

  /** The search finds every dataset over the first of all routes to it. */
  lemma BfsByFirstRoutes(rels: seq<Relationship>, root: Dataset)
    ensures Indices(rels, Bfs(rels, root)) && ByFirstRoutes(rels, Tree(root, Edges(rels, Bfs(rels, root))))
  {
    WaveStart(rels, root);
    assert Edges(rels, []) == [] && [root][0..] == [root] && SetOf([root]) == {root};
    assert ChainIs(rels, [], root, []);
    var ns, cs := SearchTracks(rels, root, Begin(root), [root], [[]], 0);
    var r := Search(rels, root, Begin(root));
    FoundByFirstRoutes(rels, root, r.disc, r.visited, ns, cs);
  }

  /** Everything a search bound is reachable from its root. */
  lemma {:induction false} BoundIsReachable(rels: seq<Relationship>, t: Tree, n: nat, ds: Dataset)
    requires Ordered(t.root, t.joins) && n <= |t.joins|
    requires forall k :: 0 <= k < |t.joins| ==> t.joins[k] in rels
    requires BoundBy(t.root, t.joins, n, ds)
    ensures Reaches(rels, t.root, ds)
    decreases n
  {
    if ds == t.root {
      ReachesSelf(rels, ds);
    } else {
      var k :| 0 <= k < n && t.joins[k].to == ds;
      BoundIsReachable(rels, t, k, t.joins[k].from);
      assert Edge(rels, t.joins[k].from, ds);
      ReachesStep(rels, t.root, t.joins[k].from, ds);
    }
  }

  /** A finished search has visited exactly what the root reaches. */
  lemma VisitedIsReachable(rels: seq<Relationship>, root: Dataset, disc: seq<nat>, parent: map<Dataset, nat>, visited: set<Dataset>, ds: Dataset)
    requires Searched(rels, root, disc, parent, visited) && LeadInto(rels, |rels|, visited, visited)
    ensures ds in visited <==> Reaches(rels, root, ds)
  {
    var t := Tree(root, Edges(rels, disc));
    if ds in visited {
      BoundIsReachable(rels, t, |t.joins|, ds);
    }
    if Reaches(rels, root, ds) {
      var p :| PathBetween(rels, p, root, ds);
      ClosedHoldsPath(rels, visited, p);
    }
  }

  // ------------------------------------------------------------------ pruning

  /** The pruned joins, computed from the last discovered edge backwards. */
  function Prune(rels: seq<Relationship>, disc: seq<nat>, required: set<Dataset>): seq<Relationship>
    requires Indices(rels, disc)
  {
    if disc == [] then []
    else
      var init, last := disc[..|disc| - 1], rels[disc[|disc| - 1]];
      if last.to in required then Prune(rels, init, required - {last.to} + {last.from}) + [last]
      else Prune(rels, init, required)
  }

  lemma {:induction false} PruneIsTree(rels: seq<Relationship>, root: Dataset, disc: seq<nat>, required: set<Dataset>)
    requires Indices(rels, disc) && Ordered(root, Edges(rels, disc))
    requires required <= InTree(Tree(root, Edges(rels, disc)))
    ensures IsJoinTree(rels, required, Tree(root, Prune(rels, disc, required)))
    ensures InTree(Tree(root, Prune(rels, disc, required))) <= InTree(Tree(root, Edges(rels, disc)))
  {
    if disc != [] {
      var init, last := disc[..|disc| - 1], rels[disc[|disc| - 1]];
      var es, es0 := Edges(rels, disc), Edges(rels, init);
      assert es == es0 + [last];
      OrderedInit(root, es0, last);
      if last.to in required {
        PruneIsTree(rels, root, init, required - {last.to} + {last.from});
        TreeGrows(rels, required, Tree(root, Prune(rels, init, required - {last.to} + {last.from})), last);
      } else {
        PruneIsTree(rels, root, init, required);
      }
    }
  }

  /** Pruning leaves the chains of joins to what it keeps as they were, and the joins in their order. */
  lemma {:induction false} PruneKeepsChains(rels: seq<Relationship>, root: Dataset, disc: seq<nat>, required: set<Dataset>)
    requires Indices(rels, disc) && Ordered(root, Edges(rels, disc)) && required <= InTree(Tree(root, Edges(rels, disc)))
    requires InRouteOrder(rels, root, Edges(rels, disc))
    ensures var es, pruned := Edges(rels, disc), Prune(rels, disc, required);
            && (forall ds :: ds in InTree(Tree(root, pruned)) ==> Chain(pruned, ds) == Chain(es, ds))
            && InRouteOrder(rels, root, pruned) && forall e :: e in pruned ==> e in es
  {
    if disc != [] {
      var init, last := disc[..|disc| - 1], rels[disc[|disc| - 1]];
      var es := Edges(rels, init);
      assert Edges(rels, disc) == es + [last];
      OrderedInit(root, es, last);
      OrderInit(rels, root, es, last);
      var inner := if last.to in required then required - {last.to} + {last.from} else required;
      PruneIsTree(rels, root, init, inner);
      PruneKeepsChains(rels, root, init, inner);
      LastChains(rels, root, es, last, Prune(rels, init, inner), inner, last.to in required);
    }
  }

  lemma OrderInit(rels: seq<Relationship>, root: Dataset, es: seq<Relationship>, last: Relationship)
    requires InRouteOrder(rels, root, es + [last])
    ensures InRouteOrder(rels, root, es) && forall e :: e in es ==> RoutesInOrder(rels, root, e.to, last.to)
  {
    var all := es + [last];
    forall i, j | 0 <= i < j < |es| ensures RoutesInOrder(rels, root, es[i].to, es[j].to) {
      assert all[i] == es[i] && all[j] == es[j];
    }
    forall e | e in es ensures RoutesInOrder(rels, root, e.to, last.to) {
      var i :| 0 <= i < |es| && es[i] == e;
      assert all[i] == e && all[|es|] == last;
    }
  }

  lemma LastChains(rels: seq<Relationship>, root: Dataset, es: seq<Relationship>, last: Relationship, pruned: seq<Relationship>, inner: set<Dataset>, wanted: bool)
    requires last.to !in InTree(Tree(root, es)) && InTree(Tree(root, pruned)) <= InTree(Tree(root, es)) && (wanted ==> last.from in InTree(Tree(root, pruned)))
    requires (forall ds :: ds in InTree(Tree(root, pruned)) ==> Chain(pruned, ds) == Chain(es, ds)) && (forall e :: e in pruned ==> e in es)
    requires InRouteOrder(rels, root, pruned) && forall e :: e in es ==> RoutesInOrder(rels, root, e.to, last.to)
    ensures var all := if wanted then pruned + [last] else pruned;
            && (forall ds :: ds in InTree(Tree(root, all)) ==> Chain(all, ds) == Chain(es + [last], ds))
            && InRouteOrder(rels, root, all) && forall e :: e in all ==> e in es + [last]
  {
    var all := if wanted then pruned + [last] else pruned;
    InTreeAppend(root, pruned, last);
    forall ds | ds in InTree(Tree(root, all)) ensures Chain(all, ds) == Chain(es + [last], ds) {
      ChainLast(es, last, ds);
      ChainLast(pruned, last, ds);
    }
    forall i, j | 0 <= i < j < |all| ensures RoutesInOrder(rels, root, all[i].to, all[j].to) {
      assert all[i] == pruned[i] && pruned[i] in pruned;
    }
  }

  /** Dropping the last edge leaves an ordered list whose tree binds the edge's source and not its target. */
  lemma OrderedInit(root: Dataset, joins: seq<Relationship>, last: Relationship)
    requires Ordered(root, joins + [last])
    ensures Ordered(root, joins)
    ensures last.from in InTree(Tree(root, joins)) && last.to !in InTree(Tree(root, joins))
    ensures InTree(Tree(root, joins + [last])) == InTree(Tree(root, joins)) + {last.to}
  {
    var all := joins + [last];
    forall k | 0 <= k < |all|
      ensures k < |joins| ==> joins[k] == all[k] && BoundBy(root, joins, k, joins[k].from)
      ensures all[k].to != root
    {
      assert BoundBy(root, all, k, all[k].from);
      if k < |joins| && all[k].from != root {
        var j :| 0 <= j < k && all[j].to == all[k].from;
        assert joins[j].to == joins[k].from;
      }
    }
    assert BoundBy(root, all, |joins|, all[|joins|].from);
    if last.from != root {
      var j :| 0 <= j < |joins| && all[j].to == last.from;
      assert joins[j].to == last.from;
    }
    InTreeAppend(root, joins, last);
  }

  /** Appending a needed edge turns a tree for its source into a tree for its target. */
  lemma TreeGrows(rels: seq<Relationship>, required: set<Dataset>, t: Tree, last: Relationship)
    requires last in rels && last.to in required
    requires IsJoinTree(rels, required - {last.to} + {last.from}, t)
    requires last.to !in InTree(t)
    ensures IsJoinTree(rels, required, Tree(t.root, t.joins + [last]))
    ensures InTree(Tree(t.root, t.joins + [last])) == InTree(t) + {last.to}
  {
    var all := t.joins + [last];
    OrderedAppend(t.root, t.joins, last);
    forall k | 0 <= k < |all|
      ensures all[k].to in required || exists j :: k < j < |all| && all[j].from == all[k].to
    {
      if k < |t.joins| && all[k].to !in required {
        if t.joins[k].to == last.from {
          assert all[|t.joins|].from == all[k].to;
        } else {
          var j :| k < j < |t.joins| && t.joins[j].from == t.joins[k].to;
          assert all[j].from == all[k].to;
        }
      }
    }
  }

  /** The tree is the pruned search from its root: nothing else is ever planned. */
  ghost predicate Planned(rels: seq<Relationship>, required: set<Dataset>, t: Tree) {
    Indices(rels, Bfs(rels, t.root)) && t.joins == Prune(rels, Bfs(rels, t.root), required)
  }

  /** The search from a root binds exactly what the root reaches, in order. */
  lemma BfsReaches(rels: seq<Relationship>, root: Dataset)
    ensures Indices(rels, Bfs(rels, root)) && Ordered(root, Edges(rels, Bfs(rels, root)))
    ensures forall ds :: ds in InTree(Tree(root, Edges(rels, Bfs(rels, root)))) <==> Reaches(rels, root, ds)
  {
    SearchIsDone(rels, root);
    var r := Search(rels, root, Begin(root));
    forall ds ensures ds in r.visited <==> Reaches(rels, root, ds) {
      VisitedIsReachable(rels, root, r.disc, r.parent, r.visited, ds);
    }
  }

  /** A planned tree joins what it binds over the first routes. */
  lemma PlannedByFirstRoutes(rels: seq<Relationship>, required: set<Dataset>, t: Tree)
    requires Planned(rels, required, t) && Covers(rels, t.root, required)
    ensures ByFirstRoutes(rels, t) && Shortest(rels, t)
  {
    var disc := Bfs(rels, t.root);
    BfsReaches(rels, t.root);
    BfsByFirstRoutes(rels, t.root);
    PruneIsTree(rels, t.root, disc, required);
    PruneKeepsChains(rels, t.root, disc, required);
    forall ds | ds in InTree(t) ensures OverFirst(rels, t.root, t.joins, ds) {
      var c :| FirstRoute(rels, t.root, c, ds) && ChainIs(rels, Edges(rels, disc), ds, c);
      assert ChainIs(rels, t.joins, ds, c);
    }
    FirstRoutesAreShortest(rels, t);
  }

  /** From a root that reaches what is required there is a planned tree, and only one. */
  lemma PlannedFrom(rels: seq<Relationship>, required: set<Dataset>, root: Dataset) returns (t: Tree)
    requires Covers(rels, root, required)
    ensures t.root == root && Planned(rels, required, t) && IsJoinTree(rels, required, t)
  {
    BfsReaches(rels, root);
    PruneIsTree(rels, root, Bfs(rels, root), required);
    t := Tree(root, Prune(rels, Bfs(rels, root), required));
  }

  // -------------------------------------------------------- the parent walks

  /** Edge `k` leads to a dataset of `required` or to the source of an edge already marked. */
  ghost predicate Wanted(rels: seq<Relationship>, disc: seq<nat>, needed: set<nat>, required: set<Dataset>, k: nat)
    requires Indices(rels, disc) && k < |disc|
  {
    rels[disc[k]].to in required || exists j :: k < j < |disc| && disc[j] in needed && rels[disc[j]].from == rels[disc[k]].to
  }

  /** The marked edges are the wanted ones, up to those that lead to `cur`, where the walk stands. */
  ghost predicate Walking(rels: seq<Relationship>, disc: seq<nat>, needed: set<nat>, required: set<Dataset>, cur: Dataset)
    requires Indices(rels, disc)
  {
    && (forall k :: 0 <= k < |disc| && disc[k] in needed ==> Wanted(rels, disc, needed, required, k))
    && (forall k :: 0 <= k < |disc| && rels[disc[k]].to != cur && Wanted(rels, disc, needed, required, k) ==> disc[k] in needed)
    && (forall k :: 0 <= k < |disc| && rels[disc[k]].to == cur ==> Wanted(rels, disc, needed, required, k))
  }

  /** The marked edges are exactly the wanted ones. */
  ghost predicate Settled(rels: seq<Relationship>, disc: seq<nat>, needed: set<nat>, required: set<Dataset>)
    requires Indices(rels, disc)
  {
    forall k :: 0 <= k < |disc| ==> (disc[k] in needed <==> Wanted(rels, disc, needed, required, k))
  }

  lemma WalkStart(rels: seq<Relationship>, root: Dataset, disc: seq<nat>, needed: set<nat>, required: set<Dataset>, ds: Dataset)
    requires Indices(rels, disc) && Ordered(root, Edges(rels, disc))
    requires Settled(rels, disc, needed, required)
    ensures Walking(rels, disc, needed, required + {ds}, ds)
  {
    forall k | 0 <= k < |disc|
      ensures Wanted(rels, disc, needed, required + {ds}, k) <==> rels[disc[k]].to == ds || Wanted(rels, disc, needed, required, k)
    {}
  }

  lemma WalkStep(rels: seq<Relationship>, root: Dataset, disc: seq<nat>, needed: set<nat>, required: set<Dataset>, k0: nat)
    requires Indices(rels, disc) && Ordered(root, Edges(rels, disc)) && k0 < |disc|
    requires Walking(rels, disc, needed, required, rels[disc[k0]].to)
    ensures Walking(rels, disc, needed + {disc[k0]}, required, rels[disc[k0]].from)
  {
    var es, cur := Edges(rels, disc), rels[disc[k0]].to;
    var needed' := needed + {disc[k0]};
    forall k | 0 <= k < |disc|
      ensures Wanted(rels, disc, needed, required, k) ==> Wanted(rels, disc, needed', required, k)
      ensures Wanted(rels, disc, needed', required, k) ==> Wanted(rels, disc, needed, required, k) || es[k].to == es[k0].from
      ensures es[k].to == es[k0].from ==> Wanted(rels, disc, needed', required, k)
      ensures disc[k] == disc[k0] ==> k == k0
      ensures es[k].to == cur ==> k == k0
    {
      assert es[k].to == rels[disc[k]].to && es[k0].to == rels[disc[k0]].to;
      if es[k].to == es[k0].from {
        assert BoundBy(root, es, k0, es[k0].from);
        var j :| 0 <= j < k0 && es[j].to == es[k0].from;
        assert k == j;
      }
      if Wanted(rels, disc, needed', required, k) && rels[disc[k]].to !in required {
        var j :| k < j < |disc| && disc[j] in needed' && rels[disc[j]].from == rels[disc[k]].to;
        assert disc[j] in needed || rels[disc[j]].from == es[k0].from;
      }
    }
  }

  /** Taking the last edge away, an earlier one is wanted as before, now possibly for the last one's source. */
  lemma WantedBefore(rels: seq<Relationship>, disc: seq<nat>, needed: set<nat>, required: set<Dataset>, inner: set<Dataset>, k: nat)
    requires Indices(rels, disc) && k + 1 < |disc|
    requires var last := rels[disc[|disc| - 1]];
             && (disc[|disc| - 1] in needed <==> last.to in required)
             && inner == (if last.to in required then required - {last.to} + {last.from} else required)
             && rels[disc[k]].to != last.to
    ensures Wanted(rels, disc, needed, required, k) <==> Wanted(rels, disc[..|disc| - 1], needed, inner, k)
  {
    var n := |disc| - 1;
    var init := disc[..n];
    if Wanted(rels, disc, needed, required, k) && rels[disc[k]].to !in required {
      var j :| k < j < |disc| && disc[j] in needed && rels[disc[j]].from == rels[disc[k]].to;
      assert j < n ==> init[j] in needed;
    }
    if Wanted(rels, init, needed, inner, k) && rels[disc[k]].to !in inner {
      var j :| k < j < n && init[j] in needed && rels[init[j]].from == rels[init[k]].to;
      assert disc[j] in needed;
    }
  }

  lemma {:induction false} WalkedIsPrune(rels: seq<Relationship>, root: Dataset, disc: seq<nat>, needed: set<nat>, required: set<Dataset>)
    requires Indices(rels, disc) && Ordered(root, Edges(rels, disc))
    requires Settled(rels, disc, needed, required)
    ensures Prune(rels, disc, required) == Marked(rels, disc, needed)
  {
    if disc != [] {
      var n := |disc| - 1;
      var init, last := disc[..n], rels[disc[n]];
      var es := Edges(rels, disc);
      assert es == Edges(rels, init) + [last];
      OrderedInit(root, Edges(rels, init), last);
      var inner := if last.to in required then required - {last.to} + {last.from} else required;
      assert disc[n] in needed <==> last.to in required;
      forall k | 0 <= k < n
        ensures disc[k] in needed <==> Wanted(rels, init, needed, inner, k)
      {
        assert es[k].to == rels[disc[k]].to && es[n] == last && es[k].to != es[n].to;
        WantedBefore(rels, disc, needed, required, inner, k);
      }
      WalkedIsPrune(rels, root, init, needed, inner);
    }
  }

  /** The marked edges in discovery order. */
  function Marked(rels: seq<Relationship>, disc: seq<nat>, needed: set<nat>): seq<Relationship>
    requires Indices(rels, disc)
  {
    if disc == [] then []
    else
      var n := |disc| - 1;
      Marked(rels, disc[..n], needed) + if disc[n] in needed then [rels[disc[n]]] else []
  }

  /** Walks the parent edges from `ds` to the root, marking each. */
  method Walk(rels: seq<Relationship>, root: Dataset, disc: seq<nat>, parent: map<Dataset, nat>, ghost visited: set<Dataset>,
              ds: Dataset, needed0: set<nat>, ghost required: set<Dataset>)
    returns (needed: set<nat>)
    requires Searched(rels, root, disc, parent, visited) && ds in visited
    requires Walking(rels, disc, needed0, required, ds)
    ensures Settled(rels, disc, needed, required)
  {
    needed := needed0;
    var cur := ds;
    ghost var n := |disc|;
    while cur != root
      invariant 0 <= n <= |disc| && BoundBy(root, Edges(rels, disc), n, cur)
      invariant Walking(rels, disc, needed, required, cur)
      decreases n
    {
      ghost var k :| 0 <= k < n && Edges(rels, disc)[k].to == cur;
      assert BoundBy(root, Edges(rels, disc), k, Edges(rels, disc)[k].from);
      WalkStep(rels, root, disc, needed, required, k);
      var rel := parent[cur];
      needed := needed + {rel};
      cur := rels[rel].from;
      n := k;
    }
    WalkEnd(rels, root, disc, needed, required);
  }

  lemma WalkEnd(rels: seq<Relationship>, root: Dataset, disc: seq<nat>, needed: set<nat>, required: set<Dataset>)
    requires Indices(rels, disc) && Ordered(root, Edges(rels, disc))
    requires Walking(rels, disc, needed, required, root)
    ensures Settled(rels, disc, needed, required)
  {
    forall k | 0 <= k < |disc| ensures rels[disc[k]].to != root {
      assert Edges(rels, disc)[k].to == rels[disc[k]].to;
    }
  }

  /**
   The joins from `root` to every required dataset, or failure. The required
   datasets are visited in any order; the result is the pruning of the search.
   */
  method Reach(rels: seq<Relationship>, root: Dataset, required: set<Dataset>)
    returns (joins: seq<Relationship>, ok: bool)
    ensures ok <==> Covers(rels, root, required)
    ensures ok ==> IsJoinTree(rels, required, Tree(root, joins)) && Planned(rels, required, Tree(root, joins))
    ensures ok ==> ByFirstRoutes(rels, Tree(root, joins)) && Shortest(rels, Tree(root, joins))
  {
    var disc, parent, visited := Discover(rels, root);
    forall ds ensures ds in visited <==> Reaches(rels, root, ds) {
      VisitedIsReachable(rels, root, disc, parent, visited, ds);
    }
    joins, ok := PruneToRequired(rels, root, disc, parent, visited, required);
    if ok {
      PruneIsTree(rels, root, disc, required);
      PlannedByFirstRoutes(rels, required, Tree(root, joins));
    }
  }

  method PruneToRequired(rels: seq<Relationship>, root: Dataset, disc: seq<nat>, parent: map<Dataset, nat>, visited: set<Dataset>,
                         required: set<Dataset>)
    returns (joins: seq<Relationship>, ok: bool)
    requires Searched(rels, root, disc, parent, visited)
    ensures ok <==> required <= visited
    ensures ok ==> joins == Prune(rels, disc, required)
  {
    var needed: set<nat>, todo := {}, required;
    ghost var done := {};
    while todo != {}
      invariant required == done + todo && done <= visited
      invariant Settled(rels, disc, needed, done)
      decreases todo
    {
      var ds :| ds in todo;
      if ds !in visited {
        return [], false;
      }
      WalkStart(rels, root, disc, needed, done, ds);
      needed := Walk(rels, root, disc, parent, visited, ds, needed, done + {ds});
      todo, done := todo - {ds}, done + {ds};
    }
    WalkedIsPrune(rels, root, disc, needed, required);
    joins := Collect(rels, disc, needed);
    ok := true;
  }

  method Collect(rels: seq<Relationship>, disc: seq<nat>, needed: set<nat>) returns (joins: seq<Relationship>)
    requires Indices(rels, disc)
    ensures joins == Marked(rels, disc, needed)
  {
    joins := [];
    for k := 0 to |disc|
      invariant joins == Marked(rels, disc[..k], needed)
    {
      assert disc[..k + 1][..k] == disc[..k];
      if disc[k] in needed {
        joins := joins + [rels[disc[k]]];
      }
    }
    assert disc[..|disc|] == disc;
  }

  // ----------------------------------------------------------------- the root

  /** Some dataset of the model reaches every required one. */
  ghost predicate Connectable(rels: seq<Relationship>, order: seq<Dataset>, required: set<Dataset>) {
    exists ds :: ds in order && Covers(rels, ds, required)
  }

  /** The first candidate in spec order that reaches every required dataset. */
  ghost predicate FirstCover(rels: seq<Relationship>, candidates: seq<Dataset>, required: set<Dataset>, root: Dataset) {
    exists k :: 0 <= k < |candidates| && candidates[k] == root && Covers(rels, root, required)
      && forall j :: 0 <= j < k ==> !Covers(rels, candidates[j], required)
  }

  /** The required datasets in spec order, then all datasets. */
  function Candidates(order: seq<Dataset>, required: set<Dataset>): (c: seq<Dataset>)
    ensures forall ds :: ds in c <==> ds in order
  {
    Selected(order, required) + order
  }

  function Selected(order: seq<Dataset>, required: set<Dataset>): (c: seq<Dataset>)
    ensures forall ds :: ds in c <==> ds in order && ds in required
  {
    if order == [] then []
    else
      var n := |order| - 1;
      Selected(order[..n], required) + if order[n] in required then [order[n]] else []
  }

  /** Picks the root and the pruned joins, or fails. */
  method FindJoinTree(rels: seq<Relationship>, order: seq<Dataset>, required: set<Dataset>) returns (r: Option<Tree>)
    ensures r.Some? <==> required != {} && Connectable(rels, order, required)
    ensures r.Some? ==> IsJoinTree(rels, required, r.value) && Planned(rels, required, r.value)
    ensures r.Some? ==> ByFirstRoutes(rels, r.value) && Shortest(rels, r.value)
    ensures r.Some? ==> FirstCover(rels, Candidates(order, required), required, r.value.root)
  {
    if required == {} {
      return None;
    }
    var candidates := [];
    for i := 0 to |order|
      invariant candidates == Selected(order[..i], required)
    {
      assert order[..i + 1][..i] == order[..i];
      if order[i] in required {
        candidates := candidates + [order[i]];
      }
    }
    assert order[..|order|] == order;
    candidates := candidates + order;
    for i := 0 to |candidates|
      invariant forall j :: 0 <= j < i ==> !Covers(rels, candidates[j], required)
    {
      var joins, ok := Reach(rels, candidates[i], required);
      if ok {
        return Some(Tree(candidates[i], joins));
      }
    }
    assert forall ds :: ds in order ==> ds in candidates;
    return None;
  }

  /** A required dataset that reaches all the others is preferred to any other root. */
  lemma RequiredRootPreferred(rels: seq<Relationship>, order: seq<Dataset>, required: set<Dataset>, root: Dataset, ds: Dataset)
    requires FirstCover(rels, Candidates(order, required), required, root)
    requires ds in order && ds in required && Covers(rels, ds, required)
    ensures root in required
  {
    var c := Candidates(order, required);
    var k :| 0 <= k < |c| && c[k] == root && forall j :: 0 <= j < k ==> !Covers(rels, c[j], required);
    assert ds in Selected(order, required);
    var i :| 0 <= i < |Selected(order, required)| && Selected(order, required)[i] == ds;
    assert c[i] == ds;
    assert k <= i;
    assert c[k] == Selected(order, required)[k];
  }

  /**
   In an acyclic graph at most one required dataset reaches all the others, so
   the root is the same whatever order lists the datasets.
   */
  lemma RootIndependentOfOrder(rels: seq<Relationship>, order: seq<Dataset>, order': seq<Dataset>, required: set<Dataset>,
                               root: Dataset, root': Dataset, ds: Dataset)
    requires Acyclic(rels)
    requires FirstCover(rels, Candidates(order, required), required, root)
    requires FirstCover(rels, Candidates(order', required), required, root')
    requires ds in order && ds in order' && ds in required && Covers(rels, ds, required)
    ensures root == root' == ds
  {
    RequiredRootPreferred(rels, order, required, root, ds);
    RequiredRootPreferred(rels, order', required, root', ds);
    RequiredRootUnique(rels, required, root, ds);
    RequiredRootUnique(rels, required, root', ds);
  }

  lemma RequiredRootUnique(rels: seq<Relationship>, required: set<Dataset>, a: Dataset, b: Dataset)
    requires Acyclic(rels) && a in required && b in required
    requires Covers(rels, a, required) && Covers(rels, b, required)
    ensures a == b
  {
    if a != b {
      MutualReachIsCycle(rels, a, b);
    }
  }

  /** A required root stays the root for every larger requirement set it reaches. */
  lemma RootStable(rels: seq<Relationship>, order: seq<Dataset>, required: set<Dataset>, larger: set<Dataset>, root: Dataset, root': Dataset)
    requires Acyclic(rels) && root in required && root in order && required <= larger
    requires Covers(rels, root, larger)
    requires FirstCover(rels, Candidates(order, larger), larger, root')
    ensures root' == root
  {
    RequiredRootPreferred(rels, order, larger, root', root);
    RequiredRootUnique(rels, larger, root, root');
  }
}
