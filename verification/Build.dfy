/** The planner's core. */
module Build {
  // Which ratios run in the single pass and which are split, and when a ratio accepted for the
  // single pass is still safe in the final tree.

  import opened Fields
  import opened JoinGraph
  import opened JoinTree
  import opened Seqs
  import opened Terms
  import opened SideQuery
  import opened Composite

  function MetricDatasets(mt: Metric): set<Dataset> {
    RefDatasets(mt.numerator.refs) + if mt.denominator.Some? then RefDatasets(mt.denominator.value.refs) else {}
  }

  /** With `base` required so far, the metric joins the single pass: no ratio, or both sides safe at the tree's root. */
  ghost predicate Inlined(m: Model, base: set<Dataset>, mt: Metric) {
    mt.denominator.None? || exists root :: SafeRoot(m, base + MetricDatasets(mt), mt, root)
  }

  ghost predicate SafeRoot(m: Model, required: set<Dataset>, mt: Metric, root: Dataset)
    requires mt.denominator.Some?
  {
    && required != {} && Connectable(m.rels, m.order, required) && IsRoot(m, required, root)
    && TermSafe(mt.numerator, root) && TermSafe(mt.denominator.value, root)
  }

  /** The requirement set after the first `n` metrics. */
  ghost function BaseAfter(m: Model, ctx: Context, metrics: seq<Metric>, n: nat): set<Dataset>
    requires n <= |metrics|
  {
    if n == 0 then BaseRequired(ctx)
    else
      var base := BaseAfter(m, ctx, metrics, n - 1);
      if Inlined(m, base, metrics[n - 1]) then base + MetricDatasets(metrics[n - 1]) else base
  }

  ghost function InlineOf(m: Model, ctx: Context, metrics: seq<Metric>, n: nat): seq<Metric>
    requires n <= |metrics|
  {
    if n == 0 then []
    else InlineOf(m, ctx, metrics, n - 1) + if Inlined(m, BaseAfter(m, ctx, metrics, n - 1), metrics[n - 1]) then [metrics[n - 1]] else []
  }

  ghost function SplitOf(m: Model, ctx: Context, metrics: seq<Metric>, n: nat): seq<Metric>
    requires n <= |metrics|
  {
    if n == 0 then []
    else SplitOf(m, ctx, metrics, n - 1) + if Inlined(m, BaseAfter(m, ctx, metrics, n - 1), metrics[n - 1]) then [] else [metrics[n - 1]]
  }

  method AddRefs(required0: set<Dataset>, refs: seq<FieldRef>) returns (required: set<Dataset>)
    ensures required == required0 + RefDatasets(refs)
  {
    required := required0;
    for i := 0 to |refs|
      invariant required == required0 + RefDatasets(refs[..i])
    {
      assert RefDatasets(refs[..i + 1]) == RefDatasets(refs[..i]) + {refs[i].dataset};
      required := required + {refs[i].dataset};
    }
    assert refs[..|refs|] == refs;
  }

  /** Partitions the metrics in request order, growing the requirement set. */
  method Partition(m: Model, ctx: Context, metrics: seq<Metric>)
    returns (base: set<Dataset>, inline: seq<Metric>, split: seq<Metric>)
    ensures base == BaseAfter(m, ctx, metrics, |metrics|)
    ensures inline == InlineOf(m, ctx, metrics, |metrics|)
    ensures split == SplitOf(m, ctx, metrics, |metrics|)
  {
    base := RequiredBy(ctx);
    inline, split := [], [];
    for i := 0 to |metrics|
      invariant base == BaseAfter(m, ctx, metrics, i)
      invariant inline == InlineOf(m, ctx, metrics, i)
      invariant split == SplitOf(m, ctx, metrics, i)
    {
      var mt := metrics[i];
      if mt.denominator.None? {
        inline := inline + [mt];
        base := AddRefs(base, mt.numerator.refs);
      } else {
        var tentative := AddRefs(base, mt.numerator.refs);
        tentative := AddRefs(tentative, mt.denominator.value.refs);
        assert tentative == base + MetricDatasets(mt);
        var tree := FindJoinTree(m.rels, m.order, tentative);
        if tree.Some? && TermSafe(mt.numerator, tree.value.root) && TermSafe(mt.denominator.value, tree.value.root) {
          assert SafeRoot(m, tentative, mt, tree.value.root);
          inline := inline + [mt];
          base := tentative;
        } else {
          forall root | SafeRoot(m, tentative, mt, root) ensures false {
            FirstCoverUnique(m, tentative, root, tree.value.root);
          }
          split := split + [mt];
        }
      }
    }
  }

  datatype Plan = FlatPlan(flat: Flat) | CompositePlan(query: Query)

  /** Only ratios are split. */
  lemma {:induction false} SplitsAreRatios(m: Model, ctx: Context, metrics: seq<Metric>, n: nat)
    requires n <= |metrics|
    ensures forall i :: 0 <= i < |SplitOf(m, ctx, metrics, n)| ==> SplitOf(m, ctx, metrics, n)[i].denominator.Some?
  {
    if n > 0 {
      SplitsAreRatios(m, ctx, metrics, n - 1);
    }
  }

  /** Without splits the single pass holds every metric, in request order. */
  lemma {:induction false} NoSplitAllInline(m: Model, ctx: Context, metrics: seq<Metric>, n: nat)
    requires n <= |metrics| && SplitOf(m, ctx, metrics, n) == []
    ensures InlineOf(m, ctx, metrics, n) == metrics[..n]
  {
    if n > 0 {
      assert Inlined(m, BaseAfter(m, ctx, metrics, n - 1), metrics[n - 1]);
      NoSplitAllInline(m, ctx, metrics, n - 1);
      assert metrics[..n] == metrics[..n - 1] + [metrics[n - 1]];
    }
  }

  /** Each metric goes to exactly one part. */
  lemma PartitionTurn(m: Model, ctx: Context, metrics: seq<Metric>, n: nat)
    requires 0 < n <= |metrics|
    ensures Parts(m, ctx, metrics, n) == Parts(m, ctx, metrics, n - 1) + multiset{metrics[n - 1]}
  {
  }

  /** Both parts together, as a bag. */
  ghost function Parts(m: Model, ctx: Context, metrics: seq<Metric>, n: nat): multiset<Metric>
    requires n <= |metrics|
  {
    multiset(InlineOf(m, ctx, metrics, n)) + multiset(SplitOf(m, ctx, metrics, n))
  }

  /** The partition neither loses nor repeats a metric. */
  lemma {:induction false} PartitionConserves(m: Model, ctx: Context, metrics: seq<Metric>, n: nat)
    requires n <= |metrics|
    ensures Parts(m, ctx, metrics, n) == multiset(metrics[..n])
  {
    if n > 0 {
      PartitionConserves(m, ctx, metrics, n - 1);
      assert metrics[..n] == metrics[..n - 1] + [metrics[n - 1]];
      PartitionTurn(m, ctx, metrics, n);
    }
  }

  /** A plan of the request: the single pass when nothing is split, else the composite query over both parts. */
  ghost predicate Builds(m: Model, ctx: Context, metrics: seq<Metric>, filters: seq<MetricFilter>, p: Plan) {
    var n := |metrics|;
    var base, inline, split := BaseAfter(m, ctx, metrics, n), InlineOf(m, ctx, metrics, n), SplitOf(m, ctx, metrics, n);
    && (forall i :: 0 <= i < |split| ==> split[i].denominator.Some?)
    && if split == [] then
         p.FlatPlan? && PlansFlat(m, ctx, base, p.flat) && p.flat.metrics == metrics && p.flat.having == filters
       else
         p.CompositePlan? && PlansQuery(m, ctx, base, inline, split, Map((mt: Metric) => mt.name, metrics), filters, p.query)
  }

  /** Builds the plan of a resolved, authorized request. */
  method BuildPlan(m: Model, ctx: Context, metrics: seq<Metric>, filters: seq<MetricFilter>) returns (r: Result<Plan>)
    ensures var n := |metrics|;
            var base, inline, split := BaseAfter(m, ctx, metrics, n), InlineOf(m, ctx, metrics, n), SplitOf(m, ctx, metrics, n);
            && (forall i :: 0 <= i < |split| ==> split[i].denominator.Some?)
            && (r.Ok? <==> if split == [] then FlatPlannable(m, ctx, base) else CompositePlannable(m, ctx, base, inline, split))
    ensures r.Ok? ==> Builds(m, ctx, metrics, filters, r.value)
  {
    var base, inline, split := Partition(m, ctx, metrics);
    SplitsAreRatios(m, ctx, metrics, |metrics|);
    BaseGrows(m, ctx, metrics, 0, |metrics|);
    if |split| == 0 {
      NoSplitAllInline(m, ctx, metrics, |metrics|);
      assert metrics[..|metrics|] == metrics;
      var f := PlanFlat(m, ctx, base, inline, filters);
      if f.Err? {
        return Err(f.error);
      }
      return Ok(FlatPlan(f.value));
    }
    var q := PlanComposite(m, ctx, base, inline, split, Map((mt: Metric) => mt.name, metrics), filters);
    if q.Err? {
      return Err(q.error);
    }
    return Ok(CompositePlan(q.value));
  }

  // ------------------------------------------ a ratio checked against an early root

  lemma {:induction false} BaseGrows(m: Model, ctx: Context, metrics: seq<Metric>, a: nat, b: nat)
    requires a <= b <= |metrics|
    ensures BaseAfter(m, ctx, metrics, a) <= BaseAfter(m, ctx, metrics, b)
    decreases b - a
  {
    if a < b {
      BaseGrows(m, ctx, metrics, a, b - 1);
    }
  }

  /** Every dataset an inline metric references is required, so its alias is bound by the FROM clause. */
  lemma {:induction false} InlineRefsBound(m: Model, ctx: Context, metrics: seq<Metric>, n: nat, i: nat, f: Flat)
    requires n <= |metrics| && i < |InlineOf(m, ctx, metrics, n)|
    requires PlansFlat(m, ctx, BaseAfter(m, ctx, metrics, |metrics|), f)
    ensures MetricDatasets(InlineOf(m, ctx, metrics, n)[i]) + BaseRequired(ctx) <= InTree(f.tree)
    decreases n
  {
    if i < |InlineOf(m, ctx, metrics, n - 1)| {
      InlineRefsBound(m, ctx, metrics, n - 1, i, f);
    } else {
      LastInline(m, ctx, metrics, n, i);
      BaseGrows(m, ctx, metrics, n, |metrics|);
      BaseGrows(m, ctx, metrics, 0, |metrics|);
    }
  }

  /** The metric that was inlined last is the last of its turn, and what it needs is required from then on. */
  lemma LastInline(m: Model, ctx: Context, metrics: seq<Metric>, n: nat, i: nat)
    requires 0 < n <= |metrics| && |InlineOf(m, ctx, metrics, n - 1)| <= i < |InlineOf(m, ctx, metrics, n)|
    ensures InlineOf(m, ctx, metrics, n)[i] == metrics[n - 1] && MetricDatasets(metrics[n - 1]) <= BaseAfter(m, ctx, metrics, n)
  {
  }

  /** A term that only the root makes safe: it has references and is not COUNT(DISTINCT). */
  predicate RootBound(t: AggTerm) {
    t.refs != [] && !(t.func == "COUNT" && t.distinct)
  }

  /**
   A ratio is checked against the root of the requirement set at its turn. In an
   acyclic graph its root-bound side is safe in the final tree exactly when that
   root still reaches every dataset the later metrics required.
   */
  lemma InlinedRatioSafeIff(m: Model, ctx: Context, metrics: seq<Metric>, i: nat, t: AggTerm, root: Dataset, final: Dataset)
    requires Acyclic(m.rels) && i < |metrics| && metrics[i].denominator.Some?
    requires t == metrics[i].numerator || t == metrics[i].denominator.value
    requires RootBound(t)
    requires SafeRoot(m, BaseAfter(m, ctx, metrics, i) + MetricDatasets(metrics[i]), metrics[i], root)
    requires IsRoot(m, BaseAfter(m, ctx, metrics, |metrics|), final)
    ensures TermSafe(t, final) <==> Covers(m.rels, root, BaseAfter(m, ctx, metrics, |metrics|))
    ensures TermSafe(t, final) ==> final == root
  {
    var base, all := BaseAfter(m, ctx, metrics, i) + MetricDatasets(metrics[i]), BaseAfter(m, ctx, metrics, |metrics|);
    BaseGrows(m, ctx, metrics, i + 1, |metrics|);
    assert Inlined(m, BaseAfter(m, ctx, metrics, i), metrics[i]);
    assert t.refs[0].dataset == root && root in RefDatasets(t.refs);
    RootInOrder(m, base, root);
    if Covers(m.rels, root, all) {
      RootStable(m.rels, m.order, base, all, root, final);
    }
  }

  lemma RootInOrder(m: Model, required: set<Dataset>, root: Dataset)
    requires IsRoot(m, required, root)
    ensures root in m.order && Covers(m.rels, root, required)
  {
    var c := Candidates(m.order, required);
    var k :| 0 <= k < |c| && c[k] == root && Covers(m.rels, root, required);
    assert c[k] in c;
  }
}
