/** What a decision admits. */
module RowAccess {
  // Which joined rows pass under an authorization decision, and how that depends on the roles.

  import opened Options
  import opened Fields
  import opened JoinGraph
  import opened Relational
  import opened Terms
  import opened Strings
  import opened Governance
  import opened Authorize
  import Claims
  import Templates

  /** The answer is determined by the set of role names: not by their order, repetition or namespace. */
  lemma DecisionUnique(globs: Globs, spec: Spec, names: set<string>, metrics: seq<string>, refs: seq<FieldRef>, v: Verdict<Decision>, w: Verdict<Decision>)
    requires Decides(globs, spec, names, metrics, refs, v) && Decides(globs, spec, names, metrics, refs, w)
    ensures v == w
  {
    if v.Granted? {
      AscendingUnique(v.value.roles, w.value.roles);
      assert v.value.groups == w.value.groups;
    }
  }

  /** The policy at `i` is the first of its name, that name is one the identity goes by, and it allows something. */
  ghost predicate Counts(spec: Spec, names: set<string>, i: nat)
    requires i < |spec.roles|
  {
    var p := spec.roles[i];
    && p.name != "" && (if names == {} then p.name == spec.defaultRole else p.name in names)
    && p.allow != [] && forall k :: 0 <= k < i ==> spec.roles[k].name != p.name
  }

  ghost predicate HasBadPattern(globs: Globs, spec: Spec, names: set<string>) {
    exists i, a :: 0 <= i < |spec.roles| && Counts(spec, names, i) && 0 <= a < |spec.roles[i].allow| && !globs.compiles(spec.roles[i].allow[a])
  }

  lemma {:induction false} LookupFirst(roles: seq<Policy>, i: nat)
    requires i < |roles| && forall k :: 0 <= k < i ==> roles[k].name != roles[i].name
    ensures Lookup(roles, roles[i].name) == Some(roles[i])
  {
    if i > 0 {
      assert roles[0].name != roles[i].name;
      forall k | 0 <= k < i - 1 ensures roles[1..][k].name != roles[1..][i - 1].name {
        assert roles[k + 1].name != roles[i].name;
      }
      LookupFirst(roles[1..], i - 1);
    }
  }

  lemma {:induction false} FirstFound(roles: seq<Policy>, name: string) returns (i: nat)
    requires Lookup(roles, name).Some?
    ensures i < |roles| && roles[i].name == name && Lookup(roles, name) == Some(roles[i])
    ensures forall k :: 0 <= k < i ==> roles[k].name != name
  {
    if roles[0].name == name {
      i := 0;
    } else {
      var k := FirstFound(roles[1..], name);
      i := k + 1;
      forall k | 0 <= k < i ensures roles[k].name != name {
        assert k > 0 ==> roles[k] == roles[1..][k - 1];
      }
    }
  }

  /** The effective roles are the names of the policies that count, and their policies are these. */
  lemma CountsIsEffective(spec: Spec, names: set<string>, i: nat)
    requires i < |spec.roles| && Counts(spec, names, i)
    ensures spec.roles[i].name in Effective(spec, names) && PolicyOf(spec, spec.roles[i].name) == spec.roles[i]
  {
    LookupFirst(spec.roles, i);
  }

  lemma EffectiveCounts(spec: Spec, names: set<string>, n: string) returns (i: nat)
    requires n in Effective(spec, names)
    ensures i < |spec.roles| && Counts(spec, names, i) && spec.roles[i].name == n && PolicyOf(spec, n) == spec.roles[i]
  {
    i := FirstFound(spec.roles, n);
  }

  /**
   A request is authorized just when one policy that counts, all by itself, has a pattern that matches each metric and
   denies none of the fields; roles are not pooled. The roles of the answer are those of all such policies. A pattern
   that does not compile, of any policy that counts, refuses the request.
   */
  lemma AuthorizedIff(globs: Globs, spec: Spec, names: set<string>, metrics: seq<string>, refs: seq<FieldRef>, v: Verdict<Decision>)
    requires Decides(globs, spec, names, metrics, refs, v)
    ensures v == Refused(BadPattern) <==> HasBadPattern(globs, spec, names)
    ensures v != Refused(BadPattern) ==>
              (v.Granted? <==> exists i :: 0 <= i < |spec.roles| && Counts(spec, names, i) && AllowsWhole(globs, spec.roles[i], metrics, refs))
    ensures v.Granted? ==> forall n :: n in v.value.roles <==>
              exists i :: 0 <= i < |spec.roles| && Counts(spec, names, i) && AllowsWhole(globs, spec.roles[i], metrics, refs) && spec.roles[i].name == n
  {
    BadPatternIff(globs, spec, names);
    forall n ensures n in Granting(globs, spec, names, metrics, refs) <==>
      exists i :: 0 <= i < |spec.roles| && Counts(spec, names, i) && AllowsWhole(globs, spec.roles[i], metrics, refs) && spec.roles[i].name == n
    {
      GrantingIff(globs, spec, names, metrics, refs, n);
    }
    if i :| 0 <= i < |spec.roles| && Counts(spec, names, i) && AllowsWhole(globs, spec.roles[i], metrics, refs) {
      GrantingIff(globs, spec, names, metrics, refs, spec.roles[i].name);
      assert spec.roles[i].name in Granting(globs, spec, names, metrics, refs);
    }
    if n :| n in Granting(globs, spec, names, metrics, refs) {
      assert Granting(globs, spec, names, metrics, refs) != {};
    }
  }

  lemma GrantingIff(globs: Globs, spec: Spec, names: set<string>, metrics: seq<string>, refs: seq<FieldRef>, n: string)
    ensures n in Granting(globs, spec, names, metrics, refs) <==>
      exists i :: 0 <= i < |spec.roles| && Counts(spec, names, i) && AllowsWhole(globs, spec.roles[i], metrics, refs) && spec.roles[i].name == n
  {
    if n in Granting(globs, spec, names, metrics, refs) {
      var i := EffectiveCounts(spec, names, n);
      PermitsIsAllows(globs, spec.roles[i], metrics, refs);
    }
    if i :| 0 <= i < |spec.roles| && Counts(spec, names, i) && AllowsWhole(globs, spec.roles[i], metrics, refs) && spec.roles[i].name == n {
      CountsIsEffective(spec, names, i);
      PermitsIsAllows(globs, spec.roles[i], metrics, refs);
    }
  }

  lemma BadPatternIff(globs: Globs, spec: Spec, names: set<string>)
    ensures AllCompile(globs, spec, names) <==> !HasBadPattern(globs, spec, names)
  {
    if i, a :| 0 <= i < |spec.roles| && Counts(spec, names, i) && 0 <= a < |spec.roles[i].allow| && !globs.compiles(spec.roles[i].allow[a]) {
      CountsIsEffective(spec, names, i);
      assert spec.roles[i].allow[a] in PolicyOf(spec, spec.roles[i].name).allow;
    }
    if n :| n in Effective(spec, names) && !Compiles(globs, PolicyOf(spec, n)) {
      var i := EffectiveCounts(spec, names, n);
      var pat :| pat in spec.roles[i].allow && !globs.compiles(pat);
      var a :| 0 <= a < |spec.roles[i].allow| && spec.roles[i].allow[a] == pat;
    }
  }

  /** A clerk may ask for orders and for nothing no pattern matches. */
  lemma ClerkRefused(globs: Globs, v: Verdict<Decision>, w: Verdict<Decision>)
    requires globs.compiles("orders") && globs.matches("orders", "orders") && !globs.matches("orders", "payroll")
    requires Decides(globs, Spec("", [Policy("clerk", ["orders"], [], [])]), {"clerk"}, ["orders"], [], v)
    requires Decides(globs, Spec("", [Policy("clerk", ["orders"], [], [])]), {"clerk"}, ["payroll"], [], w)
    ensures v.Granted? && w == Refused(Unauthorized)
  {
    var spec := Spec("", [Policy("clerk", ["orders"], [], [])]);
    AuthorizedIff(globs, spec, {"clerk"}, ["orders"], [], v);
    AuthorizedIff(globs, spec, {"clerk"}, ["payroll"], [], w);
    assert Counts(spec, {"clerk"}, 0) && spec.roles[0].allow[0] == "orders";
    assert AllowsWhole(globs, spec.roles[0], ["orders"], []);
    assert !AllowsWhole(globs, spec.roles[0], ["payroll"], []) by {
      assert ["payroll"][0] == "payroll";
    }
  }

  // ------------------------------------------------------------------ row filters

  /** A role's filters with its claim placeholders replaced; fails on a claim the caller does not carry or an unknown dataset. */
  function Expand(filters: seq<RowFilter>, expand: string -> Option<string>, datasets: set<Dataset>): Option<seq<RowFilter>> {
    if filters == [] then Some([])
    else
      var n := |filters| - 1;
      var init := Expand(filters[..n], expand, datasets);
      var pred := expand(filters[n].pred);
      if init.None? || filters[n].dataset !in datasets || pred.None? then None
      else Some(init.value + [RowFilter(filters[n].dataset, pred.value)])
  }

  /** Every filter names a known dataset and only claims the caller carries. */
  predicate CanExpand(filters: seq<RowFilter>, expand: string -> Option<string>, datasets: set<Dataset>) {
    forall f | f in filters :: f.dataset in datasets && expand(f.pred).Some?
  }

  lemma {:induction false} ExpandKeepsLength(filters: seq<RowFilter>, expand: string -> Option<string>, datasets: set<Dataset>)
    ensures Expand(filters, expand, datasets).Some? ==> |Expand(filters, expand, datasets).value| == |filters|
    ensures Expand(filters, expand, datasets).Some?
       <==> CanExpand(filters, expand, datasets)
  {
    if filters != [] {
      var n := |filters| - 1;
      assert filters == filters[..n] + [filters[n]];
      ExpandKeepsLength(filters[..n], expand, datasets);
    }
  }

  /** The groups of a decision, each expanded in place. */
  function ExpandAll(groups: seq<seq<RowFilter>>, expand: string -> Option<string>, datasets: set<Dataset>): Option<seq<seq<RowFilter>>> {
    if groups == [] then Some([])
    else
      var n := |groups| - 1;
      var init, last := ExpandAll(groups[..n], expand, datasets), Expand(groups[n], expand, datasets);
      if init.None? || last.None? then None else Some(init.value + [last.value])
  }

  /** What a placeholder of a filter stands for, for a caller who carries `claims`. */
  function WithClaims(claims: map<string, string>, d: Claims.Dialect): string -> Option<string> {
    pred => Templates.ExpandText(pred, claims, d)
  }

  /** Every group expanded in place, as Build does before it plans. */
  method ExpandGroups(groups: seq<seq<RowFilter>>, expand: string -> Option<string>, datasets: set<Dataset>)
    returns (r: Option<seq<seq<RowFilter>>>)
    ensures r == ExpandAll(groups, expand, datasets)
    ensures r.Some? <==> forall i | 0 <= i < |groups| :: Expand(groups[i], expand, datasets).Some?
    ensures r.Some? ==> |r.value| == |groups| && forall i | 0 <= i < |groups| :: Some(r.value[i]) == Expand(groups[i], expand, datasets)
  {
    ExpandAllExpands(groups, expand, datasets);
    var out: seq<seq<RowFilter>> := [];
    for i := 0 to |groups|
      invariant Some(out) == ExpandAll(groups[..i], expand, datasets)
      invariant |out| == i && forall k | 0 <= k < i :: Some(out[k]) == Expand(groups[k], expand, datasets)
    {
      var g := groups[i];
      var expanded: seq<RowFilter> := [];
      for k := 0 to |g|
        invariant Some(expanded) == Expand(g[..k], expand, datasets)
      {
        assert g[..k + 1][..k] == g[..k];
        var pred := expand(g[k].pred);
        if g[k].dataset !in datasets || pred.None? {
          ExpandKeepsLength(g, expand, datasets);
          assert g[k] in g;
          return None;
        }
        expanded := expanded + [RowFilter(g[k].dataset, pred.value)];
      }
      assert g[..|g|] == g && groups[..i + 1][..i] == groups[..i];
      out := out + [expanded];
    }
    assert groups[..|groups|] == groups;
    return Some(out);
  }

  /** The groups a plan is built from: those of the decision, expanded. */
  predicate Expands(groups: seq<seq<RowFilter>>, expand: string -> Option<string>, datasets: set<Dataset>, out: seq<seq<RowFilter>>) {
    |out| == |groups| && forall i | 0 <= i < |groups| :: Some(out[i]) == Expand(groups[i], expand, datasets)
  }

  lemma {:induction false} ExpandAllExpands(groups: seq<seq<RowFilter>>, expand: string -> Option<string>, datasets: set<Dataset>)
    ensures ExpandAll(groups, expand, datasets).Some? <==> forall i | 0 <= i < |groups| :: Expand(groups[i], expand, datasets).Some?
    ensures ExpandAll(groups, expand, datasets).Some? ==> Expands(groups, expand, datasets, ExpandAll(groups, expand, datasets).value)
  {
    if groups != [] {
      var n := |groups| - 1;
      assert groups == groups[..n] + [groups[n]];
      ExpandAllExpands(groups[..n], expand, datasets);
    }
  }

  /** The role's own filters let the joined row through; a role without filters lets every row through. */
  predicate RoleAdmits(sem: Sem, spec: Spec, n: string, expand: string -> Option<string>, datasets: set<Dataset>, j: Joined)
    requires Grants(spec, n)
  {
    var filters := Expand(PolicyOf(spec, n).rowFilters, expand, datasets);
    filters.Some? && PassesGroup(sem, filters.value, j)
  }

  predicate SomeRoleAdmits(sem: Sem, spec: Spec, roles: set<string>, expand: string -> Option<string>, datasets: set<Dataset>, j: Joined)
    requires forall n | n in roles :: Grants(spec, n)
  {
    exists n | n in roles :: RoleAdmits(sem, spec, n, expand, datasets, j)
  }

  lemma NoEmptyGroups(spec: Spec, d: Decision, expand: string -> Option<string>, datasets: set<Dataset>, out: seq<seq<RowFilter>>)
    requires (forall n | n in d.roles :: Grants(spec, n)) && GroupsOf(spec, d.roles, d.groups)
    requires Expands(d.groups, expand, datasets, out)
    ensures [] !in out
  {
    forall i | 0 <= i < |out| ensures out[i] != [] {
      assert d.roles[i] in d.roles;
      ExpandKeepsLength(d.groups[i], expand, datasets);
    }
  }

  /** The groups of a decision admit a row just when some of its roles does. */
  lemma GroupsAdmit(sem: Sem, spec: Spec, d: Decision, expand: string -> Option<string>, datasets: set<Dataset>, out: seq<seq<RowFilter>>, j: Joined)
    requires (forall n | n in d.roles :: Grants(spec, n)) && d.roles != [] && GroupsOf(spec, d.roles, d.groups)
    requires Expands(d.groups, expand, datasets, out)
    ensures (out == [] || exists g :: g in out && PassesGroup(sem, g, j))
       <==> exists n | n in d.roles :: RoleAdmits(sem, spec, n, expand, datasets, j)
  {
    if n :| n in d.roles && PolicyOf(spec, n).rowFilters == [] {
      assert RoleAdmits(sem, spec, n, expand, datasets, j);
    } else {
      assert |out| == |d.roles|;
      forall i | 0 <= i < |out|
        ensures RoleAdmits(sem, spec, d.roles[i], expand, datasets, j) <==> PassesGroup(sem, out[i], j)
      {
        assert d.roles[i] in d.roles;
      }
      if g :| g in out && PassesGroup(sem, g, j) {
        var i :| 0 <= i < |out| && out[i] == g;
        assert d.roles[i] in d.roles;
      }
      if n :| n in d.roles && RoleAdmits(sem, spec, n, expand, datasets, j) {
        var i :| 0 <= i < |d.roles| && d.roles[i] == n;
        assert out[i] in out;
      }
    }
  }

  /**
   Every query planned under a decision admits a joined row just when the user filters hold and
   the whole filter set of some granting role does.
   */
  lemma DecisionAdmits(globs: Globs, spec: Spec, names: set<string>, metrics: seq<string>, refs: seq<FieldRef>, v: Verdict<Decision>,
                       expand: string -> Option<string>, datasets: set<Dataset>, out: seq<seq<RowFilter>>, sem: Sem, filters: seq<UserFilter>, j: Joined)
    requires Decides(globs, spec, names, metrics, refs, v) && v.Granted? && Expands(v.value.groups, expand, datasets, out)
    ensures [] !in out
    ensures Admits(sem, filters, out, j)
       <==> PassesFilters(sem, filters, j) && SomeRoleAdmits(sem, spec, Granting(globs, spec, names, metrics, refs), expand, datasets, j)
  {
    var d, granting := v.value, Granting(globs, spec, names, metrics, refs);
    var one :| one in granting;
    assert one in d.roles;
    NoEmptyGroups(spec, d, expand, datasets, out);
    GroupsAdmit(sem, spec, d, expand, datasets, out, j);
  }

  // ------------------------------------------------------------------ more roles

  lemma MoreRolesGrantMore(globs: Globs, spec: Spec, names: set<string>, more: set<string>, metrics: seq<string>, refs: seq<FieldRef>)
    requires Effective(spec, names) <= Effective(spec, more)
    ensures Granting(globs, spec, names, metrics, refs) <= Granting(globs, spec, more, metrics, refs)
  {
  }

  /** A request granted under `v` is granted under `w`, and each joined row its filters admitted they still admit, whatever the engine. */
  ghost predicate AdmitsStill(v: Verdict<Decision>, w: Verdict<Decision>) {
    v.Granted? ==>
      && w.Granted?
      && forall expand, datasets, out, out', sem, filters, j
           | Expands(v.value.groups, expand, datasets, out) && Expands(w.value.groups, expand, datasets, out') && Admits(sem, filters, out, j) ::
           Admits(sem, filters, out', j)
  }

  /**
   When every effective role stays effective, no grant turns into a refusal, as long as the patterns compile, and the
   filters admit every joined row they admitted, as long as those of the new decision can be expanded. Which rows are
   joined is another matter: the filters also decide what is required (PlannedRows.KeepsRowsIff).
   */
  lemma MoreRolesAdmitMore(globs: Globs, spec: Spec, names: set<string>, more: set<string>, metrics: seq<string>, refs: seq<FieldRef>,
                          v: Verdict<Decision>, w: Verdict<Decision>)
    requires Effective(spec, names) <= Effective(spec, more) && AllCompile(globs, spec, more)
    requires Decides(globs, spec, names, metrics, refs, v) && Decides(globs, spec, more, metrics, refs, w)
    ensures AdmitsStill(v, w)
  {
    MoreRolesGrantMore(globs, spec, names, more, metrics, refs);
    if v.Granted? {
      assert Granting(globs, spec, names, metrics, refs) != {};
      forall expand, datasets, out, out', sem, filters, j
        | Expands(v.value.groups, expand, datasets, out) && Expands(w.value.groups, expand, datasets, out') && Admits(sem, filters, out, j)
        ensures Admits(sem, filters, out', j)
      {
        DecisionAdmits(globs, spec, names, metrics, refs, v, expand, datasets, out, sem, filters, j);
        DecisionAdmits(globs, spec, more, metrics, refs, w, expand, datasets, out', sem, filters, j);
      }
    }
  }

  /** The same role names grant something, and the same one is the default. */
  ghost predicate SameNames(spec: Spec, spec': Spec) {
    spec.defaultRole == spec'.defaultRole && forall n :: Grants(spec, n) <==> Grants(spec', n)
  }

  lemma SameEffective(spec: Spec, spec': Spec, names: set<string>)
    requires SameNames(spec, spec')
    ensures Effective(spec, names) == Effective(spec', names)
  {
  }

  /** Whatever the policies of these role names say, no request loses its grant, nor a joined row its admission, when `more` is named in place of `names`. */
  ghost predicate NothingRefused(spec: Spec, names: set<string>, more: set<string>) {
    forall globs, spec', metrics, refs, v, w
      | SameNames(spec, spec') && AllCompile(globs, spec', names) && AllCompile(globs, spec', more)
        && Decides(globs, spec', names, metrics, refs, v) && Decides(globs, spec', more, metrics, refs, w) ::
      AdmitsStill(v, w)
  }

  /** Every policy denies one field, but for those of the role `n`. */
  function OnlyFor(n: string, roles: seq<Policy>): seq<Policy> {
    if roles == [] then []
    else [Policy(roles[0].name, roles[0].allow, if roles[0].name == n then [] else ["d.f"], [])] + OnlyFor(n, roles[1..])
  }

  lemma {:induction false} OnlyForLookup(n: string, roles: seq<Policy>, name: string)
    ensures Lookup(OnlyFor(n, roles), name).Some? == Lookup(roles, name).Some?
    ensures Lookup(roles, name).Some? ==>
              Lookup(OnlyFor(n, roles), name).value == Policy(name, Lookup(roles, name).value.allow, if name == n then [] else ["d.f"], [])
  {
    if roles != [] {
      OnlyForLookup(n, roles[1..], name);
      assert OnlyFor(n, roles)[1..] == OnlyFor(n, roles[1..]);
    }
  }

  lemma OnlyForPermits(spec: Spec, n: string, names: set<string>, globs: Globs)
    requires forall p, m :: globs.matches(p, m)
    ensures SameNames(spec, Spec(spec.defaultRole, OnlyFor(n, spec.roles)))
    ensures Effective(Spec(spec.defaultRole, OnlyFor(n, spec.roles)), names) == Effective(spec, names)
    ensures Granting(globs, Spec(spec.defaultRole, OnlyFor(n, spec.roles)), names, ["m"], [FieldRef("d", "f")]) == Effective(spec, names) * {n}
  {
    var spec' := Spec(spec.defaultRole, OnlyFor(n, spec.roles));
    forall name ensures Grants(spec, name) <==> Grants(spec', name) {
      OnlyForLookup(n, spec.roles, name);
    }
    forall name | name in Effective(spec', names)
      ensures Permits(globs, PolicyOf(spec', name), ["m"], [FieldRef("d", "f")]) <==> name == n
    {
      OnlyForLookup(n, spec.roles, name);
      var p := PolicyOf(spec', name);
      assert p.allow[0] in p.allow && globs.matches(p.allow[0], "m");
      assert RefText(FieldRef("d", "f")) == "d.f";
    }
  }

  /**
   Naming `more` in place of `names` can cost no request its grant and no joined row its admission, whatever the
   policies say, exactly when every effective role stays effective. In particular an identity that names no role
   is refused nothing new just when the default role grants nothing or is among the new ones.
   */
  lemma NothingRefusedIff(spec: Spec, names: set<string>, more: set<string>)
    ensures NothingRefused(spec, names, more) <==> Effective(spec, names) <= Effective(spec, more)
    ensures names != {} && names <= more ==> NothingRefused(spec, names, more)
  {
    if Effective(spec, names) <= Effective(spec, more) {
      forall globs, spec', metrics, refs, v, w
        | SameNames(spec, spec') && AllCompile(globs, spec', names) && AllCompile(globs, spec', more)
          && Decides(globs, spec', names, metrics, refs, v) && Decides(globs, spec', more, metrics, refs, w)
        ensures AdmitsStill(v, w)
      {
        SameEffective(spec, spec', names);
        SameEffective(spec, spec', more);
        MoreRolesAdmitMore(globs, spec', names, more, metrics, refs, v, w);
      }
    }
    if n :| n in Effective(spec, names) && n !in Effective(spec, more) {
      RefusedAt(spec, names, more, n);
    }
  }

  lemma RefusedAt(spec: Spec, names: set<string>, more: set<string>, n: string)
    requires n in Effective(spec, names) && n !in Effective(spec, more)
    ensures !NothingRefused(spec, names, more)
  {
    var globs := Globs(p => true, (p, m) => true);
    var spec' := Spec(spec.defaultRole, OnlyFor(n, spec.roles));
    var metrics, refs := ["m"], [FieldRef("d", "f")];
    OnlyForPermits(spec, n, names, globs);
    OnlyForPermits(spec, n, more, globs);
    OnlyForLookup(n, spec.roles, n);
    OneGranting(globs, spec', names, n, metrics, refs);
    NoneGranting(globs, spec', more, metrics, refs);
    GrantLost(spec, names, more, globs, spec', metrics, refs, Granted(Decision([n], n, [])), Refused(Unauthorized));
  }

  lemma GrantLost(spec: Spec, names: set<string>, more: set<string>, globs: Globs, spec': Spec, metrics: seq<string>, refs: seq<FieldRef>,
                  v: Verdict<Decision>, w: Verdict<Decision>)
    requires SameNames(spec, spec') && AllCompile(globs, spec', names) && AllCompile(globs, spec', more)
    requires Decides(globs, spec', names, metrics, refs, v) && Decides(globs, spec', more, metrics, refs, w) && v.Granted? && w.Refused?
    ensures !NothingRefused(spec, names, more)
  {
    assert !AdmitsStill(v, w);
  }

  lemma NoneGranting(globs: Globs, spec: Spec, names: set<string>, metrics: seq<string>, refs: seq<FieldRef>)
    requires AllCompile(globs, spec, names) && Granting(globs, spec, names, metrics, refs) == {}
    ensures Decides(globs, spec, names, metrics, refs, Refused(Unauthorized))
  {
  }

  lemma OneGranting(globs: Globs, spec: Spec, names: set<string>, n: string, metrics: seq<string>, refs: seq<FieldRef>)
    requires AllCompile(globs, spec, names) && Granting(globs, spec, names, metrics, refs) == {n}
    requires Grants(spec, n) && PolicyOf(spec, n).rowFilters == []
    ensures Decides(globs, spec, names, metrics, refs, Granted(Decision([n], n, [])))
  {
    assert n in [n];
    assert GroupsOf(spec, [n], []);
    assert Lists([n], {n});
  }

  /** Guests and staff are told the same. */
  function TwinSpec(): Spec {
    Spec("guest", [Policy("guest", ["*"], [], [RowFilter("sales", "open")]), Policy("staff", ["*"], [], [RowFilter("sales", "open")])])
  }

  lemma TwinGrants()
    ensures var spec := TwinSpec();
            && Grants(spec, "guest") && PolicyOf(spec, "guest") == spec.roles[0]
            && Grants(spec, "staff") && PolicyOf(spec, "staff") == spec.roles[1]
            && Effective(spec, {}) == {"guest"} && Effective(spec, {"staff"}) == {"staff"}
  {
    var spec := TwinSpec();
    assert Lookup(spec.roles, "staff") == Lookup(spec.roles[1..], "staff") == Some(spec.roles[1]);
  }

  /** For given policies a lost role can be made up for by another, so there the inclusion of roles is not necessary. */
  lemma TwinRoleAdmits(globs: Globs, metrics: seq<string>, refs: seq<FieldRef>, v: Verdict<Decision>, w: Verdict<Decision>)
    requires Decides(globs, TwinSpec(), {}, metrics, refs, v) && Decides(globs, TwinSpec(), {"staff"}, metrics, refs, w)
    ensures !(Effective(TwinSpec(), {}) <= Effective(TwinSpec(), {"staff"})) && AdmitsStill(v, w)
  {
    var spec := TwinSpec();
    TwinGrants();
    assert "guest" in Effective(spec, {}) && "guest" !in Effective(spec, {"staff"});
    if v.Granted? {
      TwinGroups(globs, metrics, refs, v, w);
      forall expand, datasets, out, out' | Expands(v.value.groups, expand, datasets, out) && Expands(w.value.groups, expand, datasets, out')
        ensures out == out'
      {
      }
    }
  }

  lemma TwinGroups(globs: Globs, metrics: seq<string>, refs: seq<FieldRef>, v: Verdict<Decision>, w: Verdict<Decision>)
    requires Decides(globs, TwinSpec(), {}, metrics, refs, v) && Decides(globs, TwinSpec(), {"staff"}, metrics, refs, w) && v.Granted?
    ensures w.Granted? && v.value.groups == w.value.groups
  {
    var spec := TwinSpec();
    TwinGrants();
    assert Granting(globs, spec, {}, metrics, refs) == {"guest"};
    assert Permits(globs, spec.roles[0], metrics, refs) <==> Permits(globs, spec.roles[1], metrics, refs);
    assert Granting(globs, spec, {"staff"}, metrics, refs) == {"staff"};
    OnlyName(v.value.roles, "guest");
    OnlyName(w.value.roles, "staff");
  }

  lemma OnlyName(s: seq<string>, n: string)
    requires Lists(s, {n})
    ensures s == [n]
  {
    AscendingUnique(s, [n]);
  }

  /** One role's filter set makes another's superfluous: it asks for no more. */
  predicate AsksNoMore(g: seq<RowFilter>, g': seq<RowFilter>) {
    forall f | f in g' :: f in g
  }

  /** Every joined row some group of `out` admits is one some group of `out'` admits, by its filters alone. */
  predicate Covered(out: seq<seq<RowFilter>>, out': seq<seq<RowFilter>>) {
    out' == [] || (out != [] && forall g | g in out :: exists g' | g' in out' :: AsksNoMore(g, g'))
  }

  /** An engine and a joined row for which exactly the filters of `g` hold. */
  function Marked(ds: Dataset): Row {
    map["d" := Text(ds)]
  }

  function OnlyGroup(g: seq<RowFilter>): Sem {
    Sem((r, row) => Null, (s, xs) => Null, (f, b) => Null,
        (pred, row) => exists f | f in g :: f.pred == pred && row == Marked(f.dataset),
        (op, v, vs) => true, (grain, v) => v)
  }

  lemma OnlyGroupPasses(g: seq<RowFilter>, g': seq<RowFilter>, j: Joined)
    requires forall f | f in g' :: f.dataset in j && j[f.dataset] == Some(Marked(f.dataset))
    ensures PassesGroup(OnlyGroup(g), g', j) <==> AsksNoMore(g, g')
  {
    forall f | f in g' ensures OnlyGroup(g).rowTest(f.pred, Bound(j, f.dataset)) <==> f in g {
      if e :| e in g && e.pred == f.pred && Marked(f.dataset) == Marked(e.dataset) {
        assert Marked(f.dataset)["d"] == Text(f.dataset);
        assert e == f;
      }
    }
  }

  /**
   Of one and the same joined rows, no engine admits fewer under the new groups exactly when each old group has a
   new one that asks for no more.
   */
  lemma AdmissionKeptIff(out: seq<seq<RowFilter>>, out': seq<seq<RowFilter>>)
    requires [] !in out && [] !in out'
    ensures (forall sem, filters, j :: Admits(sem, filters, out, j) ==> Admits(sem, filters, out', j)) <==> Covered(out, out')
  {
    if Covered(out, out') {
      forall sem, filters, j | Admits(sem, filters, out, j) ensures Admits(sem, filters, out', j) {
        if out' != [] {
          var g :| g in out && PassesGroup(sem, g, j);
          var g' :| g' in out' && AsksNoMore(g, g');
          assert PassesGroup(sem, g', j);
        }
      }
    } else {
      var g := if out == [] then [] else UncoveredGroup(out, out');
      forall g' | g' in out' ensures !AsksNoMore(g, g') {
        if out == [] {
          assert g'[0] in g';
        }
      }
      RowRefused(out, out', g);
    }
  }

  /** The group of `out` that none of `out'` replaces. */
  ghost function UncoveredGroup(out: seq<seq<RowFilter>>, out': seq<seq<RowFilter>>): (g: seq<RowFilter>)
    requires out != [] && !Covered(out, out')
    ensures g in out && forall g' | g' in out' :: !AsksNoMore(g, g')
  {
    var g :| g in out && !exists g' | g' in out' :: AsksNoMore(g, g');
    g
  }

  lemma RowRefused(out: seq<seq<RowFilter>>, out': seq<seq<RowFilter>>, g: seq<RowFilter>)
    requires [] !in out' && out' != [] && (if out == [] then g == [] else g in out)
    requires forall g' | g' in out' :: !AsksNoMore(g, g')
    ensures exists sem, filters, j :: Admits(sem, filters, out, j) && !Admits(sem, filters, out', j)
  {
    var all := FilterDatasets(out') + FilterDatasets([g]);
    var j: Joined := map ds | ds in all :: Some(Marked(ds));
    MarkedEverywhere([g], j);
    MarkedEverywhere(out', j);
    assert [g][0] == g;
    OnlyGroupPasses(g, g, j);
    assert Admits(OnlyGroup(g), [], out, j);
    forall g' | g' in out' ensures !PassesGroup(OnlyGroup(g), g', j) {
      OnlyGroupPasses(g, g', j);
    }
    assert !Admits(OnlyGroup(g), [], out', j);
  }

  lemma MarkedEverywhere(groups: seq<seq<RowFilter>>, j: Joined)
    requires forall ds | ds in FilterDatasets(groups) :: ds in j && j[ds] == Some(Marked(ds))
    ensures forall g, f | g in groups && f in g :: f.dataset in j && j[f.dataset] == Some(Marked(f.dataset))
  {
    forall g, f | g in groups && f in g ensures f.dataset in FilterDatasets(groups) {
      var i :| 0 <= i < |groups| && groups[i] == g;
      var k :| 0 <= k < |g| && g[k] == f;
      assert groups[i][k].dataset == f.dataset;
    }
  }

  /** A role that does not permit the request by itself changes nothing. */
  lemma OtherRoleChangesNothing(globs: Globs, spec: Spec, names: set<string>, role: string, metrics: seq<string>, refs: seq<FieldRef>,
                                v: Verdict<Decision>, w: Verdict<Decision>)
    requires names != {} && AllCompile(globs, spec, names + {role})
    requires role !in Granting(globs, spec, names + {role}, metrics, refs)
    requires Decides(globs, spec, names, metrics, refs, v) && Decides(globs, spec, names + {role}, metrics, refs, w)
    ensures v == w
  {
    assert Effective(spec, names) <= Effective(spec, names + {role});
    MoreRolesGrantMore(globs, spec, names, names + {role}, metrics, refs);
    assert Granting(globs, spec, names + {role}, metrics, refs) == Granting(globs, spec, names, metrics, refs);
    DecisionUnique(globs, spec, names, metrics, refs, v, w);
  }

  /**
   When the filters of a decision can be expanded: some granting role has none, so that no filter is used
   at all, or every filter of every granting role can be. So a role that brings a filter on a claim the
   caller does not carry makes requests fail that were answered without it.
   */
  lemma ExpandableIff(spec: Spec, d: Decision, expand: string -> Option<string>, datasets: set<Dataset>)
    requires (forall n | n in d.roles :: Grants(spec, n)) && GroupsOf(spec, d.roles, d.groups)
    ensures (exists out :: Expands(d.groups, expand, datasets, out))
       <==> (if exists n | n in d.roles :: PolicyOf(spec, n).rowFilters == [] then true
             else forall n | n in d.roles :: CanExpand(PolicyOf(spec, n).rowFilters, expand, datasets))
  {
    if exists n | n in d.roles :: PolicyOf(spec, n).rowFilters == [] {
      assert Expands(d.groups, expand, datasets, []);
    } else {
      EachExpands(spec, d, expand, datasets);
    }
  }

  lemma EachExpands(spec: Spec, d: Decision, expand: string -> Option<string>, datasets: set<Dataset>)
    requires (forall n | n in d.roles :: Grants(spec, n)) && GroupsOf(spec, d.roles, d.groups)
    requires !exists n | n in d.roles :: PolicyOf(spec, n).rowFilters == []
    ensures (exists out :: Expands(d.groups, expand, datasets, out))
       <==> forall n | n in d.roles :: CanExpand(PolicyOf(spec, n).rowFilters, expand, datasets)
  {
    forall i | 0 <= i < |d.groups|
      ensures Expand(d.groups[i], expand, datasets).Some?
         <==> CanExpand(PolicyOf(spec, d.roles[i]).rowFilters, expand, datasets)
    {
      ExpandKeepsLength(d.groups[i], expand, datasets);
    }
    if forall n | n in d.roles :: CanExpand(PolicyOf(spec, n).rowFilters, expand, datasets) {
      assert forall i | 0 <= i < |d.groups| :: d.roles[i] in d.roles;
      var out := seq(|d.groups|, i requires 0 <= i < |d.groups| => Expand(d.groups[i], expand, datasets).value);
      assert Expands(d.groups, expand, datasets, out);
    }
    if out :| Expands(d.groups, expand, datasets, out) {
      forall n | n in d.roles
        ensures CanExpand(PolicyOf(spec, n).rowFilters, expand, datasets)
      {
        var i :| 0 <= i < |d.roles| && d.roles[i] == n;
        assert Some(out[i]) == Expand(d.groups[i], expand, datasets);
      }
    }
  }

  /** Two roles with a filter each on one dataset; the auditors' names a claim. */
  function TwoRoleSpec(own: string, before: string, name: string): Spec {
    Spec("", [Policy("staff", ["*"], [], [RowFilter("sales", own)]),
              Policy("audit", ["*"], [], [RowFilter("sales", before + ("{{claim." + name + "}}"))])])
  }

  /** Filter text without braces, and a claim's name. */
  predicate FilterTexts(own: string, before: string, name: string) {
    '{' !in own && '{' !in before && name != "" && forall c :: c in name ==> Templates.IsNameChar(c)
  }

  lemma TwoRolesGrant(globs: Globs, own: string, before: string, name: string)
    requires globs == Globs(p => true, (p, m) => p == "*")
    ensures var spec := TwoRoleSpec(own, before, name);
            && Grants(spec, "staff") && PolicyOf(spec, "staff") == spec.roles[0]
            && Grants(spec, "audit") && PolicyOf(spec, "audit") == spec.roles[1]
            && Granting(globs, spec, {"staff"}, ["revenue"], []) == {"staff"}
            && Granting(globs, spec, {"staff", "audit"}, ["revenue"], []) == {"staff", "audit"}
            && AllCompile(globs, spec, {"staff"}) && AllCompile(globs, spec, {"staff", "audit"})
  {
    var spec := TwoRoleSpec(own, before, name);
    assert Lookup(spec.roles, "audit") == Lookup(spec.roles[1..], "audit") == Some(spec.roles[1]);
    assert "*" in spec.roles[0].allow && "*" in spec.roles[1].allow;
    assert PermitsMetric(globs, spec.roles[0], "revenue") && PermitsMetric(globs, spec.roles[1], "revenue");
  }

  lemma TheirFilters(own: string, before: string, name: string, claims: map<string, string>, d: Claims.Dialect)
    requires FilterTexts(own, before, name)
    ensures WithClaims(claims, d)(own).Some?
    ensures WithClaims(claims, d)(before + ("{{claim." + name + "}}")).Some? <==> name in claims
  {
    Templates.PlainExpands(own, claims, d);
    Templates.PlaceholderExpands(before, name, claims, d);
  }

  lemma StaffExpands(v: Verdict<Decision>, globs: Globs, own: string, before: string, name: string,
                     claims: map<string, string>, d: Claims.Dialect)
    requires globs == Globs(p => true, (p, m) => p == "*") && FilterTexts(own, before, name)
    requires Decides(globs, TwoRoleSpec(own, before, name), {"staff"}, ["revenue"], [], v)
    ensures v.Granted? && exists out :: Expands(v.value.groups, WithClaims(claims, d), {"sales"}, out)
  {
    TwoRolesGrant(globs, own, before, name);
    TheirFilters(own, before, name, claims, d);
    ExpandableIff(TwoRoleSpec(own, before, name), v.value, WithClaims(claims, d), {"sales"});
  }

  lemma AuditorsExpandIff(w: Verdict<Decision>, globs: Globs, own: string, before: string, name: string,
                     claims: map<string, string>, d: Claims.Dialect)
    requires globs == Globs(p => true, (p, m) => p == "*") && FilterTexts(own, before, name)
    requires Decides(globs, TwoRoleSpec(own, before, name), {"staff", "audit"}, ["revenue"], [], w)
    ensures w.Granted? && ((exists out :: Expands(w.value.groups, WithClaims(claims, d), {"sales"}, out)) <==> name in claims)
  {
    var filters := TwoRoleSpec(own, before, name).roles[1].rowFilters;
    TwoRolesGrant(globs, own, before, name);
    TheirFilters(own, before, name, claims, d);
    ExpandableIff(TwoRoleSpec(own, before, name), w.value, WithClaims(claims, d), {"sales"});
    assert "audit" in w.value.roles && filters[0] in filters;
  }

  /**
   Any caller is answered as staff; named an auditor too, only one who carries the claim their filter names: without it that
   filter cannot be expanded.
   */
  lemma UnheldClaimFails(v: Verdict<Decision>, w: Verdict<Decision>, globs: Globs, own: string, before: string, name: string,
                     claims: map<string, string>, d: Claims.Dialect)
    requires globs == Globs(p => true, (p, m) => p == "*") && FilterTexts(own, before, name)
    requires Decides(globs, TwoRoleSpec(own, before, name), {"staff"}, ["revenue"], [], v)
    requires Decides(globs, TwoRoleSpec(own, before, name), {"staff", "audit"}, ["revenue"], [], w)
    ensures v.Granted? && w.Granted?
    ensures exists out :: Expands(v.value.groups, WithClaims(claims, d), {"sales"}, out)
    ensures (exists out :: Expands(w.value.groups, WithClaims(claims, d), {"sales"}, out)) <==> name in claims
  {
    StaffExpands(v, globs, own, before, name, claims, d);
    AuditorsExpandIff(w, globs, own, before, name, claims, d);
  }

  /** An identity that names no role loses the default role when it is given one, and with it what that allowed. */
  lemma DefaultRoleReplaced()
    ensures var spec := Spec("guest", [Policy("guest", ["*"], [], [])]);
            var globs := Globs(p => true, (p, m) => p == "*");
            && Permits(globs, PolicyOf(spec, "guest"), ["sales"], [])
            && Granting(globs, spec, {}, ["sales"], []) == {"guest"}
            && Granting(globs, spec, {"staff"}, ["sales"], []) == {}
  {
    var spec := Spec("guest", [Policy("guest", ["*"], [], [])]);
    var globs := Globs(p => true, (p, m) => p == "*");
    assert Lookup(spec.roles, "guest") == Some(spec.roles[0]);
    assert Lookup(spec.roles, "staff") == Lookup([], "staff");
    assert PermitsMetric(globs, spec.roles[0], "sales") by {
      assert "*" in spec.roles[0].allow && globs.matches("*", "sales");
    }
    assert Effective(spec, {}) == {"guest"};
    assert Effective(spec, {"staff"}) == {};
  }
}
