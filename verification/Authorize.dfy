/** Authorizing a request: some single role must permit all of it, and the row filters come from the roles that do. */
module Authorize {
  import opened Fields
  import opened Options
  import opened Terms
  import opened Governance

  /** The roles that matched, their rendering, and one group of filters per role, none if some role is unrestricted. */
  datatype Decision = Decision(roles: seq<string>, roleKey: string, groups: seq<seq<RowFilter>>)

  /** The effective roles that permit the whole request, each on its own. */
  function Granting(globs: Globs, spec: Spec, names: set<string>, metrics: seq<string>, refs: seq<FieldRef>): set<string> {
    set n | n in Effective(spec, names) && Permits(globs, PolicyOf(spec, n), metrics, refs)
  }

  /** One group of filters per role, none at all if one of the roles has no filters. */
  predicate GroupsOf(spec: Spec, roles: seq<string>, groups: seq<seq<RowFilter>>)
    requires forall n | n in roles :: Grants(spec, n)
  {
    if exists n | n in roles :: PolicyOf(spec, n).rowFilters == [] then groups == []
    else |groups| == |roles| && forall i | 0 <= i < |roles| :: groups[i] == PolicyOf(spec, roles[i]).rowFilters
  }

  function Join(names: seq<string>): string {
    if names == [] then "" else if |names| == 1 then names[0] else names[0] + "," + Join(names[1..])
  }

  /** What Authorize must answer under a governance spec: a refusal unless some single role permits everything. */
  ghost predicate Decides(globs: Globs, spec: Spec, names: set<string>, metrics: seq<string>, refs: seq<FieldRef>, v: Verdict<Decision>) {
    if !AllCompile(globs, spec, names) then v == Refused(BadPattern)
    else
      var granting := Granting(globs, spec, names, metrics, refs);
      if granting == {} then v == Refused(Unauthorized)
      else
        && v.Granted? && Lists(v.value.roles, granting) && v.value.roleKey == Join(v.value.roles)
        && GroupsOf(spec, v.value.roles, v.value.groups)
  }

  method MetricPermitted(globs: Globs, p: Policy, metric: string) returns (ok: bool)
    ensures ok <==> PermitsMetric(globs, p, metric)
  {
    for i := 0 to |p.allow|
      invariant forall k | 0 <= k < i :: !globs.matches(p.allow[k], metric)
    {
      if globs.matches(p.allow[i], metric) {
        return true;
      }
    }
    return false;
  }

  predicate SomeMatches(globs: Globs, p: Policy, metric: string) {
    exists a :: 0 <= a < |p.allow| && globs.matches(p.allow[a], metric)
  }

  /** Some pattern of the policy matches each metric, and none of its denied fields is one of the request's. */
  predicate AllowsWhole(globs: Globs, p: Policy, metrics: seq<string>, refs: seq<FieldRef>) {
    && (forall m :: 0 <= m < |metrics| ==> SomeMatches(globs, p, metrics[m]))
    && (forall i, d :: 0 <= i < |refs| && 0 <= d < |p.deny| ==> p.deny[d] != refs[i].dataset + "." + refs[i].field)
  }

  lemma MatchesIff(globs: Globs, p: Policy, metric: string)
    ensures PermitsMetric(globs, p, metric) <==> SomeMatches(globs, p, metric)
  {
    if pat :| pat in p.allow && globs.matches(pat, metric) {
      var a :| 0 <= a < |p.allow| && p.allow[a] == pat;
    }
    if a :| 0 <= a < |p.allow| && globs.matches(p.allow[a], metric) {
      assert p.allow[a] in p.allow;
    }
  }

  lemma PermitsIsAllows(globs: Globs, p: Policy, metrics: seq<string>, refs: seq<FieldRef>)
    ensures Permits(globs, p, metrics, refs) <==> AllowsWhole(globs, p, metrics, refs)
  {
    forall m | m in metrics ensures PermitsMetric(globs, p, m) <==> SomeMatches(globs, p, m) {
      MatchesIff(globs, p, m);
    }
    assert (forall m | m in metrics :: PermitsMetric(globs, p, m)) <==> forall m :: 0 <= m < |metrics| ==> SomeMatches(globs, p, metrics[m]);
    assert (forall ref | ref in refs :: RefText(ref) !in p.deny)
      <==> forall i, d :: 0 <= i < |refs| && 0 <= d < |p.deny| ==> p.deny[d] != RefText(refs[i]);
  }

  /** The indexes of the policies that permit the whole request on their own. */
  method Authorizing(globs: Globs, policies: seq<Policy>, metrics: seq<string>, refs: seq<FieldRef>) returns (out: seq<nat>)
    ensures forall k | 0 <= k < |out| :: out[k] < |policies|
    ensures forall j, k | 0 <= j < k < |out| :: out[j] < out[k]
    ensures forall i | 0 <= i < |policies| :: i in out <==> Permits(globs, policies[i], metrics, refs)
    ensures forall i | 0 <= i < |policies| :: i in out <==> AllowsWhole(globs, policies[i], metrics, refs)
  {
    forall i | 0 <= i < |policies| ensures Permits(globs, policies[i], metrics, refs) <==> AllowsWhole(globs, policies[i], metrics, refs) {
      PermitsIsAllows(globs, policies[i], metrics, refs);
    }
    out := [];
    for i := 0 to |policies|
      invariant forall k | 0 <= k < |out| :: out[k] < i
      invariant forall j, k | 0 <= j < k < |out| :: out[j] < out[k]
      invariant forall k | 0 <= k < i :: k in out <==> Permits(globs, policies[k], metrics, refs)
    {
      var ok := true;
      for m := 0 to |metrics|
        invariant ok <==> forall k | 0 <= k < m :: PermitsMetric(globs, policies[i], metrics[k])
      {
        var permitted := MetricPermitted(globs, policies[i], metrics[m]);
        ok := ok && permitted;
      }
      if ok {
        for r := 0 to |refs|
          invariant ok <==> forall k | 0 <= k < r :: RefText(refs[k]) !in policies[i].deny
        {
          ok := ok && RefText(refs[r]) !in policies[i].deny;
        }
      }
      if ok {
        out := out + [i];
      }
    }
  }

  /** The roles at the authorizing indexes list the granting roles in order. */
  lemma PickLists(globs: Globs, spec: Spec, names: set<string>, metrics: seq<string>, refs: seq<FieldRef>,
                  roles: seq<string>, policies: seq<Policy>, granted: seq<nat>)
    requires Lists(roles, Effective(spec, names)) && InStep(spec, roles, policies)
    requires forall k | 0 <= k < |granted| :: granted[k] < |policies|
    requires forall j, k | 0 <= j < k < |granted| :: granted[j] < granted[k]
    requires forall i | 0 <= i < |policies| :: i in granted <==> Permits(globs, policies[i], metrics, refs)
    ensures Lists(Pick(roles, granted), Granting(globs, spec, names, metrics, refs))
  {
    var picked, granting := Pick(roles, granted), Granting(globs, spec, names, metrics, refs);
    forall n ensures n in picked <==> n in granting {
      if n in picked {
        var k :| 0 <= k < |picked| && picked[k] == n;
        assert granted[k] in granted && roles[granted[k]] in roles;
      }
      if n in granting {
        assert n in roles;
        var i :| 0 <= i < |roles| && roles[i] == n;
        var k :| 0 <= k < |granted| && granted[k] == i;
        assert picked[k] == n;
      }
    }
  }

  /** The groups of the picked policies, or none if one of them has no filters. */
  method FilterGroups(policies: seq<Policy>, granted: seq<nat>) returns (groups: seq<seq<RowFilter>>)
    requires forall k | 0 <= k < |granted| :: granted[k] < |policies|
    ensures if exists k | 0 <= k < |granted| :: policies[granted[k]].rowFilters == [] then groups == []
            else |groups| == |granted| && forall k | 0 <= k < |granted| :: groups[k] == policies[granted[k]].rowFilters
  {
    groups := [];
    for k := 0 to |granted|
      invariant |groups| == k && forall i | 0 <= i < k :: groups[i] == policies[granted[i]].rowFilters != []
    {
      if |policies[granted[k]].rowFilters| == 0 {
        return [];
      }
      groups := groups + [policies[granted[k]].rowFilters];
    }
  }

  lemma PickGroups(spec: Spec, roles: seq<string>, policies: seq<Policy>, granted: seq<nat>, groups: seq<seq<RowFilter>>)
    requires InStep(spec, roles, policies) && forall k | 0 <= k < |granted| :: granted[k] < |policies|
    requires if exists k | 0 <= k < |granted| :: policies[granted[k]].rowFilters == [] then groups == []
             else |groups| == |granted| && forall k | 0 <= k < |granted| :: groups[k] == policies[granted[k]].rowFilters
    ensures forall n | n in Pick(roles, granted) :: Grants(spec, n)
    ensures GroupsOf(spec, Pick(roles, granted), groups)
  {
    var picked := Pick(roles, granted);
    assert forall k | 0 <= k < |granted| :: picked[k] in picked && policies[granted[k]] == PolicyOf(spec, picked[k]);
  }

  /** The decision over roles that are already resolved. */
  method Decide(globs: Globs, ghost spec: Spec, ghost names: set<string>, metrics: seq<string>, refs: seq<FieldRef>,
                roles: seq<string>, policies: seq<Policy>) returns (v: Verdict<Decision>)
    requires AllCompile(globs, spec, names)
    requires Lists(roles, Effective(spec, names)) && InStep(spec, roles, policies)
    ensures Decides(globs, spec, names, metrics, refs, v)
  {
    var granted := Authorizing(globs, policies, metrics, refs);
    PickLists(globs, spec, names, metrics, refs, roles, policies, granted);
    ghost var granting := Granting(globs, spec, names, metrics, refs);
    if |granted| == 0 {
      assert forall n :: n !in granting;
      return Refused(Unauthorized);
    }
    var groups := FilterGroups(policies, granted);
    PickGroups(spec, roles, policies, granted, groups);
    var picked := Pick(roles, granted);
    assert picked[0] in granting;
    return Granted(Decision(picked, Join(picked), groups));
  }

  /**
   Without a governance spec everything is granted. With one, the answer is the one Decides
   gives for the set of role names, whatever order or multiplicity the token lists them in.
   */
  method Authorize(globs: Globs, g: Option<Spec>, id: Identity, metrics: seq<string>, refs: seq<FieldRef>) returns (v: Verdict<Decision>)
    ensures g.None? ==> v == Granted(Decision(PolicyRoleList(id), Join(PolicyRoleList(id)), []))
    ensures g.Some? ==> Decides(globs, g.value, RoleSet(id), metrics, refs, v)
  {
    var seen := Visible(globs, g, id);
    if seen.Refused? {
      if g.Some? {
        RefusedDecides(globs, g.value, RoleSet(id), metrics, refs, seen.why);
      }
      return Refused(seen.why);
    }
    if seen.value.unrestricted {
      return Granted(Decision(seen.value.roles, Join(seen.value.roles), []));
    }
    v := Decide(globs, g.value, RoleSet(id), metrics, refs, seen.value.roles, seen.value.policies);
  }

  lemma RefusedDecides(globs: Globs, spec: Spec, names: set<string>, metrics: seq<string>, refs: seq<FieldRef>, why: Refusal)
    requires Sees(globs, spec, names, Refused(why))
    ensures Decides(globs, spec, names, metrics, refs, Refused(why))
  {
    assert Granting(globs, spec, names, metrics, refs) <= Effective(spec, names);
  }
}
