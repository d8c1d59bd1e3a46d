/** Who may ask what: roles, policies, authorization, and the row filters that come with it. */
module Governance {
  import opened Fields
  import opened Options
  import opened Seqs
  import opened Terms
  import opened Strings

  datatype Policy = Policy(name: string, allow: seq<string>, deny: seq<string>, rowFilters: seq<RowFilter>)

  datatype Spec = Spec(defaultRole: string, roles: seq<Policy>)

  datatype Identity = Identity(principal: string, groups: seq<string>, roles: seq<string>, claims: map<string, string>)

  /** Which metric patterns are well formed and what they match. */
  datatype Globs = Globs(compiles: string -> bool, matches: (string, string) -> bool)

  datatype Refusal = BadPattern | Unauthorized

  datatype Verdict<+T> = Granted(value: T) | Refused(why: Refusal)

  // ------------------------------------------------------------------ the policy

  /** The first policy of that name. */
  function Lookup(roles: seq<Policy>, name: string): (p: Option<Policy>)
    ensures p.Some? ==> p.value in roles && p.value.name == name
    ensures p.None? ==> forall q | q in roles :: q.name != name
  {
    if roles == [] then None
    else if roles[0].name == name then Some(roles[0])
    else Lookup(roles[1..], name)
  }

  /** All the role names an identity carries, as groups or as roles. */
  function RoleSet(id: Identity): set<string> {
    set r | r in id.groups + id.roles && r != ""
  }

  /** A policy that allows no metric at all grants nothing and is ignored. */
  predicate Grants(spec: Spec, name: string) {
    Lookup(spec.roles, name).Some? && Lookup(spec.roles, name).value.allow != []
  }

  /** The roles that count: those named, or the default when none is, that grant something. */
  function Effective(spec: Spec, names: set<string>): set<string> {
    var wanted := if names == {} && spec.defaultRole != "" then {spec.defaultRole} else names;
    set n | n in wanted && n != "" && Grants(spec, n)
  }

  predicate Compiles(globs: Globs, p: Policy) {
    forall pat | pat in p.allow :: globs.compiles(pat)
  }

  predicate PermitsMetric(globs: Globs, p: Policy, metric: string) {
    exists pat | pat in p.allow :: globs.matches(pat, metric)
  }

  /** The policy alone allows every metric and every field of the request. */
  predicate Permits(globs: Globs, p: Policy, metrics: seq<string>, refs: seq<FieldRef>) {
    && (forall m | m in metrics :: PermitsMetric(globs, p, m))
    && (forall ref | ref in refs :: RefText(ref) !in p.deny)
  }

  function PolicyOf(spec: Spec, name: string): Policy
    requires Grants(spec, name)
  {
    Lookup(spec.roles, name).value
  }

  predicate AllCompile(globs: Globs, spec: Spec, names: set<string>) {
    forall n | n in Effective(spec, names) :: Compiles(globs, PolicyOf(spec, n))
  }

  /** The ascending listing of a set of names. */
  ghost predicate Lists(s: seq<string>, names: set<string>) {
    Ascending(s) && forall n :: n in s <==> n in names
  }

  // ------------------------------------------------------------------ resolving roles

  /** The role names of an identity, each once, in the order they were given, groups first. */
  function PolicyRoleList(id: Identity): (roles: seq<string>)
    ensures forall n :: n in roles <==> n in RoleSet(id)
  {
    Named(id.groups + id.roles)
  }

  /** The names that are not blank, each once. */
  function Named(values: seq<string>): (names: seq<string>)
    ensures forall n :: n in names <==> n in values && n != ""
  {
    Distinct(Filter(r => r != "", values))
  }

  lemma NamedStep(values: seq<string>, i: nat)
    requires i < |values|
    ensures Named(values[..i + 1]) ==
            if values[i] == "" || values[i] in Named(values[..i]) then Named(values[..i])
            else Named(values[..i]) + [values[i]]
  {
    var f: string -> bool := r => r != "";
    assert values[..i + 1] == values[..i] + [values[i]];
    FilterLast(f, values[..i], values[i]);
    if values[i] == "" {
      assert Filter(f, values[..i]) + [] == Filter(f, values[..i]);
    } else {
      DistinctLast(Filter(f, values[..i]), values[i]);
    }
  }

  method PolicyRoles(id: Identity) returns (roles: seq<string>)
    ensures roles == PolicyRoleList(id)
  {
    var seen: set<string> := {};
    roles := [];
    var values := id.groups + id.roles;
    for i := 0 to |values|
      invariant roles == Named(values[..i])
      invariant forall n :: n in seen <==> n in roles
    {
      var value := values[i];
      NamedStep(values, i);
      if value == "" {
        continue;
      }
      if value in seen {
        continue;
      }
      seen := seen + {value};
      roles := roles + [value];
    }
    assert values[..|values|] == values;
  }

  lemma DistinctLast(s: seq<string>, x: string)
    ensures Distinct(s + [x]) == if x in s then Distinct(s) else Distinct(s) + [x]
  {
    assert (s + [x])[..|s|] == s;
  }

  // sorting indexes by the key they point to, as sort.Slice does

  function InsertIndex(keys: seq<string>, x: nat, idx: seq<nat>): (r: seq<nat>)
    requires x < |keys| && forall i | 0 <= i < |idx| :: idx[i] < |keys|
    ensures |r| == |idx| + 1 && forall i | 0 <= i < |r| :: r[i] < |keys|
  {
    if idx == [] then [x]
    else if LessEq(keys[x], keys[idx[0]]) then [x] + idx
    else [idx[0]] + InsertIndex(keys, x, idx[1..])
  }

  function SortIndexes(keys: seq<string>, from: nat): (r: seq<nat>)
    requires from <= |keys|
    ensures |r| == |keys| - from && forall i | 0 <= i < |r| :: r[i] < |keys|
    decreases |keys| - from
  {
    if from == |keys| then [] else InsertIndex(keys, from, SortIndexes(keys, from + 1))
  }

  function Pick<T>(items: seq<T>, idx: seq<nat>): (r: seq<T>)
    requires forall i | 0 <= i < |idx| :: idx[i] < |items|
    ensures |r| == |idx| && forall i | 0 <= i < |r| :: r[i] == items[idx[i]]
  {
    seq(|idx|, i requires 0 <= i < |idx| => items[idx[i]])
  }

  lemma PickSplit<T>(items: seq<T>, i: nat, idx: seq<nat>)
    requires i < |items| && forall k | 0 <= k < |idx| :: idx[k] < |items|
    ensures Pick(items, [i] + idx) == [items[i]] + Pick(items, idx)
  {
  }

  lemma {:induction false} InsertIndexSorts(keys: seq<string>, x: nat, idx: seq<nat>)
    requires x < |keys| && forall i | 0 <= i < |idx| :: idx[i] < |keys|
    ensures Pick(keys, InsertIndex(keys, x, idx)) == Insert(keys[x], Pick(keys, idx))
  {
    if idx == [] {
      assert Pick(keys, [x]) == [keys[x]];
    } else {
      var first, more := idx[0], idx[1..];
      assert idx == [first] + more;
      PickSplit(keys, first, more);
      assert Pick(keys, idx)[1..] == Pick(keys, more);
      if LessEq(keys[x], keys[first]) {
        PickSplit(keys, x, idx);
      } else {
        InsertIndexSorts(keys, x, more);
        PickSplit(keys, first, InsertIndex(keys, x, more));
      }
    }
  }

  lemma {:induction false} SortIndexesSorts(keys: seq<string>, from: nat)
    requires from <= |keys|
    ensures Pick(keys, SortIndexes(keys, from)) == Sort(keys[from..])
    decreases |keys| - from
  {
    if from < |keys| {
      SortIndexesSorts(keys, from + 1);
      InsertIndexSorts(keys, from, SortIndexes(keys, from + 1));
      assert keys[from..][1..] == keys[from + 1..];
    }
  }

  /** Sorts the roles by name and keeps the policies beside them in step. */
  method SortPolicies(roles: seq<string>, policies: seq<Policy>) returns (roles': seq<string>, policies': seq<Policy>)
    requires |roles| == |policies|
    ensures roles' == Sort(roles)
    ensures roles' == Pick(roles, SortIndexes(roles, 0)) && policies' == Pick(policies, SortIndexes(roles, 0))
  {
    var idx := SortIndexes(roles, 0);
    roles', policies' := [], [];
    for i := 0 to |idx|
      invariant roles' == Pick(roles, idx)[..i] && policies' == Pick(policies, idx)[..i]
    {
      roles', policies' := roles' + [roles[idx[i]]], policies' + [policies[idx[i]]];
    }
    SortIndexesSorts(roles, 0);
    assert roles[0..] == roles;
  }

  lemma OnceEach(t: seq<string>, i: nat, j: nat)
    requires i < j < |t| && t[i] == t[j]
    ensures multiset(t)[t[i]] >= 2
  {
    assert t == t[..i] + [t[i]] + t[i + 1..j] + [t[j]] + t[j + 1..];
  }

  lemma SortLists(s: seq<string>)
    requires DupFree(s)
    ensures Ascending(Sort(s)) && forall n :: n in Sort(s) <==> n in s
  {
    var t := Sort(s);
    SortSorted(s);
    forall n ensures n in t <==> n in s {
      assert n in t <==> n in multiset(t);
      assert n in s <==> n in multiset(s);
    }
    forall i, j | 0 <= i < j < |t| ensures Less(t[i], t[j]) {
      if t[i] == t[j] {
        OnceEach(t, i, j);
        DupFreeCount(s, t[i]);
      }
    }
  }

  /** What an identity may see: its roles that grant something, sorted, each with its policy. */
  datatype Visibility = Visibility(roles: seq<string>, unrestricted: bool, policies: seq<Policy>)

  method CompileAll(globs: Globs, p: Policy) returns (ok: bool)
    ensures ok <==> Compiles(globs, p)
  {
    for i := 0 to |p.allow|
      invariant forall k | 0 <= k < i :: globs.compiles(p.allow[k])
    {
      if !globs.compiles(p.allow[i]) {
        return false;
      }
    }
    return true;
  }

  /** Each role has its policy beside it. */
  predicate InStep(spec: Spec, roles: seq<string>, policies: seq<Policy>) {
    && |policies| == |roles|
    && forall i | 0 <= i < |roles| :: Grants(spec, roles[i]) && policies[i] == PolicyOf(spec, roles[i])
  }

  /** Collects the granting roles of a list, with their policies, in the order of the list. */
  method Collect(globs: Globs, spec: Spec, wanted: seq<string>) returns (ok: bool, roles: seq<string>, policies: seq<Policy>)
    ensures ok <==> forall n | n in wanted && n != "" && Grants(spec, n) :: Compiles(globs, PolicyOf(spec, n))
    ensures ok ==> InStep(spec, roles, policies) && DupFree(roles)
    ensures ok ==> forall n :: n in roles <==> n in wanted && n != "" && Grants(spec, n)
  {
    roles, policies, ok := [], [], true;
    var seen: set<string> := {};
    for i := 0 to |wanted|
      invariant InStep(spec, roles, policies) && DupFree(roles)
      invariant forall n :: n in roles <==> n in wanted[..i] && n != "" && Grants(spec, n)
      invariant forall n :: n in seen <==> n in roles
      invariant forall n | n in roles :: Compiles(globs, PolicyOf(spec, n))
    {
      var name := wanted[i];
      assert wanted[..i + 1] == wanted[..i] + [name];
      if name == "" || name in seen {
        continue;
      }
      var policy := Lookup(spec.roles, name);
      if policy.None? || |policy.value.allow| == 0 {
        continue;
      }
      seen := seen + {name};
      ok := CompileAll(globs, policy.value);
      if !ok {
        assert name in wanted && Grants(spec, name) && !Compiles(globs, PolicyOf(spec, name));
        return;
      }
      roles, policies := roles + [name], policies + [policy.value];
    }
    assert wanted[..|wanted|] == wanted;
  }

  /** The list of names whose policies count. */
  function WantedList(spec: Spec, id: Identity): seq<string> {
    var names := PolicyRoleList(id);
    if |names| == 0 && spec.defaultRole != "" then [spec.defaultRole] else names
  }

  lemma WantedIsEffective(spec: Spec, id: Identity, n: string)
    ensures n in WantedList(spec, id) && n != "" && Grants(spec, n) <==> n in Effective(spec, RoleSet(id))
  {
    if PolicyRoleList(id) != [] {
      assert PolicyRoleList(id)[0] in RoleSet(id);
    } else {
      assert forall r :: r !in RoleSet(id);
      assert RoleSet(id) == {};
    }
  }

  /** What Visible must answer under a governance spec. */
  ghost predicate Sees(globs: Globs, spec: Spec, names: set<string>, v: Verdict<Visibility>) {
    if !AllCompile(globs, spec, names) then v == Refused(BadPattern)
    else if Effective(spec, names) == {} then v == Refused(Unauthorized)
    else
      && v.Granted? && !v.value.unrestricted
      && Lists(v.value.roles, Effective(spec, names)) && InStep(spec, v.value.roles, v.value.policies)
  }

  lemma PickInStep(spec: Spec, roles: seq<string>, policies: seq<Policy>, idx: seq<nat>)
    requires InStep(spec, roles, policies) && forall i | 0 <= i < |idx| :: idx[i] < |roles|
    ensures InStep(spec, Pick(roles, idx), Pick(policies, idx))
  {
  }

  /** The sorted visibility over the roles that grant something. */
  method SortedVisibility(globs: Globs, spec: Spec, wanted: seq<string>) returns (v: Verdict<Visibility>)
    ensures v == Refused(BadPattern)
       <==> exists n | n in wanted && n != "" && Grants(spec, n) :: !Compiles(globs, PolicyOf(spec, n))
    ensures v == Refused(Unauthorized) ==> forall n | n in wanted && n != "" :: !Grants(spec, n)
    ensures v.Granted? ==> v.value.roles != [] && !v.value.unrestricted && Ascending(v.value.roles) && InStep(spec, v.value.roles, v.value.policies)
    ensures v.Granted? ==> forall n :: n in v.value.roles <==> n in wanted && n != "" && Grants(spec, n)
  {
    var ok, roles, policies := Collect(globs, spec, wanted);
    if !ok {
      return Refused(BadPattern);
    }
    if |policies| == 0 {
      assert roles == [];
      return Refused(Unauthorized);
    }
    SortLists(roles);
    PickInStep(spec, roles, policies, SortIndexes(roles, 0));
    roles, policies := SortPolicies(roles, policies);
    return Granted(Visibility(roles, false, policies));
  }

  method Visible(globs: Globs, g: Option<Spec>, id: Identity) returns (v: Verdict<Visibility>)
    ensures g.None? ==> v == Granted(Visibility(PolicyRoleList(id), true, []))
    ensures g.Some? ==> Sees(globs, g.value, RoleSet(id), v)
  {
    var policyRoles := PolicyRoles(id);
    if g.None? {
      return Granted(Visibility(policyRoles, true, []));
    }
    var spec := g.value;
    var wanted := policyRoles;
    if |wanted| == 0 && spec.defaultRole != "" {
      wanted := [spec.defaultRole];
    }
    assert wanted == WantedList(spec, id);
    v := SortedVisibility(globs, spec, wanted);
    forall n ensures n in wanted && n != "" && Grants(spec, n) <==> n in Effective(spec, RoleSet(id)) {
      WantedIsEffective(spec, id, n);
    }
    if v.Granted? {
      assert v.value.roles[0] in Effective(spec, RoleSet(id));
    } else if v.why.Unauthorized? {
      assert forall n :: n !in Effective(spec, RoleSet(id));
    }
  }
}
