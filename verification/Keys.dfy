/** Cache and identity keys. */
module Keys {
  // The keys of the two caches and of an identity tell apart what they must.

  import opened Fields
  import opened Options
  import opened Decimals
  import opened Seqs
  import opened Strings
  import opened Governance
  import opened Authorize
  import opened RowAccess
  import opened Digest

  function PlanKey(dialect: string, model: string, version: string, hash: string, fingerprint: string): string {
    "sl:plan:" + dialect + ":" + model + ":" + version + ":" + hash + if fingerprint != "" then ":authz:" + fingerprint else ""
  }

  /** The parts of a key that may not contain the separator. */
  predicate ColonFree(dialect: string, model: string, version: string, hash: string) {
    Free(':', dialect) && Free(':', model) && Free(':', version) && Free(':', hash)
  }

  lemma PlanKeyShape(d: string, m: string, v: string, h: string, f: string)
    ensures PlanKey(d, m, v, h, f) == "sl:plan:" + (d + (":" + (m + (":" + (v + (":" + (h + if f != "" then ":authz:" + f else "")))))))
  {
  }

  lemma PartSplits(a: string, b: string, t: string, t': string)
    requires Free(':', a) && Free(':', b) && a + (":" + t) == b + (":" + t')
    ensures a == b && t == t'
  {
    FreeSplits(':', a, b, ":" + t, ":" + t');
    SamePrefix(":", ":", t, t');
  }

  /** Plan keys are equal only for the same dialect, model, version, request hash and authorization decision. */
  lemma PlanKeyInjective(d: string, m: string, v: string, h: string, f: string, d': string, m': string, v': string, h': string, f': string)
    requires ColonFree(d, m, v, h) && ColonFree(d', m', v', h')
    requires PlanKey(d, m, v, h, f) == PlanKey(d', m', v', h', f')
    ensures d == d' && m == m' && v == v' && h == h' && f == f'
  {
    PlanKeyShape(d, m, v, h, f);
    PlanKeyShape(d', m', v', h', f');
    var e, e' := if f != "" then ":authz:" + f else "", if f' != "" then ":authz:" + f' else "";
    SamePrefix("sl:plan:", "sl:plan:", d + (":" + (m + (":" + (v + (":" + (h + e)))))), d' + (":" + (m' + (":" + (v' + (":" + (h' + e')))))));
    PartSplits(d, d', m + (":" + (v + (":" + (h + e)))), m' + (":" + (v' + (":" + (h' + e')))));
    PartSplits(m, m', v + (":" + (h + e)), v' + (":" + (h' + e')));
    PartSplits(v, v', h + e, h' + e');
    FreeSplits(':', h, h', e, e');
    if f != "" {
      SamePrefix(":authz:", ":authz:", f, f');
    }
  }

  /** The engine user a query runs as, if the caller's credential is passed on. */
  type User = Option<string>

  /** The authorization decision and the engine user a result may not be shared across. */
  function Scope(fingerprint: string, user: User): string {
    fingerprint + if user.Some? then "\0engine:" + user.value else ""
  }

  /** What a result is hashed from. */
  function ResultText(sql: string, scope: string): string {
    sql + if scope != "" then "\0" + scope else ""
  }

  function ResultKey(model: string, version: string, hash: string): string {
    "sl:result:" + model + ":" + version + ":" + hash
  }

  /** For one query, what is hashed is equal only for the same decision and engine user, whatever bytes the query holds. */
  lemma ResultTextScope(sql: string, f: string, user: User, f': string, user': User)
    requires Free('\0', f) && Free('\0', f')
    requires ResultText(sql, Scope(f, user)) == ResultText(sql, Scope(f', user'))
    ensures f == f' && user == user'
  {
    var s, s' := Scope(f, user), Scope(f', user');
    var t, t' := if s != "" then "\0" + s else "", if s' != "" then "\0" + s' else "";
    SamePrefix(sql, sql, t, t');
    if s != "" {
      SamePrefix("\0", "\0", s, s');
    }
    var e, e' := if user.Some? then "\0engine:" + user.value else "", if user'.Some? then "\0engine:" + user'.value else "";
    FreeSplits('\0', f, f', e, e');
    if user.Some? {
      SamePrefix("\0engine:", "\0engine:", user.value, user'.value);
    }
  }

  /** The comment every query text starts with. */
  function Comment(model: string, version: string, hash: string): string {
    "/* semantic-layer model=" + model + " version=" + version + " request=" + hash + " */"
  }

  function CommentStart(model: string, version: string): string {
    "/* semantic-layer model=" + model + " version=" + version + " request="
  }

  /** Two texts that start with the comment of one model and version, and agree, carry the same hash, whatever follows. */
  lemma CommentTellsHash(model: string, version: string, h: string, h': string, rest: string, rest': string)
    requires Free(' ', h) && Free(' ', h')
    requires Comment(model, version, h) + rest == Comment(model, version, h') + rest'
    ensures h == h'
  {
    var start := CommentStart(model, version);
    CommentShape(model, version, h, rest);
    CommentShape(model, version, h', rest');
    SamePrefix(start, start, h + (" */" + rest), h' + (" */" + rest'));
    FreeSplits(' ', h, h', " */" + rest, " */" + rest');
  }

  lemma CommentShape(model: string, version: string, h: string, rest: string)
    ensures Comment(model, version, h) + rest == CommentStart(model, version) + (h + (" */" + rest))
  {}

  lemma ResultKeyInjective(m: string, v: string, h: string, m': string, v': string, h': string)
    requires Free(':', m) && Free(':', v) && Free(':', m') && Free(':', v')
    requires ResultKey(m, v, h) == ResultKey(m', v', h')
    ensures m == m' && v == v' && h == h'
  {
    assert ResultKey(m, v, h) == "sl:result:" + (m + (":" + (v + (":" + h))));
    assert ResultKey(m', v', h') == "sl:result:" + (m' + (":" + (v' + (":" + h'))));
    SamePrefix("sl:result:", "sl:result:", m + (":" + (v + (":" + h))), m' + (":" + (v' + (":" + h'))));
    PartSplits(m, m', v + (":" + h), v' + (":" + h'));
    PartSplits(v, v', h, h');
  }

  // ------------------------------------------------------------------ the key of an identity

  /** The hash, written in hexadecimal, is never the same for two texts. */
  ghost predicate CollisionFree(digest: string -> string) {
    (forall s :: Free('|', digest(s))) && forall s, t :: digest(s) == digest(t) ==> s == t
  }

  /** The rendering of the roles in an identity key: those that grant something, or all of them if the model refuses them. */
  ghost predicate IsRoleKey(globs: Globs, g: Option<Spec>, id: Identity, key: string) {
    if g.None? then key == Join(PolicyRoleList(id))
    else exists v, all :: Renders(globs, g.value, RoleSet(id), v, all, key)
  }

  ghost predicate Renders(globs: Globs, spec: Spec, names: set<string>, v: Verdict<Visibility>, all: seq<string>, key: string) {
    Sees(globs, spec, names, v) && Lists(all, names) && key == Join(if v.Granted? then v.value.roles else all)
  }

  ghost predicate IdentityKeyOf(globs: Globs, g: Option<Spec>, id: Identity, digest: string -> string, key: string) {
    exists roleKey, stream | IsRoleKey(globs, g, id, roleKey) && StreamOf(id, stream) :: key == roleKey + "|" + digest(stream)
  }

  method IdentityKey(globs: Globs, g: Option<Spec>, id: Identity, digest: string -> string) returns (key: string)
    ensures IdentityKeyOf(globs, g, id, digest, key)
  {
    var roles := PolicyRoles(id);
    var all := SortedUniqueCopy(roles);
    var roleKey := Join(all);
    var v := Visible(globs, g, id);
    if v.Granted? {
      roleKey := Join(v.value.roles);
    }
    assert Lists(all, RoleSet(id));
    assert g.Some? ==> Renders(globs, g.value, RoleSet(id), v, all, roleKey);
    var stream := DigestStream(id);
    return roleKey + "|" + digest(stream);
  }

  /** Equal keys mean the same identity, and under no governance spec also the same recorded role key. */
  lemma IdentityKeyTells(globs: Globs, g: Option<Spec>, a: Identity, b: Identity, digest: string -> string, key: string)
    requires CollisionFree(digest)
    requires IdentityKeyOf(globs, g, a, digest, key) && IdentityKeyOf(globs, g, b, digest, key)
    ensures SameIdentity(a, b)
    ensures g.None? ==> Join(PolicyRoleList(a)) == Join(PolicyRoleList(b))
  {
    var r, s :| IsRoleKey(globs, g, a, r) && StreamOf(a, s) && key == r + "|" + digest(s);
    var r', s' :| IsRoleKey(globs, g, b, r') && StreamOf(b, s') && key == r' + "|" + digest(s');
    LastSplits('|', r, r', digest(s), digest(s'));
    StreamIdentifies(a, b, s, s');
  }

  lemma VisibleUnique(globs: Globs, spec: Spec, names: set<string>, v: Verdict<Visibility>, w: Verdict<Visibility>)
    requires Sees(globs, spec, names, v) && Sees(globs, spec, names, w)
    ensures v.Granted? == w.Granted? && (v.Granted? ==> v.value.roles == w.value.roles)
  {
    if v.Granted? {
      AscendingUnique(v.value.roles, w.value.roles);
    }
  }

  lemma RoleKeyUnique(globs: Globs, g: Option<Spec>, id: Identity, r: string, r': string)
    requires IsRoleKey(globs, g, id, r) && IsRoleKey(globs, g, id, r')
    ensures r == r'
  {
    if g.Some? {
      var v, all :| Renders(globs, g.value, RoleSet(id), v, all, r);
      var w, all' :| Renders(globs, g.value, RoleSet(id), w, all', r');
      VisibleUnique(globs, g.value, RoleSet(id), v, w);
      AscendingUnique(all, all');
    }
  }

  /** An identity has one key. */
  lemma IdentityKeyUnique(globs: Globs, g: Option<Spec>, id: Identity, digest: string -> string, key: string, key': string)
    requires IdentityKeyOf(globs, g, id, digest, key) && IdentityKeyOf(globs, g, id, digest, key')
    ensures key == key'
  {
    var r, s :| IsRoleKey(globs, g, id, r) && StreamOf(id, s) && key == r + "|" + digest(s);
    var r', s' :| IsRoleKey(globs, g, id, r') && StreamOf(id, s') && key' == r' + "|" + digest(s');
    StreamIdentifies(id, id, s, s');
    RoleKeyUnique(globs, g, id, r, r');
  }

  lemma SameRoles(a: Identity, b: Identity)
    requires SameIdentity(a, b)
    ensures RoleSet(a) == RoleSet(b)
  {
    forall n ensures n in RoleSet(a) <==> n in RoleSet(b) {
      assert n in a.groups <==> n in Members(a.groups);
      assert n in b.groups <==> n in Members(b.groups);
      assert n in a.roles <==> n in Members(a.roles);
      assert n in b.roles <==> n in Members(b.roles);
    }
  }

  /** What a plan takes from authorization: the recorded role key and the row-filter groups. */
  ghost predicate Authorizes(globs: Globs, g: Option<Spec>, id: Identity, metrics: seq<string>, refs: seq<FieldRef>, v: Verdict<Decision>) {
    if g.None? then v == Granted(Decision(PolicyRoleList(id), Join(PolicyRoleList(id)), []))
    else Decides(globs, g.value, RoleSet(id), metrics, refs, v)
  }

  /** Callers whose identity keys agree are authorized alike: the key covers all that a plan depends on. */
  lemma KeyCoversDecision(globs: Globs, g: Option<Spec>, a: Identity, b: Identity, digest: string -> string, key: string,
                          metrics: seq<string>, refs: seq<FieldRef>, v: Verdict<Decision>, w: Verdict<Decision>)
    requires CollisionFree(digest)
    requires IdentityKeyOf(globs, g, a, digest, key) && IdentityKeyOf(globs, g, b, digest, key)
    requires Authorizes(globs, g, a, metrics, refs, v) && Authorizes(globs, g, b, metrics, refs, w)
    ensures a.claims == b.claims && v.Granted? == w.Granted?
    ensures v.Granted? ==> v.value.roleKey == w.value.roleKey && v.value.groups == w.value.groups
  {
    IdentityKeyTells(globs, g, a, b, digest, key);
    if g.Some? {
      SameRoles(a, b);
      DecisionUnique(globs, g.value, RoleSet(a), metrics, refs, v, w);
    }
  }

  lemma KeyParts(r: string, r': string, d: string)
    requires r + "|" + d == r' + "|" + d
    ensures r == r'
  {
    assert |r| == |r'|;
    assert r == (r + "|" + d)[..|r|] && r' == (r' + "|" + d)[..|r'|];
  }

  /**
   When the key of one identity does not depend on the order and repetition of its groups and roles: under a
   governance spec always, and without one just when the role names come in an order that renders alike.
   */
  lemma KeyIgnoresOrderIff(globs: Globs, g: Option<Spec>, a: Identity, b: Identity, digest: string -> string, k: string, l: string)
    requires SameIdentity(a, b) && IdentityKeyOf(globs, g, a, digest, k) && IdentityKeyOf(globs, g, b, digest, l)
    ensures k == l <==> g.Some? || Join(PolicyRoleList(a)) == Join(PolicyRoleList(b))
  {
    var r, s :| IsRoleKey(globs, g, a, r) && StreamOf(a, s) && k == r + "|" + digest(s);
    var r', s' :| IsRoleKey(globs, g, b, r') && StreamOf(b, s') && l == r' + "|" + digest(s');
    StreamIdentifies(a, b, s, s');
    SameRoles(a, b);
    if k == l {
      KeyParts(r, r', digest(s));
    }
    if g.Some? {
      RoleKeyUnique(globs, g, a, r, r');
    }
  }

  /** Without a governance spec, one identity whose two roles come in either order has two keys. */
  lemma TwoOrdersTwoKeys(globs: Globs, digest: string -> string, k: string, l: string)
    requires IdentityKeyOf(globs, None, Identity("", [], ["a", "b"], map[]), digest, k)
    requires IdentityKeyOf(globs, None, Identity("", [], ["b", "a"], map[]), digest, l)
    ensures SameIdentity(Identity("", [], ["a", "b"], map[]), Identity("", [], ["b", "a"], map[]))
    ensures k != l
  {
    var there, back := Identity("", [], ["a", "b"], map[]), Identity("", [], ["b", "a"], map[]);
    assert Members(there.roles) == Members(back.roles);
    TwoRoles("a", "b");
    TwoRoles("b", "a");
    assert Join(["a", "b"]) == "a" + "," + Join(["b"]) && Join(["b", "a"]) == "b" + "," + Join(["a"]);
    assert Join(["a", "b"])[0] == 'a' && Join(["b", "a"])[0] == 'b';
    KeyIgnoresOrderIff(globs, None, there, back, digest, k, l);
  }

  lemma TwoRoles(a: string, b: string)
    requires a != "" && b != "" && a != b
    ensures PolicyRoleList(Identity("", [], [a, b], map[])) == [a, b]
  {
    var keep := (r: string) => r != "";
    FilterLast(keep, [a], b);
    FilterLast(keep, [], a);
    assert [a] + [b] == [a, b] && [] + [a] == [a] && [] + [a, b] == [a, b];
    DistinctLast([a], b);
    DistinctLast([], a);
  }
}
