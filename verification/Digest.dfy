/** The bytes an identity is hashed from, and the sorted sets they are written from. */
module Digest {
  import opened Decimals
  import opened Seqs
  import opened Strings
  import opened Governance

  datatype Entry = Entry(kind: string, value: string)

  /** Kind and value, each behind its length. */
  function Encode(e: Entry): string {
    Decimal(|e.kind|) + ":" + (e.kind + ("=" + (Decimal(|e.value|) + ":" + (e.value + ";"))))
  }

  function EncodeAll(es: seq<Entry>): string {
    if es == [] then "" else Encode(es[0]) + EncodeAll(es[1..])
  }

  lemma SamePrefix(a: string, b: string, rest: string, rest': string)
    requires |a| == |b| && a + rest == b + rest'
    ensures a == b && rest == rest'
  {
    assert a == (a + rest)[..|a|] && b == (b + rest')[..|b|];
    assert rest == (a + rest)[|a|..] && rest' == (b + rest')[|b|..];
  }

  lemma Unfold(e: Entry, rest: string)
    ensures Encode(e) + rest == Decimal(|e.kind|) + ":" + (e.kind + ("=" + (Decimal(|e.value|) + ":" + (e.value + (";" + rest)))))
  {
  }

  /** An entry at the front of a text can be read in only one way. */
  lemma EntryUnique(e: Entry, f: Entry, rest: string, rest': string)
    requires Encode(e) + rest == Encode(f) + rest'
    ensures e == f && rest == rest'
  {
    Unfold(e, rest);
    Unfold(f, rest');
    var v, w := e.value + (";" + rest), f.value + (";" + rest');
    var s, t := Decimal(|e.value|) + ":" + v, Decimal(|f.value|) + ":" + w;
    PrefixUnique(|e.kind|, |f.kind|, e.kind + ("=" + s), f.kind + ("=" + t));
    SamePrefix(e.kind, f.kind, "=" + s, "=" + t);
    SamePrefix("=", "=", s, t);
    PrefixUnique(|e.value|, |f.value|, v, w);
    SamePrefix(e.value, f.value, ";" + rest, ";" + rest');
    SamePrefix(";", ";", rest, rest');
  }

  /** The encoding of a list of entries is uniquely decodable. */
  lemma {:induction false} EncodeInjective(es: seq<Entry>, fs: seq<Entry>)
    requires EncodeAll(es) == EncodeAll(fs)
    ensures es == fs
    decreases |es|
  {
    if es != [] && fs != [] {
      EntryUnique(es[0], fs[0], EncodeAll(es[1..]), EncodeAll(fs[1..]));
      EncodeInjective(es[1..], fs[1..]);
      assert es == [es[0]] + es[1..] && fs == [fs[0]] + fs[1..];
    }
  }

  // ------------------------------------------------------------------ sorted sets

  /** Drops equal neighbours of an ascending array, in place; what is kept is its first `write` elements. */
  method CompactInPlace(a: array<string>) returns (write: nat)
    requires Sorted(a[..])
    modifies a
    ensures write <= a.Length && Ascending(a[..write])
    ensures forall x :: x in a[..write] <==> x in old(a[..])
  {
    if a.Length < 2 {
      return a.Length;
    }
    ghost var was := a[..];
    write := 1;
    assert a[..1] == was[..1];
    var read := 1;
    while read < a.Length
      invariant 1 <= write <= read <= a.Length
      invariant a[write - 1] == was[read - 1] && forall k | read <= k < a.Length :: a[k] == was[k]
      invariant Ascending(a[..write])
      invariant forall x :: x in a[..write] <==> x in was[..read]
    {
      ghost var kept := a[..write];
      assert was[..read + 1] == was[..read] + [was[read]];
      if a[read] != a[write - 1] {
        AscendingGrows(kept, was, read);
        a[write] := a[read];
        assert a[..write + 1] == kept + [was[read]];
        write := write + 1;
      } else {
        assert kept[write - 1] == was[read];
      }
      read := read + 1;
    }
    assert was[..a.Length] == was;
  }

  lemma AscendingGrows(kept: seq<string>, was: seq<string>, read: nat)
    requires Ascending(kept) && Sorted(was) && 0 < read < |was| && kept != []
    requires kept[|kept| - 1] == was[read - 1] != was[read]
    ensures Ascending(kept + [was[read]])
  {
    forall i | 0 <= i < |kept| ensures Less(kept[i], was[read]) {
      if i < |kept| - 1 {
        assert Less(kept[i], kept[|kept| - 1]);
        LessEqTrans(kept[i], was[read - 1], was[read]);
      }
      if kept[i] == was[read] {
        LessEqAntisym(was[read - 1], was[read]);
      }
    }
  }

  /** A sorted copy without repetitions: the one ascending list of the elements. */
  method SortedUniqueCopy(items: seq<string>) returns (r: seq<string>)
    ensures Lists(r, set x | x in items)
  {
    var out := new string[|items|];
    var sorted := Sort(items);
    forall i | 0 <= i < |items| {
      out[i] := sorted[i];
    }
    assert out[..] == sorted;
    SortSorted(items);
    SortMembers(items);
    var write := CompactInPlace(out);
    return out[..write];
  }

  lemma SortMembers(s: seq<string>)
    ensures forall x :: x in Sort(s) <==> x in s
  {
    forall x ensures x in Sort(s) <==> x in s {
      assert x in Sort(s) <==> x in multiset(Sort(s));
    }
  }

  // ------------------------------------------------------------------ the digest's input

  function Tagged(kind: string, values: seq<string>): (es: seq<Entry>)
    ensures |es| == |values| && forall i | 0 <= i < |es| :: es[i] == Entry(kind, values[i])
  {
    seq(|values|, i requires 0 <= i < |values| => Entry(kind, values[i]))
  }

  function ClaimEntries(names: seq<string>, claims: map<string, string>): (es: seq<Entry>)
    requires forall n | n in names :: n in claims
    ensures |es| == 2 * |names|
  {
    if names == [] then []
    else [Entry("claim-name", names[0]), Entry("claim-value", claims[names[0]])] + ClaimEntries(names[1..], claims)
  }

  function Entries(principal: string, groups: seq<string>, roles: seq<string>, names: seq<string>, claims: map<string, string>): seq<Entry>
    requires forall n | n in names :: n in claims
  {
    [Entry("principal", principal)] + (Tagged("group", groups) + (Tagged("role", roles) + ClaimEntries(names, claims)))
  }

  function Members(s: seq<string>): set<string> {
    set x | x in s
  }

  /** The listings the stream is written from: each set once, in ascending order. */
  ghost predicate Listings(id: Identity, groups: seq<string>, roles: seq<string>, names: seq<string>) {
    Lists(groups, Members(id.groups)) && Lists(roles, Members(id.roles)) && Lists(names, id.claims.Keys)
  }

  /** `stream` is what is hashed for the identity. */
  ghost predicate StreamOf(id: Identity, stream: string) {
    exists groups, roles, names | Listings(id, groups, roles, names) ::
      stream == EncodeAll(Entries(id.principal, groups, roles, names, id.claims))
  }

  /** Two identities that governance and caching must not tell apart. */
  predicate SameIdentity(a: Identity, b: Identity) {
    a.principal == b.principal && Members(a.groups) == Members(b.groups) && Members(a.roles) == Members(b.roles) && a.claims == b.claims
  }

  lemma ListingsSame(a: Identity, b: Identity, groups: seq<string>, roles: seq<string>, names: seq<string>,
                     groups': seq<string>, roles': seq<string>, names': seq<string>)
    requires Listings(a, groups, roles, names) && Listings(b, groups', roles', names') && SameIdentity(a, b)
    ensures groups == groups' && roles == roles' && names == names'
  {
    AscendingUnique(groups, groups');
    AscendingUnique(roles, roles');
    AscendingUnique(names, names');
  }

  /** Entries of one kind before entries of other kinds can be split off in only one way. */
  lemma {:induction false} KindSplits(kind: string, vs: seq<string>, ws: seq<string>, rest: seq<Entry>, rest': seq<Entry>)
    requires Tagged(kind, vs) + rest == Tagged(kind, ws) + rest'
    requires rest != [] ==> rest[0].kind != kind
    requires rest' != [] ==> rest'[0].kind != kind
    ensures vs == ws && rest == rest'
    decreases |vs|
  {
    if vs == [] || ws == [] {
      assert vs == [] ==> Tagged(kind, vs) + rest == rest;
      assert ws == [] ==> Tagged(kind, ws) + rest' == rest';
    } else {
      TaggedStep(kind, vs, rest);
      TaggedStep(kind, ws, rest');
      var es, fs := Tagged(kind, vs[1..]) + rest, Tagged(kind, ws[1..]) + rest';
      assert es == ([Entry(kind, vs[0])] + es)[1..] && fs == ([Entry(kind, ws[0])] + fs)[1..];
      assert Entry(kind, vs[0]) == ([Entry(kind, vs[0])] + es)[0] == ([Entry(kind, ws[0])] + fs)[0];
      KindSplits(kind, vs[1..], ws[1..], rest, rest');
      assert vs == [vs[0]] + vs[1..] && ws == [ws[0]] + ws[1..];
    }
  }

  lemma TaggedStep(kind: string, vs: seq<string>, rest: seq<Entry>)
    requires vs != []
    ensures Tagged(kind, vs) + rest == [Entry(kind, vs[0])] + (Tagged(kind, vs[1..]) + rest)
  {
  }

  lemma {:induction false} ClaimsSame(names: seq<string>, claims: map<string, string>, names': seq<string>, claims': map<string, string>)
    requires (forall n | n in names :: n in claims) && forall n | n in names' :: n in claims'
    requires ClaimEntries(names, claims) == ClaimEntries(names', claims')
    ensures names == names' && forall n | n in names :: claims[n] == claims'[n]
  {
    var es, fs := ClaimEntries(names, claims), ClaimEntries(names', claims');
    assert |names| == |names'|;
    if names != [] {
      assert es[0] == fs[0] && es[1] == fs[1];
      assert es[2..] == ClaimEntries(names[1..], claims) && fs[2..] == ClaimEntries(names'[1..], claims');
      ClaimsSame(names[1..], claims, names'[1..], claims');
      assert names == [names[0]] + names[1..] && names' == [names'[0]] + names'[1..];
    }
  }

  lemma EntriesSame(p: string, groups: seq<string>, roles: seq<string>, names: seq<string>, claims: map<string, string>,
                    p': string, groups': seq<string>, roles': seq<string>, names': seq<string>, claims': map<string, string>)
    requires (forall n | n in names :: n in claims) && forall n | n in names' :: n in claims'
    requires Entries(p, groups, roles, names, claims) == Entries(p', groups', roles', names', claims')
    ensures p == p' && groups == groups' && roles == roles' && names == names' && forall n | n in names :: claims[n] == claims'[n]
  {
    var c, c' := ClaimEntries(names, claims), ClaimEntries(names', claims');
    var r, r' := Tagged("role", roles) + c, Tagged("role", roles') + c';
    var g, g' := Tagged("group", groups) + r, Tagged("group", groups') + r';
    assert Entry("principal", p) == ([Entry("principal", p)] + g)[0] == ([Entry("principal", p')] + g')[0];
    assert g == ([Entry("principal", p)] + g)[1..] && g' == ([Entry("principal", p')] + g')[1..];
    KindSplits("group", groups, groups', r, r');
    KindSplits("role", roles, roles', c, c');
    ClaimsSame(names, claims, names', claims');
  }

  lemma StreamTells(a: Identity, b: Identity, groups: seq<string>, roles: seq<string>, names: seq<string>,
                    groups': seq<string>, roles': seq<string>, names': seq<string>)
    requires Listings(a, groups, roles, names) && Listings(b, groups', roles', names')
    requires EncodeAll(Entries(a.principal, groups, roles, names, a.claims)) == EncodeAll(Entries(b.principal, groups', roles', names', b.claims))
    ensures SameIdentity(a, b)
  {
    EncodeInjective(Entries(a.principal, groups, roles, names, a.claims), Entries(b.principal, groups', roles', names', b.claims));
    EntriesSame(a.principal, groups, roles, names, a.claims, b.principal, groups', roles', names', b.claims);
    assert forall x :: x in Members(a.groups) <==> x in Members(b.groups);
    assert forall x :: x in Members(a.roles) <==> x in Members(b.roles);
    assert forall n :: n in a.claims <==> n in b.claims;
    assert a.claims == b.claims;
  }

  /**
   The hashed bytes identify the identity: they are equal for two identities just when these have the
   same principal, the same set of groups, the same set of roles and the same claims.
   */
  lemma StreamIdentifies(a: Identity, b: Identity, s: string, t: string)
    requires StreamOf(a, s) && StreamOf(b, t)
    ensures s == t <==> SameIdentity(a, b)
  {
    var groups, roles, names :| Listings(a, groups, roles, names) && s == EncodeAll(Entries(a.principal, groups, roles, names, a.claims));
    var groups', roles', names' :| Listings(b, groups', roles', names') && t == EncodeAll(Entries(b.principal, groups', roles', names', b.claims));
    if s == t {
      StreamTells(a, b, groups, roles, names, groups', roles', names');
    }
    if SameIdentity(a, b) {
      ListingsSame(a, b, groups, roles, names, groups', roles', names');
    }
  }

  // ------------------------------------------------------------------ writing it

  lemma TailOfSum(es: seq<Entry>, fs: seq<Entry>)
    requires es != []
    ensures (es + fs)[0] == es[0] && (es + fs)[1..] == es[1..] + fs
  {
  }

  lemma {:induction false} EncodeAppend(es: seq<Entry>, fs: seq<Entry>)
    ensures EncodeAll(es + fs) == EncodeAll(es) + EncodeAll(fs)
  {
    if es == [] {
      assert es + fs == fs;
    } else {
      EncodeAppend(es[1..], fs);
      TailOfSum(es, fs);
      Regroup(Encode(es[0]), EncodeAll(es[1..]), EncodeAll(fs));
    }
  }

  /** Writes one entry for each value. */
  method WriteAll(kind: string, values: seq<string>) returns (out: string)
    ensures out == EncodeAll(Tagged(kind, values))
  {
    out := "";
    for i := 0 to |values|
      invariant out == EncodeAll(Tagged(kind, values[..i]))
    {
      assert Tagged(kind, values[..i + 1]) == Tagged(kind, values[..i]) + [Entry(kind, values[i])];
      EncodeAppend(Tagged(kind, values[..i]), [Entry(kind, values[i])]);
      assert EncodeAll([Entry(kind, values[i])]) == Encode(Entry(kind, values[i])) + "";
      out := out + Encode(Entry(kind, values[i]));
    }
    assert values[..|values|] == values;
  }

  /** Writes the claims in the order of `names`. */
  method WriteClaims(names: seq<string>, claims: map<string, string>) returns (out: string)
    requires forall n | n in names :: n in claims
    ensures out == EncodeAll(ClaimEntries(names, claims))
  {
    out := "";
    ghost var all := EncodeAll(ClaimEntries(names, claims));
    for i := 0 to |names|
      invariant out + EncodeAll(ClaimEntries(names[i..], claims)) == all
    {
      ClaimTurn(names[i..], claims, out);
      assert names[i..][1..] == names[i + 1..];
      out := out + Encode(Entry("claim-name", names[i])) + Encode(Entry("claim-value", claims[names[i]]));
    }
  }

  lemma ClaimTurn(names: seq<string>, claims: map<string, string>, out: string)
    requires names != [] && forall n | n in names :: n in claims
    ensures out + EncodeAll(ClaimEntries(names, claims))
         == out + Encode(Entry("claim-name", names[0])) + Encode(Entry("claim-value", claims[names[0]])) + EncodeAll(ClaimEntries(names[1..], claims))
  {
    var a, b, more := Entry("claim-name", names[0]), Entry("claim-value", claims[names[0]]), ClaimEntries(names[1..], claims);
    var es := ClaimEntries(names, claims);
    assert es[0] == a && es[1..][0] == b && es[1..][1..] == more;
    assert EncodeAll(es) == Encode(a) + EncodeAll(es[1..]);
    assert EncodeAll(es[1..]) == Encode(b) + EncodeAll(more);
    Regroup(out, Encode(a), Encode(b) + EncodeAll(more));
    Regroup(out + Encode(a), Encode(b), EncodeAll(more));
  }

  /** The names of a map's entries, in whatever order the map gives them. */
  method Names(claims: map<string, string>) returns (names: seq<string>)
    ensures DupFree(names) && forall n :: n in names <==> n in claims
  {
    names := [];
    var rest := claims.Keys;
    while rest != {}
      invariant rest <= claims.Keys && DupFree(names)
      invariant forall n :: n in names <==> n in claims && n !in rest
      decreases |rest|
    {
      var n :| n in rest;
      names, rest := names + [n], rest - {n};
    }
  }

  /** The bytes hashed for an identity. */
  method DigestStream(id: Identity) returns (stream: string)
    ensures StreamOf(id, stream)
  {
    var groups := SortedUniqueCopy(id.groups);
    var roles := SortedUniqueCopy(id.roles);
    var unsorted := Names(id.claims);
    SortLists(unsorted);
    var names := Sort(unsorted);
    var g := WriteAll("group", groups);
    var r := WriteAll("role", roles);
    var c := WriteClaims(names, id.claims);
    var principal := Entry("principal", id.principal);
    EncodeAppend(Tagged("role", roles), ClaimEntries(names, id.claims));
    EncodeAppend(Tagged("group", groups), Tagged("role", roles) + ClaimEntries(names, id.claims));
    EncodeAppend([principal], Tagged("group", groups) + (Tagged("role", roles) + ClaimEntries(names, id.claims)));
    assert EncodeAll([principal]) == Encode(principal) + "";
    assert Listings(id, groups, roles, names);
    return Encode(principal) + (g + (r + c));
  }
}
