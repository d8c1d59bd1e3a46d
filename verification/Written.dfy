/** References as they are written. */
module Written {
  // A scalar put together from references and the text between them is read back as these references.

  import opened Fields
  import opened Lexer
  import opened Scanners

  predicate IsName(n: string) {
    n != "" && IsIdentStart(n[0]) && forall i :: 0 <= i < |n| ==> IsIdentChar(n[i])
  }

  /** Text between references: no letters, underscores or quotes. */
  predicate IsGap(g: string) {
    forall i :: 0 <= i < |g| ==> !IsIdentStart(g[i]) && g[i] != '\''
  }

  /** A name ends here. */
  predicate EndsName(t: string) {
    t == "" || !IsIdentChar(t[0])
  }

  function Written(refs: seq<FieldRef>): (texts: seq<string>)
    ensures |texts| == |refs| && forall i :: 0 <= i < |refs| ==> texts[i] == refs[i].dataset + "." + refs[i].field
  {
    if refs == [] then [] else [refs[0].dataset + "." + refs[0].field] + Written(refs[1..])
  }

  /** References with names for parts, and gaps that keep them apart. */
  predicate Scalar(gaps: seq<string>, refs: seq<FieldRef>) {
    && |gaps| == |refs| + 1
    && (forall i :: 0 <= i < |refs| ==> IsName(refs[i].dataset) && IsName(refs[i].field))
    && (forall i :: 0 <= i < |gaps| ==> IsGap(gaps[i]))
    && (forall i :: 0 < i < |gaps| ==> EndsName(gaps[i]) && (i < |refs| ==> gaps[i] != ""))
  }

  lemma {:induction false} NameEnds(n: string, t: string)
    requires (forall i :: 0 <= i < |n| ==> IsIdentChar(n[i])) && EndsName(t)
    ensures IdentLen(n + t) == |n|
  {
    if n == "" {
      assert n + t == t;
    } else {
      assert (n + t)[0] == n[0] && (n + t)[1..] == n[1..] + t;
      NameEnds(n[1..], t);
    }
  }

  lemma Front(a: string, t: string)
    ensures (a + t)[..|a|] == a && (a + t)[|a|..] == t
  {}

  /** The written reference at the front is seen as that reference. */
  lemma RefSeen(ref: FieldRef, t: string, rest: string, s: string)
    requires IsName(ref.dataset) && IsName(ref.field) && EndsName(t)
    requires rest == "." + (ref.field + t) && s == ref.dataset + rest
    ensures RefSpan(s) == Ref(|ref.dataset| + 1 + |ref.field|, ref) && s[|ref.dataset| + 1 + |ref.field|..] == t
  {
    Front(ref.dataset, rest);
    Front(".", ref.field + t);
    Front(ref.field, t);
    NameEnds(ref.dataset, rest);
    NameEnds(ref.field, t);
    assert s[0] == ref.dataset[0] && rest[1] == ref.field[0];
    assert s[|ref.dataset| + 1 + |ref.field|..] == s[|ref.dataset|..][1..][|ref.field|..];
  }

  lemma RefVisited(ref: FieldRef, t: string)
    requires IsName(ref.dataset) && IsName(ref.field) && EndsName(t)
    ensures Visited(ref.dataset + "." + ref.field + t) == [ref] + Visited(t)
  {
    var rest := "." + (ref.field + t);
    var s := ref.dataset + rest;
    assert ref.dataset + "." + ref.field + t == s;
    RefSeen(ref, t, rest, s);
  }

  lemma {:induction false} GapPassed(g: string, t: string)
    requires IsGap(g)
    ensures Visited(g + t) == Visited(t)
  {
    if g == "" {
      assert g + t == t;
    } else {
      assert (g + t)[0] == g[0] && (g + t)[1..] == g[1..] + t;
      GapPassed(g[1..], t);
      assert [] + Visited(t) == Visited(t);
    }
  }

  /** The extractor and the rewriter visit just the references that were written, in order, each as often as it was. */
  lemma {:induction false} WrittenVisited(gaps: seq<string>, refs: seq<FieldRef>)
    requires Scalar(gaps, refs)
    ensures Visited(Interleave(gaps, Written(refs))) == refs
    decreases |refs|
  {
    if refs == [] {
      GapPassed(gaps[0], "");
      assert gaps[0] + "" == gaps[0];
    } else {
      var t := Interleave(gaps[1..], Written(refs[1..]));
      RestScalar(gaps, refs);
      WrittenVisited(gaps[1..], refs[1..]);
      RestEnds(gaps, refs);
      RefVisited(refs[0], t);
      FirstWritten(gaps, refs);
      GapPassed(gaps[0], refs[0].dataset + "." + refs[0].field + t);
      assert [refs[0]] + refs[1..] == refs;
    }
  }

  lemma FirstWritten(gaps: seq<string>, refs: seq<FieldRef>)
    requires |gaps| == |refs| + 1 && refs != []
    ensures Interleave(gaps, Written(refs)) == gaps[0] + (refs[0].dataset + "." + refs[0].field + Interleave(gaps[1..], Written(refs[1..])))
  {
    var x := refs[0].dataset + "." + refs[0].field;
    assert Written(refs)[0] == x && Written(refs)[1..] == Written(refs[1..]);
    Rejoin(gaps[0], x, Interleave(gaps[1..], Written(refs[1..])));
  }

  lemma Rejoin(a: string, b: string, c: string)
    ensures a + b + c == a + (b + c)
  {}

  lemma RestScalar(gaps: seq<string>, refs: seq<FieldRef>)
    requires Scalar(gaps, refs) && refs != []
    ensures Scalar(gaps[1..], refs[1..]) && Written(refs)[1..] == Written(refs[1..])
  {
  }

  lemma RestEnds(gaps: seq<string>, refs: seq<FieldRef>)
    requires Scalar(gaps, refs) && refs != []
    ensures EndsName(Interleave(gaps[1..], Written(refs)[1..]))
  {
    var g, x := gaps[1..], Written(refs)[1..];
    assert g[0] == gaps[1];
    if x != [] {
      assert Interleave(g, x) == g[0] + x[0] + Interleave(g[1..], x[1..]);
    }
  }
}
