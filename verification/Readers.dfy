/**
 Two readers of one predicate text. The validator reads a quote in a literal as its end unless it is doubled.
 StarRocks also reads a backslash as an escape. When the two agree on which bytes lie inside literals, whatever
 the claims are.
 */
module Readers {
  import opened Options
  import opened Lexer
  import opened Predicate
  import opened PredParser
  import opened Claims

  /** Where a reader stands: outside literals, inside one, after a quote that closes it or is doubled, or after a backslash. */
  datatype Where = Out | Within | Closing | Escape

  function Step(escapes: bool, w: Where, c: char): Where {
    match w
    case Within => if c == '\'' then Closing else if escapes && c == '\\' then Escape else Within
    case Escape => Within
    case _ => if c == '\'' then Within else Out
  }

  function Read(escapes: bool, w: Where, s: string): Where
    decreases |s|
  {
    if s == "" then w else Read(escapes, Step(escapes, w, s[0]), s[1..])
  }

  predicate Inside(w: Where) {
    w.Within? || w.Escape?
  }

  /** Both readers find the same bytes inside literals. */
  ghost predicate SameReading(s: string) {
    ReadAlike(Out, s)
  }

  /** The same, from a place inside or outside a literal. */
  ghost predicate ReadAlike(w: Where, s: string) {
    forall n {:trigger s[..n]} | 0 <= n <= |s| :: Inside(Read(true, w, s[..n])) == Inside(Read(false, Plainly(w), s[..n]))
  }

  /** Where the reader without escapes stands then. */
  function Plainly(w: Where): Where {
    if w.Escape? then Within else w
  }

  /** No quote comes directly after an escaping backslash. */
  predicate Meets(w: Where, s: string)
    decreases |s|
  {
    s == "" || (!(w.Escape? && s[0] == '\'') && Meets(Step(true, w, s[0]), s[1..]))
  }

  lemma ReadNext(escapes: bool, w: Where, s: string, n: nat)
    requires 0 < n <= |s|
    ensures Read(escapes, w, s[..n]) == Read(escapes, Step(escapes, w, s[0]), s[1..][..n - 1])
  {
    assert s[..n][1..] == s[1..][..n - 1];
  }

  /** The readers agree exactly as long as no quote comes after an escaping backslash. */
  lemma {:induction false} MeetsIff(w: Where, s: string)
    ensures ReadAlike(w, s) <==> Meets(w, s)
    decreases |s|
  {
    if s != "" {
      var w', p' := Step(true, w, s[0]), Step(false, Plainly(w), s[0]);
      ReadNext(true, w, s, 1);
      ReadNext(false, Plainly(w), s, 1);
      assert Inside(Read(true, w, s[..1])) == Inside(w') && Inside(Read(false, Plainly(w), s[..1])) == Inside(p');
      if w.Escape? && s[0] == '\'' {
        assert Inside(w') != Inside(p');
      } else {
        assert p' == Plainly(w');
        MeetsIff(w', s[1..]);
        AlikeNext(w, s);
      }
    }
  }

  lemma AlikeNext(w: Where, s: string)
    requires s != "" && Step(false, Plainly(w), s[0]) == Plainly(Step(true, w, s[0]))
    ensures ReadAlike(w, s) <==> ReadAlike(Step(true, w, s[0]), s[1..])
  {
    forall n | 0 < n <= |s|
      ensures Read(true, w, s[..n]) == Read(true, Step(true, w, s[0]), s[1..][..n - 1])
      ensures Read(false, Plainly(w), s[..n]) == Read(false, Step(false, Plainly(w), s[0]), s[1..][..n - 1])
    {
      ReadNext(true, w, s, n);
      ReadNext(false, Plainly(w), s, n);
    }
    if ReadAlike(w, s) {
      forall n | 0 <= n <= |s[1..]|
        ensures Inside(Read(true, Step(true, w, s[0]), s[1..][..n])) == Inside(Read(false, Plainly(Step(true, w, s[0])), s[1..][..n]))
      {
        var k := n + 1;
        assert Inside(Read(true, w, s[..k])) == Inside(Read(false, Plainly(w), s[..k]));
        assert k - 1 == n;
      }
    }
    if ReadAlike(Step(true, w, s[0]), s[1..]) {
      forall n | 0 <= n <= |s| ensures Inside(Read(true, w, s[..n])) == Inside(Read(false, Plainly(w), s[..n])) {
        if n > 0 {
          var k := n - 1;
          assert Inside(Read(true, Step(true, w, s[0]), s[1..][..k])) == Inside(Read(false, Plainly(Step(true, w, s[0])), s[1..][..k]));
        }
      }
    }
  }

  lemma {:induction false} ReadConcat(escapes: bool, w: Where, a: string, b: string)
    ensures Read(escapes, w, a + b) == Read(escapes, Read(escapes, w, a), b)
    decreases |a|
  {
    if a == "" {
      assert a + b == b;
    } else {
      assert (a + b)[1..] == a[1..] + b;
      ReadConcat(escapes, Step(escapes, w, a[0]), a[1..], b);
    }
  }

  lemma {:induction false} MeetsConcat(w: Where, a: string, b: string)
    ensures Meets(w, a + b) <==> Meets(w, a) && Meets(Read(true, w, a), b)
    decreases |a|
  {
    if a == "" {
      assert a + b == b;
    } else {
      assert (a + b)[1..] == a[1..] + b;
      MeetsConcat(Step(true, w, a[0]), a[1..], b);
    }
  }

  // ------------------------------------------------------ a literal written by the dialect

  /** The contents and length of a literal's rest up to and including its closing quote, as a dialect reads it. */
  function LiteralBody(escapes: bool, s: string): Option<(string, nat)> {
    if s == "" then None
    else if s[0] == '\'' then
      if |s| > 1 && s[1] == '\'' then After("'", 2, LiteralBody(escapes, s[2..])) else Some(("", 1))
    else if escapes && s[0] == '\\' then
      if |s| > 1 then After([s[1]], 2, LiteralBody(escapes, s[2..])) else None
    else After([s[0]], 1, LiteralBody(escapes, s[1..]))
  }

  lemma DoubleCons(c: char, v: string, q: char)
    ensures Double([c] + v, q) == (if c == q then [c, c] else [c]) + Double(v, q)
  {
    assert ([c] + v)[1..] == v;
  }

  /** Escaping works byte by byte. */
  lemma EscapedCons(d: Dialect, v: string)
    requires v != ""
    ensures Escaped(d, v) == (if v[0] == '\'' || (d.StarRocks? && v[0] == '\\') then [v[0], v[0]] else [v[0]]) + Escaped(d, v[1..])
  {
    if d.StarRocks? {
      var rest := Double(v[1..], '\\');
      if v[0] == '\\' {
        assert Double(v, '\\') == ['\\'] + (['\\'] + rest);
        DoubleCons('\\', ['\\'] + rest, '\'');
        DoubleCons('\\', rest, '\'');
        assert ['\\'] + (['\\'] + Double(rest, '\'')) == ['\\', '\\'] + Double(rest, '\'');
      } else {
        DoubleCons(v[0], rest, '\'');
      }
    }
  }

  lemma BodyStep(escapes: bool, two: string, rest: string)
    requires |two| == 2 && (two == "''" || (escapes && two[0] == '\\'))
    ensures LiteralBody(escapes, two + rest) == After([two[1]], 2, LiteralBody(escapes, rest))
  {
    assert (two + rest)[2..] == rest;
  }

  lemma BodyByte(escapes: bool, c: char, rest: string)
    requires c != '\'' && !(escapes && c == '\\')
    ensures LiteralBody(escapes, [c] + rest) == After([c], 1, LiteralBody(escapes, rest))
  {
    assert ([c] + rest)[1..] == rest;
  }

  /** A literal reads back as the value it was written for, and ends at its own closing quote, unless another literal follows directly. */
  lemma {:induction false} EscapedReadsBack(d: Dialect, v: string, rest: string)
    requires rest == "" || rest[0] != '\''
    ensures LiteralBody(d.StarRocks?, Escaped(d, v) + ("'" + rest)) == Some((v, |Escaped(d, v)| + 1))
  {
    var tail := "'" + rest;
    if v == "" {
      assert Escaped(d, v) == "" && Escaped(d, v) + tail == tail;
    } else {
      EscapedReadsBack(d, v[1..], rest);
      EscapedCons(d, v);
      OneReadBack(d, v[0], Escaped(d, v[1..]), tail);
      assert [v[0]] + v[1..] == v;
    }
  }

  /** One escaped byte before the rest of the body. */
  lemma OneReadBack(d: Dialect, c: char, body: string, tail: string)
    ensures var first := if c == '\'' || (d.StarRocks? && c == '\\') then [c, c] else [c];
            LiteralBody(d.StarRocks?, first + body + tail) == After([c], |first|, LiteralBody(d.StarRocks?, body + tail))
  {
    if c == '\'' || (d.StarRocks? && c == '\\') {
      assert [c, c] + body + tail == [c, c] + (body + tail);
      BodyStep(d.StarRocks?, [c, c], body + tail);
    } else {
      assert [c] + body + tail == [c] + (body + tail);
      BodyByte(d.StarRocks?, c, body + tail);
    }
  }

  // ------------------------------------------------------ no placeholder inside a literal

  /** The text before the first quote. */
  function FirstQuote(s: string): (n: nat)
    ensures n <= |s| && (n < |s| ==> s[n] == '\'') && forall i | 0 <= i < n :: s[i] != '\''
  {
    if s == "" || s[0] == '\'' then 0 else 1 + FirstQuote(s[1..])
  }

  lemma {:induction false} QuotelessStaysOut(p: string)
    requires forall i | 0 <= i < |p| :: p[i] != '\''
    ensures Read(false, Out, p) == Out
  {
    if p != "" {
      QuotelessStaysOut(p[1..]);
    }
  }

  /** A token that is no string, or a blank, lies before the first quote. */
  lemma HeadBeforeQuote(s: string)
    requires s != "" && s[0] != '\''
    ensures Head(s).Tok? ==> Head(s).len <= FirstQuote(s) && !Head(s).token.Str?
  {
    var p, a := s[..FirstQuote(s)], s[FirstQuote(s)..];
    assert p + a == s;
    HeadOfText(p, a, a);
  }

  /** Where the plain reader stands at the end of a literal's body, and what follows it. */
  lemma {:induction false} BodyState(u: string)
    requires StrBody(u).Some?
    ensures var n := StrBody(u).value.1; Read(false, Within, u[..n]) == Closing && (n < |u| ==> u[n] != '\'')
    decreases |u|
  {
    if u[0] == '\'' && !(|u| > 1 && u[1] == '\'') {
      assert u[..1] == "'";
      ReadNext(false, Within, u, 1);
      assert Read(false, Closing, "") == Closing;
    } else {
      var k := if u[0] == '\'' then 2 else 1;
      BodyState(u[k..]);
      var n := StrBody(u[k..]).value.1;
      assert u[..k + n] == u[..k] + u[k..][..n];
      ReadConcat(false, Within, u[..k], u[k..][..n]);
      StepsOver(u, k);
    }
  }

  /** One byte of a body, or a doubled quote, leaves the reader inside. */
  lemma StepsOver(u: string, k: nat)
    requires 0 < k <= |u| && k == (if u[0] == '\'' then 2 else 1) && (k == 2 ==> u[1] == '\'')
    ensures Read(false, Within, u[..k]) == Within
  {
    ReadNext(false, Within, u, k);
    if k == 2 {
      assert u[1..][..1][0] == '\'';
      ReadNext(false, Closing, u[1..], 1);
      assert Read(false, Within, u[1..][1..][..0]) == Within;
    } else {
      assert u[1..][..0] == "";
    }
  }

  /** A single quote met inside a literal is its last byte. */
  lemma {:induction false} SingleQuoteEnds(u: string, k: nat)
    requires StrBody(u).Some? && k + 1 < |u| && u[k] == '\'' && u[k + 1] != '\'' && Read(false, Within, u[..k]) == Within
    ensures StrBody(u).value.1 <= k + 1
    decreases |u|
  {
    if !(u[0] == '\'' && !(|u| > 1 && u[1] == '\'')) {
      var n := if u[0] == '\'' then 2 else 1;
      if k >= n {
        assert u[..k] == u[..n] + u[n..][..k - n];
        ReadConcat(false, Within, u[..n], u[n..][..k - n]);
        StepsOver(u, n);
        SingleQuoteEnds(u[n..], k - n);
      }
    }
  }

  lemma TornCons(a: Token, ts: seq<Token>)
    requires Torn(ts)
    ensures Torn([a] + ts)
  {
    var i :| 0 <= i < |ts| - 1 && ts[i].Str? && ts[i + 1] == Ident("x");
    assert ([a] + ts)[i + 1].Str? && ([a] + ts)[i + 1 + 1] == Ident("x");
  }

  /** `'x'` stands at `i`, where a literal is open. */
  predicate OpenAt(s: string, i: nat) {
    i + 2 < |s| && s[i] == '\'' && s[i + 1] == 'x' && s[i + 2] == '\'' && Read(false, Out, s[..i]) == Within
  }

  /** A placeholder inside a literal shows in the tokens: its first quote ends the literal, and its x comes next. */
  lemma {:induction false} OpenShows(s: string, i: nat)
    requires Tokens(s).Some? && OpenAt(s, i)
    ensures Torn(Tokens(s).value)
    decreases |s|
  {
    if s[0] == '\'' {
      OpenInLiteral(s, i);
    } else {
      HeadBeforeQuote(s);
      var n := HeadLen(s);
      QuotelessPrefix(s, i, n);
      TokensAfterHead(s);
      OpenShows(s[n..], i - n);
      TornAfterHead(s);
    }
  }

  function HeadLen(s: string): nat
    requires s != ""
  {
    if Head(s).Tok? then Head(s).len else 1
  }

  lemma TokensAfterHead(s: string)
    requires s != "" && Tokens(s).Some?
    ensures 0 < HeadLen(s) <= |s| && Tokens(s[HeadLen(s)..]).Some?
    ensures Tokens(s).value == (if Head(s).Tok? then [Head(s).token] else []) + Tokens(s[HeadLen(s)..]).value
  {
  }

  lemma TornAfterHead(s: string)
    requires s != "" && Tokens(s).Some? && HeadLen(s) <= |s| && Tokens(s[HeadLen(s)..]).Some? && Torn(Tokens(s[HeadLen(s)..]).value)
    ensures Torn(Tokens(s).value)
  {
    TokensAfterHead(s);
    if Head(s).Tok? {
      TornCons(Head(s).token, Tokens(s[HeadLen(s)..]).value);
    }
  }

  lemma QuotelessPrefix(s: string, i: nat, n: nat)
    requires OpenAt(s, i) && s[0] != '\'' && 0 < n <= |s| && (n == 1 || n <= FirstQuote(s))
    ensures n < i && OpenAt(s[n..], i - n)
  {
    var q := FirstQuote(s);
    if i <= q {
      QuotelessStaysOut(s[..i]);
    }
    assert n <= q < i;
    assert s[..i] == s[..n] + s[n..][..i - n];
    ReadConcat(false, Out, s[..n], s[n..][..i - n]);
    QuotelessStaysOut(s[..n]);
  }

  lemma {:induction false} OpenInLiteral(s: string, i: nat)
    requires Tokens(s).Some? && OpenAt(s, i) && s[0] == '\''
    ensures Torn(Tokens(s).value)
    decreases |s|, 0
  {
    var u := s[1..];
    assert i > 0;
    ReadNext(false, Out, s, i);
    assert StrBody(u).Some?;
    var n := StrBody(u).value.1;
    SingleQuoteEnds(u, i - 1);
    BodyState(u);
    var rest := s[1 + n..];
    if n == i {
      XNext(s, i);
    } else {
      PastBody(s, i, n);
      OpenShows(rest, i - n - 1);
      LiteralFirst(s);
      TornCons(Str(StrBody(u).value.0), Tokens(rest).value);
    }
  }

  lemma LiteralFirst(s: string)
    requires s != "" && s[0] == '\'' && StrBody(s[1..]).Some? && Tokens(s).Some?
    ensures var b := StrBody(s[1..]).value;
            Tokens(s[1 + b.1..]).Some? && Tokens(s).value == [Str(b.0)] + Tokens(s[1 + b.1..]).value
  {
  }

  /** The quote at `i` ends the literal, and x' follows. */
  lemma XNext(s: string, i: nat)
    requires Tokens(s).Some? && i + 2 < |s| && s[0] == '\'' && StrBody(s[1..]).Some? && StrBody(s[1..]).value.1 == i
    requires s[i + 1] == 'x' && s[i + 2] == '\''
    ensures Torn(Tokens(s).value)
  {
    LiteralFirst(s);
    XRest(s, i);
    XThenQuote(s[i + 3..]);
    assert Tokens(s).value[0].Str? && Tokens(s).value[0 + 1] == Ident("x");
  }

  lemma XRest(s: string, i: nat)
    requires i + 2 < |s| && s[i + 1] == 'x' && s[i + 2] == '\''
    ensures s[1 + i..] == "x'" + s[i + 3..]
  {}

  /** After a literal that does not go on, reading starts afresh. */
  lemma PastBody(s: string, i: nat, n: nat)
    requires OpenAt(s, i) && s[0] == '\'' && n < i && 1 + n < |s| && s[1 + n] != '\''
    requires Read(false, Within, s[1..][..n]) == Closing && Read(false, Within, s[1..][..i - 1]) == Within
    ensures n + 1 < i && OpenAt(s[1 + n..], i - n - 1)
  {
    var u, m := s[1..], i - 1 - n;
    assert u[..i - 1] == u[..n] + u[n..][..m];
    ReadConcat(false, Within, u[..n], u[n..][..m]);
    assert m > 0;
    assert u[n..] == s[1 + n..];
    ReadNext(false, Closing, u[n..], m);
    ReadNext(false, Out, u[n..], m);
  }

  // ------------------------------------------------------ templates

  /** Every placeholder starts outside a literal, or directly after one, for the reader with escapes. */
  predicate Untorn(w: Where, t: Template)
    decreases |t|
  {
    t == [] ||
    match t[0]
    case Char(c) => Untorn(Step(true, w, c), t[1..])
    case Claim(n) => (w.Out? || w.Closing?) && Untorn(Closing, t[1..])
  }

  lemma {:induction false} AcceptedUntorn(v: string, pre: string, w: Where, t: Template)
    requires v == pre + Render(t, Placeholder) && Read(true, Out, pre) == w && Meets(Out, v)
    requires Tokens(v).Some? && !Torn(Tokens(v).value)
    ensures Untorn(w, t)
    decreases |t|
  {
    if t != [] {
      var rest := Render(t[1..], Placeholder);
      match t[0]
      case Char(c) =>
        assert pre + ([c] + rest) == (pre + [c]) + rest;
        ReadConcat(true, Out, pre, [c]);
        assert Read(true, w, [c]) == Step(true, w, c);
        AcceptedUntorn(v, pre + [c], Step(true, w, c), t[1..]);
      case Claim(n) =>
        assert Render(t, Placeholder) == "'x'" + rest;
        ClaimStandsClear(v, pre, w, rest);
        assert pre + ("'x'" + rest) == (pre + "'x'") + rest;
        ReadConcat(true, Out, pre, "'x'");
        ReadPlaceholder(w);
        AcceptedUntorn(v, pre + "'x'", Closing, t[1..]);
    }
  }

  lemma ReadPlaceholder(w: Where)
    requires w.Out? || w.Closing?
    ensures Read(true, w, "'x'") == Closing
  {
    assert "'x'"[1..] == "x'" && "x'"[1..] == "'" && "'"[1..] == "";
    assert Read(true, Closing, "") == Closing && Read(true, Within, "'") == Closing && Read(true, Within, "x'") == Closing;
  }

  lemma ClaimStandsClear(v: string, pre: string, w: Where, rest: string)
    requires v == pre + ("'x'" + rest) && Read(true, Out, pre) == w && Meets(Out, v)
    requires Tokens(v).Some? && !Torn(Tokens(v).value)
    ensures w.Out? || w.Closing?
  {
    var i := |pre|;
    assert v[..i] == pre && v[i] == '\'' && v[i + 1] == 'x' && v[i + 2] == '\'';
    MeetsConcat(Out, pre, "'x'" + rest);
    PlainRead(Out, pre);
    if w.Within? {
      OpenShows(v, i);
    }
  }

  /** Where the readers agree, the plain one stands at the same place. */
  lemma {:induction false} PlainRead(w: Where, s: string)
    requires Meets(w, s)
    ensures Read(false, Plainly(w), s) == Plainly(Read(true, w, s))
    decreases |s|
  {
    if s != "" {
      PlainRead(Step(true, w, s[0]), s[1..]);
    }
  }

  /** A body that leaves the reader inside the literal, without a quote after an escaping backslash. */
  ghost predicate Neutral(b: string) {
    Meets(Within, b) && Read(true, Within, b) == Within
  }

  lemma {:induction false} EscapedNeutral(v: string)
    ensures Neutral(Escaped(StarRocks, v))
  {
    if v != "" {
      EscapedNeutral(v[1..]);
      EscapedCons(StarRocks, v);
      var first := if v[0] == '\'' || v[0] == '\\' then [v[0], v[0]] else [v[0]];
      NeutralFirst(v[0]);
      MeetsConcat(Within, first, Escaped(StarRocks, v[1..]));
      ReadConcat(true, Within, first, Escaped(StarRocks, v[1..]));
    } else {
      assert Escaped(StarRocks, v) == "";
    }
  }

  lemma NeutralFirst(c: char)
    ensures Neutral(if c == '\'' || c == '\\' then [c, c] else [c])
  {
    if c == '\'' || c == '\\' {
      assert [c, c][1..] == [c] && [c][1..] == "";
      assert Read(true, Step(true, Within, c), [c]) == Within && Meets(Step(true, Within, c), [c]);
    } else {
      assert [c][1..] == "";
    }
  }

  /** A placeholder outside literals, rendered with a neutral body, is met and left behind. */
  lemma ClaimMet(w: Where, b: string, rest: string)
    requires (w.Out? || w.Closing?) && Neutral(b)
    ensures Meets(w, "'" + b + "'" + rest) <==> Meets(Closing, rest)
  {
    assert "'" + b + "'" + rest == "'" + (b + ("'" + rest));
    assert ("'" + (b + ("'" + rest)))[1..] == b + ("'" + rest);
    MeetsConcat(Within, b, "'" + rest);
    assert ("'" + rest)[1..] == rest;
  }

  /** Where every placeholder stands outside literals, one rendering is read alike exactly when any other is. */
  lemma {:induction false} RenderingsMeet(w: Where, t: Template, g: string -> string, h: string -> string)
    requires Untorn(w, t) && (forall n :: Neutral(g(n))) && forall n :: Neutral(h(n))
    ensures Meets(w, Render(t, g)) <==> Meets(w, Render(t, h))
    decreases |t|
  {
    if t != [] {
      match t[0]
      case Char(c) =>
        RenderingsMeet(Step(true, w, c), t[1..], g, h);
        assert ([c] + Render(t[1..], g))[1..] == Render(t[1..], g) && ([c] + Render(t[1..], h))[1..] == Render(t[1..], h);
      case Claim(n) =>
        RenderingsMeet(Closing, t[1..], g, h);
        ClaimMet(w, g(n), Render(t[1..], g));
        ClaimMet(w, h(n), Render(t[1..], h));
    }
  }

  lemma PlaceholderNeutral()
    ensures Neutral("x")
  {
    assert "x"[1..] == "";
  }

  lemma {:induction false} RenderSame(t: Template, g: string -> string, h: string -> string)
    requires forall i | 0 <= i < |t| && t[i].Claim? :: g(t[i].name) == h(t[i].name)
    ensures Render(t, g) == Render(t, h)
  {
    if t != [] {
      assert forall i | 0 <= i < |t[1..]| :: t[1..][i] == t[i + 1];
      RenderSame(t[1..], g, h);
    }
  }

  /** The caller carries every claim the template names. */
  ghost predicate Carries(t: Template, claims: map<string, string>) {
    forall i | 0 <= i < |t| && t[i].Claim? :: t[i].name in claims
  }

  /** Both readers agree on the predicate that runs, whatever the claims hold. */
  ghost predicate AlwaysReadAlike(t: Template) {
    forall claims | Carries(t, claims) && Expand(t, claims, StarRocks).Ok? :: SameReading(Expand(t, claims, StarRocks).text)
  }

  /**
   StarRocks finds the literals where the validator found them, whatever the claims hold, exactly when it does so on the
   validated text: a check that needs no claim.
   */
  lemma EnginesAgreeIff(t: Template)
    requires Validatable(t).Ok? && Parsed(Validatable(t).text).Some?
    ensures AlwaysReadAlike(t) <==> SameReading(Validatable(t).text)
  {
    var v := Validatable(t).text;
    MeetsIff(Out, v);
    if AlwaysReadAlike(t) {
      var claims := map n | n in Names(t) :: "x";
      XForEvery(t, claims);
      assert SameReading(Expand(t, claims, StarRocks).text);
    }
    if SameReading(v) {
      forall claims | Carries(t, claims) && Expand(t, claims, StarRocks).Ok? ensures SameReading(Expand(t, claims, StarRocks).text) {
        ExpansionMeets(t, claims);
        MeetsIff(Out, Expand(t, claims, StarRocks).text);
      }
    }
  }

  function Names(t: Template): set<string> {
    set i | 0 <= i < |t| && t[i].Claim? :: t[i].name
  }

  lemma XForEvery(t: Template, claims: map<string, string>)
    requires Validatable(t).Ok? && claims == map n | n in Names(t) :: "x"
    ensures Carries(t, claims) && Expand(t, claims, StarRocks) == Ok(Validatable(t).text)
  {
    assert Double("x", '\\') == "x" + Double("x"[1..], '\\') && "x"[1..] == "" && "x" + "" == "x";
    assert Double("x", '\'') == "x" + Double("x"[1..], '\'');
    assert Escaped(StarRocks, "x") == "x";
    RenderSame(t, n => ClaimBody(StarRocks, claims, n), Placeholder);
  }

  lemma ExpansionMeets(t: Template, claims: map<string, string>)
    requires Validatable(t).Ok? && Parsed(Validatable(t).text).Some? && Meets(Out, Validatable(t).text)
    requires Expand(t, claims, StarRocks).Ok?
    ensures Meets(Out, Expand(t, claims, StarRocks).text)
  {
    var v := Validatable(t).text;
    TokensClosed(v);
    AcceptedNotTorn(Tokens(v).value);
    assert "" + Render(t, Placeholder) == v;
    AcceptedUntorn(v, "", Out, t);
    var g := n => ClaimBody(StarRocks, claims, n);
    forall n ensures Neutral(g(n)) {
      if n in claims {
        EscapedNeutral(claims[n]);
      }
    }
    PlaceholderNeutral();
    RenderingsMeet(Out, t, Placeholder, g);
  }

  lemma {:induction false} NoBackslashMeets(w: Where, s: string)
    requires !w.Escape? && '\\' !in s
    ensures Meets(w, s)
    decreases |s|
  {
    if s != "" {
      assert s[0] in s && forall c :: c in s[1..] ==> c in s;
      NoBackslashMeets(Step(true, w, s[0]), s[1..]);
    }
  }

  /** In particular when the author wrote no backslash. */
  lemma NoBackslashAgrees(t: Template)
    requires Validatable(t).Ok? && Parsed(Validatable(t).text).Some? && Char('\\') !in t
    ensures AlwaysReadAlike(t)
  {
    RenderNoBackslash(t);
    NoBackslashMeets(Out, Validatable(t).text);
    MeetsIff(Out, Validatable(t).text);
    EnginesAgreeIff(t);
  }

  lemma {:induction false} RenderNoBackslash(t: Template)
    requires Char('\\') !in t
    ensures '\\' !in Render(t, Placeholder)
  {
    if t != [] {
      assert t[0] in t && forall p :: p in t[1..] ==> p in t;
      RenderNoBackslash(t[1..]);
    }
  }

  // ------------------------------------------------------ where they part

  /** a='\'{{claim.x}} */
  function BackslashTemplate(): Template {
    [Char('a'), Char('='), Char('\''), Char('\\'), Char('\''), Claim("x")]
  }

  lemma BackslashRenders(g: string -> string)
    ensures Render(BackslashTemplate(), g) == "a='\\'" + ("'" + g("x") + "'")
  {
    var t := BackslashTemplate();
    assert t[1..][0] == Char('=') && t[2..][0] == Char('\'') && t[3..][0] == Char('\\') && t[4..][0] == Char('\'') && t[5..] == [Claim("x")];
    assert t[1..][1..] == t[2..] && t[2..][1..] == t[3..] && t[3..][1..] == t[4..] && t[4..][1..] == t[5..];
    assert Render([], g) == "" && [Claim("x")][1..] == [];
    var lit := "'" + g("x") + "'";
    assert Render(t[5..], g) == lit + "" == lit;
    assert Render(t[4..], g) == "'" + lit && Render(t[3..], g) == "\\" + ("'" + lit);
    assert Render(t[2..], g) == "'" + ("\\" + ("'" + lit)) && Render(t[1..], g) == "=" + ("'" + ("\\" + ("'" + lit)));
  }

  lemma {:induction false} NoBrace(s: string, pat: string)
    requires pat != "" && pat[0] !in s
    ensures !Contains(s, pat)
  {
    if s != "" {
      assert s[0] in s && forall c :: c in s[1..] ==> c in s;
      NoBrace(s[1..], pat);
    }
  }

  function BackslashText(): string { "a='\\''x'" }

  lemma BackslashBody()
    ensures StrBody("\\''x'") == Some(("\\'x", 5))
  {
    var b := "\\''x'";
    assert b[1..] == "''x'" && "''x'"[2..] == "x'" && "x'"[1..] == "'" && "x" + "" == "x";
    assert StrBody("'") == Some(("", 1)) && StrBody("x'") == Some(("x", 2));
    assert StrBody("''x'") == Some(("'" + "x", 4));
    assert StrBody(b) == After("\\", 1, Some(("'" + "x", 4))) && "\\" + ("'" + "x") == "\\'x";
  }

  lemma LastLiteral()
    ensures Tokens("'\\''x'") == Some([Str("\\'x"), Eof])
  {
    var s := "'\\''x'";
    BackslashBody();
    assert s[1..] == "\\''x'" && s[6..] == "" && Tokens("") == Some([Eof]);
    assert [Str("\\'x")] + [Eof] == [Str("\\'x"), Eof];
  }

  lemma OneToken(s: string, t: Token, n: nat, ts: seq<Token>)
    requires s != "" && Head(s) == Tok(t, n) && Tokens(s[n..]) == Some(ts)
    ensures Tokens(s) == Some([t] + ts)
  {
  }

  lemma BackslashTokens()
    ensures Tokens(BackslashText()) == Some([Ident("a"), Op(Eq), Str("\\'x"), Eof])
  {
    OperatorAndLiteral();
    BackslashHead();
    ColumnFirst(BackslashText(), "='\\''x'", Str("\\'x"));
  }

  lemma ColumnFirst(s: string, rest: string, l: Token)
    requires s != "" && Head(s) == Tok(Ident("a"), 1) && s[1..] == rest && Tokens(rest) == Some([Op(Eq), l, Eof])
    ensures Tokens(s) == Some([Ident("a"), Op(Eq), l, Eof])
  {
    OneToken(s, Ident("a"), 1, [Op(Eq), l, Eof]);
    assert [Ident("a")] + [Op(Eq), l, Eof] == [Ident("a"), Op(Eq), l, Eof];
  }

  lemma BackslashHead()
    ensures Head(BackslashText()) == Tok(Ident("a"), 1) && BackslashText()[1..] == "='\\''x'"
  {
    var s := BackslashText();
    assert s[..1] == "a" && IdentLen(s) == 1;
    HeadIsIdent(s);
  }

  lemma OperatorAndLiteral()
    ensures Tokens("='\\''x'") == Some([Op(Eq), Str("\\'x"), Eof])
  {
    var s, ts := "='\\''x'", [Str("\\'x"), Eof];
    LastLiteral();
    assert s[1..] == "'\\''x'";
    OneToken(s, Op(Eq), 1, ts);
    assert [Op(Eq)] + ts == [Op(Eq), Str("\\'x"), Eof];
  }

  lemma BackslashAccepted()
    ensures Validatable(BackslashTemplate()) == Ok(BackslashText()) && Parsed(BackslashText()).Some?
  {
    BackslashRenders(Placeholder);
    assert "a='\\'" + ("'" + "x" + "'") == BackslashText();
    BackslashUnbraced();
    BackslashParses();
  }

  lemma BackslashUnbraced()
    ensures !Contains(BackslashText(), "{{") && !Contains(BackslashText(), "}}")
  {
    NoBrace(BackslashText(), "{{");
    NoBrace(BackslashText(), "}}");
  }

  lemma BackslashParses()
    ensures Parsed(BackslashText()).Some?
  {
    var lit := Exactly(Str("\\'x"));
    var rhs := Compare(Eq, StrLit("\\'x"));
    var e := LastOr(LastAnd(NotExpr(false, Comparison("a", rhs))));
    var xs := [Column("a"), Exactly(Op(Eq)), lit];
    BackslashTokens();
    assert PrintRhs(rhs) == [Exactly(Op(Eq)), lit] && PrintOr(e) == [] + ([Column("a")] + [Exactly(Op(Eq)), lit]) == xs;
    BackslashFits(xs, Tokens(BackslashText()).value);
    ParsedIff(BackslashText(), e);
  }

  lemma BackslashFits(xs: seq<Terminal>, toks: seq<Token>)
    requires xs == [Column("a"), Exactly(Op(Eq)), Exactly(Str("\\'x"))] && toks == [Ident("a"), Op(Eq), Str("\\'x"), Eof]
    ensures Reads(xs, toks, 0, 3)
  {
    assert |Upper("a")| == 1;
    forall i | 0 <= i < |xs| ensures ReadsAt(xs, toks, 0, i) {}
  }

  /**
   An author's backslash before a closing quote parts the two readers, although the template is accepted: to the
   validator the claim stands inside the author's literal, to StarRocks the claim's own opening quote ends that literal.
   */
  lemma BackslashParts(claims: map<string, string>)
    requires "x" in claims
    ensures Validatable(BackslashTemplate()).Ok? && Parsed(Validatable(BackslashTemplate()).text).Some?
    ensures !AlwaysReadAlike(BackslashTemplate())
    ensures var e := Expand(BackslashTemplate(), claims, StarRocks);
            && e.Ok? && e.text == "a='\\''" + Escaped(StarRocks, claims["x"]) + "'"
            && Read(false, Out, "a='\\''").Within? && Read(true, Out, "a='\\''").Closing?
  {
    BackslashAccepted();
    BackslashExpands(claims);
    BackslashReads();
    BackslashNotAlike();
    EnginesAgreeIff(BackslashTemplate());
  }

  lemma BackslashNotAlike()
    ensures !SameReading(BackslashText())
  {
    BackslashReads();
    assert BackslashText()[..6] == "a='\\''";
  }

  lemma BackslashExpands(claims: map<string, string>)
    requires "x" in claims
    ensures Expand(BackslashTemplate(), claims, StarRocks) == Ok("a='\\''" + Escaped(StarRocks, claims["x"]) + "'")
  {
    var t, b := BackslashTemplate(), Escaped(StarRocks, claims["x"]);
    BackslashRenders(n => ClaimBody(StarRocks, claims, n));
    assert t[5].Claim? && forall i | 0 <= i < |t| && t[i].Claim? :: i == 5;
    assert "a='\\'" + ("'" + b + "'") == "a='\\''" + b + "'";
  }

  lemma BackslashReads()
    ensures Read(false, Out, "a='\\''").Within? && Read(true, Out, "a='\\''").Closing?
  {
    var s := "a='\\''";
    assert s[1..] == "='\\''" && s[1..][1..] == "'\\''" && "'\\''"[1..] == "\\''" && "\\''"[1..] == "''" && "''"[1..] == "'" && "'"[1..] == "";
    assert Read(true, Escape, "''") == Read(true, Within, "'") == Closing;
    assert Read(true, Within, "\\''") == Closing && Read(true, Out, "'\\''") == Closing && Read(true, Out, "='\\''") == Closing;
    assert Read(false, Within, "''") == Read(false, Closing, "'") == Within;
    assert Read(false, Within, "\\''") == Within && Read(false, Out, "'\\''") == Within && Read(false, Out, "='\\''") == Within;
  }
}
