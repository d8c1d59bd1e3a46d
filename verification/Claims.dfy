/** Claim placeholders in row filters. */
module Claims {
  // The predicate that was validated with a harmless literal in each placeholder, and the one that runs with the
  // caller's claims as escaped literals, tokenize alike.

  import opened Options
  import opened Lexer
  import opened Predicate
  import opened PredParser

  /** One byte of predicate text, or a placeholder {{claim.NAME}}. */
  datatype Piece = Char(c: char) | Claim(name: string)

  type Template = seq<Piece>

  datatype Dialect = StarRocks | Trino

  datatype Result = Ok(text: string) | MissingClaim(name: string) | MalformedTemplate

  function Double(s: string, c: char): string {
    if s == "" then "" else (if s[0] == c then [c, c] else [s[0]]) + Double(s[1..], c)
  }

  /** What a dialect writes between the quotes of a string literal. */
  function Escaped(d: Dialect, v: string): string {
    match d
    case StarRocks => Double(Double(v, '\\'), '\'')
    case Trino => Double(v, '\'')
  }

  function StringLiteral(d: Dialect, v: string): string {
    "'" + Escaped(d, v) + "'"
  }

  /** The template with each placeholder replaced by a quoted body. */
  function Render(t: Template, body: string -> string): string {
    if t == [] then ""
    else (match t[0] case Char(c) => [c] case Claim(n) => "'" + body(n) + "'") + Render(t[1..], body)
  }

  function Placeholder(name: string): string { "x" }

  predicate Contains(s: string, pat: string) {
    pat <= s || (s != "" && Contains(s[1..], pat))
  }

  /** The predicate as it is checked at publish time. */
  function Validatable(t: Template): Result {
    var out := Render(t, Placeholder);
    if Contains(out, "{{") || Contains(out, "}}") then MalformedTemplate else Ok(out)
  }

  /** The first placeholder whose claim the caller does not carry. */
  function FirstMissing(t: Template, claims: map<string, string>): (r: Option<string>)
    ensures r.None? <==> forall i :: 0 <= i < |t| && t[i].Claim? ==> t[i].name in claims
  {
    if t == [] then None
    else if t[0].Claim? && t[0].name !in claims then Some(t[0].name)
    else
      assert forall i :: 0 <= i < |t[1..]| ==> t[1..][i] == t[i + 1];
      FirstMissing(t[1..], claims)
  }

  function ClaimBody(d: Dialect, claims: map<string, string>, name: string): string {
    if name in claims then Escaped(d, claims[name]) else ""
  }

  /** The predicate as it runs; a missing claim is an error. */
  function Expand(t: Template, claims: map<string, string>, d: Dialect): Result {
    match FirstMissing(t, claims)
    case Some(n) => MissingClaim(n)
    case None => Ok(Render(t, n => ClaimBody(d, claims, n)))
  }

  // ------------------------------------------------------------ quoted bodies

  /** Quotes occur only in pairs, read from the left. */
  predicate Quoted(b: string) {
    b == "" ||
    if b[0] == '\'' then |b| > 1 && b[1] == '\'' && Quoted(b[2..]) else Quoted(b[1..])
  }

  lemma {:induction false} DoubleIsQuoted(v: string)
    ensures Quoted(Double(v, '\''))
  {
    if v != "" {
      DoubleIsQuoted(v[1..]);
      var rest := Double(v[1..], '\'');
      if v[0] == '\'' {
        assert (['\'', '\''] + rest)[2..] == rest;
      } else {
        assert ([v[0]] + rest)[1..] == rest;
      }
    }
  }

  /** A quoted body is read through: what follows it is read as if the body were not there. */
  lemma {:induction false} BodyReadThrough(b: string, rest: string) returns (text: string)
    requires Quoted(b)
    ensures StrBody(b + rest) == After(text, |b|, StrBody(rest))
    decreases |b|
  {
    if b == "" {
      text := "";
      assert b + rest == rest;
      AfterNone(StrBody(rest));
    } else {
      var k := if b[0] == '\'' then 2 else 1;
      var t := BodyReadThrough(b[k..], rest);
      text := [b[0]] + t;
      assert (b + rest)[k..] == b[k..] + rest;
      AfterAppend([b[0]], k, t, |b| - k, StrBody(rest));
    }
  }

  // ------------------------------------------------- reading both renderings

  ghost predicate Bodies(g: string -> string) {
    forall n :: Quoted(g(n))
  }

  /** How a string literal that is open in both renderings ends: at matching places, or in the validated one inside a placeholder. */
  ghost predicate EndsAlike(v: string, e: string, t: Template, g: string -> string, inside: bool, k: nat) {
    && k <= |t|
    && StrBody(v).Some?
    && var n := StrBody(v).value.1;
       if inside then k < |t| && t[k].Claim? && v[n..] == "x'" + Render(t[k + 1..], Placeholder)
       else StrBody(e).Some? && v[n..] == Render(t[k..], Placeholder) && e[StrBody(e).value.1..] == Render(t[k..], g)
  }

  /** `whole` is `part` after a stretch of body text. */
  ghost predicate Reaches(whole: string, part: string, text: string) {
    && |whole| >= |part| && whole[|whole| - |part|..] == part
    && StrBody(whole) == After(text, |whole| - |part|, StrBody(part))
  }

  lemma RestAfter(whole: string, part: string, text: string)
    requires Reaches(whole, part, text) && StrBody(part).Some?
    ensures StrBody(whole).Some? && whole[StrBody(whole).value.1..] == part[StrBody(part).value.1..]
  {
    var n := StrBody(part).value.1;
    assert whole[|whole| - |part|..][n..] == whole[|whole| - |part| + n..];
  }

  /** A stretch of body text before both does not change how they end. */
  lemma EndsAfter(v: string, e: string, vs: string, es: string, vt: string, et: string, t: Template, g: string -> string, inside: bool, k: nat)
    requires EndsAlike(v, e, t, g, inside, k) && Reaches(vs, v, vt) && Reaches(es, e, et)
    ensures EndsAlike(vs, es, t, g, inside, k)
  {
    RestAfter(vs, v, vt);
    if !inside {
      RestAfter(es, e, et);
    }
  }

  /** The first piece of a template against the rest. */
  lemma EndsInTail(v: string, e: string, t: Template, g: string -> string, inside: bool, k: nat)
    requires t != [] && EndsAlike(v, e, t[1..], g, inside, k)
    ensures EndsAlike(v, e, t, g, inside, k + 1)
  {
    assert t[1..][k..] == t[k + 1..];
    if inside {
      assert t[1..][k + 1..] == t[k + 2..];
    }
  }

  /** Inside a string literal at the start of `t`. */
  lemma {:induction false} OpenString(t: Template, g: string -> string) returns (inside: bool, k: nat)
    requires Bodies(g) && StrBody(Render(t, Placeholder)).Some?
    ensures EndsAlike(Render(t, Placeholder), Render(t, g), t, g, inside, k)
    decreases |t|, 0
  {
    var v, e := Render(t, Placeholder), Render(t, g);
    var rest, rest' := Render(t[1..], Placeholder), Render(t[1..], g);
    match t[0]
    case Char(c) =>
      assert v == [c] + rest && e == [c] + rest' && v[1..] == rest && e[1..] == rest';
      if c == '\'' {
        inside, k := PendingQuote(t[1..], g);
        EndsInTail(v, e, t, g, inside, k);
      } else {
        inside, k := OpenString(t[1..], g);
        EndsInTail(rest, rest', t, g, inside, k);
        EndsAfter(rest, rest', v, e, [c], [c], t, g, inside, k + 1);
      }
      k := k + 1;
    case Claim(n) =>
      assert v == "'" + ("x'" + rest);
      assert v[1..] == "x'" + rest && v[1] == 'x';
      inside, k := true, 0;
  }

  /** After a quote that either closes the literal or, doubled, continues it. */
  lemma {:induction false} PendingQuote(t: Template, g: string -> string) returns (inside: bool, k: nat)
    requires Bodies(g) && StrBody("'" + Render(t, Placeholder)).Some?
    ensures EndsAlike("'" + Render(t, Placeholder), "'" + Render(t, g), t, g, inside, k)
    decreases |t|, 1
  {
    var v, e := "'" + Render(t, Placeholder), "'" + Render(t, g);
    assert v[1..] == Render(t, Placeholder) && e[1..] == Render(t, g);
    if t == [] || (t[0].Char? && t[0].c != '\'') {
      inside, k := false, 0;
      assert t[0..] == t;
      assert t != [] ==> Render(t, Placeholder)[0] == t[0].c == Render(t, g)[0];
    } else {
      var rest, rest' := Render(t[1..], Placeholder), Render(t[1..], g);
      match t[0]
      case Char(c) =>
        assert v == "''" + rest && e == "''" + rest' && v[2..] == rest && e[2..] == rest';
        inside, k := OpenString(t[1..], g);
        EndsInTail(rest, rest', t, g, inside, k);
        EndsAfter(rest, rest', v, e, "'", "'", t, g, inside, k + 1);
        k := k + 1;
      case Claim(n) =>
        inside, k := ThroughClaim(t, g, n);
    }
  }

  lemma RenderClaim(t: Template, g: string -> string, n: string)
    requires t != [] && t[0] == Claim(n)
    ensures "'" + Render(t, g) == "''" + g(n) + ("'" + Render(t[1..], g))
  {
    var rest := Render(t[1..], g);
    assert Render(t, g) == "'" + g(n) + "'" + rest;
    assert "'" + ("'" + g(n) + "'" + rest) == "''" + g(n) + ("'" + rest);
  }

  /** A placeholder after a pending quote: both bodies are read through to the quote that closes them. */
  lemma {:induction false} ThroughClaim(t: Template, g: string -> string, n: string) returns (inside: bool, k: nat)
    requires Bodies(g) && StrBody("'" + Render(t, Placeholder)).Some? && t != [] && t[0] == Claim(n)
    ensures EndsAlike("'" + Render(t, Placeholder), "'" + Render(t, g), t, g, inside, k)
    decreases |t|, 0
  {
    var v, e := "'" + Render(t, Placeholder), "'" + Render(t, g);
    var tail, tail' := "'" + Render(t[1..], Placeholder), "'" + Render(t[1..], g);
    RenderClaim(t, Placeholder, n);
    RenderClaim(t, g, n);
    assert "''" + Placeholder(n) == "''x";
    var vt := ReachThrough("''x", tail, v);
    assert ("''" + g(n))[2..] == g(n);
    var et := ReachThrough("''" + g(n), tail', e);
    inside, k := PendingQuote(t[1..], g);
    EndsInTail(tail, tail', t, g, inside, k);
    EndsAfter(tail, tail', v, e, vt, et, t, g, inside, k + 1);
    k := k + 1;
  }

  lemma ReachThrough(b: string, rest: string, whole: string) returns (text: string)
    requires Quoted(b) && whole == b + rest
    ensures Reaches(whole, rest, text)
  {
    text := BodyReadThrough(b, rest);
  }

  // ------------------------------------------------------ tokens of plain text

  /** What may follow a stretch of plain text: nothing, or a placeholder's opening quote. */
  predicate Stops(rest: string) {
    rest == "" || rest[0] == '\''
  }

  lemma {:induction false} IdentLenStops(p: string, rest: string)
    requires Stops(rest)
    ensures IdentLen(p + rest) == IdentLen(p)
  {
    if p == "" {
      assert p + rest == rest;
    } else if IsIdentChar(p[0]) {
      assert (p + rest)[1..] == p[1..] + rest;
      IdentLenStops(p[1..], rest);
    }
  }

  lemma {:induction false} DigitsLenStops(p: string, rest: string)
    requires Stops(rest)
    ensures DigitsLen(p + rest) == DigitsLen(p)
  {
    if p == "" {
      assert p + rest == rest;
    } else if IsDigit(p[0]) {
      assert (p + rest)[1..] == p[1..] + rest;
      DigitsLenStops(p[1..], rest);
    }
  }

  lemma FractionLenStops(p: string, rest: string)
    requires Stops(rest)
    ensures FractionLen(p + rest) == FractionLen(p)
  {
    DigitsLenStops(p, rest);
  }

  lemma UnsignedLenStops(p: string, rest: string)
    requires Stops(rest) && p != "" && IsDigit(p[0])
    ensures UnsignedLen(p + rest) == UnsignedLen(p)
  {
    DigitsLenStops(p, rest);
    var j := DigitsLen(p);
    if j < |p| && p[j] == '.' {
      assert (p + rest)[j + 1..] == p[j + 1..] + rest;
      FractionLenStops(p[j + 1..], rest);
    }
  }

  lemma NumberLenStops(p: string, rest: string)
    requires Stops(rest) && p != "" && (IsDigit(p[0]) || (p[0] == '-' && |p| > 1 && IsDigit(p[1])))
    ensures NumberLen(p + rest) == NumberLen(p)
  {
    if p[0] == '-' {
      assert (p + rest)[1..] == p[1..] + rest;
      UnsignedLenStops(p[1..], rest);
    } else {
      UnsignedLenStops(p, rest);
    }
  }

  predicate StartsNumber(s: string) {
    s != "" && (IsDigit(s[0]) || (s[0] == '-' && |s| > 1 && IsDigit(s[1])))
  }

  lemma HeadIsNumber(s: string)
    requires StartsNumber(s)
    ensures Head(s) == match NumberLen(s) case None => Bad case Some(n) => Tok(Num(s[..n]), n)
  {
  }

  lemma HeadIsIdent(s: string)
    requires s != "" && IsIdentStart(s[0])
    ensures Head(s) == Tok(Ident(s[..IdentLen(s)]), IdentLen(s))
  {
  }

  lemma SamePart(p: string, a: string, n: nat)
    requires n <= |p|
    ensures (p + a)[..n] == p[..n]
  {
  }

  lemma NumberHead(p: string, a: string)
    requires StartsNumber(p) && Stops(a)
    ensures Head(p + a) == match NumberLen(p) case None => Bad case Some(n) => Tok(Num(p[..n]), n)
  {
    NumberLenStops(p, a);
    var s := p + a;
    assert s[0] == p[0] && (|p| > 1 ==> s[1] == p[1]);
    HeadIsNumber(s);
    if NumberLen(p).Some? {
      SamePart(p, a, NumberLen(p).value);
    }
  }

  lemma IdentHead(p: string, a: string)
    requires p != "" && IsIdentStart(p[0]) && Stops(a)
    ensures Head(p + a) == Tok(Ident(p[..IdentLen(p)]), IdentLen(p))
  {
    IdentLenStops(p, a);
    assert (p + a)[0] == p[0];
    HeadIsIdent(p + a);
    SamePart(p, a, IdentLen(p));
  }

  /** The first lexeme of plain text does not depend on what placeholder follows the text. */
  lemma HeadOfText(p: string, a: string, b: string)
    requires p != "" && p[0] != '\'' && Stops(a) && Stops(b) && (a == "" <==> b == "")
    ensures Head(p + a) == Head(p + b)
    ensures Head(p + a).Tok? ==> Head(p + a).len <= |p| && !Head(p + a).token.Str?
  {
    if StartsNumber(p) {
      NumberHead(p, a);
      NumberHead(p, b);
    } else if IsIdentStart(p[0]) {
      IdentHead(p, a);
      IdentHead(p, b);
    } else {
      assert (p + a)[0] == p[0] == (p + b)[0];
      assert |p + a| > 1 ==> |p + b| > 1 && (p + a)[1] == (p + b)[1];
      assert !StartsNumber(p + a) && !StartsNumber(p + b);
    }
  }

  /** The plain text a template starts with. */
  function Plain(t: Template): (p: string)
    ensures |p| <= |t| && forall i :: 0 <= i < |p| ==> t[i] == Char(p[i])
    ensures |p| < |t| ==> t[|p|].Claim?
  {
    if t == [] || t[0].Claim? then "" else [t[0].c] + Plain(t[1..])
  }

  /** What follows the plain text is nothing or a placeholder. */
  lemma {:induction false} PlainStops(t: Template, g: string -> string)
    ensures Stops(Render(t[|Plain(t)|..], g)) && (Render(t[|Plain(t)|..], g) == "" <==> |Plain(t)| == |t|)
  {
    if |Plain(t)| == 0 {
      assert t[0..] == t;
    } else {
      PlainStops(t[1..], g);
      assert t[1..][|Plain(t)| - 1..] == t[|Plain(t)|..];
    }
  }

  /** The plain text is rendered as it stands. */
  lemma {:induction false} PlainRendered(t: Template, g: string -> string, n: nat)
    requires n <= |Plain(t)|
    ensures Render(t, g) == Plain(t)[..n] + Render(t[n..], g)
  {
    if n == 0 {
      assert t[0..] == t;
    } else {
      PlainRendered(t[1..], g, n - 1);
      assert t[1..][n - 1..] == t[n..];
      Shifted(t[0].c, Plain(t[1..]), n - 1, Render(t[n..], g));
    }
  }

  lemma Shifted(c: char, p: string, m: nat, rest: string)
    requires m <= |p|
    ensures [c] + (p[..m] + rest) == ([c] + p)[..m + 1] + rest
  {
  }

  lemma RenderPlain(t: Template, g: string -> string, n: nat)
    requires n <= |Plain(t)|
    ensures Render(t, g) == Plain(t)[..n] + Render(t[n..], g)
    ensures Render(t, g)[n..] == Render(t[n..], g)
    ensures Stops(Render(t[|Plain(t)|..], g)) && (Render(t[|Plain(t)|..], g) == "" <==> |Plain(t)| == |t|)
  {
    PlainRendered(t, g, n);
    PlainStops(t, g);
  }

  // --------------------------------------------------- tokens of both renderings

  /** Equal up to the contents of string tokens. */
  predicate SameShape(a: Token, b: Token) {
    a == b || (a.Str? && b.Str?)
  }

  ghost predicate Similar(a: seq<Token>, b: seq<Token>) {
    |a| == |b| && forall i {:trigger AlikeAt(a, b, i)} :: 0 <= i < |a| ==> AlikeAt(a, b, i)
  }

  predicate AlikeAt(a: seq<Token>, b: seq<Token>, i: nat)
    requires i < |a| == |b|
  {
    SameShape(a[i], b[i])
  }

  /** A string token directly followed by the identifier x: the trace of a placeholder inside a literal. */
  ghost predicate Torn(ts: seq<Token>) {
    exists i {:trigger ts[i]} :: 0 <= i < |ts| - 1 && ts[i].Str? && ts[i + 1] == Ident("x")
  }

  ghost predicate Agree(v: string, e: string) {
    Tokens(v).Some? ==> Torn(Tokens(v).value) || (Tokens(e).Some? && Similar(Tokens(v).value, Tokens(e).value))
  }

  lemma AgreeTok(v: string, e: string, n: nat, m: nat, a: Token, b: Token)
    requires v != "" && e != "" && Head(v) == Tok(a, n) && Head(e) == Tok(b, m) && SameShape(a, b)
    requires Agree(v[n..], e[m..])
    ensures Agree(v, e)
  {
    if Tokens(v).Some? {
      var ts := Tokens(v[n..]).value;
      assert Tokens(v).value == [a] + ts;
      if Torn(ts) {
        var i :| 0 <= i < |ts| - 1 && ts[i].Str? && ts[i + 1] == Ident("x");
        assert ([a] + ts)[i + 1].Str? && ([a] + ts)[i + 1 + 1] == Ident("x");
      } else {
        SimilarCons(a, b, ts, Tokens(e[m..]).value);
      }
    }
  }

  lemma SimilarCons(x: Token, y: Token, a: seq<Token>, b: seq<Token>)
    requires SameShape(x, y) && Similar(a, b)
    ensures Similar([x] + a, [y] + b)
  {
    forall i | 0 <= i < |a| + 1 ensures AlikeAt([x] + a, [y] + b, i) {
      if i > 0 {
        assert AlikeAt(a, b, i - 1);
      }
    }
  }

  lemma XThenQuote(rest: string)
    ensures Head("x'" + rest) == Tok(Ident("x"), 1)
    ensures Tokens("x'" + rest).Some? ==> Tokens("x'" + rest).value[0] == Ident("x")
  {
    var s := "x'" + rest;
    assert s[0] == 'x' && s[1] == '\'' && s[..1] == "x";
    assert s[1..][0] == '\'';
    assert IdentLen(s) == 1;
  }

  /** A string literal opened in both renderings. */
  lemma AgreeString(v: string, e: string, t: Template, g: string -> string, inside: bool, k: nat)
    requires EndsAlike(v, e, t, g, inside, k)
    requires !inside ==> Agree(Render(t[k..], Placeholder), Render(t[k..], g))
    ensures Agree("'" + v, "'" + e)
  {
    var n := StrBody(v).value.1;
    var s := "'" + v;
    assert s[1..] == v && s[1 + n..] == v[n..];
    if inside {
      var rest := Render(t[k + 1..], Placeholder);
      XThenQuote(rest);
      if Tokens(s).Some? {
        var ts := Tokens(v[n..]).value;
        assert Tokens(s).value == [Str(StrBody(v).value.0)] + ts;
        assert Tokens(s).value[0].Str? && Tokens(s).value[0 + 1] == Ident("x");
      }
    } else {
      var m := StrBody(e).value.1;
      assert ("'" + e)[1..] == e && ("'" + e)[1 + m..] == e[m..];
      AgreeTok(s, "'" + e, 1 + n, 1 + m, Str(StrBody(v).value.0), Str(StrBody(e).value.0));
    }
  }

  /** The two renderings tokenize alike, unless a placeholder stands inside a string literal. */
  lemma {:induction false} TokensAgree(t: Template, g: string -> string)
    requires Bodies(g)
    ensures Agree(Render(t, Placeholder), Render(t, g))
    decreases |t|
  {
    if t != [] {
      if t[0].Claim? {
        ClaimAgree(t, g, t[0].name);
      } else if t[0].c == '\'' {
        QuoteAgree(t, g);
      } else {
        TextAgree(t, g);
      }
    }
  }

  lemma {:induction false} QuoteAgree(t: Template, g: string -> string)
    requires Bodies(g) && t != [] && t[0] == Char('\'')
    ensures Agree(Render(t, Placeholder), Render(t, g))
    decreases |t|, 0
  {
    var v, e := Render(t[1..], Placeholder), Render(t[1..], g);
    assert Render(t, Placeholder) == "'" + v && Render(t, g) == "'" + e;
    if StrBody(v).Some? {
      var inside, k := OpenString(t[1..], g);
      if !inside {
        TokensAgree(t[1..][k..], g);
      }
      AgreeString(v, e, t[1..], g, inside, k);
    } else {
      OpenForever(v);
    }
  }

  lemma OpenForever(v: string)
    requires StrBody(v).None?
    ensures Tokens("'" + v).None?
  {
    assert ("'" + v)[1..] == v;
  }

  lemma {:induction false} ClaimAgree(t: Template, g: string -> string, name: string)
    requires Bodies(g) && t != [] && t[0] == Claim(name)
    ensures Agree(Render(t, Placeholder), Render(t, g))
    decreases |t|, 0
  {
    var rest, rest' := "'" + Render(t[1..], Placeholder), "'" + Render(t[1..], g);
    var v, e := "x" + rest, g(name) + rest';
    assert Render(t, Placeholder) == "'" + v && Render(t, g) == "'" + e;
    if StrBody(v).Some? {
      var vt := ReachThrough("x", rest, v);
      var et := ReachThrough(g(name), rest', e);
      var inside, k := PendingQuote(t[1..], g);
      EndsAfter(rest, rest', v, e, vt, et, t[1..], g, inside, k);
      if !inside {
        TokensAgree(t[1..][k..], g);
      }
      AgreeString(v, e, t[1..], g, inside, k);
    } else {
      OpenForever(v);
    }
  }

  lemma {:induction false} TextAgree(t: Template, g: string -> string)
    requires Bodies(g) && t != [] && t[0].Char? && t[0].c != '\''
    ensures Agree(Render(t, Placeholder), Render(t, g))
    decreases |t|, 0
  {
    var p, v, e := Plain(t), Render(t, Placeholder), Render(t, g);
    RenderPlain(t, Placeholder, |p|);
    RenderPlain(t, g, |p|);
    assert p[..|p|] == p;
    HeadOfText(p, Render(t[|p|..], Placeholder), Render(t[|p|..], g));
    match Head(v)
    case Bad =>
    case Blank =>
      RenderPlain(t, Placeholder, 1);
      RenderPlain(t, g, 1);
      TokensAgree(t[1..], g);
    case Tok(a, n) =>
      RenderPlain(t, Placeholder, n);
      RenderPlain(t, g, n);
      TokensAgree(t[n..], g);
      AgreeTok(v, e, n, n, a, a);
  }

  lemma XFollowsNoLiteral(x: Terminal)
    requires AfterStr(x)
    ensures !Fits(x, Ident("x"))
  {
    assert |Upper("x")| == 1;
  }

  /** In an accepted predicate no placeholder stands inside a string literal. */
  lemma AcceptedNotTorn(toks: seq<Token>)
    requires Closed(toks) && ParseTokens(toks).Some?
    ensures !Torn(toks)
  {
    var xs := PrintOr(ParseTokens(toks).value);
    OrSpaced(ParseTokens(toks).value);
    forall i | 0 <= i < |toks| - 1 && toks[i].Str? ensures toks[i + 1] != Ident("x") {
      assert ReadsAt(xs, toks, 0, i);
      if i + 1 < |xs| {
        assert ReadsAt(xs, toks, 0, i + 1) && !Clash(xs[i], xs[i + 1]);
        XFollowsNoLiteral(xs[i + 1]);
      }
    }
  }

  // -------------------------------------------- the parser ignores string contents

  lemma ParseLiteralSimilar(a: seq<Token>, b: seq<Token>, pos: nat)
    requires Closed(a) && Closed(b) && Similar(a, b) && pos < |a|
    ensures ParseLiteral(a, pos).Done? == ParseLiteral(b, pos).Done?
    ensures ParseLiteral(a, pos).Done? ==> ParseLiteral(a, pos).pos == ParseLiteral(b, pos).pos
  {
    assert AlikeAt(a, b, pos);
  }

  lemma MoreLiteralsSimilar(a: seq<Token>, b: seq<Token>, p: nat)
    requires Closed(a) && Closed(b) && p < |a| == |b| && AlikeAt(a, b, p)
    requires a[p] == Comma ==> ListEnd(a, p + 1) == ListEnd(b, p + 1)
    ensures MoreLiterals(a, p) == MoreLiterals(b, p)
  {
  }

  lemma ListEndFrom(a: seq<Token>, b: seq<Token>, pos: nat)
    requires Closed(a) && Closed(b) && pos < |a| == |b|
    requires var l, m := ParseLiteral(a, pos), ParseLiteral(b, pos);
             l.Done? == m.Done? && (l.Done? ==> l.pos == m.pos && MoreLiterals(a, l.pos) == MoreLiterals(b, l.pos))
    ensures ListEnd(a, pos) == ListEnd(b, pos)
  {
    ListUnroll(a, pos);
    ListUnroll(b, pos);
  }

  lemma {:induction false} ParseLiteralsSimilar(a: seq<Token>, b: seq<Token>, pos: nat)
    requires Closed(a) && Closed(b) && Similar(a, b) && pos < |a|
    ensures ListEnd(a, pos) == ListEnd(b, pos)
    decreases |a| - pos
  {
    ParseLiteralSimilar(a, b, pos);
    var l := ParseLiteral(a, pos);
    if l.Done? {
      assert AlikeAt(a, b, l.pos);
      if a[l.pos] == Comma {
        ParseLiteralsSimilar(a, b, l.pos + 1);
      }
      MoreLiteralsSimilar(a, b, l.pos);
    }
    ListEndFrom(a, b, pos);
  }

  lemma ParseInListSimilar(a: seq<Token>, b: seq<Token>, pos: nat)
    requires Closed(a) && Closed(b) && Similar(a, b) && pos < |a|
    ensures ParseInList(a, pos).Done? == ParseInList(b, pos).Done?
    ensures ParseInList(a, pos).Done? ==> ParseInList(a, pos).pos == ParseInList(b, pos).pos
  {
    assert AlikeAt(a, b, pos);
    if a[pos] == LParen {
      ParseLiteralsSimilar(a, b, pos + 1);
      InListIs(a, pos);
      InListIs(b, pos);
      var ls := ListEnd(a, pos + 1);
      assert ls.Done? ==> AlikeAt(a, b, ls.pos);
    }
  }

  lemma ParseInLikeSimilar(a: seq<Token>, b: seq<Token>, start: nat, pos: nat, negated: bool)
    requires Closed(a) && Closed(b) && Similar(a, b) && start <= pos < |a|
    requires Reads(PrintNot(negated), a, start, pos) && Reads(PrintNot(negated), b, start, pos)
    ensures ParseInLike(a, start, pos, negated).Done? == ParseInLike(b, start, pos, negated).Done?
    ensures ParseInLike(a, start, pos, negated).Done? ==> ParseInLike(a, start, pos, negated).pos == ParseInLike(b, start, pos, negated).pos
  {
    assert AlikeAt(a, b, pos);
    if IsKw(a[pos], "IN") {
      ParseInListSimilar(a, b, pos + 1);
    } else if IsKw(a[pos], "LIKE") {
      assert AlikeAt(a, b, pos + 1);
    }
  }

  lemma ParseRhsSimilar(a: seq<Token>, b: seq<Token>, pos: nat)
    requires Closed(a) && Closed(b) && Similar(a, b) && pos < |a|
    ensures ParseRhs(a, pos).Done? == ParseRhs(b, pos).Done?
    ensures ParseRhs(a, pos).Done? ==> ParseRhs(a, pos).pos == ParseRhs(b, pos).pos
  {
    assert AlikeAt(a, b, pos);
    if a[pos].Op? {
      ParseLiteralSimilar(a, b, pos + 1);
    } else if IsKw(a[pos], "IS") {
      assert AlikeAt(a, b, pos + 1);
      var p := if IsKw(a[pos + 1], "NOT") then pos + 2 else pos + 1;
      assert AlikeAt(a, b, p);
    } else if IsKw(a[pos], "NOT") {
      ParseInLikeSimilar(a, b, pos, pos + 1, true);
    } else {
      ParseInLikeSimilar(a, b, pos, pos, false);
    }
  }

  lemma {:induction false} ParsePrimarySimilar(a: seq<Token>, b: seq<Token>, pos: nat)
    requires Closed(a) && Closed(b) && Similar(a, b) && pos < |a|
    ensures ParsePrimary(a, pos).Done? == ParsePrimary(b, pos).Done?
    ensures ParsePrimary(a, pos).Done? ==> ParsePrimary(a, pos).pos == ParsePrimary(b, pos).pos
    ensures ParsePrimary(a, pos).Done? ==> PrimaryCols(ParsePrimary(a, pos).value) == PrimaryCols(ParsePrimary(b, pos).value)
    decreases |a| - pos, 0
  {
    assert AlikeAt(a, b, pos);
    if a[pos] == LParen {
      ParseOrSimilar(a, b, pos + 1);
      var e := ParseOr(a, pos + 1);
      assert e.Done? ==> AlikeAt(a, b, e.pos);
    } else if IsColumn(a[pos]) {
      assert AlikeAt(a, b, pos + 1);
      ParseRhsSimilar(a, b, pos + 1);
    }
  }

  lemma MoreAndsSimilar(a: seq<Token>, b: seq<Token>, p: nat)
    requires Closed(a) && Closed(b) && p < |a| == |b| && AlikeAt(a, b, p)
    requires IsKw(a[p], "AND") ==> AndEnd(a, p + 1) == AndEnd(b, p + 1)
    ensures MoreAnds(a, p) == MoreAnds(b, p)
  {
  }

  lemma MoreOrsSimilar(a: seq<Token>, b: seq<Token>, p: nat)
    requires Closed(a) && Closed(b) && p < |a| == |b| && AlikeAt(a, b, p)
    requires IsKw(a[p], "OR") ==> OrEnd(a, p + 1) == OrEnd(b, p + 1)
    ensures MoreOrs(a, p) == MoreOrs(b, p)
  {
  }

  lemma {:induction false} ParseNotSimilar(a: seq<Token>, b: seq<Token>, pos: nat)
    requires Closed(a) && Closed(b) && Similar(a, b) && pos < |a|
    ensures ParseNot(a, pos).Done? == ParseNot(b, pos).Done?
    ensures ParseNot(a, pos).Done? ==> ParseNot(a, pos).pos == ParseNot(b, pos).pos
    ensures ParseNot(a, pos).Done? ==> PrimaryCols(ParseNot(a, pos).value.prim) == PrimaryCols(ParseNot(b, pos).value.prim)
    decreases |a| - pos, 1
  {
    assert AlikeAt(a, b, pos);
    ParsePrimarySimilar(a, b, if IsKw(a[pos], "NOT") then pos + 1 else pos);
  }

  lemma AndEndFrom(a: seq<Token>, b: seq<Token>, pos: nat)
    requires Closed(a) && Closed(b) && pos < |a| == |b|
    requires var n, m := ParseNot(a, pos), ParseNot(b, pos);
             && n.Done? == m.Done?
             && (n.Done? ==> n.pos == m.pos && PrimaryCols(n.value.prim) == PrimaryCols(m.value.prim) && MoreAnds(a, n.pos) == MoreAnds(b, n.pos))
    ensures AndEnd(a, pos) == AndEnd(b, pos)
  {
    AndEndIs(a, pos);
    AndEndIs(b, pos);
  }

  lemma {:induction false} ParseAndSimilar(a: seq<Token>, b: seq<Token>, pos: nat)
    requires Closed(a) && Closed(b) && Similar(a, b) && pos < |a|
    ensures AndEnd(a, pos) == AndEnd(b, pos)
    decreases |a| - pos, 2
  {
    ParseNotSimilar(a, b, pos);
    var n := ParseNot(a, pos);
    if n.Done? {
      AndRestSimilar(a, b, n.pos);
    }
    AndEndFrom(a, b, pos);
  }

  lemma {:induction false} AndRestSimilar(a: seq<Token>, b: seq<Token>, p: nat)
    requires Closed(a) && Closed(b) && Similar(a, b) && p < |a|
    ensures MoreAnds(a, p) == MoreAnds(b, p)
    decreases |a| - p, 0
  {
    assert AlikeAt(a, b, p);
    if IsKw(a[p], "AND") {
      ParseAndSimilar(a, b, p + 1);
    }
    MoreAndsSimilar(a, b, p);
  }

  lemma OrEndFrom(a: seq<Token>, b: seq<Token>, pos: nat)
    requires Closed(a) && Closed(b) && pos < |a| == |b|
    requires var p, q := ParseAnd(a, pos), ParseAnd(b, pos);
             && p.Done? == q.Done?
             && (p.Done? ==> p.pos == q.pos && AndCols(p.value) == AndCols(q.value) && MoreOrs(a, p.pos) == MoreOrs(b, p.pos))
    ensures OrEnd(a, pos) == OrEnd(b, pos)
  {
    OrEndIs(a, pos);
    OrEndIs(b, pos);
  }

  lemma {:induction false} ParseOrSimilar(a: seq<Token>, b: seq<Token>, pos: nat)
    requires Closed(a) && Closed(b) && Similar(a, b) && pos < |a|
    ensures OrEnd(a, pos) == OrEnd(b, pos)
    decreases |a| - pos, 3
  {
    ParseAndSimilar(a, b, pos);
    AndEndSimilar(a, b, pos);
    var p := ParseAnd(a, pos);
    if p.Done? {
      assert AlikeAt(a, b, p.pos);
      if IsKw(a[p.pos], "OR") {
        ParseOrSimilar(a, b, p.pos + 1);
      }
      MoreOrsSimilar(a, b, p.pos);
    }
    OrEndFrom(a, b, pos);
  }

  lemma AndEndSimilar(a: seq<Token>, b: seq<Token>, pos: nat)
    requires Closed(a) && Closed(b) && pos < |a| == |b| && AndEnd(a, pos) == AndEnd(b, pos)
    ensures ParseAnd(a, pos).Done? == ParseAnd(b, pos).Done?
    ensures var p, q := ParseAnd(a, pos), ParseAnd(b, pos);
            p.Done? ==> p.pos == q.pos && AndCols(p.value) == AndCols(q.value)
  {
  }

  lemma EscapedQuoted(d: Dialect, claims: map<string, string>, n: string)
    ensures Quoted(ClaimBody(d, claims, n))
  {
    if n in claims {
      match d
      case StarRocks => DoubleIsQuoted(Double(claims[n], '\\'));
      case Trino => DoubleIsQuoted(claims[n]);
    }
  }

  /**
   Whenever the validated rendering is a predicate, the rendering that runs is a
   predicate over the same columns with the same tokens but for the contents of
   string literals, for every dialect and every value of the claims.
   */
  lemma ExpandedIsSamePredicate(t: Template, claims: map<string, string>, d: Dialect)
    requires Validatable(t).Ok? && Parsed(Validatable(t).text).Some?
    ensures Expand(t, claims, d).Ok? <==> forall i :: 0 <= i < |t| && t[i].Claim? ==> t[i].name in claims
    ensures Expand(t, claims, d).Ok? ==>
              var v, e := Validatable(t).text, Expand(t, claims, d).text;
              && Parsed(e).Some?
              && OrCols(Parsed(e).value) == OrCols(Parsed(v).value)
              && Tokens(v).Some? && Tokens(e).Some? && Similar(Tokens(v).value, Tokens(e).value)
  {
    if Expand(t, claims, d).Ok? {
      var g := n => ClaimBody(d, claims, n);
      forall n ensures Quoted(g(n)) {
        EscapedQuoted(d, claims, n);
      }
      SamePredicate(t, g);
    }
  }

  lemma SamePredicate(t: Template, g: string -> string)
    requires Bodies(g) && Parsed(Render(t, Placeholder)).Some?
    ensures Parsed(Render(t, g)).Some?
    ensures OrCols(Parsed(Render(t, g)).value) == OrCols(Parsed(Render(t, Placeholder)).value)
    ensures Tokens(Render(t, g)).Some? && Similar(Tokens(Render(t, Placeholder)).value, Tokens(Render(t, g)).value)
  {
    var v, e := Render(t, Placeholder), Render(t, g);
    TokensAgree(t, g);
    TokensClosed(v);
    TokensClosed(e);
    AcceptedNotTorn(Tokens(v).value);
    ParseOrSimilar(Tokens(v).value, Tokens(e).value, 0);
    assert AlikeAt(Tokens(v).value, Tokens(e).value, ParseOr(Tokens(v).value, 0).pos);
  }
}
