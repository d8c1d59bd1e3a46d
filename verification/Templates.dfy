/** Row filters as templates. */
module Templates {
  // Where the claim placeholders of a text are, and what runs in their place.

  import opened Options
  import opened Lexer
  import opened Claims

  predicate IsSpacing(c: char) { c in " \t\n\r\U{0C}" }

  predicate IsNameChar(c: char) { IsIdentChar(c) || c == '.' || c == '-' }

  function SpacingLen(s: string): (n: nat)
    ensures n <= |s|
  {
    if s == "" || !IsSpacing(s[0]) then 0 else 1 + SpacingLen(s[1..])
  }

  function NameLen(s: string): (n: nat)
    ensures n <= |s|
  {
    if s == "" || !IsNameChar(s[0]) then 0 else 1 + NameLen(s[1..])
  }

  /** The closing braces after a claim's name, blanks allowed before them: the length up to their end. */
  function ClosingLen(s: string): (n: Option<nat>)
    ensures n.Some? ==> n.value <= |s|
  {
    var k := SpacingLen(s);
    if "}}" <= s[k..] then Some(k + 2) else None
  }

  /** A claim's name and what closes it, after the opening `{{ claim.`. */
  function NamedLen(s: string): (r: Option<(string, nat)>)
    ensures r.Some? ==> r.value.1 <= |s|
  {
    var n := NameLen(s);
    var close := ClosingLen(s[n..]);
    if n == 0 || close.None? then None else Some((s[..n], n + close.value))
  }

  /** The placeholder a text starts with, and its length. */
  function PlaceholderAt(s: string): (r: Option<(string, nat)>)
    ensures r.Some? ==> 0 < r.value.1 <= |s|
  {
    if !("{{" <= s) then None
    else
      var k := 2 + SpacingLen(s[2..]);
      if !("claim." <= s[k..]) then None
      else
        match NamedLen(s[k..][6..])
        case None => None
        case Some(b) => Some((b.0, k + 6 + b.1))
  }

  /** A filter's text cut into bytes and placeholders, leftmost first. */
  function Pieces(s: string): Template
    decreases |s|
  {
    if s == "" then []
    else
      match PlaceholderAt(s)
      case Some(b) => [Claim(b.0)] + Pieces(s[b.1..])
      case None => [Char(s[0])] + Pieces(s[1..])
  }

  /** A filter's text as it runs, for a caller who carries `claims`. */
  function ExpandText(pred: string, claims: map<string, string>, d: Dialect): Option<string> {
    match Expand(Pieces(pred), claims, d)
    case Ok(text) => Some(text)
    case _ => None
  }

  lemma {:induction false} NameRead(name: string, rest: string)
    requires (forall c :: c in name ==> IsNameChar(c)) && (rest != "" ==> !IsNameChar(rest[0]))
    ensures NameLen(name + rest) == |name|
  {
    if name == "" {
      assert "" + rest == rest;
    } else {
      assert name[0] in name && (name + rest)[1..] == name[1..] + rest;
      NameRead(name[1..], rest);
    }
  }

  lemma NamedRead(name: string)
    requires name != "" && forall c :: c in name ==> IsNameChar(c)
    ensures NamedLen(name + "}}") == Some((name, |name| + 2))
  {
    NameRead(name, "}}");
    assert (name + "}}")[|name|..] == "}}" && (name + "}}")[..|name|] == name;
  }

  lemma Prefixed(pre: string, rest: string)
    ensures pre <= pre + rest && (pre + rest)[|pre|..] == rest
  {}

  lemma NoSpacing(s: string)
    requires s != "" && s[0] == 'c'
    ensures SpacingLen(s) == 0
  {}

  lemma PlaceholderRead(name: string)
    requires name != "" && forall c :: c in name ==> IsNameChar(c)
    ensures PlaceholderAt("{{claim." + name + "}}") == Some((name, |name| + 10))
  {
    var s, t, u := "{{claim." + name + "}}", "claim." + name + "}}", name + "}}";
    assert s == "{{" + t && t == "claim." + u;
    Prefixed("{{", t);
    Prefixed("claim.", u);
    NoSpacing(t);
    NamedRead(name);
  }

  /** Text without an opening brace is read as it is. */
  lemma {:induction false} PlainExpands(s: string, claims: map<string, string>, d: Dialect)
    requires '{' !in s
    ensures ExpandText(s, claims, d) == Some(s)
  {
    if s != "" {
      assert s[0] in s && s == [s[0]] + s[1..];
      NoBraceNoClaim(s);
      PlainExpands(s[1..], claims, d);
      PieceKept(s[0], s[1..], claims, d);
    }
  }

  lemma PieceKept(c: char, rest: string, claims: map<string, string>, d: Dialect)
    requires PlaceholderAt([c] + rest).None?
    ensures ExpandText([c] + rest, claims, d) == if ExpandText(rest, claims, d).None? then None else Some([c] + ExpandText(rest, claims, d).value)
  {
    var t := Pieces(rest);
    assert ([c] + rest)[1..] == rest;
    assert Pieces([c] + rest) == [Char(c)] + t && ([Char(c)] + t)[1..] == t;
  }

  /** A placeholder is the caller's claim, written as a literal; without the claim there is no text. */
  lemma {:induction false} PlaceholderExpands(before: string, name: string, claims: map<string, string>, d: Dialect)
    requires name != "" && (forall c :: c in name ==> IsNameChar(c)) && '{' !in before
    ensures ExpandText(before + ("{{claim." + name + "}}"), claims, d)
         == if name in claims then Some(before + StringLiteral(d, claims[name])) else None
  {
    var s := "{{claim." + name + "}}";
    if before == "" {
      assert "" + s == s;
      LonePlaceholder(name, claims, d);
    } else {
      assert before[0] in before;
      Regrouped(before, s);
      NoBraceNoClaim(before + s);
      PlaceholderExpands(before[1..], name, claims, d);
      PieceKept(before[0], before[1..] + s, claims, d);
      if name in claims {
        Regrouped(before, StringLiteral(d, claims[name]));
      }
    }
  }

  lemma Regrouped(before: string, s: string)
    requires before != ""
    ensures before + s == [before[0]] + (before[1..] + s)
  {}

  lemma LonePlaceholder(name: string, claims: map<string, string>, d: Dialect)
    requires name != "" && forall c :: c in name ==> IsNameChar(c)
    ensures ExpandText("{{claim." + name + "}}", claims, d) == if name in claims then Some("" + StringLiteral(d, claims[name])) else None
  {
    LonePieces(name);
    if name in claims {
      RenderOne(name, n => ClaimBody(d, claims, n));
    }
  }

  lemma LonePieces(name: string)
    requires name != "" && forall c :: c in name ==> IsNameChar(c)
    ensures Pieces("{{claim." + name + "}}") == [Claim(name)]
  {
    var s := "{{claim." + name + "}}";
    PlaceholderRead(name);
    assert s[|name| + 10..] == "" && Pieces("") == [];
  }

  lemma RenderOne(name: string, body: string -> string)
    ensures Render([Claim(name)], body) == "" + ("'" + body(name) + "'")
  {
    assert [Claim(name)][1..] == [];
  }

  lemma NoBraceNoClaim(s: string)
    requires s != "" && s[0] != '{'
    ensures PlaceholderAt(s).None?
  {
  }
}
