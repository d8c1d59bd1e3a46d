/**
 The tokenizer of row-filter predicates. A Go string is a sequence of bytes; a
 character here stands for one byte.
 */
module Lexer {
  import opened Options

  datatype CmpOp = Eq | Ne | LtGt | Lt | Le | Gt | Ge

  datatype Token =
    | Ident(name: string)
    | Str(text: string)
    | Num(digits: string)
    | Op(op: CmpOp)
    | LParen
    | RParen
    | Comma
    | Eof

  predicate IsDigit(c: char) { '0' <= c <= '9' }

  predicate IsIdentStart(c: char) { c == '_' || 'a' <= c <= 'z' || 'A' <= c <= 'Z' }

  predicate IsIdentChar(c: char) { IsIdentStart(c) || IsDigit(c) }

  predicate IsBlank(c: char) { c == ' ' || c == '\t' || c == '\n' || c == '\r' }

  /** The length of the longest prefix of identifier characters. */
  function IdentLen(s: string): (n: nat)
    ensures n <= |s|
    ensures forall i :: 0 <= i < n ==> IsIdentChar(s[i])
    ensures n < |s| ==> !IsIdentChar(s[n])
  {
    if s == "" || !IsIdentChar(s[0]) then 0 else 1 + IdentLen(s[1..])
  }

  function DigitsLen(s: string): (n: nat)
    ensures n <= |s|
    ensures forall i :: 0 <= i < n ==> IsDigit(s[i])
    ensures n < |s| ==> !IsDigit(s[n])
  {
    if s == "" || !IsDigit(s[0]) then 0 else 1 + DigitsLen(s[1..])
  }

  /** A body read so far, followed by the rest. */
  function After(text: string, n: nat, rest: Option<(string, nat)>): Option<(string, nat)> {
    match rest
    case None => None
    case Some(b) => Some((text + b.0, n + b.1))
  }

  /** The contents and length of a string body up to and including its closing quote; '' stands for a quote. */
  function StrBody(s: string): (r: Option<(string, nat)>)
    ensures r.Some? ==> 0 < r.value.1 <= |s|
  {
    if s == "" then None
    else if s[0] == '\'' then
      if |s| > 1 && s[1] == '\'' then
        After("'", 2, StrBody(s[2..]))
      else Some(("", 1))
    else
      After([s[0]], 1, StrBody(s[1..]))
  }

  /** The length of a number: an optional sign, digits, and optionally a point and digits. */
  function NumberLen(s: string): (r: Option<nat>)
    requires s != "" && (IsDigit(s[0]) || (s[0] == '-' && |s| > 1 && IsDigit(s[1])))
    ensures r.Some? ==> 0 < r.value <= |s|
  {
    if s[0] == '-' then Shift(1, UnsignedLen(s[1..])) else UnsignedLen(s)
  }

  function UnsignedLen(s: string): (r: Option<nat>)
    requires s != "" && IsDigit(s[0])
    ensures r.Some? ==> 0 < r.value <= |s|
  {
    var j := DigitsLen(s);
    if j < |s| && s[j] == '.' then Shift(j + 1, FractionLen(s[j + 1..])) else Some(j)
  }

  function FractionLen(s: string): (r: Option<nat>)
    ensures r.Some? ==> r.value <= |s|
  {
    var k := DigitsLen(s);
    if k == 0 || (k < |s| && s[k] == '.') then None else Some(k)
  }

  function Shift(n: nat, r: Option<nat>): Option<nat> {
    match r
    case None => None
    case Some(k) => Some(n + k)
  }

  /** The first lexeme of a non-empty text: blank space, a token of some length, or an error. */
  datatype Lexeme = Blank | Tok(token: Token, len: nat) | Bad

  function Head(s: string): (r: Lexeme)
    requires s != ""
    ensures r.Tok? ==> 0 < r.len <= |s| && !r.token.Eof?
  {
    var c := s[0];
    var next := if |s| > 1 then s[1] else ' ';
    if IsBlank(c) then Blank
    else if c == ';' || (c == '-' && next == '-') || (c == '/' && next == '*') then Bad
    else if c == '(' then Tok(LParen, 1)
    else if c == ')' then Tok(RParen, 1)
    else if c == ',' then Tok(Comma, 1)
    else if c == '\'' then
      match StrBody(s[1..])
      case None => Bad
      case Some(b) => Tok(Str(b.0), 1 + b.1)
    else if c == '=' then Tok(Op(Eq), 1)
    else if c == '!' then if next == '=' then Tok(Op(Ne), 2) else Bad
    else if c == '<' then if next == '=' then Tok(Op(Le), 2) else if next == '>' then Tok(Op(LtGt), 2) else Tok(Op(Lt), 1)
    else if c == '>' then if next == '=' then Tok(Op(Ge), 2) else Tok(Op(Gt), 1)
    else if IsDigit(c) || (c == '-' && |s| > 1 && IsDigit(next)) then
      match NumberLen(s)
      case None => Bad
      case Some(n) => Tok(Num(s[..n]), n)
    else if IsIdentStart(c) then Tok(Ident(s[..IdentLen(s)]), IdentLen(s))
    else Bad
  }

  function Prepend(toks: seq<Token>, r: Option<seq<Token>>): Option<seq<Token>> {
    match r
    case None => None
    case Some(ts) => Some(toks + ts)
  }

  /** The tokens of a text, closed by Eof. */
  function Tokens(s: string): (r: Option<seq<Token>>)
    ensures r.Some? ==> r.value != [] && r.value[|r.value| - 1].Eof?
    decreases |s|
  {
    if s == "" then Some([Eof])
    else
      match Head(s)
      case Blank => Tokens(s[1..])
      case Bad => None
      case Tok(t, n) =>
        Prepend([t], Tokens(s[n..]))
  }

  lemma PrependNone(r: Option<seq<Token>>)
    ensures Prepend([], r) == r
  {
    if r.Some? {
      assert [] + r.value == r.value;
    }
  }

  lemma PrependStep(toks: seq<Token>, t: Token, r: Option<seq<Token>>)
    ensures Prepend(toks, Prepend([t], r)) == Prepend(toks + [t], r)
  {
    if r.Some? {
      assert toks + ([t] + r.value) == toks + [t] + r.value;
    }
  }

  /** Scans a number from `i`. */
  method ScanNumber(s: string, i: nat) returns (r: Option<nat>)
    requires i < |s| && (IsDigit(s[i]) || (s[i] == '-' && i + 1 < |s| && IsDigit(s[i + 1])))
    ensures r == Shift(i, NumberLen(s[i..]))
  {
    var j := if s[i] == '-' then i + 1 else i;
    AfterSign(s, i);
    r := ScanUnsigned(s, j);
  }

  lemma AfterSign(s: string, i: nat)
    requires i < |s| && (IsDigit(s[i]) || (s[i] == '-' && i + 1 < |s| && IsDigit(s[i + 1])))
    ensures var j := if s[i] == '-' then i + 1 else i;
            Shift(i, NumberLen(s[i..])) == Shift(j, UnsignedLen(s[j..]))
  {
    if s[i] == '-' {
      assert s[i..][1..] == s[i + 1..];
    }
  }

  /** Scans digits, and a point and digits after them. */
  method ScanUnsigned(s: string, digits: nat) returns (r: Option<nat>)
    requires digits < |s| && IsDigit(s[digits])
    ensures r == Shift(digits, UnsignedLen(s[digits..]))
  {
    var j := SkipDigits(s, digits);
    if j < |s| && s[j] == '.' {
      PointAfterDigits(s, digits, j);
      r := ScanFraction(s, j + 1);
    } else {
      r := Some(j);
    }
  }

  lemma PointAfterDigits(s: string, digits: nat, j: nat)
    requires digits < |s| && IsDigit(s[digits]) && j == digits + DigitsLen(s[digits..]) && j < |s| && s[j] == '.'
    ensures UnsignedLen(s[digits..]) == Shift(j + 1 - digits, FractionLen(s[j + 1..]))
  {
    var rest := s[digits..];
    assert rest[j - digits] == '.' && rest[j + 1 - digits..] == s[j + 1..];
  }

  /** The digits after a point; another point after them is an error. */
  method ScanFraction(s: string, start: nat) returns (r: Option<nat>)
    requires start <= |s|
    ensures r == Shift(start, FractionLen(s[start..]))
  {
    var j := SkipDigits(s, start);
    if start == j || (j < |s| && s[j] == '.') {
      return None;
    }
    return Some(j);
  }

  method SkipDigits(s: string, start: nat) returns (j: nat)
    requires start <= |s|
    ensures j == start + DigitsLen(s[start..]) <= |s|
  {
    j := start;
    while j < |s| && IsDigit(s[j])
      invariant start <= j <= |s|
      invariant DigitsLen(s[start..]) == j - start + DigitsLen(s[j..])
    {
      assert s[j..][1..] == s[j + 1..];
      j := j + 1;
    }
  }

  lemma AfterStep(text: string, n: nat, s: string)
    requires s != ""
    ensures s[0] != '\'' ==> After(text, n, StrBody(s)) == After(text + [s[0]], n + 1, StrBody(s[1..]))
    ensures s[0] == '\'' && |s| > 1 && s[1] == '\'' ==> After(text, n, StrBody(s)) == After(text + "'", n + 2, StrBody(s[2..]))
    ensures s[0] == '\'' && !(|s| > 1 && s[1] == '\'') ==> After(text, n, StrBody(s)) == Some((text, n + 1))
  {
    assert text + "" == text;
    if s[0] != '\'' {
      AfterAppend(text, n, [s[0]], 1, StrBody(s[1..]));
    } else if |s| > 1 && s[1] == '\'' {
      AfterAppend(text, n, "'", 2, StrBody(s[2..]));
    }
  }

  lemma AfterAppend(text: string, n: nat, more: string, k: nat, rest: Option<(string, nat)>)
    ensures After(text, n, After(more, k, rest)) == After(text + more, n + k, rest)
  {
    if rest.Some? {
      assert text + (more + rest.value.0) == (text + more) + rest.value.0;
    }
  }

  lemma AfterNone(rest: Option<(string, nat)>)
    ensures After("", 0, rest) == rest
  {
    if rest.Some? {
      assert "" + rest.value.0 == rest.value.0;
    }
  }

  /** Scans a string body from the byte after its opening quote. */
  method ScanString(s: string, start: nat) returns (r: Option<(string, nat)>)
    requires start <= |s|
    ensures r.Some? <==> StrBody(s[start..]).Some?
    ensures r.Some? ==> r.value == (StrBody(s[start..]).value.0, start + StrBody(s[start..]).value.1)
  {
    var j := start;
    var sb := "";
    AfterNone(StrBody(s[start..]));
    while j < |s|
      invariant start <= j <= |s|
      invariant StrBody(s[start..]) == After(sb, j - start, StrBody(s[j..]))
    {
      assert s[j..][1..] == s[j + 1..];
      AfterStep(sb, j - start, s[j..]);
      if s[j] == '\'' {
        if j + 1 < |s| && s[j + 1] == '\'' {
          assert s[j..][2..] == s[j + 2..];
          sb := sb + "'";
          j := j + 2;
          continue;
        }
        break;
      }
      sb := sb + [s[j]];
      j := j + 1;
    }
    if j >= |s| {
      return None;
    }
    return Some((sb, j + 1));
  }

  method ScanIdent(s: string, i: nat) returns (j: nat)
    requires i < |s|
    ensures j == i + IdentLen(s[i..])
  {
    j := i;
    while j < |s| && IsIdentChar(s[j])
      invariant i <= j <= |s|
      invariant IdentLen(s[i..]) == j - i + IdentLen(s[j..])
    {
      assert s[j..][1..] == s[j + 1..];
      j := j + 1;
    }
  }

  /** A lexeme at the front of a text: blank space adds no token, an error ends it, a token is followed by the others. */
  lemma TokensStep(s: string)
    requires s != ""
    ensures var h := Head(s);
            && (h.Blank? ==> Tokens(s) == Tokens(s[1..]))
            && (h.Bad? ==> Tokens(s) == None)
            && (h.Tok? ==> Tokens(s) == Prepend([h.token], Tokens(s[h.len..])))
  {
  }

  lemma Advance(toks: seq<Token>, t: Token, here: Option<seq<Token>>, there: Option<seq<Token>>)
    requires here == Prepend([t], there)
    ensures Prepend(toks, here) == Prepend(toks + [t], there)
  {
    PrependStep(toks, t, there);
  }

  /** The tokenizer's loop: an index moving over the text, tokens appended as they are read. */
  method Tokenize(s: string) returns (r: Option<seq<Token>>)
    ensures r == Tokens(s)
  {
    var toks: seq<Token> := [];
    var i := 0;
    ghost var rest := s;
    PrependNone(Tokens(s));
    while i < |s|
      invariant 0 <= i <= |s| && rest == s[i..]
      invariant Tokens(s) == Prepend(toks, Tokens(rest))
    {
      ghost var before := rest;
      TokensStep(before);
      var lex := Next(s, i);
      match lex
      case Blank =>
        i := i + 1;
        rest := before[1..];
      case Bad =>
        return None;
      case Tok(t, n) =>
        i := i + n;
        rest := before[n..];
        Advance(toks, t, Tokens(before), Tokens(rest));
        toks := toks + [t];
    }
    return Some(toks + [Eof]);
  }

  /** One turn of the loop's switch. */
  method Next(s: string, i: nat) returns (r: Lexeme)
    requires i < |s|
    ensures r == Head(s[i..])
  {
    var c := s[i];
    assert s[i..][1..] == s[i + 1..];
    if IsBlank(c) {
      return Blank;
    } else if c == ';' || (c == '-' && i + 1 < |s| && s[i + 1] == '-') || (c == '/' && i + 1 < |s| && s[i + 1] == '*') {
      return Bad;
    } else if c == '(' {
      return Tok(LParen, 1);
    } else if c == ')' {
      return Tok(RParen, 1);
    } else if c == ',' {
      return Tok(Comma, 1);
    } else if c == '\'' {
      var b := ScanString(s, i + 1);
      return match b case None => Bad case Some(v) => Tok(Str(v.0), v.1 - i);
    } else if c == '=' {
      return Tok(Op(Eq), 1);
    } else if c == '!' {
      return if i + 1 < |s| && s[i + 1] == '=' then Tok(Op(Ne), 2) else Bad;
    } else if c == '<' {
      return if i + 1 < |s| && s[i + 1] == '=' then Tok(Op(Le), 2)
             else if i + 1 < |s| && s[i + 1] == '>' then Tok(Op(LtGt), 2) else Tok(Op(Lt), 1);
    } else if c == '>' {
      return if i + 1 < |s| && s[i + 1] == '=' then Tok(Op(Ge), 2) else Tok(Op(Gt), 1);
    } else if IsDigit(c) || (c == '-' && i + 1 < |s| && IsDigit(s[i + 1])) {
      var j := ScanNumber(s, i);
      if j.None? {
        return Bad;
      }
      assert s[i..][..j.value - i] == s[i..j.value];
      return Tok(Num(s[i..j.value]), j.value - i);
    } else if IsIdentStart(c) {
      var j := ScanIdent(s, i);
      assert s[i..][..j - i] == s[i..j];
      return Tok(Ident(s[i..j]), j - i);
    }
    return Bad;
  }
}
