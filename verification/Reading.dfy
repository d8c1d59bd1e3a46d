/** Reading a literal as the server does. */
module Reading {
  // MySQL's rules for the literals the driver writes: strings with backslash escapes or with doubled quotes only, the
  // _binary introducer, decimal numbers and NULL. A char stands for one byte.

  import opened Options
  import opened Decimals

  /** What the server takes a literal for. A number that is no whole one is left as its text. */
  datatype Meaning = NoValue | Whole(n: int) | Numeral(text: string) | Quote(binary: bool, bytes: string)

  // ------------------------------------------------------------------ strings

  /** What a backslash and the byte after it stand for. */
  function Unescaped(c: char): string {
    match c
    case '0' => "\0"
    case 'n' => "\n"
    case 'r' => "\r"
    case 't' => "\t"
    case 'b' => "\U{08}"
    case 'Z' => "\U{1A}"
    case '%' => "\\%"
    case '_' => "\\_"
    case _ => [c]
  }

  function Onto(pre: string, r: Option<(string, string)>): Option<(string, string)> {
    match r
    case None => None
    case Some(b) => Some((pre + b.0, b.1))
  }

  /** The bytes of a string after its opening quote, and what follows its closing one. */
  function ReadBody(s: string, noBackslash: bool): Option<(string, string)>
    decreases |s|
  {
    if s == "" then None
    else if s[0] == '\'' then
      if |s| > 1 && s[1] == '\'' then Onto("'", ReadBody(s[2..], noBackslash)) else Some(("", s[1..]))
    else if s[0] == '\\' && !noBackslash then
      if |s| == 1 then None else Onto(Unescaped(s[1]), ReadBody(s[2..], noBackslash))
    else Onto([s[0]], ReadBody(s[1..], noBackslash))
  }

  function ReadString(s: string, binary: bool, noBackslash: bool): Option<(Meaning, string)> {
    match ReadBody(s, noBackslash)
    case None => None
    case Some(b) => Some((Quote(binary, b.0), b.1))
  }

  // ------------------------------------------------------------------ numbers and words

  predicate IsDigit(c: char) { '0' <= c <= '9' }

  /** A number or word goes on with letters, digits, points and underscores, and with a sign after an e or where it starts. */
  predicate GoesOn(prev: Option<char>, c: char) {
    IsDigit(c) || 'a' <= c <= 'z' || 'A' <= c <= 'Z' || c == '.' || c == '_'
    || ((c == '+' || c == '-') && (prev == None || prev == Some('e') || prev == Some('E')))
  }

  function WordLen(prev: Option<char>, s: string): (n: nat)
    ensures n <= |s|
    decreases |s|
  {
    if s == "" || !GoesOn(prev, s[0]) then 0 else 1 + WordLen(Some(s[0]), s[1..])
  }

  function WordMeans(w: string): Meaning {
    if w == "NULL" then NoValue
    else if Digits(w) then Whole(Value(w))
    else if w != "" && w[0] == '-' && Digits(w[1..]) then Whole(-Value(w[1..]))
    else Numeral(w)
  }

  function ReadWord(s: string): Option<(Meaning, string)> {
    var n := WordLen(None, s);
    if n == 0 then None else Some((WordMeans(s[..n]), s[n..]))
  }

  function ReadLiteral(s: string, noBackslash: bool): Option<(Meaning, string)> {
    if s == "" then None
    else if s[0] == '\'' then ReadString(s[1..], false, noBackslash)
    else if "_binary'" <= s then ReadString(s[8..], true, noBackslash)
    else ReadWord(s)
  }

  /** What follows in the query does not run on into the literal: no quote after a quote, nothing that goes on with a word. */
  predicate Apart(lit: string, rest: string)
    requires lit != ""
  {
    var last := lit[|lit| - 1];
    rest == "" || if last == '\'' then rest[0] != '\'' else !GoesOn(Some(last), rest[0])
  }

  // ------------------------------------------------------------------ reading on

  lemma OntoMore(a: string, b: string, r: Option<(string, string)>)
    ensures Onto(a, Onto(b, r)) == Onto(a + b, r)
  {
    if r.Some? {
      assert a + (b + r.value.0) == a + b + r.value.0;
    }
  }

  lemma NoneOnto(r: Option<(string, string)>)
    ensures Onto("", r) == r
  {
    if r.Some? {
      assert "" + r.value.0 == r.value.0;
    }
  }

  /** Reading a string uses up bytes. */
  lemma {:induction false} BodyShrinks(s: string, noBackslash: bool)
    ensures ReadBody(s, noBackslash).Some? ==> |ReadBody(s, noBackslash).value.1| < |s|
    decreases |s|
  {
    if s != "" {
      if s[0] == '\'' {
        if |s| > 1 && s[1] == '\'' {
          BodyShrinks(s[2..], noBackslash);
        }
      } else if s[0] == '\\' && !noBackslash {
        if |s| > 1 {
          BodyShrinks(s[2..], noBackslash);
        }
      } else {
        BodyShrinks(s[1..], noBackslash);
      }
    }
  }

  /** A closing quote closes the string unless another quote follows it. */
  lemma CloseReads(v: string, rest: string, noBackslash: bool)
    ensures Onto(v, ReadBody("'" + rest, noBackslash)) == Some((v, rest)) <==> rest == "" || rest[0] != '\''
  {
    var s := "'" + rest;
    assert s[1..] == rest && (rest != "" ==> s[1] == rest[0] && s[2..] == rest[1..]);
    if rest == "" || rest[0] != '\'' {
      assert v + "" == v;
    } else {
      BodyShrinks(rest[1..], noBackslash);
    }
  }
}
