/** Every argument is read back from its literal. */
module Literals {
  import opened Options
  import opened Decimals
  import opened Reading
  import opened Escape
  import opened Interpolate

  function Meant(a: Arg): Meaning
    requires a.Date? ==> !a.t.YearOutOfRange?
    requires !a.Other?
  {
    match a
    case Nil => NoValue
    case Int(i) => Whole(i)
    case Uint(u) => Whole(u)
    case Float(f) => WordMeans(f)
    case Bool(b) => Whole(if b then 1 else 0)
    case Date(Zero) => Quote(false, "0000-00-00")
    case Date(At(text)) => Quote(false, text)
    case Json(json) => Quote(false, json)
    case Bytes(None) => NoValue
    case Bytes(Some(b)) => Quote(true, b)
    case Text(s) => Quote(false, s)
  }

  // ------------------------------------------------------------------ dates are read back

  lemma {:induction false} PlainReads(text: string, tail: string, noBackslash: bool)
    requires DateText(text)
    ensures ReadBody(text + tail, noBackslash) == Onto(text, ReadBody(tail, noBackslash))
  {
    if text == "" {
      assert text + tail == tail;
      NoneOnto(ReadBody(tail, noBackslash));
    } else {
      assert (text + tail)[0] == text[0] && (text + tail)[1..] == text[1..] + tail;
      PlainReads(text[1..], tail, noBackslash);
      OntoMore([text[0]], text[1..], ReadBody(tail, noBackslash));
      assert [text[0]] + text[1..] == text;
    }
  }

  lemma DateReads(text: string, rest: string, noBackslash: bool)
    requires DateText(text)
    ensures ReadLiteral("'" + text + "'" + rest, noBackslash) == Some((Quote(false, text), rest)) <==> Apart("'" + text + "'", rest)
  {
    var q := "'" + text + "'";
    assert q[|q| - 1] == '\'' && (q + rest)[1..] == text + ("'" + rest);
    PlainReads(text, "'" + rest, noBackslash);
    CloseReads(text, rest, noBackslash);
  }

  // ------------------------------------------------------------------ words are read back

  /** Every byte goes on with the word before it. */
  predicate IsWord(prev: Option<char>, w: string)
    decreases |w|
  {
    w == "" || (GoesOn(prev, w[0]) && IsWord(Some(w[0]), w[1..]))
  }

  function LastOf(prev: Option<char>, w: string): Option<char> {
    if w == "" then prev else Some(w[|w| - 1])
  }

  lemma {:induction false} WordEnds(prev: Option<char>, w: string, rest: string)
    requires IsWord(prev, w)
    ensures WordLen(prev, w + rest) == |w| + WordLen(LastOf(prev, w), rest)
    decreases |w|
  {
    if w == "" {
      assert w + rest == rest;
    } else {
      assert (w + rest)[0] == w[0] && (w + rest)[1..] == w[1..] + rest;
      WordEnds(Some(w[0]), w[1..], rest);
      assert LastOf(Some(w[0]), w[1..]) == LastOf(prev, w);
    }
  }

  lemma WordReads(w: string, rest: string, noBackslash: bool)
    requires w != "" && IsWord(None, w) && w[0] != '_' && w[0] != '\'' && w[|w| - 1] != '\''
    ensures ReadLiteral(w + rest, noBackslash) == Some((WordMeans(w), rest)) <==> Apart(w, rest)
  {
    var n := WordLen(None, w + rest);
    WordEnds(None, w, rest);
    assert (w + rest)[0] == w[0] && "_binary'"[0] == '_';
    if Apart(w, rest) {
      assert n == |w| && (w + rest)[..|w|] == w && (w + rest)[|w|..] == rest;
    } else {
      assert n > |w| && |(w + rest)[n..]| < |rest|;
    }
  }

  lemma {:induction false} DigitsAreWord(prev: Option<char>, s: string)
    requires Digits(s)
    ensures IsWord(prev, s)
    decreases |s|
  {
    if |s| > 1 {
      DigitsAreWord(Some(s[0]), s[1..]);
    } else {
      assert s[1..] == "";
    }
  }

  function WholeText(i: int): (w: string)
    ensures w != ""
  {
    if i < 0 then "-" + Decimal(-i) else Decimal(i)
  }

  lemma WholeIsWord(i: int)
    ensures IsWord(None, WholeText(i)) && WordMeans(WholeText(i)) == Whole(i)
    ensures WholeText(i)[0] != '_' && WholeText(i)[0] != '\'' && IsDigit(WholeText(i)[|WholeText(i)| - 1])
  {
    var d, w := Decimal(if i < 0 then -i else i), WholeText(i);
    DecimalReadBack(if i < 0 then -i else i);
    DigitsAreWord(if i < 0 then Some('-') else None, d);
    if i < 0 {
      assert w[1..] == d && w[0] == '-';
    } else {
      assert IsDigit(w[0]);
    }
    assert IsDigit(d[|d| - 1]) && w[|w| - 1] == d[|d| - 1];
  }

  lemma WholeReads(i: int, rest: string, noBackslash: bool)
    ensures ReadLiteral(WholeText(i) + rest, noBackslash) == Some((Whole(i), rest)) <==> Apart(WholeText(i), rest)
  {
    WholeIsWord(i);
    WordReads(WholeText(i), rest, noBackslash);
  }

  lemma {:induction false} FloatIsWord(prev: Option<char>, s: string)
    requires forall i | 0 <= i < |s| :: Plain(s[i]) || s[i] == '-'
    requires forall i | 0 < i < |s| :: s[i] == '-' || s[i] == '+' ==> s[i - 1] == 'e'
    requires s != "" && (s[0] == '-' || s[0] == '+') ==> prev == None || prev == Some('e')
    ensures IsWord(prev, s)
    decreases |s|
  {
    if s != "" {
      FloatIsWord(Some(s[0]), s[1..]);
    }
  }

  // ------------------------------------------------------------------ every argument

  lemma NullReads(rest: string, noBackslash: bool)
    ensures ReadLiteral("NULL" + rest, noBackslash) == Some((NoValue, rest)) <==> Apart("NULL", rest)
  {
    NullIsWord();
    WordReads("NULL", rest, noBackslash);
  }

  lemma NullIsWord()
    ensures IsWord(None, "NULL")
  {
    assert "NULL"[1..] == "ULL" && "ULL"[1..] == "LL" && "LL"[1..] == "L" && "L"[1..] == "";
    assert IsWord(Some('L'), "L") && IsWord(Some('U'), "LL") && IsWord(Some('N'), "ULL");
  }

  lemma FloatReads(f: FloatText, rest: string, noBackslash: bool)
    ensures ReadLiteral(f + rest, noBackslash) == Some((WordMeans(f), rest)) <==> Apart(f, rest)
  {
    FloatIsWord(None, f);
    WordReads(f, rest, noBackslash);
  }

  lemma LiteralNotEmpty(a: Arg, noBackslash: bool)
    requires Literal(a, noBackslash).Ok?
    ensures Literal(a, noBackslash).value != ""
  {
  }

  /** The literal of `a` is read as `a`, and no further, exactly when it stands apart. */
  ghost predicate ReadsApart(a: Arg, rest: string, noBackslash: bool)
    requires Literal(a, noBackslash).Ok? && Literal(a, noBackslash).value != ""
  {
    var lit := Literal(a, noBackslash).value;
    ReadLiteral(lit + rest, noBackslash) == Some((Meant(a), rest)) <==> Apart(lit, rest)
  }

  lemma StringLiteralReads(a: Arg, rest: string, noBackslash: bool)
    requires a.Json? || a.Text? || (a.Bytes? && a.bytes.Some?)
    ensures ReadsApart(a, rest, noBackslash)
  {
    var v := if a.Json? then a.json else if a.Text? then a.s else a.bytes.value;
    QuotedReads(v, rest, noBackslash, a.Bytes?);
  }

  lemma DateLiteralReads(a: Arg, rest: string, noBackslash: bool)
    requires a.Date? && !a.t.YearOutOfRange?
    ensures ReadsApart(a, rest, noBackslash)
  {
    var text := if a.t.Zero? then "0000-00-00" else a.t.text;
    assert Literal(a, noBackslash).value == "'" + text + "'";
    DateReads(text, rest, noBackslash);
  }

  lemma NumberLiteralReads(a: Arg, rest: string, noBackslash: bool)
    requires a.Int? || a.Uint? || a.Bool?
    ensures ReadsApart(a, rest, noBackslash)
  {
    var i: int := if a.Int? then a.i else if a.Uint? then a.u else if a.b then 1 else 0;
    assert Literal(a, noBackslash).value == WholeText(i);
    WholeReads(i, rest, noBackslash);
  }

  /**
   The server reads from the literal of an argument just that argument, whatever bytes it holds, and stops where the
   literal does, in either mode, exactly when what follows in the query does not run on into the literal.
   */
  lemma LiteralReads(a: Arg, rest: string, noBackslash: bool)
    requires Literal(a, noBackslash).Ok?
    ensures Literal(a, noBackslash).value != "" && ReadsApart(a, rest, noBackslash)
  {
    LiteralNotEmpty(a, noBackslash);
    if a.Int? || a.Uint? || a.Bool? {
      NumberLiteralReads(a, rest, noBackslash);
    } else if a.Date? {
      DateLiteralReads(a, rest, noBackslash);
    } else if a.Float? {
      FloatReads(a.f, rest, noBackslash);
    } else if a.Nil? || (a.Bytes? && a.bytes.None?) {
      NullReads(rest, noBackslash);
    } else {
      StringLiteralReads(a, rest, noBackslash);
    }
  }
}
