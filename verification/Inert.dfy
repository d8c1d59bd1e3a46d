/** What interpolation produces holds no placeholder: scanning it again finds nothing to replace. */
module Inert {
  import opened Escape
  import opened Interpolate

  /** Two scanner states that treat every text alike. */
  predicate Near(s: Scan, t: Scan) {
    && s.mode == t.mode
    && (s.mode == InString || s.mode == InEscape ==> s.singleQuotes == t.singleQuotes)
    && (s.last == '/' <==> t.last == '/') && (s.last == '*' <==> t.last == '*') && (s.last == '-' <==> t.last == '-')
  }

  lemma StepNear(s: Scan, t: Scan, c: char, rest: string, rest': string, noBackslash: bool)
    requires Near(s, t) && AtBreak(rest) == AtBreak(rest')
    ensures Near(Step(s, c, rest, noBackslash), Step(t, c, rest', noBackslash))
  {
  }

  /** After a literal, the scanner is as if after a placeholder. */
  predicate Calm(st: Scan) {
    st.mode == Normal && st.last != '/' && st.last != '*' && st.last != '-'
  }

  lemma InertStep(c: char, t: string, st: Scan, noBackslash: bool)
    requires !Live(st, c)
    ensures Inert([c] + t, st, noBackslash) == Inert(t, Step(st, c, t, noBackslash), noBackslash)
  {
    assert ([c] + t)[1..] == t;
  }

  lemma {:induction false} NumberInert(s: string, rest: string, st: Scan, noBackslash: bool) returns (end: Scan)
    requires NumberText(s) && st.mode == Normal
    ensures Calm(end) && Inert(s + rest, st, noBackslash) == Inert(rest, end, noBackslash)
    decreases |s|
  {
    var c, t := s[0], s[1..];
    assert s + rest == [c] + (t + rest);
    InertStep(c, t + rest, st, noBackslash);
    end := Step(st, c, t + rest, noBackslash);
    assert t != "" ==> (t + rest)[0] == t[0] == s[1];
    assert c == '-' ==> t != "";
    if t == "" {
      assert t + rest == rest;
    } else {
      assert NumberText(t);
      end := NumberInert(t, rest, end, noBackslash);
    }
  }

  /** Inside a single-quoted literal. */
  predicate Inside(st: Scan) {
    st.mode == InString && st.singleQuotes
  }

  lemma {:induction false} DateInert(s: string, rest: string, st: Scan, noBackslash: bool) returns (end: Scan)
    requires DateText(s) && Inside(st)
    ensures Inside(end) && Inert(s + rest, st, noBackslash) == Inert(rest, end, noBackslash)
    decreases |s|
  {
    if s == "" {
      end := st;
      assert s + rest == rest;
    } else {
      assert s + rest == [s[0]] + (s[1..] + rest);
      InertStep(s[0], s[1..] + rest, st, noBackslash);
      end := DateInert(s[1..], rest, Step(st, s[0], s[1..] + rest, noBackslash), noBackslash);
    }
  }

  lemma OneInert(c: char, rest: string, st: Scan, noBackslash: bool) returns (end: Scan)
    requires Inside(st)
    ensures Inside(end) && Inert(One(c, noBackslash) + rest, st, noBackslash) == Inert(rest, end, noBackslash)
  {
    var s := One(c, noBackslash);
    if |s| == 1 {
      InertStep(s[0], rest, st, noBackslash);
      end := Step(st, s[0], rest, noBackslash);
    } else {
      assert s + rest == [s[0]] + ([s[1]] + rest);
      InertStep(s[0], [s[1]] + rest, st, noBackslash);
      var mid := Step(st, s[0], [s[1]] + rest, noBackslash);
      InertStep(s[1], rest, mid, noBackslash);
      end := Step(mid, s[1], rest, noBackslash);
    }
  }

  lemma {:induction false} BodyInert(v: string, rest: string, st: Scan, noBackslash: bool) returns (end: Scan)
    requires Inside(st)
    ensures Inside(end) && Inert(Body(v, noBackslash) + rest, st, noBackslash) == Inert(rest, end, noBackslash)
    decreases |v|
  {
    if v == "" {
      end := st;
      assert Body(v, noBackslash) + rest == rest;
    } else {
      var more := Body(v[1..], noBackslash) + rest;
      assert Body(v, noBackslash) + rest == One(v[0], noBackslash) + more;
      end := OneInert(v[0], more, st, noBackslash);
      end := BodyInert(v[1..], rest, end, noBackslash);
    }
  }

  /** Entering and leaving a single-quoted literal. */
  lemma QuotesInert(body: string, rest: string, st: Scan, inside: Scan, noBackslash: bool) returns (end: Scan)
    requires st.mode == Normal && Inside(inside)
    requires Inert(body + ("'" + rest), Step(st, '\'', body + ("'" + rest), noBackslash), noBackslash) == Inert("'" + rest, inside, noBackslash)
    ensures Calm(end) && Inert("'" + body + "'" + rest, st, noBackslash) == Inert(rest, end, noBackslash)
  {
    assert "'" + body + "'" + rest == "'" + (body + ("'" + rest));
    InertStep('\'', body + ("'" + rest), st, noBackslash);
    InertStep('\'', rest, inside, noBackslash);
    end := Step(inside, '\'', rest, noBackslash);
  }

  lemma QuotedInert(v: string, rest: string, st: Scan, noBackslash: bool) returns (end: Scan)
    requires st.mode == Normal
    ensures Calm(end) && Inert(Quoted(v, noBackslash, false) + rest, st, noBackslash) == Inert(rest, end, noBackslash)
  {
    var body, tail := Body(v, noBackslash), "'" + rest;
    var inside := BodyInert(v, tail, Step(st, '\'', body + tail, noBackslash), noBackslash);
    end := QuotesInert(body, rest, st, inside, noBackslash);
  }

  lemma BinaryInert(v: string, rest: string, st: Scan, noBackslash: bool) returns (end: Scan)
    requires st.mode == Normal
    ensures Calm(end) && Inert(Quoted(v, noBackslash, true) + rest, st, noBackslash) == Inert(rest, end, noBackslash)
  {
    var tail := Quoted(v, noBackslash, false) + rest;
    assert Quoted(v, noBackslash, true) + rest == "_binary" + tail;
    var start := NumberInert("_binary", tail, st, noBackslash);
    end := QuotedInert(v, rest, start, noBackslash);
  }

  lemma DateQuotedInert(s: string, rest: string, st: Scan, noBackslash: bool) returns (end: Scan)
    requires st.mode == Normal && DateText(s)
    ensures Calm(end) && Inert("'" + s + "'" + rest, st, noBackslash) == Inert(rest, end, noBackslash)
  {
    var tail := "'" + rest;
    var inside := DateInert(s, tail, Step(st, '\'', s + tail, noBackslash), noBackslash);
    end := QuotesInert(s, rest, st, inside, noBackslash);
  }

  lemma NumericLiteral(a: Arg, noBackslash: bool)
    requires Literal(a, noBackslash).Ok? && !a.Date? && !a.Json? && !a.Text? && (a.Bytes? ==> a.bytes.None?)
    ensures NumberText(Literal(a, noBackslash).value)
  {
  }

  /** Every literal leaves the scanner where a placeholder would, and starts with a byte that is no white space. */
  lemma LiteralInert(a: Arg, rest: string, st: Scan, noBackslash: bool) returns (end: Scan)
    requires st.mode == Normal && Literal(a, noBackslash).Ok?
    ensures var lit := Literal(a, noBackslash).value;
            && Calm(end) && Inert(lit + rest, st, noBackslash) == Inert(rest, end, noBackslash)
            && lit != "" && !Blank(lit[0])
  {
    if a.Date? {
      var text := if a.t.Zero? then "0000-00-00" else a.t.text;
      assert Literal(a, noBackslash).value == "'" + text + "'";
      end := DateQuotedInert(text, rest, st, noBackslash);
    } else if a.Json? || a.Text? {
      end := QuotedInert(if a.Json? then a.json else a.s, rest, st, noBackslash);
    } else if a.Bytes? && a.bytes.Some? {
      end := BinaryInert(a.bytes.value, rest, st, noBackslash);
    } else {
      NumericLiteral(a, noBackslash);
      end := NumberInert(Literal(a, noBackslash).value, rest, st, noBackslash);
    }
  }

  /** What is produced continues what was there, and white space or an end follows in it just where it does in the query. */
  lemma {:induction false} RestExtends(q: string, st: Scan, args: seq<Arg>, out: string, noBackslash: bool, max: nat, t: string)
    requires Rest(q, st, args, out, noBackslash, max) == Ok(t)
    ensures out <= t && AtBreak(q) == AtBreak(t[|out|..])
    decreases |q|
  {
    if q != "" {
      var next := Step(st, q[0], q[1..], noBackslash);
      if Live(st, q[0]) {
        var lit := Literal(args[0], noBackslash).value;
        RestExtends(q[1..], next, args[1..], out + lit, noBackslash, max, t);
        var _ := LiteralInert(args[0], "", st, noBackslash);
        assert t[|out|] == (out + lit)[|out|];
      } else {
        RestExtends(q[1..], next, args, out + [q[0]], noBackslash, max, t);
        assert t[|out|] == (out + [q[0]])[|out|];
      }
    }
  }

  /** The produced rest holds no placeholder, and scanning it ends where scanning the query does. */
  lemma {:induction false} RestInert(q: string, st: Scan, st': Scan, args: seq<Arg>, out: string, noBackslash: bool, max: nat, t: string)
    requires Rest(q, st, args, out, noBackslash, max) == Ok(t) && Near(st, st')
    ensures out <= t
    ensures var end := Inert(t[|out|..], st', noBackslash);
            end.Some? && Near(ScanAll(q, st, noBackslash).0, end.value)
    ensures ScanAll(q, st, noBackslash).1 == |args|
    decreases |q|
  {
    RestExtends(q, st, args, out, noBackslash, max, t);
    if q != "" {
      var next := Step(st, q[0], q[1..], noBackslash);
      if Live(st, q[0]) {
        var lit := Literal(args[0], noBackslash).value;
        RestExtends(q[1..], next, args[1..], out + lit, noBackslash, max, t);
        var tail := t[|out + lit|..];
        var next' := LiteralInert(args[0], tail, st', noBackslash);
        RestInert(q[1..], next, next', args[1..], out + lit, noBackslash, max, t);
        assert t[|out|..] == lit + tail;
      } else {
        RestExtends(q[1..], next, args, out + [q[0]], noBackslash, max, t);
        var tail := t[|out| + 1..];
        assert t[|out|..] == [q[0]] + tail;
        StepNear(st, st', q[0], q[1..], tail, noBackslash);
        InertStep(q[0], tail, st', noBackslash);
        RestInert(q[1..], next, Step(st', q[0], tail, noBackslash), args, out + [q[0]], noBackslash, max, t);
      }
    }
  }

  /** A text without placeholders is its own interpolation. */
  lemma {:induction false} InertUnchanged(t: string, st: Scan, out: string, noBackslash: bool, max: nat)
    requires Inert(t, st, noBackslash).Some?
    ensures Rest(t, st, [], out, noBackslash, max) == Ok(out + t)
    decreases |t|
  {
    if t == "" {
      assert out + t == out;
    } else {
      InertUnchanged(t[1..], Step(st, t[0], t[1..], noBackslash), out + [t[0]], noBackslash, max);
      assert out + [t[0]] + t[1..] == out + t;
    }
  }

  /**
   Interpolation is inert: when it succeeds it used every argument for one placeholder, and interpolating
   its result with no arguments succeeds and changes nothing. So no argument opens a comment, leaves a
   string open or brings a placeholder to life, and the text after it is scanned as in the query.
   */
  lemma InterpolationInert(q: string, args: seq<Arg>, noBackslash: bool, max: nat, t: string, max': nat)
    requires Interpolated(q, args, noBackslash, max) == Ok(t)
    ensures Interpolated(t, [], noBackslash, max') == Ok(t)
    ensures Near(ScanAll(q, START, noBackslash).0, ScanAll(t, START, noBackslash).0)
    ensures ScanAll(q, START, noBackslash).1 == |args| && ScanAll(t, START, noBackslash).1 == 0
  {
    RestInert(q, START, START, args, "", noBackslash, max, t);
    assert t[0..] == t;
    InertUnchanged(t, START, "", noBackslash, max');
    assert "" + t == t;
    InertIsScan(t, START, noBackslash);
  }

  lemma {:induction false} InertIsScan(t: string, st: Scan, noBackslash: bool)
    ensures Inert(t, st, noBackslash).Some? <==> ScanAll(t, st, noBackslash).1 == 0
    ensures Inert(t, st, noBackslash).Some? ==> Inert(t, st, noBackslash).value == ScanAll(t, st, noBackslash).0
    decreases |t|
  {
    if t != "" {
      InertIsScan(t[1..], Step(st, t[0], t[1..], noBackslash), noBackslash);
    }
  }
}
