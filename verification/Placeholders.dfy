/** Where the arguments of a query stand. */
module Placeholders {
  // The query read by what it is made of: strings, quoted names, comments and single bytes. Its question marks
  // outside these are the placeholders, and interpolation puts the literals there, in order, and nowhere else.

  import opened Options
  import opened Escape
  import opened Interpolate
  import opened Literals
  import opened Reading
  import opened Scanners

  // ------------------------------------------------------------------ what a query is made of

  /** Up to and with the closing quote, or to the end. */
  function StringLen(s: string, quote: char, noBackslash: bool): (n: nat)
    ensures n <= |s|
    decreases |s|
  {
    if s == "" then 0
    else if s[0] == quote then 1
    else if s[0] == '\\' && !noBackslash then (if |s| == 1 then 1 else 2 + StringLen(s[2..], quote, noBackslash))
    else 1 + StringLen(s[1..], quote, noBackslash)
  }

  /** Up to and with the first `c`, or to the end. */
  function UpTo(s: string, c: char): (n: nat)
    ensures n <= |s|
  {
    if s == "" then 0 else if s[0] == c then 1 else 1 + UpTo(s[1..], c)
  }

  /** Up to and with a star and a slash, or to the end; the star that opened the comment may be the one. */
  function BlockLen(prev: char, s: string): (n: nat)
    ensures n <= |s|
    decreases |s|
  {
    if s == "" then 0 else if s[0] == '/' && prev == '*' then 1 else 1 + BlockLen(s[0], s[1..])
  }

  /** The length of the string, quoted name or comment a text starts with, if it starts with one. */
  function SkipLen(q: string, noBackslash: bool): (n: nat)
    requires q != ""
    ensures n <= |q|
  {
    if q[0] == '\'' || q[0] == '"' then 1 + StringLen(q[1..], q[0], noBackslash)
    else if q[0] == '`' then 1 + UpTo(q[1..], '`')
    else if q[0] == '#' then 1 + UpTo(q[1..], '\n')
    else if q[0] == '-' && |q| > 1 && q[1] == '-' && AtBreak(q[2..]) then 2 + UpTo(q[2..], '\n')
    else if q[0] == '/' && |q| > 1 && q[1] == '*' then 2 + BlockLen('*', q[2..])
    else 0
  }

  /** Some text before the first gap. */
  function Lead(pre: string, gaps: seq<string>): (r: seq<string>)
    requires gaps != []
    ensures |r| == |gaps|
  {
    [pre + gaps[0]] + gaps[1..]
  }

  /** The query between its placeholders. */
  function Gaps(q: string, noBackslash: bool): (gaps: seq<string>)
    ensures gaps != []
    decreases |q|
  {
    if q == "" then [""]
    else
      var n := SkipLen(q, noBackslash);
      if n > 0 then Lead(q[..n], Gaps(q[n..], noBackslash))
      else if q[0] == '?' then [""] + Gaps(q[1..], noBackslash)
      else Lead([q[0]], Gaps(q[1..], noBackslash))
  }

  // ------------------------------------------------------------------ the scanner finds the same

  /** The query between the placeholders the scanner meets. */
  function Cut(q: string, st: Scan, noBackslash: bool): (gaps: seq<string>)
    ensures gaps != []
    decreases |q|
  {
    if q == "" then [""]
    else
      var rest := Cut(q[1..], Step(st, q[0], q[1..], noBackslash), noBackslash);
      if Live(st, q[0]) then [""] + rest else Lead([q[0]], rest)
  }

  /** No string, name or comment is open, and none of two bytes was half read. */
  predicate Ready(st: Scan, q: string) {
    q == "" ||
    (st.mode == Normal && (q[0] == '*' ==> st.last != '/') && (q[0] == '-' && AtBreak(q[1..]) ==> st.last != '-'))
  }

  lemma LeadMore(a: string, b: string, gaps: seq<string>)
    requires gaps != []
    ensures Lead(a, Lead(b, gaps)) == Lead(a + b, gaps)
  {
    assert a + (b + gaps[0]) == a + b + gaps[0];
  }

  lemma LeadNothing(gaps: seq<string>)
    requires gaps != []
    ensures Lead("", gaps) == gaps
  {
    assert "" + gaps[0] == gaps[0];
  }

  /** After `n` bytes without a placeholder the scanner is ready, at `end`. */
  ghost predicate Through(q: string, st: Scan, noBackslash: bool, n: nat, end: Scan)
    requires n <= |q|
  {
    Ready(end, q[n..]) && Cut(q, st, noBackslash) == Lead(q[..n], Cut(q[n..], end, noBackslash))
  }

  lemma ThroughEnd(q: string, st: Scan, noBackslash: bool)
    requires q == ""
    ensures Through(q, st, noBackslash, 0, st)
  {
    assert q[0..] == q && q[..0] == "";
    LeadNothing(Cut(q, st, noBackslash));
  }

  /** One byte that is no placeholder, and then more. */
  lemma ThroughMore(q: string, st: Scan, noBackslash: bool, n: nat, end: Scan)
    requires q != "" && !Live(st, q[0]) && n < |q|
    requires Through(q[1..], Step(st, q[0], q[1..], noBackslash), noBackslash, n, end)
    ensures Through(q, st, noBackslash, n + 1, end)
  {
    assert q[1..][n..] == q[n + 1..] && [q[0]] + q[1..][..n] == q[..n + 1];
    LeadMore([q[0]], q[1..][..n], Cut(q[n + 1..], end, noBackslash));
  }

  lemma ThroughOne(q: string, st: Scan, noBackslash: bool)
    requires q != "" && !Live(st, q[0]) && Ready(Step(st, q[0], q[1..], noBackslash), q[1..])
    ensures Through(q, st, noBackslash, 1, Step(st, q[0], q[1..], noBackslash))
  {
    assert q[..1] == [q[0]];
  }

  lemma {:induction false} StringThrough(q: string, st: Scan, noBackslash: bool) returns (end: Scan)
    requires st.mode == InString
    ensures Through(q, st, noBackslash, StringLen(q, if st.singleQuotes then '\'' else '"', noBackslash), end)
    decreases |q|
  {
    var quote := if st.singleQuotes then '\'' else '"';
    if q == "" {
      end := st;
      ThroughEnd(q, st, noBackslash);
    } else {
      var next := Step(st, q[0], q[1..], noBackslash);
      if q[0] == quote {
        end := next;
        ThroughOne(q, st, noBackslash);
      } else if q[0] == '\\' && !noBackslash && |q| > 1 {
        var after := Step(next, q[1], q[2..], noBackslash);
        assert q[1..][1..] == q[2..];
        end := StringThrough(q[2..], after, noBackslash);
        ThroughMore(q[1..], next, noBackslash, StringLen(q[2..], quote, noBackslash), end);
        ThroughMore(q, st, noBackslash, StringLen(q[2..], quote, noBackslash) + 1, end);
      } else if q[0] == '\\' && !noBackslash {
        end := next;
        assert q[1..] == "";
        ThroughOne(q, st, noBackslash);
      } else {
        end := StringThrough(q[1..], next, noBackslash);
        ThroughMore(q, st, noBackslash, StringLen(q[1..], quote, noBackslash), end);
      }
    }
  }

  /** A quoted name, or a comment to the end of its line. */
  lemma {:induction false} UpToThrough(q: string, st: Scan, noBackslash: bool) returns (end: Scan)
    requires st.mode == Backtick || st.mode == EolComment
    ensures Through(q, st, noBackslash, UpTo(q, if st.mode == Backtick then '`' else '\n'), end)
    decreases |q|
  {
    var c := if st.mode == Backtick then '`' else '\n';
    if q == "" {
      end := st;
      ThroughEnd(q, st, noBackslash);
    } else {
      var next := Step(st, q[0], q[1..], noBackslash);
      if q[0] == c {
        end := next;
        ThroughOne(q, st, noBackslash);
      } else {
        end := UpToThrough(q[1..], next, noBackslash);
        ThroughMore(q, st, noBackslash, UpTo(q[1..], c), end);
      }
    }
  }

  lemma {:induction false} BlockThrough(q: string, st: Scan, noBackslash: bool) returns (end: Scan)
    requires st.mode == SlashStarComment
    ensures Through(q, st, noBackslash, BlockLen(st.last, q), end)
    decreases |q|
  {
    if q == "" {
      end := st;
      ThroughEnd(q, st, noBackslash);
    } else {
      var next := Step(st, q[0], q[1..], noBackslash);
      if q[0] == '/' && st.last == '*' {
        end := next;
        ThroughOne(q, st, noBackslash);
      } else {
        end := BlockThrough(q[1..], next, noBackslash);
        ThroughMore(q, st, noBackslash, BlockLen(q[0], q[1..]), end);
      }
    }
  }

  /** A string, quoted name or comment is passed over whole. */
  lemma SkipThrough(q: string, st: Scan, noBackslash: bool) returns (end: Scan)
    requires q != "" && Ready(st, q) && SkipLen(q, noBackslash) > 0
    ensures Through(q, st, noBackslash, SkipLen(q, noBackslash), end)
  {
    var next, n := Step(st, q[0], q[1..], noBackslash), SkipLen(q, noBackslash);
    if q[0] == '-' || q[0] == '/' {
      end := CommentThrough(q, st, noBackslash);
    } else if q[0] == '\'' || q[0] == '"' {
      end := StringThrough(q[1..], next, noBackslash);
      ThroughMore(q, st, noBackslash, n - 1, end);
    } else {
      end := UpToThrough(q[1..], next, noBackslash);
      ThroughMore(q, st, noBackslash, n - 1, end);
    }
  }

  /** A comment that two bytes open. */
  lemma CommentThrough(q: string, st: Scan, noBackslash: bool) returns (end: Scan)
    requires q != "" && Ready(st, q) && SkipLen(q, noBackslash) > 0 && (q[0] == '-' || q[0] == '/')
    ensures Through(q, st, noBackslash, SkipLen(q, noBackslash), end)
  {
    var next := Step(st, q[0], q[1..], noBackslash);
    var after := Step(next, q[1], q[2..], noBackslash);
    Opened(q, st, noBackslash);
    if q[0] == '-' {
      end := UpToThrough(q[2..], after, noBackslash);
    } else {
      end := BlockThrough(q[2..], after, noBackslash);
    }
    TwoMore(q, st, next, after, noBackslash, SkipLen(q, noBackslash) - 2, end);
  }

  /** The second byte opens the comment. */
  lemma Opened(q: string, st: Scan, noBackslash: bool)
    requires |q| > 1 && Ready(st, q) && SkipLen(q, noBackslash) > 0 && (q[0] == '-' || q[0] == '/')
    ensures var next := Step(st, q[0], q[1..], noBackslash);
            var after := Step(next, q[1], q[2..], noBackslash);
            next.mode == Normal && if q[0] == '-' then after.mode == EolComment else after.mode == SlashStarComment && after.last == '*'
  {
    assert q[1..][0] == q[1];
  }

  lemma TwoMore(q: string, st: Scan, next: Scan, after: Scan, noBackslash: bool, n: nat, end: Scan)
    requires |q| > 1 && next == Step(st, q[0], q[1..], noBackslash) && after == Step(next, q[1], q[2..], noBackslash)
    requires !Live(st, q[0]) && !Live(next, q[1]) && n <= |q| - 2 && Through(q[2..], after, noBackslash, n, end)
    ensures Through(q, st, noBackslash, n + 2, end)
  {
    assert q[1..][1..] == q[2..] && q[1..][0] == q[1];
    ThroughMore(q[1..], next, noBackslash, n, end);
    ThroughMore(q, st, noBackslash, n + 1, end);
  }

  /** The scanner's placeholders are the question marks outside strings, quoted names and comments. */
  lemma {:induction false} CutIsGaps(q: string, st: Scan, noBackslash: bool)
    requires Ready(st, q)
    ensures Cut(q, st, noBackslash) == Gaps(q, noBackslash)
    decreases |q|
  {
    if q != "" {
      var n := SkipLen(q, noBackslash);
      if n > 0 {
        var end := SkipThrough(q, st, noBackslash);
        CutIsGaps(q[n..], end, noBackslash);
      } else {
        var next := Step(st, q[0], q[1..], noBackslash);
        assert |q| > 1 ==> q[1..][0] == q[1] && q[1..][1..] == q[2..];
        assert Ready(next, q[1..]);
        CutIsGaps(q[1..], next, noBackslash);
      }
    }
  }

  // ------------------------------------------------------------------ what interpolation writes there

  function LiteralsOf(args: seq<Arg>, noBackslash: bool): (lits: seq<string>)
    requires forall i :: 0 <= i < |args| ==> Literal(args[i], noBackslash).Ok?
    ensures |lits| == |args| && forall i :: 0 <= i < |args| ==> Ok(lits[i]) == Literal(args[i], noBackslash)
  {
    seq(|args|, i requires 0 <= i < |args| => Literal(args[i], noBackslash).value)
  }

  /** `t` is the gaps with the arguments' literals in between. */
  ghost predicate Woven(gaps: seq<string>, args: seq<Arg>, noBackslash: bool, t: string) {
    && |gaps| == |args| + 1
    && (forall i :: 0 <= i < |args| ==> Literal(args[i], noBackslash).Ok?)
    && t == Interleave(gaps, LiteralsOf(args, noBackslash))
  }

  lemma WovenLead(pre: string, gaps: seq<string>, args: seq<Arg>, noBackslash: bool, t: string)
    requires Woven(gaps, args, noBackslash, t)
    ensures Woven(Lead(pre, gaps), args, noBackslash, pre + t)
  {
    LongerGap(pre, gaps, LiteralsOf(args, noBackslash));
  }

  lemma WovenMore(a: Arg, lit: string, gaps: seq<string>, args: seq<Arg>, noBackslash: bool, t: string)
    requires Literal(a, noBackslash) == Ok(lit) && Woven(gaps, args, noBackslash, t)
    ensures Woven([""] + gaps, [a] + args, noBackslash, lit + t)
  {
    var all := LiteralsOf([a] + args, noBackslash);
    assert all == [lit] + LiteralsOf(args, noBackslash) && all[1..] == LiteralsOf(args, noBackslash);
    assert ([""] + gaps)[1..] == gaps;
    InterleaveMore([""] + gaps, all);
  }

  lemma Rejoin(a: string, b: string, c: string)
    ensures a + b + c == a + (b + c)
  {}

  lemma NothingWoven(noBackslash: bool)
    ensures Woven([""], [], noBackslash, "")
  {
    assert LiteralsOf([], noBackslash) == [];
  }

  /** What is yet to be produced is the gaps of the rest of the query with the literals of the arguments left. */
  lemma {:induction false} RestWoven(q: string, st: Scan, args: seq<Arg>, out: string, noBackslash: bool, max: nat, t: string) returns (tail: string)
    requires Rest(q, st, args, out, noBackslash, max) == Ok(t)
    ensures t == out + tail && Woven(Cut(q, st, noBackslash), args, noBackslash, tail)
    decreases |q|
  {
    if q == "" {
      tail := "";
      NothingWoven(noBackslash);
      assert out + "" == out;
    } else {
      var next := Step(st, q[0], q[1..], noBackslash);
      if Live(st, q[0]) {
        var lit := Literal(args[0], noBackslash).value;
        var more := RestWoven(q[1..], next, args[1..], out + lit, noBackslash, max, t);
        WovenMore(args[0], lit, Cut(q[1..], next, noBackslash), args[1..], noBackslash, more);
        tail := lit + more;
        assert [args[0]] + args[1..] == args;
        Rejoin(out, lit, more);
      } else {
        var more := RestWoven(q[1..], next, args, out + [q[0]], noBackslash, max, t);
        WovenLead([q[0]], Cut(q[1..], next, noBackslash), args, noBackslash, more);
        tail := [q[0]] + more;
        Rejoin(out, [q[0]], more);
      }
    }
  }

  function Marks(n: nat): (marks: seq<string>)
    ensures |marks| == n
  {
    if n == 0 then [] else ["?"] + Marks(n - 1)
  }

  /** The gaps with question marks in between are `q`. */
  ghost predicate Joins(gaps: seq<string>, q: string) {
    gaps != [] && Interleave(gaps, Marks(|gaps| - 1)) == q
  }

  lemma LeadJoins(pre: string, gaps: seq<string>, q: string)
    requires Joins(gaps, q)
    ensures Joins(Lead(pre, gaps), pre + q)
  {
    LongerGap(pre, gaps, Marks(|gaps| - 1));
  }

  lemma MarkJoins(gaps: seq<string>, q: string)
    requires Joins(gaps, q)
    ensures Joins([""] + gaps, "?" + q)
  {
    var marks := Marks(|gaps|);
    assert marks[1..] == Marks(|gaps| - 1) && ([""] + gaps)[1..] == gaps;
    InterleaveMore([""] + gaps, marks);
  }

  lemma {:induction false} GapsJoin(q: string, noBackslash: bool)
    ensures Joins(Gaps(q, noBackslash), q)
    decreases |q|
  {
    if q != "" {
      var n := SkipLen(q, noBackslash);
      var k := if n > 0 then n else 1;
      GapsJoin(q[k..], noBackslash);
      assert q[..k] + q[k..] == q;
      if n == 0 && q[0] == '?' {
        assert q[..k] == "?";
        MarkJoins(Gaps(q[1..], noBackslash), q[1..]);
      } else {
        assert n == 0 ==> q[..k] == [q[0]];
        LeadJoins(q[..k], Gaps(q[k..], noBackslash), q[k..]);
      }
    }
  }

  /**
   When interpolation succeeds there is an argument for each question mark outside strings, quoted names and comments,
   and the result is the query with their literals in these places, in order.
   */
  lemma InterpolatedWoven(q: string, args: seq<Arg>, noBackslash: bool, max: nat, t: string)
    requires Interpolated(q, args, noBackslash, max) == Ok(t)
    ensures Woven(Gaps(q, noBackslash), args, noBackslash, t)
    ensures q == Interleave(Gaps(q, noBackslash), Marks(|args|))
  {
    var tail := RestWoven(q, START, args, "", noBackslash, max, t);
    assert "" + tail == tail;
    CutIsGaps(q, START, noBackslash);
    GapsJoin(q, noBackslash);
  }

  /** Every argument has a literal, and the text up to it fits a packet unless it is nil. */
  predicate Fits(gaps: seq<string>, args: seq<Arg>, noBackslash: bool, sofar: nat, max: nat)
    decreases |args|
  {
    |gaps| == |args| + 1 &&
    (args == [] ||
     (Literal(args[0], noBackslash).Ok? &&
      var n := sofar + |gaps[0]| + |Literal(args[0], noBackslash).value|;
      (args[0] != Nil ==> n + 4 <= max) && Fits(gaps[1..], args[1..], noBackslash, n, max)))
  }

  lemma FitsLead(pre: string, gaps: seq<string>, args: seq<Arg>, noBackslash: bool, sofar: nat, max: nat)
    requires gaps != []
    ensures Fits(Lead(pre, gaps), args, noBackslash, sofar, max) <==> Fits(gaps, args, noBackslash, sofar + |pre|, max)
  {
    assert Lead(pre, gaps)[1..] == gaps[1..];
  }

  lemma {:induction false} RestFits(q: string, st: Scan, args: seq<Arg>, out: string, noBackslash: bool, max: nat)
    ensures Rest(q, st, args, out, noBackslash, max).Ok? <==> Fits(Cut(q, st, noBackslash), args, noBackslash, |out|, max)
    decreases |q|
  {
    if q != "" {
      var next := Step(st, q[0], q[1..], noBackslash);
      var gaps := Cut(q[1..], next, noBackslash);
      if !Live(st, q[0]) {
        RestFits(q[1..], next, args, out + [q[0]], noBackslash, max);
        FitsLead([q[0]], gaps, args, noBackslash, |out|, max);
      } else if args != [] && Literal(args[0], noBackslash).Ok? {
        RestFits(q[1..], next, args[1..], out + Literal(args[0], noBackslash).value, noBackslash, max);
        assert ([""] + gaps)[1..] == gaps;
      }
    }
  }

  /** Interpolation succeeds exactly when the arguments are as many as the placeholders, each has a literal, and the packet has room. */
  lemma InterpolatedIff(q: string, args: seq<Arg>, noBackslash: bool, max: nat)
    ensures Interpolated(q, args, noBackslash, max).Ok? <==> Fits(Gaps(q, noBackslash), args, noBackslash, 0, max)
  {
    RestFits(q, START, args, "", noBackslash, max);
    CutIsGaps(q, START, noBackslash);
  }

  /** `r` is the query with the arguments' literals at its placeholders, or an error just when that cannot be. */
  ghost predicate Substitutes(q: string, args: seq<Arg>, noBackslash: bool, max: nat, r: Result<string>) {
    && (r.Ok? <==> Fits(Gaps(q, noBackslash), args, noBackslash, 0, max))
    && (r.Ok? ==> Woven(Gaps(q, noBackslash), args, noBackslash, r.value))
  }

  lemma InterpolatedSubstitutes(q: string, args: seq<Arg>, noBackslash: bool, max: nat)
    ensures Substitutes(q, args, noBackslash, max, Interpolated(q, args, noBackslash, max))
  {
    InterpolatedIff(q, args, noBackslash, max);
    if Interpolated(q, args, noBackslash, max).Ok? {
      InterpolatedWoven(q, args, noBackslash, max, Interpolated(q, args, noBackslash, max).value);
    }
  }

  // ------------------------------------------------------------------ what the server reads there

  lemma {:induction false} InterleaveAt(gaps: seq<string>, texts: seq<string>, i: nat)
    requires |gaps| == |texts| + 1 && i < |texts|
    ensures Interleave(gaps, texts) == Interleave(gaps[..i + 1], texts[..i]) + (texts[i] + Interleave(gaps[i + 1..], texts[i + 1..]))
  {
    if i == 0 {
      assert gaps[..1] == [gaps[0]] && texts[..0] == [];
      Rejoin(gaps[0], texts[0], Interleave(gaps[1..], texts[1..]));
    } else {
      var g, x := gaps[1..], texts[1..];
      InterleaveAt(g, x, i - 1);
      assert gaps[..i + 1][1..] == g[..i] && texts[..i][1..] == x[..i - 1];
      assert g[i..] == gaps[i + 1..] && x[i..] == texts[i + 1..];
      Rejoin(gaps[0] + texts[0], Interleave(g[..i], x[..i - 1]), x[i - 1] + Interleave(g[i..], x[i..]));
    }
  }

  /**
   At the place of its placeholder the server reads each argument, and nothing more or less, exactly when what follows
   it in the result does not run on into its literal.
   */
  lemma ArgumentReads(q: string, args: seq<Arg>, noBackslash: bool, max: nat, t: string, i: nat) returns (before: string, lit: string, after: string)
    requires Interpolated(q, args, noBackslash, max) == Ok(t) && i < |args|
    ensures Literal(args[i], noBackslash) == Ok(lit) && lit != "" && t == before + (lit + after)
    ensures |Gaps(q, noBackslash)| == |args| + 1 && Woven(Gaps(q, noBackslash)[..i + 1], args[..i], noBackslash, before)
    ensures Woven(Gaps(q, noBackslash)[i + 1..], args[i + 1..], noBackslash, after)
    ensures ReadLiteral(t[|before|..], noBackslash) == Some((Meant(args[i]), after)) <==> Apart(lit, after)
  {
    InterpolatedWoven(q, args, noBackslash, max, t);
    var gaps, lits := Gaps(q, noBackslash), LiteralsOf(args, noBackslash);
    InterleaveAt(gaps, lits, i);
    lit := lits[i];
    before, after := Interleave(gaps[..i + 1], lits[..i]), Interleave(gaps[i + 1..], lits[i + 1..]);
    assert LiteralsOf(args[..i], noBackslash) == lits[..i] && LiteralsOf(args[i + 1..], noBackslash) == lits[i + 1..];
    LiteralReads(args[i], after, noBackslash);
    assert t[|before|..] == lit + after;
  }

  /** Two placeholders side by side: the strings put there are read as one, with a quote between them. */
  lemma SideBySideMerge(v: string, w: string, noBackslash: bool, max: nat, t: string)
    requires Interpolated("??", [Text(v), Text(w)], noBackslash, max) == Ok(t)
    ensures ReadLiteral(t, noBackslash) == Some((Quote(false, v + "'" + w), ""))
  {
    InterpolatedWoven("??", [Text(v), Text(w)], noBackslash, max, t);
    TwoGaps(noBackslash);
    TwoLiterals(v, w, noBackslash);
    TwoWoven(Quoted(v, noBackslash, false), Quoted(w, noBackslash, false));
    MergedReads(v, w, noBackslash);
  }

  lemma TwoLiterals(v: string, w: string, noBackslash: bool)
    ensures LiteralsOf([Text(v), Text(w)], noBackslash) == [Quoted(v, noBackslash, false), Quoted(w, noBackslash, false)]
  {
  }

  lemma TwoWoven(a: string, b: string)
    ensures Interleave(["", "", ""], [a, b]) == a + b
  {
    assert ["", "", ""][1..] == ["", ""] && ["", ""][1..] == [""] && [a, b][1..] == [b] && [b][1..] == [];
    InterleaveMore(["", "", ""], [a, b]);
    InterleaveMore(["", ""], [b]);
    assert b + "" == b;
  }

  lemma TwoGaps(noBackslash: bool)
    ensures Gaps("??", noBackslash) == ["", "", ""]
  {
    assert "??"[1..] == "?" && "?"[1..] == "";
    assert Gaps("?", noBackslash) == ["", ""];
  }

  lemma MergedReads(v: string, w: string, noBackslash: bool)
    ensures ReadLiteral(Quoted(v, noBackslash, false) + Quoted(w, noBackslash, false), noBackslash) == Some((Quote(false, v + "'" + w), ""))
  {
    var tail := Body(w, noBackslash) + "'";
    var s := Quoted(v, noBackslash, false) + Quoted(w, noBackslash, false);
    assert s == "'" + (Body(v, noBackslash) + ("''" + tail));
    assert s[1..] == Body(v, noBackslash) + ("''" + tail) && ("''" + tail)[2..] == tail;
    BodyReads(v, "''" + tail, noBackslash);
    BodyReads(w, "'", noBackslash);
    assert ReadBody("'", noBackslash) == Some(("", ""));
    assert w + "" == w;
    OntoMore(v, "'", ReadBody(tail, noBackslash));
  }
}
