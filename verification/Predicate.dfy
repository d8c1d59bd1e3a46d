/**
 The row-filter predicate grammar and its parser, given as functions over token positions and proved sound and
 complete for the grammar.
 */
module Predicate {
  import opened Options
  import opened Lexer

  // ------------------------------------------------------------------ grammar

  datatype Literal = StrLit(text: string) | NumLit(digits: string) | TrueLit | FalseLit | NullLit

  datatype Literals = One(last: Literal) | More(first: Literal, rest: Literals)

  datatype Rhs =
    | Compare(op: CmpOp, lit: Literal)
    | In(negated: bool, lits: Literals)
    | IsNull(negated: bool)
    | Like(negated: bool, pattern: string)

  datatype Primary = Paren(inner: OrExpr) | Comparison(col: string, rhs: Rhs)

  datatype NotExpr = NotExpr(negated: bool, prim: Primary)

  datatype AndExpr = LastAnd(n: NotExpr) | MoreAnd(n: NotExpr, more: AndExpr)

  datatype OrExpr = LastOr(a: AndExpr) | MoreOr(a: AndExpr, others: OrExpr)

  /** What the grammar prints: keywords in any case, columns, literals and punctuation. */
  datatype Terminal = Kw(word: string) | Column(name: string) | Exactly(token: Token)

  function UpperChar(c: char): char {
    if 'a' <= c <= 'z' then ((c as int) - 32) as char else c
  }

  function Upper(s: string): (r: string)
    ensures |r| == |s|
  {
    seq(|s|, i requires 0 <= i < |s| => UpperChar(s[i]))
  }

  /** Words that are never columns. */
  predicate Keyword(word: string) {
    Upper(word) in {"AND", "OR", "NOT", "NULL", "CASE", "WHEN", "THEN", "ELSE", "END", "IN", "IS", "LIKE", "BETWEEN",
                    "DISTINCT", "TRUE", "FALSE", "INTERVAL", "AS", "DIV", "MOD"}
  }

  predicate IsKw(t: Token, kw: string) {
    t.Ident? && Upper(t.name) == kw
  }

  predicate IsColumn(t: Token) {
    t.Ident? && !Keyword(t.name)
  }

  predicate Fits(x: Terminal, t: Token) {
    match x
    case Kw(w) => IsKw(t, w)
    case Column(n) => t == Ident(n) && !Keyword(n)
    case Exactly(u) => t == u
  }

  function PrintLiteral(l: Literal): seq<Terminal> {
    match l
    case StrLit(s) => [Exactly(Str(s))]
    case NumLit(d) => [Exactly(Num(d))]
    case TrueLit => [Kw("TRUE")]
    case FalseLit => [Kw("FALSE")]
    case NullLit => [Kw("NULL")]
  }

  function PrintLiterals(ls: Literals): seq<Terminal> {
    match ls
    case One(l) => PrintLiteral(l)
    case More(l, rest) => PrintLiteral(l) + ([Exactly(Comma)] + PrintLiterals(rest))
  }

  function PrintNot(negated: bool): seq<Terminal> {
    if negated then [Kw("NOT")] else []
  }

  function PrintInList(ls: Literals): seq<Terminal> {
    [Exactly(LParen)] + (PrintLiterals(ls) + [Exactly(RParen)])
  }

  function PrintRhs(r: Rhs): seq<Terminal> {
    match r
    case Compare(op, l) => [Exactly(Op(op))] + PrintLiteral(l)
    case In(neg, ls) => PrintNot(neg) + ([Kw("IN")] + PrintInList(ls))
    case IsNull(neg) => [Kw("IS")] + (PrintNot(neg) + [Kw("NULL")])
    case Like(neg, p) => PrintNot(neg) + ([Kw("LIKE")] + [Exactly(Str(p))])
  }

  function PrintPrimary(p: Primary): seq<Terminal> {
    match p
    case Paren(e) => [Exactly(LParen)] + (PrintOr(e) + [Exactly(RParen)])
    case Comparison(c, r) => [Column(c)] + PrintRhs(r)
  }

  function PrintNotExpr(n: NotExpr): seq<Terminal> {
    PrintNot(n.negated) + PrintPrimary(n.prim)
  }

  function PrintAnd(a: AndExpr): seq<Terminal> {
    match a
    case LastAnd(n) => PrintNotExpr(n)
    case MoreAnd(n, more) => PrintNotExpr(n) + ([Kw("AND")] + PrintAnd(more))
  }

  function PrintOr(e: OrExpr): seq<Terminal> {
    match e
    case LastOr(a) => PrintAnd(a)
    case MoreOr(a, others) => PrintAnd(a) + ([Kw("OR")] + PrintOr(others))
  }

  function PrimaryCols(p: Primary): set<string> {
    match p
    case Paren(e) => OrCols(e)
    case Comparison(c, _) => {c}
  }

  function AndCols(a: AndExpr): set<string> {
    match a
    case LastAnd(n) => PrimaryCols(n.prim)
    case MoreAnd(n, more) => PrimaryCols(n.prim) + AndCols(more)
  }

  function OrCols(e: OrExpr): set<string> {
    match e
    case LastOr(a) => AndCols(a)
    case MoreOr(a, others) => AndCols(a) + OrCols(others)
  }

  // ------------------------------------------------------------------- parser

  /** The tokens `lo..hi` are those the terminals print. */
  ghost predicate Reads(xs: seq<Terminal>, toks: seq<Token>, lo: nat, hi: nat) {
    hi <= |toks| && hi == lo + |xs| && forall i {:trigger ReadsAt(xs, toks, lo, i)} :: 0 <= i < |xs| ==> ReadsAt(xs, toks, lo, i)
  }

  ghost predicate ReadsAt(xs: seq<Terminal>, toks: seq<Token>, lo: nat, i: nat)
    requires i < |xs| && lo + |xs| <= |toks|
  {
    Fits(xs[i], toks[lo + i])
  }

  lemma ReadsOne(x: Terminal, toks: seq<Token>, lo: nat, hi: nat)
    ensures Reads([x], toks, lo, hi) <==> lo < |toks| && hi == lo + 1 && Fits(x, toks[lo])
  {
    if Reads([x], toks, lo, hi) {
      assert ReadsAt([x], toks, lo, 0);
    }
  }

  lemma ReadsPlus(xs: seq<Terminal>, ys: seq<Terminal>, toks: seq<Token>, lo: nat, hi: nat)
    ensures Reads(xs + ys, toks, lo, hi) <==> Reads(xs, toks, lo, lo + |xs|) && Reads(ys, toks, lo + |xs|, hi)
  {
    var all, mid := xs + ys, lo + |xs|;
    if Reads(all, toks, lo, hi) {
      forall i | 0 <= i < |xs| ensures ReadsAt(xs, toks, lo, i) {
        assert ReadsAt(all, toks, lo, i);
      }
      forall i | 0 <= i < |ys| ensures ReadsAt(ys, toks, mid, i) {
        assert ReadsAt(all, toks, lo, |xs| + i) && all[|xs| + i] == ys[i];
      }
    }
    if Reads(xs, toks, lo, mid) && Reads(ys, toks, mid, hi) {
      forall i | 0 <= i < |all| ensures ReadsAt(all, toks, lo, i) {
        if i < |xs| {
          assert ReadsAt(xs, toks, lo, i);
        } else {
          assert ReadsAt(ys, toks, mid, i - |xs|);
        }
      }
    }
  }

  /** One terminal in front of others. */
  lemma ReadsCons(x: Terminal, ys: seq<Terminal>, toks: seq<Token>, lo: nat, hi: nat)
    ensures Reads([x] + ys, toks, lo, hi) <==> lo < |toks| && Fits(x, toks[lo]) && Reads(ys, toks, lo + 1, hi)
  {
    ReadsPlus([x], ys, toks, lo, hi);
    ReadsOne(x, toks, lo, lo + 1);
  }

  /** One terminal between others. */
  lemma ReadsInfix(xs: seq<Terminal>, x: Terminal, ys: seq<Terminal>, toks: seq<Token>, lo: nat, hi: nat)
    ensures Reads(xs + ([x] + ys), toks, lo, hi)
       <==> Reads(xs, toks, lo, lo + |xs|) && lo + |xs| < |toks| && Fits(x, toks[lo + |xs|]) && Reads(ys, toks, lo + |xs| + 1, hi)
  {
    ReadsPlus(xs, [x] + ys, toks, lo, hi);
    ReadsCons(x, ys, toks, lo + |xs|, hi);
  }

  /** Terminals between two others. */
  lemma ReadsWrap(x: Terminal, ys: seq<Terminal>, y: Terminal, toks: seq<Token>, lo: nat, hi: nat)
    ensures Reads([x] + (ys + [y]), toks, lo, hi)
       <==> lo < |toks| && Fits(x, toks[lo]) && lo + 1 < hi <= |toks| && Reads(ys, toks, lo + 1, hi - 1) && Fits(y, toks[hi - 1])
  {
    ReadsCons(x, ys + [y], toks, lo, hi);
    ReadsPlus(ys, [y], toks, lo + 1, hi);
    ReadsOne(y, toks, lo + 1 + |ys|, hi);
  }

  function PrintNotLen(negated: bool): nat {
    if negated then 1 else 0
  }

  lemma NotReads(negated: bool, toks: seq<Token>, lo: nat, hi: nat)
    ensures |PrintNot(negated)| == PrintNotLen(negated)
    ensures Reads(PrintNot(negated), toks, lo, hi)
       <==> hi <= |toks| && hi == lo + PrintNotLen(negated) && (negated ==> IsKw(toks[lo], "NOT"))
  {
    if negated {
      ReadsOne(Kw("NOT"), toks, lo, hi);
    }
  }

  /** A token list the tokenizer can produce: Eof closes it and occurs nowhere else. */
  ghost predicate Closed(toks: seq<Token>) {
    |toks| > 0 && forall i :: 0 <= i < |toks| ==> (toks[i].Eof? <==> i == |toks| - 1)
  }

  /** A parse that failed, or ended before `pos` with a value. */
  datatype Parse<+T> = Fail | Done(value: T, pos: nat)

  function ParseLiteral(toks: seq<Token>, pos: nat): (r: Parse<Literal>)
    requires Closed(toks) && pos < |toks|
    ensures r.Done? ==> pos < r.pos < |toks| && Reads(PrintLiteral(r.value), toks, pos, r.pos)
  {
    var t := toks[pos];
    if t.Str? then Done(StrLit(t.text), pos + 1)
    else if t.Num? then Done(NumLit(t.digits), pos + 1)
    else if IsKw(t, "TRUE") then Done(TrueLit, pos + 1)
    else if IsKw(t, "FALSE") then Done(FalseLit, pos + 1)
    else if IsKw(t, "NULL") then Done(NullLit, pos + 1)
    else Fail
  }

  lemma LiteralsRead(l: Literal, rest: Literals, toks: seq<Token>, lo: nat, mid: nat, hi: nat)
    requires mid == lo + |PrintLiteral(l)|
    ensures Reads(PrintLiterals(More(l, rest)), toks, lo, hi)
       <==> Reads(PrintLiteral(l), toks, lo, mid) && mid < |toks| && toks[mid] == Comma && Reads(PrintLiterals(rest), toks, mid + 1, hi)
  {
    ReadsInfix(PrintLiteral(l), Exactly(Comma), PrintLiterals(rest), toks, lo, hi);
  }

  lemma InListReads(ls: Literals, toks: seq<Token>, lo: nat, hi: nat)
    ensures Reads(PrintInList(ls), toks, lo, hi)
       <==> lo + 1 < hi <= |toks| && toks[lo] == LParen && Reads(PrintLiterals(ls), toks, lo + 1, hi - 1) && toks[hi - 1] == RParen
  {
    ReadsWrap(Exactly(LParen), PrintLiterals(ls), Exactly(RParen), toks, lo, hi);
  }

  lemma InReads(negated: bool, ls: Literals, toks: seq<Token>, lo: nat, mid: nat, hi: nat)
    requires mid == lo + PrintNotLen(negated)
    ensures Reads(PrintRhs(In(negated, ls)), toks, lo, hi)
       <==> Reads(PrintNot(negated), toks, lo, mid) && mid < |toks| && IsKw(toks[mid], "IN") && Reads(PrintInList(ls), toks, mid + 1, hi)
  {
    NotReads(negated, toks, lo, mid);
    ReadsInfix(PrintNot(negated), Kw("IN"), PrintInList(ls), toks, lo, hi);
  }

  lemma ParenReads(e: OrExpr, toks: seq<Token>, lo: nat, hi: nat)
    ensures Reads(PrintPrimary(Paren(e)), toks, lo, hi)
       <==> lo + 1 < hi <= |toks| && toks[lo] == LParen && Reads(PrintOr(e), toks, lo + 1, hi - 1) && toks[hi - 1] == RParen
  {
    ReadsWrap(Exactly(LParen), PrintOr(e), Exactly(RParen), toks, lo, hi);
  }

  lemma AndReads(n: NotExpr, more: AndExpr, toks: seq<Token>, lo: nat, mid: nat, hi: nat)
    requires mid == lo + |PrintNotExpr(n)|
    ensures Reads(PrintAnd(MoreAnd(n, more)), toks, lo, hi)
       <==> Reads(PrintNotExpr(n), toks, lo, mid) && mid < |toks| && IsKw(toks[mid], "AND") && Reads(PrintAnd(more), toks, mid + 1, hi)
  {
    ReadsInfix(PrintNotExpr(n), Kw("AND"), PrintAnd(more), toks, lo, hi);
  }

  lemma OrReads(a: AndExpr, others: OrExpr, toks: seq<Token>, lo: nat, mid: nat, hi: nat)
    requires mid == lo + |PrintAnd(a)|
    ensures Reads(PrintOr(MoreOr(a, others)), toks, lo, hi)
       <==> Reads(PrintAnd(a), toks, lo, mid) && mid < |toks| && IsKw(toks[mid], "OR") && Reads(PrintOr(others), toks, mid + 1, hi)
  {
    ReadsInfix(PrintAnd(a), Kw("OR"), PrintOr(others), toks, lo, hi);
  }

  /** literal (',' literal)* */
  function ParseLiterals(toks: seq<Token>, pos: nat): (r: Parse<Literals>)
    requires Closed(toks) && pos < |toks|
    ensures r.Done? ==> pos < r.pos < |toks| && Reads(PrintLiterals(r.value), toks, pos, r.pos)
    decreases |toks| - pos
  {
    var l := ParseLiteral(toks, pos);
    if l.Fail? then Fail
    else if toks[l.pos] == Comma then
      var rest := ParseLiterals(toks, l.pos + 1);
      if rest.Fail? then Fail
      else
        LiteralsRead(l.value, rest.value, toks, pos, l.pos, rest.pos);
        Done(More(l.value, rest.value), rest.pos)
    else Done(One(l.value), l.pos)
  }

  /** '(' literals ')' */
  function ParseInList(toks: seq<Token>, pos: nat): (r: Parse<Literals>)
    requires Closed(toks) && pos < |toks|
    ensures r.Done? ==> pos < r.pos < |toks| && Reads(PrintInList(r.value), toks, pos, r.pos)
  {
    if toks[pos] != LParen then Fail
    else
      var ls := ParseLiterals(toks, pos + 1);
      if ls.Fail? || toks[ls.pos] != RParen then Fail
      else
        InListReads(ls.value, toks, pos, ls.pos + 1);
        Done(ls.value, ls.pos + 1)
  }

  /** What follows NOT? after a column: IN (...) or LIKE '...'. */
  function ParseInLike(toks: seq<Token>, start: nat, pos: nat, negated: bool): (r: Parse<Rhs>)
    requires Closed(toks) && start <= pos < |toks| && Reads(PrintNot(negated), toks, start, pos)
    ensures r.Done? ==> pos < r.pos < |toks| && Reads(PrintRhs(r.value), toks, start, r.pos)
  {
    if IsKw(toks[pos], "IN") then
      var ls := ParseInList(toks, pos + 1);
      if ls.Fail? then Fail
      else
        NotReads(negated, toks, start, pos);
        InReads(negated, ls.value, toks, start, pos, ls.pos);
        Done(In(negated, ls.value), ls.pos)
    else if IsKw(toks[pos], "LIKE") && toks[pos + 1].Str? then
      ReadsOne(Exactly(toks[pos + 1]), toks, pos + 1, pos + 2);
      ReadsInfix(PrintNot(negated), Kw("LIKE"), [Exactly(toks[pos + 1])], toks, start, pos + 2);
      Done(Like(negated, toks[pos + 1].text), pos + 2)
    else Fail
  }

  function ParseRhs(toks: seq<Token>, pos: nat): (r: Parse<Rhs>)
    requires Closed(toks) && pos < |toks|
    ensures r.Done? ==> pos < r.pos < |toks| && Reads(PrintRhs(r.value), toks, pos, r.pos)
  {
    var t := toks[pos];
    if t.Op? then
      var l := ParseLiteral(toks, pos + 1);
      if l.Fail? then Fail
      else
        ReadsCons(Exactly(t), PrintLiteral(l.value), toks, pos, l.pos);
        Done(Compare(t.op, l.value), l.pos)
    else if IsKw(t, "IS") then
      var negated := IsKw(toks[pos + 1], "NOT");
      var p := if negated then pos + 2 else pos + 1;
      if !IsKw(toks[p], "NULL") then Fail
      else
        NotReads(negated, toks, pos + 1, p);
        ReadsWrap(Kw("IS"), PrintNot(negated), Kw("NULL"), toks, pos, p + 1);
        Done(IsNull(negated), p + 1)
    else if IsKw(t, "NOT") then ParseInLike(toks, pos, pos + 1, true)
    else ParseInLike(toks, pos, pos, false)
  }

  function ParseComparison(toks: seq<Token>, pos: nat): (r: Parse<Primary>)
    requires Closed(toks) && pos < |toks|
    ensures r.Done? ==> pos < r.pos < |toks| && Reads(PrintPrimary(r.value), toks, pos, r.pos)
  {
    var t := toks[pos];
    if !IsColumn(t) || toks[pos + 1] == LParen then Fail
    else
      var rhs := ParseRhs(toks, pos + 1);
      if rhs.Fail? then Fail
      else
        ReadsCons(Column(t.name), PrintRhs(rhs.value), toks, pos, rhs.pos);
        Done(Comparison(t.name, rhs.value), rhs.pos)
  }

  function ParsePrimary(toks: seq<Token>, pos: nat): (r: Parse<Primary>)
    requires Closed(toks) && pos < |toks|
    ensures r.Done? ==> pos < r.pos < |toks| && Reads(PrintPrimary(r.value), toks, pos, r.pos)
    decreases |toks| - pos, 0
  {
    if toks[pos] == LParen then
      var e := ParseOr(toks, pos + 1);
      if e.Fail? || toks[e.pos] != RParen then Fail
      else
        ParenReads(e.value, toks, pos, e.pos + 1);
        Done(Paren(e.value), e.pos + 1)
    else ParseComparison(toks, pos)
  }

  function ParseNot(toks: seq<Token>, pos: nat): (r: Parse<NotExpr>)
    requires Closed(toks) && pos < |toks|
    ensures r.Done? ==> pos < r.pos < |toks| && Reads(PrintNotExpr(r.value), toks, pos, r.pos)
    decreases |toks| - pos, 1
  {
    var negated := IsKw(toks[pos], "NOT");
    var start := if negated then pos + 1 else pos;
    var p := ParsePrimary(toks, start);
    if p.Fail? then Fail
    else
      NotReads(negated, toks, pos, start);
      ReadsPlus(PrintNot(negated), PrintPrimary(p.value), toks, pos, p.pos);
      Done(NotExpr(negated, p.value), p.pos)
  }

  function ParseAnd(toks: seq<Token>, pos: nat): (r: Parse<AndExpr>)
    requires Closed(toks) && pos < |toks|
    ensures r.Done? ==> pos < r.pos < |toks| && Reads(PrintAnd(r.value), toks, pos, r.pos)
    decreases |toks| - pos, 2
  {
    var n := ParseNot(toks, pos);
    if n.Fail? then Fail
    else if IsKw(toks[n.pos], "AND") then
      var more := ParseAnd(toks, n.pos + 1);
      if more.Fail? then Fail
      else
        AndReads(n.value, more.value, toks, pos, n.pos, more.pos);
        Done(MoreAnd(n.value, more.value), more.pos)
    else Done(LastAnd(n.value), n.pos)
  }

  function ParseOr(toks: seq<Token>, pos: nat): (r: Parse<OrExpr>)
    requires Closed(toks) && pos < |toks|
    ensures r.Done? ==> pos < r.pos < |toks| && Reads(PrintOr(r.value), toks, pos, r.pos)
    decreases |toks| - pos, 3
  {
    var a := ParseAnd(toks, pos);
    if a.Fail? then Fail
    else if IsKw(toks[a.pos], "OR") then
      var others := ParseOr(toks, a.pos + 1);
      if others.Fail? then Fail
      else
        OrReads(a.value, others.value, toks, pos, a.pos, others.pos);
        Done(MoreOr(a.value, others.value), others.pos)
    else Done(LastOr(a.value), a.pos)
  }

  /** The predicate a whole token list reads as. */
  function ParseTokens(toks: seq<Token>): (r: Option<OrExpr>)
    requires Closed(toks)
    ensures r.Some? ==> Reads(PrintOr(r.value), toks, 0, |toks| - 1)
  {
    var e := ParseOr(toks, 0);
    if e.Done? && toks[e.pos].Eof? then Some(e.value) else None
  }

  // ------------------------------------------------------------- completeness

  lemma {:induction false} LiteralComplete(l: Literal, toks: seq<Token>, lo: nat, hi: nat)
    requires Closed(toks) && hi < |toks| && Reads(PrintLiteral(l), toks, lo, hi)
    ensures ParseLiteral(toks, lo) == Done(l, hi)
  {
    ReadsOne(PrintLiteral(l)[0], toks, lo, hi);
  }

  lemma {:induction false} LiteralsComplete(ls: Literals, toks: seq<Token>, lo: nat, hi: nat)
    requires Closed(toks) && hi < |toks| && Reads(PrintLiterals(ls), toks, lo, hi) && toks[hi] != Comma
    ensures ParseLiterals(toks, lo) == Done(ls, hi)
    decreases ls
  {
    match ls
    case One(l) => LiteralComplete(l, toks, lo, hi);
    case More(l, rest) =>
      var mid := lo + |PrintLiteral(l)|;
      LiteralsRead(l, rest, toks, lo, mid, hi);
      LiteralComplete(l, toks, lo, mid);
      LiteralsComplete(rest, toks, mid + 1, hi);
  }

  lemma RhsComplete(r: Rhs, toks: seq<Token>, lo: nat, hi: nat)
    requires Closed(toks) && hi < |toks| && Reads(PrintRhs(r), toks, lo, hi)
    ensures ParseRhs(toks, lo) == Done(r, hi)
  {
    match r
    case Compare(op, l) =>
      ReadsCons(Exactly(Op(op)), PrintLiteral(l), toks, lo, hi);
      LiteralComplete(l, toks, lo + 1, hi);
    case In(neg, ls) =>
      InComplete(neg, ls, toks, lo, hi);
    case IsNull(neg) =>
      IsNullComplete(neg, toks, lo, hi);
    case Like(neg, p) =>
      var mid := lo + PrintNotLen(neg);
      NotReads(neg, toks, lo, mid);
      ReadsInfix(PrintNot(neg), Kw("LIKE"), [Exactly(Str(p))], toks, lo, hi);
      ReadsOne(Exactly(Str(p)), toks, mid + 1, hi);
  }

  lemma InListComplete(ls: Literals, toks: seq<Token>, lo: nat, hi: nat)
    requires Closed(toks) && hi < |toks| && Reads(PrintInList(ls), toks, lo, hi)
    ensures ParseInList(toks, lo) == Done(ls, hi)
  {
    InListReads(ls, toks, lo, hi);
    LiteralsComplete(ls, toks, lo + 1, hi - 1);
  }

  lemma InComplete(neg: bool, ls: Literals, toks: seq<Token>, lo: nat, hi: nat)
    requires Closed(toks) && hi < |toks| && Reads(PrintRhs(In(neg, ls)), toks, lo, hi)
    ensures ParseRhs(toks, lo) == Done(In(neg, ls), hi)
  {
    var mid := lo + PrintNotLen(neg);
    NotReads(neg, toks, lo, mid);
    InReads(neg, ls, toks, lo, mid, hi);
    InListComplete(ls, toks, mid + 1, hi);
  }

  lemma IsNullComplete(neg: bool, toks: seq<Token>, lo: nat, hi: nat)
    requires Closed(toks) && hi < |toks| && Reads(PrintRhs(IsNull(neg)), toks, lo, hi)
    ensures ParseRhs(toks, lo) == Done(IsNull(neg), hi)
  {
    ReadsWrap(Kw("IS"), PrintNot(neg), Kw("NULL"), toks, lo, hi);
    NotReads(neg, toks, lo + 1, hi - 1);
  }

  /** The token after a predicate does not extend it. */
  predicate Follows(t: Token) {
    !IsKw(t, "AND") && !IsKw(t, "OR")
  }

  lemma {:induction false} PrimaryComplete(p: Primary, toks: seq<Token>, lo: nat, hi: nat)
    requires Closed(toks) && hi < |toks| && Reads(PrintPrimary(p), toks, lo, hi)
    ensures ParsePrimary(toks, lo) == Done(p, hi)
    decreases p
  {
    match p
    case Paren(e) =>
      ParenReads(e, toks, lo, hi);
      OrComplete(e, toks, lo + 1, hi - 1);
    case Comparison(c, r) =>
      ReadsCons(Column(c), PrintRhs(r), toks, lo, hi);
      RhsComplete(r, toks, lo + 1, hi);
  }

  /** What can start with NOT is no primary. */
  lemma PrimaryHead(p: Primary, toks: seq<Token>, lo: nat, hi: nat)
    requires Reads(PrintPrimary(p), toks, lo, hi)
    ensures lo < |toks| && !IsKw(toks[lo], "NOT")
  {
    match p
    case Paren(e) => ReadsCons(Exactly(LParen), PrintOr(e) + [Exactly(RParen)], toks, lo, hi);
    case Comparison(c, r) => ReadsCons(Column(c), PrintRhs(r), toks, lo, hi);
  }

  lemma {:induction false} NotComplete(n: NotExpr, toks: seq<Token>, lo: nat, hi: nat)
    requires Closed(toks) && hi < |toks| && Reads(PrintNotExpr(n), toks, lo, hi)
    ensures ParseNot(toks, lo) == Done(n, hi)
    decreases n
  {
    var mid := lo + PrintNotLen(n.negated);
    NotReads(n.negated, toks, lo, mid);
    ReadsPlus(PrintNot(n.negated), PrintPrimary(n.prim), toks, lo, hi);
    PrimaryHead(n.prim, toks, mid, hi);
    PrimaryComplete(n.prim, toks, mid, hi);
  }

  lemma AndStep(toks: seq<Token>, lo: nat, n: NotExpr, mid: nat, more: AndExpr, hi: nat)
    requires Closed(toks) && lo < |toks| && mid + 1 < |toks| && ParseNot(toks, lo) == Done(n, mid)
    requires IsKw(toks[mid], "AND") && ParseAnd(toks, mid + 1) == Done(more, hi)
    ensures ParseAnd(toks, lo) == Done(MoreAnd(n, more), hi)
  {
  }

  lemma OrStep(toks: seq<Token>, lo: nat, a: AndExpr, mid: nat, others: OrExpr, hi: nat)
    requires Closed(toks) && lo < |toks| && mid + 1 < |toks| && ParseAnd(toks, lo) == Done(a, mid)
    requires IsKw(toks[mid], "OR") && ParseOr(toks, mid + 1) == Done(others, hi)
    ensures ParseOr(toks, lo) == Done(MoreOr(a, others), hi)
  {
  }

  lemma {:induction false} AndComplete(a: AndExpr, toks: seq<Token>, lo: nat, hi: nat)
    requires Closed(toks) && hi < |toks| && Reads(PrintAnd(a), toks, lo, hi) && !IsKw(toks[hi], "AND")
    ensures ParseAnd(toks, lo) == Done(a, hi)
    decreases a
  {
    match a
    case LastAnd(n) => NotComplete(n, toks, lo, hi);
    case MoreAnd(n, more) =>
      var mid := lo + |PrintNotExpr(n)|;
      AndReads(n, more, toks, lo, mid, hi);
      NotComplete(n, toks, lo, mid);
      AndComplete(more, toks, mid + 1, hi);
      AndStep(toks, lo, n, mid, more, hi);
  }

  lemma OneKeyword(t: Token, kw: string, other: string)
    requires IsKw(t, kw) && kw != other
    ensures !IsKw(t, other)
  {
  }

  lemma {:induction false} OrComplete(e: OrExpr, toks: seq<Token>, lo: nat, hi: nat)
    requires Closed(toks) && hi < |toks| && Reads(PrintOr(e), toks, lo, hi) && Follows(toks[hi])
    ensures ParseOr(toks, lo) == Done(e, hi)
    decreases e
  {
    match e
    case LastOr(a) => AndComplete(a, toks, lo, hi);
    case MoreOr(a, others) =>
      var mid := lo + |PrintAnd(a)|;
      OrReads(a, others, toks, lo, mid, hi);
      OneKeyword(toks[mid], "OR", "AND");
      AndComplete(a, toks, lo, mid);
      OrComplete(others, toks, mid + 1, hi);
      OrStep(toks, lo, a, mid, others, hi);
  }

  /** The parser accepts a token list exactly when the grammar prints it, and reads it as that predicate. */
  lemma ParseTokensIff(toks: seq<Token>, e: OrExpr)
    requires Closed(toks)
    ensures ParseTokens(toks) == Some(e) <==> Reads(PrintOr(e), toks, 0, |toks| - 1)
  {
    if Reads(PrintOr(e), toks, 0, |toks| - 1) {
      OrComplete(e, toks, 0, |toks| - 1);
    }
  }

  // ---------------------------------------------- what the grammar puts side by side

  /** What the grammar prints after a string literal. */
  predicate AfterStr(x: Terminal) {
    x == Kw("AND") || x == Kw("OR") || x == Exactly(RParen) || x == Exactly(Comma)
  }

  /** Neighbours the grammar never prints: a literal and a word that is no connective, or a column and a parenthesis. */
  predicate Clash(x: Terminal, y: Terminal) {
    || (x.Exactly? && x.token.Str? && !AfterStr(y))
    || (x.Column? && y == Exactly(LParen))
  }

  ghost predicate Spaced(xs: seq<Terminal>) {
    forall i :: 0 <= i < |xs| - 1 ==> !Clash(xs[i], xs[i + 1])
  }

  lemma SpacedConcat(xs: seq<Terminal>, ys: seq<Terminal>)
    requires Spaced(xs) && Spaced(ys)
    requires xs == [] || ys == [] || !Clash(xs[|xs| - 1], ys[0])
    ensures Spaced(xs + ys)
  {
    var all := xs + ys;
    forall i | 0 <= i < |all| - 1 ensures !Clash(all[i], all[i + 1]) {
      if i >= |xs| {
        assert all[i] == ys[i - |xs|] && all[i + 1] == ys[i - |xs| + 1];
      }
    }
  }

  lemma SpacedInfix(xs: seq<Terminal>, x: Terminal, ys: seq<Terminal>)
    requires Spaced(xs) && Spaced(ys)
    requires (xs == [] || !Clash(xs[|xs| - 1], x)) && (ys == [] || !Clash(x, ys[0]))
    ensures Spaced(xs + ([x] + ys))
  {
    SpacedConcat([x], ys);
    SpacedConcat(xs, [x] + ys);
  }

  lemma {:induction false} LiteralsSpaced(ls: Literals)
    ensures Spaced(PrintLiterals(ls))
  {
    if ls.More? {
      LiteralsSpaced(ls.rest);
      SpacedInfix(PrintLiteral(ls.first), Exactly(Comma), PrintLiterals(ls.rest));
    }
  }

  lemma RhsSpaced(r: Rhs)
    ensures Spaced(PrintRhs(r))
  {
    if r.In? {
      LiteralsSpaced(r.lits);
      SpacedConcat(PrintLiterals(r.lits), [Exactly(RParen)]);
      SpacedConcat([Exactly(LParen)], PrintLiterals(r.lits) + [Exactly(RParen)]);
      SpacedInfix(PrintNot(r.negated), Kw("IN"), PrintInList(r.lits));
    }
  }

  lemma {:induction false} PrimarySpaced(p: Primary)
    ensures Spaced(PrintPrimary(p))
    decreases p
  {
    match p
    case Paren(e) =>
      OrSpaced(e);
      SpacedConcat(PrintOr(e), [Exactly(RParen)]);
      SpacedConcat([Exactly(LParen)], PrintOr(e) + [Exactly(RParen)]);
    case Comparison(c, r) =>
      RhsSpaced(r);
      SpacedConcat([Column(c)], PrintRhs(r));
  }

  lemma {:induction false} AndSpaced(a: AndExpr)
    ensures Spaced(PrintAnd(a))
    decreases a
  {
    PrimarySpaced(a.n.prim);
    SpacedConcat(PrintNot(a.n.negated), PrintPrimary(a.n.prim));
    if a.MoreAnd? {
      AndSpaced(a.more);
      SpacedInfix(PrintNotExpr(a.n), Kw("AND"), PrintAnd(a.more));
    }
  }

  lemma {:induction false} OrSpaced(e: OrExpr)
    ensures Spaced(PrintOr(e))
    decreases e
  {
    AndSpaced(e.a);
    if e.MoreOr? {
      OrSpaced(e.others);
      SpacedInfix(PrintAnd(e.a), Kw("OR"), PrintOr(e.others));
    }
  }

  lemma {:induction false} LiteralsNoColumn(ls: Literals, n: string)
    ensures Column(n) !in PrintLiterals(ls)
  {
    if ls.More? {
      LiteralsNoColumn(ls.rest, n);
    }
  }

  lemma InPlus(x: Terminal, xs: seq<Terminal>, ys: seq<Terminal>)
    ensures x in xs + ys <==> x in xs || x in ys
  {
  }

  lemma RhsNoColumn(r: Rhs, n: string)
    ensures Column(n) !in PrintRhs(r)
  {
    if r.In? {
      var x := Column(n);
      LiteralsNoColumn(r.lits, n);
      InPlus(x, PrintLiterals(r.lits), [Exactly(RParen)]);
      InPlus(x, [Exactly(LParen)], PrintLiterals(r.lits) + [Exactly(RParen)]);
      InPlus(x, [Kw("IN")], PrintInList(r.lits));
      InPlus(x, PrintNot(r.negated), [Kw("IN")] + PrintInList(r.lits));
    }
  }

  /** The columns a predicate prints are its columns. */
  lemma {:induction false} PrimaryPrintsCols(p: Primary, n: string)
    ensures Column(n) in PrintPrimary(p) <==> n in PrimaryCols(p)
    decreases p
  {
    match p
    case Paren(e) => OrPrintsCols(e, n);
    case Comparison(c, r) => RhsNoColumn(r, n);
  }

  lemma {:induction false} AndPrintsCols(a: AndExpr, n: string)
    ensures Column(n) in PrintAnd(a) <==> n in AndCols(a)
    decreases a
  {
    PrimaryPrintsCols(a.n.prim, n);
    assert Column(n) in PrintNotExpr(a.n) <==> Column(n) in PrintPrimary(a.n.prim);
    if a.MoreAnd? {
      AndPrintsCols(a.more, n);
    }
  }

  lemma {:induction false} OrPrintsCols(e: OrExpr, n: string)
    ensures Column(n) in PrintOr(e) <==> n in OrCols(e)
    decreases e
  {
    AndPrintsCols(e.a, n);
    if e.MoreOr? {
      OrPrintsCols(e.others, n);
    }
  }

  /** A keyword the grammar prints is a word that cannot be a column, and it prints no column as an exact token. */
  predicate TidyTerminal(x: Terminal) {
    && (x.Kw? ==> x.word in {"AND", "OR", "NOT", "IN", "IS", "NULL", "LIKE", "TRUE", "FALSE"})
    && (x.Exactly? ==> !x.token.Ident?)
  }

  ghost predicate Tidy(xs: seq<Terminal>) {
    forall x :: x in xs ==> TidyTerminal(x)
  }

  lemma TidyPlus(xs: seq<Terminal>, ys: seq<Terminal>)
    requires Tidy(xs) && Tidy(ys)
    ensures Tidy(xs + ys)
  {
  }

  lemma {:induction false} LiteralsTidy(ls: Literals)
    ensures Tidy(PrintLiterals(ls))
  {
    if ls.More? {
      LiteralsTidy(ls.rest);
    }
  }

  lemma RhsTidy(r: Rhs)
    ensures Tidy(PrintRhs(r))
  {
    if r.In? {
      LiteralsTidy(r.lits);
      TidyPlus(PrintLiterals(r.lits), [Exactly(RParen)]);
      TidyPlus([Exactly(LParen)], PrintLiterals(r.lits) + [Exactly(RParen)]);
      TidyPlus([Kw("IN")], PrintInList(r.lits));
      TidyPlus(PrintNot(r.negated), [Kw("IN")] + PrintInList(r.lits));
    }
  }

  lemma {:induction false} PrimaryTidy(p: Primary)
    ensures Tidy(PrintPrimary(p))
    decreases p
  {
    match p
    case Paren(e) => OrTidy(e);
    case Comparison(c, r) => RhsTidy(r);
  }

  lemma {:induction false} AndTidy(a: AndExpr)
    ensures Tidy(PrintAnd(a))
    decreases a
  {
    PrimaryTidy(a.n.prim);
    assert Tidy(PrintNotExpr(a.n));
    if a.MoreAnd? {
      AndTidy(a.more);
    }
  }

  lemma {:induction false} OrTidy(e: OrExpr)
    ensures Tidy(PrintOr(e))
    decreases e
  {
    AndTidy(e.a);
    if e.MoreOr? {
      OrTidy(e.others);
    }
  }

  /** In an accepted token list the column tokens are the predicate's columns, and none of them is called. */
  lemma AcceptedColumns(toks: seq<Token>)
    requires Closed(toks) && ParseTokens(toks).Some?
    ensures forall i {:trigger toks[i]} :: 0 <= i < |toks| - 1 && IsColumn(toks[i]) ==> toks[i + 1] != LParen
    ensures forall n :: n in OrCols(ParseTokens(toks).value) <==> Ident(n) in toks && !Keyword(n)
  {
    var e := ParseTokens(toks).value;
    var xs := PrintOr(e);
    OrSpaced(e);
    OrTidy(e);
    forall i | 0 <= i < |xs| ensures IsColumn(toks[i]) <==> xs[i].Column? {
      assert xs[i] in xs && TidyTerminal(xs[i]);
      assert ReadsAt(xs, toks, 0, i);
    }
    forall i | 0 <= i < |toks| - 1 && IsColumn(toks[i]) ensures toks[i + 1] != LParen {
      if i + 1 < |xs| {
        assert ReadsAt(xs, toks, 0, i + 1) && !Clash(xs[i], xs[i + 1]);
      }
    }
    forall n ensures n in OrCols(e) <==> Ident(n) in toks && !Keyword(n) {
      OrPrintsCols(e, n);
      if Column(n) in xs {
        var i :| 0 <= i < |xs| && xs[i] == Column(n);
        assert ReadsAt(xs, toks, 0, i);
      }
      if Ident(n) in toks && !Keyword(n) {
        var i :| 0 <= i < |toks| && toks[i] == Ident(n);
        assert ReadsAt(xs, toks, 0, i);
      }
    }
  }
}
