/** The row-filter parser as the source runs it. */
module PredParser {
  // One object whose position and column set its methods update, each method proved against the
  // function of the same grammar rule.

  import opened Options
  import opened Lexer
  import opened Predicate
  import Strings

  class Parser {
    const toks: seq<Token>
    var pos: nat
    var cols: set<string>

    constructor (tokens: seq<Token>)
      requires Closed(tokens)
      ensures toks == tokens && pos == 0 && cols == {} && Valid()
    {
      toks := tokens;
      pos := 0;
      cols := {};
    }

    /** The position stays on a token, the closing Eof at the latest. */
    ghost predicate Valid()
      reads this
    {
      Closed(toks) && pos < |toks|
    }

    function Peek(): Token
      requires Valid()
      reads this
    {
      toks[pos]
    }

    method Literal() returns (ok: bool)
      requires Valid()
      modifies this`pos
      ensures Valid()
      ensures ok <==> ParseLiteral(toks, old(pos)).Done?
      ensures ok ==> pos == ParseLiteral(toks, old(pos)).pos
      ensures !ok ==> pos == old(pos)
    {
      var t := Peek();
      if t.Str? || t.Num? || IsKw(t, "TRUE") || IsKw(t, "FALSE") || IsKw(t, "NULL") {
        pos := pos + 1;
        return true;
      }
      return false;
    }

    /** The literals between the parentheses of an IN list: one, then one more after every comma. */
    method ListItems() returns (ok: bool)
      requires Valid()
      modifies this`pos
      ensures Valid() && pos >= old(pos)
      ensures ok <==> ListEnd(toks, old(pos)).Done?
      ensures ok ==> pos == ListEnd(toks, old(pos)).pos
    {
      ghost var start := pos;
      ListUnroll(toks, pos);
      ok := Literal();
      if !ok {
        return;
      }
      while Peek() == Comma
        invariant Valid() && start <= pos
        invariant ListEnd(toks, start) == MoreLiterals(toks, pos)
        decreases |toks| - pos
      {
        pos := pos + 1;
        assert ListEnd(toks, start) == ListEnd(toks, pos);
        ListUnroll(toks, pos);
        ok := Literal();
        if !ok {
          return;
        }
      }
      return true;
    }

    method InList() returns (ok: bool)
      requires Valid()
      modifies this`pos
      ensures Valid() && pos >= old(pos)
      ensures ok <==> ParseInList(toks, old(pos)).Done?
      ensures ok ==> pos == ParseInList(toks, old(pos)).pos
    {
      if Peek() != LParen {
        return false;
      }
      InListIs(toks, pos);
      pos := pos + 1;
      ok := ListItems();
      if !ok {
        return;
      }
      if Peek() != RParen {
        return false;
      }
      pos := pos + 1;
      return true;
    }

    method StringLiteral() returns (ok: bool)
      requires Valid()
      modifies this`pos
      ensures Valid()
      ensures ok <==> toks[old(pos)].Str?
      ensures pos == old(pos) + if ok then 1 else 0
    {
      if !Peek().Str? {
        return false;
      }
      pos := pos + 1;
      return true;
    }

    /** IS, then an optional NOT, then NULL. */
    method IsNullTail() returns (ok: bool)
      requires Valid() && IsKw(toks[pos], "IS")
      modifies this`pos
      ensures Valid() && pos >= old(pos)
      ensures EndOf(ParseRhs(toks, old(pos))) == if ok then Some(pos) else None
    {
      IsEnds(toks, pos);
      pos := pos + 1;
      if IsKw(Peek(), "NOT") {
        pos := pos + 1;
      }
      if !IsKw(Peek(), "NULL") {
        return false;
      }
      pos := pos + 1;
      return true;
    }

    /** What may follow NOT: IN or LIKE. */
    method InOrLike() returns (ok: bool)
      requires Valid()
      modifies this`pos
      ensures Valid() && pos >= old(pos)
      ensures InOrLikeEnd(toks, old(pos)) == if ok then Some(pos) else None
    {
      var t := Peek();
      if IsKw(t, "IN") {
        pos := pos + 1;
        ok := InList();
      } else if IsKw(t, "LIKE") {
        pos := pos + 1;
        ok := StringLiteral();
      } else {
        ok := false;
      }
    }

    /** NOT, then IN or LIKE. */
    method NotTail() returns (ok: bool)
      requires Valid() && IsKw(toks[pos], "NOT")
      modifies this`pos
      ensures Valid() && pos >= old(pos)
      ensures EndOf(ParseRhs(toks, old(pos))) == if ok then Some(pos) else None
    {
      NotEnds(toks, pos);
      pos := pos + 1;
      ok := InOrLike();
    }

    /** The comparison's right side: the switch after the column. */
    method RightSide() returns (ok: bool)
      requires Valid()
      modifies this`pos
      ensures Valid() && pos >= old(pos)
      ensures ok <==> ParseRhs(toks, old(pos)).Done?
      ensures ok ==> pos == ParseRhs(toks, old(pos)).pos
    {
      var nt := Peek();
      RhsEnds(toks, pos);
      if nt.Op? {
        pos := pos + 1;
        ok := Literal();
      } else if IsKw(nt, "IN") {
        pos := pos + 1;
        ok := InList();
      } else if IsKw(nt, "LIKE") {
        pos := pos + 1;
        ok := StringLiteral();
      } else if IsKw(nt, "IS") {
        ok := IsNullTail();
      } else if IsKw(nt, "NOT") {
        ok := NotTail();
      } else {
        ok := false;
      }
    }

    method Comparison() returns (ok: bool)
      requires Valid()
      modifies this
      ensures Valid() && pos >= old(pos)
      ensures ok <==> ParseComparison(toks, old(pos)).Done?
      ensures ok ==> pos == ParseComparison(toks, old(pos)).pos
      ensures ok ==> cols == old(cols) + PrimaryCols(ParseComparison(toks, old(pos)).value)
    {
      var t := Peek();
      if !t.Ident? || Keyword(t.name) {
        return false;
      }
      pos := pos + 1;
      if Peek() == LParen {
        return false;
      }
      cols := cols + {t.name};
      ok := RightSide();
    }

    method PrimaryRule() returns (ok: bool)
      requires Valid()
      modifies this
      ensures Valid() && pos >= old(pos)
      ensures ok <==> ParsePrimary(toks, old(pos)).Done?
      ensures ok ==> pos == ParsePrimary(toks, old(pos)).pos
      ensures ok ==> cols == old(cols) + PrimaryCols(ParsePrimary(toks, old(pos)).value)
      decreases |toks| - pos, 0
    {
      if Peek() == LParen {
        pos := pos + 1;
        ok := OrRule();
        if !ok {
          return;
        }
        if Peek() != RParen {
          return false;
        }
        pos := pos + 1;
        return true;
      }
      ok := Comparison();
    }

    method NotRule() returns (ok: bool)
      requires Valid()
      modifies this
      ensures Valid() && pos >= old(pos)
      ensures ok <==> ParseNot(toks, old(pos)).Done?
      ensures ok ==> pos == ParseNot(toks, old(pos)).pos
      ensures ok ==> cols == old(cols) + PrimaryCols(ParseNot(toks, old(pos)).value.prim)
      decreases |toks| - pos, 1
    {
      if IsKw(Peek(), "NOT") {
        pos := pos + 1;
      }
      ok := PrimaryRule();
    }

    method AndRule() returns (ok: bool)
      requires Valid()
      modifies this
      ensures Valid() && pos >= old(pos)
      ensures ok <==> ParseAnd(toks, old(pos)).Done?
      ensures ok ==> pos == ParseAnd(toks, old(pos)).pos
      ensures ok ==> cols == old(cols) + AndCols(ParseAnd(toks, old(pos)).value)
      decreases |toks| - pos, 2
    {
      ghost var start, before := pos, cols;
      AndUnroll(toks, pos, cols);
      ok := NotRule();
      if !ok {
        return;
      }
      while IsKw(Peek(), "AND")
        invariant Valid() && start < pos
        invariant Plus(before, AndEnd(toks, start)) == Plus(cols, MoreAnds(toks, pos))
        decreases |toks| - pos
      {
        pos := pos + 1;
        assert Plus(before, AndEnd(toks, start)) == Plus(cols, AndEnd(toks, pos));
        AndUnroll(toks, pos, cols);
        ok := NotRule();
        if !ok {
          return;
        }
      }
      return true;
    }

    method OrRule() returns (ok: bool)
      requires Valid()
      modifies this
      ensures Valid() && pos >= old(pos)
      ensures ok <==> ParseOr(toks, old(pos)).Done?
      ensures ok ==> pos == ParseOr(toks, old(pos)).pos
      ensures ok ==> cols == old(cols) + OrCols(ParseOr(toks, old(pos)).value)
      decreases |toks| - pos, 3
    {
      ghost var start, before := pos, cols;
      OrUnroll(toks, pos, cols);
      ok := AndRule();
      if !ok {
        return;
      }
      while IsKw(Peek(), "OR")
        invariant Valid() && start < pos
        invariant Plus(before, OrEnd(toks, start)) == Plus(cols, MoreOrs(toks, pos))
        decreases |toks| - pos
      {
        pos := pos + 1;
        assert Plus(before, OrEnd(toks, start)) == Plus(cols, OrEnd(toks, pos));
        OrUnroll(toks, pos, cols);
        ok := AndRule();
        if !ok {
          return;
        }
      }
      return true;
    }
  }

  /** Where a literal list ends. */
  function ListEnd(toks: seq<Token>, pos: nat): Parse<()>
    requires Closed(toks) && pos < |toks|
  {
    match ParseLiterals(toks, pos)
    case Fail => Fail
    case Done(_, p) => Done((), p)
  }

  /** What the loop of the IN list still has to read. */
  function MoreLiterals(toks: seq<Token>, pos: nat): Parse<()>
    requires Closed(toks) && pos < |toks|
  {
    if toks[pos] == Comma then ListEnd(toks, pos + 1) else Done((), pos)
  }

  /** Where a parse ends, if it succeeds. */
  function EndOf<T>(r: Parse<T>): Option<nat> {
    match r
    case Fail => None
    case Done(_, p) => Some(p)
  }

  /** Where IN (...) or LIKE '...' ends. */
  lemma InLikeEnds(toks: seq<Token>, start: nat, pos: nat, negated: bool)
    requires Closed(toks) && start <= pos < |toks| && Reads(PrintNot(negated), toks, start, pos)
    ensures var r := ParseInLike(toks, start, pos, negated);
            if IsKw(toks[pos], "IN") then
              EndOf(r) == EndOf(ParseInList(toks, pos + 1))
            else if IsKw(toks[pos], "LIKE") then EndOf(r) == (if toks[pos + 1].Str? then Some(pos + 2) else None)
            else r.Fail?
  {
  }

  /** Where a list after IN, or a string after LIKE, ends. */
  ghost function InOrLikeEnd(toks: seq<Token>, pos: nat): Option<nat>
    requires Closed(toks) && pos < |toks|
  {
    if IsKw(toks[pos], "IN") then EndOf(ParseInList(toks, pos + 1))
    else if IsKw(toks[pos], "LIKE") && toks[pos + 1].Str? then Some(pos + 2)
    else None
  }

  lemma NotEnds(toks: seq<Token>, pos: nat)
    requires Closed(toks) && pos < |toks| && IsKw(toks[pos], "NOT")
    ensures EndOf(ParseRhs(toks, pos)) == InOrLikeEnd(toks, pos + 1)
  {
    OneKeyword(toks[pos], "NOT", "IS");
    NotReads(true, toks, pos, pos + 1);
    InLikeEnds(toks, pos, pos + 1, true);
  }

  lemma IsEnds(toks: seq<Token>, pos: nat)
    requires Closed(toks) && pos < |toks| && IsKw(toks[pos], "IS")
    ensures var p := if IsKw(toks[pos + 1], "NOT") then pos + 2 else pos + 1;
            p < |toks| && EndOf(ParseRhs(toks, pos)) == if IsKw(toks[p], "NULL") then Some(p + 1) else None
  {
  }

  lemma RhsEnds(toks: seq<Token>, pos: nat)
    requires Closed(toks) && pos < |toks|
    ensures var t, r := toks[pos], ParseRhs(toks, pos);
            if t.Op? then
              EndOf(r) == EndOf(ParseLiteral(toks, pos + 1))
            else if IsKw(t, "IN") then
              EndOf(r) == EndOf(ParseInList(toks, pos + 1))
            else if IsKw(t, "LIKE") then EndOf(r) == (if toks[pos + 1].Str? then Some(pos + 2) else None)
            else IsKw(t, "IS") || IsKw(t, "NOT") || r.Fail?
  {
    var t := toks[pos];
    if IsKw(t, "IN") {
      OneKeyword(t, "IN", "IS");
      OneKeyword(t, "IN", "NOT");
    }
    if IsKw(t, "LIKE") {
      OneKeyword(t, "LIKE", "IS");
      OneKeyword(t, "LIKE", "NOT");
    }
    NotReads(false, toks, pos, pos);
    InLikeEnds(toks, pos, pos, false);
  }

  lemma ListUnroll(toks: seq<Token>, pos: nat)
    requires Closed(toks) && pos < |toks|
    ensures ListEnd(toks, pos) ==
            match ParseLiteral(toks, pos)
            case Fail => Fail
            case Done(_, p) => MoreLiterals(toks, p)
  {}

  lemma InListIs(toks: seq<Token>, pos: nat)
    requires Closed(toks) && pos < |toks| && toks[pos] == LParen
    ensures ParseInList(toks, pos).Done? <==> ListEnd(toks, pos + 1).Done? && toks[ListEnd(toks, pos + 1).pos] == RParen
    ensures ParseInList(toks, pos).Done? ==> ParseInList(toks, pos).pos == ListEnd(toks, pos + 1).pos + 1
  {}

  /** Where a conjunction ends, and its columns. */
  function AndEnd(toks: seq<Token>, pos: nat): Parse<set<string>>
    requires Closed(toks) && pos < |toks|
  {
    match ParseAnd(toks, pos)
    case Fail => Fail
    case Done(a, p) => Done(AndCols(a), p)
  }

  function OrEnd(toks: seq<Token>, pos: nat): Parse<set<string>>
    requires Closed(toks) && pos < |toks|
  {
    match ParseOr(toks, pos)
    case Fail => Fail
    case Done(e, p) => Done(OrCols(e), p)
  }

  /** What the loop of the AND rule still has to read, and the columns it adds. */
  function MoreAnds(toks: seq<Token>, pos: nat): Parse<set<string>>
    requires Closed(toks) && pos < |toks|
  {
    if IsKw(toks[pos], "AND") then AndEnd(toks, pos + 1) else Done({}, pos)
  }

  function MoreOrs(toks: seq<Token>, pos: nat): Parse<set<string>>
    requires Closed(toks) && pos < |toks|
  {
    if IsKw(toks[pos], "OR") then OrEnd(toks, pos + 1) else Done({}, pos)
  }

  function Plus(cols: set<string>, r: Parse<set<string>>): Parse<set<string>> {
    match r
    case Fail => Fail
    case Done(more, p) => Done(cols + more, p)
  }

  lemma AndEndIs(toks: seq<Token>, pos: nat)
    requires Closed(toks) && pos < |toks|
    ensures ParseNot(toks, pos).Fail? ==> AndEnd(toks, pos) == Fail
    ensures ParseNot(toks, pos).Done? ==> var n := ParseNot(toks, pos);
                                          AndEnd(toks, pos) == Plus(PrimaryCols(n.value.prim), MoreAnds(toks, n.pos))
  {
    var n := ParseNot(toks, pos);
    if n.Done? {
      assert PrimaryCols(n.value.prim) + {} == PrimaryCols(n.value.prim);
    }
  }

  /** A conjunction is its first operand, then what the loop reads. */
  lemma AndUnroll(toks: seq<Token>, pos: nat, cols: set<string>)
    requires Closed(toks) && pos < |toks|
    ensures Plus(cols, AndEnd(toks, pos)) ==
            match ParseNot(toks, pos)
            case Fail => Fail
            case Done(n, p) => Plus(cols + PrimaryCols(n.prim), MoreAnds(toks, p))
  {
    AndEndIs(toks, pos);
    var n := ParseNot(toks, pos);
    if n.Done? {
      SetAssoc(cols, PrimaryCols(n.value.prim), MoreAnds(toks, n.pos));
    }
  }

  lemma OrEndIs(toks: seq<Token>, pos: nat)
    requires Closed(toks) && pos < |toks|
    ensures ParseAnd(toks, pos).Fail? ==> OrEnd(toks, pos) == Fail
    ensures ParseAnd(toks, pos).Done? ==> var a := ParseAnd(toks, pos);
                                          OrEnd(toks, pos) == Plus(AndCols(a.value), MoreOrs(toks, a.pos))
  {
    var a := ParseAnd(toks, pos);
    if a.Done? {
      SetAssoc({}, AndCols(a.value), Done({}, a.pos));
    }
  }

  lemma OrUnroll(toks: seq<Token>, pos: nat, cols: set<string>)
    requires Closed(toks) && pos < |toks|
    ensures Plus(cols, OrEnd(toks, pos)) ==
            match ParseAnd(toks, pos)
            case Fail => Fail
            case Done(a, p) => Plus(cols + AndCols(a), MoreOrs(toks, p))
  {
    OrEndIs(toks, pos);
    var a := ParseAnd(toks, pos);
    if a.Done? {
      SetAssoc(cols, AndCols(a.value), MoreOrs(toks, a.pos));
    }
  }

  lemma SetAssoc(a: set<string>, b: set<string>, r: Parse<set<string>>)
    ensures Plus(a, Plus(b, r)) == Plus(a + b, r)
    ensures r.Done? ==> b + {} == b
  {
    if r.Done? {
      assert a + (b + r.value) == a + b + r.value;
    }
  }

  /** The predicate a text reads as. */
  function Parsed(s: string): Option<OrExpr> {
    match Tokens(s)
    case None => None
    case Some(toks) => TokensClosed(s); ParseTokens(toks)
  }

  lemma {:induction false} TokensClosed(s: string)
    ensures Tokens(s).Some? ==> Closed(Tokens(s).value)
    decreases |s|
  {
    if s != "" {
      match Head(s)
      case Blank => TokensClosed(s[1..]);
      case Bad =>
      case Tok(t, n) => TokensClosed(s[n..]);
    }
  }

  lemma {:induction false} PrimaryColsNonEmpty(p: Primary)
    ensures PrimaryCols(p) != {}
    decreases p, 0
  {
    match p
    case Paren(e) => OrColsNonEmpty(e);
    case Comparison(c, _) => assert c in PrimaryCols(p);
  }

  /** Every predicate names a column, so the "references no column" error cannot occur. */
  lemma {:induction false} OrColsNonEmpty(e: OrExpr)
    ensures OrCols(e) != {}
    decreases e, 1
  {
    var a := match e case LastOr(a) => a case MoreOr(a, _) => a;
    var n := match a case LastAnd(n) => n case MoreAnd(n, _) => n;
    PrimaryColsNonEmpty(n.prim);
    assert PrimaryCols(n.prim) <= AndCols(a) <= OrCols(e);
  }

  /** Lists a set of columns in ascending order. */
  method SortedColumns(cols: set<string>) returns (r: seq<string>)
    ensures Strings.Ascending(r) && forall c :: c in r <==> c in cols
  {
    var list: seq<string>, todo := [], cols;
    while todo != {}
      invariant todo <= cols
      invariant forall c :: c in list <==> c in cols && c !in todo
      invariant forall i, j :: 0 <= i < j < |list| ==> list[i] != list[j]
      decreases todo
    {
      var c :| c in todo;
      list := list + [c];
      todo := todo - {c};
    }
    r := Strings.Sort(list);
    SortKeepsDistinct(list);
    forall c ensures c in r <==> c in cols {
      assert c in multiset(r) <==> c in multiset(list);
    }
  }

  lemma SortKeepsDistinct(list: seq<string>)
    requires forall i, j :: 0 <= i < j < |list| ==> list[i] != list[j]
    ensures Strings.Ascending(Strings.Sort(list))
  {
    var r := Strings.Sort(list);
    Strings.SortSorted(list);
    forall i, j | 0 <= i < j < |r| ensures r[i] != r[j] {
      TwiceCounts(r, i, j);
      CountedOnce(list, r[i]);
    }
  }

  lemma TwiceCounts(r: seq<string>, i: nat, j: nat)
    requires i < j < |r|
    ensures r[i] == r[j] ==> multiset(r)[r[i]] >= 2
  {
    assert r == r[..i] + [r[i]] + r[i + 1..j] + [r[j]] + r[j + 1..];
  }

  lemma {:induction false} CountedOnce(list: seq<string>, x: string)
    requires forall i, j :: 0 <= i < j < |list| ==> list[i] != list[j]
    ensures multiset(list)[x] <= 1
  {
    if list != [] {
      assert list == [list[0]] + list[1..];
      CountedOnce(list[1..], x);
      if x == list[0] {
        assert x !in list[1..];
      }
    }
  }

  /**
   Parses a predicate. It is accepted exactly when some predicate of the grammar
   prints its tokens; the result is that predicate's columns, ascending.
   */
  method ParsePredicate(s: string) returns (r: Option<seq<string>>)
    ensures r.Some? <==> Parsed(s).Some?
    ensures r.Some? ==> Strings.Ascending(r.value) && forall c :: c in r.value <==> c in OrCols(Parsed(s).value)
  {
    var toks := Tokenize(s);
    if toks.None? {
      return None;
    }
    TokensClosed(s);
    var p := new Parser(toks.value);
    var ok := p.OrRule();
    if !ok {
      return None;
    }
    if p.Peek() != Eof {
      return None;
    }
    OrColsNonEmpty(Parsed(s).value);
    if p.cols == {} {
      return None;
    }
    var cols := SortedColumns(p.cols);
    return Some(cols);
  }

  /** Accepted texts are exactly those whose tokens the grammar prints. */
  lemma ParsedIff(s: string, e: OrExpr)
    ensures Parsed(s) == Some(e) <==>
            Tokens(s).Some? && Reads(PrintOr(e), Tokens(s).value, 0, |Tokens(s).value| - 1)
  {
    if Tokens(s).Some? {
      TokensClosed(s);
      ParseTokensIff(Tokens(s).value, e);
    }
  }
}
