/** The row filter that runs. */
module FilterText {
  // The columns that were validated, each under its dataset's alias, and the caller's claims.

  import opened Options
  import opened Lexer
  import opened Predicate
  import opened PredParser
  import opened Scanners
  import Claims
  import Templates
  import Terms
  import RowAccess

  // ------------------------------------------------------ columns between gaps

  /** The columns among the tokens, in order, repeats included. */
  function ColumnsOf(toks: seq<Token>): (cols: seq<string>)
    ensures forall n :: n in cols <==> Ident(n) in toks && !Keyword(n)
  {
    if toks == [] then [] else (if IsColumn(toks[0]) then [toks[0].name] else []) + ColumnsOf(toks[1..])
  }

  /** What stands before, between and after the columns. */
  function Between(s: string): (gaps: seq<string>)
    requires Tokens(s).Some?
    ensures |gaps| == |ColumnsOf(Tokens(s).value)| + 1
    decreases |s|
  {
    if s == "" then [""]
    else if Head(s).Tok? then
      TokensCons(s);
      var n, rest := Head(s).len, Between(s[Head(s).len..]);
      if IsColumn(Head(s).token) then [""] + rest else [s[..n] + rest[0]] + rest[1..]
    else
      var rest := Between(s[1..]);
      [[s[0]] + rest[0]] + rest[1..]
  }

  lemma TokensCons(s: string)
    requires s != "" && Tokens(s).Some? && Head(s).Tok?
    ensures Tokens(s[Head(s).len..]).Some? && Tokens(s).value == [Head(s).token] + Tokens(s[Head(s).len..]).value
    ensures ColumnsOf(Tokens(s).value)
         == (if IsColumn(Head(s).token) then [Head(s).token.name] else []) + ColumnsOf(Tokens(s[Head(s).len..]).value)
  {
    var rest := Tokens(s[Head(s).len..]).value;
    assert ([Head(s).token] + rest)[1..] == rest;
  }

  function Each(col: string -> string, names: seq<string>): (texts: seq<string>)
    ensures |texts| == |names| && forall i | 0 <= i < |names| :: texts[i] == col(names[i])
  {
    if names == [] then [] else [col(names[0])] + Each(col, names[1..])
  }

  lemma EachMore(col: string -> string, name: string, names: seq<string>)
    ensures Each(col, [name] + names) == [col(name)] + Each(col, names)
  {
    assert ([name] + names)[1..] == names;
  }

  /** Replacing columns writes their replacements, in order, between gaps that do not depend on them. */
  lemma {:induction false} RecolumnedInterleaves(s: string, col: string -> string)
    requires Tokens(s).Some?
    ensures Recolumned(s, col) == Interleave(Between(s), Each(col, ColumnsOf(Tokens(s).value)))
    decreases |s|
  {
    if s != "" {
      if Head(s).Tok? {
        TokensCons(s);
        RecolumnedInterleaves(s[Head(s).len..], col);
        TokenInterleaves(s, col);
      } else {
        RecolumnedInterleaves(s[1..], col);
        LongerGap([s[0]], Between(s[1..]), Each(col, ColumnsOf(Tokens(s[1..]).value)));
      }
    }
  }

  lemma TokenInterleaves(s: string, col: string -> string)
    requires s != "" && Head(s).Tok? && Tokens(s).Some? && Tokens(s[Head(s).len..]).Some?
    requires var next := s[Head(s).len..]; Recolumned(next, col) == Interleave(Between(next), Each(col, ColumnsOf(Tokens(next).value)))
    ensures Recolumned(s, col) == Interleave(Between(s), Each(col, ColumnsOf(Tokens(s).value)))
  {
    var n, t, next := Head(s).len, Head(s).token, s[Head(s).len..];
    var cols := ColumnsOf(Tokens(next).value);
    TokensCons(s);
    if IsColumn(t) {
      EachMore(col, t.name, cols);
      InterleaveMore([""] + Between(next), [col(t.name)] + Each(col, cols));
    } else {
      assert [] + cols == cols;
      LongerGap(s[..n], Between(next), Each(col, cols));
    }
  }

  // ------------------------------------------------------ the filter that runs

  lemma {:induction false} SimilarColumns(a: seq<Token>, b: seq<Token>)
    requires Claims.Similar(a, b)
    ensures ColumnsOf(a) == ColumnsOf(b)
  {
    if a != [] {
      assert Claims.AlikeAt(a, b, 0);
      forall i | 0 <= i < |a[1..]| ensures Claims.AlikeAt(a[1..], b[1..], i) {
        assert Claims.AlikeAt(a, b, i + 1);
      }
      SimilarColumns(a[1..], b[1..]);
    }
  }

  /** A filter whose text the validator accepted. */
  predicate Accepted(pred: string) {
    var v := Claims.Validatable(Templates.Pieces(pred));
    v.Ok? && Parsed(v.text).Some?
  }

  /** The columns of the validated text, in order. */
  function Validated(pred: string): (cols: seq<string>)
    requires Accepted(pred)
    ensures forall n :: n in cols <==> n in OrCols(Parsed(Claims.Validatable(Templates.Pieces(pred)).text).value)
  {
    var v := Claims.Validatable(Templates.Pieces(pred)).text;
    TokensClosed(v);
    AcceptedColumns(Tokens(v).value);
    ColumnsOf(Tokens(v).value)
  }

  /** The qualified text is the columns `cols`, each as `col` writes it, and the same other bytes as `text` whatever `col` is. */
  ghost predicate Reads(text: string, cols: seq<string>) {
    exists gaps | |gaps| == |cols| + 1 ::
      Interleave(gaps, cols) == text && forall col: string -> string :: Qualify(text, col) == Interleave(gaps, Each(col, cols))
  }

  /**
   What runs for an accepted filter, whatever claims the caller carries and under either dialect, reads exactly the
   validated columns: each occurrence is written under the alias, in order, and nothing else of the expanded text changes.
   */
  lemma FilterReads(pred: string, claims: map<string, string>, d: Claims.Dialect)
    requires Accepted(pred) && Templates.ExpandText(pred, claims, d).Some?
    ensures Reads(Templates.ExpandText(pred, claims, d).value, Validated(pred))
  {
    var t := Templates.Pieces(pred);
    var v, e := Claims.Validatable(t).text, Claims.Expand(t, claims, d).text;
    Claims.ExpandedIsSamePredicate(t, claims, d);
    SimilarColumns(Tokens(v).value, Tokens(e).value);
    TextReads(e);
  }

  lemma TextReads(e: string)
    requires Parsed(e).Some? && Tokens(e).Some?
    ensures Reads(e, ColumnsOf(Tokens(e).value))
  {
    var gaps, cols := Between(e), ColumnsOf(Tokens(e).value);
    forall col: string -> string ensures Qualify(e, col) == Interleave(gaps, Each(col, cols)) {
      QualifyAccepted(e, col);
      RecolumnedInterleaves(e, col);
    }
    RecolumnedInterleaves(e, w => w);
    RecolumnedIdentity(e);
    assert Each(w => w, cols) == cols;
  }

  /** Every filter of every group that is planned with reads the columns its text was validated for. */
  lemma GroupsRead(groups: seq<seq<Terms.RowFilter>>, claims: map<string, string>, d: Claims.Dialect, datasets: set<string>,
                   out: seq<seq<Terms.RowFilter>>, i: nat, k: nat)
    requires RowAccess.Expands(groups, RowAccess.WithClaims(claims, d), datasets, out)
    requires i < |groups| && k < |groups[i]| && Accepted(groups[i][k].pred)
    ensures |out| == |groups| && |out[i]| == |groups[i]|
    ensures out[i][k].dataset == groups[i][k].dataset && Reads(out[i][k].pred, Validated(groups[i][k].pred))
  {
    ExpandedAt(groups[i], RowAccess.WithClaims(claims, d), datasets, out[i], k);
    FilterReads(groups[i][k].pred, claims, d);
  }

  lemma {:induction false} ExpandedAt(filters: seq<Terms.RowFilter>, expand: string -> Option<string>, datasets: set<string>,
                                      out: seq<Terms.RowFilter>, k: nat)
    requires Some(out) == RowAccess.Expand(filters, expand, datasets) && k < |filters|
    ensures |out| == |filters| && out[k].dataset == filters[k].dataset && Some(out[k].pred) == expand(filters[k].pred)
  {
    var n := |filters| - 1;
    RowAccess.ExpandKeepsLength(filters, expand, datasets);
    if k < n {
      ExpandedAt(filters[..n], expand, datasets, out[..n], k);
    }
  }
}
