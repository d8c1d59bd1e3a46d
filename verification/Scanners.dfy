/**
 The text scanners that walk scalar expressions and predicates independently of
 the tokenizer, and the proof that they agree with it and with each other.
 */
module Scanners {
  import opened Fields
  import opened Options
  import opened Lexer
  import opened Predicate
  import opened PredParser

  /** unicode.IsSpace on a single byte. */
  predicate IsSpace(c: char) {
    c == ' ' || '\t' <= c <= '\r' || c as int == 0x85 || c as int == 0xA0
  }

  function SkipSpace(s: string): (r: string)
    ensures |r| <= |s|
  {
    if s == "" || !IsSpace(s[0]) then s else SkipSpace(s[1..])
  }

  /** The rest of a string literal up to and including the next quote, or to the end. */
  function QuoteLen(s: string): (n: nat)
    ensures n <= |s|
  {
    if s == "" then 0 else if s[0] == '\'' then 1 else 1 + QuoteLen(s[1..])
  }

  /** The next non-space byte opens a parenthesis: the word before is a function name. */
  predicate CallFollows(s: string) {
    SkipSpace(s) != "" && SkipSpace(s)[0] == '('
  }

  /** A dot and an identifier follow: the word before names a dataset. */
  predicate FieldFollows(s: string) {
    |s| > 1 && s[0] == '.' && IsIdentStart(s[1])
  }

  // ----------------------------------------------------- the scanners as functions

  /** What a scanner does with the lexeme at the front: its bytes, its length, and the word or reference it found there. */
  datatype Span = Copied(len: nat) | Word(len: nat, word: string) | Ref(len: nat, ref: FieldRef)

  /** The span at the front for the reference scanners: a literal, a byte, dataset.field, or a bare word. */
  function RefSpan(s: string): (r: Span)
    requires s != ""
    ensures 0 < r.len <= |s|
  {
    if s[0] == '\'' then Copied(1 + QuoteLen(s[1..]))
    else if !IsIdentStart(s[0]) then Copied(1)
    else
      var n := IdentLen(s);
      var word, rest := s[..n], s[n..];
      if FieldFollows(rest) then
        var m := IdentLen(rest[1..]);
        Ref(n + 1 + m, FieldRef(word, rest[1..][..m]))
      else Word(n, word)
  }

  lemma Rejoined(s: string, n: nat, m: nat)
    requires n + 1 + m <= |s| && s[n] == '.'
    ensures s[..n] + "." + s[n..][1..][..m] == s[..n + 1 + m]
  {
  }

  /** A reference is copied as it is written. */
  lemma RefIsItsText(s: string)
    requires s != "" && RefSpan(s).Ref?
    ensures RefText(RefSpan(s).ref) == s[..RefSpan(s).len]
  {
    var n := IdentLen(s);
    var rest := s[n..];
    var m := IdentLen(rest[1..]);
    Rejoined(s, n, m);
  }

  /** The span at the front for the column qualifier; a word before a dot is copied with its dot. */
  function ColSpan(s: string): (r: Span)
    requires s != ""
    ensures 0 < r.len <= |s| && !r.Ref?
    ensures r.Word? ==> r.len == IdentLen(s) && r.word == s[..r.len]
  {
    if s[0] == '\'' then Copied(1 + QuoteLen(s[1..]))
    else if !IsIdentStart(s[0]) then Copied(1)
    else
      var n := IdentLen(s);
      var word, rest := s[..n], s[n..];
      if rest != "" && rest[0] == '.' then Copied(n + 1)
      else if CallFollows(rest) || Keyword(word) then Copied(n)
      else Word(n, word)
  }

  function ColText(s: string, col: string -> string): string
    requires s != ""
  {
    if ColSpan(s).Word? then col(ColSpan(s).word) else s[..ColSpan(s).len]
  }

  function Qualify(s: string, col: string -> string): string
    decreases |s|
  {
    if s == "" then "" else ColText(s, col) + Qualify(s[ColSpan(s).len..], col)
  }

  function RefSpanText(s: string, repl: FieldRef -> string): string
    requires s != ""
  {
    if RefSpan(s).Ref? then repl(RefSpan(s).ref) else s[..RefSpan(s).len]
  }

  function Rewrite(s: string, repl: FieldRef -> string): string
    decreases |s|
  {
    if s == "" then "" else RefSpanText(s, repl) + Rewrite(s[RefSpan(s).len..], repl)
  }

  /** Every reference the rewriter visits, in order. */
  function Visited(s: string): seq<FieldRef>
    decreases |s|
  {
    if s == "" then []
    else (if RefSpan(s).Ref? then [RefSpan(s).ref] else []) + Visited(s[RefSpan(s).len..])
  }

  /** A word that is neither a call nor a keyword. */
  predicate IsBare(sp: Span, next: string) {
    sp.Word? && !CallFollows(next) && !Keyword(sp.word)
  }

  /** No bare identifier: every word is a call or a keyword. */
  predicate NoBareWord(s: string)
    decreases |s|
  {
    s == "" || (!IsBare(RefSpan(s), s[RefSpan(s).len..]) && NoBareWord(s[RefSpan(s).len..]))
  }

  /** First occurrences only. */
  function FirstOnly(refs: seq<FieldRef>): (r: seq<FieldRef>)
    ensures forall x :: x in r <==> x in refs
    ensures forall i, j :: 0 <= i < j < |r| ==> r[i] != r[j]
  {
    if refs == [] then []
    else
      var n := |refs| - 1;
      var init := FirstOnly(refs[..n]);
      assert refs == refs[..n] + [refs[n]];
      if refs[n] in init then init else init + [refs[n]]
  }

  // ------------------------------------------------------------- as the source runs

  method SkipString(s: string, i: nat) returns (j: nat)
    requires i < |s| && s[i] == '\''
    ensures j == i + 1 + QuoteLen(s[i + 1..]) <= |s|
  {
    j := i + 1;
    while j < |s| && s[j] != '\''
      invariant i < j <= |s|
      invariant QuoteLen(s[i + 1..]) == j - i - 1 + QuoteLen(s[j..])
    {
      assert s[j..][1..] == s[j + 1..];
      j := j + 1;
    }
    if j < |s| {
      j := j + 1;
    }
  }

  method IsCall(s: string, i: nat) returns (b: bool)
    requires i <= |s|
    ensures b == CallFollows(s[i..])
  {
    var j := i;
    while j < |s| && IsSpace(s[j])
      invariant i <= j <= |s|
      invariant SkipSpace(s[i..]) == SkipSpace(s[j..])
    {
      assert s[j..][1..] == s[j + 1..];
      j := j + 1;
    }
    return j < |s| && s[j] == '(';
  }

  /** One turn of the qualifier's loop. */
  method NextColSpan(s: string, i: nat) returns (r: Span)
    requires i < |s|
    ensures r == ColSpan(s[i..])
  {
    Slices(s, i, 1);
    if s[i] == '\'' {
      var j := SkipString(s, i);
      return Copied(j - i);
    }
    if !IsIdentStart(s[i]) {
      return Copied(1);
    }
    r := NextColumn(s, i);
  }

  lemma ColSpanWord(s: string, n: nat, rest: string)
    requires s != "" && IsIdentStart(s[0]) && n == IdentLen(s) && rest == s[n..]
    ensures ColSpan(s) == if rest != "" && rest[0] == '.' then Copied(n + 1)
                          else if CallFollows(rest) || Keyword(s[..n]) then Copied(n) else Word(n, s[..n])
  {
  }

  lemma RefSpanWord(s: string, n: nat, rest: string)
    requires s != "" && IsIdentStart(s[0]) && n == IdentLen(s) && rest == s[n..]
    ensures RefSpan(s) == if FieldFollows(rest) then Ref(n + 1 + IdentLen(rest[1..]), FieldRef(s[..n], rest[1..][..IdentLen(rest[1..])]))
                          else Word(n, s[..n])
  {
  }

  lemma ColAt(s: string, i: nat, j: nat)
    requires i < |s| && IsIdentStart(s[i]) && j == i + IdentLen(s[i..])
    ensures ColSpan(s[i..]) == if j < |s| && s[j] == '.' then Copied(j + 1 - i)
                               else if CallFollows(s[j..]) || Keyword(s[i..j]) then Copied(j - i) else Word(j - i, s[i..j])
  {
    Slices(s, i, j - i);
    ColSpanWord(s[i..], j - i, s[j..]);
  }

  /** A word: a column, unless a dot or a parenthesis follows or it is a keyword. */
  method NextColumn(s: string, i: nat) returns (r: Span)
    requires i < |s| && IsIdentStart(s[i])
    ensures r == ColSpan(s[i..])
  {
    var j := ScanIdent(s, i);
    var word := s[i..j];
    ColAt(s, i, j);
    if j < |s| && s[j] == '.' {
      return Copied(j + 1 - i);
    }
    var call := IsCall(s, j);
    if call || Keyword(word) {
      return Copied(j - i);
    }
    return Word(j - i, word);
  }

  lemma RefAt(s: string, i: nat, j: nat, k: nat)
    requires i < |s| && IsIdentStart(s[i]) && j == i + IdentLen(s[i..])
    requires j + 1 < |s| && s[j] == '.' && IsIdentStart(s[j + 1]) && k == j + 1 + IdentLen(s[j + 1..])
    ensures RefSpan(s[i..]) == Ref(k - i, FieldRef(s[i..j], s[j + 1..k]))
  {
    Slices(s, i, j - i);
    FieldAt(s, j, k);
    RefSpanWord(s[i..], j - i, s[j..]);
  }

  lemma FieldAt(s: string, j: nat, k: nat)
    requires j + 1 < |s| && s[j] == '.' && IsIdentStart(s[j + 1]) && k == j + 1 + IdentLen(s[j + 1..])
    ensures var rest := s[j..];
            FieldFollows(rest) && IdentLen(rest[1..]) == k - j - 1 && rest[1..][..k - j - 1] == s[j + 1..k]
  {
    Slices(s, j, 1);
    Slices(s, j + 1, k - j - 1);
  }

  lemma WordAt(s: string, i: nat, j: nat)
    requires i < |s| && IsIdentStart(s[i]) && j == i + IdentLen(s[i..])
    requires !(j + 1 < |s| && s[j] == '.' && IsIdentStart(s[j + 1]))
    ensures RefSpan(s[i..]) == Word(j - i, s[i..j])
  {
    Slices(s, i, j - i);
    RefSpanWord(s[i..], j - i, s[j..]);
  }

  lemma Slices(s: string, i: nat, n: nat)
    requires i + n <= |s|
    ensures s[i..][..n] == s[i..i + n] && s[i..][n..] == s[i + n..]
  {}

  lemma OneMore(out: string, text: string, rest: string)
    ensures out + (text + rest) == (out + text) + rest
  {}

  /** Prefixes bare columns with the quoted alias. */
  method QualifyBareColumns(s: string, alias: string, quote: string -> string) returns (out: string)
    ensures out == Qualify(s, w => alias + "." + quote(w))
  {
    ghost var col := w => alias + "." + quote(w);
    out := "";
    var i := 0;
    ghost var rest := s;
    while i < |s|
      invariant i <= |s| && rest == s[i..]
      invariant Qualify(s, col) == out + Qualify(rest, col)
    {
      var sp := NextColSpan(s, i);
      var j := i + sp.len;
      Slices(s, i, sp.len);
      ghost var before, next := out, s[j..];
      if sp.Word? {
        out := out + (alias + "." + quote(sp.word));
      } else {
        out := out + s[i..j];
      }
      QualifyTurn(s, col, rest, next, before, out);
      i, rest := j, next;
    }
  }

  lemma QualifyTurn(s: string, col: string -> string, rest: string, next: string, before: string, out: string)
    requires rest != "" && next == rest[ColSpan(rest).len..]
    requires Qualify(s, col) == before + Qualify(rest, col) && out == before + ColText(rest, col)
    ensures Qualify(s, col) == out + Qualify(next, col)
  {
    OneMore(before, ColText(rest, col), Qualify(next, col));
  }

  /** Replaces every dataset.field reference: one loop over the bytes, writing each span as it is left. */
  method RewriteRefs(s: string, repl: FieldRef -> string) returns (out: string)
    ensures out == Rewrite(s, repl)
  {
    out := "";
    var i := 0;
    ghost var rest := s;
    while i < |s|
      invariant i <= |s| && rest == s[i..]
      invariant Rewrite(s, repl) == out + Rewrite(rest, repl)
    {
      ghost var before, start := out, i;
      i, out := RewriteOne(s, i, repl, out);
      ghost var next := s[i..];
      Slices(s, start, i - start);
      RewriteTurn(s, repl, rest, next, before, out);
      rest := next;
    }
  }

  /** One turn of the loop. */
  method RewriteOne(s: string, start: nat, repl: FieldRef -> string, out0: string) returns (i: nat, out: string)
    requires start < |s|
    ensures start < i <= |s| && RefSpan(s[start..]).len == i - start && out == out0 + RefSpanText(s[start..], repl)
  {
    if s[start] == '\'' {
      i, out := CopyLiteral(s, start, repl, out0);
    } else if !IsIdentStart(s[start]) {
      ByteWritten(s, start, repl);
      return start + 1, out0 + [s[start]];
    } else {
      i, out := RewriteWord(s, start, repl, out0);
    }
  }

  lemma ByteWritten(s: string, i: nat, repl: FieldRef -> string)
    requires i < |s| && s[i] != '\'' && !IsIdentStart(s[i])
    ensures RefSpan(s[i..]).len == 1 && RefSpanText(s[i..], repl) == [s[i]]
  {
    ByteSpan(s, i);
    SpanText(s[i..], Copied(1), repl);
  }

  /** Copies a literal with its closing quote, if it has one. */
  method CopyLiteral(s: string, start: nat, ghost repl: FieldRef -> string, out0: string) returns (i: nat, out: string)
    requires start < |s| && s[start] == '\''
    ensures start < i <= |s| && RefSpan(s[start..]).len == i - start && out == out0 + RefSpanText(s[start..], repl)
  {
    i := start + 1;
    while i < |s| && s[i] != '\''
      invariant start < i <= |s| && QuoteFrom(s, start + 1, i)
    {
      QuoteTurn(s, start + 1, i);
      i := i + 1;
    }
    if i < |s| {
      i := i + 1;
    }
    LiteralSpan(s, start, i);
    Slices(s, start, i - start);
    SpanText(s[start..], Copied(i - start), repl);
    out := out0 + s[start..i];
  }

  lemma SpanText(s: string, sp: Span, repl: FieldRef -> string)
    requires s != "" && RefSpan(s) == sp
    ensures RefSpanText(s, repl) == if sp.Ref? then repl(sp.ref) else s[..sp.len]
  {}

  lemma RefWritten(s: string, i: nat, j: nat, k: nat, repl: FieldRef -> string)
    requires i < |s| && IsIdentStart(s[i]) && j == i + IdentLen(s[i..])
    requires j + 1 < |s| && s[j] == '.' && IsIdentStart(s[j + 1]) && k == j + 1 + IdentLen(s[j + 1..])
    ensures RefSpan(s[i..]).len == k - i && RefSpanText(s[i..], repl) == repl(FieldRef(s[i..j], s[j + 1..k]))
  {
    RefAt(s, i, j, k);
    SpanText(s[i..], Ref(k - i, FieldRef(s[i..j], s[j + 1..k])), repl);
  }

  lemma WordWritten(s: string, i: nat, j: nat, repl: FieldRef -> string)
    requires i < |s| && IsIdentStart(s[i]) && j == i + IdentLen(s[i..])
    requires !(j + 1 < |s| && s[j] == '.' && IsIdentStart(s[j + 1]))
    ensures RefSpan(s[i..]).len == j - i && RefSpanText(s[i..], repl) == s[i..j]
  {
    WordAt(s, i, j);
    Slices(s, i, j - i);
    SpanText(s[i..], Word(j - i, s[i..j]), repl);
  }

  /** Replaces dataset.field, and copies any other word. */
  method RewriteWord(s: string, start: nat, repl: FieldRef -> string, out0: string) returns (i: nat, out: string)
    requires start < |s| && IsIdentStart(s[start])
    ensures start < i <= |s| && RefSpan(s[start..]).len == i - start && out == out0 + RefSpanText(s[start..], repl)
  {
    i := ScanIdent(s, start);
    var word := s[start..i];
    if i < |s| && s[i] == '.' && i + 1 < |s| && IsIdentStart(s[i + 1]) {
      var fieldStart := i + 1;
      i := ScanIdent(s, fieldStart);
      RefWritten(s, start, fieldStart - 1, i, repl);
      out := out0 + repl(FieldRef(word, s[fieldStart..i]));
    } else {
      WordWritten(s, start, i, repl);
      out := out0 + word;
    }
  }

  /** From `k` on no quote has been met before `i`. */
  ghost predicate QuoteFrom(s: string, k: nat, i: nat)
    requires k <= i <= |s|
  {
    QuoteLen(s[k..]) == i - k + QuoteLen(s[i..])
  }

  lemma QuoteTurn(s: string, k: nat, i: nat)
    requires k <= i < |s| && s[i] != '\'' && QuoteFrom(s, k, i)
    ensures QuoteFrom(s, k, i + 1)
  {
    assert s[i..][1..] == s[i + 1..];
  }

  /** A literal from its opening quote to the byte after its closing one, or to the end. */
  lemma LiteralSpan(s: string, i: nat, j: nat)
    requires i < j <= |s| && s[i] == '\''
    requires j == i + 1 + QuoteLen(s[i + 1..])
    ensures RefSpan(s[i..]) == Copied(j - i)
  {
    Slices(s, i, 1);
  }

  lemma ByteSpan(s: string, i: nat)
    requires i < |s| && s[i] != '\'' && !IsIdentStart(s[i])
    ensures RefSpan(s[i..]) == Copied(1) && s[i..i + 1] == [s[i]]
  {
  }

  lemma RewriteTurn(s: string, repl: FieldRef -> string, rest: string, next: string, before: string, out: string)
    requires rest != "" && next == rest[RefSpan(rest).len..]
    requires Rewrite(s, repl) == before + Rewrite(rest, repl) && out == before + RefSpanText(rest, repl)
    ensures Rewrite(s, repl) == out + Rewrite(next, repl)
  {
    OneMore(before, RefSpanText(rest, repl), Rewrite(next, repl));
  }

  lemma FirstOnlyMore(refs: seq<FieldRef>, r: FieldRef)
    ensures FirstOnly(refs + [r]) == if r in refs then FirstOnly(refs) else FirstOnly(refs) + [r]
  {
    assert (refs + [r])[..|refs|] == refs;
  }

  /** A reference's text determines it: identifiers hold no dot. */
  lemma RefTextInjective(a: FieldRef, b: FieldRef)
    requires '.' !in a.dataset && '.' !in b.dataset && RefText(a) == RefText(b)
    ensures a == b
  {
    var n, m := |a.dataset|, |b.dataset|;
    assert RefText(a)[n] == '.' && RefText(b)[m] == '.';
    forall k | 0 <= k < n ensures RefText(a)[k] != '.' {
      assert RefText(a)[k] == a.dataset[k];
    }
    forall k | 0 <= k < m ensures RefText(b)[k] != '.' {
      assert RefText(b)[k] == b.dataset[k];
    }
    assert n == m;
    assert RefText(a)[..n] == a.dataset && RefText(b)[..n] == b.dataset;
    assert RefText(a)[n + 1..] == a.field && RefText(b)[n + 1..] == b.field;
  }

  lemma RefSpanDotless(s: string)
    requires s != "" && RefSpan(s).Ref?
    ensures '.' !in RefSpan(s).ref.dataset
  {
    var n := IdentLen(s);
    forall i | 0 <= i < n ensures s[i] != '.' {
      assert IsIdentChar(s[i]);
    }
  }

  ghost function Texts(refs: seq<FieldRef>): set<string> {
    set x | x in refs :: RefText(x)
  }

  /** The list and the set of the reference scanner after it has visited `before`. */
  ghost predicate Collected(before: seq<FieldRef>, refs: seq<FieldRef>, seen: set<string>) {
    refs == FirstOnly(before) && seen == Texts(before) && forall x :: x in before ==> '.' !in x.dataset
  }

  /** Adds a reference unless its text was seen before. */
  method Collect(refs: seq<FieldRef>, seen: set<string>, ref: FieldRef, ghost before: seq<FieldRef>)
    returns (refs': seq<FieldRef>, seen': set<string>)
    requires Collected(before, refs, seen) && '.' !in ref.dataset
    ensures Collected(before + [ref], refs', seen')
  {
    FirstOnlyMore(before, ref);
    SeenIff(before, ref);
    refs', seen' := refs, seen;
    if RefText(ref) !in seen {
      seen' := seen + {RefText(ref)};
      refs' := refs + [ref];
    } else {
      assert seen + {RefText(ref)} == seen;
    }
  }

  /** What is still to be visited, and whether a bare word is still to come. */
  lemma VisitTurn(s: string, sp: Span, next: string)
    requires s != "" && sp == RefSpan(s) && next == s[sp.len..]
    ensures sp.Ref? ==> Visited(s) == [sp.ref] + Visited(next)
    ensures !sp.Ref? ==> Visited(s) == Visited(next)
    ensures NoBareWord(s) == (!IsBare(sp, next) && NoBareWord(next))
  {
    assert [] + Visited(next) == Visited(next);
  }

  lemma OneMoreRef(before: seq<FieldRef>, ref: FieldRef, rest: seq<FieldRef>)
    ensures before + ([ref] + rest) == (before + [ref]) + rest
  {}

  /** Having visited `before`, the scanner will visit `all` in the end. */
  ghost predicate ToVisit(before: seq<FieldRef>, rest: string, all: seq<FieldRef>) {
    before + Visited(rest) == all
  }

  /** The text from `i` on; the reference scanner steps one byte past the end after an unclosed literal. */
  function From(s: string, i: nat): string {
    if i <= |s| then s[i..] else ""
  }

  /** A span that is no reference and no bare word leaves everything still to be visited. */
  lemma PassedOver(s: string, i: nat, j: nat, before: seq<FieldRef>, all: seq<FieldRef>)
    requires i < j && i < |s| && ToVisit(before, s[i..], all)
    requires From(s, j) == s[i..][RefSpan(s[i..]).len..]
    requires !RefSpan(s[i..]).Ref? && !IsBare(RefSpan(s[i..]), From(s, j))
    ensures ToVisit(before, From(s, j), all) && NoBareWord(s[i..]) == NoBareWord(From(s, j))
  {
    VisitTurn(s[i..], RefSpan(s[i..]), From(s, j));
  }

  /**
   Extracts the references of a scalar, first occurrences only, or rejects a bare identifier. Its loop is its own: it
   copies nothing, passes over a closing quote whether or not there is one, and stops at the first bare word.
   */
  method ScanRefs(s: string) returns (r: Option<seq<FieldRef>>)
    ensures r.Some? <==> NoBareWord(s)
    ensures r.Some? ==> r.value == FirstOnly(Visited(s))
  {
    var refs: seq<FieldRef>, seen: set<string> := [], {};
    ghost var before: seq<FieldRef> := [];
    ghost var all := Visited(s);
    var i := 0;
    assert [] + all == all && s[0..] == s;
    while i < |s|
      invariant NoBareWord(s) == NoBareWord(From(s, i))
      invariant Collected(before, refs, seen) && ToVisit(before, From(s, i), all)
    {
      var start := i;
      if s[i] == '\'' {
        i := PastLiteral(s, i);
        PassedOver(s, start, i, before, all);
        continue;
      }
      if !IsIdentStart(s[i]) {
        i := i + 1;
        ByteSpan(s, start);
        Slices(s, start, 1);
        PassedOver(s, start, i, before, all);
        continue;
      }
      var bare;
      i, bare, refs, seen, before := ScanWord(s, i, refs, seen, before, all);
      if bare {
        return None;
      }
    }
    assert before + [] == before;
    return Some(refs);
  }

  /** A word: collected if it is dataset.field, and bare unless it is a call or a keyword. */
  method ScanWord(s: string, start: nat, refs: seq<FieldRef>, seen: set<string>, ghost before: seq<FieldRef>, ghost all: seq<FieldRef>)
    returns (i: nat, bare: bool, refs': seq<FieldRef>, seen': set<string>, ghost before': seq<FieldRef>)
    requires start < |s| && IsIdentStart(s[start]) && Collected(before, refs, seen) && ToVisit(before, s[start..], all)
    ensures start < i && NoBareWord(s[start..]) == (!bare && NoBareWord(From(s, i)))
    ensures !bare ==> Collected(before', refs', seen') && ToVisit(before', From(s, i), all)
  {
    i := ScanIdent(s, start);
    bare, refs', seen', before' := false, refs, seen, before;
    var word := s[start..i];
    if i < |s| && s[i] == '.' && i + 1 < |s| && IsIdentStart(s[i + 1]) {
      i, refs', seen', before' := ScanField(s, start, i, word, refs, seen, before, all);
      return;
    }
    WordAt(s, start, i);
    Slices(s, start, i - start);
    var call := IsCall(s, i);
    if call || Keyword(word) {
      PassedOver(s, start, i, before, all);
    } else {
      bare := true;
      BareHere(s, start, i);
    }
  }

  lemma BareHere(s: string, i: nat, j: nat)
    requires i < j <= |s| && RefSpan(s[i..]) == Word(j - i, s[i..j]) && s[i..][j - i..] == s[j..]
    requires !CallFollows(s[j..]) && !Keyword(s[i..j])
    ensures !NoBareWord(s[i..])
  {
  }

  /** Skips a literal and the byte after it, which is its closing quote if it has one. */
  method PastLiteral(s: string, i0: nat) returns (i: nat)
    requires i0 < |s| && s[i0] == '\''
    ensures i > i0 && From(s, i) == s[i0..][RefSpan(s[i0..]).len..] && RefSpan(s[i0..]).Copied?
  {
    i := i0 + 1;
    while i < |s| && s[i] != '\''
      invariant i0 < i <= |s| && QuoteFrom(s, i0 + 1, i)
    {
      QuoteTurn(s, i0 + 1, i);
      i := i + 1;
    }
    ghost var j := if i < |s| then i + 1 else i;
    LiteralSpan(s, i0, j);
    Slices(s, i0, j - i0);
    i := i + 1;
  }

  /** The field of a reference whose dataset ends at `dot`, collected unless its text was seen before. */
  method ScanField(s: string, start: nat, dot: nat, word: string, refs: seq<FieldRef>, seen: set<string>,
                   ghost before: seq<FieldRef>, ghost all: seq<FieldRef>)
    returns (i: nat, refs': seq<FieldRef>, seen': set<string>, ghost before': seq<FieldRef>)
    requires start < |s| && IsIdentStart(s[start]) && dot == start + IdentLen(s[start..]) && dot + 1 < |s| && word == s[start..dot]
    requires s[dot] == '.' && IsIdentStart(s[dot + 1])
    requires Collected(before, refs, seen) && ToVisit(before, s[start..], all)
    ensures start < i <= |s| && Collected(before', refs', seen') && ToVisit(before', From(s, i), all)
    ensures NoBareWord(s[start..]) == NoBareWord(From(s, i))
  {
    i := ScanIdent(s, dot + 1);
    RefAt(s, start, dot, i);
    Slices(s, start, i - start);
    var ref := FieldRef(word, s[dot + 1..i]);
    RefSpanDotless(s[start..]);
    VisitTurn(s[start..], RefSpan(s[start..]), s[i..]);
    refs', seen' := Collect(refs, seen, ref, before);
    OneMoreRef(before, ref, Visited(s[i..]));
    before' := before + [ref];
  }

  lemma SeenIff(before: seq<FieldRef>, ref: FieldRef)
    requires '.' !in ref.dataset && forall x :: x in before ==> '.' !in x.dataset
    ensures RefText(ref) in Texts(before) <==> ref in before
    ensures Texts(before + [ref]) == Texts(before) + {RefText(ref)}
  {
    if RefText(ref) in Texts(before) {
      var x :| x in before && RefText(x) == RefText(ref);
      RefTextInjective(x, ref);
    }
    var more := before + [ref];
    assert forall x :: x in more <==> x in before || x == ref;
  }

  // ------------------------------------------------------------- agreement

  lemma Whole(s: string, n: nat)
    requires n <= |s|
    ensures s[..n] + s[n..] == s
  {}

  /** Rewriting every reference to its own text changes nothing. */
  lemma {:induction false} RewriteIdentity(s: string)
    ensures Rewrite(s, RefText) == s
    decreases |s|
  {
    if s != "" {
      var n := RefSpan(s).len;
      if RefSpan(s).Ref? {
        RefIsItsText(s);
      }
      RewriteIdentity(s[n..]);
      Whole(s, n);
    }
  }

  /** What the rewriter copies before, between and after the references. */
  function Gaps(s: string): (gaps: seq<string>)
    ensures |gaps| == |Visited(s)| + 1
    decreases |s|
  {
    if s == "" then [""]
    else
      var n := RefSpan(s).len;
      var rest := Gaps(s[n..]);
      if RefSpan(s).Ref? then [""] + rest else [s[..n] + rest[0]] + rest[1..]
  }

  /** A gap, a text, a gap, and so on. */
  function Interleave(gaps: seq<string>, texts: seq<string>): string
    requires |gaps| == |texts| + 1
  {
    if texts == [] then gaps[0] else gaps[0] + texts[0] + Interleave(gaps[1..], texts[1..])
  }

  function Rendered(repl: FieldRef -> string, refs: seq<FieldRef>): (texts: seq<string>)
    ensures |texts| == |refs| && forall i | 0 <= i < |refs| :: texts[i] == repl(refs[i])
  {
    if refs == [] then [] else [repl(refs[0])] + Rendered(repl, refs[1..])
  }

  lemma {:induction false} LongerGap(a: string, gaps: seq<string>, texts: seq<string>)
    requires |gaps| == |texts| + 1
    ensures Interleave([a + gaps[0]] + gaps[1..], texts) == a + Interleave(gaps, texts)
  {
    if texts != [] {
      assert ([a + gaps[0]] + gaps[1..])[1..] == gaps[1..];
      OneMore(a, gaps[0], texts[0] + Interleave(gaps[1..], texts[1..]));
    }
  }

  /**
   The rewriter visits exactly the references `Visited` lists, each occurrence once and in order: whatever the rendering,
   its output is their renderings with the same gaps in between. On a scalar the extractor accepts, its answer is the
   first occurrences of that list.
   */
  lemma {:induction false} RewriteInterleaves(s: string, repl: FieldRef -> string)
    ensures Rewrite(s, repl) == Interleave(Gaps(s), Rendered(repl, Visited(s)))
    decreases |s|
  {
    if s != "" {
      RewriteInterleaves(s[RefSpan(s).len..], repl);
      if RefSpan(s).Ref? {
        RefInterleaves(s, repl);
      } else {
        CopyInterleaves(s, repl);
      }
    }
  }

  lemma RefInterleaves(s: string, repl: FieldRef -> string)
    requires s != "" && RefSpan(s).Ref?
    requires var next := s[RefSpan(s).len..];
             Rewrite(next, repl) == Interleave(Gaps(next), Rendered(repl, Visited(next)))
    ensures Rewrite(s, repl) == Interleave(Gaps(s), Rendered(repl, Visited(s)))
  {
    var next, ref := s[RefSpan(s).len..], RefSpan(s).ref;
    RenderedMore(repl, ref, Visited(next));
    InterleaveMore([""] + Gaps(next), [repl(ref)] + Rendered(repl, Visited(next)));
  }

  lemma RenderedMore(repl: FieldRef -> string, ref: FieldRef, refs: seq<FieldRef>)
    ensures Rendered(repl, [ref] + refs) == [repl(ref)] + Rendered(repl, refs)
  {
    assert ([ref] + refs)[1..] == refs;
  }

  lemma InterleaveMore(gaps: seq<string>, texts: seq<string>)
    requires |gaps| == |texts| + 1 && texts != [] && gaps[0] == ""
    ensures Interleave(gaps, texts) == texts[0] + Interleave(gaps[1..], texts[1..])
  {
    EmptyFirst(texts[0]);
  }

  lemma EmptyFirst(a: string)
    ensures "" + a == a
  {}

  lemma CopyInterleaves(s: string, repl: FieldRef -> string)
    requires s != "" && !RefSpan(s).Ref?
    requires var next := s[RefSpan(s).len..];
             Rewrite(next, repl) == Interleave(Gaps(next), Rendered(repl, Visited(next)))
    ensures Rewrite(s, repl) == Interleave(Gaps(s), Rendered(repl, Visited(s)))
  {
    var n := RefSpan(s).len;
    var next := s[n..];
    assert Visited(s) == Visited(next);
    LongerGap(s[..n], Gaps(next), Rendered(repl, Visited(next)));
  }

  // ------------------------------------------- the qualifier and the tokenizer

  /** The text with every column token replaced and every other byte copied, as the tokenizer delimits them. */
  function Recolumned(s: string, col: string -> string): string
    decreases |s|
  {
    if s == "" then ""
    else
      match Head(s)
      case Tok(t, n) => (if IsColumn(t) then col(t.name) else s[..n]) + Recolumned(s[n..], col)
      case _ => [s[0]] + Recolumned(s[1..], col)
  }

  /** Replacing each column by itself is the identity: nothing but the columns changes. */
  lemma {:induction false} RecolumnedIdentity(s: string)
    ensures Recolumned(s, w => w) == s
    decreases |s|
  {
    if s != "" {
      match Head(s)
      case Tok(t, n) =>
        RecolumnedIdentity(s[n..]);
        if t.Ident? {
          IdentText(s);
        }
      case _ => RecolumnedIdentity(s[1..]);
    }
  }

  lemma IdentText(s: string)
    requires s != "" && Head(s).Tok? && Head(s).token.Ident?
    ensures IsIdentStart(s[0]) && Head(s).len == IdentLen(s) && Head(s).token.name == s[..IdentLen(s)]
  {}

  /** No column is directly followed by an opening parenthesis. */
  ghost predicate NoCalls(toks: seq<Token>) {
    forall i {:trigger toks[i]} :: 0 <= i < |toks| - 1 && IsColumn(toks[i]) ==> toks[i + 1] != LParen
  }

  /** Across a literal with doubled quotes the qualifier stops and restarts, but copies every byte. */
  lemma {:induction false} LiteralCopied(v: string, col: string -> string)
    requires StrBody(v).Some?
    ensures Stopping(v, QuoteLen(v), col) == Stopping(v, StrBody(v).value.1, col)
    decreases |v|
  {
    if v[0] != '\'' {
      LiteralCopied(v[1..], col);
      PlainByte(v, col);
    } else if |v| > 1 && v[1] == '\'' {
      var w := v[2..];
      DoubledBody(v, w);
      LiteralCopied(w, col);
      DoubledQuote(w, StrBody(w).value.1, col);
      assert v == "''" + w;
    }
  }

  /** What the qualifier makes of a literal's rest: stopping at the next quote, or at the literal's end. */
  function Stopping(v: string, n: nat, col: string -> string): string
    requires n <= |v|
  {
    v[..n] + Qualify(v[n..], col)
  }

  lemma StoppingAfter(pre: string, w: string, n: nat, col: string -> string)
    requires n <= |w|
    ensures Stopping(pre + w, |pre| + n, col) == pre + Stopping(w, n, col)
  {
    assert (pre + w)[..|pre| + n] == pre + w[..n] && (pre + w)[|pre| + n..] == w[n..];
    OneMore(pre, w[..n], Qualify(w[n..], col));
  }

  lemma PlainByte(v: string, col: string -> string)
    requires StrBody(v).Some? && v[0] != '\''
    requires Stopping(v[1..], QuoteLen(v[1..]), col) == Stopping(v[1..], StrBody(v[1..]).value.1, col)
    ensures Stopping(v, QuoteLen(v), col) == Stopping(v, StrBody(v).value.1, col)
  {
    assert v == [v[0]] + v[1..];
    StoppingAfter([v[0]], v[1..], QuoteLen(v[1..]), col);
    StoppingAfter([v[0]], v[1..], StrBody(v[1..]).value.1, col);
  }

  lemma DoubledQuote(w: string, n: nat, col: string -> string)
    requires n <= |w| && Stopping(w, QuoteLen(w), col) == Stopping(w, n, col)
    ensures Stopping("''" + w, 1, col) == Stopping("''" + w, 2 + n, col)
  {
    StoppingAfter("''", w, n, col);
    QuotedTwice(w, col);
  }

  lemma DoubledBody(v: string, w: string)
    requires StrBody(v).Some? && |v| > 1 && v[0] == '\'' && v[1] == '\'' && w == v[2..]
    ensures StrBody(w).Some? && StrBody(v).value.1 == 2 + StrBody(w).value.1 && QuoteLen(v) == 1
  {
  }

  lemma QuotedTwice(w: string, col: string -> string)
    ensures Stopping("''" + w, 1, col) == "''" + Stopping(w, QuoteLen(w), col)
  {
    FirstQuote(w, col);
    SecondQuote(w, col);
    OneMore("'", "'", Stopping(w, QuoteLen(w), col));
  }

  lemma FirstQuote(w: string, col: string -> string)
    ensures Stopping("''" + w, 1, col) == "'" + Qualify("'" + w, col)
  {
    assert ("''" + w)[..1] == "'" && ("''" + w)[1..] == "'" + w;
  }

  lemma SecondQuote(w: string, col: string -> string)
    ensures Qualify("'" + w, col) == "'" + Stopping(w, QuoteLen(w), col)
  {
    ReopenedQuote(w, col);
    StoppingAfter("'", w, QuoteLen(w), col);
  }

  lemma ReopenedQuote(w: string, col: string -> string)
    ensures Qualify("'" + w, col) == Stopping("'" + w, 1 + QuoteLen(w), col)
  {
    assert ("'" + w)[1..] == w;
  }

  lemma HeadByte(s: string)
    requires s != "" && Head(s).Tok?
    ensures Head(s).token == LParen <==> s[0] == '('
    ensures !IsSpace(s[0]) && s[0] != '.'
  {}

  lemma BlankByte(s: string)
    requires s != "" && Head(s).Blank?
    ensures IsBlank(s[0]) && Tokens(s) == Tokens(s[1..])
  {}

  lemma SkipBlank(s: string)
    requires s != "" && IsBlank(s[0])
    ensures SkipSpace(s) == SkipSpace(s[1..])
  {}

  lemma TokenByte(s: string)
    requires s != "" && Head(s).Tok? && Tokens(s).Some?
    ensures Tokens(s).value[0] == Head(s).token && SkipSpace(s) == s
  {
    HeadByte(s);
  }

  /** Reading past blanks, the first token tells what byte comes first. */
  lemma {:induction false} FirstToken(s: string)
    requires Tokens(s).Some?
    ensures CallFollows(s) <==> Tokens(s).value[0] == LParen
    ensures s != "" ==> s[0] != '.'
    decreases |s|
  {
    if s != "" {
      if Head(s).Tok? {
        HeadByte(s);
        TokenByte(s);
      } else {
        BlankByte(s);
        SkipBlank(s);
        FirstToken(s[1..]);
      }
    }
  }

  lemma NoCallsTail(toks: seq<Token>)
    requires NoCalls(toks) && toks != []
    ensures NoCalls(toks[1..])
  {
    forall i | 0 <= i < |toks[1..]| - 1 && IsColumn(toks[1..][i]) ensures toks[1..][i + 1] != LParen {
      assert toks[1..][i] == toks[i + 1] && toks[1..][i + 1] == toks[i + 1 + 1];
    }
  }

  /** On a text that tokenizes without calls, the qualifier replaces exactly the column tokens. */
  lemma {:induction false} QualifyIsRecolumned(s: string, col: string -> string)
    requires Tokens(s).Some? && NoCalls(Tokens(s).value)
    ensures Qualify(s, col) == Recolumned(s, col)
    decreases |s|
  {
    if s != "" {
      if Head(s).Tok? {
        TokenTail(s);
        QualifyIsRecolumned(s[Head(s).len..], col);
        TokenQualified(s, col);
      } else {
        BlankByte(s);
        QualifyIsRecolumned(s[1..], col);
        CopyByte(s, col);
      }
    }
  }

  lemma TokenTail(s: string)
    requires s != "" && Head(s).Tok? && Tokens(s).Some? && NoCalls(Tokens(s).value)
    ensures Tokens(s[Head(s).len..]).Some? && NoCalls(Tokens(s[Head(s).len..]).value)
    ensures IsColumn(Head(s).token) ==> Tokens(s[Head(s).len..]).value[0] != LParen
  {
    var toks := Tokens(s[Head(s).len..]).value;
    assert Tokens(s).value == [Head(s).token] + toks;
    NoCallsTail(Tokens(s).value);
    assert Tokens(s).value[1..] == toks && Tokens(s).value[0 + 1] == toks[0];
    assert Tokens(s).value[0] == Head(s).token;
  }

  /** One token: a column is replaced, anything else is copied. */
  lemma TokenQualified(s: string, col: string -> string)
    requires s != "" && Head(s).Tok? && Tokens(s[Head(s).len..]).Some?
    requires IsColumn(Head(s).token) ==> Tokens(s[Head(s).len..]).value[0] != LParen
    ensures Qualify(s, col) == (if IsColumn(Head(s).token) then col(Head(s).token.name) else s[..Head(s).len]) + Qualify(s[Head(s).len..], col)
  {
    if Head(s).token.Ident? {
      IdentText(s);
      FirstToken(s[Head(s).len..]);
    } else if Head(s).token.Str? {
      StringQualified(s, col);
    } else {
      PlainBytes(s);
      CopyBytes(s, Head(s).len, col);
    }
  }

  /** Plain bytes neither open a literal nor start an identifier. */
  ghost predicate AllPlain(s: string, n: nat)
    requires n <= |s|
  {
    forall i :: 0 <= i < n ==> s[i] != '\'' && !IsIdentStart(s[i])
  }

  lemma UnsignedPlain(s: string)
    requires s != "" && IsDigit(s[0]) && UnsignedLen(s).Some?
    ensures AllPlain(s, UnsignedLen(s).value)
  {
    var j := DigitsLen(s);
    if j < |s| && s[j] == '.' {
      var k := UnsignedLen(s).value;
      forall i | j < i < k ensures IsDigit(s[i]) {
        assert s[i] == s[j + 1..][i - j - 1];
      }
    }
  }

  lemma PlainBytes(s: string)
    requires s != "" && Head(s).Tok? && !Head(s).token.Ident? && !Head(s).token.Str?
    ensures AllPlain(s, Head(s).len)
  {
    if Head(s).token.Num? {
      if s[0] == '-' {
        UnsignedPlain(s[1..]);
        assert forall i :: 0 < i < Head(s).len ==> s[i] == s[1..][i - 1];
      } else {
        UnsignedPlain(s);
      }
    }
  }

  lemma StringQualified(s: string, col: string -> string)
    requires s != "" && Head(s).Tok? && Head(s).token.Str?
    ensures Qualify(s, col) == s[..Head(s).len] + Qualify(s[Head(s).len..], col)
  {
    var v := s[1..];
    assert s == "'" + v;
    LiteralCopied(v, col);
    ReopenedQuote(v, col);
    StoppingAfter("'", v, QuoteLen(v), col);
    StoppingAfter("'", v, StrBody(v).value.1, col);
  }

  lemma CopyByte(s: string, col: string -> string)
    requires s != "" && s[0] != '\'' && !IsIdentStart(s[0])
    ensures Qualify(s, col) == [s[0]] + Qualify(s[1..], col)
  {
    assert s[..1] == [s[0]];
  }

  /** Bytes that are neither quotes nor identifier starts are copied one by one. */
  lemma {:induction false} CopyBytes(s: string, n: nat, col: string -> string)
    requires n <= |s| && AllPlain(s, n)
    ensures Qualify(s, col) == Stopping(s, n, col)
    decreases n
  {
    if n == 0 {
      assert s[..0] == "" && s[0..] == s;
      assert "" + Qualify(s, col) == Qualify(s, col);
    } else {
      var rest := s[1..];
      assert forall i :: 0 <= i < n - 1 ==> rest[i] == s[i + 1];
      CopyBytes(rest, n - 1, col);
      assert s == [s[0]] + rest;
      CopyByte(s, col);
      StoppingAfter([s[0]], rest, n - 1, col);
    }
  }

  /**
   On every accepted predicate the qualifier replaces exactly the columns the
   parser reports, at the places the tokenizer finds them, and copies all other
   bytes.
   */
  lemma QualifyAccepted(s: string, col: string -> string)
    requires Parsed(s).Some?
    ensures Qualify(s, col) == Recolumned(s, col)
    ensures forall n :: n in OrCols(Parsed(s).value) <==> Ident(n) in Tokens(s).value && !Keyword(n)
  {
    TokensClosed(s);
    AcceptedColumns(Tokens(s).value);
    QualifyIsRecolumned(s, col);
  }
}
