/** Writing quoted literals into a buffer. A char stands for one byte. */
module Escape {
  import opened Options
  import opened Reading

  /** The byte that follows the backslash in the escape for `c`, if it has one. */
  function Table(c: char): Option<char> {
    if c == '\0' then Some('0')
    else if c == '\n' then Some('n')
    else if c == '\r' then Some('r')
    else if c == '\U{1A}' then Some('Z')
    else if c == '\'' || c == '"' || c == '\\' then Some(c)
    else None
  }

  /** The body of a literal for `v`, with backslash escapes or with doubled quotes. */
  function Body(v: string, noBackslash: bool): string {
    if v == "" then "" else One(v[0], noBackslash) + Body(v[1..], noBackslash)
  }

  function One(c: char, noBackslash: bool): (s: string)
    ensures 1 <= |s| <= 2
  {
    if noBackslash then (if c == '\'' then "''" else [c])
    else match Table(c)
         case Some(e) => ['\\', e]
         case None => [c]
  }

  function Prefix(binary: bool): string {
    if binary then "_binary'" else "'"
  }

  function Quoted(v: string, noBackslash: bool, binary: bool): string {
    Prefix(binary) + Body(v, noBackslash) + "'"
  }

  lemma OneReads(c: char, rest: string, noBackslash: bool)
    ensures ReadBody(One(c, noBackslash) + rest, noBackslash) == Onto([c], ReadBody(rest, noBackslash))
  {
    var s := One(c, noBackslash);
    assert (s + rest)[|s|..] == rest;
    assert (s + rest)[0] == s[0] && (|s| > 1 ==> (s + rest)[1] == s[1]);
  }

  /** The body of a literal is read as the value, and then what follows it. */
  lemma {:induction false} BodyReads(v: string, tail: string, noBackslash: bool)
    ensures ReadBody(Body(v, noBackslash) + tail, noBackslash) == Onto(v, ReadBody(tail, noBackslash))
  {
    if v == "" {
      assert "" + tail == tail;
      NoneOnto(ReadBody(tail, noBackslash));
    } else {
      var more := Body(v[1..], noBackslash) + tail;
      assert Body(v, noBackslash) + tail == One(v[0], noBackslash) + more;
      BodyReads(v[1..], tail, noBackslash);
      OneReads(v[0], more, noBackslash);
      OntoMore([v[0]], v[1..], ReadBody(tail, noBackslash));
      assert [v[0]] + v[1..] == v;
    }
  }

  lemma QuotedReads(v: string, rest: string, noBackslash: bool, binary: bool)
    ensures ReadLiteral(Quoted(v, noBackslash, binary) + rest, noBackslash) == Some((Quote(binary, v), rest))
       <==> Apart(Quoted(v, noBackslash, binary), rest)
  {
    var q, inner := Quoted(v, noBackslash, binary), Body(v, noBackslash) + ("'" + rest);
    assert q[|q| - 1] == '\'' && q + rest == Prefix(binary) + inner;
    assert (q + rest)[|Prefix(binary)|..] == inner && (q + rest)[0] == Prefix(binary)[0];
    BodyReads(v, "'" + rest, noBackslash);
    CloseReads(v, rest, noBackslash);
  }

  lemma BodyTurn(sofar: string, v: string, i: nat, noBackslash: bool)
    requires i < |v|
    ensures sofar + Body(v[i..], noBackslash) == sofar + One(v[i], noBackslash) + Body(v[i + 1..], noBackslash)
  {
    assert v[i..][1..] == v[i + 1..];
  }

  /** Makes room for `n` more bytes, in a new array if they do not fit. */
  method ReserveBuffer(buf: array<char>, len: nat, n: nat) returns (r: array<char>)
    requires len <= buf.Length
    ensures r.Length >= len + n && r[..len] == buf[..len]
    ensures if buf.Length < len + n then fresh(r) else r == buf
  {
    r := buf;
    if buf.Length < len + n {
      r := new char[len * 2 + n];
      forall i | 0 <= i < len {
        r[i] := buf[i];
      }
    }
  }

  /** Reserves room for a literal for a value of `n` bytes and writes the part before the value. */
  method OpenLiteral(buf: array<char>, len: nat, n: nat, binary: bool) returns (r: array<char>, end: nat)
    requires len <= buf.Length
    modifies buf
    ensures end + 2 * n + 1 <= r.Length && end == len + |Prefix(binary)|
    ensures r[..end] == old(buf[..len]) + Prefix(binary)
    ensures r == buf || fresh(r)
  {
    var prefix := Prefix(binary);
    r := ReserveBuffer(buf, len, 2 * n + |prefix| + 1);
    ghost var before := r[..len];
    forall i | 0 <= i < |prefix| {
      r[len + i] := prefix[i];
    }
    end := len + |prefix|;
    assert r[..end] == before + prefix;
  }

  /** Writes one byte of the value, escaped if need be. */
  method Put(r: array<char>, pos: nat, c: char, noBackslash: bool) returns (end: nat)
    requires pos + 2 <= r.Length
    modifies r
    ensures pos < end <= pos + 2 && r[..end] == old(r[..pos]) + One(c, noBackslash)
  {
    var esc := if noBackslash then (if c == '\'' then Some(c) else None) else Table(c);
    if esc.Some? {
      r[pos + 1] := esc.value;
      r[pos] := if noBackslash then '\'' else '\\';
      end := pos + 2;
    } else {
      r[pos] := c;
      end := pos + 1;
    }
  }

  /** Writes the value, escaped, into the room reserved for it. */
  method PutAll(r: array<char>, pos: nat, v: string, noBackslash: bool) returns (end: nat)
    requires pos + 2 * |v| + 1 <= r.Length
    modifies r
    ensures end <= pos + 2 * |v| && r[..end] == old(r[..pos]) + Body(v, noBackslash)
  {
    end := pos;
    ghost var all := r[..pos] + Body(v, noBackslash);
    for i := 0 to |v|
      invariant end + 2 * (|v| - i) <= pos + 2 * |v|
      invariant r[..end] + Body(v[i..], noBackslash) == all
    {
      BodyTurn(r[..end], v, i, noBackslash);
      end := Put(r, end, v[i], noBackslash);
    }
  }

  /**
   Appends a literal to the first `len` bytes of `buf`. Twice the length of the value and
   two bytes, or nine for a binary literal, are reserved; no byte is written past them.
   */
  method AppendQuoted(buf: array<char>, len: nat, v: string, noBackslash: bool, binary: bool) returns (r: array<char>, end: nat)
    requires len <= buf.Length
    modifies buf
    ensures end <= r.Length && r[..end] == old(buf[..len]) + Quoted(v, noBackslash, binary)
    ensures end <= len + 2 * |v| + (if binary then 9 else 2)
    ensures len <= end && ReadLiteral(r[len..end], noBackslash) == Some((Quote(binary, v), ""))
    ensures r == buf || fresh(r)
  {
    ghost var before := buf[..len];
    r, end := OpenLiteral(buf, len, |v|, binary);
    end := PutAll(r, end, v, noBackslash);
    ghost var sofar := r[..end];
    r[end] := '\'';
    end := end + 1;
    assert r[..end] == sofar + "'";
    Regroup(before, Prefix(binary), Body(v, noBackslash), "'");
    ghost var lit := Quoted(v, noBackslash, binary);
    assert r[..end] == before + lit && r[len..end] == lit == lit + "";
    QuotedReads(v, "", noBackslash, binary);
  }

  lemma Regroup(a: string, b: string, c: string, d: string)
    ensures a + b + c + d == a + (b + c + d)
  {
  }
}
