/** The loop that interpolates the arguments of a query, over the connection's buffer. */
module Params {
  import opened Options
  import opened Decimals
  import opened Escape
  import opened Interpolate
  import Placeholders

  /** A growing text over an array that is replaced when it is full. */
  class Builder {
    var arr: array<char>
    var len: nat

    ghost predicate Valid()
      reads this
    {
      len <= arr.Length
    }

    ghost function Contents(): string
      requires Valid()
      reads this, arr
    {
      arr[..len]
    }

    constructor (scratch: array<char>)
      ensures Valid() && arr == scratch && Contents() == ""
    {
      arr, len := scratch, 0;
    }

    method Append(s: string)
      requires Valid()
      modifies this, arr
      ensures Valid() && (arr == old(arr) || fresh(arr))
      ensures Contents() == old(Contents()) + s
    {
      ghost var before := Contents();
      arr := ReserveBuffer(arr, len, |s|);
      forall i | 0 <= i < |s| {
        arr[len + i] := s[i];
      }
      len := len + |s|;
      assert arr[..len] == before + s;
    }

    method AppendLiteral(v: string, noBackslash: bool, binary: bool)
      requires Valid()
      modifies this, arr
      ensures Valid() && (arr == old(arr) || fresh(arr))
      ensures Contents() == old(Contents()) + Quoted(v, noBackslash, binary)
    {
      arr, len := AppendQuoted(arr, len, v, noBackslash, binary);
    }

    /** Writes the literal for one argument; fails on an argument that has none. */
    method AppendArg(a: Arg, noBackslash: bool) returns (error: Option<Error>)
      requires Valid()
      modifies this, arr
      ensures Valid() && (arr == old(arr) || fresh(arr))
      ensures match Literal(a, noBackslash)
              case Ok(lit) => error == None && Contents() == old(Contents()) + lit
              case Err(e) => error == Some(e)
    {
      error := None;
      match a
      case Nil => Append("NULL");
      case Int(i) => Append(if i < 0 then "-" + Decimal(-i) else Decimal(i));
      case Uint(u) => Append(Decimal(u));
      case Float(f) => Append(f);
      case Bool(b) => Append(if b then "1" else "0");
      case Date(Zero) => Append("'0000-00-00'");
      case Date(At(text)) => Append("'" + text + "'");
      case Date(YearOutOfRange) => error := Some(YearRange);
      case Json(json) => AppendLiteral(json, noBackslash, false);
      case Bytes(None) => Append("NULL");
      case Bytes(Some(b)) => AppendLiteral(b, noBackslash, true);
      case Text(s) => AppendLiteral(s, noBackslash, false);
      case Other => error := Some(Skip);
    }

    /** Copies a stretch of the query and the literal after it; anything but NULL must leave room in a packet. */
    method Replace(stretch: string, a: Arg, noBackslash: bool, maxAllowed: nat) returns (error: Option<Error>)
      requires Valid()
      modifies this, arr
      ensures Valid() && (arr == old(arr) || fresh(arr))
      ensures match Literal(a, noBackslash)
              case Err(e) => error == Some(e)
              case Ok(lit) =>
                var all := old(Contents()) + stretch + lit;
                if a != Nil && |all| + 4 > maxAllowed then error == Some(Skip) else error == None && Contents() == all
    {
      Append(stretch);
      error := AppendArg(a, noBackslash);
      if error == None && a != Nil && len + 4 > maxAllowed {
        error := Some(Skip);
      }
    }
  }

  /** Updates the scanner for the byte at `i`, unless it is a placeholder. */
  method Advance(query: string, i: nat, mode: Mode, singleQuotes: bool, lastChar: char, noBackslash: bool)
    returns (mode': Mode, singleQuotes': bool, lastChar': char)
    requires i < |query|
    ensures Scan(mode', singleQuotes', lastChar') == Step(Scan(mode, singleQuotes, lastChar), query[i], query[i + 1..], noBackslash)
  {
    var c := query[i];
    mode', singleQuotes', lastChar' := mode, singleQuotes, c;
    if mode == InEscape && !((c == '\'' && singleQuotes) || (c == '"' && !singleQuotes)) {
      mode' := InString;
      return;
    }
    if c == '*' {
      if mode == Normal && lastChar == '/' {
        mode' := SlashStarComment;
      }
    } else if c == '/' {
      if mode == SlashStarComment && lastChar == '*' {
        mode', lastChar' := Normal, '\0';
      }
    } else if c == '#' {
      if mode == Normal {
        mode' := EolComment;
      }
    } else if c == '-' {
      if mode == Normal && lastChar == '-' {
        if i + 1 < |query| {
          if Blank(query[i + 1]) {
            mode' := EolComment;
          }
        } else {
          mode' := EolComment;
        }
      }
    } else if c == '\n' {
      if mode == EolComment {
        mode' := Normal;
      }
    } else if c == '"' {
      if mode == Normal {
        mode', singleQuotes' := InString, false;
      } else if mode == InString && !singleQuotes {
        mode' := Normal;
      } else if mode == InEscape {
        mode' := InString;
      }
    } else if c == '\'' {
      if mode == Normal {
        mode', singleQuotes' := InString, true;
      } else if mode == InString && singleQuotes {
        mode' := Normal;
      } else if mode == InEscape {
        mode' := InString;
      }
    } else if c == '\\' {
      if mode == InString && !noBackslash {
        mode' := InEscape;
      }
    } else if c == '`' {
      if mode == Backtick {
        mode' := Normal;
      } else if mode == Normal {
        mode' := Backtick;
      }
    }
  }

  /** One turn of the loop, on the text so far and the rest of the query and the arguments. */
  lemma RestTurn(query: string, i: nat, st: Scan, args: seq<Arg>, argPos: nat, out: string, noBackslash: bool, max: nat)
    requires i < |query| && argPos <= |args|
    ensures var next := Step(st, query[i], query[i + 1..], noBackslash);
            var here := Rest(query[i..], st, args[argPos..], out, noBackslash, max);
            if !Live(st, query[i]) then here == Rest(query[i + 1..], next, args[argPos..], out + [query[i]], noBackslash, max)
            else if argPos == |args| then here == Err(Skip)
            else match Literal(args[argPos], noBackslash)
                 case Err(e) => here == Err(e)
                 case Ok(lit) =>
                   if args[argPos] != Nil && |out + lit| + 4 > max then here == Err(Skip)
                   else here == Rest(query[i + 1..], next, args[argPos + 1..], out + lit, noBackslash, max)
  {
    assert query[i..][1..] == query[i + 1..];
    if argPos < |args| {
      assert args[argPos..][1..] == args[argPos + 1..];
    }
  }

  /**
   Copies the query into the buffer a stretch at a time, with a literal in place of every
   placeholder. The result is the one defined byte by byte in Interpolated: the query with the arguments' literals at
   its question marks outside strings, quoted names and comments.
   */
  method InterpolateParams(query: string, args: seq<Arg>, noBackslash: bool, maxAllowed: nat, scratch: array<char>)
    returns (r: Result<string>)
    modifies scratch
    ensures r == Interpolated(query, args, noBackslash, maxAllowed)
    ensures Placeholders.Substitutes(query, args, noBackslash, maxAllowed, r)
  {
    Placeholders.InterpolatedSubstitutes(query, args, noBackslash, maxAllowed);
    var buf := new Builder(scratch);
    var mode, singleQuotes, lastChar := Normal, false, '\0';
    var argPos, lastIdx := 0, 0;
    ghost var out := "";
    assert query[0..] == query && args[0..] == args;
    for i := 0 to |query|
      invariant buf.Valid() && fresh(buf) && (buf.arr == scratch || fresh(buf.arr))
      invariant argPos <= |args| && lastIdx <= i && out == buf.Contents() + query[lastIdx..i]
      invariant Rest(query[i..], Scan(mode, singleQuotes, lastChar), args[argPos..], out, noBackslash, maxAllowed)
             == Interpolated(query, args, noBackslash, maxAllowed)
    {
      RestTurn(query, i, Scan(mode, singleQuotes, lastChar), args, argPos, out, noBackslash, maxAllowed);
      if query[i] == '?' && mode == Normal {
        if argPos >= |args| {
          return Err(Skip);
        }
        var error := buf.Replace(query[lastIdx..i], args[argPos], noBackslash, maxAllowed);
        if error.Some? {
          return Err(error.value);
        }
        argPos, lastIdx := argPos + 1, i + 1;
        out := buf.Contents();
      } else {
        out := out + [query[i]];
      }
      mode, singleQuotes, lastChar := Advance(query, i, mode, singleQuotes, lastChar, noBackslash);
    }
    assert query[|query|..] == "" && query[lastIdx..|query|] == query[lastIdx..];
    buf.Append(query[lastIdx..]);
    if argPos != |args| {
      return Err(Skip);
    }
    r := Ok(buf.arr[..buf.len]);
  }
}
