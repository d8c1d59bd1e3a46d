/** Replacing the placeholders of a query by literals on the client. A char stands for one byte. */
module Interpolate {
  import opened Options
  import opened Decimals
  import opened Escape

  // ------------------------------------------------------------------ the scanner

  datatype Mode = Normal | InString | InEscape | EolComment | SlashStarComment | Backtick

  datatype Scan = Scan(mode: Mode, singleQuotes: bool, last: char)

  const START := Scan(Normal, false, '\0')

  predicate Blank(c: char) {
    c == ' ' || c == '\t' || c == '\n' || c == '\r'
  }

  /** The text after a second minus sign makes it start a comment. */
  predicate AtBreak(rest: string) {
    rest == "" || Blank(rest[0])
  }

  /** One byte of the query, followed by `rest`. */
  function Step(st: Scan, c: char, rest: string, noBackslash: bool): Scan {
    var mode := st.mode;
    if mode == InEscape && !((c == '\'' && st.singleQuotes) || (c == '"' && !st.singleQuotes)) then
      Scan(InString, st.singleQuotes, c)
    else if c == '/' && mode == SlashStarComment && st.last == '*' then
      Scan(Normal, st.singleQuotes, '\0')
    else if c == '*' && mode == Normal && st.last == '/' then
      Scan(SlashStarComment, st.singleQuotes, c)
    else if c == '#' && mode == Normal then
      Scan(EolComment, st.singleQuotes, c)
    else if c == '-' && mode == Normal && st.last == '-' && AtBreak(rest) then
      Scan(EolComment, st.singleQuotes, c)
    else if c == '\n' && mode == EolComment then
      Scan(Normal, st.singleQuotes, c)
    else if c == '"' then
      if mode == Normal then Scan(InString, false, c)
      else if mode == InString && !st.singleQuotes then Scan(Normal, st.singleQuotes, c)
      else if mode == InEscape then Scan(InString, st.singleQuotes, c)
      else st.(last := c)
    else if c == '\'' then
      if mode == Normal then Scan(InString, true, c)
      else if mode == InString && st.singleQuotes then Scan(Normal, st.singleQuotes, c)
      else if mode == InEscape then Scan(InString, st.singleQuotes, c)
      else st.(last := c)
    else if c == '\\' && mode == InString && !noBackslash then
      Scan(InEscape, st.singleQuotes, c)
    else if c == '`' && (mode == Backtick || mode == Normal) then
      Scan(if mode == Backtick then Normal else Backtick, st.singleQuotes, c)
    else st.(last := c)
  }

  /** A question mark outside strings, comments and quoted names is a placeholder. */
  predicate Live(st: Scan, c: char) {
    c == '?' && st.mode == Normal
  }

  /** Where the scanner ends up on a text, or none if it meets a placeholder. */
  function Inert(t: string, st: Scan, noBackslash: bool): Option<Scan> {
    if t == "" then Some(st)
    else if Live(st, t[0]) then None
    else Inert(t[1..], Step(st, t[0], t[1..], noBackslash), noBackslash)
  }

  /** Where the scanner ends up on a query, placeholders included, and how many of these it met. */
  function ScanAll(q: string, st: Scan, noBackslash: bool): (Scan, nat) {
    if q == "" then (st, 0)
    else
      var r := ScanAll(q[1..], Step(st, q[0], q[1..], noBackslash), noBackslash);
      (r.0, r.1 + if Live(st, q[0]) then 1 else 0)
  }

  // ------------------------------------------------------------------ the arguments

  /** No byte the scanner acts on but single minus signs, none at the end. */
  predicate NumberText(s: string) {
    && s != "" && s[|s| - 1] != '-'
    && (forall i | 0 <= i < |s| :: Plain(s[i]) || s[i] == '-')
    && forall i | 0 <= i < |s| - 1 :: s[i] == '-' ==> s[i + 1] != '-'
  }

  /** What is assumed of the text of a floating-point number: its signs stand first or after an e, and it does not start like a name. */
  predicate FloatShape(s: string) {
    NumberText(s) && s[0] != '_' && forall i | 0 < i < |s| :: s[i] == '-' || s[i] == '+' ==> s[i - 1] == 'e'
  }

  /** A byte the scanner passes over outside strings, whatever comes before or after. */
  predicate Plain(c: char) {
    '0' <= c <= '9' || 'a' <= c <= 'z' || 'A' <= c <= 'Z' || c == '.' || c == '+' || c == '_'
  }

  /** What is assumed of the text of a date: no byte that could end the literal around it. */
  predicate DateText(s: string) {
    forall i | 0 <= i < |s| :: s[i] != '\'' && s[i] != '\\'
  }

  type FloatText = s: string | FloatShape(s) witness "0"
  type TimeText = s: string | DateText(s)

  datatype Time = Zero | At(text: TimeText) | YearOutOfRange

  datatype Arg =
    | Nil
    | Int(i: int)
    | Uint(u: nat)
    | Float(f: FloatText)
    | Bool(b: bool)
    | Date(t: Time)
    | Json(json: string)
    | Bytes(bytes: Option<string>)
    | Text(s: string)
    | Other

  datatype Error = Skip | YearRange
  datatype Result<+T> = Ok(value: T) | Err(error: Error)

  /** The literal that replaces a placeholder. */
  function Literal(a: Arg, noBackslash: bool): Result<string> {
    match a
    case Nil => Ok("NULL")
    case Int(i) => Ok(if i < 0 then "-" + Decimal(-i) else Decimal(i))
    case Uint(u) => Ok(Decimal(u))
    case Float(f) => Ok(f)
    case Bool(b) => Ok(if b then "1" else "0")
    case Date(Zero) => Ok("'0000-00-00'")
    case Date(At(text)) => Ok("'" + text + "'")
    case Date(YearOutOfRange) => Err(YearRange)
    case Json(json) => Ok(Quoted(json, noBackslash, false))
    case Bytes(None) => Ok("NULL")
    case Bytes(Some(b)) => Ok(Quoted(b, noBackslash, true))
    case Text(s) => Ok(Quoted(s, noBackslash, false))
    case Other => Err(Skip)
  }

  // ------------------------------------------------------------------ the result

  /**
   The rest of interpolation: `q` is yet to be scanned, `args` are yet to be used, `out` is the
   text so far. After every argument but a nil one the text must fit a packet.
   */
  function Rest(q: string, st: Scan, args: seq<Arg>, out: string, noBackslash: bool, maxAllowed: nat): Result<string> {
    if q == "" then (if args == [] then Ok(out) else Err(Skip))
    else
      var next := Step(st, q[0], q[1..], noBackslash);
      if !Live(st, q[0]) then Rest(q[1..], next, args, out + [q[0]], noBackslash, maxAllowed)
      else if args == [] then Err(Skip)
      else
        var lit := Literal(args[0], noBackslash);
        if lit.Err? then Err(lit.error)
        else if args[0] != Nil && |out + lit.value| + 4 > maxAllowed then Err(Skip)
        else Rest(q[1..], next, args[1..], out + lit.value, noBackslash, maxAllowed)
  }

  function Interpolated(q: string, args: seq<Arg>, noBackslash: bool, maxAllowed: nat): Result<string> {
    Rest(q, START, args, "", noBackslash, maxAllowed)
  }
}
