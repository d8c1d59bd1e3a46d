/** COM_STMT_SEND_LONG_DATA: one argument of a prepared statement, sent in chunks that fit maxAllowedPacket. */
module LongData {
  import opened Options
  import opened Wire
  import opened Zipped
  import opened Conn

  const COM_STMT_SEND_LONG_DATA: byte := 0x18

  /** Command byte, 32-bit statement id and 16-bit parameter id, both least significant byte first. */
  function Head(id: nat, param: nat): (h: seq<byte>)
    ensures |h| == 7
  {
    [COM_STMT_SEND_LONG_DATA] + [Low(id), Low(id / 256), Low(id / 65536), Low(id / 0x100_0000)]
    + [Low(param), Low(param / 256)]
  }

  /** A command as the server takes it: its code, the statement and the parameter it names, and the data. */
  datatype Command = Command(code: byte, statement: nat, param: nat, data: seq<byte>)

  function Understood(payload: seq<byte>): Option<Command> {
    if |payload| < 7 then None
    else Some(Command(payload[0], LittleEndian(payload[1..5]), LittleEndian(payload[5..7]), payload[7..]))
  }

  /** The header names the long-data command, the statement and the parameter, as 8, 32 and 16 bits. */
  lemma HeadUnderstood(id: nat, param: nat, data: seq<byte>)
    ensures Understood(Head(id, param) + data) == Some(Command(0x18, id % 0x1_0000_0000, param % 0x1_0000, data))
  {
    var p := Head(id, param) + data;
    FourBytes(id);
    TwoBytes(param);
    assert p[1..5] == [Low(id), Low(id / 256), Low(id / 65536), Low(id / 0x100_0000)];
    assert p[5..7] == [Low(param), Low(param / 256)] && p[7..] == data;
  }

  /** Every payload is a long-data command for the statement and parameter; their data, in order, is the argument, in pieces of at most `size` bytes. */
  ghost predicate Conveys(payloads: seq<seq<byte>>, id: nat, param: nat, arg: seq<byte>, size: nat) {
    exists pieces: seq<seq<byte>> ::
      && |pieces| == |payloads| && Concat(pieces) == arg
      && forall i :: 0 <= i < |payloads| ==> Carries(payloads[i], id, param, pieces[i], size)
  }

  ghost predicate Carries(payload: seq<byte>, id: nat, param: nat, piece: seq<byte>, size: nat) {
    Understood(payload) == Some(Command(0x18, id % 0x1_0000_0000, param % 0x1_0000, piece)) && 0 < |piece| <= size
  }

  /** The argument cut into chunks of `size` bytes. */
  function Chunks(arg: seq<byte>, size: nat): (cs: seq<seq<byte>>)
    requires size > 0
    decreases |arg|
  {
    if arg == [] then []
    else if |arg| <= size then [arg]
    else [arg[..size]] + Chunks(arg[size..], size)
  }

  function Commands(head: seq<byte>, chunks: seq<seq<byte>>): (cs: seq<seq<byte>>)
    ensures |cs| == |chunks|
    ensures forall i | 0 <= i < |cs| :: cs[i] == head + chunks[i]
  {
    if chunks == [] then [] else [head + chunks[0]] + Commands(head, chunks[1..])
  }

  /** No byte of the argument is lost or repeated, and no chunk is empty or too long. */
  lemma {:induction false} ChunksConcat(arg: seq<byte>, size: nat)
    requires size > 0
    ensures Concat(Chunks(arg, size)) == arg
    ensures forall i | 0 <= i < |Chunks(arg, size)| :: 0 < |Chunks(arg, size)[i]| <= size
    decreases |arg|
  {
    var cs := Chunks(arg, size);
    if 0 < |arg| <= size {
      ConcatOne(arg);
    } else if arg != [] {
      ChunksConcat(arg[size..], size);
      assert cs[1..] == Chunks(arg[size..], size);
      assert arg[..size] + arg[size..] == arg;
    }
  }

  /** What is sent for several payloads when the sequence numbers are reset after each. */
  function SentAll(z: Option<Zlib>, M: nat, payloads: seq<seq<byte>>, seqNr: byte, compSeq: byte): seq<byte>
    requires M > 0 && (z.Some? ==> M > 4)
  {
    if payloads == [] then []
    else Sent(z, M, Frames(M, payloads[0], seqNr), compSeq) + SentAll(z, M, payloads[1..], 0, 0)
  }

  /** What a receiver that resets its sequence number in the same way reads. */
  datatype Delivery = Delivered(payloads: seq<seq<byte>>, rest: seq<byte>) | Lost

  function ReadAll(M: nat, compressed: bool, src: seq<byte>, n: nat, seqNr: byte): Delivery
    requires M > 0
    decreases n
  {
    if n == 0 then Delivered([], src)
    else
      match Deframe(M, compressed, src, seqNr, None, false)
      case Broken(_) => Lost
      case Packet(data, rest, _) =>
        var more := ReadAll(M, compressed, rest, n - 1, 0);
        if more.Lost? then Lost else Delivered([data] + more.payloads, more.rest)
  }

  lemma SentAllStep(z: Option<Zlib>, M: nat, payloads: seq<seq<byte>>, seqNr: byte, compSeq: byte, rest: seq<byte>)
    requires payloads != [] && M > 0 && (z.Some? ==> M > 4)
    ensures SentAll(z, M, payloads, seqNr, compSeq) + rest
         == Sent(z, M, Frames(M, payloads[0], seqNr), compSeq) + (SentAll(z, M, payloads[1..], 0, 0) + rest)
  {
  }

  lemma ReadAllStep(M: nat, compressed: bool, src: seq<byte>, first: seq<byte>, rest: seq<byte>, next: byte, more: seq<seq<byte>>, end: seq<byte>, seqNr: byte)
    requires M > 0 && Deframe(M, compressed, src, seqNr, None, false) == Packet(first, rest, next)
    requires ReadAll(M, compressed, rest, |more|, 0) == Delivered(more, end)
    ensures ReadAll(M, compressed, src, |more| + 1, seqNr) == Delivered([first] + more, end)
  {
  }

  lemma {:induction false} SentAllDelivered(z: Option<Zlib>, M: nat, payloads: seq<seq<byte>>, seqNr: byte, compSeq: byte, rest: seq<byte>)
    requires z.Some? ==> Inverse(z.value) && 4 < M
    requires 0 < M < 0x100_0000 && forall i | 0 <= i < |payloads| :: payloads[i] != []
    ensures ReadAll(M, z.Some?, Plain(z, SentAll(z, M, payloads, seqNr, compSeq) + rest), |payloads|, seqNr)
         == Delivered(payloads, Plain(z, rest))
  {
    if payloads == [] {
      assert SentAll(z, M, payloads, seqNr, compSeq) + rest == rest;
    } else {
      var more := SentAll(z, M, payloads[1..], 0, 0) + rest;
      SentAllStep(z, M, payloads, seqNr, compSeq, rest);
      PacketRoundTrip(z, M, payloads[0], seqNr, compSeq, more);
      SentAllDelivered(z, M, payloads[1..], 0, 0, rest);
      ReadAllStep(M, z.Some?, Plain(z, SentAll(z, M, payloads, seqNr, compSeq) + rest), payloads[0], Plain(z, more),
                  SeqAfter(M, payloads[0], seqNr), payloads[1..], Plain(z, rest), seqNr);
      assert [payloads[0]] + payloads[1..] == payloads;
    }
  }

  /** The commands for an argument are delivered one by one, and their chunks make up the argument. */
  lemma LongDataDelivered(z: Option<Zlib>, M: nat, head: seq<byte>, arg: seq<byte>, size: nat, seqNr: byte, compSeq: byte, rest: seq<byte>)
    requires z.Some? ==> Inverse(z.value) && 4 < M
    requires 0 < M < 0x100_0000 && size > 0 && head != []
    ensures var chunks := Chunks(arg, size);
            var sent := SentAll(z, M, Commands(head, chunks), seqNr, compSeq);
            && ReadAll(M, z.Some?, Plain(z, sent + rest), |chunks|, seqNr)
               == Delivered(Commands(head, chunks), Plain(z, rest))
            && Concat(chunks) == arg
  {
    ChunksConcat(arg, size);
    SentAllDelivered(z, M, Commands(head, Chunks(arg, size)), seqNr, compSeq, rest);
  }

  lemma CommandsConvey(id: nat, param: nat, arg: seq<byte>, size: nat)
    requires size > 0
    ensures Conveys(Commands(Head(id, param), Chunks(arg, size)), id, param, arg, size)
  {
    var chunks := Chunks(arg, size);
    ChunksConcat(arg, size);
    forall i | 0 <= i < |chunks| ensures Carries(Commands(Head(id, param), chunks)[i], id, param, chunks[i], size) {
      HeadUnderstood(id, param, chunks[i]);
    }
  }

  /** What a receiver makes of what is sent for an argument: commands that name the statement and the parameter and make up the argument. */
  lemma LongDataUnderstood(z: Option<Zlib>, M: nat, id: nat, param: nat, arg: seq<byte>, size: nat, seqNr: byte, compSeq: byte, rest: seq<byte>)
    returns (payloads: seq<seq<byte>>)
    requires z.Some? ==> Inverse(z.value) && 4 < M
    requires 0 < M < 0x100_0000 && size > 0
    ensures var sent := SentAll(z, M, Commands(Head(id, param), Chunks(arg, size)), seqNr, compSeq);
            ReadAll(M, z.Some?, Plain(z, sent + rest), |payloads|, seqNr) == Delivered(payloads, Plain(z, rest))
    ensures Conveys(payloads, id, param, arg, size)
  {
    payloads := Commands(Head(id, param), Chunks(arg, size));
    LongDataDelivered(z, M, Head(id, param), arg, size, seqNr, compSeq, rest);
    CommandsConvey(id, param, arg, size);
  }

  class Statement {
    const conn: Connection
    const id: nat

    constructor (conn: Connection, id: nat)
      ensures this.conn == conn && this.id == id
    {
      this.conn, this.id := conn, id;
    }

    /**
     Sends the argument in chunks of maxAllowedPacket - 8 bytes, building every command over the last
     eleven bytes of the one sent before it. A limit of eight or less would leave no room for data in
     a command, and the loop would not advance.
     */
    method WriteCommandLongData(param: nat, arg: seq<byte>) returns (tooLarge: bool)
      requires conn.Valid() && conn.maxAllowed > 8
      modifies conn`compBuff, conn`compressSequence, conn`wire, conn`sequence
      ensures !tooLarge
      ensures exists payloads :: Conveys(payloads, id, param, arg, conn.maxAllowed - 8)
                && conn.wire == old(conn.wire) + SentAll(conn.zlib, conn.M, payloads, old(conn.sequence), old(conn.compressSequence))
      ensures conn.wire == old(conn.wire) + SentAll(conn.zlib, conn.M,
                Commands(Head(id, param), Chunks(arg, conn.maxAllowed - 8)), old(conn.sequence), old(conn.compressSequence))
      ensures arg != [] ==> conn.sequence == 0 && conn.compressSequence == 0
      ensures arg == [] ==> conn.sequence == old(conn.sequence) && conn.compressSequence == old(conn.compressSequence)
    {
      var data := new byte[4 + 7 + |arg|];
      forall i | 0 <= i < |arg| {
        data[11 + i] := arg[i];
      }
      assert data[11..] == arg;
      CommandsConvey(id, param, arg, conn.maxAllowed - 8);
      tooLarge := SendChunks(param, data, arg);
    }

    /** The loop over the argument, which stands in `data` behind room for one command's header. */
    method SendChunks(param: nat, data: array<byte>, ghost arg: seq<byte>) returns (tooLarge: bool)
      requires conn.Valid() && conn.maxAllowed > 8 && 11 <= data.Length && data[11..] == arg
      modifies conn`compBuff, conn`compressSequence, conn`wire, conn`sequence, data
      ensures !tooLarge
      ensures conn.wire == old(conn.wire + Pending(param, arg))
      ensures Counters(arg == [], old(conn.sequence), old(conn.compressSequence))
    {
      var maxLen := conn.maxAllowed - 1;
      var pktLen: nat := maxLen;
      var at: nat, argLen := 11, data.Length - 11;
      ghost var todo := arg;
      ghost var all := conn.wire + Pending(param, todo);
      while argLen > 0
        invariant |todo| == argLen && 11 <= at && at + argLen == data.Length && data[at..] == todo
        invariant argLen > 0 ==> pktLen == maxLen
        invariant conn.Valid()
        invariant conn.wire + Pending(param, todo) == all
        invariant Counters(todo == arg, old(conn.sequence), old(conn.compressSequence))
        decreases argLen
      {
        if 7 + argLen < maxLen {
          pktLen := 7 + argLen;
        }
        var n, end := pktLen - 7, at + (pktLen - 7);
        ghost var first, more := todo[..n], todo[n..];
        Rejoins(todo, n);
        FirstChunk(conn.zlib, conn.M, conn.wire, Head(id, param), todo, first, more, conn.maxAllowed - 8, conn.sequence, conn.compressSequence);
        tooLarge := WriteChunk(param, data, at, end, first, more);
        if tooLarge {
          return;
        }
        todo, at, argLen := more, end, argLen - n;
      }
      tooLarge := false;
    }

    /** The sequence numbers are those at the start, and zero once a command was sent. */
    ghost predicate Counters(nothingSent: bool, seqNr: byte, compSeq: byte)
      reads conn
    {
      if nothingSent then conn.sequence == seqNr && conn.compressSequence == compSeq
      else conn.sequence == 0 && conn.compressSequence == 0
    }

    /** What is yet to go on the wire for the rest of an argument. */
    ghost function Pending(param: nat, todo: seq<byte>): seq<byte>
      requires conn.Valid() && conn.maxAllowed > 8
      reads conn, conn.buf
    {
      SentAll(conn.zlib, conn.M, Commands(Head(id, param), Chunks(todo, conn.maxAllowed - 8)), conn.sequence, conn.compressSequence)
    }

    /** Writes the seven bytes in front of the data of a command. */
    method StampCommand(param: nat, data: array<byte>, at: nat)
      requires 11 <= at <= data.Length
      modifies data
      ensures data[at - 7..at] == Head(id, param) && data[at..] == old(data[at..])
    {
      data[at - 7] := COM_STMT_SEND_LONG_DATA;
      data[at - 6], data[at - 5], data[at - 4], data[at - 3] := Low(id), Low(id / 256), Low(id / 65536), Low(id / 0x100_0000);
      data[at - 2], data[at - 1] := Low(param), Low(param / 256);
    }

    /** Builds one command in the eleven bytes before the data from `at` to `end`, sends it, and resets the sequence numbers. */
    method WriteChunk(param: nat, data: array<byte>, at: nat, end: nat, ghost first: seq<byte>, ghost more: seq<byte>)
      returns (tooLarge: bool)
      requires conn.Valid() && 11 <= at < end <= data.Length && end - at + 7 <= conn.maxAllowed
      requires data[at..] == first + more && |first| == end - at
      modifies conn`compBuff, conn`compressSequence, conn`wire, conn`sequence, data
      ensures !tooLarge && conn.sequence == 0 && conn.compressSequence == 0
      ensures data[end..] == more
      ensures conn.wire == old(conn.wire) + Sent(conn.zlib, conn.M,
                Frames(conn.M, Head(id, param) + first, old(conn.sequence)), old(conn.compressSequence))
    {
      StampCommand(param, data, at);
      assert data[end..] == data[at..][end - at..];
      assert data[at..end] == data[at..][..end - at];
      Parts(first, more);
      assert data[at - 7..end] == data[at - 7..at] + data[at..end];
      tooLarge := conn.WritePacket(data, at - 11, end);
      assert data[end..] == more;
      conn.ResetSequence();
    }
  }

  lemma Parts(a: seq<byte>, b: seq<byte>)
    ensures (a + b)[..|a|] == a && (a + b)[|a|..] == b
  {
  }

  lemma Rejoins(s: seq<byte>, n: nat)
    requires n <= |s|
    ensures s == s[..n] + s[n..]
  {
  }

  lemma FirstChunk(z: Option<Zlib>, M: nat, sent: seq<byte>, head: seq<byte>, arg: seq<byte>, first: seq<byte>, more: seq<byte>,
                   size: nat, seqNr: byte, compSeq: byte)
    requires M > 0 && (z.Some? ==> M > 4) && size > 0 && arg == first + more
    requires first != [] && |first| <= size && (|first| == size || more == [])
    ensures sent + SentAll(z, M, Commands(head, Chunks(arg, size)), seqNr, compSeq)
         == sent + Sent(z, M, Frames(M, head + first, seqNr), compSeq) + SentAll(z, M, Commands(head, Chunks(more, size)), 0, 0)
  {
    var cs := Chunks(arg, size);
    ChunksStep(arg, first, more, size);
    assert cs[0] == first && cs[1..] == Chunks(more, size);
    assert Commands(head, cs)[1..] == Commands(head, cs[1..]);
    var a, b := Sent(z, M, Frames(M, head + first, seqNr), compSeq), SentAll(z, M, Commands(head, Chunks(more, size)), 0, 0);
    assert SentAll(z, M, Commands(head, cs), seqNr, compSeq) == a + b;
    Regroup(sent, a, b);
  }

  lemma ChunksStep(arg: seq<byte>, first: seq<byte>, more: seq<byte>, size: nat)
    requires size > 0 && arg == first + more
    requires first != [] && |first| <= size && (|first| == size || more == [])
    ensures Chunks(arg, size) == [first] + Chunks(more, size)
  {
    if |arg| <= size {
      assert more == [] && arg == first;
    } else {
      assert arg[..size] == first && arg[size..] == more;
    }
  }
}
