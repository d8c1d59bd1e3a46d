/** A connection: reading and writing packets through the buffers, arrays and counters of the driver. */
module Conn {
  import opened Options
  import opened Wire
  import opened Buffer
  import opened Zipped

  const BLANK_HEADER: seq<byte> := [0, 0, 0, 0, 0, 0, 0]

  datatype Received = Payload(data: seq<byte>) | Failed(error: Error)

  /** `r` is the outcome as the caller of ReadPacket sees it; on success, what follows the payload and the counter match. */
  predicate Answers(outcome: Outcome, r: Received, rest: seq<byte>, next: byte) {
    match outcome
    case Broken(e) => r == Failed(e)
    case Packet(data, rs, n) => r == Payload(data) && rest == rs && next == n
  }

  lemma InflateTurn(z: Zlib, held: seq<byte>, raw: seq<byte>, seqNr: byte)
    ensures var o := Open(raw);
            if o.None? || Unpack(z, o.value.body).None? then
              held + Inflate(z, raw) == held
            else
              var plain := Unpack(z, o.value.body).value;
              && held + Inflate(z, raw) == held + plain + Inflate(z, o.value.rest)
              && FinalSeq(raw, seqNr) == FinalSeq(o.value.rest, Next(o.value.seqNr))
  {
    var o := Open(raw);
    if o.Some? && Unpack(z, o.value.body).Some? {
      Regroup(held, Unpack(z, o.value.body).value, Inflate(z, o.value.rest));
    }
  }

  lemma Regroup(a: seq<byte>, b: seq<byte>, c: seq<byte>)
    ensures a + (b + c) == a + b + c
  {
  }

  lemma OpenHeader(raw: seq<byte>, h: seq<byte>, data: seq<byte>, rest: seq<byte>)
    requires raw == h + (data + rest) && |h| == 7 && |data| == GetUint24(h[..3])
    ensures Open(raw) == Some(Opened(h[3], Body(data, GetUint24(h[4..7])), rest))
  {
    assert raw[..3] == h[..3] && raw[4..7] == h[4..7];
    assert raw[7..7 + |data|] == data && raw[7 + |data|..] == rest;
  }

  lemma SqueezeOn(z: Zlib, M: nat, sent: seq<byte>, bytes: seq<byte>, seqNr: byte)
    requires M > 4 && bytes != []
    ensures var n := ChunkLen(M, bytes);
            && sent + Squeeze(z, M, bytes, seqNr)
               == sent + Sealed(Pack(z, bytes[..n]), seqNr) + Squeeze(z, M, bytes[n..], Next(seqNr))
            && SqueezeSeq(M, bytes, seqNr) == SqueezeSeq(M, bytes[n..], Next(seqNr))
  {
    var n := ChunkLen(M, bytes);
    Regroup(sent, Sealed(Pack(z, bytes[..n]), seqNr), Squeeze(z, M, bytes[n..], Next(seqNr)));
  }

  lemma SentOne(z: Option<Zlib>, M: nat, f: seq<byte>, fs: seq<seq<byte>>, compSeq: byte)
    requires M > 0 && (z.Some? ==> M > 4)
    ensures Sent(z, M, [f] + fs, compSeq) == Sent(z, M, [f], compSeq) + Sent(z, M, fs, SentSeq(z, M, [f], compSeq))
    ensures SentSeq(z, M, [f] + fs, compSeq) == SentSeq(z, M, fs, SentSeq(z, M, [f], compSeq))
  {
    assert ([f] + fs)[1..] == fs;
    assert [f][1..] == [];
  }

  /** Sending a payload of at least M bytes: the first full packet, then the rest as a payload of its own. */
  lemma SendFull(z: Option<Zlib>, M: nat, payload: seq<byte>, seqNr: byte, compSeq: byte)
    requires 0 < M <= |payload| && (z.Some? ==> M > 4)
    ensures var f, more := Frame(payload[..M], seqNr), Frames(M, payload[M..], Next(seqNr));
            && Sent(z, M, Frames(M, payload, seqNr), compSeq)
               == Sent(z, M, [f], compSeq) + Sent(z, M, more, SentSeq(z, M, [f], compSeq))
            && SentSeq(z, M, Frames(M, payload, seqNr), compSeq) == SentSeq(z, M, more, SentSeq(z, M, [f], compSeq))
            && SeqAfter(M, payload, seqNr) == SeqAfter(M, payload[M..], Next(seqNr))
  {
    SentOne(z, M, Frame(payload[..M], seqNr), Frames(M, payload[M..], Next(seqNr)), compSeq);
  }

  /** The places where headers are stamped in an array that is sent from `lo` on: four every M. */
  predicate Slot(M: nat, lo: nat, i: int)
    requires M > 0
    decreases i
  {
    lo <= i < lo + 4 || (i >= lo + M && Slot(M, lo, i - M))
  }

  class Connection {
    const M: nat
    const maxAllowed: nat
    const zlib: Option<Zlib>
    const buf: ReadBuffer
    const net: Stream
    var sequence: byte
    var compressSequence: byte
    var compBuff: seq<byte>
    var wire: seq<byte>

    ghost predicate Valid()
      reads this, buf
    {
      0 < M < 0x100_0000 && (zlib.Some? ==> M > 4) && buf.Valid()
    }

    /** The bytes received and not yet taken out of the read buffer. */
    ghost function Raw(): seq<byte>
      requires Valid()
      reads this, buf, buf.backing, net
    {
      buf.Contents() + net.rest
    }

    /** The bytes that packets can still be read from. */
    ghost function Source(): seq<byte>
      requires Valid()
      reads this, buf, buf.backing, net
    {
      if zlib.None? then Raw() else compBuff + Inflate(zlib.value, Raw())
    }

    /** What reading must conserve: the compressed sequence number expected once everything has been read. */
    ghost function Due(): byte
      requires Valid()
      reads this, buf, buf.backing, net
    {
      if zlib.None? then compressSequence else FinalSeq(Raw(), compressSequence)
    }

    /** A connection with nothing buffered, at the given sequence numbers. */
    constructor (M: nat, maxAllowed: nat, zlib: Option<Zlib>, net: Stream, seqNr: byte, compSeq: byte)
      requires 0 < M < 0x100_0000 && (zlib.Some? ==> M > 4)
      ensures Valid() && fresh(buf) && fresh(buf.backing) && fresh(buf.cached)
      ensures this.M == M && this.maxAllowed == maxAllowed && this.zlib == zlib && this.net == net
      ensures sequence == seqNr && compressSequence == compSeq && compBuff == [] && wire == []
      ensures Source() == Plain(zlib, net.rest) && (zlib.Some? ==> Due() == FinalSeq(net.rest, compSeq))
    {
      this.M, this.maxAllowed, this.zlib, this.net := M, maxAllowed, zlib, net;
      sequence, compressSequence, compBuff, wire := seqNr, compSeq, [], [];
      buf := new ReadBuffer();
      new;
      assert Raw() == net.rest;
      assert zlib.Some? ==> Source() == [] + Inflate(zlib.value, net.rest);
    }

    // ---------------------------------------------------------------- reading

    /** The next `need` received bytes, or none if fewer will come. */
    method ReadRaw(need: nat) returns (data: Option<seq<byte>>)
      requires Valid()
      modifies buf, buf.cached, net
      ensures Valid() && (fresh(buf.cached) || buf.cached == old(buf.cached))
      ensures data.Some? <==> |old(Raw())| >= need
      ensures data.Some? ==> |data.value| == need && data.value + Raw() == old(Raw())
    {
      if buf.size < need {
        var ok := buf.Fill(need, net);
        if !ok {
          return None;
        }
      }
      ghost var all := buf.Contents();
      var d := buf.ReadNext(need);
      assert d + (buf.Contents() + net.rest) == all + net.rest;
      data := Some(d);
    }

    method ReadCompressedPacket() returns (ok: bool)
      requires Valid() && zlib.Some?
      modifies `compBuff, `compressSequence, buf, buf.cached, net
      ensures Valid() && (fresh(buf.cached) || buf.cached == old(buf.cached))
      ensures ok <==> Open(old(Raw())).Some? && Unpack(zlib.value, Open(old(Raw())).value.body).Some?
      ensures ok ==> var o := Open(old(Raw())).value;
                     && compBuff == old(compBuff) + Unpack(zlib.value, o.body).value
                     && Raw() == o.rest && compressSequence == Next(o.seqNr)
    {
      ghost var raw := Raw();
      var header := ReadRaw(7);
      if header.None? {
        return false;
      }
      var h := header.value;
      var compressed, declared := GetUint24(h[0..3]), GetUint24(h[4..7]);
      compressSequence := Next(h[3]);
      ghost var after := Raw();
      assert raw == h + after;
      var data := ReadRaw(compressed);
      if data.None? {
        return false;
      }
      OpenHeader(raw, h, data.value, Raw());
      var plain := Unpack(zlib.value, Body(data.value, declared));
      ok := plain.Some?;
      if ok {
        compBuff := compBuff + plain.value;
      }
    }

    /** The next `need` bytes through the compression layer, or none if fewer can be had. */
    method CompReadNext(need: nat) returns (data: Option<seq<byte>>)
      requires Valid() && zlib.Some?
      modifies `compBuff, `compressSequence, buf, buf.cached, net
      ensures Valid() && (fresh(buf.cached) || buf.cached == old(buf.cached))
      ensures data.Some? <==> |old(Source())| >= need
      ensures data.Some? ==> |data.value| == need && data.value + Source() == old(Source()) && Due() == old(Due())
    {
      while |compBuff| < need
        invariant Valid() && (fresh(buf.cached) || buf.cached == old(buf.cached))
        invariant Source() == old(Source()) && Due() == old(Due())
        decreases |Raw()|
      {
        ghost var held, raw, expected := compBuff, Raw(), compressSequence;
        var ok := ReadCompressedPacket();
        InflateTurn(zlib.value, held, raw, expected);
        if !ok {
          return None;
        }
      }
      Rejoin(compBuff, need, Inflate(zlib.value, Raw()));
      var d;
      d, compBuff := compBuff[..need], compBuff[need..];
      data := Some(d);
    }

    /** The next `need` bytes packets are read from. */
    method ReadNext(need: nat) returns (data: Option<seq<byte>>)
      requires Valid()
      modifies `compBuff, `compressSequence, buf, buf.cached, net
      ensures Valid() && (fresh(buf.cached) || buf.cached == old(buf.cached))
      ensures data.Some? <==> |old(Source())| >= need
      ensures data.Some? ==> |data.value| == need && data.value + Source() == old(Source()) && Due() == old(Due())
    {
      if zlib.Some? {
        data := CompReadNext(need);
      } else {
        data := ReadRaw(need);
      }
    }

    /** Reads and checks the header of a packet; `r` is set if that ends the payload. */
    method ReadHeader(prev: Option<seq<byte>>, invalid: bool) returns (r: Option<Received>, pktLen: nat, invalid': bool)
      requires Valid()
      modifies `sequence, `compBuff, `compressSequence, buf, buf.cached, net
      ensures Valid() && (fresh(buf.cached) || buf.cached == old(buf.cached))
      ensures var outcome := old(Deframe(M, zlib.Some?, Source(), sequence, prev, invalid));
              if r.None? then
                && pktLen > 0 && |Source()| < |old(Source())|
                && Bodied(M, zlib.Some?, pktLen, Source(), sequence, prev, invalid') == outcome
              else
                Answers(outcome, r.value, Source(), sequence)
      ensures r.None? || r.value.Payload? ==> Due() == old(Due())
    {
      invalid', pktLen := invalid, 0;
      ghost var expected := sequence;
      var header := ReadNext(4);
      if header.None? {
        r := Some(Failed(InvalidConn));
        return;
      }
      HeaderTurn(M, zlib.Some?, header.value, Source(), expected, prev, invalid);
      pktLen := GetUint24(header.value[..3]);
      var seqNr := header.value[3];
      if seqNr != sequence && zlib.None? {
        if |Sofar(prev)| > 0 {
          r := Some(Failed(PktSyncMul));
          return;
        }
        invalid' := true;
      }
      sequence := Next(seqNr);
      r := if pktLen > 0 then None else if prev.None? then Some(Failed(InvalidConn)) else Some(Payload(prev.value));
    }

    /** Reads the body of a packet; either `r` ends the payload, or `all` is what it holds so far. */
    method ReadBody(pktLen: nat, prev: Option<seq<byte>>, invalid: bool) returns (r: Option<Received>, all: seq<byte>)
      requires Valid() && pktLen > 0
      modifies `compBuff, `compressSequence, buf, buf.cached, net
      ensures Valid() && (fresh(buf.cached) || buf.cached == old(buf.cached))
      ensures var outcome := old(Bodied(M, zlib.Some?, pktLen, Source(), sequence, prev, invalid));
              if r.None? then
                && |Source()| < |old(Source())|
                && Deframe(M, zlib.Some?, Source(), sequence, Some(all), invalid) == outcome
              else
                Answers(outcome, r.value, Source(), sequence)
      ensures r.None? || r.value.Payload? ==> Due() == old(Due())
    {
      all := [];
      var body := ReadNext(pktLen);
      if body.None? {
        r := Some(Failed(InvalidConn));
        return;
      }
      BodyTurn(M, zlib.Some?, body.value, Source(), sequence, prev, invalid);
      all := Sofar(prev) + body.value;
      r := if pktLen >= M then None else if invalid && all[0] != ERR_MARKER then Some(Failed(PktSync)) else Some(Payload(all));
    }

    /**
     Reads one payload. What comes of it is what Deframe says of the bytes to come,
     however the network fragmented them.
     */
    method ReadPacket() returns (r: Received)
      requires Valid()
      modifies `sequence, `compBuff, `compressSequence, buf, buf.cached, net
      ensures Valid() && (fresh(buf.cached) || buf.cached == old(buf.cached))
      ensures Answers(Deframe(M, zlib.Some?, old(Source()), old(sequence), None, false), r, Source(), sequence)
      ensures r.Payload? ==> Due() == old(Due())
    {
      var prev: Option<seq<byte>>, invalid, done := None, false, None;
      while done == None
        invariant Valid() && (fresh(buf.cached) || buf.cached == old(buf.cached))
        invariant var outcome := old(Deframe(M, zlib.Some?, Source(), sequence, None, false));
                  if done == None then
                    Deframe(M, zlib.Some?, Source(), sequence, prev, invalid) == outcome
                  else
                    Answers(outcome, done.value, Source(), sequence)
        invariant done == None || done.value.Payload? ==> Due() == old(Due())
        decreases done == None, |Source()|
      {
        var pktLen;
        done, pktLen, invalid := ReadHeader(prev, invalid);
        if done == None {
          var all;
          done, all := ReadBody(pktLen, prev, invalid);
          prev := Some(all);
        }
      }
      r := done.value;
    }

    // ---------------------------------------------------------------- writing

    /** Stamps the header over the seven bytes `compBuff` starts with, and sends it. */
    method WriteCompressedPacket(declared: nat)
      requires |compBuff| >= 7
      modifies `compBuff, `compressSequence, `wire
      ensures wire == old(wire) + Sealed(Body(old(compBuff[7..]), declared), old(compressSequence))
      ensures compressSequence == Next(old(compressSequence))
    {
      var compressed := |compBuff| - 7;
      compBuff := Uint24(compressed) + [compressSequence] + Uint24(declared) + compBuff[7..];
      compressSequence := Next(compressSequence);
      wire := wire + compBuff;
    }

    /** Builds and sends the compressed packet for one chunk. The buffer it is built in is the one reading inflates into. */
    method WriteChunk(payload: seq<byte>)
      requires Valid() && zlib.Some?
      modifies `compBuff, `compressSequence, `wire
      ensures wire == old(wire) + Sealed(Pack(zlib.value, payload), old(compressSequence))
      ensures compressSequence == Next(old(compressSequence))
    {
      var declared := |payload|;
      compBuff := BLANK_HEADER;
      if declared < MIN_COMPRESS_LENGTH {
        compBuff := compBuff + payload;
        declared := 0;
      } else {
        var c := zlib.value.compress(payload);
        if c.Some? {
          compBuff := compBuff + c.value;
        }
        if c.None? || |compBuff| >= declared {
          compBuff := BLANK_HEADER + payload;
          declared := 0;
        }
      }
      assert Body(compBuff[7..], declared) == Pack(zlib.value, payload);
      WriteCompressedPacket(declared);
    }

    /** Sends bytes as compressed packets. */
    method WritePackets(bytes: seq<byte>)
      requires Valid() && zlib.Some?
      modifies `compBuff, `compressSequence, `wire
      ensures wire == old(wire) + Squeeze(zlib.value, M, bytes, old(compressSequence))
      ensures compressSequence == SqueezeSeq(M, bytes, old(compressSequence))
    {
      var z, packets := zlib.value, bytes;
      ghost var all := wire + Squeeze(z, M, bytes, compressSequence);
      ghost var end := SqueezeSeq(M, bytes, compressSequence);
      while packets != []
        invariant wire + Squeeze(z, M, packets, compressSequence) == all
        invariant SqueezeSeq(M, packets, compressSequence) == end
        decreases |packets|
      {
        var n := if M - 4 < |packets| then M - 4 else |packets|;
        SqueezeOn(z, M, wire, packets, compressSequence);
        WriteChunk(packets[..n]);
        packets := packets[n..];
      }
    }

    /** Sends one packet. */
    method WriteFrame(frame: seq<byte>)
      requires Valid()
      modifies `compBuff, `compressSequence, `wire
      ensures wire == old(wire) + Sent(zlib, M, [frame], old(compressSequence))
      ensures compressSequence == SentSeq(zlib, M, [frame], old(compressSequence))
    {
      if zlib.Some? {
        WritePackets(frame);
      } else {
        wire := wire + frame;
      }
    }

    /** Stamps a header over the four bytes of `data` at `off`, and sends it with the `size` bytes after it. */
    method SendStamped(data: array<byte>, off: nat, size: nat)
      requires Valid() && off + 4 + size <= data.Length
      modifies `compBuff, `compressSequence, `wire, `sequence, data
      ensures data[..off] == old(data[..off]) && data[off + 4..] == old(data[off + 4..])
      ensures var f := Frame(old(data[off + 4..off + 4 + size]), old(sequence));
              && wire == old(wire) + Sent(zlib, M, [f], old(compressSequence))
              && compressSequence == SentSeq(zlib, M, [f], old(compressSequence))
      ensures sequence == Next(old(sequence))
    {
      var b := Uint24(size);
      data[off + 2], data[off + 1], data[off] := b[2], b[1], b[0];
      data[off + 3] := sequence;
      assert data[off..off + 4 + size] == Frame(old(data[off + 4..off + 4 + size]), sequence);
      WriteFrame(data[off..off + 4 + size]);
      sequence := Next(sequence);
    }

    /** What is yet to go on the wire for the rest of a payload. */
    ghost function ToSend(todo: seq<byte>): seq<byte>
      requires Valid()
      reads this, buf
    {
      Sent(zlib, M, Frames(M, todo, sequence), compressSequence)
    }

    ghost function CompAfter(todo: seq<byte>): byte
      requires Valid()
      reads this, buf
    {
      SentSeq(zlib, M, Frames(M, todo, sequence), compressSequence)
    }

    /** Sends the next packet of the payload at `off + 4`. */
    method SendNext(data: array<byte>, off: nat, hi: nat) returns (size: nat)
      requires Valid() && off + 4 <= hi <= data.Length
      modifies `compBuff, `compressSequence, `wire, `sequence, data
      ensures size <= M && off + 4 + size <= hi
      ensures forall i | 0 <= i < data.Length && !(off <= i < off + 4) :: data[i] == old(data[i])
      ensures var todo := old(data[off + 4..hi]);
              if size < M then
                wire == old(wire + ToSend(todo)) && compressSequence == old(CompAfter(todo)) && sequence == SeqAfter(M, todo, old(sequence))
              else
                && wire + ToSend(todo[M..]) == old(wire + ToSend(todo))
                && CompAfter(todo[M..]) == old(CompAfter(todo))
                && SeqAfter(M, todo[M..], sequence) == SeqAfter(M, todo, old(sequence))
    {
      size := if M < hi - off - 4 then M else hi - off - 4;
      ghost var todo := data[off + 4..hi];
      ghost var before, first, compFirst := wire, sequence, compressSequence;
      SendStamped(data, off, size);
      assert forall i | 0 <= i < off :: data[i] == data[..off][i];
      assert forall i | off + 4 <= i < data.Length :: data[i] == data[off + 4..][i - off - 4];
      assert todo[..size] == old(data[off + 4..off + 4 + size]);
      if size == M {
        SendFull(zlib, M, todo, first, compFirst);
        Regroup(before, Sent(zlib, M, [Frame(todo[..M], first)], compFirst), ToSend(todo[M..]));
      } else {
        assert todo[..size] == todo;
      }
    }

    /**
     Sends the bytes of `data` from `lo + 4` to `hi` as one payload, the four bytes at `lo` being
     room for a header. Later headers overwrite bytes already sent: what goes on the wire is the
     payload as it was at the start, and of the array only the places where headers go change.
     */
    method WritePacket(data: array<byte>, lo: nat, hi: nat) returns (tooLarge: bool)
      requires Valid() && lo + 4 <= hi <= data.Length
      modifies `compBuff, `compressSequence, `wire, `sequence, data
      ensures tooLarge <==> hi - lo - 4 > maxAllowed
      ensures tooLarge ==> wire == old(wire) && data[..] == old(data[..])
      ensures tooLarge ==> sequence == old(sequence) && compressSequence == old(compressSequence)
      ensures !tooLarge ==> var payload := old(data[lo + 4..hi]);
                            var fs := Frames(M, payload, old(sequence));
                            && wire == old(wire) + Sent(zlib, M, fs, old(compressSequence))
                            && compressSequence == SentSeq(zlib, M, fs, old(compressSequence))
                            && sequence == SeqAfter(M, payload, old(sequence))
      ensures forall i | 0 <= i < data.Length && !(i < hi && Slot(M, lo, i)) :: data[i] == old(data[i])
    {
      if hi - lo - 4 > maxAllowed {
        return true;
      }
      ghost var todo := data[lo + 4..hi];
      ghost var bytes, comp, end := wire + ToSend(todo), CompAfter(todo), SeqAfter(M, todo, sequence);
      var off := lo;
      while true
        invariant Valid()
        invariant lo <= off && off + 4 <= hi && data[off + 4..hi] == todo
        invariant wire + ToSend(todo) == bytes && CompAfter(todo) == comp && SeqAfter(M, todo, sequence) == end
        invariant forall i | off <= i < off + 4 :: Slot(M, lo, i)
        invariant forall i | 0 <= i < data.Length && !(i < hi && Slot(M, lo, i)) :: data[i] == old(data[i])
        decreases hi - off
      {
        var size := SendNext(data, off, hi);
        if size != M {
          return false;
        }
        todo := todo[M..];
        off := off + M;
      }
    }

    // ---------------------------------------------------------------- counters

    method ResetSequence()
      modifies `sequence, `compressSequence
      ensures sequence == 0 && compressSequence == 0
    {
      sequence, compressSequence := 0, 0;
    }

    /** Between writing and reading: drops what writing left in the buffer that reading inflates into. */
    method SyncSequence()
      requires Valid()
      modifies `sequence, `compBuff
      ensures zlib.Some? ==> sequence == compressSequence && Source() == Plain(zlib, Raw())
      ensures zlib.None? ==> sequence == old(sequence) && compBuff == old(compBuff)
    {
      if zlib.Some? {
        sequence, compBuff := compressSequence, [];
        assert Source() == [] + Inflate(zlib.value, Raw());
      }
    }
  }
}
