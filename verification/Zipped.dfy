/** The compression layer. */
module Zipped {
  // Packets are cut into chunks of at most M - 4 bytes, each sent as one compressed packet with a
  // seven-byte header, deflated or stored.

  import opened Options
  import opened Wire

  const MIN_COMPRESS_LENGTH := 150

  /** The compressor and decompressor; either may fail. */
  datatype Zlib = Zlib(compress: seq<byte> -> Option<seq<byte>>, decompress: seq<byte> -> Option<seq<byte>>)

  /** The one law assumed of them: decompressing what was compressed gives it back. */
  ghost predicate Inverse(z: Zlib) {
    forall d :: z.compress(d).Some? ==> z.decompress(z.compress(d).value) == Some(d)
  }

  /** What is sent for one chunk, and the uncompressed length declared for it: zero when it is stored. */
  datatype Body = Body(data: seq<byte>, declared: nat)

  /** A short chunk is stored, and so is one that deflates to no more than seven bytes less, or not at all. */
  function Pack(z: Zlib, chunk: seq<byte>): Body {
    if |chunk| < MIN_COMPRESS_LENGTH then Body(chunk, 0)
    else
      var c := z.compress(chunk);
      if c.None? || 7 + |c.value| >= |chunk| then Body(chunk, 0) else Body(c.value, |chunk|)
  }

  /** What one received compressed packet carries, if it is well formed. */
  function Unpack(z: Zlib, b: Body): Option<seq<byte>> {
    if b.declared == 0 then Some(b.data)
    else
      var d := z.decompress(b.data);
      if d.Some? && |d.value| == b.declared then d else None
  }

  lemma PackUnpack(z: Zlib, chunk: seq<byte>)
    requires Inverse(z)
    ensures Unpack(z, Pack(z, chunk)) == Some(chunk)
    ensures |Pack(z, chunk).data| <= |chunk| && Pack(z, chunk).declared <= |chunk|
  {
  }

  /** The compressed packet on the wire. */
  function Sealed(b: Body, seqNr: byte): seq<byte> {
    Uint24(|b.data|) + [seqNr] + Uint24(b.declared) + b.data
  }

  /** The size of the first chunk of `bytes`. */
  function ChunkLen(M: nat, bytes: seq<byte>): (n: nat)
    requires M > 4
    ensures n <= |bytes| && (bytes != [] ==> n > 0)
  {
    if |bytes| < M - 4 then |bytes| else M - 4
  }

  /** The compressed packets for `bytes`. */
  function Squeeze(z: Zlib, M: nat, bytes: seq<byte>, seqNr: byte): seq<byte>
    requires M > 4
    decreases |bytes|
  {
    if bytes == [] then []
    else
      var n := ChunkLen(M, bytes);
      Sealed(Pack(z, bytes[..n]), seqNr) + Squeeze(z, M, bytes[n..], Next(seqNr))
  }

  function SqueezeSeq(M: nat, bytes: seq<byte>, seqNr: byte): byte
    requires M > 4
    decreases |bytes|
  {
    if bytes == [] then seqNr else SqueezeSeq(M, bytes[ChunkLen(M, bytes)..], Next(seqNr))
  }

  /** One compressed packet read off the front of `raw`: its sequence number, its body and what follows. */
  datatype Opened = Opened(seqNr: byte, body: Body, rest: seq<byte>)

  function Open(raw: seq<byte>): (o: Option<Opened>)
    ensures o.Some? ==> |o.value.rest| < |raw|
  {
    if |raw| < 7 then None
    else
      var n := GetUint24(raw[..3]);
      if |raw| - 7 < n then None
      else Some(Opened(raw[3], Body(raw[7..7 + n], GetUint24(raw[4..7])), raw[7 + n..]))
  }

  /** All the bytes that can be read through the compression layer from `raw`. */
  function Inflate(z: Zlib, raw: seq<byte>): seq<byte>
    decreases |raw|
  {
    var o := Open(raw);
    if o.None? || Unpack(z, o.value.body).None? then []
    else Unpack(z, o.value.body).value + Inflate(z, o.value.rest)
  }

  /** The compressed sequence number expected once every whole compressed packet of `raw` was read. */
  function FinalSeq(raw: seq<byte>, seqNr: byte): byte
    decreases |raw|
  {
    var o := Open(raw);
    if o.None? then seqNr else FinalSeq(o.value.rest, Next(o.value.seqNr))
  }

  /** A compressed packet is the length of what it carries, the sequence number, the length before compression or zero, and the body. */
  lemma SealedLayout(b: Body, seqNr: byte)
    requires |b.data| < 0x100_0000 && b.declared < 0x100_0000
    ensures |Sealed(b, seqNr)| == 7 + |b.data|
    ensures var f := Sealed(b, seqNr);
            LittleEndian(f[..3]) == |b.data| && f[3] == seqNr && LittleEndian(f[4..7]) == b.declared && f[7..] == b.data
  {
    var f := Sealed(b, seqNr);
    ThreeBytes(|b.data|, Uint24(|b.data|));
    ThreeBytes(b.declared, Uint24(b.declared));
    assert f[..3] == Uint24(|b.data|) && f[4..7] == Uint24(b.declared);
  }

  /** A sealed body is read back whole, both its lengths fitting their three bytes. */
  lemma OpenSealed(b: Body, seqNr: byte, rest: seq<byte>)
    requires |b.data| < 0x100_0000 && b.declared < 0x100_0000
    ensures Open(Sealed(b, seqNr) + rest) == Some(Opened(seqNr, b, rest))
  {
    var raw := Sealed(b, seqNr) + rest;
    Uint24RoundTrip(|b.data|);
    Uint24RoundTrip(b.declared);
    assert raw[..3] == Uint24(|b.data|);
    assert raw[4..7] == Uint24(b.declared);
    assert raw[7..7 + |b.data|] == b.data;
    assert raw[7 + |b.data|..] == rest;
  }

  lemma Rejoin(s: seq<byte>, n: nat, t: seq<byte>)
    requires n <= |s|
    ensures s[..n] + (s[n..] + t) == s + t
  {
  }

  lemma InflateSealed(z: Zlib, chunk: seq<byte>, seqNr: byte, rest: seq<byte>)
    requires Inverse(z) && |chunk| < 0x100_0000
    ensures Inflate(z, Sealed(Pack(z, chunk), seqNr) + rest) == chunk + Inflate(z, rest)
    ensures FinalSeq(Sealed(Pack(z, chunk), seqNr) + rest, seqNr) == FinalSeq(rest, Next(seqNr))
  {
    PackUnpack(z, chunk);
    OpenSealed(Pack(z, chunk), seqNr, rest);
  }

  lemma SqueezeStep(z: Zlib, M: nat, bytes: seq<byte>, seqNr: byte, rest: seq<byte>)
    requires M > 4 && bytes != []
    ensures var n := ChunkLen(M, bytes);
            var more := Squeeze(z, M, bytes[n..], Next(seqNr)) + rest;
            Squeeze(z, M, bytes, seqNr) + rest == Sealed(Pack(z, bytes[..n]), seqNr) + more
  {
  }

  /**
   Compression is transparent: reading what was written gives the bytes written,
   whatever the number of chunks and whichever of them were stored.
   */
  lemma {:induction false} SqueezeInflates(z: Zlib, M: nat, bytes: seq<byte>, seqNr: byte, rest: seq<byte>)
    requires Inverse(z) && 4 < M < 0x100_0000
    ensures Inflate(z, Squeeze(z, M, bytes, seqNr) + rest) == bytes + Inflate(z, rest)
    ensures FinalSeq(Squeeze(z, M, bytes, seqNr) + rest, seqNr) == FinalSeq(rest, SqueezeSeq(M, bytes, seqNr))
    decreases |bytes|
  {
    if bytes == [] {
      assert Squeeze(z, M, bytes, seqNr) + rest == rest;
    } else {
      var n := ChunkLen(M, bytes);
      SqueezeStep(z, M, bytes, seqNr, rest);
      InflateSealed(z, bytes[..n], seqNr, Squeeze(z, M, bytes[n..], Next(seqNr)) + rest);
      SqueezeInflates(z, M, bytes[n..], Next(seqNr), rest);
      Rejoin(bytes, n, Inflate(z, rest));
    }
  }

  // ------------------------------------- packets sent over either kind of connection

  /** What goes on the wire when the packets `fs` are written one by one. */
  function Sent(z: Option<Zlib>, M: nat, fs: seq<seq<byte>>, seqNr: byte): seq<byte>
    requires M > 0 && (z.Some? ==> M > 4)
  {
    if fs == [] then []
    else if z.None? then fs[0] + Sent(z, M, fs[1..], seqNr)
    else Squeeze(z.value, M, fs[0], seqNr) + Sent(z, M, fs[1..], SqueezeSeq(M, fs[0], seqNr))
  }

  /** The compressed sequence number after writing them. */
  function SentSeq(z: Option<Zlib>, M: nat, fs: seq<seq<byte>>, seqNr: byte): byte
    requires M > 0 && (z.Some? ==> M > 4)
  {
    if fs == [] then seqNr
    else SentSeq(z, M, fs[1..], if z.None? then seqNr else SqueezeSeq(M, fs[0], seqNr))
  }

  /** The bytes that can be read as packets from `raw`. */
  function Plain(z: Option<Zlib>, raw: seq<byte>): seq<byte> {
    if z.None? then raw else Inflate(z.value, raw)
  }

  lemma SentStep(z: Option<Zlib>, M: nat, fs: seq<seq<byte>>, seqNr: byte, rest: seq<byte>)
    requires fs != [] && M > 0 && (z.Some? ==> M > 4)
    ensures Sent(z, M, fs, seqNr) + rest
         == if z.None? then fs[0] + (Sent(z, M, fs[1..], seqNr) + rest)
            else Squeeze(z.value, M, fs[0], seqNr) + (Sent(z, M, fs[1..], SqueezeSeq(M, fs[0], seqNr)) + rest)
  {
  }

  lemma ConcatStep(fs: seq<seq<byte>>, t: seq<byte>)
    requires fs != []
    ensures Concat(fs) + t == fs[0] + (Concat(fs[1..]) + t)
  {
  }

  /** The reader sees exactly the packets that were written, with or without compression. */
  lemma {:induction false} SentIsPlain(z: Option<Zlib>, M: nat, fs: seq<seq<byte>>, seqNr: byte, rest: seq<byte>)
    requires z.Some? ==> Inverse(z.value) && 4 < M
    requires 0 < M < 0x100_0000
    ensures Plain(z, Sent(z, M, fs, seqNr) + rest) == Concat(fs) + Plain(z, rest)
    ensures z.Some? ==> FinalSeq(Sent(z, M, fs, seqNr) + rest, seqNr) == FinalSeq(rest, SentSeq(z, M, fs, seqNr))
  {
    if fs == [] {
      assert Sent(z, M, fs, seqNr) + rest == rest;
    } else {
      var next := if z.None? then seqNr else SqueezeSeq(M, fs[0], seqNr);
      SentIsPlain(z, M, fs[1..], next, rest);
      SentStep(z, M, fs, seqNr, rest);
      if z.Some? {
        SqueezeInflates(z.value, M, fs[0], seqNr, Sent(z, M, fs[1..], next) + rest);
      }
      ConcatStep(fs, Plain(z, rest));
    }
  }

  /**
   The packet round trip: reading what is sent for a payload of at least one byte gives
   that payload and leaves what follows it, and the sequence numbers of both ends agree.
   */
  lemma PacketRoundTrip(z: Option<Zlib>, M: nat, payload: seq<byte>, seqNr: byte, compSeq: byte, rest: seq<byte>)
    requires z.Some? ==> Inverse(z.value) && 4 < M
    requires 0 < M < 0x100_0000 && payload != []
    ensures var fs := Frames(M, payload, seqNr);
            var raw := Sent(z, M, fs, compSeq) + rest;
            && Deframe(M, z.Some?, Plain(z, raw), seqNr, None, false)
               == Packet(payload, Plain(z, rest), SeqAfter(M, payload, seqNr))
            && (z.Some? ==> FinalSeq(raw, compSeq) == FinalSeq(rest, SentSeq(z, M, fs, compSeq)))
  {
    SentIsPlain(z, M, Frames(M, payload, seqNr), compSeq, rest);
    FramesReadBack(M, z.Some?, payload, seqNr, Plain(z, rest));
  }
}
