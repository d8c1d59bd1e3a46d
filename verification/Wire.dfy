/** The byte layout of packets and of compressed packets. */
module Wire {
  // "MySQL Packets", "Sending More Than 16Mb" and "Compressed Packet" of the MySQL Client/Server
  // Protocol. The largest packet size is a parameter M; the driver's value is 2^24 - 1.

  import opened Options

  type byte = x: int | 0 <= x < 256

  const ERR_MARKER: byte := 0xff

  function Low(n: int): byte { n % 256 }

  /** The three bytes putUint24 stores, least significant first. */
  function Uint24(n: nat): (b: seq<byte>)
    ensures |b| == 3
  {
    [Low(n), Low(n / 256), Low(n / 65536)]
  }

  function GetUint24(b: seq<byte>): (n: nat)
    requires |b| == 3
    ensures n < 0x100_0000
  {
    (b[2] as int) * 65536 + (b[1] as int) * 256 + b[0] as int
  }

  lemma TwoDigits(n: nat)
    ensures n % 0x1_0000 == n % 256 + 256 * (n / 256 % 256)
  {
    var q := n / 256;
    assert n == n % 256 + 256 * (q % 256 + 256 * (q / 256));
  }

  lemma ThreeDigits(n: nat)
    ensures n % 0x100_0000 == n % 256 + 256 * (n / 256 % 0x1_0000) && n / 256 / 256 == n / 0x1_0000
  {
    var q := n / 256;
    assert n == n % 256 + 256 * (q % 0x1_0000 + 0x1_0000 * (q / 0x1_0000));
  }

  /** Reading back a stored length gives the length modulo 2^24, so exactly the length when it fits. */
  lemma Uint24RoundTrip(n: nat)
    ensures GetUint24(Uint24(n)) == n % 0x100_0000
  {
    ThreeDigits(n);
    TwoDigits(n / 256);
  }

  /** The number its bytes write, least significant first. */
  function LittleEndian(b: seq<byte>): nat {
    if b == [] then 0 else b[0] as int + 256 * LittleEndian(b[1..])
  }

  lemma LittleEndianMore(b: byte, bs: seq<byte>)
    ensures LittleEndian([b] + bs) == b as int + 256 * LittleEndian(bs)
  {
    assert ([b] + bs)[1..] == bs;
  }

  lemma TwoBytes(n: nat)
    ensures LittleEndian([Low(n), Low(n / 256)]) == n % 0x1_0000
  {
    LittleEndianMore(Low(n / 256), []);
    LittleEndianMore(Low(n), [Low(n / 256)]);
    assert [Low(n)] + [Low(n / 256)] == [Low(n), Low(n / 256)] && [Low(n / 256)] + [] == [Low(n / 256)];
    TwoDigits(n);
  }

  /** The three bytes are the number's in the protocol's order, and read as such. */
  lemma ThreeBytes(n: nat, b: seq<byte>)
    requires |b| == 3
    ensures LittleEndian(Uint24(n)) == n % 0x100_0000 && GetUint24(b) == LittleEndian(b)
  {
    Uint24RoundTrip(n);
    ThreeBytesValue(b);
    ThreeBytesValue(Uint24(n));
  }

  lemma ThreeBytesValue(b: seq<byte>)
    requires |b| == 3
    ensures GetUint24(b) == LittleEndian(b)
  {
    assert b == [b[0]] + ([b[1]] + ([b[2]] + []));
    LittleEndianMore(b[0], [b[1]] + ([b[2]] + []));
    LittleEndianMore(b[1], [b[2]] + []);
    LittleEndianMore(b[2], []);
  }

  lemma Halves(n: nat)
    ensures n % 0x1_0000_0000 == n % 0x1_0000 + 0x1_0000 * ((n / 0x1_0000) % 0x1_0000)
    ensures n / 0x1_0000 / 256 == n / 0x100_0000
  {
    var q := n / 0x1_0000;
    assert n == n % 0x1_0000 + 0x1_0000 * (q % 0x1_0000 + 0x1_0000 * (q / 0x1_0000));
  }

  lemma LowAndHigh(a: byte, b: byte, c: byte, d: byte)
    ensures LittleEndian([a, b, c, d]) == LittleEndian([a, b]) + 0x1_0000 * LittleEndian([c, d])
  {
    assert [a, b, c, d] == [a] + ([b] + [c, d]) && [a, b] == [a] + ([b] + []);
    LittleEndianMore(a, [b] + [c, d]);
    LittleEndianMore(b, [c, d]);
    LittleEndianMore(a, [b] + []);
    LittleEndianMore(b, []);
  }

  lemma FourBytes(n: nat)
    ensures LittleEndian([Low(n), Low(n / 256), Low(n / 65536), Low(n / 0x100_0000)]) == n % 0x1_0000_0000
  {
    Halves(n);
    TwoBytes(n);
    TwoBytes(n / 0x1_0000);
    LowAndHigh(Low(n), Low(n / 256), Low(n / 65536), Low(n / 0x100_0000));
  }

  function Next(seqNr: byte): byte {
    (seqNr + 1) % 256
  }

  // ------------------------------------------------------------------ packets

  /** One packet on the wire: length, sequence number, body. */
  function Frame(body: seq<byte>, seqNr: byte): seq<byte> {
    Uint24(|body|) + [seqNr] + body
  }

  /** The packets a payload is split into: full ones, then one shorter than M, possibly empty. */
  function Frames(M: nat, payload: seq<byte>, seqNr: byte): (fs: seq<seq<byte>>)
    requires M > 0
    ensures |fs| > 0
    decreases |payload|
  {
    if |payload| < M then [Frame(payload, seqNr)]
    else [Frame(payload[..M], seqNr)] + Frames(M, payload[M..], Next(seqNr))
  }

  /** The sequence number after a payload was sent. */
  function SeqAfter(M: nat, payload: seq<byte>, seqNr: byte): byte
    requires M > 0
    decreases |payload|
  {
    if |payload| < M then Next(seqNr) else SeqAfter(M, payload[M..], Next(seqNr))
  }

  function Concat(fs: seq<seq<byte>>): seq<byte> {
    if fs == [] then [] else fs[0] + Concat(fs[1..])
  }

  datatype Error = InvalidConn | PktSync | PktSyncMul

  /** What reading one payload from a byte source comes to. */
  datatype Outcome = Packet(data: seq<byte>, rest: seq<byte>, next: byte) | Broken(error: Error)

  function Sofar(prev: Option<seq<byte>>): seq<byte> {
    if prev.Some? then prev.value else []
  }

  /**
   Reads packets from `src` until one shorter than M ends the payload. `prev` holds
   the bodies of the full packets before it, `invalid` whether a sequence number
   was wrong; on a compressed connection sequence numbers are not checked.
   */
  function Deframe(M: nat, compressed: bool, src: seq<byte>, seqNr: byte, prev: Option<seq<byte>>, invalid: bool): Outcome
    requires M > 0
    decreases |src|
  {
    if |src| < 4 then Broken(InvalidConn)
    else Headed(M, compressed, src[..4], src[4..], seqNr, prev, invalid)
  }

  /** The same, once the header of the next packet was read. */
  function Headed(M: nat, compressed: bool, header: seq<byte>, body: seq<byte>, seqNr: byte, prev: Option<seq<byte>>, invalid: bool): Outcome
    requires M > 0 && |header| == 4
    decreases |body|, 1
  {
    var len, got := GetUint24(header[..3]), header[3];
    var wrong := got != seqNr && !compressed;
    if wrong && |Sofar(prev)| > 0 then Broken(PktSyncMul)
    else if len == 0 then
      if prev.None? then Broken(InvalidConn) else Packet(prev.value, body, Next(got))
    else Bodied(M, compressed, len, body, Next(got), prev, invalid || wrong)
  }

  /** The same, once it is clear that a body of `len` bytes is to come. */
  function Bodied(M: nat, compressed: bool, len: nat, body: seq<byte>, next: byte, prev: Option<seq<byte>>, invalid: bool): Outcome
    requires M > 0 && len > 0
    decreases |body|, 0
  {
    if |body| < len then Broken(InvalidConn)
    else if len < M then Last(Sofar(prev) + body[..len], body[len..], next, invalid)
    else Deframe(M, compressed, body[len..], next, Some(Sofar(prev) + body[..len]), invalid)
  }

  /** A payload out of sequence is an error unless it is an error message of the server. */
  function Last(data: seq<byte>, rest: seq<byte>, next: byte, invalid: bool): Outcome
    requires data != []
  {
    if invalid && data[0] != ERR_MARKER then Broken(PktSync) else Packet(data, rest, next)
  }

  lemma HeaderTurn(M: nat, compressed: bool, header: seq<byte>, body: seq<byte>, seqNr: byte, prev: Option<seq<byte>>, invalid: bool)
    requires M > 0 && |header| == 4
    ensures Deframe(M, compressed, header + body, seqNr, prev, invalid)
         == Headed(M, compressed, header, body, seqNr, prev, invalid)
  {
    assert (header + body)[..4] == header && (header + body)[4..] == body;
  }

  /** What becomes of a packet whose body was read whole. */
  lemma BodyTurn(M: nat, compressed: bool, data: seq<byte>, rest: seq<byte>, next: byte, prev: Option<seq<byte>>, invalid: bool)
    requires M > 0 && data != []
    ensures Bodied(M, compressed, |data|, data + rest, next, prev, invalid)
         == if |data| < M then Last(Sofar(prev) + data, rest, next, invalid)
            else Deframe(M, compressed, rest, next, Some(Sofar(prev) + data), invalid)
  {
    assert (data + rest)[..|data|] == data && (data + rest)[|data|..] == rest;
  }

  /** The header of a packet. */
  function Header(len: nat, seqNr: byte): (h: seq<byte>)
    ensures |h| == 4
  {
    Uint24(len) + [seqNr]
  }

  lemma FrameSplit(body: seq<byte>, seqNr: byte, rest: seq<byte>)
    requires |body| < 0x100_0000
    ensures Frame(body, seqNr) + rest == Header(|body|, seqNr) + (body + rest)
    ensures GetUint24(Header(|body|, seqNr)[..3]) == |body| && Header(|body|, seqNr)[3] == seqNr
  {
    Uint24RoundTrip(|body|);
    assert Header(|body|, seqNr)[..3] == Uint24(|body|);
  }

  /** A packet is the length of its body in three bytes, the sequence number and the body. */
  lemma FrameLayout(body: seq<byte>, seqNr: byte)
    requires |body| < 0x100_0000
    ensures |Frame(body, seqNr)| == 4 + |body|
    ensures var f := Frame(body, seqNr); LittleEndian(f[..3]) == |body| && f[3] == seqNr && f[4..] == body
  {
    var f := Frame(body, seqNr);
    ThreeBytes(|body|, Uint24(|body|));
    assert f[..3] == Uint24(|body|);
  }

  lemma ConcatOne(f: seq<byte>)
    ensures Concat([f]) == f
  {
    assert Concat([f]) == f + [];
  }

  /** The bytes of a payload on the wire. */
  function Framed(M: nat, payload: seq<byte>, seqNr: byte): seq<byte>
    requires M > 0
  {
    Concat(Frames(M, payload, seqNr))
  }

  lemma FramedShort(M: nat, payload: seq<byte>, seqNr: byte)
    requires |payload| < M
    ensures Framed(M, payload, seqNr) == Frame(payload, seqNr)
  {
    ConcatOne(Frame(payload, seqNr));
  }

  lemma FramedLong(M: nat, payload: seq<byte>, seqNr: byte)
    requires 0 < M <= |payload|
    ensures Framed(M, payload, seqNr) == Frame(payload[..M], seqNr) + Framed(M, payload[M..], Next(seqNr))
  {
    assert Frames(M, payload, seqNr)[1..] == Frames(M, payload[M..], Next(seqNr));
  }

  /** Reading the last packet of a payload. */
  lemma ReadLast(M: nat, compressed: bool, body: seq<byte>, got: byte, rest: seq<byte>, seqNr: byte, prev: Option<seq<byte>>, invalid: bool)
    requires |body| < M < 0x100_0000 && (body != [] || prev.Some?)
    requires compressed || got == seqNr || Sofar(prev) == []
    ensures Deframe(M, compressed, Frame(body, got) + rest, seqNr, prev, invalid)
         == if body == [] then Packet(Sofar(prev), rest, Next(got))
            else Last(Sofar(prev) + body, rest, Next(got), invalid || (got != seqNr && !compressed))
  {
    FrameSplit(body, got, rest);
    HeaderTurn(M, compressed, Header(|body|, got), body + rest, seqNr, prev, invalid);
    if body == [] {
      assert body + rest == rest;
    } else {
      BodyTurn(M, compressed, body, rest, Next(got), prev, invalid || (got != seqNr && !compressed));
    }
  }

  /** Reading a full packet: the payload goes on. */
  lemma ReadFull(M: nat, compressed: bool, body: seq<byte>, got: byte, rest: seq<byte>, seqNr: byte, prev: Option<seq<byte>>, invalid: bool)
    requires 0 < |body| == M < 0x100_0000
    requires compressed || got == seqNr || Sofar(prev) == []
    ensures Deframe(M, compressed, Frame(body, got) + rest, seqNr, prev, invalid)
         == Deframe(M, compressed, rest, Next(got), Some(Sofar(prev) + body), invalid || (got != seqNr && !compressed))
  {
    FrameSplit(body, got, rest);
    HeaderTurn(M, compressed, Header(|body|, got), body + rest, seqNr, prev, invalid);
    BodyTurn(M, compressed, body, rest, Next(got), prev, invalid || (got != seqNr && !compressed));
  }

  /** The last packet of the payload is empty: its length is a multiple of M. */
  predicate EndsEmpty(M: nat, payload: seq<byte>)
    requires M > 0
    decreases |payload|
  {
    if |payload| < M then payload == [] else EndsEmpty(M, payload[M..])
  }

  /** Reading the packets of a payload, the first of which has sequence number `got` where `seqNr` was expected. */
  lemma {:induction false} FramesRead(M: nat, compressed: bool, payload: seq<byte>, got: byte, rest: seq<byte>, seqNr: byte, prev: Option<seq<byte>>, invalid: bool)
    requires 0 < M < 0x100_0000 && (payload != [] || prev.Some?)
    requires compressed || got == seqNr || Sofar(prev) == []
    ensures Deframe(M, compressed, Framed(M, payload, got) + rest, seqNr, prev, invalid)
         == if EndsEmpty(M, payload) then Packet(Sofar(prev) + payload, rest, SeqAfter(M, payload, got))
            else Last(Sofar(prev) + payload, rest, SeqAfter(M, payload, got), invalid || (got != seqNr && !compressed))
    decreases |payload|
  {
    if |payload| < M {
      FramedShort(M, payload, got);
      ReadLast(M, compressed, payload, got, rest, seqNr, prev, invalid);
      assert payload == [] ==> Sofar(prev) + payload == Sofar(prev);
    } else {
      var body, more, wrong := payload[..M], payload[M..], invalid || (got != seqNr && !compressed);
      FramedLong(M, payload, got);
      assert Framed(M, payload, got) + rest == Frame(body, got) + (Framed(M, more, Next(got)) + rest);
      ReadFull(M, compressed, body, got, Framed(M, more, Next(got)) + rest, seqNr, prev, invalid);
      FramesRead(M, compressed, more, Next(got), rest, Next(got), Some(Sofar(prev) + body), wrong);
      assert Sofar(prev) + body + more == Sofar(prev) + payload;
    }
  }

  /** How many packets a payload of `n` bytes takes. */
  function PacketCount(M: nat, n: nat): (k: nat)
    requires M > 0
    ensures k > 0
  {
    if n < M then 1 else 1 + PacketCount(M, n - M)
  }

  /** The packets of a payload with any sequence numbers. */
  function Numbered(M: nat, payload: seq<byte>, nums: seq<byte>): seq<byte>
    requires M > 0 && |nums| == PacketCount(M, |payload|)
    decreases |payload|
  {
    if |payload| < M then Frame(payload, nums[0])
    else
      Frame(payload[..M], nums[0]) + Numbered(M, payload[M..], nums[1..])
  }

  /** Each number follows the one before it. */
  predicate Steps(nums: seq<byte>) {
    forall i :: 0 < i < |nums| ==> nums[i] == Next(nums[i - 1])
  }

  lemma StepsMore(nums: seq<byte>)
    requires |nums| > 1
    ensures Steps(nums) <==> nums[1] == Next(nums[0]) && Steps(nums[1..])
  {
    if nums[1] == Next(nums[0]) && Steps(nums[1..]) {
      forall i | 0 < i < |nums| ensures nums[i] == Next(nums[i - 1]) {
        if i > 1 {
          assert nums[1..][i - 1] == Next(nums[1..][i - 1 - 1]);
        }
      }
    }
    if Steps(nums) {
      forall i | 0 < i < |nums[1..]| ensures nums[1..][i] == Next(nums[1..][i - 1]) {
        assert nums[i + 1] == Next(nums[i + 1 - 1]);
      }
    }
  }

  /** A later packet out of step on an uncompressed connection. */
  lemma ReadWrong(M: nat, body: seq<byte>, got: byte, rest: seq<byte>, seqNr: byte, prev: Option<seq<byte>>, invalid: bool)
    requires M > 0 && |body| < 0x100_0000 && Sofar(prev) != [] && got != seqNr
    ensures Deframe(M, false, Frame(body, got) + rest, seqNr, prev, invalid) == Broken(PktSyncMul)
  {
    FrameSplit(body, got, rest);
    HeaderTurn(M, false, Header(|body|, got), body + rest, seqNr, prev, invalid);
  }

  /** Whatever becomes of a payload whose packets bear the numbers `nums`. */
  ghost function NumberedOutcome(M: nat, compressed: bool, payload: seq<byte>, nums: seq<byte>, rest: seq<byte>, seqNr: byte,
                                 prev: Option<seq<byte>>, invalid: bool): Outcome
    requires M > 0 && nums != [] && (payload != [] || prev.Some?)
  {
    var all, next := Sofar(prev) + payload, Next(nums[|nums| - 1]);
    if !compressed && (!Steps(nums) || (Sofar(prev) != [] && nums[0] != seqNr)) then Broken(PktSyncMul)
    else if EndsEmpty(M, payload) then Packet(all, rest, next)
    else if all == [] then Broken(InvalidConn)
    else Last(all, rest, next, invalid || (nums[0] != seqNr && !compressed))
  }

  /**
   Reading a payload's packets, whatever their sequence numbers are: on a compressed connection they do not matter; on
   an uncompressed one a later packet out of step is refused at once, whatever it holds, and a first one out of step as
   OutOfStepRefused says.
   */
  lemma {:induction false} NumberedRead(M: nat, compressed: bool, payload: seq<byte>, nums: seq<byte>, rest: seq<byte>, seqNr: byte,
                                        prev: Option<seq<byte>>, invalid: bool)
    requires 0 < M < 0x100_0000 && (payload != [] || (prev.Some? && Sofar(prev) != [])) && |nums| == PacketCount(M, |payload|)
    ensures Deframe(M, compressed, Numbered(M, payload, nums) + rest, seqNr, prev, invalid)
         == NumberedOutcome(M, compressed, payload, nums, rest, seqNr, prev, invalid)
    decreases |payload|
  {
    if |payload| < M {
      assert Steps(nums);
      if !compressed && Sofar(prev) != [] && nums[0] != seqNr {
        ReadWrong(M, payload, nums[0], rest, seqNr, prev, invalid);
      } else {
        ReadLast(M, compressed, payload, nums[0], rest, seqNr, prev, invalid);
        assert payload == [] ==> Sofar(prev) + payload == Sofar(prev);
      }
    } else {
      var body, more := payload[..M], payload[M..];
      var tail := Numbered(M, more, nums[1..]) + rest;
      assert Numbered(M, payload, nums) + rest == Frame(body, nums[0]) + tail;
      if !compressed && Sofar(prev) != [] && nums[0] != seqNr {
        ReadWrong(M, body, nums[0], tail, seqNr, prev, invalid);
      } else {
        ReadFull(M, compressed, body, nums[0], tail, seqNr, prev, invalid);
        NumberedRead(M, compressed, more, nums[1..], rest, Next(nums[0]), Some(Sofar(prev) + body), invalid || (nums[0] != seqNr && !compressed));
        NumberedTurn(M, compressed, payload, nums, rest, seqNr, prev, invalid);
      }
    }
  }

  /** What becomes of a payload is what becomes of it after its first packet, unless that is refused. */
  lemma NumberedTurn(M: nat, compressed: bool, payload: seq<byte>, nums: seq<byte>, rest: seq<byte>, seqNr: byte, prev: Option<seq<byte>>, invalid: bool)
    requires 0 < M <= |payload| && |nums| > 1 && (compressed || Sofar(prev) == [] || nums[0] == seqNr)
    ensures NumberedOutcome(M, compressed, payload, nums, rest, seqNr, prev, invalid)
         == NumberedOutcome(M, compressed, payload[M..], nums[1..], rest, Next(nums[0]), Some(Sofar(prev) + payload[..M]),
                            invalid || (nums[0] != seqNr && !compressed))
  {
    StepsMore(nums);
    assert Sofar(prev) + payload[..M] + payload[M..] == Sofar(prev) + payload;
    assert nums[1..][|nums[1..]| - 1] == nums[|nums| - 1];
  }

  /** Reading back the packets of a payload gives the payload, and both ends agree on the next sequence number. */
  lemma FramesReadBack(M: nat, compressed: bool, payload: seq<byte>, seqNr: byte, rest: seq<byte>)
    requires 0 < M < 0x100_0000 && payload != []
    ensures Deframe(M, compressed, Framed(M, payload, seqNr) + rest, seqNr, None, false)
         == Packet(payload, rest, SeqAfter(M, payload, seqNr))
  {
    FramesRead(M, compressed, payload, seqNr, rest, seqNr, None, false);
    assert [] + payload == payload;
  }

  /**
   A payload that starts out of step on an uncompressed connection is refused, unless it is an
   error message, or its length is a multiple of M: the empty packet that ends it skips the check.
   */
  lemma OutOfStepRefused(M: nat, payload: seq<byte>, got: byte, seqNr: byte, rest: seq<byte>)
    requires 0 < M < 0x100_0000 && payload != [] && got != seqNr
    ensures (Deframe(M, false, Framed(M, payload, got) + rest, seqNr, None, false) == Broken(PktSync))
       <==> (payload[0] != ERR_MARKER && !EndsEmpty(M, payload))
    ensures payload[0] == ERR_MARKER || EndsEmpty(M, payload)
       ==> Deframe(M, false, Framed(M, payload, got) + rest, seqNr, None, false) == Packet(payload, rest, SeqAfter(M, payload, got))
  {
    FramesRead(M, false, payload, got, rest, seqNr, None, false);
    assert [] + payload == payload;
  }

  /** A payload of no bytes is one empty packet, which the reader refuses. */
  lemma EmptyPayloadRefused(M: nat, compressed: bool, seqNr: byte, rest: seq<byte>)
    requires M > 0
    ensures Deframe(M, compressed, Framed(M, [], seqNr) + rest, seqNr, None, false) == Broken(InvalidConn)
  {
    FramedShort(M, [], seqNr);
    FrameSplit([], seqNr, rest);
    HeaderTurn(M, compressed, Header(0, seqNr), [] + rest, seqNr, None, false);
  }

  lemma Distribute(k: int, m: int)
    ensures (k + 1) * m == k * m + m
  {
  }

  lemma NextAdds(s: byte, k: nat)
    ensures (Next(s) + k) % 256 == (s + (k + 1)) % 256
  {
  }

  lemma FramesLong(M: nat, payload: seq<byte>, seqNr: byte)
    requires 0 < M <= |payload|
    ensures |Frames(M, payload, seqNr)| == 1 + |Frames(M, payload[M..], Next(seqNr))|
  {
  }

  /** A payload takes one packet more than the full ones in it, and each advances the sequence number, modulo 256. */
  lemma {:induction false} SeqAdvance(M: nat, payload: seq<byte>, seqNr: byte, k: nat)
    requires M > 0 && k + 1 == |Frames(M, payload, seqNr)|
    ensures k * M <= |payload| < (k + 1) * M
    ensures SeqAfter(M, payload, seqNr) == (seqNr + (k + 1)) % 256
    decreases |payload|
  {
    if |payload| >= M {
      FramesLong(M, payload, seqNr);
      SeqAdvance(M, payload[M..], Next(seqNr), k - 1);
      NextAdds(seqNr, k);
      Distribute(k - 1, M);
    }
    Distribute(k, M);
  }
}
