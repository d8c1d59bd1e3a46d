/** Both ends of a connection together. */
module Transfer {
  import opened Options
  import opened Wire
  import opened Buffer
  import opened Zipped
  import opened Conn

  /** A connection on which `bytes` arrive in pieces, expecting the given sequence numbers, reads one payload. */
  method Receive(M: nat, zlib: Option<Zlib>, seqNr: byte, compSeq: byte, bytes: seq<byte>, script: seq<Cut>)
    returns (c: Connection, r: Received)
    requires 0 < M < 0x100_0000 && (zlib.Some? ==> M > 4)
    ensures c.Valid()
    ensures Answers(Deframe(M, zlib.Some?, Plain(zlib, bytes), seqNr, None, false), r, c.Source(), c.sequence)
    ensures r.Payload? && zlib.Some? ==> c.Due() == FinalSeq(bytes, compSeq)
  {
    var net := new Stream(bytes, script);
    c := new Connection(M, 0, zlib, net, seqNr, compSeq);
    r := c.ReadPacket();
  }

  /**
   One end writes a payload, the other reads what arrives, in whatever pieces and with
   whatever follows: it gets the payload, and the counters of both ends agree.
   */
  method Transfer(sender: Connection, data: array<byte>, script: seq<Cut>, more: seq<byte>)
    returns (receiver: Connection, r: Received)
    requires sender.Valid() && (sender.zlib.Some? ==> Inverse(sender.zlib.value))
    requires 4 < data.Length <= sender.maxAllowed + 4
    modifies sender`sequence, sender`compressSequence, sender`compBuff, sender`wire, data
    ensures receiver.Valid() && r == Payload(old(data[4..])) && receiver.sequence == sender.sequence
    ensures receiver.Source() == Plain(sender.zlib, more)
    ensures sender.zlib.Some? ==> receiver.Due() == FinalSeq(more, sender.compressSequence)
  {
    ghost var payload := data[4..];
    assert payload == data[4..data.Length];
    var seqNr, compSeq, before := sender.sequence, sender.compressSequence, sender.wire;
    ghost var sent := Sent(sender.zlib, sender.M, Frames(sender.M, payload, seqNr), compSeq);
    var tooLarge := sender.WritePacket(data, 0, data.Length);
    assert (before + sent)[|before|..] == sent;
    PacketRoundTrip(sender.zlib, sender.M, payload, seqNr, compSeq, more);
    receiver, r := Receive(sender.M, sender.zlib, seqNr, compSeq, sender.wire[|before|..] + more, script);
  }
}
