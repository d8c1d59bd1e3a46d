/** The network side of a connection and the read buffer that is filled from it. */
module Buffer {
  import opened Wire

  const DEFAULT_BUF_SIZE := 4096
  const MAX_CACHED_BUF_SIZE := 262144

  /** How one read of the network goes: at most `size` bytes, and whether the last bytes come with end-of-stream. */
  datatype Cut = Cut(size: nat, eofWithData: bool)

  /**
   A peer that will still send `rest`. `cuts` is an arbitrary script of how its
   next reads are fragmented (a read may deliver nothing); after that, every
   read delivers as much as it can, or end-of-stream once nothing is left.
   */
  class Stream {
    var rest: seq<byte>
    var cuts: seq<Cut>

    constructor (bytes: seq<byte>, script: seq<Cut>)
      ensures rest == bytes && cuts == script
    {
      rest, cuts := bytes, script;
    }

    method Read(dest: array<byte>, from: nat) returns (n: nat, eof: bool)
      requires from < dest.Length
      modifies this, dest
      ensures from + n <= dest.Length
      ensures dest[..from] == old(dest[..from])
      ensures dest[from..from + n] + rest == old(rest)
      ensures eof ==> rest == []
      ensures !eof ==> |cuts| < |old(cuts)| || (cuts == old(cuts) && n > 0)
    {
      var size, early := dest.Length, false;
      if cuts == [] {
        eof := rest == [];
      } else {
        size, early, cuts := cuts[0].size, cuts[0].eofWithData, cuts[1..];
        eof := false;
      }
      n := if size < dest.Length - from then size else dest.Length - from;
      n := if n < |rest| then n else |rest|;
      forall i | 0 <= i < n {
        dest[from + i] := rest[i];
      }
      assert dest[from..from + n] == rest[..n];
      rest := rest[n..];
      eof := eof || (early && rest == []);
    }
  }

  /** Appends to the first `have` bytes of `dest` what the network delivers until `need` are there or the stream ends. */
  method ReadAtLeast(dest: array<byte>, have: nat, need: nat, net: Stream) returns (n: nat)
    requires have < need <= dest.Length
    modifies dest, net
    ensures n <= dest.Length
    ensures dest[..n] + net.rest == old(dest[..have] + net.rest)
    ensures n < need ==> net.rest == []
  {
    n := have;
    var eof := false;
    while !eof && n < need
      invariant n <= dest.Length
      invariant eof ==> net.rest == []
      invariant dest[..n] + net.rest == old(dest[..have] + net.rest)
      decreases !eof, |net.cuts|, need - n
    {
      ghost var before := dest[..n];
      var nn: nat;
      nn, eof := net.Read(dest, n);
      assert dest[..n + nn] == before + dest[n..n + nn];
      n := n + nn;
    }
  }

  /** The read buffer: a window of a backing array, which may be the cached array. */
  class ReadBuffer {
    var backing: array<byte>
    var off: nat
    var size: nat
    var cached: array<byte>

    ghost predicate Valid()
      reads this
    {
      off + size <= backing.Length && cached.Length <= MAX_CACHED_BUF_SIZE
    }

    ghost function Contents(): (s: seq<byte>)
      requires Valid()
      reads this, backing
      ensures |s| == size
    {
      backing[off..off + size]
    }

    constructor ()
      ensures Valid() && Contents() == [] && fresh(backing) && fresh(cached)
    {
      var a := new byte[DEFAULT_BUF_SIZE];
      backing, off, size, cached := a, 0, 0, a;
    }

    /** The array to fill: the cached one when `need` bytes fit, else a larger one, kept unless it is too large to keep. */
    method Destination(need: nat) returns (dest: array<byte>)
      requires Valid()
      modifies this`cached
      ensures Valid() && dest.Length >= need && (fresh(cached) || cached == old(cached))
      ensures if need <= old(cached).Length then dest == cached == old(cached) else fresh(dest) && dest.Length > need
    {
      dest := cached;
      if need > dest.Length {
        dest := new byte[(need / DEFAULT_BUF_SIZE + 1) * DEFAULT_BUF_SIZE];
        if dest.Length <= MAX_CACHED_BUF_SIZE {
          cached := dest;
        }
      }
    }

    /**
     Reads until at least `need` bytes are in the buffer. However the network cuts
     its bytes, none is lost, repeated or reordered: the buffered and the unread bytes
     together are the same before and after. It fails just when too few bytes are left.
     */
    method Fill(need: nat, net: Stream) returns (ok: bool)
      requires Valid() && size < need
      modifies this, cached, net
      ensures Valid() && (fresh(cached) || cached == old(cached)) && (fresh(backing) || backing == old(cached))
      ensures Contents() + net.rest == old(Contents() + net.rest)
      ensures ok <==> |old(Contents() + net.rest)| >= need
      ensures ok ==> size >= need
    {
      var dest := Destination(need);
      var n: nat := size;
      forall i | 0 <= i < n {
        dest[i] := backing[off + i];
      }
      assert dest[..n] == old(Contents());
      n := ReadAtLeast(dest, n, need, net);
      backing, off, size := dest, 0, n;
      ok := n >= need;
    }

    /** Takes the next `need` bytes out of the buffer. */
    method ReadNext(need: nat) returns (data: seq<byte>)
      requires Valid() && need <= size
      modifies this`off, this`size
      ensures Valid()
      ensures data + Contents() == old(Contents()) && |data| == need
    {
      data := backing[off..off + need];
      off, size := off + need, size - need;
    }
  }
}
