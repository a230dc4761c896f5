/** The small fragmentation protocol of csp_sfp.c.  `int` and `unsigned int` are 16 bits
    wide on this machine, header fields are 32 bits in network byte order. */
module Sfp {
  import opened Indices

  type Byte = b: int | 0 <= b < 256

  const INT_MAX: nat := 0x7FFF

  /** A packet on the connection: the fragment flag of its identifier, and its bytes. */
  datatype Packet = Packet(frag: bool, bytes: seq<Byte>)

  // ---- The header: offset and total size after the data -----------------------------

  const HEADER_SIZE: nat := 8

  /** csp_hton32 followed by a store. */
  function NetworkBytes(v: nat): (bytes: seq<Byte>)
    requires v < 0x1_0000_0000
    ensures |bytes| == 4
  {
    [v / 0x100_0000, v / 0x1_0000 % 0x100, v / 0x100 % 0x100, v % 0x100]
  }

  /** A load followed by csp_ntoh32. */
  function HostValue(bytes: seq<Byte>): nat
    requires |bytes| == 4
  {
    ((bytes[0] as int * 0x100 + bytes[1] as int) * 0x100 + bytes[2] as int) * 0x100 + bytes[3] as int
  }

  lemma HostOfNetwork(v: nat)
    requires v < 0x1_0000_0000
    ensures HostValue(NetworkBytes(v)) == v
  {
    var q1, q2, q3 := v / 0x100, v / 0x100 / 0x100, v / 0x100 / 0x100 / 0x100;
    DivModUnique(v, 0x1_0000, q2, q1 % 0x100 * 0x100 + v % 0x100);
    DivModUnique(v, 0x100_0000, q3, q2 % 0x100 * 0x1_0000 + q1 % 0x100 * 0x100 + v % 0x100);
  }

  /** Most significant byte first. */
  lemma BigEndian(v: nat)
    requires v < 0x1_0000_0000
    ensures var b := NetworkBytes(v);
            b[0] as int * 0x100_0000 + b[1] as int * 0x1_0000 + b[2] as int * 0x100 + b[3] as int == v
  {
    HostOfNetwork(v);
  }

  function HeaderAdd(chunk: seq<Byte>, offset: nat, totalsize: nat): seq<Byte>
    requires offset < 0x1_0000_0000 && totalsize < 0x1_0000_0000
  {
    chunk + NetworkBytes(offset) + NetworkBytes(totalsize)
  }

  function Chunk(p: Packet): seq<Byte>
    requires |p.bytes| >= HEADER_SIZE
  {
    p.bytes[..|p.bytes| - HEADER_SIZE]
  }

  function Offset(p: Packet): nat
    requires |p.bytes| >= HEADER_SIZE
  {
    HostValue(p.bytes[|p.bytes| - HEADER_SIZE..|p.bytes| - 4])
  }

  function TotalSize(p: Packet): nat
    requires |p.bytes| >= HEADER_SIZE
  {
    HostValue(p.bytes[|p.bytes| - 4..])
  }

  /** Removing a header undoes adding it. */
  lemma HeaderRemoved(chunk: seq<Byte>, offset: nat, totalsize: nat)
    requires offset < 0x1_0000_0000 && totalsize < 0x1_0000_0000
    ensures var p := Packet(true, HeaderAdd(chunk, offset, totalsize));
            Chunk(p) == chunk && Offset(p) == offset && TotalSize(p) == totalsize
  {
    var p := Packet(true, HeaderAdd(chunk, offset, totalsize));
    assert p.bytes[|p.bytes| - HEADER_SIZE..|p.bytes| - 4] == NetworkBytes(offset);
    assert p.bytes[|p.bytes| - 4..] == NetworkBytes(totalsize);
    assert p.bytes[..|p.bytes| - HEADER_SIZE] == chunk;
    HostOfNetwork(offset);
    HostOfNetwork(totalsize);
  }

  // ---- One transfer ------------------------------------------------------------------

  function Min(a: nat, b: nat): nat {
    if a < b then a else b
  }

  predicate ValidTransfer(data: seq<Byte>, mtu: nat) {
    |data| <= INT_MAX && 0 < mtu <= INT_MAX
  }

  /** The fragment that starts at byte `off`. */
  function FragmentAt(data: seq<Byte>, mtu: nat, off: nat): Packet
    requires ValidTransfer(data, mtu) && off <= |data|
  {
    Packet(true, HeaderAdd(data[off..Min(off + mtu, |data|)], off, |data|))
  }

  /** All fragments from byte `off` on, in order. */
  function FragmentsFrom(data: seq<Byte>, mtu: nat, off: nat): seq<Packet>
    requires ValidTransfer(data, mtu)
    decreases |data| - off
  {
    if off >= |data| then [] else [FragmentAt(data, mtu, off)] + FragmentsFrom(data, mtu, off + mtu)
  }

  ghost predicate IsFragment(p: Packet, data: seq<Byte>, mtu: nat)
    requires ValidTransfer(data, mtu)
  {
    exists off: nat :: off < |data| && off % mtu == 0 && p == FragmentAt(data, mtu, off)
  }

  /** Whatever a receiver may read: fragments of the transfer lost, repeated or out of
      order at will, and packets without the fragment flag. */
  ghost predicate Delivery(rx: seq<Packet>, data: seq<Byte>, mtu: nat)
    requires ValidTransfer(data, mtu)
  {
    forall i :: 0 <= i < |rx| ==> !rx[i].frag || IsFragment(rx[i], data, mtu)
  }

  /** A fragment on the wire: its part of the data, the offset of that, and the size of it all. */
  lemma OnTheWire(data: seq<Byte>, mtu: nat, off: nat)
    requires ValidTransfer(data, mtu) && off < |data|
    ensures var p, n := FragmentAt(data, mtu, off), if off + mtu < |data| then mtu else |data| - off;
            && p.frag && |p.bytes| == n + 8
            && p.bytes[..n] == data[off..off + n]
            && p.bytes[n..n + 4] == NetworkBytes(off) && p.bytes[n + 4..] == NetworkBytes(|data|)
  {
    hide NetworkBytes;
  }

  /** Fragment k starts at byte k * mtu, and there are as many as it takes. */
  lemma {:induction false} KthFragment(data: seq<Byte>, mtu: nat, off: nat, k: nat)
    requires ValidTransfer(data, mtu) && 0 <= k * mtu
    decreases k
    ensures k < |FragmentsFrom(data, mtu, off)| <==> off + k * mtu < |data|
    ensures off + k * mtu < |data| ==> FragmentsFrom(data, mtu, off)[k] == FragmentAt(data, mtu, off + k * mtu)
  {
    hide FragmentAt;
    if k > 0 {
      MulPositive(k - 1, mtu);
      OneMore(k, mtu);
      if off < |data| {
        KthFragment(data, mtu, off + mtu, k - 1);
      }
    }
  }

  // ---- Sending -------------------------------------------------------------------------

  class CspConn {
    var fragmentFlag: bool
    var sent: seq<Packet>
    var rx: seq<Packet>

    constructor ()
      ensures sent == [] && rx == [] && !fragmentFlag
    {
      fragmentFlag, sent, rx := false, [], [];
    }
  }

  /** csp_sfp_send.  The buffer pool and the link give out after `budget` packets. */
  method CspSfpSend(conn: CspConn, data: seq<Byte>, mtu: nat, budget: nat) returns (ret: int)
    requires ValidTransfer(data, mtu)
    modifies conn
    ensures ret == if budget >= |FragmentsFrom(data, mtu, 0)| then 0 else -1
    ensures ret == 0 ==> conn.sent == old(conn.sent) + FragmentsFrom(data, mtu, 0)
    ensures ret == -1 ==> conn.sent == old(conn.sent) + FragmentsFrom(data, mtu, 0)[..budget]
    ensures conn.rx == old(conn.rx) && (conn.fragmentFlag || conn.sent == old(conn.sent))
  {
    var count := 0;
    var left := budget;
    ghost var out := [];
    hide FragmentsFrom, HeaderAdd;
    while count < |data|
      invariant count <= |data| && left == budget - |out| && conn.rx == old(conn.rx)
      invariant conn.fragmentFlag || out == []
      invariant conn.sent == old(conn.sent) + out
      invariant FragmentsFrom(data, mtu, 0) == out + FragmentsFrom(data, mtu, count)
      decreases |data| - count
    {
      HeadFragment(data, mtu, count);
      if left == 0 {
        return -1;
      }
      var size := |data| - count;
      if size > mtu {
        size := mtu;
      }
      var chunk := data[count..count + size];
      conn.fragmentFlag := true;
      var packet := Packet(true, HeaderAdd(chunk, count, |data|));
      conn.sent := conn.sent + [packet];
      left := left - 1;
      out := out + [packet];
      count := count + size;
    }
    NoFragments(data, mtu);
    return 0;
  }

  lemma HeadFragment(data: seq<Byte>, mtu: nat, off: nat)
    requires ValidTransfer(data, mtu) && off < |data|
    ensures FragmentsFrom(data, mtu, off)
         == [FragmentAt(data, mtu, off)] + FragmentsFrom(data, mtu, Min(off + mtu, |data|))
  {
  }

  lemma NoFragments(data: seq<Byte>, mtu: nat)
    requires ValidTransfer(data, mtu)
    ensures FragmentsFrom(data, mtu, |data|) == []
  {
  }

  // ---- Receiving ------------------------------------------------------------------------

  /** How a receive ends: accepted or not, after how many packets, with what in the
      buffer and what total size reported. */
  datatype Reception = Reception(complete: bool, used: nat, buffer: seq<Byte>, size: nat)

  predicate Readable(p: Packet, room: nat) {
    p.frag ==> |p.bytes| >= HEADER_SIZE && Offset(p) + |Chunk(p)| <= room
  }

  /** memcpy of src to offset `at`. */
  function Overwrite(buffer: seq<Byte>, at: nat, src: seq<Byte>): (r: seq<Byte>)
    requires at + |src| <= |buffer|
    ensures |r| == |buffer|
  {
    buffer[..at] + src + buffer[at + |src|..]
  }

  /** last_byte + 1, in 16 bits. */
  function After(last: nat): nat {
    (last + 1) % 0x1_0000
  }

  /** The receive loop as a function of the packets read; `last` is last_byte and `size`
      the total size reported so far. */
  function Receive(rx: seq<Packet>, last: nat, buffer: seq<Byte>, size: nat): (r: Reception)
    requires forall i :: 0 <= i < |rx| ==> Readable(rx[i], |buffer|)
    ensures r.used <= |rx| && |r.buffer| == |buffer|
    decreases |rx|
  {
    if rx == [] then Reception(false, 0, buffer, size)
    else
      assert Readable(rx[0], |buffer|);
      if !rx[0].frag || Offset(rx[0]) > After(last) then Reception(false, 1, buffer, size)
      else
        var end := Offset(rx[0]) + |Chunk(rx[0])|;
        var written := Overwrite(buffer, Offset(rx[0]), Chunk(rx[0]));
        if end >= TotalSize(rx[0]) then Reception(true, 1, written, TotalSize(rx[0]))
        else
          var r := Receive(rx[1..], end % 0x1_0000, written, TotalSize(rx[0]));
          r.(used := 1 + r.used)
  }

  /** csp_sfp_recv.  `out` is the buffer behind *dataout, the caller's or a fresh one;
      nothing is known of what it holds. */
  method CspSfpRecv(conn: CspConn, out: array<Byte>, size: nat) returns (ret: int, datasize: nat)
    requires AllReadable(conn.rx, out.Length)
    modifies conn`rx, out
    ensures var r := Receive(old(conn.rx), 0, old(out[..]), size);
            && ret == (if r.complete then 0 else -1)
            && out[..] == r.buffer && datasize == r.size
            && conn.rx == old(conn.rx)[r.used..]
  {
    hide Receive, Offset, TotalSize, Chunk, Overwrite, Readable, After, Continues;
    var last_byte: nat := 0;
    datasize := size;
    ghost var taken: nat := 0;
    ghost var whole := Receive(conn.rx, 0, out[..], size);
    ghost var all := conn.rx;
    ContinueStart(conn.rx, out[..], size);
    while conn.rx != []
      invariant taken <= |all| && conn.rx == all[taken..]
      invariant AllReadable(conn.rx, out.Length)
      invariant Continues(whole, conn.rx, last_byte, out[..], datasize, taken)
      decreases |conn.rx|
    {
      var packet := conn.rx[0];
      ContinueStep(whole, conn.rx, last_byte, out[..], datasize, taken);
      conn.rx := conn.rx[1..];
      taken := taken + 1;
      if !packet.frag {
        return -1, datasize;
      }
      ReadableIs(packet, out.Length);
      var offset, chunk := Offset(packet), Chunk(packet);
      if offset > After(last_byte) {
        return -1, datasize;
      } else {
        last_byte := (offset + |chunk|) % 0x1_0000;
      }
      datasize := TotalSize(packet);
      CopyBytes(out, offset, chunk);
      if offset + |chunk| >= TotalSize(packet) {
        return 0, datasize;
      }
    }
    ContinueNothing(whole, last_byte, out[..], datasize, taken);
    return -1, datasize;
  }

  ghost predicate AllReadable(rx: seq<Packet>, room: nat) {
    forall i :: 0 <= i < |rx| ==> Readable(rx[i], room)
  }

  lemma ReadableIs(p: Packet, room: nat)
    requires Readable(p, room) && p.frag
    ensures |p.bytes| >= HEADER_SIZE && Offset(p) + |Chunk(p)| <= room
  {
  }

  /** After `taken` packets the loop still has the rest of the whole reception to do. */
  ghost predicate Continues(whole: Reception, rx: seq<Packet>, last: nat, buffer: seq<Byte>, size: nat, taken: nat)
    requires AllReadable(rx, |buffer|)
  {
    var r := Receive(rx, last, buffer, size);
    whole == r.(used := taken + r.used)
  }

  lemma ContinueStart(rx: seq<Packet>, buffer: seq<Byte>, size: nat)
    requires AllReadable(rx, |buffer|)
    ensures Continues(Receive(rx, 0, buffer, size), rx, 0, buffer, size, 0)
  {
    hide Receive;
  }

  lemma ContinueNothing(whole: Reception, last: nat, buffer: seq<Byte>, size: nat, taken: nat)
    requires Continues(whole, [], last, buffer, size, taken)
    ensures whole == Reception(false, taken, buffer, size)
  {
    hide Receive;
    ReceiveNothing(last, buffer, size);
  }

  lemma ContinueStep(whole: Reception, rx: seq<Packet>, last: nat, buffer: seq<Byte>, size: nat, taken: nat)
    requires AllReadable(rx, |buffer|) && rx != [] && Continues(whole, rx, last, buffer, size, taken)
    ensures Readable(rx[0], |buffer|) && AllReadable(rx[1..], |buffer|)
    ensures !rx[0].frag || Offset(rx[0]) > After(last) ==> whole == Reception(false, taken + 1, buffer, size)
    ensures rx[0].frag && Offset(rx[0]) <= After(last) ==>
              var end := Offset(rx[0]) + |Chunk(rx[0])|;
              var written := Overwrite(buffer, Offset(rx[0]), Chunk(rx[0]));
              if end >= TotalSize(rx[0]) then whole == Reception(true, taken + 1, written, TotalSize(rx[0]))
              else Continues(whole, rx[1..], end % 0x1_0000, written, TotalSize(rx[0]), taken + 1)
  {
    hide Offset, TotalSize, Chunk, Overwrite;
    assert Readable(rx[0], |buffer|);
    ReceiveStep(rx, last, buffer, size);
  }

  lemma ReceiveNothing(last: nat, buffer: seq<Byte>, size: nat)
    ensures Receive([], last, buffer, size) == Reception(false, 0, buffer, size)
  {
  }

  lemma ReceiveStep(rx: seq<Packet>, last: nat, buffer: seq<Byte>, size: nat)
    requires forall i :: 0 <= i < |rx| ==> Readable(rx[i], |buffer|)
    requires rx != [] && Readable(rx[0], |buffer|)
    ensures Receive(rx, last, buffer, size)
         == if !rx[0].frag || Offset(rx[0]) > After(last) then Reception(false, 1, buffer, size)
            else
              var end := Offset(rx[0]) + |Chunk(rx[0])|;
              var written := Overwrite(buffer, Offset(rx[0]), Chunk(rx[0]));
              if end >= TotalSize(rx[0]) then Reception(true, 1, written, TotalSize(rx[0]))
              else
                var r := Receive(rx[1..], end % 0x1_0000, written, TotalSize(rx[0]));
                r.(used := 1 + r.used)
  {
    hide Offset, TotalSize, Chunk, Overwrite;
  }

  method CopyBytes(dst: array<Byte>, at: nat, src: seq<Byte>)
    requires at + |src| <= dst.Length
    modifies dst
    ensures dst[..] == Overwrite(old(dst[..]), at, src)
  {
    ghost var before := dst[..];
    for i := 0 to |src|
      invariant forall k :: 0 <= k < dst.Length ==> dst[k] == if at <= k < at + i then src[k - at] else before[k]
    {
      dst[at + i] := src[i];
    }
  }

  // ---- Soundness ----------------------------------------------------------------------------

  /** What a receiver reads from a fragment of the transfer. */
  lemma ReadFragment(data: seq<Byte>, mtu: nat, off: nat)
    requires ValidTransfer(data, mtu) && off <= |data|
    ensures var p := FragmentAt(data, mtu, off);
            && p.frag && |p.bytes| >= HEADER_SIZE
            && Offset(p) == off && TotalSize(p) == |data|
            && Chunk(p) == data[off..Min(off + mtu, |data|)]
            && Readable(p, |data|)
  {
    HeaderRemoved(data[off..Min(off + mtu, |data|)], off, |data|);
  }

  lemma DeliveryReadable(rx: seq<Packet>, data: seq<Byte>, mtu: nat)
    requires ValidTransfer(data, mtu) && Delivery(rx, data, mtu)
    ensures forall i :: 0 <= i < |rx| ==> Readable(rx[i], |data|)
  {
    hide FragmentAt, Readable;
    forall i | 0 <= i < |rx|
      ensures Readable(rx[i], |data|)
    {
      if !rx[i].frag {
        UnflaggedReadable(rx[i], |data|);
      } else {
        var off: nat :| off < |data| && off % mtu == 0 && rx[i] == FragmentAt(data, mtu, off);
        ReadFragment(data, mtu, off);
      }
    }
  }

  lemma UnflaggedReadable(p: Packet, room: nat)
    requires !p.frag
    ensures Readable(p, room)
  {
  }

  /** An accepted fragment starts no later than the bytes already in place: indices rise
      by at most one, because offsets are multiples of an mtu of at least two. */
  lemma NoGap(off: nat, covered: nat, mtu: nat)
    requires mtu >= 2 && off % mtu == 0 && covered % mtu == 0 && off <= covered + 1
    ensures off <= covered
  {
    if off == covered + 1 {
      var q := covered / mtu;
      assert covered == mtu * q;
      DivModUnique(off, mtu, q, 1);
    }
  }

  lemma WholeChunk(off: nat, mtu: nat)
    requires mtu > 0 && off % mtu == 0
    ensures (off + mtu) % mtu == 0
  {
    var q := off / mtu;
    assert off == mtu * q && mtu * (q + 1) == mtu * q + mtu;
    DivModUnique(off + mtu, mtu, q + 1, 0);
  }

  /** Writing a chunk that leaves no gap. */
  lemma CoversMore(buffer: seq<Byte>, data: seq<Byte>, off: nat, end: nat, covered: nat)
    requires |buffer| == |data| && off <= end <= |data| && off <= covered <= |data| && buffer[..covered] == data[..covered]
    ensures var written, covered' := Overwrite(buffer, off, data[off..end]), if end > covered then end else covered;
            && written[..covered'] == data[..covered']
            && (end == |data| ==> written == data)
  {
    var written, covered' := Overwrite(buffer, off, data[off..end]), if end > covered then end else covered;
    assert written[..covered'] == data[..covered'];
    assert end == |data| ==> written == written[..covered'];
  }

  lemma AcceptedIsCovered(off: nat, last: nat, covered: nat, length: nat, mtu: nat)
    requires mtu > 0 && (mtu >= 2 || length <= 1) && off < length && off % mtu == 0 && off <= last + 1
    requires last <= covered <= length && (covered == length || covered % mtu == 0)
    ensures off <= covered
  {
    if covered < length && mtu >= 2 {
      NoGap(off, covered, mtu);
    }
  }

  lemma AfterIsNext(last: nat)
    requires last <= INT_MAX
    ensures After(last) == last + 1 && last % 0x1_0000 == last
  {
  }

  /** The loop invariant: a prefix of `covered` bytes is in place, and last_byte does not
      point past it. */
  lemma {:induction false} ReceiveSound(rx: seq<Packet>, data: seq<Byte>, mtu: nat, last: nat, covered: nat, buffer: seq<Byte>, size: nat)
    requires ValidTransfer(data, mtu) && (mtu >= 2 || |data| <= 1) && Delivery(rx, data, mtu)
    requires |buffer| == |data| && last <= covered <= |data| && buffer[..covered] == data[..covered]
    requires covered == |data| || covered % mtu == 0
    requires forall i :: 0 <= i < |rx| ==> Readable(rx[i], |data|)
    ensures var r := Receive(rx, last, buffer, size);
            r.complete ==> r.buffer == data && r.size == |data|
    decreases |rx|
  {
    hide FragmentAt, Offset, TotalSize, Chunk, Receive, Overwrite, After;
    AfterIsNext(last);
    if rx == [] {
      ReceiveNothing(last, buffer, size);
    } else {
      ReceiveStep(rx, last, buffer, size);
    }
    if rx != [] && rx[0].frag {
      var off: nat :| off < |data| && off % mtu == 0 && rx[0] == FragmentAt(data, mtu, off);
      ReadFragment(data, mtu, off);
      if off <= After(last) {
        AcceptedIsCovered(off, last, covered, |data|, mtu);
        var end := Min(off + mtu, |data|);
        var written := Overwrite(buffer, off, data[off..end]);
        var covered' := if end > covered then end else covered;
        CoversMore(buffer, data, off, end, covered);
        if end < |data| {
          AfterIsNext(end);
          WholeChunk(off, mtu);
          assert Delivery(rx[1..], data, mtu);
          ReceiveSound(rx[1..], data, mtu, end % 0x1_0000, covered', written, |data|);
        }
      }
    }
  }

  // ---- In-order delivery ---------------------------------------------------------------------

  lemma {:induction false} FragmentsAreFragments(data: seq<Byte>, mtu: nat, off: nat)
    requires ValidTransfer(data, mtu) && off % mtu == 0
    ensures Delivery(FragmentsFrom(data, mtu, off), data, mtu)
    decreases |data| - off
  {
    hide FragmentAt;
    if off < |data| {
      WholeChunk(off, mtu);
      FragmentsAreFragments(data, mtu, off + mtu);
    }
  }

  lemma FirstFragment(data: seq<Byte>, mtu: nat, off: nat, rest: seq<Packet>)
    requires ValidTransfer(data, mtu) && off < |data|
    ensures var later := FragmentsFrom(data, mtu, off + mtu);
            && FragmentsFrom(data, mtu, off) == [FragmentAt(data, mtu, off)] + later
            && (FragmentsFrom(data, mtu, off) + rest)[0] == FragmentAt(data, mtu, off)
            && (FragmentsFrom(data, mtu, off) + rest)[1..] == later + rest
            && (off + mtu >= |data| ==> later == [])
  {
    hide FragmentAt, FragmentsFrom;
    FragmentsUnfold(data, mtu, off);
    FirstThenRest(FragmentAt(data, mtu, off), FragmentsFrom(data, mtu, off + mtu), rest);
  }

  lemma FragmentsUnfold(data: seq<Byte>, mtu: nat, off: nat)
    requires ValidTransfer(data, mtu) && off < |data|
    ensures FragmentsFrom(data, mtu, off) == [FragmentAt(data, mtu, off)] + FragmentsFrom(data, mtu, off + mtu)
    ensures off + mtu >= |data| ==> FragmentsFrom(data, mtu, off + mtu) == []
  {
    hide FragmentAt;
  }

  lemma FirstThenRest(p: Packet, later: seq<Packet>, rest: seq<Packet>)
    ensures ([p] + later + rest)[0] == p && ([p] + later + rest)[1..] == later + rest
  {
  }

  /** Every fragment from `off` on, in order, completes the transfer, and leaves the bytes
      before `off` as they were. */
  lemma {:induction false} InOrderCompletes(data: seq<Byte>, mtu: nat, off: nat, last: nat, buffer: seq<Byte>, size: nat, rest: seq<Packet>)
    requires ValidTransfer(data, mtu) && |buffer| == |data| && off < |data| && off % mtu == 0 && off <= After(last)
    requires forall i :: 0 <= i < |FragmentsFrom(data, mtu, off) + rest| ==>
               Readable((FragmentsFrom(data, mtu, off) + rest)[i], |data|)
    ensures Receive(FragmentsFrom(data, mtu, off) + rest, last, buffer, size)
         == Reception(true, |FragmentsFrom(data, mtu, off)|, buffer[..off] + data[off..], |data|)
    decreases |data| - off
  {
    hide FragmentAt, FragmentsFrom, Offset, TotalSize, Chunk, Readable, Receive, After, Overwrite;
    var rx := FragmentsFrom(data, mtu, off) + rest;
    FirstFragment(data, mtu, off, rest);
    ReadFragment(data, mtu, off);
    ReceiveStep(rx, last, buffer, size);
    var end := Min(off + mtu, |data|);
    var written := Overwrite(buffer, off, data[off..end]);
    WrittenSoFar(buffer, data, off, end);
    if end < |data| {
      WholeChunk(off, mtu);
      AfterIsNext(end);
      assert forall i :: 0 <= i < |rx[1..]| ==> rx[1..][i] == rx[i + 1];
      InOrderCompletes(data, mtu, off + mtu, end, written, |data|, rest);
    }
  }

  lemma WrittenSoFar(buffer: seq<Byte>, data: seq<Byte>, off: nat, end: nat)
    requires |buffer| == |data| && off <= end <= |data|
    ensures var written := Overwrite(buffer, off, data[off..end]);
            && written[..end] + data[end..] == buffer[..off] + data[off..]
            && (end == |data| ==> written == buffer[..off] + data[off..])
  {
  }

  // ---- Main results ------------------------------------------------------------------------------

  /** Some delivery and some initial buffer on which a complete receive is wrong. */
  ghost predicate Unsound(data: seq<Byte>, mtu: nat)
    requires ValidTransfer(data, mtu)
  {
    exists rx, buffer: seq<Byte> {:trigger WrongReception(rx, buffer, data, mtu)} :: WrongReception(rx, buffer, data, mtu)
  }

  ghost predicate WrongReception(rx: seq<Packet>, buffer: seq<Byte>, data: seq<Byte>, mtu: nat)
    requires ValidTransfer(data, mtu)
  {
    && |buffer| == |data| && Delivery(rx, data, mtu)
    && (forall i :: 0 <= i < |rx| ==> Readable(rx[i], |data|))
    && Receive(rx, 0, buffer, 0).complete && Receive(rx, 0, buffer, 0).buffer != data
  }

  /** With one-byte fragments the first may be skipped: its successor already passes. */
  lemma SkippedFirstFragment(data: seq<Byte>)
    requires 2 <= |data| <= INT_MAX
    ensures Unsound(data, 1)
  {
    hide FragmentsFrom;
    var rx := FragmentsFrom(data, 1, 1) + [];
    var wrong: Byte := if data[0] == 0 then 1 else 0;
    var buffer := [wrong] + data[1..];
    FragmentsAreFragments(data, 1, 1);
    assert rx == FragmentsFrom(data, 1, 1);
    DeliveryReadable(rx, data, 1);
    InOrderCompletes(data, 1, 1, 0, buffer, 0, []);
    assert (buffer[..1] + data[1..])[0] == wrong;
    assert WrongReception(rx, buffer, data, 1);
  }

  /** Reassembly is right under every loss, duplication and reordering exactly when
      fragments are longer than one byte, or there is no more than one byte to send. */
  lemma SoundIff(data: seq<Byte>, mtu: nat)
    requires ValidTransfer(data, mtu)
    ensures !Unsound(data, mtu) <==> mtu >= 2 || |data| <= 1
  {
    hide Receive, FragmentAt;
    if mtu >= 2 || |data| <= 1 {
      forall rx, buffer: seq<Byte> | WrongReception(rx, buffer, data, mtu)
        ensures false
      {
        ZeroMod(mtu);
        ReceiveSound(rx, data, mtu, 0, 0, buffer, 0);
      }
    } else {
      SkippedFirstFragment(data);
    }
  }

  lemma ZeroMod(mtu: nat)
    requires mtu > 0
    ensures 0 % mtu == 0
  {
  }

  /** Everything delivered once and in order always succeeds, for every mtu. */
  lemma LosslessSucceeds(data: seq<Byte>, mtu: nat, buffer: seq<Byte>)
    requires ValidTransfer(data, mtu) && |buffer| == |data| > 0
    ensures forall i :: 0 <= i < |FragmentsFrom(data, mtu, 0)| ==> Readable(FragmentsFrom(data, mtu, 0)[i], |data|)
    ensures Receive(FragmentsFrom(data, mtu, 0), 0, buffer, 0)
         == Reception(true, |FragmentsFrom(data, mtu, 0)|, data, |data|)
  {
    hide FragmentsFrom, FragmentAt, Receive;
    ZeroMod(mtu);
    FragmentsAreFragments(data, mtu, 0);
    DeliveryReadable(FragmentsFrom(data, mtu, 0), data, mtu);
    assert FragmentsFrom(data, mtu, 0) + [] == FragmentsFrom(data, mtu, 0);
    InOrderCompletes(data, mtu, 0, 0, buffer, 0, []);
    assert buffer[..0] + data[0..] == data;
  }

  // ---- Which deliveries complete --------------------------------------------------------------------

  /** Fragments of one transfer, by their numbers. */
  ghost predicate Numbers(ks: seq<nat>, data: seq<Byte>, mtu: nat) {
    forall i :: 0 <= i < |ks| ==> 0 <= ks[i] * mtu < |data|
  }

  ghost function Fragments(ks: seq<nat>, data: seq<Byte>, mtu: nat): (rx: seq<Packet>)
    requires ValidTransfer(data, mtu) && Numbers(ks, data, mtu)
    ensures |rx| == |ks|
  {
    seq(|ks|, i requires 0 <= i < |ks| => FragmentAt(data, mtu, ks[i] * mtu))
  }

  /** How far beyond the fragment after the last one the receiver lets a number go. */
  function Reach(mtu: nat): nat {
    if mtu >= 2 then 1 else 2
  }

  /** Up to the n-th none of the fragments skips one, where fragment e is the first expected. */
  ghost predicate Climbs(ks: seq<nat>, n: nat, e: nat, reach: nat) {
    n < |ks| && forall i :: 0 <= i <= n ==> NoneSkipped(ks, i, e, reach)
  }

  ghost predicate NoneSkipped(ks: seq<nat>, i: nat, e: nat, reach: nat)
    requires i < |ks|
  {
    ks[i] < (if i == 0 then e else ks[i - 1] + 1) + reach
  }

  lemma FragmentsReadable(ks: seq<nat>, data: seq<Byte>, mtu: nat)
    requires ValidTransfer(data, mtu) && Numbers(ks, data, mtu)
    ensures AllReadable(Fragments(ks, data, mtu), |data|)
  {
    hide FragmentAt, Readable;
    var rx := Fragments(ks, data, mtu);
    forall i | 0 <= i < |rx|
      ensures Readable(rx[i], |data|)
    {
      ReadFragment(data, mtu, ks[i] * mtu);
    }
  }

  /** Offset k * mtu passes the test after e fragments exactly if k is within reach. */
  lemma WithinReach(k: nat, e: nat, mtu: nat)
    requires mtu > 0 && 0 <= k * mtu && 0 <= e * mtu
    ensures k * mtu <= e * mtu + 1 <==> k < e + Reach(mtu)
  {
    if k <= e {
      MulMono(k, e, mtu);
    } else {
      MulMono(e + 1, k, mtu);
      assert (e + 1) * mtu == e * mtu + mtu;
      if k >= e + 2 {
        MulMono(e + 2, k, mtu);
        assert (e + 2) * mtu == e * mtu + 2 * mtu;
      }
    }
  }

  lemma ClimbsOn(ks: seq<nat>, n: nat, e: nat, reach: nat)
    requires 0 < n < |ks|
    ensures Climbs(ks, n, e, reach) <==> ks[0] < e + reach && Climbs(ks[1..], n - 1, ks[0] + 1, reach)
  {
    if Climbs(ks, n, e, reach) {
      var rest, e' := ks[1..], ks[0] + 1;
      assert NoneSkipped(ks, 0, e, reach);
      forall i | 0 <= i < n
        ensures NoneSkipped(rest, i, e', reach)
      {
        assert NoneSkipped(ks, i + 1, e, reach);
      }
    } else if ks[0] < e + reach {
      var i :| 0 <= i <= n && !NoneSkipped(ks, i, e, reach);
      assert !NoneSkipped(ks[1..], i - 1, ks[0] + 1, reach);
    }
  }

  lemma {:induction false} CompletesFrom(ks: seq<nat>, data: seq<Byte>, mtu: nat, e: nat, buffer: seq<Byte>, size: nat)
    requires ValidTransfer(data, mtu) && Numbers(ks, data, mtu) && |buffer| == |data| && 0 <= e * mtu <= |data|
    requires AllReadable(Fragments(ks, data, mtu), |data|)
    ensures Receive(Fragments(ks, data, mtu), e * mtu, buffer, size).complete <==>
            exists n :: 0 <= n < |ks| && ks[n] * mtu + mtu >= |data| && Climbs(ks, n, e, Reach(mtu))
    decreases |ks|
  {
    hide FragmentAt, Offset, TotalSize, Chunk, Receive, Overwrite, After, Reach, Climbs;
    var rx := Fragments(ks, data, mtu);
    if ks == [] {
      ReceiveNothing(e * mtu, buffer, size);
    } else {
      var k := ks[0];
      assert rx[1..] == Fragments(ks[1..], data, mtu);
      ReceiveStep(rx, e * mtu, buffer, size);
      ReadFragment(data, mtu, k * mtu);
      AfterIsNext(e * mtu);
      WithinReach(k, e, mtu);
      FirstClimbs(ks, e, Reach(mtu));
      if k < e + Reach(mtu) && k * mtu + mtu < |data| {
        assert (k + 1) * mtu == k * mtu + mtu;
        AfterIsNext((k + 1) * mtu);
        var written := Overwrite(buffer, k * mtu, data[k * mtu..k * mtu + mtu]);
        FragmentsReadable(ks[1..], data, mtu);
        CompletesFrom(ks[1..], data, mtu, k + 1, written, |data|);
        LaterCompletes(ks, data, mtu, e);
      } else if k >= e + Reach(mtu) {
        NoneClimbs(ks, e, Reach(mtu));
      } else {
        assert ks[0] * mtu + mtu >= |data| && Climbs(ks, 0, e, Reach(mtu));
      }
    }
  }

  lemma FirstClimbs(ks: seq<nat>, e: nat, reach: nat)
    requires ks != []
    ensures Climbs(ks, 0, e, reach) <==> ks[0] < e + reach
  {
    assert NoneSkipped(ks, 0, e, reach) <==> ks[0] < e + reach;
  }

  lemma NoneClimbs(ks: seq<nat>, e: nat, reach: nat)
    requires ks != [] && ks[0] >= e + reach
    ensures forall n: nat :: !Climbs(ks, n, e, reach)
  {
    forall n: nat
      ensures !Climbs(ks, n, e, reach)
    {
      assert Climbs(ks, n, e, reach) ==> NoneSkipped(ks, 0, e, reach);
    }
  }

  lemma LaterCompletes(ks: seq<nat>, data: seq<Byte>, mtu: nat, e: nat)
    requires ks != [] && ks[0] < e + Reach(mtu) && ks[0] * mtu + mtu < |data|
    ensures (exists n :: 0 <= n < |ks| && ks[n] * mtu + mtu >= |data| && Climbs(ks, n, e, Reach(mtu))) <==>
            (exists n :: 0 <= n < |ks[1..]| && ks[1..][n] * mtu + mtu >= |data| && Climbs(ks[1..], n, ks[0] + 1, Reach(mtu)))
  {
    hide Climbs, Reach;
    if n :| 0 <= n < |ks| && ks[n] * mtu + mtu >= |data| && Climbs(ks, n, e, Reach(mtu)) {
      ClimbsOn(ks, n, e, Reach(mtu));
      assert ks[1..][n - 1] == ks[n];
    }
    if n :| 0 <= n < |ks[1..]| && ks[1..][n] * mtu + mtu >= |data| && Climbs(ks[1..], n, ks[0] + 1, Reach(mtu)) {
      ClimbsOn(ks, n + 1, e, Reach(mtu));
      assert ks[n + 1] == ks[1..][n];
    }
  }

  /** Whatever fragments of a transfer come in, in whatever order and however often: a reception
      is complete exactly if the last fragment is among them and up to it every fragment is
      either the first, or no further on than the one after its predecessor; with fragments of
      one byte, one more may be skipped each time. */
  lemma CompletesIff(ks: seq<nat>, data: seq<Byte>, mtu: nat, buffer: seq<Byte>, size: nat)
    requires ValidTransfer(data, mtu) && Numbers(ks, data, mtu) && |buffer| == |data|
    ensures AllReadable(Fragments(ks, data, mtu), |data|)
    ensures Receive(Fragments(ks, data, mtu), 0, buffer, size).complete <==>
            exists n :: 0 <= n < |ks| && ks[n] * mtu + mtu >= |data| && Climbs(ks, n, 0, Reach(mtu))
  {
    FragmentsReadable(ks, data, mtu);
    assert 0 * mtu == 0;
    CompletesFrom(ks, data, mtu, 0, buffer, size);
  }

  // ---- Over a link ------------------------------------------------------------------------------

  /** A packet that comes in: one of those sent, whichever, or another without the flag. */
  datatype Arrival = Copy(k: nat) | Other(bytes: seq<Byte>)

  function Arrives(sent: seq<Packet>, a: Arrival): Packet {
    match a
    case Copy(k) => if k < |sent| then sent[k] else Packet(false, [])
    case Other(bytes) => Packet(false, bytes)
  }

  /** What a link that loses, repeats and reorders at will makes of the packets sent. */
  function Arrivals(sent: seq<Packet>, link: seq<Arrival>): (rx: seq<Packet>)
    ensures |rx| == |link|
  {
    seq(|link|, i requires 0 <= i < |link| => Arrives(sent, link[i]))
  }

  /** Everything once, in order. */
  function Lossless(n: nat): (link: seq<Arrival>) {
    seq(n, i requires 0 <= i < n => Copy(i))
  }

  lemma ArrivalsAreDelivery(sent: seq<Packet>, link: seq<Arrival>, data: seq<Byte>, mtu: nat)
    requires ValidTransfer(data, mtu) && Delivery(sent, data, mtu)
    ensures Delivery(Arrivals(sent, link), data, mtu)
    ensures link == Lossless(|sent|) ==> Arrivals(sent, link) == sent
  {
    forall i | 0 <= i < |link| && Arrivals(sent, link)[i].frag
      ensures IsFragment(Arrivals(sent, link)[i], data, mtu)
    {
      assert Arrivals(sent, link)[i] == sent[link[i].k];
    }
  }

  lemma PrefixDelivery(sent: seq<Packet>, n: nat, data: seq<Byte>, mtu: nat)
    requires ValidTransfer(data, mtu) && Delivery(sent, data, mtu) && n <= |sent|
    ensures Delivery(sent[..n], data, mtu)
  {
  }

  /** What such a reception comes to, if all the fragments were sent or only the first n. */
  lemma TransferSound(sent: seq<Packet>, n: nat, link: seq<Arrival>, data: seq<Byte>, mtu: nat, buffer: seq<Byte>)
    requires ValidTransfer(data, mtu) && (mtu >= 2 || |data| <= 1) && |buffer| == |data|
    requires n <= |FragmentsFrom(data, mtu, 0)| && sent == FragmentsFrom(data, mtu, 0)[..n]
    ensures var rx := Arrivals(sent, link);
            && AllReadable(rx, |data|)
            && var r := Receive(rx, 0, buffer, 0);
               && (r.complete ==> r.buffer == data && r.size == |data|)
               && (n == |FragmentsFrom(data, mtu, 0)| && data != [] && link == Lossless(n) ==> r.complete)
  {
    hide FragmentsFrom, FragmentAt, Receive, Delivery, Arrivals, Lossless;
    var all, rx := FragmentsFrom(data, mtu, 0), Arrivals(sent, link);
    ZeroMod(mtu);
    FragmentsAreFragments(data, mtu, 0);
    PrefixDelivery(all, n, data, mtu);
    ArrivalsAreDelivery(sent, link, data, mtu);
    DeliveryReadable(rx, data, mtu);
    ReceiveSound(rx, data, mtu, 0, 0, buffer, 0);
    if n == |all| && data != [] && link == Lossless(n) {
      assert sent == all;
      LosslessSucceeds(data, mtu, buffer);
    }
  }

  /** A transfer end to end: what the receiver returns with 0 is what the sender was given,
      whatever the link does and even if the sender ran out of packets; and without loss it
      does return 0. */
  method Transfer(sender: CspConn, receiver: CspConn, data: seq<Byte>, mtu: nat, budget: nat, link: seq<Arrival>, out: array<Byte>)
    returns (sendRet: int, ret: int, datasize: nat)
    requires sender != receiver && ValidTransfer(data, mtu) && (mtu >= 2 || |data| <= 1) && out.Length == |data|
    modifies sender, receiver, out
    ensures sendRet == if budget >= |FragmentsFrom(data, mtu, 0)| then 0 else -1
    ensures ret == 0 ==> out[..] == data && datasize == |data|
    ensures sendRet == 0 && data != [] && link == Lossless(|FragmentsFrom(data, mtu, 0)|) ==> ret == 0
  {
    hide *;
    var first := |sender.sent|;
    ghost var all := FragmentsFrom(data, mtu, 0);
    ghost var n := if budget >= |all| then |all| else budget;
    sendRet := CspSfpSend(sender, data, mtu, budget);
    var sent := sender.sent[first..];
    assert sent == all[..n];
    receiver.rx := Arrivals(sent, link);
    TransferSound(sent, n, link, data, mtu, out[..]);
    ret, datasize := CspSfpRecv(receiver, out, 0);
  }
}
