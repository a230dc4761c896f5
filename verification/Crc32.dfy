/** The packet checksum of csp_crc32.c on a little-endian host. */
module Crc32 {
  import opened CrcDivision
  import opened CrcTable

  const CSP_ERR_NONE: int := 0
  const CSP_ERR_INVAL: int := -2

  /** Buffer of a packet: `data` is the room behind the header, `length` the part in use. */
  class CspPacket {
    var length: nat
    const data: array<bv8>

    constructor (capacity: nat)
      ensures length == 0 && data.Length == capacity && fresh(data)
    {
      length := 0;
      data := new bv8[capacity];
    }

    predicate Valid()
      reads this
    {
      length <= data.Length <= 0xFFFF
    }

    function Payload(): seq<bv8>
      requires Valid()
      reads this, data
    {
      data[..length]
    }
  }

  // ---- The table-driven loop computes the bit-serial checksum ---------------------

  /** crc_tab[(crc ^ b) & 0xFF] ^ (crc >> 8). */
  function TableStep(crc: bv32, b: bv8): bv32 {
    var index := LowByte(Xor(crc, b as bv32));
    LowByteIsSmall(Xor(crc, b as bv32));
    TableIsBitSerial(index);
    Xor(CrcTab(index as nat), DownByte(crc))
  }

  lemma LowByteIsSmall(x: bv32)
    ensures LowByte(x) < 256
  {
  }

  lemma TableStepDivides(crc: bv32, b: bv8)
    ensures TableStep(crc, b) == Divide(crc, WordBits(b as bv32, 8))
  {
    hide LowByte, DownByte, Xor, Shift8, Divide, WordBits, CrcTab;
    var x := Xor(crc, b as bv32);
    DownByteIgnoresByte(crc, b);
    DivideByte(crc, b);
    Shift8Splits(x);
    LowByteIsSmall(x);
    TableIsBitSerial(LowByte(x));
  }

  lemma DownByteIgnoresByte(crc: bv32, b: bv8)
    ensures DownByte(Xor(crc, b as bv32)) == DownByte(crc)
  {
  }

  method CrcMemory(data: array<bv8>, length: nat) returns (crc: bv32)
    requires length <= data.Length
    ensures crc == BitSerialCrc(data[..length])
  {
    hide *;
    crc := ALL_ONES;
    var left, p := length, 0;
    DivideNothing(ALL_ONES);
    assert data[..0] == [];
    while left != 0
      invariant 0 <= left <= length && p == length - left
      invariant crc == Divide(ALL_ONES, DataBits(data[..p]))
    {
      left := left - 1;
      TableStepDivides(crc, data[p]);
      OneMoreByte(data[..p], data[p]);
      assert data[..p + 1] == data[..p] + [data[p]];
      crc := TableStep(crc, data[p]);
      p := p + 1;
    }
    FinalXor(data[..length]);
    crc := Xor(crc, ALL_ONES);
  }

  lemma FinalXor(d: seq<bv8>)
    ensures BitSerialCrc(d) == Xor(Divide(ALL_ONES, DataBits(d)), ALL_ONES)
  {
  }

  lemma DivideNothing(r: bv32)
    ensures Divide(r, DataBits([])) == r
  {
  }

  lemma OneMoreByte(d: seq<bv8>, b: bv8)
    ensures Divide(ALL_ONES, DataBits(d + [b])) == Divide(Divide(ALL_ONES, DataBits(d)), WordBits(b as bv32, 8))
  {
    DataBitsAppend(d, [b]);
    assert DataBits([b]) == WordBits(b as bv32, 8) + DataBits([]) == WordBits(b as bv32, 8);
    DivideAppend(ALL_ONES, DataBits(d), WordBits(b as bv32, 8));
  }

  /** One byte more, for known values. */
  lemma KnownByte(d: seq<bv8>, b: bv8, r: bv32, r': bv32)
    requires Divide(ALL_ONES, DataBits(d)) == r && Shift8(Xor(r, b as bv32)) == r'
    ensures Divide(ALL_ONES, DataBits(d + [b])) == r'
  {
    hide Divide, DataBits, Shift8, Xor, WordBits;
    OneMoreByte(d, b);
    DivideByte(r, b);
  }

  /** The registers after each of the bytes "123456789". */
  lemma CheckRegisters()
    ensures Shift8(Xor(0xFFFFFFFF, 0x31)) == 0x6F0A661C
    ensures Shift8(Xor(0x6F0A661C, 0x32)) == 0x8CAA3B9F
    ensures Shift8(Xor(0x8CAA3B9F, 0x33)) == 0xEF84D04D
    ensures Shift8(Xor(0xEF84D04D, 0x34)) == 0x09C50B11
    ensures Shift8(Xor(0x09C50B11, 0x35)) == 0xE72EDCCA
    ensures Shift8(Xor(0xE72EDCCA, 0x36)) == 0xBECA8E79
    ensures Shift8(Xor(0xBECA8E79, 0x37)) == 0xEDBD6815
    ensures Shift8(Xor(0xEDBD6815, 0x38)) == 0x9F787F65
    ensures Shift8(Xor(0x9F787F65, 0x39)) == 0x1CF96D7C
  {
  }

  /** The check value that catalogues of checksums give for CRC-32C: that of "123456789". */
  lemma CheckValue()
    ensures BitSerialCrc([0x31, 0x32, 0x33, 0x34, 0x35, 0x36, 0x37, 0x38, 0x39]) == 0xE3069283
  {
    hide Divide, DataBits, Shift8, WordBits;
    CheckRegisters();
    DivideNothing(ALL_ONES);
    KnownByte([], 0x31, 0xFFFFFFFF, 0x6F0A661C);
    assert [] + [0x31 as bv8] == [0x31];
    KnownByte([0x31], 0x32, 0x6F0A661C, 0x8CAA3B9F);
    assert [0x31] + [0x32 as bv8] == [0x31, 0x32];
    KnownByte([0x31, 0x32], 0x33, 0x8CAA3B9F, 0xEF84D04D);
    assert [0x31, 0x32] + [0x33 as bv8] == [0x31, 0x32, 0x33];
    KnownByte([0x31, 0x32, 0x33], 0x34, 0xEF84D04D, 0x09C50B11);
    assert [0x31, 0x32, 0x33] + [0x34 as bv8] == [0x31, 0x32, 0x33, 0x34];
    KnownByte([0x31, 0x32, 0x33, 0x34], 0x35, 0x09C50B11, 0xE72EDCCA);
    assert [0x31, 0x32, 0x33, 0x34] + [0x35 as bv8] == [0x31, 0x32, 0x33, 0x34, 0x35];
    KnownByte([0x31, 0x32, 0x33, 0x34, 0x35], 0x36, 0xE72EDCCA, 0xBECA8E79);
    assert [0x31, 0x32, 0x33, 0x34, 0x35] + [0x36 as bv8] == [0x31, 0x32, 0x33, 0x34, 0x35, 0x36];
    KnownByte([0x31, 0x32, 0x33, 0x34, 0x35, 0x36], 0x37, 0xBECA8E79, 0xEDBD6815);
    assert [0x31, 0x32, 0x33, 0x34, 0x35, 0x36] + [0x37 as bv8] == [0x31, 0x32, 0x33, 0x34, 0x35, 0x36, 0x37];
    KnownByte([0x31, 0x32, 0x33, 0x34, 0x35, 0x36, 0x37], 0x38, 0xEDBD6815, 0x9F787F65);
    assert [0x31, 0x32, 0x33, 0x34, 0x35, 0x36, 0x37] + [0x38 as bv8] == [0x31, 0x32, 0x33, 0x34, 0x35, 0x36, 0x37, 0x38];
    KnownByte([0x31, 0x32, 0x33, 0x34, 0x35, 0x36, 0x37, 0x38], 0x39, 0x9F787F65, 0x1CF96D7C);
    assert [0x31, 0x32, 0x33, 0x34, 0x35, 0x36, 0x37, 0x38] + [0x39 as bv8] == [0x31, 0x32, 0x33, 0x34, 0x35, 0x36, 0x37, 0x38, 0x39];
  }

  // ---- The four check bytes --------------------------------------------------------

  function Hton32(h: bv32): bv32 {
    ((h & 0xFF000000) >> 24) | ((h & 0x000000FF) << 24) | ((h & 0x0000FF00) << 8) | ((h & 0x00FF0000) >> 8)
  }

  /** A 32-bit word as a little-endian host stores it. */
  function StoredBytes(v: bv32): seq<bv8> {
    [(v & 0xFF) as bv8, ((v >> 8) & 0xFF) as bv8, ((v >> 16) & 0xFF) as bv8, (v >> 24) as bv8]
  }

  /** The check bytes as they travel. */
  function CheckBytes(data: seq<bv8>): seq<bv8> {
    StoredBytes(Hton32(BitSerialCrc(data)))
  }

  /** Most significant byte first, so that no two checksums share their bytes. */
  lemma NetworkOrder(c: bv32)
    ensures StoredBytes(Hton32(c))
         == [(c >> 24) as bv8, ((c >> 16) & 0xFF) as bv8, ((c >> 8) & 0xFF) as bv8, (c & 0xFF) as bv8]
  {
  }

  /** So the check bytes of a message are its checksum in network order. */
  lemma CheckBytesInOrder(data: seq<bv8>)
    ensures var c := BitSerialCrc(data);
            CheckBytes(data) == [(c >> 24) as bv8, ((c >> 16) & 0xFF) as bv8, ((c >> 8) & 0xFF) as bv8, (c & 0xFF) as bv8]
  {
    hide BitSerialCrc, StoredBytes, Hton32;
    NetworkOrder(BitSerialCrc(data));
  }

  lemma HtonInvolutive(c: bv32)
    ensures Hton32(Hton32(c)) == c
  {
  }

  lemma StoredBytesInjective(a: bv32, b: bv32)
    requires StoredBytes(a) == StoredBytes(b)
    ensures a == b
  {
    var s, t := StoredBytes(a), StoredBytes(b);
    assert s[0] == t[0] && s[1] == t[1] && s[2] == t[2] && s[3] == t[3];
  }

  /** What a receiver takes for an intact packet. */
  predicate Accepted(msg: seq<bv8>) {
    |msg| >= 4 && msg[|msg| - 4..] == CheckBytes(msg[..|msg| - 4])
  }

  method CspCrc32Append(packet: CspPacket?) returns (err: int)
    requires packet != null ==> packet.Valid() && packet.length + 4 <= packet.data.Length
    modifies packet, if packet == null then {} else {packet.data}
    ensures packet == null ==> err == CSP_ERR_INVAL
    ensures packet != null ==>
              && err == CSP_ERR_NONE && packet.Valid()
              && packet.Payload() == old(packet.Payload()) + CheckBytes(old(packet.Payload()))
              && packet.data[packet.length..] == old(packet.data[packet.length + 4..])
  {
    if packet == null {
      return CSP_ERR_INVAL;
    }
    var crc := CrcMemory(packet.data, packet.length);
    crc := Hton32(crc);
    var bytes := StoredBytes(crc);
    hide BitSerialCrc, Hton32, StoredBytes;
    StoredLength(crc);
    CopyBytes(packet.data, packet.length, bytes);
    packet.length := packet.length + 4;
    return CSP_ERR_NONE;
  }

  /** memcpy into a buffer. */
  method CopyBytes(dst: array<bv8>, at: nat, bytes: seq<bv8>)
    requires at + |bytes| <= dst.Length
    modifies dst
    ensures dst[..] == old(dst[..at]) + bytes + old(dst[at + |bytes|..])
  {
    for i := 0 to |bytes|
      invariant dst[..] == old(dst[..at]) + bytes[..i] + old(dst[at + i..])
    {
      dst[at + i] := bytes[i];
    }
  }

  lemma StoredLength(v: bv32)
    ensures |StoredBytes(v)| == 4
  {
  }

  method CspCrc32Verify(packet: CspPacket?) returns (err: int)
    requires packet != null ==> packet.Valid()
    modifies packet
    ensures packet == null ==> err == CSP_ERR_INVAL
    ensures packet != null ==>
              && packet.Valid() && packet.data[..] == old(packet.data[..])
              && (if Accepted(old(packet.Payload()))
                  then err == CSP_ERR_NONE && packet.length == old(packet.length) - 4
                  else err == CSP_ERR_INVAL && packet.length == old(packet.length))
  {
    if packet == null {
      return CSP_ERR_INVAL;
    }
    if packet.length < 4 {
      return CSP_ERR_INVAL;
    }
    var crc := CrcMemory(packet.data, packet.length - 4);
    crc := Hton32(crc);
    hide BitSerialCrc, Hton32, StoredBytes;
    ghost var msg := packet.Payload();
    assert msg[..|msg| - 4] == packet.data[..packet.length - 4];
    assert msg[|msg| - 4..] == packet.data[packet.length - 4..packet.length];
    if packet.data[packet.length - 4..packet.length] != StoredBytes(crc) {
      return CSP_ERR_INVAL;
    } else {
      packet.length := packet.length - 4;
      return CSP_ERR_NONE;
    }
  }

  /** Sender then receiver on the same buffer: accepted, and the packet is as before. */
  method AppendThenVerify(packet: CspPacket) returns (err: int)
    requires packet.Valid() && packet.length + 4 <= packet.data.Length
    modifies packet, packet.data
    ensures err == CSP_ERR_NONE && packet.Valid() && packet.Payload() == old(packet.Payload())
  {
    hide CheckBytes;
    err := CspCrc32Append(packet);
    ghost var sent := packet.Payload();
    SealedIsAccepted(old(packet.Payload()));
    err := CspCrc32Verify(packet);
    assert packet.Payload() == sent[..|sent| - 4];
  }

  lemma SealedIsAccepted(data: seq<bv8>)
    ensures Accepted(data + CheckBytes(data))
  {
    hide StoredBytes, Hton32, BitSerialCrc;
    var msg := data + CheckBytes(data);
    StoredLength(Hton32(BitSerialCrc(data)));
    assert msg[..|msg| - 4] == data;
  }

  // ---- Burst detection -----------------------------------------------------------

  lemma {:induction false} DataBitsInjective(a: seq<bv8>, b: seq<bv8>)
    requires |a| == |b| && DataBits(a) == DataBits(b)
    ensures a == b
  {
    if a != [] {
      var x, y := a[0] as bv32, b[0] as bv32;
      hide WordBits;
      assert WordBits(x, 8) == DataBits(a)[..8] && WordBits(y, 8) == DataBits(b)[..8];
      assert DataBits(a[1..]) == DataBits(a)[8..] && DataBits(b[1..]) == DataBits(b)[8..];
      ByteBitsInjective(a[0], b[0]);
      DataBitsInjective(a[1..], b[1..]);
    }
  }

  lemma ByteBitsInjective(a: bv8, b: bv8)
    requires WordBits(a as bv32, 8) == WordBits(b as bv32, 8)
    ensures a == b
  {
    hide Shift, WordBits, Divide;
    DivideByte(0, a);
    DivideByte(0, b);
    XorComm(0, a as bv32);
    XorComm(0, b as bv32);
    XorUnit(a as bv32);
    XorUnit(b as bv32);
    Shift8IsShifts(a as bv32);
    Shift8IsShifts(b as bv32);
    ShiftsInjective(a as bv32, b as bv32, 8);
  }

  /** A change of message confined to four consecutive bytes changes the checksum. */
  lemma BurstChangesCrc(data: seq<bv8>, data': seq<bv8>, k: nat)
    requires |data| == |data'| && data != data'
    requires forall i :: 0 <= i < |data| && data[i] != data'[i] ==> k <= i < k + 4
    ensures BitSerialCrc(data) != BitSerialCrc(data')
  {
    var lo := if k < |data| then k else |data|;
    var hi := if k + 4 < |data| then k + 4 else |data|;
    var before, u, v, after := data[..lo], data[lo..hi], data'[lo..hi], data[hi..];
    assert data == before + u + after;
    assert data' == before + v + after;
    hide DataBits, Divide, Xor;
    DataBitsAppend(before + u, after);
    DataBitsAppend(before, u);
    DataBitsAppend(before + v, after);
    DataBitsAppend(before, v);
    if DataBits(u) == DataBits(v) {
      DataBitsInjective(u, v);
    }
    BurstChangesRemainder(ALL_ONES, DataBits(before), DataBits(u), DataBits(v), DataBits(after));
    if BitSerialCrc(data) == BitSerialCrc(data') {
      XorCancel(Divide(ALL_ONES, DataBits(data)), Divide(ALL_ONES, DataBits(data')), ALL_ONES);
    }
  }

  /** So a packet damaged that way in its data is refused. */
  lemma BurstIsRefused(data: seq<bv8>, data': seq<bv8>, k: nat)
    requires |data| == |data'| && data != data'
    requires forall i :: 0 <= i < |data| && data[i] != data'[i] ==> k <= i < k + 4
    ensures !Accepted(data' + CheckBytes(data))
  {
    BurstChangesCrc(data, data', k);
    hide StoredBytes, Hton32, BitSerialCrc;
    var msg := data' + CheckBytes(data);
    StoredLength(Hton32(BitSerialCrc(data)));
    assert msg[..|msg| - 4] == data' && msg[|msg| - 4..] == CheckBytes(data);
    if Accepted(msg) {
      var h, h' := Hton32(BitSerialCrc(data)), Hton32(BitSerialCrc(data'));
      StoredBytesInjective(h, h');
      HtonInvolutive(BitSerialCrc(data));
      HtonInvolutive(BitSerialCrc(data'));
    }
  }

  /** The table's top bytes are a permutation: no two entries share one. */
  lemma TopBytesDistinct(x: bv32, y: bv32)
    requires x < y < 256
    ensures 0 <= x as nat < 256 && 0 <= y as nat < 256
    ensures CrcTab(x as nat) >> 24 != CrcTab(y as nat) >> 24
  {
    hide CrcTab, Shift8;
    TableIsBitSerial(x);
    TableIsBitSerial(y);
    if CrcTab(x as nat) >> 24 == CrcTab(y as nat) >> 24 {
      TopByteDecides(x, y);
    }
  }

  lemma TopByteDecides(x: bv32, y: bv32)
    requires x < 256 && y < 256 && Shift8(x) >> 24 == Shift8(y) >> 24
    ensures x == y
  {
  }
}
