/** CRC-32C (Castagnoli) as bit-serial division: the reflected polynomial of section
    12.1 of RFC 3720, one message bit per step, lowest bit first. */
module CrcDivision {

  const POLY: bv32 := 0x82F63B78
  const ALL_ONES: bv32 := 0xFFFFFFFF

  function Xor(a: bv32, b: bv32): bv32 {
    a ^ b
  }

  function Half(v: bv32): bv32 {
    v >> 1
  }

  predicate Odd(v: bv32) {
    v & 1 == 1
  }

  /** One step of the division register. */
  function Shift(r: bv32): bv32 {
    if Odd(r) then Xor(Half(r), POLY) else Half(r)
  }

  function Bit(b: bool): bv32 {
    if b then 1 else 0
  }

  /** Divide a message, given bit by bit, starting from register r. */
  function Divide(r: bv32, bits: seq<bool>): bv32
    decreases |bits|
  {
    if bits == [] then r else Divide(Shift(Xor(r, Bit(bits[0]))), bits[1..])
  }

  /** The lowest n bits of a word, lowest first. */
  function WordBits(v: bv32, n: nat): (bits: seq<bool>)
    ensures |bits| == n
    decreases n
  {
    if n == 0 then [] else [Odd(v)] + WordBits(Half(v), n - 1)
  }

  function DataBits(data: seq<bv8>): (bits: seq<bool>)
    ensures |bits| == 8 * |data|
  {
    if data == [] then [] else WordBits(data[0] as bv32, 8) + DataBits(data[1..])
  }

  /** The checksum of a message by definition. */
  function BitSerialCrc(data: seq<bv8>): bv32 {
    Xor(Divide(ALL_ONES, DataBits(data)), ALL_ONES)
  }

  // ---- Sequences ---------------------------------------------------------------

  lemma {:induction false} DivideAppend(r: bv32, u: seq<bool>, v: seq<bool>)
    ensures Divide(r, u + v) == Divide(Divide(r, u), v)
    decreases |u|
  {
    hide Shift, Bit, Xor;
    if u == [] {
      assert u + v == v;
    } else {
      assert (u + v)[1..] == u[1..] + v;
      DivideAppend(Shift(Xor(r, Bit(u[0]))), u[1..], v);
    }
  }

  lemma {:induction false} DataBitsAppend(a: seq<bv8>, b: seq<bv8>)
    ensures DataBits(a + b) == DataBits(a) + DataBits(b)
  {
    hide WordBits;
    if a == [] {
      assert a + b == b;
    } else {
      assert (a + b)[1..] == a[1..] + b;
      DataBitsAppend(a[1..], b);
    }
  }

  // ---- Linearity ---------------------------------------------------------------

  lemma XorParts(x: bv32, y: bv32)
    ensures Odd(Xor(x, y)) <==> (Odd(x) != Odd(y))
    ensures Half(Xor(x, y)) == Xor(Half(x), Half(y))
  {
  }

  lemma XorAssoc(a: bv32, b: bv32, c: bv32)
    ensures Xor(Xor(a, b), c) == Xor(a, Xor(b, c))
  {
  }

  lemma XorComm(a: bv32, b: bv32)
    ensures Xor(a, b) == Xor(b, a)
  {
  }

  lemma XorTwice(a: bv32, b: bv32)
    ensures Xor(Xor(a, b), b) == a
  {
  }

  lemma XorSwap(a: bv32, b: bv32, c: bv32)
    ensures Xor(Xor(a, b), c) == Xor(Xor(a, c), b)
  {
    hide Xor;
    XorAssoc(a, b, c);
    XorComm(b, c);
    XorAssoc(a, c, b);
  }

  lemma XorCommon(a: bv32, b: bv32, c: bv32)
    ensures Xor(Xor(a, c), Xor(b, c)) == Xor(a, b)
  {
    hide Xor;
    XorSwap(a, c, Xor(b, c));
    XorAssoc(a, b, c);
    XorTwice(Xor(a, b), c);
  }

  lemma XorUnit(a: bv32)
    ensures Xor(a, 0) == a
  {
  }

  lemma XorCancel(a: bv32, b: bv32, c: bv32)
    requires Xor(a, c) == Xor(b, c) || Xor(c, a) == Xor(c, b)
    ensures a == b
  {
  }

  lemma ShiftLinear(x: bv32, y: bv32)
    ensures Shift(Xor(x, y)) == Xor(Shift(x), Shift(y))
  {
    hide Xor, Half, Odd;
    XorParts(x, y);
    XorAssoc(Half(x), Half(y), POLY);
    XorSwap(Half(x), Half(y), POLY);
    XorCommon(Half(x), Half(y), POLY);
  }

  // ---- Feeding a word bit by bit equals xoring it in at once ---------------------

  function Shifts(r: bv32, n: nat): bv32
    decreases n
  {
    if n == 0 then r else Shifts(Shift(r), n - 1)
  }

  /** v >> n, one position at a time. */
  function Drop(v: bv32, n: nat): bv32
    decreases n
  {
    if n == 0 then v else Drop(Half(v), n - 1)
  }

  lemma LowBitSplits(v: bv32)
    ensures var even := v & 0xFFFFFFFE;
            v == Xor(Bit(Odd(v)), even) && !Odd(even) && Half(even) == Half(v)
  {
  }

  lemma AbsorbBit(r: bv32, v: bv32)
    ensures Shift(Xor(r, v)) == Xor(Shift(Xor(r, Bit(Odd(v)))), Half(v))
  {
    hide Xor, Half, Bit, Odd;
    var b, even := Bit(Odd(v)), v & 0xFFFFFFFE;
    LowBitSplits(v);
    XorAssoc(r, b, even);
    ShiftLinear(Xor(r, b), even);
  }

  lemma {:induction false} AbsorbWord(r: bv32, v: bv32, n: nat)
    ensures Shifts(Xor(r, v), n) == Xor(Divide(r, WordBits(v, n)), Drop(v, n))
    decreases n
  {
    hide Shift, Bit, Xor, Half, Odd;
    if n > 0 {
      AbsorbBit(r, v);
      AbsorbWord(Shift(Xor(r, Bit(Odd(v)))), Half(v), n - 1);
      assert WordBits(v, n)[1..] == WordBits(Half(v), n - 1);
    }
  }

  // ---- One table step is eight bit steps ------------------------------------------

  function Shift8(r: bv32): bv32 {
    Shift(Shift(Shift(Shift(Shift(Shift(Shift(Shift(r))))))))
  }

  lemma Shift8IsShifts(r: bv32)
    ensures Shifts(r, 8) == Shift8(r)
  {
    hide Shift;
    assert Shifts(r, 8) == Shifts(Shift(Shift(r)), 6) == Shifts(Shift(Shift(Shift(Shift(r)))), 4);
  }

  lemma Shift8Linear(x: bv32, y: bv32)
    ensures Shift8(Xor(x, y)) == Xor(Shift8(x), Shift8(y))
  {
    hide Shift8, Shift, Xor;
    ShiftsLinear(x, y, 8);
    Shift8IsShifts(x);
    Shift8IsShifts(y);
    Shift8IsShifts(Xor(x, y));
  }

  lemma {:induction false} ShiftsLinear(x: bv32, y: bv32, n: nat)
    ensures Shifts(Xor(x, y), n) == Xor(Shifts(x, n), Shifts(y, n))
    decreases n
  {
    hide Shift, Xor;
    if n > 0 {
      ShiftLinear(x, y);
      ShiftsLinear(Shift(x), Shift(y), n - 1);
    }
  }

  function LowByte(x: bv32): bv32 {
    x & 0xFF
  }

  function HighBytes(x: bv32): bv32 {
    x & 0xFFFFFF00
  }

  function DownByte(x: bv32): bv32 {
    x >> 8
  }

  /** A register whose low byte is clear just moves down. */
  lemma Shift8HighPart(x: bv32)
    ensures Shift8(HighBytes(x)) == DownByte(x)
  {
  }

  lemma LowByteSplits(x: bv32)
    ensures x == Xor(LowByte(x), HighBytes(x))
  {
  }

  /** Eight steps are one table step: the low byte selects, the rest moves down. */
  lemma Shift8Splits(x: bv32)
    ensures Shift8(x) == Xor(Shift8(LowByte(x)), DownByte(x))
  {
    hide *;
    LowByteSplits(x);
    Shift8Linear(LowByte(x), HighBytes(x));
    Shift8HighPart(x);
  }

  lemma DropByte(v: bv32)
    requires v < 256
    ensures Drop(v, 8) == 0
  {
    assert Drop(v, 8) == Drop(Half(Half(v)), 6) == Drop(Half(Half(Half(Half(v)))), 4);
    assert Half(Half(Half(Half(v)))) == v >> 4 && Half(Half(Half(Half(v >> 4)))) == 0;
  }

  lemma DivideByte(r: bv32, b: bv8)
    ensures Divide(r, WordBits(b as bv32, 8)) == Shift8(Xor(r, b as bv32))
  {
    hide Shift8, Shifts, Xor, Divide, WordBits, Drop;
    var v := b as bv32;
    DropByte(v);
    AbsorbWord(r, v, 8);
    Shift8IsShifts(Xor(r, v));
    XorUnit(Divide(r, WordBits(v, 8)));
  }

  // ---- Nothing is lost: the register and short windows are recoverable ------------

  /** The polynomial's top bit is set, so a step can be undone. */
  lemma ShiftInjective(x: bv32, y: bv32)
    requires Shift(x) == Shift(y)
    ensures x == y
  {
  }

  lemma {:induction false} ShiftsInjective(x: bv32, y: bv32, n: nat)
    requires Shifts(x, n) == Shifts(y, n)
    ensures x == y
    decreases n
  {
    hide Shift;
    if n > 0 {
      ShiftsInjective(Shift(x), Shift(y), n - 1);
      ShiftInjective(x, y);
    }
  }

  lemma {:induction false} DivideInjective(x: bv32, y: bv32, bits: seq<bool>)
    requires Divide(x, bits) == Divide(y, bits)
    ensures x == y
    decreases |bits|
  {
    hide Shift, Xor, Bit;
    if bits != [] {
      var b := Bit(bits[0]);
      DivideInjective(Shift(Xor(x, b)), Shift(Xor(y, b)), bits[1..]);
      ShiftInjective(Xor(x, b), Xor(y, b));
      XorCancel(x, y, b);
    }
  }

  /** The word of n ones. */
  function LowOnes(n: nat): bv32 {
    match n
    case 0 => 0x0
    case 1 => 0x1
    case 2 => 0x3
    case 3 => 0x7
    case 4 => 0xF
    case 5 => 0x1F
    case 6 => 0x3F
    case 7 => 0x7F
    case 8 => 0xFF
    case 9 => 0x1FF
    case 10 => 0x3FF
    case 11 => 0x7FF
    case 12 => 0xFFF
    case 13 => 0x1FFF
    case 14 => 0x3FFF
    case 15 => 0x7FFF
    case 16 => 0xFFFF
    case 17 => 0x1FFFF
    case 18 => 0x3FFFF
    case 19 => 0x7FFFF
    case 20 => 0xFFFFF
    case 21 => 0x1FFFFF
    case 22 => 0x3FFFFF
    case 23 => 0x7FFFFF
    case 24 => 0xFFFFFF
    case 25 => 0x1FFFFFF
    case 26 => 0x3FFFFFF
    case 27 => 0x7FFFFFF
    case 28 => 0xFFFFFFF
    case 29 => 0x1FFFFFFF
    case 30 => 0x3FFFFFFF
    case 31 => 0x7FFFFFFF
    case _ => 0xFFFFFFFF
  }

  lemma LowOnesStep(n: nat)
    requires 0 < n <= 32
    ensures Half(LowOnes(n)) == LowOnes(n - 1) && Odd(LowOnes(n))
  {
  }

  function Push(v: bv32, b: bool): bv32 {
    (v << 1) | Bit(b)
  }

  predicate Within(v: bv32, mask: bv32) {
    v & !mask == 0
  }

  lemma PushFits(v: bv32, mask: bv32, b: bool)
    requires Within(v, Half(mask)) && Odd(mask)
    ensures Within(Push(v, b), mask) && Half(Push(v, b)) == v && Odd(Push(v, b)) == b
  {
  }

  /** The word whose lowest bits are the given ones. */
  function BitsWord(bits: seq<bool>): bv32
    decreases |bits|
  {
    if bits == [] then 0 else Push(BitsWord(bits[1..]), bits[0])
  }

  /** Up to 32 bits fit in a word and can be read back from it. */
  lemma {:induction false} BitsWordFits(bits: seq<bool>)
    requires |bits| <= 32
    ensures Within(BitsWord(bits), LowOnes(|bits|))
    ensures WordBits(BitsWord(bits), |bits|) == bits
    ensures Drop(BitsWord(bits), |bits|) == 0
    decreases |bits|
  {
    hide Half, Odd, Push, LowOnes;
    if bits == [] {
      assert Within(0, LowOnes(0));
    } else {
      hide Within;
      BitsWordFits(bits[1..]);
      LowOnesStep(|bits|);
      PushFits(BitsWord(bits[1..]), LowOnes(|bits|), bits[0]);
      assert bits == [bits[0]] + bits[1..];
    }
  }

  /** Two different windows of at most 32 bits never lead to the same register. */
  lemma WindowInjective(r: bv32, u: seq<bool>, v: seq<bool>)
    requires |u| == |v| <= 32 && Divide(r, u) == Divide(r, v)
    ensures u == v
  {
    hide Divide, WordBits, Drop, Shifts, Xor, BitsWord, LowOnes, Within;
    var n, wu, wv := |u|, BitsWord(u), BitsWord(v);
    BitsWordFits(u);
    BitsWordFits(v);
    AbsorbWord(r, wu, n);
    AbsorbWord(r, wv, n);
    ShiftsInjective(Xor(r, wu), Xor(r, wv), n);
    XorCancel(wu, wv, r);
  }

  /** Burst detection: whatever comes before and after, a change confined to a window
      of at most 32 bits changes the remainder. */
  lemma BurstChangesRemainder(r: bv32, before: seq<bool>, u: seq<bool>, v: seq<bool>, after: seq<bool>)
    requires |u| == |v| <= 32 && u != v
    ensures Divide(r, before + u + after) != Divide(r, before + v + after)
  {
    hide Divide;
    var c := Divide(r, before);
    DivideAppend(r, before + u, after);
    DivideAppend(r, before, u);
    DivideAppend(r, before + v, after);
    DivideAppend(r, before, v);
    if Divide(r, before + u + after) == Divide(r, before + v + after) {
      DivideInjective(Divide(c, u), Divide(c, v), after);
      WindowInjective(c, u, v);
    }
  }

  /** The bound is sharp: a change of the 33 bits of the polynomial itself, its leading
      term included, goes unseen. */
  lemma LongerBurstHides(r: bv32)
    ensures var u, v := [false] + WordBits(0, 32), [true] + WordBits(POLY, 32);
            |u| == |v| == 33 && u != v && Divide(r, u) == Divide(r, v)
  {
    hide Shift, Xor, WordBits, Drop, Shifts;
    var u, v := [false] + WordBits(0, 32), [true] + WordBits(POLY, 32);
    assert u[1..] == WordBits(0, 32) && v[1..] == WordBits(POLY, 32);
    assert u[0] != v[0];
    var r0, r1 := Shift(Xor(r, 0)), Shift(Xor(r, 1));
    ShiftOfOne();
    ShiftLinear(r, 1);
    XorUnit(r);
    XorTwice(r0, POLY);
    AbsorbWord(r0, 0, 32);
    AbsorbWord(r1, POLY, 32);
    XorUnit(r0);
    DropWords();
    XorUnit(Divide(r0, u[1..]));
    XorUnit(Divide(r1, v[1..]));
  }

  lemma ShiftOfOne()
    ensures Shift(1) == POLY
  {
  }

  lemma DropWords()
    ensures Drop(0, 32) == 0 && Drop(POLY, 32) == 0
  {
    DropZero(32);
    DropFour(POLY, 32);
    DropFour(0x82F63B7, 28);
    DropFour(0x82F63B, 24);
    DropFour(0x82F63, 20);
    DropFour(0x82F6, 16);
    DropFour(0x82F, 12);
    DropFour(0x82, 8);
    DropFour(0x8, 4);
  }

  lemma {:induction false} DropZero(n: nat)
    ensures Drop(0, n) == 0
  {
    if n > 0 { DropZero(n - 1); }
  }

  lemma DropFour(v: bv32, n: nat)
    requires n >= 4
    ensures Drop(v, n) == Drop(v >> 4, n - 4)
  {
    assert Drop(v, n) == Drop(Half(Half(v)), n - 2) == Drop(Half(Half(Half(Half(v)))), n - 4);
    assert Half(Half(Half(Half(v)))) == v >> 4;
  }
}
