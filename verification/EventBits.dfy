/** The event bits of a 16-bit value: its low byte, bit by bit. */
module EventBits {

  /** Event bit i of x. */
  ghost predicate Bit(x: bv16, i: nat)
    requires i < 8
  {
    match i
    case 0 => x & 0x01 != 0
    case 1 => x & 0x02 != 0
    case 2 => x & 0x04 != 0
    case 3 => x & 0x08 != 0
    case 4 => x & 0x10 != 0
    case 5 => x & 0x20 != 0
    case 6 => x & 0x40 != 0
    case 7 => x & 0x80 != 0
  }

  /** One bit and no other. */
  predicate Single(m: bv16) {
    m & (m - 1) == 0 && m != 0
  }

  lemma OrMask(a: bv16, b: bv16, m: bv16)
    ensures (a | b) & m != 0 <==> a & m != 0 || b & m != 0
  {
  }

  lemma AndMask(a: bv16, b: bv16, m: bv16)
    requires Single(m)
    ensures a & b & m != 0 <==> a & m != 0 && b & m != 0
  {
  }

  lemma NotMask(a: bv16, b: bv16, m: bv16)
    requires Single(m)
    ensures a & !b & m != 0 <==> a & m != 0 && b & m == 0
  {
  }
  lemma OrBits(a: bv16, b: bv16)
    ensures Bit(a | b, 0) <==> Bit(a, 0) || Bit(b, 0)
    ensures Bit(a | b, 1) <==> Bit(a, 1) || Bit(b, 1)
    ensures Bit(a | b, 2) <==> Bit(a, 2) || Bit(b, 2)
    ensures Bit(a | b, 3) <==> Bit(a, 3) || Bit(b, 3)
    ensures Bit(a | b, 4) <==> Bit(a, 4) || Bit(b, 4)
    ensures Bit(a | b, 5) <==> Bit(a, 5) || Bit(b, 5)
    ensures Bit(a | b, 6) <==> Bit(a, 6) || Bit(b, 6)
    ensures Bit(a | b, 7) <==> Bit(a, 7) || Bit(b, 7)
  {
    OrMask(a, b, 0x01);
    OrMask(a, b, 0x02);
    OrMask(a, b, 0x04);
    OrMask(a, b, 0x08);
    OrMask(a, b, 0x10);
    OrMask(a, b, 0x20);
    OrMask(a, b, 0x40);
    OrMask(a, b, 0x80);
  }

  lemma OrBit(a: bv16, b: bv16, i: nat)
    requires i < 8
    ensures Bit(a | b, i) <==> Bit(a, i) || Bit(b, i)
  {
    hide Bit;
    OrBits(a, b);
  }

  lemma AndBits(a: bv16, b: bv16)
    ensures Bit(a & b, 0) <==> Bit(a, 0) && Bit(b, 0)
    ensures Bit(a & b, 1) <==> Bit(a, 1) && Bit(b, 1)
    ensures Bit(a & b, 2) <==> Bit(a, 2) && Bit(b, 2)
    ensures Bit(a & b, 3) <==> Bit(a, 3) && Bit(b, 3)
    ensures Bit(a & b, 4) <==> Bit(a, 4) && Bit(b, 4)
    ensures Bit(a & b, 5) <==> Bit(a, 5) && Bit(b, 5)
    ensures Bit(a & b, 6) <==> Bit(a, 6) && Bit(b, 6)
    ensures Bit(a & b, 7) <==> Bit(a, 7) && Bit(b, 7)
  {
    AndMask(a, b, 0x01);
    AndMask(a, b, 0x02);
    AndMask(a, b, 0x04);
    AndMask(a, b, 0x08);
    AndMask(a, b, 0x10);
    AndMask(a, b, 0x20);
    AndMask(a, b, 0x40);
    AndMask(a, b, 0x80);
  }

  lemma AndBit(a: bv16, b: bv16, i: nat)
    requires i < 8
    ensures Bit(a & b, i) <==> Bit(a, i) && Bit(b, i)
  {
    hide Bit;
    AndBits(a, b);
  }

  lemma NotBits(a: bv16, b: bv16)
    ensures Bit(a & !b, 0) <==> Bit(a, 0) && !Bit(b, 0)
    ensures Bit(a & !b, 1) <==> Bit(a, 1) && !Bit(b, 1)
    ensures Bit(a & !b, 2) <==> Bit(a, 2) && !Bit(b, 2)
    ensures Bit(a & !b, 3) <==> Bit(a, 3) && !Bit(b, 3)
    ensures Bit(a & !b, 4) <==> Bit(a, 4) && !Bit(b, 4)
    ensures Bit(a & !b, 5) <==> Bit(a, 5) && !Bit(b, 5)
    ensures Bit(a & !b, 6) <==> Bit(a, 6) && !Bit(b, 6)
    ensures Bit(a & !b, 7) <==> Bit(a, 7) && !Bit(b, 7)
  {
    NotMask(a, b, 0x01);
    NotMask(a, b, 0x02);
    NotMask(a, b, 0x04);
    NotMask(a, b, 0x08);
    NotMask(a, b, 0x10);
    NotMask(a, b, 0x20);
    NotMask(a, b, 0x40);
    NotMask(a, b, 0x80);
  }

  lemma NotBit(a: bv16, b: bv16, i: nat)
    requires i < 8
    ensures Bit(a & !b, i) <==> Bit(a, i) && !Bit(b, i)
  {
    hide Bit;
    NotBits(a, b);
  }

  // ---- Values of event bits only --------------------------------------------------------------

  predicate LowByte(x: bv16) {
    x & 0xff00 == 0
  }

  lemma LowMasks(x: bv16)
    requires LowByte(x)
    ensures x == 0 <==> x & 0x01 == 0 && x & 0x02 == 0 && x & 0x04 == 0 && x & 0x08 == 0
                        && x & 0x10 == 0 && x & 0x20 == 0 && x & 0x40 == 0 && x & 0x80 == 0
  {
  }

  lemma NoBits(x: bv16)
    requires LowByte(x)
    ensures x == 0 <==> !Bit(x, 0) && !Bit(x, 1) && !Bit(x, 2) && !Bit(x, 3) && !Bit(x, 4) && !Bit(x, 5) && !Bit(x, 6) && !Bit(x, 7)
  {
    LowMasks(x);
  }

  /** Such a value is 0 if and only if none of its bits is set. */
  lemma NoBitIsZero(x: bv16)
    requires LowByte(x)
    ensures x == 0 <==> forall i :: 0 <= i < 8 ==> !Bit(x, i)
  {
    hide Bit, LowByte;
    NoBits(x);
  }

  lemma LowByteParts(x: bv16, w: bv16)
    requires LowByte(w)
    ensures LowByte(w & !x) && LowByte(x & w)
  {
  }

  lemma Covered(x: bv16, w: bv16)
    requires x & w == w
    ensures w & !x == 0
  {
  }

  lemma NotCovered(x: bv16, w: bv16)
    requires w & !x == 0
    ensures x & w == w
  {
  }

  /** Every bit of w is set in x. */
  lemma AllBits(x: bv16, w: bv16)
    requires LowByte(w)
    ensures x & w == w <==> forall i :: 0 <= i < 8 && Bit(w, i) ==> Bit(x, i)
  {
    hide Bit, LowByte;
    LowByteParts(x, w);
    NoBitIsZero(w & !x);
    if x & w == w {
      Covered(x, w);
      forall i | 0 <= i < 8 && Bit(w, i)
        ensures Bit(x, i)
      {
        NotBit(w, x, i);
      }
    } else {
      if w & !x == 0 {
        NotCovered(x, w);
      }
      var i :| 0 <= i < 8 && Bit(w & !x, i);
      NotBit(w, x, i);
    }
  }

  /** Some bit of w is. */
  lemma AnyBit(x: bv16, w: bv16)
    requires LowByte(w)
    ensures x & w != 0 <==> exists i :: 0 <= i < 8 && Bit(w, i) && Bit(x, i)
  {
    hide Bit, LowByte;
    LowByteParts(x, w);
    NoBitIsZero(x & w);
    if x & w != 0 {
      var i :| 0 <= i < 8 && Bit(x & w, i);
      AndBit(x, w, i);
    } else {
      forall i | 0 <= i < 8
        ensures !(Bit(w, i) && Bit(x, i))
      {
        AndBit(x, w, i);
      }
    }
  }

  /** Nothing but its bits tells such values apart. */
  lemma BitsTell(x: bv16, y: bv16)
    requires LowByte(x) && LowByte(y) && forall i :: 0 <= i < 8 ==> (Bit(x, i) <==> Bit(y, i))
    ensures x == y
  {
    hide Bit, LowByte;
    AllBits(x, y);
    AllBits(y, x);
    AndCommutes(x, y);
  }

  lemma AndCommutes(x: bv16, y: bv16)
    ensures x & y == y & x
  {
  }
}
