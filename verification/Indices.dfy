/** Powers of two, bit reversal, and the index arithmetic of strided loops. */
module Indices {

  function Pow2(e: nat): (p: nat)
    ensures p > 0
  {
    if e == 0 then 1 else 2 * Pow2(e - 1)
  }

  lemma {:induction false} Pow2Add(a: nat, b: nat)
    ensures Pow2(a + b) == Pow2(a) * Pow2(b)
    ensures b > 0 ==> Pow2(a + b) == 2 * Pow2(a) * Pow2(b - 1)
  {
    if b > 0 {
      Pow2Add(a, b - 1);
      assert Pow2(a + b) == 2 * Pow2(a + (b - 1));
      Doubling(Pow2(a), Pow2(b - 1));
    }
  }

  lemma Doubling(p: nat, q: nat)
    ensures 2 * (p * q) == p * (2 * q) == 2 * p * q
  {
  }

  /** The lowest `bits` bits of i in reverse order. */
  function RevBits(bits: nat, i: nat): (r: nat)
  {
    if bits == 0 then 0
    else (if i % 2 == 0 then 0 else Pow2(bits - 1)) + RevBits(bits - 1, i / 2)
  }

  lemma RevBitsStep(bits: nat, i: nat, b: nat, q: nat)
    requires i == 2 * q + b && b < 2
    ensures RevBits(bits + 1, i) == (if b == 0 then 0 else Pow2(bits)) + RevBits(bits, q)
  {
    hide Pow2;
    assert i % 2 == b && i / 2 == q;
  }

  lemma RevBitsDouble(bits: nat, q: nat)
    requires bits > 0
    ensures RevBits(bits, 2 * q) == RevBits(bits - 1, q)
    ensures RevBits(bits, 2 * q + 1) == RevBits(bits - 1, q) + Pow2(bits - 1)
  {
    hide RevBits;
    RevBitsStep(bits - 1, 2 * q, 0, q);
    RevBitsStep(bits - 1, 2 * q + 1, 1, q);
  }

  /** The cell reached from `off` after j strides of st. */
  function At(off: nat, j: nat, st: nat): nat {
    off + j * st
  }

  /** The angle index of term j, at stride st, of bin k. */
  function Angle(j: nat, st: nat, k: nat): nat {
    j * st * k
  }

  lemma MulMono(a: nat, b: nat, c: nat)
    requires a <= b
    ensures a * c <= b * c && c * a <= c * b
  {
  }

  lemma MulPositive(a: nat, b: nat)
    ensures a * b >= 0
    ensures a > 0 && b > 0 ==> a * b > 0
  {
  }

  lemma OneMore(j: nat, d: nat)
    requires j > 0
    ensures (j - 1) * d + d == j * d
  {
  }

  lemma DivModUnique(i: nat, d: nat, q: nat, r: nat)
    requires d > 0 && r < d && i == d * q + r
    ensures i / d == q && i % d == r
  {
    var q' := i / d;
    if q' < q {
      MulMono(q' + 1, q, d);
    } else if q < q' {
      MulMono(q + 1, q', d);
    }
  }

  /** Both ends of the butterfly through cell i lie in the memory region. */
  lemma PairInRange(n: nat, angf: nat, i: nat)
    requires n > 0 && i < 2 * n * angf
    ensures i % (2 * n) < n ==> i + n < 2 * n * angf
    ensures i % (2 * n) >= n ==> i - n >= 0
    ensures i / (2 * n) < angf
  {
    var q, o := i / (2 * n), i % (2 * n);
    assert i == 2 * n * q + o;
    if q >= angf {
      MulMono(angf, q, 2 * n);
    } else {
      MulMono(q + 1, angf, 2 * n);
      assert 2 * n * (q + 1) == 2 * n * q + 2 * n;
      MulPositive(2 * n, q);
    }
  }

  /** A block of 2n cells is two blocks of n cells. */
  lemma PairBlocks(n: nat, i: nat)
    requires n > 0
    ensures i % (2 * n) < n ==>
              && i / n == 2 * (i / (2 * n)) && i % n == i % (2 * n)
              && (i + n) / n == 2 * (i / (2 * n)) + 1 && (i + n) % n == i % (2 * n)
    ensures i % (2 * n) >= n ==>
              && i - n >= 0
              && i / n == 2 * (i / (2 * n)) + 1 && i % n == i % (2 * n) - n
              && (i - n) / n == 2 * (i / (2 * n)) && (i - n) % n == i % (2 * n) - n
  {
    var q, o := i / (2 * n), i % (2 * n);
    assert i == 2 * n * q + o;
    Doubling(n, q);
    TwoBlocks(n, q, o, i);
  }

  lemma TwoBlocks(n: nat, q: nat, o: nat, i: nat)
    requires n > 0 && o < 2 * n && i == n * (2 * q) + o
    ensures o < n ==> i / n == 2 * q && i % n == o && (i + n) / n == 2 * q + 1 && (i + n) % n == o
    ensures o >= n ==> i - n >= 0 && i / n == 2 * q + 1 && i % n == o - n && (i - n) / n == 2 * q && (i - n) % n == o - n
  {
    var e := 2 * q;
    assert n * (e + 1) == n * e + n;
    MulPositive(n, e);
    if o < n {
      DivModUnique(i, n, e, o);
      DivModUnique(i + n, n, e + 1, o);
    } else {
      DivModUnique(i, n, e + 1, o - n);
      DivModUnique(i - n, n, e, o - n);
    }
  }

  lemma EvenOddIndices(off: nat, st: nat, p: nat, k: nat)
    ensures At(off, 2 * p, st) == At(off, p, 2 * st)
    ensures Angle(2 * p, st, k) == Angle(p, 2 * st, k)
    ensures At(off, 2 * p + 1, st) == At(off + st, p, 2 * st)
    ensures Angle(2 * p + 1, st, k) == Angle(p, 2 * st, k) + st * k
  {
    assert (2 * p + 1) * st == p * (2 * st) + st;
    assert (p * (2 * st) + st) * k == p * (2 * st) * k + st * k;
  }

  lemma ShiftedAngle(j: nat, st: nat, k: nat, n: nat, N: nat)
    requires st * n == N
    ensures Angle(j, st, k + n) == Angle(j, st, k) + j * N
  {
    assert j * st * (k + n) == j * st * k + j * st * n;
    assert j * st * n == j * (st * n);
  }
}
