/** The in-place FFT of fft_memory.c, over exact complex numbers and for any
    N == 2^m points.  The twiddle factor is a parameter `w`: all that is used of
    it is that it is a character of the integers with w(N/2) == -1. */
module Fft {
  import opened ComplexNumbers
  import opened Indices

  // ---- Specification: the discrete Fourier transform -------------------------

  /** The first `n` terms of the sum over j of x(off + j*stride) * w(j*stride*k). */
  ghost function PartialDft(x: nat -> Complex, w: nat -> Complex, off: nat, stride: nat, n: nat, k: nat): Complex {
    if n == 0 then ZERO
    else Add(PartialDft(x, w, off, stride, n - 1, k),
             Mul(x(At(off, n - 1, stride)), w(Angle(n - 1, stride, k))))
  }

  /** Bin k of the N-point transform: the sum over j < N of x(j) * w(j*k). */
  ghost function Dft(x: nat -> Complex, w: nat -> Complex, N: nat, k: nat): Complex {
    PartialDft(x, w, 0, 1, N, k)
  }

  ghost predicate Multiplicative(w: nat -> Complex, a: nat, b: nat) {
    w(a + b) == Mul(w(a), w(b))
  }

  ghost predicate IsTwiddle(w: nat -> Complex, N: nat) {
    && w(0) == ONE
    && (forall a: nat, b: nat :: Multiplicative(w, a, b))
    && (N > 1 ==> w(N / 2) == Neg(ONE))
  }

  // ---- One stage of butterflies, as a function of the whole memory -----------

  /** What stage n leaves in cell i: the sum or the difference of a butterfly whose
      two ends are n cells apart. */
  ghost function StageCell(a: seq<Complex>, w: nat -> Complex, n: nat, angf: nat, i: nat): Complex
    requires n > 0 && |a| == 2 * n * angf && i < |a|
  {
    var k := i % (2 * n);
    PairInRange(n, angf, i);
    if k < n then Add(a[i], Mul(a[i + n], w(k * angf)))
    else Sub(a[i - n], Mul(a[i], w((k - n) * angf)))
  }

  ghost function Stage(a: seq<Complex>, w: nat -> Complex, n: nat, angf: nat): (b: seq<Complex>)
    requires n > 0 && |a| == 2 * n * angf
  {
    seq(|a|, i requires 0 <= i < |a| => StageCell(a, w, n, angf, i))
  }

  /** All remaining stages once blocks of 2^s cells are transformed, t of them. */
  ghost function Stages(a: seq<Complex>, w: nat -> Complex, s: nat, t: nat): (b: seq<Complex>)
    requires |a| == Pow2(s + t)
    ensures |b| == |a|
    decreases t
  {
    if t == 0 then a
    else
      Pow2Add(s, t);
      Pow2Add(s + 1, t - 1);
      Stages(Stage(a, w, Pow2(s), Pow2(t - 1)), w, s + 1, t - 1)
  }

  // ---- Splitting a transform into its even and odd halves --------------------

  lemma {:induction false} SplitEvenOdd(x: nat -> Complex, w: nat -> Complex, off: nat, st: nat, n: nat, k: nat)
    requires forall a: nat, b: nat :: Multiplicative(w, a, b)
    ensures PartialDft(x, w, off, st, 2 * n, k)
         == Add(PartialDft(x, w, off, 2 * st, n, k),
                Mul(PartialDft(x, w, off + st, 2 * st, n, k), w(st * k)))
  {
    hide Add, Mul, At, Angle;
    if n == 0 {
      hide Add, Mul;
      ZeroSplit(w(st * k));
    } else {
      var p := n - 1;
      SplitEvenOdd(x, w, off, st, p, k);
      EvenOddIndices(off, st, p, k);
      var E, O := PartialDft(x, w, off, 2 * st, p, k), PartialDft(x, w, off + st, 2 * st, p, k);
      var we, w1 := w(Angle(p, 2 * st, k)), w(st * k);
      assert Multiplicative(w, Angle(p, 2 * st, k), st * k);
      assert 2 * n - 1 == 2 * p + 1;
      Regroup(E, O, x(At(off, p, 2 * st)), x(At(off + st, p, 2 * st)), we, w1);
    }
  }

  lemma ZeroSplit(v: Complex)
    ensures Add(ZERO, Mul(ZERO, v)) == ZERO
  {
  }

  lemma Regroup(E: Complex, O: Complex, e: Complex, o: Complex, we: Complex, w1: Complex)
    ensures Add(Add(Add(E, Mul(O, w1)), Mul(e, we)), Mul(o, Mul(we, w1)))
         == Add(Add(E, Mul(e, we)), Mul(Add(O, Mul(o, we)), w1))
  {
    hide Add, Mul;
    MulAssoc(o, we, w1);
    MulComm(Add(O, Mul(o, we)), w1);
    MulAdd(w1, O, Mul(o, we));
    MulComm(w1, O);
    MulComm(w1, Mul(o, we));
    var P, Q, R := Mul(O, w1), Mul(e, we), Mul(o, Mul(we, w1));
    AddInterchange(E, P, Q, R);
    AddInterchange(Add(E, P), Q, R, R);
  }

  lemma OneTurn(w: nat -> Complex, N: nat, a: nat)
    requires IsTwiddle(w, N) && N > 1 && N % 2 == 0
    ensures w(a + N) == w(a)
  {
    hide Mul, Neg;
    var h := N / 2;
    assert h + h == N;
    assert Multiplicative(w, h, h) && Multiplicative(w, a, N);
    NegSquared();
    MulOne(w(a));
  }

  lemma {:induction false} FullTurns(w: nat -> Complex, N: nat, j: nat)
    requires IsTwiddle(w, N) && N > 1 && N % 2 == 0
    ensures w(j * N) == ONE
  {
    hide Mul, Multiplicative;
    if j == 0 {
      assert 0 * N == 0;
    } else {
      FullTurns(w, N, j - 1);
      OneTurn(w, N, (j - 1) * N);
      OneMore(j, N);
    }
  }

  /** A block transform of n points at stride st has period n in k. */
  lemma {:induction false} Periodic(x: nat -> Complex, w: nat -> Complex, off: nat, st: nat, n: nat, N: nat, c: nat, k: nat)
    requires IsTwiddle(w, N) && N > 1 && N % 2 == 0 && st * n == N && c <= n
    ensures PartialDft(x, w, off, st, c, k + n) == PartialDft(x, w, off, st, c, k)
  {
    hide Add, Mul, At, Angle;
    if c > 0 {
      var j := c - 1;
      Periodic(x, w, off, st, n, N, j, k);
      ShiftedAngle(j, st, k, n, N);
      assert Multiplicative(w, Angle(j, st, k), j * N);
      FullTurns(w, N, j);
      MulOne(w(Angle(j, st, k)));
    }
  }

  /** Half a turn further the odd half enters with the opposite sign. */
  lemma HalfTurn(w: nat -> Complex, st: nat, n: nat, N: nat, k: nat, B: Complex)
    requires IsTwiddle(w, N) && N == 2 * (st * n) && N > 0
    ensures Mul(B, w(st * (k + n))) == Neg(Mul(B, w(st * k)))
  {
    hide Mul;
    assert st * (k + n) == st * k + st * n;
    assert Multiplicative(w, st * k, st * n);
    var v := w(st * k);
    MulNeg(v, ONE);
    MulOne(v);
    MulNeg(B, v);
  }

  // ---- The invariant of the outer loop ---------------------------------------

  /** With blocks of n cells transformed, cell i holds a bin of the transform of the
      subsequence that starts at its bit-reversed block number and has stride st. */
  ghost predicate CellDone(v: Complex, x: nat -> Complex, w: nat -> Complex, t: nat, st: nat, n: nat, i: nat)
    requires n > 0
  {
    v == PartialDft(x, w, RevBits(t, i / n), st, n, i % n)
  }

  ghost predicate BlocksDone(a: seq<Complex>, x: nat -> Complex, w: nat -> Complex, t: nat, st: nat, n: nat)
    requires n > 0
  {
    forall i :: 0 <= i < |a| ==> CellDone(a[i], x, w, t, st, n, i)
  }

  lemma ButterflyIsDft(a: seq<Complex>, x: nat -> Complex, w: nat -> Complex, t: nat, angf: nat, n: nat, i: nat)
    requires t > 0 && n > 0 && angf == Pow2(t - 1) && |a| == 2 * n * angf && i < |a|
    requires BlocksDone(a, x, w, t, 2 * angf, n) && IsTwiddle(w, |a|)
    ensures CellDone(StageCell(a, w, n, angf, i), x, w, t - 1, angf, 2 * n, i)
  {
    hide Add, Mul, At, Angle, Sub, Neg, PartialDft, RevBits, Pow2, IsTwiddle;
    var q, o := i / (2 * n), i % (2 * n);
    PairInRange(n, angf, i);
    PairBlocks(n, i);
    RevBitsDouble(t, q);
    var iA := if o < n then i else i - n;
    assert CellDone(a[iA], x, w, t, 2 * angf, n, iA);
    assert CellDone(a[iA + n], x, w, t, 2 * angf, n, iA + n);
    if o < n {
      ButterflySum(x, w, RevBits(t - 1, q), angf, n, |a|, o);
    } else {
      ButterflyDifference(x, w, RevBits(t - 1, q), angf, n, |a|, o - n);
    }
  }

  lemma StageAdvances(a: seq<Complex>, x: nat -> Complex, w: nat -> Complex, t: nat, angf: nat, n: nat)
    requires t > 0 && n > 0 && angf == Pow2(t - 1) && |a| == 2 * n * angf
    requires BlocksDone(a, x, w, t, 2 * angf, n) && IsTwiddle(w, |a|)
    ensures |Stage(a, w, n, angf)| == |a|
    ensures BlocksDone(Stage(a, w, n, angf), x, w, t - 1, angf, 2 * n)
  {
    hide StageCell, CellDone, IsTwiddle;
    forall i | 0 <= i < |a|
      ensures CellDone(StageCell(a, w, n, angf, i), x, w, t - 1, angf, 2 * n, i)
    {
      ButterflyIsDft(a, x, w, t, angf, n, i);
    }
  }

  lemma ButterflySum(x: nat -> Complex, w: nat -> Complex, off: nat, st: nat, n: nat, N: nat, k: nat)
    requires IsTwiddle(w, N)
    ensures PartialDft(x, w, off, st, 2 * n, k)
         == Add(PartialDft(x, w, off, 2 * st, n, k), Mul(PartialDft(x, w, off + st, 2 * st, n, k), w(k * st)))
  {
    hide Add, Mul, PartialDft, Multiplicative, Neg;
    assert k * st == st * k;
    SplitEvenOdd(x, w, off, st, n, k);
  }

  lemma ButterflyDifference(x: nat -> Complex, w: nat -> Complex, off: nat, st: nat, n: nat, N: nat, k: nat)
    requires N == 2 * n * st && N > 0 && IsTwiddle(w, N)
    ensures PartialDft(x, w, off, st, 2 * n, k + n)
         == Sub(PartialDft(x, w, off, 2 * st, n, k), Mul(PartialDft(x, w, off + st, 2 * st, n, k), w(k * st)))
  {
    hide Add, Mul, At, Angle, Sub, Neg, PartialDft;
    var A, B := PartialDft(x, w, off, 2 * st, n, k), PartialDft(x, w, off + st, 2 * st, n, k);
    assert k * st == st * k;
    assert N == 2 * (st * n) && N == 2 * st * n;
    SplitEvenOdd(x, w, off, st, n, k + n);
    Periodic(x, w, off, 2 * st, n, N, n, k);
    Periodic(x, w, off + st, 2 * st, n, N, n, k);
    HalfTurn(w, st, n, N, k, B);
    AddNeg(A, Mul(B, w(st * k)));
  }

  lemma {:induction false} StagesAreDft(a: seq<Complex>, x: nat -> Complex, w: nat -> Complex, s: nat, t: nat)
    requires |a| == Pow2(s + t) && BlocksDone(a, x, w, t, Pow2(t), Pow2(s)) && IsTwiddle(w, |a|)
    ensures BlocksDone(Stages(a, w, s, t), x, w, 0, 1, Pow2(s + t))
    decreases t
  {
    hide Stage, BlocksDone, IsTwiddle;
    if t > 0 {
      Pow2Add(s, t);
      Pow2Add(s + 1, t - 1);
      StageAdvances(a, x, w, t, Pow2(t - 1), Pow2(s));
      StagesAreDft(Stage(a, w, Pow2(s), Pow2(t - 1)), x, w, s + 1, t - 1);
    }
  }

  lemma OnePoint(x: nat -> Complex, w: nat -> Complex, off: nat, st: nat)
    requires w(0) == ONE
    ensures PartialDft(x, w, off, st, 1, 0) == x(off)
  {
    hide Add, Mul;
    assert At(off, 0, st) == off && Angle(0, st, 0) == 0;
    assert PartialDft(x, w, off, st, 0, 0) == ZERO;
    MulOne(x(off));
    AddZero(x(off));
  }

  /** The FFT is the DFT: on a bit-reversed load, cell k ends as bin k. */
  lemma FftIsDft(a: seq<Complex>, x: nat -> Complex, w: nat -> Complex, m: nat)
    requires |a| == Pow2(m) && IsTwiddle(w, Pow2(m))
    requires forall i :: 0 <= i < |a| ==> a[i] == x(RevBits(m, i))
    ensures forall k :: 0 <= k < |a| ==> Stages(a, w, 0, m)[k] == Dft(x, w, |a|, k)
  {
    hide PartialDft, Stages, RevBits;
    forall i | 0 <= i < |a|
      ensures CellDone(a[i], x, w, m, Pow2(m), 1, i)
    {
      DivModUnique(i, 1, i, 0);
      OnePoint(x, w, RevBits(m, i), Pow2(m));
    }
    StagesAreDft(a, x, w, 0, m);
    var b := Stages(a, w, 0, m);
    forall k | 0 <= k < |a|
      ensures b[k] == Dft(x, w, |a|, k)
    {
      assert CellDone(b[k], x, w, 0, 1, |a|, k);
      DivModUnique(k, |a|, 0, k);
      RevNothing();
    }
  }

  lemma RevNothing()
    ensures RevBits(0, 0) == 0
  {
  }

  // ---- Real input -------------------------------------------------------------

  /** The angle of bin N - k is the conjugate one. */
  lemma MirroredAngle(w: nat -> Complex, N: nat, j: nat, k: nat)
    requires IsTwiddle(w, N) && OnUnitCircle(w) && N > 1 && N % 2 == 0 && k <= N
    ensures w(Angle(j, 1, N - k)) == Conj(w(Angle(j, 1, k)))
  {
    hide Mul, NormSq, Conj;
    var a, b := Angle(j, 1, N - k), Angle(j, 1, k);
    assert a + b == j * N;
    assert Multiplicative(w, a, b);
    FullTurns(w, N, j);
    InverseIsConj(w(a), w(b));
  }

  /** The transform of real samples is symmetric: bin N - k is the conjugate of bin k. */
  lemma {:induction false} RealInput(x: nat -> Complex, w: nat -> Complex, n: nat, N: nat, k: nat)
    requires IsTwiddle(w, N) && OnUnitCircle(w) && N > 1 && N % 2 == 0 && k <= N
    requires forall j: nat :: x(j).im == 0.0
    ensures PartialDft(x, w, 0, 1, n, N - k) == Conj(PartialDft(x, w, 0, 1, n, k))
  {
    hide Add, Mul, Conj, At, Angle, IsTwiddle, OnUnitCircle;
    if n == 0 {
      ConjOfReal(ZERO, ZERO);
    } else {
      RealInput(x, w, n - 1, N, k);
      MirroredAngle(w, N, n - 1, k);
      ConjOfReal(x(At(0, n - 1, 1)), w(Angle(n - 1, 1, k)));
      ConjAdd(PartialDft(x, w, 0, 1, n - 1, k), Mul(x(At(0, n - 1, 1)), w(Angle(n - 1, 1, k))));
    }
  }

  // ---- Energy -----------------------------------------------------------------

  ghost function Energy(a: seq<Complex>, lo: nat, hi: nat): real
    requires lo <= hi <= |a|
    decreases hi - lo
  {
    if lo == hi then 0.0 else Energy(a, lo, hi - 1) + NormSq(a[hi - 1])
  }

  lemma {:induction false} EnergySplits(a: seq<Complex>, lo: nat, mid: nat, hi: nat)
    requires lo <= mid <= hi <= |a|
    ensures Energy(a, lo, hi) == Energy(a, lo, mid) + Energy(a, mid, hi)
    decreases hi - mid
  {
    if mid < hi { EnergySplits(a, lo, mid, hi - 1); }
  }

  ghost predicate OnUnitCircle(w: nat -> Complex) {
    forall j: nat :: NormSq(w(j)) == 1.0
  }

  /** One butterfly doubles the energy of its two cells. */
  lemma ButterflyDoubles(a: seq<Complex>, w: nat -> Complex, n: nat, angf: nat, q: nat, k: nat)
    requires n > 0 && |a| == 2 * n * angf && k < n && OnUnitCircle(w) && 2 * n * q + 2 * n <= |a|
    requires 0 <= 2 * n * q
    ensures |Stage(a, w, n, angf)| == |a|
    ensures NormSq(Stage(a, w, n, angf)[2 * n * q + k]) + NormSq(Stage(a, w, n, angf)[2 * n * q + n + k])
         == 2.0 * (NormSq(a[2 * n * q + k]) + NormSq(a[2 * n * q + n + k]))
  {
    hide Add, Mul, Sub, NormSq;
    var p := 2 * n * q;
    DivModUnique(p + k, 2 * n, q, k);
    DivModUnique(p + n + k, 2 * n, q, n + k);
    var A, C := a[p + k], Mul(a[p + n + k], w(k * angf));
    Parallelogram(A, C);
    NormSqMul(a[p + n + k], w(k * angf));
  }

  /** The first c butterflies of the block at p double the energy of their cells. */
  lemma {:induction false} ButterfliesDouble(a: seq<Complex>, w: nat -> Complex, n: nat, angf: nat, q: nat, p: nat, c: nat)
    requires n > 0 && |a| == 2 * n * angf && c <= n && OnUnitCircle(w) && p == 2 * n * q && p + 2 * n <= |a|
    ensures |Stage(a, w, n, angf)| == |a|
    ensures Energy(Stage(a, w, n, angf), p, p + c) + Energy(Stage(a, w, n, angf), p + n, p + n + c)
         == 2.0 * (Energy(a, p, p + c) + Energy(a, p + n, p + n + c))
  {
    hide Stage, NormSq;
    StageLength(a, w, n, angf);
    if c > 0 {
      ButterfliesDouble(a, w, n, angf, q, p, c - 1);
      ButterflyDoubles(a, w, n, angf, q, c - 1);
    }
  }

  lemma StageLength(a: seq<Complex>, w: nat -> Complex, n: nat, angf: nat)
    requires n > 0 && |a| == 2 * n * angf
    ensures |Stage(a, w, n, angf)| == |a|
  {
  }

  lemma {:induction false} BlocksDouble(a: seq<Complex>, w: nat -> Complex, n: nat, angf: nat, q: nat)
    requires n > 0 && |a| == 2 * n * angf && q <= angf && OnUnitCircle(w) && 0 <= 2 * n * q <= |a|
    ensures |Stage(a, w, n, angf)| == |a|
    ensures Energy(Stage(a, w, n, angf), 0, 2 * n * q) == 2.0 * Energy(a, 0, 2 * n * q)
  {
    hide Stage, NormSq;
    StageLength(a, w, n, angf);
    if q > 0 {
      var b, p := Stage(a, w, n, angf), 2 * n * (q - 1);
      assert 2 * n * q == p + 2 * n;
      assert p >= 0 by { MulPositive(2 * n, q - 1); }
      BlocksDouble(a, w, n, angf, q - 1);
      ButterfliesDouble(a, w, n, angf, q - 1, p, n);
      EnergySplits(a, 0, p, p + 2 * n);
      EnergySplits(a, p, p + n, p + 2 * n);
      EnergySplits(b, 0, p, p + 2 * n);
      EnergySplits(b, p, p + n, p + 2 * n);
    }
  }

  lemma {:induction false} StagesEnergy(a: seq<Complex>, w: nat -> Complex, s: nat, t: nat)
    requires |a| == Pow2(s + t) && OnUnitCircle(w)
    ensures Energy(Stages(a, w, s, t), 0, |a|) == Pow2(t) as real * Energy(a, 0, |a|)
    decreases t
  {
    hide Stage, Energy;
    if t > 0 {
      Pow2Add(s, t);
      Pow2Add(s + 1, t - 1);
      BlocksDouble(a, w, Pow2(s), Pow2(t - 1), Pow2(t - 1));
      var b, c := Stage(a, w, Pow2(s), Pow2(t - 1)), Pow2(t - 1) as real;
      StagesEnergy(b, w, s + 1, t - 1);
      assert c * (2.0 * Energy(a, 0, |a|)) == (2.0 * c) * Energy(a, 0, |a|);
    }
  }

  /** The result carries N times the energy of the input. */
  lemma FftEnergy(a: seq<Complex>, w: nat -> Complex, m: nat)
    requires |a| == Pow2(m) && OnUnitCircle(w)
    ensures Energy(Stages(a, w, 0, m), 0, Pow2(m)) == Pow2(m) as real * Energy(a, 0, Pow2(m))
  {
    hide *;
    StagesEnergy(a, w, 0, m);
  }
}
