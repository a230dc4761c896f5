/** decimate_and_store and FFT_calculate of fft_memory.c.  The FFT region of the SPI
    memory is an array of complex cells of 8 bytes; the code's byte addresses are
    kept, and every access goes through CellOf. */
module FftMemory {
  import opened ComplexNumbers
  import opened Indices
  import opened Fft
  import opened BitrevTable

  const MEM_FFT_BEGIN: nat := 0x1800
  const DECIMATION_FACTOR: nat := 2

  /** The cell that starts at a byte address of the FFT region. */
  function CellOf(address: nat): nat
    requires address >= MEM_FFT_BEGIN && (address - MEM_FFT_BEGIN) % 8 == 0
  {
    (address - MEM_FFT_BEGIN) / 8
  }

  // ---- Loading ----------------------------------------------------------------

  /** The value an `int` of 16 bits takes when assigned v modulo 2^16. */
  function Int16(v: int): int {
    if v % 0x10000 < 0x8000 then v % 0x10000 else v % 0x10000 - 0x10000
  }

  /** Sample 2*j of the stored signal, less the stored offset, as the code's 16-bit
      arithmetic computes it; zero past the end of the signal. */
  function Sample(signal: seq<int>, offset: int, j: nat): Complex {
    if DECIMATION_FACTOR * j < |signal|
    then Complex(Int16(signal[DECIMATION_FACTOR * j] - Int16(offset)) as real, 0.0)
    else ZERO
  }

  ghost function Samples(signal: seq<int>, offset: int): nat -> Complex {
    (j: nat) => Sample(signal, offset, j)
  }

  /** Assignment keeps the value modulo 2^16, in the range of an `int`. */
  lemma Int16Is(v: int)
    ensures -0x8000 <= Int16(v) < 0x8000 && (Int16(v) - v) % 0x10000 == 0
  {
  }

  /** Past the end of the signal there is silence, and no sample has an imaginary part. */
  lemma SampleIsReal(signal: seq<int>, offset: int, j: nat)
    ensures Sample(signal, offset, j).im == 0.0
    ensures DECIMATION_FACTOR * j >= |signal| ==> Sample(signal, offset, j).re == 0.0
  {
  }

  /** The 16-bit arithmetic is exact whenever the true difference fits an `int`. */
  lemma SampleIsCorrected(signal: seq<int>, offset: int, j: nat)
    requires DECIMATION_FACTOR * j < |signal|
    ensures Sample(signal, offset, j).re == (signal[DECIMATION_FACTOR * j] - offset) as real
      <==> -0x8000 <= signal[DECIMATION_FACTOR * j] - offset < 0x8000
  {
    var d := signal[DECIMATION_FACTOR * j] - offset;
    assert (d + (offset - Int16(offset))) % 0x10000 == d % 0x10000;
    assert signal[DECIMATION_FACTOR * j] - Int16(offset) == d + (offset - Int16(offset));
  }

  method DecimateAndStore(mem: array<Complex>, signal: seq<int>, offset: int, bitrev: seq<nat>)
    requires |bitrev| == mem.Length
    modifies mem
    ensures forall i :: 0 <= i < mem.Length ==> mem[i] == Sample(signal, offset, bitrev[i])
    ensures forall i :: 0 <= i < mem.Length ==> mem[i].im == 0.0
    ensures forall i :: 0 <= i < mem.Length && 2 * bitrev[i] >= |signal| ==> mem[i].re == 0.0
    ensures forall i :: 0 <= i < mem.Length && 2 * bitrev[i] < |signal| ==>
              var d := signal[2 * bitrev[i]] - offset;
              mem[i].re == d as real <==> -0x8000 <= d < 0x8000
  {
    var signal_offset2 := Int16(offset);
    var i := 0;
    while i < mem.Length
      invariant 0 <= i <= mem.Length
      invariant forall j :: 0 <= j < i ==> mem[j] == Sample(signal, offset, bitrev[j])
    {
      var position := bitrev[i];
      var decimation_position := position * DECIMATION_FACTOR;
      var re := 0.0;
      if decimation_position < |signal| {
        var read_data := Int16(signal[decimation_position] - signal_offset2);
        re := read_data as real;
      }
      mem[CellOf(i * 8 + MEM_FFT_BEGIN)] := Complex(re, 0.0);
      i := i + 1;
    }
    LoadedSamples(mem[..], signal, offset, bitrev);
  }

  lemma LoadedSamples(mem: seq<Complex>, signal: seq<int>, offset: int, bitrev: seq<nat>)
    requires |bitrev| == |mem| && forall i :: 0 <= i < |mem| ==> mem[i] == Sample(signal, offset, bitrev[i])
    ensures forall i :: 0 <= i < |mem| ==> mem[i].im == 0.0
    ensures forall i :: 0 <= i < |mem| && 2 * bitrev[i] >= |signal| ==> mem[i].re == 0.0
    ensures forall i :: 0 <= i < |mem| && 2 * bitrev[i] < |signal| ==>
              var d := signal[2 * bitrev[i]] - offset;
              mem[i].re == d as real <==> -0x8000 <= d < 0x8000
  {
    hide Sample;
    forall i | 0 <= i < |mem|
      ensures mem[i].im == 0.0 && (2 * bitrev[i] >= |signal| ==> mem[i].re == 0.0)
      ensures 2 * bitrev[i] < |signal| ==>
                var d := signal[2 * bitrev[i]] - offset;
                mem[i].re == d as real <==> -0x8000 <= d < 0x8000
    {
      SampleIsReal(signal, offset, bitrev[i]);
      if 2 * bitrev[i] < |signal| {
        SampleIsCorrected(signal, offset, bitrev[i]);
      }
    }
  }

  // ---- The in-place transform -------------------------------------------------

  /** In a stage with butterflies of width n, the cells already rewritten when the walk
      has finished k columns and g butterflies of column k. */
  ghost predicate Rewritten(i: nat, n: nat, k: nat, g: nat)
    requires n > 0
  {
    var o := i % (2 * n);
    var column := if o < n then o else o - n;
    column < k || (column == k && i / (2 * n) < g)
  }

  /** One more butterfly adds exactly its two end cells to the rewritten ones, and they
      were not rewritten before: the pointer walk visits every cell exactly once. */
  lemma WalkVisitsOnce(n: nat, angf: nat, k: nat, g: nat, p: nat)
    requires n > 0 && k < n && g < angf && p == 2 * n * g + k
    ensures p + n < 2 * n * angf
    ensures !Rewritten(p, n, k, g) && !Rewritten(p + n, n, k, g)
    ensures p % (2 * n) == k && (p + n) % (2 * n) == n + k
    ensures forall i: nat :: Rewritten(i, n, k, g + 1) <==> Rewritten(i, n, k, g) || i == p || i == p + n
  {
    DivModUnique(p, 2 * n, g, k);
    DivModUnique(p + n, 2 * n, g, n + k);
    MulMono(g + 1, angf, 2 * n);
    assert 2 * n * (g + 1) == 2 * n * g + 2 * n;
    forall i: nat
      ensures Rewritten(i, n, k, g + 1) <==> Rewritten(i, n, k, g) || i == p || i == p + n
    {
      var q, o := i / (2 * n), i % (2 * n);
      assert i == 2 * n * q + o;
    }
  }

  lemma ColumnFinished(n: nat, angf: nat, k: nat, N: nat)
    requires n > 0 && N == 2 * n * angf
    ensures forall i: nat :: i < N ==> (Rewritten(i, n, k, angf) <==> Rewritten(i, n, k + 1, 0))
  {
    forall i: nat | i < N
      ensures Rewritten(i, n, k, angf) <==> Rewritten(i, n, k + 1, 0)
    {
      PairInRange(n, angf, i);
      assert i / (2 * n) >= 0;
    }
  }

  /** The memory part way through a stage that started from a. */
  ghost predicate InStage(mem: seq<Complex>, a: seq<Complex>, w: nat -> Complex, n: nat, angf: nat, k: nat, g: nat)
    requires n > 0
  {
    && |mem| == |a| == 2 * n * angf
    && forall i :: 0 <= i < |a| ==> mem[i] == if Rewritten(i, n, k, g) then StageCell(a, w, n, angf, i) else a[i]
  }

  lemma InStageSize(mem: seq<Complex>, a: seq<Complex>, w: nat -> Complex, n: nat, angf: nat, k: nat, g: nat)
    requires n > 0 && InStage(mem, a, w, n, angf, k, g)
    ensures |mem| == |a| == 2 * n * angf
  {
  }

  lemma StageBegins(a: seq<Complex>, w: nat -> Complex, n: nat, angf: nat)
    requires n > 0 && |a| == 2 * n * angf
    ensures InStage(a, a, w, n, angf, 0, 0)
  {
    hide StageCell;
    forall i | 0 <= i < |a|
      ensures !Rewritten(i, n, 0, 0)
    {
      assert i % (2 * n) >= 0 && i / (2 * n) >= 0;
    }
  }

  lemma ColumnEnds(mem: seq<Complex>, a: seq<Complex>, w: nat -> Complex, n: nat, angf: nat, k: nat)
    requires n > 0 && InStage(mem, a, w, n, angf, k, angf)
    ensures InStage(mem, a, w, n, angf, k + 1, 0)
  {
    hide StageCell, Rewritten;
    ColumnFinished(n, angf, k, |a|);
  }

  lemma StageEnds(mem: seq<Complex>, a: seq<Complex>, w: nat -> Complex, n: nat, angf: nat)
    requires n > 0 && InStage(mem, a, w, n, angf, n, 0)
    ensures mem == Stage(a, w, n, angf)
  {
    hide StageCell;
    forall i | 0 <= i < |a|
      ensures Rewritten(i, n, n, 0)
    {
      assert i % (2 * n) < 2 * n;
    }
  }

  lemma ButterflyWritten(mem: seq<Complex>, mem': seq<Complex>, a: seq<Complex>, w: nat -> Complex,
                         n: nat, angf: nat, k: nat, g: nat, p: nat)
    requires n > 0 && k < n && g < angf && p == 2 * n * g + k && p + n < |mem| == |mem'|
    requires InStage(mem, a, w, n, angf, k, g)
    requires mem' == mem[p := Add(mem[p], Mul(mem[p + n], w(k * angf)))]
                        [p + n := Sub(mem[p], Mul(mem[p + n], w(k * angf)))]
    ensures InStage(mem', a, w, n, angf, k, g + 1)
  {
    hide Add, Sub, Mul;
    WalkVisitsOnce(n, angf, k, g, p);
    hide Rewritten;
    assert mem[p] == a[p] && mem[p + n] == a[p + n];
  }

  lemma OneMoreButterfly(n: nat, g: nat)
    ensures 2 * n * g + 2 * n == 2 * n * (g + 1)
  {
  }

  lemma TableIndex(n: nat, angf: nat, k: nat)
    requires k < n && angf > 0
    ensures 0 <= 2 * angf * k && 2 * angf * k + 1 < 2 * n * angf
    ensures 2 * angf * k == 2 * (k * angf)
  {
    MulMono(k + 1, n, 2 * angf);
    MulPositive(2 * angf, k);
    assert 2 * angf * (k + 1) == 2 * angf * k + 2 * angf;
    assert 2 * angf * n == 2 * n * angf;
  }

  /** One butterfly: read both ends, multiply the far one by the twiddle, write both. */
  method Butterfly(mem: array<Complex>, pointer_A: nat, pointer_B: nat, dsin: real, dcos: real)
    requires pointer_A >= MEM_FFT_BEGIN && (pointer_A - MEM_FFT_BEGIN) % 8 == 0 && CellOf(pointer_A) < mem.Length
    requires pointer_B >= MEM_FFT_BEGIN && (pointer_B - MEM_FFT_BEGIN) % 8 == 0 && CellOf(pointer_B) < mem.Length
    requires pointer_A != pointer_B
    modifies mem
    ensures var A, B := old(mem[CellOf(pointer_A)]), old(mem[CellOf(pointer_B)]);
            mem[..] == old(mem[..])[CellOf(pointer_A) := Add(A, Mul(B, Complex(dcos, dsin)))]
                                   [CellOf(pointer_B) := Sub(A, Mul(B, Complex(dcos, dsin)))]
  {
    var A := mem[CellOf(pointer_A)];
    var B := mem[CellOf(pointer_B)];
    var C := Complex(B.re * dcos - B.im * dsin, B.re * dsin + B.im * dcos);
    assert C == Mul(B, Complex(dcos, dsin));
    B := Complex(A.re - C.re, A.im - C.im);
    A := Complex(A.re + C.re, A.im + C.im);
    mem[CellOf(pointer_A)] := A;
    mem[CellOf(pointer_B)] := B;
  }

  /** One column of butterflies: the innermost loop. */
  method Column(mem: array<Complex>, n: nat, angf: nat, ghost k: nat, dsin: real, dcos: real,
                start_A: nat, start_B: nat, ghost a: seq<Complex>, ghost w: nat -> Complex)
    returns (pointer_A: nat, pointer_B: nat)
    requires n > 0 && k < n && w(k * angf) == Complex(dcos, dsin)
    requires start_A == MEM_FFT_BEGIN + 8 * k && start_B == start_A + 8 * n
    requires InStage(mem[..], a, w, n, angf, k, 0)
    modifies mem
    ensures InStage(mem[..], a, w, n, angf, k + 1, 0)
    ensures pointer_A == start_A + 8 * mem.Length && pointer_B == start_B + 8 * mem.Length
  {
    hide StageCell, Rewritten, Add, Sub, Mul, InStage;
    InStageSize(mem[..], a, w, n, angf, k, 0);
    pointer_A, pointer_B := start_A, start_B;
    var s := 0;
    ghost var p := k;
    while s < angf
      invariant 0 <= s <= angf && p == 2 * n * s + k
      invariant pointer_A == MEM_FFT_BEGIN + 8 * p && pointer_B == pointer_A + 8 * n
      invariant mem.Length == 2 * n * angf && InStage(mem[..], a, w, n, angf, k, s)
    {
      WalkVisitsOnce(n, angf, k, s, p);
      ghost var before := mem[..];
      assert CellOf(pointer_A) == p && CellOf(pointer_B) == p + n;
      Butterfly(mem, pointer_A, pointer_B, dsin, dcos);
      ButterflyWritten(before, mem[..], a, w, n, angf, k, s, p);
      OneMoreButterfly(n, s);
      pointer_A, pointer_B := pointer_A + 16 * n, pointer_B + 16 * n;
      p := p + 2 * n;
      s := s + 1;
    }
    ColumnEnds(mem[..], a, w, n, angf, k);
  }

  /** The table holds sin and cos of the first N/2 + 1 angles alternately. */
  ghost predicate IsSinCos(sincos: seq<real>, w: nat -> Complex, N: nat) {
    && |sincos| == N + 2
    && forall j :: 0 <= j <= N / 2 ==> w(j) == Complex(sincos[2 * j + 1], sincos[2 * j])
  }

  /** Such a table starts with the sine and cosine of 0, and has those of half a turn at its end. */
  lemma TableEnds(sincos: seq<real>, w: nat -> Complex, N: nat)
    requires IsSinCos(sincos, w, N) && IsTwiddle(w, N) && N > 1 && N % 2 == 0
    ensures sincos[0] == 0.0 && sincos[1] == 1.0
    ensures sincos[N] == 0.0 && sincos[N + 1] == -1.0
  {
    assert w(0) == Complex(sincos[1], sincos[0]);
    assert w(N / 2) == Complex(sincos[N + 1], sincos[N]);
  }

  /** One pass of the outer loop: all columns of width n. */
  method OneStage(mem: array<Complex>, n: nat, angf: nat, sincos: seq<real>, ghost w: nat -> Complex)
    requires n > 0 && angf > 0 && mem.Length == 2 * n * angf && IsSinCos(sincos, w, mem.Length)
    modifies mem
    ensures mem[..] == Stage(old(mem[..]), w, n, angf)
  {
    hide StageCell, Rewritten, InStage;
    ghost var a := mem[..];
    StageBegins(a, w, n, angf);
    var pointer_A, pointer_B := MEM_FFT_BEGIN, MEM_FFT_BEGIN + n * 8;
    var Fnk := 0;
    var k := 0;
    while k < n
      invariant 0 <= k <= n
      invariant pointer_A == MEM_FFT_BEGIN + 8 * k && pointer_B == pointer_A + 8 * n
      invariant Fnk == 2 * angf * k
      invariant InStage(mem[..], a, w, n, angf, k, 0)
    {
      TableIndex(n, angf, k);
      var dsin := sincos[Fnk];
      var dcos := sincos[Fnk + 1];
      Fnk := Fnk + 2;
      assert w(k * angf) == Complex(dcos, dsin);
      pointer_A, pointer_B := Column(mem, n, angf, k, dsin, dcos, pointer_A, pointer_B, a, w);
      pointer_A, pointer_B := pointer_A - (mem.Length - 1) * 8, pointer_B - (mem.Length - 1) * 8;
      OneMoreButterfly(angf, k);
      Fnk := Fnk + (angf - 1) * 2;
      k := k + 1;
    }
    StageEnds(mem[..], a, w, n, angf);
  }

  method FftCalculate(mem: array<Complex>, sincos: seq<real>, ghost m: nat, ghost w: nat -> Complex)
    requires mem.Length == Pow2(m) && IsSinCos(sincos, w, mem.Length)
    modifies mem
    ensures mem[..] == Stages(old(mem[..]), w, 0, m)
  {
    hide Stage;
    ghost var s, t := 0, m;
    var n := 1;
    var angf := mem.Length / 2;
    while n < mem.Length
      invariant s + t == m && n == Pow2(s) && angf == Pow2(t) / 2
      invariant mem.Length == Pow2(m) == Pow2(s) * Pow2(t)
      invariant Stages(mem[..], w, s, t) == Stages(old(mem[..]), w, 0, m)
      decreases t
    {
      assert t > 0;
      Pow2Add(s, t);
      Pow2Add(s + 1, t - 1);
      OneStage(mem, n, angf, sincos, w);
      n, angf := n * 2, angf / 2;
      s, t := s + 1, t - 1;
    }
    assert t == 0 by {
      if t > 0 {
        MulMono(2, Pow2(t), n);
      }
    }
  }

  /** What mainTask.c runs: load the signal in bit-reversed order, then transform it in
      place.  Cell k ends as bin k of the corrected, decimated signal. */
  method Spectrum(mem: array<Complex>, signal: seq<int>, offset: int, bitrev: seq<nat>, sincos: seq<real>,
                  ghost m: nat, ghost w: nat -> Complex)
    requires mem.Length == |bitrev| == Pow2(m)
    requires forall i :: 0 <= i < |bitrev| ==> bitrev[i] == RevBits(m, i)
    requires IsTwiddle(w, Pow2(m)) && IsSinCos(sincos, w, Pow2(m))
    modifies mem
    ensures forall k :: 0 <= k < mem.Length ==> mem[k] == Dft(Samples(signal, offset), w, mem.Length, k)
    ensures OnUnitCircle(w) ==> mem[0].im == 0.0 && forall k :: 0 < k < mem.Length ==> mem[mem.Length - k] == Conj(mem[k])
  {
    hide Stages, RevBits, Sample, PartialDft, IsTwiddle, IsSinCos, OnUnitCircle;
    DecimateAndStore(mem, signal, offset, bitrev);
    ghost var x := Samples(signal, offset);
    ghost var a := mem[..];
    FftCalculate(mem, sincos, m, w);
    FftIsDft(a, x, w, m);
    if OnUnitCircle(w) {
      Mirrored(mem[..], signal, offset, w, m);
    }
  }

  /** The spectrum of a real signal: one half mirrors the other. */
  lemma Mirrored(mem: seq<Complex>, signal: seq<int>, offset: int, w: nat -> Complex, m: nat)
    requires |mem| == Pow2(m) && IsTwiddle(w, Pow2(m)) && OnUnitCircle(w)
    requires forall k :: 0 <= k < |mem| ==> mem[k] == Dft(Samples(signal, offset), w, |mem|, k)
    ensures |mem| > 0 && mem[0].im == 0.0
    ensures forall k :: 0 < k < |mem| ==> mem[|mem| - k] == Conj(mem[k])
  {
    hide Sample, PartialDft, IsTwiddle, OnUnitCircle;
    var x := Samples(signal, offset);
    forall j: nat
      ensures x(j).im == 0.0
    {
      SampleIsReal(signal, offset, j);
    }
    if m == 0 {
      TwiddleAtZero(w, 1);
      OnePointReal(x, w);
    } else {
      EvenSize(m);
      RealInput(x, w, |mem|, |mem|, 0);
      Periodic(x, w, 0, 1, |mem|, |mem|, |mem|, 0);
      forall k | 0 < k < |mem|
        ensures mem[|mem| - k] == Conj(mem[k])
      {
        RealInput(x, w, |mem|, |mem|, k);
      }
    }
  }

  lemma TwiddleAtZero(w: nat -> Complex, N: nat)
    requires IsTwiddle(w, N)
    ensures w(0) == ONE
  {
  }

  lemma EvenSize(m: nat)
    requires m > 0
    ensures Pow2(m) > 1 && Pow2(m) % 2 == 0
  {
  }

  lemma OnePointReal(x: nat -> Complex, w: nat -> Complex)
    requires w(0) == ONE && x(0).im == 0.0
    ensures Dft(x, w, 1, 0).im == 0.0
  {
    OnePoint(x, w, 0, 1);
  }

  /** The same with the stored 512-point reversal table. */
  method Spectrum512(mem: array<Complex>, signal: seq<int>, offset: int, sincos: seq<real>, ghost w: nat -> Complex)
    requires mem.Length == NO_POINTS && IsTwiddle(w, NO_POINTS) && IsSinCos(sincos, w, NO_POINTS)
    modifies mem
    ensures forall k :: 0 <= k < NO_POINTS ==> mem[k] == Dft(Samples(signal, offset), w, NO_POINTS, k)
    ensures OnUnitCircle(w) ==> mem[0].im == 0.0 && forall k :: 0 < k < NO_POINTS ==> mem[NO_POINTS - k] == Conj(mem[k])
  {
    var table := seq(NO_POINTS, i requires 0 <= i < NO_POINTS => Bitrev(i));
    assert Pow2(9) == NO_POINTS;
    forall i | 0 <= i < NO_POINTS
      ensures table[i] == RevBits(9, i)
    {
      TableIsReversal(i);
    }
    Spectrum(mem, signal, offset, table, sincos, 9, w);
  }
}
