/** Exact complex arithmetic: the `complex` struct of spi_memory_23lcxx.h with
    `float` read as `real`, and the few ring laws that the FFT proof needs. */
module ComplexNumbers {

  datatype Complex = Complex(re: real, im: real)

  const ZERO := Complex(0.0, 0.0)
  const ONE := Complex(1.0, 0.0)

  function Add(a: Complex, b: Complex): Complex {
    Complex(a.re + b.re, a.im + b.im)
  }

  function Sub(a: Complex, b: Complex): Complex {
    Complex(a.re - b.re, a.im - b.im)
  }

  function Mul(a: Complex, b: Complex): Complex {
    Complex(a.re * b.re - a.im * b.im, a.re * b.im + a.im * b.re)
  }

  function Neg(a: Complex): Complex {
    Complex(-a.re, -a.im)
  }

  function Conj(a: Complex): Complex {
    Complex(a.re, -a.im)
  }

  /** Squared magnitude. */
  function NormSq(a: Complex): real {
    a.re * a.re + a.im * a.im
  }

  lemma MulAssoc(a: Complex, b: Complex, c: Complex)
    ensures Mul(Mul(a, b), c) == Mul(a, Mul(b, c))
  {
  }

  lemma MulAdd(a: Complex, b: Complex, c: Complex)
    ensures Mul(a, Add(b, c)) == Add(Mul(a, b), Mul(a, c))
  {
  }

  lemma MulComm(a: Complex, b: Complex)
    ensures Mul(a, b) == Mul(b, a)
  {
  }

  lemma MulOne(a: Complex)
    ensures Mul(a, ONE) == a
  {
  }

  lemma MulNeg(a: Complex, b: Complex)
    ensures Mul(a, Neg(b)) == Neg(Mul(a, b))
  {
  }

  lemma NegSquared()
    ensures Mul(Neg(ONE), Neg(ONE)) == ONE
  {
  }

  lemma AddNeg(a: Complex, b: Complex)
    ensures Add(a, Neg(b)) == Sub(a, b)
  {
  }

  lemma AddZero(a: Complex)
    ensures Add(ZERO, a) == a
  {
  }

  lemma AddInterchange(a: Complex, b: Complex, c: Complex, d: Complex)
    ensures Add(Add(a, b), Add(c, d)) == Add(Add(a, c), Add(b, d))
    ensures Add(Add(a, b), c) == Add(a, Add(b, c))
  {
  }

  lemma ConjAdd(a: Complex, b: Complex)
    ensures Conj(Add(a, b)) == Add(Conj(a), Conj(b))
  {
  }

  lemma ConjOfReal(a: Complex, b: Complex)
    requires a.im == 0.0
    ensures Conj(a) == a && Conj(Mul(a, b)) == Mul(a, Conj(b))
  {
  }

  /** On the unit circle the inverse is the conjugate. */
  lemma InverseIsConj(a: Complex, b: Complex)
    requires Mul(a, b) == ONE && NormSq(b) == 1.0
    ensures a == Conj(b)
  {
    MulAssoc(a, b, Conj(b));
    assert Mul(b, Conj(b)) == ONE;
    MulOne(a);
    MulComm(ONE, Conj(b));
    MulOne(Conj(b));
  }

  lemma NormSqMul(a: Complex, b: Complex)
    ensures NormSq(Mul(a, b)) == NormSq(a) * NormSq(b)
  {
  }

  /** The parallelogram law, the reason a butterfly doubles energy. */
  lemma Parallelogram(a: Complex, c: Complex)
    ensures NormSq(Add(a, c)) + NormSq(Sub(a, c)) == 2.0 * (NormSq(a) + NormSq(c))
  {
  }
}
