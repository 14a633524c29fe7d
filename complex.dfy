/** Complex arithmetic of the transform (`struct Complex` with `cadd`, `csub`, `cmul`).
    Single-precision floats are modelled as exact reals. */
module ComplexMath {

  datatype Complex = Complex(re: real, im: real)

  const Zero: Complex := Complex(0.0, 0.0)
  const One: Complex := Complex(1.0, 0.0)

  /** `cadd`: component-wise sum; subtracting `b` again gives back `a`. */
  function CAdd(a: Complex, b: Complex): (r: Complex)
    ensures CSub(r, b) == a
    ensures a == Zero ==> r == b
    ensures b == Zero ==> r == a
  {
    Complex(a.re + b.re, a.im + b.im)
  }

  /** `csub`: component-wise difference; adding `b` again gives back `a`. */
  function CSub(a: Complex, b: Complex): (r: Complex)
    ensures Complex(r.re + b.re, r.im + b.im) == a
    ensures b == Zero ==> r == a
    ensures a == b ==> r == Zero
  {
    Complex(a.re - b.re, a.im - b.im)
  }

  /** `cmul`: complex product; zero annihilates and One is the unit. */
  function CMul(a: Complex, b: Complex): (r: Complex)
    ensures a == Zero || b == Zero ==> r == Zero
    ensures a == One ==> r == b
    ensures b == One ==> r == a
  {
    Complex(a.re * b.re - a.im * b.im, a.re * b.im + a.im * b.re)
  }

  /** Squared magnitude, the argument of `sqrtf` in the magnitude loop. */
  function Norm2(a: Complex): (r: real)
    ensures r >= 0.0
    ensures a == Zero ==> r == 0.0
  {
    SquareNonneg(a.re);
    SquareNonneg(a.im);
    a.re * a.re + a.im * a.im
  }

  lemma SquareNonneg(x: real)
    ensures x * x >= 0.0
  {
  }

}
