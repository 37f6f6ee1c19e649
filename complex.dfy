/** Values shared by every part of the model: complex numbers as pairs of
    reals (an idealisation of Python's `complex`, whose parts are doubles),
    and the usual Option and Result wrappers for operations that can fail. */
module ComplexNumbers {

  datatype Complex = Complex(re: real, im: real)

  const One: Complex := Complex(1.0, 0.0)

  /** A real number seen as a complex one, as Python widens a float. */
  function OfReal(x: real): Complex {
    Complex(x, 0.0)
  }

  function Add(a: Complex, b: Complex): Complex {
    Complex(a.re + b.re, a.im + b.im)
  }

  function Sub(a: Complex, b: Complex): Complex {
    Complex(a.re - b.re, a.im - b.im)
  }

  /** Division of a complex number by a non-zero real (numpy divides a
      complex by an int componentwise). */
  function DivReal(a: Complex, d: real): (q: Complex)
    requires d != 0.0
    ensures q.re * d == a.re && q.im * d == a.im
  {
    Complex(a.re / d, a.im / d)
  }

  datatype Option<T> = None | Some(value: T)

  datatype Result<T, E> = Ok(value: T) | Err(error: E)
}
