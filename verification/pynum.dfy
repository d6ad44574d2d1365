/**
 The numbers `led_brightness` can be handed. The brightness routine never
 checks the type of its `duty` argument; anything Python can compare with an
 integer literal is accepted. This module models the Python ints and floats:
 every int and every finite float is an exact real, and a float may also be
 one of the two infinities or NaN.
 */
module PyNum {

  /** A Python int or float. */
  datatype Number = Finite(value: real) | PosInf | NegInf | NaN

  /** An int counter as Python passes it on. */
  function FromInt(i: int): Number
  {
    Finite(i as real)
  }

  /** Python's `x < c` for a numeric literal `c`: NaN is below nothing. */
  predicate Less(x: Number, c: real)
  {
    match x
    case Finite(v) => v < c
    case NegInf => true
    case PosInf => false
    case NaN => false
  }

  /** Python's `x > c` for a numeric literal `c`: NaN is above nothing. */
  predicate Greater(x: Number, c: real)
  {
    match x
    case Finite(v) => v > c
    case NegInf => false
    case PosInf => true
    case NaN => false
  }

  /** A valid PWM duty-cycle percentage: a number in the closed range [0, 100]. */
  predicate IsDuty(x: Number)
  {
    x.Finite? && 0.0 <= x.value <= 100.0
  }
}
