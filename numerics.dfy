/** Real-number helpers and the floating-point library functions the controller
    calls (atan2, tanh, sin, cos, pow(., 1.5)). Their numeric values are not
    modelled: a MathLib value carries them as uninterpreted functions, and
    Sound() lists the only facts about them that the proofs rely on. */
module Numerics {

  /** The shortest decimal that rounds to the double M_PI. */
  const PI: real := 3.141592653589793

  function Abs(x: real): (r: real)
    ensures r >= 0.0 && (r == x || r == -x)
  {
    if x < 0.0 then -x else x
  }

  /** std::pow(x, 2), which is exact for the purpose of this model. */
  function Sq(x: real): (r: real)
    ensures r >= 0.0
  {
    x * x
  }

  /** The math library functions, left uninterpreted. The member functions
      below are how the model calls them. */
  datatype MathLib = MathLib(
    atan2Fn: (real, real) -> real,
    tanhFn: real -> real,
    sinFn: real -> real,
    cosFn: real -> real,
    pow15Fn: real -> real)
  {
    function Atan2(y: real, x: real): real { atan2Fn(y, x) }
    function Tanh(x: real): real { tanhFn(x) }
    function Sin(x: real): real { sinFn(x) }
    function Cos(x: real): real { cosFn(x) }
    /** std::pow(x, 1.5) */
    function Pow15(x: real): real { pow15Fn(x) }

    /** Facts every implementation of these functions satisfies:
        the 1.5-power of a non-negative number is non-negative and vanishes at 0,
        tanh stays within [-1, 1], and atan2(0, x) is 0 for x >= 0
        (including atan2(+0, +0) == +0). */
    ghost predicate Sound() {
      && Pow15(0.0) == 0.0
      && (forall x: real :: x >= 0.0 ==> Pow15(x) >= 0.0)
      && (forall x: real :: -1.0 <= Tanh(x) <= 1.0)
      && (forall x: real :: x >= 0.0 ==> Atan2(0.0, x) == 0.0)
    }
  }
}
