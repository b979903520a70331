/** The integer operators of C++ where they differ from Dafny's. */
module CInt {

  /** `a / b` in C++: the quotient rounds toward zero. */
  function Quot(a: int, b: int): (q: int)
    requires b > 0
  {
    if a >= 0 then a / b else -((-a) / b)
  }

  /** `a % b` in C++: the remainder has the sign of the dividend. */
  function Rem(a: int, b: int): (r: int)
    requires b > 0
    ensures a >= 0 ==> r == a % b
    ensures a < 0 ==> r == -((-a) % b)
  {
    a - b * Quot(a, b)
  }

  predicate InInt32(x: int) {
    -0x8000_0000 <= x < 0x8000_0000
  }

  lemma QuotNat(a: nat, b: int)
    requires b > 0
    ensures Quot(a, b) == a / b
  {
  }
}
