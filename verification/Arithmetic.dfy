/**
 Small functions on whole numbers, and facts about products.
 */
module Arithmetic {

  function AtLeastZero(n: int): nat {
    if n < 0 then 0 else n
  }

  function Abs(n: int): nat {
    if n < 0 then -n else n
  }

  lemma MulMonotone(a: int, b: int, c: int)
    requires a <= b && 0 <= c
    ensures a * c <= b * c
  {
  }

  lemma MulPositive(a: int, b: int)
    requires a > 0 && b > 0
    ensures a * b > 0
  {
  }
}
