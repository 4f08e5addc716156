/** Math.floor and Math.ceil of JavaScript, taken over exact reals. */
module Rounding {

  /** Math.floor: the greatest integer that does not exceed x. */
  function Floor(x: real): (r: int)
    ensures r as real <= x < r as real + 1.0
  {
    x.Floor
  }

  /** Math.ceil: the least integer that is not below x (written through Floor). */
  function Ceil(x: real): (r: int)
    ensures x <= r as real < x + 1.0
  {
    -((-x).Floor)
  }

  /** Floor and Ceil agree exactly on integral values and are one apart elsewhere. */
  lemma FloorCeilGap(x: real)
    ensures Floor(x) <= Ceil(x) <= Floor(x) + 1
    ensures Ceil(x) == Floor(x) <==> x == Floor(x) as real
  {
  }

  /** Ceil of an integral value is that integer. */
  lemma CeilOfInteger(n: int)
    ensures Ceil(n as real) == n
  {
  }
}
