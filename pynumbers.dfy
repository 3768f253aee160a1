/** Integer helpers for the fixed-point arithmetic of the model. */
module PyNumbers {

  function Min(a: int, b: int): (m: int)
    ensures m <= a && m <= b && (m == a || m == b)
  {
    if a <= b then a else b
  }

  function Abs(a: int): nat {
    if a < 0 then -a else a
  }

  /**
   * `a / d` rounded to the nearest integer, ties to the even neighbour: the
   * rule of Python's `round` on a value that is exactly representable.
   */
  function RoundDiv(a: int, d: int): (r: int)
    requires d > 0
    ensures Abs(2 * (a - d * r)) <= d
    ensures 2 * (a - d * r) == d || 2 * (a - d * r) == -d ==> r % 2 == 0
  {
    var q := a / d;
    var rem := a % d;
    if 2 * rem < d then q
    else if 2 * rem > d then q + 1
    else if q % 2 == 0 then q
    else q + 1
  }
}
