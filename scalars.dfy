/**
 * The scalar helpers of namespace `nr`: square, maximum, minimum,
 * magnitude-with-sign and exchange. The arithmetic ones are the generic
 * same-type templates, taken here at the ordered type `int`.
 */
module Scalars {

  function Abs(x: int): int { if x < 0 then -x else x }

  /** `sqr(a)`: the square of `a`. */
  function Sqr(a: int): (r: int)
    ensures r >= 0
    ensures r == 0 <==> a == 0
  {
    a * a
  }

  /** Squaring forgets the sign. */
  lemma SqrEven(a: int)
    ensures Sqr(-a) == Sqr(a)
  {
  }

  /** The square grows with the magnitude. */
  lemma SqrMonotone(a: int, b: int)
    requires Abs(a) <= Abs(b)
    ensures Sqr(a) <= Sqr(b)
  {
    var x, y := Abs(a), Abs(b);
    var d := y - x;
    assert Sqr(a) == x * x && Sqr(b) == y * y;
    assert y * y == x * x + (2 * x + d) * d;
    assert (2 * x + d) * d >= 0;
  }

  /** `max(a, b)`: the larger argument (`a` on a tie). */
  function Max(a: int, b: int): (r: int)
    ensures r >= a && r >= b
    ensures r == a || r == b
  {
    if b > a then b else a
  }

  /** `min(a, b)`: the smaller argument (`b` on a tie). */
  function Min(a: int, b: int): (r: int)
    ensures r <= a && r <= b
    ensures r == a || r == b
  {
    if a < b then a else b
  }

  /** The minimum never exceeds the maximum, and together they are the two arguments. */
  lemma MinMax(a: int, b: int)
    ensures Min(a, b) <= Max(a, b)
    ensures Min(a, b) + Max(a, b) == a + b
  {
  }

  /**
   * `sign(a, b)`: the magnitude of `a` with the sign of `b`, where `b == 0`
   * counts as non-negative. The source returns a reference to a temporary;
   * here the value is returned.
   */
  function Sign(a: int, b: int): (r: int)
    ensures Abs(r) == Abs(a)
    ensures b >= 0 ==> r >= 0
    ensures b < 0 ==> r <= 0
  {
    if b >= 0 then (if a >= 0 then a else -a) else (if a >= 0 then -a else a)
  }

  /** The magnitude and sign laws pin the result of `Sign` down completely. */
  lemma SignUnique(a: int, b: int, r: int)
    requires Abs(r) == Abs(a)
    requires b >= 0 ==> r >= 0
    requires b < 0 ==> r <= 0
    ensures r == Sign(a, b)
  {
  }

  /** A variable of type `T` that `swap` receives by reference (`T &`). */
  class Cell<T> {
    var value: T

    constructor (v: T)
      ensures value == v
    {
      value := v;
    }
  }

  /**
   * `swap(a, b)`: exchanges the two variables through a temporary. When
   * both references name the same variable nothing changes.
   */
  method Swap<T>(a: Cell<T>, b: Cell<T>)
    modifies a, b
    ensures a.value == old(b.value) && b.value == old(a.value)
  {
    var temp := a.value;
    a.value := b.value;
    b.value := temp;
  }
}
