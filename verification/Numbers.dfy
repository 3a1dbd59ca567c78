/** Arithmetic helpers of the C library and of the FFmpeg headers. */
module Numbers {

  function Max(a: int, b: int): int {
    if a < b then b else a
  }

  function Min(a: int, b: int): int {
    if a < b then a else b
  }

  function Abs(x: int): nat {
    if x < 0 then -x else x
  }

  function Pow2(n: nat): (r: nat)
    ensures r > 0
  {
    if n == 0 then 1 else 2 * Pow2(n - 1)
  }

  function Product(a: real, b: real): real {
    a * b
  }

  lemma ProductOrder(a: real, b: real, c: real)
    requires c > 0.0
    ensures Product(a, c) >= Product(b, c) <==> a >= b
  {
  }

  lemma ProductGrows(a: real, b: real, c: real)
    requires a <= b && c >= 0.0
    ensures Product(a, c) <= Product(b, c)
  {
  }

  lemma ProductUndoes(a: real, b: real)
    requires b > 0.0
    ensures Product(a / b, b) == a
  {
  }

  /** A floating-point value stored in an integer: the fraction is cut off. */
  function Truncate(x: real): int {
    if x >= 0.0 then x.Floor else -(-x).Floor
  }

  /** The median of three, with the comparisons of `mid_pred`. */
  function MidPred(a: int, b: int, c: int): (m: int)
    ensures m == a || m == b || m == c
    ensures (a <= m && b <= m) || (a <= m && c <= m) || (b <= m && c <= m)
    ensures (a >= m && b >= m) || (a >= m && c >= m) || (b >= m && c >= m)
  {
    if a > b then
      if c > b then (if c > a then a else c) else b
    else
      if b > c then (if c > a then c else a) else b
  }

  /** Nearest-integer rounding, as `llrint` and `llrintf` do it: a tie goes to the even neighbour. */
  function Rint(x: real): (r: int)
    ensures -0.5 <= x - r as real <= 0.5
    ensures x - r as real == 0.5 || x - r as real == -0.5 ==> r % 2 == 0
  {
    var low := x.Floor;
    var rest := x - low as real;
    if rest < 0.5 then low
    else if rest > 0.5 then low + 1
    else if low % 2 == 0 then low
    else low + 1
  }

  lemma RintMonotone(x: real, y: real)
    requires x <= y
    ensures Rint(x) <= Rint(y)
  {
  }

  lemma RintOfInt(n: int)
    ensures Rint(n as real) == n
  {
  }
}
