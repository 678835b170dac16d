/** The C arithmetic the material grid relies on, written out over `int` and `real`. */
module Numeric {

  /** fabs */
  function Abs(x: real): (r: real)
    ensures r >= 0.0 && (r == x || r == -x)
  {
    if x < 0.0 then -x else x
  }

  /** The C cast `(int)x`: truncation toward zero. */
  function Trunc(x: real): (r: int)
    ensures x >= 0.0 ==> r as real <= x < r as real + 1.0
    ensures x < 0.0 ==> r as real - 1.0 < x <= r as real
  {
    if x >= 0.0 then x.Floor else -((-x).Floor)
  }

  function IntAbs(x: int): nat {
    if x < 0 then -x else x
  }

  /** C integer division, which truncates toward zero (Dafny's `/` is Euclidean). */
  function CDiv(x: int, y: int): (q: int)
    requires y != 0
    ensures x >= 0 && y > 0 ==> q == x / y
  {
    var m := IntAbs(x) / IntAbs(y);
    if (x >= 0) == (y > 0) then m else -m
  }

  /** The sum a left-to-right accumulation loop computes. */
  function Sum(s: seq<real>): real {
    if s == [] then 0.0 else Sum(s[..|s| - 1]) + s[|s| - 1]
  }

  function Max(x: real, y: real): (m: real)
    ensures m >= x && m >= y && (m == x || m == y)
  {
    if x < y then y else x
  }

  /** A sum of n copies of m is n times m. */
  lemma {:induction false} SumOfConstant(n: nat, m: real)
    ensures Sum(seq(n, _ => m)) == n as real * m
  {
    if n > 0 {
      var s := seq(n, _ => m);
      assert s[..n - 1] == seq(n - 1, _ => m);
      SumOfConstant(n - 1, m);
    }
  }
}
