/**
 Python's integer arithmetic where it differs from Dafny's: floor division,
 `int()` of a float, sequence slicing with out-of-range or negative bounds,
 and `int(np.log2(n))`.
 */
module PyNum {

  /** `a // b`: Python rounds the quotient towards negative infinity. */
  function FloorDiv(a: int, b: int): (q: int)
    requires b != 0
    ensures b > 0 ==> q * b <= a < q * b + b
    ensures b < 0 ==> q * b + b < a <= q * b
  {
    if b > 0 then a / b else (-a) / (-b)
  }

  /** `int(x)` of a float: Python truncates towards zero. */
  function Trunc(x: real): (n: int)
    ensures 0.0 <= x ==> n as real <= x < n as real + 1.0
    ensures x < 0.0 ==> n as real - 1.0 < x <= n as real
  {
    if x >= 0.0 then x.Floor else -((-x).Floor)
  }

  /** Where a Python slice bound `k` lands in a sequence of length `n`. */
  function SliceIndex(n: nat, k: int): (i: nat)
    ensures i <= n
    ensures 0 <= k <= n ==> i == k
    ensures k < 0 <= n + k ==> i == n + k
    ensures n + k < 0 ==> i == 0
    ensures k > n ==> i == n
  {
    if k < 0 then (if n + k < 0 then 0 else n + k)
    else if k > n then n
    else k
  }

  /** 2 to the power `k`. */
  function Pow2(k: nat): (r: nat)
    ensures r >= 1
  {
    if k == 0 then 1 else 2 * Pow2(k - 1)
  }

  /** True when `n` is an exact power of two. */
  ghost predicate IsPowerOfTwo(n: int)
  {
    exists k: nat :: Pow2(k) == n
  }

  /**
   `int(np.log2(n))` for a positive integer: the exponent of the largest
   power of two not above `n`.
   */
  function Log2Floor(n: int): (k: nat)
    requires n >= 1
    ensures Pow2(k) <= n < 2 * Pow2(k)
    decreases n
  {
    if n < 2 then 0
    else
      var k := 1 + Log2Floor(n / 2);
      assert Pow2(k) == 2 * Pow2(k - 1);
      k
  }

  /** Powers of two grow strictly. */
  lemma {:induction false} Pow2Increasing(a: nat, b: nat)
    requires a < b
    ensures 2 * Pow2(a) <= Pow2(b)
    decreases b
  {
    if b > a + 1 {
      Pow2Increasing(a, b - 1);
    }
  }

  /** The floor logarithm recovers `n` exactly when `n` is a power of two. */
  lemma Log2FloorExact(n: int)
    requires n >= 1
    ensures Pow2(Log2Floor(n)) == n <==> IsPowerOfTwo(n)
  {
    var k := Log2Floor(n);
    if IsPowerOfTwo(n) {
      var j: nat :| Pow2(j) == n;
      if j < k {
        Pow2Increasing(j, k);
      } else if j > k {
        Pow2Increasing(k, j);
      }
    }
  }
}
