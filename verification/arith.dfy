/** Facts about Euclidean division and remainder by a positive divisor
    that the solver does not find on its own. */
module Arith {

  lemma {:induction false} MulAtLeast(n: int, x: int)
    requires n > 0 && x >= 1
    ensures n * x >= n
    decreases x
  {
    if x > 1 {
      MulAtLeast(n, x - 1);
    }
  }

  /** Quotient and remainder are the only pair with `w == n * d + r` and `0 <= r < n`. */
  lemma DivModUnique(w: int, n: int, d: int, r: int)
    requires n > 0 && 0 <= r < n && w == n * d + r
    ensures w % n == r && w / n == d
  {
    var x := w / n - d;
    assert n * x == r - w % n;
    if x >= 1 {
      MulAtLeast(n, x);
    } else if x <= -1 {
      MulAtLeast(n, -x);
    }
  }

  /** `(z + n * q) mod n == z mod n`. */
  lemma ModAddMultiple(z: nat, q: nat, n: nat)
    requires n > 0
    ensures (z + n * q) % n == z % n
  {
    DivModUnique(z + n * q, n, z / n + q, z % n);
  }

  /** `(x + y mod n) mod n == (x + y) mod n`. */
  lemma ModAddMod(x: nat, y: nat, n: nat)
    requires n > 0
    ensures (x + y % n) % n == (x + y) % n
  {
    DivModUnique(x + y, n, (x + y % n) / n + y / n, (x + y % n) % n);
  }
}
