/** Arithmetic of multiples, for the deadlines and countdowns. */
module Multiples {

  lemma MulMonotone(x: int, y: int, b: nat)
    ensures x <= y ==> x * b <= y * b
  {
  }

  lemma DivModUnique(n: nat, b: nat, q: nat, r: nat)
    requires r < b && n == q * b + r
    ensures n / b == q && n % b == r
  {
    var q' := n / b;
    assert n == q' * b + n % b;
    MulMonotone(q + 1, q', b);
    MulMonotone(q' + 1, q, b);
  }

  lemma ModAdd(n: nat, b: nat)
    requires b > 0
    ensures (n + b) % b == n % b && (n + b) / b == n / b + 1
  {
    var q, r := n / b, n % b;
    assert n + b == (q + 1) * b + r;
    DivModUnique(n + b, b, q + 1, r);
  }

  lemma MultipleMod(q: nat, b: nat)
    requires b > 0
    ensures q * b % b == 0 && q * b / b == q
  {
    DivModUnique(q * b, b, q, 0);
  }

  /** The next multiple of `b` after `n` is `n + b`. */
  lemma StepToMultiple(n: nat, m: nat, b: nat)
    requires b > 0 && n % b == 0 && m % b == 0 && n < m
    ensures n + b <= m
  {
    var i, j := n / b, m / b;
    assert n == i * b && m == j * b;
    MulMonotone(j, i, b);
    MulMonotone(i + 1, j, b);
  }

  /** `x` rounded down to a multiple of `b`. */
  lemma FloorMultiple(x: nat, b: nat)
    requires b > 0
    ensures x / b * b % b == 0 && x - b < x / b * b <= x
    ensures x >= b ==> x / b * b >= b
  {
    MultipleMod(x / b, b);
    assert x == x / b * b + x % b;
    MulMonotone(1, x / b, b);
    MulMonotone(x / b, 0, b);
  }

  /** The smallest multiple of `b` that is at least `n`. */
  function RoundUp(n: nat, b: nat): nat
    requires b > 0
  {
    (n + b - 1) / b * b
  }

  lemma RoundUpBounds(n: nat, b: nat)
    requires b > 0
    ensures n <= RoundUp(n, b) <= n + b - 1 && RoundUp(n, b) % b == 0
    ensures n > 0 ==> RoundUp(n, b) >= b
  {
    FloorMultiple(n + b - 1, b);
  }
}
