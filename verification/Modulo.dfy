/** The few facts about remainders that the ring buffer needs. */
module Modulo {

  lemma MultipleBounds(m: int, n: nat)
    requires n > 0
    ensures m >= 1 ==> m * n >= n
    ensures m <= -1 ==> m * n + n <= 0
  {
    if m >= 1 {
      assert (m - 1) * n >= 0;
    } else if m <= -1 {
      assert (-m - 1) * n >= 0;
    }
  }

  lemma Difference(x: nat, q: nat, r: nat, n: nat)
    requires n > 0 && x == q * n + r
    ensures (x / n - q) * n == r - x % n
  {
  }

  lemma {:induction false} DivisionIsUnique(x: nat, q: nat, r: nat, n: nat)
    requires n > 0 && x == q * n + r && r < n
    ensures x % n == r
  {
    Difference(x, q, r, n);
    MultipleBounds(x / n - q, n);
  }

  lemma Shift(x: nat, m: nat, n: nat)
    requires n > 0
    ensures (m * n + x) % n == x % n
  {
    assert m * n + x == (m + x / n) * n + x % n by {
      assert (m + x / n) * n == m * n + (x / n) * n;
    }
    DivisionIsUnique(m * n + x, m + x / n, x % n, n);
  }

  /** Reducing the first summand does not change the remainder of a sum. */
  lemma Fold(p: nat, k: nat, n: nat)
    requires n > 0
    ensures (p % n + k) % n == (p + k) % n
  {
    assert p + k == (p / n) * n + (p % n + k);
    Shift(p % n + k, p / n, n);
  }

  /** Numbers less than `n` apart have different remainders. */
  lemma Distinct(p: nat, q: nat, n: nat)
    requires n > 0 && p < q < p + n
    ensures p % n != q % n
  {
    var d := q - p;
    Fold(p, d, n);
    if p % n + d < n {
      DivisionIsUnique(p % n + d, 0, p % n + d, n);
    } else {
      DivisionIsUnique(p % n + d, 1, p % n + d - n, n);
    }
  }

  /** Where a sum lands when the second summand is positive and at most `n`. */
  lemma WrapOnce(p: nat, d: nat, n: nat)
    requires 0 < d <= n
    ensures (p + d) % n == if p % n + d < n then p % n + d else p % n + d - n
  {
    Fold(p, d, n);
    if p % n + d < n {
      DivisionIsUnique(p % n + d, 0, p % n + d, n);
    } else {
      DivisionIsUnique(p % n + d, 1, p % n + d - n, n);
    }
  }
}
