/** Division with remainder by a variable divisor, and how round-robin picks add up. */
module DivMod {

  lemma ModUnique(a: nat, n: nat, q: nat, r: nat)
    requires 0 <= r < n && a == n * q + r
    ensures a % n == r && a / n == q
  {
    QuotientUnique(n, q, r, a / n, a % n);
  }

  lemma QuotientUnique(n: nat, q: nat, r: nat, q': nat, r': nat)
    requires 0 <= r < n && 0 <= r' < n && n * q + r == n * q' + r'
    ensures q == q' && r == r'
  {
    if q > q' {
      StepApart(n, q, q');
    } else if q' > q {
      StepApart(n, q', q);
    }
  }

  lemma {:induction false} StepApart(n: nat, q: nat, q': nat)
    requires q > q'
    ensures n * q >= n * q' + n
    decreases q
  {
    assert n * q == n * (q - 1) + n;
    if q - 1 > q' {
      StepApart(n, q - 1, q');
    }
  }

  /** Counting one further: how quotient and remainder move on. */
  lemma CountStep(m: nat, n: nat)
    requires n > 0
    ensures (m + 1) / n == m / n + if m % n + 1 == n then 1 else 0
    ensures (m + 1) % n == if m % n + 1 == n then 0 else m % n + 1
  {
    var q, r := m / n, m % n;
    if r + 1 == n {
      assert n * (q + 1) == n * q + n;
      ModUnique(m + 1, n, q + 1, 0);
    } else {
      ModUnique(m + 1, n, q, r + 1);
    }
  }

  /** Within `n` consecutive integers, the remainder tells them apart. */
  lemma WindowInjective(base: nat, n: nat, a: nat, b: nat)
    requires base <= a < base + n && base <= b < base + n && a % n == b % n
    ensures a == b
  {
    if a / n > b / n {
      StepApart(n, a / n, b / n);
    } else if b / n > a / n {
      StepApart(n, b / n, a / n);
    }
  }

  /** Among `n` consecutive integers, every remainder occurs. */
  lemma WindowSurjective(base: nat, n: nat, i: nat) returns (a: nat)
    requires i < n
    ensures base <= a < base + n && a % n == i
  {
    var q, r := base / n, base % n;
    if i >= r {
      a := base + i - r;
      ModUnique(a, n, q, i);
    } else {
      a := base + n + i - r;
      assert n * (q + 1) == n * q + n;
      ModUnique(a, n, q + 1, i);
    }
  }

  // ----- counting residues -----

  /** How many of `m` consecutive picks, from position 0 on, fall on position `j`. */
  function Share(m: nat, n: nat, j: nat): nat
    requires j < n
  {
    if m == 0 then 0 else Share(m - 1, n, j) + if (m - 1) % n == j then 1 else 0
  }

  lemma {:induction false} ShareIs(m: nat, n: nat, j: nat)
    requires j < n
    ensures Share(m, n, j) == m / n + if j < m % n then 1 else 0
    ensures Share(m, n, j) == (m + n - 1 - j) / n
  {
    if m == 0 {
      ModUnique(0, n, 0, 0);
    } else {
      ShareIs(m - 1, n, j);
      CountStep(m - 1, n);
    }
    ShareFloor(m, n, j);
  }

  lemma ShareFloor(m: nat, n: nat, j: nat)
    requires j < n
    ensures (m + n - 1 - j) / n == m / n + if j < m % n then 1 else 0
  {
    var q, r := m / n, m % n;
    if j < r {
      assert n * (q + 1) == n * q + n;
      ModUnique(m + n - 1 - j, n, q + 1, r - 1 - j);
    } else {
      ModUnique(m + n - 1 - j, n, q, r + n - 1 - j);
    }
  }
}
