/** Linear probing over a table of `n` slots. */
module Probing {

  /** The slot a probe that starts at `x` looks at after `t` steps. */
  function Probe(x: nat, t: nat, n: nat): (j: nat)
    requires n > 0
    ensures j < n
  {
    (x + t) % n
  }

  lemma {:induction false} Multiple(k: nat, n: nat)
    requires k > 0
    ensures k * n >= n
  {
    if k > 1 {
      Multiple(k - 1, n);
      assert k * n == (k - 1) * n + n;
    }
  }

  lemma QuotientUnique(q: int, r: int, q': int, r': int, n: nat)
    requires 0 <= r < n && 0 <= r' < n && q * n + r == q' * n + r'
    ensures r == r'
  {
    assert (q - q') * n == q * n - q' * n;
    assert (q' - q) * n == q' * n - q * n;
    if q > q' {
      Multiple(q - q', n);
    } else if q < q' {
      Multiple(q' - q, n);
    }
  }

  lemma ModUnique(a: int, q: int, r: int, n: nat)
    requires 0 <= r < n && a == q * n + r
    ensures a % n == r
  {
    QuotientUnique(q, r, a / n, a % n, n);
  }

  /** One step further is the next slot, wrapping around. */
  lemma ProbeNext(x: nat, t: nat, n: nat)
    requires n > 0
    ensures Probe(x, t + 1, n) == (Probe(x, t, n) + 1) % n
  {
    var q, r := (x + t) / n, (x + t) % n;
    assert x + t == q * n + r;
    if r + 1 < n {
      ModUnique(x + t + 1, q, r + 1, n);
      ModUnique(r + 1, 0, r + 1, n);
    } else {
      assert x + t + 1 == (q + 1) * n + 0 by { assert (q + 1) * n == q * n + n; }
      ModUnique(x + t + 1, q + 1, 0, n);
      ModUnique(r + 1, 1, 0, n);
    }
  }

  /** `n` steps visit every slot. */
  lemma ProbeReaches(x: nat, j: nat, n: nat) returns (t: nat)
    requires j < n
    ensures t < n && Probe(x, t, n) == j
  {
    var q, r := x / n, x % n;
    assert x == q * n + r;
    if r <= j {
      t := j - r;
      ModUnique(x + t, q, j, n);
    } else {
      t := n - r + j;
      assert x + t == (q + 1) * n + j by { assert (q + 1) * n == q * n + n; }
      ModUnique(x + t, q + 1, j, n);
    }
  }

}
