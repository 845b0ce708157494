/** Remainders of natural numbers by a divisor that is not fixed. */
module Remainders {
  lemma WrapsOnce(i: nat, n: nat)
    requires i < 2 * n
    ensures i % n == if i < n then i else i - n
  {
    if i < n {
      SmallRemainder(i, n);
    } else {
      SmallRemainder(i - n, n);
      assert i == (i - n) + n;
      OneRoundLess(i, n);
    }
  }

  lemma SmallRemainder(i: nat, n: nat)
    requires i < n
    ensures i % n == i
  {}

  lemma OneRoundLess(i: nat, n: nat)
    requires 0 < n <= i
    ensures i % n == (i - n) % n
  {
    var q, r := (i - n) / n, (i - n) % n;
    assert i == (q + 1) * n + r;
    RemainderIs(i, n, q + 1, r);
  }

  lemma {:induction false} WrapsBeforeAdding(i: nat, k: nat, n: nat)
    requires 0 < n
    ensures (i + k) % n == (i % n + k) % n
  {
    if i < n {
      SmallRemainder(i, n);
    } else {
      WrapsBeforeAdding(i - n, k, n);
      OneRoundLess(i, n);
      OneRoundLess(i + k, n);
    }
  }

  lemma RemainderIs(i: nat, n: nat, q: nat, r: nat)
    requires 0 < n && i == q * n + r && r < n
    ensures i % n == r
  {
    var p := i / n;
    if p < q {
      MoreRounds(p + 1, q, n);
    } else if q < p {
      MoreRounds(q + 1, p, n);
    }
  }

  lemma MoreRounds(p: nat, q: nat, n: nat)
    requires p <= q
    ensures p * n <= q * n
  {
    assert q * n == p * n + (q - p) * n;
  }
}
