/** Rounding to an alignment.  The source masks low bits, its alignments being powers of two. */
module Alignment {
  function RoundDown(value: nat, alignment: nat): (r: nat)
    requires alignment > 0
    ensures r <= value < r + alignment
  {
    value - value % alignment
  }

  function RoundUp(value: nat, alignment: nat): (r: nat)
    requires alignment > 0
    ensures value <= r < value + alignment
  {
    RoundDown(value + alignment - 1, alignment)
  }

  lemma RoundDownAligned(v: nat, a: nat)
    requires a > 0
    ensures RoundDown(v, a) % a == 0
  {
    MultipleAligned(v / a, a);
    assert v == a * (v / a) + v % a;
    assert v / a * a == a * (v / a);
  }

  lemma RoundUpAligned(v: nat, a: nat)
    requires a > 0
    ensures RoundUp(v, a) % a == 0
  {
    RoundDownAligned(v + a - 1, a);
  }

  lemma MultipleAligned(k: nat, a: nat)
    requires a > 0
    ensures (k * a) % a == 0
  {
    NoRemainder(k, k * a / a, a, (k * a) % a);
  }

  lemma NoRemainder(k: nat, q: nat, a: nat, r: nat)
    requires k * a == a * q + r && r < a
    ensures r == 0
  {
    var d := k - q;
    assert d * a == r;
  }

  predicate PowerOfTwo(p: int) {
    p == 1 || (p > 1 && p % 2 == 0 && PowerOfTwo(p / 2))
  }

  /** A power of two divides every larger one. */
  lemma {:induction false} PowersDivide(p: nat, q: nat) returns (k: nat)
    requires PowerOfTwo(p) && PowerOfTwo(q) && p <= q
    ensures q == k * p
  {
    if p == 1 {
      k := q;
    } else {
      k := PowersDivide(p / 2, q / 2);
      assert q == 2 * (k * (p / 2)) == k * (2 * (p / 2));
    }
  }

  /** Rounding up to a divisor of a limit does not pass the limit. */
  lemma RoundUpWithin(value: nat, a: nat, k: nat)
    requires a > 0 && value <= k * a
    ensures RoundUp(value, a) <= k * a
  {
    hide RoundUp;
    RoundUpAligned(value, a);
    MultipleBelow(RoundUp(value, a) / a, k, a);
  }

  lemma MultipleBelow(n: nat, k: nat, a: nat)
    requires a > 0 && a * n < k * a + a
    ensures a * n <= k * a
  {
    assert a * k == k * a;
    if n > k { MultiplesGrow(a, k + 1, n); } else { MultiplesGrow(a, n, k); }
  }

  lemma {:induction false} MultiplesGrow(a: nat, n: nat, k: nat)
    requires n <= k
    ensures a * n <= a * k
    decreases k
  {
    if n < k { MultiplesGrow(a, n, k - 1); }
  }
}
