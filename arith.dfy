/** Facts about multiplication, division and remainder that the
    row-major index computations of both packages rest on. */
module IndexArith {
  lemma MulStrictBound(q: int, d: int, P: int, n: int)
    requires 0 <= q < n && 0 <= d < P
    ensures 0 <= q * P + d < n * P
  {
    assert q * P + d < (q + 1) * P;
    assert (q + 1) * P <= n * P;
  }

  lemma MulMonotone(a: int, b: int, c: int)
    requires c >= 0
    ensures a <= b ==> a * c <= b * c
  {
    if a <= b {
      assert b * c - a * c == (b - a) * c;
    }
  }

  lemma DivModOf(q: int, d: int, P: int)
    requires 0 <= d < P
    ensures (q * P + d) / P == q && (q * P + d) % P == d
  {
    var n := q * P + d;
    var q', d' := n / P, n % P;
    assert n == q' * P + d';
    assert (q - q') * P == d' - d;
    MulMonotone(1, q - q', P);
    MulMonotone(q - q', -1, P);
  }

  lemma DivBelow(p: int, P: int, n: int)
    requires P > 0 && 0 <= p < n * P
    ensures 0 <= p / P < n
  {
    MulMonotone(n, p / P, P);
  }

  lemma MulSucc(i: int, k: int)
    ensures (i + 1) * k == i * k + k
  {
  }
}
