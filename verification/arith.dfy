/** Facts of arithmetic and of set sizes the solver does not find by itself. */
module Arith {

  /** Multiples of `n` are `n` apart. */
  lemma {:induction false} MulGap(n: nat, a: nat, b: nat)
    ensures a < b ==> n * a + n <= n * b
  {
    if a < b {
      assert n * b == n * (b - 1) + n;
      if a < b - 1 {
        MulGap(n, a, b - 1);
      } else {
        assert a == b - 1;
      }
    }
  }

  lemma DivModUnique(n: nat, q: nat, r: nat)
    requires r < n
    ensures (n * q + r) / n == q && (n * q + r) % n == r
  {
    var i := n * q + r;
    assert i == n * (i / n) + i % n;
    MulGap(n, i / n, q);
    MulGap(n, q, i / n);
  }

  lemma MulAssoc(a: int, b: int, c: int)
    ensures a * (b * c) == (a * b) * c
  {
  }

  lemma SubsetSize<T>(a: set<T>, b: set<T>)
    requires a <= b
    ensures |a| <= |b| && (|a| == |b| <==> a == b)
  {
    assert b == a + (b - a);
  }
}
