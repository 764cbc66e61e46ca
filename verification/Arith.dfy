/** Division facts that the solver does not find for a symbolic divisor. */
module Arith {

  lemma DivModUnique(t: int, x: int, q: int, r: int)
    requires 0 <= r < x && t == q * x + r
    ensures t / x == q && t % x == r
  {
    var d := t / x - q;
    assert d * x == r - t % x by {
      assert t == (t / x) * x + t % x;
      assert d * x == (t / x) * x - q * x;
    }
    assert d >= 1 ==> d * x >= x;
    assert d <= -1 ==> d * x <= -x;
  }
}
