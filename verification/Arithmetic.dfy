/** Products, quotients and remainders. */
module Arithmetic {
  lemma MulGrows(a: int, b: int, th: nat)
    requires a <= b
    ensures a * th <= b * th
  {
  }

  lemma ProductBound(k: nat, th: nat, a: nat)
    requires th >= 1 && k * th <= a
    ensures k <= a / th
  {
    if k > a / th {
      MulGrows(a / th + 1, k, th);
      assert false;
    }
  }

  lemma DivMod(q: int, r: int, th: nat)
    requires th >= 1 && 0 <= r < th
    ensures (q * th + r) / th == q && (q * th + r) % th == r
  {
    var x := q * th + r;
    var d := x / th - q;
    assert d * th == r - x % th;
    if d >= 1 {
      MulGrows(1, d, th);
      assert false;
    } else if d <= -1 {
      MulGrows(d, -1, th);
      assert false;
    }
  }

  /** The quotient rounded up. */
  function Ceil(n: nat, th: nat): nat
    requires th >= 1
  {
    (n + th - 1) / th
  }

  lemma CeilZero(th: nat)
    requires th >= 1
    ensures Ceil(0, th) == 0
  {
    DivMod(0, th - 1, th);
  }

  lemma CountUp(n: nat, th: nat)
    requires th >= 1
    ensures (n + 1) % th == (if n % th == th - 1 then 0 else n % th + 1)
    ensures Ceil(n + 1, th) == Ceil(n, th) + (if n % th == 0 then 1 else 0)
  {
    var q, r := n / th, n % th;
    assert n == q * th + r;
    if r == th - 1 {
      assert n + 1 == (q + 1) * th + 0;
      DivMod(q + 1, 0, th);
    } else {
      DivMod(q, r + 1, th);
    }
    assert n + 1 + th - 1 == (q + 1) * th + r;
    DivMod(q + 1, r, th);
    if r == 0 {
      DivMod(q, th - 1, th);
    } else {
      assert n + th - 1 == (q + 1) * th + (r - 1);
      DivMod(q + 1, r - 1, th);
    }
  }
}
