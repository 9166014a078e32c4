/** Powers of two, bitwise or on natural numbers, and the arithmetic they need. */
module Bits {

  function Pow2(n: nat): (p: nat)
    ensures p >= 1
  {
    if n == 0 then 1 else 2 * Pow2(n - 1)
  }

  function BitOr(a: nat, b: nat): nat {
    if a == 0 then b
    else if b == 0 then a
    else 2 * BitOr(a / 2, b / 2) + if a % 2 == 1 || b % 2 == 1 then 1 else 0
  }

  lemma Products(a: nat, b: nat, n: nat)
    requires a <= b
    ensures a * n <= b * n
    ensures a < b ==> a * n + n <= b * n
  {
    if a < b {
      assert (a + 1) * n == a * n + n;
      assert (a + 1) * n <= b * n;
    }
  }

  lemma DivMod(q: nat, n: nat, r: nat)
    requires r < n
    ensures (q * n + r) / n == q && (q * n + r) % n == r
  {
    var v := q * n + r;
    assert v == v / n * n + v % n;
    if v / n < q {
      Products(v / n, q, n);
    } else if v / n > q {
      Products(q, v / n, n);
    }
  }

  lemma Doubled(k: nat, m: nat)
    ensures 2 * k * m == 2 * (k * m)
  {
  }

  lemma {:induction false} Pow2Sum(a: nat, b: nat)
    ensures Pow2(a + b) == Pow2(a) * Pow2(b)
  {
    if a > 0 {
      Pow2Sum(a - 1, b);
      Doubled(Pow2(a - 1), Pow2(b));
    }
  }

  /** Or is addition where the bits do not meet. */
  lemma {:induction false} OrDisjoint(v: nat, k: nat, b: nat)
    requires b < Pow2(k)
    ensures BitOr(v * Pow2(k), b) == v * Pow2(k) + b
  {
    var a := v * Pow2(k);
    if k > 0 && a != 0 && b != 0 {
      assert a == 2 * (v * Pow2(k - 1)) by { Doubled(v, Pow2(k - 1)); Swapped(v, Pow2(k - 1)); }
      OrDisjoint(v, k - 1, b / 2);
    }
  }

  lemma Swapped(v: nat, p: nat)
    ensures v * (2 * p) == 2 * v * p
  {
  }

  lemma Grouped(a: nat, b: nat, c: nat)
    ensures a * b * c == a * (b * c)
  {
  }

  lemma Spread(a: nat, b: nat, c: nat)
    ensures (a + b) * c == a * c + b * c
  {
  }

  lemma Smaller(a: nat, b: nat, c: nat)
    requires a < b && c >= 1
    ensures a * c < b * c
  {
    Products(a, b, c);
  }

  lemma Regrouped(v: nat, x: nat, a: nat, b: nat)
    ensures v * (a * b) + x * b == (v * a + x) * b
  {
    Grouped(v, a, b);
    Spread(v * a, x, b);
  }

  lemma AddedIsSum(v: nat, x: nat, w: nat, k: nat)
    requires x < Pow2(w)
    ensures BitOr(v * Pow2(w + k), x * Pow2(k)) == (v * Pow2(w) + x) * Pow2(k)
    ensures x * Pow2(k) < Pow2(w + k)
  {
    hide Pow2, BitOr;
    Pow2Sum(w, k);
    Smaller(x, Pow2(w), Pow2(k));
    OrDisjoint(v, w + k, x * Pow2(k));
    Regrouped(v, x, Pow2(w), Pow2(k));
  }
}
