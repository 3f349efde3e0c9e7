// Powers of two.

module Powers {

  function Pow2(n: nat): nat {
    if n == 0 then 1 else 2 * Pow2(n - 1)
  }

  lemma {:induction false} Pow2Positive(n: nat)
    ensures Pow2(n) > 0
  {
    if n > 0 { Pow2Positive(n - 1); }
  }

  lemma {:induction false} Pow2Add(m: nat, n: nat)
    ensures Pow2(m + n) == Pow2(m) * Pow2(n)
  {
    if m > 0 {
      Pow2Add(m - 1, n);
      assert Pow2(m + n) == 2 * (Pow2(m - 1) * Pow2(n)) == (2 * Pow2(m - 1)) * Pow2(n);
    }
  }

  lemma Product(a: int, b: int, c: int)
    ensures a * (b * c) == (a * b) * c
  {
  }

  lemma Split(a: int, b: int, c: int)
    ensures (a + b) * c == a * c + b * c && (a - b) * c == a * c - b * c
  {
  }

  lemma Scale(a: int, b: int, c: int)
    requires a <= b && 0 <= c
    ensures a * c <= b * c
  {
  }

  lemma ScaleStrict(a: int, b: int, c: int)
    requires a < b && 0 < c
    ensures a * c < b * c && a * c + c <= b * c
  {
    Scale(a + 1, b, c);
    Split(a, 1, c);
  }

  lemma Quotient(a: int, l: int, q: int, r: int)
    requires l > 0 && 0 <= r < l && a == q * l + r
    ensures a / l == q && a % l == r
  {
    var d := a / l - q;
    assert d * l == (a / l) * l - q * l == r - a % l;
    assert d >= 1 ==> d * l >= l;
    assert d <= -1 ==> d * l <= -l;
  }
}
