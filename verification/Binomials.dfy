// Binomial coefficients as Syzygy indexing computes them, and the combinatorial number system they index.

module Binomials {
  import Powers

  /** The number of `k`-element subsets of `n` squares, by Pascal's rule. */
  function Choose(n: nat, k: nat): nat {
    if k == 0 then 1 else if n == 0 then 0 else Choose(n - 1, k - 1) + Choose(n - 1, k)
  }

  function Factorial(k: nat): (f: nat)
    ensures f > 0
  {
    if k == 0 then 1 else Factorial(k - 1) * k
  }

  /** `n * (n - 1) * ... * (n - k + 1)`. */
  function Falling(n: int, k: nat): int {
    if k == 0 then 1 else Falling(n, k - 1) * (n - k + 1)
  }

  lemma {:induction false} FallingShift(n: int, k: nat)
    ensures Falling(n + 1, k + 1) == (n + 1) * Falling(n, k)
  {
    if k > 0 {
      FallingShift(n, k - 1);
      var a := Falling(n, k - 1);
      assert Falling(n + 1, k + 1) == Falling(n + 1, k) * (n - k + 1) == (n + 1) * a * (n - k + 1);
      assert (n + 1) * a * (n - k + 1) == (n + 1) * (a * (n - k + 1));
    }
  }

  /** The product of factors is `k!` times the coefficient, so the division is exact. It is 0 for `n < k`, where a
      factor is 0. */
  lemma {:induction false} FallingIsChoose(n: nat, k: nat)
    ensures Falling(n, k) == Choose(n, k) * Factorial(k)
  {
    if k == 0 {
    } else if n == 0 {
      FallingShift(-1, k - 1);
    } else {
      FallingIsChoose(n - 1, k);
      FallingIsChoose(n - 1, k - 1);
      FallingShift(n - 1, k - 1);
      PascalStep(n, k, Falling(n - 1, k - 1), Factorial(k - 1), Choose(n - 1, k - 1), Choose(n - 1, k),
                 Falling(n, k), Falling(n - 1, k), Factorial(k), Choose(n, k));
    }
  }

  /** Pascal's rule carried over to the products `w`, `h` and `a` of `k`, `k` and `k - 1` factors. */
  lemma PascalStep(n: int, k: int, a: int, f: int, c: int, d: int, w: int, h: int, g: int, e: int)
    requires a == c * f && h == d * g && g == f * k && h == a * (n - 1 - k + 1) && w == (n - 1 + 1) * a && e == c + d
    ensures w == e * g
  {
    assert a * (n - 1 - k + 1) == a * (n - k) && (n - 1 + 1) * a == a * n;
    assert (c + d) * (f * k) == c * (f * k) + d * (f * k);
    assert c * (f * k) == (c * f) * k;
    assert a * k + a * (n - k) == a * n;
  }

  lemma {:induction false} ChooseMonotone(m: nat, n: nat, k: nat)
    requires m <= n
    ensures Choose(m, k) <= Choose(n, k)
    decreases n - m
  {
    if m < n { ChooseMonotone(m, n - 1, k); }
  }

  lemma {:induction false} ChoosePositive(n: nat, k: nat)
    requires k <= n
    ensures Choose(n, k) > 0
  {
    if k > 0 { ChoosePositive(n - 1, k - 1); }
  }

  // ---- the two ways the program computes them ----

  /** `Binomial[i][j] = f / l` in `init_indices`. */
  method BinomialEntry(i: nat, j: nat) returns (r: nat)
    ensures r == Choose(j, i)
  {
    var f, l := 1, 1;
    var k := 0;
    while k < i
      invariant 0 <= k <= i && f == Falling(j, k) && l == Factorial(k)
    {
      f := f * (j - k);
      l := l * (k + 1);
      k := k + 1;
    }
    FallingIsChoose(j, i);
    Powers.Quotient(f, l, Choose(j, i), 0);
    r := f / l;
  }

  /** The whole table. */
  method InitBinomial() returns (table: array2<nat>)
    ensures fresh(table) && table.Length0 == 7 && table.Length1 == 64
    ensures forall i, j :: 0 <= i < 7 && 0 <= j < 64 ==> table[i, j] == Choose(j, i)
  {
    table := new nat[7, 64];
    var i := 0;
    while i < 7
      invariant 0 <= i <= 7
      invariant forall a, j :: 0 <= a < i && 0 <= j < 64 ==> table[a, j] == Choose(j, a)
    {
      var j := 0;
      while j < 64
        invariant 0 <= j <= 64
        invariant forall a, b :: 0 <= a < i && 0 <= b < 64 ==> table[a, b] == Choose(b, a)
        invariant forall b :: 0 <= b < j ==> table[i, b] == Choose(b, i)
      {
        var r := BinomialEntry(i, j);
        table[i, j] := r;
        j := j + 1;
      }
      i := i + 1;
    }
  }

  /** `subfactor`: placements of `k` like pieces on `n` squares. Without pieces it would return `n`, which is wrong
      unless `n == 1`; groups are never empty. */
  method Subfactor(k: nat, n: nat) returns (r: nat)
    ensures k > 0 ==> r == Choose(n, k)
    ensures k == 0 ==> r == n
  {
    var f, l := n, 1;
    assert Falling(n, 1) == n * Falling(n, 0);
    var i := 1;
    while i < k
      invariant 1 <= i && (k == 0 ==> f == n && l == 1) && (k > 0 ==> i <= k) && f == Falling(n, i) && l == Factorial(i)
    {
      f := f * (n - i);
      l := l * (i + 1);
      i := i + 1;
    }
    FallingIsChoose(n, i);
    assert k == 0 ==> f / l == n;
    Powers.Quotient(f, l, Choose(n, i), 0);
    r := f / l;
  }

  // ---- the combinatorial number system ----

  predicate Increasing(c: seq<int>) {
    forall i, j :: 0 <= i < j < |c| ==> c[i] < c[j]
  }

  predicate Within(c: seq<int>, n: int) {
    forall i :: 0 <= i < |c| ==> 0 <= c[i] < n
  }

  /** `Binomial[1][c[0]] + Binomial[2][c[1]] + ...`. */
  function Rank(c: seq<int>): nat
    requires forall i :: 0 <= i < |c| ==> c[i] >= 0
  {
    if c == [] then 0 else Rank(c[..|c| - 1]) + Choose(c[|c| - 1], |c|)
  }

  /** Subsets of `n` squares are numbered below their count. */
  lemma {:induction false} RankBound(c: seq<int>, n: nat)
    requires Increasing(c) && Within(c, n)
    ensures Rank(c) < Choose(n, |c|)
  {
    if c != [] {
      var last := c[|c| - 1];
      RankBound(c[..|c| - 1], last);
      ChooseMonotone(last + 1, n, |c|);
    }
  }

  /** Different subsets have different numbers. */
  lemma {:induction false} RankInjective(c: seq<int>, d: seq<int>, n: nat)
    requires Increasing(c) && Within(c, n) && Increasing(d) && Within(d, n) && |c| == |d|
    requires Rank(c) == Rank(d)
    ensures c == d
  {
    if c != [] {
      var k := |c|;
      var x, y := c[k - 1], d[k - 1];
      RankBelow(c, d);
      RankBelow(d, c);
      assert x == y;
      RankInjective(c[..k - 1], d[..k - 1], n);
      assert c == c[..k - 1] + [x];
      assert d == d[..k - 1] + [y];
    }
  }

  lemma RankBelow(c: seq<int>, d: seq<int>)
    requires |c| == |d| > 0 && Increasing(c) && Increasing(d) && c[0] >= 0 && d[0] >= 0
    requires forall i :: 0 <= i < |c| ==> c[i] >= 0 && d[i] >= 0
    ensures c[|c| - 1] < d[|d| - 1] ==> Rank(c) < Rank(d)
  {
    if c[|c| - 1] < d[|d| - 1] {
      RankBound(c, c[|c| - 1] + 1);
      ChooseMonotone(c[|c| - 1] + 1, d[|d| - 1], |c|);
    }
  }

  /** The numbering has no holes: every number below the count is the number of some subset. */
  lemma {:induction false} RankOnto(r: nat, n: nat, k: nat) returns (c: seq<int>)
    requires r < Choose(n, k)
    ensures |c| == k && Increasing(c) && Within(c, n) && Rank(c) == r
    decreases n
  {
    if k == 0 {
      c := [];
    } else if r < Choose(n - 1, k) {
      c := RankOnto(r, n - 1, k);
    } else {
      var rest := RankOnto(r - Choose(n - 1, k), n - 1, k - 1);
      c := rest + [n - 1];
      assert c[..k - 1] == rest;
    }
  }
}
