// The canonical Huffman code of Syzygy's compressed tables: longer codewords have smaller values, and the symbols of
// each length are consecutive.

module Huffman {
  import opened Powers

  /** `offset[i]` is the first symbol of length `minLen + i`; longer codewords belong to smaller symbols. */
  datatype Code = Code(minLen: nat, offset: seq<nat>, numSyms: nat) {
    function Len(i: nat): nat {
      minLen + i
    }

    /** One past the last symbol of length `minLen + i`. */
    function Upper(i: nat): nat
      requires i < |offset|
    {
      if i == 0 then numSyms else offset[i - 1]
    }

    function Count(i: nat): int
      requires i < |offset|
    {
      Upper(i) - offset[i]
    }

    ghost predicate Ordered() {
      |offset| > 0 && minLen > 0 && forall i :: 0 <= i < |offset| ==> offset[i] <= Upper(i)
    }

    /** Codewords of at most `minLen + i` bits, each counted with all its extensions to that length. */
    ghost function Used(i: nat): int
      requires i < |offset|
    {
      if i == 0 then Count(0) else 2 * Used(i - 1) + Count(i)
    }

    /** Kraft's sum is exactly 1: every bit string begins with a codeword. */
    ghost predicate Complete() {
      Ordered() && Used(|offset| - 1) == Pow2(Len(|offset| - 1))
    }

    /** The smallest codeword of length `minLen + i`. */
    ghost function Base(i: nat): int
      requires i < |offset|
    {
      Pow2(Len(i)) - Used(i)
    }

    predicate HasLength(s: nat, i: nat) {
      i < |offset| && offset[i] <= s < Upper(i)
    }

    /** The codeword of symbol `s`, as a number of `minLen + i` bits. */
    ghost function Word(s: nat, i: nat): int
      requires HasLength(s, i)
    {
      Base(i) + s - offset[i]
    }
  }

  // ---- Kraft's sum ----

  /** The number of codewords of each length, weighted by 2 to the power of the missing bits. */
  ghost function Weight(c: Code, i: nat): int
    requires i < |c.offset|
  {
    (if i == 0 then 0 else Weight(c, i - 1)) + c.Count(i) * Pow2(|c.offset| - 1 - i)
  }

  lemma {:induction false} UsedIsWeight(c: Code, i: nat)
    requires i < |c.offset|
    ensures Weight(c, i) == c.Used(i) * Pow2(|c.offset| - 1 - i)
  {
    if i > 0 {
      UsedIsWeight(c, i - 1);
      var w := Pow2(|c.offset| - 1 - i);
      assert Pow2(|c.offset| - 1 - (i - 1)) == 2 * w;
      Product(c.Used(i - 1), 2, w);
      Split(2 * c.Used(i - 1), c.Count(i), w);
    }
  }

  /** Completeness is Kraft's equality. */
  lemma CompleteIsKraft(c: Code)
    requires c.Ordered()
    ensures c.Complete() <==> Weight(c, |c.offset| - 1) == Pow2(c.Len(|c.offset| - 1))
  {
    UsedIsWeight(c, |c.offset| - 1);
  }

  // ---- the base recurrence ----

  lemma BaseStep(c: Code, i: nat)
    requires i + 1 < |c.offset|
    ensures c.Base(i + 1) == 2 * c.Base(i) - c.Count(i + 1)
  {
  }

  lemma {:induction false} BaseNonnegative(c: Code, i: nat)
    requires c.Complete() && i < |c.offset|
    ensures c.Base(i) >= 0
    decreases |c.offset| - i
  {
    if i + 1 < |c.offset| {
      BaseNonnegative(c, i + 1);
      BaseStep(c, i);
    }
  }

  /** The recurrence of `setup_pairs`: the division by two is exact, and the bases end up left aligned. */
  method SetupBase(c: Code, width: nat) returns (base: array<int>)
    requires c.Complete() && c.Len(|c.offset| - 1) <= width
    ensures fresh(base) && Aligned(c, width, base[..])
  {
    var h := |c.offset|;
    base := new int[h](_ => 0);
    var i := h - 2;
    while i >= 0
      invariant -1 <= i <= h - 2
      invariant forall j :: i < j < h ==> base[j] == c.Base(j)
    {
      BaseStep(c, i);
      base[i] := (base[i + 1] + c.offset[i] - c.offset[i + 1]) / 2;
      i := i - 1;
    }
    i := 0;
    while i < h
      invariant 0 <= i <= h
      invariant forall j :: i <= j < h ==> base[j] == c.Base(j)
      invariant forall j :: 0 <= j < i ==> base[j] == Shifted(c, width, j)
    {
      base[i] := base[i] * Pow2(width - c.Len(i));
      i := i + 1;
    }
  }

  ghost function Shifted(c: Code, width: nat, i: nat): int
    requires i < |c.offset| && c.Len(i) <= width
  {
    c.Base(i) * Pow2(width - c.Len(i))
  }

  ghost predicate Aligned(c: Code, width: nat, base: seq<int>)
    requires c.Ordered() && c.Len(|c.offset| - 1) <= width
  {
    |base| == |c.offset| && forall i {:trigger base[i]} :: 0 <= i < |base| ==> base[i] == Shifted(c, width, i)
  }

  // ---- decoding one codeword ----

  /** Left aligned, the codewords of each length lie between the bases of their length and the next shorter one. */
  lemma ShiftedStep(c: Code, width: nat, i: nat)
    requires c.Complete() && i + 1 < |c.offset| && c.Len(i + 1) <= width
    ensures Shifted(c, width, i) == (c.Base(i + 1) + c.Count(i + 1)) * Pow2(width - c.Len(i + 1))
    ensures Shifted(c, width, i + 1) <= Shifted(c, width, i)
  {
    BaseStep(c, i);
    var w := Pow2(width - c.Len(i + 1));
    assert Pow2(width - c.Len(i)) == 2 * w;
    Product(c.Base(i), 2, w);
    Pow2Positive(width - c.Len(i + 1));
    Scale(c.Base(i + 1), c.Base(i + 1) + c.Count(i + 1), w);
  }

  lemma {:induction false} ShiftedMonotone(c: Code, width: nat, i: nat, j: nat)
    requires c.Complete() && i <= j < |c.offset| && c.Len(j) <= width
    ensures Shifted(c, width, j) <= Shifted(c, width, i)
    decreases j
  {
    if i < j {
      ShiftedMonotone(c, width, i, j - 1);
      ShiftedStep(c, width, j - 1);
    }
  }

  /** The first length whose base does not exceed the window. */
  ghost predicate Scanned(c: Code, width: nat, window: int, i: nat)
    requires c.Ordered() && c.Len(|c.offset| - 1) <= width
  {
    && i < |c.offset| && window >= Shifted(c, width, i)
    && forall j :: 0 <= j < i ==> window < Shifted(c, width, j)
  }

  /** A codeword followed by arbitrary bits decodes to its symbol and its length. */
  lemma DecodesWord(c: Code, width: nat, s: nat, i: nat, rest: int)
    requires c.Complete() && c.Len(|c.offset| - 1) <= width && c.HasLength(s, i)
    requires 0 <= rest < Pow2(width - c.Len(i))
    ensures var window := c.Word(s, i) * Pow2(width - c.Len(i)) + rest;
      Scanned(c, width, window, i) && c.offset[i] + (window - Shifted(c, width, i)) / Pow2(width - c.Len(i)) == s
  {
    var w := Pow2(width - c.Len(i));
    var window := c.Word(s, i) * w + rest;
    Split(c.Base(i), s - c.offset[i], w);
    Scale(0, s - c.offset[i], w);
    Quotient(window - Shifted(c, width, i), w, s - c.offset[i], rest);
    if i > 0 {
      ShiftedStep(c, width, i - 1);
      ScaleStrict(c.Word(s, i), c.Base(i) + c.Count(i), w);
    }
    forall j | 0 <= j < i ensures window < Shifted(c, width, j) {
      ShiftedMonotone(c, width, j, i - 1);
    }
  }

  /** Conversely every window decodes: it begins with the codeword of the symbol found. */
  lemma EveryWindowDecodes(c: Code, width: nat, window: int, i: nat, q: int, r: int)
    requires c.Complete() && c.Len(|c.offset| - 1) <= width && 0 <= window < Pow2(width) && Scanned(c, width, window, i)
    requires 0 <= r < Pow2(width - c.Len(i)) && window - Shifted(c, width, i) == q * Pow2(width - c.Len(i)) + r
    ensures q >= 0 && c.HasLength(c.offset[i] + q, i)
    ensures window == c.Word(c.offset[i] + q, i) * Pow2(width - c.Len(i)) + r
  {
    var w := Pow2(width - c.Len(i));
    Split(c.Base(i), q, w);
    Split(c.Base(i), c.Count(i), w);
    if q < 0 { ScaleStrict(q, 0, w); }
    if i > 0 {
      ShiftedStep(c, width, i - 1);
    } else {
      Pow2Add(c.Len(0), width - c.Len(0));
    }
    assert window < (c.Base(i) + c.Count(i)) * w;
    if q >= c.Count(i) { Scale(c.Count(i), q, w); }
  }

  /** The length scan of `decompress_pairs`; it ends because the smallest base is 0. */
  method Scan(c: Code, width: nat, base: seq<int>, window: int) returns (i: nat)
    requires c.Complete() && c.Len(|c.offset| - 1) <= width && Aligned(c, width, base) && 0 <= window
    ensures Scanned(c, width, window, i)
  {
    i := 0;
    assert Shifted(c, width, |c.offset| - 1) == 0;
    while window < base[i]
      invariant 0 <= i < |base|
      invariant forall j :: 0 <= j < i ==> window < Shifted(c, width, j)
      decreases |base| - i
    {
      i := i + 1;
    }
  }

  method NextSymbol(c: Code, width: nat, base: seq<int>, window: int) returns (s: nat, i: nat)
    requires c.Complete() && c.Len(|c.offset| - 1) <= width && Aligned(c, width, base) && 0 <= window < Pow2(width)
    ensures c.HasLength(s, i) && Begins(c, width, window, s, i)
  {
    i := Scan(c, width, base, window);
    Pow2Positive(width - c.Len(i));
    var q, r := DivMod(window - base[i], Pow2(width - c.Len(i)));
    EveryWindowDecodes(c, width, window, i, q, r);
    s := c.offset[i] + q;
  }

  /** `d >> k` is the quotient by `2^k`; the remainder is what was shifted out. */
  method DivMod(d: int, w: int) returns (q: int, ghost r: int)
    requires w > 0
    ensures d == q * w + r && 0 <= r < w
  {
    q, r := d / w, d % w;
  }

  /** The window begins with the codeword of `s`. */
  ghost predicate Begins(c: Code, width: nat, window: int, s: nat, i: nat)
    requires c.HasLength(s, i) && c.Len(i) <= width
  {
    0 <= window - c.Word(s, i) * Pow2(width - c.Len(i)) < Pow2(width - c.Len(i))
  }

  /** A window begins with at most one codeword. */
  lemma DecodingIsUnique(c: Code, width: nat, window: int, s: nat, i: nat, t: nat, j: nat)
    requires c.Complete() && c.Len(|c.offset| - 1) <= width && c.HasLength(s, i) && c.HasLength(t, j)
    requires Begins(c, width, window, s, i) && Begins(c, width, window, t, j)
    ensures s == t && i == j
  {
    DecodesWord(c, width, s, i, window - c.Word(s, i) * Pow2(width - c.Len(i)));
    DecodesWord(c, width, t, j, window - c.Word(t, j) * Pow2(width - c.Len(j)));
    assert !(i < j) && !(j < i);
  }
}
