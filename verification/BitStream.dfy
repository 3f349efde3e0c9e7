// A big-endian stream of bits read through a 64-bit window that is refilled a word at a time.

module BitStream {
  import opened Powers
  import opened Huffman

  /** The number a bit string writes, most significant bit first. */
  function Val(b: seq<bool>): nat {
    if b == [] then 0 else 2 * Val(b[..|b| - 1]) + if b[|b| - 1] then 1 else 0
  }

  lemma {:induction false} ValBound(b: seq<bool>)
    ensures Val(b) < Pow2(|b|)
  {
    if b != [] { ValBound(b[..|b| - 1]); }
  }

  lemma {:induction false} ValAppend(a: seq<bool>, b: seq<bool>)
    ensures Val(a + b) == Val(a) * Pow2(|b|) + Val(b)
    decreases |b|
  {
    if b == [] {
      assert a + b == a;
    } else {
      var m := |b| - 1;
      assert (a + b)[..|a + b| - 1] == a + b[..m];
      ValAppend(a, b[..m]);
      AppendStep(Val(a), Pow2(m), Val(b[..m]), if b[m] then 1 else 0);
    }
  }

  lemma AppendStep(v: int, w: int, x: int, bit: int)
    ensures 2 * (v * w + x) + bit == v * (2 * w) + (2 * x + bit)
  {
  }

  function BitsOf(v: nat, n: nat): (b: seq<bool>)
    ensures |b| == n
  {
    if n == 0 then [] else BitsOf(v / 2, n - 1) + [v % 2 == 1]
  }

  lemma {:induction false} BitsOfVal(v: nat, n: nat)
    requires v < Pow2(n)
    ensures Val(BitsOf(v, n)) == v
  {
    if n > 0 {
      BitsOfVal(v / 2, n - 1);
      assert BitsOf(v, n)[..n - 1] == BitsOf(v / 2, n - 1);
    }
  }

  // ---- codewords as bits ----

  ghost predicate Coded(c: Code, s: nat) {
    exists i :: c.HasLength(s, i)
  }

  ghost function LengthIndex(c: Code, s: nat): (i: nat)
    requires Coded(c, s)
    ensures c.HasLength(s, i)
  {
    var i: nat :| c.HasLength(s, i); i
  }

  lemma {:induction false} UsedNonnegative(c: Code, i: nat)
    requires c.Ordered() && i < |c.offset|
    ensures c.Used(i) >= 0
  {
    if i > 0 { UsedNonnegative(c, i - 1); }
  }

  lemma WordFits(c: Code, s: nat, i: nat)
    requires c.Complete() && c.HasLength(s, i)
    ensures 0 <= c.Word(s, i) < Pow2(c.Len(i))
  {
    BaseNonnegative(c, i);
    if i > 0 { UsedNonnegative(c, i - 1); }
  }

  ghost function WordBits(c: Code, s: nat): (b: seq<bool>)
    requires c.Complete() && Coded(c, s)
    ensures |b| == c.Len(LengthIndex(c, s))
  {
    WordFits(c, s, LengthIndex(c, s));
    BitsOf(c.Word(s, LengthIndex(c, s)), c.Len(LengthIndex(c, s)))
  }

  ghost predicate AllCoded(c: Code, syms: seq<nat>) {
    forall i :: 0 <= i < |syms| ==> Coded(c, syms[i])
  }

  ghost function Encoded(c: Code, syms: seq<nat>): seq<bool>
    requires c.Complete() && AllCoded(c, syms)
  {
    if syms == [] then [] else WordBits(c, syms[0]) + Encoded(c, syms[1..])
  }

  // ---- the window ----

  /** `code` holds the bits from `pos` up to the word boundary `end`, left aligned; the low `empty` bits are 0. */
  ghost predicate Window(bits: seq<bool>, width: nat, code: int, pos: nat, end: nat, empty: nat) {
    && pos <= end <= |bits| && end % 32 == 0 && end - pos + empty == width
    && code == ShiftLeft(Val(bits[pos..end]), empty)
  }

  /** `v << k` without loss. */
  function ShiftLeft(v: int, k: nat): int {
    if k == 0 then v else 2 * ShiftLeft(v, k - 1)
  }

  lemma {:induction false} ShiftIsProduct(v: int, k: nat)
    ensures ShiftLeft(v, k) == v * Pow2(k)
  {
    if k > 0 {
      ShiftIsProduct(v, k - 1);
      Product(v, Pow2(k - 1), 2);
    }
  }

  lemma WindowStarts(bits: seq<bool>, width: nat)
    requires width <= |bits| && width % 32 == 0
    ensures Window(bits, width, Val(bits[..width]), 0, width, 0)
  {
    assert bits[0..width] == bits[..width];
  }

  lemma WindowBound(bits: seq<bool>, width: nat, code: int, pos: nat, end: nat, empty: nat)
    requires Window(bits, width, code, pos, end, empty)
    ensures 0 <= code < Pow2(width)
  {
    ShiftIsProduct(Val(bits[pos..end]), empty);
    ValBound(bits[pos..end]);
    Pow2Positive(empty);
    Pow2Add(end - pos, empty);
    ScaleStrict(Val(bits[pos..end]), Pow2(end - pos), Pow2(empty));
    Scale(0, Val(bits[pos..end]), Pow2(empty));
  }

  /** A window that begins with `n` bits of value `v`. */
  lemma WindowSplits(bits: seq<bool>, width: nat, code: int, pos: nat, end: nat, empty: nat, n: nat)
    requires Window(bits, width, code, pos, end, empty) && pos + n <= end
    ensures code == Val(bits[pos..pos + n]) * Pow2(width - n) + Val(bits[pos + n..end]) * Pow2(empty)
    ensures 0 <= Val(bits[pos + n..end]) * Pow2(empty) < Pow2(width - n)
  {
    var a, b := bits[pos..pos + n], bits[pos + n..end];
    ShiftIsProduct(Val(bits[pos..end]), empty);
    assert bits[pos..end] == a + b;
    ValAppend(a, b);
    Split(Val(a) * Pow2(|b|), Val(b), Pow2(empty));
    Product(Val(a), Pow2(|b|), Pow2(empty));
    Pow2Add(|b|, empty);
    ValBound(b);
    Pow2Positive(empty);
    ScaleStrict(Val(b), Pow2(|b|), Pow2(empty));
    Scale(0, Val(b), Pow2(empty));
  }

  /** `code <<= n` drops the bits read. */
  lemma WindowShifts(bits: seq<bool>, width: nat, code: int, pos: nat, end: nat, empty: nat, n: nat)
    requires Window(bits, width, code, pos, end, empty) && pos + n <= end
    ensures Pow2(width) > 0 && Window(bits, width, (code * Pow2(n)) % Pow2(width), pos + n, end, empty + n)
  {
    WindowSplits(bits, width, code, pos, end, empty, n);
    var v, rest := Val(bits[pos..pos + n]), Val(bits[pos + n..end]) * Pow2(empty);
    Pow2Add(width - n, n);
    Pow2Add(empty, n);
    Pow2Positive(n);
    Pow2Positive(width);
    Split(v * Pow2(width - n), rest, Pow2(n));
    Product(v, Pow2(width - n), Pow2(n));
    ScaleStrict(rest, Pow2(width - n), Pow2(n));
    Scale(0, rest, Pow2(n));
    Quotient(code * Pow2(n), Pow2(width), v, rest * Pow2(n));
    Product(Val(bits[pos + n..end]), Pow2(empty), Pow2(n));
    ShiftIsProduct(Val(bits[pos + n..end]), empty + n);
  }

  /** `code |= word << empty` appends the next word. */
  lemma WindowRefills(bits: seq<bool>, width: nat, code: int, pos: nat, end: nat, empty: nat)
    requires Window(bits, width, code, pos, end, empty) && 32 <= empty && end + 32 <= |bits|
    ensures Window(bits, width, code + Val(bits[end..end + 32]) * Pow2(empty - 32), pos, end + 32, empty - 32)
  {
    var a, b, e := bits[pos..end], bits[end..end + 32], empty - 32;
    ShiftIsProduct(Val(a), empty);
    ShiftIsProduct(Val(bits[pos..end + 32]), e);
    assert bits[pos..end + 32] == a + b;
    ValAppend(a, b);
    Pow2Add(|b|, e);
    Split(Val(a) * Pow2(|b|), Val(b), Pow2(e));
    Product(Val(a), Pow2(|b|), Pow2(e));
  }

  lemma WordBitsVal(c: Code, s: nat)
    requires c.Complete() && Coded(c, s)
    ensures Val(WordBits(c, s)) == c.Word(s, LengthIndex(c, s))
  {
    WordFits(c, s, LengthIndex(c, s));
    BitsOfVal(c.Word(s, LengthIndex(c, s)), c.Len(LengthIndex(c, s)));
  }

  lemma WindowBegins(c: Code, bits: seq<bool>, width: nat, code: int, pos: nat, end: nat, empty: nat, s: nat, i: nat,
                     w: seq<bool>)
    requires c.HasLength(s, i) && c.Len(i) <= width && |w| == c.Len(i) && Val(w) == c.Word(s, i)
    requires Window(bits, width, code, pos, end, empty) && pos + |w| <= end && bits[pos..pos + |w|] == w
    ensures Begins(c, width, code, s, i)
  {
    WindowSplits(bits, width, code, pos, end, empty, |w|);
  }

  /** The window is wide enough for the next codeword, so the scan finds it. */
  lemma WindowFindsWord(c: Code, bits: seq<bool>, width: nat, code: int, pos: nat, end: nat, empty: nat, s: nat, t: nat,
                        j: nat)
    requires c.Complete() && c.Len(|c.offset| - 1) <= width && Coded(c, s) && c.HasLength(t, j)
    requires Window(bits, width, code, pos, end, empty) && pos + |WordBits(c, s)| <= end
    requires bits[pos..pos + |WordBits(c, s)|] == WordBits(c, s) && Begins(c, width, code, t, j)
    ensures t == s && j == LengthIndex(c, s)
  {
    WordBitsVal(c, s);
    WindowBegins(c, bits, width, code, pos, end, empty, s, LengthIndex(c, s), WordBits(c, s));
    DecodingIsUnique(c, width, code, t, j, s, LengthIndex(c, s));
  }
}
