// 64-bit bitboards: the masks and shifts of the encoder do to the bits what Canonical.dfy does to sets of squares.

module BitBoards {
  import opened Squares
  import opened Board
  import opened PiecePlanes
  import opened Canonical

  type Bits = bv64

  /** `ReverseBitsInBytes`. */
  function FlipBits(v0: Bits): Bits {
    var v1 := ((v0 >> 1) & 0x5555555555555555) | ((v0 & 0x5555555555555555) << 1);
    var v2 := ((v1 >> 2) & 0x3333333333333333) | ((v1 & 0x3333333333333333) << 2);
    ((v2 >> 4) & 0x0F0F0F0F0F0F0F0F) | ((v2 & 0x0F0F0F0F0F0F0F0F) << 4)
  }

  /** `ReverseBytesInBytes`. */
  function MirrorBits(v0: Bits): Bits {
    var v1 := ((v0 & 0x00000000FFFFFFFF) << 32) | ((v0 & 0xFFFFFFFF00000000) >> 32);
    var v2 := ((v1 & 0x0000FFFF0000FFFF) << 16) | ((v1 & 0xFFFF0000FFFF0000) >> 16);
    ((v2 & 0x00FF00FF00FF00FF) << 8) | ((v2 & 0xFF00FF00FF00FF00) >> 8)
  }

  /** `TransposeBitsInBytes`. */
  function TransposeBits(v0: Bits): Bits {
    var v1 := ((v0 & 0xAA00AA00AA00AA00) >> 9) | ((v0 & 0x0055005500550055) << 9) | (v0 & 0x55AA55AA55AA55AA);
    var v2 := ((v1 & 0xCCCC0000CCCC0000) >> 18) | ((v1 & 0x0000333300003333) << 18) | (v1 & 0x3333CCCC3333CCCC);
    ((v2 & 0xF0F0F0F000000000) >> 36) | ((v2 & 0x000000000F0F0F0F) << 36) | (v2 & 0x0F0F0F0FF0F0F0F0)
  }

  predicate Has(v: Bits, i: bv6) {
    (v >> i) & 1 == 1
  }

  lemma FlipMoves(v: Bits, i: bv6)
    ensures Has(FlipBits(v), i) <==> Has(v, i ^ 7)
  {
  }

  lemma MirrorMoves(v: Bits, i: bv6)
    ensures Has(MirrorBits(v), i) <==> Has(v, i ^ 56)
  {
  }

  lemma TransposeMoves(v: Bits, i: bv6)
    ensures Has(TransposeBits(v), i) <==> Has(v, ((7 - (i & 7)) << 3) | (7 - (i >> 3)))
  {
  }

  /** Bit `8 * rank + file`. */
  function SquareOf(i: bv6): Square {
    Sq((i & 7) as int, (i >> 3) as int)
  }

  lemma FlipIndex(i: bv6)
    ensures SquareOf(i ^ 7) == FlipFile(SquareOf(i))
  {
  }

  lemma MirrorIndex(i: bv6)
    ensures SquareOf(i ^ 56) == MirrorRank(SquareOf(i))
  {
  }

  lemma TransposeIndex(i: bv6)
    ensures SquareOf(((7 - (i & 7)) << 3) | (7 - (i >> 3))) == TransposeSquare(SquareOf(i))
  {
  }

  /** The bits of `v` are the squares of `x`. */
  ghost predicate Shows(v: Bits, x: set<Square>) {
    OnBoards(x) && forall i: bv6 :: Has(v, i) <==> SquareOf(i) in x
  }

  lemma FlipShows(v: Bits, x: set<Square>)
    requires Shows(v, x)
    ensures Shows(FlipBits(v), Moved(FLIP, x))
  {
    forall i: bv6 ensures Has(FlipBits(v), i) <==> SquareOf(i) in Moved(FLIP, x) {
      FlipMoves(v, i);
      FlipIndex(i);
    }
  }

  lemma MirrorShows(v: Bits, x: set<Square>)
    requires Shows(v, x)
    ensures Shows(MirrorBits(v), Moved(MIRROR, x))
  {
    forall i: bv6 ensures Has(MirrorBits(v), i) <==> SquareOf(i) in Moved(MIRROR, x) {
      MirrorMoves(v, i);
      MirrorIndex(i);
    }
  }

  lemma TransposeShows(v: Bits, x: set<Square>)
    requires Shows(v, x)
    ensures Shows(TransposeBits(v), Moved(TRANSPOSE, x))
  {
    forall i: bv6 ensures Has(TransposeBits(v), i) <==> SquareOf(i) in Moved(TRANSPOSE, x) {
      TransposeMoves(v, i);
      TransposeIndex(i);
    }
  }

  /** Applying a transform to the bits moves the squares. */
  lemma ApplyShows(t: Transform, v: Bits, x: set<Square>)
    requires Shows(v, x)
    ensures Shows(ApplyBits(t, v), Moved(t, x))
  {
    var u1, u2 := Transform(t.flip, false, false), Transform(t.flip, t.mirror, false);
    MovedNowhere(x);
    if t.flip { FlipShows(v, x); }
    var v1 := if t.flip then FlipBits(v) else v;
    MovedCompose(MIRROR, u1, x);
    if t.mirror { MirrorShows(v1, Moved(u1, x)); }
    var v2 := if t.mirror then MirrorBits(v1) else v1;
    MovedCompose(TRANSPOSE, u2, x);
    if t.transpose { TransposeShows(v2, Moved(u2, x)); }
  }

  lemma MovedNowhere(x: set<Square>)
    ensures Moved(NO_TRANSFORM, x) == x
  {
  }

  function ApplyBits(t: Transform, v0: Bits): Bits {
    var v1 := if t.flip then FlipBits(v0) else v0;
    var v2 := if t.mirror then MirrorBits(v1) else v1;
    if t.transpose then TransposeBits(v2) else v2
  }

  lemma ConstantsStay(t: Transform)
    ensures ApplyBits(t, 0) == 0 && ApplyBits(t, 0xFFFFFFFFFFFFFFFF) == 0xFFFFFFFFFFFFFFFF
  {
  }

  /** The plane rewriting at the end of `EncodePositionForNN`; empty and full planes are skipped, which changes
      nothing. */
  method TransformPlanes(planes: array<Bits>, t: Transform)
    modifies planes
    ensures forall i :: 0 <= i < planes.Length ==> planes[i] == ApplyBits(t, old(planes[i]))
  {
    ConstantsStay(t);
    var i := 0;
    while i < planes.Length
      invariant 0 <= i <= planes.Length
      invariant forall j :: 0 <= j < i ==> planes[j] == ApplyBits(t, old(planes[j]))
      invariant forall j :: i <= j < planes.Length ==> planes[j] == old(planes[j])
    {
      var v := planes[i];
      if !(v == 0 || v == 0xFFFFFFFFFFFFFFFF) {
        if t.flip { v := FlipBits(v); }
        if t.mirror { v := MirrorBits(v); }
        if t.transpose { v := TransposeBits(v); }
        planes[i] := v;
      }
      i := i + 1;
    }
  }

  // ---- words as numbers ----

  lemma AsIntOrder(a: bv6, b: bv6)
    requires a > b
    ensures a as int > b as int
  {
  }

  lemma PartsOrder(i: bv6, j: bv6)
    requires j > i
    ensures j >> 3 > i >> 3 || (j >> 3 == i >> 3 && j & 7 > i & 7)
  {
  }

  lemma Parts(i: bv6)
    ensures (i & 7) as int < 8 && (i >> 3) as int < 8
  {
  }

  /** Squares are ordered as their bits are. */
  lemma HigherIndex(i: bv6, j: bv6)
    requires j > i
    ensures Index(SquareOf(j)) > Index(SquareOf(i))
  {
    PartsOrder(i, j);
    Parts(i);
    Parts(j);
    if j >> 3 > i >> 3 { AsIntOrder(j >> 3, i >> 3); } else { AsIntOrder(j & 7, i & 7); }
  }

  lemma IndexOf(s: Square) returns (i: bv6)
    requires s.OnBoard()
    ensures SquareOf(i) == s
  {
    var r, f := s.rank as bv6, s.file as bv6;
    i := (r << 3) | f;
    assert i & 7 == f && i >> 3 == r;
  }

  lemma HalfHas(v: Bits, i: bv6)
    ensures Has(v >> 1, i) <==> i < 63 && Has(v, i + 1)
  {
  }

  lemma HalfLess(v: Bits, w: Bits, a: Bits, b: Bits)
    requires a == v >> 1 && b == w >> 1 && a < b
    ensures v < w
  {
  }

  lemma HalfEqual(v: Bits, w: Bits, a: Bits, b: Bits)
    requires a == v >> 1 && b == w >> 1 && a == b
    ensures v & 1 == w & 1 ==> v == w
    ensures v & 1 < w & 1 ==> v < w
  {
  }

  lemma HalfSmaller(v: Bits)
    requires v != 0
    ensures v >> 1 < v
  {
  }

  lemma LowBit(v: Bits)
    ensures Has(v, 0) <==> v & 1 == 1
    ensures v & 1 == 0 || v & 1 == 1
  {
  }

  ghost predicate Agree(v: Bits, w: Bits) {
    forall j: bv6 {:trigger Has(v, j)} {:trigger Has(w, j)} :: Has(v, j) <==> Has(w, j)
  }

  ghost predicate AgreeAbove(v: Bits, w: Bits, i: bv6) {
    forall j: bv6 {:trigger Has(v, j)} {:trigger Has(w, j)} :: j > i ==> (Has(v, j) <==> Has(w, j))
  }

  lemma HalvesAgree(v: Bits, w: Bits, a: Bits, b: Bits)
    requires Agree(v, w) && a == v >> 1 && b == w >> 1
    ensures Agree(a, b)
  {
    forall j: bv6 {:trigger Has(a, j)} {:trigger Has(b, j)} ensures Has(a, j) <==> Has(b, j) {
      HalfHas(v, j);
      HalfHas(w, j);
    }
  }

  lemma HalvesAgreeAbove(v: Bits, w: Bits, a: Bits, b: Bits, i: bv6)
    requires AgreeAbove(v, w, i) && i > 0 && a == v >> 1 && b == w >> 1
    ensures AgreeAbove(a, b, i - 1)
  {
    forall j: bv6 {:trigger Has(a, j)} {:trigger Has(b, j)} | j > i - 1 ensures Has(a, j) <==> Has(b, j) {
      HalfHas(v, j);
      HalfHas(w, j);
      assert j < 63 ==> j + 1 > i;
    }
  }

  lemma HalvesAgreeAll(v: Bits, w: Bits, a: Bits, b: Bits)
    requires AgreeAbove(v, w, 0) && a == v >> 1 && b == w >> 1
    ensures Agree(a, b)
  {
    forall j: bv6 {:trigger Has(a, j)} {:trigger Has(b, j)} ensures Has(a, j) <==> Has(b, j) {
      HalfHas(v, j);
      HalfHas(w, j);
      assert j < 63 ==> j + 1 > 0;
    }
  }

  /** Words with the same bits are equal. */
  lemma {:induction false} AgreeMeansEqual(v: Bits, w: Bits)
    requires Agree(v, w)
    ensures v == w
    decreases v, w
  {
    if v != 0 || w != 0 {
      var a, b := v >> 1, w >> 1;
      HalvesAgree(v, w, a, b);
      if v != 0 { HalfSmaller(v); } else { HalfSmaller(w); }
      AgreeMeansEqual(a, b);
      HalfEqual(v, w, a, b);
      LowBit(v);
      LowBit(w);
      assert Has(v, 0) <==> Has(w, 0);
    }
  }

  /** The highest bit on which two words differ decides. */
  lemma {:induction false} TopDecides(v: Bits, w: Bits, i: bv6)
    requires AgreeAbove(v, w, i) && !Has(v, i) && Has(w, i)
    ensures v < w
    decreases i
  {
    var a, b := v >> 1, w >> 1;
    if i == 0 {
      HalvesAgreeAll(v, w, a, b);
      AgreeMeansEqual(a, b);
      HalfEqual(v, w, a, b);
      LowBit(v);
      LowBit(w);
    } else {
      HalvesAgreeAbove(v, w, a, b, i);
      HalfHas(v, i - 1);
      HalfHas(w, i - 1);
      TopDecides(a, b, i - 1);
      HalfLess(v, w, a, b);
    }
  }

  lemma SameWord(v: Bits, w: Bits, x: set<Square>)
    requires Shows(v, x) && Shows(w, x)
    ensures v == w
  {
    AgreeMeansEqual(v, w);
  }

  lemma SameAbove(v: Bits, w: Bits, x: set<Square>, y: set<Square>, i: bv6, j: bv6)
    requires Shows(v, x) && Shows(w, y) && TopDifference(x, y, SquareOf(i)) && j > i
    ensures Has(v, j) <==> Has(w, j)
  {
    HigherIndex(i, j);
    assert SquareOf(j) in x <==> SquareOf(j) in y;
  }

  lemma LessMeansLess(v: Bits, w: Bits, x: set<Square>, y: set<Square>)
    requires Shows(v, x) && Shows(w, y) && Less(x, y)
    ensures v < w
  {
    var s :| TopDifference(x, y, s) && s in y;
    var i := IndexOf(s);
    forall j: bv6 {:trigger Has(v, j)} {:trigger Has(w, j)} | j > i ensures Has(v, j) <==> Has(w, j) {
      SameAbove(v, w, x, y, i, j);
    }
    TopDecides(v, w, i);
  }

  /** The order on sets is the order of the words that show them, and equal sets are shown by equal words: what is
      proved about sets holds of the words the encoder compares and writes. */
  lemma WordOrder(v: Bits, w: Bits, x: set<Square>, y: set<Square>)
    requires Shows(v, x) && Shows(w, y)
    ensures v < w <==> Less(x, y)
    ensures v == w <==> x == y
  {
    Trichotomy(x, y);
    WordsFollow(v, w, x, y);
    OneHolds(v, w, Less(x, y), Less(y, x), x == y);
  }

  lemma WordsFollow(v: Bits, w: Bits, x: set<Square>, y: set<Square>)
    requires Shows(v, x) && Shows(w, y)
    ensures (Less(x, y) ==> v < w) && (Less(y, x) ==> w < v) && (x == y ==> v == w)
  {
    if x == y { SameWord(v, w, x); }
    if Less(x, y) { LessMeansLess(v, w, x, y); }
    if Less(y, x) { LessMeansLess(w, v, y, x); }
  }

  lemma OneHolds(v: Bits, w: Bits, less: bool, more: bool, same: bool)
    requires (less ==> v < w) && (more ==> w < v) && (same ==> v == w) && (less || more || same)
    ensures (v < w <==> less) && (v == w <==> same)
  {
  }

  /** `CompareTransposing`, on the word: the transformed board against its transposition. */
  method CompareTransposing(board: Bits, initial: Transform) returns (r: int)
    requires !initial.transpose
    ensures forall x :: Shows(board, x) ==> r == Compare(Moved(initial, x), Moved(TRANSPOSE, Moved(initial, x)))
  {
    var value := board;
    if initial.flip { value := FlipBits(value); }
    if initial.mirror { value := MirrorBits(value); }
    var alternative := TransposeBits(value);
    var less, more := value < alternative, value > alternative;
    r := if less then -1 else if more then 1 else 0;
    forall x | Shows(board, x) ensures r == Compare(Moved(initial, x), Moved(TRANSPOSE, Moved(initial, x))) {
      ApplyShows(initial, board, x);
      TransposeShows(value, Moved(initial, x));
      WordCompare(value, alternative, Moved(initial, x), Moved(TRANSPOSE, Moved(initial, x)), less, more);
    }
  }

  lemma WordCompare(v: Bits, w: Bits, x: set<Square>, y: set<Square>, less: bool, more: bool)
    requires Shows(v, x) && Shows(w, y) && (less <==> v < w) && (more <==> w < v)
    ensures Compare(x, y) == if less then -1 else if more then 1 else 0
  {
    WordsFollow(v, w, x, y);
    ThreeWay(v, w, less, more);
    Trichotomy(x, y);
  }

  lemma ThreeWay(v: Bits, w: Bits, less: bool, more: bool)
    requires (less <==> v < w) && (more <==> w < v)
    ensures !(less && more) && (v == w ==> !less && !more)
  {
  }

  /** Symmetric images of a position are encoded by the same words, plane by plane; `plane` picks one. */
  lemma SameEncodedWord(b: Board, g: Transform, plane: Planes -> set<Square>, v: Bits, w: Bits)
    requires WellFormed(b) && NoCastling(b.castlings) && (RealPawns(b) == {} || g == FLIP || g == NO_TRANSFORM)
    requires Shows(v, plane(EncodedPlanes(b))) && Shows(w, plane(EncodedPlanes(MoveBoard(g, b))))
    ensures v == w
  {
    SamePlanes(b, g);
    SameWord(v, w, plane(EncodedPlanes(b)));
  }
}
