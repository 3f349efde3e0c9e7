// The canonical representative of a position under the symmetries of the board.

module Canonical {
  import opened Squares
  import opened Board
  import opened PiecePlanes

  // ---- the eight symmetries ----

  function FlipFile(s: Square): Square {
    Sq(7 - s.file, s.rank)
  }

  function MirrorRank(s: Square): Square {
    Sq(s.file, 7 - s.rank)
  }

  /** Across the diagonal from h1 to a8. */
  function TransposeSquare(s: Square): Square {
    Sq(7 - s.rank, 7 - s.file)
  }

  /** `FlipTransform`, `MirrorTransform` and `TransposeTransform`, applied in this order. */
  datatype Transform = Transform(flip: bool, mirror: bool, transpose: bool)

  const NO_TRANSFORM := Transform(false, false, false)
  const FLIP := Transform(true, false, false)
  const MIRROR := Transform(false, true, false)
  const TRANSPOSE := Transform(false, false, true)

  function MoveSquare(t: Transform, s0: Square): Square {
    var s1 := if t.flip then FlipFile(s0) else s0;
    var s2 := if t.mirror then MirrorRank(s1) else s1;
    if t.transpose then TransposeSquare(s2) else s2
  }

  predicate Xor(a: bool, b: bool) {
    a != b
  }

  /** First `s`, then `t`. */
  function Compose(t: Transform, s: Transform): Transform {
    if s.transpose then Transform(Xor(s.flip, t.mirror), Xor(s.mirror, t.flip), !t.transpose)
    else Transform(Xor(s.flip, t.flip), Xor(s.mirror, t.mirror), t.transpose)
  }

  function Inverse(t: Transform): Transform {
    if t.transpose then Transform(t.mirror, t.flip, true) else t
  }

  lemma ComposeSquare(t: Transform, s: Transform, x: Square)
    ensures MoveSquare(t, MoveSquare(s, x)) == MoveSquare(Compose(t, s), x)
  {
    if s.transpose { } else { }
  }

  lemma InverseSquare(t: Transform, x: Square)
    ensures MoveSquare(Inverse(t), MoveSquare(t, x)) == x && MoveSquare(t, MoveSquare(Inverse(t), x)) == x
    ensures MoveSquare(t, x).OnBoard() <==> x.OnBoard()
  {
    if t.transpose { } else { }
  }

  lemma InverseComposes(t: Transform, s: Transform)
    ensures Inverse(Compose(t, s)) == Compose(Inverse(s), Inverse(t)) && Compose(Inverse(t), t) == NO_TRANSFORM
  {
  }

  function Moved(t: Transform, x: set<Square>): (r: set<Square>)
    ensures forall s {:trigger s in r} :: s in r <==> MoveSquare(Inverse(t), s) in x
  {
    var r := set s | s in x :: MoveSquare(t, s);
    assert forall s {:trigger s in r} :: s in r <==> MoveSquare(Inverse(t), s) in x by {
      forall s: Square ensures s in r <==> MoveSquare(Inverse(t), s) in x {
        InverseSquare(t, s);
        if s in r {
          var u :| u in x && s == MoveSquare(t, u);
          InverseSquare(t, u);
        }
      }
    }
    r
  }

  lemma MovedCompose(t: Transform, s: Transform, x: set<Square>)
    ensures Moved(t, Moved(s, x)) == Moved(Compose(t, s), x)
  {
    var i, j := Inverse(t), Inverse(s);
    forall q: Square ensures MoveSquare(j, MoveSquare(i, q)) == MoveSquare(Inverse(Compose(t, s)), q) {
      InverseComposes(t, s);
      ComposeSquare(j, i, q);
    }
  }

  lemma MovedBack(t: Transform, x: set<Square>)
    ensures Moved(Inverse(t), Moved(t, x)) == x
  {
    forall q: Square ensures MoveSquare(Inverse(t), MoveSquare(Inverse(Inverse(t)), q)) == q {
      InverseSquare(Inverse(t), q);
      InverseSquare(t, q);
    }
  }

  /** The whole position moved; sides to move and castling stay. */
  function MoveBoard(t: Transform, b: Board): Board {
    b.(ours := Moved(t, b.ours), theirs := Moved(t, b.theirs),
       rooks := Moved(t, b.rooks), bishops := Moved(t, b.bishops),
       pawns := Moved(t, b.pawns), ourKing := MoveSquare(t, b.ourKing), theirKing := MoveSquare(t, b.theirKing))
  }

  lemma BoardsCompose(t: Transform, s: Transform, b: Board)
    ensures MoveBoard(t, MoveBoard(s, b)) == MoveBoard(Compose(t, s), b)
    ensures MoveBoard(Inverse(t), MoveBoard(t, b)) == b
  {
    MovedCompose(t, s, b.ours);
    MovedCompose(t, s, b.theirs);
    MovedCompose(t, s, b.rooks);
    MovedCompose(t, s, b.bishops);
    MovedCompose(t, s, b.pawns);
    MovedBack(t, b.ours);
    MovedBack(t, b.theirs);
    MovedBack(t, b.rooks);
    MovedBack(t, b.bishops);
    MovedBack(t, b.pawns);
    ComposeSquare(t, s, b.ourKing);
    ComposeSquare(t, s, b.theirKing);
    InverseSquare(t, b.ourKing);
    InverseSquare(t, b.theirKing);
  }

  // ---- the order of bitboards as numbers ----

  function Index(s: Square): int {
    8 * s.rank + s.file
  }

  /** As 64-bit numbers, `x < y`: the highest square on which they differ is in `y`. */
  ghost predicate Less(x: set<Square>, y: set<Square>) {
    exists s :: TopDifference(x, y, s) && s in y
  }

  ghost predicate TopDifference(x: set<Square>, y: set<Square>, s: Square) {
    (s in x) != (s in y) && forall u {:trigger u in x} {:trigger u in y} ::
      (u in x) != (u in y) ==> Index(u) <= Index(s)
  }

  lemma {:induction false} Highest(x: set<Square>) returns (s: Square)
    requires x != {}
    ensures s in x && forall u :: u in x ==> Index(u) <= Index(s)
    decreases |x|
  {
    s :| s in x;
    if x != {s} {
      var u := Highest(x - {s});
      if Index(u) > Index(s) { s := u; }
    }
  }

  predicate OnBoards(x: set<Square>) {
    forall s :: s in x ==> s.OnBoard()
  }

  lemma TopUnique(x: set<Square>, y: set<Square>, s: Square, r: Square)
    requires OnBoards(x) && OnBoards(y) && TopDifference(x, y, s) && TopDifference(y, x, r)
    ensures s == r
  {
    assert Index(s) == Index(r);
  }

  /** Two bitboards are equal, or exactly one is less. */
  lemma Trichotomy(x: set<Square>, y: set<Square>)
    requires OnBoards(x) && OnBoards(y)
    ensures x != y ==> Less(x, y) || Less(y, x)
    ensures Less(x, y) ==> !Less(y, x)
  {
    if x != y {
      var d := (x - y) + (y - x);
      var q :| (q in x) != (q in y);
      assert q in d;
      var s := Highest(d);
      forall u | (u in x) != (u in y) ensures Index(u) <= Index(s) { assert u in d; }
      assert TopDifference(x, y, s) && TopDifference(y, x, s);
    }
    if Less(x, y) && Less(y, x) {
      var s :| TopDifference(x, y, s) && s in y;
      var r :| TopDifference(y, x, r) && r in x;
      TopUnique(x, y, s, r);
    }
  }

  /** -1, 0 or 1, as the comparison of two numbers. */
  ghost function Compare(x: set<Square>, y: set<Square>): int {
    if x == y then 0 else if Less(x, y) then -1 else 1
  }

  /** The first bitboard that decides. */
  ghost function FirstOutcome(x: seq<set<Square>>, y: seq<set<Square>>): int
    requires |x| == |y|
  {
    if x == [] then 0 else if Compare(x[0], y[0]) != 0 then Compare(x[0], y[0]) else FirstOutcome(x[1..], y[1..])
  }

  lemma {:induction false} OutcomeReverses(x: seq<set<Square>>, y: seq<set<Square>>)
    requires |x| == |y| && forall i :: 0 <= i < |x| ==> OnBoards(x[i]) && OnBoards(y[i])
    ensures FirstOutcome(y, x) == -FirstOutcome(x, y)
    ensures FirstOutcome(x, y) == 0 ==> x == y
  {
    if x != [] {
      Trichotomy(x[0], y[0]);
      OutcomeReverses(x[1..], y[1..]);
      if FirstOutcome(x, y) == 0 { assert x == [x[0]] + x[1..] && y == [y[0]] + y[1..]; }
    }
  }

  // ---- the choice ----

  /** The bitboards that decide between a position and its transposition, in the order they are consulted. */
  function Keys(b: Board): seq<set<Square>> {
    [b.ours + b.theirs, b.ours, Kings(b), b.rooks * b.bishops, b.rooks - b.bishops, Knights(b), b.bishops - b.rooks]
  }

  predicate NoCastling(c: Castlings) {
    !c.weCan00 && !c.weCan000 && !c.theyCan00 && !c.theyCan000
  }

  /** `CompareTransposing` over the bitboards in turn, on the position already flipped and mirrored. */
  ghost function TransposeOutcome(b: Board): int {
    FirstOutcome(Keys(b), Keys(MoveBoard(TRANSPOSE, b)))
  }

  /** `ChooseTransform`. */
  ghost function ChooseTransform(b: Board): Transform {
    var flip := b.ourKing.file < 4;
    var king1 := if flip then FlipFile(b.ourKing) else b.ourKing;
    var mirror := king1.rank >= 4;
    var king2 := if mirror then MirrorRank(king1) else king1;
    if !NoCastling(b.castlings) then NO_TRANSFORM
    else if RealPawns(b) != {} then Transform(flip, false, false)
    else if king2.file + king2.rank > 7 then Transform(flip, mirror, true)
    else if king2.file + king2.rank == 7 then
      Transform(flip, mirror, TransposeOutcome(MoveBoard(Transform(flip, mirror, false), b)) == 1)
    else Transform(flip, mirror, false)
  }

  /** The comparison of two bitboards as numbers, from the highest bit down. */
  method CompareNumbers(x: set<Square>, y: set<Square>) returns (r: int)
    requires OnBoards(x) && OnBoards(y)
    ensures r == Compare(x, y)
  {
    var i := 63;
    while i >= 0
      invariant -1 <= i <= 63
      invariant forall s {:trigger s in x} {:trigger s in y} :: (s in x) != (s in y) ==> Index(s) <= i
    {
      var s := Sq(i % 8, i / 8);
      assert forall u {:trigger u in x} {:trigger u in y} :: (u in x || u in y) && Index(u) == i ==> u == s;
      if s in x && s !in y {
        assert TopDifference(y, x, s);
        Trichotomy(x, y);
        return 1;
      }
      if s in y && s !in x {
        assert TopDifference(x, y, s);
        return -1;
      }
      i := i - 1;
    }
    assert x == y;
    return 0;
  }

  /** `CompareTransposing`: `x` flipped and mirrored against its transposition. */
  method CompareTransposing(x: set<Square>, flip: bool, mirror: bool) returns (r: int)
    requires OnBoards(x)
    ensures r == Compare(Moved(Transform(flip, mirror, false), x),
      Moved(TRANSPOSE, Moved(Transform(flip, mirror, false), x)))
  {
    var value := Moved(Transform(flip, mirror, false), x);
    MovedOnBoard(Transform(flip, mirror, false), x);
    MovedOnBoard(TRANSPOSE, value);
    r := CompareNumbers(value, Moved(TRANSPOSE, value));
  }

  lemma MovedOnBoard(t: Transform, x: set<Square>)
    requires OnBoards(x)
    ensures OnBoards(Moved(t, x))
  {
    forall s | s in Moved(t, x) ensures s.OnBoard() {
      InverseSquare(t, MoveSquare(Inverse(t), s));
      InverseSquare(t, s);
    }
  }

  ghost function CanonicalForm(b: Board): Board {
    MoveBoard(ChooseTransform(b), b)
  }

  // ---- the representative is unique ----

  /** The king in the triangle h1, e1, e4 of which the diagonal belongs to the smaller of two transposed positions. */
  ghost predicate InRegion(b: Board) {
    && 4 <= b.ourKing.file <= 7 && 0 <= b.ourKing.rank <= 3 && b.ourKing.file + b.ourKing.rank <= 7
    && (b.ourKing.file + b.ourKing.rank == 7 ==> TransposeOutcome(b) <= 0)
  }

  predicate Symmetric(b: Board) {
    PiecesDisjoint(b) && KingsPlaced(b) && NoCastling(b.castlings)
  }

  lemma MovedSymmetric(t: Transform, b: Board)
    requires Symmetric(b) && b.pawns == {}
    ensures Symmetric(MoveBoard(t, b)) && MoveBoard(t, b).pawns == {}
  {
    var x := MoveBoard(t, b);
    InverseSquare(t, b.ourKing);
    InverseSquare(t, b.theirKing);
    forall s | s in Occupied(x) ensures s.OnBoard() {
      InverseSquare(Inverse(t), s);
      InverseSquare(t, MoveSquare(Inverse(t), s));
    }
  }

  lemma KeysOnBoard(b: Board)
    requires Symmetric(b)
    ensures forall i :: 0 <= i < 7 ==> OnBoards(Keys(b)[i])
  {
  }

  /** The keys determine a pawnless position. */
  lemma KeysDetermine(x: Board, y: Board)
    requires Symmetric(x) && Symmetric(y) && x.pawns == y.pawns == {} && Keys(x) == Keys(y)
    requires x.castlings == y.castlings && x.flipped == y.flipped
    ensures x == y
  {
    assert Keys(x)[0] == Keys(y)[0] && Keys(x)[1] == Keys(y)[1] && Keys(x)[2] == Keys(y)[2];
    assert Keys(x)[3] == Keys(y)[3] && Keys(x)[4] == Keys(y)[4] && Keys(x)[6] == Keys(y)[6];
    assert x.theirs == (x.ours + x.theirs) - x.ours && y.theirs == (y.ours + y.theirs) - y.ours;
    assert x.rooks == (x.rooks - x.bishops) + x.rooks * x.bishops &&
      y.rooks == (y.rooks - y.bishops) + y.rooks * y.bishops;
    assert x.bishops == (x.bishops - x.rooks) + x.rooks * x.bishops &&
      y.bishops == (y.bishops - y.rooks) + y.rooks * y.bishops;
    assert x.ourKing in {y.ourKing, y.theirKing} && x.theirKing in {y.ourKing, y.theirKing};
  }

  lemma TransposeTwice(b: Board)
    ensures MoveBoard(TRANSPOSE, MoveBoard(TRANSPOSE, b)) == b
  {
    BoardsCompose(TRANSPOSE, TRANSPOSE, b);
  }

  /** Transposing reverses the outcome, and only a position equal to its transposition has outcome 0. */
  lemma OutcomeTransposes(b: Board)
    requires Symmetric(b) && b.pawns == {}
    ensures TransposeOutcome(MoveBoard(TRANSPOSE, b)) == -TransposeOutcome(b)
    ensures TransposeOutcome(b) == 0 ==> MoveBoard(TRANSPOSE, b) == b
  {
    var c := MoveBoard(TRANSPOSE, b);
    MovedSymmetric(TRANSPOSE, b);
    TransposeTwice(b);
    KeysOnBoard(b);
    KeysOnBoard(c);
    OutcomeReverses(Keys(b), Keys(c));
    if TransposeOutcome(b) == 0 { KeysDetermine(b, c); }
  }

  /** Flipping and mirroring bring the king to the quadrant e1 to h4. */
  lemma KingInQuadrant(b: Board)
    requires b.ourKing.OnBoard() && NoCastling(b.castlings) && RealPawns(b) == {}
    ensures var t := ChooseTransform(b); var king := MoveSquare(Transform(t.flip, t.mirror, false), b.ourKing);
      && 4 <= king.file <= 7 && 0 <= king.rank <= 3
      && (king.file + king.rank > 7 ==> t.transpose) && (king.file + king.rank < 7 ==> !t.transpose)
      && (king.file + king.rank == 7 ==>
        (t.transpose <==> TransposeOutcome(MoveBoard(Transform(t.flip, t.mirror, false), b)) == 1))
  {
  }

  /** While a castling right is held nothing is turned, and with pawns on the board only files are exchanged. In both
      cases without rights the king ends on files e to h. */
  lemma WhatIsTurned(b: Board)
    requires b.ourKing.OnBoard()
    ensures var t := ChooseTransform(b);
      && (!NoCastling(b.castlings) ==> t == NO_TRANSFORM)
      && (NoCastling(b.castlings) && RealPawns(b) != {} ==> t == NO_TRANSFORM || t == FLIP)
      && (NoCastling(b.castlings) ==> 4 <= MoveSquare(Transform(t.flip, t.mirror, false), b.ourKing).file <= 7)
  {
  }

  lemma QuadrantToRegion(x: Board, transpose: bool)
    requires Symmetric(x) && x.pawns == {} && 4 <= x.ourKing.file <= 7 && 0 <= x.ourKing.rank <= 3
    requires x.ourKing.file + x.ourKing.rank > 7 ==> transpose
    requires x.ourKing.file + x.ourKing.rank < 7 ==> !transpose
    requires x.ourKing.file + x.ourKing.rank == 7 ==> (transpose <==> TransposeOutcome(x) == 1)
    ensures InRegion(if transpose then MoveBoard(TRANSPOSE, x) else x)
  {
    OutcomeTransposes(x);
    OutcomeRange(Keys(x), Keys(MoveBoard(TRANSPOSE, x)));
  }

  /** The chosen representative lies in the region. */
  lemma {:induction false} ChosenInRegion(b: Board)
    requires Symmetric(b) && b.pawns == {}
    ensures InRegion(CanonicalForm(b))
  {
    var t := ChooseTransform(b);
    var u := Transform(t.flip, t.mirror, false);
    MovedSymmetric(u, b);
    KingInQuadrant(b);
    QuadrantToRegion(MoveBoard(u, b), t.transpose);
    TransposeLast(t, b);
  }

  lemma TransposeLast(t: Transform, b: Board)
    ensures t.transpose ==> MoveBoard(t, b) == MoveBoard(TRANSPOSE, MoveBoard(Transform(t.flip, t.mirror, false), b))
    ensures !t.transpose ==> t == Transform(t.flip, t.mirror, false)
  {
    var u := Transform(t.flip, t.mirror, false);
    BoardsCompose(TRANSPOSE, u, b);
    assert t.transpose ==> Compose(TRANSPOSE, u) == t;
  }

  lemma {:induction false} OutcomeRange(x: seq<set<Square>>, y: seq<set<Square>>)
    requires |x| == |y|
    ensures -1 <= FirstOutcome(x, y) <= 1
  {
    if x != [] { OutcomeRange(x[1..], y[1..]); }
  }

  /** Two images of one position in the region are equal. */
  lemma {:induction false} RegionUnique(x: Board, g: Transform)
    requires Symmetric(x) && x.pawns == {} && InRegion(x) && InRegion(MoveBoard(g, x))
    ensures MoveBoard(g, x) == x
  {
    var y := MoveBoard(g, x);
    if g == NO_TRANSFORM {
      BoardsCompose(g, g, x);
    } else {
      assert g == TRANSPOSE;
      OutcomeTransposes(x);
    }
  }

  /** All eight images of a pawnless position without castling rights have the same canonical form, ties included. */
  lemma {:induction false} CanonicalPawnless(b: Board, g: Transform)
    requires Symmetric(b) && b.pawns == {}
    ensures CanonicalForm(MoveBoard(g, b)) == CanonicalForm(b)
  {
    var c := MoveBoard(g, b);
    MovedSymmetric(g, b);
    ChosenInRegion(b);
    ChosenInRegion(c);
    var s, t := ChooseTransform(b), ChooseTransform(c);
    var x := MoveBoard(s, b);
    MovedSymmetric(s, b);
    BoardsCompose(t, g, b);
    BoardsCompose(Compose(t, g), Inverse(s), x);
    BoardsCompose(s, s, b);
    RegionUnique(x, Compose(Compose(t, g), Inverse(s)));
  }

  // ---- positions with pawns ----

  lemma FlippedPawns(b: Board)
    ensures RealPawns(MoveBoard(FLIP, b)) == Moved(FLIP, RealPawns(b))
  {
  }

  /** With pawns on the board the left-right image has the same canonical form. */
  lemma {:induction false} CanonicalWithPawns(b: Board)
    requires b.ourKing.OnBoard() && NoCastling(b.castlings) && RealPawns(b) != {}
    ensures CanonicalForm(MoveBoard(FLIP, b)) == CanonicalForm(b)
  {
    var c := MoveBoard(FLIP, b);
    FlippedPawns(b);
    var s :| s in RealPawns(b);
    InverseSquare(FLIP, s);
    assert FlipFile(s) in RealPawns(c);
    BoardsCompose(FLIP, FLIP, b);
    BoardsCompose(NO_TRANSFORM, FLIP, b);
  }

  // ---- the planes ----

  function MoveSide(t: Transform, p: Side): Side {
    Side(Moved(t, p.pawns), Moved(t, p.knights), Moved(t, p.bishops), Moved(t, p.rooks), Moved(t, p.queens),
      Moved(t, p.king))
  }

  function MovePlanes(t: Transform, p: Planes): Planes {
    Planes(MoveSide(t, p.ours), MoveSide(t, p.theirs))
  }

  lemma MovedDistributes(t: Transform, x: set<Square>, y: set<Square>)
    ensures Moved(t, x * y) == Moved(t, x) * Moved(t, y) && Moved(t, x + y) == Moved(t, x) + Moved(t, y)
    ensures Moved(t, x - y) == Moved(t, x) - Moved(t, y)
  {
  }

  lemma MovedKings(t: Transform, x: Square, y: Square)
    ensures Moved(t, {x, y}) == {MoveSquare(t, x), MoveSquare(t, y)}
  {
    forall s: Square ensures s in Moved(t, {x, y}) <==> s in {MoveSquare(t, x), MoveSquare(t, y)} {
      InverseSquare(t, x);
      InverseSquare(t, y);
      InverseSquare(t, s);
    }
  }

  lemma PawnsMove(t: Transform, b: Board)
    requires b.pawns == {} || t == FLIP || t == NO_TRANSFORM
    ensures RealPawns(MoveBoard(t, b)) == Moved(t, RealPawns(b))
  {
  }

  lemma KnightsMove(t: Transform, b: Board)
    requires RealPawns(MoveBoard(t, b)) == Moved(t, RealPawns(b))
    ensures Knights(MoveBoard(t, b)) == Moved(t, Knights(b))
  {
    var kings, men := Kings(b), Occupied(b);
    MovedKings(t, b.ourKing, b.theirKing);
    MovedDistributes(t, b.ours, b.theirs);
    MovedDistributes(t, men, RealPawns(b));
    MovedDistributes(t, men - RealPawns(b), kings);
    MovedDistributes(t, men - RealPawns(b) - kings, b.rooks);
    MovedDistributes(t, men - RealPawns(b) - kings - b.rooks, b.bishops);
  }

  lemma TypesMove(t: Transform, b: Board)
    requires b.pawns == {} || t == FLIP || t == NO_TRANSFORM
    ensures var x := MoveBoard(t, b);
      && RealPawns(x) == Moved(t, RealPawns(b)) && Knights(x) == Moved(t, Knights(b)) && Kings(x) == Moved(t, Kings(b))
      && x.bishops - x.rooks == Moved(t, b.bishops - b.rooks) && x.rooks - x.bishops == Moved(t, b.rooks - b.bishops)
      && x.rooks * x.bishops == Moved(t, b.rooks * b.bishops)
  {
    PawnsMove(t, b);
    KnightsMove(t, b);
    MovedDistributes(t, b.bishops, b.rooks);
    MovedDistributes(t, b.rooks, b.bishops);
    MovedKings(t, b.ourKing, b.theirKing);
  }

  lemma SideMoves(t: Transform, b: Board, men: set<Square>)
    requires b.pawns == {} || t == FLIP || t == NO_TRANSFORM
    ensures SideOf(MoveBoard(t, b), Moved(t, men)) == MoveSide(t, SideOf(b, men))
  {
    TypesMove(t, b);
    MovedDistributes(t, men, RealPawns(b));
    MovedDistributes(t, men, Knights(b));
    MovedDistributes(t, men, b.bishops - b.rooks);
    MovedDistributes(t, men, b.rooks - b.bishops);
    MovedDistributes(t, men, b.rooks * b.bishops);
    MovedDistributes(t, men, Kings(b));
  }

  /** Moving the planes is moving the position, as long as no pawn is mirrored or transposed. */
  lemma PlanesMove(t: Transform, b: Board)
    requires b.pawns == {} || t == FLIP || t == NO_TRANSFORM
    ensures PlanesOf(MoveBoard(t, b)) == MovePlanes(t, PlanesOf(b))
  {
    SideMoves(t, b, b.ours);
    SideMoves(t, b, b.theirs);
  }

  /** Every symmetric image of a position is encoded by the same planes: the left-right image if pawns remain, all eight
      images if none do. */
  lemma {:induction false} SamePlanes(b: Board, g: Transform)
    requires WellFormed(b) && NoCastling(b.castlings) && (RealPawns(b) == {} || g == FLIP || g == NO_TRANSFORM)
    ensures EncodedPlanes(MoveBoard(g, b)) == EncodedPlanes(b)
  {
    if RealPawns(b) == {} {
      FlagMeansPawn(b);
      assert b.pawns == {};
      CanonicalPawnless(b, g);
      MovedSymmetric(g, b);
      EncodedIsCanonical(b);
      EncodedIsCanonical(MoveBoard(g, b));
    } else if g == FLIP {
      CanonicalWithPawns(b);
      FlippedHasPawns(b);
      EncodedIsCanonical(b);
      EncodedIsCanonical(MoveBoard(g, b));
    } else {
      BoardsCompose(g, g, b);
    }
  }

  lemma FlippedHasPawns(b: Board)
    requires RealPawns(b) != {}
    ensures RealPawns(MoveBoard(FLIP, b)) != {}
  {
    FlippedPawns(b);
    var s :| s in RealPawns(b);
    InverseSquare(FLIP, s);
    assert FlipFile(s) in Moved(FLIP, RealPawns(b));
  }

  /** What the encoder writes: the planes of the position, then rewritten by the chosen transform. */
  ghost function EncodedPlanes(b: Board): Planes {
    MovePlanes(ChooseTransform(b), PlanesOf(b))
  }

  lemma EncodedIsCanonical(b: Board)
    requires NoCastling(b.castlings) && (b.pawns == {} || RealPawns(b) != {})
    ensures EncodedPlanes(b) == PlanesOf(CanonicalForm(b))
  {
    PlanesMove(ChooseTransform(b), b);
  }

  /** A flag stands for a pawn. */
  lemma FlagMeansPawn(b: Board)
    requires WellFormed(b)
    ensures forall s :: s in b.pawns ==> RealPawns(b) != {}
  {
    forall s | s in b.pawns ensures RealPawns(b) != {} {
      assert InPawnMask(s) ==> s in RealPawns(b);
      assert !InPawnMask(s) ==> FlagBacked(b, s) && Sq(s.file, 4) in RealPawns(b);
    }
  }

  // ---- the choice as the encoder computes it ----

  lemma KeysMove(t: Transform, b: Board)
    requires b.pawns == {}
    ensures forall i :: 0 <= i < 7 ==> Keys(MoveBoard(t, b))[i] == Moved(t, Keys(b)[i])
  {
    TypesMove(t, b);
    MovedDistributes(t, b.ours, b.theirs);
  }

  lemma OutcomeStep(x: seq<set<Square>>, y: seq<set<Square>>, i: nat)
    requires |x| == |y| && i < |x|
    ensures FirstOutcome(x[i..], y[i..]) == if Compare(x[i], y[i]) != 0 then Compare(x[i], y[i])
      else FirstOutcome(x[i + 1..], y[i + 1..])
  {
    assert x[i..][0] == x[i] && x[i..][1..] == x[i + 1..];
    assert y[i..][0] == y[i] && y[i..][1..] == y[i + 1..];
  }

  /** The chain of comparisons: the first bitboard that is not symmetric decides. */
  method DecideTranspose(b: Board, flip: bool, mirror: bool) returns (transpose: bool)
    requires Symmetric(b) && b.pawns == {}
    ensures transpose <==> TransposeOutcome(MoveBoard(Transform(flip, mirror, false), b)) == 1
  {
    var keys := Keys(b);
    KeysOnBoard(b);
    ghost var x := MoveBoard(Transform(flip, mirror, false), b);
    ghost var c, d := Keys(x), Keys(MoveBoard(TRANSPOSE, x));
    KeysMove(Transform(flip, mirror, false), b);
    KeysMove(TRANSPOSE, x);
    var i := 0;
    while i < 7
      invariant 0 <= i <= 7 && FirstOutcome(c[i..], d[i..]) == FirstOutcome(c, d)
    {
      var outcome := CompareTransposing(keys[i], flip, mirror);
      OutcomeStep(c, d, i);
      if outcome == -1 { return false; }
      if outcome == 1 { return true; }
      i := i + 1;
    }
    return false;
  }

  /** `ChooseTransform`, flag by flag. */
  method Choose(b: Board) returns (t: Transform)
    requires WellFormed(b)
    ensures t == ChooseTransform(b)
  {
    t := NO_TRANSFORM;
    if !NoCastling(b.castlings) { return; }
    var king := b.ourKing;
    if king.file < 4 {
      t := t.(flip := true);
      king := FlipFile(king);
    }
    if RealPawns(b) != {} { return; }
    if king.rank >= 4 {
      t := t.(mirror := true);
      king := MirrorRank(king);
    }
    if king.file + king.rank > 7 {
      t := t.(transpose := true);
    } else if king.file + king.rank == 7 {
      FlagMeansPawn(b);
      var transpose := DecideTranspose(b, t.flip, t.mirror);
      t := t.(transpose := transpose);
    }
  }
}
