// The board as a value: piece sets, attacks, moves and the position after a move.
// The class in ChessBoard.dfy updates these sets in place and is proved against the functions here.

module Board {
  import opened Squares

  /** The fields of `ChessBoard`, always seen by the side to move ("we"). `rooks` and `bishops` both hold the
      queens; `pawns` holds the real pawns and, on the back ranks, the en passant flags. */
  datatype Board = Board(
    ours: set<Square>, theirs: set<Square>,
    rooks: set<Square>, bishops: set<Square>, pawns: set<Square>,
    ourKing: Square, theirKing: Square,
    castlings: Castlings, flipped: bool)

  datatype Castlings = Castlings(
    ourQueensideRook: int, theirQueensideRook: int, ourKingsideRook: int, theirKingsideRook: int,
    weCan00: bool, weCan000: bool, theyCan00: bool, theyCan000: bool)

  datatype Promotion = Knight | Queen | Rook | Bishop

  datatype MoveKind = Plain | Promote(piece: Promotion) | Castle | EnPassant

  /** Castling is "king takes own rook": `from` is the king square and `to` the rook square. */
  datatype Move = Move(from: Square, to: Square, kind: MoveKind) {
    /** `Move::Flip`. */
    function Flip(): Move {
      Move(from.Flip(), to.Flip(), kind)
    }
  }

  datatype PieceType = KnightP | QueenP | RookP | BishopP | PawnP | KingP

  datatype Placed = Placed(ours: bool, piece: PieceType)

  datatype Option<T> = None | Some(value: T)

  // ---- accessors ----

  function Occupied(b: Board): set<Square> {
    b.ours + b.theirs
  }

  predicate InPawnMask(s: Square) {
    1 <= s.rank <= 6
  }

  function Masked(pawns: set<Square>): (r: set<Square>)
    ensures forall s :: s in r <==> s in pawns && InPawnMask(s)
  {
    set s | s in pawns && InPawnMask(s)
  }

  function RealPawns(b: Board): set<Square> {
    Masked(b.pawns)
  }

  function FlipSet(x: set<Square>): (r: set<Square>)
    ensures forall s: Square :: s in r <==> s.Flip() in x
  {
    var r := set s | s in x :: s.Flip();
    assert forall s: Square :: s.Flip() in x ==> s == s.Flip().Flip();
    r
  }

  /** What stands on a square, as a mailbox board would record it. */
  function PieceAt(b: Board, s: Square): Option<Placed> {
    if s !in b.ours && s !in b.theirs then None else
    Some(Placed(s in b.ours,
      if s == b.ourKing || s == b.theirKing then KingP
      else if s in RealPawns(b) then PawnP
      else if s in b.rooks && s in b.bishops then QueenP
      else if s in b.rooks then RookP
      else if s in b.bishops then BishopP
      else KnightP))
  }

  // ---- well-formed boards ----

  predicate PiecesDisjoint(b: Board) {
    && b.ours !! b.theirs
    && b.rooks <= Occupied(b) && b.bishops <= Occupied(b) && RealPawns(b) <= Occupied(b)
    && RealPawns(b) !! b.rooks && RealPawns(b) !! b.bishops
    && (forall s :: s in Occupied(b) ==> s.OnBoard())
  }

  predicate KingsPlaced(b: Board) {
    && b.ourKing in b.ours && b.theirKing in b.theirs
    && b.ourKing !in b.rooks + b.bishops + RealPawns(b)
    && b.theirKing !in b.rooks + b.bishops + RealPawns(b)
  }

  /** A castling right is held only while king and rook stand at home. */
  predicate CastlingsBacked(b: Board) {
    var c := b.castlings;
    && (c.weCan00 ==> OurRookHome(b, c.ourKingsideRook) && b.ourKing.file < c.ourKingsideRook)
    && (c.weCan000 ==> OurRookHome(b, c.ourQueensideRook) && c.ourQueensideRook < b.ourKing.file)
    && (c.theyCan00 ==> TheirRookHome(b, c.theirKingsideRook) && b.theirKing.file < c.theirKingsideRook)
    && (c.theyCan000 ==> TheirRookHome(b, c.theirQueensideRook) && c.theirQueensideRook < b.theirKing.file)
  }

  predicate OurRookHome(b: Board, file: int) {
    var rook := Sq(file, 0);
    b.ourKing.rank == 0 && rook in b.ours && rook in b.rooks && rook !in b.bishops
  }

  predicate TheirRookHome(b: Board, file: int) {
    var rook := Sq(file, 7);
    b.theirKing.rank == 7 && rook in b.theirs && rook in b.rooks && rook !in b.bishops
  }

  /** An en passant flag on the far rank stands for a pawn that just passed an empty square. */
  predicate FlagBacked(b: Board, s: Square) {
    && s.rank == 7 && 0 <= s.file < 8
    && Sq(s.file, 4) in b.theirs && Sq(s.file, 4) in b.pawns
    && Sq(s.file, 5) !in Occupied(b)
  }

  predicate FlagsBacked(b: Board) {
    && (forall s :: s in b.pawns && !InPawnMask(s) ==> FlagBacked(b, s))
    && (forall s, t :: s in b.pawns && t in b.pawns && !InPawnMask(s) && !InPawnMask(t) ==> s == t)
  }

  predicate WellFormed(b: Board) {
    PiecesDisjoint(b) && KingsPlaced(b) && CastlingsBacked(b) && FlagsBacked(b)
  }

  // ---- attacks by "them" ----

  /** Nothing stands strictly between `s` and its `k`-th step. */
  ghost predicate Clear(occ: set<Square>, s: Square, d: Direction, k: int) {
    forall j :: 1 <= j < k ==> Step(s, d, j) !in occ
  }

  predicate Slides(b: Board, s: Square, d: Direction) {
    if Straight(d) then s in b.rooks else s in b.bishops
  }

  /** One of their line pieces looks along an open line at `s`, from `k` steps towards `d`. */
  ghost predicate SliderChecks(b: Board, s: Square, d: Direction, k: int) {
    && k >= 1 && Step(s, d, k) in b.theirs && Slides(b, Step(s, d, k), d)
    && Clear(Occupied(b), s, d, k)
  }

  /** `kPawnAttacks[s]` contains `c`; the table is empty for the last two ranks. */
  predicate PawnReach(s: Square, c: Square) {
    s.rank <= 5 && c.rank == s.rank + 1 && (c.file == s.file - 1 || c.file == s.file + 1)
  }

  predicate PawnChecks(b: Board, s: Square, c: Square) {
    c in b.theirs && c in b.pawns && PawnReach(s, c)
  }

  predicate KnightChecks(b: Board, s: Square, c: Square) {
    && c in b.theirs && c != b.theirKing && c !in b.rooks && c !in b.bishops && c !in RealPawns(b)
    && KnightJump(s, c)
  }

  /** Their piece on `c`, not the king, attacks `s`. */
  ghost predicate Checks(b: Board, s: Square, c: Square) {
    || (exists d, k :: c == Step(s, d, k) && SliderChecks(b, s, d, k))
    || PawnChecks(b, s, c)
    || KnightChecks(b, s, c)
  }

  /** Article 3.9: the square is attacked by some piece of the opponent. */
  ghost predicate Attacked(b: Board, s: Square) {
    Near(b.theirKing, s) || exists c :: Checks(b, s, c)
  }

  ghost predicate InCheck(b: Board) {
    Attacked(b, b.ourKing)
  }

  // ---- pseudolegal moves ----

  ghost predicate LineMove(b: Board, from: Square, to: Square) {
    exists d, k :: k >= 1 && to == Step(from, d, k) && Slides(b, from, d) && Clear(Occupied(b), from, d, k)
  }

  predicate PawnPush(b: Board, from: Square, to: Square) {
    && to.file == from.file && to !in Occupied(b)
    && (to.rank == from.rank + 1 || (from.rank == 1 && to.rank == 3 && Sq(from.file, 2) !in Occupied(b)))
  }

  predicate PawnCapture(from: Square, to: Square) {
    to.rank == from.rank + 1 && (to.file == from.file - 1 || to.file == from.file + 1)
  }

  predicate PawnMove(b: Board, m: Move) {
    && m.to.OnBoard()
    && match m.kind
       case EnPassant => PawnCapture(m.from, m.to) && m.to !in b.theirs && m.to.rank == 5 && Sq(m.to.file, 7) in b.pawns
       case Castle => false
       case Promote(_) => m.to.rank == 7 &&
         (PawnPush(b, m.from, m.to) || (PawnCapture(m.from, m.to) && m.to in b.theirs))
       case Plain => m.to.rank != 7 && (PawnPush(b, m.from, m.to) || (PawnCapture(m.from, m.to) && m.to in b.theirs))
  }

  /** Squares of the first rank between two files, both included. */
  predicate BackRankFree(b: Board, lo: int, hi: int, rook: int, king: int) {
    forall f :: lo <= f <= hi && f != rook && f != king ==> Sq(f, 0) !in Occupied(b)
  }

  /** The king does not leave or cross an attacked square; the square it lands on is judged later unless it stays. */
  ghost predicate WalkAttacked(b: Board, from: int, to: int) {
    if from == to then Attacked(b, Sq(from, 0))
    else exists f :: (from <= f < to || to < f <= from) && Attacked(b, Sq(f, 0))
  }

  function Min(x: int, y: int): int { if x < y then x else y }

  function Max(x: int, y: int): int { if x < y then y else x }

  ghost predicate CastleMove(b: Board, m: Move) {
    var c, king := b.castlings, m.from.file;
    && m.from == b.ourKing && m.to.rank == 0
    && ((c.weCan000 && m.to == Sq(c.ourQueensideRook, 0)
          && BackRankFree(b, Min(2, c.ourQueensideRook), Max(3, king), c.ourQueensideRook, king)
          && !WalkAttacked(b, king, 2))
        || (c.weCan00 && m.to == Sq(c.ourKingsideRook, 0)
          && BackRankFree(b, Min(5, king), Max(6, c.ourKingsideRook), c.ourKingsideRook, king)
          && !WalkAttacked(b, king, 6)))
  }

  ghost predicate KingMove(b: Board, m: Move) {
    && m.kind.Plain? && m.to.OnBoard() && Near(m.from, m.to) && m.from != m.to
    && m.to !in b.ours && !Attacked(b, m.to)
  }

  /** The moves `GeneratePseudolegalMoves` emits, case by case on what stands on the source square. */
  ghost predicate Pseudolegal(b: Board, m: Move) {
    && m.from in b.ours
    && if m.from == b.ourKing then KingMove(b, m) || (m.kind.Castle? && CastleMove(b, m))
       else if m.from in b.rooks || m.from in b.bishops then
         m.kind.Plain? && m.to.OnBoard() && m.to !in b.ours && LineMove(b, m.from, m.to)
       else if m.from in RealPawns(b) then PawnMove(b, m)
       else m.kind.Plain? && m.to.OnBoard() && m.to !in b.ours && KnightJump(m.from, m.to)
  }

  // ---- applying a move ----

  function NoOurCastling(c: Castlings): Castlings {
    c.(weCan00 := false, weCan000 := false)
  }

  /** Where the king and the rook land. */
  function KingTarget(m: Move): Square { Sq(if m.to.file > m.from.file then 6 else 2, 0) }

  function RookTarget(m: Move): Square { Sq(if m.to.file > m.from.file then 5 else 3, 0) }

  /** The square emptied of an enemy piece, if any. */
  function Captured(b: Board, m: Move): set<Square> {
    match m.kind
    case Castle => {}
    case EnPassant => {Sq(m.to.file, 4)}
    case _ => {m.to} * b.theirs
  }

  /** `kPawnAttacks[passed square] & their pawns` is not empty. */
  predicate MayBePassed(b: Board, m: Move) {
    && m.from in RealPawns(b) && m.to.rank == m.from.rank + 2
    && ((Sq(m.to.file - 1, m.to.rank) in b.theirs && Sq(m.to.file - 1, m.to.rank) in RealPawns(b))
        || (Sq(m.to.file + 1, m.to.rank) in b.theirs && Sq(m.to.file + 1, m.to.rank) in RealPawns(b)))
  }

  function CastlingsAfter(b: Board, m: Move): Castlings {
    var c := b.castlings;
    var c1 :=
      if m.to in b.theirs then
        c.(theyCan00 := c.theyCan00 && m.to != Sq(c.theirKingsideRook, 7),
           theyCan000 := c.theyCan000 && m.to != Sq(c.theirQueensideRook, 7))
      else c;
    if m.from == b.ourKing then NoOurCastling(c1)
    else if m.from.rank == 0 && m.from in b.rooks then
      c1.(weCan00 := c1.weCan00 && m.from.file != c.ourKingsideRook,
          weCan000 := c1.weCan000 && m.from.file != c.ourQueensideRook)
    else c1
  }

  /** A piece set after the mover goes from `from` to `to`: the mover keeps its kind unless it promotes. */
  function Carried(kind: set<Square>, gone: set<Square>, m: Move, becomes: bool): set<Square> {
    kind - gone + if becomes then {m.to} else {}
  }

  /** The board after the move, still seen by the mover. */
  function Play(b: Board, m: Move): Board {
    if m.kind.Castle? then
      b.(ours := b.ours - {m.from, m.to} + {KingTarget(m), RookTarget(m)},
         rooks := b.rooks - {m.to} + {RookTarget(m)},
         pawns := RealPawns(b),
         ourKing := KingTarget(m),
         castlings := NoOurCastling(b.castlings))
    else
      var gone := Captured(b, m) + {m.from};
      b.(ours := b.ours - {m.from} + {m.to},
         theirs := b.theirs - Captured(b, m),
         rooks := Carried(b.rooks, gone, m,
           if m.kind.Promote? then m.kind.piece.Rook? || m.kind.piece.Queen? else m.from in b.rooks),
         bishops := Carried(b.bishops, gone, m,
           if m.kind.Promote? then m.kind.piece.Bishop? || m.kind.piece.Queen? else m.from in b.bishops),
         pawns := Carried(RealPawns(b), gone, m, !m.kind.Promote? && m.from in RealPawns(b))
           + if MayBePassed(b, m) then {Sq(m.to.file, 0)} else {},
         ourKing := if m.from == b.ourKing then m.to else b.ourKing,
         castlings := CastlingsAfter(b, m))
  }

  /** The fifty-move counter restarts: a capture or a pawn move. */
  predicate Zeroing(b: Board, m: Move) {
    Captured(b, m) != {} || m.from in RealPawns(b)
  }

  function MirrorCastlings(c: Castlings): Castlings {
    Castlings(c.theirQueensideRook, c.ourQueensideRook, c.theirKingsideRook, c.ourKingsideRook,
      c.theyCan00, c.theyCan000, c.weCan00, c.weCan000)
  }

  /** `ChessBoard::Mirror`. */
  function Mirrored(b: Board): Board {
    Board(FlipSet(b.theirs), FlipSet(b.ours), FlipSet(b.rooks), FlipSet(b.bishops), FlipSet(b.pawns),
      b.theirKing.Flip(), b.ourKing.Flip(), MirrorCastlings(b.castlings), !b.flipped)
  }

  /** The next position of a game, seen by the opponent. */
  function After(b: Board, m: Move): Board {
    Mirrored(Play(b, m))
  }

  /** A legal move: pseudolegal, and our king is not attacked afterwards. */
  ghost predicate Legal(b: Board, m: Move) {
    Pseudolegal(b, m) && !InCheck(Play(b, m))
  }
}
