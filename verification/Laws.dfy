// The Laws of Chess for piece movement, written out on a board of single squares with coordinates only, and the proof
// that the generator's rays, sets and tables describe exactly those moves and attacks.

module Laws {
  import opened Squares
  import opened Board

  function Apart(x: int, y: int): nat {
    if x < y then y - x else x - y
  }

  // ---- how the pieces reach squares ----

  predicate Within(x: int, y: int, z: int) {
    x <= y <= z || z <= y <= x
  }

  /** `q` lies between `a` and `c`, which share a rank, a file or a diagonal. */
  predicate Between(a: Square, q: Square, c: Square) {
    && q != a && q != c && Within(a.file, q.file, c.file) && Within(a.rank, q.rank, c.rank)
    && (a.file == c.file || a.rank == c.rank || Apart(a.file, q.file) == Apart(a.rank, q.rank))
  }

  /** Article 3.5: no piece stands in between. */
  ghost predicate NothingBetween(b: Board, a: Square, c: Square) {
    forall q {:trigger Between(a, q, c)} :: Between(a, q, c) ==> PieceAt(b, q).None?
  }

  /** Articles 3.2 to 3.4, 3.6 and 3.8: where a piece other than a pawn may go, whatever stands there. The knight goes
      to the nearest squares that are not on its rank, file or diagonals. */
  ghost predicate Reaches(b: Board, piece: PieceType, from: Square, to: Square) {
    var files, ranks := Apart(from.file, to.file), Apart(from.rank, to.rank);
    match piece
    case BishopP => files == ranks > 0 && NothingBetween(b, from, to)
    case RookP => (files == 0) != (ranks == 0) && NothingBetween(b, from, to)
    case QueenP => from != to && (files == ranks || files == 0 || ranks == 0) && NothingBetween(b, from, to)
    case KnightP => files <= 2 && ranks <= 2 && files != ranks && files != 0 && ranks != 0
    case KingP => from != to && files <= 1 && ranks <= 1
    case PawnP => false
  }

  /** Article 3.1: their piece on `c` attacks `s`; their pawns capture towards the first rank. */
  ghost predicate AttacksFrom(b: Board, c: Square, s: Square) {
    match PieceAt(b, c)
    case None => false
    case Some(p) =>
      && !p.ours
      && if p.piece.PawnP? then s.rank == c.rank - 1 && Apart(c.file, s.file) == 1 else Reaches(b, p.piece, c, s)
  }

  ghost predicate UnderAttack(b: Board, s: Square) {
    exists c :: AttacksFrom(b, c, s)
  }

  // ---- moves ----

  /** Article 3.7: one square ahead, two from the second rank, or a capture on an adjacent file. */
  predicate PawnGoes(b: Board, from: Square, to: Square) {
    || (to == Sq(from.file, from.rank + 1) && PieceAt(b, to).None?)
    || (from.rank == 1 && to == Sq(from.file, 3) && PieceAt(b, to).None? && PieceAt(b, Sq(from.file, 2)).None?)
    || (to.rank == from.rank + 1 && Apart(from.file, to.file) == 1 && PieceAt(b, to).Some? &&
      !PieceAt(b, to).value.ours)
  }

  /** A pawn of theirs has just crossed `s`: what a flag on the last rank records. */
  predicate JustCrossed(b: Board, s: Square) {
    s.rank == 5 && Sq(s.file, 7) in b.pawns
  }

  /** Article 3.8 with the king and the rook anywhere on the first rank: the right is held, nothing else stands where
      king or rook pass or land, and the king neither stands on an attacked square nor crosses one. */
  ghost predicate Castles(b: Board, king: int, rook: int, kingTo: int, rookTo: int) {
    && (forall f :: f != king && f != rook && (Within(king, f, kingTo) || Within(rook, f, rookTo)) ==>
          PieceAt(b, Sq(f, 0)).None?)
    && !UnderAttack(b, Sq(king, 0))
    && (forall f :: f != kingTo && Within(king, f, kingTo) ==> !UnderAttack(b, Sq(f, 0)))
  }

  ghost predicate CastlesTo(b: Board, m: Move) {
    var c := b.castlings;
    && m.from == b.ourKing && m.to.rank == 0
    && ((c.weCan00 && m.to.file == c.ourKingsideRook && Castles(b, m.from.file, m.to.file, 6, 5))
        || (c.weCan000 && m.to.file == c.ourQueensideRook && Castles(b, m.from.file, m.to.file, 2, 3)))
  }

  /** A move of the piece on `m.from` by Article 3, before the safety of our king after the move is judged; a king does
      not step to an attacked square. */
  ghost predicate Allowed(b: Board, m: Move) {
    && m.to.OnBoard() && PieceAt(b, m.from).Some? && PieceAt(b, m.from).value.ours
    && var piece, target := PieceAt(b, m.from).value.piece, PieceAt(b, m.to);
       match m.kind
       case Plain =>
         if piece.PawnP? then m.to.rank != 7 && PawnGoes(b, m.from, m.to)
         else
           && Reaches(b, piece, m.from, m.to) && (target.Some? ==> !target.value.ours)
           && (piece.KingP? ==> m.to != b.theirKing && !UnderAttack(b, m.to))
       case Promote(_) => piece.PawnP? && m.to.rank == 7 && PawnGoes(b, m.from, m.to)
       case EnPassant =>
         piece.PawnP? && m.to.rank == m.from.rank + 1 && Apart(m.from.file, m.to.file) == 1 && JustCrossed(b, m.to)
       case Castle => CastlesTo(b, m)
  }

  // ---- lines ----

  /** A square on a common rank, file or diagonal is a number of steps away, and between means fewer steps. */
  lemma LineIsSteps(a: Square, c: Square) returns (d: Direction, k: int)
    requires a != c && (a.file == c.file || a.rank == c.rank || Apart(a.file, c.file) == Apart(a.rank, c.rank))
    ensures k >= 1 && c == Step(a, d, k) && (Straight(d) <==> a.file == c.file || a.rank == c.rank)
  {
    k := Max(Apart(a.file, c.file), Apart(a.rank, c.rank));
    d := if a.file == c.file then (if a.rank < c.rank then N else S)
         else if a.rank == c.rank then (if a.file < c.file then E else W)
         else if a.file < c.file then (if a.rank < c.rank then NE else SE)
         else if a.rank < c.rank then NW else SW;
  }

  lemma StepsAreLine(a: Square, d: Direction, k: int)
    requires k >= 1
    ensures var c := Step(a, d, k);
      && a != c && (Straight(d) <==> (a.file == c.file) != (a.rank == c.rank))
      && (!Straight(d) <==> Apart(a.file, c.file) == Apart(a.rank, c.rank))
  {
  }

  lemma BetweenIsFewerSteps(a: Square, d: Direction, k: int, q: Square)
    requires k >= 1
    ensures Between(a, q, Step(a, d, k)) <==> exists j :: 1 <= j < k && q == Step(a, d, j)
  {
    if Between(a, q, Step(a, d, k)) {
      var j := Max(Apart(a.file, q.file), Apart(a.rank, q.rank));
      assert 1 <= j < k && q == Step(a, d, j);
    }
  }

  lemma BetweenTurned(a: Square, q: Square, c: Square)
    requires a.file == c.file || a.rank == c.rank || Apart(a.file, c.file) == Apart(a.rank, c.rank)
    ensures Between(a, q, c) <==> Between(c, q, a)
  {
  }

  lemma ClearIsNothingBetween(b: Board, a: Square, d: Direction, k: int)
    requires k >= 1
    ensures Clear(Occupied(b), a, d, k) <==> NothingBetween(b, a, Step(a, d, k))
    ensures NothingBetween(b, a, Step(a, d, k)) <==> NothingBetween(b, Step(a, d, k), a)
  {
    var c := Step(a, d, k);
    StepsAreLine(a, d, k);
    forall q ensures Between(a, q, c) <==> Between(c, q, a) { BetweenTurned(a, q, c); }
    forall q ensures Between(a, q, c) <==> exists j :: 1 <= j < k && q == Step(a, d, j) {
      BetweenIsFewerSteps(a, d, k, q);
    }
    if NothingBetween(b, a, c) {
      forall j | 1 <= j < k ensures Step(a, d, j) !in Occupied(b) { assert Between(a, Step(a, d, j), c); }
    }
  }

  // ---- the knight ----

  /** The jumps of the table are the nearest squares that share no rank, file or diagonal. */
  lemma KnightJumpMeans(a: Square, b: Square)
    ensures KnightJump(a, b) <==>
      a != b && -2 <= a.file - b.file <= 2 && -2 <= a.rank - b.rank <= 2 && forall d, k :: b != Step(a, d, k)
  {
    if a != b && (a.file == b.file || a.rank == b.rank || Apart(a.file, b.file) == Apart(a.rank, b.rank)) {
      var d, k := LineIsSteps(a, b);
    }
  }

  // ---- attacks ----

  lemma SliderIsReach(b: Board, s: Square, d: Direction, k: int)
    requires PiecesDisjoint(b) && KingsPlaced(b) && SliderChecks(b, s, d, k)
    ensures AttacksFrom(b, Step(s, d, k), s)
  {
    StepsAreLine(s, d, k);
    ClearIsNothingBetween(b, s, d, k);
  }

  lemma ReachIsCheck(b: Board, c: Square, s: Square)
    requires PiecesDisjoint(b) && KingsPlaced(b) && s.OnBoard() && AttacksFrom(b, c, s)
    ensures if c == b.theirKing then Near(c, s) else Checks(b, s, c)
  {
    var piece := PieceAt(b, c).value.piece;
    if piece.QueenP? || piece.RookP? || piece.BishopP? {
      var d, k := LineIsSteps(s, c);
      ClearIsNothingBetween(b, s, d, k);
      assert SliderChecks(b, s, d, k);
    }
  }

  lemma CheckIsReach(b: Board, c: Square, s: Square)
    requires PiecesDisjoint(b) && KingsPlaced(b) && s.OnBoard() && Checks(b, s, c)
    ensures AttacksFrom(b, c, s)
  {
    if d, k :| c == Step(s, d, k) && SliderChecks(b, s, d, k) { SliderIsReach(b, s, d, k); }
  }

  /** A square is attacked in the sense of the tables and rays exactly if some piece of theirs attacks it by the Laws.
      */
  lemma AttackedMeans(b: Board, s: Square)
    requires PiecesDisjoint(b) && KingsPlaced(b) && s.OnBoard() && s != b.theirKing
    ensures Attacked(b, s) <==> UnderAttack(b, s)
  {
    if c :| AttacksFrom(b, c, s) { ReachIsCheck(b, c, s); }
    if Near(b.theirKing, s) { assert AttacksFrom(b, b.theirKing, s); }
    if c :| Checks(b, s, c) { CheckIsReach(b, c, s); }
  }

  // ---- the generator ----

  lemma KingMoveMeans(b: Board, m: Move)
    requires WellFormed(b) && m.from == b.ourKing && m.kind.Plain?
    ensures KingMove(b, m) <==> Allowed(b, m)
  {
    if m.to.OnBoard() && m.to != b.theirKing { AttackedMeans(b, m.to); }
  }

  lemma WalkMeans(b: Board, from: int, to: int)
    requires WellFormed(b) && 0 <= from < 8 && 0 <= to < 8
    requires forall f :: (Within(from, f, to) && f != to) || f == from ==> Sq(f, 0) != b.theirKing
    ensures WalkAttacked(b, from, to) <==>
      UnderAttack(b, Sq(from, 0)) || exists f :: f != to && Within(from, f, to) && UnderAttack(b, Sq(f, 0))
  {
    forall f | (Within(from, f, to) && f != to) || f == from
      ensures Attacked(b, Sq(f, 0)) <==> UnderAttack(b, Sq(f, 0))
    {
      AttackedMeans(b, Sq(f, 0));
    }
  }

  lemma BackRankMeans(b: Board, king: int, rook: int, kingTo: int, rookTo: int)
    requires (kingTo == 6 && rookTo == 5 && king < rook) || (kingTo == 2 && rookTo == 3 && rook < king)
    ensures var lo, hi := if kingTo == 6 then Min(5, king) else Min(2, rook), if kingTo == 6 then Max(6, rook)
      else Max(3, king);
      BackRankFree(b, lo, hi, rook, king) <==>
      forall f :: f != king && f != rook && (Within(king, f, kingTo) || Within(rook, f, rookTo)) ==>
        PieceAt(b, Sq(f, 0)).None?
  {
  }

  lemma CastlesMeans(b: Board, king: int, rook: int, kingTo: int, rookTo: int)
    requires WellFormed(b) && b.ourKing == Sq(king, 0) && Sq(rook, 0) in b.ours
    requires (kingTo == 6 && rookTo == 5 && king < rook) || (kingTo == 2 && rookTo == 3 && rook < king)
    ensures var lo, hi := if kingTo == 6 then Min(5, king) else Min(2, rook), if kingTo == 6 then Max(6, rook)
      else Max(3, king);
      BackRankFree(b, lo, hi, rook, king) && !WalkAttacked(b, king, kingTo) <==> Castles(b, king, rook, kingTo, rookTo)
  {
    BackRankMeans(b, king, rook, kingTo, rookTo);
    var lo, hi := if kingTo == 6 then Min(5, king) else Min(2, rook), if kingTo == 6 then Max(6, rook)
      else Max(3, king);
    if BackRankFree(b, lo, hi, rook, king) {
      forall f | (Within(king, f, kingTo) && f != kingTo) || f == king ensures Sq(f, 0) != b.theirKing {
        assert f != king && f != rook ==> Sq(f, 0) !in Occupied(b);
      }
      WalkMeans(b, king, kingTo);
    }
  }

  lemma CastleMoveMeans(b: Board, m: Move)
    requires WellFormed(b) && m.kind.Castle?
    ensures CastleMove(b, m) <==> CastlesTo(b, m)
  {
    var c := b.castlings;
    if m.from == b.ourKing && m.to == Sq(c.ourKingsideRook, 0) && c.weCan00 {
      CastlesMeans(b, m.from.file, m.to.file, 6, 5);
    }
    if m.from == b.ourKing && m.to == Sq(c.ourQueensideRook, 0) && c.weCan000 {
      CastlesMeans(b, m.from.file, m.to.file, 2, 3);
    }
  }

  lemma LineMoveMeans(b: Board, from: Square, to: Square)
    requires PiecesDisjoint(b) && KingsPlaced(b) && from in b.ours && (from in b.rooks || from in b.bishops)
    ensures LineMove(b, from, to) <==> Reaches(b, PieceAt(b, from).value.piece, from, to)
  {
    if d, k :| k >= 1 && to == Step(from, d, k) && Slides(b, from, d) && Clear(Occupied(b), from, d, k) {
      StepsAreLine(from, d, k);
      ClearIsNothingBetween(b, from, d, k);
    }
    if Reaches(b, PieceAt(b, from).value.piece, from, to) {
      var d, k := LineIsSteps(from, to);
      ClearIsNothingBetween(b, from, d, k);
      assert k >= 1 && to == Step(from, d, k) && Slides(b, from, d) && Clear(Occupied(b), from, d, k);
    }
  }

  lemma PawnMoveMeans(b: Board, m: Move)
    requires WellFormed(b) && m.from in b.ours && m.from in RealPawns(b)
    ensures PawnMove(b, m) <==> Allowed(b, m)
  {
    if m.to.rank == 5 && Sq(m.to.file, 7) in b.pawns { assert FlagBacked(b, Sq(m.to.file, 7)); }
  }

  lemma OfficerMoveMeans(b: Board, m: Move)
    requires WellFormed(b) && m.from in b.ours && m.from != b.ourKing && m.from !in RealPawns(b)
    ensures Pseudolegal(b, m) <==> Allowed(b, m)
  {
    if m.from in b.rooks || m.from in b.bishops { LineMoveMeans(b, m.from, m.to); }
  }

  /** On every well-formed board the generator's moves are the moves of Article 3. */
  lemma PseudolegalMeans(b: Board, m: Move)
    requires WellFormed(b)
    ensures Pseudolegal(b, m) <==> Allowed(b, m)
  {
    if m.from !in b.ours {
    } else if m.from == b.ourKing {
      if m.kind.Plain? { KingMoveMeans(b, m); } else if m.kind.Castle? { CastleMoveMeans(b, m); }
    } else if m.from in RealPawns(b) {
      PawnMoveMeans(b, m);
    } else {
      OfficerMoveMeans(b, m);
    }
  }
}
