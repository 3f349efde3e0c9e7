// What a move does beyond moving pieces (castling rights, the en passant flag), said without the functions that
// compute it, and legality by the Laws of Chess.

module MoveEffects {
  import opened Squares
  import opened Board
  import opened Invariants
  import opened Laws

  /** Article 3.8: we lose a right with the king's first move or that of its rook, they lose one when its rook is taken,
      and nothing else changes a right. */
  ghost predicate RightsFollow(b: Board, m: Move, now: Castlings) {
    var was := b.castlings;
    && (now.weCan00 <==> was.weCan00 && m.from != b.ourKing && m.from != Sq(was.ourKingsideRook, 0))
    && (now.weCan000 <==> was.weCan000 && m.from != b.ourKing && m.from != Sq(was.ourQueensideRook, 0))
    && (now.theyCan00 <==> was.theyCan00 && m.to != Sq(was.theirKingsideRook, 7))
    && (now.theyCan000 <==> was.theyCan000 && m.to != Sq(was.theirQueensideRook, 7))
    && now == was.(weCan00 := now.weCan00, weCan000 := now.weCan000,
                   theyCan00 := now.theyCan00, theyCan000 := now.theyCan000)
  }

  lemma RightsAfter(b: Board, m: Move)
    requires WellFormed(b) && Pseudolegal(b, m) && m.to != b.theirKing
    ensures RightsFollow(b, m, Play(b, m).castlings)
  {
    if m.kind.Castle? { CastleSquares(b, m); }
  }

  predicate TheirPawnOn(b: Board, s: Square) {
    PieceAt(b, s) == Some(Placed(false, PawnP))
  }

  /** The only flag after a move is that of a pawn which advanced two squares next to a pawn of theirs. */
  lemma FlagAfter(b: Board, m: Move, s: Square)
    requires WellFormed(b) && Pseudolegal(b, m) && m.to != b.theirKing && !InPawnMask(s)
    ensures s in Play(b, m).pawns <==>
      && s == Sq(m.from.file, 0) && PieceAt(b, m.from) == Some(Placed(true, PawnP)) && m.to.rank == m.from.rank + 2
      && (TheirPawnOn(b, Sq(m.to.file - 1, m.to.rank)) || TheirPawnOn(b, Sq(m.to.file + 1, m.to.rank)))
  {
    if m.kind.Castle? { CastleSquares(b, m); }
  }

  /** The opponent may then take that pawn by crossing the square it passed, and no other. */
  lemma CrossedAfter(b: Board, m: Move, s: Square)
    requires WellFormed(b) && Pseudolegal(b, m) && m.to != b.theirKing && s.OnBoard()
    ensures JustCrossed(After(b, m), s.Flip()) <==>
      && PieceAt(b, m.from) == Some(Placed(true, PawnP)) && m.to == Sq(m.from.file, m.from.rank + 2)
      && s == Sq(m.from.file, m.from.rank + 1)
      && (TheirPawnOn(b, Sq(m.to.file - 1, m.to.rank)) || TheirPawnOn(b, Sq(m.to.file + 1, m.to.rank)))
  {
    var flag := Sq(s.file, 0);
    assert flag == Sq(s.Flip().file, 7).Flip();
    FlagAfter(b, m, flag);
  }

  /** Turning the board exchanges the sides square by square, their rights, and nothing else. */
  lemma MirroredMeans(b: Board, s: Square)
    requires PiecesDisjoint(b) && KingsPlaced(b)
    ensures PieceAt(Mirrored(b), s.Flip()) ==
      match PieceAt(b, s) case None => None case Some(p) => Some(Placed(!p.ours, p.piece))
    ensures var was, now := b.castlings, Mirrored(b).castlings;
      && now.weCan00 == was.theyCan00 && now.weCan000 == was.theyCan000
      && now.theyCan00 == was.weCan00 && now.theyCan000 == was.weCan000
      && now.ourKingsideRook == was.theirKingsideRook && now.ourQueensideRook == was.theirQueensideRook
      && now.theirKingsideRook == was.ourKingsideRook && now.theirQueensideRook == was.ourQueensideRook
    ensures Mirrored(b).flipped == !b.flipped
  {
    FlipFlip(s);
    assert InPawnMask(s) <==> InPawnMask(s.Flip());
  }

  /** Article 3.9: a legal move is a move of Article 3 after which no piece of theirs attacks our king. */
  lemma LegalMeans(b: Board, m: Move)
    requires WellFormed(b) && m.to != b.theirKing
    ensures Legal(b, m) <==> Allowed(b, m) && !UnderAttack(Play(b, m), Play(b, m).ourKing)
  {
    PseudolegalMeans(b, m);
    if Pseudolegal(b, m) {
      PlayKeepsPieces(b, m);
      AttackedMeans(Play(b, m), Play(b, m).ourKing);
    }
  }

  lemma SoundLegalMeans(b: Board, m: Move)
    requires Sound(b)
    ensures Legal(b, m) <==> Allowed(b, m) && !UnderAttack(Play(b, m), Play(b, m).ourKing)
  {
    PseudolegalMeans(b, m);
    if Pseudolegal(b, m) {
      if m.to == b.theirKing { CaptureMeansCheck(b, m); }
      LegalMeans(b, m);
    }
  }
}
