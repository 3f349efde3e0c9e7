// The twelve piece planes of a position, as the encoder fills them.

module PiecePlanes {
  import opened Squares
  import opened Board

  /** Six planes of one side. */
  datatype Side = Side(pawns: set<Square>, knights: set<Square>, bishops: set<Square>, rooks: set<Square>,
    queens: set<Square>, king: set<Square>)

  /** Planes 0 to 11 of a position, seen by its side to move. */
  datatype Planes = Planes(ours: Side, theirs: Side)

  function Kings(b: Board): set<Square> {
    {b.ourKing, b.theirKing}
  }

  function Knights(b: Board): set<Square> {
    Occupied(b) - RealPawns(b) - Kings(b) - b.rooks - b.bishops
  }

  /** The plane fill of `EncodePositionForNN` for one side. */
  function SideOf(b: Board, side: set<Square>): Side {
    Side(side * RealPawns(b), side * Knights(b), side * (b.bishops - b.rooks), side * (b.rooks - b.bishops),
      side * (b.rooks * b.bishops), side * Kings(b))
  }

  function PlanesOf(b: Board): Planes {
    Planes(SideOf(b, b.ours), SideOf(b, b.theirs))
  }

  /** Each plane shows the squares on which its kind of piece stands. */
  lemma PlanesMean(b: Board, s: Square)
    requires PiecesDisjoint(b) && KingsPlaced(b)
    ensures var x, p := PlanesOf(b).ours, PieceAt(b, s);
      && (s in x.pawns <==> p == Some(Placed(true, PawnP))) && (s in x.knights <==> p == Some(Placed(true, KnightP)))
      && (s in x.bishops <==> p == Some(Placed(true, BishopP))) && (s in x.rooks <==> p == Some(Placed(true, RookP)))
      && (s in x.queens <==> p == Some(Placed(true, QueenP))) && (s in x.king <==> p == Some(Placed(true, KingP)))
    ensures var x, p := PlanesOf(b).theirs, PieceAt(b, s);
      && (s in x.pawns <==> p == Some(Placed(false, PawnP))) && (s in x.knights <==> p == Some(Placed(false, KnightP)))
      && (s in x.bishops <==> p == Some(Placed(false, BishopP))) && (s in x.rooks <==> p == Some(Placed(false, RookP)))
      && (s in x.queens <==> p == Some(Placed(false, QueenP))) && (s in x.king <==> p == Some(Placed(false, KingP)))
  {
  }
}
