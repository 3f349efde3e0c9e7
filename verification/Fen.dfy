// Forsyth-Edwards Notation (section 16.1 of the PGN specification): writing a position and reading it back.

module Fen {
  import opened Squares
  import opened Board
  import opened Notation

  // ---- pieces ----

  function PieceLetter(p: PieceType): char {
    match p
    case PawnP => 'P'
    case KingP => 'K'
    case BishopP => 'B'
    case QueenP => 'Q'
    case RookP => 'R'
    case KnightP => 'N'
  }

  /** Capitals are for White, whose side is "ours" once the board is turned. */
  function PieceChar(p: Placed): char {
    if p.ours then PieceLetter(p.piece) else Lower(PieceLetter(p.piece))
  }

  function ParsePiece(c: char): Option<PieceType> {
    match Lower(c)
    case 'n' => Some(KnightP)
    case 'q' => Some(QueenP)
    case 'r' => Some(RookP)
    case 'b' => Some(BishopP)
    case 'p' => Some(PawnP)
    case 'k' => Some(KingP)
    case _ => None
  }

  predicate IsLower(c: char) {
    'a' <= c <= 'z'
  }

  predicate IsUpper(c: char) {
    'A' <= c <= 'Z'
  }

  /** `PutPiece`. */
  function PutPiece(b: Board, s: Square, p: PieceType, theirs: bool): Board {
    b.(ours := if theirs then b.ours else b.ours + {s}, theirs := if theirs then b.theirs + {s} else b.theirs,
       ourKing := if p.KingP? && !theirs then s else b.ourKing,
       theirKing := if p.KingP? && theirs then s else b.theirKing,
       pawns := if p.PawnP? then b.pawns + {s} else b.pawns,
       rooks := if p.RookP? || p.QueenP? then b.rooks + {s} else b.rooks,
       bishops := if p.BishopP? || p.QueenP? then b.bishops + {s} else b.bishops)
  }

  // ---- the piece placement ----

  const DEFAULT_CASTLINGS := Castlings(0, 0, 7, 7, false, false, false, false)

  const EMPTY_BOARD := Board({}, {}, {}, {}, {}, Sq(0, 0), Sq(0, 0), DEFAULT_CASTLINGS, false)

  datatype FenError =
    | TooManyRanks | TooManyFiles | InvalidPiece | PieceOutOfBoard | PawnOnBackRank | InvalidSide | SpaceExpected
    | MissingRook | InvalidCastling | EnPassantExpected | BadEnPassantSquare | BadEnPassantRank | EnPassantOccupied
    | NoPawnToCapture | BadNumber | ExtraCharacters

  datatype Placing = Placing(board: Board, rank: int, file: int) | Failed(error: FenError)

  /** One character of the placement. */
  function Place(s: Placing, c: char): Placing {
    if s.Failed? then s
    else if c == '/' then if s.rank == 0 then Failed(TooManyRanks) else s.(rank := s.rank - 1, file := 0)
    else if '1' <= c <= '8' then
      var file := s.file + (c as int - '0' as int);
      if file > 8 then Failed(TooManyFiles) else s.(file := file)
    else
      var p := ParsePiece(c);
      if p.None? then Failed(InvalidPiece)
      else if s.file > 7 then Failed(PieceOutOfBoard)
      else if p.value.PawnP? && (s.rank == 0 || s.rank == 7) then Failed(PawnOnBackRank)
      else Placing(PutPiece(s.board, Sq(s.file, s.rank), p.value, IsLower(c)), s.rank, s.file + 1)
  }

  function PlaceAll(s: Placing, text: string): Placing
    decreases |text|
  {
    if text == [] then s else PlaceAll(Place(s, text[0]), text[1..])
  }

  lemma {:induction false} PlaceAllAppend(s: Placing, a: string, b: string)
    ensures PlaceAll(s, a + b) == PlaceAll(PlaceAll(s, a), b)
    decreases |a|
  {
    if a == [] {
      assert a + b == b;
    } else {
      assert (a + b)[1..] == a[1..] + b;
      PlaceAllAppend(Place(s, a[0]), a[1..], b);
    }
  }

  function Digit(n: int): char
    requires 0 <= n <= 9
  {
    ('0' as int + n) as char
  }

  function Pending(empty: nat): string
    requires empty <= 8
  {
    if empty == 0 then [] else [Digit(empty)]
  }

  /** One rank from `file` on, with `empty` free squares not yet written. */
  function RankText(b: Board, rank: int, file: nat, empty: nat): string
    requires empty <= file <= 8
    decreases 8 - file
  {
    if file == 8 then Pending(empty)
    else if PieceAt(b, Sq(file, rank)).Some? then
      Pending(empty) + [PieceChar(PieceAt(b, Sq(file, rank)).value)] + RankText(b, rank, file + 1, 0)
    else RankText(b, rank, file + 1, empty + 1)
  }

  /** The ranks from `rank` down to the first. */
  function RanksText(b: Board, rank: nat): string
    requires rank < 8
  {
    RankText(b, rank, 0, 0) + if rank == 0 then [] else ['/'] + RanksText(b, rank - 1)
  }

  // ---- reading the placement back ----

  /** Squares written before file `file` of rank `rank`. */
  predicate Before(s: Square, rank: int, file: int) {
    s.rank > rank || (s.rank == rank && s.file < file)
  }

  function Part(x: set<Square>, rank: int, file: int): set<Square> {
    set s | s in x && Before(s, rank, file)
  }

  /** The board as far as it has been read. */
  function Seen(w: Board, rank: int, file: int): Board {
    Board(Part(w.ours, rank, file), Part(w.theirs, rank, file), Part(w.rooks, rank, file), Part(w.bishops, rank, file),
      Part(RealPawns(w), rank, file),
      if Before(w.ourKing, rank, file) then w.ourKing else Sq(0, 0),
      if Before(w.theirKing, rank, file) then w.theirKing else Sq(0, 0), DEFAULT_CASTLINGS, false)
  }

  predicate Placeable(w: Board) {
    PiecesDisjoint(w) && KingsPlaced(w)
  }

  lemma PartNext(x: set<Square>, rank: int, file: int)
    ensures Part(x, rank, file + 1) == Part(x, rank, file) + (if Sq(file, rank) in x then {Sq(file, rank)} else {})
  {
    forall s: Square ensures Before(s, rank, file + 1) <==> Before(s, rank, file) || s == Sq(file, rank) { }
  }

  /** Reading a piece adds what stands on its square. */
  lemma PieceRead(w: Board, rank: int, file: int)
    requires Placeable(w) && 0 <= rank < 8 && 0 <= file < 8 && PieceAt(w, Sq(file, rank)).Some?
    ensures Place(Placing(Seen(w, rank, file), rank, file), PieceChar(PieceAt(w, Sq(file, rank)).value)) ==
      Placing(Seen(w, rank, file + 1), rank, file + 1)
  {
    PartNext(w.ours, rank, file);
    PartNext(w.theirs, rank, file);
    PartNext(w.rooks, rank, file);
    PartNext(w.bishops, rank, file);
    PartNext(RealPawns(w), rank, file);
  }

  lemma NothingRead(w: Board, rank: int, file: int)
    requires Placeable(w) && PieceAt(w, Sq(file, rank)).None?
    ensures Seen(w, rank, file + 1) == Seen(w, rank, file)
  {
    PartNext(w.ours, rank, file);
    PartNext(w.theirs, rank, file);
    PartNext(w.rooks, rank, file);
    PartNext(w.bishops, rank, file);
    PartNext(RealPawns(w), rank, file);
  }

  lemma PendingRead(b: Board, rank: int, file: nat, empty: nat)
    requires empty <= file <= 8
    ensures PlaceAll(Placing(b, rank, file - empty), Pending(empty)) == Placing(b, rank, file)
  {
    if empty > 0 {
      var c := Digit(empty);
      assert [c][1..] == [];
      assert PlaceAll(Placing(b, rank, file - empty), [c]) == PlaceAll(Place(Placing(b, rank, file - empty), c), []);
    }
  }

  lemma PlaceOne(s: Placing, c: char)
    ensures PlaceAll(s, [c]) == Place(s, c)
  {
    assert [c][1..] == [];
  }

  lemma {:induction false} RankRead(w: Board, rank: int, file: nat, empty: nat)
    requires Placeable(w) && 0 <= rank < 8 && empty <= file <= 8
    ensures PlaceAll(Placing(Seen(w, rank, file), rank, file - empty), RankText(w, rank, file, empty)) ==
      Placing(Seen(w, rank, 8), rank, 8)
    decreases 8 - file
  {
    var s := Placing(Seen(w, rank, file), rank, file - empty);
    if file == 8 {
      PendingRead(Seen(w, rank, file), rank, file, empty);
    } else if PieceAt(w, Sq(file, rank)).Some? {
      var c, rest := PieceChar(PieceAt(w, Sq(file, rank)).value), RankText(w, rank, file + 1, 0);
      PlaceAllAppend(s, Pending(empty) + [c], rest);
      PlaceAllAppend(s, Pending(empty), [c]);
      PendingRead(Seen(w, rank, file), rank, file, empty);
      PlaceOne(Placing(Seen(w, rank, file), rank, file), c);
      PieceRead(w, rank, file);
      RankRead(w, rank, file + 1, 0);
    } else {
      NothingRead(w, rank, file);
      RankRead(w, rank, file + 1, empty + 1);
    }
  }

  lemma NextRankSeen(w: Board, rank: int)
    requires Placeable(w)
    ensures Seen(w, rank, 8) == Seen(w, rank - 1, 0)
  {
    forall s: Square | s in Occupied(w) ensures Before(s, rank, 8) <==> Before(s, rank - 1, 0) { assert s.OnBoard(); }
    assert w.ourKing in Occupied(w) && w.theirKing in Occupied(w);
    SamePart(w, w.ours, rank);
    SamePart(w, w.theirs, rank);
    SamePart(w, w.rooks, rank);
    SamePart(w, w.bishops, rank);
    SamePart(w, RealPawns(w), rank);
  }

  lemma SamePart(w: Board, x: set<Square>, rank: int)
    requires Placeable(w) && x <= Occupied(w)
    ensures Part(x, rank, 8) == Part(x, rank - 1, 0)
  {
    forall s | s in x ensures Before(s, rank, 8) <==> Before(s, rank - 1, 0) { assert s.OnBoard(); }
  }

  lemma {:induction false} RanksRead(w: Board, rank: nat)
    requires Placeable(w) && rank < 8
    ensures PlaceAll(Placing(Seen(w, rank, 0), rank, 0), RanksText(w, rank)) == Placing(Seen(w, 0, 8), 0, 8)
  {
    var s, line := Placing(Seen(w, rank, 0), rank, 0), RankText(w, rank, 0, 0);
    RankRead(w, rank, 0, 0);
    if rank == 0 {
      assert line + [] == line;
    } else {
      var rest := RanksText(w, rank - 1);
      PlaceAllAppend(s, line, ['/'] + rest);
      PlaceAllAppend(Placing(Seen(w, rank, 8), rank, 8), ['/'], rest);
      PlaceOne(Placing(Seen(w, rank, 8), rank, 8), '/');
      NextRankSeen(w, rank);
      RanksRead(w, rank - 1);
    }
  }

  /** Reading the placement gives all pieces back. */
  lemma PlacementRead(w: Board)
    requires Placeable(w)
    ensures PlaceAll(Placing(EMPTY_BOARD, 7, 0), RanksText(w, 7)) ==
      Placing(w.(pawns := RealPawns(w), castlings := DEFAULT_CASTLINGS, flipped := false), 0, 8)
  {
    RanksRead(w, 7);
    NothingReadYet(w);
    AllRead(w);
  }

  lemma NothingReadYet(w: Board)
    requires Placeable(w)
    ensures Seen(w, 7, 0) == EMPTY_BOARD
  {
    forall s | s in Occupied(w) ensures !Before(s, 7, 0) { assert s.OnBoard(); }
    assert w.ourKing in Occupied(w) && w.theirKing in Occupied(w);
  }

  lemma AllRead(w: Board)
    requires Placeable(w)
    ensures Seen(w, 0, 8) == w.(pawns := RealPawns(w), castlings := DEFAULT_CASTLINGS, flipped := false)
  {
    forall s | s in Occupied(w) ensures Before(s, 0, 8) { assert s.OnBoard(); }
    assert w.ourKing in Occupied(w) && w.theirKing in Occupied(w);
  }
}
