// Coordinate notation: how moves are written and read back.

module Notation {
  import opened Squares
  import opened Board

  // ---- characters ----

  function Lower(c: char): char {
    if 'A' <= c <= 'Z' then (c as int - 'A' as int + 'a' as int) as char else c
  }

  function FileChar(file: int): char
    requires 0 <= file < 8
  {
    ('a' as int + file) as char
  }

  function RankChar(rank: int): char
    requires 0 <= rank < 8
  {
    ('1' as int + rank) as char
  }

  /** `File::Parse` and `Rank::Parse`; the caller checks that the number is on the board. */
  function ParseFile(c: char): int {
    Lower(c) as int - 'a' as int
  }

  function ParseRank(c: char): int {
    c as int - '1' as int
  }

  function SquareText(s: Square): string
    requires s.OnBoard()
  {
    [FileChar(s.file), RankChar(s.rank)]
  }

  function PromotionChar(p: Promotion): char {
    match p
    case Knight => 'n'
    case Queen => 'q'
    case Rook => 'r'
    case Bishop => 'b'
  }

  function ParsePromotion(c: char): Option<Promotion> {
    match Lower(c)
    case 'n' => Some(Knight)
    case 'q' => Some(Queen)
    case 'r' => Some(Rook)
    case 'b' => Some(Bishop)
    case _ => None
  }

  // ---- writing ----

  /** `Move::ToString`: castling from the e-file with a rook in the corner is written as a king move of two squares,
      unless Chess960 notation is asked for. */
  function MoveText(m: Move, chess960: bool): string
    requires m.from.OnBoard() && m.to.OnBoard()
  {
    if m.kind.Castle? && !chess960 && m.from.file == 4 &&
      m.to.file == 0 then SquareText(m.from) + ['c', RankChar(m.to.rank)]
    else if m.kind.Castle? && !chess960 && m.from.file == 4 &&
      m.to.file == 7 then SquareText(m.from) + ['g', RankChar(m.to.rank)]
    else SquareText(m.from) + SquareText(m.to) + if m.kind.Promote? then [PromotionChar(m.kind.piece)] else []
  }

  /** A move of the side to move, seen from White's side of the board. */
  function Written(b: Board, m: Move, chess960: bool): string
    requires m.from.OnBoard() && m.to.OnBoard()
  {
    MoveText(if b.flipped then m.Flip() else m, chess960)
  }

  // ---- reading ----

  datatype ParseError = WrongMoveSize | BadSquare | NoPieceToMove | InvalidPromotion

  datatype Parsed = Ok(move: Move) | Invalid(error: ParseError)

  const E1 := Sq(4, 0)
  const G1 := Sq(6, 0)
  const C1 := Sq(2, 0)

  function WhiteCastling(king: int, rook: int): Move {
    Move(Sq(king, 0), Sq(rook, 0), Castle)
  }

  /** `ParseMove` once the squares are known. */
  function ReadMove(b: Board, from: Square, to: Square, promotion: Option<char>): Parsed {
    if from !in b.ours then Invalid(NoPieceToMove)
    else if from in b.pawns && from.rank != 0 && from.rank != 7 && (to.rank == 0 || to.rank == 7) then
      var piece := if promotion.Some? then ParsePromotion(promotion.value) else Some(Knight);
      if piece.Some? then Ok(Move(from, to, Promote(piece.value))) else Invalid(InvalidPromotion)
    else if from == b.ourKing && to in b.ours then Ok(WhiteCastling(from.file, to.file))
    else if from == b.ourKing && from == E1 && to == G1 then Ok(WhiteCastling(from.file, 7))
    else if from == b.ourKing && from == E1 && to == C1 then Ok(WhiteCastling(from.file, 0))
    else if from.file != to.file && from in RealPawns(b) && to !in b.theirs then Ok(Move(from, to, EnPassant))
    else Ok(Move(from, to, Plain))
  }

  function ParseMove(b: Board, text: string): Parsed {
    if |text| < 4 || |text| > 5 then Invalid(WrongMoveSize) else
    var from, to := Sq(ParseFile(text[0]), ParseRank(text[1])), Sq(ParseFile(text[2]), ParseRank(text[3]));
    if !from.OnBoard() || !to.OnBoard() then Invalid(BadSquare) else
    ReadMove(b, if b.flipped then from.Flip() else from, if b.flipped then to.Flip() else to,
      if |text| > 4 then Some(text[4]) else None)
  }

  // ---- reading undoes writing ----

  lemma SquareRead(s: Square)
    requires s.OnBoard()
    ensures var t := SquareText(s); Sq(ParseFile(t[0]), ParseRank(t[1])) == s
  {
  }

  /** Castling leaves the squares where the king lands free, so the short form cannot be taken for king takes rook. */
  lemma CastlingSquaresFree(b: Board, m: Move)
    requires WellFormed(b) && Pseudolegal(b, m) && m.kind.Castle? && m.from.file == 4
    ensures m.from == b.ourKing == E1 && m.to.rank == 0 && m.to in b.ours
    ensures m.to.file == 7 ==> G1 !in b.ours
    ensures m.to.file == 0 ==> C1 !in b.ours
  {
  }

  /** What reading the squares of a pseudolegal move back gives; castling in the short form is treated below. */
  lemma {:induction false} ReadsBack(b: Board, m: Move)
    requires WellFormed(b) && Pseudolegal(b, m) && m.to.OnBoard()
    ensures ReadMove(b, m.from, m.to, if m.kind.Promote? then Some(PromotionChar(m.kind.piece)) else None) == Ok(m)
  {
    assert m.from in b.pawns && InPawnMask(m.from) <==> m.from in RealPawns(b);
  }

  lemma ReadsCastling(b: Board, m: Move)
    requires WellFormed(b) && Pseudolegal(b, m) && m.kind.Castle? && m.from.file == 4
    ensures m.to.file == 7 ==> ReadMove(b, m.from, G1, None) == Ok(m)
    ensures m.to.file == 0 ==> ReadMove(b, m.from, C1, None) == Ok(m)
  {
    CastlingSquaresFree(b, m);
  }

  /** The square as it is shown: from White's side. */
  function Shown(b: Board, s: Square): Square {
    if b.flipped then s.Flip() else s
  }

  lemma TextRead(b: Board, from: Square, to: Square, promotion: Option<char>)
    requires from.OnBoard() && to.OnBoard()
    ensures ParseMove(b, SquareText(Shown(b, from)) + SquareText(Shown(b, to)) +
      if promotion.Some? then [promotion.value] else [])
      == ReadMove(b, from, to, promotion)
  {
    SquareRead(Shown(b, from));
    SquareRead(Shown(b, to));
  }

  lemma WrittenPlainly(b: Board, m: Move, chess960: bool)
    requires m.from.OnBoard() && m.to.OnBoard()
    requires !(m.kind.Castle? && !chess960 && m.from.file == 4 && (m.to.file == 0 || m.to.file == 7))
    ensures Written(b, m, chess960) == SquareText(Shown(b, m.from)) + SquareText(Shown(b, m.to)) +
      if m.kind.Promote? then [PromotionChar(m.kind.piece)] else []
  {
  }

  lemma WrittenShort(b: Board, m: Move)
    requires m.from.OnBoard() && m.to.OnBoard() && m.kind.Castle? && m.from.file == 4 &&
      (m.to.file == 0 || m.to.file == 7)
    ensures Written(b, m, false) == SquareText(Shown(b, m.from)) +
      SquareText(Shown(b, Sq(if m.to.file == 0 then 2 else 6, m.to.rank))) + []
  {
  }

  lemma EndsOnBoard(b: Board, m: Move)
    requires WellFormed(b) && Pseudolegal(b, m)
    ensures m.from.OnBoard() && m.to.OnBoard()
  {
    if m.kind.Castle? { assert m.to in b.ours; }
  }

  /** Reading what was written gives the move back with its kind, in both notations and for both colours. */
  lemma {:induction false} ParseUndoesWriting(b: Board, m: Move, chess960: bool)
    requires WellFormed(b) && Pseudolegal(b, m)
    ensures m.from.OnBoard() && m.to.OnBoard()
    ensures ParseMove(b, Written(b, m, chess960)) == Ok(m)
  {
    EndsOnBoard(b, m);
    if m.kind.Castle? && !chess960 && m.from.file == 4 && (m.to.file == 0 || m.to.file == 7) {
      ReadsCastling(b, m);
      CastlingSquaresFree(b, m);
      WrittenShort(b, m);
      TextRead(b, m.from, Sq(if m.to.file == 0 then 2 else 6, m.to.rank), None);
    } else {
      ReadsBack(b, m);
      WrittenPlainly(b, m, chess960);
      TextRead(b, m.from, m.to, if m.kind.Promote? then Some(PromotionChar(m.kind.piece)) else None);
    }
  }

  /** Hence two different moves are never written alike. */
  lemma WritingIsInjective(b: Board, m: Move, n: Move, chess960: bool)
    requires WellFormed(b) && Pseudolegal(b, m) && Pseudolegal(b, n)
    requires m.from.OnBoard() && m.to.OnBoard() && n.from.OnBoard() && n.to.OnBoard()
    requires Written(b, m, chess960) == Written(b, n, chess960)
    ensures m == n
  {
    ParseUndoesWriting(b, m, chess960);
    ParseUndoesWriting(b, n, chess960);
  }

  // ---- the texts themselves ----

  /** A promotion without a letter means a knight. */
  lemma NoLetterMeansKnight(b: Board, m: Move)
    requires WellFormed(b) && Pseudolegal(b, m) && m.kind.Promote?
    ensures ParseMove(b, SquareText(Shown(b, m.from)) + SquareText(Shown(b, m.to))) == Ok(m.(kind := Promote(Knight)))
  {
    EndsOnBoard(b, m);
    TextRead(b, m.from, m.to, None);
    var text := SquareText(Shown(b, m.from)) + SquareText(Shown(b, m.to));
    assert text + [] == text;
  }

  /** Files a to h and ranks 1 to 8, seen by White. */
  function Coordinates(b: Board, s: Square): string
    requires s.OnBoard()
  {
    ["abcdefgh"[s.file], (if b.flipped then "87654321" else "12345678")[s.rank]]
  }

  function Suffix(k: MoveKind): string {
    match k
    case Promote(Knight) => "n"
    case Promote(Queen) => "q"
    case Promote(Rook) => "r"
    case Promote(Bishop) => "b"
    case _ => ""
  }

  lemma SquareTextMeans(b: Board, s: Square)
    requires s.OnBoard()
    ensures SquareText(Shown(b, s)) == Coordinates(b, s)
  {
    var t := Shown(b, s);
    assert FileChar(t.file) == "abcdefgh"[s.file];
    assert RankChar(t.rank) == (if b.flipped then "87654321" else "12345678")[s.rank];
  }

  /** What is written is coordinate notation: the two squares, castling from e1 or e8 with a rook in the corner as the
      king's step to the g- or c-file, and a small letter for the new piece. */
  lemma WrittenMeans(b: Board, m: Move)
    requires WellFormed(b) && Pseudolegal(b, m) && m.from.OnBoard() && m.to.OnBoard()
    ensures Written(b, m, false) ==
      if m.kind.Castle? && m.from.file == 4 && m.to.file == 7 then Coordinates(b, m.from) + Coordinates(b, Sq(6, 0))
      else if m.kind.Castle? && m.from.file == 4 && m.to.file == 0
      then Coordinates(b, m.from) + Coordinates(b, Sq(2, 0))
      else Coordinates(b, m.from) + Coordinates(b, m.to) + Suffix(m.kind)
  {
    SquareTextMeans(b, m.from);
    SquareTextMeans(b, m.to);
    if m.kind.Castle? && m.from.file == 4 && (m.to.file == 0 || m.to.file == 7) {
      CastlingSquaresFree(b, m);
      WrittenShort(b, m);
      SquareTextMeans(b, Sq(if m.to.file == 0 then 2 else 6, m.to.rank));
    } else {
      WrittenPlainly(b, m, false);
    }
  }
}
