// What any text the FEN parser accepts gives: piece sets that fit together, an en passant flag with its pawn, and
// castling rights with a rook file on the proper side of the king.

module FenAccepted {
  import opened Squares
  import opened Board
  import opened Notation
  import opened Fen
  import opened FenRoundTrip
  import opened Invariants

  predicate RightsOrdered(b: Board) {
    var c := b.castlings;
    && (c.weCan00 ==> b.ourKing.file < c.ourKingsideRook < 8)
    && (c.weCan000 ==> 0 <= c.ourQueensideRook <= b.ourKing.file)
    && (c.theyCan00 ==> b.theirKing.file < c.theirKingsideRook < 8)
    && (c.theyCan000 ==> 0 <= c.theirQueensideRook <= b.theirKing.file)
  }

  predicate NoRightsHeld(c: Castlings) {
    !c.weCan00 && !c.weCan000 && !c.theyCan00 && !c.theyCan000
  }

  predicate Fits(b: Board) {
    PiecesDisjoint(b) && FlagsBacked(b) && RightsOrdered(b)
  }

  // ---- the placement ----

  /** Every piece read so far stands before the place reached, so the next one meets an empty square. */
  predicate Placed(s: Placing) {
    s.Placing? ==>
      && PiecesDisjoint(s.board) && (forall q :: q in s.board.pawns ==> InPawnMask(q))
      && (forall q :: q in Occupied(s.board) ==> Before(q, s.rank, s.file))
      && NoRightsHeld(s.board.castlings) && 0 <= s.rank <= 7 && 0 <= s.file <= 8
  }

  lemma PlaceKeeps(s: Placing, c: char)
    requires Placed(s)
    ensures Placed(Place(s, c))
  {
    var r := Place(s, c);
    if s.Placing? && r.Placing? && c == '/' {
      forall q | q in Occupied(s.board) ensures Before(q, r.rank, r.file) { }
    }
  }

  lemma {:induction false} PlaceAllKeeps(s: Placing, text: string)
    requires Placed(s)
    ensures Placed(PlaceAll(s, text))
    decreases |text|
  {
    if text != [] {
      PlaceKeeps(s, text[0]);
      PlaceAllKeeps(Place(s, text[0]), text[1..]);
    }
  }

  // ---- the fields ----

  lemma FindRookBetween(b: Board, theirs: bool, kingside: bool, file: int)
    requires var king := if theirs then b.theirKing.file else b.ourKing.file;
      if kingside then king <= file else file <= king
    ensures var king, r := if theirs then b.theirKing.file else b.ourKing.file, FindRook(b, theirs, kingside, file);
      r.Some? ==> 0 <= r.value < 8 && if kingside then king < r.value else r.value < king
    decreases if kingside then file else 7 - file
  {
    var king := if theirs then b.theirKing.file else b.ourKing.file;
    if file != king && 0 <= file <= 7 {
      FindRookBetween(b, theirs, kingside, if kingside then file - 1 else file + 1);
    }
  }

  predicate RightsFit(b: Board, r: Rights) {
    r.Rights? ==> RightsOrdered(b.(castlings := r.castlings))
  }

  lemma {:induction false} RightsReadFit(b: Board, r: Rights, text: string)
    requires RightsFit(b, r) && 0 <= b.ourKing.file < 8 && 0 <= b.theirKing.file < 8
    ensures RightsFit(b, ReadRights(b, r, text))
    decreases |text|
  {
    if text != [] {
      RightReadFits(b, r, text[0]);
      RightsReadFit(b, ReadRight(b, r, text[0]), text[1..]);
    }
  }

  lemma RightReadFits(b: Board, r: Rights, c: char)
    requires RightsFit(b, r) && 0 <= b.ourKing.file < 8 && 0 <= b.theirKing.file < 8
    ensures RightsFit(b, ReadRight(b, r, c))
  {
    var theirs := IsUpper(c) == b.flipped;
    FindRookBetween(b, theirs, Lower(c) == 'k', if Lower(c) == 'k' then 7 else 0);
  }

  /** The numbers come last and do not touch the board. */
  lemma NumbersKeepBoard(b: Board, rest: string)
    ensures AfterEnPassant(b, rest).Fine? ==> AfterEnPassant(b, rest).board == b
  {
  }

  lemma EnPassantFits(b: Board, s: string)
    requires s != [] && Fits(b) && b.pawns == RealPawns(b)
    ensures ReadEnPassant(b, s).Fine? ==> Fits(ReadEnPassant(b, s).board)
  {
    if s[0] == '-' {
      NumbersKeepBoard(b, s[1..]);
    } else if |s| > 2 {
      var flag := Sq(ParseFile(s[0]), 7);
      var now := b.(pawns := b.pawns + {flag});
      NumbersKeepBoard(now, s[2..]);
      assert RealPawns(now) == RealPawns(b);
      if Sq(flag.file, 4) in b.theirs && Sq(flag.file, 4) in RealPawns(b) && Sq(flag.file, 5) !in Occupied(b) {
        assert 0 <= flag.file < 8;
        assert FlagBacked(now, flag);
      }
    }
  }

  lemma CastlingFits(b: Board, s: string)
    requires s != [] && Fits(b) && b.pawns == RealPawns(b) && 0 <= b.ourKing.file < 8 && 0 <= b.theirKing.file < 8
    ensures ReadCastling(b, s).Fine? ==> Fits(ReadCastling(b, s).board)
  {
    if s[0] == '-' {
      AfterCastlingFits(b, s[1..]);
    } else {
      RightsReadFit(b, Rights(b.castlings), Word(s));
      var r := ReadRights(b, Rights(b.castlings), Word(s));
      if r.Rights? { AfterCastlingFits(b.(castlings := r.castlings), AfterWord(s)); }
    }
  }

  lemma AfterCastlingFits(b: Board, rest: string)
    requires Fits(b) && b.pawns == RealPawns(b)
    ensures AfterCastling(b, rest).Fine? ==> Fits(AfterCastling(b, rest).board)
  {
    if Gap(rest).More? { EnPassantFits(b, Gap(rest).s); }
  }

  lemma TurnedFits(b: Board)
    requires PiecesDisjoint(b) && b.pawns == RealPawns(b) && NoRightsHeld(b.castlings)
    ensures Fits(Mirrored(b)) && Mirrored(b).pawns == RealPawns(Mirrored(b))
  {
    forall s: Square ensures s.Flip().Flip() == s { FlipFlip(s); }
    assert forall s: Square :: InPawnMask(s) <==> InPawnMask(s.Flip());
  }

  predicate KingFiles(b: Board) {
    0 <= b.ourKing.file < 8 && 0 <= b.theirKing.file < 8
  }

  lemma {:induction false} KingFilesKept(s: Placing, text: string)
    requires s.Placing? ==> KingFiles(s.board) && 0 <= s.file
    ensures var r := PlaceAll(s, text); r.Placing? ==> KingFiles(r.board)
    decreases |text|
  {
    if text != [] { KingFilesKept(Place(s, text[0]), text[1..]); }
  }

  /** Whatever text the parser accepts, the board has its pieces on different squares of the board, no pawn on a back
      rank, at most one en passant flag, whose pawn stands there behind an empty square, and castling rights whose rook
      files are on the board on the proper side of the king. */
  lemma AcceptedFits(text: string)
    ensures ParseFen(text).Fine? ==> Fits(ParseFen(text).board)
  {
    var s := SkipSpaces(text);
    var placed := PlaceAll(Placing(EMPTY_BOARD, 7, 0), Word(s));
    PlaceAllKeeps(Placing(EMPTY_BOARD, 7, 0), Word(s));
    KingFilesKept(Placing(EMPTY_BOARD, 7, 0), Word(s));
    if placed.Placing? {
      var b := placed.board;
      assert b.pawns == RealPawns(b);
      TurnedFits(b);
      if Gap(AfterWord(s)).More? {
        var u := Gap(AfterWord(s)).s;
        var turned := if Lower(u[0]) == 'b' then Mirrored(b) else b;
        if Gap(u[1..]).More? { CastlingFits(turned, Gap(u[1..]).s); }
      }
    }
  }

  /** A text that ends after the clock keeps it; the move number is then 1. */
  lemma ClockAlone(b: Board, rule50: int)
    requires -0x8000_0000 <= rule50 < 0x8000_0000
    ensures ReadClock(b, IntText(rule50)) == Fine(b, rule50, 1)
  {
    IntRead(rule50);
    WordRead(IntText(rule50), []);
    assert IntText(rule50) + [] == IntText(rule50);
  }
}
