// The initial position: its FEN, written out in the source, reads as the board the results about games start from.

module StartPosition {
  import opened Squares
  import opened Board
  import opened Invariants
  import opened Fen
  import opened FenRoundTrip

  /** `kStartposFen`. */
  const START_FEN := "rnbqkbnr/pppppppp/8/8/8/8/PPPPPPPP/RNBQKBNR w KQkq - 0 1"

  predicate Reads(b: Board, s: Square, c: char) {
    PieceAt(b, s).Some? && PieceChar(PieceAt(b, s).value) == c
  }

  lemma {:induction false} FullRankText(b: Board, rank: int, file: nat, w: string)
    requires file <= 8 == |w| && forall f :: file <= f < 8 ==> Reads(b, Sq(f, rank), w[f])
    ensures RankText(b, rank, file, 0) == w[file..]
    decreases 8 - file
  {
    if file < 8 {
      FullRankText(b, rank, file + 1, w);
      assert Reads(b, Sq(file, rank), w[file]);
      assert w[file..] == [w[file]] + w[file + 1..];
    }
  }

  lemma {:induction false} EmptyRankText(b: Board, rank: int, file: nat)
    requires file <= 8 && forall f :: file <= f < 8 ==> PieceAt(b, Sq(f, rank)).None?
    ensures RankText(b, rank, file, file) == "8"
    decreases 8 - file
  {
    if file < 8 {
      assert PieceAt(b, Sq(file, rank)).None?;
      EmptyRankText(b, rank, file + 1);
    }
  }

  lemma StartRank(rank: int, w: string)
    requires (rank == 0 && w == "RNBQKBNR") || (rank == 1 && w == "PPPPPPPP") || (rank == 6 && w == "pppppppp") ||
      (rank == 7 && w == "rnbqkbnr")
    ensures RankText(StartBoard(false), rank, 0, 0) == w
  {
    var b := StartBoard(false);
    forall f | 0 <= f < 8 ensures Reads(b, Sq(f, rank), w[f]) { }
    FullRankText(b, rank, 0, w);
    assert w[0..] == w;
  }

  lemma MiddleRank(rank: int)
    requires 2 <= rank < 6
    ensures RankText(StartBoard(false), rank, 0, 0) == "8"
  {
    EmptyRankText(StartBoard(false), rank, 0);
  }

  /** The ranks from the first up, as they stand in the text. */
  const START_RANKS := ["RNBQKBNR", "PPPPPPPP", "8", "8", "8", "8", "pppppppp", "rnbqkbnr"]

  function Joined(texts: seq<string>, r: nat): string
    requires r < |texts|
  {
    texts[r] + if r == 0 then [] else ['/'] + Joined(texts, r - 1)
  }

  lemma {:induction false} RanksJoined(b: Board, texts: seq<string>, r: nat)
    requires r < |texts| == 8 && forall i {:trigger texts[i]} :: 0 <= i < 8 ==> RankText(b, i, 0, 0) == texts[i]
    ensures RanksText(b, r) == Joined(texts, r)
  {
    assert RankText(b, r, 0, 0) == texts[r];
    if r > 0 { RanksJoined(b, texts, r - 1); }
  }

  lemma EightJoined(texts: seq<string>, top: nat)
    requires |texts| == 8 && top == 7
    ensures Joined(texts, top) == texts[7] +
      (['/'] + (texts[6] + (['/'] + (texts[5] + (['/'] + (texts[4] + (['/'] + (texts[3]
      + (['/'] + (texts[2] + (['/'] + (texts[1] + (['/'] + texts[0])))))))))))))
  {
    assert Joined(texts, top - 7) == texts[0];
    assert Joined(texts, top - 5) == texts[2] + (['/'] + (texts[1] + (['/'] + texts[0])));
    assert Joined(texts, top - 3) == texts[4] + (['/'] + (texts[3] + (['/'] + Joined(texts, top - 5))));
    assert Joined(texts, top - 1) == texts[6] + (['/'] + (texts[5] + (['/'] + Joined(texts, top - 3))));
  }

  lemma RanksLiteral()
    ensures "rnbqkbnr" + (['/'] + ("pppppppp" + (['/'] + ("8" + (['/'] + ("8" + (['/'] + ("8" + (['/'] + ("8"
      + (['/'] + ("PPPPPPPP" + (['/'] + "RNBQKBNR"))))))))))))) == "rnbqkbnr/pppppppp/8/8/8/8/PPPPPPPP/RNBQKBNR"
  {
  }

  lemma StartFields()
    ensures FieldsText(StartBoard(false), 0, 1) == "KQkq - 0 1"
  {
    var b := StartBoard(false);
    assert CastlingText(b.castlings) == "KQkq";
    assert EnPassantText(b) == "-";
    assert IntText(0) == "0" && IntText(1) == "1";
  }

  lemma TextJoined()
    ensures "rnbqkbnr/pppppppp/8/8/8/8/PPPPPPPP/RNBQKBNR" + ([' '] + (['w'] + ([' '] + "KQkq - 0 1"))) == START_FEN
  {
  }

  lemma StartRankTexts(b: Board, r: nat)
    requires b == StartBoard(false) && r < 8
    ensures RankText(b, r, 0, 0) == START_RANKS[r]
  {
    if 2 <= r < 6 { MiddleRank(r); } else { StartRank(r, START_RANKS[r]); }
  }

  lemma PositionIs(b: Board, ranks: string, fields: string, clock: int, ply: nat, last: nat)
    requires RookFilesOnBoard(b.castlings) && !b.flipped && last == 7 && RanksText(b, last) == ranks
    requires FieldsText(b, clock, MoveNumber(b, ply)) == fields
    ensures PositionText(b, clock, ply) == ranks + ([' '] + (['w'] + ([' '] + fields)))
  {
  }

  lemma TextRead(b: Board, clock: int, ply: nat, text: string)
    requires WellFormed(b) && RookFilesOnBoard(b.castlings) && 0 <= clock < 100 && ply < 100 &&
      PositionText(b, clock, ply) == text
    ensures ParseFen(text) == Fine(b.(castlings := HeldOnly(b.castlings)), clock, MoveNumber(b, ply))
  {
    ParseUndoesWriting(b, clock, ply);
  }

  /** `kStartposBoard`: parsing the start text gives the initial board, with the clock at 0 and the move number at 1. */
  lemma {:induction false} StartFenReads()
    ensures ParseFen(START_FEN) == Fine(StartBoard(false), 0, 1)
  {
    var b := StartBoard(false);
    StartWellFormed(false);
    forall r | 0 <= r < 8 ensures RankText(b, r, 0, 0) == START_RANKS[r] { StartRankTexts(b, r); }
    RanksJoined(b, START_RANKS, 7);
    EightJoined(START_RANKS, 7);
    RanksLiteral();
    StartFields();
    PositionIs(b, Joined(START_RANKS, 7), "KQkq - 0 1", 0, 0, 7);
    TextJoined();
    TextRead(b, 0, 0, START_FEN);
  }
}
