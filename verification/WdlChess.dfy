// The capture search of WdlSearch.dfy on chess: what a move is worth, what a table promises, and that the search
// returns the value of the position.

module WdlChess {
  import opened Squares
  import opened Board
  import opened Legality
  import opened Invariants
  import opened Repetition
  import opened WdlSearch

  // ---- the position without its en passant right ----

  function WithoutEp(b: Board): Board {
    b.(pawns := RealPawns(b))
  }

  lemma SameChecks(b: Board, s: Square, c: Square)
    requires s.rank >= 0
    ensures Checks(WithoutEp(b), s, c) <==> Checks(b, s, c)
    ensures PawnChecks(WithoutEp(b), s, c) <==> PawnChecks(b, s, c)
    ensures KnightChecks(WithoutEp(b), s, c) <==> KnightChecks(b, s, c)
  {
    var x := WithoutEp(b);
    forall d, k | c == Step(s, d, k) ensures SliderChecks(x, s, d, k) <==> SliderChecks(b, s, d, k) { }
    assert RealPawns(x) == RealPawns(b);
  }

  lemma SameAttacks(b: Board, s: Square)
    requires s.rank >= 0
    ensures Attacked(WithoutEp(b), s) <==> Attacked(b, s)
  {
    forall c ensures Checks(WithoutEp(b), s, c) <==> Checks(b, s, c) { SameChecks(b, s, c); }
  }

  lemma SamePlay(b: Board, m: Move)
    requires !m.kind.EnPassant?
    ensures Play(WithoutEp(b), m) == Play(b, m) && (Zeroing(WithoutEp(b), m) <==> Zeroing(b, m))
  {
    assert RealPawns(WithoutEp(b)) == RealPawns(b);
  }

  lemma SameWalk(b: Board, from: int, to: int)
    ensures WalkAttacked(WithoutEp(b), from, to) <==> WalkAttacked(b, from, to)
  {
    forall f ensures Attacked(WithoutEp(b), Sq(f, 0)) <==> Attacked(b, Sq(f, 0)) { SameAttacks(b, Sq(f, 0)); }
  }

  lemma SamePseudolegal(b: Board, m: Move)
    requires !m.kind.EnPassant?
    ensures Pseudolegal(WithoutEp(b), m) <==> Pseudolegal(b, m)
  {
    var x := WithoutEp(b);
    assert RealPawns(x) == RealPawns(b);
    if m.from == b.ourKing {
      SameWalk(b, m.from.file, 2);
      SameWalk(b, m.from.file, 6);
      if m.to.rank >= 0 { SameAttacks(b, m.to); }
    } else if m.from in b.rooks || m.from in b.bishops {
      assert LineMove(x, m.from, m.to) <==> LineMove(b, m.from, m.to) by {
        forall d ensures Slides(x, m.from, d) <==> Slides(b, m.from, d) { }
      }
    }
  }

  /** The legal moves without the right are those with it less the en passant captures; they lead to the same boards. */
  lemma SameLegalMoves(b: Board, m: Move)
    requires WellFormed(b)
    ensures Legal(WithoutEp(b), m) <==> Legal(b, m) && !m.kind.EnPassant?
  {
    if m.kind.EnPassant? {
      assert m.from == b.ourKing ==> !Pseudolegal(WithoutEp(b), m);
    } else {
      SamePlay(b, m);
      SamePseudolegal(b, m);
    }
  }

  lemma SameClasses(b: Board, g: CheckClass)
    requires b.ourKing.rank >= 0
    ensures ClassChecks(WithoutEp(b), g) <==> ClassChecks(b, g)
  {
    var x := WithoutEp(b);
    forall c ensures InClass(x, g, c) <==> InClass(b, g, c) {
      SameChecks(b, b.ourKing, c);
      if g.Ray? {
        forall k ensures SliderChecks(x, b.ourKing, g.d, k) <==> SliderChecks(b, b.ourKing, g.d, k) { }
      }
    }
  }

  lemma SameCount(b: Board)
    requires b.ourKing.rank >= 0
    ensures AttackerCount(WithoutEp(b)) == AttackerCount(b)
  {
    forall g ensures ClassChecks(WithoutEp(b), g) <==> ClassChecks(b, g) { SameClasses(b, g); }
  }

  lemma {:induction false} SoundWithoutEp(b: Board)
    requires Sound(b)
    ensures Sound(WithoutEp(b)) && (InCheck(WithoutEp(b)) <==> InCheck(b))
  {
    var x := WithoutEp(b);
    assert RealPawns(x) == RealPawns(b);
    SameCount(b);
    SameAttacks(b, b.ourKing);
    assert Mirrored(x) == WithoutEp(Mirrored(b)) by { assert FlipSet(x.pawns) == RealPawns(Mirrored(b)); }
    SameAttacks(Mirrored(b), b.theirKing.Flip());
    forall c ensures PawnChecks(x, b.ourKing, c) <==> PawnChecks(b, b.ourKing, c) { SameChecks(b, b.ourKing, c); }
    forall c ensures KnightChecks(x, b.ourKing, c) <==> KnightChecks(b, b.ourKing, c) { SameChecks(b, b.ourKing, c); }
  }

  // ---- the true values ----

  /** `value` is the outcome for the side to move, from -2 (loss) to 2 (win); `rest` is what a move that zeroes nothing
      is worth, where the fifty-move rule may turn wins and losses into draws. */
  datatype World = World(value: Board -> int, rest: (Board, Move) -> int)

  /** After a capture or a pawn move the clock restarts, so the move is worth the negated value of what follows. */
  ghost function MoveValue(w: World, b: Board, m: Move): int {
    if Zeroing(b, m) then -w.value(After(b, m)) else w.rest(WithoutEp(b), m)
  }

  ghost predicate NoMoves(b: Board) {
    forall m :: !Legal(b, m)
  }

  /** The value is that of the best move; mate is a loss and stalemate a draw. */
  ghost predicate ValueRight(w: World, b: Board) {
    && -2 <= w.value(b) <= 2
    && if NoMoves(b) then w.value(b) == if InCheck(b) then -2 else 0
       else (forall m :: Legal(b, m) ==> MoveValue(w, b, m) <= w.value(b)) && exists m :: Attains(w, b, m)
  }

  ghost predicate Attains(w: World, b: Board, m: Move) {
    Legal(b, m) && MoveValue(w, b, m) == w.value(b)
  }

  ghost predicate Negamax(w: World) {
    forall b :: Sound(b) ==> ValueRight(w, b)
  }

  // ---- the tables ----

  /** `is_capture`. */
  predicate IsCapture(b: Board, m: Move) {
    m.to in b.theirs || (m.from in RealPawns(b) && m.from.file != m.to.file)
  }

  lemma CapturesCapture(b: Board, m: Move)
    requires WellFormed(b) && Pseudolegal(b, m)
    ensures IsCapture(b, m) <==> Captured(b, m) != {}
  {
    if m.kind.Castle? { CastleSquares(b, m); }
    assert m.to in b.theirs ==> m.to in {m.to} * b.theirs;
  }

  ghost predicate GeneratesLegal(moves: Board -> seq<Move>) {
    forall b {:trigger moves(b)} :: Sound(b) ==> Lists(moves(b), b)
  }

  ghost predicate Lists(moves: seq<Move>, b: Board) {
    forall m :: m in moves <==> Legal(b, m)
  }

  /** What a stored value promises. It is stored without regard to en passant; it is exact unless some capture is worth
      as much as the position, in which case it may be anything not better. A missing table stores nothing. */
  ghost predicate TableRight(w: World, probe: Board -> Option<int>, b: Board) {
    var x := WithoutEp(b);
    probe(b).Some? ==>
      && -2 <= probe(b).value <= 2
      && if exists m :: CaptureAttains(w, x, m) then probe(b).value <= w.value(x) else probe(b).value == w.value(x)
  }

  ghost predicate CaptureAttains(w: World, b: Board, m: Move) {
    Attains(w, b, m) && IsCapture(b, m)
  }

  ghost predicate DontCare(w: World, probe: Board -> Option<int>) {
    forall b :: Sound(b) ==> TableRight(w, probe, b)
  }

  // ---- the search on chess ----

  function PawnMoves(b: Board, m: Move): bool {
    m.from in RealPawns(b)
  }

  function ChessRules(moves: Board -> seq<Move>, probe: Board -> Option<int>): Rules<Board> {
    Rules(moves, (b: Board, m: Move) => After(b, m), (b: Board, m: Move) => IsCapture(b, m),
      (b: Board, m: Move) => PawnMoves(b, m), probe)
  }

  ghost function ChessTruth(w: World): Truth<Board> {
    Truth(w.value, (b: Board, m: Move) => MoveValue(w, b, m), (b: Board, m: Move) => Legal(WithoutEp(b), m),
          (b: Board) => w.value(WithoutEp(b)), (b: Board) => Sound(b), (b: Board) => Measure(b))
  }

  lemma TriedIsZeroing(b: Board, m: Move)
    requires Sound(b) && Legal(b, m) && (IsCapture(b, m) || PawnMoves(b, m))
    ensures Zeroing(b, m) && Sound(After(b, m)) && Measure(After(b, m)) < Measure(b)
  {
    CapturesCapture(b, m);
    SoundAfter(b, m);
    MeasureAfter(b, m);
  }

  lemma {:induction false} WalkNonnegative(x: set<Square>, ours: bool)
    requires forall s :: s in x ==> 0 <= s.rank <= 7
    ensures Walk(x, ours) >= 0
  {
    if x != {} {
      var s :| s in x;
      WalkWithout(x, ours, s);
      WalkNonnegative(x - {s}, ours);
    }
  }

  lemma MeasureNonnegative(b: Board)
    requires WellFormed(b)
    ensures Measure(b) >= 0
  {
    WalkNonnegative(OurPawns(b), true);
    WalkNonnegative(TheirPawns(b), false);
  }

  lemma BestOfLegal(w: World, moves: Board -> seq<Move>, probe: Board -> Option<int>, b: Board)
    requires Sound(b) && ValueRight(w, b) && Lists(moves(b), b) && moves(b) != []
    ensures BestMove(ChessRules(moves, probe), ChessTruth(w), b)
  {
    var t := ChessTruth(w);
    assert Legal(b, moves(b)[0]);
    var m :| Attains(w, b, m);
    assert m in moves(b) && t.worth(b, m) == w.value(b);
  }

  lemma ChessRight(w: World, moves: Board -> seq<Move>, probe: Board -> Option<int>, b: Board)
    requires Sound(b) && ValueRight(w, b) && Lists(moves(b), b)
    ensures Right(ChessRules(moves, probe), ChessTruth(w), b)
  {
    var r, t := ChessRules(moves, probe), ChessTruth(w);
    MeasureNonnegative(b);
    if moves(b) != [] { BestOfLegal(w, moves, probe, b); }
    forall m, z | m in r.moves(b) && Tried(r, b, m, z) ensures ZeroingWorth(r, t, b, m) { TriedIsZeroing(b, m); }
  }

  /** The same moves are worth the same without the en passant right. */
  lemma SameWorth(w: World, b: Board, m: Move)
    requires WellFormed(b) && Legal(WithoutEp(b), m)
    ensures Legal(b, m) && MoveValue(w, WithoutEp(b), m) == MoveValue(w, b, m)
    ensures IsCapture(WithoutEp(b), m) <==> IsCapture(b, m)
  {
    SameLegalMoves(b, m);
    SamePlay(b, m);
    assert RealPawns(WithoutEp(b)) == RealPawns(b);
    assert WithoutEp(WithoutEp(b)) == WithoutEp(b);
  }

  lemma BestOfCalm(w: World, b: Board, calm: Move)
    requires Sound(b) && ValueRight(w, WithoutEp(b)) && Legal(WithoutEp(b), calm)
    ensures BestCalm(ChessTruth(w), b)
  {
    var x, t := WithoutEp(b), ChessTruth(w);
    forall m | t.calm(b, m) ensures t.worth(b, m) <= w.value(x) { SameWorth(w, b, m); }
    var m :| Attains(w, x, m);
    SameWorth(w, b, m);
    assert t.calm(b, m) && t.worth(b, m) == w.value(x);
  }

  lemma CalmMoves(b: Board)
    requires WellFormed(b)
    ensures forall m :: Legal(WithoutEp(b), m) ==> Legal(b, m)
    ensures forall m :: Legal(b, m) && !IsCapture(b, m) ==> Legal(WithoutEp(b), m)
  {
    forall m | Legal(WithoutEp(b), m) ensures Legal(b, m) { SameLegalMoves(b, m); }
    forall m | Legal(b, m) && !IsCapture(b, m) ensures Legal(WithoutEp(b), m) { SameLegalMoves(b, m); }
  }

  /** Mate and stalemate do not depend on the en passant right. */
  lemma NoMovesSameValue(w: World, b: Board)
    requires Sound(b) && ValueRight(w, b) && ValueRight(w, WithoutEp(b)) && NoMoves(b)
    ensures NoMoves(WithoutEp(b)) && w.value(WithoutEp(b)) == w.value(b)
  {
    CalmMoves(b);
    SoundWithoutEp(b);
  }

  lemma CapturesAttain(w: World, moves: Board -> seq<Move>, probe: Board -> Option<int>, b: Board, m: Move)
    requires WellFormed(b)
    ensures WdlSearch.CaptureAttains(ChessRules(moves, probe), ChessTruth(w), b, m) <==>
      CaptureAttains(w, WithoutEp(b), m)
  {
    if Legal(WithoutEp(b), m) { SameWorth(w, b, m); }
  }

  lemma ChessStoredValue(w: World, moves: Board -> seq<Move>, probe: Board -> Option<int>, b: Board)
    requires Sound(b) && ValueRight(w, b) && ValueRight(w, WithoutEp(b)) && Lists(moves(b), b) &&
      TableRight(w, probe, b) && probe(b).Some?
    ensures StoredValue(ChessRules(moves, probe), ChessTruth(w), b, probe(b).value)
  {
    if moves(b) == [] {
      NoMovesNoCapture(w, moves, b);
    } else if m :| WdlSearch.CaptureAttains(ChessRules(moves, probe), ChessTruth(w), b, m) {
      CapturesAttain(w, moves, probe, b, m);
    } else if m :| CaptureAttains(w, WithoutEp(b), m) {
      CapturesAttain(w, moves, probe, b, m);
    }
  }

  lemma NoMovesNoCapture(w: World, moves: Board -> seq<Move>, b: Board)
    requires Sound(b) && ValueRight(w, b) && ValueRight(w, WithoutEp(b)) && Lists(moves(b), b) && moves(b) == []
    ensures w.value(WithoutEp(b)) == w.value(b) && forall m :: !CaptureAttains(w, WithoutEp(b), m)
  {
    assert NoMoves(b);
    NoMovesSameValue(w, b);
  }

  lemma ChessStored(w: World, moves: Board -> seq<Move>, probe: Board -> Option<int>, b: Board)
    requires Sound(b) && ValueRight(w, b) && ValueRight(w, WithoutEp(b)) && Lists(moves(b), b) &&
      TableRight(w, probe, b)
    ensures Stored(ChessRules(moves, probe), ChessTruth(w), b)
  {
    CalmMoves(b);
    if m :| Legal(WithoutEp(b), m) { BestOfCalm(w, b, m); }
    if probe(b).Some? { ChessStoredValue(w, moves, probe, b); }
  }

  /** Chess meets the assumptions of the search. */
  lemma {:induction false} ChessIsFair(w: World, moves: Board -> seq<Move>, probe: Board -> Option<int>)
    requires Negamax(w) && GeneratesLegal(moves) && DontCare(w, probe)
    ensures Fair(ChessRules(moves, probe), ChessTruth(w))
  {
    var r, t := ChessRules(moves, probe), ChessTruth(w);
    forall b | t.sound(b) ensures Right(r, t, b) && Stored(r, t, b) {
      SoundWithoutEp(b);
      ChessRight(w, moves, probe, b);
      ChessStored(w, moves, probe, b);
    }
  }

  // ---- the probes ----

  /** Legal captures one after the other; as the first move of a DTZ probe any pawn move will do. */
  ghost predicate CapturePath(b: Board, zeroing: bool, path: seq<Move>)
    decreases |path|
  {
    path == []
    || (Legal(b, path[0]) && (IsCapture(b, path[0]) || (zeroing && PawnMoves(b, path[0])))
        && CapturePath(After(b, path[0]), false, path[1..]))
  }

  function BoardAfter(b: Board, path: seq<Move>): Board
    decreases |path|
  {
    if path == [] then b else BoardAfter(After(b, path[0]), path[1..])
  }

  /** The table of the board itself or of one that captures lead to is missing. */
  ghost predicate NoTable(probe: Board -> Option<int>, b: Board, zeroing: bool) {
    exists path {:trigger CapturePath(b, zeroing, path)} ::
      CapturePath(b, zeroing, path) && probe(BoardAfter(b, path)).None?
  }

  lemma {:induction false} TriedIsCapturePath(moves: Board -> seq<Move>, probe: Board -> Option<int>, b: Board,
                                              zeroing: bool, path: seq<Move>)
    requires Sound(b) && GeneratesLegal(moves) && TriedPath(ChessRules(moves, probe), b, zeroing, path)
    ensures CapturePath(b, zeroing, path) && BoardAfter(b, path) == EndOf(ChessRules(moves, probe), b, path)
    decreases |path|
  {
    if path != [] {
      assert Legal(b, path[0]);
      SoundAfter(b, path[0]);
      TriedIsCapturePath(moves, probe, After(b, path[0]), false, path[1..]);
    }
  }

  lemma MissingMeansNoTable(moves: Board -> seq<Move>, probe: Board -> Option<int>, b: Board, zeroing: bool)
    requires Sound(b) && GeneratesLegal(moves) && TableMissing(ChessRules(moves, probe), b, zeroing)
    ensures NoTable(probe, b, zeroing)
  {
    var r := ChessRules(moves, probe);
    var path :| TriedPath(r, b, zeroing, path) && r.probe(EndOf(r, b, path)).None?;
    TriedIsCapturePath(moves, probe, b, zeroing, path);
  }

  /** `probe_wdl`: the value of the position, for every table that keeps its promise. It fails only where a table it may
      need is missing. */
  method ProbeWdl(moves: Board -> seq<Move>, probe: Board -> Option<int>, b: Board, ghost w: World)
    returns (value: int, state: ProbeState)
    requires Sound(b) && Negamax(w) && GeneratesLegal(moves) && DontCare(w, probe)
    ensures !state.FAIL? ==> value == w.value(b)
    ensures state.FAIL? ==> value == 0 && NoTable(probe, b, false)
  {
    ChessIsFair(w, moves, probe);
    value, state := Search(ChessRules(moves, probe), b, false, ChessTruth(w));
    if state.FAIL? { MissingMeansNoTable(moves, probe, b, false); }
  }

  /** A zeroing move attains the value, and either it wins or there is nothing but zeroing moves. */
  ghost predicate ZeroingIsBest(w: World, b: Board) {
    exists m :: Attains(w, b, m) && Zeroing(b, m) && (w.value(b) > 0 || forall n :: Legal(b, n) ==> Zeroing(b, n))
  }

  /** The search at the root of a DTZ probe, with its report of a best zeroing move. */
  method SearchZeroing(moves: Board -> seq<Move>, probe: Board -> Option<int>, b: Board, ghost w: World)
    returns (value: int, state: ProbeState)
    requires Sound(b) && Negamax(w) && GeneratesLegal(moves) && DontCare(w, probe)
    ensures !state.FAIL? ==> value == w.value(b)
    ensures !state.FAIL? ==> (state.ZEROING_BEST_MOVE? <==> ZeroingIsBest(w, b))
    ensures state.FAIL? ==> value == 0 && NoTable(probe, b, true)
  {
    ChessIsFair(w, moves, probe);
    value, state := Search(ChessRules(moves, probe), b, true, ChessTruth(w));
    if state.FAIL? { MissingMeansNoTable(moves, probe, b, true); } else { ZeroingBestMeans(w, moves, probe, b); }
  }

  lemma TriedExactlyZeroing(b: Board, m: Move)
    requires Sound(b) && Legal(b, m)
    ensures IsCapture(b, m) || PawnMoves(b, m) <==> Zeroing(b, m)
  {
    CapturesCapture(b, m);
  }

  lemma ZeroingBestMeans(w: World, moves: Board -> seq<Move>, probe: Board -> Option<int>, b: Board)
    requires Sound(b) && Lists(moves(b), b)
    ensures ZeroingBest(ChessRules(moves, probe), ChessTruth(w), b, true) <==> ZeroingIsBest(w, b)
  {
    var r, t := ChessRules(moves, probe), ChessTruth(w);
    forall n | Legal(b, n) ensures n in r.moves(b) && (Tried(r, b, n, true) <==> Zeroing(b, n)) {
      TriedExactlyZeroing(b, n);
    }
    if ZeroingBest(r, t, b, true) {
      var m :| m in r.moves(b) && Tried(r, b, m, true) && t.worth(b, m) == t.value(b)
        && (t.value(b) > 0 || forall n :: n in r.moves(b) ==> Tried(r, b, n, true));
      assert Attains(w, b, m) && Zeroing(b, m);
    }
    if ZeroingIsBest(w, b) {
      var m :| Attains(w, b, m) && Zeroing(b, m) && (w.value(b) > 0 || forall n :: Legal(b, n) ==> Zeroing(b, n));
      assert m in r.moves(b) && Tried(r, b, m, true) && t.worth(b, m) == t.value(b);
    }
  }
}
