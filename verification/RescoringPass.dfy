// The first rescoring pass over a recorded game: play the moves, probe the positions after zeroing moves, and let
// Rescoring.dfy write each score back through the frames.

module RescoringPass {
  import opened Board
  import opened Invariants
  import opened Repetition
  import opened History
  import opened WdlSearch
  import opened WdlChess
  import opened Rescoring

  // ---- the positions probed ----

  /** The move before reset the clock, no castling right is left, and the table knows that many pieces. */
  predicate Due(b: Board, reset: bool, maxPieces: int) {
    && reset && |b.ours + b.theirs| <= maxPieces
    && !(b.castlings.weCan00 || b.castlings.weCan000 || b.castlings.theyCan00 || b.castlings.theyCan000)
  }

  /** A hit scores 1 for a win and -1 for a loss (values 2 and -2); wins and losses that the fifty-move rule turns into
      draws score 0 like draws. A position is passed over if it is not due, or where a table is missing. */
  ghost predicate HitRight(t: Tables, b: Board, reset: bool, hit: Option<int>) {
    match hit
    case Some(score) =>
      && Due(b, reset, t.maxPieces) && -1 <= score <= 1
      && (score == 1 <==> t.world.value(b) == 2) && (score == -1 <==> t.world.value(b) == -2)
    case None => Due(b, reset, t.maxPieces) ==> NoTable(t.table, b, false)
  }

  /** The table, how many pieces it knows, and the values it is about. */
  datatype Tables = Tables(table: Board -> Option<int>, maxPieces: int, world: World)

  /** The hits of the first moves: positions are probed after zeroing moves. */
  ghost predicate HitsRight(t: Tables, boards: seq<Board>, moves: seq<Move>, hits: seq<Option<int>>)
    requires |hits| <= |moves| < |boards|
  {
    hits == []
    || (var n := |hits| - 1;
        HitsRight(t, boards, moves, hits[..n]) && HitRight(t, boards[n + 1], Zeroing(boards[n], moves[n]), hits[n]))
  }

  lemma OneMoreHit(t: Tables, boards: seq<Board>, moves: seq<Move>, hits: seq<Option<int>>, hit: Option<int>)
    requires |hits| < |moves| < |boards| && HitsRight(t, boards, moves, hits)
    requires HitRight(t, boards[|hits| + 1], Zeroing(boards[|hits|], moves[|hits|]), hit)
    ensures HitsRight(t, boards, moves, hits + [hit])
  {
    assert (hits + [hit])[..|hits|] == hits;
  }

  lemma {:induction false} RightHitsAreScores(t: Tables, boards: seq<Board>, moves: seq<Move>, hits: seq<Option<int>>)
    requires |hits| <= |moves| < |boards| && HitsRight(t, boards, moves, hits)
    ensures Scores(hits)
  {
    if hits != [] {
      var n := |hits| - 1;
      RightHitsAreScores(t, boards, moves, hits[..n]);
      forall i | 0 <= i < |hits| && hits[i].Some? ensures -1 <= hits[i].value <= 1 {
        assert i < n ==> hits[..n][i] == hits[i];
      }
    }
  }

  lemma {:induction false} HitAt(t: Tables, boards: seq<Board>, moves: seq<Move>, hits: seq<Option<int>>, i: nat)
    requires i < |hits| <= |moves| < |boards| && HitsRight(t, boards, moves, hits)
    ensures HitRight(t, boards[i + 1], Zeroing(boards[i], moves[i]), hits[i])
  {
    if i < |hits| - 1 { HitAt(t, boards, moves, hits[..|hits| - 1], i); }
  }

  /** Frame `h` is the first at or after frame `j` whose position was probed with success. */
  predicate IsNext(hits: seq<Option<int>>, j: nat, h: nat) {
    && j <= h && 1 <= h <= |hits| && hits[h - 1].Some?
    && forall i :: 0 <= i < h - 1 && j <= i + 1 ==> hits[i].None?
  }

  /** The frame holds the outcome `value` promises `plies` later: 1, 0 or -1 for the side to move, and whether it is a
      draw. */
  predicate Carries(f: Frame, value: int, plies: int) {
    && (f.resultQ == 1.0 <==> value == if plies % 2 == 0 then 2 else -2)
    && (f.resultQ == -1.0 <==> value == if plies % 2 == 0 then -2 else 2)
    && (f.resultQ == 1.0 || f.resultQ == 0.0 || f.resultQ == -1.0)
    && f.resultD == if f.resultQ == 0.0 then 1.0 else 0.0
  }

  /** A frame gets the exact outcome of the next position probed, from its own side to move, or keeps its own. */
  ghost predicate FrameExact(t: Tables, boards: seq<Board>, hits: seq<Option<int>>, j: nat, was: Frame, now: Frame)
    requires |hits| < |boards|
  {
    && (forall h: nat :: IsNext(hits, j, h) ==> Carries(now, t.world.value(boards[h]), h - j))
    && ((forall h: nat :: !IsNext(hits, j, h)) ==> now == was)
  }

  lemma ScoreCarries(score: int, value: int, plies: nat)
    requires -1 <= score <= 1 && (score == 1 <==> value == 2) && (score == -1 <==> value == -2)
    ensures Carries(Rewritten(Seen(score, plies)), value, plies)
  {
    SeenParity(score, plies);
  }

  lemma FrameIsExact(t: Tables, boards: seq<Board>, moves: seq<Move>, hits: seq<Option<int>>, was: seq<Frame>, j: nat)
    requires |hits| == |moves| < |boards| && |was| == |hits| + 1 && j < |was| && HitsRight(t, boards, moves, hits)
    ensures FrameExact(t, boards, hits, j, was[j], NewFrame(was, hits, j, |hits|))
  {
    var n := NearestHit(hits, j, |hits|);
    NearestHitIsNearest(hits, j, |hits|);
    if n != -1 {
      assert IsNext(hits, j, n) by {
        forall i | 0 <= i < n - 1 && j <= i + 1 ensures hits[i].None? { assert !IsHit(hits, i + 1); }
      }
      HitAt(t, boards, moves, hits, n - 1);
      ScoreCarries(hits[n - 1].value, t.world.value(boards[n]), n - j);
      forall h: nat | IsNext(hits, j, h) ensures h == n { assert IsHit(hits, h); }
    } else {
      forall h: nat ensures !IsNext(hits, j, h) { assert j <= h <= |hits| ==> !IsHit(hits, h); }
    }
  }

  // ---- the pass ----

  lemma GameIsPlayable(boards: seq<Board>, moves: seq<Move>, i: nat)
    requires IsGame(boards, moves) && Sound(boards[0]) && i < |moves|
    ensures Playable(boards[i], moves[i])
  {
    GameStaysSound(boards, moves, i);
    SoundAfter(boards[i], moves[i]);
  }

  /** The history has come to board `i` of the game. */
  ghost predicate At(history: PositionHistory, boards: seq<Board>, i: nat)
    requires i < |boards|
    reads history
  {
    && history.Valid() && |history.positions| == i + 1
    && history.positions[i].board == boards[i] && history.positions[i].rule50Ply >= 0
  }

  /** One more move of the game. */
  method PlayNext(history: PositionHistory, ghost boards: seq<Board>, moves: seq<Move>, i: nat) returns (p: Position)
    requires IsGame(boards, moves) && Sound(boards[0]) && i < |moves| && At(history, boards, i)
    modifies history
    ensures At(history, boards, i + 1) && p.board == boards[i + 1] && Sound(p.board)
    ensures p.rule50Ply == 0 <==> Zeroing(boards[i], moves[i])
  {
    ghost var was := history.positions[i];
    GameIsPlayable(boards, moves, i);
    GameStaysSound(boards, moves, i + 1);
    history.Append(moves[i]);
    p := history.positions[i + 1];
    assert p.(repetitions := 0, cycleLength := 0) == NextPosition(was, moves[i]);
  }

  /** `no_legal_castle`. */
  predicate NoLegalCastle(c: Castlings) {
    !c.weCan00 && !c.weCan000 && !c.theyCan00 && !c.theyCan000
  }

  /** The score of a position, if it is one to be probed and the probe does not fail. */
  method Probe(p: Position, generate: Board -> seq<Move>, table: Board -> Option<int>, maxPieces: int, ghost w: World)
    returns (hit: Option<int>)
    requires Sound(p.board) && Negamax(w) && GeneratesLegal(generate) && DontCare(w, table)
    ensures HitRight(Tables(table, maxPieces, w), p.board, p.rule50Ply == 0, hit)
  {
    hit := None;
    if NoLegalCastle(p.board.castlings) && p.rule50Ply == 0 && |p.board.ours + p.board.theirs| <= maxPieces {
      var wdl, state := ProbeWdl(generate, table, p.board, w);
      if !state.FAIL? {
        var score := 0;
        if wdl == 2 {
          score := 1;
        } else if wdl == -2 {
          score := -1;
        }
        hit := Some(score);
      }
    }
  }

  /** The hit of the position just reached. */
  method NextHit(p: Position, moves: seq<Move>, hits: seq<Option<int>>, generate: Board -> seq<Move>,
                 table: Board -> Option<int>, maxPieces: int, ghost w: World, ghost boards: seq<Board>)
    returns (now: seq<Option<int>>)
    requires |hits| < |moves| < |boards| && p.board == boards[|hits| + 1] && Sound(p.board)
    requires p.rule50Ply == 0 <==> Zeroing(boards[|hits|], moves[|hits|])
    requires Negamax(w) && GeneratesLegal(generate) && DontCare(w, table)
    requires HitsRight(Tables(table, maxPieces, w), boards, moves, hits)
    ensures |now| == |hits| + 1 && HitsRight(Tables(table, maxPieces, w), boards, moves, now)
  {
    var hit := Probe(p, generate, table, maxPieces, w);
    OneMoreHit(Tables(table, maxPieces, w), boards, moves, hits, hit);
    now := hits + [hit];
  }

  /** One round: play the move and probe. */
  method NextMove(history: PositionHistory, moves: seq<Move>, i: nat, hits: seq<Option<int>>,
                  generate: Board -> seq<Move>, table: Board -> Option<int>, maxPieces: int,
                  ghost w: World, ghost boards: seq<Board>)
    returns (now: seq<Option<int>>)
    requires IsGame(boards, moves) && Sound(boards[0]) && |hits| == i < |moves| && At(history, boards, i)
    requires Negamax(w) && GeneratesLegal(generate) && DontCare(w, table)
    requires HitsRight(Tables(table, maxPieces, w), boards, moves, hits)
    modifies history
    ensures |now| == |hits| + 1 && HitsRight(Tables(table, maxPieces, w), boards, moves, now)
    ensures At(history, boards, i + 1)
  {
    var p := PlayNext(history, boards, moves, i);
    now := NextHit(p, moves, hits, generate, table, maxPieces, w, boards);
  }

  /** Play the game and probe along the way. */
  method ProbeGame(start: Position, moves: seq<Move>, generate: Board -> seq<Move>, table: Board -> Option<int>,
                   maxPieces: int, ghost w: World, ghost boards: seq<Board>)
    returns (hits: seq<Option<int>>)
    requires IsGame(boards, moves) && boards[0] == start.board && Sound(boards[0]) && start.rule50Ply >= 0
    requires Negamax(w) && GeneratesLegal(generate) && DontCare(w, table)
    ensures |hits| == |moves| && Scores(hits) && HitsRight(Tables(table, maxPieces, w), boards, moves, hits)
  {
    ghost var t := Tables(table, maxPieces, w);
    hits := [];
    var history := new PositionHistory(start);
    var i := 0;
    while i < |moves|
      invariant |hits| == i <= |moves| && fresh(history) && At(history, boards, i)
      invariant HitsRight(t, boards, moves, hits)
    {
      hits := NextMove(history, moves, i, hits, generate, table, maxPieces, w, boards);
      i := i + 1;
    }
    RightHitsAreScores(t, boards, moves, hits);
  }

  lemma AllExact(t: Tables, boards: seq<Board>, moves: seq<Move>, hits: seq<Option<int>>, was: seq<Frame>,
                 now: seq<Frame>)
    requires |hits| == |moves| < |boards| && |now| == |was| == |hits| + 1 && HitsRight(t, boards, moves, hits)
    requires forall j :: 0 <= j < |now| ==> now[j] == NewFrame(was, hits, j, |hits|)
    ensures forall i :: 0 <= i < |moves| ==> HitRight(t, boards[i + 1], Zeroing(boards[i], moves[i]), hits[i])
    ensures forall j :: 0 <= j < |now| ==> FrameExact(t, boards, hits, j, was[j], now[j])
  {
    forall i | 0 <= i < |moves| ensures HitRight(t, boards[i + 1], Zeroing(boards[i], moves[i]), hits[i]) {
      HitAt(t, boards, moves, hits, i);
    }
    forall j | 0 <= j < |now| ensures FrameExact(t, boards, hits, j, was[j], now[j]) {
      FrameIsExact(t, boards, moves, hits, was, j);
    }
  }

  /** The first pass. The scores it applies are the exact values of the positions after zeroing moves; every frame then
      carries the score of the nearest hit at or after it, and the counters say how much that changed. The program
      probes and rewrites in one loop; the two halves share nothing but the score. */
  method FirstPass(r: Rescorer, frames: array<Frame>, start: Position, moves: seq<Move>, generate: Board -> seq<Move>,
                   table: Board -> Option<int>, maxPieces: int, ghost w: World, ghost boards: seq<Board>)
    returns (hits: seq<Option<int>>)
    requires IsGame(boards, moves) && boards[0] == start.board && Sound(boards[0]) && start.rule50Ply >= 0
    requires Negamax(w) && GeneratesLegal(generate) && DontCare(w, table)
    requires frames.Length == |moves| + 1 && |r.origCounts| == |r.fixedCounts| == 3
    requires forall j :: 0 <= j < frames.Length ==> Decided(frames[j])
    modifies r, frames
    ensures |hits| == |moves| && Scores(hits) && HitsRight(Tables(table, maxPieces, w), boards, moves, hits)
    ensures forall i :: 0 <= i < |moves| ==>
      HitRight(Tables(table, maxPieces, w), boards[i + 1], Zeroing(boards[i], moves[i]), hits[i])
    ensures forall j :: 0 <= j < frames.Length ==>
      FrameExact(Tables(table, maxPieces, w), boards, hits, j, old(frames[..])[j], frames[j])
    ensures forall j :: 0 <= j < frames.Length ==> frames[j] == NewFrame(old(frames[..]), hits, j, |hits|)
    ensures r.origCounts == Bump(old(r.origCounts), Result(old(frames[0])))
    ensures r.fixedCounts == Bump(old(r.fixedCounts), CountedResult(old(frames[..]), hits, |hits|))
    ensures r.rescored == old(r.rescored) + Changed(old(frames[..]), frames[..], frames.Length)
    ensures r.delta == old(r.delta) + Distance(old(frames[..]), frames[..], frames.Length)
  {
    hits := ProbeGame(start, moves, generate, table, maxPieces, w, boards);
    ghost var was, t := frames[..], Tables(table, maxPieces, w);
    r.FirstPass(frames, hits);
    AllExact(t, boards, moves, hits, was, frames[..]);
  }
}
