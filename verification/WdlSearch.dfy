// The capture search of the Syzygy probe. Tables hold arbitrary low values where a capture is as good as anything, and
// know nothing of en passant; searching the captures repairs them. The argument is independent of the rules of chess,
// which WdlChess.dfy supplies.

module WdlSearch {
  import opened Board

  /** What the search calls. `probe` is the table lookup, which fails when a table is missing. */
  datatype Rules<!P> = Rules(
    moves: P -> seq<Move>, after: (P, Move) -> P,
    capture: (P, Move) -> bool, pawn: (P, Move) -> bool,
    probe: P -> Option<int>)

  /** What is true of the game. `worth` is what a move is worth to the mover. `calm` are the moves of the position as
      the table sees it, without en passant right, and `calmValue` is the value of that position. */
  datatype Truth<!P> = Truth(
    value: P -> int, worth: (P, Move) -> int, calm: (P, Move) -> bool, calmValue: P -> int,
    sound: P -> bool, measure: P -> int)

  datatype ProbeState = FAIL | OK | ZEROING_BEST_MOVE

  /** The moves the search tries: captures, and at the root of a DTZ probe all pawn moves. */
  predicate Tried<P>(r: Rules<P>, p: P, m: Move, zeroing: bool) {
    r.capture(p, m) || (zeroing && r.pawn(p, m))
  }

  // ---- the assumptions ----

  ghost predicate BestMove<P>(r: Rules<P>, t: Truth<P>, p: P) {
    (forall m :: m in r.moves(p) ==> t.worth(p, m) <= t.value(p)) &&
      exists m :: m in r.moves(p) && t.worth(p, m) == t.value(p)
  }

  ghost predicate BestCalm<P>(t: Truth<P>, p: P) {
    (forall m :: t.calm(p, m) ==> t.worth(p, m) <= t.calmValue(p)) &&
      exists m :: t.calm(p, m) && t.worth(p, m) == t.calmValue(p)
  }

  /** A zeroing move is worth the negated value of the next position, which is simpler. */
  ghost predicate ZeroingWorth<P>(r: Rules<P>, t: Truth<P>, p: P, m: Move) {
    && t.sound(r.after(p, m)) && t.measure(r.after(p, m)) < t.measure(p)
    && t.worth(p, m) == -t.value(r.after(p, m))
  }

  /** The value is that of the best move. */
  ghost predicate Right<P>(r: Rules<P>, t: Truth<P>, p: P) {
    && -2 <= t.value(p) <= 2 && t.measure(p) >= 0
    && (r.moves(p) != [] ==> BestMove(r, t, p))
    && (forall m, z :: m in r.moves(p) && Tried(r, p, m, z) ==> ZeroingWorth(r, t, p, m))
  }

  /** What a stored value promises: mate and stalemate are exact; otherwise the value of the position without en passant
      right is stored, unless some capture attains it, when anything not better may be stored. */
  ghost predicate Stored<P>(r: Rules<P>, t: Truth<P>, p: P) {
    && (forall m :: t.calm(p, m) ==> m in r.moves(p))
    && (forall m :: m in r.moves(p) && !r.capture(p, m) ==> t.calm(p, m))
    && ((exists m :: t.calm(p, m)) ==> BestCalm(t, p))
    && (r.probe(p).Some? ==> -2 <= r.probe(p).value <= 2 && StoredValue(r, t, p, r.probe(p).value))
  }

  ghost predicate StoredValue<P>(r: Rules<P>, t: Truth<P>, p: P, v: int) {
    if r.moves(p) == [] then v == t.value(p)
    else if exists m :: CaptureAttains(r, t, p, m) then v <= t.calmValue(p)
    else (exists m :: t.calm(p, m)) ==> v == t.calmValue(p)
  }

  ghost predicate CaptureAttains<P>(r: Rules<P>, t: Truth<P>, p: P, m: Move) {
    t.calm(p, m) && r.capture(p, m) && t.worth(p, m) == t.calmValue(p)
  }

  ghost predicate Fair<P(!new)>(r: Rules<P>, t: Truth<P>) {
    forall p {:trigger t.sound(p)} :: t.sound(p) ==> Right(r, t, p) && Stored(r, t, p)
  }

  // ---- why the search is exact ----

  /** `best` is what the tried moves among those given are worth at most; -2 stands for none. */
  ghost predicate BestOf<P>(r: Rules<P>, t: Truth<P>, p: P, moves: seq<Move>, zeroing: bool, best: int) {
    && best >= -2
    && (forall m :: m in moves && Tried(r, p, m, zeroing) ==> t.worth(p, m) <= best)
    && (best > -2 ==> exists m :: m in moves && Tried(r, p, m, zeroing) && t.worth(p, m) == best)
  }

  ghost predicate AllTried<P>(r: Rules<P>, p: P, moves: seq<Move>, zeroing: bool) {
    moves != [] && forall m :: m in moves ==> Tried(r, p, m, zeroing)
  }

  /** When every legal move was tried, the best of them is the value. */
  lemma AllTriedExact<P>(r: Rules<P>, t: Truth<P>, p: P, zeroing: bool, best: int)
    requires Right(r, t, p) && BestOf(r, t, p, r.moves(p), zeroing, best) && AllTried(r, p, r.moves(p), zeroing)
    ensures best == t.value(p)
  {
    var m :| m in r.moves(p) && t.worth(p, m) == t.value(p);
  }

  /** Otherwise the better of the table and the tried moves is the value: a quiet best move makes the stored value
      exact, and where the stored value is too low a capture that was tried is as good. */
  lemma {:induction false} RepairExact<P>(r: Rules<P>, t: Truth<P>, p: P, zeroing: bool, best: int)
    requires Right(r, t, p) && Stored(r, t, p) && r.probe(p).Some?
    requires BestOf(r, t, p, r.moves(p), zeroing, best) && !AllTried(r, p, r.moves(p), zeroing)
    ensures Max(best, r.probe(p).value) == t.value(p)
  {
    if r.moves(p) != [] {
      var quiet :| quiet in r.moves(p) && !Tried(r, p, quiet, zeroing);
      assert t.calm(p, quiet);
      var top :| t.calm(p, top) && t.worth(p, top) == t.calmValue(p);
      assert top in r.moves(p);
      var m :| m in r.moves(p) && t.worth(p, m) == t.value(p);
      if !Tried(r, p, m, zeroing) {
        assert t.calmValue(p) == t.value(p);
        if c :| CaptureAttains(r, t, p, c) { assert c in r.moves(p) && Tried(r, p, c, zeroing); }
      } else {
        assert best == t.value(p);
      }
    }
  }

  /** A tried move attains the value, and either it wins or there was nothing but tried moves. */
  ghost predicate ZeroingBest<P>(r: Rules<P>, t: Truth<P>, p: P, zeroing: bool) {
    exists m :: m in r.moves(p) && Tried(r, p, m, zeroing) && t.worth(p, m) == t.value(p)
      && (t.value(p) > 0 || forall n :: n in r.moves(p) ==> Tried(r, p, n, zeroing))
  }

  lemma {:induction false} StateExact<P(!new)>(r: Rules<P>, t: Truth<P>, p: P, zeroing: bool, best: int)
    requires Fair(r, t) && t.sound(p) && BestOf(r, t, p, r.moves(p), zeroing, best)
    ensures ZeroingBest(r, t, p, zeroing) <==> best == t.value(p) && (best > 0 || AllTried(r, p, r.moves(p), zeroing))
  {
    if best == t.value(p) && (best > 0 || AllTried(r, p, r.moves(p), zeroing)) {
      var m;
      if best > -2 {
        m :| m in r.moves(p) && Tried(r, p, m, zeroing) && t.worth(p, m) == best;
      } else {
        m := r.moves(p)[0];
        assert m in r.moves(p) && Tried(r, p, m, zeroing) && Right(r, t, p);
        assert ZeroingWorth(r, t, p, m);
        assert t.sound(r.after(p, m));
      }
      assert m in r.moves(p) && Tried(r, p, m, zeroing) && t.worth(p, m) == t.value(p);
    }
  }

  lemma BestStep<P>(r: Rules<P>, t: Truth<P>, p: P, moves: seq<Move>, i: nat, zeroing: bool, best: int)
    requires i < |moves| && BestOf(r, t, p, moves[..i], zeroing, best)
    ensures !Tried(r, p, moves[i], zeroing) ==> BestOf(r, t, p, moves[..i + 1], zeroing, best)
    ensures Tried(r, p, moves[i], zeroing) && t.worth(p, moves[i]) >= -2 ==>
      BestOf(r, t, p, moves[..i + 1], zeroing, Max(best, t.worth(p, moves[i])))
    ensures forall m :: m in moves[..i + 1] <==> m in moves[..i] || m == moves[i]
  {
    assert moves[..i + 1] == moves[..i] + [moves[i]];
    assert moves[i] in moves[..i + 1];
    forall m | m in moves[..i] ensures m in moves[..i + 1] { }
  }

  /** A winning zeroing move ends the search at once. */
  lemma WinFound<P>(r: Rules<P>, t: Truth<P>, p: P, m: Move, zeroing: bool)
    requires Right(r, t, p) && m in r.moves(p) && Tried(r, p, m, zeroing) && t.worth(p, m) >= 2
    ensures t.worth(p, m) == t.value(p) == 2 && ZeroingBest(r, t, p, zeroing)
  {
  }

  // ---- why the search may fail ----

  /** Moves the search tries one after the other; only at the root are pawn moves among them. */
  predicate TriedPath<P>(r: Rules<P>, p: P, zeroing: bool, path: seq<Move>) {
    path == []
    || (path[0] in r.moves(p) && Tried(r, p, path[0], zeroing) && TriedPath(r, r.after(p, path[0]), false, path[1..]))
  }

  function EndOf<P>(r: Rules<P>, p: P, path: seq<Move>): P {
    if path == [] then p else EndOf(r, r.after(p, path[0]), path[1..])
  }

  /** The table of a position that the search can reach is missing. */
  ghost predicate TableMissing<P>(r: Rules<P>, p: P, zeroing: bool) {
    exists path {:trigger TriedPath(r, p, zeroing, path)} ::
      TriedPath(r, p, zeroing, path) && r.probe(EndOf(r, p, path)).None?
  }

  lemma MissingHere<P>(r: Rules<P>, p: P, zeroing: bool)
    requires r.probe(p).None?
    ensures TableMissing(r, p, zeroing)
  {
    assert TriedPath(r, p, zeroing, []) && EndOf(r, p, []) == p;
  }

  lemma MissingBehind<P>(r: Rules<P>, p: P, zeroing: bool, m: Move)
    requires m in r.moves(p) && Tried(r, p, m, zeroing) && TableMissing(r, r.after(p, m), false)
    ensures TableMissing(r, p, zeroing)
  {
    var path :| TriedPath(r, r.after(p, m), false, path) && r.probe(EndOf(r, r.after(p, m), path)).None?;
    var longer := [m] + path;
    assert longer[0] == m && longer[1..] == path;
    assert TriedPath(r, p, zeroing, longer);
  }

  // ---- the search ----

  /** `search`. It fails only if the table of a position it can reach is missing. Otherwise the value is exact, and the
      state tells exactly when a zeroing move is best in the sense above. It ends because every tried move leads to a
      simpler position. */
  method Search<P(!new)>(r: Rules<P>, p: P, zeroing: bool, ghost t: Truth<P>) returns (value: int, state: ProbeState)
    requires Fair(r, t) && t.sound(p)
    ensures state.FAIL? ==> value == 0 && TableMissing(r, p, zeroing)
    ensures !state.FAIL? ==> value == t.value(p)
    ensures !state.FAIL? ==> (state.ZEROING_BEST_MOVE? <==> ZeroingBest(r, t, p, zeroing))
    decreases t.measure(p)
  {
    var moves := r.moves(p);
    var best, count, i := -2, 0, 0;
    while i < |moves|
      invariant 0 <= count <= i <= |moves| && BestOf(r, t, p, moves[..i], zeroing, best) && best < 2
      invariant count == i <==> forall m :: m in moves[..i] ==> Tried(r, p, m, zeroing)
    {
      var m := moves[i];
      assert m in moves;
      BestStep(r, t, p, moves, i, zeroing, best);
      if Tried(r, p, m, zeroing) {
        count := count + 1;
        assert ZeroingWorth(r, t, p, m);
        var v, s := Search(r, r.after(p, m), false, t);
        if s.FAIL? {
          MissingBehind(r, p, zeroing, m);
          return 0, FAIL;
        }
        if -v > best {
          best := -v;
          if -v >= 2 {
            WinFound(r, t, p, m, zeroing);
            return best, ZEROING_BEST_MOVE;
          }
        }
      }
      i := i + 1;
    }
    assert moves[..i] == moves;
    value, state := Judge(r, p, zeroing, best, count > 0 && count == |moves|, t);
  }

  /** `search` after the loop: without other moves the best one decides, otherwise the table has its say. */
  method Judge<P(!new)>(r: Rules<P>, p: P, zeroing: bool, best: int, noMoreMoves: bool, ghost t: Truth<P>)
    returns (value: int, state: ProbeState)
    requires Fair(r, t) && t.sound(p) && BestOf(r, t, p, r.moves(p), zeroing, best)
    requires noMoreMoves <==> AllTried(r, p, r.moves(p), zeroing)
    ensures state.FAIL? ==> value == 0 && TableMissing(r, p, zeroing)
    ensures !state.FAIL? ==> value == t.value(p)
    ensures !state.FAIL? ==> (state.ZEROING_BEST_MOVE? <==> ZeroingBest(r, t, p, zeroing))
  {
    StateExact(r, t, p, zeroing, best);
    if noMoreMoves {
      AllTriedExact(r, t, p, zeroing, best);
      return best, ZEROING_BEST_MOVE;
    }
    var stored := r.probe(p);
    if stored.None? {
      MissingHere(r, p, zeroing);
      return 0, FAIL;
    }
    RepairExact(r, t, p, zeroing, best);
    if best >= stored.value {
      return best, if best > 0 then ZEROING_BEST_MOVE else OK;
    }
    return stored.value, OK;
  }
}
