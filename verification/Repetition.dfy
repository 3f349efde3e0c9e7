// The history of a game: clocks, early-exit repetition counting, and why the shortcuts lose nothing.

module Repetition {
  import opened Squares
  import opened Board
  import opened Invariants

  // ---- a measure that only zeroing moves lower ----

  /** Ranks a pawn still has to walk. */
  function PawnWalk(s: Square, ours: bool): int {
    if ours then 7 - s.rank else s.rank
  }

  ghost function Walk(x: set<Square>, ours: bool): int {
    if x == {} then 0 else var s :| s in x; PawnWalk(s, ours) + Walk(x - {s}, ours)
  }

  lemma {:induction false} WalkWithout(x: set<Square>, ours: bool, s: Square)
    requires s in x
    ensures Walk(x, ours) == PawnWalk(s, ours) + Walk(x - {s}, ours)
  {
    var t :| t in x && Walk(x, ours) == PawnWalk(t, ours) + Walk(x - {t}, ours);
    if t != s {
      WalkWithout(x - {t}, ours, s);
      WalkWithout(x - {s}, ours, t);
      assert x - {t} - {s} == x - {s} - {t};
    }
  }

  lemma {:induction false} WalkWith(x: set<Square>, ours: bool, s: Square)
    requires s !in x
    ensures Walk(x + {s}, ours) == PawnWalk(s, ours) + Walk(x, ours)
  {
    WalkWithout(x + {s}, ours, s);
    assert x + {s} - {s} == x;
  }

  lemma {:induction false} WalkFlip(x: set<Square>, ours: bool)
    ensures Walk(FlipSet(x), !ours) == Walk(x, ours) && |FlipSet(x)| == |x|
    decreases |x|
  {
    if x == {} {
      assert FlipSet(x) == {};
    } else {
      var s :| s in x;
      WalkWithout(x, ours, s);
      WalkFlip(x - {s}, ours);
      assert FlipSet(x) == FlipSet(x - {s}) + {s.Flip()} && s.Flip() !in FlipSet(x - {s}) by {
        forall t: Square ensures (t.Flip() == s) == (t == s.Flip()) { FlipFlip(t); }
      }
      WalkWith(FlipSet(x - {s}), !ours, s.Flip());
    }
  }

  ghost function OurPawns(b: Board): set<Square> { RealPawns(b) * b.ours }

  ghost function TheirPawns(b: Board): set<Square> { RealPawns(b) * b.theirs }

  /** Men on the board plus the ranks all pawns still have to walk. */
  ghost function Measure(b: Board): int {
    |b.ours| + |b.theirs| + Walk(OurPawns(b), true) + Walk(TheirPawns(b), false)
  }

  lemma FlippedMeet(x: set<Square>, y: set<Square>)
    ensures FlipSet(x * y) == FlipSet(x) * FlipSet(y)
  {
  }

  lemma FlippedPawns(b: Board)
    ensures RealPawns(Mirrored(b)) == FlipSet(RealPawns(b))
  {
    forall s: Square ensures InPawnMask(s.Flip()) == InPawnMask(s) { FlipFlip(s); }
  }

  lemma {:induction false} MeasureMirrored(b: Board)
    ensures Measure(Mirrored(b)) == Measure(b)
  {
    WalkFlip(b.ours, true);
    WalkFlip(b.theirs, true);
    WalkFlip(OurPawns(b), true);
    WalkFlip(TheirPawns(b), false);
    FlippedPawns(b);
    FlippedMeet(RealPawns(b), b.ours);
    FlippedMeet(RealPawns(b), b.theirs);
  }

  /** A pseudolegal move that does not take the king. */
  ghost predicate Playable(b: Board, m: Move) {
    WellFormed(b) && Pseudolegal(b, m) && m.to != b.theirKing
  }

  lemma CardReplaced(x: set<Square>, gone: set<Square>, come: set<Square>)
    requires gone <= x && |come| == |gone| && come !! (x - gone)
    ensures |x - gone + come| == |x|
  {
    assert |x - gone| == |x| - |gone|;
    assert |x - gone + come| == |x - gone| + |come|;
  }

  lemma {:induction false} OurMenKept(b: Board, m: Move)
    requires Playable(b, m)
    ensures |Play(b, m).ours| == |b.ours|
  {
    if m.kind.Castle? {
      CastleSquares(b, m);
      CardReplaced(b.ours, {m.from, m.to}, {KingTarget(m), RookTarget(m)});
    } else {
      assert m.to !in b.ours && Play(b, m).ours == b.ours - {m.from} + {m.to};
      CardReplaced(b.ours, {m.from}, {m.to});
    }
  }

  /** At most one man of theirs disappears; the others and their pawns stay. */
  lemma CapturedAtMostOne(b: Board, m: Move) returns (c: Square)
    requires Playable(b, m)
    ensures Captured(b, m) == {} || (Captured(b, m) == {c} && c in b.theirs)
    ensures Play(b, m).theirs == b.theirs - Captured(b, m)
    ensures TheirPawns(Play(b, m)) == TheirPawns(b) - Captured(b, m)
  {
    c := if m.kind.EnPassant? then Sq(m.to.file, 4) else m.to;
    if m.kind.Castle? { CastleSquares(b, m); }
    assert TheirPawns(Play(b, m)) == TheirPawns(b) - Captured(b, m);
  }

  lemma {:induction false} TheirMenAfter(b: Board, m: Move)
    requires Playable(b, m)
    ensures |Play(b, m).theirs| == |b.theirs| - if Captured(b, m) == {} then 0 else 1
    ensures Walk(TheirPawns(Play(b, m)), false) <= Walk(TheirPawns(b), false)
    ensures Captured(b, m) == {} ==> Walk(TheirPawns(Play(b, m)), false) == Walk(TheirPawns(b), false)
  {
    var c := CapturedAtMostOne(b, m);
    var pawns := TheirPawns(b);
    if Captured(b, m) == {} {
      assert b.theirs - Captured(b, m) == b.theirs && pawns - Captured(b, m) == pawns;
    } else if c in pawns {
      WalkWithout(pawns, false, c);
    } else {
      assert pawns - {c} == pawns;
    }
  }

  lemma {:induction false} OurPawnsAfter(b: Board, m: Move)
    requires Playable(b, m)
    ensures m.from in RealPawns(b) ==> Walk(OurPawns(Play(b, m)), true) < Walk(OurPawns(b), true)
    ensures m.from !in RealPawns(b) ==> OurPawns(Play(b, m)) == OurPawns(b)
  {
    var q, old' := OurPawns(Play(b, m)), OurPawns(b);
    if m.kind.Castle? { CastleSquares(b, m); }
    if m.from in RealPawns(b) {
      WalkWithout(old', true, m.from);
      if m.kind.Promote? {
        assert q == old' - {m.from};
      } else {
        assert q == old' - {m.from} + {m.to};
        WalkWith(old' - {m.from}, true, m.to);
      }
    } else {
      assert q == old';
    }
  }

  /** Captures and pawn moves lower the measure, all other moves keep it. */
  lemma {:induction false} MeasureAfter(b: Board, m: Move)
    requires Playable(b, m)
    ensures if Zeroing(b, m) then Measure(After(b, m)) < Measure(b) else Measure(After(b, m)) == Measure(b)
  {
    OurMenKept(b, m);
    TheirMenAfter(b, m);
    OurPawnsAfter(b, m);
    MeasureMirrored(Play(b, m));
  }
}
