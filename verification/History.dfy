// `PositionHistory`: appending positions, counting repetitions with early exits, and what the counts mean.

module History {
  import opened Squares
  import opened Board
  import opened Invariants
  import opened Repetition

  /** `Position`: the board with the fifty-move clock, the stored repetition data and the ply count. */
  datatype Position = Position(board: Board, rule50Ply: int, repetitions: int, cycleLength: int, plyCount: int)

  /** The constructor from a parent and a move; repetition data is filled in later. */
  function NextPosition(p: Position, m: Move): Position {
    Position(After(p.board, m), if Zeroing(p.board, m) then 0 else p.rule50Ply + 1, 0, 0, p.plyCount + 1)
  }

  // ---- the reference: scan the whole history ----

  /** How many of the first `k` positions show the board of position `i`. */
  function CountEqual(ps: seq<Position>, i: nat, k: nat): nat
    requires i < |ps| && k <= |ps|
  {
    if k == 0 then 0 else CountEqual(ps, i, k - 1) + if ps[k - 1].board == ps[i].board then 1 else 0
  }

  ghost predicate LatestEqual(ps: seq<Position>, i: nat, j: nat) {
    && j < i < |ps| && ps[j].board == ps[i].board
    && (forall k :: j < k < i ==> ps[k].board != ps[i].board)
  }

  /** The stored data says how often the board appeared before (on top of what the first position already carried)
      and how long ago it last did. */
  ghost predicate RepetitionsExact(ps: seq<Position>, i: nat)
    requires 0 < i < |ps|
  {
    && ps[i].repetitions == CountEqual(ps, i, i) + (if ps[0].board == ps[i].board then ps[0].repetitions else 0)
    && (if CountEqual(ps, i, i) == 0 then ps[i].cycleLength == 0
        else exists j: nat :: LatestEqual(ps, i, j) && ps[i].cycleLength == i - j)
  }

  // ---- runs ----

  ghost predicate Follows(p: Position, q: Position) {
    exists m :: Playable(p.board, m) && q.(repetitions := 0, cycleLength := 0) == NextPosition(p, m)
  }

  ghost predicate IsRun(ps: seq<Position>) {
    && |ps| > 0 && ps[0].rule50Ply >= 0 && WellFormed(ps[0].board)
    && (forall i :: 0 <= i < |ps| - 1 ==> Follows(ps[i], ps[i + 1]))
  }

  // ---- what one ply does, as far as counting is concerned ----

  /** Either a quiet ply (clock up, measure kept) or a zeroing one (clock reset, measure down). */
  ghost predicate Linked(p: Position, q: Position) {
    && q.board.flipped == !p.board.flipped
    && ((q.rule50Ply == p.rule50Ply + 1 && Measure(q.board) == Measure(p.board))
        || (q.rule50Ply == 0 && Measure(q.board) < Measure(p.board)))
  }

  ghost predicate Links(ps: seq<Position>) {
    && |ps| > 0 && ps[0].rule50Ply >= 0
    && (forall i :: 0 <= i < |ps| - 1 ==> Linked(ps[i], ps[i + 1]))
    && (forall i :: 0 <= i < |ps| - 2 ==> ps[i].board != ps[i + 2].board)
  }

  lemma {:induction false} FollowsLinked(p: Position, q: Position)
    requires Follows(p, q)
    ensures WellFormed(q.board) && Linked(p, q)
  {
    var m :| Playable(p.board, m) && q.(repetitions := 0, cycleLength := 0) == NextPosition(p, m);
    AfterWellFormed(p.board, m);
    MeasureAfter(p.board, m);
  }

  lemma {:induction false} MoverLeaves(b: Board, m: Move)
    requires Playable(b, m)
    ensures m.kind.Castle? ==> b.castlings.weCan00 || b.castlings.weCan000
    ensures m.kind.Castle? ==> !After(b, m).castlings.theyCan00 && !After(b, m).castlings.theyCan000
    ensures !m.kind.Castle? ==> m.from in b.ours && m.from.Flip() !in After(b, m).theirs
  {
    FlipFlip(m.from);
  }

  lemma {:induction false} OthersOnlyLose(y: Board, n: Move)
    requires Playable(y, n)
    ensures After(y, n).castlings.weCan00 ==> y.castlings.theyCan00
    ensures After(y, n).castlings.weCan000 ==> y.castlings.theyCan000
    ensures forall s: Square :: s in After(y, n).ours ==> s.Flip() in y.theirs
  {
  }

  /** After one move of each side the first mover's piece is not back, or its castling right is gone. */
  lemma {:induction false} NoRepeatAfterTwo(p: Position, q: Position, r: Position)
    requires Follows(p, q) && Follows(q, r)
    ensures p.board != r.board
  {
    var m :| Playable(p.board, m) && q.(repetitions := 0, cycleLength := 0) == NextPosition(p, m);
    var n :| Playable(q.board, n) && r.(repetitions := 0, cycleLength := 0) == NextPosition(q, n);
    MoverLeaves(p.board, m);
    OthersOnlyLose(q.board, n);
  }

  lemma {:induction false} RunLinks(ps: seq<Position>)
    requires IsRun(ps)
    ensures Links(ps)
  {
    forall i | 0 <= i < |ps| - 1 ensures Linked(ps[i], ps[i + 1]) { FollowsLinked(ps[i], ps[i + 1]); }
    forall i | 0 <= i < |ps| - 2 ensures ps[i].board != ps[i + 2].board {
      assert Follows(ps[i], ps[i + 1]) && Follows(ps[i + 1], ps[i + 1 + 1]);
      NoRepeatAfterTwo(ps[i], ps[i + 1], ps[i + 2]);
    }
  }

  // ---- counting along a run ----

  lemma {:induction false} ClockNonnegative(ps: seq<Position>, i: nat)
    requires Links(ps) && i < |ps|
    ensures ps[i].rule50Ply >= 0
  {
    if i > 0 {
      ClockNonnegative(ps, i - 1);
      assert Linked(ps[i - 1], ps[i - 1 + 1]);
    }
  }

  /** The side to move `plies` later. */
  function Side(side: bool, plies: nat): bool {
    if plies == 0 then side else !Side(side, plies - 1)
  }

  lemma {:induction false} SideParity(side: bool, plies: nat)
    ensures Side(side, plies) == side <==> plies % 2 == 0
  {
    if plies > 0 { SideParity(side, plies - 1); }
  }

  lemma {:induction false} SidesAlternate(ps: seq<Position>, j: nat, i: nat)
    requires Links(ps) && j <= i < |ps|
    ensures ps[i].board.flipped == Side(ps[j].board.flipped, i - j)
    decreases i
  {
    if i > j {
      SidesAlternate(ps, j, i - 1);
      assert Linked(ps[i - 1], ps[i - 1 + 1]);
    }
  }

  /** Along a run the measure never rises, and while it stays the clock counts the plies. */
  lemma {:induction false} AlongRun(ps: seq<Position>, j: nat, i: nat)
    requires Links(ps) && j <= i < |ps|
    ensures Measure(ps[i].board) <= Measure(ps[j].board)
    ensures Measure(ps[i].board) == Measure(ps[j].board) ==> ps[i].rule50Ply == ps[j].rule50Ply + i - j
    decreases i
  {
    if i > j {
      AlongRun(ps, j, i - 1);
      assert Linked(ps[i - 1], ps[i - 1 + 1]);
    }
  }

  lemma {:induction false} ClockSince(ps: seq<Position>, i: nat) returns (j: nat)
    requires Links(ps) && i < |ps|
    ensures j <= i && Measure(ps[j].board) == Measure(ps[i].board)
    ensures j > 0 ==> Measure(ps[j].board) < Measure(ps[j - 1].board)
    ensures ps[i].rule50Ply == i - j + if j == 0 then ps[0].rule50Ply else 0
  {
    j := 0;
    if i > 0 {
      assert Linked(ps[i - 1], ps[i - 1 + 1]);
      j := ClockSince(ps, i - 1);
      if Measure(ps[i].board) < Measure(ps[i - 1].board) { j := i; }
    }
  }

  lemma PlyCounts(p: Position, q: Position)
    requires Follows(p, q)
    ensures q.plyCount == p.plyCount + 1
  {
  }

  lemma {:induction false} PliesCounted(ps: seq<Position>, i: nat)
    requires IsRun(ps) && i < |ps|
    ensures ps[i].plyCount == ps[0].plyCount + i
  {
    if i > 0 {
      assert Follows(ps[i - 1], ps[i - 1 + 1]);
      PlyCounts(ps[i - 1], ps[i]);
      PliesCounted(ps, i - 1);
    }
  }

  /** In a run the ply count goes up by one each time, and the clock shows the plies since the last capture or pawn
      move: the material and pawn measure has not changed since, and it changed then, unless the run began there. */
  lemma ClocksMean(ps: seq<Position>, i: nat) returns (j: nat)
    requires IsRun(ps) && i < |ps|
    ensures ps[i].plyCount == ps[0].plyCount + i
    ensures j <= i && Measure(ps[j].board) == Measure(ps[i].board)
    ensures j > 0 ==> Measure(ps[j].board) < Measure(ps[j - 1].board)
    ensures ps[i].rule50Ply == i - j + if j == 0 then ps[0].rule50Ply else 0
  {
    PliesCounted(ps, i);
    RunLinks(ps);
    j := ClockSince(ps, i);
  }

  /** The clock shows `k - j` quiet plies all along from `j` to `i`. */
  ghost predicate Quiet(ps: seq<Position>, j: nat, i: nat)
    requires i < |ps|
  {
    forall k :: j <= k <= i ==> ps[k].rule50Ply >= k - j
  }

  /** Equal boards are an even number of plies apart, at least four, and the clock shows it all along: the step of
      two, the start at distance four and both clock tests skip nothing. */
  lemma {:induction false} EqualBoardsAreFar(ps: seq<Position>, j: nat, i: nat)
    requires Links(ps) && j < i < |ps| && ps[j].board == ps[i].board
    ensures i - j >= 4 && (i - j) % 2 == 0 && Quiet(ps, j, i)
  {
    SidesAlternate(ps, j, i);
    SideParity(ps[j].board.flipped, i - j);
    ClockNonnegative(ps, j);
    forall k | j <= k <= i ensures ps[k].rule50Ply >= k - j {
      AlongRun(ps, j, k);
      AlongRun(ps, k, i);
    }
    assert i - j != 2 by { assert ps[j].board != ps[j + 2].board || |ps| <= j + 2; }
  }

  /** No position after `idx` and before `n` has the board of position `n`. */
  ghost predicate NoneEqual(ps: seq<Position>, n: nat, idx: int) {
    n < |ps| && forall k {:trigger ps[k]} :: 0 <= k < n && idx < k ==> ps[k].board != ps[n].board
  }

  /** A clock below four means that nothing is repeated. */
  lemma YoungClock(ps: seq<Position>, n: nat)
    requires Links(ps) && n < |ps| && ps[n].rule50Ply < 4
    ensures NoneEqual(ps, n, -1)
  {
    forall k | 0 <= k < n ensures ps[k].board != ps[n].board {
      if ps[k].board == ps[n].board { EqualBoardsAreFar(ps, k, n); }
    }
  }

  /** Positions at an odd distance, or nearer than four plies, are never equal. */
  lemma SkippedDiffer(ps: seq<Position>, n: nat, k: nat)
    requires Links(ps) && k < n < |ps| && ((n - k) % 2 == 1 || n - k < 4)
    ensures ps[k].board != ps[n].board
  {
    if ps[k].board == ps[n].board { EqualBoardsAreFar(ps, k, n); }
  }

  lemma NearDiffer(ps: seq<Position>, n: nat)
    requires Links(ps) && n < |ps|
    ensures NoneEqual(ps, n, n - 4)
  {
    forall k | 0 <= k < n && n - 4 < k ensures ps[k].board != ps[n].board { SkippedDiffer(ps, n, k); }
  }

  lemma OddDiffers(ps: seq<Position>, n: nat, idx: int)
    requires Links(ps) && 0 <= idx < n < |ps| && (n - idx) % 2 == 0
    requires NoneEqual(ps, n, idx) && ps[idx].board != ps[n].board
    ensures NoneEqual(ps, n, idx - 2)
  {
    if idx > 0 { SkippedDiffer(ps, n, idx - 1); }
  }

  /** Below a position whose clock is under two, nothing is equal to a later one at even distance. */
  lemma ClockStops(ps: seq<Position>, n: nat, idx: nat)
    requires Links(ps) && idx < n < |ps| && (n - idx) % 2 == 0 && ps[idx].rule50Ply < 2
    requires NoneEqual(ps, n, idx) && ps[idx].board != ps[n].board
    ensures NoneEqual(ps, n, -1)
  {
    forall k | 0 <= k < idx ensures ps[k].board != ps[n].board {
      if ps[k].board == ps[n].board { EqualBoardsAreFar(ps, k, n); }
    }
  }

  /** The scan, back in steps of two until the clock says that nothing earlier can be equal; -1 if it finds nothing. */
  function Scan(ps: seq<Position>, n: nat, idx: int): (r: int)
    requires idx < n < |ps|
    ensures -1 <= r <= idx || r == -1
    decreases idx + 2
  {
    if idx < 0 then -1
    else if ps[idx].board == ps[n].board then idx
    else if ps[idx].rule50Ply < 2 then -1
    else Scan(ps, n, idx - 2)
  }

  /** It starts at distance four, and not at all while the clock is young. */
  function EarlierEqual(ps: seq<Position>, n: nat): (r: int)
    requires n < |ps|
    ensures -1 <= r < n
  {
    if ps[n].rule50Ply < 4 then -1 else Scan(ps, n, n - 4)
  }

  lemma {:induction false} ScanIsExact(ps: seq<Position>, n: nat, idx: int, rounds: nat)
    requires Links(ps) && n < |ps| && idx == n - 2 * rounds && rounds >= 2 && NoneEqual(ps, n, idx)
    ensures var r := Scan(ps, n, idx); if r >= 0 then LatestEqual(ps, n, r) else NoneEqual(ps, n, -1)
    decreases idx + 2
  {
    if idx >= 0 && ps[idx].board != ps[n].board {
      if ps[idx].rule50Ply < 2 {
        ClockStops(ps, n, idx);
      } else {
        OddDiffers(ps, n, idx);
        ScanIsExact(ps, n, idx - 2, rounds + 1);
      }
    }
  }

  /** The early exits lose nothing: in a run the scan finds the latest equal board, or there is none. */
  lemma {:induction false} EarlierIsExact(ps: seq<Position>, n: nat)
    requires Links(ps) && n < |ps|
    ensures var r := EarlierEqual(ps, n); if r >= 0 then LatestEqual(ps, n, r) else NoneEqual(ps, n, -1)
  {
    if ps[n].rule50Ply < 4 {
      YoungClock(ps, n);
    } else {
      NearDiffer(ps, n);
      ScanIsExact(ps, n, n - 4, 2);
    }
  }

  lemma {:induction false} CountNone(ps: seq<Position>, i: nat, k: nat)
    requires i < |ps| && k <= |ps| && forall j :: 0 <= j < k ==> ps[j].board != ps[i].board
    ensures CountEqual(ps, i, k) == 0
  {
    if k > 0 { CountNone(ps, i, k - 1); }
  }

  lemma {:induction false} CountSplit(ps: seq<Position>, i: nat, j: nat, k: nat)
    requires j < k <= |ps| && i < |ps| && ps[j].board == ps[i].board
    requires forall t :: j < t < k ==> ps[t].board != ps[i].board
    ensures CountEqual(ps, i, k) == 1 + CountEqual(ps, j, j)
  {
    if k > j + 1 {
      CountSplit(ps, i, j, k - 1);
    } else {
      CountSameBoard(ps, i, j, j);
    }
  }

  lemma {:induction false} CountSameBoard(ps: seq<Position>, i: nat, j: nat, k: nat)
    requires i < |ps| && j < |ps| && k <= |ps| && ps[i].board == ps[j].board
    ensures CountEqual(ps, i, k) == CountEqual(ps, j, k)
  {
    if k > 0 { CountSameBoard(ps, i, j, k - 1); }
  }

  /** Counts look only at boards, so filling in the data of the last position changes none of them. */
  lemma {:induction false} CountPrefix(ps: seq<Position>, qs: seq<Position>, i: nat, k: nat)
    requires k <= |ps| <= |qs| && i < |ps|
    requires forall t :: 0 <= t < |ps| ==> ps[t].board == qs[t].board
    ensures CountEqual(ps, i, k) == CountEqual(qs, i, k)
  {
    if k > 0 { CountPrefix(ps, qs, i, k - 1); }
  }

  lemma {:induction false} CountIsCardinality(ps: seq<Position>, i: nat, k: nat)
    requires i < |ps| && k <= |ps|
    ensures CountEqual(ps, i, k) == |set j | 0 <= j < k && ps[j].board == ps[i].board|
  {
    var s := set j | 0 <= j < k && ps[j].board == ps[i].board;
    if k == 0 {
      assert s == {};
    } else {
      CountIsCardinality(ps, i, k - 1);
      var t := set j | 0 <= j < k - 1 && ps[j].board == ps[i].board;
      assert s == if ps[k - 1].board == ps[i].board then t + {k - 1} else t;
    }
  }

  function WithCounts(ps: seq<Position>, repetitions: int, cycleLength: int): seq<Position>
    requires |ps| > 0
  {
    ps[|ps| - 1 := ps[|ps| - 1].(repetitions := repetitions, cycleLength := cycleLength)]
  }

  lemma {:induction false} NothingEqual(ps: seq<Position>, n: nat)
    requires |ps| == n + 1 && n > 0 && forall k :: 0 <= k < n ==> ps[k].board != ps[n].board
    ensures RepetitionsExact(WithCounts(ps, 0, 0), n)
  {
    CountNone(WithCounts(ps, 0, 0), n, n);
  }

  lemma {:induction false} FoundEqual(ps: seq<Position>, n: nat, j: nat)
    requires |ps| == n + 1 && LatestEqual(ps, n, j) && (j > 0 ==> RepetitionsExact(ps, j))
    ensures RepetitionsExact(WithCounts(ps, 1 + ps[j].repetitions, n - j), n)
  {
    var qs := WithCounts(ps, 1 + ps[j].repetitions, n - j);
    CountSplit(qs, n, j, n);
    CountPrefix(ps, qs, j, j);
    assert LatestEqual(qs, n, j);
  }

  lemma CountIsExact(ps: seq<Position>, n: nat, idx: int, repetitions: int, cycleLength: int)
    requires |ps| == n + 1 && n > 0 && ExactBelow(ps, n)
    requires idx < 0 ==> NoneEqual(ps, n, -1) && repetitions == cycleLength == 0
    requires idx >= 0 ==> LatestEqual(ps, n, idx) && repetitions == 1 + ps[idx].repetitions && cycleLength == n - idx
    ensures RepetitionsExact(WithCounts(ps, repetitions, cycleLength), n)
  {
    if idx < 0 { NothingEqual(ps, n); } else { FoundEqual(ps, n, idx); }
  }

  /** In a run whose earlier data is exact, what follows from the scan is exact. */
  lemma EarlierCounts(ps: seq<Position>, n: nat, repetitions: int, cycleLength: int)
    requires |ps| == n + 1 && n > 0
    requires var j := EarlierEqual(ps, n); (repetitions, cycleLength) == if j >= 0 then (1 + ps[j].repetitions, n - j)
      else (0, 0)
    ensures Links(ps) && ExactBelow(ps, n) ==> RepetitionsExact(WithCounts(ps, repetitions, cycleLength), n)
  {
    if Links(ps) && ExactBelow(ps, n) {
      EarlierIsExact(ps, n);
      CountIsExact(ps, n, EarlierEqual(ps, n), repetitions, cycleLength);
    }
  }

  /** Data stored earlier stays exact when positions are appended. */
  lemma {:induction false} ExactPrefix(ps: seq<Position>, qs: seq<Position>, i: nat)
    requires 0 < i < |ps| <= |qs| && RepetitionsExact(ps, i)
    requires forall t :: 0 <= t < |ps| ==> ps[t].board == qs[t].board
    requires ps[i] == qs[i] && ps[0] == qs[0]
    ensures RepetitionsExact(qs, i)
  {
    CountPrefix(ps, qs, i, i);
    if j: nat :| LatestEqual(ps, i, j) && ps[i].cycleLength == i - j { assert LatestEqual(qs, i, j); }
  }

  /** A history as the program keeps it: a run whose stored counts are exact. */
  ghost predicate ExactHistory(ps: seq<Position>) {
    IsRun(ps) && forall i :: 0 < i < |ps| ==> RepetitionsExact(ps, i)
  }

  predicate ClockRunsAfter(ps: seq<Position>, k: int)
    requires 0 <= k < |ps|
  {
    forall t :: k < t < |ps| ==> ps[t].rule50Ply != 0
  }

  lemma {:induction false} RunExtends(ps: seq<Position>, q: Position)
    requires IsRun(ps) && Follows(ps[|ps| - 1], q)
    ensures IsRun(ps + [q])
  {
    var qs := ps + [q];
    forall i | 0 <= i < |ps| ensures Follows(qs[i], qs[i + 1]) {
      if i < |ps| - 1 { assert Follows(ps[i], ps[i + 1]); }
    }
  }

  lemma {:induction false} ExactExtends(ps: seq<Position>, q: Position)
    requires ExactHistory(ps) && Follows(ps[|ps| - 1], q) && RepetitionsExact(ps + [q], |ps|)
    ensures ExactHistory(ps + [q])
  {
    RunExtends(ps, q);
    forall i | 0 < i < |ps| ensures RepetitionsExact(ps + [q], i) { ExactPrefix(ps, ps + [q], i); }
  }

  lemma {:induction false} ExactInPrefix(ps: seq<Position>, size: nat, i: nat)
    requires 0 < i < size <= |ps| && RepetitionsExact(ps, i)
    ensures RepetitionsExact(ps[..size], i)
  {
    var qs := ps[..size];
    CountPrefix(qs, ps, i, i);
    if CountEqual(ps, i, i) != 0 {
      var j: nat :| LatestEqual(ps, i, j) && ps[i].cycleLength == i - j;
      assert LatestEqual(qs, i, j);
    }
  }

  lemma {:induction false} RunShortens(ps: seq<Position>, size: nat)
    requires IsRun(ps) && 0 < size <= |ps|
    ensures IsRun(ps[..size])
  {
    var qs := ps[..size];
    forall i | 0 <= i < size - 1 ensures Follows(qs[i], qs[i + 1]) { assert Follows(ps[i], ps[i + 1]); }
  }

  lemma {:induction false} ExactShortens(ps: seq<Position>, size: nat)
    requires ExactHistory(ps) && 0 < size <= |ps|
    ensures ExactHistory(ps[..size])
  {
    RunShortens(ps, size);
    forall i | 0 < i < size ensures RepetitionsExact(ps[..size], i) { ExactInPrefix(ps, size, i); }
  }

  lemma FollowsNext(p: Position, m: Move, q: Position)
    requires Playable(p.board, m) && q == NextPosition(p, m)
    ensures Follows(p, q)
  {
  }

  ghost predicate ExactBelow(ps: seq<Position>, n: nat)
    requires n <= |ps|
  {
    forall i :: 0 < i < n ==> RepetitionsExact(ps, i)
  }

  /** Right after the push the links hold and the earlier data is exact: what the count may rely on. */
  lemma {:induction false} ReadyToCount(ps: seq<Position>, q: Position)
    requires ExactHistory(ps) && Follows(ps[|ps| - 1], q)
    ensures Links(ps + [q]) && ExactBelow(ps + [q], |ps|)
  {
    RunExtends(ps, q);
    RunLinks(ps + [q]);
    forall i | 0 < i < |ps| ensures RepetitionsExact(ps + [q], i) { ExactPrefix(ps, ps + [q], i); }
  }

  lemma {:induction false} Counted(ps: seq<Position>, q: Position, qs: seq<Position>, repetitions: int,
                                   cycleLength: int)
    requires ExactHistory(ps) && Follows(ps[|ps| - 1], q)
    requires qs == WithCounts(ps + [q], repetitions, cycleLength) && RepetitionsExact(qs, |ps|)
    ensures ExactHistory(qs) && qs == ps + [q.(repetitions := repetitions, cycleLength := cycleLength)]
  {
    var r := q.(repetitions := repetitions, cycleLength := cycleLength);
    assert qs == ps + [r];
    assert Follows(ps[|ps| - 1], r);
    ExactExtends(ps, r);
  }

  // ---- why the clock must not start below zero ----

  /** Bare kings on the first and last rank, seen by the side to move. */
  function BareKings(ours: int, theirs: int, flipped: bool): Board {
    Board({Sq(ours, 0)}, {Sq(theirs, 7)}, {}, {}, {}, Sq(ours, 0), Sq(theirs, 7),
      Castlings(0, 0, 7, 7, false, false, false, false), flipped)
  }

  lemma KingSteps(x: int, z: int, y: int, flipped: bool)
    requires 3 <= x <= 4 && 3 <= z <= 4 && 3 <= y <= 4 && x != z
    ensures var b, m := BareKings(x, y, flipped), Move(Sq(x, 0), Sq(z, 0), Plain);
      Playable(b, m) && After(b, m) == BareKings(y, z, !flipped) && !Zeroing(b, m)
  {
    var b, m := BareKings(x, y, flipped), Move(Sq(x, 0), Sq(z, 0), Plain);
    assert forall c :: !Checks(b, m.to, c);
    assert Play(b, m).ours == {Sq(z, 0)} && Play(b, m).theirs == {Sq(y, 7)};
    assert FlipSet({Sq(z, 0)}) == {Sq(z, 7)} && FlipSet({Sq(y, 7)}) == {Sq(y, 0)} && FlipSet({}) == {};
  }

  function KingsAt(ours: int, theirs: int, flipped: bool, clock: int, ply: int): Position {
    Position(BareKings(ours, theirs, flipped), clock + ply, 0, 0, ply)
  }

  lemma KingStepFollows(x: int, z: int, y: int, flipped: bool, clock: int, ply: int)
    requires 3 <= x <= 4 && 3 <= z <= 4 && 3 <= y <= 4 && x != z
    ensures Follows(KingsAt(x, y, flipped, clock, ply), KingsAt(y, z, !flipped, clock, ply + 1))
  {
    KingSteps(x, z, y, flipped);
    FollowsNext(KingsAt(x, y, flipped, clock, ply), Move(Sq(x, 0), Sq(z, 0), Plain),
      KingsAt(y, z, !flipped, clock, ply + 1));
  }

  /** The first board comes back as the fifth, and the clock is too young for the scan to look. */
  lemma FirstComesBack(p: Position, q: Position, r: Position, s: Position, t: Position)
    requires t.board == p.board && q.board != t.board && r.board != t.board && s.board != t.board && t.rule50Ply < 4
    ensures CountEqual([p, q, r, s, t], 4, 4) == 1 && EarlierEqual([p, q, r, s, t], 4) == -1
  {
    var ps := [p, q, r, s, t];
    assert CountEqual(ps, 4, 1) == CountEqual(ps, 4, 0) + 1;
    assert CountEqual(ps, 4, 3) == CountEqual(ps, 4, 2) == CountEqual(ps, 4, 1);
  }

  /** Both kings step aside and back. */
  lemma KingsWalk(clock: int) returns (p: Position, q: Position, r: Position, s: Position, t: Position)
    ensures p.rule50Ply == clock && t.rule50Ply == clock + 4 && WellFormed(p.board)
    ensures Follows(p, q) && Follows(q, r) && Follows(r, s) && Follows(s, t)
    ensures t.board == p.board && q.board != t.board && r.board != t.board && s.board != t.board
  {
    p, q, r := KingsAt(4, 4, false, clock, 0), KingsAt(4, 3, true, clock, 1), KingsAt(3, 3, false, clock, 2);
    s, t := KingsAt(3, 4, true, clock, 3), KingsAt(4, 4, false, clock, 4);
    KingStepFollows(4, 3, 4, false, clock, 0);
    KingStepFollows(4, 3, 3, true, clock, 1);
    KingStepFollows(3, 4, 3, false, clock, 2);
    KingStepFollows(3, 4, 4, true, clock, 3);
  }

  /** Every negative clock at the start, which a FEN may give, loses a repetition: after both kings have stepped aside
      and back the board has appeared once before, but the clock is below 4, and the scan reports nothing. */
  lemma NegativeClockMissesRepetition(clock: int)
    returns (p: Position, q: Position, r: Position, s: Position, t: Position)
    requires clock < 0
    ensures p.rule50Ply == clock && WellFormed(p.board)
    ensures Follows(p, q) && Follows(q, r) && Follows(r, s) && Follows(s, t)
    ensures CountEqual([p, q, r, s, t], 4, 4) == 1 && EarlierEqual([p, q, r, s, t], 4) == -1
  {
    p, q, r, s, t := KingsWalk(clock);
    FirstComesBack(p, q, r, s, t);
  }

  // ---- the class ----

  class PositionHistory {
    var positions: seq<Position>

    ghost predicate Valid()
      reads this
    {
      ExactHistory(positions)
    }

    /** `Reset(const Position&)`; `Reset(board, rule50, ply)` is the case of a fresh position. */
    constructor (start: Position)
      requires WellFormed(start.board) && start.rule50Ply >= 0
      ensures Valid() && positions == [start]
    {
      positions := [start];
    }

    method Reset(start: Position)
      requires WellFormed(start.board) && start.rule50Ply >= 0
      modifies this
      ensures Valid() && positions == [start]
    {
      positions := [start];
    }

    /** `ComputeLastMoveRepetitions`, called with the new last position already appended. In a run what it returns is
        what a scan of the whole history would find. */
    method ComputeLastMoveRepetitions() returns (repetitions: int, cycleLength: int)
      requires |positions| > 1
      ensures var n, j := |positions| - 1, EarlierEqual(positions, |positions| - 1);
        (repetitions, cycleLength) == if j >= 0 then (1 + positions[j].repetitions, n - j) else (0, 0)
      ensures Links(positions) && ExactBelow(positions, |positions| - 1) ==>
        RepetitionsExact(WithCounts(positions, repetitions, cycleLength), |positions| - 1)
    {
      var n, ps := |positions| - 1, positions;
      var idx := FindEarlier();
      if idx >= 0 {
        repetitions, cycleLength := 1 + ps[idx].repetitions, n - idx;
      } else {
        repetitions, cycleLength := 0, 0;
      }
      EarlierCounts(ps, n, repetitions, cycleLength);
    }

    /** Its scan. */
    method FindEarlier() returns (idx: int)
      requires |positions| > 1
      ensures idx == EarlierEqual(positions, |positions| - 1)
    {
      var n, ps := |positions| - 1, positions;
      if ps[n].rule50Ply < 4 { return -1; }
      idx := n - 4;
      while idx >= 0
        invariant idx <= n - 4 && Scan(ps, n, idx) == Scan(ps, n, n - 4)
      {
        if ps[idx].board == ps[n].board { return; }
        if ps[idx].rule50Ply < 2 { return -1; }
        idx := idx - 2;
      }
      return -1;
    }

    /** `Append`: the new position carries exact repetition data and nothing else changes. */
    method Append(m: Move)
      requires Valid() && Playable(positions[|positions| - 1].board, m)
      modifies this
      ensures Valid()
      ensures |positions| == |old(positions)| + 1 && positions[..|old(positions)|] == old(positions)
      ensures positions[|old(positions)|].(repetitions := 0, cycleLength := 0) ==
        NextPosition(old(positions[|positions| - 1]), m)
    {
      ghost var before := positions;
      var n := |positions|;
      var next := NextPosition(positions[n - 1], m);
      FollowsNext(positions[n - 1], m, next);
      ReadyToCount(positions, next);
      positions := positions + [next];
      var repetitions, cycleLength := ComputeLastMoveRepetitions();
      positions := positions[n := positions[n].(repetitions := repetitions, cycleLength := cycleLength)];
      Counted(before, next, positions, repetitions, cycleLength);
    }

    /** `Trim` (and `Pop`, which drops one position): what is left is still an exact history. */
    method Trim(size: nat)
      requires Valid() && 0 < size <= |positions|
      modifies this
      ensures Valid() && positions == old(positions)[..size]
    {
      ExactShortens(positions, size);
      positions := positions[..size];
    }

    /** `DidRepeatSinceLastZeroingMove`: some position not older than the last zeroing move repeats an earlier one. */
    method DidRepeatSinceLastZeroingMove() returns (r: bool)
      requires |positions| > 0
      ensures r <==> exists k :: 0 <= k < |positions| && positions[k].repetitions > 0 && ClockRunsAfter(positions, k)
    {
      var i := |positions|;
      while i > 0
        invariant 0 <= i <= |positions|
        invariant forall t :: i <= t < |positions| ==> positions[t].repetitions <= 0 && positions[t].rule50Ply != 0
      {
        i := i - 1;
        if positions[i].repetitions > 0 { return true; }
        if positions[i].rule50Ply == 0 { return false; }
      }
      return false;
    }
  }
}
