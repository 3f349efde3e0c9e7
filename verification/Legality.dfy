// The fast legality test (pins, attack lines, double check) against "make the move and look for check".

module Legality {
  import opened Squares
  import opened Board

  // ---- what the king attack scan computes ----

  /** Their slider `k` steps towards `d` would check our king but for our single piece `j` steps away. */
  ghost predicate PinnedOn(b: Board, p: Square, d: Direction, j: int, k: int) {
    && 1 <= j < k && p == Step(b.ourKing, d, j) && p in b.ours
    && Step(b.ourKing, d, k) in b.theirs && Slides(b, Step(b.ourKing, d, k), d)
    && (forall i :: 1 <= i < k && i != j ==> Step(b.ourKing, d, i) !in Occupied(b))
  }

  ghost predicate Pinned(b: Board, p: Square) {
    exists d, j, k :: PinnedOn(b, p, d, j, k)
  }

  /** The squares that answer a check by the piece on `c`: capture it or step in between. */
  ghost predicate OnLine(s: Square, c: Square, t: Square) {
    t == c || exists d, k, i :: 1 <= i < k && c == Step(s, d, k) && t == Step(s, d, i)
  }

  ghost predicate OnAttackLine(b: Board, t: Square) {
    exists c :: Checks(b, b.ourKing, c) && OnLine(b.ourKing, c, t)
  }

  /** The way a checker is counted: one class for each ray, one for all pawns, one for all knights. */
  datatype CheckClass = Ray(d: Direction) | PawnClass | KnightClass

  ghost predicate InClass(b: Board, g: CheckClass, c: Square) {
    match g
    case Ray(d) => exists k :: c == Step(b.ourKing, d, k) && SliderChecks(b, b.ourKing, d, k)
    case PawnClass => PawnChecks(b, b.ourKing, c)
    case KnightClass => KnightChecks(b, b.ourKing, c)
  }

  ghost predicate ClassChecks(b: Board, g: CheckClass) {
    exists c :: InClass(b, g, c)
  }

  function One(p: bool): int { if p then 1 else 0 }

  function CountClasses(p: CheckClass -> bool): int {
    One(p(Ray(N))) + One(p(Ray(S))) + One(p(Ray(E))) + One(p(Ray(W)))
    + One(p(Ray(NE))) + One(p(Ray(NW))) + One(p(Ray(SE))) + One(p(Ray(SW)))
    + One(p(PawnClass)) + One(p(KnightClass))
  }

  /** `num_king_attackers`: every checking ray counts, all pawns count as one and all knights count as one. */
  ghost function AttackerCount(b: Board): int {
    CountClasses((g: CheckClass) => ClassChecks(b, g))
  }

  datatype KingAttackInfo = KingAttackInfo(doubleCheck: bool, pinned: set<Square>, attackLines: set<Square>)

  ghost predicate Describes(info: KingAttackInfo, b: Board) {
    && (forall s :: s in info.pinned <==> Pinned(b, s))
    && (forall s :: s in info.attackLines <==> OnAttackLine(b, s))
    && (info.doubleCheck <==> AttackerCount(b) == 2)
  }

  /** The cross-product test at the end of `IsLegalMove`. */
  predicate StaysInLine(king: Square, from: Square, to: Square) {
    var dxFrom, dyFrom := from.file - king.file, from.rank - king.rank;
    var dxTo, dyTo := to.file - king.file, to.rank - king.rank;
    if dxFrom == 0 || dxTo == 0 then dxFrom == dxTo else dxFrom * dyTo == dxTo * dyFrom
  }

  /** `ChessBoard::IsLegalMove`. */
  ghost predicate IsLegalMove(b: Board, m: Move, info: KingAttackInfo) {
    if m.kind.EnPassant? then !InCheck(Play(b, m))
    else if info.attackLines != {} then
      if m.from == b.ourKing then !InCheck(Play(b, m))
      else m.from !in info.pinned && !info.doubleCheck && m.to in info.attackLines
    else if m.from == b.ourKing then
      !m.kind.Castle? || !InCheck(Play(b, m))
    else m.from !in info.pinned || StaysInLine(b.ourKing, m.from, m.to)
  }

  // ---- moving one piece of ours ----

  /** Everything a king-safety argument needs to know about a move that is neither the king's nor en passant. */
  predicate Relocated(b: Board, a: Board, m: Move) {
    && a.ourKing == b.ourKing && a.theirKing == b.theirKing
    && a.theirs == b.theirs - {m.to} && a.ours == b.ours - {m.from} + {m.to}
    && (forall s {:trigger s in a.theirs} :: s in a.theirs ==> SameKind(b, a, s))
  }

  predicate SameKind(b: Board, a: Board, s: Square) {
    && (s in a.rooks <==> s in b.rooks) && (s in a.bishops <==> s in b.bishops)
    && (InPawnMask(s) ==> (s in a.pawns <==> s in b.pawns))
  }

  lemma KindKept(b: Board, a: Board, m: Move, c: Square)
    requires Relocated(b, a, m) && c in b.theirs && c != m.to
    ensures c in a.theirs && SameKind(b, a, c)
  {
  }

  ghost predicate PieceMove(b: Board, m: Move) {
    Pseudolegal(b, m) && m.from != b.ourKing && !m.kind.EnPassant?
  }

  lemma PlayRelocates(b: Board, m: Move)
    requires WellFormed(b) && PieceMove(b, m)
    ensures Relocated(b, Play(b, m), m)
  {
  }

  // ---- lines of check ----

  /** Between the king and a checker there is nothing, and only a line piece has a "between". */
  lemma BetweenIsOpen(b: Board, s: Square, c: Square, d: Direction, k: int, i: int)
    requires Checks(b, s, c) && c == Step(s, d, k) && 1 <= i < k
    ensures SliderChecks(b, s, d, k) && Step(s, d, i) !in Occupied(b)
  {
    if e, l :| c == Step(s, e, l) && SliderChecks(b, s, e, l) {
      StepInjective(s, d, k, e, l);
    } else if KnightChecks(b, s, c) {
      KnightLeavesLine(s, d, 1, k);
    }
  }

  /** No single square answers two checks. */
  lemma {:induction false} LinesOfCheckDisjoint(b: Board, s: Square, c1: Square, c2: Square, t: Square)
    requires Checks(b, s, c1) && Checks(b, s, c2) && OnLine(s, c1, t) && OnLine(s, c2, t)
    ensures c1 == c2
  {
    if t != c1 && t != c2 {
      var d, k, i :| 1 <= i < k && c1 == Step(s, d, k) && t == Step(s, d, i);
      var e, l, j :| 1 <= j < l && c2 == Step(s, e, l) && t == Step(s, e, j);
      StepInjective(s, d, i, e, j);
      if k < l { BetweenIsOpen(b, s, c2, d, l, k); }
      if l < k { BetweenIsOpen(b, s, c1, d, k, l); }
    } else if t != c1 {
      var d, k, i :| 1 <= i < k && c1 == Step(s, d, k) && t == Step(s, d, i);
      BetweenIsOpen(b, s, c1, d, k, i);
    } else if t != c2 {
      var d, k, i :| 1 <= i < k && c2 == Step(s, d, k) && t == Step(s, d, i);
      BetweenIsOpen(b, s, c2, d, k, i);
    }
  }

  /** A check outlasts a move of another piece unless the move lands on its line. */
  lemma {:induction false} CheckPersists(b: Board, a: Board, m: Move, c: Square)
    requires WellFormed(b) && Relocated(b, a, m) && Checks(b, b.ourKing, c) && !OnLine(b.ourKing, c, m.to)
    ensures Checks(a, a.ourKing, c)
  {
    KindKept(b, a, m, c);
    if d, k :| c == Step(b.ourKing, d, k) && SliderChecks(b, b.ourKing, d, k) {
      forall i | 1 <= i < k ensures Step(b.ourKing, d, i) !in Occupied(a) {
        assert Step(b.ourKing, d, i) !in Occupied(b) && Step(b.ourKing, d, i) != m.to;
      }
      assert SliderChecks(a, b.ourKing, d, k);
    }
  }

  /** A pinned piece that leaves the pin ray uncovers the check. */
  lemma {:induction false} PinUncovered(b: Board, a: Board, m: Move, d: Direction, j: int, k: int)
    requires WellFormed(b) && Relocated(b, a, m) && PinnedOn(b, m.from, d, j, k) && !OnRay(b.ourKing, d, k, m.to)
    ensures Checks(a, a.ourKing, Step(b.ourKing, d, k))
  {
    KindKept(b, a, m, Step(b.ourKing, d, k));
    forall i | 1 <= i < k ensures Step(b.ourKing, d, i) !in Occupied(a) {
      assert i != j ==> Step(b.ourKing, d, i) !in Occupied(b);
      if i != j { StepInjective(b.ourKing, d, 1, d, 1); }
    }
    assert SliderChecks(a, b.ourKing, d, k);
  }

  /** A check after the move was one before, not answered, or comes from an uncovered pin. */
  lemma {:induction false} WhereChecksComeFrom(b: Board, a: Board, m: Move, c: Square)
    requires WellFormed(b) && Relocated(b, a, m) && m.from in b.ours && Checks(a, a.ourKing, c)
    ensures || (Checks(b, b.ourKing, c) && !OnLine(b.ourKing, c, m.to))
            || exists d, j, k ::
                 PinnedOn(b, m.from, d, j, k) && c == Step(b.ourKing, d, k) && !OnRay(b.ourKing, d, k, m.to)
  {
    var s := b.ourKing;
    if d, k :| c == Step(s, d, k) && SliderChecks(a, s, d, k) {
      forall i | 1 <= i < k
        ensures Step(s, d, i) != m.to && (Step(s, d, i) in Occupied(b) ==> Step(s, d, i) == m.from)
      {
        assert Step(s, d, i) !in Occupied(a);
      }
      assert !OnRay(s, d, k, m.to);
      if j :| 1 <= j < k && Step(s, d, j) == m.from {
        forall i | 1 <= i < k && i != j ensures Step(s, d, i) !in Occupied(b) { StepInjective(s, d, i, d, i); }
        assert PinnedOn(b, m.from, d, j, k);
      } else {
        assert SliderChecks(b, s, d, k);
        NotOnLine(s, d, k, m.to);
      }
    } else {
      assert Checks(b, s, c);
      if d, k, i :| 1 <= i < k && c == Step(s, d, k) && m.to == Step(s, d, i) {
        BetweenIsOpen(a, s, c, d, k, i);
      }
    }
  }

  lemma NotOnLine(s: Square, d: Direction, k: int, t: Square)
    requires k >= 1 && !OnRay(s, d, k, t)
    ensures !OnLine(s, Step(s, d, k), t)
  {
    assert t != Step(s, d, k);
    if e, l, i :| 1 <= i < l && Step(s, d, k) == Step(s, e, l) && t == Step(s, e, i) {
      StepInjective(s, d, k, e, l);
    }
  }

  // ---- piece moves ----

  /** A piece other than the king moves along an open line or jumps like a knight. */
  lemma PieceMoveGeometry(b: Board, m: Move)
    requires WellFormed(b) && PieceMove(b, m)
    ensures m.to !in b.ours
    ensures KnightJump(m.from, m.to)
         || exists d, k :: k >= 1 && m.to == Step(m.from, d, k) && Clear(Occupied(b), m.from, d, k)
  {
    if m.from !in b.rooks && m.from !in b.bishops && m.from in RealPawns(b) {
      var k := m.to.rank - m.from.rank;
      var d := if m.to.file == m.from.file then N else if m.to.file > m.from.file then NE else NW;
      assert m.to == Step(m.from, d, k) && Clear(Occupied(b), m.from, d, k) by {
        if k == 2 { assert Step(m.from, N, 1) == Sq(m.from.file, 2); }
      }
    }
  }

  lemma {:induction false} InLineIsOnLine(king: Square, d: Direction, j: int, to: Square)
    requires j >= 1 && StaysInLine(king, Step(king, d, j), to)
    ensures exists i :: to == Step(king, d, i)
  {
    var x, y := to.file - king.file, to.rank - king.rank;
    assert j * y == j * x || j * y == -(j * x) || j * y == 0 || x == 0;
    CancelFactor(j, x, y);
    var i := if x != 0 then x else y;
    assert to == Step(king, d, i) || to == Step(king, d, -i);
  }

  /** The cross product decides whether both squares lie on one line through the king. */
  lemma {:induction false} InLineMeansSameLine(king: Square, d: Direction, j: int, to: Square)
    requires j >= 1 && to != king
    ensures StaysInLine(king, Step(king, d, j), to) <==> exists i :: to == Step(king, d, i)
  {
    if StaysInLine(king, Step(king, d, j), to) { InLineIsOnLine(king, d, j, to); }
    if i :| to == Step(king, d, i) {
      assert j * i == i * j && j * (-i) == -(j * i) && (-j) * i == -(j * i) && (-j) * (-i) == j * i;
    }
  }

  lemma CancelFactor(j: int, x: int, y: int)
    requires j >= 1
    ensures j * y == x * j ==> x == y
    ensures j * y == x * (-j) ==> x == -y
    ensures (-j) * y == x * j ==> x == -y
    ensures (-j) * y == x * (-j) ==> x == y
    ensures j * y == x * 0 ==> y == 0
    ensures (-j) * y == x * 0 ==> y == 0
  {
  }

  lemma SlideIsBounded(occupied: set<Square>, s: Square, d: Direction, j: int, k: int, e: Direction, l: int, i: int)
    requires 1 <= j < k && l >= 1 && Step(Step(s, d, j), e, l) == Step(s, d, i) != s &&
      Clear(occupied, Step(s, d, j), e, l)
    requires s in occupied && Step(s, d, k) in occupied
    ensures 1 <= i <= k
  {
    LinesMeetOnce(s, d, j, e, l, i);
    StepStep(s, d, j, k - j);
    StepStep(s, d, j, j);
    if e == d {
      assert k - j < l ==> Step(Step(s, d, j), e, k - j) !in occupied;
    } else {
      assert j < l ==> Step(Step(s, d, j), e, j) !in occupied;
    }
  }

  /** Along the pin line the piece stops at the pinner on one side and before its king on the other. */
  lemma {:induction false} PinLineIsBounded(b: Board, m: Move, d: Direction, j: int, k: int, i: int)
    requires WellFormed(b) && PieceMove(b, m) && PinnedOn(b, m.from, d, j, k) && m.to == Step(b.ourKing, d, i)
    ensures 1 <= i <= k
  {
    PieceMoveGeometry(b, m);
    KnightLeavesLine(b.ourKing, d, j, i);
    var e, l :| l >= 1 && m.to == Step(m.from, e, l) && Clear(Occupied(b), m.from, e, l);
    SlideIsBounded(Occupied(b), b.ourKing, d, j, k, e, l, i);
  }

  lemma {:induction false} InLineStaysOnRay(b: Board, m: Move, d: Direction, j: int, k: int)
    requires WellFormed(b) && PieceMove(b, m) && PinnedOn(b, m.from, d, j, k)
    ensures StaysInLine(b.ourKing, m.from, m.to) <==> OnRay(b.ourKing, d, k, m.to)
  {
    PieceMoveGeometry(b, m);
    InLineMeansSameLine(b.ourKing, d, j, m.to);
    if StaysInLine(b.ourKing, m.from, m.to) {
      var i :| m.to == Step(b.ourKing, d, i);
      PinLineIsBounded(b, m, d, j, k, i);
    }
  }

  lemma {:induction false} PinnedNeverResolvesCheck(b: Board, m: Move, c: Square)
    requires WellFormed(b) && PieceMove(b, m) && Pinned(b, m.from) && Checks(b, b.ourKing, c)
    ensures InCheck(Play(b, m))
  {
    var s, a := b.ourKing, Play(b, m);
    PlayRelocates(b, m);
    var d, j, k :| PinnedOn(b, m.from, d, j, k);
    if !OnLine(s, c, m.to) {
      CheckPersists(b, a, m, c);
    } else if i :| 1 <= i <= k && Step(s, d, i) == m.to {
      if m.to == c {
        if i == k { BetweenIsOpen(b, s, c, d, k, j); }
      } else {
        var e, l, n :| 1 <= n < l && c == Step(s, e, l) && m.to == Step(s, e, n);
        StepInjective(s, d, i, e, n);
        if l > j { BetweenIsOpen(b, s, c, d, l, j); }
      }
    } else {
      PinUncovered(b, a, m, d, j, k);
    }
  }

  lemma {:induction false} DoubleCheckNeedsKing(b: Board, m: Move, c1: Square, c2: Square)
    requires WellFormed(b) && PieceMove(b, m)
    requires c1 != c2 && Checks(b, b.ourKing, c1) && Checks(b, b.ourKing, c2)
    ensures InCheck(Play(b, m))
  {
    PlayRelocates(b, m);
    if OnLine(b.ourKing, c1, m.to) && OnLine(b.ourKing, c2, m.to) {
      LinesOfCheckDisjoint(b, b.ourKing, c1, c2, m.to);
    } else if !OnLine(b.ourKing, c1, m.to) {
      CheckPersists(b, Play(b, m), m, c1);
    } else {
      CheckPersists(b, Play(b, m), m, c2);
    }
  }

  /** The reference answer for a piece move: every check is answered and no pin is broken. */
  lemma {:induction false} PieceMoveSafe(b: Board, m: Move)
    requires WellFormed(b) && PieceMove(b, m) && !Near(b.theirKing, b.ourKing)
    ensures !InCheck(Play(b, m)) <==>
      && (forall c :: Checks(b, b.ourKing, c) ==> OnLine(b.ourKing, c, m.to))
      && (forall d, j, k :: PinnedOn(b, m.from, d, j, k) ==> OnRay(b.ourKing, d, k, m.to))
  {
    var a := Play(b, m);
    PlayRelocates(b, m);
    if c :| Checks(b, b.ourKing, c) && !OnLine(b.ourKing, c, m.to) {
      CheckPersists(b, a, m, c);
    }
    if d, j, k :| PinnedOn(b, m.from, d, j, k) && !OnRay(b.ourKing, d, k, m.to) {
      PinUncovered(b, a, m, d, j, k);
    }
    if c :| Checks(a, a.ourKing, c) {
      WhereChecksComeFrom(b, a, m, c);
    }
  }

  // ---- king moves ----

  /** A line that reaches the king's target after the step was open before it, or reached the king. */
  lemma {:induction false} KingOnRay(b: Board, a: Board, to: Square, d: Direction, k: int)
    requires SliderChecks(a, to, d, k) && Step(to, d, k) in b.theirs && Step(to, d, k) != b.theirKing &&
      SameKind(b, a, Step(to, d, k))
    requires forall i {:trigger Step(to, d, i)} ::
      1 <= i < k && Step(to, d, i) in Occupied(b) ==> Step(to, d, i) == b.ourKing || Step(to, d, i) in Occupied(a)
    ensures SliderChecks(b, to, d, k) || Checks(b, b.ourKing, Step(to, d, k))
  {
    forall i | 1 <= i < k && Step(to, d, i) != b.ourKing ensures Step(to, d, i) !in Occupied(b) {
      assert Step(to, d, i) !in Occupied(a);
    }
    if j :| 1 <= j < k && Step(to, d, j) == b.ourKing {
      forall i | 1 <= i < k - j ensures Step(b.ourKing, d, i) !in Occupied(b) {
        StepStep(to, d, j, i);
        assert Step(to, d, j + i) !in Occupied(a);
      }
      StepStep(to, d, j, k - j);
      assert SliderChecks(b, b.ourKing, d, k - j);
    }
  }

  /** Not in check: a king step already screened with the king on its old square stays safe. */
  lemma {:induction false} KingStepSafe(b: Board, m: Move)
    requires WellFormed(b) && Pseudolegal(b, m) && m.from == b.ourKing && m.kind.Plain? &&
      forall c :: !Checks(b, b.ourKing, c)
    ensures !InCheck(Play(b, m))
  {
    var a := Play(b, m);
    if c :| Checks(a, m.to, c) {
      assert c in b.theirs && c != m.to && SameKind(b, a, c);
      if d, k :| c == Step(m.to, d, k) && SliderChecks(a, m.to, d, k) { KingOnRay(b, a, m.to, d, k); }
      assert Checks(b, m.to, c);
    }
  }

  // ---- counting attackers ----

  ghost predicate TwoCheckers(b: Board) {
    exists c1, c2 :: c1 != c2 && Checks(b, b.ourKing, c1) && Checks(b, b.ourKing, c2)
  }

  lemma CountAtLeastTwo(p: CheckClass -> bool, g: CheckClass, h: CheckClass)
    requires g != h && p(g) && p(h)
    ensures CountClasses(p) >= 2
  {
    AllClasses(g);
    AllClasses(h);
  }

  lemma AllClasses(g: CheckClass)
    ensures g in {Ray(N), Ray(S), Ray(E), Ray(W), Ray(NE), Ray(NW), Ray(SE), Ray(SW), PawnClass, KnightClass}
  {
    if g.Ray? {
      match g.d {
        case N => case S => case E => case W => case NE => case NW => case SE => case SW =>
      }
    }
  }

  lemma CountIsTwo(p: CheckClass -> bool) returns (g: CheckClass, h: CheckClass)
    requires CountClasses(p) == 2
    ensures g != h && p(g) && p(h)
  {
    g, h :| g != h && p(g) && p(h);
  }

  /** A piece gives check in one way only. */
  lemma OneClassEach(b: Board, g: CheckClass, h: CheckClass, c: Square)
    requires WellFormed(b) && InClass(b, g, c) && InClass(b, h, c)
    ensures g == h
  {
    if g.Ray? && h.Ray? {
      var k :| c == Step(b.ourKing, g.d, k) && SliderChecks(b, b.ourKing, g.d, k);
      var l :| c == Step(b.ourKing, h.d, l) && SliderChecks(b, b.ourKing, h.d, l);
      StepInjective(b.ourKing, g.d, k, h.d, l);
    }
  }

  lemma SingleInRay(b: Board, d: Direction, c1: Square, c2: Square)
    requires InClass(b, Ray(d), c1) && InClass(b, Ray(d), c2)
    ensures c1 == c2
  {
    var k :| c1 == Step(b.ourKing, d, k) && SliderChecks(b, b.ourKing, d, k);
    var l :| c2 == Step(b.ourKing, d, l) && SliderChecks(b, b.ourKing, d, l);
    assert k == l;
  }

  lemma ClassWitness(b: Board, g: CheckClass) returns (c: Square)
    requires ClassChecks(b, g)
    ensures InClass(b, g, c) && Checks(b, b.ourKing, c)
  {
    c :| InClass(b, g, c);
  }

  lemma {:induction false} CountTwoMeansTwoCheckers(b: Board)
    requires WellFormed(b) && AttackerCount(b) == 2
    ensures TwoCheckers(b)
  {
    var g, h := CountIsTwo((g: CheckClass) => ClassChecks(b, g));
    var c1 := ClassWitness(b, g);
    var c2 := ClassWitness(b, h);
    if c1 == c2 { OneClassEach(b, g, h, c1); }
  }

  lemma ClassOf(b: Board, c: Square) returns (g: CheckClass)
    requires Checks(b, b.ourKing, c)
    ensures InClass(b, g, c)
  {
    if d, k :| c == Step(b.ourKing, d, k) && SliderChecks(b, b.ourKing, d, k) {
      g := Ray(d);
    } else {
      g := if PawnChecks(b, b.ourKing, c) then PawnClass else KnightClass;
    }
  }

  /** The situation the counter is built for: at most one checking pawn and at most one checking knight. */
  ghost predicate SingleLeapers(b: Board) {
    && (forall c1, c2 :: PawnChecks(b, b.ourKing, c1) && PawnChecks(b, b.ourKing, c2) ==> c1 == c2)
    && (forall c1, c2 :: KnightChecks(b, b.ourKing, c1) && KnightChecks(b, b.ourKing, c2) ==> c1 == c2)
  }

  lemma {:induction false} TwoCheckersCountTwo(b: Board)
    requires WellFormed(b) && TwoCheckers(b) && SingleLeapers(b)
    ensures AttackerCount(b) >= 2
  {
    var c1, c2 :| c1 != c2 && Checks(b, b.ourKing, c1) && Checks(b, b.ourKing, c2);
    var g := ClassOf(b, c1);
    var h := ClassOf(b, c2);
    if g == h && g.Ray? { SingleInRay(b, g.d, c1, c2); }
    assert g != h && ClassChecks(b, g) && ClassChecks(b, h);
    CountAtLeastTwo((g: CheckClass) => ClassChecks(b, g), g, h);
  }

  // ---- the main results ----

  /** The family of moves the fast test gets wrong while the kings are apart: several checkers that the counter does
      not report as a double check, and an unpinned piece landing on one of the lines. */
  ghost predicate MissedMultipleCheck(b: Board, m: Move, info: KingAttackInfo) {
    && PieceMove(b, m) && m.from !in info.pinned && m.to in info.attackLines
    && !info.doubleCheck && TwoCheckers(b)
  }

  /** The other family, on boards no game reaches: the scan does not look for the other king, so the test approves piece
      moves while the kings touch. */
  ghost predicate MissedKing(b: Board, m: Move, info: KingAttackInfo) {
    PieceMove(b, m) && Near(b.theirKing, b.ourKing) && IsLegalMove(b, m, info)
  }

  lemma AttackLinesMeanChecks(b: Board, info: KingAttackInfo)
    requires Describes(info, b)
    ensures info.attackLines != {} <==> exists c :: Checks(b, b.ourKing, c)
  {
    if c :| Checks(b, b.ourKing, c) { assert OnLine(b.ourKing, c, c) && c in info.attackLines; }
    if t :| t in info.attackLines { assert OnAttackLine(b, t); }
  }

  /** For every well-formed board and every pseudolegal move, the fast test answers "does this move leave our king
      unattacked" correctly except exactly on the two families above. */
  lemma {:induction false} LegalityExact(b: Board, m: Move, info: KingAttackInfo)
    requires WellFormed(b) && Pseudolegal(b, m) && Describes(info, b)
    ensures (IsLegalMove(b, m, info) <==> !InCheck(Play(b, m))) <==>
      !(if Near(b.theirKing, b.ourKing) then MissedKing(b, m, info) else MissedMultipleCheck(b, m, info))
  {
    AttackLinesMeanChecks(b, info);
    if m.from == b.ourKing {
      if m.kind.Plain? && info.attackLines == {} { KingStepSafe(b, m); }
    } else if !m.kind.EnPassant? {
      if Near(b.theirKing, b.ourKing) { PlayRelocates(b, m); } else { PieceLegalityExact(b, m, info); }
    }
  }

  lemma {:induction false} PieceLegalityExact(b: Board, m: Move, info: KingAttackInfo)
    requires WellFormed(b) && !Near(b.theirKing, b.ourKing) && PieceMove(b, m) && Describes(info, b)
    ensures (IsLegalMove(b, m, info) <==> !InCheck(Play(b, m))) <==> !MissedMultipleCheck(b, m, info)
  {
    AttackLinesMeanChecks(b, info);
    PieceMoveSafe(b, m);
    if InCheck(b) {
      PieceMoveInCheck(b, m, info);
    } else if Pinned(b, m.from) {
      var d, j, k :| PinnedOn(b, m.from, d, j, k);
      InLineStaysOnRay(b, m, d, j, k);
      forall e, i, l | PinnedOn(b, m.from, e, i, l) ensures e == d && i == j && l == k {
        StepInjective(b.ourKing, d, j, e, i);
      }
    }
  }

  lemma {:induction false} PieceMoveInCheck(b: Board, m: Move, info: KingAttackInfo)
    requires WellFormed(b) && !Near(b.theirKing, b.ourKing) && PieceMove(b, m) && Describes(info, b) && InCheck(b)
    ensures !InCheck(Play(b, m)) <==> m.from !in info.pinned && m.to in info.attackLines && !TwoCheckers(b)
    ensures info.doubleCheck ==> TwoCheckers(b)
  {
    PieceMoveSafe(b, m);
    var c :| Checks(b, b.ourKing, c);
    if m.from in info.pinned { PinnedNeverResolvesCheck(b, m, c); }
    if TwoCheckers(b) {
      var c1, c2 :| c1 != c2 && Checks(b, b.ourKing, c1) && Checks(b, b.ourKing, c2);
      DoubleCheckNeedsKing(b, m, c1, c2);
    }
    if info.doubleCheck { CountTwoMeansTwoCheckers(b); }
  }

  /** The condition the source asserts while scanning (at most two counted attackers), with no two pawns and no two
      knights among them, makes the fast test exact for every pseudolegal move. */
  lemma {:induction false} LegalityCorrect(b: Board, m: Move, info: KingAttackInfo)
    requires WellFormed(b) && !Near(b.theirKing, b.ourKing) && Pseudolegal(b, m) && Describes(info, b)
    requires AttackerCount(b) <= 2 && SingleLeapers(b)
    ensures IsLegalMove(b, m, info) <==> Legal(b, m)
  {
    LegalityExact(b, m, info);
    if TwoCheckers(b) { TwoCheckersCountTwo(b); }
  }

  // ---- a board the counter is not built for ----

  /** Our king e1 and rook d1 against the king h8 and two knights that both give check, on d3 and f3. */
  const TWO_KNIGHTS := Board(
    {Sq(4, 0), Sq(3, 0)}, {Sq(7, 7), Sq(3, 2), Sq(5, 2)}, {Sq(3, 0)}, {}, {},
    Sq(4, 0), Sq(7, 7), Castlings(0, 0, 7, 7, false, false, false, false), false)

  const ROOK_TAKES_KNIGHT := Move(Sq(3, 0), Sq(3, 2), Plain)

  lemma NoSliders(b: Board)
    requires b.theirs !! b.rooks && b.theirs !! b.bishops
    ensures forall d :: !ClassChecks(b, Ray(d))
    ensures forall p :: !Pinned(b, p)
  {
    forall d, k ensures !SliderChecks(b, b.ourKing, d, k) {
      assert Step(b.ourKing, d, k) in b.theirs ==> !Slides(b, Step(b.ourKing, d, k), d);
    }
    forall p, d, j, k ensures !PinnedOn(b, p, d, j, k) {
      assert Step(b.ourKing, d, k) in b.theirs ==> !Slides(b, Step(b.ourKing, d, k), d);
    }
  }

  lemma TwoKnightsCountOne()
    ensures AttackerCount(TWO_KNIGHTS) == 1 && !Pinned(TWO_KNIGHTS, Sq(3, 0)) && OnAttackLine(TWO_KNIGHTS, Sq(3, 2))
  {
    var b := TWO_KNIGHTS;
    NoSliders(b);
    assert InClass(b, KnightClass, Sq(3, 2)) && ClassChecks(b, KnightClass) && !ClassChecks(b, PawnClass);
    assert Checks(b, b.ourKing, Sq(3, 2)) && OnLine(b.ourKing, Sq(3, 2), Sq(3, 2));
  }

  lemma RookMayTake()
    ensures WellFormed(TWO_KNIGHTS) && Pseudolegal(TWO_KNIGHTS, ROOK_TAKES_KNIGHT)
  {
    assert Sq(3, 2) == Step(Sq(3, 0), N, 2) && Clear(Occupied(TWO_KNIGHTS), Sq(3, 0), N, 2);
    assert LineMove(TWO_KNIGHTS, Sq(3, 0), Sq(3, 2));
  }

  /** The two knights count as one attacker, so capturing one of them passes for legal; the other still gives check. */
  lemma {:induction false} TwoKnightsMissed(info: KingAttackInfo)
    requires Describes(info, TWO_KNIGHTS)
    ensures WellFormed(TWO_KNIGHTS) && !Near(TWO_KNIGHTS.theirKing, TWO_KNIGHTS.ourKing)
    ensures Pseudolegal(TWO_KNIGHTS, ROOK_TAKES_KNIGHT) && IsLegalMove(TWO_KNIGHTS, ROOK_TAKES_KNIGHT, info)
    ensures InCheck(Play(TWO_KNIGHTS, ROOK_TAKES_KNIGHT))
  {
    TwoKnightsCountOne();
    RookMayTake();
    assert Checks(Play(TWO_KNIGHTS, ROOK_TAKES_KNIGHT), Sq(4, 0), Sq(5, 2));
  }
}
