// What every move of a game keeps: disjoint piece sets, uncapturable kings, backed castling rights and en passant
// flags, and never more checkers than the attack scan can count.

module Invariants {
  import opened Squares
  import opened Board
  import opened Legality

  // ---- turning the board round ----

  /** En passant flags as the mover sees them, before the board is turned. */
  predicate OwnFlagsBacked(p: Board) {
    && (forall s :: s in p.pawns && !InPawnMask(s) ==> OwnFlagBacked(p, s))
    && (forall s, t :: s in p.pawns && t in p.pawns && !InPawnMask(s) && !InPawnMask(t) ==> s == t)
  }

  predicate OwnFlagBacked(p: Board, s: Square) {
    && s.rank == 0 && 0 <= s.file < 8
    && Sq(s.file, 3) in p.ours && Sq(s.file, 3) in p.pawns
    && Sq(s.file, 2) !in Occupied(p)
  }

  lemma FlipFlip(s: Square)
    ensures s.Flip().Flip() == s && (s.Flip().OnBoard() <==> s.OnBoard()) && (InPawnMask(s.Flip()) <==> InPawnMask(s))
  {
  }

  lemma MirrorMirror(b: Board)
    ensures Mirrored(Mirrored(b)) == b
  {
    forall x: set<Square> ensures FlipSet(FlipSet(x)) == x {
      assert forall s: Square :: s.Flip().Flip() == s;
    }
  }

  lemma MirrorKeepsPieces(p: Board)
    requires PiecesDisjoint(p) && KingsPlaced(p)
    ensures PiecesDisjoint(Mirrored(p)) && KingsPlaced(Mirrored(p))
  {
    forall s: Square ensures s.Flip().Flip() == s { FlipFlip(s); }
    assert forall s: Square :: s in RealPawns(Mirrored(p)) <==> s.Flip() in RealPawns(p);
  }

  lemma MirrorKeepsRights(p: Board)
    requires CastlingsBacked(p)
    ensures CastlingsBacked(Mirrored(p))
  {
    forall f ensures Sq(f, 0).Flip() == Sq(f, 7) && Sq(f, 7).Flip() == Sq(f, 0) { }
  }

  lemma MirrorKeepsFlags(p: Board)
    requires OwnFlagsBacked(p)
    ensures FlagsBacked(Mirrored(p))
  {
    var b := Mirrored(p);
    forall s | s in b.pawns && !InPawnMask(s) ensures FlagBacked(b, s) {
      assert OwnFlagBacked(p, s.Flip());
      assert Sq(s.file, 4).Flip() == Sq(s.file, 3) && Sq(s.file, 5).Flip() == Sq(s.file, 2);
    }
    forall s, t | s in b.pawns && t in b.pawns && !InPawnMask(s) && !InPawnMask(t) ensures s == t {
      assert s.Flip() == t.Flip();
    }
  }

  // ---- one move ----

  /** What a castling move looks like once its conditions are met. */
  predicate CastleShape(b: Board, m: Move) {
    && m.kind.Castle? && m.from == b.ourKing
    && m.to in b.ours && m.to in b.rooks && m.to !in b.bishops && m.to != m.from && m.from.rank == 0 && m.to.rank == 0
    && (KingTarget(m) == m.from || KingTarget(m) == m.to || KingTarget(m) !in Occupied(b))
    && (RookTarget(m) == m.from || RookTarget(m) == m.to || RookTarget(m) !in Occupied(b))
  }

  lemma CastleSquares(b: Board, m: Move)
    requires WellFormed(b) && Pseudolegal(b, m) && m.kind.Castle?
    ensures CastleShape(b, m) && m.to != b.theirKing
  {
  }

  lemma PlayKeepsPieces(b: Board, m: Move)
    requires WellFormed(b) && Pseudolegal(b, m) && m.to != b.theirKing
    ensures PiecesDisjoint(Play(b, m)) && KingsPlaced(Play(b, m))
  {
    if m.kind.Castle? { CastleSquares(b, m); }
  }

  lemma PlayKeepsRights(b: Board, m: Move)
    requires WellFormed(b) && Pseudolegal(b, m) && m.to != b.theirKing
    ensures CastlingsBacked(Play(b, m))
  {
    if m.kind.Castle? { CastleSquares(b, m); }
  }

  lemma PlayKeepsFlags(b: Board, m: Move)
    requires WellFormed(b) && Pseudolegal(b, m) && m.to != b.theirKing
    ensures OwnFlagsBacked(Play(b, m))
  {
  }

  lemma {:induction false} AfterWellFormed(b: Board, m: Move)
    requires WellFormed(b) && Pseudolegal(b, m) && m.to != b.theirKing
    ensures WellFormed(After(b, m))
  {
    PlayKeepsPieces(b, m);
    PlayKeepsRights(b, m);
    PlayKeepsFlags(b, m);
    MirrorKeepsPieces(Play(b, m));
    MirrorKeepsRights(Play(b, m));
    MirrorKeepsFlags(Play(b, m));
  }

  // ---- the opponent's king ----

  /** A line from `from` to `to` is a line of checks once the board is turned. */
  lemma SlideTurned(b: Board, from: Square, to: Square, d: Direction, k: int)
    requires WellFormed(b) && from in b.ours && to == b.theirKing
    requires k >= 1 && to == Step(from, d, k) && Slides(b, from, d) && Clear(Occupied(b), from, d, k)
    ensures SliderChecks(Mirrored(b), to.Flip(), FlipDirection(Opposite(d)), k)
    ensures from.Flip() == Step(to.Flip(), FlipDirection(Opposite(d)), k)
  {
    var x, s, e := Mirrored(b), to.Flip(), FlipDirection(Opposite(d));
    forall j ensures Step(s, e, j).Flip() == Step(from, d, k - j) {
      StepStep(from, d, k, j);
      StepFlip(Step(from, d, k), Opposite(d), j);
      FlipFlip(Step(to, Opposite(d), j));
    }
    FlipFlip(Step(s, e, k));
    forall j | 1 <= j < k ensures Step(s, e, j) !in Occupied(x) { assert Step(from, d, k - j) !in Occupied(b); }
  }

  /** "Their" king seen from here is attacked exactly as "our" king is after turning the board: a move that could take
      it means the opponent is in check. */
  lemma {:induction false} CaptureMeansCheck(b: Board, m: Move)
    requires WellFormed(b) && Pseudolegal(b, m) && m.to == b.theirKing
    ensures InCheck(Mirrored(b))
  {
    var x := Mirrored(b);
    FlipFlip(m.from);
    FlipFlip(m.to);
    if m.from in b.rooks || m.from in b.bishops {
      var d, k :| k >= 1 && m.to == Step(m.from, d, k) && Slides(b, m.from, d) && Clear(Occupied(b), m.from, d, k);
      SlideTurned(b, m.from, m.to, d, k);
    }
    assert Checks(x, m.to.Flip(), m.from.Flip());
  }

  // ---- how many checkers a move can leave ----

  /** A board of a game: well formed, the side that just moved is not in check, and the attack scan can count. */
  ghost predicate Sound(b: Board) {
    WellFormed(b) && !InCheck(Mirrored(b)) && AttackerCount(b) <= 2 && SingleLeapers(b)
  }

  /** The squares a move empties without refilling them. */
  function Vacated(b: Board, m: Move): set<Square> {
    match m.kind
    case Castle => {m.from, m.to}
    case EnPassant => {m.from, Sq(m.to.file, 4)}
    case _ => {m.from}
  }

  function Arrivals(m: Move): set<Square> {
    if m.kind.Castle? then {KingTarget(m), RookTarget(m)} else {m.to}
  }

  lemma {:induction false} UnmovedByCastling(b: Board, m: Move, c: Square)
    requires WellFormed(b) && Pseudolegal(b, m) && m.kind.Castle?
    requires c in After(b, m).theirs && c.Flip() !in Arrivals(m)
    ensures c in Mirrored(b).theirs && SameKind(Mirrored(b), After(b, m), c)
    ensures c == Mirrored(b).theirKing <==> c == After(b, m).theirKing
  {
    CastleSquares(b, m);
    FlipFlip(c);
    var t, p := c.Flip(), Play(b, m);
    assert t in p.ours && t in b.ours && t != m.from && t != m.to && t != KingTarget(m) && t != RookTarget(m);
    assert (t in p.rooks <==> t in b.rooks) && (t in p.bishops <==> t in b.bishops);
    assert InPawnMask(t) ==> (t in p.pawns <==> t in b.pawns);
  }

  lemma {:induction false} UnmovedKeepsKind(b: Board, m: Move, c: Square)
    requires WellFormed(b) && Pseudolegal(b, m) && m.to != b.theirKing
    requires c in After(b, m).theirs && c.Flip() !in Arrivals(m)
    ensures c in Mirrored(b).theirs && SameKind(Mirrored(b), After(b, m), c)
    ensures c == Mirrored(b).theirKing <==> c == After(b, m).theirKing
  {
    if m.kind.Castle? {
      UnmovedByCastling(b, m, c);
    } else {
      FlipFlip(c);
    }
  }

  lemma {:induction false} OnlyVacatedOpens(b: Board, m: Move, s: Square)
    requires WellFormed(b) && Pseudolegal(b, m) && m.to != b.theirKing
    requires s in Occupied(Mirrored(b)) && s.Flip() !in Vacated(b, m)
    ensures s in Occupied(After(b, m))
  {
    if m.kind.Castle? { CastleSquares(b, m); }
    FlipFlip(s);
  }

  /** The checker on `c` looks along a line through one of the squares in `vacated`. */
  ghost predicate Discovered(y: Board, c: Square, vacated: set<Square>) {
    exists d, j, k :: 1 <= j < k && c == Step(y.ourKing, d, k) && SliderChecks(y, y.ourKing, d, k)
      && Step(y.ourKing, d, j) in vacated
  }

  ghost predicate ChecksExplained(y: Board, arrivals: set<Square>, vacated: set<Square>) {
    forall c :: Checks(y, y.ourKing, c) ==> c in arrivals || Discovered(y, c, vacated)
  }

  /** `y` differs from `x` only by pieces of theirs arriving and squares being vacated. */
  ghost predicate MovedOnly(x: Board, y: Board, arrivals: set<Square>, vacated: set<Square>) {
    && x.ourKing == y.ourKing
    && (forall c {:trigger c in y.theirs} :: c in y.theirs && c !in arrivals ==> Unmoved(x, y, c))
    && (forall s {:trigger s in Occupied(x)} :: s in Occupied(x) && s !in vacated ==> s in Occupied(y))
  }

  predicate Unmoved(x: Board, y: Board, c: Square) {
    c in x.theirs && SameKind(x, y, c) && (c == x.theirKing <==> c == y.theirKing)
  }

  lemma {:induction false} MovedOnlyExplains(x: Board, y: Board, arrivals: set<Square>, vacated: set<Square>)
    requires WellFormed(y) && MovedOnly(x, y, arrivals, vacated) && !InCheck(x)
    ensures ChecksExplained(y, arrivals, vacated)
  {
    var s := y.ourKing;
    forall c | Checks(y, s, c) && c !in arrivals ensures Discovered(y, c, vacated) {
      assert c in y.theirs;
      assert Unmoved(x, y, c) && !Checks(x, s, c);
      var d, k :| c == Step(s, d, k) && SliderChecks(y, s, d, k);
      if forall j :: 1 <= j < k ==> Step(s, d, j) !in vacated {
        forall j | 1 <= j < k ensures Step(s, d, j) !in Occupied(x) {
          assert Step(s, d, j) !in Occupied(y) && Step(s, d, j) !in vacated;
        }
        assert SliderChecks(x, s, d, k);
      }
    }
  }

  /** Every check after a move comes from a piece that moved or through a square that was vacated. */
  lemma {:induction false} EveryCheckExplained(b: Board, m: Move)
    requires WellFormed(b) && !InCheck(Mirrored(b)) && Pseudolegal(b, m) && (m.kind.Castle? || m.to != b.theirKing)
    ensures WellFormed(After(b, m)) && (m.kind.Castle? ==> CastleShape(b, m))
    ensures ChecksExplained(After(b, m), FlipSet(Arrivals(m)), FlipSet(Vacated(b, m)))
  {
    var x, y := Mirrored(b), After(b, m);
    if m.kind.Castle? { CastleSquares(b, m); }
    assert WellFormed(y) by { AfterWellFormed(b, m); }
    assert MovedOnly(x, y, FlipSet(Arrivals(m)), FlipSet(Vacated(b, m))) by {
      forall c | c in y.theirs && c !in FlipSet(Arrivals(m)) ensures Unmoved(x, y, c) { UnmovedKeepsKind(b, m, c); }
      forall s | s in Occupied(x) && s !in FlipSet(Vacated(b, m)) ensures s in Occupied(y) {
        OnlyVacatedOpens(b, m, s);
      }
    }
    MovedOnlyExplains(x, y, FlipSet(Arrivals(m)), FlipSet(Vacated(b, m)));
  }

  lemma CountAtMostTwo(p: CheckClass -> bool, g: CheckClass, h: CheckClass)
    requires forall x :: p(x) ==> x == g || x == h
    ensures CountClasses(p) <= 2
  {
    AllClasses(g);
    AllClasses(h);
  }

  lemma AtMostTwoClasses(y: Board, g: CheckClass, h: CheckClass)
    requires forall x, c :: InClass(y, x, c) ==> x == g || x == h
    ensures AttackerCount(y) <= 2
  {
    CountAtMostTwo((x: CheckClass) => ClassChecks(y, x), g, h);
  }

  /** The class of a check by the piece on `t`, if it checks; any class otherwise. */
  ghost function ClassFrom(y: Board, t: Square): (g: CheckClass)
    requires WellFormed(y)
    ensures forall h :: InClass(y, h, t) ==> h == g
  {
    if h :| InClass(y, h, t) then
      assert forall h' :: InClass(y, h', t) ==> h' == h by {
        forall h' | InClass(y, h', t) ensures h' == h { OneClassEach(y, h, h', t); }
      }
      h
    else KnightClass
  }

  /** The class of the ray from `s` through `t`, if there is one; any class otherwise. */
  ghost function RayThrough(s: Square, t: Square): (g: CheckClass)
    ensures forall d, j :: j >= 1 && t == Step(s, d, j) ==> g == Ray(d)
  {
    if d, j :| j >= 1 && t == Step(s, d, j) then
      assert forall e, i :: i >= 1 && t == Step(s, e, i) ==> e == d by {
        forall e, i | i >= 1 && t == Step(s, e, i) ensures e == d { StepInjective(s, d, j, e, i); }
      }
      Ray(d)
    else KnightClass
  }

  lemma {:induction false} DiscoveredClass(y: Board, h: CheckClass, c: Square, vacated: set<Square>)
    returns (t: Square, j: int)
    requires WellFormed(y) && InClass(y, h, c) && Discovered(y, c, vacated)
    ensures h.Ray? && t in vacated && j >= 1 && t == Step(y.ourKing, h.d, j)
    ensures exists k :: k > j && c == Step(y.ourKing, h.d, k)
  {
    var d, i, k :| 1 <= i < k && c == Step(y.ourKing, d, k) && SliderChecks(y, y.ourKing, d, k) &&
      Step(y.ourKing, d, i) in vacated;
    assert InClass(y, Ray(d), c);
    OneClassEach(y, Ray(d), h, c);
    t, j := Step(y.ourKing, d, i), i;
  }

  lemma {:induction false} OneArrivalCount(y: Board, to: Square, from: Square, arrivals: set<Square>,
                                           vacated: set<Square>)
    requires WellFormed(y) && ChecksExplained(y, arrivals, vacated) && arrivals == {to} && vacated == {from}
    ensures AttackerCount(y) <= 2
  {
    var g, r := ClassFrom(y, to), RayThrough(y.ourKing, from);
    forall h, c | InClass(y, h, c) ensures h == g || h == r {
      assert Checks(y, y.ourKing, c);
      if c != to { var t, j := DiscoveredClass(y, h, c, vacated); }
    }
    AtMostTwoClasses(y, g, r);
  }

  /** En passant opens two squares at once, but a king checked by the capturing pawn has no line through the captured
      pawn's square. */
  lemma {:induction false} EnPassantCount(y: Board, to: Square, from: Square, gone: Square, arrivals: set<Square>,
                                          vacated: set<Square>)
    requires WellFormed(y) && ChecksExplained(y, arrivals, vacated) && arrivals == {to} && vacated == {from, gone}
    requires to in RealPawns(y) && gone == Sq(to.file, to.rank + 1)
    ensures AttackerCount(y) <= 2
  {
    var s := y.ourKing;
    var g, r, q := ClassFrom(y, to), RayThrough(s, from), RayThrough(s, gone);
    var direct := Checks(y, s, to);
    forall h, c | InClass(y, h, c) ensures h == r || h == if direct then g else q {
      assert Checks(y, s, c);
      if c != to {
        var t, j := DiscoveredClass(y, h, c, vacated);
        if direct && t == gone {
          assert PawnChecks(y, s, to);
          assert KnightJump(s, t);
          KnightLeavesLine(s, h.d, 1, j);
        }
      }
    }
    AtMostTwoClasses(y, r, if direct then g else q);
  }

  /** Castling uncovers lines only along its own rank. */
  lemma {:induction false} CastlingCount(y: Board, rook: Square, arrivals: set<Square>, vacated: set<Square>)
    requires WellFormed(y) && ChecksExplained(y, arrivals, vacated) && arrivals == {y.theirKing, rook}
    requires y.theirKing.rank == 7 && rook in y.rooks && rook.rank == 7 && forall t :: t in vacated ==> t.rank == 7
    ensures AttackerCount(y) <= 2
  {
    var s := y.ourKing;
    var g := ClassFrom(y, rook);
    forall h, c | InClass(y, h, c) ensures if s.rank == 7 then h == Ray(E) || h == Ray(W) else h == g {
      assert Checks(y, s, c);
      assert c != y.theirKing;
      if c != rook {
        var t, j := DiscoveredClass(y, h, c, vacated);
        assert c.OnBoard();
      }
    }
    AtMostTwoClasses(y, if s.rank == 7 then Ray(E) else g, if s.rank == 7 then Ray(W) else g);
  }

  lemma FlipPair(a: Square, b: Square)
    ensures FlipSet({a}) == {a.Flip()} && FlipSet({a, b}) == {a.Flip(), b.Flip()}
  {
    FlipFlip(a);
    FlipFlip(b);
  }

  lemma EnPassantArrival(b: Board, m: Move)
    requires WellFormed(b) && Pseudolegal(b, m) && m.kind.EnPassant?
    ensures m.to.Flip() in RealPawns(After(b, m)) && m.to.rank == 5 && m.to != b.theirKing
    ensures FlipSet(Arrivals(m)) == {m.to.Flip()} && FlipSet(Vacated(b, m)) == {m.from.Flip(), Sq(m.to.file, 4).Flip()}
  {
    FlipFlip(m.to);
    FlipPair(m.to, m.to);
    FlipPair(m.from, Sq(m.to.file, 4));
  }

  lemma CastleArrival(b: Board, m: Move)
    requires CastleShape(b, m)
    ensures After(b, m).theirKing == KingTarget(m).Flip() && RookTarget(m).Flip() in After(b, m).rooks
    ensures FlipSet(Arrivals(m)) == {KingTarget(m).Flip(), RookTarget(m).Flip()}
    ensures forall t :: t in FlipSet(Vacated(b, m)) ==> t.rank == 7
  {
    FlipFlip(RookTarget(m));
    FlipPair(KingTarget(m), RookTarget(m));
  }

  lemma {:induction false} CastlingCountAfter(b: Board, m: Move)
    requires CastleShape(b, m) && WellFormed(After(b, m))
    requires ChecksExplained(After(b, m), FlipSet(Arrivals(m)), FlipSet(Vacated(b, m)))
    ensures AttackerCount(After(b, m)) <= 2
  {
    CastleArrival(b, m);
    CastlingCount(After(b, m), RookTarget(m).Flip(), FlipSet(Arrivals(m)), FlipSet(Vacated(b, m)));
  }

  lemma {:induction false} CountAfterCastling(b: Board, m: Move)
    requires WellFormed(b) && !InCheck(Mirrored(b)) && Pseudolegal(b, m) && m.kind.Castle?
    ensures AttackerCount(After(b, m)) <= 2
  {
    EveryCheckExplained(b, m);
    CastlingCountAfter(b, m);
  }

  lemma {:induction false} CountAfterEnPassant(b: Board, m: Move)
    requires WellFormed(b) && !InCheck(Mirrored(b)) && Pseudolegal(b, m) && m.kind.EnPassant?
    ensures AttackerCount(After(b, m)) <= 2
  {
    EnPassantArrival(b, m);
    EveryCheckExplained(b, m);
    EnPassantCount(After(b, m), m.to.Flip(), m.from.Flip(), Sq(m.to.file, 4).Flip(), FlipSet(Arrivals(m)),
      FlipSet(Vacated(b, m)));
  }

  lemma {:induction false} CountAfterOrdinary(b: Board, m: Move)
    requires WellFormed(b) && !InCheck(Mirrored(b)) && Pseudolegal(b, m) && m.to != b.theirKing
    requires m.kind.Plain? || m.kind.Promote?
    ensures AttackerCount(After(b, m)) <= 2
  {
    EveryCheckExplained(b, m);
    FlipPair(m.to, m.from);
    FlipPair(m.from, m.to);
    OneArrivalCount(After(b, m), m.to.Flip(), m.from.Flip(), FlipSet(Arrivals(m)), FlipSet(Vacated(b, m)));
  }

  /** A pawn or knight checks only if it just arrived. */
  lemma {:induction false} LeaperArrived(y: Board, c: Square, arrivals: set<Square>, vacated: set<Square>)
    requires WellFormed(y) && ChecksExplained(y, arrivals, vacated)
    requires PawnChecks(y, y.ourKing, c) || KnightChecks(y, y.ourKing, c)
    ensures c in arrivals
  {
    assert Checks(y, y.ourKing, c);
    if c !in arrivals {
      var g := if PawnChecks(y, y.ourKing, c) then PawnClass else KnightClass;
      assert InClass(y, g, c);
      var t, j := DiscoveredClass(y, g, c, vacated);
    }
  }

  lemma {:induction false} LeaperIsMover(b: Board, m: Move, c: Square)
    requires WellFormed(b) && !InCheck(Mirrored(b)) && Pseudolegal(b, m) && m.to != b.theirKing
    requires PawnChecks(After(b, m), b.theirKing.Flip(), c) || KnightChecks(After(b, m), b.theirKing.Flip(), c)
    ensures !m.kind.Castle? && c == m.to.Flip()
  {
    EveryCheckExplained(b, m);
    LeaperArrived(After(b, m), c, FlipSet(Arrivals(m)), FlipSet(Vacated(b, m)));
    FlipFlip(c);
    if m.kind.Castle? {
      CastleSquares(b, m);
      FlipFlip(RookTarget(m));
    }
  }

  lemma {:induction false} SingleLeapersAfterMove(b: Board, m: Move)
    requires WellFormed(b) && !InCheck(Mirrored(b)) && Pseudolegal(b, m) && m.to != b.theirKing
    ensures SingleLeapers(After(b, m))
  {
    var y := After(b, m);
    forall c | PawnChecks(y, y.ourKing, c) || KnightChecks(y, y.ourKing, c) ensures c == m.to.Flip() {
      LeaperIsMover(b, m, c);
    }
  }

  /** A legal move of a sound board does not take the king and leaves a sound board. */
  lemma {:induction false} SoundAfter(b: Board, m: Move)
    requires Sound(b) && Legal(b, m)
    ensures m.to != b.theirKing && Sound(After(b, m))
  {
    if m.to == b.theirKing { CaptureMeansCheck(b, m); }
    match m.kind {
      case Castle => CountAfterCastling(b, m);
      case EnPassant => CountAfterEnPassant(b, m);
      case _ => CountAfterOrdinary(b, m);
    }
    SingleLeapersAfterMove(b, m);
    EveryCheckExplained(b, m);
    MirrorMirror(Play(b, m));
  }

  // ---- whole games ----

  /** `boards` is the course of the game that plays `moves`, all legal. */
  ghost predicate IsGame(boards: seq<Board>, moves: seq<Move>) {
    && |boards| == |moves| + 1
    && (forall i :: 0 <= i < |moves| ==> Legal(boards[i], moves[i]) && boards[i + 1] == After(boards[i], moves[i]))
  }

  /** Every board of every game from a sound board is sound. */
  lemma {:induction false} GameStaysSound(boards: seq<Board>, moves: seq<Move>, i: nat)
    requires IsGame(boards, moves) && Sound(boards[0]) && i < |boards|
    ensures Sound(boards[i])
  {
    if i > 0 {
      GameStaysSound(boards, moves, i - 1);
      SoundAfter(boards[i - 1], moves[i - 1]);
    }
  }

  lemma KingsApart(b: Board)
    requires WellFormed(b) && !InCheck(Mirrored(b))
    ensures !Near(b.theirKing, b.ourKing)
  {
    assert Near(b.ourKing.Flip(), b.theirKing.Flip()) <==> Near(b.theirKing, b.ourKing);
  }

  /** In every game the fast legality test is exact for every pseudolegal move, and no pseudolegal move takes a king. */
  lemma {:induction false} GameLegalityExact(boards: seq<Board>, moves: seq<Move>, i: nat, m: Move,
                                             info: KingAttackInfo)
    requires IsGame(boards, moves) && Sound(boards[0]) && i < |boards|
    requires Pseudolegal(boards[i], m) && Describes(info, boards[i])
    ensures m.to != boards[i].theirKing
    ensures IsLegalMove(boards[i], m, info) <==> Legal(boards[i], m)
  {
    GameStaysSound(boards, moves, i);
    if m.to == boards[i].theirKing { CaptureMeansCheck(boards[i], m); }
    KingsApart(boards[i]);
    LegalityCorrect(boards[i], m, info);
  }

  // ---- what a move does, square by square ----

  /** The rules of Article 3 on a mailbox: what stands on `s` after the move. */
  function PlacedAfter(b: Board, m: Move, s: Square): Option<Placed> {
    if m.kind.Castle? then
      if s == KingTarget(m) then Some(Placed(true, KingP))
      else if s == RookTarget(m) then Some(Placed(true, RookP))
      else if s == m.from || s == m.to then None
      else PieceAt(b, s)
    else if s == m.to then
      match m.kind
      case Promote(piece) => Some(Placed(true,
        match piece case Knight => KnightP case Queen => QueenP case Rook => RookP case Bishop => BishopP))
      case _ => PieceAt(b, m.from)
    else if s == m.from then None
    else if m.kind.EnPassant? && s == Sq(m.to.file, 4) then None
    else PieceAt(b, s)
  }

  lemma CastlingMovesPieces(b: Board, m: Move, s: Square)
    requires WellFormed(b) && Pseudolegal(b, m) && m.kind.Castle?
    ensures PieceAt(Play(b, m), s) == PlacedAfter(b, m, s)
  {
    CastleSquares(b, m);
  }

  lemma ElsewhereUntouched(b: Board, m: Move, s: Square)
    requires WellFormed(b) && Pseudolegal(b, m) && m.to != b.theirKing && !m.kind.Castle? && s != m.to
    ensures PieceAt(Play(b, m), s) == PlacedAfter(b, m, s)
  {
  }

  lemma MoverArrives(b: Board, m: Move)
    requires WellFormed(b) && Pseudolegal(b, m) && m.to != b.theirKing && !m.kind.Castle?
    ensures PieceAt(Play(b, m), m.to) == PlacedAfter(b, m, m.to)
  {
  }

  /** The set updates of `ApplyMove` do to every square what the rules of chess say. */
  lemma {:induction false} PlayMovesPieces(b: Board, m: Move, s: Square)
    requires WellFormed(b) && Pseudolegal(b, m) && m.to != b.theirKing
    ensures PieceAt(Play(b, m), s) == PlacedAfter(b, m, s)
  {
    if m.kind.Castle? {
      CastlingMovesPieces(b, m, s);
    } else if s == m.to {
      MoverArrives(b, m);
    } else {
      ElsewhereUntouched(b, m, s);
    }
  }

  /** The zeroing result is exactly "a piece of theirs was taken or one of our pawns moved". */
  lemma {:induction false} ZeroingMeansCaptureOrPawn(b: Board, m: Move)
    requires WellFormed(b) && Pseudolegal(b, m)
    ensures Zeroing(b, m) <==> Play(b, m).theirs != b.theirs || PieceAt(b, m.from) == Some(Placed(true, PawnP))
  {
    if c :| c in Captured(b, m) { assert c in b.theirs && c !in Play(b, m).theirs; }
  }

  // ---- the initial position ----

  function Ranks(lo: int, hi: int): (r: set<Square>)
    ensures forall s :: s in r <==> 0 <= s.file < 8 && lo <= s.rank < hi
  {
    set f, r | 0 <= f < 8 && lo <= r < hi :: Sq(f, r)
  }

  /** The squares of the two back ranks on three files. */
  function BackRanks(a: int, b: int, c: int): (r: set<Square>)
    ensures forall s :: s in r <==>
      0 <= s.file < 8 && (s.rank == 0 || s.rank == 7) && (s.file == a || s.file == b || s.file == c)
  {
    set s | s in Ranks(0, 8) && (s.rank == 0 || s.rank == 7) && (s.file == a || s.file == b || s.file == c)
  }

  /** `kStartposBoard`, with the given side to move. */
  function StartBoard(flipped: bool): Board {
    Board(Ranks(0, 2), Ranks(6, 8), BackRanks(0, 3, 7), BackRanks(2, 3, 5), Ranks(1, 2) + Ranks(6, 7),
      Sq(4, 0), Sq(4, 7), Castlings(0, 0, 7, 7, true, true, true, true), flipped)
  }

  lemma StartWellFormed(flipped: bool)
    ensures WellFormed(StartBoard(flipped))
  {
  }

  /** Our king on e1 behind two full ranks, their men at least five ranks away. */
  ghost predicate HomeShape(b: Board) {
    && b.ourKing == Sq(4, 0) && b.theirKing == Sq(4, 7)
    && (forall s: Square :: 0 <= s.file < 8 && 0 <= s.rank <= 1 ==> s in b.ours)
    && (forall s :: s in b.theirs ==> s.OnBoard() && s.rank >= 6)
  }

  lemma HomeShapeUnchecked(b: Board, c: Square)
    requires HomeShape(b)
    ensures !Checks(b, b.ourKing, c)
  {
    if d, k :| c == Step(b.ourKing, d, k) && SliderChecks(b, b.ourKing, d, k) {
      RayStaysOnBoard(b.ourKing, d, k, 1);
    }
  }

  lemma FlippedRanks(lo: int, hi: int, s: Square)
    ensures s in FlipSet(Ranks(lo, hi)) <==> 0 <= s.file < 8 && 8 - hi <= s.rank < 8 - lo
  {
  }

  lemma FullRanksHomeShape(b: Board, x: Board)
    requires b.ours == Ranks(0, 2) && b.theirs == Ranks(6, 8) && b.ourKing == Sq(4, 0) && b.theirKing == Sq(4, 7)
    requires x.ours == FlipSet(b.theirs) && x.theirs == FlipSet(b.ours) && x.ourKing == b.theirKing.Flip() &&
      x.theirKing == b.ourKing.Flip()
    ensures HomeShape(b) && HomeShape(x)
  {
    FlippedRanksAre(6, 8);
    FlippedRanksAre(0, 2);
    HomeShapeOf(b);
    HomeShapeOf(x);
  }

  lemma FlippedRanksAre(lo: int, hi: int)
    ensures FlipSet(Ranks(lo, hi)) == Ranks(8 - hi, 8 - lo)
  {
    forall s ensures s in FlipSet(Ranks(lo, hi)) <==> s in Ranks(8 - hi, 8 - lo) { FlippedRanks(lo, hi, s); }
  }

  lemma HomeShapeOf(b: Board)
    requires b.ours == Ranks(0, 2) && b.theirs == Ranks(6, 8) && b.ourKing == Sq(4, 0) && b.theirKing == Sq(4, 7)
    ensures HomeShape(b)
  {
  }

  lemma NoChecksNoCount(b: Board)
    requires forall c :: !Checks(b, b.ourKing, c)
    ensures AttackerCount(b) <= 2 && SingleLeapers(b)
  {
    forall h, c ensures !InClass(b, h, c) {
      if InClass(b, h, c) { assert Checks(b, b.ourKing, c); }
    }
    forall c ensures !PawnChecks(b, b.ourKing, c) && !KnightChecks(b, b.ourKing, c) { assert !Checks(b, b.ourKing, c); }
    AtMostTwoClasses(b, PawnClass, KnightClass);
  }

  lemma {:induction false} HomeShapeSound(b: Board, x: Board)
    requires WellFormed(b) && x == Mirrored(b) && HomeShape(b) && HomeShape(x)
    ensures Sound(b)
  {
    forall c ensures !Checks(b, b.ourKing, c) && !Checks(x, x.ourKing, c) {
      HomeShapeUnchecked(b, c);
      HomeShapeUnchecked(x, c);
    }
    NoChecksNoCount(b);
  }

  lemma FullRanksSound(b: Board)
    requires WellFormed(b)
    requires b.ours == Ranks(0, 2) && b.theirs == Ranks(6, 8) && b.ourKing == Sq(4, 0) && b.theirKing == Sq(4, 7)
    ensures Sound(b)
  {
    FullRanksHomeShape(b, Mirrored(b));
    HomeShapeSound(b, Mirrored(b));
  }

  /** The games the results speak about include those from the initial position. */
  lemma {:induction false} StartSound(flipped: bool)
    ensures Sound(StartBoard(flipped))
  {
    StartWellFormed(flipped);
    FullRanksSound(StartBoard(flipped));
  }
}
