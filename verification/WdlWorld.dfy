// The assumptions of the probe can be met: a game value by recursion on the zeroing moves to come, and exact tables.

module WdlWorld {
  import opened Board
  import opened Legality
  import opened Invariants
  import opened Repetition
  import opened WdlChess
  import opened ChessBoard
  import opened Notation

  ghost function Steps(b: Board): nat {
    if Measure(b) < 0 then 0 else Measure(b)
  }

  lemma StepsFall(b: Board, m: Move)
    requires Sound(b) && Legal(b, m) && Zeroing(b, m)
    ensures Sound(After(b, m)) && Steps(After(b, m)) < Steps(b)
  {
    SoundAfter(b, m);
    MeasureAfter(b, m);
    StepsBelow(b, After(b, m));
  }

  lemma StepsBelow(b: Board, y: Board)
    requires WellFormed(y) && Measure(y) < Measure(b)
    ensures Steps(y) < Steps(b)
  {
    MeasureNonnegative(y);
  }

  ghost predicate Offers(w: World, b: Board, v: int) {
    exists m {:trigger Legal(b, m)} :: Legal(b, m) && MoveValue(w, b, m) == v
  }

  ghost function Best(offers: int -> bool): (v: int)
    ensures -2 <= v <= 2
    ensures forall u :: -2 <= u <= 2 && offers(u) ==> offers(v) && u <= v
  {
    if offers(2) then 2 else if offers(1) then 1 else if offers(0) then 0 else if offers(-1) then -1 else -2
  }

  /** What a position is worth when its moves are worth what `w` says. */
  ghost function BestIn(w: World, b: Board): (v: int)
    ensures -2 <= v <= 2
  {
    if NoMoves(b) then if InCheck(b) then -2 else 0 else Best((v: int) => Offers(w, b, v))
  }

  lemma BestInSame(w: World, u: World, b: Board)
    requires forall m :: Legal(b, m) ==> MoveValue(w, b, m) == MoveValue(u, b, m)
    ensures BestIn(w, b) == BestIn(u, b)
  {
    forall v ensures Offers(w, b, v) <==> Offers(u, b, v) { }
  }

  lemma BestInRight(w: World, b: Board)
    requires w.value(b) == BestIn(w, b) && forall m :: Legal(b, m) ==> -2 <= MoveValue(w, b, m) <= 2
    ensures ValueRight(w, b)
  {
    var offers := (v: int) => Offers(w, b, v);
    forall m | Legal(b, m) ensures MoveValue(w, b, m) <= w.value(b) && exists n :: Attains(w, b, n) {
      assert offers(MoveValue(w, b, m)) && offers(Best(offers));
      var n :| Legal(b, n) && MoveValue(w, b, n) == Best(offers);
      assert Attains(w, b, n);
    }
  }

  ghost predicate Bounded(w: World) {
    (forall b :: -2 <= w.value(b) <= 2) && forall b, m :: w.rest(b, m) == 0
  }

  lemma SameMoveValue(w: World, u: World, b: Board, m: Move)
    requires Bounded(w) && Bounded(u) && (Zeroing(b, m) ==> w.value(After(b, m)) == u.value(After(b, m)))
    ensures MoveValue(w, b, m) == MoveValue(u, b, m) && -2 <= MoveValue(w, b, m) <= 2
  {
  }

  /** The boards the values are compared on, and what falls with every zeroing move. */
  datatype Domain = Domain(holds: Board -> bool, rank: Board -> nat)

  ghost function SoundBoards(): Domain {
    Domain((b: Board) => Sound(b), (b: Board) => Steps(b))
  }

  ghost predicate Falling(d: Domain) {
    forall b, m {:trigger d.holds(b), Legal(b, m)} :: d.holds(b) && Legal(b, m) && Zeroing(b, m) ==>
      d.holds(After(b, m)) && d.rank(After(b, m)) < d.rank(b)
  }

  lemma SoundBoardsFall()
    ensures Falling(SoundBoards())
  {
    forall b, m | Sound(b) && Legal(b, m) && Zeroing(b, m) ensures Sound(After(b, m)) && Steps(After(b, m)) < Steps(b) {
      StepsFall(b, m);
    }
  }

  ghost predicate AgreeAt(d: Domain, w: World, u: World, n: nat) {
    forall b {:trigger w.value(b)} {:trigger u.value(b)} :: d.holds(b) && d.rank(b) == n ==> w.value(b) == u.value(b)
  }

  ghost predicate AgreeBelow(d: Domain, w: World, u: World, n: nat) {
    n == 0 || (AgreeAt(d, w, u, n - 1) && AgreeBelow(d, w, u, n - 1))
  }

  lemma {:induction false} AgreeOn(d: Domain, w: World, u: World, n: nat, b: Board)
    requires AgreeBelow(d, w, u, n) && d.holds(b) && d.rank(b) < n
    ensures w.value(b) == u.value(b)
  {
    if d.rank(b) < n - 1 { AgreeOn(d, w, u, n - 1, b); }
  }

  lemma AgreeOnMove(d: Domain, w: World, u: World, b: Board, m: Move)
    requires Falling(d) && Bounded(w) && Bounded(u) && d.holds(b) && Legal(b, m) && AgreeBelow(d, w, u, d.rank(b))
    ensures MoveValue(w, b, m) == MoveValue(u, b, m) && -2 <= MoveValue(w, b, m) <= 2
  {
    if Zeroing(b, m) { AgreeOn(d, w, u, d.rank(b), After(b, m)); }
    SameMoveValue(w, u, b, m);
  }

  lemma AgreeOnBest(d: Domain, w: World, u: World, b: Board)
    requires Falling(d) && Bounded(w) && Bounded(u) && d.holds(b) && AgreeBelow(d, w, u, d.rank(b))
    ensures BestIn(w, b) == BestIn(u, b)
  {
    forall m | Legal(b, m) ensures MoveValue(w, b, m) == MoveValue(u, b, m) { AgreeOnMove(d, w, u, b, m); }
    BestInSame(w, u, b);
  }

  ghost predicate AllNext(w: World, v: World) {
    forall b {:trigger v.value(b)} :: v.value(b) == BestIn(w, b)
  }

  lemma AgreeNext(d: Domain, w: World, u: World, v: World, x: World, n: nat)
    requires Falling(d) && Bounded(w) && Bounded(u) && AgreeBelow(d, w, u, n)
    requires AllNext(w, v) && AllNext(u, x)
    ensures AgreeAt(d, v, x, n)
  {
    forall b | d.holds(b) && d.rank(b) == n ensures v.value(b) == x.value(b) {
      AgreeOnBest(d, w, u, b);
    }
  }

  /** Worlds that look one zeroing move further each. */
  ghost predicate Family(f: nat -> World) {
    && (forall n :: Bounded(f(n)))
    && (forall n, b {:trigger LooksFurther(f, n, b)} :: LooksFurther(f, n, b))
  }

  ghost predicate LooksFurther(f: nat -> World, n: nat, b: Board) {
    n > 0 ==> f(n).value(b) == BestIn(f(n - 1), b)
  }

  lemma FamilyNext(f: nat -> World, n: nat, w: World, v: World)
    requires Family(f) && n > 0 && w == f(n - 1) && v == f(n)
    ensures AllNext(w, v)
  {
    forall b ensures v.value(b) == BestIn(w, b) { assert LooksFurther(f, n, b); }
  }

  lemma {:induction false} FamilyAgrees(d: Domain, f: nat -> World, n: nat, k: nat, s: nat)
    requires Falling(d) && Family(f) && s <= n && s <= k
    ensures AgreeBelow(d, f(n), f(k), s)
    decreases s
  {
    if s > 0 {
      FamilyAgrees(d, f, n, k, s - 1);
      FamilyAgrees(d, f, n - 1, k - 1, s - 1);
      FamilyNext(f, n, f(n - 1), f(n));
      FamilyNext(f, k, f(k - 1), f(k));
      AgreeNext(d, f(n - 1), f(k - 1), f(n), f(k), s - 1);
    }
  }

  lemma RightWhereAgreed(d: Domain, w: World, u: World, b: Board)
    requires Falling(d) && Bounded(w) && Bounded(u) && d.holds(b) && AgreeBelow(d, w, u, d.rank(b)) &&
      w.value(b) == BestIn(u, b)
    ensures ValueRight(w, b)
  {
    AgreeOnBest(d, w, u, b);
    forall m | Legal(b, m) ensures -2 <= MoveValue(w, b, m) <= 2 { AgreeOnMove(d, w, u, b, m); }
    BestInRight(w, b);
  }

  lemma {:induction false} LimitAgrees(d: Domain, f: nat -> World, w: World, n: nat, k: nat)
    requires Falling(d) && Family(f) && k <= n
    requires forall y {:trigger w.value(y)} :: w.value(y) == f(d.rank(y) + 1).value(y)
    ensures AgreeBelow(d, w, f(n), k)
  {
    if k > 0 {
      LimitAgrees(d, f, w, n, k - 1);
      forall y | d.holds(y) && d.rank(y) == k - 1 ensures w.value(y) == f(n).value(y) {
        FamilyAgrees(d, f, k, n, k);
        AgreeOn(d, f(k), f(n), k, y);
      }
    }
  }

  lemma LimitLooksFurther(d: Domain, f: nat -> World, w: World, b: Board)
    requires Family(f) && forall y {:trigger w.value(y)} :: w.value(y) == f(d.rank(y) + 1).value(y)
    ensures w.value(b) == BestIn(f(d.rank(b)), b)
  {
    assert LooksFurther(f, d.rank(b) + 1, b);
  }

  lemma LimitIsRight(d: Domain, f: nat -> World, w: World, b: Board)
    requires Falling(d) && Family(f) && Bounded(w) && d.holds(b)
    requires forall y {:trigger w.value(y)} :: w.value(y) == f(d.rank(y) + 1).value(y)
    ensures ValueRight(w, b)
  {
    var n := d.rank(b);
    LimitAgrees(d, f, w, n, n);
    LimitLooksFurther(d, f, w, b);
    RightWhereAgreed(d, w, f(n), b);
  }

  /** Right for the boards with fewer than `n` steps to go; a game that zeroes no more is a draw. */
  ghost function WorldUpTo(n: nat): World {
    if n == 0 then World((_: Board) => 0, (_, _) => 0)
      else World((b: Board) => BestIn(WorldUpTo(n - 1), b), (_, _) => 0)
  }

  lemma WorldsAreFamily(f: nat -> World)
    requires forall n :: f(n) == WorldUpTo(n)
    ensures Family(f)
  {
  }

  // ---- a list of the legal moves ----

  const KINDS: set<MoveKind> := {Plain, Castle, EnPassant, Promote(Knight), Promote(Queen), Promote(Rook),
    Promote(Bishop)}

  lemma AllKinds(k: MoveKind)
    ensures k in KINDS
  {
    if k.Promote? { match k.piece { case Knight => case Queen => case Rook => case Bishop => } }
  }

  ghost function LegalSet(b: Board): set<Move> {
    set f, t, k | f in OnBoardSquares() && t in OnBoardSquares() && k in KINDS &&
      Legal(b, Move(f, t, k)) :: Move(f, t, k)
  }

  lemma InLegalSet(b: Board, m: Move)
    requires WellFormed(b)
    ensures m in LegalSet(b) <==> Legal(b, m)
  {
    if Legal(b, m) {
      EndsOnBoard(b, m);
      AllKinds(m.kind);
      assert m == Move(m.from, m.to, m.kind);
    }
  }

  ghost function Listed(x: set<Move>): (r: seq<Move>)
    ensures forall m :: m in r <==> m in x
  {
    if x == {} then [] else
    var m :| m in x;
    [m] + Listed(x - {m})
  }

  /** There is a move generator, a world that obeys the rules, and a table for every position that keeps its promise. */
  lemma {:induction false} SomeWorldIsRight() returns (moves: Board -> seq<Move>, w: World, probe: Board -> Option<int>)
    ensures GeneratesLegal(moves) && Negamax(w) && DontCare(w, probe) && forall b :: Sound(b) ==> probe(b).Some?
  {
    moves := (b: Board) => Listed(LegalSet(b));
    GeneratorIsRight(moves);
    var f := (n: nat) => WorldUpTo(n);
    WorldsAreFamily(f);
    SoundBoardsFall();
    var d := SoundBoards();
    var value := (b: Board) => f(d.rank(b) + 1).value(b);
    w := World(value, (_, _) => 0);
    probe := ExactTable(value);
    WorldIsRight(d, f, w, probe);
  }

  lemma GeneratorIsRight(moves: Board -> seq<Move>)
    requires forall b :: moves(b) == Listed(LegalSet(b))
    ensures GeneratesLegal(moves)
  {
    forall b, m | Sound(b) ensures m in moves(b) <==> Legal(b, m) { InLegalSet(b, m); }
  }

  ghost function ExactTable(value: Board -> int): Board -> Option<int> {
    (b: Board) => Some(value(WithoutEp(b)))
  }

  lemma WorldIsRight(d: Domain, f: nat -> World, w: World, probe: Board -> Option<int>)
    requires d == SoundBoards() && Falling(d) && Family(f) && Bounded(w) && probe == ExactTable(w.value)
    requires forall y {:trigger w.value(y)} :: w.value(y) == f(d.rank(y) + 1).value(y)
    ensures Negamax(w) && DontCare(w, probe) && forall b :: Sound(b) ==> probe(b).Some?
  {
    forall b | Sound(b) ensures ValueRight(w, b) && TableRight(w, probe, b) { LimitIsRight(d, f, w, b); }
  }
}
