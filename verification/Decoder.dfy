// Reading a move back from two consecutive stacks of piece planes.

module Decoder {
  import opened Squares
  import opened Board
  import opened Invariants
  import opened PiecePlanes
  import opened Repetition

  // ---- the decoder ----

  function Index(s: Square): int { s.rank * 8 + s.file }

  lemma {:induction false} LowestExists(x: set<Square>)
    requires x != {}
    ensures exists s :: s in x && forall t :: t in x ==> Index(s) <= Index(t)
  {
    var s :| s in x;
    if x - {s} == {} {
      forall t | t in x ensures t == s {
        assert t !in x - {s};
      }
    } else {
      LowestExists(x - {s});
      var r :| r in x - {s} && forall t :: t in x - {s} ==> Index(r) <= Index(t);
      var q := if Index(r) < Index(s) then r else s;
      assert forall t :: t in x ==> t == s || t in x - {s};
      assert q in x && forall t :: t in x ==> Index(q) <= Index(t);
    }
  }

  /** `SingleSquare`: the lowest set bit. */
  ghost function SingleSquare(x: set<Square>): (s: Square)
    requires x != {}
    ensures s in x
  {
    LowestExists(x);
    var s :| s in x && forall t :: t in x ==> Index(s) <= Index(t);
    s
  }

  function Diff(x: set<Square>, y: set<Square>): set<Square> { (x - y) + (y - x) }

  function FlipSide(p: Side): Side {
    Side(FlipSet(p.pawns), FlipSet(p.knights), FlipSet(p.bishops), FlipSet(p.rooks), FlipSet(p.queens), FlipSet(p.king))
  }

  function CastlingMove(fromFile: int, toFile: int, rank: int): Move {
    var m := Move(Sq(fromFile, 0), Sq(toFile, 0), Castle);
    if rank == 7 then m.Flip() else m
  }

  /** Where a plane with two changed squares moved from and to. */
  ghost function Shift(old': set<Square>, now: set<Square>): Option<Move> {
    var diff := Diff(now, old');
    if old' * diff == {} || now * diff == {} then None
    else Some(Move(SingleSquare(old' * diff), SingleSquare(now * diff), Plain))
  }

  ghost function DecodePromotion(now: Side, old': Side): Option<Move>
    requires Diff(now.pawns, old'.pawns) != {}
  {
    var from := SingleSquare(Diff(now.pawns, old'.pawns));
    var knights, bishops, rooks, queens :=
      Diff(now.knights, old'.knights), Diff(now.bishops, old'.bishops), Diff(now.rooks, old'.rooks),
        Diff(now.queens, old'.queens);
    if |knights| == 1 then Some(Move(from, SingleSquare(knights), Promote(Knight)))
    else if |bishops| == 1 then Some(Move(from, SingleSquare(bishops), Promote(Bishop)))
    else if |rooks| == 1 then Some(Move(from, SingleSquare(rooks), Promote(Rook)))
    else if |queens| == 1 then Some(Move(from, SingleSquare(queens), Promote(Queen)))
    else None
  }

  /** The king moved: castling if a rook moved too or the king jumped. */
  ghost function DecodeKing(now: Side, old': Side): Option<Move> {
    var rooks := Diff(now.rooks, old'.rooks);
    match Shift(old'.king, now.king)
    case None => None
    case Some(step) =>
      if |rooks| == 2 then
        if old'.rooks * rooks == {} then None
        else Some(CastlingMove(step.from.file, SingleSquare(old'.rooks * rooks).file, step.from.rank))
      else if step.from.file - step.to.file > 1 then
        Some(CastlingMove(step.from.file, step.to.file + 1, step.from.rank))
      else if step.to.file - step.from.file > 1 then
        Some(CastlingMove(step.from.file, step.to.file - 1, step.from.rank))
      else Some(step)
  }

  /** A rook moved: still castling if it passed the standing king. */
  ghost function DecodeRook(now: Side, old': Side): Option<Move> {
    match Shift(old'.rooks, now.rooks)
    case None => None
    case Some(step) =>
      if now.king == {} then None else
      var king := SingleSquare(now.king);
      if step.from.rank == king.rank && step.to.rank == king.rank
        && (step.from.file < king.file < step.to.file || step.to.file < king.file < step.from.file)
      then Some(CastlingMove(king.file, step.from.file, king.rank))
      else Some(step)
  }

  /** A pawn moved: en passant if it changed file onto a square that held none of their pieces. */
  ghost function DecodePawn(now: Side, old': Side, targets: set<Square>): Option<Move> {
    match Shift(old'.pawns, now.pawns)
    case None => None
    case Some(step) =>
      if step.from.file != step.to.file && targets * Diff(now.pawns, old'.pawns) == {}
      then Some(step.(kind := EnPassant))
      else Some(step)
  }

  ghost function DecodeSides(now: Side, old': Side, targets: set<Square>): Option<Move> {
    if |Diff(now.pawns, old'.pawns)| == 1 then DecodePromotion(now, old')
    else if |Diff(now.king, old'.king)| == 2 then DecodeKing(now, old')
    else if |Diff(now.queens, old'.queens)| == 2 then Shift(old'.queens, now.queens)
    else if |Diff(now.rooks, old'.rooks)| == 2 then DecodeRook(now, old')
    else if |Diff(now.bishops, old'.bishops)| == 2 then Shift(old'.bishops, now.bishops)
    else if |Diff(now.knights, old'.knights)| == 2 then Shift(old'.knights, now.knights)
    else if |Diff(now.pawns, old'.pawns)| == 2 then DecodePawn(now, old', targets)
    else None
  }

  /** `DecodeMoveFromInput`: the planes of the side that just moved against its planes one ply earlier, turned round. */
  ghost function Decode(planes: Planes, prior: Planes): Option<Move> {
    var enemy := FlipSide(prior.theirs);
    DecodeSides(planes.theirs, FlipSide(prior.ours),
      enemy.pawns + enemy.knights + enemy.bishops + enemy.rooks + enemy.queens)
  }

  // ---- what a move does to the mover's planes ----

  function Relocate(x: set<Square>, m: Move): set<Square> { x - {m.from} + {m.to} }

  /** The planes after a move whose castling targets are `king` and `rook`. */
  function MovedTo(p: Side, m: Move, king: Square, rook: Square): Side {
    match m.kind
    case Promote(piece) =>
      var q := p.(pawns := p.pawns - {m.from});
      (match piece
       case Knight => q.(knights := q.knights + {m.to})
       case Bishop => q.(bishops := q.bishops + {m.to})
       case Rook => q.(rooks := q.rooks + {m.to})
       case Queen => q.(queens := q.queens + {m.to}))
    case Castle => p.(king := {king}, rooks := p.rooks - {m.to} + {rook})
    case _ =>
      if m.from in p.king then p.(king := {m.to})
      else if m.from in p.pawns then p.(pawns := Relocate(p.pawns, m))
      else if m.from in p.queens then p.(queens := Relocate(p.queens, m))
      else if m.from in p.rooks then p.(rooks := Relocate(p.rooks, m))
      else if m.from in p.bishops then p.(bishops := Relocate(p.bishops, m))
      else p.(knights := Relocate(p.knights, m))
  }

  function Moved(p: Side, m: Move): Side { MovedTo(p, m, KingTarget(m), RookTarget(m)) }

  predicate InSide(p: Side, s: Square, piece: PieceType) {
    s in match piece
      case PawnP => p.pawns
      case KnightP => p.knights
      case BishopP => p.bishops
      case RookP => p.rooks
      case QueenP => p.queens
      case KingP => p.king
  }

  lemma PlaneIsPieceAt(b: Board, s: Square, piece: PieceType)
    requires PiecesDisjoint(b) && KingsPlaced(b)
    ensures InSide(SideOf(b, b.ours), s, piece) <==> PieceAt(b, s) == Some(Placed(true, piece))
  {
  }

  lemma MovedIsPlaced(b: Board, m: Move, s: Square, piece: PieceType)
    requires WellFormed(b) && Pseudolegal(b, m) && m.to != b.theirKing
    ensures InSide(Moved(SideOf(b, b.ours), m), s, piece) <==> PlacedAfter(b, m, s) == Some(Placed(true, piece))
  {
    if m.kind.Castle? { CastleSquares(b, m); }
    PlaneIsPieceAt(b, s, piece);
    PlaneIsPieceAt(b, m.from, piece);
  }

  lemma {:induction false} MoverPlanes(b: Board, m: Move)
    requires WellFormed(b) && Pseudolegal(b, m) && m.to != b.theirKing
    ensures SideOf(Play(b, m), Play(b, m).ours) == Moved(SideOf(b, b.ours), m)
  {
    var p, q := SideOf(Play(b, m), Play(b, m).ours), Moved(SideOf(b, b.ours), m);
    PlayKeepsPieces(b, m);
    forall s, piece ensures InSide(p, s, piece) <==> InSide(q, s, piece) {
      PlayMovesPieces(b, m, s);
      PlaneIsPieceAt(Play(b, m), s, piece);
      MovedIsPlaced(b, m, s, piece);
    }
    SameSides(p, q);
  }

  lemma SameSides(p: Side, q: Side)
    requires forall s, piece :: InSide(p, s, piece) <==> InSide(q, s, piece)
    ensures p == q
  {
    forall s ensures (s in p.pawns <==> s in q.pawns) && (s in p.knights <==> s in q.knights) &&
      (s in p.bishops <==> s in q.bishops)
      && (s in p.rooks <==> s in q.rooks) && (s in p.queens <==> s in q.queens) && (s in p.king <==> s in q.king)
    {
      assert InSide(p, s, PawnP) <==> InSide(q, s, PawnP);
      assert InSide(p, s, KnightP) <==> InSide(q, s, KnightP);
      assert InSide(p, s, BishopP) <==> InSide(q, s, BishopP);
      assert InSide(p, s, RookP) <==> InSide(q, s, RookP);
      assert InSide(p, s, QueenP) <==> InSide(q, s, QueenP);
      assert InSide(p, s, KingP) <==> InSide(q, s, KingP);
    }
  }

  /** Turning the board turns the planes of the side that moved. */
  lemma {:induction false} MirroredPlanes(p: Board)
    ensures SideOf(Mirrored(p), Mirrored(p).theirs) == FlipSide(SideOf(p, p.ours))
  {
    FlippedPawns(p);
    FlippedKnights(p);
    FlippedParts(p.bishops, p.rooks);
    FlippedParts(p.rooks, p.bishops);
    FlippedKings(p.ourKing, p.theirKing);
    FlippedMeet(p.ours, RealPawns(p));
    FlippedMeet(p.ours, Knights(p));
    FlippedMeet(p.ours, p.bishops - p.rooks);
    FlippedMeet(p.ours, p.rooks - p.bishops);
    FlippedMeet(p.ours, p.rooks * p.bishops);
    FlippedMeet(p.ours, Kings(p));
  }

  lemma FlippedParts(x: set<Square>, y: set<Square>)
    ensures FlipSet(x - y) == FlipSet(x) - FlipSet(y) && FlipSet(x * y) == FlipSet(x) * FlipSet(y) &&
      FlipSet(x + y) == FlipSet(x) + FlipSet(y)
  {
  }

  lemma FlippedKings(x: Square, y: Square)
    ensures FlipSet({x, y}) == {y.Flip(), x.Flip()}
  {
    forall s: Square ensures s in FlipSet({x, y}) <==> s in {y.Flip(), x.Flip()} {
      FlipFlip(s);
      FlipFlip(x);
      FlipFlip(y);
    }
  }

  lemma FlippedKnights(p: Board)
    ensures Knights(Mirrored(p)) == FlipSet(Knights(p))
  {
    var men := Occupied(p);
    FlippedPawns(p);
    FlippedKings(p.ourKing, p.theirKing);
    FlippedParts(p.ours, p.theirs);
    FlippedParts(men, RealPawns(p));
    FlippedParts(men - RealPawns(p), Kings(p));
    FlippedParts(men - RealPawns(p) - Kings(p), p.rooks);
    FlippedParts(men - RealPawns(p) - Kings(p) - p.rooks, p.bishops);
  }

  // ---- the decoder undoes the move, plane by plane ----

  lemma {:induction false} OneChanged(x: set<Square>, y: set<Square>, s: Square)
    requires (x - y) + (y - x) == {s}
    ensures Diff(x, y) == {s} && |Diff(x, y)| == 1
  {
  }

  lemma {:induction false} NoneChanged(x: set<Square>)
    ensures Diff(x, x) == {}
  {
  }

  /** A plane in which one piece moved shows exactly that. */
  lemma {:induction false} TwoChanged(x: set<Square>, y: set<Square>, from: Square, to: Square)
    requires from in x && to !in x && y == x - {from} + {to}
    ensures Diff(y, x) == {to, from} && |Diff(y, x)| == 2 && x * Diff(y, x) == {from} && y * Diff(y, x) == {to}
    ensures Shift(x, y) == Some(Move(from, to, Plain))
  {
    assert y - x == {to} && x - y == {from};
  }

  function PlaneOf(p: Side, piece: Promotion): set<Square> {
    match piece case Knight => p.knights case Bishop => p.bishops case Rook => p.rooks case Queen => p.queens
  }

  lemma {:induction false} PromotionRead(q: Side, p: Side, m: Move)
    requires m.kind.Promote? && Diff(q.pawns, p.pawns) == {m.from}
    requires forall piece :: Diff(PlaneOf(q, piece), PlaneOf(p, piece)) == if piece == m.kind.piece then {m.to} else {}
    ensures DecodePromotion(q, p) == Some(m)
  {
    forall piece ensures |Diff(PlaneOf(q, piece), PlaneOf(p, piece))| == 1 <==> piece == m.kind.piece { }
    assert PlaneOf(q, Knight) == q.knights && PlaneOf(q, Bishop) == q.bishops && PlaneOf(q, Rook) == q.rooks &&
      PlaneOf(q, Queen) == q.queens;
  }

  lemma {:induction false} DecodePromote(q: Side, p: Side, m: Move, king: Square, rook: Square, enemy: set<Square>)
    requires m.kind.Promote? && m.from in p.pawns && q == MovedTo(p, m, king, rook)
    requires forall piece :: m.to !in PlaneOf(p, piece)
    ensures DecodeSides(q, p, enemy) == Some(m)
  {
    OneChanged(q.pawns, p.pawns, m.from);
    forall piece ensures Diff(PlaneOf(q, piece), PlaneOf(p, piece)) == if piece == m.kind.piece then {m.to} else {} {
      PromotionPlane(q, p, m, king, rook, piece);
    }
    PromotionRead(q, p, m);
  }

  lemma PromotionPlane(q: Side, p: Side, m: Move, king: Square, rook: Square, piece: Promotion)
    requires m.kind.Promote? && q == MovedTo(p, m, king, rook) && m.to !in PlaneOf(p, piece)
    ensures Diff(PlaneOf(q, piece), PlaneOf(p, piece)) == if piece == m.kind.piece then {m.to} else {}
  {
    PlaneGains(PlaneOf(p, piece), m.to);
    NoneChanged(PlaneOf(p, piece));
  }

  lemma PlaneGains(x: set<Square>, s: Square)
    requires s !in x
    ensures Diff(x + {s}, x) == {s} && |Diff(x + {s}, x)| == 1
  {
    assert (x + {s}) - x == {s} && x - (x + {s}) == {};
  }

  lemma {:induction false} DecodeKingStep(q: Side, p: Side, m: Move, enemy: set<Square>)
    requires m.kind.Plain? && p.king == {m.from} && m.to != m.from && Near(m.from, m.to) && q == p.(king := {m.to})
    ensures DecodeSides(q, p, enemy) == Some(m)
  {
    NoneChanged(p.pawns);
    NoneChanged(p.rooks);
    TwoChanged(p.king, q.king, m.from, m.to);
  }

  lemma {:induction false} DecodeQueen(q: Side, p: Side, m: Move, enemy: set<Square>)
    requires m.kind.Plain? && m.from in p.queens && m.to !in p.queens && q == p.(queens := Relocate(p.queens, m))
    ensures DecodeSides(q, p, enemy) == Some(m)
  {
    NoneChanged(p.pawns);
    NoneChanged(p.king);
    TwoChanged(p.queens, q.queens, m.from, m.to);
  }

  /** A rook cannot pass its own king, so its move is not mistaken for castling. */
  lemma {:induction false} DecodeRookMove(q: Side, p: Side, m: Move, king: Square, enemy: set<Square>)
    requires m.kind.Plain? && m.from in p.rooks && m.to !in p.rooks && p.king == {king} &&
      q == p.(rooks := Relocate(p.rooks, m))
    requires !(m.from.rank == king.rank == m.to.rank &&
      (m.from.file < king.file < m.to.file || m.to.file < king.file < m.from.file))
    ensures DecodeSides(q, p, enemy) == Some(m)
  {
    NoneChanged(p.pawns);
    NoneChanged(p.king);
    NoneChanged(p.queens);
    TwoChanged(p.rooks, q.rooks, m.from, m.to);
  }

  lemma {:induction false} DecodeBishop(q: Side, p: Side, m: Move, enemy: set<Square>)
    requires m.kind.Plain? && m.from in p.bishops && m.to !in p.bishops && q == p.(bishops := Relocate(p.bishops, m))
    ensures DecodeSides(q, p, enemy) == Some(m)
  {
    NoneChanged(p.pawns);
    NoneChanged(p.king);
    NoneChanged(p.queens);
    NoneChanged(p.rooks);
    TwoChanged(p.bishops, q.bishops, m.from, m.to);
  }

  lemma {:induction false} DecodeKnight(q: Side, p: Side, m: Move, enemy: set<Square>)
    requires m.kind.Plain? && m.from in p.knights && m.to !in p.knights && q == p.(knights := Relocate(p.knights, m))
    ensures DecodeSides(q, p, enemy) == Some(m)
  {
    NoneChanged(p.pawns);
    NoneChanged(p.king);
    NoneChanged(p.queens);
    NoneChanged(p.rooks);
    NoneChanged(p.bishops);
    TwoChanged(p.knights, q.knights, m.from, m.to);
  }

  lemma {:induction false} DecodePawnMove(q: Side, p: Side, m: Move, enemy: set<Square>)
    requires (m.kind.Plain? || m.kind.EnPassant?) && m.from in p.pawns && m.to !in p.pawns &&
      q == p.(pawns := Relocate(p.pawns, m))
    requires m.from !in enemy && (m.kind.EnPassant? <==> m.from.file != m.to.file && m.to !in enemy)
    ensures DecodeSides(q, p, enemy) == Some(m)
  {
    NoneChanged(p.king);
    NoneChanged(p.queens);
    NoneChanged(p.rooks);
    NoneChanged(p.bishops);
    NoneChanged(p.knights);
    TwoChanged(p.pawns, q.pawns, m.from, m.to);
    assert enemy * Diff(q.pawns, p.pawns) == {} <==> m.to !in enemy;
  }

  /** All castlings, also those where the king or the rook already stands on its target. The planes are those of the
      turned board, so the back rank is the eighth. */
  lemma {:induction false} DecodeCastling(q: Side, p: Side, m: Move, king: Square, rook: Square, enemy: set<Square>)
    requires m.kind.Castle? && p.king == {m.from} && m.to in p.rooks && m.to != m.from && m.from.rank == 7 &&
      m.to.rank == 7
    requires king == Sq(if m.to.file > m.from.file then 6 else 2, 7) &&
      rook == Sq(if m.to.file > m.from.file then 5 else 3, 7)
    requires 0 <= m.from.file < 8 && 0 <= m.to.file < 8 && (rook == m.to || rook !in p.rooks)
    requires q == p.(king := {king}, rooks := p.rooks - {m.to} + {rook})
    ensures DecodeSides(q, p, enemy) == Some(m)
  {
    NoneChanged(p.pawns);
    NoneChanged(p.queens);
    if king != m.from {
      KingMovedDecode(q, p, m, king, rook);
    } else {
      NoneChanged(p.king);
      KingStoodDecode(q, p, m, king, rook);
    }
  }

  /** The king moved: the rook tells the file if it moved too, the length of the jump otherwise. */
  lemma KingMovedDecode(q: Side, p: Side, m: Move, king: Square, rook: Square)
    requires m.kind.Castle? && p.king == {m.from} && m.to in p.rooks && m.to != m.from && m.from.rank == 7 &&
      m.to.rank == 7
    requires king == Sq(if m.to.file > m.from.file then 6 else 2, 7) &&
      rook == Sq(if m.to.file > m.from.file then 5 else 3, 7)
    requires 0 <= m.from.file < 8 && 0 <= m.to.file < 8 && (rook == m.to || rook !in p.rooks)
    requires q.king == {king} && q.rooks == p.rooks - {m.to} + {rook} && king != m.from
    ensures |Diff(q.king, p.king)| == 2 && DecodeKing(q, p) == Some(m)
  {
    TwoChanged(p.king, q.king, m.from, king);
    if rook != m.to {
      TwoChanged(p.rooks, q.rooks, m.to, rook);
    } else {
      assert q.rooks == p.rooks;
      NoneChanged(p.rooks);
    }
  }

  /** The king stood on its target: the rook passed it. */
  lemma KingStoodDecode(q: Side, p: Side, m: Move, king: Square, rook: Square)
    requires m.kind.Castle? && p.king == {m.from} && m.to in p.rooks && m.to != m.from && m.from.rank == 7 &&
      m.to.rank == 7
    requires king == Sq(if m.to.file > m.from.file then 6 else 2, 7) &&
      rook == Sq(if m.to.file > m.from.file then 5 else 3, 7)
    requires 0 <= m.from.file < 8 && 0 <= m.to.file < 8 && (rook == m.to || rook !in p.rooks)
    requires q.king == {king} && q.rooks == p.rooks - {m.to} + {rook} && king == m.from
    ensures |Diff(q.rooks, p.rooks)| == 2 && DecodeRook(q, p) == Some(m)
  {
    assert rook != m.to;
    TwoChanged(p.rooks, q.rooks, m.to, rook);
  }

  // ---- the theorem ----

  lemma FlipUpdate(x: set<Square>, gone: Square, come: Square)
    ensures FlipSet(x - {gone} + {come}) == FlipSet(x) - {gone.Flip()} + {come.Flip()}
    ensures FlipSet(x - {gone}) == FlipSet(x) - {gone.Flip()} && FlipSet(x + {come}) == FlipSet(x) + {come.Flip()}
    ensures FlipSet({come}) == {come.Flip()} && (gone.Flip() in FlipSet(x) <==> gone in x)
  {
    forall s: Square ensures (s.Flip() == gone <==> s == gone.Flip()) && (s.Flip() == come <==> s == come.Flip()) {
      FlipFlip(s);
      FlipFlip(gone);
      FlipFlip(come);
    }
  }

  lemma {:induction false} CastlingFlipped(p: Side, m: Move)
    requires m.kind.Castle?
    ensures FlipSide(Moved(p, m)) == MovedTo(FlipSide(p), m.Flip(), KingTarget(m).Flip(), RookTarget(m).Flip())
  {
    FlipUpdate(p.rooks, m.to, RookTarget(m));
    FlipUpdate(p.king, m.from, KingTarget(m));
  }

  lemma {:induction false} PromotionFlipped(p: Side, m: Move)
    requires m.kind.Promote?
    ensures FlipSide(Moved(p, m)) == MovedTo(FlipSide(p), m.Flip(), KingTarget(m).Flip(), RookTarget(m).Flip())
  {
    FlipUpdate(p.pawns, m.from, m.to);
    match m.kind.piece
    case Knight => FlipUpdate(p.knights, m.from, m.to);
    case Bishop => FlipUpdate(p.bishops, m.from, m.to);
    case Rook => FlipUpdate(p.rooks, m.from, m.to);
    case Queen => FlipUpdate(p.queens, m.from, m.to);
  }

  lemma {:induction false} StepFlippedPlanes(p: Side, m: Move)
    requires m.kind.Plain? || m.kind.EnPassant?
    ensures FlipSide(Moved(p, m)) == MovedTo(FlipSide(p), m.Flip(), KingTarget(m).Flip(), RookTarget(m).Flip())
  {
    FlipUpdate(p.king, m.from, m.to);
    FlipUpdate(p.pawns, m.from, m.to);
    FlipUpdate(p.queens, m.from, m.to);
    FlipUpdate(p.rooks, m.from, m.to);
    FlipUpdate(p.bishops, m.from, m.to);
    FlipUpdate(p.knights, m.from, m.to);
  }

  /** The planes before the move hold the mover in the plane of its kind and nothing of ours on the target. */
  lemma {:induction false} MoverPlane(b: Board, m: Move)
    requires WellFormed(b) && Pseudolegal(b, m) && m.to != b.theirKing
    ensures var p := SideOf(b, b.ours);
      && p.king == {b.ourKing}
      && (m.from == b.ourKing <==> m.from in p.king)
      && (m.kind.Promote? || m.kind.EnPassant? ==> m.from in p.pawns)
      && (!m.kind.Castle? ==> m.to !in p.pawns + p.knights + p.bishops + p.rooks + p.queens && m.to != m.from)
      && (m.from != b.ourKing ==> m.from in p.pawns + p.queens + p.rooks + p.bishops + p.knights)
  {
    if m.kind.Castle? { CastleSquares(b, m); }
  }

  ghost function Targets(b: Board): set<Square> {
    var enemy := FlipSide(SideOf(b, b.theirs));
    enemy.pawns + enemy.knights + enemy.bishops + enemy.rooks + enemy.queens
  }

  /** What the decoder sees, in terms of the mover's planes turned round. */
  lemma {:induction false} DecoderInput(b: Board, m: Move)
    requires WellFormed(b) && Pseudolegal(b, m) && m.to != b.theirKing
    ensures Decode(PlanesOf(After(b, m)), PlanesOf(b))
      == DecodeSides(MovedTo(FlipSide(SideOf(b, b.ours)), m.Flip(), KingTarget(m).Flip(), RookTarget(m).Flip()),
                     FlipSide(SideOf(b, b.ours)), Targets(b))
  {
    MoverPlanes(b, m);
    MirroredPlanes(Play(b, m));
    var p := SideOf(b, b.ours);
    match m.kind
    case Castle => CastlingFlipped(p, m);
    case Promote(_) => PromotionFlipped(p, m);
    case _ => StepFlippedPlanes(p, m);
  }

  lemma TargetsAreTheirs(b: Board, s: Square)
    requires WellFormed(b)
    ensures s.Flip() in Targets(b) <==> s in b.theirs && s != b.theirKing
  {
    FlipFlip(s);
  }

  /** A rook move along the king's rank does not pass the king. */
  lemma {:induction false} RookStaysOnItsSide(b: Board, m: Move)
    requires WellFormed(b) && Pseudolegal(b, m) && m.from != b.ourKing && m.from in b.rooks && m.from !in b.bishops
    ensures !(m.from.rank == b.ourKing.rank == m.to.rank
      && (m.from.file < b.ourKing.file < m.to.file || m.to.file < b.ourKing.file < m.from.file))
  {
    var d, k :| k >= 1 && m.to == Step(m.from, d, k) && Slides(b, m.from, d) && Clear(Occupied(b), m.from, d, k);
    var j := if m.from.file < b.ourKing.file then b.ourKing.file - m.from.file else m.from.file - b.ourKing.file;
    if 1 <= j < k {
      assert Step(m.from, d, j) !in Occupied(b);
    }
  }

  lemma FlipMembers(p: Side, s: Square)
    ensures forall piece :: InSide(FlipSide(p), s.Flip(), piece) <==> InSide(p, s, piece)
  {
    FlipFlip(s);
  }

  /** What the decoding lemmas ask of a piece move, on the turned planes. */
  lemma {:induction false} TurnedMover(b: Board, m: Move)
    requires WellFormed(b) && Pseudolegal(b, m) && m.to != b.theirKing && !m.kind.Castle? && m.from != b.ourKing
    ensures var p := FlipSide(SideOf(b, b.ours));
      && m.Flip().to !in p.pawns && m.Flip().to !in p.knights && m.Flip().to !in p.bishops && m.Flip().to !in p.rooks &&
        m.Flip().to !in p.queens
      && m.Flip().from !in p.king && p.king == {b.ourKing.Flip()}
      && (m.kind.Promote? || m.kind.EnPassant? ==> m.Flip().from in p.pawns)
      && (m.Flip().from in p.pawns || m.Flip().from in p.queens || m.Flip().from in p.rooks ||
        m.Flip().from in p.bishops || m.Flip().from in p.knights)
      && (m.Flip().from in p.rooks ==> m.from in b.rooks && m.from !in b.bishops)
      && (m.Flip().from in p.pawns ==> m.from in RealPawns(b))
  {
    MoverPlane(b, m);
    var p := SideOf(b, b.ours);
    FlipMembers(p, m.to);
    FlipMembers(p, m.from);
    FlipUpdate({}, m.from, b.ourKing);
    forall s: Square ensures
      && (s.Flip() in FlipSet(p.pawns) <==> s in p.pawns) && (s.Flip() in FlipSet(p.knights) <==> s in p.knights)
      && (s.Flip() in FlipSet(p.bishops) <==> s in p.bishops) && (s.Flip() in FlipSet(p.rooks) <==> s in p.rooks)
      && (s.Flip() in FlipSet(p.queens) <==> s in p.queens) && (s.Flip() in FlipSet(p.king) <==> s in p.king)
    {
      FlipFlip(s);
    }
  }

  lemma {:induction false} DecodePieceMove(b: Board, m: Move)
    requires WellFormed(b) && Pseudolegal(b, m) && m.to != b.theirKing && !m.kind.Castle? && m.from != b.ourKing
    ensures var p := FlipSide(SideOf(b, b.ours));
      DecodeSides(MovedTo(p, m.Flip(), KingTarget(m).Flip(), RookTarget(m).Flip()), p, Targets(b)) == Some(m.Flip())
  {
    TurnedMover(b, m);
    var p, f, targets := FlipSide(SideOf(b, b.ours)), m.Flip(), Targets(b);
    var q := MovedTo(p, f, KingTarget(m).Flip(), RookTarget(m).Flip());
    if m.kind.Promote? {
      DecodePromote(q, p, f, KingTarget(m).Flip(), RookTarget(m).Flip(), targets);
    } else if f.from in p.pawns {
      TargetsAreTheirs(b, m.from);
      TargetsAreTheirs(b, m.to);
      PawnKind(b, m);
      DecodePawnMove(q, p, f, targets);
    } else if f.from in p.queens {
      DecodeQueen(q, p, f, targets);
    } else if f.from in p.rooks {
      RookStaysOnItsSide(b, m);
      DecodeRookMove(q, p, f, b.ourKing.Flip(), targets);
    } else if f.from in p.bishops {
      DecodeBishop(q, p, f, targets);
    } else {
      DecodeKnight(q, p, f, targets);
    }
  }

  lemma PawnKind(b: Board, m: Move)
    requires WellFormed(b) && Pseudolegal(b, m) && m.from in RealPawns(b) && !m.kind.Promote?
    ensures m.kind.EnPassant? <==> m.from.file != m.to.file && m.to !in b.theirs
    ensures m.kind.Plain? || m.kind.EnPassant?
    ensures m.from !in b.theirs
  {
  }

  /** Decoding the planes of two consecutive positions gives back the move, seen from the other side: for promotions,
      en passant and every castling of Chess960 as well as for ordinary moves. */
  lemma {:induction false} DecodeUndoesMove(b: Board, m: Move)
    requires WellFormed(b) && Pseudolegal(b, m) && m.to != b.theirKing
    ensures Decode(PlanesOf(After(b, m)), PlanesOf(b)) == Some(m.Flip())
  {
    DecoderInput(b, m);
    if m.kind.Castle? {
      CastleSquares(b, m);
      DecodeTurnedCastling(b, m);
    } else if m.from == b.ourKing {
      DecodeTurnedKingStep(b, m);
    } else {
      DecodePieceMove(b, m);
    }
  }

  lemma {:induction false} DecodeTurnedCastling(b: Board, m: Move)
    requires PiecesDisjoint(b) && KingsPlaced(b) && CastleShape(b, m)
    ensures var p := FlipSide(SideOf(b, b.ours));
      DecodeSides(MovedTo(p, m.Flip(), KingTarget(m).Flip(), RookTarget(m).Flip()), p, Targets(b)) == Some(m.Flip())
  {
    var p := FlipSide(SideOf(b, b.ours));
    FlipFlip(m.from);
    FlipFlip(m.to);
    FlipFlip(RookTarget(m));
    FlipUpdate({}, m.from, b.ourKing);
    assert SideOf(b, b.ours).king == {b.ourKing};
    DecodeCastling(MovedTo(p, m.Flip(), KingTarget(m).Flip(), RookTarget(m).Flip()), p, m.Flip(),
      KingTarget(m).Flip(), RookTarget(m).Flip(), Targets(b));
  }

  lemma {:induction false} DecodeTurnedKingStep(b: Board, m: Move)
    requires PiecesDisjoint(b) && KingsPlaced(b) && m.from == b.ourKing && m.kind.Plain? && m.to != m.from &&
      Near(m.from, m.to)
    ensures var p := FlipSide(SideOf(b, b.ours));
      DecodeSides(MovedTo(p, m.Flip(), KingTarget(m).Flip(), RookTarget(m).Flip()), p, Targets(b)) == Some(m.Flip())
  {
    var p := FlipSide(SideOf(b, b.ours));
    FlipUpdate({}, m.from, b.ourKing);
    assert SideOf(b, b.ours).king == {b.ourKing};
    DecodeKingStep(MovedTo(p, m.Flip(), KingTarget(m).Flip(), RookTarget(m).Flip()), p, m.Flip(), Targets(b));
  }
}
