// `ChessBoard` as the program updates it: piece sets changed in place, attacks looked up in tables, and every method
// proved against the value-level description in Board.dfy and Legality.dfy.

module ChessBoard {
  import opened Squares
  import opened Board
  import opened Legality
  import opened Invariants
  import opened AttackTables
  import opened Fen
  import opened FenRoundTrip
  import opened Laws
  import opened MoveEffects
  import Notation

  class ChessBoard {
    var ours: set<Square>
    var theirs: set<Square>
    var rooks: set<Square>
    var bishops: set<Square>
    var pawns: set<Square>
    var ourKing: Square
    var theirKing: Square
    var castlings: Castlings
    var flipped: bool

    /** The board as a value. */
    function View(): Board
      reads this
    {
      Board(ours, theirs, rooks, bishops, pawns, ourKing, theirKing, castlings, flipped)
    }

    /** The copy constructor. */
    constructor Copy(other: ChessBoard)
      ensures View() == other.View()
    {
      ours, theirs, rooks, bishops, pawns := other.ours, other.theirs, other.rooks, other.bishops, other.pawns;
      ourKing, theirKing, castlings, flipped := other.ourKing, other.theirKing, other.castlings, other.flipped;
    }

    // ---- reading FEN ----

    method PutPiece(s: Square, p: PieceType, isTheirs: bool)
      modifies this
      ensures View() == Fen.PutPiece(old(View()), s, p, isTheirs)
    {
      if isTheirs { theirs := theirs + {s}; } else { ours := ours + {s}; }
      if p.KingP? { if isTheirs { theirKing := s; } else { ourKing := s; } }
      if p.PawnP? { pawns := pawns + {s}; }
      if p.RookP? || p.QueenP? { rooks := rooks + {s}; }
      if p.BishopP? || p.QueenP? { bishops := bishops + {s}; }
    }

    method Clear()
      modifies this
      ensures View() == EMPTY_BOARD
    {
      ours, theirs, rooks, bishops, pawns := {}, {}, {}, {}, {};
      ourKing, theirKing, castlings, flipped := Sq(0, 0), Sq(0, 0), DEFAULT_CASTLINGS, false;
    }

    /** The placement loop of `SetFromFen`. */
    method SetPieces(word: string) returns (error: Option<FenError>)
      modifies this
      ensures error.None? ==> exists rank, file ::
        PlaceAll(Placing(EMPTY_BOARD, 7, 0), word) == Placing(View(), rank, file)
      ensures error.Some? ==> PlaceAll(Placing(EMPTY_BOARD, 7, 0), word) == Failed(error.value)
    {
      Clear();
      var rank, file, pos := 7, 0, 0;
      assert word[0..] == word;
      while pos < |word|
        invariant 0 <= pos <= |word|
        invariant PlaceAll(Placing(EMPTY_BOARD, 7, 0), word) == PlaceAll(Placing(View(), rank, file), word[pos..])
      {
        var c := word[pos];
        PlaceStep(View(), rank, file, word, pos);
        if c == '/' {
          if rank == 0 { return Some(TooManyRanks); }
          rank, file := rank - 1, 0;
        } else if '1' <= c <= '8' {
          file := file + (c as int - '0' as int);
          if file > 8 { return Some(TooManyFiles); }
        } else {
          var p := ParsePiece(c);
          if p.None? { return Some(InvalidPiece); }
          if file > 7 { return Some(PieceOutOfBoard); }
          if p.value.PawnP? && (rank == 0 || rank == 7) { return Some(PawnOnBackRank); }
          PutPiece(Sq(file, rank), p.value, IsLower(c));
          file := file + 1;
        }
        pos := pos + 1;
      }
      return None;
    }

    /** The castling loop of `SetFromFen`. */
    method SetCastlings(word: string) returns (error: Option<FenError>)
      modifies this`castlings
      ensures error.None? ==> ReadRights(old(View()), Rights(old(castlings)), word) == Rights(castlings)
      ensures error.Some? ==> ReadRights(old(View()), Rights(old(castlings)), word) == NoRights(error.value)
    {
      ghost var b := View();
      var pos := 0;
      assert word[0..] == word;
      while pos < |word|
        invariant 0 <= pos <= |word|
        invariant ReadRights(b, Rights(b.castlings), word) == ReadRights(b, Rights(castlings), word[pos..])
      {
        var c := word[pos];
        RightStep(b, castlings, word, pos);
        var isTheirs := IsUpper(c) == flipped;
        var king := if isTheirs then theirKing.file else ourKing.file;
        var kingside, file;
        if Notation.Lower(c) == 'k' || Notation.Lower(c) == 'q' {
          kingside := Notation.Lower(c) == 'k';
          var rook := RookOf(isTheirs, kingside);
          FindRookSame(View(), b, isTheirs, kingside, if kingside then 7 else 0);
          if rook.None? { return Some(MissingRook); }
          file := rook.value;
        } else {
          file := Notation.ParseFile(c);
          if !(0 <= file < 8) { return Some(InvalidCastling); }
          kingside := file > king;
        }
        castlings := SetRight(castlings, isTheirs, kingside, file);
        pos := pos + 1;
      }
      return None;
    }

    /** `find_rook`: the outermost rook on its side of the king. */
    method RookOf(isTheirs: bool, kingside: bool) returns (r: Option<int>)
      ensures r == FindRook(View(), isTheirs, kingside, if kingside then 7 else 0)
    {
      var king := if isTheirs then theirKing.file else ourKing.file;
      var file := if kingside then 7 else 0;
      while file != king && 0 <= file <= 7
        invariant -1 <= file <= 8
        invariant FindRook(View(), isTheirs, kingside, if kingside then 7 else 0) ==
          FindRook(View(), isTheirs, kingside, file)
        decreases if kingside then file else 7 - file
      {
        var s := Sq(file, if isTheirs then 7 else 0);
        if s in rooks && s !in bishops && (if isTheirs then s in theirs else s in ours) { return Some(file); }
        file := if kingside then file - 1 else file + 1;
      }
      return None;
    }

    /** `SetFromFen`: afterwards the board is the one the text describes, if it describes one. */
    method SetFromFen(fen: string) returns (r: Reading)
      modifies this
      ensures r == ParseFen(fen) && (r.Fine? ==> View() == r.board)
    {
      var s := SkipSpaces(fen);
      var error := SetPieces(Word(s));
      if error.Some? { return Wrong(error.value); }
      match Gap(AfterWord(s)) {
        case Broken => return Wrong(SpaceExpected);
        case Ended => return Fine(View(), 0, 1);
        case More(u) =>
          r := SetSide(u);
      }
    }

    method SetSide(s: string) returns (r: Reading)
      requires s != []
      modifies this
      ensures r == ReadSide(old(View()), s) && (r.Fine? ==> View() == r.board)
    {
      var side := Notation.Lower(s[0]);
      if side == 'b' { Mirror(); } else if side != 'w' { return Wrong(InvalidSide); }
      match Gap(s[1..]) {
        case Broken => return Wrong(SpaceExpected);
        case Ended => return Fine(View(), 0, 1);
        case More(u) =>
          ghost var b := View();
          var rest := u[1..];
          if u[0] != '-' {
            var error := SetCastlings(Word(u));
            if error.Some? { return Wrong(error.value); }
            rest := AfterWord(u);
          }
          assert ReadCastling(b, u) == AfterCastling(View(), rest);
          r := SetEnPassant(rest);
      }
    }

    /** The en passant field and what follows; `rest` starts right after the castling field. */
    method SetEnPassant(rest: string) returns (r: Reading)
      modifies this`pawns
      ensures r == AfterCastling(old(View()), rest) && (r.Fine? ==> View() == r.board)
    {
      match Gap(rest) {
        case Broken => return Wrong(SpaceExpected);
        case Ended => return Fine(View(), 0, 1);
        case More(s) =>
          if s[0] == '-' {
            r := AfterEnPassant(View(), s[1..]);
          } else {
            if |s| <= 2 { return Wrong(EnPassantExpected); }
            var sq := Sq(Notation.ParseFile(s[0]), Notation.ParseRank(s[1]));
            if !sq.OnBoard() { return Wrong(BadEnPassantSquare); }
            if sq.rank != if flipped then 2 else 5 { return Wrong(BadEnPassantRank); }
            if Sq(sq.file, 5) in ours + theirs { return Wrong(EnPassantOccupied); }
            if !(Sq(sq.file, 4) in theirs && Sq(sq.file, 4) in Masked(pawns)) { return Wrong(NoPawnToCapture); }
            pawns := pawns + {Sq(sq.file, 7)};
            r := AfterEnPassant(View(), s[2..]);
          }
      }
    }

    // ---- making moves ----

    method Mirror()
      modifies this
      ensures View() == Mirrored(old(View()))
    {
      ghost var b := View();
      ours, theirs := FlipSet(theirs), FlipSet(ours);
      rooks := FlipSet(rooks);
      bishops := FlipSet(bishops);
      pawns := FlipSet(pawns);
      ourKing, theirKing := theirKing.Flip(), ourKing.Flip();
      castlings := MirrorCastlings(castlings);
      flipped := !flipped;
      assert ours == FlipSet(b.theirs) && theirs == FlipSet(b.ours) && rooks == FlipSet(b.rooks);
      assert bishops == FlipSet(b.bishops) && pawns == FlipSet(b.pawns);
    }

    method DoCastling(kingDst: Square, rookSrc: Square, rookDst: Square)
      modifies this
      ensures View() == old(View()).(
        ours := old(ours) - {old(ourKing)} - {rookSrc} + {kingDst} + {rookDst},
        rooks := old(rooks) - {rookSrc} + {rookDst},
        pawns := Masked(old(pawns)), ourKing := kingDst)
    {
      pawns := Masked(pawns);
      ours := ours - {ourKing};
      ours := ours - {rookSrc};
      rooks := rooks - {rookSrc};
      ourKing := kingDst;
      ours := ours + {ourKing};
      ours := ours + {rookDst};
      rooks := rooks + {rookDst};
    }

    /** `ApplyMove`, in the order the source updates its bitboards. */
    method ApplyMove(m: Move) returns (zeroing: bool)
      requires WellFormed(View()) && Pseudolegal(View(), m)
      modifies this
      ensures View() == Play(old(View()), m) && zeroing == Zeroing(old(View()), m)
      ensures m.to != old(theirKing) ==> RightsFollow(old(View()), m, castlings)
    {
      if m.to != theirKing { RightsAfter(View(), m); }
      PseudolegalIsMovable(View(), m);
      if m.from == ourKing {
        zeroing := MoveKing(m);
      } else {
        zeroing := MovePiece(m);
      }
    }

    method MoveKing(m: Move) returns (zeroing: bool)
      requires Movable(View(), m) && m.from == ourKing
      modifies this
      ensures View() == Play(old(View()), m) && zeroing == Zeroing(old(View()), m)
    {
      ghost var b := View();
      castlings := NoOurCastling(castlings);
      if m.kind.Castle? {
        if m.to.file > m.from.file {
          DoCastling(Sq(6, 0), m.to, Sq(5, 0));
        } else {
          DoCastling(Sq(2, 0), m.to, Sq(3, 0));
        }
        assert ours == b.ours - {m.from, m.to} + {KingTarget(m), RookTarget(m)};
        return false;
      }
      zeroing := MoveAndCapture(m);
      zeroing := zeroing || m.from in pawns;
      ourKing := m.to;
    }

    /** Move in our set, take what stands on the target, drop the old en passant flags. */
    method MoveAndCapture(m: Move) returns (capture: bool)
      modifies this`ours, this`theirs, this`rooks, this`bishops, this`pawns, this`castlings
      ensures ours == old(ours) - {m.from} + {m.to}
      ensures capture == (m.to in old(theirs))
      ensures theirs == old(theirs) - {m.to} - if m.kind.EnPassant? then {Sq(m.to.file, 4)} else {}
      ensures rooks == old(rooks) - if capture then {m.to} else {}
      ensures bishops == old(bishops) - if capture then {m.to} else {}
      ensures pawns == Masked(old(pawns)) - (if capture then {m.to} else {}) - if m.kind.EnPassant? then
        {Sq(m.to.file, 4)} else {}
      ensures castlings == if capture
        then old(castlings).(theyCan00 := old(castlings).theyCan00 && m.to != Sq(old(castlings).theirKingsideRook, 7),
                             theyCan000 := old(castlings).theyCan000 &&
                               m.to != Sq(old(castlings).theirQueensideRook, 7))
        else old(castlings)
    {
      var to := m.to;
      ours := ours - {m.from};
      ours := ours + {to};
      capture := to in theirs;
      if capture {
        theirs := theirs - {to};
        rooks := rooks - {to};
        bishops := bishops - {to};
        pawns := pawns - {to};
        LoseRights(to);
      }
      if m.kind.EnPassant? {
        var passed := Sq(to.file, 4);
        pawns := pawns - {passed};
        theirs := theirs - {passed};
      }
      pawns := Masked(pawns);
    }

    /** A rook captured at home takes its castling right along. */
    method LoseRights(to: Square)
      modifies this`castlings
      ensures castlings == old(castlings).(
        theyCan00 := old(castlings).theyCan00 && to != Sq(old(castlings).theirKingsideRook, 7),
        theyCan000 := old(castlings).theyCan000 && to != Sq(old(castlings).theirQueensideRook, 7))
    {
      if to == Sq(castlings.theirKingsideRook, 7) { castlings := castlings.(theyCan00 := false); }
      if to == Sq(castlings.theirQueensideRook, 7) { castlings := castlings.(theyCan000 := false); }
    }

    method MovePiece(m: Move) returns (zeroing: bool)
      requires Movable(View(), m) && m.from != ourKing
      modifies this
      ensures View() == Play(old(View()), m) && zeroing == Zeroing(old(View()), m)
    {
      ghost var b := View();
      zeroing := MoveAndCapture(m);
      zeroing := zeroing || m.from in pawns;
      if m.kind.Promote? {
        PutPromotion(m.to, m.kind.piece);
        pawns := pawns - {m.from};
        zeroing := true;
      } else {
        ResetOwnRights(m.from);
        Carry(m);
        PassedBeside(b, m, theirs, pawns);
        if m.to.rank - m.from.rank == 2 && m.to in pawns {
          var beside := {Sq(m.to.file - 1, m.to.rank), Sq(m.to.file + 1, m.to.rank)};
          if beside * theirs * pawns != {} {
            pawns := pawns + {Sq(m.to.file, 0)};
          }
        }
      }
      PieceMoveFields(b, m, View());
    }

    method PutPromotion(to: Square, piece: Promotion)
      modifies this`rooks, this`bishops
      ensures rooks == old(rooks) + if piece.Rook? || piece.Queen? then {to} else {}
      ensures bishops == old(bishops) + if piece.Bishop? || piece.Queen? then {to} else {}
    {
      match piece {
        case Rook => rooks := rooks + {to};
        case Bishop => bishops := bishops + {to};
        case Queen => rooks := rooks + {to}; bishops := bishops + {to};
        case Knight =>
      }
    }

    method ResetOwnRights(from: Square)
      modifies this`castlings
      ensures castlings == if from.rank == 0 && from in rooks
        then old(castlings).(weCan00 := old(castlings).weCan00 && from.file != old(castlings).ourKingsideRook,
                             weCan000 := old(castlings).weCan000 && from.file != old(castlings).ourQueensideRook)
        else old(castlings)
    {
      if from.rank == 0 && from in rooks {
        if from.file == castlings.ourQueensideRook { castlings := castlings.(weCan000 := false); }
        if from.file == castlings.ourKingsideRook { castlings := castlings.(weCan00 := false); }
      }
    }

    /** The mover keeps its kind. */
    method Carry(m: Move)
      requires m.from != m.to
      modifies this`rooks, this`bishops, this`pawns
      ensures rooks == Carried(old(rooks), {m.from}, m, m.from in old(rooks))
      ensures bishops == Carried(old(bishops), {m.from}, m, m.from in old(bishops))
      ensures pawns == Carried(old(pawns), {m.from}, m, m.from in old(pawns))
    {
      if m.from in rooks { rooks := rooks + {m.to}; }
      if m.from in bishops { bishops := bishops + {m.to}; }
      if m.from in pawns { pawns := pawns + {m.to}; }
      rooks := rooks - {m.from};
      bishops := bishops - {m.from};
      pawns := pawns - {m.from};
    }

    // ---- attack queries ----

    /** `IsUnderAttack`: king distance, two table lookups, pawns and knights. */
    method IsUnderAttack(tables: Tables, s: Square) returns (r: bool)
      requires tables.Built() && s.OnBoard() && TheirsOnBoard(View())
      ensures r <==> Attacked(View(), s)
      ensures PiecesDisjoint(View()) && KingsPlaced(View()) && s != theirKing ==> (r <==> UnderAttack(View(), s))
    {
      ghost var b := View();
      if PiecesDisjoint(b) && KingsPlaced(b) && s != theirKing { AttackedMeans(b, s); }
      if Near(theirKing, s) { return true; }
      var seen := tables.rook.Lookup(s, ours + theirs);
      LookupFindsSliders(View(), s, true, seen);
      if seen * (theirs * rooks) != {} { return true; }
      seen := tables.bishop.Lookup(s, ours + theirs);
      LookupFindsSliders(View(), s, false, seen);
      if seen * (theirs * bishops) != {} { return true; }
      if c :| c in theirs && PawnChecksHere(s, c) {
        assert Checks(View(), s, c);
        return true;
      }
      if c :| c in theirs && KnightChecksHere(s, c) {
        assert Checks(View(), s, c);
        return true;
      }
      return false;
    }

    /** `IsUnderCheck`. */
    method IsUnderCheck(tables: Tables) returns (r: bool)
      requires tables.Built() && ourKing.OnBoard() && TheirsOnBoard(View())
      ensures r <==> InCheck(View())
    {
      r := IsUnderAttack(tables, ourKing);
    }

    /** The scan along `d` meets its first piece of theirs `k` steps away, with or without one of ours, `j` steps away,
        in between. */
    method MeetTheirs(d: Direction, k: int, ghost j: int, candidate: Option<Square>, seen: set<Square>)
      returns (checker: bool, line: set<Square>, pinned: Option<Square>)
      requires PiecesDisjoint(View()) && ourKing.OnBoard() && k >= 1 && Step(ourKing, d, k) in theirs
      requires forall i :: 1 <= i < k ==> Step(ourKing, d, i) !in theirs
      requires candidate.None? ==> seen == RaySet(ourKing, d, k) && forall i ::
        1 <= i < k ==> Step(ourKing, d, i) !in ours
      requires candidate.Some? ==> 1 <= j < k && candidate.value == Step(ourKing, d, j) && candidate.value in ours
      requires candidate.Some? ==> forall i :: 1 <= i < k && i != j ==> Step(ourKing, d, i) !in ours
      ensures RayScanned(View(), d, checker, line, pinned)
    {
      ghost var b := View();
      var destination := Step(ourKing, d, k);
      if (if Straight(d) then destination in rooks else destination in bishops) {
        if candidate.Some? {
          PinSeen(b, d, j, k);
          return false, {}, candidate;
        }
        CheckSeen(b, d, k);
        return true, seen, None;
      }
      BlockSeen(b, d, k);
      return false, {}, None;
    }

    /** One ray of the scan around our king: a checker with its line, or a piece pinned behind which one looks on. */
    method ScanRay(d: Direction) returns (checker: bool, line: set<Square>, pinned: Option<Square>)
      requires PiecesDisjoint(View()) && ourKing.OnBoard()
      ensures RayScanned(View(), d, checker, line, pinned)
    {
      ghost var b := View();
      line := {};
      pinned := None;
      var candidate: Option<Square> := None;
      ghost var j := 0;
      var k := 1;
      var king, mine, others := ourKing, ours, theirs;
      while Step(king, d, k).OnBoard()
        invariant k >= 1 && Walked(b, d, k, j, candidate, line) && (k == 1 || Step(king, d, k - 1).OnBoard())
        decreases 8 - k
      {
        ghost var was, lineWas, jWas := candidate, line, j;
        var destination := Step(king, d, k);
        if destination in mine {
          if candidate.Some? {
            NothingSeen(b, d, j, k);
            return false, {}, None;
          }
          candidate := Some(destination);
          j := k;
        }
        if candidate.None? { line := line + {destination}; }
        if destination in others {
          checker, line, pinned := MeetTheirs(d, k, j, candidate, line);
          return;
        }
        WalkOn(b, d, k, jWas, was, lineWas, j, candidate, line);
        k := k + 1;
      }
      EdgeSeen(b, d, k);
      return false, {}, None;
    }

    /** The loop over four directions: pins, lines and the number of checking rays. */
    method ScanRays(straight: bool) returns (pinned: set<Square>, lines: set<Square>, count: int)
      requires PiecesDisjoint(View()) && ourKing.OnBoard()
      ensures forall p :: p in pinned <==> exists d :: Straight(d) == straight && PinnedAlong(View(), p, d)
      ensures forall t :: t in lines <==> exists d :: Straight(d) == straight && SliderLine(View(), d, t)
      ensures count == CheckingRays(View(), Dirs(straight))
    {
      ghost var b := View();
      pinned, lines, count := {}, {}, 0;
      var dirs := Dirs(straight);
      for i := 0 to 4
        invariant forall p :: p in pinned <==> exists j :: 0 <= j < i && PinnedAlong(b, p, dirs[j])
        invariant forall t :: t in lines <==> exists j :: 0 <= j < i && SliderLine(b, dirs[j], t)
        invariant count == CheckingRays(b, dirs[..i])
      {
        var checker, line, found := ScanRay(dirs[i]);
        if checker { count := count + 1; }
        lines := lines + line;
        if found.Some? { pinned := pinned + {found.value}; }
        assert dirs[..i + 1] == dirs[..i] + [dirs[i]];
        CheckingRaysAppend(b, dirs[..i], dirs[i]);
      }
      assert dirs[..4] == dirs;
      forall d ensures d in dirs <==> Straight(d) == straight { DirsByKind(straight, d); }
    }

    /** `GenerateKingAttackInfo`. */
    method GenerateKingAttackInfo() returns (info: KingAttackInfo)
      requires WellFormed(View())
      ensures Describes(info, View())
    {
      ghost var b := View();
      var pinned, lines, count := ScanRays(true);
      var diagonallyPinned, diagonals, more := ScanRays(false);
      pinned := pinned + diagonallyPinned;
      lines := lines + diagonals;
      count := count + more;
      var attackingPawns := set c | c in theirs && PawnChecksHere(ourKing, c);
      lines := lines + attackingPawns;
      if attackingPawns != {} { count := count + 1; }
      var attackingKnights := set c | c in theirs && KnightChecksHere(ourKing, c);
      lines := lines + attackingKnights;
      if attackingKnights != {} { count := count + 1; }
      CountIsSum(b, attackingPawns, attackingKnights);
      forall t ensures t in lines <==> OnAttackLine(b, t) { AttackLineCases(b, t); }
      assert forall p :: p in pinned <==> Pinned(b, p) by {
        forall p ensures p in pinned <==> Pinned(b, p) {
          if Pinned(b, p) {
            var d, j, k :| PinnedOn(b, p, d, j, k);
            assert PinnedAlong(b, p, d);
          }
        }
      }
      info := KingAttackInfo(count == 2, pinned, lines);
    }

    /** `IsLegalMove`: en passant, castling and king moves under check are played on a copy, the rest is looked up. */
    method LegalMove(tables: Tables, m: Move, info: KingAttackInfo) returns (ok: bool)
      requires tables.Built() && WellFormed(View()) && Pseudolegal(View(), m)
      ensures ok == IsLegalMove(View(), m, info)
    {
      if m.kind.EnPassant? {
        ok := SafeAfter(tables, m);
      } else if info.attackLines != {} {
        if m.from == ourKing {
          ok := SafeAfter(tables, m);
        } else if m.from in info.pinned || info.doubleCheck {
          ok := false;
        } else {
          ok := m.to in info.attackLines;
        }
      } else if m.from == ourKing {
        if !m.kind.Castle? { return true; }
        ok := SafeAfter(tables, m);
      } else {
        ok := m.from !in info.pinned || StaysInLine(ourKing, m.from, m.to);
      }
    }

    /** Apply the move on a copy and check that we are not under check. */
    method SafeAfter(tables: Tables, m: Move) returns (ok: bool)
      requires tables.Built() && WellFormed(View()) && Pseudolegal(View(), m)
      ensures ok == !InCheck(Play(View(), m))
    {
      var board := new ChessBoard.Copy(this);
      var zeroing := board.ApplyMove(m);
      PlayStaysOnBoard(View(), m);
      var check := board.IsUnderCheck(tables);
      ok := !check;
    }

    // ---- move generation ----

    /** The lambda `walk_free`. */
    method WalkFree(lo: int, hi: int, rook: int, king: int) returns (free: bool)
      ensures free == BackRankFree(View(), lo, hi, rook, king)
    {
      var i := lo;
      while i <= hi
        invariant forall f :: lo <= f < i && f <= hi && f != rook && f != king ==> Sq(f, 0) !in Occupied(View())
        decreases hi - i
      {
        if i != rook && i != king && (Sq(i, 0) in ours || Sq(i, 0) in theirs) { return false; }
        i := i + 1;
      }
      return true;
    }

    /** The lambda `range_attacked`: the last square is not looked at unless it is also the first. */
    method RangeAttacked(tables: Tables, from: int, to: int) returns (attacked: bool)
      requires tables.Built() && TheirsOnBoard(View()) && 0 <= from < 8 && 0 <= to < 8
      ensures attacked == WalkAttacked(View(), from, to)
    {
      if from == to {
        attacked := IsUnderAttack(tables, Sq(from, 0));
        return;
      }
      var f := from;
      while f != to
        invariant from <= f <= to || to <= f <= from
        invariant forall g :: from <= g < f || f < g <= from ==> !Attacked(View(), Sq(g, 0))
        decreases if from < to then to - f else f - to
      {
        var hit := IsUnderAttack(tables, Sq(f, 0));
        if hit { return true; }
        f := if from < to then f + 1 else f - 1;
      }
      return false;
    }

    method Castlings(tables: Tables) returns (moves: seq<Move>)
      requires tables.Built() && WellFormed(View())
      ensures NoRepeats(moves) && forall m :: m in moves <==> m.kind.Castle? && CastleMove(View(), m)
    {
      moves := [];
      var king := ourKing.file;
      if castlings.weCan000 {
        var rook := castlings.ourQueensideRook;
        var free := WalkFree(Min(2, rook), Max(3, king), rook, king);
        if free {
          var attacked := RangeAttacked(tables, king, 2);
          if !attacked { moves := moves + [Move(ourKing, Sq(rook, 0), Castle)]; }
        }
      }
      if castlings.weCan00 {
        var rook := castlings.ourKingsideRook;
        var free := WalkFree(Min(5, king), Max(6, rook), rook, king);
        if free {
          var attacked := RangeAttacked(tables, king, 6);
          if !attacked { moves := moves + [Move(ourKing, Sq(rook, 0), Castle)]; }
        }
      }
    }

    method KingSteps(tables: Tables) returns (moves: seq<Move>)
      requires tables.Built() && WellFormed(View())
      ensures NoRepeats(moves) && forall m :: m in moves <==> m.from == ourKing && KingMove(View(), m)
    {
      moves := [];
      var around := [SW, W, NW, S, N, SE, E, NE];
      for i := 0 to 8
        invariant forall m :: m in moves <==>
          m.from == ourKing && KingMove(View(), m) && exists j :: 0 <= j < i && m.to == Step(ourKing, around[j], 1)
        invariant NoRepeats(moves)
      {
        var to := Step(ourKing, around[i], 1);
        if to.OnBoard() && to !in ours {
          var attacked := IsUnderAttack(tables, to);
          if !attacked { moves := moves + [Move(ourKing, to, Plain)]; }
        }
      }
      forall m: Move | m.from == ourKing && KingMove(View(), m)
        ensures exists j :: 0 <= j < 8 && m.to == Step(ourKing, around[j], 1)
      {
        var j := NeighbourIndex(ourKing, m.to, around);
      }
    }

    /** One plain move for every set bit. */
    method PlainMoves(from: Square, targets: set<Square>) returns (moves: seq<Move>)
      requires forall t :: t in targets ==> t.OnBoard()
      ensures NoRepeats(moves) && forall m :: m in moves <==> m.from == from && m.kind.Plain? && m.to in targets
    {
      moves := [];
      var squares := SetBits(targets);
      for i := 0 to |squares|
        invariant forall m :: m in moves <==> m.from == from && m.kind.Plain? && m.to in squares[..i]
        invariant NoRepeats(moves)
      {
        moves := moves + [Move(from, squares[i], Plain)];
        assert squares[..i + 1] == squares[..i] + [squares[i]];
      }
      assert squares[..|squares|] == squares;
    }

    method LineMoves(tables: Tables, from: Square) returns (moves: seq<Move>)
      requires tables.Built() && WellFormed(View()) && from in ours
      ensures NoRepeats(moves) && forall m :: m in moves <==>
        m.from == from && m.kind.Plain? && m.to.OnBoard() && m.to !in ours && LineMove(View(), from, m.to)
    {
      moves := [];
      if from in rooks {
        var seen := tables.rook.Lookup(from, ours + theirs);
        moves := PlainMoves(from, seen - ours);
      }
      if from in bishops {
        var seen := tables.bishop.Lookup(from, ours + theirs);
        var diagonal := PlainMoves(from, seen - ours);
        StraightOrDiagonal(ours + theirs, from);
        NoRepeatsJoined(moves, diagonal);
        moves := moves + diagonal;
      }
      forall t: Square | t.OnBoard()
        ensures LineMove(View(), from, t) <==>
          (from in rooks && Sees(ours + theirs, from, true, t)) ||
            (from in bishops && Sees(ours + theirs, from, false, t))
      {
        LineMoveIsSeen(View(), from, t);
      }
    }

    /** The pawn part of the generator: one or two steps, captures to both sides, promotions, en passant. */
    method PawnMoves(from: Square) returns (moves: seq<Move>)
      requires WellFormed(View()) && from in ours && from in Masked(pawns)
      ensures NoRepeats(moves) && forall m :: m in moves <==> m.from == from && PawnMove(View(), m)
    {
      moves := [];
      var ahead := Sq(from.file, from.rank + 1);
      if ahead !in ours && ahead !in theirs {
        if ahead.rank != 7 {
          moves := [Move(from, ahead, Plain)];
          if ahead.rank == 2 {
            var jump := Sq(from.file, 3);
            if jump !in ours && jump !in theirs { moves := moves + [Move(from, jump, Plain)]; }
          }
        } else {
          moves := PromotionMoves(from, ahead);
        }
      }
      var left := PawnTake(from, -1);
      var right := PawnTake(from, 1);
      NoRepeatsJoined(moves, left);
      NoRepeatsJoined(moves + left, right);
      moves := moves + left + right;
    }

    method PawnTake(from: Square, direction: int) returns (moves: seq<Move>)
      requires WellFormed(View()) && from in ours && from in Masked(pawns) && (direction == -1 || direction == 1)
      ensures NoRepeats(moves)
      ensures forall m :: m in moves <==> m.from == from && PawnMove(View(), m) && m.to.file == from.file + direction
    {
      moves := [];
      var to := Sq(from.file + direction, from.rank + 1);
      if !(0 <= to.file < 8) { return; }
      if to in theirs {
        if to.rank == 7 {
          moves := PromotionMoves(from, to);
        } else {
          moves := [Move(from, to, Plain)];
        }
      } else if to.rank == 5 && Sq(to.file, 7) in pawns {
        moves := [Move(from, to, EnPassant)];
      }
    }

    /** `for source in our pieces`, the cases of `GeneratePseudolegalMoves`. */
    method MovesFrom(tables: Tables, from: Square) returns (moves: seq<Move>)
      requires tables.Built() && WellFormed(View()) && from in ours
      ensures NoRepeats(moves) && forall m :: m in moves <==> m.from == from && Pseudolegal(View(), m)
    {
      if from == ourKing {
        var steps := KingSteps(tables);
        var castles := Castlings(tables);
        NoRepeatsJoined(steps, castles);
        moves := steps + castles;
      } else if from in rooks || from in bishops {
        moves := LineMoves(tables, from);
      } else if from in Masked(pawns) {
        moves := PawnMoves(from);
      } else {
        moves := PlainMoves(from, (set t | t in OnBoardSquares() && KnightJump(from, t)) - ours);
      }
    }

    /** `GeneratePseudolegalMoves`: every pseudolegal move once, that is, every move of Article 3. */
    method GeneratePseudolegalMoves(tables: Tables) returns (moves: seq<Move>)
      requires tables.Built() && WellFormed(View())
      ensures NoRepeats(moves) && forall m :: m in moves <==> Pseudolegal(View(), m)
      ensures forall m :: m in moves <==> Allowed(View(), m)
    {
      moves := [];
      var sources := SetBits(ours);
      for i := 0 to |sources|
        invariant forall m :: m in moves <==> m.from in sources[..i] && Pseudolegal(View(), m)
        invariant NoRepeats(moves)
      {
        var some := MovesFrom(tables, sources[i]);
        NoRepeatsJoined(moves, some);
        moves := moves + some;
        assert sources[..i + 1] == sources[..i] + [sources[i]];
      }
      assert sources[..|sources|] == sources;
      forall m ensures Pseudolegal(View(), m) <==> Allowed(View(), m) { PseudolegalMeans(View(), m); }
    }

    /** `GenerateLegalMoves`: the pseudolegal moves that pass the fast test. On a sound board these are exactly the
        legal moves: those of Article 3 after which no piece of theirs attacks our king. */
    method GenerateLegalMoves(tables: Tables) returns (moves: seq<Move>)
      requires tables.Built() && Sound(View())
      ensures NoRepeats(moves) && forall m :: m in moves <==> Legal(View(), m)
      ensures forall m :: m in moves <==> Allowed(View(), m) && !UnderAttack(Play(View(), m), Play(View(), m).ourKing)
    {
      var info := GenerateKingAttackInfo();
      var candidates := GeneratePseudolegalMoves(tables);
      moves := KeepLegal(tables, candidates, info);
      forall m
        ensures Legal(View(), m) <==> Allowed(View(), m) && !UnderAttack(Play(View(), m), Play(View(), m).ourKing)
      {
        SoundLegalMeans(View(), m);
      }
    }

    /** Its loop. */
    method KeepLegal(tables: Tables, candidates: seq<Move>, info: KingAttackInfo) returns (moves: seq<Move>)
      requires tables.Built() && Sound(View()) && Describes(info, View())
      requires NoRepeats(candidates) && forall m :: m in candidates <==> Pseudolegal(View(), m)
      ensures NoRepeats(moves) && forall m :: m in moves <==> Legal(View(), m)
    {
      moves := [];
      KingsApart(View());
      for i := 0 to |candidates|
        invariant forall m :: m in moves <==> m in candidates[..i] && Legal(View(), m)
        invariant NoRepeats(moves)
      {
        var m := candidates[i];
        assert m in candidates && m !in candidates[..i];
        var ok := LegalMove(tables, m, info);
        LegalityCorrect(View(), m, info);
        if ok { moves := moves + [m]; }
        assert candidates[..i + 1] == candidates[..i] + [m];
      }
      assert candidates[..|candidates|] == candidates;
    }

    predicate PawnChecksHere(s: Square, c: Square)
      reads this
      ensures PawnChecksHere(s, c) == PawnChecks(View(), s, c)
    {
      c in theirs * pawns && PawnReach(s, c)
    }

    predicate KnightChecksHere(s: Square, c: Square)
      reads this
      ensures KnightChecksHere(s, c) == KnightChecks(View(), s, c)
    {
      c in theirs - {theirKing} - rooks - bishops - Masked(pawns) && KnightJump(s, c)
    }
  }

  // ---- lists of moves ----

  ghost predicate NoRepeats(moves: seq<Move>) {
    forall i, j :: 0 <= i < j < |moves| ==> moves[i] != moves[j]
  }

  lemma NoRepeatsJoined(x: seq<Move>, y: seq<Move>)
    requires NoRepeats(x) && NoRepeats(y) && forall m :: m in x ==> m !in y
    ensures NoRepeats(x + y)
  {
    forall i, j | 0 <= i < j < |x + y| ensures (x + y)[i] != (x + y)[j] {
      if i < |x| <= j { assert x[i] in x && y[j - |x|] in y; }
    }
  }

  /** No square is seen both along a rank or file and along a diagonal. */
  lemma StraightOrDiagonal(occupied: set<Square>, s: Square)
    ensures forall t :: Sees(occupied, s, true, t) ==> !Sees(occupied, s, false, t)
  {
    forall d, k, e, l | k >= 1 && l >= 1 && Step(s, d, k) == Step(s, e, l) ensures d == e {
      StepInjective(s, d, k, e, l);
    }
  }

  // ---- what one ray of the king scan means ----

  ghost predicate RayScanned(b: Board, d: Direction, checker: bool, line: set<Square>, pinned: Option<Square>) {
    && (checker <==> ClassChecks(b, Ray(d)))
    && (forall t :: t in line <==> SliderLine(b, d, t))
    && (pinned.Some? ==> PinnedAlong(b, pinned.value, d))
    && (forall p :: PinnedAlong(b, p, d) ==> pinned == Some(p))
  }

  ghost predicate SliderLine(b: Board, d: Direction, t: Square) {
    exists k :: SliderChecks(b, b.ourKing, d, k) && OnRay(b.ourKing, d, k, t)
  }

  ghost predicate PinnedAlong(b: Board, p: Square, d: Direction) {
    exists j, k :: PinnedOn(b, p, d, j, k)
  }

  /** What the scan knows before step `k`: no piece of theirs so far, and either none of ours, with the squares seen in
      `line`, or exactly one, `j` steps away. */
  ghost predicate Walked(b: Board, d: Direction, k: int, j: int, candidate: Option<Square>, line: set<Square>)
    requires k >= 1
  {
    && (forall i :: 1 <= i < k ==> Step(b.ourKing, d, i) !in b.theirs)
    && match candidate
       case None => line == RaySet(b.ourKing, d, k - 1) && forall i :: 1 <= i < k ==> Step(b.ourKing, d, i) !in b.ours
       case Some(s) =>
         && 1 <= j < k && s == Step(b.ourKing, d, j) && s in b.ours
         && forall i :: 1 <= i < k && i != j ==> Step(b.ourKing, d, i) !in b.ours
  }

  lemma WalkOn(b: Board, d: Direction, k: int, j: int, candidate: Option<Square>, line: set<Square>,
               nextJ: int, next: Option<Square>, nextLine: set<Square>)
    requires k >= 1 && Walked(b, d, k, j, candidate, line)
    requires var s := Step(b.ourKing, d, k);
      && s !in b.theirs && (s in b.ours ==> candidate.None? && next == Some(s) && nextJ == k)
      && (s !in b.ours ==> next == candidate && nextJ == j)
      && (next.None? ==> nextLine == line + {s})
    ensures Walked(b, d, k + 1, nextJ, next, nextLine)
  {
  }

  lemma CheckSeen(b: Board, d: Direction, k: int)
    requires SliderChecks(b, b.ourKing, d, k) && b.ours !! b.theirs
    ensures RayScanned(b, d, true, RaySet(b.ourKing, d, k), None)
  {
    assert InClass(b, Ray(d), Step(b.ourKing, d, k));
    forall t ensures t in RaySet(b.ourKing, d, k) <==> SliderLine(b, d, t) {
      RaySetIs(b.ourKing, d, k, t);
      if SliderLine(b, d, t) {
        var l :| SliderChecks(b, b.ourKing, d, l) && OnRay(b.ourKing, d, l, t);
        assert l == k;
      }
    }
  }

  /** What is left to say when the walk ends: every square before `k` is known and no checker was met. */
  lemma NoCheckBefore(b: Board, d: Direction, k: int)
    requires k >= 1 && forall l :: l >= 1 && SliderChecks(b, b.ourKing, d, l) ==> false
    ensures !ClassChecks(b, Ray(d)) && forall t :: !SliderLine(b, d, t)
  {
    if c :| InClass(b, Ray(d), c) { }
  }

  lemma PinSeen(b: Board, d: Direction, j: int, k: int)
    requires PinnedOn(b, Step(b.ourKing, d, j), d, j, k) && b.ours !! b.theirs
    ensures RayScanned(b, d, false, {}, Some(Step(b.ourKing, d, j)))
  {
    forall l | SliderChecks(b, b.ourKing, d, l) ensures false {
    }
    NoCheckBefore(b, d, k);
    forall p | PinnedAlong(b, p, d) ensures p == Step(b.ourKing, d, j) {
      var i, l :| PinnedOn(b, p, d, i, l);
    }
  }

  lemma NothingSeen(b: Board, d: Direction, j: int, k: int)
    requires 1 <= j < k && Step(b.ourKing, d, j) in b.ours && Step(b.ourKing, d, k) in b.ours && b.ours !! b.theirs
    requires forall i :: 1 <= i < k ==> Step(b.ourKing, d, i) !in b.theirs
    ensures RayScanned(b, d, false, {}, None)
  {
    forall l | SliderChecks(b, b.ourKing, d, l) ensures false {
    }
    NoCheckBefore(b, d, k);
    forall p ensures !PinnedAlong(b, p, d) {
      if i, l :| PinnedOn(b, p, d, i, l) {
      }
    }
  }

  lemma BlockSeen(b: Board, d: Direction, k: int)
    requires k >= 1 && Step(b.ourKing, d, k) in b.theirs && !Slides(b, Step(b.ourKing, d, k), d) && b.ours !! b.theirs
    requires forall i :: 1 <= i < k ==> Step(b.ourKing, d, i) !in b.theirs
    ensures RayScanned(b, d, false, {}, None)
  {
    forall l | SliderChecks(b, b.ourKing, d, l) ensures false {
    }
    NoCheckBefore(b, d, k);
    forall p ensures !PinnedAlong(b, p, d) {
      if i, l :| PinnedOn(b, p, d, i, l) {
      }
    }
  }

  lemma EdgeSeen(b: Board, d: Direction, k: int)
    requires PiecesDisjoint(b) && b.ourKing.OnBoard() && k >= 1 && !Step(b.ourKing, d, k).OnBoard()
    requires forall i :: 1 <= i < k ==> Step(b.ourKing, d, i) !in b.theirs
    ensures RayScanned(b, d, false, {}, None)
  {
    forall l | l >= 1 && Step(b.ourKing, d, l) in b.theirs ensures false {
      if l >= k { RayStaysOnBoard(b.ourKing, d, l, k); }
    }
    NoCheckBefore(b, d, k);
  }

  // ---- helpers of the generator ----

  /** One move for each of `kPromotions`. */
  method PromotionMoves(from: Square, to: Square) returns (r: seq<Move>)
    ensures NoRepeats(r)
    ensures forall m :: m in r <==> m.from == from && m.to == to && m.kind.Promote?
  {
    r := [Move(from, to, Promote(Queen)), Move(from, to, Promote(Rook)), Move(from, to, Promote(Bishop)),
      Move(from, to, Promote(Knight))];
    assert r[0] in r && r[1] in r && r[2] in r && r[3] in r;
    forall m: Move | m.from == from && m.to == to && m.kind.Promote? ensures m in r {
      match m.kind.piece
      case Queen => assert r[0] == m;
      case Rook => assert r[1] == m;
      case Bishop => assert r[2] == m;
      case Knight => assert r[3] == m;
    }
  }

  /** Iterating over a bitboard. */
  method SetBits(x: set<Square>) returns (squares: seq<Square>)
    requires forall s :: s in x ==> s.OnBoard()
    ensures Distinct(squares) && forall s :: s in squares <==> s in x
  {
    squares := Ordered(x, 0);
    OrderedIs(x, 0);
  }

  function OnBoardSquares(): (r: set<Square>)
    ensures forall s: Square :: s in r <==> s.OnBoard()
  {
    Ranks(0, 8)
  }

  lemma NeighbourIndex(s: Square, t: Square, around: seq<Direction>) returns (j: nat)
    requires Near(s, t) && s != t && around == [SW, W, NW, S, N, SE, E, NE]
    ensures j < 8 && t == Step(s, around[j], 1)
  {
    var n := (t.file - s.file + 1) * 3 + t.rank - s.rank + 1;
    j := if n < 4 then n else n - 1;
  }

  lemma LineMoveIsSeen(b: Board, from: Square, t: Square)
    requires t.OnBoard()
    ensures LineMove(b, from, t) <==>
      (from in b.rooks && Sees(Occupied(b), from, true, t)) || (from in b.bishops && Sees(Occupied(b), from, false, t))
  {
  }

  // ---- putting the rays together ----

  ghost function CheckingRays(b: Board, dirs: seq<Direction>): int {
    if dirs == [] then 0 else One(ClassChecks(b, Ray(dirs[0]))) + CheckingRays(b, dirs[1..])
  }

  lemma {:induction false} CheckingRaysAppend(b: Board, dirs: seq<Direction>, d: Direction)
    ensures CheckingRays(b, dirs + [d]) == CheckingRays(b, dirs) + One(ClassChecks(b, Ray(d)))
  {
    if dirs == [] {
      assert dirs + [d] == [d];
    } else {
      assert (dirs + [d])[1..] == dirs[1..] + [d];
      CheckingRaysAppend(b, dirs[1..], d);
    }
  }

  lemma FourRaysCount(b: Board, w: Direction, x: Direction, y: Direction, z: Direction)
    ensures CheckingRays(b, [w, x, y, z]) == One(ClassChecks(b, Ray(w))) + One(ClassChecks(b, Ray(x)))
      + One(ClassChecks(b, Ray(y))) + One(ClassChecks(b, Ray(z)))
  {
    assert [w, x, y, z][1..] == [x, y, z] && [x, y, z][1..] == [y, z] && [y, z][1..] == [z] && [z][1..] == [];
    assert CheckingRays(b, [z]) == One(ClassChecks(b, Ray(z))) + CheckingRays(b, []);
    assert CheckingRays(b, [y, z]) == One(ClassChecks(b, Ray(y))) + One(ClassChecks(b, Ray(z)));
  }

  lemma {:induction false} CountIsSum(b: Board, pawns: set<Square>, knights: set<Square>)
    requires forall c :: c in pawns <==> PawnChecks(b, b.ourKing, c)
    requires forall c :: c in knights <==> KnightChecks(b, b.ourKing, c)
    ensures AttackerCount(b) ==
      CheckingRays(b, Dirs(true)) + CheckingRays(b, Dirs(false)) + One(pawns != {}) + One(knights != {})
  {
    CountIsTenClasses(b);
    FourRaysCount(b, N, S, E, W);
    FourRaysCount(b, NE, SE, NW, SW);
    assert Dirs(true) == [N, S, E, W] && Dirs(false) == [NE, SE, NW, SW];
    SomeInClass(b, PawnClass, pawns);
    SomeInClass(b, KnightClass, knights);
  }

  lemma CountIsTenClasses(b: Board)
    ensures AttackerCount(b) == One(ClassChecks(b, Ray(N))) + One(ClassChecks(b, Ray(S))) + One(ClassChecks(b, Ray(E)))
      + One(ClassChecks(b, Ray(W))) + One(ClassChecks(b, Ray(NE))) + One(ClassChecks(b, Ray(NW))) +
        One(ClassChecks(b, Ray(SE)))
      + One(ClassChecks(b, Ray(SW))) + One(ClassChecks(b, PawnClass)) + One(ClassChecks(b, KnightClass))
  {
  }

  lemma SomeInClass(b: Board, g: CheckClass, x: set<Square>)
    requires forall c :: c in x <==> InClass(b, g, c)
    ensures x != {} <==> ClassChecks(b, g)
  {
    if c :| c in x { assert InClass(b, g, c); }
    if c :| InClass(b, g, c) { assert c in x; }
  }

  lemma {:induction false} OnSliderLine(b: Board, c: Square, t: Square) returns (d: Direction)
    requires Checks(b, b.ourKing, c) && OnLine(b.ourKing, c, t)
    ensures SliderLine(b, d, t) || PawnChecks(b, b.ourKing, t) || KnightChecks(b, b.ourKing, t)
  {
    var s := b.ourKing;
    d := N;
    if t != c {
      var e, k, i :| 1 <= i < k && c == Step(s, e, k) && t == Step(s, e, i);
      BetweenIsOpen(b, s, c, e, k, i);
      assert OnRay(s, e, k, t);
      d := e;
    } else if e, k :| c == Step(s, e, k) && SliderChecks(b, s, e, k) {
      assert OnRay(s, e, k, t);
      d := e;
    }
  }

  lemma {:induction false} SliderLineAnswers(b: Board, d: Direction, t: Square)
    requires SliderLine(b, d, t)
    ensures OnAttackLine(b, t)
  {
    var k :| SliderChecks(b, b.ourKing, d, k) && OnRay(b.ourKing, d, k, t);
    var i :| 1 <= i <= k && Step(b.ourKing, d, i) == t;
    assert Checks(b, b.ourKing, Step(b.ourKing, d, k));
    assert OnLine(b.ourKing, Step(b.ourKing, d, k), t);
  }

  lemma {:induction false} AttackLineCases(b: Board, t: Square)
    ensures OnAttackLine(b, t) <==>
      (exists d :: SliderLine(b, d, t)) || PawnChecks(b, b.ourKing, t) || KnightChecks(b, b.ourKing, t)
  {
    if OnAttackLine(b, t) {
      var c :| Checks(b, b.ourKing, c) && OnLine(b.ourKing, c, t);
      var d := OnSliderLine(b, c, t);
    }
    if d :| SliderLine(b, d, t) { SliderLineAnswers(b, d, t); }
    if PawnChecks(b, b.ourKing, t) || KnightChecks(b, b.ourKing, t) {
      assert Checks(b, b.ourKing, t) && OnLine(b.ourKing, t, t);
    }
  }

  lemma PlayStaysOnBoard(b: Board, m: Move)
    requires WellFormed(b) && Pseudolegal(b, m)
    ensures TheirsOnBoard(Play(b, m)) && Play(b, m).ourKing.OnBoard()
  {
  }

  /** The two lookup tables, built once at start-up. */
  datatype Tables = Tables(rook: MagicTable, bishop: MagicTable) {
    ghost predicate Built()
      reads rook.masks, rook.offsets, rook.attacks, bishop.masks, bishop.offsets, bishop.attacks
    {
      rook.straight && rook.Built() && !bishop.straight && bishop.Built()
    }
  }

  ghost predicate TheirsOnBoard(b: Board) {
    forall c :: c in b.theirs ==> c.OnBoard()
  }

  ghost predicate SliderOf(b: Board, s: Square, straight: bool) {
    exists d, k :: Straight(d) == straight && SliderChecks(b, s, d, k)
  }

  lemma {:induction false} LookupFindsSliders(b: Board, s: Square, straight: bool, seen: set<Square>)
    requires TheirsOnBoard(b) && forall t :: t in seen <==> Sees(Occupied(b), s, straight, t)
    ensures seen * (b.theirs * (if straight then b.rooks else b.bishops)) != {} <==> SliderOf(b, s, straight)
    ensures SliderOf(b, s, straight) ==> Attacked(b, s)
  {
    var hits := seen * (b.theirs * (if straight then b.rooks else b.bishops));
    if t :| t in hits {
      var d, k :| Straight(d) == straight && k >= 1 && t == Step(s, d, k) && Clear(Occupied(b), s, d, k);
      assert SliderChecks(b, s, d, k);
    }
    if d, k :| Straight(d) == straight && SliderChecks(b, s, d, k) {
      assert Step(s, d, k) in hits;
      assert Checks(b, s, Step(s, d, k));
    }
  }

  /** The test for an en passant flag, made on the sets after the move, against the condition before it. */
  lemma PassedBeside(b: Board, m: Move, theirs: set<Square>, pawns: set<Square>)
    requires Movable(b, m) && m.from != b.ourKing && !m.kind.Promote?
    requires var capture := m.to in b.theirs; var passed := if m.kind.EnPassant? then {Sq(m.to.file, 4)} else {};
      var now := Masked(b.pawns) - (if capture then {m.to} else {}) - passed;
      theirs == b.theirs - {m.to} - passed && pawns == Carried(now, {m.from}, m, m.from in now)
    ensures var left, right := Sq(m.to.file - 1, m.to.rank), Sq(m.to.file + 1, m.to.rank);
      (m.to.rank - m.from.rank == 2 && m.to in pawns && {left, right} * theirs * pawns != {}) <==> MayBePassed(b, m)
  {
    var left, right := Sq(m.to.file - 1, m.to.rank), Sq(m.to.file + 1, m.to.rank);
    if m.to.rank - m.from.rank == 2 {
      assert m.to in pawns <==> m.from in RealPawns(b);
      assert left in theirs && left in pawns <==> left in b.theirs && left in RealPawns(b);
      assert right in theirs && right in pawns <==> right in b.theirs && right in RealPawns(b);
      assert {left, right} * theirs * pawns != {} <==>
        (left in theirs && left in pawns) || (right in theirs && right in pawns) by {
        assert left in theirs && left in pawns ==> left in {left, right} * theirs * pawns;
        assert right in theirs && right in pawns ==> right in {left, right} * theirs * pawns;
      }
    }
  }

  /** The fields a piece move leaves behind, as the steps of `MovePiece` produce them, are those of `Play`. */
  lemma PieceMoveFields(b: Board, m: Move, a: Board)
    requires Movable(b, m) && m.from != b.ourKing
    requires var capture := m.to in b.theirs; var passed := if m.kind.EnPassant? then {Sq(m.to.file, 4)} else {};
      var hit := if capture then {m.to} else {};
      var rooks, bishops, pawns := b.rooks - hit, b.bishops - hit, Masked(b.pawns) - hit - passed;
      && a.ours == b.ours - {m.from} + {m.to} && a.theirs == b.theirs - {m.to} - passed
      && a.ourKing == b.ourKing && a.theirKing == b.theirKing && a.flipped == b.flipped
      && if m.kind.Promote? then
           && a.rooks == rooks + (if m.kind.piece.Rook? || m.kind.piece.Queen? then {m.to} else {})
           && a.bishops == bishops + (if m.kind.piece.Bishop? || m.kind.piece.Queen? then {m.to} else {})
           && a.pawns == pawns - {m.from}
         else
           && a.rooks == Carried(rooks, {m.from}, m, m.from in rooks)
           && a.bishops == Carried(bishops, {m.from}, m, m.from in bishops)
           && a.pawns == Carried(pawns, {m.from}, m, m.from in pawns) + if MayBePassed(b, m) then {Sq(m.to.file, 0)}
             else {}
    requires a.castlings == CastlingsAfter(b, m)
    ensures a == Play(b, m)
  {
    assert a.rooks == Play(b, m).rooks;
    assert a.bishops == Play(b, m).bishops;
    assert a.pawns == Play(b, m).pawns;
    assert a.theirs == Play(b, m).theirs;
  }

  /** The set-level facts about a pseudolegal move of a well-formed board that `ApplyMove` relies on. */
  predicate Movable(b: Board, m: Move) {
    && m.from in b.ours && m.from !in b.theirs
    && (m.from in RealPawns(b) ==> m.from !in b.rooks && m.from !in b.bishops)
    && (m.from == b.ourKing ==>
          (m.kind.Plain? || m.kind.Castle?) && m.from !in b.rooks && m.from !in b.bishops && m.from !in RealPawns(b))
    && match m.kind
       case Castle => CastleShape(b, m)
       case Plain => Lands(b, m) && (m.from in RealPawns(b) ==> InPawnMask(m.to))
       case Promote(_) => Lands(b, m) && m.from in RealPawns(b) && m.to.rank == 7
       case EnPassant =>
         var passed := Sq(m.to.file, 4);
         && Lands(b, m) && m.from in RealPawns(b) && InPawnMask(m.to) && m.to.rank == m.from.rank + 1 &&
           m.to !in b.theirs
         && passed in b.theirs && passed !in b.rooks && passed !in b.bishops && passed != m.from
  }

  predicate Lands(b: Board, m: Move) {
    && m.to !in b.ours && m.to != m.from
    && (m.to !in b.theirs ==> m.to !in b.rooks && m.to !in b.bishops && m.to !in RealPawns(b))
  }

  lemma PseudolegalIsMovable(b: Board, m: Move)
    requires WellFormed(b) && Pseudolegal(b, m)
    ensures Movable(b, m)
  {
    if m.kind.Castle? { CastleSquares(b, m); }
  }
}
