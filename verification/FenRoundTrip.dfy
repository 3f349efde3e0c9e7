// The fields after the piece placement, and the round trip of a whole position.

module FenRoundTrip {
  import opened Squares
  import opened Board
  import opened Notation
  import opened Fen
  import Invariants

  // ---- words ----

  function SkipSpaces(s: string): string
    decreases |s|
  {
    if s != [] && s[0] == ' ' then SkipSpaces(s[1..]) else s
  }

  function Word(s: string): string
    decreases |s|
  {
    if s == [] || s[0] == ' ' then [] else [s[0]] + Word(s[1..])
  }

  function AfterWord(s: string): string
    decreases |s|
  {
    if s == [] || s[0] == ' ' then s else AfterWord(s[1..])
  }

  datatype Rest = Broken | Ended | More(s: string)

  /** `skip_whitespace` with an error message: a field ends at a space or at the end. */
  function Gap(s: string): (r: Rest)
    ensures r.More? ==> r.s != [] && r.s[0] != ' '
  {
    SkipsAll(s);
    if s != [] && s[0] != ' ' then Broken else if SkipSpaces(s) == [] then Ended else More(SkipSpaces(s))
  }

  lemma {:induction false} SkipsAll(s: string)
    ensures SkipSpaces(s) == [] || SkipSpaces(s)[0] != ' '
    decreases |s|
  {
    if s != [] && s[0] == ' ' { SkipsAll(s[1..]); }
  }

  predicate NoSpaces(s: string) {
    forall i :: 0 <= i < |s| ==> s[i] != ' '
  }

  predicate FieldEnds(s: string) {
    s == [] || s[0] == ' '
  }

  lemma {:induction false} WordRead(f: string, rest: string)
    requires NoSpaces(f) && FieldEnds(rest)
    ensures Word(f + rest) == f && AfterWord(f + rest) == rest
    decreases |f|
  {
    if f == [] {
      assert f + rest == rest;
    } else {
      assert (f + rest)[1..] == f[1..] + rest;
      WordRead(f[1..], rest);
    }
  }

  lemma SpaceSkipped(f: string)
    requires f != [] && f[0] != ' '
    ensures SkipSpaces([' '] + f) == f && SkipSpaces(f) == f
  {
    assert ([' '] + f)[1..] == f;
  }

  // ---- numbers ----

  function NatText(n: nat): string {
    if n < 10 then [Digit(n)] else NatText(n / 10) + [Digit(n % 10)]
  }

  function IntText(n: int): string {
    if n < 0 then ['-'] + NatText(-n) else NatText(n)
  }

  predicate IsDigit(c: char) {
    '0' <= c <= '9'
  }

  function DigitsPrefix(s: string): string
    decreases |s|
  {
    if s == [] || !IsDigit(s[0]) then [] else [s[0]] + DigitsPrefix(s[1..])
  }

  function DigitsValue(s: string): nat
    requires forall i :: 0 <= i < |s| ==> IsDigit(s[i])
  {
    if s == [] then 0 else
    assert IsDigit(s[|s| - 1]);
    10 * DigitsValue(s[..|s| - 1]) + (s[|s| - 1] as int - '0' as int)
  }

  lemma {:induction false} PrefixIsDigits(s: string)
    ensures forall i :: 0 <= i < |DigitsPrefix(s)| ==> IsDigit(DigitsPrefix(s)[i])
    decreases |s|
  {
    if s != [] && IsDigit(s[0]) { PrefixIsDigits(s[1..]); }
  }

  /** `std::from_chars` into an `int`: an optional minus and at least one digit; what follows is ignored. */
  function ParseInt(s: string): Option<int> {
    var negative := s != [] && s[0] == '-';
    var digits := DigitsPrefix(if negative then s[1..] else s);
    PrefixIsDigits(if negative then s[1..] else s);
    if digits == [] then None else
    var magnitude: int := DigitsValue(digits);
    var value := if negative then -magnitude else magnitude;
    if -0x8000_0000 <= value < 0x8000_0000 then Some(value) else None
  }

  lemma {:induction false} NatTextDigits(n: nat)
    ensures NatText(n) != [] && forall i :: 0 <= i < |NatText(n)| ==> IsDigit(NatText(n)[i])
    ensures DigitsValue(NatText(n)) == n
  {
    if n < 10 {
      assert [Digit(n)][..0] == [];
    } else {
      NatTextDigits(n / 10);
      assert NatText(n)[..|NatText(n)| - 1] == NatText(n / 10);
    }
  }

  lemma {:induction false} AllDigits(s: string)
    requires forall i :: 0 <= i < |s| ==> IsDigit(s[i])
    ensures DigitsPrefix(s) == s
    decreases |s|
  {
    if s != [] { AllDigits(s[1..]); }
  }

  lemma IntRead(n: int)
    requires -0x8000_0000 <= n < 0x8000_0000
    ensures ParseInt(IntText(n)) == Some(n) && NoSpaces(IntText(n)) && IntText(n) != []
  {
    var m: nat := if n < 0 then -n else n;
    var digits := NatText(m);
    NatTextDigits(m);
    AllDigits(digits);
    if n < 0 {
      assert IntText(n)[0] == '-' && IntText(n)[1..] == digits;
    } else {
      assert IntText(n) == digits && digits[0] != '-';
    }
  }

  // ---- castling rights ----

  datatype Reading = Fine(board: Board, rule50: int, moves: int) | Wrong(error: FenError)

  function OwnRook(b: Board, s: Square, theirs: bool): bool {
    s in b.rooks && s !in b.bishops && if theirs then s in b.theirs else s in b.ours
  }

  /** `find_rook`: from the corner towards the king. */
  function FindRook(b: Board, theirs: bool, kingside: bool, file: int): Option<int>
    decreases if kingside then file else 7 - file
  {
    var king := if theirs then b.theirKing.file else b.ourKing.file;
    if file == king || file < 0 || file > 7 then None
    else if OwnRook(b, Sq(file, if theirs then 7 else 0), theirs) then Some(file)
    else FindRook(b, theirs, kingside, if kingside then file - 1 else file + 1)
  }

  function SetRight(c: Castlings, theirs: bool, kingside: bool, file: int): Castlings {
    if kingside && theirs then c.(theyCan00 := true, theirKingsideRook := file)
    else if kingside then c.(weCan00 := true, ourKingsideRook := file)
    else if theirs then c.(theyCan000 := true, theirQueensideRook := file)
    else c.(weCan000 := true, ourQueensideRook := file)
  }

  datatype Rights = Rights(castlings: Castlings) | NoRights(error: FenError)

  function ReadRight(b: Board, r: Rights, c: char): Rights {
    if r.NoRights? then r else
    var theirs := IsUpper(c) == b.flipped;
    var king := if theirs then b.theirKing.file else b.ourKing.file;
    if Lower(c) == 'k' || Lower(c) == 'q' then
      var kingside := Lower(c) == 'k';
      var rook := FindRook(b, theirs, kingside, if kingside then 7 else 0);
      if rook.None? then NoRights(MissingRook) else Rights(SetRight(r.castlings, theirs, kingside, rook.value))
    else
      var file := ParseFile(c);
      if !(0 <= file < 8) then NoRights(InvalidCastling) else Rights(SetRight(r.castlings, theirs, file > king, file))
  }

  function ReadRights(b: Board, r: Rights, text: string): Rights
    decreases |text|
  {
    if text == [] then r else ReadRights(b, ReadRight(b, r, text[0]), text[1..])
  }

  function Upper(c: char): char {
    if 'a' <= c <= 'z' then (c as int - 'a' as int + 'A' as int) as char else c
  }

  function RookLetter(file: int, white: bool): char
    requires 0 <= file < 8
  {
    if white then Upper(FileChar(file)) else FileChar(file)
  }

  predicate RookFilesOnBoard(c: Castlings) {
    0 <= c.ourQueensideRook < 8 && 0 <= c.theirQueensideRook < 8 && 0 <= c.ourKingsideRook < 8 &&
      0 <= c.theirKingsideRook < 8
  }

  predicate StandardRooks(c: Castlings) {
    c.ourQueensideRook == 0 && c.theirQueensideRook == 0 && c.ourKingsideRook == 7 && c.theirKingsideRook == 7
  }

  function IfHeld(held: bool, c: char): string {
    if held then [c] else []
  }

  /** `Castlings::as_string`, White being "we": letters only if all four rook files are standard, held or not. */
  function CastlingText(c: Castlings): string
    requires RookFilesOnBoard(c)
  {
    if !c.weCan00 && !c.weCan000 && !c.theyCan00 && !c.theyCan000 then "-"
    else
      IfHeld(c.weCan00, Letter(c, true, true)) + IfHeld(c.weCan000, Letter(c, true, false))
      + IfHeld(c.theyCan00, Letter(c, false, true)) + IfHeld(c.theyCan000, Letter(c, false, false))
  }

  /** The letter of one right: K, Q, k and q if all rook files are standard, the rook's file otherwise. */
  function Letter(c: Castlings, white: bool, kingside: bool): char
    requires RookFilesOnBoard(c)
  {
    if StandardRooks(c) then (if kingside then if white then 'K' else 'k' else if white then 'Q' else 'q')
    else RookLetter(RookFile(c, white, kingside), white)
  }

  function RookFile(c: Castlings, ours: bool, kingside: bool): int {
    if ours then (if kingside then c.ourKingsideRook else c.ourQueensideRook)
    else if kingside then c.theirKingsideRook else c.theirQueensideRook
  }

  /** Rook files of rights not held are not written, so they read back as the corners. */
  function HeldOnly(c: Castlings): Castlings {
    c.(ourQueensideRook := if c.weCan000 then c.ourQueensideRook else 0,
       theirQueensideRook := if c.theyCan000 then c.theirQueensideRook else 0,
       ourKingsideRook := if c.weCan00 then c.ourKingsideRook else 7,
       theirKingsideRook := if c.theyCan00 then c.theirKingsideRook else 7)
  }

  lemma {:induction false} ReadRightsAppend(b: Board, r: Rights, s: string, t: string)
    ensures ReadRights(b, r, s + t) == ReadRights(b, ReadRights(b, r, s), t)
    decreases |s|
  {
    if s == [] {
      assert s + t == t;
    } else {
      assert (s + t)[1..] == s[1..] + t;
      ReadRightsAppend(b, ReadRight(b, r, s[0]), s[1..], t);
    }
  }

  function Give(c: Castlings, held: bool, theirs: bool, kingside: bool, file: int): Castlings {
    if held then SetRight(c, theirs, kingside, file) else c
  }

  /** One optional letter: `c` is the castlings, seen by the side to move, whose rights are being read. */
  lemma OneRead(b: Board, r: Castlings, held: bool, white: bool, kingside: bool, file: int, letter: char)
    requires 0 <= b.ourKing.file < 8 && 0 <= b.theirKing.file < 8 && 0 <= file < 8
    requires held ==> RookInPlace(b, white == b.flipped, kingside, file)
    requires letter == RookLetter(file, white) ||
      (file == (if kingside then 7 else 0) &&
        letter == (if kingside then if white then 'K' else 'k' else if white then 'Q' else 'q'))
    ensures ReadRights(b, Rights(r), IfHeld(held, letter)) == Rights(Give(r, held, white == b.flipped, kingside, file))
  {
    if held {
      assert [letter][1..] == [];
      assert ReadRights(b, Rights(r), [letter]) == ReadRights(b, ReadRight(b, Rights(r), letter), []);
    }
  }

  predicate RookInPlace(b: Board, theirs: bool, kingside: bool, file: int) {
    && OwnRook(b, Sq(file, if theirs then 7 else 0), theirs)
    && (kingside ==> (if theirs then b.theirKing else b.ourKing).file < file)
    && (!kingside ==> file < (if theirs then b.theirKing else b.ourKing).file)
  }

  lemma FourRead(b: Board, r0: Rights, r1: Rights, r2: Rights, r3: Rights, r4: Rights, s1: string, s2: string,
                 s3: string, s4: string)
    requires ReadRights(b, r0, s1) == r1 && ReadRights(b, r1, s2) == r2 && ReadRights(b, r2, s3) == r3 &&
      ReadRights(b, r3, s4) == r4
    ensures ReadRights(b, r0, s1 + s2 + s3 + s4) == r4
  {
    ReadRightsAppend(b, r0, s1 + s2 + s3, s4);
    ReadRightsAppend(b, r0, s1 + s2, s3);
    ReadRightsAppend(b, r0, s1, s2);
  }

  /** The board seen from White's side. */
  function Turned(b: Board): Board {
    if b.flipped then Mirrored(b) else b
  }

  lemma RooksInPlace(b: Board)
    requires WellFormed(b)
    ensures var c := Turned(b).castlings;
      && (c.weCan00 ==> RookInPlace(b, b.flipped, true, c.ourKingsideRook)) &&
        (c.weCan000 ==> RookInPlace(b, b.flipped, false, c.ourQueensideRook))
      && (c.theyCan00 ==> RookInPlace(b, !b.flipped, true, c.theirKingsideRook)) &&
        (c.theyCan000 ==> RookInPlace(b, !b.flipped, false, c.theirQueensideRook))
  {
  }

  /** The same rights from the same squares, whichever pieces besides king and rooks are compared. */
  predicate SameMen(a: Board, b: Board) {
    a.ours == b.ours && a.theirs == b.theirs && a.rooks == b.rooks && a.bishops == b.bishops
    && a.ourKing == b.ourKing && a.theirKing == b.theirKing && a.flipped == b.flipped
  }

  /** Reading the castling field restores the rights and the rook files of the rights held. */
  lemma {:induction false} CastlingRead(b: Board, a: Board)
    requires WellFormed(b) && SameMen(a, b) && RookFilesOnBoard(Turned(b).castlings)
    requires Turned(b).castlings.weCan00 || Turned(b).castlings.weCan000 || Turned(b).castlings.theyCan00 ||
      Turned(b).castlings.theyCan000
    ensures ReadRights(a, Rights(DEFAULT_CASTLINGS), CastlingText(Turned(b).castlings)) == Rights(HeldOnly(b.castlings))
  {
    var c, f := Turned(b).castlings, b.flipped;
    RooksInPlace(b);
    assert b.ourKing.OnBoard() && b.theirKing.OnBoard();
    var r1 := Give(DEFAULT_CASTLINGS, c.weCan00, f, true, c.ourKingsideRook);
    var r2 := Give(r1, c.weCan000, f, false, c.ourQueensideRook);
    var r3 := Give(r2, c.theyCan00, !f, true, c.theirKingsideRook);
    var r4 := Give(r3, c.theyCan000, !f, false, c.theirQueensideRook);
    OneRead(a, DEFAULT_CASTLINGS, c.weCan00, true, true, c.ourKingsideRook, Letter(c, true, true));
    OneRead(a, r1, c.weCan000, true, false, c.ourQueensideRook, Letter(c, true, false));
    OneRead(a, r2, c.theyCan00, false, true, c.theirKingsideRook, Letter(c, false, true));
    OneRead(a, r3, c.theyCan000, false, false, c.theirQueensideRook, Letter(c, false, false));
    FourRead(a, Rights(DEFAULT_CASTLINGS), Rights(r1), Rights(r2), Rights(r3), Rights(r4),
      IfHeld(c.weCan00, Letter(c, true, true)), IfHeld(c.weCan000, Letter(c, true, false)),
      IfHeld(c.theyCan00, Letter(c, false, true)), IfHeld(c.theyCan000, Letter(c, false, false)));
  }

  lemma CastlingTextShape(c: Castlings)
    requires RookFilesOnBoard(c)
    ensures CastlingText(c) != [] && NoSpaces(CastlingText(c))
    ensures CastlingText(c)[0] == '-' <==> !c.weCan00 && !c.weCan000 && !c.theyCan00 && !c.theyCan000
  {
  }

  // ---- reading a whole position ----

  function ReadMoves(b: Board, rule50: int, s: string): Reading {
    var n := ParseInt(Word(s));
    if n.None? then Wrong(BadNumber)
    else if SkipSpaces(AfterWord(s)) != [] then Wrong(ExtraCharacters)
    else Fine(b, rule50, n.value)
  }

  function ReadClock(b: Board, s: string): Reading {
    var n := ParseInt(Word(s));
    if n.None? then Wrong(BadNumber) else
    match Gap(AfterWord(s))
    case Broken => Wrong(SpaceExpected)
    case Ended => Fine(b, n.value, 1)
    case More(u) => ReadMoves(b, n.value, u)
  }

  function AfterEnPassant(b: Board, rest: string): Reading {
    match Gap(rest)
    case Broken => Wrong(SpaceExpected)
    case Ended => Fine(b, 0, 1)
    case More(u) => ReadClock(b, u)
  }

  function ReadEnPassant(b: Board, s: string): Reading
    requires s != []
  {
    if s[0] == '-' then AfterEnPassant(b, s[1..])
    else if |s| <= 2 then Wrong(EnPassantExpected)
    else
      var sq := Sq(ParseFile(s[0]), ParseRank(s[1]));
      if !sq.OnBoard() then Wrong(BadEnPassantSquare)
      else if sq.rank != (if b.flipped then 2 else 5) then Wrong(BadEnPassantRank)
      else if Sq(sq.file, 5) in Occupied(b) then Wrong(EnPassantOccupied)
      else if !(Sq(sq.file, 4) in b.theirs && Sq(sq.file, 4) in RealPawns(b)) then Wrong(NoPawnToCapture)
      else AfterEnPassant(b.(pawns := b.pawns + {Sq(sq.file, 7)}), s[2..])
  }

  function AfterCastling(b: Board, rest: string): Reading {
    match Gap(rest)
    case Broken => Wrong(SpaceExpected)
    case Ended => Fine(b, 0, 1)
    case More(u) => ReadEnPassant(b, u)
  }

  function ReadCastling(b: Board, s: string): Reading
    requires s != []
  {
    if s[0] == '-' then AfterCastling(b, s[1..]) else
    var r := ReadRights(b, Rights(b.castlings), Word(s));
    if r.NoRights? then Wrong(r.error) else AfterCastling(b.(castlings := r.castlings), AfterWord(s))
  }

  function ReadSide(b: Board, s: string): Reading
    requires s != []
  {
    if Lower(s[0]) != 'b' && Lower(s[0]) != 'w' then Wrong(InvalidSide) else
    var turned := if Lower(s[0]) == 'b' then Mirrored(b) else b;
    match Gap(s[1..])
    case Broken => Wrong(SpaceExpected)
    case Ended => Fine(turned, 0, 1)
    case More(u) => ReadCastling(turned, u)
  }

  /** `SetFromFen`: fields missing at the end keep their defaults. */
  function ParseFen(text: string): Reading {
    var s := SkipSpaces(text);
    var placed := PlaceAll(Placing(EMPTY_BOARD, 7, 0), Word(s));
    if placed.Failed? then Wrong(placed.error) else
    match Gap(AfterWord(s))
    case Broken => Wrong(SpaceExpected)
    case Ended => Fine(placed.board, 0, 1)
    case More(u) => ReadSide(placed.board, u)
  }

  // ---- writing a whole position ----

  ghost function EnPassantText(b: Board): string {
    if s :| s in b.pawns && s.rank == 7 && 0 <= s.file < 8
    then [FileChar(s.file), if b.flipped then '3' else '6']
    else "-"
  }

  /** The fields after the side to move. */
  ghost function FieldsText(b: Board, rule50: int, moves: int): string
    requires RookFilesOnBoard(b.castlings)
  {
    CastlingText(Turned(b).castlings) +
      ([' '] + (EnPassantText(b) + ([' '] + (IntText(rule50) + ([' '] + IntText(moves))))))
  }

  function SideText(b: Board): string {
    [if b.flipped then 'b' else 'w']
  }

  /** The full-move number written for a ply count. */
  function MoveNumber(b: Board, ply: nat): int {
    (ply + if b.flipped then 1 else 2) / 2
  }

  /** `PositionToFen`. */
  ghost function PositionText(b: Board, rule50: int, ply: nat): string
    requires RookFilesOnBoard(b.castlings)
  {
    RanksText(Turned(b), 7) + ([' '] + (SideText(b) + ([' '] + FieldsText(b, rule50, MoveNumber(b, ply)))))
  }

  // ---- the round trip ----

  lemma ClockRead(b: Board, rule50: int, moves: int)
    requires -0x8000_0000 <= rule50 < 0x8000_0000 && -0x8000_0000 <= moves < 0x8000_0000
    ensures ReadClock(b, IntText(rule50) + ([' '] + IntText(moves))) == Fine(b, rule50, moves)
  {
    IntRead(rule50);
    IntRead(moves);
    WordRead(IntText(rule50), [' '] + IntText(moves));
    SpaceSkipped(IntText(moves));
    WordRead(IntText(moves), []);
    assert IntText(moves) + [] == IntText(moves);
  }

  lemma GapRead(field: string)
    requires field != [] && field[0] != ' '
    ensures Gap([' '] + field) == More(field)
  {
    SpaceSkipped(field);
  }

  lemma DashRead(rest: string)
    ensures ("-" + rest)[1..] == rest && ("-" + rest)[0] == '-'
  {
  }

  lemma IntTextStarts(n: int, rest: string)
    requires -0x8000_0000 <= n < 0x8000_0000
    ensures IntText(n) + rest != [] && (IntText(n) + rest)[0] != ' '
  {
    IntRead(n);
    assert (IntText(n) + rest)[0] == IntText(n)[0];
  }

  /** The en passant field: `a` has everything but the flag. */
  lemma {:induction false} EnPassantRead(b: Board, a: Board, rule50: int, moves: int)
    requires WellFormed(b) && SameMen(a, b) && a.pawns == RealPawns(b)
    requires -0x8000_0000 <= rule50 < 0x8000_0000 && -0x8000_0000 <= moves < 0x8000_0000
    ensures EnPassantText(b) != [] && EnPassantText(b)[0] != ' '
    ensures ReadEnPassant(a, EnPassantText(b) + ([' '] + (IntText(rule50) + ([' '] + IntText(moves))))) ==
      Fine(a.(pawns := b.pawns), rule50, moves)
  {
    var clocks := IntText(rule50) + ([' '] + IntText(moves));
    IntTextStarts(rule50, [' '] + IntText(moves));
    GapRead(clocks);
    ClockRead(a, rule50, moves);
    ClockRead(a.(pawns := b.pawns), rule50, moves);
    if s :| s in b.pawns && s.rank == 7 && 0 <= s.file < 8 {
      var ep :| ep in b.pawns && ep.rank == 7 && 0 <= ep.file < 8 &&
        EnPassantText(b) == [FileChar(ep.file), if b.flipped then '3' else '6'];
      FlagRead(b, a, ep, EnPassantText(b), [' '] + clocks);
    } else {
      DashRead([' '] + clocks);
      NoFlag(b);
    }
  }

  lemma FlagRead(b: Board, a: Board, ep: Square, field: string, rest: string)
    requires WellFormed(b) && SameMen(a, b) && a.pawns == RealPawns(b) && rest != []
    requires ep in b.pawns && ep.rank == 7 && 0 <= ep.file < 8 &&
      field == [FileChar(ep.file), if b.flipped then '3' else '6']
    ensures ReadEnPassant(a, field + rest) == AfterEnPassant(a.(pawns := b.pawns), rest)
  {
    var text := field + rest;
    assert text[2..] == rest && text[0] == FileChar(ep.file) && text[1] == field[1];
    FlagRestored(b, ep);
    assert RealPawns(a) == RealPawns(b);
  }

  /** The pawns are the real ones and the flag. */
  lemma FlagRestored(b: Board, ep: Square)
    requires WellFormed(b) && ep in b.pawns && ep.rank == 7
    ensures b.pawns == RealPawns(b) + {Sq(ep.file, 7)} && FlagBacked(b, ep) && Sq(ep.file, 4) in RealPawns(b)
  {
    forall s ensures s in b.pawns <==> s in RealPawns(b) + {ep} { }
  }

  lemma NoFlag(b: Board)
    requires WellFormed(b) && forall s :: s in b.pawns && s.rank == 7 ==> !(0 <= s.file < 8)
    ensures b.pawns == RealPawns(b)
  {
    assert forall s :: s in b.pawns && !InPawnMask(s) ==> FlagBacked(b, s);
  }

  /** Everything after the side to move. */
  lemma RestRead(b: Board, a: Board, rule50: int, moves: int)
    requires WellFormed(b) && SameMen(a, b) && a.pawns == RealPawns(b) && a.castlings == DEFAULT_CASTLINGS &&
      RookFilesOnBoard(b.castlings)
    requires -0x8000_0000 <= rule50 < 0x8000_0000 && -0x8000_0000 <= moves < 0x8000_0000
    ensures FieldsText(b, rule50, moves) != [] && FieldsText(b, rule50, moves)[0] != ' '
    ensures ReadCastling(a, FieldsText(b, rule50, moves)) == Fine(b.(castlings := HeldOnly(b.castlings)), rule50, moves)
  {
    var c := Turned(b).castlings;
    var ep := EnPassantText(b) + ([' '] + (IntText(rule50) + ([' '] + IntText(moves))));
    var field := CastlingText(c);
    CastlingTextShape(c);
    var full := a.(castlings := HeldOnly(b.castlings));
    EnPassantRead(b, full, rule50, moves);
    GapRead(ep);
    assert (field + ([' '] + ep))[0] == field[0];
    if field[0] == '-' {
      DashRead([' '] + ep);
      EnPassantRead(b, a, rule50, moves);
    } else {
      WordRead(field, [' '] + ep);
      CastlingRead(b, a);
    }
  }

  lemma {:induction false} RankHasNoSpaces(w: Board, rank: int, file: nat, empty: nat)
    requires empty <= file <= 8
    ensures NoSpaces(RankText(w, rank, file, empty)) &&
      (RankText(w, rank, file, empty) == [] ==> file == 8 && empty == 0)
    decreases 8 - file
  {
    if file < 8 {
      RankHasNoSpaces(w, rank, file + 1, empty + 1);
      RankHasNoSpaces(w, rank, file + 1, 0);
    }
  }

  lemma {:induction false} RanksHaveNoSpaces(w: Board, rank: nat)
    requires rank < 8
    ensures NoSpaces(RanksText(w, rank)) && RanksText(w, rank) != []
  {
    RankHasNoSpaces(w, rank, 0, 0);
    if rank > 0 { RanksHaveNoSpaces(w, rank - 1); }
  }

  /** The board the placement and the side to move give. */
  lemma SideGives(b: Board)
    requires WellFormed(b)
    ensures Placeable(Turned(b)) && Turned(b).flipped == false
    ensures var w := Turned(b).(pawns := RealPawns(Turned(b)), castlings := DEFAULT_CASTLINGS, flipped := false);
      var a := if b.flipped then Mirrored(w) else w;
      SameMen(a, b) && a.pawns == RealPawns(b) && a.castlings == DEFAULT_CASTLINGS
  {
    if b.flipped {
      Invariants.MirrorMirror(b);
      Invariants.MirrorKeepsPieces(b);
      var w := Turned(b);
      assert FlipSet(FlipSet(b.ours)) == b.ours && FlipSet(FlipSet(b.theirs)) == b.theirs;
      assert FlipSet(FlipSet(b.rooks)) == b.rooks && FlipSet(FlipSet(b.bishops)) == b.bishops;
      assert FlipSet(RealPawns(w)) == RealPawns(b);
    }
  }

  lemma SideRead(a: Board, b: Board, rest: string)
    requires rest != [] && rest[0] != ' '
    ensures SideText(b) + ([' '] + rest) != [] && (SideText(b) + ([' '] + rest))[0] != ' '
    ensures ReadSide(a, SideText(b) + ([' '] + rest)) == ReadCastling(if b.flipped then Mirrored(a) else a, rest)
  {
    var s := SideText(b) + ([' '] + rest);
    assert s[0] == (if b.flipped then 'b' else 'w') && s[1..] == [' '] + rest;
    GapRead(rest);
  }

  lemma BoardRead(w: Board, rest: string)
    requires Placeable(w) && rest != [] && rest[0] != ' '
    ensures ParseFen(RanksText(w, 7) + ([' '] + rest)) ==
      ReadSide(w.(pawns := RealPawns(w), castlings := DEFAULT_CASTLINGS, flipped := false), rest)
  {
    var field := RanksText(w, 7);
    RanksHaveNoSpaces(w, 7);
    assert (field + ([' '] + rest))[0] == field[0];
    WordRead(field, [' '] + rest);
    PlacementRead(w);
    GapRead(rest);
  }

  /** Writing a position and reading it back restores the board, up to rook files of castling rights no longer held, and
      the fifty-move clock: for both colours, Chess960 castling and en passant. The move number read back is the one
      written, which is not the ply count. */
  lemma {:induction false} ParseUndoesWriting(b: Board, rule50: int, ply: nat)
    requires WellFormed(b) && RookFilesOnBoard(b.castlings)
    requires -0x8000_0000 <= rule50 < 0x8000_0000 && ply < 0x8000_0000
    ensures ParseFen(PositionText(b, rule50, ply)) ==
      Fine(b.(castlings := HeldOnly(b.castlings)), rule50, MoveNumber(b, ply))
  {
    var w, fields := Turned(b), FieldsText(b, rule50, MoveNumber(b, ply));
    var a := w.(pawns := RealPawns(w), castlings := DEFAULT_CASTLINGS, flipped := false);
    SideGives(b);
    RestRead(b, if b.flipped then Mirrored(a) else a, rule50, MoveNumber(b, ply));
    SideRead(a, b, fields);
    BoardRead(w, SideText(b) + ([' '] + fields));
  }

  // ---- the board alone ----

  /** `BoardToFen`. */
  ghost function BoardText(b: Board): string
    requires RookFilesOnBoard(b.castlings)
  {
    RanksText(Turned(b), 7) + ([' '] +
      (SideText(b) + ([' '] + (CastlingText(Turned(b).castlings) + ([' '] + EnPassantText(b))))))
  }

  ghost predicate HasFlag(b: Board) {
    exists s :: s in b.pawns && s.rank == 7 && 0 <= s.file < 8
  }

  lemma EnPassantLast(b: Board, a: Board)
    requires WellFormed(b) && SameMen(a, b) && a.pawns == RealPawns(b)
    ensures EnPassantText(b) != [] && EnPassantText(b)[0] != ' '
    ensures ReadEnPassant(a, EnPassantText(b)) == if HasFlag(b) then Wrong(EnPassantExpected)
      else Fine(a.(pawns := b.pawns), 0, 1)
  {
    if HasFlag(b) {
      var s :| s in b.pawns && s.rank == 7 && 0 <= s.file < 8;
      assert |EnPassantText(b)| == 2;
    } else {
      NoFlag(b);
      assert "-"[1..] == [];
    }
  }

  /** The text of the board alone reads back exactly when there is no en passant right: a square that ends the text is
      rejected. */
  lemma {:induction false} BoardTextReadsBack(b: Board)
    requires WellFormed(b) && RookFilesOnBoard(b.castlings)
    ensures ParseFen(BoardText(b)) == if HasFlag(b) then Wrong(EnPassantExpected)
      else Fine(b.(castlings := HeldOnly(b.castlings)), 0, 1)
  {
    var w := Turned(b);
    var fields := CastlingText(w.castlings) + ([' '] + EnPassantText(b));
    var a := w.(pawns := RealPawns(w), castlings := DEFAULT_CASTLINGS, flipped := false);
    SideGives(b);
    CastlingsLast(b, if b.flipped then Mirrored(a) else a);
    SideRead(a, b, fields);
    BoardRead(w, SideText(b) + ([' '] + fields));
  }

  lemma CastlingsLast(b: Board, a: Board)
    requires WellFormed(b) && SameMen(a, b) && a.pawns == RealPawns(b) && a.castlings == DEFAULT_CASTLINGS &&
      RookFilesOnBoard(b.castlings)
    ensures var fields := CastlingText(Turned(b).castlings) + ([' '] + EnPassantText(b));
      fields != [] && fields[0] != ' ' &&
      ReadCastling(a, fields) == if HasFlag(b) then Wrong(EnPassantExpected)
        else Fine(b.(castlings := HeldOnly(b.castlings)), 0, 1)
  {
    var c := Turned(b).castlings;
    var ep, field := EnPassantText(b), CastlingText(c);
    var full := a.(castlings := HeldOnly(b.castlings));
    CastlingTextShape(c);
    EnPassantLast(b, full);
    GapRead(ep);
    assert (field + ([' '] + ep))[0] == field[0];
    if field[0] == '-' {
      DashRead([' '] + ep);
      EnPassantLast(b, a);
    } else {
      WordRead(field, [' '] + ep);
      CastlingRead(b, a);
    }
  }

  // ---- reading step by step ----

  lemma {:induction false} FindRookSame(a: Board, b: Board, theirs: bool, kingside: bool, file: int)
    requires SameMen(a, b)
    ensures FindRook(a, theirs, kingside, file) == FindRook(b, theirs, kingside, file)
    decreases if kingside then file else 7 - file
  {
    var king := if theirs then b.theirKing.file else b.ourKing.file;
    if file != king && 0 <= file <= 7 { FindRookSame(a, b, theirs, kingside, if kingside then file - 1 else file + 1); }
  }

  lemma PlaceStep(b: Board, rank: int, file: int, word: string, pos: nat)
    requires pos < |word|
    ensures PlaceAll(Placing(b, rank, file), word[pos..]) ==
      PlaceAll(Place(Placing(b, rank, file), word[pos]), word[pos + 1..])
    ensures Place(Placing(b, rank, file), word[pos]).Failed? ==>
      PlaceAll(Placing(b, rank, file), word[pos..]) == Place(Placing(b, rank, file), word[pos])
  {
    assert word[pos..][1..] == word[pos + 1..];
    if Place(Placing(b, rank, file), word[pos]).Failed? {
      FailureStays(Place(Placing(b, rank, file), word[pos]), word[pos + 1..]);
    }
  }

  lemma {:induction false} FailureStays(s: Placing, text: string)
    requires s.Failed?
    ensures PlaceAll(s, text) == s
    decreases |text|
  {
    if text != [] { FailureStays(s, text[1..]); }
  }

  lemma RightStep(b: Board, c: Castlings, word: string, pos: nat)
    requires pos < |word|
    ensures ReadRights(b, Rights(c), word[pos..]) == ReadRights(b, ReadRight(b, Rights(c), word[pos]), word[pos + 1..])
    ensures ReadRight(b, Rights(c), word[pos]).NoRights? ==>
      ReadRights(b, Rights(c), word[pos..]) == ReadRight(b, Rights(c), word[pos])
  {
    assert word[pos..][1..] == word[pos + 1..];
    if ReadRight(b, Rights(c), word[pos]).NoRights? {
      NoRightsStay(b, ReadRight(b, Rights(c), word[pos]), word[pos + 1..]);
    }
  }

  lemma {:induction false} NoRightsStay(b: Board, r: Rights, text: string)
    requires r.NoRights?
    ensures ReadRights(b, r, text) == r
    decreases |text|
  {
    if text != [] { NoRightsStay(b, r, text[1..]); }
  }
}
