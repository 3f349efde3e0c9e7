// Table lookup of rook and bishop attacks (the bit-extraction form) against the ray walk it replaces.

module AttackTables {
  import opened Squares
  import opened Board
  import opened Powers

  function FromIdx(i: int): Square { Sq(i % 8, i / 8) }

  /** `kRookDirections` and `kBishopDirections`. */
  function Dirs(straight: bool): seq<Direction> {
    if straight then [N, S, E, W] else [NE, SE, NW, SW]
  }

  lemma DirsByKind(straight: bool, d: Direction)
    ensures d in Dirs(straight) <==> Straight(d) == straight
  {
    assert Dirs(straight)[0] in Dirs(straight) && Dirs(straight)[1] in Dirs(straight);
    assert Dirs(straight)[2] in Dirs(straight) && Dirs(straight)[3] in Dirs(straight);
  }

  // ---- the reference: walk along the rays ----

  /** Steps from `s` to the edge. */
  function RayLength(s: Square, d: Direction): int {
    match d
    case N => 7 - s.rank
    case S => s.rank
    case E => 7 - s.file
    case W => s.file
    case NE => Min(7 - s.file, 7 - s.rank)
    case NW => Min(s.file, 7 - s.rank)
    case SE => Min(7 - s.file, s.rank)
    case SW => Min(s.file, s.rank)
  }

  /** `t` is seen from `s` along a ray, the first occupied square included. */
  ghost predicate Sees(occ: set<Square>, s: Square, straight: bool, t: Square) {
    t.OnBoard() && exists d, k :: Straight(d) == straight && k >= 1 && t == Step(s, d, k) && Clear(occ, s, d, k)
  }

  /** Squares whose occupation matters: on a ray, but not its last square. */
  ghost predicate Matters(s: Square, straight: bool, t: Square) {
    exists d, k :: Straight(d) == straight && 1 <= k < RayLength(s, d) && t == Step(s, d, k)
  }

  /** The edge squares never matter. */
  lemma {:induction false} OnlyMaskMatters(occ: set<Square>, some: set<Square>, s: Square, straight: bool, t: Square)
    requires s.OnBoard()
    requires forall q :: q in some <==> q in occ && Matters(s, straight, q)
    ensures Sees(some, s, straight, t) <==> Sees(occ, s, straight, t)
  {
    if t.OnBoard() {
      forall d, k | Straight(d) == straight && k >= 1 && t == Step(s, d, k)
        ensures Clear(some, s, d, k) <==> Clear(occ, s, d, k)
      {
        forall j | 1 <= j < k ensures Step(s, d, j) in some <==> Step(s, d, j) in occ {
          assert j < RayLength(s, d);
          assert Matters(s, straight, Step(s, d, j));
        }
      }
    }
  }

  // ---- bit extraction ----

  /** `_pext_u64`: bit `t` of the result tells whether the `t`-th square of the mask is occupied. */
  function Pext(occ: set<Square>, squares: seq<Square>): nat {
    if squares == [] then 0 else (if squares[0] in occ then 1 else 0) + 2 * Pext(occ, squares[1..])
  }

  predicate Bit(i: nat, t: nat) {
    if t == 0 then i % 2 == 1 else Bit(i / 2, t - 1)
  }

  ghost predicate Distinct(squares: seq<Square>) {
    forall i, j :: 0 <= i < j < |squares| ==> squares[i] != squares[j]
  }

  /** The occupancy the builder makes for number `i`. */
  ghost predicate IsSubset(x: set<Square>, i: nat, squares: seq<Square>) {
    && (forall t :: 0 <= t < |squares| ==> (squares[t] in x <==> Bit(i, t)))
    && (forall s :: s in x ==> s in squares)
  }

  lemma {:induction false} PextBits(occ: set<Square>, squares: seq<Square>, t: nat)
    requires t < |squares|
    ensures Pext(occ, squares) < Pow2(|squares|)
    ensures Bit(Pext(occ, squares), t) <==> squares[t] in occ
  {
    if t > 0 {
      PextBits(occ, squares[1..], t - 1);
    } else if |squares| > 1 {
      PextBits(occ, squares[1..], 0);
    }
  }

  lemma {:induction false} PextBound(occ: set<Square>, squares: seq<Square>)
    ensures Pext(occ, squares) < Pow2(|squares|)
  {
    if squares != [] { PextBits(occ, squares, 0); }
  }

  /** Numbering the subsets and extracting bits are inverse. */
  lemma {:induction false} PextInverts(x: set<Square>, i: nat, squares: seq<Square>)
    requires i < Pow2(|squares|) && forall t :: 0 <= t < |squares| ==> (squares[t] in x <==> Bit(i, t))
    ensures Pext(x, squares) == i
  {
    if squares != [] {
      forall t | 0 <= t < |squares| - 1 ensures squares[1..][t] in x <==> Bit(i / 2, t) {
        assert squares[t + 1] in x <==> Bit(i, t + 1);
      }
      PextInverts(x, i / 2, squares[1..]);
      assert squares[0] in x <==> Bit(i, 0);
    }
  }

  // ---- the builder ----

  /** The squares of a set in ascending index order, as iterating over a bitboard yields them. */
  function Ordered(x: set<Square>, i: nat): (r: seq<Square>)
    requires i <= 64
    decreases 64 - i
  {
    if i == 64 then [] else (if FromIdx(i) in x then [FromIdx(i)] else []) + Ordered(x, i + 1)
  }

  lemma {:induction false} OrderedHas(x: set<Square>, i: nat, q: Square)
    requires i <= 64
    ensures q in Ordered(x, i) <==> q in x && q.OnBoard() && q.rank * 8 + q.file >= i
    decreases 64 - i
  {
    if i < 64 {
      OrderedHas(x, i + 1, q);
      assert q.OnBoard() && q.rank * 8 + q.file == i ==> q == FromIdx(i);
    }
  }

  lemma {:induction false} OrderedIs(x: set<Square>, i: nat)
    requires i <= 64
    ensures Distinct(Ordered(x, i))
    ensures forall s :: s in Ordered(x, i) <==> s in x && s.OnBoard() && s.rank * 8 + s.file >= i
    decreases 64 - i
  {
    forall q ensures q in Ordered(x, i) <==> q in x && q.OnBoard() && q.rank * 8 + q.file >= i { OrderedHas(x, i, q); }
    if i < 64 { OrderedIs(x, i + 1); }
  }

  // ---- how much room the segments need ----

  function MaskOnRay(s: Square, d: Direction): nat { Max(0, RayLength(s, d) - 1) }

  function MaskSize(s: Square, straight: bool): nat {
    if straight then MaskOnRay(s, N) + MaskOnRay(s, S) + MaskOnRay(s, E) + MaskOnRay(s, W)
    else MaskOnRay(s, NE) + MaskOnRay(s, SE) + MaskOnRay(s, NW) + MaskOnRay(s, SW)
  }

  /** Entries taken by the first `n` squares. */
  function RoomUsed(n: nat, straight: bool): nat {
    if n == 0 then 0 else RoomUsed(n - 1, straight) + Pow2(MaskSize(FromIdx(n - 1), straight))
  }

  /** Distance from the edge of the board. */
  function Ring(s: Square): int { Min(Min(s.file, 7 - s.file), Min(s.rank, 7 - s.rank)) }

  predicate EdgeFile(x: int) { x == 0 || x == 7 }

  lemma RookMaskSize(s: Square)
    requires s.OnBoard()
    ensures MaskSize(s, true) == (if EdgeFile(s.file) then 6 else 5) + (if EdgeFile(s.rank) then 6 else 5)
  {
  }

  lemma BishopMaskSize(s: Square)
    requires s.OnBoard()
    ensures MaskSize(s, false) == match Ring(s)
      case 0 => if EdgeFile(s.file) && EdgeFile(s.rank) then 6 else 5
      case 1 => 5
      case 2 => 7
      case _ => 9
  {
  }

  lemma SmallPowers()
    ensures Pow2(5) == 32 && Pow2(6) == 64 && Pow2(7) == 128 && Pow2(9) == 512
    ensures Pow2(10) == 1024 && Pow2(11) == 2048 && Pow2(12) == 4096
  {
  }

  function RookRoom(s: Square): nat {
    if EdgeFile(s.file) && EdgeFile(s.rank) then 4096 else if EdgeFile(s.file) || EdgeFile(s.rank) then 2048 else 1024
  }

  function BishopRoom(s: Square): nat {
    match Ring(s)
    case 0 => if EdgeFile(s.file) && EdgeFile(s.rank) then 64 else 32
    case 1 => 32
    case 2 => 128
    case _ => 512
  }

  lemma {:induction false} RoomOfSquare(s: Square)
    requires s.OnBoard()
    ensures Pow2(MaskSize(s, true)) == RookRoom(s) && Pow2(MaskSize(s, false)) == BishopRoom(s)
  {
    SmallPowers();
    RookMaskSize(s);
    BishopMaskSize(s);
  }

  /** The segment starts in closed form: full ranks first, then the files before this one. */
  function RookStart(rank: int, file: int): int {
    (if rank == 0 then 0 else if rank == 8 then 102400 else 20480 + 10240 * (rank - 1))
    + (if file == 0 then 0 else if EdgeFile(rank) then 2048 * (file + 1) else 1024 * (file + 1))
  }

  function BishopRanks(rank: int): int {
    match rank
    case 0 => 0 case 1 => 320 case 2 => 576 case 3 => 1216 case 4 => 2624
    case 5 => 4032 case 6 => 4672 case 7 => 4928 case _ => 5248
  }

  function BishopFiles(ring: int, file: int): int {
    match ring
    case 0 => if file == 0 then 0 else 32 * (file + 1)
    case 1 => 32 * file
    case 2 => if file <= 2 then 32 * file else if file <= 6 then 64 + 128 * (file - 2) else 608
    case _ =>
      match file
      case 0 => 0 case 1 => 32 case 2 => 64 case 3 => 192
      case 4 => 704 case 5 => 1216 case 6 => 1344 case _ => 1376
  }

  function StartClosed(rank: int, file: int, straight: bool): int {
    if straight then RookStart(rank, file) else BishopRanks(rank) + BishopFiles(Min(rank, 7 - rank), file)
  }

  lemma NextStart(rank: int, file: int)
    requires Sq(file, rank).OnBoard()
    ensures RookStart(rank, file) + RookRoom(Sq(file, rank)) == if file < 7 then RookStart(rank, file + 1)
      else RookStart(rank + 1, 0)
    ensures BishopFiles(Min(rank, 7 - rank), file) + BishopRoom(Sq(file, rank))
      == if file < 7 then BishopFiles(Min(rank, 7 - rank), file + 1) else BishopRanks(rank + 1) - BishopRanks(rank)
  {
  }

  lemma NextIndex(n: nat)
    requires n > 0
    ensures var s := FromIdx(n - 1);
      && n / 8 == (if s.file < 7 then s.rank else s.rank + 1)
      && n % 8 == if s.file < 7 then s.file + 1 else 0
  {
  }

  /** A closed form for segment starts is right when it grows by the room of each square. */
  ghost predicate GrowsByRoom(g: (int, int) -> int, straight: bool) {
    && g(0, 0) == 0
    && (forall s: Square :: s.OnBoard() ==>
          g(s.rank, s.file) + Pow2(MaskSize(s, straight)) == if s.file < 7 then g(s.rank, s.file + 1)
            else g(s.rank + 1, 0))
  }

  lemma {:induction false} UsedInClosedForm(g: (int, int) -> int, n: nat, straight: bool)
    requires n <= 64 && GrowsByRoom(g, straight)
    ensures RoomUsed(n, straight) == g(n / 8, n % 8)
  {
    if n > 0 {
      UsedInClosedForm(g, n - 1, straight);
      NextIndex(n);
      assert FromIdx(n - 1).OnBoard();
    }
  }

  /** The closed form grows by the room of each square. */
  lemma StartGrows(s: Square, straight: bool)
    requires s.OnBoard()
    ensures StartClosed(s.rank, s.file, straight) + Pow2(MaskSize(s, straight))
      == if s.file < 7 then StartClosed(s.rank, s.file + 1, straight) else StartClosed(s.rank + 1, 0, straight)
  {
    RoomOfSquare(s);
    if straight { RookStartNext(s); } else { BishopStartNext(s); }
  }

  lemma RookStartNext(s: Square)
    requires s.OnBoard()
    ensures StartClosed(s.rank, s.file, true) + RookRoom(s)
      == if s.file < 7 then StartClosed(s.rank, s.file + 1, true) else StartClosed(s.rank + 1, 0, true)
  {
    NextStart(s.rank, s.file);
  }

  lemma BishopStartNext(s: Square)
    requires s.OnBoard()
    ensures StartClosed(s.rank, s.file, false) + BishopRoom(s)
      == if s.file < 7 then StartClosed(s.rank, s.file + 1, false) else StartClosed(s.rank + 1, 0, false)
  {
    NextStart(s.rank, s.file);
    BishopRankStarts(s.rank);
  }

  lemma BishopRankStarts(rank: int)
    requires 0 <= rank < 8
    ensures StartClosed(rank + 1, 0, false) == BishopRanks(rank + 1)
  {
  }

  /** Every segment starts where the closed form says and ends within the declared length of its table; after the last
      square the two tables are exactly full. */
  lemma {:induction false} SegmentStarts(n: nat, straight: bool)
    requires n <= 64
    ensures RoomUsed(n, straight) == StartClosed(n / 8, n % 8, straight)
  {
    var g := (rank: int, file: int) => StartClosed(rank, file, straight);
    forall s: Square | s.OnBoard()
      ensures g(s.rank, s.file) + Pow2(MaskSize(s, straight)) == if s.file < 7 then g(s.rank, s.file + 1)
        else g(s.rank + 1, 0)
    {
      StartGrows(s, straight);
    }
    UsedInClosedForm(g, n, straight);
  }

  lemma {:induction false} TablesFitExactly(rank: int, file: int, straight: bool)
    requires Sq(file, rank).OnBoard()
    ensures StartClosed(rank, file, straight) + Pow2(MaskSize(Sq(file, rank), straight)) <= StartClosed(8, 0, straight)
    ensures StartClosed(8, 0, straight) == if straight then 102400 else 5248
  {
    RoomOfSquare(Sq(file, rank));
    NextStart(rank, file);
    if straight { RookStartGrows(rank, file); } else { BishopStartGrows(rank, file); }
  }

  lemma RookStartGrows(rank: int, file: int)
    requires Sq(file, rank).OnBoard()
    ensures RookStart(rank, file) + RookRoom(Sq(file, rank)) <= RookStart(8, 0) == 102400
  {
  }

  lemma BishopStartGrows(rank: int, file: int)
    requires Sq(file, rank).OnBoard()
    ensures StartClosed(rank, file, false) + BishopRoom(Sq(file, rank)) <= StartClosed(8, 0, false) == 5248
  {
  }

  lemma {:induction false} SegmentFits(n: nat, straight: bool)
    requires n < 64
    ensures RoomUsed(n, straight) + Pow2(MaskSize(FromIdx(n), straight)) <= if straight then 102400 else 5248
  {
    SegmentStarts(n, straight);
    TablesFitExactly(n / 8, n % 8, straight);
  }

  ghost function RaySet(s: Square, d: Direction, n: nat): set<Square> {
    if n == 0 then {} else RaySet(s, d, n - 1) + {Step(s, d, n)}
  }

  lemma {:induction false} RaySetIs(s: Square, d: Direction, n: nat, q: Square)
    ensures q in RaySet(s, d, n) <==> OnRay(s, d, n, q)
  {
    if n > 0 { RaySetIs(s, d, n - 1, q); }
  }

  lemma {:induction false} RaySetSize(s: Square, d: Direction, n: nat)
    ensures |RaySet(s, d, n)| == n
  {
    if n > 0 {
      RaySetSize(s, d, n - 1);
      RaySetIs(s, d, n - 1, Step(s, d, n));
    }
  }

  /** The builder stops before the last square on the board. */
  lemma RayEnds(s: Square, d: Direction, k: int)
    requires s.OnBoard() && k >= 0
    ensures Step(s, d, k).OnBoard() <==> k <= RayLength(s, d)
  {
  }

  ghost function MaskRay(s: Square, d: Direction): set<Square> { RaySet(s, d, MaskOnRay(s, d)) }

  lemma {:induction false} InMaskRay(s: Square, d: Direction, q: Square)
    requires s.OnBoard()
    ensures q in MaskRay(s, d) <==> exists k :: 1 <= k < RayLength(s, d) && q == Step(s, d, k)
  {
    RaySetIs(s, d, MaskOnRay(s, d), q);
  }

  lemma {:induction false} MaskRaysApart(s: Square, d: Direction, e: Direction)
    requires s.OnBoard() && d != e
    ensures MaskRay(s, d) !! MaskRay(s, e)
  {
    forall q | q in MaskRay(s, d) ensures q !in MaskRay(s, e) {
      InMaskRay(s, d, q);
      InMaskRay(s, e, q);
    }
  }

  lemma {:induction false} MattersOnRay(s: Square, straight: bool, q: Square) returns (d: Direction)
    requires s.OnBoard() && Matters(s, straight, q)
    ensures Straight(d) == straight && q in MaskRay(s, d)
  {
    var k;
    d, k :| Straight(d) == straight && 1 <= k < RayLength(s, d) && q == Step(s, d, k);
    InMaskRay(s, d, q);
  }

  lemma {:induction false} OnRayMatters(s: Square, d: Direction, q: Square)
    requires s.OnBoard() && q in MaskRay(s, d)
    ensures Matters(s, Straight(d), q)
  {
    InMaskRay(s, d, q);
  }

  ghost function FourRays(s: Square, a: Direction, b: Direction, c: Direction, d: Direction): set<Square> {
    MaskRay(s, a) + MaskRay(s, b) + MaskRay(s, c) + MaskRay(s, d)
  }

  lemma {:induction false} InMaskSet(s: Square, straight: bool, q: Square)
    requires s.OnBoard()
    ensures q in MaskSet(s, straight) <==> Matters(s, straight, q)
  {
    if Matters(s, straight, q) {
      var d := MattersOnRay(s, straight, q);
    }
    if q in MaskSet(s, straight) {
      var d :| Straight(d) == straight && q in MaskRay(s, d);
      OnRayMatters(s, d, q);
    }
  }

  lemma FourDisjoint<T>(a: set<T>, b: set<T>, c: set<T>, d: set<T>)
    requires a !! b && a !! c && a !! d && b !! c && b !! d && c !! d
    ensures |a + b + c + d| == |a| + |b| + |c| + |d|
  {
    assert |a + b| == |a| + |b|;
    assert |a + b + c| == |a + b| + |c|;
  }

  lemma {:induction false} FourRaysSize(s: Square, a: Direction, b: Direction, c: Direction, d: Direction)
    requires s.OnBoard() && a != b && a != c && a != d && b != c && b != d && c != d
    ensures |FourRays(s, a, b, c, d)| == MaskOnRay(s, a) + MaskOnRay(s, b) + MaskOnRay(s, c) + MaskOnRay(s, d)
  {
    MaskRaysApart(s, a, b);
    MaskRaysApart(s, a, c);
    MaskRaysApart(s, a, d);
    MaskRaysApart(s, b, c);
    MaskRaysApart(s, b, d);
    MaskRaysApart(s, c, d);
    FourDisjoint(MaskRay(s, a), MaskRay(s, b), MaskRay(s, c), MaskRay(s, d));
    RaySetSize(s, a, MaskOnRay(s, a));
    RaySetSize(s, b, MaskOnRay(s, b));
    RaySetSize(s, c, MaskOnRay(s, c));
    RaySetSize(s, d, MaskOnRay(s, d));
  }

  lemma {:induction false} MaskHasSize(mask: set<Square>, s: Square, straight: bool)
    requires s.OnBoard() && mask == MaskSet(s, straight)
    ensures |mask| == MaskSize(s, straight)
  {
    if straight {
      FourRaysSize(s, N, S, E, W);
    } else {
      FourRaysSize(s, NE, SE, NW, SW);
    }
  }

  lemma {:induction false} DistinctLength(squares: seq<Square>, x: set<Square>)
    requires Distinct(squares) && forall s :: s in x <==> s in squares
    ensures |squares| == |x|
  {
    if squares == [] {
      assert x == {};
    } else {
      var s := squares[0];
      forall q ensures q in x - {s} <==> q in squares[1..] {
        if q in squares[1..] { var i :| 0 <= i < |squares| - 1 && squares[1..][i] == q; assert squares[i + 1] == q; }
      }
      DistinctLength(squares[1..], x - {s});
    }
  }

  ghost function MaskSet(s: Square, straight: bool): set<Square> {
    if straight then FourRays(s, N, S, E, W) else FourRays(s, NE, SE, NW, SW)
  }

  ghost predicate IsMask(squares: seq<Square>, s: Square, straight: bool) {
    Distinct(squares) && forall q :: q in squares <==> Matters(s, straight, q)
  }

  lemma {:induction false} OrderedMaskIs(mask: set<Square>, s: Square, straight: bool)
    requires s.OnBoard() && mask == MaskSet(s, straight)
    ensures IsMask(Ordered(mask, 0), s, straight) && |Ordered(mask, 0)| == MaskSize(s, straight)
  {
    forall q ensures q in mask <==> Matters(s, straight, q) { InMaskSet(s, straight, q); }
    OrderedIs(mask, 0);
    forall q | q in mask ensures q.OnBoard() {
      var d, k :| Straight(d) == straight && 1 <= k < RayLength(s, d) && q == Step(s, d, k);
      RayEnds(s, d, k);
    }
    MaskHasSize(mask, s, straight);
    DistinctLength(Ordered(mask, 0), mask);
  }

  class MagicTable {
    const straight: bool
    /** Relevant squares and start of the segment, for each board square. */
    const masks: array<seq<Square>>
    const offsets: array<nat>
    const attacks: array<set<Square>>

    ghost predicate Shape() {
      masks.Length == 64 && offsets.Length == 64
    }

    /** The segment of square `sq` holds, at every number, the attacks for the occupancy of that number. */
    ghost predicate SegmentBuilt(sq: nat)
      requires Shape() && sq < 64
      reads masks, offsets, attacks
    {
      && IsMask(masks[sq], FromIdx(sq), straight)
      && offsets[sq] + Pow2(|masks[sq]|) <= attacks.Length
      && (forall i :: 0 <= i < Pow2(|masks[sq]|) ==> EntryBuilt(sq, i))
    }

    ghost predicate EntryBuilt(sq: nat, i: nat)
      requires Shape() && sq < 64 && offsets[sq] + i < attacks.Length
      reads masks, offsets, attacks
    {
      forall x :: IsSubset(x, i, masks[sq]) ==> IsAttackSet(attacks[offsets[sq] + i], x, FromIdx(sq))
    }

    ghost predicate IsAttackSet(r: set<Square>, occ: set<Square>, s: Square) {
      forall t :: t in r <==> Sees(occ, s, straight, t)
    }

    ghost predicate Built()
      reads masks, offsets, attacks
    {
      Shape() && forall sq :: 0 <= sq < 64 ==> SegmentBuilt(sq)
    }

    /** `GetRookAttacks` / `GetBishopAttacks`: one lookup gives the ray walk over the real occupation. */
    method Lookup(s: Square, occ: set<Square>) returns (r: set<Square>)
      requires Built() && s.OnBoard()
      ensures forall t :: t in r <==> Sees(occ, s, straight, t)
    {
      var sq := s.rank * 8 + s.file;
      assert FromIdx(sq) == s && SegmentBuilt(sq);
      var index := Pext(occ, masks[sq]);
      PextBound(occ, masks[sq]);
      r := attacks[offsets[sq] + index];
      ghost var x := set q | q in occ && q in masks[sq];
      assert IsSubset(x, index, masks[sq]) by {
        forall t | 0 <= t < |masks[sq]| ensures masks[sq][t] in x <==> Bit(index, t) { PextBits(occ, masks[sq], t); }
      }
      assert EntryBuilt(sq, index);
      forall t ensures t in r <==> Sees(occ, s, straight, t) { OnlyMaskMatters(occ, x, s, straight, t); }
    }

    // ---- building ----

    constructor (straight: bool)
      ensures this.straight == straight && Shape() && attacks.Length == if straight then 102400 else 5248
      ensures fresh(masks) && fresh(offsets) && fresh(attacks)
    {
      this.straight := straight;
      masks := new seq<Square>[64];
      offsets := new nat[64];
      attacks := new set<Square>[if straight then 102400 else 5248];
    }

    /** One ray of the relevant occupancy mask: stop where the next square is off the board. */
    method MaskAlong(s: Square, d: Direction) returns (mask: set<Square>)
      requires s.OnBoard()
      ensures forall q :: q in mask <==> InnerRay(s, d, q)
    {
      mask := {};
      var k := 1;
      while Step(s, d, k + 1).OnBoard()
        invariant 1 <= k && (k == 1 || Step(s, d, k).OnBoard())
        invariant mask == RaySet(s, d, k - 1)
        decreases 8 - k
      {
        mask := mask + {Step(s, d, k)};
        k := k + 1;
      }
      forall q ensures q in mask <==> InnerRay(s, d, q) { InnerRayIs(s, d, k, q); }
    }

    /** The relevant occupancy mask: every ray without its last square on the board. */
    method Mask(s: Square) returns (mask: set<Square>)
      requires s.OnBoard()
      ensures mask == MaskSet(s, straight)
    {
      mask := {};
      var dirs := Dirs(straight);
      for j := 0 to 4
        invariant forall q :: q in mask <==> exists i :: 0 <= i < j && InnerRay(s, dirs[i], q)
      {
        var ray := MaskAlong(s, dirs[j]);
        mask := mask + ray;
      }
      forall q ensures q in mask <==> q in MaskSet(s, straight) {
        MattersByDirs(s, straight, q);
        InMaskSet(s, straight, q);
      }
    }

    /** `occupancy_squares`: the squares of the mask in index order. */
    method MaskSquares(s: Square) returns (squares: seq<Square>)
      requires s.OnBoard()
      ensures IsMask(squares, s, straight) && |squares| == MaskSize(s, straight)
    {
      var mask := Mask(s);
      squares := Ordered(mask, 0);
      OrderedMaskIs(mask, s, straight);
    }

    /** The occupancy with number `i`. */
    method Occupancy(squares: seq<Square>, i: nat) returns (x: set<Square>)
      requires Distinct(squares)
      ensures IsSubset(x, i, squares)
    {
      x := {};
      for bit := 0 to |squares|
        invariant forall t :: 0 <= t < bit ==> (squares[t] in x <==> Bit(i, t))
        invariant forall s :: s in x ==> s in squares[..bit]
      {
        if Bit(i, bit) { x := x + {squares[bit]}; }
      }
    }

    method WalkAlong(s: Square, d: Direction, occ: set<Square>) returns (seen: set<Square>)
      requires s.OnBoard()
      ensures forall q :: q in seen <==> q.OnBoard() && SeenAlong(occ, s, d, q)
    {
      seen := {};
      var k := 1;
      while Step(s, d, k).OnBoard()
        invariant 1 <= k && Clear(occ, s, d, k) && (k == 1 || Step(s, d, k - 1).OnBoard())
        invariant seen == RaySet(s, d, k - 1)
        decreases 8 - k
      {
        seen := seen + {Step(s, d, k)};
        if Step(s, d, k) in occ {
          forall q: Square ensures q in seen <==> q.OnBoard() && SeenAlong(occ, s, d, q) { SeenUpTo(occ, s, d, k, q); }
          return;
        }
        k := k + 1;
      }
      forall q: Square ensures q in seen <==> q.OnBoard() && SeenAlong(occ, s, d, q) { SeenUpTo(occ, s, d, k - 1, q); }
    }

    /** The ray walk for one occupancy. */
    method Walk(s: Square, occ: set<Square>) returns (seen: set<Square>)
      requires s.OnBoard()
      ensures IsAttackSet(seen, occ, s)
    {
      seen := {};
      var dirs := Dirs(straight);
      for j := 0 to 4
        invariant forall q :: q in seen <==> exists i :: 0 <= i < j && q.OnBoard() && SeenAlong(occ, s, dirs[i], q)
      {
        var ray := WalkAlong(s, dirs[j], occ);
        seen := seen + ray;
      }
      forall q ensures q in seen <==> Sees(occ, s, straight, q) { SeesByDirs(occ, s, straight, q); }
    }

    /** The inner loops of `BuildAttacksTable`: one entry for every occupancy of the mask. */
    method BuildSegment(sq: nat)
      requires Shape() && sq < 64 && IsMask(masks[sq], FromIdx(sq), straight)
      requires offsets[sq] + Pow2(|masks[sq]|) <= attacks.Length
      modifies attacks
      ensures SegmentBuilt(sq)
      ensures forall j :: 0 <= j < attacks.Length && !(offsets[sq] <= j < offsets[sq] + Pow2(|masks[sq]|)) ==>
        attacks[j] == old(attacks[j])
    {
      var squares, offset := masks[sq], offsets[sq];
      var i := 0;
      while i < Pow2(|squares|)
        invariant 0 <= i <= Pow2(|squares|)
        invariant forall j :: 0 <= j < i ==> EntryBuilt(sq, j)
        invariant forall j :: 0 <= j < attacks.Length && !(offset <= j < offset + Pow2(|squares|)) ==>
          attacks[j] == old(attacks[j])
      {
        var occupancy := Occupancy(squares, i);
        var seen := Walk(FromIdx(sq), occupancy);
        var index := Pext(occupancy, squares);
        PextInverts(occupancy, i, squares);
        label Before:
        attacks[offset + index] := seen;
        forall x | IsSubset(x, i, squares) ensures x == occupancy { SameSubset(x, occupancy, i, squares); }
        assert EntryBuilt(sq, i);
        forall j | 0 <= j < i ensures EntryBuilt(sq, j) { assert old@Before(EntryBuilt(sq, j)); }
        i := i + 1;
      }
    }

    /** A segment survives updates outside it. */
    twostate lemma SegmentKept(q: nat)
      requires Shape() && q < 64 && old(SegmentBuilt(q))
      requires masks[q] == old(masks[q]) && offsets[q] == old(offsets[q])
      requires forall j :: offsets[q] <= j < offsets[q] + Pow2(|masks[q]|) ==> attacks[j] == old(attacks[j])
      ensures SegmentBuilt(q)
    {
      forall i | 0 <= i < Pow2(|masks[q]|) ensures EntryBuilt(q, i) { assert old(EntryBuilt(q, i)); }
    }

    /** The segments of the first `n` squares are built and end at `offset` or before. */
    ghost predicate FirstBuilt(n: nat, offset: nat)
      requires Shape() && n <= 64
      reads masks, offsets, attacks
    {
      forall q :: 0 <= q < n ==> SegmentBuilt(q) && offsets[q] + Pow2(|masks[q]|) <= offset
    }

    /** The segment of `p` ends before that of `q` begins. */
    ghost predicate Apart(p: nat, q: nat)
      requires Shape() && p < 64 && q < 64
      reads masks, offsets
    {
      offsets[p] + Pow2(|masks[p]|) <= offsets[q]
    }

    /** The first `n` segments follow each other without overlap. */
    ghost predicate InOrder(n: nat)
      requires Shape() && n <= 64
      reads masks, offsets
    {
      forall p, q {:trigger Apart(p, q)} :: 0 <= p < q < n ==> Apart(p, q)
    }

    /** One round of `BuildAttacksTable`. */
    method BuildSquare(sq: nat, offset: nat) returns (next: nat)
      requires Shape() && sq < 64 && FirstBuilt(sq, offset) && InOrder(sq)
      requires offset + Pow2(MaskSize(FromIdx(sq), straight)) <= attacks.Length
      modifies masks, offsets, attacks
      ensures next == offset + Pow2(MaskSize(FromIdx(sq), straight)) && FirstBuilt(sq + 1, next) && InOrder(sq + 1)
    {
      label Before:
      var squares := MaskSquares(FromIdx(sq));
      masks[sq] := squares;
      offsets[sq] := offset;
      BuildSegment(sq);
      forall q | 0 <= q < sq ensures SegmentBuilt(q) { SegmentKept(q); }
      forall p, q | 0 <= p < q < sq + 1 ensures Apart(p, q) { assert q < sq ==> old@Before(Apart(p, q)); }
      next := offset + Pow2(|squares|);
    }

    /** `BuildAttacksTable`: fills every segment, without overlap and within the declared length. */
    method Build()
      requires Shape() && attacks.Length == (if straight then 102400 else 5248)
      modifies masks, offsets, attacks
      ensures Built() && InOrder(64)
    {
      var offset := 0;
      var sq := 0;
      while sq < 64
        invariant 0 <= sq <= 64 && offset == RoomUsed(sq, straight) && FirstBuilt(sq, offset) && InOrder(sq)
      {
        SegmentFits(sq, straight);
        offset := BuildSquare(sq, offset);
        sq := sq + 1;
      }
    }
  }

  // ---- rays by direction list ----

  ghost predicate InnerRay(s: Square, d: Direction, q: Square) {
    exists k :: 1 <= k < RayLength(s, d) && q == Step(s, d, k)
  }

  ghost predicate SeenAlong(occ: set<Square>, s: Square, d: Direction, q: Square) {
    exists k :: k >= 1 && q == Step(s, d, k) && Clear(occ, s, d, k)
  }

  lemma InnerRayIs(s: Square, d: Direction, k: int, q: Square)
    requires s.OnBoard() && k >= 1 && !Step(s, d, k + 1).OnBoard() && (k == 1 || Step(s, d, k).OnBoard())
    ensures q in RaySet(s, d, k - 1) <==> InnerRay(s, d, q)
  {
    RayEnds(s, d, k);
    RayEnds(s, d, k + 1);
    assert RayLength(s, d) == k || (k == 1 && RayLength(s, d) == 0);
    RaySetIs(s, d, k - 1, q);
  }

  /** The walk stops at the first occupied square or at the edge. */
  lemma {:induction false} SeenUpTo(occ: set<Square>, s: Square, d: Direction, k: nat, q: Square)
    requires s.OnBoard() && Clear(occ, s, d, k) && (k == 0 || Step(s, d, k).OnBoard())
    requires (k > 0 && Step(s, d, k) in occ) || (!Step(s, d, k + 1).OnBoard() && (k > 0 ==> Step(s, d, k) !in occ))
    ensures q in RaySet(s, d, k) <==> q.OnBoard() && SeenAlong(occ, s, d, q)
  {
    RaySetIs(s, d, k, q);
    if i :| 1 <= i <= k && q == Step(s, d, i) {
      RayStaysOnBoard(s, d, k, i);
    }
    if q.OnBoard() && SeenAlong(occ, s, d, q) {
      var i :| i >= 1 && q == Step(s, d, i) && Clear(occ, s, d, i);
      if i > k { RayStaysOnBoard(s, d, i, k + 1); }
    }
  }

  lemma MattersByDirs(s: Square, straight: bool, q: Square)
    ensures Matters(s, straight, q) <==> exists i :: 0 <= i < 4 && InnerRay(s, Dirs(straight)[i], q)
  {
    forall d ensures d in Dirs(straight) <==> Straight(d) == straight { DirsByKind(straight, d); }
    if Matters(s, straight, q) {
      var d, k :| Straight(d) == straight && 1 <= k < RayLength(s, d) && q == Step(s, d, k);
      var i :| 0 <= i < 4 && Dirs(straight)[i] == d;
      assert InnerRay(s, Dirs(straight)[i], q);
    }
    if i :| 0 <= i < 4 && InnerRay(s, Dirs(straight)[i], q) {
      assert Dirs(straight)[i] in Dirs(straight);
    }
  }

  lemma SeesByDirs(occ: set<Square>, s: Square, straight: bool, q: Square)
    ensures Sees(occ, s, straight, q) <==>
      exists i :: 0 <= i < 4 && q.OnBoard() && SeenAlong(occ, s, Dirs(straight)[i], q)
  {
    forall d ensures d in Dirs(straight) <==> Straight(d) == straight { DirsByKind(straight, d); }
    if Sees(occ, s, straight, q) {
      var d, k :| Straight(d) == straight && k >= 1 && q == Step(s, d, k) && Clear(occ, s, d, k);
      var i :| 0 <= i < 4 && Dirs(straight)[i] == d;
      assert SeenAlong(occ, s, Dirs(straight)[i], q);
    }
    if i :| 0 <= i < 4 && q.OnBoard() && SeenAlong(occ, s, Dirs(straight)[i], q) {
      assert Dirs(straight)[i] in Dirs(straight);
    }
  }

  lemma SameSubset(x: set<Square>, y: set<Square>, i: nat, squares: seq<Square>)
    requires IsSubset(x, i, squares) && IsSubset(y, i, squares)
    ensures x == y
  {
    forall s ensures s in x <==> s in y {
      if s in squares { var t :| 0 <= t < |squares| && squares[t] == s; }
    }
  }
}
