// The number of the leading pawns in a pawn table: the leading pawn is the one nearest the edge, the others are
// numbered by the combinatorial number system among the squares that come after it.

module LeadingPawns {
  import opened Binomials
  import opened TableIndex
  import opened TableEncoder

  datatype Encoding = FileEnc | RankEnc

  predicate PawnSquare(sq: int) {
    8 <= sq < 56
  }

  /** Distance from the nearest side edge: `kFileToFile`. */
  function Edge(sq: int): int {
    var f := sq % 8;
    if f < 4 then f else 7 - f
  }

  /** `kFlap` on pawn squares, in closed form. */
  function Flap(enc: Encoding, sq: int): (r: int)
    requires PawnSquare(sq)
    ensures 0 <= r < 24
  {
    if enc.FileEnc? then 6 * Edge(sq) + sq / 8 - 1 else 4 * (sq / 8 - 1) + Edge(sq)
  }

  /** `kPawnTwist` on pawn squares, in closed form. */
  function Twist(enc: Encoding, sq: int): (r: int)
    requires PawnSquare(sq)
    ensures 0 <= r < 48
  {
    47 - 2 * Flap(enc, sq) - if sq % 8 < 4 then 0 else 1
  }

  function Mirrored(sq: int): int {
    sq + 7 - 2 * (sq % 8)
  }

  lemma MirroredKeepsFlap(enc: Encoding, sq: int)
    requires PawnSquare(sq)
    ensures PawnSquare(Mirrored(sq)) && Mirrored(Mirrored(sq)) == sq
    ensures Flap(enc, Mirrored(sq)) == Flap(enc, sq) && (Mirrored(sq) % 8 < 4 <==> sq % 8 >= 4)
  {
    assert Mirrored(sq) / 8 == sq / 8 && Mirrored(sq) % 8 == 7 - sq % 8;
  }

  lemma TwistInjective(enc: Encoding, x: int, y: int)
    requires PawnSquare(x) && PawnSquare(y) && Twist(enc, x) == Twist(enc, y)
    ensures x == y
  {
    var f, g := x % 8, y % 8;
    assert x == 8 * (x / 8) + f && y == 8 * (y / 8) + g;
    SameSquare(enc, x / 8, f, y / 8, g);
  }

  /** The same for squares given by rank and file, with the closed forms written out. */
  lemma SameSquare(enc: Encoding, r: int, f: int, s: int, g: int)
    requires 1 <= r <= 6 && 1 <= s <= 6 && 0 <= f < 8 && 0 <= g < 8
    requires var (d, e) := (if f < 4 then f else 7 - f, if g < 4 then g else 7 - g);
      var (i, j) := if enc.FileEnc? then (6 * d + r - 1, 6 * e + s - 1) else (4 * (r - 1) + d, 4 * (s - 1) + e);
      2 * i + (if f < 4 then 0 else 1) == 2 * j + if g < 4 then 0 else 1
    ensures r == s && f == g
  {
  }

  /** On files a to d, `kFlap` orders the squares by file and then rank, or by rank and then file; the other files
      mirror them. */
  lemma FlapOrders(enc: Encoding, x: int, y: int)
    requires PawnSquare(x) && PawnSquare(y) && x % 8 < 4 && y % 8 < 4
    ensures Flap(enc, x) < Flap(enc, y) <==>
      if enc.FileEnc? then x % 8 < y % 8 || (x % 8 == y % 8 && x / 8 < y / 8)
      else x / 8 < y / 8 || (x / 8 == y / 8 && x % 8 < y % 8)
  {
  }

  /** The square with twist value `t`. */
  function Untwisted(enc: Encoding, t: int): (sq: int)
    requires 0 <= t < 48
    ensures PawnSquare(sq) && Twist(enc, sq) == t
  {
    var j := (47 - t) / 2;
    var left := SquareAt(enc, j);
    SquareAtIsPawnSquare(enc, j);
    FlapOfSquareAt(enc, j);
    MirroredKeepsFlap(enc, left);
    if (47 - t) % 2 == 0 then left else Mirrored(left)
  }

  lemma FlapOfSquareAt(enc: Encoding, j: int)
    requires 0 <= j < 24
    ensures PawnSquare(SquareAt(enc, j)) && SquareAt(enc, j) % 8 < 4 && Flap(enc, SquareAt(enc, j)) == j
  {
    if enc.FileEnc? { RankAndFile(1 + j % 6, j / 6); } else { RankAndFile(1 + j / 4, j % 4); }
  }

  lemma RankAndFile(r: int, f: int)
    requires 0 <= f < 8
    ensures (r * 8 + f) / 8 == r && (r * 8 + f) % 8 == f
  {
  }

  function LowTwists(enc: Encoding, t: nat): set<int>
    requires t <= 48
  {
    set sq | 8 <= sq < 56 && Twist(enc, sq) < t
  }

  lemma NextTwist(enc: Encoding, t: nat, sq: int)
    requires 0 < t <= 48 && PawnSquare(sq) && Twist(enc, sq) == t - 1
    ensures LowTwists(enc, t) == LowTwists(enc, t - 1) + {sq}
  {
    forall x | PawnSquare(x) && Twist(enc, x) == t - 1 ensures x == sq { TwistInjective(enc, x, sq); }
  }

  lemma {:induction false} LowTwistsCount(enc: Encoding, t: nat)
    requires t <= 48
    ensures |LowTwists(enc, t)| == t
  {
    if t == 0 {
      assert LowTwists(enc, 0) == {};
    } else {
      LowTwistsCount(enc, t - 1);
      var sq := Untwisted(enc, t - 1);
      NextTwist(enc, t, sq);
      assert sq !in LowTwists(enc, t - 1);
    }
  }

  /** The twist value of a leader is the number of squares on which a pawn may stand behind it: those that are not
      nearer the edge. */
  lemma TwistCounts(enc: Encoding, leader: int)
    requires PawnSquare(leader) && leader % 8 < 4
    ensures Twist(enc, leader) == |set sq | 8 <= sq < 56 && sq != leader && Flap(enc, leader) <= Flap(enc, sq)|
  {
    var behind := set sq | 8 <= sq < 56 && sq != leader && Flap(enc, leader) <= Flap(enc, sq);
    forall sq | PawnSquare(sq) ensures sq in behind <==> sq in LowTwists(enc, Twist(enc, leader)) {
      if sq in behind { LeaderComesFirst(enc, leader, sq); }
    }
    assert behind == LowTwists(enc, Twist(enc, leader));
    LowTwistsCount(enc, Twist(enc, leader));
  }

  /** A row of `kFlap`. */
  ghost predicate IsFlapTable(enc: Encoding, flap: seq<int>) {
    |flap| == 64 && forall sq :: PawnSquare(sq) ==> flap[sq] == Flap(enc, sq)
  }

  ghost predicate Pawns(s: seq<int>, k: nat) {
    k <= |s| && forall a :: 0 <= a < k ==> PawnSquare(s[a])
  }

  /** The pawn nearest the edge comes first. */
  ghost predicate LeaderFirst(enc: Encoding, s: seq<int>, k: nat) {
    Pawns(s, k) && forall i :: 0 <= i < k ==> Flap(enc, s[0]) <= Flap(enc, s[i])
  }

  /** `std::swap(p[0], p[i])`. */
  method SwapLeader(p: array<int>, i: nat)
    requires 0 < i < p.Length
    modifies p
    ensures p[..] == old(p[..])[0 := old(p[i])][i := old(p[0])] && multiset(p[..]) == multiset(old(p[..]))
  {
    p[0], p[i] := p[i], p[0];
  }

  /** Once the leading pawn is on files a to d, every other pawn comes after it in twist order. */
  lemma LeaderComesFirst(enc: Encoding, leader: int, other: int)
    requires PawnSquare(leader) && PawnSquare(other) && leader != other
    requires Flap(enc, leader) <= Flap(enc, other) && leader % 8 < 4
    ensures Twist(enc, other) < Twist(enc, leader)
  {
    if Twist(enc, other) == Twist(enc, leader) { TwistInjective(enc, other, leader); }
  }

  // ---- PawnIdx and the pawn factors ----

  /** The leading square, on files a to d, with flap value `j`. */
  function SquareAt(enc: Encoding, j: int): int {
    if enc.FileEnc? then (1 + j % 6) * 8 + j / 6 else (1 + j / 4) * 8 + j % 4
  }

  lemma SquareAtFlap(enc: Encoding, sq: int)
    requires PawnSquare(sq) && sq % 8 < 4
    ensures SquareAt(enc, Flap(enc, sq)) == sq
  {
    var r, f := sq / 8, sq % 8;
    assert sq == r * 8 + f;
    if enc.FileEnc? {
      assert (6 * f + (r - 1)) / 6 == f && (6 * f + (r - 1)) % 6 == r - 1;
    } else {
      assert (4 * (r - 1) + f) / 4 == r - 1 && (4 * (r - 1) + f) % 4 == f;
    }
  }

  lemma SquareAtIsPawnSquare(enc: Encoding, j: int)
    requires 0 <= j < 24
    ensures PawnSquare(SquareAt(enc, j))
  {
  }

  /** The table of a leading square. */
  function TableOf(enc: Encoding, j: int): int {
    if enc.FileEnc? then j / 6 else j / 4
  }

  lemma TableOfSquare(enc: Encoding, sq: int)
    requires PawnSquare(sq)
    ensures TableOf(enc, Flap(enc, sq)) == if enc.FileEnc? then Edge(sq) else (sq - 8) / 8
  {
  }

  /** `leading_pawn`: the pawn with the least flap value moves to the front, and its file or rank picks the table. */
  method LeadingPawn(enc: Encoding, flap: seq<int>, p: array<int>, k: nat) returns (table: int)
    requires IsFlapTable(enc, flap) && 0 < k <= p.Length && Pawns(p[..], k)
    modifies p
    ensures multiset(p[..]) == multiset(old(p[..])) && p[k..] == old(p[k..])
    ensures LeaderFirst(enc, p[..], k)
    ensures table == TableOf(enc, Flap(enc, p[0]))
  {
    var i := 1;
    while i < k
      invariant 1 <= i <= k && multiset(p[..]) == multiset(old(p[..])) && p[k..] == old(p[k..])
      invariant Pawns(p[..], k)
      invariant forall j :: 0 <= j < i ==> flap[p[0]] <= flap[p[j]]
    {
      if flap[p[0]] > flap[p[i]] { SwapLeader(p, i); }
      i := i + 1;
    }
    TableOfSquare(enc, p[0]);
    table := if enc.FileEnc? then Edge(p[0]) else (p[0] - 8) / 8;
  }

  predicate FirstOfTable(enc: Encoding, j: int) {
    if enc.FileEnc? then j % 6 == 0 else j % 4 == 0
  }

  /** The pawns that may stand behind the leading square `j`, placed in all ways. */
  function Behind(enc: Encoding, others: nat, j: int): nat
    requires 0 <= j < 24
  {
    SquareAtIsPawnSquare(enc, j);
    Choose(Twist(enc, SquareAt(enc, j)), others)
  }

  /** Placements with an earlier leading square of the same table. */
  function Below(enc: Encoding, others: nat, j: int): nat
    requires 0 <= j < 24
  {
    if j == 0 || FirstOfTable(enc, j) then 0 else Below(enc, others, j - 1) + Behind(enc, others, j - 1)
  }

  predicate IsTable(enc: Encoding, table: int) {
    if enc.FileEnc? then 0 <= table < 4 else 0 <= table < 6
  }

  function LastOf(enc: Encoding, table: int): int {
    if enc.FileEnc? then 6 * table + 5 else 4 * table + 3
  }

  /** The leading square with flap value `j` and all before it in its table. */
  function Through(enc: Encoding, others: nat, j: int): nat
    requires 0 <= j < 24
  {
    Below(enc, others, j) + Behind(enc, others, j)
  }

  /** All placements of a table. */
  function Total(enc: Encoding, others: nat, table: int): nat
    requires IsTable(enc, table)
  {
    Through(enc, others, LastOf(enc, table))
  }

  lemma TableOfLeader(enc: Encoding, j: int)
    requires 0 <= j < 24
    ensures IsTable(enc, TableOf(enc, j)) && j <= LastOf(enc, TableOf(enc, j)) < 24
    ensures TableOf(enc, LastOf(enc, TableOf(enc, j))) == TableOf(enc, j)
    ensures FirstOfTable(enc, j + 1) <==> j == LastOf(enc, TableOf(enc, j))
    ensures TableOf(enc, j + 1) == TableOf(enc, j) + if FirstOfTable(enc, j + 1) then 1 else 0
  {
    if enc.FileEnc? {
      assert j == 6 * (j / 6) + j % 6;
    } else {
      assert j == 4 * (j / 4) + j % 4;
    }
  }

  /** The first `n` entries of a row of `PawnIdx`. */
  ghost predicate RowTo(enc: Encoding, others: nat, s: seq<nat>, n: int) {
    n <= |s| && forall i {:trigger s[i]} :: 0 <= i < n && i < 24 ==> s[i] == Below(enc, others, i)
  }

  /** The factors of the first `t` tables. */
  ghost predicate FactorsTo(enc: Encoding, others: nat, f: seq<nat>, t: int) {
    t <= |f| && forall a {:trigger f[a]} :: 0 <= a < t && IsTable(enc, a) ==> f[a] == Total(enc, others, a)
  }

  lemma FactorsStep(enc: Encoding, others: nat, f: seq<nat>, t: int, j: int, s: nat)
    requires FactorsTo(enc, others, f, t) && 0 <= j < 24 && IsTable(enc, t) && t < |f| && j == LastOf(enc, t) &&
      s == Through(enc, others, j)
    ensures FactorsTo(enc, others, f[t := s], t + 1)
  {
  }

  lemma LeaderStep(enc: Encoding, others: nat, j: int, t: int)
    requires 0 <= j < 24 && t == TableOf(enc, j)
    ensures IsTable(enc, t) && (FirstOfTable(enc, j + 1) ==> j == LastOf(enc, t) && TableOf(enc, j + 1) == t + 1)
    ensures !FirstOfTable(enc, j + 1) ==> TableOf(enc, j + 1) == t
    ensures j < 23 ==> Below(enc, others, j + 1) == if FirstOfTable(enc, j + 1) then 0 else Through(enc, others, j)
  {
    TableOfLeader(enc, j);
  }

  method BehindAt(enc: Encoding, binomial: array2<nat>, others: nat, twist: seq<int>, j: int) returns (b: nat)
    requires binomial.Length0 == 7 && binomial.Length1 == 64 && others < 6 && 0 <= j < 24
    requires forall i, j :: 0 <= i < 7 && 0 <= j < 64 ==> binomial[i, j] == Choose(j, i)
    requires |twist| == 64 && forall sq :: PawnSquare(sq) ==> twist[sq] == Twist(enc, sq)
    ensures b == Behind(enc, others, j)
  {
    SquareAtIsPawnSquare(enc, j);
    b := binomial[others, twist[if enc.FileEnc? then (1 + j % 6) * 8 + j / 6 else (1 + j / 4) * 8 + j % 4]];
  }

  /** One row of `PawnIdx` and of the pawn factors; `twist` is a row of `kPawnTwist`. */
  method InitPawnIdx(enc: Encoding, binomial: array2<nat>, others: nat, twist: seq<int>)
    returns (pawnIdx: array<nat>, pawnFactor: array<nat>)
    requires binomial.Length0 == 7 && binomial.Length1 == 64 && others < 6
    requires forall i, j :: 0 <= i < 7 && 0 <= j < 64 ==> binomial[i, j] == Choose(j, i)
    requires |twist| == 64 && forall sq :: PawnSquare(sq) ==> twist[sq] == Twist(enc, sq)
    ensures fresh(pawnIdx) && fresh(pawnFactor) && pawnIdx.Length == 24 &&
      pawnFactor.Length == if enc.FileEnc? then 4 else 6
    ensures RowTo(enc, others, pawnIdx[..], 24)
    ensures FactorsTo(enc, others, pawnFactor[..], if enc.FileEnc? then 4 else 6)
  {
    pawnIdx := new nat[24](_ => 0);
    pawnFactor := new nat[if enc.FileEnc? then 4 else 6](_ => 0);
    var s: nat, j := 0, 0;
    var t := 0;
    while j < 24
      invariant 0 <= j <= 24 && (j < 24 ==> s == Below(enc, others, j))
      invariant RowTo(enc, others, pawnIdx[..], j)
      invariant t == TableOf(enc, j) && FactorsTo(enc, others, pawnFactor[..], t)
    {
      var b := BehindAt(enc, binomial, others, twist, j);
      s, t := PlaceLeader(enc, others, pawnIdx, pawnFactor, j, s, t, b);
      j := j + 1;
    }
  }

  /** One round of that loop. */
  method PlaceLeader(enc: Encoding, ghost others: nat, pawnIdx: array<nat>, pawnFactor: array<nat>, j: nat, sum: nat,
                     table: int, b: nat)
    returns (s: nat, t: int)
    requires j < 24 == pawnIdx.Length && pawnFactor != pawnIdx && pawnFactor.Length == if enc.FileEnc? then 4 else 6
    requires sum == Below(enc, others, j) && b == Behind(enc, others, j) && table == TableOf(enc, j)
    requires RowTo(enc, others, pawnIdx[..], j) && FactorsTo(enc, others, pawnFactor[..], table)
    modifies pawnIdx, pawnFactor
    ensures RowTo(enc, others, pawnIdx[..], j + 1) && FactorsTo(enc, others, pawnFactor[..], t)
    ensures t == TableOf(enc, j + 1) && (j < 23 ==> s == Below(enc, others, j + 1))
  {
    ghost var f := pawnFactor[..];
    pawnIdx[j] := sum;
    LeaderStep(enc, others, j, table);
    s, t := sum + b, table;
    assert s == Through(enc, others, j);
    if FirstOfTable(enc, j + 1) {
      pawnFactor[t] := s;
      assert pawnFactor[..] == f[t := s];
      FactorsStep(enc, others, f, t, j, s);
      s, t := 0, t + 1;
    } else {
      assert pawnFactor[..] == f;
    }
  }

  // ---- the number of the leading pawns ----

  /** The leading pawn on files a to d, the others after it in decreasing twist order. */
  ghost predicate LeadSorted(enc: Encoding, p: seq<int>) {
    && p != [] && (forall i :: 0 <= i < |p| ==> PawnSquare(p[i])) && p[0] % 8 < 4
    && forall i, j :: 0 <= i < j < |p| ==> Twist(enc, p[j]) < Twist(enc, p[i])
  }

  /** The twist numbers of the pawns behind the leader, in increasing order. */
  ghost function Followers(enc: Encoding, p: seq<int>): (r: seq<int>)
    requires LeadSorted(enc, p)
    ensures |r| == |p| - 1
  {
    seq(|p| - 1, i requires 0 <= i < |p| - 1 => Twist(enc, p[|p| - 1 - i]))
  }

  lemma FollowersIncrease(enc: Encoding, p: seq<int>)
    requires LeadSorted(enc, p)
    ensures Increasing(Followers(enc, p)) && Within(Followers(enc, p), Twist(enc, p[0]))
  {
  }

  /** `PawnIdx[enc][k - 1][kFlap[p[0]]]` plus the binomials of the others. */
  ghost function LeadNumber(enc: Encoding, p: seq<int>): nat
    requires LeadSorted(enc, p)
  {
    FollowersIncrease(enc, p);
    Below(enc, |p| - 1, Flap(enc, p[0])) + Rank(Followers(enc, p))
  }

  lemma {:induction false} BelowGrows(enc: Encoding, others: nat, i: int, j: int)
    requires 0 <= i < j < 24 && TableOf(enc, i) == TableOf(enc, j)
    ensures Through(enc, others, i) <= Below(enc, others, j)
  {
    if i < j - 1 { BelowGrows(enc, others, i, j - 1); }
  }

  /** The numbers behind one leading square end before those of the next begin. */
  lemma LeadBetween(enc: Encoding, p: seq<int>)
    requires LeadSorted(enc, p)
    ensures var j := Flap(enc, p[0]);
      Below(enc, |p| - 1, j) <= LeadNumber(enc, p) < Through(enc, |p| - 1, j)
  {
    FollowersIncrease(enc, p);
    SquareAtFlap(enc, p[0]);
    RankBound(Followers(enc, p), Twist(enc, p[0]));
  }

  /** Leading pawns are numbered below the factor of their table. */
  lemma LeadBound(enc: Encoding, p: seq<int>)
    requires LeadSorted(enc, p)
    ensures IsTable(enc, TableOf(enc, Flap(enc, p[0])))
    ensures LeadNumber(enc, p) < Total(enc, |p| - 1, TableOf(enc, Flap(enc, p[0])))
  {
    LeadBetween(enc, p);
    var j := Flap(enc, p[0]);
    TableOfLeader(enc, j);
    var last := LastOf(enc, TableOf(enc, j));
    if j < last { BelowGrows(enc, |p| - 1, j, last); }
  }

  /** Leading pawns with the same number have the same leader. */
  lemma SameLeader(enc: Encoding, p: seq<int>, q: seq<int>)
    requires LeadSorted(enc, p) && LeadSorted(enc, q) && |p| == |q| && LeadNumber(enc, p) == LeadNumber(enc, q)
    requires TableOf(enc, Flap(enc, p[0])) == TableOf(enc, Flap(enc, q[0]))
    ensures p[0] == q[0]
  {
    var i, j := Flap(enc, p[0]), Flap(enc, q[0]);
    LeadBetween(enc, p);
    LeadBetween(enc, q);
    if i < j { BelowGrows(enc, |p| - 1, i, j); }
    if j < i { BelowGrows(enc, |p| - 1, j, i); }
    SquareAtFlap(enc, p[0]);
    SquareAtFlap(enc, q[0]);
  }

  /** Within one table, different leading pawns have different numbers. */
  lemma {:induction false} LeadInjective(enc: Encoding, p: seq<int>, q: seq<int>)
    requires LeadSorted(enc, p) && LeadSorted(enc, q) && |p| == |q| && LeadNumber(enc, p) == LeadNumber(enc, q)
    requires TableOf(enc, Flap(enc, p[0])) == TableOf(enc, Flap(enc, q[0]))
    ensures p == q
  {
    SameLeader(enc, p, q);
    var c, d := Followers(enc, p), Followers(enc, q);
    FollowersIncrease(enc, p);
    FollowersIncrease(enc, q);
    RankInjective(c, d, Twist(enc, p[0]));
    forall x | 0 < x < |p| ensures p[x] == q[x] {
      assert c[|p| - 1 - x] == d[|p| - 1 - x];
      TwistInjective(enc, p[x], q[x]);
    }
  }

  /** A pawn table is a perfect index up to the order of like pieces: two placements of the same table get the same
      index if and only if they have the same pieces on the same squares, and every index is below the size of the
      table. */
  lemma PawnTableIndex(enc: Encoding, l: Layout, norm: seq<nat>, factor: seq<nat>, p: seq<int>, q: seq<int>)
    requires Grouped(l, norm) && HeaderOk(l, norm) && 0 < |factor| && Factors(l, norm, factor, TableSlots(l, norm), 1)
    requires Placement(l, norm, p) && Placement(l, norm, q) && LeadSorted(enc, p[..l.lead]) &&
      LeadSorted(enc, q[..l.lead])
    requires TableOf(enc, Flap(enc, p[0])) == TableOf(enc, Flap(enc, q[0])) &&
      IsTable(enc, TableOf(enc, Flap(enc, p[0])))
    requires l.leadCount == Total(enc, l.lead - 1, TableOf(enc, Flap(enc, p[0])))
    ensures IndexSum(l, norm, factor, p, LeadNumber(enc, p[..l.lead])) < Size(l, norm, TableSlots(l, norm))
    ensures IndexSum(l, norm, factor, p, LeadNumber(enc, p[..l.lead])) ==
      IndexSum(l, norm, factor, q, LeadNumber(enc, q[..l.lead]))
      <==> SamePieces(l, norm, p, q)
  {
    var c, d := p[..l.lead], q[..l.lead];
    assert c[0] == p[0] && d[0] == q[0];
    LeadBound(enc, c);
    LeadBound(enc, d);
    var a, b := LeadNumber(enc, c), LeadNumber(enc, d);
    if a == b { LeadInjective(enc, c, d); }
    IndexInRange(l, norm, factor, p, a);
    IndexIdentifies(l, norm, factor, p, q, a, b);
  }
}
