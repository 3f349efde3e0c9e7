// The pawn branch of `encode`: turn the leading pawn to files a to d, sort the other leading pawns by twist, number
// them, and add the other groups.

module PawnEncoding {
  import opened Binomials
  import opened TableIndex
  import opened TableEncoder
  import opened LeadingPawns

  // ---- sorting the leading pawns ----

  /** A row of `kPawnTwist`. */
  ghost predicate IsTwistTable(enc: Encoding, twist: seq<int>) {
    |twist| == 64 && forall sq {:trigger twist[sq]} :: PawnSquare(sq) ==> twist[sq] == Twist(enc, sq)
  }

  /** A table with different values on different pawn squares. */
  ghost predicate Separates(twist: seq<int>) {
    |twist| == 64 && forall x, y {:trigger twist[x], twist[y]} ::
      PawnSquare(x) && PawnSquare(y) && twist[x] == twist[y] ==> x == y
  }

  lemma TwistSeparates(enc: Encoding, twist: seq<int>)
    requires IsTwistTable(enc, twist)
    ensures Separates(twist)
  {
    forall x, y | PawnSquare(x) && PawnSquare(y) && twist[x] == twist[y] ensures x == y { TwistInjective(enc, x, y); }
  }

  /** The entries `1..i` are in place: their twist falls, and no later pawn up to `k` has a larger one. */
  ghost predicate Falling(twist: seq<int>, s: seq<int>, i: nat, k: nat)
    requires |twist| == 64
  {
    Pawns(s, k) && forall a, b :: 1 <= a < i && a < b < k ==> twist[s[b]] < twist[s[a]]
  }

  /** Entry `i` has the largest twist of `i..j`. */
  ghost predicate Largest(twist: seq<int>, s: seq<int>, i: nat, j: nat)
    requires |twist| == 64 && Pawns(s, j)
  {
    i < j && forall b :: i < b < j ==> twist[s[b]] < twist[s[i]]
  }

  function TwistExchange(twist: seq<int>, s: seq<int>, i: nat, j: nat): seq<int>
    requires |twist| == 64 && i < |s| && j < |s| && PawnSquare(s[i]) && PawnSquare(s[j])
  {
    if twist[s[i]] < twist[s[j]] then Swap(s, i, j) else s
  }

  lemma TwistExchanged(twist: seq<int>, o: seq<int>, s: seq<int>, k: nat, i: nat, j: nat)
    requires Separates(twist) && 1 <= i < j < k <= |o| && Rearranged(o, s, 1, k) && Distinct(s)
    requires Falling(twist, s, i, k) && Largest(twist, s, i, j)
    ensures var r := TwistExchange(twist, s, i, j);
      Rearranged(o, r, 1, k) && Distinct(r) && Falling(twist, r, i, k) && Largest(twist, r, i, j + 1)
  {
    Swapped(o, s, 1, k, i, j);
    FallingSwapped(twist, s, k, i, j);
    assert s[i] != s[j] && twist[s[i]] != twist[s[j]];
    LargestExchanged(twist, s, k, i, j);
  }

  lemma FallingSwapped(twist: seq<int>, s: seq<int>, k: nat, i: nat, j: nat)
    requires |twist| == 64 && 1 <= i < j < k && Falling(twist, s, i, k)
    ensures Falling(twist, Swap(s, i, j), i, k)
  {
    var r := Swap(s, i, j);
    forall a, b | 1 <= a < i && a < b < k ensures twist[r[b]] < twist[r[a]] {
      var c := if b == i then j else if b == j then i else b;
      assert r[b] == s[c] && r[a] == s[a];
    }
  }

  lemma LargestExchanged(twist: seq<int>, s: seq<int>, k: nat, i: nat, j: nat)
    requires |twist| == 64 && i < j < k && Pawns(s, k) && twist[s[i]] != twist[s[j]] && Largest(twist, s, i, j)
    ensures Pawns(TwistExchange(twist, s, i, j), k) && Largest(twist, TwistExchange(twist, s, i, j), i, j + 1)
  {
  }

  /** The inner loop of the sort. */
  method SelectLargest(twist: seq<int>, p: array<int>, ghost o: seq<int>, k: nat, i: nat)
    requires Separates(twist) && 1 <= i < k <= p.Length == |o|
    requires Rearranged(o, p[..], 1, k) && Distinct(p[..]) && Falling(twist, p[..], i, k)
    modifies p
    ensures Rearranged(o, p[..], 1, k) && Distinct(p[..]) && Falling(twist, p[..], i + 1, k)
  {
    var j := i + 1;
    while j < k
      invariant i < j <= k && Rearranged(o, p[..], 1, k) && Distinct(p[..])
      invariant Falling(twist, p[..], i, k) && Largest(twist, p[..], i, j)
    {
      ghost var s := p[..];
      TwistExchanged(twist, o, s, k, i, j);
      assert PawnSquare(s[i]) && PawnSquare(s[j]);
      if twist[p[i]] < twist[p[j]] { p[i], p[j] := p[j], p[i]; }
      assert p[..] == TwistExchange(twist, s, i, j);
      j := j + 1;
    }
  }

  /** The pawns behind the leader are sorted by falling twist. */
  method SortByTwist(twist: seq<int>, p: array<int>, k: nat)
    requires Separates(twist) && 1 <= k <= p.Length && Distinct(p[..]) && Pawns(p[..], k)
    modifies p
    ensures Rearranged(old(p[..]), p[..], 1, k) && Distinct(p[..]) && Falling(twist, p[..], k, k)
  {
    ghost var o := p[..];
    var i := 1;
    while i < k
      invariant 1 <= i <= k && Rearranged(o, p[..], 1, k) && Distinct(p[..]) && Falling(twist, p[..], i, k)
    {
      SelectLargest(twist, p, o, k, i);
      i := i + 1;
    }
  }

  /** With the leader first and on files a to d, the sorted pawns are as the numbering wants them. */
  lemma SortedLeads(enc: Encoding, twist: seq<int>, p: seq<int>, k: nat)
    requires IsTwistTable(enc, twist) && 1 <= k <= |p| && Distinct(p) && Falling(twist, p, k, k) &&
      LeaderFirst(enc, p, k) && p[0] % 8 < 4
    ensures LeadSorted(enc, p[..k])
  {
    var c := p[..k];
    forall i, j | 0 <= i < j < k ensures Twist(enc, c[j]) < Twist(enc, c[i]) {
      assert c[i] == p[i] && c[j] == p[j] && PawnSquare(p[i]) && PawnSquare(p[j]);
      if i == 0 { LeaderComesFirst(enc, p[0], p[j]); } else { assert twist[p[j]] < twist[p[i]]; }
    }
  }

  /** It stays first when the others are sorted. */
  lemma LeaderStays(enc: Encoding, o: seq<int>, p: seq<int>, k: nat)
    requires 1 <= k <= |o| && Rearranged(o, p, 1, k) && LeaderFirst(enc, o, k)
    ensures p[0] == o[0] && LeaderFirst(enc, p, k)
  {
    assert p[0] == p[..1][0] == o[..1][0] == o[0];
    forall i | 1 <= i < k ensures PawnSquare(p[i]) && Flap(enc, o[0]) <= Flap(enc, p[i]) {
      assert p[1..k][i - 1] == p[i] && p[i] in multiset(p[1..k]);
      assert p[i] in o[1..k];
      var m :| 0 <= m < k - 1 && o[1..k][m] == p[i];
      assert o[m + 1] == p[i];
    }
  }

  /** `PawnIdx` for the leader, plus one binomial for each pawn behind it. */
  method NumberLeaders(enc: Encoding, binomial: array2<nat>, twist: seq<int>, pawnIdx: seq<nat>, flap: seq<int>,
                       p: array<int>, k: nat)
    returns (idx: nat)
    requires BinomialTable(binomial) && IsTwistTable(enc, twist) && IsFlapTable(enc, flap)
    requires 1 <= k <= 7 && k <= p.Length && LeadSorted(enc, p[..k]) && RowTo(enc, k - 1, pawnIdx, 24)
    ensures idx == LeadNumber(enc, p[..k])
  {
    ghost var c := p[..k];
    ghost var f := Followers(enc, c);
    FollowersIncrease(enc, c);
    assert c[0] == p[0];
    idx := pawnIdx[flap[p[0]]];
    var i := 1;
    assert f[..k - 1] == f;
    while i < k
      invariant 1 <= i <= k && idx + Rank(f[..k - i]) == LeadNumber(enc, c)
    {
      assert p[i] == c[i] && f[k - i - 1] == Twist(enc, c[i]);
      assert f[..k - i][..k - i - 1] == f[..k - (i + 1)];
      var b := binomial[k - i, twist[p[i]]];
      assert b == Choose(f[k - i - 1], k - i);
      idx := idx + b;
      i := i + 1;
    }
  }

  // ---- turning the board ----

  /** The squares with files exchanged if the leader is on files e to h. */
  function Turned(s: seq<int>): (r: seq<int>)
    ensures |r| == |s|
  {
    if s != [] && s[0] % 8 >= 4 then seq(|s|, i requires 0 <= i < |s| => Mirrored(s[i])) else s
  }

  /** The first lines of `encode`; `p[i] ^= 7` mirrors a file. */
  method TurnLeft(p: array<int>)
    requires p.Length > 0
    modifies p
    ensures p[..] == Turned(old(p[..]))
  {
    if p[0] % 8 >= 4 {
      var i := 0;
      while i < p.Length
        invariant 0 <= i <= p.Length
        invariant forall j :: 0 <= j < i ==> p[j] == Mirrored(old(p[j]))
        invariant forall j :: i <= j < p.Length ==> p[j] == old(p[j])
      {
        p[i] := p[i] + 7 - 2 * (p[i] % 8);
        i := i + 1;
      }
    }
  }

  lemma MirroredSquare(x: int, y: int)
    requires 0 <= x < 64 && 0 <= y < 64
    ensures 0 <= Mirrored(x) < 64 && (8 <= x < 56 ==> 8 <= Mirrored(x) < 56) && (x != y ==> Mirrored(x) != Mirrored(y))
    ensures Mirrored(x) % 8 < 4 <==> x % 8 >= 4
  {
    RankAndFile(x / 8, 7 - x % 8);
    assert Mirrored(x) == 8 * (x / 8) + (7 - x % 8) && Mirrored(y) == 8 * (y / 8) + (7 - y % 8);
    if Mirrored(x) == Mirrored(y) {
      RankAndFile(y / 8, 7 - y % 8);
      assert x == 8 * (x / 8) + x % 8 && y == 8 * (y / 8) + y % 8;
    }
  }

  lemma RankAndFile(r: int, f: int)
    requires 0 <= f < 8
    ensures (8 * r + f) / 8 == r && (8 * r + f) % 8 == f
  {
  }

  lemma TurnedSquares(l: Layout, s: seq<int>)
    requires Squares(l, s) && s != []
    ensures Squares(l, Turned(s)) && Turned(s)[0] % 8 < 4
  {
    var r := Turned(s);
    forall i, j | 0 <= i < j < |s| ensures r[i] != r[j] { MirroredSquare(s[i], s[j]); }
    forall i | 0 <= i < |s| ensures 0 <= r[i] < 64 && (8 <= s[i] < 56 ==> 8 <= r[i] < 56) {
      MirroredSquare(s[i], s[i]);
    }
    if l.others > 0 {
      forall i | 0 <= i < l.First() ensures 8 <= r[..l.First()][i] < 56 { assert s[..l.First()][i] == s[i]; }
    }
    MirroredSquare(s[0], s[0]);
  }

  lemma TurnedLeader(enc: Encoding, s: seq<int>, k: nat)
    requires 0 < k <= |s| && LeaderFirst(enc, s, k)
    ensures LeaderFirst(enc, Turned(s), k)
  {
    var r := Turned(s);
    forall i | 0 <= i < k ensures PawnSquare(r[i]) && Flap(enc, r[i]) == Flap(enc, s[i]) {
      MirroredKeepsFlap(enc, s[i]);
    }
  }

  lemma SortedSquares(l: Layout, s: seq<int>, r: seq<int>)
    requires Squares(l, s) && 1 <= l.lead && Rearranged(s, r, 1, l.lead) && Distinct(r)
    ensures Squares(l, r)
  {
    RearrangedAll(s, r, 1, l.lead);
    if l.others > 0 {
      var k := l.First();
      assert s[..l.lead] == s[..k][..l.lead];
      RearrangedBetween(s, r, 1, l.lead, 8, 56);
      forall i | 0 <= i < k ensures 8 <= r[..k][i] < 56 {
        if i < l.lead {
          assert r[..k][i] == r[..l.lead][i];
        } else {
          assert r[..k][i] == r[l.lead..][i - l.lead] == s[l.lead..][i - l.lead] == s[..k][i];
        }
      }
    }
  }

  // ---- the whole branch ----

  /** The same squares in every group, the leading pawns included. */
  ghost predicate SameMen(l: Layout, norm: seq<nat>, o: seq<int>, p: seq<int>)
    requires At(l, norm, l.First())
  {
    && |o| == |p| == |norm| && l.First() <= |p| && multiset(o[..l.lead]) == multiset(p[..l.lead])
    && multiset(o[l.lead..l.First()]) == multiset(p[l.lead..l.First()])
    && forall s {:trigger s in Starts(l, norm, l.First())} ::
      s in Starts(l, norm, l.First()) ==> SameGroup(norm, o, p, s)
  }

  ghost predicate SameGroup(norm: seq<nat>, o: seq<int>, p: seq<int>, s: nat) {
    |o| == |p| == |norm| && s < |norm| && s + norm[s] <= |p| &&
      multiset(o[s..s + norm[s]]) == multiset(p[s..s + norm[s]])
  }

  lemma SortedThenEncoded(l: Layout, norm: seq<nat>, o: seq<int>, q: seq<int>, p: seq<int>)
    requires Grouped(l, norm) && |o| == |norm| && 1 <= l.lead && Rearranged(o, q, 1, l.lead) &&
      SamePieces(l, norm, q, p)
    ensures SameMen(l, norm, o, p)
  {
    SameFront(o, q, l.lead);
    SliceBehind(o, q, l.lead, l.lead, l.First());
    forall s | s in Starts(l, norm, l.First()) ensures SameGroup(norm, o, p, s) {
      assert GoodStart(norm, l.First(), s);
      SliceBehind(o, q, l.lead, s, s + norm[s]);
    }
  }

  lemma SameFront(o: seq<int>, q: seq<int>, lead: nat)
    requires 1 <= lead <= |o| && Rearranged(o, q, 1, lead)
    ensures multiset(o[..lead]) == multiset(q[..lead])
  {
    assert q[..lead] == q[..1] + q[1..lead] && o[..lead] == o[..1] + o[1..lead];
  }

  lemma SliceBehind(o: seq<int>, q: seq<int>, lead: nat, i: nat, j: nat)
    requires lead <= i <= j <= |o| == |q| && o[lead..] == q[lead..]
    ensures o[i..j] == q[i..j]
  {
    forall x | i <= x < j ensures o[x] == q[x] { assert o[lead..][x - lead] == o[x] && q[lead..][x - lead] == q[x]; }
  }

  /** The pawn branch of `encode`, given that the leading pawn is in front. */
  method EncodePawns(enc: Encoding, binomial: array2<nat>, twist: seq<int>, pawnIdx: seq<nat>, flap: seq<int>,
                     l: Layout, norm: seq<nat>, factor: seq<nat>, p: array<int>)
    returns (idx: int)
    requires BinomialTable(binomial) && IsTwistTable(enc, twist) && IsFlapTable(enc, flap)
    requires Grouped(l, norm) && RowTo(enc, l.lead - 1, pawnIdx, 24) && |factor| == |norm| && Squares(l, p[..]) &&
      LeaderFirst(enc, p[..], l.lead)
    modifies p
    ensures Placement(l, norm, p[..]) && LeadSorted(enc, p[..l.lead]) && SameMen(l, norm, Turned(old(p[..])), p[..])
    ensures idx == IndexSum(l, norm, factor, p[..], LeadNumber(enc, p[..l.lead]))
  {
    TurnedSquares(l, p[..]);
    TurnedLeader(enc, p[..], l.lead);
    TurnLeft(p);
    ghost var o := p[..];
    TwistSeparates(enc, twist);
    SortByTwist(twist, p, l.lead);
    ghost var q := p[..];
    LeaderStays(enc, o, q, l.lead);
    SortedLeads(enc, twist, q, l.lead);
    SortedSquares(l, o, q);
    assert p[..l.lead] == q[..l.lead];
    var a := NumberLeaders(enc, binomial, twist, pawnIdx, flap, p, l.lead);
    idx := Encode(binomial, l, norm, factor, p, a);
    assert p[..l.lead] == p[..][..l.lead];
    SortedThenEncoded(l, norm, o, q, p[..]);
  }

  lemma SameMenSamePieces(l: Layout, norm: seq<nat>, o: seq<int>, p: seq<int>, q: seq<int>, u: seq<int>)
    requires Grouped(l, norm) && SameMen(l, norm, o, p) && SamePieces(l, norm, p, q) && SameMen(l, norm, u, q)
    ensures SameMen(l, norm, o, u)
  {
    forall s | s in Starts(l, norm, l.First()) ensures SameGroup(norm, o, u, s) {
      assert SameGroup(norm, o, p, s) && SameGroup(norm, u, q, s);
    }
  }

  /** Equal indices of one table mean equal positions, up to the order of like pieces and a left-right mirror: `o` and
      `u` are the squares given to `encode`, `p` and `q` what it leaves. */
  lemma EncodePawnsInjective(enc: Encoding, l: Layout, norm: seq<nat>, factor: seq<nat>, o: seq<int>, p: seq<int>,
                             u: seq<int>, q: seq<int>)
    requires Grouped(l, norm) && HeaderOk(l, norm) && 0 < |factor| && Factors(l, norm, factor, TableSlots(l, norm), 1)
    requires Placement(l, norm, p) && LeadSorted(enc, p[..l.lead]) && SameMen(l, norm, Turned(o), p)
    requires Placement(l, norm, q) && LeadSorted(enc, q[..l.lead]) && SameMen(l, norm, Turned(u), q)
    requires TableOf(enc, Flap(enc, p[0])) == TableOf(enc, Flap(enc, q[0])) &&
      IsTable(enc, TableOf(enc, Flap(enc, p[0])))
    requires l.leadCount == Total(enc, l.lead - 1, TableOf(enc, Flap(enc, p[0])))
    requires IndexSum(l, norm, factor, p, LeadNumber(enc, p[..l.lead])) ==
      IndexSum(l, norm, factor, q, LeadNumber(enc, q[..l.lead]))
    ensures SameMen(l, norm, Turned(o), Turned(u))
  {
    PawnTableIndex(enc, l, norm, factor, p, q);
    SameMenSamePieces(l, norm, Turned(o), p, q, Turned(u));
  }
}
