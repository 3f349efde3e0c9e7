// The loops of `init_enc_info` and `encode` that set up the mixed radix and add up the index.

module TableEncoder {
  import opened Binomials
  import opened TableIndex

  // ---- init_enc_info ----

  /** Groups of like pieces, with their lengths in `norm`, fill `k..e`. */
  ghost predicate Tiled(pieces: seq<int>, norm: seq<nat>, k: nat, e: nat)
    requires e <= |norm| == |pieces|
    decreases e - k
  {
    k == e || (k < e && norm[k] == RunEnd(pieces, k, k) - k && 0 < norm[k] <= e - k &&
      Tiled(pieces, norm, k + norm[k], e))
  }

  lemma {:induction false} TiledAppend(pieces: seq<int>, norm: seq<nat>, now: seq<nat>, k: nat, e: nat)
    requires e < |norm| == |now| == |pieces| && Tiled(pieces, norm, k, e) && now[..e] == norm[..e]
    requires now[e] == RunEnd(pieces, e, e) - e && now[e] > 0
    ensures Tiled(pieces, now, k, e + now[e])
    decreases e - k
  {
    if k < e {
      assert now[k] == now[..e][k] == norm[..e][k] == norm[k];
      TiledAppend(pieces, norm, now, k + norm[k], e);
    }
  }

  lemma {:induction false} TiledIsGroups(pieces: seq<int>, norm: seq<nat>, k: nat)
    requires |norm| == |pieces| && Tiled(pieces, norm, k, |pieces|)
    ensures Groups(pieces, norm, k)
    decreases |pieces| - k
  {
    if k < |pieces| { TiledIsGroups(pieces, norm, k + norm[k]); }
  }

  /** The inner loop of `init_enc_info`: `norm[i]` counts the like pieces from `i` on. */
  method CountRun(pieces: seq<int>, norm: array<nat>, i: nat)
    requires norm.Length == |pieces| && i < norm.Length && norm[i] == 0
    modifies norm
    ensures norm[..] == old(norm[..])[i := norm[i]] && norm[i] == RunEnd(pieces, i, i) - i > 0
  {
    var j := i;
    while j < |pieces| && pieces[j] == pieces[i]
      invariant i <= j <= |pieces| && norm[i] == j - i && RunEnd(pieces, i, j) == RunEnd(pieces, i, i)
      invariant norm[..] == old(norm[..])[i := norm[i]]
    {
      norm[i] := norm[i] + 1;
      j := j + 1;
    }
  }

  method InitNorms(l: Layout) returns (norm: array<nat>)
    requires l.Valid()
    ensures fresh(norm) && Grouped(l, norm[..])
  {
    var n := |l.pieces|;
    norm := new nat[n](_ => 0);
    norm[0] := l.lead;
    var i := l.lead;
    if l.others > 0 {
      norm[i] := l.others;
      i := i + norm[i];
    }
    while i < n
      invariant l.First() <= i <= n && Tiled(l.pieces, norm[..], l.First(), i)
      invariant norm[0] == l.lead && (l.others > 0 ==> norm[l.lead] == l.others)
      invariant forall j :: i <= j < n ==> norm[j] == 0
    {
      ghost var was := norm[..];
      CountRun(l.pieces, norm, i);
      TiledAppend(l.pieces, was, norm[..], l.First(), i);
      i := i + norm[i];
    }
    TiledIsGroups(l.pieces, norm[..], l.First());
  }

  lemma {:induction false} SizeAppend(l: Layout, norm: seq<nat>, done: seq<Slot>, s: Slot)
    ensures Size(l, norm, done + [s]) == Size(l, norm, done) * Radix(l, norm, s)
  {
    if done == [] {
      assert done + [s] == [s];
      assert Size(l, norm, [s][1..]) == 1;
    } else {
      assert (done + [s])[1..] == done[1..] + [s];
      SizeAppend(l, norm, done[1..], s);
      Associates(Radix(l, norm, done[0]), Size(l, norm, done[1..]), Radix(l, norm, s));
    }
  }

  lemma Associates(a: int, b: int, c: int)
    ensures a * (b * c) == (a * b) * c
  {
  }

  /** Writing the factor of a slot not placed yet leaves the others. */
  lemma {:induction false} FactorsAppend(l: Layout, norm: seq<nat>, factor: seq<nat>, done: seq<Slot>, s: Slot, f: nat,
                                         g: nat)
    requires Factors(l, norm, factor, done, f) && FactorAt(l, s) < |factor| && g == f * Size(l, norm, done)
    requires forall d :: d in done ==> FactorAt(l, d) != FactorAt(l, s)
    ensures Factors(l, norm, factor[FactorAt(l, s) := g], done + [s], f)
  {
    if done == [] {
      assert done + [s] == [s];
      assert Size(l, norm, done) == 1;
    } else {
      assert (done + [s])[1..] == done[1..] + [s];
      Associates(f, Radix(l, norm, done[0]), Size(l, norm, done[1..]));
      FactorsAppend(l, norm, factor, done[1..], s, f * Radix(l, norm, done[0]), g);
    }
  }

  /** Slots placed before state (k, i). */
  ghost predicate Earlier(l: Layout, k: nat, i: nat, done: seq<Slot>) {
    forall s :: s in done ==> match s case Lead => l.order < i case Others => l.order2 < i &&
      l.others > 0 case Group(q) => l.First() <= q < k
  }

  /** The factor of the slot of state (k, i) is not used by an earlier slot. */
  lemma OwnFactor(l: Layout, k: nat, i: nat, done: seq<Slot>)
    requires l.Valid() && More(l, k, i) && Earlier(l, k, i, done) && l.First() <= k <= |l.pieces| && i <= |l.pieces| + 2
    ensures forall d :: d in done ==> FactorAt(l, d) != FactorAt(l, SlotAt(l, k, i))
    ensures FactorAt(l, SlotAt(l, k, i)) < |l.pieces| && (SlotAt(l, k, i).Others? ==> l.others > 0)
  {
  }

  ghost predicate Laid(l: Layout, norm: seq<nat>, factor: seq<nat>, k: nat, i: nat, done: seq<Slot>, f: int)
    requires At(l, norm, l.First())
  {
    && At(l, norm, k) && done + Slots(l, norm, k, i) == TableSlots(l, norm)
    && |factor| == |norm| && Factors(l, norm, factor, done, 1) && f == Size(l, norm, done)
    && Earlier(l, k, i, done)
  }

  lemma LaidNext(l: Layout, norm: seq<nat>, factor: seq<nat>, k: nat, i: nat, done: seq<Slot>, f: nat)
    requires Grouped(l, norm) && Laid(l, norm, factor, k, i, done, f) && More(l, k, i)
    requires l.First() <= k <= |l.pieces| && i <= |l.pieces| + 2
    ensures var s, j := SlotAt(l, k, i), NextK(l, norm, k, i);
      FactorAt(l, s) < |factor| && Laid(l, norm, factor[FactorAt(l, s) := f], j, i + 1, done + [s],
        f * Radix(l, norm, s))
  {
    var s, j := SlotAt(l, k, i), NextK(l, norm, k, i);
    OwnFactor(l, k, i, done);
    FactorsAppend(l, norm, factor, done, s, 1, f);
    SizeAppend(l, norm, done, s);
    assert done + Slots(l, norm, k, i) == (done + [s]) + Slots(l, norm, j, i + 1);
  }

  /** `init_enc_info` after the header is read. */
  method InitEncInfo(l: Layout) returns (norm: array<nat>, factor: array<nat>, size: int)
    requires l.Valid()
    ensures fresh(norm) && fresh(factor) && Grouped(l, norm[..]) && factor.Length == norm.Length
    ensures Factors(l, norm[..], factor[..], TableSlots(l, norm[..]), 1) &&
      size == Size(l, norm[..], TableSlots(l, norm[..]))
  {
    norm := InitNorms(l);
    var ns := norm[..];
    factor := new nat[|l.pieces|](_ => 0);
    var k, i: nat := l.First(), 0;
    var n := 64 - k;
    size := 1;
    ghost var done: seq<Slot> := [];
    while k < |l.pieces| || i == l.order || i == l.order2
      invariant norm[..] == ns && l.First() <= k <= |l.pieces| && n == 64 - k
      invariant i <= k - l.First() + (if l.order < i then 1 else 0) + (if l.order2 < i then 1 else 0)
      invariant Laid(l, ns, factor[..], k, i, done, size)
      decreases Pending(l, k, i)
    {
      ghost var s := SlotAt(l, k, i);
      k, n, size := PlaceSlot(l, ns, factor, k, i, n, size, done);
      done := done + [s];
      i := i + 1;
    }
    assert done + [] == done;
  }

  /** One round of that loop: `factor` gets the size so far, the size is multiplied by the radix. */
  method PlaceSlot(l: Layout, norm: seq<nat>, factor: array<nat>, group: nat, i: nat, free: int, before: nat,
                   ghost done: seq<Slot>)
    returns (k: nat, n: int, size: nat)
    requires Grouped(l, norm) && Laid(l, norm, factor[..], group, i, done, before) && More(l, group, i)
    requires l.First() <= group <= |l.pieces| && i <= |l.pieces| + 2 && free == 64 - group
    modifies factor
    ensures Laid(l, norm, factor[..], k, i + 1, done + [SlotAt(l, group, i)], size)
    ensures k == NextK(l, norm, group, i) && l.First() <= k <= |l.pieces| && n == 64 - k
  {
    ghost var fs := factor[..];
    LaidNext(l, norm, fs, group, i, done, before);
    k, n := group, free;
    var r: nat;
    if i == l.order {
      factor[0] := before;
      r := l.leadCount;
    } else if i == l.order2 {
      factor[l.lead] := before;
      r := Subfactor(l.others, 48 - l.lead);
    } else {
      factor[k] := before;
      r := Subfactor(norm[k], n);
      n := n - norm[k];
      k := k + norm[k];
    }
    assert factor[..] == fs[FactorAt(l, SlotAt(l, group, i)) := before];
    size := before * r;
  }

  // ---- sorting a group in place ----

  /** Only the order of the entries `k..t` differs. */
  ghost predicate Rearranged(s: seq<int>, r: seq<int>, k: nat, t: nat)
    requires k <= t <= |s|
  {
    |s| == |r| && s[..k] == r[..k] && s[t..] == r[t..] && multiset(s[k..t]) == multiset(r[k..t])
  }

  function Swap(s: seq<int>, i: nat, j: nat): (r: seq<int>)
    requires i < |s| && j < |s|
    ensures |r| == |s|
  {
    s[i := s[j]][j := s[i]]
  }

  lemma SwapKeepsMultiset(s: seq<int>, i: nat, j: nat)
    requires i < j < |s|
    ensures multiset(Swap(s, i, j)) == multiset(s)
  {
  }

  lemma SwapKeepsDistinct(s: seq<int>, i: nat, j: nat)
    requires i < j < |s| && Distinct(s)
    ensures Distinct(Swap(s, i, j))
  {
    var r := Swap(s, i, j);
    forall a, b | 0 <= a < b < |r| ensures r[a] != r[b] {
      var x, y := if a == i then j else if a == j then i else a, if b == i then j else if b == j then i else b;
      assert r[a] == s[x] && r[b] == s[y] && x != y;
    }
  }

  lemma SwapSlices(s: seq<int>, k: nat, t: nat, i: nat, j: nat)
    requires k <= i < j < t <= |s|
    ensures Swap(s, i, j)[..k] == s[..k] && Swap(s, i, j)[t..] == s[t..]
    ensures Swap(s, i, j)[k..t] == Swap(s[k..t], i - k, j - k)
  {
  }

  lemma Swapped(o: seq<int>, s: seq<int>, k: nat, t: nat, i: nat, j: nat)
    requires k <= i < j < t <= |o| && Rearranged(o, s, k, t) && Distinct(s)
    ensures Rearranged(o, Swap(s, i, j), k, t) && Distinct(Swap(s, i, j))
  {
    SwapSlices(s, k, t, i, j);
    SwapKeepsMultiset(s[k..t], i - k, j - k);
    SwapKeepsDistinct(s, i, j);
  }

  lemma RearrangedBetween(s: seq<int>, r: seq<int>, k: nat, t: nat, lo: int, hi: int)
    requires k <= t <= |s| && Rearranged(s, r, k, t) && Between(lo, s[..t], hi)
    ensures Between(lo, r[..t], hi)
  {
    assert r[..t] == r[..k] + r[k..t];
    forall i | 0 <= i < t ensures lo <= r[..t][i] < hi {
      if i < k {
        assert r[..t][i] == s[..k][i] == s[..t][i];
      } else {
        assert r[i] in multiset(r[k..t]) by { assert r[k..t][i - k] == r[i]; }
        assert r[i] in s[k..t];
        var m :| 0 <= m < t - k && s[k..t][m] == r[i];
        assert s[..t][k + m] == r[i];
      }
    }
  }

  /** The entries `k..i` are in place. */
  ghost predicate Front(s: seq<int>, k: nat, i: nat, t: nat) {
    t <= |s| && forall a, b :: k <= a < i && a < b < t ==> s[a] < s[b]
  }

  /** Entry `i` is the least of `i..j`. */
  ghost predicate Least(s: seq<int>, i: nat, j: nat) {
    i < j <= |s| && forall b :: i < b < j ==> s[i] < s[b]
  }

  function Exchange(s: seq<int>, i: nat, j: nat): seq<int>
    requires i < |s| && j < |s|
  {
    if s[i] > s[j] then Swap(s, i, j) else s
  }

  lemma Exchanged(o: seq<int>, s: seq<int>, k: nat, t: nat, i: nat, j: nat)
    requires k <= i < j < t <= |o| && Rearranged(o, s, k, t) && Distinct(s) && Front(s, k, i, t) && Least(s, i, j)
    ensures var r := Exchange(s, i, j); Rearranged(o, r, k, t) && Distinct(r) && Front(r, k, i, t) && Least(r, i, j + 1)
  {
    assert s[i] != s[j];
    Swapped(o, s, k, t, i, j);
  }

  method SortRange(p: array<int>, k: nat, t: nat)
    requires k <= t <= p.Length && Distinct(p[..])
    modifies p
    ensures Rearranged(old(p[..]), p[..], k, t) && Distinct(p[..]) && Increasing(p[k..t])
  {
    ghost var o := p[..];
    var i := k;
    while i < t
      invariant k <= i <= t && Rearranged(o, p[..], k, t) && Distinct(p[..]) && Front(p[..], k, i, t)
    {
      SelectLeast(p, o, k, i, t);
      i := i + 1;
    }
    forall a, b | 0 <= a < b < t - k ensures p[k..t][a] < p[k..t][b] { assert p[k + a] < p[k + b]; }
  }

  /** The inner loop: the least of the entries `i..t` comes to the front. */
  method SelectLeast(p: array<int>, ghost o: seq<int>, k: nat, i: nat, t: nat)
    requires k <= i < t <= p.Length && |o| == p.Length && Rearranged(o, p[..], k, t) && Distinct(p[..]) &&
      Front(p[..], k, i, t)
    modifies p
    ensures Rearranged(o, p[..], k, t) && Distinct(p[..]) && Front(p[..], k, i + 1, t)
  {
    var j := i + 1;
    while j < t
      invariant i < j <= t && Rearranged(o, p[..], k, t) && Distinct(p[..]) && Front(p[..], k, i, t) &&
        Least(p[..], i, j)
    {
      ghost var s := p[..];
      Exchanged(o, s, k, t, i, j);
      if p[i] > p[j] { p[i], p[j] := p[j], p[i]; }
      assert p[..] == Exchange(s, i, j);
      j := j + 1;
    }
  }

  // ---- the number of a sorted group ----

  method CountSkips(p: array<int>, k: nat, sq: int) returns (skips: nat)
    requires k <= p.Length
    ensures skips == Skips(p[..k], sq)
  {
    skips := 0;
    var j := 0;
    while j < k
      invariant 0 <= j <= k && skips == Skips(p[..j], sq)
    {
      assert p[..j + 1][..j] == p[..j];
      skips := skips + if sq > p[j] then 1 else 0;
      j := j + 1;
    }
  }

  method SquareNumber(p: array<int>, k: nat, sq: int, lo: int) returns (c: int)
    requires k <= p.Length
    ensures c == sq - Skips(p[..k], sq) - lo
  {
    var skips := CountSkips(p, k, sq);
    c := sq - skips - lo;
  }

  lemma DigitStep(prefix: seq<int>, group: seq<int>, lo: int, hi: int, i: nat)
    requires Placeable(prefix, group, lo, hi) && i < |group|
    ensures var c := group[i] - Skips(prefix, group[i]) - lo;
      0 <= c < hi - lo && Digit(prefix, group[..i + 1], lo) == Digit(prefix, group[..i], lo) + Choose(c, i + 1)
  {
    AdjustedFits(prefix, group, lo, hi);
    assert Adjusted(prefix, group, lo)[i] == group[i] - Skips(prefix, group[i]) - lo;
    assert group[..i + 1][..i] == group[..i];
  }

  /** The loops that number the pieces `k..t`, which are sorted; squares below `lo` are not used. */
  method GroupNumber(binomial: array2<nat>, p: array<int>, k: nat, t: nat, lo: int, ghost hi: int) returns (s: nat)
    requires binomial.Length0 == 7 && binomial.Length1 == 64
    requires forall i, j :: 0 <= i < 7 && 0 <= j < 64 ==> binomial[i, j] == Choose(j, i)
    requires k <= t <= p.Length && t - k <= 6 && 0 <= lo <= hi <= 64 && Placeable(p[..k], p[k..t], lo, hi)
    ensures s == Digit(p[..k], p[k..t], lo)
  {
    s := 0;
    ghost var prefix, group := p[..k], p[k..t];
    var i := k;
    while i < t
      invariant k <= i <= t && s == Digit(prefix, group[..i - k], lo)
    {
      var c := SquareNumber(p, k, p[i], lo);
      ghost var n := i - k;
      DigitStep(prefix, group, lo, hi, n);
      assert group[n] == p[i];
      var b := binomial[i - k + 1, c];
      assert b == Choose(c, n + 1);
      s := s + b;
      assert s == Digit(prefix, group[..n + 1], lo);
      i := i + 1;
      assert group[..i - k] == group[..n + 1];
    }
    assert group[..t - k] == group;
  }

  // ---- encode ----

  /** What `encode` is given: pieces on different squares, pawns of two colours off the first and last rank. */
  ghost predicate Squares(l: Layout, p: seq<int>) {
    && l.First() <= |p| == |l.pieces| && Distinct(p) && Between(0, p, 64)
    && (l.others > 0 ==> Between(8, p[..l.First()], 56))
  }

  /** Groups that start in `done` are sorted and end before `k`; the rest is as in `o`. */
  ghost predicate Progress(l: Layout, norm: seq<nat>, o: seq<int>, p: seq<int>, k: nat, done: seq<nat>) {
    && |p| == |o| == |norm| && k <= |p| && Distinct(p) && p[k..] == o[k..]
    && (forall s {:trigger SortedGroup(norm, o, p, k, s)} :: s in done ==> SortedGroup(norm, o, p, k, s))
  }

  ghost predicate SortedGroup(norm: seq<nat>, o: seq<int>, p: seq<int>, k: nat, s: nat)
    requires |p| == |o| == |norm| && k <= |p|
  {
    && s < |norm| && s + norm[s] <= k
    && Increasing(p[s..s + norm[s]]) && multiset(p[s..s + norm[s]]) == multiset(o[s..s + norm[s]])
  }

  lemma ProgressStep(l: Layout, norm: seq<nat>, o: seq<int>, p: seq<int>, r: seq<int>, k: nat, done: seq<nat>)
    requires Progress(l, norm, o, p, k, done) && k < |norm| && k + norm[k] <= |norm|
    requires Rearranged(p, r, k, k + norm[k]) && Distinct(r) && Increasing(r[k..k + norm[k]])
    ensures Progress(l, norm, o, r, k + norm[k], done + [k])
  {
    var t := k + norm[k];
    forall s | s in done ensures SortedGroup(norm, o, r, t, s) {
      assert SortedGroup(norm, o, p, k, s);
      assert r[s..s + norm[s]] == r[..k][s..s + norm[s]] == p[..k][s..s + norm[s]] == p[s..s + norm[s]];
    }
    assert p[k..t] == p[k..][..t - k] == o[k..][..t - k] == o[k..t];
    assert r[t..] == p[t..] == p[k..][t - k..] == o[k..][t - k..] == o[t..];
  }

  /** The numbers of finished groups do not depend on later pieces. */
  lemma {:induction false} GroupSumFrame(l: Layout, norm: seq<nat>, factor: seq<nat>, p: seq<int>, q: seq<int>, k: nat,
                                         done: seq<nat>)
    requires |p| == |q| == |norm| && k <= |p| && p[..k] == q[..k]
    requires forall s {:trigger s in done} :: s in done ==> s < |norm| && s + norm[s] <= k
    ensures GroupSum(l, norm, factor, p, done) == GroupSum(l, norm, factor, q, done)
  {
    if done != [] {
      forall s | s in done[1..] ensures s < |norm| && s + norm[s] <= k { assert s in done; }
      GroupSumFrame(l, norm, factor, p, q, k, done[1..]);
      var s := done[0];
      assert s in done;
      assert p[..s] == p[..k][..s] == q[..k][..s] == q[..s];
      assert p[s..s + norm[s]] == p[..k][s..s + norm[s]] == q[..k][s..s + norm[s]] == q[s..s + norm[s]];
    }
  }

  lemma {:induction false} GroupSumAppend(l: Layout, norm: seq<nat>, factor: seq<nat>, p: seq<int>, done: seq<nat>,
                                          k: nat)
    requires k < |factor|
    ensures GroupSum(l, norm, factor, p, done + [k]) == GroupSum(l, norm, factor, p, done) +
      DigitOf(l, norm, p, 0, Group(k)) * factor[k]
  {
    if done == [] {
      assert done + [k] == [k];
    } else {
      assert (done + [k])[1..] == done[1..] + [k];
      GroupSumAppend(l, norm, factor, p, done[1..], k);
    }
  }

  ghost predicate BinomialTable(binomial: array2<nat>)
    reads binomial
  {
    && binomial.Length0 == 7 && binomial.Length1 == 64
    && forall i, j :: 0 <= i < 7 && 0 <= j < 64 ==> binomial[i, j] == Choose(j, i)
  }

  /** One group: sort the entries `k..t`, then number them. */
  method EncodeGroup(binomial: array2<nat>, p: array<int>, k: nat, t: nat, lo: int, ghost hi: int) returns (s: nat)
    requires BinomialTable(binomial)
    requires k <= t <= p.Length && t - k <= 6 && 0 <= lo <= hi <= 64 && Distinct(p[..]) && Between(lo, p[..t], hi)
    modifies p
    ensures Rearranged(old(p[..]), p[..], k, t) && Distinct(p[..]) && Increasing(p[k..t]) && Between(lo, p[..t], hi)
    ensures s == Digit(p[..k], p[k..t], lo)
  {
    SortRange(p, k, t);
    RearrangedBetween(old(p[..]), p[..], k, t, lo, hi);
    assert p[..][..t] == p[..t] && p[..][k..t] == p[k..t] && p[..][..k] == p[..k];
    SlicePlaceable(p[..], k, t, lo, hi);
    s := GroupNumber(binomial, p, k, t, lo, hi);
  }

  /** The loop over the groups. */
  method EncodeGroups(binomial: array2<nat>, l: Layout, norm: seq<nat>, factor: seq<nat>, p: array<int>)
    returns (sum: int)
    requires BinomialTable(binomial) && Grouped(l, norm) && |factor| == |norm|
    requires p.Length == |norm| && Distinct(p[..]) && Between(0, p[..], 64)
    modifies p
    ensures Between(0, p[..], 64) && p[..l.First()] == old(p[..l.First()])
    ensures Progress(l, norm, old(p[..]), p[..], p.Length, Starts(l, norm, l.First()))
    ensures sum == GroupSum(l, norm, factor, p[..], Starts(l, norm, l.First()))
  {
    ghost var o, done: seq<nat> := p[..], [];
    var k: nat := l.First();
    sum := 0;
    while k < p.Length
      invariant l.First() <= k <= p.Length && Split(l, norm, k, done)
      invariant Progress(l, norm, o, p[..], k, done) && Between(0, p[..], 64) && p[..l.First()] == o[..l.First()]
      invariant sum == GroupSum(l, norm, factor, p[..], done)
    {
      StartsStep(l, norm, k, done);
      var s := EncodeNext(binomial, l, norm, factor, p, k, o, done);
      sum := sum + s;
      done := done + [k];
      k := k + norm[k];
    }
    SplitDone(l, norm, done);
  }

  /** One round of that loop. */
  method EncodeNext(binomial: array2<nat>, l: Layout, norm: seq<nat>, factor: seq<nat>, p: array<int>, k: nat,
                    ghost o: seq<int>, ghost done: seq<nat>)
    returns (s: int)
    requires BinomialTable(binomial) && |factor| == |norm| == p.Length && l.First() <= k < p.Length &&
      k + norm[k] <= p.Length && norm[k] <= 6
    requires Progress(l, norm, o, p[..], k, done) && Between(0, p[..], 64)
    modifies p
    ensures Progress(l, norm, o, p[..], k + norm[k], done + [k]) && Between(0, p[..], 64)
    ensures p[..l.First()] == old(p[..l.First()])
    ensures GroupSum(l, norm, factor, p[..], done + [k]) == GroupSum(l, norm, factor, old(p[..]), done) + s
  {
    ghost var was := p[..];
    assert was[..k + norm[k]] == p[..k + norm[k]];
    var f: int := factor[k];
    var d: int := EncodeGroup(binomial, p, k, k + norm[k], 0, 64);
    ghost var now := p[..];
    assert now[..k] == p[..k] && now[k..k + norm[k]] == p[k..k + norm[k]];
    ProgressStep(l, norm, o, was, now, k, done);
    RearrangedAll(was, now, k, k + norm[k]);
    GroupSumStep(l, norm, factor, o, was, now, k, done);
    SamePrefix(was, now, l.First(), k);
    assert p[..l.First()] == now[..l.First()] == was[..l.First()];
    s := d * f;
  }

  /** The groups before `k` are `done`. */
  ghost predicate Split(l: Layout, norm: seq<nat>, k: nat, done: seq<nat>)
    requires At(l, norm, l.First())
  {
    At(l, norm, k) && done + Starts(l, norm, k) == Starts(l, norm, l.First())
  }

  lemma SplitDone(l: Layout, norm: seq<nat>, done: seq<nat>)
    requires At(l, norm, l.First()) && Split(l, norm, |norm|, done)
    ensures done == Starts(l, norm, l.First())
  {
    assert done + [] == done;
  }

  lemma StartsStep(l: Layout, norm: seq<nat>, k: nat, done: seq<nat>)
    requires At(l, norm, l.First()) && Split(l, norm, k, done) && k < |norm|
    ensures k + norm[k] <= |norm| && norm[k] > 0 && Split(l, norm, k + norm[k], done + [k])
  {
    assert done + Starts(l, norm, k) == (done + [k]) + Starts(l, norm, k + norm[k]);
  }

  lemma DoneBefore(l: Layout, norm: seq<nat>, o: seq<int>, p: seq<int>, k: nat, done: seq<nat>)
    requires Progress(l, norm, o, p, k, done)
    ensures forall s {:trigger s in done} :: s in done ==> s < |norm| && s + norm[s] <= k
  {
    forall s | s in done ensures s < |norm| && s + norm[s] <= k { assert SortedGroup(norm, o, p, k, s); }
  }

  lemma GroupSumStep(l: Layout, norm: seq<nat>, factor: seq<nat>, o: seq<int>, p: seq<int>, r: seq<int>, k: nat,
                     done: seq<nat>)
    requires Progress(l, norm, o, p, k, done) && |factor| == |norm| && k < |norm| && k + norm[k] <= |norm|
    requires |p| == |r| && p[..k] == r[..k]
    ensures GroupSum(l, norm, factor, r, done + [k]) == GroupSum(l, norm, factor, p, done) +
      Digit(r[..k], r[k..k + norm[k]], 0) * factor[k]
  {
    DoneBefore(l, norm, o, p, k, done);
    GroupSumFrame(l, norm, factor, p, r, k, done);
    GroupSumAppend(l, norm, factor, r, done, k);
  }

  lemma SamePrefix(p: seq<int>, r: seq<int>, f: nat, k: nat)
    requires f <= k <= |p| == |r| && p[..k] == r[..k]
    ensures p[..f] == r[..f]
  {
    assert p[..f] == p[..k][..f] == r[..k][..f] == r[..f];
  }

  /** The pawns of the other colour, if there are any. */
  method EncodeOthers(binomial: array2<nat>, l: Layout, norm: seq<nat>, factor: seq<nat>, p: array<int>)
    returns (sum: int)
    requires BinomialTable(binomial) && Grouped(l, norm) && |factor| == |norm| && Squares(l, p[..])
    modifies p
    ensures Squares(l, p[..]) && Rearranged(old(p[..]), p[..], l.lead, l.First())
    ensures l.others > 0 ==> Increasing(p[l.lead..l.First()])
    ensures sum == OthersSum(l, norm, factor, p[..])
  {
    sum := 0;
    if l.others > 0 {
      ghost var o := p[..];
      assert p[..][..l.First()] == p[..l.First()];
      var f: int := factor[l.lead];
      var s: int := EncodeGroup(binomial, p, l.lead, l.First(), 8, 56);
      RearrangedAll(o, p[..], l.lead, l.First());
      sum := s * f;
      assert p[..][..l.lead] == p[..l.lead] && p[..][l.lead..l.First()] == p[l.lead..l.First()];
    }
  }

  lemma RearrangedAll(s: seq<int>, r: seq<int>, k: nat, t: nat)
    requires k <= t <= |s| && Rearranged(s, r, k, t) && Between(0, s, 64)
    ensures Between(0, r, 64)
  {
    RearrangedBetween(s, r, k, t, 0, 64);
    forall i | 0 <= i < |r| ensures 0 <= r[i] < 64 {
      assert i < t ==> r[i] == r[..t][i];
      assert i >= t ==> r[i] == r[t..][i - t] == s[t..][i - t] == s[i];
    }
  }

  /** `encode` from the point where the leading squares are normalised and numbered by `a`. */
  method Encode(binomial: array2<nat>, l: Layout, norm: seq<nat>, factor: seq<nat>, p: array<int>, a: nat)
    returns (idx: int)
    requires BinomialTable(binomial) && Grouped(l, norm) && |factor| == |norm| && Squares(l, p[..])
    modifies p
    ensures Placement(l, norm, p[..]) && SamePieces(l, norm, old(p[..]), p[..])
    ensures idx == IndexSum(l, norm, factor, p[..], a)
  {
    ghost var o := p[..];
    var others := EncodeOthers(binomial, l, norm, factor, p);
    ghost var q := p[..];
    var groups := EncodeGroups(binomial, l, norm, factor, p);
    idx := a * factor[0] + others + groups;
    Encoded(l, norm, factor, o, q, p[..]);
  }

  /** The same squares in every group, the leading ones in place. */
  ghost predicate SamePieces(l: Layout, norm: seq<nat>, o: seq<int>, p: seq<int>)
    requires At(l, norm, l.First())
  {
    && |o| == |p| == |norm| && l.First() <= |p|
    && p[..l.lead] == o[..l.lead] && multiset(p[l.lead..l.First()]) == multiset(o[l.lead..l.First()])
    && forall s :: s in Starts(l, norm, l.First()) ==> multiset(p[s..s + norm[s]]) == multiset(o[s..s + norm[s]])
  }

  lemma Encoded(l: Layout, norm: seq<nat>, factor: seq<nat>, o: seq<int>, q: seq<int>, p: seq<int>)
    requires Grouped(l, norm) && |factor| == |norm| && Squares(l, o) && Squares(l, q) &&
      Rearranged(o, q, l.lead, l.First())
    requires l.others > 0 ==> Increasing(q[l.lead..l.First()])
    requires |p| == |q| && Between(0, p, 64) && p[..l.First()] == q[..l.First()]
    requires Progress(l, norm, q, p, |p|, Starts(l, norm, l.First()))
    ensures Placement(l, norm, p) && SamePieces(l, norm, o, p)
    ensures OthersSum(l, norm, factor, p) == OthersSum(l, norm, factor, q)
  {
    var k := l.First();
    assert p[..l.lead] == p[..k][..l.lead] == q[..k][..l.lead] == q[..l.lead] == o[..l.lead];
    assert p[l.lead..k] == p[..k][l.lead..] == q[..k][l.lead..] == q[l.lead..k];
    forall s | s in Starts(l, norm, k)
      ensures Increasing(p[s..s + norm[s]]) && multiset(p[s..s + norm[s]]) == multiset(o[s..s + norm[s]])
    {
      assert SortedGroup(norm, q, p, |p|, s);
      assert q[s..s + norm[s]] == q[k..][s - k..s - k + norm[s]] == o[k..][s - k..s - k + norm[s]] == o[s..s + norm[s]];
    }
  }

  // ---- the index identifies the placement ----

  lemma WithoutLast(c: seq<int>)
    requires c != []
    ensures multiset(c[..|c| - 1]) == multiset(c) - multiset{c[|c| - 1]}
  {
    assert c == c[..|c| - 1] + [c[|c| - 1]];
  }

  lemma LastIsLargest(c: seq<int>, d: seq<int>)
    requires c != [] && d != [] && Increasing(c) && multiset(c) == multiset(d)
    ensures d[|d| - 1] <= c[|c| - 1]
  {
    assert d[|d| - 1] in multiset(d);
    assert d[|d| - 1] in c;
  }

  lemma SameLast(c: seq<int>, d: seq<int>)
    requires c != [] && |c| == |d| && Increasing(c) && Increasing(d) && multiset(c) == multiset(d)
    ensures c[|c| - 1] == d[|d| - 1] && multiset(c[..|c| - 1]) == multiset(d[..|d| - 1])
  {
    LastIsLargest(c, d);
    LastIsLargest(d, c);
    WithoutLast(c);
    WithoutLast(d);
  }

  lemma {:induction false} SortedUnique(c: seq<int>, d: seq<int>)
    requires Increasing(c) && Increasing(d) && multiset(c) == multiset(d)
    ensures c == d
    decreases |c|
  {
    assert |c| == |multiset(c)| == |multiset(d)| == |d|;
    if c != [] {
      SameLast(c, d);
      SortedUnique(c[..|c| - 1], d[..|d| - 1]);
      assert c == c[..|c| - 1] + [c[|c| - 1]];
      assert d == d[..|d| - 1] + [d[|d| - 1]];
    }
  }

  lemma SameSquaresCarry(l: Layout, norm: seq<nat>, p: seq<int>, q: seq<int>, k: nat)
    requires At(l, norm, l.First()) && Placement(l, norm, p) && Placement(l, norm, q) && SamePieces(l, norm, p, q)
    requires k in Starts(l, norm, l.First())
    ensures Carries(norm, p, q, k)
  {
    var t := k + norm[k];
    SortedUnique(p[k..t], q[k..t]);
    assert p[..t] == p[..k] + p[k..t] && q[..t] == q[..k] + q[k..t];
  }

  lemma SamePiecesSamePlacement(l: Layout, norm: seq<nat>, p: seq<int>, q: seq<int>)
    requires Grouped(l, norm) && Placement(l, norm, p) && Placement(l, norm, q) && SamePieces(l, norm, p, q)
    ensures p == q
  {
    SameBegin(p, q, l.lead, l.First());
    forall s | s in Starts(l, norm, l.First()) ensures Carries(norm, p, q, s) { SameSquaresCarry(l, norm, p, q, s); }
    GroupByGroup(l, norm, p, q, l.First());
  }

  lemma SameBegin(p: seq<int>, q: seq<int>, lead: nat, k: nat)
    requires lead <= k <= |p| == |q| && p[..lead] == q[..lead] && multiset(p[lead..k]) == multiset(q[lead..k])
    requires lead < k ==> Increasing(p[lead..k]) && Increasing(q[lead..k])
    ensures p[..k] == q[..k]
  {
    if lead < k { SortedUnique(p[lead..k], q[lead..k]); }
    assert p[..k] == p[..lead] + p[lead..k] && q[..k] == q[..lead] + q[lead..k];
  }

  /** Two inputs of `encode` get the same index if and only if their leading squares have the same number and every
      group stands on the same squares; the order in which like pieces were listed does not matter. */
  lemma IndexIdentifies(l: Layout, norm: seq<nat>, factor: seq<nat>, p: seq<int>, q: seq<int>, a: nat, b: nat)
    requires Grouped(l, norm) && HeaderOk(l, norm) && 0 < |factor| && Factors(l, norm, factor, TableSlots(l, norm), 1)
    requires Placement(l, norm, p) && Placement(l, norm, q) && a < l.leadCount && b < l.leadCount
    requires a == b ==> p[..l.lead] == q[..l.lead]
    ensures IndexSum(l, norm, factor, p, a) == IndexSum(l, norm, factor, q, b) <==> a == b && SamePieces(l, norm, p, q)
  {
    IndexInRange(l, norm, factor, p, a);
    IndexInRange(l, norm, factor, q, b);
    if IndexSum(l, norm, factor, p, a) == IndexSum(l, norm, factor, q, b) {
      CompleteExactly(l, norm, l.First(), 0);
      IndexInjective(l, norm, p, q, a, b);
      PlacementDigitsFit(l, norm, p, a);
      PlacementDigitsFit(l, norm, q, b);
      SameValueSameDigits(l, norm, p, q, a, b, TableSlots(l, norm));
      assert DigitOf(l, norm, p, a, Lead) == DigitOf(l, norm, q, b, Lead);
    }
    if a == b && SamePieces(l, norm, p, q) { SamePiecesSamePlacement(l, norm, p, q); }
  }
}
