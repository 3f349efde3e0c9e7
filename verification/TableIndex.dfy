// The index of a placement in a Syzygy table: like pieces are sorted, numbered by the combinatorial number system
// after skipping the squares taken by earlier pieces, and the groups are combined in a mixed radix whose order the
// file gives.

module TableIndex {
  import opened Binomials
  import opened Powers

  // ---- squares left over by earlier pieces ----

  ghost predicate Distinct(s: seq<int>) {
    forall i, j :: 0 <= i < j < |s| ==> s[i] != s[j]
  }

  predicate Between(lo: int, s: seq<int>, hi: int) {
    forall i :: 0 <= i < |s| ==> lo <= s[i] < hi
  }

  /** How many squares of `prefix` come before `sq`. */
  function Skips(prefix: seq<int>, sq: int): nat {
    if prefix == [] then 0
    else Skips(prefix[..|prefix| - 1], sq) + if sq > prefix[|prefix| - 1] then 1 else 0
  }

  lemma {:induction false} SkipsStep(prefix: seq<int>, sq: int)
    requires Distinct(prefix)
    ensures Skips(prefix, sq + 1) == Skips(prefix, sq) + if sq in prefix then 1 else 0
  {
    if prefix != [] {
      var init, last := prefix[..|prefix| - 1], prefix[|prefix| - 1];
      SkipsStep(init, sq);
      assert prefix == init + [last];
    }
  }

  lemma {:induction false} SkipsEnds(prefix: seq<int>, lo: int, hi: int)
    requires Between(lo, prefix, hi)
    ensures Skips(prefix, lo) == 0 && Skips(prefix, hi) == |prefix|
  {
    if prefix != [] { SkipsEnds(prefix[..|prefix| - 1], lo, hi); }
  }

  /** Between two squares at most as many are skipped as there are, one fewer when the first is free. */
  lemma {:induction false} SkipsGap(prefix: seq<int>, x: int, y: int)
    requires Distinct(prefix) && x <= y
    ensures Skips(prefix, y) - Skips(prefix, x) <= y - x
    ensures x < y && x !in prefix ==> Skips(prefix, y) - Skips(prefix, x) <= y - x - 1
    decreases y - x
  {
    if x < y {
      SkipsGap(prefix, x, y - 1);
      SkipsStep(prefix, y - 1);
    }
  }

  function Adjusted(prefix: seq<int>, group: seq<int>, lo: int): (r: seq<int>)
    ensures |r| == |group|
  {
    seq(|group|, i requires 0 <= i < |group| => group[i] - Skips(prefix, group[i]) - lo)
  }

  /** A sorted group of like pieces on squares `lo..hi` not taken by `prefix`. */
  ghost predicate Placeable(prefix: seq<int>, group: seq<int>, lo: int, hi: int) {
    && Distinct(prefix) && Between(lo, prefix, hi)
    && Increasing(group) && Between(lo, group, hi)
    && forall i :: 0 <= i < |group| ==> group[i] !in prefix
  }

  /** Skipping renumbers the free squares without gaps or collisions. */
  lemma {:induction false} AdjustedFits(prefix: seq<int>, group: seq<int>, lo: int, hi: int)
    requires Placeable(prefix, group, lo, hi)
    ensures Increasing(Adjusted(prefix, group, lo)) && Within(Adjusted(prefix, group, lo), hi - lo - |prefix|)
  {
    var r := Adjusted(prefix, group, lo);
    SkipsEnds(prefix, lo, hi);
    forall i | 0 <= i < |r| ensures 0 <= r[i] < hi - lo - |prefix| {
      SkipsGap(prefix, lo, group[i]);
      SkipsGap(prefix, group[i], hi);
    }
    forall i, j | 0 <= i < j < |r| ensures r[i] < r[j] {
      SkipsGap(prefix, group[i], group[j]);
    }
  }

  /** The number of a sorted group. A negative difference, which no group has, counts as 0. */
  ghost function Digit(prefix: seq<int>, group: seq<int>, lo: int): nat {
    if group == [] then 0 else
    var sq := group[|group| - 1];
    var c := sq - Skips(prefix, sq) - lo;
    Digit(prefix, group[..|group| - 1], lo) + if c >= 0 then Choose(c, |group|) else 0
  }

  lemma {:induction false} DigitIsRank(prefix: seq<int>, group: seq<int>, lo: int, n: int)
    requires Within(Adjusted(prefix, group, lo), n)
    ensures Digit(prefix, group, lo) == Rank(Adjusted(prefix, group, lo))
  {
    if group != [] {
      var c := Adjusted(prefix, group, lo);
      var m := |group| - 1;
      assert Adjusted(prefix, group[..m], lo) == c[..m];
      DigitIsRank(prefix, group[..m], lo, n);
      assert 0 <= c[m] == group[m] - Skips(prefix, group[m]) - lo;
    }
  }

  lemma DigitBound(prefix: seq<int>, group: seq<int>, lo: int, hi: int)
    requires Placeable(prefix, group, lo, hi) && |prefix| <= hi - lo
    ensures Digit(prefix, group, lo) < Choose(hi - lo - |prefix|, |group|)
  {
    AdjustedFits(prefix, group, lo, hi);
    DigitIsRank(prefix, group, lo, hi - lo - |prefix|);
    RankBound(Adjusted(prefix, group, lo), hi - lo - |prefix|);
  }

  lemma {:induction false} DigitInjective(prefix: seq<int>, g: seq<int>, h: seq<int>, lo: int, hi: int)
    requires Placeable(prefix, g, lo, hi) && Placeable(prefix, h, lo, hi) && |g| == |h| && |prefix| <= hi - lo
    requires Digit(prefix, g, lo) == Digit(prefix, h, lo)
    ensures g == h
  {
    var n := hi - lo - |prefix|;
    AdjustedFits(prefix, g, lo, hi);
    AdjustedFits(prefix, h, lo, hi);
    DigitIsRank(prefix, g, lo, n);
    DigitIsRank(prefix, h, lo, n);
    var c, d := Adjusted(prefix, g, lo), Adjusted(prefix, h, lo);
    RankInjective(c, d, n);
    forall i | 0 <= i < |g| ensures g[i] == h[i] {
      assert c[i] == d[i];
      SkipsGap(prefix, if g[i] < h[i] then g[i] else h[i], if g[i] < h[i] then h[i] else g[i]);
    }
  }

  // ---- the layout of a table ----

  /** The header as `init_enc_info` sees it. `lead` leading squares are numbered below `leadCount` by other means; then
      come `others` pawns of the other colour, then the groups of like pieces. Without such pawns `order2` is 15. */
  datatype Layout = Layout(pieces: seq<int>, lead: nat, leadCount: nat, others: nat, order: nat, order2: nat) {
    function First(): nat {
      lead + others
    }

    predicate Valid() {
      && 0 < lead && First() <= |pieces| <= 7 && lead <= 7
      && (others == 0 ==> order2 == 15)
    }
  }

  /** Where the run of like pieces from `i` ends. */
  function RunEnd(pieces: seq<int>, i: nat, j: nat): (e: nat)
    requires i <= j <= |pieces| && i < |pieces|
    ensures j <= e <= |pieces|
    decreases |pieces| - j
  {
    if j < |pieces| && pieces[j] == pieces[i] then RunEnd(pieces, i, j + 1) else j
  }

  /** From `k` on, `norm[k]` is the length of the group of like pieces that starts there. */
  ghost predicate Groups(pieces: seq<int>, norm: seq<nat>, k: nat)
    requires |norm| == |pieces|
    decreases |pieces| - k
  {
    k == |pieces| || (k < |pieces| && norm[k] == RunEnd(pieces, k, k) - k && norm[k] > 0 &&
      Groups(pieces, norm, k + norm[k]))
  }

  ghost predicate Grouped(l: Layout, norm: seq<nat>) {
    && l.Valid() && |norm| == |l.pieces| && Groups(l.pieces, norm, l.First())
    && norm[0] == l.lead && (l.others > 0 ==> norm[l.lead] == l.others)
  }

  ghost predicate At(l: Layout, norm: seq<nat>, k: nat) {
    |norm| == |l.pieces| && Groups(l.pieces, norm, k)
  }

  predicate GoodStart(norm: seq<nat>, k: nat, s: nat) {
    k <= s < |norm| && 0 < norm[s] && s + norm[s] <= |norm|
  }

  /** Where the groups from `k` on start. */
  ghost function Starts(l: Layout, norm: seq<nat>, k: nat): (r: seq<nat>)
    requires At(l, norm, k)
    ensures forall s :: s in r ==> GoodStart(norm, k, s)
    decreases |norm| - k
  {
    if k == |norm| then [] else [k] + Starts(l, norm, k + norm[k])
  }

  // ---- the slots of the mixed radix, in file order ----

  datatype Slot = Lead | Others | Group(start: nat)

  predicate More(l: Layout, k: nat, i: nat) {
    k < |l.pieces| || i == l.order || i == l.order2
  }

  /** The slot the loop of `init_enc_info` places when it is at group `k` in round `i`. */
  function SlotAt(l: Layout, k: nat, i: nat): Slot {
    if i == l.order then Lead else if i == l.order2 then Others else Group(k)
  }

  function NextK(l: Layout, norm: seq<nat>, k: nat, i: nat): nat {
    if SlotAt(l, k, i) == Group(k) && k < |norm| then k + norm[k] else k
  }

  ghost function Pending(l: Layout, k: nat, i: nat): int {
    |l.pieces| - k + (if i <= l.order then 1 else 0) + (if i <= l.order2 then 1 else 0)
  }

  ghost function Slots(l: Layout, norm: seq<nat>, k: nat, i: nat): seq<Slot>
    requires At(l, norm, k)
    decreases Pending(l, k, i)
  {
    if !More(l, k, i) then [] else [SlotAt(l, k, i)] + Slots(l, norm, NextK(l, norm, k, i), i + 1)
  }

  /** Leading squares have their own numbers; the other pawns have 48 squares less the leading pawns; a group has all
      squares less those of the pieces before it. */
  ghost function Radix(l: Layout, norm: seq<nat>, s: Slot): nat {
    match s
    case Lead => l.leadCount
    case Others => if l.lead <= 48 then Choose(48 - l.lead, l.others) else 0
    case Group(k) => if k < |norm| && k <= 64 then Choose(64 - k, norm[k]) else 0
  }

  ghost function Size(l: Layout, norm: seq<nat>, slots: seq<Slot>): nat {
    if slots == [] then 1 else Radix(l, norm, slots[0]) * Size(l, norm, slots[1..])
  }

  /** Where the factor of a slot is kept. */
  function FactorAt(l: Layout, s: Slot): nat {
    match s
    case Lead => 0
    case Others => l.lead
    case Group(k) => k
  }

  /** Every factor is `f` times the radices of the slots before it. */
  ghost predicate Factors(l: Layout, norm: seq<nat>, factor: seq<nat>, slots: seq<Slot>, f: nat) {
    slots == [] || (
      && FactorAt(l, slots[0]) < |factor| && factor[FactorAt(l, slots[0])] == f
      && Factors(l, norm, factor, slots[1..], f * Radix(l, norm, slots[0])))
  }

  // ---- which headers place every slot ----

  /** The slots hold the leading squares and the other pawns, unless rounds before `i` did, and every group from `k`
      on. */
  ghost predicate Complete(l: Layout, norm: seq<nat>, k: nat, i: nat)
    requires At(l, norm, k)
  {
    var slots := Slots(l, norm, k, i);
    && (i <= l.order ==> Lead in slots)
    && (l.others > 0 && i <= l.order2 ==> Others in slots)
  }

  predicate HeaderFits(l: Layout, groups: nat, i: nat) {
    if l.others > 0 && i <= l.order2 then
      if i <= l.order then l.order != l.order2 && l.order <= i + groups + 1 && l.order2 <= i + groups + 1
      else l.order2 <= i + groups
    else i <= l.order ==> l.order <= i + groups
  }

  /** Rounds still to come, which stay below the 15 that stands for "no other pawns". */
  ghost function Rounds(l: Layout, norm: seq<nat>, k: nat, i: nat): int
    requires At(l, norm, k)
  {
    i + |Starts(l, norm, k)| + (if i <= l.order then 1 else 0) + (if l.others > 0 && i <= l.order2 then 1 else 0)
  }

  /** Every slot is placed if and only if the two positions in the header differ and leave no hole. */
  lemma {:induction false} CompleteExactly(l: Layout, norm: seq<nat>, k: nat, i: nat)
    requires At(l, norm, k) && (l.others == 0 ==> l.order2 == 15) && Rounds(l, norm, k, i) < 15
    ensures Complete(l, norm, k, i) <==> HeaderFits(l, |Starts(l, norm, k)|, i)
    ensures Others in Slots(l, norm, k, i) ==> l.others > 0
    decreases Pending(l, k, i)
  {
    if More(l, k, i) {
      if i == l.order == l.order2 {
        LateSlots(l, norm, k, i + 1);
      } else {
        CompleteExactly(l, norm, NextK(l, norm, k, i), i + 1);
      }
    }
  }

  /** A round that has passed does not come again. */
  lemma {:induction false} LateSlots(l: Layout, norm: seq<nat>, k: nat, i: nat)
    requires At(l, norm, k)
    ensures i > l.order ==> Lead !in Slots(l, norm, k, i)
    ensures i > l.order2 ==> Others !in Slots(l, norm, k, i)
    decreases Pending(l, k, i)
  {
    if More(l, k, i) { LateSlots(l, norm, NextK(l, norm, k, i), i + 1); }
  }

  /** Every group is placed, whatever the header says. */
  lemma {:induction false} GroupsPlaced(l: Layout, norm: seq<nat>, k: nat, i: nat, s: nat)
    requires At(l, norm, k)
    ensures s in Starts(l, norm, k) <==> Group(s) in Slots(l, norm, k, i)
    decreases Pending(l, k, i)
  {
    if More(l, k, i) { GroupsPlaced(l, norm, NextK(l, norm, k, i), i + 1, s); }
  }

  // ---- placements and their index ----

  /** All pieces on different squares, every group sorted, pawns of both colours off the first and last rank. */
  ghost predicate Placement(l: Layout, norm: seq<nat>, p: seq<int>)
    requires At(l, norm, l.First())
  {
    && |p| == |norm| && Distinct(p) && Between(0, p, 64)
    && (l.others > 0 ==> Between(8, p[..l.First()], 56) && Increasing(p[l.lead..l.First()]))
    && (forall s :: s in Starts(l, norm, l.First()) ==> Increasing(p[s..s + norm[s]]))
  }

  /** The number of one slot; `a` numbers the leading squares. */
  ghost function DigitOf(l: Layout, norm: seq<nat>, p: seq<int>, a: nat, s: Slot): nat {
    match s
    case Lead => a
    case Others => if l.First() <= |p| then Digit(p[..l.lead], p[l.lead..l.First()], 8) else 0
    case Group(k) => if |p| == |norm| && k < |norm| &&
      k + norm[k] <= |p| then Digit(p[..k], p[k..k + norm[k]], 0) else 0
  }

  /** The mixed-radix number, least significant slot first. */
  ghost function Value(l: Layout, norm: seq<nat>, p: seq<int>, a: nat, slots: seq<Slot>): nat {
    if slots == [] then 0
    else DigitOf(l, norm, p, a, slots[0]) + Radix(l, norm, slots[0]) * Value(l, norm, p, a, slots[1..])
  }

  ghost predicate DigitsFit(l: Layout, norm: seq<nat>, p: seq<int>, a: nat, slots: seq<Slot>) {
    forall s :: s in slots ==> DigitOf(l, norm, p, a, s) < Radix(l, norm, s)
  }

  lemma SlicePlaceable(p: seq<int>, k: nat, t: nat, lo: int, hi: int)
    requires k <= t <= |p| && Distinct(p) && lo <= hi && Between(lo, p[..t], hi) && Increasing(p[k..t])
    ensures Placeable(p[..k], p[k..t], lo, hi) && k <= hi - lo
  {
    forall i | 0 <= i < k ensures lo <= p[..k][i] < hi { assert p[..t][i] == p[i]; }
    forall i | 0 <= i < t - k ensures lo <= p[k..t][i] < hi { assert p[..t][k + i] == p[k..t][i]; }
    SkipsEnds(p[..k], lo, hi);
    SkipsGap(p[..k], lo, hi);
  }

  lemma SliceBound(p: seq<int>, k: nat, t: nat, lo: int, hi: int)
    requires k <= t <= |p| && Distinct(p) && lo <= hi && Between(lo, p[..t], hi) && Increasing(p[k..t])
    ensures k <= hi - lo && Digit(p[..k], p[k..t], lo) < Choose(hi - lo - k, t - k)
  {
    SlicePlaceable(p, k, t, lo, hi);
    DigitBound(p[..k], p[k..t], lo, hi);
  }

  lemma OthersFit(l: Layout, norm: seq<nat>, p: seq<int>, a: nat)
    requires At(l, norm, l.First()) && Placement(l, norm, p) && l.others > 0 && l.First() <= |p|
    ensures DigitOf(l, norm, p, a, Others) < Radix(l, norm, Others)
  {
    SliceBound(p, l.lead, l.First(), 8, 56);
  }

  lemma GroupFits(l: Layout, norm: seq<nat>, p: seq<int>, a: nat, k: nat)
    requires At(l, norm, l.First()) && Placement(l, norm, p) && k in Starts(l, norm, l.First())
    ensures DigitOf(l, norm, p, a, Group(k)) < Radix(l, norm, Group(k))
  {
    var t := k + norm[k];
    assert Increasing(p[k..t]) && Between(0, p[..t], 64);
    SliceBound(p, k, t, 0, 64);
  }

  lemma {:induction false} PlacementDigitsFit(l: Layout, norm: seq<nat>, p: seq<int>, a: nat)
    requires Grouped(l, norm) && Placement(l, norm, p) && a < l.leadCount && HeaderOk(l, norm)
    ensures DigitsFit(l, norm, p, a, TableSlots(l, norm))
  {
    CompleteExactly(l, norm, l.First(), 0);
    forall s | s in TableSlots(l, norm) ensures DigitOf(l, norm, p, a, s) < Radix(l, norm, s) {
      match s
      case Lead =>
      case Others => OthersFit(l, norm, p, a);
      case Group(k) =>
        GroupsPlaced(l, norm, l.First(), 0, k);
        GroupFits(l, norm, p, a, k);
    }
  }

  ghost function TableSlots(l: Layout, norm: seq<nat>): seq<Slot>
    requires At(l, norm, l.First())
  {
    Slots(l, norm, l.First(), 0)
  }

  ghost predicate HeaderOk(l: Layout, norm: seq<nat>)
    requires At(l, norm, l.First())
  {
    Rounds(l, norm, l.First(), 0) < 15 && HeaderFits(l, |Starts(l, norm, l.First())|, 0)
  }

  lemma Digits(d: int, r: int, v: int, s: int)
    requires 0 <= d < r && 0 <= v < s
    ensures d + r * v < r * s
  {
    ScaleStrict(v, s, r);
    assert v * r == r * v && s * r == r * s;
  }

  lemma SameDigits(d: int, e: int, r: int, v: int, w: int)
    requires 0 <= d < r && 0 <= e < r && d + r * v == e + r * w
    ensures d == e && v == w
  {
    assert v * r == r * v && w * r == r * w;
    if v < w { ScaleStrict(v, w, r); }
    if w < v { ScaleStrict(w, v, r); }
  }

  /** Every index is below the size of the table. */
  lemma {:induction false} ValueBelowSize(l: Layout, norm: seq<nat>, p: seq<int>, a: nat, slots: seq<Slot>)
    requires DigitsFit(l, norm, p, a, slots)
    ensures Value(l, norm, p, a, slots) < Size(l, norm, slots)
  {
    if slots != [] {
      ValueBelowSize(l, norm, p, a, slots[1..]);
      Digits(DigitOf(l, norm, p, a, slots[0]), Radix(l, norm, slots[0]), Value(l, norm, p, a, slots[1..]),
        Size(l, norm, slots[1..]));
    }
  }

  /** Equal numbers have equal digits in every slot. */
  lemma {:induction false} SameValueSameDigits(l: Layout, norm: seq<nat>, p: seq<int>, q: seq<int>, a: nat, b: nat,
                                               slots: seq<Slot>)
    requires DigitsFit(l, norm, p, a, slots) && DigitsFit(l, norm, q, b, slots)
    requires Value(l, norm, p, a, slots) == Value(l, norm, q, b, slots)
    ensures forall s :: s in slots ==> DigitOf(l, norm, p, a, s) == DigitOf(l, norm, q, b, s)
  {
    if slots != [] {
      SameDigits(DigitOf(l, norm, p, a, slots[0]), DigitOf(l, norm, q, b, slots[0]), Radix(l, norm, slots[0]),
                 Value(l, norm, p, a, slots[1..]), Value(l, norm, q, b, slots[1..]));
      SameValueSameDigits(l, norm, p, q, a, b, slots[1..]);
    }
  }

  lemma SliceDetermined(p: seq<int>, q: seq<int>, k: nat, t: nat, lo: int, hi: int)
    requires k <= t <= |p| == |q| && Distinct(p) && Distinct(q) && p[..k] == q[..k] && lo <= hi
    requires Between(lo, p[..t], hi) && Between(lo, q[..t], hi) && Increasing(p[k..t]) && Increasing(q[k..t])
    requires Digit(p[..k], p[k..t], lo) == Digit(q[..k], q[k..t], lo)
    ensures p[..t] == q[..t]
  {
    SlicePlaceable(p, k, t, lo, hi);
    SlicePlaceable(q, k, t, lo, hi);
    DigitInjective(p[..k], p[k..t], q[k..t], lo, hi);
    assert p[..t] == p[..k] + p[k..t];
    assert q[..t] == q[..k] + q[k..t];
  }

  ghost predicate GroupsAgree(l: Layout, norm: seq<nat>, p: seq<int>, q: seq<int>, starts: seq<nat>) {
    forall s {:trigger s in starts} ::
      s in starts ==> DigitOf(l, norm, p, 0, Group(s)) == DigitOf(l, norm, q, 0, Group(s))
  }

  /** Agreement up to group `s` carries over to the end of the group. */
  ghost predicate Carries(norm: seq<nat>, p: seq<int>, q: seq<int>, s: nat) {
    && |p| == |q| == |norm| && s < |norm| && s + norm[s] <= |norm|
    && (p[..s] == q[..s] ==> p[..s + norm[s]] == q[..s + norm[s]])
  }

  lemma {:induction false} GroupByGroup(l: Layout, norm: seq<nat>, p: seq<int>, q: seq<int>, k: nat)
    requires At(l, norm, k) && |p| == |q| == |norm| && p[..k] == q[..k]
    requires forall s {:trigger Carries(norm, p, q, s)} :: s in Starts(l, norm, k) ==> Carries(norm, p, q, s)
    ensures p == q
    decreases |p| - k
  {
    if k < |p| {
      assert k in Starts(l, norm, k) && Carries(norm, p, q, k);
      forall s | s in Starts(l, norm, k + norm[k]) ensures Carries(norm, p, q, s) { assert s in Starts(l, norm, k); }
      GroupByGroup(l, norm, p, q, k + norm[k]);
    }
  }

  lemma SameDigitCarries(l: Layout, norm: seq<nat>, p: seq<int>, q: seq<int>, k: nat)
    requires At(l, norm, l.First()) && Placement(l, norm, p) && Placement(l, norm, q) && k in Starts(l, norm, l.First())
    requires DigitOf(l, norm, p, 0, Group(k)) == DigitOf(l, norm, q, 0, Group(k))
    ensures Carries(norm, p, q, k)
  {
    if p[..k] == q[..k] { SliceDetermined(p, q, k, k + norm[k], 0, 64); }
  }

  lemma {:induction false} SameDigitsSameGroups(l: Layout, norm: seq<nat>, p: seq<int>, q: seq<int>)
    requires At(l, norm, l.First()) && Placement(l, norm, p) && Placement(l, norm, q)
    requires p[..l.First()] == q[..l.First()] && GroupsAgree(l, norm, p, q, Starts(l, norm, l.First()))
    ensures p == q
  {
    forall s | s in Starts(l, norm, l.First()) ensures Carries(norm, p, q, s) { SameDigitCarries(l, norm, p, q, s); }
    GroupByGroup(l, norm, p, q, l.First());
  }

  /** Different placements have different indices, provided the leading squares are determined by their own number. */
  lemma {:induction false} IndexInjective(l: Layout, norm: seq<nat>, p: seq<int>, q: seq<int>, a: nat, b: nat)
    requires Grouped(l, norm) && HeaderOk(l, norm)
    requires Placement(l, norm, p) && Placement(l, norm, q) && a < l.leadCount && b < l.leadCount
    requires a == b ==> p[..l.lead] == q[..l.lead]
    requires Value(l, norm, p, a, TableSlots(l, norm)) == Value(l, norm, q, b, TableSlots(l, norm))
    ensures p == q
  {
    var slots, k := TableSlots(l, norm), l.First();
    CompleteExactly(l, norm, k, 0);
    PlacementDigitsFit(l, norm, p, a);
    PlacementDigitsFit(l, norm, q, b);
    SameValueSameDigits(l, norm, p, q, a, b, slots);
    assert DigitOf(l, norm, p, a, Lead) == DigitOf(l, norm, q, b, Lead);
    if l.others > 0 {
      assert DigitOf(l, norm, p, a, Others) == DigitOf(l, norm, q, b, Others);
      SliceDetermined(p, q, l.lead, k, 8, 56);
    }
    SlotsAgree(l, norm, p, q, a, b);
    SameDigitsSameGroups(l, norm, p, q);
  }

  lemma SlotsAgree(l: Layout, norm: seq<nat>, p: seq<int>, q: seq<int>, a: nat, b: nat)
    requires At(l, norm, l.First())
    requires forall s {:trigger s in TableSlots(l, norm)} ::
      s in TableSlots(l, norm) ==> DigitOf(l, norm, p, a, s) == DigitOf(l, norm, q, b, s)
    ensures GroupsAgree(l, norm, p, q, Starts(l, norm, l.First()))
  {
    forall s | s in Starts(l, norm, l.First())
      ensures DigitOf(l, norm, p, 0, Group(s)) == DigitOf(l, norm, q, 0, Group(s))
    {
      GroupsPlaced(l, norm, l.First(), 0, s);
      assert Group(s) in TableSlots(l, norm);
    }
  }

  // ---- the index as `encode` adds it up ----

  ghost function GroupSum(l: Layout, norm: seq<nat>, factor: seq<nat>, p: seq<int>, starts: seq<nat>): nat {
    if starts == [] then 0
    else (if starts[0] < |factor| then DigitOf(l, norm, p, 0, Group(starts[0])) * factor[starts[0]] else 0)
         + GroupSum(l, norm, factor, p, starts[1..])
  }

  ghost function OthersSum(l: Layout, norm: seq<nat>, factor: seq<nat>, p: seq<int>): nat {
    if 0 < l.others && l.lead < |factor| then DigitOf(l, norm, p, 0, Others) * factor[l.lead] else 0
  }

  ghost function IndexSum(l: Layout, norm: seq<nat>, factor: seq<nat>, p: seq<int>, a: nat): nat
    requires At(l, norm, l.First()) && 0 < |factor|
  {
    a * factor[0] + OthersSum(l, norm, factor, p) + GroupSum(l, norm, factor, p, Starts(l, norm, l.First()))
  }

  lemma Shift(f: int, d: int, r: int, v: int, w: int, later: int, all: int)
    requires w == d + r * v && (f * r) * v == later && all == d * f + later
    ensures f * w == all
  {
  }

  /** What is still to be added for group `k` on, in round `i`. */
  ghost function Rest(l: Layout, norm: seq<nat>, factor: seq<nat>, p: seq<int>, a: nat, k: nat, i: nat): int
    requires At(l, norm, k) && 0 < |factor|
  {
    (if i <= l.order then a * factor[0] else 0)
    + (if i <= l.order2 then OthersSum(l, norm, factor, p) else 0)
    + GroupSum(l, norm, factor, p, Starts(l, norm, k))
  }

  lemma RestStep(l: Layout, norm: seq<nat>, factor: seq<nat>, p: seq<int>, a: nat, k: nat, i: nat)
    requires At(l, norm, k) && More(l, k, i) && i < 15 && (l.others == 0 ==> l.order2 == 15) &&
      (i == l.order ==> l.order2 != i)
    requires FactorAt(l, SlotAt(l, k, i)) < |factor|
    ensures var s := SlotAt(l, k, i);
      Rest(l, norm, factor, p, a, k, i) == DigitOf(l, norm, p, a, s) * factor[FactorAt(l, s)] +
        Rest(l, norm, factor, p, a, NextK(l, norm, k, i), i + 1)
  {
  }

  /** Adding the slots up in the order of the pieces or in the order of the file is the same. */
  lemma {:induction false} SumIsValue(l: Layout, norm: seq<nat>, factor: seq<nat>, p: seq<int>, a: nat, k: nat, i: nat,
                                      f: nat)
    requires At(l, norm, k) && 0 < |factor| && Complete(l, norm, k, i)
    requires (l.others == 0 ==> l.order2 == 15) && Rounds(l, norm, k, i) < 15
    requires Factors(l, norm, factor, Slots(l, norm, k, i), f)
    ensures f * Value(l, norm, p, a, Slots(l, norm, k, i)) == Rest(l, norm, factor, p, a, k, i)
    decreases Pending(l, k, i)
  {
    CompleteExactly(l, norm, k, i);
    if More(l, k, i) {
      var slots, j := Slots(l, norm, k, i), NextK(l, norm, k, i);
      var s := slots[0];
      CompleteExactly(l, norm, j, i + 1);
      SumIsValue(l, norm, factor, p, a, j, i + 1, f * Radix(l, norm, s));
      RestStep(l, norm, factor, p, a, k, i);
      assert slots[1..] == Slots(l, norm, j, i + 1);
      Shift(f, DigitOf(l, norm, p, a, s), Radix(l, norm, s), Value(l, norm, p, a, slots[1..]),
        Value(l, norm, p, a, slots),
            Rest(l, norm, factor, p, a, j, i + 1), Rest(l, norm, factor, p, a, k, i));
    } else {
      assert Value(l, norm, p, a, []) == 0;
    }
  }

  /** The sum `encode` returns is below the size `init_enc_info` returns. */
  lemma IndexInRange(l: Layout, norm: seq<nat>, factor: seq<nat>, p: seq<int>, a: nat)
    requires Grouped(l, norm) && HeaderOk(l, norm) && Placement(l, norm, p) && a < l.leadCount && 0 < |factor|
    requires Factors(l, norm, factor, TableSlots(l, norm), 1)
    ensures IndexSum(l, norm, factor, p, a) ==
      Value(l, norm, p, a, TableSlots(l, norm)) < Size(l, norm, TableSlots(l, norm))
  {
    CompleteExactly(l, norm, l.First(), 0);
    SumIsValue(l, norm, factor, p, a, l.First(), 0, 1);
    PlacementDigitsFit(l, norm, p, a);
    ValueBelowSize(l, norm, p, a, TableSlots(l, norm));
  }
}
