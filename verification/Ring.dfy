// An open-addressing table as a ring of slots: probe chains, and what a hole in a chain means.

module Ring {

  type Key = nat

  datatype Option<V> = None | Some(value: V)

  datatype Entry<V> = Entry(key: Key, value: Option<V>, pins: int, inUse: bool)

  /** `++idx; if (idx >= size) idx -= size;` */
  function Next(i: int, n: nat): int
    requires 0 <= i < n
  {
    if i + 1 >= n then i + 1 - n else i + 1
  }

  /** Steps from `a` forward to `b` round the ring. */
  function Dist(a: int, b: int, n: nat): int {
    if b >= a then b - a else b - a + n
  }

  function Home(key: Key, n: nat): (h: int)
    requires n > 0
    ensures 0 <= h < n
  {
    key % n
  }

  /** `InRange(target, start, end)`. */
  predicate InRange(target: int, start: int, end: int) {
    if start <= end then start <= target <= end else target >= start || target <= end
  }

  lemma InRangeMeans(target: int, hole: int, next: int, n: nat)
    requires 0 <= target < n && 0 <= hole < n && 0 <= next < n && hole != next
    ensures InRange(target, hole + 1, next) <==> 1 <= Dist(hole, target, n) <= Dist(hole, next, n)
  {
  }

  predicate Used<V>(s: seq<Entry<V>>, p: int) {
    0 <= p < |s| && s[p].inUse
  }

  /** Slot `q` lies on the probe path of the item in `p`, before `p`. */
  predicate OnPath<V>(s: seq<Entry<V>>, p: int, q: int)
    requires 0 <= p < |s|
  {
    0 <= q < |s| && Dist(Home(s[p].key, |s|), q, |s|) < Dist(Home(s[p].key, |s|), p, |s|)
  }

  /** No item is separated from its home slot by a free one. */
  ghost predicate NoGaps<V>(s: seq<Entry<V>>) {
    forall p, q :: Used(s, p) && OnPath(s, p, q) ==> Used(s, q)
  }

  /** Steps from the hole to the scan position; a full round when they meet. */
  function Scanned(hole: int, next: int, n: nat): int {
    if next == hole then n else Dist(hole, next, n)
  }

  /** The state of backward-shift deletion: the only gap is the hole, and no item strictly between the hole and the scan
      position needs it filled. */
  ghost predicate OneHole<V>(s: seq<Entry<V>>, hole: int, next: int)
    requires 0 <= hole < |s|
  {
    && !s[hole].inUse
    && (forall p, q :: Used(s, p) && OnPath(s, p, q) && !Used(s, q)
          ==> q == hole && Dist(hole, p, |s|) >= Scanned(hole, next, |s|))
  }

  /** Used slots among the first `k`. */
  ghost function UsedCount<V>(s: seq<Entry<V>>, k: nat): nat
    requires k <= |s|
  {
    if k == 0 then 0 else UsedCount(s, k - 1) + if s[k - 1].inUse then 1 else 0
  }

  lemma {:induction false} UsedCountUpdate<V>(s: seq<Entry<V>>, p: int, e: Entry<V>, k: nat)
    requires k <= |s| && 0 <= p < |s|
    ensures UsedCount(s[p := e], k) == UsedCount(s, k) +
      if p < k then (if e.inUse then 1 else 0) - (if s[p].inUse then 1 else 0) else 0
  {
    if k > 0 { UsedCountUpdate(s, p, e, k - 1); }
  }

  lemma {:induction false} FreeSlotExists<V>(s: seq<Entry<V>>, k: nat)
    requires k <= |s| && UsedCount(s, k) < k
    ensures exists p :: 0 <= p < k && !s[p].inUse
  {
    if s[k - 1].inUse { FreeSlotExists(s, k - 1); }
  }

  // ---- the steps of backward-shift deletion ----

  /** Freeing a slot makes the hole. */
  lemma {:induction false} HoleMade<V>(s: seq<Entry<V>>, t: seq<Entry<V>>, hole: int)
    requires NoGaps(s) && |t| == |s| && 0 <= hole < |s| && t == s[hole := t[hole]] && !t[hole].inUse
    ensures OneHole(t, hole, Next(hole, |s|))
  {
    forall p, q | Used(t, p) && OnPath(t, p, q) && !Used(t, q)
      ensures q == hole && Dist(hole, p, |s|) >= Scanned(hole, Next(hole, |s|), |s|)
    {
      assert Used(s, p) && OnPath(s, p, q);
    }
  }

  /** An item at home after the hole is passed over. */
  lemma {:induction false} HolePassed<V>(s: seq<Entry<V>>, hole: int, next: int)
    requires 0 <= hole < |s| && 0 <= next < |s| && OneHole(s, hole, next) && s[next].inUse
    requires InRange(Home(s[next].key, |s|), hole + 1, next)
    ensures OneHole(s, hole, Next(next, |s|))
  {
    InRangeMeans(Home(s[next].key, |s|), hole, next, |s|);
    forall p, q | Used(s, p) && OnPath(s, p, q) && !Used(s, q)
      ensures Dist(hole, p, |s|) >= Scanned(hole, Next(next, |s|), |s|)
    {
      assert q == hole && Dist(hole, p, |s|) >= Scanned(hole, next, |s|);
      assert p != next;
    }
  }

  /** An item that probed past the hole moves into it; the hole moves on. */
  lemma {:induction false} HoleMoved<V>(s: seq<Entry<V>>, t: seq<Entry<V>>, hole: int, next: int)
    requires 0 <= hole < |s| && 0 <= next < |s| && OneHole(s, hole, next) && s[next].inUse
    requires !InRange(Home(s[next].key, |s|), hole + 1, next)
    requires t == s[hole := s[next]][next := s[hole]]
    ensures OneHole(t, next, Next(next, |s|))
  {
    InRangeMeans(Home(s[next].key, |s|), hole, next, |s|);
    forall p, q | Used(t, p) && OnPath(t, p, q) && !Used(t, q)
      ensures q == next && Dist(next, p, |s|) >= Scanned(next, Next(next, |s|), |s|)
    {
      if p == hole {
        assert OnPath(s, next, q);
      } else {
        assert Used(s, p) && OnPath(s, p, q);
      }
    }
  }

  /** When the scan meets a free slot, possibly the hole itself after a full round, no gap is left. */
  lemma {:induction false} HoleHarmless<V>(s: seq<Entry<V>>, hole: int, next: int)
    requires 0 <= hole < |s| && 0 <= next < |s| && OneHole(s, hole, next) && !s[next].inUse
    ensures NoGaps(s)
  {
    forall p, q | Used(s, p) && OnPath(s, p, q) ensures Used(s, q) {
      if !Used(s, q) {
        assert q == hole && Dist(hole, p, |s|) >= Scanned(hole, next, |s|);
        assert next != hole && OnPath(s, p, next);
      }
    }
  }

  // ---- why the scan ends even on a full table ----

  /** How far the items are from home, added up. */
  ghost function Displacement<V>(s: seq<Entry<V>>, k: nat): nat
    requires k <= |s|
  {
    if k == 0 then 0
    else Displacement(s, k - 1) + if s[k - 1].inUse then Dist(Home(s[k - 1].key, |s|), k - 1, |s|) else 0
  }

  lemma {:induction false} DisplacementUpdate<V>(s: seq<Entry<V>>, p: int, e: Entry<V>, k: nat)
    requires k <= |s| && 0 <= p < |s|
    ensures var was, now := (if s[p].inUse then Dist(Home(s[p].key, |s|), p, |s|) else 0),
      (if e.inUse then Dist(Home(e.key, |s|), p, |s|) else 0);
      Displacement(s[p := e], k) == Displacement(s, k) + if p < k then now - was else 0
  {
    if k > 0 { DisplacementUpdate(s, p, e, k - 1); }
  }

  /** Every swap brings an item closer to home. */
  lemma {:induction false} SwapLowersDisplacement<V>(s: seq<Entry<V>>, hole: int, next: int)
    requires 0 <= hole < |s| && 0 <= next < |s| && hole != next && !s[hole].inUse && s[next].inUse
    requires !InRange(Home(s[next].key, |s|), hole + 1, next)
    ensures Displacement(s[hole := s[next]][next := s[hole]], |s|) < Displacement(s, |s|)
  {
    InRangeMeans(Home(s[next].key, |s|), hole, next, |s|);
    DisplacementUpdate(s, hole, s[next], |s|);
    DisplacementUpdate(s[hole := s[next]], next, s[hole], |s|);
  }

  // ---- probing ----

  /** All slots from home up to, not including, `idx` are used. */
  ghost predicate ProbedTo<V>(s: seq<Entry<V>>, key: Key, idx: int)
    requires |s| > 0
  {
    forall q :: 0 <= q < |s| && Dist(Home(key, |s|), q, |s|) < Dist(Home(key, |s|), idx, |s|) ==>
      s[q].inUse && s[q].key != key
  }

  lemma {:induction false} ProbeAdvances<V>(s: seq<Entry<V>>, key: Key, idx: int, free: int)
    requires 0 <= idx < |s| && 0 <= free < |s| && ProbedTo(s, key, idx) && s[idx].inUse && s[idx].key != key &&
      !s[free].inUse
    requires Dist(Home(key, |s|), idx, |s|) <= Dist(Home(key, |s|), free, |s|)
    ensures ProbedTo(s, key, Next(idx, |s|))
    ensures Dist(Home(key, |s|), Next(idx, |s|), |s|) <= Dist(Home(key, |s|), free, |s|)
    ensures Dist(Next(idx, |s|), free, |s|) < Dist(idx, free, |s|)
  {
  }

  /** A probe that ends at a free slot has proved the key absent. */
  lemma {:induction false} ProbeMisses<V>(s: seq<Entry<V>>, key: Key, idx: int)
    requires NoGaps(s) && 0 <= idx < |s| && !s[idx].inUse && ProbedTo(s, key, idx)
    ensures forall p :: Used(s, p) ==> s[p].key != key
  {
    forall p | Used(s, p) ensures s[p].key != key {
      assert s[p].key == key ==> !OnPath(s, p, idx);
    }
  }

  /** Storing an item where its probe ended leaves no gap. */
  lemma {:induction false} StoreKeepsNoGaps<V>(s: seq<Entry<V>>, idx: int, e: Entry<V>)
    requires NoGaps(s) && 0 <= idx < |s| && !s[idx].inUse && e.inUse && ProbedTo(s, e.key, idx)
    ensures NoGaps(s[idx := e])
  {
    var t := s[idx := e];
    forall p, q | Used(t, p) && OnPath(t, p, q) ensures Used(t, q) {
      if p != idx { assert Used(s, p) && OnPath(s, p, q); }
    }
  }
}
