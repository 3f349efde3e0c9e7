// `HashKeyedCache`: the ring table, the insertion queue and the evicted list, refined by a map with a FIFO queue in
// which pinned values outlive their eviction.

module Cache {
  import opened Ring

  /** `V*`: the identity of a heap-allocated value. */
  type Pointer = nat

  // ---- the abstract cache ----

  /** What a user of the cache sees. `pins` counts the outstanding pins of each stored value; `retired` holds the
      evicted values that are still pinned. */
  datatype Model = Model(capacity: nat, contents: map<Key, Pointer>, queue: seq<Key>, pins: multiset<(Key, Pointer)>,
    retired: set<(Key, Pointer)>)

  /** No key is queued twice. */
  predicate Differ(queue: seq<Key>, i: int, j: int) {
    0 <= i < j < |queue| ==> queue[i] != queue[j]
  }

  ghost predicate Consistent(m: Model) {
    && (forall i, j {:trigger Differ(m.queue, i, j)} :: Differ(m.queue, i, j))
    && (forall k :: k in m.queue <==> k in m.contents)
    && (forall e :: e in m.pins ==> Owned(m, e))
    && (forall e :: e in m.retired ==> e in m.pins)
    && (forall k :: k in m.contents ==> (k, m.contents[k]) !in m.retired)
  }

  /** The value is still owned by the cache, that is, not freed. */
  predicate Owned(m: Model, e: (Key, Pointer)) {
    (e.0 in m.contents && m.contents[e.0] == e.1) || e in m.retired
  }

  /** The oldest entry leaves; it is kept aside while pinned. */
  function EvictOldest(m: Model): Model
    requires m.queue != [] && m.queue[0] in m.contents
  {
    var e := (m.queue[0], m.contents[m.queue[0]]);
    m.(contents := m.contents - {e.0}, queue := m.queue[1..], retired := m.retired + if m.pins[e] > 0 then {e} else {})
  }

  ghost function EvictTo(m: Model, limit: nat): (r: Model)
    requires Consistent(m)
    ensures Consistent(r) && r.capacity == m.capacity && r.pins == m.pins
    ensures |r.queue| == if |m.queue| < limit then |m.queue| else limit
    decreases |m.queue|
  {
    if |m.queue| <= limit then m else
    EvictKeepsConsistent(m);
    EvictTo(EvictOldest(m), limit)
  }

  lemma EvictKeepsConsistent(m: Model)
    requires Consistent(m) && m.queue != []
    ensures Consistent(EvictOldest(m))
  {
    assert m.queue[0] in m.contents;
    var n := EvictOldest(m);
    forall i, j ensures Differ(n.queue, i, j) { assert Differ(m.queue, i + 1, j + 1); }
    forall k ensures k in n.queue <==> k in n.contents {
      if k in n.queue {
        var i :| 0 <= i < |n.queue| && n.queue[i] == k;
        assert m.queue[i + 1] == k && Differ(m.queue, 0, i + 1);
      }
      if k in n.contents { var i :| 0 <= i < |m.queue| && m.queue[i] == k; assert n.queue[i - 1] == k; }
    }
  }

  /** A value the cache does not own yet, as a `unique_ptr` handed over is. */
  ghost predicate FreshValue(m: Model, v: Pointer) {
    forall k :: !Owned(m, (k, v))
  }

  ghost function Inserted(m: Model, key: Key, v: Pointer): Model
    requires Consistent(m) && FreshValue(m, v)
  {
    if m.capacity == 0 || key in m.contents then m else
    InsertKeepsConsistent(m, key, v);
    EvictTo(Added(m, key, v), m.capacity)
  }

  function Added(m: Model, key: Key, v: Pointer): Model {
    m.(contents := m.contents[key := v], queue := m.queue + [key])
  }

  lemma InsertKeepsConsistent(m: Model, key: Key, v: Pointer)
    requires Consistent(m) && FreshValue(m, v) && key !in m.contents
    ensures Consistent(Added(m, key, v))
  {
    assert !Owned(m, (key, v));
    var n := Added(m, key, v);
    forall i, j ensures Differ(n.queue, i, j) {
      assert Differ(m.queue, i, j);
      assert 0 <= i < |m.queue| ==> m.queue[i] in m.contents;
    }
  }

  /** `LookupAndPin`. */
  function LookedUp(m: Model, key: Key): (r: (Model, Option<Pointer>)) {
    if key in m.contents then
      var e := (key, m.contents[key]);
      (m.(pins := m.pins[e := m.pins[e] + 1]), Some(e.1))
    else (m, None)
  }

  /** `Unpin`: a value that was evicted in the meantime is freed with its last pin. */
  function Unpinned(m: Model, e: (Key, Pointer)): Model
    requires e in m.pins
  {
    m.(pins := m.pins[e := m.pins[e] - 1], retired := if m.pins[e] == 1 then m.retired - {e} else m.retired)
  }

  ghost function Resized(m: Model, capacity: nat): Model
    requires Consistent(m)
  {
    if m.capacity == capacity then m else EvictTo(m, capacity).(capacity := capacity)
  }

  // ---- the table holds the contents ----

  ghost predicate SlotHolds(e: Entry<Pointer>, contents: map<Key, Pointer>, pins: multiset<(Key, Pointer)>) {
    && e.value.Some? && e.key in contents && contents[e.key] == e.value.value
    && e.pins == pins[(e.key, e.value.value)]
  }

  ghost predicate SlotsHold(s: seq<Entry<Pointer>>, contents: map<Key, Pointer>, pins: multiset<(Key, Pointer)>) {
    forall p :: Used(s, p) ==> SlotHolds(s[p], contents, pins)
  }

  predicate SameKey(s: seq<Entry<Pointer>>, p: int, q: int)
    requires Used(s, p) && Used(s, q)
  {
    s[p].key == s[q].key
  }

  ghost predicate KeysOnce(s: seq<Entry<Pointer>>) {
    forall p, q {:trigger SameKey(s, p, q)} :: Used(s, p) && Used(s, q) && SameKey(s, p, q) ==> p == q
  }

  ghost predicate Located(s: seq<Entry<Pointer>>, k: Key) {
    exists p :: Used(s, p) && s[p].key == k
  }

  ghost predicate TableHolds(s: seq<Entry<Pointer>>, contents: map<Key, Pointer>, pins: multiset<(Key, Pointer)>) {
    && SlotsHold(s, contents, pins) && KeysOnce(s)
    && (forall k {:trigger Located(s, k)} :: k in contents ==> Located(s, k))
    && UsedCount(s, |s|) == |contents|
  }

  lemma {:induction false} NoneUsed(s: seq<Entry<Pointer>>, k: nat)
    requires k <= |s| && forall p :: 0 <= p < |s| ==> !s[p].inUse
    ensures UsedCount(s, k) == 0
  {
    if k > 0 { NoneUsed(s, k - 1); }
  }

  lemma LocatedAt(s: seq<Entry<Pointer>>, p: int)
    requires Used(s, p)
    ensures Located(s, s[p].key)
  {
  }

  /** One slot changes to a free one, to another item with its key, or to an item with a key of its own. */
  lemma KeysOnceKept(s: seq<Entry<Pointer>>, p: int, e: Entry<Pointer>)
    requires KeysOnce(s) && 0 <= p < |s|
    requires e.inUse ==> forall q :: Used(s, q) && q != p ==> s[q].key != e.key
    ensures KeysOnce(s[p := e])
  {
    var t := s[p := e];
    forall i, j | Used(t, i) && Used(t, j) && SameKey(t, i, j) ensures i == j {
      if i != p && j != p { assert Used(s, i) && Used(s, j) && SameKey(s, i, j); }
    }
  }

  /** All other keys stay where they are. */
  lemma LocatedElsewhere(s: seq<Entry<Pointer>>, p: int, e: Entry<Pointer>, k: Key)
    requires Located(s, k) && 0 <= p < |s| && (Used(s, p) && s[p].key == k ==> e.inUse && e.key == k)
    ensures Located(s[p := e], k)
  {
    var q :| Used(s, q) && s[q].key == k;
    LocatedAt(s[p := e], q);
  }

  lemma {:induction false} TableFreed(s: seq<Entry<Pointer>>, p: int, e: Entry<Pointer>, contents: map<Key, Pointer>,
                                      pins: multiset<(Key, Pointer)>)
    requires TableHolds(s, contents, pins) && Used(s, p) && !e.inUse
    ensures TableHolds(s[p := e], contents - {s[p].key}, pins)
  {
    var t, rest := s[p := e], contents - {s[p].key};
    forall q | Used(t, q) ensures SlotHolds(t[q], rest, pins) {
      assert Used(s, q) && SlotHolds(s[q], contents, pins);
      assert !SameKey(s, p, q);
    }
    KeysOnceKept(s, p, e);
    forall k | k in rest ensures Located(t, k) {
      LocatedElsewhere(s, p, e, k);
    }
    UsedCountUpdate(s, p, e, |s|);
    assert SlotHolds(s[p], contents, pins);
    assert |rest| == |contents| - 1 by { assert rest.Keys == contents.Keys - {s[p].key}; }
  }

  lemma {:induction false} TableStored(s: seq<Entry<Pointer>>, p: int, e: Entry<Pointer>, contents: map<Key, Pointer>,
                                       pins: multiset<(Key, Pointer)>)
    requires TableHolds(s, contents, pins) && 0 <= p < |s| && !s[p].inUse && e.inUse && e.value.Some? &&
      e.key !in contents
    requires e.pins == pins[(e.key, e.value.value)]
    ensures TableHolds(s[p := e], contents[e.key := e.value.value], pins)
  {
    var t, more := s[p := e], contents[e.key := e.value.value];
    forall q | Used(s, q) ensures s[q].key != e.key { assert SlotHolds(s[q], contents, pins); }
    forall q | Used(t, q) ensures SlotHolds(t[q], more, pins) {
      if q != p { assert Used(s, q) && SlotHolds(s[q], contents, pins); }
    }
    KeysOnceKept(s, p, e);
    forall k | k in more ensures Located(t, k) {
      if k == e.key { LocatedAt(t, p); } else { LocatedElsewhere(s, p, e, k); }
    }
    UsedCountUpdate(s, p, e, |s|);
    assert |more| == |contents| + 1 by { assert more.Keys == contents.Keys + {e.key}; }
  }

  /** Moving an item to a free slot is freeing its slot and storing it again. */
  lemma {:induction false} TableSwapped(s: seq<Entry<Pointer>>, i: int, j: int, contents: map<Key, Pointer>,
                                        pins: multiset<(Key, Pointer)>)
    requires TableHolds(s, contents, pins) && 0 <= i < |s| && !s[i].inUse && Used(s, j)
    ensures TableHolds(s[i := s[j]][j := s[i]], contents, pins)
  {
    var k := s[j].key;
    assert SlotHolds(s[j], contents, pins);
    TableFreed(s, j, s[i], contents, pins);
    TableStored(s[j := s[i]], i, s[j], contents - {k}, pins);
    assert s[j := s[i]][i := s[j]] == s[i := s[j]][j := s[i]];
    assert (contents - {k})[k := contents[k]] == contents;
  }

  /** Changing the pin count of one stored value changes one slot. */
  lemma {:induction false} TablePinned(s: seq<Entry<Pointer>>, p: int, n: nat, contents: map<Key, Pointer>,
                                       pins: multiset<(Key, Pointer)>)
    requires TableHolds(s, contents, pins) && Used(s, p)
    ensures TableHolds(s[p := s[p].(pins := n)], contents, pins[(s[p].key, contents[s[p].key]) := n])
  {
    var e := s[p].(pins := n);
    var t, now := s[p := e], pins[(s[p].key, contents[s[p].key]) := n];
    forall q | Used(s, q) && q != p ensures s[q].key != e.key { assert !SameKey(s, q, p); }
    forall q | Used(t, q) ensures SlotHolds(t[q], contents, now) {
      assert Used(s, q) && SlotHolds(s[q], contents, pins);
    }
    KeysOnceKept(s, p, e);
    forall k | k in contents ensures Located(t, k) {
      LocatedElsewhere(s, p, e, k);
    }
    UsedCountUpdate(s, p, e, |s|);
  }

  // ---- the evicted list holds the retired values ----

  ghost predicate EvictedHolds(evicted: seq<Entry<Pointer>>, retired: set<(Key, Pointer)>,
                               pins: multiset<(Key, Pointer)>) {
    && (forall i :: 0 <= i < |evicted| ==> RetiredEntry(evicted[i], retired, pins))
    && (forall i, j :: 0 <= i < j < |evicted| ==> !SamePair(evicted[i], evicted[j]))
    && (forall p {:trigger Retired(evicted, p)} :: p in retired ==> Retired(evicted, p))
  }

  predicate RetiredEntry(e: Entry<Pointer>, retired: set<(Key, Pointer)>, pins: multiset<(Key, Pointer)>) {
    e.value.Some? && (e.key, e.value.value) in retired && e.pins == pins[(e.key, e.value.value)]
  }

  predicate SamePair(d: Entry<Pointer>, e: Entry<Pointer>) {
    d.key == e.key && d.value == e.value
  }

  ghost predicate Retired(evicted: seq<Entry<Pointer>>, p: (Key, Pointer)) {
    exists i :: 0 <= i < |evicted| && evicted[i].key == p.0 && evicted[i].value == Some(p.1)
  }

  lemma {:induction false} EvictedAppend(evicted: seq<Entry<Pointer>>, retired: set<(Key, Pointer)>,
                                         pins: multiset<(Key, Pointer)>, x: Entry<Pointer>)
    requires EvictedHolds(evicted, retired, pins) && x.value.Some? && (x.key, x.value.value) !in retired
    requires x.pins == pins[(x.key, x.value.value)]
    ensures EvictedHolds(evicted + [x], retired + {(x.key, x.value.value)}, pins)
  {
    var more, pair := evicted + [x], (x.key, x.value.value);
    forall p | p in retired + {pair} ensures Retired(more, p) {
      if p == pair {
        assert more[|evicted|].key == p.0;
      } else {
        assert Retired(evicted, p);
        var i :| 0 <= i < |evicted| && evicted[i].key == p.0 && evicted[i].value == Some(p.1);
        assert more[i].key == p.0;
      }
    }
    forall i | 0 <= i < |evicted| ensures RetiredEntry(evicted[i], retired, pins) { }
  }

  function AfterUnlink(evicted: seq<Entry<Pointer>>, e: Entry<Pointer>): seq<Entry<Pointer>> {
    if e.pins == 0 then evicted else evicted + [Entry(e.key, e.value, e.pins, false)]
  }

  /** What the evicted list and the model look like after the oldest entry, held in slot entry `e`, has left. */
  lemma {:induction false} EvictedOldest(m: Model, evicted: seq<Entry<Pointer>>, e: Entry<Pointer>)
    requires Consistent(m) && m.queue != [] && EvictedHolds(evicted, m.retired, m.pins)
    requires e.key == m.queue[0] && SlotHolds(e, m.contents, m.pins)
    ensures Consistent(EvictOldest(m)) && |EvictOldest(m).contents| == |m.contents| - 1
    ensures EvictedHolds(AfterUnlink(evicted, e), EvictOldest(m).retired, m.pins)
  {
    EvictKeepsConsistent(m);
    assert EvictOldest(m).contents.Keys == m.contents.Keys - {e.key};
    var pair := (m.queue[0], m.contents[m.queue[0]]);
    assert pair !in m.retired;
    if m.pins[pair] > 0 {
      EvictedAppend(evicted, m.retired, m.pins, Entry(e.key, e.value, e.pins, false));
    } else {
      assert m.retired + {} == m.retired;
    }
  }

  // ---- the fields represent the model ----

  /** What holds between any two steps; the table may be one over capacity, even full. */
  ghost predicate Represents(s: seq<Entry<Pointer>>, size: int, allocatedCount: int, evicted: seq<Entry<Pointer>>,
                             m: Model) {
    match m
    case Model(_, contents, queue, pins, retired) =>
      && Consistent(m) && |contents| == |queue| == size <= |s|
      && NoGaps(s) && TableHolds(s, contents, pins)
      && EvictedHolds(evicted, retired, pins)
      && allocatedCount == size + |evicted|
  }

  /** `EvictItem` as a step of the representation; the new table `t` is known only by what it holds. */
  lemma {:induction false} OldestEvicted(s: seq<Entry<Pointer>>, size: int, allocatedCount: int,
                                         evicted: seq<Entry<Pointer>>, m: Model, t: seq<Entry<Pointer>>,
                                         e: Entry<Pointer>)
    requires Represents(s, size, allocatedCount, evicted, m) && m.queue != [] && e.key == m.queue[0] &&
      SlotHolds(e, m.contents, m.pins)
    requires |t| == |s| && NoGaps(t) && TableHolds(t, m.contents - {e.key}, m.pins)
    ensures Represents(t, size - 1, allocatedCount - if e.pins == 0 then 1 else 0, AfterUnlink(evicted, e),
      EvictOldest(m))
  {
    EvictedOldest(m, evicted, e);
  }

  lemma OldestFound(s: seq<Entry<Pointer>>, idx: int, contents: map<Key, Pointer>, pins: multiset<(Key, Pointer)>)
    requires TableHolds(s, contents, pins) && Used(s, idx)
    ensures SlotHolds(s[idx], contents, pins)
  {
  }

  /** `Insert` up to the eviction: an item stored where its probe ended. */
  lemma {:induction false} NewestAdded(s: seq<Entry<Pointer>>, size: int, allocatedCount: int,
                                       evicted: seq<Entry<Pointer>>, m: Model, p: int, e: Entry<Pointer>)
    requires Represents(s, size, allocatedCount, evicted, m) && |m.contents| < |s|
    requires 0 <= p < |s| && !s[p].inUse && e.inUse && e.value.Some? && e.pins == 0
    requires e.key !in m.contents && FreshValue(m, e.value.value) && ProbedTo(s, e.key, p)
    ensures Represents(s[p := e], size + 1, allocatedCount + 1, evicted, Added(m, e.key, e.value.value))
  {
    InsertKeepsConsistent(m, e.key, e.value.value);
    assert !Owned(m, (e.key, e.value.value));
    assert (e.key, e.value.value) !in m.pins;
    StoreKeepsNoGaps(s, p, e);
    TableStored(s, p, e, m.contents, m.pins);
    assert Added(m, e.key, e.value.value).contents.Keys == m.contents.Keys + {e.key};
  }

  /** Only the pins of values outside the list change. */
  lemma EvictedUntouched(evicted: seq<Entry<Pointer>>, retired: set<(Key, Pointer)>, pins: multiset<(Key, Pointer)>,
                         e: (Key, Pointer), n: nat)
    requires EvictedHolds(evicted, retired, pins) && e !in retired
    ensures EvictedHolds(evicted, retired, pins[e := n])
  {
    forall i | 0 <= i < |evicted| ensures RetiredEntry(evicted[i], retired, pins[e := n]) {
      assert RetiredEntry(evicted[i], retired, pins);
    }
  }

  lemma TableUntouched(s: seq<Entry<Pointer>>, contents: map<Key, Pointer>, pins: multiset<(Key, Pointer)>,
                       e: (Key, Pointer), n: nat)
    requires TableHolds(s, contents, pins) && (e.0 in contents ==> contents[e.0] != e.1)
    ensures TableHolds(s, contents, pins[e := n])
  {
    forall p | Used(s, p) ensures SlotHolds(s[p], contents, pins[e := n]) {
      assert SlotHolds(s[p], contents, pins);
    }
  }

  /** One more, or one fewer, pin on the value in slot `p`. */
  lemma {:induction false} SlotPinned(s: seq<Entry<Pointer>>, size: int, allocatedCount: int,
                                      evicted: seq<Entry<Pointer>>, m: Model, p: int, n: nat)
    requires Represents(s, size, allocatedCount, evicted, m) && Used(s, p)
    ensures s[p].key in m.contents
    ensures Represents(s[p := s[p].(pins := n)], size, allocatedCount, evicted,
      m.(pins := m.pins[(s[p].key, m.contents[s[p].key]) := n]))
  {
    assert SlotHolds(s[p], m.contents, m.pins);
    var e := (s[p].key, m.contents[s[p].key]);
    TablePinned(s, p, n, m.contents, m.pins);
    EvictedUntouched(evicted, m.retired, m.pins, e, n);
    PinsKeepConsistent(m, e, n);
    assert NoGaps(s[p := s[p].(pins := n)]) by { SameShape(s, p, s[p].(pins := n)); }
  }

  lemma PinsKeepConsistent(m: Model, e: (Key, Pointer), n: nat)
    requires Consistent(m) && Owned(m, e) && e !in m.retired
    ensures Consistent(m.(pins := m.pins[e := n]))
  {
  }

  lemma SameShape(s: seq<Entry<Pointer>>, p: int, e: Entry<Pointer>)
    requires NoGaps(s) && Used(s, p) && e.inUse && e.key == s[p].key
    ensures NoGaps(s[p := e])
  {
    var t := s[p := e];
    forall i, q | Used(t, i) && OnPath(t, i, q) ensures Used(t, q) { assert Used(s, i) && OnPath(s, i, q); }
  }

  function AfterUnpin(evicted: seq<Entry<Pointer>>, i: nat): seq<Entry<Pointer>>
    requires i < |evicted|
  {
    if evicted[i].pins == 1 then evicted[..i] + evicted[i + 1..]
      else evicted[i := evicted[i].(pins := evicted[i].pins - 1)]
  }

  lemma {:induction false} RetiredRemoved(evicted: seq<Entry<Pointer>>, i: nat, retired: set<(Key, Pointer)>,
                                          pins: multiset<(Key, Pointer)>, e: (Key, Pointer))
    requires EvictedHolds(evicted, retired, pins) && i < |evicted| && evicted[i].key == e.0 &&
      evicted[i].value == Some(e.1)
    ensures EvictedHolds(evicted[..i] + evicted[i + 1..], retired - {e}, pins[e := 0])
  {
    var rest := evicted[..i] + evicted[i + 1..];
    forall j | 0 <= j < |rest| ensures RetiredEntry(rest[j], retired - {e}, pins[e := 0]) {
      var k := if j < i then j else j + 1;
      assert RetiredEntry(evicted[k], retired, pins) &&
        !SamePair(evicted[if k < i then k else i], evicted[if k < i then i else k]);
    }
    forall j, k | 0 <= j < k < |rest| ensures !SamePair(rest[j], rest[k]) {
      assert !SamePair(evicted[if j < i then j else j + 1], evicted[if k < i then k else k + 1]);
    }
    forall p | p in retired - {e} ensures Retired(rest, p) {
      assert Retired(evicted, p);
      var k :| 0 <= k < |evicted| && evicted[k].key == p.0 && evicted[k].value == Some(p.1);
      assert rest[if k < i then k else k - 1] == evicted[k];
    }
  }

  lemma {:induction false} RetiredKept(evicted: seq<Entry<Pointer>>, i: nat, n: nat, retired: set<(Key, Pointer)>,
                                       pins: multiset<(Key, Pointer)>, e: (Key, Pointer))
    requires EvictedHolds(evicted, retired, pins) && i < |evicted| && evicted[i].key == e.0 &&
      evicted[i].value == Some(e.1)
    ensures EvictedHolds(evicted[i := evicted[i].(pins := n)], retired, pins[e := n])
  {
    var now := evicted[i := evicted[i].(pins := n)];
    forall j | 0 <= j < |now| ensures RetiredEntry(now[j], retired, pins[e := n]) {
      assert RetiredEntry(evicted[j], retired, pins) && RetiredEntry(evicted[i], retired, pins);
      if j != i { assert !SamePair(evicted[if j < i then j else i], evicted[if j < i then i else j]); }
    }
    forall j, k | 0 <= j < k < |now| ensures !SamePair(now[j], now[k]) { assert !SamePair(evicted[j], evicted[k]); }
    forall p | p in retired ensures Retired(now, p) {
      assert Retired(evicted, p);
      var k :| 0 <= k < |evicted| && evicted[k].key == p.0 && evicted[k].value == Some(p.1);
      assert now[k].key == p.0;
    }
  }

  /** `Unpin` of a value on the evicted list. */
  lemma {:induction false} RetiredUnpinned(s: seq<Entry<Pointer>>, size: int, allocatedCount: int,
                                           evicted: seq<Entry<Pointer>>, m: Model, i: nat, e: (Key, Pointer))
    requires Represents(s, size, allocatedCount, evicted, m)
    requires i < |evicted| && evicted[i].key == e.0 && evicted[i].value == Some(e.1)
    ensures e in m.retired && e in m.pins && evicted[i].pins == m.pins[e]
    ensures Represents(s, size, allocatedCount - if evicted[i].pins == 1 then 1 else 0, AfterUnpin(evicted, i),
      Unpinned(m, e))
  {
    assert RetiredEntry(evicted[i], m.retired, m.pins);
    TableUntouched(s, m.contents, m.pins, e, m.pins[e] - 1);
    if m.pins[e] == 1 {
      RetiredRemoved(evicted, i, m.retired, m.pins, e);
    } else {
      RetiredKept(evicted, i, m.pins[e] - 1, m.retired, m.pins, e);
    }
    UnpinKeepsConsistent(m, e);
  }

  lemma UnpinKeepsConsistent(m: Model, e: (Key, Pointer))
    requires Consistent(m) && e in m.pins
    ensures Consistent(Unpinned(m, e))
  {
    var n := Unpinned(m, e);
    forall x | x in n.pins ensures Owned(n, x) { assert x in m.pins && Owned(m, x); }
  }

  ghost predicate LocatedBelow(s: seq<Entry<Pointer>>, n: nat, k: Key) {
    exists p :: p < n && Used(s, p) && s[p].key == k
  }

  /** The items in the first `n` slots have been moved, and no others. */
  ghost predicate Moved(s: seq<Entry<Pointer>>, n: nat, contents: map<Key, Pointer>, done: map<Key, Pointer>) {
    && (forall k :: k in done ==> k in contents && done[k] == contents[k])
    && (forall k {:trigger LocatedBelow(s, n, k)} :: k in done ==> LocatedBelow(s, n, k))
    && (forall p {:trigger s[p]} :: 0 <= p < n && Used(s, p) ==> s[p].key in done)
  }

  lemma MovedNext(s: seq<Entry<Pointer>>, n: nat, contents: map<Key, Pointer>, done: map<Key, Pointer>,
                  pins: multiset<(Key, Pointer)>)
    requires TableHolds(s, contents, pins) && Moved(s, n, contents, done) && Used(s, n)
    ensures SlotHolds(s[n], contents, pins) && s[n].key !in done && |done| < |contents|
    ensures Moved(s, n + 1, contents, done[s[n].key := contents[s[n].key]])
  {
    assert SlotHolds(s[n], contents, pins);
    if s[n].key in done {
      assert LocatedBelow(s, n, s[n].key);
      var p :| p < n && Used(s, p) && s[p].key == s[n].key;
      assert SameKey(s, p, n);
    }
    Fewer(done.Keys, contents.Keys, s[n].key);
    forall k | k in done || k == s[n].key ensures LocatedBelow(s, n + 1, k) {
      if k in done { assert LocatedBelow(s, n, k); }
    }
  }

  /** A free slot is passed over. */
  lemma MovedSame(s: seq<Entry<Pointer>>, n: nat, contents: map<Key, Pointer>, done: map<Key, Pointer>)
    requires Moved(s, n, contents, done) && n < |s| && !s[n].inUse
    ensures Moved(s, n + 1, contents, done)
  {
    forall k | k in done ensures LocatedBelow(s, n + 1, k) { assert LocatedBelow(s, n, k); }
  }

  lemma Fewer(a: set<Key>, b: set<Key>, x: Key)
    requires a <= b && x in b && x !in a
    ensures |a| < |b|
  {
    assert |b - a| == |b| - |a| by { assert a + (b - a) == b; }
    assert x in b - a;
  }

  lemma AllMoved(s: seq<Entry<Pointer>>, contents: map<Key, Pointer>, done: map<Key, Pointer>,
                 pins: multiset<(Key, Pointer)>)
    requires TableHolds(s, contents, pins) && Moved(s, |s|, contents, done)
    ensures done == contents
  {
    forall k | k in contents ensures k in done {
      assert Located(s, k);
      var p :| Used(s, p) && s[p].key == k;
    }
  }

  /** A rehash as a step of the representation. */
  lemma Rehoused(s: seq<Entry<Pointer>>, size: int, allocatedCount: int, evicted: seq<Entry<Pointer>>, m: Model,
                 t: seq<Entry<Pointer>>, capacity: nat)
    requires Represents(s, size, allocatedCount, evicted, m) && size <= |t| && NoGaps(t) &&
      TableHolds(t, m.contents, m.pins)
    ensures Represents(t, size, allocatedCount, evicted, m.(capacity := capacity))
  {
  }

  // ---- which values the fields have ----

  predicate InTable(s: seq<Entry<Pointer>>, p: Pointer) {
    exists i :: 0 <= i < |s| && s[i].inUse && s[i].value == Some(p)
  }

  predicate InEvicted(evicted: seq<Entry<Pointer>>, p: Pointer) {
    exists i :: 0 <= i < |evicted| && evicted[i].value == Some(p)
  }

  ghost predicate Live(m: Model, p: Pointer) {
    exists k: Key :: Owned(m, (k, p))
  }

  lemma StoredIsLive(s: seq<Entry<Pointer>>, m: Model, p: Pointer)
    requires TableHolds(s, m.contents, m.pins)
    ensures InTable(s, p) <==> exists k :: k in m.contents && m.contents[k] == p
  {
    if i :| 0 <= i < |s| && s[i].inUse && s[i].value == Some(p) {
      assert Used(s, i) && SlotHolds(s[i], m.contents, m.pins);
    }
    if k :| k in m.contents && m.contents[k] == p {
      assert Located(s, k);
      var i :| Used(s, i) && s[i].key == k;
      assert SlotHolds(s[i], m.contents, m.pins);
    }
  }

  lemma RetiredIsLive(evicted: seq<Entry<Pointer>>, m: Model, p: Pointer)
    requires EvictedHolds(evicted, m.retired, m.pins)
    ensures InEvicted(evicted, p) <==> exists k: Key :: (k, p) in m.retired
  {
    if i :| 0 <= i < |evicted| && evicted[i].value == Some(p) { assert RetiredEntry(evicted[i], m.retired, m.pins); }
    if k: Key :| (k, p) in m.retired { assert Retired(evicted, (k, p)); }
  }

  // ---- the class ----

  /** `static_cast<size_t>(capacity * kLoadFactor + 1)` with `kLoadFactor = 1.9`. */
  function Slots(capacity: nat): (n: nat)
    ensures n > capacity
  {
    (capacity as real * 1.9 + 1.0).Floor
  }

  class HashKeyedCache {
    var capacity: nat
    var size: int
    var allocatedCount: int
    /** Fresh in back, stale at front. */
    var insertionOrder: seq<Key>
    var evicted: seq<Entry<Pointer>>
    var hash: array<Entry<Pointer>>
    ghost var model: Model

    ghost predicate Holds()
      reads this, hash
    {
      && capacity == model.capacity < hash.Length && insertionOrder == model.queue
      && Represents(hash[..], size, allocatedCount, evicted, model)
    }

    /** The invariant between calls: at most `capacity` entries, so some slot is free. */
    ghost predicate Valid()
      reads this, hash
    {
      Holds() && |model.queue| <= capacity
    }

    constructor (capacity: nat)
      ensures Valid() && model == Model(capacity, map[], [], multiset{}, {}) && fresh(hash)
    {
      this.capacity := capacity;
      size, allocatedCount := 0, 0;
      insertionOrder, evicted := [], [];
      hash := new Entry<Pointer>[Slots(capacity)](_ => Entry(0, None, 0, false));
      model := Model(capacity, map[], [], multiset{}, {});
      new;
      NoneUsed(hash[..], hash.Length);
    }

    /** Some `unique_ptr` of the table or of the evicted list still has the value. */
    predicate HasValue(p: Pointer)
      reads this, hash
    {
      InTable(hash[..], p) || InEvicted(evicted, p)
    }

    /** The values the fields have are the ones the model owns; all others have been freed. */
    lemma HasExactlyOwned(p: Pointer)
      requires Valid()
      ensures HasValue(p) <==> Live(model, p)
    {
      StoredIsLive(hash[..], model, p);
      RetiredIsLive(evicted, model, p);
    }

    /** The probing loop of `Insert`, `ContainsKey` and `LookupAndPin`: stops at the key or at a free slot. */
    method Probe(key: Key) returns (idx: int)
      requires Valid()
      ensures 0 <= idx < hash.Length
      ensures hash[idx].inUse ==> hash[idx].key == key && key in model.contents
      ensures !hash[idx].inUse ==> key !in model.contents && ProbedTo(hash[..], key, idx)
    {
      var n := hash.Length;
      ghost var s := hash[..];
      FreeSlotExists(s, n);
      ghost var free :| 0 <= free < n && !s[free].inUse;
      idx := Home(key, n);
      while hash[idx].inUse && hash[idx].key != key
        invariant 0 <= idx < n && ProbedTo(s, key, idx)
        invariant Dist(Home(key, n), idx, n) <= Dist(Home(key, n), free, n)
        decreases Dist(idx, free, n)
      {
        ProbeAdvances(s, key, idx, free);
        idx := Next(idx, n);
      }
      if !hash[idx].inUse {
        ProbeMisses(s, key, idx);
        assert key in model.contents ==> Located(s, key);
      } else {
        assert Used(s, idx) && SlotHolds(s[idx], model.contents, model.pins);
      }
    }

    method ContainsKey(key: Key) returns (r: bool)
      requires Valid()
      ensures r <==> key in model.contents
    {
      if capacity == 0 { return false; }
      var idx := Probe(key);
      r := hash[idx].inUse;
    }

    method Insert(key: Key, value: Pointer)
      requires Valid() && FreshValue(model, value)
      modifies this, hash
      ensures Valid() && hash == old(hash)
      ensures Consistent(old(model)) && FreshValue(old(model), value) && model == Inserted(old(model), key, value)
    {
      if capacity == 0 { return; }
      ghost var m, s := model, hash[..];
      var idx := Probe(key);
      if hash[idx].inUse { return; }
      var e := Entry(key, Some(value), 0, true);
      hash[idx] := e;
      insertionOrder := insertionOrder + [key];
      size := size + 1;
      allocatedCount := allocatedCount + 1;
      model := Added(m, key, value);
      assert hash[..] == s[idx := e];
      NewestAdded(s, size - 1, allocatedCount - 1, evicted, m, idx, e);
      EvictToCapacity(capacity);
    }

    method LookupAndPin(key: Key) returns (r: Option<Pointer>)
      requires Valid()
      modifies this`model, hash
      ensures Valid() && (model, r) == LookedUp(old(model), key)
    {
      if capacity == 0 { return None; }
      ghost var m, s := model, hash[..];
      var idx := Probe(key);
      if !hash[idx].inUse { return None; }
      assert Used(s, idx) && SlotHolds(s[idx], m.contents, m.pins);
      hash[idx] := hash[idx].(pins := hash[idx].pins + 1);
      model := LookedUp(m, key).0;
      SlotPinned(s, size, allocatedCount, evicted, m, idx, s[idx].pins + 1);
      assert hash[..] == s[idx := hash[idx]];
      r := hash[idx].value;
    }

    /** The pinned value is searched on the evicted list first, by key and pointer, then in the table. */
    method Unpin(key: Key, value: Pointer)
      requires Valid() && (key, value) in model.pins
      modifies this`model, this`evicted, this`allocatedCount, hash
      ensures Valid() && model == Unpinned(old(model), (key, value))
    {
      var i := FindEvicted(key, value);
      if i < |evicted| {
        UnpinEvicted(i, key, value);
      } else {
        assert Owned(model, (key, value));
        UnpinStored(key, value);
      }
    }

    method FindEvicted(key: Key, value: Pointer) returns (i: nat)
      requires Valid()
      ensures i < |evicted| ==> evicted[i].key == key && evicted[i].value == Some(value)
      ensures i >= |evicted| ==> (key, value) !in model.retired
    {
      i := 0;
      while i < |evicted| && !(evicted[i].key == key && evicted[i].value == Some(value))
        invariant i <= |evicted|
        invariant forall j :: 0 <= j < i ==> !(evicted[j].key == key && evicted[j].value == Some(value))
      {
        i := i + 1;
      }
      assert i >= |evicted| ==> !Retired(evicted, (key, value));
    }

    method UnpinEvicted(i: nat, key: Key, value: Pointer)
      requires Valid() && i < |evicted| && evicted[i].key == key && evicted[i].value == Some(value)
      modifies this`model, this`evicted, this`allocatedCount
      ensures Valid() && (key, value) in old(model).pins && model == Unpinned(old(model), (key, value))
    {
      ghost var m, s, was, before := model, hash[..], evicted, allocatedCount;
      RetiredUnpinned(s, size, before, was, m, i, (key, value));
      if evicted[i].pins == 1 {
        allocatedCount := allocatedCount - 1;
        evicted := evicted[..i] + evicted[i + 1..];
      } else {
        evicted := evicted[i := evicted[i].(pins := evicted[i].pins - 1)];
      }
      model := Unpinned(m, (key, value));
      assert hash[..] == s;
    }

    method UnpinStored(key: Key, value: Pointer)
      requires Valid() && (key, value) in model.pins && (key, value) !in model.retired && Owned(model, (key, value))
      modifies this`model, hash
      ensures Valid() && model == Unpinned(old(model), (key, value))
    {
      ghost var m, s := model, hash[..];
      var idx := FindPair(key, value);
      assert Used(s, idx) && SlotHolds(s[idx], m.contents, m.pins);
      hash[idx] := hash[idx].(pins := hash[idx].pins - 1);
      model := Unpinned(m, (key, value));
      SlotPinned(s, size, allocatedCount, evicted, m, idx, s[idx].pins - 1);
      assert m.retired - {(key, value)} == m.retired;
      assert hash[..] == s[idx := hash[idx]];
    }

    /** The table search of `Unpin`: no free slot is met before the value. */
    method FindPair(key: Key, value: Pointer) returns (idx: int)
      requires Valid() && key in model.contents && model.contents[key] == value
      ensures 0 <= idx < hash.Length && hash[idx].inUse && hash[idx].key == key && hash[idx].value == Some(value)
    {
      var n := hash.Length;
      ghost var s := hash[..];
      assert Located(s, key);
      ghost var at :| Used(s, at) && s[at].key == key;
      assert SlotHolds(s[at], model.contents, model.pins);
      idx := Home(key, n);
      while hash[idx].inUse && !(hash[idx].key == key && hash[idx].value == Some(value))
        invariant 0 <= idx < n
        invariant Dist(Home(key, n), idx, n) <= Dist(Home(key, n), at, n)
        decreases Dist(idx, at, n)
      {
        idx := Next(idx, n);
      }
      assert idx != at ==> OnPath(s, at, idx);
      assert Used(s, idx);
    }

    /** Evicts down to the new capacity, then moves every item into a table of the new size. */
    method SetCapacity(limit: nat)
      requires Valid()
      modifies this, hash
      ensures Valid() && (hash == old(hash) || fresh(hash))
      ensures Consistent(old(model)) && model == Resized(old(model), limit)
    {
      if capacity == limit { return; }
      EvictToCapacity(limit);
      ghost var m, s := model, hash[..];
      capacity := limit;
      assert hash[..] == s;
      var newHash := Rehashed(limit);
      hash := newHash;
      model := m.(capacity := limit);
      Rehoused(s, size, allocatedCount, evicted, m, hash[..], limit);
    }

    /** The rehash loop: slots are probed for a free one without looking at keys, since no key occurs twice. */
    method Rehashed(limit: nat) returns (newHash: array<Entry<Pointer>>)
      requires |model.contents| == size <= limit && NoGaps(hash[..]) && TableHolds(hash[..], model.contents, model.pins)
      ensures fresh(newHash) && newHash.Length == Slots(limit)
      ensures NoGaps(newHash[..]) && TableHolds(newHash[..], model.contents, model.pins)
    {
      newHash := EmptyTable(Slots(limit), model.pins);
      if size != 0 {
        MoveItems(hash, newHash, model.contents, model.pins);
      } else {
        assert model.contents == map[];
      }
    }

    static method MoveItems(table: array<Entry<Pointer>>, newHash: array<Entry<Pointer>>,
                            ghost contents: map<Key, Pointer>, ghost pins: multiset<(Key, Pointer)>)
      requires newHash != table && |contents| < newHash.Length && TableHolds(table[..], contents, pins)
      requires NoGaps(newHash[..]) && TableHolds(newHash[..], map[], pins)
      modifies newHash
      ensures NoGaps(newHash[..]) && TableHolds(newHash[..], contents, pins)
    {
      ghost var s := table[..];
      ghost var done: map<Key, Pointer> := map[];
      var i := 0;
      while i < table.Length
        invariant 0 <= i <= table.Length && table[..] == s
        invariant NoGaps(newHash[..]) && TableHolds(newHash[..], done, pins) && Moved(s, i, contents, done)
      {
        done := MoveSlot(newHash, table[i], s, i, contents, done, pins);
        i := i + 1;
      }
      AllMoved(s, contents, done, pins);
    }

    static method EmptyTable(n: nat, ghost pins: multiset<(Key, Pointer)>) returns (t: array<Entry<Pointer>>)
      requires n > 0
      ensures fresh(t) && t.Length == n && NoGaps(t[..]) && TableHolds(t[..], map[], pins)
    {
      t := new Entry<Pointer>[n](_ => Entry(0, None, 0, false));
      NoneUsed(t[..], n);
    }

    /** One round of the rehash loop. */
    static method MoveSlot(newHash: array<Entry<Pointer>>, item: Entry<Pointer>, ghost s: seq<Entry<Pointer>>,
                           ghost i: nat, ghost contents: map<Key, Pointer>, ghost done: map<Key, Pointer>,
                           ghost pins: multiset<(Key, Pointer)>)
      returns (ghost now: map<Key, Pointer>)
      requires TableHolds(s, contents, pins) && Moved(s, i, contents, done) && i < |s| && item == s[i] &&
        |contents| < newHash.Length
      requires NoGaps(newHash[..]) && TableHolds(newHash[..], done, pins)
      modifies newHash
      ensures NoGaps(newHash[..]) && TableHolds(newHash[..], now, pins) && Moved(s, i + 1, contents, now)
    {
      now := done;
      if item.inUse {
        MovedNext(s, i, contents, done, pins);
        Rehouse(newHash, item, done, pins);
        now := done[item.key := contents[item.key]];
      } else {
        MovedSame(s, i, contents, done);
      }
    }

    /** One item of the rehash loop. */
    static method Rehouse(newHash: array<Entry<Pointer>>, item: Entry<Pointer>, ghost done: map<Key, Pointer>,
                          ghost pins: multiset<(Key, Pointer)>)
      requires NoGaps(newHash[..]) && TableHolds(newHash[..], done, pins) && |done| < newHash.Length
      requires item.inUse && item.key !in done && item.value.Some? && item.pins == pins[(item.key, item.value.value)]
      modifies newHash
      ensures NoGaps(newHash[..]) && TableHolds(newHash[..], done[item.key := item.value.value], pins)
    {
      ghost var t := newHash[..];
      var idx := FreeSlot(newHash, item.key, done, pins);
      newHash[idx] := item;
      StoreKeepsNoGaps(t, idx, item);
      TableStored(t, idx, item, done, pins);
      assert newHash[..] == t[idx := item];
    }

    static method FreeSlot(newHash: array<Entry<Pointer>>, key: Key, ghost done: map<Key, Pointer>,
                           ghost pins: multiset<(Key, Pointer)>) returns (idx: int)
      requires TableHolds(newHash[..], done, pins) && |done| < newHash.Length && key !in done
      ensures 0 <= idx < newHash.Length && !newHash[idx].inUse && ProbedTo(newHash[..], key, idx)
    {
      ghost var t, n := newHash[..], newHash.Length;
      FreeSlotExists(t, n);
      ghost var free :| 0 <= free < n && !t[free].inUse;
      idx := Home(key, newHash.Length);
      while newHash[idx].inUse
        invariant 0 <= idx < n && ProbedTo(t, key, idx)
        invariant Dist(Home(key, n), idx, n) <= Dist(Home(key, n), free, n)
        decreases Dist(idx, free, n)
      {
        assert Used(t, idx) && SlotHolds(t[idx], done, pins);
        ProbeAdvances(t, key, idx, free);
        idx := Next(idx, newHash.Length);
      }
    }

    method Clear()
      requires Valid()
      modifies this, hash
      ensures Valid() && hash == old(hash) && Consistent(old(model)) && model == EvictTo(old(model), 0)
    {
      EvictToCapacity(0);
    }

    /** The destructor, whose two assertions hold when nothing is pinned any more. */
    method Destroy()
      requires Valid() && model.pins == multiset{}
      modifies this, hash
      ensures size == 0 && allocatedCount == 0
    {
      EvictToCapacity(0);
      assert |evicted| > 0 ==> RetiredEntry(evicted[0], model.retired, model.pins);
    }

    method GetSize() returns (r: int)
      requires Valid()
      ensures r == |model.contents| <= capacity
    {
      r := size;
    }

    /** The key search of `EvictItem`, which runs over free slots too. */
    method Find(key: Key) returns (idx: int)
      requires Located(hash[..], key)
      ensures 0 <= idx < hash.Length && hash[idx].inUse && hash[idx].key == key
    {
      var n := hash.Length;
      ghost var at :| Used(hash[..], at) && hash[..][at].key == key;
      idx := Home(key, n);
      while !(hash[idx].inUse && hash[idx].key == key)
        invariant 0 <= idx < n
        decreases Dist(idx, at, n)
      {
        idx := Next(idx, n);
      }
    }

    /** Backward-shift deletion from the freed slot `hole`. It ends because every swap brings an item closer to home and
        otherwise the scan comes closer to the hole, also when the table was full. */
    method CloseHole(hole: int, ghost contents: map<Key, Pointer>, ghost pins: multiset<(Key, Pointer)>)
      requires 0 <= hole < hash.Length && OneHole(hash[..], hole, Next(hole, hash.Length))
      requires TableHolds(hash[..], contents, pins)
      modifies hash
      ensures NoGaps(hash[..]) && TableHolds(hash[..], contents, pins)
    {
      var n := hash.Length;
      var idx, next := hole, Next(hole, n);
      while hash[next].inUse
        invariant 0 <= idx < n && 0 <= next < n
        invariant OneHole(hash[..], idx, next) && TableHolds(hash[..], contents, pins)
        decreases Displacement(hash[..], n), n - Scanned(idx, next, n)
      {
        ghost var s := hash[..];
        var target := Home(hash[next].key, n);
        if !InRange(target, idx + 1, next) {
          HoleMoved(s, s[idx := s[next]][next := s[idx]], idx, next);
          TableSwapped(s, idx, next, contents, pins);
          SwapLowersDisplacement(s, idx, next);
          hash[next], hash[idx] := hash[idx], hash[next];
          assert hash[..] == s[idx := s[next]][next := s[idx]];
          idx := next;
        } else {
          HolePassed(s, idx, next);
        }
        next := Next(next, n);
      }
      HoleHarmless(hash[..], idx, next);
    }

    /** The first half of `EvictItem`: take the item out of its slot, onto the evicted list if it is pinned. */
    method Unlink(idx: int)
      requires 0 <= idx < hash.Length && hash[idx].inUse && hash[idx].pins >= 0
      modifies this`allocatedCount, this`evicted, hash
      ensures !hash[idx].inUse && hash[..] == old(hash[..])[idx := hash[idx]]
      ensures allocatedCount == old(allocatedCount) - if old(hash[idx].pins) == 0 then 1 else 0
      ensures evicted == AfterUnlink(old(evicted), old(hash[idx]))
    {
      if hash[idx].pins == 0 {
        allocatedCount := allocatedCount - 1;
        hash[idx] := hash[idx].(value := None, inUse := false);
      } else {
        evicted := evicted + [Entry(hash[idx].key, hash[idx].value, hash[idx].pins, false)];
        hash[idx] := hash[idx].(value := None, pins := 0, inUse := false);
      }
    }

    /** The second half: the item leaves the table and no key becomes unreachable. */
    method Remove(idx: int, ghost contents: map<Key, Pointer>, ghost pins: multiset<(Key, Pointer)>)
      requires 0 <= idx < hash.Length && hash[idx].inUse && hash[idx].pins >= 0
      requires NoGaps(hash[..]) && TableHolds(hash[..], contents, pins)
      modifies this`allocatedCount, this`evicted, hash
      ensures NoGaps(hash[..]) && TableHolds(hash[..], contents - {old(hash[idx].key)}, pins)
      ensures allocatedCount == old(allocatedCount) - if old(hash[idx].pins) == 0 then 1 else 0
      ensures evicted == AfterUnlink(old(evicted), old(hash[idx]))
    {
      ghost var s := hash[..];
      assert Used(s, idx);
      Unlink(idx);
      HoleMade(s, hash[..], idx);
      TableFreed(s, idx, hash[idx], contents, pins);
      CloseHole(idx, contents - {s[idx].key}, pins);
    }

    /** The whole removal: find the key, unlink its item, close the hole. */
    method RemoveKey(key: Key, ghost contents: map<Key, Pointer>, ghost pins: multiset<(Key, Pointer)>)
      returns (ghost e: Entry<Pointer>)
      requires NoGaps(hash[..]) && TableHolds(hash[..], contents, pins) && key in contents
      modifies this`allocatedCount, this`evicted, hash
      ensures e.key == key && SlotHolds(e, contents, pins)
      ensures NoGaps(hash[..]) && TableHolds(hash[..], contents - {key}, pins)
      ensures allocatedCount == old(allocatedCount) - if e.pins == 0 then 1 else 0
      ensures evicted == AfterUnlink(old(evicted), e)
    {
      assert Located(hash[..], key);
      var idx := Find(key);
      OldestFound(hash[..], idx, contents, pins);
      e := hash[idx];
      Remove(idx, contents, pins);
    }

    /** What `EvictItem` does to the table and to the evicted list. */
    method EvictKey(key: Key, ghost m: Model)
      requires Represents(hash[..], size + 1, allocatedCount, evicted, m) && m.queue != [] && key == m.queue[0]
      modifies this`allocatedCount, this`evicted, hash
      ensures Represents(hash[..], size, allocatedCount, evicted, EvictOldest(m))
    {
      ghost var s, was, before := hash[..], evicted, allocatedCount;
      assert key in m.queue;
      ghost var e := RemoveKey(key, m.contents, m.pins);
      OldestEvicted(s, size + 1, before, was, m, hash[..], e);
    }

    /** `EvictItem`: the oldest entry leaves; its value is freed unless it is pinned. */
    method EvictItem()
      requires Holds() && model.queue != []
      modifies this, hash
      ensures Holds() && model == EvictOldest(old(model)) && hash == old(hash)
    {
      ghost var m, s := model, hash[..];
      size := size - 1;
      var key := insertionOrder[0];
      insertionOrder := insertionOrder[1..];
      model := EvictOldest(m);
      assert hash[..] == s;
      EvictKey(key, m);
    }

    method EvictToCapacity(limit: nat)
      requires Holds()
      modifies this, hash
      ensures Holds() && hash == old(hash) && Consistent(old(model)) && model == EvictTo(old(model), limit)
    {
      while size > limit
        invariant Holds() && hash == old(hash) && Consistent(old(model))
        invariant EvictTo(model, limit) == EvictTo(old(model), limit)
        decreases size
      {
        EvictItem();
      }
    }
  }
}
