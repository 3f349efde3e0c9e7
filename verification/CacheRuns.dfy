// What a user of the cache can rely on over whole sequences of calls: FIFO order, the capacity bound, and that a pinned
// value outlives everything done to the cache until its last pin is returned.

module CacheRuns {
  import opened Ring
  import opened Cache

  datatype Call =
    | InsertCall(key: Key, value: Pointer)
    | LookupCall(key: Key)
    | UnpinCall(pair: (Key, Pointer))
    | ResizeCall(capacity: nat)
    | ClearCall

  /** Values come from a `unique_ptr`; a pin is returned at most once. */
  ghost predicate Allowed(m: Model, c: Call) {
    match c
    case InsertCall(_, v) => FreshValue(m, v)
    case UnpinCall(e) => e in m.pins
    case _ => true
  }

  ghost predicate Good(m: Model) {
    Consistent(m) && |m.queue| <= m.capacity
  }

  ghost function Apply(m: Model, c: Call): (r: Model)
    requires Good(m) && Allowed(m, c)
    ensures Good(r)
  {
    match c
    case InsertCall(k, v) => Inserted(m, k, v)
    case LookupCall(k) => LookedUp(m, k).0
    case UnpinCall(e) => UnpinKeepsConsistent(m, e); Unpinned(m, e)
    case ResizeCall(n) => Resized(m, n)
    case ClearCall => EvictTo(m, 0)
  }

  ghost predicate IsRun(m: Model, calls: seq<Call>)
    requires Good(m)
    decreases |calls|
  {
    calls == [] || (Allowed(m, calls[0]) && IsRun(Apply(m, calls[0]), calls[1..]))
  }

  ghost function Outcome(m: Model, calls: seq<Call>): (r: Model)
    requires Good(m) && IsRun(m, calls)
    ensures Good(r)
    decreases |calls|
  {
    if calls == [] then m else Outcome(Apply(m, calls[0]), calls[1..])
  }

  // ---- eviction is first in, first out ----

  function Dropped(m: Model, limit: nat): nat {
    if |m.queue| < limit then 0 else |m.queue| - limit
  }

  /** Eviction drops exactly the oldest entries beyond the limit; the others keep their values. */
  lemma {:induction false} EvictionIsFifo(m: Model, limit: nat)
    requires Consistent(m)
    ensures EvictTo(m, limit).queue == m.queue[Dropped(m, limit)..]
    ensures forall k :: k in EvictTo(m, limit).contents ==>
      k in m.contents && EvictTo(m, limit).contents[k] == m.contents[k]
    decreases |m.queue|
  {
    if |m.queue| > limit {
      EvictKeepsConsistent(m);
      EvictionIsFifo(EvictOldest(m), limit);
      assert m.queue[1..][Dropped(m, limit) - 1..] == m.queue[Dropped(m, limit)..];
    }
  }

  /** The dropped values that are pinned, and only those, are kept aside. */
  lemma {:induction false} EvictionKeepsPinned(m: Model, limit: nat, e: (Key, Pointer))
    requires Consistent(m)
    ensures e in EvictTo(m, limit).retired <==>
      e in m.retired || (e in m.pins && e.0 in m.queue[..Dropped(m, limit)] && e.0 in m.contents &&
        m.contents[e.0] == e.1)
    decreases |m.queue|
  {
    if |m.queue| > limit {
      EvictKeepsConsistent(m);
      var next, n := EvictOldest(m), Dropped(m, limit);
      EvictionKeepsPinned(next, limit, e);
      FirstDropped(m.queue, n, e.0);
      assert next.queue[..n - 1] == m.queue[1..][..n - 1];
    }
  }

  lemma FirstDropped(queue: seq<Key>, n: nat, k: Key)
    requires 0 < n <= |queue|
    ensures k in queue[..n] <==> k == queue[0] || k in queue[1..][..n - 1]
  {
    assert queue[..n] == [queue[0]] + queue[1..][..n - 1];
  }

  /** A change of the capacity drops the oldest entries beyond the new limit, whatever the old one was, and nothing
      else: the others keep their order, their values and their pins, and dropped values are kept aside only while
      pinned. */
  lemma ResizeIsFifo(m: Model, capacity: nat)
    requires Good(m)
    ensures var r, n := Resized(m, capacity), Dropped(m, capacity);
      && r.capacity == capacity && r.queue == m.queue[n..] && r.pins == m.pins
      && (forall k :: k in r.contents <==> k in m.queue[n..])
      && (forall k :: k in r.contents ==> k in m.contents && r.contents[k] == m.contents[k])
      && (forall e :: e in r.retired <==>
            e in m.retired || (e in m.pins && e.0 in m.queue[..n] && e.0 in m.contents && m.contents[e.0] == e.1))
  {
    EvictionIsFifo(m, capacity);
    forall e ensures e in EvictTo(m, capacity).retired <==>
      e in m.retired || (e in m.pins && e.0 in m.queue[..Dropped(m, capacity)] && e.0 in m.contents &&
        m.contents[e.0] == e.1)
    {
      EvictionKeepsPinned(m, capacity, e);
    }
    assert forall k :: k in EvictTo(m, capacity).queue <==> k in EvictTo(m, capacity).contents;
  }

  /** `key` is the `age`-th youngest entry, counted from 0. */
  predicate Aged(m: Model, key: Key, age: nat) {
    age < |m.queue| && m.queue[|m.queue| - 1 - age] == key
  }

  function Inserts(calls: seq<Call>): nat {
    if calls == [] then 0 else (if calls[0].InsertCall? then 1 else 0) + Inserts(calls[1..])
  }

  /** The call leaves room for `room` entries. */
  predicate LeavesRoom(c: Call, room: nat) {
    !c.ClearCall? && (c.ResizeCall? ==> room <= c.capacity)
  }

  ghost predicate Roomy(calls: seq<Call>, room: nat) {
    forall i :: 0 <= i < |calls| ==> LeavesRoom(calls[i], room)
  }

  lemma RoomyLater(calls: seq<Call>, room: nat, less: nat)
    requires calls != [] && Roomy(calls, room) && less <= room
    ensures Roomy(calls[1..], less)
  {
    forall i | 0 <= i < |calls| - 1 ensures LeavesRoom(calls[1..][i], less) { assert LeavesRoom(calls[i + 1], room); }
  }

  lemma InsertionAges(m: Model, key: Key, age: nat, newKey: Key, v: Pointer)
    requires Good(m) && FreshValue(m, v) && newKey !in m.contents && Aged(m, key, age) && key in m.contents &&
      age + 1 < m.capacity
    ensures var r := Inserted(m, newKey, v);
      key in r.contents && r.contents[key] == m.contents[key] && Aged(r, key, age + 1)
  {
    InsertKeepsConsistent(m, newKey, v);
    var added := Added(m, newKey, v);
    EvictionIsFifo(added, m.capacity);
    var r := EvictTo(added, m.capacity);
    var i := |added.queue| - 1 - (age + 1);
    assert added.queue[i] == key;
    assert r.queue[i - Dropped(added, m.capacity)] == added.queue[i];
    assert key in r.queue;
  }

  lemma ResizingAges(m: Model, key: Key, age: nat, capacity: nat)
    requires Good(m) && Aged(m, key, age) && key in m.contents && age < capacity
    ensures var r := Resized(m, capacity);
      key in r.contents && r.contents[key] == m.contents[key] && Aged(r, key, age)
  {
    EvictionIsFifo(m, capacity);
    var r, n := Resized(m, capacity), Dropped(m, capacity);
    assert r.queue == m.queue[n..];
    assert r.queue[|r.queue| - 1 - age] == m.queue[|m.queue| - 1 - age];
    assert key in r.queue;
  }

  lemma AgesByOne(m: Model, c: Call, key: Key, age: nat)
    requires Good(m) && Allowed(m, c) && LeavesRoom(c, age + 1) && Aged(m, key, age) && key in m.contents
    requires age + (if c.InsertCall? then 1 else 0) < m.capacity
    ensures var r := Apply(m, c);
      && key in r.contents && r.contents[key] == m.contents[key]
      && r.capacity == (if c.ResizeCall? then c.capacity else m.capacity)
      && (Aged(r, key, age) || (c.InsertCall? && Aged(r, key, age + 1)))
  {
    if c.InsertCall? && c.key !in m.contents { InsertionAges(m, key, age, c.key, c.value); }
    if c.ResizeCall? { ResizingAges(m, key, age, c.capacity); }
  }

  /** An entry survives as long as fewer than `capacity` entries are younger: no sequence of insertions, lookups, unpins
      and resizings with at most `capacity - 1 - age` insertions, `capacity` being the least of the run, removes or
      replaces it. */
  lemma {:induction false} YoungEntriesSurvive(m: Model, calls: seq<Call>, key: Key, age: nat)
    requires Good(m) && IsRun(m, calls) && Aged(m, key, age) && key in m.contents
    requires Roomy(calls, age + Inserts(calls) + 1) && age + Inserts(calls) < m.capacity
    ensures var r := Outcome(m, calls); key in r.contents && r.contents[key] == m.contents[key]
    decreases |calls|
  {
    if calls != [] {
      var c, room := calls[0], age + Inserts(calls) + 1;
      assert LeavesRoom(calls[0], room);
      AgesByOne(m, c, key, age);
      var next := Apply(m, c);
      var now := if Aged(next, key, age) then age else age + 1;
      RoomyLater(calls, room, now + Inserts(calls[1..]) + 1);
      YoungEntriesSurvive(next, calls[1..], key, now);
    }
  }

  /** A newly inserted key is found with its value, and is the youngest entry. */
  lemma InsertedIsYoungest(m: Model, key: Key, v: Pointer)
    requires Good(m) && FreshValue(m, v) && m.capacity > 0 && key !in m.contents
    ensures var r := Inserted(m, key, v); key in r.contents && r.contents[key] == v && Aged(r, key, 0)
  {
    InsertKeepsConsistent(m, key, v);
    EvictionIsFifo(Added(m, key, v), m.capacity);
    var r := Inserted(m, key, v);
    assert r.queue[|r.queue| - 1] == key;
    assert key in r.queue;
  }

  // ---- pins ----

  /** Pins taken on `e`: lookups that returned it. */
  ghost function Taken(m: Model, calls: seq<Call>, e: (Key, Pointer)): nat
    requires Good(m) && IsRun(m, calls)
    decreases |calls|
  {
    if calls == [] then 0
    else (if calls[0].LookupCall? && calls[0].key == e.0 && LookedUp(m, e.0).1 == Some(e.1) then 1 else 0)
         + Taken(Apply(m, calls[0]), calls[1..], e)
  }

  function Returned(calls: seq<Call>, e: (Key, Pointer)): nat {
    if calls == [] then 0 else (if calls[0] == UnpinCall(e) then 1 else 0) + Returned(calls[1..], e)
  }

  /** Outstanding pins are conserved, and while a value has any it has not been freed: through eviction, through
      insertion of another value under its key, through resizing and clearing. */
  lemma {:induction false} PinnedIsNeverFreed(m: Model, calls: seq<Call>, e: (Key, Pointer))
    requires Good(m) && IsRun(m, calls)
    ensures Outcome(m, calls).pins[e] == m.pins[e] + Taken(m, calls, e) - Returned(calls, e)
    ensures m.pins[e] + Taken(m, calls, e) > Returned(calls, e) ==> Owned(Outcome(m, calls), e)
    decreases |calls|
  {
    if calls != [] {
      PinnedIsNeverFreed(Apply(m, calls[0]), calls[1..], e);
    }
  }

  /** Once evicted while pinned, a value leaves the cache with its last pin, whatever was inserted under its key. */
  lemma LastPinFrees(m: Model, e: (Key, Pointer))
    requires Good(m) && e in m.retired
    ensures e in m.pins
    ensures Owned(Unpinned(m, e), e) <==> m.pins[e] > 1
  {
    assert e.0 in m.contents ==> m.contents[e.0] != e.1;
  }

  // ---- what `allocated_` counts ----

  lemma {:induction false} EvictedCount(evicted: seq<Entry<Pointer>>, retired: set<(Key, Pointer)>,
                                        pins: multiset<(Key, Pointer)>)
    requires EvictedHolds(evicted, retired, pins)
    ensures |evicted| == |retired|
    decreases |evicted|
  {
    if evicted == [] {
      assert forall p :: p in retired ==> Retired(evicted, p);
      assert retired == {};
    } else {
      var e := (evicted[0].key, evicted[0].value.value);
      assert RetiredEntry(evicted[0], retired, pins);
      RetiredRemoved(evicted, 0, retired, pins, e);
      assert evicted[..0] + evicted[1..] == evicted[1..];
      EvictedCount(evicted[1..], retired - {e}, pins[e := 0]);
    }
  }

  /** The values alive are those in the table and those evicted while pinned, each counted once. */
  lemma AllocatedCountsLiveValues(s: seq<Entry<Pointer>>, size: int, allocatedCount: int, evicted: seq<Entry<Pointer>>,
                                  m: Model)
    requires Represents(s, size, allocatedCount, evicted, m)
    ensures allocatedCount == |m.contents| + |m.retired|
  {
    EvictedCount(evicted, m.retired, m.pins);
  }
}
