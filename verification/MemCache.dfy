// The caching backend: results come from the cache or from the wrapped backend, and nobody can tell the difference.
// Here are the single calls; MemCacheRuns.dfy interleaves their steps.

module MemCache {
  import opened Ring
  import opened Cache

  /** What the network says about a position; `p` has one entry for each legal move. */
  datatype Eval = Eval(q: real, d: real, m: real, p: seq<real>)

  /** `p` is missing when the position was first queried without its legal moves. */
  datatype CachedValue = CachedValue(q: real, d: real, m: real, p: Option<seq<real>>, numMoves: nat)

  /** A position by its hash, the number of legal moves passed along, and the room for policy in the result. */
  datatype Query = Query(key: Key, moves: nat, room: nat)

  datatype Reply = Reply(q: real, d: real, m: real, p: seq<real>)

  /** The assertion at the head of `AddInput`; and equal hashes mean equal legal-move lists. */
  ghost predicate Fair(wrapped: Key -> Eval, x: Query) {
    (x.moves == x.room || x.room == 0) && (x.moves == 0 || x.moves == |wrapped(x.key).p|)
  }

  /** The reply the wrapped backend itself would give. */
  ghost predicate Delivers(wrapped: Key -> Eval, x: Query, r: Reply) {
    var e := wrapped(x.key);
    r.q == e.q && r.d == e.d && r.m == e.m && r.p == if x.room == 0 then [] else e.p
  }

  /** The cached value agrees with the network, and its policy is whole if it is there. */
  ghost predicate Agrees(wrapped: Key -> Eval, key: Key, v: CachedValue) {
    var e := wrapped(key);
    && v.q == e.q && v.d == e.d && v.m == e.m
    && (v.p.Some? ==> v.p.value == e.p && v.numMoves == |e.p|)
  }

  /** As many entries are stored as `room` asks for. */
  predicate Enough(v: CachedValue, room: nat) {
    room > 0 ==> v.p.Some? && room <= |v.p.value|
  }

  function ReplyOf(v: CachedValue, room: nat): Reply
    requires Enough(v, room)
  {
    Reply(v.q, v.d, v.m, if room == 0 then [] else v.p.value[..room])
  }

  /** `CachedValueToEvalResult`. It copies `room` entries, so as many must be stored. */
  method CachedValueToEvalResult(v: CachedValue, room: nat) returns (r: Reply)
    requires Enough(v, room)
    ensures r == ReplyOf(v, room)
  {
    r := Reply(v.q, v.d, v.m, if v.p.None? then [] else v.p.value[..room]);
  }

  /** `GetCachedEvaluation` while it holds the lock. */
  method CachedValueToEval(ghost wrapped: Key -> Eval, x: Query, c: CachedValue) returns (r: Option<Eval>)
    requires Fair(wrapped, x) && Agrees(wrapped, x.key, c)
    ensures r.Some? <==> Answers(c, x)
    ensures r.Some? ==> r.value == wrapped(x.key).(p := if x.moves == 0 then [] else wrapped(x.key).p)
  {
    if x.moves != 0 && !(c.p.Some? && c.numMoves == x.moves) { return None; }
    r := Some(Eval(c.q, c.d, c.m, if c.p.Some? then c.p.value[..x.moves] else []));
    if c.p.Some? && x.moves > 0 { assert c.p.value[..x.moves] == c.p.value; }
  }

  /** What the wrapped backend leaves in the value of an entry. */
  function Computed(wrapped: Key -> Eval, x: Query): CachedValue {
    var e := wrapped(x.key);
    CachedValue(e.q, e.d, e.m, if x.moves == 0 then None else Some(e.p), x.moves)
  }

  /** The test that a cached value can answer a query. */
  predicate Answers(v: CachedValue, x: Query) {
    x.moves == 0 || (v.p.Some? && v.numMoves == x.moves)
  }

  lemma AnswersDeliver(wrapped: Key -> Eval, x: Query, v: CachedValue)
    requires Fair(wrapped, x) && Agrees(wrapped, x.key, v) && Answers(v, x)
    ensures Enough(v, x.room) && Delivers(wrapped, x, ReplyOf(v, x.room))
  {
    if x.room > 0 { assert v.p.value[..x.room] == v.p.value; }
  }

  // ---- the cache with the values it owns ----

  /** `heap` holds the values that have not been freed, by identity; `next` is the next identity to be given out. */
  datatype Shared = Shared(model: Model, heap: map<Pointer, CachedValue>, next: Pointer)

  /** Values the cache does not own any more are gone. */
  ghost function Collected(sh: Shared): Shared {
    sh.(heap := map p | p in sh.heap && Live(sh.model, p) :: sh.heap[p])
  }

  /** Every value the cache owns is there and agrees with the network, and nothing else is. */
  ghost predicate Sane(wrapped: Key -> Eval, sh: Shared) {
    && Consistent(sh.model)
    && (forall e: (Key, Pointer) {:trigger Owned(sh.model, e)} :: Owned(sh.model, e) ==> Kept(wrapped, sh, e))
    && (forall p :: p in sh.heap ==> Live(sh.model, p))
  }

  ghost predicate Kept(wrapped: Key -> Eval, sh: Shared, e: (Key, Pointer)) {
    e.1 < sh.next && e.1 in sh.heap && Agrees(wrapped, e.0, sh.heap[e.1])
  }

  /** `LookupAndPin`. */
  function Locked(sh: Shared, key: Key): (r: (Shared, Option<Pointer>)) {
    var (m, p) := LookedUp(sh.model, key);
    (sh.(model := m), p)
  }

  /** `Unpin`. */
  ghost function Unlocked(sh: Shared, e: (Key, Pointer)): Shared
    requires e in sh.model.pins
  {
    Collected(sh.(model := Unpinned(sh.model, e)))
  }

  /** `Insert` of a new value. */
  ghost function WithValue(sh: Shared, key: Key, v: CachedValue): Shared
    requires Consistent(sh.model) && FreshValue(sh.model, sh.next)
  {
    Collected(Shared(Inserted(sh.model, key, sh.next), sh.heap[sh.next := v], sh.next + 1))
  }

  /** `SetCapacity`. */
  ghost function ResizedTo(sh: Shared, capacity: nat): Shared
    requires Consistent(sh.model)
  {
    Collected(sh.(model := Resized(sh.model, capacity)))
  }

  /** `Clear`. */
  ghost function Emptied(sh: Shared): Shared
    requires Consistent(sh.model)
  {
    Collected(sh.(model := EvictTo(sh.model, 0)))
  }

  lemma NextIsFresh(wrapped: Key -> Eval, sh: Shared)
    requires Sane(wrapped, sh)
    ensures FreshValue(sh.model, sh.next)
  {
    forall k ensures !Owned(sh.model, (k, sh.next)) { }
  }

  /** An operation that gives up ownership only, followed by the freeing, leaves a sane state. */
  lemma LosingIsSane(wrapped: Key -> Eval, sh: Shared, m: Model)
    requires Sane(wrapped, sh) && Consistent(m) && forall e {:trigger Owned(m, e)} :: Owned(m, e) ==> Owned(sh.model, e)
    ensures Sane(wrapped, Collected(sh.(model := m)))
  {
    var r := Collected(sh.(model := m));
    forall e: (Key, Pointer) | Owned(m, e) ensures Kept(wrapped, r, e) {
      assert Kept(wrapped, sh, e);
      assert Live(m, e.1) by { assert Owned(m, (e.0, e.1)); }
    }
  }

  lemma LockedIsSane(wrapped: Key -> Eval, sh: Shared, key: Key)
    requires Sane(wrapped, sh)
    ensures Sane(wrapped, Locked(sh, key).0)
    ensures Locked(sh, key).1.Some? ==> Kept(wrapped, sh, (key, Locked(sh, key).1.value))
  {
    var m, n := sh.model, Locked(sh, key).0.model;
    if key in m.contents {
      PinsKeepConsistent(m, (key, m.contents[key]), m.pins[(key, m.contents[key])] + 1);
      assert Owned(m, (key, m.contents[key]));
    }
    forall e: (Key, Pointer) | Owned(n, e) ensures Kept(wrapped, Locked(sh, key).0, e) {
      assert Owned(m, e) && Kept(wrapped, sh, e);
    }
    forall p | p in sh.heap ensures Live(n, p) {
      var k: Key :| Owned(m, (k, p));
      assert Owned(n, (k, p));
    }
  }

  lemma UnlockedIsSane(wrapped: Key -> Eval, sh: Shared, e: (Key, Pointer))
    requires Sane(wrapped, sh) && e in sh.model.pins
    ensures Sane(wrapped, Unlocked(sh, e))
  {
    UnpinKeepsConsistent(sh.model, e);
    LosingIsSane(wrapped, sh, Unpinned(sh.model, e));
  }

  lemma WithValueIsSane(wrapped: Key -> Eval, sh: Shared, key: Key, v: CachedValue)
    requires Sane(wrapped, sh) && Agrees(wrapped, key, v)
    ensures FreshValue(sh.model, sh.next) && Sane(wrapped, WithValue(sh, key, v))
  {
    NextIsFresh(wrapped, sh);
    InsertOwns(sh.model, key, sh.next);
    var m := Inserted(sh.model, key, sh.next);
    var r := WithValue(sh, key, v);
    InsertedIsConsistent(sh.model, key, sh.next);
    forall e: (Key, Pointer) | Owned(m, e) ensures Kept(wrapped, r, e) {
      assert Live(m, e.1) by { assert Owned(m, (e.0, e.1)); }
      if e != (key, sh.next) {
        assert Owned(sh.model, e) && Kept(wrapped, sh, e);
      }
    }
  }

  lemma InsertedIsConsistent(m: Model, key: Key, p: Pointer)
    requires Consistent(m) && FreshValue(m, p)
    ensures Consistent(Inserted(m, key, p))
  {
    if !(m.capacity == 0 || key in m.contents) { InsertKeepsConsistent(m, key, p); }
  }

  lemma ResizedIsSane(wrapped: Key -> Eval, sh: Shared, capacity: nat)
    requires Sane(wrapped, sh)
    ensures Sane(wrapped, ResizedTo(sh, capacity))
  {
    ResizeOwns(sh.model, capacity);
    LosingIsSane(wrapped, sh, Resized(sh.model, capacity));
  }

  lemma EmptiedIsSane(wrapped: Key -> Eval, sh: Shared)
    requires Sane(wrapped, sh)
    ensures Sane(wrapped, Emptied(sh))
  {
    EvictOwns(sh.model, 0);
    LosingIsSane(wrapped, sh, EvictTo(sh.model, 0));
  }

  /** A lock taken and released with nothing in between changes nothing. */
  lemma LockAndUnlock(wrapped: Key -> Eval, sh: Shared, key: Key)
    requires Sane(wrapped, sh) && key in sh.model.contents
    ensures var e := (key, sh.model.contents[key]);
      e in Locked(sh, key).0.model.pins && Unlocked(Locked(sh, key).0, e) == sh
  {
    var e := (key, sh.model.contents[key]);
    PinAndUnpin(sh.model, key);
    assert (map p | p in sh.heap && Live(sh.model, p) :: sh.heap[p]) == sh.heap;
  }

  lemma PinAndUnpin(m: Model, key: Key)
    requires Consistent(m) && key in m.contents
    ensures var e := (key, m.contents[key]); e in LookedUp(m, key).0.pins && Unpinned(LookedUp(m, key).0, e) == m
  {
    var e := (key, m.contents[key]);
    var n := LookedUp(m, key).0;
    assert n.pins[e := n.pins[e] - 1] == m.pins;
    assert n.retired - {e} == m.retired;
  }

  /** Eviction keeps no value that was not there. */
  lemma {:induction false} EvictOwns(m: Model, limit: nat)
    requires Consistent(m)
    ensures forall e {:trigger Owned(EvictTo(m, limit), e)} :: Owned(EvictTo(m, limit), e) ==> Owned(m, e)
    decreases |m.queue|
  {
    if |m.queue| > limit {
      EvictKeepsConsistent(m);
      EvictOwns(EvictOldest(m), limit);
      assert m.queue[0] in m.contents;
      forall e | Owned(EvictOldest(m), e) ensures Owned(m, e) { }
    }
  }

  lemma ResizeOwns(m: Model, capacity: nat)
    requires Consistent(m)
    ensures Consistent(Resized(m, capacity))
    ensures forall e {:trigger Owned(Resized(m, capacity), e)} :: Owned(Resized(m, capacity), e) ==> Owned(m, e)
  {
    EvictOwns(m, capacity);
    var n, r := EvictTo(m, capacity), Resized(m, capacity);
    if m.capacity != capacity {
      forall e | Owned(r, e) ensures Owned(m, e) { assert Owned(n, e); }
      ResizeKeepsConsistent(n, capacity);
    }
  }

  lemma ResizeKeepsConsistent(m: Model, capacity: nat)
    requires Consistent(m)
    ensures Consistent(m.(capacity := capacity))
  {
    var n := m.(capacity := capacity);
    forall e | e in n.pins ensures Owned(n, e) { assert Owned(m, e); }
  }

  lemma InsertOwns(m: Model, key: Key, p: Pointer)
    requires Consistent(m) && FreshValue(m, p)
    ensures forall e {:trigger Owned(Inserted(m, key, p), e)} ::
      Owned(Inserted(m, key, p), e) ==> Owned(m, e) || e == (key, p)
  {
    if !(m.capacity == 0 || key in m.contents) {
      InsertKeepsConsistent(m, key, p);
      EvictOwns(Added(m, key, p), m.capacity);
      forall e | Owned(Added(m, key, p), e) ensures Owned(m, e) || e == (key, p) { }
    }
  }

  // ---- the backend ----

  datatype AddInputResult = ENQUEUED_FOR_EVAL | FETCHED_IMMEDIATELY

  /** A query waiting for the network, and its reply once it is there. */
  datatype Request = Request(query: Query, reply: Option<Reply>)

  class Backend {
    const wrapped: Key -> Eval
    const cache: HashKeyedCache
    /** The values the cache owns, by identity. */
    var values: map<Pointer, CachedValue>
    var next: Pointer

    ghost function View(): Shared
      reads this, cache
    {
      Shared(cache.model, values, next)
    }

    ghost predicate Valid()
      reads this, cache, cache.hash
    {
      cache.Valid() && Sane(wrapped, View())
    }

    constructor (wrapped: Key -> Eval, capacity: nat)
      ensures Valid() && fresh(cache) && fresh(cache.hash) && this.wrapped == wrapped
    {
      this.wrapped := wrapped;
      var c := new HashKeyedCache(capacity);
      cache := c;
      values, next := map[], 0;
    }

    /** What the destructors of the `unique_ptr`s did: values the cache has no more are freed. */
    method Collect()
      requires cache.Valid()
      modifies this`values
      ensures View() == Collected(old(View()))
    {
      forall p ensures cache.HasValue(p) <==> Live(cache.model, p) { cache.HasExactlyOwned(p); }
      values := map p | p in values && cache.HasValue(p) :: values[p];
    }

    /** The constructor of `HashKeyedCacheLock`. */
    method Lock(key: Key) returns (p: Option<Pointer>)
      requires Valid()
      modifies cache`model, cache.hash
      ensures Valid() && (View(), p) == Locked(old(View()), key)
    {
      LockedIsSane(wrapped, View(), key);
      p := cache.LookupAndPin(key);
    }

    /** Dereferencing a lock. The value is there because it is pinned. */
    method Read(key: Key, p: Pointer) returns (v: CachedValue)
      requires Valid() && (key, p) in cache.model.pins
      ensures p in values && v == values[p] && Agrees(wrapped, key, v)
    {
      assert Owned(cache.model, (key, p)) && Kept(wrapped, View(), (key, p));
      v := values[p];
    }

    /** Its destructor. */
    method Unlock(key: Key, p: Pointer)
      requires Valid() && (key, p) in cache.model.pins
      modifies this`values, cache`model, cache`evicted, cache`allocatedCount, cache.hash
      ensures Valid() && View() == Unlocked(old(View()), (key, p))
    {
      UnlockedIsSane(wrapped, View(), (key, p));
      cache.Unpin(key, p);
      Collect();
    }

    /** Some cached value can answer the query. */
    ghost predicate CanAnswer(x: Query)
      requires Valid()
      reads this, cache, cache.hash
    {
      x.key in cache.model.contents && Answers(Stored(x.key), x)
    }

    ghost function Stored(key: Key): CachedValue
      requires Valid() && key in cache.model.contents
      reads this, cache, cache.hash
    {
      assert Owned(cache.model, (key, cache.model.contents[key]));
      values[cache.model.contents[key]]
    }

    /** `GetCachedEvaluation` with no other call in between: a reply exactly if some cached value can answer. */
    method GetCachedEvaluation(x: Query) returns (r: Option<Eval>)
      requires Valid() && Fair(wrapped, x)
      modifies this`values, cache`model, cache`evicted, cache`allocatedCount, cache.hash
      ensures Valid() && View() == old(View())
      ensures r.Some? <==> old(CanAnswer(x))
      ensures r.Some? ==> r.value == wrapped(x.key).(p := if x.moves == 0 then [] else wrapped(x.key).p)
    {
      ghost var sh := View();
      var p := Lock(x.key);
      if p.None? { return None; }
      LockAndUnlock(wrapped, sh, x.key);
      var c := Read(x.key, p.value);
      r := CachedValueToEval(wrapped, x, c);
      Unlock(x.key, p.value);
    }

    /** Hand a computed value over to the cache. */
    method Store(key: Key, v: CachedValue)
      requires Valid() && Agrees(wrapped, key, v)
      modifies this, cache, cache.hash
      ensures Valid() && cache.hash == old(cache.hash)
      ensures FreshValue(old(cache.model), old(next)) && Consistent(old(cache.model)) &&
        View() == WithValue(old(View()), key, v)
    {
      ghost var sh := View();
      WithValueIsSane(wrapped, sh, key, v);
      var p := next;
      values := values[p := v];
      next := next + 1;
      cache.Insert(key, p);
      Collect();
    }

    method ClearCache()
      requires Valid()
      modifies this`values, cache, cache.hash
      ensures Valid() && cache.hash == old(cache.hash) && Consistent(old(cache.model)) && View() == Emptied(old(View()))
    {
      EmptiedIsSane(wrapped, View());
      cache.Clear();
      Collect();
    }

    method SetCacheSize(size: nat)
      requires Valid()
      modifies this`values, cache, cache.hash
      ensures Valid() && (cache.hash == old(cache.hash) || fresh(cache.hash))
      ensures Consistent(old(cache.model)) && View() == ResizedTo(old(View()), size)
    {
      ResizedIsSane(wrapped, View(), size);
      cache.SetCapacity(size);
      Collect();
    }
  }

  // ---- a batch ----

  /** `MemCacheComputation`. Between its calls other batches may use the same backend in any way. */
  class Computation {
    const backend: Backend
    var entries: seq<Request>
    /** `UsedBatchSize` of the wrapped computation. */
    var used: nat

    ghost predicate Valid()
      reads this, backend
    {
      used <= |entries| && AllFair(backend.wrapped, entries)
    }

    constructor (backend: Backend)
      ensures Valid() && this.backend == backend && entries == [] && used == 0
    {
      this.backend := backend;
      entries, used := [], 0;
    }

    /** With no other call in between: a query that some cached value can answer is answered at once. Otherwise it
        becomes an entry and goes to the wrapped computation, which normally puts it in its batch; `immediate` stands
        for a wrapped backend that answers at once itself. */
    method AddInput(x: Query, immediate: bool) returns (r: AddInputResult, reply: Option<Reply>)
      requires Valid() && backend.Valid() && Fair(backend.wrapped, x)
      modifies this, backend`values, backend.cache`model, backend.cache`evicted, backend.cache`allocatedCount,
        backend.cache.hash
      ensures Valid() && backend.Valid() && backend.View() == old(backend.View())
      ensures reply.Some? <==> old(backend.CanAnswer(x))
      ensures reply.Some? ==> r.FETCHED_IMMEDIATELY? && Delivers(backend.wrapped, x, reply.value)
      ensures reply.Some? ==> entries == old(entries) && used == old(used)
      ensures reply.None? ==> entries == old(entries) + [Request(x, None)]
      ensures reply.None? ==> used == old(used) + if immediate then 0 else 1
      ensures reply.None? ==> (r.ENQUEUED_FOR_EVAL? <==> !immediate)
    {
      reply := Fetch(x);
      if reply.Some? { return FETCHED_IMMEDIATELY, reply; }
      entries := entries + [Request(x, None)];
      if immediate { return FETCHED_IMMEDIATELY, None; }
      used := used + 1;
      return ENQUEUED_FOR_EVAL, None;
    }

    /** The block of `AddInput` that holds the lock. */
    method Fetch(x: Query) returns (reply: Option<Reply>)
      requires backend.Valid() && Fair(backend.wrapped, x)
      modifies backend`values, backend.cache`model, backend.cache`evicted, backend.cache`allocatedCount,
        backend.cache.hash
      ensures backend.Valid() && backend.View() == old(backend.View())
      ensures reply.Some? <==> old(backend.CanAnswer(x))
      ensures reply.Some? ==> Delivers(backend.wrapped, x, reply.value)
    {
      ghost var sh := backend.View();
      var p := backend.Lock(x.key);
      if p.None? { return None; }
      LockAndUnlock(backend.wrapped, sh, x.key);
      var v := backend.Read(x.key, p.value);
      if Answers(v, x) {
        AnswersDeliver(backend.wrapped, x, v);
        var answer := CachedValueToEvalResult(v, x.room);
        reply := Some(answer);
      } else {
        reply := None;
      }
      backend.Unlock(x.key, p.value);
    }

    /** Every entry gets its own reply, whatever else the batch or other batches asked; then the value goes to the
        cache, where it is dropped if the key is there already. Nothing happens if the wrapped batch is empty. */
    method ComputeBlocking()
      requires Valid() && backend.Valid()
      modifies this, backend, backend.cache, backend.cache.hash
      ensures Valid() && backend.Valid() && backend.cache.hash == old(backend.cache.hash) && used == old(used)
      ensures |entries| == |old(entries)| && (used == 0 ==> entries == old(entries))
      ensures used > 0 ==> forall i :: 0 <= i < |entries| ==> Answered(backend.wrapped, old(entries)[i], entries[i])
      ensures used == 0 ==> backend.View() == old(backend.View())
      ensures Sane(backend.wrapped, old(backend.View())) && AllFair(backend.wrapped, old(entries))
      ensures used > 0 ==> backend.View() == WithEntries(backend.wrapped, old(backend.View()), old(entries))
    {
      if used == 0 { return; }
      ghost var was := entries;
      FinishEntries(was, backend.View());
      AllAnswered(backend.wrapped, was, entries);
    }

    /** Its loop. */
    method FinishEntries(ghost was: seq<Request>, ghost sh: Shared)
      requires backend.Valid() && was == entries && sh == backend.View() && AllFair(backend.wrapped, was)
      modifies `entries, backend, backend.cache, backend.cache.hash
      ensures backend.Valid() && backend.cache.hash == old(backend.cache.hash)
      ensures Halfway(backend.wrapped, was, entries, |was|)
      ensures backend.View() == WithEntries(backend.wrapped, sh, was)
    {
      var i := 0;
      while i < |entries|
        invariant 0 <= i <= |was| && Halfway(backend.wrapped, was, entries, i)
        invariant backend.Valid() && backend.cache.hash == old(backend.cache.hash)
        invariant AllFair(backend.wrapped, was[i..])
        invariant WithEntries(backend.wrapped, backend.View(), was[i..]) == WithEntries(backend.wrapped, sh, was)
      {
        FairRest(backend.wrapped, was[i..]);
        assert was[i..][1..] == was[i + 1..];
        FinishEntry(i, was);
        i := i + 1;
      }
    }

    /** One round of `ComputeBlocking`: copy the value to the result, then move it into the cache. */
    method FinishEntry(i: nat, ghost was: seq<Request>)
      requires backend.Valid() && i < |entries| && AllFair(backend.wrapped, was) &&
        Halfway(backend.wrapped, was, entries, i)
      modifies `entries, backend, backend.cache, backend.cache.hash
      ensures backend.Valid() && backend.cache.hash == old(backend.cache.hash)
      ensures Halfway(backend.wrapped, was, entries, i + 1)
      ensures Sane(backend.wrapped, old(backend.View()))
      ensures backend.View() == WithEntry(backend.wrapped, old(backend.View()), was[i])
    {
      ComputedAgrees(backend.wrapped, was[i].query);
      var x := entries[i].query;
      assert Fair(backend.wrapped, was[i].query) && entries[i] == was[i];
      var v := Computed(backend.wrapped, x);
      AnswersDeliver(backend.wrapped, x, v);
      var answer := CachedValueToEvalResult(v, x.room);
      backend.Store(x.key, v);
      entries := entries[i := Request(x, Some(answer))];
    }
  }

  lemma ComputedAgrees(wrapped: Key -> Eval, x: Query)
    requires Fair(wrapped, x)
    ensures Agrees(wrapped, x.key, Computed(wrapped, x))
  {
  }

  /** The limit on the number of entries, part of `Valid` of the cache. */
  predicate Fits(m: Model) {
    |m.queue| <= m.capacity
  }

  lemma InsertFits(m: Model, key: Key, v: Pointer)
    requires Consistent(m) && FreshValue(m, v)
    ensures Inserted(m, key, v).capacity == m.capacity && (Fits(m) ==> Fits(Inserted(m, key, v)))
  {
    if !(m.capacity == 0 || key in m.contents) { InsertKeepsConsistent(m, key, v); }
  }

  /** The value of a finished entry is handed over. */
  ghost function WithEntry(wrapped: Key -> Eval, sh: Shared, entry: Request): (r: Shared)
    requires Sane(wrapped, sh) && Fair(wrapped, entry.query)
    ensures Sane(wrapped, r) && r.model.capacity == sh.model.capacity && (Fits(sh.model) ==> Fits(r.model))
  {
    WithValueIsSane(wrapped, sh, entry.query.key, Computed(wrapped, entry.query));
    InsertFits(sh.model, entry.query.key, sh.next);
    WithValue(sh, entry.query.key, Computed(wrapped, entry.query))
  }

  /** The values of all entries, one after the other. */
  ghost function WithEntries(wrapped: Key -> Eval, sh: Shared, entries: seq<Request>): Shared
    requires Sane(wrapped, sh) && AllFair(wrapped, entries)
    decreases |entries|
  {
    if entries == [] then sh else
    FairRest(wrapped, entries);
    WithEntries(wrapped, WithEntry(wrapped, sh, entries[0]), entries[1..])
  }

  lemma FairRest(wrapped: Key -> Eval, entries: seq<Request>)
    requires AllFair(wrapped, entries) && entries != []
    ensures Fair(wrapped, entries[0].query) && AllFair(wrapped, entries[1..])
  {
    forall i | 0 <= i < |entries| - 1 ensures Fair(wrapped, entries[1..][i].query) {
      assert Fair(wrapped, entries[i + 1].query);
    }
  }

  ghost predicate AllFair(wrapped: Key -> Eval, entries: seq<Request>) {
    forall i {:trigger entries[i]} :: 0 <= i < |entries| ==> Fair(wrapped, entries[i].query)
  }

  lemma AllAnswered(wrapped: Key -> Eval, was: seq<Request>, now: seq<Request>)
    requires AllFair(wrapped, was) && Halfway(wrapped, was, now, |was|)
    ensures AllFair(wrapped, now) && forall i :: 0 <= i < |now| ==> Answered(wrapped, was[i], now[i])
  {
    forall i | 0 <= i < |now| ensures Fair(wrapped, now[i].query) { assert Answered(wrapped, was[i], now[i]); }
  }

  /** The first `n` requests have their replies. */
  ghost predicate Halfway(wrapped: Key -> Eval, was: seq<Request>, now: seq<Request>, n: nat) {
    && n <= |now| == |was|
    && (forall j {:trigger now[j]} :: 0 <= j < n ==> Answered(wrapped, was[j], now[j]))
    && (forall j {:trigger now[j]} :: n <= j < |now| ==> now[j] == was[j])
  }

  ghost predicate Answered(wrapped: Key -> Eval, was: Request, now: Request) {
    now.query == was.query && now.reply.Some? && Delivers(wrapped, now.query, now.reply.value)
  }
}
