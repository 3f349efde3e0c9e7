// What a finished batch leaves in the cache: a position that was new is answered from the cache afterwards.

module MemCacheBatches {
  import opened Ring
  import opened Cache
  import opened CacheRuns
  import opened MemCache

  lemma EntryIsCall(wrapped: Key -> Eval, sh: Shared, entry: Request)
    requires Sane(wrapped, sh) && Fits(sh.model) && Fair(wrapped, entry.query)
    ensures var c := InsertCall(entry.query.key, sh.next);
      Allowed(sh.model, c) && WithEntry(wrapped, sh, entry).model == CacheRuns.Apply(sh.model, c)
  {
    NextIsFresh(wrapped, sh);
  }

  lemma InsertAdds(m: Model, key: Key, v: Pointer, k: Key)
    requires Good(m) && FreshValue(m, v) && k in Inserted(m, key, v).contents
    ensures k in m.contents || k == key
  {
    if !(m.capacity == 0 || key in m.contents) {
      InsertKeepsConsistent(m, key, v);
      EvictionIsFifo(Added(m, key, v), m.capacity);
    }
  }

  lemma EntryAdds(wrapped: Key -> Eval, sh: Shared, entry: Request, k: Key)
    requires Sane(wrapped, sh) && Fits(sh.model) && Fair(wrapped, entry.query)
    requires k in WithEntry(wrapped, sh, entry).model.contents
    ensures k in sh.model.contents || k == entry.query.key
  {
    EntryIsCall(wrapped, sh, entry);
    InsertAdds(sh.model, entry.query.key, sh.next, k);
  }

  ghost predicate Cached(sh: Shared, key: Key, v: CachedValue) {
    key in sh.model.contents && sh.model.contents[key] in sh.heap && sh.heap[sh.model.contents[key]] == v
  }

  lemma NewEntryCached(wrapped: Key -> Eval, sh: Shared, entry: Request)
    requires Sane(wrapped, sh) && Fits(sh.model) && Fair(wrapped, entry.query)
    requires sh.model.capacity > 0 && entry.query.key !in sh.model.contents
    ensures var r := WithEntry(wrapped, sh, entry);
      Cached(r, entry.query.key, Computed(wrapped, entry.query)) && Aged(r.model, entry.query.key, 0)
  {
    NextIsFresh(wrapped, sh);
    InsertedIsYoungest(sh.model, entry.query.key, sh.next);
    var r := WithEntry(wrapped, sh, entry);
    assert Owned(r.model, (entry.query.key, sh.next));
    assert Live(r.model, sh.next);
  }

  lemma OldEntryCached(wrapped: Key -> Eval, sh: Shared, entry: Request, key: Key, v: CachedValue, age: nat)
    requires Sane(wrapped, sh) && Fits(sh.model) && Fair(wrapped, entry.query)
    requires Cached(sh, key, v) && Aged(sh.model, key, age) && age + 1 < sh.model.capacity
    ensures var r := WithEntry(wrapped, sh, entry);
      Cached(r, key, v) && (Aged(r.model, key, age) || Aged(r.model, key, age + 1))
  {
    EntryIsCall(wrapped, sh, entry);
    AgesByOne(sh.model, InsertCall(entry.query.key, sh.next), key, age);
    var r, p := WithEntry(wrapped, sh, entry), sh.model.contents[key];
    assert Owned(sh.model, (key, p)) && Kept(wrapped, sh, (key, p));
    assert Owned(r.model, (key, p));
    assert Live(r.model, p);
  }

  /** A cached value stays through the rest of a batch that is short enough. */
  lemma {:induction false} StaysCached(wrapped: Key -> Eval, sh: Shared, entries: seq<Request>, key: Key,
                                       v: CachedValue, age: nat)
    requires Sane(wrapped, sh) && Fits(sh.model) && AllFair(wrapped, entries)
    requires Cached(sh, key, v) && Aged(sh.model, key, age) && age + |entries| < sh.model.capacity
    ensures Cached(WithEntries(wrapped, sh, entries), key, v)
    decreases |entries|
  {
    if entries != [] {
      FairRest(wrapped, entries);
      OldEntryCached(wrapped, sh, entries[0], key, v, age);
      var next := WithEntry(wrapped, sh, entries[0]);
      StaysCached(wrapped, next, entries[1..], key, v, if Aged(next.model, key, age) then age else age + 1);
    }
  }

  /** The value of entry `i` ends up in the cache: its key was new, and fewer than `capacity` entries come after it. */
  lemma {:induction false} EntryCached(wrapped: Key -> Eval, sh: Shared, entries: seq<Request>, i: nat)
    requires Sane(wrapped, sh) && Fits(sh.model) && AllFair(wrapped, entries) && i < |entries|
    requires entries[i].query.key !in sh.model.contents && |entries| - 1 - i < sh.model.capacity
    requires forall j :: 0 <= j < i ==> entries[j].query.key != entries[i].query.key
    ensures var x := entries[i].query; Cached(WithEntries(wrapped, sh, entries), x.key, Computed(wrapped, x))
    decreases |entries|
  {
    FairRest(wrapped, entries);
    var next, x := WithEntry(wrapped, sh, entries[0]), entries[i].query;
    if i == 0 {
      NewEntryCached(wrapped, sh, entries[0]);
      StaysCached(wrapped, next, entries[1..], x.key, Computed(wrapped, x), 0);
    } else {
      if x.key in next.model.contents { EntryAdds(wrapped, sh, entries[0], x.key); }
      EntryCached(wrapped, next, entries[1..], i - 1);
    }
  }

  /** A value answers a query exactly if it has the policy the query asks for. */
  lemma AnswersMeans(wrapped: Key -> Eval, v: CachedValue, x: Query)
    requires Fair(wrapped, x) && Agrees(wrapped, x.key, v)
    ensures Answers(v, x) <==> (x.moves > 0 ==> v.p.Some?)
  {
  }

  /** A finished batch is remembered: a query for a position that was new to the cache, asked again after the batch,
      with its moves only if they were given the first time, is answered from the cache, as long as fewer than
      `capacity` entries followed it. */
  lemma BatchIsRemembered(wrapped: Key -> Eval, sh: Shared, entries: seq<Request>, i: nat, x: Query)
    requires Sane(wrapped, sh) && AllFair(wrapped, entries) && i < |entries| && Fits(sh.model)
    requires entries[i].query.key !in sh.model.contents && |entries| - 1 - i < sh.model.capacity
    requires forall j :: 0 <= j < i ==> entries[j].query.key != entries[i].query.key
    requires Fair(wrapped, x) && x.key == entries[i].query.key && (x.moves > 0 ==> entries[i].query.moves > 0)
    ensures var r := WithEntries(wrapped, sh, entries);
      && x.key in r.model.contents && r.model.contents[x.key] in r.heap
      && Answers(r.heap[r.model.contents[x.key]], x)
  {
    EntryCached(wrapped, sh, entries, i);
    assert Fair(wrapped, entries[i].query);
    ComputedAgrees(wrapped, entries[i].query);
    AnswersMeans(wrapped, Computed(wrapped, entries[i].query), x);
  }
}
