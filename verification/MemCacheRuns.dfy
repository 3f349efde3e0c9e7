// Any number of locks and batches on one caching backend, step by step in any order: what is read under a lock is there
// and right, and every reply is the one the wrapped backend would give. A step changes the shared cache by the function
// (`Locked`, `Unlocked`, `WithValue`, `ResizedTo`, `Emptied`) that the method of `MemCache.Backend` is proved against.

module MemCacheRuns {
  import opened Ring
  import opened Cache
  import opened CacheRuns
  import opened MemCache

  // ---- the state ----

  /** A `HashKeyedCacheLock` between its constructor and its destructor. */
  datatype Lock = Lock(query: Query, pin: Option<Pointer>)

  /** Where `ComputeBlocking` is: not called yet, about to copy the value of entry `i` to its result, or about to move
      that value into the cache. */
  datatype Stage = Filling | Copying(i: nat) | Storing(i: nat)

  datatype Batch = Batch(entries: seq<Request>, used: nat, stage: Stage)

  /** `fetched` are the replies given from the cache. */
  datatype System = System(shared: Shared, locks: map<nat, Lock>, batches: map<nat, Batch>,
    fetched: seq<(Query, Reply)>)

  datatype Step =
    | Acquire(lock: nat, query: Query)
    | Copy(lock: nat)
    | Release(lock: nat)
    | Open(batch: nat)
    | Enqueue(batch: nat, query: Query, immediate: bool)
    | Compute(batch: nat)
    | CopyNext(batch: nat)
    | StoreNext(batch: nat)
    | Resize(capacity: nat)
    | ClearAll

  // ---- what always holds ----

  /** The locks that pin `e`. */
  function Holders(locks: map<nat, Lock>, e: (Key, Pointer)): set<nat> {
    set l | l in locks && Holds(locks[l], e)
  }

  predicate Holds(lock: Lock, e: (Key, Pointer)) {
    lock.query.key == e.0 && lock.pin == Some(e.1)
  }

  /** Every pin belongs to a lock. */
  ghost predicate PinsMatch(s: System) {
    forall e: (Key, Pointer) {:trigger s.shared.model.pins[e]} {:trigger Holders(s.locks, e)} ::
      s.shared.model.pins[e] == |Holders(s.locks, e)|
  }

  /** Entries before the stage have their replies. */
  ghost predicate BatchGood(wrapped: Key -> Eval, b: Batch) {
    && AllFair(wrapped, b.entries)
    && match b.stage
       case Filling => true
       case Copying(i) => AnsweredTo(wrapped, b.entries, i)
       case Storing(i) => i < |b.entries| && AnsweredTo(wrapped, b.entries, i + 1)
  }

  ghost predicate AnsweredTo(wrapped: Key -> Eval, entries: seq<Request>, n: nat) {
    n <= |entries| && forall i {:trigger entries[i]} :: 0 <= i < n ==> Answered(wrapped, entries[i], entries[i])
  }

  ghost predicate Inv(wrapped: Key -> Eval, s: System) {
    && Sane(wrapped, s.shared) && Good(s.shared.model) && PinsMatch(s)
    && (forall l {:trigger s.locks[l]} :: l in s.locks ==> Fair(wrapped, s.locks[l].query))
    && (forall b {:trigger s.batches[b]} :: b in s.batches ==> BatchGood(wrapped, s.batches[b]))
    && (forall i {:trigger s.fetched[i]} :: 0 <= i < |s.fetched| ==> Delivers(wrapped, s.fetched[i].0, s.fetched[i].1))
  }

  /** Which steps the program can take. A lock is read and released while it is held; the wrapped backend computes a
      batch that is not empty; entries are finished one after the other. */
  ghost predicate Possible(wrapped: Key -> Eval, s: System, step: Step) {
    match step
    case Acquire(l, x) => l !in s.locks && Fair(wrapped, x)
    case Copy(l) => l in s.locks && s.locks[l].pin.Some?
    case Release(l) => l in s.locks
    case Open(b) => b !in s.batches
    case Enqueue(b, x, _) => b in s.batches && s.batches[b].stage.Filling? && Fair(wrapped, x)
    case Compute(b) => b in s.batches && s.batches[b].stage.Filling? && s.batches[b].used > 0
    case CopyNext(b) => b in s.batches && s.batches[b].stage.Copying? && s.batches[b].stage.i < |s.batches[b].entries|
    case StoreNext(b) => b in s.batches && s.batches[b].stage.Storing?
    case Resize(_) => true
    case ClearAll => true
  }

  // ---- what is read is there ----

  /** While a lock holds a value it has not been freed, and it agrees with the network. */
  lemma HeldIsLive(wrapped: Key -> Eval, s: System, l: nat)
    requires Sane(wrapped, s.shared) && PinsMatch(s) && l in s.locks && s.locks[l].pin.Some?
    ensures var e := (s.locks[l].query.key, s.locks[l].pin.value);
      e in s.shared.model.pins && Owned(s.shared.model, e) && Kept(wrapped, s.shared, e)
  {
    var e := (s.locks[l].query.key, s.locks[l].pin.value);
    assert l in Holders(s.locks, e);
    assert s.shared.model.pins[e] == |Holders(s.locks, e)| > 0;
  }

  // ---- the steps ----

  function Released(s: System, l: nat): System {
    s.(locks := s.locks - {l})
  }

  function WithBatch(s: System, b: nat, batch: Batch): System {
    s.(batches := s.batches[b := batch])
  }

  ghost function Apply(wrapped: Key -> Eval, s: System, step: Step): (r: System)
    requires Inv(wrapped, s) && Possible(wrapped, s, step)
  {
    match step
    case Acquire(l, x) => s.(shared := Locked(s.shared, x.key).0,
      locks := s.locks[l := Lock(x, Locked(s.shared, x.key).1)])
    case Copy(l) =>
      HeldIsLive(wrapped, s, l);
      var v, x := s.shared.heap[s.locks[l].pin.value], s.locks[l].query;
      if !Answers(v, x) then s else
      AnswersDeliver(wrapped, x, v);
      s.(fetched := s.fetched + [(x, ReplyOf(v, x.room))])
    case Release(l) =>
      if s.locks[l].pin.None? then Released(s, l) else
      HeldIsLive(wrapped, s, l);
      Released(s.(shared := Unlocked(s.shared, (s.locks[l].query.key, s.locks[l].pin.value))), l)
    case Open(b) => WithBatch(s, b, Batch([], 0, Filling))
    case Enqueue(b, x, immediate) =>
      var batch := s.batches[b];
      WithBatch(s, b, Batch(batch.entries + [Request(x, None)], batch.used + if immediate then 0 else 1, Filling))
    case Compute(b) => WithBatch(s, b, s.batches[b].(stage := Copying(0)))
    case CopyNext(b) => WithBatch(s, b, Copied(wrapped, s.batches[b]))
    case StoreNext(b) =>
      NextIsFresh(wrapped, s.shared);
      var i := s.batches[b].stage.i;
      var x := s.batches[b].entries[i].query;
      WithBatch(s.(shared := WithValue(s.shared, x.key, Computed(wrapped, x))), b,
        s.batches[b].(stage := Copying(i + 1)))
    case Resize(n) => s.(shared := ResizedTo(s.shared, n))
    case ClearAll => s.(shared := Emptied(s.shared))
  }

  /** `CachedValueToEvalResult` for the next entry. */
  ghost function Copied(wrapped: Key -> Eval, batch: Batch): Batch
    requires batch.stage.Copying? && batch.stage.i < |batch.entries| && AllFair(wrapped, batch.entries)
  {
    var i := batch.stage.i;
    var x := batch.entries[i].query;
    assert Fair(wrapped, batch.entries[i].query);
    AnswersDeliver(wrapped, x, Computed(wrapped, x));
    batch.(entries := batch.entries[i := Request(x, Some(ReplyOf(Computed(wrapped, x), x.room)))], stage := Storing(i))
  }

  // ---- every step keeps the invariant ----

  lemma AcquireKeepsPins(s: System, l: nat, lock: Lock, m: Model)
    requires PinsMatch(s) && l !in s.locks
    requires forall e: (Key, Pointer) :: m.pins[e] == s.shared.model.pins[e] + if Holds(lock, e) then 1 else 0
    ensures forall e: (Key, Pointer) :: m.pins[e] == |Holders(s.locks[l := lock], e)|
  {
    forall e: (Key, Pointer) ensures m.pins[e] == |Holders(s.locks[l := lock], e)| {
      assert s.shared.model.pins[e] == |Holders(s.locks, e)|;
      if Holds(lock, e) {
        assert Holders(s.locks[l := lock], e) == Holders(s.locks, e) + {l};
      } else {
        assert Holders(s.locks[l := lock], e) == Holders(s.locks, e);
      }
    }
  }

  lemma AcquireKeepsInv(wrapped: Key -> Eval, s: System, l: nat, x: Query)
    requires Inv(wrapped, s) && l !in s.locks && Fair(wrapped, x)
    ensures Inv(wrapped, Apply(wrapped, s, Acquire(l, x)))
  {
    var (sh, p) := Locked(s.shared, x.key);
    LockedIsSane(wrapped, s.shared, x.key);
    AcquireKeepsPins(s, l, Lock(x, p), sh.model);
  }

  lemma CopyKeepsInv(wrapped: Key -> Eval, s: System, l: nat)
    requires Inv(wrapped, s) && l in s.locks && s.locks[l].pin.Some?
    ensures Inv(wrapped, Apply(wrapped, s, Copy(l)))
  {
    HeldIsLive(wrapped, s, l);
    var v, x := s.shared.heap[s.locks[l].pin.value], s.locks[l].query;
    if Answers(v, x) { AnswersDeliver(wrapped, x, v); }
  }

  lemma ReleaseKeepsPins(s: System, l: nat, m: Model)
    requires PinsMatch(s) && l in s.locks
    requires forall e: (Key, Pointer) :: m.pins[e] + (if Holds(s.locks[l], e) then 1 else 0) == s.shared.model.pins[e]
    ensures forall e: (Key, Pointer) :: m.pins[e] == |Holders(s.locks - {l}, e)|
  {
    forall e: (Key, Pointer) ensures m.pins[e] == |Holders(s.locks - {l}, e)| {
      assert s.shared.model.pins[e] == |Holders(s.locks, e)|;
      if Holds(s.locks[l], e) {
        assert Holders(s.locks - {l}, e) == Holders(s.locks, e) - {l};
      } else {
        assert Holders(s.locks - {l}, e) == Holders(s.locks, e);
      }
    }
  }

  lemma ReleaseKeepsInv(wrapped: Key -> Eval, s: System, l: nat)
    requires Inv(wrapped, s) && l in s.locks
    ensures Inv(wrapped, Apply(wrapped, s, Release(l)))
  {
    var r := Apply(wrapped, s, Release(l));
    if s.locks[l].pin.Some? {
      HeldIsLive(wrapped, s, l);
      UnlockedIsSane(wrapped, s.shared, (s.locks[l].query.key, s.locks[l].pin.value));
    }
    ReleaseKeepsPins(s, l, r.shared.model);
  }

  lemma EnqueueKeepsInv(wrapped: Key -> Eval, s: System, b: nat, x: Query, immediate: bool)
    requires Inv(wrapped, s) && Possible(wrapped, s, Enqueue(b, x, immediate))
    ensures Inv(wrapped, Apply(wrapped, s, Enqueue(b, x, immediate)))
  {
    var batch := s.batches[b];
    forall i | 0 <= i < |batch.entries| + 1 ensures Fair(wrapped, (batch.entries + [Request(x, None)])[i].query) {
      if i < |batch.entries| { assert Fair(wrapped, batch.entries[i].query); }
    }
  }

  lemma CopiedIsGood(wrapped: Key -> Eval, batch: Batch)
    requires BatchGood(wrapped, batch) && batch.stage.Copying? && batch.stage.i < |batch.entries|
    ensures BatchGood(wrapped, Copied(wrapped, batch))
  {
    var i, r := batch.stage.i, Copied(wrapped, batch);
    var x := batch.entries[i].query;
    assert Fair(wrapped, batch.entries[i].query);
    AnswersDeliver(wrapped, x, Computed(wrapped, x));
    forall j | 0 <= j < |r.entries| ensures Fair(wrapped, r.entries[j].query) {
      assert Fair(wrapped, batch.entries[j].query);
    }
    forall j | 0 <= j < i + 1 ensures Answered(wrapped, r.entries[j], r.entries[j]) {
      if j < i { assert Answered(wrapped, batch.entries[j], batch.entries[j]); }
    }
  }

  lemma StoreKeepsInv(wrapped: Key -> Eval, s: System, b: nat)
    requires Inv(wrapped, s) && Possible(wrapped, s, StoreNext(b))
    ensures Inv(wrapped, Apply(wrapped, s, StoreNext(b)))
  {
    var batch := s.batches[b];
    var x := batch.entries[batch.stage.i].query;
    assert BatchGood(wrapped, batch) && Fair(wrapped, batch.entries[batch.stage.i].query);
    WithValueIsSane(wrapped, s.shared, x.key, Computed(wrapped, x));
    InsertedIsGood(s.shared.model, x.key, s.shared.next);
  }

  lemma InsertedIsGood(m: Model, key: Key, v: Pointer)
    requires Good(m) && FreshValue(m, v)
    ensures Good(Inserted(m, key, v)) && Inserted(m, key, v).pins == m.pins
  {
    if !(m.capacity == 0 || key in m.contents) { InsertKeepsConsistent(m, key, v); }
  }

  lemma {:induction false} StepKeepsInv(wrapped: Key -> Eval, s: System, step: Step)
    requires Inv(wrapped, s) && Possible(wrapped, s, step)
    ensures Inv(wrapped, Apply(wrapped, s, step))
  {
    match step {
      case Acquire(l, x) => AcquireKeepsInv(wrapped, s, l, x);
      case Copy(l) => CopyKeepsInv(wrapped, s, l);
      case Release(l) => ReleaseKeepsInv(wrapped, s, l);
      case Open(_) =>
      case Enqueue(b, x, immediate) => EnqueueKeepsInv(wrapped, s, b, x, immediate);
      case Compute(_) =>
      case CopyNext(b) => CopiedIsGood(wrapped, s.batches[b]);
      case StoreNext(b) => StoreKeepsInv(wrapped, s, b);
      case Resize(n) => ResizedIsSane(wrapped, s.shared, n);
      case ClearAll => EmptiedIsSane(wrapped, s.shared);
    }
  }

  // ---- runs ----

  ghost predicate IsRun(wrapped: Key -> Eval, s: System, steps: seq<Step>)
    requires Inv(wrapped, s)
    decreases |steps|
  {
    steps == [] || (Possible(wrapped, s, steps[0]) && (
      StepKeepsInv(wrapped, s, steps[0]);
      IsRun(wrapped, Apply(wrapped, s, steps[0]), steps[1..])))
  }

  /** The state after a run. The invariant holds at its end, hence at every point of every run. */
  ghost function Outcome(wrapped: Key -> Eval, s: System, steps: seq<Step>): (r: System)
    requires Inv(wrapped, s) && IsRun(wrapped, s, steps)
    ensures Inv(wrapped, r)
    decreases |steps|
  {
    if steps == [] then s else
    StepKeepsInv(wrapped, s, steps[0]);
    Outcome(wrapped, Apply(wrapped, s, steps[0]), steps[1..])
  }

  /** A new backend without locks and batches. */
  ghost function Start(wrapped: Key -> Eval, capacity: nat): (s: System)
    ensures Inv(wrapped, s)
  {
    System(Shared(Model(capacity, map[], [], multiset{}, {}), map[], 0), map[], map[], [])
  }

  // ---- every reply is right ----

  /** The queries put into batch `b`, in order. */
  function Enqueued(steps: seq<Step>, b: nat): seq<Query> {
    if steps == [] then []
    else (if steps[0].Enqueue? && steps[0].batch == b then [steps[0].query] else []) + Enqueued(steps[1..], b)
  }

  function Queries(entries: seq<Request>): seq<Query> {
    seq(|entries|, i requires 0 <= i < |entries| => entries[i].query)
  }

  /** What batch `b` holds; nothing before it is opened. */
  function EntriesOf(s: System, b: nat): seq<Request> {
    if b in s.batches then s.batches[b].entries else []
  }

  lemma StepQueues(wrapped: Key -> Eval, s: System, step: Step, b: nat)
    requires Inv(wrapped, s) && Possible(wrapped, s, step)
    ensures Queries(EntriesOf(Apply(wrapped, s, step), b)) ==
            Queries(EntriesOf(s, b)) + if step.Enqueue? && step.batch == b then [step.query] else []
  {
  }

  lemma Regroup(x: seq<Query>, y: seq<Query>, z: seq<Query>)
    ensures x + y + z == x + (y + z)
  {
  }

  lemma {:induction false} RunQueues(wrapped: Key -> Eval, s: System, steps: seq<Step>, b: nat)
    requires Inv(wrapped, s) && IsRun(wrapped, s, steps)
    ensures Queries(EntriesOf(Outcome(wrapped, s, steps), b)) == Queries(EntriesOf(s, b)) + Enqueued(steps, b)
    decreases |steps|
  {
    if steps != [] {
      StepKeepsInv(wrapped, s, steps[0]);
      var next := Apply(wrapped, s, steps[0]);
      RunQueues(wrapped, next, steps[1..], b);
      StepQueues(wrapped, s, steps[0], b);
      var first := if steps[0].Enqueue? && steps[0].batch == b then [steps[0].query] else [];
      Regroup(Queries(EntriesOf(s, b)), first, Enqueued(steps[1..], b));
    }
  }

  /** Whatever happens on the backend, in whatever order: replies from the cache are those of the wrapped backend, and a
      batch that is through has given each query it was handed, in its order, the reply of the wrapped backend. */
  lemma EveryReplyIsRight(wrapped: Key -> Eval, capacity: nat, steps: seq<Step>, b: nat)
    requires IsRun(wrapped, Start(wrapped, capacity), steps)
    ensures var r := Outcome(wrapped, Start(wrapped, capacity), steps);
      && (forall f :: f in r.fetched ==> Delivers(wrapped, f.0, f.1))
      && (b in r.batches && r.batches[b].stage == Copying(|Enqueued(steps, b)|) ==>
        forall i :: 0 <= i < |Enqueued(steps, b)| ==>
          var entry := r.batches[b].entries[i];
          entry.query == Enqueued(steps, b)[i] && entry.reply.Some? &&
            Delivers(wrapped, entry.query, entry.reply.value))
  {
    var r := Outcome(wrapped, Start(wrapped, capacity), steps);
    RunQueues(wrapped, Start(wrapped, capacity), steps, b);
    var queries := Enqueued(steps, b);
    assert Queries(EntriesOf(r, b)) == queries;
    if b in r.batches && r.batches[b].stage == Copying(|queries|) {
      var batch := r.batches[b];
      assert BatchGood(wrapped, batch);
      forall i | 0 <= i < |queries|
        ensures batch.entries[i].query == queries[i] && Answered(wrapped, batch.entries[i], batch.entries[i])
      {
        assert Queries(batch.entries)[i] == queries[i];
      }
    }
  }

  // ---- a held value stays ----

  lemma StepKeepsValues(wrapped: Key -> Eval, s: System, step: Step, p: Pointer)
    requires Inv(wrapped, s) && Possible(wrapped, s, step) && p in s.shared.heap
    ensures var r := Apply(wrapped, s, step); p in r.shared.heap ==> r.shared.heap[p] == s.shared.heap[p]
  {
    assert p < s.shared.next by {
      var k: Key :| Owned(s.shared.model, (k, p));
      assert Kept(wrapped, s.shared, (k, p));
    }
  }

  /** As long as a lock is not released, what it points at stays where it is and does not change, through insertions,
      evictions, resizing and clearing by anyone. */
  lemma {:induction false} HeldIsStable(wrapped: Key -> Eval, s: System, steps: seq<Step>, l: nat)
    requires Inv(wrapped, s) && IsRun(wrapped, s, steps) && l in s.locks && s.locks[l].pin.Some? && Release(l) !in steps
    ensures var r, p := Outcome(wrapped, s, steps), s.locks[l].pin.value;
      && l in r.locks && r.locks[l] == s.locks[l]
      && p in s.shared.heap && p in r.shared.heap && r.shared.heap[p] == s.shared.heap[p]
    decreases |steps|
  {
    HeldIsLive(wrapped, s, l);
    if steps != [] {
      var next := Apply(wrapped, s, steps[0]);
      StepKeepsInv(wrapped, s, steps[0]);
      StepKeepsLock(wrapped, s, steps[0], l);
      HeldIsLive(wrapped, next, l);
      StepKeepsValues(wrapped, s, steps[0], s.locks[l].pin.value);
      HeldIsStable(wrapped, next, steps[1..], l);
    }
  }

  lemma StepKeepsLock(wrapped: Key -> Eval, s: System, step: Step, l: nat)
    requires Inv(wrapped, s) && Possible(wrapped, s, step) && l in s.locks && step != Release(l)
    ensures var r := Apply(wrapped, s, step); l in r.locks && r.locks[l] == s.locks[l]
  {
  }

  // ---- what the cache sees ----

  /** The call a step makes on the cache. */
  function CallOf(s: System, step: Step): Option<Call> {
    match step
    case Acquire(_, x) => Some(LookupCall(x.key))
    case Release(l) =>
      if l in s.locks && s.locks[l].pin.Some? then Some(UnpinCall((s.locks[l].query.key, s.locks[l].pin.value)))
        else None
    case StoreNext(b) =>
      if b in s.batches && s.batches[b].stage.Storing? && s.batches[b].stage.i < |s.batches[b].entries|
      then Some(InsertCall(s.batches[b].entries[s.batches[b].stage.i].query.key, s.shared.next))
      else None
    case Resize(n) => Some(ResizeCall(n))
    case ClearAll => Some(ClearCall)
    case _ => None
  }

  ghost function CallsOf(wrapped: Key -> Eval, s: System, steps: seq<Step>): seq<Call>
    requires Inv(wrapped, s) && IsRun(wrapped, s, steps)
    decreases |steps|
  {
    if steps == [] then [] else
    StepKeepsInv(wrapped, s, steps[0]);
    var rest := CallsOf(wrapped, Apply(wrapped, s, steps[0]), steps[1..]);
    match CallOf(s, steps[0])
    case None => rest
    case Some(c) => [c] + rest
  }

  lemma StepIsCall(wrapped: Key -> Eval, s: System, step: Step)
    requires Inv(wrapped, s) && Possible(wrapped, s, step)
    ensures match CallOf(s, step)
      case None => Apply(wrapped, s, step).shared.model == s.shared.model
      case Some(c) =>
        && Allowed(s.shared.model, c)
        && Apply(wrapped, s, step).shared.model == CacheRuns.Apply(s.shared.model, c)
  {
    match step {
      case Release(l) => if s.locks[l].pin.Some? { HeldIsLive(wrapped, s, l); }
      case StoreNext(b) =>
        assert BatchGood(wrapped, s.batches[b]);
        NextIsFresh(wrapped, s.shared);
      case _ =>
    }
  }

  /** The steps drive the cache through one of its runs, so all that is proved of those holds here. */
  lemma {:induction false} RunIsCacheRun(wrapped: Key -> Eval, s: System, steps: seq<Step>)
    requires Inv(wrapped, s) && IsRun(wrapped, s, steps)
    ensures var calls := CallsOf(wrapped, s, steps);
      && CacheRuns.IsRun(s.shared.model, calls)
      && CacheRuns.Outcome(s.shared.model, calls) == Outcome(wrapped, s, steps).shared.model
    decreases |steps|
  {
    if steps != [] {
      StepKeepsInv(wrapped, s, steps[0]);
      StepIsCall(wrapped, s, steps[0]);
      var next := Apply(wrapped, s, steps[0]);
      RunIsCacheRun(wrapped, next, steps[1..]);
      var rest := CallsOf(wrapped, next, steps[1..]);
      if CallOf(s, steps[0]).Some? {
        var calls := [CallOf(s, steps[0]).value] + rest;
        assert CallsOf(wrapped, s, steps) == calls && calls[1..] == rest;
      }
    }
  }

  /** The locks held on a value are its pins: those at the start, and one for each lookup that found it, less one for
      each unpin. While there is one, the value is owned. */
  lemma LocksAreConserved(wrapped: Key -> Eval, s: System, steps: seq<Step>, e: (Key, Pointer))
    requires Inv(wrapped, s) && IsRun(wrapped, s, steps)
    ensures var r, calls := Outcome(wrapped, s, steps), CallsOf(wrapped, s, steps);
      && CacheRuns.IsRun(s.shared.model, calls)
      && |Holders(r.locks, e)| == |Holders(s.locks, e)| + Taken(s.shared.model, calls, e) - Returned(calls, e)
      && (Holders(r.locks, e) != {} ==> Owned(r.shared.model, e))
  {
    RunIsCacheRun(wrapped, s, steps);
    var r := Outcome(wrapped, s, steps);
    PinnedIsNeverFreed(s.shared.model, CallsOf(wrapped, s, steps), e);
    assert s.shared.model.pins[e] == |Holders(s.locks, e)| && r.shared.model.pins[e] == |Holders(r.locks, e)|;
  }

  /** Nothing leaks: without locks, clearing the cache frees every value. */
  lemma ClearingFreesAll(wrapped: Key -> Eval, s: System)
    requires Inv(wrapped, s) && s.locks == map[]
    ensures Apply(wrapped, s, ClearAll).shared.heap == map[]
  {
    var m := EvictTo(s.shared.model, 0);
    forall e: (Key, Pointer) ensures !Owned(m, e) {
      assert s.shared.model.pins[e] == |Holders(s.locks, e)|;
      assert Holders(s.locks, e) == {};
      assert e.0 !in m.queue;
    }
  }
}
