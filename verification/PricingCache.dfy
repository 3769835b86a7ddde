/**
 * CachedPricingEngine (pricing/cache.py): an LRU of valuations in front of an engine.
 *
 * A request is a position together with its market. `inner` is the wrapped engine, `keyOf`
 * valuation_cache_key; both can raise.
 */
module PricingCache {
  import opened Wrappers
  import opened Lru

  datatype Failure<E> = MissingMarket | Raised(error: E)

  datatype Stats = Stats(hits: nat, misses: nat, size: nat)

  class CachedPricingEngine<Req(!new), K(==), V, E> {
    const inner: Req -> Result<V, E>
    const keyOf: Req -> Result<K, E>
    const maxsize: nat
    var order: seq<K>
    var entries: map<K, V>
    var hits: nat
    var misses: nat

    ghost function Contents(): Store<K, V>
      reads this
    {
      Store(order, entries)
    }

    /** What holds whenever the lock is free. */
    ghost predicate Valid()
      reads this
    {
      maxsize >= 1 && Consistent(Contents()) && |order| <= maxsize
    }

    constructor (inner: Req -> Result<V, E>, keyOf: Req -> Result<K, E>, maxsize: nat)
      requires maxsize >= 1
      ensures Valid() && Contents() == Empty() && hits == 0 && misses == 0
      ensures this.inner == inner && this.keyOf == keyOf && this.maxsize == maxsize
    {
      this.inner, this.keyOf, this.maxsize := inner, keyOf, maxsize;
      order, entries := [], map[];
      hits, misses := 0, 0;
    }

    /** Counters survive. */
    method Clear()
      requires Valid()
      modifies `order, `entries
      ensures Valid() && Contents() == Empty()
    {
      order, entries := [], map[];
    }

    method GetStats() returns (s: Stats)
      requires Valid()
      ensures s == Stats(hits, misses, |order|)
    {
      SizeIsLength(Contents());
      s := Stats(hits, misses, |entries|);
    }

    method MoveToEnd(k: K)
      requires Valid() && k in entries
      modifies `order
      ensures Valid() && Contents() == Touch(old(Contents()), k)
    {
      TouchKeeps(Contents(), k);
      order := Without(order, k) + [k];
    }

    /** The first locked section. */
    method Lookup(k: K) returns (cached: Option<V>)
      requires Valid()
      modifies `order, `hits, `misses
      ensures Valid()
      ensures cached == if k in entries then Some(entries[k]) else None
      ensures Contents() == if k in entries then Touch(old(Contents()), k) else old(Contents())
      ensures hits == old(hits) + (if cached.Some? then 1 else 0)
      ensures misses == old(misses) + (if cached.Some? then 0 else 1)
    {
      if k in entries {
        MoveToEnd(k);
        hits := hits + 1;
        cached := Some(entries[k]);
      } else {
        misses := misses + 1;
        cached := None;
      }
    }

    /** popitem(last=False) while there are too many. */
    method Evict()
      requires maxsize >= 1 && Consistent(Contents())
      modifies `order, `entries
      ensures Valid() && Contents() == Trim(old(Contents()), maxsize)
    {
      ghost var start := Contents();
      SizeIsLength(Contents());
      while |entries| > maxsize
        invariant Consistent(Contents()) && |entries| == |order|
        invariant Trim(Contents(), maxsize) == Trim(start, maxsize)
      {
        DropOldestKeeps(Contents());
        TrimAfterDrop(Contents(), maxsize);
        entries := entries - {order[0]};
        order := order[1..];
        SizeIsLength(Contents());
      }
      TrimKeeps(start, maxsize);
    }

    /** The second locked section: an entry another caller stored meanwhile wins. */
    method Fill(k: K, valuation: V) returns (v: V)
      requires Valid()
      modifies `order, `entries
      ensures Valid() && Contents() == Insert(old(Contents()), k, valuation, maxsize)
      ensures v == if k in old(entries) then old(entries)[k] else valuation
    {
      if k in entries {
        MoveToEnd(k);
        return entries[k];
      }
      AssignKeeps(Contents(), k, valuation);
      order, entries := Without(order, k) + [k], entries[k := valuation];
      Evict();
      v := valuation;
    }

    /** CachedPricingEngine.value called by one caller at a time. */
    method Value(req: Option<Req>, bypass: bool) returns (r: Result<V, Failure<E>>)
      requires Valid()
      modifies this
      ensures Valid()
      ensures req.None? ==> r == Err(MissingMarket) && unchanged(this)
      ensures req.Some? && bypass ==> r == Answer(inner(req.value)) && unchanged(this)
      ensures req.Some? && !bypass ==>
        && r == Answered(old(Contents()), inner, keyOf, req.value)
        && Contents() == After(old(Contents()), inner, keyOf, maxsize, req.value)
        && hits == old(hits) + (if IsHit(old(Contents()), keyOf, req.value) then 1 else 0)
        && misses == old(misses) + (if IsMiss(old(Contents()), keyOf, req.value) then 1 else 0)
    {
      if req.None? {
        return Err(MissingMarket);
      }
      if bypass {
        return Answer(inner(req.value));
      }
      var key := keyOf(req.value);
      if key.Err? {
        return Err(Raised(key.error));
      }
      var cached := Lookup(key.value);
      if cached.Some? {
        return Ok(cached.value);
      }
      var computed := inner(req.value);
      if computed.Err? {
        return Err(Raised(computed.error));
      }
      var v := Fill(key.value, computed.value);
      r := Ok(v);
    }
  }

  // ----- one call, as a function of what the cache held -----

  function Answer<V, E>(r: Result<V, E>): Result<V, Failure<E>> {
    match r
    case Ok(v) => Ok(v)
    case Err(e) => Err(Raised(e))
  }

  predicate IsHit<Req, K, V, E>(s: Store<K, V>, keyOf: Req -> Result<K, E>, req: Req) {
    keyOf(req).Ok? && keyOf(req).value in s.entries
  }

  predicate IsMiss<Req, K, V, E>(s: Store<K, V>, keyOf: Req -> Result<K, E>, req: Req) {
    keyOf(req).Ok? && keyOf(req).value !in s.entries
  }

  function Answered<Req, K, V, E>(s: Store<K, V>, inner: Req -> Result<V, E>, keyOf: Req -> Result<K, E>, req: Req): Result<V, Failure<E>> {
    match keyOf(req)
    case Err(e) => Err(Raised(e))
    case Ok(k) => if k in s.entries then Ok(s.entries[k]) else Answer(inner(req))
  }

  function After<Req, K, V, E>(s: Store<K, V>, inner: Req -> Result<V, E>, keyOf: Req -> Result<K, E>, maxsize: nat, req: Req): Store<K, V> {
    match keyOf(req)
    case Err(_) => s
    case Ok(k) =>
      if k in s.entries then Touch(s, k)
      else match inner(req)
        case Err(_) => s
        case Ok(v) => Insert(s, k, v, maxsize)
  }

  // ----- single-threaded runs -----

  datatype Call<Req> = Price(req: Req) | Clear

  datatype Run<K, V> = Run(store: Store<K, V>, hits: nat)

  function RunCalls<Req, K, V, E>(inner: Req -> Result<V, E>, keyOf: Req -> Result<K, E>, maxsize: nat, calls: seq<Call<Req>>): Run<K, V> {
    if calls == [] then Run(Empty(), 0)
    else
      var before := RunCalls(inner, keyOf, maxsize, calls[..|calls| - 1]);
      match calls[|calls| - 1]
      case Clear => before.(store := Empty())
      case Price(req) =>
        Run(After(before.store, inner, keyOf, maxsize, req),
            before.hits + if IsHit(before.store, keyOf, req) then 1 else 0)
  }

  /** A run is the class at work: calls and clears on a new engine, one after the other. */
  method Replay<Req(!new), K(==), V, E>(engine: CachedPricingEngine<Req, K, V, E>, calls: seq<Call<Req>>)
    requires engine.Valid() && engine.Contents() == Empty() && engine.hits == 0
    modifies engine
    ensures engine.Valid() && RunCalls(engine.inner, engine.keyOf, engine.maxsize, calls) == Run(engine.Contents(), engine.hits)
  {
    for i := 0 to |calls|
      invariant engine.Valid()
      invariant RunCalls(engine.inner, engine.keyOf, engine.maxsize, calls[..i]) == Run(engine.Contents(), engine.hits)
    {
      assert calls[..i + 1][..i] == calls[..i];
      match calls[i] {
        case Clear => engine.Clear();
        case Price(req) => var _ := engine.Value(Some(req), false);
      }
    }
    assert calls[..|calls|] == calls;
  }

  /** Keys of the requests since the last clear that have a value, in order. */
  function Uses<Req, K, V, E>(inner: Req -> Result<V, E>, keyOf: Req -> Result<K, E>, calls: seq<Call<Req>>): seq<K> {
    if calls == [] then []
    else
      var before := Uses(inner, keyOf, calls[..|calls| - 1]);
      match calls[|calls| - 1]
      case Clear => []
      case Price(req) => if keyOf(req).Ok? && inner(req).Ok? then before + [keyOf(req).value] else before
  }

  ghost predicate Asked<Req>(calls: seq<Call<Req>>, universe: iset<Req>) {
    forall c :: c in calls && c.Price? ==> c.req in universe
  }

  /**
   * The key decides the answer: a request whose key cannot be computed raises what the engine
   * raises, and one that shares the key of a request with a value has that value.
   */
  ghost predicate KeySound<Req(!new), K, V, E>(inner: Req -> Result<V, E>, keyOf: Req -> Result<K, E>, universe: iset<Req>) {
    && (forall a :: a in universe && keyOf(a).Err? ==> inner(a) == Err(keyOf(a).error))
    && (forall a, b :: a in universe && b in universe && keyOf(a).Ok? && keyOf(a) == keyOf(b) && inner(a).Ok? ==> inner(b) == inner(a))
  }

  /** Every entry is the engine's value for each request with that key. */
  ghost predicate EntriesRight<Req(!new), K, V, E>(s: Store<K, V>, inner: Req -> Result<V, E>, keyOf: Req -> Result<K, E>, universe: iset<Req>) {
    forall b :: b in universe && keyOf(b).Ok? && keyOf(b).value in s.entries ==> inner(b) == Ok(s.entries[keyOf(b).value])
  }

  lemma AfterKeepsRight<Req(!new), K, V, E>(s: Store<K, V>, inner: Req -> Result<V, E>, keyOf: Req -> Result<K, E>,
                                          maxsize: nat, req: Req, universe: iset<Req>)
    requires Consistent(s) && |s.order| <= maxsize && req in universe
    requires KeySound(inner, keyOf, universe) && EntriesRight(s, inner, keyOf, universe)
    ensures Consistent(After(s, inner, keyOf, maxsize, req)) && |After(s, inner, keyOf, maxsize, req).order| <= maxsize
    ensures EntriesRight(After(s, inner, keyOf, maxsize, req), inner, keyOf, universe)
    ensures Answered(s, inner, keyOf, req) == Answer(inner(req))
  {
    if keyOf(req).Ok? {
      var k := keyOf(req).value;
      if k in s.entries {
        TouchKeeps(s, k);
      } else if inner(req).Ok? {
        InsertKeeps(s, k, inner(req).value, maxsize);
      }
    }
  }

  // ----- what any run leaves behind -----

  /** Keys of the calls since the last clear that were given a value, from the store or by the engine, in order. */
  function Used<Req, K(==), V, E>(inner: Req -> Result<V, E>, keyOf: Req -> Result<K, E>, maxsize: nat, calls: seq<Call<Req>>): seq<K> {
    if calls == [] then []
    else
      var rest, c := calls[..|calls| - 1], calls[|calls| - 1];
      var before := Used(inner, keyOf, maxsize, rest);
      if c.Clear? then []
      else if Answered(RunCalls(inner, keyOf, maxsize, rest).store, inner, keyOf, c.req).Ok? then before + [keyOf(c.req).value]
      else before
  }

  lemma AfterKeeps<Req, K, V, E>(s: Store<K, V>, inner: Req -> Result<V, E>, keyOf: Req -> Result<K, E>, maxsize: nat, req: Req)
    requires Consistent(s) && |s.order| <= maxsize
    ensures Consistent(After(s, inner, keyOf, maxsize, req)) && |After(s, inner, keyOf, maxsize, req).order| <= maxsize
  {
    if keyOf(req).Ok? {
      var k := keyOf(req).value;
      if k in s.entries {
        TouchKeeps(s, k);
      } else if inner(req).Ok? {
        InsertKeeps(s, k, inner(req).value, maxsize);
      }
    }
  }

  lemma {:induction false} RunConsistent<Req, K, V, E>(inner: Req -> Result<V, E>, keyOf: Req -> Result<K, E>, maxsize: nat, calls: seq<Call<Req>>)
    ensures var s := RunCalls(inner, keyOf, maxsize, calls).store; Consistent(s) && |s.order| <= maxsize
  {
    if calls != [] {
      var rest, c := calls[..|calls| - 1], calls[|calls| - 1];
      RunConsistent(inner, keyOf, maxsize, rest);
      if c.Price? {
        AfterKeeps(RunCalls(inner, keyOf, maxsize, rest).store, inner, keyOf, maxsize, c.req);
      }
    }
  }

  /** The cached keys are the maxsize most recently used ones, for any engine, any keys and any calls. */
  lemma {:induction false} RunKeepsNewest<Req, K, V, E>(inner: Req -> Result<V, E>, keyOf: Req -> Result<K, E>, maxsize: nat, calls: seq<Call<Req>>)
    requires maxsize >= 1
    ensures var s := RunCalls(inner, keyOf, maxsize, calls).store;
      Consistent(s) && s.order == Newest(Recency(Used(inner, keyOf, maxsize, calls)), maxsize)
  {
    RunConsistent(inner, keyOf, maxsize, calls);
    if calls != [] {
      var rest, c := calls[..|calls| - 1], calls[|calls| - 1];
      RunKeepsNewest(inner, keyOf, maxsize, rest);
      if c.Price? {
        AfterIsNewest(RunCalls(inner, keyOf, maxsize, rest).store, inner, keyOf, maxsize, c.req, Used(inner, keyOf, maxsize, rest));
      }
    }
  }

  lemma AfterIsNewest<Req, K, V, E>(s: Store<K, V>, inner: Req -> Result<V, E>, keyOf: Req -> Result<K, E>, maxsize: nat, req: Req, uses: seq<K>)
    requires maxsize >= 1 && Consistent(s) && s.order == Newest(Recency(uses), maxsize)
    ensures After(s, inner, keyOf, maxsize, req).order
      == Newest(Recency(if Answered(s, inner, keyOf, req).Ok? then uses + [keyOf(req).value] else uses), maxsize)
  {
    if Answered(s, inner, keyOf, req).Ok? {
      var k := keyOf(req).value;
      RecencySnoc(uses, k);
      RecencyDistinct(uses);
      NewestOfTouch(Recency(uses), k, maxsize);
      if k in s.entries {
        TouchKeeps(s, k);
      }
    }
  }

  lemma RecencySnoc<K>(uses: seq<K>, k: K)
    ensures Recency(uses + [k]) == Without(Recency(uses), k) + [k]
  {
    assert (uses + [k])[..|uses|] == uses;
  }

  /** A key is cached exactly when fewer than maxsize other keys were used after its last use since the clear. */
  lemma CachedExactly<Req, K, V, E>(inner: Req -> Result<V, E>, keyOf: Req -> Result<K, E>, maxsize: nat, calls: seq<Call<Req>>, i: nat)
    requires maxsize >= 1
    requires var uses := Used(inner, keyOf, maxsize, calls); i < |uses| && uses[i] !in uses[i + 1..]
    ensures var uses := Used(inner, keyOf, maxsize, calls);
      uses[i] in RunCalls(inner, keyOf, maxsize, calls).store.entries <==> |KeysOf(uses[i + 1..])| < maxsize
  {
    var s, uses := RunCalls(inner, keyOf, maxsize, calls).store, Used(inner, keyOf, maxsize, calls);
    RunKeepsNewest(inner, keyOf, maxsize, calls);
    NewestExactly(uses, i, maxsize);
    assert uses[i] in s.order <==> uses[i] in s.entries;
  }

  /** Nothing else is cached. */
  lemma CachedWasUsed<Req, K, V, E>(inner: Req -> Result<V, E>, keyOf: Req -> Result<K, E>, maxsize: nat, calls: seq<Call<Req>>, k: K)
    requires maxsize >= 1
    requires k in RunCalls(inner, keyOf, maxsize, calls).store.entries
    ensures k in Used(inner, keyOf, maxsize, calls)
  {
    RunKeepsNewest(inner, keyOf, maxsize, calls);
    RecencyDistinct(Used(inner, keyOf, maxsize, calls));
    assert k in RunCalls(inner, keyOf, maxsize, calls).store.order;
  }

  // ----- a smaller and a larger cache -----

  /** The smaller order is part of the larger, and is full or the same. */
  ghost predicate Nested<K>(a: seq<K>, b: seq<K>, small: nat) {
    Part(a, b) && (a == b || |a| == small)
  }

  lemma TrimmedOrder<K, V>(s: Store<K, V>, k: K, v: V, m: nat)
    requires Consistent(s) && k !in s.entries
    ensures Insert(s, k, v, m).order == Newest(s.order + [k], m)
  {
    WithoutMembers(s.order, k);
  }

  lemma StepNested<Req, K, V, E>(a: Store<K, V>, b: Store<K, V>, inner: Req -> Result<V, E>, keyOf: Req -> Result<K, E>, small: nat, large: nat, req: Req)
    requires small <= large && Consistent(a) && Consistent(b) && |a.order| <= small && |b.order| <= large
    requires Nested(a.order, b.order, small)
    ensures Nested(After(a, inner, keyOf, small, req).order, After(b, inner, keyOf, large, req).order, small)
    ensures IsHit(a, keyOf, req) ==> IsHit(b, keyOf, req)
  {
    if keyOf(req).Ok? {
      var k := keyOf(req).value;
      PartMembers(a.order, b.order);
      if k in a.entries {
        BothTouched(a, b, k, small);
      } else if k in b.entries {
        LargerTouched(a.order, b.order, k, small);
        if inner(req).Ok? {
          TrimmedOrder(a, k, inner(req).value, small);
        }
      } else if inner(req).Ok? {
        TrimmedOrder(a, k, inner(req).value, small);
        TrimmedOrder(b, k, inner(req).value, large);
        BothInserted(a.order, b.order, k, small, large);
      }
    }
  }

  lemma BothTouched<K, V>(a: Store<K, V>, b: Store<K, V>, k: K, small: nat)
    requires Consistent(a) && k in a.entries && Nested(a.order, b.order, small)
    ensures Nested(Touch(a, k).order, Touch(b, k).order, small)
  {
    PartWithout(a.order, b.order, k);
    PartSnoc(Without(a.order, k), Without(b.order, k), k);
    TouchKeeps(a, k);
  }

  lemma LargerTouched<K>(a: seq<K>, b: seq<K>, k: K, small: nat)
    requires Nested(a, b, small) && |a| <= small && k !in a && k in b
    ensures Nested(a, Without(b, k) + [k], small)
    ensures Nested(Newest(a + [k], small), Without(b, k) + [k], small)
  {
    WithoutMembers(a, k);
    PartWithout(a, b, k);
    PartLonger(a, Without(b, k), k);
    PartSnoc(a, Without(b, k), k);
    NewestOfPart(a + [k], Without(b, k) + [k], small);
  }

  lemma BothInserted<K>(a: seq<K>, b: seq<K>, k: K, small: nat, large: nat)
    requires small <= large && Nested(a, b, small) && |a| <= small && |b| <= large
    ensures Nested(Newest(a + [k], small), Newest(b + [k], large), small)
  {
    PartSnoc(a, b, k);
    PartLength(a, b);
    NewestOfPart(a + [k], b + [k], small);
    if |b| == large {
      PartTails(a + [k], b + [k]);
    }
  }

  /** Inclusion, for any engine, any keys and any calls: a larger cache holds everything a smaller one does, and has hit at least as often. */
  lemma {:induction false} LargerCacheIncludes<Req, K, V, E>(inner: Req -> Result<V, E>, keyOf: Req -> Result<K, E>, small: nat, large: nat,
                                                             calls: seq<Call<Req>>)
    requires small <= large
    ensures var a, b := RunCalls(inner, keyOf, small, calls), RunCalls(inner, keyOf, large, calls);
      && a.store.entries.Keys <= b.store.entries.Keys && a.hits <= b.hits
      && Nested(a.store.order, b.store.order, small)
  {
    var a, b := RunCalls(inner, keyOf, small, calls).store, RunCalls(inner, keyOf, large, calls).store;
    if calls != [] {
      var rest, c := calls[..|calls| - 1], calls[|calls| - 1];
      LargerCacheIncludes(inner, keyOf, small, large, rest);
      RunConsistent(inner, keyOf, small, rest);
      RunConsistent(inner, keyOf, large, rest);
      if c.Price? {
        StepNested(RunCalls(inner, keyOf, small, rest).store, RunCalls(inner, keyOf, large, rest).store, inner, keyOf, small, large, c.req);
      }
    }
    RunConsistent(inner, keyOf, small, calls);
    RunConsistent(inner, keyOf, large, calls);
    PartMembers(a.order, b.order);
  }

  // ----- keys that settle success, and values -----

  /** Requests with one key are priced together or fail together; their values may differ. */
  ghost predicate KeyTogether<Req(!new), K, V, E>(inner: Req -> Result<V, E>, keyOf: Req -> Result<K, E>, universe: iset<Req>) {
    forall a, b :: a in universe && b in universe && keyOf(a).Ok? && keyOf(a) == keyOf(b) && inner(a).Ok? ==> inner(b).Ok?
  }

  /** Only what the engine prices is stored. */
  ghost predicate EntriesPriced<Req(!new), K, V, E>(s: Store<K, V>, inner: Req -> Result<V, E>, keyOf: Req -> Result<K, E>, universe: iset<Req>) {
    forall b :: b in universe && keyOf(b).Ok? && keyOf(b).value in s.entries ==> inner(b).Ok?
  }

  lemma AfterKeepsPriced<Req(!new), K, V, E>(s: Store<K, V>, inner: Req -> Result<V, E>, keyOf: Req -> Result<K, E>,
                                           maxsize: nat, req: Req, universe: iset<Req>)
    requires Consistent(s) && |s.order| <= maxsize && req in universe
    requires KeyTogether(inner, keyOf, universe) && EntriesPriced(s, inner, keyOf, universe)
    ensures EntriesPriced(After(s, inner, keyOf, maxsize, req), inner, keyOf, universe)
  {
    if keyOf(req).Ok? {
      var k := keyOf(req).value;
      if k in s.entries {
        TouchKeeps(s, k);
      } else if inner(req).Ok? {
        InsertKeeps(s, k, inner(req).value, maxsize);
      }
    }
  }

  /** Then what is used does not depend on the cache: it is what the engine can price. */
  lemma {:induction false} UsedIsPriced<Req(!new), K, V, E>(inner: Req -> Result<V, E>, keyOf: Req -> Result<K, E>, maxsize: nat,
                                                           calls: seq<Call<Req>>, universe: iset<Req>)
    requires Asked(calls, universe) && KeyTogether(inner, keyOf, universe)
    ensures Used(inner, keyOf, maxsize, calls) == Uses(inner, keyOf, calls)
    ensures EntriesPriced(RunCalls(inner, keyOf, maxsize, calls).store, inner, keyOf, universe)
  {
    if calls != [] {
      var rest, c := calls[..|calls| - 1], calls[|calls| - 1];
      UsedIsPriced(inner, keyOf, maxsize, rest, universe);
      RunConsistent(inner, keyOf, maxsize, rest);
      assert c in calls;
      if c.Price? {
        AfterKeepsPriced(RunCalls(inner, keyOf, maxsize, rest).store, inner, keyOf, maxsize, c.req, universe);
      }
    }
  }

  /** Where the key decides the value, every entry has its own. */
  lemma {:induction false} RunKeepsRight<Req(!new), K, V, E>(inner: Req -> Result<V, E>, keyOf: Req -> Result<K, E>,
                                                             maxsize: nat, calls: seq<Call<Req>>, universe: iset<Req>)
    requires Asked(calls, universe) && KeySound(inner, keyOf, universe)
    ensures EntriesRight(RunCalls(inner, keyOf, maxsize, calls).store, inner, keyOf, universe)
  {
    if calls != [] {
      var rest, c := calls[..|calls| - 1], calls[|calls| - 1];
      RunKeepsRight(inner, keyOf, maxsize, rest, universe);
      RunConsistent(inner, keyOf, maxsize, rest);
      assert c in calls;
      if c.Price? {
        AfterKeepsRight(RunCalls(inner, keyOf, maxsize, rest).store, inner, keyOf, maxsize, c.req, universe);
      }
    }
  }
}
