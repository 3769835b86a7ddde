/**
 * CachedPricingEngine.value under threads (pricing/cache.py): the lock is dropped between the
 * lookup and the insert, so a call is three steps and other threads may step in between.
 */
module CacheProtocol {
  import opened Wrappers
  import opened Lru
  import opened PricingCache

  /** How far a thread is with its call; a thread with no phase is not calling. */
  datatype Phase<Req, K, V, E> =
    | Computing(req: Req, key: K)
    | Filling(req: Req, key: K, computed: V)
    | Done(req: Req, result: Result<V, Failure<E>>)

  datatype State<Req, K, V, E> = State(store: Store<K, V>, threads: map<nat, Phase<Req, K, V, E>>)

  datatype Action<Req> =
    | Begin(thread: nat, req: Req)
    | BeginBypassed(thread: nat, req: Req)
    | Compute(thread: nat)
    | Fill(thread: nat)
    | Return(thread: nat)
    | ClearStore

  /** What the two cache-aware steps and the engine need to know. */
  datatype Setup<!Req, !K, V, E> = Setup(inner: Req -> Result<V, E>, keyOf: Req -> Result<K, E>, maxsize: nat)

  function Initial<Req, K, V, E>(): State<Req, K, V, E> {
    State(Empty(), map[])
  }

  /** The first locked section. */
  function BeginStep<Req, K, V, E>(c: Setup<Req, K, V, E>, s: State<Req, K, V, E>, t: nat, req: Req): State<Req, K, V, E> {
    match c.keyOf(req)
    case Err(e) => s.(threads := s.threads[t := Done(req, Err(Raised(e)))])
    case Ok(k) =>
      if k in s.store.entries
      then State(Touch(s.store, k), s.threads[t := Done(req, Ok(s.store.entries[k]))])
      else s.(threads := s.threads[t := Computing(req, k)])
  }

  /** The engine, outside the lock. */
  function ComputeStep<Req, K, V, E>(c: Setup<Req, K, V, E>, s: State<Req, K, V, E>, t: nat): State<Req, K, V, E>
    requires t in s.threads && s.threads[t].Computing?
  {
    var p := s.threads[t];
    match c.inner(p.req)
    case Err(e) => s.(threads := s.threads[t := Done(p.req, Err(Raised(e)))])
    case Ok(v) => s.(threads := s.threads[t := Filling(p.req, p.key, v)])
  }

  /** The second locked section. */
  function FillStep<Req, K, V, E>(c: Setup<Req, K, V, E>, s: State<Req, K, V, E>, t: nat): State<Req, K, V, E>
    requires t in s.threads && s.threads[t].Filling?
  {
    var p := s.threads[t];
    var v := if p.key in s.store.entries then s.store.entries[p.key] else p.computed;
    State(Insert(s.store, p.key, p.computed, c.maxsize), s.threads[t := Done(p.req, Ok(v))])
  }

  /** A step that is not enabled changes nothing. */
  function Step<Req, K, V, E>(c: Setup<Req, K, V, E>, s: State<Req, K, V, E>, a: Action<Req>): State<Req, K, V, E> {
    match a
    case Begin(t, req) => if t in s.threads then s else BeginStep(c, s, t, req)
    case BeginBypassed(t, req) => if t in s.threads then s else s.(threads := s.threads[t := Done(req, Answer(c.inner(req)))])
    case Compute(t) => if t in s.threads && s.threads[t].Computing? then ComputeStep(c, s, t) else s
    case Fill(t) => if t in s.threads && s.threads[t].Filling? then FillStep(c, s, t) else s
    case Return(t) => if t in s.threads && s.threads[t].Done? then s.(threads := s.threads - {t}) else s
    case ClearStore => s.(store := Empty())
  }

  function Steps<Req, K, V, E>(c: Setup<Req, K, V, E>, actions: seq<Action<Req>>): State<Req, K, V, E> {
    if actions == [] then Initial()
    else Step(c, Steps(c, actions[..|actions| - 1]), actions[|actions| - 1])
  }

  ghost predicate AsksOnly<Req>(actions: seq<Action<Req>>, universe: iset<Req>) {
    forall a :: a in actions && (a.Begin? || a.BeginBypassed?) ==> a.req in universe
  }

  // ----- safety -----

  ghost predicate PhaseRight<Req, K, V, E>(c: Setup<Req, K, V, E>, p: Phase<Req, K, V, E>, universe: iset<Req>) {
    && p.req in universe
    && (p.Computing? ==> c.keyOf(p.req) == Ok(p.key))
    && (p.Filling? ==> c.keyOf(p.req) == Ok(p.key) && c.inner(p.req) == Ok(p.computed))
    && (p.Done? ==> p.result == Answer(c.inner(p.req)))
  }

  ghost predicate Safe<Req(!new), K, V, E>(c: Setup<Req, K, V, E>, s: State<Req, K, V, E>, universe: iset<Req>) {
    && Consistent(s.store)
    && |s.store.order| <= c.maxsize
    && EntriesRight(s.store, c.inner, c.keyOf, universe)
    && forall t :: t in s.threads ==> PhaseRight(c, s.threads[t], universe)
  }

  lemma BeginKeepsSafe<Req(!new), K, V, E>(c: Setup<Req, K, V, E>, s: State<Req, K, V, E>, t: nat, req: Req, universe: iset<Req>)
    requires KeySound(c.inner, c.keyOf, universe) && Safe(c, s, universe) && req in universe
    ensures Safe(c, BeginStep(c, s, t, req), universe)
  {
    if IsHit(s.store, c.keyOf, req) {
      TouchKeeps(s.store, c.keyOf(req).value);
    }
  }

  lemma FillKeepsSafe<Req(!new), K, V, E>(c: Setup<Req, K, V, E>, s: State<Req, K, V, E>, t: nat, universe: iset<Req>)
    requires KeySound(c.inner, c.keyOf, universe) && Safe(c, s, universe)
    requires t in s.threads && s.threads[t].Filling?
    ensures Safe(c, FillStep(c, s, t), universe)
  {
    var p := s.threads[t];
    assert PhaseRight(c, p, universe);
    InsertKeeps(s.store, p.key, p.computed, c.maxsize);
  }

  lemma StepKeepsSafe<Req(!new), K, V, E>(c: Setup<Req, K, V, E>, s: State<Req, K, V, E>, a: Action<Req>, universe: iset<Req>)
    requires KeySound(c.inner, c.keyOf, universe) && Safe(c, s, universe)
    requires (a.Begin? || a.BeginBypassed?) ==> a.req in universe
    ensures Safe(c, Step(c, s, a), universe)
  {
    match a
    case Begin(t, req) => BeginKeepsSafe(c, s, t, req, universe);
    case Fill(t) =>
      if t in s.threads && s.threads[t].Filling? {
        FillKeepsSafe(c, s, t, universe);
      }
    case _ =>
  }

  /**
   * Whatever the threads do, in any interleaving and with any clears and evictions: every finished call
   * has the engine's own answer, every entry is the engine's value for its key, and the size is bounded.
   */
  lemma {:induction false} EveryRunIsSafe<Req(!new), K, V, E>(c: Setup<Req, K, V, E>, actions: seq<Action<Req>>, universe: iset<Req>)
    requires KeySound(c.inner, c.keyOf, universe) && AsksOnly(actions, universe)
    ensures Safe(c, Steps(c, actions), universe)
  {
    if actions != [] {
      var last := actions[|actions| - 1];
      assert last in actions;
      EveryRunIsSafe(c, actions[..|actions| - 1], universe);
      StepKeepsSafe(c, Steps(c, actions[..|actions| - 1]), last, universe);
    }
  }

  // ----- exactly when the key is sound -----

  /** Every call that finished has the engine's own answer. */
  ghost predicate AnswersRight<Req, K, V, E>(c: Setup<Req, K, V, E>, s: State<Req, K, V, E>) {
    forall t :: t in s.threads && s.threads[t].Done? ==> s.threads[t].result == Answer(c.inner(s.threads[t].req))
  }

  ghost predicate Transparent<Req(!new), K, V, E>(c: Setup<Req, K, V, E>, universe: iset<Req>) {
    forall actions: seq<Action<Req>> :: AsksOnly(actions, universe) ==> AnswersRight(c, Steps(c, actions))
  }

  /** No caller can tell the cache from the engine, exactly when keys are sound for what is asked. */
  lemma TransparentExactly<Req(!new), K, V, E>(c: Setup<Req, K, V, E>, universe: iset<Req>)
    requires c.maxsize >= 1
    ensures Transparent(c, universe) <==> KeySound(c.inner, c.keyOf, universe)
  {
    if KeySound(c.inner, c.keyOf, universe) {
      forall actions: seq<Action<Req>> | AsksOnly(actions, universe)
        ensures AnswersRight(c, Steps(c, actions))
      {
        EveryRunIsSafe(c, actions, universe);
      }
    } else if a :| a in universe && c.keyOf(a).Err? && c.inner(a) != Err(c.keyOf(a).error) {
      KeyErrorShows(c, a, universe);
    } else {
      var a, b :| a in universe && b in universe && c.keyOf(a).Ok? && c.keyOf(a) == c.keyOf(b) && c.inner(a).Ok? && c.inner(b) != c.inner(a);
      SharedKeyShows(c, a, b, universe);
    }
  }

  lemma StepsSnoc<Req, K, V, E>(c: Setup<Req, K, V, E>, actions: seq<Action<Req>>, a: Action<Req>)
    ensures Steps(c, actions + [a]) == Step(c, Steps(c, actions), a)
  {
    assert (actions + [a])[..|actions|] == actions;
  }

  lemma KeyErrorShows<Req(!new), K, V, E>(c: Setup<Req, K, V, E>, a: Req, universe: iset<Req>)
    requires a in universe && c.keyOf(a).Err? && c.inner(a) != Err(c.keyOf(a).error)
    ensures !Transparent(c, universe)
  {
    var actions := [Begin(0, a)];
    StepsSnoc(c, [], Begin(0, a));
    assert [] + [Begin(0, a)] == actions;
    assert Steps(c, actions).threads[0] == Done(a, Err(Raised(c.keyOf(a).error)));
    assert AsksOnly(actions, universe) && !AnswersRight(c, Steps(c, actions));
  }

  /** One thread prices a to the end; then another asks for b. */
  lemma SharedKeyRun<Req(!new), K, V, E>(c: Setup<Req, K, V, E>, a: Req, b: Req) returns (actions: seq<Action<Req>>)
    requires c.maxsize >= 1 && c.keyOf(a).Ok? && c.keyOf(a) == c.keyOf(b) && c.inner(a).Ok?
    ensures actions == [Begin(0, a), Compute(0), Fill(0), Begin(1, b)]
    ensures 1 in Steps(c, actions).threads
    ensures Steps(c, actions).threads[1] == Done(b, Ok(c.inner(a).value))
  {
    var k, v := c.keyOf(a).value, c.inner(a).value;
    var one, two, three := [Begin(0, a)], [Begin(0, a), Compute(0)], [Begin(0, a), Compute(0), Fill(0)];
    actions := [Begin(0, a), Compute(0), Fill(0), Begin(1, b)];
    StepsSnoc(c, [], Begin(0, a));
    assert [] + [Begin(0, a)] == one;
    StepsSnoc(c, one, Compute(0));
    assert one + [Compute(0)] == two;
    StepsSnoc(c, two, Fill(0));
    assert two + [Fill(0)] == three;
    StepsSnoc(c, three, Begin(1, b));
    assert three + [Begin(1, b)] == actions;
    assert Steps(c, two) == State(Empty(), map[0 := Filling(a, k, v)]);
    assert Insert(Empty<K, V>(), k, v, c.maxsize).entries[k] == v;
  }

  lemma SharedKeyShows<Req(!new), K, V, E>(c: Setup<Req, K, V, E>, a: Req, b: Req, universe: iset<Req>)
    requires c.maxsize >= 1 && a in universe && b in universe
    requires c.keyOf(a).Ok? && c.keyOf(a) == c.keyOf(b) && c.inner(a).Ok? && c.inner(b) != c.inner(a)
    ensures !Transparent(c, universe)
  {
    var actions := SharedKeyRun(c, a, b);
    assert AsksOnly(actions, universe) && !AnswersRight(c, Steps(c, actions));
  }

  // ----- the steps of one undisturbed thread are one call -----

  /** What a thread's three steps come to when no other thread steps in. */
  function Undisturbed<Req, K, V, E>(c: Setup<Req, K, V, E>, s: State<Req, K, V, E>, t: nat, req: Req): State<Req, K, V, E> {
    Step(c, Step(c, Step(c, s, Begin(t, req)), Compute(t)), Fill(t))
  }

  lemma UndisturbedIsValue<Req, K, V, E>(c: Setup<Req, K, V, E>, s: State<Req, K, V, E>, t: nat, req: Req)
    requires t !in s.threads
    ensures Undisturbed(c, s, t, req)
      == State(After(s.store, c.inner, c.keyOf, c.maxsize, req),
               s.threads[t := Done(req, Answered(s.store, c.inner, c.keyOf, req))])
  {
    var done := s.threads[t := Done(req, Answered(s.store, c.inner, c.keyOf, req))];
    if IsMiss(s.store, c.keyOf, req) {
      var k := c.keyOf(req).value;
      var computing := s.threads[t := Computing(req, k)];
      assert Step(c, s, Begin(t, req)).threads == computing;
      if c.inner(req).Ok? {
        var filling := computing[t := Filling(req, k, c.inner(req).value)];
        assert filling[t := Done(req, Ok(c.inner(req).value))] == done;
      } else {
        assert computing[t := Done(req, Err(Raised(c.inner(req).error)))] == done;
      }
    }
  }
}
