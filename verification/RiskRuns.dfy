/**
 * Risk runs, what a stored one may look like, and the two backends that move them along
 * (domain/models.py, persistence/memory_repos.py, persistence/sqlalchemy_repos.py).
 *
 * Times are counted from an arbitrary origin; the clock is read by the caller and passed in.
 */
module RiskRuns {
  import opened Wrappers
  import opened Strings
  import opened SortedSets

  datatype Status = QUEUED | RUNNING | COMPLETED | FAILED

  datatype ResultRef = ResultRef(resultType: string, resultId: int)

  datatype RiskRun = RiskRun(
    id: string,
    portfolioId: string,
    createdAt: int,
    startedAt: Option<int>,
    completedAt: Option<int>,
    status: Status,
    error: Option<string>,
    scenarioSet: seq<string>,
    pricingEngineVersion: Option<string>,
    historicalDatasetId: Option<string>,
    historicalDatasetVersion: Option<string>,
    resultRefs: seq<ResultRef>)

  predicate IsBlank(s: string) {
    Strip(s) == ""
  }

  lemma {:induction false} LeftEmpty(s: string)
    ensures StripLeft(s) == "" <==> forall i :: 0 <= i < |s| ==> IsSpace(s[i])
  {
    if s != "" {
      LeftEmpty(s[1..]);
      if IsSpace(s[0]) && forall i :: 0 <= i < |s[1..]| ==> IsSpace(s[1..][i]) {
        assert forall i :: 1 <= i < |s| ==> s[i] == s[1..][i - 1];
      }
    }
  }

  lemma {:induction false} LeftStarts(s: string)
    ensures StripLeft(s) != "" ==> !IsSpace(StripLeft(s)[0])
  {
    if s != "" {
      LeftStarts(s[1..]);
    }
  }

  lemma {:induction false} RightKeepsFirst(s: string)
    requires s != "" && !IsSpace(s[0])
    ensures StripRight(s) != ""
  {
    if |s| > 1 && IsSpace(s[|s| - 1]) {
      RightKeepsFirst(s[..|s| - 1]);
    }
  }

  /** A text is blank when it is nothing but space. */
  lemma BlankExactly(s: string)
    ensures IsBlank(s) <==> forall i :: 0 <= i < |s| ==> IsSpace(s[i])
  {
    LeftEmpty(s);
    LeftStarts(s);
    if StripLeft(s) != "" {
      RightKeepsFirst(StripLeft(s));
    }
  }

  predicate NotBlankWhenSet(s: Option<string>) {
    s.Some? ==> !IsBlank(s.value)
  }

  /** The part of the validator no transition touches. */
  predicate HeaderValid(r: RiskRun) {
    && !IsBlank(r.id) && !IsBlank(r.portfolioId)
    && (forall i :: 0 <= i < |r.scenarioSet| ==> !IsBlank(r.scenarioSet[i]))
    && NotBlankWhenSet(r.pricingEngineVersion)
    && NotBlankWhenSet(r.historicalDatasetId)
    && NotBlankWhenSet(r.historicalDatasetVersion)
  }

  predicate LifecycleValid(r: RiskRun) {
    && (r.startedAt.Some? && r.completedAt.Some? ==> r.completedAt.value >= r.startedAt.value)
    && match r.status
       case QUEUED => r.startedAt.None? && r.completedAt.None? && r.error.None?
       case RUNNING => r.startedAt.Some? && r.completedAt.None? && r.error.None?
       case COMPLETED => r.startedAt.Some? && r.completedAt.Some? && r.error.None?
       case FAILED => r.startedAt.Some? && r.completedAt.Some? && r.error.Some? && !IsBlank(r.error.value)
  }

  /** RiskRun._validate_lifecycle. */
  predicate Valid(r: RiskRun) {
    HeaderValid(r) && LifecycleValid(r)
  }

  // ----- set_status -----

  /** InMemoryRiskRunRepository.set_status on one run: nothing is validated afterwards. */
  function Transition(r: RiskRun, status: Status, error: Option<string>, now: int): Result<RiskRun, string> {
    var ends := status.COMPLETED? || status.FAILED?;
    var started :=
      if status.RUNNING? && r.startedAt.None? then Some(now)
      else if ends && r.startedAt.None? then Some(r.createdAt)
      else r.startedAt;
    var completed := if ends then Some(now) else r.completedAt;
    if status.FAILED? && (error.None? || IsBlank(error.value)) then Err("FAILED status requires a non-empty error")
    else
      var err :=
        if status.FAILED? then error
        else if status.COMPLETED? then None
        else if error.Some? then error
        else r.error;
      Ok(r.(startedAt := started, completedAt := completed, status := status, error := err))
  }

  /** A failure without a reason. */
  predicate Refused(status: Status, error: Option<string>) {
    status.FAILED? && (error.None? || IsBlank(error.value))
  }

  /** A start time is set once: now when a run starts, its creation when it ends without having started. */
  predicate StartFollows(r: RiskRun, s: RiskRun, status: Status, now: int) {
    && (r.startedAt.Some? ==> s.startedAt == r.startedAt)
    && (r.startedAt.None? ==> s.startedAt == match status
         case QUEUED => None
         case RUNNING => Some(now)
         case COMPLETED => Some(r.createdAt)
         case FAILED => Some(r.createdAt))
  }

  predicate SameHeader(r: RiskRun, s: RiskRun) {
    && s.id == r.id && s.portfolioId == r.portfolioId && s.createdAt == r.createdAt && s.scenarioSet == r.scenarioSet
    && s.pricingEngineVersion == r.pricingEngineVersion && s.historicalDatasetId == r.historicalDatasetId
    && s.historicalDatasetVersion == r.historicalDatasetVersion && s.resultRefs == r.resultRefs
  }

  /** What a run looks like after a status change, field by field. */
  predicate MovedAs(r: RiskRun, s: RiskRun, status: Status, error: Option<string>, now: int) {
    && s.status == status && SameHeader(r, s) && StartFollows(r, s, status, now)
    && s.completedAt == (if status in {COMPLETED, FAILED} then Some(now) else r.completedAt)
    && match status
       case COMPLETED => s.error == None
       case FAILED => s.error == error
       case _ => s.error == if error.Some? then error else r.error
  }

  /** Every transition that goes through moves the run so, and the only one that does not is a failure without a reason. */
  lemma TransitionMoves(r: RiskRun, status: Status, error: Option<string>, now: int)
    ensures Transition(r, status, error, now).Ok? <==> !Refused(status, error)
    ensures Transition(r, status, error, now).Ok? ==> MovedAs(r, Transition(r, status, error, now).value, status, error, now)
  {
  }

  /** A database row after a call, whether it returned or raised. */
  datatype Touched = Touched(row: RiskRun, result: Result<RiskRun, string>)

  /**
   * SqlAlchemyRiskRunRepository.set_status: the row is changed field by field before a blank error
   * raises, and the returned run is validated at the end.
   */
  method SetRowStatus(r: RiskRun, status: Status, error: Option<string>, now: int) returns (t: Touched)
    ensures t == RowTransition(r, status, error, now)
    ensures !Refused(status, error) ==> MovedAs(r, t.row, status, error, now) && (t.result.Ok? <==> Valid(t.row))
    ensures Refused(status, error) ==> t.result.Err? && MovedAs(r, t.row.(error := None), FAILED, None, now) && t.row.error == r.error
    ensures t.result.Ok? ==> t.result.value == t.row
  {
    var row := r.(status := status);
    if status.RUNNING? && row.startedAt.None? {
      row := row.(startedAt := Some(now));
    }
    if status.COMPLETED? || status.FAILED? {
      if row.startedAt.None? {
        row := row.(startedAt := Some(row.createdAt));
      }
      row := row.(completedAt := Some(now));
    }
    if status.FAILED? {
      if error.None? || IsBlank(error.value) {
        return Touched(row, Err("FAILED status requires a non-empty error"));
      }
      row := row.(error := error);
    } else if error.Some? {
      row := row.(error := error);
    }
    if status.COMPLETED? {
      row := row.(error := None);
    }
    t := Touched(row, if Valid(row) then Ok(row) else Err("invalid lifecycle"));
  }

  /** What the row call comes to: the in-memory transition, checked; a refused failure leaves a dirty row. */
  function RowTransition(r: RiskRun, status: Status, error: Option<string>, now: int): Touched {
    match Transition(r, status, error, now)
    case Ok(s) => Touched(s, if Valid(s) then Ok(s) else Err("invalid lifecycle"))
    case Err(e) =>
      Touched(r.(status := FAILED, startedAt := Some(r.startedAt.GetOr(r.createdAt)), completedAt := Some(now)), Err(e))
  }

  /** The clock never runs backwards past a stored time. */
  predicate NotBefore(r: RiskRun, now: int) {
    r.createdAt <= now && (r.startedAt.Some? ==> r.startedAt.value <= now)
  }

  /** The transitions that keep a stored run valid. */
  predicate Allowed(r: RiskRun, status: Status, error: Option<string>) {
    match status
    case QUEUED => r.status.QUEUED? && error.None?
    case RUNNING => (r.status.QUEUED? || r.status.RUNNING?) && error.None?
    case COMPLETED => true
    case FAILED => error.Some? && !IsBlank(error.value)
  }

  /** In memory: from a valid run, the call succeeds and stores a valid run exactly on the allowed transitions. */
  lemma TransitionValidExactly(r: RiskRun, status: Status, error: Option<string>, now: int)
    requires Valid(r) && NotBefore(r, now)
    ensures var t := Transition(r, status, error, now);
      (t.Ok? && Valid(t.value)) <==> Allowed(r, status, error)
  {
  }

  /** In the database: the call returns exactly on the allowed transitions, with the run the other backend stores. */
  lemma RowTransitionReturnsExactly(r: RiskRun, status: Status, error: Option<string>, now: int)
    requires Valid(r) && NotBefore(r, now)
    ensures RowTransition(r, status, error, now).result.Ok? <==> Allowed(r, status, error)
    ensures Allowed(r, status, error) ==>
      RowTransition(r, status, error, now) == Touched(Transition(r, status, error, now).value, Transition(r, status, error, now))
  {
    TransitionValidExactly(r, status, error, now);
  }

  /** The backends part where a call is not allowed: in memory the invalid run is stored and returned, unless a failure gave no reason. */
  lemma BackendsDiffer(r: RiskRun, status: Status, error: Option<string>, now: int)
    requires Valid(r) && NotBefore(r, now) && !Allowed(r, status, error)
    ensures RowTransition(r, status, error, now).result.Err?
    ensures Transition(r, status, error, now).Ok? <==> !status.FAILED?
    ensures !status.FAILED? ==> !Valid(Transition(r, status, error, now).value)
  {
    TransitionValidExactly(r, status, error, now);
  }

  /** Without a monotone clock a finished run can end before it started. */
  lemma ClockMatters(r: RiskRun, now: int)
    requires Valid(r) && r.status.RUNNING?
    ensures Valid(Transition(r, COMPLETED, None, now).value) <==> r.startedAt.value <= now
  {
  }

  /** The run before anything happened to it. */
  function Fresh(r: RiskRun): RiskRun {
    r.(status := QUEUED, startedAt := None, completedAt := None, error := None)
  }

  /** Submitted; started; or started and ended, the clock not running backwards between the two. */
  ghost predicate Reachable(r: RiskRun) {
    || r == Fresh(r)
    || (exists s :: Transition(Fresh(r), RUNNING, None, s) == Ok(r))
    || exists s, c, e, b: RiskRun :: s <= c && Transition(Fresh(r), RUNNING, None, s) == Ok(b) && r.status in {COMPLETED, FAILED}
         && Transition(b, r.status, e, c) == Ok(r)
  }

  /** The validator accepts a run with a valid header exactly when set_status can have brought it there. */
  lemma ValidIsReachable(r: RiskRun)
    requires HeaderValid(r)
    ensures Valid(r) <==> Reachable(r)
  {
    if Valid(r) && r.startedAt.Some? {
      var b := Transition(Fresh(r), RUNNING, None, r.startedAt.value).value;
      if r.completedAt.Some? {
        assert Transition(b, r.status, r.error, r.completedAt.value) == Ok(r);
      }
    }
    if Reachable(r) && r != Fresh(r) && !exists s :: Transition(Fresh(r), RUNNING, None, s) == Ok(r) {
      var s, c, e, b: RiskRun :| s <= c && Transition(Fresh(r), RUNNING, None, s) == Ok(b) && r.status in {COMPLETED, FAILED}
        && Transition(b, r.status, e, c) == Ok(r);
    }
  }

  /** Claiming in the database starts a queued row as the other backend does. */
  function Started(r: RiskRun, now: int): RiskRun {
    r.(status := RUNNING, startedAt := Some(r.startedAt.GetOr(now)))
  }

  /** A claimed run starts at the clock of its claim, and keeps everything else. */
  lemma StartedMoves(r: RiskRun, now: int)
    requires Valid(r) && r.status.QUEUED?
    ensures MovedAs(r, Started(r, now), RUNNING, None, now) && Started(r, now).startedAt == Some(now)
  {
  }

  lemma StartedIsTransition(r: RiskRun, now: int)
    requires Valid(r) && r.status.QUEUED?
    ensures Transition(r, RUNNING, None, now) == Ok(Started(r, now)) && Valid(Started(r, now))
  {
  }

  // ----- first in, first out -----

  predicate Before(a: RiskRun, b: RiskRun) {
    a.createdAt < b.createdAt || (a.createdAt == b.createdAt && Less(a.id, b.id))
  }

  type Table = map<string, RiskRun>

  /** Rows are stored under their own id. */
  ghost predicate Keyed(t: Table) {
    forall k :: k in t ==> t[k].id == k
  }

  function WithStatus(t: Table, status: Status): set<RiskRun> {
    set k | k in t && t[k].status == status :: t[k]
  }

  lemma RunsOrdered(t: Table, rows: set<RiskRun>)
    requires Keyed(t) && forall r :: r in rows ==> r.id in t && t[r.id] == r
    ensures StrictOrder(Before, rows)
  {
    forall a, b | a in rows && b in rows
      ensures Before(a, b) || a == b || Before(b, a)
      ensures !(Before(a, b) && Before(b, a))
    {
      LessTotal(a.id, b.id);
    }
    forall a, b, c | a in rows && b in rows && c in rows && Before(a, b) && Before(b, c)
      ensures Before(a, c)
    {
      if a.createdAt == b.createdAt == c.createdAt {
        LessTransitive(a.id, b.id, c.id);
      }
    }
  }

  ghost predicate Stored(t: Table, rows: set<RiskRun>) {
    forall r :: r in rows ==> r.id in t && t[r.id] == r
  }

  /** ORDER BY created_at, id. */
  ghost function Queue(t: Table, rows: set<RiskRun>): seq<RiskRun>
    requires Keyed(t) && Stored(t, rows)
  {
    RunsOrdered(t, rows);
    Sorted(Before, rows)
  }

  /** max(0, limit) of them. */
  function Take(q: seq<RiskRun>, limit: int): seq<RiskRun> {
    if limit <= 0 then [] else if limit >= |q| then q else q[..limit]
  }

  lemma QueueLists(t: Table, rows: set<RiskRun>)
    requires Keyed(t) && Stored(t, rows)
    ensures forall r :: r in Queue(t, rows) <==> r in rows
    ensures |Queue(t, rows)| == |rows| && Ascending(Before, Queue(t, rows))
  {
    RunsOrdered(t, rows);
    SortedLists(Before, rows);
  }

  predicate IsNext(rows: set<RiskRun>, r: RiskRun) {
    r in rows && forall x :: x in rows && x != r ==> Before(r, x)
  }

  lemma NextExists(t: Table, rows: set<RiskRun>)
    requires Keyed(t) && Stored(t, rows) && rows != {}
    ensures exists r :: IsNext(rows, r)
  {
    RunsOrdered(t, rows);
    LeastExists(Before, rows);
    var r :| IsLeast(Before, rows, r);
    assert IsNext(rows, r);
  }

  lemma QueueStep(t: Table, rows: set<RiskRun>, r: RiskRun)
    requires Keyed(t) && Stored(t, rows) && IsNext(rows, r)
    ensures Queue(t, rows) == [r] + Queue(t, rows - {r})
  {
    RunsOrdered(t, rows);
    RunsOrdered(t, rows - {r});
    assert IsLeast(Before, rows, r);
    var m := Least(Before, rows);
    assert m == r;
  }

  /** sort(key=(created_at, id)). */
  method SortRuns(t: Table, rows: set<RiskRun>) returns (q: seq<RiskRun>)
    requires Keyed(t) && Stored(t, rows)
    ensures q == Queue(t, rows)
  {
    q := [];
    var rest := rows;
    while rest != {}
      invariant rest <= rows && q + Queue(t, rest) == Queue(t, rows)
    {
      NextExists(t, rest);
      var r :| r in rest && IsNext(rest, r);
      QueueStep(t, rest, r);
      q := q + [r];
      rest := rest - {r};
    }
  }

  /** The runs of a list, restarted one call of the clock at a time. */
  function StartedAll(q: seq<RiskRun>, clock: nat -> int): (r: seq<RiskRun>)
    ensures |r| == |q|
  {
    seq(|q|, i requires 0 <= i < |q| => Started(q[i], clock(i)))
  }

  function WithRuns(t: Table, q: seq<RiskRun>): Table {
    if q == [] then t else WithRuns(t, q[..|q| - 1])[q[|q| - 1].id := q[|q| - 1]]
  }

  ghost predicate AllValid(t: Table) {
    Keyed(t) && forall k :: k in t ==> Valid(t[k])
  }

  /** Every run has a payload map, and a reference for each payload in it. */
  ghost predicate CoherentTables<P>(runs: Table, payloads: map<string, map<string, P>>) {
    && Keyed(runs) && payloads.Keys == runs.Keys
    && forall k :: k in runs ==> RefsCover(runs[k].resultRefs, payloads[k].Keys)
  }

  /** Storing a transition keeps every stored run valid exactly when the transition is allowed. */
  lemma StoreValidExactly(t: Table, k: string, status: Status, error: Option<string>, now: int)
    requires AllValid(t) && k in t && NotBefore(t[k], now)
    ensures var r := Transition(t[k], status, error, now);
      (r.Ok? && AllValid(t[k := r.value])) <==> Allowed(t[k], status, error)
  {
    var r := Transition(t[k], status, error, now);
    TransitionValidExactly(t[k], status, error, now);
    if r.Ok? {
      assert t[k := r.value][k] == r.value;
    }
  }

  lemma StoredRefCoherent<P>(runs: Table, payloads: map<string, map<string, P>>, k: string, resultType: string, typed: P, id: int)
    requires CoherentTables(runs, payloads) && k in runs
    ensures CoherentTables(runs[k := runs[k].(resultRefs := WithRef(runs[k].resultRefs, resultType, id))],
                           payloads[k := payloads[k][resultType := typed]])
  {
    WithRefCovers(runs[k].resultRefs, payloads[k].Keys, resultType, id);
    assert payloads[k][resultType := typed].Keys == payloads[k].Keys + {resultType};
  }

  lemma StoredRefValid(runs: Table, k: string, refs: seq<ResultRef>)
    requires AllValid(runs) && k in runs
    ensures AllValid(runs[k := runs[k].(resultRefs := refs)])
  {
    HeaderKept(runs[k], refs);
  }

  lemma HeaderKept(r: RiskRun, refs: seq<ResultRef>)
    ensures Valid(r.(resultRefs := refs)) == Valid(r)
  {
  }

  /** InMemoryRiskRunRepository, one lock section at a time. */
  class InMemoryRiskRunRepository<P> {
    var runs: Table
    var payloads: map<string, map<string, P>>
    var nextResultId: int

    ghost predicate Coherent()
      reads this
    {
      CoherentTables(runs, payloads)
    }

    constructor ()
      ensures Coherent() && runs == map[] && nextResultId == 1
    {
      runs, payloads, nextResultId := map[], map[], 1;
    }

    method Create(run: RiskRun) returns (r: Result<RiskRun, string>)
      requires Coherent()
      modifies this
      ensures Coherent()
      ensures run.id in old(runs) ==> r.Err? && unchanged(this)
      ensures run.id !in old(runs) ==> r == Ok(run) && runs == old(runs)[run.id := run] && payloads == old(payloads)[run.id := map[]]
      ensures AllValid(old(runs)) && Valid(run) ==> AllValid(runs)
    {
      if run.id in runs {
        return Err("risk run already exists");
      }
      runs := runs[run.id := run];
      payloads := payloads[run.id := map[]];
      r := Ok(run);
    }

    /** Stores whatever the transition gives; a refused failure and an unknown id change nothing. */
    method SetStatus(runId: string, status: Status, error: Option<string>, now: int) returns (r: Result<RiskRun, string>)
      requires Coherent()
      modifies `runs
      ensures Coherent()
      ensures runId !in old(runs) ==> r.Err? && runs == old(runs)
      ensures runId in old(runs) ==> r == Transition(old(runs)[runId], status, error, now)
      ensures r.Ok? ==> runId in old(runs) && MovedAs(old(runs)[runId], r.value, status, error, now)
      ensures runId in old(runs) ==> runs == if r.Ok? then old(runs)[runId := r.value] else old(runs)
    {
      if runId !in runs {
        return Err("risk run not found");
      }
      r := Transition(runs[runId], status, error, now);
      TransitionMoves(runs[runId], status, error, now);
      if r.Ok? {
        runs := runs[runId := r.value];
      }
    }

    /** Replaces the payload of a type and gives it the next id, at the end of the references. */
    method AddResult(runId: string, resultType: string, payload: P, parse: (string, P) -> Option<P>) returns (r: Result<int, string>)
      requires Coherent()
      modifies this
      ensures Coherent()
      ensures r.Err? ==> unchanged(this)
      ensures r.Ok? <==> runId in old(runs) && parse(resultType, payload).Some?
      ensures r.Ok? ==>
        && r.value == old(nextResultId) && nextResultId == old(nextResultId) + 1
        && payloads == old(payloads)[runId := old(payloads)[runId][resultType := parse(resultType, payload).value]]
        && runs == old(runs)[runId := old(runs)[runId].(resultRefs := WithRef(old(runs)[runId].resultRefs, resultType, r.value))]
      ensures AllValid(old(runs)) ==> AllValid(runs)
    {
      if runId !in runs {
        return Err("risk run not found");
      }
      var typed := parse(resultType, payload);
      if typed.None? {
        return Err("invalid result payload");
      }
      var row := runs[runId];
      StoredRefCoherent(runs, payloads, runId, resultType, typed.value, nextResultId);
      if AllValid(runs) {
        StoredRefValid(runs, runId, WithRef(row.resultRefs, resultType, nextResultId));
      }
      payloads := payloads[runId := payloads[runId][resultType := typed.value]];
      runs := runs[runId := row.(resultRefs := WithRef(row.resultRefs, resultType, nextResultId))];
      r := Ok(nextResultId);
      nextResultId := nextResultId + 1;
    }

    method ListByStatus(status: Status, limit: int) returns (q: seq<RiskRun>)
      requires Coherent()
      ensures Stored(runs, WithStatus(runs, status)) && q == Take(Queue(runs, WithStatus(runs, status)), limit)
    {
      var matched := SortRuns(runs, WithStatus(runs, status));
      q := Take(matched, limit);
    }

    /** for run in matched[:n]: set_status(run.id, RUNNING). */
    method StartAll(first: seq<RiskRun>, clock: nat -> int) returns (claimed: seq<RiskRun>)
      requires Coherent() && Claimable(runs, first) && AllValid(runs)
      modifies `runs
      ensures Coherent()
      ensures claimed == StartedAll(first, clock) && runs == WithRuns(old(runs), claimed)
    {
      ghost var before := runs;
      claimed := [];
      for i := 0 to |first|
        invariant Coherent()
        invariant claimed == StartedAll(first[..i], clock) && runs == WithRuns(before, claimed)
      {
        NotYetStarted(before, first, i, clock);
        StartedIsTransition(first[i], clock(i));
        var row := SetStatus(first[i].id, RUNNING, None, clock(i));
        OneMoreStarted(first, i, clock);
        WithRunsSnoc(before, claimed, row.value);
        claimed := claimed + [row.value];
      }
      assert first[..|first|] == first;
    }

    /** claim_queued: the first of the queue, each moved to RUNNING by set_status. */
    method ClaimQueued(limit: int, clock: nat -> int) returns (claimed: seq<RiskRun>)
      requires Coherent() && AllValid(runs)
      modifies `runs
      ensures Coherent() && AllValid(runs)
      ensures Stored(old(runs), WithStatus(old(runs), QUEUED))
      ensures claimed == StartedAll(Take(Queue(old(runs), WithStatus(old(runs), QUEUED)), limit), clock)
      ensures runs == WithRuns(old(runs), claimed)
    {
      if limit <= 0 {
        return [];
      }
      var matched := SortRuns(runs, WithStatus(runs, QUEUED));
      var first := Take(matched, limit);
      FirstOfQueue(runs, WithStatus(runs, QUEUED), limit);
      StartedValid(runs, first, clock);
      claimed := StartAll(first, clock);
    }
  }

  /** What a claim works through: queued rows of the table, no id twice. */
  ghost predicate Claimable(t: Table, q: seq<RiskRun>) {
    && (forall i :: 0 <= i < |q| ==> q[i].id in t && t[q[i].id] == q[i] && q[i].status.QUEUED?)
    && (forall i, j :: 0 <= i < j < |q| ==> q[i].id != q[j].id)
  }

  lemma FirstOfQueue(t: Table, rows: set<RiskRun>, limit: int)
    requires Keyed(t) && Stored(t, rows) && forall r :: r in rows ==> r.status.QUEUED?
    ensures Claimable(t, Take(Queue(t, rows), limit))
  {
    var q := Queue(t, rows);
    QueueLists(t, rows);
    forall i, j | 0 <= i < j < |q|
      ensures q[i].id != q[j].id
    {
      assert Before(q[i], q[j]) && q[i] in rows && q[j] in rows;
      LessTotal(q[i].id, q[i].id);
    }
  }

  lemma WithRunsSnoc(t: Table, q: seq<RiskRun>, r: RiskRun)
    ensures WithRuns(t, q + [r]) == WithRuns(t, q)[r.id := r]
  {
    assert (q + [r])[..|q|] == q;
  }

  lemma OneMoreStarted(q: seq<RiskRun>, i: nat, clock: nat -> int)
    requires i < |q|
    ensures StartedAll(q[..i + 1], clock) == StartedAll(q[..i], clock) + [Started(q[i], clock(i))]
  {
  }

  lemma {:induction false} WithRunsAt(t: Table, q: seq<RiskRun>, k: string)
    ensures k in WithRuns(t, q) <==> k in t || exists i :: 0 <= i < |q| && q[i].id == k
    ensures k in t && (forall i :: 0 <= i < |q| ==> q[i].id != k) ==> WithRuns(t, q)[k] == t[k]
  {
    if q != [] {
      WithRunsAt(t, q[..|q| - 1], k);
    }
  }

  lemma NotYetStarted(t: Table, q: seq<RiskRun>, i: nat, clock: nat -> int)
    requires Claimable(t, q) && i < |q|
    ensures q[i].id in WithRuns(t, StartedAll(q[..i], clock)) && WithRuns(t, StartedAll(q[..i], clock))[q[i].id] == q[i]
  {
    var done := StartedAll(q[..i], clock);
    forall j | 0 <= j < i
      ensures done[j].id != q[i].id
    {
      assert q[..i][j] == q[j] && done[j] == Started(q[..i][j], clock(j));
    }
    WithRunsAt(t, done, q[i].id);
  }

  lemma {:induction false} StartedValid(t: Table, q: seq<RiskRun>, clock: nat -> int)
    requires AllValid(t) && Claimable(t, q)
    ensures AllValid(WithRuns(t, StartedAll(q, clock)))
  {
    if q == [] {
      assert StartedAll(q, clock) == [];
    } else {
      var n := |q| - 1;
      StartedValid(t, q[..n], clock);
      OneMoreStarted(q, n, clock);
      assert q[..n + 1] == q;
      WithRunsSnoc(t, StartedAll(q[..n], clock), Started(q[n], clock(n)));
      StartedIsTransition(q[n], clock(n));
    }
  }

  // ----- result references -----

  ghost predicate RefsCover(refs: seq<ResultRef>, types: set<string>) {
    forall t :: t in types ==> exists i :: 0 <= i < |refs| && refs[i].resultType == t
  }

  function OtherRefs(refs: seq<ResultRef>, resultType: string): seq<ResultRef> {
    if refs == [] then []
    else (if refs[0].resultType != resultType then [refs[0]] else []) + OtherRefs(refs[1..], resultType)
  }

  function WithRef(refs: seq<ResultRef>, resultType: string, id: int): seq<ResultRef> {
    OtherRefs(refs, resultType) + [ResultRef(resultType, id)]
  }

  lemma {:induction false} OtherRefsKeep(refs: seq<ResultRef>, resultType: string, r: ResultRef)
    ensures r in OtherRefs(refs, resultType) <==> r in refs && r.resultType != resultType
  {
    if refs != [] {
      OtherRefsKeep(refs[1..], resultType, r);
      assert refs == [refs[0]] + refs[1..];
    }
  }

  /** Exactly one reference to the type is left, the new one. */
  lemma WithRefOnce(refs: seq<ResultRef>, resultType: string, id: int, r: ResultRef)
    requires r.resultType == resultType
    ensures r in WithRef(refs, resultType, id) <==> r == ResultRef(resultType, id)
  {
    OtherRefsKeep(refs, resultType, r);
  }

  lemma WithRefCovers(refs: seq<ResultRef>, types: set<string>, resultType: string, id: int)
    requires RefsCover(refs, types)
    ensures RefsCover(WithRef(refs, resultType, id), types + {resultType})
  {
    var after := WithRef(refs, resultType, id);
    forall t | t in types + {resultType}
      ensures exists i :: 0 <= i < |after| && after[i].resultType == t
    {
      if t == resultType {
        assert after[|after| - 1].resultType == t;
      } else {
        var i :| 0 <= i < |refs| && refs[i].resultType == t;
        OtherRefsKeep(refs, resultType, refs[i]);
        var j :| 0 <= j < |OtherRefs(refs, resultType)| && OtherRefs(refs, resultType)[j] == refs[i];
        assert after[j].resultType == t;
      }
    }
  }
}
