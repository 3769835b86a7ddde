/**
 * Workers claiming queued runs in database transactions (persistence/sqlalchemy_repos.py, claim_queued).
 *
 * A claim locks the rows it selects until its session commits or rolls back. With skip-locked
 * selection a claim passes over rows other sessions hold; without it nothing is held.
 */
module ClaimProtocol {
  import opened Wrappers
  import opened SortedSets
  import opened Lru
  import opened RiskRuns

  /** An open transaction: the rows it changed, and the ids it claimed in order. */
  datatype Session = Session(pending: Table, taken: seq<string>)

  /** `taken` lists the ids of committed claims, one claim after another. */
  datatype State = State(table: Table, sessions: map<nat, Session>, taken: seq<string>)

  datatype Action =
    | Submit(run: RiskRun)
    | Claim(worker: nat, limit: int, now: int)
    | Commit(worker: nat)
    | Rollback(worker: nat)
    | SetStatus(id: string, status: Status, error: Option<string>, time: int)

  function SessionOf(s: State, w: nat): Session {
    if w in s.sessions then s.sessions[w] else Session(map[], [])
  }

  /** What a session reads: committed rows under its own changes. */
  function View(s: State, w: nat): Table {
    s.table + SessionOf(s, w).pending
  }

  predicate LockedByOther(s: State, w: nat, k: string) {
    exists v :: v in s.sessions && v != w && k in s.sessions[v].pending
  }

  predicate Locked(s: State, k: string) {
    exists v :: v in s.sessions && k in s.sessions[v].pending
  }

  function Eligible(s: State, w: nat, skipLocked: bool): set<RiskRun> {
    var view := View(s, w);
    set k | k in view && view[k].status.QUEUED? && !(skipLocked && LockedByOther(s, w, k)) :: view[k]
  }

  function StartedNow(q: seq<RiskRun>, now: int): (r: seq<RiskRun>)
    ensures |r| == |q|
  {
    StartedAll(q, _ => now)
  }

  function Ids(q: seq<RiskRun>): (r: seq<string>)
    ensures |r| == |q|
  {
    seq(|q|, i requires 0 <= i < |q| => q[i].id)
  }

  /** The rows a claim selects. */
  ghost function Selected(s: State, w: nat, limit: int, skipLocked: bool): seq<RiskRun>
    requires Keyed(View(s, w))
  {
    Take(Queue(View(s, w), Eligible(s, w, skipLocked)), limit)
  }

  ghost function ClaimStep(s: State, w: nat, limit: int, now: int, skipLocked: bool): State
    requires Keyed(View(s, w))
  {
    var q, mine := Selected(s, w, limit, skipLocked), SessionOf(s, w);
    s.(sessions := s.sessions[w := Claiming(mine, q, now)])
  }

  function CommitStep(s: State, w: nat): State
    requires w in s.sessions
  {
    State(s.table + s.sessions[w].pending, s.sessions - {w}, s.taken + s.sessions[w].taken)
  }

  /** A step that is not enabled, and one that raises and is rolled back, change nothing. */
  ghost function Step(s: State, a: Action, skipLocked: bool): State {
    match a
    case Submit(run) =>
      if run.id in s.table || !run.status.QUEUED? || !Valid(run) then s else s.(table := s.table[run.id := run])
    case Claim(w, limit, now) => if Keyed(View(s, w)) then ClaimStep(s, w, limit, now, skipLocked) else s
    case Commit(w) => if w in s.sessions then CommitStep(s, w) else s
    case Rollback(w) => s.(sessions := s.sessions - {w})
    case SetStatus(id, status, error, time) =>
      if id !in s.table || Locked(s, id) then s
      else match RowTransition(s.table[id], status, error, time).result
        case Err(_) => s
        case Ok(row) => s.(table := s.table[id := row])
  }

  ghost function Steps(actions: seq<Action>, skipLocked: bool): State {
    if actions == [] then State(map[], map[], [])
    else Step(Steps(actions[..|actions| - 1], skipLocked), actions[|actions| - 1], skipLocked)
  }

  // ----- the invariant -----

  /** What a stored row must satisfy; the validator, in the main results. */
  type Check = RiskRun -> bool

  ghost predicate StartKeeps(ok: Check) {
    forall r, now {:trigger ok(Started(r, now))} :: ok(r) && r.status.QUEUED? ==> ok(Started(r, now))
  }

  ghost predicate Good(t: Table, ok: Check) {
    forall k :: k in t ==> t[k].id == k && ok(t[k])
  }

  /** A session holds rows that are still queued for everyone else. */
  ghost predicate Holds(table: Table, k: string, row: RiskRun) {
    k in table && table[k].status.QUEUED? && row.id == k && row.status.RUNNING?
  }

  ghost predicate SessionSafe(table: Table, x: Session, ok: Check) {
    && Good(x.pending, ok)
    && (forall k :: k in x.pending ==> Holds(table, k, x.pending[k]))
    && Distinct(x.taken)
    && (forall k :: k in x.taken ==> k in x.pending)
  }

  ghost predicate Apart(s: State) {
    forall v, w, k :: v in s.sessions && w in s.sessions && v != w && k in s.sessions[v].pending ==> k !in s.sessions[w].pending
  }

  ghost predicate TakenOnce(s: State) {
    Distinct(s.taken) && forall k :: k in s.taken ==> k in s.table && !s.table[k].status.QUEUED?
  }

  ghost predicate Safe(s: State, ok: Check) {
    && Good(s.table, ok)
    && (forall w :: w in s.sessions ==> SessionSafe(s.table, s.sessions[w], ok))
    && Apart(s)
    && TakenOnce(s)
  }

  lemma ViewKeyed(s: State, w: nat, ok: Check)
    requires Safe(s, ok)
    ensures Keyed(View(s, w)) && SessionSafe(s.table, SessionOf(s, w), ok)
  {
    if w in s.sessions {
      assert SessionSafe(s.table, s.sessions[w], ok);
    }
  }

  /** An eligible row is queued in the table and held by nobody. */
  lemma EligibleFree(s: State, w: nat, ok: Check, r: RiskRun)
    requires Safe(s, ok) && r in Eligible(s, w, true)
    ensures r.id in s.table && s.table[r.id] == r && r.status.QUEUED? && !Locked(s, r.id)
  {
    ViewKeyed(s, w, ok);
    var view, mine := View(s, w), SessionOf(s, w);
    var k :| k in view && view[k].status.QUEUED? && !LockedByOther(s, w, k) && view[k] == r;
    assert forall j :: j in mine.pending ==> Holds(s.table, j, mine.pending[j]) && view[j].status.RUNNING?;
    assert k !in mine.pending && r == s.table[k] && r.id == k;
    assert forall v :: v in s.sessions && v != w ==> k !in s.sessions[v].pending;
  }

  lemma EligibleStored(s: State, w: nat, skipLocked: bool)
    requires Keyed(View(s, w))
    ensures Stored(View(s, w), Eligible(s, w, skipLocked))
    ensures forall r :: r in Eligible(s, w, skipLocked) ==> r.status.QUEUED?
  {
  }

  /** What a claim selects: rows queued in the table, each once, that no session holds. */
  lemma SelectedFree(s: State, w: nat, limit: int, ok: Check)
    requires Safe(s, ok)
    ensures Keyed(View(s, w)) && Claimable(s.table, Selected(s, w, limit, true))
    ensures forall r :: r in Selected(s, w, limit, true) ==> !Locked(s, r.id)
  {
    ViewKeyed(s, w, ok);
    EligibleStored(s, w, true);
    var view, rows := View(s, w), Eligible(s, w, true);
    FirstOfQueue(view, rows, limit);
    QueueLists(view, rows);
    var q := Selected(s, w, limit, true);
    TakeIsPart(Queue(view, rows), limit);
    forall r | r in q
      ensures r.id in s.table && s.table[r.id] == r && !Locked(s, r.id)
    {
      EligibleFree(s, w, ok, r);
    }
    ClaimableHere(view, s.table, q);
  }

  lemma TakeIsPart(q: seq<RiskRun>, limit: int)
    ensures forall r :: r in Take(q, limit) ==> r in q
  {
  }

  lemma ClaimableHere(view: Table, table: Table, q: seq<RiskRun>)
    requires Claimable(view, q) && forall r :: r in q ==> r.id in table && table[r.id] == r
    ensures Claimable(table, q)
  {
    forall i | 0 <= i < |q|
      ensures q[i].id in table && table[q[i].id] == q[i]
    {
      assert q[i] in q;
    }
  }

  lemma OneMorePending(table: Table, x: Session, r: RiskRun, now: int, ok: Check)
    requires Good(table, ok) && StartKeeps(ok) && SessionSafe(table, x, ok)
    requires r.id in table && table[r.id] == r && r.status.QUEUED? && r.id !in x.pending
    ensures SessionSafe(table, Session(x.pending[r.id := Started(r, now)], x.taken + [r.id]), ok)
  {
    assert ok(Started(r, now));
    SnocDistinct(x.taken, r.id);
  }

  lemma IdsSnoc(q: seq<RiskRun>, r: RiskRun, now: int)
    ensures Ids(q + [r]) == Ids(q) + [r.id] && StartedNow(q + [r], now) == StartedNow(q, now) + [Started(r, now)]
  {
  }

  /** The session after claiming q. */
  function Claiming(x: Session, q: seq<RiskRun>, now: int): Session {
    Session(WithRuns(x.pending, StartedNow(q, now)), x.taken + Ids(q))
  }

  lemma ClaimingSnoc(x: Session, q: seq<RiskRun>, r: RiskRun, now: int)
    ensures Claiming(x, q + [r], now)
         == Session(Claiming(x, q, now).pending[r.id := Started(r, now)], Claiming(x, q, now).taken + [r.id])
  {
    IdsSnoc(q, r, now);
    WithRunsSnoc(x.pending, StartedNow(q, now), Started(r, now));
    assert x.taken + (Ids(q) + [r.id]) == x.taken + Ids(q) + [r.id];
  }

  lemma {:induction false} ClaimingKeys(x: Session, q: seq<RiskRun>, now: int, k: string)
    ensures k in Claiming(x, q, now).pending <==> k in x.pending || k in Ids(q)
  {
    if q == [] {
      assert StartedNow(q, now) == [];
    } else {
      var rest, r := q[..|q| - 1], q[|q| - 1];
      assert q == rest + [r];
      ClaimingKeys(x, rest, now, k);
      ClaimingSnoc(x, rest, r, now);
      IdsSnoc(rest, r, now);
    }
  }

  lemma LastUnclaimed(x: Session, q: seq<RiskRun>, r: RiskRun, now: int, table: Table)
    requires Claimable(table, q + [r]) && r.id !in x.pending
    ensures Claimable(table, q) && r.id !in Claiming(x, q, now).pending
  {
    var all := q + [r];
    forall i, j | 0 <= i < j < |q|
      ensures q[i].id != q[j].id
    {
      assert all[i].id != all[j].id;
    }
    forall i | 0 <= i < |q|
      ensures q[i].id in table && table[q[i].id] == q[i] && q[i].status.QUEUED? && Ids(q)[i] != r.id
    {
      assert all[i] == q[i] && all[i].id != all[|q|].id;
    }
    ClaimingKeys(x, q, now, r.id);
  }

  lemma {:induction false} ClaimingSafe(table: Table, x: Session, q: seq<RiskRun>, now: int, ok: Check)
    requires Good(table, ok) && StartKeeps(ok) && SessionSafe(table, x, ok) && Claimable(table, q)
    requires forall r :: r in q ==> r.id !in x.pending
    ensures SessionSafe(table, Claiming(x, q, now), ok)
  {
    if q == [] {
      assert x.taken + Ids(q) == x.taken && StartedNow(q, now) == [];
    } else {
      var rest, r := q[..|q| - 1], q[|q| - 1];
      assert q == rest + [r];
      LastUnclaimed(x, rest, r, now, table);
      ClaimingSafe(table, x, rest, now, ok);
      ClaimingSnoc(x, rest, r, now);
      OneMorePending(table, Claiming(x, rest, now), r, now, ok);
    }
  }

  lemma IdsOf(q: seq<RiskRun>, k: string)
    ensures k in Ids(q) <==> exists r :: r in q && r.id == k
  {
    if r :| r in q && r.id == k {
      var i :| 0 <= i < |q| && q[i] == r;
      assert Ids(q)[i] == k;
    }
  }

  /** The claimed rows are no other session's. */
  lemma ClaimApart(s: State, w: nat, q: seq<RiskRun>, now: int)
    requires Apart(s) && forall r :: r in q ==> !Locked(s, r.id)
    ensures Apart(s.(sessions := s.sessions[w := Claiming(SessionOf(s, w), q, now)]))
  {
    var mine := SessionOf(s, w);
    forall v, k | v in s.sessions && v != w && k in s.sessions[v].pending
      ensures k !in Claiming(mine, q, now).pending
    {
      assert Locked(s, k);
      IdsOf(q, k);
      ClaimingKeys(mine, q, now, k);
    }
  }

  lemma ClaimKeepsSafe(s: State, w: nat, limit: int, now: int, ok: Check)
    requires Safe(s, ok) && StartKeeps(ok)
    ensures Keyed(View(s, w)) && Safe(ClaimStep(s, w, limit, now, true), ok)
  {
    SelectedFree(s, w, limit, ok);
    ViewKeyed(s, w, ok);
    var q, mine := Selected(s, w, limit, true), SessionOf(s, w);
    forall r | r in q
      ensures r.id !in mine.pending
    {
      assert !Locked(s, r.id);
    }
    ClaimingSafe(s.table, mine, q, now, ok);
    ClaimApart(s, w, q, now);
  }

  lemma {:induction false} JoinDistinct<K>(a: seq<K>, b: seq<K>)
    requires Distinct(a) && Distinct(b) && forall k :: k in a ==> k !in b
    ensures Distinct(a + b)
  {
    if a == [] {
      assert a + b == b;
    } else {
      assert (a + b)[1..] == a[1..] + b;
      JoinDistinct(a[1..], b);
    }
  }

  lemma CommitTaken(s: State, w: nat, ok: Check)
    requires Safe(s, ok) && w in s.sessions
    ensures TakenOnce(CommitStep(s, w)) && Good(CommitStep(s, w).table, ok)
  {
    var x := s.sessions[w];
    assert SessionSafe(s.table, x, ok);
    forall k | k in x.taken
      ensures k !in s.taken
    {
      assert Holds(s.table, k, x.pending[k]);
    }
    JoinDistinct(s.taken, x.taken);
    forall k | k in s.taken + x.taken
      ensures k in s.table + x.pending && !(s.table + x.pending)[k].status.QUEUED?
    {
      if k in x.pending {
        assert Holds(s.table, k, x.pending[k]);
      }
    }
  }

  lemma OtherSessionStays(s: State, w: nat, v: nat, ok: Check)
    requires Safe(s, ok) && w in s.sessions && v in s.sessions && v != w
    ensures SessionSafe(CommitStep(s, w).table, s.sessions[v], ok)
  {
    var x, y := s.sessions[w], s.sessions[v];
    assert SessionSafe(s.table, y, ok);
    forall k | k in y.pending
      ensures Holds(s.table + x.pending, k, y.pending[k])
    {
      assert Holds(s.table, k, y.pending[k]);
      assert k !in x.pending;
    }
  }

  lemma CommitKeepsSafe(s: State, w: nat, ok: Check)
    requires Safe(s, ok) && w in s.sessions
    ensures Safe(CommitStep(s, w), ok)
  {
    CommitTaken(s, w, ok);
    forall v | v in s.sessions && v != w
      ensures SessionSafe(CommitStep(s, w).table, s.sessions[v], ok)
    {
      OtherSessionStays(s, w, v, ok);
    }
  }

  /** Only a queued run can be set to queued. */
  lemma NeverRequeued(r: RiskRun, status: Status, error: Option<string>, time: int)
    requires Valid(r) && RowTransition(r, status, error, time).result.Ok?
    ensures var row := RowTransition(r, status, error, time).result.value;
      Valid(row) && row.id == r.id && (row.status.QUEUED? ==> r.status.QUEUED?)
  {
  }

  /** Writing one row nobody holds, or a new one. */
  lemma WriteKeepsSafe(s: State, row: RiskRun, ok: Check)
    requires Safe(s, ok) && !Locked(s, row.id) && ok(row)
    requires row.id in s.table && row.status.QUEUED? ==> s.table[row.id].status.QUEUED?
    ensures Safe(s.(table := s.table[row.id := row]), ok)
  {
    var t := s.table[row.id := row];
    forall w | w in s.sessions
      ensures SessionSafe(t, s.sessions[w], ok)
    {
      assert SessionSafe(s.table, s.sessions[w], ok);
      forall k | k in s.sessions[w].pending
        ensures Holds(t, k, s.sessions[w].pending[k])
      {
        assert Holds(s.table, k, s.sessions[w].pending[k]);
      }
    }
  }

  lemma NewIsUnlocked(s: State, k: string, ok: Check)
    requires Safe(s, ok) && k !in s.table
    ensures !Locked(s, k)
  {
    forall v | v in s.sessions
      ensures k !in s.sessions[v].pending
    {
      assert SessionSafe(s.table, s.sessions[v], ok);
      assert forall j :: j in s.sessions[v].pending ==> Holds(s.table, j, s.sessions[v].pending[j]);
    }
  }

  /** The validator as a check. */
  function Validator(): Check {
    r => Valid(r)
  }

  lemma StartValid()
    ensures StartKeeps(Validator())
  {
    forall r, now {:trigger Validator()(Started(r, now))} | Validator()(r) && r.status.QUEUED?
      ensures Validator()(Started(r, now))
    {
      StartedIsTransition(r, now);
    }
  }

  lemma StepKeepsSafe(s: State, a: Action)
    requires Safe(s, Validator())
    ensures Safe(Step(s, a, true), Validator())
  {
    var ok := Validator();
    match a {
      case Submit(run) =>
        if run.id !in s.table && Valid(run) {
          NewIsUnlocked(s, run.id, ok);
          WriteKeepsSafe(s, run, ok);
        }
      case Claim(w, limit, now) =>
        StartValid();
        ClaimKeepsSafe(s, w, limit, now, ok);
      case Commit(w) =>
        if w in s.sessions {
          CommitKeepsSafe(s, w, ok);
        }
      case Rollback(_) =>
      case SetStatus(id, status, error, time) => SetKeepsSafe(s, id, status, error, time);
    }
  }

  lemma SetKeepsSafe(s: State, id: string, status: Status, error: Option<string>, time: int)
    requires Safe(s, Validator())
    ensures Safe(Step(s, SetStatus(id, status, error, time), true), Validator())
  {
    if id in s.table && !Locked(s, id) && RowTransition(s.table[id], status, error, time).result.Ok? {
      assert s.table[id].id == id && Validator()(s.table[id]);
      NeverRequeued(s.table[id], status, error, time);
      WriteKeepsSafe(s, RowTransition(s.table[id], status, error, time).result.value, Validator());
    }
  }

  /**
   * Whatever workers submit, claim, commit, roll back and set, no run is claimed twice by committed claims,
   * no two open transactions hold the same run, and every committed run is valid.
   */
  lemma {:induction false} EveryRunIsSafe(actions: seq<Action>)
    ensures Safe(Steps(actions, true), Validator())
  {
    if actions != [] {
      EveryRunIsSafe(actions[..|actions| - 1]);
      StepKeepsSafe(Steps(actions[..|actions| - 1], true), actions[|actions| - 1]);
    }
  }

  /** A claim takes as many of the eligible runs as it may, and none that is younger than one it leaves. */
  lemma ClaimTakesOldest(s: State, w: nat, limit: int, ok: Check)
    requires Safe(s, ok)
    ensures Keyed(View(s, w))
    ensures var q, rows := Selected(s, w, limit, true), Eligible(s, w, true);
      && |q| == (if limit <= 0 then 0 else if limit >= |rows| then |rows| else limit)
      && (forall r :: r in q ==> r in rows)
      && (forall taken, left :: taken in q && left in rows && left !in q ==> Before(taken, left))
  {
    ViewKeyed(s, w, ok);
    EligibleStored(s, w, true);
    var view, rows := View(s, w), Eligible(s, w, true);
    QueueLists(view, rows);
    var all := Queue(view, rows);
    forall taken, left | taken in Take(all, limit) && left in rows && left !in Take(all, limit)
      ensures Before(taken, left)
    {
      TakenBeforeLeft(all, limit, taken, left);
    }
  }

  lemma TakenBeforeLeft(all: seq<RiskRun>, limit: int, taken: RiskRun, left: RiskRun)
    requires Ascending(Before, all) && taken in Take(all, limit) && left in all && left !in Take(all, limit)
    ensures Before(taken, left)
  {
    var q := Take(all, limit);
    var i :| 0 <= i < |q| && q[i] == taken;
    var j :| 0 <= j < |all| && all[j] == left;
    forall m | 0 <= m < |q|
      ensures all[m] != left
    {
      assert all[m] == q[m] && q[m] in q;
    }
    assert all[i] == taken;
  }

  // ----- without row locks -----

  lemma OnlyRow(t: Table, r: RiskRun, limit: int)
    requires Keyed(t) && Stored(t, {r}) && limit >= 1
    ensures Take(Queue(t, {r}), limit) == [r]
  {
    QueueLists(t, {r});
    assert r in Queue(t, {r});
  }

  lemma OnlyClaim(s: State, w: nat, r: RiskRun, now: int)
    requires s.table == map[r.id := r] && w !in s.sessions && r.status.QUEUED?
    ensures Keyed(View(s, w))
    ensures ClaimStep(s, w, 1, now, false) == s.(sessions := s.sessions[w := Session(map[r.id := Started(r, now)], [r.id])])
  {
    assert View(s, w) == s.table;
    assert r.id in View(s, w) && View(s, w)[r.id] == r;
    assert Eligible(s, w, false) == {r};
    OnlyRow(s.table, r, 1);
    var q := [r];
    assert StartedNow(q, now) == [Started(r, now)];
    assert WithRuns(map[], [Started(r, now)]) == map[r.id := Started(r, now)] by {
      WithRunsSnoc(map[], [], Started(r, now));
      assert [] + [Started(r, now)] == [Started(r, now)];
    }
    assert [] + Ids(q) == [r.id];
  }

  /** Two workers with the same run in hand. */
  lemma BothClaim(r: RiskRun, now: int)
    requires Valid(r) && r.status.QUEUED?
    ensures var mine := Session(map[r.id := Started(r, now)], [r.id]);
      Steps([Submit(r), Claim(0, 1, now), Claim(1, 1, now)], false) == State(map[r.id := r], map[0 := mine, 1 := mine], [])
  {
    var mine := Session(map[r.id := Started(r, now)], [r.id]);
    var one, two := [Submit(r)], [Submit(r), Claim(0, 1, now)];
    var s1, s2 := State(map[r.id := r], map[], []), State(map[r.id := r], map[0 := mine], []);
    assert Steps([], false) == State(map[], map[], []);
    StepsSnoc([], Submit(r));
    assert [] + [Submit(r)] == one;
    assert Steps(one, false) == s1;
    StepsSnoc(one, Claim(0, 1, now));
    assert one + [Claim(0, 1, now)] == two;
    OnlyClaim(s1, 0, r, now);
    assert Steps(two, false) == s2;
    StepsSnoc(two, Claim(1, 1, now));
    assert two + [Claim(1, 1, now)] == [Submit(r), Claim(0, 1, now), Claim(1, 1, now)];
    OnlyClaim(s2, 1, r, now);
  }

  lemma BothCommit(s: State, x: Session)
    requires s.sessions == map[0 := x, 1 := x] && s.taken == []
    ensures Step(Step(s, Commit(0), false), Commit(1), false).taken == x.taken + x.taken
  {
    var t := Step(s, Commit(0), false);
    assert 1 in t.sessions && t.sessions[1] == x;
    assert t.taken == x.taken;
  }

  /** Two claims of one submitted run, then two commits. */
  function TwoClaims(r: RiskRun): seq<Action> {
    [Submit(r), Claim(0, 1, r.createdAt), Claim(1, 1, r.createdAt)]
  }

  /** Without them two workers claim the same run, and both commit. */
  lemma ClaimedTwice(r: RiskRun)
    requires Valid(r) && r.status.QUEUED?
    ensures Steps(TwoClaims(r) + [Commit(0)] + [Commit(1)], false).taken == [r.id, r.id]
  {
    BothClaim(r, r.createdAt);
    StepsSnoc(TwoClaims(r), Commit(0));
    StepsSnoc(TwoClaims(r) + [Commit(0)], Commit(1));
    BothCommit(Steps(TwoClaims(r), false), Session(map[r.id := Started(r, r.createdAt)], [r.id]));
  }

  lemma StepsSnoc(actions: seq<Action>, a: Action)
    ensures Steps(actions + [a], false) == Step(Steps(actions, false), a, false)
  {
    assert (actions + [a])[..|actions|] == actions;
  }
}
