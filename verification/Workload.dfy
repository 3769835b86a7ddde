/** The size limits of a request body (api/workload.py). */
module Workload {
  import opened Wrappers

  datatype Json =
    | Null
    | Flag(b: bool)
    | Number(n: real)
    | Text(s: string)
    | List(items: seq<Json>)
    | Object(fields: seq<Field>)

  /** An entry of a dictionary, which keeps them in order. */
  datatype Field = Field(name: string, value: Json)

  datatype Limits = Limits(maxPositions: nat, maxScenarios: nat)

  const MAX_JSON_DEPTH: nat := 64

  /** WorkloadLimitExceeded. */
  datatype Exceeded = Exceeded(field: string, actual: nat, limit: nat)

  datatype Verdict = Passed | Refused(reason: Exceeded)

  // ----- reading an object -----

  /** A parsed object has one entry a name; were there more, the last would hold. */
  function Get(o: Json, name: string): Option<Json> {
    if o.Object? then GetField(o.fields, name) else None
  }

  function GetField(fields: seq<Field>, name: string): Option<Json> {
    if fields == [] then None
    else if fields[|fields| - 1].name == name then Some(fields[|fields| - 1].value)
    else GetField(fields[..|fields| - 1], name)
  }

  lemma GetSnoc(fields: seq<Field>, f: Field, name: string)
    ensures GetField(fields + [f], name) == if f.name == name then Some(f.value) else GetField(fields, name)
  {
    assert (fields + [f])[..|fields|] == fields;
  }

  function ListAt(o: Json, name: string): Option<seq<Json>> {
    match Get(o, name)
    case Some(List(items)) => Some(items)
    case _ => None
  }

  predicate AddsPosition(change: Json) {
    && Get(change, "operation") == Some(Text("add"))
    && Get(change, "position").Some? && Get(change, "position").value.Object?
  }

  function Additions(changes: seq<Json>): nat {
    if changes == [] then 0
    else Additions(changes[..|changes| - 1]) + if AddsPosition(changes[|changes| - 1]) then 1 else 0
  }

  /** The book an object's changes go with: its own positions, else those of its portfolio. */
  function BookFor(o: Json): Option<seq<Json>> {
    if ListAt(o, "positions").Some? then ListAt(o, "positions")
    else if Get(o, "portfolio").Some? then ListAt(Get(o, "portfolio").value, "positions")
    else None
  }

  /** The limits of one object. */
  function CheckObject(o: Json, limits: Limits): Verdict {
    var positions, scenarios, changes, book := ListAt(o, "positions"), ListAt(o, "scenarios"), ListAt(o, "changes"), BookFor(o);
    if positions.Some? && |positions.value| > limits.maxPositions then Refused(Exceeded("positions", |positions.value|, limits.maxPositions))
    else if scenarios.Some? && |scenarios.value| > limits.maxScenarios then Refused(Exceeded("scenarios", |scenarios.value|, limits.maxScenarios))
    else if changes.Some? && book.Some? && |book.value| + Additions(changes.value) > limits.maxPositions then
      Refused(Exceeded("positions", |book.value| + Additions(changes.value), limits.maxPositions))
    else Passed
  }

  // ----- the tree -----

  function Children(node: Json): seq<Json> {
    match node
    case List(items) => items
    case Object(fields) => seq(|fields|, i requires 0 <= i < |fields| => fields[i].value)
    case _ => []
  }

  function Child(node: Json, i: nat): (r: Json)
    requires i < |Children(node)|
    ensures r == Children(node)[i]
    ensures r < node
  {
    match node
    case List(items) => items[i]
    case Object(fields) => assert fields[i] in fields; fields[i].value
  }

  /** One node on its own: its depth, and the limits if it is an object. */
  function CheckNode(node: Json, depth: nat, limits: Limits): Verdict {
    if depth > MAX_JSON_DEPTH then Refused(Exceeded("nesting", depth, MAX_JSON_DEPTH))
    else if node.Object? then CheckObject(node, limits)
    else Passed
  }

  type Check = (Json, nat) -> Verdict

  function Checker(limits: Limits): Check {
    (node: Json, depth: nat) => CheckNode(node, depth, limits)
  }

  /** The first refusal, walking a node before its children and the last child first. */
  ghost function Visit(node: Json, depth: nat, check: Check): Verdict
    decreases node, |Children(node)| + 1
  {
    var own := check(node, depth);
    if own.Refused? then own else VisitChildren(node, |Children(node)|, depth, check)
  }

  ghost function VisitChildren(node: Json, k: nat, depth: nat, check: Check): Verdict
    requires k <= |Children(node)|
    decreases node, k
  {
    if k == 0 then Passed
    else
      var last := Visit(Child(node, k - 1), depth + 1, check);
      if last.Refused? then last else VisitChildren(node, k - 1, depth, check)
  }

  // ----- what passing means -----

  /** The node at the end of a path of child numbers. */
  function At(node: Json, path: seq<nat>): Option<Json>
    decreases |path|
  {
    if path == [] then Some(node)
    else if path[0] < |Children(node)| then At(Children(node)[path[0]], path[1..])
    else None
  }

  predicate PathPasses(node: Json, path: seq<nat>, depth: nat, check: Check) {
    At(node, path).Some? ==> check(At(node, path).value, depth + |path|).Passed?
  }

  ghost predicate AllPass(node: Json, depth: nat, check: Check) {
    forall path :: PathPasses(node, path, depth, check)
  }

  /** So do the subtrees of the first k children. */
  ghost predicate ChildrenPass(node: Json, k: nat, depth: nat, check: Check)
    requires k <= |Children(node)|
  {
    forall i :: 0 <= i < k ==> AllPass(Children(node)[i], depth + 1, check)
  }

  lemma PathBelow(node: Json, i: nat, path: seq<nat>, depth: nat, check: Check)
    requires i < |Children(node)|
    ensures PathPasses(node, [i] + path, depth, check) <==> PathPasses(Children(node)[i], path, depth + 1, check)
  {
    assert ([i] + path)[1..] == path;
  }

  lemma ChildPaths(node: Json, depth: nat, check: Check)
    ensures AllPass(node, depth, check) <==> (check(node, depth).Passed? && ChildrenPass(node, |Children(node)|, depth, check))
  {
    if AllPass(node, depth, check) {
      assert PathPasses(node, [], depth, check);
      var below := depth + 1;
      forall i | 0 <= i < |Children(node)|
        ensures AllPass(Children(node)[i], below, check)
      {
        var child := Children(node)[i];
        forall path
          ensures PathPasses(child, path, below, check)
        {
          PathBelow(node, i, path, depth, check);
        }
      }
    }
    if check(node, depth).Passed? && ChildrenPass(node, |Children(node)|, depth, check) {
      forall path
        ensures PathPasses(node, path, depth, check)
      {
        PathFromChildren(node, path, depth, check);
      }
    }
  }

  lemma PathFromChildren(node: Json, path: seq<nat>, depth: nat, check: Check)
    requires check(node, depth).Passed? && ChildrenPass(node, |Children(node)|, depth, check)
    ensures PathPasses(node, path, depth, check)
  {
    if path != [] && path[0] < |Children(node)| {
      assert AllPass(Children(node)[path[0]], depth + 1, check);
      PathBelow(node, path[0], path[1..], depth, check);
      assert [path[0]] + path[1..] == path;
    }
  }

  lemma {:induction false} VisitExactly(node: Json, depth: nat, check: Check)
    ensures Visit(node, depth, check).Passed? <==> AllPass(node, depth, check)
    decreases node, |Children(node)| + 1
  {
    ChildPaths(node, depth, check);
    VisitChildrenExactly(node, |Children(node)|, depth, check);
  }

  lemma {:induction false} VisitChildrenExactly(node: Json, k: nat, depth: nat, check: Check)
    requires k <= |Children(node)|
    ensures VisitChildren(node, k, depth, check).Passed? <==> ChildrenPass(node, k, depth, check)
    decreases node, k
  {
    if k > 0 {
      VisitExactly(Child(node, k - 1), depth + 1, check);
      VisitChildrenExactly(node, k - 1, depth, check);
    }
  }

  // ----- the stack -----

  datatype Entry = Entry(node: Json, depth: nat)

  ghost function VisitStack(stack: seq<Entry>, check: Check): Verdict {
    if stack == [] then Passed
    else
      var top := stack[|stack| - 1];
      var first := Visit(top.node, top.depth, check);
      if first.Refused? then first else VisitStack(stack[..|stack| - 1], check)
  }

  /** The first k children of a node, above what the stack holds. */
  function Pushed(stack: seq<Entry>, node: Json, k: nat, depth: nat): seq<Entry>
    requires k <= |Children(node)|
  {
    if k == 0 then stack else Pushed(stack, node, k - 1, depth) + [Entry(Children(node)[k - 1], depth)]
  }

  lemma {:induction false} PushedVisits(stack: seq<Entry>, node: Json, k: nat, depth: nat, check: Check)
    requires k <= |Children(node)|
    ensures VisitStack(Pushed(stack, node, k, depth + 1), check)
      == var below := VisitChildren(node, k, depth, check);
         if below.Refused? then below else VisitStack(stack, check)
  {
    if k > 0 {
      PushedVisits(stack, node, k - 1, depth, check);
      var all := Pushed(stack, node, k, depth + 1);
      assert all[..|all| - 1] == Pushed(stack, node, k - 1, depth + 1);
    }
  }

  /** Nodes still to be visited, counted once each. */
  ghost function Size(node: Json): nat
    decreases node, |Children(node)| + 1
  {
    1 + SizeOfChildren(node, |Children(node)|)
  }

  ghost function SizeOfChildren(node: Json, k: nat): nat
    requires k <= |Children(node)|
    decreases node, k
  {
    if k == 0 then 0 else SizeOfChildren(node, k - 1) + Size(Child(node, k - 1))
  }

  ghost function Waiting(stack: seq<Entry>): nat {
    if stack == [] then 0 else Waiting(stack[..|stack| - 1]) + Size(stack[|stack| - 1].node)
  }

  lemma {:induction false} PushedWaits(stack: seq<Entry>, node: Json, k: nat, depth: nat)
    requires k <= |Children(node)|
    ensures Waiting(Pushed(stack, node, k, depth)) == Waiting(stack) + SizeOfChildren(node, k)
  {
    if k > 0 {
      PushedWaits(stack, node, k - 1, depth);
      var all := Pushed(stack, node, k, depth);
      assert all[..|all| - 1] == Pushed(stack, node, k - 1, depth);
    }
  }

  ghost function Enforced(payload: Json, limits: Limits): Verdict {
    if payload.List? && |payload.items| > limits.maxScenarios then Refused(Exceeded("scenarios", |payload.items|, limits.maxScenarios))
    else Visit(payload, 0, Checker(limits))
  }

  method PushChildren(stack: seq<Entry>, node: Json, depth: nat) returns (r: seq<Entry>)
    ensures r == Pushed(stack, node, |Children(node)|, depth)
  {
    r := stack;
    for k := 0 to |Children(node)|
      invariant r == Pushed(stack, node, k, depth)
    {
      r := r + [Entry(Children(node)[k], depth)];
    }
  }

  /** enforce_parsed_payload. */
  method EnforceParsedPayload(payload: Json, limits: Limits) returns (r: Verdict)
    ensures r == Enforced(payload, limits)
  {
    if payload.List? && |payload.items| > limits.maxScenarios {
      return Refused(Exceeded("scenarios", |payload.items|, limits.maxScenarios));
    }
    r := WalkStack(payload, Checker(limits));
  }

  /** The stack loop of _iter_dicts, with the check of each node it yields. */
  method WalkStack(payload: Json, check: Check) returns (r: Verdict)
    ensures r == Visit(payload, 0, check)
  {
    var stack := [Entry(payload, 0)];
    while stack != []
      invariant VisitStack(stack, check) == Visit(payload, 0, check)
      decreases Waiting(stack)
    {
      var top := stack[|stack| - 1];
      var rest := stack[..|stack| - 1];
      var own := check(top.node, top.depth);
      if own.Refused? {
        return own;
      }
      PushedVisits(rest, top.node, |Children(top.node)|, top.depth, check);
      PushedWaits(rest, top.node, |Children(top.node)|, top.depth + 1);
      stack := PushChildren(rest, top.node, top.depth + 1);
    }
    r := Passed;
  }

  /** A body passes exactly when no node of it is too deep and no object of it is over a limit, wherever it stands. */
  lemma PassesExactly(payload: Json, limits: Limits)
    ensures Enforced(payload, limits).Passed? <==>
      (payload.List? ==> |payload.items| <= limits.maxScenarios) && AllPass(payload, 0, Checker(limits))
  {
    VisitExactly(payload, 0, Checker(limits));
  }

  // ----- what the limits are on -----

  predicate ListWithin(o: Json, name: string, most: nat) {
    Get(o, name).Some? && Get(o, name).value.List? ==> |Get(o, name).value.items| <= most
  }

  /** The book is the list of positions of the object, or of its portfolio if it has no such list. */
  predicate GoesWith(o: Json, book: seq<Json>) {
    || Get(o, "positions") == Some(List(book))
    || ((Get(o, "positions").None? || !Get(o, "positions").value.List?)
        && Get(o, "portfolio").Some? && Get(Get(o, "portfolio").value, "positions") == Some(List(book)))
  }

  /** No deeper than 64; no more positions or scenarios listed than allowed; and no changes that could grow their book beyond that. */
  ghost predicate Fits(node: Json, depth: nat, limits: Limits) {
    && depth <= 64
    && ListWithin(node, "positions", limits.maxPositions) && ListWithin(node, "scenarios", limits.maxScenarios)
    && forall changes, book :: Get(node, "changes") == Some(List(changes)) && GoesWith(node, book) ==> |book| + Additions(changes) <= limits.maxPositions
  }

  lemma BookGoesWith(o: Json, book: seq<Json>)
    ensures BookFor(o) == Some(book) <==> GoesWith(o, book)
  {
  }

  lemma ObjectFits(node: Json, depth: nat, limits: Limits)
    ensures CheckNode(node, depth, limits).Passed? <==> Fits(node, depth, limits)
  {
    if node.Object? {
      if BookFor(node).Some? {
        BookGoesWith(node, BookFor(node).value);
      }
      forall book
        ensures GoesWith(node, book) ==> BookFor(node) == Some(book)
      {
        BookGoesWith(node, book);
      }
    }
  }

  /** A body passes exactly when everything in it fits, and a list on its own is no longer than the scenarios allowed. */
  lemma BodyFits(payload: Json, limits: Limits)
    ensures Enforced(payload, limits).Passed? <==>
      && (payload.List? ==> |payload.items| <= limits.maxScenarios)
      && forall path, node :: At(payload, path) == Some(node) ==> Fits(node, |path|, limits)
  {
    PassesExactly(payload, limits);
    if AllPass(payload, 0, Checker(limits)) {
      forall path, node | At(payload, path) == Some(node)
        ensures Fits(node, |path|, limits)
      {
        assert PathPasses(payload, path, 0, Checker(limits));
        ObjectFits(node, |path|, limits);
      }
    }
    if forall path, node :: At(payload, path) == Some(node) ==> Fits(node, |path|, limits) {
      forall path
        ensures PathPasses(payload, path, 0, Checker(limits))
      {
        if At(payload, path).Some? {
          ObjectFits(At(payload, path).value, |path|, limits);
        }
      }
    }
  }

  // ----- what a refusal says -----

  lemma {:induction false} VisitRefused(node: Json, depth: nat, check: Check) returns (path: seq<nat>)
    requires Visit(node, depth, check).Refused?
    ensures At(node, path).Some? && check(At(node, path).value, depth + |path|) == Visit(node, depth, check)
    decreases node, |Children(node)| + 1
  {
    if check(node, depth).Refused? {
      path := [];
    } else {
      path := ChildRefused(node, |Children(node)|, depth, check);
    }
  }

  lemma {:induction false} ChildRefused(node: Json, k: nat, depth: nat, check: Check) returns (path: seq<nat>)
    requires k <= |Children(node)| && VisitChildren(node, k, depth, check).Refused?
    ensures At(node, path).Some? && check(At(node, path).value, depth + |path|) == VisitChildren(node, k, depth, check)
    decreases node, k
  {
    if Visit(Child(node, k - 1), depth + 1, check).Refused? {
      var below := VisitRefused(Child(node, k - 1), depth + 1, check);
      path := [k - 1] + below;
      assert path[1..] == below;
    } else {
      path := ChildRefused(node, k - 1, depth, check);
    }
  }

  /** The reason names what is over, how much there is and how much is allowed. */
  ghost predicate Tells(node: Json, depth: nat, limits: Limits, e: Exceeded) {
    || (e == Exceeded("nesting", depth, 64) && depth > 64)
    || (e == Exceeded("scenarios", e.actual, limits.maxScenarios) && e.actual > limits.maxScenarios
        && exists items :: Get(node, "scenarios") == Some(List(items)) && |items| == e.actual)
    || (e == Exceeded("positions", e.actual, limits.maxPositions) && e.actual > limits.maxPositions
        && ((exists items :: Get(node, "positions") == Some(List(items)) && |items| == e.actual)
            || exists changes, book :: Get(node, "changes") == Some(List(changes)) && GoesWith(node, book) && |book| + Additions(changes) == e.actual))
  }

  lemma NodeTells(node: Json, depth: nat, limits: Limits)
    requires CheckNode(node, depth, limits).Refused?
    ensures Tells(node, depth, limits, CheckNode(node, depth, limits).reason)
  {
    if depth <= 64 && BookFor(node).Some? {
      BookGoesWith(node, BookFor(node).value);
    }
  }

  /** A refusal is true of something in the body. */
  lemma RefusalTells(payload: Json, limits: Limits) returns (path: seq<nat>)
    requires Enforced(payload, limits).Refused?
    ensures var e := Enforced(payload, limits).reason;
      || (payload.List? && e == Exceeded("scenarios", |payload.items|, limits.maxScenarios) && e.actual > e.limit)
      || (At(payload, path).Some? && Tells(At(payload, path).value, |path|, limits, e))
  {
    if payload.List? && |payload.items| > limits.maxScenarios {
      path := [];
    } else {
      path := VisitRefused(payload, 0, Checker(limits));
      NodeTells(At(payload, path).value, |path|, limits);
    }
  }
}
