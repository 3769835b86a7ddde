/**
 * Building the tree by grouping loops, and slicing the book at one node
 * (HierarchyEngine.build and risk_at in risk/hierarchy.py; filter_positions and portfolio_at in risk/hierarchy_placement.py).
 */
module HierarchyEngine {
  import opened Wrappers
  import opened Vectors
  import opened SortedSets
  import Strings
  import opened NodeIds
  import opened Artifacts
  import opened Hierarchy

  // ----- grouping -----

  /** Desk, strategy and book of a position. */
  function BookOf(pf: Portfolio, p: Position): (r: seq<string>)
    ensures |r| == 3
  {
    Labels(pf, p)[..3]
  }

  type Groups = map<seq<string>, seq<Position>>

  /** One entry per book that has positions, with its positions in order. */
  ghost predicate Grouped(groups: Groups, pf: Portfolio, ps: seq<Position>) {
    && (forall k :: k in groups <==> |k| == 3 && Filter(pf, ps, k) != [])
    && (forall k :: k in groups ==> groups[k] == Filter(pf, ps, k))
  }

  function Appended(groups: Groups, b: seq<string>, p: Position): Groups {
    groups[b := (if b in groups then groups[b] else []) + [p]]
  }

  function GroupsOf(pf: Portfolio, ps: seq<Position>): Groups {
    if ps == [] then map[]
    else Appended(GroupsOf(pf, ps[..|ps| - 1]), BookOf(pf, ps[|ps| - 1]), ps[|ps| - 1])
  }

  /** tree[desk][strategy][book].append(p), the three dictionaries as one: every book with its positions, in the portfolio's order. */
  method GroupPositions(pf: Portfolio) returns (groups: Groups)
    ensures Grouped(groups, pf, pf.positions)
    ensures groups == GroupsOf(pf, pf.positions)
  {
    groups := map[];
    for i := 0 to |pf.positions|
      invariant groups == GroupsOf(pf, pf.positions[..i])
    {
      var p := pf.positions[i];
      assert pf.positions[..i + 1][..i] == pf.positions[..i];
      groups := Appended(groups, BookOf(pf, p), p);
    }
    assert pf.positions[..|pf.positions|] == pf.positions;
    GroupsAreMembers(pf, pf.positions);
  }

  lemma {:induction false} GroupsAreMembers(pf: Portfolio, ps: seq<Position>)
    ensures Grouped(GroupsOf(pf, ps), pf, ps)
  {
    if ps != [] {
      var rest, p := ps[..|ps| - 1], ps[|ps| - 1];
      GroupsAreMembers(pf, rest);
      GroupStep(GroupsOf(pf, rest), pf, rest, p);
      assert ps == rest + [p];
    }
  }

  lemma GroupStep(groups: Groups, pf: Portfolio, ps: seq<Position>, p: Position)
    requires Grouped(groups, pf, ps)
    ensures Grouped(Appended(groups, BookOf(pf, p), p), pf, ps + [p])
  {
    var after := Appended(groups, BookOf(pf, p), p);
    forall k
      ensures k in after <==> |k| == 3 && Filter(pf, ps + [p], k) != []
      ensures k in after ==> after[k] == Filter(pf, ps + [p], k)
    {
      FilterSnoc(pf, ps, p, k);
      if |k| == 3 {
        UnderBook(pf, p, k);
      }
    }
  }

  lemma FilterSnoc(pf: Portfolio, ps: seq<Position>, p: Position, k: seq<string>)
    ensures Filter(pf, ps + [p], k) == Filter(pf, ps, k) + if Under(pf, p, k) then [p] else []
  {
    assert (ps + [p])[..|ps|] == ps;
  }

  lemma UnderBook(pf: Portfolio, p: Position, k: seq<string>)
    requires |k| == 3
    ensures Under(pf, p, k) <==> k == BookOf(pf, p)
  {
  }

  /** sorted() of labels. */
  method SortLabels(s: set<string>) returns (q: seq<string>)
    ensures q == InOrder(s)
  {
    q := [];
    var rest := s;
    while rest != {}
      invariant rest <= s && q + InOrder(rest) == InOrder(s)
    {
      LabelsOrdered(rest);
      LeastExists(Strings.Less, rest);
      var l :| l in rest && forall x :: x in rest && x != l ==> Strings.Less(l, x);
      LabelsOrdered(rest - {l});
      assert IsLeast(Strings.Less, rest, l);
      ghost var m := Least(Strings.Less, rest);
      assert m == l;
      q := q + [l];
      rest := rest - {l};
    }
  }

  // ----- building -----

  lemma MemberHasBook(pf: Portfolio, prefix: seq<string>, p: Position)
    requires |prefix| <= 3 && p in Members(pf, prefix)
    ensures prefix <= BookOf(pf, p) && p in Members(pf, BookOf(pf, p))
  {
    FilterKeeps(pf, pf.positions, prefix);
    FilterKeeps(pf, pf.positions, BookOf(pf, p));
    UnderBook(pf, p, BookOf(pf, p));
  }

  /** The labels below a desk or strategy are those of its books. */
  lemma LabelsOfBooks(pf: Portfolio, groups: Groups, prefix: seq<string>)
    requires |prefix| < 3 && Grouped(groups, pf, pf.positions)
    ensures LabelSet(pf, prefix) == set k | k in groups && prefix <= k :: k[|prefix|]
  {
    forall p | p in Members(pf, prefix)
      ensures BookOf(pf, p) in groups && prefix <= BookOf(pf, p) && BookOf(pf, p)[|prefix|] == Labels(pf, p)[|prefix|]
    {
      MemberHasBook(pf, prefix, p);
    }
    forall k | k in groups && prefix <= k
      ensures k[|prefix|] in LabelSet(pf, prefix)
    {
      var p := Members(pf, k)[0];
      assert p in Members(pf, k);
      FilterKeeps(pf, pf.positions, k);
      FilterKeeps(pf, pf.positions, prefix);
      assert k <= Labels(pf, p);
      assert prefix <= Labels(pf, p) && Labels(pf, p)[|prefix|] == k[|prefix|];
    }
  }

  lemma SubsetUniform(pf: Portfolio, arts: ArtifactMap, prefix: seq<string>, l: string)
    requires |prefix| < 4 && Complete(arts, pf.positions)
    ensures Complete(arts, Members(pf, prefix)) && Complete(arts, Members(pf, prefix + [l]))
    ensures Uniform(arts, Members(pf, prefix)) ==> Uniform(arts, Members(pf, prefix + [l]))
  {
    MembersComplete(pf, arts, prefix);
    MembersComplete(pf, arts, prefix + [l]);
    var ps, qs := Members(pf, prefix), Members(pf, prefix + [l]);
    FilterKeeps(pf, pf.positions, prefix);
    FilterKeeps(pf, pf.positions, prefix + [l]);
    forall i | 0 <= i < |qs|
      ensures exists j :: 0 <= j < |ps| && ps[j] == qs[i]
    {
      UnderChild(pf, qs[i], prefix, l);
      assert qs[i] in ps;
    }
  }

  /** What building below a prefix gives. */
  ghost predicate Built(r: Result<Node, string>, gathered: seq<Position>, pf: Portfolio, arts: ArtifactMap, scenarios: seq<string>, prefix: seq<string>)
    requires |prefix| <= 4 && Complete(arts, pf.positions)
  {
    MembersComplete(pf, arts, prefix);
    && (r.Ok? <==> Uniform(arts, Members(pf, prefix)))
    && (r.Ok? ==> r.value == SubTree(pf, arts, scenarios, prefix) && multiset(gathered) == multiset(Members(pf, prefix)))
  }

  /** The metrics of positions gathered in any order. */
  method GatheredMetrics(ps: seq<Position>, arts: ArtifactMap, scenarios: seq<string>, ghost members: seq<Position>) returns (r: Result<Metrics, string>)
    requires WellFormed(arts) && Complete(arts, members) && multiset(ps) == multiset(members)
    ensures r.Ok? <==> Uniform(arts, members)
    ensures r.Ok? ==> r.value == MetricsOf(arts, members, scenarios)
  {
    CompletePermuted(arts, members, ps);
    if Uniform(arts, members) {
      UniformPermuted(arts, members, ps);
      MetricsPermuted(arts, members, ps, scenarios);
    }
    r := NodeMetrics(ps, arts, scenarios);
    if r.Ok? {
      UniformPermuted(arts, ps, members);
    }
  }

  /** The children of a node, and their positions. */
  ghost predicate BuiltChildren(r: Result<seq<Node>, string>, gathered: seq<Position>, pf: Portfolio, arts: ArtifactMap,
                                scenarios: seq<string>, prefix: seq<string>, labels: seq<string>)
    requires |prefix| < 4 && Complete(arts, pf.positions)
  {
    MembersComplete(pf, arts, prefix);
    && (r.Err? ==> !Uniform(arts, Members(pf, prefix)))
    && (r.Ok? ==> r.value == Children(pf, arts, scenarios, prefix, labels) && multiset(gathered) == multiset(Gather(pf, prefix, labels)))
  }

  lemma ChildBuilt(nodes: seq<Node>, gathered: seq<Position>, pf: Portfolio, arts: ArtifactMap, scenarios: seq<string>, prefix: seq<string>,
                   labels: seq<string>, l: string, child: Result<Node, string>, below: seq<Position>)
    requires |prefix| < 4 && Complete(arts, pf.positions)
    requires BuiltChildren(Ok(nodes), gathered, pf, arts, scenarios, prefix, labels)
    requires Built(child, below, pf, arts, scenarios, prefix + [l])
    ensures child.Err? ==> BuiltChildren(Err(child.error), gathered, pf, arts, scenarios, prefix, labels + [l])
    ensures child.Ok? ==> BuiltChildren(Ok(nodes + [child.value]), gathered + below, pf, arts, scenarios, prefix, labels + [l])
  {
    SubsetUniform(pf, arts, prefix, l);
    ChildrenSnoc(pf, arts, scenarios, prefix, labels, l);
    GatherSnoc(pf, prefix, labels, l);
  }

  lemma LabelHasMembers(pf: Portfolio, prefix: seq<string>, i: nat)
    requires |prefix| < 4 && i < |InOrder(LabelSet(pf, prefix))|
    ensures Members(pf, prefix + [InOrder(LabelSet(pf, prefix))[i]]) != []
  {
    InOrderLists(LabelSet(pf, prefix));
    ChildHasMembers(pf, prefix, InOrder(LabelSet(pf, prefix))[i]);
  }

  /** One more child: its node is kept, its positions extend those gathered. */
  method BuildChild(pf: Portfolio, arts: ArtifactMap, scenarios: seq<string>, groups: Groups, prefix: seq<string>, l: string,
      nodes: seq<Node>, gathered: seq<Position>, ghost before: seq<string>)
    returns (r: Result<seq<Node>, string>, all: seq<Position>)
    requires WellFormed(arts) && Complete(arts, pf.positions) && UniqueIds(pf.positions)
    requires |prefix| < 4 && Members(pf, prefix + [l]) != [] && groups == GroupsOf(pf, pf.positions)
    requires BuiltChildren(Ok(nodes), gathered, pf, arts, scenarios, prefix, before)
    ensures BuiltChildren(r, all, pf, arts, scenarios, prefix, before + [l])
    decreases 4 - |prefix|, 0, 0
  {
    var child, below := BuildBelow(pf, arts, scenarios, groups, prefix + [l]);
    ChildBuilt(nodes, gathered, pf, arts, scenarios, prefix, before, l, child, below);
    if child.Err? {
      return Err(child.error), gathered;
    }
    r, all := Ok(nodes + [child.value]), gathered + below;
  }

  /** for name in sorted(...). */
  method BuildChildren(pf: Portfolio, arts: ArtifactMap, scenarios: seq<string>, groups: Groups, prefix: seq<string>)
    returns (r: Result<seq<Node>, string>, gathered: seq<Position>)
    requires WellFormed(arts) && Complete(arts, pf.positions) && UniqueIds(pf.positions)
    requires |prefix| < 4 && (|prefix| == 3 ==> Members(pf, prefix) != [])
    requires groups == GroupsOf(pf, pf.positions)
    ensures BuiltChildren(r, gathered, pf, arts, scenarios, prefix, InOrder(LabelSet(pf, prefix)))
    decreases 4 - |prefix|, 0, 1
  {
    var labels := LabelsBelow(pf, groups, prefix);
    gathered := [];
    r := Ok([]);
    for i := 0 to |labels|
      invariant r.Ok? && BuiltChildren(r, gathered, pf, arts, scenarios, prefix, labels[..i])
    {
      LabelHasMembers(pf, prefix, i);
      r, gathered := BuildChild(pf, arts, scenarios, groups, prefix, labels[i], r.value, gathered, labels[..i]);
      assert labels[..i + 1] == labels[..i] + [labels[i]];
      if r.Err? {
        return;
      }
    }
    assert labels[..|labels|] == labels;
  }

  /**
   * A node below the portfolio. The source writes the loops over desks, strategies, books and trades one inside the
   * other; each level does the same with its own labels.
   */
  method BuildBelow(pf: Portfolio, arts: ArtifactMap, scenarios: seq<string>, groups: Groups, prefix: seq<string>)
    returns (r: Result<Node, string>, gathered: seq<Position>)
    requires WellFormed(arts) && Complete(arts, pf.positions) && UniqueIds(pf.positions)
    requires 1 <= |prefix| <= 4 && Members(pf, prefix) != []
    requires groups == GroupsOf(pf, pf.positions)
    ensures Built(r, gathered, pf, arts, scenarios, prefix)
    decreases 4 - |prefix|, 1
  {
    MembersComplete(pf, arts, prefix);
    NodeHasMetrics(pf, arts, scenarios, prefix);
    var nodes: seq<Node> := [];
    if |prefix| == 4 {
      var p := TradeOf(pf, groups, prefix);
      gathered := [p];
    } else {
      var children;
      children, gathered := BuildChildren(pf, arts, scenarios, groups, prefix);
      if children.Err? {
        return Err(children.error), gathered;
      }
      nodes := children.value;
      ChildrenPartition(pf, prefix);
    }
    var metrics := GatheredMetrics(gathered, arts, scenarios, Members(pf, prefix));
    if metrics.Err? {
      return Err(metrics.error), gathered;
    }
    r := Ok(Node(IdAt(pf, prefix), NameAt(pf, prefix), LevelAt(|prefix|), PathAt(pf, prefix), metrics.value, nodes));
    SameNode(r.value, pf, arts, scenarios, prefix);
  }

  lemma SameNode(n: Node, pf: Portfolio, arts: ArtifactMap, scenarios: seq<string>, prefix: seq<string>)
    requires |prefix| <= 4 && Complete(arts, pf.positions) && Complete(arts, Members(pf, prefix))
    requires n.id == IdAt(pf, prefix) && n.name == NameAt(pf, prefix) && n.level == LevelAt(|prefix|) && n.path == PathAt(pf, prefix)
    requires n.metrics == MetricsOf(arts, Members(pf, prefix), scenarios)
    requires n.children == if |prefix| == 4 then [] else Children(pf, arts, scenarios, prefix, InOrder(LabelSet(pf, prefix)))
    ensures n == SubTree(pf, arts, scenarios, prefix)
  {
  }

  lemma GatherSnoc(pf: Portfolio, prefix: seq<string>, labels: seq<string>, l: string)
    ensures Gather(pf, prefix, labels + [l]) == Gather(pf, prefix, labels) + Members(pf, prefix + [l])
  {
    assert (labels + [l])[..|labels|] == labels;
  }

  /** sorted(tree[...]) above the books, and the trades of a book by id. */
  method LabelsBelow(pf: Portfolio, groups: Groups, prefix: seq<string>) returns (labels: seq<string>)
    requires 0 <= |prefix| <= 3
    requires groups == GroupsOf(pf, pf.positions)
    requires |prefix| == 3 ==> Members(pf, prefix) != []
    ensures labels == InOrder(LabelSet(pf, prefix))
  {
    GroupsAreMembers(pf, pf.positions);
    if |prefix| < 3 {
      LabelsOfBooks(pf, groups, prefix);
      labels := SortLabels(set k | k in groups && prefix <= k :: k[|prefix|]);
    } else {
      var ps := groups[prefix];
      assert LabelSet(pf, prefix) == set p | p in ps :: p.id by {
        assert forall p: Position :: Labels(pf, p)[3] == p.id;
      }
      labels := SortLabels(set p | p in ps :: p.id);
    }
  }

  /** The position of a trade prefix, found in its book. */
  method TradeOf(pf: Portfolio, groups: Groups, prefix: seq<string>) returns (p: Position)
    requires UniqueIds(pf.positions) && |prefix| == 4 && Members(pf, prefix) != []
    requires groups == GroupsOf(pf, pf.positions)
    ensures Members(pf, prefix) == [p]
  {
    GroupsAreMembers(pf, pf.positions);
    ghost var only := Members(pf, prefix)[0];
    TradeMember(pf, prefix, only);
    FilterKeeps(pf, pf.positions, prefix);
    FilterKeeps(pf, pf.positions, prefix[..3]);
    assert only in Members(pf, prefix) && Labels(pf, only) == prefix;
    assert only in Members(pf, prefix[..3]);
    var ps := groups[prefix[..3]];
    p :| p in ps && p.id == prefix[3];
    assert p in Members(pf, prefix[..3]);
    BookAndId(pf, p, prefix);
    assert p in Members(pf, prefix);
    TradeMember(pf, prefix, p);
  }

  lemma BookAndId(pf: Portfolio, p: Position, prefix: seq<string>)
    requires |prefix| == 4 && prefix[..3] <= Labels(pf, p) && p.id == prefix[3]
    ensures Under(pf, p, prefix)
  {
    assert prefix == prefix[..3] + [prefix[3]];
    PrefixSnoc(prefix[..3], prefix[3], Labels(pf, p));
  }

  /** HierarchyEngine.build on a complete map of artifacts. */
  method Build(pf: Portfolio, arts: ArtifactMap) returns (r: Result<Node, string>)
    requires WellFormed(arts) && UniqueIds(pf.positions)
    ensures r.Ok? <==> Complete(arts, pf.positions) && Uniform(arts, pf.positions)
    ensures r.Ok? ==> r.value == Tree(pf, arts, ScenarioIds(arts, pf.positions))
  {
    if !Complete(arts, pf.positions) {
      return Err("incomplete artifact set");
    }
    var scenarios := CollectScenarios(pf.positions, arts);
    var groups := GroupPositions(pf);
    FilterAll(pf, pf.positions);
    var desks, _ := BuildChildren(pf, arts, scenarios, groups, []);
    if desks.Err? {
      return Err(desks.error);
    }
    var metrics := NodeMetrics(pf.positions, arts, scenarios);
    if metrics.Err? {
      return Err(metrics.error);
    }
    var portfolioNode := Node(IdAt(pf, []), pf.name, PORTFOLIO, PathAt(pf, []), metrics.value, desks.value);
    SameNode(portfolioNode, pf, arts, scenarios, []);
    r := Ok(Node(NodeId(FIRM, [Some(pf.firm)]), pf.firm, FIRM, pf.firm, metrics.value, [portfolioNode]));
  }

  // ----- scenario ids -----

  function KeepNew(ids: seq<string>, stress: seq<StressEntry>): seq<string>
    decreases |stress|
  {
    if stress == [] then ids
    else KeepNew(if stress[0].scenario in ids then ids else ids + [stress[0].scenario], stress[1..])
  }

  function KeepAll(arts: ArtifactMap, ids: seq<string>, ps: seq<Position>): seq<string>
    requires Complete(arts, ps)
    decreases |ps|
  {
    if ps == [] then ids else KeepAll(arts, KeepNew(ids, arts[ps[0].id].stress), ps[1..])
  }

  /** The scenarios of the positions, each where it is first met. */
  function ScenarioIds(arts: ArtifactMap, ps: seq<Position>): seq<string>
    requires Complete(arts, ps)
  {
    KeepAll(arts, [], ps)
  }

  function Names(stress: seq<StressEntry>): (r: seq<string>)
    ensures |r| == |stress|
  {
    seq(|stress|, i requires 0 <= i < |stress| => stress[i].scenario)
  }

  /** All the scenarios of the positions one after another, as often as they are listed. */
  function Listed(arts: ArtifactMap, ps: seq<Position>): seq<string>
    requires Complete(arts, ps)
  {
    if ps == [] then [] else Names(arts[ps[0].id].stress) + Listed(arts, ps[1..])
  }

  /** Each name of a listing once, and none before another that is listed first. */
  ghost predicate FirstMet(ids: seq<string>, listing: seq<string>) {
    && (forall i, j :: 0 <= i < j < |ids| ==> ids[i] != ids[j])
    && (forall s :: s in ids <==> s in listing)
    && (forall i, j, q :: 0 <= i < j < |ids| && 0 <= q < |listing| && listing[q] == ids[j] ==> ids[i] in listing[..q])
  }

  lemma MetStep(ids: seq<string>, listing: seq<string>, s: string)
    requires FirstMet(ids, listing)
    ensures FirstMet(if s in ids then ids else ids + [s], listing + [s])
  {
    var after, longer := if s in ids then ids else ids + [s], listing + [s];
    forall i, j, q | 0 <= i < j < |after| && 0 <= q < |longer| && longer[q] == after[j]
      ensures after[i] in longer[..q]
    {
      if q < |listing| {
        assert longer[..q] == listing[..q];
        assert longer[q] in listing;
        assert j < |ids|;
      } else {
        assert longer[..q] == listing;
        assert after[i] == ids[i];
      }
    }
  }

  /** The names added to those already kept, one by one. */
  function Kept(ids: seq<string>, names: seq<string>): seq<string>
    decreases |names|
  {
    if names == [] then ids else Kept(if names[0] in ids then ids else ids + [names[0]], names[1..])
  }

  lemma {:induction false} KeptJoin(ids: seq<string>, a: seq<string>, b: seq<string>)
    ensures Kept(ids, a + b) == Kept(Kept(ids, a), b)
    decreases |a|
  {
    if a == [] {
      assert a + b == b;
    } else {
      assert (a + b)[1..] == a[1..] + b;
      KeptJoin(if a[0] in ids then ids else ids + [a[0]], a[1..], b);
    }
  }

  lemma {:induction false} KeepNewIs(ids: seq<string>, stress: seq<StressEntry>)
    ensures KeepNew(ids, stress) == Kept(ids, Names(stress))
    decreases |stress|
  {
    if stress != [] {
      assert Names(stress)[1..] == Names(stress[1..]);
      KeepNewIs(if stress[0].scenario in ids then ids else ids + [stress[0].scenario], stress[1..]);
    }
  }

  lemma {:induction false} KeepAllIs(arts: ArtifactMap, ids: seq<string>, ps: seq<Position>)
    requires Complete(arts, ps)
    ensures KeepAll(arts, ids, ps) == Kept(ids, Listed(arts, ps))
    decreases |ps|
  {
    if ps != [] {
      var stress := arts[ps[0].id].stress;
      KeepNewIs(ids, stress);
      KeepAllIs(arts, KeepNew(ids, stress), ps[1..]);
      KeptJoin(ids, Names(stress), Listed(arts, ps[1..]));
    }
  }

  lemma {:induction false} KeptMet(names: seq<string>, n: nat)
    requires n <= |names|
    ensures FirstMet(Kept([], names[..n]), names[..n])
  {
    if n > 0 {
      KeptMet(names, n - 1);
      assert names[..n] == names[..n - 1] + [names[n - 1]];
      KeptJoin([], names[..n - 1], [names[n - 1]]);
      MetStep(Kept([], names[..n - 1]), names[..n - 1], names[n - 1]);
    }
  }

  lemma ScenariosFirstMet(arts: ArtifactMap, ps: seq<Position>)
    requires Complete(arts, ps)
    ensures FirstMet(ScenarioIds(arts, ps), Listed(arts, ps))
  {
    var listing := Listed(arts, ps);
    KeepAllIs(arts, [], ps);
    KeptMet(listing, |listing|);
    assert listing[..|listing|] == listing;
  }

  /** _scenario_ids: every listed scenario once, in the order in which they are first met. */
  method CollectScenarios(ps: seq<Position>, arts: ArtifactMap) returns (ordered: seq<string>)
    requires Complete(arts, ps)
    ensures FirstMet(ordered, Listed(arts, ps))
    ensures ordered == ScenarioIds(arts, ps)
  {
    ScenariosFirstMet(arts, ps);
    ordered := [];
    for i := 0 to |ps|
      invariant KeepAll(arts, ordered, ps[i..]) == ScenarioIds(arts, ps)
    {
      var stress := arts[ps[i].id].stress;
      assert ps[i..][0] == ps[i] && ps[i..][1..] == ps[i + 1..];
      ghost var before := ordered;
      for j := 0 to |stress|
        invariant KeepNew(ordered, stress[j..]) == KeepNew(before, stress)
      {
        assert stress[j..][0] == stress[j] && stress[j..][1..] == stress[j + 1..];
        if stress[j].scenario !in ordered {
          ordered := ordered + [stress[j].scenario];
        }
      }
    }
  }

  /** The artifact lists exactly these scenarios, in this order. */
  predicate Lists(a: Artifact, ids: seq<string>) {
    |a.stress| == |ids| && forall i :: 0 <= i < |ids| ==> a.stress[i].scenario == ids[i]
  }

  lemma {:induction false} KeepNewFresh(ids: seq<string>, stress: seq<StressEntry>, names: seq<string>)
    requires |stress| == |names| && forall i :: 0 <= i < |names| ==> stress[i].scenario == names[i] && names[i] !in ids
    requires forall i, j :: 0 <= i < j < |names| ==> names[i] != names[j]
    ensures KeepNew(ids, stress) == ids + names
    decreases |stress|
  {
    if names == [] {
      assert ids + names == ids;
    } else {
      assert ids + [names[0]] + names[1..] == ids + names;
      forall i | 0 <= i < |names[1..]|
        ensures names[1..][i] !in ids + [names[0]]
      {
        assert names[0] != names[i + 1];
      }
      KeepNewFresh(ids + [names[0]], stress[1..], names[1..]);
    }
  }

  lemma {:induction false} KeepNewSeen(ids: seq<string>, stress: seq<StressEntry>)
    requires forall i :: 0 <= i < |stress| ==> stress[i].scenario in ids
    ensures KeepNew(ids, stress) == ids
  {
    if stress != [] {
      KeepNewSeen(ids, stress[1..]);
    }
  }

  lemma {:induction false} KeepAllSeen(arts: ArtifactMap, ids: seq<string>, ps: seq<Position>)
    requires Complete(arts, ps) && forall i :: 0 <= i < |ps| ==> Lists(arts[ps[i].id], ids)
    ensures KeepAll(arts, ids, ps) == ids
  {
    if ps != [] {
      assert Lists(arts[ps[0].id], ids);
      KeepNewSeen(ids, arts[ps[0].id].stress);
      forall i | 0 <= i < |ps[1..]|
        ensures Lists(arts[ps[1..][i].id], ids)
      {
        assert ps[1..][i] == ps[i + 1];
      }
      KeepAllSeen(arts, ids, ps[1..]);
    }
  }

  /** Artifacts that list the same scenarios give every non-empty slice those scenarios. */
  lemma SharedScenarios(arts: ArtifactMap, ps: seq<Position>, ids: seq<string>)
    requires WellFormed(arts) && Complete(arts, ps) && ps != []
    requires forall i :: 0 <= i < |ps| ==> Lists(arts[ps[i].id], ids)
    ensures ScenarioIds(arts, ps) == ids
  {
    var first := arts[ps[0].id];
    assert Lists(first, ids) && DistinctScenarios(first.stress);
    forall i, j | 0 <= i < j < |ids|
      ensures ids[i] != ids[j]
    {
      assert first.stress[i].scenario != first.stress[j].scenario;
    }
    KeepNewFresh([], first.stress, ids);
    assert [] + ids == ids;
    KeepAllSeen(arts, ids, ps[1..]);
  }

  // ----- risk at one node -----

  datatype Ref = Ref(level: Level, firm: Option<string>, portfolioId: Option<string>, desk: Option<string>, strategy: Option<string>,
                     book: Option<string>, tradeId: Option<string>)

  /** The labels a reference must give for its level; None where one is missing. */
  function RefLabels(ref: Ref): Option<seq<string>> {
    if ref.level.FIRM? || ref.level.PORTFOLIO? then Some([])
    else if ref.desk.None? then None
    else if ref.level.DESK? then Some([ref.desk.value])
    else if ref.strategy.None? then None
    else if ref.level.STRATEGY? then Some([ref.desk.value, ref.strategy.value])
    else if ref.book.None? then None
    else if ref.level.BOOK? then Some([ref.desk.value, ref.strategy.value, ref.book.value])
    else if ref.tradeId.None? then None
    else Some([ref.desk.value, ref.strategy.value, ref.book.value, ref.tradeId.value])
  }

  /** _matches, level by level. */
  predicate Matches(pf: Portfolio, p: Position, ref: Ref) {
    if ref.level.FIRM? || ref.level.PORTFOLIO? then true
    else if Some(p.desk.GetOr(pf.desk)) != ref.desk then false
    else if ref.level.DESK? then true
    else if Some(p.strategy.GetOr(pf.strategy)) != ref.strategy then false
    else if ref.level.STRATEGY? then true
    else if Some(p.book) != ref.book then false
    else if ref.level.BOOK? then true
    else Some(p.id) == ref.tradeId
  }

  function FilterMatching(pf: Portfolio, ps: seq<Position>, ref: Ref): seq<Position> {
    if ps == [] then []
    else FilterMatching(pf, ps[..|ps| - 1], ref) + if Matches(pf, ps[|ps| - 1], ref) then [ps[|ps| - 1]] else []
  }

  function FilterPositions(pf: Portfolio, ref: Ref): Result<seq<Position>, string> {
    if ref.firm.Some? && ref.firm.value != pf.firm then Err("firm mismatch")
    else if ref.portfolioId.Some? && ref.portfolioId.value != pf.id then Err("portfolio mismatch")
    else if RefLabels(ref).None? then Err("labels are required for the level")
    else Ok(FilterMatching(pf, pf.positions, ref))
  }

  /** The name portfolio_at shows: an empty book or trade label reads "book" or "trade". */
  function ShownName(pf: Portfolio, ref: Ref): string
    requires RefLabels(ref).Some?
  {
    match ref.level
    case FIRM => pf.firm
    case PORTFOLIO => pf.name
    case DESK => ref.desk.value
    case STRATEGY => ref.strategy.value
    case BOOK => if ref.book.value == "" then "book" else ref.book.value
    case TRADE => if ref.tradeId.value == "" then "trade" else ref.tradeId.value
  }

  function RefId(pf: Portfolio, ref: Ref): string
    requires RefLabels(ref).Some?
  {
    match ref.level
    case FIRM => NodeId(FIRM, [Some(pf.firm)])
    case PORTFOLIO => NodeId(PORTFOLIO, [Some(pf.id)])
    case _ => NodeId(ref.level, Present(RefLabels(ref).value))
  }

  /** _ref_path. */
  function RefPath(pf: Portfolio, ref: Ref): string
    requires RefLabels(ref).Some?
  {
    if ref.level.FIRM? then pf.firm else Join([pf.firm, pf.id] + RefLabels(ref).value)
  }

  /** HierarchyEngine.risk_at on given artifacts: one node, without children. */
  function RiskAt(pf: Portfolio, ref: Ref, arts: ArtifactMap): Result<Node, string> {
    match FilterPositions(pf, ref)
    case Err(e) => Err(e)
    case Ok(ps) =>
      if !Complete(arts, ps) then Err("incomplete artifact set")
      else if !Uniform(arts, ps) then Err("historical_pnl cannot be added")
      else Ok(Node(RefId(pf, ref), ShownName(pf, ref), ref.level, RefPath(pf, ref), MetricsOf(arts, ps, ScenarioIds(arts, ps)), []))
  }

  lemma MatchesIsUnder(pf: Portfolio, p: Position, ref: Ref)
    requires RefLabels(ref).Some?
    ensures Matches(pf, p, ref) <==> Under(pf, p, RefLabels(ref).value)
  {
    var q, all := RefLabels(ref).value, Labels(pf, p);
    assert |q| in {0, 1, 2, 3, 4};
    if q <= all {
      assert |q| >= 1 ==> q[0] == all[0];
      assert |q| >= 2 ==> q[1] == all[1];
      assert |q| >= 3 ==> q[2] == all[2];
      assert |q| >= 4 ==> q[3] == all[3];
    }
  }

  lemma {:induction false} FilterMatchingIs(pf: Portfolio, ps: seq<Position>, ref: Ref)
    requires RefLabels(ref).Some?
    ensures FilterMatching(pf, ps, ref) == Filter(pf, ps, RefLabels(ref).value)
  {
    if ps != [] {
      FilterMatchingIs(pf, ps[..|ps| - 1], ref);
      MatchesIsUnder(pf, ps[|ps| - 1], ref);
    }
  }

  /** The firm and portfolio a reference names, if it names any, are this portfolio's. */
  predicate NamesIt(pf: Portfolio, ref: Ref) {
    (ref.firm.Some? ==> ref.firm.value == pf.firm) && (ref.portfolioId.Some? ==> ref.portfolioId.value == pf.id)
  }

  /** The node of the built tree at a reference. */
  ghost function NodeAt(pf: Portfolio, arts: ArtifactMap, ref: Ref): Node
    requires RefLabels(ref).Some? && Complete(arts, pf.positions)
  {
    var scenarios := ScenarioIds(arts, pf.positions);
    if ref.level.FIRM? then Tree(pf, arts, scenarios) else SubTree(pf, arts, scenarios, RefLabels(ref).value)
  }

  lemma SliceIs(pf: Portfolio, arts: ArtifactMap, ref: Ref, ids: seq<string>)
    requires WellFormed(arts) && Complete(arts, pf.positions) && Uniform(arts, pf.positions)
    requires RefLabels(ref).Some? && NamesIt(pf, ref)
    requires RefLabels(ref).value != [] ==>
      Members(pf, RefLabels(ref).value) != [] && forall i :: 0 <= i < |pf.positions| ==> Lists(arts[pf.positions[i].id], ids)
    ensures var ps := Members(pf, RefLabels(ref).value);
      && Complete(arts, ps)
      && RiskAt(pf, ref, arts)
         == Ok(Node(RefId(pf, ref), ShownName(pf, ref), ref.level, RefPath(pf, ref), MetricsOf(arts, ps, ScenarioIds(arts, pf.positions)), []))
  {
    var prefix := RefLabels(ref).value;
    FilterMatchingIs(pf, pf.positions, ref);
    if prefix == [] {
      FilterAll(pf, pf.positions);
    } else {
      SliceShares(pf, arts, prefix, ids);
    }
  }

  /** What a reference shows is what its node is called. */
  lemma RefShows(pf: Portfolio, ref: Ref)
    requires RefLabels(ref).Some? && !ref.level.FIRM?
    ensures var prefix := RefLabels(ref).value;
      && |prefix| <= 4 && ref.level == LevelAt(|prefix|)
      && RefId(pf, ref) == IdAt(pf, prefix) && RefPath(pf, ref) == PathAt(pf, prefix)
      && (NameAt(pf, prefix) != "" || ref.level !in {BOOK, TRADE} ==> ShownName(pf, ref) == NameAt(pf, prefix))
  {
  }

  /**
   * For every reference to a node of the built tree, naming its firm and portfolio or not: slicing the book there gives the
   * node's id, level, path and metrics, for artifacts that list the same scenarios below the portfolio; the name differs
   * only where a book or trade label is empty.
   */
  lemma NodeMatchesRiskAt(pf: Portfolio, arts: ArtifactMap, ref: Ref, ids: seq<string>)
    requires WellFormed(arts) && Complete(arts, pf.positions) && Uniform(arts, pf.positions)
    requires RefLabels(ref).Some? && NamesIt(pf, ref)
    requires RefLabels(ref).value != [] ==>
      Members(pf, RefLabels(ref).value) != [] && forall i :: 0 <= i < |pf.positions| ==> Lists(arts[pf.positions[i].id], ids)
    ensures var n, r := NodeAt(pf, arts, ref), RiskAt(pf, ref, arts);
      && r.Ok?
      && r.value.id == n.id && r.value.level == n.level && r.value.path == n.path && r.value.metrics == n.metrics
      && (n.name != "" || n.level !in {BOOK, TRADE} ==> r.value.name == n.name)
  {
    SliceIs(pf, arts, ref, ids);
    if ref.level.FIRM? {
      FilterAll(pf, pf.positions);
    } else {
      RefShows(pf, ref);
    }
  }

  lemma SliceShares(pf: Portfolio, arts: ArtifactMap, prefix: seq<string>, ids: seq<string>)
    requires WellFormed(arts) && Complete(arts, pf.positions) && Uniform(arts, pf.positions)
    requires Members(pf, prefix) != []
    requires forall i :: 0 <= i < |pf.positions| ==> Lists(arts[pf.positions[i].id], ids)
    ensures Complete(arts, Members(pf, prefix)) && Uniform(arts, Members(pf, prefix))
    ensures ScenarioIds(arts, Members(pf, prefix)) == ScenarioIds(arts, pf.positions) == ids
  {
    var ps := Members(pf, prefix);
    MembersComplete(pf, arts, prefix);
    FilterKeeps(pf, pf.positions, prefix);
    forall i | 0 <= i < |ps|
      ensures exists j :: 0 <= j < |pf.positions| && pf.positions[j] == ps[i]
    {
      assert ps[i] in pf.positions;
    }
    var first := ps[0];
    assert pf.positions != [];
    SharedScenarios(arts, ps, ids);
    SharedScenarios(arts, pf.positions, ids);
  }
}
