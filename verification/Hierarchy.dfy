/**
 * The portfolio tree: firm, portfolio, desk, strategy, book, trade
 * (HierarchyEngine.build and risk_at in risk/hierarchy.py; risk/hierarchy_placement.py).
 */
module Hierarchy {
  import opened Wrappers
  import opened Vectors
  import opened SortedSets
  import Strings
  import opened NodeIds
  import opened HistoricalEngine
  import opened Artifacts

  datatype Portfolio = Portfolio(id: string, name: string, firm: string, desk: string, strategy: string, positions: seq<Position>)

  datatype Node = Node(id: string, name: string, level: Level, path: string, metrics: Metrics, children: seq<Node>)

  /** What the Portfolio model checks. */
  predicate UniqueIds(ps: seq<Position>) {
    forall i, j :: 0 <= i < j < |ps| ==> ps[i].id != ps[j].id
  }

  /** Where a position hangs in the tree: desk, strategy, book and its own id; its own labels override the portfolio's. */
  function Labels(pf: Portfolio, p: Position): (r: seq<string>)
    ensures |r| == 4
  {
    [p.desk.GetOr(pf.desk), p.strategy.GetOr(pf.strategy), p.book, p.id]
  }

  predicate Under(pf: Portfolio, p: Position, prefix: seq<string>) {
    prefix <= Labels(pf, p)
  }

  function Filter(pf: Portfolio, ps: seq<Position>, prefix: seq<string>): seq<Position> {
    if ps == [] then []
    else Filter(pf, ps[..|ps| - 1], prefix) + if Under(pf, ps[|ps| - 1], prefix) then [ps[|ps| - 1]] else []
  }

  /** The positions of a node, in portfolio order. */
  function Members(pf: Portfolio, prefix: seq<string>): seq<Position> {
    Filter(pf, pf.positions, prefix)
  }

  function LevelAt(depth: nat): (l: Level)
    requires depth <= 4
    ensures depth > 0 ==> Depth(l) == depth
    ensures depth == 0 ==> Depth(l) == 1
  {
    if depth == 0 then PORTFOLIO else if depth == 1 then DESK else if depth == 2 then STRATEGY else if depth == 3 then BOOK else TRADE
  }

  function Present(labels: seq<string>): (r: seq<Option<string>>)
    ensures |r| == |labels|
  {
    seq(|labels|, i requires 0 <= i < |labels| => Some(labels[i]))
  }

  function IdAt(pf: Portfolio, prefix: seq<string>): string
    requires |prefix| <= 4
  {
    if prefix == [] then NodeId(PORTFOLIO, [Some(pf.id)]) else NodeId(LevelAt(|prefix|), Present(prefix))
  }

  function NameAt(pf: Portfolio, prefix: seq<string>): string {
    if prefix == [] then pf.name else prefix[|prefix| - 1]
  }

  function PathAt(pf: Portfolio, prefix: seq<string>): string {
    Join([pf.firm, pf.id] + prefix)
  }

  // ----- slicing -----

  lemma {:induction false} FilterKeeps(pf: Portfolio, ps: seq<Position>, prefix: seq<string>)
    ensures forall p :: p in Filter(pf, ps, prefix) <==> p in ps && Under(pf, p, prefix)
  {
    if ps != [] {
      FilterKeeps(pf, ps[..|ps| - 1], prefix);
      assert ps == ps[..|ps| - 1] + [ps[|ps| - 1]];
    }
  }

  lemma {:induction false} FilterCount(pf: Portfolio, ps: seq<Position>, prefix: seq<string>, p: Position)
    ensures multiset(Filter(pf, ps, prefix))[p] == if Under(pf, p, prefix) then multiset(ps)[p] else 0
  {
    if ps != [] {
      FilterCount(pf, ps[..|ps| - 1], prefix, p);
      assert ps == ps[..|ps| - 1] + [ps[|ps| - 1]];
    }
  }

  lemma MembersComplete(pf: Portfolio, arts: ArtifactMap, prefix: seq<string>)
    requires Complete(arts, pf.positions)
    ensures Complete(arts, Members(pf, prefix))
  {
    FilterKeeps(pf, pf.positions, prefix);
    var ps := Members(pf, prefix);
    forall i | 0 <= i < |ps|
      ensures ps[i].id in arts
    {
      assert ps[i] in ps;
    }
  }

  lemma {:induction false} FilterAll(pf: Portfolio, ps: seq<Position>)
    ensures Filter(pf, ps, []) == ps
  {
    if ps != [] {
      FilterAll(pf, ps[..|ps| - 1]);
    }
  }

  /** The labels one level down. */
  function LabelSet(pf: Portfolio, prefix: seq<string>): set<string>
    requires |prefix| < 4
  {
    set p | p in Members(pf, prefix) :: Labels(pf, p)[|prefix|]
  }

  lemma LabelsOrdered(s: set<string>)
    ensures StrictOrder(Strings.Less, s)
  {
    forall x, y | x in s && y in s
      ensures Strings.Less(x, y) || x == y || Strings.Less(y, x)
      ensures !(Strings.Less(x, y) && Strings.Less(y, x))
    {
      Strings.LessTotal(x, y);
    }
    forall x, y, z | x in s && y in s && z in s && Strings.Less(x, y) && Strings.Less(y, z)
      ensures Strings.Less(x, z)
    {
      Strings.LessTransitive(x, y, z);
    }
  }

  ghost function InOrder(s: set<string>): seq<string> {
    LabelsOrdered(s);
    Sorted(Strings.Less, s)
  }

  lemma InOrderLists(s: set<string>)
    ensures forall l :: l in InOrder(s) <==> l in s
    ensures forall i, j :: 0 <= i < j < |InOrder(s)| ==> InOrder(s)[i] != InOrder(s)[j]
  {
    LabelsOrdered(s);
    SortedLists(Strings.Less, s);
    var q := InOrder(s);
    forall i, j | 0 <= i < j < |q|
      ensures q[i] != q[j]
    {
      Strings.LessTotal(q[i], q[i]);
      assert Strings.Less(q[i], q[j]);
    }
  }

  // ----- the tree as it should be -----

  /** The node at a prefix of labels: its own positions' metrics, and one child per label in order. */
  ghost function SubTree(pf: Portfolio, arts: ArtifactMap, scenarios: seq<string>, prefix: seq<string>): Node
    requires |prefix| <= 4 && Complete(arts, pf.positions)
    decreases 4 - |prefix|, 1, 0
  {
    MembersComplete(pf, arts, prefix);
    Node(IdAt(pf, prefix), NameAt(pf, prefix), LevelAt(|prefix|), PathAt(pf, prefix), MetricsOf(arts, Members(pf, prefix), scenarios),
         if |prefix| == 4 then [] else Children(pf, arts, scenarios, prefix, InOrder(LabelSet(pf, prefix))))
  }

  ghost function Children(pf: Portfolio, arts: ArtifactMap, scenarios: seq<string>, prefix: seq<string>, labels: seq<string>): (r: seq<Node>)
    requires |prefix| < 4 && Complete(arts, pf.positions)
    ensures |r| == |labels|
    decreases 4 - |prefix|, 0, |labels|
  {
    if labels == [] then []
    else Children(pf, arts, scenarios, prefix, labels[..|labels| - 1]) + [SubTree(pf, arts, scenarios, prefix + [labels[|labels| - 1]])]
  }

  /** The firm node over the portfolio. */
  ghost function Tree(pf: Portfolio, arts: ArtifactMap, scenarios: seq<string>): Node
    requires Complete(arts, pf.positions)
  {
    Node(NodeId(FIRM, [Some(pf.firm)]), pf.firm, FIRM, pf.firm, MetricsOf(arts, pf.positions, scenarios), [SubTree(pf, arts, scenarios, [])])
  }

  lemma {:induction false} ChildAt(pf: Portfolio, arts: ArtifactMap, scenarios: seq<string>, prefix: seq<string>, labels: seq<string>, i: nat)
    requires |prefix| < 4 && Complete(arts, pf.positions) && i < |labels|
    ensures Children(pf, arts, scenarios, prefix, labels)[i] == SubTree(pf, arts, scenarios, prefix + [labels[i]])
    decreases |labels|
  {
    if i < |labels| - 1 {
      ChildAt(pf, arts, scenarios, prefix, labels[..|labels| - 1], i);
    }
  }

  // ----- the children share out the positions -----

  /** The positions of the children with these labels, child after child. */
  function Gather(pf: Portfolio, prefix: seq<string>, labels: seq<string>): seq<Position> {
    if labels == [] then [] else Gather(pf, prefix, labels[..|labels| - 1]) + Members(pf, prefix + [labels[|labels| - 1]])
  }

  predicate AllDistinct(labels: seq<string>) {
    forall i, j :: 0 <= i < j < |labels| ==> labels[i] != labels[j]
  }

  lemma UnderChild(pf: Portfolio, p: Position, prefix: seq<string>, l: string)
    requires |prefix| < 4
    ensures Under(pf, p, prefix + [l]) <==> Under(pf, p, prefix) && Labels(pf, p)[|prefix|] == l
  {
    PrefixSnoc(prefix, l, Labels(pf, p));
  }

  lemma PrefixSnoc(prefix: seq<string>, l: string, all: seq<string>)
    requires |prefix| < |all|
    ensures prefix + [l] <= all <==> prefix <= all && all[|prefix|] == l
  {
    assert all[..|prefix| + 1] == all[..|prefix|] + [all[|prefix|]];
    if prefix + [l] <= all {
      assert all[..|prefix| + 1][|prefix|] == (prefix + [l])[|prefix|];
      assert (prefix + [l])[..|prefix|] == prefix;
    }
  }

  /** How often a position is gathered under one label. */
  lemma ChildCount(pf: Portfolio, prefix: seq<string>, l: string, p: Position)
    requires |prefix| < 4
    ensures multiset(Members(pf, prefix + [l]))[p]
      == if Under(pf, p, prefix) && Labels(pf, p)[|prefix|] == l then multiset(pf.positions)[p] else 0
  {
    FilterCount(pf, pf.positions, prefix + [l], p);
    UnderChild(pf, p, prefix, l);
  }

  lemma LastIsNew(labels: seq<string>)
    requires AllDistinct(labels) && labels != []
    ensures AllDistinct(labels[..|labels| - 1]) && labels[|labels| - 1] !in labels[..|labels| - 1]
    ensures forall x :: x in labels <==> x in labels[..|labels| - 1] || x == labels[|labels| - 1]
  {
    assert labels == labels[..|labels| - 1] + [labels[|labels| - 1]];
  }

  lemma {:induction false} GatherCount(pf: Portfolio, prefix: seq<string>, labels: seq<string>, p: Position)
    requires |prefix| < 4 && AllDistinct(labels)
    ensures multiset(Gather(pf, prefix, labels))[p]
      == if Under(pf, p, prefix) && Labels(pf, p)[|prefix|] in labels then multiset(pf.positions)[p] else 0
  {
    if labels != [] {
      LastIsNew(labels);
      GatherCount(pf, prefix, labels[..|labels| - 1], p);
      ChildCount(pf, prefix, labels[|labels| - 1], p);
    }
  }

  /** Every position of a node is in exactly one of its children. */
  lemma ChildrenPartition(pf: Portfolio, prefix: seq<string>)
    requires |prefix| < 4
    ensures multiset(Gather(pf, prefix, InOrder(LabelSet(pf, prefix)))) == multiset(Members(pf, prefix))
  {
    var labels := InOrder(LabelSet(pf, prefix));
    InOrderLists(LabelSet(pf, prefix));
    forall p
      ensures multiset(Gather(pf, prefix, labels))[p] == multiset(Members(pf, prefix))[p]
    {
      GatherCount(pf, prefix, labels, p);
      FilterCount(pf, pf.positions, prefix, p);
      FilterKeeps(pf, pf.positions, prefix);
      if Under(pf, p, prefix) && multiset(pf.positions)[p] > 0 {
        assert p in pf.positions;
        assert Labels(pf, p)[|prefix|] in LabelSet(pf, prefix);
      }
    }
  }

  /** A quantity summed over the children with these labels. */
  ghost function ChildrenTotal(pf: Portfolio, arts: ArtifactMap, prefix: seq<string>, labels: seq<string>, q: Quantity): real
    requires Complete(arts, pf.positions)
  {
    if labels == [] then 0.0
    else
      MembersComplete(pf, arts, prefix + [labels[|labels| - 1]]);
      ChildrenTotal(pf, arts, prefix, labels[..|labels| - 1], q) + TotalOf(arts, Members(pf, prefix + [labels[|labels| - 1]]), q)
  }

  lemma {:induction false} GatherTotal(pf: Portfolio, arts: ArtifactMap, prefix: seq<string>, labels: seq<string>, q: Quantity)
    requires Complete(arts, pf.positions)
    ensures Complete(arts, Gather(pf, prefix, labels))
    ensures TotalOf(arts, Gather(pf, prefix, labels), q) == ChildrenTotal(pf, arts, prefix, labels, q)
  {
    if labels != [] {
      GatherTotal(pf, arts, prefix, labels[..|labels| - 1], q);
      MembersComplete(pf, arts, prefix + [labels[|labels| - 1]]);
      TotalJoin(arts, Gather(pf, prefix, labels[..|labels| - 1]), Members(pf, prefix + [labels[|labels| - 1]]), q);
    }
  }

  /** Value, Greeks, each scenario's stress P&L and each date's P&L of a node are the sums over its children. */
  lemma NodeIsSumOfChildren(pf: Portfolio, arts: ArtifactMap, prefix: seq<string>, q: Quantity)
    requires |prefix| < 4 && Complete(arts, pf.positions)
    ensures Complete(arts, Members(pf, prefix))
    ensures TotalOf(arts, Members(pf, prefix), q) == ChildrenTotal(pf, arts, prefix, InOrder(LabelSet(pf, prefix)), q)
  {
    var labels := InOrder(LabelSet(pf, prefix));
    MembersComplete(pf, arts, prefix);
    GatherTotal(pf, arts, prefix, labels, q);
    ChildrenPartition(pf, prefix);
    TotalPermuted(arts, Gather(pf, prefix, labels), Members(pf, prefix), q);
  }

  function NumbersSum(nodes: seq<Node>): Valuation {
    if nodes == [] then NO_VALUE else AddValuations(NumbersSum(nodes[..|nodes| - 1]), nodes[|nodes| - 1].metrics.numbers)
  }

  ghost function ChildrenValuation(pf: Portfolio, arts: ArtifactMap, prefix: seq<string>, labels: seq<string>): Valuation
    requires Complete(arts, pf.positions)
  {
    Valuation(ChildrenTotal(pf, arts, prefix, labels, MarketValue), ChildrenTotal(pf, arts, prefix, labels, Delta),
              ChildrenTotal(pf, arts, prefix, labels, Gamma), ChildrenTotal(pf, arts, prefix, labels, Vega),
              ChildrenTotal(pf, arts, prefix, labels, Dv01), ChildrenTotal(pf, arts, prefix, labels, FxDelta))
  }

  lemma ChildrenValuationSnoc(pf: Portfolio, arts: ArtifactMap, prefix: seq<string>, labels: seq<string>, l: string)
    requires Complete(arts, pf.positions)
    ensures Complete(arts, Members(pf, prefix + [l]))
    ensures ChildrenValuation(pf, arts, prefix, labels + [l])
         == AddValuations(ChildrenValuation(pf, arts, prefix, labels), NumbersOf(arts, Members(pf, prefix + [l])))
  {
    MembersComplete(pf, arts, prefix + [l]);
    assert (labels + [l])[..|labels|] == labels;
  }

  lemma ChildrenSnoc(pf: Portfolio, arts: ArtifactMap, scenarios: seq<string>, prefix: seq<string>, labels: seq<string>, l: string)
    requires |prefix| < 4 && Complete(arts, pf.positions)
    ensures Children(pf, arts, scenarios, prefix, labels + [l])
         == Children(pf, arts, scenarios, prefix, labels) + [SubTree(pf, arts, scenarios, prefix + [l])]
  {
    assert (labels + [l])[..|labels|] == labels;
  }

  lemma NodeHasMetrics(pf: Portfolio, arts: ArtifactMap, scenarios: seq<string>, prefix: seq<string>)
    requires |prefix| <= 4 && Complete(arts, pf.positions)
    ensures Complete(arts, Members(pf, prefix))
    ensures SubTree(pf, arts, scenarios, prefix).metrics == MetricsOf(arts, Members(pf, prefix), scenarios)
    ensures |prefix| < 4 ==>
      SubTree(pf, arts, scenarios, prefix).children == Children(pf, arts, scenarios, prefix, InOrder(LabelSet(pf, prefix)))
    ensures SubTree(pf, arts, scenarios, prefix).level == LevelAt(|prefix|)
  {
    MembersComplete(pf, arts, prefix);
  }

  lemma NumbersSumSnoc(nodes: seq<Node>, n: Node)
    ensures NumbersSum(nodes + [n]) == AddValuations(NumbersSum(nodes), n.metrics.numbers)
  {
    assert (nodes + [n])[..|nodes|] == nodes;
  }

  lemma {:induction false} ChildrenNumbers(pf: Portfolio, arts: ArtifactMap, scenarios: seq<string>, prefix: seq<string>, labels: seq<string>)
    requires |prefix| < 4 && Complete(arts, pf.positions)
    ensures NumbersSum(Children(pf, arts, scenarios, prefix, labels)) == ChildrenValuation(pf, arts, prefix, labels)
  {
    if labels != [] {
      var rest, l := labels[..|labels| - 1], labels[|labels| - 1];
      assert labels == rest + [l];
      ChildrenNumbers(pf, arts, scenarios, prefix, rest);
      ChildrenSnoc(pf, arts, scenarios, prefix, rest, l);
      ChildrenValuationSnoc(pf, arts, prefix, rest, l);
      NodeHasMetrics(pf, arts, scenarios, prefix + [l]);
      NumbersSumSnoc(Children(pf, arts, scenarios, prefix, rest), SubTree(pf, arts, scenarios, prefix + [l]));
    }
  }

  /** At every node with children, value and Greeks are the sum over the children. */
  lemma NumbersAdditive(pf: Portfolio, arts: ArtifactMap, scenarios: seq<string>, prefix: seq<string>)
    requires |prefix| < 4 && Complete(arts, pf.positions)
    ensures SubTree(pf, arts, scenarios, prefix).metrics.numbers == NumbersSum(SubTree(pf, arts, scenarios, prefix).children)
  {
    ChildrenNumbers(pf, arts, scenarios, prefix, InOrder(LabelSet(pf, prefix)));
    NodeIsSumOfChildren(pf, arts, prefix, MarketValue);
    NodeIsSumOfChildren(pf, arts, prefix, Delta);
    NodeIsSumOfChildren(pf, arts, prefix, Gamma);
    NodeIsSumOfChildren(pf, arts, prefix, Vega);
    NodeIsSumOfChildren(pf, arts, prefix, Dv01);
    NodeIsSumOfChildren(pf, arts, prefix, FxDelta);
  }

  function StressSum(nodes: seq<Node>, i: nat): real
    requires forall n :: n in nodes ==> i < |n.metrics.stress|
  {
    if nodes == [] then 0.0
    else
      assert nodes[|nodes| - 1] in nodes;
      StressSum(nodes[..|nodes| - 1], i) + nodes[|nodes| - 1].metrics.stress[i].pnl
  }

  lemma {:induction false} ChildrenStress(pf: Portfolio, arts: ArtifactMap, scenarios: seq<string>, prefix: seq<string>, labels: seq<string>, i: nat)
    requires |prefix| < 4 && Complete(arts, pf.positions) && i < |scenarios|
    ensures forall n :: n in Children(pf, arts, scenarios, prefix, labels) ==> i < |n.metrics.stress|
    ensures StressSum(Children(pf, arts, scenarios, prefix, labels), i) == ChildrenTotal(pf, arts, prefix, labels, StressPnl(scenarios[i]))
  {
    if labels != [] {
      ChildrenStress(pf, arts, scenarios, prefix, labels[..|labels| - 1], i);
      var all := Children(pf, arts, scenarios, prefix, labels);
      assert all[..|all| - 1] == Children(pf, arts, scenarios, prefix, labels[..|labels| - 1]);
    }
  }

  /** And so is the P&L of each stress scenario. */
  lemma StressAdditive(pf: Portfolio, arts: ArtifactMap, scenarios: seq<string>, prefix: seq<string>, i: nat)
    requires |prefix| < 4 && Complete(arts, pf.positions) && i < |scenarios|
    ensures var n := SubTree(pf, arts, scenarios, prefix);
      && (forall c :: c in n.children ==> i < |c.metrics.stress|)
      && n.metrics.stress[i].pnl == StressSum(n.children, i)
  {
    ChildrenStress(pf, arts, scenarios, prefix, InOrder(LabelSet(pf, prefix)), i);
    NodeIsSumOfChildren(pf, arts, prefix, StressPnl(scenarios[i]));
  }

  // ----- every position in one leaf -----

  function TradeIds(ps: seq<Position>): (r: seq<string>)
    ensures |r| == |ps|
  {
    seq(|ps|, i requires 0 <= i < |ps| => ps[i].id)
  }

  /** Names of the trade nodes of a tree, left to right. */
  function Leaves(n: Node): seq<string>
    decreases n, 0
  {
    if n.level.TRADE? then [n.name] else LeavesOf(n, |n.children|)
  }

  function LeavesOf(n: Node, k: nat): seq<string>
    requires k <= |n.children|
    decreases n, 0, k
  {
    if k == 0 then [] else LeavesOf(n, k - 1) + Leaves(n.children[k - 1])
  }

  lemma IdsJoin(a: seq<Position>, b: seq<Position>)
    ensures TradeIds(a + b) == TradeIds(a) + TradeIds(b)
  {
  }

  lemma {:induction false} IdsPermuted(a: seq<Position>, b: seq<Position>)
    requires multiset(a) == multiset(b)
    ensures multiset(TradeIds(a)) == multiset(TradeIds(b))
    decreases |a|
  {
    if a == [] {
      assert |multiset(b)| == 0;
    } else {
      var k := PermutedHead(a, b);
      var x, y := b[..k], b[k + 1..];
      IdsPermuted(a[1..], x + y);
      IdsJoin([a[0]], a[1..]);
      IdsJoin(x, y);
      IdsJoin(x + [a[0]], y);
      IdsJoin(x, [a[0]]);
    }
  }

  /** A trade prefix names the one position with that id. */
  lemma TradeMember(pf: Portfolio, prefix: seq<string>, p: Position)
    requires UniqueIds(pf.positions) && |prefix| == 4 && p in Members(pf, prefix)
    ensures Members(pf, prefix) == [p] && p.id == prefix[3]
  {
    FilterUnique(pf, pf.positions, prefix);
    FilterKeeps(pf, pf.positions, prefix);
    var ps := Members(pf, prefix);
    assert Labels(pf, p) == prefix;
    forall i | 0 <= i < |ps|
      ensures ps[i].id == p.id
    {
      assert ps[i] in ps && Labels(pf, ps[i]) == prefix;
      assert ps[i].id == Labels(pf, ps[i])[3];
    }
    OnlyOne(ps, p.id);
  }

  lemma OnlyOne(ps: seq<Position>, id: string)
    requires UniqueIds(ps) && ps != [] && forall i :: 0 <= i < |ps| ==> ps[i].id == id
    ensures |ps| == 1
  {
    var first, last := ps[0], ps[|ps| - 1];
    assert first.id == last.id;
  }

  lemma {:induction false} FilterUnique(pf: Portfolio, ps: seq<Position>, prefix: seq<string>)
    requires UniqueIds(ps)
    ensures UniqueIds(Filter(pf, ps, prefix))
  {
    if ps != [] {
      var rest, p := ps[..|ps| - 1], ps[|ps| - 1];
      FilterUnique(pf, rest, prefix);
      FilterKeeps(pf, rest, prefix);
      var q := Filter(pf, rest, prefix);
      forall i | 0 <= i < |q|
        ensures q[i].id != p.id
      {
        assert q[i] in rest;
        var j :| 0 <= j < |rest| && rest[j] == q[i];
        assert ps[j].id != ps[|ps| - 1].id;
      }
    }
  }

  /** One more child: its leaves. */
  lemma LeavesStep(pf: Portfolio, arts: ArtifactMap, scenarios: seq<string>, prefix: seq<string>, k: nat)
    requires |prefix| < 4 && Complete(arts, pf.positions) && k < |InOrder(LabelSet(pf, prefix))|
    ensures var labels, n := InOrder(LabelSet(pf, prefix)), SubTree(pf, arts, scenarios, prefix);
      k + 1 <= |n.children| && LeavesOf(n, k + 1) == LeavesOf(n, k) + Leaves(SubTree(pf, arts, scenarios, prefix + [labels[k]]))
  {
    NodeHasMetrics(pf, arts, scenarios, prefix);
    ChildAt(pf, arts, scenarios, prefix, InOrder(LabelSet(pf, prefix)), k);
  }

  /** And its positions. */
  lemma GatherStep(pf: Portfolio, prefix: seq<string>, labels: seq<string>, k: nat)
    requires |prefix| < 4 && k < |labels|
    ensures TradeIds(Gather(pf, prefix, labels[..k + 1])) == TradeIds(Gather(pf, prefix, labels[..k])) + TradeIds(Members(pf, prefix + [labels[k]]))
  {
    assert labels[..k + 1][..k] == labels[..k];
    IdsJoin(Gather(pf, prefix, labels[..k]), Members(pf, prefix + [labels[k]]));
  }

  lemma {:induction false} LeavesOfChildren(pf: Portfolio, arts: ArtifactMap, scenarios: seq<string>, prefix: seq<string>, k: nat)
    requires |prefix| < 4 && Complete(arts, pf.positions) && UniqueIds(pf.positions)
    requires k <= |InOrder(LabelSet(pf, prefix))|
    ensures k <= |SubTree(pf, arts, scenarios, prefix).children|
    ensures multiset(LeavesOf(SubTree(pf, arts, scenarios, prefix), k))
      == multiset(TradeIds(Gather(pf, prefix, InOrder(LabelSet(pf, prefix))[..k])))
    decreases 4 - |prefix|, 0, k
  {
    if k > 0 {
      var l := InOrder(LabelSet(pf, prefix))[k - 1];
      InOrderLists(LabelSet(pf, prefix));
      LeavesOfChildren(pf, arts, scenarios, prefix, k - 1);
      LeavesStep(pf, arts, scenarios, prefix, k - 1);
      GatherStep(pf, prefix, InOrder(LabelSet(pf, prefix)), k - 1);
      ChildHasMembers(pf, prefix, l);
      LeavesAre(pf, arts, scenarios, prefix + [l]);
    }
  }

  lemma ChildHasMembers(pf: Portfolio, prefix: seq<string>, l: string)
    requires |prefix| < 4 && l in LabelSet(pf, prefix)
    ensures Members(pf, prefix + [l]) != []
  {
    var p :| p in Members(pf, prefix) && Labels(pf, p)[|prefix|] == l;
    FilterKeeps(pf, pf.positions, prefix);
    FilterKeeps(pf, pf.positions, prefix + [l]);
    UnderChild(pf, p, prefix, l);
    assert p in Members(pf, prefix + [l]);
  }

  /** The trade leaves under a node are its positions, each exactly once. */
  lemma {:induction false} LeavesAre(pf: Portfolio, arts: ArtifactMap, scenarios: seq<string>, prefix: seq<string>)
    requires |prefix| <= 4 && Complete(arts, pf.positions) && UniqueIds(pf.positions)
    requires |prefix| == 4 ==> Members(pf, prefix) != []
    ensures multiset(Leaves(SubTree(pf, arts, scenarios, prefix))) == multiset(TradeIds(Members(pf, prefix)))
    decreases 4 - |prefix|, 1, 0
  {
    NodeHasMetrics(pf, arts, scenarios, prefix);
    if |prefix| == 4 {
      TradeLeaf(pf, arts, scenarios, prefix);
    } else {
      LeavesOfChildren(pf, arts, scenarios, prefix, |InOrder(LabelSet(pf, prefix))|);
      AllLeaves(pf, arts, scenarios, prefix);
    }
  }

  lemma AllLeaves(pf: Portfolio, arts: ArtifactMap, scenarios: seq<string>, prefix: seq<string>)
    requires |prefix| < 4 && Complete(arts, pf.positions)
    ensures var labels, n := InOrder(LabelSet(pf, prefix)), SubTree(pf, arts, scenarios, prefix);
      && |n.children| == |labels| && Leaves(n) == LeavesOf(n, |labels|)
      && multiset(TradeIds(Gather(pf, prefix, labels[..|labels|]))) == multiset(TradeIds(Members(pf, prefix)))
  {
    var labels := InOrder(LabelSet(pf, prefix));
    NodeHasMetrics(pf, arts, scenarios, prefix);
    assert labels[..|labels|] == labels;
    ChildrenPartition(pf, prefix);
    IdsPermuted(Gather(pf, prefix, labels), Members(pf, prefix));
  }

  lemma TradeLeaf(pf: Portfolio, arts: ArtifactMap, scenarios: seq<string>, prefix: seq<string>)
    requires |prefix| == 4 && Complete(arts, pf.positions) && UniqueIds(pf.positions) && Members(pf, prefix) != []
    ensures Leaves(SubTree(pf, arts, scenarios, prefix)) == TradeIds(Members(pf, prefix))
  {
    var p := Members(pf, prefix)[0];
    TradeMember(pf, prefix, p);
    assert TradeIds([p]) == [p.id];
  }

  /** The tree puts every position of the book in exactly one trade leaf. */
  lemma EveryTradeOnce(pf: Portfolio, arts: ArtifactMap, scenarios: seq<string>)
    requires Complete(arts, pf.positions) && UniqueIds(pf.positions)
    ensures multiset(Leaves(Tree(pf, arts, scenarios))) == multiset(TradeIds(pf.positions))
  {
    var t := Tree(pf, arts, scenarios);
    LeavesAre(pf, arts, scenarios, []);
    FilterAll(pf, pf.positions);
    assert LeavesOf(t, 0) == [];
    assert LeavesOf(t, 1) == LeavesOf(t, 0) + Leaves(t.children[0]);
  }
}
