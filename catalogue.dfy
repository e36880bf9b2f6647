/** The catalogue of `create_graph(i)`: each scenario is a base graph of three
    or four people followed by a fixed list of `add_parentship` and
    `add_siblingship` calls. The resulting truth attributes are also given
    declaratively, and the built graphs are proved to carry them. */
module Catalogue {
  import opened Wrappers
  import opened Itertools
  import opened Layout
  import opened Labels
  import opened Data

  /** One labelling call of a scenario. */
  datatype Call =
    | ParentshipCall(parent: int, child: int, labels: seq<Label>)
    | SiblingshipCall(first: int, second: int, labels: seq<Label>)
  {
    /** The relation type the call looks for. */
    function Relation(): NodeType {
      if ParentshipCall? then Parentship else Siblingship
    }

    /** The roles the call asks of the two role-players. */
    function Roles(): (Role, Role) {
      if ParentshipCall? then (Parent, Child) else (Sibling, Sibling)
    }

    /** The two role-players, in the order the call passes them. */
    function Players(): (int, int) {
      if ParentshipCall? then (parent, child) else (first, second)
    }
  }

  /** A scenario: the number of people and the labelling calls, in order. */
  datatype Recipe = Recipe(people: nat, calls: seq<Call>)

  /** `'input', 'solution'`: what `base_graph` labels every element with,
      and what most calls write. */
  const Both: seq<Label> := [Input, Solution]

  /** `'solution'` alone: a fact to be inferred, absent from the input. */
  const SolutionOnly: seq<Label> := [Solution]

  /** Every call of a scenario names two distinct people of its graph. */
  predicate WellFormed(n: nat, calls: seq<Call>) {
    forall k :: 0 <= k < |calls| ==> Locatable(n, calls[k].Relation(), calls[k].Roles(), calls[k].Players())
  }

  /** The branches of `create_graph(i)`; `None` where it returns `None`
      (the commented-out scenario 4, and any other `i`). */
  function Scenario(i: int): (recipe: Option<Recipe>)
    ensures recipe.Some? <==> 0 <= i <= 12 && i != 4
    ensures recipe.Some? ==> WellFormed(recipe.value.people, recipe.value.calls)
    ensures recipe.Some? ==> recipe.value.people == (if i <= 3 then 3 else 4)
  {
    if i == 0 then
      Some(Recipe(3, [ParentshipCall(0, 1, Both), ParentshipCall(0, 2, Both),
                      SiblingshipCall(1, 2, SolutionOnly)]))
    else if i == 1 then
      Some(Recipe(3, [SiblingshipCall(0, 1, Both), SiblingshipCall(1, 2, Both),
                      SiblingshipCall(0, 2, SolutionOnly)]))
    else if i == 2 then
      Some(Recipe(3, [ParentshipCall(0, 1, Both), ParentshipCall(1, 2, Both)]))
    else if i == 3 then
      Some(Recipe(3, [ParentshipCall(0, 1, Both), SiblingshipCall(1, 2, Both)]))
    else if i == 5 || i == 6 then
      Some(Recipe(4, [ParentshipCall(0, 1, Both), ParentshipCall(0, 2, Both),
                      ParentshipCall(2, 3, Both), SiblingshipCall(1, 2, SolutionOnly)]))
    else if i == 7 then
      Some(Recipe(4, [ParentshipCall(0, 1, Both), ParentshipCall(0, 2, Both),
                      ParentshipCall(3, 0, Both), SiblingshipCall(1, 2, SolutionOnly)]))
    else if i == 8 then
      Some(Recipe(4, [ParentshipCall(0, 1, Both), ParentshipCall(1, 2, Both),
                      ParentshipCall(2, 3, Both)]))
    else if i == 9 then
      Some(Recipe(4, [ParentshipCall(0, 1, Both), ParentshipCall(0, 2, Both),
                      ParentshipCall(0, 3, Both), SiblingshipCall(1, 2, SolutionOnly),
                      SiblingshipCall(2, 3, SolutionOnly), SiblingshipCall(1, 3, SolutionOnly)]))
    else if i == 10 || i == 11 then
      Some(Recipe(4, [SiblingshipCall(0, 1, Both), SiblingshipCall(1, 2, Both),
                      SiblingshipCall(2, 3, Both), SiblingshipCall(0, 2, SolutionOnly),
                      SiblingshipCall(0, 3, SolutionOnly), SiblingshipCall(1, 3, SolutionOnly)]))
    else if i == 12 then
      Some(Recipe(4, [ParentshipCall(0, 1, Both), ParentshipCall(0, 2, Both),
                      ParentshipCall(3, 1, Both), SiblingshipCall(1, 2, SolutionOnly)]))
    else
      None
  }

  /** The relation node call `c` finds on `generate_graph(n)`. */
  ghost function Located(n: nat, c: Call): int
    requires Locatable(n, c.Relation(), c.Roles(), c.Players())
  {
    RelationNode(n, c.Relation(), c.Roles(), c.Players())
  }

  /** Some call among `calls` carries label `l` and finds node `r`. */
  ghost predicate Mentioned(n: nat, calls: seq<Call>, r: int, l: Label)
    requires WellFormed(n, calls)
    decreases |calls|
  {
    if calls == [] then false
    else
      var c := calls[|calls| - 1];
      Mentioned(n, calls[..|calls| - 1], r, l) || (l in c.labels && Located(n, c) == r)
  }

  /** Some call among `calls` carries label `l`, finds node `e.0`, and names
      `e.1` as one of its role-players. */
  ghost predicate EdgeMentioned(n: nat, calls: seq<Call>, e: (int, int), l: Label)
    requires WellFormed(n, calls)
    decreases |calls|
  {
    if calls == [] then false
    else
      var c := calls[|calls| - 1];
      || EdgeMentioned(n, calls[..|calls| - 1], e, l)
      || (l in c.labels && Located(n, c) == e.0 && (e.1 == c.Players().0 || e.1 == c.Players().1))
  }

  /** The value of label `l` on node `id`: 1 on a person or on a relation
      some call labelled with `l`, else 0. */
  ghost function NodeTruth(n: nat, calls: seq<Call>, id: int, l: Label): Bit
    requires WellFormed(n, calls)
  {
    if TypeAt(n, id) == Person || Mentioned(n, calls, id, l) then 1 else 0
  }

  /** The value of label `l` on edge `e`: 1 if some call labelled with `l`
      the relation it leaves, towards one of that call's role-players. */
  ghost function EdgeTruth(n: nat, calls: seq<Call>, e: (int, int), l: Label): Bit
    requires WellFormed(n, calls)
  {
    if EdgeMentioned(n, calls, e, l) then 1 else 0
  }

  /** The node dictionaries of the scenario graph after `calls`. */
  ghost function ScenarioNodeAttrs(n: nat, calls: seq<Call>): map<int, Attrs>
    requires WellFormed(n, calls)
  {
    map id | id in GeneratedNodeTypes(n) ::
      map[Input := NodeTruth(n, calls, id, Input), Solution := NodeTruth(n, calls, id, Solution)]
  }

  /** The edge dictionaries of the scenario graph after `calls`. */
  ghost function ScenarioEdgeAttrs(n: nat, calls: seq<Call>): map<(int, int), Attrs>
    requires WellFormed(n, calls)
  {
    map e | e in GeneratedEdgeTypes(n) ::
      map[Input := EdgeTruth(n, calls, e, Input), Solution := EdgeTruth(n, calls, e, Solution)]
  }

  /** The graph `g` is scenario `(n, calls)` fully built. */
  ghost predicate Built(g: Graph, n: nat, calls: seq<Call>)
    requires WellFormed(n, calls)
    reads g
  {
    && g.Valid()
    && g.nodeType == GeneratedNodeTypes(n) && g.edgeType == GeneratedEdgeTypes(n)
    && g.nodeAttrs == ScenarioNodeAttrs(n, calls) && g.edgeAttrs == ScenarioEdgeAttrs(n, calls)
  }

  /** Assigning to a dictionary holding both labels. */
  lemma AssignedPair(i: Bit, s: Bit, labels: seq<Label>, v: Bit)
    ensures Assigned(map[Input := i, Solution := s], labels, v)
            == map[Input := if Input in labels then v else i, Solution := if Solution in labels then v else s]
  {
    var m := Assigned(map[Input := i, Solution := s], labels, v);
    assert Input in m && Solution in m;
    assert forall l :: l in m ==> l == Input || l == Solution;
  }

  /** `base_graph(n)` on a freshly generated graph gives the scenario with no
      calls yet: people read 1, every other node and every edge 0. */
  lemma BaseScenario(n: nat, nodeAttrs: map<int, Attrs>, edgeAttrs: map<(int, int), Attrs>)
    requires nodeAttrs.Keys == GeneratedNodeTypes(n).Keys && edgeAttrs.Keys == GeneratedEdgeTypes(n).Keys
    requires Unlabelled(nodeAttrs) && Unlabelled(edgeAttrs)
    ensures BaseNodeAttrs(GeneratedNodeTypes(n), nodeAttrs, Both) == ScenarioNodeAttrs(n, [])
    ensures BaseEdgeAttrs(edgeAttrs, Both) == ScenarioEdgeAttrs(n, [])
  {
    NodeTypesBelowShape(n, NodeCount(n));
    var nodes := BaseNodeAttrs(GeneratedNodeTypes(n), nodeAttrs, Both);
    forall id | id in nodes
      ensures nodes[id] == ScenarioNodeAttrs(n, [])[id]
    {
      BothAssigned(if TypeAt(n, id) == Person then 1 else 0);
    }
    var edges := BaseEdgeAttrs(edgeAttrs, Both);
    forall e | e in edges
      ensures edges[e] == ScenarioEdgeAttrs(n, [])[e]
    {
      BothAssigned(0);
    }
  }

  /** `base_graph` writes both labels into an empty dictionary. */
  lemma BothAssigned(v: Bit)
    ensures Assigned(map[], Both, v) == map[Input := v, Solution := v]
  {
    assert Both[0] == Input && Both[1] == Solution;
    var m := Assigned(map[], Both, v);
    assert Input in m && Solution in m;
  }

  /** A prefix of a well-formed list of calls is well-formed. */
  lemma PrefixWellFormed(n: nat, calls: seq<Call>, k: nat)
    requires WellFormed(n, calls) && k <= |calls|
    ensures WellFormed(n, calls[..k])
  {
    assert forall j :: 0 <= j < k ==> calls[..k][j] == calls[j];
  }

  /** After one more call, a node carries a label exactly when it already did
      or the call writes that label and found that node. */
  lemma MentionedStep(n: nat, calls: seq<Call>, k: nat, r: int, l: Label)
    requires WellFormed(n, calls) && k < |calls|
    requires WellFormed(n, calls[..k]) && WellFormed(n, calls[..k + 1])
    ensures Mentioned(n, calls[..k + 1], r, l)
            <==> Mentioned(n, calls[..k], r, l) || (l in calls[k].labels && Located(n, calls[k]) == r)
  {
    assert calls[..k + 1][..k] == calls[..k] && calls[..k + 1][k] == calls[k];
  }

  /** The same for an edge: it also needs to lead to a role-player of the call. */
  lemma EdgeMentionedStep(n: nat, calls: seq<Call>, k: nat, e: (int, int), l: Label)
    requires WellFormed(n, calls) && k < |calls|
    requires WellFormed(n, calls[..k]) && WellFormed(n, calls[..k + 1])
    ensures EdgeMentioned(n, calls[..k + 1], e, l)
            <==> || EdgeMentioned(n, calls[..k], e, l)
                 || (l in calls[k].labels && Located(n, calls[k]) == e.0 &&
                     (e.1 == calls[k].Players().0 || e.1 == calls[k].Players().1))
  {
    assert calls[..k + 1][..k] == calls[..k] && calls[..k + 1][k] == calls[k];
  }

  /** Call `k` labels exactly what the scenario after `k + 1` calls adds to
      the node dictionaries of the scenario after `k` calls. */
  lemma NodeCallStep(n: nat, calls: seq<Call>, k: nat)
    requires WellFormed(n, calls) && k < |calls|
    requires WellFormed(n, calls[..k]) && WellFormed(n, calls[..k + 1])
    ensures Located(n, calls[k]) in ScenarioNodeAttrs(n, calls[..k])
    ensures LabelRelation(ScenarioNodeAttrs(n, calls[..k]), Located(n, calls[k]), calls[k].labels)
            == ScenarioNodeAttrs(n, calls[..k + 1])
  {
    var c, r := calls[k], Located(n, calls[k]);
    var before, after := ScenarioNodeAttrs(n, calls[..k]), ScenarioNodeAttrs(n, calls[..k + 1]);
    forall id | id in after
      ensures LabelRelation(before, r, c.labels)[id] == after[id]
    {
      MentionedStep(n, calls, k, id, Input);
      MentionedStep(n, calls, k, id, Solution);
      if id == r {
        AssignedPair(NodeTruth(n, calls[..k], r, Input), NodeTruth(n, calls[..k], r, Solution), c.labels, 1);
      }
    }
  }

  /** Call `k` labels exactly what the scenario after `k + 1` calls adds to
      the edge dictionaries of the scenario after `k` calls. */
  lemma EdgeCallStep(n: nat, calls: seq<Call>, k: nat)
    requires WellFormed(n, calls) && k < |calls|
    requires WellFormed(n, calls[..k]) && WellFormed(n, calls[..k + 1])
    ensures (Located(n, calls[k]), calls[k].Players().0) in ScenarioEdgeAttrs(n, calls[..k])
    ensures (Located(n, calls[k]), calls[k].Players().1) in ScenarioEdgeAttrs(n, calls[..k])
    ensures LabelRoleEdges(ScenarioEdgeAttrs(n, calls[..k]), Located(n, calls[k]), calls[k].Players(), calls[k].labels)
            == ScenarioEdgeAttrs(n, calls[..k + 1])
  {
    var c, r := calls[k], Located(n, calls[k]);
    var before, after := ScenarioEdgeAttrs(n, calls[..k]), ScenarioEdgeAttrs(n, calls[..k + 1]);
    forall e | e in after
      ensures LabelRoleEdges(before, r, c.Players(), c.labels)[e] == after[e]
    {
      EdgeMentionedStep(n, calls, k, e, Input);
      EdgeMentionedStep(n, calls, k, e, Solution);
      if e == (r, c.Players().0) || e == (r, c.Players().1) {
        AssignedPair(EdgeTruth(n, calls[..k], e, Input), EdgeTruth(n, calls[..k], e, Solution), c.labels, 1);
      }
    }
  }

  /** An edge is labelled by a call exactly when the relation node it leaves
      is: a call names two distinct role-players, and those are the only two
      targets of the node it finds. */
  lemma {:induction false} MentionedLockstep(n: nat, calls: seq<Call>, e: (int, int), l: Label)
    requires WellFormed(n, calls) && e in GeneratedEdgeTypes(n)
    ensures EdgeMentioned(n, calls, e, l) <==> Mentioned(n, calls, e.0, l)
    decreases |calls|
  {
    if calls != [] {
      var k := |calls| - 1;
      PrefixWellFormed(n, calls, k);
      MentionedLockstep(n, calls[..k], e, l);
      var c := calls[k];
      if l in c.labels && Located(n, c) == e.0 {
        NodeLayout(n);
        RelationEdges(n, e.0);
      }
    }
  }

  /** After any calls, every edge of a scenario graph carries the same
      `input` and `solution` values as the relation node it leaves. */
  lemma Lockstep(n: nat, calls: seq<Call>)
    requires WellFormed(n, calls)
    ensures forall e :: e in GeneratedEdgeTypes(n) ==>
              && e in ScenarioEdgeAttrs(n, calls) && e.0 in ScenarioNodeAttrs(n, calls)
              && ScenarioEdgeAttrs(n, calls)[e] == ScenarioNodeAttrs(n, calls)[e.0]
  {
    NodeLayout(n);
    forall e | e in GeneratedEdgeTypes(n)
      ensures ScenarioEdgeAttrs(n, calls)[e] == ScenarioNodeAttrs(n, calls)[e.0]
    {
      MentionedLockstep(n, calls, e, Input);
      MentionedLockstep(n, calls, e, Solution);
    }
  }

  /** The node dictionaries of scenario 0: twelve nodes; the people and the
      parentships 3 and 4 read 1 for both labels, node 11 reads 1 as a
      solution only, and every other node reads 0. */
  ghost predicate Scenario0NodeValues(attrs: map<int, Attrs>) {
    && (forall id :: id in attrs <==> 0 <= id < 12)
    && (forall id :: 0 <= id < 12 ==>
          && Input in attrs[id] && Solution in attrs[id]
          && attrs[id][Input] == (if id < 5 then 1 else 0)
          && attrs[id][Solution] == (if id < 5 || id == 11 then 1 else 0))
  }

  /** The two edges of node 11 in scenario 0 read `input` 0 and `solution` 1. */
  ghost predicate Scenario0EdgeValues(edges: map<(int, int), Attrs>) {
    && (11, 1) in edges && (11, 2) in edges
    && Input in edges[(11, 1)] && Solution in edges[(11, 1)]
    && Input in edges[(11, 2)] && Solution in edges[(11, 2)]
    && edges[(11, 1)][Input] == 0 && edges[(11, 1)][Solution] == 1
    && edges[(11, 2)][Input] == 0 && edges[(11, 2)][Solution] == 1
  }

  /** Scenario 0 (`create_graph(0)`): on three people, the parentships of
      0 over 1 and of 0 over 2 (nodes 3 and 4) are given and to be inferred,
      the siblingship of 1 and 2 (node 11) is only to be inferred, and every
      other relation is false; its two edges follow it. */
  lemma Scenario0Labels()
    ensures Scenario(0).Some? && Scenario(0).value.people == 3
    ensures Scenario0NodeValues(ScenarioNodeAttrs(3, Scenario(0).value.calls))
    ensures Scenario0EdgeValues(ScenarioEdgeAttrs(3, Scenario(0).value.calls))
  {
    var n, calls := 3, Scenario(0).value.calls;
    Scenario0Attrs(n, calls);
  }

  /** Scenario 0's truth values, for a size that is not a literal. */
  lemma Scenario0Attrs(n: nat, calls: seq<Call>)
    requires n == 3
    requires calls == [ParentshipCall(0, 1, Both), ParentshipCall(0, 2, Both), SiblingshipCall(1, 2, SolutionOnly)]
    ensures WellFormed(n, calls)
    ensures Scenario0NodeValues(ScenarioNodeAttrs(n, calls))
    ensures Scenario0EdgeValues(ScenarioEdgeAttrs(n, calls))
  {
    Scenario0NodeAttrs(n, calls);
    Lockstep(n, calls);
    assert (11, 1) in GeneratedEdgeTypes(n) && (11, 2) in GeneratedEdgeTypes(n) by {
      ThreePeople();
      RelationEdges(n, 11);
    }
  }

  /** Scenario 0's node truth values. */
  lemma Scenario0NodeAttrs(n: nat, calls: seq<Call>)
    requires n == 3
    requires calls == [ParentshipCall(0, 1, Both), ParentshipCall(0, 2, Both), SiblingshipCall(1, 2, SolutionOnly)]
    ensures WellFormed(n, calls)
    ensures Scenario0NodeValues(ScenarioNodeAttrs(n, calls))
  {
    Scenario0Located(n, calls);
    assert NodeCount(n) == 12 by { RelationCounts(n); }
    NodeAttrsAt(n, calls);
    forall id | 0 <= id < 12
      ensures NodeTruth(n, calls, id, Input) == (if id < 5 then 1 else 0)
      ensures NodeTruth(n, calls, id, Solution) == (if id < 5 || id == 11 then 1 else 0)
    {
      Scenario0Truth(n, calls, id, Input);
      Scenario0Truth(n, calls, id, Solution);
    }
  }

  /** Every node of the generated graph has a dictionary holding its two
      truth values, and nothing else has one. */
  lemma NodeAttrsAt(n: nat, calls: seq<Call>)
    requires WellFormed(n, calls)
    ensures forall id :: id in ScenarioNodeAttrs(n, calls) <==> 0 <= id < NodeCount(n)
    ensures forall id :: 0 <= id < NodeCount(n) ==>
              && ScenarioNodeAttrs(n, calls)[id][Input] == NodeTruth(n, calls, id, Input)
              && ScenarioNodeAttrs(n, calls)[id][Solution] == NodeTruth(n, calls, id, Solution)
  {
    NodeTypesBelowShape(n, NodeCount(n));
  }

  /** The pairs of three people, in the order `itertools` lists them. */
  lemma ThreePeople()
    ensures Permutations(3) == [(0, 1), (0, 2), (1, 0), (1, 2), (2, 0), (2, 1)]
    ensures Combinations(3) == [(0, 1), (0, 2), (1, 2)]
  {
  }

  /** The nodes the calls of scenario 0 find. The size is a parameter so
      that the generated graph is not unfolded as a literal. */
  lemma Scenario0Located(n: nat, calls: seq<Call>)
    requires n == 3
    requires calls == [ParentshipCall(0, 1, Both), ParentshipCall(0, 2, Both), SiblingshipCall(1, 2, SolutionOnly)]
    ensures WellFormed(n, calls)
    ensures Located(n, calls[0]) == 3 && Located(n, calls[1]) == 4 && Located(n, calls[2]) == 11
  {
    assert WellFormed(n, calls);
    Scenario0Nodes(n, Located(n, calls[0]), Located(n, calls[1]), Located(n, calls[2]));
  }

  /** On three people, the parentships of 0 over 1 and of 0 over 2 are nodes
      3 and 4, and the siblingship of 1 and 2 is node 11. */
  lemma Scenario0Nodes(n: nat, r0: int, r1: int, r2: int)
    requires n == 3
    requires Matches(GeneratedNodeTypes(n), GeneratedEdgeTypes(n), Parentship, (Parent, Child), (0, 1), r0)
    requires Matches(GeneratedNodeTypes(n), GeneratedEdgeTypes(n), Parentship, (Parent, Child), (0, 2), r1)
    requires Matches(GeneratedNodeTypes(n), GeneratedEdgeTypes(n), Siblingship, (Sibling, Sibling), (1, 2), r2)
    ensures r0 == 3 && r1 == 4 && r2 == 11
  {
    ThreePeople();
    ParentshipMatch(n, 0, 1, r0);
    ParentshipMatch(n, 0, 2, r1);
    SiblingshipMatch(n, 1, 2, r2);
  }

  /** The truth value of scenario 0 for label `l` on node `id`: people and
      the two given parentships read 1, the siblingship of 1 and 2 reads 1 as
      a solution only. */
  lemma Scenario0Truth(n: nat, calls: seq<Call>, id: int, l: Label)
    requires n == 3 && 0 <= id
    requires calls == [ParentshipCall(0, 1, Both), ParentshipCall(0, 2, Both), SiblingshipCall(1, 2, SolutionOnly)]
    ensures WellFormed(n, calls)
    ensures NodeTruth(n, calls, id, l) == if id < 5 || (id == 11 && l == Solution) then 1 else 0
  {
    Scenario0Located(n, calls);
    MentionedSomewhere(n, calls, id, l);
    if id == 3 || id == 4 {
      var k := id - 3;
      assert l in calls[k].labels && Located(n, calls[k]) == id;
    } else if id == 11 && l == Solution {
      assert l in calls[2].labels && Located(n, calls[2]) == id;
    } else {
      forall k | 0 <= k < |calls|
        ensures !(l in calls[k].labels && Located(n, calls[k]) == id)
      {
        assert k == 0 || k == 1 || k == 2;
      }
    }
  }

  /** A node carries a label exactly when some call writes that label and
      finds that node. */
  lemma {:induction false} MentionedSomewhere(n: nat, calls: seq<Call>, r: int, l: Label)
    requires WellFormed(n, calls)
    ensures Mentioned(n, calls, r, l) <==>
              exists k :: 0 <= k < |calls| && l in calls[k].labels && Located(n, calls[k]) == r
    decreases |calls|
  {
    if calls != [] {
      var m := |calls| - 1;
      PrefixWellFormed(n, calls, m);
      MentionedSomewhere(n, calls[..m], r, l);
      assert forall k :: 0 <= k < m ==> calls[..m][k] == calls[k];
    }
  }

  /** `base_graph(num_people)`: generate, then label every element with
      `'input'` and `'solution'`. */
  method BaseGraph(people: nat) returns (g: Graph)
    ensures fresh(g) && Built(g, people, [])
  {
    g := new Graph.Generate(people);
    ghost var nodeAttrs, edgeAttrs := g.nodeAttrs, g.edgeAttrs;
    g.AddBaseLabels(Both);
    BaseScenario(people, nodeAttrs, edgeAttrs);
  }

  /** Run a scenario's calls, in order, on its base graph. */
  method Build(people: nat, calls: seq<Call>) returns (g: Graph)
    requires WellFormed(people, calls)
    ensures fresh(g) && Built(g, people, calls)
  {
    g := BaseGraph(people);
    for k := 0 to |calls|
      invariant fresh(g) && WellFormed(people, calls[..k]) && Built(g, people, calls[..k])
    {
      PrefixWellFormed(people, calls, k + 1);
      Apply(g, people, calls, k);
    }
    assert calls[..|calls|] == calls;
  }

  /** Call `k` of a scenario: `add_parentship` or `add_siblingship`. */
  method Apply(g: Graph, people: nat, calls: seq<Call>, k: nat)
    requires WellFormed(people, calls) && k < |calls|
    requires WellFormed(people, calls[..k]) && WellFormed(people, calls[..k + 1])
    requires Built(g, people, calls[..k])
    modifies g`nodeAttrs, g`edgeAttrs
    ensures Built(g, people, calls[..k + 1])
  {
    var c := calls[k];
    var outcome;
    ghost var found;
    ghost var nodeAttrs, edgeAttrs := g.nodeAttrs, g.edgeAttrs;
    match c {
      case ParentshipCall(parent, child, labels) =>
        outcome, found := g.AddParentship(parent, child, labels);
      case SiblingshipCall(first, second, labels) =>
        outcome, found := g.AddSiblingship(first, second, labels);
    }
    LabelledOnGenerated(people, nodeAttrs, edgeAttrs, g.nodeAttrs, g.edgeAttrs,
                        c.Relation(), c.Roles(), c.Players(), c.labels, outcome, found);
    NodeCallStep(people, calls, k);
    EdgeCallStep(people, calls, k);
  }

  /** What `create_graph(i)` returns: `None` for an index without a scenario,
      else the built scenario graph. */
  ghost predicate Created(i: int, G: Option<Graph>)
    reads if G.Some? then {G.value} else {}
  {
    match Scenario(i)
    case None => G.None?
    case Some(recipe) => G.Some? && Built(G.value, recipe.people, recipe.calls)
  }

  /** `create_graph(i)`. */
  method CreateGraph(i: int) returns (G: Option<Graph>)
    ensures Created(i, G)
    ensures G.Some? ==> fresh(G.value)
  {
    match Scenario(i)
    case None =>
      return None;
    case Some(recipe) =>
      var g := Build(recipe.people, recipe.calls);
      return Some(g);
  }

  /** The scenarios `create_graphs_tuple` builds, in order. */
  const TupleScenarios: seq<int> := [0, 1, 2, 3, 5, 6, 7, 8, 9, 10]

  /** Every index `create_graphs_tuple` asks for has a scenario. */
  lemma TupleScenariosExist()
    ensures |TupleScenarios| == 10
    ensures forall k :: 0 <= k < |TupleScenarios| ==> Scenario(TupleScenarios[k]).Some?
  {
  }

  /** No graph object appears twice in `graphs`. */
  predicate Distinct(graphs: seq<Option<Graph>>) {
    forall j, k :: 0 <= j < k < |graphs| && graphs[j].Some? && graphs[k].Some? ==>
      graphs[j].value != graphs[k].value
  }

  /** Appending a graph that none of `graphs` holds keeps them distinct. */
  lemma DistinctAppend(graphs: seq<Option<Graph>>, G: Option<Graph>)
    requires Distinct(graphs)
    requires forall j :: 0 <= j < |graphs| && graphs[j].Some? && G.Some? ==> graphs[j].value != G.value
    ensures Distinct(graphs + [G])
  {
    var s := graphs + [G];
    assert forall j :: 0 <= j < |graphs| ==> s[j] == graphs[j];
  }

  /** `tuple(create_graph(i) for i in indices)`. */
  method CreateGraphs(indices: seq<int>) returns (graphs: seq<Option<Graph>>)
    ensures |graphs| == |indices|
    ensures forall k :: 0 <= k < |graphs| ==>
              Created(indices[k], graphs[k]) && (graphs[k].Some? ==> fresh(graphs[k].value))
    ensures Distinct(graphs)
  {
    graphs := [];
    for k := 0 to |indices|
      invariant |graphs| == k
      invariant forall j :: 0 <= j < k ==> Created(indices[j], graphs[j])
      invariant forall j :: 0 <= j < k && graphs[j].Some? ==> fresh(graphs[j].value)
      invariant Distinct(graphs)
    {
      var G := CreateGraph(indices[k]);
      DistinctAppend(graphs, G);
      graphs := graphs + [G];
    }
  }

  /** `create_graphs_tuple()`: ten graphs, none of them `None`, each the
      built scenario of its index. */
  method CreateGraphsTuple() returns (graphs: seq<Option<Graph>>)
    ensures |graphs| == 10
    ensures forall k :: 0 <= k < |graphs| ==>
              graphs[k].Some? && fresh(graphs[k].value) && Created(TupleScenarios[k], graphs[k])
    ensures Distinct(graphs)
  {
    graphs := CreateGraphs(TupleScenarios);
    TupleScenariosExist();
  }
}
