/** The graph of `experiment/data.py` and the operations that build and label
    it in place: `generate_graph`, `add_base_labels`, `find_relation_node`,
    `add_relation_label`, `add_parentship` and `add_siblingship`. */
module Data {
  import opened Wrappers
  import opened Itertools
  import opened Layout
  import opened Labels

  /** The exceptions the labelling calls raise. */
  datatype GraphError =
    | NodeNotInGraph(id: int)  // networkx refuses the predecessors of an absent node
    | MissingRelation          // `G.nodes[None]` when no relation node was found

  /** No node or edge carries a truth attribute yet. */
  ghost predicate Unlabelled<K>(attrs: map<K, Attrs>) {
    forall k :: k in attrs ==> attrs[k] == map[]
  }

  /** A non-empty set of node ids has an element to pick. This lemma exists
      only so that `:|` can pick from a `set<int>`: the verifier does not
      find the element of a non-empty integer set unaided, but it does find
      one of a set of pairs, so the proof goes through the pairs `(id, id)`. */
  lemma Inhabited(ids: set<int>)
    requires ids != {}
    ensures exists id :: id in ids
  {
    var pairs := set id | id in ids :: (id, id);
    assert forall id :: id in ids ==> (id, id) in pairs;
    assert pairs != {};
  }

  /** What one `add_relation_label` call did, given the structure of the graph,
      the dictionaries before and after, what it returned and which node it
      found: it raises for an absent role-player; it finds a matching node if
      there is one; it raises `MissingRelation` exactly when none matches and
      there is a label to write; it labels the found node and its two role
      edges and nothing else; a call that raises changes nothing. */
  ghost predicate RelationLabelled(nodeType: map<int, NodeType>, edgeType: map<(int, int), Role>,
                                   nodeAttrs0: map<int, Attrs>, edgeAttrs0: map<(int, int), Attrs>,
                                   nodeAttrs: map<int, Attrs>, edgeAttrs: map<(int, int), Attrs>,
                                   relation: NodeType, roles: (Role, Role), players: (int, int),
                                   labels: seq<Label>, outcome: Outcome<GraphError>, found: Option<int>)
    requires nodeAttrs0.Keys == nodeType.Keys && edgeAttrs0.Keys == edgeType.Keys
  {
    && (players.0 !in nodeType ==> outcome == Fail(NodeNotInGraph(players.0)) && found == None)
    && (players.0 in nodeType && players.1 !in nodeType ==>
          outcome == Fail(NodeNotInGraph(players.1)) && found == None)
    && (players.0 in nodeType && players.1 in nodeType ==>
          && (found.Some? ==> Matches(nodeType, edgeType, relation, roles, players, found.value))
          && (found.None? ==> forall r :: !Matches(nodeType, edgeType, relation, roles, players, r))
          && (outcome == Fail(MissingRelation) <==> found.None? && labels != [])
          && (outcome.Pass? <==> found.Some? || labels == []))
    && (outcome.Fail? || found.None? ==> nodeAttrs == nodeAttrs0 && edgeAttrs == edgeAttrs0)
    && (outcome.Pass? && found.Some? ==>
          && nodeAttrs == LabelRelation(nodeAttrs0, found.value, labels)
          && edgeAttrs == LabelRoleEdges(edgeAttrs0, found.value, players, labels))
  }

  /** On `generate_graph(n)`, an `add_parentship` or `add_siblingship` call
      for two distinct people always finds the one node created for them,
      succeeds, and labels that node and its two role edges. */
  lemma LabelledOnGenerated(n: nat, nodeAttrs0: map<int, Attrs>, edgeAttrs0: map<(int, int), Attrs>,
                            nodeAttrs: map<int, Attrs>, edgeAttrs: map<(int, int), Attrs>,
                            relation: NodeType, roles: (Role, Role), players: (int, int),
                            labels: seq<Label>, outcome: Outcome<GraphError>, found: Option<int>)
    requires nodeAttrs0.Keys == GeneratedNodeTypes(n).Keys && edgeAttrs0.Keys == GeneratedEdgeTypes(n).Keys
    requires Locatable(n, relation, roles, players)
    requires RelationLabelled(GeneratedNodeTypes(n), GeneratedEdgeTypes(n), nodeAttrs0, edgeAttrs0,
                              nodeAttrs, edgeAttrs, relation, roles, players, labels, outcome, found)
    ensures outcome == Pass && found == Some(RelationNode(n, relation, roles, players))
    ensures nodeAttrs == LabelRelation(nodeAttrs0, RelationNode(n, relation, roles, players), labels)
    ensures edgeAttrs == LabelRoleEdges(edgeAttrs0, RelationNode(n, relation, roles, players), players, labels)
  {
    NodeLayout(n);
    LocateUnique(n, relation, roles, players);
    var r := RelationNode(n, relation, roles, players);
    assert Matches(GeneratedNodeTypes(n), GeneratedEdgeTypes(n), relation, roles, players, r);
  }

  /** No parentship makes a person their own parent: on `generate_graph(n)`,
      `add_parentship(G, a, a, *labels)` raises exactly when it has a label
      to write, and otherwise changes nothing. */
  lemma SelfParentshipMissing(n: nat, nodeAttrs0: map<int, Attrs>, edgeAttrs0: map<(int, int), Attrs>,
                            nodeAttrs: map<int, Attrs>, edgeAttrs: map<(int, int), Attrs>,
                            a: int, labels: seq<Label>, outcome: Outcome<GraphError>, found: Option<int>)
    requires nodeAttrs0.Keys == GeneratedNodeTypes(n).Keys && edgeAttrs0.Keys == GeneratedEdgeTypes(n).Keys
    requires 0 <= a < n
    requires RelationLabelled(GeneratedNodeTypes(n), GeneratedEdgeTypes(n), nodeAttrs0, edgeAttrs0,
                              nodeAttrs, edgeAttrs, Parentship, (Parent, Child), (a, a), labels, outcome, found)
    ensures found == None
    ensures outcome == Fail(MissingRelation) <==> labels != []
    ensures outcome == Pass <==> labels == []
    ensures nodeAttrs == nodeAttrs0 && edgeAttrs == edgeAttrs0
  {
    NodeTypesBelowShape(n, NodeCount(n));
  }

  /** `add_siblingship(G, a, a, *labels)` is not refused: with at least two
      people every siblingship of `a` matches the request, so the call
      succeeds and labels one of them. */
  lemma SelfSiblingshipFound(n: nat, nodeAttrs0: map<int, Attrs>, edgeAttrs0: map<(int, int), Attrs>,
                             nodeAttrs: map<int, Attrs>, edgeAttrs: map<(int, int), Attrs>,
                             a: int, labels: seq<Label>, outcome: Outcome<GraphError>, found: Option<int>)
    requires nodeAttrs0.Keys == GeneratedNodeTypes(n).Keys && edgeAttrs0.Keys == GeneratedEdgeTypes(n).Keys
    requires 0 <= a < n && 2 <= n
    requires RelationLabelled(GeneratedNodeTypes(n), GeneratedEdgeTypes(n), nodeAttrs0, edgeAttrs0,
                              nodeAttrs, edgeAttrs, Siblingship, (Sibling, Sibling), (a, a), labels, outcome, found)
    ensures outcome == Pass && found.Some?
    ensures n + |Permutations(n)| <= found.value < NodeCount(n) && IsPlayer(n, found.value, a)
  {
    var b := if a == 0 then 1 else 0;
    SiblingshipLookup(n, a, b);
    var r :| Matches(GeneratedNodeTypes(n), GeneratedEdgeTypes(n), Siblingship, (Sibling, Sibling), (a, b), r);
    assert Matches(GeneratedNodeTypes(n), GeneratedEdgeTypes(n), Siblingship, (Sibling, Sibling), (a, a), r);
    NodeLayout(n);
    EdgeTypesBelowShape(n, NodeCount(n));
  }

  /** A networkx `DiGraph` whose nodes and edges carry a `type` and 0/1
      truth attributes. The types are fixed once generated; the labelling
      operations rewrite only the attribute dictionaries. */
  class Graph {
    var nodeType: map<int, NodeType>
    var edgeType: map<(int, int), Role>
    var nodeAttrs: map<int, Attrs>
    var edgeAttrs: map<(int, int), Attrs>

    /** Every node and edge has a dictionary, and every edge joins two nodes. */
    ghost predicate Valid()
      reads this
    {
      && nodeAttrs.Keys == nodeType.Keys
      && edgeAttrs.Keys == edgeType.Keys
      && forall e :: e in edgeType ==> e.0 in nodeType && e.1 in nodeType
    }

    /** Every node and edge has an empty attribute dictionary. */
    ghost predicate Bare()
      reads this
    {
      && nodeAttrs.Keys == nodeType.Keys && edgeAttrs.Keys == edgeType.Keys
      && Unlabelled(nodeAttrs) && Unlabelled(edgeAttrs)
    }

    /** `generate_graph(n)`: the people, then a parentship per ordered pair of
        distinct people, then a siblingship per pair `a < b`, each relation
        node with its two role edges; no truth attributes yet. */
    constructor Generate(n: nat)
      ensures Valid()
      ensures nodeType == GeneratedNodeTypes(n) && edgeType == GeneratedEdgeTypes(n)
      ensures Unlabelled(nodeAttrs) && Unlabelled(edgeAttrs)
    {
      nodeType, edgeType, nodeAttrs, edgeAttrs := map[], map[], map[], map[];
      new;
      AddPeople(n);
      AddParentships(n);
      AddSiblingships(n);
      NodeLayout(n);
    }

    /** `G.add_nodes_from(range(n), type="person")` on an empty graph. */
    method AddPeople(n: nat)
      requires nodeType == map[] && edgeType == map[] && nodeAttrs == map[] && edgeAttrs == map[]
      modifies this
      ensures nodeType == NodeTypesBelow(n, n) && edgeType == EdgeTypesBelow(n, n)
      ensures Bare()
    {
      EdgeTypesOfPeople(n, n);
      for id := 0 to n
        invariant nodeType == NodeTypesBelow(n, id) && edgeType == map[]
        invariant nodeAttrs.Keys == nodeType.Keys && Unlabelled(nodeAttrs) && edgeAttrs == map[]
      {
        nodeType := nodeType[id := Person];
        nodeAttrs := nodeAttrs[id := map[]];
      }
    }

    /** `G.add_node(r, type=relation)`, then `G.add_edge(r, a, type=roleA)`
        and `G.add_edge(r, b, type=roleB)`, all without truth attributes. */
    method AddRelationNode(r: int, relation: NodeType, a: int, roleA: Role, b: int, roleB: Role)
      requires Bare()
      modifies this
      ensures nodeType == old(nodeType)[r := relation]
      ensures edgeType == old(edgeType)[(r, a) := roleA][(r, b) := roleB]
      ensures Bare()
    {
      nodeType, nodeAttrs := nodeType[r := relation], nodeAttrs[r := map[]];
      edgeType, edgeAttrs := edgeType[(r, a) := roleA][(r, b) := roleB], edgeAttrs[(r, a) := map[]][(r, b) := map[]];
    }

    /** The first loop of `generate_graph`: parentship node `last_id + i` for the
        `i`-th permutation `(a, b)`, with edges to `a` typed `parent` and to `b`
        typed `child`. */
    method AddParentships(n: nat)
      requires nodeType == NodeTypesBelow(n, n) && edgeType == EdgeTypesBelow(n, n)
      requires Bare()
      modifies this
      ensures nodeType == NodeTypesBelow(n, n + |Permutations(n)|)
      ensures edgeType == EdgeTypesBelow(n, n + |Permutations(n)|)
      ensures Bare()
    {
      NodeTypesBelowSize(n, n);
      var lastId := |nodeType|;
      var parentships := Permutations(n);
      for r := lastId to lastId + |parentships|
        invariant nodeType == NodeTypesBelow(n, r) && edgeType == EdgeTypesBelow(n, r)
        invariant Bare()
      {
        var a, b := parentships[r - lastId].0, parentships[r - lastId].1;
        ParentshipStep(n, lastId, r);
        AddRelationNode(r, Parentship, a, Parent, b, Child);
      }
    }

    /** The second loop of `generate_graph`: siblingship node `last_id + i` for
        the `i`-th combination `(a, b)`, with both edges typed `sibling`. */
    method AddSiblingships(n: nat)
      requires nodeType == NodeTypesBelow(n, n + |Permutations(n)|)
      requires edgeType == EdgeTypesBelow(n, n + |Permutations(n)|)
      requires Bare()
      modifies this
      ensures nodeType == GeneratedNodeTypes(n) && edgeType == GeneratedEdgeTypes(n)
      ensures Bare()
    {
      NodeTypesBelowSize(n, n + |Permutations(n)|);
      var lastId := |nodeType|;
      var siblingships := Combinations(n);
      for r := lastId to lastId + |siblingships|
        invariant nodeType == NodeTypesBelow(n, r) && edgeType == EdgeTypesBelow(n, r)
        invariant Bare()
      {
        var a, b := siblingships[r - lastId].0, siblingships[r - lastId].1;
        SiblingshipStep(n, lastId, r);
        AddRelationNode(r, Siblingship, a, Sibling, b, Sibling);
      }
    }
  
    /** `add_base_labels(G, *labels)`: every named attribute of a person is
        set to 1, of any other node to 0, and of every edge to 0. */
    method AddBaseLabels(labels: seq<Label>)
      requires Valid()
      modifies this`nodeAttrs, this`edgeAttrs
      ensures Valid()
      ensures nodeAttrs == BaseNodeAttrs(nodeType, old(nodeAttrs), labels)
      ensures edgeAttrs == BaseEdgeAttrs(old(edgeAttrs), labels)
    {
      AddBaseNodeLabels(labels);
      AddBaseEdgeLabels(labels);
    }

    /** The node loop of `add_base_labels`. */
    method AddBaseNodeLabels(labels: seq<Label>)
      requires nodeAttrs.Keys <= nodeType.Keys
      modifies this`nodeAttrs
      ensures nodeAttrs == BaseNodeAttrs(nodeType, old(nodeAttrs), labels)
    {
      var nodes := nodeAttrs.Keys;
      while nodes != {}
        invariant nodes <= nodeAttrs.Keys && nodeAttrs.Keys == old(nodeAttrs).Keys
        invariant forall id :: id in nodes ==> nodeAttrs[id] == old(nodeAttrs)[id]
        invariant forall id :: id in nodeAttrs && id !in nodes ==>
                    nodeAttrs[id] == Assigned(old(nodeAttrs)[id], labels, if nodeType[id] == Person then 1 else 0)
        decreases nodes
      {
        Inhabited(nodes);
        var node :| node in nodes;
        var value := if nodeType[node] == Person then 1 else 0;
        AssignNode(node, labels, value);
        nodes := nodes - {node};
      }
      assert forall id :: id in nodeAttrs ==> nodeAttrs[id] == BaseNodeAttrs(nodeType, old(nodeAttrs), labels)[id];
    }

    /** The edge loop of `add_base_labels`. */
    method AddBaseEdgeLabels(labels: seq<Label>)
      modifies this`edgeAttrs
      ensures edgeAttrs == BaseEdgeAttrs(old(edgeAttrs), labels)
    {
      var edges := edgeAttrs.Keys;
      while edges != {}
        invariant edges <= edgeAttrs.Keys && edgeAttrs.Keys == old(edgeAttrs).Keys
        invariant forall e :: e in edges ==> edgeAttrs[e] == old(edgeAttrs)[e]
        invariant forall e :: e in edgeAttrs && e !in edges ==> edgeAttrs[e] == Assigned(old(edgeAttrs)[e], labels, 0)
        decreases edges
      {
        var edge :| edge in edges;
        AssignEdge(edge, labels, 0);
        edges := edges - {edge};
      }
    }

    /** `for attribute in labels: G.nodes[node][attribute] = value`. */
    method AssignNode(node: int, labels: seq<Label>, value: Bit)
      requires node in nodeAttrs
      modifies this`nodeAttrs
      ensures nodeAttrs == old(nodeAttrs)[node := Assigned(old(nodeAttrs)[node], labels, value)]
    {
      AssignedNothing(old(nodeAttrs)[node], labels, value);
      for j := 0 to |labels|
        invariant nodeAttrs == old(nodeAttrs)[node := Assigned(old(nodeAttrs)[node], labels[..j], value)]
      {
        AssignedStep(old(nodeAttrs)[node], labels, j, value);
        var attrs: Attrs := nodeAttrs[node][labels[j] := value];
        nodeAttrs := nodeAttrs[node := attrs];
      }
      assert labels[..|labels|] == labels;
    }

    /** `for attribute in labels: G.edges[edge][attribute] = value`. */
    method AssignEdge(edge: (int, int), labels: seq<Label>, value: Bit)
      requires edge in edgeAttrs
      modifies this`edgeAttrs
      ensures edgeAttrs == old(edgeAttrs)[edge := Assigned(old(edgeAttrs)[edge], labels, value)]
    {
      AssignedNothing(old(edgeAttrs)[edge], labels, value);
      for j := 0 to |labels|
        invariant edgeAttrs == old(edgeAttrs)[edge := Assigned(old(edgeAttrs)[edge], labels[..j], value)]
      {
        AssignedStep(old(edgeAttrs)[edge], labels, j, value);
        var attrs: Attrs := edgeAttrs[edge][labels[j] := value];
        edgeAttrs := edgeAttrs[edge := attrs];
      }
      assert labels[..|labels|] == labels;
    }

    /** `G.predecessors(x)`: the sources of the edges into `x`. */
    function Predecessors(x: int): (sources: set<int>)
      reads this
      ensures forall r :: r in sources <==> (r, x) in edgeType
    {
      set e | e in edgeType && e.1 == x :: e.0
    }

    /** `find_relation_node`: some common predecessor of both role-players
        with the requested type and roles, in whatever order the set yields
        them, or `None`. Raises for a role-player not in the graph. */
    method FindRelationNode(relation: NodeType, roles: (Role, Role), players: (int, int))
      returns (result: Result<Option<int>, GraphError>)
      requires Valid()
      ensures players.0 !in nodeType ==> result == Failure(NodeNotInGraph(players.0))
      ensures players.0 in nodeType && players.1 !in nodeType ==> result == Failure(NodeNotInGraph(players.1))
      ensures players.0 in nodeType && players.1 in nodeType ==> result.Success?
      ensures result.Success? && result.value.Some? ==>
                Matches(nodeType, edgeType, relation, roles, players, result.value.value)
      ensures result.Success? && result.value.None? ==>
                forall r :: !Matches(nodeType, edgeType, relation, roles, players, r)
    {
      if players.0 !in nodeType {
        return Failure(NodeNotInGraph(players.0));
      }
      if players.1 !in nodeType {
        return Failure(NodeNotInGraph(players.1));
      }
      var candidates := Predecessors(players.0) * Predecessors(players.1);
      while candidates != {}
        invariant forall r :: Matches(nodeType, edgeType, relation, roles, players, r) ==> r in candidates
        invariant forall r :: r in candidates ==> (r, players.0) in edgeType && (r, players.1) in edgeType
        decreases candidates
      {
        Inhabited(candidates);
        var node :| node in candidates;
        if nodeType[node] == relation && edgeType[(node, players.0)] == roles.0 && edgeType[(node, players.1)] == roles.1 {
          return Success(Some(node));
        }
        candidates := candidates - {node};
      }
      return Success(None);
    }

    /** `add_relation_label`: find the relation node, then for each label set
        it to 1 on that node and on its edges to both role-players. With no
        node found the first label fails on `G.nodes[None]`. */
    method AddRelationLabel(relation: NodeType, roles: (Role, Role), players: (int, int), labels: seq<Label>)
      returns (outcome: Outcome<GraphError>, ghost found: Option<int>)
      requires Valid()
      modifies this`nodeAttrs, this`edgeAttrs
      ensures Valid()
      ensures RelationLabelled(nodeType, edgeType, old(nodeAttrs), old(edgeAttrs), nodeAttrs, edgeAttrs,
                               relation, roles, players, labels, outcome, found)
    {
      var result := FindRelationNode(relation, roles, players);
      if result.Failure? {
        return Fail(result.error), None;
      }
      var node := result.value;
      found := node;
      if node.Some? {
        AssignedNothing(old(nodeAttrs)[node.value], labels, 1);
        AssignedNothing(old(edgeAttrs)[(node.value, players.0)], labels, 1);
        AssignedNothing(old(edgeAttrs)[(node.value, players.1)], labels, 1);
      }
      for j := 0 to |labels|
        invariant node.Some? ==>
                    && nodeAttrs == LabelRelation(old(nodeAttrs), node.value, labels[..j])
                    && edgeAttrs == LabelRoleEdges(old(edgeAttrs), node.value, players, labels[..j])
        invariant node.None? ==> j == 0 && nodeAttrs == old(nodeAttrs) && edgeAttrs == old(edgeAttrs)
      {
        if node.None? {
          return Fail(MissingRelation), found;
        }
        RelationLabelStep(old(nodeAttrs), old(edgeAttrs), node.value, players, labels, j);
        SetRelationLabel(node.value, players, labels[j]);
      }
      assert labels[..|labels|] == labels;
      if node.Some? {
        RelationLabelEffect(old(nodeAttrs), old(edgeAttrs), node.value, players, labels);
      }
      outcome := Pass;
    }

    /** One pass of `add_relation_label`'s loop: label `l` set to 1 on node
        `r` and on its edges to both role-players. */
    method SetRelationLabel(r: int, players: (int, int), l: Label)
      requires r in nodeAttrs && (r, players.0) in edgeAttrs && (r, players.1) in edgeAttrs
      modifies this`nodeAttrs, this`edgeAttrs
      ensures nodeAttrs == old(nodeAttrs)[r := old(nodeAttrs)[r][l := 1]]
      ensures var e := old(edgeAttrs)[(r, players.0) := old(edgeAttrs)[(r, players.0)][l := 1]];
        edgeAttrs == e[(r, players.1) := e[(r, players.1)][l := 1]]
    {
      nodeAttrs := nodeAttrs[r := nodeAttrs[r][l := 1]];
      edgeAttrs := edgeAttrs[(r, players.0) := edgeAttrs[(r, players.0)][l := 1]];
      edgeAttrs := edgeAttrs[(r, players.1) := edgeAttrs[(r, players.1)][l := 1]];
    }

    /** `add_parentship(G, parent, child, *labels)`. */
    method AddParentship(parent: int, child: int, labels: seq<Label>)
      returns (outcome: Outcome<GraphError>, ghost found: Option<int>)
      requires Valid()
      modifies this`nodeAttrs, this`edgeAttrs
      ensures Valid()
      ensures RelationLabelled(nodeType, edgeType, old(nodeAttrs), old(edgeAttrs), nodeAttrs, edgeAttrs,
                               Parentship, (Parent, Child), (parent, child), labels, outcome, found)
    {
      outcome, found := AddRelationLabel(Parentship, (Parent, Child), (parent, child), labels);
    }

    /** `add_siblingship(G, first, second, *labels)`. */
    method AddSiblingship(first: int, second: int, labels: seq<Label>)
      returns (outcome: Outcome<GraphError>, ghost found: Option<int>)
      requires Valid()
      modifies this`nodeAttrs, this`edgeAttrs
      ensures Valid()
      ensures RelationLabelled(nodeType, edgeType, old(nodeAttrs), old(edgeAttrs), nodeAttrs, edgeAttrs,
                               Siblingship, (Sibling, Sibling), (first, second), labels, outcome, found)
    {
      outcome, found := AddRelationLabel(Siblingship, (Sibling, Sibling), (first, second), labels);
    }
  }
}
