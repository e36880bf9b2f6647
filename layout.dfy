/** What `generate_graph(n)` builds, stated declaratively: which id carries
    which node type, which edges leave each relation node and which role each
    edge plays. Also the relation lookup as a predicate on that structure, and
    the lemmas that the lookup is total and unique on a generated graph. */
module Layout {
  import opened Itertools

  /** The `type` attribute of a node. */
  datatype NodeType = Person | Parentship | Siblingship

  /** The `type` attribute of an edge: the role its target plays. */
  datatype Role = Parent | Child | Sibling

  /** The number of nodes `generate_graph(n)` creates. */
  function NodeCount(n: nat): nat {
    n + |Permutations(n)| + |Combinations(n)|
  }

  /** The type of node `id`: the people first, then one parentship per
      permutation, then one siblingship per combination. */
  function TypeAt(n: nat, id: int): NodeType {
    if id < n then Person
    else if id < n + |Permutations(n)| then Parentship
    else Siblingship
  }

  /** The two role-players of relation node `r`: the pair it was created for. */
  function PlayersAt(n: nat, r: int): (int, int)
    requires n <= r < NodeCount(n)
  {
    if r < n + |Permutations(n)| then Permutations(n)[r - n]
    else Combinations(n)[r - n - |Permutations(n)|]
  }

  predicate IsPlayer(n: nat, r: int, x: int)
    requires n <= r < NodeCount(n)
  {
    x == PlayersAt(n, r).0 || x == PlayersAt(n, r).1
  }

  /** The role of the edge from relation node `r` to its role-player `x`. */
  function RoleAt(n: nat, r: int, x: int): Role
    requires n <= r < NodeCount(n)
  {
    if n + |Permutations(n)| <= r then Sibling
    else if x == PlayersAt(n, r).0 then Parent
    else Child
  }

  /** The node types of the generated graph, restricted to ids below `bound`. */
  function NodeTypesBelow(n: nat, bound: int): map<int, NodeType>
    requires bound <= NodeCount(n)
    decreases bound
  {
    if bound <= 0 then map[] else NodeTypesBelow(n, bound - 1)[bound - 1 := TypeAt(n, bound - 1)]
  }

  /** The nodes below `bound` are the ids `0 .. bound-1`, typed by `TypeAt`. */
  lemma {:induction false} NodeTypesBelowShape(n: nat, bound: int)
    requires bound <= NodeCount(n)
    ensures forall id :: id in NodeTypesBelow(n, bound) <==> 0 <= id < bound
    ensures forall id :: id in NodeTypesBelow(n, bound) ==> NodeTypesBelow(n, bound)[id] == TypeAt(n, id)
    decreases bound
  {
    if bound > 0 {
      NodeTypesBelowShape(n, bound - 1);
    }
  }

  /** The edges of the generated graph that leave nodes below `bound`: each
      relation node's edge to its first role-player, then to its second. */
  function EdgeTypesBelow(n: nat, bound: int): map<(int, int), Role>
    requires bound <= NodeCount(n)
    decreases bound
  {
    if bound <= n then map[]
    else
      var r := bound - 1;
      var (a, b) := PlayersAt(n, r);
      EdgeTypesBelow(n, r)[(r, a) := RoleAt(n, r, a)][(r, b) := RoleAt(n, r, b)]
  }

  /** The edges below `bound` join each relation node below `bound` to its
      two role-players, and carry the role of that role-player. */
  lemma {:induction false} EdgeTypesBelowShape(n: nat, bound: int)
    requires bound <= NodeCount(n)
    ensures forall r, x :: (r, x) in EdgeTypesBelow(n, bound) <==> n <= r < bound && IsPlayer(n, r, x)
    ensures forall r, x :: (r, x) in EdgeTypesBelow(n, bound) ==> EdgeTypesBelow(n, bound)[(r, x)] == RoleAt(n, r, x)
    decreases bound
  {
    if bound > n {
      EdgeTypesBelowShape(n, bound - 1);
    }
  }

  /** The node types of `generate_graph(n)`. */
  function GeneratedNodeTypes(n: nat): map<int, NodeType> {
    NodeTypesBelow(n, NodeCount(n))
  }

  /** The edge types of `generate_graph(n)`. */
  function GeneratedEdgeTypes(n: nat): map<(int, int), Role> {
    EdgeTypesBelow(n, NodeCount(n))
  }

  /** Node `r` is what `find_relation_node` looks for: a common predecessor of
      both role-players, of the requested type, whose edges to the first and
      second role-player carry the first and second requested role. */
  predicate Matches(nodeType: map<int, NodeType>, edgeType: map<(int, int), Role>,
                    relation: NodeType, roles: (Role, Role), players: (int, int), r: int)
  {
    && r in nodeType
    && (r, players.0) in edgeType
    && (r, players.1) in edgeType
    && nodeType[r] == relation
    && edgeType[(r, players.0)] == roles.0
    && edgeType[(r, players.1)] == roles.1
  }

  /** The requests `add_parentship` and `add_siblingship` make, for two
      distinct people of an `n`-person graph. */
  predicate Locatable(n: nat, relation: NodeType, roles: (Role, Role), players: (int, int)) {
    && 0 <= players.0 < n
    && 0 <= players.1 < n
    && players.0 != players.1
    && ((relation == Parentship && roles == (Parent, Child)) ||
        (relation == Siblingship && roles == (Sibling, Sibling)))
  }

  /** Ids are consecutive from zero; the people are exactly ids `0 .. n-1`,
      the `n * (n - 1)` parentships follow, then the `n * (n - 1) / 2`
      siblingships; every edge goes from a relation node to a person. */
  lemma NodeLayout(n: nat)
    ensures NodeCount(n) == n + n * (n - 1) + n * (n - 1) / 2
    ensures forall id :: id in GeneratedNodeTypes(n) <==> 0 <= id < NodeCount(n)
    ensures forall id :: id in GeneratedNodeTypes(n) ==>
              && (GeneratedNodeTypes(n)[id] == Person <==> id < n)
              && (GeneratedNodeTypes(n)[id] == Parentship <==> n <= id < n + n * (n - 1))
              && (GeneratedNodeTypes(n)[id] == Siblingship <==> n + n * (n - 1) <= id)
    ensures forall e :: e in GeneratedEdgeTypes(n) ==>
              && e.0 in GeneratedNodeTypes(n) && GeneratedNodeTypes(n)[e.0] != Person
              && e.1 in GeneratedNodeTypes(n) && GeneratedNodeTypes(n)[e.1] == Person
  {
    RelationCounts(n);
    NodeTypesBelowShape(n, NodeCount(n));
    EdgeTypesBelowShape(n, NodeCount(n));
    forall r, x | (r, x) in GeneratedEdgeTypes(n)
      ensures 0 <= x < n
    {
      PlayersAtShape(n, r);
    }
  }

  /** There are `n * (n - 1)` parentships and `n * (n - 1) / 2` siblingships. */
  lemma RelationCounts(n: nat)
    ensures |Permutations(n)| == n * (n - 1)
    ensures |Combinations(n)| == n * (n - 1) / 2
  {
    PermutationsShape(n);
    CombinationsShape(n);
  }

  /** The role-players of a relation node are two distinct people, and in
      increasing order for a siblingship. */
  lemma PlayersAtShape(n: nat, r: int)
    requires n <= r < NodeCount(n)
    ensures var (a, b) := PlayersAt(n, r);
      && 0 <= a < n && 0 <= b < n && a != b
      && (n + |Permutations(n)| <= r ==> a < b)
  {
    if r < n + |Permutations(n)| {
      PermutationsShape(n);
      assert Permutations(n)[r - n] in Permutations(n);
    } else {
      CombinationsShape(n);
      assert Combinations(n)[r - n - |Permutations(n)|] in Combinations(n);
    }
  }

  /** With fewer than two people there are no relation nodes at all. */
  lemma NoRelationsBelowTwo(n: nat)
    requires n < 2
    ensures forall id :: id in GeneratedNodeTypes(n) <==> 0 <= id < n
    ensures GeneratedEdgeTypes(n) == map[]
  {
    NodeLayout(n);
  }

  /** Every relation node has out-degree exactly two, to the two distinct
      people it was created for, with roles `parent`/`child` for a parentship
      and `sibling`/`sibling` for a siblingship. */
  lemma RelationEdges(n: nat, r: int)
    requires n <= r < NodeCount(n)
    ensures r in GeneratedNodeTypes(n) && GeneratedNodeTypes(n)[r] == TypeAt(n, r) != Person
    ensures var (a, b) := PlayersAt(n, r);
      && 0 <= a < n && 0 <= b < n && a != b
      && (forall x :: (r, x) in GeneratedEdgeTypes(n) <==> x == a || x == b)
      && (GeneratedNodeTypes(n)[r] == Parentship ==>
            && (a, b) == Permutations(n)[r - n]
            && GeneratedEdgeTypes(n)[(r, a)] == Parent
            && GeneratedEdgeTypes(n)[(r, b)] == Child)
      && (GeneratedNodeTypes(n)[r] == Siblingship ==>
            && (a, b) == Combinations(n)[r - n - |Permutations(n)|]
            && a < b
            && GeneratedEdgeTypes(n)[(r, a)] == Sibling
            && GeneratedEdgeTypes(n)[(r, b)] == Sibling)
  {
    NodeTypesBelowShape(n, NodeCount(n));
    EdgeTypesBelowShape(n, NodeCount(n));
    PlayersAtShape(n, r);
  }

  /** On a generated graph, a parentship lookup for two distinct people finds
      exactly the node created for that ordered pair, and that node exists. */
  lemma ParentshipLookup(n: nat, a: int, b: int)
    requires 0 <= a < n && 0 <= b < n && a != b
    ensures forall r :: Matches(GeneratedNodeTypes(n), GeneratedEdgeTypes(n), Parentship, (Parent, Child), (a, b), r)
                        <==> n <= r < n + |Permutations(n)| && Permutations(n)[r - n] == (a, b)
    ensures exists r :: Matches(GeneratedNodeTypes(n), GeneratedEdgeTypes(n), Parentship, (Parent, Child), (a, b), r)
    ensures forall r1, r2 ::
              Matches(GeneratedNodeTypes(n), GeneratedEdgeTypes(n), Parentship, (Parent, Child), (a, b), r1) &&
              Matches(GeneratedNodeTypes(n), GeneratedEdgeTypes(n), Parentship, (Parent, Child), (a, b), r2)
              ==> r1 == r2
  {
    var nodes, edges, ps := GeneratedNodeTypes(n), GeneratedEdgeTypes(n), Permutations(n);
    forall r ensures Matches(nodes, edges, Parentship, (Parent, Child), (a, b), r)
                     <==> n <= r < n + |ps| && ps[r - n] == (a, b)
    {
      ParentshipMatch(n, a, b, r);
    }
    PermutationsShape(n);
    assert (a, b) in ps;
    var i :| 0 <= i < |ps| && ps[i] == (a, b);
    assert ps[(n + i) - n] == (a, b);
    RelationCounts(n);
    assert Matches(nodes, edges, Parentship, (Parent, Child), (a, b), n + i);
  }

  /** Node `r` matches a parentship request for two distinct people exactly
      when it was created for that ordered pair. */
  lemma ParentshipMatch(n: nat, a: int, b: int, r: int)
    requires 0 <= a < n && 0 <= b < n && a != b
    ensures Matches(GeneratedNodeTypes(n), GeneratedEdgeTypes(n), Parentship, (Parent, Child), (a, b), r)
            <==> n <= r < n + |Permutations(n)| && Permutations(n)[r - n] == (a, b)
  {
    if n <= r < NodeCount(n) {
      RelationEdges(n, r);
    } else {
      NodeLayout(n);
    }
  }

  /** Node `r` matches a siblingship request for two distinct people exactly
      when it was created for the sorted pair of them. */
  lemma SiblingshipMatch(n: nat, a: int, b: int, r: int)
    requires 0 <= a < n && 0 <= b < n && a != b
    ensures Matches(GeneratedNodeTypes(n), GeneratedEdgeTypes(n), Siblingship, (Sibling, Sibling), (a, b), r)
            <==> && n + |Permutations(n)| <= r < NodeCount(n)
                 && Combinations(n)[r - n - |Permutations(n)|] == (if a < b then (a, b) else (b, a))
  {
    if n <= r < NodeCount(n) {
      RelationEdges(n, r);
    } else {
      NodeLayout(n);
    }
  }

  /** On a generated graph, a siblingship lookup for two distinct people finds
      exactly the node created for that unordered pair, whichever order the
      people are given in, and that node exists. */
  lemma SiblingshipLookup(n: nat, a: int, b: int)
    requires 0 <= a < n && 0 <= b < n && a != b
    ensures forall r :: Matches(GeneratedNodeTypes(n), GeneratedEdgeTypes(n), Siblingship, (Sibling, Sibling), (a, b), r)
                        <==> && n + |Permutations(n)| <= r < NodeCount(n)
                             && Combinations(n)[r - n - |Permutations(n)|] == (if a < b then (a, b) else (b, a))
    ensures forall r :: Matches(GeneratedNodeTypes(n), GeneratedEdgeTypes(n), Siblingship, (Sibling, Sibling), (a, b), r)
                        <==> Matches(GeneratedNodeTypes(n), GeneratedEdgeTypes(n), Siblingship, (Sibling, Sibling), (b, a), r)
    ensures exists r :: Matches(GeneratedNodeTypes(n), GeneratedEdgeTypes(n), Siblingship, (Sibling, Sibling), (a, b), r)
    ensures forall r1, r2 ::
              Matches(GeneratedNodeTypes(n), GeneratedEdgeTypes(n), Siblingship, (Sibling, Sibling), (a, b), r1) &&
              Matches(GeneratedNodeTypes(n), GeneratedEdgeTypes(n), Siblingship, (Sibling, Sibling), (a, b), r2)
              ==> r1 == r2
  {
    var nodes, edges, ps, cs := GeneratedNodeTypes(n), GeneratedEdgeTypes(n), Permutations(n), Combinations(n);
    var pair := if a < b then (a, b) else (b, a);
    forall r ensures Matches(nodes, edges, Siblingship, (Sibling, Sibling), (a, b), r)
                     <==> n + |ps| <= r < NodeCount(n) && cs[r - n - |ps|] == pair
    {
      SiblingshipMatch(n, a, b, r);
    }
    forall r ensures Matches(nodes, edges, Siblingship, (Sibling, Sibling), (b, a), r)
                     <==> n + |ps| <= r < NodeCount(n) && cs[r - n - |ps|] == pair
    {
      SiblingshipMatch(n, b, a, r);
    }
    CombinationsShape(n);
    assert pair in cs;
    var i :| 0 <= i < |cs| && cs[i] == pair;
    NodeLayout(n);
    assert cs[(n + |ps| + i) - n - |ps|] == pair;
    assert Matches(nodes, edges, Siblingship, (Sibling, Sibling), (a, b), n + |ps| + i);
  }

  /** Every request `add_parentship` or `add_siblingship` makes for two
      distinct people of a generated graph has exactly one matching node. */
  lemma LocateUnique(n: nat, relation: NodeType, roles: (Role, Role), players: (int, int))
    requires Locatable(n, relation, roles, players)
    ensures exists r :: Matches(GeneratedNodeTypes(n), GeneratedEdgeTypes(n), relation, roles, players, r)
    ensures forall r1, r2 ::
              Matches(GeneratedNodeTypes(n), GeneratedEdgeTypes(n), relation, roles, players, r1) &&
              Matches(GeneratedNodeTypes(n), GeneratedEdgeTypes(n), relation, roles, players, r2)
              ==> r1 == r2
  {
    if relation == Parentship {
      ParentshipLookup(n, players.0, players.1);
    } else {
      SiblingshipLookup(n, players.0, players.1);
    }
  }

  /** The node a locatable request finds on `generate_graph(n)`. */
  ghost function RelationNode(n: nat, relation: NodeType, roles: (Role, Role), players: (int, int)): (r: int)
    requires Locatable(n, relation, roles, players)
    ensures Matches(GeneratedNodeTypes(n), GeneratedEdgeTypes(n), relation, roles, players, r)
  {
    LocateUnique(n, relation, roles, players);
    var r :| Matches(GeneratedNodeTypes(n), GeneratedEdgeTypes(n), relation, roles, players, r);
    r
  }

  /** The nodes below `bound` are `bound` many: `len(G.nodes)` while generating. */
  lemma {:induction false} NodeTypesBelowSize(n: nat, bound: nat)
    requires bound <= NodeCount(n)
    ensures |NodeTypesBelow(n, bound)| == bound
  {
    if bound > 0 {
      NodeTypesBelowSize(n, bound - 1);
      NodeTypesBelowShape(n, bound - 1);
    }
  }

  /** No edge leaves a person. */
  lemma EdgeTypesOfPeople(n: nat, bound: int)
    requires bound <= n
    ensures EdgeTypesBelow(n, bound) == map[]
  {
  }

  /** Creating parentship node `r`, the `(r - lastId)`-th, for the pair
      `(a, b)` of that permutation: one node typed `parentship`, an edge to
      `a` typed `parent` and one to `b` typed `child`. */
  lemma ParentshipStep(n: nat, lastId: int, r: int)
    requires lastId == n <= r < lastId + |Permutations(n)|
    ensures r + 1 <= NodeCount(n)
    ensures NodeTypesBelow(n, r + 1) == NodeTypesBelow(n, r)[r := Parentship]
    ensures var (a, b) := Permutations(n)[r - lastId];
      EdgeTypesBelow(n, r + 1) == EdgeTypesBelow(n, r)[(r, a) := Parent][(r, b) := Child]
  {
    PlayersAtShape(n, r);
  }

  /** Creating siblingship node `r`, the `(r - lastId)`-th, for the pair
      `(a, b)` of that combination: one node typed `siblingship` and two
      edges typed `sibling`. */
  lemma SiblingshipStep(n: nat, lastId: int, r: int)
    requires lastId == n + |Permutations(n)| <= r < lastId + |Combinations(n)|
    ensures r + 1 <= NodeCount(n)
    ensures NodeTypesBelow(n, r + 1) == NodeTypesBelow(n, r)[r := Siblingship]
    ensures var (a, b) := Combinations(n)[r - lastId];
      EdgeTypesBelow(n, r + 1) == EdgeTypesBelow(n, r)[(r, a) := Sibling][(r, b) := Sibling]
  {
  }
}
