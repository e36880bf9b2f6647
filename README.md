# Kinship graphs of `experiment/data.py`, in Dafny

This project models the synthetic kinship graphs of `experiment/data.py`
(typedb-ml) and proves what they look like:

- `generate_graph(n)` builds `n` people (ids `0 .. n-1`). It then adds one
  `parentship` node per ordered pair of distinct people, in
  `itertools.permutations` order, with a `parent` and a `child` edge. Last come
  one `siblingship` node per pair `a < b`, in `itertools.combinations` order,
  each with two `sibling` edges.
- `add_base_labels` writes each named 0/1 attribute. It writes 1 on people and
  0 on every other node and on every edge.
- `find_relation_node` searches the common predecessors of two role-players
  for a node of the requested type whose two edges carry the requested roles.
- `add_relation_label` sets the named attributes to 1 on the node found and on
  its edges to both role-players. `add_parentship` and `add_siblingship` are
  that call with the type and roles fixed.
- `create_graph(i)` is a table of labelled scenarios, and `create_graphs_tuple`
  builds ten of them.

Module layout:

- `Itertools` holds the two pair enumerations.
- `Layout` is the declarative shape of a generated graph: the type of every
  id, the role of every edge, and the lookup predicate with its totality and
  uniqueness.
- `Labels` holds the attribute dictionaries and the two labelling updates as
  functions.
- `Data` holds the graph itself. `Data.Graph` is a class with four maps: node
  types, edge types, node attributes and edge attributes. Its methods build and
  label the graph in place, with loops proved against `Layout` and `Labels`.
- `Catalogue` holds the scenarios as data, together with the truth values each
  scenario should carry. It runs the scenarios' calls on a real `Data.Graph`
  and proves the result carries exactly those values.

`Wrappers` holds `Option`, `Result` and `Outcome`.

Errors are values:

- `G.predecessors` of an absent node raises. This is
  `Failure(NodeNotInGraph(id))`, or `Fail(NodeNotInGraph(id))` from
  `add_relation_label`.
- Writing to `G.nodes[None]` when no relation matched raises `KeyError`. This
  is `Fail(MissingRelation)`.

When the error is raised, no dictionary has been written yet, so a failed call
changes nothing.

`add_siblingship(G, a, a, ...)` is not refused. With two or more people, every
siblingship of `a` matches the request, so the call labels one of them. Which
one depends on set iteration order (`Data.SelfSiblingshipFound`). In contrast,
`add_parentship(G, a, a, ...)` never finds a node (`Data.SelfParentshipMissing`).

## Model

| member | source | states |
|---|---|---|
| Itertools.PermutationsShape | experiment/data.py:46 | `permutations(range(n), 2)` lists exactly the `n*(n-1)` ordered pairs of distinct people, in lexicographic order, each once |
| Itertools.CombinationsShape | experiment/data.py:54 | `combinations(range(n), 2)` lists exactly the `n*(n-1)/2` pairs `a < b`, in lexicographic order, each once |
| Layout.NodeLayout | experiment/data.py:27-60 | the generated graph has `n + n*(n-1) + n*(n-1)/2` nodes with consecutive ids from 0; people are exactly ids below `n`, then parentships, then siblingships; every edge goes from a relation node to a person |
| Layout.RelationCounts | experiment/data.py:45-58 | there are `n*(n-1)` parentship nodes and `n*(n-1)/2` siblingship nodes |
| Layout.NoRelationsBelowTwo | experiment/data.py:43-58 | with fewer than two people the graph has only the people and no edge |
| Layout.RelationEdges | experiment/data.py:45-58 | every relation node has exactly two out-edges, to two distinct people; a parentship for permutation `(a,b)` has `a` as parent and `b` as child; a siblingship for combination `(a,b)` has `a < b` and two sibling edges |
| Layout.PlayersAtShape | experiment/data.py:46-58 | the pair a relation node was created for is two distinct people, sorted for a siblingship |
| Layout.NodeTypesBelowShape | experiment/data.py:43-58 | the node types added below a given id are exactly the ids below it, each with the type its range gives |
| Layout.EdgeTypesBelowShape | experiment/data.py:45-58 | the edges added below a given id are exactly those from each relation node to its two people, with the role the relation gives |
| Layout.NodeTypesBelowSize | experiment/data.py:45-52 | `len(G.nodes)` after adding the nodes below an id is that id, which is what `last_id` reads |
| Layout.EdgeTypesOfPeople | experiment/data.py:43 | adding the people adds no edge |
| Layout.ParentshipStep | experiment/data.py:46-50 | one iteration of the parentship loop adds node `last_id + i` typed parentship and its parent and child edges for permutation `i` |
| Layout.SiblingshipStep | experiment/data.py:54-58 | one iteration of the siblingship loop adds node `last_id + i` typed siblingship and its two sibling edges for combination `i` |
| Layout.ParentshipMatch | experiment/data.py:84-90 | a node matches a parentship request for distinct `a, b` if and only if it was created for the ordered pair `(a, b)` |
| Layout.SiblingshipMatch | experiment/data.py:84-90 | a node matches a siblingship request for distinct `a, b` if and only if it was created for the sorted pair of them |
| Layout.ParentshipLookup | experiment/data.py:84-90 | a parentship request for distinct people is matched by exactly one node |
| Layout.SiblingshipLookup | experiment/data.py:84-90 | a siblingship request for distinct people is matched by exactly one node, and the same one whichever order the people are given in |
| Layout.LocateUnique | experiment/data.py:101-106 | every request `add_parentship` or `add_siblingship` makes for distinct people of the graph has exactly one matching node |
| Layout.RelationNode | experiment/data.py:84-90 | names the matching node of such a request |
| Labels.BaseLabelValues | experiment/data.py:63-81 | base labelling writes 1 on people and 0 on other nodes and every edge, for every named attribute; attributes not named keep their values on every node and edge; the node and edge sets stay as they were |
| Labels.BaseLabelsIdempotent | experiment/data.py:63-81 | base labelling twice with the same attributes equals base labelling once |
| Labels.BaseLabelsUndoRelationLabel | experiment/data.py:63-98 | base labelling after a relation labelling with some of the same attributes gives the state base labelling alone gives |
| Labels.RelationLabelEffect | experiment/data.py:93-98 | relation labelling sets each named attribute to 1 on the node and both role edges, and leaves every other node and edge as it was |
| Labels.RelationLabelStep | experiment/data.py:95-98 | one more pass of the label loop sets that label on the node and both role edges |
| Labels.AssignedStep | experiment/data.py:76-77 | writing one more attribute extends the dictionary by that key |
| Labels.AssignedOverwrites | experiment/data.py:76-81 | writing the same attributes again changes nothing, and the result ignores the old values of what it writes |
| Labels.AssignedAbsorbs | experiment/data.py:76-98 | a later write of a superset of attributes hides an earlier write |
| Data.LabelledOnGenerated | experiment/data.py:93-106 | on a generated graph, a request for distinct people succeeds and labels the one matching node and its two role edges |
| Data.SelfParentshipMissing | experiment/data.py:84-102 | `add_parentship(G, a, a, ...)` finds nothing; it fails exactly when there is an attribute to write, and otherwise changes nothing |
| Data.SelfSiblingshipFound | experiment/data.py:84-106 | `add_siblingship(G, a, a, ...)` with two or more people succeeds and labels a siblingship of `a` |
| Data.Graph.Generate | experiment/data.py:27-60 | the constructed graph has the declarative node and edge types of `Layout` and empty attribute dictionaries |
| Data.Graph.AddPeople | experiment/data.py:43 | adds the people with type person and no edge |
| Data.Graph.AddRelationNode | experiment/data.py:48-50 | adds one relation node and its two typed edges |
| Data.Graph.AddParentships | experiment/data.py:45-50 | the parentship loop leaves the types of all nodes below `n + n*(n-1)` |
| Data.Graph.AddSiblingships | experiment/data.py:52-58 | the siblingship loop completes the generated graph |
| Data.Graph.AddBaseLabels | experiment/data.py:63-81 | the new dictionaries are the base labelling of the old ones; the types are untouched |
| Data.Graph.AddBaseNodeLabels | experiment/data.py:70-77 | the node loop, in any order, gives the base labelling of the nodes |
| Data.Graph.AddBaseEdgeLabels | experiment/data.py:79-81 | the edge loop, in any order, gives the base labelling of the edges |
| Data.Graph.AssignNode | experiment/data.py:76-77 | writes the attributes of one node and no other |
| Data.Graph.AssignEdge | experiment/data.py:80-81 | writes the attributes of one edge and no other |
| Data.Graph.Predecessors | experiment/data.py:85 | the predecessors of `x` are exactly the sources of the edges into `x` |
| Data.Graph.FindRelationNode | experiment/data.py:84-90 | fails for an absent role-player; otherwise a node it returns matches the request, and it returns `None` only when no node matches |
| Data.Graph.AddRelationLabel | experiment/data.py:93-98 | the lookup's outcome as above; it fails with a missing relation exactly when nothing matched and there is an attribute to write; it labels the node found and its two role edges and nothing else; a failure changes nothing |
| Data.Graph.SetRelationLabel | experiment/data.py:96-98 | one label set to 1 on the node and its two role edges |
| Data.Graph.AddParentship | experiment/data.py:101-102 | `add_relation_label` with type parentship and roles parent, child |
| Data.Graph.AddSiblingship | experiment/data.py:105-106 | `add_relation_label` with type siblingship and roles sibling, sibling |
| Catalogue.Scenario | experiment/data.py:109-214 | there is a scenario for exactly the indices 0 to 12 except 4; every call names two distinct people of its graph; scenarios 0 to 3 have three people and the rest four |
| Catalogue.BaseScenario | experiment/data.py:113-116 | the base graph carries the truth values of a scenario with no call yet |
| Catalogue.NodeCallStep | experiment/data.py:101-106 | one call turns the node truth values before it into those after it |
| Catalogue.EdgeCallStep | experiment/data.py:101-106 | one call turns the edge truth values before it into those after it |
| Catalogue.MentionedLockstep | experiment/data.py:96-98 | a call labels an edge exactly when it labels the relation node the edge leaves |
| Catalogue.Lockstep | experiment/data.py:93-98 | in every scenario each edge carries the same `input` and `solution` values as its relation node |
| Catalogue.MentionedSomewhere | experiment/data.py:93-106 | a relation node carries a label exactly when some call writes that label and finds that node |
| Catalogue.NodeAttrsAt | experiment/data.py:109-214 | every node has a dictionary holding its two truth values |
| Catalogue.ThreePeople | experiment/data.py:46-54 | the pairs of three people, in `itertools` order |
| Catalogue.Scenario0Nodes | experiment/data.py:122-124 | on three people, parentship `(0,1)` is node 3, parentship `(0,2)` node 4, siblingship `(1,2)` node 11 |
| Catalogue.Scenario0Located | experiment/data.py:120-124 | the three calls of scenario 0 find nodes 3, 4 and 11 |
| Catalogue.Scenario0Truth | experiment/data.py:120-124 | the truth value of each node of scenario 0 for each label |
| Catalogue.Scenario0NodeAttrs | experiment/data.py:120-124 | the node dictionaries of scenario 0: people and nodes 3, 4 read 1 for both labels; node 11 reads `input` 0 and `solution` 1; all others 0 |
| Catalogue.Scenario0Attrs | experiment/data.py:120-124 | as above, and the two edges of node 11 read `input` 0 and `solution` 1 |
| Catalogue.Scenario0Labels | experiment/data.py:120-124 | scenario 0 of `create_graph` has three people and the truth values above |
| Catalogue.BaseGraph | experiment/data.py:113-116 | a fresh generated graph labelled as the scenario with no call |
| Catalogue.Build | experiment/data.py:113-214 | running a scenario's calls in order gives the scenario's truth values |
| Catalogue.Apply | experiment/data.py:101-106 | one call of a scenario on its graph moves it from the truth values before the call to those after |
| Catalogue.CreateGraph | experiment/data.py:109-214 | `None` for an index without a scenario, else a fresh graph built as that scenario |
| Catalogue.TupleScenariosExist | experiment/data.py:217-218 | all ten indices of the tuple have a scenario |
| Catalogue.CreateGraphs | experiment/data.py:218 | one `create_graph` result per index, in order; every graph is a new object, distinct from the others |
| Catalogue.CreateGraphsTuple | experiment/data.py:217-218 | ten graphs, none `None`, the `k`-th built as scenario `[0,1,2,3,5,6,7,8,9,10][k]`; ten distinct new objects, so labelling one leaves the others alone |

## Left out

- Plotting: the `experiment.plotting` import and the `__main__` block (experiment/data.py:24, 221-223) are visualisation I/O.
- networkx: a `DiGraph` is four maps. The `type` entry is kept apart from the 0/1 attributes, which is safe because no scenario writes an attribute called `type`. Attribute names are the two the scenarios use, `input` and `solution`.
- Data.Graph.FindRelationNode: Python's set iteration order is not modelled. The method picks any candidate, so when several nodes match (only `add_siblingship(G, a, a, ...)` on a generated graph), the model does not say which one is found.
- Data.Graph.AddBaseNodeLabels: the order of `G.nodes` and `G.edges` is an arbitrary choice in the model. The result does not depend on it.
- Catalogue.Scenario: the `if`/`elif` chain of `create_graph` is a table of call lists, run by one loop (`Catalogue.Build`). Scenarios 5 and 6, and 10 and 11, have identical calls in the source and share an entry.
- Catalogue.Scenario0Labels: concrete truth values are proved for scenario 0 only. Every other scenario is covered by the general `Catalogue.CreateGraph` contract, which gives the declarative truth values of its call list.
- Catalogue.CreateGraphsTuple: the Python tuple is a sequence.
- kglib/kgcn/models/model.py and kglib/kgcn_experimental/encode.py are not part of this model: TensorFlow and numpy glue over floating point.
