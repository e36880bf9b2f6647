/** The 0/1 truth attributes that `add_base_labels` and `add_relation_label`
    write into the attribute dictionaries of nodes and edges. */
module Labels {
  import opened Layout

  /** The attribute names the scenarios use: `'input'` and `'solution'`. */
  datatype Label = Input | Solution

  type Bit = b: int | 0 <= b <= 1

  /** An attribute dictionary, without its `type` entry. */
  type Attrs = map<Label, Bit>

  /** The dictionary after `attrs[l] = v` for every `l` in `labels`. */
  function Assigned(attrs: Attrs, labels: seq<Label>, v: Bit): Attrs {
    map l | l in attrs || l in labels :: if l in labels then v else attrs[l]
  }

  /** The node dictionaries after `add_base_labels`: 1 on people, 0 elsewhere. */
  function BaseNodeAttrs(nodeType: map<int, NodeType>, nodeAttrs: map<int, Attrs>, labels: seq<Label>): map<int, Attrs>
    requires nodeAttrs.Keys <= nodeType.Keys
  {
    map id | id in nodeAttrs :: Assigned(nodeAttrs[id], labels, if nodeType[id] == Person then 1 else 0)
  }

  /** The edge dictionaries after `add_base_labels`: 0 everywhere. */
  function BaseEdgeAttrs(edgeAttrs: map<(int, int), Attrs>, labels: seq<Label>): map<(int, int), Attrs> {
    map e | e in edgeAttrs :: Assigned(edgeAttrs[e], labels, 0)
  }

  /** The node dictionaries after `add_relation_label` found relation node `r`. */
  function LabelRelation(nodeAttrs: map<int, Attrs>, r: int, labels: seq<Label>): map<int, Attrs>
    requires r in nodeAttrs
  {
    nodeAttrs[r := Assigned(nodeAttrs[r], labels, 1)]
  }

  /** The edge dictionaries after `add_relation_label` found relation node `r`:
      its edges to both role-players are labelled. */
  function LabelRoleEdges(edgeAttrs: map<(int, int), Attrs>, r: int, players: (int, int), labels: seq<Label>)
    : map<(int, int), Attrs>
    requires (r, players.0) in edgeAttrs && (r, players.1) in edgeAttrs
  {
    edgeAttrs[(r, players.0) := Assigned(edgeAttrs[(r, players.0)], labels, 1)]
             [(r, players.1) := Assigned(edgeAttrs[(r, players.1)], labels, 1)]
  }

  /** Assigning no labels leaves the dictionary as it was. */
  lemma AssignedNothing(attrs: Attrs, labels: seq<Label>, v: Bit)
    ensures Assigned(attrs, labels[..0], v) == attrs
  {
    assert labels[..0] == [];
  }

  /** Assigning one more attribute extends the assignment of a prefix. */
  lemma AssignedStep(attrs: Attrs, labels: seq<Label>, j: nat, v: Bit)
    requires j < |labels|
    ensures Assigned(attrs, labels[..j + 1], v) == Assigned(attrs, labels[..j], v)[labels[j] := v]
  {
    assert labels[..j + 1] == labels[..j] + [labels[j]];
  }

  /** Assigning the same labels twice is assigning them once; and the result
      does not depend on what the dictionary held for those labels before. */
  lemma AssignedOverwrites(attrs1: Attrs, attrs2: Attrs, labels: seq<Label>, v: Bit)
    requires forall l :: l !in labels ==> (l in attrs1 <==> l in attrs2)
    requires forall l :: l !in labels && l in attrs1 ==> attrs1[l] == attrs2[l]
    ensures Assigned(attrs1, labels, v) == Assigned(attrs2, labels, v)
    ensures Assigned(Assigned(attrs1, labels, v), labels, v) == Assigned(attrs1, labels, v)
  {
  }

  /** After `add_base_labels(G, *labels)` every named attribute reads 1 on a
      person and 0 on any other node and on every edge; other attributes and
      the node and edge sets are untouched. */
  lemma BaseLabelValues(nodeType: map<int, NodeType>, nodeAttrs: map<int, Attrs>,
                        edgeAttrs: map<(int, int), Attrs>, labels: seq<Label>)
    requires nodeAttrs.Keys <= nodeType.Keys
    ensures BaseNodeAttrs(nodeType, nodeAttrs, labels).Keys == nodeAttrs.Keys
    ensures BaseEdgeAttrs(edgeAttrs, labels).Keys == edgeAttrs.Keys
    ensures forall id, l :: id in nodeAttrs && l in labels ==>
              && l in BaseNodeAttrs(nodeType, nodeAttrs, labels)[id]
              && BaseNodeAttrs(nodeType, nodeAttrs, labels)[id][l] == if nodeType[id] == Person then 1 else 0
    ensures forall e, l :: e in edgeAttrs && l in labels ==>
              l in BaseEdgeAttrs(edgeAttrs, labels)[e] && BaseEdgeAttrs(edgeAttrs, labels)[e][l] == 0
    ensures forall id, l :: id in nodeAttrs && l !in labels ==>
              && (l in BaseNodeAttrs(nodeType, nodeAttrs, labels)[id] <==> l in nodeAttrs[id])
              && (l in nodeAttrs[id] ==> BaseNodeAttrs(nodeType, nodeAttrs, labels)[id][l] == nodeAttrs[id][l])
    ensures forall e, l :: e in edgeAttrs && l !in labels ==>
              && (l in BaseEdgeAttrs(edgeAttrs, labels)[e] <==> l in edgeAttrs[e])
              && (l in edgeAttrs[e] ==> BaseEdgeAttrs(edgeAttrs, labels)[e][l] == edgeAttrs[e][l])
  {
  }

  /** Running `add_base_labels` twice with the same labels gives the state
      that running it once gives. */
  lemma BaseLabelsIdempotent(nodeType: map<int, NodeType>, nodeAttrs: map<int, Attrs>,
                             edgeAttrs: map<(int, int), Attrs>, labels: seq<Label>)
    requires nodeAttrs.Keys <= nodeType.Keys
    ensures BaseNodeAttrs(nodeType, BaseNodeAttrs(nodeType, nodeAttrs, labels), labels)
            == BaseNodeAttrs(nodeType, nodeAttrs, labels)
    ensures BaseEdgeAttrs(BaseEdgeAttrs(edgeAttrs, labels), labels) == BaseEdgeAttrs(edgeAttrs, labels)
  {
    var once := BaseNodeAttrs(nodeType, nodeAttrs, labels);
    forall id | id in once
      ensures BaseNodeAttrs(nodeType, once, labels)[id] == once[id]
    {
      AssignedOverwrites(nodeAttrs[id], nodeAttrs[id], labels, if nodeType[id] == Person then 1 else 0);
    }
    var onceE := BaseEdgeAttrs(edgeAttrs, labels);
    forall e | e in onceE
      ensures BaseEdgeAttrs(onceE, labels)[e] == onceE[e]
    {
      AssignedOverwrites(edgeAttrs[e], edgeAttrs[e], labels, 0);
    }
  }

  /** `add_base_labels` resets whatever an earlier `add_relation_label` with
      some of the same labels wrote: the result is as if it never ran. */
  lemma BaseLabelsUndoRelationLabel(nodeType: map<int, NodeType>, nodeAttrs: map<int, Attrs>,
                                    edgeAttrs: map<(int, int), Attrs>, r: int, players: (int, int),
                                    earlier: seq<Label>, labels: seq<Label>)
    requires nodeAttrs.Keys <= nodeType.Keys
    requires r in nodeAttrs && (r, players.0) in edgeAttrs && (r, players.1) in edgeAttrs
    requires forall l :: l in earlier ==> l in labels
    ensures BaseNodeAttrs(nodeType, LabelRelation(nodeAttrs, r, earlier), labels)
            == BaseNodeAttrs(nodeType, nodeAttrs, labels)
    ensures BaseEdgeAttrs(LabelRoleEdges(edgeAttrs, r, players, earlier), labels)
            == BaseEdgeAttrs(edgeAttrs, labels)
  {
    NodeLabelUndone(nodeType, nodeAttrs, r, earlier, labels);
    EdgeLabelsUndone(edgeAttrs, r, players, earlier, labels);
  }

  /** The node half of `BaseLabelsUndoRelationLabel`. */
  lemma NodeLabelUndone(nodeType: map<int, NodeType>, nodeAttrs: map<int, Attrs>, r: int,
                        earlier: seq<Label>, labels: seq<Label>)
    requires nodeAttrs.Keys <= nodeType.Keys && r in nodeAttrs
    requires forall l :: l in earlier ==> l in labels
    ensures BaseNodeAttrs(nodeType, LabelRelation(nodeAttrs, r, earlier), labels)
            == BaseNodeAttrs(nodeType, nodeAttrs, labels)
  {
    var after := LabelRelation(nodeAttrs, r, earlier);
    forall id | id in nodeAttrs
      ensures BaseNodeAttrs(nodeType, after, labels)[id] == BaseNodeAttrs(nodeType, nodeAttrs, labels)[id]
    {
      AssignedAbsorbs(nodeAttrs[id], earlier, labels, 1, if nodeType[id] == Person then 1 else 0);
    }
  }

  /** The edge half of `BaseLabelsUndoRelationLabel`. */
  lemma EdgeLabelsUndone(edgeAttrs: map<(int, int), Attrs>, r: int, players: (int, int),
                         earlier: seq<Label>, labels: seq<Label>)
    requires (r, players.0) in edgeAttrs && (r, players.1) in edgeAttrs
    requires forall l :: l in earlier ==> l in labels
    ensures BaseEdgeAttrs(LabelRoleEdges(edgeAttrs, r, players, earlier), labels)
            == BaseEdgeAttrs(edgeAttrs, labels)
  {
    var after := LabelRoleEdges(edgeAttrs, r, players, earlier);
    forall e | e in edgeAttrs
      ensures BaseEdgeAttrs(after, labels)[e] == BaseEdgeAttrs(edgeAttrs, labels)[e]
    {
      if e == (r, players.0) || e == (r, players.1) {
        assert after[e] == Assigned(edgeAttrs[e], earlier, 1);
        AssignedAbsorbs(edgeAttrs[e], earlier, labels, 1, 0);
      }
    }
  }

  /** Assigning a superset of the labels afterwards hides the earlier
      assignment. */
  lemma AssignedAbsorbs(attrs: Attrs, earlier: seq<Label>, labels: seq<Label>, w: Bit, v: Bit)
    requires forall l :: l in earlier ==> l in labels
    ensures Assigned(Assigned(attrs, earlier, w), labels, v) == Assigned(attrs, labels, v)
  {
  }

  /** `add_relation_label` sets each named attribute to 1 on the relation node
      and on its two role edges, and changes no other node or edge. */
  lemma RelationLabelEffect(nodeAttrs: map<int, Attrs>, edgeAttrs: map<(int, int), Attrs>,
                            r: int, players: (int, int), labels: seq<Label>)
    requires r in nodeAttrs && (r, players.0) in edgeAttrs && (r, players.1) in edgeAttrs
    ensures LabelRelation(nodeAttrs, r, labels).Keys == nodeAttrs.Keys
    ensures LabelRoleEdges(edgeAttrs, r, players, labels).Keys == edgeAttrs.Keys
    ensures forall l :: l in labels ==>
              && LabelRelation(nodeAttrs, r, labels)[r][l] == 1
              && LabelRoleEdges(edgeAttrs, r, players, labels)[(r, players.0)][l] == 1
              && LabelRoleEdges(edgeAttrs, r, players, labels)[(r, players.1)][l] == 1
    ensures forall id :: id in nodeAttrs && id != r ==> LabelRelation(nodeAttrs, r, labels)[id] == nodeAttrs[id]
    ensures forall e :: e in edgeAttrs && e != (r, players.0) && e != (r, players.1) ==>
              LabelRoleEdges(edgeAttrs, r, players, labels)[e] == edgeAttrs[e]
  {
  }

  /** One more label of `add_relation_label`'s loop: the relation node and
      its two role edges each get that label set to 1. */
  lemma RelationLabelStep(nodeAttrs: map<int, Attrs>, edgeAttrs: map<(int, int), Attrs>,
                          r: int, players: (int, int), labels: seq<Label>, j: nat)
    requires r in nodeAttrs && (r, players.0) in edgeAttrs && (r, players.1) in edgeAttrs
    requires j < |labels|
    ensures var n := LabelRelation(nodeAttrs, r, labels[..j]);
      LabelRelation(nodeAttrs, r, labels[..j + 1]) == n[r := n[r][labels[j] := 1]]
    ensures var e := LabelRoleEdges(edgeAttrs, r, players, labels[..j]);
      var e1 := e[(r, players.0) := e[(r, players.0)][labels[j] := 1]];
      LabelRoleEdges(edgeAttrs, r, players, labels[..j + 1]) == e1[(r, players.1) := e1[(r, players.1)][labels[j] := 1]]
  {
    AssignedStep(nodeAttrs[r], labels, j, 1);
    AssignedStep(edgeAttrs[(r, players.0)], labels, j, 1);
    AssignedStep(edgeAttrs[(r, players.1)], labels, j, 1);
    if players.0 == players.1 {
      var a := Assigned(edgeAttrs[(r, players.0)], labels[..j], 1)[labels[j] := 1];
      assert a[labels[j] := 1] == a;
    }
  }
}
