/**
 * The transformer around the selected shapes: which shapes it holds, when it is shown, and the
 * snapshot a drag or transform gesture takes at its start and records as one `changeNode` action
 * at its end.  Drags and transforms run the same two handlers.
 */
module KonvaTransformer {
  import opened Common
  import opened Seqs
  import opened History
  import opened KonvaEditor

  /** The transformer: its nodes' attributes, whether it is shown, and the gesture's snapshot. */
  class Transformer {
    var nodes: seq<Node>
    var visible: bool
    var dragData: Option<seq<Node>>

    constructor ()
      ensures nodes == [] && visible && dragData.None?
    {
      nodes, visible, dragData := [], true, None;
    }

    /** The effect on the cursor: hidden in expand and pen mode, shown otherwise. */
    method ShowForCursor(c: Cursor)
      modifies this
      ensures visible <==> c != Expand && c != Pen
      ensures nodes == old(nodes) && dragData == old(dragData)
    {
      if c == Expand || c == Pen {
        visible := false;
      } else {
        visible := true;
      }
    }

    /** The effect on the selection: the nodes become the selected ids' shapes found on the stage. */
    method SyncNodes(selected: seq<Id>, found: map<Id, Node>)
      requires forall id :: id in found ==> found[id].id == id
      modifies this
      ensures nodes == SelectedNodes(selected, found)
      ensures visible == old(visible) && dragData == old(dragData)
    {
      nodes := SelectedNodes(selected, found);
    }
  }

  /** `found` maps an id to its shape on the stage when there is one. */
  function InStage(found: map<Id, Node>): Id -> bool
  {
    (id: Id) => id in found
  }

  /**
   * The shapes of the selected ids, in selection order, with the ids that have no shape dropped.
   */
  function SelectedNodes(selected: seq<Id>, found: map<Id, Node>): (r: seq<Node>)
    requires forall id :: id in found ==> found[id].id == id
    ensures NodeIds(r) == Filter(selected, InStage(found))
    ensures forall i :: 0 <= i < |r| ==> r[i] == found[r[i].id]
  {
    if selected == [] then []
    else
      var rest := SelectedNodes(selected[..|selected| - 1], found);
      var last := selected[|selected| - 1];
      if last in found then
        assert NodeIds(rest + [found[last]]) == NodeIds(rest) + [last];
        rest + [found[last]]
      else rest
  }

  /** Every found, selected shape is held; nothing else is. */
  lemma SelectedNodesMembers(selected: seq<Id>, found: map<Id, Node>, id: Id)
    requires forall id :: id in found ==> found[id].id == id
    ensures id in NodeIds(SelectedNodes(selected, found)) <==> id in selected && id in found
  {
    var f := Filter(selected, InStage(found));
    assert id in selected && id in found ==> id in f by {
      if id in selected && id in found {
        var i :| 0 <= i < |selected| && selected[i] == id;
        assert InStage(found)(selected[i]);
      }
    }
    assert id in f ==> id in selected && id in found by {
      if id in f {
        var i :| 0 <= i < |f| && f[i] == id;
        assert InStage(found)(f[i]);
      }
    }
  }

  /**
   * handleTransformStart, for a drag or a transform.  `current` is the attributes of the
   * transformer's nodes.  With no nodes nothing happens; otherwise they are snapshotted and
   * written back into the layers.
   */
  method HandleTransformStart(ed: KEditor, tr: Transformer, current: seq<Node>)
    modifies ed, tr
    ensures current == [] ==>
      tr.dragData == old(tr.dragData) && ed.StateOf() == old(ed.StateOf())
    ensures current != [] ==>
      tr.dragData == Some(current) && ed.StateOf() == old(ed.StateOf()).(layers := Merged(old(ed.layers), current))
    ensures tr.nodes == old(tr.nodes) && tr.visible == old(tr.visible)
  {
    if current == [] {
      return;
    }
    tr.dragData := Some(current);
    ed.UpdateLayers(current);
  }

  /**
   * handleTransformEnd.  With no nodes nothing happens; otherwise exactly one `changeNode` action
   * is recorded, from the start snapshot to the nodes' current attributes (even when nothing
   * moved), the snapshot is cleared and the attributes are written into the layers.  A gesture's
   * end always follows its start, so the snapshot is there.
   */
  method HandleTransformEnd(ed: KEditor, tr: Transformer, current: seq<Node>)
    requires ed.Valid()
    requires current != [] ==> tr.dragData.Some?
    modifies ed, ed.history, tr
    ensures ed.Valid()
    ensures current == [] ==>
      tr.dragData == old(tr.dragData) && ed.StateOf() == old(ed.StateOf()) &&
      ed.history.State() == old(ed.history.State())
    ensures current != [] ==>
      tr.dragData.None? && ed.StateOf() == old(ed.StateOf()).(layers := Merged(old(ed.layers), current)) &&
      ed.history.State() ==
        Recorded(old(ed.history.State()), Action("changeNode", ChangeNodeProps(old(tr.dragData).value, current)))
    ensures tr.nodes == old(tr.nodes) && tr.visible == old(tr.visible)
  {
    if current == [] {
      return;
    }
    ed.Record(Action("changeNode", ChangeNodeProps(tr.dragData.value, current)));
    tr.dragData := None;
    ed.UpdateLayers(current);
  }

  /**
   * A whole gesture: the start handler with the nodes as they were, then the end handler with
   * the nodes as they are.  The layers end on the moved nodes, the snapshot is gone, and the one
   * action recorded takes the layers back to the snapshot on undo.
   */
  method Gesture(ed: KEditor, tr: Transformer, before: seq<Node>, after: seq<Node>)
    requires ed.Valid() && before != [] && after != []
    requires SnapshotOf(before, ed.layers)
    requires forall id :: id in NodeIds(after) ==> id in NodeIds(before)
    modifies ed, ed.history, tr
    ensures ed.Valid() && tr.dragData.None?
    ensures ed.StateOf() == old(ed.StateOf()).(layers := Merged(Merged(old(ed.layers), before), after))
    ensures tr.nodes == old(tr.nodes) && tr.visible == old(tr.visible)
    ensures ed.history.State() ==
      Recorded(old(ed.history.State()), Action("changeNode", ChangeNodeProps(before, after)))
    ensures Merged(ed.layers, before) == old(ed.layers)
  {
    ghost var start := ed.layers;
    HandleTransformStart(ed, tr, before);
    HandleTransformEnd(ed, tr, after);
    MergedSnapshotUnchanged(start, before);
    MergedUndo(start, after, before);
  }

  /** Writing back a snapshot of the layers changes nothing. */
  lemma MergedSnapshotUnchanged(ls: seq<Layer>, pre: seq<Node>)
    requires SnapshotOf(pre, ls)
    ensures Merged(ls, pre) == ls
  {
    forall i | 0 <= i < |ls| ensures Merged(ls, pre)[i] == ls[i] {
      if ls[i].id in NodeIds(pre) {
        assert FindNode(pre, ls[i].id) == Some(AsNode(ls[i]));
      }
    }
  }
}
