/**
 * The DOM editor's Moveable wrapper: which props the control gets, and how a drag gesture (single
 * element or group) becomes exactly one "move" action holding the frames before and after it.
 */
module DomMovable {
  import opened Common
  import opened Seqs
  import opened History
  import opened DomEditor

  /** The props of the Moveable control that depend on the editor state. */
  datatype MoveableProps = MoveableProps(
    targets: seq<Id>,
    draggable: bool,
    dragArea: bool,
    throttleDragRotate: int,
    keepRatio: bool,
    elementGuidelines: seq<Id>)

  /** `x => selected.indexOf(x) === -1` */
  function NotSelected(selected: seq<Id>): Id -> bool
  {
    (x: Id) => x !in selected
  }

  /** The known elements other than the selected ones, in the helper's order. */
  function ElementGuidelines(known: seq<Id>, selected: seq<Id>): (r: seq<Id>)
    ensures forall i :: 0 <= i < |r| ==> r[i] in known && r[i] !in selected
    ensures forall i :: 0 <= i < |known| && known[i] !in selected ==> known[i] in r
    ensures IsSubsequence(r, known)
  {
    FilterIsSubsequence(known, NotSelected(selected));
    Filter(known, NotSelected(selected))
  }

  /**
   * What the wrapper renders: nothing without a selection; otherwise a control on the selected
   * elements, draggable unless the pen is active, with a drag area for groups, and with shift
   * snapping rotation to 45 degrees and keeping the ratio.
   */
  function Render(selected: seq<Id>, cursor: Cursor, shift: bool, known: seq<Id>): (r: Option<MoveableProps>)
    ensures r.None? <==> selected == []
    ensures r.Some? ==> r.value.targets == selected
    ensures r.Some? ==> (r.value.draggable <==> cursor != Pen)
    ensures r.Some? ==> (r.value.dragArea <==> |selected| > 1)
    ensures r.Some? ==> r.value.keepRatio == shift && r.value.throttleDragRotate == (if shift then 45 else 0)
    ensures r.Some? ==> forall x :: x in r.value.elementGuidelines <==> x in known && x !in selected
  {
    if |selected| == 0 then None
    else
      var guides := ElementGuidelines(known, selected);
      assert forall x :: x in guides <==> x in known && x !in selected by {
        forall x | x in known && x !in selected ensures x in guides {
          var i :| 0 <= i < |known| && known[i] == x;
        }
      }
      Some(MoveableProps(selected, cursor != Pen, |selected| > 1, if shift then 45 else 0, shift, guides))
  }

  /** The frames of `ts` as the helper reports them, keyed by id. */
  function FramesOf(frames: map<Id, Frame>, ts: seq<Id>): (m: map<Id, Frame>)
    ensures m.Keys == set t | t in ts
    ensures forall t :: t in ts ==> m[t] == FrameOf(frames, t)
  {
    map t | t in ts :: FrameOf(frames, t)
  }

  /** The data a gesture carries from its start event to its end event. */
  class GestureData {
    var prevFrame: Frame
    var prevFrameMap: map<Id, Frame>

    constructor ()
      ensures prevFrame == EmptyFrame && prevFrameMap == map[]
    {
      prevFrame, prevFrameMap := EmptyFrame, map[];
    }
  }

  /** Build the id-to-frame map of a group, one target at a time. */
  method CaptureFrames(ed: Editor, ts: seq<Id>) returns (m: map<Id, Frame>)
    ensures m == FramesOf(ed.frames, ts)
  {
    m := map[];
    for k := 0 to |ts|
      invariant m == FramesOf(ed.frames, ts[..k])
    {
      assert ts[..k + 1] == ts[..k] + [ts[k]];
      m := m[ts[k] := FrameOf(ed.frames, ts[k])];
    }
    assert ts[..|ts|] == ts;
  }

  method OnDragStart(ed: Editor, datas: GestureData, id: Id)
    modifies datas
    ensures datas.prevFrame == FrameOf(ed.frames, id)
    ensures datas.prevFrameMap == old(datas.prevFrameMap)
  {
    datas.prevFrame := FrameOf(ed.frames, id);
  }

  /** The helper moves the element: its frame is replaced; nothing is recorded. */
  method OnDrag(ed: Editor, id: Id, frame: Frame)
    modifies ed
    ensures ed.frames == old(ed.frames)[id := frame]
    ensures ed.layers == old(ed.layers) && ed.selected == old(ed.selected)
    ensures ed.cursor == old(ed.cursor) && ed.viewportSize == old(ed.viewportSize)
  {
    ed.frames := ed.frames[id := frame];
  }

  /** Resize, scale, rotate and clip go to the helper alone: the frame changes, no action is recorded. */
  method OnResize(ed: Editor, id: Id, frame: Frame)
    modifies ed
    ensures ed.frames == old(ed.frames)[id := frame]
    ensures ed.layers == old(ed.layers) && ed.selected == old(ed.selected)
    ensures ed.cursor == old(ed.cursor) && ed.viewportSize == old(ed.viewportSize)
  {
    ed.frames := ed.frames[id := frame];
  }

  /** A single drag ends: one "move" action for just this element. */
  method OnDragEnd(ed: Editor, datas: GestureData, id: Id)
    requires ed.Valid()
    modifies ed.history
    ensures ed.Valid()
    ensures ed.history.State() == Recorded(old(ed.history.State()),
      Action("move", MoveProps(map[id := datas.prevFrame], map[id := FrameOf(ed.frames, id)], [id])))
  {
    var a := Action("move", MoveProps(map[id := datas.prevFrame], map[id := FrameOf(ed.frames, id)], [id]));
    assert ActionFits(a) by {
      assert Registrations()["move"] == HandlerPair(UndoMoveFn, RedoMoveFn);
    }
    StacksFitRecorded(ed.history.State(), a);
    ed.history.AddAction(a.kind, a.props);
  }

  method OnDragGroupStart(ed: Editor, datas: GestureData, ts: seq<Id>)
    modifies datas
    ensures datas.prevFrameMap == FramesOf(ed.frames, ts)
    ensures datas.prevFrame == old(datas.prevFrame)
  {
    var m := CaptureFrames(ed, ts);
    datas.prevFrameMap := m;
  }

  /** A group drag ends: one "move" action for the whole group, ids in target order. */
  method OnDragGroupEnd(ed: Editor, datas: GestureData, ts: seq<Id>)
    requires ed.Valid()
    modifies ed.history
    ensures ed.Valid()
    ensures ed.history.State() == Recorded(old(ed.history.State()),
      Action("move", MoveProps(datas.prevFrameMap, FramesOf(ed.frames, ts), ts)))
  {
    var next := CaptureFrames(ed, ts);
    var a := Action("move", MoveProps(datas.prevFrameMap, next, ts));
    assert ActionFits(a) by {
      assert Registrations()["move"] == HandlerPair(UndoMoveFn, RedoMoveFn);
    }
    StacksFitRecorded(ed.history.State(), a);
    ed.history.AddAction(a.kind, a.props);
  }

  /**
   * While every element of a recorded group move is still in the document, undoing the move puts
   * each back on the frame captured at the start of the gesture, and redoing it puts each on the
   * frame captured at the end.  Frames of elements outside the group are always left as they are.
   */
  lemma GroupMoveUndoRedo(v: View, before: map<Id, Frame>, after: map<Id, Frame>, ts: seq<Id>)
    ensures (forall i :: 0 <= i < |ts| ==> ts[i] in Ids(v.layers)) ==>
      var undone := Moved(v, FramesOf(before, ts), ts);
      forall t :: t in ts ==> FrameOf(undone.frames, t) == FrameOf(before, t)
    ensures (forall i :: 0 <= i < |ts| ==> ts[i] in Ids(v.layers)) ==>
      var redone := Moved(v, FramesOf(after, ts), ts);
      forall t :: t in ts ==> FrameOf(redone.frames, t) == FrameOf(after, t)
    ensures var undone := Moved(v, FramesOf(before, ts), ts);
      forall t :: !(t in ts && t in Ids(v.layers)) ==> FrameOf(undone.frames, t) == FrameOf(v.frames, t)
  {
    var live := Ids(v.layers);
    if forall i :: 0 <= i < |ts| ==> ts[i] in live {
      PairedFramesAgreeWhenAllLive(v.frames, FramesOf(before, ts), live, ts);
      PairedFramesAgreeWhenAllLive(v.frames, FramesOf(after, ts), live, ts);
      FilterAll(ts, IsLive(live));
    }
  }
}
