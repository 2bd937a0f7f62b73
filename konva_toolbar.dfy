/**
 * The canvas editor's toolbar: the cursor buttons (pen and expand zoom onto the selected node and
 * reset the edit settings), the zoom select, the undo and redo buttons, the expand and pen
 * settings, and the cut-out's alpha mask over the layer's pixels.
 */
module KonvaToolBar {
  import opened Common
  import opened History
  import opened KonvaGeometry
  import opened KonvaEditor

  /** Whether the node's screen box, at 2.333 times its size, overflows the stage. */
  predicate TooBig(box: Rect, zoom: real, stage: Size)
  {
    box.width * zoom * 2.333 > stage.width || box.height * zoom * 2.333 > stage.height
  }

  /**
   * The zoom onChangeCursor picks for pen and expand: the current zoom, unless the node would
   * overflow the stage; then the zoom at which the node takes 40% of the stage along its tighter
   * side, but never below ZoomScaleMin.  A zero side divides to +Infinity and drops out of the minimum.
   */
  function ZoomChoice(box: Rect, zoom: real, stage: Size): (r: real)
    requires box.width >= 0.0 && box.height >= 0.0 && stage.width >= 0.0 && stage.height >= 0.0
    ensures !TooBig(box, zoom, stage) ==> r == zoom
    ensures TooBig(box, zoom, stage) ==> r >= ZoomScaleMin
    ensures TooBig(box, zoom, stage) && r > ZoomScaleMin ==>
      box.width * r <= 0.4 * stage.width && box.height * r <= 0.4 * stage.height &&
      ((box.width > 0.0 && box.width * r == 0.4 * stage.width) ||
       (box.height > 0.0 && box.height * r == 0.4 * stage.height))
    ensures TooBig(box, zoom, stage) && r == ZoomScaleMin ==>
      (box.width > 0.0 && box.width * ZoomScaleMin >= 0.4 * stage.width) ||
      (box.height > 0.0 && box.height * ZoomScaleMin >= 0.4 * stage.height)
  {
    if !TooBig(box, zoom, stage) then zoom
    else
      var m :=
        if box.width == 0.0 then
          assert box.height * zoom * 2.333 > stage.height;
          0.4 * stage.height / box.height
        else if box.height == 0.0 then 0.4 * stage.width / box.width
        else Min(0.4 * stage.width / box.width, 0.4 * stage.height / box.height);
      assert box.width > 0.0 ==> box.width * (0.4 * stage.width / box.width) == 0.4 * stage.width;
      assert box.height > 0.0 ==> box.height * (0.4 * stage.height / box.height) == 0.4 * stage.height;
      assert box.width > 0.0 && box.height > 0.0 && m == 0.4 * stage.width / box.width ==>
        box.height * m <= 0.4 * stage.height by {
        if box.width > 0.0 && box.height > 0.0 && m == 0.4 * stage.width / box.width {
          assert m <= 0.4 * stage.height / box.height;
        }
      }
      assert box.width > 0.0 && box.height > 0.0 && m == 0.4 * stage.height / box.height ==>
        box.width * m <= 0.4 * stage.width by {
        if box.width > 0.0 && box.height > 0.0 && m == 0.4 * stage.height / box.height {
          assert m <= 0.4 * stage.width / box.width;
        }
      }
      assert m <= ZoomScaleMin ==>
        (box.width > 0.0 && box.width * ZoomScaleMin >= 0.4 * stage.width) ||
        (box.height > 0.0 && box.height * ZoomScaleMin >= 0.4 * stage.height) by {
        if m <= ZoomScaleMin {
          if box.width > 0.0 && m == 0.4 * stage.width / box.width {
            assert box.width * ZoomScaleMin >= box.width * m;
          } else {
            assert box.height > 0.0 && m == 0.4 * stage.height / box.height;
            assert box.height * ZoomScaleMin >= box.height * m;
          }
        }
      }
      Max(m, ZoomScaleMin)
  }

  /**
   * At the zoom chosen the node no longer overflows the stage, unless the zoom was held at
   * ZoomScaleMin; either way choosing again keeps it.
   */
  lemma ZoomChoiceSettles(box: Rect, zoom: real, stage: Size)
    requires box.width >= 0.0 && box.height >= 0.0 && stage.width >= 0.0 && stage.height >= 0.0
    ensures var r := ZoomChoice(box, zoom, stage);
      (!TooBig(box, r, stage) || r == ZoomScaleMin) && ZoomChoice(box, r, stage) == r
  {
    var r := ZoomChoice(box, zoom, stage);
    if TooBig(box, zoom, stage) && r > ZoomScaleMin {
      assert box.width * r * 2.333 <= stage.width by {
        assert box.width * r * 2.333 <= 0.4 * stage.width * 2.333;
      }
      assert box.height * r * 2.333 <= stage.height by {
        assert box.height * r * 2.333 <= 0.4 * stage.height * 2.333;
      }
    }
  }

  /**
   * The stage position the zoom tween ends on: the node's screen box `box`, rescaled by
   * newScale / zoom, centred on the stage.
   */
  function FocusPoint(stagePos: Point, box: Rect, zoom: real, newScale: real, stage: Size): Point
    requires zoom > 0.0
  {
    var ratio := newScale / zoom;
    Point((stagePos.x - box.x) * ratio + (stage.width - box.width * ratio) / 2.0,
          (stagePos.y - box.y) * ratio + (stage.height - box.height * ratio) / 2.0)
  }

  /**
   * When the stage is drawn at the zoom, the node's canvas box drawn at the new scale from the
   * focus point is centred on the stage.
   */
  lemma FocusCentresBox(stagePos: Point, box: Rect, zoom: real, newScale: real, stage: Size)
    requires zoom > 0.0
    ensures var p := FocusPoint(stagePos, box, zoom, newScale, stage);
      var canvas := CanvasPointer(Point(box.x, box.y), stagePos, zoom);
      p.x + canvas.x * newScale + box.width * (newScale / zoom) / 2.0 == stage.width / 2.0 &&
      p.y + canvas.y * newScale + box.height * (newScale / zoom) / 2.0 == stage.height / 2.0
  {
    var canvas := CanvasPointer(Point(box.x, box.y), stagePos, zoom);
    var ratio := newScale / zoom;
    assert canvas.x * newScale == (box.x - stagePos.x) * ratio by {
      assert canvas.x == (box.x - stagePos.x) / zoom;
    }
    assert canvas.y * newScale == (box.y - stagePos.y) * ratio by {
      assert canvas.y == (box.y - stagePos.y) / zoom;
    }
  }

  /** The expand mode's settings on entry: the original ratio, 1.5 times on both sides. */
  const ExpandDefaults: EditState :=
    EditState(Some(Original), Some("原始比例"), Some(1.5), Some(1.5), Some(1.5), None, None, None)

  /** The pen mode's settings on entry: the brush, width 5, no strokes. */
  const PenDefaults: EditState :=
    EditState(None, None, None, None, None, Some(Brush), Some(5.0), Some([]))

  /**
   * onChangeCursor(c).  `nodeBox` is the screen box of the transformer's first node, None when it
   * has none.  Pen and expand need a node: without one nothing changes.  With one, the zoom is
   * chosen, the stage ends on the chosen scale with the node centred (the tween's final state), and
   * the mode's settings are reset.  Default and select only set the cursor.
   */
  method OnChangeCursor(ed: KEditor, c: Cursor, nodeBox: Option<Rect>)
    requires ed.Valid()
    requires nodeBox.Some? ==> nodeBox.value.width >= 0.0 && nodeBox.value.height >= 0.0
    requires ed.stageSize.width >= 0.0 && ed.stageSize.height >= 0.0
    modifies ed
    ensures ed.Valid()
    ensures (c == Pen || c == Expand) && nodeBox.None? ==> ed.StateOf() == old(ed.StateOf())
    ensures c == Default || c == Select ==> ed.StateOf() == old(ed.StateOf()).(cursor := c)
    ensures (c == Pen || c == Expand) && nodeBox.Some? ==>
      var z := ZoomChoice(nodeBox.value, old(ed.zoomScale), ed.stageSize);
      ed.StateOf() == old(ed.StateOf()).(cursor := c, zoomScale := z, stageScale := z,
        stagePos := FocusPoint(old(ed.stagePos), nodeBox.value, old(ed.zoomScale), z, ed.stageSize),
        editState := if c == Expand then ExpandDefaults else PenDefaults)
  {
    if c == Expand || c == Pen {
      if nodeBox.None? {
        return;
      }
      var box := nodeBox.value;
      var newScale := ZoomChoice(box, ed.zoomScale, ed.stageSize);
      var newPoint := FocusPoint(ed.stagePos, box, ed.zoomScale, newScale, ed.stageSize);
      ed.zoomScale := newScale;
      ed.stageScale, ed.stagePos := newScale, newPoint;
      if c == Expand {
        ed.editState := ExpandDefaults;
      } else {
        ed.editState := PenDefaults;
      }
    }
    ed.cursor := c;
  }

  /** The zoom select's options. */
  const ZoomScaleOptions: seq<real> := [0.5, 1.0, 2.0]

  /**
   * onChangeZoomScale(scale): the zoom takes the option and the stage ends on it (the tween's
   * final state) with the stage's centre over the same canvas point.
   */
  method OnChangeZoomScale(ed: KEditor, scale: real)
    requires ed.Valid() && scale in ZoomScaleOptions
    modifies ed
    ensures ed.Valid()
    ensures ed.StateOf() == old(ed.StateOf()).(zoomScale := scale, stageScale := scale,
      stagePos := NewScalePoint(old(ed.stagePos), old(ed.stageScale), ed.stageSize, scale, None))
    ensures var centre := Point(ed.stageSize.width / 2.0, ed.stageSize.height / 2.0);
      CanvasPointer(centre, ed.stagePos, ed.stageScale) == CanvasPointer(centre, old(ed.stagePos), old(ed.stageScale))
  {
    NewScalePointKeepsAnchor(ed.stagePos, ed.stageScale, ed.stageSize, scale, None);
    ed.zoomScale := scale;
    ed.stagePos := NewScalePoint(ed.stagePos, ed.stageScale, ed.stageSize, scale, None);
    ed.stageScale := scale;
  }

  /** The undo button: nothing without something to undo, otherwise the hook's undo. */
  method UndoClick(ed: KEditor)
    requires ed.Valid()
    modifies ed, ed.history
    ensures ed.Valid()
    ensures old(ed.history.undoStack) == [] ==>
      ed.StateOf() == old(ed.StateOf()) && ed.history.State() == old(ed.history.State())
    ensures old(ed.history.undoStack) != [] ==>
      var a := Top(old(ed.history.undoStack));
      ed.history.State() == Undone(old(ed.history.State())) &&
      ed.StateOf() == WithScene(old(ed.StateOf()), Apply(old(ed.SceneOf()), Registrations()[a.kind].undo, a.props))
  {
    if !ed.history.HasUndo() {
      return;
    }
    ed.Undo();
  }

  /** The redo button: the mirror image of the undo button. */
  method RedoClick(ed: KEditor)
    requires ed.Valid()
    modifies ed, ed.history
    ensures ed.Valid()
    ensures old(ed.history.redoStack) == [] ==>
      ed.StateOf() == old(ed.StateOf()) && ed.history.State() == old(ed.history.State())
    ensures old(ed.history.redoStack) != [] ==>
      var a := Top(old(ed.history.redoStack));
      ed.history.State() == Redone(old(ed.history.State())) &&
      ed.StateOf() == WithScene(old(ed.StateOf()), Apply(old(ed.SceneOf()), Registrations()[a.kind].redo, a.props))
  {
    if !ed.history.HasRedo() {
      return;
    }
    ed.Redo();
  }

  /** Which toolbar items are drawn disabled, and whether the expand button is shown. */
  datatype ToolbarView = ToolbarView(undoDisabled: bool, redoDisabled: bool, expandShown: bool)

  function View(undoStack: seq<Action<Props>>, redoStack: seq<Action<Props>>, selected: seq<Id>): (v: ToolbarView)
    ensures v.undoDisabled <==> undoStack == []
    ensures v.redoDisabled <==> redoStack == []
    ensures v.expandShown <==> |selected| == 1
  {
    ToolbarView(|undoStack| == 0, |redoStack| == 0, |selected| == 1)
  }

  // ----- expand and pen settings -----

  const ExpandTimesOptions: seq<real> := [1.5, 2.0]

  /** The ratio entries, label and value. */
  const ExpandRatioOptions: seq<(string, Ratio)> := [
    ("原始比例", Original), ("1:1", Numeric(1.0)), ("4:3", Numeric(4.0 / 3.0)), ("3:2", Numeric(3.0 / 2.0)),
    ("16:9", Numeric(16.0 / 9.0)), ("21:9", Numeric(21.0 / 9.0)), ("3:4", Numeric(3.0 / 4.0)),
    ("2:3", Numeric(2.0 / 3.0)), ("9:16", Numeric(9.0 / 16.0))]

  /** Picking a times option sets the three times values alike and keeps the other settings. */
  function WithExpandTimes(s: EditState, times: real): (r: EditState)
    ensures r.expandTimes == Some(times) && r.expandWidthTimes == r.expandTimes && r.expandHeightTimes == r.expandTimes
    ensures r.(expandTimes := s.expandTimes, expandWidthTimes := s.expandWidthTimes, expandHeightTimes := s.expandHeightTimes) == s
  {
    s.(expandTimes := Some(times), expandWidthTimes := Some(times), expandHeightTimes := Some(times))
  }

  /** Picking a ratio entry sets the ratio and its label and keeps the other settings. */
  function WithExpandRatio(s: EditState, item: (string, Ratio)): (r: EditState)
    ensures r.expandRatio == Some(item.1) && r.expandRatioLabel == Some(item.0)
    ensures r.(expandRatio := s.expandRatio, expandRatioLabel := s.expandRatioLabel) == s
  {
    s.(expandRatio := Some(item.1), expandRatioLabel := Some(item.0))
  }

  /** Exactly one ratio entry is drawn selected: the one whose label the settings hold. */
  lemma RatioLabelsDistinct(i: nat, j: nat)
    requires i < |ExpandRatioOptions| && j < |ExpandRatioOptions| && i != j
    ensures ExpandRatioOptions[i].0 != ExpandRatioOptions[j].0
  {
  }

  method OnExpandTimes(ed: KEditor, times: real)
    requires times in ExpandTimesOptions
    modifies ed
    ensures ed.StateOf() == old(ed.StateOf()).(editState := WithExpandTimes(old(ed.editState), times))
  {
    ed.editState := WithExpandTimes(ed.editState, times);
  }

  method OnExpandRatio(ed: KEditor, item: (string, Ratio))
    requires item in ExpandRatioOptions
    modifies ed
    ensures ed.StateOf() == old(ed.StateOf()).(editState := WithExpandRatio(old(ed.editState), item))
  {
    ed.editState := WithExpandRatio(ed.editState, item);
  }

  /** The brush and eraser buttons set the tool alone. */
  method OnTool(ed: KEditor, tool: Tool)
    modifies ed
    ensures ed.StateOf() == old(ed.StateOf()).(editState := old(ed.editState).(tool := Some(tool)))
  {
    ed.editState := ed.editState.(tool := Some(tool));
  }

  /** The width slider runs from 1 to 30 and sets the pen width alone. */
  method OnPenWidth(ed: KEditor, width: real)
    requires 1.0 <= width <= 30.0
    modifies ed
    ensures ed.StateOf() == old(ed.StateOf()).(editState := old(ed.editState).(penWidth := Some(width)))
  {
    ed.editState := ed.editState.(penWidth := Some(width));
  }

  // ----- cut-out -----

  /** A byte of an RGBA pixel buffer. */
  newtype Byte = x: int | 0 <= x < 256

  /** Whether a mask pixel with red value `v` counts as painted white. */
  predicate Painted(v: Byte)
  {
    v > 127
  }

  /**
   * The buffer after the mask pass: the alpha byte of each pixel is 255 where the brush mask is
   * painted and the eraser mask is not, 0 elsewhere; red, green and blue are kept.
   */
  function Masked(pixels: seq<Byte>, brush: seq<Byte>, eraser: seq<Byte>): (r: seq<Byte>)
    requires |brush| == |pixels| && |eraser| == |pixels|
    ensures |r| == |pixels|
    ensures forall j :: 0 <= j < |pixels| && j % 4 != 3 ==> r[j] == pixels[j]
    ensures forall j :: 0 <= j < |pixels| && j % 4 == 3 ==>
      (r[j] == 255 <==> Painted(brush[j - 3]) && !Painted(eraser[j - 3])) && (r[j] == 0 || r[j] == 255)
  {
    seq(|pixels|, j requires 0 <= j < |pixels| =>
      if j % 4 == 3 then (if Painted(brush[j - 3]) && !Painted(eraser[j - 3]) then 255 as Byte else 0 as Byte)
      else pixels[j])
  }

  /** The mask pass depends on the masks only: running it again changes nothing. */
  lemma MaskedIdempotent(pixels: seq<Byte>, brush: seq<Byte>, eraser: seq<Byte>)
    requires |brush| == |pixels| && |eraser| == |pixels|
    ensures Masked(Masked(pixels, brush, eraser), brush, eraser) == Masked(pixels, brush, eraser)
  {
  }

  /**
   * The mask loop of onCutOut, over the buffer of whole RGBA pixels, four bytes at a time; the
   * masks are the red-channel buffers of the same size.
   */
  method ApplyMask(pixels: array<Byte>, brush: seq<Byte>, eraser: seq<Byte>)
    requires pixels.Length % 4 == 0 && |brush| == pixels.Length && |eraser| == pixels.Length
    modifies pixels
    ensures pixels[..] == Masked(old(pixels[..]), brush, eraser)
  {
    ghost var before := pixels[..];
    var i := 0;
    while i < pixels.Length
      invariant 0 <= i <= pixels.Length && i % 4 == 0
      invariant forall j :: 0 <= j < pixels.Length ==>
        pixels[j] == (if j < i then Masked(before, brush, eraser)[j] else before[j])
    {
      var brushValue := brush[i];
      var eraserValue := eraser[i];
      if brushValue > 127 && eraserValue <= 127 {
        pixels[i + 3] := 255;
      } else {
        pixels[i + 3] := 0;
      }
      i := i + 4;
    }
  }

  /**
   * The size of the cut-out: the crop's share of the image applied to the layer's drawn size,
   * rounded.  The image has been loaded, so its sides are positive.
   */
  function CropRectSize(a: Attrs, image: Size): (r: (int, int))
    requires image.width > 0.0 && image.height > 0.0
    ensures var w := a.cropWidth / image.width * a.width;
      var h := a.cropHeight / image.height * a.height;
      w - 0.5 < r.0 as real <= w + 0.5 && h - 0.5 < r.1 as real <= h + 0.5
  {
    (Round(a.cropWidth / image.width * a.width), Round(a.cropHeight / image.height * a.height))
  }

  /** A crop of the whole image on a layer drawn at the image's own size cuts out the whole image. */
  lemma CropRectSizeWholeImage(a: Attrs, image: Size, w: nat, h: nat)
    requires image == Size(w as real, h as real) && w > 0 && h > 0
    requires a.cropWidth == image.width && a.cropHeight == image.height
    requires a.width == image.width && a.height == image.height
    ensures CropRectSize(a, image) == (w, h)
  {
    assert a.cropWidth / image.width == 1.0;
    assert a.cropHeight / image.height == 1.0;
  }
}
