/**
 * The canvas editor's viewport: the checkered background, box selection on the empty stage, and
 * the wheel, which zooms about the pointer with ctrl held and pans the stage otherwise.
 */
module KonvaViewport {
  import opened Common
  import opened KonvaGeometry
  import opened KonvaEditor

  // ----- background grid -----

  /**
   * The grid's cell size for a zoom, with the tests in the order renderBackgroundGrid makes them.
   * The test for a zoom below 0.6 comes after the test for a zoom below 1, so it is never reached
   * and 36 is never chosen.
   */
  function GridSize(zoom: real): (r: real)
    ensures r == 8.0 || r == 12.0 || r == 18.0
  {
    if zoom > 1.8 then 8.0
    else if zoom < 1.0 then 18.0
    else if zoom < 0.6 then 36.0
    else 12.0
  }

  /** At the smallest zoom the cell size as written is 18, drawn 9 pixels wide on the screen. */
  lemma GridSizeAtMinimumZoom()
    ensures GridSize(ZoomScaleMin) == 18.0 && GridSize(ZoomScaleMin) * ZoomScaleMin == 9.0
  {
  }

  /**
   * The cell size with the 36 band reachable: 36 below zoom 0.6, 18 up to zoom 1, 12 up to 1.8
   * and 8 above.  Over the zoom range every cell is drawn between 10.8 and 21.6 pixels wide.
   */
  function GridSizeIntended(zoom: real): (r: real)
    ensures zoom < 0.6 ==> r == 36.0
    ensures ZoomScaleMin <= zoom <= ZoomScaleMax ==> 10.8 <= r * zoom <= 21.6
  {
    if zoom > 1.8 then 8.0
    else if zoom < 0.6 then 36.0
    else if zoom < 1.0 then 18.0
    else 12.0
  }

  /** Zooming in never makes the cells larger. */
  lemma GridSizeIntendedAntitone(a: real, b: real)
    requires a <= b
    ensures GridSizeIntended(b) <= GridSizeIntended(a)
  {
  }

  /** The two agree everywhere except below zoom 0.6. */
  lemma GridSizesAgree(zoom: real)
    ensures GridSize(zoom) == GridSizeIntended(zoom) <==> zoom >= 0.6
  {
  }

  /** How many of the offsets 0, g, 2g, ... lie below `extent`: the number of rows or columns. */
  function Steps(extent: real, g: real): nat
    requires g > 0.0
  {
    if extent <= 0.0 then 0
    else
      assert extent / g > 0.0;
      var f := (extent / g).Floor;
      if f as real * g < extent then f + 1 else f
  }

  /** Offset k lies below the extent exactly when k is one of the first Steps(extent, g). */
  lemma StepsBound(extent: real, g: real, k: nat)
    requires g > 0.0
    ensures k < Steps(extent, g) <==> k as real * g < extent
  {
    if extent > 0.0 {
      var q := extent / g;
      assert q * g == extent;
      var f := q.Floor;
      ScaledLess(k as real, q, g);
      ScaledLess(f as real, q, g);
    }
  }

  /** Scaling by a positive factor keeps the order. */
  lemma ScaledLess(a: real, b: real, g: real)
    requires g > 0.0
    ensures a * g < b * g <==> a < b
  {
    if a < b {
      assert (b - a) * g > 0.0;
    } else {
      assert (a - b) * g >= 0.0;
    }
  }

  /** One checker cell: its top-left corner and whether it is drawn dark. */
  datatype Cell = Cell(x: real, y: real, dark: bool)

  /** The cell in row `row` and column `col`: dark when row + col is even. */
  function CellAt(row: nat, col: nat, g: real): Cell
  {
    Cell(col as real * g, row as real * g, (row + col) % 2 == 0)
  }

  /** Cells that share a side have different colours. */
  lemma CheckerAlternates(row: nat, col: nat, g: real)
    ensures CellAt(row, col, g).dark != CellAt(row, col + 1, g).dark
    ensures CellAt(row, col, g).dark != CellAt(row + 1, col, g).dark
  {
  }

  /**
   * renderBackgroundGrid: the cells, row by row, that cover a `width` by `height` area with
   * squares of GridSize(zoom), the cell size as written.  Each cell's colour is computed from the floors of its
   * offsets divided by the cell size, which are its column and row.
   */
  method RenderBackgroundGrid(zoom: real, width: real, height: real) returns (rows: seq<seq<Cell>>)
    ensures var g := GridSize(zoom);
      |rows| == Steps(height, g) &&
      forall r :: 0 <= r < |rows| ==>
        |rows[r]| == Steps(width, g) && forall c :: 0 <= c < |rows[r]| ==> rows[r][c] == CellAt(r, c, g)
  {
    var gridSize := GridSize(zoom);
    rows := [];
    var y := 0.0;
    ghost var row: nat := 0;
    while y < height
      invariant y == row as real * gridSize && row <= Steps(height, gridSize) && |rows| == row
      invariant forall r :: 0 <= r < |rows| ==>
        |rows[r]| == Steps(width, gridSize) &&
        forall c :: 0 <= c < |rows[r]| ==> rows[r][c] == CellAt(r, c, gridSize)
      decreases Steps(height, gridSize) - row
    {
      StepsBound(height, gridSize, row);
      var line := GridRow(y, width, gridSize, row);
      rows := rows + [line];
      y := y + gridSize;
      row := row + 1;
    }
    StepsBound(height, gridSize, row);
  }

  /** The inner loop of renderBackgroundGrid: the cells of the row at offset `y`. */
  method GridRow(y: real, width: real, gridSize: real, ghost row: nat) returns (line: seq<Cell>)
    requires gridSize > 0.0 && y == row as real * gridSize
    ensures |line| == Steps(width, gridSize)
    ensures forall c :: 0 <= c < |line| ==> line[c] == CellAt(row, c, gridSize)
  {
    line := [];
    var x := 0.0;
    ghost var col: nat := 0;
    assert y / gridSize == row as real;
    while x < width
      invariant x == col as real * gridSize && col <= Steps(width, gridSize) && |line| == col
      invariant forall c :: 0 <= c < |line| ==> line[c] == CellAt(row, c, gridSize)
      decreases Steps(width, gridSize) - col
    {
      StepsBound(width, gridSize, col);
      assert x / gridSize == col as real;
      var isDarkCell := ((x / gridSize).Floor + (y / gridSize).Floor) % 2 == 0;
      line := line + [Cell(x, y, isDarkCell)];
      x := x + gridSize;
      col := col + 1;
    }
    StepsBound(width, gridSize, col);
  }

  // ----- box selection -----

  /** The selection rectangle: shown or not, its anchor, and its (possibly negative) extent. */
  datatype DragSelection = DragSelection(visible: bool, x: real, y: real, width: real, height: real)

  /** Whether a layer is picked by the box: visible, on the stage, and overlapping the box. */
  predicate Hit(l: Layer, clientRects: map<Id, Rect>, selection: Option<Rect>, stagePos: Point, scale: real)
  {
    l.visible && l.id in clientRects && selection.Some? &&
    RectOverlap(CanvasRect(selection.value, stagePos, scale), CanvasRect(clientRects[l.id], stagePos, scale))
  }

  /** The ids of the layers the box picks, in layer order. */
  function BoxHits(ls: seq<Layer>, clientRects: map<Id, Rect>, selection: Option<Rect>, stagePos: Point, scale: real): (r: seq<Id>)
    ensures |r| <= |ls|
  {
    if ls == [] then []
    else
      var last := ls[|ls| - 1];
      BoxHits(ls[..|ls| - 1], clientRects, selection, stagePos, scale) +
      (if Hit(last, clientRects, selection, stagePos, scale) then [last.id] else [])
  }

  /** An id is picked exactly when some layer with that id is hit. */
  lemma {:induction false} BoxHitsMembers(ls: seq<Layer>, clientRects: map<Id, Rect>, selection: Option<Rect>,
                                          stagePos: Point, scale: real, id: Id)
    ensures id in BoxHits(ls, clientRects, selection, stagePos, scale) <==>
      exists i :: 0 <= i < |ls| && ls[i].id == id && Hit(ls[i], clientRects, selection, stagePos, scale)
  {
    if ls != [] {
      var init := ls[..|ls| - 1];
      BoxHitsMembers(init, clientRects, selection, stagePos, scale, id);
      if exists i :: 0 <= i < |init| && init[i].id == id && Hit(init[i], clientRects, selection, stagePos, scale) {
        var i :| 0 <= i < |init| && init[i].id == id && Hit(init[i], clientRects, selection, stagePos, scale);
        assert ls[i] == init[i];
      }
    }
  }

  /** Without a selection rectangle on the stage nothing is picked. */
  lemma {:induction false} BoxHitsWithoutSelection(ls: seq<Layer>, clientRects: map<Id, Rect>, stagePos: Point, scale: real)
    ensures BoxHits(ls, clientRects, None, stagePos, scale) == []
  {
    if ls != [] {
      BoxHitsWithoutSelection(ls[..|ls| - 1], clientRects, stagePos, scale);
    }
  }

  /** The viewport's own state. */
  class BoxSelect {
    var dragSelection: DragSelection
    var isBoxSelecting: bool

    constructor ()
      ensures dragSelection == DragSelection(false, 0.0, 0.0, 0.0, 0.0) && !isBoxSelecting
    {
      dragSelection := DragSelection(false, 0.0, 0.0, 0.0, 0.0);
      isBoxSelecting := false;
    }
  }

  /**
   * handleStageMouseDown.  `onStage` says the press hit the empty stage; `firstNode` is the client
   * rect of the transformer's first node, if it has one; `pointer` is the pointer on the screen.
   * With exactly one layer selected, a press on the stage inside that node's box starts dragging
   * it (the result), and without a node the press is ignored.  Otherwise a press on the stage
   * clears the selection and starts a zero-size box at the pointer.
   */
  method HandleStageMouseDown(ed: KEditor, bs: BoxSelect, onStage: bool, firstNode: Option<Rect>, pointer: Point)
    returns (startDrag: bool)
    requires ed.Valid()
    modifies ed, bs
    ensures ed.Valid()
    ensures var mousePos := CanvasPointer(pointer, old(ed.stagePos), old(ed.stageScale));
      var single := |old(ed.selected)| == 1 && onStage;
      var inside := firstNode.Some? &&
        InBounds(BoundsOf([CanvasRect(firstNode.value, old(ed.stagePos), old(ed.stageScale))]), mousePos);
      var boxes := onStage && !(single && (firstNode.None? || inside));
      && (startDrag <==> single && inside)
      && ed.StateOf() == old(ed.StateOf()).(selected := if boxes then [] else old(ed.selected))
      && (boxes ==> bs.isBoxSelecting && bs.dragSelection == DragSelection(true, mousePos.x, mousePos.y, 0.0, 0.0))
      && (!boxes ==> bs.isBoxSelecting == old(bs.isBoxSelecting) && bs.dragSelection == old(bs.dragSelection))
  {
    startDrag := false;
    if |ed.selected| == 1 && onStage {
      if firstNode.None? {
        return;
      }
      var mousePos := CanvasPointer(pointer, ed.stagePos, ed.stageScale);
      var inside := IsPointInSelectionBox([CanvasRect(firstNode.value, ed.stagePos, ed.stageScale)], mousePos);
      if inside {
        startDrag := true;
        return;
      }
    }
    if !onStage {
      return;
    }
    var mousePos := CanvasPointer(pointer, ed.stagePos, ed.stageScale);
    ed.SetSelectedIds([]);
    bs.dragSelection := DragSelection(true, mousePos.x, mousePos.y, 0.0, 0.0);
    bs.isBoxSelecting := true;
  }

  /** handleStageMouseMove: while box-selecting, the box stretches from its anchor to the pointer. */
  method HandleStageMouseMove(ed: KEditor, bs: BoxSelect, pointer: Point)
    requires ed.Valid()
    modifies bs
    ensures bs.isBoxSelecting == old(bs.isBoxSelecting)
    ensures old(bs.isBoxSelecting) ==>
      var mousePos := CanvasPointer(pointer, ed.stagePos, ed.stageScale);
      var ds := bs.dragSelection;
      ds.visible == old(bs.dragSelection.visible) &&
      ds.x == old(bs.dragSelection.x) && ds.y == old(bs.dragSelection.y) &&
      ds.x + ds.width == mousePos.x && ds.y + ds.height == mousePos.y
    ensures !old(bs.isBoxSelecting) ==> bs.dragSelection == old(bs.dragSelection)
  {
    if !bs.isBoxSelecting {
      return;
    }
    var mousePos := CanvasPointer(pointer, ed.stagePos, ed.stageScale);
    var prev := bs.dragSelection;
    bs.dragSelection := prev.(width := mousePos.x - prev.x, height := mousePos.y - prev.y);
  }

  /**
   * handleStageMouseUp.  `clientRects` holds the client rect of each layer's shape found on the
   * stage and `selection` that of the selection rectangle.  The box is hidden; a box with a zero
   * side leaves the selection alone, any other selects the visible layers it overlaps, in layer
   * order.
   */
  method HandleStageMouseUp(ed: KEditor, bs: BoxSelect, clientRects: map<Id, Rect>, selection: Option<Rect>)
    requires ed.Valid()
    modifies ed, bs
    ensures ed.Valid()
    ensures !old(bs.isBoxSelecting) ==>
      ed.StateOf() == old(ed.StateOf()) && bs.dragSelection == old(bs.dragSelection) && !bs.isBoxSelecting
    ensures old(bs.isBoxSelecting) ==>
      !bs.isBoxSelecting && bs.dragSelection == old(bs.dragSelection).(visible := false)
    ensures old(bs.isBoxSelecting) && (old(bs.dragSelection.width) == 0.0 || old(bs.dragSelection.height) == 0.0) ==>
      ed.StateOf() == old(ed.StateOf())
    ensures old(bs.isBoxSelecting) && old(bs.dragSelection.width) != 0.0 && old(bs.dragSelection.height) != 0.0 ==>
      ed.StateOf() == old(ed.StateOf()).(selected :=
        BoxHits(old(ed.layers), clientRects, selection, old(ed.stagePos), old(ed.stageScale)))
  {
    if !bs.isBoxSelecting {
      return;
    }
    var ds := bs.dragSelection;
    bs.isBoxSelecting := false;
    bs.dragSelection := ds.(visible := false);
    if ds.width == 0.0 || ds.height == 0.0 {
      return;
    }
    var newSelectedLayerIds: seq<Id> := [];
    var layers := ed.layers;
    for i := 0 to |layers|
      invariant newSelectedLayerIds == BoxHits(layers[..i], clientRects, selection, ed.stagePos, ed.stageScale)
    {
      assert layers[..i + 1][..i] == layers[..i];
      var layer := layers[i];
      if layer.visible && layer.id in clientRects && selection.Some? {
        var selectionBounds := CanvasRect(selection.value, ed.stagePos, ed.stageScale);
        var layerBounds := CanvasRect(clientRects[layer.id], ed.stagePos, ed.stageScale);
        if RectOverlap(selectionBounds, layerBounds) {
          newSelectedLayerIds := newSelectedLayerIds + [layer.id];
        }
      }
    }
    assert layers[..|layers|] == layers;
    ed.SetSelectedIds(newSelectedLayerIds);
  }

  /** handleStageMouseLeave: box selection stops and the box is hidden; the selection stays. */
  method HandleStageMouseLeave(bs: BoxSelect)
    modifies bs
    ensures !bs.isBoxSelecting
    ensures old(bs.isBoxSelecting) ==> bs.dragSelection == old(bs.dragSelection).(visible := false)
    ensures !old(bs.isBoxSelecting) ==> bs.dragSelection == old(bs.dragSelection)
  {
    if !bs.isBoxSelecting {
      return;
    }
    bs.isBoxSelecting := false;
    bs.dragSelection := bs.dragSelection.(visible := false);
  }

  // ----- wheel: zoom and pan -----

  /** `Number(v.toFixed(2))`: v to the nearest hundredth, halves rounded up. */
  function Round2(v: real): (r: real)
    ensures v - 0.005 < r <= v + 0.005
    ensures ZoomScaleMin <= v <= ZoomScaleMax ==> ZoomScaleMin <= r <= ZoomScaleMax
  {
    var n := Round(v * 100.0);
    assert ZoomScaleMin <= v <= ZoomScaleMax ==> 50 <= n <= 200;
    n as real / 100.0
  }

  /**
   * The scale handleZoom settles on: the zoom multiplied by the step when the wheel moves up (or
   * not at all), divided by it when it moves down, clamped into the zoom range and rounded.
   */
  function ZoomedScale(zoom: real, deltaY: real): (r: real)
    requires zoom > 0.0
    ensures ZoomScaleMin <= r <= ZoomScaleMax
    ensures ZoomScaleMin <= zoom <= ZoomScaleMax && deltaY > 0.0 ==> r <= zoom + 0.005
    ensures ZoomScaleMin <= zoom <= ZoomScaleMax && deltaY <= 0.0 ==> r >= zoom - 0.005
  {
    var newScale := if deltaY > 0.0 then zoom / ZoomScaleStep else zoom * ZoomScaleStep;
    assert deltaY > 0.0 ==> newScale < zoom;
    Round2(Max(ZoomScaleMin, Min(ZoomScaleMax, newScale)))
  }

  /**
   * handleZoom.  Without a pointer position nothing happens; otherwise the zoom and the stage's
   * scale become ZoomedScale and the stage moves so that the canvas point under the pointer stays
   * under it.
   */
  method HandleZoom(ed: KEditor, deltaY: real, pointer: Option<Point>)
    requires ed.Valid()
    modifies ed
    ensures ed.Valid()
    ensures pointer.None? ==> ed.StateOf() == old(ed.StateOf())
    ensures pointer.Some? ==>
      var z := ZoomedScale(old(ed.zoomScale), deltaY);
      ed.StateOf() == old(ed.StateOf()).(zoomScale := z, stageScale := z,
        stagePos := NewScalePoint(old(ed.stagePos), old(ed.stageScale), ed.stageSize, z, pointer)) &&
      CanvasPointer(pointer.value, ed.stagePos, ed.stageScale) == CanvasPointer(pointer.value, old(ed.stagePos), old(ed.stageScale))
  {
    if pointer.None? {
      return;
    }
    var clampedScale := ZoomedScale(ed.zoomScale, deltaY);
    ed.zoomScale := clampedScale;
    var newPos := NewScalePoint(ed.stagePos, ed.stageScale, ed.stageSize, clampedScale, pointer);
    NewScalePointKeepsAnchor(ed.stagePos, ed.stageScale, ed.stageSize, clampedScale, pointer);
    ed.stagePos := newPos;
    ed.stageScale := clampedScale;
  }

  /** `Math.max(Math.min(v, hi), lo)`: never below lo, never above hi when lo <= hi. */
  function PanAxis(v: real, lo: real, hi: real): (r: real)
    ensures r >= lo
    ensures lo <= hi ==> r <= hi
    ensures lo <= v <= hi ==> r == v
    ensures v < lo ==> r == lo
  {
    Max(Min(v, hi), lo)
  }

  /**
   * The stage position handlePan moves to: back along the wheel's deltas by the pan step, each
   * axis clamped so that the viewport, drawn at `scale`, keeps at least an edge on the stage.
   */
  function Panned(pos: Point, deltaX: real, deltaY: real, vpPos: Point, vpSize: Size, stage: Size, scale: real): Point
  {
    Point(PanAxis(pos.x - deltaX * PanStep, PanMin(vpPos.x, vpSize.width, scale), PanMax(vpPos.x, vpSize.width, stage.width, scale)),
          PanAxis(pos.y - deltaY * PanStep, PanMin(vpPos.y, vpSize.height, scale), PanMax(vpPos.y, vpSize.height, stage.height, scale)))
  }

  /** The lowest stage offset on one axis: the viewport's far edge sits at the stage's origin. */
  function PanMin(vpStart: real, vpExtent: real, scale: real): real
  {
    (-vpStart - vpExtent) * scale
  }

  /** The highest stage offset on one axis: the viewport's near edge sits at the stage's far edge. */
  function PanMax(vpStart: real, vpExtent: real, stageExtent: real, scale: real): real
  {
    PanMin(vpStart, vpExtent, scale) + stageExtent + vpExtent * scale
  }

  /**
   * After a pan the viewport is never wholly off the stage: its right edge is not left of the
   * stage and its left edge not right of it, and likewise vertically.
   */
  lemma PannedKeepsViewportReachable(pos: Point, deltaX: real, deltaY: real, vpPos: Point, vpSize: Size, stage: Size, scale: real)
    requires scale > 0.0 && vpSize.width >= 0.0 && vpSize.height >= 0.0 && stage.width >= 0.0 && stage.height >= 0.0
    ensures var p := Panned(pos, deltaX, deltaY, vpPos, vpSize, stage, scale);
      p.x + (vpPos.x + vpSize.width) * scale >= 0.0 && p.x + vpPos.x * scale <= stage.width &&
      p.y + (vpPos.y + vpSize.height) * scale >= 0.0 && p.y + vpPos.y * scale <= stage.height
  {
    var minX := (-vpPos.x - vpSize.width) * scale;
    var minY := (-vpPos.y - vpSize.height) * scale;
    assert minX + (vpPos.x + vpSize.width) * scale == 0.0;
    assert minY + (vpPos.y + vpSize.height) * scale == 0.0;
    assert vpSize.width * scale >= 0.0 && vpSize.height * scale >= 0.0;
  }

  /** A small pan that stays inside the bounds moves the stage by exactly the step. */
  lemma PannedFreely(pos: Point, deltaX: real, deltaY: real, vpPos: Point, vpSize: Size, stage: Size, scale: real)
    requires var minX := (-vpPos.x - vpSize.width) * scale;
      minX <= pos.x - deltaX * PanStep <= minX + stage.width + vpSize.width * scale
    requires var minY := (-vpPos.y - vpSize.height) * scale;
      minY <= pos.y - deltaY * PanStep <= minY + stage.height + vpSize.height * scale
    ensures Panned(pos, deltaX, deltaY, vpPos, vpSize, stage, scale) == Point(pos.x - deltaX * PanStep, pos.y - deltaY * PanStep)
  {
  }

  /** handlePan: the stage moves to Panned. */
  method HandlePan(ed: KEditor, deltaX: real, deltaY: real)
    requires ed.Valid()
    modifies ed
    ensures ed.Valid()
    ensures ed.StateOf() == old(ed.StateOf()).(stagePos :=
      Panned(old(ed.stagePos), deltaX, deltaY, ed.viewportPos, ed.viewportSize, ed.stageSize, old(ed.stageScale)))
  {
    var newPos := PanPosition(ed.stagePos, deltaX, deltaY, ed.viewportPos, ed.viewportSize, ed.stageSize, ed.stageScale);
    ed.stagePos := newPos;
  }

  /** handlePan's arithmetic, step by step on the values it reads, proved against the function Panned. */
  method PanPosition(currentStagePos: Point, deltaX: real, deltaY: real, vpPos: Point, vpSize: Size, stage: Size, scale: real)
    returns (newPos: Point)
    ensures newPos == Panned(currentStagePos, deltaX, deltaY, vpPos, vpSize, stage, scale)
  {
    var minX := PanMin(vpPos.x, vpSize.width, scale);
    var maxX := PanMax(vpPos.x, vpSize.width, stage.width, scale);
    var minY := PanMin(vpPos.y, vpSize.height, scale);
    var maxY := PanMax(vpPos.y, vpSize.height, stage.height, scale);
    newPos := Point(Max(Min(currentStagePos.x - deltaX * PanStep, maxX), minX),
                    Max(Min(currentStagePos.y - deltaY * PanStep, maxY), minY));
  }

  /**
   * handleWheel: ignored unless the cursor is the default one; with ctrl held it zooms,
   * otherwise it pans.
   */
  method HandleWheel(ed: KEditor, ctrlKey: bool, deltaX: real, deltaY: real, pointer: Option<Point>)
    requires ed.Valid()
    modifies ed
    ensures ed.Valid()
    ensures old(ed.cursor) != Default ==> ed.StateOf() == old(ed.StateOf())
    ensures old(ed.cursor) == Default && ctrlKey && pointer.None? ==> ed.StateOf() == old(ed.StateOf())
    ensures old(ed.cursor) == Default && ctrlKey && pointer.Some? ==>
      var z := ZoomedScale(old(ed.zoomScale), deltaY);
      ed.StateOf() == old(ed.StateOf()).(zoomScale := z, stageScale := z,
        stagePos := NewScalePoint(old(ed.stagePos), old(ed.stageScale), ed.stageSize, z, pointer))
    ensures old(ed.cursor) == Default && !ctrlKey ==>
      ed.StateOf() == old(ed.StateOf()).(stagePos :=
        Panned(old(ed.stagePos), deltaX, deltaY, ed.viewportPos, ed.viewportSize, ed.stageSize, old(ed.stageScale)))
  {
    if ed.cursor != Default {
      return;
    }
    if ctrlKey {
      HandleZoom(ed, deltaY, pointer);
    } else {
      HandlePan(ed, deltaX, deltaY);
    }
  }
}
