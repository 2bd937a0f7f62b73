/**
 * The canvas editor's geometry helpers: screen-to-canvas conversion, the bounding-box hit test
 * used before a drag, rectangle overlap for box selection, the stage position that keeps a point
 * fixed while zooming, and the frame drawn around a layer in expand mode.
 *
 * The stage is given by its position and its (uniform) scale; a Konva node by its client rect.
 */
module KonvaGeometry {
  import opened Common

  /** A rectangle: top-left corner and size. */
  datatype Rect = Rect(x: real, y: real, width: real, height: real)

  const ZeroRect: Rect := Rect(0.0, 0.0, 0.0, 0.0)

  /** The stage's pan and zoom constants. */
  const PanStep: real := 0.3
  const ZoomScaleStep: real := 1.02
  const ZoomScaleMin: real := 0.5
  const ZoomScaleMax: real := 2.0

  /** The expand mode's target ratio: the layer's own ("original") or width / height. */
  datatype Ratio = Original | Numeric(value: real)

  /**
   * getCanvasPointer: a pointer on the screen, in canvas coordinates.  The stage's scale is
   * positive (every path that sets it keeps it at or above the minimum zoom).
   */
  function CanvasPointer(pointer: Point, stagePos: Point, scale: real): (p: Point)
    requires scale > 0.0
    ensures pointer == Point(stagePos.x + p.x * scale, stagePos.y + p.y * scale)
  {
    var x, y := (pointer.x - stagePos.x) / scale, (pointer.y - stagePos.y) / scale;
    assert x * scale == pointer.x - stagePos.x && y * scale == pointer.y - stagePos.y;
    Point(x, y)
  }

  /** A canvas point back on the screen: the inverse of CanvasPointer. */
  function ScreenPoint(p: Point, stagePos: Point, scale: real): Point
  {
    Point(stagePos.x + p.x * scale, stagePos.y + p.y * scale)
  }

  lemma CanvasPointerRoundTrip(p: Point, stagePos: Point, scale: real)
    requires scale > 0.0
    ensures CanvasPointer(ScreenPoint(p, stagePos, scale), stagePos, scale) == p
  {
  }

  /**
   * getCanvasRect: a node's client rect in canvas coordinates.  A zero scale (or a missing stage)
   * counts as scale 1, as `stage?.scaleX() || 1` does.
   */
  function CanvasRect(client: Rect, stagePos: Point, scale: real): (r: Rect)
    ensures scale != 0.0 ==>
      client == Rect(stagePos.x + r.x * scale, stagePos.y + r.y * scale, r.width * scale, r.height * scale)
    ensures scale == 0.0 ==>
      r == Rect(client.x - stagePos.x, client.y - stagePos.y, client.width, client.height)
  {
    var s := if scale == 0.0 then 1.0 else scale;
    Rect((client.x - stagePos.x) / s, (client.y - stagePos.y) / s, client.width / s, client.height / s)
  }

  /** The smallest box holding every rect of a non-empty list: (minX, minY, maxX, maxY). */
  datatype Bounds = Bounds(minX: real, minY: real, maxX: real, maxY: real)

  function BoundsOf(rects: seq<Rect>): (b: Bounds)
    requires rects != []
    ensures forall i :: 0 <= i < |rects| ==>
      b.minX <= rects[i].x && b.minY <= rects[i].y &&
      rects[i].x + rects[i].width <= b.maxX && rects[i].y + rects[i].height <= b.maxY
    decreases |rects|
  {
    var r := rects[|rects| - 1];
    if |rects| == 1 then Bounds(r.x, r.y, r.x + r.width, r.y + r.height)
    else
      var b := BoundsOf(rects[..|rects| - 1]);
      Bounds(Min(b.minX, r.x), Min(b.minY, r.y), Max(b.maxX, r.x + r.width), Max(b.maxY, r.y + r.height))
  }

  /** The box is the smallest one: each of its four edges is an edge of some rect. */
  lemma {:induction false} BoundsTight(rects: seq<Rect>)
    requires rects != []
    ensures var b := BoundsOf(rects);
      (exists i :: 0 <= i < |rects| && b.minX == rects[i].x) &&
      (exists i :: 0 <= i < |rects| && b.minY == rects[i].y) &&
      (exists i :: 0 <= i < |rects| && b.maxX == rects[i].x + rects[i].width) &&
      (exists i :: 0 <= i < |rects| && b.maxY == rects[i].y + rects[i].height)
    decreases |rects|
  {
    var n := |rects| - 1;
    if n > 0 {
      var front := rects[..n];
      BoundsTight(front);
      var b, r := BoundsOf(front), rects[n];
      var i0 :| 0 <= i0 < n && b.minX == front[i0].x;
      var i1 :| 0 <= i1 < n && b.minY == front[i1].y;
      var i2 :| 0 <= i2 < n && b.maxX == front[i2].x + front[i2].width;
      var i3 :| 0 <= i3 < n && b.maxY == front[i3].y + front[i3].height;
      var c := BoundsOf(rects);
      assert c.minX == rects[if b.minX <= r.x then i0 else n].x;
      assert c.minY == rects[if b.minY <= r.y then i1 else n].y;
      var j2 := if b.maxX >= r.x + r.width then i2 else n;
      assert c.maxX == rects[j2].x + rects[j2].width;
      var j3 := if b.maxY >= r.y + r.height then i3 else n;
      assert c.maxY == rects[j3].y + rects[j3].height;
    } else {
      assert BoundsOf(rects).minX == rects[0].x;
    }
  }

  /** One more rect widens the box by that rect alone. */
  lemma BoundsSnoc(rects: seq<Rect>, k: nat)
    requires 1 <= k < |rects|
    ensures var b, r := BoundsOf(rects[..k]), rects[k];
      BoundsOf(rects[..k + 1]) ==
      Bounds(Min(b.minX, r.x), Min(b.minY, r.y), Max(b.maxX, r.x + r.width), Max(b.maxY, r.y + r.height))
  {
    assert rects[..k + 1][..k] == rects[..k];
  }

  /** Whether a point lies in a box, edges included. */
  predicate InBounds(b: Bounds, p: Point)
  {
    b.minX <= p.x <= b.maxX && b.minY <= p.y <= b.maxY
  }

  /**
   * isPointInSelectionBox: false for no rects; otherwise whether the point lies, edges included,
   * in the union bounding box of the rects.  The accumulators start at the first rect instead of
   * at plus and minus infinity, which is the same box after the first step.
   */
  method IsPointInSelectionBox(rects: seq<Rect>, point: Point) returns (inside: bool)
    ensures rects == [] ==> !inside
    ensures rects != [] ==> (inside <==> InBounds(BoundsOf(rects), point))
  {
    if |rects| == 0 {
      return false;
    }
    var minX, minY := rects[0].x, rects[0].y;
    var maxX, maxY := rects[0].x + rects[0].width, rects[0].y + rects[0].height;
    assert Bounds(minX, minY, maxX, maxY) == BoundsOf(rects[..1]);
    for k := 1 to |rects|
      invariant Bounds(minX, minY, maxX, maxY) == BoundsOf(rects[..k])
    {
      BoundsSnoc(rects, k);
      var box := rects[k];
      minX := Min(minX, box.x);
      minY := Min(minY, box.y);
      maxX := Max(maxX, box.x + box.width);
      maxY := Max(maxY, box.y + box.height);
    }
    assert rects[..|rects|] == rects;
    inside := point.x >= minX && point.x <= maxX && point.y >= minY && point.y <= maxY;
  }

  /** A point of any one of the rects passes the hit test. */
  lemma PointOfRectInSelectionBox(rects: seq<Rect>, i: nat, p: Point)
    requires i < |rects|
    requires rects[i].x <= p.x <= rects[i].x + rects[i].width
    requires rects[i].y <= p.y <= rects[i].y + rects[i].height
    ensures InBounds(BoundsOf(rects), p)
  {
  }

  /** isRectOverlap: the interiors intersect (strict comparisons on all four sides). */
  predicate RectOverlap(a: Rect, b: Rect)
  {
    a.x < b.x + b.width && a.x + a.width > b.x && a.y < b.y + b.height && a.y + a.height > b.y
  }

  /** Overlap does not depend on the order of the two rects. */
  lemma RectOverlapSymmetric(a: Rect, b: Rect)
    ensures RectOverlap(a, b) <==> RectOverlap(b, a)
  {
  }

  /** Rects that only share an edge do not overlap. */
  lemma TouchingRectsDoNotOverlap(a: Rect, b: Rect)
    requires a.x + a.width == b.x || b.x + b.width == a.x || a.y + a.height == b.y || b.y + b.height == a.y
    requires a.width >= 0.0 && a.height >= 0.0 && b.width >= 0.0 && b.height >= 0.0
    ensures !RectOverlap(a, b)
  {
  }

  /** A rect overlaps itself exactly when it has positive area. */
  lemma RectOverlapSelf(a: Rect)
    ensures RectOverlap(a, a) <==> a.width > 0.0 && a.height > 0.0
  {
  }

  /**
   * getNewScalePoint: the stage position after zooming to `newScale` that keeps `anchor` (by
   * default the centre of the stage) over the same canvas point.
   */
  function NewScalePoint(stagePos: Point, scale: real, stageSize: Size, newScale: real, anchor: Option<Point>): (r: Point)
    requires scale > 0.0
  {
    var point := anchor.GetOr(Point(stageSize.width / 2.0, stageSize.height / 2.0));
    var pointTo := Point((point.x - stagePos.x) / scale, (point.y - stagePos.y) / scale);
    Point(point.x - pointTo.x * newScale, point.y - pointTo.y * newScale)
  }

  /** The anchor maps to the same canvas point before and after the zoom. */
  lemma NewScalePointKeepsAnchor(stagePos: Point, scale: real, stageSize: Size, newScale: real, anchor: Option<Point>)
    requires scale > 0.0 && newScale > 0.0
    ensures var point := anchor.GetOr(Point(stageSize.width / 2.0, stageSize.height / 2.0));
      CanvasPointer(point, NewScalePoint(stagePos, scale, stageSize, newScale, anchor), newScale) ==
      CanvasPointer(point, stagePos, scale)
  {
    var point := anchor.GetOr(Point(stageSize.width / 2.0, stageSize.height / 2.0));
    var r := NewScalePoint(stagePos, scale, stageSize, newScale, anchor);
    var before := CanvasPointer(point, stagePos, scale);
    assert point.x - r.x == before.x * newScale;
    assert point.y - r.y == before.y * newScale;
  }

  /** Zooming to the current scale leaves the stage where it is. */
  lemma NewScalePointSameScale(stagePos: Point, scale: real, stageSize: Size, anchor: Option<Point>)
    requires scale > 0.0
    ensures NewScalePoint(stagePos, scale, stageSize, scale, anchor) == stagePos
  {
    var point := anchor.GetOr(Point(stageSize.width / 2.0, stageSize.height / 2.0));
    assert (point.x - stagePos.x) / scale * scale == point.x - stagePos.x;
    assert (point.y - stagePos.y) / scale * scale == point.y - stagePos.y;
  }

  /**
   * `targetRatio > layer.width / layer.height` with JavaScript's rules for a zero height: the
   * quotient is +Infinity for a positive width, -Infinity for a negative one and NaN for zero.
   */
  predicate WiderThan(target: real, width: real, height: real)
  {
    if height != 0.0 then target > width / height else width < 0.0
  }

  /**
   * getExpandRect: the frame drawn around the layer box in expand mode.  A missing layer, a
   * missing or zero ratio, or (for the original ratio) a missing or zero times value gives the
   * zero rect.
   */
  function ExpandRect(box: Option<Rect>, ratio: Option<Ratio>, times: Option<real>): (r: Rect)
    ensures box.None? || ratio.None? || ratio == Some(Numeric(0.0)) ==> r == ZeroRect
    ensures ratio == Some(Original) && (times.None? || times == Some(0.0)) ==> r == ZeroRect
  {
    if box.None? || ratio.None? || ratio == Some(Numeric(0.0)) then ZeroRect
    else
      var b := box.value;
      match ratio.value
      case Original =>
        if times.None? || times.value == 0.0 then ZeroRect
        else
          var t := times.value;
          Rect(b.x - b.width * (t - 1.0) / 2.0, b.y - b.height * (t - 1.0) / 2.0, b.width * t, b.height * t)
      case Numeric(target) =>
        var (w, h) := if WiderThan(target, b.width, b.height) then (b.height * target, b.height)
                      else (b.width, b.width / target);
        Rect(b.x + (b.width - w) / 2.0, b.y + (b.height - h) / 2.0, w, h)
  }

  /** The centre of a rect. */
  function Centre(r: Rect): Point
  {
    Point(r.x + r.width / 2.0, r.y + r.height / 2.0)
  }

  /** Whether `outer` holds `inner` entirely. */
  predicate Contains(outer: Rect, inner: Rect)
  {
    outer.x <= inner.x && inner.x + inner.width <= outer.x + outer.width &&
    outer.y <= inner.y && inner.y + inner.height <= outer.y + outer.height
  }

  /** With the original ratio, both sides are scaled by the times value around the layer's centre. */
  lemma ExpandOriginal(b: Rect, t: real)
    requires t != 0.0
    ensures var r := ExpandRect(Some(b), Some(Original), Some(t));
      r.width == b.width * t && r.height == b.height * t && Centre(r) == Centre(b)
  {
  }

  /**
   * With a positive numeric ratio and a box of positive size, the frame has that ratio, keeps one
   * side of the layer, holds the whole layer box and shares its centre.
   */
  lemma ExpandNumeric(b: Rect, target: real)
    requires target > 0.0 && b.width > 0.0 && b.height > 0.0
    ensures var r := ExpandRect(Some(b), Some(Numeric(target)), None);
      r.width == target * r.height &&
      (r.width == b.width || r.height == b.height) &&
      Contains(r, b) && Centre(r) == Centre(b)
  {
    var r := ExpandRect(Some(b), Some(Numeric(target)), None);
    if target > b.width / b.height {
      assert r.height == b.height && r.width == b.height * target;
      assert b.height * target > b.height * (b.width / b.height);
    } else {
      assert r.width == b.width && r.height == b.width / target;
      assert target * b.height <= b.width;
      assert r.height * target == b.width;
    }
  }
}
