/**
 * One layer's image on the canvas: its local size, reference image size and crop, the resize
 * arithmetic that keeps the crop in step with the drawn size, the click selection, and the pen
 * strokes drawn over it.
 */
module KonvaLayerImage {
  import opened Common
  import opened Seqs
  import opened KonvaGeometry
  import opened KonvaEditor
  import opened KonvaMenu

  /** The transformer handle being dragged; anything else (the rotater, none) is `OtherAnchor`. */
  datatype Anchor =
    | TopLeft | TopRight | BottomLeft | BottomRight
    | MiddleLeft | MiddleRight | TopCenter | BottomCenter
    | OtherAnchor

  predicate IsCorner(a: Anchor)
  {
    a == TopLeft || a == TopRight || a == BottomLeft || a == BottomRight
  }

  /** `v || d` on a number: a zero falls back to `d`. */
  function OrElse(v: real, d: real): (r: real)
    ensures r == (if v == 0.0 then d else v)
  {
    if v != 0.0 then v else d
  }

  const MinSide: real := 20.0
  const MaxSide: real := 1024.0

  /**
   * The component's local state: the drawn size, the size of the whole image at the current
   * scale (the crop's yardstick), the crop, the `imgWidth`/`imgHeight` attributes written on the
   * shape, and whether a pen stroke is in progress.
   */
  class LayerImageState {
    var size: Size
    var imageSize: Size
    var cropRect: Rect
    var nodeImgSize: Size
    var isDrawing: bool

    ghost predicate Valid()
      reads this
    {
      size.width > 0.0 && size.height > 0.0 && imageSize.width > 0.0 && imageSize.height > 0.0
    }

    /** The state a layer starts from; a layer is created with positive sizes. */
    constructor (a: Attrs)
      requires a.width > 0.0 && a.height > 0.0 && a.imgWidth > 0.0 && a.imgHeight > 0.0
      ensures Valid() && !isDrawing
      ensures size == Size(a.width, a.height) && imageSize == Size(a.imgWidth, a.imgHeight)
      ensures cropRect == Rect(a.cropX, a.cropY, a.cropWidth, a.cropHeight) && nodeImgSize == imageSize
    {
      size, imageSize := Size(a.width, a.height), Size(a.imgWidth, a.imgHeight);
      cropRect, nodeImgSize := Rect(a.cropX, a.cropY, a.cropWidth, a.cropHeight), Size(a.imgWidth, a.imgHeight);
      isDrawing := false;
    }

    /** The effect that runs when the layer's value changes: the local state is read from it again. */
    method Sync(a: Attrs)
      requires a.width > 0.0 && a.height > 0.0 && a.imgWidth > 0.0 && a.imgHeight > 0.0
      modifies this
      ensures Valid() && isDrawing == old(isDrawing)
      ensures size == Size(a.width, a.height) && imageSize == Size(a.imgWidth, a.imgHeight)
      ensures cropRect == Rect(a.cropX, a.cropY, a.cropWidth, a.cropHeight) && nodeImgSize == imageSize
    {
      size := Size(a.width, a.height);
      cropRect := Rect(a.cropX, a.cropY, a.cropWidth, a.cropHeight);
      imageSize := Size(a.imgWidth, a.imgHeight);
      nodeImgSize := Size(a.imgWidth, a.imgHeight);
    }

    /**
     * handleTransform.  `scaledWidth` and `scaledHeight` are the shape's size times its scale at
     * this step of the gesture; `image` is the natural size of the loaded image.  The new size is
     * clamped into [MinSide, MaxSide].  A corner keeps the crop and rescales the yardstick by the
     * change of size; an edge recomputes the crop and the yardstick as EdgeResized describes.
     */
    method HandleTransform(anchor: Anchor, scaledWidth: real, scaledHeight: real, image: Size)
      requires Valid() && image.width > 0.0 && image.height > 0.0
      modifies this
      ensures Valid() && isDrawing == old(isDrawing)
      ensures size == Size(Clamp(MinSide, MaxSide, scaledWidth), Clamp(MinSide, MaxSide, scaledHeight))
      ensures IsCorner(anchor) ==>
        cropRect == old(cropRect) && nodeImgSize == imageSize &&
        imageSize == CornerYard(old(size), size, old(imageSize))
      ensures !IsCorner(anchor) ==>
        EdgeResized(anchor, size, old(imageSize), old(cropRect), image, cropRect, imageSize) &&
        nodeImgSize == (if imageSize == old(imageSize) then old(nodeImgSize) else imageSize)
    {
      var newWidth := Min(Max(MinSide, scaledWidth), MaxSide);
      var newHeight := Min(Max(MinSide, scaledHeight), MaxSide);
      assert MinSide <= newWidth <= MaxSide && MinSide <= newHeight <= MaxSide;
      if IsCorner(anchor) {
        imageSize := CornerYard(size, Size(newWidth, newHeight), imageSize);
        nodeImgSize := imageSize;
      } else {
        var newCrop, newYard := EdgeResize(anchor, newWidth, newHeight, imageSize, cropRect, image);
        EdgeCropResized(anchor, Size(newWidth, newHeight), imageSize, cropRect, image);
        if newYard != imageSize {
          nodeImgSize := newYard;
        }
        cropRect, imageSize := newCrop, newYard;
      }
      size := Size(newWidth, newHeight);
    }
  }

  /**
   * The yardstick after a corner drag from `size` to `newSize`: each side scaled by the change of
   * the drawn size along it, so the yardstick keeps its proportion to the drawn size.
   */
  function CornerYard(size: Size, newSize: Size, yard: Size): (r: Size)
    requires size.width > 0.0 && size.height > 0.0 && newSize.width > 0.0 && newSize.height > 0.0
    requires yard.width > 0.0 && yard.height > 0.0
    ensures r.width > 0.0 && r.height > 0.0
    ensures r.width * size.width == newSize.width * yard.width
    ensures r.height * size.height == newSize.height * yard.height
  {
    var fw, fh := newSize.width / size.width, newSize.height / size.height;
    assert fw > 0.0 && fh > 0.0;
    assert fw * size.width == newSize.width && fh * size.height == newSize.height;
    Size(fw * yard.width, fh * yard.height)
  }

  /**
   * The edge branch of handleTransform, on its local crop terms: start from the crop (a zero side
   * counting as the image's), apply the width half, then the height half, then clamp the origin
   * at zero.  Each half may grow the yardstick; the height half's wins.  The source's sequence of
   * local updates, proved against the function EdgeCrop that the lemmas below are about.
   */
  method EdgeResize(anchor: Anchor, newWidth: real, newHeight: real, yard: Size, crop: Rect, image: Size)
    returns (r: Rect, newYard: Size)
    requires newWidth > 0.0 && newHeight > 0.0 && image.width > 0.0 && image.height > 0.0
    ensures (r, newYard) == EdgeCrop(anchor, Size(newWidth, newHeight), yard, crop, image)
  {
    var size := Size(newWidth, newHeight);
    var t := Rect(crop.x, crop.y, OrElse(crop.width, image.width), OrElse(crop.height, image.height));
    var byWidth, byHeight;
    t, byWidth := WidthStep(anchor, size, yard, crop, image, t);
    t, byHeight := HeightStep(anchor, size, yard, crop, image, t);
    newYard := yard;
    if byWidth.Some? {
      newYard := byWidth.value;
    }
    if byHeight.Some? {
      newYard := byHeight.value;
    }
    r := Rect(Max(0.0, t.x), Max(0.0, t.y), t.width, t.height);
  }

  /**
   * The width half of handleTransform's edge branch, on the crop terms `t`, step by step as the
   * source updates it; proved against the function WidthHalf.
   */
  method WidthStep(anchor: Anchor, size: Size, yard: Size, crop: Rect, image: Size, t: Rect)
    returns (u: Rect, grown: Option<Size>)
    requires size.width > 0.0 && size.height > 0.0 && image.width > 0.0 && image.height > 0.0
    ensures (u, grown) == WidthHalf(anchor, size, yard, crop, image, t)
  {
    var newCropX, newCropY, newCropWidth, newCropHeight := t.x, t.y, t.width, t.height;
    grown := None;
    if size.width > yard.width {
      var aspectRatio := size.width / size.height;
      grown := Some(Size(size.width, size.width / (image.width / image.height)));
      newCropWidth := image.width;
      newCropHeight := image.width / aspectRatio;
      newCropX := 0.0;
      newCropY := newCropY + (crop.height - newCropHeight) / 2.0;
    } else if size.width < yard.width {
      if anchor == MiddleLeft {
        newCropWidth := size.width / yard.width * image.width;
        newCropX := newCropX - newCropWidth + crop.width;
      } else if anchor == MiddleRight {
        newCropWidth := size.width / yard.width * image.width;
        if newCropWidth + newCropX > image.width {
          newCropX := newCropX - (newCropWidth + newCropX - image.width);
        }
      }
    }
    u := Rect(newCropX, newCropY, newCropWidth, newCropHeight);
    ghost var spec := WidthHalf(anchor, size, yard, crop, image, t);
    assert u.x == spec.0.x && u.y == spec.0.y && u.width == spec.0.width && u.height == spec.0.height;
    assert grown.Some? <==> spec.1.Some?;
    assert grown.Some? ==> grown.value.width == spec.1.value.width && grown.value.height == spec.1.value.height;
  }

  /**
   * The height half of handleTransform's edge branch, on the crop terms `t`, step by step as the
   * source updates it; proved against the function HeightHalf.
   */
  method HeightStep(anchor: Anchor, size: Size, yard: Size, crop: Rect, image: Size, t: Rect)
    returns (u: Rect, grown: Option<Size>)
    requires size.width > 0.0 && size.height > 0.0 && image.width > 0.0 && image.height > 0.0
    ensures (u, grown) == HeightHalf(anchor, size, yard, crop, image, t)
  {
    var newCropX, newCropY, newCropWidth, newCropHeight := t.x, t.y, t.width, t.height;
    grown := None;
    if size.height > yard.height {
      var aspectRatio := size.width / size.height;
      grown := Some(Size(size.height * (image.width / image.height), size.height));
      newCropWidth := image.height * aspectRatio;
      newCropHeight := image.height;
      newCropY := 0.0;
      newCropX := newCropX + (crop.width - newCropWidth) / 2.0;
    } else if size.height < yard.height {
      if anchor == TopCenter {
        newCropHeight := size.height / yard.height * image.height;
        newCropY := newCropY - newCropHeight + crop.height;
      } else if anchor == BottomCenter {
        newCropHeight := size.height / yard.height * image.height;
        if newCropHeight + newCropY > image.height {
          newCropY := newCropY - (newCropHeight + newCropY - image.height);
        }
      }
    }
    u := Rect(newCropX, newCropY, newCropWidth, newCropHeight);
    ghost var spec := HeightHalf(anchor, size, yard, crop, image, t);
    assert u.x == spec.0.x && u.y == spec.0.y && u.width == spec.0.width && u.height == spec.0.height;
    assert grown.Some? <==> spec.1.Some?;
    assert grown.Some? ==> grown.value.width == spec.1.value.width && grown.value.height == spec.1.value.height;
  }

  /** The width half of an edge resize on the crop terms `t`; a grown width yields a yardstick. */
  function WidthHalf(anchor: Anchor, size: Size, yard: Size, crop: Rect, image: Size, t: Rect): (Rect, Option<Size>)
    requires size.width > 0.0 && size.height > 0.0 && image.width > 0.0 && image.height > 0.0
  {
    if size.width > yard.width then
      var h := image.width / (size.width / size.height);
      (Rect(0.0, t.y + (crop.height - h) / 2.0, image.width, h),
       Some(Size(size.width, size.width / (image.width / image.height))))
    else if size.width < yard.width && anchor == MiddleLeft then
      var w := size.width / yard.width * image.width;
      (Rect(t.x - w + crop.width, t.y, w, t.height), None)
    else if size.width < yard.width && anchor == MiddleRight then
      var w := size.width / yard.width * image.width;
      (Rect(if w + t.x > image.width then t.x - (w + t.x - image.width) else t.x, t.y, w, t.height), None)
    else (t, None)
  }

  /** The height half: the mirror image of WidthHalf. */
  function HeightHalf(anchor: Anchor, size: Size, yard: Size, crop: Rect, image: Size, t: Rect): (Rect, Option<Size>)
    requires size.width > 0.0 && size.height > 0.0 && image.width > 0.0 && image.height > 0.0
  {
    if size.height > yard.height then
      var w := image.height * (size.width / size.height);
      (Rect(t.x + (crop.width - w) / 2.0, 0.0, w, image.height),
       Some(Size(size.height * (image.width / image.height), size.height)))
    else if size.height < yard.height && anchor == TopCenter then
      var h := size.height / yard.height * image.height;
      (Rect(t.x, t.y - h + crop.height, t.width, h), None)
    else if size.height < yard.height && anchor == BottomCenter then
      var h := size.height / yard.height * image.height;
      (Rect(t.x, if h + t.y > image.height then t.y - (h + t.y - image.height) else t.y, t.width, h), None)
    else (t, None)
  }

  /** The crop and yardstick an edge resize to `size` ends on. */
  function EdgeCrop(anchor: Anchor, size: Size, yard: Size, crop: Rect, image: Size): (Rect, Size)
    requires size.width > 0.0 && size.height > 0.0 && image.width > 0.0 && image.height > 0.0
  {
    var t0 := Rect(crop.x, crop.y, OrElse(crop.width, image.width), OrElse(crop.height, image.height));
    var (t1, g1) := WidthHalf(anchor, size, yard, crop, image, t0);
    var (t2, g2) := HeightHalf(anchor, size, yard, crop, image, t1);
    (Rect(Max(0.0, t2.x), Max(0.0, t2.y), t2.width, t2.height),
     if g2.Some? then g2.value else if g1.Some? then g1.value else yard)
  }

  /**
   * A side grown past the yardstick shows the image's full extent on that axis at the shape's
   * aspect (the height taking precedence), with a yardstick of the image's own aspect; a grown
   * width re-centres the crop vertically.  With no side grown the yardstick stays.
   */
  ghost predicate EdgeGrown(anchor: Anchor, size: Size, yard: Size, crop: Rect, image: Size, r: Rect, newYard: Size)
    requires size.width > 0.0 && size.height > 0.0 && image.width > 0.0 && image.height > 0.0
  {
    var grownW, grownH := size.width > yard.width, size.height > yard.height;
    && (grownH ==>
         r.height == image.height && r.y == 0.0 && r.width == image.height * (size.width / size.height) &&
         newYard == Size(size.height * (image.width / image.height), size.height))
    && (grownW && !grownH && anchor != TopCenter && anchor != BottomCenter ==>
         r.width == image.width && r.x == 0.0 &&
         r.height == image.width / (size.width / size.height) &&
         r.y == Max(0.0, crop.y + (crop.height - r.height) / 2.0) &&
         newYard == Size(size.width, size.width / (image.width / image.height)))
    && (!grownW && !grownH ==> newYard == yard)
  }

  /**
   * A width shrunk on the left keeps the crop's right edge, on the right keeps the crop inside the
   * image, both before the origin is clamped at zero; an edge that shrinks no width and grows
   * nothing keeps the crop's horizontal terms.
   */
  ghost predicate EdgeShrunkX(anchor: Anchor, size: Size, yard: Size, crop: Rect, image: Size, r: Rect)
    requires size.width > 0.0 && size.height > 0.0 && image.width > 0.0 && image.height > 0.0
  {
    var grownW, grownH := size.width > yard.width, size.height > yard.height;
    && (anchor == MiddleLeft && size.width < yard.width && !grownH ==>
         r.width == size.width / yard.width * image.width &&
         r.x == Max(0.0, crop.x + crop.width - r.width))
    && (anchor == MiddleRight && size.width < yard.width && !grownH ==>
         r.width == size.width / yard.width * image.width &&
         r.x == Max(0.0, if crop.x + r.width > image.width then image.width - r.width else crop.x))
    && (anchor != MiddleLeft && anchor != MiddleRight && !grownW && !grownH ==>
         r.x == Max(0.0, crop.x) && r.width == OrElse(crop.width, image.width))
  }

  /** The vertical mirror image of EdgeShrunkX. */
  ghost predicate EdgeShrunkY(anchor: Anchor, size: Size, yard: Size, crop: Rect, image: Size, r: Rect)
    requires size.width > 0.0 && size.height > 0.0 && image.width > 0.0 && image.height > 0.0
  {
    var grownW, grownH := size.width > yard.width, size.height > yard.height;
    && (anchor == TopCenter && size.height < yard.height && !grownW ==>
         r.height == size.height / yard.height * image.height &&
         r.y == Max(0.0, crop.y + crop.height - r.height))
    && (anchor == BottomCenter && size.height < yard.height && !grownW ==>
         r.height == size.height / yard.height * image.height &&
         r.y == Max(0.0, if crop.y + r.height > image.height then image.height - r.height else crop.y))
    && (anchor != TopCenter && anchor != BottomCenter && !grownW && !grownH ==>
         r.y == Max(0.0, crop.y) && r.height == OrElse(crop.height, image.height))
  }

  /**
   * What an edge resize to `size` promises, from the yardstick and crop before it to the crop `r`
   * and yardstick `newYard` after it: the crop's origin is never negative, and the grown and
   * shrunk sides behave as EdgeGrown, EdgeShrunkX and EdgeShrunkY say.
   */
  ghost predicate EdgeResized(anchor: Anchor, size: Size, yard: Size, crop: Rect, image: Size, r: Rect, newYard: Size)
    requires size.width > 0.0 && size.height > 0.0 && image.width > 0.0 && image.height > 0.0
  {
    && r.x >= 0.0 && r.y >= 0.0
    && EdgeGrown(anchor, size, yard, crop, image, r, newYard)
    && EdgeShrunkX(anchor, size, yard, crop, image, r)
    && EdgeShrunkY(anchor, size, yard, crop, image, r)
  }

  lemma EdgeCropGrown(anchor: Anchor, size: Size, yard: Size, crop: Rect, image: Size)
    requires size.width > 0.0 && size.height > 0.0 && image.width > 0.0 && image.height > 0.0
    ensures var (r, newYard) := EdgeCrop(anchor, size, yard, crop, image);
      EdgeGrown(anchor, size, yard, crop, image, r, newYard)
  {
  }

  lemma EdgeCropShrunkX(anchor: Anchor, size: Size, yard: Size, crop: Rect, image: Size)
    requires size.width > 0.0 && size.height > 0.0 && image.width > 0.0 && image.height > 0.0
    ensures EdgeShrunkX(anchor, size, yard, crop, image, EdgeCrop(anchor, size, yard, crop, image).0)
  {
  }

  lemma EdgeCropShrunkY(anchor: Anchor, size: Size, yard: Size, crop: Rect, image: Size)
    requires size.width > 0.0 && size.height > 0.0 && image.width > 0.0 && image.height > 0.0
    ensures EdgeShrunkY(anchor, size, yard, crop, image, EdgeCrop(anchor, size, yard, crop, image).0)
  {
  }

  /** An edge resize keeps every promise of EdgeResized. */
  lemma EdgeCropResized(anchor: Anchor, size: Size, yard: Size, crop: Rect, image: Size)
    requires size.width > 0.0 && size.height > 0.0 && image.width > 0.0 && image.height > 0.0
    ensures var (r, newYard) := EdgeCrop(anchor, size, yard, crop, image);
      EdgeResized(anchor, size, yard, crop, image, r, newYard)
  {
    EdgeCropGrown(anchor, size, yard, crop, image);
    EdgeCropShrunkX(anchor, size, yard, crop, image);
    EdgeCropShrunkY(anchor, size, yard, crop, image);
  }

  /**
   * A side grown on an edge shows the crop at exactly the shape's aspect ratio, and the yardstick
   * keeps the image's own aspect ratio.
   */
  lemma GrownCropKeepsAspect(crop: Rect, size: Size, yard: Size, image: Size)
    requires size.width > 0.0 && size.height > 0.0 && image.width > 0.0 && image.height > 0.0
    requires (crop.height == image.height && crop.width == image.height * (size.width / size.height) &&
              yard == Size(size.height * (image.width / image.height), size.height)) ||
             (crop.width == image.width && crop.height == image.width / (size.width / size.height) &&
              yard == Size(size.width, size.width / (image.width / image.height)))
    ensures crop.width * size.height == crop.height * size.width
    ensures yard.width * image.height == yard.height * image.width
  {
    var aspect := size.width / size.height;
    assert aspect * size.height == size.width;
    var ratio := image.width / image.height;
    assert ratio * image.height == image.width;
    if crop.height == image.height && crop.width == image.height * aspect &&
       yard == Size(size.height * ratio, size.height) {
      assert crop.width * size.height == image.height * (aspect * size.height);
    } else {
      assert crop.height * aspect == image.width;
      assert crop.height * size.width == crop.height * (aspect * size.height);
      assert yard.height * ratio == yard.width;
      assert yard.height * image.width == yard.height * (ratio * image.height);
    }
  }

  // ----- selection -----

  /**
   * handleSelect: with shift the id is toggled; without it the id is selected alone, unless it is
   * already part of a selection of several, which is kept.
   */
  function ClickSelection(selected: seq<Id>, id: Id, shift: bool): (r: seq<Id>)
    ensures shift ==> (id in r <==> id !in selected) && forall x :: x != id ==> (x in r <==> x in selected)
    ensures !shift && id in selected && |selected| > 1 ==> r == selected
    ensures !shift && !(id in selected && |selected| > 1) ==> r == [id]
    ensures id in r <==> !(shift && id in selected)
  {
    if shift then
      if id in selected then Filter(selected, NotEq(id)) else selected + [id]
    else if id in selected && |selected| > 1 then selected
    else [id]
  }

  /** On the canvas a click differs from a click in the panel only by keeping a multi-selection. */
  lemma ClickSelectionMatchesPanel(selected: seq<Id>, id: Id, shift: bool)
    ensures !(!shift && id in selected && |selected| > 1) ==>
      ClickSelection(selected, id, shift) == PanelSelection(selected, id, shift)
  {
  }

  /** handleDragStart: only a drag within a multi-selection touches the selection. */
  method HandleDragStart(ed: KEditor, id: Id, shift: bool, multiSelected: bool)
    modifies ed
    ensures ed.StateOf() == old(ed.StateOf()).(selected :=
      if multiSelected then ClickSelection(old(ed.selected), id, shift) else old(ed.selected))
  {
    if !multiSelected {
      return;
    }
    ed.SetSelectedIds(ClickSelection(ed.selected, id, shift));
  }

  // ----- pen strokes -----

  /** A new stroke at `p` with the current tool and width. */
  function StartLine(s: EditState, p: Point): (r: EditState)
    ensures r.lines.Some? && r.lines.value == s.lines.GetOr([]) + [Line(s.tool, [p.x, p.y], s.penWidth)]
    ensures r.(lines := s.lines) == s
  {
    s.(lines := Some(s.lines.GetOr([]) + [Line(s.tool, [p.x, p.y], s.penWidth)]))
  }

  /** `p` appended to the last stroke; the others stay. */
  function ExtendLine(s: EditState, p: Point): (r: EditState)
    requires s.lines.Some? && s.lines.value != []
    ensures r.lines.Some? && |r.lines.value| == |s.lines.value|
    ensures var n := |s.lines.value|;
      r.lines.value[..n - 1] == s.lines.value[..n - 1] &&
      r.lines.value[n - 1] == s.lines.value[n - 1].(points := s.lines.value[n - 1].points + [p.x, p.y])
    ensures r.(lines := s.lines) == s
  {
    var ls := s.lines.value;
    var last := ls[|ls| - 1];
    s.(lines := Some(ls[..|ls| - 1] + [last.(points := last.points + [p.x, p.y])]))
  }

  /** The flat coordinate list x0, y0, x1, y1, ... of a run of points. */
  function Flat(ps: seq<Point>): (r: seq<real>)
    ensures |r| == 2 * |ps|
  {
    if ps == [] then [] else Flat(ps[..|ps| - 1]) + [ps[|ps| - 1].x, ps[|ps| - 1].y]
  }

  /** The settings after a stroke starts at `p` and the pointer then moves through `ps`. */
  function Stroke(s: EditState, p: Point, ps: seq<Point>): (r: EditState)
    ensures r.lines.Some? && r.lines.value != []
  {
    if ps == [] then StartLine(s, p) else ExtendLine(Stroke(s, p, ps[..|ps| - 1]), ps[|ps| - 1])
  }

  /**
   * A whole stroke adds exactly one line, after the earlier ones, holding every point in order, with
   * the tool and width current when it started; nothing else in the settings changes.
   */
  lemma {:induction false} StrokeLines(s: EditState, p: Point, ps: seq<Point>)
    ensures var r := Stroke(s, p, ps);
      var before := s.lines.GetOr([]);
      r.lines.value == before + [Line(s.tool, [p.x, p.y] + Flat(ps), s.penWidth)] &&
      r.(lines := s.lines) == s
  {
    if ps == [] {
      assert [p.x, p.y] + Flat(ps) == [p.x, p.y];
    } else {
      var init := ps[..|ps| - 1];
      StrokeLines(s, p, init);
      var q := ps[|ps| - 1];
      assert [p.x, p.y] + Flat(ps) == ([p.x, p.y] + Flat(init)) + [q.x, q.y];
      var prev := Stroke(s, p, init);
      var before := s.lines.GetOr([]);
      assert prev.lines.value[..|prev.lines.value| - 1] == before;
    }
  }

  /**
   * handleMouseDown.  In pen mode a stroke starts at the pointer's canvas position; otherwise a
   * click on a shape outside a multi-selection selects it.
   */
  method HandleMouseDown(ed: KEditor, st: LayerImageState, id: Id, shift: bool, multiSelected: bool, pointer: Point)
    requires ed.Valid()
    modifies ed, st
    ensures ed.Valid()
    ensures old(ed.cursor) == Pen ==>
      st.isDrawing &&
      ed.StateOf() == old(ed.StateOf()).(editState :=
        StartLine(old(ed.editState), CanvasPointer(pointer, old(ed.stagePos), old(ed.stageScale))))
    ensures old(ed.cursor) != Pen ==>
      st.isDrawing == old(st.isDrawing) &&
      ed.StateOf() == old(ed.StateOf()).(selected :=
        if multiSelected then old(ed.selected) else ClickSelection(old(ed.selected), id, shift))
    ensures st.size == old(st.size) && st.cropRect == old(st.cropRect) && st.imageSize == old(st.imageSize)
    ensures st.nodeImgSize == old(st.nodeImgSize)
  {
    if ed.cursor == Pen {
      st.isDrawing := true;
      var mousePos := CanvasPointer(pointer, ed.stagePos, ed.stageScale);
      ed.editState := StartLine(ed.editState, mousePos);
      return;
    }
    if multiSelected {
      return;
    }
    ed.SetSelectedIds(ClickSelection(ed.selected, id, shift));
  }

  /**
   * handleMouseMove: while a pen stroke is in progress the pointer's canvas position is appended
   * to the last stroke.  The handler reads the last stroke without a check, so a stroke in progress
   * needs one.
   */
  method HandleMouseMove(ed: KEditor, st: LayerImageState, pointer: Point)
    requires ed.Valid()
    requires st.isDrawing && ed.cursor == Pen ==> ed.editState.lines.Some? && ed.editState.lines.value != []
    modifies ed
    ensures ed.Valid()
    ensures old(st.isDrawing && ed.cursor == Pen) ==>
      ed.StateOf() == old(ed.StateOf()).(editState :=
        ExtendLine(old(ed.editState), CanvasPointer(pointer, old(ed.stagePos), old(ed.stageScale))))
    ensures !old(st.isDrawing && ed.cursor == Pen) ==> ed.StateOf() == old(ed.StateOf())
  {
    if st.isDrawing && ed.cursor == Pen {
      var mousePos := CanvasPointer(pointer, ed.stagePos, ed.stageScale);
      ed.editState := ExtendLine(ed.editState, mousePos);
    }
  }

  /** handleMouseUp and handleMouseLeave: in pen mode the stroke ends. */
  method HandleMouseUp(cursor: Cursor, st: LayerImageState)
    modifies st
    ensures st.isDrawing == (if cursor == Pen then false else old(st.isDrawing))
    ensures st.size == old(st.size) && st.cropRect == old(st.cropRect) && st.imageSize == old(st.imageSize)
    ensures st.nodeImgSize == old(st.nodeImgSize)
  {
    if cursor == Pen {
      st.isDrawing := false;
    }
  }
}
