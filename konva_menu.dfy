/**
 * The canvas editor's side panel: the layer list (drawn last layer first) with its delete, move,
 * fit and visibility actions, the upload entry that creates a layer, the per-layer image history,
 * and the export guards.  Every change a user can undo is recorded as one history action.
 */
module KonvaMenu {
  import opened Common
  import opened Seqs
  import opened History
  import opened Numeric
  import opened KonvaGeometry
  import opened KonvaEditor

  /** A layer's id occurs nowhere else in the list. */
  ghost predicate UniqueIds(ls: seq<Layer>)
  {
    Distinct(Ids(ls))
  }

  /**
   * Replacing the layer at `i` by a layer with the same id is what applying that layer's snapshot
   * does, and applying the old snapshot afterwards gives the list back.
   */
  lemma SingleNodeChange(ls: seq<Layer>, i: nat, l: Layer)
    requires i < |ls| && UniqueIds(ls) && l.id == ls[i].id
    ensures Merged(ls, [AsNode(l)]) == ls[i := l]
    ensures Merged(ls[i := l], [AsNode(ls[i])]) == ls
  {
    var r := Merged(ls, [AsNode(l)]);
    forall j | 0 <= j < |ls| ensures r[j] == ls[i := l][j] {
      if j != i {
        assert Ids(ls)[j] != Ids(ls)[i];
        assert ls[j].id !in NodeIds([AsNode(l)]);
      }
    }
    var back := Merged(ls[i := l], [AsNode(ls[i])]);
    forall j | 0 <= j < |ls| ensures back[j] == ls[j] {
      if j != i {
        assert Ids(ls)[j] != Ids(ls)[i];
        assert ls[i := l][j].id !in NodeIds([AsNode(ls[i])]);
      }
    }
  }

  // ----- delete -----

  /** removeLayer(id): drop the layer and its selection, record it with its index for undo. */
  method RemoveLayer(ed: KEditor, id: Id)
    requires ed.Valid() && id in Ids(ed.layers)
    modifies ed, ed.history
    ensures ed.Valid()
    ensures ed.StateOf() == WithScene(old(ed.StateOf()), RemovedFromPanel(old(ed.SceneOf()), id))
    ensures var i := IndexOf(Ids(old(ed.layers)), id);
      ed.history.State() == Recorded(old(ed.history.State()),
        Action("undoCreateLayer", LayerProps(old(ed.layers)[i], i, None)))
  {
    var i := IndexOf(Ids(ed.layers), id);
    var l := ed.layers[i];
    ed.layers := Filter(ed.layers, NotId(id));
    ed.SetSelectedIds(Filter(ed.selected, NotEq(id)));
    ed.Record(Action("undoCreateLayer", LayerProps(l, i, None)));
  }

  // ----- reorder -----

  /** moveUpLayer's updater: swap with the previous slot when the layer is found past the first slot. */
  function MovedUp(ls: seq<Layer>, id: Id): (r: seq<Layer>)
    ensures |r| == |ls| && multiset(r) == multiset(ls)
    ensures var k := IndexOf(Ids(ls), id);
      (k <= 0 ==> r == ls) &&
      (k > 0 ==> (r[k - 1] == ls[k] && r[k] == ls[k - 1] &&
                  forall j :: 0 <= j < |ls| && j != k && j != k - 1 ==> r[j] == ls[j]))
  {
    var k := IndexOf(Ids(ls), id);
    if k > 0 then Swap(ls, k, k - 1) else ls
  }

  /**
   * moveDownLayer's updater: swap with the next slot unless the layer is last.  The panel only
   * offers it for a listed layer, so the id is present.
   */
  function MovedDown(ls: seq<Layer>, id: Id): (r: seq<Layer>)
    requires id in Ids(ls)
    ensures |r| == |ls| && multiset(r) == multiset(ls)
    ensures var k := IndexOf(Ids(ls), id);
      (k == |ls| - 1 ==> r == ls) &&
      (k < |ls| - 1 ==> (r[k + 1] == ls[k] && r[k] == ls[k + 1] &&
                  forall j :: 0 <= j < |ls| && j != k && j != k + 1 ==> r[j] == ls[j]))
  {
    var k := IndexOf(Ids(ls), id);
    if k < |ls| - 1 then Swap(ls, k, k + 1) else ls
  }

  lemma IdsSwap(ls: seq<Layer>, i: nat, j: nat)
    requires i < |ls| && j < |ls|
    ensures Ids(Swap(ls, i, j)) == Swap(Ids(ls), i, j)
  {
  }

  /** Distinct ids stay distinct under a swap. */
  lemma SwapDistinct(s: seq<Id>, i: nat, j: nat)
    requires i < |s| && j < |s| && Distinct(s)
    ensures Distinct(Swap(s, i, j))
  {
    var r := Swap(s, i, j);
    forall a, b | 0 <= a < b < |r| ensures r[a] != r[b] {
      var a' := if a == i then j else if a == j then i else a;
      var b' := if b == i then j else if b == j then i else b;
      assert r[a] == s[a'] && r[b] == s[b'] && a' != b';
    }
  }

  /** Moving a layer up, then down again, restores the order when the first move applied. */
  lemma MoveUpThenDown(ls: seq<Layer>, id: Id)
    requires UniqueIds(ls) && IndexOf(Ids(ls), id) > 0
    ensures MovedDown(MovedUp(ls, id), id) == ls
  {
    var k := IndexOf(Ids(ls), id);
    var up := Swap(ls, k, k - 1);
    IdsSwap(ls, k, k - 1);
    SwapDistinct(Ids(ls), k, k - 1);
    IndexOfDistinct(Ids(up), k - 1);
    assert IndexOf(Ids(up), id) == k - 1;
    SwapSymmetric(up, k - 1, k);
    SwapTwice(ls, k, k - 1);
  }

  /** Moving a layer down, then up again, restores the order when the first move applied. */
  lemma MoveDownThenUp(ls: seq<Layer>, id: Id)
    requires UniqueIds(ls) && 0 <= IndexOf(Ids(ls), id) < |ls| - 1
    ensures MovedUp(MovedDown(ls, id), id) == ls
  {
    var k := IndexOf(Ids(ls), id);
    var down := Swap(ls, k, k + 1);
    IdsSwap(ls, k, k + 1);
    SwapDistinct(Ids(ls), k, k + 1);
    IndexOfDistinct(Ids(down), k + 1);
    assert IndexOf(Ids(down), id) == k + 1;
    SwapSymmetric(down, k + 1, k);
    SwapTwice(ls, k, k + 1);
  }

  /** The panel row of the layer at `i`: the list is drawn reversed. */
  function PanelRow(ls: seq<Layer>, i: nat): nat
    requires i < |ls|
  {
    |ls| - 1 - i
  }

  /**
   * The panel disables "up" on its top row and "down" on its bottom row: exactly the rows where
   * the action it runs (moveDownLayer for "up", moveUpLayer for "down") changes nothing.
   */
  lemma PanelDisabledExactlyWhenNoOp(ls: seq<Layer>, i: nat)
    requires i < |ls| && UniqueIds(ls)
    ensures PanelRow(ls, i) == 0 <==> MovedDown(ls, ls[i].id) == ls
    ensures PanelRow(ls, i) == |ls| - 1 <==> MovedUp(ls, ls[i].id) == ls
  {
    IndexOfDistinct(Ids(ls), i);
    if i < |ls| - 1 {
      assert Ids(ls)[i + 1] != Ids(ls)[i];
      assert MovedDown(ls, ls[i].id)[i] == ls[i + 1];
    }
    if i > 0 {
      assert Ids(ls)[i - 1] != Ids(ls)[i];
      assert MovedUp(ls, ls[i].id)[i] == ls[i - 1];
    }
  }

  lemma ReverseDistinct(ls: seq<Layer>)
    requires UniqueIds(ls)
    ensures UniqueIds(Reverse(ls))
  {
    var r := Ids(Reverse(ls));
    forall a, b | 0 <= a < b < |r| ensures r[a] != r[b] {
      assert r[a] == Ids(ls)[|ls| - 1 - a] && r[b] == Ids(ls)[|ls| - 1 - b];
    }
  }

  /**
   * Because the panel lists the layers reversed, the "up" entry's moveDownLayer moves the row one
   * place up in the panel: the reversed list after it is the reversed list with the row moved up.
   */
  lemma PanelUpMovesRowUp(ls: seq<Layer>, id: Id)
    requires UniqueIds(ls) && id in Ids(ls)
    ensures Reverse(MovedDown(ls, id)) == MovedUp(Reverse(ls), id)
  {
    var n := |ls|;
    var i := IndexOf(Ids(ls), id);
    ReversedIndex(ls, id);
    if i < n - 1 {
      assert MovedDown(ls, id) == Swap(ls, i, i + 1);
      assert MovedUp(Reverse(ls), id) == Swap(Reverse(ls), n - 1 - i, n - 2 - i);
      ReverseSwap(ls, i, i + 1);
    }
  }

  /** In the reversed list a layer sits at the mirrored index. */
  lemma ReversedIndex(ls: seq<Layer>, id: Id)
    requires UniqueIds(ls) && id in Ids(ls)
    ensures IndexOf(Ids(Reverse(ls)), id) == |ls| - 1 - IndexOf(Ids(ls), id)
  {
    var i := IndexOf(Ids(ls), id);
    var rev := Reverse(ls);
    ReverseDistinct(ls);
    assert Ids(rev)[|ls| - 1 - i] == id;
    IndexOfDistinct(Ids(rev), |ls| - 1 - i);
  }

  /** And the "down" entry's moveUpLayer moves the row one place down in the panel. */
  lemma PanelDownMovesRowDown(ls: seq<Layer>, id: Id)
    requires UniqueIds(ls) && id in Ids(ls)
    ensures id in Ids(Reverse(ls)) && Reverse(MovedUp(ls, id)) == MovedDown(Reverse(ls), id)
  {
    var rev := Reverse(ls);
    ReverseDistinct(ls);
    var i := IndexOf(Ids(ls), id);
    assert Ids(rev)[|ls| - 1 - i] == id;
    ReverseReverse(ls);
    PanelUpMovesRowUp(rev, id);
    var down := MovedDown(rev, id);
    ReverseReverse(down);
  }

  /** Copy the list into a fresh array, swap two slots of the copy through a temporary, read it back. */
  method SwappedCopy(prev: seq<Layer>, i: nat, j: nat) returns (r: seq<Layer>)
    requires i < |prev| && j < |prev|
    ensures r == Swap(prev, i, j)
  {
    var newLayers := new Layer[|prev|](k requires 0 <= k < |prev| => prev[k]);
    assert newLayers[..] == prev;
    newLayers[i], newLayers[j] := newLayers[j], newLayers[i];
    r := newLayers[..];
  }

  method MoveUpLayer(ed: KEditor, id: Id)
    modifies ed
    ensures ed.StateOf() == old(ed.StateOf()).(layers := MovedUp(old(ed.layers), id))
  {
    var prev := ed.layers;
    var index := IndexOf(Ids(prev), id);
    if index > 0 {
      ed.layers := SwappedCopy(prev, index, index - 1);
    }
  }

  method MoveDownLayer(ed: KEditor, id: Id)
    requires id in Ids(ed.layers)
    modifies ed
    ensures ed.StateOf() == old(ed.StateOf()).(layers := MovedDown(old(ed.layers), id))
  {
    var prev := ed.layers;
    var index := IndexOf(Ids(prev), id);
    if index < |prev| - 1 {
      ed.layers := SwappedCopy(prev, index, index + 1);
    }
  }

  // ----- fit to the viewport -----

  /** A missing cached image counts as size 0, as `imagesCache[src]?.width || 0` does. */
  function ImageSizeOr0(img: Option<Size>): Size
  {
    img.GetOr(Size(0.0, 0.0))
  }

  /**
   * The layer fitted to the viewport: scale 1, no rotation, placed at the viewport's corner with
   * the viewport's size, showing the whole image.
   */
  function Fitted(l: Layer, vs: Size, vp: Point, img: Option<Size>): (r: Layer)
    ensures r.id == l.id && r.visible == l.visible
    ensures r.attrs.name == l.attrs.name && r.attrs.imgSrc == l.attrs.imgSrc
    ensures r.attrs.scaleX == 1.0 && r.attrs.scaleY == 1.0 && r.attrs.rotation == 0.0
    ensures r.attrs.x == vp.x && r.attrs.y == vp.y && r.attrs.width == vs.width && r.attrs.height == vs.height
    ensures r.attrs.cropX == 0.0 && r.attrs.cropY == 0.0
    ensures r.attrs.cropWidth == ImageSizeOr0(img).width && r.attrs.cropHeight == ImageSizeOr0(img).height
    ensures r.attrs.imgWidth == vs.width && r.attrs.imgHeight == vs.height
  {
    var a := l.attrs;
    var size := ImageSizeOr0(img);
    l.(attrs := a.(scaleX := 1.0, scaleY := 1.0, width := vs.width, height := vs.height,
                   x := vp.x, y := vp.y, cropX := 0.0, cropY := 0.0,
                   cropWidth := size.width, cropHeight := size.height, rotation := 0.0,
                   imgWidth := vs.width, imgHeight := vs.height))
  }

  /** Fitting a fitted layer again changes nothing. */
  lemma FittedIdempotent(l: Layer, vs: Size, vp: Point, img: Option<Size>)
    ensures Fitted(Fitted(l, vs, vp, img), vs, vp, img) == Fitted(l, vs, vp, img)
  {
  }

  /** fitLayer's updater: every layer with the id is fitted; the others stay as they are. */
  function FitAll(ls: seq<Layer>, id: Id, vs: Size, vp: Point, img: Option<Size>): (r: seq<Layer>)
    ensures |r| == |ls| && Ids(r) == Ids(ls)
    ensures forall j :: 0 <= j < |ls| ==> r[j] == (if ls[j].id == id then Fitted(ls[j], vs, vp, img) else ls[j])
  {
    seq(|ls|, j requires 0 <= j < |ls| => if ls[j].id == id then Fitted(ls[j], vs, vp, img) else ls[j])
  }

  /** The snapshot fitLayer records as nextNodes, as written: only scale and position are set. */
  function FitRecordedAsWritten(l: Layer, vp: Point): (r: Layer)
    ensures r.id == l.id && r.attrs.width == l.attrs.width && r.attrs.rotation == l.attrs.rotation
  {
    l.(attrs := l.attrs.(scaleX := 1.0, scaleY := 1.0, x := vp.x, y := vp.y))
  }

  /**
   * With the snapshot as written, redoing a fit does not give the fitted layer back: a layer of
   * width 100 fitted into a 512-wide viewport comes back 100 wide.
   */
  lemma FitRedoAsWrittenDiffers()
    ensures var a := Attrs("", "", 10.0, 10.0, 100.0, 100.0, 2.0, 2.0, 0.0, 0.0, 0.0, 50.0, 50.0, 100.0, 100.0);
      var l := Layer("a", true, a);
      var vs, vp, img := Size(512.0, 512.0), Point(0.0, 0.0), Some(Size(50.0, 50.0));
      var fitted := FitAll([l], "a", vs, vp, img);
      var redone := Merged([l], [AsNode(FitRecordedAsWritten(l, vp))]);
      redone != fitted && redone[0].attrs.width == 100.0 && fitted[0].attrs.width == 512.0
  {
    var a := Attrs("", "", 10.0, 10.0, 100.0, 100.0, 2.0, 2.0, 0.0, 0.0, 0.0, 50.0, 50.0, 100.0, 100.0);
    var l := Layer("a", true, a);
    var redone := Merged([l], [AsNode(FitRecordedAsWritten(l, Point(0.0, 0.0)))]);
    assert "a" in NodeIds([AsNode(FitRecordedAsWritten(l, Point(0.0, 0.0)))]);
    assert redone[0].attrs.width == 100.0;
  }

  /** With unique ids, fitting the layer at `i` replaces just that slot. */
  lemma FitAllOne(ls: seq<Layer>, i: nat, vs: Size, vp: Point, img: Option<Size>)
    requires i < |ls| && UniqueIds(ls)
    ensures FitAll(ls, ls[i].id, vs, vp, img) == ls[i := Fitted(ls[i], vs, vp, img)]
  {
    forall j | 0 <= j < |ls| && j != i ensures ls[j].id != ls[i].id {
      assert Ids(ls)[j] != Ids(ls)[i];
    }
  }

  /**
   * With the fitted layer recorded as nextNodes, undoing a fit gives the list back and redoing it
   * gives the fitted list again.
   */
  lemma FitUndoRedo(ls: seq<Layer>, i: nat, vs: Size, vp: Point, img: Option<Size>)
    requires i < |ls| && UniqueIds(ls)
    ensures var l := ls[i];
      var after := FitAll(ls, l.id, vs, vp, img);
      Merged(after, [AsNode(l)]) == ls && Merged(ls, [AsNode(Fitted(l, vs, vp, img))]) == after
  {
    FitAllOne(ls, i, vs, vp, img);
    SingleNodeChange(ls, i, Fitted(ls[i], vs, vp, img));
  }

  /**
   * The fit's recorded action, as written: undo gives the list back, and redo gives the layer only
   * the recorded scale and position.
   */
  lemma FitRecordedUndoRedo(ls: seq<Layer>, i: nat, vs: Size, vp: Point, img: Option<Size>)
    requires i < |ls| && UniqueIds(ls)
    ensures var l := ls[i];
      var after := FitAll(ls, l.id, vs, vp, img);
      Merged(after, [AsNode(l)]) == ls &&
      Merged(ls, [AsNode(FitRecordedAsWritten(l, vp))]) == ls[i := FitRecordedAsWritten(l, vp)]
  {
    FitAllOne(ls, i, vs, vp, img);
    SingleNodeChange(ls, i, Fitted(ls[i], vs, vp, img));
    SingleNodeChange(ls, i, FitRecordedAsWritten(ls[i], vp));
  }

  /**
   * fitLayer(id): the layer is fitted, and a changeNode is recorded from its snapshot to the
   * snapshot as written, which carries only the new scale and position (see FitRecordedUndoRedo).
   * The panel offers it for a listed layer only.
   */
  method FitLayer(ed: KEditor, id: Id, img: Option<Size>)
    requires ed.Valid() && id in Ids(ed.layers)
    modifies ed, ed.history
    ensures ed.Valid()
    ensures ed.StateOf() == old(ed.StateOf()).(layers := FitAll(old(ed.layers), id, ed.viewportSize, ed.viewportPos, img))
    ensures var l := old(ed.layers)[IndexOf(Ids(old(ed.layers)), id)];
      ed.history.State() == Recorded(old(ed.history.State()), Action("changeNode",
        ChangeNodeProps([AsNode(l)], [AsNode(FitRecordedAsWritten(l, ed.viewportPos))])))
  {
    var l := ed.layers[IndexOf(Ids(ed.layers), id)];
    ed.layers := FitAll(ed.layers, id, ed.viewportSize, ed.viewportPos, img);
    ed.Record(Action("changeNode", ChangeNodeProps([AsNode(l)], [AsNode(FitRecordedAsWritten(l, ed.viewportPos))])));
  }

  // ----- image history -----

  /**
   * The layer showing another image of its history: the crop is rescaled from the old image's
   * size to the new one's.  Cached images have a non-zero size.
   */
  function WithImageSource(l: Layer, image: string, oldImg: Size, newImg: Size): (r: Layer)
    requires oldImg.width != 0.0 && oldImg.height != 0.0
    ensures r.id == l.id && r.visible == l.visible && r.attrs.imgSrc == image
    ensures r.attrs.cropWidth * oldImg.width == l.attrs.cropWidth * newImg.width
    ensures r.attrs.cropHeight * oldImg.height == l.attrs.cropHeight * newImg.height
    ensures r.attrs.cropX * oldImg.width == l.attrs.cropX * newImg.width
    ensures r.attrs.cropY * oldImg.height == l.attrs.cropY * newImg.height
    ensures r.attrs.x == l.attrs.x && r.attrs.y == l.attrs.y && r.attrs.width == l.attrs.width && r.attrs.height == l.attrs.height
  {
    var a := l.attrs;
    l.(attrs := a.(imgSrc := image,
      cropWidth := a.cropWidth / oldImg.width * newImg.width,
      cropHeight := a.cropHeight / oldImg.height * newImg.height,
      cropX := a.cropX / oldImg.width * newImg.width,
      cropY := a.cropY / oldImg.height * newImg.height))
  }

  /** Switching to an image and back to the first one restores the crop. */
  lemma WithImageSourceBack(l: Layer, image: string, oldImg: Size, newImg: Size)
    requires oldImg.width != 0.0 && oldImg.height != 0.0 && newImg.width != 0.0 && newImg.height != 0.0
    ensures WithImageSource(WithImageSource(l, image, oldImg, newImg), l.attrs.imgSrc, newImg, oldImg) == l
  {
    var a := l.attrs;
    var m := WithImageSource(l, image, oldImg, newImg);
    var b := WithImageSource(m, a.imgSrc, newImg, oldImg);
    assert b.attrs.cropWidth == a.cropWidth;
    assert b.attrs.cropHeight == a.cropHeight;
    assert b.attrs.cropX == a.cropX;
    assert b.attrs.cropY == a.cropY;
  }

  /** The snapshot onLayerImageChange records as nextNodes, as written: only the source changes. */
  function ImageChangeRecordedAsWritten(l: Layer, image: string): (r: Layer)
    ensures r.id == l.id && r.attrs.imgSrc == image && r.attrs.cropWidth == l.attrs.cropWidth
  {
    l.(attrs := l.attrs.(imgSrc := image))
  }

  /**
   * With the snapshot as written, redoing an image change keeps the old crop: a 100-wide crop of a
   * 100-wide image switched to a 200-wide image comes back 100 wide instead of 200.
   */
  lemma ImageChangeRedoAsWrittenDiffers()
    ensures var a := Attrs("", "old", 0.0, 0.0, 100.0, 100.0, 1.0, 1.0, 0.0, 0.0, 0.0, 100.0, 100.0, 100.0, 100.0);
      var l := Layer("a", true, a);
      var changed := WithImageSource(l, "new", Size(100.0, 100.0), Size(200.0, 200.0));
      var redone := Merged([l], [AsNode(ImageChangeRecordedAsWritten(l, "new"))]);
      redone[0].attrs.cropWidth == 100.0 && changed.attrs.cropWidth == 200.0
  {
    var a := Attrs("", "old", 0.0, 0.0, 100.0, 100.0, 1.0, 1.0, 0.0, 0.0, 0.0, 100.0, 100.0, 100.0, 100.0);
    var l := Layer("a", true, a);
    var n := AsNode(ImageChangeRecordedAsWritten(l, "new"));
    assert NodeIds([n]) == ["a"];
    assert FindNode([n], "a") == Some(n);
  }

  /** onLayerImageChange's updater: every layer with the id shows the new image. */
  function ImageChangedAll(ls: seq<Layer>, id: Id, image: string, oldImg: Size, newImg: Size): (r: seq<Layer>)
    requires oldImg.width != 0.0 && oldImg.height != 0.0
    ensures |r| == |ls| && Ids(r) == Ids(ls)
    ensures forall j :: 0 <= j < |ls| ==>
      r[j] == (if ls[j].id == id then WithImageSource(ls[j], image, oldImg, newImg) else ls[j])
  {
    seq(|ls|, j requires 0 <= j < |ls| =>
      if ls[j].id == id then WithImageSource(ls[j], image, oldImg, newImg) else ls[j])
  }

  /** With the changed layer recorded as nextNodes, undo gives the list back and redo the changed list. */
  lemma ImageChangeUndoRedo(ls: seq<Layer>, i: nat, image: string, oldImg: Size, newImg: Size)
    requires i < |ls| && UniqueIds(ls) && oldImg.width != 0.0 && oldImg.height != 0.0
    ensures var l := ls[i];
      var after := ImageChangedAll(ls, l.id, image, oldImg, newImg);
      Merged(after, [AsNode(l)]) == ls && Merged(ls, [AsNode(WithImageSource(l, image, oldImg, newImg))]) == after
  {
    var l2 := WithImageSource(ls[i], image, oldImg, newImg);
    forall j | 0 <= j < |ls| && j != i ensures ls[j].id != ls[i].id {
      assert Ids(ls)[j] != Ids(ls)[i];
    }
    assert ImageChangedAll(ls, ls[i].id, image, oldImg, newImg) == ls[i := l2];
    SingleNodeChange(ls, i, l2);
  }

  /**
   * The image change's recorded action, as written: undo gives the list back, and redo gives the
   * layer the new source with the old crop.
   */
  lemma ImageChangeRecordedUndoRedo(ls: seq<Layer>, i: nat, image: string, oldImg: Size, newImg: Size)
    requires i < |ls| && UniqueIds(ls) && oldImg.width != 0.0 && oldImg.height != 0.0
    ensures var l := ls[i];
      var after := ImageChangedAll(ls, l.id, image, oldImg, newImg);
      Merged(after, [AsNode(l)]) == ls &&
      Merged(ls, [AsNode(ImageChangeRecordedAsWritten(l, image))]) == ls[i := ImageChangeRecordedAsWritten(l, image)]
  {
    ImageChangeUndoRedo(ls, i, image, oldImg, newImg);
    SingleNodeChange(ls, i, ImageChangeRecordedAsWritten(ls[i], image));
  }

  /**
   * onLayerImageChange(id, image), clicked in the history of a listed layer: the layer shows the
   * new image, and a changeNode is recorded from its snapshot to the snapshot as written, which
   * carries only the new source (see ImageChangeRecordedUndoRedo).  `oldImg` and `newImg` are the
   * cached images of the current and the chosen source.
   */
  method OnLayerImageChange(ed: KEditor, id: Id, image: string, oldImg: Size, newImg: Size)
    requires ed.Valid() && id in Ids(ed.layers) && oldImg.width != 0.0 && oldImg.height != 0.0
    modifies ed, ed.history
    ensures ed.Valid()
    ensures ed.StateOf() == old(ed.StateOf()).(layers := ImageChangedAll(old(ed.layers), id, image, oldImg, newImg))
    ensures var l := old(ed.layers)[IndexOf(Ids(old(ed.layers)), id)];
      ed.history.State() == Recorded(old(ed.history.State()), Action("changeNode",
        ChangeNodeProps([AsNode(l)], [AsNode(ImageChangeRecordedAsWritten(l, image))])))
  {
    var l := ed.layers[IndexOf(Ids(ed.layers), id)];
    ed.layers := ImageChangedAll(ed.layers, id, image, oldImg, newImg);
    ed.Record(Action("changeNode", ChangeNodeProps([AsNode(l)], [AsNode(ImageChangeRecordedAsWritten(l, image))])));
  }

  /** The demo button: a new image for the first selected layer's history, when something is selected. */
  method AddHistoryImage(ed: KEditor, url: string)
    modifies ed
    ensures old(ed.selected) == [] ==> ed.StateOf() == old(ed.StateOf())
    ensures old(ed.selected) != [] ==>
      ed.StateOf() == old(ed.StateOf()).(layersHistory := WithImage(old(ed.layersHistory), old(ed.selected)[0], url))
  {
    if |ed.selected| > 0 {
      ed.AddLayerHistoryImage(ed.selected[0], url);
    }
  }

  // ----- create -----

  /** The layer an upload creates: visible, at the viewport's corner and size, showing the whole image. */
  function NewLayer(id: Id, count: nat, imgSrc: string, image: Size, vs: Size, vp: Point): (l: Layer)
    ensures l.id == id && l.visible && l.attrs.name == "图层 " + NatToString(count + 1)
    ensures l.attrs.x == vp.x && l.attrs.y == vp.y && l.attrs.width == vs.width && l.attrs.height == vs.height
    ensures l.attrs.cropX == 0.0 && l.attrs.cropY == 0.0
    ensures l.attrs.cropWidth == image.width && l.attrs.cropHeight == image.height
  {
    Layer(id, true, Attrs("图层 " + NatToString(count + 1), imgSrc, vp.x, vp.y, vs.width, vs.height,
      1.0, 1.0, 0.0, 0.0, 0.0, image.width, image.height, vs.width, vs.height))
  }

  /**
   * onLayerAdd: for the "upload" entry, the uploaded image becomes a new last layer, gets a history
   * entry and is selected alone; createLayer is recorded with its index and the previous selection.
   * The file picker's result (a fresh id, the image's URL and size) comes in as parameters.
   */
  method OnLayerAdd(ed: KEditor, key: string, id: Id, imgSrc: string, image: Size)
    requires ed.Valid() && id !in Ids(ed.layers)
    modifies ed, ed.history
    ensures ed.Valid()
    ensures key != "upload" ==>
      ed.StateOf() == old(ed.StateOf()) && ed.history.State() == old(ed.history.State())
    ensures key == "upload" ==>
      var l := NewLayer(id, |old(ed.layers)|, imgSrc, image, ed.viewportSize, ed.viewportPos);
      ed.StateOf() == WithScene(old(ed.StateOf()), Appended(old(ed.SceneOf()), l))
        .(layersHistory := WithLayerHistory(old(ed.layersHistory), l)) &&
      ed.history.State() == Recorded(old(ed.history.State()),
        Action("createLayer", LayerProps(l, |old(ed.layers)|, Some(old(ed.selected)))))
  {
    if key == "upload" {
      var count, pre := |ed.layers|, ed.selected;
      var l := NewLayer(id, count, imgSrc, image, ed.viewportSize, ed.viewportPos);
      ed.layers := ed.layers + [l];
      ed.AddLayerHistory(l);
      ed.SetSelectedIds([l.id]);
      ed.Record(Action("createLayer", LayerProps(l, count, Some(pre))));
    }
  }

  // ----- selection and visibility -----

  /** onLayerSelect: with shift the id is toggled in the selection, without it is selected alone. */
  function PanelSelection(selected: seq<Id>, id: Id, shift: bool): (r: seq<Id>)
    ensures !shift ==> r == [id]
    ensures shift ==> (id in r <==> id !in selected)
    ensures shift ==> forall x :: x != id ==> (x in r <==> x in selected)
  {
    if shift then
      if id in selected then Filter(selected, NotEq(id)) else selected + [id]
    else [id]
  }

  /** Toggling the same id twice with shift gives back the same members. */
  lemma PanelSelectionToggleTwice(selected: seq<Id>, id: Id)
    ensures forall x :: x in PanelSelection(PanelSelection(selected, id, true), id, true) <==> x in selected
  {
  }

  method OnLayerSelect(ed: KEditor, id: Id, shift: bool)
    modifies ed
    ensures ed.StateOf() == old(ed.StateOf()).(selected := PanelSelection(old(ed.selected), id, shift))
  {
    ed.SetSelectedIds(PanelSelection(ed.selected, id, shift));
  }

  /** The layer with its visibility flipped. */
  function Flipped(l: Layer): (r: Layer)
    ensures r.id == l.id && r.attrs == l.attrs && r.visible == !l.visible
  {
    l.(visible := !l.visible)
  }

  /** onLayerToggleVisibility's updater: every layer with the id flips its visibility. */
  function ToggledAll(ls: seq<Layer>, id: Id): (r: seq<Layer>)
    ensures |r| == |ls| && Ids(r) == Ids(ls)
    ensures forall j :: 0 <= j < |ls| ==> r[j] == (if ls[j].id == id then Flipped(ls[j]) else ls[j])
  {
    seq(|ls|, j requires 0 <= j < |ls| => if ls[j].id == id then Flipped(ls[j]) else ls[j])
  }

  /** Toggling twice gives the list back. */
  lemma ToggledTwice(ls: seq<Layer>, id: Id)
    ensures ToggledAll(ToggledAll(ls, id), id) == ls
  {
  }

  /** The recorded pre and next nodes of a toggle undo and redo it exactly. */
  lemma ToggleUndoRedo(ls: seq<Layer>, i: nat)
    requires i < |ls| && UniqueIds(ls)
    ensures var l := ls[i];
      var after := ToggledAll(ls, l.id);
      Merged(after, [AsNode(l)]) == ls && Merged(ls, [AsNode(Flipped(l))]) == after
  {
    forall j | 0 <= j < |ls| && j != i ensures ls[j].id != ls[i].id {
      assert Ids(ls)[j] != Ids(ls)[i];
    }
    assert ToggledAll(ls, ls[i].id) == ls[i := Flipped(ls[i])];
    SingleNodeChange(ls, i, Flipped(ls[i]));
  }

  /**
   * onLayerToggleVisibility(id): nothing for an unknown id; otherwise the layer's visibility flips
   * and a changeNode is recorded whose two snapshots differ only in `visible`.
   */
  method OnLayerToggleVisibility(ed: KEditor, id: Id)
    requires ed.Valid()
    modifies ed, ed.history
    ensures ed.Valid()
    ensures id !in Ids(old(ed.layers)) ==>
      ed.StateOf() == old(ed.StateOf()) && ed.history.State() == old(ed.history.State())
    ensures id in Ids(old(ed.layers)) ==>
      var l := old(ed.layers)[IndexOf(Ids(old(ed.layers)), id)];
      ed.StateOf() == old(ed.StateOf()).(layers := ToggledAll(old(ed.layers), id)) &&
      ed.history.State() == Recorded(old(ed.history.State()),
        Action("changeNode", ChangeNodeProps([AsNode(l)], [AsNode(Flipped(l))])))
  {
    var k := IndexOf(Ids(ed.layers), id);
    if k < 0 {
      return;
    }
    var l := ed.layers[k];
    ed.layers := ToggledAll(ed.layers, id);
    ed.Record(Action("changeNode", ChangeNodeProps([AsNode(l)], [AsNode(Flipped(l))])));
  }

  // ----- the row menu -----

  /** onLayerAction: the row menu's entries; "up" and "down" are swapped because the panel is reversed. */
  method OnLayerAction(ed: KEditor, key: string, id: Id, img: Option<Size>)
    requires ed.Valid() && id in Ids(ed.layers)
    modifies ed, ed.history
    ensures ed.Valid()
    ensures key == "delete" ==>
      var i := IndexOf(Ids(old(ed.layers)), id);
      ed.StateOf() == WithScene(old(ed.StateOf()), RemovedFromPanel(old(ed.SceneOf()), id)) &&
      ed.history.State() == Recorded(old(ed.history.State()),
        Action("undoCreateLayer", LayerProps(old(ed.layers)[i], i, None)))
    ensures key == "up" ==>
      ed.StateOf() == old(ed.StateOf()).(layers := MovedDown(old(ed.layers), id)) &&
      ed.history.State() == old(ed.history.State())
    ensures key == "down" ==>
      ed.StateOf() == old(ed.StateOf()).(layers := MovedUp(old(ed.layers), id)) &&
      ed.history.State() == old(ed.history.State())
    ensures key == "fit" ==>
      var l := old(ed.layers)[IndexOf(Ids(old(ed.layers)), id)];
      ed.StateOf() == old(ed.StateOf()).(layers := FitAll(old(ed.layers), id, ed.viewportSize, ed.viewportPos, img)) &&
      ed.history.State() == Recorded(old(ed.history.State()), Action("changeNode",
        ChangeNodeProps([AsNode(l)], [AsNode(FitRecordedAsWritten(l, ed.viewportPos))])))
    ensures key !in {"delete", "up", "down", "fit"} ==>
      ed.StateOf() == old(ed.StateOf()) && ed.history.State() == old(ed.history.State())
  {
    if key == "delete" {
      RemoveLayer(ed, id);
    } else if key == "up" {
      MoveDownLayer(ed, id);
    } else if key == "down" {
      MoveUpLayer(ed, id);
    } else if key == "fit" {
      FitLayer(ed, id, img);
    }
  }

  // ----- export -----

  datatype ExportContent = SelectedLayersContent | AllLayersContent | CanvasContent

  /** What an export writes: the visible canvas, or one image per layer. */
  datatype ExportJob = ExportCanvas | ExportLayers(layers: seq<Layer>)

  const NoSelectedLayerMessage: string := "没有选中图层"
  const NoLayerMessage: string := "没有图层"

  /** onExport's guards: an empty selection or an empty list aborts with the message shown. */
  function ExportPlan(content: ExportContent, ls: seq<Layer>, selected: seq<Id>): (r: Result<ExportJob, string>)
    ensures content == CanvasContent ==> r == Ok(ExportCanvas)
    ensures content == SelectedLayersContent ==>
      (r.Err? <==> selected == []) && (r.Err? ==> r.error == NoSelectedLayerMessage) &&
      (r.Ok? ==> r.value == ExportLayers(SelectedLayers(ls, selected)))
    ensures content == AllLayersContent ==>
      (r.Err? <==> ls == []) && (r.Err? ==> r.error == NoLayerMessage) &&
      (r.Ok? ==> r.value == ExportLayers(ls))
  {
    match content
    case CanvasContent => Ok(ExportCanvas)
    case SelectedLayersContent =>
      if |selected| == 0 then Err(NoSelectedLayerMessage) else Ok(ExportLayers(SelectedLayers(ls, selected)))
    case AllLayersContent =>
      if |ls| == 0 then Err(NoLayerMessage) else Ok(ExportLayers(ls))
  }
}
