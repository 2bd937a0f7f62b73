/**
 * The DOM editor's layer panel: adding a layer in front of the list (recorded as "createLayer"),
 * removing one, moving one up or down by swapping it with its neighbour, and selecting layers
 * from the panel, with shift toggling membership.
 */
module DomMenu {
  import opened Common
  import opened Seqs
  import opened History
  import opened Numeric
  import opened DomEditor

  /** The default name of a new layer, "图层1". */
  const NewLayerName: string := "图层1"

  /** The frame a new layer starts with: absolutely placed at the origin, the size of the viewport. */
  function NewLayerFrame(size: ViewSize): (f: Frame)
    ensures f.Keys == {"position", "left", "top", "width", "height"}
    ensures f["position"] == "absolute" && f["left"] == "0" && f["top"] == "0"
    ensures |f["width"]| > 2 && f["width"][|f["width"]| - 2..] == "px"
    ensures JsNumber(f["width"][..|f["width"]| - 2]) == Some(size.width)
    ensures |f["height"]| > 2 && f["height"][|f["height"]| - 2..] == "px"
    ensures JsNumber(f["height"][..|f["height"]| - 2]) == Some(size.height)
  {
    var w, h := NatToString(size.width) + "px", NatToString(size.height) + "px";
    assert w[..|w| - 2] == NatToString(size.width) && w[|w| - 2..] == "px";
    assert h[..|h| - 2] == NatToString(size.height) && h[|h| - 2..] == "px";
    NumberOfNatToString(size.width);
    NumberOfNatToString(size.height);
    map["position" := "absolute", "left" := "0", "top" := "0", "width" := w, "height" := h]
  }

  function NewLayer(id: Id, size: ViewSize, imgSrc: string): Layer
  {
    Layer(id, NewLayerName, NewLayerFrame(size), imgSrc, None)
  }

  /**
   * onAppendLayer, with the fresh uuid and the image source as parameters: the layer goes in front,
   * then (once rendered) the action is recorded with the selection of the click's render, the
   * element gets its frame and becomes the only selected one.
   */
  method AppendLayer(ed: Editor, id: Id, imgSrc: string)
    requires ed.Valid() && id !in Ids(ed.layers)
    modifies ed, ed.history
    ensures ed.Valid()
    ensures ed.State() == Prepended(old(ed.State()), NewLayer(id, old(ed.viewportSize), imgSrc))
    ensures ed.history.State() ==
      Recorded(old(ed.history.State()), Action("createLayer", CreateLayerProps(NewLayer(id, old(ed.viewportSize), imgSrc), old(ed.selected))))
    ensures ed.cursor == old(ed.cursor) && ed.viewportSize == old(ed.viewportSize)
  {
    var layer := NewLayer(id, ed.viewportSize, imgSrc);
    var prevSelectedIds := ed.selected;
    ed.UpdateLayers([layer] + ed.layers);
    var a := Action("createLayer", CreateLayerProps(layer, prevSelectedIds));
    StacksFitRecorded(ed.history.State(), a);
    ed.history.AddAction(a.kind, a.props);
    ed.frames := ed.frames[id := layer.frame];
    ed.SelectTargets([id]);
  }

  /**
   * removeLayer from the panel: drop the layer, and drop its id from the selection when it is
   * selected.  Nothing is recorded.
   */
  function RemovedFromPanel(v: View, id: Id): (r: View)
    ensures Indexed(r.layers)
    ensures Ids(r.layers) == Filter(Ids(v.layers), NotEq(id))
    ensures id !in Ids(r.layers) && id !in r.selected
    ensures r.selected == Filter(v.selected, NotEq(id))
    ensures r.frames == v.frames
  {
    IdsFilter(v.layers, id);
    if id in v.selected then
      View(Reindex(Filter(v.layers, NotId(id))), Filter(v.selected, NotEq(id)), v.frames)
    else
      FilterAll(v.selected, NotEq(id));
      View(Reindex(Filter(v.layers, NotId(id))), v.selected, v.frames)
  }

  method RemoveLayer(ed: Editor, id: Id)
    requires ed.Valid()
    modifies ed
    ensures ed.Valid()
    ensures ed.State() == RemovedFromPanel(old(ed.State()), id)
    ensures ed.cursor == old(ed.cursor) && ed.viewportSize == old(ed.viewportSize)
  {
    ed.UpdateLayers(Filter(ed.layers, NotId(id)));
    if id in ed.selected {
      ed.SelectTargets(Filter(ed.selected, NotEq(id)));
    }
  }

  /** moveLayerUp's updater: swap with the previous layer unless absent or already first. */
  function MovedUp(ls: seq<Layer>, id: Id): (r: seq<Layer>)
    ensures |r| == |ls| && multiset(r) == multiset(ls)
    ensures var k := IndexOf(Ids(ls), id);
      (k <= 0 ==> r == ls) &&
      (k > 0 ==> (r[k - 1] == ls[k] && r[k] == ls[k - 1] &&
                  forall j :: 0 <= j < |ls| && j != k && j != k - 1 ==> r[j] == ls[j]))
  {
    var k := IndexOf(Ids(ls), id);
    if k == -1 || k == 0 then ls else Swap(ls, k, k - 1)
  }

  /** moveLayerDown's updater: swap with the next layer unless absent or already last. */
  function MovedDown(ls: seq<Layer>, id: Id): (r: seq<Layer>)
    ensures |r| == |ls| && multiset(r) == multiset(ls)
    ensures var k := IndexOf(Ids(ls), id);
      (k == -1 || k == |ls| - 1 ==> r == ls) &&
      (0 <= k < |ls| - 1 ==> (r[k + 1] == ls[k] && r[k] == ls[k + 1] &&
                  forall j :: 0 <= j < |ls| && j != k && j != k + 1 ==> r[j] == ls[j]))
  {
    var k := IndexOf(Ids(ls), id);
    if k == -1 || k == |ls| - 1 then ls else Swap(ls, k, k + 1)
  }

  lemma IdsSwap(ls: seq<Layer>, i: nat, j: nat)
    requires i < |ls| && j < |ls|
    ensures Ids(Swap(ls, i, j)) == Swap(Ids(ls), i, j)
  {
  }

  /** Distinct ids stay distinct under a swap. */
  lemma SwapDistinct(s: seq<Id>, i: nat, j: nat)
    requires i < |s| && j < |s| && Distinct(s)
    ensures Distinct(Swap(s, i, j))
  {
    var r := Swap(s, i, j);
    forall a, b | 0 <= a < b < |r| ensures r[a] != r[b] {
      var a' := if a == i then j else if a == j then i else a;
      var b' := if b == i then j else if b == j then i else b;
      assert r[a] == s[a'] && r[b] == s[b'] && a' != b';
    }
  }

  /** Moving a layer up, then down again, restores the order when the first move applied. */
  lemma MoveUpThenDown(ls: seq<Layer>, id: Id)
    requires Distinct(Ids(ls)) && IndexOf(Ids(ls), id) > 0
    ensures MovedDown(MovedUp(ls, id), id) == ls
  {
    var k := IndexOf(Ids(ls), id);
    var up := Swap(ls, k, k - 1);
    assert MovedUp(ls, id) == up;
    IdsSwap(ls, k, k - 1);
    SwapDistinct(Ids(ls), k, k - 1);
    IndexOfDistinct(Ids(up), k - 1);
    assert IndexOf(Ids(up), id) == k - 1;
    assert MovedDown(up, id) == Swap(up, k - 1, k);
    SwapSymmetric(up, k - 1, k);
    SwapTwice(ls, k, k - 1);
  }

  /** Moving a layer down, then up again, restores the order when the first move applied. */
  lemma MoveDownThenUp(ls: seq<Layer>, id: Id)
    requires Distinct(Ids(ls)) && 0 <= IndexOf(Ids(ls), id) < |ls| - 1
    ensures MovedUp(MovedDown(ls, id), id) == ls
  {
    var k := IndexOf(Ids(ls), id);
    var down := Swap(ls, k, k + 1);
    assert MovedDown(ls, id) == down;
    IdsSwap(ls, k, k + 1);
    SwapDistinct(Ids(ls), k, k + 1);
    IndexOfDistinct(Ids(down), k + 1);
    assert IndexOf(Ids(down), id) == k + 1;
    assert MovedUp(down, id) == Swap(down, k + 1, k);
    SwapSymmetric(down, k + 1, k);
    SwapTwice(ls, k, k + 1);
  }

  /** The panel disables "up" on the first row: exactly the row where moving up changes nothing. */
  lemma UpDisabledExactlyWhenNoOp(ls: seq<Layer>, i: nat)
    requires i < |ls| && Distinct(Ids(ls))
    ensures i == 0 <==> MovedUp(ls, ls[i].id) == ls
  {
    IndexOfDistinct(Ids(ls), i);
    if i > 0 {
      assert Ids(ls)[i - 1] != Ids(ls)[i];
      assert MovedUp(ls, ls[i].id)[i] == ls[i - 1];
    }
  }

  /** The panel disables "down" on the last row: exactly the row where moving down changes nothing. */
  lemma DownDisabledExactlyWhenNoOp(ls: seq<Layer>, i: nat)
    requires i < |ls| && Distinct(Ids(ls))
    ensures i == |ls| - 1 <==> MovedDown(ls, ls[i].id) == ls
  {
    IndexOfDistinct(Ids(ls), i);
    if i < |ls| - 1 {
      assert Ids(ls)[i + 1] != Ids(ls)[i];
      assert MovedDown(ls, ls[i].id)[i] == ls[i + 1];
    }
  }

  method MoveLayerUp(ed: Editor, id: Id)
    requires ed.Valid()
    modifies ed
    ensures ed.Valid()
    ensures ed.layers == Reindex(MovedUp(old(ed.layers), id))
    ensures ed.selected == old(ed.selected) && ed.frames == old(ed.frames)
    ensures ed.cursor == old(ed.cursor) && ed.viewportSize == old(ed.viewportSize)
  {
    ed.UpdateLayers(MovedUp(ed.layers, id));
  }

  method MoveLayerDown(ed: Editor, id: Id)
    requires ed.Valid()
    modifies ed
    ensures ed.Valid()
    ensures ed.layers == Reindex(MovedDown(old(ed.layers), id))
    ensures ed.selected == old(ed.selected) && ed.frames == old(ed.frames)
    ensures ed.cursor == old(ed.cursor) && ed.viewportSize == old(ed.viewportSize)
  {
    ed.UpdateLayers(MovedDown(ed.layers, id));
  }

  /**
   * The selection a click on a panel row asks for: with shift the row's id is toggled in the current
   * selection, without shift it is selected alone; ids without an element are dropped.
   */
  function PanelSelection(live: seq<Id>, ids: seq<Id>, id: Id, shift: bool): (r: seq<Id>)
    ensures !shift ==> r == (if id in live then [id] else [])
    ensures shift && id in live ==> (id in r <==> id !in ids)
    ensures shift ==> forall x :: x != id ==> (x in r <==> x in ids && x in live)
  {
    if shift then
      if id in ids then
        var kept := Filter(ids, NotEq(id));
        assert forall x :: x != id && x in ids ==> x in kept by {
          forall x | x != id && x in ids ensures x in kept {
            var i :| 0 <= i < |ids| && ids[i] == x;
          }
        }
        Targets(live, kept)
      else
        Targets(live, ids + [id])
    else
      assert [id][..0] == [];
      Targets(live, [id])
  }

  /** `selectLayers(ids)`: the elements of the ids that have one. */
  method SelectLayers(ed: Editor, ids: seq<Id>)
    modifies ed
    ensures ed.selected == Targets(Ids(old(ed.layers)), ids)
    ensures ed.layers == old(ed.layers) && ed.frames == old(ed.frames)
    ensures ed.cursor == old(ed.cursor) && ed.viewportSize == old(ed.viewportSize)
  {
    ed.SelectTargets(Targets(Ids(ed.layers), ids));
  }

  /** A click on a panel row; `shift` is the keyboard manager's shift state. */
  method OnLayerSelect(ed: Editor, id: Id, shift: bool)
    modifies ed
    ensures ed.selected == PanelSelection(Ids(old(ed.layers)), old(ed.selected), id, shift)
    ensures ed.layers == old(ed.layers) && ed.frames == old(ed.frames)
    ensures ed.cursor == old(ed.cursor) && ed.viewportSize == old(ed.viewportSize)
  {
    var ids := ed.selected;
    if shift {
      if id in ids {
        SelectLayers(ed, Filter(ids, NotEq(id)));
      } else {
        SelectLayers(ed, ids + [id]);
      }
    } else {
      SelectLayers(ed, [id]);
    }
  }

  /** The row dropdown: "delete", "up" and "down"; any other key does nothing. */
  method OnDropdownClick(ed: Editor, key: string, id: Id)
    requires ed.Valid()
    modifies ed
    ensures ed.Valid()
    ensures key == "delete" ==> ed.State() == RemovedFromPanel(old(ed.State()), id)
    ensures key == "up" ==> ed.layers == Reindex(MovedUp(old(ed.layers), id))
    ensures key == "down" ==> ed.layers == Reindex(MovedDown(old(ed.layers), id))
    ensures key !in {"delete", "up", "down"} ==> ed.State() == old(ed.State())
    ensures ed.cursor == old(ed.cursor) && ed.viewportSize == old(ed.viewportSize)
  {
    if key == "delete" {
      RemoveLayer(ed, id);
    } else if key == "up" {
      MoveLayerUp(ed, id);
    } else if key == "down" {
      MoveLayerDown(ed, id);
    }
  }
}
