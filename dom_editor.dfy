/**
 * The DOM editor's state hook and its history wiring: the layer list (re-indexed on every update),
 * the selection, the frame store of the Moveable helper, and the four history handlers registered
 * for "createLayer", "removeLayer" and "move".
 *
 * Elements are identified with their layer ids: the selection holds the ids of the selected
 * elements, the frame store maps an id to the frame of its element, and an id is "live" when a
 * layer with that id is in the list (its element is in the document).
 */
module DomEditor {
  import opened Common
  import opened Seqs
  import opened History

  /** A Moveable frame: the CSS properties the helper keeps for one element. */
  type Frame = map<string, string>

  /** The frame the helper builds when it is given no properties. */
  const EmptyFrame: Frame := map[]

  /** A layer record; `index` is absent until the list is re-indexed. */
  datatype Layer = Layer(id: Id, name: string, frame: Frame, imgSrc: string, index: Option<int>)

  /** Width and height of the editing viewport, in pixels. */
  datatype ViewSize = ViewSize(width: nat, height: nat)

  /** The payload of a recorded action. */
  datatype Props =
    | CreateLayerProps(layer: Layer, prevSelectedIds: seq<Id>)
    | MoveProps(prevFrameMap: map<Id, Frame>, nextFrameMap: map<Id, Frame>, ids: seq<Id>)

  /** The four callbacks the editor registers with the history manager. */
  datatype Handler = UndoCreateLayerFn | RestoreLayerFn | UndoMoveFn | RedoMoveFn

  /** The part of the editor state the history handlers read and write. */
  datatype View = View(layers: seq<Layer>, selected: seq<Id>, frames: map<Id, Frame>)

  function Ids(ls: seq<Layer>): (r: seq<Id>)
    ensures |r| == |ls|
    ensures forall i :: 0 <= i < |ls| ==> r[i] == ls[i].id
  {
    seq(|ls|, i requires 0 <= i < |ls| => ls[i].id)
  }

  /** `l => l.id !== id` */
  function NotId(id: Id): Layer -> bool
  {
    (l: Layer) => l.id != id
  }

  /** `x => x !== id` */
  function NotEq(id: Id): Id -> bool
  {
    (x: Id) => x != id
  }

  /** Whether an element with this id is in the document. */
  function IsLive(live: seq<Id>): Id -> bool
  {
    (id: Id) => id in live
  }

  /** The frame the helper holds for `id`, or the one it creates on demand. */
  function FrameOf(m: map<Id, Frame>, id: Id): Frame
  {
    if id in m then m[id] else EmptyFrame
  }

  /** Every layer's `index` is its position. */
  ghost predicate Indexed(ls: seq<Layer>)
  {
    forall i :: 0 <= i < |ls| ==> ls[i].index == Some(i)
  }

  /** The updater wrapper every layer update goes through: copy each layer with `index: i`. */
  function Reindex(ls: seq<Layer>): (r: seq<Layer>)
    ensures |r| == |ls| && Indexed(r)
    ensures Ids(r) == Ids(ls)
    ensures forall i :: 0 <= i < |ls| ==> r[i].(index := None) == ls[i].(index := None)
  {
    seq(|ls|, i requires 0 <= i < |ls| => ls[i].(index := Some(i)))
  }

  /** Re-indexing an indexed list changes nothing, so re-indexing twice is re-indexing once. */
  lemma ReindexIdempotent(ls: seq<Layer>)
    ensures Indexed(ls) ==> Reindex(ls) == ls
    ensures Reindex(Reindex(ls)) == Reindex(ls)
  {
  }

  /** Re-indexing only looks at the fields other than `index`. */
  lemma ReindexIgnoresIndex(a: seq<Layer>, b: seq<Layer>)
    requires |a| == |b|
    requires forall i :: 0 <= i < |a| ==> a[i].(index := None) == b[i].(index := None)
    ensures Reindex(a) == Reindex(b)
  {
    forall i | 0 <= i < |a| ensures Reindex(a)[i] == Reindex(b)[i] {
      assert a[i].(index := None).(index := Some(i)) == a[i].(index := Some(i));
      assert b[i].(index := None).(index := Some(i)) == b[i].(index := Some(i));
    }
  }

  /** `getTargets(ids)`: the elements of the live ids, in the order given. */
  function Targets(live: seq<Id>, ids: seq<Id>): (r: seq<Id>)
    ensures forall i :: 0 <= i < |r| ==> r[i] in ids && r[i] in live
    ensures forall i :: 0 <= i < |ids| && ids[i] in live ==> ids[i] in r
    ensures IsSubsequence(r, ids) && |r| <= |ids|
  {
    FilterIsSubsequence(ids, IsLive(live));
    Filter(ids, IsLive(live))
  }

  lemma IdsConcat(a: seq<Layer>, b: seq<Layer>)
    ensures Ids(a + b) == Ids(a) + Ids(b)
  {
  }

  /** Taking the ids commutes with dropping the layers of one id. */
  lemma {:induction false} IdsFilter(ls: seq<Layer>, id: Id)
    ensures Ids(Filter(ls, NotId(id))) == Filter(Ids(ls), NotEq(id))
    decreases |ls|
  {
    if ls != [] {
      var init, last := ls[..|ls| - 1], ls[|ls| - 1];
      IdsFilter(init, id);
      assert Ids(ls)[..|ls| - 1] == Ids(init);
      IdsConcat(Filter(init, NotId(id)), if NotId(id)(last) then [last] else []);
    }
  }

  /** Taking the ids commutes with a splice. */
  lemma IdsInsert(ls: seq<Layer>, start: int, x: Layer)
    ensures Ids(Insert(ls, start, x)) == Insert(Ids(ls), start, x.id)
  {
    var k := SpliceStart(|ls|, start);
    IdsConcat(ls[..k] + [x], ls[k..]);
    IdsConcat(ls[..k], [x]);
    assert Ids(ls[..k]) == Ids(ls)[..k];
    assert Ids(ls[k..]) == Ids(ls)[k..];
  }

  /**
   * `undoCreateLayer({layer, prevSelectedIds})`: drop every layer with the recorded id and select the
   * elements of the previous selection, looked up before the document re-renders.
   */
  function UndoCreated(v: View, layer: Layer, prevSelectedIds: seq<Id>): (r: View)
    ensures Indexed(r.layers)
    ensures Ids(r.layers) == Filter(Ids(v.layers), NotEq(layer.id))
    ensures layer.id !in Ids(r.layers)
    ensures r.selected == Targets(Ids(v.layers), prevSelectedIds)
    ensures r.frames == v.frames
  {
    IdsFilter(v.layers, layer.id);
    View(Reindex(Filter(v.layers, NotId(layer.id))), Targets(Ids(v.layers), prevSelectedIds), v.frames)
  }

  /** Where `splice(layer.index, 0, layer)` inserts: a missing index reads as 0. */
  function RestoreStart(index: Option<int>): int
  {
    index.GetOr(0)
  }

  /**
   * `restoreLayer({layer})`: splice the layer back in at its recorded index, give its element the
   * recorded frame and select only it.
   */
  function Restored(v: View, layer: Layer): (r: View)
    ensures Indexed(r.layers) && |r.layers| == |v.layers| + 1
    ensures Ids(r.layers) == Insert(Ids(v.layers), RestoreStart(layer.index), layer.id)
    ensures var k := SpliceStart(|v.layers|, RestoreStart(layer.index));
      r.layers[k] == layer.(index := Some(k))
    ensures r.selected == [layer.id]
    ensures r.frames == v.frames[layer.id := layer.frame]
  {
    IdsInsert(v.layers, RestoreStart(layer.index), layer);
    View(Reindex(Insert(v.layers, RestoreStart(layer.index), layer)), [layer.id], v.frames[layer.id := layer.frame])
  }

  /** Splicing into a re-indexed list and re-indexing is splicing into the list and re-indexing. */
  lemma InsertReindexed(s: seq<Layer>, start: int, x: Layer, y: Layer)
    requires x.(index := None) == y.(index := None)
    ensures Reindex(Insert(Reindex(s), start, x)) == Reindex(Insert(s, start, y))
  {
    var a, b := Insert(Reindex(s), start, x), Insert(s, start, y);
    var k := SpliceStart(|s|, start);
    forall j | 0 <= j < |a| ensures a[j].(index := None) == b[j].(index := None) {
      if j < k {
        assert a[j] == Reindex(s)[j] && b[j] == s[j];
      } else if j > k {
        assert a[j] == Reindex(s)[j - 1] && b[j] == s[j - 1];
      }
    }
    ReindexIgnoresIndex(a, b);
  }

  /** Removing the layer at position i and restoring the removed record gives back the list. */
  lemma RemoveRestoreRoundTrip(v: View, i: nat, prevSelectedIds: seq<Id>)
    requires i < |v.layers| && Indexed(v.layers) && Distinct(Ids(v.layers))
    ensures Restored(UndoCreated(v, v.layers[i], prevSelectedIds), v.layers[i]).layers == v.layers
  {
    var ls, x := v.layers, v.layers[i];
    var rest := ls[..i] + ls[i + 1..];
    forall j | 0 <= j < |ls| && j != i ensures NotId(x.id)(ls[j]) {
      assert Ids(ls)[j] != Ids(ls)[i];
    }
    FilterDropsOne(ls, i, NotId(x.id));
    var u := UndoCreated(v, x, prevSelectedIds);
    assert u.layers == Reindex(rest);
    assert RestoreStart(x.index) == i;
    var r := Restored(u, x);
    assert r.layers == Reindex(Insert(Reindex(rest), i, x));
    InsertReindexed(rest, i, x, x);
    RemoveInsertRoundTrip(ls, i);
    ReindexIdempotent(ls);
  }

  /**
   * The frame store after undoMove or redoMove, as the handlers evidently intend it: every live
   * listed id gets the frame recorded for ITS OWN id; every other entry is kept.
   */
  function ReplacedFrames(frames: map<Id, Frame>, m: map<Id, Frame>, ts: seq<Id>): (r: map<Id, Frame>)
    ensures forall id :: id in ts ==> id in r && r[id] == FrameOf(m, id)
    ensures forall id :: id !in ts ==> (id in r <==> id in frames)
    ensures forall id :: id !in ts && id in frames ==> r[id] == frames[id]
  {
    map id | id in frames.Keys + (set t | t in ts) :: if id in ts then FrameOf(m, id) else frames[id]
  }

  /** Replaying the same frame map twice is replaying it once. */
  lemma ReplacedFramesIdempotent(frames: map<Id, Frame>, m: map<Id, Frame>, ts: seq<Id>)
    ensures ReplacedFrames(ReplacedFrames(frames, m, ts), m, ts) == ReplacedFrames(frames, m, ts)
  {
  }

  /**
   * Undo then redo of a move: if the targets already show the post-gesture frames, replaying the
   * pre-gesture map and then the post-gesture map gives the frame store back unchanged.
   */
  lemma UndoRedoMoveRestores(frames: map<Id, Frame>, prev: map<Id, Frame>, next: map<Id, Frame>, ts: seq<Id>)
    requires forall t :: t in ts ==> t in frames && frames[t] == FrameOf(next, t)
    ensures ReplacedFrames(ReplacedFrames(frames, prev, ts), next, ts) == frames
  {
  }

  /**
   * undoMove / redoMove with the given frame map, as written: the live ids are selected, and the
   * k-th of them gets the frame recorded for `ids[k]` (for a target listed more than once, at its
   * last position); every other frame is kept.
   */
  function Moved(v: View, m: map<Id, Frame>, ids: seq<Id>): (r: View)
    ensures r.layers == v.layers
    ensures r.selected == Targets(Ids(v.layers), ids)
    ensures forall id :: id in ids && id in Ids(v.layers) ==> id in r.frames
    ensures forall k :: 0 <= k < |r.selected| && r.selected[k] !in r.selected[k + 1..] ==>
      r.frames[r.selected[k]] == FrameOf(m, ids[k])
    ensures forall id :: !(id in ids && id in Ids(v.layers)) ==> (id in r.frames <==> id in v.frames)
    ensures forall id :: !(id in ids && id in Ids(v.layers)) && id in v.frames ==> r.frames[id] == v.frames[id]
  {
    var ts := Targets(Ids(v.layers), ids);
    assert forall id :: id in ts <==> id in ids && id in Ids(v.layers) by {
      forall id | id in ts ensures id in ids && id in Ids(v.layers) {
        var i :| 0 <= i < |ts| && ts[i] == id;
      }
      forall id | id in ids && id in Ids(v.layers) ensures id in ts {
        var i :| 0 <= i < |ids| && ids[i] == id;
      }
    }
    PairedFramesPositional(v.frames, m, ts, ids);
    View(v.layers, ts, PairedFrames(v.frames, m, ts, ids))
  }

  /**
   * The frame store after undoMove or redoMove as written: the k-th live target receives the frame
   * recorded for `ids[k]`, the k-th LISTED id, which is a different id once an earlier listed id is
   * no longer live.  Every other entry is kept.
   */
  function PairedFrames(frames: map<Id, Frame>, m: map<Id, Frame>, targets: seq<Id>, ids: seq<Id>): (r: map<Id, Frame>)
    requires |targets| <= |ids|
    ensures forall id :: id !in targets ==> (id in r <==> id in frames)
    ensures forall id :: id !in targets && id in frames ==> r[id] == frames[id]
    ensures forall id :: id in targets ==> id in r
    decreases |targets|
  {
    if targets == [] then frames
    else
      var k := |targets| - 1;
      assert targets == targets[..k] + [targets[k]];
      PairedFrames(frames, m, targets[..k], ids)[targets[k] := FrameOf(m, ids[k])]
  }

  /** A target's last position decides its frame: the frame recorded for the listed id there. */
  lemma {:induction false} PairedFramesAt(frames: map<Id, Frame>, m: map<Id, Frame>, targets: seq<Id>, ids: seq<Id>, k: nat)
    requires |targets| <= |ids| && k < |targets| && targets[k] !in targets[k + 1..]
    ensures PairedFrames(frames, m, targets, ids)[targets[k]] == FrameOf(m, ids[k])
    decreases |targets|
  {
    var n := |targets| - 1;
    if k < n {
      var init := targets[..n];
      assert init[k] == targets[k];
      assert init[k + 1..] == targets[k + 1..n];
      assert targets[n] == targets[k + 1..][n - k - 1];
      PairedFramesAt(frames, m, init, ids, k);
    }
  }

  /** PairedFramesAt at every position. */
  lemma PairedFramesPositional(frames: map<Id, Frame>, m: map<Id, Frame>, targets: seq<Id>, ids: seq<Id>)
    requires |targets| <= |ids|
    ensures forall k :: 0 <= k < |targets| && targets[k] !in targets[k + 1..] ==>
      PairedFrames(frames, m, targets, ids)[targets[k]] == FrameOf(m, ids[k])
  {
    forall k | 0 <= k < |targets| && targets[k] !in targets[k + 1..]
      ensures PairedFrames(frames, m, targets, ids)[targets[k]] == FrameOf(m, ids[k])
    {
      PairedFramesAt(frames, m, targets, ids, k);
    }
  }

  /** Replaying one more target is one more map update. */
  lemma ReplacedFramesSnoc(frames: map<Id, Frame>, m: map<Id, Frame>, ts: seq<Id>, t: Id)
    ensures ReplacedFrames(frames, m, ts + [t]) == ReplacedFrames(frames, m, ts)[t := FrameOf(m, t)]
  {
    var a, b := ReplacedFrames(frames, m, ts + [t]), ReplacedFrames(frames, m, ts)[t := FrameOf(m, t)];
    assert forall id :: id in ts + [t] <==> id in ts || id == t;
    assert a.Keys == b.Keys;
  }

  lemma {:induction false} PairedFramesPrefix(frames: map<Id, Frame>, m: map<Id, Frame>, ids: seq<Id>, k: nat)
    requires k <= |ids|
    ensures PairedFrames(frames, m, ids[..k], ids) == ReplacedFrames(frames, m, ids[..k])
  {
    if k > 0 {
      PairedFramesPrefix(frames, m, ids, k - 1);
      assert ids[..k][..k - 1] == ids[..k - 1];
      assert ids[..k] == ids[..k - 1] + [ids[k - 1]];
      ReplacedFramesSnoc(frames, m, ids[..k - 1], ids[k - 1]);
    }
  }

  /** When every listed id is live the as-written pairing is the intended one. */
  lemma PairedFramesAgreeWhenAllLive(frames: map<Id, Frame>, m: map<Id, Frame>, live: seq<Id>, ids: seq<Id>)
    requires forall i :: 0 <= i < |ids| ==> ids[i] in live
    ensures PairedFrames(frames, m, Targets(live, ids), ids) == ReplacedFrames(frames, m, Targets(live, ids))
  {
    FilterAll(ids, IsLive(live));
    PairedFramesPrefix(frames, m, ids, |ids|);
    assert ids[..|ids|] == ids;
  }

  /**
   * Undo then redo of a move whose listed elements are all still in the document: if they already
   * show the post-gesture frames, replaying the pre-gesture map and then the post-gesture map
   * gives the frame store back unchanged and selects them.
   */
  lemma MoveUndoRedoRestores(v: View, prev: map<Id, Frame>, next: map<Id, Frame>, ids: seq<Id>)
    requires forall i :: 0 <= i < |ids| ==> ids[i] in Ids(v.layers)
    requires forall i :: 0 <= i < |ids| ==> ids[i] in v.frames && v.frames[ids[i]] == FrameOf(next, ids[i])
    ensures Moved(Moved(v, prev, ids), next, ids) == v.(selected := Targets(Ids(v.layers), ids))
  {
    var live := Ids(v.layers);
    var ts := Targets(live, ids);
    PairedFramesAgreeWhenAllLive(v.frames, prev, live, ids);
    var undone := Moved(v, prev, ids);
    PairedFramesAgreeWhenAllLive(undone.frames, next, live, ids);
    forall t | t in ts ensures t in v.frames && v.frames[t] == FrameOf(next, t) {
      var i :| 0 <= i < |ts| && ts[i] == t;
    }
    UndoRedoMoveRestores(v.frames, prev, next, ts);
  }

  /**
   * With `a` removed from the document, undoing a group move of [a, b] gives b the frame recorded
   * for a.
   */
  lemma PairedFramesMisassign()
    ensures var fa, fb := map["left" := "0px"], map["left" := "40px"];
      var ids := ["a", "b"];
      var targets := Targets(["b"], ids);
      targets == ["b"] &&
      PairedFrames(map[], map["a" := fa, "b" := fb], targets, ids)["b"] == fa &&
      ReplacedFrames(map[], map["a" := fa, "b" := fb], targets)["b"] == fb &&
      fa != fb
  {
    var fa, fb := map["left" := "0px"], map["left" := "40px"];
    var ids := ["a", "b"];
    assert "a" !in ["b"];
    assert ids[..1] == ["a"] && ids[..0] == [];
    assert Filter(ids[..0], IsLive(["b"])) == [];
    assert Filter(ids[..1], IsLive(["b"])) == [];
    assert Targets(["b"], ids) == ["b"];
    assert ["b"][..0] == [];
    assert fa["left"] != fb["left"];
  }

  /** The handler table the editor registers once, on mount. */
  function Registrations(): (t: map<string, HandlerPair<Handler>>)
    ensures t.Keys == {"createLayer", "removeLayer", "move"}
    ensures t["createLayer"] == HandlerPair(UndoCreateLayerFn, RestoreLayerFn)
    ensures t["removeLayer"] == HandlerPair(t["createLayer"].redo, t["createLayer"].undo)
    ensures t["move"] == HandlerPair(UndoMoveFn, RedoMoveFn)
  {
    map["createLayer" := HandlerPair(UndoCreateLayerFn, RestoreLayerFn)]
       ["removeLayer" := HandlerPair(RestoreLayerFn, UndoCreateLayerFn)]
       ["move" := HandlerPair(UndoMoveFn, RedoMoveFn)]
  }

  /** The payload a handler destructures. */
  predicate Fits(h: Handler, p: Props)
  {
    (h == UndoCreateLayerFn || h == RestoreLayerFn) <==> p.CreateLayerProps?
  }

  /** A recorded action has a registered kind and the payload its handlers destructure. */
  ghost predicate ActionFits(a: Action<Props>)
  {
    a.kind in Registrations() &&
    Fits(Registrations()[a.kind].undo, a.props) && Fits(Registrations()[a.kind].redo, a.props)
  }

  ghost predicate AllFit(s: seq<Action<Props>>)
  {
    forall i :: 0 <= i < |s| ==> ActionFits(s[i])
  }

  ghost predicate StacksFit(s: Stacks<Props>)
  {
    AllFit(s.undo) && AllFit(s.redo)
  }

  /** Recording an action that fits keeps every recorded action fitting. */
  lemma StacksFitRecorded(s: Stacks<Props>, a: Action<Props>)
    requires StacksFit(s) && ActionFits(a)
    ensures StacksFit(Recorded(s, a))
  {
    var u := s.undo + [a];
    forall i | 0 <= i < |u| ensures ActionFits(u[i]) {
      if i < |s.undo| {
        assert u[i] == s.undo[i];
      }
    }
  }

  /** Moving the top action to the other stack keeps every action fitting, the moved one included. */
  lemma StacksFitMoved(s: Stacks<Props>)
    requires StacksFit(s)
    ensures s.undo != [] ==> StacksFit(Undone(s)) && ActionFits(Top(s.undo))
    ensures s.redo != [] ==> StacksFit(Redone(s)) && ActionFits(Top(s.redo))
  {
    if s.undo != [] {
      assert ActionFits(Top(s.undo));
      var u, r := Popped(s.undo), s.redo + [Top(s.undo)];
      forall i | 0 <= i < |u| ensures ActionFits(u[i]) {
        assert u[i] == s.undo[i];
      }
      forall i | 0 <= i < |r| ensures ActionFits(r[i]) {
        if i < |s.redo| {
          assert r[i] == s.redo[i];
        }
      }
    }
    if s.redo != [] {
      assert ActionFits(Top(s.redo));
      var u, r := s.undo + [Top(s.redo)], Popped(s.redo);
      forall i | 0 <= i < |r| ensures ActionFits(r[i]) {
        assert r[i] == s.redo[i];
      }
      forall i | 0 <= i < |u| ensures ActionFits(u[i]) {
        if i < |s.undo| {
          assert u[i] == s.undo[i];
        }
      }
    }
  }

  /**
   * What firing handler `h` with payload `p` does to the editor state: undoing a creation takes the
   * layer's id out of the list, restoring puts the layer in and selects only it, and the move
   * handlers keep the list and select the listed ids still in the document.  Every handler keeps
   * the list indexed.
   */
  function Apply(v: View, h: Handler, p: Props): (r: View)
    requires Fits(h, p)
    ensures Indexed(v.layers) ==> Indexed(r.layers)
    ensures h == UndoCreateLayerFn ==> p.layer.id !in Ids(r.layers) && r.frames == v.frames
    ensures h == RestoreLayerFn ==> p.layer.id in Ids(r.layers) && r.selected == [p.layer.id]
    ensures p.MoveProps? ==> r.layers == v.layers && r.selected == Targets(Ids(v.layers), p.ids)
  {
    match p
    case CreateLayerProps(layer, prevSelectedIds) =>
      if h == UndoCreateLayerFn then UndoCreated(v, layer, prevSelectedIds) else Restored(v, layer)
    case MoveProps(prevFrameMap, nextFrameMap, ids) =>
      if h == UndoMoveFn then Moved(v, prevFrameMap, ids) else Moved(v, nextFrameMap, ids)
  }

  /** The layer list after a new layer is put in front of it, as onAppendLayer does. */
  function Prepended(v: View, layer: Layer): (r: View)
    ensures Indexed(r.layers) && |r.layers| == |v.layers| + 1
    ensures r.layers[0] == layer.(index := Some(0))
    ensures Ids(r.layers) == [layer.id] + Ids(v.layers)
    ensures r.selected == [layer.id]
    ensures r.frames == v.frames[layer.id := layer.frame]
  {
    assert Ids([layer] + v.layers) == [layer.id] + Ids(v.layers);
    View(Reindex([layer] + v.layers), [layer.id], v.frames[layer.id := layer.frame])
  }

  /**
   * Appending a layer (it is recorded without an index), undoing the "createLayer" action and
   * redoing it gives back the state right after the append.
   */
  lemma CreateUndoRedoRoundTrip(v: View, layer: Layer, prevSelectedIds: seq<Id>)
    requires layer.index == None && layer.id !in Ids(v.layers)
    ensures var p := CreateLayerProps(layer, prevSelectedIds);
      var after := Prepended(v, layer);
      var t := Registrations()["createLayer"];
      Apply(Apply(after, t.undo, p), t.redo, p) == after
  {
    var p := CreateLayerProps(layer, prevSelectedIds);
    var after := Prepended(v, layer);
    assert Registrations()["createLayer"] == HandlerPair(UndoCreateLayerFn, RestoreLayerFn);
    var undone := UndoCreated(after, layer, prevSelectedIds);
    assert Apply(after, UndoCreateLayerFn, p) == undone;
    PrependedLayersRoundTrip(v.layers, layer);
    var redone := Restored(undone, layer);
    assert Apply(undone, RestoreLayerFn, p) == redone;
    assert redone.layers == after.layers;
    var f := v.frames[layer.id := layer.frame];
    assert after.frames == f && undone.frames == f;
    MapUpdateTwice(v.frames, layer.id, layer.frame);
    assert redone.frames == f[layer.id := layer.frame] == f;
    assert redone.selected == [layer.id] == after.selected;
    assert redone == after;
  }

  lemma MapUpdateTwice<K, V>(m: map<K, V>, k: K, x: V)
    ensures m[k := x][k := x] == m[k := x]
  {
  }

  /** The layer-list half of CreateUndoRedoRoundTrip. */
  lemma PrependedLayersRoundTrip(rest: seq<Layer>, layer: Layer)
    requires layer.index == None && layer.id !in Ids(rest)
    ensures var ls := Reindex([layer] + rest);
      Reindex(Insert(Reindex(Filter(ls, NotId(layer.id))), 0, layer)) == ls
  {
    var ls := Reindex([layer] + rest);
    forall j | 0 <= j < |ls| && j != 0 ensures NotId(layer.id)(ls[j]) {
      assert ls[j].id == rest[j - 1].id;
      assert Ids(rest)[j - 1] == rest[j - 1].id;
    }
    FilterDropsOne(ls, 0, NotId(layer.id));
    assert ls[..0] + ls[1..] == ls[1..];
    InsertReindexed(ls[1..], 0, layer, ls[0]);
    RemoveInsertRoundTrip(ls, 0);
    ReindexIdempotent(ls);
  }

  /** What a drag start on an element of the editor does, per the Selecto start hook. */
  datatype PointerTarget = LayerElement(id: Id) | CanvasElement | OtherElement

  datatype DragStartEvent = DragStartEvent(
    target: PointerTarget,
    insideMoveable: bool,     // the pointer is inside the Moveable control box
    onViewport: bool,         // the target is the viewport or its container
    trustedTouch: bool,       // a trusted touchstart
    onMoveableControl: bool,  // the target belongs to the Moveable control itself
    insideSelected: bool)     // the target is, or is inside, a selected element

  datatype DragStartDecision =
    | BoxSelect                        // Selecto goes on and starts a box selection
    | Stop(selection: Option<seq<Id>>) // Selecto is stopped; Some(s) replaces the selection
    | HandToMoveable                   // Selecto is stopped and the current group starts dragging

  function OnDragStartDecision(cursor: Cursor, e: DragStartEvent): (d: DragStartDecision)
    ensures cursor != Default ==> d.Stop?
    ensures cursor != Default && e.target.LayerElement? ==> d.selection == Some([e.target.id])
    ensures cursor != Default && e.target.CanvasElement? ==> d.selection == None
    ensures cursor != Default && e.target.OtherElement? ==> d.selection == Some([])
    ensures cursor == Default ==> !(d.Stop? && d.selection.Some?)
    ensures cursor == Default ==> (d == HandToMoveable <==> e.insideMoveable && e.onViewport)
    ensures cursor == Default ==> (d == BoxSelect <==>
      !(e.insideMoveable && e.onViewport) && !e.trustedTouch && !e.onMoveableControl && !e.insideSelected)
  {
    if cursor != Default then
      match e.target
      case LayerElement(id) => Stop(Some([id]))
      case CanvasElement => Stop(None)
      case OtherElement => Stop(Some([]))
    else if e.insideMoveable && e.onViewport then HandToMoveable
    else if e.trustedTouch || e.onMoveableControl || e.insideSelected then Stop(None)
    else BoxSelect
  }

  class Editor {
    var layers: seq<Layer>
    /** The ids of the selected elements; `selectedIds` is this list. */
    var selected: seq<Id>
    /** The Moveable helper's frame store. */
    var frames: map<Id, Frame>
    var cursor: Cursor
    const zoom: real
    var viewportSize: ViewSize
    const history: HistoryManager<Props, Handler>

    function State(): View
      reads this
    {
      View(layers, selected, frames)
    }

    ghost predicate Valid()
      reads this, history
    {
      history.types == Registrations() && StacksFit(history.State()) && Indexed(layers)
    }

    /** The initial state of the hook, followed by the mount effect that registers the handlers. */
    constructor ()
      ensures Valid() && fresh(history)
      ensures layers == [] && selected == [] && frames == map[]
      ensures cursor == Default && zoom == 1.0 && viewportSize == ViewSize(512, 512)
      ensures history.State() == Stacks([], [])
    {
      layers, selected, frames := [], [], map[];
      cursor, viewportSize := Default, ViewSize(512, 512);
      zoom := 1.0;
      history := new HistoryManager();
      new;
      RegisterHistoryTypes();
    }

    /** The mount effect: three registrations into the handler table. */
    method RegisterHistoryTypes()
      modifies history
      ensures history.types == old(history.types)
        ["createLayer" := HandlerPair(UndoCreateLayerFn, RestoreLayerFn)]
        ["removeLayer" := HandlerPair(RestoreLayerFn, UndoCreateLayerFn)]
        ["move" := HandlerPair(UndoMoveFn, RedoMoveFn)]
      ensures old(history.types) == map[] ==> history.types == Registrations()
      ensures history.State() == old(history.State())
    {
      history.RegisterType("createLayer", UndoCreateLayerFn, RestoreLayerFn);
      history.RegisterType("removeLayer", RestoreLayerFn, UndoCreateLayerFn);
      history.RegisterType("move", UndoMoveFn, RedoMoveFn);
    }

    /** `selectTargets`: Selecto, the state and the helper all get the same list. */
    method SelectTargets(ts: seq<Id>)
      modifies this
      ensures selected == ts
      ensures layers == old(layers) && frames == old(frames)
      ensures cursor == old(cursor) && viewportSize == old(viewportSize)
    {
      selected := ts;
    }

    /** `updateLayers`: every new list is stored re-indexed. */
    method UpdateLayers(ls: seq<Layer>)
      modifies this
      ensures layers == Reindex(ls) && Indexed(layers)
      ensures selected == old(selected) && frames == old(frames)
      ensures cursor == old(cursor) && viewportSize == old(viewportSize)
    {
      layers := Reindex(ls);
    }

    method UndoCreateLayer(layer: Layer, prevSelectedIds: seq<Id>)
      modifies this
      ensures State() == UndoCreated(old(State()), layer, prevSelectedIds)
      ensures cursor == old(cursor) && viewportSize == old(viewportSize)
    {
      var live := Ids(layers);
      UpdateLayers(Filter(layers, NotId(layer.id)));
      SelectTargets(Targets(live, prevSelectedIds));
    }

    method RestoreLayer(layer: Layer)
      modifies this
      ensures State() == Restored(old(State()), layer)
      ensures cursor == old(cursor) && viewportSize == old(viewportSize)
    {
      UpdateLayers(Insert(layers, RestoreStart(layer.index), layer));
      // after the re-render the element exists; its frame is created and it is selected
      frames := frames[layer.id := layer.frame];
      SelectTargets([layer.id]);
    }

    /** The shared body of undoMove and redoMove: each live target, in order, gets the frame of the listed id at its position. */
    method ReplayMove(m: map<Id, Frame>, ids: seq<Id>)
      modifies this
      ensures State() == Moved(old(State()), m, ids)
      ensures cursor == old(cursor) && viewportSize == old(viewportSize)
    {
      var targets := Targets(Ids(layers), ids);
      ReplayFrames(m, targets, ids);
      SelectTargets(targets);
    }

    /** The forEach of undoMove and redoMove: the k-th target gets the frame of `ids[k]`. */
    method ReplayFrames(m: map<Id, Frame>, targets: seq<Id>, ids: seq<Id>)
      requires |targets| <= |ids|
      modifies this
      ensures frames == PairedFrames(old(frames), m, targets, ids)
      ensures layers == old(layers) && selected == old(selected)
      ensures cursor == old(cursor) && viewportSize == old(viewportSize)
    {
      for k := 0 to |targets|
        invariant layers == old(layers) && selected == old(selected)
        invariant cursor == old(cursor) && viewportSize == old(viewportSize)
        invariant frames == PairedFrames(old(frames), m, targets[..k], ids)
      {
        assert targets[..k + 1][..k] == targets[..k] && targets[..k + 1][k] == targets[k];
        frames := frames[targets[k] := FrameOf(m, ids[k])];
      }
      assert targets[..|targets|] == targets;
    }

    method UndoMove(prevFrameMap: map<Id, Frame>, ids: seq<Id>)
      modifies this
      ensures State() == Moved(old(State()), prevFrameMap, ids)
      ensures cursor == old(cursor) && viewportSize == old(viewportSize)
    {
      ReplayMove(prevFrameMap, ids);
    }

    method RedoMove(nextFrameMap: map<Id, Frame>, ids: seq<Id>)
      modifies this
      ensures State() == Moved(old(State()), nextFrameMap, ids)
      ensures cursor == old(cursor) && viewportSize == old(viewportSize)
    {
      ReplayMove(nextFrameMap, ids);
    }

    /** Run the handler the history manager fired. */
    method Dispatch(h: Handler, p: Props)
      requires Fits(h, p)
      modifies this
      ensures State() == Apply(old(State()), h, p)
      ensures cursor == old(cursor) && viewportSize == old(viewportSize)
    {
      match p
      case CreateLayerProps(layer, prevSelectedIds) =>
        if h == UndoCreateLayerFn {
          UndoCreateLayer(layer, prevSelectedIds);
        } else {
          RestoreLayer(layer);
        }
      case MoveProps(prevFrameMap, nextFrameMap, ids) =>
        if h == UndoMoveFn {
          UndoMove(prevFrameMap, ids);
        } else {
          RedoMove(nextFrameMap, ids);
        }
    }

    /** The undo button: the manager pops and fires, the editor runs the handler. */
    method Undo()
      requires Valid()
      modifies this, history
      ensures Valid()
      ensures old(history.undoStack) == [] ==>
        State() == old(State()) && history.State() == old(history.State())
      ensures old(history.undoStack) != [] ==>
        var a := Top(old(history.undoStack));
        history.State() == Undone(old(history.State())) &&
        State() == Apply(old(State()), Registrations()[a.kind].undo, a.props)
      ensures cursor == old(cursor) && viewportSize == old(viewportSize)
    {
      StacksFitMoved(history.State());
      var r := history.Undo();
      match r
      case Nothing =>
      case Fired(h, p) =>
        Dispatch(h, p);
      case Unregistered(_) =>
        assert false;
    }

    /** The redo button: the mirror image of Undo. */
    method Redo()
      requires Valid()
      modifies this, history
      ensures Valid()
      ensures old(history.redoStack) == [] ==>
        State() == old(State()) && history.State() == old(history.State())
      ensures old(history.redoStack) != [] ==>
        var a := Top(old(history.redoStack));
        history.State() == Redone(old(history.State())) &&
        State() == Apply(old(State()), Registrations()[a.kind].redo, a.props)
      ensures cursor == old(cursor) && viewportSize == old(viewportSize)
    {
      StacksFitMoved(history.State());
      var r := history.Redo();
      match r
      case Nothing =>
      case Fired(h, p) =>
        Dispatch(h, p);
      case Unregistered(_) =>
        assert false;
    }

    /** Selecto's drag-start hook: decide, and apply the selection the decision carries. */
    method OnDragStart(e: DragStartEvent) returns (d: DragStartDecision)
      modifies this
      ensures d == OnDragStartDecision(old(cursor), e)
      ensures selected == (if d.Stop? && d.selection.Some? then d.selection.value else old(selected))
      ensures layers == old(layers) && frames == old(frames)
      ensures cursor == old(cursor) && viewportSize == old(viewportSize)
    {
      d := OnDragStartDecision(cursor, e);
      if d.Stop? && d.selection.Some? {
        SelectTargets(d.selection.value);
      }
    }

    /** Selecto's select-end hook: the selection becomes exactly Selecto's result. */
    method OnSelectEnd(isDragStart: bool, result: seq<Id>) returns (startDrag: bool)
      modifies this
      ensures selected == result && startDrag == isDragStart
      ensures layers == old(layers) && frames == old(frames)
      ensures cursor == old(cursor) && viewportSize == old(viewportSize)
    {
      SelectTargets(result);
      startDrag := isDragStart;
    }
  }
}
