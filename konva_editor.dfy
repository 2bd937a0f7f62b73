/**
 * The canvas editor's state hook: the layer list, the selection, the edit mode and its settings,
 * the per-layer image history, and the three history kinds it registers ("changeNode",
 * "undoCreateLayer", "createLayer") with the handlers that replay them.
 *
 * A layer is an id, a visibility flag and its Konva attributes.  A node is what Konva reports
 * for a shape (`toObject().attrs`): the same attributes, with `visible` possibly absent.
 */
module KonvaEditor {
  import opened Common
  import opened Seqs
  import opened History
  import opened HookHistory
  import opened KonvaGeometry

  /** The Konva attributes of a layer's image other than its id and visibility. */
  datatype Attrs = Attrs(
    name: string, imgSrc: string,
    x: real, y: real, width: real, height: real,
    scaleX: real, scaleY: real, rotation: real,
    cropX: real, cropY: real, cropWidth: real, cropHeight: real,
    imgWidth: real, imgHeight: real)

  datatype Layer = Layer(id: Id, visible: bool, attrs: Attrs)

  /** A shape's attributes as Konva reports them. */
  datatype Node = Node(id: Id, visible: Option<bool>, attrs: Attrs)

  /** The record of a layer's image versions shown in the history panel. */
  datatype LayerHistory = LayerHistory(id: Id, images: seq<string>, name: string)

  datatype Tool = Brush | Eraser

  /** One pen stroke: the tool, the flat list x0, y0, x1, y1, ... and the width. */
  datatype Line = Line(tool: Option<Tool>, points: seq<real>, penWidth: Option<real>)

  /** The settings of the current edit mode; a key the mode never set is None. */
  datatype EditState = EditState(
    expandRatio: Option<Ratio>, expandRatioLabel: Option<string>,
    expandTimes: Option<real>, expandWidthTimes: Option<real>, expandHeightTimes: Option<real>,
    tool: Option<Tool>, penWidth: Option<real>, lines: Option<seq<Line>>)

  const NoEditState: EditState := EditState(None, None, None, None, None, None, None, None)

  /** The layer list and the selection: what the history handlers act on. */
  datatype Scene = Scene(layers: seq<Layer>, selected: seq<Id>)

  /** The snapshot of a layer, as its shape reports it. */
  function AsNode(l: Layer): Node
  {
    Node(l.id, Some(l.visible), l.attrs)
  }

  function Ids(ls: seq<Layer>): (r: seq<Id>)
    ensures |r| == |ls| && forall i :: 0 <= i < |ls| ==> r[i] == ls[i].id
  {
    seq(|ls|, i requires 0 <= i < |ls| => ls[i].id)
  }

  /** `nodes.map(node => node.id)` */
  function NodeIds(ns: seq<Node>): (r: seq<Id>)
    ensures |r| == |ns| && forall i :: 0 <= i < |ns| ==> r[i] == ns[i].id
  {
    seq(|ns|, i requires 0 <= i < |ns| => ns[i].id)
  }

  function NotId(id: Id): Layer -> bool
  {
    (l: Layer) => l.id != id
  }

  function NotEq(id: Id): Id -> bool
  {
    (x: Id) => x != id
  }

  /** `nodes.find(node => node.id === id)`: the first node with that id. */
  function FindNode(ns: seq<Node>, id: Id): (r: Option<Node>)
    ensures r.None? <==> id !in NodeIds(ns)
    ensures r.Some? ==> r.value.id == id && r.value in ns
    ensures forall i :: 0 <= i < |ns| && ns[i].id == id && (forall j :: 0 <= j < i ==> ns[j].id != id) ==>
      r == Some(ns[i])
  {
    var k := IndexOf(NodeIds(ns), id);
    if k < 0 then None else Some(ns[k])
  }

  /** `{ visible: layer.visible, ...target }`: the node's attributes, the layer's visibility unless the node has one. */
  function MergeNode(l: Layer, n: Node): Layer
  {
    Layer(n.id, n.visible.GetOr(l.visible), n.attrs)
  }

  /** updateLayers: each layer that has a node with its id takes that node's attributes. */
  function Merged(ls: seq<Layer>, ns: seq<Node>): (r: seq<Layer>)
    ensures |r| == |ls| && Ids(r) == Ids(ls)
    ensures forall i :: 0 <= i < |ls| && ls[i].id !in NodeIds(ns) ==> r[i] == ls[i]
    ensures forall i :: 0 <= i < |ls| && ls[i].id in NodeIds(ns) ==>
      r[i].attrs == FindNode(ns, ls[i].id).value.attrs &&
      r[i].visible == FindNode(ns, ls[i].id).value.visible.GetOr(ls[i].visible)
  {
    seq(|ls|, i requires 0 <= i < |ls| =>
      var t := FindNode(ns, ls[i].id);
      if t.Some? then MergeNode(ls[i], t.value) else ls[i])
  }

  /** Applying the same nodes twice is applying them once. */
  lemma MergedIdempotent(ls: seq<Layer>, ns: seq<Node>)
    ensures Merged(Merged(ls, ns), ns) == Merged(ls, ns)
  {
  }

  /** `pre` holds, for every id it mentions, the snapshot of the layer with that id. */
  ghost predicate SnapshotOf(pre: seq<Node>, ls: seq<Layer>)
  {
    forall i :: 0 <= i < |ls| && ls[i].id in NodeIds(pre) ==> FindNode(pre, ls[i].id) == Some(AsNode(ls[i]))
  }

  /**
   * Applying a snapshot taken before a change that touched only snapshotted ids undoes the change.
   */
  lemma MergedUndo(ls: seq<Layer>, next: seq<Node>, pre: seq<Node>)
    requires SnapshotOf(pre, ls)
    requires forall id :: id in NodeIds(next) ==> id in NodeIds(pre)
    ensures Merged(Merged(ls, next), pre) == ls
  {
    var r := Merged(Merged(ls, next), pre);
    forall i | 0 <= i < |ls| ensures r[i] == ls[i] {
      if ls[i].id !in NodeIds(pre) {
        assert ls[i].id !in NodeIds(next);
      }
    }
  }

  /** selectedLayer: the layer of the only selected id, if there is exactly one and it exists. */
  function SelectedLayer(ls: seq<Layer>, selected: seq<Id>): (r: Option<Layer>)
    ensures r.Some? <==> |selected| == 1 && selected[0] in Ids(ls)
    ensures r.Some? ==> r.value in ls && r.value.id == selected[0]
  {
    if |selected| != 1 then None
    else
      var k := IndexOf(Ids(ls), selected[0]);
      if k < 0 then None else Some(ls[k])
  }

  function IsSelected(selected: seq<Id>): Layer -> bool
  {
    (l: Layer) => l.id in selected
  }

  /** selectedLayers: the layers whose ids are selected, in layer-list order. */
  function SelectedLayers(ls: seq<Layer>, selected: seq<Id>): (r: seq<Layer>)
    ensures forall i :: 0 <= i < |r| ==> r[i] in ls && r[i].id in selected
    ensures forall i :: 0 <= i < |ls| && ls[i].id in selected ==> ls[i] in r
    ensures IsSubsequence(r, ls)
    ensures selected == [] ==> r == []
  {
    FilterIsSubsequence(ls, IsSelected(selected));
    Filter(ls, IsSelected(selected))
  }

  /** addLayerHistory: a new entry with the layer's first image. */
  function WithLayerHistory(h: seq<LayerHistory>, l: Layer): (r: seq<LayerHistory>)
    ensures |r| == |h| + 1 && r[..|h|] == h && r[|h|] == LayerHistory(l.id, [l.attrs.imgSrc], l.attrs.name)
  {
    h + [LayerHistory(l.id, [l.attrs.imgSrc], l.attrs.name)]
  }

  /** addLayerHistoryImage: the image is appended to the entries with that id; nothing else changes. */
  function WithImage(h: seq<LayerHistory>, id: Id, imgSrc: string): (r: seq<LayerHistory>)
    ensures |r| == |h|
    ensures forall i :: 0 <= i < |h| && h[i].id == id ==> r[i] == h[i].(images := h[i].images + [imgSrc])
    ensures forall i :: 0 <= i < |h| && h[i].id != id ==> r[i] == h[i]
  {
    seq(|h|, i requires 0 <= i < |h| => if h[i].id == id then h[i].(images := h[i].images + [imgSrc]) else h[i])
  }

  /** Adding an image keeps the order and the ids of the entries and grows exactly the matching ones by one. */
  lemma WithImageKeepsEntries(h: seq<LayerHistory>, id: Id, imgSrc: string)
    ensures var r := WithImage(h, id, imgSrc);
      forall i :: 0 <= i < |h| ==>
        r[i].id == h[i].id && r[i].name == h[i].name &&
        |r[i].images| == |h[i].images| + (if h[i].id == id then 1 else 0) &&
        r[i].images[..|h[i].images|] == h[i].images
  {
  }

  /**
   * autoZoomScale: the largest scale at which the viewport fits in 70% of the container.  The
   * viewport size always comes from the size options, so it is positive.
   */
  function AutoZoomScale(container: Size, viewport: Size): (r: real)
    requires viewport.width > 0.0 && viewport.height > 0.0
    ensures r * viewport.width <= container.width * 0.7 && r * viewport.height <= container.height * 0.7
    ensures r * viewport.width == container.width * 0.7 || r * viewport.height == container.height * 0.7
  {
    Min(container.width * 0.7 / viewport.width, container.height * 0.7 / viewport.height)
  }

  // ----- history payloads and handlers -----

  datatype Props =
    | ChangeNodeProps(preNodes: seq<Node>, nextNodes: seq<Node>)
    | LayerProps(layer: Layer, index: int, preSelectedIds: Option<seq<Id>>)

  /** The handler closures registered at mount. */
  datatype Handler =
    | ApplyPreNodes         // updateLayers(preNodes) and select their ids
    | ApplyNextNodes        // updateLayers(nextNodes) and select their ids
    | RestoreAtIndex        // restoreLayer(layer, index)
    | RemoveKeepSelection   // removeLayer(layer), whose mount-time closure keeps the selection
    | RemoveToPreSelection  // removeLayer(layer, preSelectedIds ?? [])

  function Registrations(): (t: map<string, HandlerPair<Handler>>)
    ensures t.Keys == {"changeNode", "undoCreateLayer", "createLayer"}
    ensures t["changeNode"] == HandlerPair(ApplyPreNodes, ApplyNextNodes)
    ensures t["undoCreateLayer"] == HandlerPair(RestoreAtIndex, RemoveKeepSelection)
    ensures t["createLayer"] == HandlerPair(RemoveToPreSelection, RestoreAtIndex)
  {
    map["changeNode" := HandlerPair(ApplyPreNodes, ApplyNextNodes)]
       ["undoCreateLayer" := HandlerPair(RestoreAtIndex, RemoveKeepSelection)]
       ["createLayer" := HandlerPair(RemoveToPreSelection, RestoreAtIndex)]
  }

  /** The payload a handler destructures. */
  predicate Fits(h: Handler, p: Props)
  {
    (h == ApplyPreNodes || h == ApplyNextNodes) <==> p.ChangeNodeProps?
  }

  ghost predicate ActionFits(a: Action<Props>)
  {
    a.kind in Registrations() &&
    Fits(Registrations()[a.kind].undo, a.props) && Fits(Registrations()[a.kind].redo, a.props)
  }

  ghost predicate AllFit(s: seq<Action<Props>>)
  {
    forall i :: 0 <= i < |s| ==> ActionFits(s[i])
  }

  ghost predicate StacksFit(s: Stacks<Props>)
  {
    AllFit(s.undo) && AllFit(s.redo)
  }

  /** Recording an action that fits keeps every recorded action fitting. */
  lemma StacksFitRecorded(s: Stacks<Props>, a: Action<Props>)
    requires StacksFit(s) && ActionFits(a)
    ensures StacksFit(Recorded(s, a))
  {
    var u := s.undo + [a];
    forall i | 0 <= i < |u| ensures ActionFits(u[i]) {
      if i < |s.undo| {
        assert u[i] == s.undo[i];
      }
    }
  }

  /** Moving the top action to the other stack keeps every action fitting, the moved one included. */
  lemma StacksFitMoved(s: Stacks<Props>)
    requires StacksFit(s)
    ensures s.undo != [] ==> StacksFit(Undone(s)) && ActionFits(Top(s.undo))
    ensures s.redo != [] ==> StacksFit(Redone(s)) && ActionFits(Top(s.redo))
  {
    if s.undo != [] {
      assert ActionFits(Top(s.undo));
      var u, r := Popped(s.undo), s.redo + [Top(s.undo)];
      forall i | 0 <= i < |u| ensures ActionFits(u[i]) {
        assert u[i] == s.undo[i];
      }
      forall i | 0 <= i < |r| ensures ActionFits(r[i]) {
        if i < |s.redo| {
          assert r[i] == s.redo[i];
        }
      }
    }
    if s.redo != [] {
      assert ActionFits(Top(s.redo));
      var u, r := s.undo + [Top(s.redo)], Popped(s.redo);
      forall i | 0 <= i < |r| ensures ActionFits(r[i]) {
        assert r[i] == s.redo[i];
      }
      forall i | 0 <= i < |u| ensures ActionFits(u[i]) {
        if i < |s.undo| {
          assert u[i] == s.undo[i];
        }
      }
    }
  }

  /** The scene after a changeNode replay: the nodes are applied and their ids become the selection. */
  function NodesApplied(s: Scene, ns: seq<Node>): (r: Scene)
    ensures r.selected == NodeIds(ns) && Ids(r.layers) == Ids(s.layers)
  {
    Scene(Merged(s.layers, ns), NodeIds(ns))
  }

  /** restoreLayer: the layer goes in at `index` (splice's rule) and becomes the only selection. */
  function Restored(s: Scene, l: Layer, index: int): (r: Scene)
    ensures |r.layers| == |s.layers| + 1 && r.layers[SpliceStart(|s.layers|, index)] == l
    ensures r.selected == [l.id]
  {
    Scene(Insert(s.layers, index, l), [l.id])
  }

  /**
   * removeLayer as a closure that sees the selection `seen`: every layer with the id goes; the
   * selection becomes `preSelectedIds` when given, and otherwise loses the id if `seen` has it.
   */
  function RemovedSeeing(s: Scene, l: Layer, pre: Option<seq<Id>>, seen: seq<Id>): (r: Scene)
    ensures l.id !in Ids(r.layers)
  {
    Scene(Filter(s.layers, NotId(l.id)),
      if pre.Some? then pre.value
      else if l.id in seen then Filter(seen, NotEq(l.id))
      else s.selected)
  }

  /**
   * removeLayer reading the selection current when it runs: what the handler registered for redoing
   * an undoCreateLayer evidently intends.
   */
  function Removed(s: Scene, l: Layer, pre: Option<seq<Id>>): (r: Scene)
    ensures l.id !in Ids(r.layers)
    ensures pre.Some? ==> r.selected == pre.value
    ensures pre.None? ==> l.id !in r.selected
    ensures pre.None? ==> forall i :: 0 <= i < |s.selected| && s.selected[i] != l.id ==> s.selected[i] in r.selected
  {
    RemovedSeeing(s, l, pre, s.selected)
  }

  /**
   * removeLayer as registered at mount, as written: the closure sees the selection of the first
   * render, which is empty, so a removal without preSelectedIds never changes the selection.
   */
  function RemovedAsRegistered(s: Scene, l: Layer): (r: Scene)
    ensures r.selected == s.selected && l.id !in Ids(r.layers)
  {
    RemovedSeeing(s, l, None, [])
  }

  /** Redoing a removal with the handler as registered leaves the removed id selected. */
  lemma RemovedAsRegisteredKeepsDeadId()
    ensures var l := Layer("a", true, Attrs("", "", 0.0, 0.0, 1.0, 1.0, 1.0, 1.0, 0.0, 0.0, 0.0, 1.0, 1.0, 1.0, 1.0));
      var s := Scene([l], ["a"]);
      var stale := RemovedAsRegistered(s, l);
      "a" in stale.selected && "a" !in Ids(stale.layers) &&
      "a" !in Removed(s, l, None).selected
  {
    var l := Layer("a", true, Attrs("", "", 0.0, 0.0, 1.0, 1.0, 1.0, 1.0, 0.0, 0.0, 0.0, 1.0, 1.0, 1.0, 1.0));
    var s := Scene([l], ["a"]);
    var stale := RemovedAsRegistered(s, l);
    assert stale.selected == ["a"];
  }

  /**
   * What firing handler `h` with payload `p` does to the scene: a changeNode handler keeps the
   * list's ids and selects its nodes; restoring puts the layer in and selects only it; either
   * removal takes every layer with the id out, the one registered for redo keeping the selection.
   */
  function Apply(s: Scene, h: Handler, p: Props): (r: Scene)
    requires Fits(h, p)
    ensures p.ChangeNodeProps? ==> Ids(r.layers) == Ids(s.layers)
    ensures p.ChangeNodeProps? ==> r.selected == NodeIds(if h == ApplyPreNodes then p.preNodes else p.nextNodes)
    ensures h == RestoreAtIndex ==> p.layer in r.layers && r.selected == [p.layer.id]
    ensures p.LayerProps? && h != RestoreAtIndex ==> p.layer.id !in Ids(r.layers)
    ensures h == RemoveKeepSelection ==> r.selected == s.selected
    ensures h == RemoveToPreSelection ==> r.selected == p.preSelectedIds.GetOr([])
  {
    match p
    case ChangeNodeProps(preNodes, nextNodes) =>
      if h == ApplyPreNodes then NodesApplied(s, preNodes) else NodesApplied(s, nextNodes)
    case LayerProps(layer, index, preSelectedIds) =>
      if h == RestoreAtIndex then Restored(s, layer, index)
      else if h == RemoveKeepSelection then RemovedAsRegistered(s, layer)
      else Removed(s, layer, Some(preSelectedIds.GetOr([])))
  }

  /**
   * A recorded changeNode whose preNodes snapshot every layer it touches: undo puts the layers
   * back, redo after undo gives the layers the change produced, and each selects the ids of its nodes.
   */
  lemma ChangeNodeUndoRedo(s: Scene, pre: seq<Node>, next: seq<Node>)
    requires SnapshotOf(pre, s.layers)
    requires forall id :: id in NodeIds(next) ==> id in NodeIds(pre)
    ensures var t := Registrations()["changeNode"];
      var p := ChangeNodeProps(pre, next);
      var after := Scene(Merged(s.layers, next), s.selected);
      var undone := Apply(after, t.undo, p);
      undone.layers == s.layers && undone.selected == NodeIds(pre) &&
      Apply(undone, t.redo, p) == Scene(after.layers, NodeIds(next))
  {
    MergedUndo(s.layers, next, pre);
  }

  /** The list after a layer is appended, as onLayerAdd does. */
  function Appended(s: Scene, l: Layer): (r: Scene)
    ensures r.layers == s.layers + [l] && r.selected == [l.id]
  {
    Scene(s.layers + [l], [l.id])
  }

  /**
   * A recorded createLayer (the new layer at index = old length, preSelectedIds = old selection):
   * undo brings back the scene from before, and redo the scene after the creation.
   */
  lemma CreateLayerUndoRedo(s: Scene, l: Layer)
    requires l.id !in Ids(s.layers)
    ensures var t := Registrations()["createLayer"];
      var p := LayerProps(l, |s.layers|, Some(s.selected));
      var after := Appended(s, l);
      Apply(after, t.undo, p) == s && Apply(s, t.redo, p) == after
  {
    var after := Appended(s, l);
    FilterDropsOne(after.layers, |s.layers|, NotId(l.id));
    assert after.layers[..|s.layers|] == s.layers;
    assert Insert(s.layers, |s.layers|, l) == s.layers + [l];
  }

  /** The scene after the panel removes the layer at `i` (its id occurring nowhere else). */
  function RemovedFromPanel(s: Scene, id: Id): (r: Scene)
    ensures id !in Ids(r.layers) && id !in r.selected
  {
    Scene(Filter(s.layers, NotId(id)), Filter(s.selected, NotEq(id)))
  }

  /** Removing the layer at `i` (its id occurring nowhere else) drops just that slot. */
  lemma RemovedFromPanelLayers(s: Scene, i: nat)
    requires i < |s.layers| && Distinct(Ids(s.layers))
    ensures RemovedFromPanel(s, s.layers[i].id).layers == s.layers[..i] + s.layers[i + 1..]
  {
    var l := s.layers[i];
    forall j | 0 <= j < |s.layers| && j != i ensures NotId(l.id)(s.layers[j]) {
      assert Ids(s.layers)[j] != Ids(s.layers)[i];
    }
    FilterDropsOne(s.layers, i, NotId(l.id));
  }

  /**
   * A recorded undoCreateLayer (the removed layer and its index), replayed by the registered
   * handlers: undo puts the layer back where it was and selects it; redo removes it again, and
   * since the registered removal sees an empty selection, the removed id stays selected.
   */
  lemma RemoveLayerUndoRedo(s: Scene, i: nat)
    requires i < |s.layers| && Distinct(Ids(s.layers))
    ensures var t := Registrations()["undoCreateLayer"];
      var l := s.layers[i];
      var p := LayerProps(l, i, None);
      var after := RemovedFromPanel(s, l.id);
      var undone := Apply(after, t.undo, p);
      undone == Scene(s.layers, [l.id]) &&
      Apply(undone, t.redo, p) == Scene(after.layers, [l.id])
  {
    var l := s.layers[i];
    var after := RemovedFromPanel(s, l.id);
    RemovedFromPanelLayers(s, i);
    assert Restored(after, l, i).layers == s.layers by {
      RemoveInsertRoundTrip(s.layers, i);
    }
  }

  /**
   * The same round trip with a removal that reads the current selection: redo leaves the removed
   * layer unselected.
   */
  lemma RemoveLayerRedoIntended(s: Scene, i: nat)
    requires i < |s.layers| && Distinct(Ids(s.layers))
    ensures var l := s.layers[i];
      var after := RemovedFromPanel(s, l.id);
      var undone := Restored(after, l, i);
      undone == Scene(s.layers, [l.id]) && Removed(undone, l, None) == Scene(after.layers, [])
  {
    var l := s.layers[i];
    var after := RemovedFromPanel(s, l.id);
    RemovedFromPanelLayers(s, i);
    assert Restored(after, l, i).layers == s.layers by {
      RemoveInsertRoundTrip(s.layers, i);
    }
    assert Filter([l.id], NotEq(l.id)) == [] by {
      assert [l.id][..0] == [];
    }
  }

  /**
   * Everything a handler of the canvas editor can change: the hook's state variables and the Konva
   * stage's position and scale.  The viewport and container sizes, the viewport position and the
   * stage size are fixed.
   */
  datatype EditorState = EditorState(
    cursor: Cursor, layers: seq<Layer>, selected: seq<Id>, zoomScale: real,
    layersHistory: seq<LayerHistory>, editState: EditState, stagePos: Point, stageScale: real)

  /** The state with its layer list and selection taken from a scene. */
  function WithScene(st: EditorState, s: Scene): (r: EditorState)
    ensures r.layers == s.layers && r.selected == s.selected
    ensures r.(layers := st.layers, selected := st.selected) == st
  {
    st.(layers := s.layers, selected := s.selected)
  }

  /** The canvas editor's state, as the hook holds it. */
  class KEditor {
    var cursor: Cursor
    var layers: seq<Layer>
    var selected: seq<Id>
    const viewportSize: Size
    const containerSize: Size
    const viewportPos: Point
    var zoomScale: real
    var layersHistory: seq<LayerHistory>
    var editState: EditState
    /** The Konva stage's position and scale, which the viewport handlers move directly. */
    var stagePos: Point
    var stageScale: real
    const stageSize: Size
    const history: HookHistoryManager<Props, Handler>

    function SceneOf(): Scene
      reads this
    {
      Scene(layers, selected)
    }

    function StateOf(): EditorState
      reads this
    {
      EditorState(cursor, layers, selected, zoomScale, layersHistory, editState, stagePos, stageScale)
    }

    ghost predicate Valid()
      reads this, history
    {
      history.types == Registrations() && StacksFit(history.State()) && stageScale > 0.0 && zoomScale > 0.0
    }

    /** The hook's initial state, then the mount effect that registers the three kinds. */
    constructor ()
      ensures Valid() && fresh(history)
      ensures StateOf() == EditorState(Default, [], [], 1.0, [], NoEditState, Point(0.0, 0.0), 1.0)
      ensures viewportSize == Size(512.0, 512.0) && containerSize == Size(512.0, 512.0)
      ensures viewportPos == Point(0.0, 0.0) && stageSize == Size(512.0, 512.0)
      ensures history.State() == Stacks([], [])
    {
      cursor, layers, selected := Default, [], [];
      viewportSize, containerSize, viewportPos := Size(512.0, 512.0), Size(512.0, 512.0), Point(0.0, 0.0);
      zoomScale, layersHistory, editState := 1.0, [], NoEditState;
      stagePos, stageScale, stageSize := Point(0.0, 0.0), 1.0, Size(512.0, 512.0);
      history := new HookHistoryManager();
      new;
      RegisterHistoryTypes();
    }

    method RegisterHistoryTypes()
      modifies history
      ensures history.types == old(history.types)
        ["changeNode" := HandlerPair(ApplyPreNodes, ApplyNextNodes)]
        ["undoCreateLayer" := HandlerPair(RestoreAtIndex, RemoveKeepSelection)]
        ["createLayer" := HandlerPair(RemoveToPreSelection, RestoreAtIndex)]
      ensures old(history.types) == map[] ==> history.types == Registrations()
      ensures history.State() == old(history.State())
    {
      history.RegisterType("changeNode", ApplyPreNodes, ApplyNextNodes);
      history.RegisterType("undoCreateLayer", RestoreAtIndex, RemoveKeepSelection);
      history.RegisterType("createLayer", RemoveToPreSelection, RestoreAtIndex);
    }

    /** updateLayers */
    method UpdateLayers(ns: seq<Node>)
      modifies this
      ensures StateOf() == old(StateOf()).(layers := Merged(old(layers), ns))
    {
      layers := Merged(layers, ns);
    }

    method SetSelectedIds(ids: seq<Id>)
      modifies this
      ensures StateOf() == old(StateOf()).(selected := ids)
    {
      selected := ids;
    }

    /** restoreLayer */
    method RestoreLayer(l: Layer, index: int)
      modifies this
      ensures StateOf() == WithScene(old(StateOf()), Restored(old(SceneOf()), l, index))
    {
      layers := Insert(layers, index, l);
      SetSelectedIds([l.id]);
    }

    /**
     * removeLayer, as a closure whose `selectedIds` is `seen`: the handlers registered on mount
     * see the selection of the first render, which is empty.
     */
    method RemoveLayer(l: Layer, pre: Option<seq<Id>>, seen: seq<Id>)
      modifies this
      ensures StateOf() == WithScene(old(StateOf()), RemovedSeeing(old(SceneOf()), l, pre, seen))
    {
      layers := Filter(layers, NotId(l.id));
      if pre.Some? {
        SetSelectedIds(pre.value);
      } else if l.id in seen {
        SetSelectedIds(Filter(seen, NotEq(l.id)));
      }
    }

    /** Run the handler the history manager fired. */
    method Dispatch(h: Handler, p: Props)
      requires Fits(h, p)
      modifies this
      ensures StateOf() == WithScene(old(StateOf()), Apply(old(SceneOf()), h, p))
    {
      match p
      case ChangeNodeProps(preNodes, nextNodes) =>
        var ns := if h == ApplyPreNodes then preNodes else nextNodes;
        UpdateLayers(ns);
        SetSelectedIds(NodeIds(ns));
      case LayerProps(layer, index, preSelectedIds) =>
        if h == RestoreAtIndex {
          RestoreLayer(layer, index);
        } else if h == RemoveKeepSelection {
          RemoveLayer(layer, None, []);
        } else {
          RemoveLayer(layer, Some(preSelectedIds.GetOr([])), []);
        }
    }

    /** historyManager.undo(): only called when there is something to undo. */
    method Undo()
      requires Valid() && history.undoStack != []
      modifies this, history
      ensures Valid()
      ensures var a := Top(old(history.undoStack));
        history.State() == Undone(old(history.State())) &&
        StateOf() == WithScene(old(StateOf()), Apply(old(SceneOf()), Registrations()[a.kind].undo, a.props))
    {
      StacksFitMoved(history.State());
      var r := history.Undo();
      match r
      case Fired(h, p) =>
        Dispatch(h, p);
    }

    /** historyManager.redo(): the mirror image of Undo. */
    method Redo()
      requires Valid() && history.redoStack != []
      modifies this, history
      ensures Valid()
      ensures var a := Top(old(history.redoStack));
        history.State() == Redone(old(history.State())) &&
        StateOf() == WithScene(old(StateOf()), Apply(old(SceneOf()), Registrations()[a.kind].redo, a.props))
    {
      StacksFitMoved(history.State());
      var r := history.Redo();
      match r
      case Fired(h, p) =>
        Dispatch(h, p);
    }

    /** Record an action of a registered kind whose payload fits its handlers. */
    method Record(a: Action<Props>)
      requires Valid() && ActionFits(a)
      modifies history
      ensures Valid()
      ensures history.State() == Recorded(old(history.State()), a)
    {
      StacksFitRecorded(history.State(), a);
      history.AddAction(a.kind, a.props);
    }

    method AddLayerHistory(l: Layer)
      modifies this
      ensures StateOf() == old(StateOf()).(layersHistory := WithLayerHistory(old(layersHistory), l))
    {
      layersHistory := WithLayerHistory(layersHistory, l);
    }

    method AddLayerHistoryImage(id: Id, imgSrc: string)
      modifies this
      ensures StateOf() == old(StateOf()).(layersHistory := WithImage(old(layersHistory), id, imgSrc))
    {
      layersHistory := WithImage(layersHistory, id, imgSrc);
    }
  }
}
