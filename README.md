# Layer editors: undo/redo history, layers, selection and geometry

This project is a Dafny model of the core of two image-layer editors that share one web page.

- **Editor** is DOM-based. Each layer is an absolutely positioned element whose CSS frame is kept by the Moveable helper, and Selecto does box selection.
- **KonvaEditor** is canvas-based. Layers are Konva shapes on a stage that can be zoomed and panned, with a transformer around the selection, pen strokes, an expand tool and a cut-out tool.

Both editors keep a linear undo/redo history: a stack of recorded actions, plus a table from action kind to an (undo, redo) pair of handlers. The model covers these parts:

- **The two history managers.** One is a module-level object (`HistoryManager.ts`). The other is a React hook (`useHistoryManager.ts`) whose undo and redo read the top of the stack before checking that it is non-empty.
- **The handlers each editor registers.** The DOM editor registers `createLayer`, `removeLayer` and `move`. The canvas editor registers `changeNode`, `undoCreateLayer` and `createLayer`.
- **The layer panels.** Adding, removing, moving up and down, and selecting with shift-toggle. The canvas panel also fits a layer to the viewport, toggles its visibility and swaps its image, and it lists the layers in reverse order.
- **The toolbars.** The cursor-mode guards, the undo and redo buttons, the DOM editor's viewport-size select, the canvas editor's zoom select, its expand and pen settings, and the cut-out's alpha mask.
- **The canvas geometry.** Stage and canvas coordinates, bounding boxes, rectangle overlap, the zoom anchor, and the expand-area arithmetic.
- **The viewport.** The background grid, box selection, wheel zoom and pan.
- **The transformer** and the image layer's transform, selection and pen handlers.

Each editor is a `class` whose fields are the hook's state variables. A React state setter becomes an assignment, made in the order the source issues it. Components that read the editor context become methods that take the editor and carry `modifies` clauses. A handler that the history manager fires is an opaque value. `Undo` and `Redo` return the handler they fire together with its payload, and the editor then applies it. Pure computations are functions, each specified by the lemmas stated about it. Every method with a loop is proved against such a function.

| file | models |
|---|---|
| `common.dfy` | shared types, `Math.min`/`Math.max` clamping, `Math.round` |
| `seqs.dfy` | `filter`, `findIndex`, `splice(i, 0, x)`, the two-slot swap, `reverse` |
| `numeric.dfy` | `${n}`, `Number(s)` on digit strings, `split` |
| `history.dfy` | `src/components/Editor/utils/HistoryManager.ts` |
| `hook_history.dfy` | `src/components/KonvaEditor/hooks/useHistoryManager.ts` |
| `dom_editor.dfy` | `src/components/Editor/hooks/useEditor.ts`, `src/components/Editor/index.tsx` |
| `dom_menu.dfy`, `dom_toolbar.dfy`, `dom_movable.dfy` | the DOM editor's `Menu.tsx`, `ToolBar.tsx`, `MovableManager.tsx` |
| `konva_editor.dfy` | `src/components/KonvaEditor/hooks/useEditor.ts` |
| `konva_geometry.dfy` | `src/components/KonvaEditor/utils/utils.ts` |
| `konva_menu.dfy`, `konva_toolbar.dfy` | the canvas editor's `Menu.tsx`, `ToolBar.tsx` |
| `konva_layer_image.dfy`, `konva_viewport.dfy`, `konva_transformer.dfy` | the canvas editor's `LayerImage.tsx`, `Viewport.tsx`, `Transformer.tsx` |

## Model

| member | source | states |
|---|---|---|
| Common.Clamp | src/components/KonvaEditor/components/LayerImage.tsx:52-53 | `Math.min(Math.max(lo, v), hi)` lies in [lo, hi]. It is v when v is inside, lo below, and hi above |
| Common.Round | src/components/KonvaEditor/components/ToolBar.tsx:235-236 | `Math.round`: the integer r with r ≤ x + 0.5 < r + 1, so halves round up |
| Seqs.Filter | src/components/Editor/hooks/useEditor.ts:50 | `filter` keeps exactly the elements that pass. Each kept element is in the input and passes; each passing element of the input is kept; the result is never longer |
| Seqs.FilterConcat | src/components/Editor/hooks/useEditor.ts:50 | filtering a concatenation is concatenating the filtered parts |
| Seqs.FilterAll | src/components/Editor/hooks/useEditor.ts:50 | when every element passes, filtering returns the list unchanged |
| Seqs.FilterDropsOne | src/components/Editor/components/Menu.tsx:82 | when exactly slot i fails the predicate, the filtered list is the list with slot i cut out |
| Seqs.FilterIsSubsequence | src/components/Editor/hooks/useEditor.ts:50 | the filtered list is a subsequence of the input, so order is kept |
| Seqs.IndexOf | src/components/Editor/components/Menu.tsx:90 | `findIndex` is -1 exactly when the id is absent. Otherwise the slot found holds the id and no earlier slot does |
| Seqs.IndexOfDistinct | src/components/Editor/components/Menu.tsx:90 | in a list without repeats, the index found for the i-th element is i |
| Seqs.SpliceStart | src/components/Editor/hooks/useEditor.ts:57 | JavaScript's start rule for `splice`. An in-range start is kept and a start past the end becomes the length. A negative start counts from the end, and one below minus the length becomes 0 |
| Seqs.Insert | src/components/Editor/hooks/useEditor.ts:56-58 | `splice(start, 0, x)` on a copy. The result is one longer, holds x at the splice position, and is the original once that slot is removed |
| Seqs.RemoveInsertRoundTrip | src/components/Editor/hooks/useEditor.ts:50-58 | cutting out slot i and splicing the same element back at i gives the original list |
| Seqs.Swap | src/components/Editor/components/Menu.tsx:92-96 | the swap through a temporary exchanges slots i and j, leaves every other slot alone, and is a permutation |
| Seqs.SwapTwice | src/components/Editor/components/Menu.tsx:92-96 | swapping the same two slots twice restores the list |
| Seqs.SwapSymmetric | src/components/Editor/components/Menu.tsx:92-96 | swapping i with j is the same as swapping j with i |
| Seqs.Reverse | src/components/KonvaEditor/components/Menu.tsx:342 | `[...layers].reverse()`: slot i of the result is slot len-1-i of the input |
| Seqs.ReverseSwap | src/components/KonvaEditor/components/Menu.tsx:342 | reversing after a swap is swapping the mirrored slots after reversing |
| Seqs.ReverseReverse | src/components/KonvaEditor/components/Menu.tsx:342 | reversing twice gives back the list |
| Numeric.NatToString | src/components/Editor/components/Menu.tsx:46-47 | `${n}` for a natural number is a non-empty string of decimal digits |
| Numeric.JsNumber | src/components/Editor/components/ToolBar.tsx:39-40 | `Number(s)` is defined exactly on digit strings, and the empty string reads as 0 |
| Numeric.NumberOfNatToString | src/components/Editor/components/ToolBar.tsx:37-40 | reading back a printed natural number gives the number |
| Numeric.Split | src/components/Editor/components/ToolBar.tsx:39-40 | `split(sep)` gives at least one piece, and exactly the string when the separator does not occur |
| Numeric.SplitAtFirst | src/components/Editor/components/ToolBar.tsx:39-40 | a string cut at its first separator splits into the part before it followed by the split of the rest |
| History.Popped | src/components/Editor/utils/HistoryManager.ts:32-40 | `pop` leaves a stack one shorter, which followed by the popped top is the old stack |
| History.Recorded | src/components/Editor/utils/HistoryManager.ts:22-28 | `addAction` pushes the action on the undo stack (the old stack is its prefix) and empties the redo stack |
| History.Undone | src/components/Editor/utils/HistoryManager.ts:32-40 | a successful undo moves the top of the undo stack to the top of the redo stack. The rest stays, and the total count is kept |
| History.Redone | src/components/Editor/utils/HistoryManager.ts:41-49 | a successful redo moves the top of the redo stack to the top of the undo stack. The rest stays, and the total count is kept |
| History.UndoRedoInverse | src/components/Editor/utils/HistoryManager.ts:32-49 | undo then redo restores both stacks exactly, and so does redo then undo |
| History.UndoN | src/components/Editor/utils/HistoryManager.ts:32-40 | n undos leave the undo stack cut to its first len-n actions, and put the n popped actions on the redo stack above the old one, the old top first |
| History.RedoN | src/components/Editor/utils/HistoryManager.ts:41-49 | the mirror image of UndoN: the top n redo actions move onto the undo stack, the old top first |
| History.UndoRedoNInverse | src/components/Editor/utils/HistoryManager.ts:32-49 | undoing the last n actions and then redoing n restores both stacks exactly |
| History.RegisteredPreserved | src/components/Editor/utils/HistoryManager.ts:22-49 | recording a registered kind, undoing and redoing all keep every stacked action's kind registered |
| History.HistoryManager.constructor | src/components/Editor/utils/HistoryManager.ts:17-20 | a new manager starts with both stacks empty and no registered kind |
| History.HistoryManager.AddAction | src/components/Editor/utils/HistoryManager.ts:22-28 | the stacks become Recorded of the old stacks, and the handler table is untouched |
| History.HistoryManager.RegisterType | src/components/Editor/utils/HistoryManager.ts:29-31 | the table maps the kind to the new pair, other kinds keep their pairs, and the stacks are untouched |
| History.HistoryManager.Undo | src/components/Editor/utils/HistoryManager.ts:32-40 | On an empty stack, nothing. With a registered kind, the undo handler fires with the props and the stacks become Undone. With an unregistered kind, the action is popped and lost, and the redo stack is left alone |
| History.HistoryManager.Redo | src/components/Editor/utils/HistoryManager.ts:41-49 | the mirror image of Undo, on the redo stack |
| History.HistoryManager.HasUndo | src/components/Editor/utils/HistoryManager.ts:51 | true exactly when the undo stack is non-empty |
| History.HistoryManager.HasRedo | src/components/Editor/utils/HistoryManager.ts:52 | true exactly when the redo stack is non-empty |
| HookHistory.HookHistoryManager.constructor | src/components/KonvaEditor/hooks/useHistoryManager.ts:19-21 | the hook starts with both stacks empty and no registered kind |
| HookHistory.HookHistoryManager.AddAction | src/components/KonvaEditor/hooks/useHistoryManager.ts:23-26 | appends to the undo stack and resets the redo stack (Recorded); the handler table is untouched |
| HookHistory.HookHistoryManager.RegisterType | src/components/KonvaEditor/hooks/useHistoryManager.ts:28-30 | the table maps the kind to the new pair; the stacks are untouched |
| HookHistory.HookHistoryManager.Undo | src/components/KonvaEditor/hooks/useHistoryManager.ts:32-43 | It needs a non-empty undo stack, because the top is read before any check. With a registered kind, the undo handler fires and the stacks become Undone. With an unregistered kind, the lookup throws and neither stack changes. Undo never reports "nothing" |
| HookHistory.HookHistoryManager.Redo | src/components/KonvaEditor/hooks/useHistoryManager.ts:45-56 | the mirror image of Undo, on the redo stack |
| HookHistory.HookHistoryManager.HasUndo | src/components/KonvaEditor/hooks/useHistoryManager.ts:58 | true exactly when the undo stack is non-empty |
| HookHistory.HookHistoryManager.HasRedo | src/components/KonvaEditor/hooks/useHistoryManager.ts:59 | true exactly when the redo stack is non-empty |
| DomEditor.Ids | src/components/Editor/hooks/useEditor.ts:20 | `getIds`: one id per layer, in order |
| DomEditor.Reindex | src/components/Editor/hooks/useEditor.ts:37-45 | `updateLayers` stamps each layer with `index: i`. Each layer's index is its position, the ids are kept in order, and every other field is unchanged |
| DomEditor.ReindexIdempotent | src/components/Editor/hooks/useEditor.ts:37-45 | re-indexing an already indexed list changes nothing, so re-indexing twice is re-indexing once |
| DomEditor.ReindexIgnoresIndex | src/components/Editor/hooks/useEditor.ts:37-45 | lists that differ only in their `index` fields re-index to the same list |
| DomEditor.Targets | src/components/Editor/hooks/useEditor.ts:72 | `getTargets(ids)`. Exactly the listed ids that have an element are kept, in the listed order, so there are never more targets than listed ids |
| DomEditor.IdsFilter | src/components/Editor/hooks/useEditor.ts:50 | dropping the layers of one id and then taking ids is the same as taking ids and then dropping that id |
| DomEditor.IdsInsert | src/components/Editor/hooks/useEditor.ts:56-58 | taking ids commutes with `splice` |
| DomEditor.UndoCreated | src/components/Editor/hooks/useEditor.ts:47-53 | `undoCreateLayer` removes every layer with the recorded id and stores the list re-indexed. The selection becomes the live part of the previous selection. Frames are untouched |
| DomEditor.Restored | src/components/Editor/hooks/useEditor.ts:54-69 | `restoreLayer` splices the layer back in at its recorded index (a missing index reads as 0) and re-indexes. The element gets the recorded frame and becomes the only selected one |
| DomEditor.InsertReindexed | src/components/Editor/hooks/useEditor.ts:37-58 | splicing into a re-indexed list and then re-indexing gives the same list as splicing into the original list and re-indexing |
| DomEditor.RemoveRestoreRoundTrip | src/components/Editor/hooks/useEditor.ts:47-69 | in an indexed list with distinct ids, removing the layer at i and restoring the removed record gives back exactly the same list |
| DomEditor.ReplacedFrames | src/components/Editor/hooks/useEditor.ts:71-90 | the intended frame store after undoMove or redoMove. Every target gets the frame recorded for its own id; all other entries are kept |
| DomEditor.ReplacedFramesIdempotent | src/components/Editor/hooks/useEditor.ts:71-90 | replaying the same frame map twice is the same as replaying it once |
| DomEditor.UndoRedoMoveRestores | src/components/Editor/hooks/useEditor.ts:71-90 | if the targets already show the post-move frames, undoMove followed by redoMove leaves the frame store unchanged |
| DomEditor.Moved | src/components/Editor/hooks/useEditor.ts:71-90 | undoMove/redoMove as written. The layers are unchanged and the live listed ids become the selection. The k-th of them gets the frame recorded for `ids[k]`, the k-th listed id; every live listed id has a frame, and every other entry is kept |
| DomEditor.PairedFrames | src/components/Editor/hooks/useEditor.ts:73-77 | the `forEach` over the targets as written: every target has a frame afterwards, and every id that is not a target keeps its entry or its absence |
| DomEditor.PairedFramesAt | src/components/Editor/hooks/useEditor.ts:73-77 | a target at its last position k ends on the frame recorded for `ids[k]` |
| DomEditor.PairedFramesPositional | src/components/Editor/hooks/useEditor.ts:73-77 | the previous row at every position at once |
| DomEditor.ReplacedFramesSnoc | src/components/Editor/hooks/useEditor.ts:73-77 | replaying one more target is one more map update, which is what each `forEach` step does |
| DomEditor.PairedFramesPrefix | src/components/Editor/hooks/useEditor.ts:71-90 | while no listed id is dropped, the as-written pairing of the k-th target with `ids[k]` gives the intended frames |
| DomEditor.PairedFramesAgreeWhenAllLive | src/components/Editor/hooks/useEditor.ts:71-90 | when every listed id is live, the as-written pairing and the intended one agree |
| DomEditor.MoveUndoRedoRestores | src/components/Editor/hooks/useEditor.ts:71-90 | when every listed element is still in the document and already shows its post-move frame, undoMove then redoMove as written leave the frame store and layers unchanged and select the listed ids |
| DomEditor.PairedFramesMisassign | src/components/Editor/hooks/useEditor.ts:72-75 | counterexample: with `a` removed, undoing a move of [a, b] gives b the frame recorded for a |
| DomEditor.Registrations | src/components/Editor/index.tsx:67-79 | The mount effect's table has exactly three kinds. `createLayer` maps to (undoCreateLayer, restoreLayer), `removeLayer` to the same pair swapped, and `move` to (undoMove, redoMove) |
| DomEditor.StacksFitRecorded | src/components/Editor/index.tsx:67-79 | recording a well-formed action keeps every stacked action registered with a payload its handlers destructure |
| DomEditor.StacksFitMoved | src/components/Editor/index.tsx:67-79 | undoing and redoing keep every stacked action well-formed, and the action moved is itself well-formed |
| DomEditor.Apply | src/components/Editor/index.tsx:67-79 | Every handler keeps the list indexed. undoCreateLayer takes the layer's id out of the list and keeps the frames; restoreLayer puts it in and selects only it; the move handlers keep the list and select the live listed ids |
| DomEditor.Prepended | src/components/Editor/components/Menu.tsx:51-54 | The new layer goes in front (index 0) and the list is re-indexed. It becomes the only selection and its element gets its frame |
| DomEditor.CreateUndoRedoRoundTrip | src/components/Editor/components/Menu.tsx:36-79 | append a layer, undo its `createLayer` action and redo it: the whole editor state is back to the state right after the append |
| DomEditor.PrependedLayersRoundTrip | src/components/Editor/hooks/useEditor.ts:47-69 | the layer-list half of the previous row: removing the front layer and splicing it back at 0 gives the appended list |
| DomEditor.OnDragStartDecision | src/components/Editor/index.tsx:128-159 | Selecto's start hook. In a non-default mode it always stops; a layer element becomes the only selection, a canvas keeps the selection, and anything else clears it. In default mode it hands over to Moveable exactly when the pointer is inside the control on the viewport. It starts a box selection exactly when none of the stop conditions holds |
| DomEditor.Editor.constructor | src/components/Editor/hooks/useEditor.ts:17-24 | the hook's initial state (no layers or selection, default cursor, zoom 1, a 512×512 viewport), followed by the mount registrations |
| DomEditor.Editor.RegisterHistoryTypes | src/components/Editor/index.tsx:67-79 | three registrations in order. On an empty table the result is Registrations |
| DomEditor.Editor.SelectTargets | src/components/Editor/hooks/useEditor.ts:30-34 | the selection becomes the given list, and nothing else changes |
| DomEditor.Editor.UpdateLayers | src/components/Editor/hooks/useEditor.ts:37-45 | the layers become the re-indexed list, and nothing else changes |
| DomEditor.Editor.UndoCreateLayer | src/components/Editor/hooks/useEditor.ts:47-53 | the state becomes UndoCreated |
| DomEditor.Editor.RestoreLayer | src/components/Editor/hooks/useEditor.ts:54-69 | the state becomes Restored |
| DomEditor.Editor.ReplayMove | src/components/Editor/hooks/useEditor.ts:71-90 | the shared body of undoMove and redoMove: the state becomes Moved |
| DomEditor.Editor.ReplayFrames | src/components/Editor/hooks/useEditor.ts:73-77 | the loop gives the k-th target the frame of `ids[k]`, one map update per step. The frames become PairedFrames and nothing else changes |
| DomEditor.Editor.UndoMove | src/components/Editor/hooks/useEditor.ts:71-80 | the state becomes Moved with the previous frame map, paired by position as written |
| DomEditor.Editor.RedoMove | src/components/Editor/hooks/useEditor.ts:81-90 | the state becomes Moved with the next frame map, paired by position as written |
| DomEditor.Editor.Dispatch | src/components/Editor/index.tsx:67-79 | running the fired handler gives Apply of the handler and payload |
| DomEditor.Editor.Undo | src/components/Editor/components/ToolBar.tsx:43-45 | The undo button keeps the editor invariant. On an empty stack nothing changes. Otherwise the stacks become Undone and the state becomes the registered undo handler applied to the top action's payload |
| DomEditor.Editor.Redo | src/components/Editor/components/ToolBar.tsx:48-50 | the mirror image of Undo |
| DomEditor.Editor.OnDragStart | src/components/Editor/index.tsx:128-159 | the decision is OnDragStartDecision, and the selection is replaced exactly when the decision carries one |
| DomEditor.Editor.OnSelectEnd | src/components/Editor/index.tsx:160-172 | the selection becomes Selecto's result, and a drag starts exactly when Selecto reports one |
| DomMenu.NewLayerFrame | src/components/Editor/components/Menu.tsx:42-48 | A new layer's frame is absolute at (0, 0). Its width and height are "<n>px" strings that read back as the viewport's size |
| DomMenu.AppendLayer | src/components/Editor/components/Menu.tsx:36-79 | The state becomes Prepended. One `createLayer` action is recorded with the layer and the selection from before the click. The invariant is kept The layer is `NewLayer`: the default name, a NewLayerFrame, the image and no history |
| DomMenu.RemovedFromPanel | src/components/Editor/components/Menu.tsx:81-86 | The panel's remove drops the layer and removes its id from the selection. Nothing is recorded, so it cannot be undone |
| DomMenu.RemoveLayer | src/components/Editor/components/Menu.tsx:81-86 | the state becomes RemovedFromPanel |
| DomMenu.MovedUp | src/components/Editor/components/Menu.tsx:88-98 | An absent or first layer leaves the list unchanged. Otherwise the layer and its predecessor swap places, every other slot is unchanged, and the result is a permutation |
| DomMenu.MovedDown | src/components/Editor/components/Menu.tsx:100-110 | An absent or last layer leaves the list unchanged. Otherwise the layer and its successor swap places, every other slot is unchanged, and the result is a permutation |
| DomMenu.IdsSwap | src/components/Editor/components/Menu.tsx:92-96 | taking ids commutes with the swap |
| DomMenu.SwapDistinct | src/components/Editor/components/Menu.tsx:92-96 | a swap keeps ids distinct |
| DomMenu.MoveUpThenDown | src/components/Editor/components/Menu.tsx:88-110 | moving a layer up and then down restores the order, whenever the move up applied |
| DomMenu.MoveDownThenUp | src/components/Editor/components/Menu.tsx:88-110 | moving a layer down and then up restores the order, whenever the move down applied |
| DomMenu.UpDisabledExactlyWhenNoOp | src/components/Editor/components/Menu.tsx:156 | "up" is disabled on exactly the row where moving up would change nothing |
| DomMenu.DownDisabledExactlyWhenNoOp | src/components/Editor/components/Menu.tsx:161 | "down" is disabled on exactly the row where moving down would change nothing |
| DomMenu.MoveLayerUp | src/components/Editor/components/Menu.tsx:88-98 | the layers become MovedUp, re-indexed; the selection and frames are kept |
| DomMenu.MoveLayerDown | src/components/Editor/components/Menu.tsx:100-110 | the layers become MovedDown, re-indexed; the selection and frames are kept |
| DomMenu.PanelSelection | src/components/Editor/components/Menu.tsx:117-125 | Without shift, the clicked id alone (if live). With shift, the clicked id is toggled and every other id keeps its membership; only live ids remain |
| DomMenu.SelectLayers | src/components/Editor/components/Menu.tsx:112-115 | the selection becomes the ids that have an element |
| DomMenu.OnLayerSelect | src/components/Editor/components/Menu.tsx:118-125 | the selection becomes PanelSelection |
| DomMenu.OnDropdownClick | src/components/Editor/components/Menu.tsx:26-34 | "delete", "up" and "down" run RemovedFromPanel, MovedUp and MovedDown; any other key changes nothing |
| DomToolBar.CursorChange | src/components/Editor/components/ToolBar.tsx:18-29 | `default` is always accepted. Any other mode is accepted only with exactly one selected element; otherwise the matching message is returned |
| DomToolBar.ChangeCursor | src/components/Editor/components/ToolBar.tsx:18-29 | the cursor changes only when CursorChange accepts, so a non-default mode is entered only with one selected element |
| DomToolBar.ParseSize | src/components/Editor/components/ToolBar.tsx:37-42 | `Number(value.split('x')[i])`. Without an `x` there is no second number |
| DomToolBar.ParseSizeLabel | src/components/Editor/components/ToolBar.tsx:37-42 | parsing the select's label `${w}x${h}` gives the size back |
| DomToolBar.PrintedSizes | src/components/Editor/components/ToolBar.tsx:34-36 | 512 and 288 print as "512" and "288" |
| DomToolBar.SizeOptionsRoundTrip | src/components/Editor/components/ToolBar.tsx:33-42 | every option parses to a size whose label is the option itself |
| DomToolBar.OnSizeChange | src/components/Editor/components/ToolBar.tsx:37-42 | the viewport size becomes the parsed option, and its label is the chosen option |
| DomToolBar.ButtonsDisabled | src/components/Editor/components/ToolBar.tsx:43-52 | undo and redo are drawn disabled exactly when their stack is empty |
| DomMovable.ElementGuidelines | src/components/Editor/components/MovableManager.tsx:57-61 | the snap guidelines are the helper's known elements that are not selected, in the helper's order |
| DomMovable.Render | src/components/Editor/components/MovableManager.tsx:53-91 | Nothing is rendered without a selection. Otherwise the control is on the selection, draggable unless in pen mode, with a drag area for groups. Shift snaps rotation to 45° and keeps the ratio |
| DomMovable.FramesOf | src/components/Editor/components/MovableManager.tsx:109-113 | the id-to-frame map of a group has exactly the group's ids as keys, each mapped to its current frame |
| DomMovable.GestureData.constructor | src/components/Editor/components/MovableManager.tsx:95 | a gesture's data starts empty |
| DomMovable.CaptureFrames | src/components/Editor/components/MovableManager.tsx:109-112 | the loop over the targets builds FramesOf |
| DomMovable.OnDragStart | src/components/Editor/components/MovableManager.tsx:94-97 | the start of a drag remembers the element's frame |
| DomMovable.OnDrag | src/components/Editor/components/MovableManager.tsx:98 | the element's frame is replaced, and nothing is recorded |
| DomMovable.OnResize | src/components/Editor/components/MovableManager.tsx:130-142 | resize, scale, rotate and clip only replace the frame, and nothing is recorded |
| DomMovable.OnDragEnd | src/components/Editor/components/MovableManager.tsx:99-106 | exactly one `move` action is recorded, for this element, with the frames from before and after |
| DomMovable.OnDragGroupStart | src/components/Editor/components/MovableManager.tsx:107-115 | the start of a group drag remembers FramesOf the group |
| DomMovable.OnDragGroupEnd | src/components/Editor/components/MovableManager.tsx:117-129 | exactly one `move` action is recorded for the whole group, with its ids in target order |
| DomMovable.GroupMoveUndoRedo | src/components/Editor/components/MovableManager.tsx:107-129 | While every element of the group is in the document, undoing a recorded group move puts each back on its start frame, and redoing puts each on its end frame. Frames outside the live group are always untouched |
| KonvaEditor.Ids | src/components/KonvaEditor/hooks/useEditor.ts:106 | one id per layer, in order |
| KonvaEditor.NodeIds | src/components/KonvaEditor/hooks/useEditor.ts:186 | `nodes.map(node => node.id)`: one id per node, in order |
| KonvaEditor.FindNode | src/components/KonvaEditor/hooks/useEditor.ts:87 | `nodes.find`. It finds nothing exactly when no node has the id; otherwise it returns the FIRST node with that id |
| KonvaEditor.Merged | src/components/KonvaEditor/hooks/useEditor.ts:84-94 | `updateLayers` keeps the list's length and ids. A layer without a node is unchanged. A layer with a node takes the first such node's attributes, and keeps its own visibility unless the node carries one; each layer is updated by `MergeNode` |
| KonvaEditor.MergedIdempotent | src/components/KonvaEditor/hooks/useEditor.ts:84-94 | applying the same nodes twice is the same as applying them once |
| KonvaEditor.MergedUndo | src/components/KonvaEditor/hooks/useEditor.ts:84-94 | a snapshot of the touched layers, applied after a change to those ids only, gives back the layers exactly |
| KonvaEditor.SelectedLayer | src/components/KonvaEditor/hooks/useEditor.ts:21-25 | there is a selected layer exactly when one id is selected and a layer has it, and then it is that layer |
| KonvaEditor.SelectedLayers | src/components/KonvaEditor/hooks/useEditor.ts:26-29 | the layers whose ids are selected, in list order, and none when nothing is selected |
| KonvaEditor.WithLayerHistory | src/components/KonvaEditor/hooks/useEditor.ts:65-74 | `addLayerHistory` appends one entry holding the layer's id, name and first image. Earlier entries are kept |
| KonvaEditor.WithImage | src/components/KonvaEditor/hooks/useEditor.ts:75-82 | `addLayerHistoryImage` appends the image to every entry with that id and leaves the other entries unchanged |
| KonvaEditor.WithImageKeepsEntries | src/components/KonvaEditor/hooks/useEditor.ts:75-82 | Entries keep their order, ids and names. The matching ones grow by exactly one image, and earlier images are kept |
| KonvaEditor.AutoZoomScale | src/components/KonvaEditor/hooks/useEditor.ts:41-46 | the scale fits the viewport into 70% of the container on both axes, and is tight on at least one axis |
| KonvaEditor.Registrations | src/components/KonvaEditor/hooks/useEditor.ts:179-211 | The mount effect's table has exactly three kinds. `changeNode` applies preNodes / nextNodes. `undoCreateLayer` restores / removes. `createLayer` removes back to preSelectedIds / restores |
| KonvaEditor.StacksFitRecorded | src/components/KonvaEditor/hooks/useEditor.ts:179-211 | recording a well-formed action keeps every stacked action registered with a payload its handlers destructure |
| KonvaEditor.StacksFitMoved | src/components/KonvaEditor/hooks/useEditor.ts:179-211 | undoing and redoing keep every stacked action well-formed, and the action moved is itself well-formed |
| KonvaEditor.NodesApplied | src/components/KonvaEditor/hooks/useEditor.ts:183-191 | a changeNode replay keeps the layer ids, and the nodes' ids become the selection |
| KonvaEditor.Restored | src/components/KonvaEditor/hooks/useEditor.ts:96-103 | `restoreLayer` puts the layer at the splice position and makes it the only selection |
| KonvaEditor.RemovedSeeing | src/components/KonvaEditor/hooks/useEditor.ts:104-112 | `removeLayer`, as a closure that sees a given selection, leaves no layer with the id |
| KonvaEditor.Removed | src/components/KonvaEditor/hooks/useEditor.ts:104-112 | `removeLayer` reading the current selection leaves no layer with the id. With preSelectedIds, the selection becomes them. Without, the id leaves the selection and every other selected id stays |
| KonvaEditor.RemovedAsRegistered | src/components/KonvaEditor/hooks/useEditor.ts:104-112 | as written, the registered closure sees the empty selection of the first render, so without preSelectedIds the selection never changes |
| KonvaEditor.RemovedAsRegisteredKeepsDeadId | src/components/KonvaEditor/hooks/useEditor.ts:198-200 | counterexample: redoing the removal of a selected layer leaves the removed id selected, which Removed does not |
| KonvaEditor.Apply | src/components/KonvaEditor/hooks/useEditor.ts:181-210 | A changeNode handler keeps the list's ids and selects the ids of its nodes. Restoring puts the layer in and selects only it. Either removal leaves no layer with the id; the one registered for redo keeps the selection, the other selects preSelectedIds (or nothing) |
| KonvaEditor.ChangeNodeUndoRedo | src/components/KonvaEditor/hooks/useEditor.ts:181-192 | If preNodes snapshot every layer the change touched, undo puts the layers back and selects the pre ids. Redo after it gives the changed layers and selects the next ids |
| KonvaEditor.Appended | src/components/KonvaEditor/components/Menu.tsx:140-142 | the new layer goes at the end and becomes the only selection |
| KonvaEditor.CreateLayerUndoRedo | src/components/KonvaEditor/components/Menu.tsx:140-147 | For a recorded `createLayer` (index = old length, preSelectedIds = old selection), undo gives back the scene from before, and redo gives the scene after the creation |
| KonvaEditor.RemovedFromPanel | src/components/KonvaEditor/components/Menu.tsx:42-44 | the panel's remove leaves the id in neither the layers nor the selection |
| KonvaEditor.RemovedFromPanelLayers | src/components/KonvaEditor/components/Menu.tsx:42-44 | in a list with distinct ids, the panel's remove of the layer at i cuts out exactly slot i |
| KonvaEditor.RemoveLayerUndoRedo | src/components/KonvaEditor/components/Menu.tsx:42-49 | For a recorded `undoCreateLayer`, undo puts the layer back at its index and selects it. Redo with the handler as registered removes it again and, since that closure sees an empty selection, leaves the removed id selected |
| KonvaEditor.RemoveLayerRedoIntended | src/components/KonvaEditor/hooks/useEditor.ts:104-112 | the same round trip with a removal that reads the current selection: undo selects the layer, and redo removes it and leaves nothing selected |
| KonvaEditor.KEditor.constructor | src/components/KonvaEditor/hooks/useEditor.ts:15-63 | the hook's initial state: default cursor, no layers, selection or image history, zoom and stage scale 1, the stage at the origin, empty edit state, 512×512 viewport, container and stage; then the mount registrations |
| KonvaEditor.KEditor.RegisterHistoryTypes | src/components/KonvaEditor/hooks/useEditor.ts:179-211 | three registrations in order. On an empty table the result is Registrations |
| KonvaEditor.KEditor.UpdateLayers | src/components/KonvaEditor/hooks/useEditor.ts:84-94 | the layers become Merged, and every other state field is unchanged |
| KonvaEditor.KEditor.SetSelectedIds | src/components/KonvaEditor/hooks/useEditor.ts:20 | the selection becomes the ids, and every other state field is unchanged |
| KonvaEditor.KEditor.RestoreLayer | src/components/KonvaEditor/hooks/useEditor.ts:96-103 | the scene becomes Restored, and every other state field is unchanged |
| KonvaEditor.KEditor.RemoveLayer | src/components/KonvaEditor/hooks/useEditor.ts:104-112 | with the selection the closure sees as a parameter, the scene becomes RemovedSeeing, and every other state field is unchanged |
| KonvaEditor.KEditor.Dispatch | src/components/KonvaEditor/hooks/useEditor.ts:181-210 | running the fired handler, with the removal closures seeing what they saw at mount, gives Apply of the handler and payload; every other state field is unchanged |
| KonvaEditor.KEditor.Undo | src/components/KonvaEditor/hooks/useHistoryManager.ts:32-43 | It keeps the invariant. The stacks become Undone, and the scene becomes the registered undo handler applied to the top action's payload |
| KonvaEditor.KEditor.Redo | src/components/KonvaEditor/hooks/useHistoryManager.ts:45-56 | the mirror image of Undo |
| KonvaEditor.KEditor.Record | src/components/KonvaEditor/hooks/useHistoryManager.ts:23-26 | the stacks become Recorded, and the invariant is kept |
| KonvaEditor.KEditor.AddLayerHistory | src/components/KonvaEditor/hooks/useEditor.ts:65-74 | the image history becomes WithLayerHistory, and every other state field is unchanged |
| KonvaEditor.KEditor.AddLayerHistoryImage | src/components/KonvaEditor/hooks/useEditor.ts:75-82 | the image history becomes WithImage, and every other state field is unchanged |
| KonvaGeometry.CanvasPointer | src/components/KonvaEditor/utils/utils.ts:10-18 | `getCanvasPointer`: the canvas point that the stage's position and scale map back onto the pointer |
| KonvaGeometry.CanvasPointerRoundTrip | src/components/KonvaEditor/utils/utils.ts:10-18 | converting a canvas point to the screen and back gives the point |
| KonvaGeometry.CanvasRect | src/components/KonvaEditor/utils/utils.ts:32-43 | `getCanvasRect`: the canvas rect that the stage maps onto the client rect. A zero scale counts as 1 (`\|\| 1`) |
| KonvaGeometry.BoundsOf | src/components/KonvaEditor/utils/utils.ts:58-69 | the union box of the rects contains every rect |
| KonvaGeometry.BoundsTight | src/components/KonvaEditor/utils/utils.ts:58-69 | the box is the smallest one: each of its four edges is an edge of some rect |
| KonvaGeometry.BoundsSnoc | src/components/KonvaEditor/utils/utils.ts:63-69 | one more rect widens the box by that rect alone, which is what one loop step does |
| KonvaGeometry.IsPointInSelectionBox | src/components/KonvaEditor/utils/utils.ts:51-74 | false for no rects; otherwise true exactly when the point is in the union box, edges included |
| KonvaGeometry.PointOfRectInSelectionBox | src/components/KonvaEditor/utils/utils.ts:51-74 | a point of any one rect passes the hit test |
| KonvaGeometry.RectOverlapSymmetric | src/components/KonvaEditor/utils/utils.ts:76-83 | `isRectOverlap` does not depend on the order of its arguments (`RectOverlap`) |
| KonvaGeometry.TouchingRectsDoNotOverlap | src/components/KonvaEditor/utils/utils.ts:76-83 | rects that only share an edge do not overlap, because the comparisons are strict |
| KonvaGeometry.RectOverlapSelf | src/components/KonvaEditor/utils/utils.ts:76-83 | a rect overlaps itself exactly when its area is positive |
| KonvaGeometry.NewScalePointKeepsAnchor | src/components/KonvaEditor/utils/utils.ts:126-148 | `getNewScalePoint`: after the zoom, the anchor (by default the stage centre) is over the same canvas point as before (`NewScalePoint`) |
| KonvaGeometry.NewScalePointSameScale | src/components/KonvaEditor/utils/utils.ts:126-148 | zooming to the current scale leaves the stage where it is |
| KonvaGeometry.ExpandRect | src/components/KonvaEditor/utils/utils.ts:157-202 | `getExpandRect` gives the zero rect for a missing layer, a missing or zero ratio, or the original ratio with a missing or zero times value |
| KonvaGeometry.ExpandOriginal | src/components/KonvaEditor/utils/utils.ts:165-173 | with the original ratio, both sides are scaled by the times value around the layer's centre |
| KonvaGeometry.ExpandNumeric | src/components/KonvaEditor/utils/utils.ts:175-201 | With a positive ratio, the frame has exactly that ratio. It keeps one side of the layer, contains the whole layer box, and has the same centre |
| KonvaMenu.SingleNodeChange | src/components/KonvaEditor/components/Menu.tsx:105-116 | with unique ids, a one-node `changeNode` snapshot replaces exactly that layer, and the old snapshot puts it back |
| KonvaMenu.RemoveLayer | src/components/KonvaEditor/components/Menu.tsx:42-49 | `removeLayer`: the layer leaves the list and the selection, and one `undoCreateLayer` action is recorded with the layer and its old index |
| KonvaMenu.MovedUp | src/components/KonvaEditor/components/Menu.tsx:51-64 | `moveUpLayer`'s updater: a permutation that swaps the layer with the one before it; an unknown id or the first slot leaves the list as it was |
| KonvaMenu.MovedDown | src/components/KonvaEditor/components/Menu.tsx:66-79 | `moveDownLayer`'s updater: a permutation that swaps the layer with the one after it; the last slot leaves the list as it was |
| KonvaMenu.IdsSwap | src/components/KonvaEditor/components/Menu.tsx:55-59 | swapping two layers swaps their ids |
| KonvaMenu.SwapDistinct | src/components/KonvaEditor/components/Menu.tsx:55-59 | a swap keeps the ids distinct |
| KonvaMenu.MoveUpThenDown | src/components/KonvaEditor/components/Menu.tsx:51-79 | moving a layer up and then down restores the list |
| KonvaMenu.MoveDownThenUp | src/components/KonvaEditor/components/Menu.tsx:51-79 | moving a layer down and then up restores the list |
| KonvaMenu.PanelDisabledExactlyWhenNoOp | src/components/KonvaEditor/components/Menu.tsx:362-371 | a row's "up" entry is disabled exactly when its action (`moveDownLayer`) would change nothing, and "down" exactly when `moveUpLayer` would change nothing; a layer's row is `PanelRow` |
| KonvaMenu.ReverseDistinct | src/components/KonvaEditor/components/Menu.tsx:342 | the reversed panel list keeps the ids distinct |
| KonvaMenu.PanelUpMovesRowUp | src/components/KonvaEditor/components/Menu.tsx:172-182 | "up" runs `moveDownLayer`, which moves the row one place up in the reversed panel |
| KonvaMenu.ReversedIndex | src/components/KonvaEditor/components/Menu.tsx:342 | a layer's panel row is its mirrored index |
| KonvaMenu.PanelDownMovesRowDown | src/components/KonvaEditor/components/Menu.tsx:172-182 | "down" runs `moveUpLayer`, which moves the row one place down in the reversed panel |
| KonvaMenu.SwappedCopy | src/components/KonvaEditor/components/Menu.tsx:55-60 | the copied array with the two slots exchanged is the swapped list |
| KonvaMenu.MoveUpLayer | src/components/KonvaEditor/components/Menu.tsx:51-64 | `moveUpLayer` sets the layers to `MovedUp` and changes nothing else |
| KonvaMenu.MoveDownLayer | src/components/KonvaEditor/components/Menu.tsx:66-79 | `moveDownLayer` sets the layers to `MovedDown` and changes nothing else |
| KonvaMenu.Fitted | src/components/KonvaEditor/components/Menu.tsx:84-103 | the fitted layer has scale 1 and rotation 0. It sits at the viewport's corner with the viewport's size and shows the whole cached image; a missing image counts as size 0 (`ImageSizeOr0`) |
| KonvaMenu.FittedIdempotent | src/components/KonvaEditor/components/Menu.tsx:84-103 | fitting twice is fitting once |
| KonvaMenu.FitAll | src/components/KonvaEditor/components/Menu.tsx:83-104 | every layer with the id is fitted; the others and the id order stay |
| KonvaMenu.FitRecordedAsWritten | src/components/KonvaEditor/components/Menu.tsx:105-116 | the `nextNodes` as written sets only scale and position, so the width and rotation stay the old ones |
| KonvaMenu.FitRedoAsWrittenDiffers | src/components/KonvaEditor/components/Menu.tsx:105-116 | redoing a fit with that snapshot does not give the fitted list (a width 100 stays 100 instead of 512) |
| KonvaMenu.FitAllOne | src/components/KonvaEditor/components/Menu.tsx:83-104 | with unique ids, fitting the layer at i replaces only slot i |
| KonvaMenu.FitUndoRedo | src/components/KonvaEditor/components/Menu.tsx:81-117 | with the fitted layer as the snapshot, undo gives the list back and redo the fitted list |
| KonvaMenu.FitRecordedUndoRedo | src/components/KonvaEditor/components/Menu.tsx:105-116 | with the snapshot as written, undo still gives the list back, but redo gives the layer only the recorded scale and position |
| KonvaMenu.FitLayer | src/components/KonvaEditor/components/Menu.tsx:81-117 | `fitLayer` fits the layer, changes nothing else in the state, and records one `changeNode` from the layer to the snapshot as written (FitRecordedAsWritten) |
| KonvaMenu.WithImageSource | src/components/KonvaEditor/components/Menu.tsx:157-163 | the new source is shown, the crop is rescaled by the ratio of the new image's size to the old one's, and position and size stay |
| KonvaMenu.WithImageSourceBack | src/components/KonvaEditor/components/Menu.tsx:152-170 | switching to an image and back restores the layer |
| KonvaMenu.ImageChangeRecordedAsWritten | src/components/KonvaEditor/components/Menu.tsx:166-169 | the `nextNodes` as written changes only `imgSrc` and keeps the old crop |
| KonvaMenu.ImageChangeRedoAsWrittenDiffers | src/components/KonvaEditor/components/Menu.tsx:152-170 | redoing an image change with that snapshot keeps the old crop (100 instead of 200) |
| KonvaMenu.ImageChangedAll | src/components/KonvaEditor/components/Menu.tsx:155-165 | every layer with the id shows the new image; the others and the id order stay |
| KonvaMenu.ImageChangeUndoRedo | src/components/KonvaEditor/components/Menu.tsx:152-170 | with the changed layer as the snapshot, undo gives the list back and redo the changed list |
| KonvaMenu.ImageChangeRecordedUndoRedo | src/components/KonvaEditor/components/Menu.tsx:166-169 | with the snapshot as written, undo still gives the list back, but redo gives the layer the new source with the old crop |
| KonvaMenu.OnLayerImageChange | src/components/KonvaEditor/components/Menu.tsx:152-170 | `onLayerImageChange` changes the layer's image, changes nothing else in the state, and records one `changeNode` from the layer to the snapshot as written (ImageChangeRecordedAsWritten) |
| KonvaMenu.AddHistoryImage | src/components/KonvaEditor/components/Menu.tsx:313-320 | with a selection, the first selected layer's history gains the image; without one nothing changes |
| KonvaMenu.NewLayer | src/components/KonvaEditor/components/Menu.tsx:122-139 | the uploaded layer is visible and named "图层 n+1". It sits at the viewport's corner with the viewport's size and crops the whole image |
| KonvaMenu.OnLayerAdd | src/components/KonvaEditor/components/Menu.tsx:119-150 | "upload" appends the new layer, adds its history and selects it alone, and records `createLayer` with its index and the previous selection; any other key does nothing |
| KonvaMenu.PanelSelection | src/components/KonvaEditor/components/Menu.tsx:184-194 | without shift the id is selected alone; with shift it is toggled and every other member stays |
| KonvaMenu.PanelSelectionToggleTwice | src/components/KonvaEditor/components/Menu.tsx:184-194 | shift-clicking the same row twice restores the selection's members |
| KonvaMenu.OnLayerSelect | src/components/KonvaEditor/components/Menu.tsx:184-194 | `onLayerSelect` sets the selection to `PanelSelection` and changes nothing else |
| KonvaMenu.Flipped | src/components/KonvaEditor/components/Menu.tsx:201 | only `visible` changes, and it is negated |
| KonvaMenu.ToggledAll | src/components/KonvaEditor/components/Menu.tsx:199-203 | every layer with the id flips its visibility; the others and the id order stay |
| KonvaMenu.ToggledTwice | src/components/KonvaEditor/components/Menu.tsx:196-208 | toggling twice gives the list back |
| KonvaMenu.ToggleUndoRedo | src/components/KonvaEditor/components/Menu.tsx:204-207 | the recorded pre and next nodes undo and redo the toggle exactly |
| KonvaMenu.OnLayerToggleVisibility | src/components/KonvaEditor/components/Menu.tsx:196-208 | an unknown id changes nothing; otherwise the layer flips and one `changeNode` is recorded |
| KonvaMenu.OnLayerAction | src/components/KonvaEditor/components/Menu.tsx:172-182 | "delete" removes the layer and records `undoCreateLayer`; "up" moves it down the list and "down" up, recording nothing; "fit" fits it and records the snapshot as written; any other key changes nothing. Each leaves the rest of the state as it was |
| KonvaMenu.ExportPlan | src/components/KonvaEditor/components/Menu.tsx:210-226 | canvas export always proceeds. Selected-layer export fails exactly when nothing is selected ("没有选中图层"), all-layer export exactly when there are no layers ("没有图层") |
| KonvaToolBar.ZoomChoice | src/components/KonvaEditor/components/ToolBar.tsx:49-58 | The zoom stays unless the node box at 2.333 times (TooBig) overflows the stage. Then it is at least ZOOM_SCALE_MIN. Above the minimum the box takes exactly 40% of the stage along one side and at most 40% along the other; at the minimum the box already takes at least 40% along some side |
| KonvaToolBar.ZoomChoiceSettles | src/components/KonvaEditor/components/ToolBar.tsx:49-58 | at the chosen zoom the box no longer overflows (unless held at ZOOM_SCALE_MIN), and choosing again keeps that zoom |
| KonvaToolBar.FocusCentresBox | src/components/KonvaEditor/components/ToolBar.tsx:61-69 | at the new scale the stage position puts the node's box in the stage's centre (`FocusPoint`) |
| KonvaToolBar.OnChangeCursor | src/components/KonvaEditor/components/ToolBar.tsx:42-99 | pen and expand with no transformer node change nothing. With a node they set the chosen zoom and the centred position, reset the mode's settings (original ratio and 1.5 times, or brush, width 5 and no lines) and set the cursor. Default and select set only the cursor |
| KonvaToolBar.OnChangeZoomScale | src/components/KonvaEditor/components/ToolBar.tsx:101-117 | the zoom and the stage scale take the option, and the stage centre stays over the same canvas point |
| KonvaToolBar.UndoClick | src/components/KonvaEditor/components/ToolBar.tsx:268-278 | with an empty undo stack nothing changes; otherwise the top action is undone through its registered handler |
| KonvaToolBar.RedoClick | src/components/KonvaEditor/components/ToolBar.tsx:279-289 | with an empty redo stack nothing changes; otherwise the top action is redone through its registered handler |
| KonvaToolBar.View | src/components/KonvaEditor/components/ToolBar.tsx:268-316 | undo and redo are drawn disabled exactly when their stack is empty; the expand button is shown exactly when one id is selected |
| KonvaToolBar.WithExpandTimes | src/components/KonvaEditor/components/ToolBar.tsx:330-337 | a times option sets all three times values to it and leaves the other settings alone |
| KonvaToolBar.WithExpandRatio | src/components/KonvaEditor/components/ToolBar.tsx:347-352 | a ratio entry sets the ratio and its label and leaves the other settings alone |
| KonvaToolBar.RatioLabelsDistinct | src/components/KonvaEditor/utils/const.ts:19-29 | the ratio labels are distinct, so exactly one entry is drawn selected |
| KonvaToolBar.OnExpandTimes | src/components/KonvaEditor/components/ToolBar.tsx:330-337 | the settings become `WithExpandTimes` of the old ones, and the scene, cursor and zoom stay |
| KonvaToolBar.OnExpandRatio | src/components/KonvaEditor/components/ToolBar.tsx:340-357 | the settings become `WithExpandRatio` of the old ones, and the scene, cursor and zoom stay |
| KonvaToolBar.OnTool | src/components/KonvaEditor/components/ToolBar.tsx:365-390 | the brush and eraser buttons set only the tool |
| KonvaToolBar.OnPenWidth | src/components/KonvaEditor/components/ToolBar.tsx:391-402 | the slider (1 to 30) sets only the pen width |
| KonvaToolBar.Masked | src/components/KonvaEditor/components/ToolBar.tsx:217-229 | a pixel's alpha is 255 exactly when the brush's red value is above 127 and the eraser's is not, and 0 otherwise; red, green and blue are kept |
| KonvaToolBar.MaskedIdempotent | src/components/KonvaEditor/components/ToolBar.tsx:217-229 | running the mask pass twice is running it once |
| KonvaToolBar.ApplyMask | src/components/KonvaEditor/components/ToolBar.tsx:217-229 | the in-place loop leaves the buffer equal to `Masked` of the old buffer |
| KonvaToolBar.CropRectSize | src/components/KonvaEditor/components/ToolBar.tsx:235-236 | the cut-out's size is the crop's share of the image times the layer's size, each rounded to within half a pixel |
| KonvaToolBar.CropRectSizeWholeImage | src/components/KonvaEditor/components/ToolBar.tsx:235-236 | a whole-image crop on a layer drawn at the image's size cuts out the whole image |
| KonvaLayerImage.OrElse | src/components/KonvaEditor/components/LayerImage.tsx:80-81 | `v \|\| d` on a number: a zero side falls back to the image's side |
| KonvaLayerImage.LayerImageState.constructor | src/components/KonvaEditor/components/LayerImage.tsx:29-42 | the local size, yardstick and crop start from the layer's attributes, with no stroke in progress |
| KonvaLayerImage.LayerImageState.Sync | src/components/KonvaEditor/components/LayerImage.tsx:244-253 | when the layer changes, the size, crop and yardstick are read from it again and written onto the shape |
| KonvaLayerImage.LayerImageState.HandleTransform | src/components/KonvaEditor/components/LayerImage.tsx:46-153 | the new size is each scaled side clamped into [20, 1024]. A corner keeps the crop and rescales the yardstick; an edge ends on the crop and yardstick `EdgeResized` describes; the shape's `imgWidth`/`imgHeight` follow the yardstick when it changes |
| KonvaLayerImage.CornerYard | src/components/KonvaEditor/components/LayerImage.tsx:60-73 | a corner drag scales each side of the yardstick by the change of the drawn size along it |
| KonvaLayerImage.EdgeResize | src/components/KonvaEditor/components/LayerImage.tsx:74-147 | the edge branch's sequence of local updates ends on `EdgeCrop` |
| KonvaLayerImage.WidthStep | src/components/KonvaEditor/components/LayerImage.tsx:85-109 | the width half of the edge branch, step by step, ends on `WidthHalf`; its ensures is the partner of that function |
| KonvaLayerImage.HeightStep | src/components/KonvaEditor/components/LayerImage.tsx:111-135 | the height half of the edge branch, step by step, ends on `HeightHalf`; its ensures is the partner of that function |
| KonvaLayerImage.EdgeCropGrown | src/components/KonvaEditor/components/LayerImage.tsx:86-95 | a width grown past the yardstick crops the image's full width at the shape's aspect with cropX = 0, and a grown height the full height with cropY = 0 (the height winning when both grow); with nothing grown the yardstick stays |
| KonvaLayerImage.EdgeCropShrunkX | src/components/KonvaEditor/components/LayerImage.tsx:96-109 | a width shrunk on the left keeps the crop's right edge; on the right a crop overflowing the image is shifted to end at the image's edge; both before the clamp at zero |
| KonvaLayerImage.EdgeCropShrunkY | src/components/KonvaEditor/components/LayerImage.tsx:122-135 | the vertical mirror image: the top edge keeps the crop's bottom, the bottom edge shifts an overflowing crop back inside the image |
| KonvaLayerImage.EdgeCropResized | src/components/KonvaEditor/components/LayerImage.tsx:74-147 | every edge resize keeps all of these promises, and the crop's origin is never negative (`EdgeCrop`) |
| KonvaLayerImage.GrownCropKeepsAspect | src/components/KonvaEditor/components/LayerImage.tsx:86-95 | a grown side's crop has exactly the shape's aspect ratio, and the new yardstick has the image's own aspect ratio |
| KonvaLayerImage.ClickSelection | src/components/KonvaEditor/components/LayerImage.tsx:155-170 | shift toggles the id and keeps every other member. A plain click on a member of a selection of several keeps it; otherwise it selects the id alone |
| KonvaLayerImage.ClickSelectionMatchesPanel | src/components/KonvaEditor/components/LayerImage.tsx:155-170 | except when keeping a multi-selection, a click on the canvas selects as a click in the panel does |
| KonvaLayerImage.HandleDragStart | src/components/KonvaEditor/components/LayerImage.tsx:172-182 | a drag touches the selection only within a multi-selection, and then selects as a click; nothing else in the editor's state changes |
| KonvaLayerImage.StartLine | src/components/KonvaEditor/components/LayerImage.tsx:189-192 | mouse-down in pen mode appends one line with the current tool, the width and the one point, and changes no other setting |
| KonvaLayerImage.ExtendLine | src/components/KonvaEditor/components/LayerImage.tsx:212-225 | a move appends the point to the last line only; the others and the other settings stay |
| KonvaLayerImage.Flat | src/components/KonvaEditor/components/LayerImage.tsx:191 | the flat x, y list of a run of points has two entries per point |
| KonvaLayerImage.Stroke | src/components/KonvaEditor/components/LayerImage.tsx:184-228 | a stroke leaves at least one line |
| KonvaLayerImage.StrokeLines | src/components/KonvaEditor/components/LayerImage.tsx:184-228 | a whole stroke adds exactly one line after the earlier ones. The line holds all the points in order, with the tool and width current at its start; no other setting changes |
| KonvaLayerImage.HandleMouseDown | src/components/KonvaEditor/components/LayerImage.tsx:184-205 | in pen mode a stroke starts at the pointer's canvas position and only the edit state changes; otherwise, outside a multi-selection, the click selects and only the selection changes. The shape's size, crop and yardstick stay |
| KonvaLayerImage.HandleMouseMove | src/components/KonvaEditor/components/LayerImage.tsx:207-228 | while a pen stroke is in progress the pointer's canvas position extends the last line and nothing else changes; otherwise nothing changes at all |
| KonvaLayerImage.HandleMouseUp | src/components/KonvaEditor/components/LayerImage.tsx:230-242 | mouse-up and mouse-leave in pen mode end the stroke, and do nothing otherwise; the editor's state and the shape stay |
| KonvaViewport.GridSize | src/components/KonvaEditor/components/Viewport.tsx:12-16 | as written, the cell size is only ever 8, 12 or 18 |
| KonvaViewport.GridSizeAtMinimumZoom | src/components/KonvaEditor/components/Viewport.tsx:13-16 | at the smallest zoom (0.5) the cell size as written is 18, drawn 9 pixels wide |
| KonvaViewport.GridSizeIntended | src/components/KonvaEditor/components/Viewport.tsx:13-16 | with the 36 band reachable, a zoom below 0.6 gets 36, and over the whole zoom range a cell is drawn between 10.8 and 21.6 pixels wide |
| KonvaViewport.GridSizeIntendedAntitone | src/components/KonvaEditor/components/Viewport.tsx:13-16 | zooming in never makes the cells larger |
| KonvaViewport.GridSizesAgree | src/components/KonvaEditor/components/Viewport.tsx:13-16 | the two cell sizes agree exactly when the zoom is at least 0.6 |
| KonvaViewport.StepsBound | src/components/KonvaEditor/components/Viewport.tsx:21-22 | offset k·g is below the extent exactly when k is one of the loop's `Steps` rows or columns |
| KonvaViewport.ScaledLess | src/components/KonvaEditor/components/Viewport.tsx:21-22 | multiplying by a positive cell size keeps the order of two offsets |
| KonvaViewport.CheckerAlternates | src/components/KonvaEditor/components/Viewport.tsx:23 | cells that share a side have different colours (`CellAt`) |
| KonvaViewport.RenderBackgroundGrid | src/components/KonvaEditor/components/Viewport.tsx:12-34 | with cells of `GridSize(zoom)` as written, the nested loops produce one row per cell offset below the height and one cell per offset below the width. Each cell sits at its column and row times the cell size and is dark exactly when row + column is even |
| KonvaViewport.GridRow | src/components/KonvaEditor/components/Viewport.tsx:22-31 | the inner loop's row holds the cells of that row in column order |
| KonvaViewport.BoxHits | src/components/KonvaEditor/components/Viewport.tsx:132-144 | the ids picked by the box are at most one per layer |
| KonvaViewport.BoxHitsMembers | src/components/KonvaEditor/components/Viewport.tsx:132-144 | an id is picked exactly when a layer with that id is visible, on the stage and overlaps the box (`Hit`) |
| KonvaViewport.BoxHitsWithoutSelection | src/components/KonvaEditor/components/Viewport.tsx:134-137 | without the selection rectangle on the stage nothing is picked |
| KonvaViewport.BoxSelect.constructor | src/components/KonvaEditor/components/Viewport.tsx:59-66 | the box starts hidden at the origin with zero size, and no box selection is running |
| KonvaViewport.HandleStageMouseDown | src/components/KonvaEditor/components/Viewport.tsx:71-101 | with exactly one id selected, a press on the stage inside the node's box starts a drag. Otherwise a press on the empty stage clears the selection and starts a visible zero-size box at the pointer; any other press changes nothing. No other editor field changes |
| KonvaViewport.HandleStageMouseMove | src/components/KonvaEditor/components/Viewport.tsx:103-114 | while box-selecting, the box keeps its anchor and stretches to the pointer's canvas position |
| KonvaViewport.HandleStageMouseUp | src/components/KonvaEditor/components/Viewport.tsx:116-147 | the box is hidden and selecting stops. A box with a zero side keeps the selection; any other box selects exactly `BoxHits`, in layer order. No other editor field changes |
| KonvaViewport.HandleStageMouseLeave | src/components/KonvaEditor/components/Viewport.tsx:149-153 | box selection stops and the box is hidden; the selection stays |
| KonvaViewport.Round2 | src/components/KonvaEditor/components/Viewport.tsx:221 | rounding to hundredths moves the value by at most half a hundredth and keeps it in the zoom range |
| KonvaViewport.ZoomedScale | src/components/KonvaEditor/components/Viewport.tsx:219-221 | the new zoom is always in [ZOOM_SCALE_MIN, ZOOM_SCALE_MAX]; wheeling down never raises it and wheeling up never lowers it, up to the rounding |
| KonvaViewport.HandleZoom | src/components/KonvaEditor/components/Viewport.tsx:214-229 | without a pointer nothing changes. Otherwise zoom and stage scale become `ZoomedScale`, the stage moves to `NewScalePoint` so the canvas point under the pointer stays under it, and no other editor field changes |
| KonvaViewport.PanAxis | src/components/KonvaEditor/components/Viewport.tsx:243-250 | the clamp never goes below the minimum, nor above the maximum when the bounds are ordered, and leaves a value inside them alone |
| KonvaViewport.PannedKeepsViewportReachable | src/components/KonvaEditor/components/Viewport.tsx:236-251 | after a pan the viewport still touches the stage on both axes (`Panned`, with the bounds `PanMin` and `PanMax`) |
| KonvaViewport.PannedFreely | src/components/KonvaEditor/components/Viewport.tsx:236-251 | a pan that stays within the bounds moves the stage by exactly the deltas times PAN_STEP |
| KonvaViewport.HandlePan | src/components/KonvaEditor/components/Viewport.tsx:231-254 | the stage moves to `Panned` and nothing else changes |
| KonvaViewport.PanPosition | src/components/KonvaEditor/components/Viewport.tsx:232-251 | the bounds and the clamped position computed step by step are `Panned` |
| KonvaViewport.HandleWheel | src/components/KonvaEditor/components/Viewport.tsx:257-272 | outside the default cursor the wheel changes nothing; with ctrl it is HandleZoom, otherwise HandlePan, each stated as the whole new state |
| KonvaTransformer.Transformer.constructor | src/components/KonvaEditor/components/Transformer.tsx:18 | the transformer starts with no nodes, shown, and with no snapshot |
| KonvaTransformer.Transformer.ShowForCursor | src/components/KonvaEditor/components/Transformer.tsx:69-75 | the transformer is hidden exactly when the cursor is expand or pen, and nothing else changes |
| KonvaTransformer.Transformer.SyncNodes | src/components/KonvaEditor/components/Transformer.tsx:39-47 | the nodes become `SelectedNodes` of the selection, and nothing else changes |
| KonvaTransformer.SelectedNodes | src/components/KonvaEditor/components/Transformer.tsx:41-43 | the nodes' ids are the selected ids that have a shape on the stage, in selection order, and each node is that id's shape |
| KonvaTransformer.SelectedNodesMembers | src/components/KonvaEditor/components/Transformer.tsx:41-43 | an id is held exactly when it is selected and found on the stage |
| KonvaTransformer.HandleTransformStart | src/components/KonvaEditor/components/Transformer.tsx:20-25 | without nodes nothing changes. Otherwise the nodes' attributes are snapshotted and written into the layers (`Merged`), and no other editor field changes |
| KonvaTransformer.HandleTransformEnd | src/components/KonvaEditor/components/Transformer.tsx:27-36 | without nodes nothing changes. Otherwise exactly one `changeNode` is recorded from the snapshot to the current attributes (even when nothing moved), the snapshot is cleared, the layers take the attributes, and no other editor field changes |
| KonvaTransformer.Gesture | src/components/KonvaEditor/components/Transformer.tsx:20-36 | a whole drag or transform gesture (both events run these handlers) records one `changeNode` from the nodes before to the nodes after and changes only the layers; applying the before snapshot gives back the layers |
| KonvaTransformer.MergedSnapshotUnchanged | src/components/KonvaEditor/components/Transformer.tsx:23-24 | writing back a snapshot taken from the layers changes nothing |

## Left out

- Input and output are not modelled: file upload and the file picker, image loading and its cache, ZIP and PNG export (`toDataURL`, `toBlob`, `saveAs`), the download links, and the canvas toolbar's expand export (`onExpand`). Their results (a fresh id, an image's URL and natural size) come in as parameters.
- Drawing is not modelled: the canvas 2D calls that paint the grid and strokes, `drawImage`, `getImageData`, and the DOM rasterisation. The cut-out is modelled only as its mask loop over a byte buffer and the size of its crop rectangle.
- Konva and Moveable objects are not modelled. A node's attributes are a `Node` value and a Moveable frame is a `map<string, string>`. Stage lookups (`findOne`, `transformer.nodes()`, `getTargets`) and client rects (`getClientRect`) are maps or parameters given to each handler. The DOM editor's `utils.ts`, which holds `getTargets`, is not part of this model.
- Only a Konva tween's final state is modelled: the stage ends on the tween's scale and position, and nothing in between is.
- `requestAnimationFrame`, promises, `focusCenter`, the `ResizeObserver` container measurement and React's render scheduling are left out. Each state setter is an assignment made at once, in source order. Since the container is never measured, KEditor.containerSize and KEditor.stageSize keep their initial 512×512.
- Keyboard state (`KeyManager.shiftKey`, the wheel's `ctrlKey`) is a boolean parameter.
- Numbers are exact reals rather than doubles. `toFixed(4)` on the resized sides is not modelled, and neither is the accumulation of floating-point error in the grid loop's offsets. `Math.round` rounds halves up on exact values.
- KonvaViewport.Round2: models `Number(v.toFixed(2))` as rounding to hundredths with halves rounded up on the exact value. Binary doubles can round differently at a half.
- Numeric.JsNumber: is defined on strings of decimal digits only, which is all the size options hold. `Number` on other strings (empty, signs, exponents, spaces) is not modelled.
- DomToolBar.ParseSize: is stated for the "WxH" option strings of digits that the select offers.
- The canvas toolbar's viewport-size select (`ToolBar.tsx:258-266`) parses the same "WxH" strings as the DOM toolbar's. It is covered only by `DomToolBar.ParseSize` and is not modelled again for the canvas editor. KonvaEditor.KEditor.viewportSize is therefore a constant of the model, 512×512.
- The DOM editor's `Viewport.tsx`, `MoveableData.ts`, `useDomImage.ts` and `exportViewport` are not part of this model.
- HookHistory.HookHistoryManager.Undo: requires a non-empty undo stack. The hook reads the top entry before any check, and its callers (the toolbar buttons) only call it when `hasUndo` holds. The same goes for HookHistory.HookHistoryManager.Redo and the redo stack.
- KonvaEditor.KEditor.Undo: requires a non-empty undo stack, for the same reason. The same goes for KonvaEditor.KEditor.Redo.
- KonvaEditor.KEditor.Valid: asks for a positive zoom and stage scale. Every path that sets them keeps them at or above the minimum zoom; the initial value is 1.
- KonvaGeometry.CanvasPointer: requires a positive stage scale. With a zero scale the source divides by zero, and that state is never reached.
- KonvaMenu.MovedDown: requires the id to be listed. For an absent id the source computes index -1, which passes its `index < length - 1` test and would write into slot -1 and slot 0. The panel only offers the action for a listed layer. The same holds for KonvaMenu.MoveDownLayer.
- KonvaMenu.RemoveLayer: requires the id to be listed. For an absent id the source would record an action with an undefined layer and index -1. The same holds for KonvaMenu.FitLayer, KonvaMenu.OnLayerImageChange and KonvaMenu.OnLayerAction.
- KonvaMenu.WithImageSource: requires the old image to have non-zero sides. A loaded image has positive sides; with a zero side the source's division gives Infinity or NaN.
- KonvaMenu.OnLayerAdd: requires the new id to be fresh. The source draws it from `uuidv4`.
- KonvaToolBar.ZoomChoice: requires non-negative sides of the node box and the stage, which client rects and stage sizes always have. A zero box side is modelled as JavaScript's +Infinity quotient dropping out of `Math.min`.
- KonvaToolBar.CropRectSize: requires a loaded image with positive sides. The source returns early when the image is missing.
- KonvaLayerImage.LayerImageState.HandleTransform: requires positive sizes for the shape, the yardstick and the image. A layer is created with the viewport's positive size and a loaded image.
- KonvaLayerImage.HandleMouseMove: requires a stroke in progress to have a last line. The source reads `lines[lines.length - 1]` without a check, and mouse-down always creates that line first.
- KonvaLayerImage.ExtendLine: returns a new list. The source appends the point to the last line object in place and shares that object with the previous state; the aliasing is not modelled.
- KonvaTransformer.HandleTransformEnd: requires the start snapshot whenever there are nodes. A gesture's end event always follows its start event.
- KonvaMenu.NewLayer: has no rotation field, so a new layer's rotation is 0, as the canvas draws a missing rotation.
- History.HistoryManager.Undo: replaying an action of an unregistered kind is modelled as an `Unregistered` outcome. The stack has already been popped, and the source's call of an undefined handler would throw at that point.

## Findings

| source | as written | input that shows it | evidently intended | confidence | as-written member | corrected member |
|---|---|---|---|---|---|---|
| src/components/Editor/hooks/useEditor.ts:71-90 | `undoMove` and `redoMove` give the k-th live target the frame recorded for `ids[k]`, the k-th listed id; the editor's methods follow this pairing | a group move of ids [a, b], then a is removed, then undo: b gets a's frame | each target gets the frame recorded under its own id | high, not executed | DomEditor.PairedFramesMisassign | DomEditor.UndoRedoMoveRestores |
| src/components/KonvaEditor/hooks/useEditor.ts:104-112 | the `undoCreateLayer` redo handler, registered once at mount (lines 193-201, effect with no dependencies), calls a `removeLayer` that reads the selection of the first render, which is empty | remove layer a in the panel, then undo (a comes back and is selected), then redo: a is removed again but stays selected | the handler sees the current selection and drops the removed id from it | high, not executed | KonvaEditor.RemovedAsRegisteredKeepsDeadId | KonvaEditor.RemoveLayerRedoIntended |
| src/components/KonvaEditor/components/Menu.tsx:105-116 | `fitLayer` records a `nextNodes` that sets only scale and position | fit a layer 100 wide into a 512-wide viewport, undo, then redo: the layer comes back 100 wide | the recorded snapshot is the fitted layer, so redo repeats the fit | high, not executed | KonvaMenu.FitRedoAsWrittenDiffers | KonvaMenu.FitUndoRedo |
| src/components/KonvaEditor/components/Menu.tsx:166-169 | `onLayerImageChange` records a `nextNodes` that changes only `imgSrc` | switch a 100-wide crop of a 100-wide image to a 200-wide image, undo, then redo: the crop comes back 100 wide instead of 200 | the recorded snapshot carries the rescaled crop | high, not executed | KonvaMenu.ImageChangeRedoAsWrittenDiffers | KonvaMenu.ImageChangeUndoRedo |
| src/components/KonvaEditor/components/Viewport.tsx:13-16 | the `zoomScale < 0.6` test comes after the `zoomScale < 1` test, so cell size 36 is never chosen | zoom 0.5: cell size 18, drawn 9 pixels wide | below zoom 0.6 the cells are 36, so every cell is drawn between 10.8 and 21.6 pixels wide | medium, not executed | KonvaViewport.GridSizesAgree | KonvaViewport.GridSizeIntended |
