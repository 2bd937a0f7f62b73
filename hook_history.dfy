/**
 * The React-state undo/redo manager of the canvas editor.  Same API and same stack discipline as
 * the DOM editor's manager, but undo and redo read the top of the stack BEFORE any emptiness check
 * and look its handler up before touching either stack.  Each state setter runs as an ordinary
 * assignment, in the order the source issues it.
 */
module HookHistory {
  import opened Common
  import opened History

  class HookHistoryManager<P, H> {
    var undoStack: seq<Action<P>>
    var redoStack: seq<Action<P>>
    /** The handler table, kept in a ref and written in place. */
    var types: map<string, HandlerPair<H>>

    function State(): Stacks<P>
      reads this
    {
      Stacks(undoStack, redoStack)
    }

    constructor ()
      ensures undoStack == [] && redoStack == [] && types == map[]
    {
      undoStack, redoStack, types := [], [], map[];
    }

    /** Append `{type, props}` to the undo stack and reset the redo stack to empty. */
    method AddAction(kind: string, props: P)
      modifies this
      ensures State() == Recorded(old(State()), Action(kind, props))
      ensures types == old(types)
    {
      undoStack := undoStack + [Action(kind, props)];
      redoStack := [];
    }

    /** Store the handler pair under `kind`, replacing any earlier pair. */
    method RegisterType(kind: string, undo: H, redo: H)
      modifies this
      ensures types == old(types)[kind := HandlerPair(undo, redo)]
      ensures State() == old(State())
    {
      types := types[kind := HandlerPair(undo, redo)];
    }

    /**
     * Read the last undo entry, fire its undo handler, then drop it from the undo stack and append
     * it to the redo stack.  The top is dereferenced before anything checks for emptiness, so the
     * stack must be non-empty; the toolbar only calls this when HasUndo holds.  An unregistered kind
     * throws at the lookup, before either stack is set.
     */
    method Undo() returns (r: Replay<P, H>)
      requires undoStack != []
      modifies this
      ensures types == old(types)
      ensures Top(old(undoStack)).kind in types ==>
                r == Fired(types[Top(old(undoStack)).kind].undo, Top(old(undoStack)).props) &&
                State() == Undone(old(State()))
      ensures Top(old(undoStack)).kind !in types ==>
                r == Unregistered(Top(old(undoStack)).kind) && State() == old(State())
      ensures !r.Nothing?
    {
      var undoAction := Top(undoStack);
      if undoAction.kind !in types {
        return Unregistered(undoAction.kind);
      }
      r := Fired(types[undoAction.kind].undo, undoAction.props);
      // the setter's own `prev.length === 0` branch cannot be taken here
      undoStack := Popped(undoStack);
      redoStack := redoStack + [undoAction];
    }

    /** The mirror image of Undo, with the same non-empty precondition on the redo stack. */
    method Redo() returns (r: Replay<P, H>)
      requires redoStack != []
      modifies this
      ensures types == old(types)
      ensures Top(old(redoStack)).kind in types ==>
                r == Fired(types[Top(old(redoStack)).kind].redo, Top(old(redoStack)).props) &&
                State() == Redone(old(State()))
      ensures Top(old(redoStack)).kind !in types ==>
                r == Unregistered(Top(old(redoStack)).kind) && State() == old(State())
      ensures !r.Nothing?
    {
      var redoAction := Top(redoStack);
      if redoAction.kind !in types {
        return Unregistered(redoAction.kind);
      }
      r := Fired(types[redoAction.kind].redo, redoAction.props);
      redoStack := Popped(redoStack);
      undoStack := undoStack + [redoAction];
    }

    /** `undoStack.length > 0` for the current state. */
    function HasUndo(): (b: bool)
      reads this
      ensures b <==> undoStack != []
    {
      |undoStack| > 0
    }

    /** `redoStack.length > 0` for the current state. */
    function HasRedo(): (b: bool)
      reads this
      ensures b <==> redoStack != []
    {
      |redoStack| > 0
    }
  }
}
