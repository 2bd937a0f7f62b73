/**
 * The module-level undo/redo manager of the DOM editor: two stacks of recorded actions and a table
 * from action kind to its pair of (undo, redo) handlers.
 *
 * Handlers are callbacks in the editor.  Here a handler is an opaque value `H`; undo and redo RETURN
 * the handler they fire together with the action's props, and the editor applies it.
 */
module History {
  import opened Common

  /** One recorded command: its kind (e.g. "move") and the payload its handlers receive. */
  datatype Action<P> = Action(kind: string, props: P)

  /** The handlers registered for one kind. */
  datatype HandlerPair<H> = HandlerPair(undo: H, redo: H)

  /** What one call of undo or redo did. */
  datatype Replay<P, H> =
    | Nothing                     // the stack was empty
    | Fired(handler: H, props: P) // this handler ran with these props
    | Unregistered(kind: string)  // no handler pair for the kind: the call throws

  /** Both stacks as one value; the last element of each sequence is its top. */
  datatype Stacks<P> = Stacks(undo: seq<Action<P>>, redo: seq<Action<P>>)

  function Top<T>(s: seq<T>): T
    requires s != []
  {
    s[|s| - 1]
  }

  function Popped<T>(s: seq<T>): (r: seq<T>)
    requires s != []
    ensures |r| == |s| - 1 && r + [Top(s)] == s
  {
    s[..|s| - 1]
  }

  /** Number of actions held by both stacks together. */
  function Total<P>(s: Stacks<P>): nat
  {
    |s.undo| + |s.redo|
  }

  /** The stacks after a new action is recorded: linear history drops the redo branch. */
  function Recorded<P>(s: Stacks<P>, a: Action<P>): (r: Stacks<P>)
    ensures Total(r) == |s.undo| + 1
    ensures r.undo != [] && Top(r.undo) == a && Popped(r.undo) == s.undo
    ensures r.redo == []
  {
    Stacks(s.undo + [a], [])
  }

  /** The stacks after a successful undo: the top undo action moves to the top of the redo stack. */
  function Undone<P>(s: Stacks<P>): (r: Stacks<P>)
    requires s.undo != []
    ensures Total(r) == Total(s)
    ensures r.redo != [] && Top(r.redo) == Top(s.undo) && Popped(r.redo) == s.redo
    ensures r.undo == Popped(s.undo)
  {
    Stacks(Popped(s.undo), s.redo + [Top(s.undo)])
  }

  /** The stacks after a successful redo: the mirror image of Undone. */
  function Redone<P>(s: Stacks<P>): (r: Stacks<P>)
    requires s.redo != []
    ensures Total(r) == Total(s)
    ensures r.undo != [] && Top(r.undo) == Top(s.redo) && Popped(r.undo) == s.undo
    ensures r.redo == Popped(s.redo)
  {
    Stacks(s.undo + [Top(s.redo)], Popped(s.redo))
  }

  /** Undo then redo leaves both stacks exactly as they were, and so does redo then undo. */
  lemma UndoRedoInverse<P>(s: Stacks<P>)
    ensures s.undo != [] ==> Redone(Undone(s)) == s
    ensures s.redo != [] ==> Undone(Redone(s)) == s
  {
  }

  /** `n` undos in a row: the top n actions move, the last undone ending on top of the redo stack. */
  function UndoN<P>(s: Stacks<P>, n: nat): (r: Stacks<P>)
    requires n <= |s.undo|
    ensures r.undo == s.undo[..|s.undo| - n]
    ensures |r.redo| == |s.redo| + n && r.redo[..|s.redo|] == s.redo
    ensures forall i :: |s.redo| <= i < |r.redo| ==> r.redo[i] == s.undo[|s.undo| + |s.redo| - 1 - i]
    decreases n
  {
    if n == 0 then s
    else
      var t := Undone(s);
      assert t.redo[..|s.redo|] == s.redo;
      UndoN(t, n - 1)
  }

  /** `n` redos in a row: the mirror image of UndoN. */
  function RedoN<P>(s: Stacks<P>, n: nat): (r: Stacks<P>)
    requires n <= |s.redo|
    ensures r.redo == s.redo[..|s.redo| - n]
    ensures |r.undo| == |s.undo| + n && r.undo[..|s.undo|] == s.undo
    ensures forall i :: |s.undo| <= i < |r.undo| ==> r.undo[i] == s.redo[|s.undo| + |s.redo| - 1 - i]
    decreases n
  {
    if n == 0 then s else Redone(RedoN(s, n - 1))
  }

  /** Undoing the last n actions and redoing them all restores the stacks exactly. */
  lemma {:induction false} UndoRedoNInverse<P>(s: Stacks<P>, n: nat)
    requires n <= |s.undo|
    ensures RedoN(UndoN(s, n), n) == s
  {
    var u := UndoN(s, n);
    var r := RedoN(u, n);
    assert r.redo == u.redo[..|s.redo|] == s.redo;
    forall i | 0 <= i < |s.undo| ensures r.undo[i] == s.undo[i] {
      if i < |u.undo| {
        assert r.undo[..|u.undo|][i] == u.undo[i];
      }
    }
    assert |r.undo| == |s.undo|;
    assert r.undo == s.undo;
  }

  /** Every action on either stack has a registered handler pair. */
  ghost predicate AllRegistered<P, H>(types: map<string, HandlerPair<H>>, s: Stacks<P>)
  {
    forall a :: a in s.undo + s.redo ==> a.kind in types
  }

  /** Recording a registered kind, undoing and redoing keep every stacked action registered. */
  lemma RegisteredPreserved<P, H>(types: map<string, HandlerPair<H>>, s: Stacks<P>, a: Action<P>)
    requires AllRegistered(types, s)
    ensures a.kind in types ==> AllRegistered(types, Recorded(s, a))
    ensures s.undo != [] ==> AllRegistered(types, Undone(s))
    ensures s.redo != [] ==> AllRegistered(types, Redone(s))
  {
    if s.undo != [] {
      var r := Undone(s);
      forall b | b in r.undo + r.redo ensures b.kind in types {
        assert b in s.undo + s.redo;
      }
    }
    if s.redo != [] {
      var r := Redone(s);
      forall b | b in r.undo + r.redo ensures b.kind in types {
        assert b in s.undo + s.redo;
      }
    }
  }

  class HistoryManager<P, H> {
    var undoStack: seq<Action<P>>
    var redoStack: seq<Action<P>>
    var types: map<string, HandlerPair<H>>

    function State(): Stacks<P>
      reads this
    {
      Stacks(undoStack, redoStack)
    }

    constructor ()
      ensures undoStack == [] && redoStack == [] && types == map[]
    {
      undoStack, redoStack, types := [], [], map[];
    }

    /** Push `{type, props}` and empty the redo stack. */
    method AddAction(kind: string, props: P)
      modifies this
      ensures State() == Recorded(old(State()), Action(kind, props))
      ensures types == old(types)
    {
      undoStack := undoStack + [Action(kind, props)];
      redoStack := [];
    }

    /** Store the handler pair under `kind`, replacing any earlier pair. */
    method RegisterType(kind: string, undo: H, redo: H)
      modifies this
      ensures types == old(types)[kind := HandlerPair(undo, redo)]
      ensures kind in types && types[kind].undo == undo && types[kind].redo == redo
      ensures forall k :: k in old(types) && k != kind ==> k in types && types[k] == old(types)[k]
      ensures State() == old(State())
    {
      types := types[kind := HandlerPair(undo, redo)];
    }

    /**
     * Pop the top action, fire its undo handler, push it onto the redo stack.  On an empty stack
     * nothing happens.  The pop comes before the handler lookup, so an unregistered kind loses the
     * action and the redo stack is left alone (the lookup throws before the push).
     */
    method Undo() returns (r: Replay<P, H>)
      modifies this
      ensures types == old(types)
      ensures old(undoStack) == [] ==> r == Nothing && State() == old(State())
      ensures old(undoStack) != [] && Top(old(undoStack)).kind in types ==>
                r == Fired(types[Top(old(undoStack)).kind].undo, Top(old(undoStack)).props) &&
                State() == Undone(old(State()))
      ensures old(undoStack) != [] && Top(old(undoStack)).kind !in types ==>
                r == Unregistered(Top(old(undoStack)).kind) &&
                undoStack == Popped(old(undoStack)) && redoStack == old(redoStack)
    {
      if undoStack == [] {
        return Nothing;
      }
      var action := Top(undoStack);
      undoStack := Popped(undoStack);
      if action.kind !in types {
        return Unregistered(action.kind);
      }
      r := Fired(types[action.kind].undo, action.props);
      redoStack := redoStack + [action];
    }

    /** The mirror image of Undo. */
    method Redo() returns (r: Replay<P, H>)
      modifies this
      ensures types == old(types)
      ensures old(redoStack) == [] ==> r == Nothing && State() == old(State())
      ensures old(redoStack) != [] && Top(old(redoStack)).kind in types ==>
                r == Fired(types[Top(old(redoStack)).kind].redo, Top(old(redoStack)).props) &&
                State() == Redone(old(State()))
      ensures old(redoStack) != [] && Top(old(redoStack)).kind !in types ==>
                r == Unregistered(Top(old(redoStack)).kind) &&
                redoStack == Popped(old(redoStack)) && undoStack == old(undoStack)
    {
      if redoStack == [] {
        return Nothing;
      }
      var action := Top(redoStack);
      redoStack := Popped(redoStack);
      if action.kind !in types {
        return Unregistered(action.kind);
      }
      r := Fired(types[action.kind].redo, action.props);
      undoStack := undoStack + [action];
    }

    function HasUndo(): (b: bool)
      reads this
      ensures b <==> undoStack != []
    {
      |undoStack| > 0
    }

    function HasRedo(): (b: bool)
      reads this
      ensures b <==> redoStack != []
    {
      |redoStack| > 0
    }
  }
}
