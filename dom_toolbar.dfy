/**
 * The DOM editor's toolbar: the viewport-size select ("WxH" strings), the undo and redo buttons,
 * and the cursor buttons, where pen and expand need exactly one selected element.
 */
module DomToolBar {
  import opened Common
  import opened Numeric
  import opened History
  import opened DomEditor

  const OnlyOneLayerMessage: string := "只能选择一个图层哦"
  const SelectOneLayerMessage: string := "请选择一个图层哦"

  /**
   * changeCursor's guard, given the number of selected elements: `default` is always accepted, any
   * other mode only with exactly one selected element; a rejection carries the message shown.
   */
  function CursorChange(c: Cursor, selectedCount: nat): (r: Result<Cursor, string>)
    ensures r.Ok? <==> c == Default || selectedCount == 1
    ensures r.Ok? ==> r.value == c
    ensures c != Default && selectedCount > 1 ==> r == Err(OnlyOneLayerMessage)
    ensures c != Default && selectedCount == 0 ==> r == Err(SelectOneLayerMessage)
  {
    if c != Default && selectedCount > 1 then Err(OnlyOneLayerMessage)
    else if c != Default && selectedCount == 0 then Err(SelectOneLayerMessage)
    else Ok(c)
  }

  method ChangeCursor(ed: Editor, c: Cursor) returns (r: Result<Cursor, string>)
    modifies ed
    ensures r == CursorChange(c, |old(ed.selected)|)
    ensures ed.cursor == (if r.Ok? then c else old(ed.cursor))
    ensures ed.cursor != old(ed.cursor) && ed.cursor != Default ==> |ed.selected| == 1
    ensures ed.State() == old(ed.State()) && ed.viewportSize == old(ed.viewportSize)
  {
    r := CursorChange(c, |ed.selected|);
    if r.Ok? {
      ed.cursor := c;
    }
  }

  /** The three sizes the select offers. */
  const SizeOptions: seq<string> := ["512x512", "512x288", "288x512"]

  /** The select's current value, `${width}x${height}`. */
  function SizeLabel(s: ViewSize): string
  {
    NatToString(s.width) + "x" + NatToString(s.height)
  }

  /** `Number(value.split('x')[0])` and `Number(value.split('x')[1])`; a missing piece is None. */
  function ParseSize(value: string): (r: (Option<nat>, Option<nat>))
    ensures 'x' !in value ==> r.1 == None
  {
    var pieces := Split(value, 'x');
    (JsNumber(pieces[0]), if |pieces| > 1 then JsNumber(pieces[1]) else None)
  }

  /** Parsing the label of a size gives the size back. */
  lemma ParseSizeLabel(s: ViewSize)
    ensures ParseSize(SizeLabel(s)) == (Some(s.width), Some(s.height))
  {
    var w, h := NatToString(s.width), NatToString(s.height);
    assert 'x' !in w && 'x' !in h;
    SplitAtFirst(w, 'x', h);
    NumberOfNatToString(s.width);
    NumberOfNatToString(s.height);
  }

  lemma PrintedSizes()
    ensures NatToString(512) == "512" && NatToString(288) == "288"
  {
    assert NatToString(5) == "5" && NatToString(2) == "2";
    assert NatToString(51) == NatToString(5) + "1";
    assert NatToString(512) == NatToString(51) + "2";
    assert NatToString(28) == NatToString(2) + "8";
    assert NatToString(288) == NatToString(28) + "8";
  }

  /** Every option parses to a size whose label is the option itself. */
  lemma SizeOptionsRoundTrip(o: string)
    requires o in SizeOptions
    ensures ParseSize(o).0.Some? && ParseSize(o).1.Some?
    ensures SizeLabel(ViewSize(ParseSize(o).0.value, ParseSize(o).1.value)) == o
  {
    PrintedSizes();
    var s := if o == "512x512" then ViewSize(512, 512)
      else if o == "512x288" then ViewSize(512, 288)
      else ViewSize(288, 512);
    assert SizeLabel(s) == o;
    ParseSizeLabel(s);
  }

  /** The select's change handler; the select only ever passes one of its options. */
  method OnSizeChange(ed: Editor, value: string)
    requires value in SizeOptions
    modifies ed
    ensures ParseSize(value).0.Some? && ParseSize(value).1.Some?
    ensures ed.viewportSize == ViewSize(ParseSize(value).0.value, ParseSize(value).1.value)
    ensures SizeLabel(ed.viewportSize) == value
    ensures ed.State() == old(ed.State()) && ed.cursor == old(ed.cursor)
  {
    SizeOptionsRoundTrip(value);
    var (w, h) := ParseSize(value);
    ed.viewportSize := ViewSize(w.value, h.value);
  }

  /** The undo and redo buttons are drawn disabled exactly when there is nothing to undo or redo. */
  function ButtonsDisabled(h: HistoryManager<Props, Handler>): (r: (bool, bool))
    reads h
    ensures r.0 <==> h.undoStack == []
    ensures r.1 <==> h.redoStack == []
  {
    (!h.HasUndo(), !h.HasRedo())
  }
}
