/** The stroke history of the drawing canvas as a value, with one pure step
    function per event handler of the component. Each handler runs as one
    atomic transition from a Snapshot to the next. */
module History {
  import opened Strokes

  /** The component's state: the active tool, width and colour, the committed
      strokes (`lines`), the redo buffer (`pastLines`, most recently undone
      last) and the dragging flag (`isDrawing`). */
  datatype Snapshot = Snapshot(
    tool: Tool,
    size: Width,
    color: string,
    lines: seq<Stroke>,
    pastLines: seq<Stroke>,
    isDrawing: bool)

  /** The state a freshly mounted canvas starts in: a black pen of width 5,
      no strokes, nothing to redo, not dragging. */
  const Initial: Snapshot := Snapshot(Pen, 5, "#000000", [], [], false)

  predicate AllWellFormed(ls: seq<Stroke>)
  {
    forall i :: 0 <= i < |ls| ==> WellFormed(ls[i])
  }

  /** Every stroke in the drawing and in the redo buffer is a list of pairs. */
  predicate Valid(s: Snapshot)
  {
    AllWellFormed(s.lines) && AllWellFormed(s.pastLines)
  }

  predicate SameSettings(a: Snapshot, b: Snapshot)
  {
    a.tool == b.tool && a.size == b.size && a.color == b.color
  }

  /** How many strokes the history holds, drawn or undone. */
  function Total(s: Snapshot): nat
  {
    |s.lines| + |s.pastLines|
  }

  /** Every stroke the history holds, drawn or undone. */
  function Held(s: Snapshot): multiset<Stroke>
  {
    multiset(s.lines) + multiset(s.pastLines)
  }

  /** The undo button is enabled exactly while the drawing has a stroke. */
  predicate UndoEnabled(s: Snapshot)
  {
    s.lines != []
  }

  /** The redo button is enabled exactly while there is something to redo. */
  predicate RedoEnabled(s: Snapshot)
  {
    s.pastLines != []
  }

  /** Pointer-press at (x, y): start a stroke with the active settings, forget
      everything that could be redone, and start dragging. Nothing is checked
      first, so a press during an unfinished drag starts a second stroke. */
  function Press(s: Snapshot, x: int, y: int): (r: Snapshot)
    ensures |r.lines| == |s.lines| + 1 && r.lines[..|s.lines|] == s.lines
    ensures r.lines[|s.lines|] == Stroke(s.tool, [x, y], s.color, s.size)
    ensures r.pastLines == [] && r.isDrawing
    ensures SameSettings(r, s)
    ensures Valid(s) ==> Valid(r)
  {
    s.(lines := s.lines + [Stroke(s.tool, [x, y], s.color, s.size)],
       pastLines := [],
       isDrawing := true)
  }

  /** Pointer-move to (x, y): while dragging, the pair x, y is appended to the
      points of the last stroke. When not dragging nothing happens. When
      dragging with no stroke left (an undo emptied the drawing during the
      drag) the handler fails reading the last stroke before it changes
      anything, so the state is unchanged then too. */
  function Move(s: Snapshot, x: int, y: int): (r: Snapshot)
    ensures !s.isDrawing || s.lines == [] ==> r == s
    ensures |r.lines| == |s.lines| && r.pastLines == s.pastLines
    ensures r.isDrawing == s.isDrawing && SameSettings(r, s)
    ensures forall i :: 0 <= i < |s.lines| - 1 ==> r.lines[i] == s.lines[i]
    ensures s.isDrawing && s.lines != [] ==>
      var last := s.lines[|s.lines| - 1];
      r.lines[|s.lines| - 1] == Stroke(last.tool, last.points + [x, y], last.color, last.size)
    ensures Valid(s) ==> Valid(r)
  {
    if !s.isDrawing || s.lines == [] then s
    else
      var last := s.lines[|s.lines| - 1];
      s.(lines := s.lines[|s.lines| - 1 := last.(points := last.points + [x, y])])
  }

  /** Pointer-release: the drag ends; nothing else changes. */
  function Release(s: Snapshot): (r: Snapshot)
    ensures !r.isDrawing
    ensures r.lines == s.lines && r.pastLines == s.pastLines && SameSettings(r, s)
    ensures Valid(s) ==> Valid(r)
  {
    s.(isDrawing := false)
  }

  /** Undo: the last stroke leaves the drawing and becomes the last entry of
      the redo buffer. The handler needs a last stroke; the undo button is
      disabled while the drawing is empty. */
  function Undo(s: Snapshot): (r: Snapshot)
    requires UndoEnabled(s)
    ensures r.lines == s.lines[..|s.lines| - 1]
    ensures r.pastLines == s.pastLines + [s.lines[|s.lines| - 1]]
    ensures Total(r) == Total(s) && Held(r) == Held(s)
    ensures r.isDrawing == s.isDrawing && SameSettings(r, s)
    ensures Valid(s) ==> Valid(r)
  {
    var n := |s.lines|;
    assert s.lines == s.lines[..n - 1] + [s.lines[n - 1]];
    s.(lines := s.lines[..n - 1], pastLines := s.pastLines + [s.lines[n - 1]])
  }

  /** Redo: with nothing to redo, nothing happens; otherwise the last entry
      of the redo buffer goes back to the end of the drawing. */
  function Redo(s: Snapshot): (r: Snapshot)
    ensures s.pastLines == [] ==> r == s
    ensures s.pastLines != [] ==>
      r.lines == s.lines + [s.pastLines[|s.pastLines| - 1]] &&
      r.pastLines == s.pastLines[..|s.pastLines| - 1]
    ensures Total(r) == Total(s) && Held(r) == Held(s)
    ensures r.isDrawing == s.isDrawing && SameSettings(r, s)
    ensures Valid(s) ==> Valid(r)
  {
    if s.pastLines == [] then s
    else
      var m := |s.pastLines|;
      assert s.pastLines == s.pastLines[..m - 1] + [s.pastLines[m - 1]];
      s.(lines := s.lines + [s.pastLines[m - 1]], pastLines := s.pastLines[..m - 1])
  }

  /** The pen and eraser buttons. */
  function SetTool(s: Snapshot, t: Tool): (r: Snapshot)
    ensures r.tool == t && r.size == s.size && r.color == s.color
    ensures r.lines == s.lines && r.pastLines == s.pastLines && r.isDrawing == s.isDrawing
  {
    s.(tool := t)
  }

  /** The width slider. */
  function SetSize(s: Snapshot, w: Width): (r: Snapshot)
    ensures r.size == w && r.tool == s.tool && r.color == s.color
    ensures r.lines == s.lines && r.pastLines == s.pastLines && r.isDrawing == s.isDrawing
  {
    s.(size := w)
  }

  /** The colour picker: the hex string of the colour picked. */
  function SetColor(s: Snapshot, c: string): (r: Snapshot)
    ensures r.color == c && r.tool == s.tool && r.size == s.size
    ensures r.lines == s.lines && r.pastLines == s.pastLines && r.isDrawing == s.isDrawing
  {
    s.(color := c)
  }

  /** Undo followed by redo gives back exactly the state before the undo. */
  lemma UndoThenRedo(s: Snapshot)
    requires UndoEnabled(s)
    ensures Redo(Undo(s)) == s
  {
  }

  /** Redo followed by undo gives back exactly the state before the redo. */
  lemma RedoThenUndo(s: Snapshot)
    requires RedoEnabled(s)
    ensures Undo(Redo(s)) == s
  {
  }

  /** Undo right after a press gives back the drawing as it was, but the
      redo history from before the press is gone: only the new stroke can
      be redone. */
  lemma PressThenUndo(s: Snapshot, x: int, y: int)
    ensures var u := Undo(Press(s, x, y));
      u.lines == s.lines && u.pastLines == [Stroke(s.tool, [x, y], s.color, s.size)] &&
      u.isDrawing && SameSettings(u, s)
  {
  }

  /** A pointer-press starts a path made of the one position pressed. */
  lemma PressStartsPath(s: Snapshot, x: int, y: int)
    ensures Positions(Press(s, x, y).lines[|s.lines|].points) == [(x, y)]
  {
  }

  /** While dragging, a pointer-move adds the position moved to as the last
      position of the open stroke's path, keeping all earlier positions. */
  lemma MoveExtendsPath(s: Snapshot, x: int, y: int)
    requires Valid(s) && s.isDrawing && s.lines != []
    ensures var n := |s.lines|;
      WellFormed(s.lines[n - 1]) && WellFormed(Move(s, x, y).lines[n - 1]) &&
      Positions(Move(s, x, y).lines[n - 1].points) ==
        Positions(s.lines[n - 1].points) + [(x, y)]
  {
    PositionsAppend(s.lines[|s.lines| - 1].points, x, y);
  }

  /** The settings chosen before a press are the ones the new stroke gets;
      choosing them changes none of the strokes already drawn or undone. */
  lemma SettingsApplyToNextStrokeOnly(s: Snapshot, t: Tool, w: Width, c: string, x: int, y: int)
    ensures var q := SetColor(SetSize(SetTool(s, t), w), c);
      q.lines == s.lines && q.pastLines == s.pastLines &&
      Press(q, x, y).lines == s.lines + [Stroke(t, [x, y], c, w)]
  {
  }

  /** An undo during an unfinished drag keeps the drag going: whatever the
      state, the next pointer-move extends the stroke drawn before the
      undone one. */
  lemma UndoDuringDragReopensEarlierStroke(s: Snapshot, x: int, y: int, u: int, v: int)
    requires s.lines != []
    ensures var n := |s.lines|;
      var t := Undo(Press(s, x, y));
      t.isDrawing && t.lines == s.lines &&
      Move(t, u, v).lines ==
        s.lines[n - 1 := s.lines[n - 1].(points := s.lines[n - 1].points + [u, v])]
  {
  }

  /** An undo during an unfinished drag whose stroke was the only one leaves
      the drag going with no stroke to extend; a pointer-move then changes
      nothing. */
  lemma UndoDuringDragLeavesNoStroke(s: Snapshot, x: int, y: int, u: int, v: int)
    requires s.lines == []
    ensures var t := Undo(Press(s, x, y));
      t.isDrawing && t.lines == [] && Move(t, u, v) == t
  {
  }
}
