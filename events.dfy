/** The events the canvas reacts to, how each one is delivered to its
    handler (the undo and redo buttons swallow clicks while disabled), and
    what any sequence of events does to the stroke history. */
module Events {
  import opened Strokes
  import opened History

  datatype Event =
    | MouseDown(x: int, y: int)
    | MouseMove(x: int, y: int)
    | MouseUp
    | UndoClick
    | RedoClick
    | ToolClick(tool: Tool)
    | SizeChange(size: Width)
    | ColorPick(color: string)

  /** The effect of one event. The undo button is disabled while the drawing
      is empty and the redo button while the redo buffer is empty; a click
      on a disabled button reaches no handler. */
  function Dispatch(s: Snapshot, e: Event): (r: Snapshot)
    ensures Valid(s) ==> Valid(r)
    ensures !e.MouseDown? ==> Total(r) == Total(s)
    ensures !e.MouseDown? && !e.MouseMove? ==> Held(r) == Held(s)
    ensures e.UndoClick? && !UndoEnabled(s) ==> r == s
    ensures e.RedoClick? && !RedoEnabled(s) ==> r == s
  {
    match e
    case MouseDown(x, y) => Press(s, x, y)
    case MouseMove(x, y) => Move(s, x, y)
    case MouseUp => Release(s)
    case UndoClick => if UndoEnabled(s) then Undo(s) else s
    case RedoClick => if RedoEnabled(s) then Redo(s) else s
    case ToolClick(t) => SetTool(s, t)
    case SizeChange(w) => SetSize(s, w)
    case ColorPick(c) => SetColor(s, c)
  }

  /** The state after the events `es`, handled one after another. */
  function Run(s: Snapshot, es: seq<Event>): Snapshot
    decreases |es|
  {
    if es == [] then s else Run(Dispatch(s, es[0]), es[1..])
  }

  /** Every stroke, drawn or undone, is a non-empty list of (x, y) pairs in
      every state the canvas can reach. */
  lemma {:induction false} RunKeepsValid(s: Snapshot, es: seq<Event>)
    requires Valid(s)
    ensures Valid(Run(s, es))
    decreases |es|
  {
    if es != [] {
      RunKeepsValid(Dispatch(s, es[0]), es[1..]);
    }
  }

  lemma InitialIsValid()
    ensures Valid(Initial) && Initial.lines == [] && Initial.pastLines == []
  {
  }

  /** Only a pointer-press changes how many strokes the history holds. */
  lemma {:induction false} RunWithoutPressKeepsTotal(s: Snapshot, es: seq<Event>)
    requires forall i :: 0 <= i < |es| ==> !es[i].MouseDown?
    ensures Total(Run(s, es)) == Total(s)
    decreases |es|
  {
    if es != [] {
      RunWithoutPressKeepsTotal(Dispatch(s, es[0]), es[1..]);
    }
  }

  /** Without drawing (no press, no move), strokes only move between the
      drawing and the redo buffer: none is created, lost or duplicated. */
  lemma {:induction false} RunWithoutDrawingKeepsStrokes(s: Snapshot, es: seq<Event>)
    requires forall i :: 0 <= i < |es| ==> !es[i].MouseDown? && !es[i].MouseMove?
    ensures Held(Run(s, es)) == Held(s)
    decreases |es|
  {
    if es != [] {
      RunWithoutDrawingKeepsStrokes(Dispatch(s, es[0]), es[1..]);
    }
  }

  /** A click on the undo button runs the undo handler exactly when the
      button is enabled. */
  lemma UndoClickRunsUndo(s: Snapshot)
    ensures Dispatch(s, UndoClick) == if UndoEnabled(s) then Undo(s) else s
  {
  }

  /** A click on the redo button always has the effect of the redo handler:
      the button's guard and the handler's own early return agree. */
  lemma RedoClickRunsRedo(s: Snapshot)
    ensures Dispatch(s, RedoClick) == Redo(s)
  {
  }

  /** A press and an undo before the release leave the drag going with an
      empty drawing: the state in which a pointer-move finds no last stroke
      is reachable from the initial state. */
  lemma NoStrokeWhileDraggingIsReachable(x: int, y: int)
    ensures var s := Run(Initial, [MouseDown(x, y), UndoClick]);
      s.isDrawing && s.lines == []
  {
    var es := [MouseDown(x, y), UndoClick];
    var s1 := Press(Initial, x, y);
    assert es[1..] == [UndoClick];
    assert es[1..][1..] == [];
    assert Run(Initial, es) == Run(s1, [UndoClick]) == Undo(s1);
  }

  /** Undo clicked and then redo clicked gives back the state before. */
  lemma UndoClickThenRedoClick(s: Snapshot)
    requires UndoEnabled(s)
    ensures Run(s, [UndoClick, RedoClick]) == s
  {
    var u := Undo(s);
    assert Dispatch(s, UndoClick) == u;
    UndoThenRedo(s);
    assert Dispatch(u, RedoClick) == s;
    assert [UndoClick, RedoClick][1..] == [RedoClick];
    assert [RedoClick][1..] == [];
  }

  /** The strokes that no later event can change: all of the drawing, except
      the last stroke while a drag is going on. */
  function Committed(s: Snapshot): (c: seq<Stroke>)
    ensures c <= s.lines
    ensures |c| >= |s.lines| - 1
  {
    if s.isDrawing && s.lines != [] then s.lines[..|s.lines| - 1] else s.lines
  }

  predicate DrawingEvent(e: Event)
  {
    !e.UndoClick? && !e.RedoClick?
  }

  lemma DispatchKeepsCommitted(s: Snapshot, e: Event)
    requires DrawingEvent(e)
    ensures Committed(s) <= Committed(Dispatch(s, e))
  {
  }

  /** As long as nothing is undone or redone, a committed stroke is never
      changed again and keeps its place: the committed strokes only grow
      at the end. */
  lemma {:induction false} CommittedStrokesAreFrozen(s: Snapshot, es: seq<Event>)
    requires forall i :: 0 <= i < |es| ==> DrawingEvent(es[i])
    ensures Committed(s) <= Committed(Run(s, es))
    decreases |es|
  {
    if es != [] {
      var d := Dispatch(s, es[0]);
      DispatchKeepsCommitted(s, es[0]);
      CommittedStrokesAreFrozen(d, es[1..]);
      var a, b, c := Committed(s), Committed(d), Committed(Run(d, es[1..]));
      assert b == c[..|b|];
      assert a == b[..|a|];
      assert a == c[..|a|];
    }
  }

  /** `b` is `a` after more points were appended: same tool, colour and width,
      and `a`'s points are the start of `b`'s. */
  predicate Extends(b: Stroke, a: Stroke)
  {
    b.tool == a.tool && b.color == a.color && b.size == a.size && a.points <= b.points
  }

  lemma ExtendsTransitive(c: Stroke, b: Stroke, a: Stroke)
    requires Extends(c, b) && Extends(b, a)
    ensures Extends(c, a)
  {
    assert b.points == c.points[..|b.points|];
    assert a.points == b.points[..|a.points|];
  }

  lemma DispatchGrows(s: Snapshot, e: Event)
    requires DrawingEvent(e)
    ensures var d := Dispatch(s, e);
      |d.lines| >= |s.lines| &&
      forall i :: 0 <= i < |s.lines| ==> Extends(d.lines[i], s.lines[i])
  {
  }

  /** As long as nothing is undone or redone, strokes are only ever appended
      to the drawing, and a stroke's points are only ever appended to. */
  lemma {:induction false} StrokesOnlyGrow(s: Snapshot, es: seq<Event>)
    requires forall i :: 0 <= i < |es| ==> DrawingEvent(es[i])
    ensures var r := Run(s, es);
      |r.lines| >= |s.lines| &&
      forall i :: 0 <= i < |s.lines| ==> Extends(r.lines[i], s.lines[i])
    decreases |es|
  {
    if es != [] {
      var d := Dispatch(s, es[0]);
      DispatchGrows(s, es[0]);
      StrokesOnlyGrow(d, es[1..]);
      var r := Run(d, es[1..]);
      forall i | 0 <= i < |s.lines|
        ensures Extends(r.lines[i], s.lines[i])
      {
        ExtendsTransitive(r.lines[i], d.lines[i], s.lines[i]);
      }
    }
  }

  /** Press at (0, 0), move to (5, 5), release: one stroke through the two
      positions, with the initial settings, and nothing to redo. */
  lemma DrawOneStroke()
    ensures Run(Initial, [MouseDown(0, 0), MouseMove(5, 5), MouseUp]) ==
      Initial.(lines := [Stroke(Pen, [0, 0, 5, 5], "#000000", 5)])
  {
    var es := [MouseDown(0, 0), MouseMove(5, 5), MouseUp];
    var s1 := Press(Initial, 0, 0);
    var s2 := Move(s1, 5, 5);
    assert [0, 0] + [5, 5] == [0, 0, 5, 5];
    assert s2.lines == [Stroke(Pen, [0, 0, 5, 5], "#000000", 5)];
    assert es[1..] == [MouseMove(5, 5), MouseUp];
    assert es[1..][1..] == [MouseUp];
    assert Run(Initial, es) == Run(s1, es[1..]) == Run(s2, es[1..][1..]);
    assert es[1..][1..][1..] == [];
    assert Run(s2, [MouseUp]) == Release(s2);
  }
}
