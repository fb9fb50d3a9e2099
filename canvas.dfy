/** The canvas component itself: its state fields, updated in place by its
    event handlers. Each handler is proved to make the transition that the
    matching step function of History describes. */
module CanvasComponent {
  import opened Strokes
  import History

  class Canvas {
    var tool: Tool
    var size: Width
    var color: string
    var lines: seq<Stroke>
    var pastLines: seq<Stroke>
    var isDrawing: bool

    /** The component's state as a value. */
    function State(): History.Snapshot
      reads this
    {
      History.Snapshot(tool, size, color, lines, pastLines, isDrawing)
    }

    ghost predicate Valid()
      reads this
    {
      History.Valid(State())
    }

    constructor ()
      ensures State() == History.Initial && Valid()
    {
      tool, size, color := Pen, 5, "#000000";
      lines, pastLines := [], [];
      isDrawing := false;
    }

    /** Pointer-press at (x, y). */
    method HandleMouseDown(x: int, y: int)
      requires Valid()
      modifies this
      ensures Valid()
      ensures State() == History.Press(old(State()), x, y)
    {
      isDrawing := true;
      lines := lines + [Stroke(tool, [x, y], color, size)];
      pastLines := [];
    }

    /** Undo; the button that calls it is enabled only while there are strokes. */
    method Undo()
      requires Valid() && History.UndoEnabled(State())
      modifies this
      ensures Valid()
      ensures State() == History.Undo(old(State()))
    {
      var last := lines[|lines| - 1];
      pastLines := pastLines + [last];
      lines := lines[..|lines| - 1];
    }

    /** Redo; does nothing when there is nothing to redo. */
    method Redo()
      requires Valid()
      modifies this
      ensures Valid()
      ensures State() == History.Redo(old(State()))
    {
      if |pastLines| == 0 {
        return;
      }
      var addLine := pastLines[|pastLines| - 1];
      lines := lines + [addLine];
      pastLines := pastLines[..|pastLines| - 1];
    }

    /** Pointer-move to (x, y). The last stroke is replaced by itself with the
        pair x, y appended. `threw` reports the one case the TypeScript
        handler does not survive: a drag still open after an undo emptied
        the drawing, where reading the last stroke fails before anything is
        changed. */
    method HandleMouseMove(x: int, y: int) returns (threw: bool)
      requires Valid()
      modifies this
      ensures Valid()
      ensures threw <==> old(isDrawing) && old(lines) == []
      ensures State() == History.Move(old(State()), x, y)
    {
      threw := false;
      if !isDrawing {
        return;
      }
      if |lines| == 0 {
        threw := true;
        return;
      }
      var lastLine := lines[|lines| - 1];
      lastLine := lastLine.(points := lastLine.points + [x, y]);
      lines := lines[|lines| - 1 := lastLine];
    }

    /** Pointer-release. */
    method HandleMouseUp()
      requires Valid()
      modifies this
      ensures Valid()
      ensures State() == History.Release(old(State()))
    {
      isDrawing := false;
    }

    /** The pen and eraser buttons. */
    method SetTool(t: Tool)
      requires Valid()
      modifies this
      ensures Valid()
      ensures State() == History.SetTool(old(State()), t)
    {
      tool := t;
    }

    /** The width slider. */
    method SetSize(w: Width)
      requires Valid()
      modifies this
      ensures Valid()
      ensures State() == History.SetSize(old(State()), w)
    {
      size := w;
    }

    /** The colour picker's completed change. */
    method HandleChangeComplete(hex: string)
      requires Valid()
      modifies this
      ensures Valid()
      ensures State() == History.SetColor(old(State()), hex)
    {
      color := hex;
    }

    /** Whether the undo button is enabled. */
    method CanUndo() returns (enabled: bool)
      ensures enabled == History.UndoEnabled(State())
    {
      enabled := |lines| != 0;
    }

    /** Whether the redo button is enabled. */
    method CanRedo() returns (enabled: bool)
      ensures enabled == History.RedoEnabled(State())
    {
      enabled := |pastLines| != 0;
    }
  }
}
