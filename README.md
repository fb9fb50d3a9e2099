# Stroke history of the SymbolDraw drawing canvas

SymbolDraw's canvas component (`src/components/elements/Canvas/index.tsx`)
lets a user draw freehand strokes with a pen or an eraser, pick the width and
colour of the next stroke, and undo and redo strokes. Behind the widgets sits a
small state machine: the committed strokes (`lines`), the redo buffer
(`pastLines`, most recently undone last), a dragging flag (`isDrawing`) and the
active tool, width and colour. Pointer-press starts a stroke, pointer-move
extends the open stroke while dragging, pointer-release ends the drag, undo
moves the last stroke to the redo buffer and redo moves it back.

This project models that state machine and proves its properties.

- `strokes.dfy`, module `Strokes`: the stroke value; its flat point list and
  the positions it encodes; the blend mode a stroke is painted with.
- `history.dfy`, module `History`: the component state as a value
  (`Snapshot`), one pure step function per handler, and lemmas about them
  (undo and redo are inverse, a press starts a one-position path, a move
  extends the open path by one position, settings only affect later
  strokes).
- `events.dfy`, module `Events`: the events the canvas reacts to, including
  clicks on the undo and redo buttons, which are disabled while their list is
  empty. It defines `Run` over any sequence of events and proves properties of
  every run. The point lists always hold whole (x, y) pairs. Only a press
  changes the number of strokes held. Without drawing, strokes only move
  between the two lists. Without undo and redo, committed strokes never
  change.
- `canvas.dfy`, module `CanvasComponent`: class `Canvas`, with the
  component's state as fields and the handlers as methods that update them in
  place. Each method is proved to make the transition the matching `History`
  function describes. The two button-enabled queries are methods too.

Modelling choices:

- Pointer positions are pairs of integers passed as parameters. A stroke
  keeps them as a flat list x0, y0, x1, y1, …, exactly as the component does.
- The tool is `Pen` or `Eraser`, the only two values the tool buttons store.
  A width is an integer from 1 to 20, the slider's range with its default
  step of 1. A colour is the picker's hex string.
- Each handler is one atomic transition of the state. The TypeScript
  handlers read `lines` from the render's closure and updates `pastLines` with a functional
  update; with one event at a time both reads give the same value.
- The undo handler has no guard of its own. On an empty drawing it would push
  `undefined` into the redo buffer. Its only caller is a button that is
  disabled while the drawing is empty (line 154). That button state is the
  predicate `History.UndoEnabled`. `History.Undo` and `Canvas.Undo` require
  it, a click on the disabled button (`Events.Dispatch`) changes nothing,
  and `Canvas.CanUndo` answers it. The redo button works the same way with
  `History.RedoEnabled` (line 163). The redo handler returns early on an
  empty buffer anyway (line 89), so a redo click always acts as the handler.
- An undo during an unfinished drag leaves `isDrawing` set. A drag stays
  unfinished when the pointer is released outside the stage. If that undo
  emptied the drawing, the next pointer-move fails at line 104 while reading
  the missing last stroke, before it changes anything. That state is
  reachable from the initial one (`Events.NoStrokeWhileDraggingIsReachable`).
  The model leaves the state unchanged in that case
  (`History.UndoDuringDragLeavesNoStroke`), and `Canvas.HandleMouseMove`
  reports it through its `threw` result. If the undo left earlier strokes,
  the next pointer-move extends the stroke drawn before the undone one, in
  every state (`History.UndoDuringDragReopensEarlierStroke`). So a stroke is not
  immutable after its drag ends in every run: that holds only for runs
  without undo or redo (`Events.CommittedStrokesAreFrozen`).
- A pointer-press during an unfinished drag is not guarded. It starts a new
  stroke, and the previous one becomes committed. The model keeps that
  behaviour.
- `.flat()` in redo (line 92) flattens nothing, because strokes are objects
  and not arrays, so it is left out.
- The initial width is 5 (line 29), although the slider starts out showing 3
  (line 142). The model follows the state, not the widget.

## Model

| member | source | states |
|---|---|---|
| `Strokes.Positions` | src/components/elements/Canvas/index.tsx:71 | a flat point list of even length encodes half as many positions; position k is the pair at indices 2k and 2k+1 |
| `Strokes.PositionsAppend` | src/components/elements/Canvas/index.tsx:104 | appending the pair x, y to a point list appends the position (x, y) to its path and keeps the earlier positions |
| `Strokes.CompositeOperation` | src/components/elements/Canvas/index.tsx:192-194 | the blend mode is one of `destination-out` and `source-over`, and it is `destination-out` exactly for an eraser stroke |
| `History.Press` | src/components/elements/Canvas/index.tsx:64-77 | the earlier strokes stay as they were, in order, and exactly one stroke is added after them, built from the active tool, `[x, y]`, the active colour and the active width; the redo buffer becomes empty whatever it held; dragging becomes true; the settings are unchanged; well-formedness is kept |
| `History.Move` | src/components/elements/Canvas/index.tsx:96-107 | when not dragging, or dragging with no stroke left, the state is unchanged; otherwise the number of strokes stays the same, all strokes but the last are unchanged, and the last keeps its tool, colour and width while its points become the old points followed by x, y; the redo buffer, flag and settings are unchanged; well-formedness is kept |
| `History.Release` | src/components/elements/Canvas/index.tsx:111-113 | dragging becomes false; strokes, redo buffer and settings are unchanged |
| `History.Undo` | src/components/elements/Canvas/index.tsx:79-86 | while the undo button is enabled (`UndoEnabled`: the drawing is non-empty), the drawing loses exactly its last stroke, and that stroke becomes the last entry of the redo buffer; the total count and the multiset of strokes held are preserved; flag and settings are unchanged |
| `History.Redo` | src/components/elements/Canvas/index.tsx:88-94 | with an empty redo buffer, nothing changes; otherwise the last redo entry is appended to the drawing and removed from the buffer; the total count and the multiset of strokes held are preserved |
| `History.SetTool` | src/components/elements/Canvas/index.tsx:124-134 | the tool becomes the chosen one; width, colour, strokes, redo buffer and flag are unchanged |
| `History.SetSize` | src/components/elements/Canvas/index.tsx:147 | the width becomes the slider's value; everything else is unchanged |
| `History.SetColor` | src/components/elements/Canvas/index.tsx:108-110 | the colour becomes the picked hex string; everything else is unchanged |
| `History.UndoThenRedo` | src/components/elements/Canvas/index.tsx:79-94 | undo followed by redo restores the drawing and the redo buffer exactly |
| `History.RedoThenUndo` | src/components/elements/Canvas/index.tsx:79-94 | redo followed by undo restores the drawing and the redo buffer exactly |
| `History.PressThenUndo` | src/components/elements/Canvas/index.tsx:64-86 | undo right after a press restores the drawing; the redo buffer then holds only the new stroke, since the press discarded the earlier redo history |
| `History.PressStartsPath` | src/components/elements/Canvas/index.tsx:71 | a new stroke's path is the single position pressed |
| `History.MoveExtendsPath` | src/components/elements/Canvas/index.tsx:101-106 | while dragging, a move appends the position moved to at the end of the open stroke's path |
| `History.SettingsApplyToNextStrokeOnly` | src/components/elements/Canvas/index.tsx:64-77 | choosing tool, width and colour changes no existing stroke, and the next press builds its stroke from exactly those choices |
| `History.UndoDuringDragReopensEarlierStroke` | src/components/elements/Canvas/index.tsx:79-107 | for every state with at least one stroke: after a press and an undo before the release, dragging is still on and the drawing is as before the press, and the next move appends its pair to the points of the drawing's last stroke, the one drawn before the undone one, leaving all other strokes alone |
| `History.UndoDuringDragLeavesNoStroke` | src/components/elements/Canvas/index.tsx:79-107 | for every state with an empty drawing: after a press and an undo before the release, dragging is still on with no stroke, and the next move changes nothing |
| `Events.Dispatch` | src/components/elements/Canvas/index.tsx:150-176 | every event keeps well-formedness; every event but a press keeps the total count; every event but a press or a move keeps the multiset of strokes held; clicks on an undo or redo button that `UndoEnabled` or `RedoEnabled` reports disabled change nothing |
| `Events.UndoClickRunsUndo` | src/components/elements/Canvas/index.tsx:151-154 | a click on the undo button runs the undo handler exactly when `UndoEnabled` holds, and changes nothing otherwise |
| `Events.RedoClickRunsRedo` | src/components/elements/Canvas/index.tsx:88-94 | a click on the redo button always has the redo handler's effect: the disabled button and the handler's early return at line 89 agree |
| `Events.NoStrokeWhileDraggingIsReachable` | src/components/elements/Canvas/index.tsx:64-86 | from the initial state, a press and an undo lead to a state that is dragging with an empty drawing, the state in which a move finds no last stroke |
| `Events.InitialIsValid` | src/components/elements/Canvas/index.tsx:28-33 | the canvas starts with no strokes, nothing to redo, and a well-formed state |
| `Events.RunKeepsValid` | src/components/elements/Canvas/index.tsx:64-113 | in every run, every stroke's points has an even length of at least 2 |
| `Events.RunWithoutPressKeepsTotal` | src/components/elements/Canvas/index.tsx:79-113 | a run without pointer-press keeps the number of strokes in the drawing and the redo buffer together |
| `Events.RunWithoutDrawingKeepsStrokes` | src/components/elements/Canvas/index.tsx:79-94 | a run without press and move keeps the multiset of strokes held: none is created, lost or duplicated |
| `Events.UndoClickThenRedoClick` | src/components/elements/Canvas/index.tsx:150-167 | on a non-empty drawing, clicking undo and then redo gives back the state before |
| `Events.Committed` | src/components/elements/Canvas/index.tsx:96-113 | the committed strokes are the drawing, or all of it but the last stroke while dragging |
| `Events.DispatchKeepsCommitted` | src/components/elements/Canvas/index.tsx:64-113 | an event other than undo or redo keeps the committed strokes as a prefix of the new committed strokes |
| `Events.CommittedStrokesAreFrozen` | src/components/elements/Canvas/index.tsx:64-113 | in a run without undo or redo, the committed strokes only grow at the end and never change |
| `Events.DispatchGrows` | src/components/elements/Canvas/index.tsx:64-113 | an event other than undo or redo never removes a stroke and only appends points to existing strokes, keeping their tool, colour and width |
| `Events.StrokesOnlyGrow` | src/components/elements/Canvas/index.tsx:64-107 | in a run without undo or redo, every stroke stays in place, keeps its tool, colour and width, and its points are only appended to |
| `Events.DrawOneStroke` | src/components/elements/Canvas/index.tsx:64-113 | press at (0, 0), move to (5, 5), release: one black pen stroke of width 5 with points 0, 0, 5, 5, and an empty redo buffer |
| `CanvasComponent.Canvas.constructor` | src/components/elements/Canvas/index.tsx:28-33 | the component starts with a black pen of width 5, no strokes, nothing to redo, and not dragging |
| `CanvasComponent.Canvas.HandleMouseDown` | src/components/elements/Canvas/index.tsx:64-77 | updates the fields in place to the state `History.Press` gives, and keeps well-formedness |
| `CanvasComponent.Canvas.HandleMouseMove` | src/components/elements/Canvas/index.tsx:96-107 | replaces the last stroke in place with one carrying the extended points, to the state `History.Move` gives; `threw` is true exactly when dragging with no stroke left |
| `CanvasComponent.Canvas.HandleMouseUp` | src/components/elements/Canvas/index.tsx:111-113 | clears the dragging flag, to the state `History.Release` gives |
| `CanvasComponent.Canvas.Undo` | src/components/elements/Canvas/index.tsx:79-86 | while `UndoEnabled` holds, moves the last stroke to the redo buffer, to the state `History.Undo` gives |
| `CanvasComponent.Canvas.Redo` | src/components/elements/Canvas/index.tsx:88-94 | moves the last redo entry back to the drawing, or does nothing when there is none, to the state `History.Redo` gives |
| `CanvasComponent.Canvas.SetTool` | src/components/elements/Canvas/index.tsx:124-134 | sets the tool only, as `History.SetTool` |
| `CanvasComponent.Canvas.SetSize` | src/components/elements/Canvas/index.tsx:147 | sets the width only, as `History.SetSize` |
| `CanvasComponent.Canvas.HandleChangeComplete` | src/components/elements/Canvas/index.tsx:108-110 | sets the colour only, as `History.SetColor` |
| `CanvasComponent.Canvas.CanUndo` | src/components/elements/Canvas/index.tsx:154 | reports `UndoEnabled` of the current state: the predicate under which undo clicks reach the handler (`Events.UndoClickRunsUndo`) and which `Canvas.Undo` requires |
| `CanvasComponent.Canvas.CanRedo` | src/components/elements/Canvas/index.tsx:163 | reports `RedoEnabled` of the current state: the predicate under which `Events.Dispatch` lets a redo click through |

## Left out

- Rendering: the JSX tree, Konva `Stage`, `Layer`, `Line` and `Image`, the MUI buttons, slider and tooltips, the colour picker widget, the icons and the styled components. These are presentation and foreign library code. Only the blend-mode choice of line 192-194 is modelled.
- Reading the pointer position from the stage (lines 66, 101-102): it is a library call, so the position is a parameter of the handlers.
- React's batching of state updates and the stale-closure reads of `lines` and `pastLines`: each handler is one atomic transition.
- Stroke identity: strokes are values, and the in-place update of the last stroke object (line 104) and of the `lines` array (line 105) is modelled as replacing the last element. No stroke object is ever in the drawing and the redo buffer at the same time, so no other part of the state shares it.
- `saveFile` and `sharePrev`: host callbacks that export and share the image over the network.
- The `test` console dump (lines 115-118): debug output only.
- The i18n lookup and the slider's `marks` table (lines 35-62): presentation data.
- The smoothing tension 0.5 and the 500 × 500 stage size: floating-point rendering concerns.
- `History.Undo`, `CanvasComponent.Canvas.Undo`: the unguarded handler on an empty drawing, which would push `undefined` into the redo buffer, is not modelled, because its only caller, the undo button, is disabled then (line 154).
- `CanvasComponent.Canvas.SetSize`: widths outside 1 to 20 are not modelled, because the slider, their only source, cannot produce them.
- `src/utils/Router.tsx` is not part of this model: it is a declarative route table whose matching and lazy loading are done by `react-router-dom` and React.
