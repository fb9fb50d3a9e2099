/** Strokes of the drawing canvas: the value that every entry of the drawing
    and of the redo buffer holds, and the blend mode a stroke is painted with. */
module Strokes {

  /** The drawing tool. The component only ever stores 'pen' (the initial
      value) or 'eraser', through the two tool buttons. */
  datatype Tool = Pen | Eraser

  /** Brush widths the size slider can deliver: from 1 to 20, in steps of 1. */
  type Width = w: int | 1 <= w <= 20 witness 5

  /** One stroke. `points` is the flat list x0, y0, x1, y1, ... of the
      pointer positions the stroke passes through, in drawing order. */
  datatype Stroke = Stroke(tool: Tool, points: seq<int>, color: string, size: Width)

  /** A stroke starts as one (x, y) pair and only ever grows by pairs. */
  predicate WellFormed(l: Stroke)
  {
    |l.points| >= 2 && |l.points| % 2 == 0
  }

  /** The positions encoded by a flat point list: pair k is (p[2k], p[2k+1]). */
  function Positions(p: seq<int>): (r: seq<(int, int)>)
    requires |p| % 2 == 0
    ensures 2 * |r| == |p|
    ensures forall k :: 0 <= k < |r| ==> r[k] == (p[2 * k], p[2 * k + 1])
    decreases |p|
  {
    if p == [] then [] else [(p[0], p[1])] + Positions(p[2..])
  }

  /** Appending the pair x, y to a flat point list appends the position
      (x, y) to the stroke's path and leaves the earlier positions alone. */
  lemma {:induction false} PositionsAppend(p: seq<int>, x: int, y: int)
    requires |p| % 2 == 0
    ensures Positions(p + [x, y]) == Positions(p) + [(x, y)]
    decreases |p|
  {
    if p != [] {
      assert (p + [x, y])[2..] == p[2..] + [x, y];
      PositionsAppend(p[2..], x, y);
    }
  }

  /** The canvas compositing mode a stroke is painted with: an eraser cuts
      out what lies underneath, every other stroke paints over it. */
  function CompositeOperation(t: Tool): (op: string)
    ensures op == "destination-out" || op == "source-over"
    ensures op == "destination-out" <==> t == Eraser
  {
    if t == Eraser then "destination-out" else "source-over"
  }
}
