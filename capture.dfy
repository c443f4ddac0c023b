/**
  Stroke capture as values: the closure state of the write handlers (`drawing`, the open
  `stroke`, the last point `lastX`/`lastY`) and what pointer down, move and up do to it and
  to the shared history.
 */
module Capture {
  import opened Ink
  import opened UndoRedo

  /** `lastX`/`lastY` and `stroke` are undefined until the first pointer down. */
  datatype Pen = Pen(drawing: bool, stroke: Option<Stroke>, lastX: Option<Coord>, lastY: Option<Coord>)

  /** The state when the handlers are installed. */
  const Idle := Pen(false, None, None, None)

  /**
    What start, move and end keep true: while drawing a stroke is open; the current stroke
    is well formed and the last point is its final point.
   */
  predicate PenInv(p: Pen) {
    (p.drawing ==> p.stroke.Some?) &&
    (p.stroke.Some? ==>
      WellFormed(p.stroke.value) &&
      p.lastX == Some(Last(p.stroke.value.x)) && p.lastY == Some(Last(p.stroke.value.y)))
  }

  /** Pointer down: a fresh one-point stroke replaces whatever was open. */
  function Start(p: Pen, x: Coord, y: Coord): (r: Pen)
    ensures PenInv(r) && r.drawing
    ensures r.stroke.Some? && r.stroke.value.x == [x] && r.stroke.value.y == [y]
  {
    Pen(true, Some(NewStroke(x, y)), Some(x), Some(y))
  }

  /** Pointer move: one more point on the open stroke, or nothing at all when not drawing. */
  function Move(p: Pen, x: Coord, y: Coord): (r: Pen)
    requires PenInv(p)
    ensures PenInv(r)
    ensures !p.drawing ==> r == p
    ensures p.drawing ==>
      r.drawing && r.stroke.Some? &&
      r.stroke.value.x == p.stroke.value.x + [x] && r.stroke.value.y == p.stroke.value.y + [y] &&
      r.stroke.value.kind == p.stroke.value.kind
  {
    if p.drawing then
      Pen(p.drawing, Some(Extend(p.stroke.value, x, y)), Some(x), Some(y))
    else
      p
  }

  /**
    Pointer up: when drawing, stop, commit the open stroke, drop the redo stack and ask for
    recognition of all strokes; otherwise nothing happens.
   */
  function End(p: Pen, h: Stacks): (r: (Pen, Outcome))
    requires PenInv(p)
    ensures PenInv(r.0) && !r.0.drawing
    ensures !p.drawing ==> r == (p, Outcome(h, None))
    ensures p.drawing ==>
      r.0.stroke == p.stroke &&
      r.1.stacks.strokes == h.strokes + [p.stroke.value] &&
      r.1.stacks.strokesSave == [] &&
      r.1.effect == Some(Recognize(r.1.stacks.strokes))
  {
    if p.drawing then
      (p.(drawing := false), Outcome(Commit(h, p.stroke.value), Some(Recognize(Commit(h, p.stroke.value).strokes))))
    else
      (p, Outcome(h, None))
  }

  /**
    Pointer up is bound on every element, so one release can run `end` several times: the
    second and later runs change nothing and request nothing.
   */
  lemma EndIdempotent(p: Pen, h: Stacks)
    requires PenInv(p)
    ensures var (p1, o1) := End(p, h); End(p1, o1.stacks) == (p1, Outcome(o1.stacks, None))
  {
  }

  /** Pointer up with no pointer down since the handlers were installed commits nothing. */
  lemma EndWithoutStart(h: Stacks)
    ensures End(Idle, h) == (Idle, Outcome(h, None))
  {
  }

  /**
    A second pointer down before pointer up discards the stroke that was open: the next
    pointer up commits only the stroke begun last.
   */
  lemma StartDiscardsOpenStroke(p: Pen, h: Stacks, x0: Coord, y0: Coord, x: Coord, y: Coord)
    ensures End(Start(Start(p, x0, y0), x, y), h).1.stacks.strokes == h.strokes + [NewStroke(x, y)]
  {
  }

  /** Every committed stroke is well formed: tagged, x and y of equal length, never empty. */
  lemma EndKeepsStrokesWellFormed(p: Pen, h: Stacks)
    requires PenInv(p) && AllWellFormed(h.strokes) && AllWellFormed(h.strokesSave)
    ensures AllWellFormed(End(p, h).1.stacks.strokes) && AllWellFormed(End(p, h).1.stacks.strokesSave)
  {
  }
}
