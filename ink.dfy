/** Values shared by the capture handlers and the undo/redo buttons: strokes and their points. */
module Ink {

  /** A coordinate relative to the canvas. The model never computes with it. */
  type Coord = real

  datatype Option<T> = None | Some(value: T)

  /** The discriminator every stroke object carries (`"type": "stroke"`). */
  const StrokeTag: string := "stroke"

  /** One pen or touch gesture: a tag and two parallel coordinate lists. */
  datatype Stroke = Stroke(kind: string, x: seq<Coord>, y: seq<Coord>)

  /** A stroke as the capture handlers build it: tagged, with as many x as y, and at least one point. */
  predicate WellFormed(s: Stroke) {
    s.kind == StrokeTag && |s.x| == |s.y| && |s.x| >= 1
  }

  predicate AllWellFormed(ss: seq<Stroke>) {
    forall i :: 0 <= i < |ss| ==> WellFormed(ss[i])
  }

  /** The one-point stroke opened on pointer down. */
  function NewStroke(x: Coord, y: Coord): (s: Stroke)
    ensures WellFormed(s)
    ensures s.x[0] == x && s.y[0] == y && |s.x| == 1
  {
    Stroke(StrokeTag, [x], [y])
  }

  /** The stroke with one more point at its end (the two `push` calls of a move). */
  function Extend(s: Stroke, x: Coord, y: Coord): (r: Stroke)
    ensures WellFormed(s) ==> WellFormed(r)
    ensures |r.x| == |s.x| + 1 && |r.y| == |s.y| + 1
    ensures r.kind == s.kind && r.x[..|s.x|] == s.x && r.y[..|s.y|] == s.y
    ensures r.x[|s.x|] == x && r.y[|s.y|] == y
  {
    Stroke(s.kind, s.x + [x], s.y + [y])
  }

  function Last<T>(s: seq<T>): T
    requires |s| > 0
  {
    s[|s| - 1]
  }

  /** What is left of a JavaScript array after `pop()`. */
  function DropLast<T>(s: seq<T>): seq<T>
    requires |s| > 0
  {
    s[..|s| - 1]
  }

  lemma SplitLast<T>(s: seq<T>)
    requires |s| > 0
    ensures DropLast(s) + [Last(s)] == s
  {
  }
}
