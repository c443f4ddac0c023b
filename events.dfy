/**
  A whole session: pointer events and button clicks in any order, each handled to
  completion before the next, acting on the pen state and the shared history together.
 */
module Events {
  import opened Ink
  import opened UndoRedo
  import opened Capture

  /** Mouse and touch events map onto the same three handlers; the buttons onto the other three. */
  datatype Event =
    | Down(x: Coord, y: Coord)
    | MoveTo(x: Coord, y: Coord)
    | Up
    | UndoClick
    | RedoClick
    | ClearClick

  datatype Session = Session(pen: Pen, history: Stacks)

  const Initial := Session(Idle, Empty)

  predicate SessionInv(s: Session) {
    PenInv(s.pen) && AllWellFormed(s.history.strokes) && AllWellFormed(s.history.strokesSave)
  }

  function Handle(s: Session, e: Event): (r: (Session, Option<Effect>))
    requires PenInv(s.pen)
    ensures PenInv(r.0.pen)
  {
    match e
    case Down(x, y) => (s.(pen := Start(s.pen, x, y)), None)
    case MoveTo(x, y) => (s.(pen := Move(s.pen, x, y)), None)
    case Up =>
      var (p, o) := End(s.pen, s.history);
      (Session(p, o.stacks), o.effect)
    case UndoClick =>
      var o := Undo(s.history);
      (s.(history := o.stacks), o.effect)
    case RedoClick =>
      var o := Redo(s.history);
      (s.(history := o.stacks), o.effect)
    case ClearClick =>
      var o := UndoRedo.Clear(s.history);
      (s.(history := o.stacks), o.effect)
  }

  /** The session after the events, in order. */
  function Replay(s: Session, events: seq<Event>): (r: Session)
    requires PenInv(s.pen)
    ensures PenInv(r.pen)
    decreases |events|
  {
    if events == [] then s else Replay(Handle(s, events[0]).0, events[1..])
  }

  lemma HandleKeepsInv(s: Session, e: Event)
    requires SessionInv(s)
    ensures SessionInv(Handle(s, e).0)
  {
  }

  /**
    Whatever the order of pointer events and clicks, every stroke in either array is
    tagged, has as many x as y coordinates, and has at least one point.
   */
  lemma {:induction false} ReplayKeepsInv(s: Session, events: seq<Event>)
    requires SessionInv(s)
    ensures SessionInv(Replay(s, events))
    decreases |events|
  {
    if events != [] {
      HandleKeepsInv(s, events[0]);
      ReplayKeepsInv(Handle(s, events[0]).0, events[1..]);
    }
  }

  /**
    Draw A, draw B, undo, undo, redo: the canvas holds A and the redo stack holds B.
   */
  lemma DrawUndoRedoScenario()
    ensures
      var a := Extend(NewStroke(0.0, 0.0), 1.0, 1.0);
      var b := NewStroke(2.0, 2.0);
      var s1 := Replay(Initial, [Down(0.0, 0.0), MoveTo(1.0, 1.0), Up]);
      var s2 := Replay(s1, [Down(2.0, 2.0), Up]);
      var s3 := Replay(s2, [UndoClick]);
      var s4 := Replay(s3, [UndoClick]);
      var s5 := Replay(s4, [RedoClick]);
      s1.history == Stacks([a], []) &&
      s2.history == Stacks([a, b], []) &&
      s3.history == Stacks([a], [b]) &&
      s4.history == Stacks([], [b, a]) &&
      s5.history == Stacks([a], [b])
  {
  }
}
