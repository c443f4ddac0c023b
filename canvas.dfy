/**
  The handlers as the page runs them: state changed in place. `Board` holds the two arrays
  shared by the button handlers and the write handlers, and the log of requests made to the
  recognition service and the result area; `Writer` holds the write handlers' closure state.
  Each method is proved against the value model in UndoRedo and Capture.
 */
module Canvas {
  import opened Ink
  import opened UndoRedo
  import opened Capture

  class Board {
    var strokes: seq<Stroke>
    var strokesSave: seq<Stroke>
    /** Every recognition request and every blanking of the result, in order. */
    var effects: seq<Effect>

    function Model(): Stacks
      reads this
    {
      Stacks(strokes, strokesSave)
    }

    ghost predicate Valid()
      reads this
    {
      AllWellFormed(strokes) && AllWellFormed(strokesSave)
    }

    constructor ()
      ensures Valid() && Model() == Empty && effects == []
    {
      strokes, strokesSave, effects := [], [], [];
    }

    method Undo()
      requires Valid()
      modifies this
      ensures Valid()
      ensures Model() == UndoRedo.Undo(old(Model())).stacks
      ensures effects == old(effects) + Emitted(UndoRedo.Undo(old(Model())).effect)
    {
      if |strokes| > 1 {
        var s := Last(strokes);
        strokes := DropLast(strokes);
        strokesSave := strokesSave + [s];
        effects := effects + [Recognize(strokes)];
      } else if |strokes| > 0 {
        var s := Last(strokes);
        strokes := DropLast(strokes);
        strokesSave := strokesSave + [s];
        effects := effects + [ClearResult];
      }
    }

    method Redo()
      requires Valid()
      modifies this
      ensures Valid()
      ensures Model() == UndoRedo.Redo(old(Model())).stacks
      ensures effects == old(effects) + Emitted(UndoRedo.Redo(old(Model())).effect)
    {
      if |strokesSave| > 0 {
        var s := Last(strokesSave);
        strokesSave := DropLast(strokesSave);
        strokes := strokes + [s];
        effects := effects + [Recognize(strokes)];
      }
    }

    method Clear()
      requires Valid()
      modifies this
      ensures Valid()
      ensures Model() == UndoRedo.Clear(old(Model())).stacks
      ensures effects == old(effects) + Emitted(UndoRedo.Clear(old(Model())).effect)
    {
      while |strokes| != 0
        invariant strokes <= old(strokes)
        invariant effects == old(effects)
        decreases |strokes|
      {
        strokes := DropLast(strokes);
      }
      while |strokesSave| != 0
        invariant strokes == [] && effects == old(effects)
        decreases |strokesSave|
      {
        strokesSave := DropLast(strokesSave);
      }
      effects := effects + [ClearResult];
    }
  }

  class Writer {
    /** The arrays handed to the write handlers when they are installed. */
    const board: Board
    var drawing: bool
    var stroke: Option<Stroke>
    var lastX: Option<Coord>
    var lastY: Option<Coord>

    function Pen(): Capture.Pen
      reads this
    {
      Capture.Pen(drawing, stroke, lastX, lastY)
    }

    ghost predicate Valid()
      reads this, board
    {
      PenInv(Pen()) && board.Valid()
    }

    constructor (board: Board)
      requires board.Valid()
      ensures Valid() && this.board == board && Pen() == Idle
    {
      this.board := board;
      drawing, stroke, lastX, lastY := false, None, None, None;
    }

    method Start(x: Coord, y: Coord)
      requires Valid()
      modifies this
      ensures Valid()
      ensures Pen() == Capture.Start(old(Pen()), x, y)
    {
      stroke := Some(NewStroke(x, y));
      lastX, lastY := Some(x), Some(y);
      drawing := true;
    }

    method Move(x: Coord, y: Coord)
      requires Valid()
      modifies this
      ensures Valid()
      ensures Pen() == Capture.Move(old(Pen()), x, y)
    {
      if drawing {
        stroke := Some(Extend(stroke.value, x, y));
        lastX, lastY := Some(x), Some(y);
      }
    }

    method End()
      requires Valid()
      modifies this, board
      ensures Valid()
      ensures Pen() == Capture.End(old(Pen()), old(board.Model())).0
      ensures board.Model() == Capture.End(old(Pen()), old(board.Model())).1.stacks
      ensures board.effects == old(board.effects) + Emitted(Capture.End(old(Pen()), old(board.Model())).1.effect)
    {
      if drawing {
        drawing := false;
        board.strokes := board.strokes + [stroke.value];
        while |board.strokesSave| != 0
          modifies board`strokesSave
          decreases |board.strokesSave|
        {
          board.strokesSave := DropLast(board.strokesSave);
        }
        board.effects := board.effects + [Recognize(board.strokes)];
      }
    }
  }

  /** Pointer up before any pointer down, then drawing A and B: what a page can rely on from the contracts alone. */
  method DrawTwoStrokes(xa: Coord, ya: Coord, xa': Coord, ya': Coord, xb: Coord, yb: Coord)
  {
    var board := new Board();
    var writer := new Writer(board);
    writer.End();
    assert board.Model() == Empty && board.effects == [];
    writer.Start(xa, ya);
    writer.Move(xa', ya');
    writer.End();
    var a := Extend(NewStroke(xa, ya), xa', ya');
    assert board.strokes == [a] && board.effects == [Recognize([a])];
    writer.Start(xb, yb);
    writer.End();
    var b := NewStroke(xb, yb);
    assert board.Model() == Stacks([a, b], []) && Last(board.effects) == Recognize([a, b]);
  }

  /** Undo, undo, undo, redo, clear on a canvas holding A and B. */
  method UndoRedoClear(board: Board, a: Stroke, b: Stroke)
    requires board.Valid() && board.Model() == Stacks([a, b], []) && board.effects == []
    modifies board
  {
    board.Undo();
    assert board.Model() == Stacks([a], [b]);
    board.Undo();
    assert board.Model() == Stacks([], [b, a]) && board.effects == [Recognize([a]), ClearResult];
    board.Undo();
    assert board.Model() == Stacks([], [b, a]) && |board.effects| == 2;
    board.Redo();
    assert board.Model() == Stacks([a], [b]) && Last(board.effects) == Recognize([a]);
    board.Clear();
    assert board.Model() == Empty && Last(board.effects) == ClearResult;
  }
}
