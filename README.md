# Stroke capture and undo/redo history of the MyScript equation demo

The demo page lets a user write an equation by hand on a canvas. Each finished stroke is
sent to a remote recognition service, and the returned formula is shown on the page. This
project models the part of `myScriptMethods.js` that holds state:

- **Capture.** The write handlers (`methods.start`, `move`, `end` in `addWriteHandlers`)
  keep a `drawing` flag, the open `stroke` and the last point `lastX`/`lastY`.
  - Pointer down opens a one-point stroke.
  - Pointer move appends a point, but only while drawing.
  - Pointer up, while drawing, does three things: it commits the stroke to `strokes`, pops
    `strokesSave` until it is empty, and requests recognition.
- **History.** The button handlers in `controllerButtons` share two arrays: `strokes` (what
  is on the canvas, oldest first) and `strokesSave` (the redo stack).
  - Undo pops `strokes` onto `strokesSave`. It then re-requests recognition if strokes
    remain, and blanks the result otherwise.
  - Redo pops `strokesSave` back onto `strokes` and re-requests recognition.
  - Clear pops both arrays empty and blanks the result.

The model has three layers:

- **Values:** `ink.dfy`, `undo_redo.dfy` and `capture.dfy` describe each handler as a
  function on values. The lemmas live there.
- **Sessions:** `events.dfy` replays any sequence of pointer events and button clicks.
- **In-place state:** `canvas.dfy` has the handlers as methods on two classes.
  - `Board` holds the shared arrays and a log of the requests made.
  - `Writer` holds the closure state of the write handlers.
  - Each method's contract says its new state and the requests it appended, in terms of the
    value model. The source's `while (length != 0) pop()` loops are kept as loops.

Side effects are modelled as values of `Effect`, appended to `Board.effects`:
- `Recognize(strokes)` stands for a call of `recognize` with the strokes at that moment.
- `ClearResult` stands for `$("#result").text("")`.

## Model

| member | source | states |
|---|---|---|
| Ink.Extend | myScriptMethods.js:133-134 | a move adds exactly one x and one y at the end, keeps the earlier points and the tag, and keeps a well-formed stroke well formed |
| Ink.NewStroke | myScriptMethods.js:118-122 | the stroke opened on pointer down is tagged "stroke" and holds exactly the one point given |
| UndoRedo.Undo | myScriptMethods.js:51-69 | on an empty canvas nothing changes and nothing is requested; otherwise the last stroke moves to the end of the redo stack, and recognition is requested exactly when strokes remain afterwards, the result being blanked when none do |
| UndoRedo.Redo | myScriptMethods.js:71-84 | with nothing to redo nothing changes and nothing is requested; otherwise the last undone stroke moves back to the end of the canvas strokes and recognition of the new canvas strokes is requested |
| UndoRedo.Commit | myScriptMethods.js:143-144 | a committed stroke ends up last on the canvas after all earlier strokes, and the redo stack is empty |
| UndoRedo.UndoKeepsTimeline | myScriptMethods.js:51-69 | undo leaves `strokes + reverse(strokesSave)` and the total number of strokes unchanged |
| UndoRedo.RedoKeepsTimeline | myScriptMethods.js:71-84 | redo leaves `strokes + reverse(strokesSave)` and the total number of strokes unchanged |
| UndoRedo.UndoThenRedo | myScriptMethods.js:51-79 | on a non-empty canvas, undo then redo restores both arrays exactly and re-requests recognition of the original strokes |
| UndoRedo.RedoThenUndo | myScriptMethods.js:51-79 | with something to redo, redo then undo restores both arrays exactly |
| UndoRedo.ClearEmpties | myScriptMethods.js:86-93 | clear leaves both arrays empty from any state and blanks the result |
| UndoRedo.UndoRedoRunKeepsTimeline | myScriptMethods.js:51-84 | any sequence of undo and redo clicks keeps the drawing order, and the same multiset of strokes across the two arrays |
| UndoRedo.RunInventsNothing | myScriptMethods.js:51-93 | after any sequence of commits, undos, redos and clears, the two arrays hold no stroke more often than it was held at the start plus committed |
| UndoRedo.CommitDropsRedo | myScriptMethods.js:143-144 | after any history, a commit leaves nothing to redo, so a redo click right after it does nothing |
| Capture.Start | myScriptMethods.js:117-126 | pointer down leaves the pen drawing, with an open stroke whose x list is `[x]` and y list is `[y]`, whatever was open before |
| Capture.Move | myScriptMethods.js:127-138 | while drawing, a move appends exactly one coordinate to each of x and y (equal lengths, never empty); while not drawing it changes nothing |
| Capture.End | myScriptMethods.js:140-149 | while not drawing, pointer up changes nothing and requests nothing; while drawing, it stops drawing, appends the open stroke to `strokes`, empties `strokesSave` and requests recognition of the new `strokes` |
| Capture.EndIdempotent | myScriptMethods.js:169-172 | a second `end` right after one (pointer up is bound on every element) changes nothing and requests nothing |
| Capture.EndWithoutStart | myScriptMethods.js:140-141 | pointer up before any pointer down commits nothing and requests nothing |
| Capture.StartDiscardsOpenStroke | myScriptMethods.js:117-126 | a second pointer down discards the open stroke: the next pointer up commits only the stroke begun last |
| Capture.EndKeepsStrokesWellFormed | myScriptMethods.js:140-147 | every stroke committed is tagged, has as many x as y coordinates and at least one point |
| Events.Handle | myScriptMethods.js:153-190 | each pointer event or click keeps the pen invariant: drawing implies an open stroke, and the last point is that stroke's final point |
| Events.ReplayKeepsInv | myScriptMethods.js:116-150 | for any interleaving of pointer events and clicks, every stroke in either array is well formed |
| Events.DrawUndoRedoScenario | myScriptMethods.js:51-149 | drawing A then B, then undo, undo, redo, gives `[A],[]`, `[A,B],[]`, `[A],[B]`, `[],[B,A]` and `[A],[B]` |
| Canvas.Board.Undo | myScriptMethods.js:51-69 | the in-place undo handler leaves the arrays and the request log as `UndoRedo.Undo` says |
| Canvas.Board.Redo | myScriptMethods.js:71-84 | the in-place redo handler leaves the arrays and the request log as `UndoRedo.Redo` says |
| Canvas.Board.Clear | myScriptMethods.js:86-93 | the two pop loops leave both arrays empty; one blanking of the result is logged |
| Canvas.Writer.constructor | myScriptMethods.js:109-114 | installing the handlers starts idle, with no stroke and no last point, sharing the board's arrays |
| Canvas.Writer.Start | myScriptMethods.js:117-126 | the in-place start handler leaves the pen as `Capture.Start` says and does not touch the arrays |
| Canvas.Writer.Move | myScriptMethods.js:127-138 | the in-place move handler leaves the pen as `Capture.Move` says and does not touch the arrays |
| Canvas.Writer.End | myScriptMethods.js:140-149 | the in-place end handler, with its pop loop, leaves the pen, the arrays and the request log as `Capture.End` says |

## Left out

- `recognize` (myScriptMethods.js:19-41) is left out. It builds the JSON body, attaches the
  API key and makes an HTTP POST with an error callback. The model records only that a request was
  made and which strokes it carried.
- `displayResult` (myScriptMethods.js:97-105) is left out. It appends to the page and runs
  MathJax typesetting.
- `paintStroke`, `init` and the repaint loops in the undo and redo handlers are left out.
  They only draw on the canvas. `lastX`/`lastY` are kept as state, but the line drawing they
  feed is not modelled.
- The button image updates are left out because they are UI state only.
- The `resultTypes` change handler (myScriptMethods.js:45-49) is left out. It reads a
  drop-down and requests recognition.
- Turning event coordinates into canvas coordinates is left out. It subtracts page offsets
  in floating point. Coordinates are opaque `real` values, and no arithmetic is done on them.
- The order in which asynchronous recognition responses arrive is left out. A slower, older
  response can overwrite a newer result. The model is sequential: it records requests, not
  responses.
- Strokes are values, not shared objects. The source pushes points onto `stroke.x` and
  `stroke.y` in place, and `strokes` holds a reference to that object once it is committed.
  A committed stroke is never touched again, though: `move` does nothing until the next
  `start`, which builds a new object. So the aliasing makes no observable difference.
- The canvas strokes and the redo stack together do not always hold every stroke ever
  committed: pointer up empties
  `strokesSave`, so undone strokes are dropped on the next commit. The model follows the
  code. `UndoRedo.RunInventsNothing` proves inclusion: no stroke is invented or duplicated.
  `UndoRedo.UndoRedoRunKeepsTimeline` proves equality for runs of undo and redo alone.
