/**
  The undo/redo history as values: the two arrays `strokes` (what is on the canvas, oldest
  first) and `strokesSave` (the redo stack, most recently undone last), and what each
  button handler does to them and asks of the outside world.
 */
module UndoRedo {
  import opened Ink

  datatype Stacks = Stacks(strokes: seq<Stroke>, strokesSave: seq<Stroke>)

  /** A request to the outside world: recognise these strokes, or blank the result area. */
  datatype Effect = Recognize(components: seq<Stroke>) | ClearResult

  /** The arrays after a handler has run and the request it made, if any. */
  datatype Outcome = Outcome(stacks: Stacks, effect: Option<Effect>)

  const Empty := Stacks([], [])

  /** The requests an outcome appends to the log of requests. */
  function Emitted(e: Option<Effect>): seq<Effect> {
    match e
    case None => []
    case Some(f) => [f]
  }

  /** The undo button: pop from `strokes`, push onto `strokesSave`, then re-recognise what is left or blank the result. */
  function Undo(h: Stacks): (o: Outcome)
    ensures h.strokes == [] ==> o == Outcome(h, None)
    ensures h.strokes != [] ==>
      o.stacks.strokes + [Last(h.strokes)] == h.strokes &&
      o.stacks.strokesSave == h.strokesSave + [Last(h.strokes)]
    ensures h.strokes != [] ==>
      o.effect == Some(if o.stacks.strokes != [] then Recognize(o.stacks.strokes) else ClearResult)
  {
    if |h.strokes| > 1 then
      var s := Stacks(DropLast(h.strokes), h.strokesSave + [Last(h.strokes)]);
      Outcome(s, Some(Recognize(s.strokes)))
    else if |h.strokes| > 0 then
      Outcome(Stacks(DropLast(h.strokes), h.strokesSave + [Last(h.strokes)]), Some(ClearResult))
    else
      Outcome(h, None)
  }

  /** The redo button: pop from `strokesSave`, push onto `strokes`, re-recognise. */
  function Redo(h: Stacks): (o: Outcome)
    ensures h.strokesSave == [] ==> o == Outcome(h, None)
    ensures h.strokesSave != [] ==>
      o.stacks.strokesSave + [Last(h.strokesSave)] == h.strokesSave &&
      o.stacks.strokes == h.strokes + [Last(h.strokesSave)] &&
      o.effect == Some(Recognize(o.stacks.strokes))
  {
    if |h.strokesSave| > 0 then
      var s := Stacks(h.strokes + [Last(h.strokesSave)], DropLast(h.strokesSave));
      Outcome(s, Some(Recognize(s.strokes)))
    else
      Outcome(h, None)
  }

  /** The clear button: both arrays emptied, result blanked, nothing recognised. */
  function Clear(h: Stacks): Outcome {
    Outcome(Empty, Some(ClearResult))
  }

  /** A finished stroke enters the history: appended to `strokes`; the redo stack is dropped. */
  function Commit(h: Stacks, s: Stroke): (r: Stacks)
    ensures r.strokesSave == []
    ensures |r.strokes| == |h.strokes| + 1 && r.strokes[..|h.strokes|] == h.strokes && Last(r.strokes) == s
  {
    Stacks(h.strokes + [s], [])
  }

  /** The sequence read back to front. */
  function Reverse<T>(s: seq<T>): (r: seq<T>)
    ensures |r| == |s|
    ensures forall i :: 0 <= i < |s| ==> r[i] == s[|s| - 1 - i]
  {
    if s == [] then [] else [Last(s)] + Reverse(DropLast(s))
  }

  /**
    Every stroke the history holds, in drawing order: the canvas strokes, then the undone
    ones from the one undone last to the one undone first.
   */
  function Timeline(h: Stacks): seq<Stroke> {
    h.strokes + Reverse(h.strokesSave)
  }

  lemma {:induction false} ReverseMultiset<T>(s: seq<T>)
    ensures multiset(Reverse(s)) == multiset(s)
  {
    if s != [] {
      ReverseMultiset(DropLast(s));
      SplitLast(s);
      assert multiset(s) == multiset(DropLast(s)) + multiset([Last(s)]) by {
        assert s == DropLast(s) + [Last(s)];
      }
    }
  }

  /** Undo moves a stroke from one stack to the other without changing the drawing order or the total count. */
  lemma UndoKeepsTimeline(h: Stacks)
    ensures Timeline(Undo(h).stacks) == Timeline(h)
    ensures |Undo(h).stacks.strokes| + |Undo(h).stacks.strokesSave| == |h.strokes| + |h.strokesSave|
  {
  }

  /** Redo moves a stroke back without changing the drawing order or the total count. */
  lemma RedoKeepsTimeline(h: Stacks)
    ensures Timeline(Redo(h).stacks) == Timeline(h)
    ensures |Redo(h).stacks.strokes| + |Redo(h).stacks.strokesSave| == |h.strokes| + |h.strokesSave|
  {
  }

  /** Undo on a non-empty canvas followed at once by redo gives back both arrays exactly. */
  lemma UndoThenRedo(h: Stacks)
    requires h.strokes != []
    ensures Redo(Undo(h).stacks).stacks == h
    ensures Redo(Undo(h).stacks).effect == Some(Recognize(h.strokes))
  {
  }

  /** Redo with something to redo followed at once by undo gives back both arrays exactly. */
  lemma RedoThenUndo(h: Stacks)
    requires h.strokesSave != []
    ensures Undo(Redo(h).stacks).stacks == h
  {
  }

  /** Clear empties both arrays whatever they held. */
  lemma ClearEmpties(h: Stacks)
    ensures Clear(h).stacks.strokes == [] && Clear(h).stacks.strokesSave == []
    ensures Clear(h).effect == Some(ClearResult)
  {
  }

  /** A click or a finished stroke, as far as the history sees it. */
  datatype Op = CommitOp(stroke: Stroke) | UndoOp | RedoOp | ClearOp

  function Apply(h: Stacks, op: Op): Stacks {
    match op
    case CommitOp(s) => Commit(h, s)
    case UndoOp => Undo(h).stacks
    case RedoOp => Redo(h).stacks
    case ClearOp => Clear(h).stacks
  }

  /** The arrays after the operations, in order, starting from `h`. */
  function Run(h: Stacks, ops: seq<Op>): Stacks
    decreases |ops|
  {
    if ops == [] then h else Run(Apply(h, ops[0]), ops[1..])
  }

  /** The strokes the operations commit, in order. */
  function Committed(ops: seq<Op>): seq<Stroke>
    decreases |ops|
  {
    if ops == [] then []
    else (if ops[0].CommitOp? then [ops[0].stroke] else []) + Committed(ops[1..])
  }

  function Held(h: Stacks): multiset<Stroke> {
    multiset(h.strokes) + multiset(h.strokesSave)
  }

  lemma ApplyInventsNothing(h: Stacks, op: Op)
    ensures Held(Apply(h, op)) <= Held(h) + multiset(Committed([op]))
  {
  }

  /**
    Whatever the operations, every stroke in the two arrays was there at the start or was
    committed, and no stroke is held more often than it was: nothing is duplicated.
   */
  lemma {:induction false} RunInventsNothing(h: Stacks, ops: seq<Op>)
    ensures Held(Run(h, ops)) <= Held(h) + multiset(Committed(ops))
    decreases |ops|
  {
    if ops != [] {
      var h' := Apply(h, ops[0]);
      ApplyInventsNothing(h, ops[0]);
      RunInventsNothing(h', ops[1..]);
      assert Committed(ops) == Committed([ops[0]]) + Committed(ops[1..]);
    }
  }

  /**
    Any run of undo and redo clicks keeps the drawing order and the count of strokes, so
    no stroke is lost or duplicated between the two arrays.
   */
  lemma {:induction false} UndoRedoRunKeepsTimeline(h: Stacks, ops: seq<Op>)
    requires forall i :: 0 <= i < |ops| ==> ops[i] == UndoOp || ops[i] == RedoOp
    ensures Timeline(Run(h, ops)) == Timeline(h)
    ensures Held(Run(h, ops)) == Held(h)
    decreases |ops|
  {
    if ops == [] {
    } else {
      var h' := Apply(h, ops[0]);
      if ops[0] == UndoOp { UndoKeepsTimeline(h); } else { RedoKeepsTimeline(h); }
      UndoRedoRunKeepsTimeline(h', ops[1..]);
      HeldIsTimeline(h);
      HeldIsTimeline(Run(h', ops[1..]));
    }
  }

  lemma HeldIsTimeline(h: Stacks)
    ensures Held(h) == multiset(Timeline(h))
  {
    ReverseMultiset(h.strokesSave);
  }

  /** A commit leaves nothing to redo, from any state: new input invalidates the redo stack. */
  lemma {:induction false} CommitDropsRedo(h: Stacks, ops: seq<Op>, s: Stroke)
    ensures Run(h, ops + [CommitOp(s)]).strokesSave == []
    ensures Redo(Run(h, ops + [CommitOp(s)])).effect == None
    decreases |ops|
  {
    if ops != [] {
      assert (ops + [CommitOp(s)])[1..] == ops[1..] + [CommitOp(s)];
      CommitDropsRedo(Apply(h, ops[0]), ops[1..], s);
    }
  }
}
