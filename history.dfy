/** The drawing history of the application (scripts/app.js): the committed
    commands and the redo stack, and the three operations that change them.
    The class `Board.App` keeps its fields equal to these functions of its
    old fields; the properties of the engine are proved here, once, about
    the functions. */
module History {
  import opened Drawing
  import Sequences

  /** Both stacks: `history` is `drawingHistory`, `redo` is `redoStack`;
      the top of each is its last element. */
  datatype Stacks = Stacks(history: seq<Command>, redo: seq<Command>)

  /** The state of a freshly constructed application: both stacks empty. */
  function Initial(): Stacks
  {
    Stacks([], [])
  }

  /** `addToHistory`: push the command, clear the redo stack. */
  function Append(s: Stacks, c: Command): Stacks
  {
    Stacks(s.history + [c], [])
  }

  /** `undo`: nothing when the history is empty; otherwise move the top of
      the history onto the redo stack. */
  function Undo(s: Stacks): Stacks
  {
    if |s.history| == 0 then s
    else Stacks(s.history[..|s.history| - 1], s.redo + [s.history[|s.history| - 1]])
  }

  /** `redo`: nothing when the redo stack is empty; otherwise move its top
      back onto the history. */
  function Redo(s: Stacks): Stacks
  {
    if |s.redo| == 0 then s
    else Stacks(s.history + [s.redo[|s.redo| - 1]], s.redo[..|s.redo| - 1])
  }

  /** `updateUndoRedoState`, as the enablement it computes. */
  datatype Buttons = Buttons(undoDisabled: bool, redoDisabled: bool)

  function ButtonState(s: Stacks): Buttons
  {
    Buttons(|s.history| == 0, |s.redo| == 0)
  }

  function Reversed(s: seq<Command>): (r: seq<Command>)
    ensures |r| == |s|
    ensures forall i :: 0 <= i < |s| ==> r[i] == s[|s| - 1 - i]
  {
    if s == [] then [] else Reversed(s[1..]) + [s[0]]
  }

  /** Everything that was drawn and not discarded by a later append, oldest
      first: the history followed by the redo stack read from its top. */
  function Timeline(s: Stacks): seq<Command>
  {
    s.history + Reversed(s.redo)
  }

  /** `addToHistory(c)` extends the history by exactly `c` and empties the
      redo stack, so the buttons show undo enabled and redo disabled. */
  lemma AppendEffect(s: Stacks, c: Command)
    ensures Append(s, c).history == s.history + [c]
    ensures Append(s, c).redo == []
    ensures |Append(s, c).history| + |Append(s, c).redo| == |s.history| + 1
    ensures ButtonState(Append(s, c)) == Buttons(false, true)
  {
  }

  /** Undo on an empty history and redo on an empty redo stack change nothing. */
  lemma NoOpWhenEmpty(s: Stacks)
    ensures s.history == [] ==> Undo(s) == s
    ensures s.redo == [] ==> Redo(s) == s
  {
  }

  /** Undo moves the last command of the history to the top of the redo stack
      and leaves every other command where it was. */
  lemma UndoMovesTop(s: Stacks)
    requires s.history != []
    ensures Undo(s).history + [s.history[|s.history| - 1]] == s.history
    ensures Undo(s).redo == s.redo + [s.history[|s.history| - 1]]
    ensures !ButtonState(Undo(s)).redoDisabled
  {
  }

  /** Redo moves the top of the redo stack to the end of the history. */
  lemma RedoMovesTop(s: Stacks)
    requires s.redo != []
    ensures Redo(s).history == s.history + [s.redo[|s.redo| - 1]]
    ensures Redo(s).redo + [s.redo[|s.redo| - 1]] == s.redo
    ensures !ButtonState(Redo(s)).undoDisabled
  {
  }

  /** Undo followed by redo is the identity on a non-empty history. */
  lemma RedoAfterUndo(s: Stacks)
    requires s.history != []
    ensures Redo(Undo(s)) == s
  {
    var n := |s.history|;
    assert s.history[..n - 1] + [s.history[n - 1]] == s.history;
  }

  /** Redo followed by undo is the identity on a non-empty redo stack. */
  lemma UndoAfterRedo(s: Stacks)
    requires s.redo != []
    ensures Undo(Redo(s)) == s
  {
    var n := |s.redo|;
    assert s.redo[..n - 1] + [s.redo[n - 1]] == s.redo;
  }

  lemma {:induction false} ReversedSnoc(a: seq<Command>, c: Command)
    ensures Reversed(a + [c]) == [c] + Reversed(a)
  {
    if a == [] {
      assert [c][1..] == [];
    } else {
      assert (a + [c])[1..] == a[1..] + [c];
      ReversedSnoc(a[1..], c);
    }
  }

  /** Undo and redo only move commands between the stacks: the timeline, and
      so the total number of commands, is unchanged. Append replaces the
      timeline by the old history plus the new command. */
  lemma TimelineInvariant(s: Stacks, c: Command)
    ensures Timeline(Undo(s)) == Timeline(s)
    ensures Timeline(Redo(s)) == Timeline(s)
    ensures Timeline(Append(s, c)) == s.history + [c]
    ensures |Undo(s).history| + |Undo(s).redo| == |s.history| + |s.redo|
    ensures |Redo(s).history| + |Redo(s).redo| == |s.history| + |s.redo|
  {
    UndoKeepsTimeline(s);
    RedoKeepsTimeline(s);
  }

  lemma UndoKeepsTimeline(s: Stacks)
    ensures Timeline(Undo(s)) == Timeline(s)
  {
    if s.history != [] {
      var n := |s.history|;
      var front, last := s.history[..n - 1], s.history[n - 1];
      ReversedSnoc(s.redo, last);
      assert front + [last] == s.history;
      assert Timeline(Undo(s)) == front + ([last] + Reversed(s.redo));
      assert front + ([last] + Reversed(s.redo)) == (front + [last]) + Reversed(s.redo);
    }
  }

  lemma RedoKeepsTimeline(s: Stacks)
    ensures Timeline(Redo(s)) == Timeline(s)
  {
    if s.redo != [] {
      var m := |s.redo|;
      var rest, top := s.redo[..m - 1], s.redo[m - 1];
      ReversedSnoc(rest, top);
      assert rest + [top] == s.redo;
      assert Timeline(Redo(s)) == (s.history + [top]) + Reversed(rest);
      assert (s.history + [top]) + Reversed(rest) == s.history + ([top] + Reversed(rest));
    }
  }

  /** `k` consecutive undos. */
  function UndoTimes(s: Stacks, k: nat): Stacks
  {
    if k == 0 then s else Undo(UndoTimes(s, k - 1))
  }

  /** `k` consecutive redos. */
  function RedoTimes(s: Stacks, k: nat): Stacks
    decreases k
  {
    if k == 0 then s else RedoTimes(Redo(s), k - 1)
  }

  /** After `k` undos on a history of at least `k` commands, the history has
      lost its last `k` commands and the redo stack has gained them, the last
      command of the history on top. */
  lemma {:induction false} UndoTimesShape(s: Stacks, k: nat)
    requires k <= |s.history|
    ensures UndoTimes(s, k).history == s.history[..|s.history| - k]
    ensures UndoTimes(s, k).redo == s.redo + Reversed(s.history[|s.history| - k..])
  {
    var n := |s.history|;
    if k == 0 {
      assert s.history[n..] == [];
    } else {
      UndoTimesShape(s, k - 1);
      var t := UndoTimes(s, k - 1);
      var top, tail := s.history[n - k], s.history[n - (k - 1)..];
      assert t.history[..n - k] == s.history[..n - k];
      assert t.history[n - k] == top;
      UndoMovesTop(t);
      ReversedCons(s.history[n - k..], top, tail);
      Sequences.Assoc(s.redo, Reversed(tail), [top]);
    }
  }

  /** The history alone shrinks by one command per undo. */
  lemma {:induction false} UndoTimesLength(s: Stacks, k: nat)
    requires k <= |s.history|
    ensures |UndoTimes(s, k).history| == |s.history| - k
  {
    if k > 0 {
      UndoTimesLength(s, k - 1);
    }
  }

  lemma ReversedCons(d: seq<Command>, c: Command, tail: seq<Command>)
    requires |d| >= 1 && d[0] == c && d[1..] == tail
    ensures Reversed(d) == Reversed(tail) + [c]
  {
  }

  /** Any number of undos, up to the length of the history, is undone by the
      same number of redos. */
  lemma {:induction false} RedoTimesAfterUndoTimes(s: Stacks, k: nat)
    requires k <= |s.history|
    ensures RedoTimes(UndoTimes(s, k), k) == s
  {
    if k > 0 {
      UndoTimesLength(s, k - 1);
      var t := UndoTimes(s, k - 1);
      assert t.history != [];
      RedoAfterUndo(t);
      assert RedoTimes(UndoTimes(s, k), k) == RedoTimes(Redo(Undo(t)), k - 1);
      RedoTimesAfterUndoTimes(s, k - 1);
    }
  }

  /** The initial state has both buttons disabled. */
  lemma InitialButtons()
    ensures ButtonState(Initial()) == Buttons(true, true)
    ensures Timeline(Initial()) == []
  {
  }
}
