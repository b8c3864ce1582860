// The edit handed to the incremental parser describes exactly the change since
// it was last asked, for every mutator, or nothing is handed over.
module DocEdits {
  import opened Lines
  import opened Options
  import opened Points
  import opened Splices
  import opened DocModel
  import opened DocHistory

  /** `e` is the replacement of `[s, m)` of `was` by `x`, in bytes and points of
      the old and the new text. */
  ghost predicate DescribesAt(e: InputEdit, was: Text, now: Text, s: nat, m: nat, x: Text) {
    && s <= m <= |was|
    && now == was[..s] + x + was[m..]
    && e.startByte == ByteLen(was[..s]) && e.startPoint == PointOf(was, s)
    && e.oldEndByte == ByteLen(was[..m]) && e.oldEndPoint == PointOf(was, m)
    && e.newEndByte == ByteLen(now[..s + |x|]) && e.newEndPoint == PointOf(now, s + |x|)
  }

  ghost predicate Describes(e: InputEdit, was: Text, now: Text) {
    exists s: nat, m: nat, x: Text :: DescribesAt(e, was, now, s, m, x)
  }

  /** The window since the text was `base`: no edit yet, one that is described
      exactly, or more than one and no description. */
  ghost predicate Window(d: Doc, base: Text) {
    && (d.editCount == 0 ==> d.text == base && d.edit.None?)
    && (d.editCount == 1 ==> d.edit.Some? && Describes(d.edit.value, base, d.text))
    && (d.editCount >= 2 ==> d.edit.None?)
  }

  lemma EditOfDescribes(t: Text, s: nat, m: nat, x: Text)
    requires s <= m <= |t|
    ensures DescribesAt(EditOf(t, s, m, x), t, t[..s] + x + t[m..], s, m, x)
  {
    hide ByteLen, PointOf, AdvancePoint;
    var p, q := t[..s], t[m..];
    var now := p + x + q;
    assert now[..s + |x|] == p + x;
    ByteLenConcat(p, x);
    PointAgrees(p, t[s..], x + q);
    assert p + t[s..] == t && p + (x + q) == now;
    AdvancePointIsPoint(p, x, q);
  }

  /** A point depends only on the text before it. */
  lemma PointAgrees(p: Text, a: Text, b: Text)
    ensures PointOf(p + a, |p|) == PointOf(p + b, |p|)
  {
    hide PointOf, Breaks, ByteTail;
    PointOfPrefix(p + a, |p|);
    PointOfPrefix(p + b, |p|);
    assert (p + a)[..|p|] == p && (p + b)[..|p|] == p;
  }

  /** One noted replacement moves the window on. */
  lemma NoteMovesWindow(d: Doc, base: Text, s: nat, m: nat, x: Text, d': Doc)
    requires Window(d, base) && s <= m <= |d.text|
    requires d'.text == d.text[..s] + x + d.text[m..]
    requires d'.edit == Note(d, s, m - s, x).edit && d'.editCount == Note(d, s, m - s, x).editCount
    ensures Window(d', base)
  {
    hide DescribesAt, EditOf;
    if d.editCount == 0 {
      EditOfDescribes(d.text, s, m, x);
    }
  }

  lemma InsertMovesWindow(d: Doc, base: Text, at: nat, x: Text)
    requires Window(d, base)
    ensures Window(InsertAt(d, at, x), base)
  {
    hide Window, Note;
    var i := Min(at, |d.text|);
    NoteMovesWindow(d, base, i, i, x, InsertAt(d, at, x));
  }

  lemma DeleteMovesWindow(d: Doc, base: Text, start: nat, end: nat)
    requires Window(d, base)
    ensures Window(DeleteRange(d, start, end), base)
  {
    hide Window, Note;
    var s, e := Min(start, |d.text|), Min(end, |d.text|);
    if s < e {
      assert d.text[..s] + [] == d.text[..s];
      NoteMovesWindow(d, base, s, e, [], DeleteRange(d, start, end));
    }
  }

  lemma InsertNoUndoMovesWindow(d: Doc, base: Text, at: nat, x: Text)
    requires Window(d, base)
    ensures Window(InsertNoUndo(d, at, x), base)
  {
    hide Window, Note, ShiftEntry, ShiftEntries;
    var i := Min(at, |d.text|);
    NoteMovesWindow(d, base, i, i, x, InsertNoUndo(d, at, x));
  }

  lemma DeleteNoUndoMovesWindow(d: Doc, base: Text, start: nat, end: nat)
    requires Window(d, base)
    ensures Window(DeleteNoUndo(d, start, end), base)
  {
    hide Window, Note, ShiftEntry, ShiftEntries;
    var s, e := Min(start, |d.text|), Min(end, |d.text|);
    if s < e {
      assert d.text[..s] + [] == d.text[..s];
      NoteMovesWindow(d, base, s, e, [], DeleteNoUndo(d, start, end));
    }
  }

  lemma ReplaceLineMovesWindow(d: Doc, base: Text, line: nat, x: Text)
    requires Window(d, base)
    ensures Window(ReplaceLine(d, line, x), base)
  {
    hide InsertAt, DeleteRange, Window, LineStart, LineLen;
    if line < LineCount(d.text) {
      var s, n := LineStart(d.text, line), LineLen(d.text, line);
      DeleteMovesWindow(d, base, s, s + n);
      InsertMovesWindow(DeleteRange(d, s, s + n), base, s, x);
    }
  }

  /** Undo and redo close the window to any edit. */
  lemma HistoryStepMovesWindow(d: Doc, base: Text, dir: Dir)
    requires Window(d, base)
    ensures Window(HistoryStep(d, dir), base)
    ensures Stack(d, dir) != [] ==> HistoryStep(d, dir).editCount == 2
  {
    hide Describes, ReplayText;
  }

  lemma GroupingKeepsWindow(d: Doc, base: Text, op: Op)
    requires Window(d, base) && (op.OpBegin? || op.OpEnd? || op.OpSave? || op.OpTakeEdit?)
    ensures Window(Apply(d, op), if op.OpTakeEdit? then d.text else base)
  {
    hide Describes;
  }

  lemma StepMovesWindow(d: Doc, base: Text, op: Op)
    requires Window(d, base)
    ensures Window(Apply(d, op), if op.OpTakeEdit? then d.text else base)
  {
    hide Window, InsertAt, DeleteRange, ReplaceLine, InsertNoUndo, DeleteNoUndo, HistoryStep;
    match op
    case OpInsert(at, x) => InsertMovesWindow(d, base, at, x);
    case OpDelete(s, e) => DeleteMovesWindow(d, base, s, e);
    case OpReplaceLine(l, x) => ReplaceLineMovesWindow(d, base, l, x);
    case OpInsertNoUndo(at, x) => InsertNoUndoMovesWindow(d, base, at, x);
    case OpDeleteNoUndo(s, e) => DeleteNoUndoMovesWindow(d, base, s, e);
    case OpStep(dir) => HistoryStepMovesWindow(d, base, dir);
    case _ => GroupingKeepsWindow(d, base, op);
  }

  /** The text when the window was last taken, or `base` if it was not. */
  function LastTaken(d: Doc, base: Text, ops: seq<Op>): Text
    decreases |ops|
  {
    if ops == [] then base
    else LastTaken(Apply(d, ops[0]), if ops[0].OpTakeEdit? then d.text else base, ops[1..])
  }

  lemma {:induction false} RunKeepsWindow(d: Doc, base: Text, ops: seq<Op>)
    requires Window(d, base)
    ensures Window(Run(d, ops), LastTaken(d, base, ops))
    decreases |ops|
  {
    hide Window, Apply;
    if ops != [] {
      StepMovesWindow(d, base, ops[0]);
      RunKeepsWindow(Apply(d, ops[0]), if ops[0].OpTakeEdit? then d.text else base, ops[1..]);
    }
  }

  /** After any run of any operations, an edit handed over describes exactly the
      change from the text of the previous hand-over to the current text. */
  lemma TakenEditIsExact(text: Text, ops: seq<Op>)
    ensures var d := Run(New(text), ops);
            TakeEdit(d).1.Some? ==> Describes(TakeEdit(d).1.value, LastTaken(New(text), text, ops), d.text)
  {
    hide Run, LastTaken, Describes;
    RunKeepsWindow(New(text), text, ops);
  }

  /** Nothing is handed over for a window that undo or redo moved in. */
  lemma {:induction false} HistoryYieldsNoEdit(d: Doc, dir: Dir, ops: seq<Op>)
    requires Stack(d, dir) != []
    requires forall op :: op in ops ==> !op.OpTakeEdit?
    ensures TakeEdit(Run(HistoryStep(d, dir), ops)).1 == None
  {
    hide ReplayText;
    StaysSpoiled(HistoryStep(d, dir), ops);
  }

  lemma {:induction false} StaysSpoiled(d: Doc, ops: seq<Op>)
    requires d.editCount >= 2
    requires forall op :: op in ops ==> !op.OpTakeEdit?
    ensures Run(d, ops).editCount >= 2
    decreases |ops|
  {
    hide Apply;
    if ops != [] {
      CountGrows(d, ops[0]);
      StaysSpoiled(Apply(d, ops[0]), ops[1..]);
    }
  }

  lemma EditGrowsCount(d: Doc, a: nat, b: nat, x: Text)
    requires d.editCount >= 2
    ensures InsertAt(d, a, x).editCount >= 2 && DeleteRange(d, a, b).editCount >= 2
    ensures InsertNoUndo(d, a, x).editCount >= 2 && DeleteNoUndo(d, a, b).editCount >= 2
  {
    hide EditOf, RecordIn, ShiftEntry, ShiftEntries;
  }

  lemma CountGrows(d: Doc, op: Op)
    requires d.editCount >= 2 && !op.OpTakeEdit?
    ensures Apply(d, op).editCount >= 2
  {
    hide InsertAt, DeleteRange, InsertNoUndo, DeleteNoUndo, ReplayText, LineStart, LineLen;
    match op
    case OpInsert(at, x) => EditGrowsCount(d, at, at, x);
    case OpDelete(s, e) => EditGrowsCount(d, s, e, []);
    case OpReplaceLine(l, x) =>
      var s := LineStart(d.text, l);
      EditGrowsCount(d, s, s + LineLen(d.text, l), x);
      EditGrowsCount(DeleteRange(d, s, s + LineLen(d.text, l)), s, s, x);
    case OpInsertNoUndo(at, x) => EditGrowsCount(d, at, at, x);
    case OpDeleteNoUndo(s, e) => EditGrowsCount(d, s, e, []);
    case _ =>
  }

  // --- When an edit is handed over ---

  /** How many replacements of text an operation makes. */
  function Replacements(d: Doc, op: Op): nat {
    match op
    case OpInsert(_, _) => 1
    case OpInsertNoUndo(_, _) => 1
    case OpDelete(s, e) => if Min(s, |d.text|) < Min(e, |d.text|) then 1 else 0
    case OpDeleteNoUndo(s, e) => if Min(s, |d.text|) < Min(e, |d.text|) then 1 else 0
    case OpReplaceLine(l, _) => if l >= LineCount(d.text) then 0 else if LineLen(d.text, l) > 0 then 2 else 1
    case _ => 0
  }

  /** Replacements since the window was last taken, from `n` on; a history step
      counts for more than one. */
  function Since(d: Doc, n: nat, ops: seq<Op>): nat
    decreases |ops|
  {
    if ops == [] then n
    else
      var op := ops[0];
      var m := if op.OpTakeEdit? then 0
               else if op.OpStep? && Stack(d, op.dir) != [] then 2
               else n + Replacements(d, op);
      Since(Apply(d, op), m, ops[1..])
  }

  lemma PrimitiveCounts(d: Doc, a: nat, b: nat, x: Text)
    ensures InsertAt(d, a, x).editCount == InsertNoUndo(d, a, x).editCount == d.editCount + 1
    ensures var n := if Min(a, |d.text|) < Min(b, |d.text|) then 1 else 0;
            DeleteRange(d, a, b).editCount == DeleteNoUndo(d, a, b).editCount == d.editCount + n
  {
    hide EditOf, RecordIn, ShiftEntry, ShiftEntries;
  }

  lemma OpCounts(d: Doc, op: Op)
    requires !op.OpTakeEdit? && !(op.OpStep? && Stack(d, op.dir) != [])
    ensures Apply(d, op).editCount == d.editCount + Replacements(d, op)
  {
    hide InsertAt, DeleteRange, InsertNoUndo, DeleteNoUndo, ReplayText, LineStart, LineLen;
    match op
    case OpInsert(at, x) => PrimitiveCounts(d, at, at, x);
    case OpDelete(s, e) => PrimitiveCounts(d, s, e, []);
    case OpReplaceLine(l, x) =>
      if l < LineCount(d.text) {
        var s := LineStart(d.text, l);
        var e := s + LineLen(d.text, l);
        LineLenBounds(d.text, l);
        PrimitiveCounts(d, s, e, x);
        PrimitiveCounts(DeleteRange(d, s, e), s, e, x);
      }
    case OpInsertNoUndo(at, x) => PrimitiveCounts(d, at, at, x);
    case OpDeleteNoUndo(s, e) => PrimitiveCounts(d, s, e, []);
    case _ =>
  }

  lemma {:induction false} RunCounts(d: Doc, ops: seq<Op>)
    ensures Run(d, ops).editCount == Since(d, d.editCount, ops)
    decreases |ops|
  {
    hide Apply, Replacements;
    if ops != [] {
      var op := ops[0];
      if op.OpTakeEdit? || (op.OpStep? && Stack(d, op.dir) != []) {
        ResetCounts(d, op);
      } else {
        OpCounts(d, op);
      }
      RunCounts(Apply(d, op), ops[1..]);
    }
  }

  lemma ResetCounts(d: Doc, op: Op)
    requires op.OpTakeEdit? || (op.OpStep? && Stack(d, op.dir) != [])
    ensures Apply(d, op).editCount == if op.OpTakeEdit? then 0 else 2
  {
    hide ReplayText;
  }

  /** After any run an edit is handed over exactly if there was one replacement
      of text, and no history step, since the previous hand-over. */
  lemma EditIsHandedOver(text: Text, ops: seq<Op>)
    ensures TakeEdit(Run(New(text), ops)).1.Some? <==> Since(New(text), 0, ops) == 1
  {
    hide Run, LastTaken, Since, Describes;
    RunKeepsWindow(New(text), text, ops);
    RunCounts(New(text), ops);
  }
}
