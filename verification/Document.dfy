// The document object: the same operations on mutable state, each proved equal
// to its specification function.
module Documents {
  import opened Lines
  import opened Points
  import opened Options
  import opened Splices
  import opened DocModel

  lemma PutInNothing(t: Text, at: nat)
    requires at <= |t|
    ensures t[..at] + [] + t[at..] == t
  {
  }

  class Document {
    var rope: Text
    var undoStack: seq<Entry>
    var redoStack: seq<Entry>
    var pendingUndo: Option<Entry>
    var modified: bool
    var savedDepth: Option<nat>
    var pendingEdit: Option<InputEdit>
    var pendingSpliceCount: nat

    ghost function Value(): Doc
      reads this
    {
      Doc(rope, undoStack, redoStack, pendingUndo, modified, savedDepth, pendingEdit, pendingSpliceCount)
    }

    constructor (text: Text)
      ensures Value() == New(text)
    {
      rope, undoStack, redoStack, pendingUndo := text, [], [], None;
      modified, savedDepth := false, Some(0);
      pendingEdit, pendingSpliceCount := None, 0;
    }

    method NotePendingEdit(start: nat, removedChars: nat, inserted: Text)
      modifies this
      ensures Value() == Note(old(Value()), start, removedChars, inserted)
    {
      var s, e := Min(start, |rope|), Min(start + removedChars, |rope|);
      var edit := EditOf(rope, s, e, inserted);
      pendingSpliceCount := pendingSpliceCount + 1;
      pendingEdit := if pendingSpliceCount == 1 then Some(edit) else None;
    }

    method TakePendingEdit() returns (edit: Option<InputEdit>)
      modifies this
      ensures Value() == TakeEdit(old(Value())).0 && edit == TakeEdit(old(Value())).1
    {
      edit := if pendingSpliceCount == 1 then pendingEdit else None;
      pendingEdit, pendingSpliceCount := None, 0;
    }

    /** Record one primitive splice, before the rope changes. */
    method RecordSpliceBefore(start: nat, removedChars: nat, inserted: Text)
      modifies this
      ensures Value() == RecordSplice(old(Value()), start, removedChars, inserted)
    {
      hide EditOf, Coalesce;
      NotePendingEdit(start, removedChars, inserted);
      if pendingUndo.None? {
        savedDepth := None;
        return;
      }
      var s, e := Min(start, |rope|), Min(start + removedChars, |rope|);
      var sp := Splice(s, rope[s..e], inserted);
      var entry := pendingUndo.value;
      var n := |entry.splices|;
      if n > 0 {
        var merged := Coalesce(entry.splices[n - 1], sp);
        if merged.Some? {
          entry := entry.(splices := entry.splices[..n - 1]);
          if merged.value.removed != [] || merged.value.inserted != [] {
            entry := entry.(splices := entry.splices + [merged.value]);
          }
          pendingUndo := Some(entry);
          return;
        }
      }
      entry := entry.(hi := Max(entry.hi, s), splices := entry.splices + [sp]);
      pendingUndo := Some(entry);
      assert entry.splices == Record(old(pendingUndo).value.splices, sp);
      assert entry == RecordIn(old(pendingUndo).value, sp);
    }

    method DropRedo()
      modifies this
      ensures Value() == ClearRedo(old(Value()))
    {
      if redoStack != [] && savedDepth.Some? && savedDepth.value > |undoStack| {
        savedDepth := None;
      }
      redoStack := [];
    }

    method InsertStrAtChar(charIdx: nat, text: Text)
      modifies this
      ensures Value() == InsertAt(old(Value()), charIdx, text)
    {
      hide RecordSplice, ClearRedo;
      var idx := Min(charIdx, |rope|);
      RecordSpliceBefore(idx, 0, text);
      RecordKeepsText(old(Value()), idx, 0, text);
      rope := rope[..idx] + text + rope[idx..];
      modified := true;
      DropRedo();
    }

    method InsertChar(line: nat, col: nat, ch: char)
      modifies this
      ensures Value() == InsertAt(old(Value()), LineColToChar(old(rope), line, col), [ch])
    {
      InsertStrAtChar(LineColToChar(rope, line, col), [ch]);
    }

    method InsertStr(line: nat, col: nat, text: Text)
      modifies this
      ensures Value() == InsertAt(old(Value()), LineColToChar(old(rope), line, col), text)
    {
      InsertStrAtChar(LineColToChar(rope, line, col), text);
    }

    method DeleteChars(startChar: nat, endChar: nat)
      modifies this
      ensures Value() == DeleteRange(old(Value()), startChar, endChar)
    {
      hide RecordSplice, ClearRedo;
      var s, e := Min(startChar, |rope|), Min(endChar, |rope|);
      if s < e {
        RecordSpliceBefore(s, e - s, []);
        RecordKeepsText(old(Value()), s, e - s, []);
        rope := rope[..s] + rope[e..];
        modified := true;
        DropRedo();
      }
    }

    method DeleteChar(line: nat, col: nat)
      modifies this
      ensures var i := LineColToChar(old(rope), line, col);
              Value() == DeleteRange(old(Value()), i, i + 1)
    {
      var i := LineColToChar(rope, line, col);
      if i < |rope| {
        DeleteChars(i, i + 1);
      }
    }

    method DeleteLine(line: nat)
      modifies this
      ensures var range := LineDeleteRange(old(rope), line);
              Value() == if range.Some? then DeleteRange(old(Value()), range.value.0, range.value.1) else old(Value())
    {
      var range := LineDeleteRange(rope, line);
      if range.Some? {
        DeleteChars(range.value.0, range.value.1);
      }
    }

    method ReplaceLineText(line: nat, newText: Text)
      modifies this
      ensures Value() == ReplaceLine(old(Value()), line, newText)
    {
      hide InsertAt, DeleteRange;
      if line >= LineCount(rope) {
        return;
      }
      var start := LineStart(rope, line);
      var end := start + LineLen(rope, line);
      DeleteChars(start, end);
      InsertStrAtChar(start, newText);
    }

    /** Shift the splices of one entry for a programmatic edit at `at`. */
    method ShiftOne(entry: Entry, at: nat, delta: int) returns (shifted: Entry)
      ensures shifted == ShiftEntry(entry, at, delta)
    {
      if entry.hi < at {
        return entry;
      }
      var hi, i := 0, 0;
      var splices: seq<Splice> := [];
      while i < |entry.splices|
        invariant i <= |entry.splices|
        invariant splices == RemapAll(entry.splices, at, delta)[..i]
        invariant hi == HighestStart(splices)
      {
        var sp := entry.splices[i];
        sp := sp.(start := Remap(sp.start, at, delta));
        hi := Max(hi, sp.start);
        assert (splices + [sp])[..|splices|] == splices;
        splices := splices + [sp];
        i := i + 1;
      }
      assert splices == RemapAll(entry.splices, at, delta);
      shifted := entry.(splices := splices, hi := hi);
    }

    method ShiftStack(stack: seq<Entry>, at: nat, delta: int) returns (shifted: seq<Entry>)
      ensures shifted == ShiftEntries(stack, at, delta)
    {
      hide ShiftEntry;
      shifted := [];
      var i := 0;
      while i < |stack|
        invariant i <= |stack| && |shifted| == i
        invariant forall k :: 0 <= k < i ==> shifted[k] == ShiftEntry(stack[k], at, delta)
      {
        var e := ShiftOne(stack[i], at, delta);
        shifted := shifted + [e];
        i := i + 1;
      }
    }

    method ShiftRecordedSplices(at: nat, delta: int)
      modifies this
      ensures Value() == ShiftRecorded(old(Value()), at, delta)
    {
      hide ShiftEntry, ShiftEntries;
      if pendingUndo.Some? {
        var e := ShiftOne(pendingUndo.value, at, delta);
        pendingUndo := Some(e);
      }
      undoStack := ShiftStack(undoStack, at, delta);
      redoStack := ShiftStack(redoStack, at, delta);
    }

    method InsertStrAtCharNoUndo(charIdx: nat, text: Text)
      modifies this
      ensures Value() == InsertNoUndo(old(Value()), charIdx, text)
    {
      hide EditOf, ShiftRecorded;
      var idx := Min(charIdx, |rope|);
      NotePendingEdit(idx, 0, text);
      rope := rope[..idx] + text + rope[idx..];
      modified := true;
      savedDepth := None;
      ShiftRecordedSplices(idx, |text|);
    }

    method DeleteRangeNoUndo(startChar: nat, endChar: nat)
      modifies this
      ensures Value() == DeleteNoUndo(old(Value()), startChar, endChar)
    {
      hide EditOf, ShiftRecorded;
      var s, e := Min(startChar, |rope|), Min(endChar, |rope|);
      if s < e {
        NotePendingEdit(s, e - s, []);
        rope := rope[..s] + rope[e..];
        modified := true;
        savedDepth := None;
        var gone: int := e - s;
        ShiftRecordedSplices(s, -gone);
      }
    }

    method BeginUndoGroup(line: nat, col: nat) returns (isNew: bool)
      modifies this
      ensures Value() == Begin(old(Value()), line, col) && isNew == old(pendingUndo).None?
    {
      if pendingUndo.Some? {
        return false;
      }
      pendingUndo := Some(Entry([], line, col, 0, 0, 0));
      return true;
    }

    method PushEntry(entry: Entry)
      modifies this
      ensures Value() == PushUndo(old(Value()), entry)
    {
      undoStack := undoStack + [entry];
      ghost var full := Value();
      while |undoStack| > UNDO_CAP
        invariant Evict(Value()) == Evict(full)
      {
        undoStack := undoStack[1..];
        savedDepth := if savedDepth.Some? && savedDepth.value > 0 then Some(savedDepth.value - 1) else None;
      }
    }

    method EndUndoGroup(line: nat, col: nat)
      modifies this
      ensures Value() == End(old(Value()), line, col)
    {
      hide Evict;
      if pendingUndo.None? {
        return;
      }
      var entry := pendingUndo.value;
      pendingUndo := None;
      if entry.splices == [] {
        return;
      }
      PushEntry(entry.(afterLine := line, afterCol := col));
    }

    /** Walk one splice through the rope. */
    method StepSplice(sp: Splice, dir: Dir) returns (ops: seq<AnchorShift>)
      modifies this`rope
      ensures rope == StepText(old(rope), sp, dir) && ops == StepOps(old(rope), sp, dir)
    {
      hide LineOf, ColOf, InsertPoint, Breaks;
      var takeOut, putIn := TakeOut(sp, dir), PutIn(sp, dir);
      var rmEnd := Min(sp.start + |takeOut|, |rope|);
      var rmStart := Min(sp.start, rmEnd);
      ops := [];
      if rmStart < rmEnd {
        ops := [Delete(LineOf(rope, rmStart), ColOf(rope, rmStart), Breaks(rope[rmStart..rmEnd]))];
        rope := rope[..rmStart] + rope[rmEnd..];
      }
      assert rope == Without(old(rope), sp, dir);
      var at := Min(sp.start, |rope|);
      if putIn != [] {
        var p := InsertPoint(rope, at);
        ops := ops + [Insert(p.0, p.1, Breaks(putIn))];
        rope := rope[..at] + putIn + rope[at..];
      } else {
        PutInNothing(rope, at);
      }
    }

    /** Walk a group's splices through the rope, backwards for undo. */
    method ApplySplices(entry: Entry, dir: Dir) returns (ops: seq<AnchorShift>)
      modifies this`rope
      ensures rope == ReplayText(old(rope), entry.splices, dir)
      ensures ops == ReplayOps(old(rope), entry.splices, dir)
    {
      hide StepText, StepOps;
      ops := [];
      var ss := entry.splices;
      if dir.Undo? {
        var n: nat := |ss|;
        assert ss[..n] == ss;
        while n > 0
          invariant n <= |ss|
          invariant UndoText(rope, ss[..n]) == UndoText(old(rope), ss)
          invariant ops + UndoOps(rope, ss[..n]) == UndoOps(old(rope), ss)
        {
          assert ss[..n][..n - 1] == ss[..n - 1];
          var step := StepSplice(ss[n - 1], dir);
          ops := ops + step;
          n := n - 1;
        }
      } else {
        var n: nat := 0;
        while n < |ss|
          invariant n <= |ss|
          invariant rope == RedoText(old(rope), ss[..n])
          invariant ops == RedoOps(old(rope), ss[..n])
        {
          assert ss[..n + 1][..n] == ss[..n];
          var step := StepSplice(ss[n], dir);
          ops := ops + step;
          n := n + 1;
        }
        assert ss[..n] == ss;
      }
    }

    /** One step through the history: the caret to restore and the line shifts
        the editor has to replay. */
    method WalkHistory(dir: Dir) returns (step: Option<(nat, nat, seq<AnchorShift>)>)
      modifies this
      ensures Value() == HistoryStep(old(Value()), dir)
      ensures Stack(old(Value()), dir) == [] ==> step == None
      ensures Stack(old(Value()), dir) != [] ==>
                var caret := HistoryCaret(old(Value()), dir);
                step == Some((caret.0, caret.1, HistoryShifts(old(Value()), dir)))
    {
      hide ReplayText, ReplayOps, Evict;
      var n := if dir.Undo? then |undoStack| else |redoStack|;
      if n == 0 {
        return None;
      }
      var entry: Entry;
      if dir.Undo? {
        entry := undoStack[n - 1];
        undoStack := undoStack[..n - 1];
      } else {
        entry := redoStack[n - 1];
        redoStack := redoStack[..n - 1];
      }
      var shifts := ApplySplices(entry, dir);
      pendingEdit, pendingSpliceCount := None, 2;
      if dir.Undo? {
        redoStack := redoStack + [Mirror(entry)];
      } else {
        PushEntry(Mirror(entry));
      }
      modified := savedDepth != Some(|undoStack|);
      return Some((entry.beforeLine, entry.beforeCol, shifts));
    }

    method MarkSaved()
      modifies this
      ensures Value() == Save(old(Value()))
    {
      modified := false;
      var midGroup := pendingUndo.Some? && pendingUndo.value.splices != [];
      savedDepth := if midGroup then None else Some(|undoStack|);
    }
  }

  lemma RecordKeepsText(d: Doc, start: nat, n: nat, x: Text)
    ensures RecordSplice(d, start, n, x).text == d.text
  {
  }

  /** The range that deleting a whole line removes: the line and its break, or
      the preceding break for a last line that is empty. */
  function LineDeleteRange(t: Text, line: nat): Option<(nat, nat)> {
    if line >= LineCount(t) then None
    else
      var start := LineStart(t, line);
      var end := if line + 1 < LineCount(t) then LineStart(t, line + 1) else |t|;
      if start < end then Some((start, end))
      else if start > 0 then Some((start - 1, start))
      else None
  }
}
