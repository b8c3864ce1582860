// The editing substrate as an object: the document, the line structures kept in
// step with it, and the guards; each method does what its value-level
// counterpart says.
module Editors {
  import opened Lines
  import opened Options
  import opened Splices
  import DocModel
  import opened Documents
  import opened Ranges
  import opened Anchors
  import C = CoreModel
  import F = FrozenText
  import K = Chunks

  type Tag = C.Tag

  // --- Loops over range lists ---

  method ShiftRangesForInsert(rs: seq<Range>, line: nat, col: nat, n: nat) returns (out: seq<Range>)
    ensures out == ShiftInsert(rs, line, col, n)
  {
    out := [];
    assert rs[..0] == [];
    for i := 0 to |rs|
      invariant out == ShiftInsert(rs[..i], line, col, n)
    {
      assert rs[..i + 1][..i] == rs[..i];
      var r := rs[i];
      if r.e <= line {
        out := out + [r];
      } else if r.s >= line {
        out := out + [Range(r.s + n, r.e + n)];
      } else if col == 0 {
        out := out + [Range(r.s, line), Range(line + n, r.e + n)];
      } else {
        out := out + [r];
      }
    }
    assert rs[..|rs|] == rs;
  }

  method ShiftRangesForDelete(rs: seq<Range>, line: nat, n: nat) returns (out: seq<Range>)
    ensures out == MapDelete(rs, line, n)
  {
    out := [];
    for i := 0 to |rs|
      invariant |out| == i && forall k :: 0 <= k < i ==> out[k] == ShiftOneDelete(rs[k], line, n)
    {
      var r := rs[i];
      if r.s > line {
        r := Range(Sub(r.s, n), Sub(r.e, n));
      }
      out := out + [r];
    }
  }

  method NormalizeRanges(rs: seq<Range>) returns (out: seq<Range>)
    ensures out == Normalize(rs) && Sorted(out)
  {
    out := [];
    assert rs[..0] == [];
    for i := 0 to |rs|
      invariant out == Normalize(rs[..i])
    {
      assert rs[..i + 1][..i] == rs[..i];
      var r := rs[i];
      if r.s < r.e {
        if out != [] && r.s < out[|out| - 1].e {
          out := out[..|out| - 1] + [Grow(out[|out| - 1], r)];
        } else {
          out := out + [r];
        }
      }
    }
    assert rs[..|rs|] == rs;
    NormalizeSorts(rs);
  }

  method MergeRanges(rs: seq<Range>) returns (out: seq<Range>)
    ensures out == Merge(rs)
  {
    out := [];
    assert rs[..0] == [];
    for i := 0 to |rs|
      invariant out == Merge(rs[..i])
    {
      assert rs[..i + 1][..i] == rs[..i];
      var r := rs[i];
      if out != [] && r.s <= out[|out| - 1].e {
        out := out[..|out| - 1] + [Grow(out[|out| - 1], r)];
      } else {
        out := out + [r];
      }
    }
    assert rs[..|rs|] == rs;
  }

  method ShiftBlocksForInsert(rs: seq<Range>, line: nat, n: nat) returns (out: seq<Range>)
    ensures out == C.MapAtomicInsert(rs, line, n)
  {
    out := [];
    for i := 0 to |rs|
      invariant |out| == i && forall k :: 0 <= k < i ==> out[k] == C.ShiftAtomicInsert(rs[k], line, n)
    {
      var r := rs[i];
      if r.s >= line {
        r := Range(r.s + n, r.e + n);
      } else if r.e > line {
        r := Range(r.s, r.e + n);
      }
      out := out + [r];
    }
  }

  /** Forget the tags of dropped anchors. */
  method DropTags(meta: map<nat, Tag>, dropped: seq<nat>) returns (out: map<nat, Tag>)
    ensures out == C.RemoveTags(meta, set a | a in dropped)
  {
    out := meta;
    for i := 0 to |dropped|
      invariant out == C.RemoveTags(meta, set a | a in dropped[..i])
    {
      out := out - {dropped[i]};
    }
    assert dropped[..|dropped|] == dropped;
  }

  // --- The substrate ---

  class EditorCore {
    const document: Document
    const anchors: LineAnchorStore
    var frozenLines: seq<Range>
    var lockLine: nat
    var atomicBlocks: seq<Range>
    var metadata: map<nat, Tag>
    var lastLlmLine: Option<nat>
    var lastLlmOpen: bool

    /** The frozen list is sorted, disjoint and without empty ranges: what the
        binary searches rely on. */
    ghost predicate Valid()
      reads this, anchors
    {
      anchors.Valid() && Sorted(frozenLines)
    }

    ghost function Value(): C.Core
      reads this, anchors, document
    {
      C.Core(document.Value(), frozenLines, lockLine, atomicBlocks, anchors.Value(), metadata, lastLlmLine, lastLlmOpen)
    }

    constructor (text: Text)
      ensures Valid() && fresh(document) && fresh(anchors)
      ensures Value() == C.Core(DocModel.New(text), [], 0, [], EMPTY, map[], None, false)
    {
      document := new Document(text);
      anchors := new LineAnchorStore();
      frozenLines, lockLine, atomicBlocks, metadata, lastLlmLine, lastLlmOpen := [], 0, [], map[], None, false;
    }

    /** Everything line-based moves down by `n` from the normalized position on. */
    method ShiftFrozenAt(line: nat, col: nat, n: nat)
      requires Valid() && n > 0
      modifies this, anchors
      ensures Valid() && Value() == C.ShiftFrozenAt(old(Value()), line, col, n)
    {
      hide Sorted, ShiftInsert, C.MapAtomicInsert;
      ShiftInsertSorted(frozenLines, line, col, n);
      frozenLines := ShiftRangesForInsert(frozenLines, line, col, n);
      if lockLine > line {
        lockLine := lockLine + n;
      }
      atomicBlocks := ShiftBlocksForInsert(atomicBlocks, line, n);
      anchors.ShiftForInsert(line, col, n);
      if lastLlmLine.Some? && lastLlmLine.value >= FirstMoved(line, col) {
        lastLlmLine := Some(lastLlmLine.value + n);
      }
    }

    method ShiftFrozenForDeleteAt(line: nat, col: nat, n: nat)
      requires Valid()
      modifies this, anchors
      ensures Valid() && Value() == C.ShiftFrozenForDeleteAt(old(Value()), line, col, n)
    {
      hide Sorted, MapDelete, Normalize, DeleteLines, DroppedBy;
      if n == 0 {
        return;
      }
      var moved := ShiftRangesForDelete(frozenLines, line, n);
      frozenLines := NormalizeRanges(moved);
      atomicBlocks := ShiftRangesForDelete(atomicBlocks, line, n);
      if lockLine > line {
        lockLine := Sub(lockLine, n);
      }
      ShiftMarksForDelete(line, col, n);
      ShiftTailForDelete(FirstMoved(line, col), line + n, n);
    }

    /** Shift the anchors and forget the tags of those that are dropped. */
    method ShiftMarksForDelete(line: nat, col: nat, n: nat)
      requires anchors.Valid()
      modifies this`metadata, anchors
      ensures anchors.Valid() && anchors.Value() == DeleteLines(old(anchors.Value()), line, col, n)
      ensures metadata == C.RemoveTags(old(metadata), DroppedBy(old(anchors.Value()), line, col, n))
    {
      hide DeleteLines, DroppedBy;
      var dropped := anchors.ShiftForDelete(line, col, n);
      metadata := DropTags(metadata, dropped);
    }

    /** Mirror a delete of the lines `lo..hi` on the cached tail. */
    method ShiftTailForDelete(lo: nat, hi: nat, n: nat)
      requires n <= hi
      modifies this`lastLlmLine, this`lastLlmOpen
      ensures var swallowed := old(lastLlmLine).Some? && lo <= old(lastLlmLine).value <= hi;
              && lastLlmLine == (if swallowed then None
                                 else if old(lastLlmLine).Some? && old(lastLlmLine).value > hi
                                 then Some(old(lastLlmLine).value - n)
                                 else old(lastLlmLine))
              && lastLlmOpen == (old(lastLlmOpen) && !swallowed)
    {
      if lastLlmLine.Some? {
        var llm := lastLlmLine.value;
        if lo <= llm <= hi {
          lastLlmLine, lastLlmOpen := None, false;
        } else if llm > hi {
          lastLlmLine := Some(llm - n);
        }
      }
    }

    method ShiftForInsert(line: nat, col: nat, text: Text)
      requires Valid()
      modifies this, anchors
      ensures Valid() && Value() == C.ShiftForInsert(old(Value()), line, col, text)
    {
      hide Sorted, LineLen, C.ShiftFrozenAt;
      var n := Breaks(text);
      if n == 0 {
        return;
      }
      if col >= LineLen(document.rope, line) {
        ShiftFrozenAt(line + 1, 0, n);
      } else {
        ShiftFrozenAt(line, col, n);
      }
    }

    method ShiftForTypedInsert(line: nat, col: nat, text: Text)
      requires Valid()
      modifies this, anchors
      ensures Valid() && Value() == C.ShiftForTypedInsert(old(Value()), line, col, text)
    {
      hide Sorted, LineLen, C.ShiftFrozenAt, C.LeadLen;
      var n := Breaks(text);
      if n == 0 {
        return;
      }
      if col >= LineLen(document.rope, line) {
        ShiftFrozenAt(line + 1, 0, n);
      } else {
        ShiftFrozenAt(line, col + C.LeadLen(text), n);
      }
    }

    method ShiftForDelete(s: nat, e: nat)
      requires Valid()
      modifies this, anchors
      ensures Valid() && Value() == C.ShiftForDelete(old(Value()), s, e)
    {
      hide Sorted, LineOf, ColOf, Breaks, C.ShiftFrozenForDeleteAt;
      var end := Min(e, |document.rope|);
      if s >= end {
        return;
      }
      ShiftFrozenForDeleteAt(LineOf(document.rope, s), ColOf(document.rope, s), Breaks(document.rope[s..end]));
    }

    method AddFrozenLines(start: nat, end: nat)
      requires Valid()
      modifies this`frozenLines
      ensures Valid() && Value() == K.Freeze(old(Value()), start, end)
    {
      hide Sorted, Merge, InsertByStart;
      if start >= end {
        return;
      }
      AddSorts(frozenLines, start, end);
      frozenLines := MergeRanges(InsertByStart(frozenLines, Range(start, end)));
    }

    method IsFrozenLine(line: nat) returns (b: bool)
      requires Valid()
      ensures b == C.IsFrozen(Value(), line)
    {
      hide Sorted, Covers;
      var r := RangeContaining(frozenLines, line);
      b := r.Found?;
    }

    method CanInsertCharAt(line: nat, col: nat, ch: char) returns (b: bool)
      requires Valid() && Sorted(atomicBlocks)
      ensures b == C.CanInsertCharAt(Value(), line, col, ch)
    {
      hide Sorted, Covers, LineLen, BlockAt;
      if line < lockLine {
        return false;
      }
      var frozen := IsFrozenLine(line);
      if !frozen {
        return true;
      }
      if ch != '\n' {
        return false;
      }
      var atStart, atEnd := col == 0, col >= LineLen(document.rope, line);
      if !(atStart || atEnd) {
        return false;
      }
      var block := RangeContaining(atomicBlocks, line);
      if block.Found? {
        return (atStart && line == block.r.s) || (atEnd && line + 1 == block.r.e);
      }
      b := true;
    }

    method CanDeleteRange(s: nat, e: nat) returns (b: bool)
      requires Valid()
      ensures b == C.CanDeleteRange(Value(), s, e)
    {
      hide Sorted, Covers, LineOf, Meets;
      if s >= e {
        return true;
      }
      var rope := document.rope;
      var startLine := LineOf(rope, Min(s, |rope|));
      if startLine < lockLine {
        return false;
      }
      var end := Min(e, |rope|);
      if s >= end {
        var frozen := IsFrozenLine(startLine);
        return !frozen;
      }
      C.LinesGrow(rope, s, end);
      var hi := LineOf(rope, end - 1);
      if rope[end - 1] == '\n' && hi + 1 < LineCount(rope) {
        hi := hi + 1;
      }
      var overlap := RangesOverlap(frozenLines, startLine, hi);
      b := !overlap;
    }

    /** Replay a history step's shifts, then rejoin what they split. */
    method ApplyAnchorShifts(ops: seq<AnchorShift>)
      requires Valid()
      modifies this, anchors
      ensures Valid() && Value() == C.ReplayShifts(old(Value()), ops)
    {
      hide Sorted, Merge, C.ApplyShift;
      ghost var start := Value();
      assert ops[..0] == [];
      var i := 0;
      while i < |ops|
        invariant i <= |ops| && Valid()
        invariant C.ApplyShifts(start, ops) == C.ApplyShifts(Value(), ops[i..])
      {
        assert ops[i..][1..] == ops[i + 1..];
        ApplyOne(ops[i]);
        i := i + 1;
      }
      F.ReplayKeepsSorted(Value(), []);
      CanonicalIsSorted(Merge(frozenLines));
      frozenLines := MergeRanges(frozenLines);
      lastLlmLine, lastLlmOpen := None, false;
    }

    method ApplyOne(op: AnchorShift)
      requires Valid()
      modifies this, anchors
      ensures Valid() && Value() == C.ApplyShift(old(Value()), op)
    {
      hide Sorted, C.ShiftFrozenAt, C.ShiftFrozenForDeleteAt;
      match op
      case Insert(line, col, nl) =>
        if nl > 0 {
          ShiftFrozenAt(line, col, nl);
        }
      case Delete(line, col, nl) => ShiftFrozenForDeleteAt(line, col, nl);
    }

    // --- The user's edits, once guarded ---

    method Insert(line: nat, col: nat, text: Text)
      requires Valid()
      modifies this, anchors, document
      ensures Valid() && Value() == C.Do(old(Value()), C.PInsert(line, col, text))
    {
      hide Sorted, C.ShiftForInsert, DocModel.InsertAt, LineColToChar;
      ShiftForInsert(line, col, text);
      document.InsertStr(line, col, text);
    }

    method InsertTyped(line: nat, col: nat, text: Text)
      requires Valid()
      modifies this, anchors, document
      ensures Valid() && Value() == C.Do(old(Value()), C.PTyped(line, col, text))
    {
      hide Sorted, C.ShiftForTypedInsert, DocModel.InsertAt, LineColToChar;
      var i := LineColToChar(document.rope, line, col);
      ShiftForTypedInsert(line, col, text);
      document.InsertStrAtChar(i, text);
    }

    method Delete(s: nat, e: nat)
      requires Valid()
      modifies this, anchors, document
      ensures Valid() && Value() == C.Do(old(Value()), C.PDelete(s, e))
    {
      hide Sorted, C.ShiftForDelete, DocModel.DeleteRange;
      ShiftForDelete(s, e);
      document.DeleteChars(s, e);
    }

    method OpenGroup(line: nat, col: nat) returns (isNew: bool)
      requires Valid()
      modifies document
      ensures Valid() && Value() == C.Do(old(Value()), C.PBegin(line, col)) && isNew == old(document.pendingUndo).None?
    {
      isNew := document.BeginUndoGroup(line, col);
    }

    method CloseGroup(line: nat, col: nat)
      requires Valid()
      modifies document
      ensures Valid() && Value() == C.Do(old(Value()), C.PEnd(line, col))
    {
      hide DocModel.End;
      document.EndUndoGroup(line, col);
    }

    /** Undo or redo a group and replay its line shifts; where the caret was. */
    method StepHistory(dir: Dir) returns (caret: Option<(nat, nat)>)
      requires Valid()
      modifies this, anchors, document
      ensures Valid() && Value() == C.Step(old(Value()), dir)
      ensures var d := old(document.Value());
              caret == if DocModel.Stack(d, dir) == [] then None else Some(DocModel.HistoryCaret(d, dir))
    {
      hide Sorted, C.ReplayShifts, DocModel.HistoryStep;
      var step := document.WalkHistory(dir);
      if step.None? {
        NoStep(old(document.Value()), dir);
        return None;
      }
      ApplyAnchorShifts(step.value.2);
      caret := Some((step.value.0, step.value.1));
    }

    // --- Programmatic splices and tags ---

    method ProgrammaticInsert(at: nat, text: Text)
      requires Valid()
      modifies this, anchors, document
      ensures Valid() && Value() == K.InsertText(old(Value()), at, text)
    {
      hide Sorted, C.ShiftForInsert, DocModel.InsertNoUndo, LineOf, ColOf;
      var i := Min(at, |document.rope|);
      ShiftForInsert(LineOf(document.rope, i), ColOf(document.rope, i), text);
      document.InsertStrAtCharNoUndo(at, text);
    }

    method ProgrammaticDelete(start: nat, end: nat)
      requires Valid()
      modifies this, anchors, document
      ensures Valid() && Value() == K.DeleteText(old(Value()), start, end)
    {
      hide Sorted, C.ShiftForDelete, DocModel.DeleteNoUndo;
      var s, e := Min(start, |document.rope|), Min(end, |document.rope|);
      if s >= e {
        return;
      }
      ShiftForDelete(s, e);
      document.DeleteRangeNoUndo(s, e);
    }

    /** Tag a line, anchoring it if need be. */
    method TagLine(line: nat, tag: Tag)
      requires Valid()
      modifies this`metadata, anchors
      ensures Valid() && Proper(old(anchors.Value())) && Value() == K.TagLine(old(Value()), line, tag)
    {
      hide Sorted;
      ProperOfInverse(anchors);
      AllocateKeepsProper(anchors.Value(), line);
      var a := anchors.AllocateFor(line);
      metadata := metadata[a := tag];
    }

    method TagLines(start: nat, end: nat, tag: Tag)
      requires Valid()
      modifies this`metadata, anchors
      ensures Valid() && Proper(old(anchors.Value())) && Value() == K.TagLines(old(Value()), start, end, tag)
    {
      hide Sorted, K.TagLine, Proper;
      ProperOfInverse(anchors);
      ghost var before := Value();
      var l := start;
      while l < end
        invariant Valid() && Proper(anchors.Value())
        invariant unchanged(this`frozenLines, this`lockLine, this`atomicBlocks, this`lastLlmLine, this`lastLlmOpen)
        invariant unchanged(document)
        invariant K.TagLines(before, start, end, tag) == K.TagLines(Value(), l, end, tag)
        decreases end - l
      {
        K.TagLineProper(Value(), l, tag);
        TagLine(l, tag);
        l := l + 1;
      }
    }
  }

  lemma ProperOfInverse(st: LineAnchorStore)
    requires st.Valid()
    ensures Proper(st.Value())
  {
  }

  lemma NoStep(d: DocModel.Doc, dir: Dir)
    requires DocModel.Stack(d, dir) == []
    ensures DocModel.HistoryStep(d, dir) == d
  {
  }

  lemma CanonicalIsSorted(rs: seq<Range>)
    requires Canonical(rs)
    ensures Sorted(rs)
  {
  }
}
