// A view on the substrate as an object: its caret and selection, the guarded
// editing commands, and the streaming of agent text.
module EditorViews {
  import opened Lines
  import opened Options
  import opened Splices
  import DocModel
  import Documents
  import opened Ranges
  import opened Anchors
  import C = CoreModel
  import F = Faces
  import V = View
  import R = ViewRuns
  import B = Blocks
  import opened Editors

  type Caret = V.Caret

  // --- What a script of actions does ---

  lemma NoAction(c: C.Core)
    ensures C.DoAll(c, []) == c
  {
    hide C.Do;
  }

  lemma OneAction(c: C.Core, p: C.Prim)
    ensures C.DoAll(c, [p]) == C.Do(c, p)
  {
    hide C.Do;
    assert [p][1..] == [];
  }

  lemma TwoActions(c: C.Core, p: C.Prim, q: C.Prim)
    ensures C.DoAll(c, [p, q]) == C.Do(C.Do(c, p), q)
  {
    hide C.Do;
    assert [p, q][1..] == [q];
    OneAction(C.Do(c, p), q);
  }

  /** A grouped body: in its own undo group unless one is open. */
  lemma GroupedActions(c: C.Core, v: Caret, body: seq<C.Prim>, after: Caret)
    ensures C.DoAll(c, V.Grouped(c, v, body, after).ps) ==
      if c.doc.pending.Some? then C.DoAll(c, body)
      else C.Do(C.DoAll(C.Do(c, C.PBegin(v.line, v.col)), body), C.PEnd(after.line, after.col))
  {
    hide C.Do;
    var begin, end := C.PBegin(v.line, v.col), C.PEnd(after.line, after.col);
    C.DoAllConcat(c, [begin] + body, [end]);
    C.DoAllConcat(c, [begin], body);
    OneAction(c, begin);
    OneAction(C.DoAll(C.Do(c, begin), body), end);
  }

  /** A group that is open stays open: beginning another changes nothing. */
  lemma BeginAgain(c: C.Core, line: nat, col: nat)
    ensures c.doc.pending.Some? ==> C.Do(c, C.PBegin(line, col)) == c
  {
  }

  /** No insert unsorts the atomic blocks. */
  lemma InsertKeepsSorted(c: C.Core, line: nat, col: nat, x: Text)
    requires Sorted(c.atomic)
    ensures Sorted(C.Do(c, C.PInsert(line, col, x)).atomic)
    ensures Sorted(C.Do(c, C.PTyped(line, col, x)).atomic)
  {
    hide Sorted, LineLen, ShiftInsert, C.MapAtomicInsert, DocModel.InsertAt, LineColToChar, Breaks, C.LeadLen;
    B.BlocksStaySorted(c.atomic, line, Breaks(x));
    B.BlocksStaySorted(c.atomic, line + 1, Breaks(x));
  }

  /** A visible character goes without moving a block. */
  lemma CharDeleteKeepsBlocks(c: C.Core, line: nat, col: nat)
    requires col < LineLen(c.doc.text, line)
    ensures var i := LineColToChar(c.doc.text, line, col);
            C.Do(c, C.PDelete(i, i + 1)).atomic == c.atomic
  {
    hide LineLen, LineOf, ColOf, LineColToChar, DocModel.DeleteRange;
    R.VisibleChar(c.doc.text, line, col);
    var i := LineColToChar(c.doc.text, line, col);
    NoBreaks(c.doc.text[i..i + 1]);
  }

  class EditorView {
    var cursor: Caret
    var selectionAnchor: Option<Caret>
    var inInsertMode: bool

    constructor ()
      ensures cursor == V.Caret(0, 0) && selectionAnchor.None? && !inInsertMode
    {
      cursor, selectionAnchor, inInsertMode := V.Caret(0, 0), None, false;
    }

    method BeginInsert(core: EditorCore)
      requires core.Valid()
      modifies this, core.document
      ensures core.Valid() && inInsertMode && selectionAnchor == old(selectionAnchor)
      ensures (core.Value(), cursor) == V.After(old(core.Value()), old(cursor), V.BeginInsert)
    {
      inInsertMode := true;
      OneAction(core.Value(), C.PBegin(cursor.line, cursor.col));
      var isNew := core.OpenGroup(cursor.line, cursor.col);
    }

    method EndInsert(core: EditorCore)
      requires core.Valid()
      modifies this, core.document
      ensures core.Valid() && !inInsertMode && selectionAnchor == old(selectionAnchor)
      ensures (core.Value(), cursor) == V.After(old(core.Value()), old(cursor), V.EndInsert)
    {
      hide C.Do;
      inInsertMode := false;
      OneAction(core.Value(), C.PEnd(cursor.line, cursor.col));
      core.CloseGroup(cursor.line, cursor.col);
    }

    method InsertChar(core: EditorCore, ch: char)
      requires core.Valid() && Sorted(core.atomicBlocks)
      modifies this`cursor, core, core.anchors, core.document
      ensures core.Valid() && Sorted(core.atomicBlocks)
      ensures (core.Value(), cursor) == V.After(old(core.Value()), old(cursor), V.TypeChar(ch))
    {
      hide Sorted, C.Do, C.CanInsertCharAt;
      ghost var c := core.Value();
      NoAction(c);
      OneAction(c, C.PInsert(cursor.line, cursor.col, [ch]));
      var allowed := core.CanInsertCharAt(cursor.line, cursor.col, ch);
      if !allowed {
        return;
      }
      InsertKeepsSorted(c, cursor.line, cursor.col, [ch]);
      core.Insert(cursor.line, cursor.col, [ch]);
      cursor := if ch == '\n' then V.Caret(cursor.line + 1, 0) else V.Caret(cursor.line, cursor.col + 1);
    }

    /** Insert a run one character at a time, each under the guard. */
    method TypeRun(core: EditorCore, text: Text)
      requires core.Valid() && Sorted(core.atomicBlocks)
      modifies this`cursor, core, core.anchors, core.document
      ensures core.Valid() && Sorted(core.atomicBlocks)
      ensures var act := V.TypeRun(old(core.Value()), old(cursor), text);
              core.Value() == C.DoAll(old(core.Value()), act.ps) && cursor == act.caret
    {
      hide Sorted, C.DoAll, V.TypeOne, V.After;
      ghost var c, v := core.Value(), cursor;
      ghost var act := V.TypeRun(c, v, text);
      var i := 0;
      while i < |text|
        invariant i <= |text| && core.Valid() && Sorted(core.atomicBlocks)
        invariant var rest := V.TypeRun(core.Value(), cursor, text[i..]);
                  C.DoAll(c, act.ps) == C.DoAll(core.Value(), rest.ps) && act.caret == rest.caret
      {
        TypeRunStep(core.Value(), cursor, text[i..]);
        assert text[i..][1..] == text[i + 1..];
        InsertChar(core, text[i]);
        i := i + 1;
      }
      TypeRunEnd(core.Value(), cursor, text[i..]);
    }

    /** Insert a run in bulk where the guard cannot reject any of it. */
    method InsertStr(core: EditorCore, text: Text)
      requires core.Valid() && Sorted(core.atomicBlocks)
      modifies this`cursor, core, core.anchors, core.document
      ensures core.Valid() && Sorted(core.atomicBlocks)
      ensures (core.Value(), cursor) == V.After(old(core.Value()), old(cursor), V.InsertStr(text))
    {
      hide Sorted, C.Do, V.TypeRun, LineColToChar, LineOf, ColOf;
      if text == [] {
        NoAction(core.Value());
        return;
      }
      var line, col := cursor.line, cursor.col;
      var frozen := core.IsFrozenLine(line);
      if line < core.lockLine || frozen {
        TypeRun(core, text);
        return;
      }
      OneAction(core.Value(), C.PTyped(line, col, text));
      var idx := LineColToChar(core.document.rope, line, col);
      InsertKeepsSorted(core.Value(), line, col, text);
      core.InsertTyped(line, col, text);
      var at := Min(idx + |text|, |core.document.rope|);
      cursor := V.Caret(LineOf(core.document.rope, at), ColOf(core.document.rope, at));
    }

    /** Paste as one undo step, or into the open group. */
    method PasteStr(core: EditorCore, text: Text)
      requires core.Valid() && Sorted(core.atomicBlocks)
      modifies this`cursor, core, core.anchors, core.document
      ensures core.Valid() && Sorted(core.atomicBlocks)
      ensures (core.Value(), cursor) == V.After(old(core.Value()), old(cursor), V.PasteStr(text))
    {
      hide Sorted, V.InsertRun, C.DoAll, C.Do;
      ghost var c, v := core.Value(), cursor;
      if text == [] {
        NoAction(c);
        return;
      }
      ghost var grouped := C.Do(c, C.PBegin(v.line, v.col));
      ghost var run := V.InsertRun(grouped, v, text);
      GroupedActions(c, v, run.ps, run.caret);
      BeginAgain(c, v.line, v.col);
      var isNew := core.OpenGroup(cursor.line, cursor.col);
      InsertStr(core, text);
      if isNew {
        core.CloseGroup(cursor.line, cursor.col);
      }
    }

    /** The guarded delete behind every deleting command. */
    method DeleteChars(core: EditorCore, s: nat, e: nat) returns (done: bool)
      requires core.Valid()
      modifies this`cursor, core, core.anchors, core.document
      ensures core.Valid() && (done <==> s < e && C.CanDeleteRange(old(core.Value()), s, e))
      ensures var act := V.DeleteGuarded(old(core.Value()), old(cursor), s, e);
              core.Value() == C.DoAll(old(core.Value()), act.ps) && cursor == act.caret
    {
      hide Sorted, C.CanDeleteRange, C.ShiftForDelete, DocModel.DeleteRange, LineOf, ColOf;
      NoAction(core.Value());
      if s >= e {
        return false;
      }
      var allowed := core.CanDeleteRange(s, e);
      if !allowed {
        return false;
      }
      OneAction(core.Value(), C.PDelete(s, e));
      core.Delete(s, e);
      var at := Min(s, |core.document.rope|);
      cursor := V.Caret(LineOf(core.document.rope, at), ColOf(core.document.rope, at));
      done := true;
    }

    method Backspace(core: EditorCore)
      requires core.Valid()
      modifies this`cursor, core, core.anchors, core.document
      ensures core.Valid()
      ensures (core.Value(), cursor) == V.After(old(core.Value()), old(cursor), V.Backspace)
    {
      hide Sorted, V.DeleteGuarded, C.DoAll, LineColToChar;
      NoAction(core.Value());
      var i := LineColToChar(core.document.rope, cursor.line, cursor.col);
      if i == 0 {
        return;
      }
      var done := DeleteChars(core, i - 1, i);
    }

    method DeleteBackInLine(core: EditorCore, n: nat)
      requires core.Valid()
      modifies this`cursor, core, core.anchors, core.document
      ensures core.Valid()
      ensures (core.Value(), cursor) == V.After(old(core.Value()), old(cursor), V.DeleteBack(n))
    {
      hide Sorted, V.DeleteGuarded, C.DoAll, LineColToChar, LineLen;
      NoAction(core.Value());
      var col := Min(cursor.col, LineLen(core.document.rope, cursor.line));
      var k := Min(n, col);
      var i := LineColToChar(core.document.rope, cursor.line, col);
      if k == 0 || i < k {
        return;
      }
      var done := DeleteChars(core, i - k, i);
    }

    method DeleteCurrentLine(core: EditorCore)
      requires core.Valid()
      modifies this`cursor, core, core.anchors, core.document
      ensures core.Valid()
      ensures (core.Value(), cursor) == V.After(old(core.Value()), old(cursor), V.DeleteLine)
    {
      hide Sorted, C.CanDeleteRange, C.Do, LineOf, ColOf, Breaks, Documents.LineDeleteRange, DocModel.DeleteRange;
      ghost var c, v := core.Value(), cursor;
      NoAction(c);
      var range := Documents.LineDeleteRange(core.document.rope, cursor.line);
      if range.None? {
        return;
      }
      var s, e := range.value.0, range.value.1;
      var allowed := core.CanDeleteRange(s, e);
      if !allowed {
        return;
      }
      ghost var begun := C.Do(c, C.PBegin(v.line, v.col));
      BeginKeepsText(c, v.line, v.col);
      BeginAgain(c, v.line, v.col);
      DeletedText(c, s, e);
      DeletedText(begun, s, e);
      DeleteTextOnly(c.doc, begun.doc, s, e);
      OneAction(begun, C.PDelete(s, e));
      var isNew := core.OpenGroup(cursor.line, cursor.col);
      core.Delete(s, e);
      var at := Min(s, |core.document.rope|);
      cursor := V.Caret(Min(LineOf(core.document.rope, at), Breaks(core.document.rope)), 0);
      GroupedActions(c, v, [C.PDelete(s, e)], cursor);
      if isNew {
        core.CloseGroup(cursor.line, cursor.col);
      }
    }

    method OpenLineBelow(core: EditorCore)
      requires core.Valid() && Sorted(core.atomicBlocks)
      modifies this, core, core.anchors, core.document
      ensures core.Valid() && Sorted(core.atomicBlocks)
      ensures (core.Value(), cursor) == V.After(old(core.Value()), old(cursor), V.OpenBelow)
      ensures selectionAnchor == old(selectionAnchor)
      ensures inInsertMode
           == (old(inInsertMode)
               || C.CanInsertCharAt(old(core.Value()), old(cursor.line),
                                    LineLen(old(core.document.rope), old(cursor.line)), '\n'))
    {
      hide Sorted, C.Do, C.CanInsertCharAt, LineLen;
      ghost var c, v := core.Value(), cursor;
      var line, col := cursor.line, LineLen(core.document.rope, cursor.line);
      NoAction(c);
      var allowed := core.CanInsertCharAt(line, col, '\n');
      if !allowed {
        return;
      }
      BeginAgain(c, v.line, v.col);
      OneAction(c, C.PInsert(line, col, ['\n']));
      TwoActions(c, C.PBegin(v.line, v.col), C.PInsert(line, col, ['\n']));
      assert [C.PBegin(v.line, v.col)] + [C.PInsert(line, col, ['\n'])]
             == [C.PBegin(v.line, v.col), C.PInsert(line, col, ['\n'])];
      assert [] + [C.PInsert(line, col, ['\n'])] == [C.PInsert(line, col, ['\n'])];
      var isNew := core.OpenGroup(cursor.line, cursor.col);
      InsertKeepsSorted(core.Value(), line, col, ['\n']);
      core.Insert(line, col, ['\n']);
      cursor := V.Caret(line + 1, 0);
      inInsertMode := true;
    }

    method OpenLineAbove(core: EditorCore)
      requires core.Valid() && Sorted(core.atomicBlocks)
      modifies this, core, core.anchors, core.document
      ensures core.Valid() && Sorted(core.atomicBlocks)
      ensures (core.Value(), cursor) == V.After(old(core.Value()), old(cursor), V.OpenAbove)
      ensures selectionAnchor == old(selectionAnchor)
      ensures inInsertMode
           == (old(inInsertMode) || C.CanInsertCharAt(old(core.Value()), old(cursor.line), 0, '\n'))
    {
      hide Sorted, C.Do, C.CanInsertCharAt;
      ghost var c, v := core.Value(), cursor;
      NoAction(c);
      var allowed := core.CanInsertCharAt(cursor.line, 0, '\n');
      if !allowed {
        return;
      }
      BeginAgain(c, v.line, v.col);
      OneAction(c, C.PInsert(v.line, 0, ['\n']));
      TwoActions(c, C.PBegin(v.line, v.col), C.PInsert(v.line, 0, ['\n']));
      assert [C.PBegin(v.line, v.col)] + [C.PInsert(v.line, 0, ['\n'])]
             == [C.PBegin(v.line, v.col), C.PInsert(v.line, 0, ['\n'])];
      assert [] + [C.PInsert(v.line, 0, ['\n'])] == [C.PInsert(v.line, 0, ['\n'])];
      var isNew := core.OpenGroup(cursor.line, cursor.col);
      InsertKeepsSorted(core.Value(), cursor.line, 0, ['\n']);
      core.Insert(cursor.line, 0, ['\n']);
      cursor := V.Caret(cursor.line, 0);
      inInsertMode := true;
    }

    /** Delete the character under the caret; outside insert mode the caret
        stays on a character. */
    method DeleteUnderCaret(core: EditorCore, insertMode: bool)
      requires core.Valid()
      modifies this`cursor, core, core.anchors, core.document
      ensures core.Valid()
      ensures (core.Value(), cursor) == V.After(old(core.Value()), old(cursor), V.DeleteUnder(insertMode))
    {
      hide Sorted, C.CanDeleteRange, C.Do, LineLen, LineColToChar, DocModel.DeleteRange;
      ghost var c, v := core.Value(), cursor;
      NoAction(c);
      var i := LineColToChar(core.document.rope, cursor.line, cursor.col);
      if i >= |core.document.rope| {
        return;
      }
      var allowed := core.CanDeleteRange(i, i + 1);
      if !allowed {
        return;
      }
      ghost var begun := C.Do(c, C.PBegin(v.line, v.col));
      BeginKeepsText(c, v.line, v.col);
      BeginAgain(c, v.line, v.col);
      DeletedText(c, i, i + 1);
      DeletedText(begun, i, i + 1);
      DeleteTextOnly(c.doc, begun.doc, i, i + 1);
      OneAction(begun, C.PDelete(i, i + 1));
      var isNew := core.OpenGroup(cursor.line, cursor.col);
      core.Delete(i, i + 1);
      if !insertMode {
        var len := LineLen(core.document.rope, cursor.line);
        if cursor.col >= len && len > 0 {
          cursor := V.Caret(cursor.line, len - 1);
        }
      }
      GroupedActions(c, v, [C.PDelete(i, i + 1)], cursor);
      if isNew {
        core.CloseGroup(cursor.line, cursor.col);
      }
    }

    /** Replace the character under the caret, as one undo step. */
    method ReplaceCharAtCursor(core: EditorCore, ch: char)
      requires core.Valid() && Sorted(core.atomicBlocks)
      modifies this`cursor, core, core.anchors, core.document
      ensures core.Valid() && Sorted(core.atomicBlocks)
      ensures (core.Value(), cursor) == V.After(old(core.Value()), old(cursor), V.ReplaceChar(ch))
    {
      hide Sorted, C.CanDeleteRange, C.CanInsertCharAt, C.Do, LineLen, LineColToChar;
      ghost var c, v := core.Value(), cursor;
      NoAction(c);
      var line, col := cursor.line, cursor.col;
      if col >= LineLen(core.document.rope, line) {
        return;
      }
      var i := LineColToChar(core.document.rope, line, col);
      var deletable := core.CanDeleteRange(i, i + 1);
      var insertable := core.CanInsertCharAt(line, col, ch);
      if !deletable || !insertable {
        return;
      }
      ghost var begun := C.Do(c, C.PBegin(line, col));
      BeginAgain(c, line, col);
      BeginKeepsText(c, line, col);
      TwoActions(begun, C.PDelete(i, i + 1), C.PInsert(line, col, [ch]));
      GroupedActions(c, v, [C.PDelete(i, i + 1), C.PInsert(line, col, [ch])], v);
      var isNew := core.OpenGroup(line, col);
      CharDeleteKeepsBlocks(begun, line, col);
      core.Delete(i, i + 1);
      InsertKeepsSorted(core.Value(), line, col, [ch]);
      core.Insert(line, col, [ch]);
      if isNew {
        core.CloseGroup(line, col);
      }
    }

    method DeleteSelection(core: EditorCore)
      requires core.Valid()
      modifies this`cursor, this`selectionAnchor, core, core.anchors, core.document
      ensures core.Valid() && selectionAnchor.None?
      ensures old(selectionAnchor).Some? ==>
        (core.Value(), cursor) == V.After(old(core.Value()), old(cursor), V.DeleteSelection(old(selectionAnchor).value))
      ensures old(selectionAnchor).None? ==> core.Value() == old(core.Value()) && cursor == old(cursor)
    {
      hide Sorted, C.CanDeleteRange, C.Do, LineOf, ColOf, LineColToChar, DocModel.DeleteRange, V.SelectionRange;
      if selectionAnchor.None? {
        return;
      }
      ghost var c, v := core.Value(), cursor;
      NoAction(c);
      var r := V.SelectionRange(core.document.rope, cursor, selectionAnchor.value);
      var s, e := r.0, r.1;
      selectionAnchor := None;
      if s >= e {
        return;
      }
      var allowed := core.CanDeleteRange(s, e);
      if !allowed {
        return;
      }
      ghost var begun := C.Do(c, C.PBegin(v.line, v.col));
      BeginKeepsText(c, v.line, v.col);
      BeginAgain(c, v.line, v.col);
      DeletedText(c, s, e);
      DeletedText(begun, s, e);
      DeleteTextOnly(c.doc, begun.doc, s, e);
      OneAction(begun, C.PDelete(s, e));
      var isNew := core.OpenGroup(cursor.line, cursor.col);
      core.Delete(s, e);
      var at := Min(s, |core.document.rope|);
      cursor := V.Caret(LineOf(core.document.rope, at), ColOf(core.document.rope, at));
      GroupedActions(c, v, [C.PDelete(s, e)], cursor);
      if isNew {
        core.CloseGroup(cursor.line, cursor.col);
      }
    }

    method HistoryStep(core: EditorCore, dir: Dir)
      requires core.Valid()
      modifies this`cursor, core, core.anchors, core.document
      ensures core.Valid()
      ensures (core.Value(), cursor) == V.After(old(core.Value()), old(cursor), V.History(dir))
    {
      hide Sorted, C.ReplayShifts, DocModel.HistoryStep, LineLen, Breaks;
      NoAction(core.Value());
      OneAction(core.Value(), C.PStep(dir));
      SteppedDoc(core.Value(), dir);
      var back := core.StepHistory(dir);
      if back.None? {
        return;
      }
      var line := Min(back.value.0, Breaks(core.document.rope));
      cursor := V.Caret(line, Min(back.value.1, Sub(LineLen(core.document.rope, line), 1)));
    }
  }

  /** Typing the rest of a run after its first character. */
  lemma TypeRunStep(c: C.Core, v: Caret, x: Text)
    requires x != []
    ensures var after := V.After(c, v, V.TypeChar(x[0]));
            var act, rest := V.TypeRun(c, v, x), V.TypeRun(after.0, after.1, x[1..]);
            C.DoAll(c, act.ps) == C.DoAll(after.0, rest.ps) && act.caret == rest.caret
  {
    hide C.Do, V.TypeOne;
    var one := V.TypeOne(c, v, x[0]);
    var rest := V.TypeRun(C.DoAll(c, one.ps), one.caret, x[1..]);
    C.DoAllConcat(c, one.ps, rest.ps);
  }

  lemma TypeRunEnd(c: C.Core, v: Caret, x: Text)
    requires x == []
    ensures V.TypeRun(c, v, x) == V.Act([], v) && C.DoAll(c, []) == c
  {
    NoAction(c);
  }

  /** A history step leaves the text that the document steps to. */
  lemma SteppedDoc(c: C.Core, dir: Dir)
    ensures C.Do(c, C.PStep(dir)) == C.Step(c, dir)
    ensures C.Step(c, dir).doc == DocModel.HistoryStep(c.doc, dir)
  {
    hide C.ApplyShifts, Merge, DocModel.HistoryStep;
    if DocModel.Stack(c.doc, dir) == [] {
      NoStep(c.doc, dir);
    } else {
      F.ShiftsMoveRangesAndLock(c.(doc := DocModel.HistoryStep(c.doc, dir)), DocModel.HistoryShifts(c.doc, dir));
    }
  }

  lemma BeginKeepsText(c: C.Core, line: nat, col: nat)
    ensures var b := C.Do(c, C.PBegin(line, col));
            b.doc.text == c.doc.text && b == c.(doc := b.doc)
  {
  }

  lemma DeletedText(c: C.Core, s: nat, e: nat)
    ensures C.Do(c, C.PDelete(s, e)).doc == DocModel.DeleteRange(c.doc, s, e)
  {
    hide C.ShiftForDelete, DocModel.DeleteRange;
  }

  /** What a delete leaves of the text depends on the text alone. */
  lemma DeleteTextOnly(a: DocModel.Doc, b: DocModel.Doc, s: nat, e: nat)
    requires a.text == b.text
    ensures DocModel.DeleteRange(a, s, e).text == DocModel.DeleteRange(b, s, e).text
  {
    hide DocModel.RecordSplice;
  }
}
