// Frozen content under the editing commands: what every command keeps of it,
// and the one thing a command can do to it.
module FrozenCommands {
  import opened Lines
  import opened Splices
  import opened DocModel
  import opened Ranges
  import opened CoreModel
  import opened FaceRuns
  import opened View
  import opened ViewRuns
  import opened FrozenText
  import Documents

  predicate NoStep(ps: seq<Prim>) {
    forall i :: 0 <= i < |ps| ==> !ps[i].PStep?
  }

  /** Sound actions other than history steps keep the lock, the locked prefix
      and the order of the frozen ranges. */
  lemma {:induction false} ScriptKeepsPrefix(c: Core, ps: seq<Prim>)
    requires SoundScript(c, ps) && Sorted(c.frozen) && NoStep(ps)
    ensures DoAll(c, ps).lock == c.lock && LockedPrefix(DoAll(c, ps)) == LockedPrefix(c)
    ensures Sorted(DoAll(c, ps).frozen)
    decreases |ps|
  {
    hide PrimSound, Do, LockedPrefix, Sorted;
    if ps != [] {
      if IsEdit(ps[0]) {
        EditKeepsLockedPrefix(c, ps[0]);
      } else {
        GroupingKeepsFace(c, ps[0]);
      }
      EditKeepsSorted(c, ps[0]);
      ScriptKeepsPrefix(Do(c, ps[0]), ps[1..]);
    }
  }

  // --- The exception, in terms of the command ---

  /** The command would put a line break at the visible end of the caret line. */
  predicate BreaksAtEnd(t: Text, v: Caret, cmd: Command) {
    var atEnd := v.col >= LineLen(t, v.line);
    match cmd
    case TypeChar(ch) => ch == '\n' && atEnd
    case InsertStr(x) => '\n' in x && atEnd
    case PasteStr(x) => '\n' in x && atEnd
    case OpenBelow => true
    case _ => false
  }

  /** The caret line is frozen, its visible text ends in a CR, and a line break
      is let in after it. */
  predicate CrAtRisk(c: Core, line: nat)
    requires line <= Breaks(c.doc.text)
  {
    && IsFrozen(c, line) && CanInsertCharAt(c, line, LineLen(c.doc.text, line), '\n')
    && EndsInCr(Visible(c.doc.text, line))
  }

  predicate HidesACr(c: Core, v: Caret, cmd: Command)
    requires v.line <= Breaks(c.doc.text)
  {
    BreaksAtEnd(c.doc.text, v, cmd) && CrAtRisk(c, v.line)
  }

  // --- One action ---

  lemma OneShows(c: Core, p: Prim)
    requires PrimSound(c, p) && Sorted(c.frozen) && IsEdit(p)
    ensures Shown(DoAll(c, [p])) == Shown(c) <==> !HidesCr(c, p)
  {
    hide PrimSound, Shown, Do, HidesCr;
    SoundOne(c, p);
    EditKeepsFrozenTexts(c, p);
  }

  /** A visible text is as long as its line. */
  lemma VisibleLength(t: Text, line: nat)
    requires line <= Breaks(t)
    ensures |Visible(t, line)| == LineLen(t, line)
  {
    hide Visible, LineLen, LineStart;
    VisibleIsSlice(t, line);
  }

  /** A permitted line break at the visible end, wherever past it the caret is. */
  lemma BreakHides(c: Core, line: nat, col: nat)
    requires line <= Breaks(c.doc.text) && col >= LineLen(c.doc.text, line)
    requires CanInsertCharAt(c, line, col, '\n')
    ensures HidesCr(c, PInsert(line, col, ['\n'])) <==> CrAtRisk(c, line)
  {
    hide Visible, LineLen, Covers;
    VisibleLength(c.doc.text, line);
  }

  lemma TypeOneShows(c: Core, v: Caret, ch: char)
    requires c.doc.pending.Some? && v.line <= Breaks(c.doc.text) && Sorted(c.frozen)
    ensures Shown(DoAll(c, TypeOne(c, v, ch).ps)) == Shown(c) <==> !HidesACr(c, v, TypeChar(ch))
  {
    hide Visible, LineLen, Covers, Shown, Do, BlockAt;
    EmptyScript(c);
    VisibleLength(c.doc.text, v.line);
    if CanInsertCharAt(c, v.line, v.col, ch) {
      GuardSaysInsertSound(c, v.line, v.col, ch);
      OneShows(c, PInsert(v.line, v.col, [ch]));
      if ch == '\n' && v.col >= LineLen(c.doc.text, v.line) {
        BreakHides(c, v.line, v.col);
      }
    }
  }

  // --- A run of characters ---

  /** A caret at the start of a line hides nothing: an empty line shows no CR. */
  lemma StartHidesNothing(c: Core, v: Caret, x: Text)
    requires v.line <= Breaks(c.doc.text) && v.col == 0
    ensures !HidesACr(c, v, InsertStr(x))
  {
    hide Visible, LineLen, CanInsertCharAt, Covers;
    VisibleLength(c.doc.text, v.line);
  }

  /** What is left of a run once a character was typed hides what was at risk
      before, if that character was no break; otherwise nothing. */
  lemma AfterOne(c: Core, v: Caret, ch: char, rest: Text)
    requires c.doc.pending.Some? && v.line <= Breaks(c.doc.text)
    requires CanInsertCharAt(c, v.line, v.col, ch)
    ensures var one := TypeOne(c, v, ch);
            && one.caret.line <= Breaks(DoAll(c, one.ps).doc.text)
            && !HidesACr(DoAll(c, one.ps), one.caret, InsertStr(rest))
    ensures ch != '\n' ==> !IsFrozen(c, v.line)
  {
    hide Visible, LineLen, Covers, LineColToChar, RecordSplice, ShiftFrozenAt, BlockAt;
    var one := TypeOne(c, v, ch);
    TypeOneSound(c, v, ch);
    if ch == '\n' {
      StartHidesNothing(DoAll(c, one.ps), one.caret, rest);
    } else {
      NoBreaks([ch]);
      GuardSaysInsertSound(c, v.line, v.col, ch);
      SoundOne(c, PInsert(v.line, v.col, [ch]));
      assert DoAll(c, one.ps).frozen == c.frozen;
    }
  }

  lemma TypeOneKeepsSorted(c: Core, v: Caret, ch: char)
    requires Sorted(c.frozen)
    ensures Sorted(DoAll(c, TypeOne(c, v, ch).ps).frozen)
  {
    hide Sorted, Do, CanInsertCharAt;
    if CanInsertCharAt(c, v.line, v.col, ch) {
      var p := PInsert(v.line, v.col, [ch]);
      EditKeepsSorted(c, p);
      assert [p][1..] == [];
    }
  }

  /** A typed run changes what is shown exactly when a CR is at risk at the
      caret and the run holds a break; only its first break can hide it. */
  lemma {:induction false} TypeRunShows(c: Core, v: Caret, x: Text)
    requires c.doc.pending.Some? && v.line <= Breaks(c.doc.text) && Sorted(c.frozen)
    ensures Shown(DoAll(c, TypeRun(c, v, x).ps)) == Shown(c) <==> !HidesACr(c, v, InsertStr(x))
    decreases |x|
  {
    hide Shown, CrAtRisk, DoAll, Sorted, LineLen, CanInsertCharAt;
    if x == [] {
      EmptyScript(c);
    } else {
      var one := TypeOne(c, v, x[0]);
      var c' := DoAll(c, one.ps);
      TypeOneSound(c, v, x[0]);
      TypeOneKeepsSorted(c, v, x[0]);
      TypeOneShows(c, v, x[0]);
      TypeRunShows(c', one.caret, x[1..]);
      DoAllConcat(c, one.ps, TypeRun(c', one.caret, x[1..]).ps);
      if CanInsertCharAt(c, v.line, v.col, x[0]) {
        AfterOne(c, v, x[0], x[1..]);
        RiskIsFrozen(c, v.line);
      } else {
        EmptyScript(c);
        if x[0] == '\n' && v.col >= LineLen(c.doc.text, v.line) {
          DeniedBreak(c, v);
        }
      }
    }
  }

  lemma RiskIsFrozen(c: Core, line: nat)
    requires line <= Breaks(c.doc.text)
    ensures CrAtRisk(c, line) ==> IsFrozen(c, line)
  {
  }

  lemma DeniedBreak(c: Core, v: Caret)
    requires v.line <= Breaks(c.doc.text) && v.col >= LineLen(c.doc.text, v.line)
    requires !CanInsertCharAt(c, v.line, v.col, '\n')
    ensures !CrAtRisk(c, v.line)
  {
    hide Visible, LineLen, Covers, BlockAt;
    VisibleLength(c.doc.text, v.line);
  }

  lemma InsertRunShows(c: Core, v: Caret, x: Text)
    requires c.doc.pending.Some? && v.line <= Breaks(c.doc.text) && Sorted(c.frozen)
    ensures Shown(DoAll(c, InsertRun(c, v, x).ps)) == Shown(c) <==> !HidesACr(c, v, InsertStr(x))
  {
    hide Shown, DoAll, Sorted, LineLen, CanInsertCharAt, Do, Covers, CaretIndex, Visible;
    if x == [] {
      EmptyScript(c);
    } else if v.line < c.lock || IsFrozen(c, v.line) {
      TypeRunShows(c, v, x);
    } else {
      OneShows(c, PTyped(v.line, v.col, x));
    }
  }

  // --- Groups around a body ---

  lemma BeginKeeps(c: Core, v: Caret)
    ensures var g := Do(c, PBegin(v.line, v.col));
            && g.doc.pending.Some? && g.doc.text == c.doc.text && g.frozen == c.frozen
            && Shown(g) == Shown(c)
    ensures forall line: nat :: line <= Breaks(c.doc.text) ==>
              (CrAtRisk(Do(c, PBegin(v.line, v.col)), line) <==> CrAtRisk(c, line))
  {
    hide Visible, LineLen, Covers, LineSet, BlockAt;
    BeginEffect(c, v);
  }

  lemma GroupedShows(c: Core, v: Caret, body: seq<Prim>, after: Caret)
    ensures Shown(DoAll(c, Grouped(c, v, body, after).ps)) == Shown(DoAll(Do(c, PBegin(v.line, v.col)), body))
  {
    hide Shown, Do;
    var p, q := PBegin(v.line, v.col), PEnd(after.line, after.col);
    if c.doc.pending.Some? {
      BeginIsNothing(c, v);
    } else {
      var g := Do(c, p);
      assert DoAll(c, [p]) == g by { assert [p][1..] == []; assert DoAll(g, []) == g; }
      DoAllConcat(c, [p], body);
      DoAllConcat(c, [p] + body, [q]);
      var done := DoAll(g, body);
      assert DoAll(done, [q]) == Do(done, q) by { assert [q][1..] == []; assert DoAll(Do(done, q), []) == Do(done, q); }
      GroupingKeepsFace(done, q);
    }
  }

  lemma GroupedDeleteShows(c: Core, v: Caret, s: nat, e: nat, after: Caret)
    requires s < e <= |c.doc.text| && CanDeleteRange(c, s, e) && Sorted(c.frozen)
    ensures Shown(DoAll(c, Grouped(c, v, [PDelete(s, e)], after).ps)) == Shown(c)
  {
    hide Shown, Do, Grouped, DoAll, Sorted;
    var g := Do(c, PBegin(v.line, v.col));
    BeginEffect(c, v);
    BeginKeeps(c, v);
    assert CanDeleteRange(g, s, e);
    GuardSaysDeleteSound(g, s, e);
    OneShows(g, PDelete(s, e));
    GroupedShows(c, v, [PDelete(s, e)], after);
  }

  lemma DeleteGuardedShows(c: Core, v: Caret, s: nat, e: nat)
    requires e <= |c.doc.text| && c.doc.pending.Some? && Sorted(c.frozen)
    ensures Shown(DoAll(c, DeleteGuarded(c, v, s, e).ps)) == Shown(c)
  {
    hide Shown, DoAll, CanDeleteRange, Sorted;
    EmptyScript(c);
    if s < e && CanDeleteRange(c, s, e) {
      GuardSaysDeleteSound(c, s, e);
      OneShows(c, PDelete(s, e));
    }
  }

  lemma ReplaceShows(c: Core, v: Caret, i: nat, line: nat, col: nat, ch: char)
    requires i < |c.doc.text| && c.doc.text[i] != '\n' && LineOf(c.doc.text, i) == line <= Breaks(c.doc.text)
    requires CanDeleteRange(c, i, i + 1) && Sorted(c.frozen)
    ensures Shown(DoAll(c, Grouped(c, v, [PDelete(i, i + 1), PInsert(line, col, [ch])], v).ps)) == Shown(c)
  {
    hide Shown, Do, Grouped, Sorted;
    var g, p, q := Do(c, PBegin(v.line, v.col)), PDelete(i, i + 1), PInsert(line, col, [ch]);
    BeginEffect(c, v);
    BeginKeeps(c, v);
    assert CanDeleteRange(g, i, i + 1);
    GuardSaysDeleteSound(g, i, i + 1);
    EditKeepsFrozenTexts(g, p);
    CharDeleteEffect(g, i);
    LineUnfrozen(c, i, i + 1);
    EditKeepsFrozenTexts(Do(g, p), q);
    assert DoAll(g, [p, q]) == Do(Do(g, p), q) by {
      assert [p, q][1..] == [q] && [q][1..] == [];
      assert DoAll(Do(Do(g, p), q), []) == Do(Do(g, p), q);
    }
    GroupedShows(c, v, [p, q], v);
  }

  lemma OpenLineShows(c: Core, v: Caret, col: nat)
    requires v.line <= Breaks(c.doc.text) && CanInsertCharAt(c, v.line, col, '\n') && Sorted(c.frozen)
    requires col == 0 || col == LineLen(c.doc.text, v.line)
    ensures var ps := (if c.doc.pending.Some? then [] else [PBegin(v.line, v.col)]) + [PInsert(v.line, col, ['\n'])];
            Shown(DoAll(c, ps)) == Shown(c) <==> !(col == LineLen(c.doc.text, v.line) && CrAtRisk(c, v.line))
  {
    hide Shown, Do, Sorted, LineLen, Visible, Covers, BlockAt;
    var p, q := PBegin(v.line, v.col), PInsert(v.line, col, ['\n']);
    var g := Do(c, p);
    BeginEffect(c, v);
    BeginKeeps(c, v);
    assert CanInsertCharAt(g, v.line, col, '\n');
    GuardSaysInsertSound(g, v.line, col, '\n');
    OneShows(g, q);
    if col >= LineLen(g.doc.text, v.line) {
      BreakHides(g, v.line, col);
      VisibleLength(g.doc.text, v.line);
    }
    if c.doc.pending.Some? {
      BeginIsNothing(c, v);
      assert [] + [q] == [q];
    } else {
      assert DoAll(c, [p]) == g by { assert [p][1..] == []; assert DoAll(g, []) == g; }
      DoAllConcat(c, [p], [q]);
    }
  }

  // --- Every command ---

  /** A command other than undo and redo leaves the visible texts of the frozen
      lines as they are, exactly unless it puts a line break after a visible CR. */
  lemma CommandShows(c: Core, v: Caret, cmd: Command)
    requires Fair(c, v, cmd) && !cmd.History? && Sorted(c.frozen)
    ensures Shown(DoAll(c, Perform(c, v, cmd).ps)) == Shown(c) <==> !HidesACr(c, v, cmd)
  {
    hide Shown, Grouped, Do, DoAll, InsertRun, DeleteGuarded, TypeOne, CanDeleteRange, CanInsertCharAt, CrAtRisk,
         LineStart, Breaks, LineLen, DeleteRange, HistoryStep, CaretAt, Sorted;
    var t := c.doc.text;
    EmptyScript(c);
    match cmd
    case BeginInsert => BeginAlone(c, v);
    case EndInsert => EndAlone(c, v);
    case TypeChar(ch) => TypeOneShows(c, v, ch);
    case InsertStr(x) => InsertRunShows(c, v, x);
    case PasteStr(x) =>
      if x != [] {
        var g := Do(c, PBegin(v.line, v.col));
        BeginKeeps(c, v);
        InsertRunShows(g, v, x);
        GroupedShows(c, v, InsertRun(g, v, x).ps, InsertRun(g, v, x).caret);
      }
    case Backspace =>
      var i := CaretIndex(t, v);
      if i > 0 {
        DeleteGuardedShows(c, v, i - 1, i);
      }
    case DeleteBack(n) =>
      var col := Min(v.col, LineLen(t, v.line));
      var k, i := Min(n, col), LineColToChar(t, v.line, col);
      if k != 0 && i >= k {
        DeleteGuardedShows(c, v, i - k, i);
      }
    case DeleteUnder(insertMode) =>
      var i := CaretIndex(t, v);
      if i < |t| && CanDeleteRange(c, i, i + 1) {
        GroupedDeleteShows(c, v, i, i + 1, if insertMode then v else OnLastChar(DeleteRange(c.doc, i, i + 1).text, v));
      }
    case ReplaceChar(ch) =>
      var i := CaretIndex(t, v);
      if v.col < LineLen(t, v.line) && CanDeleteRange(c, i, i + 1) {
        VisibleChar(t, v.line, v.col);
        ReplaceShows(c, v, i, v.line, v.col, ch);
      }
    case DeleteLine =>
      LineRangeInText(t, v.line);
      var r := Documents.LineDeleteRange(t, v.line);
      if r.Some? && CanDeleteRange(c, r.value.0, r.value.1) {
        var u := DeleteRange(c.doc, r.value.0, r.value.1).text;
        GroupedDeleteShows(c, v, r.value.0, r.value.1, Caret(Min(CaretAt(u, r.value.0).line, Breaks(u)), 0));
      }
    case OpenBelow =>
      if CanInsertCharAt(c, v.line, LineLen(t, v.line), '\n') {
        OpenLineShows(c, v, LineLen(t, v.line));
      } else {
        RiskLetsIn(c, v.line);
      }
    case OpenAbove =>
      if CanInsertCharAt(c, v.line, 0, '\n') {
        OpenLineShows(c, v, 0);
        EmptyIsSafe(c, v.line);
      }
    case DeleteSelection(anchor) =>
      var r := SelectionRange(t, v, anchor);
      if r.0 < r.1 && CanDeleteRange(c, r.0, r.1) {
        GroupedDeleteShows(c, v, r.0, r.1, CaretAt(DeleteRange(c.doc, r.0, r.1).text, r.0));
      }
    case ToggleChar(at, ch) =>
      if at < |t| && t[at] != '\n' && CanDeleteRange(c, at, at + 1) {
        var p := CaretAt(t, at);
        CaretAtLine(t, at);
        ReplaceShows(c, p, at, p.line, p.col, ch);
      }
    case MoveTo(_) =>
  }

  lemma BeginAlone(c: Core, v: Caret)
    ensures Shown(DoAll(c, [PBegin(v.line, v.col)])) == Shown(c)
  {
    hide Shown, Do;
    var p := PBegin(v.line, v.col);
    GroupingKeepsFace(c, p);
    assert [p][1..] == [] && DoAll(Do(c, p), []) == Do(c, p);
  }

  lemma EndAlone(c: Core, v: Caret)
    ensures Shown(DoAll(c, [PEnd(v.line, v.col)])) == Shown(c)
  {
    hide Shown, Do;
    var p := PEnd(v.line, v.col);
    GroupingKeepsFace(c, p);
    assert [p][1..] == [] && DoAll(Do(c, p), []) == Do(c, p);
  }

  lemma RiskLetsIn(c: Core, line: nat)
    requires line <= Breaks(c.doc.text)
    ensures CrAtRisk(c, line) ==> CanInsertCharAt(c, line, LineLen(c.doc.text, line), '\n')
  {
  }

  lemma EmptyIsSafe(c: Core, line: nat)
    requires line <= Breaks(c.doc.text)
    ensures LineLen(c.doc.text, line) == 0 ==> !CrAtRisk(c, line)
  {
    hide Visible, LineLen, CanInsertCharAt, Covers;
    VisibleLength(c.doc.text, line);
  }

  /** Frozen content is immutable to the user: a command other than undo and
      redo leaves the lock and the locked prefix unchanged, and the visible
      texts of the frozen lines and their order too, exactly unless the command
      puts a line break after the visible CR of a frozen line. */
  lemma CommandsCannotTouchFrozenText(c: Core, v: Caret, cmd: Command)
    requires Fair(c, v, cmd) && !cmd.History? && Sorted(c.frozen)
    ensures var c' := DoAll(c, Perform(c, v, cmd).ps);
            && (Shown(c') == Shown(c) <==> !HidesACr(c, v, cmd))
            && c'.lock == c.lock && LockedPrefix(c') == LockedPrefix(c) && Sorted(c'.frozen)
  {
    hide Perform, SoundScript, Shown, LockedPrefix, Fair, HidesACr, Sorted, DoAll;
    CommandShows(c, v, cmd);
    CommandIsSound(c, v, cmd);
    CommandTakesNoStep(c, v, cmd);
    ScriptKeepsPrefix(c, Perform(c, v, cmd).ps);
  }

  lemma {:induction false} TypingTakesNoStep(c: Core, v: Caret, x: Text)
    ensures NoStep(TypeRun(c, v, x).ps)
    decreases |x|
  {
    hide DoAll, CanInsertCharAt;
    if x != [] {
      var one := TypeOne(c, v, x[0]);
      TypingTakesNoStep(DoAll(c, one.ps), one.caret, x[1..]);
    }
  }

  lemma InsertRunTakesNoStep(c: Core, v: Caret, x: Text)
    ensures NoStep(InsertRun(c, v, x).ps)
  {
    hide TypeRun, Do, CaretIndex;
    TypingTakesNoStep(c, v, x);
  }

  lemma CommandTakesNoStep(c: Core, v: Caret, cmd: Command)
    requires !cmd.History?
    ensures NoStep(Perform(c, v, cmd).ps)
  {
    hide InsertRun, CanDeleteRange, CanInsertCharAt, CaretIndex, LineLen, DeleteRange, Do, CaretAt, LineColToChar,
         SelectionRange;
    match cmd
    case InsertStr(x) => InsertRunTakesNoStep(c, v, x);
    case PasteStr(x) => InsertRunTakesNoStep(Do(c, PBegin(v.line, v.col)), v, x);
    case _ =>
  }
}
