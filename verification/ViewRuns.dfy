// Every command issues sound actions, so what holds of runs of sound actions
// holds of runs of commands.
module ViewRuns {
  import opened Lines
  import opened Splices
  import opened DocModel
  import DocHistory
  import opened Ranges
  import opened CoreModel
  import opened Faces
  import opened FaceRuns
  import opened View
  import Documents

  ghost predicate SoundScript(c: Core, ps: seq<Prim>)
    decreases |ps|
  {
    ps == [] || (PrimSound(c, ps[0]) && SoundScript(Do(c, ps[0]), ps[1..]))
  }

  lemma {:induction false} SoundConcat(c: Core, a: seq<Prim>, b: seq<Prim>)
    requires SoundScript(c, a) && SoundScript(DoAll(c, a), b)
    ensures SoundScript(c, a + b)
    decreases |a|
  {
    hide PrimSound, Do;
    if a == [] {
      assert a + b == b;
    } else {
      RestOfConcat(a, b);
      SoundConcat(Do(c, a[0]), a[1..], b);
    }
  }

  lemma SoundOne(c: Core, p: Prim)
    requires PrimSound(c, p)
    ensures SoundScript(c, [p]) && DoAll(c, [p]) == Do(c, p)
  {
    hide PrimSound, Do;
    assert [p][1..] == [];
  }

  lemma SoundTwo(c: Core, p: Prim, q: Prim)
    requires PrimSound(c, p) && PrimSound(Do(c, p), q)
    ensures SoundScript(c, [p, q])
  {
    hide PrimSound, Do;
    SoundOne(c, p);
    SoundOne(Do(c, p), q);
    SoundConcat(c, [p], [q]);
    assert [p] + [q] == [p, q];
  }

  /** The command is one the claims are about: the caret line is in the
      document, plain edits happen inside a group, history steps outside one. */
  predicate Fair(c: Core, v: Caret, cmd: Command) {
    && v.line <= Breaks(c.doc.text)
    && (cmd.TypeChar? || cmd.InsertStr? || cmd.Backspace? || cmd.DeleteBack? ==> c.doc.pending.Some?)
    && (cmd.History? ==> c.doc.pending.None?)
  }

  /** What opening a group leaves alone. */
  lemma BeginEffect(c: Core, v: Caret)
    ensures var c' := Do(c, PBegin(v.line, v.col));
            && c' == c.(doc := c'.doc) && c'.doc == c.doc.(pending := c'.doc.pending)
            && c'.doc.pending.Some?
  {
  }

  /** A body that is sound in an open group is sound wrapped in one. */
  lemma GroupedSound(c: Core, v: Caret, body: seq<Prim>, after: Caret)
    requires SoundScript(Do(c, PBegin(v.line, v.col)), body)
    ensures SoundScript(c, Grouped(c, v, body, after).ps)
  {
    hide Do, SoundScript;
    var p, q := PBegin(v.line, v.col), PEnd(after.line, after.col);
    if c.doc.pending.Some? {
      BeginIsNothing(c, v);
    } else {
      SoundOne(c, p);
      SoundOne(DoAll(Do(c, p), body), q);
      SoundConcat(Do(c, p), body, [q]);
      SoundConcat(c, [p], body + [q]);
      assert [p] + (body + [q]) == [p] + body + [q];
    }
  }

  lemma BeginIsNothing(c: Core, v: Caret)
    requires c.doc.pending.Some?
    ensures Do(c, PBegin(v.line, v.col)) == c
  {
  }

  /** An insert leaves the caret line in the document, one further for a break. */
  lemma InsertGrows(d: Doc, i: nat, x: Text)
    requires i <= |d.text|
    ensures Breaks(InsertAt(d, i, x).text) == Breaks(d.text) + Breaks(x)
  {
    hide Breaks;
    var t := d.text;
    BreaksConcat(t[..i], x);
    BreaksConcat(t[..i] + x, t[i..]);
    BreaksBound(t, i);
  }

  lemma GuardSaysInsertSound(c: Core, line: nat, col: nat, ch: char)
    requires CanInsertCharAt(c, line, col, ch) && c.doc.pending.Some? && line <= Breaks(c.doc.text)
    ensures PrimSound(c, PInsert(line, col, [ch]))
  {
  }

  lemma TypeOneSound(c: Core, v: Caret, ch: char)
    requires c.doc.pending.Some? && v.line <= Breaks(c.doc.text)
    ensures var act := TypeOne(c, v, ch);
            && SoundScript(c, act.ps)
            && DoAll(c, act.ps).doc.pending.Some?
            && act.caret.line <= Breaks(DoAll(c, act.ps).doc.text)
  {
    hide LineColToChar, ShiftForInsert, RecordSplice;
    if CanInsertCharAt(c, v.line, v.col, ch) {
      var p := PInsert(v.line, v.col, [ch]);
      GuardSaysInsertSound(c, v.line, v.col, ch);
      SoundOne(c, p);
      InsertGrows(c.doc, LineColToChar(c.doc.text, v.line, v.col), [ch]);
      NoBreaks([ch]);
      InsertKeepsGroup(c.doc, LineColToChar(c.doc.text, v.line, v.col), [ch]);
      assert ch == '\n' ==> Breaks([ch]) == 1;
    }
  }

  lemma InsertKeepsGroup(d: Doc, i: nat, x: Text)
    requires d.pending.Some?
    ensures InsertAt(d, i, x).pending.Some?
  {
    hide RecordIn, EditOf;
  }

  lemma {:induction false} TypeRunSound(c: Core, v: Caret, x: Text)
    requires c.doc.pending.Some? && v.line <= Breaks(c.doc.text)
    ensures var act := TypeRun(c, v, x);
            && SoundScript(c, act.ps)
            && act.caret.line <= Breaks(DoAll(c, act.ps).doc.text)
    decreases |x|
  {
    hide SoundScript, TypeOne, DoAll;
    if x == [] {
      assert SoundScript(c, []) && DoAll(c, []) == c by { EmptyScript(c); }
    } else {
      var one := TypeOne(c, v, x[0]);
      TypeOneSound(c, v, x[0]);
      var c' := DoAll(c, one.ps);
      TypeRunSound(c', one.caret, x[1..]);
      var rest := TypeRun(c', one.caret, x[1..]);
      SoundConcat(c, one.ps, rest.ps);
      DoAllConcat(c, one.ps, rest.ps);
    }
  }

  lemma EmptyScript(c: Core)
    ensures SoundScript(c, []) && DoAll(c, []) == c
  {
  }

  lemma InsertRunSound(c: Core, v: Caret, x: Text)
    requires c.doc.pending.Some? && v.line <= Breaks(c.doc.text)
    ensures SoundScript(c, InsertRun(c, v, x).ps)
  {
    hide TypeRun, SoundScript, Covers, CaretIndex, Do;
    EmptyScript(c);
    if v.line < c.lock || IsFrozen(c, v.line) {
      TypeRunSound(c, v, x);
    } else {
      SoundOne(c, PTyped(v.line, v.col, x));
    }
  }

  /** A delete the guard lets through, of text that is there. */
  lemma GuardSaysDeleteSound(c: Core, s: nat, e: nat)
    requires s < e <= |c.doc.text| && CanDeleteRange(c, s, e) && c.doc.pending.Some?
    ensures PrimSound(c, PDelete(s, e))
  {
    hide Meets, LastTouched, LineOf;
  }

  /** A visible character is no line break, and its caret stays where it is
      once the character is gone. */
  lemma VisibleChar(t: Text, line: nat, col: nat)
    requires col < LineLen(t, line)
    ensures var i := LineColToChar(t, line, col);
            && line <= Breaks(t) && i < |t| && t[i] != '\n' && LineOf(t, i) == line
  {
    hide Breaks, LineStart, TailLen;
    CaretPosition(t, line, col);
  }

  /** Deleting a character that is no line break moves no line. */
  lemma CharDeleteEffect(c: Core, i: nat)
    requires i < |c.doc.text| && c.doc.text[i] != '\n' && c.doc.pending.Some?
    ensures var c' := Do(c, PDelete(i, i + 1));
            && c'.frozen == c.frozen && c'.lock == c.lock
            && c'.doc.pending.Some?
            && Breaks(c'.doc.text) == Breaks(c.doc.text)
  {
    hide EditOf, RecordIn, LineOf, ColOf, Breaks;
    var t := c.doc.text;
    var gone := t[i..i + 1];
    NoBreaks(gone);
    assert t == t[..i] + gone + t[i + 1..];
    BreaksConcat(t[..i], gone);
    BreaksConcat(t[..i] + gone, t[i + 1..]);
    BreaksConcat(t[..i], t[i + 1..]);
  }

  /** Replacing one character that is no line break. */
  lemma ReplaceSound(c: Core, v: Caret, i: nat, line: nat, col: nat, ch: char)
    requires i < |c.doc.text| && c.doc.text[i] != '\n' && LineOf(c.doc.text, i) == line <= Breaks(c.doc.text)
    requires CanDeleteRange(c, i, i + 1)
    ensures SoundScript(c, Grouped(c, v, [PDelete(i, i + 1), PInsert(line, col, [ch])], v).ps)
  {
    hide SoundScript, Do, Grouped;
    var g := Do(c, PBegin(v.line, v.col));
    BeginEffect(c, v);
    assert CanDeleteRange(g, i, i + 1);
    GuardSaysDeleteSound(g, i, i + 1);
    CharDeleteEffect(g, i);
    LineUnfrozen(c, i, i + 1);
    SoundTwo(g, PDelete(i, i + 1), PInsert(line, col, [ch]));
    GroupedSound(c, v, [PDelete(i, i + 1), PInsert(line, col, [ch])], v);
  }

  /** The line a permitted delete starts on is editable. */
  lemma LineUnfrozen(c: Core, s: nat, e: nat)
    requires s < e <= |c.doc.text| && CanDeleteRange(c, s, e)
    ensures LineOf(c.doc.text, s) >= c.lock && !IsFrozen(c, LineOf(c.doc.text, s))
  {
    hide Covers, LineOf;
    LinesGrow(c.doc.text, s, e);
    NotMet(c.frozen, LineOf(c.doc.text, s), LastTouched(c.doc.text, s, e), LineOf(c.doc.text, s));
  }

  lemma GroupedDeleteSound(c: Core, v: Caret, s: nat, e: nat, after: Caret)
    requires s < e <= |c.doc.text| && CanDeleteRange(c, s, e)
    ensures SoundScript(c, Grouped(c, v, [PDelete(s, e)], after).ps)
  {
    hide SoundScript, Do, Grouped;
    var g := Do(c, PBegin(v.line, v.col));
    BeginEffect(c, v);
    assert CanDeleteRange(g, s, e);
    GuardSaysDeleteSound(g, s, e);
    SoundOne(g, PDelete(s, e));
    GroupedSound(c, v, [PDelete(s, e)], after);
  }

  lemma DeleteGuardedSound(c: Core, v: Caret, s: nat, e: nat)
    requires e <= |c.doc.text| && c.doc.pending.Some?
    ensures SoundScript(c, DeleteGuarded(c, v, s, e).ps)
  {
    hide SoundScript, CanDeleteRange;
    EmptyScript(c);
    if s < e && CanDeleteRange(c, s, e) {
      GuardSaysDeleteSound(c, s, e);
      SoundOne(c, PDelete(s, e));
    }
  }

  lemma OpenLineSound(c: Core, v: Caret, col: nat)
    requires v.line <= Breaks(c.doc.text) && CanInsertCharAt(c, v.line, col, '\n')
    ensures var ps := (if c.doc.pending.Some? then [] else [PBegin(v.line, v.col)]) + [PInsert(v.line, col, ['\n'])];
            SoundScript(c, ps)
  {
    hide SoundScript, Do;
    var p, q := PBegin(v.line, v.col), PInsert(v.line, col, ['\n']);
    BeginEffect(c, v);
    var g := Do(c, p);
    assert CanInsertCharAt(g, v.line, col, '\n');
    GuardSaysInsertSound(g, v.line, col, '\n');
    if c.doc.pending.Some? {
      BeginIsNothing(c, v);
      SoundOne(c, q);
      assert [] + [q] == [q];
    } else {
      SoundTwo(c, p, q);
      assert [p] + [q] == [p, q];
    }
  }

  lemma LineRangeInText(t: Text, line: nat)
    ensures var r := Documents.LineDeleteRange(t, line);
            r.Some? ==> r.value.0 < r.value.1 <= |t|
  {
  }

  /** Every command issues sound actions. */
  lemma CommandIsSound(c: Core, v: Caret, cmd: Command)
    requires Fair(c, v, cmd)
    ensures SoundScript(c, Perform(c, v, cmd).ps)
  {
    hide SoundScript, Grouped, Do, InsertRun, DeleteGuarded, TypeOne, CanDeleteRange, CanInsertCharAt,
         LineStart, Breaks, LineLen, DeleteRange, HistoryStep, CaretAt;
    var t := c.doc.text;
    EmptyScript(c);
    match cmd
    case BeginInsert => SoundOne(c, PBegin(v.line, v.col));
    case EndInsert => SoundOne(c, PEnd(v.line, v.col));
    case TypeChar(ch) => TypeOneSound(c, v, ch);
    case InsertStr(x) => InsertRunSound(c, v, x);
    case PasteStr(x) =>
      var g := Do(c, PBegin(v.line, v.col));
      BeginEffect(c, v);
      InsertRunSound(g, v, x);
      GroupedSound(c, v, InsertRun(g, v, x).ps, InsertRun(g, v, x).caret);
    case Backspace =>
      var i := CaretIndex(t, v);
      if i > 0 {
        DeleteGuardedSound(c, v, i - 1, i);
      }
    case DeleteBack(n) =>
      var col := Min(v.col, LineLen(t, v.line));
      var k, i := Min(n, col), LineColToChar(t, v.line, col);
      if k != 0 && i >= k {
        DeleteGuardedSound(c, v, i - k, i);
      }
    case DeleteUnder(insertMode) =>
      var i := CaretIndex(t, v);
      if i < |t| && CanDeleteRange(c, i, i + 1) {
        GroupedDeleteSound(c, v, i, i + 1, if insertMode then v else OnLastChar(DeleteRange(c.doc, i, i + 1).text, v));
      }
    case ReplaceChar(ch) =>
      var i := CaretIndex(t, v);
      if v.col < LineLen(t, v.line) && CanDeleteRange(c, i, i + 1) {
        VisibleChar(t, v.line, v.col);
        ReplaceSound(c, v, i, v.line, v.col, ch);
      }
    case DeleteLine =>
      LineRangeInText(t, v.line);
      var r := Documents.LineDeleteRange(t, v.line);
      if r.Some? && CanDeleteRange(c, r.value.0, r.value.1) {
        var u := DeleteRange(c.doc, r.value.0, r.value.1).text;
        GroupedDeleteSound(c, v, r.value.0, r.value.1, Caret(Min(CaretAt(u, r.value.0).line, Breaks(u)), 0));
      }
    case OpenBelow =>
      if CanInsertCharAt(c, v.line, LineLen(t, v.line), '\n') {
        OpenLineSound(c, v, LineLen(t, v.line));
      }
    case OpenAbove =>
      if CanInsertCharAt(c, v.line, 0, '\n') {
        OpenLineSound(c, v, 0);
      }
    case DeleteSelection(anchor) =>
      var r := SelectionRange(t, v, anchor);
      if r.0 < r.1 && CanDeleteRange(c, r.0, r.1) {
        GroupedDeleteSound(c, v, r.0, r.1, CaretAt(DeleteRange(c.doc, r.0, r.1).text, r.0));
      }
    case ToggleChar(at, ch) =>
      if at < |t| && t[at] != '\n' && CanDeleteRange(c, at, at + 1) {
        var p := CaretAt(t, at);
        CaretAtLine(t, at);
        ReplaceSound(c, p, at, p.line, p.col, ch);
      }
    case History(dir) => SoundOne(c, PStep(dir));
    case MoveTo(_) =>
  }

  lemma CaretAtLine(t: Text, i: nat)
    requires i <= |t|
    ensures CaretAt(t, i).line == LineOf(t, i) <= Breaks(t)
  {
    PositionOf(t, i);
  }

  // --- Whole runs ---

  ghost predicate FairRun(c: Core, v: Caret, cmds: seq<Command>)
    decreases |cmds|
  {
    cmds == [] ||
    (&& Fair(c, v, cmds[0])
     && var act := Perform(c, v, cmds[0]);
        FairRun(DoAll(c, act.ps), act.caret, cmds[1..]))
  }

  /** The faces after a script. */
  ghost function RetellAll(tl: seq<Face>, c: Core, lock: nat, ps: seq<Prim>): seq<Face>
    requires Retells(c, tl, lock) && SoundScript(c, ps)
    decreases |ps|
  {
    if ps == [] then tl
    else
      PrimRetells(c, tl, lock, ps[0]);
      RetellAll(Retell(tl, c, ps[0]), Do(c, ps[0]), lock, ps[1..])
  }

  lemma {:induction false} ScriptRetells(c: Core, tl: seq<Face>, lock: nat, ps: seq<Prim>)
    requires Retells(c, tl, lock) && SoundScript(c, ps)
    ensures Retells(DoAll(c, ps), RetellAll(tl, c, lock, ps), lock)
    decreases |ps|
  {
    hide Retells, PrimSound, Do, Retell;
    if ps != [] {
      RetellsBasics(c, tl, lock);
      PrimRetells(c, tl, lock, ps[0]);
      ScriptRetells(Do(c, ps[0]), Retell(tl, c, ps[0]), lock, ps[1..]);
    }
  }

  /** The faces after a run of commands. */
  ghost function Chronicle(tl: seq<Face>, c: Core, v: Caret, lock: nat, cmds: seq<Command>): seq<Face>
    requires Retells(c, tl, lock) && FairRun(c, v, cmds)
    decreases |cmds|
  {
    if cmds == [] then tl
    else
      var act := Perform(c, v, cmds[0]);
      CommandIsSound(c, v, cmds[0]);
      ScriptRetells(c, tl, lock, act.ps);
      Chronicle(RetellAll(tl, c, lock, act.ps), DoAll(c, act.ps), act.caret, lock, cmds[1..])
  }

  lemma {:induction false} RunRetells(c: Core, tl: seq<Face>, v: Caret, lock: nat, cmds: seq<Command>)
    requires Retells(c, tl, lock) && FairRun(c, v, cmds)
    ensures Retells(Run(c, v, cmds).0, Chronicle(tl, c, v, lock, cmds), lock)
    decreases |cmds|
  {
    hide Retells, Perform, DoAll, RetellAll;
    if cmds != [] {
      var act := Perform(c, v, cmds[0]);
      CommandIsSound(c, v, cmds[0]);
      ScriptRetells(c, tl, lock, act.ps);
      RunRetells(DoAll(c, act.ps), RetellAll(tl, c, lock, act.ps), act.caret, lock, cmds[1..]);
    }
  }

  /** A document with no history yet. */
  predicate Untouched(c: Core) {
    c.doc.undo == [] && c.doc.redo == [] && c.doc.pending.None? && Sorted(c.frozen)
  }

  lemma UntouchedRetells(c: Core)
    requires Untouched(c)
    ensures Retells(c, [FaceOf(c)], c.lock)
  {
    NothingLeads(FaceOf(c), c.lock, FaceOf(c));
  }

  /** Undo restores text and frozen state together: after every fair run of
      commands, whenever no group is open the editor shows the text, the frozen
      lines and the locked prefix of the history depth it stands at. */
  lemma EveryDepthShowsItsFace(c: Core, v: Caret, cmds: seq<Command>)
    requires Untouched(c) && FairRun(c, v, cmds)
    ensures Retells(c, [FaceOf(c)], c.lock)
    ensures var c', tl := Run(c, v, cmds).0, Chronicle([FaceOf(c)], c, v, c.lock, cmds);
            && c'.lock == c.lock
            && |tl| == |c'.doc.undo| + |c'.doc.redo| + 1
            && (c'.doc.pending.None? ==> FaceOf(c') == tl[|c'.doc.undo|])
  {
    UntouchedRetells(c);
    RunRetells(c, [FaceOf(c)], v, c.lock, cmds);
    var c', tl := Run(c, v, cmds).0, Chronicle([FaceOf(c)], c, v, c.lock, cmds);
    ShowsCurrentFace(c', tl, c.lock);
  }

  lemma ShowsCurrentFace(c: Core, tl: seq<Face>, lock: nat)
    requires Retells(c, tl, lock)
    ensures c.lock == lock && |tl| == |c.doc.undo| + |c.doc.redo| + 1
    ensures c.doc.pending.None? ==> FaceOf(c) == tl[|c.doc.undo|]
  {
    NothingLeads(tl[|c.doc.undo|], lock, FaceOf(c));
  }

  /** From any such state, walking the history shows the face of each depth it
      passes, without changing the record of faces. */
  lemma WalkingShowsEveryFace(c: Core, tl: seq<Face>, lock: nat, dir: Dir)
    requires Retells(c, tl, lock) && c.doc.pending.None? && Stack(c.doc, dir) != []
    ensures var c', pos := Step(c, dir), if dir.Undo? then |c.doc.undo| - 1 else |c.doc.undo| + 1;
            && Retells(c', tl, lock)
            && 0 <= pos < |tl| && |c'.doc.undo| == pos
            && FaceOf(c') == tl[pos] && c'.lock == lock
  {
    hide Retells;
    StepShowsFace(c, tl, lock, dir);
    StepRetells(c, tl, lock, dir);
    HistorySize(c, tl, lock);
    StepMovesEntry(c, dir);
  }

  lemma HistorySize(c: Core, tl: seq<Face>, lock: nat)
    requires Retells(c, tl, lock)
    ensures DocHistory.Entries(c.doc) <= UNDO_CAP
  {
  }
}
