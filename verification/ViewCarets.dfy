// Which group a command opens or closes, and the caret that undo and redo then
// bring back to the view.
module ViewCarets {
  import opened Lines
  import opened Options
  import opened Splices
  import opened DocModel
  import DocHistory
  import opened Ranges
  import opened CoreModel
  import opened View
  import opened ViewRuns
  import opened Effects
  import Documents

  /** A group opened at `v` is open, on top of `undo`; once it has recorded
      something nothing is left to redo. */
  predicate OpenAt(d: Doc, v: Caret, undo: seq<Entry>) {
    && d.pending.Some? && d.pending.value.beforeLine == v.line && d.pending.value.beforeCol == v.col
    && d.undo == undo
    && (DocHistory.PendingSplices(d) != [] ==> d.redo == [])
  }

  // --- What single actions do to the open group ---

  lemma InsertKeepsOpening(d: Doc, at: nat, x: Text, v: Caret, undo: seq<Entry>)
    ensures InsertAt(d, at, x).pending.Some? <==> d.pending.Some?
    ensures OpenAt(d, v, undo) ==> OpenAt(InsertAt(d, at, x), v, undo)
  {
    hide Record, EditOf;
  }

  lemma DeleteKeepsOpening(d: Doc, s: nat, e: nat, v: Caret, undo: seq<Entry>)
    ensures DeleteRange(d, s, e).pending.Some? <==> d.pending.Some?
    ensures OpenAt(d, v, undo) ==> OpenAt(DeleteRange(d, s, e), v, undo)
  {
    hide Record, EditOf;
  }

  predicate Inner(p: Prim) { p.PInsert? || p.PTyped? || p.PDelete? }

  predicate AllInner(ps: seq<Prim>) { forall i :: 0 <= i < |ps| ==> Inner(ps[i]) }

  lemma InnerKeepsOpening(c: Core, p: Prim, v: Caret, undo: seq<Entry>)
    requires Inner(p)
    ensures Do(c, p).doc.pending.Some? <==> c.doc.pending.Some?
    ensures OpenAt(c.doc, v, undo) ==> OpenAt(Do(c, p).doc, v, undo)
  {
    hide InsertAt, DeleteRange, LineColToChar, ShiftForInsert, ShiftForTypedInsert, ShiftForDelete, OpenAt;
    match p
    case PInsert(l, k, x) => InsertKeepsOpening(c.doc, LineColToChar(c.doc.text, l, k), x, v, undo);
    case PTyped(l, k, x) => InsertKeepsOpening(c.doc, LineColToChar(c.doc.text, l, k), x, v, undo);
    case PDelete(s, e) => DeleteKeepsOpening(c.doc, s, e, v, undo);
  }

  lemma {:induction false} InnersKeepOpening(c: Core, ps: seq<Prim>, v: Caret, undo: seq<Entry>)
    requires AllInner(ps)
    ensures DoAll(c, ps).doc.pending.Some? <==> c.doc.pending.Some?
    ensures OpenAt(c.doc, v, undo) ==> OpenAt(DoAll(c, ps).doc, v, undo)
    decreases |ps|
  {
    hide Do, OpenAt;
    if ps != [] {
      InnerKeepsOpening(c, ps[0], v, undo);
      InnersKeepOpening(Do(c, ps[0]), ps[1..], v, undo);
    }
  }

  lemma {:induction false} TypingIsInner(c: Core, v: Caret, x: Text)
    ensures AllInner(TypeRun(c, v, x).ps)
    decreases |x|
  {
    hide DoAll, CanInsertCharAt;
    if x != [] {
      var one := TypeOne(c, v, x[0]);
      TypingIsInner(DoAll(c, one.ps), one.caret, x[1..]);
    }
  }

  lemma RunIsInner(c: Core, v: Caret, x: Text)
    ensures AllInner(InsertRun(c, v, x).ps)
  {
    hide TypeRun, Do, CaretIndex, Covers;
    TypingIsInner(c, v, x);
  }

  // --- Groups ---

  /** The command makes one undo step of its own unless a group is open. */
  predicate SelfGrouped(cmd: Command) {
    cmd.PasteStr? || cmd.DeleteUnder? || cmd.ReplaceChar? || cmd.DeleteLine? || cmd.DeleteSelection?
  }

  /** The command edits, or does nothing, inside whatever group is open. */
  predicate Plain(cmd: Command) {
    cmd.TypeChar? || cmd.InsertStr? || cmd.Backspace? || cmd.DeleteBack? || cmd.MoveTo?
  }

  lemma PlainIsInner(c: Core, v: Caret, cmd: Command)
    requires Plain(cmd)
    ensures AllInner(Perform(c, v, cmd).ps)
  {
    hide InsertRun, CanDeleteRange, CanInsertCharAt, CaretIndex, LineLen, DeleteRange, Do, CaretAt, LineColToChar;
    match cmd
    case InsertStr(x) => RunIsInner(c, v, x);
    case _ =>
  }

  /** A command that groups itself is a body between the opening at the caret
      before it and the closing at the caret after it. */
  ghost predicate Wraps(c: Core, v: Caret, cmd: Command, body: seq<Prim>) {
    && AllInner(body)
    && var act := Perform(c, v, cmd);
       act == Act([], v) || act == Grouped(c, v, body, act.caret)
  }

  lemma SelfGroupedWraps(c: Core, v: Caret, cmd: Command) returns (body: seq<Prim>)
    requires SelfGrouped(cmd)
    ensures Wraps(c, v, cmd, body)
  {
    hide InsertRun, CanDeleteRange, CanInsertCharAt, CaretIndex, LineLen, DeleteRange, Do, CaretAt, SelectionRange;
    var t := c.doc.text;
    match cmd
    case PasteStr(x) =>
      body := InsertRun(Do(c, PBegin(v.line, v.col)), v, x).ps;
      RunIsInner(Do(c, PBegin(v.line, v.col)), v, x);
    case DeleteUnder(mode) => body := [PDelete(CaretIndex(t, v), CaretIndex(t, v) + 1)];
    case ReplaceChar(ch) =>
      body := [PDelete(CaretIndex(t, v), CaretIndex(t, v) + 1), PInsert(v.line, v.col, [ch])];
    case DeleteLine =>
      var r := Documents.LineDeleteRange(t, v.line);
      body := if r.Some? then [PDelete(r.value.0, r.value.1)] else [];
    case DeleteSelection(anchor) =>
      var r := SelectionRange(t, v, anchor);
      body := [PDelete(r.0, r.1)];
  }

  /** The carets undo and redo hand back for a group just closed. */
  lemma ClosedHandsBack(d: Doc, v: Caret, undo: seq<Entry>, w: Caret)
    requires OpenAt(d, v, undo) && |undo| <= UNDO_CAP && End(d, w.line, w.col).undo != undo
    ensures var e := End(d, w.line, w.col);
            && Stack(e, Undo) != [] && HistoryCaret(e, Undo) == (v.line, v.col)
            && var u := HistoryStep(e, Undo);
               Stack(u, Redo) != [] && HistoryCaret(u, Redo) == (w.line, w.col)
  {
    hide ReplayText;
    var full := d.(pending := None, undo := d.undo + [d.pending.value.(afterLine := w.line, afterCol := w.col)]);
    if |full.undo| > UNDO_CAP {
      DocHistory.EvictOne(full);
    }
  }

  /** Where the view puts a caret that the history hands back: its line in the
      document, its column on the last character of the line at the furthest. */
  function Landed(t: Text, v: Caret): Caret {
    var line := Min(v.line, Breaks(t));
    var len := LineLen(t, line);
    Caret(line, if len == 0 then 0 else Min(v.col, len - 1))
  }

  lemma HistoryCaretLands(c: Core, v: Caret, dir: Dir)
    requires Stack(c.doc, dir) != []
    ensures var (d, w) := After(c, v, History(dir));
            && d.doc == HistoryStep(c.doc, dir)
            && w == Landed(d.doc.text, Caret(HistoryCaret(c.doc, dir).0, HistoryCaret(c.doc, dir).1))
  {
    hide HistoryStep, ApplyShifts, Merge, Breaks, LineLen, HistoryShifts;
    OneDone(c, PStep(dir));
    ShiftsKeepDoc(c.(doc := HistoryStep(c.doc, dir)), HistoryShifts(c.doc, dir));
  }

  /** From a closed group, undo puts the caret back at `from` and redo at `upto`. */
  ghost predicate BringsBack(c: Core, v: Caret, from: Caret, upto: Caret) {
    var undone := After(c, v, History(Undo));
    var redone := After(undone.0, undone.1, History(Redo));
    && undone.1 == Landed(undone.0.doc.text, from)
    && redone.1 == Landed(redone.0.doc.text, upto)
  }

  lemma GroupCarets(c: Core, from: Caret, undo: seq<Entry>, upto: Caret, v: Caret)
    requires OpenAt(c.doc, from, undo) && |undo| <= UNDO_CAP
    requires Do(c, PEnd(upto.line, upto.col)).doc.undo != undo
    ensures BringsBack(Do(c, PEnd(upto.line, upto.col)), v, from, upto)
  {
    hide HistoryStep, Step, After, End, Landed;
    ClosedHandsBack(c.doc, from, undo, upto);
    var closed := Do(c, PEnd(upto.line, upto.col));
    HistoryCaretLands(closed, v, Undo);
    var undone := After(closed, v, History(Undo));
    HistoryCaretLands(undone.0, undone.1, Redo);
  }

  /** A command that groups itself and adds an undo step: undo puts the caret
      back where it was before the command, redo where the command left it. */
  lemma CommandCarets(c: Core, v: Caret, cmd: Command)
    requires SelfGrouped(cmd) && c.doc.pending.None? && |c.doc.undo| <= UNDO_CAP
    ensures var (d, w) := After(c, v, cmd);
            d.doc.undo != c.doc.undo ==> BringsBack(d, w, v, w)
  {
    hide Perform, Do, DoAll, OpenAt, BringsBack, AllInner;
    var body := SelfGroupedWraps(c, v, cmd);
    var act := Perform(c, v, cmd);
    var p, q := PBegin(v.line, v.col), PEnd(act.caret.line, act.caret.col);
    NothingDone(c);
    if act != Act([], v) {
      var g := Do(c, p);
      OneDone(c, p);
      DoAllConcat(c, [p], body);
      DoAllConcat(c, [p] + body, [q]);
      OneDone(DoAll(g, body), q);
      JustOpened(c, v);
      InnersKeepOpening(g, body, v, c.doc.undo);
      if Do(DoAll(g, body), q).doc.undo != c.doc.undo {
        GroupCarets(DoAll(g, body), v, c.doc.undo, act.caret, act.caret);
      }
    }
  }

  lemma NothingDone(c: Core)
    ensures DoAll(c, []) == c
  {
  }

  lemma JustOpened(c: Core, v: Caret)
    requires c.doc.pending.None?
    ensures OpenAt(Do(c, PBegin(v.line, v.col)).doc, v, c.doc.undo)
  {
  }

  // --- Insert sessions ---

  /** A command that starts an insert session, if it does anything. */
  predicate Starts(cmd: Command) { cmd.BeginInsert? || cmd.OpenBelow? || cmd.OpenAbove? }

  lemma StartOpens(c: Core, v: Caret, cmd: Command)
    requires Starts(cmd) && c.doc.pending.None?
    ensures var d := After(c, v, cmd).0;
            d == c || OpenAt(d.doc, v, c.doc.undo)
  {
    hide Do, DoAll, OpenAt, CanInsertCharAt, LineLen;
    NothingDone(c);
    JustOpened(c, v);
    var p := PBegin(v.line, v.col);
    OneDone(c, p);
    if !cmd.BeginInsert? {
      var q := PInsert(v.line, if cmd.OpenBelow? then LineLen(c.doc.text, v.line) else 0, ['\n']);
      TwoDone(c, p, q);
      assert [p] + [q] == [p, q];
      InnerKeepsOpening(Do(c, p), q, v, c.doc.undo);
    }
  }

  /** What is left of the commands' groups while a group is open. */
  lemma InSession(c: Core, v: Caret, cmd: Command, from: Caret, undo: seq<Entry>)
    requires OpenAt(c.doc, from, undo) && !cmd.EndInsert? && !cmd.History?
    ensures OpenAt(After(c, v, cmd).0.doc, from, undo)
  {
    hide Do, DoAll, OpenAt, CanInsertCharAt, CanDeleteRange, LineLen, AllInner, InsertRun, CaretIndex, Perform;
    StillOpen(c.doc, from, undo);
    NothingDone(c);
    if Plain(cmd) {
      PlainIsInner(c, v, cmd);
      InnersKeepOpening(c, Perform(c, v, cmd).ps, from, undo);
    } else if SelfGrouped(cmd) {
      var body := SelfGroupedWraps(c, v, cmd);
      InnersKeepOpening(c, body, from, undo);
    } else {
      OtherInSession(c, v, cmd, from, undo);
    }
  }

  lemma StillOpen(d: Doc, from: Caret, undo: seq<Entry>)
    requires OpenAt(d, from, undo)
    ensures d.pending.Some?
  {
  }

  lemma OtherInSession(c: Core, v: Caret, cmd: Command, from: Caret, undo: seq<Entry>)
    requires OpenAt(c.doc, from, undo) && (Starts(cmd) || cmd.ToggleChar?)
    ensures OpenAt(After(c, v, cmd).0.doc, from, undo)
  {
    hide Do, DoAll, OpenAt, CanInsertCharAt, CanDeleteRange, LineLen, Breaks, TailLen;
    StillOpen(c.doc, from, undo);
    NothingDone(c);
    BeginIsNothing(c, v);
    OneDone(c, PBegin(v.line, v.col));
    var below, above := PInsert(v.line, LineLen(c.doc.text, v.line), ['\n']), PInsert(v.line, 0, ['\n']);
    InnersKeepOpening(c, [below], from, undo);
    InnersKeepOpening(c, [above], from, undo);
    assert [] + [below] == [below] && [] + [above] == [above];
    if cmd.ToggleChar? && cmd.at < |c.doc.text| {
      var p := CaretAt(c.doc.text, cmd.at);
      InnersKeepOpening(c, [PDelete(cmd.at, cmd.at + 1), PInsert(p.line, p.col, [cmd.ch])], from, undo);
    }
  }

  predicate InsideSession(cmds: seq<Command>) {
    forall i :: 0 <= i < |cmds| ==> !cmds[i].EndInsert? && !cmds[i].History?
  }

  lemma {:induction false} RunInSession(c: Core, v: Caret, cmds: seq<Command>, from: Caret, undo: seq<Entry>)
    requires OpenAt(c.doc, from, undo) && InsideSession(cmds)
    ensures OpenAt(Run(c, v, cmds).0.doc, from, undo)
    decreases |cmds|
  {
    hide OpenAt, Perform, DoAll;
    if cmds != [] {
      InSession(c, v, cmds[0], from, undo);
      var (d, w) := After(c, v, cmds[0]);
      RunInSession(d, w, cmds[1..], from, undo);
    }
  }

  /** An insert session, whatever is done in it, that adds an undo step: undo
      puts the caret back where the session was started, redo where it ended. */
  lemma SessionCarets(c: Core, v: Caret, start: Command, cmds: seq<Command>)
    requires Starts(start) && InsideSession(cmds) && c.doc.pending.None? && |c.doc.undo| <= UNDO_CAP
    requires After(c, v, start).0 != c
    ensures var begun := After(c, v, start);
            var (d, w) := Run(begun.0, begun.1, cmds);
            var ended := After(d, w, EndInsert);
            ended.0.doc.undo != c.doc.undo ==> BringsBack(ended.0, ended.1, v, w)
  {
    hide OpenAt, Do, DoAll, BringsBack, Run;
    StartOpens(c, v, start);
    var begun := After(c, v, start);
    RunInSession(begun.0, begun.1, cmds, v, c.doc.undo);
    var (d, w) := Run(begun.0, begun.1, cmds);
    OneDone(d, PEnd(w.line, w.col));
    if Do(d, PEnd(w.line, w.col)).doc.undo != c.doc.undo {
      GroupCarets(d, v, c.doc.undo, w, w);
    }
  }

  // --- Which commands leave a group open ---

  lemma GroupedCloses(c: Core, v: Caret, body: seq<Prim>, after: Caret)
    requires AllInner(body)
    ensures DoAll(c, Grouped(c, v, body, after).ps).doc.pending.Some? <==> c.doc.pending.Some?
  {
    hide Do, DoAll, OpenAt, AllInner;
    var p, q := PBegin(v.line, v.col), PEnd(after.line, after.col);
    InnersKeepOpening(c, body, v, []);
    if c.doc.pending.None? {
      var g := Do(c, p);
      OneDone(c, p);
      DoAllConcat(c, [p], body);
      DoAllConcat(c, [p] + body, [q]);
      OneDone(DoAll(g, body), q);
      EndCloses(DoAll(g, body), after);
    }
  }

  lemma EndCloses(c: Core, v: Caret)
    ensures Do(c, PEnd(v.line, v.col)).doc.pending.None?
  {
  }

  /** An insert session is open from the command that starts it to the one that
      ends it; no other command opens or closes a group for good. */
  lemma CommandGroups(c: Core, v: Caret, cmd: Command)
    requires !cmd.History?
    ensures var d := After(c, v, cmd).0;
            d.doc.pending.Some? <==>
              if cmd.EndInsert? then false
              else c.doc.pending.Some? || cmd.BeginInsert? || (Starts(cmd) && d != c)
  {
    hide Do, DoAll, OpenAt, CanInsertCharAt, CanDeleteRange, LineLen, AllInner, InsertRun, CaretIndex, Perform;
    NothingDone(c);
    if Plain(cmd) {
      PlainIsInner(c, v, cmd);
      InnersKeepOpening(c, Perform(c, v, cmd).ps, v, []);
    } else if SelfGrouped(cmd) {
      var body := SelfGroupedWraps(c, v, cmd);
      GroupedCloses(c, v, body, Perform(c, v, cmd).caret);
    } else {
      OtherGroups(c, v, cmd);
    }
  }

  lemma OtherGroups(c: Core, v: Caret, cmd: Command)
    requires Starts(cmd) || cmd.ToggleChar? || cmd.EndInsert?
    ensures var d := After(c, v, cmd).0;
            d.doc.pending.Some? <==>
              if cmd.EndInsert? then false
              else c.doc.pending.Some? || cmd.BeginInsert? || (Starts(cmd) && d != c)
  {
    hide Do, DoAll, OpenAt, CanInsertCharAt, CanDeleteRange, LineLen, Breaks, TailLen, AllInner;
    NothingDone(c);
    OneDone(c, PEnd(v.line, v.col));
    EndCloses(c, v);
    if Starts(cmd) {
      if c.doc.pending.None? {
        StartOpens(c, v, cmd);
        if After(c, v, cmd).0 != c {
          StillOpen(After(c, v, cmd).0.doc, v, c.doc.undo);
        } else if cmd.BeginInsert? {
          OneDone(c, PBegin(v.line, v.col));
          JustOpened(c, v);
          StillOpen(c.doc, v, c.doc.undo);
        }
      } else {
        StartInside(c, v, cmd);
      }
    } else if cmd.ToggleChar? && cmd.at < |c.doc.text| {
      var p := CaretAt(c.doc.text, cmd.at);
      var body := [PDelete(cmd.at, cmd.at + 1), PInsert(p.line, p.col, [cmd.ch])];
      assert AllInner(body) by { BodyIsInner(cmd.at, p, cmd.ch); }
      GroupedCloses(c, p, body, p);
    }
  }

  lemma BodyIsInner(at: nat, p: Caret, ch: char)
    ensures AllInner([PDelete(at, at + 1), PInsert(p.line, p.col, [ch])])
  {
  }

  lemma StartInside(c: Core, v: Caret, cmd: Command)
    requires Starts(cmd) && c.doc.pending.Some?
    ensures After(c, v, cmd).0.doc.pending.Some?
  {
    hide Do, DoAll, OpenAt, CanInsertCharAt, LineLen;
    NothingDone(c);
    BeginIsNothing(c, v);
    OneDone(c, PBegin(v.line, v.col));
    var below, above := PInsert(v.line, LineLen(c.doc.text, v.line), ['\n']), PInsert(v.line, 0, ['\n']);
    InnersKeepOpening(c, [below], v, []);
    InnersKeepOpening(c, [above], v, []);
    assert [] + [below] == [below] && [] + [above] == [above];
  }
}
