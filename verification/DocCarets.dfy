// The caret an undo or redo hands back: beside the snapshots stands a list of
// the carets each group was opened and closed at.
module DocCarets {
  import opened Lines
  import opened Options
  import opened Splices
  import opened DocModel
  import opened DocHistory

  datatype Spot = Spot(line: nat, col: nat)

  datatype Session = Session(from: Spot, upto: Spot)

  /** The recorded groups, how many of them are undoable, and where the open one was opened. */
  datatype Trail = Trail(groups: seq<Session>, pos: nat, open: Option<Spot>)

  /** The groups ahead are gone. */
  function Cleared(tl: Trail): Trail { if tl.pos <= |tl.groups| then tl.(groups := tl.groups[..tl.pos]) else tl }

  function Pushed(tl: Trail, g: Session): Trail {
    if tl.pos < UNDO_CAP then tl.(groups := tl.groups + [g], pos := tl.pos + 1)
    else tl.(groups := (tl.groups + [g])[1..])
  }

  /** An edit drops the groups ahead; closing a group that recorded something
      adds it with the carets it was opened and closed at; undo and redo move
      along the list and leave it as it is. */
  function TrailStep(tl: Trail, d: Doc, op: Op): Trail {
    match op
    case OpBegin(l, c) => if tl.open.None? then tl.(open := Some(Spot(l, c))) else tl
    case OpEnd(l, c) =>
      if tl.open.None? then tl
      else
        var closed := tl.(open := None);
        if PendingSplices(d) == [] then closed else Pushed(closed, Session(tl.open.value, Spot(l, c)))
    case OpInsert(_, _) => Cleared(tl)
    case OpDelete(s, e) => if Min(s, |d.text|) < Min(e, |d.text|) then Cleared(tl) else tl
    case OpReplaceLine(l, _) => if l < LineCount(d.text) then Cleared(tl) else tl
    case OpStep(Undo) => if tl.pos > 0 then tl.(pos := tl.pos - 1) else tl
    case OpStep(Redo) => if tl.pos < |tl.groups| then tl.(pos := tl.pos + 1) else tl
    case _ => tl
  }

  function TrailRun(tl: Trail, d: Doc, ops: seq<Op>): Trail
    decreases |ops|
  {
    if ops == [] then tl else TrailRun(TrailStep(tl, d, ops[0]), Apply(d, ops[0]), ops[1..])
  }

  const NOTHING := Trail([], 0, None)

  /** Undo and redo happen with no group open. */
  predicate StepsClosed(d: Doc, ops: seq<Op>)
    decreases |ops|
  {
    ops == [] || ((ops[0].OpStep? ==> d.pending.None?) && StepsClosed(Apply(d, ops[0]), ops[1..]))
  }

  // --- What the stacks hold ---

  ghost predicate Undoable(e: Entry, g: Session) {
    Spot(e.beforeLine, e.beforeCol) == g.from && Spot(e.afterLine, e.afterCol) == g.upto
  }

  ghost predicate Redoable(e: Entry, g: Session) {
    Spot(e.beforeLine, e.beforeCol) == g.upto && Spot(e.afterLine, e.afterCol) == g.from
  }

  ghost predicate Recalls(d: Doc, tl: Trail) {
    && |d.undo| == tl.pos && |tl.groups| == Entries(d) <= UNDO_CAP
    && (forall k :: 0 <= k < |d.undo| ==> Undoable(d.undo[k], tl.groups[k]))
    && (forall k :: 0 <= k < |d.redo| ==> Redoable(d.redo[k], tl.groups[Entries(d) - 1 - k]))
    && (d.pending.Some? <==> tl.open.Some?)
    && (d.pending.Some? ==> Spot(d.pending.value.beforeLine, d.pending.value.beforeCol) == tl.open.value)
    && (PendingSplices(d) != [] ==> d.redo == [])
  }

  lemma SameEntries(d: Doc, d': Doc, tl: Trail)
    requires Recalls(d, tl) && d'.undo == d.undo && d'.redo == d.redo && d'.pending == d.pending
    ensures Recalls(d', tl)
  {
  }

  /** A recorded edit clears what was ahead. */
  lemma EditRecalls(d: Doc, tl: Trail, s: nat, n: nat, x: Text, text: Text)
    requires Recalls(d, tl)
    ensures Recalls(ClearRedo(RecordSplice(d, s, n, x).(text := text, modified := true)), Cleared(tl))
  {
    hide Record, Coalesce;
  }

  lemma InsertRecalls(d: Doc, tl: Trail, at: nat, x: Text)
    requires Recalls(d, tl)
    ensures Recalls(InsertAt(d, at, x), Cleared(tl))
  {
    hide RecordSplice, ClearRedo, Recalls;
    var i := Min(at, |d.text|);
    EditRecalls(d, tl, i, 0, x, d.text[..i] + x + d.text[i..]);
  }

  lemma DeleteRecalls(d: Doc, tl: Trail, start: nat, end: nat)
    requires Recalls(d, tl)
    ensures Recalls(DeleteRange(d, start, end), TrailStep(tl, d, OpDelete(start, end)))
  {
    hide RecordSplice, ClearRedo, Recalls;
    var s, e := Min(start, |d.text|), Min(end, |d.text|);
    if s < e {
      EditRecalls(d, tl, s, e - s, [], d.text[..s] + d.text[e..]);
    }
  }

  lemma ReplaceLineRecalls(d: Doc, tl: Trail, line: nat, x: Text)
    requires Recalls(d, tl)
    ensures Recalls(ReplaceLine(d, line, x), TrailStep(tl, d, OpReplaceLine(line, x)))
  {
    hide DeleteRange, InsertAt, LineStart, LineLen, Recalls;
    if line < LineCount(d.text) {
      var s := LineStart(d.text, line);
      var e := s + LineLen(d.text, line);
      DeleteRecalls(d, tl, s, e);
      InsertRecalls(DeleteRange(d, s, e), TrailStep(tl, d, OpDelete(s, e)), s, x);
      ClearedTwice(d, tl);
    }
  }

  lemma ClearedTwice(d: Doc, tl: Trail)
    ensures Cleared(Cleared(tl)) == Cleared(tl)
  {
  }

  lemma RewriteRecalls(d: Doc, tl: Trail, d0: Doc, at: nat, delta: int)
    requires Recalls(d, tl) && d0.undo == d.undo && d0.redo == d.redo && d0.pending == d.pending
    ensures Recalls(ShiftRecorded(d0, at, delta), tl)
  {
    hide HighestStart;
  }

  lemma EndRecalls(d: Doc, tl: Trail, l: nat, c: nat)
    requires Recalls(d, tl)
    ensures Recalls(End(d, l, c), TrailStep(tl, d, OpEnd(l, c)))
  {
    if PendingSplices(d) != [] {
      var e := d.pending.value.(afterLine := l, afterCol := c);
      var full := d.(pending := None, undo := d.undo + [e]);
      if |full.undo| > UNDO_CAP {
        EvictOne(full);
      }
    }
  }

  lemma StepRecalls(d: Doc, tl: Trail, dir: Dir)
    requires Recalls(d, tl) && d.pending.None?
    ensures Recalls(HistoryStep(d, dir), TrailStep(tl, d, OpStep(dir)))
  {
    hide ReplayText;
  }

  lemma DeleteNoUndoRecalls(d: Doc, tl: Trail, start: nat, end: nat)
    requires Recalls(d, tl)
    ensures Recalls(DeleteNoUndo(d, start, end), tl)
  {
    hide Recalls, ShiftRecorded;
    var s, e := Min(start, |d.text|), Min(end, |d.text|);
    if s < e {
      var noted := Note(d, s, e - s, []);
      RewriteRecalls(d, tl, noted.(text := d.text[..s] + d.text[e..], modified := true, savedDepth := None), s,
                     -|d.text[s..e]|);
    }
  }

  lemma OpRecalls(d: Doc, tl: Trail, op: Op)
    requires Recalls(d, tl) && (op.OpStep? ==> d.pending.None?)
    ensures Recalls(Apply(d, op), TrailStep(tl, d, op))
  {
    hide RecordSplice, ClearRedo, DeleteRange, InsertAt, ReplaceLine, ShiftRecorded, HistoryStep, End, Recalls;
    match op
    case OpBegin(l, c) => BeginRecalls(d, tl, l, c);
    case OpEnd(l, c) => EndRecalls(d, tl, l, c);
    case OpInsert(at, x) => InsertRecalls(d, tl, at, x);
    case OpDelete(s, e) => DeleteRecalls(d, tl, s, e);
    case OpReplaceLine(l, x) => ReplaceLineRecalls(d, tl, l, x);
    case OpInsertNoUndo(at, x) =>
      var i := Min(at, |d.text|);
      RewriteRecalls(d, tl,
                     Note(d, i, 0, x).(text := d.text[..i] + x + d.text[i..], modified := true, savedDepth := None),
                     i, |x|);
    case OpDeleteNoUndo(start, end) =>
      DeleteNoUndoRecalls(d, tl, start, end);
    case OpSave => SameEntries(d, Save(d), tl);
    case OpStep(dir) => StepRecalls(d, tl, dir);
    case OpTakeEdit => SameEntries(d, TakeEdit(d).0, tl);
  }

  lemma BeginRecalls(d: Doc, tl: Trail, l: nat, c: nat)
    requires Recalls(d, tl)
    ensures Recalls(Begin(d, l, c), TrailStep(tl, d, OpBegin(l, c)))
  {
  }

  lemma {:induction false} RunRecalls(d: Doc, tl: Trail, ops: seq<Op>)
    requires Recalls(d, tl) && StepsClosed(d, ops)
    ensures Recalls(Run(d, ops), TrailRun(tl, d, ops))
    decreases |ops|
  {
    hide Recalls, Apply, TrailStep;
    if ops != [] {
      OpRecalls(d, tl, ops[0]);
      RunRecalls(Apply(d, ops[0]), TrailStep(tl, d, ops[0]), ops[1..]);
    }
  }

  /** Over every run in which undo and redo happen with no group open, an undo
      hands back the caret that the group it undoes was opened at, and a redo
      the caret that the group it redoes was closed at. */
  lemma HistoryHandsBackItsCarets(text: Text, ops: seq<Op>)
    requires StepsClosed(New(text), ops)
    ensures var d, tl := Run(New(text), ops), TrailRun(NOTHING, New(text), ops);
            && tl.pos <= |tl.groups|
            && (Stack(d, Undo) != [] <==> tl.pos > 0)
            && (Stack(d, Redo) != [] <==> tl.pos < |tl.groups|)
            && (tl.pos > 0 ==>
                  HistoryCaret(d, Undo) == (tl.groups[tl.pos - 1].from.line, tl.groups[tl.pos - 1].from.col))
            && (tl.pos < |tl.groups| ==>
                  HistoryCaret(d, Redo) == (tl.groups[tl.pos].upto.line, tl.groups[tl.pos].upto.col))
  {
    RunRecalls(New(text), NOTHING, ops);
    var d, tl := Run(New(text), ops), TrailRun(NOTHING, New(text), ops);
    assert Recalls(d, tl);
  }

  /** A walk with no group open leaves the list of carets as it is. */
  lemma {:induction false} WalksKeepTheTrail(tl: Trail, d: Doc, dirs: seq<Dir>)
    ensures TrailRun(tl, d, seq(|dirs|, i requires 0 <= i < |dirs| => OpStep(dirs[i]))).groups == tl.groups
    decreases |dirs|
  {
    hide Apply;
    var ops := seq(|dirs|, i requires 0 <= i < |dirs| => OpStep(dirs[i]));
    if dirs != [] {
      var rest := seq(|dirs| - 1, i requires 0 <= i < |dirs| - 1 => OpStep(dirs[1..][i]));
      assert ops[0] == OpStep(dirs[0]) && ops[1..] == rest;
      WalksKeepTheTrail(TrailStep(tl, d, ops[0]), Apply(d, ops[0]), dirs[1..]);
    }
  }
}
