// Runs of guarded edits, undo groups, undo and redo: the face of every history
// depth is kept, and shown again whenever the history stands at that depth.
module FaceRuns {
  import opened Lines
  import opened Options
  import opened Splices
  import opened DocModel
  import DocHistory
  import opened Ranges
  import opened CoreModel
  import opened Faces

  /** What the guards promise about a primitive action. */
  ghost predicate PrimSound(c: Core, p: Prim) {
    var t := c.doc.text;
    match p
    case PBegin(_, _) => true
    case PEnd(_, _) => true
    case PInsert(line, col, x) =>
      && c.doc.pending.Some? && c.lock <= line <= Breaks(t)
      && (IsFrozen(c, line) ==> x == ['\n'] && (col == 0 || col >= LineLen(t, line)))
    case PTyped(line, col, x) =>
      c.doc.pending.Some? && c.lock <= line <= Breaks(t) && !IsFrozen(c, line)
    case PDelete(s, e) =>
      && c.doc.pending.Some? && s < e <= |t| && LineOf(t, s) >= c.lock
      && !Meets(c.frozen, LineOf(t, s), LastTouched(t, s, e))
    case PStep(_) => c.doc.pending.None?
  }

  /** The faces of the history depths after one more action: an edit drops the
      depths ahead, closing a group adds the face it ends with. */
  function Retell(tl: seq<Face>, c: Core, p: Prim): seq<Face>
    requires |c.doc.undo| < |tl|
  {
    match p
    case PEnd(_, _) =>
      if DocHistory.PendingSplices(c.doc) == [] then tl
      else if |tl| <= UNDO_CAP then tl + [FaceOf(c)] else tl[1..] + [FaceOf(c)]
    case PInsert(_, _, _) => tl[..|c.doc.undo| + 1]
    case PTyped(_, _, _) => tl[..|c.doc.undo| + 1]
    case PDelete(_, _) => tl[..|c.doc.undo| + 1]
    case _ => tl
  }

  /** A recorded group leads from one face to the next. */
  ghost predicate Leads(a: Face, lock: nat, ss: seq<Splice>, b: Face) {
    SoundAll(a, lock, ss) && AfterAll(a, lock, ss) == b
  }

  ghost predicate Chained(d: Doc, tl: seq<Face>, lock: nat) {
    && |tl| == DocHistory.Entries(d) + 1
    && forall k :: 0 <= k < DocHistory.Entries(d) ==> Leads(tl[k], lock, DocHistory.HistAt(d, k).splices, tl[k + 1])
  }

  /** The history retells the faces `tl`. */
  ghost predicate Retells(c: Core, tl: seq<Face>, lock: nat) {
    && c.lock == lock && Sorted(c.frozen)
    && DocHistory.Entries(c.doc) <= UNDO_CAP
    && Chained(c.doc, tl, lock)
    && Leads(tl[|c.doc.undo|], lock, DocHistory.PendingSplices(c.doc), FaceOf(c))
    && (DocHistory.PendingSplices(c.doc) != [] ==> c.doc.redo == [])
  }

  lemma NothingLeads(a: Face, lock: nat, b: Face)
    ensures Leads(a, lock, [], b) <==> a == b
  {
  }

  /** A sound splice, recorded in the open group. */
  lemma RecordRetells(c: Core, tl: seq<Face>, lock: nat, sp: Splice, c': Core)
    requires Retells(c, tl, lock) && c.doc.pending.Some?
    requires Sound(FaceOf(c), lock, sp) && Fits(c.doc.text, sp)
    requires FaceOf(c') == After(FaceOf(c), sp) && Sorted(c'.frozen) && c'.lock == lock
    requires c'.doc.undo == c.doc.undo && c'.doc.redo == []
    requires DocHistory.PendingSplices(c'.doc) == Record(DocHistory.PendingSplices(c.doc), sp)
    ensures Retells(c', tl[..|c.doc.undo| + 1], lock)
  {
    hide Sound, After, Record, LineSet, Sorted;
    var base := tl[|c.doc.undo|];
    assert Leads(base, lock, Record(DocHistory.PendingSplices(c.doc), sp), FaceOf(c')) by {
      RecordKeepsSound(base, lock, DocHistory.PendingSplices(c.doc), sp);
    }
    assert Chained(c'.doc, tl[..|c.doc.undo| + 1], lock) by {
      hide Leads;
      forall k | 0 <= k < DocHistory.Entries(c'.doc)
        ensures DocHistory.HistAt(c'.doc, k) == DocHistory.HistAt(c.doc, k)
      {
      }
    }
  }

  /** The document side of an edit at `[s, e)` in an open group. */
  lemma EditRecords(d: Doc, s: nat, e: nat, x: Text)
    requires d.pending.Some? && s <= e <= |d.text| && (s == e || x == [])
    ensures var sp, d' := Splice(s, d.text[s..e], x), if s < e then DeleteRange(d, s, e) else InsertAt(d, s, x);
            && Fits(d.text, sp) && d'.text == Edit(d.text, sp)
            && d'.undo == d.undo && d'.redo == []
            && d'.pending.Some?
            && DocHistory.PendingSplices(d') == Record(DocHistory.PendingSplices(d), sp)
  {
    hide Record, RecordSplice;
    DocHistory.RecordSpliceEffect(d, s, e - s, x);
    if s < e {
      DocHistory.DeleteIsCut(d.text, s, e);
    }
  }

  /** A caret and the position it clamps to shift the same lines. */
  lemma CaretAndPosition(t: Text, line: nat, col: nat)
    requires line <= Breaks(t)
    ensures var i := LineColToChar(t, line, col);
            InsertPoint(t, i) == CaretInsertPoint(t, line, col) && LineOf(t, i) == line
            && (InsertPoint(t, i).1 > 0 ==> InsertPoint(t, i).0 == line && 0 < col < LineLen(t, line))
  {
    hide LineStart, Breaks, TailLen, LineLen, LineColToChar, AtVisibleEnd;
    CaretPosition(t, line, col);
    VisibleEnd(t, LineColToChar(t, line, col));
  }

  lemma InsertRetells(c: Core, tl: seq<Face>, lock: nat, p: Prim)
    requires Retells(c, tl, lock) && PrimSound(c, p) && p.PInsert?
    ensures Retells(Do(c, p), Retell(tl, c, p), lock)
  {
    hide Retells, InsertAt, LineLen, LineColToChar, InsertPoint, Record, LineSet, Covers, OpenGap, Breaks, LineOf;
    var t, x := c.doc.text, p.x;
    var i := LineColToChar(t, p.line, p.col);
    var sp := Splice(i, t[i..i], x);
    var q := CaretInsertPoint(t, p.line, p.col);
    CaretAndPosition(t, p.line, p.col);
    EditRecords(c.doc, i, i, x);
    NoBreaks(t[i..i]);
    RetellsBasics(c, tl, lock);
    if Breaks(x) > 0 {
      InSet(c.frozen, LineSet(c.frozen), q.0);
      ShiftInsertSorted(c.frozen, q.0, q.1, Breaks(x));
      ShiftInsertOpensGap(c.frozen, q.0, q.1, Breaks(x));
    }
    RecordRetells(c, tl, lock, sp, Do(c, p));
  }

  lemma TypedRetells(c: Core, tl: seq<Face>, lock: nat, p: Prim)
    requires Retells(c, tl, lock) && PrimSound(c, p) && p.PTyped?
    ensures Retells(Do(c, p), Retell(tl, c, p), lock)
  {
    hide Retells, InsertAt, LineLen, LineColToChar, InsertPoint, Record, LineSet, Covers, OpenGap, Breaks, LineOf,
         LeadLen, Sorted;
    var t, x := c.doc.text, p.x;
    var i := LineColToChar(t, p.line, p.col);
    var sp := Splice(i, t[i..i], x);
    CaretAndPosition(t, p.line, p.col);
    EditRecords(c.doc, i, i, x);
    NoBreaks(t[i..i]);
    RetellsBasics(c, tl, lock);
    InSet(c.frozen, LineSet(c.frozen), p.line);
    TypedShifts(c, p);
    RecordRetells(c, tl, lock, sp, Do(c, p));
  }

  /** A typed run opens its gap where a plain insert would. */
  lemma TypedShifts(c: Core, p: Prim)
    requires p.PTyped? && Sorted(c.frozen) && !IsFrozen(c, p.line) && c.lock <= p.line
    ensures var d, q := Do(c, p), CaretInsertPoint(c.doc.text, p.line, p.col);
            && Sorted(d.frozen) && d.lock == c.lock
            && LineSet(d.frozen)
               == if Breaks(p.x) > 0 then OpenGap(LineSet(c.frozen), q.0, Breaks(p.x)) else LineSet(c.frozen)
  {
    hide InsertAt, LineLen, LineColToChar, LineSet, Covers, OpenGap, Breaks, LeadLen, Sorted;
    var q := CaretInsertPoint(c.doc.text, p.line, p.col);
    var col := if q.0 == p.line then p.col + LeadLen(p.x) else 0;
    if Breaks(p.x) > 0 {
      ShiftInsertSorted(c.frozen, q.0, col, Breaks(p.x));
      ShiftInsertOpensGap(c.frozen, q.0, col, Breaks(p.x));
    }
  }

  lemma RetellsBasics(c: Core, tl: seq<Face>, lock: nat)
    requires Retells(c, tl, lock)
    ensures c.lock == lock && Sorted(c.frozen) && |c.doc.undo| < |tl|
  {
  }

  /** The lines from the start of a delete to the last one it touches. */
  lemma TouchedLines(t: Text, s: nat, e: nat)
    requires s < e <= |t|
    ensures LastTouched(t, s, e) == LineOf(t, s) + Breaks(t[s..e])
  {
    hide Breaks;
    var run := t[s..e];
    assert t[..e] == t[..s] + run;
    BreaksConcat(t[..s], run);
    NextLine(t, e - 1);
    BreaksBound(t, e);
  }

  lemma DeleteRetells(c: Core, tl: seq<Face>, lock: nat, p: Prim)
    requires Retells(c, tl, lock) && PrimSound(c, p) && p.PDelete?
    ensures Retells(Do(c, p), Retell(tl, c, p), lock)
  {
    hide Retells, DeleteRange, Record, LineSet, Covers, CloseGap, Breaks, LineOf, Sorted;
    var t := c.doc.text;
    var sp := Splice(p.s, t[p.s..p.e], []);
    var line, n := LineOf(t, p.s), Breaks(t[p.s..p.e]);
    TouchedLines(t, p.s, p.e);
    EditRecords(c.doc, p.s, p.e, []);
    NoBreaks([]);
    RetellsBasics(c, tl, lock);
    forall l: nat | line <= l <= line + n
      ensures l !in LineSet(c.frozen) && !Covers(c.frozen, l)
    {
      NotMet(c.frozen, line, line + n, l);
      SetMatches(c.frozen, l);
    }
    if n > 0 {
      ShiftDeleteClosesGap(c.frozen, line, n);
    }
    DeleteIsSound(c, p, sp);
    RecordRetells(c, tl, lock, sp, Do(c, p));
  }

  lemma SetMatches(rs: seq<Range>, l: nat)
    ensures l in LineSet(rs) <==> Covers(rs, l)
  {
  }

  lemma DeleteIsSound(c: Core, p: Prim, sp: Splice)
    requires PrimSound(c, p) && p.PDelete? && sp == Splice(p.s, c.doc.text[p.s..p.e], [])
    requires Breaks([]) == 0
    requires var line := LineOf(c.doc.text, p.s);
             forall l: nat :: line <= l <= line + Breaks(sp.removed) ==> l !in LineSet(c.frozen)
    ensures Sound(FaceOf(c), c.lock, sp)
  {
    hide Breaks, LineSet, InsertPoint, LineOf;
  }

  lemma GroupRetells(c: Core, tl: seq<Face>, lock: nat, p: Prim)
    requires Retells(c, tl, lock) && (p.PBegin? || p.PEnd?)
    ensures Retells(Do(c, p), Retell(tl, c, p), lock)
  {
    hide Leads, LineSet, Sorted;
    var c', tl' := Do(c, p), Retell(tl, c, p);
    if p.PEnd? && DocHistory.PendingSplices(c.doc) != [] {
      PushRetells(c, tl, lock, c.doc.pending.value.(afterLine := p.line, afterCol := p.col));
    } else {
      assert forall k :: 0 <= k < DocHistory.Entries(c.doc) ==>
             DocHistory.HistAt(c'.doc, k) == DocHistory.HistAt(c.doc, k);
    }
  }

  lemma PushRetells(c: Core, tl: seq<Face>, lock: nat, e: Entry)
    requires Retells(c, tl, lock) && c.doc.pending.Some? && e.splices == DocHistory.PendingSplices(c.doc) != []
    ensures Retells(c.(doc := PushUndo(c.doc.(pending := None), e)),
                    if |tl| <= UNDO_CAP then tl + [FaceOf(c)] else tl[1..] + [FaceOf(c)], lock)
  {
    hide Leads, LineSet, Sorted;
    var closed := c.doc.(pending := None);
    var full := closed.(undo := c.doc.undo + [e]);
    var d' := PushUndo(closed, e);
    if |full.undo| > UNDO_CAP {
      DocHistory.EvictOne(full);
      forall k | 0 <= k < DocHistory.Entries(d')
        ensures Leads((tl[1..] + [FaceOf(c)])[k], lock, DocHistory.HistAt(d', k).splices,
                      (tl[1..] + [FaceOf(c)])[k + 1])
      {
        if k < |c.doc.undo| - 1 {
          assert DocHistory.HistAt(d', k) == DocHistory.HistAt(c.doc, k + 1);
        }
      }
    } else {
      assert d' == full;
      forall k | 0 <= k < DocHistory.Entries(d')
        ensures Leads((tl + [FaceOf(c)])[k], lock, DocHistory.HistAt(d', k).splices, (tl + [FaceOf(c)])[k + 1])
      {
        if k < |c.doc.undo| {
          assert DocHistory.HistAt(d', k) == DocHistory.HistAt(c.doc, k);
        }
      }
    }
    NothingLeads(FaceOf(c), lock, FaceOf(c));
  }

  /** A history step shows the face of the depth it lands on. */
  lemma StepShowsFace(c: Core, tl: seq<Face>, lock: nat, dir: Dir)
    requires Retells(c, tl, lock) && c.doc.pending.None? && Stack(c.doc, dir) != []
    ensures var pos := if dir.Undo? then |c.doc.undo| - 1 else |c.doc.undo| + 1;
            && 0 <= pos < |tl|
            && FaceOf(Step(c, dir)) == tl[pos] && Step(c, dir).lock == lock && Sorted(Step(c, dir).frozen)
  {
    hide LineSet, Sorted, SoundAll, Covers, Canonical, ReplayOps, ReplayText;
    var k := if dir.Undo? then |c.doc.undo| - 1 else |c.doc.undo|;
    var e := Next(c.doc, dir);
    assert DocHistory.HistAt(c.doc, k) == e;
    assert Leads(tl[k], lock, e.splices, tl[k + 1]);
    NothingLeads(tl[|c.doc.undo|], lock, FaceOf(c));
    var pos := if dir.Undo? then k else k + 1;
    var ops := HistoryShifts(c.doc, dir);
    WalkShows(tl[k], lock, e.splices, tl[k + 1], c.frozen, dir);
    ShiftsMoveRangesAndLock(c.(doc := HistoryStep(c.doc, dir)), ops);
    MergeShows(ReplayRanges(c.frozen, ops), tl[pos].frozen);
  }

  lemma WalkShows(a: Face, lock: nat, ss: seq<Splice>, b: Face, rs: seq<Range>, dir: Dir)
    requires Leads(a, lock, ss, b) && Shows(rs, if dir.Undo? then b.frozen else a.frozen)
    ensures var t := if dir.Undo? then b.text else a.text;
            && ReplayText(t, ss, dir) == (if dir.Undo? then a.text else b.text)
            && Shows(ReplayRanges(rs, ReplayOps(t, ss, dir)), if dir.Undo? then a.frozen else b.frozen)
            && ReplayLock(lock, ReplayOps(t, ss, dir)) == lock
  {
    hide Shows, SoundAll, RedoText, UndoText, Recorded;
    SoundIsRecorded(a, lock, ss);
    if dir.Undo? {
      UndoInvertsGroup(a.text, ss);
      GroupUndoShows(a, lock, ss, rs);
    } else {
      GroupRedoShows(a, lock, ss, rs);
    }
  }

  lemma MergeShows(rs: seq<Range>, frozen: set<nat>)
    requires Shows(rs, frozen)
    ensures Shows(Merge(rs), frozen)
  {
    hide Merge, Covers, LineSet;
    MergeIsCanonical(rs);
    forall l: nat
      ensures l in LineSet(Merge(rs)) <==> l in LineSet(rs)
    {
      MergeCovers(rs, l);
      SetMatches(Merge(rs), l);
      SetMatches(rs, l);
    }
  }

  lemma StepRetells(c: Core, tl: seq<Face>, lock: nat, dir: Dir)
    requires Retells(c, tl, lock) && c.doc.pending.None?
    ensures Retells(Step(c, dir), tl, lock)
  {
    hide LineSet, Sorted, Leads, ReplayText, HistoryShifts, FaceOf;
    if Stack(c.doc, dir) != [] {
      StepShowsFace(c, tl, lock, dir);
      StepMovesEntry(c, dir);
      var d' := Step(c, dir).doc;
      forall k | 0 <= k < DocHistory.Entries(d')
        ensures Leads(tl[k], lock, DocHistory.HistAt(d', k).splices, tl[k + 1])
      {
        assert DocHistory.HistAt(d', k).splices == DocHistory.HistAt(c.doc, k).splices;
      }
      NothingLeads(tl[|d'.undo|], lock, FaceOf(Step(c, dir)));
    }
  }

  /** A step moves one entry to the other stack and keeps its place. */
  lemma StepMovesEntry(c: Core, dir: Dir)
    requires c.doc.pending.None? && Stack(c.doc, dir) != [] && DocHistory.Entries(c.doc) <= UNDO_CAP
    ensures var d, d' := c.doc, Step(c, dir).doc;
            && DocHistory.Entries(d') == DocHistory.Entries(d) && d'.pending.None?
            && |d'.undo| == (if dir.Undo? then |d.undo| - 1 else |d.undo| + 1)
            && forall k :: 0 <= k < DocHistory.Entries(d) ==>
                DocHistory.HistAt(d', k).splices == DocHistory.HistAt(d, k).splices
  {
    hide ReplayText, HistoryShifts, HistoryStep, ApplyShifts, Merge, DocHistory.HistAt;
    ShiftsMoveRangesAndLock(c.(doc := HistoryStep(c.doc, dir)), HistoryShifts(c.doc, dir));
    if dir.Undo? {
      UndoMovesEntry(c.doc);
    } else {
      RedoMovesEntry(c.doc);
    }
  }

  lemma UndoMovesEntry(d: Doc)
    requires d.pending.None? && d.undo != []
    ensures var d' := HistoryStep(d, Undo);
            && DocHistory.Entries(d') == DocHistory.Entries(d) && d'.pending.None? && |d'.undo| == |d.undo| - 1
            && forall k :: 0 <= k < DocHistory.Entries(d) ==>
                DocHistory.HistAt(d', k).splices == DocHistory.HistAt(d, k).splices
  {
    hide ReplayText;
  }

  lemma RedoMovesEntry(d: Doc)
    requires d.pending.None? && d.redo != [] && DocHistory.Entries(d) <= UNDO_CAP
    ensures var d' := HistoryStep(d, Redo);
            && DocHistory.Entries(d') == DocHistory.Entries(d) && d'.pending.None? && |d'.undo| == |d.undo| + 1
            && forall k :: 0 <= k < DocHistory.Entries(d) ==>
                DocHistory.HistAt(d', k).splices == DocHistory.HistAt(d, k).splices
  {
    hide ReplayText;
  }

  /** Every sound action keeps the retelling. */
  lemma PrimRetells(c: Core, tl: seq<Face>, lock: nat, p: Prim)
    requires Retells(c, tl, lock) && PrimSound(c, p)
    ensures Retells(Do(c, p), Retell(tl, c, p), lock)
  {
    hide Retells, Do, Retell;
    match p
    case PBegin(_, _) => GroupRetells(c, tl, lock, p);
    case PEnd(_, _) => GroupRetells(c, tl, lock, p);
    case PInsert(_, _, _) => InsertRetells(c, tl, lock, p);
    case PTyped(_, _, _) => TypedRetells(c, tl, lock, p);
    case PDelete(_, _) => DeleteRetells(c, tl, lock, p);
    case PStep(dir) =>
      RetellsBasics(c, tl, lock);
      StepIsPrim(c, tl, lock, dir);
      StepRetells(c, tl, lock, dir);
  }

  lemma StepIsPrim(c: Core, tl: seq<Face>, lock: nat, dir: Dir)
    requires Retells(c, tl, lock)
    ensures Do(c, PStep(dir)) == Step(c, dir) && Retell(tl, c, PStep(dir)) == tl
  {
  }
}
