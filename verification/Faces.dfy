// Undo restores text, frozen lines and locked prefix together: every retained
// history depth shows the face it had when it was first reached.
module Faces {
  import opened Lines
  import opened Splices
  import opened DocModel
  import opened Ranges
  import opened CoreModel

  /** What a history depth shows. */
  datatype Face = Face(text: Text, frozen: set<nat>)

  function FaceOf(c: Core): Face { Face(c.doc.text, LineSet(c.frozen)) }

  // --- One splice, seen on the set of frozen lines ---

  /** The splice is a pure insert or a pure delete. */
  predicate Pure(sp: Splice) { sp.removed == [] || sp.inserted == [] }

  /** The frozen lines after a splice. */
  ghost function Moved(f: Face, sp: Splice): set<nat>
    requires Fits(f.text, sp)
  {
    if Breaks(sp.removed) > 0 then CloseGap(f.frozen, LineOf(f.text, sp.start), Breaks(sp.removed))
    else if Breaks(sp.inserted) > 0 then OpenGap(f.frozen, InsertPoint(f.text, sp.start).0, Breaks(sp.inserted))
    else f.frozen
  }

  ghost function After(f: Face, sp: Splice): Face
    requires Fits(f.text, sp)
  {
    Face(Edit(f.text, sp), Moved(f, sp))
  }

  /** What the guards let through: past the locked prefix, no break deleted next
      to a frozen line, no break inserted inside one. */
  ghost predicate Sound(f: Face, lock: nat, sp: Splice) {
    && Fits(f.text, sp) && Pure(sp)
    && LineOf(f.text, sp.start) >= lock
    && (Breaks(sp.removed) > 0 ==>
          forall l :: LineOf(f.text, sp.start) <= l <= LineOf(f.text, sp.start) + Breaks(sp.removed) ==> l !in f.frozen)
    && (Breaks(sp.inserted) > 0 ==>
          var p := InsertPoint(f.text, sp.start);
          p.1 > 0 ==> p.0 !in f.frozen)
  }

  /** Lines of a range list after replaying shifts, before touching ranges merge. */
  function ReplayRange(rs: seq<Range>, op: AnchorShift): seq<Range> {
    match op
    case Insert(line, col, nl) => if nl > 0 then ShiftInsert(rs, line, col, nl) else rs
    case Delete(line, col, nl) => ShiftDelete(rs, line, nl)
  }

  function ReplayRanges(rs: seq<Range>, ops: seq<AnchorShift>): seq<Range>
    decreases |ops|
  {
    if ops == [] then rs else ReplayRanges(ReplayRange(rs, ops[0]), ops[1..])
  }

  function LockAfter(lock: nat, op: AnchorShift): nat {
    match op
    case Insert(line, _, nl) => if nl > 0 && lock > line then lock + nl else lock
    case Delete(line, _, nl) => if nl > 0 && lock > line then Sub(lock, nl) else lock
  }

  function ReplayLock(lock: nat, ops: seq<AnchorShift>): nat
    decreases |ops|
  {
    if ops == [] then lock else ReplayLock(LockAfter(lock, ops[0]), ops[1..])
  }

  lemma {:induction false} ShiftsMoveRangesAndLock(c: Core, ops: seq<AnchorShift>)
    ensures ApplyShifts(c, ops).frozen == ReplayRanges(c.frozen, ops)
    ensures ApplyShifts(c, ops).lock == ReplayLock(c.lock, ops)
    ensures ApplyShifts(c, ops).doc == c.doc
    decreases |ops|
  {
    if ops != [] {
      ShiftsMoveRangesAndLock(ApplyShift(c, ops[0]), ops[1..]);
    }
  }

  lemma {:induction false} ReplayConcat(rs: seq<Range>, lock: nat, a: seq<AnchorShift>, b: seq<AnchorShift>)
    ensures ReplayRanges(rs, a + b) == ReplayRanges(ReplayRanges(rs, a), b)
    ensures ReplayLock(lock, a + b) == ReplayLock(ReplayLock(lock, a), b)
    decreases |a|
  {
    if a == [] {
      assert a + b == b;
    } else {
      RestOfConcat(a, b);
      ReplayConcat(ReplayRange(rs, a[0]), LockAfter(lock, a[0]), a[1..], b);
    }
  }

  /** The face `f` of the lock and a range list. */
  ghost predicate Shows(rs: seq<Range>, frozen: set<nat>) {
    Sorted(rs) && LineSet(rs) == frozen
  }

  lemma InSet(rs: seq<Range>, frozen: set<nat>, l: nat)
    requires Shows(rs, frozen)
    ensures Covers(rs, l) <==> l in frozen
  {
  }

  /** Redoing a pure insert shifts as the insert did. */
  lemma RedoInsertShows(f: Face, lock: nat, sp: Splice, rs: seq<Range>)
    requires Sound(f, lock, sp) && sp.removed == [] && sp.inserted != []
    requires Shows(rs, f.frozen)
    ensures Shows(ReplayRanges(rs, StepOps(f.text, sp, Redo)), Moved(f, sp))
    ensures ReplayLock(lock, StepOps(f.text, sp, Redo)) == lock
  {
    hide Breaks, TailLen, LineLen, LineSet, Covers;
    assert Breaks([]) == 0 by { NoBreaks([]); }
    var p := InsertPoint(f.text, sp.start);
    var n := Breaks(sp.inserted);
    assert Without(f.text, sp, Redo) == f.text;
    assert StepOps(f.text, sp, Redo) == [Insert(p.0, p.1, n)];
    assert [Insert(p.0, p.1, n)][1..] == [];
    if n > 0 {
      InSet(rs, f.frozen, p.0);
      ShiftInsertSorted(rs, p.0, p.1, n);
      ShiftInsertOpensGap(rs, p.0, p.1, n);
    }
  }

  /** Undoing a pure insert closes the gap it opened. */
  lemma UndoInsertShows(f: Face, lock: nat, sp: Splice, rs: seq<Range>)
    requires Sound(f, lock, sp) && sp.removed == [] && sp.inserted != []
    requires Shows(rs, Moved(f, sp))
    ensures Shows(ReplayRanges(rs, StepOps(Edit(f.text, sp), sp, Undo)), f.frozen)
    ensures ReplayLock(lock, StepOps(Edit(f.text, sp), sp, Undo)) == lock
  {
    hide Breaks, TailLen, LineLen, LineSet, Covers;
    assert Breaks([]) == 0 by { NoBreaks([]); }
    var u := Edit(f.text, sp);
    var line, col := LineOf(f.text, sp.start), ColOf(f.text, sp.start);
    var n := Breaks(sp.inserted);
    assert u[..sp.start] == f.text[..sp.start];
    assert u[sp.start..sp.start + |sp.inserted|] == sp.inserted;
    assert StepOps(u, sp, Undo) == [Delete(line, col, n)];
    assert [Delete(line, col, n)][1..] == [];
    if n > 0 {
      OpenedIsClosable(f, sp, rs);
      ShiftDeleteClosesGap(rs, line, n);
      CloseOpens(f.frozen, line, n, InsertPoint(f.text, sp.start).0);
    }
  }

  lemma OpenedIsClosable(f: Face, sp: Splice, rs: seq<Range>)
    requires Fits(f.text, sp) && Breaks(sp.removed) == 0 && Breaks(sp.inserted) > 0
    requires Shows(rs, Moved(f, sp))
    ensures ClosableAt(rs, LineOf(f.text, sp.start), Breaks(sp.inserted))
  {
    hide Breaks, TailLen, LineLen, LineSet, Covers, Sorted, OpenGap, LineOf;
    var line, n := LineOf(f.text, sp.start), Breaks(sp.inserted);
    var p := InsertPoint(f.text, sp.start).0;
    assert p == line || p == line + 1;
    forall l: nat | line < l < line + n
      ensures !Covers(rs, l)
    {
      InSet(rs, Moved(f, sp), l);
      InOpenGap(f.frozen, p, n, l);
    }
    InSet(rs, Moved(f, sp), line);
    InOpenGap(f.frozen, p, n, line);
    InSet(rs, Moved(f, sp), line + n);
    InOpenGap(f.frozen, p, n, line + n);
  }

  /** Redoing a pure delete shifts as the delete did. */
  lemma RedoDeleteShows(f: Face, lock: nat, sp: Splice, rs: seq<Range>)
    requires Sound(f, lock, sp) && sp.inserted == [] && sp.removed != []
    requires Shows(rs, f.frozen)
    ensures Shows(ReplayRanges(rs, StepOps(f.text, sp, Redo)), Moved(f, sp))
    ensures ReplayLock(lock, StepOps(f.text, sp, Redo)) == lock
  {
    hide Breaks, TailLen, LineLen, LineSet, Covers;
    assert Breaks([]) == 0 by { NoBreaks([]); }
    var line, col := LineOf(f.text, sp.start), ColOf(f.text, sp.start);
    var n := Breaks(sp.removed);
    assert StepOps(f.text, sp, Redo) == [Delete(line, col, n)];
    assert [Delete(line, col, n)][1..] == [];
    if n > 0 {
      forall l: nat | line <= l <= line + n
        ensures !Covers(rs, l)
      {
        InSet(rs, f.frozen, l);
      }
      ShiftDeleteClosesGap(rs, line, n);
    }
  }

  /** Undoing a pure delete opens the gap it closed. */
  lemma UndoDeleteShows(f: Face, lock: nat, sp: Splice, rs: seq<Range>)
    requires Sound(f, lock, sp) && sp.inserted == [] && sp.removed != []
    requires Shows(rs, Moved(f, sp))
    ensures Shows(ReplayRanges(rs, StepOps(Edit(f.text, sp), sp, Undo)), f.frozen)
    ensures ReplayLock(lock, StepOps(Edit(f.text, sp), sp, Undo)) == lock
  {
    hide Breaks, TailLen, LineLen, LineSet, Covers, CloseGap, OpenGap, Sorted;
    assert Breaks([]) == 0 by { NoBreaks([]); }
    var u := Edit(f.text, sp);
    var line, n := LineOf(f.text, sp.start), Breaks(sp.removed);
    assert u[..sp.start] == f.text[..sp.start];
    assert Without(u, sp, Undo) == u;
    var p := InsertPoint(u, sp.start);
    assert StepOps(u, sp, Undo) == [Insert(p.0, p.1, n)];
    assert [Insert(p.0, p.1, n)][1..] == [];
    if n > 0 {
      assert p.0 == line || p.0 == line + 1;
      InCloseGap(f.frozen, line, n, line);
      InSet(rs, Moved(f, sp), line);
      ShowsSorted(rs, Moved(f, sp));
      ShiftInsertSorted(rs, p.0, p.1, n);
      ShiftInsertOpensGap(rs, p.0, p.1, n);
      OpenCloses(f.frozen, line, n, p.0);
    }
  }

  lemma ShowsSorted(rs: seq<Range>, frozen: set<nat>)
    ensures Shows(rs, frozen) <==> Sorted(rs) && LineSet(rs) == frozen
  {
  }

  /** One recorded splice, replayed either way. */
  lemma SpliceShows(f: Face, lock: nat, sp: Splice, rs: seq<Range>, dir: Dir)
    requires Sound(f, lock, sp)
    requires Shows(rs, if dir.Redo? then f.frozen else Moved(f, sp))
    ensures var t := if dir.Redo? then f.text else Edit(f.text, sp);
            && Shows(ReplayRanges(rs, StepOps(t, sp, dir)), if dir.Redo? then Moved(f, sp) else f.frozen)
            && ReplayLock(lock, StepOps(t, sp, dir)) == lock
  {
    hide Sound, Moved, Shows, StepOps, Edit;
    SoundIsPure(f, lock, sp);
    if sp.inserted != [] {
      if dir.Redo? {
        RedoInsertShows(f, lock, sp, rs);
      } else {
        UndoInsertShows(f, lock, sp, rs);
      }
    } else if sp.removed != [] {
      if dir.Redo? {
        RedoDeleteShows(f, lock, sp, rs);
      } else {
        UndoDeleteShows(f, lock, sp, rs);
      }
    } else {
      EmptySplice(f, sp, if dir.Redo? then f.text else Edit(f.text, sp), dir);
    }
  }

  lemma SoundIsPure(f: Face, lock: nat, sp: Splice)
    requires Sound(f, lock, sp)
    ensures Pure(sp) && Fits(f.text, sp)
  {
  }

  lemma EmptySplice(f: Face, sp: Splice, t: Text, dir: Dir)
    requires sp.removed == [] && sp.inserted == [] && Fits(f.text, sp)
    ensures Moved(f, sp) == f.frozen && StepOps(t, sp, dir) == []
  {
  }

  // --- A group ---

  ghost predicate SoundAll(f: Face, lock: nat, ss: seq<Splice>)
    decreases |ss|, 0
  {
    ss == [] || (SoundAll(f, lock, ss[..|ss| - 1]) && Sound(AfterAll(f, lock, ss[..|ss| - 1]), lock, ss[|ss| - 1]))
  }

  ghost function AfterAll(f: Face, lock: nat, ss: seq<Splice>): Face
    requires SoundAll(f, lock, ss)
    decreases |ss|, 1
  {
    if ss == [] then f else After(AfterAll(f, lock, ss[..|ss| - 1]), ss[|ss| - 1])
  }

  /** Sound groups are recorded groups. */
  lemma {:induction false} SoundIsRecorded(f: Face, lock: nat, ss: seq<Splice>)
    requires SoundAll(f, lock, ss)
    ensures Recorded(f.text, ss) && RedoText(f.text, ss) == AfterAll(f, lock, ss).text
  {
    hide Edit, Fits, Sound, Moved;
    if ss != [] {
      var init, sp := ss[..|ss| - 1], ss[|ss| - 1];
      SoundIsRecorded(f, lock, init);
      SoundIsPure(AfterAll(f, lock, init), lock, sp);
      RedoIsEdit(RedoText(f.text, init), sp);
    }
  }

  lemma SoundAllSnoc(f: Face, lock: nat, ss: seq<Splice>, sp: Splice)
    requires SoundAll(f, lock, ss) && Sound(AfterAll(f, lock, ss), lock, sp)
    ensures SoundAll(f, lock, ss + [sp])
    ensures AfterAll(f, lock, ss + [sp]) == After(AfterAll(f, lock, ss), sp)
  {
    assert (ss + [sp])[..|ss + [sp]| - 1] == ss;
  }

  lemma UnbrokenStays(f: Face, sp: Splice)
    requires Fits(f.text, sp) && Unbroken(sp)
    ensures Moved(f, sp) == f.frozen
  {
    NoBreaks(sp.removed);
    NoBreaks(sp.inserted);
  }

  /** A merged splice is as sound as its parts. */
  lemma MergedIsSound(f: Face, lock: nat, last: Splice, sp: Splice)
    requires Sound(f, lock, last) && Sound(After(f, last), lock, sp) && Coalesce(last, sp).Some?
    ensures Sound(f, lock, Coalesce(last, sp).value)
    ensures After(f, Coalesce(last, sp).value) == After(After(f, last), sp)
  {
    hide Edit, Moved, Breaks;
    var m := Coalesce(last, sp).value;
    CoalesceIsComposition(f.text, last, sp);
    NoBreaks(m.removed);
    NoBreaks(m.inserted);
    UnbrokenStays(f, last);
    UnbrokenStays(After(f, last), sp);
    UnbrokenStays(f, m);
    if m.start != last.start {
      EditHead(f.text, last, m.start);
    }
  }

  lemma EditHead(t: Text, sp: Splice, i: nat)
    requires Fits(t, sp) && i <= sp.start
    ensures sp.start <= |Edit(t, sp)| && Edit(t, sp)[..i] == t[..i]
    ensures LineOf(Edit(t, sp), i) == LineOf(t, i)
  {
  }

  /** Recording keeps a group sound and its final face right, merged or not. */
  lemma RecordKeepsSound(f: Face, lock: nat, ss: seq<Splice>, sp: Splice)
    requires SoundAll(f, lock, ss) && Sound(AfterAll(f, lock, ss), lock, sp)
    ensures SoundAll(f, lock, Record(ss, sp))
    ensures AfterAll(f, lock, Record(ss, sp)) == After(AfterAll(f, lock, ss), sp)
  {
    hide Sound, Moved, Edit, Coalesce;
    if ss == [] || Coalesce(ss[|ss| - 1], sp).None? {
      assert ss == [] ==> [sp] == ss + [sp];
      SoundAllSnoc(f, lock, ss, sp);
    } else {
      var init, last := ss[..|ss| - 1], ss[|ss| - 1];
      var g := AfterAll(f, lock, init);
      var m := Coalesce(last, sp).value;
      MergedIsSound(g, lock, last, sp);
      if m.removed == [] && m.inserted == [] {
        SoundIsPure(g, lock, m);
        EmptySplice(g, m, g.text, Redo);
        EmptyEdit(g.text, m);
      } else {
        SoundAllSnoc(g, lock, [], m);
        SoundAllSnoc(f, lock, init, m);
      }
    }
  }

  /** Undo of a group brings the frozen lines back to its first face. */
  lemma {:induction false} GroupUndoShows(f: Face, lock: nat, ss: seq<Splice>, rs: seq<Range>)
    requires SoundAll(f, lock, ss) && Shows(rs, AfterAll(f, lock, ss).frozen)
    ensures var ops := UndoOps(AfterAll(f, lock, ss).text, ss);
            Shows(ReplayRanges(rs, ops), f.frozen) && ReplayLock(lock, ops) == lock
    decreases |ss|
  {
    hide Sound, Moved, Edit, Shows, StepOps, StepText;
    if ss != [] {
      var init, sp := ss[..|ss| - 1], ss[|ss| - 1];
      var g := AfterAll(f, lock, init);
      SoundIsPure(g, lock, sp);
      var ops := StepOps(Edit(g.text, sp), sp, Undo);
      SpliceShows(g, lock, sp, rs, Undo);
      UndoInvertsEdit(g.text, sp);
      GroupUndoShows(f, lock, init, ReplayRanges(rs, ops));
      ReplayConcat(rs, lock, ops, UndoOps(g.text, init));
    }
  }

  lemma {:induction false} GroupRedoShows(f: Face, lock: nat, ss: seq<Splice>, rs: seq<Range>)
    requires SoundAll(f, lock, ss) && Shows(rs, f.frozen)
    ensures var ops := RedoOps(f.text, ss);
            Shows(ReplayRanges(rs, ops), AfterAll(f, lock, ss).frozen) && ReplayLock(lock, ops) == lock
    decreases |ss|
  {
    hide Sound, Moved, Edit, Shows, StepOps, StepText;
    if ss != [] {
      var init, sp := ss[..|ss| - 1], ss[|ss| - 1];
      var g := AfterAll(f, lock, init);
      SoundIsRecorded(f, lock, init);
      GroupRedoShows(f, lock, init, rs);
      var ops := RedoOps(f.text, init);
      SpliceShows(g, lock, sp, ReplayRanges(rs, ops), Redo);
      ReplayConcat(rs, lock, ops, StepOps(g.text, sp, Redo));
    }
  }
}
