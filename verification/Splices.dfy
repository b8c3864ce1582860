// Recorded edits: splices, how a run of them is coalesced while an undo group
// is open, and how undo and redo walk them back and forth over a text.
module Splices {
  import opened Lines
  import opened Options

  datatype Dir = Undo | Redo

  /** A line-level shift that a history step asks the editor to replay. */
  datatype AnchorShift =
    | Insert(line: nat, col: nat, nl: nat)
    | Delete(line: nat, col: nat, nl: nat)

  /** At `start`, the text `removed` was replaced by `inserted`. */
  datatype Splice = Splice(start: nat, removed: Text, inserted: Text)

  // --- Recording ---

  predicate Fits(t: Text, sp: Splice) {
    && sp.start + |sp.removed| <= |t|
    && t[sp.start..sp.start + |sp.removed|] == sp.removed
  }

  /** The edit a splice stands for. */
  function Edit(t: Text, sp: Splice): Text
    requires Fits(t, sp)
  {
    t[..sp.start] + sp.inserted + t[sp.start + |sp.removed|..]
  }

  /** The splice `last` becomes when `sp` continues it, if it does. */
  function Coalesce(last: Splice, sp: Splice): Option<Splice> {
    if '\n' in sp.removed || '\n' in sp.inserted then None
    else if '\n' in last.removed || '\n' in last.inserted then None
    else if sp.removed == [] && sp.inserted != [] then
      if last.removed == [] && sp.start == last.start + |last.inserted|
      then Some(last.(inserted := last.inserted + sp.inserted))
      else None
    else if sp.inserted != [] || sp.removed == [] then None
    else if last.inserted == [] && last.removed != [] then
      if sp.start + |sp.removed| == last.start
      then Some(last.(removed := sp.removed + last.removed, start := sp.start))
      else if sp.start == last.start
      then Some(last.(removed := last.removed + sp.removed))
      else None
    else if && last.removed == []
            && sp.start >= last.start
            && sp.start + |sp.removed| == last.start + |last.inserted|
    then Some(last.(inserted := last.inserted[..|last.inserted| - |sp.removed|]))
    else None
  }

  /** The splice list of a group after one more primitive splice. */
  function Record(ss: seq<Splice>, sp: Splice): seq<Splice> {
    if ss == [] then [sp]
    else
      var init := ss[..|ss| - 1];
      match Coalesce(ss[|ss| - 1], sp)
      case None => ss + [sp]
      case Some(m) => if m.removed == [] && m.inserted == [] then init else init + [m]
  }

  function RecordAll(ps: seq<Splice>): seq<Splice> {
    if ps == [] then [] else Record(RecordAll(ps[..|ps| - 1]), ps[|ps| - 1])
  }

  // --- Replaying one splice ---

  function Min(a: nat, b: nat): nat { if a <= b then a else b }

  function TakeOut(sp: Splice, dir: Dir): Text { if dir.Undo? then sp.inserted else sp.removed }
  function PutIn(sp: Splice, dir: Dir): Text { if dir.Undo? then sp.removed else sp.inserted }

  /** The text once the run a replay takes out is gone. */
  function Without(t: Text, sp: Splice, dir: Dir): Text {
    var e := Min(sp.start + |TakeOut(sp, dir)|, |t|);
    var s := Min(sp.start, e);
    t[..s] + t[e..]
  }

  function StepText(t: Text, sp: Splice, dir: Dir): Text {
    var u := Without(t, sp, dir);
    var at := Min(sp.start, |u|);
    u[..at] + PutIn(sp, dir) + u[at..]
  }

  /** Where an insert at `at` shifts lines from: at or past the visible end of
      a line it is the start of the next one. */
  function InsertPoint(t: Text, at: nat): (nat, nat)
    requires at <= |t|
  {
    var line, col := LineOf(t, at), ColOf(t, at);
    if col >= LineLen(t, line) then (line + 1, 0) else (line, col)
  }

  /** The shift for taking the run `[start, start + n)` out of `t`, if any of it is there. */
  function OutOps(t: Text, start: nat, n: nat): seq<AnchorShift> {
    var e := Min(start + n, |t|);
    var s := Min(start, e);
    if s < e then [Delete(LineOf(t, s), ColOf(t, s), Breaks(t[s..e]))] else []
  }

  /** The shift for putting `put` in at `start`. */
  function InOps(t: Text, start: nat, put: Text): seq<AnchorShift> {
    if put == [] then []
    else
      var p := InsertPoint(t, Min(start, |t|));
      [Insert(p.0, p.1, Breaks(put))]
  }

  function StepOps(t: Text, sp: Splice, dir: Dir): seq<AnchorShift> {
    OutOps(t, sp.start, |TakeOut(sp, dir)|) + InOps(Without(t, sp, dir), sp.start, PutIn(sp, dir))
  }

  // --- Replaying a group ---

  function RedoText(t: Text, ss: seq<Splice>): Text {
    if ss == [] then t else StepText(RedoText(t, ss[..|ss| - 1]), ss[|ss| - 1], Redo)
  }

  function UndoText(t: Text, ss: seq<Splice>): Text
    decreases |ss|
  {
    if ss == [] then t else UndoText(StepText(t, ss[|ss| - 1], Undo), ss[..|ss| - 1])
  }

  function RedoOps(t: Text, ss: seq<Splice>): seq<AnchorShift> {
    if ss == [] then []
    else RedoOps(t, ss[..|ss| - 1]) + StepOps(RedoText(t, ss[..|ss| - 1]), ss[|ss| - 1], Redo)
  }

  function UndoOps(t: Text, ss: seq<Splice>): seq<AnchorShift>
    decreases |ss|
  {
    if ss == [] then []
    else StepOps(t, ss[|ss| - 1], Undo) + UndoOps(StepText(t, ss[|ss| - 1], Undo), ss[..|ss| - 1])
  }

  function ReplayText(t: Text, ss: seq<Splice>, dir: Dir): Text {
    if dir.Undo? then UndoText(t, ss) else RedoText(t, ss)
  }

  function ReplayOps(t: Text, ss: seq<Splice>, dir: Dir): seq<AnchorShift> {
    if dir.Undo? then UndoOps(t, ss) else RedoOps(t, ss)
  }

  /** Every splice of `ss` fits the text it was recorded on, starting from `t`. */
  predicate Recorded(t: Text, ss: seq<Splice>) {
    ss == [] ||
    (Recorded(t, ss[..|ss| - 1]) && Fits(RedoText(t, ss[..|ss| - 1]), ss[|ss| - 1]))
  }

  /** The shifts that move a line: the others leave every line where it is. */
  function LineShifts(ops: seq<AnchorShift>): seq<AnchorShift> {
    if ops == [] then []
    else (if ops[0].nl > 0 then [ops[0]] else []) + LineShifts(ops[1..])
  }

  // --- One splice ---

  lemma RedoIsEdit(t: Text, sp: Splice)
    requires Fits(t, sp)
    ensures StepText(t, sp, Redo) == Edit(t, sp)
  {
    assert Without(t, sp, Redo) == t[..sp.start] + t[sp.start + |sp.removed|..];
  }

  lemma UndoInvertsEdit(t: Text, sp: Splice)
    requires Fits(t, sp)
    ensures Without(Edit(t, sp), sp, Undo) == t[..sp.start] + t[sp.start + |sp.removed|..]
    ensures StepText(Edit(t, sp), sp, Undo) == t
  {
    var u := t[..sp.start] + t[sp.start + |sp.removed|..];
    assert Without(Edit(t, sp), sp, Undo) == u;
    assert u[..sp.start] == t[..sp.start];
    assert t == t[..sp.start] + sp.removed + t[sp.start + |sp.removed|..];
  }

  /** Undo takes a recorded group back to the text it started from. */
  lemma {:induction false} UndoInvertsGroup(t: Text, ss: seq<Splice>)
    requires Recorded(t, ss)
    ensures UndoText(RedoText(t, ss), ss) == t
  {
    if ss != [] {
      var init, last := ss[..|ss| - 1], ss[|ss| - 1];
      RedoIsEdit(RedoText(t, init), last);
      UndoInvertsEdit(RedoText(t, init), last);
      UndoInvertsGroup(t, init);
    }
  }

  lemma RecordedAppend(t: Text, ss: seq<Splice>, sp: Splice)
    requires Recorded(t, ss) && Fits(RedoText(t, ss), sp)
    ensures Recorded(t, ss + [sp])
    ensures RedoText(t, ss + [sp]) == Edit(RedoText(t, ss), sp)
  {
    assert (ss + [sp])[..|ss + [sp]| - 1] == ss;
    RedoIsEdit(RedoText(t, ss), sp);
  }

  // --- Coalescing ---

  predicate Unbroken(sp: Splice) { '\n' !in sp.removed && '\n' !in sp.inserted }

  lemma TypingMerges(t: Text, s: nat, x: Text, y: Text)
    requires s <= |t|
    ensures var u := Edit(t, Splice(s, [], x));
            && s + |x| <= |u|
            && Edit(u, Splice(s + |x|, [], y)) == Edit(t, Splice(s, [], x + y))
  {
    var a, b := t[..s], t[s..];
    var u := Edit(t, Splice(s, [], x));
    assert u == a + x + b;
    assert u[..s + |x|] == a + x && u[s + |x|..] == b;
    assert (a + x) + y + b == a + (x + y) + b;
  }

  lemma BackspacesMerge(t: Text, s: nat, x: Text, y: Text)
    requires s + |x| + |y| <= |t| && t[s..s + |x|] == x && t[s + |x|..s + |x| + |y|] == y
    ensures Fits(t, Splice(s, x + y, []))
    ensures var u := Edit(t, Splice(s + |x|, y, []));
            && Fits(u, Splice(s, x, []))
            && Edit(u, Splice(s, x, [])) == Edit(t, Splice(s, x + y, []))
  {
    var a, b := t[..s], t[s + |x| + |y|..];
    assert t[s..s + |x| + |y|] == x + y;
    var u := Edit(t, Splice(s + |x|, y, []));
    assert u == a + x + b;
    assert u[..s] == a && u[s..s + |x|] == x && u[s + |x|..] == b;
  }

  lemma DeletesMerge(t: Text, s: nat, x: Text, y: Text)
    requires s + |x| + |y| <= |t| && t[s..s + |x|] == x && t[s + |x|..s + |x| + |y|] == y
    ensures Fits(t, Splice(s, x + y, []))
    ensures var u := Edit(t, Splice(s, x, []));
            && Fits(u, Splice(s, y, []))
            && Edit(u, Splice(s, y, [])) == Edit(t, Splice(s, x + y, []))
  {
    var a, b := t[..s], t[s + |x| + |y|..];
    assert t[s..s + |x| + |y|] == x + y;
    var u := Edit(t, Splice(s, x, []));
    assert u == a + y + b;
    assert u[..s] == a && u[s..s + |y|] == y && u[s + |y|..] == b;
  }

  lemma ErasingMerges(t: Text, s: nat, x: Text, y: Text)
    requires s <= |t|
    ensures var u := Edit(t, Splice(s, [], x + y));
            && Fits(u, Splice(s + |x|, y, []))
            && Edit(u, Splice(s + |x|, y, [])) == Edit(t, Splice(s, [], x))
  {
    var a, b := t[..s], t[s..];
    var u := Edit(t, Splice(s, [], x + y));
    assert u == a + x + y + b;
    assert u[..s + |x|] == a + x && u[s + |x|..s + |x| + |y|] == y && u[s + |x| + |y|..] == b;
    assert Edit(u, Splice(s + |x|, y, [])) == a + x + b;
  }

  lemma EditOfDelete(t: Text, sp: Splice)
    requires Fits(t, sp) && sp.inserted == []
    ensures Edit(t, sp) == t[..sp.start] + t[sp.start + |sp.removed|..]
  {
  }

  /** A merged splice is the two it replaces, run one after the other. */
  lemma CoalesceIsComposition(t: Text, last: Splice, sp: Splice)
    requires Fits(t, last) && Fits(Edit(t, last), sp)
    requires Coalesce(last, sp).Some?
    ensures Unbroken(last) && Unbroken(sp) && Unbroken(Coalesce(last, sp).value)
    ensures Fits(t, Coalesce(last, sp).value)
    ensures Edit(t, Coalesce(last, sp).value) == Edit(Edit(t, last), sp)
  {
    hide Edit;
    if sp.removed == [] && sp.inserted != [] {
      TypingMerges(t, last.start, last.inserted, sp.inserted);
    } else if last.inserted == [] && last.removed != [] {
      var u := Edit(t, last);
      EditOfDelete(t, last);
      if sp.start + |sp.removed| == last.start {
        assert t[sp.start..last.start] == sp.removed;
        BackspacesMerge(t, sp.start, sp.removed, last.removed);
      } else {
        assert t[sp.start + |last.removed|..sp.start + |last.removed| + |sp.removed|] == sp.removed;
        DeletesMerge(t, sp.start, last.removed, sp.removed);
      }
    } else {
      var keep := |last.inserted| - |sp.removed|;
      var x, y := last.inserted[..keep], last.inserted[keep..];
      assert last.inserted == x + y;
      ErasingMerges(t, last.start, x, y);
    }
  }

  lemma EmptyEdit(t: Text, sp: Splice)
    requires Fits(t, sp) && sp.removed == [] && sp.inserted == []
    ensures Edit(t, sp) == t
  {
  }

  /** Recording a splice, merged or not, keeps the group a faithful record. */
  lemma RecordKeeps(t: Text, ss: seq<Splice>, sp: Splice)
    requires Recorded(t, ss) && Fits(RedoText(t, ss), sp)
    ensures Recorded(t, Record(ss, sp))
    ensures RedoText(t, Record(ss, sp)) == Edit(RedoText(t, ss), sp)
  {
    hide Edit, StepText;
    if ss == [] || Coalesce(ss[|ss| - 1], sp).None? {
      assert ss == [] ==> [sp] == ss + [sp];
      RecordedAppend(t, ss, sp);
    } else {
      var init, last := ss[..|ss| - 1], ss[|ss| - 1];
      var u := RedoText(t, init);
      var m := Coalesce(last, sp).value;
      RedoIsEdit(u, last);
      CoalesceIsComposition(u, last, sp);
      if m.removed == [] && m.inserted == [] {
        EmptyEdit(u, m);
      } else {
        RecordedAppend(t, init, m);
      }
    }
  }

  lemma {:induction false} LineShiftsConcat(a: seq<AnchorShift>, b: seq<AnchorShift>)
    ensures LineShifts(a + b) == LineShifts(a) + LineShifts(b)
  {
    if a == [] {
      assert a + b == b;
    } else {
      LineShiftsConcat(a[1..], b);
      RestOfConcat(a, b);
    }
  }

  lemma {:induction false} AllStill(ops: seq<AnchorShift>)
    requires forall op :: op in ops ==> op.nl == 0
    ensures LineShifts(ops) == []
  {
    if ops != [] {
      AllStill(ops[1..]);
    }
  }

  lemma OutStill(t: Text, start: nat, out: Text)
    requires start + |out| <= |t| && t[start..start + |out|] == out && '\n' !in out
    ensures forall op :: op in OutOps(t, start, |out|) ==> op.nl == 0
  {
    hide Breaks, TailLen, LineStart;
    NoBreaks(out);
  }

  lemma InStill(t: Text, start: nat, put: Text)
    requires '\n' !in put
    ensures forall op :: op in InOps(t, start, put) ==> op.nl == 0
  {
    hide Breaks, TailLen, LineStart, LineLen;
    NoBreaks(put);
  }

  /** A splice without line breaks moves no line, whichever way it is replayed. */
  lemma NoLineShifts(t: Text, sp: Splice, dir: Dir)
    requires Unbroken(sp)
    requires dir.Redo? ==> Fits(t, sp)
    requires dir.Undo? ==> Fits(t, Splice(sp.start, sp.inserted, sp.removed))
    ensures LineShifts(StepOps(t, sp, dir)) == []
  {
    hide OutOps, InOps, Without;
    OutStill(t, sp.start, TakeOut(sp, dir));
    InStill(Without(t, sp, dir), sp.start, PutIn(sp, dir));
    AllStill(StepOps(t, sp, dir));
  }

  lemma UndoFits(t: Text, sp: Splice)
    requires Fits(t, sp)
    ensures Fits(Edit(t, sp), Splice(sp.start, sp.inserted, sp.removed))
  {
  }

  lemma LineShiftsAppend(t: Text, ss: seq<Splice>, sp: Splice)
    requires Recorded(t, ss) && Fits(RedoText(t, ss), sp)
    ensures LineShifts(RedoOps(t, ss + [sp]))
         == LineShifts(RedoOps(t, ss)) + LineShifts(StepOps(RedoText(t, ss), sp, Redo))
    ensures LineShifts(UndoOps(RedoText(t, ss + [sp]), ss + [sp]))
         == LineShifts(StepOps(RedoText(t, ss + [sp]), sp, Undo)) + LineShifts(UndoOps(RedoText(t, ss), ss))
  {
    hide Breaks, LineShifts;
    var all := ss + [sp];
    assert all[..|all| - 1] == ss;
    var u := RedoText(t, ss);
    RedoIsEdit(u, sp);
    UndoInvertsEdit(u, sp);
    LineShiftsConcat(RedoOps(t, ss), StepOps(u, sp, Redo));
    LineShiftsConcat(StepOps(RedoText(t, all), sp, Undo), UndoOps(u, ss));
  }

  /** A splice without line breaks adds no line-moving shift to a group. */
  lemma UnbrokenAppend(t: Text, ss: seq<Splice>, sp: Splice)
    requires Recorded(t, ss) && Fits(RedoText(t, ss), sp) && Unbroken(sp)
    ensures LineShifts(RedoOps(t, ss + [sp])) == LineShifts(RedoOps(t, ss))
    ensures LineShifts(UndoOps(RedoText(t, ss + [sp]), ss + [sp])) == LineShifts(UndoOps(RedoText(t, ss), ss))
  {
    hide UndoText, RedoOps, UndoOps, LineShifts, StepOps;
    var u := RedoText(t, ss);
    RecordedAppend(t, ss, sp);
    LineShiftsAppend(t, ss, sp);
    UndoFits(u, sp);
    NoLineShifts(u, sp, Redo);
    NoLineShifts(Edit(u, sp), sp, Undo);
  }

  /** Merging changes no shift that moves a line, in either direction. */
  lemma RecordKeepsLineShifts(t: Text, ss: seq<Splice>, sp: Splice)
    requires Recorded(t, ss) && Fits(RedoText(t, ss), sp)
    ensures var all, rec := ss + [sp], Record(ss, sp);
            && LineShifts(RedoOps(t, rec)) == LineShifts(RedoOps(t, all))
            && LineShifts(UndoOps(RedoText(t, rec), rec)) == LineShifts(UndoOps(RedoText(t, all), all))
  {
    hide UndoText, LineShifts, StepOps, StepText;
    if ss != [] && Coalesce(ss[|ss| - 1], sp).Some? {
      var init, last := ss[..|ss| - 1], ss[|ss| - 1];
      var u := RedoText(t, init);
      var m := Coalesce(last, sp).value;
      FrontAndLast(ss);
      RedoIsEdit(u, last);
      CoalesceIsComposition(u, last, sp);
      UnbrokenAppend(t, init, last);
      UnbrokenAppend(t, ss, sp);
      UnbrokenAppend(t, init, m);
    }
  }

  /** Undo texts and line shifts of two splice lists agree on `t`. */
  ghost predicate SameRecord(t: Text, a: seq<Splice>, b: seq<Splice>) {
    && RedoText(t, a) == RedoText(t, b)
    && UndoText(RedoText(t, a), a) == UndoText(RedoText(t, b), b)
    && LineShifts(RedoOps(t, a)) == LineShifts(RedoOps(t, b))
    && LineShifts(UndoOps(RedoText(t, a), a)) == LineShifts(UndoOps(RedoText(t, b), b))
  }

  lemma InvisibleStep(t: Text, ss: seq<Splice>, rec: seq<Splice>, sp: Splice, ss': seq<Splice>, rec': seq<Splice>)
    requires Recorded(t, ss) && Recorded(t, rec) && SameRecord(t, rec, ss)
    requires Fits(RedoText(t, ss), sp)
    requires ss' == ss + [sp] && rec' == Record(rec, sp)
    ensures Recorded(t, rec') && SameRecord(t, rec', ss')
  {
    RecordedAppend(t, ss, sp);
    RecordedAppend(t, rec, sp);
    RecordKeeps(t, rec, sp);
    RecordKeepsLineShifts(t, rec, sp);
    LineShiftsAppend(t, rec, sp);
    LineShiftsAppend(t, ss, sp);
    UndoInvertsGroup(t, ss');
    UndoInvertsGroup(t, rec');
  }

  /** Coalescing is invisible: for every sequence of primitive edits of one
      group, the coalesced list redoes and undoes to the texts of the plain
      list and emits the same line-moving shifts in both directions. */
  lemma {:induction false} CoalescingIsInvisible(t: Text, ps: seq<Splice>)
    requires Recorded(t, ps)
    ensures Recorded(t, RecordAll(ps))
    ensures SameRecord(t, RecordAll(ps), ps)
  {
    if ps == [] {
      assert RecordAll(ps) == ps;
    } else {
      var init, sp := ps[..|ps| - 1], ps[|ps| - 1];
      CoalescingIsInvisible(t, init);
      FrontAndLast(ps);
      InvisibleStep(t, init, RecordAll(init), sp, ps, RecordAll(ps));
    }
  }

  /** The coalesced list takes the edited text back to where the group began. */
  lemma CoalescedUndoRestores(t: Text, ps: seq<Splice>)
    requires Recorded(t, ps)
    ensures UndoText(RedoText(t, ps), RecordAll(ps)) == t
  {
    CoalescingIsInvisible(t, ps);
    UndoInvertsGroup(t, ps);
  }
}
