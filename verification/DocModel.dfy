// The document as a value: its text, its capped undo history, its save point
// and the window of edits not yet handed to the incremental parser.
module DocModel {
  import opened Lines
  import opened Points
  import opened Options
  import opened Splices

  /** Most undo groups kept. */
  const UNDO_CAP: nat := 1000

  /** One undo group. `hi` bounds every splice start in it from above. */
  datatype Entry = Entry(
    splices: seq<Splice>,
    beforeLine: nat, beforeCol: nat,
    afterLine: nat, afterCol: nat,
    hi: nat)

  datatype Doc = Doc(
    text: Text,
    undo: seq<Entry>,
    redo: seq<Entry>,
    pending: Option<Entry>,
    modified: bool,
    savedDepth: Option<nat>,
    edit: Option<InputEdit>,
    editCount: nat)

  function New(text: Text): Doc {
    Doc(text, [], [], None, false, Some(0), None, 0)
  }

  function Max(a: nat, b: nat): nat { if a <= b then b else a }

  // --- The incremental-parse window ---

  /** The edit that replacing `[s, e)` of `t` by `x` amounts to. */
  function EditOf(t: Text, s: nat, e: nat, x: Text): InputEdit
    requires s <= e <= |t|
  {
    InputEdit(
      ByteLen(t[..s]), ByteLen(t[..e]), ByteLen(t[..s]) + ByteLen(x),
      PointOf(t, s), PointOf(t, e), AdvancePoint(PointOf(t, s), x))
  }

  function Note(d: Doc, start: nat, n: nat, x: Text): Doc {
    var s, e := Min(start, |d.text|), Min(start + n, |d.text|);
    var count := d.editCount + 1;
    d.(editCount := count, edit := if count == 1 then Some(EditOf(d.text, s, e, x)) else None)
  }

  function TakeEdit(d: Doc): (Doc, Option<InputEdit>) {
    (d.(edit := None, editCount := 0), if d.editCount == 1 then d.edit else None)
  }

  // --- Recording and editing ---

  /** Add one primitive splice to an open group. */
  function RecordIn(e: Entry, sp: Splice): Entry {
    var merged := e.splices != [] && Coalesce(e.splices[|e.splices| - 1], sp).Some?;
    e.(splices := Record(e.splices, sp), hi := if merged then e.hi else Max(e.hi, sp.start))
  }

  /** Record a splice about to happen at `[start, start + n)`. */
  function RecordSplice(d: Doc, start: nat, n: nat, x: Text): Doc {
    var noted := Note(d, start, n, x);
    if d.pending.None? then noted.(savedDepth := None)
    else
      var s, e := Min(start, |d.text|), Min(start + n, |d.text|);
      noted.(pending := Some(RecordIn(d.pending.value, Splice(s, d.text[s..e], x))))
  }

  function ClearRedo(d: Doc): Doc {
    var lost := d.redo != [] && d.savedDepth.Some? && d.savedDepth.value > |d.undo|;
    d.(redo := [], savedDepth := if lost then None else d.savedDepth)
  }

  /** A user insert of `x` at character `at`. */
  function InsertAt(d: Doc, at: nat, x: Text): Doc {
    var i := Min(at, |d.text|);
    ClearRedo(RecordSplice(d, i, 0, x).(text := d.text[..i] + x + d.text[i..], modified := true))
  }

  /** A user delete of `[start, end)`. */
  function DeleteRange(d: Doc, start: nat, end: nat): Doc {
    var s, e := Min(start, |d.text|), Min(end, |d.text|);
    if s < e then ClearRedo(RecordSplice(d, s, e - s, []).(text := d.text[..s] + d.text[e..], modified := true))
    else d
  }

  /** Replace the visible text of a line. */
  function ReplaceLine(d: Doc, line: nat, x: Text): Doc {
    if line >= LineCount(d.text) then d
    else
      var s := LineStart(d.text, line);
      InsertAt(DeleteRange(d, s, s + LineLen(d.text, line)), s, x)
  }

  // --- Edits that are not the user's ---

  /** Where a recorded start moves when `delta` characters appear (or vanish) at `at`. */
  function Remap(start: nat, at: nat, delta: int): nat {
    if start < at then start
    else if delta >= 0 then start + delta
    else if start >= at - delta then start + delta
    else at
  }

  function RemapAll(ss: seq<Splice>, at: nat, delta: int): seq<Splice> {
    seq(|ss|, i requires 0 <= i < |ss| => ss[i].(start := Remap(ss[i].start, at, delta)))
  }

  function HighestStart(ss: seq<Splice>): nat {
    if ss == [] then 0 else Max(HighestStart(ss[..|ss| - 1]), ss[|ss| - 1].start)
  }

  /** Shift one entry; one that starts wholly below `at` is not looked at. */
  function ShiftEntry(e: Entry, at: nat, delta: int): Entry {
    if e.hi < at then e
    else
      var ss := RemapAll(e.splices, at, delta);
      e.(splices := ss, hi := HighestStart(ss))
  }

  function ShiftEntries(es: seq<Entry>, at: nat, delta: int): seq<Entry> {
    seq(|es|, i requires 0 <= i < |es| => ShiftEntry(es[i], at, delta))
  }

  function ShiftRecorded(d: Doc, at: nat, delta: int): Doc {
    d.(pending := if d.pending.Some? then Some(ShiftEntry(d.pending.value, at, delta)) else None,
       undo := ShiftEntries(d.undo, at, delta),
       redo := ShiftEntries(d.redo, at, delta))
  }

  function InsertNoUndo(d: Doc, at: nat, x: Text): Doc {
    var i := Min(at, |d.text|);
    ShiftRecorded(
      Note(d, i, 0, x).(text := d.text[..i] + x + d.text[i..], modified := true, savedDepth := None), i, |x|)
  }

  function DeleteNoUndo(d: Doc, start: nat, end: nat): Doc {
    var s, e := Min(start, |d.text|), Min(end, |d.text|);
    if s < e then
      ShiftRecorded(
        Note(d, s, e - s, []).(text := d.text[..s] + d.text[e..], modified := true, savedDepth := None), s, s - e)
    else d
  }

  // --- Undo groups and history steps ---

  function Begin(d: Doc, line: nat, col: nat): Doc {
    if d.pending.Some? then d else d.(pending := Some(Entry([], line, col, 0, 0, 0)))
  }

  function PushUndo(d: Doc, e: Entry): Doc {
    Evict(d.(undo := d.undo + [e]))
  }

  /** Drop the oldest groups past the cap; the save point moves with them. */
  function Evict(d: Doc): (r: Doc)
    ensures |r.undo| <= UNDO_CAP && r == d.(undo := r.undo, savedDepth := r.savedDepth)
    decreases |d.undo|
  {
    if |d.undo| <= UNDO_CAP then d
    else
      Evict(d.(undo := d.undo[1..],
               savedDepth := if d.savedDepth.Some? && d.savedDepth.value > 0
                             then Some(d.savedDepth.value - 1) else None))
  }

  function End(d: Doc, line: nat, col: nat): Doc {
    if d.pending.None? then d
    else if d.pending.value.splices == [] then d.(pending := None)
    else PushUndo(d.(pending := None), d.pending.value.(afterLine := line, afterCol := col))
  }

  /** Swap an entry's carets, for the stack it moves to. */
  function Mirror(e: Entry): Entry {
    Entry(e.splices, e.afterLine, e.afterCol, e.beforeLine, e.beforeCol, e.hi)
  }

  function Stack(d: Doc, dir: Dir): seq<Entry> { if dir.Undo? then d.undo else d.redo }

  /** The entry a history step would walk. */
  function Next(d: Doc, dir: Dir): Entry
    requires Stack(d, dir) != []
  {
    Stack(d, dir)[|Stack(d, dir)| - 1]
  }

  /** The caret a history step hands back. */
  function HistoryCaret(d: Doc, dir: Dir): (nat, nat)
    requires Stack(d, dir) != []
  {
    (Next(d, dir).beforeLine, Next(d, dir).beforeCol)
  }

  function HistoryStep(d: Doc, dir: Dir): Doc {
    if Stack(d, dir) == [] then d
    else
      var e := Next(d, dir);
      var walked := d.(text := ReplayText(d.text, e.splices, dir), edit := None, editCount := 2);
      var moved := if dir.Undo?
                   then walked.(undo := d.undo[..|d.undo| - 1], redo := d.redo + [Mirror(e)])
                   else PushUndo(walked.(redo := d.redo[..|d.redo| - 1]), Mirror(e));
      moved.(modified := moved.savedDepth != Some(|moved.undo|))
  }

  /** The line shifts a history step hands to the editor. */
  function HistoryShifts(d: Doc, dir: Dir): seq<AnchorShift> {
    if Stack(d, dir) == [] then [] else ReplayOps(d.text, Next(d, dir).splices, dir)
  }

  /** A save; the disk write itself is outside the model. */
  function Save(d: Doc): Doc {
    var midGroup := d.pending.Some? && d.pending.value.splices != [];
    d.(modified := false, savedDepth := if midGroup then None else Some(|d.undo|))
  }
}
