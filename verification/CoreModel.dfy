// The editing substrate as a value: the document with the line-level structures
// that every edit shifts in step, and the guards that protect frozen lines.
module CoreModel {
  import opened Lines
  import opened Options
  import opened Splices
  import opened DocModel
  import opened Ranges
  import opened Anchors

  /** A per-line tag: the turn a line belongs to. Only equality matters. */
  type Tag = nat

  datatype Core = Core(
    doc: Doc,
    frozen: seq<Range>,      // lines the user cannot edit
    lock: nat,               // lines before it are read-only
    atomic: seq<Range>,      // blocks no insert may split
    anchors: Store,
    meta: map<nat, Tag>,     // tags, by anchor id
    tail: Option<nat>,       // cached last line of the turn being streamed
    tailOpen: bool)          // whether that line is still mid-stream

  // --- Shifting in step ---

  function ShiftAtomicInsert(r: Range, line: nat, n: nat): Range {
    if r.s >= line then Range(r.s + n, r.e + n)
    else if r.e > line then Range(r.s, r.e + n)
    else r
  }

  function MapAtomicInsert(rs: seq<Range>, line: nat, n: nat): seq<Range> {
    seq(|rs|, i requires 0 <= i < |rs| => ShiftAtomicInsert(rs[i], line, n))
  }

  function ShiftTailInsert(tail: Option<nat>, line: nat, col: nat, n: nat): Option<nat> {
    if tail.Some? then Some(ShiftLine(tail.value, FirstMoved(line, col), n)) else None
  }

  /** `n` line breaks appear at the normalized position `(line, col)`. */
  function ShiftFrozenAt(c: Core, line: nat, col: nat, n: nat): Core {
    c.(frozen := ShiftInsert(c.frozen, line, col, n),
       lock := if c.lock > line then c.lock + n else c.lock,
       atomic := MapAtomicInsert(c.atomic, line, n),
       anchors := InsertLines(c.anchors, line, col, n),
       tail := ShiftTailInsert(c.tail, line, col, n))
  }

  function RemoveTags(meta: map<nat, Tag>, gone: set<nat>): map<nat, Tag> {
    map a | a in meta && a !in gone :: meta[a]
  }

  /** `n` line breaks vanish in a delete that starts at `(line, col)`. */
  function ShiftFrozenForDeleteAt(c: Core, line: nat, col: nat, n: nat): Core {
    if n == 0 then c
    else
      var swallowed := c.tail.Some? && Consumed(c.tail.value, line, col, n);
      c.(frozen := ShiftDelete(c.frozen, line, n),
         atomic := MapDelete(c.atomic, line, n),
         lock := if c.lock > line then Sub(c.lock, n) else c.lock,
         anchors := DeleteLines(c.anchors, line, col, n),
         meta := RemoveTags(c.meta, DroppedBy(c.anchors, line, col, n)),
         tail := if swallowed then None
                 else if c.tail.Some? && c.tail.value > line + n then Some(c.tail.value - n)
                 else c.tail,
         tailOpen := c.tailOpen && !swallowed)
  }

  /** Where an insert at a caret shifts lines from: at or past the visible end
      of its line it is the start of the next one. */
  function CaretInsertPoint(t: Text, line: nat, col: nat): (nat, nat) {
    if col >= LineLen(t, line) then (line + 1, 0) else (line, col)
  }

  function ShiftForInsert(c: Core, line: nat, col: nat, x: Text): Core {
    var p := CaretInsertPoint(c.doc.text, line, col);
    if Breaks(x) == 0 then c else ShiftFrozenAt(c, p.0, p.1, Breaks(x))
  }

  /** Characters of `x` before its first line break. */
  function LeadLen(x: Text): nat {
    if x == [] || x[0] == '\n' then 0 else 1 + LeadLen(x[1..])
  }

  /** The shift for a typed run: its first line break lands after the
      characters that precede it. */
  function ShiftForTypedInsert(c: Core, line: nat, col: nat, x: Text): Core {
    if Breaks(x) == 0 then c
    else if col >= LineLen(c.doc.text, line) then ShiftFrozenAt(c, line + 1, 0, Breaks(x))
    else ShiftFrozenAt(c, line, col + LeadLen(x), Breaks(x))
  }

  function ShiftForDelete(c: Core, s: nat, e: nat): Core {
    var end := Min(e, |c.doc.text|);
    if s >= end then c
    else ShiftFrozenForDeleteAt(c, LineOf(c.doc.text, s), ColOf(c.doc.text, s), Breaks(c.doc.text[s..end]))
  }

  // --- Guards ---

  predicate IsFrozen(c: Core, line: nat) { Covers(c.frozen, line) }

  predicate CanInsertCharAt(c: Core, line: nat, col: nat, ch: char) {
    if line < c.lock then false
    else if !IsFrozen(c, line) then true
    else if ch != '\n' then false
    else
      var atStart, atEnd := col == 0, col >= LineLen(c.doc.text, line);
      if !(atStart || atEnd) then false
      else
        match BlockAt(c.atomic, line)
        case Found(r) => (atStart && line == r.s) || (atEnd && line + 1 == r.e)
        case NotFound => true
  }

  /** Last line that a delete of `[s, e)` touches: the one joined in counts. */
  function LastTouched(t: Text, s: nat, e: nat): nat
    requires s < e <= |t|
  {
    var hi := LineOf(t, e - 1);
    if t[e - 1] == '\n' && hi + 1 < LineCount(t) then hi + 1 else hi
  }

  predicate CanDeleteRange(c: Core, s: nat, e: nat) {
    var t := c.doc.text;
    if s >= e then true
    else
      var line := LineOf(t, Min(s, |t|));
      if line < c.lock then false
      else
        var end := Min(e, |t|);
        if s >= end then !IsFrozen(c, line)
        else !Meets(c.frozen, line, LastTouched(t, s, end))
  }

  // --- Primitive actions ---

  /** What the editing commands are made of. */
  datatype Prim =
    | PBegin(line: nat, col: nat)
    | PEnd(line: nat, col: nat)
    | PInsert(line: nat, col: nat, x: Text)
    | PTyped(line: nat, col: nat, x: Text)
    | PDelete(s: nat, e: nat)
    | PStep(dir: Dir)

  function ApplyShift(c: Core, op: AnchorShift): Core {
    match op
    case Insert(line, col, nl) => if nl > 0 then ShiftFrozenAt(c, line, col, nl) else c
    case Delete(line, col, nl) => ShiftFrozenForDeleteAt(c, line, col, nl)
  }

  function ApplyShifts(c: Core, ops: seq<AnchorShift>): Core
    decreases |ops|
  {
    if ops == [] then c else ApplyShifts(ApplyShift(c, ops[0]), ops[1..])
  }

  /** Replay a history step's shifts, rejoin what they split, forget the tail. */
  function ReplayShifts(c: Core, ops: seq<AnchorShift>): Core {
    var shifted := ApplyShifts(c, ops);
    shifted.(frozen := Merge(shifted.frozen), tail := None, tailOpen := false)
  }

  /** Replaying shifts leaves the document alone. */
  lemma {:induction false} ShiftsKeepDoc(c: Core, ops: seq<AnchorShift>)
    ensures ApplyShifts(c, ops).doc == c.doc
    decreases |ops|
  {
    if ops != [] {
      ShiftsKeepDoc(ApplyShift(c, ops[0]), ops[1..]);
    }
  }

  function Step(c: Core, dir: Dir): Core {
    if Stack(c.doc, dir) == [] then c
    else ReplayShifts(c.(doc := HistoryStep(c.doc, dir)), HistoryShifts(c.doc, dir))
  }

  function Do(c: Core, p: Prim): Core {
    match p
    case PBegin(line, col) => c.(doc := Begin(c.doc, line, col))
    case PEnd(line, col) => c.(doc := End(c.doc, line, col))
    case PInsert(line, col, x) =>
      ShiftForInsert(c, line, col, x).(doc := InsertAt(c.doc, LineColToChar(c.doc.text, line, col), x))
    case PTyped(line, col, x) =>
      ShiftForTypedInsert(c, line, col, x).(doc := InsertAt(c.doc, LineColToChar(c.doc.text, line, col), x))
    case PDelete(s, e) => ShiftForDelete(c, s, e).(doc := DeleteRange(c.doc, s, e))
    case PStep(dir) => Step(c, dir)
  }

  function DoAll(c: Core, ps: seq<Prim>): Core
    decreases |ps|
  {
    if ps == [] then c else DoAll(Do(c, ps[0]), ps[1..])
  }

  lemma {:induction false} DoAllConcat(c: Core, a: seq<Prim>, b: seq<Prim>)
    ensures DoAll(c, a + b) == DoAll(DoAll(c, a), b)
    decreases |a|
  {
    hide Do;
    if a == [] {
      assert a + b == b;
    } else {
      RestOfConcat(a, b);
      DoAllConcat(Do(c, a[0]), a[1..], b);
    }
  }

  lemma NotMet(rs: seq<Range>, lo: nat, hi: nat, l: nat)
    requires !Meets(rs, lo, hi) && lo <= l <= hi
    ensures !Covers(rs, l)
  {
    hide Covers;
  }

  // --- The delete guard, character by character ---

  /** Walk the characters to delete from `i` on line `line`: no frozen line may
      be met, nor joined in by a deleted line break. */
  predicate CharsDeletable(c: Core, line: nat, i: nat, e: nat)
    decreases e - i
  {
    var t := c.doc.text;
    if i >= e then true
    else if IsFrozen(c, line) then false
    else if i >= |t| then true
    else if t[i] == '\n' && line + 1 < LineCount(t) then !IsFrozen(c, line + 1) && CharsDeletable(c, line + 1, i + 1, e)
    else CharsDeletable(c, line, i + 1, e)
  }

  lemma NextLine(t: Text, i: nat)
    requires i < |t|
    ensures LineOf(t, i + 1) == LineOf(t, i) + if t[i] == '\n' then 1 else 0
    ensures t[i] == '\n' ==> LineOf(t, i) + 1 < LineCount(t)
  {
    assert t[..i + 1][..i] == t[..i];
    BreaksBound(t, i + 1);
  }

  /** The range-overlap guard is the per-character one. */
  lemma {:induction false} GuardsAgreeFrom(c: Core, i: nat, e: nat)
    requires i < e <= |c.doc.text|
    ensures CharsDeletable(c, LineOf(c.doc.text, i), i, e)
       <==> !Meets(c.frozen, LineOf(c.doc.text, i), LastTouched(c.doc.text, i, e))
    decreases e - i
  {
    hide Covers, LineOf;
    var t := c.doc.text;
    var line := LineOf(t, i);
    NextLine(t, i);
    if i + 1 == e {
      var hi := LastTouched(t, i, e);
      assert hi == line || hi == line + 1;
      if IsFrozen(c, line) {
        assert Meets(c.frozen, line, hi);
      } else if hi == line + 1 && IsFrozen(c, line + 1) {
        assert Meets(c.frozen, line, hi);
      }
    } else {
      GuardsAgreeFrom(c, i + 1, e);
      LinesGrow(t, i + 1, e);
      MeetsFrom(c.frozen, line, LineOf(t, i + 1), LastTouched(t, i, e));
    }
  }

  lemma {:induction false} LinesGrow(t: Text, i: nat, e: nat)
    requires i < e <= |t|
    ensures LineOf(t, i) <= LineOf(t, e - 1) <= LastTouched(t, i, e)
    decreases e - i
  {
    if i + 1 < e {
      NextLine(t, i);
      LinesGrow(t, i + 1, e);
    }
  }

  lemma MeetsFrom(rs: seq<Range>, lo: nat, mid: nat, hi: nat)
    requires lo <= mid <= hi && mid <= lo + 1
    ensures Meets(rs, lo, hi) <==> Covers(rs, lo) || Meets(rs, mid, hi)
  {
    hide Covers;
    if Covers(rs, lo) {
      assert Meets(rs, lo, hi);
    }
    if Meets(rs, lo, hi) && !Covers(rs, lo) {
      var l :| lo <= l <= hi && Covers(rs, l);
      assert Meets(rs, mid, hi);
    }
    if Meets(rs, mid, hi) {
      var l :| mid <= l <= hi && Covers(rs, l);
      assert Meets(rs, lo, hi);
    }
  }

  /** The binary-search delete guard equals the per-character guard, for every
      range of every document, past its end included. */
  lemma DeleteGuardsAgree(c: Core, s: nat, e: nat)
    ensures var line := LineOf(c.doc.text, Min(s, |c.doc.text|));
            CanDeleteRange(c, s, e) <==> (s >= e || (line >= c.lock && CharsDeletable(c, line, s, e)))
  {
    hide Covers, LineOf;
    var t := c.doc.text;
    if s < e {
      var end := Min(e, |t|);
      if s < end {
        GuardsAgreeFrom(c, s, end);
        if end < e {
          PastTheEnd(c, LineOf(t, s), s, e);
        }
      }
    }
  }

  /** Asking for more than there is asks about the last line once more. */
  lemma {:induction false} PastTheEnd(c: Core, line: nat, i: nat, e: nat)
    requires i < |c.doc.text| < e && line == LineOf(c.doc.text, i)
    ensures CharsDeletable(c, line, i, e) <==> CharsDeletable(c, line, i, |c.doc.text|)
    decreases e - i
  {
    hide Covers, LineOf;
    var t := c.doc.text;
    NextLine(t, i);
    if i + 1 < |t| {
      PastTheEnd(c, LineOf(t, i + 1), i + 1, e);
    }
  }
}
