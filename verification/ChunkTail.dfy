// The cached last line of a streaming turn is what a reverse scan over the
// tags would find.
module ChunkTail {
  import opened Lines
  import opened Options
  import opened Splices
  import opened DocModel
  import opened Ranges
  import opened Anchors
  import opened CoreModel
  import opened View
  import opened Chunks
  import opened ChunkDraft
  import FrozenText

  /** No anchor is past line `last`. */
  ghost predicate Within(st: Store, last: nat) {
    forall a :: a in st.lines ==> st.lines[a] <= last
  }

  /** Anchors are unique and on lines of the document. */
  ghost predicate Marked(c: Core) {
    Proper(c.anchors) && Within(c.anchors, Breaks(c.doc.text))
  }

  /** For the tags in `own`: a cached line that carries the tag is the highest that does. */
  ghost predicate CacheRight(c: Core, own: set<Tag>) {
    forall g :: g in own && c.tail.Some? && Tagged(c, c.tail.value, g) ==> Highest(c, g, c.tail.value)
  }

  lemma TagWithin(c: Core, l: nat, g: Tag)
    requires Marked(c) && Tagged(c, l, g)
    ensures l <= Breaks(c.doc.text)
  {
    hide Breaks;
    var a :| AnchorAt(c.anchors, l, a) && a in c.meta && c.meta[a] == g;
  }

  lemma HighestIs(c: Core, g: Tag, l: nat)
    requires Tagged(c, l, g) && forall k: nat :: Tagged(c, k, g) ==> k <= l
    ensures Highest(c, g, l)
  {
    hide Tagged;
  }

  lemma OneTagPerLine(c: Core, l: nat, g: Tag, h: Tag)
    requires Proper(c.anchors) && Tagged(c, l, g) && Tagged(c, l, h)
    ensures g == h
  {
  }

  // --- Lines come and go ---

  lemma InsertKeepsCache(c: Core, line: nat, col: nat, n: nat, own: set<Tag>)
    requires CacheRight(c, own)
    ensures CacheRight(ShiftFrozenAt(c, line, col, n), own)
  {
    hide Tagged, ShiftInsert, MapAtomicInsert, Highest;
    var d := ShiftFrozenAt(c, line, col, n);
    var first := FirstMoved(line, col);
    forall g | g in own && d.tail.Some? && Tagged(d, d.tail.value, g)
      ensures Highest(d, g, d.tail.value)
    {
      var k := TagBeforeShift(c, line, col, n, d.tail.value, g);
      assert k == c.tail.value;
      forall l: nat | Tagged(d, l, g)
        ensures l <= d.tail.value
      {
        var m := TagBeforeShift(c, line, col, n, l, g);
        NotAbove(c, g, c.tail.value, m);
      }
      HighestIs(d, g, d.tail.value);
    }
  }

  lemma NotAbove(c: Core, g: Tag, l: nat, k: nat)
    requires Highest(c, g, l) && Tagged(c, k, g)
    ensures k <= l
  {
    hide Tagged;
  }

  /** Where a line goes that a delete leaves. */
  function Lifted(k: nat, line: nat, n: nat): nat { if k > line + n then k - n else k }

  lemma TagBeforeDelete(c: Core, line: nat, col: nat, n: nat, l: nat, g: Tag) returns (k: nat)
    requires n > 0 && Tagged(ShiftFrozenForDeleteAt(c, line, col, n), l, g)
    ensures Tagged(c, k, g) && !Consumed(k, line, col, n) && l == Lifted(k, line, n)
  {
    hide ShiftDelete, MapDelete;
    var d := ShiftFrozenForDeleteAt(c, line, col, n);
    var a :| AnchorAt(d.anchors, l, a) && a in d.meta && d.meta[a] == g;
    k := c.anchors.lines[a];
    assert AnchorAt(c.anchors, k, a);
  }

  lemma DeleteKeepsCache(c: Core, line: nat, col: nat, n: nat, own: set<Tag>)
    requires CacheRight(c, own)
    ensures CacheRight(ShiftFrozenForDeleteAt(c, line, col, n), own)
  {
    hide Tagged, ShiftDelete, MapDelete, Highest;
    var d := ShiftFrozenForDeleteAt(c, line, col, n);
    if n > 0 {
      forall g | g in own && d.tail.Some? && Tagged(d, d.tail.value, g)
        ensures Highest(d, g, d.tail.value)
      {
        var k := TagBeforeDelete(c, line, col, n, d.tail.value, g);
        assert k == c.tail.value;
        forall l: nat | Tagged(d, l, g)
          ensures l <= d.tail.value
        {
          var m := TagBeforeDelete(c, line, col, n, l, g);
          NotAbove(c, g, c.tail.value, m);
        }
        HighestIs(d, g, d.tail.value);
      }
    }
  }

  // --- Anchors stay in the document ---

  lemma WithinInsert(st: Store, line: nat, col: nat, n: nat, last: nat)
    requires Proper(st) && Within(st, last)
    ensures Proper(InsertLines(st, line, col, n)) && Within(InsertLines(st, line, col, n), last + n)
  {
    InsertKeepsProper(st, line, col, n);
  }

  lemma WithinDelete(st: Store, line: nat, col: nat, n: nat, last: nat)
    requires Proper(st) && Within(st, last) && line + n <= last
    ensures Proper(DeleteLines(st, line, col, n)) && Within(DeleteLines(st, line, col, n), last - n)
  {
    DeleteKeepsProper(st, line, col, n);
  }

  lemma InsertedBreaks(t: Text, at: nat, x: Text)
    requires at <= |t|
    ensures Breaks(t[..at] + x + t[at..]) == Breaks(t) + Breaks(x)
  {
    hide Breaks;
    BreaksConcat(t[..at] + x, t[at..]);
    BreaksConcat(t[..at], x);
    BreaksBound(t, at);
  }

  lemma DeletedBreaks(t: Text, s: nat, e: nat)
    requires s <= e <= |t|
    ensures LineOf(t, s) + Breaks(t[s..e]) <= Breaks(t)
    ensures Breaks(t[..s] + t[e..]) == Breaks(t) - Breaks(t[s..e])
  {
    hide Breaks;
    assert t[..e] == t[..s] + t[s..e];
    BreaksConcat(t[..s], t[s..e]);
    BreaksConcat(t[..s], t[e..]);
    BreaksBound(t, e);
  }

  lemma ApplyInsert(c: Core, line: nat, col: nat, n: nat, last: nat)
    requires Proper(c.anchors) && Within(c.anchors, last)
    ensures var d := ApplyShift(c, Insert(line, col, n));
            Proper(d.anchors) && Within(d.anchors, last + n)
  {
    hide Proper, ShiftInsert, MapAtomicInsert;
    WithinInsert(c.anchors, line, col, n, last);
  }

  lemma ApplyDelete(c: Core, line: nat, col: nat, n: nat, last: nat)
    requires Proper(c.anchors) && Within(c.anchors, last) && line + n <= last
    ensures var d := ShiftFrozenForDeleteAt(c, line, col, n);
            Proper(d.anchors) && Within(d.anchors, last - n)
  {
    hide Proper, ShiftDelete, MapDelete;
    WithinDelete(c.anchors, line, col, n, last);
  }

  lemma {:induction false} ApplyConcat(c: Core, a: seq<AnchorShift>, b: seq<AnchorShift>)
    ensures ApplyShifts(c, a + b) == ApplyShifts(ApplyShifts(c, a), b)
    decreases |a|
  {
    hide ApplyShift;
    if a == [] {
      assert a + b == b;
    } else {
      RestOfConcat(a, b);
      ApplyConcat(ApplyShift(c, a[0]), a[1..], b);
    }
  }

  lemma ApplyOne(c: Core, op: AnchorShift)
    ensures ApplyShifts(c, [op]) == ApplyShift(c, op) && ApplyShifts(c, []) == c
  {
    hide ApplyShift;
    assert [op][1..] == [];
  }

  /** Replaying one splice's shifts keeps the anchors on lines of its text. */
  lemma StepStaysWithin(c: Core, t: Text, sp: Splice, dir: Dir)
    requires Proper(c.anchors) && Within(c.anchors, Breaks(t))
    ensures var d := ApplyShifts(c, StepOps(t, sp, dir));
            Proper(d.anchors) && Within(d.anchors, Breaks(StepText(t, sp, dir)))
  {
    hide Proper, Within, Breaks, ColOf, InsertPoint, ApplyShift, ApplyShifts;
    var u := Without(t, sp, dir);
    var outs, ins := OutOps(t, sp.start, |TakeOut(sp, dir)|), InOps(u, sp.start, PutIn(sp, dir));
    var e := Min(sp.start + |TakeOut(sp, dir)|, |t|);
    var s := Min(sp.start, e);
    ApplyConcat(c, outs, ins);
    DeletedBreaks(t, s, e);
    if s < e {
      ApplyOne(c, outs[0]);
      ApplyDelete(c, LineOf(t, s), ColOf(t, s), Breaks(t[s..e]), Breaks(t));
      DeleteOp(c, LineOf(t, s), ColOf(t, s), Breaks(t[s..e]));
    } else {
      ApplyOne(c, Insert(0, 0, 0));
      assert t[s..e] == [];
      NoBreaks([]);
    }
    var c1 := ApplyShifts(c, outs);
    var at := Min(sp.start, |u|);
    InsertedBreaks(u, at, PutIn(sp, dir));
    if PutIn(sp, dir) != [] {
      var p := InsertPoint(u, at);
      ApplyOne(c1, ins[0]);
      ApplyInsert(c1, p.0, p.1, Breaks(PutIn(sp, dir)), Breaks(u));
    } else {
      ApplyOne(c1, Insert(0, 0, 0));
      NoBreaks([]);
    }
  }

  lemma DeleteOp(c: Core, line: nat, col: nat, n: nat)
    ensures ApplyShift(c, Delete(line, col, n)) == ShiftFrozenForDeleteAt(c, line, col, n)
  {
  }

  lemma {:induction false} UndoStaysWithin(c: Core, t: Text, ss: seq<Splice>)
    requires Proper(c.anchors) && Within(c.anchors, Breaks(t))
    ensures var d := ApplyShifts(c, UndoOps(t, ss));
            Proper(d.anchors) && Within(d.anchors, Breaks(UndoText(t, ss)))
    decreases |ss|
  {
    hide Proper, Within, Breaks, StepOps, StepText, ApplyShifts;
    if ss == [] {
      ApplyOne(c, Insert(0, 0, 0));
    } else {
      var init, sp := ss[..|ss| - 1], ss[|ss| - 1];
      StepStaysWithin(c, t, sp, Undo);
      ApplyConcat(c, StepOps(t, sp, Undo), UndoOps(StepText(t, sp, Undo), init));
      UndoStaysWithin(ApplyShifts(c, StepOps(t, sp, Undo)), StepText(t, sp, Undo), init);
    }
  }

  lemma {:induction false} RedoStaysWithin(c: Core, t: Text, ss: seq<Splice>)
    requires Proper(c.anchors) && Within(c.anchors, Breaks(t))
    ensures var d := ApplyShifts(c, RedoOps(t, ss));
            Proper(d.anchors) && Within(d.anchors, Breaks(RedoText(t, ss)))
    decreases |ss|
  {
    hide Proper, Within, Breaks, StepOps, StepText, ApplyShifts;
    if ss == [] {
      ApplyOne(c, Insert(0, 0, 0));
    } else {
      var init, sp := ss[..|ss| - 1], ss[|ss| - 1];
      RedoStaysWithin(c, t, init);
      ApplyConcat(c, RedoOps(t, init), StepOps(RedoText(t, init), sp, Redo));
      StepStaysWithin(ApplyShifts(c, RedoOps(t, init)), RedoText(t, init), sp, Redo);
    }
  }

  // --- One chunk ---

  /** Inserting at `at` moves no line that carries the tag, and none is below it. */
  ghost predicate BelowTurn(c: Core, at: nat, tag: Tag)
    requires at <= |c.doc.text|
  {
    var line := LineOf(c.doc.text, at);
    var q := CaretInsertPoint(c.doc.text, line, ColOf(c.doc.text, at));
    forall l: nat :: Tagged(c, l, tag) ==> l <= line && l < FirstMoved(q.0, q.1)
  }

  /** The end of the content of the highest line with the tag. */
  lemma EndOfTurn(c: Core, line: nat, tag: Tag)
    requires Marked(c) && Highest(c, tag, line)
    ensures BelowTurn(c, LineColToChar(c.doc.text, line, LineLen(c.doc.text, line)), tag)
  {
    hide LineOf, ColOf, LineLen, LineColToChar, Tagged, Highest, Marked;
    var t := c.doc.text;
    assert Tagged(c, line, tag) by { TagOfHighest(c, tag, line); }
    TagWithin(c, line, tag);
    CaretPosition(t, line, LineLen(t, line));
    forall l: nat | Tagged(c, l, tag)
      ensures l <= line
    {
      NotAbove(c, tag, line, l);
    }
  }

  lemma TagOfHighest(c: Core, tag: Tag, line: nat)
    requires Highest(c, tag, line)
    ensures Tagged(c, line, tag)
  {
  }

  /** The start of the line after it. */
  lemma AfterTurn(c: Core, line: nat, tag: Tag)
    requires Highest(c, tag, line) && line < Breaks(c.doc.text)
    ensures BelowTurn(c, LineColToChar(c.doc.text, line + 1, 0), tag)
  {
    hide LineOf, ColOf, LineLen, LineColToChar, Tagged, Highest, Breaks;
    var t := c.doc.text;
    CaretPosition(t, line + 1, 0);
    forall l: nat | Tagged(c, l, tag)
      ensures l <= line
    {
      NotAbove(c, tag, line, l);
    }
  }

  /** The end of the text. */
  lemma EndOfText(c: Core, tag: Tag)
    requires Marked(c)
    ensures BelowTurn(c, |c.doc.text|, tag)
  {
    hide ColOf, LineLen, Tagged, Breaks, Marked;
    var t := c.doc.text;
    assert t[..|t|] == t;
    VisibleEnd(t, |t|);
    forall l: nat | Tagged(c, l, tag)
      ensures l <= Breaks(t)
    {
      TagWithin(c, l, tag);
    }
  }

  lemma NaturalBelowTurn(c: Core, own: set<Tag>, tag: Tag, chunk: Text)
    requires Marked(c) && CacheRight(c, own) && tag in own
    ensures Natural(c, tag, chunk) <= |c.doc.text| && BelowTurn(c, Natural(c, tag, chunk), tag)
  {
    hide LineLen, LineColToChar, Tagged, Highest, Breaks, Marked, BelowTurn, Finished, TaggedOther;
    var line := ValidTail(c, tag);
    if RejoinPoint(c, tag, chunk).Some? {
      EndOfTurn(c, line.value, tag);
    } else {
      EndOfText(c, tag);
      var last := TurnTail(c, tag);
      if last.Some? {
        EndOfTurn(c, last.value, tag);
        if last.value < Breaks(c.doc.text) {
          AfterTurn(c, last.value, tag);
        }
      }
    }
  }

  /** No line from `floor` on carries the tag. */
  ghost predicate FloorClears(c: Core, floor: nat, tag: Tag) {
    floor < |c.doc.text| ==> forall l: nat :: l >= LineOf(c.doc.text, floor) ==> !Tagged(c, l, tag)
  }

  lemma InsertTextMarked(c: Core, at: nat, x: Text)
    requires Marked(c) && at <= |c.doc.text|
    ensures Marked(InsertText(c, at, x))
  {
    hide Proper, Breaks, LineLen, ShiftInsert, MapAtomicInsert, ShiftEntries, Note;
    var q := CaretInsertPoint(c.doc.text, LineOf(c.doc.text, at), ColOf(c.doc.text, at));
    InsertedText(c, at, x);
    InsertedBreaks(c.doc.text, at, x);
    WithinInsert(c.anchors, q.0, q.1, Breaks(x), Breaks(c.doc.text));
  }

  lemma {:induction false} TagLinesWithin(c: Core, s: nat, e: nat, tag: Tag, last: nat)
    requires Proper(c.anchors) && Within(c.anchors, last) && e <= last + 1
    ensures Within(TagLines(c, s, e, tag).anchors, last)
    decreases e - s
  {
    hide TagLine;
    if s < e {
      TagLineProper(c, s, tag);
      TagLinesWithin(TagLine(c, s, tag), s + 1, e, tag, last);
    }
  }

  /** Where the tags are once the chunk is in the text and its lines stamped. */
  lemma TagsAfterWrite(c: Core, at: nat, chunk: Text, s: nat, e: nat, tag: Tag, l: nat)
    requires Marked(c) && Sorted(c.frozen) && at <= |c.doc.text| && BelowTurn(c, at, tag) && s < e
    requires s == LineOf(c.doc.text, at)
    requires Tagged(Stamp(InsertText(c, at, chunk), s, e, tag), l, tag)
    ensures l < e
  {
    hide LineOf, ColOf, Tagged, Stamp, Sorted, Proper, ShiftFrozenAt, Breaks, LineLen, InsertNoUndo;
    var d := InsertText(c, at, chunk);
    InsertTextMarked(c, at, chunk);
    var q := CaretInsertPoint(c.doc.text, LineOf(c.doc.text, at), ColOf(c.doc.text, at));
    SortedAfterInsert(c, at, chunk);
    StampMarks(d, s, e, tag, l, tag);
    if l >= e {
      var shifted := ShiftForInsert(c, LineOf(c.doc.text, at), ColOf(c.doc.text, at), chunk);
      SameTags(d, shifted, l, tag);
      if Breaks(chunk) > 0 {
        var k := TagBeforeShift(c, q.0, q.1, Breaks(chunk), l, tag);
      }
    }
  }

  lemma SortedAfterInsert(c: Core, at: nat, x: Text)
    requires Sorted(c.frozen) && at <= |c.doc.text|
    ensures Sorted(InsertText(c, at, x).frozen)
  {
    hide Sorted, ShiftInsert, LineLen, Breaks, InsertNoUndo;
    var q := CaretInsertPoint(c.doc.text, LineOf(c.doc.text, at), ColOf(c.doc.text, at));
    if Breaks(x) > 0 {
      ShiftInsertSorted(c.frozen, q.0, q.1, Breaks(x));
    }
  }

  /** A chunk's lines are lines of the text, at least one, the first where it went in. */
  lemma SpanInText(t: Text, u: Text, at: nat, chunk: Text)
    requires chunk != [] && Grew(t, u, at, chunk)
    ensures var span := Span(u, at, chunk);
            span.0 == LineOf(t, at) && span.0 < span.1 <= Breaks(u) + 1
  {
    hide Breaks;
    assert u[..at] == t[..at];
    assert u[at..at + |chunk|] == chunk;
    OnSpan(u, at, chunk, at);
    PositionOf(u, at + |chunk|);
  }

  /** Writing a chunk below the rest of its turn makes its last line the turn's. */
  lemma WriteIsTail(p: Pane, at: nat, tag: Tag, chunk: Text, own: set<Tag>)
    requires Marked(p.core) && Sorted(p.core.frozen) && at <= |p.core.doc.text| && chunk != []
    requires BelowTurn(p.core, at, tag)
    ensures var d := Write(p, at, tag, chunk).core;
            && Marked(d) && Sorted(d.frozen) && CacheRight(d, own)
            && d.tail.Some? && Highest(d, tag, d.tail.value)
  {
    hide LineOf, Tagged, Stamp, Sorted, Proper, InsertText, Span, MoveCaret, BelowTurn, Within, Breaks, Highest, Add;
    var c := InsertText(p.core, at, chunk);
    InsertTextMarked(p.core, at, chunk);
    SortedAfterInsert(p.core, at, chunk);
    InsertedText(p.core, at, chunk);
    SpanInText(p.core.doc.text, c.doc.text, at, chunk);
    var s, e := Span(c.doc.text, at, chunk).0, Span(c.doc.text, at, chunk).1;
    var stamped := Stamp(c, s, e, tag);
    StampKeeps(c, s, e, tag);
    StampWithin(c, s, e, tag);
    AddSorts(c.frozen, s, e);
    var d := Write(p, at, tag, chunk).core;
    StampMarks(c, s, e, tag, e - 1, tag);
    SameTags(d, stamped, e - 1, tag);
    forall l: nat | Tagged(d, l, tag)
      ensures l <= e - 1
    {
      SameTags(d, stamped, l, tag);
      TagsAfterWrite(p.core, at, chunk, s, e, tag, l);
    }
    HighestIs(d, tag, e - 1);
    forall g | g in own && Tagged(d, e - 1, g)
      ensures Highest(d, g, e - 1)
    {
      OneTagPerLine(d, e - 1, g, tag);
    }
  }

  lemma StampWithin(c: Core, s: nat, e: nat, tag: Tag)
    requires Marked(c) && e <= Breaks(c.doc.text) + 1
    ensures Within(Stamp(c, s, e, tag).anchors, Breaks(c.doc.text))
  {
    hide Proper, Breaks, TagLines, Add;
    TagLinesWithin(Freeze(c, s, e), s, e, tag, Breaks(c.doc.text));
  }

  /** A line break opened at the floor leaves the turn above it. */
  lemma OpenBelowTurn(c: Core, floor: nat, tag: Tag)
    requires Marked(c) && floor < |c.doc.text| && FloorClears(c, floor, tag)
    ensures BelowTurn(InsertText(c, floor, ['\n']), floor, tag)
  {
    hide Tagged, ColOf, LineLen, Breaks, InsertNoUndo, ShiftFrozenAt, Marked;
    var t := c.doc.text;
    var d := InsertText(c, floor, ['\n']);
    var u, top := d.doc.text, LineOf(t, floor);
    InsertedText(c, floor, ['\n']);
    assert u[..floor] == t[..floor] && u[floor] == '\n';
    VisibleEnd(u, floor);
    var q := CaretInsertPoint(t, top, ColOf(t, floor));
    forall l: nat | Tagged(d, l, tag)
      ensures l <= top
    {
      var shifted := ShiftForInsert(c, top, ColOf(t, floor), ['\n']);
      SameTags(d, shifted, l, tag);
      if Breaks(['\n']) > 0 {
        var k := TagBeforeShift(c, q.0, q.1, Breaks(['\n']), l, tag);
      }
    }
  }

  lemma ChunkIsTail(p: Pane, tag: Tag, chunk: Text, floor: nat, own: set<Tag>)
    requires Marked(p.core) && Sorted(p.core.frozen) && CacheRight(p.core, own)
    requires tag in own && FloorClears(p.core, floor, tag)
    ensures var d := AppendChunk(p, tag, chunk, floor).core;
            && Marked(d) && Sorted(d.frozen) && CacheRight(d, own)
            && (chunk != [] ==> d.tail.Some? && Highest(d, tag, d.tail.value))
  {
    hide LineOf, Tagged, Sorted, InsertText, Write, MoveCaret, BelowTurn, Breaks, Highest, Natural, LineLen,
         LineColToChar, FloorClears, Within, Proper, CacheRight;
    var c, t := p.core, p.core.doc.text;
    if chunk != [] {
      NaturalBelowTurn(c, own, tag, chunk);
      PointInText(c, tag, chunk, floor);
      match PlaceOf(c, tag, chunk, floor)
      case Point(at) =>
        if at != Natural(c, tag, chunk) {
          ContinuesAbove(c, own, tag, chunk, floor);
        }
        WriteIsTail(p, at, tag, chunk, own);
      case Fresh(at) =>
        OpenBelowTurn(c, floor, tag);
        InsertTextMarked(c, at, ['\n']);
        SortedAfterInsert(c, at, ['\n']);
        InsertedText(c, at, ['\n']);
        WriteIsTail(SpliceIn(p, at, ['\n']), at, tag, chunk, own);
    }
  }

  /** The line above the draft that a chunk goes on with is the turn's last. */
  lemma ContinuesAbove(c: Core, own: set<Tag>, tag: Tag, chunk: Text, floor: nat)
    requires Marked(c) && CacheRight(c, own) && tag in own && Natural(c, tag, chunk) <= |c.doc.text|
    requires PlaceOf(c, tag, chunk, floor).Point? && PlaceOf(c, tag, chunk, floor).at != Natural(c, tag, chunk)
    ensures PlaceOf(c, tag, chunk, floor).at <= |c.doc.text| && BelowTurn(c, PlaceOf(c, tag, chunk, floor).at, tag)
  {
    hide LineOf, Tagged, BelowTurn, Breaks, Highest, Natural, LineLen, LineColToChar, Within, Proper;
    EndOfTurn(c, c.tail.value, tag);
  }

  // --- The other actions ---

  lemma TextOfInsert(d: Doc, i: nat, x: Text)
    requires i <= |d.text|
    ensures InsertAt(d, i, x).text == d.text[..i] + x + d.text[i..]
  {
    hide RecordIn, EditOf;
  }

  lemma TextOfDelete(d: Doc, s: nat, e: nat)
    requires s < e <= |d.text|
    ensures DeleteRange(d, s, e).text == d.text[..s] + d.text[e..]
    ensures DeleteNoUndo(d, s, e).text == d.text[..s] + d.text[e..]
  {
    hide RecordIn, EditOf, ShiftEntries;
  }

  /** Another document with as many lines. */
  lemma OtherDoc(c: Core, d: Doc, own: set<Tag>)
    requires CacheRight(c, own) && Proper(c.anchors) && Within(c.anchors, Breaks(d.text))
    ensures CacheRight(c.(doc := d), own) && Marked(c.(doc := d))
  {
    hide Tagged, Breaks, Proper;
    forall l: nat, g
      ensures Tagged(c.(doc := d), l, g) <==> Tagged(c, l, g)
    {
      SameTags(c.(doc := d), c, l, g);
    }
  }

  /** An insert, whoever makes it. */
  lemma ShiftedInsert(c: Core, line: nat, col: nat, x: Text, i: nat, d: Doc, own: set<Tag>)
    requires Marked(c) && CacheRight(c, own)
    requires i <= |c.doc.text| && d.text == c.doc.text[..i] + x + c.doc.text[i..]
    ensures var e := (if Breaks(x) == 0 then c else ShiftFrozenAt(c, line, col, Breaks(x))).(doc := d);
            CacheRight(e, own) && Marked(e)
  {
    hide Breaks, Proper, CacheRight, ShiftInsert, MapAtomicInsert, Within;
    InsertedBreaks(c.doc.text, i, x);
    WithinInsert(c.anchors, line, col, Breaks(x), Breaks(c.doc.text));
    InsertKeepsCache(c, line, col, Breaks(x), own);
    OtherDoc(if Breaks(x) == 0 then c else ShiftFrozenAt(c, line, col, Breaks(x)), d, own);
  }

  lemma ShiftedDelete(c: Core, s: nat, e: nat, d: Doc, own: set<Tag>)
    requires Marked(c) && CacheRight(c, own)
    requires s < e <= |c.doc.text| && d.text == c.doc.text[..s] + c.doc.text[e..]
    ensures CacheRight(ShiftForDelete(c, s, e).(doc := d), own) && Marked(ShiftForDelete(c, s, e).(doc := d))
  {
    hide Breaks, LineOf, Proper, CacheRight, ShiftFrozenForDeleteAt, Within;
    var t := c.doc.text;
    DeletedBreaks(t, s, e);
    ApplyDelete(c, LineOf(t, s), ColOf(t, s), Breaks(t[s..e]), Breaks(t));
    DeleteKeepsCache(c, LineOf(t, s), ColOf(t, s), Breaks(t[s..e]), own);
    OtherDoc(ShiftForDelete(c, s, e), d, own);
  }

  lemma PrimKeepsCache(c: Core, p: Prim, own: set<Tag>)
    requires Marked(c) && CacheRight(c, own)
    ensures Marked(Do(c, p)) && CacheRight(Do(c, p), own)
  {
    hide Marked, CacheRight, LineLen, LeadLen, LineColToChar, InsertAt, DeleteRange, ShiftFrozenAt, ShiftForDelete,
         Breaks, Begin, End, Step;
    match p
    case PBegin(line, col) => EndKeepsText(c.doc, line, col); SameTextOther(c, Begin(c.doc, line, col), own);
    case PEnd(line, col) => EndKeepsText(c.doc, line, col); SameTextOther(c, End(c.doc, line, col), own);
    case PInsert(line, col, x) =>
      var q, i := CaretInsertPoint(c.doc.text, line, col), LineColToChar(c.doc.text, line, col);
      TextOfInsert(c.doc, i, x);
      ShiftedInsert(c, q.0, q.1, x, i, InsertAt(c.doc, i, x), own);
    case PTyped(line, col, x) =>
      var i := LineColToChar(c.doc.text, line, col);
      TextOfInsert(c.doc, i, x);
      ShiftedInsert(c, if col >= LineLen(c.doc.text, line) then line + 1 else line,
                    if col >= LineLen(c.doc.text, line) then 0 else col + LeadLen(x), x, i, InsertAt(c.doc, i, x), own);
    case PDelete(s, e) => UserDeleteKeepsCache(c, s, e, own);
    case PStep(dir) => StepKeepsCache(c, dir, own);
  }

  lemma SameTextOther(c: Core, d: Doc, own: set<Tag>)
    requires Marked(c) && CacheRight(c, own) && (d.text == c.doc.text)
    ensures Marked(c.(doc := d)) && CacheRight(c.(doc := d), own)
  {
    hide Breaks, Proper, CacheRight;
    OtherDoc(c, d, own);
  }

  lemma EndKeepsText(d: Doc, line: nat, col: nat)
    ensures End(d, line, col).text == d.text && Begin(d, line, col).text == d.text
  {
  }

  lemma UserDeleteKeepsCache(c: Core, s: nat, e: nat, own: set<Tag>)
    requires Marked(c) && CacheRight(c, own)
    ensures Marked(Do(c, PDelete(s, e))) && CacheRight(Do(c, PDelete(s, e)), own)
  {
    hide Marked, CacheRight, ShiftFrozenForDeleteAt, Breaks, LineOf, ColOf, RecordSplice;
    var s', e' := Min(s, |c.doc.text|), Min(e, |c.doc.text|);
    if s' < e' {
      TextOfDelete(c.doc, s', e');
      assert DeleteRange(c.doc, s, e) == DeleteRange(c.doc, s', e');
      ShiftedDelete(c, s', e', DeleteRange(c.doc, s', e'), own);
    } else {
      SameTextOther(c, c.doc, own);
    }
  }

  lemma StepKeepsCache(c: Core, dir: Dir, own: set<Tag>)
    requires Marked(c) && CacheRight(c, own)
    ensures Marked(Step(c, dir)) && CacheRight(Step(c, dir), own)
  {
    hide Proper, Within, ApplyShifts, Breaks, UndoOps, RedoOps, UndoText, RedoText, Merge, PushUndo;
    if Stack(c.doc, dir) != [] {
      var d := HistoryStep(c.doc, dir);
      var ss := DocModel.Next(c.doc, dir).splices;
      var base := c.(doc := d);
      if dir.Undo? {
        UndoStaysWithin(base, c.doc.text, ss);
      } else {
        RedoStaysWithin(base, c.doc.text, ss);
        PushKeepsText(c.doc.(text := RedoText(c.doc.text, ss), edit := None, editCount := 2,
                             redo := c.doc.redo[..|c.doc.redo| - 1]),
                      Mirror(DocModel.Next(c.doc, dir)));
      }
      ShiftsKeepDoc(base, HistoryShifts(c.doc, dir));
    }
  }

  lemma PushKeepsText(d: Doc, e: Entry)
    ensures PushUndo(d, e).text == d.text
  {
  }

  lemma TextInsertKeepsCache(c: Core, at: nat, x: Text, own: set<Tag>)
    requires Marked(c) && CacheRight(c, own) && at <= |c.doc.text|
    ensures Marked(InsertText(c, at, x)) && CacheRight(InsertText(c, at, x), own)
  {
    hide Marked, CacheRight, LineLen, ShiftFrozenAt, Breaks, LineOf, ColOf, InsertNoUndo;
    var q := CaretInsertPoint(c.doc.text, LineOf(c.doc.text, at), ColOf(c.doc.text, at));
    InsertedText(c, at, x);
    assert InsertText(c, at, x).doc == InsertNoUndo(c.doc, at, x);
    ShiftedInsert(c, q.0, q.1, x, at, InsertNoUndo(c.doc, at, x), own);
  }

  lemma TextDeleteKeepsCache(c: Core, s: nat, e: nat, own: set<Tag>)
    requires Marked(c) && CacheRight(c, own)
    ensures Marked(DeleteText(c, s, e)) && CacheRight(DeleteText(c, s, e), own)
  {
    hide Marked, CacheRight, ShiftForDelete, Breaks, DeleteNoUndo;
    var s', e' := Min(s, |c.doc.text|), Min(e, |c.doc.text|);
    if s' < e' {
      TextOfDelete(c.doc, s', e');
      ShiftedDelete(c, s', e', DeleteNoUndo(c.doc, s', e'), own);
    }
  }

  /** Tagging a line for another turn. */
  lemma OtherTagKeepsCache(c: Core, line: nat, tag: Tag, own: set<Tag>)
    requires Marked(c) && CacheRight(c, own) && tag !in own && line <= Breaks(c.doc.text)
    ensures Marked(TagLine(c, line, tag)) && CacheRight(TagLine(c, line, tag), own)
  {
    hide Tagged, TagLine, Breaks, Highest;
    var d := TagLine(c, line, tag);
    TagLineProper(c, line, tag);
    forall g | g in own && d.tail.Some? && Tagged(d, d.tail.value, g)
      ensures Highest(d, g, d.tail.value)
    {
      TagLineTags(c, line, tag, d.tail.value, g);
      forall l: nat | Tagged(d, l, g)
        ensures l <= d.tail.value
      {
        TagLineTags(c, line, tag, l, g);
        NotAbove(c, g, c.tail.value, l);
      }
      HighestIs(d, g, d.tail.value);
    }
  }

  // --- Whole runs ---

  /** Everything that happens to a session's editor. */
  datatype Event =
    | Edited(p: Prim)
    | Moved(caret: Caret, sel: Option<Caret>)
    | Inserted(at: nat, x: Text)
    | Deleted(s: nat, e: nat)
    | Froze(s: nat, e: nat)
    | TaggedLine(line: nat, tag: Tag)
    | TailForgotten
    | Chunk(tag: Tag, chunk: Text, floor: nat)

  ghost function Apply(p: Pane, ev: Event): Pane
    requires Proper(p.core.anchors)
  {
    match ev
    case Edited(prim) => p.(core := Do(p.core, prim))
    case Moved(caret, sel) => p.(caret := caret, sel := sel)
    case Inserted(at, x) => SpliceIn(p, at, x)
    case Deleted(s, e) => p.(core := DeleteText(p.core, s, e))
    case Froze(s, e) => p.(core := Freeze(p.core, s, e))
    case TaggedLine(line, tag) => p.(core := TagLine(p.core, line, tag))
    case TailForgotten => p.(core := p.core.(tail := None, tailOpen := false))
    case Chunk(tag, chunk, floor) => AppendChunk(p, tag, chunk, floor)
  }

  /** Only chunks use the tags in `own`, and a floor is below all lines of its turn. */
  ghost predicate Permitted(p: Pane, ev: Event, own: set<Tag>) {
    match ev
    case TaggedLine(line, tag) => tag !in own && line <= Breaks(p.core.doc.text)
    case Chunk(tag, _, floor) => tag in own && FloorClears(p.core, floor, tag)
    case _ => true
  }

  /** What holds between events. */
  ghost predicate InStep(p: Pane, own: set<Tag>) {
    Marked(p.core) && Sorted(p.core.frozen) && CacheRight(p.core, own)
  }

  lemma EventKeepsCache(p: Pane, ev: Event, own: set<Tag>)
    requires InStep(p, own) && Permitted(p, ev, own)
    ensures Marked(Apply(p, ev).core) && CacheRight(Apply(p, ev).core, own)
  {
    hide Proper, Within, CacheRight, Sorted, Do, InsertText, DeleteText, TagLine, AppendChunk, FloorClears, MoveCaret,
         Breaks, Add;
    var c := p.core;
    match ev
    case Edited(prim) => PrimKeepsCache(c, prim, own);
    case Moved(_, _) =>
    case Inserted(at, x) => InsertClamps(c, at, x); TextInsertKeepsCache(c, Min(at, |c.doc.text|), x, own);
    case Deleted(s, e) => TextDeleteKeepsCache(c, s, e, own);
    case Froze(s, e) => OtherRanges(c, Add(c.frozen, s, e), own);
    case TaggedLine(line, tag) => OtherTagKeepsCache(c, line, tag, own);
    case TailForgotten => NoCacheIsRight(c, own);
    case Chunk(tag, chunk, floor) => ChunkIsTail(p, tag, chunk, floor, own);
  }

  lemma OtherRanges(c: Core, rs: seq<Range>, own: set<Tag>)
    requires CacheRight(c, own)
    ensures CacheRight(c.(frozen := rs), own)
  {
    hide Tagged;
    forall l: nat, g
      ensures Tagged(c.(frozen := rs), l, g) <==> Tagged(c, l, g)
    {
      SameTags(c.(frozen := rs), c, l, g);
    }
  }

  lemma NoCacheIsRight(c: Core, own: set<Tag>)
    ensures CacheRight(c.(tail := None, tailOpen := false), own)
  {
  }

  lemma EventKeepsSorted(p: Pane, ev: Event, own: set<Tag>)
    requires InStep(p, own) && Permitted(p, ev, own)
    ensures Sorted(Apply(p, ev).core.frozen)
  {
    hide Marked, CacheRight, Sorted, Do, InsertText, DeleteText, TagLine, AppendChunk, FloorClears, MoveCaret, Breaks,
         Add;
    var c := p.core;
    assert Proper(c.anchors) by { assert Marked(c); ProperOfMarked(c); }
    match ev
    case Edited(prim) => PrimKeepsSorted(c, prim);
    case Moved(_, _) =>
    case Inserted(at, x) => InsertClamps(c, at, x); SortedAfterInsert(c, Min(at, |c.doc.text|), x);
    case Deleted(s, e) => SortedAfterDelete(c, s, e);
    case Froze(s, e) => AddSorts(c.frozen, s, e);
    case TaggedLine(line, tag) => TagLineProper(c, line, tag);
    case TailForgotten =>
    case Chunk(tag, chunk, floor) => ChunkIsTail(p, tag, chunk, floor, own);
  }

  lemma PrimKeepsSorted(c: Core, p: Prim)
    requires Sorted(c.frozen)
    ensures Sorted(Do(c, p).frozen)
  {
    hide ApplyShifts, Merge, HistoryStep, HistoryShifts;
    if p.PStep? {
      if Stack(c.doc, p.dir) != [] {
        FrozenText.ReplayKeepsSorted(c.(doc := HistoryStep(c.doc, p.dir)), HistoryShifts(c.doc, p.dir));
      }
    } else {
      FrozenText.EditKeepsSorted(c, p);
    }
  }

  lemma ProperOfMarked(c: Core)
    requires Marked(c)
    ensures Proper(c.anchors)
  {
  }

  lemma SortedAfterDelete(c: Core, s: nat, e: nat)
    requires Sorted(c.frozen)
    ensures Sorted(DeleteText(c, s, e).frozen)
  {
    hide Sorted, Normalize, MapDelete, Breaks, LineOf, DeleteNoUndo;
    var s', e' := Min(s, |c.doc.text|), Min(e, |c.doc.text|);
    if s' < e' {
      NormalizeSorts(MapDelete(c.frozen, LineOf(c.doc.text, s'), Breaks(c.doc.text[s'..e'])));
    }
  }

  lemma EventKeepsStep(p: Pane, ev: Event, own: set<Tag>)
    requires InStep(p, own) && Permitted(p, ev, own)
    ensures Proper(p.core.anchors) && InStep(Apply(p, ev), own)
  {
    hide Marked, CacheRight, Sorted, Apply, Permitted;
    ProperOfMarked(p.core);
    EventKeepsCache(p, ev, own);
    EventKeepsSorted(p, ev, own);
  }

  /** A run of events, each permitted where it happens. */
  ghost predicate PermittedRun(p: Pane, evs: seq<Event>, own: set<Tag>)
    decreases |evs|
  {
    evs == [] || (Proper(p.core.anchors) && Permitted(p, evs[0], own) && PermittedRun(Apply(p, evs[0]), evs[1..], own))
  }

  ghost function Run(p: Pane, evs: seq<Event>): Pane
    decreases |evs|
  {
    if evs == [] || !Proper(p.core.anchors) then p else Run(Apply(p, evs[0]), evs[1..])
  }

  lemma {:induction false} RunKeepsStep(p: Pane, evs: seq<Event>, own: set<Tag>)
    requires InStep(p, own) && PermittedRun(p, evs, own)
    ensures InStep(Run(p, evs), own)
    decreases |evs|
  {
    hide InStep, Apply, Permitted, Proper;
    if evs != [] {
      EventKeepsStep(p, evs[0], own);
      RunKeepsStep(Apply(p, evs[0]), evs[1..], own);
    }
  }

  /** What a reverse scan over the tags finds. */
  ghost function Scan(c: Core, tag: Tag): Option<nat> {
    if l: nat :| Highest(c, tag, l) then Some(l) else None
  }

  lemma ScanIsUnique(c: Core, tag: Tag, l: nat)
    requires Highest(c, tag, l)
    ensures Scan(c, tag) == Some(l)
  {
    var k: nat :| Highest(c, tag, k) && Scan(c, tag) == Some(k);
    NotAbove(c, tag, k, l);
    NotAbove(c, tag, l, k);
  }

  /** The cached tail agrees with the reverse scan: over any run of chunks,
      other turns, edits, programmatic splices, undo and redo that starts
      without a cached line, whenever the cached line passes validation it is
      the highest line carrying the tag; so cache or scan, a chunk goes to the
      same place. */
  lemma CacheAgreesWithScan(p: Pane, evs: seq<Event>, own: set<Tag>, tag: Tag)
    requires Marked(p.core) && Sorted(p.core.frozen) && p.core.tail.None?
    requires PermittedRun(p, evs, own) && tag in own
    ensures var c := Run(p, evs).core;
            && (ValidTail(c, tag).Some? ==> Scan(c, tag) == ValidTail(c, tag))
            && TurnTail(c, tag) == Scan(c, tag)
  {
    hide Marked, Highest, Sorted, PermittedRun, Run, Tagged;
    RunKeepsStep(p, evs, own);
    var c := Run(p, evs).core;
    if ValidTail(c, tag).Some? {
      ScanIsUnique(c, tag, c.tail.value);
    } else if TurnTail(c, tag).Some? {
      ScanIsUnique(c, tag, TurnTail(c, tag).value);
    }
  }
}
