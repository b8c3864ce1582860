// Inserting a run of text in bulk does what typing it character by character does.
module TypedRuns {
  import opened Lines
  import opened Options
  import opened DocModel
  import opened Ranges
  import opened Anchors
  import opened CoreModel
  import opened View

  /** Same text, frozen ranges, locked prefix and atomic blocks. */
  predicate SameSurface(a: Core, b: Core) {
    && a.doc.text == b.doc.text
    && a.frozen == b.frozen && a.lock == b.lock && a.atomic == b.atomic
  }

  /** Same anchors, tags and cached tail. */
  predicate SameMarks(a: Core, b: Core) {
    a.anchors == b.anchors && a.meta == b.meta && a.tail == b.tail && a.tailOpen == b.tailOpen
  }

  /** The caret is on an editable line, no further right than its visible end. */
  predicate Ready(c: Core, v: Caret) {
    && c.lock <= v.line <= Breaks(c.doc.text) && !IsFrozen(c, v.line)
    && v.col <= LineLen(c.doc.text, v.line)
  }

  /** The caret is right before a line break: a CR typed here hides in it. */
  predicate AtBreak(t: Text, v: Caret) {
    var i := CaretIndex(t, v);
    i < |t| && t[i] == '\n'
  }

  /** A typed character leaves the caret right after it. */
  predicate Lands(t: Text, v: Caret, ch: char) { AtBreak(t, v) ==> ch != '\r' }

  predicate AllLand(t: Text, v: Caret, x: Text) { AtBreak(t, v) ==> '\r' !in x }

  // --- Shifts around an uncovered line ---

  /** Every range past `line` moves down by `n`. */
  function Down(rs: seq<Range>, line: nat, n: nat): seq<Range> {
    seq(|rs|, i requires 0 <= i < |rs| => if rs[i].s > line then Range(rs[i].s + n, rs[i].e + n) else rs[i])
  }

  lemma {:induction false} ShiftIsDown(rs: seq<Range>, line: nat, at: nat, col: nat, n: nat)
    requires Sorted(rs) && !Covers(rs, line) && (at == line || at == line + 1)
    ensures ShiftInsert(rs, at, col, n) == Down(rs, line, n)
  {
    if rs != [] {
      var init, r := rs[..|rs| - 1], rs[|rs| - 1];
      ShiftIsDown(init, line, at, col, n);
      OneIsDown(r, line, at, col, n);
      DownSnoc(rs, line, n);
    }
  }

  lemma OneIsDown(r: Range, line: nat, at: nat, col: nat, n: nat)
    requires r.s < r.e && !Holds(r, line) && (at == line || at == line + 1)
    ensures ShiftOneInsert(r, at, col, n) == Down([r], line, n)
  {
  }

  lemma DownSnoc(rs: seq<Range>, line: nat, n: nat)
    requires rs != []
    ensures Down(rs, line, n) == Down(rs[..|rs| - 1], line, n) + Down([rs[|rs| - 1]], line, n)
  {
  }

  lemma DownTwice(rs: seq<Range>, line: nat, n: nat)
    ensures Down(Down(rs, line, 1), line + 1, n) == Down(rs, line, n + 1)
  {
  }

  /** After one break nothing covers the line it opens. */
  lemma DownLeavesGap(rs: seq<Range>, line: nat)
    requires Sorted(rs) && !Covers(rs, line)
    ensures Sorted(Down(rs, line, 1)) && !Covers(Down(rs, line, 1), line + 1)
  {
    hide Covers;
    var out := Down(rs, line, 1);
    forall i | 0 <= i < |rs|
      ensures rs[i].e <= line || rs[i].s > line
    {
      if rs[i].s <= line < rs[i].e {
        CoversIndex(rs, i, line);
      }
    }
    if Covers(out, line + 1) {
      var i := HolderOf(out, line + 1);
      assert false;
    }
  }

  lemma AtomicTwice(rs: seq<Range>, at: nat, n: nat)
    ensures MapAtomicInsert(MapAtomicInsert(rs, at, 1), at + 1, n) == MapAtomicInsert(rs, at, n + 1)
  {
  }

  lemma DownByNone(rs: seq<Range>, line: nat, at: nat)
    ensures Down(rs, line, 0) == rs && MapAtomicInsert(rs, at, 0) == rs
  {
  }

  // --- Carets ---

  lemma CaretOfIndex(t: Text, v: Caret)
    requires v.line <= Breaks(t) && v.col <= LineLen(t, v.line)
    ensures var i := CaretIndex(t, v);
            LineOf(t, i) == v.line && ColOf(t, i) == v.col && (AtVisibleEnd(t, i) <==> v.col >= LineLen(t, v.line))
  {
    hide LineStart, Breaks, TailLen, LineLen, LineColToChar, AtVisibleEnd;
    CaretPosition(t, v.line, v.col);
  }

  lemma OneMore(a: Text, ch: char)
    ensures Breaks(a + [ch]) == Breaks(a) + if ch == '\n' then 1 else 0
    ensures TailLen(a + [ch]) == if ch == '\n' then 0 else TailLen(a) + 1
  {
    assert (a + [ch])[..|a + [ch]| - 1] == a;
  }

  /** The caret after one typed character. */
  lemma AfterOne(t: Text, v: Caret, ch: char)
    requires v.line <= Breaks(t) && v.col <= LineLen(t, v.line) && Lands(t, v, ch)
    ensures var i := CaretIndex(t, v);
            var u := t[..i] + [ch] + t[i..];
            var w := if ch == '\n' then Caret(v.line + 1, 0) else Caret(v.line, v.col + 1);
            && w.line <= Breaks(u) && w.col <= LineLen(u, w.line)
            && CaretIndex(u, w) == i + 1 && (AtBreak(u, w) <==> AtBreak(t, v))
            && (w.col >= LineLen(u, w.line) <==> v.col >= LineLen(t, v.line))
  {
    hide LineStart, LineLen, LineColToChar, Breaks, TailLen, AtVisibleEnd;
    var i := CaretIndex(t, v);
    var u := t[..i] + [ch] + t[i..];
    CaretOfIndex(t, v);
    OneMore(t[..i], ch);
    assert u[..i + 1] == t[..i] + [ch];
    assert u[i] == ch && u[i + 1..] == t[i..];
    PositionRoundTrip(u, i + 1);
    VisibleEnd(u, i + 1);
    SameEnd(t, i, u, i + 1);
  }

  /** What is visible to the right depends only on the text to the right. */
  lemma SameEnd(t: Text, i: nat, u: Text, j: nat)
    requires i <= |t| && j <= |u| && t[i..] == u[j..]
    ensures AtVisibleEnd(t, i) <==> AtVisibleEnd(u, j)
  {
    var rest := t[i..];
    assert |rest| > 0 ==> t[i] == rest[0] && u[j] == rest[0];
    assert |rest| > 1 ==> t[i + 1] == rest[1] && u[j + 1] == rest[1];
  }

  // --- One character ---

  /** The state after typing the first character, and its caret. */
  function First(c: Core, v: Caret, ch: char): Core { Do(c, PInsert(v.line, v.col, [ch])) }
  function NextCaret(v: Caret, ch: char): Caret {
    if ch == '\n' then Caret(v.line + 1, 0) else Caret(v.line, v.col + 1)
  }

  lemma BreaksOfCons(ch: char, x: Text)
    ensures Breaks([ch] + x) == Breaks([ch]) + Breaks(x) && Breaks([ch]) == if ch == '\n' then 1 else 0
    ensures LeadLen([ch] + x) == if ch == '\n' then 0 else 1 + LeadLen(x)
  {
    BreaksConcat([ch], x);
    assert [ch][..0] == [];
    assert ([ch] + x)[1..] == x;
  }

  lemma InsertText(d: Doc, i: nat, x: Text)
    requires i <= |d.text|
    ensures InsertAt(d, i, x).text == d.text[..i] + x + d.text[i..]
  {
    hide RecordIn, EditOf;
  }

  /** Two inserts in a row are one. */
  lemma InsertTwice(t: Text, i: nat, ch: char, x: Text)
    requires i <= |t|
    ensures var u := t[..i] + [ch] + t[i..];
            u[..i + 1] + x + u[i + 1..] == t[..i] + ([ch] + x) + t[i..]
  {
    var u := t[..i] + [ch] + t[i..];
    assert u[..i + 1] == t[..i] + [ch] && u[i + 1..] == t[i..];
  }

  /** Typing one character leaves the caret ready for the next. */
  lemma FirstIsReady(c: Core, v: Caret, ch: char)
    requires Ready(c, v) && Sorted(c.frozen) && Lands(c.doc.text, v, ch)
    ensures Ready(First(c, v, ch), NextCaret(v, ch)) && Sorted(First(c, v, ch).frozen)
    ensures CaretIndex(First(c, v, ch).doc.text, NextCaret(v, ch)) == CaretIndex(c.doc.text, v) + 1
    ensures AtBreak(First(c, v, ch).doc.text, NextCaret(v, ch)) <==> AtBreak(c.doc.text, v)
    ensures var u, w := First(c, v, ch).doc.text, NextCaret(v, ch);
            w.col >= LineLen(u, w.line) <==> v.col >= LineLen(c.doc.text, v.line)
  {
    hide Breaks, LineLen, Covers, Sorted, InsertAt, LineColToChar, AtBreak;
    var i := CaretIndex(c.doc.text, v);
    InsertText(c.doc, i, [ch]);
    AfterOne(c.doc.text, v, ch);
    BreaksOfCons(ch, []);
    assert [ch] + [] == [ch];
    if ch == '\n' {
      var q := CaretInsertPoint(c.doc.text, v.line, v.col);
      ShiftIsDown(c.frozen, v.line, q.0, q.1, 1);
      DownLeavesGap(c.frozen, v.line);
    }
  }

  function Bulk(c: Core, v: Caret, x: Text): Core { Do(c, PTyped(v.line, v.col, x)) }

  /** Typing the first character and inserting the rest in bulk is inserting it
      all in bulk: the surface. */
  lemma PeelSurface(c: Core, v: Caret, ch: char, x: Text)
    requires Ready(c, v) && Sorted(c.frozen) && Lands(c.doc.text, v, ch)
    ensures SameSurface(Bulk(First(c, v, ch), NextCaret(v, ch), x), Bulk(c, v, [ch] + x))
  {
    hide Breaks, LineLen, Covers, Sorted, InsertAt, LineColToChar, LeadLen, ShiftInsert, MapAtomicInsert, Down;
    var t, i := c.doc.text, CaretIndex(c.doc.text, v);
    var c1, v1 := First(c, v, ch), NextCaret(v, ch);
    FirstIsReady(c, v, ch);
    InsertText(c.doc, i, [ch]);
    InsertText(c.doc, i, [ch] + x);
    InsertText(c1.doc, i + 1, x);
    InsertTwice(t, i, ch, x);
    BreaksOfCons(ch, x);
    PeelShifts(c, v, ch, x);
  }

  /** The frozen ranges, the lock and the atomic blocks alone. */
  lemma PeelShifts(c: Core, v: Caret, ch: char, x: Text)
    requires Ready(c, v) && Sorted(c.frozen) && Lands(c.doc.text, v, ch)
    ensures var a, b := Bulk(First(c, v, ch), NextCaret(v, ch), x), Bulk(c, v, [ch] + x);
            a.frozen == b.frozen && a.lock == b.lock && a.atomic == b.atomic
  {
    hide Breaks, LineLen, Covers, Sorted, InsertAt, LineColToChar, LeadLen, ShiftInsert, MapAtomicInsert, Down;
    var c1, v1 := First(c, v, ch), NextCaret(v, ch);
    var at := CaretInsertPoint(c.doc.text, v.line, v.col).0;
    var at1 := CaretInsertPoint(c1.doc.text, v1.line, v1.col).0;
    var n := Breaks(x);
    FirstIsReady(c, v, ch);
    BreaksOfCons(ch, x);
    BreaksOfCons(ch, []);
    assert [ch] + [] == [ch];
    BulkFrozen(c1, v1, x);
    BulkFrozen(c, v, [ch] + x);
    if ch == '\n' {
      var q := CaretInsertPoint(c.doc.text, v.line, v.col);
      ShiftIsDown(c.frozen, v.line, q.0, q.1, 1);
      DownTwice(c.frozen, v.line, n);
      AtomicTwice(c.atomic, at, n);
      assert at1 == at + 1;
    }
  }

  /** What a bulk insert does to the ranges. */
  lemma BulkFrozen(c: Core, v: Caret, x: Text)
    requires Ready(c, v) && Sorted(c.frozen)
    ensures var b := Bulk(c, v, x);
            && b.frozen == Down(c.frozen, v.line, Breaks(x)) && b.lock == c.lock
            && b.atomic == MapAtomicInsert(c.atomic, CaretInsertPoint(c.doc.text, v.line, v.col).0, Breaks(x))
  {
    hide Breaks, LineLen, Covers, Sorted, InsertAt, LineColToChar, LeadLen, ShiftInsert, MapAtomicInsert, Down;
    var q := CaretInsertPoint(c.doc.text, v.line, v.col);
    if Breaks(x) == 0 {
      DownByNone(c.frozen, v.line, q.0);
      DownByNone(c.atomic, v.line, q.0);
    } else {
      ShiftIsDown(c.frozen, v.line, q.0, if q.0 == v.line then v.col + LeadLen(x) else 0, Breaks(x));
    }
  }

  // --- The whole run ---

  lemma TypingIsFirst(c: Core, v: Caret, ch: char)
    requires Ready(c, v)
    ensures DoAll(c, TypeOne(c, v, ch).ps) == First(c, v, ch) && TypeOne(c, v, ch).caret == NextCaret(v, ch)
  {
    hide Do, Covers;
    var p := PInsert(v.line, v.col, [ch]);
    assert [p][1..] == [];
  }

  lemma InsertNothing(d: Doc, i: nat)
    requires i <= |d.text|
    ensures InsertAt(d, i, []).text == d.text
  {
    InsertText(d, i, []);
    assert d.text[..i] + [] + d.text[i..] == d.text;
  }

  lemma BulkOfNothing(c: Core, v: Caret)
    requires Ready(c, v)
    ensures SameSurface(Bulk(c, v, []), c) && SameMarks(Bulk(c, v, []), c)
  {
    hide LineLen, LineColToChar, Covers, InsertAt, ShiftFrozenAt, LeadLen, Ready;
    InsertNothing(c.doc, CaretIndex(c.doc.text, v));
  }

  /** Bulk insert is the fold of single inserts: same text, caret, frozen
      ranges, locked prefix and atomic blocks, on an editable caret line. */
  lemma {:induction false} BulkIsFold(c: Core, v: Caret, x: Text)
    requires Ready(c, v) && Sorted(c.frozen) && AllLand(c.doc.text, v, x)
    ensures SameSurface(Bulk(c, v, x), DoAll(c, TypeRun(c, v, x).ps))
    ensures TypeRun(c, v, x).caret == CaretAt(Bulk(c, v, x).doc.text, CaretIndex(c.doc.text, v) + |x|)
    decreases |x|
  {
    hide Ready, Bulk, First, TypeOne, Sorted, CaretIndex, AtBreak, DoAll;
    if x == [] {
      BulkOfNothing(c, v);
      CaretRoundTrip(c, v);
      NothingTyped(c);
    } else {
      var ch, rest := x[0], x[1..];
      assert x == [ch] + rest;
      var c1, v1 := First(c, v, ch), NextCaret(v, ch);
      FirstIsReady(c, v, ch);
      TypingIsFirst(c, v, ch);
      BulkIsFold(c1, v1, rest);
      PeelSurface(c, v, ch, rest);
      DoAllConcat(c, TypeOne(c, v, ch).ps, TypeRun(c1, v1, rest).ps);
    }
  }

  lemma NothingTyped(c: Core)
    ensures DoAll(c, []) == c
  {
    hide Do;
  }

  lemma CaretRoundTrip(c: Core, v: Caret)
    requires Ready(c, v)
    ensures CaretAt(c.doc.text, CaretIndex(c.doc.text, v)) == v
  {
    hide LineLen, LineColToChar, Covers, Breaks, TailLen, AtVisibleEnd;
    CaretOfIndex(c.doc.text, v);
  }

  // --- Anchors, tags and the cached tail ---

  /** The run starts with line breaks and holds no break after anything else. */
  predicate BreaksTogether(x: Text) {
    x == [] || (if x[0] == '\n' then BreaksTogether(x[1..]) else Breaks(x) == 0)
  }

  /** The shape in which a bulk insert and typing move the caret line's anchor
      differently: a break first, at column 0 of a line with text, and another
      break after some other character. */
  predicate Splits(c: Core, v: Caret, x: Text) {
    x != [] && x[0] == '\n' && v.col == 0 && LineLen(c.doc.text, v.line) > 0 && !BreaksTogether(x)
  }

  /** Moving the anchors for a bulk insert. */
  function BulkFirst(c: Core, v: Caret, x: Text): nat {
    if v.col < LineLen(c.doc.text, v.line) then FirstMoved(v.line, v.col + LeadLen(x)) else v.line + 1
  }

  lemma BulkMarks(c: Core, v: Caret, x: Text)
    ensures var b, first := Bulk(c, v, x), BulkFirst(c, v, x);
            && b.meta == c.meta && b.tailOpen == c.tailOpen
            && b.anchors == c.anchors.(
                 lines := map a | a in c.anchors.lines :: ShiftLine(c.anchors.lines[a], first, Breaks(x)))
            && b.tail == if c.tail.Some? then Some(ShiftLine(c.tail.value, first, Breaks(x))) else None
  {
    hide LineLen, LineColToChar, Breaks, LeadLen, InsertAt, ShiftInsert, MapAtomicInsert;
    if Breaks(x) == 0 {
      assert c.anchors.lines == map a | a in c.anchors.lines :: ShiftLine(c.anchors.lines[a], BulkFirst(c, v, x), 0);
    }
  }

  lemma FirstMarks(c: Core, v: Caret, ch: char)
    ensures SameMarks(First(c, v, ch), Bulk(c, v, [ch]))
  {
    hide LineLen, LineColToChar, InsertAt, ShiftInsert, MapAtomicInsert;
    BreaksOfCons(ch, []);
    assert [ch] + [] == [ch];
  }

  /** Nothing is pinned to the line. */
  ghost predicate Unmarked(c: Core, line: nat) {
    (forall a :: a in c.anchors.lines ==> c.anchors.lines[a] != line) && c.tail != Some(line)
  }

  /** Shifting twice is shifting once, unless the first shift moved the caret
      line and the second leaves it. */
  lemma PeelMarks(c: Core, v: Caret, ch: char, x: Text)
    requires Ready(c, v) && Sorted(c.frozen) && Lands(c.doc.text, v, ch)
    requires !Splits(c, v, [ch] + x) || Unmarked(c, v.line)
    ensures SameMarks(Bulk(First(c, v, ch), NextCaret(v, ch), x), Bulk(c, v, [ch] + x))
  {
    hide Ready, LineLen, Breaks, LeadLen, Bulk, First, Sorted, CaretIndex;
    var c1, v1 := First(c, v, ch), NextCaret(v, ch);
    FirstIsReady(c, v, ch);
    FirstMarks(c, v, ch);
    BulkMarks(c, v, [ch]);
    BulkMarks(c, v, [ch] + x);
    BulkMarks(c1, v1, x);
    BreaksOfCons(ch, x);
    BreaksOfCons(ch, []);
    assert [ch] + [] == [ch];
    LeadOfBreaks(x);
    assert ([ch] + x)[1..] == x;
    var f, g, h := BulkFirst(c, v, [ch]), BulkFirst(c1, v1, x), BulkFirst(c, v, [ch] + x);
    forall l: nat | !Splits(c, v, [ch] + x) || l != v.line
      ensures ShiftLine(ShiftLine(l, f, Breaks([ch])), g, Breaks(x)) == ShiftLine(l, h, Breaks([ch] + x))
    {
    }
  }

  lemma LeadOfBreaks(x: Text)
    ensures BreaksTogether(x) && Breaks(x) > 0 ==> LeadLen(x) == 0
  {
    if x != [] && x[0] != '\n' {
      assert Breaks(x) > 0 ==> !BreaksTogether(x);
    }
  }

  /** The line a typed character leaves the caret on is unmarked when it is
      fresh, or when the caret line was. */
  lemma FirstUnmarked(c: Core, v: Caret, ch: char)
    requires Ready(c, v) && (v.col > 0 || Unmarked(c, v.line)) && ch == '\n' && v.col < LineLen(c.doc.text, v.line)
    ensures Unmarked(First(c, v, ch), v.line + 1)
  {
    hide LineLen, Breaks, Bulk, First, Ready;
    FirstMarks(c, v, ch);
    BulkMarks(c, v, [ch]);
    BreaksOfCons(ch, []);
    assert [ch] + [] == [ch];
  }

  /** A run that does not split now either does not split once its first
      character is typed, or its new caret line is unmarked. */
  lemma StillTogether(c: Core, v: Caret, ch: char, rest: Text)
    requires Ready(c, v) && Sorted(c.frozen) && Lands(c.doc.text, v, ch)
    requires !Splits(c, v, [ch] + rest) || Unmarked(c, v.line)
    ensures !Splits(First(c, v, ch), NextCaret(v, ch), rest) || Unmarked(First(c, v, ch), NextCaret(v, ch).line)
  {
    hide LineLen, Breaks, First, Ready, Sorted, CaretIndex;
    FirstIsReady(c, v, ch);
    assert ([ch] + rest)[1..] == rest;
    if Splits(First(c, v, ch), NextCaret(v, ch), rest) {
      FirstUnmarked(c, v, ch);
    }
  }

  /** Typing and bulk inserting move anchors, tags and the cached tail alike,
      unless the run splits and something is pinned to the caret line. */
  lemma {:induction false} BulkMarksAreFold(c: Core, v: Caret, x: Text)
    requires Ready(c, v) && Sorted(c.frozen) && AllLand(c.doc.text, v, x)
    requires !Splits(c, v, x) || Unmarked(c, v.line)
    ensures SameMarks(Bulk(c, v, x), DoAll(c, TypeRun(c, v, x).ps))
    decreases |x|
  {
    hide Ready, Bulk, First, TypeOne, Sorted, CaretIndex, LineLen, Breaks, Splits, Unmarked, AtBreak, DoAll;
    if x == [] {
      BulkOfNothing(c, v);
      NothingTyped(c);
    } else {
      var ch, rest := x[0], x[1..];
      assert x == [ch] + rest;
      var c1, v1 := First(c, v, ch), NextCaret(v, ch);
      FirstIsReady(c, v, ch);
      TypingIsFirst(c, v, ch);
      StillTogether(c, v, ch, rest);
      BulkMarksAreFold(c1, v1, rest);
      PeelMarks(c, v, ch, rest);
      DoAllConcat(c, TypeOne(c, v, ch).ps, TypeRun(c1, v1, rest).ps);
    }
  }

  /** Line breaks at the start of `x`. */
  function Leading(x: Text): nat {
    if x == [] || x[0] != '\n' then 0 else 1 + Leading(x[1..])
  }

  /** Whatever is pinned to line `from` of `c` is pinned to line `to` of `d`. */
  ghost predicate Carried(c: Core, d: Core, from: nat, to: nat) {
    && (forall a :: a in c.anchors.lines && c.anchors.lines[a] == from ==>
          a in d.anchors.lines && d.anchors.lines[a] == to)
    && (c.tail == Some(from) ==> d.tail == Some(to))
  }

  lemma FirstCarries(c: Core, v: Caret)
    requires v.col == 0 && LineLen(c.doc.text, v.line) > 0
    ensures Carried(c, First(c, v, '\n'), v.line, v.line + 1)
  {
    hide LineLen, Breaks, LeadLen, Bulk, First;
    FirstMarks(c, v, '\n');
    BulkMarks(c, v, ['\n']);
    BreaksOfCons('\n', []);
    assert ['\n'] + [] == ['\n'];
  }

  /** Text typed at column 0 leaves the line where it is. */
  lemma TextStays(c: Core, v: Caret, x: Text)
    requires Ready(c, v) && Sorted(c.frozen) && AllLand(c.doc.text, v, x) && Leading(x) == 0
    requires v.col == 0 && LineLen(c.doc.text, v.line) > 0
    ensures Carried(c, DoAll(c, TypeRun(c, v, x).ps), v.line, v.line)
  {
    hide Ready, Bulk, Sorted, LineLen, Breaks, LeadLen, TypeRun, DoAll;
    BulkMarksAreFold(c, v, x);
    BulkMarks(c, v, x);
    LeadOfText(x);
  }

  /** Where typing takes what is pinned to the caret line: down by the leading breaks only. */
  lemma {:induction false} TypedLine(c: Core, v: Caret, x: Text)
    requires Ready(c, v) && Sorted(c.frozen) && AllLand(c.doc.text, v, x)
    requires v.col == 0 && LineLen(c.doc.text, v.line) > 0 && Leading(x) > 0
    ensures Carried(c, DoAll(c, TypeRun(c, v, x).ps), v.line, v.line + Leading(x))
    decreases |x|
  {
    hide Ready, First, TypeOne, Sorted, CaretIndex, LineLen, DoAll, Carried;
    var ch, rest := x[0], x[1..];
    assert x == [ch] + rest;
    var c1, v1 := First(c, v, ch), NextCaret(v, ch);
    FirstIsReady(c, v, ch);
    TypingIsFirst(c, v, ch);
    DoAllConcat(c, TypeOne(c, v, ch).ps, TypeRun(c1, v1, rest).ps);
    FirstCarries(c, v);
    if Leading(rest) > 0 {
      TypedLine(c1, v1, rest);
    } else {
      TextStays(c1, v1, rest);
    }
    CarriedOn(c, c1, DoAll(c1, TypeRun(c1, v1, rest).ps), v.line, v1.line, v.line + Leading(x));
  }

  lemma CarriedOn(c: Core, d: Core, e: Core, k: nat, l: nat, m: nat)
    requires Carried(c, d, k, l) && Carried(d, e, l, m)
    ensures Carried(c, e, k, m)
  {
  }

  lemma LeadOfText(x: Text)
    requires Leading(x) == 0
    ensures x == [] ==> Breaks(x) == 0
    ensures x != [] ==> LeadLen(x) > 0
  {
  }

  lemma {:induction false} LeadingBreaks(x: Text)
    ensures BreaksTogether(x) <==> Breaks(x) == Leading(x)
    ensures Leading(x) <= Breaks(x)
  {
    if x != [] {
      BreaksOfCons(x[0], x[1..]);
      assert [x[0]] + x[1..] == x;
      if x[0] == '\n' {
        LeadingBreaks(x[1..]);
      }
    }
  }

  // A caret at the visible end, where a return may hide in the line break.

  /** The caret is on an editable line, at its visible end or past it. */
  predicate AtEnd(c: Core, v: Caret) {
    && c.lock <= v.line <= Breaks(c.doc.text) && !IsFrozen(c, v.line)
    && v.col >= LineLen(c.doc.text, v.line)
  }

  /** Typed at the visible end, a character leaves the caret at a visible end,
      or past it. */
  lemma EndStaysEnd(t: Text, v: Caret, ch: char)
    requires v.line <= Breaks(t) && v.col >= LineLen(t, v.line)
    ensures var q := CaretIndex(t, v);
            var u, w := t[..q] + [ch] + t[q..], NextCaret(v, ch);
            w.line <= Breaks(u) && w.col >= LineLen(u, w.line)
  {
    hide LineStart, LineLen, LineColToChar, Breaks, TailLen, AtVisibleEnd;
    var q := CaretIndex(t, v);
    var u := t[..q] + [ch] + t[q..];
    CaretPosition(t, v.line, v.col);
    OneMore(t[..q], ch);
    assert u[..q + 1] == t[..q] + [ch] && u[..q] == t[..q] && u[q + 1..] == t[q..];
    SameEnd(t, q, u, q + 1);
    PositionOf(u, q + 1);
    VisibleEnd(u, q + 1);
  }

  lemma FirstIsAtEnd(c: Core, v: Caret, ch: char)
    requires AtEnd(c, v) && Sorted(c.frozen)
    ensures AtEnd(First(c, v, ch), NextCaret(v, ch)) && Sorted(First(c, v, ch).frozen)
    ensures DoAll(c, TypeOne(c, v, ch).ps) == First(c, v, ch) && TypeOne(c, v, ch).caret == NextCaret(v, ch)
  {
    hide Breaks, LineLen, Covers, Sorted, InsertAt, LineColToChar;
    assert [PInsert(v.line, v.col, [ch])][1..] == [];
    InsertText(c.doc, CaretIndex(c.doc.text, v), [ch]);
    EndStaysEnd(c.doc.text, v, ch);
    BreaksOfCons(ch, []);
    assert [ch] + [] == [ch];
    if ch == '\n' {
      ShiftIsDown(c.frozen, v.line, v.line + 1, 0, 1);
      DownLeavesGap(c.frozen, v.line);
    }
  }

  lemma PeelEndMarks(c: Core, v: Caret, ch: char, x: Text)
    requires AtEnd(c, v) && Sorted(c.frozen)
    ensures SameMarks(Bulk(First(c, v, ch), NextCaret(v, ch), x), Bulk(c, v, [ch] + x))
  {
    hide LineLen, Breaks, LeadLen, Bulk, First, Sorted, Covers;
    var c1, v1 := First(c, v, ch), NextCaret(v, ch);
    FirstIsAtEnd(c, v, ch);
    FirstMarks(c, v, ch);
    BulkMarks(c, v, [ch]);
    BulkMarks(c, v, [ch] + x);
    BulkMarks(c1, v1, x);
    BreaksOfCons(ch, x);
    BreaksOfCons(ch, []);
    assert [ch] + [] == [ch];
    forall l: nat
      ensures ShiftLine(ShiftLine(l, BulkFirst(c, v, [ch]), Breaks([ch])), BulkFirst(c1, v1, x), Breaks(x))
           == ShiftLine(l, BulkFirst(c, v, [ch] + x), Breaks([ch] + x))
    {
    }
  }

  /** At the visible end every run moves the marks alike, whatever becomes of the text. */
  lemma {:induction false} EndMarksAreFold(c: Core, v: Caret, x: Text)
    requires AtEnd(c, v) && Sorted(c.frozen)
    ensures SameMarks(Bulk(c, v, x), DoAll(c, TypeRun(c, v, x).ps))
    decreases |x|
  {
    hide AtEnd, Bulk, First, TypeOne, Sorted, DoAll;
    if x == [] {
      BulkMarksOfNothing(c, v);
      NothingTyped(c);
    } else {
      var ch, rest := x[0], x[1..];
      assert x == [ch] + rest;
      var c1, v1 := First(c, v, ch), NextCaret(v, ch);
      FirstIsAtEnd(c, v, ch);
      EndMarksAreFold(c1, v1, rest);
      PeelEndMarks(c, v, ch, rest);
      DoAllConcat(c, TypeOne(c, v, ch).ps, TypeRun(c1, v1, rest).ps);
    }
  }

  lemma BulkMarksOfNothing(c: Core, v: Caret)
    ensures SameMarks(Bulk(c, v, []), c)
  {
    hide LineLen, LineColToChar, InsertAt, ShiftFrozenAt, LeadLen;
  }

  /** On an editable caret line, whatever the run: anchors, tags and cached
      tail come out the same if and only if the run does not split or nothing
      is pinned to the caret line. */
  lemma MarksAgreeExactly(c: Core, v: Caret, x: Text)
    requires Ready(c, v) && Sorted(c.frozen)
    ensures SameMarks(Bulk(c, v, x), DoAll(c, TypeRun(c, v, x).ps)) <==> !Splits(c, v, x) || Unmarked(c, v.line)
  {
    hide Ready, Bulk, Sorted, LineLen, Breaks, LeadLen, TypeRun, DoAll, CaretIndex;
    if AtBreak(c.doc.text, v) {
      BreakIsEnd(c, v);
      EndMarksAreFold(c, v, x);
    } else if !Splits(c, v, x) || Unmarked(c, v.line) {
      BulkMarksAreFold(c, v, x);
    } else {
      TypedLine(c, v, x);
      BulkMarks(c, v, x);
      LeadingBreaks(x);
      assert LeadLen(x) == 0 by { LeadOfBreak(x); }
    }
  }

  lemma BreakIsEnd(c: Core, v: Caret)
    requires Ready(c, v) && AtBreak(c.doc.text, v)
    ensures AtEnd(c, v)
  {
    hide LineLen, LineColToChar, Breaks, Covers;
    CaretOfIndex(c.doc.text, v);
  }

  lemma LeadOfBreak(x: Text)
    requires x != [] && x[0] == '\n'
    ensures LeadLen(x) == 0
  {
  }
}
