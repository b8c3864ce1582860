// What each editing command does to the text and to the caret, from the text
// alone.
module Effects {
  import opened Lines
  import opened Options
  import opened Splices
  import opened DocModel
  import opened Ranges
  import opened CoreModel
  import opened View
  import opened ViewRuns
  import opened TypedRuns
  import Documents

  /** The caret is at position `i`: on its line, at its column. */
  predicate At(t: Text, v: Caret, i: nat) {
    i <= |t| && v == Caret(LineOf(t, i), ColOf(t, i))
  }

  /** `t` with the characters `[s, e)` replaced by `x`. */
  function Swap(t: Text, s: nat, e: nat, x: Text): Text
    requires s <= e <= |t|
  {
    t[..s] + x + t[e..]
  }

  // --- Single actions and groups ---

  lemma InsertEffect(c: Core, line: nat, col: nat, x: Text)
    ensures var i := LineColToChar(c.doc.text, line, col);
            && Do(c, PInsert(line, col, x)).doc.text == Swap(c.doc.text, i, i, x)
            && Do(c, PTyped(line, col, x)).doc.text == Swap(c.doc.text, i, i, x)
  {
    hide LineColToChar, ShiftForInsert, ShiftForTypedInsert, InsertAt;
    InsertText(c.doc, LineColToChar(c.doc.text, line, col), x);
  }

  lemma DeleteEffect(c: Core, s: nat, e: nat)
    requires s <= e <= |c.doc.text|
    ensures Do(c, PDelete(s, e)).doc.text == Swap(c.doc.text, s, e, [])
    ensures DeleteRange(c.doc, s, e).text == Swap(c.doc.text, s, e, [])
  {
    hide ShiftForDelete, RecordSplice;
    var t := c.doc.text;
    assert t[..s] + t[e..] == t[..s] + [] + t[e..];
    if s == e {
      assert t[..s] + t[s..] == t;
    }
  }

  lemma OneDone(c: Core, p: Prim)
    ensures DoAll(c, [p]) == Do(c, p)
  {
    hide Do;
    assert [p][1..] == [];
    assert DoAll(Do(c, p), []) == Do(c, p);
  }

  lemma TwoDone(c: Core, p: Prim, q: Prim)
    ensures DoAll(c, [p, q]) == Do(Do(c, p), q)
  {
    hide Do;
    assert [p, q][1..] == [q];
    OneDone(Do(c, p), q);
  }

  lemma EndText(c: Core, line: nat, col: nat)
    ensures Do(c, PEnd(line, col)).doc.text == c.doc.text
  {
  }

  /** A group shows what its body does. */
  lemma GroupedText(c: Core, v: Caret, body: seq<Prim>, after: Caret)
    ensures DoAll(c, Grouped(c, v, body, after).ps).doc.text == DoAll(Do(c, PBegin(v.line, v.col)), body).doc.text
  {
    hide Do, DoAll;
    var p, q := PBegin(v.line, v.col), PEnd(after.line, after.col);
    if c.doc.pending.Some? {
      BeginIsNothing(c, v);
    } else {
      OneDone(c, p);
      DoAllConcat(c, [p], body);
      DoAllConcat(c, [p] + body, [q]);
      OneDone(DoAll(Do(c, p), body), q);
      EndText(DoAll(Do(c, p), body), after.line, after.col);
    }
  }

  lemma GroupedDeleteText(c: Core, v: Caret, s: nat, e: nat, after: Caret)
    requires s <= e <= |c.doc.text|
    ensures DoAll(c, Grouped(c, v, [PDelete(s, e)], after).ps).doc.text == Swap(c.doc.text, s, e, [])
  {
    hide Do, DoAll, Grouped;
    GroupedText(c, v, [PDelete(s, e)], after);
    var g := Do(c, PBegin(v.line, v.col));
    BeginEffect(c, v);
    OneDone(g, PDelete(s, e));
    DeleteEffect(g, s, e);
  }

  // --- Typing ---

  /** A typed character goes in at the caret, if it is let in, and the caret
      passes it. */
  lemma TypeCharEffect(c: Core, v: Caret, ch: char)
    ensures var t, i := c.doc.text, CaretIndex(c.doc.text, v);
            var (d, w) := After(c, v, TypeChar(ch));
            if CanInsertCharAt(c, v.line, v.col, ch) then
              && d.doc.text == Swap(t, i, i, [ch])
              && (At(t, v, i) ==> At(d.doc.text, w, i + 1))
            else d == c && w == v
  {
    hide CanInsertCharAt, Do, LineColToChar, Breaks, TailLen;
    var t, i := c.doc.text, CaretIndex(c.doc.text, v);
    NothingTyped(c);
    OneDone(c, PInsert(v.line, v.col, [ch]));
    InsertEffect(c, v.line, v.col, [ch]);
    OneMore(t[..i], ch);
    assert Swap(t, i, i, [ch])[..i + 1] == t[..i] + [ch];
  }

  /** A run typed where it is editable goes in as it is, and the caret passes it. */
  lemma InsertStrEffect(c: Core, v: Caret, x: Text)
    requires c.lock <= v.line && !IsFrozen(c, v.line)
    ensures var t, i := c.doc.text, CaretIndex(c.doc.text, v);
            var (d, w) := After(c, v, InsertStr(x));
            && d.doc.text == Swap(t, i, i, x)
            && (x == [] ==> d == c && w == v) && (x != [] ==> At(d.doc.text, w, i + |x|))
  {
    hide Do, LineColToChar, Breaks, TailLen, TypeRun;
    var t, i := c.doc.text, CaretIndex(c.doc.text, v);
    NothingTyped(c);
    OneDone(c, PTyped(v.line, v.col, x));
    InsertEffect(c, v.line, v.col, x);
    assert t[..i] + [] + t[i..] == t;
  }

  /** The commands that type the characters of `x`. */
  function Keys(x: Text): seq<Command> { seq(|x|, i requires 0 <= i < |x| => TypeChar(x[i])) }

  /** Elsewhere it goes in character by character, each under the guard. */
  lemma {:induction false} InsertStrElsewhere(c: Core, v: Caret, x: Text)
    ensures Run(c, v, Keys(x)) == (DoAll(c, TypeRun(c, v, x).ps), TypeRun(c, v, x).caret)
    ensures v.line < c.lock || IsFrozen(c, v.line) ==> After(c, v, InsertStr(x)) == Run(c, v, Keys(x))
    decreases |x|
  {
    hide TypeOne, DoAll, Do, Covers;
    NothingTyped(c);
    if x != [] {
      var one := TypeOne(c, v, x[0]);
      var c1 := DoAll(c, one.ps);
      assert Keys(x)[0] == TypeChar(x[0]) && Keys(x)[1..] == Keys(x[1..]);
      InsertStrElsewhere(c1, one.caret, x[1..]);
      DoAllConcat(c, one.ps, TypeRun(c1, one.caret, x[1..]).ps);
    }
  }

  /** A paste types its text inside a group of its own, or the open one. */
  lemma PasteStrEffect(c: Core, v: Caret, x: Text)
    ensures var (d, w) := After(c, v, PasteStr(x));
            var (e, w') := After(Do(c, PBegin(v.line, v.col)), v, InsertStr(x));
            && w == w' && d.doc.text == e.doc.text
            && (x == [] ==> d == c)
  {
    hide InsertRun, Do, DoAll;
    NothingTyped(c);
    NothingTyped(Do(c, PBegin(v.line, v.col)));
    if x == [] {
      assert InsertRun(Do(c, PBegin(v.line, v.col)), v, x) == Act([], v) by { NoRun(Do(c, PBegin(v.line, v.col)), v); }
      BeginEffect(c, v);
    } else {
      var run := InsertRun(Do(c, PBegin(v.line, v.col)), v, x);
      GroupedText(c, v, run.ps, run.caret);
    }
  }

  lemma NoRun(c: Core, v: Caret)
    ensures InsertRun(c, v, []) == Act([], v)
  {
  }

  // --- Deleting ---

  /** The guarded delete of `[s, e)`: the text without it and the caret at `s`, or nothing. */
  lemma DeleteGuardedEffect(c: Core, v: Caret, s: nat, e: nat)
    requires s < e <= |c.doc.text|
    ensures var act := DeleteGuarded(c, v, s, e);
            var d := DoAll(c, act.ps);
            if CanDeleteRange(c, s, e) then
              d.doc.text == Swap(c.doc.text, s, e, []) && At(d.doc.text, act.caret, s)
            else d == c && act.caret == v
  {
    hide CanDeleteRange, Do, Breaks, TailLen, DeleteRange;
    NothingTyped(c);
    OneDone(c, PDelete(s, e));
    DeleteEffect(c, s, e);
  }

  /** Backspace takes the character before the caret, if it may go. */
  lemma BackspaceEffect(c: Core, v: Caret)
    ensures var t, i := c.doc.text, CaretIndex(c.doc.text, v);
            var (d, w) := After(c, v, Backspace);
            if i > 0 && CanDeleteRange(c, i - 1, i) then
              d.doc.text == Swap(t, i - 1, i, []) && At(d.doc.text, w, i - 1)
            else d == c && w == v
  {
    hide CanDeleteRange, DoAll, LineColToChar, DeleteGuarded, At;
    var i := CaretIndex(c.doc.text, v);
    NothingTyped(c);
    if i > 0 {
      DeleteGuardedEffect(c, v, i - 1, i);
    }
  }

  /** The delete of `n` characters back stops at the start of the line. */
  lemma DeleteBackEffect(c: Core, v: Caret, n: nat)
    requires v.line <= Breaks(c.doc.text)
    ensures var t, i, s := c.doc.text, CaretIndex(c.doc.text, v), LineStart(c.doc.text, v.line);
            var (d, w) := After(c, v, DeleteBack(n));
            && s <= i
            && var from := if i - s < n then s else i - n;
               if from < i && CanDeleteRange(c, from, i) then
                 d.doc.text == Swap(t, from, i, []) && At(d.doc.text, w, from)
               else d == c && w == v
  {
    hide CanDeleteRange, DoAll, DeleteGuarded, LineStart, LineLen, Breaks, At;
    NothingTyped(c);
    var t, s := c.doc.text, LineStart(c.doc.text, v.line);
    var col := Min(v.col, LineLen(t, v.line));
    var i := LineColToChar(t, v.line, col);
    assert i == CaretIndex(t, v) == s + col;
    var k := Min(n, col);
    if k > 0 {
      DeleteGuardedEffect(c, v, i - k, i);
    }
  }

  /** The character under the caret goes; the caret stays, on the last
      character of its line at the furthest unless in insert mode. */
  lemma DeleteUnderEffect(c: Core, v: Caret, insertMode: bool)
    ensures var t, i := c.doc.text, CaretIndex(c.doc.text, v);
            var (d, w) := After(c, v, DeleteUnder(insertMode));
            if i < |t| && CanDeleteRange(c, i, i + 1) then
              var len := LineLen(d.doc.text, v.line);
              && d.doc.text == Swap(t, i, i + 1, [])
              && w == if insertMode || v.col < len || len == 0 then v else Caret(v.line, len - 1)
            else d == c && w == v
  {
    hide CanDeleteRange, DoAll, Do, LineColToChar, Grouped, LineLen, DeleteRange;
    var t, i := c.doc.text, CaretIndex(c.doc.text, v);
    NothingTyped(c);
    if i < |t| && CanDeleteRange(c, i, i + 1) {
      DeleteEffect(c, i, i + 1);
      var after := if insertMode then v else OnLastChar(DeleteRange(c.doc, i, i + 1).text, v);
      GroupedDeleteText(c, v, i, i + 1, after);
      GroupedCaret(c, v, [PDelete(i, i + 1)], after);
    }
  }

  lemma GroupedCaret(c: Core, v: Caret, body: seq<Prim>, after: Caret)
    ensures Grouped(c, v, body, after).caret == after
  {
  }

  /** The first and the last of two carets' positions, the character under
      them if they are one. */
  lemma DeleteSelectionEffect(c: Core, v: Caret, anchor: Caret)
    requires v.line <= Breaks(c.doc.text) && anchor.line <= Breaks(c.doc.text)
    ensures var t, i, j := c.doc.text, CaretIndex(c.doc.text, v), CaretIndex(c.doc.text, anchor);
            var (d, w) := After(c, v, DeleteSelection(anchor));
            var s := Min(i, j);
            var e := if i == j && i < |t| then i + 1 else if i < j then j else i;
            if s < e && CanDeleteRange(c, s, e) then
              d.doc.text == Swap(t, s, e, []) && At(d.doc.text, w, s)
            else d == c && w == v
  {
    hide CanDeleteRange, DoAll, Do, LineColToChar, Grouped, DeleteRange, Breaks, TailLen;
    var t, r := c.doc.text, SelectionRange(c.doc.text, v, anchor);
    NothingTyped(c);
    if anchor.line < v.line || (anchor.line == v.line && anchor.col <= v.col) {
      CaretsInOrder(t, anchor, v);
    } else {
      CaretsInOrder(t, v, anchor);
    }
    if r.0 < r.1 && CanDeleteRange(c, r.0, r.1) {
      DeleteEffect(c, r.0, r.1);
      var after := CaretAt(DeleteRange(c.doc, r.0, r.1).text, r.0);
      GroupedDeleteText(c, v, r.0, r.1, after);
      GroupedCaret(c, v, [PDelete(r.0, r.1)], after);
    }
  }

  /** Carets in the document are in the order of their positions. */
  lemma CaretsInOrder(t: Text, v: Caret, w: Caret)
    requires v.line < w.line <= Breaks(t) || (v.line == w.line <= Breaks(t) && v.col <= w.col)
    ensures CaretIndex(t, v) <= CaretIndex(t, w)
  {
    hide LineStart, LineLen, Breaks;
    LineLenBounds(t, v.line);
    if v.line < w.line {
      StartsGrow(t, v.line, w.line);
    }
  }

  /** A line ends before any later one starts. */
  lemma {:induction false} StartsGrow(t: Text, k: nat, l: nat)
    requires k < l <= Breaks(t)
    ensures LineStart(t, k) + LineLen(t, k) < LineStart(t, l)
    decreases l
  {
    hide LineStart, LineLen, Breaks;
    LineLenBounds(t, k);
    LineExtent(t, k);
    if k + 1 < l {
      StartsGrow(t, k, l - 1);
      LineExtent(t, l - 1);
    }
  }

  // --- Replacing ---

  /** Whether the character at `i` stands between a CR and a line break. */
  predicate Props(t: Text, i: nat) {
    0 < i && i + 1 < |t| && t[i - 1] == '\r' && t[i + 1] == '\n'
  }

  /** Where a character goes that is put back at the line and column of one
      just taken out: one to the left if what it propped apart has closed. */
  lemma PutBack(t: Text, i: nat)
    requires i < |t| && t[i] != '\n'
    ensures LineColToChar(Swap(t, i, i + 1, []), LineOf(t, i), ColOf(t, i)) == if Props(t, i) then i - 1 else i
  {
    hide LineStart, LineLen, Breaks, TailLen, LineColToChar;
    var u := Swap(t, i, i + 1, []);
    assert u[..i] == t[..i];
    if Props(t, i) {
      assert u[i - 1] == '\r' && u[i] == '\n';
      assert u[..i] == u[..i - 1] + ['\r'];
      OneMore(u[..i - 1], '\r');
      PositionRoundTrip(u, i - 1);
      VisibleEnd(u, i - 1);
      PastTheEnd(u, LineOf(u, i), ColOf(u, i));
    } else {
      assert !InsideBreak(u, i);
      PositionRoundTrip(u, i);
    }
  }

  /** A column past the visible end means the visible end. */
  lemma PastTheEnd(t: Text, line: nat, col: nat)
    requires line <= Breaks(t) && col >= LineLen(t, line)
    ensures LineColToChar(t, line, col) == LineColToChar(t, line, LineLen(t, line))
  {
    hide LineStart, LineLen, Breaks;
  }

  /** The text after one character was replaced in place. */
  function Replaced(t: Text, i: nat, ch: char): Text
    requires i < |t|
  {
    if Props(t, i) then t[..i - 1] + [ch] + [t[i - 1]] + t[i + 1..] else Swap(t, i, i + 1, [ch])
  }

  lemma ReplaceText(c: Core, v: Caret, i: nat, ch: char, line: nat, col: nat, after: Caret)
    requires var t := c.doc.text; i < |t| && t[i] != '\n' && line == LineOf(t, i) && col == ColOf(t, i)
    ensures DoAll(c, Grouped(c, v, [PDelete(i, i + 1), PInsert(line, col, [ch])], after).ps).doc.text
            == Replaced(c.doc.text, i, ch)
  {
    hide Do, DoAll, Grouped, LineColToChar, Breaks, TailLen;
    var t := c.doc.text;
    var p, q := PDelete(i, i + 1), PInsert(line, col, [ch]);
    GroupedText(c, v, [p, q], after);
    var g := Do(c, PBegin(v.line, v.col));
    BeginEffect(c, v);
    TwoDone(g, p, q);
    DeleteEffect(g, i, i + 1);
    InsertEffect(Do(g, p), line, col, [ch]);
    PutBack(t, i);
    var u := Swap(t, i, i + 1, []);
    if Props(t, i) {
      assert u[..i - 1] == t[..i - 1] && u[i - 1..] == [t[i - 1]] + t[i + 1..];
    } else {
      assert u[..i] == t[..i] && u[i..] == t[i + 1..];
    }
  }

  /** The visible character under the caret is replaced and the caret stays;
      one that keeps a CR and a line break apart comes back before the CR. */
  lemma ReplaceCharEffect(c: Core, v: Caret, ch: char)
    ensures var t, i := c.doc.text, CaretIndex(c.doc.text, v);
            var (d, w) := After(c, v, ReplaceChar(ch));
            && w == v
            && if v.col < LineLen(t, v.line) && CanDeleteRange(c, i, i + 1) && CanInsertCharAt(c, v.line, v.col, ch)
               then i < |t| && d.doc.text == Replaced(t, i, ch)
               else d == c
  {
    hide CanDeleteRange, CanInsertCharAt, DoAll, Do, LineColToChar, Grouped, LineLen, Breaks, TailLen, Replaced;
    var t, i := c.doc.text, CaretIndex(c.doc.text, v);
    NothingTyped(c);
    if v.col < LineLen(t, v.line) && CanDeleteRange(c, i, i + 1) && CanInsertCharAt(c, v.line, v.col, ch) {
      VisibleChar(t, v.line, v.col);
      CaretPosition(t, v.line, v.col);
      ReplaceText(c, v, i, ch, v.line, v.col, v);
      GroupedCaret(c, v, [PDelete(i, i + 1), PInsert(v.line, v.col, [ch])], v);
    }
  }

  /** The same for a character anywhere that is no line break; the caret stays. */
  lemma ToggleCharEffect(c: Core, v: Caret, at: nat, ch: char)
    ensures var t := c.doc.text;
            var (d, w) := After(c, v, ToggleChar(at, ch));
            && w == v
            && if ch != '\n' && at < |t| && t[at] != '\n' && CanDeleteRange(c, at, at + 1)
                  && CanInsertCharAt(c, LineOf(t, at), ColOf(t, at), ch)
               then d.doc.text == Replaced(t, at, ch)
               else d == c
  {
    hide CanDeleteRange, CanInsertCharAt, DoAll, Do, Grouped, Breaks, TailLen, Replaced;
    var t := c.doc.text;
    NothingTyped(c);
    if at < |t| && t[at] != '\n' {
      var p := CaretAt(t, at);
      ReplaceText(c, p, at, ch, p.line, p.col, p);
    }
  }

  // --- Lines ---

  lemma CaretAtEnds(t: Text, line: nat)
    requires line <= Breaks(t)
    ensures LineColToChar(t, line, LineLen(t, line)) == LineStart(t, line) + LineLen(t, line)
    ensures LineColToChar(t, line, 0) == LineStart(t, line)
  {
    hide LineStart, LineLen, Breaks;
  }

  lemma OpenedText(c: Core, v: Caret, col: nat)
    ensures var i := LineColToChar(c.doc.text, v.line, col);
            var ps := (if c.doc.pending.Some? then [] else [PBegin(v.line, v.col)]) + [PInsert(v.line, col, ['\n'])];
            DoAll(c, ps).doc.text == Swap(c.doc.text, i, i, ['\n'])
  {
    hide Do, DoAll, LineColToChar;
    var p, q := PBegin(v.line, v.col), PInsert(v.line, col, ['\n']);
    BeginEffect(c, v);
    InsertEffect(c, v.line, col, ['\n']);
    InsertEffect(Do(c, p), v.line, col, ['\n']);
    if c.doc.pending.Some? {
      assert [] + [q] == [q];
      OneDone(c, q);
    } else {
      assert [p] + [q] == [p, q];
      TwoDone(c, p, q);
    }
  }

  /** A line is opened at the visible end of the caret line, with the caret on
      it, or above the caret line, with the caret at its start. */
  lemma OpenLineEffect(c: Core, v: Caret)
    requires v.line <= Breaks(c.doc.text)
    ensures var t, s := c.doc.text, LineStart(c.doc.text, v.line);
            var e := s + LineLen(t, v.line);
            var below, above := After(c, v, OpenBelow), After(c, v, OpenAbove);
            && e <= |t|
            && (if CanInsertCharAt(c, v.line, LineLen(t, v.line), '\n') then
                  below.0.doc.text == Swap(t, e, e, ['\n']) && At(below.0.doc.text, below.1, e + 1)
                else below == (c, v))
            && (if CanInsertCharAt(c, v.line, 0, '\n') then
                  above.0.doc.text == Swap(t, s, s, ['\n']) && At(above.0.doc.text, above.1, s)
                else above == (c, v))
  {
    hide CanInsertCharAt, DoAll, Do, LineColToChar, LineLen, LineStart, Breaks, TailLen;
    var t, s, len := c.doc.text, LineStart(c.doc.text, v.line), LineLen(c.doc.text, v.line);
    NothingTyped(c);
    LineLenBounds(t, v.line);
    CaretAtEnds(t, v.line);
    OpenedText(c, v, len);
    OpenedText(c, v, 0);
    CaretPosition(t, v.line, len);
    CaretPosition(t, v.line, 0);
    OneMore(t[..s + len], '\n');
    assert Swap(t, s + len, s + len, ['\n'])[..s + len + 1] == t[..s + len] + ['\n'];
    assert Swap(t, s, s, ['\n'])[..s] == t[..s];
  }

  /** At the start of a line the line lists just follow each other. */
  lemma JoinAtStart(p: Text, q: Text)
    requires TailLen(p) == 0
    ensures Split(p + q) == Split(p)[..Breaks(p)] + Split(q)
  {
    hide Breaks, TailLen, Split;
    SplitConcat(p, q);
    var a, b := Split(p), Split(q);
    assert a[|a| - 1] == [] && [] + b[0] == b[0] && b == [b[0]] + b[1..];
  }

  lemma WholeLine(p: Text, mid: Text)
    requires TailLen(p) == 0 && '\n' !in mid
    ensures var a := p + mid + ['\n'];
            TailLen(a) == 0 && Breaks(a) == Breaks(p) + 1 && Split(a) == Split(p)[..Breaks(p)] + [mid, []]
  {
    hide Breaks, TailLen, Split;
    NoBreaks(mid);
    SplitPush(mid, '\n');
    assert Split(mid + ['\n']) == [mid, []] by { assert mid + [] == mid; }
    JoinAtStart(p, mid + ['\n']);
    assert p + mid + ['\n'] == p + (mid + ['\n']);
    BreaksConcat(p, mid);
    OneMore(p + mid, '\n');
  }

  /** The lines of a text with one whole line, its break included, taken out. */
  lemma CutLine(p: Text, mid: Text, q: Text)
    requires TailLen(p) == 0 && '\n' !in mid
    ensures var ls := Split(p + mid + ['\n'] + q);
            && |ls| > Breaks(p) + 1 && ls[Breaks(p)] == mid
            && Split(p + q) == ls[..Breaks(p)] + ls[Breaks(p) + 1..]
  {
    hide Breaks, TailLen, Split;
    var k, a := Breaks(p), p + mid + ['\n'];
    JoinAtStart(p, q);
    WholeLine(p, mid);
    JoinAtStart(a, q);
    assert Split(a)[..k + 1] == Split(p)[..k] + [mid];
  }

  /** What is cut when a line is deleted: the line with its break; of a last
      line with text only the text; of an empty last line the break before it. */
  function LineCut(t: Text, line: nat): (nat, nat)
    requires line <= Breaks(t)
  {
    var s := LineStart(t, line);
    if line < Breaks(t) then (s, LineStart(t, line + 1))
    else if s < |t| || s == 0 then (s, |t|)
    else (s - 1, s)
  }

  /** `ms` is `ls` without its line, or with a blank in place of a last line with text. */
  predicate LinesLeft(ls: seq<Text>, line: nat, ms: seq<Text>)
    requires line < |ls|
  {
    ms == if line < |ls| - 1 || (ls[line] == [] && line > 0) then ls[..line] + ls[line + 1..] else ls[..line] + [[]]
  }

  /** Cutting `[s, e)` takes the line out. */
  ghost predicate IsCut(t: Text, line: nat, s: nat, e: nat)
    requires line <= Breaks(t)
  {
    && s <= e <= |t|
    && var u := Swap(t, s, e, []);
       LinesLeft(Split(t), line, Split(u)) && Min(LineOf(u, s), Breaks(u)) == Min(line, Breaks(u))
  }

  lemma CutInside(t: Text, line: nat)
    requires line < Breaks(t)
    ensures IsCut(t, line, LineStart(t, line), LineStart(t, line + 1))
  {
    hide Breaks, TailLen, LineStart, Split;
    LineExtent(t, line);
    PositionOnLine(t, line, 0);
    var s, e := LineStart(t, line), LineStart(t, line + 1);
    var p, mid, q := t[..s], t[s..e - 1], t[e..];
    assert t == p + mid + ['\n'] + q;
    CutLine(p, mid, q);
    assert Swap(t, s, e, []) == p + q;
    assert (p + q)[..s] == p;
  }

  lemma LastSplit(p: Text, mid: Text)
    requires TailLen(p) == 0 && '\n' !in mid
    ensures Breaks(p + mid) == Breaks(p) && Split(p + mid) == Split(p)[..Breaks(p)] + [mid]
    ensures Split(p) == Split(p)[..Breaks(p)] + [[]]
  {
    hide Breaks, TailLen, Split;
    NoBreaks(mid);
    BreaksConcat(p, mid);
    JoinAtStart(p, mid);
    assert Split(p)[Breaks(p)] == [];
  }

  lemma CutLast(t: Text)
    requires LineStart(t, Breaks(t)) < |t| || Breaks(t) == 0
    ensures IsCut(t, Breaks(t), LineStart(t, Breaks(t)), |t|)
  {
    hide Breaks, TailLen, LineStart, Split, LinesLeft;
    var line, s := Breaks(t), LineStart(t, Breaks(t));
    LineExtent(t, line);
    PositionOnLine(t, line, 0);
    var p, mid := t[..s], t[s..];
    assert t == p + mid && p[..s] == p;
    LastSplit(p, mid);
    LastLeft(p, mid);
    assert Swap(t, s, |t|, []) == p;
  }

  lemma LastLeft(p: Text, mid: Text)
    requires TailLen(p) == 0 && '\n' !in mid && (mid != [] || Breaks(p) == 0)
    ensures Breaks(p + mid) == Breaks(p) && LinesLeft(Split(p + mid), Breaks(p), Split(p))
  {
    hide Breaks, TailLen, Split;
    LastSplit(p, mid);
    var front := Split(p)[..Breaks(p)];
    assert (front + [mid])[..Breaks(p)] == front;
  }

  lemma CutBlank(t: Text)
    requires t != [] && LineStart(t, Breaks(t)) == |t|
    ensures Breaks(t) > 0 && IsCut(t, Breaks(t), |t| - 1, |t|)
  {
    hide LineStart, Breaks, TailLen, Split, LinesLeft;
    BlankCut(t);
    var u := t[..|t| - 1];
    assert Swap(t, |t| - 1, |t|, []) == u && u[..|t| - 1] == u;
    BlankLeft(Split(u));
  }

  lemma BlankLeft(ms: seq<Text>)
    requires ms != []
    ensures LinesLeft(ms + [[]], |ms|, ms)
  {
    assert (ms + [[]])[..|ms|] == ms && (ms + [[]])[|ms| + 1..] == [];
  }

  lemma CutLines(t: Text, line: nat)
    requires line <= Breaks(t)
    ensures var (s, e) := LineCut(t, line);
            IsCut(t, line, s, e)
  {
    hide Breaks, TailLen, LineStart, IsCut;
    LineExtent(t, line);
    if line < Breaks(t) {
      CutInside(t, line);
    } else if LineStart(t, line) < |t| || LineStart(t, line) == 0 {
      if t == [] || Breaks(t) == 0 || LineStart(t, line) < |t| {
        NoBreaks(t);
        CutLast(t);
      } else {
        BlankCut(t);
      }
    } else {
      CutBlank(t);
    }
  }

  lemma BlankCut(t: Text)
    requires t != [] && LineStart(t, Breaks(t)) == |t|
    ensures t[|t| - 1] == '\n'
    ensures var u := t[..|t| - 1];
            Split(t) == Split(u) + [[]] && Breaks(t) == Breaks(u) + 1
  {
    LastLineStart(t);
  }

  /** The caret line goes, and the caret is at the start of the line that took
      its place, or of the last one. A last line with text leaves a blank. */
  lemma DeleteLineEffect(c: Core, v: Caret)
    requires v.line <= Breaks(c.doc.text)
    ensures var t, line, (s, e) := c.doc.text, v.line, LineCut(c.doc.text, v.line);
            var (d, w) := After(c, v, DeleteLine);
            var u := d.doc.text;
            && s <= e <= |t|
            && if s < e && CanDeleteRange(c, s, e) then
                 var ls := Split(t);
                 && u == Swap(t, s, e, [])
                 && Split(u) == (if line < Breaks(t) || (ls[line] == [] && line > 0)
                                 then ls[..line] + ls[line + 1..] else ls[..line] + [[]])
                 && w == Caret(Min(line, Breaks(u)), 0)
               else d == c && w == v
  {
    hide CanDeleteRange, DoAll, Do, Grouped, LineStart, Breaks, TailLen, DeleteRange;
    var t := c.doc.text;
    var (s, e) := LineCut(t, v.line);
    NothingTyped(c);
    CutLines(t, v.line);
    LineRangeInText(t, v.line);
    CutIsRange(t, v.line);
    if s < e && CanDeleteRange(c, s, e) {
      DeleteEffect(c, s, e);
      var u := DeleteRange(c.doc, s, e).text;
      var after := Caret(Min(CaretAt(u, s).line, Breaks(u)), 0);
      GroupedDeleteText(c, v, s, e, after);
      GroupedCaret(c, v, [PDelete(s, e)], after);
    }
  }

  lemma CutIsRange(t: Text, line: nat)
    requires line <= Breaks(t)
    ensures var cut := LineCut(t, line);
            Documents.LineDeleteRange(t, line) == if cut.0 < cut.1 then Some(cut) else None
  {
    hide LineStart, Breaks;
    LineExtent(t, line);
  }

  /** Deleting a last line that has text but no break of its own leaves a
      blank line, where an empty last line disappears. */
  lemma ALastLineLeavesABlank()
    ensures LineCut("a\nb", 1) == (2, 3) && Split(Swap("a\nb", 2, 3, [])) == ["a", []]
    ensures LineCut("a\n", 1) == (1, 2) && Split(Swap("a\n", 1, 2, [])) == ["a"]
  {
    var t, u := "a\nb", "a\n";
    assert t[..2] == u && u[..1] == "a" && "a"[..0] == [];
    assert Swap(t, 2, 3, []) == u && Swap(u, 1, 2, []) == "a";
    assert Breaks("a") == 0 && Breaks(u) == 1 && Breaks(t) == 1;
    assert TailLen(u) == 0 && TailLen(t) == 1;
    assert Split([]) == [[]] && Split("a") == [[] + ['a']] && [] + ['a'] == "a";
  }

  /** Opening or closing a group and moving the caret leave the text alone. */
  lemma QuietEffect(c: Core, v: Caret, cmd: Command)
    requires cmd.BeginInsert? || cmd.EndInsert? || cmd.MoveTo?
    ensures var (d, w) := After(c, v, cmd);
            d.doc.text == c.doc.text && w == if cmd.MoveTo? then cmd.to else v
  {
    hide Do;
    NothingTyped(c);
    OneDone(c, PBegin(v.line, v.col));
    OneDone(c, PEnd(v.line, v.col));
    BeginEffect(c, v);
    EndText(c, v.line, v.col);
  }
}
