// Atomic blocks: the insert guard lets line breaks in around a block and not
// inside it.  When that keeps every block whole, and the one case it does not.
module Blocks {
  import opened Lines
  import opened Options
  import opened Splices
  import opened DocModel
  import opened Ranges
  import opened CoreModel
  import opened FaceRuns
  import opened View
  import opened ViewRuns
  import opened TypedRuns
  import opened FrozenText
  import Documents
  import Anchors

  /** The blocks are sorted and disjoint, and every line of theirs is frozen. */
  ghost predicate BlocksFrozen(c: Core) {
    Sorted(c.atomic) && forall l: nat :: Covers(c.atomic, l) ==> Covers(c.frozen, l)
  }

  /** Some block has lines both above `line` and from `line` on. */
  predicate Straddled(rs: seq<Range>, line: nat) {
    exists i :: 0 <= i < |rs| && rs[i].s < line < rs[i].e
  }

  // --- Shifts ---

  lemma BlocksStaySorted(rs: seq<Range>, line: nat, n: nat)
    requires Sorted(rs)
    ensures Sorted(MapAtomicInsert(rs, line, n))
  {
  }

  lemma {:induction false} WholeBlocksMove(rs: seq<Range>, line: nat, n: nat)
    requires Sorted(rs) && !Straddled(rs, line)
    ensures MapAtomicInsert(rs, line, n) == ShiftInsert(rs, line, 0, n)
  {
    if rs != [] {
      var front, r := rs[..|rs| - 1], rs[|rs| - 1];
      WholeBlocksMove(front, line, n);
      assert !(rs[|rs| - 1].s < line < rs[|rs| - 1].e);
      assert ShiftOneInsert(r, line, 0, n) == [ShiftAtomicInsert(r, line, n)];
      assert MapAtomicInsert(rs, line, n) == MapAtomicInsert(front, line, n) + [ShiftAtomicInsert(r, line, n)];
    }
  }

  /** Inserted lines keep the blocks among the frozen lines exactly if they
      come between blocks. */
  lemma ShiftKeepsBlocks(c: Core, line: nat, col: nat, n: nat)
    requires BlocksFrozen(c) && Sorted(c.frozen) && n > 0 && (col == 0 || !Covers(c.frozen, line))
    ensures BlocksFrozen(ShiftFrozenAt(c, line, col, n)) <==> !Straddled(c.atomic, line)
  {
    hide Covers, ShiftInsert, Sorted, MapAtomicInsert;
    var d := ShiftFrozenAt(c, line, col, n);
    BlocksStaySorted(c.atomic, line, n);
    if Straddled(c.atomic, line) {
      var i :| 0 <= i < |c.atomic| && c.atomic[i].s < line < c.atomic[i].e;
      assert Holds(d.atomic[i], line) && |d.atomic| == |c.atomic| by { Stretched(c.atomic, line, n, i); }
      CoversIndex(d.atomic, i, line);
      ShiftInsertCovers(c.frozen, line, col, n, line);
    } else {
      WholeBlocksMove(c.atomic, line, n);
      forall l: nat | Covers(d.atomic, l)
        ensures Covers(d.frozen, l)
      {
        ShiftInsertCovers(c.atomic, line, 0, n, l);
        ShiftInsertCovers(c.frozen, line, col, n, l);
      }
    }
  }

  lemma Stretched(rs: seq<Range>, line: nat, n: nat, i: nat)
    requires i < |rs| && rs[i].s < line < rs[i].e
    ensures var out := MapAtomicInsert(rs, line, n);
            |out| == |rs| && Holds(out[i], line)
  {
  }

  /** Closed lines keep the blocks among the frozen lines if none of them was frozen. */
  lemma CloseKeepsBlocks(c: Core, line: nat, col: nat, n: nat)
    requires BlocksFrozen(c) && Sorted(c.frozen)
    requires forall l: nat :: line <= l <= line + n ==> !Covers(c.frozen, l)
    ensures BlocksFrozen(ShiftFrozenForDeleteAt(c, line, col, n))
  {
    hide Covers, Normalize, MapDelete, Sorted;
    var d := ShiftFrozenForDeleteAt(c, line, col, n);
    if n > 0 {
      assert forall l: nat :: line <= l <= line + n ==> !Covers(c.atomic, l);
      WholeRanges(c.atomic, line, n);
      WholeRanges(c.frozen, line, n);
      NormalizeKeepsSorted(MapDelete(c.frozen, line, n));
      forall l: nat | Covers(d.atomic, l)
        ensures Covers(d.frozen, l)
      {
        MapDeleteCovers(c.atomic, line, n, l);
        MapDeleteCovers(c.frozen, line, n, l);
      }
    }
  }

  // --- Single actions ---

  /** The line is empty and the first of a longer block: a break put at its
      start counts as put at its end, inside the block. */
  predicate OpensBlock(c: Core, line: nat) {
    && LineLen(c.doc.text, line) == 0
    && BlockAt(c.atomic, line).Found?
    && BlockAt(c.atomic, line).r.s == line && line + 1 < BlockAt(c.atomic, line).r.e
  }

  lemma BlockHolds(rs: seq<Range>, line: nat)
    requires Sorted(rs)
    ensures BlockAt(rs, line).Found? <==> Covers(rs, line)
    ensures BlockAt(rs, line).Found? ==> BlockAt(rs, line).r in rs && Holds(BlockAt(rs, line).r, line)
    ensures forall i :: 0 <= i < |rs| && Holds(rs[i], line) ==> BlockAt(rs, line) == Found(rs[i])
  {
    hide Covers, Sorted, BlockAt;
    forall i | 0 <= i < |rs| && Holds(rs[i], line)
      ensures BlockAt(rs, line) == Found(rs[i])
    {
      BlockAtIsTheHolder(rs, i, line);
    }
    if Covers(rs, line) {
      var i := HolderOf(rs, line);
    } else {
      NoBlockAt(rs, line);
    }
  }

  /** Where a permitted break comes to stand inside a block. */
  lemma BreakStraddles(c: Core, line: nat, col: nat)
    requires CanInsertCharAt(c, line, col, '\n') && BlocksFrozen(c)
    ensures var q := CaretInsertPoint(c.doc.text, line, col);
            && (q.1 == 0 || !Covers(c.frozen, q.0))
            && (Straddled(c.atomic, q.0) <==> OpensBlock(c, line))
  {
    hide Covers, Sorted, BlockAt, LineLen;
    var q, b := CaretInsertPoint(c.doc.text, line, col), BlockAt(c.atomic, line);
    BlockHolds(c.atomic, line);
    if Straddled(c.atomic, q.0) {
      var i :| 0 <= i < |c.atomic| && c.atomic[i].s < q.0 < c.atomic[i].e;
      assert Holds(c.atomic[i], line);
    }
    if OpensBlock(c, line) {
      var i :| 0 <= i < |c.atomic| && c.atomic[i] == b.r;
      assert c.atomic[i].s < q.0 < c.atomic[i].e;
    }
  }

  /** What the insert guard lets in: anything on an editable line past the
      lock; on a frozen one a line break at its start or its visible end, if no
      block has lines on both sides of it there. */
  lemma GuardIsExact(c: Core, line: nat, col: nat, ch: char)
    requires Sorted(c.atomic)
    ensures CanInsertCharAt(c, line, col, ch) <==>
      && c.lock <= line
      && (|| !IsFrozen(c, line)
          || (ch == '\n' && (|| (col == 0 && !Straddled(c.atomic, line))
                             || (col >= LineLen(c.doc.text, line) && !Straddled(c.atomic, line + 1)))))
  {
    hide Covers, Sorted, BlockAt, LineLen;
    BlockHolds(c.atomic, line);
    forall p | p == line || p == line + 1
      ensures Straddled(c.atomic, p) ==> BlockAt(c.atomic, line).Found?
                                         && BlockAt(c.atomic, line).r.s < p < BlockAt(c.atomic, line).r.e
    {
      if Straddled(c.atomic, p) {
        var i :| 0 <= i < |c.atomic| && c.atomic[i].s < p < c.atomic[i].e;
        assert Holds(c.atomic[i], line);
      }
    }
    if BlockAt(c.atomic, line).Found? {
      var i :| 0 <= i < |c.atomic| && c.atomic[i] == BlockAt(c.atomic, line).r;
      assert c.atomic[i].s < line < c.atomic[i].e ==> Straddled(c.atomic, line);
      assert c.atomic[i].s < line + 1 < c.atomic[i].e ==> Straddled(c.atomic, line + 1);
    }
  }

  /** A permitted character keeps the blocks among the frozen lines, exactly
      unless it opens a block. */
  lemma InsertKeepsBlocks(c: Core, line: nat, col: nat, ch: char)
    requires CanInsertCharAt(c, line, col, ch) && BlocksFrozen(c) && Sorted(c.frozen)
    ensures BlocksFrozen(Do(c, PInsert(line, col, [ch]))) <==> !(ch == '\n' && OpensBlock(c, line))
  {
    hide Covers, Sorted, BlockAt, LineLen, ShiftFrozenAt, InsertAt, LineColToChar, CanInsertCharAt, Straddled;
    NoBreaks([ch]);
    if ch == '\n' {
      var q := CaretInsertPoint(c.doc.text, line, col);
      BreakStraddles(c, line, col);
      OneBreak();
      ShiftKeepsBlocks(c, q.0, q.1, 1);
    }
  }

  /** A run typed on an editable line keeps them too. */
  lemma TypedKeepsBlocks(c: Core, line: nat, col: nat, x: Text)
    requires !IsFrozen(c, line) && BlocksFrozen(c) && Sorted(c.frozen)
    ensures BlocksFrozen(Do(c, PTyped(line, col, x)))
  {
    hide Covers, Sorted, LineLen, ShiftFrozenAt, InsertAt, LineColToChar, Breaks, LeadLen;
    if Breaks(x) > 0 {
      var q := if col >= LineLen(c.doc.text, line) then line + 1 else line;
      if Straddled(c.atomic, q) {
        var i :| 0 <= i < |c.atomic| && c.atomic[i].s < q < c.atomic[i].e;
        CoversIndex(c.atomic, i, line);
      }
      ShiftKeepsBlocks(c, q, if q == line then col + LeadLen(x) else 0, Breaks(x));
    }
  }

  /** And so does every permitted delete. */
  lemma DeleteKeepsBlocks(c: Core, s: nat, e: nat)
    requires PrimSound(c, PDelete(s, e)) && BlocksFrozen(c) && Sorted(c.frozen)
    ensures BlocksFrozen(Do(c, PDelete(s, e)))
  {
    hide Covers, Sorted, Breaks, LineOf, ColOf, DeleteRange, ShiftFrozenForDeleteAt, Meets;
    var t := c.doc.text;
    var line, n := LineOf(t, s), Breaks(t[s..e]);
    TouchedLines(t, s, e);
    forall l: nat | line <= l <= line + n
      ensures !Covers(c.frozen, l)
    {
      NotMet(c.frozen, line, line + n, l);
    }
    CloseKeepsBlocks(c, line, ColOf(t, s), n);
  }

  lemma GroupingKeepsBlocks(c: Core, p: Prim)
    requires p.PBegin? || p.PEnd?
    ensures BlocksFrozen(Do(c, p)) <==> BlocksFrozen(c)
    ensures Do(c, p).atomic == c.atomic && Do(c, p).frozen == c.frozen
  {
    hide Covers, Sorted;
  }

  /** The guard's one gap: a break let in at the start of a block that begins
      with an empty line counts as put below that line, inside the block. */
  lemma ABlockCanBeOpened()
    ensures var c := Core(New("\nb"), [Range(0, 2)], 0, [Range(0, 2)], Anchors.EMPTY, map[], None, false);
            && BlocksFrozen(c) && CanInsertCharAt(c, 0, 0, '\n')
            && var d := Do(c, PInsert(0, 0, ['\n']));
               d.atomic == [Range(0, 3)] && d.frozen == [Range(0, 1), Range(2, 3)] && !BlocksFrozen(d)
  {
    var t := "\nb";
    var c := Core(New(t), [Range(0, 2)], 0, [Range(0, 2)], Anchors.EMPTY, map[], None, false);
    hide InsertAt, Covers;
    assert t[..0] == [] && t[..1] == "\n" && "\n"[..0] == [];
    assert LineLen(t, 0) == 0;
    assert [Range(0, 2)][..0] == [];
    CoversIndex(c.frozen, 0, 0);
    InsertKeepsBlocks(c, 0, 0, '\n');
    OneBreak();
  }

  // --- A run of characters ---

  /** Some block line down to `line` is not frozen. */
  ghost predicate Broken(c: Core, line: nat) {
    exists l: nat :: l <= line && Covers(c.atomic, l) && !Covers(c.frozen, l)
  }

  lemma LineStaysCovered(rs: seq<Range>, at: nat, n: nat, l: nat)
    requires Covers(rs, l) && l < at
    ensures Covers(MapAtomicInsert(rs, at, n), l)
  {
    hide Covers;
    var i := HolderOf(rs, l);
    assert Holds(MapAtomicInsert(rs, at, n)[i], l);
    CoversIndex(MapAtomicInsert(rs, at, n), i, l);
  }

  lemma FirstStaysBroken(c: Core, v: Caret, ch: char)
    requires AtEnd(c, v) && Sorted(c.frozen) && Broken(c, v.line)
    ensures Broken(First(c, v, ch), NextCaret(v, ch).line)
  {
    hide Covers, Sorted, LineLen, ShiftInsert, MapAtomicInsert, InsertAt, LineColToChar;
    var l: nat :| l <= v.line && Covers(c.atomic, l) && !Covers(c.frozen, l);
    NoBreaks([ch]);
    if ch == '\n' {
      OneBreak();
      LineStaysCovered(c.atomic, v.line + 1, 1, l);
      ShiftInsertCovers(c.frozen, v.line + 1, 0, 1, l);
    }
  }

  /** What is typed behind a broken block does not mend it. */
  lemma {:induction false} RunStaysBroken(c: Core, v: Caret, x: Text)
    requires AtEnd(c, v) && Sorted(c.frozen) && Broken(c, v.line)
    ensures !BlocksFrozen(DoAll(c, TypeRun(c, v, x).ps))
    decreases |x|
  {
    hide AtEnd, First, TypeOne, Sorted, DoAll;
    if x == [] {
      NothingTyped(c);
    } else {
      var c1, v1 := First(c, v, x[0]), NextCaret(v, x[0]);
      FirstIsAtEnd(c, v, x[0]);
      FirstStaysBroken(c, v, x[0]);
      RunStaysBroken(c1, v1, x[1..]);
      DoAllConcat(c, TypeOne(c, v, x[0]).ps, TypeRun(c1, v1, x[1..]).ps);
    }
  }

  /** A break that opens a block leaves the caret on the opened line. */
  lemma OpenedIsBroken(c: Core, v: Caret)
    requires CanInsertCharAt(c, v.line, v.col, '\n') && OpensBlock(c, v.line)
    requires BlocksFrozen(c) && Sorted(c.frozen) && v.line <= Breaks(c.doc.text)
    ensures var d, w := First(c, v, '\n'), NextCaret(v, '\n');
            AtEnd(d, w) && Sorted(d.frozen) && Broken(d, w.line)
  {
    hide Covers, Sorted, LineLen, ShiftInsert, MapAtomicInsert, InsertAt, LineColToChar, BlockAt, Breaks;
    var d, line := First(c, v, '\n'), v.line;
    OneBreak();
    InsertText(c.doc, CaretIndex(c.doc.text, v), ['\n']);
    EndStaysEnd(c.doc.text, v, '\n');
    ShiftInsertCovers(c.frozen, line + 1, 0, 1, line + 1);
    ShiftInsertSorted(c.frozen, line + 1, 0, 1);
    BlockHolds(c.atomic, line);
    var i :| 0 <= i < |c.atomic| && c.atomic[i] == BlockAt(c.atomic, line).r;
    Stretched(c.atomic, line + 1, 1, i);
    CoversIndex(d.atomic, i, line + 1);
    assert Covers(d.atomic, line + 1) && !Covers(d.frozen, line + 1);
  }

  lemma FrozenIfBlock(c: Core, line: nat)
    requires BlocksFrozen(c) && OpensBlock(c, line)
    ensures IsFrozen(c, line)
  {
    hide Covers, Sorted, BlockAt, LineLen;
    BlockHolds(c.atomic, line);
  }

  /** Behind any other permitted break nothing can be opened. */
  lemma NextOpensNothing(c: Core, v: Caret)
    requires CanInsertCharAt(c, v.line, v.col, '\n') && !OpensBlock(c, v.line)
    requires BlocksFrozen(c) && Sorted(c.frozen) && v.line <= Breaks(c.doc.text)
    ensures var d := First(c, v, '\n');
            BlocksFrozen(d) && Sorted(d.frozen) && !OpensBlock(d, v.line + 1)
  {
    hide Covers, Sorted, LineLen, ShiftInsert, MapAtomicInsert, InsertAt, LineColToChar, BlockAt, Breaks;
    var d, t, line, q := First(c, v, '\n'), c.doc.text, v.line, CaretInsertPoint(c.doc.text, v.line, v.col);
    InsertKeepsBlocks(c, line, v.col, '\n');
    OneBreak();
    ShiftInsertSorted(c.frozen, q.0, q.1, 1);
    if !IsFrozen(c, line) || v.col >= LineLen(t, line) {
      ShiftInsertCovers(c.frozen, q.0, q.1, 1, line + 1);
      if OpensBlock(d, line + 1) {
        FrozenIfBlock(d, line + 1);
      }
    } else {
      InsertText(c.doc, CaretIndex(t, v), ['\n']);
      AfterOne(t, v, '\n');
    }
  }

  lemma OpeningIsLetIn(c: Core, line: nat)
    requires BlocksFrozen(c) && OpensBlock(c, line) && c.lock <= line
    ensures CanInsertCharAt(c, line, 0, '\n')
  {
    hide Covers, Sorted, BlockAt, LineLen;
  }

  lemma LetInAtStart(c: Core, line: nat, col: nat)
    requires BlocksFrozen(c) && OpensBlock(c, line) && CanInsertCharAt(c, line, col, '\n')
    ensures col == 0 && c.lock <= line
  {
    hide Covers, Sorted, LineLen, BlockAt;
    FrozenIfBlock(c, line);
  }

  /** The caret is where a break would open a block. */
  predicate AtOpening(c: Core, v: Caret) {
    v.col == 0 && c.lock <= v.line && OpensBlock(c, v.line)
  }

  /** A typed run keeps the blocks among the frozen lines, exactly unless it
      holds a break and starts where one opens a block. */
  lemma {:induction false} TypeRunKeepsBlocks(c: Core, v: Caret, x: Text)
    requires c.doc.pending.Some? && v.line <= Breaks(c.doc.text) && Sorted(c.frozen) && BlocksFrozen(c)
    ensures BlocksFrozen(DoAll(c, TypeRun(c, v, x).ps)) <==> !('\n' in x && AtOpening(c, v))
    decreases |x|
  {
    hide DoAll, Sorted, LineLen, CanInsertCharAt, OpensBlock, BlocksFrozen, Breaks, TypeOne, Do;
    if x == [] {
      NothingTyped(c);
    } else {
      var one := TypeOne(c, v, x[0]);
      var c1, rest := DoAll(c, one.ps), TypeRun(DoAll(c, one.ps), one.caret, x[1..]);
      TypeOneSound(c, v, x[0]);
      DoAllConcat(c, one.ps, rest.ps);
      if !CanInsertCharAt(c, v.line, v.col, x[0]) {
        TypedNothing(c, v, x[0]);
        TypeRunKeepsBlocks(c, v, x[1..]);
        if x[0] == '\n' && AtOpening(c, v) {
          OpeningIsLetIn(c, v.line);
        }
      } else {
        TypedOne(c, v, x[0]);
        if x[0] != '\n' {
          PlainKeepsBlocks(c, v, x[0]);
          TypeRunKeepsBlocks(c1, one.caret, x[1..]);
        } else if OpensBlock(c, v.line) {
          LetInAtStart(c, v.line, v.col);
          OpenedIsBroken(c, v);
          RunStaysBroken(c1, one.caret, x[1..]);
        } else {
          NextOpensNothing(c, v);
          TypeRunKeepsBlocks(c1, one.caret, x[1..]);
        }
      }
    }
  }

  lemma TypedNothing(c: Core, v: Caret, ch: char)
    requires !CanInsertCharAt(c, v.line, v.col, ch)
    ensures DoAll(c, TypeOne(c, v, ch).ps) == c && TypeOne(c, v, ch).caret == v
  {
    hide CanInsertCharAt;
  }

  lemma TypedOne(c: Core, v: Caret, ch: char)
    requires CanInsertCharAt(c, v.line, v.col, ch)
    ensures DoAll(c, TypeOne(c, v, ch).ps) == First(c, v, ch) && TypeOne(c, v, ch).caret == NextCaret(v, ch)
  {
    hide CanInsertCharAt, Do;
    var p := PInsert(v.line, v.col, [ch]);
    assert [p][1..] == [];
    assert DoAll(Do(c, p), []) == Do(c, p);
  }

  /** A character that is no break moves nothing; its line is editable. */
  lemma PlainKeepsBlocks(c: Core, v: Caret, ch: char)
    requires CanInsertCharAt(c, v.line, v.col, ch) && ch != '\n' && BlocksFrozen(c) && Sorted(c.frozen)
    ensures var d := First(c, v, ch);
            BlocksFrozen(d) && Sorted(d.frozen) && !OpensBlock(c, v.line) && !OpensBlock(d, v.line)
  {
    hide Covers, Sorted, LineLen, InsertAt, LineColToChar, BlockAt;
    NoBreaks([ch]);
    var d := First(c, v, ch);
    assert d.atomic == c.atomic && d.frozen == c.frozen;
    BlockHolds(c.atomic, v.line);
  }

  // --- Every command ---

  /** The command would put a line break where one opens a block. */
  predicate OpensABlock(c: Core, v: Caret, cmd: Command) {
    match cmd
    case TypeChar(ch) => ch == '\n' && AtOpening(c, v)
    case InsertStr(x) => '\n' in x && AtOpening(c, v)
    case PasteStr(x) => '\n' in x && AtOpening(c, v)
    case OpenBelow => AtOpening(c, Caret(v.line, 0))
    case OpenAbove => AtOpening(c, Caret(v.line, 0))
    case _ => false
  }

  lemma TypeOneKeepsBlocks(c: Core, v: Caret, ch: char)
    requires BlocksFrozen(c) && Sorted(c.frozen)
    ensures BlocksFrozen(DoAll(c, TypeOne(c, v, ch).ps)) <==> !(ch == '\n' && AtOpening(c, v))
  {
    hide DoAll, Sorted, CanInsertCharAt, OpensBlock, BlocksFrozen, TypeOne, Do;
    if CanInsertCharAt(c, v.line, v.col, ch) {
      TypedOne(c, v, ch);
      InsertKeepsBlocks(c, v.line, v.col, ch);
      if ch == '\n' && OpensBlock(c, v.line) {
        LetInAtStart(c, v.line, v.col);
      }
    } else {
      TypedNothing(c, v, ch);
      if ch == '\n' && AtOpening(c, v) {
        OpeningIsLetIn(c, v.line);
      }
    }
  }

  lemma InsertRunKeepsBlocks(c: Core, v: Caret, x: Text)
    requires c.doc.pending.Some? && v.line <= Breaks(c.doc.text) && Sorted(c.frozen) && BlocksFrozen(c)
    ensures BlocksFrozen(DoAll(c, InsertRun(c, v, x).ps)) <==> !('\n' in x && AtOpening(c, v))
  {
    hide DoAll, Sorted, OpensBlock, BlocksFrozen, Do, Covers, CaretIndex, Breaks, TypeRun;
    if x == [] {
      NothingTyped(c);
    } else if v.line < c.lock || IsFrozen(c, v.line) {
      TypeRunKeepsBlocks(c, v, x);
    } else {
      var p := PTyped(v.line, v.col, x);
      TypedKeepsBlocks(c, v.line, v.col, x);
      OneDone(c, p);
      if OpensBlock(c, v.line) {
        FrozenIfBlock(c, v.line);
      }
    }
  }

  lemma OneDone(c: Core, p: Prim)
    ensures DoAll(c, [p]) == Do(c, p)
  {
    hide Do;
    assert [p][1..] == [];
    assert DoAll(Do(c, p), []) == Do(c, p);
  }

  lemma GroupedKeepsBlocks(c: Core, v: Caret, body: seq<Prim>, after: Caret)
    ensures BlocksFrozen(DoAll(c, Grouped(c, v, body, after).ps))
       <==> BlocksFrozen(DoAll(Do(c, PBegin(v.line, v.col)), body))
  {
    hide BlocksFrozen, Do, DoAll;
    var p, q := PBegin(v.line, v.col), PEnd(after.line, after.col);
    if c.doc.pending.Some? {
      BeginIsNothing(c, v);
    } else {
      OneDone(c, p);
      DoAllConcat(c, [p], body);
      DoAllConcat(c, [p] + body, [q]);
      OneDone(DoAll(Do(c, p), body), q);
      GroupingKeepsBlocks(DoAll(Do(c, p), body), q);
    }
  }

  lemma GroupedDeleteKeepsBlocks(c: Core, v: Caret, s: nat, e: nat, after: Caret)
    requires s < e <= |c.doc.text| && CanDeleteRange(c, s, e) && Sorted(c.frozen) && BlocksFrozen(c)
    ensures BlocksFrozen(DoAll(c, Grouped(c, v, [PDelete(s, e)], after).ps))
  {
    hide BlocksFrozen, Do, Grouped, DoAll, Sorted;
    var g := Do(c, PBegin(v.line, v.col));
    BeginEffect(c, v);
    GroupingKeepsBlocks(c, PBegin(v.line, v.col));
    assert CanDeleteRange(g, s, e);
    GuardSaysDeleteSound(g, s, e);
    DeleteKeepsBlocks(g, s, e);
    OneDone(g, PDelete(s, e));
    GroupedKeepsBlocks(c, v, [PDelete(s, e)], after);
  }

  lemma DeleteGuardedKeepsBlocks(c: Core, v: Caret, s: nat, e: nat)
    requires e <= |c.doc.text| && c.doc.pending.Some? && Sorted(c.frozen) && BlocksFrozen(c)
    ensures BlocksFrozen(DoAll(c, DeleteGuarded(c, v, s, e).ps))
  {
    hide BlocksFrozen, DoAll, CanDeleteRange, Sorted, Do;
    NothingTyped(c);
    if s < e && CanDeleteRange(c, s, e) {
      GuardSaysDeleteSound(c, s, e);
      DeleteKeepsBlocks(c, s, e);
      OneDone(c, PDelete(s, e));
    }
  }

  lemma ReplaceKeepsBlocks(c: Core, v: Caret, i: nat, line: nat, col: nat, ch: char)
    requires i < |c.doc.text| && c.doc.text[i] != '\n' && LineOf(c.doc.text, i) == line <= Breaks(c.doc.text)
    requires CanDeleteRange(c, i, i + 1) && Sorted(c.frozen) && BlocksFrozen(c)
    ensures BlocksFrozen(DoAll(c, Grouped(c, v, [PDelete(i, i + 1), PInsert(line, col, [ch])], v).ps))
  {
    hide BlocksFrozen, Do, Grouped, Sorted, DoAll;
    var g, p, q := Do(c, PBegin(v.line, v.col)), PDelete(i, i + 1), PInsert(line, col, [ch]);
    BeginEffect(c, v);
    GroupingKeepsBlocks(c, PBegin(v.line, v.col));
    assert CanDeleteRange(g, i, i + 1);
    GuardSaysDeleteSound(g, i, i + 1);
    DeleteKeepsBlocks(g, i, i + 1);
    CharDeleteEffect(g, i);
    LineUnfrozen(c, i, i + 1);
    var d := Do(g, p);
    assert CanInsertCharAt(d, line, col, ch);
    InsertKeepsBlocks(d, line, col, ch);
    if OpensBlock(d, line) {
      FrozenIfBlock(d, line);
    }
    DoAllConcat(g, [p], [q]);
    assert [p] + [q] == [p, q];
    OneDone(g, p);
    OneDone(d, q);
    GroupedKeepsBlocks(c, v, [p, q], v);
  }

  lemma SameBlocks(c: Core, d: Core, line: nat, col: nat)
    requires d.doc.text == c.doc.text && d.frozen == c.frozen && d.atomic == c.atomic && d.lock == c.lock
    ensures CanInsertCharAt(d, line, col, '\n') <==> CanInsertCharAt(c, line, col, '\n')
    ensures OpensBlock(d, line) <==> OpensBlock(c, line)
    ensures BlocksFrozen(d) <==> BlocksFrozen(c)
  {
    hide LineLen, Covers, BlockAt, Sorted;
  }

  lemma OpenLineKeepsBlocks(c: Core, v: Caret, col: nat)
    requires CanInsertCharAt(c, v.line, col, '\n') && Sorted(c.frozen) && BlocksFrozen(c)
    ensures var ps := (if c.doc.pending.Some? then [] else [PBegin(v.line, v.col)]) + [PInsert(v.line, col, ['\n'])];
            BlocksFrozen(DoAll(c, ps)) <==> !AtOpening(c, Caret(v.line, 0))
  {
    hide BlocksFrozen, Do, DoAll, Sorted, OpensBlock, CanInsertCharAt;
    var p, q := PBegin(v.line, v.col), PInsert(v.line, col, ['\n']);
    var g := Do(c, p);
    BeginEffect(c, v);
    SameBlocks(c, g, v.line, col);
    InsertKeepsBlocks(g, v.line, col, '\n');
    OneDone(g, q);
    OneDone(c, p);
    if OpensBlock(c, v.line) {
      LetInAtStart(c, v.line, col);
    }
    if c.doc.pending.Some? {
      BeginIsNothing(c, v);
      assert [] + [q] == [q];
    } else {
      DoAllConcat(c, [p], [q]);
    }
  }

  lemma DeniedOpensNothing(c: Core, line: nat)
    requires BlocksFrozen(c) && !CanInsertCharAt(c, line, 0, '\n')
    ensures !AtOpening(c, Caret(line, 0))
  {
    hide LineLen, CanInsertCharAt, BlocksFrozen;
    if AtOpening(c, Caret(line, 0)) {
      OpeningIsLetIn(c, line);
    }
  }

  /** A command other than undo and redo keeps the blocks sorted, disjoint and
      among the frozen lines, exactly unless it puts a line break where one
      opens a block. */
  lemma CommandsKeepBlocks(c: Core, v: Caret, cmd: Command)
    requires Fair(c, v, cmd) && !cmd.History? && Sorted(c.frozen) && BlocksFrozen(c)
    ensures BlocksFrozen(DoAll(c, Perform(c, v, cmd).ps)) <==> !OpensABlock(c, v, cmd)
  {
    hide BlocksFrozen, Grouped, Do, DoAll, InsertRun, DeleteGuarded, TypeOne, CanDeleteRange, CanInsertCharAt,
         OpensBlock, LineStart, Breaks, LineLen, DeleteRange, HistoryStep, CaretAt, Sorted;
    var t := c.doc.text;
    NothingTyped(c);
    match cmd
    case BeginInsert => OneDone(c, PBegin(v.line, v.col)); GroupingKeepsBlocks(c, PBegin(v.line, v.col));
    case EndInsert => OneDone(c, PEnd(v.line, v.col)); GroupingKeepsBlocks(c, PEnd(v.line, v.col));
    case TypeChar(ch) => TypeOneKeepsBlocks(c, v, ch);
    case InsertStr(x) => InsertRunKeepsBlocks(c, v, x);
    case PasteStr(x) =>
      if x != [] {
        var g := Do(c, PBegin(v.line, v.col));
        BeginEffect(c, v);
        SameBlocks(c, g, v.line, v.col);
        InsertRunKeepsBlocks(g, v, x);
        GroupedKeepsBlocks(c, v, InsertRun(g, v, x).ps, InsertRun(g, v, x).caret);
      }
    case Backspace =>
      var i := CaretIndex(t, v);
      if i > 0 {
        DeleteGuardedKeepsBlocks(c, v, i - 1, i);
      }
    case DeleteBack(n) =>
      var col := Min(v.col, LineLen(t, v.line));
      var k, i := Min(n, col), LineColToChar(t, v.line, col);
      if k != 0 && i >= k {
        DeleteGuardedKeepsBlocks(c, v, i - k, i);
      }
    case DeleteUnder(insertMode) =>
      var i := CaretIndex(t, v);
      if i < |t| && CanDeleteRange(c, i, i + 1) {
        GroupedDeleteKeepsBlocks(c, v, i, i + 1,
                                 if insertMode then v else OnLastChar(DeleteRange(c.doc, i, i + 1).text, v));
      }
    case ReplaceChar(ch) =>
      var i := CaretIndex(t, v);
      if v.col < LineLen(t, v.line) && CanDeleteRange(c, i, i + 1) {
        VisibleChar(t, v.line, v.col);
        ReplaceKeepsBlocks(c, v, i, v.line, v.col, ch);
      }
    case DeleteLine =>
      LineRangeInText(t, v.line);
      var r := Documents.LineDeleteRange(t, v.line);
      if r.Some? && CanDeleteRange(c, r.value.0, r.value.1) {
        var u := DeleteRange(c.doc, r.value.0, r.value.1).text;
        GroupedDeleteKeepsBlocks(c, v, r.value.0, r.value.1, Caret(Min(CaretAt(u, r.value.0).line, Breaks(u)), 0));
      }
    case OpenBelow =>
      if CanInsertCharAt(c, v.line, LineLen(t, v.line), '\n') {
        OpenLineKeepsBlocks(c, v, LineLen(t, v.line));
      } else {
        DeniedBelow(c, v.line);
      }
    case OpenAbove =>
      if CanInsertCharAt(c, v.line, 0, '\n') {
        OpenLineKeepsBlocks(c, v, 0);
      } else {
        DeniedOpensNothing(c, v.line);
      }
    case DeleteSelection(anchor) =>
      var r := SelectionRange(t, v, anchor);
      if r.0 < r.1 && CanDeleteRange(c, r.0, r.1) {
        GroupedDeleteKeepsBlocks(c, v, r.0, r.1, CaretAt(DeleteRange(c.doc, r.0, r.1).text, r.0));
      }
    case ToggleChar(at, ch) =>
      if at < |t| && t[at] != '\n' && CanDeleteRange(c, at, at + 1) {
        var p := CaretAt(t, at);
        CaretAtLine(t, at);
        ReplaceKeepsBlocks(c, p, at, p.line, p.col, ch);
      }
    case MoveTo(_) =>
  }

  lemma DeniedBelow(c: Core, line: nat)
    requires BlocksFrozen(c) && !CanInsertCharAt(c, line, LineLen(c.doc.text, line), '\n')
    ensures !AtOpening(c, Caret(line, 0))
  {
    hide LineLen, CanInsertCharAt, BlocksFrozen, BlockAt;
    if AtOpening(c, Caret(line, 0)) {
      OpeningIsLetIn(c, line);
    }
  }
}
