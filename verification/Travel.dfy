// Where an edit takes what is pinned to a line, told from the characters: an
// anchor stays with the character that begins its line, and goes when that
// stands at the edge of, or inside, text that takes line breaks away with it.
module Travel {
  import opened Lines
  import opened Options
  import opened Splices
  import opened DocModel
  import opened Ranges
  import opened Anchors
  import opened CoreModel
  import opened View
  import opened Effects
  import opened Chunks

  // --- Lines and the positions they start at ---

  lemma StartIsOnLine(t: Text, k: nat)
    requires k <= Breaks(t)
    ensures LineStart(t, k) <= |t| && LineOf(t, LineStart(t, k)) == k && ColOf(t, LineStart(t, k)) == 0
  {
    hide LineStart, Breaks, TailLen;
    LineExtent(t, k);
    PositionOnLine(t, k, 0);
  }

  lemma LinesInOrder(t: Text, i: nat, j: nat)
    requires i <= j <= |t|
    ensures LineOf(t, i) <= LineOf(t, j)
  {
    hide Breaks;
    assert t[..j] == t[..i] + t[i..j];
    BreaksConcat(t[..i], t[i..j]);
  }

  /** A line starts before a position exactly if it is an earlier line, or the
      position's own line with something before the position on it. */
  lemma StartsBefore(t: Text, k: nat, i: nat)
    requires k <= Breaks(t) && i <= |t|
    ensures LineStart(t, k) < i <==> k < LineOf(t, i) || (k == LineOf(t, i) && ColOf(t, i) > 0)
    ensures LineStart(t, k) <= i <==> k <= LineOf(t, i)
  {
    hide LineStart, Breaks, TailLen;
    StartIsOnLine(t, k);
    PositionOf(t, i);
    var j := LineStart(t, k);
    if j <= i {
      LinesInOrder(t, j, i);
    } else {
      LinesInOrder(t, i, j);
    }
  }

  // --- Inserting ---

  /** Where the character at `j` is once `x` was put in at `i`; at the end of a
      line there is none to push, and an empty line keeps its place. */
  function Pushed(t: Text, i: nat, x: Text, j: nat): (p: nat)
    requires i <= |t|
    ensures p <= j + |x|
  {
    if j < i || (j == i && AtVisibleEnd(t, i)) then j else j + |x|
  }

  lemma LineBehind(t: Text, i: nat, x: Text, j: nat)
    requires i <= j <= |t|
    ensures LineOf(Swap(t, i, i, x), j + |x|) == LineOf(t, j) + Breaks(x)
  {
    hide Breaks;
    var u := Swap(t, i, i, x);
    assert u[..j + |x|] == t[..i] + x + t[i..j] && t[..j] == t[..i] + t[i..j];
    BreaksConcat(t[..i] + x, t[i..j]);
    BreaksConcat(t[..i], x);
    BreaksConcat(t[..i], t[i..j]);
  }

  lemma LineAhead(t: Text, i: nat, e: nat, x: Text, j: nat)
    requires j <= i <= e <= |t|
    ensures LineOf(Swap(t, i, e, x), j) == LineOf(t, j)
  {
    assert Swap(t, i, e, x)[..j] == t[..j];
  }

  /** The shifted line is the one the first character of the line is on now. */
  lemma InsertCarries(t: Text, i: nat, x: Text, k: nat)
    requires i <= |t| && k <= Breaks(t)
    ensures var q := InsertPoint(t, i);
            ShiftLine(k, FirstMoved(q.0, q.1), Breaks(x)) == LineOf(Swap(t, i, i, x), Pushed(t, i, x, LineStart(t, k)))
  {
    hide LineStart, Breaks, TailLen, LineLen, AtVisibleEnd;
    VisibleEnd(t, i);
    StartIsOnLine(t, k);
    StartsBefore(t, k, i);
    var j := LineStart(t, k);
    if j < i {
      LineAhead(t, i, i, x, j);
    } else {
      LineBehind(t, i, x, j);
      LineAhead(t, i, i, x, i);
    }
  }

  /** Whatever is pinned stays with the first character of its line. */
  ghost predicate CarriedIn(c: Core, d: Core, i: nat, x: Text)
    requires i <= |c.doc.text|
  {
    var t, u := c.doc.text, Swap(c.doc.text, i, i, x);
    && d.meta == c.meta && d.anchors.next == c.anchors.next && d.anchors.lines.Keys == c.anchors.lines.Keys
    && (forall a :: a in c.anchors.lines && c.anchors.lines[a] <= Breaks(t) ==>
          d.anchors.lines[a] == LineOf(u, Pushed(t, i, x, LineStart(t, c.anchors.lines[a]))))
    && (c.tail.None? ==> d.tail.None?)
    && (c.tail.Some? && c.tail.value <= Breaks(t) ==>
          d.tail == Some(LineOf(u, Pushed(t, i, x, LineStart(t, c.tail.value)))))
    && d.tailOpen == c.tailOpen
  }

  lemma ShiftCarries(c: Core, d: Core, i: nat, x: Text)
    requires i <= |c.doc.text|
    requires var q := InsertPoint(c.doc.text, i);
             var s := if Breaks(x) == 0 then c else ShiftFrozenAt(c, q.0, q.1, Breaks(x));
             d.anchors == s.anchors && d.meta == s.meta && d.tail == s.tail && d.tailOpen == s.tailOpen
    ensures CarriedIn(c, d, i, x)
  {
    hide LineStart, Breaks, LineOf, Pushed, ShiftInsert, MapAtomicInsert, InsertPoint;
    forall k: nat | k <= Breaks(c.doc.text)
      ensures var q := InsertPoint(c.doc.text, i);
              ShiftLine(k, FirstMoved(q.0, q.1), Breaks(x))
              == LineOf(Swap(c.doc.text, i, i, x), Pushed(c.doc.text, i, x, LineStart(c.doc.text, k)))
    {
      InsertCarries(c.doc.text, i, x, k);
    }
  }

  lemma SamePoint(t: Text, line: nat, col: nat)
    requires line <= Breaks(t)
    ensures CaretInsertPoint(t, line, col) == InsertPoint(t, LineColToChar(t, line, col))
  {
    hide LineStart, Breaks, TailLen, LineLen, AtVisibleEnd;
    CaretPosition(t, line, col);
  }

  lemma PointOfPosition(t: Text, i: nat)
    requires i <= |t|
    ensures CaretInsertPoint(t, LineOf(t, i), ColOf(t, i)) == InsertPoint(t, i)
  {
  }

  /** An insert, the user's or not, carries every anchor, tag and the cached
      tail with the character that begins its line. */
  lemma InsertsCarry(c: Core, line: nat, col: nat, at: nat, x: Text)
    requires line <= Breaks(c.doc.text)
    ensures CarriedIn(c, Do(c, PInsert(line, col, x)), LineColToChar(c.doc.text, line, col), x)
    ensures CarriedIn(c, InsertText(c, at, x), Min(at, |c.doc.text|), x)
  {
    hide LineStart, Breaks, LineLen, LineColToChar, ShiftFrozenAt, CarriedIn, InsertAt, InsertNoUndo, CaretInsertPoint,
         InsertPoint, LineOf, ColOf;
    SamePoint(c.doc.text, line, col);
    ShiftCarries(c, Do(c, PInsert(line, col, x)), LineColToChar(c.doc.text, line, col), x);
    var i := Min(at, |c.doc.text|);
    PointOfPosition(c.doc.text, i);
    ShiftCarries(c, InsertText(c, at, x), i, x);
  }

  // --- Deleting ---

  /** Whether the text `[s, e)` takes away, with its breaks, the line that starts at `j`. */
  predicate Swallows(t: Text, s: nat, e: nat, j: nat)
    requires s <= e <= |t|
  {
    '\n' in t[s..e] && s <= j <= e
  }

  function Pulled(s: nat, e: nat, j: nat): (p: nat)
    requires s <= e
    ensures p + (e - s) <= if j <= e then e else j
  {
    if j <= s then j else if j <= e then s else j - (e - s)
  }

  lemma BreaksBetween(t: Text, s: nat, e: nat)
    requires s <= e <= |t|
    ensures LineOf(t, e) == LineOf(t, s) + Breaks(t[s..e])
    ensures Breaks(t[s..e]) > 0 <==> '\n' in t[s..e]
  {
    hide Breaks;
    assert t[..e] == t[..s] + t[s..e];
    BreaksConcat(t[..s], t[s..e]);
    NoBreaks(t[s..e]);
  }

  lemma LinePulled(t: Text, s: nat, e: nat, j: nat)
    requires s <= e <= j <= |t|
    ensures LineOf(Swap(t, s, e, []), j - (e - s)) == LineOf(t, j) - Breaks(t[s..e])
  {
    hide Breaks;
    var u := Swap(t, s, e, []);
    assert u[..j - (e - s)] == t[..s] + t[e..j];
    assert t[..j] == t[..s] + t[s..e] + t[e..j];
    BreaksConcat(t[..s], t[e..j]);
    BreaksConcat(t[..s] + t[s..e], t[e..j]);
    BreaksConcat(t[..s], t[s..e]);
  }

  /** A line is dropped exactly if it is swallowed; one that is not moves with
      its first character. */
  lemma DeleteCarries(t: Text, s: nat, e: nat, k: nat)
    requires s < e <= |t| && k <= Breaks(t)
    ensures var line, col, n, j := LineOf(t, s), ColOf(t, s), Breaks(t[s..e]), LineStart(t, k);
            && (n > 0 && Consumed(k, line, col, n) <==> Swallows(t, s, e, j))
            && (!Swallows(t, s, e, j) ==>
                  LineOf(Swap(t, s, e, []), Pulled(s, e, j)) == if n > 0 && k > line + n then k - n else k)
  {
    hide LineStart, Breaks, TailLen, LineOf, ColOf;
    StartIsOnLine(t, k);
    StartsBefore(t, k, s);
    StartsBefore(t, k, e);
    BreaksBetween(t, s, e);
    var j := LineStart(t, k);
    if j <= s {
      LineAhead(t, s, e, [], j);
    } else if j > e {
      LinePulled(t, s, e, j);
    } else {
      LineAhead(t, s, e, [], s);
    }
  }

  /** Whatever is pinned to a swallowed line goes; the rest stays with the
      first character of its line. */
  ghost predicate CarriedOut(c: Core, d: Core, s: nat, e: nat)
    requires s <= e <= |c.doc.text|
  {
    var t, u := c.doc.text, Swap(c.doc.text, s, e, []);
    && d.anchors.next == c.anchors.next
    && d.anchors.lines.Keys <= c.anchors.lines.Keys
    && (forall a :: a in d.meta ==> a in c.meta && d.meta[a] == c.meta[a])
    && (forall a :: a in c.anchors.lines && c.anchors.lines[a] <= Breaks(t) ==>
          var j := LineStart(t, c.anchors.lines[a]);
          if Swallows(t, s, e, j) then a !in d.anchors.lines && a !in d.meta
          else
            && a in d.anchors.lines && d.anchors.lines[a] == LineOf(u, Pulled(s, e, j))
            && (a in d.meta <==> a in c.meta))
    && (c.tail.None? ==> d.tail.None?)
    && (c.tail.Some? && c.tail.value <= Breaks(t) ==>
          var j := LineStart(t, c.tail.value);
          if Swallows(t, s, e, j) then d.tail.None? && !d.tailOpen
          else d.tail == Some(LineOf(u, Pulled(s, e, j))) && d.tailOpen == c.tailOpen)
  }

  lemma ShiftDeleteCarries(c: Core, d: Core, s: nat, e: nat)
    requires s < e <= |c.doc.text|
    requires var m := ShiftFrozenForDeleteAt(c, LineOf(c.doc.text, s), ColOf(c.doc.text, s), Breaks(c.doc.text[s..e]));
             d.anchors == m.anchors && d.meta == m.meta && d.tail == m.tail && d.tailOpen == m.tailOpen
    ensures CarriedOut(c, d, s, e)
  {
    hide LineStart, Breaks, LineOf, ColOf, Pulled, ShiftDelete, MapDelete, Swallows, Consumed;
    var t := c.doc.text;
    var line, col, n := LineOf(t, s), ColOf(t, s), Breaks(t[s..e]);
    forall k: nat | k <= Breaks(t)
      ensures n > 0 && Consumed(k, line, col, n) <==> Swallows(t, s, e, LineStart(t, k))
      ensures !Swallows(t, s, e, LineStart(t, k)) ==>
                LineOf(Swap(t, s, e, []), Pulled(s, e, LineStart(t, k))) == if n > 0 && k > line + n then k - n else k
    {
      DeleteCarries(t, s, e, k);
    }
  }

  /** A delete, the user's or not, drops what is pinned to the lines it
      swallows and carries the rest with the character that begins its line. */
  lemma DeletesCarry(c: Core, s: nat, e: nat)
    requires s < e <= |c.doc.text|
    ensures CarriedOut(c, Do(c, PDelete(s, e)), s, e)
    ensures CarriedOut(c, DeleteText(c, s, e), s, e)
  {
    hide CarriedOut, ShiftFrozenForDeleteAt, DeleteRange, DeleteNoUndo, LineOf, ColOf, Breaks;
    ShiftDeleteCarries(c, Do(c, PDelete(s, e)), s, e);
    ShiftDeleteCarries(c, DeleteText(c, s, e), s, e);
  }

  // --- Undo and redo ---

  /** The shifts a history step replays for one splice, one after the other:
      what it takes out, then what it puts in. */
  lemma SpliceShifts(c: Core, sp: Splice, dir: Dir)
    requires sp.start + |TakeOut(sp, dir)| <= |c.doc.text|
    ensures var t, s, e := c.doc.text, sp.start, sp.start + |TakeOut(sp, dir)|;
            var out := ApplyShifts(c, OutOps(t, s, e - s));
            var u := Swap(t, s, e, []);
            && (if s < e then CarriedOut(c, out, s, e) else out == c)
            && u == Without(t, sp, dir)
            && var mid := out.(doc := out.doc.(text := u));
               CarriedIn(mid, ApplyShifts(mid, InOps(u, s, PutIn(sp, dir))), s, PutIn(sp, dir))
  {
    hide CarriedOut, CarriedIn, ShiftFrozenForDeleteAt, ShiftFrozenAt, LineOf, ColOf, Breaks, InsertPoint;
    var t, s, e := c.doc.text, sp.start, sp.start + |TakeOut(sp, dir)|;
    var u := Swap(t, s, e, []);
    assert u == t[..s] + t[e..];
    var out := ApplyShifts(c, OutOps(t, s, e - s));
    NoShifts(c);
    if s < e {
      OneShift(c, Delete(LineOf(t, s), ColOf(t, s), Breaks(t[s..e])));
      ShiftDeleteCarries(c, out, s, e);
    }
    var mid, put := out.(doc := out.doc.(text := u)), PutIn(sp, dir);
    var q := InsertPoint(u, s);
    NoShifts(mid);
    OneShift(mid, Insert(q.0, q.1, Breaks(put)));
    NothingPut();
    ShiftCarries(mid, ApplyShifts(mid, InOps(u, s, put)), s, put);
  }

  lemma NothingPut()
    ensures Breaks([]) == 0
  {
  }

  lemma NoShifts(c: Core)
    ensures ApplyShifts(c, []) == c
  {
  }

  lemma OneShift(c: Core, op: AnchorShift)
    ensures ApplyShifts(c, [op]) == ApplyShift(c, op)
  {
    hide ApplyShift;
    assert [op][1..] == [];
    NoShifts(ApplyShift(c, op));
  }

  /** A history step forgets the cached tail: the next chunk looks for its turn's end anew. */
  lemma HistoryForgetsTail(c: Core, dir: Dir)
    requires Stack(c.doc, dir) != []
    ensures Step(c, dir).tail.None? && !Step(c, dir).tailOpen
  {
  }

  // --- The lock ---

  predicate Locked(c: Core, line: nat) { line < c.lock }

  /** After an insert the lines that were locked are, and no others; of the
      lines that appear those do that appear above a locked line. */
  lemma LockFollowsInsert(c: Core, at: nat, x: Text)
    requires at <= |c.doc.text|
    ensures var t, d := c.doc.text, InsertText(c, at, x);
            var line, end := LineOf(t, at), AtVisibleEnd(t, at);
            && (forall k: nat :: k < line ==> (Locked(d, k) <==> Locked(c, k)))
            && (forall k: nat, m: nat :: k > line && m == k + Breaks(x) ==> (Locked(d, m) <==> Locked(c, k)))
            && (Locked(d, line) <==> Locked(c, line))
            && (forall m: nat :: line < m <= line + Breaks(x) ==>
                  (Locked(d, m) <==> if end then Locked(c, line + 1) else Locked(c, line)))
  {
    hide LineStart, Breaks, TailLen, LineLen, AtVisibleEnd, LineOf, ShiftInsert, MapAtomicInsert, InsertNoUndo;
    VisibleEnd(c.doc.text, at);
  }

  /** After a delete the lines that are left are locked if they were, exactly
      unless the lock ended strictly inside the lines taken away and some line
      stands before them: then lines before them are unlocked with it. */
  lemma LockFollowsDelete(c: Core, s: nat, e: nat)
    requires s < e <= |c.doc.text|
    ensures var t, d := c.doc.text, DeleteText(c, s, e);
            var line, n := LineOf(t, s), Breaks(t[s..e]);
            (&& (forall k: nat :: k < line ==> (Locked(d, k) <==> Locked(c, k)))
             && (forall k: nat, m: nat :: k > line + n && m == k - n ==> (Locked(d, m) <==> Locked(c, k))))
            <==> !(0 < line < c.lock < line + n)
  {
    hide LineOf, Breaks, ShiftDelete, MapDelete, DeleteNoUndo, DeleteLines, RemoveTags, DroppedBy;
    var t, d := c.doc.text, DeleteText(c, s, e);
    var line, n := LineOf(t, s), Breaks(t[s..e]);
    if 0 < line < c.lock < line + n {
      assert Locked(c, d.lock) && !Locked(d, d.lock);
    }
  }

  /** It happens: with lines 0 and 1 locked, taking away "b", "c" and their
      breaks unlocks line 0, which was not touched. */
  lemma ADeleteCanUnlock()
    ensures var c := Core(New("a\nb\nc\nd"), [], 2, [], Anchors.EMPTY, map[], None, false);
            var d := DeleteText(c, 2, 6);
            d.doc.text == "a\nd" && Locked(c, 0) && !Locked(d, 0)
  {
    var t := "a\nb\nc\nd";
    var c := Core(New(t), [], 2, [], Anchors.EMPTY, map[], None, false);
    hide ShiftDelete, MapDelete, DeleteLines, RemoveTags, DroppedBy, ShiftRecorded;
    assert t[..2] == "a\n" && "a\n"[..1] == "a" && "a"[..0] == [];
    assert t[2..6] == "b\nc\n" && t[6..] == "d";
    assert t[2..6][..3] == "b\nc" && "b\nc"[..2] == "b\n" && "b\n"[..1] == "b" && "b"[..0] == [];
    assert LineOf(t, 2) == 1 && Breaks(t[2..6]) == 2;
    assert t[..2] + t[6..] == "a\nd";
  }
}
