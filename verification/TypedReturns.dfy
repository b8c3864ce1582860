// Runs with carriage returns: exactly when bulk insert and typing part ways.
module TypedReturns {
  import opened Lines
  import opened Options
  import opened DocModel
  import opened Ranges
  import opened CoreModel
  import opened View
  import opened TypedRuns
  import Anchors

  /** A carriage return with something else after it in the run. */
  predicate Stranded(x: Text) {
    exists k, l :: 0 <= k < l < |x| && x[k] == '\r' && x[l] != '\r'
  }

  function Returns(n: nat): Text { seq(n, i => '\r') }

  // --- Typing a run in two parts ---

  lemma {:induction false} TypeTwice(c: Core, v: Caret, x: Text, y: Text)
    ensures var a := TypeRun(c, v, x);
            var b := TypeRun(DoAll(c, a.ps), a.caret, y);
            && DoAll(c, TypeRun(c, v, x + y).ps) == DoAll(DoAll(c, a.ps), b.ps)
            && TypeRun(c, v, x + y).caret == b.caret
    decreases |x|
  {
    hide TypeOne, DoAll;
    if x == [] {
      assert x + y == y;
      NothingTyped(c);
    } else {
      var one := TypeOne(c, v, x[0]);
      var c1 := DoAll(c, one.ps);
      RestOfConcat(x, y);
      TypeTwice(c1, one.caret, x[1..], y);
      var rest := TypeRun(c1, one.caret, x[1..]);
      DoAllConcat(c, one.ps, rest.ps);
      DoAllConcat(c, one.ps, TypeRun(c1, one.caret, x[1..] + y).ps);
    }
  }

  lemma TypeJustOne(c: Core, v: Caret, ch: char)
    ensures TypeRun(c, v, [ch]).caret == TypeOne(c, v, ch).caret
    ensures DoAll(c, TypeRun(c, v, [ch]).ps) == DoAll(c, TypeOne(c, v, ch).ps)
  {
    hide TypeOne, DoAll;
    var one := TypeOne(c, v, ch);
    assert [ch][1..] == [];
    assert one.ps + [] == one.ps;
  }

  /** A run that lands leaves the caret ready, at the end of the run. */
  lemma {:induction false} RunStaysReady(c: Core, v: Caret, x: Text)
    requires Ready(c, v) && Sorted(c.frozen) && AllLand(c.doc.text, v, x)
    ensures var d, w := DoAll(c, TypeRun(c, v, x).ps), TypeRun(c, v, x).caret;
            && Ready(d, w) && Sorted(d.frozen)
            && CaretIndex(d.doc.text, w) == CaretIndex(c.doc.text, v) + |x|
            && (AtBreak(d.doc.text, w) <==> AtBreak(c.doc.text, v))
    decreases |x|
  {
    hide Ready, First, TypeOne, Sorted, CaretIndex, AtBreak, DoAll;
    if x == [] {
      NothingTyped(c);
    } else {
      var ch, rest := x[0], x[1..];
      var c1, v1 := First(c, v, ch), NextCaret(v, ch);
      FirstIsReady(c, v, ch);
      TypingIsFirst(c, v, ch);
      RunStaysReady(c1, v1, rest);
      DoAllConcat(c, TypeOne(c, v, ch).ps, TypeRun(c1, v1, rest).ps);
    }
  }

  // --- Carriage returns before a line break ---

  lemma ReturnsAround(t: Text, i: nat, j: nat)
    requires i < |t| && j > 0
    ensures var u := t[..i] + Returns(j) + t[i..];
            && u[..i + j - 1] == t[..i] + Returns(j - 1)
            && u[i + j - 1] == '\r' && i + j < |u| && u[i + j] == t[i]
            && (j > 1 ==> u[i + j - 2] == '\r')
            && u[..i + j - 1] + ['\r'] + u[i + j - 1..] == t[..i] + Returns(j + 1) + t[i..]
  {
  }

  /** With `j` returns typed, the caret clamps to before the last of them. */
  lemma ClampBeforeLast(t: Text, v: Caret, j: nat)
    requires v.line <= Breaks(t) && v.col <= LineLen(t, v.line) && AtBreak(t, v) && j > 0
    ensures var i := CaretIndex(t, v);
            var u := t[..i] + Returns(j) + t[i..];
            v.line <= Breaks(u) && CaretIndex(u, Caret(v.line, v.col + j)) == i + j - 1
  {
    hide LineStart, LineLen, Breaks, TailLen, Returns;
    var i := CaretIndex(t, v);
    var u := t[..i] + Returns(j) + t[i..];
    var p: nat := i + j - 1;
    CaretOfIndex(t, v);
    ReturnsAround(t, i, j);
    ReturnsHaveNoBreak(j - 1);
    BreaksConcat(t[..i], Returns(j - 1));
    TailConcat(t[..i], Returns(j - 1));
    PositionRoundTrip(u, p);
    VisibleEnd(u, p);
    PositionOf(u, p);
  }

  lemma ReturnsHaveNoBreak(n: nat)
    ensures Breaks(Returns(n)) == 0 && |Returns(n)| == n
  {
    NoBreaks(Returns(n));
  }

  /** Typing `n` returns before a line break: only the text changes. */
  lemma {:induction false} TypeReturns(c: Core, v: Caret, n: nat)
    requires Ready(c, v) && AtBreak(c.doc.text, v)
    ensures var i, d := CaretIndex(c.doc.text, v), DoAll(c, TypeRun(c, v, Returns(n)).ps);
            && d == c.(doc := d.doc) && d.doc.text == c.doc.text[..i] + Returns(n) + c.doc.text[i..]
            && TypeRun(c, v, Returns(n)).caret == Caret(v.line, v.col + n)
    decreases n
  {
    hide Ready, Do, TypeOne, CaretIndex, AtBreak, DoAll, Returns;
    var t, i := c.doc.text, CaretIndex(c.doc.text, v);
    if n == 0 {
      NothingTyped(c);
      assert Returns(0) == [] by { NoReturns(); }
      assert i <= |t| && t[..i] + [] + t[i..] == t by { CaretInText(t, v); }
    } else {
      CaretInText(t, v);
      TypeReturns(c, v, n - 1);
      var r := TypeRun(c, v, Returns(n - 1));
      var d := DoAll(c, r.ps);
      OneMoreReturn(n - 1);
      TypeTwice(c, v, Returns(n - 1), ['\r']);
      TypeJustOne(d, r.caret, '\r');
      OneReturn(c, v, d, n - 1);
    }
  }

  lemma NoReturns()
    ensures Returns(0) == []
  {
  }

  lemma OneMoreReturn(n: nat)
    ensures Returns(n + 1) == Returns(n) + ['\r']
  {
  }

  lemma CaretInText(t: Text, v: Caret)
    ensures CaretIndex(t, v) <= |t|
    ensures var i := CaretIndex(t, v);
            t[..i] + [] + t[i..] == t
  {
    hide LineColToChar;
  }

  /** A return typed on an editable line changes the text only. */
  lemma InsertReturn(d: Core, w: Caret)
    requires d.lock <= w.line && !IsFrozen(d, w.line)
    ensures var e, q := DoAll(d, TypeOne(d, w, '\r').ps), CaretIndex(d.doc.text, w);
            && e == d.(doc := e.doc) && q <= |d.doc.text|
            && e.doc.text == d.doc.text[..q] + ['\r'] + d.doc.text[q..]
            && TypeOne(d, w, '\r').caret == Caret(w.line, w.col + 1)
  {
    hide Covers, LineLen, LineColToChar, InsertAt, CaretInsertPoint;
    assert [PInsert(w.line, w.col, ['\r'])][1..] == [];
    NoBreaks(['\r']);
    InsertText(d.doc, CaretIndex(d.doc.text, w), ['\r']);
  }

  /** One more return after `j` of them. */
  lemma OneReturn(c: Core, v: Caret, d: Core, j: nat)
    requires Ready(c, v) && AtBreak(c.doc.text, v)
    requires var i := CaretIndex(c.doc.text, v);
             i <= |c.doc.text| && d == c.(doc := d.doc) && d.doc.text == c.doc.text[..i] + Returns(j) + c.doc.text[i..]
    ensures var i, w := CaretIndex(c.doc.text, v), Caret(v.line, v.col + j);
            var e := DoAll(d, TypeOne(d, w, '\r').ps);
            && e == c.(doc := e.doc) && e.doc.text == c.doc.text[..i] + Returns(j + 1) + c.doc.text[i..]
            && TypeOne(d, w, '\r').caret == Caret(v.line, v.col + (j + 1))
  {
    hide Covers, LineLen, LineColToChar, Returns, DoAll, TypeOne;
    var t, i := c.doc.text, CaretIndex(c.doc.text, v);
    InsertReturn(d, Caret(v.line, v.col + j));
    if j == 0 {
      NoReturns();
      CaretInText(t, v);
      OneMoreReturn(0);
      assert [] + ['\r'] == ['\r'];
    } else {
      ClampBeforeLast(t, v, j);
      ReturnsAround(t, i, j);
    }
  }

  // --- What is typed later stays behind ---

  /** After one typed character the caret is no further left; right of it,
      unless a return hid. */
  lemma CaretAdvances(t: Text, v: Caret, ch: char)
    requires v.line <= Breaks(t)
    ensures var q := CaretIndex(t, v);
            var u := t[..q] + [ch] + t[q..];
            var w := NextCaret(v, ch);
            && w.line <= Breaks(u) && CaretIndex(u, w) >= q
            && (ch != '\r' ==> CaretIndex(u, w) >= q + 1)
  {
    hide LineStart, LineLen, Breaks, TailLen;
    var q := CaretIndex(t, v);
    var u := t[..q] + [ch] + t[q..];
    CaretPosition(t, v.line, v.col);
    CaretNotInside(t, v.line, v.col);
    OneMore(t[..q], ch);
    assert u[..q + 1] == t[..q] + [ch] && u[..q] == t[..q] && u[q] == ch;
    PositionOf(u, q + 1);
    PositionOf(u, q);
    if ch != '\r' {
      PositionRoundTrip(u, q + 1);
    } else {
      PositionRoundTrip(u, q);
    }
  }

  /** Text left of the caret is safe from what is typed. */
  lemma {:induction false} LeftIsSafe(c: Core, v: Caret, x: Text, p: nat)
    requires v.line <= Breaks(c.doc.text) && p < CaretIndex(c.doc.text, v) <= |c.doc.text|
    ensures var d := DoAll(c, TypeRun(c, v, x).ps);
            p < |d.doc.text| && d.doc.text[p] == c.doc.text[p]
    decreases |x|
  {
    hide TypeOne, DoAll, CaretIndex, Breaks;
    if x == [] {
      NothingTyped(c);
    } else {
      var one := TypeOne(c, v, x[0]);
      var c1 := DoAll(c, one.ps);
      OneIsSafe(c, v, x[0], p);
      LeftIsSafe(c1, one.caret, x[1..], p);
      DoAllConcat(c, one.ps, TypeRun(c1, one.caret, x[1..]).ps);
    }
  }

  lemma OneIsSafe(c: Core, v: Caret, ch: char, p: nat)
    requires v.line <= Breaks(c.doc.text) && p < CaretIndex(c.doc.text, v) <= |c.doc.text|
    ensures var one := TypeOne(c, v, ch);
            var d := DoAll(c, one.ps);
            && p < |d.doc.text| && d.doc.text[p] == c.doc.text[p]
            && one.caret.line <= Breaks(d.doc.text) && p < CaretIndex(d.doc.text, one.caret) <= |d.doc.text|
  {
    hide CanInsertCharAt, LineColToChar, ShiftForInsert, InsertAt, Breaks;
    NothingTyped(c);
    var q := CaretIndex(c.doc.text, v);
    assert [PInsert(v.line, v.col, [ch])][1..] == [];
    InsertText(c.doc, q, [ch]);
    CaretAdvances(c.doc.text, v, ch);
  }

  // --- The exact condition ---

  /** The text before the first return, the returns there, and the rest. */
  function LeadReturns(x: Text): nat { if x == [] || x[0] != '\r' then 0 else 1 + LeadReturns(x[1..]) }

  lemma {:induction false} LeadReturnsAre(x: Text)
    ensures LeadReturns(x) <= |x| && x[..LeadReturns(x)] == Returns(LeadReturns(x))
    ensures LeadReturns(x) < |x| ==> x[LeadReturns(x)] != '\r'
  {
    if x != [] && x[0] == '\r' {
      LeadReturnsAre(x[1..]);
      var n := LeadReturns(x[1..]);
      assert x[..n + 1] == [x[0]] + x[1..][..n];
    }
  }

  lemma {:induction false} FirstReturn(x: Text) returns (k: nat)
    requires '\r' in x
    ensures k < |x| && x[k] == '\r' && '\r' !in x[..k]
  {
    if x[0] == '\r' {
      k := 0;
    } else {
      k := FirstReturn(x[1..]);
      assert x[..k + 1] == [x[0]] + x[1..][..k];
      k := k + 1;
    }
  }

  /** The run as text, returns, rest. */
  lemma Parts(x: Text) returns (a: Text, m: nat, y: Text)
    requires '\r' in x
    ensures x == a + Returns(m) + y && '\r' !in a && m > 0 && (y != [] ==> y[0] != '\r')
    ensures Stranded(x) <==> y != []
  {
    hide Returns;
    var k := FirstReturn(x);
    a := x[..k];
    LeadReturnsAre(x[k..]);
    m := LeadReturns(x[k..]);
    y := x[k..][m..];
    assert x == a + x[k..] && x[k..] == x[k..][..m] + y;
    assert m > 0;
    if y != [] {
      assert x[k + m] == y[0];
    } else {
      OnlyReturns(x, k, m);
    }
  }

  lemma OnlyReturns(x: Text, k: nat, m: nat)
    requires k + m == |x| && x[k..] == Returns(m) && '\r' !in x[..k]
    ensures !Stranded(x)
  {
    forall i | k <= i < |x|
      ensures x[i] == '\r'
    {
      assert x[i] == x[k..][i - k];
    }
    forall i | 0 <= i < k
      ensures x[i] != '\r'
    {
      assert x[i] == x[..k][i];
    }
  }

  /** Trailing returns only: typing still agrees. */
  lemma TrailingReturnsAgree(c: Core, v: Caret, a: Text, m: nat)
    requires Ready(c, v) && Sorted(c.frozen) && AtBreak(c.doc.text, v) && '\r' !in a
    ensures var x := a + Returns(m);
            && SameSurface(Bulk(c, v, x), DoAll(c, TypeRun(c, v, x).ps))
            && TypeRun(c, v, x).caret == CaretAt(Bulk(c, v, x).doc.text, CaretIndex(c.doc.text, v) + |x|)
  {
    hide Ready, Sorted, AtBreak, CaretIndex, DoAll, Returns, TypeRun, Bulk;
    var x := a + Returns(m);
    BulkIsFold(c, v, a);
    RunStaysReady(c, v, a);
    TypeTwice(c, v, a, Returns(m));
    var d, w := DoAll(c, TypeRun(c, v, a).ps), TypeRun(c, v, a).caret;
    CaretInText(c.doc.text, v);
    CaretInText(d.doc.text, w);
    ReturnsHaveNoBreak(m);
    TypeReturns(d, w, m);
    BulkWithReturns(c, v, a, m, d, w);
  }

  lemma BulkWithReturns(c: Core, v: Caret, a: Text, m: nat, d: Core, w: Caret)
    requires Ready(c, v) && Sorted(c.frozen) && SameSurface(Bulk(c, v, a), d)
    requires CaretIndex(d.doc.text, w) == CaretIndex(c.doc.text, v) + |a|
    requires CaretIndex(c.doc.text, v) <= |c.doc.text| && CaretIndex(d.doc.text, w) <= |d.doc.text|
    requires w == CaretAt(Bulk(c, v, a).doc.text, CaretIndex(c.doc.text, v) + |a|)
    ensures var b, j := Bulk(c, v, a + Returns(m)), CaretIndex(d.doc.text, w);
            && b.frozen == d.frozen && b.lock == d.lock && b.atomic == d.atomic
            && b.doc.text == d.doc.text[..j] + Returns(m) + d.doc.text[j..]
            && Caret(w.line, w.col + m) == CaretAt(b.doc.text, j + m)
  {
    hide Ready, Sorted, Covers, LineLen, LineColToChar, InsertAt, Breaks, TailLen, Down, MapAtomicInsert, Returns,
         CaretInsertPoint, ShiftForTypedInsert;
    var t, i := c.doc.text, CaretIndex(c.doc.text, v);
    ReturnsHaveNoBreak(m);
    BreaksConcat(a, Returns(m));
    BulkFrozen(c, v, a);
    BulkFrozen(c, v, a + Returns(m));
    InsertText(c.doc, i, a);
    InsertText(c.doc, i, a + Returns(m));
    var u := t[..i] + a + t[i..];
    assert u[..i + |a|] == t[..i] + a && u[i + |a|..] == t[i..];
    var b := t[..i] + (a + Returns(m)) + t[i..];
    assert b == u[..i + |a|] + Returns(m) + u[i + |a|..];
    assert b[..i + |a| + m] == u[..i + |a|] + Returns(m);
    BreaksConcat(u[..i + |a|], Returns(m));
    TailConcat(u[..i + |a|], Returns(m));
  }

  /** A stranded return: what follows it is typed before it. */
  lemma StrandedDiffers(c: Core, v: Caret, a: Text, m: nat, y: Text)
    requires Ready(c, v) && Sorted(c.frozen) && AtBreak(c.doc.text, v) && '\r' !in a
    requires m > 0 && y != [] && y[0] != '\r'
    ensures var x := a + Returns(m) + y;
            Bulk(c, v, x).doc.text != DoAll(c, TypeRun(c, v, x).ps).doc.text
  {
    hide Ready, Sorted, AtBreak, CaretIndex, DoAll, Returns, TypeRun, Bulk, TypeOne, Breaks;
    var x := a + Returns(m) + y;
    var i := CaretIndex(c.doc.text, v);
    BulkIsFold(c, v, a);
    RunStaysReady(c, v, a);
    var d, w := DoAll(c, TypeRun(c, v, a).ps), TypeRun(c, v, a).caret;
    CaretInText(d.doc.text, w);
    TypeTwice(c, v, a, Returns(m) + y);
    assert a + (Returns(m) + y) == x;
    TypeReturns(d, w, m);
    TypeTwice(d, w, Returns(m), y);
    var e, z := DoAll(d, TypeRun(d, w, Returns(m)).ps), Caret(w.line, w.col + m);
    var p: nat := i + |a| + m - 1;
    HiddenCaret(d, w, m, e);
    assert y == [y[0]] + y[1..];
    TypeTwice(e, z, [y[0]], y[1..]);
    TypeJustOne(e, z, y[0]);
    TypedAtCaret(e, z, y[0]);
    var one := TypeOne(e, z, y[0]);
    LeftIsSafe(DoAll(e, one.ps), one.caret, y[1..], p);
    BulkShowsReturn(c, v, a, m, y);
  }

  lemma HiddenCaret(d: Core, w: Caret, m: nat, e: Core)
    requires Ready(d, w) && AtBreak(d.doc.text, w) && m > 0 && CaretIndex(d.doc.text, w) <= |d.doc.text|
    requires e == d.(doc := e.doc)
    requires var j := CaretIndex(d.doc.text, w);
             e.doc.text == d.doc.text[..j] + Returns(m) + d.doc.text[j..]
    ensures var z := Caret(w.line, w.col + m);
            && z.line <= Breaks(e.doc.text) && CaretIndex(e.doc.text, z) == CaretIndex(d.doc.text, w) + m - 1
            && z.line >= e.lock && !IsFrozen(e, z.line)
  {
    hide Covers, LineLen, LineColToChar, Breaks, Returns;
    ClampBeforeLast(d.doc.text, w, m);
  }

  /** On an editable line a character is typed where the caret clamps to. */
  lemma TypedAtCaret(c: Core, v: Caret, ch: char)
    requires v.line <= Breaks(c.doc.text) && v.line >= c.lock && !IsFrozen(c, v.line) && ch != '\r'
    ensures var one, q := TypeOne(c, v, ch), CaretIndex(c.doc.text, v);
            var d := DoAll(c, one.ps);
            && q < |d.doc.text| && d.doc.text[q] == ch
            && one.caret.line <= Breaks(d.doc.text) && q < CaretIndex(d.doc.text, one.caret) <= |d.doc.text|
  {
    hide Covers, LineLen, LineColToChar, ShiftForInsert, InsertAt, Breaks;
    var q := CaretIndex(c.doc.text, v);
    assert [PInsert(v.line, v.col, [ch])][1..] == [];
    InsertText(c.doc, q, [ch]);
    CaretAdvances(c.doc.text, v, ch);
  }

  lemma BulkShowsReturn(c: Core, v: Caret, a: Text, m: nat, y: Text)
    requires m > 0
    ensures var x, p := a + Returns(m) + y, CaretIndex(c.doc.text, v) + |a| + m - 1;
            p < |Bulk(c, v, x).doc.text| && Bulk(c, v, x).doc.text[p] == '\r'
  {
    hide LineColToChar, ShiftForTypedInsert, InsertAt;
    var x, i := a + Returns(m) + y, CaretIndex(c.doc.text, v);
    InsertText(c.doc, i, x);
    assert x[|a| + m - 1] == '\r';
  }

  /** The one line "x", a break after it, nothing frozen. */
  function LineX(): Core { Core(New("x\n"), [], 0, [], Anchors.EMPTY, map[], None, false) }

  lemma CaretAfterX()
    ensures Ready(LineX(), Caret(0, 1)) && AtBreak("x\n", Caret(0, 1)) && CaretIndex("x\n", Caret(0, 1)) == 1
  {
    hide LineLen, LineStart;
    var t := "x\n";
    assert t[..1] == "x" && "x"[..0] == [];
    assert LineOf(t, 1) == 0 && ColOf(t, 1) == 1;
    PositionRoundTrip(t, 1);
  }

  /** Such runs exist: at the end of "x", an "a" typed after a return comes out
      before it. */
  lemma AStrandedReturn()
    ensures Ready(LineX(), Caret(0, 1)) && AtBreak(LineX().doc.text, Caret(0, 1)) && Stranded("\ra")
    ensures var b := Bulk(LineX(), Caret(0, 1), "\ra").doc.text;
            b == "x\ra\n" && b != DoAll(LineX(), TypeRun(LineX(), Caret(0, 1), "\ra").ps).doc.text
  {
    hide DoAll, TypeRun, Ready, AtBreak, CaretIndex, InsertAt;
    CaretAfterX();
    assert Stranded("\ra") by { assert "\ra"[0] == '\r' && "\ra"[1] != '\r'; }
    InsertText(LineX().doc, 1, "\ra");
    assert "x\n"[..1] + "\ra" + "x\n"[1..] == "x\ra\n";
    assert [] + Returns(1) + "a" == "\ra";
    StrandedDiffers(LineX(), Caret(0, 1), [], 1, "a");
  }

  /** On an editable caret line, whatever the run: bulk insert and typing give
      the same text, caret, frozen ranges, locked prefix and atomic blocks if
      and only if the caret is not right before a line break with a carriage
      return in the run that something else follows. */
  lemma SurfaceAgreesExactly(c: Core, v: Caret, x: Text)
    requires Ready(c, v) && Sorted(c.frozen)
    ensures SameSurface(Bulk(c, v, x), DoAll(c, TypeRun(c, v, x).ps))
            && TypeRun(c, v, x).caret == CaretAt(Bulk(c, v, x).doc.text, CaretIndex(c.doc.text, v) + |x|)
       <==> !(AtBreak(c.doc.text, v) && Stranded(x))
  {
    hide Ready, Sorted, AtBreak, CaretIndex, DoAll, Returns, TypeRun, Bulk;
    if AtBreak(c.doc.text, v) && '\r' in x {
      var a, m, y := Parts(x);
      if y == [] {
        assert a + Returns(m) + y == a + Returns(m);
        TrailingReturnsAgree(c, v, a, m);
      } else {
        StrandedDiffers(c, v, a, m, y);
      }
    } else {
      BulkIsFold(c, v, x);
    }
  }
}
