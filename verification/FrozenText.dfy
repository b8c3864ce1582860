// Frozen content is immutable to the user: no edit changes the visible text of
// a frozen line, their order, or the locked prefix.
module FrozenText {
  import opened Lines
  import opened Options
  import opened Splices
  import opened DocModel
  import opened Ranges
  import opened CoreModel
  import opened Faces
  import opened FaceRuns
  import opened View
  import opened ViewRuns
  import Anchors

  /** What is visible of a raw line: a CR before the line break is not. */
  function Strip(raw: Text, last: bool): Text {
    if !last && raw != [] && raw[|raw| - 1] == '\r' then raw[..|raw| - 1] else raw
  }

  function Visible(t: Text, line: nat): Text
    requires line <= Breaks(t)
  {
    Strip(Split(t)[line], line == Breaks(t))
  }

  lemma VisibleIsSlice(t: Text, line: nat)
    requires line <= Breaks(t)
    ensures LineStart(t, line) + LineLen(t, line) <= |t|
    ensures Visible(t, line) == t[LineStart(t, line)..LineStart(t, line) + LineLen(t, line)]
  {
    hide Split, LineStart, Breaks, TailLen;
    SplitLine(t, line);
    LineExtent(t, line);
    LineLenBounds(t, line);
  }

  /** The visible texts of the frozen lines below `n`, in order. */
  function FrozenTexts(t: Text, frozen: set<nat>, n: nat): seq<Text>
    requires n <= LineCount(t)
  {
    if n == 0 then []
    else FrozenTexts(t, frozen, n - 1) + if n - 1 in frozen then [Visible(t, n - 1)] else []
  }

  function AllFrozenTexts(t: Text, frozen: set<nat>): seq<Text> {
    FrozenTexts(t, frozen, LineCount(t))
  }

  // --- Lines around an edit ---

  /** The line list of a text with a gap of `n` lines opened: same raw lines
      above `line`, same raw lines below it, moved down. */
  lemma LinesAround(p: Text, x: Text, q: Text, l: nat)
    requires l != Breaks(p) && l <= Breaks(p) + Breaks(q)
    ensures Breaks(p + q) == Breaks(p) + Breaks(q)
    ensures Breaks(p + x + q) == Breaks(p) + Breaks(x) + Breaks(q)
    ensures l < Breaks(p) ==> Split(p + x + q)[l] == Split(p + q)[l]
    ensures l > Breaks(p) ==> Split(p + x + q)[l + Breaks(x)] == Split(p + q)[l]
  {
    hide Breaks;
    BreaksConcat(p, q);
    BreaksConcat(p, x);
    BreaksConcat(p + x, q);
    SplitConcat(p, q);
    SplitConcat(p, x);
    SplitConcat(p + x, q);
  }

  lemma VisibleAround(p: Text, x: Text, q: Text, l: nat)
    requires l != Breaks(p) && l <= Breaks(p) + Breaks(q)
    ensures Breaks(p + q) == Breaks(p) + Breaks(q)
    ensures Breaks(p + x + q) == Breaks(p) + Breaks(x) + Breaks(q)
    ensures l < Breaks(p) ==> Visible(p + x + q, l) == Visible(p + q, l)
    ensures l > Breaks(p) ==> Visible(p + x + q, l + Breaks(x)) == Visible(p + q, l)
  {
    hide Breaks, Split, Strip;
    LinesAround(p, x, q, l);
  }

  // --- Gaps ---

  lemma {:induction false} SameTexts(t: Text, u: Text, f: set<nat>, g: set<nat>, n: nat)
    requires n <= LineCount(t) && n <= LineCount(u)
    requires forall l: nat :: l < n ==> (l in f <==> l in g)
    requires forall l: nat :: l < n && l in f ==> Visible(t, l) == Visible(u, l)
    ensures FrozenTexts(t, f, n) == FrozenTexts(u, g, n)
  {
    hide Visible, Breaks;
    if n > 0 {
      SameTexts(t, u, f, g, n - 1);
    }
  }

  lemma {:induction false} NoneFrozen(t: Text, f: set<nat>, lo: nat, n: nat)
    requires lo <= n <= LineCount(t)
    requires forall l: nat :: lo <= l < n ==> l !in f
    ensures FrozenTexts(t, f, n) == FrozenTexts(t, f, lo)
    decreases n - lo
  {
    hide Visible, Breaks;
    if lo < n {
      NoneFrozen(t, f, lo, n - 1);
    }
  }

  /** From a common start, lines that moved down by `n` add the same texts. */
  lemma {:induction false} MovedTexts(t: Text, u: Text, f: set<nat>, at: nat, n: nat, upto: nat)
    requires at <= upto <= LineCount(t) && upto + n <= LineCount(u)
    requires FrozenTexts(u, OpenGap(f, at, n), at + n) == FrozenTexts(t, f, at)
    requires forall l: nat :: at <= l < upto && l in f ==> Visible(u, l + n) == Visible(t, l)
    ensures FrozenTexts(u, OpenGap(f, at, n), upto + n) == FrozenTexts(t, f, upto)
    decreases upto
  {
    hide Visible, Breaks, OpenGap;
    if at < upto {
      MovedTexts(t, u, f, at, n, upto - 1);
      InOpenGap(f, at, n, upto - 1 + n);
    }
  }

  /** Opening a gap between unchanged lines changes no frozen text. */
  lemma GapKeepsTexts(t: Text, u: Text, f: set<nat>, at: nat, n: nat)
    requires at <= LineCount(t) && LineCount(u) == LineCount(t) + n
    requires forall l: nat :: l < at && l in f ==> Visible(u, l) == Visible(t, l)
    requires forall l: nat :: at <= l < LineCount(t) && l in f ==> Visible(u, l + n) == Visible(t, l)
    ensures AllFrozenTexts(u, OpenGap(f, at, n)) == AllFrozenTexts(t, f)
  {
    hide Visible, Breaks, OpenGap, FrozenTexts;
    var g := OpenGap(f, at, n);
    forall l: nat
      ensures l < at ==> (l in g <==> l in f)
      ensures at <= l < at + n ==> l !in g
    {
      InOpenGap(f, at, n, l);
    }
    SameTexts(u, t, g, f, at);
    NoneFrozen(u, g, at, at + n);
    MovedTexts(t, u, f, at, n, LineCount(t));
  }

  // --- The edits ---

  /** The place of an edit: what is before it, and after it. */
  lemma InsertPlace(t: Text, i: nat, x: Text)
    requires i <= |t|
    ensures var p, q := t[..i], t[i..];
            t == p + q && t[..i] + x + t[i..] == p + x + q && Breaks(p) == LineOf(t, i)
            && Breaks(t) == Breaks(p) + Breaks(q)
  {
    hide Breaks;
    BreaksBound(t, i);
  }

  /** An insert on an editable line. */
  lemma InsertOnEditable(t: Text, f: set<nat>, i: nat, x: Text, at: nat)
    requires i <= |t| && LineOf(t, i) !in f
    requires at == LineOf(t, i) || at == LineOf(t, i) + 1
    ensures AllFrozenTexts(t[..i] + x + t[i..], OpenGap(f, at, Breaks(x))) == AllFrozenTexts(t, f)
  {
    hide Visible, Breaks, OpenGap, AllFrozenTexts;
    var p, q := t[..i], t[i..];
    var u := p + x + q;
    InsertPlace(t, i, x);
    BreaksConcat(p, x);
    BreaksConcat(p + x, q);
    forall l: nat | l in f && l < LineCount(t)
      ensures l != Breaks(p)
      ensures l < Breaks(p) ==> Visible(u, l) == Visible(t, l)
      ensures l > Breaks(p) ==> Visible(u, l + Breaks(x)) == Visible(t, l)
    {
      VisibleAround(p, x, q, l);
    }
    GapKeepsTexts(t, u, f, at, Breaks(x));
  }

  /** A delete on editable lines. */
  lemma DeleteOnEditable(t: Text, f: set<nat>, s: nat, e: nat)
    requires s <= e <= |t|
    requires forall l: nat :: LineOf(t, s) <= l <= LineOf(t, s) + Breaks(t[s..e]) ==> l !in f
    ensures var n := Breaks(t[s..e]);
            AllFrozenTexts(t[..s] + t[e..], if n > 0 then CloseGap(f, LineOf(t, s), n) else f) == AllFrozenTexts(t, f)
  {
    hide Breaks, OpenGap, CloseGap, AllFrozenTexts, LineOf;
    var u, x := t[..s] + t[e..], t[s..e];
    var line, n := LineOf(t, s), Breaks(x);
    var g := if n > 0 then CloseGap(f, line, n) else f;
    assert u[..s] == t[..s] && u[s..] == t[e..];
    assert t == u[..s] + x + u[s..];
    assert LineOf(u, s) == line by { SameHeadLine(t, u, s); }
    if n > 0 {
      OpenCloses(f, line, n, line + 1);
      InCloseGap(f, line, n, line);
    } else {
      GapOfNone(f, line + 1);
    }
    InsertOnEditable(u, g, s, x, line + 1);
  }

  lemma SameHeadLine(t: Text, u: Text, i: nat)
    requires i <= |t| && i <= |u| && t[..i] == u[..i]
    ensures LineOf(t, i) == LineOf(u, i)
  {
  }

  lemma GapOfNone(f: set<nat>, at: nat)
    ensures OpenGap(f, at, 0) == f
  {
    forall l: nat
      ensures l in OpenGap(f, at, 0) <==> l in f
    {
      InOpenGap(f, at, 0, l);
    }
  }

  /** A line break before a frozen line: the line moves down as it is. */
  lemma BreakBeforeFrozen(t: Text, f: set<nat>, line: nat)
    requires line <= Breaks(t)
    ensures var i := LineStart(t, line);
            AllFrozenTexts(t[..i] + ['\n'] + t[i..], OpenGap(f, line, 1)) == AllFrozenTexts(t, f)
  {
    hide Breaks, OpenGap, AllFrozenTexts, LineStart, TailLen, Split, Strip;
    var i := LineStart(t, line);
    var p, q, x := t[..i], t[i..], ['\n'];
    var u := p + x + q;
    StartPosition(t, line);
    InsertPlace(t, i, x);
    BreaksConcat(p, x);
    BreaksConcat(p + x, q);
    OneBreak();
    forall l: nat | l < LineCount(t)
      ensures l < line ==> Visible(u, l) == Visible(t, l)
      ensures l >= line ==> Visible(u, l + 1) == Visible(t, l)
    {
      if l != line {
        VisibleAround(p, x, q, l);
      } else {
        BreakAtStart(p, q);
      }
    }
    GapKeepsTexts(t, u, f, line, 1);
  }

  lemma OneBreak()
    ensures Breaks(['\n']) == 1 && TailLen(['\n']) == 0 && Split(['\n']) == [[], []]
  {
    assert ['\n'][..0] == [];
  }

  lemma BreakAtStart(p: Text, q: Text)
    requires TailLen(p) == 0
    ensures Breaks(p + q) == Breaks(p) + Breaks(q)
    ensures Breaks(p + ['\n'] + q) == Breaks(p) + 1 + Breaks(q)
    ensures Split(p + ['\n'] + q)[Breaks(p) + 1] == Split(p + q)[Breaks(p)]
  {
    hide Breaks;
    BreaksConcat(p, q);
    BreaksConcat(p, ['\n']);
    BreaksConcat(p + ['\n'], q);
    SplitConcat(p, q);
    SplitConcat(p, ['\n']);
    SplitConcat(p + ['\n'], q);
    OneBreak();
    var last := Split(p)[Breaks(p)];
    assert last + [] == last && last == [];
    assert [] + Split(q)[0] == Split(q)[0];
  }

  /** A line break after the visible end of a frozen line leaves that line
      alone exactly when its visible text does not end in a CR. */
  lemma BreakAfterFrozen(t: Text, f: set<nat>, line: nat)
    requires line <= Breaks(t)
    ensures LineStart(t, line) + LineLen(t, line) <= |t|
    ensures var i, v := LineStart(t, line) + LineLen(t, line), Visible(t, line);
            var u := t[..i] + ['\n'] + t[i..];
            && LineCount(u) == LineCount(t) + 1
            && Visible(u, line) == Strip(v, false)
            && (line !in f || v == [] || v[|v| - 1] != '\r' ==>
                  AllFrozenTexts(u, OpenGap(f, line + 1, 1)) == AllFrozenTexts(t, f))
  {
    hide Breaks, OpenGap, AllFrozenTexts, LineStart, LineLen, TailLen, Split, Strip;
    VisibleIsSlice(t, line);
    LineLenBounds(t, line);
    var i, v := LineStart(t, line) + LineLen(t, line), Visible(t, line);
    var p, q, x := t[..i], t[i..], ['\n'];
    var u := p + x + q;
    PositionOnLine(t, line, LineLen(t, line));
    InsertPlace(t, i, x);
    BreaksConcat(p, x);
    BreaksConcat(p + x, q);
    OneBreak();
    BreakAtEnd(t, line, i);
    forall l: nat | l < LineCount(t) && l != line
      ensures l < line ==> Visible(u, l) == Visible(t, l)
      ensures l > line ==> Visible(u, l + 1) == Visible(t, l)
    {
      VisibleAround(p, x, q, l);
    }
    StripKeeps(v);
    if line !in f || v == [] || v[|v| - 1] != '\r' {
      GapKeepsTexts(t, u, f, line + 1, 1);
    }
  }

  lemma StripKeeps(v: Text)
    ensures Strip(v, false) == v <==> v == [] || v[|v| - 1] != '\r'
  {
  }

  /** The raw line before a break put at `i` is the text from its start to `i`. */
  lemma BreakAtEnd(t: Text, line: nat, i: nat)
    requires i <= |t| && LineOf(t, i) == line <= Breaks(t) && LineStart(t, line) <= i
    ensures var u := t[..i] + ['\n'] + t[i..];
            && Breaks(u) == Breaks(t) + 1
            && Split(u)[line] == t[LineStart(t, line)..i]
  {
    hide Breaks, LineStart, TailLen, Split;
    var p, q, x := t[..i], t[i..], ['\n'];
    InsertPlace(t, i, x);
    BreaksConcat(p, x);
    BreaksConcat(p + x, q);
    OneBreak();
    SplitConcat(p, x);
    SplitConcat(p + x, q);
    SplitLine(p, Breaks(p));
    assert p + q == t;
    StartOfPrefix(p, q, line);
    var last := Split(p)[Breaks(p)];
    assert last + [] == last;
    LastLineEnds(p);
  }

  lemma LastLineEnds(p: Text)
    ensures LineEnd(p, Breaks(p)) == |p|
  {
  }

  // --- What the commands do ---

  /** The one case in which a sound action does change a frozen line's visible
      text: a line break put right after a visible CR, which it then hides. */
  predicate HidesCr(c: Core, p: Prim) {
    && p.PInsert? && p.line <= Breaks(c.doc.text) && IsFrozen(c, p.line)
    && p.col >= LineLen(c.doc.text, p.line)
    && EndsInCr(Visible(c.doc.text, p.line))
  }

  predicate EndsInCr(v: Text) { v != [] && v[|v| - 1] == '\r' }

  function Shown(c: Core): seq<Text> { AllFrozenTexts(c.doc.text, LineSet(c.frozen)) }

  /** Total length of a list of texts. */
  function TotalLen(ts: seq<Text>): nat {
    if ts == [] then 0 else TotalLen(ts[..|ts| - 1]) + |ts[|ts| - 1]|
  }

  predicate IsEdit(p: Prim) { p.PInsert? || p.PTyped? || p.PDelete? }

  /** What an action does to the face, from the retelling of its splice. */
  lemma InsertFace(c: Core, p: Prim)
    requires PrimSound(c, p) && Sorted(c.frozen) && (p.PInsert? || p.PTyped?)
    ensures var t, i := c.doc.text, LineColToChar(c.doc.text, p.line, p.col);
            var q := CaretInsertPoint(t, p.line, p.col);
            && Do(c, p).doc.text == t[..i] + p.x + t[i..]
            && LineSet(Do(c, p).frozen)
               == (if Breaks(p.x) > 0 then OpenGap(LineSet(c.frozen), q.0, Breaks(p.x)) else LineSet(c.frozen))
            && LineOf(t, i) == p.line
  {
    hide InsertPoint, LineLen, LineColToChar, LineSet, Covers, OpenGap, Breaks, LineOf, LeadLen, RecordSplice;
    var q := CaretInsertPoint(c.doc.text, p.line, p.col);
    CaretAndPosition(c.doc.text, p.line, p.col);
    if Breaks(p.x) > 0 {
      var col := if p.PTyped? && q.0 == p.line then p.col + LeadLen(p.x) else q.1;
      ShiftInsertOpensGap(c.frozen, q.0, col, Breaks(p.x));
    }
  }

  lemma DeleteFace(c: Core, p: Prim)
    requires PrimSound(c, p) && Sorted(c.frozen) && p.PDelete?
    ensures var t, line, n := c.doc.text, LineOf(c.doc.text, p.s), Breaks(c.doc.text[p.s..p.e]);
            && Do(c, p).doc.text == t[..p.s] + t[p.e..]
            && (forall l: nat :: line <= l <= line + n ==> l !in LineSet(c.frozen))
            && LineSet(Do(c, p).frozen) == (if n > 0 then CloseGap(LineSet(c.frozen), line, n) else LineSet(c.frozen))
  {
    hide LineSet, Covers, CloseGap, Breaks, LineOf, Sorted, RecordSplice;
    var t := c.doc.text;
    var line, n := LineOf(t, p.s), Breaks(t[p.s..p.e]);
    TouchedLines(t, p.s, p.e);
    forall l: nat | line <= l <= line + n
      ensures l !in LineSet(c.frozen) && !Covers(c.frozen, l)
    {
      NotMet(c.frozen, line, line + n, l);
      SetMatches(c.frozen, l);
    }
    if n > 0 {
      ShiftDeleteClosesGap(c.frozen, line, n);
    }
  }

  lemma PlainInsertKeeps(c: Core, p: Prim)
    requires PrimSound(c, p) && Sorted(c.frozen) && (p.PInsert? || p.PTyped?) && !IsFrozen(c, p.line)
    ensures Shown(Do(c, p)) == Shown(c)
  {
    hide LineColToChar, LineSet, Covers, OpenGap, Breaks, LineOf, AllFrozenTexts, Do, LineLen;
    var t := c.doc.text;
    var i, q := LineColToChar(t, p.line, p.col), CaretInsertPoint(t, p.line, p.col);
    InsertFace(c, p);
    SetMatches(c.frozen, p.line);
    InsertOnEditable(t, LineSet(c.frozen), i, p.x, q.0);
    if Breaks(p.x) == 0 {
      GapOfNone(LineSet(c.frozen), q.0);
    }
  }

  lemma FrozenInsertKeeps(c: Core, p: Prim)
    requires PrimSound(c, p) && Sorted(c.frozen) && p.PInsert? && IsFrozen(c, p.line) && !HidesCr(c, p)
    ensures Shown(Do(c, p)) == Shown(c)
  {
    hide LineSet, Covers, OpenGap, Breaks, LineOf, AllFrozenTexts, Do, LineStart, TailLen, Visible, LineLen;
    var t := c.doc.text;
    InsertFace(c, p);
    OneBreak();
    FrozenCaret(t, p.line, p.col);
    if p.col >= LineLen(t, p.line) {
      BreakAfterFrozen(t, LineSet(c.frozen), p.line);
    } else {
      BreakBeforeFrozen(t, LineSet(c.frozen), p.line);
    }
  }

  lemma FrozenCaret(t: Text, line: nat, col: nat)
    requires line <= Breaks(t) && (col == 0 || col >= LineLen(t, line))
    ensures LineColToChar(t, line, col) == LineStart(t, line) + if col >= LineLen(t, line) then LineLen(t, line) else 0
  {
  }

  lemma DeleteKeeps(c: Core, p: Prim)
    requires PrimSound(c, p) && Sorted(c.frozen) && p.PDelete?
    ensures Shown(Do(c, p)) == Shown(c)
  {
    hide LineSet, CloseGap, Breaks, LineOf, AllFrozenTexts, Do;
    DeleteFace(c, p);
    DeleteOnEditable(c.doc.text, LineSet(c.frozen), p.s, p.e);
  }

  // --- The exception ---

  lemma {:induction false} TotalLenConcat(a: seq<Text>, b: seq<Text>)
    ensures TotalLen(a + b) == TotalLen(a) + TotalLen(b)
    decreases |b|
  {
    if b == [] {
      assert a + b == a;
    } else {
      FrontOfConcat(a, b);
      TotalLenConcat(a, b[..|b| - 1]);
    }
  }

  lemma {:induction false} LessText(t: Text, u: Text, f: set<nat>, at: nat, n: nat, upto: nat)
    requires at <= upto <= LineCount(t) && upto + n <= LineCount(u)
    requires TotalLen(FrozenTexts(u, OpenGap(f, at, n), at + n)) < TotalLen(FrozenTexts(t, f, at))
    requires forall l: nat :: at <= l < upto && l in f ==> Visible(u, l + n) == Visible(t, l)
    ensures TotalLen(FrozenTexts(u, OpenGap(f, at, n), upto + n)) < TotalLen(FrozenTexts(t, f, upto))
    decreases upto
  {
    hide Visible, Breaks, OpenGap, TotalLen;
    if at < upto {
      LessText(t, u, f, at, n, upto - 1);
      var g := OpenGap(f, at, n);
      InOpenGap(f, at, n, upto - 1 + n);
      TotalLenConcat(FrozenTexts(t, f, upto - 1), if upto - 1 in f then [Visible(t, upto - 1)] else []);
      TotalLenConcat(FrozenTexts(u, g, upto - 1 + n), if upto - 1 in f then [Visible(t, upto - 1)] else []);
    }
  }

  lemma OneText(v: Text)
    ensures TotalLen([v]) == |v|
  {
    assert [v][..0] == [];
  }

  /** Hiding a CR does change what is shown. */
  lemma HidingChanges(c: Core, p: Prim)
    requires PrimSound(c, p) && Sorted(c.frozen) && HidesCr(c, p)
    ensures Shown(Do(c, p)) != Shown(c)
  {
    hide LineSet, Covers, OpenGap, Breaks, LineOf, Do, LineStart, TailLen, LineLen, FrozenTexts, TotalLen, Visible;
    var t, f, line := c.doc.text, LineSet(c.frozen), p.line;
    InsertFace(c, p);
    OneBreak();
    FrozenCaret(t, line, p.col);
    BreakAfterFrozen(t, f, line);
    SetMatches(c.frozen, line);
    var i := LineStart(t, line) + LineLen(t, line);
    HiddenIsLess(t, t[..i] + ['\n'] + t[i..], f, line, i);
  }

  lemma HiddenIsLess(t: Text, u: Text, f: set<nat>, line: nat, i: nat)
    requires line <= Breaks(t) && line in f && i <= |t| && LineOf(t, i) == line
    requires u == t[..i] + ['\n'] + t[i..]
    requires LineCount(u) == LineCount(t) + 1 && |Visible(u, line)| < |Visible(t, line)|
    ensures TotalLen(AllFrozenTexts(u, OpenGap(f, line + 1, 1))) < TotalLen(AllFrozenTexts(t, f))
  {
    hide Visible, Breaks, OpenGap, TotalLen, LineOf;
    var g := OpenGap(f, line + 1, 1);
    var p, q, x := t[..i], t[i..], ['\n'];
    InsertPlace(t, i, x);
    OneBreak();
    forall l: nat | l < LineCount(t) && l != line
      ensures l < line ==> Visible(u, l) == Visible(t, l)
      ensures l > line ==> Visible(u, l + 1) == Visible(t, l)
    {
      VisibleAround(p, x, q, l);
    }
    forall l: nat
      ensures l <= line ==> (l in g <==> l in f)
    {
      InOpenGap(f, line + 1, 1, l);
    }
    SameTexts(u, t, g, f, line);
    OneText(Visible(u, line));
    OneText(Visible(t, line));
    TotalLenConcat(FrozenTexts(u, g, line), [Visible(u, line)]);
    TotalLenConcat(FrozenTexts(t, f, line), [Visible(t, line)]);
    InOpenGap(f, line + 1, 1, line + 1);
    NoneFrozen(u, g, line + 1, line + 2);
    LessText(t, u, f, line + 1, 1, LineCount(t));
  }

  /** A sound edit leaves the visible texts of the frozen lines as they are,
      exactly unless it hides a CR. */
  lemma EditKeepsFrozenTexts(c: Core, p: Prim)
    requires PrimSound(c, p) && Sorted(c.frozen) && IsEdit(p)
    ensures Shown(Do(c, p)) == Shown(c) <==> !HidesCr(c, p)
  {
    hide PrimSound, Shown, Do;
    if HidesCr(c, p) {
      HidingChanges(c, p);
    } else if p.PDelete? {
      DeleteKeeps(c, p);
    } else if IsFrozen(c, p.line) {
      TypedIsEditable(c, p);
      FrozenInsertKeeps(c, p);
    } else {
      PlainInsertKeeps(c, p);
    }
  }

  lemma TypedIsEditable(c: Core, p: Prim)
    requires PrimSound(c, p)
    ensures p.PTyped? ==> !IsFrozen(c, p.line)
  {
  }

  /** The text of the locked lines. */
  function LockedPrefix(c: Core): Text { c.doc.text[..LineStart(c.doc.text, c.lock)] }

  /** A sound edit leaves the locked prefix as it is. */
  lemma EditKeepsLockedPrefix(c: Core, p: Prim)
    requires PrimSound(c, p) && IsEdit(p) && Sorted(c.frozen)
    ensures Do(c, p).lock == c.lock && LockedPrefix(Do(c, p)) == LockedPrefix(c)
  {
    hide LineSet, Breaks, LineOf, Do, LineStart, TailLen, OpenGap, CloseGap, Meets, LineColToChar;
    var t := c.doc.text;
    EditKeepsLock(c, p);
    if p.PDelete? {
      DeleteFace(c, p);
      HeadBelow(t, Do(c, p).doc.text, p.s, c.lock);
    } else {
      InsertFace(c, p);
      HeadBelow(t, Do(c, p).doc.text, LineColToChar(t, p.line, p.col), c.lock);
    }
  }

  lemma EditKeepsLock(c: Core, p: Prim)
    requires PrimSound(c, p) && IsEdit(p)
    ensures Do(c, p).lock == c.lock
  {
    hide LineLen, Meets, RecordSplice, ShiftInsert, ShiftDelete, LineColToChar, LineOf;
  }

  /** Texts that agree up to a position agree on every line start before it. */
  lemma HeadBelow(t: Text, u: Text, i: nat, line: nat)
    requires i <= |t| && i <= |u| && t[..i] == u[..i] && line <= LineOf(t, i)
    ensures t[..LineStart(t, line)] == u[..LineStart(u, line)]
  {
    hide LineStart, Breaks;
    var p := t[..i];
    StartOfPrefix(p, t[i..], line);
    StartOfPrefix(p, u[i..], line);
    assert p + t[i..] == t && p + u[i..] == u;
  }

  // --- Groups, and the order of the frozen ranges ---

  lemma GroupingKeepsFace(c: Core, p: Prim)
    requires p.PBegin? || p.PEnd?
    ensures Shown(Do(c, p)) == Shown(c) && Do(c, p).lock == c.lock && LockedPrefix(Do(c, p)) == LockedPrefix(c)
  {
    hide AllFrozenTexts, LineSet, LineStart;
  }

  /** No action unsorts the frozen ranges, guarded or not. */
  lemma EditKeepsSorted(c: Core, p: Prim)
    requires Sorted(c.frozen) && !p.PStep?
    ensures Sorted(Do(c, p).frozen)
  {
    hide RecordSplice, LineColToChar, LineLen, Breaks, ShiftInsert, MapDelete;
    match p
    case PInsert(line, col, x) =>
      var q := CaretInsertPoint(c.doc.text, line, col);
      if Breaks(x) > 0 { ShiftInsertSorted(c.frozen, q.0, q.1, Breaks(x)); }
    case PTyped(line, col, x) =>
      if Breaks(x) > 0 {
        ShiftInsertSorted(c.frozen, line + 1, 0, Breaks(x));
        ShiftInsertSorted(c.frozen, line, col + LeadLen(x), Breaks(x));
      }
    case PDelete(s, e) =>
      var end := Min(e, |c.doc.text|);
      if s < end { NormalizeSorts(MapDelete(c.frozen, LineOf(c.doc.text, s), Breaks(c.doc.text[s..end]))); }
    case _ =>
  }

  /** Replaying history shifts does not unsort them either, whatever the shifts. */
  lemma {:induction false} ReplayKeepsSorted(c: Core, ops: seq<AnchorShift>)
    requires Sorted(c.frozen)
    ensures Sorted(ApplyShifts(c, ops).frozen)
    ensures Canonical(ReplayShifts(c, ops).frozen)
    decreases |ops|
  {
    hide ShiftInsert, MapDelete, Merge, Canonical;
    if ops != [] {
      match ops[0] {
        case Insert(line, col, nl) => if nl > 0 { ShiftInsertSorted(c.frozen, line, col, nl); }
        case Delete(line, col, nl) => NormalizeSorts(MapDelete(c.frozen, line, nl));
      }
      ReplayKeepsSorted(ApplyShift(c, ops[0]), ops[1..]);
    }
    MergeIsCanonical(ApplyShifts(c, ops).frozen);
  }

  /** The exception is real: a line break typed after the frozen last line
      "a" CR hides its CR. */
  lemma ACrCanBeHidden()
    ensures var c := Core(New(['a', '\r']).(pending := Some(Entry([], 0, 2, 0, 0, 0))), [Range(0, 1)], 0, [],
                          Anchors.EMPTY, map[], None, false);
            var p := PInsert(0, 2, ['\n']);
            CanInsertCharAt(c, 0, 2, '\n') && PrimSound(c, p) && Shown(Do(c, p)) != Shown(c)
  {
    var t := ['a', '\r'];
    var c := Core(New(t).(pending := Some(Entry([], 0, 2, 0, 0, 0))), [Range(0, 1)], 0, [],
                  Anchors.EMPTY, map[], None, false);
    var p := PInsert(0, 2, ['\n']);
    assert t[..1] == ['a'] && ['a'][..0] == [];
    assert Breaks(t) == 0 && TailLen(t) == 2 && LineLen(t, 0) == 2;
    assert c.frozen[..0] == [] && Covers(c.frozen, 0);
    assert CanInsertCharAt(c, 0, 2, '\n');
    GuardSaysInsertSound(c, 0, 2, '\n');
    NoBreaks(t);
    assert HidesCr(c, p);
    EditKeepsFrozenTexts(c, p);
  }
}
