// The text of a document and its line structure.  A text is a sequence of
// characters; a line break is '\n' and nothing else.
module Lines {
  type Text = seq<char>

  /** Number of line breaks in `s`. */
  function Breaks(s: Text): nat {
    if s == [] then 0
    else Breaks(s[..|s| - 1]) + if s[|s| - 1] == '\n' then 1 else 0
  }

  /** Number of characters after the last line break of `s`. */
  function TailLen(s: Text): (n: nat)
    ensures n <= |s|
  {
    if s == [] || s[|s| - 1] == '\n' then 0 else TailLen(s[..|s| - 1]) + 1
  }

  /** The lines of `t`, without their line breaks; always at least one. */
  function Split(t: Text): (ls: seq<Text>)
    ensures |ls| == Breaks(t) + 1
    ensures |ls[|ls| - 1]| == TailLen(t)
  {
    if t == [] then [[]]
    else
      var ls := Split(t[..|t| - 1]);
      if t[|t| - 1] == '\n' then ls + [[]]
      else ls[..|ls| - 1] + [ls[|ls| - 1] + [t[|t| - 1]]]
  }

  /** Glue two line lists: the last line of `a` runs on into the first of `b`. */
  function Glue(a: seq<Text>, b: seq<Text>): seq<Text>
    requires a != [] && b != []
  {
    a[..|a| - 1] + [a[|a| - 1] + b[0]] + b[1..]
  }

  function LineCount(t: Text): nat { Breaks(t) + 1 }

  function LineOf(t: Text, i: nat): nat
    requires i <= |t|
  {
    Breaks(t[..i])
  }

  function ColOf(t: Text, i: nat): nat
    requires i <= |t|
  {
    TailLen(t[..i])
  }

  /** Index of the first character of `line`; the end of the text past the last line. */
  function LineStart(t: Text, line: nat): (i: nat)
    ensures i <= |t|
    decreases |t|
  {
    if line > Breaks(t) then |t|
    else if line == Breaks(t) then |t| - TailLen(t)
    else LineStart(t[..|t| - 1], line)
  }

  /** Index just past the last character of `line` that is not its line break. */
  function LineEnd(t: Text, line: nat): int {
    if line < Breaks(t) then LineStart(t, line + 1) - 1 else |t|
  }

  /** Whether position `i` has nothing visible to its right on its line. */
  predicate AtVisibleEnd(t: Text, i: nat)
    requires i <= |t|
  {
    || i == |t|
    || t[i] == '\n'
    || (t[i] == '\r' && i + 1 < |t| && t[i + 1] == '\n')
  }

  /** Visible length: the line break is excluded, and so is a CR right before it. */
  function LineLen(t: Text, line: nat): nat {
    if line > Breaks(t) then 0
    else
      LineExtent(t, line);
      var s, e := LineStart(t, line), LineEnd(t, line);
      if line < Breaks(t) && s < e <= |t| && t[e - 1] == '\r' then e - s - 1 else e - s
  }

  /** The character index of a caret, clamped into the text. */
  function LineColToChar(t: Text, line: nat, col: nat): (i: nat)
    ensures i <= |t|
  {
    var l := if line > Breaks(t) then Breaks(t) else line;
    LineLenBounds(t, l);
    LineStart(t, l) + (if col < LineLen(t, l) then col else LineLen(t, l))
  }

  /** A non-empty sequence is its front and its last element. */
  lemma FrontAndLast<T>(s: seq<T>)
    requires s != []
    ensures s[..|s| - 1] + [s[|s| - 1]] == s
  {
  }

  lemma RestOfConcat<T>(a: seq<T>, b: seq<T>)
    requires a != []
    ensures (a + b)[1..] == a[1..] + b && (a + b)[0] == a[0]
  {
  }

  lemma FrontOfConcat<T>(a: seq<T>, b: seq<T>)
    requires b != []
    ensures a + b == (a + b[..|b| - 1]) + [b[|b| - 1]]
    ensures (a + b)[..|a + b| - 1] == a + b[..|b| - 1]
  {
  }

  // --- Breaks, TailLen and Split of a concatenation ---

  lemma {:induction false} BreaksConcat(a: Text, b: Text)
    ensures Breaks(a + b) == Breaks(a) + Breaks(b)
    decreases |b|
  {
    if b == [] {
      assert a + b == a;
    } else {
      BreaksConcat(a, b[..|b| - 1]);
      assert (a + b)[..|a + b| - 1] == a + b[..|b| - 1];
    }
  }

  lemma {:induction false} TailConcat(a: Text, b: Text)
    ensures TailLen(a + b) == if Breaks(b) == 0 then TailLen(a) + |b| else TailLen(b)
    decreases |b|
  {
    if b == [] {
      assert a + b == a;
    } else {
      TailConcat(a, b[..|b| - 1]);
      assert (a + b)[..|a + b| - 1] == a + b[..|b| - 1];
    }
  }

  /** How one more character extends the line list. */
  lemma SplitPush(a: Text, c: char)
    ensures Split(a + [c]) == Glue(Split(a), if c == '\n' then [[], []] else [[c]])
  {
    assert (a + [c])[..|a + [c]| - 1] == a;
    var ls := Split(a);
    if c == '\n' {
      var last := ls[|ls| - 1];
      assert last + [] == last;
      assert ls == ls[..|ls| - 1] + [last + []];
    }
  }

  lemma GlueAssoc(a: seq<Text>, b: seq<Text>, c: seq<Text>)
    requires a != [] && b != [] && c != []
    ensures Glue(Glue(a, b), c) == Glue(a, Glue(b, c))
  {
    var ab, bc := Glue(a, b), Glue(b, c);
    assert |Glue(ab, c)| == |Glue(a, bc)|;
    if |b| == 1 {
      assert a[|a| - 1] + (b[0] + c[0]) == (a[|a| - 1] + b[0]) + c[0];
      assert ab[..|ab| - 1] == a[..|a| - 1];
    } else {
      assert ab[..|ab| - 1] == a[..|a| - 1] + [a[|a| - 1] + b[0]] + b[1..|b| - 1];
      assert bc[1..] == b[1..|b| - 1] + [b[|b| - 1] + c[0]] + c[1..];
    }
  }

  lemma GlueEmpty(a: seq<Text>)
    requires a != []
    ensures Glue(a, [[]]) == a
  {
    var last := a[|a| - 1];
    assert last + [] == last;
  }

  lemma {:induction false} SplitConcat(a: Text, b: Text)
    ensures Split(a + b) == Glue(Split(a), Split(b))
    decreases |b|
  {
    if b == [] {
      assert a + b == a;
      GlueEmpty(Split(a));
    } else {
      var b', c := b[..|b| - 1], b[|b| - 1];
      SplitConcat(a, b');
      SplitConcatStep(a, b', c);
      FrontOfConcat(a, b);
      FrontAndLast(b);
    }
  }

  lemma SplitConcatStep(a: Text, b: Text, c: char)
    requires Split(a + b) == Glue(Split(a), Split(b))
    ensures Split((a + b) + [c]) == Glue(Split(a), Split(b + [c]))
  {
    hide Split;
    var ab := a + b;
    SplitPush(ab, c);
    SplitPush(b, c);
    GlueAssoc(Split(a), Split(b), if c == '\n' then [[], []] else [[c]]);
  }

  lemma {:induction false} NoBreaks(s: Text)
    ensures Breaks(s) == 0 <==> '\n' !in s
    ensures Breaks(s) == 0 ==> TailLen(s) == |s| && Split(s) == [s]
  {
    if s != [] {
      NoBreaks(s[..|s| - 1]);
      assert s == s[..|s| - 1] + [s[|s| - 1]];
      if Breaks(s) == 0 {
        assert Split(s) == [s];
      }
    }
  }

  lemma BreaksBound(t: Text, i: nat)
    requires i <= |t|
    ensures Breaks(t[..i]) + Breaks(t[i..]) == Breaks(t)
  {
    hide Breaks;
    BreaksConcat(t[..i], t[i..]);
    assert t == t[..i] + t[i..];
  }

  // --- Positions and lines ---

  /** A line start depends only on the text up to that line. */
  lemma {:induction false} StartOfPrefix(p: Text, q: Text, line: nat)
    requires line <= Breaks(p)
    ensures LineStart(p + q, line) == LineStart(p, line)
    decreases |q|
  {
    BreaksConcat(p, q);
    if q == [] {
      assert p + q == p;
    } else if line == Breaks(p + q) {
      TailConcat(p, q);
    } else {
      assert (p + q)[..|p + q| - 1] == p + q[..|q| - 1];
      StartOfPrefix(p, q[..|q| - 1], line);
    }
  }

  /** `(LineOf, ColOf)` are the coordinates of `i`. */
  lemma PositionOf(t: Text, i: nat)
    requires i <= |t|
    ensures LineOf(t, i) <= Breaks(t)
    ensures LineStart(t, LineOf(t, i)) + ColOf(t, i) == i
  {
    hide Breaks, TailLen;
    var p, q := t[..i], t[i..];
    BreaksBound(t, i);
    StartOfPrefix(p, q, Breaks(p));
    assert p + q == t;
  }

  /** A line starts right after a line break (or at 0), on itself, at column 0. */
  lemma {:induction false} StartPosition(t: Text, line: nat)
    requires line <= Breaks(t)
    ensures var s := LineStart(t, line);
            && LineOf(t, s) == line && ColOf(t, s) == 0
            && (s > 0 ==> t[s - 1] == '\n')
    decreases |t|
  {
    if line == Breaks(t) {
      LastLineStart(t);
    } else {
      var u := t[..|t| - 1];
      StartPosition(u, line);
      var s := LineStart(u, line);
      assert u[..s] == t[..s];
    }
  }

  lemma SlicesOfFront(t: Text, s: nat)
    requires t != [] && s < |t|
    ensures var u := t[..|t| - 1];
            u[..s] == t[..s] && t[s..] == u[s..] + [t[|t| - 1]]
  {
  }

  lemma {:induction false} LastLineClean(t: Text)
    ensures '\n' !in t[|t| - TailLen(t)..]
  {
    if t != [] && t[|t| - 1] != '\n' {
      LastLineClean(t[..|t| - 1]);
      SlicesOfFront(t, |t| - TailLen(t));
    }
  }

  lemma {:induction false} LastLineStart(t: Text)
    ensures var s := |t| - TailLen(t);
            && Breaks(t[..s]) == Breaks(t) && TailLen(t[..s]) == 0
            && (s > 0 ==> t[s - 1] == '\n')
            && '\n' !in t[s..]
  {
    LastLineClean(t);
    if t == [] || t[|t| - 1] == '\n' {
      assert t[..|t|] == t;
    } else {
      LastLineStart(t[..|t| - 1]);
      SlicesOfFront(t, |t| - TailLen(t));
    }
  }

  /** The extent of a line: it starts no later than it ends, holds no line break,
      and is followed by one exactly when it is not the last. */
  lemma {:induction false} LineExtent(t: Text, line: nat)
    requires line <= Breaks(t)
    ensures LineStart(t, line) <= LineEnd(t, line) <= |t|
    ensures '\n' !in t[LineStart(t, line)..LineEnd(t, line)]
    ensures line < Breaks(t) ==> LineEnd(t, line) < |t| && t[LineEnd(t, line)] == '\n'
    ensures line == Breaks(t) ==> LineEnd(t, line) == |t|
    decreases |t|
  {
    if line == Breaks(t) {
      LastLineStart(t);
    } else {
      var u, c := t[..|t| - 1], t[|t| - 1];
      assert t == u + [c];
      LineExtent(u, line);
      StartOfPrefix(u, [c], line);
      if line < Breaks(u) {
        StartOfPrefix(u, [c], line + 1);
      } else {
        assert c == '\n';
      }
      assert t[LineStart(t, line)..LineEnd(t, line)] == u[LineStart(u, line)..LineEnd(u, line)];
    }
  }

  /** Every position between a line's start and its end lies on that line. */
  lemma PositionOnLine(t: Text, line: nat, k: nat)
    requires line <= Breaks(t) && LineStart(t, line) + k <= LineEnd(t, line)
    ensures LineEnd(t, line) <= |t|
    ensures LineOf(t, LineStart(t, line) + k) == line
    ensures ColOf(t, LineStart(t, line) + k) == k
  {
    hide Breaks, TailLen, LineStart;
    LineExtent(t, line);
    StartPosition(t, line);
    var s := LineStart(t, line);
    var run := t[s..s + k];
    assert t[..s + k] == t[..s] + run;
    assert forall c :: c in run ==> c in t[s..LineEnd(t, line)];
    NoBreaks(run);
    BreaksConcat(t[..s], run);
    TailConcat(t[..s], run);
  }

  /** A position lies between the start and the end of its own line. */
  lemma PositionBeforeEnd(t: Text, i: nat)
    requires i <= |t|
    ensures LineOf(t, i) <= Breaks(t)
    ensures LineStart(t, LineOf(t, i)) <= i <= LineEnd(t, LineOf(t, i)) <= |t|
  {
    hide Breaks, TailLen, LineStart;
    PositionOf(t, i);
    var l := LineOf(t, i);
    LineExtent(t, l);
    if l < Breaks(t) && i > LineEnd(t, l) {
      var n := LineStart(t, l + 1);
      StartPosition(t, l + 1);
      assert t[..i] == t[..n] + t[n..i];
      BreaksConcat(t[..n], t[n..i]);
    }
  }

  lemma LineLenBounds(t: Text, line: nat)
    ensures line <= Breaks(t) ==> LineStart(t, line) + LineLen(t, line) <= LineEnd(t, line) <= |t|
    ensures line <= Breaks(t) ==> AtVisibleEnd(t, LineStart(t, line) + LineLen(t, line))
  {
    hide LineStart, Breaks, TailLen;
    if line <= Breaks(t) {
      LineExtent(t, line);
    }
  }

  /** A column is at or past the visible end exactly when the position it
      denotes has nothing visible to its right. */
  lemma VisibleEnd(t: Text, i: nat)
    requires i <= |t|
    ensures AtVisibleEnd(t, i) <==> ColOf(t, i) >= LineLen(t, LineOf(t, i))
  {
    hide Breaks, TailLen, LineStart;
    PositionOf(t, i);
    PositionBeforeEnd(t, i);
    var l := LineOf(t, i);
    LineExtent(t, l);
    var s, e := LineStart(t, l), LineEnd(t, l);
    if i < e {
      assert t[s..e][i - s] == t[i];
    }
    if i + 1 < e {
      assert t[s..e][i + 1 - s] == t[i + 1];
    }
  }

  /** A caret clamps to a position on its own line (the last line if it is
      below the text), at its own column or the visible end. */
  lemma CaretPosition(t: Text, line: nat, col: nat)
    ensures var i := LineColToChar(t, line, col);
            var l := if line > Breaks(t) then Breaks(t) else line;
            && LineOf(t, i) == l
            && ColOf(t, i) == (if col < LineLen(t, l) then col else LineLen(t, l))
            && (AtVisibleEnd(t, i) <==> col >= LineLen(t, l))
  {
    hide Breaks, TailLen, LineStart;
    hide AtVisibleEnd, LineLen, LineOf, ColOf;
    CaretOnLine(t, if line > Breaks(t) then Breaks(t) else line, col);
  }

  /** Inside a CR LF pair: the one kind of position no caret denotes. */
  predicate InsideBreak(t: Text, i: nat) {
    0 < i < |t| && t[i - 1] == '\r' && t[i] == '\n'
  }

  /** Any other position is the one its own coordinates denote. */
  lemma PositionRoundTrip(t: Text, i: nat)
    requires i <= |t| && !InsideBreak(t, i)
    ensures LineOf(t, i) <= Breaks(t) && ColOf(t, i) <= LineLen(t, LineOf(t, i))
    ensures LineColToChar(t, LineOf(t, i), ColOf(t, i)) == i
  {
    hide LineStart, Breaks, TailLen;
    PositionOf(t, i);
    PositionBeforeEnd(t, i);
    LineExtent(t, LineOf(t, i));
  }

  lemma CaretNotInside(t: Text, line: nat, col: nat)
    ensures !InsideBreak(t, LineColToChar(t, line, col))
  {
    hide LineLen, LineColToChar, LineStart;
    var i := LineColToChar(t, line, col);
    CaretPosition(t, line, col);
    if InsideBreak(t, i) {
      assert t[..i][..i - 1] == t[..i - 1];
      VisibleEnd(t, i - 1);
    }
  }

  lemma CaretOnLine(t: Text, l: nat, col: nat)
    requires l <= Breaks(t)
    ensures var k := if col < LineLen(t, l) then col else LineLen(t, l);
            var i := LineStart(t, l) + k;
            && i <= |t|
            && LineOf(t, i) == l && ColOf(t, i) == k
            && (AtVisibleEnd(t, i) <==> k == LineLen(t, l))
  {
    hide Breaks, TailLen, LineStart;
    LineLenBounds(t, l);
    var k := if col < LineLen(t, l) then col else LineLen(t, l);
    var i := LineStart(t, l) + k;
    PositionOnLine(t, l, k);
    VisibleEnd(t, i);
  }

  /** The raw content of a line, as a slice. */
  lemma {:induction false} SplitLine(t: Text, line: nat)
    requires line <= Breaks(t)
    ensures LineStart(t, line) <= LineEnd(t, line) <= |t|
    ensures Split(t)[line] == t[LineStart(t, line)..LineEnd(t, line)]
    decreases |t|
  {
    LineExtent(t, line);
    if t == [] {
    } else if line == Breaks(t) {
      LastLine(t);
    } else {
      EarlierLine(t, line);
      SplitLine(t[..|t| - 1], line);
    }
  }

  lemma {:induction false} LastLine(t: Text)
    ensures Split(t)[Breaks(t)] == t[|t| - TailLen(t)..]
  {
    if t != [] && t[|t| - 1] != '\n' {
      LastLine(t[..|t| - 1]);
    }
  }

  /** A line that is not the last is the same without the last character. */
  lemma EarlierLine(t: Text, line: nat)
    requires t != [] && line < Breaks(t)
    ensures var u := t[..|t| - 1];
            && line <= Breaks(u) && Split(u)[line] == Split(t)[line]
            && LineStart(u, line) == LineStart(t, line) && LineEnd(u, line) == LineEnd(t, line)
  {
    var u, c := t[..|t| - 1], t[|t| - 1];
    FrontAndLast(t);
    if line < Breaks(u) {
      StartOfPrefix(u, [c], line + 1);
    }
  }
}
