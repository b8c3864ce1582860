// Byte offsets and tree-sitter points of a text, and how an inserted run
// advances a point.
module Points {
  import opened Lines

  /** Row and BYTE column within the row. */
  datatype Point = Point(row: nat, column: nat)

  datatype InputEdit = InputEdit(
    startByte: nat, oldEndByte: nat, newEndByte: nat,
    startPoint: Point, oldEndPoint: Point, newEndPoint: Point)

  /** Length of a character in UTF-8 (section 3 of RFC 3629). */
  function Utf8Len(c: char): nat {
    if c < '\U{80}' then 1 else if c < '\U{800}' then 2 else if c < '\U{10000}' then 3 else 4
  }

  function ByteLen(s: Text): nat {
    if s == [] then 0 else ByteLen(s[..|s| - 1]) + Utf8Len(s[|s| - 1])
  }

  /** Bytes after the last line break. */
  function ByteTail(s: Text): nat {
    if s == [] || s[|s| - 1] == '\n' then 0 else ByteTail(s[..|s| - 1]) + Utf8Len(s[|s| - 1])
  }

  /** The point of character index `i`: its row, and the bytes since the row's start. */
  function PointOf(t: Text, i: nat): Point
    requires i <= |t|
  {
    var row := LineOf(t, i);
    var start := LineStart(t, row);
    Point(row, if start <= i then ByteLen(t[start..i]) else 0)
  }

  function AdvancePoint(start: Point, text: Text): Point {
    var nl := Breaks(text);
    if nl == 0 then Point(start.row, start.column + ByteLen(text))
    else Point(start.row + nl, ByteTail(text))
  }

  lemma {:induction false} ByteLenConcat(a: Text, b: Text)
    ensures ByteLen(a + b) == ByteLen(a) + ByteLen(b)
    decreases |b|
  {
    if b == [] {
      assert a + b == a;
    } else {
      ByteLenConcat(a, b[..|b| - 1]);
      FrontOfConcat(a, b);
    }
  }

  lemma {:induction false} ByteTailConcat(a: Text, b: Text)
    ensures ByteTail(a + b) == if Breaks(b) == 0 then ByteTail(a) + ByteLen(b) else ByteTail(b)
    decreases |b|
  {
    if b == [] {
      assert a + b == a;
    } else {
      ByteTailConcat(a, b[..|b| - 1]);
      FrontOfConcat(a, b);
    }
  }

  lemma {:induction false} ByteTailIsLastLine(s: Text)
    ensures ByteTail(s) == ByteLen(s[|s| - TailLen(s)..])
  {
    if s != [] && s[|s| - 1] != '\n' {
      var u := s[..|s| - 1];
      ByteTailIsLastLine(u);
      var row := s[|s| - TailLen(s)..];
      assert row[..|row| - 1] == u[|u| - TailLen(u)..];
    }
  }

  /** The byte column of a position is the byte tail of the text before it. */
  lemma PointOfPrefix(t: Text, i: nat)
    requires i <= |t|
    ensures PointOf(t, i) == Point(Breaks(t[..i]), ByteTail(t[..i]))
  {
    hide Breaks, TailLen, LineStart, ByteTail, ByteLen;
    PositionOf(t, i);
    ByteTailIsLastLine(t[..i]);
    assert t[..i][i - TailLen(t[..i])..] == t[i - TailLen(t[..i])..i];
  }

  /** Advancing a point by a text gives the point just past that text. */
  lemma AdvancePointIsPoint(p: Text, x: Text, q: Text)
    ensures AdvancePoint(PointOf(p + x + q, |p|), x) == PointOf(p + x + q, |p| + |x|)
  {
    hide Breaks, TailLen, LineStart, ByteTail, ByteLen, PointOf;
    var t := p + x + q;
    assert t[..|p|] == p && t[..|p| + |x|] == p + x;
    PointOfPrefix(t, |p|);
    PointOfPrefix(t, |p| + |x|);
    BreaksConcat(p, x);
    ByteTailConcat(p, x);
  }
}
