// Streaming agent text into the document: where a chunk goes, and what is
// frozen, tagged and cached for it.
module Chunks {
  import opened Lines
  import opened Options
  import opened Splices
  import opened DocModel
  import opened Ranges
  import opened Anchors
  import opened CoreModel
  import opened View
  import opened Whitespace

  /** An editor: the substrate with one view's caret and selection anchor. */
  datatype Pane = Pane(core: Core, caret: Caret, sel: Option<Caret>)

  // --- Tags ---

  /** The tag on a line. */
  ghost predicate Tagged(c: Core, line: nat, tag: Tag) {
    exists a :: AnchorAt(c.anchors, line, a) && a in c.meta && c.meta[a] == tag
  }

  /** `line` is the highest that carries `tag`. */
  ghost predicate Highest(c: Core, tag: Tag, line: nat) {
    Tagged(c, line, tag) && forall l :: l > line ==> !Tagged(c, l, tag)
  }

  /** Put a tag on a line, anchoring it if need be. */
  ghost function TagLine(c: Core, line: nat, tag: Tag): Core
    requires Proper(c.anchors)
  {
    AllocateKeepsProper(c.anchors, line);
    var st := Allocate(c.anchors, line);
    var a :| AnchorAt(st, line, a);
    c.(anchors := st, meta := c.meta[a := tag])
  }

  lemma TagLineProper(c: Core, line: nat, tag: Tag)
    requires Proper(c.anchors)
    ensures Proper(TagLine(c, line, tag).anchors)
    ensures TagLine(c, line, tag) == c.(anchors := Allocate(c.anchors, line), meta := TagLine(c, line, tag).meta)
  {
    AllocateKeepsProper(c.anchors, line);
  }

  /** Tag the lines `[s, e)`. */
  ghost function TagLines(c: Core, s: nat, e: nat, tag: Tag): Core
    requires Proper(c.anchors)
    decreases e - s
  {
    if s >= e then c
    else
      TagLineProper(c, s, tag);
      TagLines(TagLine(c, s, tag), s + 1, e, tag)
  }

  /** Tagging a line replaces its tag and leaves every other line's alone. */
  lemma TagLineTags(c: Core, line: nat, tag: Tag, l: nat, g: Tag)
    requires Proper(c.anchors)
    ensures Tagged(TagLine(c, line, tag), l, g) <==> if l == line then g == tag else Tagged(c, l, g)
  {
    AllocateKeepsProper(c.anchors, line);
    var d := TagLine(c, line, tag);
    var st := d.anchors;
    assert forall a :: a in c.anchors.lines ==> a in st.lines && st.lines[a] == c.anchors.lines[a];
    var own :| AnchorAt(st, line, own) && d.meta == c.meta[own := tag];
    if l == line {
      assert g == tag ==> AnchorAt(st, l, own) && own in d.meta && d.meta[own] == g;
    } else {
      if Tagged(c, l, g) {
        var a :| AnchorAt(c.anchors, l, a) && a in c.meta && c.meta[a] == g;
        assert AnchorAt(st, l, a) && a in d.meta && d.meta[a] == g;
      }
      if Tagged(d, l, g) {
        var a :| AnchorAt(st, l, a) && a in d.meta && d.meta[a] == g;
        assert AnchorAt(c.anchors, l, a) && a in c.meta && c.meta[a] == g;
      }
    }
  }

  /** Tagging lines `[s, e)` changes nothing else. */
  lemma {:induction false} TagLinesTags(c: Core, s: nat, e: nat, tag: Tag, l: nat, g: Tag)
    requires Proper(c.anchors)
    ensures Tagged(TagLines(c, s, e, tag), l, g) <==> if s <= l < e then g == tag else Tagged(c, l, g)
    decreases e - s
  {
    hide Tagged, TagLine;
    if s < e {
      TagLineProper(c, s, tag);
      TagLineTags(c, s, tag, l, g);
      TagLinesTags(TagLine(c, s, tag), s + 1, e, tag, l, g);
    }
  }

  lemma {:induction false} TagLinesProper(c: Core, s: nat, e: nat, tag: Tag)
    requires Proper(c.anchors)
    ensures var d := TagLines(c, s, e, tag);
            Proper(d.anchors) && d == c.(anchors := d.anchors, meta := d.meta)
    decreases e - s
  {
    hide TagLine;
    if s < e {
      TagLineProper(c, s, tag);
      TagLinesProper(TagLine(c, s, tag), s + 1, e, tag);
    }
  }

  lemma SameTags(c: Core, d: Core, l: nat, g: Tag)
    requires c.anchors == d.anchors && c.meta == d.meta
    ensures Tagged(c, l, g) <==> Tagged(d, l, g)
  {
  }

  /** Where a tag was before lines were inserted. */
  lemma TagBeforeShift(c: Core, line: nat, col: nat, n: nat, l: nat, g: Tag) returns (k: nat)
    requires Tagged(ShiftFrozenAt(c, line, col, n), l, g)
    ensures Tagged(c, k, g) && l == ShiftLine(k, FirstMoved(line, col), n)
  {
    var d := ShiftFrozenAt(c, line, col, n);
    var a :| AnchorAt(d.anchors, l, a) && a in d.meta && d.meta[a] == g;
    k := c.anchors.lines[a];
    assert AnchorAt(c.anchors, k, a);
  }

  // --- Programmatic splices ---

  function InsertText(c: Core, at: nat, x: Text): Core {
    var i := Min(at, |c.doc.text|);
    ShiftForInsert(c, LineOf(c.doc.text, i), ColOf(c.doc.text, i), x).(doc := InsertNoUndo(c.doc, at, x))
  }

  function DeleteText(c: Core, start: nat, end: nat): Core {
    var s, e := Min(start, |c.doc.text|), Min(end, |c.doc.text|);
    if s >= e then c
    else ShiftForDelete(c, s, e).(doc := DeleteNoUndo(c.doc, s, e))
  }

  function Freeze(c: Core, s: nat, e: nat): Core { c.(frozen := Add(c.frozen, s, e)) }

  function MoveCaret(t: Text, v: Caret, at: nat, x: Text): Caret {
    var i := CaretIndex(t, v);
    if at <= i && at <= |t| then CaretAt(t[..at] + x + t[at..], i + |x|) else v
  }

  /** A programmatic insert that keeps caret and selection on their characters. */
  function SpliceIn(p: Pane, at: nat, x: Text): Pane {
    var t := p.core.doc.text;
    Pane(InsertText(p.core, at, x), MoveCaret(t, p.caret, at, x),
         if p.sel.Some? then Some(MoveCaret(t, p.sel.value, at, x)) else None)
  }

  // --- Where a chunk goes ---

  /** Markup that may follow a sentence's last mark. */
  const CLOSERS: Text := "*_`~)]}\"'\U{BB}\U{201D}\U{2019}"

  function TrimClosers(s: Text): Text {
    if s != [] && s[|s| - 1] in CLOSERS then TrimClosers(s[..|s| - 1]) else s
  }

  /** Whether the text ends a sentence, closing markup aside; also if blank. */
  predicate Finished(content: Text) {
    var trimmed := TrimSpace(content);
    var bare := TrimClosers(trimmed);
    var ends := if bare != [] then bare else trimmed;
    ends == [] || ends[|ends| - 1] in ['.', '!', '?', ':']
  }

  /** The cached tail line, if it is in the document and carries the tag. */
  ghost function ValidTail(c: Core, tag: Tag): Option<nat> {
    if c.tail.Some? && c.tail.value < LineCount(c.doc.text) && Tagged(c, c.tail.value, tag) then c.tail else None
  }

  /** The end of the open tail line, if the chunk goes on with its sentence. */
  ghost function RejoinPoint(c: Core, tag: Tag, chunk: Text): Option<nat> {
    var t := c.doc.text;
    var line := ValidTail(c, tag);
    if !c.tailOpen || line.None? || chunk == [] || chunk[0] == '\n' || chunk[0] == '\r' then None
    else
      var len := LineLen(t, line.value);
      var i := LineColToChar(t, line.value, len);
      if len == 0 || i < len || Finished(t[i - len..i]) then None else Some(i)
  }

  /** The line the turn's text ends on: the cached tail, else the highest tagged line. */
  ghost function TurnTail(c: Core, tag: Tag): Option<nat> {
    if ValidTail(c, tag).Some? then ValidTail(c, tag)
    else if l: nat :| Highest(c, tag, l) then Some(l)
    else None
  }

  ghost predicate TaggedOther(c: Core, line: nat, tag: Tag) {
    exists g :: g != tag && Tagged(c, line, g)
  }

  ghost function FindPoint(c: Core, tag: Tag): nat {
    var t := c.doc.text;
    match TurnTail(c, tag)
    case None => |t|
    case Some(line) =>
      if line < Breaks(t) then
        if TaggedOther(c, line + 1, tag) then |t| else LineColToChar(t, line + 1, 0)
      else LineColToChar(t, line, LineLen(t, line))
  }

  ghost function Natural(c: Core, tag: Tag, chunk: Text): nat {
    var r := RejoinPoint(c, tag, chunk);
    if r.Some? then r.value else FindPoint(c, tag)
  }

  /** How a chunk is placed: on a fresh line opened at the floor, or at a point. */
  datatype Place = Fresh(floor: nat) | Point(at: nat)

  ghost function PlaceOf(c: Core, tag: Tag, chunk: Text, floor: nat): Place {
    var t := c.doc.text;
    var natural := Natural(c, tag, chunk);
    if floor >= |t| || natural < floor then Point(Min(natural, floor))
    else
      var top := LineOf(t, floor);
      if top > 0 && c.tailOpen && c.tail == Some(top - 1) && Tagged(c, top - 1, tag)
      then Point(LineColToChar(t, top - 1, LineLen(t, top - 1)))
      else Fresh(floor)
  }

  /** Freeze and tag lines `[s, e)`. */
  ghost function Stamp(c: Core, s: nat, e: nat, tag: Tag): Core
    requires Proper(c.anchors)
  {
    TagLines(Freeze(c, s, e), s, e, tag)
  }

  lemma StampMarks(c: Core, s: nat, e: nat, tag: Tag, l: nat, g: Tag)
    requires Proper(c.anchors) && Sorted(c.frozen)
    ensures var d := Stamp(c, s, e, tag);
            && (Covers(d.frozen, l) <==> Covers(c.frozen, l) || s <= l < e)
            && (Tagged(d, l, g) <==> if s <= l < e then g == tag else Tagged(c, l, g))
  {
    hide Covers, Tagged, TagLines, Add;
    TagLinesProper(Freeze(c, s, e), s, e, tag);
    AddCovers(c.frozen, s, e, l);
    TagLinesTags(Freeze(c, s, e), s, e, tag, l, g);
    SameTags(c, Freeze(c, s, e), l, g);
  }

  lemma StampKeeps(c: Core, s: nat, e: nat, tag: Tag)
    requires Proper(c.anchors)
    ensures var d := Stamp(c, s, e, tag);
            && Proper(d.anchors)
            && d == c.(frozen := Add(c.frozen, s, e), anchors := d.anchors, meta := d.meta)
  {
    hide TagLines, Add;
    TagLinesProper(Freeze(c, s, e), s, e, tag);
  }

  /** The lines a chunk at `at` writes, once it is in the text: those that hold
      a character of it. */
  function Span(t: Text, at: nat, chunk: Text): (nat, nat)
    requires chunk != []
  {
    var closed := chunk[|chunk| - 1] == '\n';
    (LineOf(t, Min(at, |t|)), LineOf(t, Min(at + |chunk|, |t|)) + if closed then 0 else 1)
  }

  /** Insert the chunk, freeze and tag its lines, remember the last one. */
  ghost function Write(p: Pane, at: nat, tag: Tag, chunk: Text): Pane
    requires at <= |p.core.doc.text| && Proper(p.core.anchors) && chunk != []
  {
    var q := SpliceIn(p, at, chunk);
    var span := Span(q.core.doc.text, at, chunk);
    SpliceKeepsProper(p.core, at, chunk);
    var stamped := Stamp(q.core, span.0, span.1, tag);
    q.(core := if span.0 < span.1
               then stamped.(tail := Some(span.1 - 1), tailOpen := chunk[|chunk| - 1] != '\n')
               else stamped)
  }

  lemma SpliceKeepsProper(c: Core, at: nat, x: Text)
    requires Proper(c.anchors)
    ensures Proper(InsertText(c, at, x).anchors)
  {
    hide LineLen, InsertNoUndo;
    var i := Min(at, |c.doc.text|);
    var q := CaretInsertPoint(c.doc.text, LineOf(c.doc.text, i), ColOf(c.doc.text, i));
    InsertKeepsProper(c.anchors, q.0, q.1, Breaks(x));
  }

  /** Append a chunk of the turn `tag`, never below `floor`. */
  ghost function AppendChunk(p: Pane, tag: Tag, chunk: Text, floor: nat): Pane
    requires Proper(p.core.anchors)
  {
    if chunk == [] then p
    else
      match PlaceOf(p.core, tag, chunk, floor)
      case Point(at) => PointInText(p.core, tag, chunk, floor); Write(p, at, tag, chunk)
      case Fresh(at) =>
        SpliceKeepsProper(p.core, at, ['\n']);
        InsertedText(p.core, at, ['\n']);
        Write(SpliceIn(p, at, ['\n']), at, tag, chunk)
  }

  lemma PointInText(c: Core, tag: Tag, chunk: Text, floor: nat)
    ensures match PlaceOf(c, tag, chunk, floor)
            case Point(at) => at <= |c.doc.text|
            case Fresh(at) => at < |c.doc.text|
  {
    hide LineLen, LineOf, Tagged, Highest, TaggedOther, Finished, LineColToChar;
  }

  /** Past the end of the text means at its end. */
  lemma InsertClamps(c: Core, at: nat, x: Text)
    ensures InsertText(c, at, x) == InsertText(c, Min(at, |c.doc.text|), x)
  {
    hide ShiftForInsert, ShiftEntries, EditOf;
  }

  lemma InsertedText(c: Core, at: nat, x: Text)
    requires at <= |c.doc.text|
    ensures InsertText(c, at, x).doc.text == c.doc.text[..at] + x + c.doc.text[at..]
  {
    hide ShiftForInsert, ShiftEntries, EditOf;
  }
}
