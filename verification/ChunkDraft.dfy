// The user's draft below streamed agent text: chunks floored at its top never
// reach into it.
module ChunkDraft {
  import opened Lines
  import opened Options
  import opened Splices
  import opened DocModel
  import opened Ranges
  import opened Anchors
  import opened CoreModel
  import opened View
  import opened Chunks

  predicate AtLineStart(t: Text, i: nat) {
    i <= |t| && (i == 0 || t[i - 1] == '\n')
  }

  /** No line from `top` on is frozen or tagged. */
  ghost predicate Untouched(c: Core, top: nat) {
    && (forall l: nat :: l >= top ==> !Covers(c.frozen, l))
    && (forall l: nat, g :: l >= top ==> !Tagged(c, l, g))
  }

  /** The text from `f` on is the user's: it starts a line, and none of its
      lines is frozen or tagged. */
  ghost predicate DraftFrom(c: Core, f: nat) {
    && f < |c.doc.text| && AtLineStart(c.doc.text, f)
    && Untouched(c, LineOf(c.doc.text, f))
  }

  ghost predicate Sound(c: Core) { Sorted(c.frozen) && Proper(c.anchors) }

  // --- Positions around an insert ---

  lemma PushedSlices(t: Text, at: nat, x: Text, i: nat)
    requires at <= i <= |t|
    ensures var u := t[..at] + x + t[at..];
            && u[i + |x|..] == t[i..] && u[..i + |x|] == (t[..at] + x) + t[at..i]
            && t[..i] == t[..at] + t[at..i]
            && (at < i ==> u[i + |x| - 1] == t[i - 1])
  {
  }

  lemma PushedText(t: Text, at: nat, x: Text, i: nat)
    requires at <= i <= |t|
    ensures var u := t[..at] + x + t[at..];
            && i + |x| <= |u| && u[i + |x|..] == t[i..]
            && LineOf(u, i + |x|) == LineOf(t, i) + Breaks(x)
            && (at < i ==> AtLineStart(u, i + |x|) == AtLineStart(t, i))
  {
    hide Breaks;
    PushedSlices(t, at, x, i);
    BreaksConcat(t[..at] + x, t[at..i]);
    BreaksConcat(t[..at], x);
    BreaksConcat(t[..at], t[at..i]);
  }

  lemma LinesAscend(t: Text, i: nat, k: nat)
    requires i <= k <= |t|
    ensures LineOf(t, i) <= LineOf(t, k)
    ensures i < k && t[k - 1] == '\n' ==> LineOf(t, i) < LineOf(t, k)
  {
    hide Breaks;
    if i < k {
      var m := k - 1;
      NextLine(t, m);
      assert t[..m] == t[..i] + t[i..m];
      BreaksConcat(t[..i], t[i..m]);
    }
  }

  // --- One splice ---

  /** A range list with nothing from `top` on ends there. */
  lemma EndsAbove(rs: seq<Range>, top: nat, i: nat)
    requires Sorted(rs) && i < |rs| && forall l: nat :: l >= top ==> !Covers(rs, l)
    ensures rs[i].e <= top
  {
    hide Covers;
    if rs[i].e > top {
      CoversIndex(rs, i, rs[i].e - 1);
    }
  }

  lemma {:induction false} ShiftEndsAbove(rs: seq<Range>, line: nat, col: nat, n: nat, top: nat, l: nat)
    requires forall i :: 0 <= i < |rs| ==> rs[i].e <= top
    requires l >= top + n
    ensures !Covers(ShiftInsert(rs, line, col, n), l)
  {
    hide Covers;
    if rs != [] {
      var init, r := rs[..|rs| - 1], rs[|rs| - 1];
      ShiftEndsAbove(init, line, col, n, top, l);
      CoversConcat(ShiftInsert(init, line, col, n), ShiftOneInsert(r, line, col, n), l);
      if Covers(ShiftOneInsert(r, line, col, n), l) {
        var k := HolderOf(ShiftOneInsert(r, line, col, n), l);
        assert false;
      }
    } else {
      if Covers([], l) {
        var k := HolderOf([], l);
        assert false;
      }
    }
  }

  lemma ShiftKeepsUntouched(c: Core, line: nat, col: nat, n: nat, top: nat)
    requires Sorted(c.frozen) && Untouched(c, top)
    ensures Untouched(ShiftFrozenAt(c, line, col, n), top + n)
  {
    hide Covers, Tagged, ShiftInsert, MapAtomicInsert;
    var d := ShiftFrozenAt(c, line, col, n);
    forall i | 0 <= i < |c.frozen|
      ensures c.frozen[i].e <= top
    {
      EndsAbove(c.frozen, top, i);
    }
    forall l: nat | l >= top + n
      ensures !Covers(d.frozen, l)
    {
      ShiftEndsAbove(c.frozen, line, col, n, top, l);
    }
    forall l: nat, g | l >= top + n
      ensures !Tagged(d, l, g)
    {
      if Tagged(d, l, g) {
        var k := TagBeforeShift(c, line, col, n, l, g);
        assert false;
      }
    }
  }

  /** A programmatic insert above (or right at) an untouched line leaves it untouched. */
  lemma InsertKeepsUntouched(c: Core, at: nat, x: Text, top: nat)
    requires Sound(c) && at <= |c.doc.text| && Untouched(c, top)
    ensures Sound(InsertText(c, at, x)) && Untouched(InsertText(c, at, x), top + Breaks(x))
  {
    hide Untouched, Breaks, LineLen, InsertNoUndo, ShiftFrozenAt;
    var q := CaretInsertPoint(c.doc.text, LineOf(c.doc.text, at), ColOf(c.doc.text, at));
    SpliceKeepsProper(c, at, x);
    var d := ShiftForInsert(c, LineOf(c.doc.text, at), ColOf(c.doc.text, at), x);
    if Breaks(x) > 0 {
      ShiftKeepsUntouched(c, q.0, q.1, Breaks(x), top);
      FrozenOfShift(c, q.0, q.1, Breaks(x));
    }
    TextDoesNotTouch(d, InsertNoUndo(c.doc, at, x), top + Breaks(x));
  }

  lemma FrozenOfShift(c: Core, line: nat, col: nat, n: nat)
    requires Sorted(c.frozen) && n > 0
    ensures Sorted(ShiftFrozenAt(c, line, col, n).frozen)
  {
    hide Sorted, ShiftInsert;
    ShiftInsertSorted(c.frozen, line, col, n);
  }

  lemma TextDoesNotTouch(c: Core, d: Doc, top: nat)
    requires Untouched(c, top)
    ensures Untouched(c.(doc := d), top)
  {
    hide Covers, Tagged;
    forall l: nat, g | l >= top
      ensures !Tagged(c.(doc := d), l, g)
    {
      SameTags(c, c.(doc := d), l, g);
    }
  }

  lemma StampKeepsUntouched(c: Core, s: nat, e: nat, tag: Tag, top: nat)
    requires Sound(c) && Untouched(c, top) && e <= top
    ensures Sound(Stamp(c, s, e, tag)) && Untouched(Stamp(c, s, e, tag), top)
  {
    hide Tagged, Stamp, Covers, Sorted, Add;
    StampKeeps(c, s, e, tag);
    AddSorts(c.frozen, s, e);
    forall l: nat | l >= top
      ensures !Covers(Stamp(c, s, e, tag).frozen, l)
    {
      StampMarks(c, s, e, tag, l, tag);
    }
    forall l: nat, g | l >= top
      ensures !Tagged(Stamp(c, s, e, tag), l, g)
    {
      StampMarks(c, s, e, tag, l, g);
    }
  }

  // --- One chunk ---

  /** What the chunk inserts, line breaks opened for it included, and where. */
  ghost predicate Grew(t: Text, u: Text, at: nat, x: Text) {
    at <= |t| && u == t[..at] + x + t[at..]
  }

  /** `u` from `g` on is `t` from `f` on. */
  ghost predicate Ends(u: Text, g: nat, t: Text, f: nat) {
    f <= |t| && g <= |u| && u[g..] == t[f..]
  }

  lemma EndsAgain(u: Text, g: nat, t: Text, f: nat, s: Text, e: nat)
    requires Ends(u, g, t, f) && Ends(t, f, s, e)
    ensures Ends(u, g, s, e)
  {
  }

  lemma EndsSize(u: Text, g: nat, t: Text, f: nat)
    requires Ends(u, g, t, f)
    ensures g + (|t| - f) == |u| && f <= |t|
  {
    assert |u[g..]| == |u| - g;
  }

  /** A chunk before a line break opened for it. */
  lemma GrewTwice(t: Text, t1: Text, u: Text, at: nat, chunk: Text)
    requires Grew(t, t1, at, ['\n']) && Grew(t1, u, at, chunk)
    ensures Grew(t, u, at, chunk + ['\n'])
  {
    assert t1[..at] == t[..at] && t1[at..] == ['\n'] + t[at..];
    assert t[..at] + chunk + (['\n'] + t[at..]) == t[..at] + (chunk + ['\n']) + t[at..];
  }

  /** Every line that holds a character of `[at, at + n)` is frozen and carries the tag. */
  ghost predicate Claimed(c: Core, at: nat, n: nat, tag: Tag)
    requires at + n <= |c.doc.text|
  {
    forall k :: at <= k < at + n ==>
      IsFrozen(c, LineOf(c.doc.text, k)) && Tagged(c, LineOf(c.doc.text, k), tag)
  }

  /** The chunk's lines, seen from a line start below it. */
  lemma SpanAbove(u: Text, at: nat, chunk: Text, f: nat)
    requires chunk != [] && at + |chunk| < f <= |u| && AtLineStart(u, f)
    ensures Span(u, at, chunk).1 <= LineOf(u, f)
  {
    hide Breaks;
    LinesAscend(u, at + |chunk|, f);
  }

  /** Every character of the chunk is on one of its lines. */
  lemma OnSpan(u: Text, at: nat, chunk: Text, k: nat)
    requires chunk != [] && at <= k < at + |chunk| <= |u| && u[at..at + |chunk|] == chunk
    ensures Span(u, at, chunk).0 <= LineOf(u, k) < Span(u, at, chunk).1
  {
    hide Breaks;
    assert u[at..at + |chunk|][|chunk| - 1] == u[at + |chunk| - 1];
    LinesAscend(u, at, k);
    LinesAscend(u, k, at + |chunk|);
  }

  lemma StampClaims(c: Core, at: nat, chunk: Text, tag: Tag)
    requires Sound(c) && chunk != [] && at + |chunk| <= |c.doc.text| && c.doc.text[at..at + |chunk|] == chunk
    ensures var span := Span(c.doc.text, at, chunk);
            var d := Stamp(c, span.0, span.1, tag);
            d.doc == c.doc && Claimed(d, at, |chunk|, tag)
  {
    hide LineOf, Stamp, Covers, Tagged, Span;
    var span := Span(c.doc.text, at, chunk);
    StampKeeps(c, span.0, span.1, tag);
    forall k | at <= k < at + |chunk|
      ensures IsFrozen(Stamp(c, span.0, span.1, tag), LineOf(c.doc.text, k))
      ensures Tagged(Stamp(c, span.0, span.1, tag), LineOf(c.doc.text, k), tag)
    {
      OnSpan(c.doc.text, at, chunk, k);
      StampMarks(c, span.0, span.1, tag, LineOf(c.doc.text, k), tag);
    }
  }

  /** What of a core decides drafts and claims: all but the cached tail. */
  lemma TailDoesNotMatter(c: Core, tail: Option<nat>, isOpen: bool, f: nat, at: nat, n: nat, tag: Tag)
    requires Sound(c) && DraftFrom(c, f) && at + n <= |c.doc.text| && Claimed(c, at, n, tag)
    ensures var d := c.(tail := tail, tailOpen := isOpen);
            Sound(d) && DraftFrom(d, f) && Claimed(d, at, n, tag)
  {
    hide Covers, Tagged, LineOf, Sorted;
    var d := c.(tail := tail, tailOpen := isOpen);
    forall l: nat, g
      ensures Tagged(d, l, g) <==> Tagged(c, l, g)
    {
      SameTags(c, d, l, g);
    }
  }

  /** A chunk written strictly above a draft: it stays above, line for line. */
  lemma WriteAbove(p: Pane, at: nat, tag: Tag, chunk: Text, f: nat)
    requires Sound(p.core) && DraftFrom(p.core, f) && at < f && chunk != []
    ensures var d := Write(p, at, tag, chunk).core;
            && Grew(p.core.doc.text, d.doc.text, at, chunk) && Ends(d.doc.text, f + |chunk|, p.core.doc.text, f)
            && Sound(d) && DraftFrom(d, f + |chunk|) && Claimed(d, at, |chunk|, tag)
  {
    hide Untouched, LineOf, InsertText, Stamp, Tagged, Sorted, Covers, Span, Claimed, AtLineStart, Proper, MoveCaret;
    var t := p.core.doc.text;
    var c := InsertText(p.core, at, chunk);
    var u := c.doc.text;
    InsertedText(p.core, at, chunk);
    PushedText(t, at, chunk, f);
    assert u[at..at + |chunk|] == chunk;
    InsertKeepsUntouched(p.core, at, chunk, LineOf(t, f));
    SpanAbove(u, at, chunk, f + |chunk|);
    var span := Span(u, at, chunk);
    StampKeepsUntouched(c, span.0, span.1, tag, LineOf(u, f + |chunk|));
    StampClaims(c, at, chunk, tag);
    var d := Stamp(c, span.0, span.1, tag);
    TailDoesNotMatter(d, Some(Sub(span.1, 1)), chunk[|chunk| - 1] != '\n', f + |chunk|, at, |chunk|, tag);
  }

  /** Opening a line break right at (or above) a line start of the draft. */
  lemma OpenAbove(p: Pane, at: nat, f: nat)
    requires Sound(p.core) && DraftFrom(p.core, at) && at <= f < |p.core.doc.text| && AtLineStart(p.core.doc.text, f)
    ensures var c := SpliceIn(p, at, ['\n']).core;
            && Grew(p.core.doc.text, c.doc.text, at, ['\n']) && Ends(c.doc.text, f + 1, p.core.doc.text, f)
            && Sound(c) && DraftFrom(c, f + 1)
  {
    hide Untouched, LineOf, InsertText, Tagged, Sorted, Covers, Proper, MoveCaret;
    var t := p.core.doc.text;
    InsertedText(p.core, at, ['\n']);
    PushedText(t, at, ['\n'], f);
    LinesAscend(t, at, f);
    UntouchedFrom(p.core, LineOf(t, at), LineOf(t, f));
    InsertKeepsUntouched(p.core, at, ['\n'], LineOf(t, f));
  }

  lemma UntouchedFrom(c: Core, top: nat, l: nat)
    requires Untouched(c, top) && top <= l
    ensures Untouched(c, l)
  {
    hide Covers, Tagged;
  }

  /** The end of a line's content is above the next line. */
  lemma ContentEnds(t: Text, line: nat, col: nat, f: nat)
    requires f <= |t| && line < LineOf(t, f)
    ensures LineColToChar(t, line, col) < f
  {
    hide LineStart, LineLen, LineOf, LineColToChar, Breaks;
    PositionOf(t, f);
    CaretPosition(t, line, col);
    if LineColToChar(t, line, col) >= f {
      LinesAscend(t, f, LineColToChar(t, line, col));
    }
  }

  /** A chunk is placed above its floor, or on a line opened there. */
  lemma PlacedAbove(c: Core, tag: Tag, chunk: Text, floor: nat)
    requires floor < |c.doc.text|
    ensures match PlaceOf(c, tag, chunk, floor)
            case Point(at) => at < floor
            case Fresh(at) => at == floor
  {
    hide LineLen, LineOf, LineColToChar, Natural, Tagged;
    var t := c.doc.text;
    if LineOf(t, floor) > 0 {
      ContentEnds(t, LineOf(t, floor) - 1, LineLen(t, LineOf(t, floor) - 1), floor);
    }
  }

  // --- Carets in the draft ---

  /** How far a caret is from the end of the text. */
  function FromEnd(t: Text, v: Caret): nat { |t| - CaretIndex(t, v) }

  lemma CaretMoves(t: Text, v: Caret, at: nat, x: Text)
    requires at <= CaretIndex(t, v) && (at == CaretIndex(t, v) ==> x == ['\n'])
    ensures FromEnd(t[..at] + x + t[at..], MoveCaret(t, v, at, x)) == FromEnd(t, v)
  {
    hide LineColToChar, LineOf, ColOf;
    var i := CaretIndex(t, v);
    var u := t[..at] + x + t[at..];
    CaretNotInside(t, v.line, v.col);
    assert !InsideBreak(u, i + |x|);
    PositionRoundTrip(u, i + |x|);
  }

  /** A caret in the last `n` characters keeps its place among them. */
  ghost predicate CaretsStay(p: Pane, q: Pane, n: nat) {
    var t, u := p.core.doc.text, q.core.doc.text;
    && (FromEnd(t, p.caret) <= n ==> FromEnd(u, q.caret) == FromEnd(t, p.caret))
    && (p.sel.Some? <==> q.sel.Some?)
    && (p.sel.Some? && FromEnd(t, p.sel.value) <= n ==> FromEnd(u, q.sel.value) == FromEnd(t, p.sel.value))
  }

  lemma SpliceMovesCarets(p: Pane, at: nat, x: Text, f: nat)
    requires at <= f <= |p.core.doc.text| && (at == f ==> x == ['\n'])
    ensures CaretsStay(p, SpliceIn(p, at, x), |p.core.doc.text| - f)
  {
    hide LineColToChar, CaretIndex, MoveCaret, InsertText;
    var t := p.core.doc.text;
    InsertedText(p.core, at, x);
    if CaretIndex(t, p.caret) >= f {
      CaretMoves(t, p.caret, at, x);
    }
    if p.sel.Some? && CaretIndex(t, p.sel.value) >= f {
      CaretMoves(t, p.sel.value, at, x);
    }
  }

  lemma WriteMovesCarets(p: Pane, at: nat, tag: Tag, chunk: Text, f: nat)
    requires Proper(p.core.anchors) && at < f <= |p.core.doc.text| && chunk != []
    ensures CaretsStay(p, Write(p, at, tag, chunk), |p.core.doc.text| - f)
  {
    hide Stamp, InsertText, MoveCaret, CaretIndex, Span;
    SpliceMovesCarets(p, at, chunk, f);
    SpliceKeepsProper(p.core, at, chunk);
    var c := SpliceIn(p, at, chunk).core;
    var span := Span(c.doc.text, at, chunk);
    StampKeeps(c, span.0, span.1, tag);
  }

  /** What one floored chunk does to the text: it goes in above the floor,
      followed by a line break when it had to open a line of its own. */
  ghost predicate Landed(t: Text, u: Text, at: nat, chunk: Text, floor: nat) {
    || (at < floor && Grew(t, u, at, chunk))
    || (at == floor && Grew(t, u, at, chunk + ['\n']))
  }

  /** One floored chunk: the text from `f` on comes out intact, still starting
      a line, still unfrozen and untagged; the chunk's lines are frozen and tagged. */
  lemma ChunkAbove(p: Pane, tag: Tag, chunk: Text, floor: nat, f: nat) returns (at: nat)
    requires Sound(p.core) && DraftFrom(p.core, floor) && chunk != []
    requires floor <= f < |p.core.doc.text| && AtLineStart(p.core.doc.text, f)
    ensures var t, d := p.core.doc.text, AppendChunk(p, tag, chunk, floor).core;
            var u := d.doc.text;
            && Landed(t, u, at, chunk, floor)
            && |t| - f <= |u| && Ends(u, |u| - (|t| - f), t, f)
            && Sound(d) && DraftFrom(d, |u| - (|t| - f))
            && Claimed(d, at, |chunk|, tag)
  {
    hide Untouched, LineOf, Write, PlaceOf, SpliceIn, Tagged, Sorted, Covers, Claimed, Proper, Grew, Ends;
    var t := p.core.doc.text;
    PlacedAbove(p.core, tag, chunk, floor);
    match PlaceOf(p.core, tag, chunk, floor)
    case Point(q) =>
      at := q;
      LinesAscend(t, floor, f);
      UntouchedFrom(p.core, LineOf(t, floor), LineOf(t, f));
      WriteAbove(p, at, tag, chunk, f);
      EndsSize(Write(p, at, tag, chunk).core.doc.text, f + |chunk|, t, f);
    case Fresh(q) =>
      at := q;
      OpenAbove(p, at, f);
      var onFresh := SpliceIn(p, at, ['\n']);
      WriteAbove(onFresh, at, tag, chunk, f + 1);
      var u := Write(onFresh, at, tag, chunk).core.doc.text;
      GrewTwice(t, onFresh.core.doc.text, u, at, chunk);
      EndsAgain(u, f + 1 + |chunk|, onFresh.core.doc.text, f + 1, t, f);
      EndsSize(u, f + 1 + |chunk|, t, f);
  }

  lemma ChunkMovesCarets(p: Pane, tag: Tag, chunk: Text, floor: nat, f: nat)
    requires Proper(p.core.anchors) && chunk != [] && floor <= f < |p.core.doc.text| && floor < |p.core.doc.text|
    ensures CaretsStay(p, AppendChunk(p, tag, chunk, floor), |p.core.doc.text| - f)
  {
    hide Write, PlaceOf, InsertText, FromEnd, Proper, MoveCaret;
    PlacedAbove(p.core, tag, chunk, floor);
    match PlaceOf(p.core, tag, chunk, floor)
    case Point(at) => WriteMovesCarets(p, at, tag, chunk, f);
    case Fresh(at) =>
      SpliceKeepsProper(p.core, at, ['\n']);
      InsertedText(p.core, at, ['\n']);
      SpliceMovesCarets(p, at, ['\n'], f);
      WriteMovesCarets(SpliceIn(p, at, ['\n']), at, tag, chunk, f + 1);
  }

  // --- A stream of chunks ---

  datatype Arrival = Arrival(tag: Tag, chunk: Text, floor: nat)

  lemma AppendKeepsProper(p: Pane, tag: Tag, chunk: Text, floor: nat)
    requires Proper(p.core.anchors)
    ensures Proper(AppendChunk(p, tag, chunk, floor).core.anchors)
  {
    hide Proper, PlaceOf, Write, InsertText;
    if chunk != [] {
      PointInText(p.core, tag, chunk, floor);
      match PlaceOf(p.core, tag, chunk, floor)
      case Point(at) => WriteKeepsProper(p, at, tag, chunk);
      case Fresh(at) =>
        SpliceKeepsProper(p.core, at, ['\n']);
        InsertedText(p.core, at, ['\n']);
        WriteKeepsProper(SpliceIn(p, at, ['\n']), at, tag, chunk);
    }
  }

  lemma WriteKeepsProper(p: Pane, at: nat, tag: Tag, chunk: Text)
    requires Proper(p.core.anchors) && at <= |p.core.doc.text| && chunk != []
    ensures Proper(Write(p, at, tag, chunk).core.anchors)
  {
    hide Proper, Stamp, InsertText, Span, MoveCaret;
    SpliceKeepsProper(p.core, at, chunk);
    var c := SpliceIn(p, at, chunk).core;
    var span := Span(c.doc.text, at, chunk);
    StampKeeps(c, span.0, span.1, tag);
  }

  ghost function Stream(p: Pane, steps: seq<Arrival>): Pane
    requires Proper(p.core.anchors)
    decreases |steps|
  {
    if steps == [] then p
    else
      AppendKeepsProper(p, steps[0].tag, steps[0].chunk, steps[0].floor);
      Stream(AppendChunk(p, steps[0].tag, steps[0].chunk, steps[0].floor), steps[1..])
  }

  /** Every chunk comes with a floor that no frozen or tagged line is below,
      at a line start no lower than the last `n` characters. */
  ghost predicate Floored(p: Pane, steps: seq<Arrival>, n: nat)
    requires Proper(p.core.anchors)
    decreases |steps|
  {
    steps == [] ||
    (var s := steps[0];
     AppendKeepsProper(p, s.tag, s.chunk, s.floor);
     && s.chunk != [] && DraftFrom(p.core, s.floor) && s.floor + n <= |p.core.doc.text|
     && Floored(AppendChunk(p, s.tag, s.chunk, s.floor), steps[1..], n))
  }

  /** Every chunk's lines are frozen and tagged as it arrives. */
  ghost predicate AllClaimed(p: Pane, steps: seq<Arrival>)
    requires Proper(p.core.anchors)
    decreases |steps|
  {
    steps == [] ||
    (var s := steps[0];
     AppendKeepsProper(p, s.tag, s.chunk, s.floor);
     var q := AppendChunk(p, s.tag, s.chunk, s.floor);
     && (exists at :: Landed(p.core.doc.text, q.core.doc.text, at, s.chunk, s.floor)
                      && Claimed(q.core, at, |s.chunk|, s.tag))
     && AllClaimed(q, steps[1..]))
  }

  /** Any sequence of floored chunks leaves the draft intact at the end of the
      text: on a line of its own, unfrozen and untagged, with the carets in it
      on their characters; every chunk's lines are frozen and tagged. */
  lemma {:induction false} DraftSurvives(p: Pane, steps: seq<Arrival>, n: nat)
    requires Sound(p.core) && 0 < n <= |p.core.doc.text| && DraftFrom(p.core, |p.core.doc.text| - n)
    requires Floored(p, steps, n)
    ensures var t, q := p.core.doc.text, Stream(p, steps);
            var u := q.core.doc.text;
            && n <= |u| && u[|u| - n..] == t[|t| - n..]
            && Sound(q.core) && DraftFrom(q.core, |u| - n)
            && CaretsStay(p, q, n)
            && AllClaimed(p, steps)
    decreases |steps|
  {
    hide DraftFrom, Sorted, Proper, AppendChunk, Landed, Claimed, FromEnd;
    if steps != [] {
      var s, t := steps[0], p.core.doc.text;
      DraftStartsLine(p.core, |t| - n);
      var at := ChunkAbove(p, s.tag, s.chunk, s.floor, |t| - n);
      ChunkMovesCarets(p, s.tag, s.chunk, s.floor, |t| - n);
      var q := AppendChunk(p, s.tag, s.chunk, s.floor);
      DraftSurvives(q, steps[1..], n);
    }
  }

  lemma DraftStartsLine(c: Core, f: nat)
    requires DraftFrom(c, f)
    ensures f < |c.doc.text| && AtLineStart(c.doc.text, f)
  {
  }

  /** The floor at the draft's own start is always good enough. */
  lemma OwnFloor(p: Pane, s: Arrival, n: nat)
    requires Proper(p.core.anchors)
    requires n <= |p.core.doc.text| && DraftFrom(p.core, |p.core.doc.text| - n)
    requires s.chunk != [] && s.floor == |p.core.doc.text| - n
    ensures Floored(p, [s], n)
  {
    hide DraftFrom, Proper, AppendChunk;
    AppendKeepsProper(p, s.tag, s.chunk, s.floor);
  }

  /** With no draft left (the floor at the end of the text) there is nothing to
      keep on a line of its own: a draft typed next starts a line exactly when
      the chunk went in above the end or closed its line. */
  lemma NoDraftNoLine(p: Pane, tag: Tag, chunk: Text, floor: nat)
    requires Proper(p.core.anchors) && chunk != []
    requires floor >= |p.core.doc.text| && AtLineStart(p.core.doc.text, |p.core.doc.text|)
    ensures var u := AppendChunk(p, tag, chunk, floor).core.doc.text;
            AtLineStart(u, |u|) <==> (Natural(p.core, tag, chunk) < |p.core.doc.text| || chunk[|chunk| - 1] == '\n')
  {
    hide Proper, Natural, Stamp, InsertText, MoveCaret, LineOf;
    var t := p.core.doc.text;
    PointInText(p.core, tag, chunk, floor);
    var at := PlaceOf(p.core, tag, chunk, floor).at;
    InsertedText(p.core, at, chunk);
    SpliceKeepsProper(p.core, at, chunk);
    var c := SpliceIn(p, at, chunk).core;
    var span := Span(c.doc.text, at, chunk);
    StampKeeps(c, span.0, span.1, tag);
    assert AppendChunk(p, tag, chunk, floor).core.doc.text == t[..at] + chunk + t[at..];
  }
}
