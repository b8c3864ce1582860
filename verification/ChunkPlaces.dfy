// Where a chunk goes, told from the characters of the line its turn ends on.
module ChunkPlaces {
  import opened Lines
  import opened Options
  import opened Splices
  import opened DocModel
  import opened Ranges
  import opened Anchors
  import opened CoreModel
  import opened View
  import opened Whitespace
  import opened Chunks
  import opened FrozenText

  // --- Sentences ---

  /** The text is blank, or its last mark is one that ends a sentence, with
      nothing but closing markup and then white space after it. */
  ghost predicate SentenceEnd(v: Text) {
    || (forall i :: 0 <= i < |v| ==> IsSpace(v[i]))
    || exists k, m :: MarkAt(v, k, m)
  }

  predicate MarkAt(v: Text, k: int, m: int) {
    && 0 <= k < m <= |v| && v[k] in ['.', '!', '?', ':']
    && (forall i :: k < i < m ==> v[i] in CLOSERS)
    && (forall i :: m <= i < |v| ==> IsSpace(v[i]))
  }

  lemma {:induction false} TrimClosersIs(s: Text)
    ensures TrimClosers(s) <= s && (TrimClosers(s) != [] ==> TrimClosers(s)[|TrimClosers(s)| - 1] !in CLOSERS)
    ensures forall i :: |TrimClosers(s)| <= i < |s| ==> s[i] in CLOSERS
  {
    hide CLOSERS;
    if s != [] && s[|s| - 1] in CLOSERS {
      TrimClosersIs(s[..|s| - 1]);
    }
  }

  lemma MarksAreNoClosers()
    ensures '.' !in CLOSERS && '!' !in CLOSERS && '?' !in CLOSERS && ':' !in CLOSERS
    ensures forall c :: c in CLOSERS ==> !IsSpace(c)
    ensures !IsSpace('.') && !IsSpace('!') && !IsSpace('?') && !IsSpace(':')
  {
  }

  lemma FinishedIsSentenceEnd(v: Text)
    ensures Finished(v) <==> SentenceEnd(v)
  {
    hide Finished, SentenceEnd;
    if Finished(v) {
      FinishedEnds(v);
    }
    if SentenceEnd(v) {
      EndsFinished(v);
    }
  }

  lemma FinishedEnds(v: Text)
    requires Finished(v)
    ensures SentenceEnd(v)
  {
    hide TrimClosers, IsSpace, CLOSERS;
    var trimmed := TrimSpace(v);
    var bare := TrimClosers(trimmed);
    TrimClosersIs(trimmed);
    MarksAreNoClosers();
    if trimmed != [] {
      assert bare != [];
      assert MarkAt(v, |bare| - 1, |trimmed|);
    }
  }

  lemma EndsFinished(v: Text)
    requires SentenceEnd(v)
    ensures Finished(v)
  {
    hide TrimClosers, IsSpace, MarkAt, CLOSERS;
    var trimmed := TrimSpace(v);
    if trimmed != [] {
      assert !IsSpace(v[|trimmed| - 1]);
      var k, m :| MarkAt(v, k, m);
      LastInk(v, k, m);
      MarkIs(v, k, m);
      assert trimmed == v[..m];
      var bare := TrimClosers(trimmed);
      assert bare == v[..k + 1] && bare[|bare| - 1] == v[k];
      assert Finished(v);
    } else {
      assert TrimClosers([]) == [] by { TrimClosersIs([]); }
    }
  }

  lemma MarkIs(v: Text, k: int, m: int)
    requires MarkAt(v, k, m)
    ensures 0 <= k < m <= |v| && v[k] in ['.', '!', '?', ':']
  {
  }

  /** What trimming leaves of a text that ends a sentence. */
  lemma LastInk(v: Text, k: int, m: int)
    requires MarkAt(v, k, m)
    ensures TrimSpace(v) == v[..m] && TrimClosers(v[..m]) == v[..k + 1]
  {
    hide CLOSERS, TrimClosers, IsSpace;
    var trimmed := TrimSpace(v);
    var bare := TrimClosers(v[..m]);
    MarksAreNoClosers();
    TrimClosersIs(v[..m]);
    assert !IsSpace(v[m - 1]);
    assert |trimmed| == m;
    assert v[..m][k] == v[k];
    assert forall i :: k < i < m ==> v[..m][i] in CLOSERS;
    assert |bare| == k + 1;
  }

  // --- The natural place ---

  /** The position after the last visible character of a line. */
  function VisibleEndOf(t: Text, line: nat): nat
    requires line <= Breaks(t)
  {
    LineStart(t, line) + |Visible(t, line)|
  }

  lemma EndIsThere(t: Text, line: nat)
    requires line <= Breaks(t)
    ensures var i := LineColToChar(t, line, LineLen(t, line));
            && i == VisibleEndOf(t, line) <= |t| && LineLen(t, line) == |Visible(t, line)| <= i
            && t[i - LineLen(t, line)..i] == Visible(t, line)
  {
    hide Visible, LineStart, LineLen, Breaks;
    VisibleIsSlice(t, line);
  }

  /** The turn is in the middle of a sentence on its open last line, and the
      chunk does not begin with a line break: it goes on there. */
  ghost predicate GoesOn(c: Core, tag: Tag, chunk: Text, line: nat) {
    && c.tail == Some(line) && c.tailOpen && line <= Breaks(c.doc.text) && Tagged(c, line, tag)
    && chunk != [] && chunk[0] != '\n' && chunk[0] != '\r'
    && !SentenceEnd(Visible(c.doc.text, line))
  }

  /** The line the turn's text ends on: the cached one, if it is in the text
      and tagged for the turn, else the highest that is. */
  ghost predicate EndsOn(c: Core, tag: Tag, line: nat) {
    if c.tail.Some? && c.tail.value <= Breaks(c.doc.text) && Tagged(c, c.tail.value, tag) then c.tail == Some(line)
    else Highest(c, tag, line)
  }

  /** After a line: at the start of the next one, or at the end of the text if
      another turn has that one; at its own visible end if it is the last. */
  ghost function Behind(c: Core, tag: Tag, line: nat): nat
    requires line <= Breaks(c.doc.text)
  {
    var t := c.doc.text;
    var next := line + 1;
    if line == Breaks(t) then VisibleEndOf(t, line)
    else if exists g :: Tagged(c, next, g) && g != tag then |t|
    else LineStart(t, next)
  }

  lemma NaturalGoesOn(c: Core, tag: Tag, chunk: Text, line: nat)
    requires GoesOn(c, tag, chunk, line)
    ensures Natural(c, tag, chunk) == VisibleEndOf(c.doc.text, line)
  {
    hide Visible, LineStart, LineLen, Breaks, Finished, Tagged, FindPoint;
    EndIsThere(c.doc.text, line);
    FinishedIsSentenceEnd(Visible(c.doc.text, line));
  }

  lemma NaturalBehind(c: Core, tag: Tag, chunk: Text, line: nat)
    requires EndsOn(c, tag, line) && !GoesOn(c, tag, chunk, line) && line <= Breaks(c.doc.text) && chunk != []
    ensures Natural(c, tag, chunk) == Behind(c, tag, line)
  {
    hide Visible, LineStart, LineLen, Breaks, Finished, Tagged;
    var t := c.doc.text;
    EndIsThere(t, line);
    FinishedIsSentenceEnd(Visible(t, line));
    if line < Breaks(t) {
      NextStart(t, line);
    }
    if ValidTail(c, tag).None? {
      assert Highest(c, tag, line);
      OneHighest(c, tag, line);
    }
  }

  lemma NextStart(t: Text, line: nat)
    requires line < Breaks(t)
    ensures LineColToChar(t, line + 1, 0) == LineStart(t, line + 1)
  {
    hide LineStart, LineLen, Breaks;
  }

  lemma OneHighest(c: Core, tag: Tag, line: nat)
    requires Highest(c, tag, line)
    ensures forall l: nat :: Highest(c, tag, l) ==> l == line
  {
    hide Tagged;
  }

  lemma NaturalNowhere(c: Core, tag: Tag, chunk: Text)
    requires forall l: nat :: !Tagged(c, l, tag)
    ensures Natural(c, tag, chunk) == |c.doc.text|
  {
    hide Tagged, Finished;
  }

  // --- Under the floor ---

  /** The chunk is put at `n`, if that is above the floor or no draft is below
      it; else at the end of the line above the floor, if that is the open line
      of the turn; else on a line of its own at the floor. */
  ghost predicate Put(c: Core, tag: Tag, chunk: Text, floor: nat, n: nat, u: Text) {
    var t := c.doc.text;
    if floor >= |t| || n < floor then
      var at := Min(n, floor);
      at <= |t| && u == t[..at] + chunk + t[at..]
    else
      var top := LineOf(t, floor);
      if top > 0 && c.tailOpen && c.tail == Some(top - 1) && Tagged(c, top - 1, tag) then
        top <= Breaks(t)
        && var at := VisibleEndOf(t, top - 1);
           at <= |t| && u == t[..at] + chunk + t[at..]
      else u == t[..floor] + chunk + ['\n'] + t[floor..]
  }

  lemma WriteText(p: Pane, at: nat, tag: Tag, chunk: Text)
    requires at <= |p.core.doc.text| && Proper(p.core.anchors) && chunk != []
    ensures var t := p.core.doc.text;
            Write(p, at, tag, chunk).core.doc.text == t[..at] + chunk + t[at..]
  {
    hide InsertText, Stamp, Proper, MoveCaret;
    InsertedText(p.core, at, chunk);
    SpliceKeepsProper(p.core, at, chunk);
    var q := SpliceIn(p, at, chunk);
    var span := Span(q.core.doc.text, at, chunk);
    StampKeeps(q.core, span.0, span.1, tag);
  }

  lemma ChunkIsPut(p: Pane, tag: Tag, chunk: Text, floor: nat)
    requires Proper(p.core.anchors) && chunk != []
    ensures Put(p.core, tag, chunk, floor, Natural(p.core, tag, chunk), AppendChunk(p, tag, chunk, floor).core.doc.text)
  {
    hide Write, InsertText, Natural, Proper, Tagged, VisibleEndOf, LineStart, LineLen, LineOf, Breaks, MoveCaret;
    var t := p.core.doc.text;
    PointInText(p.core, tag, chunk, floor);
    if floor < |t| {
      FloorLine(t, floor);
    }
    match PlaceOf(p.core, tag, chunk, floor)
    case Point(at) => WriteText(p, at, tag, chunk);
    case Fresh(at) =>
      SpliceKeepsProper(p.core, at, ['\n']);
      InsertedText(p.core, at, ['\n']);
      var q := SpliceIn(p, at, ['\n']);
      WriteText(q, at, tag, chunk);
      OnFresh(t, q.core.doc.text, at, chunk);
  }

  lemma FloorLine(t: Text, floor: nat)
    requires floor < |t|
    ensures LineOf(t, floor) <= Breaks(t)
    ensures LineOf(t, floor) > 0 ==>
              LineColToChar(t, LineOf(t, floor) - 1, LineLen(t, LineOf(t, floor) - 1))
              == VisibleEndOf(t, LineOf(t, floor) - 1)
  {
    hide LineStart, LineLen, Breaks, VisibleEndOf, LineColToChar;
    PositionOf(t, floor);
    if LineOf(t, floor) > 0 {
      EndIsThere(t, LineOf(t, floor) - 1);
    }
  }

  lemma OnFresh(t: Text, u: Text, at: nat, chunk: Text)
    requires at <= |t| && u == t[..at] + ['\n'] + t[at..]
    ensures u[..at] + chunk + u[at..] == t[..at] + chunk + ['\n'] + t[at..]
  {
    assert u[..at] == t[..at] && u[at..] == ['\n'] + t[at..];
  }

  // --- Where a chunk goes ---

  /** A sentence cut in two by a tool call is put together again: the chunk goes
      right behind the last visible character of the turn's open line. */
  lemma SentenceGoesOn(p: Pane, tag: Tag, chunk: Text, floor: nat, line: nat)
    requires Proper(p.core.anchors) && GoesOn(p.core, tag, chunk, line)
    ensures Put(p.core, tag, chunk, floor, VisibleEndOf(p.core.doc.text, line),
                AppendChunk(p, tag, chunk, floor).core.doc.text)
  {
    hide Put, AppendChunk, GoesOn, VisibleEndOf, Natural, Proper;
    assert chunk != [] by { ChunkIsThere(p.core, tag, chunk, line); }
    NaturalGoesOn(p.core, tag, chunk, line);
    ChunkIsPut(p, tag, chunk, floor);
  }

  lemma ChunkIsThere(c: Core, tag: Tag, chunk: Text, line: nat)
    requires GoesOn(c, tag, chunk, line)
    ensures chunk != []
  {
  }

  /** Otherwise - the sentence is over, the line closed, or the chunk begins
      with a line break - it goes behind the line the turn ends on. */
  lemma ChunkGoesBehind(p: Pane, tag: Tag, chunk: Text, floor: nat, line: nat)
    requires Proper(p.core.anchors) && chunk != [] && line <= Breaks(p.core.doc.text)
    requires EndsOn(p.core, tag, line) && !GoesOn(p.core, tag, chunk, line)
    ensures Put(p.core, tag, chunk, floor, Behind(p.core, tag, line),
                AppendChunk(p, tag, chunk, floor).core.doc.text)
  {
    hide Put, AppendChunk, GoesOn, EndsOn, Behind, Natural, Proper;
    NaturalBehind(p.core, tag, chunk, line);
    ChunkIsPut(p, tag, chunk, floor);
  }

  /** The first chunk of a turn goes to the end of the text. */
  lemma FirstChunkGoesLast(p: Pane, tag: Tag, chunk: Text, floor: nat)
    requires Proper(p.core.anchors) && chunk != [] && forall l: nat :: !Tagged(p.core, l, tag)
    ensures Put(p.core, tag, chunk, floor, |p.core.doc.text|, AppendChunk(p, tag, chunk, floor).core.doc.text)
  {
    hide Put, AppendChunk, Natural, Proper;
    NaturalNowhere(p.core, tag, chunk);
    ChunkIsPut(p, tag, chunk, floor);
  }

  // --- What is remembered of it ---

  lemma LastCharLine(u: Text, at: nat, chunk: Text)
    requires chunk != [] && at + |chunk| <= |u| && u[at..at + |chunk|] == chunk
    ensures var span, last := Span(u, at, chunk), at + |chunk| - 1;
            span.0 < span.1 && span.1 - 1 == LineOf(u, last)
  {
    hide Breaks;
    var last: nat := at + |chunk| - 1;
    assert u[last] == chunk[|chunk| - 1];
    NextLine(u, last);
    assert u[..last] == u[..at] + u[at..last];
    BreaksConcat(u[..at], u[at..last]);
    var gone := u[at..last];
    assert u[..last + 1] == u[..at] + u[at..last + 1];
    BreaksConcat(u[..at], u[at..last + 1]);
    assert chunk == chunk[..|chunk| - 1] + [chunk[|chunk| - 1]];
    BreaksConcat(chunk[..|chunk| - 1], [chunk[|chunk| - 1]]);
    assert u[at..last + 1] == chunk && gone == chunk[..|chunk| - 1];
    NoBreaks([chunk[|chunk| - 1]]);
  }

  lemma WriteRemembers(p: Pane, at: nat, tag: Tag, chunk: Text)
    requires at <= |p.core.doc.text| && Proper(p.core.anchors) && chunk != []
    ensures var d := Write(p, at, tag, chunk).core;
            && at + |chunk| <= |d.doc.text|
            && d.tail == Some(LineOf(d.doc.text, at + |chunk| - 1))
            && (d.tailOpen <==> chunk[|chunk| - 1] != '\n')
  {
    hide InsertText, Stamp, Proper, MoveCaret, LineOf, Span;
    WriteText(p, at, tag, chunk);
    InsertedText(p.core, at, chunk);
    SpliceKeepsProper(p.core, at, chunk);
    var u := SpliceIn(p, at, chunk).core.doc.text;
    assert u[at..at + |chunk|] == chunk;
    LastCharLine(u, at, chunk);
    var span := Span(u, at, chunk);
    StampKeeps(SpliceIn(p, at, chunk).core, span.0, span.1, tag);
  }

  /** After a chunk the cached line is the one its last character is on, and it
      is open unless that is a line break. */
  lemma ChunkIsRemembered(p: Pane, tag: Tag, chunk: Text, floor: nat) returns (at: nat)
    requires Proper(p.core.anchors) && chunk != []
    ensures var t, d := p.core.doc.text, AppendChunk(p, tag, chunk, floor).core;
            && at <= |t| && at + |chunk| <= |d.doc.text|
            && (d.doc.text == t[..at] + chunk + t[at..] || d.doc.text == t[..at] + chunk + ['\n'] + t[at..])
            && d.tail == Some(LineOf(d.doc.text, at + |chunk| - 1))
            && (d.tailOpen <==> chunk[|chunk| - 1] != '\n')
  {
    hide Write, InsertText, PlaceOf, Proper, LineOf, MoveCaret;
    PointInText(p.core, tag, chunk, floor);
    match PlaceOf(p.core, tag, chunk, floor)
    case Point(i) =>
      at := i;
      WriteText(p, at, tag, chunk);
      WriteRemembers(p, at, tag, chunk);
    case Fresh(i) =>
      at := i;
      SpliceKeepsProper(p.core, at, ['\n']);
      InsertedText(p.core, at, ['\n']);
      var q := SpliceIn(p, at, ['\n']);
      WriteText(q, at, tag, chunk);
      WriteRemembers(q, at, tag, chunk);
      OnFresh(p.core.doc.text, q.core.doc.text, at, chunk);
  }
}
