// Highlighting markdown source line by line, with the state of fenced code
// blocks carried from line to line.
module Highlight {
  import opened Options
  import opened Utf8
  import opened Inline

  /** Whether a fenced code block is open, and its language. */
  datatype Fence = Fence(inFence: bool, lang: Option<Bytes>)

  const NO_FENCE := Fence(false, None)

  /** A syntax colourer: segments of a line in a language, if it knows it. */
  type Painter = (Bytes, Bytes) -> Option<seq<Segment>>

  const HASH: Byte := 35
  const SPACE: Byte := 32
  const GREATER: Byte := 62
  const DASH: Byte := 45
  const PLUS: Byte := 43
  const DOT: Byte := 46
  const BULLET: Bytes := [0xE2, 0x80, 0xA2, 32]

  // --- Fences ---

  function RunLen(s: Bytes, b: Byte): (n: nat)
    ensures n <= |s| && forall i :: 0 <= i < n ==> s[i] == b
    ensures n < |s| ==> s[n] != b
  {
    if s == [] || s[0] != b then 0 else 1 + RunLen(s[1..], b)
  }

  predicate IsFence(line: Bytes) {
    var t := TrimStart(line);
    |t| >= 3 && (t[..3] == [BACKTICK, BACKTICK, BACKTICK] || t[..3] == [TILDE, TILDE, TILDE])
  }

  /** The language of an opening fence: the first word after its marker. */
  function LangOf(line: Bytes): Option<Bytes>
    requires IsFence(line)
  {
    var t := TrimStart(line);
    var word := FirstWord(TrimEnd(TrimStart(t[RunLen(t, t[0])..])));
    if word == [] then None else Some(word)
  }

  function AdvanceFence(line: Bytes, f: Fence): Fence {
    if f.inFence then
      if IsFence(line) then Fence(false, None) else Fence(true, f.lang)
    else if IsFence(line) then Fence(true, LangOf(line))
    else Fence(false, None)
  }

  // --- One line outside a fence ---

  function TryHeading(line: Bytes, strip: bool): Option<seq<Segment>> {
    var t := TrimStart(line);
    var h := RunLen(t, HASH);
    if h == 0 || h > 6 || (h < |t| && t[h] != SPACE) then None
    else
      var rest := t[h..];
      Some([Segment(if !strip then line else if rest != [] && rest[0] == SPACE then rest[1..] else rest, Heading(h))])
  }

  predicate IsHorizontalRule(line: Bytes) {
    var t := TrimEnd(TrimStart(line));
    && |t| >= 3 && (t[0] == DASH || t[0] == STAR || t[0] == UNDERSCORE)
    && forall i :: 0 <= i < |t| ==> t[i] == t[0] || t[i] == SPACE
  }

  /** Length of a run of `>`, each with at most one space after it, from `i` on. */
  function QuoteEnd(s: Bytes, i: nat): (e: nat)
    requires i <= |s|
    ensures i <= e <= |s|
    ensures e > i ==> s[e - 1] == GREATER || s[e - 1] == SPACE
    decreases |s| - i
  {
    if i < |s| && s[i] == GREATER then QuoteEnd(s, if i + 1 < |s| && s[i + 1] == SPACE then i + 2 else i + 1)
    else i
  }

  predicate IsDigit(b: Byte) { 48 <= b <= 57 }

  function DigitsLen(s: Bytes): (n: nat)
    ensures n <= |s| && forall i :: 0 <= i < n ==> IsDigit(s[i])
  {
    if s == [] || !IsDigit(s[0]) then 0 else 1 + DigitsLen(s[1..])
  }

  /** Length of a list marker with its space: a bullet, or digits and `.` or `)`. */
  function MarkerLen(s: Bytes): (r: Option<nat>)
    ensures r.Some? ==> 2 <= r.value <= |s| && s[r.value - 1] == SPACE && s[0] < 0x80
  {
    if |s| >= 2 && (s[0] == DASH || s[0] == STAR || s[0] == PLUS) && s[1] == SPACE then Some(2)
    else
      var d := DigitsLen(s);
      if d > 0 && d + 1 < |s| && (s[d] == DOT || s[d] == CLOSE_PAREN) && s[d + 1] == SPACE then Some(d + 2) else None
  }

  function Slant(segs: seq<Segment>): seq<Segment> {
    seq(|segs|, i requires 0 <= i < |segs| => segs[i].(style := Slanted(segs[i].style)))
  }

  /** The part of a line after its leading white space. */
  function Body(rest: Bytes, strip: bool): seq<Segment> {
    var q := QuoteEnd(rest, 0);
    if q > 0 then
      Slant((if strip then [] else [Segment(rest[..q], QuoteBar)]) + InlineSegments(rest[q..], QuoteText, strip))
    else
      var m := MarkerLen(rest);
      if m.Some? then
        [Segment(if strip && !IsDigit(rest[0]) then BULLET else rest[..m.value], ListMarker)]
        + InlineSegments(rest[m.value..], Paragraph, strip)
      else InlineSegments(rest, Paragraph, strip)
  }

  function SourceLine(line: Bytes, strip: bool): seq<Segment> {
    if line == [] then [Segment([], Paragraph)]
    else if TryHeading(line, strip).Some? then TryHeading(line, strip).value
    else if IsHorizontalRule(line) then [Segment(line, Rule)]
    else
      var ws := LeadingSpace(line);
      (if ws > 0 then [Segment(line[..ws], Paragraph)] else []) + Body(line[ws..], strip)
  }

  // --- Any line ---

  /** A line's segments, and the fence state after it. */
  function OneLine(line: Bytes, f: Fence, strip: bool, hl: Option<Painter>): (seq<Segment>, Fence) {
    if f.inFence then
      if IsFence(line) then ([Segment(if strip then [] else line, FenceMark)], Fence(false, None))
      else
        var painted := if hl.Some? && f.lang.Some? then hl.value(f.lang.value, line) else None;
        (if painted.Some? then painted.value else [Segment(line, CodeText)], Fence(true, f.lang))
    else if IsFence(line) then ([Segment(if strip then [] else line, FenceMark)], Fence(true, LangOf(line)))
    else (SourceLine(line, strip), Fence(false, None))
  }

  function AllLines(lines: seq<Bytes>, f: Fence, strip: bool, hl: Option<Painter>): seq<seq<Segment>> {
    if lines == [] then []
    else
      var one := OneLine(lines[0], f, strip, hl);
      [one.0] + AllLines(lines[1..], one.1, strip, hl)
  }

  /** The fence state carried over some lines without highlighting them. */
  function Carry(lines: seq<Bytes>, f: Fence): Fence {
    if lines == [] then f else Carry(lines[1..], AdvanceFence(lines[0], f))
  }

  method HighlightLines(lines: seq<Bytes>, strip: bool, hl: Option<Painter>) returns (out: seq<seq<Segment>>)
    ensures out == AllLines(lines, NO_FENCE, strip, hl)
  {
    hide OneLine;
    out := [];
    var fence := NO_FENCE;
    for i := 0 to |lines|
      invariant out + AllLines(lines[i..], fence, strip, hl) == AllLines(lines, NO_FENCE, strip, hl)
    {
      assert lines[i..][1..] == lines[i + 1..];
      var (segs, next) := OneLine(lines[i], fence, strip, hl);
      fence := next;
      out := out + [segs];
    }
  }

  method QuotePrefixLen(s: Bytes) returns (i: nat)
    ensures i == QuoteEnd(s, 0)
    ensures i <= |s| && (i == 0 <==> s == [] || s[0] != GREATER)
  {
    i := 0;
    while i < |s| && s[i] == GREATER
      invariant i <= |s| && QuoteEnd(s, 0) == QuoteEnd(s, i)
      invariant i == 0 || s[0] == GREATER
    {
      i := i + 1;
      if i < |s| && s[i] == SPACE {
        i := i + 1;
      }
    }
  }

  // --- Carried state ---

  /** The state carried without highlighting is the one highlighting returns. */
  lemma FenceAgrees(line: Bytes, f: Fence, strip: bool, hl: Option<Painter>)
    ensures OneLine(line, f, strip, hl).1 == AdvanceFence(line, f)
  {
  }

  /** Resuming in the middle with the carried state gives the batch result. */
  lemma {:induction false} ResumingIsBatch(a: seq<Bytes>, b: seq<Bytes>, f: Fence, strip: bool, hl: Option<Painter>)
    ensures AllLines(a + b, f, strip, hl) == AllLines(a, f, strip, hl) + AllLines(b, Carry(a, f), strip, hl)
    decreases |a|
  {
    hide OneLine, AdvanceFence;
    if a == [] {
      assert a + b == b;
    } else {
      assert (a + b)[1..] == a[1..] + b && (a + b)[0] == a[0];
      FenceAgrees(a[0], f, strip, hl);
      ResumingIsBatch(a[1..], b, AdvanceFence(a[0], f), strip, hl);
    }
  }

  // --- Nothing is lost ---

  lemma SlantConcat(segs: seq<Segment>)
    ensures Concat(Slant(segs)) == Concat(segs)
    decreases |segs|
  {
    if segs != [] {
      assert Slant(segs)[1..] == Slant(segs[1..]);
      SlantConcat(segs[1..]);
    }
  }

  lemma PrefixAndInline(rest: Bytes, n: nat, prefix: Style, base: Style)
    requires n <= |rest|
    ensures Concat([Segment(rest[..n], prefix)] + InlineSegments(rest[n..], base, false)) == rest
  {
    hide Concat, Tokens;
    TokensLoseNothing(rest[n..], 0, 0, base);
    ConcatOne(Segment(rest[..n], prefix));
    ConcatAppend([Segment(rest[..n], prefix)], InlineSegments(rest[n..], base, false));
    assert rest[..n] + rest[n..] == rest;
  }

  lemma BodyLosesNothing(rest: Bytes)
    ensures Concat(Body(rest, false)) == rest
  {
    hide Concat, InlineSegments, Slant, QuoteEnd, MarkerLen;
    var q, m := QuoteEnd(rest, 0), MarkerLen(rest);
    if q > 0 {
      PrefixAndInline(rest, q, QuoteBar, QuoteText);
      SlantConcat([Segment(rest[..q], QuoteBar)] + InlineSegments(rest[q..], QuoteText, false));
    } else if m.Some? {
      PrefixAndInline(rest, m.value, ListMarker, Paragraph);
    } else {
      assert InlineSegments(rest, Paragraph, false) == Tokens(rest, 0, 0, Paragraph, false) by {
        InlineIsTokens(rest, Paragraph, false);
      }
      TokensLoseNothing(rest, 0, 0, Paragraph);
    }
  }

  lemma InlineIsTokens(s: Bytes, base: Style, strip: bool)
    ensures InlineSegments(s, base, strip) == Tokens(s, 0, 0, base, strip)
  {
    hide Tokens;
  }

  /** Unstripped and without syntax colouring, a line's segments concatenate
      back to the line, inside and outside fences. */
  lemma LineLosesNothing(line: Bytes, f: Fence)
    ensures Concat(OneLine(line, f, false, None).0) == line
  {
    hide Concat, Body, IsFence, LangOf, IsHorizontalRule, LeadingSpace, RunLen;
    ConcatOne(Segment(line, FenceMark));
    ConcatOne(Segment(line, CodeText));
    ConcatOne(Segment(line, Rule));
    ConcatOne(Segment(line, Heading(RunLen(TrimStart(line), HASH))));
    ConcatOne(Segment([], Paragraph));
    var ws := LeadingSpace(line);
    BodyLosesNothing(line[ws..]);
    ConcatOne(Segment(line[..ws], Paragraph));
    ConcatAppend([Segment(line[..ws], Paragraph)], Body(line[ws..], false));
    assert line[..ws] + line[ws..] == line;
    assert ws == 0 ==> line[ws..] == line;
    assert [] + Body(line[ws..], false) == Body(line[ws..], false);
  }

  // --- Every cut is at a character boundary ---

  lemma InlineIsValid(s: Bytes, base: Style, strip: bool)
    requires Valid(s)
    ensures AllValid(InlineSegments(s, base, strip))
  {
    hide Tokens, Valid;
    assert Boundary(s, 0) by { ValidStart(s); }
    TokensAreValid(s, 0, 0, base, strip);
  }

  lemma ValidStart(s: Bytes)
    requires Valid(s)
    ensures Boundary(s, 0)
  {
  }

  lemma BodyIsValid(rest: Bytes, strip: bool)
    requires Valid(rest)
    ensures AllValid(Body(rest, strip))
  {
    hide InlineSegments, Valid, Boundary, QuoteEnd, MarkerLen;
    var q, m := QuoteEnd(rest, 0), MarkerLen(rest);
    if q > 0 {
      AroundAscii(rest, q - 1);
      CutIsValid(rest, q);
      InlineIsValid(rest[q..], QuoteText, strip);
    } else if m.Some? {
      AroundAscii(rest, m.value - 1);
      CutIsValid(rest, m.value);
      InlineIsValid(rest[m.value..], Paragraph, strip);
      BulletIsValid();
    } else {
      InlineIsValid(rest, Paragraph, strip);
    }
  }

  lemma BulletIsValid()
    ensures Valid(BULLET)
  {
    assert CharLen(BULLET) == 3 && BULLET[3..] == [32];
    assert CharLen([32]) == 1 && [32][1..] == [];
  }

  lemma AfterAscii(s: Bytes, n: nat)
    requires Valid(s) && 0 < n <= |s| && s[n - 1] < 0x80
    ensures Valid(s[n..])
  {
    hide Valid, Boundary;
    AroundAscii(s, n - 1);
    CutIsValid(s, n);
  }

  lemma TrimmedIsValid(line: Bytes)
    requires Valid(line)
    ensures Valid(TrimStart(line))
  {
    hide Valid, Boundary, LeadingSpace;
    LeadingSpaceCuts(line);
    CutIsValid(line, LeadingSpace(line));
  }

  lemma HeadingIsValid(line: Bytes, strip: bool)
    requires Valid(line) && TryHeading(line, strip).Some?
    ensures AllValid(TryHeading(line, strip).value)
  {
    hide Valid, TrimStart, RunLen;
    var t := TrimStart(line);
    TrimmedIsValid(line);
    var h := RunLen(t, HASH);
    AfterAscii(t, h);
    var rest := t[h..];
    if rest != [] && rest[0] == SPACE {
      AfterAscii(rest, 1);
    }
  }

  /** Of a valid line every segment is a valid text, stripped or not. */
  lemma LineCutsAreBoundaries(line: Bytes, f: Fence, strip: bool)
    requires Valid(line)
    ensures AllValid(OneLine(line, f, strip, None).0)
  {
    hide Valid, Boundary, Body, IsFence, LangOf, IsHorizontalRule, LeadingSpace, TryHeading;
    NothingIsValid();
    LeadingSpaceCuts(line);
    CutIsValid(line, LeadingSpace(line));
    BodyIsValid(line[LeadingSpace(line)..], strip);
    if TryHeading(line, strip).Some? {
      HeadingIsValid(line, strip);
    }
  }

  lemma NothingIsValid()
    ensures Valid([])
  {
  }
}
