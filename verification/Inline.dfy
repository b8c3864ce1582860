// The inline tokenizer: which spans it finds in a line, and that cutting the
// line into them loses nothing.
module Inline {
  import opened Options
  import opened Utf8

  datatype Style =
    | Paragraph | CodeInline | Bold | Italic | Strike | Link
    | QuoteText | QuoteBar | ListMarker | Heading(level: nat) | Rule | FenceMark | CodeText | Painted(id: nat)
    | Slanted(style: Style)

  datatype Segment = Segment(text: Bytes, style: Style)

  const BACKSLASH: Byte := 92
  const BACKTICK: Byte := 96
  const STAR: Byte := 42
  const UNDERSCORE: Byte := 95
  const TILDE: Byte := 126
  const OPEN_BRACKET: Byte := 91
  const CLOSE_BRACKET: Byte := 93
  const OPEN_PAREN: Byte := 40
  const CLOSE_PAREN: Byte := 41

  // --- Scanners ---

  /** The next `target` at or after `from` that no backslash escapes. */
  function FindUnescaped(s: Bytes, from: nat, target: Byte): (r: Option<nat>)
    ensures r.Some? ==> from <= r.value < |s| && s[r.value] == target
    decreases |s| - from
  {
    if from >= |s| then None
    else if s[from] == BACKSLASH then FindUnescaped(s, from + 2, target)
    else if s[from] == target then Some(from)
    else FindUnescaped(s, from + 1, target)
  }

  /** The next doubled `target` that is not escaped. */
  function FindDouble(s: Bytes, from: nat, target: Byte): (r: Option<nat>)
    ensures r.Some? ==> from <= r.value && r.value + 1 < |s| && s[r.value] == target && s[r.value + 1] == target
    decreases |s| - from
  {
    if from + 1 >= |s| then None
    else if s[from] == BACKSLASH then FindDouble(s, from + 2, target)
    else if s[from] == target && s[from + 1] == target then Some(from)
    else FindDouble(s, from + 1, target)
  }

  /** The next single `marker`: escaped ones and doubled pairs are skipped. */
  function FindSingle(s: Bytes, from: nat, marker: Byte): (r: Option<nat>)
    ensures r.Some? ==> from <= r.value < |s| && s[r.value] == marker
    ensures r.Some? && r.value + 1 < |s| ==> s[r.value + 1] != marker
    decreases |s| - from
  {
    if from >= |s| then None
    else if s[from] == BACKSLASH then FindSingle(s, from + 2, marker)
    else if s[from] == marker then
      if from + 1 < |s| && s[from + 1] == marker then FindSingle(s, from + 2, marker) else Some(from)
    else FindSingle(s, from + 1, marker)
  }

  // --- Spans ---

  /** A styled span `[at, end)` whose visible part is `[from, to)`. */
  datatype Span = Span(from: nat, to: nat, end: nat, style: Style)

  function CodeSpan(s: Bytes, i: nat): Option<Span>
    requires i < |s|
  {
    var e := FindUnescaped(s, i + 1, BACKTICK);
    if s[i] == BACKTICK && e.Some? then Some(Span(i + 1, e.value, e.value + 1, CodeInline)) else None
  }

  /** A span between doubled markers. */
  function DoubleSpan(s: Bytes, i: nat, marker: Byte, style: Style): Option<Span>
    requires i < |s|
  {
    var e := FindDouble(s, i + 2, marker);
    if s[i] == marker && i + 1 < |s| && s[i + 1] == marker && e.Some?
    then Some(Span(i + 2, e.value, e.value + 2, style)) else None
  }

  function EmphasisSpan(s: Bytes, i: nat): Option<Span>
    requires i < |s|
  {
    var e := FindSingle(s, i + 1, s[i]);
    if (s[i] == STAR || s[i] == UNDERSCORE) && e.Some?
    then Some(Span(i + 1, e.value, e.value + 1, Italic)) else None
  }

  function LinkSpan(s: Bytes, i: nat): Option<Span>
    requires i < |s|
  {
    var rb := FindUnescaped(s, i + 1, CLOSE_BRACKET);
    if s[i] != OPEN_BRACKET || rb.None? then None
    else if rb.value + 1 >= |s| || s[rb.value + 1] != OPEN_PAREN then None
    else
      var rp := FindUnescaped(s, rb.value + 2, CLOSE_PAREN);
      if rp.None? then None else Some(Span(i + 1, rb.value, rp.value + 1, Link))
  }

  function Or(a: Option<Span>, b: Option<Span>): Option<Span> { if a.Some? then a else b }

  /** The span that starts at `i`, by precedence: code, bold, italic, strike, link. */
  function SpanAt(s: Bytes, i: nat): Option<Span>
    requires i < |s|
  {
    Or(CodeSpan(s, i),
    Or(DoubleSpan(s, i, STAR, Bold),
    Or(EmphasisSpan(s, i),
    Or(DoubleSpan(s, i, TILDE, Strike), LinkSpan(s, i)))))
  }

  predicate Ascii(s: Bytes, i: nat) { i < |s| && s[i] < 0x80 }

  /** A span is cut next to its ASCII markers only, and takes in at least its
      first one. */
  lemma SpanMarkers(s: Bytes, i: nat)
    requires i < |s|
    ensures SpanAt(s, i).Some? ==>
      var sp := SpanAt(s, i).value;
      && i < sp.from <= sp.to < sp.end <= |s|
      && Ascii(s, i) && Ascii(s, sp.from - 1) && Ascii(s, sp.to) && Ascii(s, sp.end - 1)
  {
    hide FindUnescaped, FindDouble, FindSingle;
  }

  // --- Tokens ---

  function Plain(s: Bytes, start: nat, end: nat, base: Style): seq<Segment>
    requires start <= end <= |s|
  {
    if start < end then [Segment(s[start..end], base)] else []
  }

  /** Tokenize from `i`, with plain text pending from `start`. */
  function Tokens(s: Bytes, start: nat, i: nat, base: Style, strip: bool): seq<Segment>
    requires start <= i <= |s|
    decreases |s| - i
  {
    if i == |s| then Plain(s, start, i, base)
    else if SpanAt(s, i).None? then Tokens(s, start, i + 1, base, strip)
    else
      SpanMarkers(s, i);
      var sp := SpanAt(s, i).value;
      Plain(s, start, i, base)
      + [Segment(if strip then s[sp.from..sp.to] else s[i..sp.end], sp.style)]
      + Tokens(s, sp.end, sp.end, base, strip)
  }

  function InlineSegments(s: Bytes, base: Style, strip: bool): seq<Segment> { Tokens(s, 0, 0, base, strip) }

  function Concat(segs: seq<Segment>): Bytes {
    if segs == [] then [] else segs[0].text + Concat(segs[1..])
  }

  lemma {:induction false} ConcatAppend(a: seq<Segment>, b: seq<Segment>)
    ensures Concat(a + b) == Concat(a) + Concat(b)
    decreases |a|
  {
    if a == [] {
      assert a + b == b;
    } else {
      assert (a + b)[1..] == a[1..] + b && (a + b)[0] == a[0];
      ConcatAppend(a[1..], b);
    }
  }

  lemma ConcatOne(seg: Segment)
    ensures Concat([seg]) == seg.text
  {
    assert [seg][1..] == [];
  }

  lemma ConcatPlain(s: Bytes, start: nat, end: nat, base: Style)
    requires start <= end <= |s|
    ensures Concat(Plain(s, start, end, base)) == s[start..end]
  {
    if start < end {
      ConcatOne(Segment(s[start..end], base));
    }
  }

  /** Tokenizing loses nothing: unstripped, the segments are the text. */
  lemma {:induction false} TokensLoseNothing(s: Bytes, start: nat, i: nat, base: Style)
    requires start <= i <= |s|
    ensures Concat(Tokens(s, start, i, base, false)) == s[start..]
    decreases |s| - i
  {
    hide SpanAt, Concat, Plain;
    if i == |s| {
      ConcatPlain(s, start, i, base);
      assert s[start..i] == s[start..];
    } else if SpanAt(s, i).None? {
      TokensLoseNothing(s, start, i + 1, base);
    } else {
      SpanMarkers(s, i);
      var sp := SpanAt(s, i).value;
      var seg := Segment(s[i..sp.end], sp.style);
      var plain, rest := Plain(s, start, i, base), Tokens(s, sp.end, sp.end, base, false);
      TokensLoseNothing(s, sp.end, sp.end, base);
      ConcatPlain(s, start, i, base);
      ConcatOne(seg);
      ConcatAppend(plain, [seg]);
      ConcatAppend(plain + [seg], rest);
      ThreePieces(s, start, i, sp.end);
    }
  }

  lemma ThreePieces(s: Bytes, a: nat, b: nat, c: nat)
    requires a <= b <= c <= |s|
    ensures s[a..b] + s[b..c] + s[c..] == s[a..]
  {
  }

  predicate AllValid(segs: seq<Segment>) {
    forall k :: 0 <= k < |segs| ==> Valid(segs[k].text)
  }

  /** Every cut is at a character boundary: of a valid text every segment is a
      valid text, stripped or not. */
  lemma {:induction false} TokensAreValid(s: Bytes, start: nat, i: nat, base: Style, strip: bool)
    requires Valid(s) && start <= i <= |s| && Boundary(s, start)
    ensures AllValid(Tokens(s, start, i, base, strip))
    decreases |s| - i
  {
    hide SpanAt, Valid, Boundary;
    if i == |s| {
      EndIsBoundary(s);
      PlainIsValid(s, start, i, base);
    } else if SpanAt(s, i).None? {
      TokensAreValid(s, start, i + 1, base, strip);
    } else {
      SpanCuts(s, i);
      var sp := SpanAt(s, i).value;
      PlainIsValid(s, start, i, base);
      SliceIsValid(s, i, sp.end);
      SliceIsValid(s, sp.from, sp.to);
      TokensAreValid(s, sp.end, sp.end, base, strip);
    }
  }

  /** The four cuts of a span. */
  lemma SpanCuts(s: Bytes, i: nat)
    requires Valid(s) && i < |s| && SpanAt(s, i).Some?
    ensures var sp := SpanAt(s, i).value;
            && i < sp.from <= sp.to < sp.end <= |s|
            && Boundary(s, i) && Boundary(s, sp.from) && Boundary(s, sp.to) && Boundary(s, sp.end)
  {
    hide SpanAt, Valid, Boundary;
    SpanMarkers(s, i);
    var sp := SpanAt(s, i).value;
    AroundAscii(s, i);
    AroundAscii(s, sp.from - 1);
    AroundAscii(s, sp.to);
    AroundAscii(s, sp.end - 1);
  }

  lemma EndIsBoundary(s: Bytes)
    ensures Boundary(s, |s|)
  {
  }

  lemma PlainIsValid(s: Bytes, start: nat, end: nat, base: Style)
    requires Valid(s) && start <= end <= |s| && Boundary(s, start) && Boundary(s, end)
    ensures AllValid(Plain(s, start, end, base))
  {
    hide Valid, Boundary;
    SliceIsValid(s, start, end);
  }

  predicate Within(a: Bytes, b: Bytes) {
    exists i, j :: 0 <= i <= j <= |b| && a == b[i..j]
  }

  /** Stripping drops markup only: the same segments in the same styles, each
      text a part of the unstripped one. */
  lemma {:induction false} StripDropsMarkup(s: Bytes, start: nat, i: nat, base: Style)
    requires start <= i <= |s|
    ensures var raw, bare := Tokens(s, start, i, base, false), Tokens(s, start, i, base, true);
            && |raw| == |bare|
            && forall k :: 0 <= k < |raw| ==> raw[k].style == bare[k].style && Within(bare[k].text, raw[k].text)
    decreases |s| - i
  {
    hide SpanAt, Within;
    if i == |s| {
      PlainWithin(s, start, i, base);
    } else if SpanAt(s, i).None? {
      StripDropsMarkup(s, start, i + 1, base);
    } else {
      SpanMarkers(s, i);
      var sp := SpanAt(s, i).value;
      StripDropsMarkup(s, sp.end, sp.end, base);
      PlainWithin(s, start, i, base);
      SliceWithin(s, i, sp.from, sp.to, sp.end);
    }
  }

  lemma SliceWithin(s: Bytes, i: nat, from: nat, to: nat, end: nat)
    requires i <= from <= to <= end <= |s|
    ensures Within(s[from..to], s[i..end])
  {
    var w, a, b := s[i..end], from - i, to - i;
    assert forall k :: 0 <= k < to - from ==> w[a..b][k] == s[from..to][k];
    assert w[a..b] == s[from..to];
  }

  lemma PlainWithin(s: Bytes, start: nat, end: nat, base: Style)
    requires start <= end <= |s|
    ensures forall k :: 0 <= k < |Plain(s, start, end, base)| ==>
              Within(Plain(s, start, end, base)[k].text, Plain(s, start, end, base)[k].text)
  {
    hide Within;
    SliceWithin(s, start, start, end, end);
  }

  // --- What the scanner finds ---

  /** Backslashes right before `e`, not counting any before `from`. */
  function Slashes(s: Bytes, from: nat, e: nat): nat
    requires e <= |s|
    decreases e
  {
    if e <= from || s[e - 1] != BACKSLASH then 0 else 1 + Slashes(s, from, e - 1)
  }

  lemma {:induction false} SlashesFrom(s: Bytes, from: nat, e: nat)
    requires from < e <= |s|
    ensures Slashes(s, from, e) ==
      Slashes(s, from + 1, e) + if Slashes(s, from + 1, e) == e - from - 1 && s[from] == BACKSLASH then 1 else 0
    decreases e
  {
    if e > from + 1 && s[e - 1] == BACKSLASH {
      SlashesFrom(s, from, e - 1);
    }
  }

  lemma {:induction false} SlashesBound(s: Bytes, from: nat, e: nat)
    requires from <= e <= |s|
    ensures Slashes(s, from, e) <= e - from
    decreases e
  {
    if e > from && s[e - 1] == BACKSLASH {
      SlashesBound(s, from, e - 1);
    }
  }

  predicate Escaped(s: Bytes, from: nat, e: nat)
    requires e <= |s|
  {
    Slashes(s, from, e) % 2 == 1
  }

  /** Skipping a backslash and what it escapes changes no later parity. */
  lemma SkipEscape(s: Bytes, from: nat, e: nat)
    requires from + 2 <= e <= |s| && s[from] == BACKSLASH
    ensures Escaped(s, from, e) <==> Escaped(s, from + 2, e)
  {
    SlashesFrom(s, from, e);
    SlashesFrom(s, from + 1, e);
    SlashesBound(s, from + 1, e);
    SlashesBound(s, from + 2, e);
  }

  lemma SkipOther(s: Bytes, from: nat, e: nat)
    requires from + 1 <= e <= |s| && s[from] != BACKSLASH
    ensures Escaped(s, from, e) <==> Escaped(s, from + 1, e)
  {
    SlashesFrom(s, from, e);
  }

  /** It finds the first target that an even number of backslashes precedes,
      and nothing if there is none. */
  lemma {:induction false} FindsFirstUnescaped(s: Bytes, from: nat, target: Byte, e: nat)
    requires target != BACKSLASH && from <= e < |s| && s[e] == target && !Escaped(s, from, e)
    ensures FindUnescaped(s, from, target).Some? && FindUnescaped(s, from, target).value <= e
    decreases |s| - from
  {
    if from < e {
      if s[from] == BACKSLASH {
        if e == from + 1 {
          SlashesFrom(s, from, e);
          assert false;
        } else {
          SkipEscape(s, from, e);
          FindsFirstUnescaped(s, from + 2, target, e);
        }
      } else if s[from] != target {
        SkipOther(s, from, e);
        FindsFirstUnescaped(s, from + 1, target, e);
      }
    }
  }

  lemma {:induction false} FoundIsUnescaped(s: Bytes, from: nat, target: Byte)
    requires target != BACKSLASH && FindUnescaped(s, from, target).Some?
    ensures !Escaped(s, from, FindUnescaped(s, from, target).value)
    decreases |s| - from
  {
    var e := FindUnescaped(s, from, target).value;
    if s[from] == BACKSLASH {
      FoundIsUnescaped(s, from + 2, target);
      SkipEscape(s, from, e);
    } else if s[from] != target {
      FoundIsUnescaped(s, from + 1, target);
      SkipOther(s, from, e);
    }
  }

  /** A doubled marker, likewise. */
  lemma {:induction false} FindsFirstDouble(s: Bytes, from: nat, target: Byte, e: nat)
    requires target != BACKSLASH && from <= e && e + 1 < |s| && s[e] == target && s[e + 1] == target
    requires !Escaped(s, from, e)
    ensures FindDouble(s, from, target).Some? && FindDouble(s, from, target).value <= e
    decreases |s| - from
  {
    if from < e {
      if s[from] == BACKSLASH {
        if e == from + 1 {
          SlashesFrom(s, from, e);
          assert false;
        } else {
          SkipEscape(s, from, e);
          FindsFirstDouble(s, from + 2, target, e);
        }
      } else if !(s[from] == target && s[from + 1] == target) {
        SkipOther(s, from, e);
        FindsFirstDouble(s, from + 1, target, e);
      }
    }
  }

  // --- The loops ---

  method ScanUnescaped(s: Bytes, from: nat, target: Byte) returns (r: Option<nat>)
    ensures r == FindUnescaped(s, from, target)
  {
    var i := from;
    while i < |s|
      invariant FindUnescaped(s, from, target) == FindUnescaped(s, i, target)
    {
      if s[i] == BACKSLASH {
        i := i + 2;
      } else if s[i] == target {
        return Some(i);
      } else {
        i := i + 1;
      }
    }
    r := None;
  }

  method ScanDouble(s: Bytes, from: nat, target: Byte) returns (r: Option<nat>)
    ensures r == FindDouble(s, from, target)
  {
    var i := from;
    while i + 1 < |s|
      invariant FindDouble(s, from, target) == FindDouble(s, i, target)
    {
      if s[i] == BACKSLASH {
        i := i + 2;
      } else if s[i] == target && s[i + 1] == target {
        return Some(i);
      } else {
        i := i + 1;
      }
    }
    r := None;
  }

  method ScanSingle(s: Bytes, from: nat, marker: Byte) returns (r: Option<nat>)
    ensures r == FindSingle(s, from, marker)
  {
    var i := from;
    while i < |s|
      invariant FindSingle(s, from, marker) == FindSingle(s, i, marker)
    {
      if s[i] == BACKSLASH {
        i := i + 2;
      } else if s[i] == marker {
        if i + 1 < |s| && s[i + 1] == marker {
          i := i + 2;
        } else {
          return Some(i);
        }
      } else {
        i := i + 1;
      }
    }
    r := None;
  }

  /** Try the spans that may start at `i`, in order of precedence. */
  method ScanSpan(s: Bytes, i: nat) returns (r: Option<Span>)
    requires i < |s|
    ensures r == SpanAt(s, i)
  {
    hide FindUnescaped, FindDouble, FindSingle;
    var b, doubled := s[i], i + 1 < |s| && s[i + 1] == s[i];
    if b == BACKTICK {
      var e := ScanUnescaped(s, i + 1, BACKTICK);
      if e.Some? {
        return Some(Span(i + 1, e.value, e.value + 1, CodeInline));
      }
    }
    if b == STAR && doubled {
      var e := ScanDouble(s, i + 2, STAR);
      if e.Some? {
        return Some(Span(i + 2, e.value, e.value + 2, Bold));
      }
    }
    if b == STAR || b == UNDERSCORE {
      var e := ScanSingle(s, i + 1, b);
      if e.Some? {
        return Some(Span(i + 1, e.value, e.value + 1, Italic));
      }
    }
    if b == TILDE && doubled {
      var e := ScanDouble(s, i + 2, TILDE);
      if e.Some? {
        return Some(Span(i + 2, e.value, e.value + 2, Strike));
      }
    }
    if b == OPEN_BRACKET {
      var rb := ScanUnescaped(s, i + 1, CLOSE_BRACKET);
      if rb.Some? && rb.value + 1 < |s| && s[rb.value + 1] == OPEN_PAREN {
        var rp := ScanUnescaped(s, rb.value + 2, CLOSE_PAREN);
        if rp.Some? {
          return Some(Span(i + 1, rb.value, rp.value + 1, Link));
        }
      }
    }
    r := None;
  }

  function SpanSegment(s: Bytes, i: nat, sp: Span, strip: bool): Segment
    requires i <= sp.end <= |s| && sp.from <= sp.to <= |s|
  {
    Segment(if strip then s[sp.from..sp.to] else s[i..sp.end], sp.style)
  }

  /** One turn of the loop, in terms of what is left to tokenize. */
  lemma TokensStep(out: seq<Segment>, s: Bytes, start: nat, i: nat, base: Style, strip: bool)
    requires start <= i < |s|
    ensures SpanAt(s, i).None? ==> Tokens(s, start, i, base, strip) == Tokens(s, start, i + 1, base, strip)
    ensures SpanAt(s, i).Some? ==>
      var sp := SpanAt(s, i).value;
      && i < sp.end <= |s| && sp.from <= sp.to <= |s|
      && out + Tokens(s, start, i, base, strip)
         == (out + Plain(s, start, i, base) + [SpanSegment(s, i, sp, strip)]) + Tokens(s, sp.end, sp.end, base, strip)
  {
    hide SpanAt, Plain;
    SpanMarkers(s, i);
  }

  lemma TokensEnd(s: Bytes, start: nat, base: Style, strip: bool)
    requires start <= |s|
    ensures Tokens(s, start, |s|, base, strip) == Plain(s, start, |s|, base)
  {
    hide SpanAt, Plain;
  }

  method TokenizeInline(s: Bytes, base: Style, strip: bool) returns (out: seq<Segment>)
    ensures out == InlineSegments(s, base, strip)
  {
    hide SpanAt, Plain, Tokens;
    out := [];
    var i: nat, plainStart: nat := 0, 0;
    while i < |s|
      invariant plainStart <= i <= |s|
      invariant out + Tokens(s, plainStart, i, base, strip) == InlineSegments(s, base, strip)
    {
      var span := ScanSpan(s, i);
      TokensStep(out, s, plainStart, i, base, strip);
      if span.Some? {
        var sp := span.value;
        out := out + Plain(s, plainStart, i, base) + [SpanSegment(s, i, sp, strip)];
        i := sp.end;
        plainStart := i;
      } else {
        i := i + 1;
      }
    }
    assert Tokens(s, plainStart, i, base, strip) == Plain(s, plainStart, i, base) by {
      TokensEnd(s, plainStart, base, strip);
    }
    out := out + Plain(s, plainStart, |s|, base);
  }
}
