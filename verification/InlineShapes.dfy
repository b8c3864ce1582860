// Which spans the inline tokenizer finds, told by what closes them, and what
// stripping takes off.
module InlineShapes {
  import opened Options
  import opened Utf8
  import opened Inline

  // --- What closes a span ---

  /** `e` is the first `target` from `from` on that no backslash escapes. */
  ghost predicate Closes(s: Bytes, from: nat, target: Byte, e: nat) {
    && from <= e < |s| && s[e] == target && !Escaped(s, from, e)
    && forall j :: from <= j < e && s[j] == target ==> Escaped(s, from, j)
  }

  predicate Doubled(s: Bytes, j: nat, target: Byte) {
    j + 1 < |s| && s[j] == target && s[j + 1] == target
  }

  /** `e` is the first doubled `target` from `from` on that is not escaped. */
  ghost predicate DoubleCloses(s: Bytes, from: nat, target: Byte, e: nat) {
    && from <= e && Doubled(s, e, target) && !Escaped(s, from, e)
    && forall j :: from <= j < e && Doubled(s, j, target) ==> Escaped(s, from, j)
  }

  ghost predicate DoubleClosed(s: Bytes, from: nat, target: Byte) {
    exists e :: DoubleCloses(s, from, target, e)
  }

  /** `e` is the first unescaped marker, passing over unescaped pairs of them. */
  ghost predicate SingleCloses(s: Bytes, from: nat, marker: Byte, e: nat)
    decreases |s| - from
  {
    exists first: nat :: Closes(s, from, marker, first) &&
      if Doubled(s, first, marker) then SingleCloses(s, first + 2, marker, e) else e == first
  }

  lemma OneCloses(s: Bytes, from: nat, target: Byte, e: nat)
    requires target != BACKSLASH
    ensures FindUnescaped(s, from, target) == Some(e) <==> Closes(s, from, target, e)
  {
    hide Escaped, FindUnescaped;
    var r := FindUnescaped(s, from, target);
    if r.Some? {
      FoundIsUnescaped(s, from, target);
      forall j | from <= j < r.value && s[j] == target
        ensures Escaped(s, from, j)
      {
        if !Escaped(s, from, j) {
          FindsFirstUnescaped(s, from, target, j);
        }
      }
    }
    if Closes(s, from, target, e) {
      FindsFirstUnescaped(s, from, target, e);
    }
  }

  lemma {:induction false} FoundDoubleIsUnescaped(s: Bytes, from: nat, target: Byte)
    requires target != BACKSLASH && FindDouble(s, from, target).Some?
    ensures !Escaped(s, from, FindDouble(s, from, target).value)
    decreases |s| - from
  {
    var e := FindDouble(s, from, target).value;
    if s[from] == BACKSLASH {
      FoundDoubleIsUnescaped(s, from + 2, target);
      SkipEscape(s, from, e);
    } else if !(s[from] == target && s[from + 1] == target) {
      FoundDoubleIsUnescaped(s, from + 1, target);
      SkipOther(s, from, e);
    }
  }

  lemma OneDoubleCloses(s: Bytes, from: nat, target: Byte, e: nat)
    requires target != BACKSLASH
    ensures FindDouble(s, from, target) == Some(e) <==> DoubleCloses(s, from, target, e)
  {
    hide Escaped, FindDouble;
    var r := FindDouble(s, from, target);
    if r.Some? {
      FoundDoubleIsUnescaped(s, from, target);
      forall j | from <= j < r.value && Doubled(s, j, target)
        ensures Escaped(s, from, j)
      {
        if !Escaped(s, from, j) {
          FindsFirstDouble(s, from, target, j);
        }
      }
    }
    if DoubleCloses(s, from, target, e) {
      FindsFirstDouble(s, from, target, e);
    }
  }

  /** The single scanner goes on from the first unescaped marker. */
  lemma {:induction false} SingleSteps(s: Bytes, from: nat, marker: Byte)
    requires marker != BACKSLASH
    ensures var first := FindUnescaped(s, from, marker);
            FindSingle(s, from, marker)
            == if first.None? then None
               else if Doubled(s, first.value, marker) then FindSingle(s, first.value + 2, marker) else first
    decreases |s| - from
  {
    if from < |s| {
      if s[from] == BACKSLASH {
        SingleSteps(s, from + 2, marker);
      } else if s[from] != marker {
        SingleSteps(s, from + 1, marker);
      }
    }
  }

  lemma {:induction false} OneSingleCloses(s: Bytes, from: nat, marker: Byte, e: nat)
    requires marker != BACKSLASH
    ensures FindSingle(s, from, marker) == Some(e) <==> SingleCloses(s, from, marker, e)
    decreases |s| - from
  {
    hide FindSingle, FindUnescaped, Closes;
    SingleSteps(s, from, marker);
    var r := FindUnescaped(s, from, marker);
    forall first: nat
      ensures Closes(s, from, marker, first) <==> r == Some(first)
    {
      OneCloses(s, from, marker, first);
    }
    if r.Some? && Doubled(s, r.value, marker) {
      OneSingleCloses(s, r.value + 2, marker, e);
    }
  }

  // --- Spans ---

  /** The span `[i, sp.end)` as its style demands: its opening marker, its
      visible part, and what closes it; `**` that closes wins over `*`. */
  ghost predicate Shaped(s: Bytes, i: nat, sp: Span)
    requires i < |s|
  {
    match sp.style
    case CodeInline =>
      s[i] == BACKTICK && Closes(s, i + 1, BACKTICK, sp.to) && sp.from == i + 1 && sp.end == sp.to + 1
    case Bold =>
      Doubled(s, i, STAR) && DoubleCloses(s, i + 2, STAR, sp.to) && sp.from == i + 2 && sp.end == sp.to + 2
    case Italic =>
      && (s[i] == STAR || s[i] == UNDERSCORE) && SingleCloses(s, i + 1, s[i], sp.to)
      && !(Doubled(s, i, STAR) && DoubleClosed(s, i + 2, STAR))
      && sp.from == i + 1 && sp.end == sp.to + 1
    case Strike =>
      Doubled(s, i, TILDE) && DoubleCloses(s, i + 2, TILDE, sp.to) && sp.from == i + 2 && sp.end == sp.to + 2
    case Link =>
      && s[i] == OPEN_BRACKET && Closes(s, i + 1, CLOSE_BRACKET, sp.to)
      && sp.to + 1 < |s| && s[sp.to + 1] == OPEN_PAREN
      && sp.end > 0 && Closes(s, sp.to + 2, CLOSE_PAREN, sp.end - 1) && sp.from == i + 1
    case _ => false
  }

  lemma CodeShape(s: Bytes, i: nat, sp: Span)
    requires i < |s|
    ensures CodeSpan(s, i) == Some(sp) <==> sp.style == CodeInline && Shaped(s, i, sp)
  {
    hide FindUnescaped, Closes;
    OneCloses(s, i + 1, BACKTICK, sp.to);
  }

  lemma DoubleIsClosed(s: Bytes, from: nat, target: Byte)
    requires target != BACKSLASH
    ensures FindDouble(s, from, target).Some? <==> DoubleClosed(s, from, target)
  {
    hide FindDouble, DoubleCloses;
    var r := FindDouble(s, from, target);
    if r.Some? {
      OneDoubleCloses(s, from, target, r.value);
    }
    if DoubleClosed(s, from, target) {
      var e :| DoubleCloses(s, from, target, e);
      assert e >= 0 by { ClosingIsAhead(s, from, target, e); }
      OneDoubleCloses(s, from, target, e);
    }
  }

  lemma ClosingIsAhead(s: Bytes, from: nat, target: Byte, e: nat)
    requires DoubleCloses(s, from, target, e)
    ensures from <= e
  {
  }

  lemma DoubleShape(s: Bytes, i: nat, marker: Byte, style: Style, sp: Span)
    requires i < |s| && ((marker == STAR && style == Bold) || (marker == TILDE && style == Strike))
    ensures DoubleSpan(s, i, marker, style) == Some(sp) <==> sp.style == style && Shaped(s, i, sp)
    ensures DoubleSpan(s, i, marker, style).Some? <==> Doubled(s, i, marker) && DoubleClosed(s, i + 2, marker)
  {
    hide FindDouble, DoubleCloses, DoubleClosed;
    OneDoubleCloses(s, i + 2, marker, sp.to);
    DoubleIsClosed(s, i + 2, marker);
  }

  lemma EmphasisShape(s: Bytes, i: nat, sp: Span)
    requires i < |s| && DoubleSpan(s, i, STAR, Bold).None?
    ensures EmphasisSpan(s, i) == Some(sp) <==> sp.style == Italic && Shaped(s, i, sp)
  {
    hide FindSingle, SingleCloses, DoubleCloses, DoubleClosed, DoubleSpan;
    DoubleShape(s, i, STAR, Bold, sp);
    OneSingleCloses(s, i + 1, if s[i] == BACKSLASH then STAR else s[i], sp.to);
  }

  lemma LinkShape(s: Bytes, i: nat, sp: Span)
    requires i < |s|
    ensures LinkSpan(s, i) == Some(sp) <==> sp.style == Link && Shaped(s, i, sp)
  {
    hide FindUnescaped, Closes;
    OneCloses(s, i + 1, CLOSE_BRACKET, sp.to);
    if sp.end > 0 {
      OneCloses(s, sp.to + 2, CLOSE_PAREN, sp.end - 1);
    }
  }

  /** Different opening markers leave at most one kind of span, bold and
      emphasis aside. */
  lemma OneMarker(s: Bytes, i: nat)
    requires i < |s|
    ensures CodeSpan(s, i).Some? ==> s[i] == BACKTICK
    ensures DoubleSpan(s, i, STAR, Bold).Some? ==> s[i] == STAR
    ensures EmphasisSpan(s, i).Some? ==> s[i] == STAR || s[i] == UNDERSCORE
    ensures DoubleSpan(s, i, TILDE, Strike).Some? ==> s[i] == TILDE
    ensures LinkSpan(s, i).Some? ==> s[i] == OPEN_BRACKET
  {
    hide FindUnescaped, FindDouble, FindSingle;
  }

  /** A span is found at `i` exactly if one stands there, and it is that one. */
  lemma SpanIsExact(s: Bytes, i: nat, sp: Span)
    requires i < |s|
    ensures SpanAt(s, i) == Some(sp) <==> Shaped(s, i, sp)
  {
    hide CodeSpan, DoubleSpan, EmphasisSpan, LinkSpan, Shaped;
    OneMarker(s, i);
    CodeShape(s, i, sp);
    DoubleShape(s, i, STAR, Bold, sp);
    DoubleShape(s, i, TILDE, Strike, sp);
    LinkShape(s, i, sp);
    ShapedMarker(s, i, sp);
    if DoubleSpan(s, i, STAR, Bold).None? {
      EmphasisShape(s, i, sp);
    } else if Shaped(s, i, sp) && sp.style == Italic {
      BoldWins(s, i, sp);
    }
  }

  lemma ShapedMarker(s: Bytes, i: nat, sp: Span)
    requires i < |s|
    ensures Shaped(s, i, sp) ==> sp.style in {CodeInline, Bold, Italic, Strike, Link}
  {
  }

  lemma BoldWins(s: Bytes, i: nat, sp: Span)
    requires i < |s| && DoubleSpan(s, i, STAR, Bold).Some? && sp.style == Italic
    ensures !Shaped(s, i, sp)
  {
    hide FindDouble, DoubleCloses, DoubleClosed, SingleCloses, DoubleSpan;
    DoubleShape(s, i, STAR, Bold, sp);
  }

  // --- The cut of a text ---

  /** Up to the first span the text is plain; then comes the span; then the rest. */
  lemma {:induction false} CutAtFirst(s: Bytes, start: nat, i: nat, k: nat, base: Style, strip: bool)
    requires start <= k <= i <= |s| && forall j :: k <= j < i ==> SpanAt(s, j).None?
    ensures i == |s| ==>
              Tokens(s, start, k, base, strip) == if start < i then [Segment(s[start..i], base)] else []
    ensures i < |s| && SpanAt(s, i).Some? ==>
              var sp := SpanAt(s, i).value;
              && i < sp.from <= sp.to < sp.end <= |s|
              && Tokens(s, start, k, base, strip)
                 == (if start < i then [Segment(s[start..i], base)] else [])
                    + [Segment(if strip then s[sp.from..sp.to] else s[i..sp.end], sp.style)]
                    + Tokens(s, sp.end, sp.end, base, strip)
    decreases i - k
  {
    hide SpanAt;
    if k < i {
      CutAtFirst(s, start, i, k + 1, base, strip);
    } else if i < |s| {
      SpanMarkers(s, i);
    }
  }

  // --- What stripping takes off ---

  /** `raw` is `bare` between the markers of its style; other styles have none. */
  ghost predicate Wraps(style: Style, raw: Bytes, bare: Bytes) {
    match style
    case CodeInline => raw == [BACKTICK] + bare + [BACKTICK]
    case Bold => raw == [STAR, STAR] + bare + [STAR, STAR]
    case Italic => raw == [STAR] + bare + [STAR] || raw == [UNDERSCORE] + bare + [UNDERSCORE]
    case Strike => raw == [TILDE, TILDE] + bare + [TILDE, TILDE]
    case Link => exists url :: raw == [OPEN_BRACKET] + bare + [CLOSE_BRACKET, OPEN_PAREN] + url + [CLOSE_PAREN]
    case _ => raw == bare
  }

  lemma SpanWraps(s: Bytes, i: nat)
    requires i < |s| && SpanAt(s, i).Some?
    ensures var sp := SpanAt(s, i).value;
            && i < sp.from <= sp.to < sp.end <= |s|
            && Wraps(sp.style, s[i..sp.end], s[sp.from..sp.to])
  {
    hide Shaped, SpanAt, Wraps;
    SpanMarkers(s, i);
    var sp := SpanAt(s, i).value;
    SpanIsExact(s, i, sp);
    ShapedMarker(s, i, sp);
    if sp.style == Link {
      LinkWraps(s, i, sp);
    } else {
      MarkerWraps(s, i, sp);
    }
  }

  lemma MarkerWraps(s: Bytes, i: nat, sp: Span)
    requires i < |s| && Shaped(s, i, sp) && sp.style != Link
    requires i < sp.from <= sp.to < sp.end <= |s|
    ensures Wraps(sp.style, s[i..sp.end], s[sp.from..sp.to])
  {
    hide Closes, DoubleCloses, SingleCloses, DoubleClosed;
    Sides(s, i, sp.from - i, sp.to, sp.end - sp.to);
    match sp.style
    case CodeInline => OneClosesAt(s, i + 1, BACKTICK, sp.to);
    case Bold => DoubleClosesAt(s, i + 2, STAR, sp.to); Pair(s, i); Pair(s, sp.to);
    case Italic => SingleClosesAt(s, i + 1, s[i], sp.to);
    case Strike => DoubleClosesAt(s, i + 2, TILDE, sp.to); Pair(s, i); Pair(s, sp.to);
    case _ =>
  }

  lemma Pair(s: Bytes, i: nat)
    requires i + 1 < |s|
    ensures s[i..i + 2] == [s[i], s[i + 1]]
  {
  }

  lemma LinkWraps(s: Bytes, i: nat, sp: Span)
    requires i < |s| && Shaped(s, i, sp) && sp.style == Link
    requires i < sp.from <= sp.to < sp.end <= |s|
    ensures Wraps(Link, s[i..sp.end], s[sp.from..sp.to])
  {
    hide Closes;
    OneClosesAt(s, i + 1, CLOSE_BRACKET, sp.to);
    OneClosesAt(s, sp.to + 2, CLOSE_PAREN, sp.end - 1);
    var url := s[sp.to + 2..sp.end - 1];
    assert s[i..sp.end] == [OPEN_BRACKET] + s[i + 1..sp.to] + [CLOSE_BRACKET, OPEN_PAREN] + url + [CLOSE_PAREN];
  }

  lemma Sides(s: Bytes, i: nat, n: nat, to: nat, m: nat)
    requires i + n <= to && to + m <= |s|
    ensures s[i..to + m] == s[i..i + n] + s[i + n..to] + s[to..to + m]
  {
  }

  lemma OneClosesAt(s: Bytes, from: nat, target: Byte, e: nat)
    requires Closes(s, from, target, e)
    ensures from <= e < |s| && s[e] == target
  {
  }

  lemma DoubleClosesAt(s: Bytes, from: nat, target: Byte, e: nat)
    requires DoubleCloses(s, from, target, e)
    ensures from <= e && e + 1 < |s| && s[e] == target && s[e + 1] == target
  {
  }

  lemma {:induction false} SingleClosesAt(s: Bytes, from: nat, marker: Byte, e: nat)
    requires SingleCloses(s, from, marker, e)
    ensures from <= e < |s| && s[e] == marker
    decreases |s| - from
  {
    hide Escaped;
    var first: nat :| Closes(s, from, marker, first) &&
      if Doubled(s, first, marker) then SingleCloses(s, first + 2, marker, e) else e == first;
    if Doubled(s, first, marker) {
      SingleClosesAt(s, first + 2, marker, e);
    }
  }

  /** Stripping keeps every segment and its style and takes off exactly the
      markers of the style. */
  lemma {:induction false} StripTakesMarkers(s: Bytes, start: nat, i: nat, base: Style)
    requires start <= i <= |s| && base !in {CodeInline, Bold, Italic, Strike, Link}
    ensures var raw, bare := Tokens(s, start, i, base, false), Tokens(s, start, i, base, true);
            && |raw| == |bare|
            && forall k :: 0 <= k < |raw| ==>
                 raw[k].style == bare[k].style && Wraps(raw[k].style, raw[k].text, bare[k].text)
    decreases |s| - i
  {
    hide SpanAt, Wraps;
    if i == |s| {
      PlainWraps(s, start, i, base);
    } else if SpanAt(s, i).None? {
      StripTakesMarkers(s, start, i + 1, base);
    } else {
      SpanMarkers(s, i);
      SpanWraps(s, i);
      PlainWraps(s, start, i, base);
      StripTakesMarkers(s, SpanAt(s, i).value.end, SpanAt(s, i).value.end, base);
    }
  }

  lemma PlainWraps(s: Bytes, start: nat, end: nat, base: Style)
    requires start <= end <= |s| && base !in {CodeInline, Bold, Italic, Strike, Link}
    ensures forall k :: 0 <= k < |Plain(s, start, end, base)| ==>
              Wraps(base, Plain(s, start, end, base)[k].text, Plain(s, start, end, base)[k].text)
              && Plain(s, start, end, base)[k].style == base
  {
  }

  /** An emphasis may be empty: two underscores make one. */
  lemma AnEmptyEmphasis()
    ensures InlineSegments([UNDERSCORE, UNDERSCORE], Paragraph, true) == [Segment([], Italic)]
  {
    var s := [UNDERSCORE, UNDERSCORE];
    var sp := Span(1, 1, 2, Italic);
    assert Slashes(s, 1, 1) == 0;
    assert Closes(s, 1, UNDERSCORE, 1);
    assert SingleCloses(s, 1, UNDERSCORE, 1);
    SpanIsExact(s, 0, sp);
    CutAtFirst(s, 0, 0, 0, Paragraph, true);
    CutAtFirst(s, 2, 2, 2, Paragraph, true);
    assert s[1..1] == [];
  }
}
