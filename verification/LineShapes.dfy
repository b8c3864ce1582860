// What each kind of markdown line is shown as.
module LineShapes {
  import opened Options
  import opened Utf8
  import opened Inline
  import opened Highlight

  function Repeat(b: Byte, n: nat): Bytes { seq(n, i => b) }

  /** `k` spaces in front of a text. */
  function Indented(k: nat, rest: Bytes): Bytes { Repeat(SPACE, k) + rest }

  lemma {:induction false} SpacesLead(k: nat, rest: Bytes)
    requires rest != [] && SpaceLen(rest) == 0
    ensures LeadingSpace(Indented(k, rest)) == k && TrimStart(Indented(k, rest)) == rest
    decreases k
  {
    var line := Indented(k, rest);
    if k == 0 {
      assert line == rest;
    } else {
      assert line == [SPACE] + Indented(k - 1, rest);
      assert line[1..] == Indented(k - 1, rest);
      SpacesLead(k - 1, rest);
    }
  }

  lemma {:induction false} RunOf(b: Byte, n: nat, rest: Bytes)
    requires rest == [] || rest[0] != b
    ensures RunLen(Repeat(b, n) + rest, b) == n
    decreases n
  {
    var s := Repeat(b, n) + rest;
    if n == 0 {
      assert s == rest;
    } else {
      assert s[0] == b && s[1..] == Repeat(b, n - 1) + rest;
      RunOf(b, n - 1, rest);
    }
  }

  /** A line whose first visible byte is neither backtick nor tilde is no fence. */
  lemma NotAFence(k: nat, rest: Bytes)
    requires rest != [] && 33 <= rest[0] < 0x80 && rest[0] != BACKTICK && rest[0] != TILDE
    ensures !IsFence(Indented(k, rest))
  {
    hide LeadingSpace;
    SpacesLead(k, rest);
  }

  /** A line that is no fence, heading or rule is its indent and its body. */
  lemma OrdinaryLine(k: nat, rest: Bytes, strip: bool, hl: Option<Painter>)
    requires rest != [] && 33 <= rest[0] < 0x80 && rest[0] !in [BACKTICK, TILDE, HASH]
    requires !IsHorizontalRule(Indented(k, rest))
    ensures OneLine(Indented(k, rest), NO_FENCE, strip, hl).0
            == (if k > 0 then [Segment(Repeat(SPACE, k), Paragraph)] else []) + Body(rest, strip)
  {
    hide LeadingSpace, RunLen, IsFence, IsHorizontalRule, Body, LangOf;
    var line := Indented(k, rest);
    NotAFence(k, rest);
    SpacesLead(k, rest);
    assert RunLen(rest, HASH) == 0 by { RunOf(HASH, 0, rest); assert Repeat(HASH, 0) + rest == rest; }
    assert line[..k] == Repeat(SPACE, k) && line[k..] == rest;
  }

  // --- Headings ---

  /** One to six `#`, a space and a text make a heading of that level; stripped
      it shows the text. */
  lemma HeadingIsShown(k: nat, n: nat, text: Bytes, strip: bool, hl: Option<Painter>)
    requires 1 <= n <= 6
    ensures var line := Indented(k, Repeat(HASH, n) + [SPACE] + text);
            OneLine(line, NO_FENCE, strip, hl) == ([Segment(if strip then text else line, Heading(n))], NO_FENCE)
  {
    hide LeadingSpace, IsHorizontalRule, LangOf, Body, RunLen, IsFence;
    NotAFence(k, Repeat(HASH, n) + [SPACE] + text);
    var t := Repeat(HASH, n) + [SPACE] + text;
    assert t == Repeat(HASH, n) + ([SPACE] + text);
    SpacesLead(k, t);
    RunOf(HASH, n, [SPACE] + text);
    assert t[n..] == [SPACE] + text && t[n..][1..] == text;
  }

  /** More than six, or no space after them, make none. */
  lemma NoHeading(k: nat, n: nat, rest: Bytes, strip: bool)
    requires n >= 1 && (rest != [] ==> rest[0] != HASH) && (n > 6 || (rest != [] && rest[0] != SPACE))
    ensures TryHeading(Indented(k, Repeat(HASH, n) + rest), strip).None?
  {
    hide LeadingSpace, RunLen;
    SpacesLead(k, Repeat(HASH, n) + rest);
    RunOf(HASH, n, rest);
  }

  // --- Fences ---

  /** Three backticks or tildes, indented at will, with anything after them. */
  ghost predicate FenceLine(line: Bytes) {
    exists k: nat, b: Byte, rest: Bytes :: FenceAt(line, k, b, rest)
  }

  predicate FenceAt(line: Bytes, k: nat, b: Byte, rest: Bytes) {
    (b == BACKTICK || b == TILDE) && line == Indented(k, [b, b, b] + rest)
  }

  predicate TripleAt(line: Bytes, i: nat, b: Byte) {
    i + 2 < |line| && line[i] == b && line[i + 1] == b && line[i + 2] == b
  }

  /** Three backticks or tildes stand nowhere in the line. */
  ghost predicate NoFenceIn(line: Bytes) {
    forall i: nat :: !TripleAt(line, i, BACKTICK) && !TripleAt(line, i, TILDE)
  }

  lemma FenceIsOne(line: Bytes)
    requires FenceLine(line)
    ensures IsFence(line)
  {
    var k: nat, b: Byte, rest: Bytes :| FenceAt(line, k, b, rest);
    SpacesLead(k, [b, b, b] + rest);
  }

  lemma NoFenceIsNone(line: Bytes)
    requires NoFenceIn(line)
    ensures !IsFence(line)
  {
    var t, n := TrimStart(line), LeadingSpace(line);
    if |t| >= 3 {
      assert t[..3] == [line[n], line[n + 1], line[n + 2]];
      assert !TripleAt(line, n, BACKTICK) && !TripleAt(line, n, TILDE);
    }
  }

  /** Between two fence lines everything is code, as it stands, and after them
      the text goes on as if they were not there. */
  lemma {:induction false} FencedBlockIsCode(open: Bytes, body: seq<Bytes>, close: Bytes, rest: seq<Bytes>, strip: bool)
    requires FenceLine(open) && FenceLine(close) && forall i :: 0 <= i < |body| ==> NoFenceIn(body[i])
    ensures AllLines([open] + body + [close] + rest, NO_FENCE, strip, None)
            == [[Segment(if strip then [] else open, FenceMark)]]
               + seq(|body|, i requires 0 <= i < |body| => [Segment(body[i], CodeText)])
               + [[Segment(if strip then [] else close, FenceMark)]]
               + AllLines(rest, NO_FENCE, strip, None)
  {
    hide FenceLine, IsFence, LangOf, SourceLine;
    FenceIsOne(open);
    var inside := Fence(true, LangOf(open));
    assert [open] + body + [close] + rest == [open] + (body + [close] + rest);
    assert ([open] + (body + [close] + rest))[1..] == body + [close] + rest;
    CodeThenClose(body, close, rest, inside, strip);
    var code := seq(|body|, i requires 0 <= i < |body| => [Segment(body[i], CodeText)]);
    var tail := [[Segment(if strip then [] else close, FenceMark)]] + AllLines(rest, NO_FENCE, strip, None);
    assert [[Segment(if strip then [] else open, FenceMark)]] + (code + tail)
           == [[Segment(if strip then [] else open, FenceMark)]] + code + tail;
  }

  lemma {:induction false} CodeThenClose(body: seq<Bytes>, close: Bytes, rest: seq<Bytes>, f: Fence, strip: bool)
    requires f.inFence && FenceLine(close) && forall i :: 0 <= i < |body| ==> NoFenceIn(body[i])
    ensures AllLines(body + [close] + rest, f, strip, None)
            == seq(|body|, i requires 0 <= i < |body| => [Segment(body[i], CodeText)])
               + ([[Segment(if strip then [] else close, FenceMark)]] + AllLines(rest, NO_FENCE, strip, None))
    decreases |body|
  {
    hide FenceLine, IsFence, SourceLine;
    var all := body + [close] + rest;
    if body == [] {
      FenceIsOne(close);
      assert all == [close] + rest && all[1..] == rest;
    } else {
      NoFenceIsNone(body[0]);
      assert all[0] == body[0] && all[1..] == body[1..] + [close] + rest;
      CodeThenClose(body[1..], close, rest, f, strip);
      var code := seq(|body|, i requires 0 <= i < |body| => [Segment(body[i], CodeText)]);
      var less := seq(|body[1..]|, i requires 0 <= i < |body[1..]| => [Segment(body[1..][i], CodeText)]);
      assert code == [[Segment(body[0], CodeText)]] + less;
    }
  }

  /** The language is the word right behind the marker, spaces aside. */
  lemma FenceLanguage(k: nat, b: Byte, n: nat, gap: nat, word: Bytes, hl: Option<Painter>, strip: bool)
    requires (b == BACKTICK || b == TILDE) && n >= 3
    requires word != [] && word[0] != b && forall i :: 0 <= i < |word| ==> 33 <= word[i] < 0x80
    ensures OneLine(Indented(k, Repeat(b, n) + Indented(gap, word)), NO_FENCE, strip, hl).1 == Fence(true, Some(word))
  {
    hide LeadingSpace, RunLen, FirstWord, SourceLine, TrimEnd;
    var info := Indented(gap, word);
    var t := Repeat(b, n) + info;
    SpacesLead(k, t);
    RunOf(b, n, info);
    assert t[..3] == [b, b, b];
    assert t[n..] == info;
    SpacesLead(gap, word);
    assert TrimEnd(word) == word by { NoTrailingSpace(word); }
    OneWord(word);
  }

  lemma NoTrailingSpace(word: Bytes)
    requires forall i :: 0 <= i < |word| ==> 33 <= word[i] < 0x80
    ensures TrimEnd(word) == word
  {
  }

  lemma {:induction false} OneWord(word: Bytes)
    requires forall i :: 0 <= i < |word| ==> 33 <= word[i] < 0x80
    ensures FirstWord(word) == word
  {
    if word != [] {
      OneWord(word[1..]);
    }
  }

  // --- Rules, quotes and lists ---

  /** Three or more of one of `-`, `*` and `_`, and nothing else, make a rule. */
  lemma RuleIsShown(b: Byte, n: nat, strip: bool, hl: Option<Painter>)
    requires (b == DASH || b == STAR || b == UNDERSCORE) && n >= 3
    ensures OneLine(Repeat(b, n), NO_FENCE, strip, hl) == ([Segment(Repeat(b, n), Rule)], NO_FENCE)
  {
    hide IsHorizontalRule, IsFence, RunLen, LeadingSpace, LangOf, Body;
    var line := Repeat(b, n);
    assert Indented(0, line) == line;
    SpacesLead(0, line);
    NotAFence(0, line);
    assert RunLen(line, HASH) == 0 by { RunOf(HASH, 0, line); assert Repeat(HASH, 0) + line == line; }
    RuleIsOne(b, n);
  }

  lemma RuleIsOne(b: Byte, n: nat)
    requires (b == DASH || b == STAR || b == UNDERSCORE) && n >= 3
    ensures IsHorizontalRule(Repeat(b, n))
  {
    var line := Repeat(b, n);
    assert LeadingSpace(line) == 0 && line[0..] == line;
    assert TrimEnd(line) == line;
  }

  /** A line is a rule exactly if, spaces around it aside, it has three bytes or
      more, the first is one of the three and the others are the same or spaces. */
  lemma RuleIsExact(k: nat, body: Bytes)
    requires body != [] && 33 <= body[0] < 0x80 && 33 <= body[|body| - 1] < 0x80
    ensures IsHorizontalRule(Indented(k, body)) <==>
              && |body| >= 3 && body[0] in [DASH, STAR, UNDERSCORE]
              && forall i :: 0 <= i < |body| ==> body[i] in [body[0], SPACE]
  {
    hide LeadingSpace;
    SpacesLead(k, body);
    assert TrimEnd(body) == body;
  }

  /** A line that begins with a letter is plain text. */
  lemma PlainIsShown(k: nat, rest: Bytes, strip: bool, hl: Option<Painter>)
    requires rest != [] && (65 <= rest[0] <= 90 || 97 <= rest[0] <= 122)
    ensures OneLine(Indented(k, rest), NO_FENCE, strip, hl)
            == ((if k > 0 then [Segment(Repeat(SPACE, k), Paragraph)] else []) + InlineSegments(rest, Paragraph, strip),
                NO_FENCE)
  {
    hide OneLine, InlineSegments, LeadingSpace, TrimEnd, QuoteEnd, IsFence;
    SpacesLead(k, rest);
    TrimmedStart(rest);
    OrdinaryLine(k, rest, strip, hl);
    NotAFence(k, rest);
    NoQuote(rest);
    StaysOpen(Indented(k, rest), strip, hl);
  }

  lemma StaysOpen(line: Bytes, strip: bool, hl: Option<Painter>)
    requires !IsFence(line)
    ensures OneLine(line, NO_FENCE, strip, hl).1 == NO_FENCE
  {
  }

  /** A line that starts with `>` is a quote: the bar, unless stripped, and the
      rest tokenized, all of it slanted. */
  lemma QuoteIsShown(k: nat, text: Bytes, strip: bool, hl: Option<Painter>)
    requires text == [] || (text[0] != GREATER && text[0] != SPACE)
    ensures var rest := [GREATER, SPACE] + text;
            OneLine(Indented(k, rest), NO_FENCE, strip, hl).0
            == (if k > 0 then [Segment(Repeat(SPACE, k), Paragraph)] else [])
               + Slant((if strip then [] else [Segment([GREATER, SPACE], QuoteBar)])
                       + InlineSegments(text, QuoteText, strip))
  {
    hide OneLine, InlineSegments, Slant, LeadingSpace, TrimEnd;
    var rest := [GREATER, SPACE] + text;
    SpacesLead(k, rest);
    TrimmedStart(rest);
    OrdinaryLine(k, rest, strip, hl);
    assert QuoteEnd(rest, 0) == QuoteEnd(rest, 2) == 2;
    assert rest[..2] == [GREATER, SPACE] && rest[2..] == text;
  }

  /** Trimming the end keeps a first byte that is no white space. */
  lemma {:induction false} TrimmedStart(s: Bytes)
    requires s != [] && 33 <= s[0] < 0x80
    ensures TrimEnd(s) != [] && TrimEnd(s)[0] == s[0] && TrimEnd(s) <= s
    decreases |s|
  {
    var n := LastSpaceLen(s);
    if n > 0 {
      assert n < |s|;
      TrimmedStart(s[..|s| - n]);
    }
  }

  /** A bullet item that is no rule: the marker, stripped to a round bullet,
      and the rest tokenized. */
  lemma BulletIsShown(k: nat, b: Byte, text: Bytes, strip: bool, hl: Option<Painter>)
    requires b == DASH || b == STAR || b == PLUS
    requires text == [] || exists i :: 0 <= i < |text| && text[i] != b && 33 <= text[i] < 0x80
    ensures var rest := [b, SPACE] + text;
            OneLine(Indented(k, rest), NO_FENCE, strip, hl).0
            == (if k > 0 then [Segment(Repeat(SPACE, k), Paragraph)] else [])
               + ([Segment(if strip then BULLET else [b, SPACE], ListMarker)] + InlineSegments(text, Paragraph, strip))
  {
    hide OneLine, InlineSegments, IsHorizontalRule, QuoteEnd;
    var rest := [b, SPACE] + text;
    BulletIsNoRule(k, b, text);
    OrdinaryLine(k, rest, strip, hl);
    NoQuote(rest);
    assert rest[..2] == [b, SPACE] && rest[2..] == text;
  }

  lemma BulletIsNoRule(k: nat, b: Byte, text: Bytes)
    requires b == DASH || b == STAR || b == PLUS
    requires text == [] || exists i :: 0 <= i < |text| && text[i] != b && 33 <= text[i] < 0x80
    ensures !IsHorizontalRule(Indented(k, [b, SPACE] + text))
  {
    hide LeadingSpace, TrimEnd;
    var rest := [b, SPACE] + text;
    SpacesLead(k, rest);
    if text == [] {
      TrimmedStart(rest);
      return;
    }
    var i :| 0 <= i < |text| && text[i] != b && 33 <= text[i] < 0x80;
    assert rest[i + 2] == text[i];
    InkStays(rest, i + 2);
    var t := TrimEnd(rest);
    assert t[i + 2] == text[i] && t[0] == b;
  }

  lemma NoQuote(s: Bytes)
    requires s != [] && s[0] != GREATER
    ensures QuoteEnd(s, 0) == 0
  {
  }

  /** Trimming the end stops at a byte that is no white space. */
  lemma {:induction false} InkStays(s: Bytes, i: nat)
    requires i < |s| && 33 <= s[i] < 0x80
    ensures i < |TrimEnd(s)| && TrimEnd(s) <= s
    decreases |s|
  {
    var n := LastSpaceLen(s);
    if n > 0 {
      assert i < |s| - n;
      InkStays(s[..|s| - n], i);
    }
  }

  lemma {:induction false} DigitsThen(digits: Bytes, rest: Bytes)
    requires (forall i :: 0 <= i < |digits| ==> IsDigit(digits[i])) && (rest == [] || !IsDigit(rest[0]))
    ensures DigitsLen(digits + rest) == |digits|
    decreases |digits|
  {
    if digits == [] {
      assert digits + rest == rest;
    } else {
      assert (digits + rest)[1..] == digits[1..] + rest;
      DigitsThen(digits[1..], rest);
    }
  }

  /** A numbered item keeps its number, stripped or not. */
  lemma NumberIsShown(k: nat, digits: Bytes, mark: Byte, text: Bytes, strip: bool, hl: Option<Painter>)
    requires digits != [] && (forall i :: 0 <= i < |digits| ==> 48 <= digits[i] <= 57)
    requires mark == DOT || mark == CLOSE_PAREN
    ensures var marker := digits + [mark, SPACE];
            OneLine(Indented(k, marker + text), NO_FENCE, strip, hl).0
            == (if k > 0 then [Segment(Repeat(SPACE, k), Paragraph)] else [])
               + ([Segment(marker, ListMarker)] + InlineSegments(text, Paragraph, strip))
  {
    hide OneLine, InlineSegments, LeadingSpace, TrimEnd, QuoteEnd, DigitsLen;
    var marker := digits + [mark, SPACE];
    var rest := marker + text;
    assert rest[0] == digits[0] && IsDigit(rest[0]);
    SpacesLead(k, rest);
    TrimmedStart(rest);
    OrdinaryLine(k, rest, strip, hl);
    NoQuote(rest);
    DigitsThen(digits, [mark, SPACE] + text);
    assert rest == digits + ([mark, SPACE] + text);
    assert rest[|digits|] == mark && rest[|digits| + 1] == SPACE;
    assert rest[..|digits| + 2] == marker && rest[|digits| + 2..] == text;
  }
}
