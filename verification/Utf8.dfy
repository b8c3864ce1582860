// Well-formed UTF-8 (RFC 3629, section 4), its character boundaries, and white
// space in it.
module Utf8 {
  type Byte = b: nat | b < 256
  type Bytes = seq<Byte>

  /** A continuation byte. */
  predicate Cont(b: Byte) { 0x80 <= b < 0xC0 }

  /** Length of the well-formed character at the front; 0 if there is none. */
  function CharLen(s: Bytes): (n: nat)
    ensures n <= |s| && n <= 4
    ensures forall i :: 0 < i < n ==> Cont(s[i])
    ensures n > 0 ==> !Cont(s[0])
  {
    if s == [] then 0
    else if s[0] < 0x80 then 1
    else if |s| < 2 then 0
    else if 0xC2 <= s[0] <= 0xDF then (if Cont(s[1]) then 2 else 0)
    else if |s| < 3 then 0
    else if 0xE0 <= s[0] <= 0xEF then
      (if Cont(s[1]) && Cont(s[2]) && (s[0] == 0xE0 ==> s[1] >= 0xA0) && (s[0] == 0xED ==> s[1] < 0xA0) then 3 else 0)
    else if |s| < 4 then 0
    else if 0xF0 <= s[0] <= 0xF4 then
      (if Cont(s[1]) && Cont(s[2]) && Cont(s[3]) && (s[0] == 0xF0 ==> s[1] >= 0x90) && (s[0] == 0xF4 ==> s[1] < 0x90)
       then 4 else 0)
    else 0
  }

  /** A sequence of well-formed characters. */
  predicate Valid(s: Bytes)
    decreases |s|
  {
    s == [] || (CharLen(s) > 0 && Valid(s[CharLen(s)..]))
  }

  /** A position where a text may be cut. */
  predicate Boundary(s: Bytes, i: nat)
    requires i <= |s|
  {
    i == |s| || !Cont(s[i])
  }

  lemma CharLenOfPrefix(s: Bytes, i: nat)
    requires CharLen(s) <= i <= |s| && CharLen(s) > 0
    ensures CharLen(s[..i]) == CharLen(s)
  {
    assert forall k :: 0 <= k < i ==> s[..i][k] == s[k];
  }

  /** Cutting a valid text at a boundary gives two valid texts. */
  lemma {:induction false} CutIsValid(s: Bytes, i: nat)
    requires Valid(s) && i <= |s| && Boundary(s, i)
    ensures Valid(s[..i]) && Valid(s[i..])
    decreases |s|
  {
    hide CharLen;
    if i > 0 {
      var n := CharLen(s);
      assert i >= n;
      CutIsValid(s[n..], i - n);
      assert s[n..][i - n..] == s[i..];
      CharLenOfPrefix(s, i);
      assert s[..i][n..] == s[n..][..i - n];
    } else {
      assert s[..0] == [] && s[0..] == s;
    }
  }

  lemma SliceIsValid(s: Bytes, i: nat, j: nat)
    requires Valid(s) && i <= j <= |s| && Boundary(s, i) && Boundary(s, j)
    ensures Valid(s[i..j])
  {
    hide Valid;
    CutIsValid(s, i);
    assert j < |s| ==> s[i..][j - i] == s[j];
    CutIsValid(s[i..], j - i);
    assert s[i..][..j - i] == s[i..j];
  }

  /** Both sides of an ASCII byte are boundaries. */
  lemma AroundAscii(s: Bytes, i: nat)
    requires Valid(s) && i < |s| && s[i] < 0x80
    ensures Boundary(s, i) && Boundary(s, i + 1)
  {
    CutIsValid(s, i);
    var t := s[i..];
    assert CharLen(t) == 1;
    assert t[1..] == s[i + 1..];
    if i + 1 < |s| {
      assert s[i + 1..][0] == s[i + 1];
    }
  }

  // --- White space ---

  /** Length of the white-space character at the front; 0 if there is none. */
  function SpaceLen(s: Bytes): (n: nat)
    ensures n <= |s|
    ensures Valid(s) && n > 0 ==> CharLen(s) == n
  {
    if s == [] then 0
    else if 9 <= s[0] <= 13 || s[0] == 32 then 1
    else if |s| >= 2 && s[0] == 0xC2 && (s[1] == 0x85 || s[1] == 0xA0) then 2
    else if |s| >= 3 && SpaceOf3(s[0], s[1], s[2]) then 3
    else 0
  }

  predicate SpaceOf3(a: Byte, b: Byte, c: Byte) {
    || (a == 0xE1 && b == 0x9A && c == 0x80)
    || (a == 0xE2 && b == 0x80 && (0x80 <= c <= 0x8A || c == 0xA8 || c == 0xA9 || c == 0xAF))
    || (a == 0xE2 && b == 0x81 && c == 0x9F)
    || (a == 0xE3 && b == 0x80 && c == 0x80)
  }

  /** Length of the leading white space. */
  function LeadingSpace(s: Bytes): (n: nat)
    ensures n <= |s|
    decreases |s|
  {
    if SpaceLen(s) == 0 then 0 else SpaceLen(s) + LeadingSpace(s[SpaceLen(s)..])
  }

  function TrimStart(s: Bytes): Bytes { s[LeadingSpace(s)..] }

  /** Length of the white-space character at the end; 0 if there is none. */
  function LastSpaceLen(s: Bytes): (n: nat)
    ensures n <= |s|
  {
    var n := |s|;
    if n == 0 then 0
    else if 9 <= s[n - 1] <= 13 || s[n - 1] == 32 then 1
    else if n >= 2 && s[n - 2] == 0xC2 && (s[n - 1] == 0x85 || s[n - 1] == 0xA0) then 2
    else if n >= 3 && SpaceOf3(s[n - 3], s[n - 2], s[n - 1]) then 3
    else 0
  }

  function TrimEnd(s: Bytes): Bytes
    decreases |s|
  {
    if LastSpaceLen(s) == 0 then s else TrimEnd(s[..|s| - LastSpaceLen(s)])
  }

  /** Bytes up to the first white space. */
  function FirstWord(s: Bytes): Bytes {
    if s == [] || SpaceLen(s) > 0 then [] else [s[0]] + FirstWord(s[1..])
  }

  /** Leading white space of a valid text ends at a boundary. */
  lemma {:induction false} LeadingSpaceCuts(s: Bytes)
    requires Valid(s)
    ensures Boundary(s, LeadingSpace(s))
    decreases |s|
  {
    var n := SpaceLen(s);
    if n > 0 {
      LeadingSpaceCuts(s[n..]);
      var m := LeadingSpace(s[n..]);
      assert n + m < |s| ==> s[n..][m] == s[n + m];
    } else if s != [] {
      assert CharLen(s) > 0;
    }
  }
}
