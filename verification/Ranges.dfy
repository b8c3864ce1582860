// Lists of half-open line ranges: sorted, disjoint, non-empty.  How inserting
// and deleting lines shifts them, and the binary searches that rely on them.
module Ranges {
  datatype Range = Range(s: nat, e: nat)

  datatype Found = NotFound | Found(r: Range)

  /** Sorted, disjoint and without empty ranges. */
  predicate Sorted(rs: seq<Range>) {
    && (forall i :: 0 <= i < |rs| ==> rs[i].s < rs[i].e)
    && (forall i, j :: 0 <= i < j < |rs| ==> rs[i].e <= rs[j].s)
  }

  /** Sorted, and neighbours do not touch either. */
  predicate Canonical(rs: seq<Range>) {
    && (forall i :: 0 <= i < |rs| ==> rs[i].s < rs[i].e)
    && (forall i, j :: 0 <= i < j < |rs| ==> rs[i].e < rs[j].s)
  }

  predicate Holds(r: Range, line: nat) { r.s <= line < r.e }

  /** Whether some range holds the line. */
  predicate Covers(rs: seq<Range>, line: nat) {
    rs != [] && (Covers(rs[..|rs| - 1], line) || Holds(rs[|rs| - 1], line))
  }

  /** The lines the ranges hold. */
  function LineSet(rs: seq<Range>): (ls: set<nat>)
    ensures forall l: nat :: l in ls <==> Covers(rs, l)
  {
    if rs == [] then {}
    else
      var r := rs[|rs| - 1];
      LineSet(rs[..|rs| - 1]) + set l: nat | l < r.e && Holds(r, l)
  }

  lemma CoversSnoc(rs: seq<Range>, r: Range, l: nat)
    ensures Covers(rs + [r], l) <==> Covers(rs, l) || Holds(r, l)
  {
    assert (rs + [r])[..|rs|] == rs;
  }

  lemma {:induction false} CoversConcat(a: seq<Range>, b: seq<Range>, l: nat)
    ensures Covers(a + b, l) <==> Covers(a, l) || Covers(b, l)
    decreases |b|
  {
    if b == [] {
      assert a + b == a;
    } else {
      assert (a + b)[..|a + b| - 1] == a + b[..|b| - 1];
      CoversConcat(a, b[..|b| - 1], l);
    }
  }

  lemma {:induction false} CoversIndex(rs: seq<Range>, i: nat, l: nat)
    requires i < |rs| && Holds(rs[i], l)
    ensures Covers(rs, l)
  {
    if i < |rs| - 1 {
      CoversIndex(rs[..|rs| - 1], i, l);
    }
  }

  lemma {:induction false} HolderOf(rs: seq<Range>, l: nat) returns (i: nat)
    requires Covers(rs, l)
    ensures i < |rs| && Holds(rs[i], l)
  {
    if Holds(rs[|rs| - 1], l) {
      i := |rs| - 1;
    } else {
      i := HolderOf(rs[..|rs| - 1], l);
    }
  }

  // --- Binary searches ---

  /** First range that ends past `line`. */
  method PartitionPoint(rs: seq<Range>, line: nat) returns (i: nat)
    requires Sorted(rs)
    ensures i <= |rs|
    ensures forall k :: 0 <= k < i ==> rs[k].e <= line
    ensures forall k :: i <= k < |rs| ==> line < rs[k].e
  {
    var lo, hi := 0, |rs|;
    while lo < hi
      invariant 0 <= lo <= hi <= |rs|
      invariant forall k :: 0 <= k < lo ==> rs[k].e <= line
      invariant forall k :: hi <= k < |rs| ==> line < rs[k].e
    {
      var mid := (lo + hi) / 2;
      if rs[mid].e <= line {
        lo := mid + 1;
      } else {
        hi := mid;
      }
    }
    i := lo;
  }

  /** The range that holds `line`, if any. */
  method RangeContaining(rs: seq<Range>, line: nat) returns (found: Found)
    requires Sorted(rs)
    ensures found.Found? <==> Covers(rs, line)
    ensures found.Found? ==> found.r in rs && Holds(found.r, line)
    ensures found == BlockAt(rs, line)
  {
    var i := PartitionPoint(rs, line);
    if i < |rs| && rs[i].s <= line {
      CoversIndex(rs, i, line);
      BlockAtIsTheHolder(rs, i, line);
      found := Found(rs[i]);
    } else {
      if Covers(rs, line) {
        var k := HolderOf(rs, line);
        assert false;
      }
      NoBlockAt(rs, line);
      found := NotFound;
    }
  }

  /** Whether a range meets the lines `lo..hi`, both included. */
  method RangesOverlap(rs: seq<Range>, lo: nat, hi: nat) returns (b: bool)
    requires Sorted(rs) && lo <= hi
    ensures b <==> Meets(rs, lo, hi)
  {
    var i := PartitionPoint(rs, lo);
    b := i < |rs| && rs[i].s <= hi;
    if b {
      CoversIndex(rs, i, if rs[i].s <= lo then lo else rs[i].s);
    } else if Meets(rs, lo, hi) {
      var l :| lo <= l <= hi && Covers(rs, l);
      var k := HolderOf(rs, l);
      assert false;
    }
  }

  /** Whether one of the lines `lo..hi` is covered. */
  predicate Meets(rs: seq<Range>, lo: nat, hi: nat) {
    exists l :: lo <= l <= hi && Covers(rs, l)
  }

  /** The range that holds `line`, searched from the end. */
  function BlockAt(rs: seq<Range>, line: nat): Found {
    if rs == [] then NotFound
    else if Holds(rs[|rs| - 1], line) then Found(rs[|rs| - 1])
    else BlockAt(rs[..|rs| - 1], line)
  }

  lemma {:induction false} BlockAtIsTheHolder(rs: seq<Range>, i: nat, line: nat)
    requires Sorted(rs) && i < |rs| && Holds(rs[i], line)
    ensures BlockAt(rs, line) == Found(rs[i])
  {
    if i < |rs| - 1 {
      BlockAtIsTheHolder(rs[..|rs| - 1], i, line);
    }
  }

  lemma {:induction false} NoBlockAt(rs: seq<Range>, line: nat)
    requires !Covers(rs, line)
    ensures BlockAt(rs, line) == NotFound
  {
    if rs != [] {
      NoBlockAt(rs[..|rs| - 1], line);
    }
  }

  // --- Shifting for inserted lines ---

  /** What becomes of one range when `n` lines are inserted at `(line, col)`. */
  function ShiftOneInsert(r: Range, line: nat, col: nat, n: nat): seq<Range> {
    if r.e <= line then [r]
    else if r.s >= line then [Range(r.s + n, r.e + n)]
    else if col == 0 then [Range(r.s, line), Range(line + n, r.e + n)]
    else [r]
  }

  function ShiftInsert(rs: seq<Range>, line: nat, col: nat, n: nat): seq<Range> {
    if rs == [] then []
    else ShiftInsert(rs[..|rs| - 1], line, col, n) + ShiftOneInsert(rs[|rs| - 1], line, col, n)
  }

  /** The shifted list ends no later than its end shifts. */
  ghost predicate EndsBy(out: seq<Range>, rs: seq<Range>, line: nat, n: nat) {
    if rs == [] then out == []
    else out != [] && out[|out| - 1].e <= rs[|rs| - 1].e + if rs[|rs| - 1].e <= line then 0 else n
  }

  lemma {:induction false} ShiftInsertSorted(rs: seq<Range>, line: nat, col: nat, n: nat)
    requires Sorted(rs) && n > 0
    ensures Sorted(ShiftInsert(rs, line, col, n))
    ensures EndsBy(ShiftInsert(rs, line, col, n), rs, line, n)
  {
    if rs != [] {
      ShiftInsertSorted(rs[..|rs| - 1], line, col, n);
      SortedSnoc(ShiftInsert(rs[..|rs| - 1], line, col, n), ShiftOneInsert(rs[|rs| - 1], line, col, n));
    }
  }

  lemma SortedSnoc(a: seq<Range>, b: seq<Range>)
    requires Sorted(a) && Sorted(b)
    requires a != [] && b != [] ==> a[|a| - 1].e <= b[0].s
    ensures Sorted(a + b)
  {
  }

  /** Lines at or below `line` move down by `n`, and `n` uncovered lines appear;
      this is what an insert does that splits no covered line. */
  ghost function OpenGap(ls: set<nat>, line: nat, n: nat): set<nat> {
    (set l | l in ls && l < line) + (set l | l in ls && l >= line :: l + n)
  }

  /** Lines from `line + n` on move up by `n`. */
  ghost function CloseGap(ls: set<nat>, line: nat, n: nat): set<nat> {
    (set l | l in ls && l <= line) + (set l | l in ls && l > line && l >= line + n :: l - n)
  }

  lemma {:induction false} ShiftInsertCovers(rs: seq<Range>, line: nat, col: nat, n: nat, l: nat)
    requires Sorted(rs) && n > 0 && (col == 0 || !Covers(rs, line))
    ensures Covers(ShiftInsert(rs, line, col, n), l)
       <==> (l < line && Covers(rs, l)) || (l >= line + n && Covers(rs, l - n))
  {
    if rs != [] {
      var init, r := rs[..|rs| - 1], rs[|rs| - 1];
      ShiftInsertCovers(init, line, col, n, l);
      CoversConcat(ShiftInsert(init, line, col, n), ShiftOneInsert(r, line, col, n), l);
      OneInsertCovers(r, line, col, n, l);
    }
  }

  lemma OneInsertCovers(r: Range, line: nat, col: nat, n: nat, l: nat)
    requires r.s < r.e && n > 0 && (col == 0 || !Holds(r, line))
    ensures Covers(ShiftOneInsert(r, line, col, n), l)
       <==> (l < line && Holds(r, l)) || (l >= line + n && Holds(r, l - n))
  {
    hide Covers;
    var out := ShiftOneInsert(r, line, col, n);
    CoversOne(out[0], l);
    if |out| == 2 {
      CoversOne(out[1], l);
      CoversConcat([out[0]], [out[1]], l);
      assert [out[0]] + [out[1]] == out;
    } else {
      assert [out[0]] == out;
    }
  }

  lemma CoversOne(r: Range, l: nat)
    ensures Covers([r], l) <==> Holds(r, l)
  {
  }

  /** Ranges that end by `p` stay and ranges from `p` on move. */
  lemma {:induction false} ShiftsFrom(rs: seq<Range>, line: nat, col: nat, n: nat, p: nat, l: nat)
    requires col > 0 && line <= p
    requires forall i :: 0 <= i < |rs| ==>
               || (rs[i].e <= p && (rs[i].e <= line || rs[i].s < line))
               || (p <= rs[i].s && rs[i].s < rs[i].e)
    ensures Covers(ShiftInsert(rs, line, col, n), l)
       <==> (l < p && Covers(rs, l)) || (l >= p + n && Covers(rs, l - n))
  {
    if rs != [] {
      var init, r := rs[..|rs| - 1], rs[|rs| - 1];
      ShiftsFrom(init, line, col, n, p, l);
      CoversConcat(ShiftInsert(init, line, col, n), ShiftOneInsert(r, line, col, n), l);
      CoversOne(ShiftOneInsert(r, line, col, n)[0], l);
    }
  }

  /** A break inside a covered line: a range that begins with the line moves
      down whole, any other keeps its lines, so that its last text drops out of it. */
  lemma ShiftInsertInsideLine(rs: seq<Range>, line: nat, col: nat, n: nat, l: nat)
    requires Sorted(rs) && col > 0 && Covers(rs, line)
    ensures var i := HolderIndex(rs, line);
            var p := if rs[i].s == line then line else rs[i].e;
            Covers(ShiftInsert(rs, line, col, n), l) <==> (l < p && Covers(rs, l)) || (l >= p + n && Covers(rs, l - n))
  {
    hide Covers;
    var i := HolderIndex(rs, line);
    ShiftsFrom(rs, line, col, n, if rs[i].s == line then line else rs[i].e, l);
  }

  /** The range that holds the line. */
  ghost function HolderIndex(rs: seq<Range>, line: nat): (i: nat)
    requires Covers(rs, line)
    ensures i < |rs| && Holds(rs[i], line)
  {
    CoveredHasHolder(rs, line);
    var i :| 0 <= i < |rs| && Holds(rs[i], line);
    i
  }

  lemma CoveredHasHolder(rs: seq<Range>, line: nat)
    requires Covers(rs, line)
    ensures exists i :: 0 <= i < |rs| && Holds(rs[i], line)
  {
    var i := HolderOf(rs, line);
  }

  /** An insert that splits no covered line opens a gap. */
  lemma ShiftInsertOpensGap(rs: seq<Range>, line: nat, col: nat, n: nat)
    requires Sorted(rs) && n > 0 && (col == 0 || !Covers(rs, line))
    ensures LineSet(ShiftInsert(rs, line, col, n)) == OpenGap(LineSet(rs), line, n)
  {
    hide Covers, ShiftInsert, LineSet;
    var out := ShiftInsert(rs, line, col, n);
    forall l: nat
      ensures l in LineSet(out) <==> l in OpenGap(LineSet(rs), line, n)
    {
      ShiftInsertCovers(rs, line, col, n, l);
      InOpenGap(LineSet(rs), line, n, l);
    }
  }

  lemma InOpenGap(ls: set<nat>, line: nat, n: nat, l: nat)
    ensures l in OpenGap(ls, line, n) <==> (l < line && l in ls) || (l >= line + n && l - n in ls)
  {
    if l >= line + n && l - n in ls {
      assert (l - n) + n == l;
    }
  }

  lemma InCloseGap(ls: set<nat>, line: nat, n: nat, l: nat)
    requires n > 0
    ensures l in CloseGap(ls, line, n) <==> (l <= line && l in ls) || (l >= line && l + n in ls)
  {
    if l >= line && l + n in ls {
      assert (l + n) - n == l;
    }
  }

  // --- Shifting for deleted lines ---

  function Sub(a: nat, b: nat): nat { if a < b then 0 else a - b }

  function ShiftOneDelete(r: Range, line: nat, n: nat): Range {
    if r.s > line then Range(Sub(r.s, n), Sub(r.e, n)) else r
  }

  function MapDelete(rs: seq<Range>, line: nat, n: nat): seq<Range> {
    seq(|rs|, i requires 0 <= i < |rs| => ShiftOneDelete(rs[i], line, n))
  }

  /** Drop empty ranges and merge overlapping neighbours. */
  function Normalize(rs: seq<Range>): seq<Range> {
    if rs == [] then []
    else
      var out, r := Normalize(rs[..|rs| - 1]), rs[|rs| - 1];
      if r.s >= r.e then out
      else if out != [] && r.s < out[|out| - 1].e
      then out[..|out| - 1] + [Grow(out[|out| - 1], r)]
      else out + [r]
  }

  function ShiftDelete(rs: seq<Range>, line: nat, n: nat): seq<Range> {
    if n == 0 then rs else Normalize(MapDelete(rs, line, n))
  }

  /** Normalizing restores the invariant whatever the list looked like. */
  lemma {:induction false} NormalizeSorts(rs: seq<Range>)
    ensures Sorted(Normalize(rs))
  {
    if rs != [] {
      NormalizeSorts(rs[..|rs| - 1]);
    }
  }

  /** Normalizing a list in order of its starts covers the same lines. */
  lemma {:induction false} NormalizeCovers(rs: seq<Range>, l: nat)
    requires forall i, j :: 0 <= i < j < |rs| ==> rs[i].s <= rs[j].s
    ensures Covers(Normalize(rs), l) <==> Covers(rs, l)
    ensures Normalize(rs) != [] ==> rs != [] && Normalize(rs)[|Normalize(rs)| - 1].s <= rs[|rs| - 1].s
  {
    if rs != [] {
      var front, r := rs[..|rs| - 1], rs[|rs| - 1];
      var out := Normalize(front);
      NormalizeCovers(front, l);
      if r.s < r.e && out != [] && r.s < out[|out| - 1].e {
        CoversSnoc(out[..|out| - 1], Grow(out[|out| - 1], r), l);
      } else if r.s < r.e {
        CoversSnoc(out, r, l);
      }
    }
  }

  lemma SortedFront(rs: seq<Range>)
    requires Sorted(rs) && rs != []
    ensures var front, r := rs[..|rs| - 1], rs[|rs| - 1];
            && Sorted(front) && front + [r] == rs && r.s < r.e
            && (front != [] ==> front[|front| - 1].e <= r.s)
  {
  }

  lemma {:induction false} NormalizeKeepsSorted(rs: seq<Range>)
    requires Sorted(rs)
    ensures Normalize(rs) == rs
  {
    hide Sorted;
    if rs != [] {
      SortedFront(rs);
      NormalizeKeepsSorted(rs[..|rs| - 1]);
    }
  }

  /** No line strictly between is covered, and not both ends are. */
  ghost predicate ClosableAt(rs: seq<Range>, line: nat, n: nat) {
    && (forall l :: line < l < line + n ==> !Covers(rs, l))
    && (Covers(rs, line) ==> !Covers(rs, line + n))
  }

  /** With nothing covered in the closed span, every range moves as a whole. */
  lemma WholeRange(rs: seq<Range>, line: nat, n: nat, i: nat)
    requires Sorted(rs) && n > 0 && ClosableAt(rs, line, n) && i < |rs|
    ensures rs[i].s > line ==> rs[i].s >= line + n
    ensures rs[i].s <= line ==> rs[i].e <= line + 1
  {
    if rs[i].s > line {
      CoversIndex(rs, i, rs[i].s);
    } else if rs[i].e > line + 1 {
      CoversIndex(rs, i, line);
      CoversIndex(rs, i, line + 1);
    }
  }

  lemma WholeRanges(rs: seq<Range>, line: nat, n: nat)
    requires Sorted(rs) && n > 0 && ClosableAt(rs, line, n)
    ensures forall i :: 0 <= i < |rs| ==>
              (rs[i].s > line ==> rs[i].s >= line + n) && (rs[i].s <= line ==> rs[i].e <= line + 1)
    ensures Sorted(MapDelete(rs, line, n))
  {
    hide ClosableAt, Covers;
    forall i | 0 <= i < |rs|
      ensures (rs[i].s > line ==> rs[i].s >= line + n) && (rs[i].s <= line ==> rs[i].e <= line + 1)
    {
      WholeRange(rs, line, n, i);
    }
    forall i, j | 0 <= i < j < |rs| && rs[i].s <= line < rs[j].s && rs[i].e == line + 1
      ensures rs[j].s > line + n
    {
      if rs[j].s == line + n {
        CoversIndex(rs, i, line);
        CoversIndex(rs, j, line + n);
        assert ClosableAt(rs, line, n);
        NotBothEnds(rs, line, n);
      }
    }
  }

  lemma NotBothEnds(rs: seq<Range>, line: nat, n: nat)
    requires ClosableAt(rs, line, n)
    ensures !(Covers(rs, line) && Covers(rs, line + n))
  {
  }

  lemma MapDeleteCovers(rs: seq<Range>, line: nat, n: nat, l: nat)
    requires Sorted(rs) && n > 0 && ClosableAt(rs, line, n)
    ensures Covers(MapDelete(rs, line, n), l) <==> (l <= line && Covers(rs, l)) || (l >= line && Covers(rs, l + n))
  {
    hide Covers, ClosableAt;
    WholeRanges(rs, line, n);
    var out := MapDelete(rs, line, n);
    if Covers(out, l) {
      var i := HolderOf(out, l);
      CoversIndex(rs, i, if rs[i].s > line then l + n else l);
    }
    if l <= line && Covers(rs, l) {
      var i := HolderOf(rs, l);
      CoversIndex(out, i, l);
    }
    if l >= line && Covers(rs, l + n) {
      var i := HolderOf(rs, l + n);
      CoversIndex(out, i, l);
    }
  }

  /** A delete across uncovered lines closes the gap. */
  lemma ShiftDeleteClosesGap(rs: seq<Range>, line: nat, n: nat)
    requires Sorted(rs) && n > 0 && ClosableAt(rs, line, n)
    ensures Sorted(ShiftDelete(rs, line, n))
    ensures LineSet(ShiftDelete(rs, line, n)) == CloseGap(LineSet(rs), line, n)
  {
    hide Covers, LineSet, ClosableAt;
    WholeRanges(rs, line, n);
    var out := MapDelete(rs, line, n);
    NormalizeKeepsSorted(out);
    forall l: nat
      ensures l in LineSet(out) <==> l in CloseGap(LineSet(rs), line, n)
    {
      MapDeleteCovers(rs, line, n, l);
      InCloseGap(LineSet(rs), line, n, l);
    }
  }

  // --- Merging and adding ---

  /** The range grown to the end of `r`, if that is further. */
  function Grow(last: Range, r: Range): Range {
    Range(last.s, if last.e < r.e then r.e else last.e)
  }

  /** Append `r`, or let the last range absorb it when the two touch. */
  function MergeIn(out: seq<Range>, r: Range): seq<Range> {
    if out != [] && r.s <= out[|out| - 1].e
    then out[..|out| - 1] + [Grow(out[|out| - 1], r)]
    else out + [r]
  }

  /** Merge touching neighbours. */
  function Merge(rs: seq<Range>): seq<Range> {
    if rs == [] then [] else MergeIn(Merge(rs[..|rs| - 1]), rs[|rs| - 1])
  }

  predicate StartSorted(rs: seq<Range>) {
    && (forall i :: 0 <= i < |rs| ==> rs[i].s < rs[i].e)
    && (forall i, j :: 0 <= i < j < |rs| ==> rs[i].s <= rs[j].s)
  }

  lemma MergeInIsCanonical(out: seq<Range>, r: Range)
    requires Canonical(out) && r.s < r.e && (out != [] ==> out[|out| - 1].s <= r.s)
    ensures Canonical(MergeIn(out, r))
    ensures MergeIn(out, r) != [] && MergeIn(out, r)[|MergeIn(out, r)| - 1].s <= r.s
  {
  }

  lemma MergeInCovers(out: seq<Range>, r: Range, l: nat)
    requires Canonical(out) && r.s < r.e && (out != [] ==> out[|out| - 1].s <= r.s)
    ensures Covers(MergeIn(out, r), l) <==> Covers(out, l) || Holds(r, l)
  {
    if out != [] && r.s <= out[|out| - 1].e {
      CoversSnoc(out[..|out| - 1], Grow(out[|out| - 1], r), l);
    } else {
      CoversSnoc(out, r, l);
    }
  }

  /** Merging gives a canonical list. */
  lemma {:induction false} MergeIsCanonical(rs: seq<Range>)
    requires StartSorted(rs)
    ensures Canonical(Merge(rs))
    ensures rs != [] ==> Merge(rs) != [] && Merge(rs)[|Merge(rs)| - 1].s <= rs[|rs| - 1].s
  {
    hide MergeIn, Canonical;
    if rs != [] {
      MergeIsCanonical(rs[..|rs| - 1]);
      MergeInIsCanonical(Merge(rs[..|rs| - 1]), rs[|rs| - 1]);
    } else {
      assert Canonical([]) by { NothingIsCanonical(); }
    }
  }

  lemma NothingIsCanonical()
    ensures Canonical([])
  {
  }

  /** Merging covers the same lines. */
  lemma {:induction false} MergeCovers(rs: seq<Range>, l: nat)
    requires StartSorted(rs)
    ensures Covers(Merge(rs), l) <==> Covers(rs, l)
  {
    hide MergeIn, Canonical;
    if rs != [] {
      MergeCovers(rs[..|rs| - 1], l);
      MergeIsCanonical(rs[..|rs| - 1]);
      MergeInCovers(Merge(rs[..|rs| - 1]), rs[|rs| - 1], l);
    }
  }

  /** Put `r` after every range that starts no later: the stable sort of a
      sorted list with `r` at its end. */
  function InsertByStart(rs: seq<Range>, r: Range): (out: seq<Range>)
    ensures |out| == |rs| + 1
  {
    if rs == [] || rs[|rs| - 1].s <= r.s then rs + [r]
    else InsertByStart(rs[..|rs| - 1], r) + [rs[|rs| - 1]]
  }

  lemma {:induction false} InsertByStartSorts(rs: seq<Range>, r: Range)
    requires StartSorted(rs) && r.s < r.e
    ensures StartSorted(InsertByStart(rs, r))
    ensures var last := InsertByStart(rs, r)[|rs|].s;
            last == r.s || (rs != [] && last == rs[|rs| - 1].s && last > r.s)
  {
    if rs != [] && rs[|rs| - 1].s > r.s {
      InsertByStartSorts(rs[..|rs| - 1], r);
    }
  }

  lemma {:induction false} InsertByStartCovers(rs: seq<Range>, r: Range, l: nat)
    ensures Covers(InsertByStart(rs, r), l) <==> Covers(rs, l) || Holds(r, l)
  {
    if rs == [] || rs[|rs| - 1].s <= r.s {
      CoversSnoc(rs, r, l);
    } else {
      InsertByStartCovers(rs[..|rs| - 1], r, l);
      CoversSnoc(InsertByStart(rs[..|rs| - 1], r), rs[|rs| - 1], l);
    }
  }

  /** Mark `[s, e)` as covered. */
  function Add(rs: seq<Range>, s: nat, e: nat): seq<Range> {
    if s >= e then rs else Merge(InsertByStart(rs, Range(s, e)))
  }

  lemma AddSorts(rs: seq<Range>, s: nat, e: nat)
    requires Sorted(rs)
    ensures Sorted(Add(rs, s, e))
  {
    hide InsertByStart, Merge;
    if s < e {
      InsertByStartSorts(rs, Range(s, e));
      MergeIsCanonical(InsertByStart(rs, Range(s, e)));
    }
  }

  lemma AddCovers(rs: seq<Range>, s: nat, e: nat, l: nat)
    requires Sorted(rs)
    ensures Covers(Add(rs, s, e), l) <==> Covers(rs, l) || s <= l < e
  {
    hide InsertByStart, Merge, Covers;
    if s < e {
      InsertByStartSorts(rs, Range(s, e));
      MergeCovers(InsertByStart(rs, Range(s, e)), l);
      InsertByStartCovers(rs, Range(s, e), l);
    }
  }

  /** The canonical list of a set of lines is unique. */
  lemma {:induction false} CanonicalIsUnique(a: seq<Range>, b: seq<Range>)
    requires Canonical(a) && Canonical(b)
    requires forall l: nat :: Covers(a, l) <==> Covers(b, l)
    ensures a == b
    decreases |a|
  {
    hide Covers;
    if a != [] && b != [] {
      SameLast(a, b);
      SameLast(b, a);
      var a', b', r := a[..|a| - 1], b[..|b| - 1], a[|a| - 1];
      forall l: nat
        ensures Covers(a', l) <==> Covers(b', l)
      {
        DropLast(a, l);
        DropLast(b, l);
      }
      CanonicalIsUnique(a', b');
    } else if a != [] {
      CoversIndex(a, 0, a[0].s);
      var i := HolderOf(b, a[0].s);
    } else if b != [] {
      CoversIndex(b, 0, b[0].s);
      var i := HolderOf(a, b[0].s);
    }
  }

  lemma DropLast(a: seq<Range>, l: nat)
    requires Canonical(a) && a != []
    ensures Covers(a[..|a| - 1], l) <==> Covers(a, l) && l < a[|a| - 1].s
  {
    if Covers(a[..|a| - 1], l) {
      var i := HolderOf(a[..|a| - 1], l);
    }
  }

  /** The last range of one is no larger than the last range of the other. */
  lemma SameLast(a: seq<Range>, b: seq<Range>)
    requires Canonical(a) && Canonical(b) && a != [] && b != []
    requires forall l: nat :: Covers(a, l) <==> Covers(b, l)
    ensures a[|a| - 1].e <= b[|b| - 1].e
    ensures a[|a| - 1].e == b[|b| - 1].e ==> b[|b| - 1].s <= a[|a| - 1].s
  {
    hide Covers;
    var r, q := a[|a| - 1], b[|b| - 1];
    CoversIndex(a, |a| - 1, r.e - 1);
    var i := HolderOf(b, r.e - 1);
    if r.e == q.e && r.s < q.s {
      CoversIndex(a, |a| - 1, q.s - 1);
      var k := HolderOf(b, q.s - 1);
    }
  }

  // --- Gaps ---

  lemma CloseOpens(ls: set<nat>, line: nat, n: nat, at: nat)
    requires n > 0 && (at == line || at == line + 1)
    ensures CloseGap(OpenGap(ls, at, n), line, n) == ls
  {
    hide OpenGap, CloseGap;
    forall l: nat
      ensures l in CloseGap(OpenGap(ls, at, n), line, n) <==> l in ls
    {
      InCloseGap(OpenGap(ls, at, n), line, n, l);
      InOpenGap(ls, at, n, l);
      InOpenGap(ls, at, n, l + n);
    }
  }

  lemma OpenCloses(ls: set<nat>, line: nat, n: nat, at: nat)
    requires n > 0 && (at == line || at == line + 1)
    requires forall l :: line <= l <= line + n ==> l !in ls
    ensures OpenGap(CloseGap(ls, line, n), at, n) == ls
  {
    hide OpenGap, CloseGap;
    forall l: nat
      ensures l in OpenGap(CloseGap(ls, line, n), at, n) <==> l in ls
    {
      InOpenGap(CloseGap(ls, line, n), at, n, l);
      InCloseGap(ls, line, n, l);
      if l >= n {
        InCloseGap(ls, line, n, l - n);
      }
    }
  }
}
