// Line anchors: ids that follow their line while other lines come and go.
module Anchors {

  /** The store as a value: the next fresh id, and the line of each live id. */
  datatype Store = Store(next: nat, lines: map<nat, nat>)

  /** No two anchors share a line, and every id ever used is below `next`. */
  ghost predicate Proper(st: Store) {
    && (forall a :: a in st.lines ==> a < st.next)
    && (forall a, b :: a in st.lines && b in st.lines && st.lines[a] == st.lines[b] ==> a == b)
  }

  /** The anchor on `line`. */
  ghost predicate AnchorAt(st: Store, line: nat, a: nat) {
    a in st.lines && st.lines[a] == line
  }

  ghost predicate HasAnchor(st: Store, line: nat) {
    exists a :: AnchorAt(st, line, a)
  }

  /** First line that an insert at `(line, col)` moves. */
  function FirstMoved(line: nat, col: nat): nat { if col == 0 then line else line + 1 }

  function ShiftLine(l: nat, first: nat, n: nat): nat { if l >= first then l + n else l }

  /** Every anchor from the first moved line on goes down by `n`: the shift of the whole map. */
  function InsertLines(st: Store, line: nat, col: nat, n: nat): Store {
    st.(lines := map a | a in st.lines :: ShiftLine(st.lines[a], FirstMoved(line, col), n))
  }

  /** Whether a delete at `(line, col)` of `n` breaks swallows line `l` whole. */
  predicate Consumed(l: nat, line: nat, col: nat, n: nat) {
    FirstMoved(line, col) <= l <= line + n
  }

  /** The rebuild of the whole map: swallowed anchors go, later ones move up by `n`. */
  function DeleteLines(st: Store, line: nat, col: nat, n: nat): Store {
    if n == 0 then st
    else
      st.(lines := map a | a in st.lines && !Consumed(st.lines[a], line, col, n)
                       :: if st.lines[a] > line + n then st.lines[a] - n else st.lines[a])
  }

  /** The anchors that rebuild drops. */
  function DroppedBy(st: Store, line: nat, col: nat, n: nat): set<nat> {
    if n == 0 then {} else set a | a in st.lines && Consumed(st.lines[a], line, col, n)
  }

  ghost function Allocate(st: Store, line: nat): Store {
    if HasAnchor(st, line) then st
    else Store(st.next + 1, st.lines[st.next := line])
  }

  lemma InsertKeepsProper(st: Store, line: nat, col: nat, n: nat)
    requires Proper(st)
    ensures Proper(InsertLines(st, line, col, n))
  {
  }

  lemma DeleteKeepsProper(st: Store, line: nat, col: nat, n: nat)
    requires Proper(st)
    ensures Proper(DeleteLines(st, line, col, n))
  {
  }

  lemma AllocateKeepsProper(st: Store, line: nat)
    requires Proper(st)
    ensures Proper(Allocate(st, line)) && HasAnchor(Allocate(st, line), line)
  {
    if !HasAnchor(st, line) {
      forall a | a in st.lines
        ensures st.lines[a] != line
      {
        assert AnchorAt(st, line, a) <==> st.lines[a] == line;
      }
      assert AnchorAt(Allocate(st, line), line, st.next);
    }
  }

  // --- Runs ---

  datatype Op = OpAllocate(line: nat) | OpInsert(line: nat, col: nat, n: nat) | OpDelete(line: nat, col: nat, n: nat)

  ghost function Apply(st: Store, op: Op): Store {
    match op
    case OpAllocate(line) => Allocate(st, line)
    case OpInsert(line, col, n) => InsertLines(st, line, col, n)
    case OpDelete(line, col, n) => DeleteLines(st, line, col, n)
  }

  ghost function Run(st: Store, ops: seq<Op>): Store
    decreases |ops|
  {
    if ops == [] then st else Run(Apply(st, ops[0]), ops[1..])
  }

  const EMPTY := Store(0, map[])

  lemma {:induction false} RunKeepsProper(st: Store, ops: seq<Op>)
    requires Proper(st)
    ensures Proper(Run(st, ops)) && st.next <= Run(st, ops).next
    decreases |ops|
  {
    if ops != [] {
      match ops[0] {
        case OpAllocate(line) => AllocateKeepsProper(st, line);
        case OpInsert(line, col, n) => InsertKeepsProper(st, line, col, n);
        case OpDelete(line, col, n) => DeleteKeepsProper(st, line, col, n);
      }
      RunKeepsProper(Apply(st, ops[0]), ops[1..]);
    }
  }

  lemma {:induction false} RunConcat(st: Store, a: seq<Op>, b: seq<Op>)
    ensures Run(st, a + b) == Run(Run(st, a), b)
    decreases |a|
  {
    if a == [] {
      assert a + b == b;
    } else {
      assert (a + b)[1..] == a[1..] + b && (a + b)[0] == a[0];
      RunConcat(Apply(st, a[0]), a[1..], b);
    }
  }

  /** Ids are never reused: an id that a line gets fresh was live at no earlier
      point of the run, and once dropped an id never comes back. */
  lemma IdsAreNeverReused(before: seq<Op>, between: seq<Op>, line: nat)
    ensures var early, late := Run(EMPTY, before), Run(EMPTY, before + between);
            && (!HasAnchor(late, line) ==> forall a :: a in early.lines ==> a != late.next)
            && (forall a :: a < early.next && a !in early.lines ==> a !in late.lines)
  {
    var early := Run(EMPTY, before);
    RunConcat(EMPTY, before, between);
    RunKeepsProper(EMPTY, before);
    RunKeepsProper(early, between);
    forall a: nat | a < early.next && a !in early.lines
      ensures a !in Run(early, between).lines
    {
      StaysDropped(early, between, a);
    }
  }

  lemma {:induction false} StaysDropped(st: Store, ops: seq<Op>, a: nat)
    requires a < st.next && a !in st.lines
    ensures a !in Run(st, ops).lines
    decreases |ops|
  {
    if ops != [] {
      StaysDropped(Apply(st, ops[0]), ops[1..], a);
    }
  }

  // --- The store object ---

  predicate Ascending(ks: seq<nat>) {
    forall i, j :: 0 <= i < j < |ks| ==> ks[i] < ks[j]
  }

  /** The keys of `m` from `first` on, in ascending order. */
  method KeysFrom(m: map<nat, nat>, first: nat) returns (ks: seq<nat>)
    ensures Ascending(ks)
    ensures forall i :: 0 <= i < |ks| ==> ks[i] in m && first <= ks[i]
    ensures forall k :: k in m && first <= k ==> k in ks
  {
    ks := [];
    var rest := set k | k in m && k >= first;
    while rest != {}
      invariant Ascending(ks)
      invariant forall i, r :: 0 <= i < |ks| && r in rest ==> ks[i] < r
      invariant forall i :: 0 <= i < |ks| ==> ks[i] in m && first <= ks[i]
      invariant forall k :: k in rest ==> k in m && first <= k
      invariant forall k :: k in m && first <= k ==> k in ks || k in rest
      decreases rest
    {
      SomeLeast(rest);
      var k :| IsLeast(rest, k);
      ks := ks + [k];
      rest := rest - {k};
    }
  }

  predicate IsLeast(s: set<nat>, k: nat) {
    k in s && forall r :: r in s ==> k <= r
  }

  lemma SomeLeast(s: set<nat>)
    requires s != {}
    ensures exists k :: IsLeast(s, k)
    decreases |s|
  {
    var k :| k in s;
    if s == {k} {
      assert IsLeast(s, k);
    } else {
      SomeLeast(s - {k});
      var l :| IsLeast(s - {k}, l);
      var least := if k <= l then k else l;
      forall r | r in s
        ensures least <= r
      {
        assert r == k || r in s - {k};
      }
      assert IsLeast(s, least);
    }
  }

  /** Two maps are each other's inverse. */
  ghost predicate Inverse(byAnchor: map<nat, nat>, byLine: map<nat, nat>) {
    && (forall a :: a in byAnchor ==> byAnchor[a] in byLine && byLine[byAnchor[a]] == a)
    && (forall l :: l in byLine ==> byLine[l] in byAnchor && byAnchor[byLine[l]] == l)
  }

  /** The anchors with every line from `cut` on moved down by `n`. */
  ghost function MovedFrom(anchors: map<nat, nat>, cut: nat, n: nat): map<nat, nat> {
    map a | a in anchors :: ShiftLine(anchors[a], cut, n)
  }

  /** Moving one more line, the last one not yet moved, keeps the maps inverse. */
  lemma MoveOneMore(anchors: map<nat, nat>, byAnchor: map<nat, nat>, byLine: map<nat, nat>, l: nat, cut: nat, n: nat)
    requires Inverse(byAnchor, byLine) && byAnchor == MovedFrom(anchors, cut, n)
    requires n > 0 && l < cut && l in byLine
    requires forall a :: a in anchors && l < anchors[a] ==> cut <= anchors[a]
    ensures var a := byLine[l];
            && byAnchor[a := l + n] == MovedFrom(anchors, l, n)
            && Inverse(byAnchor[a := l + n], (byLine - {l})[l + n := a])
  {
    var a := byLine[l];
    assert l + n !in byLine;
    assert anchors[a] == l;
    assert forall b :: b in anchors && b != a ==> byAnchor[b] != l;
  }

  /** `affected` lists the anchored lines from `first` on. */
  ghost predicate Lists(affected: seq<nat>, anchors: map<nat, nat>, first: nat) {
    && Ascending(affected)
    && (forall i :: 0 <= i < |affected| ==> first <= affected[i])
    && (forall a :: a in anchors && first <= anchors[a] ==> anchors[a] in affected)
  }

  /** Between two neighbours of the list no line is anchored. */
  lemma NoneBetween(affected: seq<nat>, anchors: map<nat, nat>, first: nat, i: nat, a: nat)
    requires Lists(affected, anchors, first) && i <= |affected| && a in anchors && first <= anchors[a]
    requires i > 0 ==> affected[i - 1] < anchors[a]
    requires i < |affected| ==> anchors[a] <= affected[i]
    ensures i < |affected| && anchors[a] == affected[i]
  {
    var k :| 0 <= k < |affected| && affected[k] == anchors[a];
  }

  /** Line `x` is back in the line map, at `l`. */
  predicate Placed(x: nat, l: nat, first: nat, last: nat, n: nat, upto: nat) {
    (x < first && l == x) || (last < x < upto && l + n == x)
  }

  /** The anchors once the lines of `[first, upto)` are dealt with by a delete
      that swallows `first..last`. */
  ghost function DeletedUpTo(anchors: map<nat, nat>, first: nat, last: nat, n: nat, upto: nat): map<nat, nat>
    requires n <= last + 1
  {
    map a | a in anchors && !(first <= anchors[a] <= last && anchors[a] < upto)
      :: if last < anchors[a] < upto then anchors[a] - n else anchors[a]
  }

  ghost predicate PlacedAll(anchors: map<nat, nat>, byLine: map<nat, nat>, first: nat, last: nat, n: nat, upto: nat)
    requires n <= last + 1
  {
    && (forall l: nat :: l in byLine ==> byLine[l] in anchors && Placed(anchors[byLine[l]], l, first, last, n, upto))
    && (forall a :: a in anchors && anchors[a] < first ==> anchors[a] in byLine && byLine[anchors[a]] == a)
    && (forall a :: a in anchors && last < anchors[a] < upto ==>
          anchors[a] - n in byLine && byLine[anchors[a] - n] == a)
  }

  lemma PreviousInList(affected: seq<nat>, anchors: map<nat, nat>, first: nat, i: nat, cut: nat)
    requires Lists(affected, anchors, first) && i < |affected|
    requires cut == if i + 1 < |affected| then affected[i + 1] else affected[i] + 1
    ensures affected[i] < cut
    ensures forall a :: a in anchors && affected[i] < anchors[a] ==> cut <= anchors[a]
    ensures forall k :: 0 <= k < i ==> affected[k] < affected[i]
  {
    forall a | a in anchors && affected[i] < anchors[a]
      ensures cut <= anchors[a]
    {
      if anchors[a] < cut {
        NoneBetween(affected, anchors, first, i + 1, a);
      }
    }
  }

  lemma NothingMoved(affected: seq<nat>, anchors: map<nat, nat>, first: nat, cut: nat, n: nat)
    requires Lists(affected, anchors, first)
    requires cut == if affected == [] then first else affected[|affected| - 1] + 1
    ensures MovedFrom(anchors, cut, n) == anchors
  {
    forall a | a in anchors
      ensures anchors[a] < cut
    {
      if anchors[a] >= cut {
        NoneBetween(affected, anchors, first, |affected|, a);
      }
    }
  }

  lemma NothingBelow(affected: seq<nat>, anchors: map<nat, nat>, first: nat, cut: nat, n: nat)
    requires Lists(affected, anchors, first) && first <= cut
    requires cut == if affected == [] then first else affected[0]
    ensures MovedFrom(anchors, cut, n) == MovedFrom(anchors, first, n)
  {
    forall a | a in anchors && first <= anchors[a]
      ensures cut <= anchors[a]
    {
      if anchors[a] < cut {
        NoneBetween(affected, anchors, first, 0, a);
      }
    }
  }

  lemma AllDealtWith(affected: seq<nat>, anchors: map<nat, nat>, byLine: map<nat, nat>,
                     first: nat, last: nat, n: nat, upto: nat)
    requires Lists(affected, anchors, first) && 0 < n && first + n <= last + 1
    requires upto == if affected == [] then first else affected[|affected| - 1] + 1
    requires first <= upto && PlacedAll(anchors, byLine, first, last, n, upto)
    ensures forall a :: a in anchors && first <= anchors[a] ==> anchors[a] < upto
    ensures Inverse(DeletedUpTo(anchors, first, last, n, upto), byLine)
  {
    forall a | a in anchors && first <= anchors[a]
      ensures anchors[a] < upto
    {
      if anchors[a] >= upto {
        NoneBetween(affected, anchors, first, |affected|, a);
      }
    }
  }

  /** The entries of a line map above `first`. */
  function HeadOf(byLine: map<nat, nat>, first: nat): map<nat, nat> {
    map l | l in byLine && l < first :: byLine[l]
  }

  /** What is true of every pair of maps while a delete deals with its tail. */
  ghost predicate Dealt(anchors: map<nat, nat>, byAnchor: map<nat, nat>, byLine: map<nat, nat>, dropped: seq<nat>,
                        first: nat, last: nat, n: nat, upto: nat)
    requires n <= last + 1
  {
    && byAnchor == DeletedUpTo(anchors, first, last, n, upto)
    && PlacedAll(anchors, byLine, first, last, n, upto)
    && (forall a :: a in dropped <==> a in anchors && first <= anchors[a] <= last && anchors[a] < upto)
  }

  ghost predicate Injective(anchors: map<nat, nat>) {
    forall b, c :: b in anchors && c in anchors && anchors[b] == anchors[c] ==> b == c
  }

  /** Only `a` is anchored on the lines `upto..l`. */
  ghost predicate Next(anchors: map<nat, nat>, upto: nat, l: nat, a: nat) {
    && a in anchors && anchors[a] == l && upto <= l
    && forall b :: b in anchors && upto <= anchors[b] <= l ==> b == a
  }

  /** Dealing with one more line by dropping it. */
  lemma DropOneMore(anchors: map<nat, nat>, byAnchor: map<nat, nat>, byLine: map<nat, nat>, dropped: seq<nat>,
                    first: nat, last: nat, n: nat, upto: nat, l: nat, a: nat)
    requires 0 < n && first + n <= last + 1 && first <= upto && l <= last
    requires Next(anchors, upto, l, a)
    requires Dealt(anchors, byAnchor, byLine, dropped, first, last, n, upto)
    ensures Dealt(anchors, byAnchor - {a}, byLine, dropped + [a], first, last, n, l + 1)
  {
    assert DeletedUpTo(anchors, first, last, n, l + 1) == DeletedUpTo(anchors, first, last, n, upto) - {a};
  }

  /** Dealing with one more line by putting it back `n` lines up. */
  lemma PutBackOneMore(anchors: map<nat, nat>, byAnchor: map<nat, nat>, byLine: map<nat, nat>, dropped: seq<nat>,
                       first: nat, last: nat, n: nat, upto: nat, l: nat, a: nat)
    requires 0 < n && first + n <= last + 1 && first <= upto && l > last
    requires Injective(anchors) && Next(anchors, upto, l, a)
    requires Dealt(anchors, byAnchor, byLine, dropped, first, last, n, upto)
    ensures Dealt(anchors, byAnchor[a := l - n], byLine[l - n := a], dropped, first, last, n, l + 1)
  {
    hide DeletedUpTo, PlacedAll;
    PutBackMoves(anchors, first, last, n, upto, l, a);
    PutBackPlaces(anchors, byLine, first, last, n, upto, l, a);
  }

  lemma PutBackMoves(anchors: map<nat, nat>, first: nat, last: nat, n: nat, upto: nat, l: nat, a: nat)
    requires 0 < n && first + n <= last + 1 && first <= upto && l > last
    requires Next(anchors, upto, l, a)
    ensures DeletedUpTo(anchors, first, last, n, l + 1) == DeletedUpTo(anchors, first, last, n, upto)[a := l - n]
  {
  }

  lemma PutBackPlaces(anchors: map<nat, nat>, byLine: map<nat, nat>,
                      first: nat, last: nat, n: nat, upto: nat, l: nat, a: nat)
    requires 0 < n && first + n <= last + 1 && first <= upto && l > last
    requires Next(anchors, upto, l, a)
    requires PlacedAll(anchors, byLine, first, last, n, upto)
    ensures PlacedAll(anchors, byLine[l - n := a], first, last, n, l + 1)
  {
    assert l - n !in byLine;
  }

  lemma NextInList(affected: seq<nat>, anchors: map<nat, nat>, first: nat, i: nat, upto: nat, a: nat)
    requires Lists(affected, anchors, first) && Injective(anchors) && i < |affected|
    requires upto == if i == 0 then first else affected[i - 1] + 1
    requires a in anchors && anchors[a] == affected[i]
    ensures Next(anchors, upto, affected[i], a) && first <= upto
  {
    forall b | b in anchors && upto <= anchors[b] <= affected[i]
      ensures b == a
    {
      NoneBetween(affected, anchors, first, i, b);
    }
  }

  /** Before the tail is dealt with, only the lines above it are in the line map. */
  lemma NothingDealt(anchors: map<nat, nat>, byLine: map<nat, nat>, first: nat, last: nat, n: nat)
    requires Inverse(anchors, byLine) && n <= last + 1 && first <= last + 1
    ensures Dealt(anchors, anchors, HeadOf(byLine, first), [], first, last, n, first)
  {
    assert DeletedUpTo(anchors, first, last, n, first) == anchors;
  }

  /** Afterwards the maps are inverse, and the rebuild of the whole map. */
  lemma AllDealt(affected: seq<nat>, anchors: map<nat, nat>, byAnchor: map<nat, nat>, byLine: map<nat, nat>,
                 dropped: seq<nat>, st: Store, line: nat, col: nat, n: nat, upto: nat)
    requires n > 0 && st.lines == anchors
    requires var first := FirstMoved(line, col);
             && Lists(affected, anchors, first)
             && upto == (if affected == [] then first else affected[|affected| - 1] + 1)
             && first <= upto
             && Dealt(anchors, byAnchor, byLine, dropped, first, line + n, n, upto)
    ensures Inverse(byAnchor, byLine)
    ensures byAnchor == DeleteLines(st, line, col, n).lines
    ensures (set a | a in dropped) == DroppedBy(st, line, col, n)
  {
    hide Inverse, Lists, PlacedAll;
    var first := FirstMoved(line, col);
    AllDealtWith(affected, anchors, byLine, first, line + n, n, upto);
    WholeRebuild(st, line, col, n, upto);
  }

  lemma InverseIsInjective(byAnchor: map<nat, nat>, byLine: map<nat, nat>)
    requires Inverse(byAnchor, byLine)
    ensures Injective(byAnchor)
  {
  }

  lemma NothingDeleted(st: Store, line: nat, col: nat)
    ensures DeleteLines(st, line, col, 0) == st && DroppedBy(st, line, col, 0) == {}
  {
  }

  lemma OnlyOldIds(st: Store, line: nat, col: nat, n: nat)
    ensures DeleteLines(st, line, col, n).next == st.next
    ensures forall a :: a in DeleteLines(st, line, col, n).lines ==> a in st.lines
  {
  }

  lemma WholeRebuild(st: Store, line: nat, col: nat, n: nat, upto: nat)
    requires n > 0
    requires forall a :: a in st.lines && FirstMoved(line, col) <= st.lines[a] ==> st.lines[a] < upto
    ensures DeletedUpTo(st.lines, FirstMoved(line, col), line + n, n, upto) == DeleteLines(st, line, col, n).lines
  {
  }

  class LineAnchorStore {
    var nextId: nat
    var byAnchor: map<nat, nat>
    var byLine: map<nat, nat>

    /** The two maps are each other's inverse, and every id is used up. */
    ghost predicate Valid()
      reads this
    {
      Inverse(byAnchor, byLine) && forall a :: a in byAnchor ==> a < nextId
    }

    ghost function Value(): Store
      reads this
    {
      Store(nextId, byAnchor)
    }

    constructor ()
      ensures Valid() && Value() == EMPTY
    {
      nextId, byAnchor, byLine := 0, map[], map[];
    }

    method AllocateFor(line: nat) returns (a: nat)
      requires Valid()
      modifies this
      ensures Valid() && Value() == Allocate(old(Value()), line) && AnchorAt(Value(), line, a)
    {
      if line in byLine {
        assert AnchorAt(Value(), line, byLine[line]);
        return byLine[line];
      }
      a := nextId;
      nextId := nextId + 1;
      byAnchor := byAnchor[a := line];
      byLine := byLine[line := a];
      assert !HasAnchor(old(Value()), line);
    }

    /** Shift the affected tail in place, from the last line up, so that no key
        ever lands on one still to be moved. */
    method ShiftForInsert(line: nat, col: nat, n: nat)
      requires Valid()
      modifies this
      ensures Valid() && Value() == InsertLines(old(Value()), line, col, n)
    {
      if n == 0 {
        return;
      }
      var first := FirstMoved(line, col);
      var affected := KeysFrom(byLine, first);
      ghost var anchors := byAnchor;
      assert Lists(affected, anchors, first);
      NothingMoved(affected, anchors, first, if affected == [] then first else affected[|affected| - 1] + 1, n);
      MoveTail(affected, first, n, anchors);
      NothingBelow(affected, anchors, first, if affected == [] then first else affected[0], n);
      assert MovedFrom(anchors, first, n) == InsertLines(old(Value()), line, col, n).lines;
    }

    /** Move the listed lines down by `n`, the last one first. */
    method MoveTail(affected: seq<nat>, first: nat, n: nat, ghost anchors: map<nat, nat>)
      requires n > 0 && Lists(affected, anchors, first) && Inverse(byAnchor, byLine)
      requires forall i :: 0 <= i < |affected| ==> affected[i] in byLine
      requires byAnchor == MovedFrom(anchors, if affected == [] then first else affected[|affected| - 1] + 1, n)
      modifies this`byAnchor, this`byLine
      ensures Inverse(byAnchor, byLine)
      ensures byAnchor == MovedFrom(anchors, if affected == [] then first else affected[0], n)
    {
      hide MovedFrom, Inverse, Lists;
      ghost var cut: nat := if affected == [] then first else affected[|affected| - 1] + 1;
      var i: nat := |affected|;
      while i > 0
        invariant 0 <= i <= |affected|
        invariant cut == if i < |affected| then affected[i] else if affected == [] then first else affected[i - 1] + 1
        invariant byAnchor == MovedFrom(anchors, cut, n) && Inverse(byAnchor, byLine)
        invariant forall k :: 0 <= k < i ==> affected[k] in byLine
      {
        i := i - 1;
        var l: nat := affected[i];
        PreviousInList(affected, anchors, first, i, cut);
        MoveOneMore(anchors, byAnchor, byLine, l, cut, n);
        var a := byLine[l];
        byLine := byLine - {l};
        byLine := byLine[l + n := a];
        byAnchor := byAnchor[a := l + n];
        cut := l;
      }
    }

    /** Touch only the affected tail: take it out, put the survivors back. */
    method ShiftForDelete(line: nat, col: nat, n: nat) returns (dropped: seq<nat>)
      requires Valid()
      modifies this
      ensures Valid() && Value() == DeleteLines(old(Value()), line, col, n)
      ensures (set a | a in dropped) == DroppedBy(old(Value()), line, col, n)
    {
      hide DeletedUpTo, PlacedAll, Dealt, DeleteLines, DroppedBy, Injective, HeadOf;
      if n == 0 {
        NothingDeleted(Value(), line, col);
        return [];
      }
      var first, last := FirstMoved(line, col), line + n;
      var affected := KeysFrom(byLine, first);
      ghost var anchors := byAnchor;
      assert Lists(affected, anchors, first);
      var tail := map l | l in byLine && l >= first :: byLine[l];
      NothingDealt(anchors, byLine, first, last, n);
      byLine := HeadOf(byLine, first);
      InverseIsInjective(anchors, old(byLine));
      forall i | 0 <= i < |affected|
        ensures affected[i] in tail && tail[affected[i]] in anchors && anchors[tail[affected[i]]] == affected[i]
      {
      }
      dropped := DealWithTail(affected, tail, first, last, n, anchors);
      AllDealt(affected, anchors, byAnchor, byLine, dropped, old(Value()), line, col, n,
               if affected == [] then first else affected[|affected| - 1] + 1);
      OnlyOldIds(old(Value()), line, col, n);
    }

    /** Drop the swallowed lines of the tail, and put the others back `n` lines up. */
    method DealWithTail(affected: seq<nat>, tail: map<nat, nat>, first: nat, last: nat, n: nat,
                        ghost anchors: map<nat, nat>)
      returns (dropped: seq<nat>)
      requires 0 < n && first + n <= last + 1
      requires Lists(affected, anchors, first) && Injective(anchors)
      requires forall i :: 0 <= i < |affected| ==>
                 affected[i] in tail && tail[affected[i]] in anchors && anchors[tail[affected[i]]] == affected[i]
      requires Dealt(anchors, byAnchor, byLine, [], first, last, n, first)
      modifies this`byAnchor, this`byLine
      ensures Dealt(anchors, byAnchor, byLine, dropped, first, last, n,
                    if affected == [] then first else affected[|affected| - 1] + 1)
    {
      hide Dealt, Lists, Injective, Next;
      dropped := [];
      ghost var upto: nat := first;
      var i: nat := 0;
      while i < |affected|
        invariant 0 <= i <= |affected|
        invariant upto == if i == 0 then first else affected[i - 1] + 1
        invariant Dealt(anchors, byAnchor, byLine, dropped, first, last, n, upto)
      {
        var l: nat := affected[i];
        var a := tail[l];
        NextInList(affected, anchors, first, i, upto, a);
        if l <= last {
          DropOneMore(anchors, byAnchor, byLine, dropped, first, last, n, upto, l, a);
          byAnchor := byAnchor - {a};
          dropped := dropped + [a];
        } else {
          PutBackOneMore(anchors, byAnchor, byLine, dropped, first, last, n, upto, l, a);
          byLine := byLine[l - n := a];
          byAnchor := byAnchor[a := l - n];
        }
        upto := l + 1;
        i := i + 1;
      }
    }
  }
}
