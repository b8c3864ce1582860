// The undo history refines plain snapshots: a list of whole texts, one per
// history depth, one of them marked as the saved one.
module DocHistory {
  import opened Lines
  import opened Options
  import opened Splices
  import opened DocModel

  datatype Snap = Snap(text: Text, saved: bool)

  /** The simple history: whole-text snapshots, a position among them, the text
      on screen, the text last saved or loaded, and the modified flag. */
  datatype Ref = Ref(snaps: seq<Snap>, pos: nat, cur: Text, disk: Text, modified: bool)

  datatype Op =
    | OpBegin(line: nat, col: nat)
    | OpEnd(line: nat, col: nat)
    | OpInsert(at: nat, x: Text)
    | OpDelete(start: nat, end: nat)
    | OpReplaceLine(line: nat, x: Text)
    | OpInsertNoUndo(at: nat, x: Text)
    | OpDeleteNoUndo(start: nat, end: nat)
    | OpSave
    | OpStep(dir: Dir)
    | OpTakeEdit

  function Apply(d: Doc, op: Op): Doc {
    match op
    case OpBegin(l, c) => Begin(d, l, c)
    case OpEnd(l, c) => End(d, l, c)
    case OpInsert(at, x) => InsertAt(d, at, x)
    case OpDelete(s, e) => DeleteRange(d, s, e)
    case OpReplaceLine(l, x) => ReplaceLine(d, l, x)
    case OpInsertNoUndo(at, x) => InsertNoUndo(d, at, x)
    case OpDeleteNoUndo(s, e) => DeleteNoUndo(d, s, e)
    case OpSave => Save(d)
    case OpStep(dir) => HistoryStep(d, dir)
    case OpTakeEdit => TakeEdit(d).0
  }

  // --- The snapshot history ---

  function Cut(t: Text, s: nat, e: nat, x: Text): Text {
    if s <= e <= |t| then t[..s] + x + t[e..] else t
  }

  /** The replacement of the `len` characters at `p`, if they are there. */
  function CutAt(t: Text, p: int, len: nat, x: Text): Text {
    if p >= 0 then Cut(t, p, p + len, x) else t
  }

  function RefEdit(r: Ref, s: nat, e: nat, x: Text): Ref {
    r.(cur := Cut(r.cur, s, e, x), modified := true,
       snaps := if r.pos < |r.snaps| then r.snaps[..r.pos + 1] else r.snaps)
  }

  function RefPush(r: Ref): Ref {
    var snaps := r.snaps + [Snap(r.cur, false)];
    if r.pos + 1 <= UNDO_CAP then r.(snaps := snaps, pos := r.pos + 1)
    else r.(snaps := snaps[1..])
  }

  function RefSave(r: Ref, midGroup: bool): Ref {
    r.(snaps := seq(|r.snaps|, i requires 0 <= i < |r.snaps| => Snap(r.snaps[i].text, i == r.pos && !midGroup)),
       disk := r.cur, modified := false)
  }

  function RefMove(r: Ref, dir: Dir): Ref {
    var pos := if dir.Undo? then r.pos - 1 else r.pos + 1;
    if 0 <= pos < |r.snaps| then r.(pos := pos, cur := r.snaps[pos].text, modified := !r.snaps[pos].saved)
    else r
  }

  function Entries(d: Doc): nat { |d.undo| + |d.redo| }

  /** The `k`-th group of the history, oldest first: the undo stack, then the redo stack from its top. */
  function HistAt(d: Doc, k: nat): Entry
    requires k < Entries(d)
  {
    if k < |d.undo| then d.undo[k] else d.redo[Entries(d) - 1 - k]
  }

  function PendingSplices(d: Doc): seq<Splice> {
    if d.pending.Some? then d.pending.value.splices else []
  }

  // --- Where an edit that is not the user's falls in the other snapshots ---

  /** How far the splices that start below `at` move the text behind them. */
  function Net(ss: seq<Splice>, at: nat): int {
    if ss == [] then 0
    else
      var sp := ss[|ss| - 1];
      Net(ss[..|ss| - 1], at) + if sp.start < at then |sp.inserted| - |sp.removed| else 0
  }

  /** The same for the oldest `k` groups of the history. */
  function Total(d: Doc, at: nat, k: nat): int
    requires k <= Entries(d)
  {
    if k == 0 then 0 else Total(d, at, k - 1) + Net(HistAt(d, k - 1).splices, at)
  }

  /** Where position `s` of the text lies in the `k`-th snapshot. */
  function Place(d: Doc, s: nat, k: nat): int
    requires k <= Entries(d)
  {
    s - Net(PendingSplices(d), s) - Total(d, s, |d.undo|) + Total(d, s, k)
  }

  /** Replacing `[s, e)`, which lies at `p` before the group, spares every splice
      of the group: each one starts at or after `e` and works behind the range,
      or starts below `s` and works before it. */
  predicate Spares(ss: seq<Splice>, p: int, s: nat, e: nat)
    requires s <= e
  {
    ss == [] ||
    (var init, sp := ss[..|ss| - 1], ss[|ss| - 1];
     var q := p + Net(init, s);
     && Spares(init, p, s, e)
     && (if sp.start < s then sp.start + |sp.removed| <= q else e <= sp.start && q + (e - s) <= sp.start))
  }

  /** Replacing `[s, e)` spares everything recorded. */
  predicate Spared(d: Doc, s: nat, e: nat)
    requires s <= e
  {
    && Spares(PendingSplices(d), s - Net(PendingSplices(d), s), s, e)
    && forall k :: 0 <= k < Entries(d) ==> Spares(HistAt(d, k).splices, Place(d, s, k), s, e)
  }

  /** An edit that is not the user's rewrites every snapshot, each at its own place. */
  function RefRewrite(r: Ref, d: Doc, s: nat, len: nat, x: Text): Ref {
    r.(snaps := seq(|r.snaps|, i requires 0 <= i < |r.snaps| =>
                  Snap(if i <= Entries(d) then CutAt(r.snaps[i].text, Place(d, s, i), len, x) else [], false)),
       cur := CutAt(r.cur, s, len, x), modified := true)
  }

  function RefStep(r: Ref, d: Doc, op: Op): Ref {
    match op
    case OpBegin(_, _) => r
    case OpEnd(_, _) => if PendingSplices(d) != [] then RefPush(r) else r
    case OpInsert(at, x) => var i := Min(at, |r.cur|); RefEdit(r, i, i, x)
    case OpDelete(s, e) =>
      var s, e := Min(s, |r.cur|), Min(e, |r.cur|);
      if s < e then RefEdit(r, s, e, []) else r
    case OpReplaceLine(l, x) =>
      if l >= LineCount(r.cur) then r
      else
        var s := LineStart(r.cur, l);
        RefEdit(r, s, s + LineLen(r.cur, l), x)
    case OpInsertNoUndo(at, x) => RefRewrite(r, d, Min(at, |r.cur|), 0, x)
    case OpDeleteNoUndo(s, e) =>
      var s, e := Min(s, |r.cur|), Min(e, |r.cur|);
      if s < e then RefRewrite(r, d, s, e - s, []) else r
    case OpSave => RefSave(r, PendingSplices(d) != [])
    case OpStep(dir) => RefMove(r, dir)
    case OpTakeEdit => r
  }

  /** What the claims are conditioned on: user edits inside a group, history
      steps outside one, and other edits that spare what is recorded. */
  predicate Allowed(d: Doc, op: Op) {
    match op
    case OpInsert(_, _) => d.pending.Some?
    case OpDelete(_, _) => d.pending.Some?
    case OpReplaceLine(_, _) => d.pending.Some?
    case OpInsertNoUndo(at, _) => var i := Min(at, |d.text|); Spared(d, i, i)
    case OpDeleteNoUndo(s, e) =>
      var s, e := Min(s, |d.text|), Min(e, |d.text|);
      s < e ==> Spared(d, s, e)
    case OpStep(_) => d.pending.None?
    case _ => true
  }

  // --- The refinement ---

  /** The group `ss` leads from `a` to `b`. */
  ghost predicate Linked(a: Text, ss: seq<Splice>, b: Text) {
    Recorded(a, ss) && RedoText(a, ss) == b
  }

  ghost predicate Bounded(e: Entry) {
    forall i :: 0 <= i < |e.splices| ==> e.splices[i].start <= e.hi
  }

  /** One recorded group between two neighbouring snapshots. */
  ghost predicate Leads(a: Snap, e: Entry, b: Snap) {
    Linked(a.text, e.splices, b.text) && Bounded(e)
  }

  /** The recorded groups lead from each snapshot to the next. */
  ghost predicate Chained(d: Doc, snaps: seq<Snap>) {
    && |snaps| == Entries(d) + 1
    && forall k :: 0 <= k < Entries(d) ==> Leads(snaps[k], HistAt(d, k), snaps[k + 1])
  }

  /** The group being recorded leads from the current snapshot to the text. */
  ghost predicate OpenGroup(d: Doc, base: Text) {
    && Linked(base, PendingSplices(d), d.text)
    && (PendingSplices(d) != [] ==> d.redo == [])
    && (d.pending.Some? ==> Bounded(d.pending.value))
  }

  /** `savedDepth` is the depth of the snapshot marked as saved, if any is left. */
  ghost predicate SavePoint(savedDepth: Option<nat>, r: Ref) {
    && (savedDepth.Some? ==> savedDepth.value < |r.snaps|)
    && (forall k :: 0 <= k < |r.snaps| ==> (r.snaps[k].saved <==> savedDepth == Some(k)))
    && (forall k :: 0 <= k < |r.snaps| && r.snaps[k].saved ==> r.snaps[k].text == r.disk)
    && (!r.modified ==> r.cur == r.disk)
  }

  /** The document shows what the snapshots show. */
  ghost predicate Coherent(d: Doc, r: Ref) {
    && |d.undo| == r.pos
    && Entries(d) <= UNDO_CAP
    && Chained(d, r.snaps)
    && OpenGroup(d, r.snaps[r.pos].text)
    && d.text == r.cur
    && d.modified == r.modified
    && SavePoint(d.savedDepth, r)
  }

  lemma RecordSpliceEffect(d: Doc, s: nat, n: nat, x: Text)
    requires d.pending.Some? && s + n <= |d.text|
    ensures var d' := RecordSplice(d, s, n, x);
            && d' == d.(pending := d'.pending, edit := d'.edit, editCount := d'.editCount)
            && d'.pending == Some(RecordIn(d.pending.value, Splice(s, d.text[s..s + n], x)))
  {
  }

  lemma RecordBounded(e: Entry, sp: Splice)
    requires Bounded(e)
    ensures Bounded(RecordIn(e, sp))
  {
  }

  /** A recorded edit inside an open group. */
  lemma EditCoheres(d: Doc, r: Ref, s: nat, n: nat, x: Text)
    requires Coherent(d, r) && d.pending.Some? && s + n <= |d.text|
    ensures var d' := ClearRedo(RecordSplice(d, s, n, x).(text := Cut(d.text, s, s + n, x), modified := true));
            Coherent(d', RefEdit(r, s, s + n, x)) && d'.pending.Some? && d'.text == Cut(d.text, s, s + n, x)
  {
    hide RecordSplice, Linked, Bounded, RecordIn;
    RecordSpliceEffect(d, s, n, x);
    var d' := ClearRedo(RecordSplice(d, s, n, x).(text := Cut(d.text, s, s + n, x), modified := true));
    var r' := RefEdit(r, s, s + n, x);
    assert Chained(d', r'.snaps) by {
      forall k | 0 <= k < Entries(d')
        ensures Leads(r'.snaps[k], HistAt(d', k), r'.snaps[k + 1])
      {
        assert HistAt(d', k) == HistAt(d, k);
      }
    }
    var sp := Splice(s, d.text[s..s + n], x);
    RecordBounded(d.pending.value, sp);
    assert Linked(r.snaps[r.pos].text, PendingSplices(d'), d'.text) by {
      EditLinks(r.snaps[r.pos].text, d.pending.value, d.text, sp);
    }
  }

  lemma EditLinks(a: Text, e: Entry, b: Text, sp: Splice)
    requires Linked(a, e.splices, b) && Fits(b, sp)
    ensures Linked(a, RecordIn(e, sp).splices, Cut(b, sp.start, sp.start + |sp.removed|, sp.inserted))
  {
    hide Recorded, RedoText;
    RecordKeeps(a, e.splices, sp);
  }

  lemma ChainedPush(d: Doc, snaps: seq<Snap>, e: Entry, snap: Snap)
    requires Chained(d, snaps) && d.redo == [] && Leads(snaps[|d.undo|], e, snap)
    ensures Chained(d.(undo := d.undo + [e]), snaps + [snap])
  {
    hide Leads;
    var d', snaps' := d.(undo := d.undo + [e]), snaps + [snap];
    forall k | 0 <= k < Entries(d')
      ensures Leads(snaps'[k], HistAt(d', k), snaps'[k + 1])
    {
      if k < |d.undo| {
        assert HistAt(d', k) == HistAt(d, k);
      }
    }
  }

  lemma ChainedDrop(d: Doc, snaps: seq<Snap>)
    requires Chained(d, snaps) && d.undo != []
    ensures Chained(d.(undo := d.undo[1..]), snaps[1..])
  {
    hide Leads;
    var d', snaps' := d.(undo := d.undo[1..]), snaps[1..];
    forall k | 0 <= k < Entries(d')
      ensures Leads(snaps'[k], HistAt(d', k), snaps'[k + 1])
    {
      assert HistAt(d', k) == HistAt(d, k + 1);
    }
  }

  /** The open group leads from the current snapshot to the text. */
  lemma OpenLeads(d: Doc, r: Ref, e: Entry)
    requires Coherent(d, r) && d.pending.Some?
    requires e.splices == d.pending.value.splices && e.hi == d.pending.value.hi
    ensures Leads(r.snaps[r.pos], e, Snap(r.cur, false))
  {
    hide Linked;
  }

  /** Closing a group that recorded something. */
  lemma PushCoheres(d: Doc, r: Ref, e: Entry)
    requires Coherent(d, r) && d.pending.Some? && d.redo == []
    requires e.splices == d.pending.value.splices && e.hi == d.pending.value.hi
    ensures Coherent(PushUndo(d.(pending := None), e), RefPush(r))
  {
    hide Linked, Bounded;
    var closed, snap := d.(pending := None), Snap(r.cur, false);
    var full, snaps := closed.(undo := d.undo + [e]), r.snaps + [snap];
    assert Chained(closed, r.snaps) by {
      assert forall k :: 0 <= k < Entries(d) ==> HistAt(closed, k) == HistAt(d, k);
    }
    OpenLeads(d, r, e);
    ChainedPush(closed, r.snaps, e, snap);
    var d', r' := PushUndo(closed, e), RefPush(r);
    if |full.undo| <= UNDO_CAP {
      assert d' == full;
    } else {
      ChainedDrop(full, snaps);
      EvictOne(full);
      assert Chained(d', r'.snaps) by {
        assert forall k :: 0 <= k < Entries(d') ==> HistAt(d', k) == HistAt(full.(undo := full.undo[1..]), k);
      }
    }
    assert OpenGroup(d', r'.snaps[r'.pos].text) by {
      NothingLinks(d'.text, d'.text);
    }
  }

  lemma NothingLinks(a: Text, b: Text)
    ensures Linked(a, [], b) <==> a == b
  {
  }

  lemma EvictOne(d: Doc)
    requires |d.undo| == UNDO_CAP + 1
    ensures Evict(d) == d.(undo := d.undo[1..],
                           savedDepth := if d.savedDepth.Some? && d.savedDepth.value > 0
                                         then Some(d.savedDepth.value - 1) else None)
  {
  }

  lemma EndCoheres(d: Doc, r: Ref, line: nat, col: nat)
    requires Coherent(d, r)
    ensures Coherent(End(d, line, col), RefStep(r, d, OpEnd(line, col)))
  {
    hide Linked, PushUndo, Leads;
    if PendingSplices(d) != [] {
      PushCoheres(d, r, d.pending.value.(afterLine := line, afterCol := col));
    } else {
      var d' := End(d, line, col);
      assert forall k :: 0 <= k < Entries(d) ==> HistAt(d', k) == HistAt(d, k);
    }
  }

  /** Steps that leave text and history alone. */
  lemma QuietCoheres(d: Doc, r: Ref, op: Op)
    requires Coherent(d, r) && (op.OpBegin? || op.OpSave? || op.OpTakeEdit?)
    ensures Coherent(Apply(d, op), RefStep(r, d, op))
  {
    hide Linked;
    var d', r' := Apply(d, op), RefStep(r, d, op);
    NothingLinks(r.snaps[r.pos].text, d.text);
    assert Chained(d', r'.snaps) by {
      forall k | 0 <= k < Entries(d')
        ensures Leads(r'.snaps[k], HistAt(d', k), r'.snaps[k + 1])
      {
        assert HistAt(d', k) == HistAt(d, k);
      }
    }
  }

  /** The entry moved to the other stack keeps its place in the history. */
  lemma ChainedMove(d: Doc, d': Doc, snaps: seq<Snap>)
    requires Chained(d, snaps) && Entries(d') == Entries(d)
    requires forall k :: 0 <= k < Entries(d) ==>
               HistAt(d', k).splices == HistAt(d, k).splices && HistAt(d', k).hi == HistAt(d, k).hi
    ensures Chained(d', snaps)
  {
    hide Linked;
    forall k | 0 <= k < Entries(d')
      ensures Leads(snaps[k], HistAt(d', k), snaps[k + 1])
    {
      assert Leads(snaps[k], HistAt(d, k), snaps[k + 1]);
    }
  }

  /** Walking the next group lands on the neighbouring snapshot's text. */
  lemma WalkLands(d: Doc, r: Ref, dir: Dir)
    requires Coherent(d, r) && d.pending.None? && Stack(d, dir) != []
    ensures var pos := if dir.Undo? then r.pos - 1 else r.pos + 1;
            && 0 <= pos < |r.snaps|
            && ReplayText(d.text, Next(d, dir).splices, dir) == r.snaps[pos].text
  {
    hide Recorded, RedoText, UndoText, SavePoint;
    var k := if dir.Undo? then |d.undo| - 1 else |d.undo|;
    NothingLinks(r.snaps[r.pos].text, d.text);
    assert HistAt(d, k) == Next(d, dir);
    assert Leads(r.snaps[k], HistAt(d, k), r.snaps[k + 1]);
    UndoInvertsGroup(r.snaps[k].text, HistAt(d, k).splices);
  }

  /** Undo and redo land on the neighbouring snapshot. */
  lemma StepCoheres(d: Doc, r: Ref, dir: Dir)
    requires Coherent(d, r) && d.pending.None?
    ensures Coherent(HistoryStep(d, dir), RefMove(r, dir))
  {
    hide Linked, ReplayText;
    if Stack(d, dir) != [] {
      WalkLands(d, r, dir);
      var d', r' := HistoryStep(d, dir), RefMove(r, dir);
      assert dir.Redo? ==> |d.undo| + 1 <= UNDO_CAP;
      assert Chained(d', r'.snaps) by {
        ChainedMove(d, d', r.snaps);
      }
      NothingLinks(r'.snaps[r'.pos].text, d'.text);
    }
  }

  lemma InsertCoheres(d: Doc, r: Ref, at: nat, x: Text)
    requires Coherent(d, r) && d.pending.Some?
    ensures Coherent(InsertAt(d, at, x), RefStep(r, d, OpInsert(at, x)))
    ensures InsertAt(d, at, x).pending.Some?
  {
    hide Coherent, RecordSplice, ClearRedo;
    assert d.text == r.cur by { CoherentText(d, r); }
    EditCoheres(d, r, Min(at, |d.text|), 0, x);
  }

  lemma DeleteCoheres(d: Doc, r: Ref, s: nat, e: nat)
    requires Coherent(d, r) && d.pending.Some?
    ensures Coherent(DeleteRange(d, s, e), RefStep(r, d, OpDelete(s, e)))
    ensures DeleteRange(d, s, e).pending.Some?
  {
    hide Coherent, RecordSplice, ClearRedo;
    assert d.text == r.cur by { CoherentText(d, r); }
    var s', e' := Min(s, |d.text|), Min(e, |d.text|);
    if s' < e' {
      EditCoheres(d, r, s', e' - s', []);
      assert d.text[..s'] + [] + d.text[e'..] == d.text[..s'] + d.text[e'..];
    }
  }

  lemma CoherentText(d: Doc, r: Ref)
    requires Coherent(d, r)
    ensures d.text == r.cur && |d.undo| == r.pos < |r.snaps|
  {
  }

  /** Taking a run out and putting another in is one replacement. */
  lemma TwoCuts(r: Ref, s: nat, n: nat, x: Text)
    requires s + n <= |r.cur| && r.pos < |r.snaps|
    ensures var gone := if n > 0 then RefEdit(r, s, s + n, []) else r;
            RefEdit(gone, s, s, x) == RefEdit(r, s, s + n, x)
  {
    var t := r.cur;
    var u := t[..s] + [] + t[s + n..];
    assert u[..s] == t[..s] && u[s..] == t[s + n..];
  }

  lemma ReplaceLineCoheres(d: Doc, r: Ref, line: nat, x: Text)
    requires Coherent(d, r) && d.pending.Some?
    ensures Coherent(ReplaceLine(d, line, x), RefStep(r, d, OpReplaceLine(line, x)))
  {
    hide Coherent, DeleteRange, InsertAt, LineStart, LineLen, Breaks;
    CoherentText(d, r);
    if line < LineCount(d.text) {
      LineLenBounds(d.text, line);
      var s, n := LineStart(d.text, line), LineLen(d.text, line);
      DeleteCoheres(d, r, s, s + n);
      var d1, r1 := DeleteRange(d, s, s + n), RefStep(r, d, OpDelete(s, s + n));
      CoherentText(d1, r1);
      InsertCoheres(d1, r1, s, x);
      TwoCuts(r, s, n, x);
    }
  }

  // --- Edits that are not the user's ---

  /** Skipping an entry by its bound never changes the result. */
  lemma SkippingIsExact(e: Entry, at: nat, delta: int)
    requires Bounded(e)
    ensures ShiftEntry(e, at, delta).splices == RemapAll(e.splices, at, delta)
    ensures Bounded(ShiftEntry(e, at, delta))
  {
    if e.hi < at {
      assert RemapAll(e.splices, at, delta) == e.splices;
    } else {
      HighestBounds(RemapAll(e.splices, at, delta));
    }
  }

  /** Shifting keeps recorded starts in order and in the text: those before the
      edit stay, those behind it move with their text, and those in text that
      is deleted come to where it was. */
  lemma RemapKeepsOrder(i: nat, j: nat, at: nat, delta: int, len: nat)
    requires i <= j <= len && at <= len && (delta < 0 ==> at - delta <= len)
    ensures Remap(i, at, delta) <= Remap(j, at, delta) <= len + delta
    ensures i < at ==> Remap(i, at, delta) == i
    ensures at <= i && (delta < 0 ==> at - delta <= i) ==> Remap(i, at, delta) == i + delta
    ensures at <= i && delta < 0 && i < at - delta ==> Remap(i, at, delta) == at
  {
  }

  lemma {:induction false} HighestBounds(ss: seq<Splice>)
    ensures forall i :: 0 <= i < |ss| ==> ss[i].start <= HighestStart(ss)
  {
    if ss != [] {
      HighestBounds(ss[..|ss| - 1]);
    }
  }

  lemma RemapFront(ss: seq<Splice>, at: nat, delta: int)
    requires ss != []
    ensures RemapAll(ss, at, delta)[..|ss| - 1] == RemapAll(ss[..|ss| - 1], at, delta)
  {
  }

  /** The pieces of an edit: what is before it, what it swaps, what follows. */
  lemma EditPieces(head: Text, out: Text, put: Text, tail: Text)
    ensures var u, sp := head + out + tail, Splice(|head|, out, put);
            Fits(u, sp) && Edit(u, sp) == head + put + tail
  {
    var u := head + out + tail;
    assert u[..|head|] == head && u[|head|..|head| + |out|] == out && u[|head| + |out|..] == tail;
  }

  lemma CutPieces(head: Text, out: Text, x: Text, tail: Text)
    ensures Cut(head + out + tail, |head|, |head| + |out|, x) == head + x + tail
  {
    var u := head + out + tail;
    assert u[..|head|] == head && u[|head| + |out|..] == tail;
  }

  lemma PiecesOf(u: Text, i: nat, j: nat)
    requires i <= j <= |u|
    ensures u == u[..i] + u[i..j] + u[j..]
  {
  }

  lemma Regroup(a: Text, b: Text, c: Text, d: Text, e: Text)
    ensures (a + b + c) + d + e == a + b + (c + d + e)
  {
  }

  /** A replacement wholly before a splice. */
  lemma CutShiftsEdit(u: Text, sp: Splice, q: nat, len: nat, x: Text)
    requires q + len <= sp.start && Fits(u, sp)
    ensures var sp' := sp.(start := sp.start + |x| - len);
            && Fits(Cut(u, q, q + len, x), sp')
            && Edit(Cut(u, q, q + len, x), sp') == Cut(Edit(u, sp), q, q + len, x)
  {
    hide Cut, Edit, Fits;
    var end := sp.start + |sp.removed|;
    FitsMeans(u, sp);
    var a, out, mid, tail := u[..q], u[q..q + len], u[q + len..sp.start], u[end..];
    assert u[..sp.start] == a + out + mid;
    PiecesOf(u, sp.start, end);
    Regroup(a, out, mid, sp.removed, tail);
    CutPieces(a, out, x, mid + sp.removed + tail);
    Regroup(a, x, mid, sp.removed, tail);
    EditPieces(a + x + mid, sp.removed, sp.inserted, tail);
    EditPieces(a + out + mid, sp.removed, sp.inserted, tail);
    Regroup(a, out, mid, sp.inserted, tail);
    CutPieces(a, out, x, mid + sp.inserted + tail);
    Regroup(a, x, mid, sp.inserted, tail);
  }

  lemma FitsMeans(u: Text, sp: Splice)
    requires Fits(u, sp)
    ensures sp.start + |sp.removed| <= |u| && u[sp.start..sp.start + |sp.removed|] == sp.removed
  {
  }

  /** A replacement wholly behind a splice. */
  lemma CutKeepsEdit(u: Text, sp: Splice, q: nat, len: nat, x: Text)
    requires Fits(u, sp) && sp.start + |sp.removed| <= q && q + len <= |u|
    ensures var q' := q + |sp.inserted| - |sp.removed|;
            && Fits(Cut(u, q, q + len, x), sp)
            && Edit(Cut(u, q, q + len, x), sp) == Cut(Edit(u, sp), q', q' + len, x)
  {
    hide Cut, Edit, Fits;
    var end := sp.start + |sp.removed|;
    FitsMeans(u, sp);
    var head, mid, out, tail := u[..sp.start], u[end..q], u[q..q + len], u[q + len..];
    PiecesOf(u, q, q + len);
    assert u[..q] == head + sp.removed + mid;
    CutPieces(head + sp.removed + mid, out, x, tail);
    Regroup(head, sp.removed, mid, x, tail);
    Regroup(head, sp.removed, mid, out, tail);
    EditPieces(head, sp.removed, sp.inserted, mid + x + tail);
    EditPieces(head, sp.removed, sp.inserted, mid + out + tail);
    Regroup(head, sp.inserted, mid, out, tail);
    CutPieces(head + sp.inserted + mid, out, x, tail);
    Regroup(head, sp.inserted, mid, x, tail);
  }

  /** One splice, replayed after the replacement instead of before it. */
  lemma CutReplays(u: Text, sp: Splice, q: nat, s: nat, e: nat, x: Text)
    requires s <= e && Fits(u, sp) && (x == [] || s == e) && q + (e - s) <= |u|
    requires if sp.start < s then sp.start + |sp.removed| <= q else e <= sp.start && q + (e - s) <= sp.start
    ensures var sp' := sp.(start := Remap(sp.start, s, |x| - (e - s)));
            var q' := q + if sp.start < s then |sp.inserted| - |sp.removed| else 0;
            && Fits(CutAt(u, q, e - s, x), sp')
            && StepText(CutAt(u, q, e - s, x), sp', Redo) == CutAt(StepText(u, sp, Redo), q', e - s, x)
            && 0 <= q' && q' + (e - s) <= |StepText(u, sp, Redo)|
  {
    hide Cut, Edit, Fits, StepText;
    RedoIsEdit(u, sp);
    EditLength(u, sp);
    if sp.start < s {
      CutKeepsEdit(u, sp, q, e - s, x);
      RedoIsEdit(Cut(u, q, q + (e - s), x), sp);
    } else {
      CutShiftsEdit(u, sp, q, e - s, x);
      RedoIsEdit(Cut(u, q, q + (e - s), x), sp.(start := sp.start + |x| - (e - s)));
    }
  }

  /** The shifted group leads between the rewritten texts. */
  lemma {:induction false} CutLinks(a: Text, ss: seq<Splice>, b: Text, p: nat, s: nat, e: nat, x: Text)
    requires Linked(a, ss, b) && s <= e && Spares(ss, p, s, e) && (x == [] || s == e)
    requires p + (e - s) <= |a|
    ensures 0 <= p + Net(ss, s) && p + Net(ss, s) + (e - s) <= |b|
    ensures Linked(CutAt(a, p, e - s, x), RemapAll(ss, s, |x| - (e - s)), CutAt(b, p + Net(ss, s), e - s, x))
  {
    hide CutAt, Edit, Fits, StepText;
    if ss != [] {
      var init, sp := ss[..|ss| - 1], ss[|ss| - 1];
      var u := RedoText(a, init);
      CutLinks(a, init, u, p, s, e, x);
      RemapFront(ss, s, |x| - (e - s));
      CutReplays(u, sp, p + Net(init, s), s, e, x);
    }
  }

  /** A place that is there after a group was there before it. */
  lemma {:induction false} ReachBack(a: Text, ss: seq<Splice>, b: Text, p: int, s: nat, e: nat)
    requires Linked(a, ss, b) && s <= e && Spares(ss, p, s, e)
    requires 0 <= p + Net(ss, s) && p + Net(ss, s) + (e - s) <= |b|
    ensures 0 <= p && p + (e - s) <= |a|
  {
    hide Edit, Fits, StepText;
    if ss != [] {
      var init, sp := ss[..|ss| - 1], ss[|ss| - 1];
      var u := RedoText(a, init);
      RedoIsEdit(u, sp);
      EditLength(u, sp);
      ReachBack(a, init, u, p, s, e);
    }
  }

  lemma EditLength(u: Text, sp: Splice)
    requires Fits(u, sp)
    ensures |Edit(u, sp)| == |u| - |sp.removed| + |sp.inserted|
    ensures sp.start + |sp.removed| <= |u|
  {
  }

  /** The text after an edit that is not the user's, and its shifted history. */
  function Rewritten(d: Doc, s: nat, e: nat, x: Text, noted: Doc): Doc
    requires s <= e
  {
    ShiftRecorded(d.(text := CutAt(d.text, s, e - s, x), modified := true, savedDepth := None,
                     edit := noted.edit, editCount := noted.editCount), s, |x| - (e - s))
  }

  /** If every recorded group leads between the rewritten snapshots, the rewrite coheres. */
  lemma RewriteCoheres(d: Doc, r: Ref, s: nat, e: nat, x: Text, noted: Doc)
    requires Coherent(d, r) && s <= e
    requires var r' := RefRewrite(r, d, s, e - s, x);
             && (forall k :: 0 <= k < Entries(d) ==>
                   Linked(r'.snaps[k].text, RemapAll(HistAt(d, k).splices, s, |x| - (e - s)), r'.snaps[k + 1].text))
             && Linked(r'.snaps[r.pos].text, RemapAll(PendingSplices(d), s, |x| - (e - s)), r'.cur)
    ensures Coherent(Rewritten(d, s, e, x, noted), RefRewrite(r, d, s, e - s, x))
  {
    hide Linked, Bounded, ShiftEntry, CutAt, Place;
    var delta := |x| - (e - s);
    var d', r' := Rewritten(d, s, e, x, noted), RefRewrite(r, d, s, e - s, x);
    forall k | 0 <= k < Entries(d')
      ensures Leads(r'.snaps[k], HistAt(d', k), r'.snaps[k + 1])
    {
      assert Leads(r.snaps[k], HistAt(d, k), r.snaps[k + 1]);
      assert HistAt(d', k) == ShiftEntry(HistAt(d, k), s, delta);
      SkippingIsExact(HistAt(d, k), s, delta);
    }
    PendingShift(d, s, delta);
    assert d'.pending == ShiftRecorded(d, s, delta).pending;
  }

  lemma PendingShift(d: Doc, at: nat, delta: int)
    requires d.pending.Some? ==> Bounded(d.pending.value)
    ensures var d' := ShiftRecorded(d, at, delta);
            && PendingSplices(d') == RemapAll(PendingSplices(d), at, delta)
            && (d'.pending.Some? ==> Bounded(d'.pending.value))
  {
    if d.pending.Some? {
      SkippingIsExact(d.pending.value, at, delta);
    }
  }

  /** Each group carries the place before it to the place after it. */
  lemma PlaceSteps(d: Doc, s: nat)
    ensures forall k :: 0 <= k < Entries(d) ==> Place(d, s, k + 1) == Place(d, s, k) + Net(HistAt(d, k).splices, s)
    ensures Place(d, s, |d.undo|) == s - Net(PendingSplices(d), s)
  {
  }

  /** The replaced range is there in every snapshot. */
  lemma {:induction false} SnapshotsReach(d: Doc, r: Ref, s: nat, e: nat, k: nat)
    requires Coherent(d, r) && s <= e <= |d.text| && Spared(d, s, e) && k < |r.snaps|
    ensures 0 <= Place(d, s, k) && Place(d, s, k) + (e - s) <= |r.snaps[k].text|
    decreases if k <= r.pos then r.pos - k else k - r.pos
  {
    hide Linked, SavePoint, Spares, Place, Net;
    PlaceSteps(d, s);
    if k == r.pos {
      ReachBack(r.snaps[k].text, PendingSplices(d), d.text, s - Net(PendingSplices(d), s), s, e);
    } else if k < r.pos {
      SnapshotsReach(d, r, s, e, k + 1);
      assert Leads(r.snaps[k], HistAt(d, k), r.snaps[k + 1]);
      ReachBack(r.snaps[k].text, HistAt(d, k).splices, r.snaps[k + 1].text, Place(d, s, k), s, e);
    } else {
      SnapshotsReach(d, r, s, e, k - 1);
      assert Leads(r.snaps[k - 1], HistAt(d, k - 1), r.snaps[k]);
      CutLinks(r.snaps[k - 1].text, HistAt(d, k - 1).splices, r.snaps[k].text, Place(d, s, k - 1), s, e, []);
    }
  }

  /** A replacement that spares what is recorded keeps the history coherent. */
  lemma SparedCoheres(d: Doc, r: Ref, s: nat, e: nat, x: Text, noted: Doc)
    requires Coherent(d, r) && s <= e <= |d.text| && Spared(d, s, e) && (x == [] || s == e)
    ensures Coherent(Rewritten(d, s, e, x, noted), RefRewrite(r, d, s, e - s, x))
  {
    hide Linked, SavePoint, RemapAll, CutAt, Spares, Place, Net;
    PlaceSteps(d, s);
    var r', delta := RefRewrite(r, d, s, e - s, x), |x| - (e - s);
    forall k | 0 <= k < Entries(d)
      ensures Linked(r'.snaps[k].text, RemapAll(HistAt(d, k).splices, s, delta), r'.snaps[k + 1].text)
    {
      assert Leads(r.snaps[k], HistAt(d, k), r.snaps[k + 1]);
      SnapshotsReach(d, r, s, e, k);
      CutLinks(r.snaps[k].text, HistAt(d, k).splices, r.snaps[k + 1].text, Place(d, s, k), s, e, x);
    }
    SnapshotsReach(d, r, s, e, r.pos);
    CutLinks(r.snaps[r.pos].text, PendingSplices(d), d.text, Place(d, s, r.pos), s, e, x);
    RewriteCoheres(d, r, s, e, x, noted);
  }

  lemma InsertNoUndoCoheres(d: Doc, r: Ref, at: nat, x: Text)
    requires Coherent(d, r) && Allowed(d, OpInsertNoUndo(at, x))
    ensures Coherent(InsertNoUndo(d, at, x), RefStep(r, d, OpInsertNoUndo(at, x)))
  {
    hide Coherent, Spared, ShiftRecorded;
    CoherentText(d, r);
    var i := Min(at, |d.text|);
    SparedCoheres(d, r, i, i, x, Note(d, i, 0, x));
  }

  lemma DeleteIsCut(t: Text, s: nat, e: nat)
    requires s <= e <= |t|
    ensures Cut(t, s, e, []) == t[..s] + t[e..]
  {
  }

  lemma DeleteIsRewrite(d: Doc, s: nat, e: nat)
    requires s < e <= |d.text|
    ensures DeleteNoUndo(d, s, e) == Rewritten(d, s, e, [], Note(d, s, e - s, []))
  {
    hide ShiftRecorded;
    DeleteIsCut(d.text, s, e);
  }

  lemma DeleteNoUndoCoheres(d: Doc, r: Ref, start: nat, end: nat)
    requires Coherent(d, r) && Allowed(d, OpDeleteNoUndo(start, end))
    ensures Coherent(DeleteNoUndo(d, start, end), RefStep(r, d, OpDeleteNoUndo(start, end)))
  {
    hide Coherent, Spared, ShiftRecorded, CutAt, Rewritten, Note, RefRewrite;
    CoherentText(d, r);
    var s, e := Min(start, |d.text|), Min(end, |d.text|);
    if s < e {
      SparedCoheres(d, r, s, e, [], Note(d, s, e - s, []));
      DeleteIsRewrite(d, s, e);
      assert DeleteNoUndo(d, start, end) == DeleteNoUndo(d, s, e);
    }
  }

  // --- Whole runs ---

  lemma StepRefines(d: Doc, r: Ref, op: Op)
    requires Coherent(d, r) && Allowed(d, op)
    ensures Coherent(Apply(d, op), RefStep(r, d, op))
  {
    hide Coherent, Allowed, RefMove, RefPush, RefSave, HistoryStep, Save, End;
    match op
    case OpBegin(_, _) => QuietCoheres(d, r, op);
    case OpEnd(l, c) => EndCoheres(d, r, l, c);
    case OpInsert(at, x) => UserEditAllowed(d, op); InsertCoheres(d, r, at, x);
    case OpDelete(s, e) => UserEditAllowed(d, op); DeleteCoheres(d, r, s, e);
    case OpReplaceLine(l, x) => UserEditAllowed(d, op); ReplaceLineCoheres(d, r, l, x);
    case OpInsertNoUndo(at, x) => InsertNoUndoCoheres(d, r, at, x);
    case OpDeleteNoUndo(s, e) => DeleteNoUndoCoheres(d, r, s, e);
    case OpSave => QuietCoheres(d, r, op);
    case OpStep(dir) => UserEditAllowed(d, op); StepCoheres(d, r, dir);
    case OpTakeEdit => QuietCoheres(d, r, op);
  }

  lemma UserEditAllowed(d: Doc, op: Op)
    requires Allowed(d, op)
    ensures op.OpInsert? || op.OpDelete? || op.OpReplaceLine? ==> d.pending.Some?
    ensures op.OpStep? ==> d.pending.None?
  {
  }

  function Run(d: Doc, ops: seq<Op>): Doc
    decreases |ops|
  {
    if ops == [] then d else Run(Apply(d, ops[0]), ops[1..])
  }

  function RefRun(r: Ref, d: Doc, ops: seq<Op>): Ref
    decreases |ops|
  {
    if ops == [] then r else RefRun(RefStep(r, d, ops[0]), Apply(d, ops[0]), ops[1..])
  }

  function NewRef(text: Text): Ref { Ref([Snap(text, true)], 0, text, text, false) }

  predicate AllowedRun(d: Doc, ops: seq<Op>)
    decreases |ops|
  {
    ops == [] || (Allowed(d, ops[0]) && AllowedRun(Apply(d, ops[0]), ops[1..]))
  }

  lemma {:induction false} RunRefines(d: Doc, r: Ref, ops: seq<Op>)
    requires Coherent(d, r) && AllowedRun(d, ops)
    ensures Coherent(Run(d, ops), RefRun(r, d, ops))
    decreases |ops|
  {
    hide Coherent, Allowed, Apply, RefStep;
    if ops != [] {
      StepRefines(d, r, ops[0]);
      RunRefines(Apply(d, ops[0]), RefStep(r, d, ops[0]), ops[1..]);
    }
  }

  lemma NewCoheres(text: Text)
    ensures Coherent(New(text), NewRef(text))
  {
    hide Linked;
    NothingLinks(text, text);
  }

  /** Over every allowed run the document is the snapshot history: same text,
      same modified flag, same number of undo and redo steps left. */
  lemma HistoryIsSnapshots(text: Text, ops: seq<Op>)
    requires AllowedRun(New(text), ops)
    ensures var d, r := Run(New(text), ops), RefRun(NewRef(text), New(text), ops);
            && Coherent(d, r)
            && d.text == r.cur && d.modified == r.modified
            && |d.undo| == r.pos && |d.redo| == |r.snaps| - 1 - r.pos
  {
    NewCoheres(text);
    RunRefines(New(text), NewRef(text), ops);
    var d, r := Run(New(text), ops), RefRun(NewRef(text), New(text), ops);
    assert Coherent(d, r);
  }

  /** The text of the last save in a run, or `disk` if there is none. */
  function LastSaved(d: Doc, disk: Text, ops: seq<Op>): Text
    decreases |ops|
  {
    if ops == [] then disk
    else LastSaved(Apply(d, ops[0]), if ops[0].OpSave? then d.text else disk, ops[1..])
  }

  lemma {:induction false} DiskIsLastSaved(d: Doc, r: Ref, ops: seq<Op>)
    requires Coherent(d, r) && AllowedRun(d, ops)
    ensures RefRun(r, d, ops).disk == LastSaved(d, r.disk, ops)
    decreases |ops|
  {
    hide Coherent, Allowed, Apply;
    if ops != [] {
      CoherentText(d, r);
      StepRefines(d, r, ops[0]);
      DiskIsLastSaved(Apply(d, ops[0]), RefStep(r, d, ops[0]), ops[1..]);
    }
  }

  /** Save point safety: an unmodified document shows the text last saved or
      loaded, and the history never outgrows its cap. */
  lemma SavePointIsSafe(text: Text, ops: seq<Op>)
    requires AllowedRun(New(text), ops)
    ensures var d := Run(New(text), ops);
            && (!d.modified ==> d.text == LastSaved(New(text), text, ops))
            && |d.undo| + |d.redo| <= UNDO_CAP
  {
    HistoryIsSnapshots(text, ops);
    NewCoheres(text);
    DiskIsLastSaved(New(text), NewRef(text), ops);
    var d, r := Run(New(text), ops), RefRun(NewRef(text), New(text), ops);
    assert Coherent(d, r);
  }

  /** A history step clears `modified` exactly when it lands on the snapshot
      that was saved, and that snapshot then shows the saved text. */
  lemma LandingOnTheSavePoint(d: Doc, r: Ref, dir: Dir)
    requires Coherent(d, r) && d.pending.None? && Stack(d, dir) != []
    ensures var d', pos := HistoryStep(d, dir), if dir.Undo? then r.pos - 1 else r.pos + 1;
            && 0 <= pos < |r.snaps|
            && d'.text == r.snaps[pos].text
            && (!d'.modified <==> r.snaps[pos].saved)
            && (!d'.modified ==> d'.text == r.disk)
  {
    hide Linked, ReplayText;
    StepCoheres(d, r, dir);
    WalkLands(d, r, dir);
  }

  // --- Other edits commute with the user's history ---

  function Walk(d: Doc, dirs: seq<Dir>): Doc
    decreases |dirs|
  {
    if dirs == [] then d else Walk(HistoryStep(d, dirs[0]), dirs[1..])
  }

  function RefWalk(r: Ref, dirs: seq<Dir>): Ref
    decreases |dirs|
  {
    if dirs == [] then r else RefWalk(RefMove(r, dirs[0]), dirs[1..])
  }

  lemma {:induction false} WalkShowsSnapshot(d: Doc, r: Ref, dirs: seq<Dir>)
    requires Coherent(d, r) && d.pending.None?
    ensures Walk(d, dirs).text == RefWalk(r, dirs).cur && |Walk(d, dirs).undo| == RefWalk(r, dirs).pos
    decreases |dirs|
  {
    hide Coherent, HistoryStep, RefMove;
    CoherentText(d, r);
    if dirs != [] {
      StepCoheres(d, r, dirs[0]);
      StepKeepsClosed(d, dirs[0]);
      WalkShowsSnapshot(HistoryStep(d, dirs[0]), RefMove(r, dirs[0]), dirs[1..]);
    }
  }

  lemma StepKeepsClosed(d: Doc, dir: Dir)
    requires d.pending.None?
    ensures HistoryStep(d, dir).pending.None?
  {
  }

  /** `a` is `b` with every text rewritten at its place in the history of `d`. */
  ghost predicate Twins(a: Ref, b: Ref, d: Doc, s: nat, len: nat, x: Text) {
    && a.pos == b.pos < |a.snaps| == |b.snaps| == Entries(d) + 1
    && (forall k :: 0 <= k < |a.snaps| ==> a.snaps[k].text == CutAt(b.snaps[k].text, Place(d, s, k), len, x))
    && a.cur == CutAt(b.cur, Place(d, s, b.pos), len, x)
  }

  /** Twins stay twins on every walk. */
  lemma {:induction false} TwinsWalk(a: Ref, b: Ref, d: Doc, s: nat, len: nat, x: Text, dirs: seq<Dir>)
    requires Twins(a, b, d, s, len, x)
    ensures Twins(RefWalk(a, dirs), RefWalk(b, dirs), d, s, len, x)
    decreases |dirs|
  {
    hide CutAt, Place;
    if dirs != [] {
      TwinsWalk(RefMove(a, dirs[0]), RefMove(b, dirs[0]), d, s, len, x, dirs[1..]);
    }
  }

  /** Equal groups add up to equal totals. */
  lemma {:induction false} SameTotal(d: Doc, d': Doc, at: nat, k: nat)
    requires k <= Entries(d) && k <= Entries(d')
    requires forall j :: 0 <= j < k ==> HistAt(d, j).splices == HistAt(d', j).splices
    ensures Total(d, at, k) == Total(d', at, k)
  {
    if k > 0 {
      SameTotal(d, d', at, k - 1);
    }
  }

  /** Without the oldest group the rest adds up the same. */
  lemma {:induction false} TotalDrop(d: Doc, d': Doc, at: nat, k: nat)
    requires k < Entries(d) == Entries(d') + 1
    requires forall j :: 0 <= j < k ==> HistAt(d', j) == HistAt(d, j + 1)
    ensures Total(d', at, k) == Total(d, at, k + 1) - Net(HistAt(d, 0).splices, at)
  {
    if k > 0 {
      TotalDrop(d, d', at, k - 1);
    } else {
      assert Total(d, at, 1) == Total(d, at, 0) + Net(HistAt(d, 0).splices, at);
    }
  }

  /** Closing a group that recorded nothing leaves every place where it was. */
  lemma PlacesAfterDrop(d: Doc, s: nat, line: nat, col: nat)
    requires PendingSplices(d) == []
    ensures var d' := End(d, line, col);
            && Entries(d') == Entries(d) && |d'.undo| == |d.undo|
            && forall k :: 0 <= k <= Entries(d) ==> Place(d', s, k) == Place(d, s, k)
  {
    hide Net;
    var d' := End(d, line, col);
    forall k | 0 <= k <= Entries(d) ensures Place(d', s, k) == Place(d, s, k) {
      SameTotal(d, d', s, k);
      SameTotal(d, d', s, |d.undo|);
    }
  }

  /** Pushing the open group leaves every place where it was, and the place
      after it is where the edit is made. */
  lemma PlacesAfterPush(d: Doc, full: Doc, s: nat, e: Entry)
    requires PendingSplices(d) != [] && d.redo == [] && e.splices == PendingSplices(d)
    requires full == d.(pending := None, undo := d.undo + [e])
    ensures forall k :: 0 <= k <= |d.undo| ==> Place(full, s, k) == Place(d, s, k)
    ensures Place(full, s, |d.undo| + 1) == s
  {
    hide Net;
    NoNet(s);
    assert HistAt(full, |d.undo|) == e;
    SameTotal(d, full, s, |d.undo|);
    forall k | 0 <= k <= |d.undo| ensures Place(full, s, k) == Place(d, s, k) {
      SameTotal(d, full, s, k);
    }
  }

  /** Dropping the oldest group renumbers the places. */
  lemma PlacesAfterDropOldest(full: Doc, d': Doc, s: nat)
    requires full.pending.None? && full.redo == [] && full.undo != []
    requires d'.pending.None? && d'.redo == [] && d'.undo == full.undo[1..]
    ensures forall k :: 0 <= k <= |d'.undo| ==> Place(d', s, k) == Place(full, s, k + 1)
  {
    hide Net;
    assert forall j :: 0 <= j < Entries(d') ==> HistAt(d', j) == HistAt(full, j + 1);
    TotalDrop(full, d', s, |d'.undo|);
    forall k | 0 <= k <= |d'.undo| ensures Place(d', s, k) == Place(full, s, k + 1) {
      TotalDrop(full, d', s, k);
    }
  }

  /** Closing the open group renumbers the places as the snapshots are. */
  lemma PlacesAfterEnd(d: Doc, s: nat, line: nat, col: nat)
    requires |d.undo| <= UNDO_CAP && PendingSplices(d) != [] && d.redo == []
    ensures var d', lost := End(d, line, col), if |d.undo| < UNDO_CAP then 0 else 1;
            && Entries(d') == |d'.undo| == |d.undo| + 1 - lost
            && forall k :: 0 <= k <= Entries(d') ==>
                 Place(d', s, k) == if k + lost <= |d.undo| then Place(d, s, k + lost) else s
  {
    hide Place;
    var e := d.pending.value.(afterLine := line, afterCol := col);
    var full := d.(pending := None, undo := d.undo + [e]);
    PlacesAfterPush(d, full, s, e);
    if |full.undo| > UNDO_CAP {
      EvictOne(full);
      PlacesAfterDropOldest(full, End(d, line, col), s);
    }
  }

  lemma NoNet(at: nat)
    ensures Net([], at) == 0
  {
  }

  /** The snapshots with the group closed. */
  function Closed(r: Ref, open: bool): Ref { if open then RefPush(r) else r }

  lemma HistoryShape(d: Doc, r: Ref)
    requires Coherent(d, r)
    ensures |d.undo| == r.pos < |r.snaps| == Entries(d) + 1 && r.pos <= UNDO_CAP
    ensures PendingSplices(d) != [] ==> d.redo == []
  {
  }

  lemma TwinsAfterEnd(d: Doc, r: Ref, s: nat, len: nat, x: Text, line: nat, col: nat)
    requires Coherent(d, r)
    ensures var open := PendingSplices(d) != [];
            Twins(Closed(RefRewrite(r, d, s, len, x), open), Closed(r, open), End(d, line, col), s, len, x)
  {
    hide CutAt, Place, Coherent, End;
    HistoryShape(d, r);
    if PendingSplices(d) == [] {
      PlacesAfterDrop(d, s, line, col);
      PlaceAtText(d, r, s);
    } else {
      PlacesAfterEnd(d, s, line, col);
    }
  }

  lemma PlaceAtText(d: Doc, r: Ref, s: nat)
    requires Coherent(d, r)
    ensures PendingSplices(d) == [] ==> Place(d, s, r.pos) == s
  {
  }

  lemma EndShows(d: Doc, r: Ref, line: nat, col: nat, dirs: seq<Dir>)
    requires Coherent(d, r)
    ensures var late, twin := Walk(End(d, line, col), dirs), RefWalk(Closed(r, PendingSplices(d) != []), dirs);
            late.text == twin.cur && |late.undo| == twin.pos
  {
    hide Coherent, End, RefPush, Walk, RefWalk;
    EndCoheres(d, r, line, col);
    EndCloses(d, line, col);
    WalkShowsSnapshot(End(d, line, col), RefStep(r, d, OpEnd(line, col)), dirs);
  }

  lemma EndCloses(d: Doc, line: nat, col: nat)
    ensures End(d, line, col).pending.None?
  {
  }

  /** What closing the group and walking the history then show, with the
      replacement made before and after. */
  lemma RewriteCommutes(d: Doc, r: Ref, d': Doc, s: nat, len: nat, x: Text, line: nat, col: nat, dirs: seq<Dir>)
    requires Coherent(d, r) && Coherent(d', RefRewrite(r, d, s, len, x))
    requires PendingSplices(d') == [] <==> PendingSplices(d) == []
    ensures var early, late := Walk(End(d', line, col), dirs), Walk(End(d, line, col), dirs);
            && |early.undo| == |late.undo| <= Entries(End(d, line, col))
            && early.text == CutAt(late.text, Place(End(d, line, col), s, |late.undo|), len, x)
  {
    hide Coherent, End, RefPush, Walk, RefWalk, RefRewrite, CutAt, Place;
    EndShows(d, r, line, col, dirs);
    var r', open := RefRewrite(r, d, s, len, x), PendingSplices(d) != [];
    EndShows(d', r', line, col, dirs);
    TwinsAfterEnd(d, r, s, len, x, line, col);
    TwinsWalk(Closed(r', open), Closed(r, open), End(d, line, col), s, len, x, dirs);
  }

  /** An insert that is not the user's and spares what is recorded commutes
      with every later walk through the user's history, also when it is made
      while the user's group is open: closing the group and walking shows what
      doing the insert after the walk would show, at the place of the history
      where the walk ends. */
  lemma InsertNoUndoCommutes(d: Doc, r: Ref, at: nat, x: Text, line: nat, col: nat, dirs: seq<Dir>)
    requires Coherent(d, r) && at <= |d.text| && Spared(d, at, at)
    ensures var early, late := Walk(End(InsertNoUndo(d, at, x), line, col), dirs), Walk(End(d, line, col), dirs);
            && |early.undo| == |late.undo| <= Entries(End(d, line, col))
            && early.text == CutAt(late.text, Place(End(d, line, col), at, |late.undo|), 0, x)
  {
    hide Coherent, Spared, End, Walk, RefRewrite, CutAt, Place;
    CoherentText(d, r);
    InsertNoUndoCoheres(d, r, at, x);
    OpenStaysOpen(d, at, at, x);
    RewriteCommutes(d, r, InsertNoUndo(d, at, x), at, 0, x, line, col, dirs);
  }

  lemma OpenStaysOpen(d: Doc, s: nat, e: nat, x: Text)
    ensures PendingSplices(InsertNoUndo(d, s, x)) == [] <==> PendingSplices(d) == []
    ensures PendingSplices(DeleteNoUndo(d, s, e)) == [] <==> PendingSplices(d) == []
  {
  }

  /** The same for a delete that is not the user's. */
  lemma DeleteNoUndoCommutes(d: Doc, r: Ref, s: nat, e: nat, line: nat, col: nat, dirs: seq<Dir>)
    requires Coherent(d, r) && s <= e <= |d.text| && Spared(d, s, e)
    ensures var early, late := Walk(End(DeleteNoUndo(d, s, e), line, col), dirs), Walk(End(d, line, col), dirs);
            && |early.undo| == |late.undo| <= Entries(End(d, line, col))
            && early.text == CutAt(late.text, Place(End(d, line, col), s, |late.undo|), e - s, [])
  {
    hide Coherent, Spared, End, Walk, RefRewrite, CutAt, Place;
    CoherentText(d, r);
    if s == e {
      NothingCommutes(d, r, s, line, col, dirs);
    } else {
      DeleteNoUndoCoheres(d, r, s, e);
      OpenStaysOpen(d, s, e, []);
      RewriteCommutes(d, r, DeleteNoUndo(d, s, e), s, e - s, [], line, col, dirs);
    }
  }

  lemma NothingCommutes(d: Doc, r: Ref, s: nat, line: nat, col: nat, dirs: seq<Dir>)
    requires Coherent(d, r)
    ensures var late := Walk(End(DeleteNoUndo(d, s, s), line, col), dirs);
            && |late.undo| <= Entries(End(d, line, col))
            && late.text == CutAt(late.text, Place(End(d, line, col), s, |late.undo|), 0, [])
  {
    hide Coherent, End, Walk, RefWalk, RefRewrite, Place;
    EndShows(d, r, line, col, dirs);
    var open := PendingSplices(d) != [];
    TwinsAfterEnd(d, r, s, 0, [], line, col);
    TwinsWalk(Closed(RefRewrite(r, d, s, 0, []), open), Closed(r, open), End(d, line, col), s, 0, [], dirs);
  }

  /** Closing a group of one splice and undoing it replays that splice. */
  lemma UndoOne(d: Doc, sp: Splice, line: nat, col: nat)
    requires PendingSplices(d) == [sp] && d.undo == [] && d.redo == []
    ensures Walk(End(d, line, col), [Undo]).text == StepText(d.text, sp, Undo)
  {
    hide StepText;
    var e := End(d, line, col);
    assert e.undo == [e.undo[0]] && e.undo[0].splices == [sp];
    assert [sp][..0] == [];
    assert UndoText(d.text, [sp]) == UndoText(StepText(d.text, sp, Undo), []);
    assert Walk(e, [Undo]) == Walk(HistoryStep(e, Undo), []);
  }

  /** A new document in which "abc" was just typed, its group still open. */
  function TypedAbc(): (d: Doc)
    ensures d.text == "abc" && PendingSplices(d) == [Splice(0, [], "abc")] && d.undo == [] && d.redo == []
  {
    InsertAt(Begin(New([]), 0, 0), 0, "abc")
  }

  lemma TypedAbcCoheres()
    ensures Coherent(TypedAbc(), RefEdit(NewRef([]), 0, 0, "abc"))
  {
    hide Coherent, InsertAt;
    NewCoheres([]);
    QuietCoheres(New([]), NewRef([]), OpBegin(0, 0));
    InsertCoheres(Begin(New([]), 0, 0), NewRef([]), 0, "abc");
  }

  /** The condition is not idle: an insert made inside a typed run is not
      spared, and undoing the run then takes the insert's character and leaves
      one of the run's own. */
  lemma AnInsertInsideARunStraysUndo()
    ensures Coherent(TypedAbc(), RefEdit(NewRef([]), 0, 0, "abc")) && !Spared(TypedAbc(), 1, 1)
    ensures Walk(End(InsertNoUndo(TypedAbc(), 1, "X"), 0, 3), [Undo]).text == "c"
    ensures Walk(End(TypedAbc(), 0, 3), [Undo]).text == []
  {
    var sp, d := Splice(0, [], "abc"), InsertNoUndo(TypedAbc(), 1, "X");
    hide TypedAbc, Coherent;
    TypedAbcCoheres();
    assert Net([sp], 1) == 3 by { assert [sp][..0] == []; }
    assert d.text == "aXbc";
    assert RemapAll([sp], 1, 1) == [sp];
    UndoOne(d, sp, 0, 3);
    UndoOne(TypedAbc(), sp, 0, 3);
  }

  // --- Two simple ways to spare everything ---

  predicate StartsFrom(ss: seq<Splice>, e: nat) {
    forall i :: 0 <= i < |ss| ==> e <= ss[i].start
  }

  /** Every recorded start is at or after `e`. */
  predicate AllFrom(d: Doc, e: nat) {
    && StartsFrom(PendingSplices(d), e)
    && forall k :: 0 <= k < Entries(d) ==> StartsFrom(HistAt(d, k).splices, e)
  }

  lemma {:induction false} FromSpares(ss: seq<Splice>, s: nat, e: nat)
    requires s <= e && StartsFrom(ss, e)
    ensures Net(ss, s) == 0 && Spares(ss, s, s, e)
  {
    if ss != [] {
      FromSpares(ss[..|ss| - 1], s, e);
    }
  }

  lemma {:induction false} NothingBelow(d: Doc, s: nat, e: nat, k: nat)
    requires s <= e && AllFrom(d, e) && k <= Entries(d)
    ensures Total(d, s, k) == 0
  {
    if k > 0 {
      NothingBelow(d, s, e, k - 1);
      FromSpares(HistAt(d, k - 1).splices, s, e);
    }
  }

  /** A replacement before everything recorded spares it, and falls at the same
      place in every snapshot. */
  lemma AheadSpares(d: Doc, s: nat, e: nat)
    requires s <= e && AllFrom(d, e)
    ensures Spared(d, s, e) && forall k :: 0 <= k <= Entries(d) ==> Place(d, s, k) == s
  {
    hide Spares, Net;
    FromSpares(PendingSplices(d), s, e);
    forall k | 0 <= k <= Entries(d) ensures Place(d, s, k) == s {
      NothingBelow(d, s, e, k);
      NothingBelow(d, s, e, |d.undo|);
    }
    forall k | 0 <= k < Entries(d) ensures Spares(HistAt(d, k).splices, Place(d, s, k), s, e) {
      FromSpares(HistAt(d, k).splices, s, e);
    }
  }

  /** Every splice of the group starts below `at` and lies in the part of its
      text before the last `n` characters. */
  predicate StaysBefore(t: Text, ss: seq<Splice>, at: nat, n: nat) {
    ss == [] ||
    (var init, sp := ss[..|ss| - 1], ss[|ss| - 1];
     && StaysBefore(t, init, at, n)
     && sp.start < at && sp.start + |sp.removed| + n <= |RedoText(t, init)|)
  }

  /** Every recorded start is below `at`, and every recorded splice stays before
      the text that follows `at`. */
  ghost predicate AllBefore(d: Doc, r: Ref, at: nat)
    requires at <= |d.text| && r.pos < |r.snaps| == Entries(d) + 1
  {
    var n := |d.text| - at;
    && StaysBefore(r.snaps[r.pos].text, PendingSplices(d), at, n)
    && forall k :: 0 <= k < Entries(d) ==> StaysBefore(r.snaps[k].text, HistAt(d, k).splices, at, n)
  }

  lemma {:induction false} BeforeSpares(a: Text, ss: seq<Splice>, b: Text, s: nat, e: nat, n: nat)
    requires Linked(a, ss, b) && s <= e && StaysBefore(a, ss, s, n)
    ensures Net(ss, s) == |b| - |a| && Spares(ss, |a| - n, s, e)
  {
    if ss != [] {
      var init, sp := ss[..|ss| - 1], ss[|ss| - 1];
      var u := RedoText(a, init);
      BeforeSpares(a, init, u, s, e, n);
      RedoIsEdit(u, sp);
      EditLength(u, sp);
    }
  }

  lemma {:induction false} TotalGrows(d: Doc, r: Ref, at: nat, k: nat)
    requires Coherent(d, r) && at <= |d.text| && AllBefore(d, r, at) && k <= Entries(d)
    ensures Total(d, at, k) == |r.snaps[k].text| - |r.snaps[0].text|
  {
    hide Linked, SavePoint, StaysBefore;
    if k > 0 {
      TotalGrows(d, r, at, k - 1);
      assert Leads(r.snaps[k - 1], HistAt(d, k - 1), r.snaps[k]);
      BeforeSpares(r.snaps[k - 1].text, HistAt(d, k - 1).splices, r.snaps[k].text, at, at, |d.text| - at);
    }
  }

  /** A replacement behind everything recorded spares it, and falls at the same
      distance from the end of every snapshot. */
  lemma BehindSpares(d: Doc, r: Ref, s: nat, e: nat)
    requires Coherent(d, r) && s <= e <= |d.text| && AllBefore(d, r, s)
    ensures Spared(d, s, e)
    ensures forall k :: 0 <= k <= Entries(d) ==> Place(d, s, k) == |r.snaps[k].text| - (|d.text| - s)
  {
    hide Linked, SavePoint, StaysBefore, Spares, Net;
    var n := |d.text| - s;
    BeforeSpares(r.snaps[r.pos].text, PendingSplices(d), d.text, s, e, n);
    forall k | 0 <= k <= Entries(d) ensures Place(d, s, k) == |r.snaps[k].text| - n {
      TotalGrows(d, r, s, k);
      TotalGrows(d, r, s, |d.undo|);
    }
    forall k | 0 <= k < Entries(d) ensures Spares(HistAt(d, k).splices, Place(d, s, k), s, e) {
      assert Leads(r.snaps[k], HistAt(d, k), r.snaps[k + 1]);
      BeforeSpares(r.snaps[k].text, HistAt(d, k).splices, r.snaps[k + 1].text, s, e, n);
    }
  }
}
