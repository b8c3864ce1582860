// The editor object: substrate and view together, and the streaming of agent
// text through them.
module EditorStreams {
  import opened Lines
  import opened Options
  import opened Splices
  import opened Ranges
  import opened Anchors
  import C = CoreModel
  import V = View
  import K = Chunks
  import T = ChunkTail
  import opened Editors
  import opened EditorViews

  lemma TaggedByMaps(c: C.Core, byLine: map<nat, nat>, line: nat, tag: Tag)
    requires Inverse(c.anchors.lines, byLine)
    ensures K.Tagged(c, line, tag) <==> line in byLine && byLine[line] in c.meta && c.meta[byLine[line]] == tag
  {
    if line in byLine {
      assert AnchorAt(c.anchors, line, byLine[line]);
    }
  }

  lemma OtherByMaps(c: C.Core, byLine: map<nat, nat>, line: nat, tag: Tag)
    requires Inverse(c.anchors.lines, byLine)
    ensures K.TaggedOther(c, line, tag) <==> line in byLine && byLine[line] in c.meta && c.meta[byLine[line]] != tag
  {
    hide K.Tagged;
    if line in byLine && byLine[line] in c.meta {
      TaggedByMaps(c, byLine, line, c.meta[byLine[line]]);
    }
    if K.TaggedOther(c, line, tag) {
      var g :| g != tag && K.Tagged(c, line, g);
      TaggedByMaps(c, byLine, line, g);
    }
  }

  /** The tail of a turn, cached or scanned for, is the highest tagged line. */
  lemma TailFromScan(c: C.Core, tag: Tag, scanned: Option<nat>)
    requires K.ValidTail(c, tag).None?
    requires scanned.Some? ==> K.Highest(c, tag, scanned.value)
    requires scanned.None? ==> forall l: nat :: !K.Highest(c, tag, l)
    ensures K.TurnTail(c, tag) == scanned
  {
    hide K.Tagged;
    if scanned.Some? {
      var l := K.TurnTail(c, tag).value;
      T.NotAbove(c, tag, l, scanned.value);
      T.NotAbove(c, tag, scanned.value, l);
    }
  }

  class Editor {
    const core: EditorCore
    const view: EditorView

    constructor (text: Text)
      ensures core.Valid() && fresh(core) && fresh(view) && fresh(core.document) && fresh(core.anchors)
    {
      core := new EditorCore(text);
      view := new EditorView();
    }

    ghost function Value(): K.Pane
      reads core, view, core.document, core.anchors
    {
      K.Pane(core.Value(), view.cursor, view.selectionAnchor)
    }

    // --- Tags ---

    method LineTaggedThisTurn(line: nat, tag: Tag) returns (b: bool)
      requires core.Valid()
      ensures b == K.Tagged(core.Value(), line, tag)
    {
      TaggedByMaps(core.Value(), core.anchors.byLine, line, tag);
      b := line in core.anchors.byLine && core.anchors.byLine[line] in core.metadata
           && core.metadata[core.anchors.byLine[line]] == tag;
    }

    method LineTaggedOtherTurn(line: nat, tag: Tag) returns (b: bool)
      requires core.Valid()
      ensures b == K.TaggedOther(core.Value(), line, tag)
    {
      OtherByMaps(core.Value(), core.anchors.byLine, line, tag);
      b := line in core.anchors.byLine && core.anchors.byLine[line] in core.metadata
           && core.metadata[core.anchors.byLine[line]] != tag;
    }

    /** The reverse scan: anchored lines from the last up, until one has the tag. */
    method LastLineWithMeta(tag: Tag) returns (r: Option<nat>)
      requires core.Valid()
      ensures r.Some? ==> K.Highest(core.Value(), tag, r.value)
      ensures r.None? ==> forall l: nat :: !K.Tagged(core.Value(), l, tag)
    {
      hide K.Tagged;
      ghost var c := core.Value();
      var ks := KeysFrom(core.anchors.byLine, 0);
      forall l: nat
        ensures K.Tagged(c, l, tag) ==> l in ks
      {
        TaggedByMaps(c, core.anchors.byLine, l, tag);
      }
      var i := |ks|;
      while i > 0
        invariant 0 <= i <= |ks|
        invariant forall k :: i <= k < |ks| ==> !K.Tagged(c, ks[k], tag)
      {
        i := i - 1;
        var tagged := LineTaggedThisTurn(ks[i], tag);
        if tagged {
          FirstFromTop(c, ks, i, tag);
          return Some(ks[i]);
        }
      }
      r := None;
    }

    // --- Where a chunk goes ---

    method ValidCachedLine(tag: Tag) returns (r: Option<nat>)
      requires core.Valid()
      ensures r == K.ValidTail(core.Value(), tag)
    {
      hide K.Tagged, Breaks;
      if core.lastLlmLine.None? || core.lastLlmLine.value >= LineCount(core.document.rope) {
        return None;
      }
      var tagged := LineTaggedThisTurn(core.lastLlmLine.value, tag);
      r := if tagged then core.lastLlmLine else None;
    }

    method ContinuationRejoinPoint(tag: Tag, chunk: Text) returns (r: Option<nat>)
      requires core.Valid()
      ensures r == K.RejoinPoint(core.Value(), tag, chunk)
    {
      hide K.ValidTail, K.Finished, LineLen, LineColToChar;
      var rope := core.document.rope;
      var line := ValidCachedLine(tag);
      if !core.lastLlmOpen || line.None? || chunk == [] || chunk[0] == '\n' || chunk[0] == '\r' {
        return None;
      }
      var len := LineLen(rope, line.value);
      var i := LineColToChar(rope, line.value, len);
      if len == 0 || i < len || K.Finished(rope[i - len..i]) {
        return None;
      }
      r := Some(i);
    }

    method FindLlmInsertionPoint(tag: Tag) returns (at: nat)
      requires core.Valid()
      ensures at == K.FindPoint(core.Value(), tag)
    {
      hide K.ValidTail, K.Highest, K.TaggedOther, LineLen, LineColToChar, Breaks;
      var rope := core.document.rope;
      var tail := ValidCachedLine(tag);
      if tail.None? {
        tail := LastLineWithMeta(tag);
        NoneHighest(core.Value(), tag);
        TailFromScan(core.Value(), tag, tail);
      }
      if tail.None? {
        return |rope|;
      }
      if tail.value < Breaks(rope) {
        var other := LineTaggedOtherTurn(tail.value + 1, tag);
        return if other then |rope| else LineColToChar(rope, tail.value + 1, 0);
      }
      at := LineColToChar(rope, tail.value, LineLen(rope, tail.value));
    }

    // --- Writing it ---

    /** Insert text that is not the user's, keeping caret and selection on
        their characters. */
    method SpliceInsert(at: nat, text: Text)
      requires core.Valid()
      modifies view`cursor, view`selectionAnchor, core, core.anchors, core.document
      ensures core.Valid() && Value() == K.SpliceIn(old(Value()), at, text)
    {
      hide Sorted, K.InsertText, LineColToChar, LineOf, ColOf;
      K.InsertClamps(core.Value(), at, text);
      K.InsertedText(core.Value(), Min(at, |core.document.rope|), text);
      var cursorChar := LineColToChar(core.document.rope, view.cursor.line, view.cursor.col);
      var anchorChar := 0;
      if view.selectionAnchor.Some? {
        var anchor := view.selectionAnchor.value;
        anchorChar := LineColToChar(core.document.rope, anchor.line, anchor.col);
      }
      core.ProgrammaticInsert(at, text);
      var rope := core.document.rope;
      if at <= cursorChar {
        view.cursor := V.Caret(LineOf(rope, cursorChar + |text|), ColOf(rope, cursorChar + |text|));
      }
      if view.selectionAnchor.Some? && at <= anchorChar {
        view.selectionAnchor := Some(V.Caret(LineOf(rope, anchorChar + |text|), ColOf(rope, anchorChar + |text|)));
      }
    }

    /** Insert the chunk, freeze and tag its lines, remember the last one. */
    method WriteChunk(at: nat, tag: Tag, chunk: Text)
      requires core.Valid() && at <= |core.document.rope| && chunk != []
      modifies view`cursor, view`selectionAnchor, core, core.anchors, core.document
      ensures core.Valid() && Proper(old(core.anchors.Value())) && Value() == K.Write(old(Value()), at, tag, chunk)
    {
      hide Sorted, K.SpliceIn, K.Stamp, LineOf, Proper;
      ProperOfInverse(core.anchors);
      SpliceInsert(at, chunk);
      ProperOfInverse(core.anchors);
      var rope := core.document.rope;
      var closed := chunk[|chunk| - 1] == '\n';
      var start := LineOf(rope, Min(at, |rope|));
      var end := LineOf(rope, Min(at + |chunk|, |rope|)) + if closed then 0 else 1;
      StampLines(start, end, tag);
      if start < end {
        core.lastLlmLine, core.lastLlmOpen := Some(end - 1), !closed;
      }
    }

    method StampLines(start: nat, end: nat, tag: Tag)
      requires core.Valid()
      modifies core, core.anchors
      ensures core.Valid() && Proper(old(core.anchors.Value()))
              && core.Value() == K.Stamp(old(core.Value()), start, end, tag)
    {
      hide Sorted, K.TagLines, Add, Proper;
      ProperOfInverse(core.anchors);
      core.AddFrozenLines(start, end);
      core.TagLines(start, end, tag);
    }

    /** Append a chunk of the turn, never below the floor. */
    method AppendLlmChunkFloored(tag: Tag, chunk: Text, floor: nat)
      requires core.Valid()
      modifies view`cursor, view`selectionAnchor, core, core.anchors, core.document
      ensures core.Valid() && Proper(old(core.anchors.Value()))
      ensures Value() == K.AppendChunk(old(Value()), tag, chunk, floor)
    {
      hide Sorted, K.SpliceIn, K.Write, K.RejoinPoint, K.FindPoint, K.Tagged, LineOf, LineLen, LineColToChar, Proper;
      ProperOfInverse(core.anchors);
      if chunk == [] {
        return;
      }
      ghost var p := Value();
      var rope := core.document.rope;
      K.PointInText(core.Value(), tag, chunk, floor);
      var rejoin := ContinuationRejoinPoint(tag, chunk);
      var natural := 0;
      if rejoin.Some? {
        natural := rejoin.value;
      } else {
        natural := FindLlmInsertionPoint(tag);
      }
      if floor >= |rope| || natural < floor {
        WriteChunk(Min(natural, floor), tag, chunk);
        return;
      }
      var top := LineOf(rope, floor);
      var continues := false;
      if top > 0 && core.lastLlmOpen && core.lastLlmLine == Some(top - 1) {
        continues := LineTaggedThisTurn(top - 1, tag);
      }
      if continues {
        WriteChunk(LineColToChar(rope, top - 1, LineLen(rope, top - 1)), tag, chunk);
        return;
      }
      SpliceText(p, floor);
      SpliceInsert(floor, ['\n']);
      WriteChunk(floor, tag, chunk);
    }
  }

  lemma SpliceText(p: K.Pane, at: nat)
    requires at <= |p.core.doc.text|
    ensures |K.SpliceIn(p, at, ['\n']).core.doc.text| == |p.core.doc.text| + 1
  {
    hide K.InsertText, K.MoveCaret;
    K.InsertedText(p.core, at, ['\n']);
  }

  /** The first tagged line met from the top of an ascending list of all of
      them is the highest. */
  lemma FirstFromTop(c: C.Core, ks: seq<nat>, i: nat, tag: Tag)
    requires i < |ks| && Ascending(ks) && K.Tagged(c, ks[i], tag)
    requires forall l: nat :: K.Tagged(c, l, tag) ==> l in ks
    requires forall k :: i < k < |ks| ==> !K.Tagged(c, ks[k], tag)
    ensures K.Highest(c, tag, ks[i])
  {
    hide K.Tagged;
  }

  lemma NoneHighest(c: C.Core, tag: Tag)
    ensures (forall l: nat :: !K.Tagged(c, l, tag)) ==> forall l: nat :: !K.Highest(c, tag, l)
  {
  }
}
