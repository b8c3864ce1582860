// The event log object: each method does what its value-level counterpart says.
module EventLogs {
  import opened Options
  import L = LogModel
  import opened LogModel

  class EventLog {
    var entries: seq<Note>
    var logBase: nat

    constructor (recovered: seq<Note>, base: nat)
      ensures Value() == Log(recovered, base)
    {
      entries, logBase := recovered, base;
    }

    ghost function Value(): Log
      reads this
    {
      Log(entries, logBase)
    }

    method Push(note: Note) returns (seqNo: nat)
      modifies this
      ensures Value() == L.Push(old(Value()), note)
      ensures seqNo == Tip(old(Value())) && Value().entries[seqNo - logBase] == note
    {
      seqNo := logBase + |entries|;
      entries := entries + [note];
    }

    /** The highest turn among the first `n` entries. */
    method HighestTurnOf(n: nat) returns (through: Option<nat>)
      requires n <= |entries|
      ensures through == HighestTurn(entries[..n])
    {
      through := None;
      for i := 0 to n
        invariant through == HighestTurn(entries[..i])
      {
        assert entries[..i + 1][..i] == entries[..i];
        through := Higher(through, TurnOf(entries[i]));
      }
    }

    method Trim(cap: nat, target: nat, floor: Option<nat>) returns (r: Option<Trimmed>)
      modifies this
      ensures (Value(), r) == L.Trim(old(Value()), cap, target, floor)
    {
      if |entries| <= cap {
        return None;
      }
      var dropped := Least(Minus(|entries|, target), Droppable(Log(entries, logBase), floor));
      if dropped == 0 {
        return None;
      }
      var through := HighestTurnOf(dropped);
      entries := entries[dropped..];
      logBase := logBase + dropped;
      r := Some(Trimmed(dropped, logBase, through));
    }

    method Prepend(note: Note)
      modifies this
      ensures Value() == L.Prepend(old(Value()), note)
    {
      entries := [note] + entries;
      logBase := Minus(logBase, 1);
    }

    method Compact(cap: nat, floor: Option<nat>) returns (dropped: Option<nat>)
      modifies this
      ensures Value() == L.Compact(old(Value()), cap, floor)
      ensures dropped.Some? ==> Tip(Value()) == Tip(old(Value()))
    {
      var r := Trim(cap, LowWater(cap), floor);
      if r.None? {
        return None;
      }
      Prepend(Marker(if r.value.through.Some? then r.value.through.value else 0));
      dropped := Some(r.value.dropped);
    }

    method ResolveCursor(cursor: Option<(nat, nat)>, gen: nat) returns (r: Resolution)
      ensures r == L.ResolveCursor(Value(), cursor, gen)
      ensures r.Tail? ==> cursor.Some? && SeqOf(Value(), r.index) == cursor.value.1 && r.index <= |entries|
    {
      if cursor.None? {
        return FromBase;
      }
      var (cursorGen, acked) := cursor.value;
      if cursorGen != gen || acked < logBase || acked > logBase + |entries| {
        return FromBase;
      }
      r := Tail(acked - logBase);
    }

    method TailFrom(i: nat) returns (tail: seq<Note>)
      ensures tail == L.TailFrom(Value(), i)
    {
      tail := if i <= |entries| then entries[i..] else [];
    }
  }
}
