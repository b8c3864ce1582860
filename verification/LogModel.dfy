// The in-memory event log of a session as a value: a front-trimmed ring with a
// logical sequence space that trimming does not move.
module LogModel {
  import opened Options

  /** What the log holds: transcript events, and the marker that stands in for
      trimmed ones. */
  datatype Note = Event(id: nat, turn: Option<nat>) | Marker(through: nat)

  /** Resident entries; `base` is the logical position of the first. */
  datatype Log = Log(entries: seq<Note>, base: nat)

  function Tip(log: Log): nat { log.base + |log.entries| }

  function SeqOf(log: Log, i: nat): nat { log.base + i }

  function Push(log: Log, note: Note): Log { log.(entries := log.entries + [note]) }

  function TurnOf(note: Note): Option<nat> {
    match note
    case Event(_, turn) => turn
    case Marker(through) => Some(through)
  }

  /** The highest turn of some notes. */
  function HighestTurn(notes: seq<Note>): Option<nat> {
    if notes == [] then None else Higher(HighestTurn(notes[..|notes| - 1]), TurnOf(notes[|notes| - 1]))
  }

  function Higher(a: Option<nat>, b: Option<nat>): Option<nat> {
    if a.None? then b else if b.None? || b.value <= a.value then a else b
  }

  function Least(a: nat, b: nat): nat { if a <= b then a else b }
  function Minus(a: nat, b: nat): nat { if a < b then 0 else a - b }

  datatype Trimmed = Trimmed(dropped: nat, newBase: nat, through: Option<nat>)

  /** How many entries are below the floor; no floor protects none. */
  function Droppable(log: Log, floor: Option<nat>): (n: nat)
    ensures n <= |log.entries|
  {
    if floor.None? then |log.entries| else Least(Minus(floor.value, log.base), |log.entries|)
  }

  function Trim(log: Log, cap: nat, target: nat, floor: Option<nat>): (Log, Option<Trimmed>) {
    var dropped := if |log.entries| <= cap then 0 else Least(Minus(|log.entries|, target), Droppable(log, floor));
    if dropped == 0 then (log, None)
    else
      (Log(log.entries[dropped..], log.base + dropped),
       Some(Trimmed(dropped, log.base + dropped, HighestTurn(log.entries[..dropped]))))
  }

  /** Put a marker in front; it takes the position before the first entry's. */
  function Prepend(log: Log, note: Note): Log {
    Log([note] + log.entries, Minus(log.base, 1))
  }

  /** Low-water mark: three quarters of the cap, with a slot left for the marker. */
  function LowWater(cap: nat): nat {
    var t := if cap * 3 / 4 < 1 then 1 else cap * 3 / 4;
    Least(t, Minus(cap, 1))
  }

  /** Trim to the low-water mark and leave a marker for what was dropped. */
  function Compact(log: Log, cap: nat, floor: Option<nat>): Log {
    var r := Trim(log, cap, LowWater(cap), floor);
    if r.1.None? then log
    else Prepend(r.0, Marker(if r.1.value.through.Some? then r.1.value.through.value else 0))
  }

  datatype Resolution = FromBase | Tail(index: nat)

  function ResolveCursor(log: Log, cursor: Option<(nat, nat)>, gen: nat): Resolution {
    if cursor.None? || cursor.value.0 != gen then FromBase
    else if cursor.value.1 < log.base || cursor.value.1 > Tip(log) then FromBase
    else Tail(cursor.value.1 - log.base)
  }

  function ResolveSent(log: Log, sent: nat, gen: nat): Resolution { ResolveCursor(log, Some((gen, sent)), gen) }

  function IndexOf(r: Resolution): nat { if r.FromBase? then 0 else r.index }

  function TailFrom(log: Log, i: nat): seq<Note> { if i <= |log.entries| then log.entries[i..] else [] }

  // --- Trimming ---

  lemma {:induction false} HighestTurnBounds(notes: seq<Note>, k: nat)
    requires k < |notes| && TurnOf(notes[k]).Some?
    ensures HighestTurn(notes).Some? && TurnOf(notes[k]).value <= HighestTurn(notes).value
  {
    if k < |notes| - 1 {
      HighestTurnBounds(notes[..|notes| - 1], k);
    }
  }

  /** The entry at a logical position. */
  function EntryAt(log: Log, s: nat): Option<Note> {
    if log.base <= s < Tip(log) then Some(log.entries[s - log.base]) else None
  }

  ghost predicate Marked(log: Log) { log.entries != [] && log.entries[0].Marker? }

  /** Compaction drops only positions below the floor, puts one marker on the
      last of them, and moves nothing: survivors keep their positions and the
      tip stays. */
  lemma CompactKeepsPositions(log: Log, cap: nat, floor: Option<nat>)
    ensures var c := Compact(log, cap, floor);
            && Tip(c) == Tip(log)
            && (c != log ==>
                  && Marked(c) && log.base <= c.base
                  && (floor.Some? ==> c.base < floor.value)
                  && forall s :: s > c.base ==> EntryAt(c, s) == EntryAt(log, s))
  {
  }

  /** Without a floor, compaction brings the log to its cap or below
      (to the marker alone if the cap is zero); with one, what is left above
      the cap is exactly what the floor protects, and the marker. */
  lemma CompactBounds(log: Log, cap: nat, floor: Option<nat>)
    ensures var c := Compact(log, cap, floor);
            || |c.entries| <= (if cap == 0 then 1 else cap)
            || (floor.Some? && (c.base + 1 == floor.value || (c == log && floor.value <= log.base)))
  {
  }

  /** Compaction leaves a log alone that is within its cap or has nothing below
      the floor. Otherwise the first position that survives is the floor, or
      the one that leaves three quarters of the cap (at least one entry, and a
      slot for the marker), whichever is lower. */
  lemma CompactDropsExactly(log: Log, cap: nat, floor: Option<nat>)
    ensures var c := Compact(log, cap, floor);
            var kept := if cap <= 1 then 0 else if cap * 3 < 8 then 1 else cap * 3 / 4;
            if |log.entries| <= cap || (floor.Some? && floor.value <= log.base) then c == log
            else
              var first := Tip(log) - kept;
              && Marked(c)
              && c.base + 1 == (if floor.Some? && floor.value < first then floor.value else first)
  {
  }

  // --- What the log says about the history ---

  /** `log` holds the end of the history `all`; what it no longer holds, from
      `origin` on, its first entry marks, with a turn no lower than any of theirs. */
  ghost predicate Faithful(log: Log, all: seq<Note>, origin: nat) {
    && origin <= log.base && Tip(log) == |all|
    && (forall i :: origin <= i < |all| ==> all[i].Event?)
    && (forall s :: log.base <= s < |all| ==> log.entries[s - log.base] == all[s] || (s == log.base && Marked(log)))
    && (log.base > origin ==> Marked(log))
    && (Marked(log) ==> forall i :: origin <= i <= log.base ==> Covered(all[i], log.entries[0].through))
  }

  predicate Covered(note: Note, through: nat) {
    TurnOf(note).Some? ==> TurnOf(note).value <= through
  }

  lemma PushIsFaithful(log: Log, all: seq<Note>, origin: nat, note: Note)
    requires Faithful(log, all, origin) && note.Event?
    ensures Faithful(Push(log, note), all + [note], origin)
  {
  }

  /** The marker's turn covers every dropped event, those an earlier marker
      stood for included. */
  lemma MarkerCovers(log: Log, all: seq<Note>, origin: nat, dropped: nat, i: nat)
    requires Faithful(log, all, origin) && 0 < dropped <= |log.entries| && origin <= i < log.base + dropped
    ensures var h := HighestTurn(log.entries[..dropped]);
            Covered(all[i], if h.Some? then h.value else 0)
  {
    if TurnOf(all[i]).Some? {
      var k := if i <= log.base then 0 else i - log.base;
      HighestTurnBounds(log.entries[..dropped], k);
    }
  }

  lemma CompactIsFaithful(log: Log, all: seq<Note>, origin: nat, cap: nat, floor: Option<nat>)
    requires Faithful(log, all, origin)
    ensures Faithful(Compact(log, cap, floor), all, origin)
  {
    hide HighestTurn, Covered;
    var r := Trim(log, cap, LowWater(cap), floor);
    if r.1.Some? {
      var dropped := r.1.value.dropped;
      forall i | origin <= i < log.base + dropped
        ensures Covered(all[i], if r.1.value.through.Some? then r.1.value.through.value else 0)
      {
        MarkerCovers(log, all, origin, dropped, i);
      }
    }
  }

  /** The marker's turn is no higher than it has to be: it is the turn of an
      event the log no longer holds, or zero. */
  ghost predicate Attained(log: Log, all: seq<Note>, origin: nat) {
    Marked(log) ==>
      || log.entries[0].through == 0
      || exists i :: origin <= i <= log.base && i < |all| && TurnOf(all[i]) == Some(log.entries[0].through)
  }

  lemma {:induction false} HighestTurnIsThere(notes: seq<Note>) returns (k: nat)
    requires HighestTurn(notes).Some?
    ensures k < |notes| && TurnOf(notes[k]) == HighestTurn(notes)
  {
    var last := TurnOf(notes[|notes| - 1]);
    if HighestTurn(notes) == last {
      k := |notes| - 1;
    } else {
      k := HighestTurnIsThere(notes[..|notes| - 1]);
    }
  }

  lemma CompactStaysAttained(log: Log, all: seq<Note>, origin: nat, cap: nat, floor: Option<nat>)
    requires Faithful(log, all, origin) && Attained(log, all, origin)
    ensures Attained(Compact(log, cap, floor), all, origin)
  {
    hide HighestTurn, Covered;
    var r := Trim(log, cap, LowWater(cap), floor);
    if r.1.Some? && r.1.value.through.Some? {
      var gone := log.entries[..r.1.value.dropped];
      var k := HighestTurnIsThere(gone);
      assert gone[k] == log.entries[k];
      if k > 0 || !Marked(log) {
        assert TurnOf(all[log.base + k]) == r.1.value.through;
      }
    }
  }

  /** What a cursor resolves to either leaves nothing out, from the position
      it resolves to on, or begins with the marker: an incremental tail starts
      at the acknowledged position, a rebuild at the origin of the history. */
  lemma OmissionsAreMarked(log: Log, all: seq<Note>, origin: nat, cursor: Option<(nat, nat)>, gen: nat)
    requires Faithful(log, all, origin)
    ensures var r := ResolveCursor(log, cursor, gen);
            var stream := TailFrom(log, IndexOf(r));
            var from := if r.Tail? then cursor.value.1 else origin;
            && from <= |all| && |stream| <= |all| - from
            && (stream != all[from..] ==>
                  stream != [] && stream[0].Marker? && stream[1..] == all[|all| - |stream| + 1..])
  {
  }
}
