// Any number of forwarders tailing one trimmed log, each at its own pace, from
// the snapshot it last took.
module Forwarders {
  import opened Options
  import opened LogModel

  /** A note as a client gets it, with its logical position. */
  datatype Sent = Sent(at: nat, note: Note)

  /** A forwarder: where it attached, the first position not sent yet, the
      snapshot it holds, what it sent, and whether the trim floor protects it. */
  datatype Forwarder = Forwarder(start: nat, sent: nat, held: Log, got: seq<Sent>, guarded: bool)

  /** The session: its log, the whole history it records, and its forwarders. */
  datatype Server = Server(log: Log, history: seq<Note>, fwds: map<nat, Forwarder>, gen: nat)

  datatype Step =
    | Record(note: Note)
    | Compaction(cap: nat, floor: Option<nat>)
    | Attach(id: nat, cursor: Option<(nat, nat)>)
    | Release(id: nat)                 // replaced, detached or evicted
    | Wake(id: nat)
    | Flush(id: nat)
    | Respawn

  function Numbered(notes: seq<Note>, from: nat): seq<Sent> {
    seq(|notes|, i requires 0 <= i < |notes| => Sent(from + i, notes[i]))
  }

  /** Send what the held snapshot has past `sent`. */
  function FlushOne(f: Forwarder, gen: nat): Forwarder {
    var i := IndexOf(ResolveSent(f.held, f.sent, gen));
    var tail := TailFrom(f.held, i);
    if tail == [] then f
    else f.(got := f.got + Numbered(tail, SeqOf(f.held, i)), sent := Tip(f.held))
  }

  function Do(v: Server, step: Step): Server {
    match step
    case Record(note) => v.(log := Push(v.log, note), history := v.history + [note])
    case Compaction(cap, floor) => v.(log := Compact(v.log, cap, floor))
    case Attach(id, cursor) =>
      var start := SeqOf(v.log, IndexOf(ResolveCursor(v.log, cursor, v.gen)));
      v.(fwds := v.fwds[id := Forwarder(start, start, v.log, [], true)])
    case Release(id) => if id in v.fwds then v.(fwds := v.fwds[id := v.fwds[id].(guarded := false)]) else v
    case Wake(id) => if id in v.fwds then v.(fwds := v.fwds[id := v.fwds[id].(held := v.log)]) else v
    case Flush(id) => if id in v.fwds then v.(fwds := v.fwds[id := FlushOne(v.fwds[id], v.gen)]) else v
    case Respawn => v.(gen := v.gen + 1)
  }

  /** The floor is the least position of the protected forwarders, if there is one. */
  ghost predicate IsFloor(fwds: map<nat, Forwarder>, floor: Option<nat>) {
    && (floor.None? ==> forall id :: id in fwds ==> !fwds[id].guarded)
    && (floor.Some? ==> forall id :: id in fwds && fwds[id].guarded ==> floor.value <= fwds[id].sent)
    && (floor.Some? ==> exists id :: id in fwds && fwds[id].guarded && fwds[id].sent == floor.value)
  }

  ghost predicate Permitted(v: Server, step: Step) {
    match step
    case Record(note) => note.Event?
    case Compaction(_, floor) => IsFloor(v.fwds, floor)
    case _ => true
  }

  // --- What a forwarder has sent ---

  /** The `k`-th thing sent comes after the ones before it and is what the
      history has at its position; what is skipped is skipped by a marker. */
  ghost predicate Follows(got: seq<Sent>, start: nat, all: seq<Note>, k: nat)
    requires k < |got|
  {
    var next := if k == 0 then start else got[k - 1].at + 1;
    && next <= got[k].at < |all|
    && (got[k].note == all[got[k].at] || got[k].note.Marker?)
    && (next < got[k].at ==> got[k].note.Marker?)
  }

  /** In order, nothing twice, true to the history, up to `sent`. */
  ghost predicate Honest(got: seq<Sent>, start: nat, sent: nat, all: seq<Note>) {
    && start <= sent <= |all|
    && sent == (if got == [] then start else got[|got| - 1].at + 1)
    && forall k :: 0 <= k < |got| ==> Follows(got, start, all, k)
  }

  /** Every position from `start` to `sent`, and its own event at each; only
      `start` itself may show the marker. */
  ghost predicate Gapless(got: seq<Sent>, start: nat, sent: nat, all: seq<Note>) {
    && start + |got| == sent <= |all|
    && forall k :: 0 <= k < |got| ==>
         got[k].at == start + k && (got[k].note == all[start + k] || (k == 0 && got[0].note.Marker?))
  }

  /** `log` still has everything from `sent` on; its marker is behind, or is
      where the forwarder attached. */
  ghost predicate Keeps(log: Log, sent: nat, got: seq<Sent>) {
    log.base <= sent && (Marked(log) && log.base == sent ==> got == [])
  }

  /** A snapshot of an earlier moment of the same history. */
  ghost predicate Snapshot(log: Log, all: seq<Note>, origin: nat) {
    Tip(log) <= |all| && Faithful(log, all[..Tip(log)], origin)
  }

  ghost predicate Fine(f: Forwarder, log: Log, all: seq<Note>, origin: nat) {
    && Honest(f.got, f.start, f.sent, all)
    && Snapshot(f.held, all, origin) && f.sent <= Tip(f.held) && origin <= f.start
    && (f.guarded ==>
          Gapless(f.got, f.start, f.sent, all) && Keeps(log, f.sent, f.got) && Keeps(f.held, f.sent, f.got))
  }

  ghost predicate Inv(v: Server, origin: nat) {
    && Faithful(v.log, v.history, origin)
    && forall id :: id in v.fwds ==> Fine(v.fwds[id], v.log, v.history, origin)
  }

  // --- Steps ---

  lemma LaterHistory(f: Forwarder, log: Log, all: seq<Note>, origin: nat, note: Note)
    requires Fine(f, log, all, origin) && note.Event?
    ensures Fine(f, Push(log, note), all + [note], origin)
  {
    hide Faithful, Follows;
    var later := all + [note];
    assert later[..Tip(f.held)] == all[..Tip(f.held)];
    forall k | 0 <= k < |f.got|
      ensures Follows(f.got, f.start, later, k)
    {
      FollowsLater(f.got, f.start, all, note, k);
    }
  }

  lemma FollowsLater(got: seq<Sent>, start: nat, all: seq<Note>, note: Note, k: nat)
    requires k < |got| && Follows(got, start, all, k)
    ensures Follows(got, start, all + [note], k)
  {
  }

  lemma AfterCompaction(f: Forwarder, log: Log, all: seq<Note>, origin: nat, cap: nat, floor: Option<nat>)
    requires Fine(f, log, all, origin)
    requires f.guarded ==> floor.Some? && floor.value <= f.sent
    ensures Fine(f, Compact(log, cap, floor), all, origin)
  {
    hide Honest, Gapless, Faithful, Compact;
    CompactKeepsPositions(log, cap, floor);
  }

  lemma FreshForwarder(log: Log, all: seq<Note>, origin: nat, cursor: Option<(nat, nat)>, gen: nat)
    requires Faithful(log, all, origin)
    ensures var start := SeqOf(log, IndexOf(ResolveCursor(log, cursor, gen)));
            Fine(Forwarder(start, start, log, [], true), log, all, origin)
  {
    assert all[..Tip(log)] == all;
  }

  lemma WakeIsFine(f: Forwarder, log: Log, all: seq<Note>, origin: nat)
    requires Fine(f, log, all, origin) && Faithful(log, all, origin)
    ensures Fine(f.(held := log), log, all, origin)
  {
    hide Faithful, Honest, Gapless, Keeps;
    TipOfFaithful(log, all, origin);
    assert all[..Tip(log)] == all;
    SentIsShorter(f, all);
  }

  lemma TipOfFaithful(log: Log, all: seq<Note>, origin: nat)
    requires Faithful(log, all, origin)
    ensures Tip(log) == |all|
  {
  }

  lemma SentIsShorter(f: Forwarder, all: seq<Note>)
    requires Honest(f.got, f.start, f.sent, all)
    ensures f.start <= f.sent <= |all|
  {
  }

  /** What one flush sends: consecutive positions, up to the snapshot's tip. */
  lemma FlushSends(f: Forwarder, gen: nat, all: seq<Note>, origin: nat)
    requires Snapshot(f.held, all, origin) && f.sent <= Tip(f.held)
    ensures var i := IndexOf(ResolveSent(f.held, f.sent, gen));
            var from, tail := SeqOf(f.held, i), TailFrom(f.held, i);
            && from + |tail| == Tip(f.held)
            && from == (if f.held.base <= f.sent then f.sent else f.held.base)
            && (forall k :: 0 <= k < |tail| ==>
                  tail[k] == all[from + k] || (k == 0 && from == f.held.base && tail[0].Marker?))
            && (from > origin && from == f.held.base && tail != [] ==> tail[0].Marker?)
            && (!Marked(f.held) ==> forall k :: 0 <= k < |tail| ==> tail[k] == all[from + k])
  {
    var all' := all[..Tip(f.held)];
    assert forall s :: 0 <= s < |all'| ==> all'[s] == all[s];
  }

  lemma FlushStaysHonest(f: Forwarder, gen: nat, all: seq<Note>, origin: nat)
    requires Honest(f.got, f.start, f.sent, all) && Snapshot(f.held, all, origin)
    requires f.sent <= Tip(f.held) && origin <= f.start
    ensures var g := FlushOne(f, gen);
            Honest(g.got, g.start, g.sent, all)
  {
    hide Snapshot, ResolveSent, TailFrom, Tip, Marked, Follows;
    FlushSends(f, gen, all, origin);
    var i := IndexOf(ResolveSent(f.held, f.sent, gen));
    var from, tail := SeqOf(f.held, i), TailFrom(f.held, i);
    if tail != [] {
      SnapshotIsShorter(f.held, all, origin);
      var more := Numbered(tail, from);
      var n := |f.got|;
      assert more[|more| - 1] == Sent(from + (|tail| - 1), tail[|tail| - 1]);
      forall k | 0 <= k < n + |more|
        ensures Follows(f.got + more, f.start, all, k)
      {
        if k < n {
          FollowsOn(f.got, more, f.start, all, k);
        } else if k == n {
          FirstFollows(f.got, more, f.start, all);
        } else {
          RestFollow(f.got, more, f.start, all, k);
        }
      }
    }
  }

  lemma FollowsOn(got: seq<Sent>, more: seq<Sent>, start: nat, all: seq<Note>, k: nat)
    requires k < |got| && Follows(got, start, all, k)
    ensures Follows(got + more, start, all, k)
  {
  }

  lemma FirstFollows(got: seq<Sent>, more: seq<Sent>, start: nat, all: seq<Note>)
    requires more != [] && more[0].at < |all| && (more[0].note == all[more[0].at] || more[0].note.Marker?)
    requires var next := if got == [] then start else got[|got| - 1].at + 1;
             next <= more[0].at && (next < more[0].at ==> more[0].note.Marker?)
    ensures Follows(got + more, start, all, |got|)
  {
  }

  lemma RestFollow(got: seq<Sent>, more: seq<Sent>, start: nat, all: seq<Note>, k: nat)
    requires |got| < k < |got| + |more|
    requires var j := k - |got|;
             more[j].at == more[j - 1].at + 1 < |all| && (more[j].note == all[more[j].at] || more[j].note.Marker?)
    ensures Follows(got + more, start, all, k)
  {
  }

  lemma SnapshotIsShorter(log: Log, all: seq<Note>, origin: nat)
    requires Snapshot(log, all, origin)
    ensures Tip(log) <= |all|
  {
  }

  lemma FlushStaysGapless(f: Forwarder, gen: nat, all: seq<Note>, origin: nat)
    requires Gapless(f.got, f.start, f.sent, all) && Snapshot(f.held, all, origin) && f.sent <= Tip(f.held)
    requires Keeps(f.held, f.sent, f.got)
    ensures var g := FlushOne(f, gen);
            Gapless(g.got, g.start, g.sent, all)
  {
    hide Snapshot, ResolveSent, TailFrom, Tip, Marked;
    FlushSends(f, gen, all, origin);
    var i := IndexOf(ResolveSent(f.held, f.sent, gen));
    var from, tail := SeqOf(f.held, i), TailFrom(f.held, i);
    if tail != [] {
      SnapshotIsShorter(f.held, all, origin);
      var g := FlushOne(f, gen);
      var n := |f.got|;
      forall k | 0 <= k < |g.got|
        ensures g.got[k].at == g.start + k && (g.got[k].note == all[g.start + k] || (k == 0 && g.got[0].note.Marker?))
      {
        if k < n {
          assert g.got[k] == f.got[k] && g.got[0] == f.got[0];
        } else {
          assert g.got[k] == Sent(from + (k - n), tail[k - n]);
        }
      }
    }
  }

  lemma FlushIsFine(f: Forwarder, gen: nat, log: Log, all: seq<Note>, origin: nat)
    requires Fine(f, log, all, origin)
    ensures Fine(FlushOne(f, gen), log, all, origin)
  {
    hide Honest, Gapless, Snapshot, Marked;
    FlushStaysHonest(f, gen, all, origin);
    SnapshotIsShorter(f.held, all, origin);
    if f.guarded {
      FlushStaysGapless(f, gen, all, origin);
    }
  }

  lemma StepKeepsInv(v: Server, step: Step, origin: nat)
    requires Inv(v, origin) && Permitted(v, step)
    ensures Inv(Do(v, step), origin)
  {
    hide Faithful, Fine, FlushOne, Compact, ResolveCursor;
    var w := Do(v, step);
    match step
    case Record(note) =>
      PushIsFaithful(v.log, v.history, origin, note);
      forall id | id in v.fwds
        ensures Fine(w.fwds[id], w.log, w.history, origin)
      {
        LaterHistory(v.fwds[id], v.log, v.history, origin, note);
      }
    case Compaction(cap, floor) =>
      CompactIsFaithful(v.log, v.history, origin, cap, floor);
      forall id | id in v.fwds
        ensures Fine(w.fwds[id], w.log, w.history, origin)
      {
        AfterCompaction(v.fwds[id], v.log, v.history, origin, cap, floor);
      }
    case Attach(id, cursor) => FreshForwarder(v.log, v.history, origin, cursor, v.gen);
    case Release(id) => if id in v.fwds { ReleasedIsFine(v.fwds[id], v.log, v.history, origin); }
    case Wake(id) => if id in v.fwds { WakeIsFine(v.fwds[id], v.log, v.history, origin); }
    case Flush(id) => if id in v.fwds { FlushIsFine(v.fwds[id], v.gen, v.log, v.history, origin); }
    case Respawn =>
  }

  lemma ReleasedIsFine(f: Forwarder, log: Log, all: seq<Note>, origin: nat)
    requires Fine(f, log, all, origin)
    ensures Fine(f.(guarded := false), log, all, origin)
  {
  }

  // --- Whole runs ---

  function Run(v: Server, steps: seq<Step>): Server
    decreases |steps|
  {
    if steps == [] then v else Run(Do(v, steps[0]), steps[1..])
  }

  ghost predicate PermittedRun(v: Server, steps: seq<Step>)
    decreases |steps|
  {
    steps == [] || (Permitted(v, steps[0]) && PermittedRun(Do(v, steps[0]), steps[1..]))
  }

  /** A session that starts with its history up to `|prior|` on disk only. */
  function Fresh(prior: seq<Note>): Server { Server(Log([], |prior|), prior, map[], 0) }

  lemma {:induction false} RunKeepsInv(v: Server, steps: seq<Step>, origin: nat)
    requires Inv(v, origin) && PermittedRun(v, steps)
    ensures Inv(Run(v, steps), origin)
    decreases |steps|
  {
    hide Inv, Permitted, Do;
    if steps != [] {
      StepKeepsInv(v, steps[0], origin);
      RunKeepsInv(Do(v, steps[0]), steps[1..], origin);
    }
  }

  /** Over every run: a protected forwarder has sent every event from its
      attach point to its position exactly once and in order (at the attach
      point itself perhaps the marker), and no released one has sent anything
      twice, out of order, or left anything out without a marker. */
  lemma EveryForwarderIsServed(prior: seq<Note>, steps: seq<Step>, id: nat)
    requires PermittedRun(Fresh(prior), steps) && id in Run(Fresh(prior), steps).fwds
    ensures var v := Run(Fresh(prior), steps);
            var f := v.fwds[id];
            && Honest(f.got, f.start, f.sent, v.history)
            && (f.guarded ==> Gapless(f.got, f.start, f.sent, v.history))
  {
    hide PermittedRun, Run, Honest, Gapless;
    FreshInv(prior);
    RunKeepsInv(Fresh(prior), steps, |prior|);
  }

  lemma FreshInv(prior: seq<Note>)
    ensures Inv(Fresh(prior), |prior|)
  {
  }

  /** Over every run, a stream resolved for a reconnect that leaves an event
      out begins with the marker. */
  lemma ReconnectsAreMarked(prior: seq<Note>, steps: seq<Step>, cursor: Option<(nat, nat)>)
    requires PermittedRun(Fresh(prior), steps)
    ensures var v := Run(Fresh(prior), steps);
            var r := ResolveCursor(v.log, cursor, v.gen);
            var stream := TailFrom(v.log, IndexOf(r));
            var from := if r.Tail? then cursor.value.1 else |prior|;
            && from <= |v.history|
            && (stream != v.history[from..] ==> stream != [] && stream[0].Marker?)
  {
    hide PermittedRun, Run;
    FreshInv(prior);
    RunKeepsInv(Fresh(prior), steps, |prior|);
    var v := Run(Fresh(prior), steps);
    OmissionsAreMarked(v.log, v.history, |prior|, cursor, v.gen);
  }

  lemma PushStaysAttained(log: Log, all: seq<Note>, origin: nat, note: Note)
    requires Faithful(log, all, origin) && Attained(log, all, origin) && note.Event?
    ensures Attained(Push(log, note), all + [note], origin)
  {
    if Marked(log) && log.entries[0].through != 0 {
      var i :| origin <= i <= log.base && i < |all| && TurnOf(all[i]) == Some(log.entries[0].through);
      assert (all + [note])[i] == all[i];
    }
  }

  lemma {:induction false} RunStaysAttained(v: Server, steps: seq<Step>, origin: nat)
    requires Inv(v, origin) && PermittedRun(v, steps) && Attained(v.log, v.history, origin)
    ensures var w := Run(v, steps);
            Faithful(w.log, w.history, origin) && Attained(w.log, w.history, origin)
    decreases |steps|
  {
    hide Faithful, Fine, FlushOne, Compact, ResolveCursor, Attained;
    if steps != [] {
      match steps[0] {
        case Record(note) => PushStaysAttained(v.log, v.history, origin, note);
        case Compaction(cap, floor) => CompactStaysAttained(v.log, v.history, origin, cap, floor);
        case _ =>
      }
      StepKeepsInv(v, steps[0], origin);
      RunStaysAttained(Do(v, steps[0]), steps[1..], origin);
    }
  }

  /** Over every run, the marker carries the highest turn among the events the
      log no longer holds, or zero if none has a turn above that. */
  lemma MarkerIsExact(prior: seq<Note>, steps: seq<Step>)
    requires PermittedRun(Fresh(prior), steps)
    ensures var v := Run(Fresh(prior), steps);
            Marked(v.log) ==>
              var through := v.log.entries[0].through;
              && v.log.base < |v.history|
              && (forall i :: |prior| <= i <= v.log.base ==> Covered(v.history[i], through))
              && (through == 0
                  || exists i :: |prior| <= i <= v.log.base && TurnOf(v.history[i]) == Some(through))
  {
    hide PermittedRun, Run;
    FreshInv(prior);
    RunStaysAttained(Fresh(prior), steps, |prior|);
  }

  /** How many respawns a run has. */
  function Respawns(steps: seq<Step>): nat {
    if steps == [] then 0 else (if steps[0].Respawn? then 1 else 0) + Respawns(steps[1..])
  }

  lemma {:induction false} RespawnsCount(v: Server, steps: seq<Step>)
    ensures Run(v, steps).gen == v.gen + Respawns(steps)
    decreases |steps|
  {
    hide Compact, FlushOne, ResolveCursor;
    if steps != [] {
      RespawnsCount(Do(v, steps[0]), steps[1..]);
    }
  }

  /** What a client that attaches with a cursor, or without one, is sent first. */
  function FirstSent(v: Server, id: nat, cursor: Option<(nat, nat)>): seq<Sent> {
    Do(Do(v, Attach(id, cursor)), Flush(id)).fwds[id].got
  }

  /** What a forwarder that starts at `start` sends on its first flush. */
  lemma FirstFlush(log: Log, start: nat, gen: nat)
    requires log.base <= start <= Tip(log)
    ensures FlushOne(Forwarder(start, start, log, [], true), gen).got
            == Numbered(log.entries[start - log.base..], start)
  {
    var tail := log.entries[start - log.base..];
    assert [] + Numbered(tail, start) == Numbered(tail, start);
    if tail == [] {
      assert Numbered(tail, start) == [];
    }
  }

  /** Attaching and flushing sends the resident log from the acknowledged
      position on, if the cursor is of the live generation and its position is
      still there; else all of it. */
  lemma AttachServes(v: Server, id: nat, gen: nat, acked: nat)
    ensures var tip := v.log.base + |v.log.entries|;
            FirstSent(v, id, Some((gen, acked)))
            == if gen == v.gen && v.log.base <= acked <= tip
               then Numbered(v.log.entries[acked - v.log.base..], acked)
               else Numbered(v.log.entries, v.log.base)
    ensures FirstSent(v, id, None) == Numbered(v.log.entries, v.log.base)
  {
    hide FlushOne, Compact, Numbered;
    assert v.log.entries[0..] == v.log.entries;
    FirstFlush(v.log, v.log.base, v.gen);
    if v.log.base <= acked <= v.log.base + |v.log.entries| {
      FirstFlush(v.log, acked, v.gen);
    }
  }

  /** A client reconnects, at any later moment of any run, with a cursor handed
      out in the generation that was live then. If the session was respawned in
      between, or the position is no longer in the log, it is sent the whole
      resident log; otherwise exactly the positions from the acknowledged one
      on. Without a cursor it is sent the whole log too. */
  lemma ReconnectServes(prior: seq<Note>, before: seq<Step>, after: seq<Step>, id: nat, acked: nat)
    ensures var issuedBy := Run(Fresh(prior), before);
            var v := Run(issuedBy, after);
            var got := FirstSent(v, id, Some((issuedBy.gen, acked)));
            var live := Respawns(after) == 0 && v.log.base <= acked <= v.log.base + |v.log.entries|;
            var first := if live then acked else v.log.base;
            && |got| == v.log.base + |v.log.entries| - first
            && (forall k :: 0 <= k < |got| ==>
                  got[k].at == first + k && got[k].note == v.log.entries[first - v.log.base + k])
            && FirstSent(v, id, None) == Numbered(v.log.entries, v.log.base)
  {
    hide Run, Respawns, FirstSent;
    RespawnsCount(Run(Fresh(prior), before), after);
    AttachServes(Run(Run(Fresh(prior), before), after), id, Run(Fresh(prior), before).gen, acked);
  }

  /** Taking the latest snapshot and flushing it always catches up. */
  lemma WakeAndFlushCatchUp(v: Server, origin: nat, id: nat)
    requires Inv(v, origin) && id in v.fwds
    ensures Do(Do(v, Wake(id)), Flush(id)).fwds[id].sent == Tip(v.log)
  {
    hide Honest, Gapless;
    var f := v.fwds[id];
    assert Fine(f, v.log, v.history, origin);
    WakeIsFine(f, v.log, v.history, origin);
    SentIsShorter(f, v.history);
    FlushSends(f.(held := v.log), v.gen, v.history, origin);
  }
}
