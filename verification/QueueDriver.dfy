// The concurrent prompt driver: every prompt goes out as it arrives, and each
// settles, retries or is cancelled on its own.
module QueueDriver {
  import opened Turns

  datatype Phase = Waiting | Backoff

  /** A prompt in flight: its retries, whether a cancel tripped its flag, and
      whether it awaits a response or the end of its backoff. */
  datatype Flight = Flight(attempt: nat, stop: bool, phase: Phase)

  datatype Driver = Driver(
    intakeOpen: bool,
    cancelOpen: bool,
    exited: bool,
    accepted: nat,
    inflight: map<nat, Flight>,
    turns: nat,
    trace: seq<Emit>)

  const START := Driver(true, true, false, 0, map[], 0, [])

  /** What the loop may wake up to; the agent and the clock decide. */
  datatype Event =
    | Submit
    | CloseIntake
    | Reply(id: nat, reason: StopReason)
    | Fail(id: nat, retryable: bool)
    | Resume(id: nat)
    | Cancel
    | CloseCancel

  function Settle(d: Driver, id: nat, outcome: Outcome): Driver {
    d.(inflight := d.inflight - {id}, turns := d.turns + 1, trace := d.trace + [Settled(id, d.turns + 1, outcome)])
  }

  function Tripped(inflight: map<nat, Flight>): map<nat, Flight> {
    map id | id in inflight :: inflight[id].(stop := true)
  }

  /** Whether the prompt is in flight in that phase. */
  predicate Is(d: Driver, id: nat, phase: Phase) { id in d.inflight && d.inflight[id].phase == phase }

  function React(d: Driver, ev: Event): Driver {
    match ev
    case Submit =>
      if !d.intakeOpen then d
      else
        d.(accepted := d.accepted + 1,
           inflight := d.inflight[d.accepted := Flight(0, false, Waiting)],
           trace := d.trace + [Prompt(d.accepted)])
    case CloseIntake => d.(intakeOpen := false)
    case Reply(id, reason) => if Is(d, id, Waiting) then Settle(d, id, OutcomeOf(reason)) else d
    case Fail(id, retryable) =>
      if !Is(d, id, Waiting) then d
      else
        var f := d.inflight[id];
        if f.stop then Settle(d, id, Cancelled)
        else if f.attempt < MAX_RETRIES && retryable then
          d.(inflight := d.inflight[id := Flight(f.attempt + 1, false, Backoff)], trace := d.trace + [Notice(id)])
        else Settle(d.(trace := d.trace + [Notice(id)]), id, Failed)
    case Resume(id) =>
      if !Is(d, id, Backoff) then d
      else if d.inflight[id].stop then Settle(d, id, Cancelled)
      else d.(inflight := d.inflight[id := d.inflight[id].(phase := Waiting)], trace := d.trace + [Prompt(id)])
    case Cancel =>
      if d.cancelOpen then d.(inflight := Tripped(d.inflight), trace := d.trace + [Stop]) else d
    case CloseCancel => d.(cancelOpen := false)
  }

  /** One turn of the loop; it ends when the intake is closed and nothing is in flight. */
  function Step(d: Driver, ev: Event): Driver {
    if d.exited then d
    else
      var e := React(d, ev);
      e.(exited := !e.intakeOpen && e.inflight == map[])
  }

  function Run(d: Driver, evs: seq<Event>): Driver
    decreases |evs|
  {
    if evs == [] then d else Run(Step(d, evs[0]), evs[1..])
  }

  // --- The driver object ---

  class QueueingDriver {
    var intakeOpen: bool
    var cancelOpen: bool
    var exited: bool
    var accepted: nat
    var inflight: map<nat, Flight>
    var liveCancels: seq<nat>        // weak handles of the cancel flags
    var turns: nat
    var trace: seq<Emit>

    /** Every prompt in flight has its cancel flag among the handles. */
    ghost predicate Valid()
      reads this
    {
      forall id :: id in inflight ==> id in liveCancels
    }

    ghost function Value(): Driver
      reads this
    {
      Driver(intakeOpen, cancelOpen, exited, accepted, inflight, turns, trace)
    }

    constructor ()
      ensures Valid() && Value() == START
    {
      intakeOpen, cancelOpen, exited := true, true, false;
      accepted, inflight, liveCancels, turns, trace := 0, map[], [], 0, [];
    }

    method SettlePrompt(id: nat, outcome: Outcome)
      requires Valid()
      modifies this
      ensures Valid() && Value() == Settle(old(Value()), id, outcome)
    {
      inflight := inflight - {id};
      turns := turns + 1;
      trace := trace + [Settled(id, turns, outcome)];
    }

    /** Trip the flag of every prompt still in flight, pruning dead handles. */
    method TripAll()
      requires Valid()
      modifies this`inflight, this`liveCancels
      ensures Valid() && inflight == Tripped(old(inflight))
    {
      var i, kept := 0, [];
      var before := inflight;
      while i < |liveCancels|
        invariant i <= |liveCancels| && liveCancels == old(liveCancels)
        invariant inflight.Keys == before.Keys
        invariant forall id :: id in before ==>
          inflight[id] == if id in liveCancels[..i] then before[id].(stop := true) else before[id]
        invariant forall id :: id in before && id in liveCancels[..i] ==> id in kept
      {
        var id := liveCancels[i];
        if id in inflight {
          inflight := inflight[id := inflight[id].(stop := true)];
          kept := kept + [id];
        }
        i := i + 1;
      }
      liveCancels := kept;
    }

    method Failure(id: nat, retryable: bool)
      requires Valid()
      modifies this
      ensures Valid() && Value() == React(old(Value()), Fail(id, retryable))
    {
      if id !in inflight || inflight[id].phase != Waiting {
        return;
      }
      var f := inflight[id];
      if f.stop {
        SettlePrompt(id, Cancelled);
      } else if f.attempt < MAX_RETRIES && retryable {
        inflight := inflight[id := Flight(f.attempt + 1, false, Backoff)];
        trace := trace + [Notice(id)];
      } else {
        trace := trace + [Notice(id)];
        SettlePrompt(id, Failed);
      }
    }

    method Handle(ev: Event)
      requires Valid()
      modifies this
      ensures Valid() && Value() == React(old(Value()), ev)
    {
      match ev
      case Submit =>
        if intakeOpen {
          liveCancels := liveCancels + [accepted];
          trace := trace + [Prompt(accepted)];
          inflight := inflight[accepted := Flight(0, false, Waiting)];
          accepted := accepted + 1;
        }
      case CloseIntake => intakeOpen := false;
      case Reply(id, reason) =>
        if id in inflight && inflight[id].phase == Waiting {
          SettlePrompt(id, OutcomeOf(reason));
        }
      case Fail(id, retryable) => Failure(id, retryable);
      case Resume(id) =>
        if id in inflight && inflight[id].phase == Backoff {
          if inflight[id].stop {
            SettlePrompt(id, Cancelled);
          } else {
            inflight := inflight[id := inflight[id].(phase := Waiting)];
            trace := trace + [Prompt(id)];
          }
        }
      case Cancel =>
        if cancelOpen {
          TripAll();
          trace := trace + [Stop];
        }
      case CloseCancel => cancelOpen := false;
    }

    /** The loop, driven by what happens; it stops listening once it is done. */
    method Drive(evs: seq<Event>)
      requires Valid()
      modifies this
      ensures Valid() && Value() == Run(old(Value()), evs)
    {
      var i := 0;
      ghost var start := Value();
      assert evs[..0] == [];
      while i < |evs| && !exited
        invariant i <= |evs| && Valid()
        invariant Run(start, evs) == Run(Value(), evs[i..])
      {
        Handle(evs[i]);
        exited := !intakeOpen && inflight == map[];
        assert evs[i..][1..] == evs[i + 1..];
        i := i + 1;
      }
      RunExited(Value(), evs[i..]);
    }
  }

  lemma {:induction false} RunExited(d: Driver, evs: seq<Event>)
    requires d.exited || evs == []
    ensures Run(d, evs) == d
    decreases |evs|
  {
    if evs != [] {
      RunExited(d, evs[1..]);
    }
  }

  // --- What every run keeps ---

  ghost predicate Flying(tr: seq<Emit>, id: nat, f: Flight) {
    && f.attempt <= MAX_RETRIES && (f.phase == Backoff ==> f.attempt > 0)
    && Sends(tr, id) == (if f.phase == Waiting then f.attempt + 1 else f.attempt)
    && Settles(tr, id) == 0
    && (!f.stop ==> Unstopped(tr, id))
  }

  ghost predicate Prompts(d: Driver, tr: seq<Emit>) {
    && (forall id :: id in d.inflight ==> id < d.accepted && Flying(tr, id, d.inflight[id]))
    && (forall id: nat :: id < d.accepted && id !in d.inflight ==> Done(tr, id))
    && (forall id: nat :: id >= d.accepted ==> Sends(tr, id) == 0 && Settles(tr, id) == 0)
  }

  ghost predicate Inv(d: Driver) {
    && Prompts(d, d.trace)
    && d.turns == Count(d.trace) && Orderly(d.trace)
    && (d.exited ==> d.inflight == map[])
  }

  lemma SettleKeepsInv(d: Driver, id: nat, outcome: Outcome)
    requires Inv(d) && id in d.inflight && !d.exited
    ensures Inv(Settle(d, id, outcome)) && !Settle(d, id, outcome).exited
  {
    hide Sends, Settles, Unstopped, Count, Expecting, About, Orderly;
    var e := Settled(id, d.turns + 1, outcome);
    AfterEmission(d.trace, e);
    StaysOrderly(d.trace, e);
  }

  lemma NoticeKeepsInv(d: Driver, id: nat)
    requires Inv(d)
    ensures Inv(d.(trace := d.trace + [Notice(id)]))
  {
    hide Sends, Settles, Unstopped, Count, Expecting, About, Orderly;
    AfterEmission(d.trace, Notice(id));
    StaysOrderly(d.trace, Notice(id));
  }

  lemma SubmitKeepsInv(d: Driver)
    requires Inv(d) && !d.exited
    ensures Inv(React(d, Submit)) && !React(d, Submit).exited
  {
    hide Sends, Settles, Unstopped, Count, Expecting, About, Orderly;
    var e := Prompt(d.accepted);
    AfterEmission(d.trace, e);
    UnsentIsUnstopped(d.trace, d.accepted);
    if d.accepted > 0 {
      assert d.accepted - 1 in d.inflight || Done(d.trace, d.accepted - 1);
    }
    StaysOrderly(d.trace, e);
  }

  lemma ResendKeepsInv(d: Driver, id: nat)
    requires Inv(d) && !d.exited
    ensures Inv(React(d, Resume(id))) && !React(d, Resume(id)).exited
  {
    hide Sends, Settles, Unstopped, Count, Expecting, About, Orderly;
    if Is(d, id, Backoff) {
      if d.inflight[id].stop {
        SettleKeepsInv(d, id, Cancelled);
      } else {
        AfterEmission(d.trace, Prompt(id));
        if id > 0 {
          assert id - 1 in d.inflight || Done(d.trace, id - 1);
        }
        StaysOrderly(d.trace, Prompt(id));
      }
    }
  }

  lemma FailKeepsInv(d: Driver, id: nat, retryable: bool)
    requires Inv(d) && !d.exited
    ensures Inv(React(d, Fail(id, retryable))) && !React(d, Fail(id, retryable)).exited
  {
    hide Sends, Settles, Unstopped, Count, Expecting, About, Orderly;
    if Is(d, id, Waiting) {
      if d.inflight[id].stop {
        SettleKeepsInv(d, id, Cancelled);
      } else {
        NoticeKeepsInv(d, id);
        SettleKeepsInv(d.(trace := d.trace + [Notice(id)]), id, Failed);
      }
    }
  }

  lemma CancelKeepsInv(d: Driver)
    requires Inv(d) && !d.exited
    ensures Inv(React(d, Cancel)) && !React(d, Cancel).exited
  {
    hide Sends, Settles, Unstopped, Count, Expecting, About, Orderly;
    AfterEmission(d.trace, Stop);
    StaysOrderly(d.trace, Stop);
  }

  lemma ReactKeepsInv(d: Driver, ev: Event)
    requires Inv(d) && !d.exited
    ensures Inv(React(d, ev)) && !React(d, ev).exited
  {
    hide Prompts, Settle, Tripped, Orderly, Count;
    match ev
    case Submit => SubmitKeepsInv(d);
    case CloseIntake => SameFlights(d, React(d, ev));
    case Reply(id, reason) => if Is(d, id, Waiting) { SettleKeepsInv(d, id, OutcomeOf(reason)); }
    case Fail(id, retryable) => FailKeepsInv(d, id, retryable);
    case Resume(id) => ResendKeepsInv(d, id);
    case Cancel => CancelKeepsInv(d);
    case CloseCancel => SameFlights(d, React(d, ev));
  }

  lemma StepKeepsInv(d: Driver, ev: Event)
    requires Inv(d)
    ensures Inv(Step(d, ev))
  {
    hide React, Inv;
    if !d.exited {
      ReactKeepsInv(d, ev);
      LeaveKeepsInv(React(d, ev));
    }
  }

  lemma LeaveKeepsInv(d: Driver)
    requires Inv(d) && !d.exited
    ensures Inv(d.(exited := !d.intakeOpen && d.inflight == map[]))
  {
    hide Flying, Done, Sends, Settles, Orderly;
    SameFlights(d, d.(exited := !d.intakeOpen && d.inflight == map[]));
  }

  lemma SameFlights(d: Driver, e: Driver)
    requires Prompts(d, d.trace) && e.inflight == d.inflight && e.accepted == d.accepted && e.trace == d.trace
    ensures Prompts(e, e.trace)
  {
    hide Flying, Done, Sends, Settles;
  }

  lemma {:induction false} RunKeepsInv(d: Driver, evs: seq<Event>)
    requires Inv(d)
    ensures Inv(Run(d, evs))
    decreases |evs|
  {
    hide Inv, Step;
    if evs != [] {
      StepKeepsInv(d, evs[0]);
      RunKeepsInv(Step(d, evs[0]), evs[1..]);
    }
  }

  /** Whatever the agent, the clock and the user do: turns count 1, 2, 3, ...;
      a prompt is sent at most MAX_RETRIES + 1 times, never again after a
      cancel that went out while it was in flight, and first sends follow the
      order of submission; nothing settles twice, and once the loop has ended
      every accepted prompt has settled once. */
  lemma QueueingDriverIsSafe(evs: seq<Event>)
    ensures var d := Run(START, evs);
            && CountsUp(d.trace) && NeverAfterStop(d.trace) && InOrder(d.trace)
            && (forall id: nat :: Sends(d.trace, id) <= MAX_RETRIES + 1 && Settles(d.trace, id) <= 1)
            && (forall id: nat :: id < d.accepted ==> Sends(d.trace, id) >= 1)
            && (d.exited ==> forall id: nat :: id < d.accepted ==> Settles(d.trace, id) == 1)
  {
    hide Sends, Settles, CountsUp, NeverAfterStop, InOrder, Step, Run;
    StartKeepsInv();
    RunKeepsInv(START, evs);
    var d := Run(START, evs);
    forall id: nat
      ensures Sends(d.trace, id) <= MAX_RETRIES + 1 && Settles(d.trace, id) <= 1
      ensures id < d.accepted ==> Sends(d.trace, id) >= 1 && (d.exited ==> Settles(d.trace, id) == 1)
    {
      assert id in d.inflight || id >= d.accepted || Done(d.trace, id);
    }
  }

  lemma StartKeepsInv()
    ensures Inv(START)
  {
    var d := START;
    assert forall id: nat :: Sends(d.trace, id) == 0 && Settles(d.trace, id) == 0;
    assert Prompts(d, d.trace);
  }
}
