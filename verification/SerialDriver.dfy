// The sequential prompt driver: one prompt at a time, retried in place; a
// cancel that arrives while idle is dropped, one that arrives during a backoff
// is heard once the prompt is out again.
module SerialDriver {
  import opened Options
  import opened Turns

  /** Where the driver stands with the prompt it holds: awaiting the response
      (has a cancel gone out, does it still listen for one), or backing off. */
  datatype Phase = Waiting(cancelled: bool, deaf: bool) | Backoff

  datatype Busy = Busy(attempt: nat, phase: Phase)

  datatype Driver = Driver(
    intakeOpen: bool,
    queued: nat,             // prompts in the intake channel
    cancelOpen: bool,
    cancels: nat,            // cancel signals not heard yet
    busy: Option<Busy>,
    exited: bool,
    accepted: nat,           // prompts taken; the one in hand is the last of them
    turns: nat,
    trace: seq<Emit>)

  const START := Driver(true, 0, true, 0, None, false, 0, 0, [])

  datatype Event =
    | Submit
    | CloseIntake
    | Take
    | PressStop
    | CloseCancel
    | HearStop
    | HearClosed
    | Reply(reason: StopReason)
    | Fail(retryable: bool)
    | Resume

  predicate Awaiting(d: Driver) { d.busy.Some? && d.busy.value.phase.Waiting? }

  predicate Listening(d: Driver) { Awaiting(d) && !d.busy.value.phase.deaf }

  function Send(d: Driver, id: nat, attempt: nat): Driver {
    d.(busy := Some(Busy(attempt, Waiting(false, false))), trace := d.trace + [Prompt(id)])
  }

  function Settle(d: Driver, outcome: Outcome): Driver
    requires d.accepted > 0
  {
    d.(busy := None, turns := d.turns + 1, trace := d.trace + [Settled(d.accepted - 1, d.turns + 1, outcome)])
  }

  function TakeNext(d: Driver): Driver {
    if d.busy.Some? then d
    else if d.queued > 0 then Send(d.(queued := d.queued - 1, cancels := 0, accepted := d.accepted + 1), d.accepted, 0)
    else d.(exited := !d.intakeOpen)
  }

  function Failure(d: Driver, retryable: bool): Driver
    requires Awaiting(d) && d.accepted > 0
  {
    var b := d.busy.value;
    if b.phase.cancelled then Settle(d, Cancelled)
    else
      var told := d.(trace := d.trace + [Notice(d.accepted - 1)]);
      if b.attempt < MAX_RETRIES && retryable then told.(busy := Some(Busy(b.attempt + 1, Backoff)))
      else Settle(told, Failed)
  }

  function Step(d: Driver, ev: Event): Driver {
    if d.exited || (d.busy.Some? && d.accepted == 0) then d
    else
      match ev
      case Submit => if d.intakeOpen then d.(queued := d.queued + 1) else d
      case CloseIntake => d.(intakeOpen := false)
      case Take => TakeNext(d)
      case PressStop => if d.cancelOpen then d.(cancels := d.cancels + 1) else d
      case CloseCancel => d.(cancelOpen := false)
      case HearStop =>
        if Listening(d) && d.cancels > 0
        then d.(cancels := d.cancels - 1, busy := Some(d.busy.value.(phase := Waiting(true, true))),
                trace := d.trace + [Stop])
        else d
      case HearClosed =>
        if Listening(d) && d.cancels == 0 && !d.cancelOpen
        then d.(busy := Some(d.busy.value.(phase := Waiting(false, true))))
        else d
      case Reply(reason) => if Awaiting(d) then Settle(d, OutcomeOf(reason)) else d
      case Fail(retryable) => if Awaiting(d) then Failure(d, retryable) else d
      case Resume =>
        if d.busy.Some? && d.busy.value.phase.Backoff? then Send(d, d.accepted - 1, d.busy.value.attempt) else d
  }

  function Run(d: Driver, evs: seq<Event>): Driver
    decreases |evs|
  {
    if evs == [] then d else Run(Step(d, evs[0]), evs[1..])
  }

  // --- The driver object ---

  class SequentialDriver {
    var intakeOpen: bool
    var queued: nat
    var cancelOpen: bool
    var cancels: nat
    var busy: Option<Busy>
    var exited: bool
    var accepted: nat
    var turns: nat
    var trace: seq<Emit>

    ghost predicate Valid()
      reads this
    {
      busy.Some? ==> accepted > 0
    }

    ghost function Value(): Driver
      reads this
    {
      Driver(intakeOpen, queued, cancelOpen, cancels, busy, exited, accepted, turns, trace)
    }

    constructor ()
      ensures Valid() && Value() == START
    {
      intakeOpen, queued, cancelOpen, cancels := true, 0, true, 0;
      busy, exited, accepted, turns, trace := None, false, 0, 0, [];
    }

    method SettlePrompt(outcome: Outcome)
      requires Valid() && accepted > 0
      modifies this
      ensures Valid() && Value() == Settle(old(Value()), outcome)
    {
      turns := turns + 1;
      trace := trace + [Settled(accepted - 1, turns, outcome)];
      busy := None;
    }

    method SendPrompt(id: nat, attempt: nat)
      requires Valid() && accepted > 0
      modifies this
      ensures Valid() && Value() == Send(old(Value()), id, attempt)
    {
      trace := trace + [Prompt(id)];
      busy := Some(Busy(attempt, Waiting(false, false)));
    }

    method Take()
      requires Valid()
      modifies this
      ensures Valid() && Value() == TakeNext(old(Value()))
    {
      if busy.Some? {
        return;
      }
      if queued == 0 {
        exited := !intakeOpen;
        return;
      }
      queued := queued - 1;
      while cancels > 0
        invariant Value() == old(Value()).(queued := old(queued) - 1, cancels := cancels)
      {
        cancels := cancels - 1;
      }
      accepted := accepted + 1;
      SendPrompt(accepted - 1, 0);
    }

    method HandleFailure(retryable: bool)
      requires Valid() && Awaiting(Value())
      modifies this
      ensures Valid() && Value() == Failure(old(Value()), retryable)
    {
      var b := busy.value;
      if b.phase.cancelled {
        SettlePrompt(Cancelled);
        return;
      }
      trace := trace + [Notice(accepted - 1)];
      if b.attempt < MAX_RETRIES && retryable {
        busy := Some(Busy(b.attempt + 1, Backoff));
      } else {
        SettlePrompt(Failed);
      }
    }

    method Handle(ev: Event)
      requires Valid() && !exited
      modifies this
      ensures Valid() && Value() == Step(old(Value()), ev)
    {
      match ev
      case Submit => if intakeOpen { queued := queued + 1; }
      case CloseIntake => intakeOpen := false;
      case Take => Take();
      case PressStop => if cancelOpen { cancels := cancels + 1; }
      case CloseCancel => cancelOpen := false;
      case HearStop =>
        if busy.Some? && busy.value.phase.Waiting? && !busy.value.phase.deaf && cancels > 0 {
          cancels := cancels - 1;
          busy := Some(busy.value.(phase := Waiting(true, true)));
          trace := trace + [Stop];
        }
      case HearClosed =>
        if busy.Some? && busy.value.phase.Waiting? && !busy.value.phase.deaf && cancels == 0 && !cancelOpen {
          busy := Some(busy.value.(phase := Waiting(false, true)));
        }
      case Reply(reason) => if busy.Some? && busy.value.phase.Waiting? { SettlePrompt(OutcomeOf(reason)); }
      case Fail(retryable) => if busy.Some? && busy.value.phase.Waiting? { HandleFailure(retryable); }
      case Resume => if busy.Some? && busy.value.phase.Backoff? { SendPrompt(accepted - 1, busy.value.attempt); }
    }

    method Drive(evs: seq<Event>)
      requires Valid()
      modifies this
      ensures Valid() && Value() == Run(old(Value()), evs)
    {
      var i := 0;
      ghost var start := Value();
      assert evs[..0] == [];
      while i < |evs| && !exited
        invariant i <= |evs| && Valid()
        invariant Run(start, evs) == Run(Value(), evs[i..])
      {
        Handle(evs[i]);
        assert evs[i..][1..] == evs[i + 1..];
        i := i + 1;
      }
      RunExited(Value(), evs[i..]);
    }
  }

  lemma {:induction false} RunExited(d: Driver, evs: seq<Event>)
    requires d.exited || evs == []
    ensures Run(d, evs) == d
    decreases |evs|
  {
    if evs != [] {
      RunExited(d, evs[1..]);
    }
  }

  // --- What every run keeps ---

  ghost predicate InHand(tr: seq<Emit>, id: nat, b: Busy) {
    && b.attempt <= MAX_RETRIES && (b.phase.Backoff? ==> b.attempt > 0)
    && Sends(tr, id) == (if b.phase.Waiting? then b.attempt + 1 else b.attempt)
    && Settles(tr, id) == 0
    && (Unstopped(tr, id) || (b.phase.Waiting? && b.phase.cancelled))
    && (b.phase.Waiting? && b.phase.cancelled ==> b.phase.deaf)
  }

  /** Prompts below `n` are done with, those from `m` on not begun. */
  ghost predicate Prompts(tr: seq<Emit>, n: nat, m: nat) {
    && (forall id: nat :: id < n ==> Done(tr, id))
    && (forall id: nat :: id >= m ==> Sends(tr, id) == 0 && Settles(tr, id) == 0)
  }

  ghost predicate Inv(d: Driver) {
    && (d.busy.Some? ==> d.accepted > 0 && InHand(d.trace, d.accepted - 1, d.busy.value))
    && Prompts(d.trace, if d.busy.Some? then d.accepted - 1 else d.accepted, d.accepted)
    && d.turns == Count(d.trace) && Orderly(d.trace) && OneByOne(d.trace)
    && (d.exited ==> d.busy.None? && d.queued == 0)
  }

  /** An emission about the prompt in hand, if about any, leaves the others as they are. */
  lemma PromptsAfter(tr: seq<Emit>, e: Emit, n: nat, m: nat, done: nat, begun: nat)
    requires Prompts(tr, n, m) && n <= done <= n + 1 && m <= begun
    requires e.Prompt? || e.Settled? ==> n <= e.id < begun
    requires done == n + 1 ==> Done(tr + [e], n)
    ensures Prompts(tr + [e], done, begun)
  {
    hide Sends, Settles, Count, Unstopped;
    AfterEmission(tr, e);
    forall id: nat | id < done
      ensures Done(tr + [e], id)
    {
      assert id < n ==> Done(tr, id);
    }
  }

  lemma SettleKeepsInv(d: Driver, outcome: Outcome)
    requires Inv(d) && Awaiting(d)
    ensures Inv(Settle(d, outcome))
  {
    hide Sends, Settles, Unstopped, Count, Expecting, About, Orderly, OneByOne, Prompts;
    var e := Settled(d.accepted - 1, d.turns + 1, outcome);
    AfterEmission(d.trace, e);
    PromptsAfter(d.trace, e, d.accepted - 1, d.accepted, d.accepted, d.accepted);
    StaysOrderly(d.trace, e);
    StaysOneByOne(d.trace, e);
  }

  lemma PromptsKept(d: Driver, e: Emit)
    requires Inv(d) && !e.Settled? && (e.Prompt? ==> d.busy.Some? && e.id == d.accepted - 1)
    ensures Prompts(d.trace + [e], if d.busy.Some? then d.accepted - 1 else d.accepted, d.accepted)
  {
    hide Sends, Settles, Unstopped, Count, Expecting, About, Orderly, OneByOne, Prompts;
    var n := if d.busy.Some? then d.accepted - 1 else d.accepted;
    PromptsAfter(d.trace, e, n, d.accepted, n, d.accepted);
  }

  lemma NoticeKeepsInv(d: Driver, id: nat)
    requires Inv(d)
    ensures Inv(d.(trace := d.trace + [Notice(id)]))
  {
    hide Sends, Settles, Unstopped, Count, Expecting, About, Orderly, OneByOne, Prompts;
    AfterEmission(d.trace, Notice(id));
    PromptsKept(d, Notice(id));
    StaysOrderly(d.trace, Notice(id));
    StaysOneByOne(d.trace, Notice(id));
  }

  lemma TakeKeepsInv(d: Driver)
    requires Inv(d) && !d.exited
    ensures Inv(TakeNext(d))
  {
    hide Sends, Settles, Unstopped, Count, Expecting, About, Orderly, OneByOne;
    if d.busy.None? && d.queued > 0 {
      var e := Prompt(d.accepted);
      AfterEmission(d.trace, e);
      UnsentIsUnstopped(d.trace, d.accepted);
      PromptsAfter(d.trace, e, d.accepted, d.accepted, d.accepted, d.accepted + 1);
      assert d.accepted > 0 ==> Done(d.trace, d.accepted - 1);
      StaysOrderly(d.trace, e);
      StaysOneByOne(d.trace, e);
    }
  }

  lemma FailKeepsInv(d: Driver, retryable: bool)
    requires Inv(d) && !d.exited && Awaiting(d)
    ensures Inv(Failure(d, retryable))
  {
    hide Sends, Settles, Unstopped, Count, Expecting, About, Orderly, OneByOne, Prompts;
    if d.busy.value.phase.cancelled {
      SettleKeepsInv(d, Cancelled);
    } else {
      NoticeKeepsInv(d, d.accepted - 1);
      SettleKeepsInv(d.(trace := d.trace + [Notice(d.accepted - 1)]), Failed);
    }
  }

  lemma ResendKeepsInv(d: Driver)
    requires Inv(d) && !d.exited && d.busy.Some? && d.busy.value.phase.Backoff?
    ensures Inv(Send(d, d.accepted - 1, d.busy.value.attempt))
  {
    hide Sends, Settles, Unstopped, Count, Expecting, About, Orderly, OneByOne;
    var e := Prompt(d.accepted - 1);
    AfterEmission(d.trace, e);
    PromptsKept(d, e);
    if d.accepted > 1 {
      assert Done(d.trace, d.accepted - 2);
    }
    StaysOrderly(d.trace, e);
    StaysOneByOne(d.trace, e);
  }

  lemma StopKeepsInv(d: Driver)
    requires Inv(d) && !d.exited
    ensures Inv(Step(d, HearStop)) && Inv(Step(d, HearClosed))
  {
    hide Sends, Settles, Unstopped, Count, Expecting, About, Orderly, OneByOne, Prompts;
    AfterEmission(d.trace, Stop);
    PromptsKept(d, Stop);
    StaysOrderly(d.trace, Stop);
    StaysOneByOne(d.trace, Stop);
  }

  lemma StepKeepsInv(d: Driver, ev: Event)
    requires Inv(d)
    ensures Inv(Step(d, ev))
  {
    hide Orderly, OneByOne, Prompts, InHand, Count, TakeNext, Failure, Settle, Send;
    if !d.exited {
      match ev
      case Submit =>
      case CloseIntake =>
      case Take => TakeKeepsInv(d);
      case PressStop =>
      case CloseCancel =>
      case HearStop => StopKeepsInv(d);
      case HearClosed => StopKeepsInv(d);
      case Reply(reason) => if Awaiting(d) { SettleKeepsInv(d, OutcomeOf(reason)); }
      case Fail(retryable) => if Awaiting(d) { FailKeepsInv(d, retryable); }
      case Resume => if d.busy.Some? && d.busy.value.phase.Backoff? { ResendKeepsInv(d); }
    }
  }

  lemma {:induction false} RunKeepsInv(d: Driver, evs: seq<Event>)
    requires Inv(d)
    ensures Inv(Run(d, evs))
    decreases |evs|
  {
    hide Inv, Step;
    if evs != [] {
      StepKeepsInv(d, evs[0]);
      RunKeepsInv(Step(d, evs[0]), evs[1..]);
    }
  }

  lemma StartKeepsInv()
    ensures Inv(START)
  {
    var d := START;
    assert forall id: nat :: Sends(d.trace, id) == 0 && Settles(d.trace, id) == 0;
    assert Prompts(d.trace, 0, 0);
  }

  /** The same promises, and one prompt at a time: each is sent only once the
      one before it has settled; the loop ends with every submitted prompt
      taken and settled. */
  lemma SequentialDriverIsSafe(evs: seq<Event>)
    ensures var d := Run(START, evs);
            && CountsUp(d.trace) && NeverAfterStop(d.trace) && OneByOne(d.trace)
            && (forall id: nat :: Sends(d.trace, id) <= MAX_RETRIES + 1 && Settles(d.trace, id) <= 1)
            && (d.exited ==> d.queued == 0 && forall id: nat :: id < d.accepted ==> Settles(d.trace, id) == 1)
  {
    hide Sends, Settles, CountsUp, NeverAfterStop, InOrder, OneByOne, Step, Run;
    StartKeepsInv();
    RunKeepsInv(START, evs);
    var d := Run(START, evs);
    forall id: nat
      ensures Sends(d.trace, id) <= MAX_RETRIES + 1 && Settles(d.trace, id) <= 1
      ensures d.exited && id < d.accepted ==> Settles(d.trace, id) == 1
    {
      assert id >= d.accepted || Done(d.trace, id) || (d.busy.Some? && id == d.accepted - 1);
    }
  }
}
