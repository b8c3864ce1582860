// What the sequential driver says next, read off what happened and what it has
// said: its answer to every event.
module SerialReplies {
  import opened Turns
  import opened SerialDriver

  /** How many prompts were submitted while the intake was open. */
  function Submitted(evs: seq<Event>): nat {
    if evs == [] then 0
    else
      var front := evs[..|evs| - 1];
      Submitted(front) + if evs[|evs| - 1] == Submit && CloseIntake !in front then 1 else 0
  }

  /** How many prompts have been sent at all. */
  function Begun(tr: seq<Emit>): nat {
    if tr == [] then 0
    else
      var front, e := tr[..|tr| - 1], tr[|tr| - 1];
      Begun(front) + if e.Prompt? && Sends(front, e.id) == 0 then 1 else 0
  }

  /** Whether the last prompt begun is not settled yet. */
  predicate Holds(tr: seq<Emit>) { Begun(tr) > 0 && Settles(tr, Begun(tr) - 1) == 0 }

  /** Cancel signals not heard yet: a prompt that is taken starts without any. */
  function Pending(evs: seq<Event>): nat {
    if evs == [] then 0
    else
      var front, ev := evs[..|evs| - 1], evs[|evs| - 1];
      var n, spoke := Pending(front), Run(START, evs).trace != Run(START, front).trace;
      if ev == PressStop && CloseCancel !in front then n + 1
      else if ev == HearStop && spoke && n > 0 then n - 1
      else if ev == Take && spoke then 0
      else n
  }

  /** The loop ended: it looked for work with the intake closed and all of it done. */
  predicate Ended(evs: seq<Event>) {
    evs != [] &&
    (var front := evs[..|evs| - 1];
     var tr := Run(START, front).trace;
     || Ended(front)
     || (evs[|evs| - 1] == Take && CloseIntake in front && !Holds(tr) && Begun(tr) == Submitted(front)))
  }

  /** What goes out when `ev` happens after `evs`, with `tr` said so far. A
      cancel is passed on once per prompt sent, while its response is awaited;
      a failure is retried if it may pass, no cancel was passed on, and the
      prompt was sent no more than MAX_RETRIES times. */
  function Says(evs: seq<Event>, tr: seq<Emit>, ev: Event): seq<Emit> {
    if ev.Take? then if !Holds(tr) && Begun(tr) < Submitted(evs) then [Prompt(Begun(tr))] else []
    else if !Holds(tr) then []
    else
      var id := Begun(tr) - 1;
      match ev
      case Reply(reason) =>
        if Expecting(tr, id) then [Settled(id, Count(tr) + 1, OutcomeOf(reason))] else []
      case Fail(retryable) =>
        if !Expecting(tr, id) then []
        else if !Unstopped(tr, id) then [Settled(id, Count(tr) + 1, Cancelled)]
        else if retryable && Sends(tr, id) <= MAX_RETRIES then [Notice(id)]
        else [Notice(id), Settled(id, Count(tr) + 1, Failed)]
      case Resume => if Expecting(tr, id) then [] else [Prompt(id)]
      case HearStop => if Expecting(tr, id) && Unstopped(tr, id) && Pending(evs) > 0 then [Stop] else []
      case _ => []
  }

  lemma BegunAfter(tr: seq<Emit>, e: Emit)
    ensures Begun(tr + [e]) == Begun(tr) + if e.Prompt? && Sends(tr, e.id) == 0 then 1 else 0
  {
    assert (tr + [e])[..|tr|] == tr;
  }

  // --- What the state knows is in the trace ---

  ghost predicate Known(d: Driver) {
    && Inv(d)
    && d.accepted == Begun(d.trace)
    && (d.busy.Some? ==>
          && (Awaiting(d) <==> Expecting(d.trace, d.accepted - 1))
          && (Awaiting(d) ==> (d.busy.value.phase.cancelled <==> !Unstopped(d.trace, d.accepted - 1))))
    && (d.busy.None? ==> d.accepted > 0 ==> Settles(d.trace, d.accepted - 1) > 0)
  }

  lemma SettleKnown(d: Driver, outcome: Outcome)
    requires Known(d) && Awaiting(d)
    ensures Known(Settle(d, outcome))
  {
    hide Sends, Settles, Unstopped, Count, Orderly, OneByOne, Prompts, Expecting, Begun;
    var e := Settled(d.accepted - 1, d.turns + 1, outcome);
    SettleKeepsInv(d, outcome);
    AfterEmission(d.trace, e);
    BegunAfter(d.trace, e);
  }

  lemma TakeKnown(d: Driver)
    requires Known(d) && !d.exited
    ensures Known(TakeNext(d))
  {
    hide Sends, Settles, Unstopped, Count, Orderly, OneByOne, Expecting, Begun;
    TakeKeepsInv(d);
    if d.busy.None? && d.queued > 0 {
      AfterEmission(d.trace, Prompt(d.accepted));
      BegunAfter(d.trace, Prompt(d.accepted));
      UnsentIsUnstopped(d.trace, d.accepted);
    }
  }

  lemma FailKnown(d: Driver, retryable: bool)
    requires Known(d) && !d.exited && Awaiting(d)
    ensures Known(Failure(d, retryable))
  {
    hide Sends, Settles, Unstopped, Count, Orderly, OneByOne, Prompts, Expecting, Begun;
    FailKeepsInv(d, retryable);
    var id := d.accepted - 1;
    if d.busy.value.phase.cancelled {
      SettleKnown(d, Cancelled);
    } else {
      AfterEmission(d.trace, Notice(id));
      BegunAfter(d.trace, Notice(id));
      AfterEmission(d.trace + [Notice(id)], Settled(id, d.turns + 1, Failed));
      BegunAfter(d.trace + [Notice(id)], Settled(id, d.turns + 1, Failed));
    }
  }

  lemma ResendKnown(d: Driver)
    requires Known(d) && !d.exited && d.busy.Some? && d.busy.value.phase.Backoff?
    ensures Known(Send(d, d.accepted - 1, d.busy.value.attempt))
  {
    hide Sends, Settles, Unstopped, Count, Orderly, OneByOne, Prompts, Expecting, Begun;
    ResendKeepsInv(d);
    AfterEmission(d.trace, Prompt(d.accepted - 1));
    BegunAfter(d.trace, Prompt(d.accepted - 1));
  }

  lemma StopKnown(d: Driver)
    requires Known(d) && !d.exited
    ensures Known(Step(d, HearStop)) && Known(Step(d, HearClosed))
  {
    hide Sends, Settles, Unstopped, Count, Orderly, OneByOne, Prompts, Expecting, Begun;
    StopKeepsInv(d);
    AfterEmission(d.trace, Stop);
    BegunAfter(d.trace, Stop);
  }

  lemma StepKnown(d: Driver, ev: Event)
    requires Known(d)
    ensures Known(Step(d, ev))
  {
    hide Sends, Settles, Unstopped, Count, Orderly, OneByOne, Prompts, InHand, Expecting, Begun,
         TakeNext, Failure, Settle, Send;
    if !d.exited {
      StepKeepsInv(d, ev);
      match ev
      case Take => TakeKnown(d);
      case HearStop => StopKnown(d);
      case HearClosed => StopKnown(d);
      case Reply(reason) => if Awaiting(d) { SettleKnown(d, OutcomeOf(reason)); }
      case Fail(retryable) => if Awaiting(d) { FailKnown(d, retryable); }
      case Resume => if d.busy.Some? && d.busy.value.phase.Backoff? { ResendKnown(d); }
      case _ =>
    }
  }

  /** The gates of the loop are what happened to them. */
  ghost predicate Gates(d: Driver, evs: seq<Event>) {
    && (d.exited <==> Ended(evs)) && (d.exited ==> !d.intakeOpen)
    && (d.intakeOpen <==> CloseIntake !in evs)
    && d.accepted + d.queued == Submitted(evs)
    && (!d.exited ==> d.cancels == Pending(evs) && (d.cancelOpen <==> CloseCancel !in evs))
    && (Awaiting(d) && d.busy.value.phase.deaf && !d.busy.value.phase.cancelled && !d.exited ==>
          d.cancels == 0 && !d.cancelOpen)
  }

  lemma StartKnown()
    ensures Known(START) && Gates(START, [])
  {
    StartKeepsInv();
  }

  lemma HoldsTheBusyOne(d: Driver)
    requires Known(d)
    ensures Holds(d.trace) <==> d.busy.Some?
    ensures d.busy.Some? ==> d.accepted > 0
  {
    hide Sends, Settles, Unstopped, Count, Orderly, OneByOne, Prompts, Expecting, Begun;
  }

  /** What the list says after one more event. */
  lemma OneMore(evs: seq<Event>, ev: Event)
    ensures var spoke := Step(Run(START, evs), ev).trace != Run(START, evs).trace;
            && Submitted(evs + [ev]) == Submitted(evs) + (if ev == Submit && CloseIntake !in evs then 1 else 0)
            && (Ended(evs + [ev]) <==>
                  || Ended(evs)
                  || (ev == Take && CloseIntake in evs && !Holds(Run(START, evs).trace)
                      && Begun(Run(START, evs).trace) == Submitted(evs)))
            && Pending(evs + [ev])
               == (if ev == PressStop && CloseCancel !in evs then Pending(evs) + 1
                   else if ev == HearStop && spoke && Pending(evs) > 0 then Pending(evs) - 1
                   else if ev == Take && spoke then 0
                   else Pending(evs))
            && (forall x :: x in evs + [ev] <==> x in evs || x == ev)
  {
    hide Run, Step, Begun, Holds;
    var after := evs + [ev];
    assert after[..|evs|] == evs && after[|after| - 1] == ev;
    RunSnoc(START, evs, ev);
  }

  lemma StepGates(d: Driver, evs: seq<Event>, ev: Event)
    requires Known(d) && Gates(d, evs) && d == Run(START, evs)
    ensures Gates(Step(d, ev), evs + [ev])
  {
    hide Known, Run, Begun, Holds, Submitted, Pending, Ended;
    HoldsTheBusyOne(d);
    OneMore(evs, ev);
    assert d.accepted == Begun(d.trace) by { KnownBegun(d); }
    var e := Step(d, ev);
    assert |d.trace + [Stop]| == |d.trace| + 1 && |d.trace + [Prompt(d.accepted)]| == |d.trace| + 1;
    if d.exited {
      assert e == d;
    } else {
      match ev
      case Take =>
      case HearStop =>
      case HearClosed =>
      case Fail(_) => assert e.queued == d.queued && e.accepted == d.accepted;
      case _ =>
    }
  }

  lemma KnownBegun(d: Driver)
    requires Known(d)
    ensures d.accepted == Begun(d.trace)
  {
  }

  lemma {:induction false} RunSnoc(d: Driver, evs: seq<Event>, ev: Event)
    ensures Run(d, evs + [ev]) == Step(Run(d, evs), ev)
    decreases |evs|
  {
    hide Step;
    if evs == [] {
      assert [] + [ev] == [ev] && [ev][1..] == [];
      assert Run(Step(d, ev), []) == Step(d, ev);
    } else {
      assert (evs + [ev])[0] == evs[0] && (evs + [ev])[1..] == evs[1..] + [ev];
      RunSnoc(Step(d, evs[0]), evs[1..], ev);
    }
  }

  lemma {:induction false} RunKnown(evs: seq<Event>)
    ensures Known(Run(START, evs)) && Gates(Run(START, evs), evs)
    decreases |evs|
  {
    hide Step, Known, Gates;
    if evs == [] {
      StartKnown();
    } else {
      var front, ev := evs[..|evs| - 1], evs[|evs| - 1];
      assert evs == front + [ev];
      RunKnown(front);
      RunSnoc(START, front, ev);
      StepKnown(Run(START, front), ev);
      StepGates(Run(START, front), front, ev);
    }
  }

  /** For every run and every next event: until the loop has ended, what goes
      out is what the trace and the pending cancels call for; after that
      nothing does. */
  lemma EveryEventIsAnswered(evs: seq<Event>, ev: Event)
    ensures var d := Run(START, evs);
            && (d.exited <==> Ended(evs))
            && Run(START, evs + [ev]).trace == d.trace + if Ended(evs) then [] else Says(evs, d.trace, ev)
  {
    hide Sends, Settles, Unstopped, Count, Orderly, OneByOne, Prompts, Expecting, Begun, Ended, Run, Submitted, Pending;
    var d := Run(START, evs);
    RunKnown(evs);
    RunSnoc(START, evs, ev);
    assert d.trace + [] == d.trace;
  }
}
