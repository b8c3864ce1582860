// What the concurrent driver says next depends on nothing but what happened and
// what it has said: its answer to every event, read off the trace.
module QueueReplies {
  import opened Turns
  import opened QueueDriver

  /** How many prompts were submitted while the intake was open. */
  function Taken(evs: seq<Event>): nat {
    if evs == [] then 0
    else
      var front := evs[..|evs| - 1];
      Taken(front) + if evs[|evs| - 1] == Submit && CloseIntake !in front then 1 else 0
  }

  /** The intake was closed, and every prompt it let in has settled. */
  predicate Ended(evs: seq<Event>, tr: seq<Emit>) {
    CloseIntake in evs && forall id: nat :: id < Taken(evs) ==> Settles(tr, id) > 0
  }

  /** What goes out when `ev` happens after `evs`, with `tr` said so far: a
      response settles the prompt it answers; a failure is retried if it may
      pass, no cancel went out while the prompt was in flight, and it was sent
      no more than MAX_RETRIES times; after such a cancel the prompt settles as
      cancelled, else as failed; after a backoff it is sent again unless
      cancelled meanwhile. */
  function Says(evs: seq<Event>, tr: seq<Emit>, ev: Event): seq<Emit> {
    match ev
    case Submit => if CloseIntake in evs then [] else [Prompt(Taken(evs))]
    case CloseIntake => []
    case Reply(id, reason) =>
      if !Expecting(tr, id) then [] else [Settled(id, Count(tr) + 1, OutcomeOf(reason))]
    case Fail(id, retryable) =>
      if !Expecting(tr, id) then []
      else if !Unstopped(tr, id) then [Settled(id, Count(tr) + 1, Cancelled)]
      else if retryable && Sends(tr, id) <= MAX_RETRIES then [Notice(id)]
      else [Notice(id), Settled(id, Count(tr) + 1, Failed)]
    case Resume(id) =>
      if !InFlight(tr, id) || Expecting(tr, id) then []
      else if Unstopped(tr, id) then [Prompt(id)]
      else [Settled(id, Count(tr) + 1, Cancelled)]
    case Cancel => if CloseCancel in evs then [] else [Stop]
    case CloseCancel => []
  }

  // --- What the state knows is in the trace ---

  /** The flight of a prompt is what the trace says of it. */
  ghost predicate Told(d: Driver, id: nat) {
    && (Is(d, id, Waiting) <==> Expecting(d.trace, id))
    && (id in d.inflight <==> InFlight(d.trace, id))
    && (id in d.inflight ==> (d.inflight[id].stop <==> !Unstopped(d.trace, id)))
    && (id in d.inflight && Is(d, id, Waiting) ==> Sends(d.trace, id) == d.inflight[id].attempt + 1)
    && (id >= d.accepted ==> Sends(d.trace, id) == 0 && !Expecting(d.trace, id))
    && (id < d.accepted ==> Sends(d.trace, id) > 0)
  }

  ghost predicate Known(d: Driver) {
    && Inv(d)
    && forall id: nat :: Told(d, id)
  }

  lemma SettleTold(d: Driver, id: nat, outcome: Outcome)
    requires Known(d) && id in d.inflight && !d.exited
    ensures Known(Settle(d, id, outcome))
  {
    hide Sends, Settles, Unstopped, Count, Orderly, Prompts, Expecting;
    var e := Settled(id, d.turns + 1, outcome);
    SettleKeepsInv(d, id, outcome);
    AfterEmission(d.trace, e);
    forall k: nat
      ensures Told(Settle(d, id, outcome), k)
    {
      assert Told(d, k);
    }
  }

  lemma SubmitTold(d: Driver)
    requires Known(d) && !d.exited
    ensures Known(React(d, Submit))
  {
    hide Sends, Settles, Unstopped, Count, Orderly, Expecting;
    SubmitKeepsInv(d);
    AfterEmission(d.trace, Prompt(d.accepted));
    UnsentIsUnstopped(d.trace, d.accepted) by { assert Told(d, d.accepted); }
    forall k: nat
      ensures Told(React(d, Submit), k)
    {
      assert Told(d, k);
    }
  }

  lemma FailTold(d: Driver, id: nat, retryable: bool)
    requires Known(d) && !d.exited
    ensures Known(React(d, Fail(id, retryable)))
  {
    hide Sends, Settles, Unstopped, Count, Orderly, Expecting, Prompts;
    FailKeepsInv(d, id, retryable);
    if Is(d, id, Waiting) {
      if d.inflight[id].stop {
        SettleTold(d, id, Cancelled);
      } else {
        NoticeTold(d, id, retryable);
      }
    }
  }

  lemma NoticeTold(d: Driver, id: nat, retryable: bool)
    requires Known(d) && !d.exited && Is(d, id, Waiting) && !d.inflight[id].stop
    ensures forall k: nat :: Told(React(d, Fail(id, retryable)), k)
  {
    hide Sends, Settles, Unstopped, Count, Orderly, Expecting, Inv;
    var e := React(d, Fail(id, retryable));
    var told := d.trace + [Notice(id)];
    AfterEmission(d.trace, Notice(id));
    AfterEmission(told, Settled(id, d.turns + 1, Failed));
    forall k: nat
      ensures Told(e, k)
    {
      assert Told(d, k);
    }
  }

  lemma ResumeTold(d: Driver, id: nat)
    requires Known(d) && !d.exited
    ensures Known(React(d, Resume(id)))
  {
    hide Sends, Settles, Unstopped, Count, Orderly, Expecting;
    ResendKeepsInv(d, id);
    if Is(d, id, Backoff) {
      if d.inflight[id].stop {
        SettleTold(d, id, Cancelled);
      } else {
        AfterEmission(d.trace, Prompt(id));
        forall k: nat
          ensures Told(React(d, Resume(id)), k)
        {
          assert Told(d, k) && Flying(d.trace, id, d.inflight[id]);
        }
      }
    }
  }

  lemma CancelTold(d: Driver)
    requires Known(d) && !d.exited
    ensures Known(React(d, Cancel))
  {
    hide Sends, Settles, Unstopped, Count, Orderly, Expecting, Prompts;
    CancelKeepsInv(d);
    AfterEmission(d.trace, Stop);
    forall k: nat
      ensures Told(React(d, Cancel), k)
    {
      assert Told(d, k);
    }
  }

  lemma ReactTold(d: Driver, ev: Event)
    requires Known(d) && !d.exited
    ensures Known(React(d, ev))
  {
    hide Sends, Settles, Unstopped, Count, Orderly, Expecting, Prompts, Settle, Tripped;
    match ev
    case Submit => SubmitTold(d);
    case CloseIntake => QuietTold(d, React(d, ev)); ReactKeepsInv(d, ev);
    case Reply(id, reason) => if Is(d, id, Waiting) { SettleTold(d, id, OutcomeOf(reason)); }
    case Fail(id, retryable) => FailTold(d, id, retryable);
    case Resume(id) => ResumeTold(d, id);
    case Cancel => CancelTold(d);
    case CloseCancel => QuietTold(d, React(d, ev)); ReactKeepsInv(d, ev);
  }

  lemma QuietTold(d: Driver, e: Driver)
    requires Known(d) && e.inflight == d.inflight && e.accepted == d.accepted && e.trace == d.trace
    ensures forall k: nat :: Told(e, k)
  {
    hide Sends, Settles, Unstopped, Expecting, Inv;
    forall k: nat
      ensures Told(e, k)
    {
      assert Told(d, k);
    }
  }

  lemma StepTold(d: Driver, ev: Event)
    requires Known(d)
    ensures Known(Step(d, ev))
  {
    hide React, Inv, Told;
    if !d.exited {
      ReactTold(d, ev);
      StepKeepsInv(d, ev);
      var e := React(d, ev);
      QuietTold(e, e.(exited := !e.intakeOpen && e.inflight == map[]));
    }
  }

  // --- Whole runs ---

  lemma {:induction false} RunSnoc(d: Driver, evs: seq<Event>, ev: Event)
    ensures Run(d, evs + [ev]) == Step(Run(d, evs), ev)
    decreases |evs|
  {
    hide Step;
    if evs == [] {
      assert [] + [ev] == [ev] && [ev][1..] == [];
      assert Run(Step(d, ev), []) == Step(d, ev);
    } else {
      assert (evs + [ev])[0] == evs[0] && (evs + [ev])[1..] == evs[1..] + [ev];
      RunSnoc(Step(d, evs[0]), evs[1..], ev);
    }
  }

  /** The gates of the loop are what happened to them. */
  ghost predicate Gates(d: Driver, evs: seq<Event>) {
    && d.accepted == Taken(evs)
    && (d.intakeOpen <==> CloseIntake !in evs) && (d.exited || (d.cancelOpen <==> CloseCancel !in evs))
    && (d.exited <==> CloseIntake in evs && d.inflight == map[])
  }

  lemma {:induction false} RunTold(evs: seq<Event>)
    ensures Known(Run(START, evs)) && Gates(Run(START, evs), evs)
    decreases |evs|
  {
    hide Step, Known;
    if evs == [] {
      StartTold();
    } else {
      var front, ev := evs[..|evs| - 1], evs[|evs| - 1];
      assert evs == front + [ev];
      RunTold(front);
      RunSnoc(START, front, ev);
      StepTold(Run(START, front), ev);
      StepGates(Run(START, front), front, ev);
    }
  }

  lemma StartTold()
    ensures Known(START)
  {
    StartKeepsInv();
    assert forall id: nat :: Told(START, id);
  }

  lemma StepGates(d: Driver, evs: seq<Event>, ev: Event)
    requires Gates(d, evs)
    ensures Gates(Step(d, ev), evs + [ev])
  {
    assert (evs + [ev])[..|evs|] == evs;
    assert forall x :: x in evs + [ev] <==> x in evs || x == ev;
  }

  lemma FlightsLand(d: Driver, evs: seq<Event>)
    requires Known(d) && Gates(d, evs)
    ensures d.exited <==> Ended(evs, d.trace)
  {
    hide Sends, Settles, Unstopped, Count, Orderly, Expecting, Taken, Inv;
    if CloseIntake in evs {
      if d.inflight == map[] {
        forall id: nat | id < Taken(evs)
          ensures Settles(d.trace, id) > 0
        {
          assert Told(d, id);
        }
      } else {
        var id :| id in d.inflight;
        assert Told(d, id);
      }
    }
  }

  /** For every run and every next event: the loop has ended exactly if the
      intake was closed and every prompt has settled; until then what goes out
      is what the trace calls for, after that nothing is. */
  lemma EveryEventIsAnswered(evs: seq<Event>, ev: Event)
    ensures var d := Run(START, evs);
            && (d.exited <==> Ended(evs, d.trace))
            && Run(START, evs + [ev]).trace == d.trace + if Ended(evs, d.trace) then [] else Says(evs, d.trace, ev)
  {
    hide Sends, Settles, Unstopped, Count, Orderly, Expecting, Taken, Ended, Run;
    var d := Run(START, evs);
    RunTold(evs);
    FlightsLand(d, evs);
    RunSnoc(START, evs, ev);
    if ev.Reply? || ev.Fail? || ev.Resume? {
      assert Told(d, ev.id);
    }
    assert d.turns == Count(d.trace);
  }

  // --- Retries ---

  /** In its backoff, and no cancel went out while it was in flight. */
  predicate Resting(tr: seq<Emit>, id: nat) { InFlight(tr, id) && !Expecting(tr, id) && Unstopped(tr, id) }

  lemma OneRests(evs: seq<Event>, ev: Event, id: nat)
    requires Resting(Run(START, evs).trace, id) && ev != Cancel && ev != Resume(id)
    ensures var tr, later := Run(START, evs).trace, Run(START, evs + [ev]).trace;
            Resting(later, id) && Sends(later, id) == Sends(tr, id)
  {
    hide Sends, Settles, Unstopped, Count, Expecting, Run, Taken, Inv;
    var tr := Run(START, evs).trace;
    EveryEventIsAnswered(evs, ev);
    RunTold(evs);
    assert Told(Run(START, evs), id);
    var said := if Ended(evs, tr) then [] else Says(evs, tr, ev);
    assert tr + [] == tr;
    if |said| > 0 {
      AfterEmission(tr, said[0]);
      if |said| == 1 {
        assert said == [said[0]];
      } else {
        AfterEmission(tr + [said[0]], said[1]);
        assert tr + said == tr + [said[0]] + [said[1]];
      }
    }
  }

  lemma {:induction false} RestsThrough(evs: seq<Event>, between: seq<Event>, id: nat)
    requires Resting(Run(START, evs).trace, id) && Cancel !in between && Resume(id) !in between
    ensures var tr, later := Run(START, evs).trace, Run(START, evs + between).trace;
            Resting(later, id) && Sends(later, id) == Sends(tr, id)
    decreases |between|
  {
    hide Run, Resting, Sends;
    if between == [] {
      assert evs + [] == evs;
    } else {
      OneRests(evs, between[0], id);
      assert evs + between == (evs + [between[0]]) + between[1..];
      RestsThrough(evs + [between[0]], between[1..], id);
    }
  }

  /** A transient failure is retried: the prompt stays unsettled through
      whatever happens to others, and when its backoff is over, with no cancel
      in between, it is sent once more. */
  lemma TransientFailureIsRetried(evs: seq<Event>, id: nat, between: seq<Event>)
    requires var tr := Run(START, evs).trace;
             Expecting(tr, id) && Unstopped(tr, id) && Sends(tr, id) <= MAX_RETRIES && !Ended(evs, tr)
    requires Cancel !in between && Resume(id) !in between
    ensures var tr := Run(START, evs).trace;
            var upto := evs + [Fail(id, true)] + between;
            && Settles(Run(START, upto).trace, id) == 0
            && Run(START, upto + [Resume(id)]).trace == Run(START, upto).trace + [Prompt(id)]
            && Sends(Run(START, upto + [Resume(id)]).trace, id) == Sends(tr, id) + 1
  {
    hide Sends, Settles, Unstopped, Count, Expecting, Run, Taken, Inv;
    var tr := Run(START, evs).trace;
    EveryEventIsAnswered(evs, Fail(id, true));
    RunTold(evs);
    assert Told(Run(START, evs), id);
    AfterEmission(tr, Notice(id));
    var upto := evs + [Fail(id, true)] + between;
    RestsThrough(evs + [Fail(id, true)], between, id);
    RunTold(upto);
    EveryEventIsAnswered(upto, Resume(id));
    assert Told(Run(START, upto), id);
    AfterEmission(Run(START, upto).trace, Prompt(id));
  }
}
