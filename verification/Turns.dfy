// What a prompt driver puts on the wire and reports, as one trace, and what
// may be said about such a trace.
module Turns {
  datatype StopReason = EndTurn | AgentCancelled | TokenLimit | RequestLimit | Refused | Unsupported

  datatype Outcome = Completed | Cancelled | MaxTokens | Refusal | Failed

  function OutcomeOf(reason: StopReason): Outcome {
    match reason
    case EndTurn => Completed
    case AgentCancelled => Cancelled
    case TokenLimit => MaxTokens
    case RequestLimit => MaxTokens
    case Refused => Refusal
    case Unsupported => Failed
  }

  const MAX_RETRIES: nat := 5

  /** Prompts are numbered in the order the driver takes them. */
  datatype Emit =
    | Prompt(id: nat)                                  // a session/prompt request
    | Stop                                             // a session/cancel notification
    | Notice(id: nat)
    | Settled(id: nat, count: nat, outcome: Outcome)

  function Sends(tr: seq<Emit>, id: nat): nat {
    if tr == [] then 0 else Sends(tr[..|tr| - 1], id) + if tr[|tr| - 1] == Prompt(id) then 1 else 0
  }

  function Settles(tr: seq<Emit>, id: nat): nat {
    if tr == [] then 0
    else
      var e := tr[|tr| - 1];
      Settles(tr[..|tr| - 1], id) + if e.Settled? && e.id == id then 1 else 0
  }

  /** Turns settled so far. */
  function Count(tr: seq<Emit>): nat {
    if tr == [] then 0 else Count(tr[..|tr| - 1]) + if tr[|tr| - 1].Settled? then 1 else 0
  }

  /** Sent and not settled. */
  predicate InFlight(tr: seq<Emit>, id: nat) { Sends(tr, id) > 0 && Settles(tr, id) == 0 }

  predicate About(e: Emit, id: nat) {
    match e
    case Prompt(i) => i == id
    case Stop => false
    case Notice(i) => i == id
    case Settled(i, _, _) => i == id
  }

  /** The last thing said of the prompt is that it was sent: its response is awaited. */
  predicate Expecting(tr: seq<Emit>, id: nat) {
    tr != [] &&
    (var e := tr[|tr| - 1];
     if About(e, id) then e.Prompt? else Expecting(tr[..|tr| - 1], id))
  }

  /** No cancel went out while the prompt was in flight. */
  predicate Unstopped(tr: seq<Emit>, id: nat) {
    tr == [] || (Unstopped(tr[..|tr| - 1], id) && (tr[|tr| - 1].Stop? ==> !InFlight(tr[..|tr| - 1], id)))
  }

  /** No prompt is sent once a cancel went out while it was in flight. */
  predicate NeverAfterStop(tr: seq<Emit>) {
    tr == [] ||
    (&& NeverAfterStop(tr[..|tr| - 1])
     && (tr[|tr| - 1].Prompt? ==> Unstopped(tr[..|tr| - 1], tr[|tr| - 1].id)))
  }

  /** Settled turns count 1, 2, 3, ... */
  predicate CountsUp(tr: seq<Emit>) {
    tr == [] ||
    (&& CountsUp(tr[..|tr| - 1])
     && (tr[|tr| - 1].Settled? ==> tr[|tr| - 1].count == Count(tr[..|tr| - 1]) + 1))
  }

  /** A prompt is sent only once the one before it has been. */
  predicate InOrder(tr: seq<Emit>) {
    tr == [] ||
    (var e := tr[|tr| - 1];
     InOrder(tr[..|tr| - 1]) && (e.Prompt? && e.id > 0 ==> Sends(tr[..|tr| - 1], e.id - 1) > 0))
  }

  /** A prompt is sent only once the one before it has settled. */
  predicate OneByOne(tr: seq<Emit>) {
    tr == [] ||
    (var e := tr[|tr| - 1];
     OneByOne(tr[..|tr| - 1]) && (e.Prompt? && e.id > 0 ==> Settles(tr[..|tr| - 1], e.id - 1) > 0))
  }

  /** Settled once, after a bounded number of sends. */
  predicate Done(tr: seq<Emit>, id: nat) {
    Settles(tr, id) == 1 && 1 <= Sends(tr, id) <= MAX_RETRIES + 1
  }

  /** Everything promised of a trace, whatever the prompt. */
  predicate Orderly(tr: seq<Emit>) { NeverAfterStop(tr) && CountsUp(tr) && InOrder(tr) }

  // --- One more emission ---

  lemma Emitted(tr: seq<Emit>, e: Emit, id: nat)
    ensures var u := tr + [e];
            && Sends(u, id) == Sends(tr, id) + (if e == Prompt(id) then 1 else 0)
            && Settles(u, id) == Settles(tr, id) + (if e.Settled? && e.id == id then 1 else 0)
            && Count(u) == Count(tr) + (if e.Settled? then 1 else 0)
            && (Expecting(u, id) <==> if About(e, id) then e.Prompt? else Expecting(tr, id))
            && (Unstopped(u, id) <==> Unstopped(tr, id) && (e.Stop? ==> !InFlight(tr, id)))
  {
    assert (tr + [e])[..|tr|] == tr;
  }

  /** The same, for every prompt at once. */
  lemma AfterEmission(tr: seq<Emit>, e: Emit)
    ensures var u := tr + [e];
            && (forall id: nat :: Sends(u, id) == Sends(tr, id) + (if e == Prompt(id) then 1 else 0))
            && (forall id: nat :: Settles(u, id) == Settles(tr, id) + (if e.Settled? && e.id == id then 1 else 0))
            && (forall id: nat :: Unstopped(u, id) <==> Unstopped(tr, id) && (e.Stop? ==> !InFlight(tr, id)))
            && (forall id: nat :: Expecting(u, id) <==> if About(e, id) then e.Prompt? else Expecting(tr, id))
            && Count(u) == Count(tr) + (if e.Settled? then 1 else 0)
  {
    hide Sends, Settles, Unstopped, Count, Expecting, About;
    forall id: nat
      ensures Sends(tr + [e], id) == Sends(tr, id) + (if e == Prompt(id) then 1 else 0)
      ensures Settles(tr + [e], id) == Settles(tr, id) + (if e.Settled? && e.id == id then 1 else 0)
      ensures Unstopped(tr + [e], id) <==> Unstopped(tr, id) && (e.Stop? ==> !InFlight(tr, id))
      ensures Expecting(tr + [e], id) <==> if About(e, id) then e.Prompt? else Expecting(tr, id)
    {
      Emitted(tr, e, id);
    }
    Emitted(tr, e, 0);
  }

  lemma StaysOrderly(tr: seq<Emit>, e: Emit)
    requires Orderly(tr)
    requires e.Prompt? ==> Unstopped(tr, e.id) && (e.id > 0 ==> Sends(tr, e.id - 1) > 0)
    requires e.Settled? ==> e.count == Count(tr) + 1
    ensures Orderly(tr + [e])
  {
    assert (tr + [e])[..|tr|] == tr;
  }

  lemma StaysOneByOne(tr: seq<Emit>, e: Emit)
    requires OneByOne(tr)
    requires e.Prompt? && e.id > 0 ==> Settles(tr, e.id - 1) > 0
    ensures OneByOne(tr + [e])
  {
    assert (tr + [e])[..|tr|] == tr;
  }

  /** A prompt not sent yet was in flight at no cancel. */
  lemma {:induction false} UnsentIsUnstopped(tr: seq<Emit>, id: nat)
    requires Sends(tr, id) == 0
    ensures Unstopped(tr, id)
  {
    if tr != [] {
      UnsentIsUnstopped(tr[..|tr| - 1], id);
    }
  }

  // --- What the predicates say, position by position ---

  lemma {:induction false} StopSeen(tr: seq<Emit>, id: nat, i: nat)
    requires Unstopped(tr, id) && i < |tr| && tr[i].Stop?
    ensures !InFlight(tr[..i], id)
  {
    if i < |tr| - 1 {
      StopSeen(tr[..|tr| - 1], id, i);
      assert tr[..|tr| - 1][..i] == tr[..i];
    }
  }

  /** After a cancel that went out while `id` was in flight, `id` is not sent. */
  lemma {:induction false} NoResend(tr: seq<Emit>, i: nat, j: nat, id: nat)
    requires NeverAfterStop(tr) && i < j < |tr| && tr[i].Stop? && InFlight(tr[..i], id)
    ensures tr[j] != Prompt(id)
  {
    var front := tr[..|tr| - 1];
    assert front[..i] == tr[..i];
    if j < |tr| - 1 {
      NoResend(front, i, j, id);
    } else if tr[j] == Prompt(id) {
      StopSeen(front, id, i);
    }
  }

  lemma {:induction false} CountAt(tr: seq<Emit>, k: nat)
    requires CountsUp(tr) && k < |tr| && tr[k].Settled?
    ensures tr[k].count == Count(tr[..k]) + 1
  {
    if k < |tr| - 1 {
      CountAt(tr[..|tr| - 1], k);
      assert tr[..|tr| - 1][..k] == tr[..k];
    }
  }

  lemma {:induction false} SentAt(tr: seq<Emit>, id: nat) returns (k: nat)
    requires Sends(tr, id) > 0
    ensures k < |tr| && tr[k] == Prompt(id)
  {
    if tr[|tr| - 1] == Prompt(id) {
      k := |tr| - 1;
    } else {
      k := SentAt(tr[..|tr| - 1], id);
    }
  }

  /** The prompt before `id` is first sent before `id` ever is. */
  lemma {:induction false} SentBefore(tr: seq<Emit>, j: nat) returns (i: nat)
    requires InOrder(tr) && j < |tr| && tr[j].Prompt? && tr[j].id > 0
    ensures i < j && tr[i] == Prompt(tr[j].id - 1)
  {
    if j < |tr| - 1 {
      i := SentBefore(tr[..|tr| - 1], j);
    } else {
      i := SentAt(tr[..|tr| - 1], tr[j].id - 1);
    }
  }
}
