// The reconciler of user-turn announcements and the turn counter, as objects.
module Echoes {
  import opened Options
  import opened Whitespace
  import E = EchoModel
  import opened EchoModel

  class UserTurnReconciler {
    var pendingLocal: seq<Text>
    var lastInserted: Option<Text>

    constructor ()
      ensures Value() == Reconciler([], None)
    {
      pendingLocal, lastInserted := [], None;
    }

    ghost function Value(): Reconciler
      reads this
    {
      Reconciler(pendingLocal, lastInserted)
    }

    /** Where `x` first stands in the queue. */
    method Position(x: Text) returns (pos: Option<nat>)
      ensures pos.None? <==> x !in pendingLocal
      ensures pos.Some? ==> pos.value == IndexIn(pendingLocal, x) < |pendingLocal| && pendingLocal[pos.value] == x
    {
      var i := 0;
      while i < |pendingLocal|
        invariant i <= |pendingLocal| && x !in pendingLocal[..i]
        invariant IndexIn(pendingLocal, x) == i + IndexIn(pendingLocal[i..], x)
      {
        if pendingLocal[i] == x {
          return Some(i);
        }
        assert pendingLocal[i..][1..] == pendingLocal[i + 1..];
        i := i + 1;
      }
      pos := None;
    }

    method Reconcile(origin: Origin, text: Text, replaying: bool) returns (action: Action)
      modifies this
      ensures (Value(), action) == E.Reconcile(old(Value()), origin, text, replaying)
    {
      var x := TrimSpace(text);
      match origin
      case LocalSubmit =>
        if |pendingLocal| >= MAX_PENDING_ECHOES {
          pendingLocal := pendingLocal[1..];
        }
        pendingLocal := pendingLocal + [x];
        lastInserted := Some(x);
        action := Insert(false);
      case FromStream =>
        var pos := Position(x);
        if pos.Some? {
          WithoutIsCut(pendingLocal, x);
          pendingLocal := pendingLocal[..pos.value] + pendingLocal[pos.value + 1..];
          lastInserted := Some(x);
          return Skip;
        }
        if !replaying && lastInserted == Some(x) {
          return Skip;
        }
        lastInserted := Some(x);
        action := Insert(replaying);
    }

    method NoteTurnProgressed()
      modifies this`lastInserted
      ensures Value() == old(Value()).(last := None)
    {
      lastInserted := None;
    }
  }

  lemma {:induction false} WithoutIsCut(q: seq<Text>, x: Text)
    requires x in q
    ensures var i := IndexIn(q, x);
            i < |q| && Without(q, x) == q[..i] + q[i + 1..]
  {
    if q[0] != x {
      WithoutIsCut(q[1..], x);
      var i := IndexIn(q[1..], x);
      assert q[..i + 1] == [q[0]] + q[1..][..i];
      assert q[i + 2..] == q[1..][i + 1..];
    }
  }

  class ReplayTurns {
    var lastSeen: nat
    var replayTurn: nat

    constructor (lastSeen: nat)
      ensures Value() == Attribution(lastSeen, 0)
    {
      this.lastSeen, replayTurn := lastSeen, 0;
    }

    ghost function Value(): Attribution
      reads this
    {
      Attribution(lastSeen, replayTurn)
    }

    method AdvanceUserBoundary() returns (k: nat)
      modifies this`replayTurn
      ensures Value() == AdvanceBoundary(old(Value())) && k == CurrentTurn(Value())
    {
      replayTurn := if replayTurn == 0 then lastSeen + 1 else replayTurn + 1;
      k := replayTurn;
    }

    method FinishReplay()
      modifies this
      ensures Value() == E.FinishReplay(old(Value())) && lastSeen >= old(lastSeen)
    {
      if replayTurn > lastSeen {
        lastSeen := replayTurn;
      }
      replayTurn := 0;
    }
  }
}
