// The keybinding manager: a sequence matcher, the count being typed, and the
// queue of actions resolved but not handed out.
module Keybinds {
  import opened Options
  import opened KeyLexer

  datatype Feed = Matched(keys: seq<Press>) | Pending | Broken(keys: seq<Press>) | Unbound

  /** What one key does to a pending prefix. */
  function FeedOf(b: Bindings, pending: seq<Press>, k: Press): Feed {
    var p := pending + [k];
    if p in b.multi then Matched(p)
    else if Extends(b, p) then Pending
    else if |p| > 1 then Broken(p)
    else if k in b.single then Matched(p)
    else Unbound
  }

  class KeySequenceMatcher {
    var pending: seq<Press>

    constructor ()
      ensures pending == []
    {
      pending := [];
    }

    method Feed(k: Press, b: Bindings) returns (r: Feed)
      modifies this
      ensures r == FeedOf(b, old(pending), k)
      ensures pending == if r.Pending? then old(pending) + [k] else []
    {
      pending := pending + [k];
      if pending in b.multi {
        r := Matched(pending);
        pending := [];
        return;
      }
      if Extends(b, pending) {
        return Pending;
      }
      var keys := pending;
      pending := [];
      if |keys| > 1 {
        r := Broken(keys);
      } else if keys[0] in b.single {
        r := Matched(keys);
      } else {
        r := Unbound;
      }
    }
  }

  lemma UnboundIsSilent(b: Bindings, k: Press, count: Option<nat>)
    requires k !in b.single
    ensures Alone(b, k, count) == Silent(k)
  {
  }

  /** The actions among the tokens, each with its count. */
  function Actions(tokens: seq<Token>): seq<(string, Option<nat>)> {
    if tokens == [] then []
    else
      var t := tokens[|tokens| - 1];
      Actions(tokens[..|tokens| - 1]) + if t.Acted? then [(t.name, t.count)] else []
  }

  lemma ActionsSnoc(tokens: seq<Token>, t: Token)
    ensures Actions(tokens + [t]) == Actions(tokens) + if t.Acted? then [(t.name, t.count)] else []
  {
    assert (tokens + [t])[..|tokens|] == tokens;
  }

  class KeybindManager {
    const bindings: Bindings
    const matcher: KeySequenceMatcher
    var pendingCount: Option<nat>
    var queued: seq<(string, Option<nat>)>
    var resolvedCount: Option<Option<nat>>
    ghost var told: seq<Token>       // what became of every key so far
    ghost var handedOut: nat         // actions the caller has been given

    /** The queue is what came out and was not handed out. */
    ghost predicate Valid()
      reads this
    {
      handedOut <= |Actions(told)| && queued == Actions(told)[handedOut..]
    }

    ghost function Value(): Lexer
      reads this, matcher
    {
      Lexer(matcher.pending, pendingCount, told)
    }

    constructor (bindings: Bindings)
      ensures Valid() && fresh(matcher) && this.bindings == bindings
      ensures Value() == Lexer([], None, []) && handedOut == 0
    {
      this.bindings := bindings;
      matcher := new KeySequenceMatcher();
      pendingCount, queued, resolvedCount, told, handedOut := None, [], None, [], 0;
    }

    /** Queue an action with the count typed before it. */
    method Resolve(name: string, ghost keys: seq<Press>)
      requires Valid()
      modifies this
      ensures Valid() && handedOut == old(handedOut) && resolvedCount == old(resolvedCount)
      ensures pendingCount.None? && told == old(told) + [Acted(keys, name, old(pendingCount))]
    {
      ActionsSnoc(told, Acted(keys, name, pendingCount));
      queued := queued + [(name, pendingCount)];
      told := told + [Acted(keys, name, pendingCount)];
      pendingCount := None;
    }

    ghost method Pass(t: Token)
      requires Valid() && !t.Acted?
      modifies this`told
      ensures Valid() && told == old(told) + [t]
    {
      ActionsSnoc(told, t);
      told := told + [t];
    }

    method AccumulateDigit(k: Press)
      requires Valid() && k.Digit?
      modifies this
      ensures Valid() && handedOut == old(handedOut) && resolvedCount == old(resolvedCount)
      ensures pendingCount == Some(AddDigit(old(pendingCount), k.value)) && told == old(told) + [Counted(k)]
    {
      var acc := if pendingCount.Some? then pendingCount.value else 0;
      pendingCount := Some(Saturate(Saturate(acc * 10) + k.value));
      Pass(Counted(k));
    }

    /** A complete sequence: its action, if a single key has one. */
    method Complete(keys: seq<Press>)
      requires Valid() && keys != [] && (|keys| > 1 ==> keys in bindings.multi)
      modifies this
      ensures Valid() && handedOut == old(handedOut) && resolvedCount == old(resolvedCount)
      ensures var token := if |keys| == 1 then Alone(bindings, keys[0], old(pendingCount))
                           else Acted(keys, bindings.multi[keys], old(pendingCount));
              told == old(told) + [token] && pendingCount == Left(token, old(pendingCount))
    {
      if |keys| == 1 {
        assert keys == [keys[0]];
        if keys[0] in bindings.single {
          Resolve(bindings.single[keys[0]], keys);
        } else {
          Pass(Silent(keys[0]));
        }
      } else {
        Resolve(bindings.multi[keys], keys);
      }
    }

    /** An abandoned prefix: its first key alone; an unbound one discards the count. */
    method Abandon(keys: seq<Press>)
      requires Valid() && keys != []
      modifies this
      ensures Valid() && handedOut == old(handedOut) && resolvedCount == old(resolvedCount)
      ensures told == old(told) + [Alone(bindings, keys[0], old(pendingCount))] && pendingCount.None?
    {
      if keys[0] in bindings.single {
        Resolve(bindings.single[keys[0]], [keys[0]]);
      } else {
        pendingCount := None;
        Pass(Silent(keys[0]));
      }
    }

    method FeedKey(k: Press)
      requires Valid()
      modifies this, matcher
      ensures Valid() && handedOut == old(handedOut) && resolvedCount == old(resolvedCount)
      ensures Value() == KeyLexer.FeedKey(bindings, old(Value()), k)
      decreases |matcher.pending| + 1, 1, 0
    {
      hide Extends, AddDigit, Alone;
      if matcher.pending == [] && k.Digit? && !(k.value == 0 && pendingCount.None?) {
        AccumulateDigit(k);
        return;
      }
      ghost var m := Value();
      var r := matcher.Feed(k, bindings);
      match r
      case Matched(keys) => Complete(keys);
      case Pending =>
      case Unbound =>
        UnboundIsSilent(bindings, k, pendingCount);
        Pass(Silent(k));
      case Broken(keys) =>
        Abandon(keys);
        Refeed(keys);
    }

    /** Feed every key of an abandoned prefix but the first, from scratch. */
    method Refeed(keys: seq<Press>)
      requires Valid() && matcher.pending == [] && |keys| > 1
      modifies this, matcher
      ensures Valid() && handedOut == old(handedOut) && resolvedCount == old(resolvedCount)
      ensures Value() == FeedList(bindings, old(Value()), keys[1..])
      decreases |keys|, 0, 1
    {
      ghost var m0 := Value();
      var i := 1;
      assert keys[1..1] == [];
      while i < |keys|
        invariant 1 <= i <= |keys|
        invariant Valid() && handedOut == old(handedOut) && resolvedCount == old(resolvedCount)
        invariant Value() == FeedList(bindings, m0, keys[1..i])
      {
        assert keys[1..i + 1] == keys[1..i] + [keys[i]];
        FeedConcat(bindings, m0, keys[1..i], [keys[i]]);
        FeedOne(bindings, Value(), keys[i]);
        FeedKey(keys[i]);
        i := i + 1;
      }
      assert keys[1..|keys|] == keys[1..];
    }

    /** Feed one key and hand out the first action in the queue. */
    method ProcessKey(k: Press) returns (name: Option<string>)
      requires Valid()
      modifies this, matcher
      ensures Valid() && Value() == KeyLexer.FeedKey(bindings, old(Value()), k)
      ensures name.Some? <==> old(handedOut) < |Actions(told)|
      ensures name.Some? ==> name.value == Actions(told)[old(handedOut)].0 && handedOut == old(handedOut) + 1
                             && resolvedCount == Some(Actions(told)[old(handedOut)].1)
      ensures name.None? ==> handedOut == old(handedOut) && resolvedCount.None?
    {
      resolvedCount := None;
      FeedKey(k);
      name := NextQueuedAction();
    }

    method NextQueuedAction() returns (name: Option<string>)
      requires Valid()
      modifies this`queued, this`resolvedCount, this`handedOut
      ensures Valid()
      ensures name.Some? <==> old(handedOut) < |Actions(told)|
      ensures name.Some? ==> name.value == Actions(told)[old(handedOut)].0 && handedOut == old(handedOut) + 1
                             && resolvedCount == Some(Actions(told)[old(handedOut)].1)
      ensures name.None? ==> handedOut == old(handedOut) && resolvedCount == old(resolvedCount)
    {
      if queued == [] {
        return None;
      }
      name := Some(queued[0].0);
      resolvedCount := Some(queued[0].1);
      queued := queued[1..];
      handedOut := handedOut + 1;
    }

    /** The count of the action just handed out, once; else the count being typed. */
    method TakeCount() returns (count: Option<nat>)
      requires Valid()
      modifies this`resolvedCount, this`pendingCount
      ensures Valid() && resolvedCount.None?
      ensures old(resolvedCount).Some? ==> count == old(resolvedCount).value && pendingCount == old(pendingCount)
      ensures old(resolvedCount).None? ==> count == old(pendingCount) && pendingCount.None?
    {
      if resolvedCount.Some? {
        count := resolvedCount.value;
        resolvedCount := None;
      } else {
        count := pendingCount;
        pendingCount := None;
      }
    }
  }
}
