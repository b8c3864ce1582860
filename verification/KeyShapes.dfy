// What a stream of keys comes to: counts, single keys, sequences, and
// sequences that break off.
module KeyShapes {
  import opened Options
  import opened KeyLexer

  /** Keys fed one by one from a state with nothing pending. */
  function Fed(b: Bindings, count: Option<nat>, keys: seq<Press>): Lexer {
    FeedList(b, Lexer([], count, []), keys)
  }

  /** The digits of a count as they come out. */
  function CountedKeys(digits: seq<DigitValue>): seq<Token> {
    seq(|digits|, i requires 0 <= i < |digits| => Counted(Digit(digits[i])))
  }

  /** What `rest` comes to from `count` on, after `tokens`. */
  function Then(tokens: seq<Token>, r: Lexer): Lexer { r.(tokens := tokens + r.tokens) }

  lemma FedIsLex(b: Bindings, count: Option<nat>, keys: seq<Press>)
    ensures Fed(b, count, keys) == Lex(b, keys, count)
  {
    hide FeedList, Lex;
    FeedingIsLexing(b, Lexer([], count, []), keys);
    assert [] + keys == keys;
    assert [] + Lex(b, keys, count).tokens == Lex(b, keys, count).tokens;
  }

  lemma FedOn(b: Bindings, count: Option<nat>, x: seq<Press>, y: seq<Press>)
    requires Fed(b, count, x).pending == []
    ensures Fed(b, count, x + y) == Then(Fed(b, count, x).tokens, Fed(b, Fed(b, count, x).count, y))
  {
    hide FeedList, Lex;
    FeedConcat(b, Lexer([], count, []), x, y);
    var m := Fed(b, count, x);
    FeedingIsLexing(b, m, y);
    FedIsLex(b, m.count, y);
    assert [] + y == y;
  }

  // --- Counts ---

  lemma {:induction false} DigitsComeOut(b: Bindings, digits: seq<DigitValue>)
    requires digits != [] && digits[0] != 0
    ensures Fed(b, None, DigitKeys(digits)) == Lexer([], Some(Saturate(Decimal(digits))), CountedKeys(digits))
    decreases |digits|
  {
    hide Decimal, Extends;
    var init, d := digits[..|digits| - 1], digits[|digits| - 1];
    DigitRun(b, digits, []);
    assert DigitKeys(digits) == DigitKeys(init) + [Digit(d)];
    var m := Fed(b, None, DigitKeys(init));
    FeedConcat(b, Lexer([], None, []), DigitKeys(init), [Digit(d)]);
    FeedOne(b, m, Digit(d));
    assert CountedKeys(digits) == CountedKeys(init) + [Counted(Digit(d))];
    if init == [] {
      assert DigitKeys(init) == [];
    } else {
      DigitsComeOut(b, init);
    }
  }

  /** No sequence of two keys or more begins with the key. */
  ghost predicate StandsAlone(b: Bindings, k: Press) {
    forall s :: s in b.multi && |s| > 1 ==> s[0] != k
  }

  lemma AloneIsDecided(b: Bindings, k: Press)
    requires StandsAlone(b, k)
    ensures !Extends(b, [k])
  {
  }

  /** A key bound on its own acts with the count typed before it, and uses it
      up; an unbound one does nothing and leaves the count. */
  lemma KeyActs(b: Bindings, count: Option<nat>, k: Press, rest: seq<Press>)
    requires StandsAlone(b, k) && (k.Digit? ==> k.value == 0 && count.None?)
    ensures Fed(b, count, [k] + rest)
            == if k in b.single then Then([Acted([k], b.single[k], count)], Fed(b, None, rest))
               else Then([Silent(k)], Fed(b, count, rest))
  {
    hide FeedList, Extends;
    AloneIsDecided(b, k);
    assert [] + [k] == [k];
    FeedOne(b, Lexer([], count, []), k);
    FedOn(b, count, [k], rest);
  }

  /** A count and the key behind it. */
  lemma CountThenKey(b: Bindings, digits: seq<DigitValue>, k: Press, rest: seq<Press>)
    requires digits != [] && digits[0] != 0 && StandsAlone(b, k) && !k.Digit? && k in b.single
    ensures Fed(b, None, DigitKeys(digits) + [k] + rest)
            == Then(CountedKeys(digits) + [Acted([k], b.single[k], Some(Saturate(Decimal(digits))))],
                    Fed(b, None, rest))
  {
    hide FeedList, Fed, StandsAlone, Decimal;
    DigitsComeOut(b, digits);
    assert DigitKeys(digits) + [k] + rest == DigitKeys(digits) + ([k] + rest);
    FedOn(b, None, DigitKeys(digits), [k] + rest);
    KeyActs(b, Some(Saturate(Decimal(digits))), k, rest);
  }

  // --- Sequences ---

  /** The keys are bound as a sequence, and none of their beginnings is. */
  ghost predicate Sequence(b: Bindings, p: seq<Press>) {
    && |p| >= 2 && p in b.multi && (p[0].Digit? ==> p[0].value == 0)
    && forall n :: 1 <= n < |p| ==> p[..n] !in b.multi
  }

  lemma {:induction false} WaitsFor(b: Bindings, count: Option<nat>, p: seq<Press>, n: nat)
    requires Sequence(b, p) && n < |p| && (p[0].Digit? ==> count.None?)
    ensures Fed(b, count, p[..n]) == Lexer(p[..n], count, [])
  {
    hide Extends;
    if n == 0 {
      assert p[..0] == [];
    } else {
      WaitsFor(b, count, p, n - 1);
      assert p[..n] == p[..n - 1] + [p[n - 1]];
      FeedConcat(b, Lexer([], count, []), p[..n - 1], [p[n - 1]]);
      FeedOne(b, Fed(b, count, p[..n - 1]), p[n - 1]);
      assert n == 1 ==> p[..n - 1] == [] && p[n - 1] == p[0];
      BeginningExtends(b, p, n);
    }
  }

  lemma BeginningExtends(b: Bindings, p: seq<Press>, n: nat)
    requires p in b.multi && n < |p|
    ensures Extends(b, p[..n])
  {
    assert p[..n] <= p;
  }

  /** A whole sequence acts with the count typed before it; until then it is
      pending and nothing comes out. */
  lemma SequenceActs(b: Bindings, count: Option<nat>, p: seq<Press>, rest: seq<Press>)
    requires Sequence(b, p) && (p[0].Digit? ==> count.None?)
    ensures forall n :: 0 <= n < |p| ==> Fed(b, count, p[..n]) == Lexer(p[..n], count, [])
    ensures Fed(b, count, p + rest) == Then([Acted(p, b.multi[p], count)], Fed(b, None, rest))
  {
    hide Extends, FeedList;
    forall n | 0 <= n < |p|
      ensures Fed(b, count, p[..n]) == Lexer(p[..n], count, [])
    {
      WaitsFor(b, count, p, n);
    }
    var last := p[|p| - 1];
    assert p == p[..|p| - 1] + [last];
    WaitsFor(b, count, p, |p| - 1);
    FeedConcat(b, Lexer([], count, []), p[..|p| - 1], [last]);
    FeedOne(b, Fed(b, count, p[..|p| - 1]), last);
    FedOn(b, count, p, rest);
  }

  /** A sequence that can no longer be completed gives up its first key, which
      acts alone with the count if it is bound, and drops the count; the other
      keys are read afresh. */
  lemma BrokenSequence(b: Bindings, count: Option<nat>, p: seq<Press>, n: nat, k: Press, rest: seq<Press>)
    requires Sequence(b, p) && 1 <= n < |p| && (p[0].Digit? ==> count.None?)
    requires p[..n] + [k] !in b.multi && !exists s :: s in b.multi && n + 1 < |s| && p[..n] + [k] <= s
    ensures Fed(b, count, p[..n] + [k] + rest)
            == Then([if p[0] in b.single then Acted([p[0]], b.single[p[0]], count) else Silent(p[0])],
                    Fed(b, None, p[1..n] + [k] + rest))
  {
    hide FeedList;
    var q := p[..n] + [k];
    WaitsFor(b, count, p, n);
    FeedConcat(b, Lexer([], count, []), p[..n], [k] + rest);
    assert q + rest == p[..n] + ([k] + rest);
    var m := Lexer(p[..n], count, []);
    var m0 := Put(m, Alone(b, p[0], count), None);
    assert q[1..] == p[1..n] + [k] && q[0] == p[0] && |q| > 1;
    BreaksOff(b, m, k);
    FeedConcat(b, m, [k], rest);
    FeedOne(b, m, k);
    FeedConcat(b, m0, q[1..], rest);
    FeedingIsLexing(b, m0, q[1..] + rest);
    FedIsLex(b, None, q[1..] + rest);
    assert [] + (q[1..] + rest) == q[1..] + rest;
  }

  lemma BreaksOff(b: Bindings, m: Lexer, k: Press)
    requires m.pending != [] && m.pending + [k] !in b.multi
    requires !exists s :: s in b.multi && |m.pending| + 1 < |s| && m.pending + [k] <= s
    ensures var p := m.pending + [k];
            FeedKey(b, m, k) == FeedList(b, Put(m, Alone(b, p[0], m.count), None), p[1..])
  {
    hide FeedList;
  }
}
