// Key sequences: fed one key at a time, re-feeding what a broken prefix leaves,
// and lexed from the whole stream at once.
module KeyLexer {
  import opened Options

  type DigitValue = d: nat | d < 10

  /** A key press; a digit without modifiers may be part of a count. */
  datatype Press = Digit(value: DigitValue) | Plain(code: nat)

  /** Bindings of single keys and of sequences, to action names. */
  datatype Bindings = Bindings(single: map<Press, string>, multi: map<seq<Press>, string>)

  /** What became of keys: part of a count, an action with its count, nothing. */
  datatype Token = Counted(key: Press) | Acted(keys: seq<Press>, name: string, count: Option<nat>) | Silent(key: Press)

  /** What is pending, and what came out so far. */
  datatype Lexer = Lexer(pending: seq<Press>, count: Option<nat>, tokens: seq<Token>)

  const USIZE_MAX: nat := 0xFFFF_FFFF_FFFF_FFFF

  function Saturate(n: nat): nat { if n <= USIZE_MAX then n else USIZE_MAX }

  /** Whether some longer bound sequence starts with `p`. */
  predicate Extends(b: Bindings, p: seq<Press>) {
    exists s :: s in b.multi && |p| < |s| && p <= s
  }

  /** A bare digit is count, except a leading zero. */
  predicate Counts(k: Press, count: Option<nat>) {
    k.Digit? && !(k.value == 0 && count.None?)
  }

  function AddDigit(count: Option<nat>, d: DigitValue): nat {
    Saturate(Saturate((if count.Some? then count.value else 0) * 10) + d)
  }

  /** A key on its own: its single binding, if any. */
  function Alone(b: Bindings, k: Press, count: Option<nat>): Token {
    if k in b.single then Acted([k], b.single[k], count) else Silent(k)
  }

  /** A complete sequence; one key long it counts as a single key. */
  function Whole(b: Bindings, p: seq<Press>, count: Option<nat>): Token
    requires p != [] && p in b.multi
  {
    if |p| == 1 then Alone(b, p[0], count) else Acted(p, b.multi[p], count)
  }

  function Put(m: Lexer, token: Token, count: Option<nat>): Lexer {
    Lexer([], count, m.tokens + [token])
  }

  /** The count an action uses up; a silent key leaves it. */
  function Left(token: Token, count: Option<nat>): Option<nat> { if token.Acted? then None else count }

  /** One key.  A broken prefix resolves its first key alone, drops the count,
      and feeds the rest from scratch. */
  function FeedKey(b: Bindings, m: Lexer, k: Press): (r: Lexer)
    ensures |r.pending| <= |m.pending| + 1
    decreases |m.pending| + 1, 1, 0
  {
    if m.pending == [] && Counts(k, m.count)
    then m.(count := Some(AddDigit(m.count, k.value)), tokens := m.tokens + [Counted(k)])
    else
      var p := m.pending + [k];
      if p in b.multi then Put(m, Whole(b, p, m.count), Left(Whole(b, p, m.count), m.count))
      else if Extends(b, p) then m.(pending := p)
      else if |p| == 1 then Put(m, Alone(b, k, m.count), Left(Alone(b, k, m.count), m.count))
      else FeedList(b, Put(m, Alone(b, p[0], m.count), None), p[1..])
  }

  function FeedList(b: Bindings, m: Lexer, keys: seq<Press>): (r: Lexer)
    ensures |r.pending| <= |m.pending| + |keys|
    decreases |m.pending| + |keys|, |keys|, 1
  {
    if keys == [] then m else FeedList(b, FeedKey(b, m, keys[0]), keys[1..])
  }

  // --- The batch lexer ---

  /** Length of the shortest prefix, `n` keys or more, that is bound or that
      nothing extends; past the end if there is none. */
  function Reach(b: Bindings, keys: seq<Press>, n: nat): (r: nat)
    ensures n <= r
    decreases |keys| + 1 - n
  {
    if n > |keys| || keys[..n] in b.multi || !Extends(b, keys[..n]) then n else Reach(b, keys, n + 1)
  }

  function Before(token: Token, rest: Lexer): Lexer { rest.(tokens := [token] + rest.tokens) }

  /** Lex a whole stream: count digits, then the shortest decided prefix; if
      that is a dead end, its first key alone. */
  function Lex(b: Bindings, keys: seq<Press>, count: Option<nat>): Lexer
    decreases |keys|
  {
    if keys == [] then Lexer([], count, [])
    else if Counts(keys[0], count)
    then Before(Counted(keys[0]), Lex(b, keys[1..], Some(AddDigit(count, keys[0].value))))
    else
      var n := Reach(b, keys, 1);
      if n > |keys| then Lexer(keys, count, [])
      else if keys[..n] in b.multi then
        var token := Whole(b, keys[..n], count);
        Before(token, Lex(b, keys[n..], Left(token, count)))
      else
        var token := Alone(b, keys[0], count);
        Before(token, Lex(b, keys[1..], if n == 1 then Left(token, count) else None))
  }

  // --- Incremental is batch ---

  /** A prefix that is pending: not a count, and undecided at every length. */
  ghost predicate Live(b: Bindings, p: seq<Press>, count: Option<nat>) {
    p != [] ==> !Counts(p[0], count) && forall n :: 1 <= n <= |p| ==> p[..n] !in b.multi && Extends(b, p[..n])
  }

  lemma {:induction false} ReachSkips(b: Bindings, keys: seq<Press>, n: nat, m: nat)
    requires n <= m <= |keys| + 1
    requires forall i :: n <= i < m ==> keys[..i] !in b.multi && Extends(b, keys[..i])
    ensures Reach(b, keys, n) == Reach(b, keys, m)
    decreases m - n
  {
    hide Extends;
    if n < m {
      ReachSkips(b, keys, n + 1, m);
    }
  }

  /** With `p` pending, the stream is decided past `p` at the earliest. */
  lemma LiveReach(b: Bindings, p: seq<Press>, keys: seq<Press>, count: Option<nat>)
    requires p != [] && Live(b, p, count)
    ensures Reach(b, p + keys, 1) == Reach(b, p + keys, |p| + 1)
  {
    hide Extends, Counts;
    forall i | 1 <= i < |p| + 1
      ensures (p + keys)[..i] !in b.multi && Extends(b, (p + keys)[..i])
    {
      assert (p + keys)[..i] == p[..i];
    }
    ReachSkips(b, p + keys, 1, |p| + 1);
  }

  lemma LongerIsLive(b: Bindings, p: seq<Press>, k: Press, count: Option<nat>)
    requires Live(b, p, count) && (p == [] ==> !Counts(k, count))
    requires p + [k] !in b.multi && Extends(b, p + [k])
    ensures Live(b, p + [k], count)
  {
    hide Extends, Counts;
    forall n | 1 <= n <= |p + [k]|
      ensures (p + [k])[..n] !in b.multi && Extends(b, (p + [k])[..n])
    {
      if n <= |p| {
        assert (p + [k])[..n] == p[..n];
      } else {
        assert (p + [k])[..n] == p + [k];
      }
    }
  }

  lemma {:induction false} FeedConcat(b: Bindings, m: Lexer, x: seq<Press>, y: seq<Press>)
    ensures FeedList(b, m, x + y) == FeedList(b, FeedList(b, m, x), y)
    decreases |x|
  {
    hide FeedKey;
    if x == [] {
      assert x + y == y;
    } else {
      assert (x + y)[1..] == x[1..] + y && (x + y)[0] == x[0];
      FeedConcat(b, FeedKey(b, m, x[0]), x[1..], y);
    }
  }

  /** What a lexer holds, with what lexing goes on to give. */
  function Onto(m: Lexer, rest: Lexer): Lexer { Lexer(rest.pending, rest.count, m.tokens + rest.tokens) }

  lemma OntoPut(m: Lexer, token: Token, p: seq<Press>, count: Option<nat>, rest: Lexer)
    ensures Onto(Lexer(p, count, m.tokens + [token]), rest) == Onto(m, Before(token, rest))
  {
  }

  /** Feeding keys one at a time, from any pending prefix, gives what lexing
      the prefix and the keys in one go gives. */
  lemma {:induction false} FeedingIsLexing(b: Bindings, m: Lexer, keys: seq<Press>)
    requires Live(b, m.pending, m.count)
    ensures FeedList(b, m, keys) == Onto(m, Lex(b, m.pending + keys, m.count))
    decreases |m.pending| + |keys|, |keys|
  {
    hide Live, Lex, FeedKey, Onto, Before, Put, Counts, Extends, Left, Alone, Whole;
    if keys == [] {
      assert m.pending + keys == m.pending;
      LexOfLive(b, m);
    } else {
      var k, rest := keys[0], keys[1..];
      assert keys == [k] + rest;
      var p := m.pending + [k];
      assert m.pending + keys == p + rest;
      if m.pending == [] && Counts(k, m.count) {
        CountStep(b, m, k, rest);
        FeedingIsLexing(b, FeedKey(b, m, k), rest);
      } else if p in b.multi {
        MatchStep(b, m, k, rest);
        FeedingIsLexing(b, FeedKey(b, m, k), rest);
      } else if Extends(b, p) {
        LongerIsLive(b, m.pending, k, m.count);
        PendingStep(b, m, k);
        FeedingIsLexing(b, FeedKey(b, m, k), rest);
        OntoSame(m, p, Lex(b, p + rest, m.count));
      } else if |p| == 1 {
        assert m.pending == [] && p == [k];
        AloneStep(b, m, k, rest);
        FeedingIsLexing(b, FeedKey(b, m, k), rest);
      } else {
        BrokenStep(b, m, k, rest);
        var m0 := Put(m, Alone(b, p[0], m.count), None);
        PutIsLive(b, m, Alone(b, p[0], m.count), None);
        FeedConcat(b, m0, p[1..], rest);
        FeedingIsLexing(b, m0, p[1..] + rest);
        assert [] + (p[1..] + rest) == p[1..] + rest;
      }
    }
  }

  lemma OntoSame(m: Lexer, p: seq<Press>, rest: Lexer)
    ensures Onto(m.(pending := p), rest) == Onto(m, rest)
  {
  }

  lemma PutIsLive(b: Bindings, m: Lexer, token: Token, count: Option<nat>)
    ensures Live(b, Put(m, token, count).pending, Put(m, token, count).count) && Put(m, token, count).pending == []
    ensures Put(m, token, count).count == count
  {
  }

  lemma LexOfLive(b: Bindings, m: Lexer)
    requires Live(b, m.pending, m.count)
    ensures m == Onto(m, Lex(b, m.pending, m.count))
  {
    hide Extends, Counts;
    if m.pending != [] {
      LiveReach(b, m.pending, [], m.count);
      assert m.pending + [] == m.pending;
    }
  }

  lemma CountStep(b: Bindings, m: Lexer, k: Press, rest: seq<Press>)
    requires m.pending == [] && Counts(k, m.count)
    ensures var m' := FeedKey(b, m, k);
            && m'.pending == [] && Live(b, m'.pending, m'.count)
            && Onto(m', Lex(b, m'.pending + rest, m'.count)) == Onto(m, Lex(b, m.pending + [k] + rest, m.count))
  {
    hide Extends, Reach, AddDigit;
    assert [] + rest == rest && [] + [k] + rest == [k] + rest && ([k] + rest)[1..] == rest;
    var count := Some(AddDigit(m.count, k.value));
    OntoPut(m, Counted(k), [], count, Lex(b, rest, count));
  }

  lemma MatchStep(b: Bindings, m: Lexer, k: Press, rest: seq<Press>)
    requires Live(b, m.pending, m.count) && (m.pending == [] ==> !Counts(k, m.count)) && m.pending + [k] in b.multi
    ensures var m' := FeedKey(b, m, k);
            && m'.pending == [] && Live(b, m'.pending, m'.count)
            && Onto(m', Lex(b, m'.pending + rest, m'.count)) == Onto(m, Lex(b, m.pending + [k] + rest, m.count))
  {
    hide Extends, Counts, Whole;
    var p := m.pending + [k];
    var s := p + rest;
    if m.pending != [] {
      LiveReach(b, m.pending, [k] + rest, m.count);
      assert m.pending + ([k] + rest) == s;
    }
    assert s[..|p|] == p && s[|p|..] == rest && [] + rest == rest;
    assert s[0] == p[0] && (m.pending != [] ==> p[0] == m.pending[0]);
    var token := Whole(b, p, m.count);
    var count := Left(token, m.count);
    OntoPut(m, token, [], count, Lex(b, rest, count));
  }

  lemma PendingStep(b: Bindings, m: Lexer, k: Press)
    requires (m.pending == [] ==> !Counts(k, m.count)) && m.pending + [k] !in b.multi && Extends(b, m.pending + [k])
    ensures FeedKey(b, m, k) == m.(pending := m.pending + [k])
  {
    hide Extends, Counts;
  }

  lemma AloneStep(b: Bindings, m: Lexer, k: Press, rest: seq<Press>)
    requires m.pending == [] && !Counts(k, m.count) && [k] !in b.multi && !Extends(b, [k])
    ensures var m' := FeedKey(b, m, k);
            && m'.pending == [] && Live(b, m'.pending, m'.count)
            && Onto(m', Lex(b, m'.pending + rest, m'.count)) == Onto(m, Lex(b, m.pending + [k] + rest, m.count))
  {
    hide Extends, Counts, Alone;
    assert [] + [k] == [k] && [] + rest == rest;
    var s := [k] + rest;
    assert s[..1] == [k] && s[1..] == rest;
    var token := Alone(b, k, m.count);
    var count := Left(token, m.count);
    OntoPut(m, token, [], count, Lex(b, rest, count));
  }

  lemma BrokenStep(b: Bindings, m: Lexer, k: Press, rest: seq<Press>)
    requires Live(b, m.pending, m.count) && m.pending != []
    requires m.pending + [k] !in b.multi && !Extends(b, m.pending + [k])
    ensures var p := m.pending + [k];
            var m0 := Put(m, Alone(b, p[0], m.count), None);
            && FeedKey(b, m, k) == FeedList(b, m0, p[1..])
            && Onto(m0, Lex(b, p[1..] + rest, None)) == Onto(m, Lex(b, p + rest, m.count))
  {
    hide Extends, Counts, Alone, FeedList;
    var p := m.pending + [k];
    var s := p + rest;
    LiveReach(b, m.pending, [k] + rest, m.count);
    assert m.pending + ([k] + rest) == s;
    assert s[..|p|] == p && s[1..] == p[1..] + rest && s[0] == m.pending[0];
    OntoPut(m, Alone(b, p[0], m.count), [], None, Lex(b, p[1..] + rest, None));
  }

  /** From scratch: key by key is all at once. */
  lemma IncrementalIsBatch(b: Bindings, keys: seq<Press>)
    ensures FeedList(b, Lexer([], None, []), keys) == Lex(b, keys, None)
  {
    hide FeedList, Lex;
    FeedingIsLexing(b, Lexer([], None, []), keys);
    assert [] + keys == keys;
    assert [] + Lex(b, keys, None).tokens == Lex(b, keys, None).tokens;
  }

  // --- No key is lost ---

  function KeysOfToken(token: Token): seq<Press> { if token.Acted? then token.keys else [token.key] }

  function KeysOf(tokens: seq<Token>): seq<Press> {
    if tokens == [] then [] else KeysOfToken(tokens[0]) + KeysOf(tokens[1..])
  }

  /** Every key comes out once and in order: in a count, in an action, as
      nothing, or still pending. */
  lemma {:induction false} NoKeyLost(b: Bindings, keys: seq<Press>, count: Option<nat>)
    ensures KeysOf(Lex(b, keys, count).tokens) + Lex(b, keys, count).pending == keys
    decreases |keys|
  {
    hide Extends, AddDigit, Left;
    if keys != [] {
      if Counts(keys[0], count) {
        var r := Lex(b, keys[1..], Some(AddDigit(count, keys[0].value)));
        NoKeyLost(b, keys[1..], Some(AddDigit(count, keys[0].value)));
        KeysOfCons(Counted(keys[0]), r.tokens);
        Reassemble([keys[0]], KeysOf(r.tokens), r.pending, keys, 1);
      } else {
        var n := Reach(b, keys, 1);
        if n <= |keys| && keys[..n] in b.multi {
          var token := Whole(b, keys[..n], count);
          var r := Lex(b, keys[n..], Left(token, count));
          NoKeyLost(b, keys[n..], Left(token, count));
          KeysOfCons(token, r.tokens);
          assert KeysOfToken(token) == keys[..n];
          Reassemble(keys[..n], KeysOf(r.tokens), r.pending, keys, n);
        } else if n <= |keys| {
          var token := Alone(b, keys[0], count);
          var after := if n == 1 then Left(token, count) else None;
          var r := Lex(b, keys[1..], after);
          NoKeyLost(b, keys[1..], after);
          KeysOfCons(token, r.tokens);
          Reassemble([keys[0]], KeysOf(r.tokens), r.pending, keys, 1);
        }
      }
    }
  }

  lemma KeysOfCons(token: Token, tokens: seq<Token>)
    ensures KeysOf([token] + tokens) == KeysOfToken(token) + KeysOf(tokens)
  {
    assert ([token] + tokens)[1..] == tokens;
  }

  lemma Reassemble(head: seq<Press>, mid: seq<Press>, pending: seq<Press>, keys: seq<Press>, n: nat)
    requires n <= |keys| && head == keys[..n] && mid + pending == keys[n..]
    ensures (head + mid) + pending == keys
  {
    assert (head + mid) + pending == head + (mid + pending);
  }

  // --- Counts ---

  /** The number a run of digits spells. */
  function Decimal(digits: seq<DigitValue>): nat {
    if digits == [] then 0 else Decimal(digits[..|digits| - 1]) * 10 + digits[|digits| - 1]
  }

  function DigitKeys(digits: seq<DigitValue>): seq<Press> {
    seq(|digits|, i requires 0 <= i < |digits| => Digit(digits[i]))
  }

  /** A run of digits that does not start with a zero is one count: its value,
      or the largest machine word if that is less. */
  lemma {:induction false} DigitRun(b: Bindings, digits: seq<DigitValue>, tokens: seq<Token>)
    requires digits != [] && digits[0] != 0
    ensures var m := FeedList(b, Lexer([], None, tokens), DigitKeys(digits));
            m.pending == [] && m.count == Some(Saturate(Decimal(digits)))
    decreases |digits|
  {
    hide Decimal, Extends;
    var init, d := digits[..|digits| - 1], digits[|digits| - 1];
    var start := Lexer([], None, tokens);
    assert DigitKeys(digits) == DigitKeys(init) + [Digit(d)];
    FeedConcat(b, start, DigitKeys(init), [Digit(d)]);
    var m := FeedList(b, start, DigitKeys(init));
    assert FeedList(b, m, [Digit(d)]) == FeedKey(b, m, Digit(d)) by { FeedOne(b, m, Digit(d)); }
    DecimalSnoc(digits);
    if init == [] {
      assert DigitKeys(init) == [];
      assert Decimal(init) == 0 by { DecimalEmpty(); }
    } else {
      DigitRun(b, init, tokens);
      SaturateOnce(Decimal(init), d);
    }
  }

  lemma FeedOne(b: Bindings, m: Lexer, k: Press)
    ensures FeedList(b, m, [k]) == FeedKey(b, m, k)
  {
    hide FeedKey;
    assert [k][1..] == [];
  }

  lemma DecimalSnoc(digits: seq<DigitValue>)
    requires digits != []
    ensures Decimal(digits) == Decimal(digits[..|digits| - 1]) * 10 + digits[|digits| - 1]
  {
  }

  lemma DecimalEmpty()
    ensures Decimal([]) == 0
  {
  }

  lemma SaturateOnce(v: nat, d: DigitValue)
    ensures Saturate(Saturate(Saturate(v) * 10) + d) == Saturate(v * 10 + d)
  {
  }
}
