// Announcements that match no submit: second sources of a turn, turns of
// others, and echoes of submits too old to be remembered.
module EchoSources {
  import opened Options
  import opened Whitespace
  import opened EchoModel

  /** Every submit makes a row under the current turn, whatever came before,
      and moves no turn. */
  lemma SubmitAlwaysInserts(s: Session, text: Text)
    ensures var r := Step(s, Submit(text));
            r.rows == s.rows + [User(CurrentTurn(s.turns), TrimSpace(text))] && r.turns == s.turns
  {
  }

  /** Only chunks. */
  predicate Streaming(evs: seq<Event>) { forall i :: 0 <= i < |evs| ==> evs[i].Chunk? }

  function Chunks(turn: nat, n: nat): seq<Row> { seq(n, i => Assistant(turn)) }

  lemma {:induction false} ChunksPass(s: Session, evs: seq<Event>)
    requires Streaming(evs)
    ensures Run(s, evs) == s.(rows := s.rows + Chunks(CurrentTurn(s.turns), |evs|))
    decreases |evs|
  {
    if evs == [] {
      assert s.rows + Chunks(CurrentTurn(s.turns), 0) == s.rows;
    } else {
      ChunksPass(Step(s, evs[0]), evs[1..]);
      assert [Assistant(CurrentTurn(s.turns))] + Chunks(CurrentTurn(s.turns), |evs| - 1)
             == Chunks(CurrentTurn(s.turns), |evs|);
    }
  }

  /** Live, an announcement that matches no submit makes one row; a second
      source of the same turn makes none, whatever was streamed in between; and
      once the turn has ended the same text makes a row again. */
  lemma ForeignTurns(s: Session, text: Text, between: seq<Event>, again: Text, ended: nat)
    requires !s.replaying && TrimSpace(text) !in s.rec.pending && s.rec.last != Some(TrimSpace(text))
    requires TrimSpace(again) == TrimSpace(text) && Streaming(between)
    ensures var row := User(CurrentTurn(s.turns), TrimSpace(text));
            var once := Run(s, [Echo(text)] + between);
            var twice := Run(once, [Echo(again)]);
            var next := Run(twice, [TurnEnded(ended), Echo(again)]);
            && once.rows == s.rows + [row] + Chunks(CurrentTurn(s.turns), |between|)
            && twice == once && once.turns == s.turns && once.rec.pending == s.rec.pending
            && next.rows == once.rows + [User(CurrentTurn(s.turns.(lastSeen := ended)), TrimSpace(text))]
  {
    hide TrimSpace, Run, Step, Chunks, Streaming;
    FirstSource(s, text);
    var r := Step(s, Echo(text));
    RunConcat(s, [Echo(text)], between);
    RunOne(s, Echo(text));
    ChunksPass(r, between);
    var once := Run(s, [Echo(text)] + between);
    RunOne(once, Echo(again));
    SecondSource(once, again);
    RunTwo(once, TurnEnded(ended), Echo(again));
    EndsTurn(once, ended);
    FirstSource(Step(once, TurnEnded(ended)), again);
  }

  lemma FirstSource(s: Session, text: Text)
    requires !s.replaying && TrimSpace(text) !in s.rec.pending && s.rec.last != Some(TrimSpace(text))
    ensures Step(s, Echo(text))
            == s.(rec := s.rec.(last := Some(TrimSpace(text))),
                  rows := s.rows + [User(CurrentTurn(s.turns), TrimSpace(text))])
  {
    hide TrimSpace;
  }

  lemma SecondSource(s: Session, text: Text)
    requires !s.replaying && TrimSpace(text) !in s.rec.pending && s.rec.last == Some(TrimSpace(text))
    ensures Step(s, Echo(text)) == s
  {
    hide TrimSpace;
  }

  lemma EndsTurn(s: Session, ended: nat)
    ensures Step(s, TurnEnded(ended)) == s.(turns := s.turns.(lastSeen := ended), rec := s.rec.(last := None))
  {
  }

  lemma RunTwo(s: Session, a: Event, b: Event)
    ensures Run(s, [a, b]) == Step(Step(s, a), b)
  {
    hide Step;
    assert [a, b][1..] == [b];
    RunOne(Step(s, a), b);
  }

  /** In a replay every announcement is a turn of its own, equal texts included. */
  lemma ReplayedTurns(s: Session, text: Text)
    requires s.replaying && TrimSpace(text) !in s.rec.pending
    ensures var r := Step(s, Echo(text));
            var turn := if s.turns.replayTurn == 0 then s.turns.lastSeen + 1 else s.turns.replayTurn + 1;
            && r.rows == s.rows + [User(turn, TrimSpace(text))]
            && r.turns == s.turns.(replayTurn := turn) && r.rec.pending == s.rec.pending
  {
  }

  /** What is streamed belongs to the replayed turn while one is open, else to
      the turn after the last settled one. */
  lemma ChunksAreAttributed(s: Session)
    ensures Step(s, Chunk).rows
            == s.rows + [Assistant(if s.turns.replayTurn == 0 then s.turns.lastSeen + 1 else s.turns.replayTurn)]
    ensures Step(s, Chunk) == s.(rows := Step(s, Chunk).rows)
  {
  }

  // --- What is remembered of the submits ---

  /** The last `n` of a list. */
  function Latest(q: seq<Text>, n: nat): seq<Text> { if |q| <= n then q else q[|q| - n..] }

  /** The texts submitted. */
  function Texts(evs: seq<Event>): seq<Text> {
    if evs == [] then []
    else (if evs[0].Submit? then [TrimSpace(evs[0].text)] else []) + Texts(evs[1..])
  }

  /** However many submits there are, the last 64 whose echo is still to come
      are the ones remembered. */
  lemma {:induction false} LatestAreRemembered(s: Session, evs: seq<Event>)
    requires |s.rec.pending| <= 64 && forall i :: 0 <= i < |evs| ==> !evs[i].Echo?
    ensures Run(s, evs).rec.pending == Latest(s.rec.pending + Texts(evs), 64)
    decreases |evs|
  {
    hide TrimSpace;
    if evs == [] {
      assert s.rec.pending + [] == s.rec.pending;
    } else {
      var t := Step(s, evs[0]);
      LatestAreRemembered(t, evs[1..]);
      var rest := Texts(evs[1..]);
      if evs[0].Submit? {
        var x := TrimSpace(evs[0].text);
        assert t.rec.pending == Latest(s.rec.pending + [x], 64);
        LatestOfLatest(s.rec.pending, x, rest);
      } else {
        assert [] + rest == rest;
      }
    }
  }

  lemma LatestOfLatest(q: seq<Text>, x: Text, rest: seq<Text>)
    requires |q| <= 64
    ensures Latest(Latest(q + [x], 64) + rest, 64) == Latest(q + ([x] + rest), 64)
  {
    assert q + ([x] + rest) == (q + [x]) + rest;
  }

  /** The echo of a remembered submit makes no row and uses one of its kind up. */
  lemma RememberedEcho(s: Session, text: Text)
    requires TrimSpace(text) in s.rec.pending
    ensures var r := Step(s, Echo(text));
            && r.rows == s.rows && r.turns == s.turns && r.replaying == s.replaying
            && multiset(r.rec.pending) == multiset(s.rec.pending) - multiset{TrimSpace(text)}
  {
    WithoutIsMinus(s.rec.pending, TrimSpace(text));
  }
}
