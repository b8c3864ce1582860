// Which announcements of a user turn are inserted into the transcript, and
// under which turn number.
module EchoModel {
  import opened Options
  import opened Whitespace

  type Text = seq<char>

  const MAX_PENDING_ECHOES: nat := 64

  datatype Origin = LocalSubmit | FromStream

  datatype Action = Insert(advance: bool) | Skip

  /** Submitted texts whose echo is awaited, and the last text inserted. */
  datatype Reconciler = Reconciler(pending: seq<Text>, last: Option<Text>)

  function IndexIn(q: seq<Text>, x: Text): nat {
    if q == [] || q[0] == x then 0 else 1 + IndexIn(q[1..], x)
  }

  /** Remove the first occurrence. */
  function Without(q: seq<Text>, x: Text): seq<Text> {
    if q == [] then [] else if q[0] == x then q[1..] else [q[0]] + Without(q[1..], x)
  }

  function Enqueue(q: seq<Text>, x: Text): seq<Text> {
    (if |q| >= MAX_PENDING_ECHOES then q[1..] else q) + [x]
  }

  function Reconcile(r: Reconciler, origin: Origin, text: Text, replaying: bool): (Reconciler, Action) {
    var x := TrimSpace(text);
    match origin
    case LocalSubmit => (Reconciler(Enqueue(r.pending, x), Some(x)), Insert(false))
    case FromStream =>
      if x in r.pending then (Reconciler(Without(r.pending, x), Some(x)), Skip)
      else if !replaying && r.last == Some(x) then (r, Skip)
      else (r.(last := Some(x)), Insert(replaying))
  }

  /** Turn attribution: settled live turns, and the replay cursor (0 outside a replay). */
  datatype Attribution = Attribution(lastSeen: nat, replayTurn: nat)

  function CurrentTurn(t: Attribution): nat { if t.replayTurn > 0 then t.replayTurn else t.lastSeen + 1 }

  function AdvanceBoundary(t: Attribution): Attribution {
    t.(replayTurn := if t.replayTurn == 0 then t.lastSeen + 1 else t.replayTurn + 1)
  }

  function FinishReplay(t: Attribution): Attribution {
    Attribution(if t.replayTurn >= t.lastSeen then t.replayTurn else t.lastSeen, 0)
  }

  // --- The session that drives both ---

  datatype Row = User(k: nat, text: Text) | Assistant(k: nat)

  datatype Event =
    | Submit(text: Text)
    | Echo(text: Text)
    | Chunk
    | TurnEnded(count: nat)
    | ReplayComplete

  datatype Session = Session(rec: Reconciler, turns: Attribution, replaying: bool, rows: seq<Row>)

  function Announce(s: Session, origin: Origin, text: Text): Session {
    var (rec, action) := Reconcile(s.rec, origin, text, s.replaying);
    match action
    case Skip => s.(rec := rec)
    case Insert(advance) =>
      var turns := if advance then AdvanceBoundary(s.turns) else s.turns;
      Session(rec, turns, s.replaying, s.rows + [User(CurrentTurn(turns), TrimSpace(text))])
  }

  function Step(s: Session, ev: Event): Session {
    match ev
    case Submit(text) => Announce(s, LocalSubmit, text)
    case Echo(text) => Announce(s, FromStream, text)
    case Chunk => s.(rows := s.rows + [Assistant(CurrentTurn(s.turns))])
    case TurnEnded(count) => s.(turns := s.turns.(lastSeen := count), rec := s.rec.(last := None))
    case ReplayComplete => s.(turns := FinishReplay(s.turns), replaying := false, rec := s.rec.(last := None))
  }

  function Run(s: Session, evs: seq<Event>): Session
    decreases |evs|
  {
    if evs == [] then s else Run(Step(s, evs[0]), evs[1..])
  }

  // --- Live runs ---

  /** Every echo matches an earlier submit not matched yet, and at most
      MAX_PENDING_ECHOES submits await theirs; `out` is what is outstanding. */
  predicate Matched(evs: seq<Event>, out: multiset<Text>)
    decreases |evs|
  {
    evs == [] ||
    match evs[0]
    case Submit(text) => |out| < MAX_PENDING_ECHOES && Matched(evs[1..], out + multiset{TrimSpace(text)})
    case Echo(text) => TrimSpace(text) in out && Matched(evs[1..], out - multiset{TrimSpace(text)})
    case ReplayComplete => false
    case _ => Matched(evs[1..], out)
  }

  /** The transcript if there were no echoes: each submit and each chunk in
      order, under the turn after the last settled one. */
  function Rows(evs: seq<Event>, settled: nat): seq<Row>
    decreases |evs|
  {
    if evs == [] then []
    else
      match evs[0]
      case Submit(text) => [User(settled + 1, TrimSpace(text))] + Rows(evs[1..], settled)
      case Chunk => [Assistant(settled + 1)] + Rows(evs[1..], settled)
      case TurnEnded(count) => Rows(evs[1..], count)
      case _ => Rows(evs[1..], settled)
  }

  lemma {:induction false} WithoutIsMinus(q: seq<Text>, x: Text)
    requires x in q
    ensures multiset(Without(q, x)) == multiset(q) - multiset{x}
  {
    if q[0] == x {
      assert q == [x] + q[1..];
    } else {
      WithoutIsMinus(q[1..], x);
      assert q == [q[0]] + q[1..];
    }
  }

  lemma MultisetSize(q: seq<Text>)
    ensures |multiset(q)| == |q|
  {
  }

  lemma EnqueueIsPlus(q: seq<Text>, x: Text)
    requires |q| < MAX_PENDING_ECHOES
    ensures multiset(Enqueue(q, x)) == multiset(q) + multiset{x}
  {
  }

  /** Over any live run the transcript is the one without echoes: exactly the
      submits are inserted, whatever the echoes are interleaved with, and
      replay mode is never entered. */
  lemma {:induction false} EchoesAddNothing(s: Session, evs: seq<Event>)
    requires !s.replaying && s.turns.replayTurn == 0
    requires Matched(evs, multiset(s.rec.pending))
    ensures var r := Run(s, evs);
            r.rows == s.rows + Rows(evs, s.turns.lastSeen) && r.turns.replayTurn == 0 && !r.replaying
    decreases |evs|
  {
    hide TrimSpace, Without, Enqueue;
    if evs != [] {
      var t := Step(s, evs[0]);
      MultisetSize(s.rec.pending);
      match evs[0] {
        case Submit(text) => EnqueueIsPlus(s.rec.pending, TrimSpace(text));
        case Echo(text) => WithoutIsMinus(s.rec.pending, TrimSpace(text));
        case _ =>
      }
      EchoesAddNothing(t, evs[1..]);
    } else {
      assert s.rows + [] == s.rows;
    }
  }

  /** Echoes may move anywhere after their submit: two live runs that differ
      only in where echoes stand give the same transcript. */
  lemma OrderDoesNotMatter(s: Session, a: seq<Event>, b: seq<Event>)
    requires !s.replaying && s.turns.replayTurn == 0
    requires Matched(a, multiset(s.rec.pending)) && Matched(b, multiset(s.rec.pending))
    requires NoEchoes(a) == NoEchoes(b)
    ensures Run(s, a).rows == Run(s, b).rows
  {
    hide Run, Rows, Matched, NoEchoes;
    EchoesAddNothing(s, a);
    EchoesAddNothing(s, b);
    RowsIgnoreEchoes(a, s.turns.lastSeen);
    RowsIgnoreEchoes(b, s.turns.lastSeen);
  }

  function NoEchoes(evs: seq<Event>): seq<Event> {
    if evs == [] then [] else (if evs[0].Echo? then [] else [evs[0]]) + NoEchoes(evs[1..])
  }

  lemma {:induction false} RowsIgnoreEchoes(evs: seq<Event>, settled: nat)
    ensures Rows(NoEchoes(evs), settled) == Rows(evs, settled)
    decreases |evs|
  {
    if evs != [] {
      var rest := NoEchoes(evs[1..]);
      assert [] + rest == rest;
      assert !evs[0].Echo? ==> ([evs[0]] + rest)[1..] == rest && ([evs[0]] + rest)[0] == evs[0];
      RowsIgnoreEchoes(evs[1..], if evs[0].TurnEnded? then evs[0].count else settled);
    }
  }

  // --- Replay, then live turns ---

  /** The turn numbers of the user rows. */
  function UserTurns(rows: seq<Row>): seq<nat> {
    if rows == [] then []
    else UserTurns(rows[..|rows| - 1]) + if rows[|rows| - 1].User? then [rows[|rows| - 1].k] else []
  }

  /** `from + 1, from + 2, ..., from + n`. */
  function Upto(from: nat, n: nat): seq<nat> {
    seq(n, i => from + 1 + i)
  }

  predicate Replayed(evs: seq<Event>) {
    forall i :: 0 <= i < |evs| ==> evs[i].Echo? || evs[i].Chunk?
  }

  function EchoCount(evs: seq<Event>): nat {
    if evs == [] then 0 else (if evs[0].Echo? then 1 else 0) + EchoCount(evs[1..])
  }

  lemma UserTurnsSnoc(rows: seq<Row>, row: Row)
    ensures UserTurns(rows + [row]) == UserTurns(rows) + if row.User? then [row.k] else []
  {
    assert (rows + [row])[..|rows|] == rows;
  }

  lemma {:induction false} UserTurnsConcat(a: seq<Row>, b: seq<Row>)
    ensures UserTurns(a + b) == UserTurns(a) + UserTurns(b)
    decreases |b|
  {
    if b == [] {
      assert a + b == a;
    } else {
      var front, last := b[..|b| - 1], b[|b| - 1];
      assert a + b == (a + front) + [last];
      UserTurnsConcat(a, front);
      UserTurnsSnoc(a + front, last);
    }
  }

  /** A replay inserts every message, each under the next turn. */
  lemma {:induction false} ReplayNumbers(s: Session, evs: seq<Event>, n: nat)
    requires s.replaying && s.rec.pending == [] && s.turns == Attribution(0, n) && Replayed(evs)
    requires UserTurns(s.rows) == Upto(0, n)
    ensures var r := Run(s, evs);
            && UserTurns(r.rows) == Upto(0, n + EchoCount(evs)) && r.turns == Attribution(0, n + EchoCount(evs))
            && r.rec.pending == [] && r.replaying
    decreases |evs|
  {
    hide TrimSpace, Without, Enqueue, UserTurns;
    if evs != [] {
      var t := Step(s, evs[0]);
      UserTurnsSnoc(s.rows, t.rows[|s.rows|]);
      ReplayNumbers(t, evs[1..], if evs[0].Echo? then n + 1 else n);
    }
  }

  /** Live turns, each submitted once and then settled with the next count. */
  predicate Turns(evs: seq<Event>, settled: nat, begun: bool)
    decreases |evs|
  {
    if evs == [] then true
    else
      match evs[0]
      case Submit(_) => !begun && Turns(evs[1..], settled, true)
      case TurnEnded(count) => begun && count == settled + 1 && Turns(evs[1..], count, false)
      case ReplayComplete => false
      case _ => Turns(evs[1..], settled, begun)
  }

  function SubmitCount(evs: seq<Event>): nat {
    if evs == [] then 0 else (if evs[0].Submit? then 1 else 0) + SubmitCount(evs[1..])
  }

  lemma {:induction false} LiveNumbers(evs: seq<Event>, settled: nat, begun: bool)
    requires Turns(evs, settled, begun)
    ensures UserTurns(Rows(evs, settled)) == Upto(if begun then settled + 1 else settled, SubmitCount(evs))
    decreases |evs|
  {
    hide TrimSpace, UserTurns;
    if evs == [] {
      assert UserTurns([]) == [] by { NoRows(); }
    } else {
      var rest := evs[1..];
      match evs[0] {
        case Submit(text) =>
          LiveNumbers(rest, settled, true);
          UserTurnsConcat([User(settled + 1, TrimSpace(text))], Rows(rest, settled));
          OneUser(User(settled + 1, TrimSpace(text)));
        case Chunk =>
          LiveNumbers(rest, settled, begun);
          UserTurnsConcat([Assistant(settled + 1)], Rows(rest, settled));
          OneUser(Assistant(settled + 1));
        case TurnEnded(count) => LiveNumbers(rest, count, false);
        case Echo(_) => LiveNumbers(rest, settled, begun);
        case ReplayComplete =>
      }
    }
  }

  lemma NoRows()
    ensures UserTurns([]) == []
  {
  }

  lemma OneUser(row: Row)
    ensures UserTurns([row]) == if row.User? then [row.k] else []
  {
    assert [] + [row] == [row];
    UserTurnsSnoc([], row);
  }

  /** A direct replay of n user messages, then m live turns with their echoes,
      numbers them 1..n, n+1..n+m. */
  lemma ReplayThenLive(replay: seq<Event>, live: seq<Event>)
    requires Replayed(replay) && Matched(live, multiset{}) && Turns(live, EchoCount(replay), false)
    ensures var start := Session(Reconciler([], None), Attribution(0, 0), true, []);
            var n, m := EchoCount(replay), SubmitCount(live);
            UserTurns(Run(Run(start, replay + [ReplayComplete]), live).rows) == Upto(0, n + m)
  {
    hide Matched, Turns, UserTurns, Rows, EchoCount, SubmitCount;
    var start := Session(Reconciler([], None), Attribution(0, 0), true, []);
    var n, m := EchoCount(replay), SubmitCount(live);
    NoRows();
    ReplayNumbers(start, replay, 0);
    RunConcat(start, replay, [ReplayComplete]);
    var r := Run(start, replay);
    var s := Step(r, ReplayComplete);
    RunOne(r, ReplayComplete);
    EchoesAddNothing(s, live);
    LiveNumbers(live, n, false);
    UserTurnsConcat(s.rows, Rows(live, n));
    assert Upto(0, n) + Upto(n, m) == Upto(0, n + m);
  }

  lemma RunOne(s: Session, ev: Event)
    ensures Run(s, [ev]) == Step(s, ev)
  {
    hide Step;
    assert [ev][1..] == [];
  }

  lemma {:induction false} RunConcat(s: Session, a: seq<Event>, b: seq<Event>)
    ensures Run(s, a + b) == Run(Run(s, a), b)
    decreases |a|
  {
    hide Step;
    if a == [] {
      assert a + b == b;
    } else {
      assert (a + b)[1..] == a[1..] + b && (a + b)[0] == a[0];
      RunConcat(Step(s, a[0]), a[1..], b);
    }
  }
}
