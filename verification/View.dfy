// The editing commands of a view: which primitive actions each one issues, and
// where it leaves the caret.
module View {
  import opened Lines
  import opened Options
  import opened Splices
  import opened DocModel
  import opened Ranges
  import opened CoreModel
  import Documents

  datatype Caret = Caret(line: nat, col: nat)

  datatype Command =
    | BeginInsert
    | EndInsert
    | TypeChar(ch: char)
    | InsertStr(x: Text)
    | PasteStr(x: Text)
    | Backspace
    | DeleteBack(n: nat)
    | DeleteUnder(insertMode: bool)
    | ReplaceChar(ch: char)
    | DeleteLine
    | OpenBelow
    | OpenAbove
    | DeleteSelection(anchor: Caret)
    | ToggleChar(at: nat, ch: char)
    | History(dir: Dir)
    | MoveTo(to: Caret)

  /** The actions of a command and the caret after it. */
  datatype Act = Act(ps: seq<Prim>, caret: Caret)

  function CaretAt(t: Text, i: nat): Caret {
    var j := Min(i, |t|);
    Caret(LineOf(t, j), ColOf(t, j))
  }

  function CaretIndex(t: Text, v: Caret): nat { LineColToChar(t, v.line, v.col) }

  /** Wrap a body in an undo group, unless one is open already. */
  function Grouped(c: Core, v: Caret, body: seq<Prim>, after: Caret): Act {
    Act(if c.doc.pending.Some? then body
        else [PBegin(v.line, v.col)] + body + [PEnd(after.line, after.col)],
        after)
  }

  function TypeOne(c: Core, v: Caret, ch: char): Act {
    if CanInsertCharAt(c, v.line, v.col, ch)
    then Act([PInsert(v.line, v.col, [ch])], if ch == '\n' then Caret(v.line + 1, 0) else Caret(v.line, v.col + 1))
    else Act([], v)
  }

  /** Type the characters of `x` one after the other. */
  function TypeRun(c: Core, v: Caret, x: Text): Act
    decreases |x|
  {
    if x == [] then Act([], v)
    else
      var one := TypeOne(c, v, x[0]);
      var rest := TypeRun(DoAll(c, one.ps), one.caret, x[1..]);
      Act(one.ps + rest.ps, rest.caret)
  }

  /** Insert a run in bulk, character by character where the guard must decide each one. */
  function InsertRun(c: Core, v: Caret, x: Text): Act {
    if x == [] then Act([], v)
    else if v.line < c.lock || IsFrozen(c, v.line) then TypeRun(c, v, x)
    else
      var p := PTyped(v.line, v.col, x);
      Act([p], CaretAt(Do(c, p).doc.text, CaretIndex(c.doc.text, v) + |x|))
  }

  /** The guarded delete behind every deleting command. */
  function DeleteGuarded(c: Core, v: Caret, s: nat, e: nat): Act {
    if s >= e || !CanDeleteRange(c, s, e) then Act([], v)
    else Act([PDelete(s, e)], CaretAt(DeleteRange(c.doc, s, e).text, s))
  }

  /** The caret after `x` in normal mode: on the last character at the furthest. */
  function OnLastChar(t: Text, v: Caret): Caret {
    if v.col >= LineLen(t, v.line) && LineLen(t, v.line) > 0 then Caret(v.line, LineLen(t, v.line) - 1) else v
  }

  function ClampNormal(t: Text, v: Caret): Caret {
    Caret(v.line, Min(v.col, Sub(LineLen(t, v.line), 1)))
  }

  /** Text range of the selection from `anchor` to the caret; one character if empty. */
  function SelectionRange(t: Text, v: Caret, anchor: Caret): (nat, nat) {
    var forward := anchor.line < v.line || (anchor.line == v.line && anchor.col <= v.col);
    var s := CaretIndex(t, if forward then anchor else v);
    var e := CaretIndex(t, if forward then v else anchor);
    (s, if s == e && s < |t| then s + 1 else e)
  }

  function Perform(c: Core, v: Caret, cmd: Command): Act {
    var t := c.doc.text;
    match cmd
    case BeginInsert => Act([PBegin(v.line, v.col)], v)
    case EndInsert => Act([PEnd(v.line, v.col)], v)
    case TypeChar(ch) => TypeOne(c, v, ch)
    case InsertStr(x) => InsertRun(c, v, x)
    case PasteStr(x) =>
      if x == [] then Act([], v)
      else
        var grouped := Do(c, PBegin(v.line, v.col));
        var run := InsertRun(grouped, v, x);
        Grouped(c, v, run.ps, run.caret)
    case Backspace =>
      var i := CaretIndex(t, v);
      if i == 0 then Act([], v) else DeleteGuarded(c, v, i - 1, i)
    case DeleteBack(n) =>
      var col := Min(v.col, LineLen(t, v.line));
      var k := Min(n, col);
      var i := LineColToChar(t, v.line, col);
      if k == 0 || i < k then Act([], v) else DeleteGuarded(c, v, i - k, i)
    case DeleteUnder(insertMode) =>
      var i := CaretIndex(t, v);
      if i >= |t| || !CanDeleteRange(c, i, i + 1) then Act([], v)
      else
        var after := if insertMode then v else OnLastChar(DeleteRange(c.doc, i, i + 1).text, v);
        Grouped(c, v, [PDelete(i, i + 1)], after)
    case ReplaceChar(ch) =>
      var i := CaretIndex(t, v);
      if || v.col >= LineLen(t, v.line)
         || !CanDeleteRange(c, i, i + 1) || !CanInsertCharAt(c, v.line, v.col, ch)
      then Act([], v)
      else Grouped(c, v, [PDelete(i, i + 1), PInsert(v.line, v.col, [ch])], v)
    case DeleteLine =>
      (match Documents.LineDeleteRange(t, v.line)
       case None => Act([], v)
       case Some(r) =>
         if !CanDeleteRange(c, r.0, r.1) then Act([], v)
         else
           var u := DeleteRange(c.doc, r.0, r.1).text;
           Grouped(c, v, [PDelete(r.0, r.1)], Caret(Min(CaretAt(u, r.0).line, Breaks(u)), 0)))
    case OpenBelow =>
      var col := LineLen(t, v.line);
      if !CanInsertCharAt(c, v.line, col, '\n') then Act([], v)
      else Act((if c.doc.pending.Some? then [] else [PBegin(v.line, v.col)]) + [PInsert(v.line, col, ['\n'])],
               Caret(v.line + 1, 0))
    case OpenAbove =>
      if !CanInsertCharAt(c, v.line, 0, '\n') then Act([], v)
      else Act((if c.doc.pending.Some? then [] else [PBegin(v.line, v.col)]) + [PInsert(v.line, 0, ['\n'])],
               Caret(v.line, 0))
    case DeleteSelection(anchor) =>
      var r := SelectionRange(t, v, anchor);
      if r.0 >= r.1 || !CanDeleteRange(c, r.0, r.1) then Act([], v)
      else Grouped(c, v, [PDelete(r.0, r.1)], CaretAt(DeleteRange(c.doc, r.0, r.1).text, r.0))
    case ToggleChar(at, ch) =>
      if ch == '\n' || at >= |t| || t[at] == '\n' then Act([], v)
      else
        var p := CaretAt(t, at);
        if !CanDeleteRange(c, at, at + 1) || !CanInsertCharAt(c, p.line, p.col, ch) then Act([], v)
        else Act(Grouped(c, p, [PDelete(at, at + 1), PInsert(p.line, p.col, [ch])], p).ps, v)
    case History(dir) =>
      if Stack(c.doc, dir) == [] then Act([], v)
      else
        var back := HistoryCaret(c.doc, dir);
        var u := HistoryStep(c.doc, dir).text;
        Act([PStep(dir)], ClampNormal(u, Caret(Min(back.0, Breaks(u)), back.1)))
    case MoveTo(to) => Act([], to)
  }

  /** The substrate and the caret after a command. */
  function After(c: Core, v: Caret, cmd: Command): (Core, Caret) {
    var act := Perform(c, v, cmd);
    (DoAll(c, act.ps), act.caret)
  }

  function Run(c: Core, v: Caret, cmds: seq<Command>): (Core, Caret)
    decreases |cmds|
  {
    if cmds == [] then (c, v)
    else
      var act := Perform(c, v, cmds[0]);
      Run(DoAll(c, act.ps), act.caret, cmds[1..])
  }
}
