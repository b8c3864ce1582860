// The wire form of agent events: one object with a `kind` tag, read as an
// ordered list of entries so that records with a second `kind` still decode.
module Codec {
  import opened Options

  datatype Json =
    | Null | Bool(b: bool) | Num(n: int) | Str(s: string)
    | Arr(items: seq<Json>) | Obj(fields: map<string, Json>)

  type Object = map<string, Json>
  type Entries = seq<(string, Json)>

  type U64 = n: nat | n < 0x1_0000_0000_0000_0000

  // --- Payloads whose own encoding is foreign ---

  datatype ToolCall = ToolCall(id: nat)
  datatype ToolUpdate = ToolUpdate(id: nat)
  datatype Plan = Plan(id: nat)
  datatype Usage = Usage(id: nat)
  datatype ModelList = ModelList(id: nat)
  datatype CommandList = CommandList(id: nat)

  /** An encoder and the decoder that goes with it. */
  datatype Pair<!T> = Pair(enc: T -> Json, dec: Json -> Option<T>)

  datatype Wire = Wire(
    tool: Pair<ToolCall>,
    update: Pair<ToolUpdate>,
    plan: Pair<Plan>,
    usage: Pair<Usage>,
    models: Pair<ModelList>,
    commands: Pair<CommandList>)

  /** Foreign decoders undo their encoders; plans and usage are objects without
      a `kind` of their own. */
  ghost predicate Faithful(w: Wire) {
    && (forall x :: w.tool.dec(w.tool.enc(x)) == Some(x))
    && (forall x :: w.update.dec(w.update.enc(x)) == Some(x))
    && (forall x :: w.models.dec(w.models.enc(x)) == Some(x))
    && (forall x :: w.commands.dec(w.commands.enc(x)) == Some(x))
    && (forall x :: w.plan.enc(x).Obj? && "kind" !in w.plan.enc(x).fields && w.plan.dec(w.plan.enc(x)) == Some(x))
    && (forall x :: w.usage.enc(x).Obj? && "kind" !in w.usage.enc(x).fields && w.usage.dec(w.usage.enc(x)) == Some(x))
  }

  // --- Events ---

  datatype Role = Message | Thought
  datatype Level = Retry | Info
  datatype Outcome = Completed | Cancelled | MaxTokens | Refusal | Failed(msg: string) | ReplayEnd

  datatype Kind =
    | ChannelOpened(resumed: bool)
    | Chunk(text: string, role: Role)
    | ToolCallStarted(tool: ToolCall)
    | ToolCallUpdated(update: ToolUpdate)
    | PlanUpdated(plan: Plan)
    | ModeChanged(mode: string)
    | ModelChanged(model: string)
    | ModelsAvailable(current: string, models: ModelList)
    | AvailableCommands(commands: CommandList)
    | UsageUpdated(usage: Usage)
    | Notice(level: Level, msg: string)
    | UserMessage(message: string)
    | TurnEnded(outcome: Outcome)
    | CompactedSummary(throughTurn: U64, summary: string)
    | Unknown(tag: string, raw: Object)

  /** Tags of the vocabulary; any other tag is kept as it is. */
  datatype Tag =
    | OpenedTag | ChunkTag | StartedTag | UpdatedTag | PlanTag | ModeTag | ModelTag | ModelsTag | CommandsTag
    | UsageTag | NoticeTag | UserTag | EndedTag | CompactedTag
    | OtherTag(name: string)

  function ParseTag(s: string): Tag {
    if s == "channel_opened" then OpenedTag
    else if s == "chunk" then ChunkTag
    else if s == "tool_call_started" then StartedTag
    else if s == "tool_call_updated" then UpdatedTag
    else if s == "plan_updated" then PlanTag
    else if s == "mode_changed" then ModeTag
    else if s == "model_changed" then ModelTag
    else if s == "models_available" then ModelsTag
    else if s == "available_commands" then CommandsTag
    else if s == "usage_updated" then UsageTag
    else if s == "notice" then NoticeTag
    else if s == "user_message" then UserTag
    else if s == "turn_ended" then EndedTag
    else if s == "compacted_summary" then CompactedTag
    else OtherTag(s)
  }

  function TagName(t: Tag): string {
    match t
    case OpenedTag => "channel_opened"
    case ChunkTag => "chunk"
    case StartedTag => "tool_call_started"
    case UpdatedTag => "tool_call_updated"
    case PlanTag => "plan_updated"
    case ModeTag => "mode_changed"
    case ModelTag => "model_changed"
    case ModelsTag => "models_available"
    case CommandsTag => "available_commands"
    case UsageTag => "usage_updated"
    case NoticeTag => "notice"
    case UserTag => "user_message"
    case EndedTag => "turn_ended"
    case CompactedTag => "compacted_summary"
    case OtherTag(name) => name
  }

  lemma TagRoundTrip(t: Tag)
    requires !t.OtherTag?
    ensures ParseTag(TagName(t)) == t
  {
    hide ParseTag, TagName;
    if t.OpenedTag? || t.ChunkTag? || t.StartedTag? || t.UpdatedTag? || t.PlanTag? || t.ModeTag? {
      EarlyTags(t);
    } else {
      LateTags(t);
    }
  }

  lemma EarlyTags(t: Tag)
    requires t.OpenedTag? || t.ChunkTag? || t.StartedTag? || t.UpdatedTag? || t.PlanTag? || t.ModeTag?
    ensures ParseTag(TagName(t)) == t
  {
  }

  lemma LateTags(t: Tag)
    requires t.ModelTag? || t.ModelsTag? || t.CommandsTag? || t.UsageTag? || t.NoticeTag? || t.UserTag?
             || t.EndedTag? || t.CompactedTag?
    ensures ParseTag(TagName(t)) == t
  {
  }

  function KindTag(k: Kind): Tag {
    match k
    case ChannelOpened(_) => OpenedTag
    case Chunk(_, _) => ChunkTag
    case ToolCallStarted(_) => StartedTag
    case ToolCallUpdated(_) => UpdatedTag
    case PlanUpdated(_) => PlanTag
    case ModeChanged(_) => ModeTag
    case ModelChanged(_) => ModelTag
    case ModelsAvailable(_, _) => ModelsTag
    case AvailableCommands(_) => CommandsTag
    case UsageUpdated(_) => UsageTag
    case Notice(_, _) => NoticeTag
    case UserMessage(_) => UserTag
    case TurnEnded(_) => EndedTag
    case CompactedSummary(_, _) => CompactedTag
    case Unknown(tag, _) => OtherTag(tag)
  }

  function RoleName(r: Role): string { match r case Message => "message" case Thought => "thought" }

  function RoleFrom(j: Json): Option<Role> {
    if j == Str("message") then Some(Message) else if j == Str("thought") then Some(Thought) else None
  }

  function LevelName(l: Level): string { match l case Retry => "retry" case Info => "info" }

  function LevelFrom(j: Json): Option<Level> {
    if j == Str("retry") then Some(Retry) else if j == Str("info") then Some(Info) else None
  }

  /** A turn's outcome is an object tagged with `outcome`. */
  function OutcomeJson(o: Outcome): Json {
    match o
    case Completed => Obj(map["outcome" := Str("completed")])
    case Cancelled => Obj(map["outcome" := Str("cancelled")])
    case MaxTokens => Obj(map["outcome" := Str("max_tokens")])
    case Refusal => Obj(map["outcome" := Str("refusal")])
    case Failed(msg) => Obj(map["outcome" := Str("failed"), "msg" := Str(msg)])
    case ReplayEnd => Obj(map["outcome" := Str("replay_end")])
  }

  function OutcomeFrom(j: Json): Option<Outcome> {
    if !j.Obj? || "outcome" !in j.fields then None
    else
      var t := j.fields["outcome"];
      if t == Str("completed") then Some(Completed)
      else if t == Str("cancelled") then Some(Cancelled)
      else if t == Str("max_tokens") then Some(MaxTokens)
      else if t == Str("refusal") then Some(Refusal)
      else if t == Str("failed") then
        if Text(j.fields, "msg").Some? then Some(Failed(Text(j.fields, "msg").value)) else None
      else if t == Str("replay_end") then Some(ReplayEnd)
      else None
  }

  // --- Fields ---

  function Field(m: Object, key: string): Option<Json> { if key in m then Some(m[key]) else None }

  function Text(m: Object, key: string): Option<string> {
    if key in m && m[key].Str? then Some(m[key].s) else None
  }

  /** Decode a required field. */
  function Get<T>(m: Object, key: string, dec: Json -> Option<T>): Option<T> {
    if key in m then dec(m[key]) else None
  }

  /** What goes on the wire beside the tag. */
  function Fields(w: Wire, k: Kind): Object {
    match k
    case ChannelOpened(resumed) => map["resumed" := Bool(resumed)]
    case Chunk(text, role) => map["text" := Str(text), "role" := Str(RoleName(role))]
    case ToolCallStarted(tool) => map["tool_call" := w.tool.enc(tool)]
    case ToolCallUpdated(update) => map["tool_call_update" := w.update.enc(update)]
    case PlanUpdated(plan) => if w.plan.enc(plan).Obj? then w.plan.enc(plan).fields else map[]
    case ModeChanged(mode) => map["mode" := Str(mode)]
    case ModelChanged(model) => map["model" := Str(model)]
    case ModelsAvailable(current, models) => map["current" := Str(current), "options" := w.models.enc(models)]
    case AvailableCommands(commands) => map["commands" := w.commands.enc(commands)]
    case UsageUpdated(usage) => if w.usage.enc(usage).Obj? then w.usage.enc(usage).fields else map[]
    case Notice(level, msg) => map["level" := Str(LevelName(level)), "msg" := Str(msg)]
    case UserMessage(message) => map["text" := Str(message)]
    case TurnEnded(outcome) => map["outcome" := OutcomeJson(outcome)]
    case CompactedSummary(throughTurn, summary) => map["through_turn" := Num(throughTurn), "summary" := Str(summary)]
    case Unknown(_, raw) => raw - {"kind"}
  }

  function Map2<A, B, T>(a: Option<A>, b: Option<B>, f: (A, B) -> T): Option<T> {
    if a.Some? && b.Some? then Some(f(a.value, b.value)) else None
  }

  function Map1<A, T>(a: Option<A>, f: A -> T): Option<T> { if a.Some? then Some(f(a.value)) else None }

  function TurnFrom(j: Json): Option<U64> {
    if j.Num? && 0 <= j.n < 0x1_0000_0000_0000_0000 then Some(j.n) else None
  }

  function BoolFrom(j: Json): Option<bool> { if j.Bool? then Some(j.b) else None }

  /** Read a known kind from an object, by its tag; unrecognised fields are ignored. */
  function KnownFrom(w: Wire, tag: Tag, m: Object): Option<Kind> {
    match tag
    case OpenedTag => Map1(Get(m, "resumed", BoolFrom), r => ChannelOpened(r))
    case ChunkTag => Map2(Text(m, "text"), Get(m, "role", RoleFrom), (t, r) => Chunk(t, r))
    case StartedTag => Map1(Get(m, "tool_call", w.tool.dec), t => ToolCallStarted(t))
    case UpdatedTag => Map1(Get(m, "tool_call_update", w.update.dec), u => ToolCallUpdated(u))
    case PlanTag => Map1(w.plan.dec(Obj(m - {"kind"})), p => PlanUpdated(p))
    case ModeTag => Map1(Text(m, "mode"), t => ModeChanged(t))
    case ModelTag => Map1(Text(m, "model"), t => ModelChanged(t))
    case ModelsTag => Map2(Text(m, "current"), Get(m, "options", w.models.dec), (c, o) => ModelsAvailable(c, o))
    case CommandsTag => Map1(Get(m, "commands", w.commands.dec), c => AvailableCommands(c))
    case UsageTag => Map1(w.usage.dec(Obj(m - {"kind"})), u => UsageUpdated(u))
    case NoticeTag => Map2(Get(m, "level", LevelFrom), Text(m, "msg"), (l, t) => Notice(l, t))
    case UserTag => Map1(Text(m, "text"), t => UserMessage(t))
    case EndedTag => Map1(Get(m, "outcome", OutcomeFrom), o => TurnEnded(o))
    case CompactedTag =>
      Map2(Get(m, "through_turn", TurnFrom), Text(m, "summary"), (t, s) => CompactedSummary(t, s))
    case OtherTag(_) => None
  }

  // --- Entry lists ---

  /** The first entry under a key. */
  function First(es: Entries, key: string): Option<Json> {
    if es == [] then None else if es[0].0 == key then Some(es[0].1) else First(es[1..], key)
  }

  /** As an object: of duplicate keys the last wins. */
  function Collapse(es: Entries): Object {
    if es == [] then map[] else Collapse(es[..|es| - 1])[es[|es| - 1].0 := es[|es| - 1].1]
  }

  function DropFirstKind(es: Entries): Entries {
    if es == [] then [] else if es[0].0 == "kind" then es[1..] else [es[0]] + DropFirstKind(es[1..])
  }

  /** The event tag: the first `kind`, if it is a string. */
  function TagOf(es: Entries): string {
    var k := First(es, "kind");
    if k.Some? && k.value.Str? then k.value.s else ""
  }

  /** The first `kind` is there and is a string. */
  predicate StringKind(es: Entries) { First(es, "kind").Some? && First(es, "kind").value.Str? }

  /** A tool payload: nested under its key, or flat beside the event tag. */
  function ToolPayload<T>(es: Entries, key: string, dec: Json -> Option<T>): Option<T> {
    if First(es, key).Some? then dec(First(es, key).value) else dec(Obj(Collapse(DropFirstKind(es))))
  }

  /** Decode an object, whichever shape it was written in. */
  function Decode(w: Wire, es: Entries): Kind {
    var tag := TagOf(es);
    var t := ParseTag(tag);
    var tool := if t.StartedTag? then ToolPayload(es, "tool_call", w.tool.dec) else None;
    var update := if t.UpdatedTag? then ToolPayload(es, "tool_call_update", w.update.dec) else None;
    if tool.Some? then ToolCallStarted(tool.value)
    else if update.Some? then ToolCallUpdated(update.value)
    else
      var m := Collapse(es);
      var known := if Text(m, "kind").Some? then KnownFrom(w, ParseTag(Text(m, "kind").value), m) else None;
      if known.Some? then known.value else Unknown(tag, m)
  }

  /** `es` lists the object `m`, each key once, in some order. */
  ghost predicate Lists(es: Entries, m: Object) {
    && Collapse(es) == m
    && forall i, j :: 0 <= i < j < |es| ==> es[i].0 != es[j].0
  }

  /** `es` is a way to write `k`: its tag, then its fields. */
  ghost predicate Encodes(w: Wire, k: Kind, es: Entries) {
    && es != [] && es[0] == ("kind", Str(TagName(KindTag(k))))
    && Lists(es[1..], Fields(w, k))
  }

  lemma {:induction false} CollapseKeys(es: Entries, key: string)
    ensures key in Collapse(es) <==> exists i :: 0 <= i < |es| && es[i].0 == key
  {
    if es != [] {
      var front := es[..|es| - 1];
      CollapseKeys(front, key);
      if key in Collapse(es) && es[|es| - 1].0 != key {
        var i :| 0 <= i < |front| && front[i].0 == key;
        assert es[i].0 == key;
      }
    }
  }

  lemma {:induction false} CollapseCons(e: (string, Json), es: Entries)
    ensures Collapse([e] + es) == map[e.0 := e.1] + Collapse(es)
    decreases |es|
  {
    if es == [] {
      assert [e] + es == [e];
      assert [e][..0] == [];
    } else {
      var front := es[..|es| - 1];
      assert ([e] + es)[..|es|] == [e] + front;
      CollapseCons(e, front);
    }
  }

  lemma {:induction false} FirstIsCollapsed(es: Entries, key: string)
    requires forall i, j :: 0 <= i < j < |es| ==> es[i].0 != es[j].0
    ensures First(es, key) == Field(Collapse(es), key)
  {
    if es != [] {
      assert es == [es[0]] + es[1..];
      CollapseCons(es[0], es[1..]);
      FirstIsCollapsed(es[1..], key);
      CollapseKeys(es[1..], key);
    }
  }

  /** What a written event looks like to the decoder. */
  lemma EncodedShape(w: Wire, k: Kind, es: Entries, key: string)
    requires Encodes(w, k, es) && "kind" !in Fields(w, k)
    ensures TagOf(es) == TagName(KindTag(k))
    ensures Collapse(es) == Fields(w, k)["kind" := Str(TagName(KindTag(k)))]
    ensures DropFirstKind(es) == es[1..]
    ensures key != "kind" ==> First(es, key) == Field(Fields(w, k), key)
  {
    hide Fields, TagName, KindTag;
    assert es == [es[0]] + es[1..];
    CollapseCons(es[0], es[1..]);
    FirstIsCollapsed(es[1..], key);
  }

  // --- Decode after encode ---

  lemma FieldsHaveNoKind(w: Wire, k: Kind)
    requires Faithful(w)
    ensures "kind" !in Fields(w, k)
  {
    match k
    case PlanUpdated(plan) => assert "kind" !in w.plan.enc(plan).fields;
    case UsageUpdated(usage) => assert "kind" !in w.usage.enc(usage).fields;
    case _ =>
  }

  lemma OutcomeRoundTrip(o: Outcome)
    ensures OutcomeFrom(OutcomeJson(o)) == Some(o)
  {
  }

  lemma NamesRoundTrip(r: Role, l: Level)
    ensures RoleFrom(Str(RoleName(r))) == Some(r) && LevelFrom(Str(LevelName(l))) == Some(l)
  {
  }

  /** A known kind is read back from its fields, the tag among them. */
  lemma FieldsRoundTrip(w: Wire, k: Kind, m: Object)
    requires Faithful(w) && !k.Unknown?
    requires "kind" in m && m - {"kind"} == Fields(w, k)
    ensures KnownFrom(w, KindTag(k), m) == Some(k)
  {
    hide KnownFrom, Fields, KindTag;
    if k.PlanUpdated? || k.UsageUpdated? {
      Flattened(w, k, m);
    } else if k.Chunk? || k.ModelsAvailable? || k.Notice? || k.CompactedSummary? {
      TwoFields(w, k, m);
    } else {
      OneField(w, k, m);
    }
  }

  lemma OneField(w: Wire, k: Kind, m: Object)
    requires Faithful(w) && "kind" in m && m - {"kind"} == Fields(w, k)
    requires k.ChannelOpened? || k.ToolCallStarted? || k.ToolCallUpdated? || k.ModeChanged? || k.ModelChanged?
             || k.AvailableCommands? || k.UserMessage? || k.TurnEnded?
    ensures KnownFrom(w, KindTag(k), m) == Some(k)
  {
    hide OutcomeFrom, OutcomeJson;
    var f := m - {"kind"};
    assert forall key :: key in f ==> key in m && m[key] == f[key];
    if k.TurnEnded? {
      OutcomeRoundTrip(k.outcome);
    }
  }

  lemma Lookup(m: Object, a: string, x: Json, b: string, y: Json)
    requires m - {"kind"} == map[a := x, b := y] && a != b
    ensures a in m && m[a] == x && b in m && m[b] == y
  {
    var f := m - {"kind"};
    assert a in f && b in f;
    assert forall key :: key in f ==> key in m && m[key] == f[key];
  }

  lemma TwoFields(w: Wire, k: Kind, m: Object)
    requires Faithful(w) && "kind" in m && m - {"kind"} == Fields(w, k)
    requires k.Chunk? || k.ModelsAvailable? || k.Notice? || k.CompactedSummary?
    ensures KnownFrom(w, KindTag(k), m) == Some(k)
  {
    hide RoleFrom, LevelFrom, RoleName, LevelName;
    match k
    case Chunk(text, role) =>
      Lookup(m, "text", Str(text), "role", Str(RoleName(role)));
      NamesRoundTrip(role, Info);
    case ModelsAvailable(current, models) => Lookup(m, "current", Str(current), "options", w.models.enc(models));
    case Notice(level, msg) =>
      Lookup(m, "level", Str(LevelName(level)), "msg", Str(msg));
      NamesRoundTrip(Message, level);
    case CompactedSummary(turn, summary) => Lookup(m, "through_turn", Num(turn), "summary", Str(summary));
  }

  lemma Flattened(w: Wire, k: Kind, m: Object)
    requires Faithful(w) && "kind" in m && m - {"kind"} == Fields(w, k)
    requires k.PlanUpdated? || k.UsageUpdated?
    ensures KnownFrom(w, KindTag(k), m) == Some(k)
  {
  }

  /** Decoding what was encoded gives it back, for every known kind and every
      order of the fields. */
  lemma DecodeAfterEncode(w: Wire, k: Kind, es: Entries)
    requires Faithful(w) && !k.Unknown? && Encodes(w, k, es)
    ensures Decode(w, es) == k
  {
    hide Fields, TagName, ParseTag, KnownFrom, Collapse, First, DropFirstKind, Lists;
    FieldsHaveNoKind(w, k);
    EncodedShape(w, k, es, "tool_call");
    EncodedShape(w, k, es, "tool_call_update");
    TagRoundTrip(KindTag(k));
    var m := Collapse(es);
    assert m - {"kind"} == Fields(w, k);
    FieldsRoundTrip(w, k, m);
    ToolFields(w, k);
  }

  lemma ToolFields(w: Wire, k: Kind)
    ensures k.ToolCallStarted? ==> Field(Fields(w, k), "tool_call") == Some(w.tool.enc(k.tool))
    ensures k.ToolCallUpdated? ==> Field(Fields(w, k), "tool_call_update") == Some(w.update.enc(k.update))
  {
  }

  // --- Encode after decode ---

  function KindCount(es: Entries): nat {
    if es == [] then 0 else (if es[0].0 == "kind" then 1 else 0) + KindCount(es[1..])
  }

  lemma {:induction false} NoKindLeft(es: Entries)
    requires KindCount(es) == 0
    ensures "kind" !in Collapse(es) && First(es, "kind") == None
  {
    if es != [] {
      assert es == [es[0]] + es[1..];
      CollapseCons(es[0], es[1..]);
      NoKindLeft(es[1..]);
    }
  }

  lemma FirstOfCons(e: (string, Json), es: Entries)
    ensures First([e] + es, "kind") == if e.0 == "kind" then Some(e.1) else First(es, "kind")
    ensures DropFirstKind([e] + es) == if e.0 == "kind" then es else [e] + DropFirstKind(es)
  {
    assert ([e] + es)[1..] == es;
  }

  lemma FirstOfRest(es: Entries)
    requires es != []
    ensures First(es, "kind") == if es[0].0 == "kind" then Some(es[0].1) else First(es[1..], "kind")
    ensures DropFirstKind(es) == if es[0].0 == "kind" then es[1..] else [es[0]] + DropFirstKind(es[1..])
    ensures Collapse(es) == map[es[0].0 := es[0].1] + Collapse(es[1..])
  {
    hide Collapse;
    assert es == [es[0]] + es[1..];
    CollapseCons(es[0], es[1..]);
  }

  /** With one `kind`, dropping it from the list drops it from the object. */
  lemma {:induction false} DropOnlyKind(es: Entries)
    requires KindCount(es) == 1
    ensures First(es, "kind").Some? && First(es, "kind") == Field(Collapse(es), "kind")
    ensures Collapse(DropFirstKind(es)) == Collapse(es) - {"kind"}
  {
    hide Collapse, First, DropFirstKind;
    var rest := es[1..];
    FirstOfRest(es);
    if es[0].0 == "kind" {
      NoKindLeft(rest);
    } else {
      DropOnlyKind(rest);
      CollapseCons(es[0], DropFirstKind(rest));
    }
  }

  lemma {:induction false} FirstInCollapse(es: Entries, key: string)
    ensures First(es, key).Some? <==> key in Collapse(es)
  {
    if es != [] {
      assert es == [es[0]] + es[1..];
      CollapseCons(es[0], es[1..]);
      FirstInCollapse(es[1..], key);
    }
  }

  /** An event the decoder did not recognise is written and read back as it was. */
  lemma UnknownIsStable(w: Wire, es: Entries, again: Entries)
    requires KindCount(es) == 1 && StringKind(es) && Decode(w, es).Unknown?
    requires Encodes(w, Decode(w, es), again)
    ensures Decode(w, again) == Decode(w, es)
  {
    hide Fields, ParseTag, Collapse, First, DropFirstKind, Lists, KindCount;
    var k, m := Decode(w, es), Collapse(es);
    DropOnlyKind(es);
    UnknownFields(w, k.tag, m);
    EncodedShape(w, k, again, "tool_call");
    EncodedShape(w, k, again, "tool_call_update");
    FirstInCollapse(es, "tool_call");
    FirstInCollapse(es, "tool_call_update");
    assert (m - {"kind"})["kind" := Str(k.tag)] == m;
    assert TagOf(again) == k.tag && Collapse(again) == m;
    ListedRest(w, k, again);
    assert Collapse(DropFirstKind(again)) == m - {"kind"};
    KindKeys(m);
    if "tool_call" !in m {
      assert First(again, "tool_call") == None;
    }
  }

  lemma UnknownFields(w: Wire, tag: string, m: Object)
    ensures Fields(w, Unknown(tag, m)) == m - {"kind"} && "kind" !in Fields(w, Unknown(tag, m))
  {
  }

  lemma ListedRest(w: Wire, k: Kind, es: Entries)
    requires Encodes(w, k, es)
    ensures Collapse(es[1..]) == Fields(w, k)
  {
    hide Fields, TagName, KindTag, Collapse;
  }

  lemma KindKeys(m: Object)
    ensures Field(m - {"kind"}, "tool_call") == Field(m, "tool_call")
    ensures Field(m - {"kind"}, "tool_call_update") == Field(m, "tool_call_update")
  {
  }

  /** For an object with exactly one `kind`, writing and reading again what was
      read changes nothing if and only if that `kind` is a string. */
  lemma DecodeEncodeDecode(w: Wire, es: Entries, again: Entries)
    requires Faithful(w) && KindCount(es) == 1 && Encodes(w, Decode(w, es), again)
    ensures Decode(w, again) == Decode(w, es) <==> StringKind(es)
  {
    hide Fields, ParseTag, Collapse, First, DropFirstKind, Lists, KindCount, Encodes, Decode;
    DropOnlyKind(es);
    if !Decode(w, es).Unknown? {
      DecodeAfterEncode(w, Decode(w, es), again);
      KnownHasTag(w, es);
    } else if StringKind(es) {
      UnknownIsStable(w, es, again);
    } else {
      OddTagChanges(w, es, again);
    }
  }

  /** Only a string tag leads to a known kind. */
  lemma KnownHasTag(w: Wire, es: Entries)
    requires KindCount(es) == 1 && !Decode(w, es).Unknown?
    ensures StringKind(es)
  {
    hide KnownFrom, Collapse, First, DropFirstKind, KindCount;
    DropOnlyKind(es);
    assert !ParseTag("").StartedTag? && !ParseTag("").UpdatedTag?;
  }

  lemma EmptyTagIsUnknown(w: Wire, m: Object)
    ensures ParseTag("") == OtherTag("") && KnownFrom(w, ParseTag(""), m) == None
  {
  }

  /** A `kind` that is not a string is replaced by the empty tag. */
  lemma OddTagChanges(w: Wire, es: Entries, again: Entries)
    requires KindCount(es) == 1 && !StringKind(es)
    requires Decode(w, es).Unknown? && Encodes(w, Decode(w, es), again)
    ensures Decode(w, again) != Decode(w, es)
  {
    hide Fields, KnownFrom, ParseTag, Collapse, First, DropFirstKind, KindCount, Lists;
    var k, m := Decode(w, es), Collapse(es);
    DropOnlyKind(es);
    UnknownFields(w, k.tag, m);
    EncodedShape(w, k, again, "tool_call");
    EmptyTagIsUnknown(w, Collapse(again));
    assert Collapse(again)["kind"] == Str("");
  }

  /** Such objects exist: a numeric `kind` is read as the empty tag and written
      back as the empty string. */
  lemma ANumericKind(w: Wire)
    requires Faithful(w)
    ensures var es, again := [("kind", Num(5))], [("kind", Str(""))];
            && KindCount(es) == 1 && !StringKind(es)
            && Decode(w, es) == Unknown("", map["kind" := Num(5)]) && Encodes(w, Decode(w, es), again)
            && Decode(w, again) != Decode(w, es)
  {
    var es: Entries, again: Entries := [("kind", Num(5))], [("kind", Str(""))];
    assert es[..0] == [] && es[1..] == [] && again[1..] == [] && Collapse([]) == map[];
    UnknownFields(w, "", map["kind" := Num(5)]);
    EmptyTagIsUnknown(w, Collapse(es));
    OddTagChanges(w, es, again);
  }

  // --- Records written before payloads were nested ---

  lemma {:induction false} KindFirst(pre: Entries, tail: Entries)
    requires KindCount(pre) == 0 && tail != [] && tail[0].0 == "kind"
    ensures First(pre + tail, "kind") == Some(tail[0].1) && DropFirstKind(pre + tail) == pre + tail[1..]
    decreases |pre|
  {
    hide First, DropFirstKind;
    if pre == [] {
      assert pre + tail == [tail[0]] + tail[1..];
      FirstOfCons(tail[0], tail[1..]);
      assert pre + tail[1..] == tail[1..];
    } else {
      assert pre + tail == [pre[0]] + (pre[1..] + tail);
      FirstOfCons(pre[0], pre[1..] + tail);
      KindFirst(pre[1..], tail);
      assert [pre[0]] + (pre[1..] + tail[1..]) == pre + tail[1..];
    }
  }

  lemma KindAfter(pre: Entries, v: Json, post: Entries)
    requires KindCount(pre) == 0
    ensures var es := pre + [("kind", v)] + post;
            First(es, "kind") == Some(v) && DropFirstKind(es) == pre + post
  {
    hide First, DropFirstKind, KindCount;
    var tail := [("kind", v)] + post;
    KindFirst(pre, tail);
    assert pre + [("kind", v)] + post == pre + tail && tail[1..] == post;
  }

  lemma NestedPair(tag: string, key: string, payload: Json)
    requires key != "kind"
    ensures var es := [("kind", Str(tag)), (key, payload)];
            TagOf(es) == tag && First(es, key) == Some(payload)
  {
    var es := [("kind", Str(tag)), (key, payload)];
    assert es[1..] == [(key, payload)];
  }

  /** A flat tool record, with or without a `kind` of the tool's own after the
      tag, decodes to the call that its nested form decodes to. */
  lemma LegacyStartIsNested(w: Wire, pre: Entries, post: Entries)
    requires KindCount(pre) == 0 && First(pre + [("kind", Str("tool_call_started"))] + post, "tool_call") == None
    requires w.tool.dec(Obj(Collapse(pre + post))).Some?
    ensures var flat := pre + [("kind", Str("tool_call_started"))] + post;
            var nested := [("kind", Str("tool_call_started")), ("tool_call", Obj(Collapse(pre + post)))];
            && Decode(w, flat) == Decode(w, nested)
            && Decode(w, flat) == ToolCallStarted(w.tool.dec(Obj(Collapse(pre + post))).value)
  {
    hide KnownFrom, Collapse, First, DropFirstKind, KindCount, TagName;
    KindAfter(pre, Str("tool_call_started"), post);
    NestedPair("tool_call_started", "tool_call", Obj(Collapse(pre + post)));
  }

  lemma LegacyUpdateIsNested(w: Wire, pre: Entries, post: Entries)
    requires KindCount(pre) == 0 && First(pre + [("kind", Str("tool_call_updated"))] + post, "tool_call_update") == None
    requires w.update.dec(Obj(Collapse(pre + post))).Some?
    ensures var flat := pre + [("kind", Str("tool_call_updated"))] + post;
            var nested := [("kind", Str("tool_call_updated")), ("tool_call_update", Obj(Collapse(pre + post)))];
            && Decode(w, flat) == Decode(w, nested)
            && Decode(w, flat) == ToolCallUpdated(w.update.dec(Obj(Collapse(pre + post))).value)
  {
    hide KnownFrom, Collapse, First, DropFirstKind, KindCount, TagName;
    KindAfter(pre, Str("tool_call_updated"), post);
    NestedPair("tool_call_updated", "tool_call_update", Obj(Collapse(pre + post)));
  }

  // --- The loops ---

  /** The entries but the first `kind`, as an object. */
  method FlatPayload(es: Entries) returns (m: Object)
    ensures m == Collapse(DropFirstKind(es))
  {
    m := map[];
    var i, dropped := 0, false;
    assert es[..0] == [];
    while i < |es|
      invariant i <= |es|
      invariant dropped <==> KindCount(es[..i]) > 0
      invariant m == Collapse(DropFirstKind(es[..i]))
    {
      DropSnoc(es[..i], es[i]);
      KindCountSnoc(es[..i], es[i]);
      assert es[..i + 1] == es[..i] + [es[i]];
      if es[i].0 == "kind" && !dropped {
        dropped := true;
      } else {
        m := m[es[i].0 := es[i].1];
      }
      i := i + 1;
    }
    assert es[..|es|] == es;
  }

  lemma {:induction false} KindCountSnoc(es: Entries, e: (string, Json))
    ensures KindCount(es + [e]) == KindCount(es) + if e.0 == "kind" then 1 else 0
  {
    if es == [] {
      assert es + [e] == [e] && [e][1..] == [];
    } else {
      assert (es + [e])[1..] == es[1..] + [e] && (es + [e])[0] == es[0];
      KindCountSnoc(es[1..], e);
    }
  }

  /** One more entry: it goes in, unless it is the first `kind`. */
  lemma {:induction false} DropSnoc(es: Entries, e: (string, Json))
    ensures Collapse(DropFirstKind(es + [e])) ==
              if e.0 == "kind" && KindCount(es) == 0 then Collapse(DropFirstKind(es))
              else Collapse(DropFirstKind(es))[e.0 := e.1]
  {
    hide Collapse;
    if es == [] {
      assert es + [e] == [e] && [e][1..] == [];
      CollapseSnoc([], e);
      assert [] + [e] == [e] && [e] + [] == [e];
    } else {
      var rest := es[1..];
      assert (es + [e])[1..] == rest + [e] && (es + [e])[0] == es[0];
      if es[0].0 == "kind" {
        CollapseSnoc(rest, e);
      } else {
        DropSnoc(rest, e);
        CollapseCons(es[0], DropFirstKind(rest + [e]));
        CollapseCons(es[0], DropFirstKind(rest));
      }
    }
  }

  /** The fields of an object as entries, skipping a `kind`. */
  method ListFields(m: Object) returns (es: Entries)
    ensures Lists(es, m - {"kind"})
  {
    es := [];
    var rest := m.Keys - {"kind"};
    while rest != {}
      invariant rest <= m.Keys - {"kind"}
      invariant Lists(es, m - {"kind"} - rest)
      decreases |rest|
    {
      var key :| key in rest;
      ListedKeys(es, m - {"kind"} - rest, key);
      assert m - {"kind"} - (rest - {key}) == (m - {"kind"} - rest)[key := m[key]];
      es := es + [(key, m[key])];
      rest := rest - {key};
    }
    assert m - {"kind"} - {} == m - {"kind"};
  }

  /** A key not listed yet may be listed next. */
  lemma ListedKeys(es: Entries, m: Object, key: string)
    requires Lists(es, m) && key !in m
    ensures forall v :: Lists(es + [(key, v)], m[key := v])
  {
    hide Collapse;
    CollapseKeys(es, key);
    forall v
      ensures Lists(es + [(key, v)], m[key := v])
    {
      CollapseSnoc(es, (key, v));
    }
  }

  lemma CollapseSnoc(es: Entries, e: (string, Json))
    ensures Collapse(es + [e]) == Collapse(es)[e.0 := e.1]
  {
    assert (es + [e])[..|es|] == es;
  }

  /** Write an event: the tag first, then its fields. */
  method Serialize(w: Wire, k: Kind) returns (es: Entries)
    requires Faithful(w)
    ensures Encodes(w, k, es)
  {
    FieldsHaveNoKind(w, k);
    var fields := ListFields(Fields(w, k));
    assert Fields(w, k) - {"kind"} == Fields(w, k);
    es := [("kind", Str(TagName(KindTag(k))))] + fields;
    assert es[1..] == fields;
  }
}
