// The records themselves: every kind as it stands on the wire, key by key.
module WireForms {
  import opened Options
  import opened Codec

  lemma OneEntry(key: string, v: Json)
    ensures Collapse([(key, v)]) == map[key := v]
  {
    assert [(key, v)][..0] == [];
  }

  lemma TwoEntries(a: string, x: Json, b: string, y: Json)
    requires a != b
    ensures Lists([(a, x), (b, y)], map[a := x, b := y])
  {
    OneEntry(a, x);
    assert [(a, x), (b, y)][..1] == [(a, x)];
  }

  lemma OneFieldForm(w: Wire, k: Kind, tag: string, key: string, v: Json)
    requires Faithful(w) && !k.Unknown? && TagName(KindTag(k)) == tag && Fields(w, k) == map[key := v]
    ensures Decode(w, [("kind", Str(tag)), (key, v)]) == k
    ensures Encodes(w, k, [("kind", Str(tag)), (key, v)])
  {
    hide Decode, Fields, TagName, KindTag, Faithful;
    var es := [("kind", Str(tag)), (key, v)];
    OneEntry(key, v);
    assert es[1..] == [(key, v)];
    DecodeAfterEncode(w, k, es);
  }

  lemma TwoFieldForm(w: Wire, k: Kind, tag: string, a: string, x: Json, b: string, y: Json)
    requires Faithful(w) && !k.Unknown? && TagName(KindTag(k)) == tag && a != b
    requires Fields(w, k) == map[a := x, b := y]
    ensures Decode(w, [("kind", Str(tag)), (a, x), (b, y)]) == k
    ensures Encodes(w, k, [("kind", Str(tag)), (a, x), (b, y)])
  {
    hide Decode, Fields, TagName, KindTag, Faithful, Lists;
    var es := [("kind", Str(tag)), (a, x), (b, y)];
    TwoEntries(a, x, b, y);
    assert es[1..] == [(a, x), (b, y)];
    DecodeAfterEncode(w, k, es);
  }

  /** Turns: what a session says and does, as objects with their keys. */
  lemma TurnForms(w: Wire, text: string, resumed: bool)
    requires Faithful(w)
    ensures Decode(w, [("kind", Str("channel_opened")), ("resumed", Bool(resumed))]) == ChannelOpened(resumed)
    ensures Decode(w, [("kind", Str("chunk")), ("text", Str(text)), ("role", Str("message"))]) == Chunk(text, Message)
    ensures Decode(w, [("kind", Str("chunk")), ("text", Str(text)), ("role", Str("thought"))]) == Chunk(text, Thought)
    ensures Decode(w, [("kind", Str("user_message")), ("text", Str(text))]) == UserMessage(text)
  {
    hide Decode, Faithful, Encodes;
    OneFieldForm(w, ChannelOpened(resumed), "channel_opened", "resumed", Bool(resumed));
    TwoFieldForm(w, Chunk(text, Message), "chunk", "text", Str(text), "role", Str("message"));
    TwoFieldForm(w, Chunk(text, Thought), "chunk", "text", Str(text), "role", Str("thought"));
    OneFieldForm(w, UserMessage(text), "user_message", "text", Str(text));
  }

  /** What the session notes about itself. */
  lemma NoteForms(w: Wire, text: string, through: U64)
    requires Faithful(w)
    ensures Decode(w, [("kind", Str("notice")), ("level", Str("retry")), ("msg", Str(text))]) == Notice(Retry, text)
    ensures Decode(w, [("kind", Str("notice")), ("level", Str("info")), ("msg", Str(text))]) == Notice(Info, text)
    ensures Decode(w, [("kind", Str("compacted_summary")), ("through_turn", Num(through)), ("summary", Str(text))])
            == CompactedSummary(through, text)
  {
    hide Decode, Faithful, Encodes;
    TwoFieldForm(w, Notice(Retry, text), "notice", "level", Str("retry"), "msg", Str(text));
    TwoFieldForm(w, Notice(Info, text), "notice", "level", Str("info"), "msg", Str(text));
    TwoFieldForm(w, CompactedSummary(through, text), "compacted_summary",
                 "through_turn", Num(through), "summary", Str(text));
  }

  /** How a turn ended. */
  lemma OutcomeForms(w: Wire, text: string)
    requires Faithful(w)
    ensures forall name, o :: (name, o) in {("completed", Completed), ("cancelled", Cancelled),
              ("max_tokens", MaxTokens), ("refusal", Refusal), ("replay_end", ReplayEnd)} ==>
              Decode(w, [("kind", Str("turn_ended")), ("outcome", Obj(map["outcome" := Str(name)]))]) == TurnEnded(o)
    ensures Decode(w, [("kind", Str("turn_ended")),
                       ("outcome", Obj(map["outcome" := Str("failed"), "msg" := Str(text)]))])
            == TurnEnded(Failed(text))
  {
    hide Decode, Faithful, Encodes;
    forall name, o | (name, o) in {("completed", Completed), ("cancelled", Cancelled),
                                   ("max_tokens", MaxTokens), ("refusal", Refusal), ("replay_end", ReplayEnd)}
      ensures Decode(w, [("kind", Str("turn_ended")), ("outcome", Obj(map["outcome" := Str(name)]))]) == TurnEnded(o)
    {
      OneFieldForm(w, TurnEnded(o), "turn_ended", "outcome", Obj(map["outcome" := Str(name)]));
    }
    OneFieldForm(w, TurnEnded(Failed(text)), "turn_ended", "outcome",
                 Obj(map["outcome" := Str("failed"), "msg" := Str(text)]));
  }

  /** Settings and payloads encoded elsewhere. */
  lemma PayloadForms(w: Wire, text: string, tool: ToolCall, update: ToolUpdate, models: ModelList,
                     commands: CommandList)
    requires Faithful(w)
    ensures Decode(w, [("kind", Str("mode_changed")), ("mode", Str(text))]) == ModeChanged(text)
    ensures Decode(w, [("kind", Str("model_changed")), ("model", Str(text))]) == ModelChanged(text)
    ensures Decode(w, [("kind", Str("tool_call_started")), ("tool_call", w.tool.enc(tool))]) == ToolCallStarted(tool)
    ensures Decode(w, [("kind", Str("tool_call_updated")), ("tool_call_update", w.update.enc(update))])
            == ToolCallUpdated(update)
    ensures Decode(w, [("kind", Str("models_available")), ("current", Str(text)), ("options", w.models.enc(models))])
            == ModelsAvailable(text, models)
    ensures Decode(w, [("kind", Str("available_commands")), ("commands", w.commands.enc(commands))])
            == AvailableCommands(commands)
  {
    hide Decode, Faithful, Encodes;
    OneFieldForm(w, ModeChanged(text), "mode_changed", "mode", Str(text));
    OneFieldForm(w, ModelChanged(text), "model_changed", "model", Str(text));
    OneFieldForm(w, ToolCallStarted(tool), "tool_call_started", "tool_call", w.tool.enc(tool));
    OneFieldForm(w, ToolCallUpdated(update), "tool_call_updated", "tool_call_update", w.update.enc(update));
    TwoFieldForm(w, ModelsAvailable(text, models), "models_available",
                 "current", Str(text), "options", w.models.enc(models));
    OneFieldForm(w, AvailableCommands(commands), "available_commands", "commands", w.commands.enc(commands));
  }

  /** A plan or a usage record lies flat beside its tag. */
  lemma FlatForms(w: Wire, plan: Plan, usage: Usage, es: Entries, fs: Entries)
    requires Faithful(w)
    requires Lists(es, w.plan.enc(plan).fields) && Lists(fs, w.usage.enc(usage).fields)
    ensures Decode(w, [("kind", Str("plan_updated"))] + es) == PlanUpdated(plan)
    ensures Decode(w, [("kind", Str("usage_updated"))] + fs) == UsageUpdated(usage)
  {
    hide Decode, Lists;
    assert ([("kind", Str("plan_updated"))] + es)[1..] == es;
    assert ([("kind", Str("usage_updated"))] + fs)[1..] == fs;
    DecodeAfterEncode(w, PlanUpdated(plan), [("kind", Str("plan_updated"))] + es);
    DecodeAfterEncode(w, UsageUpdated(usage), [("kind", Str("usage_updated"))] + fs);
  }

  const TAGS: set<string> := {
    "channel_opened", "chunk", "tool_call_started", "tool_call_updated", "plan_updated", "mode_changed",
    "model_changed", "models_available", "available_commands", "usage_updated", "notice",
    "user_message", "turn_ended", "compacted_summary" }

  /** A record with a tag of a later version is kept whole under its tag. */
  lemma LaterTagIsKept(w: Wire, es: Entries, tag: string)
    requires First(es, "kind") == Some(Str(tag)) && KindCount(es) == 1 && tag !in TAGS
    ensures Decode(w, es) == Unknown(tag, Collapse(es))
  {
    hide Collapse, KindCount, KnownFrom;
    DropOnlyKind(es);
    LaterIsOther(w, tag, Collapse(es));
  }

  lemma LaterIsOther(w: Wire, tag: string, m: Object)
    requires tag !in TAGS
    ensures ParseTag(tag) == OtherTag(tag) && KnownFrom(w, ParseTag(tag), m) == None
  {
  }
}
