/** Streaming of the OpenAI chat-completions adapter. */
module OpenAi {
  import opened Chunks
  import opened Text
  import opened StreamEvents
  import opened SseFraming
  import LineDriver

  datatype UpstreamError = UpstreamError(kind: Option<string>, code: Option<string>, message: Option<string>)

  datatype WireUsage = WireUsage(
    prompt: Option<int>, completion: Option<int>, total: Option<int>,
    completionReasoning: Option<int>, promptReasoning: Option<int>)

  datatype Choice = Choice(content: Option<string>, reasoning: Option<string>, finishReason: Option<string>)

  datatype WireChunk = WireChunk(
    error: Option<UpstreamError>, model: Option<string>, usage: Option<WireUsage>, choices: seq<Choice>)

  type Json = string -> Decoded<WireChunk>

  datatype Ctx = Ctx(model: string, finish: FinishReason, usage: Option<Usage>)

  function MapFinishReason(reason: string): FinishReason {
    match reason
    case "stop" => Stop
    case "length" => Length
    case "tool_calls" => ToolCalls
    case "function_call" => ToolCalls
    case "content_filter" => ContentFilter
    case _ => Other
  }

  function MapUsage(u: WireUsage): Usage {
    var input, output := OrElse(u.prompt, 0), OrElse(u.completion, 0);
    Usage(input, output, OrElse(u.total, input + output),
          if u.completionReasoning.Some? then u.completionReasoning else u.promptReasoning)
  }

  function EventsOf(c: Choice): seq<StreamEvent> {
    (if Truthy(c.content) then [TextDelta(c.content.value)] else [])
    + (if Truthy(c.reasoning) then [ThoughtDelta(c.reasoning.value)] else [])
  }

  function ChoiceEvents(choices: seq<Choice>): seq<StreamEvent> {
    if choices == [] then [] else EventsOf(choices[0]) + ChoiceEvents(choices[1..])
  }

  function LastFinish(choices: seq<Choice>, before: FinishReason): FinishReason {
    if choices == [] then before
    else
      LastFinish(choices[1..],
                 if Truthy(choices[0].finishReason) then MapFinishReason(choices[0].finishReason.value) else before)
  }

  function ParseSseData(json: Json, data: string, ctx: Ctx): Parsed<Ctx> {
    var trimmed := Trim(data);
    if trimmed == "" then Parsed([], ctx, false, false)
    else if trimmed == "[DONE]" then Parsed([Complete(ctx.finish, ctx.usage, ctx.model)], ctx, true, false)
    else
      match json(trimmed)
      case Malformed => Parsed([], ctx, false, false)
      case Null => Parsed([], ctx, false, true)
      case Chunk(c) =>
        if c.error.Some? then
          var e := c.error.value;
          Parsed([Failed(AdapterError(OrText(e.kind, "error"), OrText(e.code, ""), OrText(e.message, "Streaming error")))],
                 ctx, false, false)
        else
          var usage := if c.usage.Some? then Some(MapUsage(c.usage.value)) else None;
          Parsed((if usage.Some? then [UsageReport(usage.value)] else []) + ChoiceEvents(c.choices),
                 Ctx(OrText(c.model, ctx.model), LastFinish(c.choices, ctx.finish),
                     if usage.Some? then usage else ctx.usage),
                 false, false)
  }

  function Provider(json: Json): Protocol<Ctx> {
    Protocol((data: string, ctx: Ctx) => ParseSseData(json, data, ctx),
             (ctx: Ctx) => Complete(ctx.finish, ctx.usage, ctx.model))
  }

  /** The events a whole body stands for. */
  function Events(json: Json, model: string, body: string): Carry<Ctx> {
    LineDriver.WholeBody(Machine(Provider(json)), Start(Ctx(model, Stop, None)), body)
  }

  /** Yields events as the reads arrive. They depend on the text alone, not on where reads end. */
  method Stream(json: Json, model: string, chunks: seq<string>) returns (events: seq<StreamEvent>, phase: Phase)
    ensures events == Events(json, model, Concat(chunks)).out
    ensures phase == Events(json, model, Concat(chunks)).phase
    ensures phase == Threw || EndsOnce(events)
  {
    var last := LineDriver.Drive(Machine(Provider(json)), Start(Ctx(model, Stop, None)), chunks);
    EndsWithOneTerminal(json, model, Concat(chunks));
    return last.out, last.phase;
  }

  lemma EndsWithOneTerminal(json: Json, model: string, body: string)
    ensures var s := Events(json, model, body);
            s.phase == Threw || (s.phase != Reading && EndsOnce(s.out))
  {
    ProviderCloses(json);
    TerminalOnceAndLast(Provider(json), Ctx(model, Stop, None), body);
  }

  lemma ProviderCloses(json: Json)
    ensures Closes(Provider(json))
  {
    var p := Provider(json);
    forall payload: string, ctx: Ctx | p.parse(payload, ctx).completed
      ensures !NoTerminal(p.parse(payload, ctx).events)
    {
      assert Terminal(p.parse(payload, ctx).events[0]);
    }
  }

  lemma OneChoice(c: Choice)
    ensures TextOf(EventsOf(c)) == OrElse(c.content, "") && NoTerminal(EventsOf(c))
    ensures ThoughtOf(EventsOf(c)) == OrElse(c.reasoning, "")
  {
    var content := if Truthy(c.content) then [TextDelta(c.content.value)] else [];
    var reasoning := if Truthy(c.reasoning) then [ThoughtDelta(c.reasoning.value)] else [];
    ThoughtAppend(content, reasoning);
    if Truthy(c.content) { ThoughtOfOne(content[0]); }
    if Truthy(c.reasoning) { ThoughtOfOne(reasoning[0]); }
    if Truthy(c.content) {
      TextOfOne(TextDelta(c.content.value));
    }
    if Truthy(c.reasoning) {
      TextSnoc(if Truthy(c.content) then [TextDelta(c.content.value)] else [], ThoughtDelta(c.reasoning.value));
    }
  }

  /** The texts of the choices, in order, are what the text deltas carry; reasoning likewise. */
  lemma {:induction false} DeltasCarryChoices(choices: seq<Choice>)
    ensures TextOf(ChoiceEvents(choices)) == ContentOf(choices)
    ensures ThoughtOf(ChoiceEvents(choices)) == ReasoningOf(choices)
    ensures NoTerminal(ChoiceEvents(choices))
  {
    if choices != [] {
      hide TextOf, ThoughtOf;
      OneChoice(choices[0]);
      DeltasCarryChoices(choices[1..]);
      TextAppend(EventsOf(choices[0]), ChoiceEvents(choices[1..]));
      ThoughtAppend(EventsOf(choices[0]), ChoiceEvents(choices[1..]));
    }
  }

  function ReasoningOf(choices: seq<Choice>): string {
    if choices == [] then "" else OrElse(choices[0].reasoning, "") + ReasoningOf(choices[1..])
  }

  function ContentOf(choices: seq<Choice>): string {
    if choices == [] then "" else OrElse(choices[0].content, "") + ContentOf(choices[1..])
  }

  /** An event whose payload decodes to this chunk. */
  predicate Carries(json: Json, e: seq<WireLine>, c: WireChunk) {
    ValidEvent(e) && Join(Payload(e), "\n") != "[DONE]" && json(Join(Payload(e), "\n")) == Chunk(c)
  }

  function Replies(chunks: seq<WireChunk>): (texts: seq<string>)
    ensures |texts| == |chunks| && forall i :: 0 <= i < |chunks| ==> texts[i] == ContentOf(chunks[i].choices)
  {
    seq(|chunks|, i requires 0 <= i < |chunks| => ContentOf(chunks[i].choices))
  }

  lemma ChunkYields(json: Json, e: seq<WireLine>, c: WireChunk)
    requires Carries(json, e, c) && c.error.None?
    ensures Yields(Provider(json), e, ContentOf(c.choices))
  {
    hide TextOf, ChoiceEvents, ContentOf, ReasoningOf, Payload, Join, Trim, ValidEvent, MapUsage, LastFinish, ThoughtOf;
    WholePayload(e);
    UsageThenChoices(c);
  }

  lemma UsageThenChoices(c: WireChunk)
    ensures var all := (if c.usage.Some? then [UsageReport(MapUsage(c.usage.value))] else []) + ChoiceEvents(c.choices);
            NoTerminal(all) && TextOf(all) == ContentOf(c.choices)
  {
    hide TextOf, ChoiceEvents, ContentOf, ReasoningOf, ThoughtOf, MapUsage;
    DeltasCarryChoices(c.choices);
    if c.usage.Some? {
      TextOfOne(UsageReport(MapUsage(c.usage.value)));
      TextAppend([UsageReport(MapUsage(c.usage.value))], ChoiceEvents(c.choices));
      assert "" + ContentOf(c.choices) == ContentOf(c.choices);
    } else {
      assert [] + ChoiceEvents(c.choices) == ChoiceEvents(c.choices);
    }
  }

  lemma DoneFinishes(json: Json)
    ensures Finishes(Provider(json), [Data("[DONE]")])
  {
    var e := [Data("[DONE]")];
    assert Payload(e) == ["[DONE]"];
    TrimTrimmed("[DONE]");
  }

  /** A body of chunks without errors, with or without the sentinel at its end, streams exactly the text of
      its chunks, then one terminal event: the completion, with the model, the finish reason and the usage
      that were reported last. */
  lemma BodyCarriesReply(json: Json, model: string, events: seq<seq<WireLine>>, chunks: seq<WireChunk>, done: bool, crlf: seq<bool>)
    requires |events| == |chunks|
    requires forall i :: 0 <= i < |events| ==> Carries(json, events[i], chunks[i]) && chunks[i].error.None?
    requires LineDriver.Separable(BodyLines(events + if done then [[Data("[DONE]")]] else []), crlf)
    ensures var body := LineDriver.Unsplit(BodyLines(events + if done then [[Data("[DONE]")]] else []), crlf, "");
            var s := Events(json, model, body);
            && (s.phase == Returned || s.phase == Ended) && EndsOnce(s.out) && TextOf(s.out) == Concat(Replies(chunks))
            && CompletedWith(s.out[|s.out| - 1], model, chunks)
  {
    hide Carries, Payload, BodyLines, TextOf, Concat, ContentOf, CompletedWith, ParseSseData, Events;
    forall i | 0 <= i < |events| ensures Yields(Provider(json), events[i], Replies(chunks)[i]) {
      ChunkYields(json, events[i], chunks[i]);
    }
    DoneFinishes(json);
    ProviderCloses(json);
    BodyText(Provider(json), Ctx(model, Stop, None), events, Replies(chunks), if done then [[Data("[DONE]")]] else [], crlf);
    CompletedFromChunks(json, model, events, chunks);
    EventsAre(json, model, LineDriver.Unsplit(BodyLines(events + if done then [[Data("[DONE]")]] else []), crlf, ""));
  }

  lemma EventsAre(json: Json, model: string, body: string)
    ensures Events(json, model, body) == LineDriver.WholeBody(Machine(Provider(json)), Start(Ctx(model, Stop, None)), body)
  {}

  /** An error chunk ends the stream with the error it carries, behind the text of the chunks before it,
      whatever follows it. */
  lemma BodyFails(json: Json, model: string, events: seq<seq<WireLine>>, chunks: seq<WireChunk>,
                  e: seq<WireLine>, c: WireChunk, rest: seq<seq<WireLine>>, crlf: seq<bool>)
    requires |events| == |chunks|
    requires forall i :: 0 <= i < |events| ==> Carries(json, events[i], chunks[i]) && chunks[i].error.None?
    requires Carries(json, e, c) && c.error.Some? && forall i :: 0 <= i < |rest| ==> ValidEvent(rest[i])
    requires LineDriver.Separable(BodyLines(events + ([e] + rest)), crlf)
    ensures var s := Events(json, model, LineDriver.Unsplit(BodyLines(events + ([e] + rest)), crlf, ""));
            && s.phase == Returned && EndsOnce(s.out) && TextOf(s.out) == Concat(Replies(chunks))
            && s.out[|s.out| - 1] == Failed(AdapterError(OrText(c.error.value.kind, "error"), OrText(c.error.value.code, ""),
                                                         OrText(c.error.value.message, "Streaming error")))
  {
    hide Carries, Payload, BodyLines, TextOf, Concat, ContentOf;
    forall i | 0 <= i < |events| ensures Yields(Provider(json), events[i], Replies(chunks)[i]) {
      ChunkYields(json, events[i], chunks[i]);
    }
    ProviderCloses(json);
    ErrorFails(json, e, c);
    SseFraming.BodyFails(Provider(json), Ctx(model, Stop, None), events, Replies(chunks), e,
                         AdapterError(OrText(c.error.value.kind, "error"), OrText(c.error.value.code, ""),
                                      OrText(c.error.value.message, "Streaming error")), rest, crlf);
  }

  lemma ErrorFails(json: Json, e: seq<WireLine>, c: WireChunk)
    requires Carries(json, e, c) && c.error.Some?
    ensures Fails(Provider(json), e, AdapterError(OrText(c.error.value.kind, "error"), OrText(c.error.value.code, ""),
                                                  OrText(c.error.value.message, "Streaming error")))
  {
    hide Payload, Join, Trim, ValidEvent;
    WholePayload(e);
  }

  // ---------------------------------------------------------------------------------------------
  // What a completion reports
  // ---------------------------------------------------------------------------------------------

  function ModelsIn(chunks: seq<WireChunk>): seq<Option<string>> {
    if chunks == [] then [] else [if Truthy(chunks[0].model) then chunks[0].model else None] + ModelsIn(chunks[1..])
  }

  /** Missing counts are zero, and a missing total is the sum. */
  function UsageIn(c: WireChunk): Option<Option<Usage>> {
    match c.usage
    case None => None
    case Some(WireUsage(prompt, completion, total, completionReasoning, promptReasoning)) =>
      var output, input := OrElse(completion, 0), OrElse(prompt, 0);
      Some(Some(Usage(input, output, if total.Some? then total.value else input + output,
                      match completionReasoning case Some(n) => Some(n) case None => promptReasoning)))
  }

  function UsagesIn(chunks: seq<WireChunk>): seq<Option<Option<Usage>>> {
    if chunks == [] then [] else [UsageIn(chunks[0])] + UsagesIn(chunks[1..])
  }

  function ChoiceFinishes(choices: seq<Choice>): seq<Option<FinishReason>> {
    if choices == [] then []
    else
      [if Truthy(choices[0].finishReason) then Some(MapFinishReason(choices[0].finishReason.value)) else None]
      + ChoiceFinishes(choices[1..])
  }

  /** The finish reasons of all choices of all chunks. */
  function FinishesIn(chunks: seq<WireChunk>): seq<Option<FinishReason>> {
    if chunks == [] then [] else ChoiceFinishes(chunks[0].choices) + FinishesIn(chunks[1..])
  }

  /** What is known after these chunks is what they reported last. */
  ghost predicate KnownFrom(before: Ctx, chunks: seq<WireChunk>, after: Ctx) {
    && LastReported(ModelsIn(chunks), before.model, after.model)
    && LastReported(FinishesIn(chunks), before.finish, after.finish)
    && LastReported(UsagesIn(chunks), before.usage, after.usage)
  }

  ghost predicate CompletedWith(e: StreamEvent, model: string, chunks: seq<WireChunk>) {
    e.Complete? && KnownFrom(Ctx(model, Stop, None), chunks, Ctx(e.model, e.finish, e.finalUsage))
  }

  lemma {:induction false} LastFinishReported(choices: seq<Choice>, before: FinishReason)
    ensures LastReported(ChoiceFinishes(choices), before, LastFinish(choices, before))
  {
    if choices != [] {
      var finishes := ChoiceFinishes(choices);
      LastFinishReported(choices[1..], OrElse(finishes[0], before));
      LastReportedCons(finishes, before, LastFinish(choices, before));
    }
  }

  /** A chunk without an error makes this of the context. */
  function ChunkCtx(ctx: Ctx, c: WireChunk): Ctx {
    Ctx(OrText(c.model, ctx.model), LastFinish(c.choices, ctx.finish), OrElse(UsageIn(c), ctx.usage))
  }

  lemma ParsedCtx(json: Json, ctx: Ctx, e: seq<WireLine>, c: WireChunk)
    requires Carries(json, e, c) && c.error.None?
    ensures Provider(json).parse(Join(Payload(e), "\n"), ctx).ctx == ChunkCtx(ctx, c)
  {
    hide Payload, Join, Trim, ValidEvent, ChoiceEvents;
    WholePayload(e);
  }

  lemma KnownCons(before: Ctx, chunks: seq<WireChunk>, after: Ctx)
    requires chunks != [] && KnownFrom(ChunkCtx(before, chunks[0]), chunks[1..], after)
    ensures KnownFrom(before, chunks, after)
  {
    hide LastReported, UsageIn, ChoiceFinishes;
    var c := chunks[0];
    LastReportedCons(ModelsIn(chunks), before.model, after.model);
    LastReportedCons(UsagesIn(chunks), before.usage, after.usage);
    LastFinishReported(c.choices, before.finish);
    LastReportedAppend(ChoiceFinishes(c.choices), FinishesIn(chunks[1..]), before.finish, ChunkCtx(before, c).finish, after.finish);
  }

  lemma CompletedFromChunks(json: Json, model: string, events: seq<seq<WireLine>>, chunks: seq<WireChunk>)
    requires |events| == |chunks| && forall i :: 0 <= i < |events| ==> Carries(json, events[i], chunks[i]) && chunks[i].error.None?
    ensures CompletedWith(Provider(json).closing(Known(Provider(json), Ctx(model, Stop, None), events)), model, chunks)
  {
    hide Carries, KnownFrom, ParseSseData;
    ChunksKnown(json, Ctx(model, Stop, None), events, chunks);
  }

  lemma {:induction false} ChunksKnown(json: Json, ctx: Ctx, events: seq<seq<WireLine>>, chunks: seq<WireChunk>)
    requires |events| == |chunks| && forall i :: 0 <= i < |events| ==> Carries(json, events[i], chunks[i]) && chunks[i].error.None?
    ensures KnownFrom(ctx, chunks, Known(Provider(json), ctx, events))
    decreases |events|
  {
    if events != [] {
      hide Carries, KnownFrom, ChunkCtx, ParseSseData;
      ParsedCtx(json, ctx, events[0], chunks[0]);
      ChunksKnown(json, ChunkCtx(ctx, chunks[0]), events[1..], chunks[1..]);
      KnownCons(ctx, chunks, Known(Provider(json), ctx, events));
    }
  }

  // ---------------------------------------------------------------------------------------------
  // When decoding throws
  // ---------------------------------------------------------------------------------------------

  /** What an event does, read off its payload. */
  function EffectOf(json: Json, e: seq<WireLine>): Effect {
    var payload := Join(Payload(e), "\n");
    if payload == "[DONE]" then Ends
    else
      match json(payload)
      case Malformed => GoesOn
      case Null => Throws
      case Chunk(c) => if c.error.Some? then Ends else GoesOn
  }

  function EffectsOf(json: Json, events: seq<seq<WireLine>>): (effects: seq<Effect>)
    ensures |effects| == |events| && forall i :: 0 <= i < |events| ==> effects[i] == EffectOf(json, events[i])
  {
    seq(|events|, i requires 0 <= i < |events| => EffectOf(json, events[i]))
  }

  lemma EventDoes(json: Json, e: seq<WireLine>)
    requires ValidEvent(e)
    ensures Does(Provider(json), e, EffectOf(json, e))
  {
    WholePayload(e);
    hide ChoiceEvents;
    var payload := Join(Payload(e), "\n");
    if payload != "[DONE]" && json(payload).Chunk? { DeltasCarryChoices(json(payload).chunk.choices); }
    forall ctx: Ctx | EffectOf(json, e) == Ends ensures !NoTerminal(Provider(json).parse(payload, ctx).events) {
      assert Terminal(Provider(json).parse(payload, ctx).events[0]);
    }
  }

  /** Decoding throws exactly if a payload is `null` and nothing before it ended the stream: neither the
      sentinel nor an error. */
  lemma ThrowsIff(json: Json, model: string, events: seq<seq<WireLine>>, crlf: seq<bool>)
    requires forall i :: 0 <= i < |events| ==> ValidEvent(events[i])
    requires LineDriver.Separable(BodyLines(events), crlf)
    ensures Events(json, model, LineDriver.Unsplit(BodyLines(events), crlf, "")).phase == Threw
            <==> ThrowsFirst(EffectsOf(json, events))
  {
    hide ValidEvent, EffectOf, Does, BodyLines;
    forall i | 0 <= i < |events| ensures Does(Provider(json), events[i], EffectsOf(json, events)[i]) {
      EventDoes(json, events[i]);
    }
    BodyThrows(Provider(json), Ctx(model, Stop, None), events, EffectsOf(json, events), crlf);
  }
}
