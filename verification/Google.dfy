/** Streaming of the Google Gemini adapter. */
module Google {
  import opened Chunks
  import opened Text
  import opened StreamEvents
  import opened SseFraming
  import LineDriver

  datatype UpstreamError = UpstreamError(status: Option<string>, code: Option<int>, message: Option<string>)
  datatype Part = Part(text: string, thought: bool)
  datatype Candidate = Candidate(finishReason: Option<string>, parts: seq<Part>)
  datatype UsageMetadata = UsageMetadata(prompt: Option<int>, candidates: Option<int>)

  datatype WireChunk = WireChunk(
    error: Option<UpstreamError>, modelVersion: Option<string>, blockReason: Option<string>,
    candidate: Option<Candidate>, usage: Option<UsageMetadata>)

  type Json = string -> Decoded<WireChunk>

  datatype Ctx = Ctx(model: string, finish: FinishReason, inputTokens: int, outputTokens: int)

  function MapFinishReason(reason: string): FinishReason {
    match reason
    case "STOP" => Stop
    case "MAX_TOKENS" => Length
    case "SAFETY" => ContentFilter
    case "RECITATION" => ContentFilter
    case "BLOCKLIST" => ContentFilter
    case "PROHIBITED_CONTENT" => ContentFilter
    case "SPII" => ContentFilter
    case _ => Other
  }

  predicate Blocked(reason: Option<string>) {
    reason.Some? && reason.value in ["SAFETY", "BLOCKLIST", "PROHIBITED_CONTENT", "SPII"]
  }

  function CurrentUsage(ctx: Ctx): Usage {
    Usage(ctx.inputTokens, ctx.outputTokens, ctx.inputTokens + ctx.outputTokens, None)
  }

  function PartEvents(parts: seq<Part>): seq<StreamEvent> {
    if parts == [] then [] else EventsOf(parts[0]) + PartEvents(parts[1..])
  }

  function EventsOf(p: Part): seq<StreamEvent> {
    if p.text == "" then [] else if p.thought then [ThoughtDelta(p.text)] else [TextDelta(p.text)]
  }

  function SafetyError(reason: string): StreamEvent {
    Failed(AdapterError("safety", reason, "Gemini generation was blocked by safety filters"))
  }

  function ParseChunk(c: WireChunk, ctx: Ctx): Parsed<Ctx> {
    if c.error.Some? then
      var e := c.error.value;
      Parsed([Failed(AdapterError(OrText(e.status, ""), "", OrText(e.message, "Gemini streaming error")))], ctx, false, false)
    else
      var named := ctx.(model := OrText(c.modelVersion, ctx.model));
      if Truthy(c.blockReason) then Parsed([SafetyError(c.blockReason.value)], named, false, false)
      else if c.candidate.Some? && Blocked(c.candidate.value.finishReason) then
        Parsed([SafetyError(c.candidate.value.finishReason.value)], named, false, false)
      else
        var deltas := if c.candidate.Some? then PartEvents(c.candidate.value.parts) else [];
        var finished :=
          if c.candidate.Some? && Truthy(c.candidate.value.finishReason)
          then named.(finish := MapFinishReason(c.candidate.value.finishReason.value))
          else named;
        if c.usage.None? then Parsed(deltas, finished, false, false)
        else
          var counted := finished.(inputTokens := OrElse(c.usage.value.prompt, finished.inputTokens),
                                   outputTokens := OrElse(c.usage.value.candidates, finished.outputTokens));
          Parsed(deltas + [UsageReport(CurrentUsage(counted))], counted, false, false)
  }

  function ParseSseChunk(json: Json, data: string, ctx: Ctx): Parsed<Ctx> {
    var trimmed := Trim(data);
    if trimmed == "" then Parsed([], ctx, false, false)
    else if trimmed == "[DONE]" then
      Parsed([Complete(ctx.finish, Some(CurrentUsage(ctx)), ctx.model)], ctx, true, false)
    else
      match json(trimmed)
      case Malformed => Parsed([], ctx, false, false)
      case Null => Parsed([], ctx, false, true)
      case Chunk(c) => ParseChunk(c, ctx)
  }

  function Provider(json: Json): Protocol<Ctx> {
    Protocol((data: string, ctx: Ctx) => ParseSseChunk(json, data, ctx),
             (ctx: Ctx) => Complete(ctx.finish, Some(CurrentUsage(ctx)), ctx.model))
  }

  /** The events a whole body stands for. */
  function Events(json: Json, model: string, body: string): Carry<Ctx> {
    LineDriver.WholeBody(Machine(Provider(json)), Start(Ctx(model, Stop, 0, 0)), body)
  }

  /** Yields events as the reads arrive. They depend on the text alone, not on where reads end. */
  method Stream(json: Json, model: string, chunks: seq<string>) returns (events: seq<StreamEvent>, phase: Phase)
    ensures events == Events(json, model, Concat(chunks)).out
    ensures phase == Events(json, model, Concat(chunks)).phase
    ensures phase == Threw || EndsOnce(events)
  {
    var last := LineDriver.Drive(Machine(Provider(json)), Start(Ctx(model, Stop, 0, 0)), chunks);
    EndsWithOneTerminal(json, model, Concat(chunks));
    return last.out, last.phase;
  }

  lemma EndsWithOneTerminal(json: Json, model: string, body: string)
    ensures var s := Events(json, model, body);
            s.phase == Threw || (s.phase != Reading && EndsOnce(s.out))
  {
    ProviderCloses(json);
    TerminalOnceAndLast(Provider(json), Ctx(model, Stop, 0, 0), body);
  }

  lemma ProviderCloses(json: Json)
    ensures Closes(Provider(json))
  {
    var p := Provider(json);
    forall payload: string, ctx: Ctx | p.parse(payload, ctx).completed
      ensures !NoTerminal(p.parse(payload, ctx).events)
    {
      assert Terminal(p.parse(payload, ctx).events[0]);
    }
  }

  lemma OnePart(p: Part)
    ensures TextOf(EventsOf(p)) == (if p.thought then "" else p.text) && NoTerminal(EventsOf(p))
    ensures ThoughtOf(EventsOf(p)) == if p.thought then p.text else ""
  {
    if p.text != "" {
      TextOfOne(if p.thought then ThoughtDelta(p.text) else TextDelta(p.text));
      ThoughtOfOne(if p.thought then ThoughtDelta(p.text) else TextDelta(p.text));
    }
  }

  /** The answer parts' texts, in order, are what the text deltas carry; thoughts are kept apart. */
  lemma {:induction false} DeltasCarryParts(parts: seq<Part>)
    ensures TextOf(PartEvents(parts)) == AnswerOf(parts)
    ensures ThoughtOf(PartEvents(parts)) == ThoughtsOf(parts)
    ensures NoTerminal(PartEvents(parts))
  {
    if parts != [] {
      hide TextOf, ThoughtOf;
      OnePart(parts[0]);
      DeltasCarryParts(parts[1..]);
      TextAppend(EventsOf(parts[0]), PartEvents(parts[1..]));
      ThoughtAppend(EventsOf(parts[0]), PartEvents(parts[1..]));
    }
  }

  function ThoughtsOf(parts: seq<Part>): string {
    if parts == [] then "" else (if parts[0].thought then parts[0].text else "") + ThoughtsOf(parts[1..])
  }

  function AnswerOf(parts: seq<Part>): string {
    if parts == [] then "" else (if parts[0].thought then "" else parts[0].text) + AnswerOf(parts[1..])
  }

  /** An event whose payload decodes to this chunk. */
  predicate Carries(json: Json, e: seq<WireLine>, c: WireChunk) {
    ValidEvent(e) && Join(Payload(e), "\n") != "[DONE]" && json(Join(Payload(e), "\n")) == Chunk(c)
  }

  /** Neither an error nor a refusal on safety grounds. */
  predicate Sound(c: WireChunk) {
    && c.error.None? && !Truthy(c.blockReason)
    && !(c.candidate.Some? && Blocked(c.candidate.value.finishReason))
  }

  function ReplyOf(c: WireChunk): string {
    if c.candidate.Some? then AnswerOf(c.candidate.value.parts) else ""
  }

  function Replies(chunks: seq<WireChunk>): (texts: seq<string>)
    ensures |texts| == |chunks| && forall i :: 0 <= i < |chunks| ==> texts[i] == ReplyOf(chunks[i])
  {
    seq(|chunks|, i requires 0 <= i < |chunks| => ReplyOf(chunks[i]))
  }

  lemma SoundChunk(c: WireChunk, ctx: Ctx)
    requires Sound(c)
    ensures var r := ParseChunk(c, ctx);
            !r.threw && !r.completed && NoTerminal(r.events) && TextOf(r.events) == ReplyOf(c)
  {
    hide TextOf, PartEvents, AnswerOf;
    var deltas := if c.candidate.Some? then PartEvents(c.candidate.value.parts) else [];
    if c.candidate.Some? { DeltasCarryParts(c.candidate.value.parts); } else { DeltasCarryParts([]); NoParts(); }
    if c.usage.Some? {
      var counted := ParseChunk(c, ctx).ctx;
      TextSnoc(deltas, UsageReport(CurrentUsage(counted)));
    }
  }

  lemma NoParts()
    ensures PartEvents([]) == [] && AnswerOf([]) == ""
  {}

  lemma ChunkYields(json: Json, e: seq<WireLine>, c: WireChunk)
    requires Carries(json, e, c) && Sound(c)
    ensures Yields(Provider(json), e, ReplyOf(c))
  {
    hide Sound, TextOf, ParseChunk, ReplyOf;
    PayloadParts(e);
    PayloadTrimmed(Payload(e));
    forall ctx: Ctx ensures var r := ParseChunk(c, ctx);
                            !r.threw && !r.completed && NoTerminal(r.events) && TextOf(r.events) == ReplyOf(c)
    {
      SoundChunk(c, ctx);
    }
  }

  /** A body of sound chunks streams exactly the answer parts' text, then one terminal event: the completion,
      with the model, the finish reason and the token counts that were reported last. */
  lemma BodyCarriesReply(json: Json, model: string, events: seq<seq<WireLine>>, chunks: seq<WireChunk>, crlf: seq<bool>)
    requires |events| == |chunks|
    requires forall i :: 0 <= i < |events| ==> Carries(json, events[i], chunks[i]) && Sound(chunks[i])
    requires LineDriver.Separable(BodyLines(events), crlf)
    ensures var s := Events(json, model, LineDriver.Unsplit(BodyLines(events), crlf, ""));
            && (s.phase == Returned || s.phase == Ended) && EndsOnce(s.out) && TextOf(s.out) == Concat(Replies(chunks))
            && CompletedWith(s.out[|s.out| - 1], model, chunks)
  {
    hide Carries, Sound, Payload, BodyLines, TextOf, Concat, ReplyOf, CompletedWith, ParseSseChunk;
    forall i | 0 <= i < |events| ensures Yields(Provider(json), events[i], Replies(chunks)[i]) {
      ChunkYields(json, events[i], chunks[i]);
    }
    ProviderCloses(json);
    assert events + [] == events;
    BodyText(Provider(json), Ctx(model, Stop, 0, 0), events, Replies(chunks), [], crlf);
    CompletedFromChunks(json, model, events, chunks);
  }

  /** The error of a chunk that is not sound: its own, or a refusal on safety grounds for the reason given. */
  function ErrorIn(c: WireChunk): AdapterError
    requires !Sound(c)
  {
    match c.error
    case Some(UpstreamError(status, _, message)) =>
      AdapterError(OrText(status, ""), "", OrText(message, "Gemini streaming error"))
    case None =>
      AdapterError("safety", if Truthy(c.blockReason) then c.blockReason.value else c.candidate.value.finishReason.value,
                   "Gemini generation was blocked by safety filters")
  }

  /** A chunk that is not sound ends the stream with its error, behind the text of the chunks before it,
      whatever follows it. */
  lemma BodyFails(json: Json, model: string, events: seq<seq<WireLine>>, chunks: seq<WireChunk>,
                  e: seq<WireLine>, c: WireChunk, rest: seq<seq<WireLine>>, crlf: seq<bool>)
    requires |events| == |chunks|
    requires forall i :: 0 <= i < |events| ==> Carries(json, events[i], chunks[i]) && Sound(chunks[i])
    requires Carries(json, e, c) && !Sound(c) && forall i :: 0 <= i < |rest| ==> ValidEvent(rest[i])
    requires LineDriver.Separable(BodyLines(events + ([e] + rest)), crlf)
    ensures var s := Events(json, model, LineDriver.Unsplit(BodyLines(events + ([e] + rest)), crlf, ""));
            && s.phase == Returned && EndsOnce(s.out) && TextOf(s.out) == Concat(Replies(chunks))
            && s.out[|s.out| - 1] == Failed(ErrorIn(c))
  {
    hide Carries, Sound, Payload, BodyLines, TextOf, Concat, ReplyOf, ParseSseChunk, ErrorIn;
    forall i | 0 <= i < |events| ensures Yields(Provider(json), events[i], Replies(chunks)[i]) {
      ChunkYields(json, events[i], chunks[i]);
    }
    ProviderCloses(json);
    ErrorFails(json, e, c);
    SseFraming.BodyFails(Provider(json), Ctx(model, Stop, 0, 0), events, Replies(chunks), e, ErrorIn(c), rest, crlf);
  }

  lemma ErrorFails(json: Json, e: seq<WireLine>, c: WireChunk)
    requires Carries(json, e, c) && !Sound(c)
    ensures Fails(Provider(json), e, ErrorIn(c))
  {
    hide Payload, Join, Trim, ValidEvent;
    WholePayload(e);
  }

  // ---------------------------------------------------------------------------------------------
  // What a completion reports
  // ---------------------------------------------------------------------------------------------

  function ModelsIn(chunks: seq<WireChunk>): seq<Option<string>> {
    if chunks == [] then []
    else [if Truthy(chunks[0].modelVersion) then chunks[0].modelVersion else None] + ModelsIn(chunks[1..])
  }

  function FinishIn(c: WireChunk): Option<FinishReason> {
    match c.candidate
    case Some(Candidate(Some(reason), _)) => if reason == "" then None else Some(MapFinishReason(reason))
    case _ => None
  }

  function FinishesIn(chunks: seq<WireChunk>): seq<Option<FinishReason>> {
    if chunks == [] then [] else [FinishIn(chunks[0])] + FinishesIn(chunks[1..])
  }

  function InputsIn(chunks: seq<WireChunk>): seq<Option<int>> {
    if chunks == [] then []
    else [if chunks[0].usage.Some? then chunks[0].usage.value.prompt else None] + InputsIn(chunks[1..])
  }

  function OutputsIn(chunks: seq<WireChunk>): seq<Option<int>> {
    if chunks == [] then []
    else [if chunks[0].usage.Some? then chunks[0].usage.value.candidates else None] + OutputsIn(chunks[1..])
  }

  /** What is known after these chunks is what they reported last. */
  ghost predicate KnownFrom(before: Ctx, chunks: seq<WireChunk>, after: Ctx) {
    && LastReported(ModelsIn(chunks), before.model, after.model)
    && LastReported(FinishesIn(chunks), before.finish, after.finish)
    && LastReported(InputsIn(chunks), before.inputTokens, after.inputTokens)
    && LastReported(OutputsIn(chunks), before.outputTokens, after.outputTokens)
  }

  ghost predicate CompletedWith(e: StreamEvent, model: string, chunks: seq<WireChunk>) {
    && e.Complete? && e.finalUsage.Some?
    && var u := e.finalUsage.value;
       && u.totalTokens == u.inputTokens + u.outputTokens && u.reasoningTokens.None?
       && KnownFrom(Ctx(model, Stop, 0, 0), chunks, Ctx(e.model, e.finish, u.inputTokens, u.outputTokens))
  }

  lemma ParsedCtx(json: Json, ctx: Ctx, e: seq<WireLine>, c: WireChunk)
    requires Carries(json, e, c)
    ensures Provider(json).parse(Join(Payload(e), "\n"), ctx) == ParseChunk(c, ctx)
  {
    hide Payload, Join, Trim, ValidEvent, ParseChunk;
    WholePayload(e);
  }

  lemma KnownCons(before: Ctx, chunks: seq<WireChunk>, after: Ctx)
    requires chunks != [] && Sound(chunks[0]) && KnownFrom(ParseChunk(chunks[0], before).ctx, chunks[1..], after)
    ensures KnownFrom(before, chunks, after)
  {
    hide LastReported, PartEvents, MapFinishReason;
    LastReportedCons(ModelsIn(chunks), before.model, after.model);
    LastReportedCons(FinishesIn(chunks), before.finish, after.finish);
    LastReportedCons(InputsIn(chunks), before.inputTokens, after.inputTokens);
    LastReportedCons(OutputsIn(chunks), before.outputTokens, after.outputTokens);
  }

  lemma NothingKnown(ctx: Ctx)
    ensures KnownFrom(ctx, [], ctx)
  {}

  lemma {:induction false} ChunksKnown(json: Json, ctx: Ctx, events: seq<seq<WireLine>>, chunks: seq<WireChunk>)
    requires |events| == |chunks| && forall i :: 0 <= i < |events| ==> Carries(json, events[i], chunks[i]) && Sound(chunks[i])
    ensures KnownFrom(ctx, chunks, Known(Provider(json), ctx, events))
    decreases |events|
  {
    hide Carries, Sound, KnownFrom, ParseChunk, ParseSseChunk;
    if events == [] {
      NothingKnown(ctx);
    } else {
      ParsedCtx(json, ctx, events[0], chunks[0]);
      ChunksKnown(json, ParseChunk(chunks[0], ctx).ctx, events[1..], chunks[1..]);
      KnownCons(ctx, chunks, Known(Provider(json), ctx, events));
    }
  }

  lemma CompletedFromChunks(json: Json, model: string, events: seq<seq<WireLine>>, chunks: seq<WireChunk>)
    requires |events| == |chunks| && forall i :: 0 <= i < |events| ==> Carries(json, events[i], chunks[i]) && Sound(chunks[i])
    ensures CompletedWith(Provider(json).closing(Known(Provider(json), Ctx(model, Stop, 0, 0), events)), model, chunks)
  {
    hide Carries, Sound, KnownFrom, ParseSseChunk;
    ChunksKnown(json, Ctx(model, Stop, 0, 0), events, chunks);
  }

  // ---------------------------------------------------------------------------------------------
  // When decoding throws
  // ---------------------------------------------------------------------------------------------

  /** What an event does, read off its payload. */
  function EffectOf(json: Json, e: seq<WireLine>): Effect {
    var payload := Join(Payload(e), "\n");
    if payload == "[DONE]" then Ends
    else
      match json(payload)
      case Malformed => GoesOn
      case Null => Throws
      case Chunk(c) => if Sound(c) then GoesOn else Ends
  }

  function EffectsOf(json: Json, events: seq<seq<WireLine>>): (effects: seq<Effect>)
    ensures |effects| == |events| && forall i :: 0 <= i < |events| ==> effects[i] == EffectOf(json, events[i])
  {
    seq(|events|, i requires 0 <= i < |events| => EffectOf(json, events[i]))
  }

  lemma ChunkDoes(c: WireChunk, ctx: Ctx)
    ensures !ParseChunk(c, ctx).threw && (NoTerminal(ParseChunk(c, ctx).events) <==> Sound(c))
  {
    if Sound(c) {
      SoundChunk(c, ctx);
    } else {
      assert Terminal(ParseChunk(c, ctx).events[0]);
    }
  }

  lemma EventDoes(json: Json, e: seq<WireLine>)
    requires ValidEvent(e)
    ensures Does(Provider(json), e, EffectOf(json, e))
  {
    WholePayload(e);
    hide ParseChunk, Sound;
    var payload := Join(Payload(e), "\n");
    if payload != "[DONE]" && json(payload).Chunk? {
      forall ctx: Ctx
        ensures !ParseChunk(json(payload).chunk, ctx).threw
        ensures NoTerminal(ParseChunk(json(payload).chunk, ctx).events) <==> Sound(json(payload).chunk)
      {
        ChunkDoes(json(payload).chunk, ctx);
      }
    }
    forall ctx: Ctx | payload == "[DONE]" ensures !NoTerminal(Provider(json).parse(payload, ctx).events) {
      assert Terminal(Provider(json).parse(payload, ctx).events[0]);
    }
  }

  /** Decoding throws exactly if a payload is `null` and nothing before it ended the stream: neither the
      sentinel nor an error nor a refusal on safety grounds. */
  lemma ThrowsIff(json: Json, model: string, events: seq<seq<WireLine>>, crlf: seq<bool>)
    requires forall i :: 0 <= i < |events| ==> ValidEvent(events[i])
    requires LineDriver.Separable(BodyLines(events), crlf)
    ensures Events(json, model, LineDriver.Unsplit(BodyLines(events), crlf, "")).phase == Threw
            <==> ThrowsFirst(EffectsOf(json, events))
  {
    hide ValidEvent, EffectOf, Does, BodyLines;
    forall i | 0 <= i < |events| ensures Does(Provider(json), events[i], EffectsOf(json, events)[i]) {
      EventDoes(json, events[i]);
    }
    BodyThrows(Provider(json), Ctx(model, Stop, 0, 0), events, EffectsOf(json, events), crlf);
  }
}
