/** Streaming of the Anthropic adapter. It parks an event name beside the data lines, and it reads
    on after a terminal event. */
module Anthropic {
  import opened Chunks
  import opened Text
  import opened StreamEvents
  import LineDriver
  import SseFraming

  datatype MessageUsage = MessageUsage(inputTokens: Option<int>, outputTokens: Option<int>)
  datatype Message = Message(model: Option<string>, usage: Option<MessageUsage>)
  datatype Delta = Delta(kind: string, text: Option<string>, thinking: Option<string>, stopReason: Option<string>)
  datatype UpstreamError = UpstreamError(kind: Option<string>, message: Option<string>)

  datatype WireChunk = WireChunk(
    kind: string, message: Option<Message>, delta: Option<Delta>, outputTokens: Option<int>,
    error: Option<UpstreamError>)

  type Json = string -> Decoded<WireChunk>

  datatype State = State(
    model: string, inputTokens: int, outputTokens: int, finish: FinishReason, completed: bool,
    eventName: string, data: seq<string>, out: seq<StreamEvent>, phase: Phase)

  function MapFinishReason(reason: string): FinishReason {
    match reason
    case "end_turn" => Stop
    case "stop_sequence" => Stop
    case "max_tokens" => Length
    case "tool_use" => ToolCalls
    case _ => Other
  }

  function CurrentUsage(s: State): Usage {
    Usage(s.inputTokens, s.outputTokens, s.inputTokens + s.outputTokens, None)
  }

  function CompleteEvent(s: State): StreamEvent {
    Complete(s.finish, Some(CurrentUsage(s)), s.model)
  }

  function Yield(s: State, e: StreamEvent): State {
    s.(out := s.out + [e])
  }

  function OnMessageStart(s: State, message: Option<Message>): State {
    if message.None? then s
    else
      var named := s.(model := OrText(message.value.model, s.model));
      if message.value.usage.None? then named
      else
        var u := message.value.usage.value;
        var counted := named.(inputTokens := OrElse(u.inputTokens, 0), outputTokens := OrElse(u.outputTokens, 0));
        Yield(counted, UsageReport(CurrentUsage(counted)))
  }

  function OnDelta(s: State, delta: Option<Delta>): State {
    if delta.None? then s
    else if delta.value.kind == "text_delta" && delta.value.text.Some? then Yield(s, TextDelta(delta.value.text.value))
    else if delta.value.kind == "thinking_delta" && delta.value.thinking.Some? then
      Yield(s, ThoughtDelta(delta.value.thinking.value))
    else s
  }

  function OnMessageDelta(s: State, c: WireChunk): State {
    var stopped :=
      if c.delta.Some? && Truthy(c.delta.value.stopReason)
      then s.(finish := MapFinishReason(c.delta.value.stopReason.value)) else s;
    if c.outputTokens.None? then stopped
    else
      var counted := stopped.(outputTokens := c.outputTokens.value);
      Yield(counted, UsageReport(CurrentUsage(counted)))
  }

  function OnError(s: State, error: Option<UpstreamError>): State {
    var kind := if error.Some? then OrText(error.value.kind, "error") else "error";
    var message := if error.Some? then OrText(error.value.message, "Streaming error") else "Streaming error";
    Yield(s, Failed(AdapterError(kind, "", message)))
  }

  function OnChunk(s: State, kind: string, c: WireChunk): State {
    match kind
    case "message_start" => OnMessageStart(s, c.message)
    case "content_block_delta" => OnDelta(s, c.delta)
    case "message_delta" => OnMessageDelta(s, c)
    case "message_stop" => Yield(s.(completed := true), CompleteEvent(s))
    case "error" => OnError(s, c.error)
    case _ => s
  }

  /** The kinds under which a field of the decoded value is read, so that `null` throws. */
  predicate ReadsFields(kind: string) {
    kind in ["", "message_start", "content_block_delta", "message_delta", "error"]
  }

  function ParseSseEvent(json: Json, s: State): State {
    var trimmed := Trim(Join(s.data, "\n"));
    if trimmed == "" then s
    else if trimmed == "[DONE]" then Yield(s.(completed := true), CompleteEvent(s))
    else
      match json(trimmed)
      case Malformed => s
      case Null =>
        if ReadsFields(s.eventName) then s.(phase := Threw)
        else if s.eventName == "message_stop" then Yield(s.(completed := true), CompleteEvent(s))
        else s
      case Chunk(c) => OnChunk(s, if s.eventName != "" then s.eventName else c.kind, c)
  }

  function OnLine(json: Json, s: State, line: string): State {
    if Trim(line) == "" then
      if s.data == [] && s.eventName == "" then s
      else
        var parsed := ParseSseEvent(json, s);
        parsed.(eventName := "", data := [])
    else if StartsWith(line, ":") then s
    else if StartsWith(line, "event:") then s.(eventName := Trim(line[6..]))
    else if StartsWith(line, "data:") then s.(data := s.data + [TrimStart(line[5..])])
    else s
  }

  function FoldTrailing(s: State, buffer: string): State {
    var trailing := Trim(buffer);
    if StartsWith(trailing, "event:") then s.(eventName := Trim(trailing[6..]))
    else if StartsWith(trailing, "data:") then s.(data := s.data + [TrimStart(trailing[5..])])
    else if trailing != "" && !StartsWith(trailing, ":") then s.(data := s.data + [trailing])
    else s
  }

  function OnEnd(json: Json, s: State, buffer: string): State {
    var folded := FoldTrailing(s, buffer);
    var flushed := if folded.data == [] then folded else ParseSseEvent(json, folded);
    if flushed.phase == Threw then flushed
    else if flushed.completed then flushed.(phase := Ended)
    else Yield(flushed, CompleteEvent(flushed)).(phase := Ended)
  }

  function Machine(json: Json): LineDriver.Adapter<State> {
    LineDriver.Adapter(
      (s: State, line: string) => OnLine(json, s, line),
      (s: State, buffer: string) => OnEnd(json, s, buffer),
      (s: State) => s.phase != Reading)
  }

  function Start(model: string): State {
    State(model, 0, 0, Stop, false, "", [], [], Reading)
  }

  function Events(json: Json, model: string, body: string): State {
    LineDriver.WholeBody(Machine(json), Start(model), body)
  }

  /** Yields events as the reads arrive. They depend on the text alone, not on where reads end. */
  method Stream(json: Json, model: string, chunks: seq<string>) returns (events: seq<StreamEvent>, phase: Phase)
    ensures events == Events(json, model, Concat(chunks)).out
    ensures phase == Events(json, model, Concat(chunks)).phase
    ensures phase == Threw || Completes(events)
  {
    var last := LineDriver.Drive(Machine(json), Start(model), chunks);
    AlwaysCompletes(json, model, Concat(chunks));
    return last.out, last.phase;
  }

  predicate Completes(events: seq<StreamEvent>) {
    exists e | e in events :: e.Complete?
  }

  ghost predicate CompletedSaysSo(s: State) {
    s.completed <==> Completes(s.out)
  }

  lemma YieldCompletes(s: State, e: StreamEvent)
    ensures Completes(Yield(s, e).out) <==> Completes(s.out) || e.Complete?
  {}

  lemma OnChunkKeeps(s: State, kind: string, c: WireChunk)
    requires CompletedSaysSo(s)
    ensures CompletedSaysSo(OnChunk(s, kind, c)) && OnChunk(s, kind, c).phase == s.phase
  {
    forall t: State, e: StreamEvent
      ensures Completes(Yield(t, e).out) <==> Completes(t.out) || e.Complete?
    {
      YieldCompletes(t, e);
    }
  }

  lemma ParseKeeps(json: Json, s: State)
    requires CompletedSaysSo(s)
    ensures CompletedSaysSo(ParseSseEvent(json, s))
    ensures ParseSseEvent(json, s).phase in {s.phase, Threw}
  {
    hide OnChunk, ReadsFields, Completes, Trim, Join;
    YieldCompletes(s.(completed := true), CompleteEvent(s));
    var decoded := json(Trim(Join(s.data, "\n")));
    if decoded.Chunk? {
      OnChunkKeeps(s, if s.eventName != "" then s.eventName else decoded.chunk.kind, decoded.chunk);
    }
  }

  lemma {:induction false} FeedKeeps(json: Json, s: State, lines: seq<string>)
    requires CompletedSaysSo(s) && s.phase in {Reading, Threw}
    ensures CompletedSaysSo(LineDriver.Feed(Machine(json), s, lines))
    ensures LineDriver.Feed(Machine(json), s, lines).phase in {Reading, Threw}
    decreases |lines|
  {
    if lines != [] && s.phase == Reading {
      ParseKeeps(json, s);
      FeedKeeps(json, OnLine(json, s, lines[0]), lines[1..]);
    }
  }

  /** Unless decoding throws, the events say at least once that the completion is complete. */
  lemma AlwaysCompletes(json: Json, model: string, body: string)
    ensures var s := Events(json, model, body);
            s.phase == Threw || (s.phase == Ended && Completes(s.out))
  {
    var cut := LineDriver.Split(body);
    FeedKeeps(json, Start(model), cut.lines);
    var s := LineDriver.Feed(Machine(json), Start(model), cut.lines);
    if s.phase == Reading {
      var folded := FoldTrailing(s, cut.rest);
      ParseKeeps(json, folded);
      var flushed := if folded.data == [] then folded else ParseSseEvent(json, folded);
      YieldCompletes(flushed, CompleteEvent(flushed));
    }
  }

  // ---------------------------------------------------------------------------------------------
  // The reply, from the wire to the caller
  // ---------------------------------------------------------------------------------------------

  /** A line of an event on the wire: its name, a piece of its payload, or a comment or another field. */
  datatype WireLine = Named(kind: string) | Data(text: string) | Skipped(text: string)

  predicate ValidLine(w: WireLine) {
    match w
    case Named(kind) => Trimmed(kind)
    case Data(t) => t != "" && Trimmed(t)
    case Skipped(t) => Trim(t) != "" && !StartsWith(t, "event:") && !StartsWith(t, "data:")
  }

  function WireText(w: WireLine): string {
    match w
    case Named(kind) => "event: " + kind
    case Data(t) => "data: " + t
    case Skipped(t) => t
  }

  function Piece(w: WireLine): seq<string> {
    if w.Data? then [w.text] else []
  }

  function NameAfter(name: string, e: seq<WireLine>): string
    decreases |e|
  {
    if e == [] then name else NameAfter(if e[0].Named? then e[0].kind else name, e[1..])
  }

  function Payload(e: seq<WireLine>): seq<string> {
    if e == [] then [] else Piece(e[0]) + Payload(e[1..])
  }

  function Written(e: seq<WireLine>): seq<string> {
    if e == [] then [] else [WireText(e[0])] + Written(e[1..])
  }

  function BodyLines(events: seq<seq<WireLine>>): seq<string> {
    if events == [] then [] else Written(events[0]) + [""] + BodyLines(events[1..])
  }

  /** An event with a payload that is not the sentinel. */
  predicate ValidEvent(e: seq<WireLine>) {
    && (forall i :: 0 <= i < |e| ==> ValidLine(e[i]))
    && Payload(e) != [] && Join(Payload(e), "\n") != "[DONE]"
  }

  /** The event's payload decodes to this chunk. */
  predicate Carries(json: Json, e: seq<WireLine>, c: WireChunk) {
    ValidEvent(e) && json(Join(Payload(e), "\n")) == Chunk(c)
  }

  /** An event is named by its last `event` field, or else by its payload. */
  function KindOf(e: seq<WireLine>, c: WireChunk): string {
    if NameAfter("", e) != "" then NameAfter("", e) else c.kind
  }

  /** The reply's text in an event. */
  function PieceOf(kind: string, c: WireChunk): string {
    if kind == "content_block_delta" && c.delta.Some? && c.delta.value.kind == "text_delta" && c.delta.value.text.Some?
    then c.delta.value.text.value else ""
  }

  function Replies(events: seq<seq<WireLine>>, chunks: seq<WireChunk>): (texts: seq<string>)
    requires |events| == |chunks|
    ensures |texts| == |chunks| && forall i :: 0 <= i < |chunks| ==> texts[i] == PieceOf(KindOf(events[i], chunks[i]), chunks[i])
  {
    seq(|chunks|, i requires 0 <= i < |chunks| => PieceOf(KindOf(events[i], chunks[i]), chunks[i]))
  }

  predicate Idle(s: State) {
    s.phase == Reading && s.eventName == "" && s.data == []
  }

  lemma ChunkText(s: State, kind: string, c: WireChunk)
    requires Idle(s)
    ensures TextOf(OnChunk(s, kind, c).out) == TextOf(s.out) + PieceOf(kind, c)
    ensures Idle(OnChunk(s, kind, c))
  {
    hide TextOf;
    assert TextOf(s.out) + "" == TextOf(s.out);
    match kind
    case "message_start" => StartText(s, c.message);
    case "content_block_delta" =>
      if OnDelta(s, c.delta).out != s.out { TextSnoc(s.out, OnDelta(s, c.delta).out[|s.out|]); }
    case "message_delta" => StopText(s, c);
    case "message_stop" => TextSnoc(s.out, CompleteEvent(s));
    case "error" =>
      if OnError(s, c.error).out != s.out { TextSnoc(s.out, OnError(s, c.error).out[|s.out|]); }
    case _ =>
  }

  lemma StartText(s: State, message: Option<Message>)
    requires Idle(s)
    ensures TextOf(OnMessageStart(s, message).out) == TextOf(s.out) && Idle(OnMessageStart(s, message))
  {}

  lemma StopText(s: State, c: WireChunk)
    requires Idle(s)
    ensures TextOf(OnMessageDelta(s, c).out) == TextOf(s.out) && Idle(OnMessageDelta(s, c))
  {
    hide TextOf;
    var out := OnMessageDelta(s, c).out;
    if out != s.out { TextSnoc(s.out, out[|s.out|]); }
    assert TextOf(s.out) + "" == TextOf(s.out);
  }

  lemma SpacedField(text: string)
    requires text != "" && Trimmed(text)
    ensures TrimStart(" " + text) == text && Trim(" " + text) == text
  {
    assert (" " + text)[1..] == text;
    TrimTrimmed(text);
  }

  lemma NameLine(json: Json, s: State, kind: string)
    requires Trimmed(kind)
    ensures OnLine(json, s, "event: " + kind) == s.(eventName := kind)
  {
    var line := "event: " + kind;
    assert line[..6] == "event:" && line[6..] == " " + kind && line[0] == 'e';
    LetterNotBlank(line);
    if kind != "" { SpacedField(kind); } else { SpaceIsBlank(); }
  }

  lemma SpaceIsBlank()
    ensures Trim(" " + "") == ""
  {
    TrimCuts(" ");
  }

  lemma LetterNotBlank(line: string)
    requires line != "" && !IsSpace(line[0])
    ensures Trim(line) != ""
  {
    TrimCuts(line);
  }

  lemma DataLine(json: Json, s: State, payload: string)
    requires payload != "" && Trimmed(payload)
    ensures OnLine(json, s, "data: " + payload) == s.(data := s.data + [payload])
  {
    var line := "data: " + payload;
    assert line[..5] == "data:" && line[5..] == " " + payload && line[0] == 'd';
    LetterNotBlank(line);
    SpacedField(payload);
  }

  lemma OnWireLine(json: Json, s: State, w: WireLine)
    requires ValidLine(w)
    ensures OnLine(json, s, WireText(w))
            == s.(eventName := if w.Named? then w.kind else s.eventName, data := s.data + Piece(w))
  {
    assert s.data + [] == s.data;
    match w
    case Named(kind) =>
      hide OnLine;
      NameLine(json, s, kind);
    case Data(t) =>
      hide OnLine;
      DataLine(json, s, t);
    case Skipped(_) =>
  }

  lemma FeedStep(json: Json, s: State, lines: seq<string>)
    requires s.phase == Reading && lines != []
    ensures LineDriver.Feed(Machine(json), s, lines)
            == LineDriver.Feed(Machine(json), OnLine(json, s, lines[0]), lines[1..])
  {}

  lemma FeedNothing(json: Json, s: State)
    ensures LineDriver.Feed(Machine(json), s, []) == s
  {}

  lemma {:induction false} FeedWritten(json: Json, s: State, e: seq<WireLine>)
    requires s.phase == Reading && forall i :: 0 <= i < |e| ==> ValidLine(e[i])
    ensures LineDriver.Feed(Machine(json), s, Written(e))
            == s.(eventName := NameAfter(s.eventName, e), data := s.data + Payload(e))
    decreases |e|
  {
    hide OnLine, WireText, ValidLine, Machine, LineDriver.Feed, Piece;
    if e == [] {
      FeedNothing(json, s);
      assert s.data + Payload(e) == s.data;
    } else {
      OnWireLine(json, s, e[0]);
      var next := s.(eventName := if e[0].Named? then e[0].kind else s.eventName, data := s.data + Piece(e[0]));
      FeedStep(json, s, Written(e));
      FeedWritten(json, next, e[1..]);
      assert next.data + Payload(e[1..]) == s.data + Payload(e);
    }
  }

  lemma {:induction false} PayloadParts(e: seq<WireLine>)
    requires forall i :: 0 <= i < |e| ==> ValidLine(e[i])
    ensures forall i :: 0 <= i < |Payload(e)| ==> Payload(e)[i] != "" && Trimmed(Payload(e)[i])
  {
    if e != [] { PayloadParts(e[1..]); }
  }

  /** The payload of a valid event survives trimming. */
  lemma WholePayload(e: seq<WireLine>)
    requires ValidEvent(e)
    ensures Join(Payload(e), "\n") != "" && Trim(Join(Payload(e), "\n")) == Join(Payload(e), "\n")
  {
    PayloadParts(e);
    hide Trim, Join, Payload;
    SseFraming.PayloadTrimmed(Payload(e));
  }

  lemma EmptyLine()
    ensures Trim("") == ""
  {}

  /** The parked name and data are not looked at. */
  lemma OnChunkAside(s: State, name: string, data: seq<string>, kind: string, c: WireChunk)
    requires Idle(s)
    ensures OnChunk(s.(eventName := name, data := data), kind, c).(eventName := "", data := []) == OnChunk(s, kind, c)
  {
    hide OnMessageStart, OnDelta, OnMessageDelta, OnError;
    StartAside(s, name, data, c.message);
    DeltaAside(s, name, data, c);
  }

  lemma StartAside(s: State, name: string, data: seq<string>, message: Option<Message>)
    requires Idle(s)
    ensures OnMessageStart(s.(eventName := name, data := data), message).(eventName := "", data := [])
            == OnMessageStart(s, message)
  {}

  lemma DeltaAside(s: State, name: string, data: seq<string>, c: WireChunk)
    requires Idle(s)
    ensures var parked := s.(eventName := name, data := data);
            && OnDelta(parked, c.delta).(eventName := "", data := []) == OnDelta(s, c.delta)
            && OnMessageDelta(parked, c).(eventName := "", data := []) == OnMessageDelta(s, c)
            && OnError(parked, c.error).(eventName := "", data := []) == OnError(s, c.error)
  {}

  /** What an event makes of the state: its decoded payload counts under its name; text that is not JSON is
      passed over; `null` throws where a field of it would be read. */
  function Taken(json: Json, s: State, e: seq<WireLine>): State {
    match json(Join(Payload(e), "\n"))
    case Malformed => s
    case Null =>
      if ReadsFields(NameAfter("", e)) then s.(phase := Threw)
      else if NameAfter("", e) == "message_stop" then Yield(s.(completed := true), CompleteEvent(s))
      else s
    case Chunk(c) => OnChunk(s, KindOf(e, c), c)
  }

  lemma BlankLine(json: Json, s: State, e: seq<WireLine>)
    requires Idle(s) && ValidEvent(e)
    ensures OnLine(json, s.(eventName := NameAfter("", e), data := Payload(e)), "") == Taken(json, s, e)
  {
    hide OnChunk, ReadsFields, TrimStart, TrimEnd, ValidEvent, Payload, NameAfter, Join;
    WholePayload(e);
    ValidPayload(e);
    EmptyLine();
    var decoded := json(Join(Payload(e), "\n"));
    if decoded.Chunk? { OnChunkAside(s, NameAfter("", e), Payload(e), KindOf(e, decoded.chunk), decoded.chunk); }
  }

  lemma ValidPayload(e: seq<WireLine>)
    requires ValidEvent(e)
    ensures Payload(e) != [] && Join(Payload(e), "\n") != "[DONE]" && forall i :: 0 <= i < |e| ==> ValidLine(e[i])
  {}

  /** An event's lines, with comments, other fields, several pieces of data and a name or none, do what the
      event says. */
  lemma FeedEvent(json: Json, s: State, e: seq<WireLine>, rest: seq<string>)
    requires Idle(s) && ValidEvent(e)
    ensures LineDriver.Feed(Machine(json), s, Written(e) + ([""] + rest)) == LineDriver.Feed(Machine(json), Taken(json, s, e), rest)
  {
    hide OnLine, Machine, Taken, ValidEvent, ValidLine, Payload, NameAfter, Written, LineDriver.Feed, Join;
    ValidPayload(e);
    FeedWritten(json, s, e);
    LineDriver.FeedAppend(Machine(json), s, Written(e), [""] + rest);
    assert s.data + Payload(e) == Payload(e);
    BlankLine(json, s, e);
    FeedStep(json, s.(eventName := NameAfter("", e), data := Payload(e)), [""] + rest);
    assert ([""] + rest)[1..] == rest;
  }

  lemma {:induction false} FeedText(json: Json, s: State, events: seq<seq<WireLine>>, chunks: seq<WireChunk>)
    requires Idle(s) && |events| == |chunks| && forall i :: 0 <= i < |events| ==> Carries(json, events[i], chunks[i])
    ensures var r := LineDriver.Feed(Machine(json), s, BodyLines(events));
            Idle(r) && TextOf(r.out) == TextOf(s.out) + Concat(Replies(events, chunks))
    decreases |events|
  {
    hide TextOf, Concat, OnChunk, Machine, Written, Carries, LineDriver.Feed, PieceOf, KindOf;
    ConcatNothing<char>();
    if events == [] {
      FeedNothing(json, s);
      assert Replies(events, chunks) == [] && TextOf(s.out) + [] == TextOf(s.out);
    } else {
      var texts, next := Replies(events, chunks), OnChunk(s, KindOf(events[0], chunks[0]), chunks[0]);
      FeedCarried(json, s, events[0], chunks[0], BodyLines(events[1..]));
      assert BodyLines(events) == Written(events[0]) + ([""] + BodyLines(events[1..]));
      ChunkText(s, KindOf(events[0], chunks[0]), chunks[0]);
      FeedText(json, next, events[1..], chunks[1..]);
      ConcatHead(texts);
      assert texts[1..] == Replies(events[1..], chunks[1..]);
      assert TextOf(s.out) + texts[0] + Concat(texts[1..]) == TextOf(s.out) + (texts[0] + Concat(texts[1..]));
    }
  }

  /** A body of events, named or not, whatever their kinds and however its lines end, streams exactly the
      text of its text deltas, and says that the completion is complete. */
  lemma BodyCarriesReply(json: Json, model: string, events: seq<seq<WireLine>>, chunks: seq<WireChunk>, crlf: seq<bool>)
    requires |events| == |chunks| && forall i :: 0 <= i < |events| ==> Carries(json, events[i], chunks[i])
    requires LineDriver.Separable(BodyLines(events), crlf)
    ensures var s := Events(json, model, LineDriver.Unsplit(BodyLines(events), crlf, ""));
            s.phase == Ended && Completes(s.out) && TextOf(s.out) == Concat(Replies(events, chunks))
  {
    hide TextOf, Concat, Carries, BodyLines, Completes, LineDriver.Feed, LineDriver.Unsplit, ParseSseEvent, Replies;
    EmptyLine();
    LineDriver.SplitUnsplit(BodyLines(events), crlf, "");
    AlwaysCompletes(json, model, LineDriver.Unsplit(BodyLines(events), crlf, ""));
    FeedText(json, Start(model), events, chunks);
    NothingYet(model);
    var s := LineDriver.Feed(Machine(json), Start(model), BodyLines(events));
    TextSnoc(s.out, CompleteEvent(s));
  }

  // ---------------------------------------------------------------------------------------------
  // Text, reasoning and errors, in order
  // ---------------------------------------------------------------------------------------------

  function DeltaReport(delta: Option<Delta>): seq<StreamEvent> {
    match delta
    case Some(Delta("text_delta", Some(text), _, _)) => [TextDelta(text)]
    case Some(Delta("thinking_delta", _, Some(thinking), _)) => [ThoughtDelta(thinking)]
    case _ => []
  }

  function ErrorReport(error: Option<UpstreamError>): seq<StreamEvent> {
    match error
    case Some(UpstreamError(kind, message)) =>
      [Failed(AdapterError(OrText(kind, "error"), "", OrText(message, "Streaming error")))]
    case None => [Failed(AdapterError("error", "", "Streaming error"))]
  }

  function ChunkReport(kind: string, c: WireChunk): seq<StreamEvent> {
    match kind
    case "content_block_delta" => DeltaReport(c.delta)
    case "error" => ErrorReport(c.error)
    case _ => []
  }

  /** What the caller is to see of an event: a piece of text, a piece of reasoning, or an error with the type
      and the message it came with. */
  function ReportOf(json: Json, e: seq<WireLine>): seq<StreamEvent> {
    match json(Join(Payload(e), "\n"))
    case Chunk(c) => ChunkReport(KindOf(e, c), c)
    case _ => []
  }

  function Reports(json: Json, events: seq<seq<WireLine>>): (reports: seq<seq<StreamEvent>>)
    ensures |reports| == |events| && forall i :: 0 <= i < |events| ==> reports[i] == ReportOf(json, events[i])
  {
    seq(|events|, i requires 0 <= i < |events| => ReportOf(json, events[i]))
  }

  lemma YieldShows(s: State, e: StreamEvent)
    ensures Shown(Yield(s, e).out) == Shown(s.out) + (if e.UsageReport? || e.Complete? then [] else [e])
  {
    ShownSnoc(s.out, e);
  }

  lemma UsageShowsNothing(s: State, c: WireChunk)
    ensures Shown(OnMessageStart(s, c.message).out) == Shown(s.out) && Shown(OnMessageDelta(s, c).out) == Shown(s.out)
  {
    hide Shown;
    forall t: State, e: StreamEvent
      ensures Shown(Yield(t, e).out) == Shown(t.out) + (if e.UsageReport? || e.Complete? then [] else [e])
    {
      YieldShows(t, e);
    }
  }

  lemma DeltaShows(s: State, delta: Option<Delta>)
    ensures Shown(OnDelta(s, delta).out) == Shown(s.out) + DeltaReport(delta)
  {
    hide Shown;
    var reports := DeltaReport(delta);
    if reports == [] {
      assert Shown(s.out) + [] == Shown(s.out);
    } else {
      YieldShows(s, reports[0]);
    }
  }

  lemma ErrorShows(s: State, error: Option<UpstreamError>)
    ensures Shown(OnError(s, error).out) == Shown(s.out) + ErrorReport(error)
  {
    hide Shown;
    YieldShows(s, ErrorReport(error)[0]);
  }

  lemma ChunkShows(s: State, kind: string, c: WireChunk)
    ensures Shown(OnChunk(s, kind, c).out) == Shown(s.out) + ChunkReport(kind, c)
  {
    hide Shown, OnMessageStart, OnMessageDelta, OnDelta, OnError, DeltaReport, ErrorReport;
    UsageShowsNothing(s, c);
    DeltaShows(s, c.delta);
    ErrorShows(s, c.error);
    YieldShows(s.(completed := true), CompleteEvent(s));
    assert Shown(s.out) + [] == Shown(s.out);
  }

  lemma TakenShows(json: Json, s: State, e: seq<WireLine>)
    requires Idle(s) && !ThrowsAt(json, e)
    ensures Idle(Taken(json, s, e)) && Shown(Taken(json, s, e).out) == Shown(s.out) + ReportOf(json, e)
  {
    TakenThrows(json, s, e);
    hide Shown, OnChunk, ChunkReport, Payload, NameAfter, Join, ReadsFields;
    var decoded := json(Join(Payload(e), "\n"));
    if decoded.Chunk? { ChunkShows(s, KindOf(e, decoded.chunk), decoded.chunk); }
    YieldShows(s.(completed := true), CompleteEvent(s));
    assert Shown(s.out) + [] == Shown(s.out);
  }

  lemma {:induction false} FeedShows(json: Json, s: State, events: seq<seq<WireLine>>)
    requires Idle(s) && forall i :: 0 <= i < |events| ==> ValidEvent(events[i]) && !ThrowsAt(json, events[i])
    ensures var r := LineDriver.Feed(Machine(json), s, BodyLines(events));
            Idle(r) && Shown(r.out) == Shown(s.out) + Concat(Reports(json, events))
    decreases |events|
  {
    hide Shown, Concat, Machine, Written, ValidEvent, LineDriver.Feed, ThrowsAt, Taken, ReportOf;
    ConcatNothing<StreamEvent>();
    if events == [] {
      FeedNothing(json, s);
      assert Reports(json, events) == [] && Shown(s.out) + [] == Shown(s.out);
    } else {
      var reports, next := Reports(json, events), Taken(json, s, events[0]);
      FeedEvent(json, s, events[0], BodyLines(events[1..]));
      assert BodyLines(events) == Written(events[0]) + ([""] + BodyLines(events[1..]));
      TakenShows(json, s, events[0]);
      FeedShows(json, next, events[1..]);
      ConcatHead(reports);
      assert reports[1..] == Reports(json, events[1..]);
      assert Shown(s.out) + reports[0] + Concat(reports[1..]) == Shown(s.out) + (reports[0] + Concat(reports[1..]));
    }
  }

  /** Unless decoding throws, the caller sees exactly the text, the reasoning and the errors of a body's
      events, in order. Text that is not JSON is passed over. */
  lemma BodyShows(json: Json, model: string, events: seq<seq<WireLine>>, crlf: seq<bool>)
    requires forall i :: 0 <= i < |events| ==> ValidEvent(events[i]) && !ThrowsAt(json, events[i])
    requires LineDriver.Separable(BodyLines(events), crlf)
    ensures var s := Events(json, model, LineDriver.Unsplit(BodyLines(events), crlf, ""));
            s.phase == Ended && Completes(s.out) && Shown(s.out) == Concat(Reports(json, events))
  {
    hide Shown, Concat, ValidEvent, ThrowsAt, BodyLines, Completes, LineDriver.Feed, LineDriver.Unsplit, ParseSseEvent, Reports;
    EmptyLine();
    LineDriver.SplitUnsplit(BodyLines(events), crlf, "");
    AlwaysCompletes(json, model, LineDriver.Unsplit(BodyLines(events), crlf, ""));
    FeedShows(json, Start(model), events);
    NothingShown(model);
    var s := LineDriver.Feed(Machine(json), Start(model), BodyLines(events));
    YieldShows(s, CompleteEvent(s));
  }

  lemma NothingShown(model: string)
    ensures Shown(Start(model).out) == []
  {}

  // ---------------------------------------------------------------------------------------------
  // What a completion reports
  // ---------------------------------------------------------------------------------------------

  /** What one event reports of the model, the finish reason and the token counts. */
  datatype Report = Report(model: Option<string>, finish: Option<FinishReason>, input: Option<int>, output: Option<int>)

  const NOTHING := Report(None, None, None, None)

  function StartReport(message: Option<Message>): Report {
    match message
    case Some(Message(model, usage)) =>
      var named := NOTHING.(model := if Truthy(model) then model else None);
      (match usage
       case Some(MessageUsage(input, output)) => named.(input := Some(OrElse(input, 0)), output := Some(OrElse(output, 0)))
       case None => named)
    case None => NOTHING
  }

  function StopReport(c: WireChunk): Report {
    var counted := NOTHING.(output := c.outputTokens);
    match c.delta
    case Some(Delta(_, _, _, Some(reason))) =>
      if reason == "" then counted else counted.(finish := Some(MapFinishReason(reason)))
    case _ => counted
  }

  function ReportIn(kind: string, c: WireChunk): Report {
    match kind
    case "message_start" => StartReport(c.message)
    case "message_delta" => StopReport(c)
    case _ => NOTHING
  }

  function ReportsIn(events: seq<seq<WireLine>>, chunks: seq<WireChunk>): seq<Report>
    requires |events| == |chunks|
  {
    if events == [] then [] else [ReportIn(KindOf(events[0], chunks[0]), chunks[0])] + ReportsIn(events[1..], chunks[1..])
  }

  function Field<T>(reports: seq<Report>, field: Report -> Option<T>): (values: seq<Option<T>>)
    ensures |values| == |reports| && forall i :: 0 <= i < |reports| ==> values[i] == field(reports[i])
  {
    seq(|reports|, i requires 0 <= i < |reports| => field(reports[i]))
  }

  /** Values that are what these reports, of each kind the last, make of others. */
  ghost predicate KnownFrom(model: string, finish: FinishReason, input: int, output: int, reports: seq<Report>, after: State) {
    && LastReported(Field(reports, (r: Report) => r.model), model, after.model)
    && LastReported(Field(reports, (r: Report) => r.finish), finish, after.finish)
    && LastReported(Field(reports, (r: Report) => r.input), input, after.inputTokens)
    && LastReported(Field(reports, (r: Report) => r.output), output, after.outputTokens)
  }

  ghost predicate CompletedWith(e: StreamEvent, model: string, reports: seq<Report>) {
    && e.Complete? && e.finalUsage.Some?
    && var u := e.finalUsage.value;
       && u.totalTokens == u.inputTokens + u.outputTokens && u.reasoningTokens.None?
       && LastReported(Field(reports, (r: Report) => r.model), model, e.model)
       && LastReported(Field(reports, (r: Report) => r.finish), Stop, e.finish)
       && LastReported(Field(reports, (r: Report) => r.input), 0, u.inputTokens)
       && LastReported(Field(reports, (r: Report) => r.output), 0, u.outputTokens)
  }

  lemma FieldCons<T>(reports: seq<Report>, field: Report -> Option<T>, default: T, last: T)
    requires reports != [] && LastReported(Field(reports[1..], field), OrElse(field(reports[0]), default), last)
    ensures LastReported(Field(reports, field), default, last)
  {
    hide LastReported;
    assert Field(reports, field)[1..] == Field(reports[1..], field);
    LastReportedCons(Field(reports, field), default, last);
  }

  lemma ChunkReports(s: State, kind: string, c: WireChunk)
    requires kind != "message_stop"
    ensures var t, r := OnChunk(s, kind, c), ReportIn(kind, c);
            && t.model == OrElse(r.model, s.model) && t.finish == OrElse(r.finish, s.finish)
            && t.inputTokens == OrElse(r.input, s.inputTokens) && t.outputTokens == OrElse(r.output, s.outputTokens)
            && t.completed == s.completed
  {
    hide MapFinishReason;
    match kind
    case "message_start" => StartReports(s, c.message);
    case "message_delta" => StopReports(s, c);
    case _ =>
  }

  lemma StartReports(s: State, message: Option<Message>)
    ensures var t, r := OnMessageStart(s, message), StartReport(message);
            && t.model == OrElse(r.model, s.model) && t.finish == s.finish && r.finish.None?
            && t.inputTokens == OrElse(r.input, s.inputTokens) && t.outputTokens == OrElse(r.output, s.outputTokens)
            && t.completed == s.completed
  {}

  lemma StopReports(s: State, c: WireChunk)
    ensures var t, r := OnMessageDelta(s, c), StopReport(c);
            && t.finish == OrElse(r.finish, s.finish) && t.outputTokens == OrElse(r.output, s.outputTokens)
            && t.model == s.model && t.inputTokens == s.inputTokens && r.model.None? && r.input.None?
            && t.completed == s.completed
  {
    hide MapFinishReason;
  }

  lemma KnownCons(s: State, next: State, reports: seq<Report>, after: State)
    requires reports != []
    requires next.model == OrElse(reports[0].model, s.model) && next.finish == OrElse(reports[0].finish, s.finish)
    requires next.inputTokens == OrElse(reports[0].input, s.inputTokens)
    requires next.outputTokens == OrElse(reports[0].output, s.outputTokens)
    requires KnownFrom(next.model, next.finish, next.inputTokens, next.outputTokens, reports[1..], after)
    ensures KnownFrom(s.model, s.finish, s.inputTokens, s.outputTokens, reports, after)
  {
    hide LastReported;
    FieldCons(reports, (r: Report) => r.model, s.model, after.model);
    FieldCons(reports, (r: Report) => r.finish, s.finish, after.finish);
    FieldCons(reports, (r: Report) => r.input, s.inputTokens, after.inputTokens);
    FieldCons(reports, (r: Report) => r.output, s.outputTokens, after.outputTokens);
  }

  lemma NothingKnown(s: State)
    ensures KnownFrom(s.model, s.finish, s.inputTokens, s.outputTokens, [], s)
  {}

  /** An event with this chunk, which does not say that the message is over. */
  predicate GoesOn(json: Json, e: seq<WireLine>, c: WireChunk) {
    Carries(json, e, c) && KindOf(e, c) != "message_stop"
  }

  /** An event that says that the message is over. */
  predicate Stops(json: Json, e: seq<WireLine>) {
    && ValidEvent(e) && json(Join(Payload(e), "\n")).Chunk?
    && KindOf(e, json(Join(Payload(e), "\n")).chunk) == "message_stop"
  }

  lemma FeedCarried(json: Json, s: State, e: seq<WireLine>, c: WireChunk, rest: seq<string>)
    requires Idle(s) && Carries(json, e, c)
    ensures var next := OnChunk(s, KindOf(e, c), c);
            && Idle(next)
            && LineDriver.Feed(Machine(json), s, Written(e) + ([""] + rest)) == LineDriver.Feed(Machine(json), next, rest)
  {
    hide OnChunk, Machine, Written, ValidEvent, LineDriver.Feed, KindOf, Payload, Join;
    FeedEvent(json, s, e, rest);
    ChunkText(s, KindOf(e, c), c);
  }

  lemma {:induction false} FeedKnown(json: Json, s: State, events: seq<seq<WireLine>>, chunks: seq<WireChunk>, rest: seq<string>)
    returns (after: State)
    requires Idle(s) && !s.completed
    requires |events| == |chunks| && forall i :: 0 <= i < |events| ==> GoesOn(json, events[i], chunks[i])
    ensures Idle(after) && !after.completed
    ensures LineDriver.Feed(Machine(json), s, BodyLines(events) + rest) == LineDriver.Feed(Machine(json), after, rest)
    ensures KnownFrom(s.model, s.finish, s.inputTokens, s.outputTokens, ReportsIn(events, chunks), after)
    decreases |events|
  {
    hide OnChunk, Machine, Written, Carries, LineDriver.Feed, KindOf, KnownFrom, ReportIn;
    if events == [] {
      after := s;
      assert [] + rest == rest;
      NothingKnown(s);
    } else {
      var kind := KindOf(events[0], chunks[0]);
      var next := OnChunk(s, kind, chunks[0]);
      assert GoesOn(json, events[0], chunks[0]);
      FeedCarried(json, s, events[0], chunks[0], BodyLines(events[1..]) + rest);
      assert BodyLines(events) + rest == Written(events[0]) + ([""] + (BodyLines(events[1..]) + rest));
      ChunkReports(s, kind, chunks[0]);
      after := FeedKnown(json, next, events[1..], chunks[1..], rest);
      KnownCons(s, next, ReportsIn(events, chunks), after);
    }
  }

  /** A message that is over, with or without the event that says so, is completed by one event with the model,
      the finish reason and the token counts that were reported last. */
  lemma BodyCompletes(json: Json, model: string, events: seq<seq<WireLine>>, chunks: seq<WireChunk>,
                      stop: seq<seq<WireLine>>, crlf: seq<bool>)
    requires |events| == |chunks| && forall i :: 0 <= i < |events| ==> GoesOn(json, events[i], chunks[i])
    requires |stop| <= 1 && forall i :: 0 <= i < |stop| ==> Stops(json, stop[i])
    requires LineDriver.Separable(BodyLines(events) + BodyLines(stop), crlf)
    ensures var s := Events(json, model, LineDriver.Unsplit(BodyLines(events) + BodyLines(stop), crlf, ""));
            && s.phase == Ended && s.out != [] && CompletedWith(s.out[|s.out| - 1], model, ReportsIn(events, chunks))
  {
    hide BodyLines, LineDriver.Feed, LineDriver.Unsplit, ParseSseEvent, LastReported, ReportsIn, GoesOn, Stops, Completes;
    var lines := BodyLines(events) + BodyLines(stop);
    LineDriver.SplitUnsplit(lines, crlf, "");
    EmptyLine();
    var after := FeedKnown(json, Start(model), events, chunks, BodyLines(stop));
    StopCompletes(json, after, stop);
  }

  lemma StopCompletes(json: Json, s: State, stop: seq<seq<WireLine>>)
    requires Idle(s) && !s.completed
    requires |stop| <= 1 && forall i :: 0 <= i < |stop| ==> Stops(json, stop[i])
    ensures var r := LineDriver.Feed(Machine(json), s, BodyLines(stop));
            && Idle(r) && OnEnd(json, r, "").phase == Ended
            && OnEnd(json, r, "").out == s.out + [CompleteEvent(s)]
  {
    hide LineDriver.Feed, ParseSseEvent, KindOf, Written, Payload, Join, ValidEvent;
    EmptyLine();
    if stop == [] {
      FeedNothing(json, s);
      assert BodyLines(stop) == [];
    } else {
      assert Stops(json, stop[0]);
      var c := json(Join(Payload(stop[0]), "\n")).chunk;
      FeedCarried(json, s, stop[0], c, []);
      assert stop[1..] == [];
      assert BodyLines(stop) == Written(stop[0]) + ([""] + []);
      FeedNothing(json, OnChunk(s, "message_stop", c));
    }
  }

  // ---------------------------------------------------------------------------------------------
  // When decoding throws
  // ---------------------------------------------------------------------------------------------

  /** An event whose payload is `null` and of whose kind a field would be read. */
  predicate ThrowsAt(json: Json, e: seq<WireLine>) {
    json(Join(Payload(e), "\n")).Null? && ReadsFields(NameAfter("", e))
  }

  lemma {:induction false} FeedThrows(json: Json, s: State, events: seq<seq<WireLine>>)
    requires Idle(s) && forall i :: 0 <= i < |events| ==> ValidEvent(events[i])
    ensures var r := LineDriver.Feed(Machine(json), s, BodyLines(events));
            if exists i | 0 <= i < |events| :: ThrowsAt(json, events[i]) then r.phase == Threw else Idle(r)
    decreases |events|
  {
    hide Machine, Written, ValidEvent, LineDriver.Feed, ThrowsAt, Taken;
    if events == [] {
      FeedNothing(json, s);
    } else {
      FeedEvent(json, s, events[0], BodyLines(events[1..]));
      assert BodyLines(events) == Written(events[0]) + ([""] + BodyLines(events[1..]));
      TakenThrows(json, s, events[0]);
      if ThrowsAt(json, events[0]) {
        FeedOver(json, Taken(json, s, events[0]), BodyLines(events[1..]));
      } else {
        FeedThrows(json, Taken(json, s, events[0]), events[1..]);
        assert forall i :: 0 < i < |events| ==> events[i] == events[1..][i - 1];
      }
    }
  }

  lemma TakenThrows(json: Json, s: State, e: seq<WireLine>)
    requires Idle(s)
    ensures if ThrowsAt(json, e) then Taken(json, s, e).phase == Threw else Idle(Taken(json, s, e))
  {
    hide ReadsFields, OnChunk, Payload, NameAfter, KindOf;
    var decoded := json(Join(Payload(e), "\n"));
    if decoded.Chunk? { ChunkText(s, KindOf(e, decoded.chunk), decoded.chunk); }
  }

  lemma FeedOver(json: Json, s: State, lines: seq<string>)
    requires s.phase != Reading
    ensures LineDriver.Feed(Machine(json), s, lines) == s
  {}

  /** Decoding throws exactly if some payload is `null` under a name of which fields are read. */
  lemma ThrowsIff(json: Json, model: string, events: seq<seq<WireLine>>, crlf: seq<bool>)
    requires forall i :: 0 <= i < |events| ==> ValidEvent(events[i])
    requires LineDriver.Separable(BodyLines(events), crlf)
    ensures Events(json, model, LineDriver.Unsplit(BodyLines(events), crlf, "")).phase == Threw
            <==> exists i | 0 <= i < |events| :: ThrowsAt(json, events[i])
  {
    hide BodyLines, ValidEvent, ThrowsAt, LineDriver.Feed, ParseSseEvent;
    LineDriver.SplitUnsplit(BodyLines(events), crlf, "");
    FeedThrows(json, Start(model), events);
    EmptyLine();
  }

  lemma NothingYet(model: string)
    ensures TextOf(Start(model).out) == ""
  {}
}
