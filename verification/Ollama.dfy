/** Streaming of the Ollama adapter: newline-delimited JSON, and a separate, simpler path for an
    unterminated last line. */
module Ollama {
  import opened Chunks
  import opened Text
  import opened StreamEvents
  import LineDriver

  datatype WireChunk = WireChunk(
    error: string, model: string, thinking: string, content: string,
    doneReason: string, promptEval: Option<int>, evalCount: Option<int>, done: bool)

  type Json = string -> Decoded<WireChunk>

  datatype State = State(
    model: string, finish: FinishReason, usage: Option<Usage>, out: seq<StreamEvent>, phase: Phase)

  function MapDoneReason(reason: string): FinishReason {
    match reason
    case "stop" => Stop
    case "length" => Length
    case _ => Stop
  }

  function ThoughtEvents(s: string): seq<StreamEvent> {
    if s == "" then [] else [ThoughtDelta(s)]
  }

  function TextEvents(s: string): seq<StreamEvent> {
    if s == "" then [] else [TextDelta(s)]
  }

  function ReportedUsage(c: WireChunk): Option<Usage> {
    if c.promptEval.None? && c.evalCount.None? then None
    else
      var input := if c.promptEval.Some? then c.promptEval.value else 0;
      var output := if c.evalCount.Some? then c.evalCount.value else 0;
      Some(Usage(input, output, input + output, None))
  }

  function UsageEvents(u: Option<Usage>): seq<StreamEvent> {
    if u.Some? then [UsageReport(u.value)] else []
  }

  function OnChunk(s: State, c: WireChunk): State {
    if c.error != "" then s.(out := s.out + [Failed(AdapterError("ollama", "", c.error))], phase := Returned)
    else
      var model := if c.model != "" then c.model else s.model;
      var finish := if c.doneReason != "" then MapDoneReason(c.doneReason) else s.finish;
      var reported := ReportedUsage(c);
      var usage := if reported.Some? then reported else s.usage;
      var out := s.out + ThoughtEvents(c.thinking) + TextEvents(c.content) + UsageEvents(reported);
      if c.done then State(model, finish, usage, out + [Complete(finish, usage, model)], Returned)
      else State(model, finish, usage, out, Reading)
  }

  function OnLine(json: Json, s: State, line: string): State {
    var trimmed := Trim(line);
    if trimmed == "" then s
    else
      match json(trimmed)
      case Malformed => s
      case Null => s.(phase := Threw)
      case Chunk(c) => OnChunk(s, c)
  }

  /** The unterminated last line: no error, reasoning, model or finish reason is taken from it
      unless it also says it is the last chunk. */
  function OnTrailing(s: State, c: WireChunk): State {
    var reported := ReportedUsage(c);
    var usage := if reported.Some? then reported else s.usage;
    var out := s.out + TextEvents(c.content) + UsageEvents(reported);
    if c.done then
      s.(usage := usage, phase := Returned,
         out := out + [Complete(MapDoneReason(c.doneReason), usage, if c.model != "" then c.model else s.model)])
    else s.(usage := usage, out := out)
  }

  function Close(s: State): State {
    s.(phase := Ended, out := s.out + [Complete(s.finish, s.usage, s.model)])
  }

  function OnEnd(json: Json, s: State, buffer: string): State {
    var trimmed := Trim(buffer);
    var folded :=
      if trimmed == "" then s
      else
        match json(trimmed)
        case Chunk(c) => OnTrailing(s, c)
        case _ => s;
    if folded.phase == Reading then Close(folded) else folded
  }

  function Machine(json: Json): LineDriver.Adapter<State> {
    LineDriver.Adapter(
      (s: State, line: string) => OnLine(json, s, line),
      (s: State, buffer: string) => OnEnd(json, s, buffer),
      (s: State) => s.phase != Reading)
  }

  function Start(model: string): State {
    State(model, Stop, None, [], Reading)
  }

  function Events(json: Json, model: string, body: string): State {
    LineDriver.WholeBody(Machine(json), Start(model), body)
  }

  /** Yields events as the reads arrive. They depend on the text alone, not on where reads end. */
  method Stream(json: Json, model: string, chunks: seq<string>) returns (events: seq<StreamEvent>, phase: Phase)
    ensures events == Events(json, model, Concat(chunks)).out
    ensures phase == Events(json, model, Concat(chunks)).phase
    ensures phase == Threw || EndsOnce(events)
  {
    var last := LineDriver.Drive(Machine(json), Start(model), chunks);
    EndsWithOneTerminal(json, model, Concat(chunks));
    return last.out, last.phase;
  }

  ghost predicate Terminated(s: State) {
    match s.phase
    case Reading => NoTerminal(s.out)
    case Threw => true
    case _ => EndsOnce(s.out)
  }

  lemma AppendTerminal(out: seq<StreamEvent>, e: StreamEvent)
    requires NoTerminal(out) && Terminal(e)
    ensures EndsOnce(out + [e])
  {
    assert (out + [e])[..|out|] == out;
  }

  lemma OnLineTerminated(json: Json, s: State, line: string)
    requires s.phase == Reading && Terminated(s)
    ensures Terminated(OnLine(json, s, line))
  {
    var trimmed := Trim(line);
    if trimmed != "" && json(trimmed).Chunk? {
      var c := json(trimmed).chunk;
      var t := OnChunk(s, c);
      if t.phase == Returned {
        AppendTerminal(t.out[..|t.out| - 1], t.out[|t.out| - 1]);
      }
    }
  }

  lemma {:induction false} FeedTerminated(json: Json, s: State, lines: seq<string>)
    requires Terminated(s)
    ensures Terminated(LineDriver.Feed(Machine(json), s, lines))
    decreases |lines|
  {
    if lines != [] && s.phase == Reading {
      OnLineTerminated(json, s, lines[0]);
      FeedTerminated(json, OnLine(json, s, lines[0]), lines[1..]);
    }
  }

  lemma EndsWithOneTerminal(json: Json, model: string, body: string)
    ensures var s := Events(json, model, body);
            s.phase == Threw || (s.phase != Reading && EndsOnce(s.out))
  {
    var cut := LineDriver.Split(body);
    FeedTerminated(json, Start(model), cut.lines);
    var s := LineDriver.Feed(Machine(json), Start(model), cut.lines);
    if s.phase == Reading { OnEndTerminated(json, s, cut.rest); }
  }

  lemma OnEndTerminated(json: Json, s: State, buffer: string)
    requires s.phase == Reading && Terminated(s)
    ensures OnEnd(json, s, buffer).phase != Reading && Terminated(OnEnd(json, s, buffer))
  {
    var t := OnEnd(json, s, buffer);
    AppendTerminal(t.out[..|t.out| - 1], t.out[|t.out| - 1]);
  }

  /** What the trailing path leaves out has no effect for this chunk in this state. */
  predicate TrailingSafe(s: State, c: WireChunk) {
    && c.error == "" && c.thinking == ""
    && if c.done then c.doneReason != "" || s.finish == Stop
       else (c.model == "" || c.model == s.model)
            && (c.doneReason == "" || MapDoneReason(c.doneReason) == s.finish)
  }

  /** The events a last line adds when it is terminated, the closing event included. */
  function AddedByLoop(s: State, c: WireChunk): (seq<StreamEvent>, StreamEvent) {
    var finish := if c.doneReason != "" then MapDoneReason(c.doneReason) else s.finish;
    var usage := if ReportedUsage(c).Some? then ReportedUsage(c) else s.usage;
    var model := if c.model != "" then c.model else s.model;
    if c.error != "" then ([], Failed(AdapterError("ollama", "", c.error)))
    else (ThoughtEvents(c.thinking) + (TextEvents(c.content) + UsageEvents(ReportedUsage(c))), Complete(finish, usage, model))
  }

  /** The events it adds when it is not. */
  function AddedByTrailing(s: State, c: WireChunk): (seq<StreamEvent>, StreamEvent) {
    var usage := if ReportedUsage(c).Some? then ReportedUsage(c) else s.usage;
    (TextEvents(c.content) + UsageEvents(ReportedUsage(c)),
     if c.done then Complete(MapDoneReason(c.doneReason), usage, if c.model != "" then c.model else s.model)
     else Complete(s.finish, usage, s.model))
  }

  lemma LoopAdds(s: State, c: WireChunk)
    requires s.phase == Reading
    ensures var loop := OnChunk(s, c);
            var finished := if loop.phase == Reading then Close(loop) else loop;
            var (events, last) := AddedByLoop(s, c);
            finished.out == s.out + (events + [last])
  {}

  lemma TrailingAdds(s: State, c: WireChunk)
    requires s.phase == Reading
    ensures var folded := OnTrailing(s, c);
            var finished := if folded.phase == Reading then Close(folded) else folded;
            var (events, last) := AddedByTrailing(s, c);
            finished.out == s.out + (events + [last])
  {}

  lemma AddedAlike(s: State, c: WireChunk)
    ensures AddedByLoop(s, c) == AddedByTrailing(s, c) <==> TrailingSafe(s, c)
  {
    var shared := TextEvents(c.content) + UsageEvents(ReportedUsage(c));
    assert ThoughtEvents("") + shared == shared;
    if c.error == "" && c.thinking != "" {
      assert |AddedByLoop(s, c).0| == 1 + |AddedByTrailing(s, c).0|;
    }
  }

  lemma AppendInjective<T>(out: seq<T>, a: seq<T>, x: T, b: seq<T>, y: T)
    ensures out + (a + [x]) == out + (b + [y]) <==> a == b && x == y
  {
    if out + (a + [x]) == out + (b + [y]) {
      assert (out + (a + [x]))[|out|..] == a + [x] && (out + (b + [y]))[|out|..] == b + [y];
      assert (a + [x])[..|a|] == a && (b + [y])[..|b|] == b;
      assert (a + [x])[|a|] == x && (b + [y])[|b|] == y;
    }
  }

  /** A last line without its line feed yields the events it would have yielded with it, exactly
      when it carries nothing the trailing path ignores. */
  lemma TrailingLineAgreement(json: Json, s: State, line: string, c: WireChunk)
    requires s.phase == Reading
    requires Trim(line) != "" && json(Trim(line)) == Chunk(c)
    ensures var terminated := OnLine(json, s, line);
            var finished := if terminated.phase == Reading then Close(terminated) else terminated;
            OnEnd(json, s, line).out == finished.out <==> TrailingSafe(s, c)
  {
    LoopAdds(s, c);
    TrailingAdds(s, c);
    AddedAlike(s, c);
    var (a, x) := AddedByLoop(s, c);
    var (b, y) := AddedByTrailing(s, c);
    AppendInjective(s.out, a, x, b, y);
  }

  // ---------------------------------------------------------------------------------------------
  // The reply, from the wire to the caller
  // ---------------------------------------------------------------------------------------------

  /** A line that decodes to this chunk. */
  predicate Carries(json: Json, line: string, c: WireChunk) {
    Trim(line) != "" && json(Trim(line)) == Chunk(c)
  }

  function Replies(chunks: seq<WireChunk>): (texts: seq<string>)
    ensures |texts| == |chunks| && forall i :: 0 <= i < |chunks| ==> texts[i] == chunks[i].content
  {
    seq(|chunks|, i requires 0 <= i < |chunks| => chunks[i].content)
  }

  lemma ChunkText(s: State, c: WireChunk)
    requires c.error == ""
    ensures TextOf(OnChunk(s, c).out) == TextOf(s.out) + c.content
    ensures s.phase == Reading ==> (OnChunk(s, c).phase == Reading <==> !c.done)
  {
    hide TextOf;
    var t, x, u := ThoughtEvents(c.thinking), TextEvents(c.content), UsageEvents(ReportedUsage(c));
    if t != [] { TextSnoc(s.out, t[0]); } else { assert s.out + t == s.out; }
    if x != [] { TextSnoc(s.out + t, x[0]); } else { assert s.out + t + x == s.out + t; }
    if u != [] { TextSnoc(s.out + t + x, u[0]); } else { assert s.out + t + x + u == s.out + t + x; }
    var last := OnChunk(s, c).out;
    if c.done { TextSnoc(s.out + t + x + u, last[|last| - 1]); }
  }

  lemma FeedChunk(json: Json, s: State, lines: seq<string>, c: WireChunk)
    requires s.phase == Reading && lines != [] && Carries(json, lines[0], c) && c.error == ""
    ensures var next := OnChunk(s, c);
            && TextOf(next.out) == TextOf(s.out) + c.content
            && next.phase == (if c.done then Returned else Reading)
            && LineDriver.Feed(Machine(json), s, lines) == if c.done then next else LineDriver.Feed(Machine(json), next, lines[1..])
  {
    hide TextOf;
    ChunkText(s, c);
    assert OnLine(json, s, lines[0]) == OnChunk(s, c);
  }

  lemma RepliesHead(chunks: seq<WireChunk>)
    requires chunks != []
    ensures Concat(Replies(chunks)) == chunks[0].content + Concat(Replies(chunks[1..]))
  {
    ConcatHead(Replies(chunks));
    assert Replies(chunks)[1..] == Replies(chunks[1..]);
  }

  lemma {:induction false} FeedText(json: Json, s: State, lines: seq<string>, chunks: seq<WireChunk>)
    requires s.phase == Reading && |lines| == |chunks|
    requires forall i :: 0 <= i < |lines| ==> Carries(json, lines[i], chunks[i]) && chunks[i].error == ""
    requires forall i :: 0 <= i < |lines| - 1 ==> !chunks[i].done
    ensures var r := LineDriver.Feed(Machine(json), s, lines);
            && TextOf(r.out) == TextOf(s.out) + Concat(Replies(chunks))
            && (r.phase == Reading || r.phase == Returned)
    decreases |lines|
  {
    hide TextOf, OnChunk, Concat, Carries, Machine;
    NothingSaid();
    if lines == [] {
      assert chunks == [] && TextOf(s.out) + "" == TextOf(s.out);
    } else {
      FeedChunk(json, s, lines, chunks[0]);
      RepliesHead(chunks);
      var said, rest := TextOf(s.out), Concat(Replies(chunks[1..]));
      assert said + chunks[0].content + rest == said + (chunks[0].content + rest);
      if chunks[0].done {
        assert chunks[1..] == [];
      } else {
        FeedText(json, OnChunk(s, chunks[0]), lines[1..], chunks[1..]);
      }
    }
  }

  lemma NothingSaid()
    ensures Concat(Replies([])) == ""
  {}

  /** Lines without errors, of which only the last may say it is the last chunk, stream exactly the text
      of their chunks, then one terminal event: the completion, with the model, the finish reason and the
      usage that were reported last. */
  lemma BodyCarriesReply(json: Json, model: string, lines: seq<string>, chunks: seq<WireChunk>, crlf: seq<bool>)
    requires |lines| == |chunks| && LineDriver.Separable(lines, crlf)
    requires forall i :: 0 <= i < |lines| ==> Carries(json, lines[i], chunks[i]) && chunks[i].error == ""
    requires forall i :: 0 <= i < |lines| - 1 ==> !chunks[i].done
    ensures var s := Events(json, model, LineDriver.Unsplit(lines, crlf, ""));
            && (s.phase == Returned || s.phase == Ended) && EndsOnce(s.out) && TextOf(s.out) == Concat(Replies(chunks))
            && CompletedWith(s.out[|s.out| - 1], model, chunks)
  {
    hide TextOf, Concat, Carries, LineDriver.Feed, LineDriver.Unsplit, OnEnd, Replies, NoTerminal, OnLine, LastReported;
    var body := LineDriver.Unsplit(lines, crlf, "");
    LineDriver.SplitUnsplit(lines, crlf, "");
    EndsWithOneTerminal(json, model, body);
    FeedText(json, Start(model), lines, chunks);
    FeedKnown(json, Start(model), lines, chunks);
    NothingYet(model);
    var s := LineDriver.Feed(Machine(json), Start(model), lines);
    if s.phase == Reading { EndsWithoutText(json, s); }
  }

  lemma EndsWithoutText(json: Json, s: State)
    requires s.phase == Reading
    ensures OnEnd(json, s, "").phase == Ended && TextOf(OnEnd(json, s, "").out) == TextOf(s.out)
    ensures OnEnd(json, s, "").out == s.out + [Complete(s.finish, s.usage, s.model)]
  {
    hide TextOf;
    TextSnoc(s.out, Complete(s.finish, s.usage, s.model));
    assert TextOf(s.out) + "" == TextOf(s.out);
  }

  lemma NothingYet(model: string)
    ensures TextOf(Start(model).out) == ""
  {}

  /** A line with an error ends the stream with it, behind the text of the lines before it, whatever
      follows it. */
  lemma BodyFails(json: Json, model: string, lines: seq<string>, chunks: seq<WireChunk>, line: string, c: WireChunk,
                  later: seq<string>, crlf: seq<bool>, rest: string)
    requires |lines| == |chunks| && LineDriver.Separable(lines + ([line] + later), crlf) && '\n' !in rest
    requires forall i :: 0 <= i < |lines| ==> Carries(json, lines[i], chunks[i]) && chunks[i].error == "" && !chunks[i].done
    requires Carries(json, line, c) && c.error != ""
    ensures var s := Events(json, model, LineDriver.Unsplit(lines + ([line] + later), crlf, rest));
            && s.phase == Returned && EndsOnce(s.out) && TextOf(s.out) == Concat(Replies(chunks))
            && s.out[|s.out| - 1] == Failed(AdapterError("ollama", "", c.error))
  {
    hide TextOf, Concat, Carries, LineDriver.Feed, LineDriver.Unsplit, OnEnd, Replies, NoTerminal, OnLine, OnChunk;
    var all := lines + ([line] + later);
    LineDriver.SplitUnsplit(all, crlf, rest);
    EndsWithOneTerminal(json, model, LineDriver.Unsplit(all, crlf, rest));
    LineDriver.FeedAppend(Machine(json), Start(model), lines, [line] + later);
    FeedText(json, Start(model), lines, chunks);
    FeedKnown(json, Start(model), lines, chunks);
    NothingYet(model);
    ErrorFails(json, LineDriver.Feed(Machine(json), Start(model), lines), line, c, later);
  }

  lemma ErrorFails(json: Json, s: State, line: string, c: WireChunk, later: seq<string>)
    requires s.phase == Reading && Carries(json, line, c) && c.error != ""
    ensures var r := LineDriver.Feed(Machine(json), s, [line] + later);
            && r.phase == Returned && r.out == s.out + [Failed(AdapterError("ollama", "", c.error))]
            && TextOf(r.out) == TextOf(s.out)
  {
    hide TextOf, Trim;
    TextSnoc(s.out, Failed(AdapterError("ollama", "", c.error)));
    assert TextOf(s.out) + "" == TextOf(s.out);
    var next := OnLine(json, s, line);
    assert LineDriver.Feed(Machine(json), next, later) == next;
    assert ([line] + later)[0] == line && ([line] + later)[1..] == later;
  }

  // ---------------------------------------------------------------------------------------------
  // What a completion reports
  // ---------------------------------------------------------------------------------------------

  function ModelsIn(chunks: seq<WireChunk>): seq<Option<string>> {
    if chunks == [] then [] else [if chunks[0].model != "" then Some(chunks[0].model) else None] + ModelsIn(chunks[1..])
  }

  function FinishesIn(chunks: seq<WireChunk>): seq<Option<FinishReason>> {
    if chunks == [] then []
    else [if chunks[0].doneReason != "" then Some(if chunks[0].doneReason == "length" then Length else Stop) else None]
         + FinishesIn(chunks[1..])
  }

  /** A count that is missing beside the other one is zero. */
  function UsageIn(c: WireChunk): Option<Option<Usage>> {
    match (c.promptEval, c.evalCount)
    case (None, None) => None
    case (Some(input), None) => Some(Some(Usage(input, 0, input, None)))
    case (None, Some(output)) => Some(Some(Usage(0, output, output, None)))
    case (Some(input), Some(output)) => Some(Some(Usage(input, output, input + output, None)))
  }

  function UsagesIn(chunks: seq<WireChunk>): seq<Option<Option<Usage>>> {
    if chunks == [] then [] else [UsageIn(chunks[0])] + UsagesIn(chunks[1..])
  }

  /** What is known after these chunks is what they reported last. */
  ghost predicate KnownFrom(model: string, finish: FinishReason, usage: Option<Usage>, chunks: seq<WireChunk>, after: State) {
    && LastReported(ModelsIn(chunks), model, after.model)
    && LastReported(FinishesIn(chunks), finish, after.finish)
    && LastReported(UsagesIn(chunks), usage, after.usage)
  }

  ghost predicate CompletedWith(e: StreamEvent, model: string, chunks: seq<WireChunk>) {
    && e.Complete?
    && LastReported(ModelsIn(chunks), model, e.model)
    && LastReported(FinishesIn(chunks), Stop, e.finish)
    && LastReported(UsagesIn(chunks), None, e.finalUsage)
  }

  lemma KnownCons(s: State, chunks: seq<WireChunk>, after: State)
    requires chunks != [] && chunks[0].error == ""
    requires var next := OnChunk(s, chunks[0]); KnownFrom(next.model, next.finish, next.usage, chunks[1..], after)
    ensures KnownFrom(s.model, s.finish, s.usage, chunks, after)
  {
    hide LastReported;
    LastReportedCons(ModelsIn(chunks), s.model, after.model);
    LastReportedCons(FinishesIn(chunks), s.finish, after.finish);
    LastReportedCons(UsagesIn(chunks), s.usage, after.usage);
  }

  lemma NothingKnown(s: State)
    ensures KnownFrom(s.model, s.finish, s.usage, [], s)
  {}

  lemma DoneCompletes(s: State, c: WireChunk)
    requires c.error == "" && c.done
    ensures var t := OnChunk(s, c); t.out != [] && t.out[|t.out| - 1] == Complete(t.finish, t.usage, t.model)
  {}

  lemma {:induction false} FeedKnown(json: Json, s: State, lines: seq<string>, chunks: seq<WireChunk>)
    requires s.phase == Reading && |lines| == |chunks|
    requires forall i :: 0 <= i < |lines| ==> Carries(json, lines[i], chunks[i]) && chunks[i].error == ""
    requires forall i :: 0 <= i < |lines| - 1 ==> !chunks[i].done
    ensures var r := LineDriver.Feed(Machine(json), s, lines);
            && KnownFrom(s.model, s.finish, s.usage, chunks, r)
            && (r.phase == Returned ==> r.out != [] && r.out[|r.out| - 1] == Complete(r.finish, r.usage, r.model))
            && (r.phase == Reading <==> forall i :: 0 <= i < |chunks| ==> !chunks[i].done)
    decreases |lines|
  {
    hide TextOf, OnChunk, Carries, Machine, KnownFrom;
    if lines == [] {
      NothingKnown(s);
    } else {
      var next := OnChunk(s, chunks[0]);
      FeedChunk(json, s, lines, chunks[0]);
      if chunks[0].done {
        assert chunks[1..] == [];
        DoneCompletes(s, chunks[0]);
        NothingKnown(next);
        KnownCons(s, chunks, next);
      } else {
        FeedKnown(json, next, lines[1..], chunks[1..]);
        KnownCons(s, chunks, LineDriver.Feed(Machine(json), next, lines[1..]));
        assert forall i :: 0 < i < |chunks| ==> chunks[i] == chunks[1..][i - 1];
      }
    }
  }

  // ---------------------------------------------------------------------------------------------
  // When decoding throws
  // ---------------------------------------------------------------------------------------------

  /** The first line that is neither blank, nor malformed, nor a chunk after which reading goes on, is
      `null`. */
  predicate ThrowsFirst(json: Json, lines: seq<string>) {
    lines != [] && (NullLine(json, lines[0]) || (PassedOver(json, lines[0]) && ThrowsFirst(json, lines[1..])))
  }

  predicate NullLine(json: Json, line: string) {
    Trim(line) != "" && json(Trim(line)).Null?
  }

  predicate PassedOver(json: Json, line: string) {
    var trimmed := Trim(line);
    trimmed == ""
    || match json(trimmed)
       case Malformed => true
       case Null => false
       case Chunk(c) => c.error == "" && !c.done
  }

  lemma {:induction false} FeedThrows(json: Json, s: State, lines: seq<string>)
    requires s.phase == Reading
    ensures LineDriver.Feed(Machine(json), s, lines).phase == Threw <==> ThrowsFirst(json, lines)
    decreases |lines|
  {
    if lines != [] {
      hide Trim;
      var next := OnLine(json, s, lines[0]);
      assert next.phase == Threw <==> NullLine(json, lines[0]);
      assert next.phase == Reading <==> PassedOver(json, lines[0]);
      if next.phase == Reading { FeedThrows(json, next, lines[1..]); }
    }
  }

  /** Decoding throws exactly if a terminated line is `null` and no line before it ended the stream; an
      unterminated last line never makes it throw. */
  lemma ThrowsIff(json: Json, model: string, lines: seq<string>, crlf: seq<bool>, rest: string)
    requires LineDriver.Separable(lines, crlf) && '\n' !in rest
    ensures Events(json, model, LineDriver.Unsplit(lines, crlf, rest)).phase == Threw <==> ThrowsFirst(json, lines)
  {
    hide LineDriver.Feed, ThrowsFirst, OnTrailing, Trim, LineDriver.Unsplit;
    LineDriver.SplitUnsplit(lines, crlf, rest);
    FeedThrows(json, Start(model), lines);
    var s := LineDriver.Feed(Machine(json), Start(model), lines);
    if s.phase == Reading { TrailingNeverThrows(json, s, rest); }
  }

  lemma TrailingNeverThrows(json: Json, s: State, rest: string)
    requires s.phase == Reading
    ensures OnEnd(json, s, rest).phase != Threw
  {}
}
