/** Server-sent-event framing as the OpenAI and Google adapters do it: `data:` lines are parked
    until a blank line, comments and other fields are skipped, the first terminal event ends the
    stream, and an unterminated last event is flushed at the end of the body. */
module SseFraming {
  import opened Chunks
  import opened Text
  import opened StreamEvents
  import LineDriver

  /** What decoding one payload yields: events, the updated context, whether it was the
      end-of-stream sentinel, and whether decoding threw. */
  datatype Parsed<+C> = Parsed(events: seq<StreamEvent>, ctx: C, completed: bool, threw: bool)

  /** The part of an adapter that is specific to its provider. */
  datatype Protocol<!C> = Protocol(parse: (string, C) -> Parsed<C>, closing: C -> StreamEvent)

  /** Everything that lives across reads, and the events yielded so far. */
  datatype Carry<+C> = Carry(data: seq<string>, ctx: C, completed: bool, out: seq<StreamEvent>, phase: Phase)

  function Start<C>(ctx: C): Carry<C> {
    Carry([], ctx, false, [], Reading)
  }

  /** Decodes one payload and yields its events, returning at the first terminal one. */
  function Dispatch<C>(p: Protocol<C>, s: Carry<C>, payload: string): Carry<C> {
    var r := p.parse(payload, s.ctx);
    if r.threw then s.(phase := Threw)
    else
      s.(ctx := r.ctx, completed := s.completed || r.completed,
         out := s.out + UpToTerminal(r.events),
         phase := if NoTerminal(r.events) then Reading else Returned)
  }

  function OnLine<C>(p: Protocol<C>, s: Carry<C>, line: string): Carry<C> {
    if Trim(line) == "" then
      if s.data == [] then s else Dispatch(p, s.(data := []), Trim(Join(s.data, "\n")))
    else if StartsWith(line, ":") then s
    else if StartsWith(line, "data:") then s.(data := s.data + [TrimStart(line[5..])])
    else s
  }

  /** What the text after the last line feed adds to the parked event. */
  function Leftover(buffer: string): seq<string> {
    var trailing := Trim(buffer);
    if StartsWith(trailing, "data:") then [TrimStart(trailing[5..])]
    else if trailing != "" && !StartsWith(trailing, ":") then [trailing]
    else []
  }

  function OnEnd<C>(p: Protocol<C>, s: Carry<C>, buffer: string): Carry<C> {
    Flush(p, s.(data := s.data + Leftover(buffer)))
  }

  /** Dispatches what is parked, and closes the stream if nothing has ended it. */
  function Flush<C>(p: Protocol<C>, s: Carry<C>): Carry<C> {
    var payload := Trim(Join(s.data, "\n"));
    var flushed := if payload != "" then Dispatch(p, s, payload) else s;
    if flushed.phase != Reading then flushed
    else if flushed.completed then flushed.(phase := Ended)
    else flushed.(phase := Ended, out := flushed.out + [p.closing(flushed.ctx)])
  }

  function Machine<C>(p: Protocol<C>): LineDriver.Adapter<Carry<C>> {
    LineDriver.Adapter(
      (s: Carry<C>, line: string) => OnLine(p, s, line),
      (s: Carry<C>, buffer: string) => OnEnd(p, s, buffer),
      (s: Carry<C>) => s.phase != Reading)
  }

  /** The end-of-stream sentinel always comes with a terminal event, and the closing event is one. */
  ghost predicate Closes<C(!new)>(p: Protocol<C>) {
    && (forall payload: string, ctx: C ::
          var r := p.parse(payload, ctx); r.completed ==> !NoTerminal(r.events))
    && forall ctx: C :: Terminal(p.closing(ctx))
  }

  /** Nothing terminal while reading; exactly one terminal event, last, once the stream is over. */
  ghost predicate Terminated<C>(s: Carry<C>) {
    match s.phase
    case Reading => NoTerminal(s.out) && !s.completed
    case Threw => NoTerminal(s.out)
    case _ => EndsOnce(s.out)
  }

  lemma EndsOnceAppend(before: seq<StreamEvent>, last: seq<StreamEvent>)
    requires NoTerminal(before) && EndsOnce(last)
    ensures EndsOnce(before + last)
  {
    assert (before + last)[..|before + last| - 1] == before + last[..|last| - 1];
  }

  lemma DispatchTerminated<C(!new)>(p: Protocol<C>, s: Carry<C>, payload: string)
    requires Closes(p) && s.phase == Reading && Terminated(s)
    ensures Terminated(Dispatch(p, s, payload))
  {
    var r := p.parse(payload, s.ctx);
    if !NoTerminal(r.events) { EndsOnceAppend(s.out, UpToTerminal(r.events)); }
  }

  lemma OnLineTerminated<C(!new)>(p: Protocol<C>, s: Carry<C>, line: string)
    requires Closes(p) && s.phase == Reading && Terminated(s)
    ensures Terminated(OnLine(p, s, line))
  {
    DispatchTerminated(p, s.(data := []), Trim(Join(s.data, "\n")));
  }

  lemma OnEndTerminated<C(!new)>(p: Protocol<C>, s: Carry<C>, buffer: string)
    requires Closes(p) && s.phase == Reading && Terminated(s)
    ensures Terminated(OnEnd(p, s, buffer)) && OnEnd(p, s, buffer).phase != Reading
  {
    hide Leftover, Trim, Join;
    var folded := s.(data := s.data + Leftover(buffer));
    var payload := Trim(Join(folded.data, "\n"));
    DispatchTerminated(p, folded, payload);
    var flushed := if payload != "" then Dispatch(p, folded, payload) else folded;
    if flushed.phase == Reading { EndsOnceAppend(flushed.out, [p.closing(flushed.ctx)]); }
  }

  lemma {:induction false} FeedTerminated<C(!new)>(p: Protocol<C>, s: Carry<C>, lines: seq<string>)
    requires Closes(p) && Terminated(s)
    ensures Terminated(LineDriver.Feed(Machine(p), s, lines))
    decreases |lines|
  {
    if lines != [] && s.phase == Reading {
      OnLineTerminated(p, s, lines[0]);
      FeedTerminated(p, OnLine(p, s, lines[0]), lines[1..]);
    }
  }

  /** Every body that does not make the decoder throw ends with exactly one terminal event. */
  lemma TerminalOnceAndLast<C(!new)>(p: Protocol<C>, ctx: C, body: string)
    requires Closes(p)
    ensures var s := LineDriver.WholeBody(Machine(p), Start(ctx), body);
            s.phase == Threw || (s.phase != Reading && EndsOnce(s.out))
  {
    var cut := LineDriver.Split(body);
    FeedTerminated(p, Start(ctx), cut.lines);
    var s := LineDriver.Feed(Machine(p), Start(ctx), cut.lines);
    if s.phase == Reading { OnEndTerminated(p, s, cut.rest); }
  }

  // ---------------------------------------------------------------------------------------------
  // Round trip: a body written event by event is decoded event by event.
  // ---------------------------------------------------------------------------------------------

  /** A line of an event on the wire: a piece of its payload, or a comment or field to be skipped. */
  datatype WireLine = Data(text: string) | Skipped(text: string)

  predicate ValidLine(w: WireLine) {
    && '\n' !in w.text
    && match w
       case Data(t) => t != "" && Trimmed(t)
       case Skipped(t) => Trim(t) != "" && !StartsWith(t, "data:")
  }

  predicate ValidEvent(e: seq<WireLine>) {
    && (forall i :: 0 <= i < |e| ==> ValidLine(e[i]))
    && Payload(e) != []
  }

  function WireText(w: WireLine): string {
    if w.Data? then "data: " + w.text else w.text
  }

  function Piece(w: WireLine): seq<string> {
    if w.Data? then [w.text] else []
  }

  function Written(e: seq<WireLine>): seq<string> {
    if e == [] then [] else [WireText(e[0])] + Written(e[1..])
  }

  function Payload(e: seq<WireLine>): seq<string> {
    if e == [] then [] else Piece(e[0]) + Payload(e[1..])
  }

  /** The lines of a body: every event's lines, then a blank one. */
  function BodyLines(events: seq<seq<WireLine>>): seq<string> {
    if events == [] then [] else Written(events[0]) + [""] + BodyLines(events[1..])
  }

  /** The reference: hand over each event's payload, until the stream is over. */
  function Deliver<C>(p: Protocol<C>, s: Carry<C>, events: seq<seq<WireLine>>): Carry<C>
    decreases |events|
  {
    if events == [] || s.phase != Reading then s
    else Deliver(p, Dispatch(p, s, Join(Payload(events[0]), "\n")), events[1..])
  }

  /** What the adapter makes of one line of an event. */
  lemma OnWireLine<C>(p: Protocol<C>, s: Carry<C>, w: WireLine)
    requires ValidLine(w)
    ensures OnLine(p, s, WireText(w)) == s.(data := s.data + Piece(w))
  {
    if w.Data? {
      DataLine(w.text);
    } else {
      assert s.data + [] == s.data;
    }
  }

  lemma DataLine(text: string)
    requires text != "" && Trimmed(text)
    ensures Trimmed("data: " + text) && Trim("data: " + text) != ""
    ensures StartsWith("data: " + text, "data:")
    ensures TrimStart(("data: " + text)[5..]) == text
  {}

  lemma FeedStep<C>(p: Protocol<C>, s: Carry<C>, lines: seq<string>)
    requires s.phase == Reading && lines != []
    ensures LineDriver.Feed(Machine(p), s, lines)
            == LineDriver.Feed(Machine(p), OnLine(p, s, lines[0]), lines[1..])
  {}

  lemma {:induction false} FeedWritten<C>(p: Protocol<C>, s: Carry<C>, e: seq<WireLine>)
    requires s.phase == Reading && forall i :: 0 <= i < |e| ==> ValidLine(e[i])
    ensures LineDriver.Feed(Machine(p), s, Written(e)) == s.(data := s.data + Payload(e))
    decreases |e|
  {
    hide OnLine, WireText, ValidLine, Machine;
    if e == [] {
      assert s.data + Payload(e) == s.data;
    } else {
      OnWireLine(p, s, e[0]);
      var s' := s.(data := s.data + Piece(e[0]));
      FeedStep(p, s, Written(e));
      FeedWritten(p, s', e[1..]);
      assert s'.data + Payload(e[1..]) == s.data + Payload(e);
    }
  }

  lemma {:induction false} PayloadTrimmed(parts: seq<string>)
    requires parts != [] && forall i :: 0 <= i < |parts| ==> parts[i] != "" && Trimmed(parts[i])
    ensures Join(parts, "\n") != "" && Trimmed(Join(parts, "\n"))
    ensures Trim(Join(parts, "\n")) == Join(parts, "\n")
  {
    var j := Join(parts, "\n");
    if |parts| > 1 {
      PayloadTrimmed(parts[1..]);
      assert j == (parts[0] + "\n") + Join(parts[1..], "\n");
      assert j[0] == parts[0][0];
    }
    TrimTrimmed(j);
  }

  lemma {:induction false} PayloadParts(e: seq<WireLine>)
    requires forall i :: 0 <= i < |e| ==> ValidLine(e[i])
    ensures forall i :: 0 <= i < |Payload(e)| ==> Payload(e)[i] != "" && Trimmed(Payload(e)[i])
  {
    if e != [] { PayloadParts(e[1..]); }
  }

  lemma ValidLines(e: seq<WireLine>)
    requires ValidEvent(e)
    ensures forall i :: 0 <= i < |e| ==> ValidLine(e[i])
  {}

  lemma FeedNothing<C>(p: Protocol<C>, s: Carry<C>)
    ensures LineDriver.Feed(Machine(p), s, []) == s
  {}

  lemma FeedOver<C>(p: Protocol<C>, s: Carry<C>, lines: seq<string>)
    requires s.phase != Reading
    ensures LineDriver.Feed(Machine(p), s, lines) == s
  {}

  lemma DispatchKeepsData<C>(p: Protocol<C>, s: Carry<C>, payload: string)
    ensures Dispatch(p, s, payload).data == s.data
  {}

  lemma {:induction false} FeedBody<C>(p: Protocol<C>, s: Carry<C>, events: seq<seq<WireLine>>)
    requires s.data == [] && s.phase == Reading
    requires forall i :: 0 <= i < |events| ==> ValidEvent(events[i])
    ensures LineDriver.Feed(Machine(p), s, BodyLines(events)) == Deliver(p, s, events)
    decreases |events|
  {
    hide OnLine, Dispatch, Join, Payload, Written, ValidEvent, Machine, LineDriver.Feed;
    if events == [] {
      FeedNothing(p, s);
    } else {
      assert ValidEvent(events[0]);
      var e, rest := events[0], BodyLines(events[1..]);
      var parked := s.(data := Payload(e));
      var next := Dispatch(p, s, Join(Payload(e), "\n"));
      assert s.data + Payload(e) == Payload(e);
      ValidLines(e);
      FeedWritten(p, s, e);
      LineDriver.FeedAppend(Machine(p), s, Written(e), [""] + rest);
      assert BodyLines(events) == Written(e) + ([""] + rest);
      OnBlankLine(p, s, e);
      FeedStep(p, parked, [""] + rest);
      assert ([""] + rest)[1..] == rest;
      if next.phase == Reading {
        DispatchKeepsData(p, s, Join(Payload(e), "\n"));
        FeedBody(p, next, events[1..]);
      } else {
        FeedOver(p, next, rest);
      }
    }
  }

  lemma OnBlankLine<C>(p: Protocol<C>, s: Carry<C>, e: seq<WireLine>)
    requires s.data == [] && ValidEvent(e)
    ensures OnLine(p, s.(data := Payload(e)), "") == Dispatch(p, s, Join(Payload(e), "\n"))
  {
    PayloadParts(e);
    PayloadTrimmed(Payload(e));
    assert s.(data := Payload(e)).(data := []) == s;
  }

  /** The end of a body whose last event is terminated. */
  function Closed<C>(p: Protocol<C>, s: Carry<C>): Carry<C> {
    if s.phase != Reading then s else OnEnd(p, s, "")
  }

  /** However its lines end and however it is cut into reads, a body that carries these events
      hands exactly their payloads to the decoder, one by one. */
  lemma BodyRoundTrip<C>(p: Protocol<C>, ctx: C, events: seq<seq<WireLine>>, crlf: seq<bool>)
    requires forall i :: 0 <= i < |events| ==> ValidEvent(events[i])
    requires LineDriver.Separable(BodyLines(events), crlf)
    ensures LineDriver.WholeBody(Machine(p), Start(ctx), LineDriver.Unsplit(BodyLines(events), crlf, ""))
            == Closed(p, Deliver(p, Start(ctx), events))
  {
    LineDriver.SplitUnsplit(BodyLines(events), crlf, "");
    FeedBody(p, Start(ctx), events);
  }

  // ---------------------------------------------------------------------------------------------
  // Bodies that end inside an event
  // ---------------------------------------------------------------------------------------------

  /** A body of whole events, then some lines of one more event, then text without a line feed: the text
      counts as payload unless it is blank or a comment, and what is parked is flushed. */
  lemma OpenEnd<C>(p: Protocol<C>, ctx: C, events: seq<seq<WireLine>>, open: seq<WireLine>, rest: string, crlf: seq<bool>)
    requires forall i :: 0 <= i < |events| ==> ValidEvent(events[i])
    requires (forall i :: 0 <= i < |open| ==> ValidLine(open[i])) && '\n' !in rest
    requires LineDriver.Separable(BodyLines(events) + Written(open), crlf)
    ensures var s := Deliver(p, Start(ctx), events);
            LineDriver.WholeBody(Machine(p), Start(ctx), LineDriver.Unsplit(BodyLines(events) + Written(open), crlf, rest))
            == if s.phase != Reading then s else Flush(p, s.(data := Payload(open) + Leftover(rest)))
  {
    hide ValidEvent, BodyLines, Written, Payload, Leftover, OnLine, Dispatch, LineDriver.Feed, Flush;
    var s := Deliver(p, Start(ctx), events);
    LineDriver.SplitUnsplit(BodyLines(events) + Written(open), crlf, rest);
    LineDriver.FeedAppend(Machine(p), Start(ctx), BodyLines(events), Written(open));
    FeedBody(p, Start(ctx), events);
    DeliverKeepsData(p, Start(ctx), events);
    if s.phase == Reading {
      FeedWritten(p, s, open);
      assert s.data + Payload(open) == Payload(open);
    } else {
      FeedOver(p, s, Written(open));
    }
  }

  lemma {:induction false} DeliverKeepsData<C>(p: Protocol<C>, s: Carry<C>, events: seq<seq<WireLine>>)
    ensures Deliver(p, s, events).data == s.data
    decreases |events|
  {
    if events != [] && s.phase == Reading {
      DispatchKeepsData(p, s, Join(Payload(events[0]), "\n"));
      DeliverKeepsData(p, Dispatch(p, s, Join(Payload(events[0]), "\n")), events[1..]);
    }
  }

  /** Without its line feed, this line is taken for what it is. */
  predicate SafeLeftover(w: WireLine) {
    w.Data? || StartsWith(Trim(w.text), ":") || Trim(w.text) == "data:"
  }

  /** The lines of an event whose last line has no line feed, or has one (`fed`) but no blank line after it. */
  function OpenLines(e: seq<WireLine>, fed: bool): seq<WireLine>
    requires e != []
  {
    if fed then e else e[..|e| - 1]
  }

  function OpenRest(e: seq<WireLine>, fed: bool): string
    requires e != []
  {
    if fed then "" else WireText(e[|e| - 1])
  }

  /** Cut off without its last line feed, an event has its own payload exactly if its last line is data or a
      comment. Another field is mistaken for data. */
  lemma LeftoverPayloadIff(e: seq<WireLine>)
    requires ValidEvent(e)
    ensures e != []
    ensures Trim(Join(Payload(OpenLines(e, false)) + Leftover(OpenRest(e, false)), "\n")) == Join(Payload(e), "\n")
            <==> SafeLeftover(e[|e| - 1])
  {
    hide Payload, Leftover, Trim, Join, ValidEvent, SafeLeftover;
    LastLine(e);
    LastPayload(e);
    WholePayload(e);
    var init, w := e[..|e| - 1], e[|e| - 1];
    DataIsSafe(w);
    if w.Data? {
      LeftoverData(w.text);
    } else {
      assert Payload(init) + [] == Payload(init);
      LeftoverField(Payload(init), w.text);
    }
  }

  lemma LastLine(e: seq<WireLine>)
    requires ValidEvent(e)
    ensures e != [] && ValidLine(e[|e| - 1])
  {}

  lemma LastPayload(e: seq<WireLine>)
    requires e != []
    ensures Payload(e) == Payload(e[..|e| - 1]) + Piece(e[|e| - 1])
  {
    hide Piece, WireText, Written;
    var init, w := e[..|e| - 1], e[|e| - 1];
    assert e == init + [w];
    PayloadAppend(init, [w]);
    OneLine(w);
  }

  lemma WholePayload(e: seq<WireLine>)
    requires ValidEvent(e)
    ensures var payload := Join(Payload(e), "\n");
            Payload(e) != [] && payload != "" && Trimmed(payload) && Trim(payload) == payload
  {
    hide Trim, Join, Payload;
    PayloadParts(e);
    PayloadTrimmed(Payload(e));
  }

  lemma DataIsSafe(w: WireLine)
    ensures w.Data? ==> SafeLeftover(w)
    ensures w.Skipped? ==> w == Skipped(w.text)
  {}

  lemma OneLine(w: WireLine)
    ensures Written([w]) == [WireText(w)] && Payload([w]) == Piece(w)
  {
    assert [w][1..] == [];
  }

  lemma LeftoverData(text: string)
    requires text != "" && Trimmed(text)
    ensures Leftover(WireText(Data(text))) == [text]
  {
    DataLine(text);
    TrimTrimmed("data: " + text);
  }

  lemma {:induction false} PayloadAppend(a: seq<WireLine>, b: seq<WireLine>)
    ensures Payload(a + b) == Payload(a) + Payload(b)
  {
    if a == [] {
      assert a + b == b;
    } else {
      assert (a + b)[1..] == a[1..] + b;
      PayloadAppend(a[1..], b);
    }
  }

  lemma LeftoverField(parts: seq<string>, text: string)
    requires parts != [] && Join(parts, "\n") != "" && Trimmed(Join(parts, "\n"))
    requires Trim(text) != "" && !StartsWith(text, "data:")
    ensures Trim(Join(parts + Leftover(text), "\n")) == Join(parts, "\n") <==> SafeLeftover(Skipped(text))
  {
    hide Trim, Join;
    var j, t := Join(parts, "\n"), Trim(text);
    TrimCuts(text);
    TrimTrimmed(j);
    if StartsWith(t, "data:") {
      TrimStartCuts(t[5..]);
      IndentedData(t);
      JoinSnoc(parts, TrimStart(t[5..]), "\n");
      TrailingPiece(j, TrimStart(t[5..]));
    } else if StartsWith(t, ":") {
      assert parts + [] == parts;
    } else {
      JoinSnoc(parts, t, "\n");
      TrailingPiece(j, t);
    }
  }

  lemma IndentedData(t: string)
    requires Trimmed(t) && StartsWith(t, "data:")
    ensures var piece := TrimStart(t[5..]);
            (piece == "" <==> t == "data:") && (piece == "" || !IsSpace(piece[|piece| - 1]))
  {
    hide IsSpace;
    TrimStartCuts(t[5..]);
    if t[5..] == "" {
      assert t == t[..5];
    } else {
      assert t[5..][|t| - 6] == t[|t| - 1];
    }
  }

  /** Trimming takes an empty last line away, and nothing of any other. */
  lemma TrailingPiece(j: string, piece: string)
    requires j != "" && Trimmed(j) && (piece == "" || !IsSpace(piece[|piece| - 1]))
    ensures Trim(j + "\n" + piece) == j <==> piece == ""
  {
    var all := j + "\n" + piece;
    assert all[0] == j[0] && TrimStart(all) == all;
    if piece == "" {
      assert all[..|all| - 1] == j;
      TrimTrimmed(j);
    } else {
      assert all[|all| - 1] == piece[|piece| - 1];
    }
  }

  /** An event whose blank line is missing, with or without the line feed before it, is delivered all the
      same, where section 9.2.6 of the WHATWG HTML Standard would discard it: the caller sees what it
      would see if the event were terminated. */
  lemma UnterminatedEventDelivered<C>(p: Protocol<C>, ctx: C, events: seq<seq<WireLine>>, e: seq<WireLine>, fed: bool, crlf: seq<bool>)
    requires (forall i :: 0 <= i < |events| ==> ValidEvent(events[i])) && ValidEvent(e)
    requires e != [] && (fed || SafeLeftover(e[|e| - 1]))
    requires LineDriver.Separable(BodyLines(events) + Written(OpenLines(e, fed)), crlf)
    ensures var lines := BodyLines(events) + Written(OpenLines(e, fed));
            var open := LineDriver.WholeBody(Machine(p), Start(ctx), LineDriver.Unsplit(lines, crlf, OpenRest(e, fed)));
            var whole := Closed(p, Deliver(p, Start(ctx), events + [e]));
            open.out == whole.out && open.phase == whole.phase
  {
    hide BodyLines, Written, Payload, Leftover, OnLine, LineDriver.WholeBody, LineDriver.Unsplit, Machine, SafeLeftover;
    ValidLines(e);
    RestFeedless(e, fed);
    OpenEnd(p, ctx, events, OpenLines(e, fed), OpenRest(e, fed), crlf);
    DeliverAppend(p, Start(ctx), events, [e]);
    DeliverKeepsData(p, Start(ctx), events);
    var s := Deliver(p, Start(ctx), events);
    if s.phase == Reading { FlushedAlike(p, s, e, fed); }
  }

  lemma RestFeedless(e: seq<WireLine>, fed: bool)
    requires e != [] && ValidEvent(e)
    ensures '\n' !in OpenRest(e, fed)
    ensures forall i :: 0 <= i < |OpenLines(e, fed)| ==> ValidLine(OpenLines(e, fed)[i])
  {
    assert ValidLine(e[|e| - 1]);
  }

  lemma FlushedAlike<C>(p: Protocol<C>, s: Carry<C>, e: seq<WireLine>, fed: bool)
    requires s.phase == Reading && s.data == [] && ValidEvent(e) && e != [] && (fed || SafeLeftover(e[|e| - 1]))
    ensures var open := Flush(p, s.(data := Payload(OpenLines(e, fed)) + Leftover(OpenRest(e, fed))));
            var whole := Closed(p, Deliver(p, s, [e]));
            open.out == whole.out && open.phase == whole.phase
  {
    WholePayload(e);
    if fed { assert Payload(e) + [] == Payload(e); } else { LeftoverPayloadIff(e); }
    hide ValidEvent, SafeLeftover, OpenLines, OpenRest, Payload;
    var data, payload := Payload(OpenLines(e, fed)) + Leftover(OpenRest(e, fed)), Join(Payload(e), "\n");
    NothingLeft();
    assert Trim(Join(data, "\n")) == payload;
    var next := Dispatch(p, s, payload);
    assert Deliver(p, s, [e]) == next by { assert [e][1..] == []; }
    DispatchIgnoresData(p, s, data, payload);
  }

  lemma NothingLeft()
    ensures Leftover("") == [] && Trim("") == "" && Join([], "\n") == ""
  {}

  lemma DispatchIgnoresData<C>(p: Protocol<C>, s: Carry<C>, data: seq<string>, payload: string)
    ensures Dispatch(p, s.(data := data), payload) == Dispatch(p, s, payload).(data := data)
  {}

  /** An event id without a line feed corrupts the payload before it. */
  lemma LeftoverFieldCorrupts<C>(p: Protocol<C>, ctx: C)
    ensures LineDriver.WholeBody(Machine(p), Start(ctx), "data: x\nid: 5") == Flush(p, Start(ctx).(data := ["x", "id: 5"]))
    ensures Trim(Join(["x", "id: 5"], "\n")) == "x\nid: 5"
  {
    hide OnLine, Flush, Dispatch, Machine, LineDriver.WholeBody, LineDriver.Unsplit, Leftover, Trim, Join, Written, Payload;
    CorruptedLines();
    CorruptedText();
    OpenEnd(p, ctx, [], [Data("x")], "id: 5", [false]);
    assert Deliver(p, Start(ctx), []) == Start(ctx);
    assert ["x"] + ["id: 5"] == ["x", "id: 5"];
  }

  lemma CorruptedLines()
    ensures BodyLines([]) + Written([Data("x")]) == ["data: x"] && Payload([Data("x")]) == ["x"]
  {
    OneLine(Data("x"));
    assert "data: " + "x" == "data: x";
  }

  lemma CorruptedText()
    ensures Leftover("id: 5") == ["id: 5"] && Trim(Join(["x", "id: 5"], "\n")) == "x\nid: 5"
    ensures LineDriver.Unsplit(["data: x"], [false], "id: 5") == "data: x\nid: 5"
  {
    TrimTrimmed("id: 5");
    CorruptedJoin();
    TrimTrimmed("x\nid: 5");
    hide Join, Trim;
    assert [false][1..] == [];
  }

  lemma CorruptedJoin()
    ensures Join(["x", "id: 5"], "\n") == "x\nid: 5"
  {}

  // ---------------------------------------------------------------------------------------------
  // The reply, from the wire to the caller
  // ---------------------------------------------------------------------------------------------

  /** An event that carries this much of the reply, and nothing terminal. */
  ghost predicate Yields<C(!new)>(p: Protocol<C>, e: seq<WireLine>, text: string) {
    ValidEvent(e) && forall ctx: C ::
      var r := p.parse(Join(Payload(e), "\n"), ctx);
      !r.threw && !r.completed && NoTerminal(r.events) && TextOf(r.events) == text
  }

  /** An event that ends the stream as the end of the body would. */
  ghost predicate Finishes<C(!new)>(p: Protocol<C>, e: seq<WireLine>) {
    ValidEvent(e) && forall ctx: C ::
      var r := p.parse(Join(Payload(e), "\n"), ctx);
      !r.threw && r.events == [p.closing(ctx)]
  }

  /** An event that makes the stream fail with this error. */
  ghost predicate Fails<C(!new)>(p: Protocol<C>, e: seq<WireLine>, error: AdapterError) {
    ValidEvent(e) && forall ctx: C ::
      var r := p.parse(Join(Payload(e), "\n"), ctx);
      !r.threw && r.events == [Failed(error)]
  }

  /** What is known of the reply after some events. */
  function Known<C>(p: Protocol<C>, ctx: C, events: seq<seq<WireLine>>): C
    decreases |events|
  {
    if events == [] then ctx else Known(p, p.parse(Join(Payload(events[0]), "\n"), ctx).ctx, events[1..])
  }

  lemma DispatchText<C(!new)>(p: Protocol<C>, s: Carry<C>, e: seq<WireLine>, text: string)
    requires s.phase == Reading && Yields(p, e, text)
    ensures var r := Dispatch(p, s, Join(Payload(e), "\n"));
            && r.phase == Reading && r.data == s.data && r.completed == s.completed
            && TextOf(r.out) == TextOf(s.out) + text && r.ctx == p.parse(Join(Payload(e), "\n"), s.ctx).ctx
  {
    hide Payload, ValidEvent, TextOf, Join;
    TextAppend(s.out, p.parse(Join(Payload(e), "\n"), s.ctx).events);
  }

  lemma {:induction false} DeliverText<C(!new)>(p: Protocol<C>, s: Carry<C>, events: seq<seq<WireLine>>, texts: seq<string>)
    requires s.phase == Reading && |events| == |texts| && forall i :: 0 <= i < |events| ==> Yields(p, events[i], texts[i])
    ensures var r := Deliver(p, s, events);
            && r.phase == Reading && r.data == s.data && r.completed == s.completed
            && TextOf(r.out) == TextOf(s.out) + Concat(texts) && r.ctx == Known(p, s.ctx, events)
    decreases |events|
  {
    hide TextOf, Payload, ValidEvent, Concat, Dispatch, Yields;
    ConcatNothing<char>();
    if events != [] {
      DispatchText(p, s, events[0], texts[0]);
      var next := Dispatch(p, s, Join(Payload(events[0]), "\n"));
      forall i | 0 <= i < |events| - 1 ensures Yields(p, events[1..][i], texts[1..][i]) {
        assert Yields(p, events[i + 1], texts[i + 1]);
      }
      DeliverText(p, next, events[1..], texts[1..]);
      ConcatHead(texts);
      assert TextOf(s.out) + texts[0] + Concat(texts[1..]) == TextOf(s.out) + (texts[0] + Concat(texts[1..]));
    } else {
      assert texts == [] && TextOf(s.out) + [] == TextOf(s.out);
    }
  }

  lemma {:induction false} DeliverAppend<C>(p: Protocol<C>, s: Carry<C>, first: seq<seq<WireLine>>, second: seq<seq<WireLine>>)
    ensures Deliver(p, s, first + second) == Deliver(p, Deliver(p, s, first), second)
    decreases |first|
  {
    if first == [] {
      assert first + second == second;
    } else if s.phase == Reading {
      assert (first + second)[1..] == first[1..] + second;
      DeliverAppend(p, Dispatch(p, s, Join(Payload(first[0]), "\n")), first[1..], second);
    }
  }

  /** Whatever the framing, the line ends and the reads, the caller gets the pieces of the reply that
      the events carry, in order and complete, then one terminal event; the event that ends the stream
      may be missing. */
  lemma BodyText<C(!new)>(p: Protocol<C>, ctx: C, events: seq<seq<WireLine>>, texts: seq<string>,
                          last: seq<seq<WireLine>>, crlf: seq<bool>)
    requires Closes(p) && |events| == |texts| && forall i :: 0 <= i < |events| ==> Yields(p, events[i], texts[i])
    requires |last| <= 1 && forall i :: 0 <= i < |last| ==> Finishes(p, last[i])
    requires LineDriver.Separable(BodyLines(events + last), crlf)
    ensures var s := LineDriver.WholeBody(Machine(p), Start(ctx), LineDriver.Unsplit(BodyLines(events + last), crlf, ""));
            && (s.phase == Returned || s.phase == Ended) && EndsOnce(s.out) && TextOf(s.out) == Concat(texts)
            && s.out[|s.out| - 1] == p.closing(Known(p, ctx, events))
  {
    hide LineDriver.WholeBody, LineDriver.Unsplit, BodyLines, Machine, Concat, Payload, ValidEvent, TextOf, Yields, Finishes, OnEnd;
    AllValid(p, events, texts, last);
    BodyRoundTrip(p, ctx, events + last, crlf);
    TerminalOnceAndLast(p, ctx, LineDriver.Unsplit(BodyLines(events + last), crlf, ""));
    DeliverAppend(p, Start(ctx), events, last);
    DeliverText(p, Start(ctx), events, texts);
    NothingYet(ctx);
    LastText(p, Deliver(p, Start(ctx), events), last);
  }

  lemma NothingYet<C>(ctx: C)
    ensures TextOf(Start(ctx).out) == ""
  {}

  /** The end of the stream adds one event and no text. */
  lemma LastText<C(!new)>(p: Protocol<C>, s: Carry<C>, last: seq<seq<WireLine>>)
    requires s.phase == Reading && s.data == [] && !s.completed && Terminal(p.closing(s.ctx))
    requires |last| <= 1 && forall i :: 0 <= i < |last| ==> Finishes(p, last[i])
    ensures var t := Deliver(p, s, last);
            var r := Closed(p, t);
            && (r.phase == Returned || r.phase == Ended) && TextOf(r.out) == TextOf(s.out)
            && r.out == s.out + [p.closing(s.ctx)]
  {
    hide TextOf, Payload, ValidEvent;
    assert TextOf(s.out) + "" == TextOf(s.out);
    if last == [] {
      TextSnoc(s.out, p.closing(s.ctx));
    } else {
      assert Finishes(p, last[0]);
      var terminal := p.parse(Join(Payload(last[0]), "\n"), s.ctx).events;
      TextSnoc(s.out, terminal[0]);
      assert terminal == [terminal[0]];
    }
  }

  /** An event that fails ends the stream with its error, behind the pieces of the reply before it, whatever
      follows it. */
  lemma BodyFails<C(!new)>(p: Protocol<C>, ctx: C, events: seq<seq<WireLine>>, texts: seq<string>,
                           e: seq<WireLine>, error: AdapterError, rest: seq<seq<WireLine>>, crlf: seq<bool>)
    requires Closes(p) && |events| == |texts| && forall i :: 0 <= i < |events| ==> Yields(p, events[i], texts[i])
    requires Fails(p, e, error) && forall i :: 0 <= i < |rest| ==> ValidEvent(rest[i])
    requires LineDriver.Separable(BodyLines(events + ([e] + rest)), crlf)
    ensures var s := LineDriver.WholeBody(Machine(p), Start(ctx), LineDriver.Unsplit(BodyLines(events + ([e] + rest)), crlf, ""));
            && s.phase == Returned && EndsOnce(s.out) && TextOf(s.out) == Concat(texts)
            && s.out[|s.out| - 1] == Failed(error)
  {
    hide LineDriver.WholeBody, LineDriver.Unsplit, BodyLines, Machine, Concat, Payload, ValidEvent, TextOf, Yields, Fails, OnEnd;
    var all := events + ([e] + rest);
    FailingValid(p, events, texts, e, error);
    BodyRoundTrip(p, ctx, all, crlf);
    TerminalOnceAndLast(p, ctx, LineDriver.Unsplit(BodyLines(all), crlf, ""));
    DeliverAppend(p, Start(ctx), events, [e] + rest);
    DeliverText(p, Start(ctx), events, texts);
    NothingYet(ctx);
    FailingText(p, Deliver(p, Start(ctx), events), e, error, rest);
  }

  lemma FailingValid<C(!new)>(p: Protocol<C>, events: seq<seq<WireLine>>, texts: seq<string>, e: seq<WireLine>, error: AdapterError)
    requires |events| == |texts| && forall i :: 0 <= i < |events| ==> Yields(p, events[i], texts[i])
    requires Fails(p, e, error)
    ensures ValidEvent(e) && forall i :: 0 <= i < |events| ==> ValidEvent(events[i])
  {}

  lemma FailingText<C(!new)>(p: Protocol<C>, s: Carry<C>, e: seq<WireLine>, error: AdapterError, rest: seq<seq<WireLine>>)
    requires s.phase == Reading && Fails(p, e, error)
    ensures var r := Deliver(p, s, [e] + rest);
            r.phase == Returned && TextOf(r.out) == TextOf(s.out) && r.out == s.out + [Failed(error)]
  {
    hide TextOf, Payload, ValidEvent;
    TextSnoc(s.out, Failed(error));
    assert TextOf(s.out) + "" == TextOf(s.out);
    assert ([e] + rest)[0] == e;
  }

  lemma AllValid<C(!new)>(p: Protocol<C>, events: seq<seq<WireLine>>, texts: seq<string>, last: seq<seq<WireLine>>)
    requires |events| == |texts| && forall i :: 0 <= i < |events| ==> Yields(p, events[i], texts[i])
    requires forall i :: 0 <= i < |last| ==> Finishes(p, last[i])
    ensures forall i :: 0 <= i < |events + last| ==> ValidEvent((events + last)[i])
  {}

  // ---------------------------------------------------------------------------------------------
  // Bodies that make the decoder throw
  // ---------------------------------------------------------------------------------------------

  /** What an event does to a stream that reads it. */
  datatype Effect = Throws | Ends | GoesOn

  /** Whatever came before it, the event has this effect. */
  ghost predicate Does<C(!new)>(p: Protocol<C>, e: seq<WireLine>, effect: Effect) {
    forall ctx: C ::
      var r := p.parse(Join(Payload(e), "\n"), ctx);
      effect == if r.threw then Throws else if NoTerminal(r.events) then GoesOn else Ends
  }

  /** The first event that does not go on throws. */
  predicate ThrowsFirst(effects: seq<Effect>) {
    effects != [] && (effects[0] == Throws || (effects[0] == GoesOn && ThrowsFirst(effects[1..])))
  }

  lemma {:induction false} DeliverThrows<C(!new)>(p: Protocol<C>, s: Carry<C>, events: seq<seq<WireLine>>, effects: seq<Effect>)
    requires s.phase == Reading && |events| == |effects| && forall i :: 0 <= i < |events| ==> Does(p, events[i], effects[i])
    ensures Deliver(p, s, events).phase == Threw <==> ThrowsFirst(effects)
    decreases |events|
  {
    if events != [] {
      hide Does;
      DispatchDoes(p, s, events[0], effects[0]);
      if effects[0] == GoesOn {
        forall i | 0 <= i < |events| - 1 ensures Does(p, events[1..][i], effects[1..][i]) {
          assert Does(p, events[i + 1], effects[i + 1]);
        }
        DeliverThrows(p, Dispatch(p, s, Join(Payload(events[0]), "\n")), events[1..], effects[1..]);
      }
    }
  }

  lemma DispatchDoes<C(!new)>(p: Protocol<C>, s: Carry<C>, e: seq<WireLine>, effect: Effect)
    requires s.phase == Reading && Does(p, e, effect)
    ensures Dispatch(p, s, Join(Payload(e), "\n")).phase
            == match effect { case Throws => Threw case Ends => Returned case GoesOn => Reading }
  {}

  /** A body throws exactly if one of its events does and all before it go on. */
  lemma BodyThrows<C(!new)>(p: Protocol<C>, ctx: C, events: seq<seq<WireLine>>, effects: seq<Effect>, crlf: seq<bool>)
    requires |events| == |effects| && forall i :: 0 <= i < |events| ==> Does(p, events[i], effects[i])
    requires forall i :: 0 <= i < |events| ==> ValidEvent(events[i])
    requires LineDriver.Separable(BodyLines(events), crlf)
    ensures LineDriver.WholeBody(Machine(p), Start(ctx), LineDriver.Unsplit(BodyLines(events), crlf, "")).phase == Threw
            <==> ThrowsFirst(effects)
  {
    hide Does, ValidEvent, BodyLines, LineDriver.WholeBody, LineDriver.Unsplit;
    BodyRoundTrip(p, ctx, events, crlf);
    DeliverThrows(p, Start(ctx), events, effects);
    DeliverKeepsData(p, Start(ctx), events);
    NothingLeft();
  }
}
