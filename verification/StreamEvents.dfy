/** What a provider adapter reports while a completion streams. */
module StreamEvents {
  import opened Text

  datatype FinishReason = Stop | Length | ToolCalls | ContentFilter | Other

  datatype Usage = Usage(inputTokens: int, outputTokens: int, totalTokens: int, reasoningTokens: Option<int>)

  /** An upstream failure, before it is mapped onto an error class. */
  datatype AdapterError = AdapterError(kind: string, code: string, message: string)

  datatype StreamEvent =
    | TextDelta(delta: string)
    | ThoughtDelta(thought: string)
    | UsageReport(usage: Usage)
    | Complete(finish: FinishReason, finalUsage: Option<Usage>, model: string)
    | Failed(error: AdapterError)

  /** What a client is sent while replies are generated for it. */
  datatype SseEvent =
    | MessageStart(sequence: nat, agentId: string)
    | Token(text: string)
    | Thought(thought: string)
    | UsageSent(usage: Usage)
    | MessageComplete(reported: Option<Usage>)
    | ErrorSent(error: AdapterError)
    | DoneSent

  /** After one of these the caller expects nothing more. */
  predicate Terminal(e: StreamEvent) {
    e.Complete? || e.Failed?
  }

  predicate NoTerminal(events: seq<StreamEvent>) {
    forall e | e in events :: !Terminal(e)
  }

  /** Exactly one terminal event, and it is the last. */
  predicate EndsOnce(events: seq<StreamEvent>) {
    && events != []
    && Terminal(events[|events| - 1])
    && NoTerminal(events[..|events| - 1])
  }

  /** JSON text as an adapter sees it: not JSON, the value `null`, or a decoded chunk. Reading a
      field of `null` throws; every other decoded value is read without throwing. */
  datatype Decoded<+T> = Malformed | Null | Chunk(chunk: T)

  /** Reading the body is under way, or was left early, or came to the end, or threw. */
  datatype Phase = Reading | Returned | Ended | Threw

  /** Events up to and including the first terminal one. */
  function UpToTerminal(events: seq<StreamEvent>): (r: seq<StreamEvent>)
    ensures r <= events
    ensures NoTerminal(events) ==> r == events
    ensures !NoTerminal(events) ==> EndsOnce(r)
  {
    if events == [] then []
    else if Terminal(events[0]) then
      assert events[..1] == [events[0]];
      [events[0]]
    else
      var r := [events[0]] + UpToTerminal(events[1..]);
      assert events == [events[0]] + events[1..];
      r
  }

  /** Of values that may each be reported or not, the last one reported; the default if none is. */
  predicate LastReported<T(==)>(reports: seq<Option<T>>, default: T, last: T) {
    if forall i :: 0 <= i < |reports| ==> reports[i].None? then last == default
    else exists i | 0 <= i < |reports| :: reports[i] == Some(last) && forall j :: i < j < |reports| ==> reports[j].None?
  }

  lemma LastReportedAppend<T>(a: seq<Option<T>>, b: seq<Option<T>>, default: T, middle: T, last: T)
    requires LastReported(a, default, middle) && LastReported(b, middle, last)
    ensures LastReported(a + b, default, last)
  {
    var all := a + b;
    if forall i :: 0 <= i < |b| ==> b[i].None? {
      if exists i :: 0 <= i < |a| && a[i].Some? {
        var i :| 0 <= i < |a| && a[i] == Some(middle) && forall j :: i < j < |a| ==> a[j].None?;
        assert all[i] == Some(last);
      }
    } else {
      var i :| 0 <= i < |b| && b[i] == Some(last) && forall j :: i < j < |b| ==> b[j].None?;
      assert all[|a| + i] == Some(last);
    }
  }

  lemma LastReportedOne<T>(report: Option<T>, default: T)
    ensures LastReported([report], default, OrElse(report, default))
  {
    if report.Some? { assert [report][0] == Some(OrElse(report, default)); }
  }

  lemma LastReportedCons<T>(reports: seq<Option<T>>, default: T, last: T)
    requires reports != [] && LastReported(reports[1..], OrElse(reports[0], default), last)
    ensures LastReported(reports, default, last)
  {
    LastReportedOne(reports[0], default);
    LastReportedAppend([reports[0]], reports[1..], default, OrElse(reports[0], default), last);
    assert [reports[0]] + reports[1..] == reports;
  }

  /** What a reply consists of: text, reasoning and errors, without usage reports and completions. */
  function Shown(events: seq<StreamEvent>): seq<StreamEvent> {
    if events == [] then []
    else
      var e := events[|events| - 1];
      Shown(events[..|events| - 1]) + (if e.UsageReport? || e.Complete? then [] else [e])
  }

  lemma ShownSnoc(events: seq<StreamEvent>, e: StreamEvent)
    ensures Shown(events + [e]) == Shown(events) + (if e.UsageReport? || e.Complete? then [] else [e])
  {
    assert (events + [e])[..|events|] == events;
  }

  /** The text a sequence of events streams. */
  function TextOf(events: seq<StreamEvent>): string {
    if events == [] then ""
    else
      var e := events[|events| - 1];
      TextOf(events[..|events| - 1]) + (if e.TextDelta? then e.delta else "")
  }

  /** The reasoning a sequence of events streams. */
  function ThoughtOf(events: seq<StreamEvent>): string {
    if events == [] then ""
    else
      var e := events[|events| - 1];
      ThoughtOf(events[..|events| - 1]) + (if e.ThoughtDelta? then e.thought else "")
  }

  lemma ThoughtOfOne(e: StreamEvent)
    ensures ThoughtOf([e]) == if e.ThoughtDelta? then e.thought else ""
  {
    assert [e][..0] == [];
    assert ThoughtOf([]) == "";
  }

  lemma {:induction false} ThoughtAppend(a: seq<StreamEvent>, b: seq<StreamEvent>)
    ensures ThoughtOf(a + b) == ThoughtOf(a) + ThoughtOf(b)
  {
    if b == [] {
      assert a + b == a;
    } else {
      var n := |b| - 1;
      assert a + b == (a + b[..n]) + [b[n]] && (a + b)[..|a + b| - 1] == a + b[..n];
      ThoughtAppend(a, b[..n]);
    }
  }

  lemma TextSnoc(events: seq<StreamEvent>, e: StreamEvent)
    ensures TextOf(events + [e]) == TextOf(events) + (if e.TextDelta? then e.delta else "")
  {
    assert (events + [e])[..|events|] == events;
  }

  lemma TextOfOne(e: StreamEvent)
    ensures TextOf([e]) == if e.TextDelta? then e.delta else ""
  {
    assert [e][..0] == [];
    assert TextOf([]) == "";
  }

  lemma {:induction false} TextAppend(a: seq<StreamEvent>, b: seq<StreamEvent>)
    ensures TextOf(a + b) == TextOf(a) + TextOf(b)
  {
    if b == [] {
      assert a + b == a;
    } else {
      var n := |b| - 1;
      assert a + b == (a + b[..n]) + [b[n]];
      TextAppend(a, b[..n]);
      TextSnoc(a + b[..n], b[n]);
    }
  }
}
