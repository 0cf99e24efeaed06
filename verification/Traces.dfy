/** The events a team run sends to the client: their grammar, and the usage they add up to. */
module Traces {
  import opened Chunks
  import opened Text
  import opened Messages
  import opened StreamEvents
  import opened MemberTurn
  import opened Schedule

  /** Between turns; inside one; after an error; after the summed usage; after the end. */
  datatype TracePhase = Between | Open | Failing | Summed | Over | Garbled

  function Advance(p: TracePhase, e: SseEvent): TracePhase {
    match (p, e)
    case (Between, MessageStart(_, _)) => Open
    case (Between, UsageSent(_)) => Summed
    case (Between, DoneSent) => Over
    case (Open, Token(_)) => Open
    case (Open, Thought(_)) => Open
    case (Open, MessageComplete(_)) => Between
    case (Open, ErrorSent(_)) => Failing
    case (Failing, DoneSent) => Over
    case (Summed, DoneSent) => Over
    case _ => Garbled
  }

  function Trace(es: seq<SseEvent>): TracePhase {
    if es == [] then Between else Advance(Trace(es[..|es| - 1]), es[|es| - 1])
  }

  lemma TraceSnoc(es: seq<SseEvent>, e: SseEvent)
    ensures Trace(es + [e]) == Advance(Trace(es), e)
  {
    assert (es + [e])[..|es|] == es;
  }

  /** Nothing follows the end, so it comes at most once and only last. */
  lemma {:induction false} DoneOnlyLast(es: seq<SseEvent>, i: nat)
    requires Trace(es) != Garbled && i < |es| && es[i] == DoneSent
    ensures i == |es| - 1 && Trace(es) == Over
  {
    var n := |es| - 1;
    if i < n { DoneOnlyLast(es[..n], i); }
  }

  /** What a turn sends between its start and its end. */
  predicate Middle(es: seq<SseEvent>) {
    forall i :: 0 <= i < |es| ==> es[i].Token? || es[i].Thought?
  }

  predicate WholeTurn(es: seq<SseEvent>) {
    |es| >= 2 && es[0].MessageStart? && es[|es| - 1].MessageComplete? && Middle(es[1..|es| - 1])
  }

  predicate UnfinishedTurn(es: seq<SseEvent>) {
    es != [] && es[0].MessageStart? && Middle(es[1..])
  }

  predicate WholeTurns(turns: seq<seq<SseEvent>>) {
    forall i :: 0 <= i < |turns| ==> WholeTurn(turns[i])
  }

  lemma OneMore(open: seq<SseEvent>, e: SseEvent)
    requires open == [] || UnfinishedTurn(open)
    ensures open == [] && e.MessageStart? ==> UnfinishedTurn(open + [e])
    ensures open != [] && (e.Token? || e.Thought?) ==> UnfinishedTurn(open + [e])
    ensures open != [] && e.MessageComplete? ==> WholeTurn(open + [e])
  {
    assert open != [] ==> (open + [e])[1..] == open[1..] + [e] && (open + [e])[1..|open|] == open[1..];
  }

  lemma OneLess(open: seq<SseEvent>)
    requires UnfinishedTurn(open)
    ensures var m := |open| - 1;
            if m == 0 then open[m].MessageStart? else UnfinishedTurn(open[..m]) && (open[m].Token? || open[m].Thought?)
  {}

  lemma BeforeCompletion(turn: seq<SseEvent>)
    requires WholeTurn(turn)
    ensures UnfinishedTurn(turn[..|turn| - 1])
  {
    assert turn[..|turn| - 1][1..] == turn[1..|turn| - 1];
  }

  lemma TurnAdded(turns: seq<seq<SseEvent>>, turn: seq<SseEvent>)
    ensures Concat(turns + [turn]) == Concat(turns) + turn
  {
    assert (turns + [turn])[..|turns|] == turns;
  }

  /** A trace between turns is a concatenation of whole turns, and one inside a turn has one unfinished
      turn behind them. */
  lemma {:induction false} Turns(es: seq<SseEvent>) returns (turns: seq<seq<SseEvent>>, open: seq<SseEvent>)
    requires Trace(es) == Between || Trace(es) == Open
    ensures es == Concat(turns) + open && WholeTurns(turns)
    ensures if Trace(es) == Between then open == [] else open != [] && UnfinishedTurn(open)
  {
    hide Concat, WholeTurn, UnfinishedTurn, Trace;
    turns, open := [], [];
    ConcatNothing<SseEvent>();
    NoTrace();
    if es != [] {
      var before, e := es[..|es| - 1], es[|es| - 1];
      assert es == before + [e];
      TraceSnoc(before, e);
      turns, open := Turns(before);
      OneMore(open, e);
      open := open + [e];
      assert es == before + [e] == Concat(turns) + open;
      if e.MessageComplete? {
        TurnAdded(turns, open);
        turns, open := turns + [open], [];
      }
    }
  }

  /** And every such concatenation is a trace. */
  lemma {:induction false} TurnsTraced(turns: seq<seq<SseEvent>>, open: seq<SseEvent>)
    requires WholeTurns(turns) && (open == [] || UnfinishedTurn(open))
    ensures Trace(Concat(turns) + open) == if open == [] then Between else Open
    decreases |turns|, |open|
  {
    hide Concat, WholeTurn, UnfinishedTurn, Trace;
    if open != [] {
      var m := |open| - 1;
      OneLess(open);
      assert Concat(turns) + open == Concat(turns) + open[..m] + [open[m]];
      TurnsTraced(turns, open[..m]);
      TraceSnoc(Concat(turns) + open[..m], open[m]);
    } else if turns != [] {
      var n := |turns| - 1;
      var turn := turns[n];
      LastCompletes(turn);
      BeforeCompletion(turn);
      TurnAdded(turns[..n], turn);
      assert turns == turns[..n] + [turn];
      TurnsTraced(turns[..n], turn[..|turn| - 1]);
      assert Concat(turns) + open == Concat(turns[..n]) + turn[..|turn| - 1] + [turn[|turn| - 1]];
      TraceSnoc(Concat(turns[..n]) + turn[..|turn| - 1], turn[|turn| - 1]);
    } else {
      NoTrace();
    }
  }

  lemma LastCompletes(turn: seq<SseEvent>)
    requires WholeTurn(turn)
    ensures |turn| >= 2 && turn[|turn| - 1].MessageComplete?
  {}

  lemma NoTrace()
    ensures Trace(Concat<SseEvent>([]) + []) == Between && Trace([]) == Between
  {}

  datatype Totals = Totals(input: int, output: int, total: int, reasoning: int)

  const ZERO := Totals(0, 0, 0, 0)

  function Add(t: Totals, u: Option<Usage>): Totals {
    if u.None? then t
    else Totals(t.input + u.value.inputTokens, t.output + u.value.outputTokens, t.total + u.value.totalTokens,
                t.reasoning + (if u.value.reasoningTokens.Some? then u.value.reasoningTokens.value else 0))
  }

  /** The component-wise sum of the usages reported by completed turns. */
  function Reported(es: seq<SseEvent>): Totals {
    if es == [] then ZERO
    else
      var before, e := Reported(es[..|es| - 1]), es[|es| - 1];
      if e.MessageComplete? then Add(before, e.reported) else before
  }

  lemma ReportedSnoc(es: seq<SseEvent>, e: SseEvent)
    ensures Reported(es + [e]) == if e.MessageComplete? then Add(Reported(es), e.reported) else Reported(es)
  {
    assert (es + [e])[..|es|] == es;
  }

  /** The end of a run that was not cut short: the summed usage, unless it is nothing, and the end. */
  function Closing(t: Totals): seq<SseEvent> {
    (if t.input > 0 || t.output > 0
     then [UsageSent(Usage(t.input, t.output, t.total, if t.reasoning > 0 then Some(t.reasoning) else None))] else [])
    + [DoneSent]
  }

  /** The usages of the completed turns. */
  function UsagesOf(es: seq<SseEvent>): seq<Usage> {
    if es == [] then []
    else if es[0].MessageComplete? && es[0].reported.Some? then [es[0].reported.value] + UsagesOf(es[1..])
    else UsagesOf(es[1..])
  }

  function Sum(usages: seq<Usage>, part: Usage -> int): int {
    if usages == [] then 0 else part(usages[0]) + Sum(usages[1..], part)
  }

  lemma {:induction false} SumSnoc(usages: seq<Usage>, u: Usage, part: Usage -> int)
    ensures Sum(usages + [u], part) == Sum(usages, part) + part(u)
  {
    if usages == [] {
      assert [u][1..] == [] && usages + [u] == [u];
    } else {
      assert (usages + [u])[1..] == usages[1..] + [u];
      SumSnoc(usages[1..], u, part);
    }
  }

  lemma {:induction false} UsagesSnoc(es: seq<SseEvent>, e: SseEvent)
    ensures UsagesOf(es + [e])
            == UsagesOf(es) + if e.MessageComplete? && e.reported.Some? then [e.reported.value] else []
  {
    if es == [] {
      assert [e][1..] == [] && es + [e] == [e];
    } else {
      assert (es + [e])[1..] == es[1..] + [e];
      UsagesSnoc(es[1..], e);
    }
  }

  function InputOf(u: Usage): int {
    u.inputTokens
  }

  function OutputOf(u: Usage): int {
    u.outputTokens
  }

  function TotalOf(u: Usage): int {
    u.totalTokens
  }

  function ReasoningOf(u: Usage): int {
    OrElse(u.reasoningTokens, 0)
  }

  lemma {:induction false} ReportedSums(es: seq<SseEvent>)
    ensures var usages := UsagesOf(es);
            Reported(es) == Totals(Sum(usages, InputOf), Sum(usages, OutputOf),
                                   Sum(usages, TotalOf), Sum(usages, ReasoningOf))
  {
    hide Reported, UsagesOf, Sum;
    NothingSummed();
    if es != [] {
      var before, e := es[..|es| - 1], es[|es| - 1];
      ReportedSums(before);
      assert es == before + [e] && UsagesOf(before) + [] == UsagesOf(before);
      UsagesSnoc(before, e);
      ReportedSnoc(before, e);
      if e.MessageComplete? && e.reported.Some? {
        var usages, u := UsagesOf(before), e.reported.value;
        SumSnoc(usages, u, InputOf);
        SumSnoc(usages, u, OutputOf);
        SumSnoc(usages, u, TotalOf);
        SumSnoc(usages, u, ReasoningOf);
      }
    }
  }

  lemma NothingSummed()
    ensures Reported([]) == ZERO && UsagesOf([]) == [] && forall part :: Sum([], part) == 0
  {}

  /** A finished run ends with the usages of its turns, summed part by part, and the end; with the end alone if
      no input and no output was counted. */
  lemma ClosingSums(turns: seq<SseEvent>)
    ensures var usages, closing := UsagesOf(turns), Closing(Reported(turns));
            var input, output := Sum(usages, InputOf), Sum(usages, OutputOf);
            var total, reasoning := Sum(usages, TotalOf), Sum(usages, ReasoningOf);
            closing == if input <= 0 && output <= 0 then [DoneSent]
                       else [UsageSent(Usage(input, output, total, if reasoning > 0 then Some(reasoning) else None)), DoneSent]
  {
    hide UsagesOf, Sum, Reported;
    ReportedSums(turns);
  }

  lemma ClosingTrace(es: seq<SseEvent>, t: Totals)
    requires Trace(es) == Between
    ensures Trace(es + Closing(t)) == Over
  {
    hide Trace;
    if t.input > 0 || t.output > 0 {
      var usage := Closing(t)[0];
      TraceSnoc(es, usage);
      TraceSnoc(es + [usage], DoneSent);
      assert es + Closing(t) == (es + [usage]) + [DoneSent];
    } else {
      assert Closing(t) == [DoneSent];
      TraceSnoc(es, DoneSent);
    }
  }

  lemma PieceTrace(es: seq<SseEvent>, more: seq<SseEvent>, e: SseEvent)
    requires Trace(es + more) == Open && (e.Token? || e.Thought?)
    ensures Trace(es + (more + [e])) == Open && Reported(es + (more + [e])) == Reported(es + more)
  {
    TraceSnoc(es + more, e);
    ReportedSnoc(es + more, e);
    assert es + (more + [e]) == es + more + [e];
  }

  lemma {:induction false} ForwardedTrace(es: seq<SseEvent>, events: seq<StreamEvent>)
    requires Trace(es) == Open
    ensures Trace(es + Forwarded(events)) == Open && Reported(es + Forwarded(events)) == Reported(es)
  {
    if events == [] {
      assert es + Forwarded(events) == es;
    } else {
      hide Trace, Reported;
      var rest := events[..|events| - 1];
      ForwardedTrace(es, rest);
      match events[|events| - 1]
      case TextDelta(t) => PieceTrace(es, Forwarded(rest), Token(t));
      case ThoughtDelta(t) => PieceTrace(es, Forwarded(rest), Thought(t));
      case _ => assert Forwarded(events) == Forwarded(rest);
    }
  }

  function AfterTurn(v: Verdict): TracePhase {
    match v
    case Replied => Between
    case Interrupted => Open
    case Broke(_) => Over
  }

  lemma TailTrace(es: seq<SseEvent>, reply: Reply, v: Verdict)
    requires Trace(es) == Open
    ensures Trace(es + TurnTail(reply, v)) == AfterTurn(v)
    ensures Reported(es + TurnTail(reply, v)) == if v == Replied then Add(Reported(es), LastUsage(reply.events)) else Reported(es)
  {
    match v
    case Replied =>
      var last := MessageComplete(LastUsage(reply.events));
      TraceSnoc(es, last);
      ReportedSnoc(es, last);
    case Interrupted =>
      assert es + [] == es;
    case Broke(e) =>
      TraceSnoc(es, ErrorSent(e));
      ReportedSnoc(es, ErrorSent(e));
      TraceSnoc(es + [ErrorSent(e)], DoneSent);
      ReportedSnoc(es + [ErrorSent(e)], DoneSent);
      assert es + TurnTail(reply, v) == (es + [ErrorSent(e)]) + [DoneSent];
  }

  /** A turn is one well-formed piece of the trace, and reports its usage once, if it completes. */
  lemma TurnTrace(es: seq<SseEvent>, pending: Row, agentId: string, reply: Reply, k: nat, v: Verdict)
    requires Trace(es) == Between && k <= |reply.events|
    ensures var all := es + TurnEvents(pending, agentId, reply, k, v);
            && Trace(all) == AfterTurn(v)
            && Reported(all) == if v == Replied then Add(Reported(es), LastUsage(reply.events)) else Reported(es)
  {
    var start := MessageStart(pending.sequence, agentId);
    var forwarded := Forwarded(reply.events[..k]);
    TraceSnoc(es, start);
    ReportedSnoc(es, start);
    ForwardedTrace(es + [start], reply.events[..k]);
    TailTrace(es + [start] + forwarded, reply, v);
    Reassociate(es, [start], forwarded, TurnTail(reply, v));
  }

  /** A trace in which the last turn fails: whole turns, the turn as far as it got, the error, the end. */
  ghost predicate FailsWith(es: seq<SseEvent>, error: AdapterError) {
    exists turns, open ::
      WholeTurns(turns) && UnfinishedTurn(open) && es == Concat(turns) + open + [ErrorSent(error), DoneSent]
  }

  lemma TurnFails(es: seq<SseEvent>, pending: Row, agentId: string, reply: Reply, k: nat, error: AdapterError)
    requires Trace(es) == Between && k <= |reply.events|
    ensures FailsWith(es + TurnEvents(pending, agentId, reply, k, Broke(error)), error)
  {
    hide Trace, Concat, WholeTurns, UnfinishedTurn;
    var start := MessageStart(pending.sequence, agentId);
    var forwarded := Forwarded(reply.events[..k]);
    TraceSnoc(es, start);
    ForwardedTrace(es + [start], reply.events[..k]);
    var turns, open := Turns(es + [start] + forwarded);
    Reassociate(es, [start], forwarded, TurnTail(reply, Broke(error)));
    assert es + TurnEvents(pending, agentId, reply, k, Broke(error)) == Concat(turns) + open + [ErrorSent(error), DoneSent];
  }

  lemma Reassociate<T>(a: seq<T>, b: seq<T>, c: seq<T>, d: seq<T>)
    ensures a + (b + c + d) == a + b + c + d
  {}

  // ---------------------------------------------------------------------------------------------
  // What a client makes of the trace
  // ---------------------------------------------------------------------------------------------

  /** The messages a client has seen completed, and the one it is being sent. */
  datatype Hearing = Hearing(finished: seq<Said>, speaker: string, text: string)

  function Hears(h: Hearing, e: SseEvent): Hearing {
    match e
    case MessageStart(_, agentId) => h.(speaker := agentId, text := "")
    case Token(t) => h.(text := h.text + t)
    case MessageComplete(_) => h.(finished := h.finished + [Said(h.speaker, h.text)])
    case _ => h
  }

  function Hear(es: seq<SseEvent>): Hearing {
    if es == [] then Hearing([], "", "") else Hears(Hear(es[..|es| - 1]), es[|es| - 1])
  }

  function Heard(es: seq<SseEvent>): seq<Said> {
    Hear(es).finished
  }

  lemma HearSnoc(es: seq<SseEvent>, e: SseEvent)
    ensures Hear(es + [e]) == Hears(Hear(es), e)
  {
    assert (es + [e])[..|es|] == es;
  }

  lemma NothingHeard()
    ensures Heard([]) == [] && Trace([]) == Between && Reported([]) == ZERO
  {}

  lemma {:induction false} ForwardedHeard(es: seq<SseEvent>, events: seq<StreamEvent>)
    ensures Hear(es + Forwarded(events)) == Hear(es).(text := Hear(es).text + TextOf(events))
  {
    hide Hear;
    if events == [] {
      assert es + Forwarded(events) == es && TextOf(events) == "" && Hear(es).text + "" == Hear(es).text;
    } else {
      var rest, e := events[..|events| - 1], events[|events| - 1];
      ForwardedHeard(es, rest);
      var more := Forwarded(rest);
      match e
      case TextDelta(t) =>
        HearSnoc(es + more, Token(t));
        assert es + Forwarded(events) == es + more + [Token(t)];
        assert Hear(es).text + TextOf(rest) + t == Hear(es).text + (TextOf(rest) + t);
      case ThoughtDelta(t) =>
        HearSnoc(es + more, Thought(t));
        assert es + Forwarded(events) == es + more + [Thought(t)];
        assert TextOf(rest) + "" == TextOf(rest);
      case _ =>
        assert Forwarded(events) == more + [] == more;
        assert TextOf(rest) + "" == TextOf(rest);
    }
  }

  /** A turn is heard with its speaker and all its text so far; if it completes, as one message. */
  lemma TurnHeard(es: seq<SseEvent>, pending: Row, agentId: string, reply: Reply, k: nat, v: Verdict)
    requires k <= |reply.events| && (v == Replied ==> k == |reply.events|)
    ensures Hear(es + TurnEvents(pending, agentId, reply, k, v))
            == Hearing(Heard(es) + (if v == Replied then [Said(agentId, TextOf(reply.events))] else []),
                       agentId, TextOf(reply.events[..k]))
  {
    hide Hear, TextOf, Forwarded;
    var start := MessageStart(pending.sequence, agentId);
    var forwarded := Forwarded(reply.events[..k]);
    HearSnoc(es, start);
    ForwardedHeard(es + [start], reply.events[..k]);
    Reassociate(es, [start], forwarded, TurnTail(reply, v));
    var sofar := es + [start] + forwarded;
    assert "" + TextOf(reply.events[..k]) == TextOf(reply.events[..k]);
    match v
    case Replied =>
      assert reply.events[..k] == reply.events;
      HearSnoc(sofar, MessageComplete(LastUsage(reply.events)));
    case Interrupted =>
      assert sofar + [] == sofar && Heard(es) + [] == Heard(es);
    case Broke(e) =>
      assert Heard(es) + [] == Heard(es);
      HearSnoc(sofar, ErrorSent(e));
      HearSnoc(sofar + [ErrorSent(e)], DoneSent);
      assert sofar + TurnTail(reply, v) == sofar + [ErrorSent(e)] + [DoneSent];
  }

  lemma ClosingHeard(es: seq<SseEvent>, t: Totals)
    ensures Heard(es + Closing(t)) == Heard(es)
  {
    hide Hear;
    if t.input > 0 || t.output > 0 {
      HearSnoc(es, Closing(t)[0]);
      HearSnoc(es + [Closing(t)[0]], DoneSent);
      assert es + Closing(t) == es + [Closing(t)[0]] + [DoneSent];
    } else {
      HearSnoc(es, DoneSent);
      assert Closing(t) == [DoneSent];
    }
  }
}
