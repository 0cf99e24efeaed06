/** One generated turn: a pending row that is checkpointed while the reply streams in, and settled
    when it ends, however it ends. */
module MemberTurn {
  import opened Text
  import Transcript
  import opened Messages
  import opened StreamEvents

  const CHECKPOINT_CHARS := 200

  /** What the provider does with a request: the events it yields, and what it throws after them. */
  datatype Reply = Reply(events: seq<StreamEvent>, thrown: Option<AdapterError>)

  /** The client's cancellation signal: once aborted, it stays so. It may trip at any time. */
  class AbortSignal {
    var aborted: bool

    method Poll() returns (now: bool)
      modifies this
      ensures now == aborted
      ensures old(aborted) ==> aborted
    {
      if * { aborted := true; }
      now := aborted;
    }
  }

  // ---------------------------------------------------------------------------------------------
  // What a reply amounts to
  // ---------------------------------------------------------------------------------------------

  /** How many events come before the first failure. */
  function BeforeFailure(events: seq<StreamEvent>): (k: nat)
    ensures k <= |events| && (k < |events| ==> events[k].Failed?)
    ensures forall i :: 0 <= i < k ==> !events[i].Failed?
  {
    if events == [] || events[0].Failed? then 0 else 1 + BeforeFailure(events[1..])
  }

  /** The error the turn ends with, if it fails. */
  function Failure(r: Reply): Option<AdapterError> {
    var k := BeforeFailure(r.events);
    if k < |r.events| then Some(r.events[k].error) else r.thrown
  }

  /** Nothing in the reply fails, and nothing is thrown after it. */
  predicate Arrives(r: Reply) {
    r.thrown.None? && forall e | e in r.events :: !e.Failed?
  }

  /** What a reply breaks off with: the error of its first failure, or what is thrown if there is none. */
  predicate BreaksWith(r: Reply, error: AdapterError) {
    if exists e | e in r.events :: e.Failed? then
      exists i | 0 <= i < |r.events| ::
        r.events[i] == Failed(error) && forall j :: 0 <= j < i ==> !r.events[j].Failed?
    else r.thrown == Some(error)
  }

  lemma FailureMeans(r: Reply)
    ensures Failure(r).None? <==> Arrives(r)
    ensures Failure(r).Some? ==> BreaksWith(r, Failure(r).value)
  {
    var k := BeforeFailure(r.events);
    if k < |r.events| { assert r.events[k] in r.events && r.events[k] == Failed(r.events[k].error); }
  }

  /** The usage known after an event. */
  function UsageAfter(before: Option<Usage>, e: StreamEvent): Option<Usage> {
    match e
    case UsageReport(u) => Some(u)
    case Complete(_, u, _) => if u.Some? then u else before
    case _ => before
  }

  function LastUsage(events: seq<StreamEvent>): Option<Usage> {
    if events == [] then None else UsageAfter(LastUsage(events[..|events| - 1]), events[|events| - 1])
  }

  /** What is passed on to the client of an event. */
  function Piece(e: StreamEvent): seq<SseEvent> {
    match e
    case TextDelta(t) => [Token(t)]
    case ThoughtDelta(t) => [Thought(t)]
    case _ => []
  }

  function Forwarded(events: seq<StreamEvent>): seq<SseEvent> {
    if events == [] then [] else Forwarded(events[..|events| - 1]) + Piece(events[|events| - 1])
  }

  /** What one more consumed event adds. */
  lemma ConsumedOneMore(events: seq<StreamEvent>, e: StreamEvent)
    ensures var after := events + [e];
            && TextOf(after) == TextOf(events) + (if e.TextDelta? then e.delta else "")
            && LastUsage(after) == UsageAfter(LastUsage(events), e)
            && Forwarded(after) == Forwarded(events) + Piece(e)
  {
    assert (events + [e])[..|events|] == events;
  }

  /** The usage an event reports. */
  function UsageIn(e: StreamEvent): Option<Usage> {
    match e
    case UsageReport(u) => Some(u)
    case Complete(_, u, _) => u
    case _ => None
  }

  /** The usage that counts is the last one reported. */
  lemma {:induction false} LastUsageMeans(events: seq<StreamEvent>)
    ensures LastUsage(events).None? <==> forall i :: 0 <= i < |events| ==> UsageIn(events[i]).None?
    ensures LastUsage(events).Some? ==>
              exists i | 0 <= i < |events| ::
                UsageIn(events[i]) == LastUsage(events) && forall j :: i < j < |events| ==> UsageIn(events[j]).None?
  {
    if events != [] {
      var n := |events| - 1;
      LastUsageMeans(events[..n]);
      assert UsageIn(events[n]).Some? ==> LastUsage(events) == UsageIn(events[n]);
    }
  }

  function TokensIn(es: seq<SseEvent>): string {
    if es == [] then "" else TokensIn(es[..|es| - 1]) + TextIn(es[|es| - 1])
  }

  function ThoughtsIn(es: seq<SseEvent>): string {
    if es == [] then ""
    else ThoughtsIn(es[..|es| - 1]) + (if es[|es| - 1].Thought? then es[|es| - 1].thought else "")
  }

  lemma CarriedOneMore(es: seq<SseEvent>, e: SseEvent)
    ensures TokensIn(es + [e]) == TokensIn(es) + TextIn(e)
    ensures ThoughtsIn(es + [e]) == ThoughtsIn(es) + (if e.Thought? then e.thought else "")
  {
    assert (es + [e])[..|es|] == es;
  }

  lemma PieceCarries(es: seq<SseEvent>, e: StreamEvent)
    ensures TokensIn(es + Piece(e)) == TokensIn(es) + (if e.TextDelta? then e.delta else "")
    ensures ThoughtsIn(es + Piece(e)) == ThoughtsIn(es) + (if e.ThoughtDelta? then e.thought else "")
    ensures forall x | x in Piece(e) :: x.Token? || x.Thought?
  {
    hide TokensIn, ThoughtsIn;
    assert es + [] == es && TokensIn(es) + "" == TokensIn(es) && ThoughtsIn(es) + "" == ThoughtsIn(es);
    if Piece(e) != [] { CarriedOneMore(es, Piece(e)[0]); }
  }

  /** The client is passed all text and all reasoning of a reply, and nothing else. */
  lemma {:induction false} ForwardedCarries(events: seq<StreamEvent>)
    ensures TokensIn(Forwarded(events)) == TextOf(events) && ThoughtsIn(Forwarded(events)) == ThoughtOf(events)
    ensures forall e | e in Forwarded(events) :: e.Token? || e.Thought?
  {
    if events != [] {
      var n := |events| - 1;
      ForwardedCarries(events[..n]);
      hide TokensIn, ThoughtsIn, Piece;
      PieceCarries(Forwarded(events[..n]), events[n]);
    }
  }

  // ---------------------------------------------------------------------------------------------
  // What is on disk, and what the client has seen
  // ---------------------------------------------------------------------------------------------

  /** The table after some effects. */
  function Stored(rows: seq<Row>, effects: seq<Effect>): seq<Row> {
    if effects == [] then rows
    else
      match effects[|effects| - 1]
      case Wrote(written) => written
      case Sent(_) => Stored(rows, effects[..|effects| - 1])
  }

  function SentIn(effects: seq<Effect>): seq<SseEvent> {
    if effects == [] then []
    else
      SentIn(effects[..|effects| - 1])
      + (match effects[|effects| - 1]
         case Wrote(_) => []
         case Sent(event) => [event])
  }

  function TextIn(event: SseEvent): string {
    if event.Token? then event.text else ""
  }

  /** All text the client has been sent. */
  function Streamed(effects: seq<Effect>): string {
    if effects == [] then ""
    else
      Streamed(effects[..|effects| - 1])
      + (match effects[|effects| - 1]
         case Wrote(_) => ""
         case Sent(event) => TextIn(event))
  }

  /** The rows there were, and one more. */
  predicate Extends(before: seq<Row>, rows: seq<Row>) {
    |rows| == |before| + 1 && before <= rows
  }

  /** A row never goes back: not in status, and not in text. */
  predicate Forward(a: Row, b: Row) {
    Rank(a.status) <= Rank(b.status) && a.content <= b.content && b == a.(content := b.content, status := b.status)
  }

  /** The stored text is the streamed text, less fewer characters than a checkpoint's worth. */
  predicate Checkpointed(stored: Row, streamed: string) {
    stored.content <= streamed && |streamed| - |stored.content| < CHECKPOINT_CHARS
  }

  /** What may happen next in a turn: its row is inserted, pending and empty; or it moves forward; or an
      event is sent, and then what is stored is checkpointed with respect to all text sent, this event's
      included. */
  predicate Allowed(before: seq<Row>, earlier: seq<Effect>, effect: Effect) {
    var table := Stored(before, earlier);
    match effect
    case Wrote(rows) =>
      && Extends(before, rows)
      && (if Extends(before, table) then Forward(table[|before|], rows[|before|])
          else rows[|before|].status == Pending && rows[|before|].content == "")
    case Sent(event) => Extends(before, table) && Checkpointed(table[|before|], Streamed(earlier) + TextIn(event))
  }

  /** The effects of a turn that found these rows. */
  predicate Journalled(before: seq<Row>, effects: seq<Effect>) {
    forall i :: 0 <= i < |effects| ==> Allowed(before, effects[..i], effects[i])
  }

  /** The effects so far led to these rows, this text and these events. */
  predicate Faithful(before: seq<Row>, effects: seq<Effect>, rows: seq<Row>, text: string, emitted: seq<SseEvent>) {
    && Journalled(before, effects) && Stored(before, effects) == rows && Extends(before, rows)
    && Streamed(effects) == text && SentIn(effects) == emitted
  }

  lemma JournalledSnoc(before: seq<Row>, effects: seq<Effect>, effect: Effect)
    requires Journalled(before, effects) && Allowed(before, effects, effect)
    ensures Journalled(before, effects + [effect])
  {
    hide Allowed;
    var all := effects + [effect];
    forall i | 0 <= i < |all| ensures Allowed(before, all[..i], all[i]) {
      assert all[..i] == if i < |effects| then effects[..i] else effects;
    }
  }

  lemma WriteFaithful(before: seq<Row>, effects: seq<Effect>, rows: seq<Row>, text: string, emitted: seq<SseEvent>, written: seq<Row>)
    requires Faithful(before, effects, rows, text, emitted)
    requires Extends(before, written) && Forward(rows[|before|], written[|before|])
    ensures Faithful(before, effects + [Wrote(written)], written, text, emitted)
  {
    hide Journalled;
    JournalledSnoc(before, effects, Wrote(written));
    assert (effects + [Wrote(written)])[..|effects|] == effects;
  }

  lemma SendFaithful(before: seq<Row>, effects: seq<Effect>, rows: seq<Row>, text: string, emitted: seq<SseEvent>, event: SseEvent)
    requires Faithful(before, effects, rows, text, emitted) && Checkpointed(rows[|before|], text + TextIn(event))
    ensures Faithful(before, effects + [Sent(event)], rows, text + TextIn(event), emitted + [event])
  {
    hide Journalled;
    JournalledSnoc(before, effects, Sent(event));
    assert (effects + [Sent(event)])[..|effects|] == effects;
  }

  lemma StartFaithful(before: seq<Row>, pending: Row)
    requires pending.status == Pending && pending.content == ""
    ensures Faithful(before, [Wrote(before + [pending])], before + [pending], "", [])
  {
    var effect := Wrote(before + [pending]);
    assert [effect][..0] == [];
    assert Stored(before, []) == before;
  }

  // ---------------------------------------------------------------------------------------------
  // Crashes
  // ---------------------------------------------------------------------------------------------

  lemma JournalledAt(before: seq<Row>, effects: seq<Effect>, i: nat)
    requires Journalled(before, effects) && i < |effects|
    ensures Allowed(before, effects[..i], effects[i]) && effects[..i + 1][..i] == effects[..i]
    ensures Journalled(before, effects[..i])
  {
    hide Allowed;
    forall j | 0 <= j < i ensures Allowed(before, effects[..i][..j], effects[..i][j]) {
      assert effects[..i][..j] == effects[..j];
    }
  }

  /** From its first effect on, a turn has its row, which never goes back. */
  lemma {:induction false} StoredForward(before: seq<Row>, effects: seq<Effect>, j: nat, i: nat)
    requires Journalled(before, effects) && 1 <= j <= i <= |effects|
    ensures Extends(before, Stored(before, effects[..j])) && Extends(before, Stored(before, effects[..i]))
    ensures Forward(Stored(before, effects[..j])[|before|], Stored(before, effects[..i])[|before|])
    decreases i
  {
    JournalledAt(before, effects, i - 1);
    if j < i {
      StoredForward(before, effects, j, i - 1);
    } else if i > 1 {
      StoredForward(before, effects, i - 1, i - 1);
    } else {
      assert effects[..0] == [];
    }
  }

  /** Of the text sent up to any moment, all but fewer characters than a checkpoint's worth are stored. */
  lemma {:induction false} ShownIsStored(before: seq<Row>, effects: seq<Effect>, i: nat) returns (kept: nat)
    requires Journalled(before, effects) && 1 <= i <= |effects|
    ensures var shown, table := Streamed(effects[..i]), Stored(before, effects[..i]);
            && kept <= |shown| < kept + CHECKPOINT_CHARS
            && Extends(before, table) && shown[..kept] <= table[|before|].content
    decreases i
  {
    hide Journalled;
    StoredForward(before, effects, i, i);
    JournalledAt(before, effects, i - 1);
    var earlier := effects[..i - 1];
    assert effects[..i][..i - 1] == earlier;
    match effects[i - 1]
    case Sent(event) =>
      kept := |Stored(before, earlier)[|before|].content|;
    case Wrote(_) =>
      assert Streamed(effects[..i]) == Streamed(earlier) + "" == Streamed(earlier);
      if i == 1 {
        kept := 0;
      } else {
        kept := ShownIsStored(before, effects, i - 1);
        StoredForward(before, effects, i - 1, i);
      }
  }

  /** The process may die after any effect of a turn. Recovery at start-up then leaves nothing under way and
      every other row as it settles. The turn's row is an error if it was still under way; it keeps all text any
      earlier write had stored, and of the text the client had been shown all but fewer than 200 characters. */
  lemma CrashRecovery(before: seq<Row>, effects: seq<Effect>, i: nat, j: nat) returns (kept: nat)
    requires Journalled(before, effects) && 1 <= j <= i <= |effects|
    ensures var recovered, shown := Swept(Stored(before, effects[..i])), Streamed(effects[..i]);
            && Extends(Swept(before), recovered)
            && (forall r | r in recovered :: !Live(r))
            && Extends(before, Stored(before, effects[..j]))
            && Stored(before, effects[..j])[|before|].content <= recovered[|before|].content
            && kept <= |shown| < kept + 200
            && shown[..kept] <= recovered[|before|].content
            && (Live(Stored(before, effects[..i])[|before|]) ==> recovered[|before|].status == Errored)
  {
    StoredForward(before, effects, j, i);
    kept := ShownIsStored(before, effects, i);
    hide Journalled, Streamed, Stored;
    var table := Stored(before, effects[..i]);
    assert forall k :: 0 <= k < |before| ==> table[k] == before[k];
  }

  // ---------------------------------------------------------------------------------------------
  // The read loop
  // ---------------------------------------------------------------------------------------------

  datatype Ending = Exhausted | Aborted | Broken(error: AdapterError)

  /** A generation's row differs from the pending one in text and status only. */
  predicate Grew(pending: Row, row: Row) {
    row == pending.(content := row.content, status := row.status)
  }

  /** The stored row trails the streamed text by less than a checkpoint, and waits for the first text. */
  ghost predicate Trailing(pending: Row, row: Row, text: string) {
    && Grew(pending, row) && Checkpointed(row, text)
    && (row.status == Streaming || (row.status == Pending && text == ""))
  }

  /** Sends an event while what is stored is close enough to all text sent. */
  method Emit(history: ChatHistory, event: SseEvent, ghost text: string, emitted0: seq<SseEvent>,
              ghost before: seq<Row>, ghost base: seq<Effect>, ghost effects0: seq<Effect>)
    returns (emitted: seq<SseEvent>, ghost effects: seq<Effect>)
    requires history.journal == base + effects0 && Faithful(before, effects0, history.rows, text, emitted0)
    requires Checkpointed(history.rows[|before|], text + TextIn(event))
    modifies history`journal
    ensures emitted == emitted0 + [event]
    ensures history.journal == base + effects && effects0 <= effects
    ensures Faithful(before, effects, history.rows, text + TextIn(event), emitted)
  {
    hide Journalled, Stored, Streamed, SentIn;
    SendFaithful(before, effects0, history.rows, text, emitted0, event);
    history.Send(event);
    emitted, effects := emitted0 + [event], effects0 + [Sent(event)];
  }

  /** Rewrites the turn's row. */
  method Checkpoint(history: ChatHistory, index: nat, content: string, status: Status, ghost text: string, ghost emitted: seq<SseEvent>,
                    ghost before: seq<Row>, ghost base: seq<Effect>, ghost effects0: seq<Effect>)
    returns (ghost effects: seq<Effect>)
    requires index == |before| && index < |history.rows|
    requires history.journal == base + effects0 && Faithful(before, effects0, history.rows, text, emitted)
    requires history.rows[index].content <= content && Rank(history.rows[index].status) <= Rank(status)
    modifies history
    ensures history.rows == Updated(old(history.rows), index, content, status)
    ensures history.journal == base + effects && effects0 <= effects
    ensures Faithful(before, effects, history.rows, text, emitted) && Extends(before, history.rows)
  {
    hide Journalled, Stored, Streamed, SentIn;
    history.Update(index, content, status);
    WriteFaithful(before, effects0, old(history.rows), text, emitted, history.rows);
    effects := effects0 + [Wrote(history.rows)];
  }

  /** One piece of text: stored at once if it is the first, if enough has come since the last write,
      or if enough time has passed. Then it is sent. */
  method OnTextDelta(history: ChatHistory, index: nat, streamed: string, delta: string, emitted0: seq<SseEvent>,
                     ghost before: seq<Row>, ghost pending: Row, ghost base: seq<Effect>, ghost effects0: seq<Effect>)
    returns (text: string, emitted: seq<SseEvent>, ghost effects: seq<Effect>)
    requires index == |before| && index < |history.rows| && Trailing(pending, history.rows[index], streamed)
    requires history.journal == base + effects0 && Extends(before, history.rows)
    requires Faithful(before, effects0, history.rows, streamed, emitted0)
    modifies history
    ensures text == streamed + delta && emitted == emitted0 + [Token(delta)]
    ensures index < |history.rows| && Trailing(pending, history.rows[index], text)
    ensures history.journal == base + effects && effects0 <= effects
    ensures Faithful(before, effects, history.rows, text, emitted) && Extends(before, history.rows)
  {
    hide Faithful;
    text, effects := streamed + delta, effects0;
    var stored := history.rows[index];
    var timeUp := false;
    if * { timeUp := true; }
    if stored.status == Pending || |text| - |stored.content| >= CHECKPOINT_CHARS || timeUp {
      effects := Checkpoint(history, index, text, Streaming, streamed, emitted0, before, base, effects);
    }
    emitted, effects := Emit(history, Token(delta), streamed, emitted0, before, base, effects);
  }

  /** The read loop of a turn: what it found, how the turn began, and what has been consumed. */
  datatype Progress = Progress(before: seq<Row>, base: seq<Effect>, effects0: seq<Effect>, emitted0: seq<SseEvent>)

  /** After these events of the reply. */
  ghost predicate Consumed(p: Progress, events: seq<StreamEvent>, rows: seq<Row>, journal: seq<Effect>, text: string,
                           usage: Option<Usage>, emitted: seq<SseEvent>, effects: seq<Effect>)
  {
    && text == TextOf(events) && usage == LastUsage(events) && emitted == p.emitted0 + Forwarded(events)
    && journal == p.base + effects && p.effects0 <= effects
    && Faithful(p.before, effects, rows, text, emitted) && Extends(p.before, rows)
  }

  lemma NothingConsumed(p: Progress, rows: seq<Row>)
    requires Faithful(p.before, p.effects0, rows, "", p.emitted0)
    ensures Consumed(p, [], rows, p.base + p.effects0, "", None, p.emitted0, p.effects0)
  {
    assert p.emitted0 + Forwarded([]) == p.emitted0;
  }

  /** One event of the reply that is not a failure. */
  method OnEvent(history: ChatHistory, index: nat, streamed: string, used: Option<Usage>, event: StreamEvent, emitted0: seq<SseEvent>,
                 ghost pending: Row, ghost p: Progress, ghost events: seq<StreamEvent>, ghost effects0: seq<Effect>)
    returns (text: string, usage: Option<Usage>, emitted: seq<SseEvent>, ghost effects: seq<Effect>)
    requires !event.Failed?
    requires index == |p.before| && index < |history.rows| && Trailing(pending, history.rows[index], streamed)
    requires Consumed(p, events, history.rows, history.journal, streamed, used, emitted0, effects0)
    modifies history
    ensures index < |history.rows| && Trailing(pending, history.rows[index], text)
    ensures Consumed(p, events + [event], history.rows, history.journal, text, usage, emitted, effects)
  {
    hide Faithful, TextOf, LastUsage, Forwarded;
    ConsumedOneMore(events, event);
    text, usage, emitted, effects := streamed, used, emitted0, effects0;
    match event {
      case TextDelta(delta) =>
        text, emitted, effects := OnTextDelta(history, index, text, delta, emitted, p.before, pending, p.base, effects);
      case ThoughtDelta(thought) =>
        assert streamed + TextIn(Thought(thought)) == streamed;
        emitted, effects := Emit(history, Thought(thought), text, emitted, p.before, p.base, effects);
      case UsageReport(u) =>
        usage := Some(u);
      case Complete(_, u, _) =>
        if u.Some? { usage := u; }
    }
  }

  method Consume(history: ChatHistory, index: nat, reply: Reply, signal: AbortSignal, ghost p: Progress, emitted0: seq<SseEvent>)
    returns (text: string, usage: Option<Usage>, ending: Ending, emitted: seq<SseEvent>, ghost k: nat, ghost effects: seq<Effect>)
    requires index == |p.before| && index < |history.rows| && emitted0 == p.emitted0
    requires history.rows[index].status == Pending && history.rows[index].content == ""
    requires history.journal == p.base + p.effects0 && Faithful(p.before, p.effects0, history.rows, "", p.emitted0)
    modifies history, signal
    ensures index < |history.rows| && Trailing(old(history.rows)[index], history.rows[index], text)
    ensures k <= BeforeFailure(reply.events)
    ensures Consumed(p, reply.events[..k], history.rows, history.journal, text, usage, emitted, effects)
    ensures old(signal.aborted) ==> signal.aborted
    ensures match ending
            case Exhausted => k == |reply.events| && Failure(reply).None?
            case Aborted => signal.aborted
            case Broken(e) => k == BeforeFailure(reply.events) && Failure(reply) == Some(e)
  {
    hide Faithful, Consumed;
    text, usage, emitted, effects, k := "", None, emitted0, p.effects0, 0;
    ghost var pending := history.rows[index];
    NothingConsumed(p, history.rows);
    for i := 0 to |reply.events|
      invariant k == i <= BeforeFailure(reply.events)
      invariant index < |history.rows| && Trailing(pending, history.rows[index], text)
      invariant Consumed(p, reply.events[..i], history.rows, history.journal, text, usage, emitted, effects)
      invariant old(signal.aborted) ==> signal.aborted
    {
      var aborted := signal.Poll();
      if aborted { return text, usage, Aborted, emitted, k, effects; }
      var event := reply.events[i];
      if event.Failed? {
        return text, usage, Broken(event.error), emitted, k, effects;
      }
      text, usage, emitted, effects :=
        OnEvent(history, index, text, usage, event, emitted, pending, p, reply.events[..i], effects);
      assert reply.events[..i] + [event] == reply.events[..i + 1];
      k := i + 1;
    }
    assert reply.events[..k] == reply.events;
    ending := if reply.thrown.Some? then Broken(reply.thrown.value) else Exhausted;
  }

  // ---------------------------------------------------------------------------------------------
  // A member's turn
  // ---------------------------------------------------------------------------------------------

  datatype Verdict = Replied | Interrupted | Broke(error: AdapterError)

  datatype TurnResult = TurnResult(content: string, usage: Option<Usage>, verdict: Verdict)

  function PendingRow(rows: seq<Row>, agentId: string): Row {
    Row(MaxSequence(rows) + 1, Transcript.Assistant, Some(agentId), "", Pending)
  }

  /** How an interrupted generation is settled. */
  function InterruptedRow(row: Row, text: string): Row {
    if text != "" then row.(content := text, status := Completed) else row.(content := INTERRUPTED, status := Errored)
  }

  /** The row and the events a turn leaves, when `k` events of the reply were consumed. */
  function SettledRow(pending: Row, reply: Reply, k: nat, verdict: Verdict): Row
    requires k <= |reply.events|
  {
    var text := TextOf(reply.events[..k]);
    match verdict
    case Replied => pending.(content := text, status := Completed)
    case Interrupted => InterruptedRow(pending, text)
    case Broke(_) => pending.(content := text, status := Errored)
  }

  function TurnEvents(pending: Row, agentId: string, reply: Reply, k: nat, verdict: Verdict): seq<SseEvent>
    requires k <= |reply.events|
  {
    [MessageStart(pending.sequence, agentId)] + Forwarded(reply.events[..k]) + TurnTail(reply, verdict)
  }

  function TurnTail(reply: Reply, verdict: Verdict): seq<SseEvent> {
    match verdict
    case Replied => [MessageComplete(LastUsage(reply.events))]
    case Interrupted => []
    case Broke(e) => [ErrorSent(e), DoneSent]
  }

  /** How far a turn got and how it ended fit the reply and the signal. */
  predicate Fitting(reply: Reply, k: nat, verdict: Verdict, aborted: bool) {
    && k <= BeforeFailure(reply.events)
    && match verdict
       case Replied => k == |reply.events| && Failure(reply).None?
       case Interrupted => aborted
       case Broke(e) => k == BeforeFailure(reply.events) && Failure(reply) == Some(e)
  }

  /** The last write of a generation, and the events that follow it. */
  method Settle(history: ChatHistory, index: nat, text: string, content: string, status: Status, events: seq<SseEvent>,
                emitted0: seq<SseEvent>, ghost before: seq<Row>, ghost base: seq<Effect>, ghost effects0: seq<Effect>)
    returns (emitted: seq<SseEvent>, ghost effects: seq<Effect>)
    requires index == |before| && index < |history.rows|
    requires history.journal == base + effects0 && Faithful(before, effects0, history.rows, text, emitted0)
    requires (status == Completed || status == Errored) && history.rows[index].content <= content
    requires events != [] ==> content == text
    requires forall e | e in events :: !e.Token?
    modifies history
    ensures history.rows == Updated(old(history.rows), index, content, status)
    ensures emitted == emitted0 + events
    ensures history.journal == base + effects && effects0 <= effects
    ensures Faithful(before, effects, history.rows, text, emitted) && Extends(before, history.rows)
  {
    hide Faithful;
    emitted := emitted0;
    effects := Checkpoint(history, index, content, status, text, emitted0, before, base, effects0);
    for i := 0 to |events|
      invariant history.rows == Updated(old(history.rows), index, content, status)
      invariant history.journal == base + effects && effects0 <= effects && emitted == emitted0 + events[..i]
      invariant Faithful(before, effects, history.rows, text, emitted) && Extends(before, history.rows)
    {
      assert text + TextIn(events[i]) == text;
      emitted, effects := Emit(history, events[i], text, emitted, before, base, effects);
    }
  }

  /** What a turn adds to the history and sends. Its effects, one by one, are allowed, lead to these rows
      and are these events. */
  ghost predicate TurnDone(before: seq<Row>, after: seq<Row>, agentId: string, reply: Reply, k: nat, verdict: Verdict,
                           emitted: seq<SseEvent>, effects: seq<Effect>)
    requires k <= |reply.events|
  {
    var pending := PendingRow(before, agentId);
    && after == before + [SettledRow(pending, reply, k, verdict)]
    && emitted == TurnEvents(pending, agentId, reply, k, verdict)
    && effects != [] && effects[0] == Wrote(before + [pending])
    && Faithful(before, effects, after, TextOf(reply.events[..k]), emitted)
  }

  /** How a turn that nobody aborts leaves its row and the client: complete, with the whole text and the
      usage, exactly if the reply arrives; otherwise an error, and the client is told which. */
  ghost predicate Concludes(row: Row, reply: Reply, emitted: seq<SseEvent>) {
    if Arrives(reply) then
      && row.status == Completed && row.content == TextOf(reply.events)
      && emitted != [] && emitted[|emitted| - 1] == MessageComplete(LastUsage(reply.events))
    else row.status == Errored && TellsError(reply, emitted)
  }

  ghost predicate TellsError(reply: Reply, emitted: seq<SseEvent>) {
    exists e :: BreaksWith(reply, e) && |emitted| >= 2 && emitted[|emitted| - 2..] == [ErrorSent(e), DoneSent]
  }

  lemma UnabortedTurn(before: seq<Row>, after: seq<Row>, agentId: string, reply: Reply, k: nat, verdict: Verdict,
                      emitted: seq<SseEvent>, effects: seq<Effect>)
    requires Fitting(reply, k, verdict, false) && TurnDone(before, after, agentId, reply, k, verdict, emitted, effects)
    ensures Concludes(after[|before|], reply, emitted)
  {
    hide Faithful, TextOf, LastUsage, Forwarded, Failure, BreaksWith, Arrives, BeforeFailure;
    FailureMeans(reply);
    match verdict
    case Replied =>
      assert reply.events[..k] == reply.events;
    case Broke(e) =>
      assert emitted[|emitted| - 2..] == [ErrorSent(e), DoneSent];
  }

  /** The pending row and the event that announces it. */
  method Begin(history: ChatHistory, agentId: string) returns (index: nat, emitted: seq<SseEvent>, ghost effects: seq<Effect>)
    modifies history
    ensures index == |old(history.rows)|
    ensures history.rows == old(history.rows) + [PendingRow(old(history.rows), agentId)]
    ensures emitted == [MessageStart(MaxSequence(old(history.rows)) + 1, agentId)]
    ensures history.journal == old(history.journal) + effects
    ensures effects != [] && effects[0] == Wrote(history.rows)
    ensures Faithful(old(history.rows), effects, history.rows, "", emitted)
  {
    ghost var before := history.rows;
    index := history.Append(Transcript.Assistant, Some(agentId), "", Pending);
    StartFaithful(before, PendingRow(before, agentId));
    var start := MessageStart(history.rows[index].sequence, agentId);
    SendFaithful(before, [Wrote(history.rows)], history.rows, "", [], start);
    history.Send(start);
    emitted, effects := [start], [Wrote(history.rows), Sent(start)];
    assert [Wrote(history.rows)] + [Sent(start)] == effects;
  }

  method StreamMemberTurn(history: ChatHistory, agentId: string, reply: Reply, signal: AbortSignal)
    returns (result: TurnResult, emitted: seq<SseEvent>, ghost k: nat, ghost effects: seq<Effect>)
    modifies history, signal
    ensures old(signal.aborted) ==> signal.aborted
    ensures Fitting(reply, k, result.verdict, signal.aborted)
    ensures history.journal == old(history.journal) + effects
    ensures TurnDone(old(history.rows), history.rows, agentId, reply, k, result.verdict, emitted, effects)
    ensures result.verdict.Replied? ==> result.content == TextOf(reply.events) && result.usage == LastUsage(reply.events)
    ensures !signal.aborted ==> Concludes(history.rows[|old(history.rows)|], reply, emitted)
  {
    hide Faithful, TextOf, LastUsage, Forwarded;
    ghost var before, base := history.rows, history.journal;
    ghost var pending := PendingRow(before, agentId);
    var index;
    index, emitted, effects := Begin(history, agentId);
    var text, usage, ending;
    ghost var p := Progress(before, base, effects, emitted);
    text, usage, ending, emitted, k, effects := Consume(history, index, reply, signal, p, emitted);
    var aborted := signal.Poll();
    var content, status, events, verdict;
    if aborted {
      content, status := if |text| > 0 then text else INTERRUPTED, if |text| > 0 then Completed else Errored;
      events, verdict := [], Interrupted;
    } else if ending.Broken? {
      content, status := text, Errored;
      events, verdict := [ErrorSent(ending.error), DoneSent], Broke(ending.error);
    } else {
      assert reply.events[..k] == reply.events;
      content, status := text, Completed;
      events, verdict := [MessageComplete(usage)], Replied;
    }
    ghost var rows := history.rows;
    emitted, effects := Settle(history, index, text, content, status, events, emitted, before, base, effects);
    SettledLast(before, pending, rows, content, status);
    if !signal.aborted { UnabortedTurn(before, history.rows, agentId, reply, k, verdict, emitted, effects); }
    return TurnResult(content, usage, verdict), emitted, k, effects;
  }

  /** However a turn ends, its row is settled, with exactly the text the client was sent; if that is none
      because the turn was interrupted, with a notice. It is complete if the reply was, or if it was
      interrupted after some text. */
  lemma AlwaysSettled(before: seq<Row>, after: seq<Row>, agentId: string, reply: Reply, k: nat, verdict: Verdict,
                      emitted: seq<SseEvent>, effects: seq<Effect>)
    requires k <= |reply.events| && TurnDone(before, after, agentId, reply, k, verdict, emitted, effects)
    ensures var text := Streamed(effects);
            && Extends(before, after) && !Live(after[|before|]) && after[|before|].sequence == MaxSequence(before) + 1
            && after[|before|].role == Transcript.Assistant && after[|before|].agentId == Some(agentId)
            && emitted != [] && emitted[0] == MessageStart(after[|before|].sequence, agentId)
            && after[|before|].content == (if verdict == Interrupted && text == "" then INTERRUPTED else text)
            && (after[|before|].status == Completed <==> verdict == Replied || (verdict == Interrupted && text != ""))
  {
    hide Journalled, Stored, Streamed, SentIn, TextOf;
  }

  lemma SettledLast(before: seq<Row>, pending: Row, rows: seq<Row>, content: string, status: Status)
    requires Extends(before, rows) && Grew(pending, rows[|before|])
    ensures Updated(rows, |before|, content, status) == before + [pending.(content := content, status := status)]
  {}

  // ---------------------------------------------------------------------------------------------
  // A single agent's chat
  // ---------------------------------------------------------------------------------------------

  /** As `Fitting`, but an error that looks like an abort counts as one. */
  predicate ChatFitting(reply: Reply, k: nat, verdict: Verdict, aborted: bool, abortLike: AdapterError -> bool) {
    && k <= BeforeFailure(reply.events)
    && match verdict
       case Replied => k == |reply.events| && Failure(reply).None?
       case Interrupted => aborted || (k == BeforeFailure(reply.events) && Failure(reply).Some? && abortLike(Failure(reply).value))
       case Broke(e) => k == BeforeFailure(reply.events) && Failure(reply) == Some(e) && !abortLike(e)
  }

  function ChatEvents(pending: Row, agentId: string, reply: Reply, k: nat, verdict: Verdict): seq<SseEvent>
    requires k <= |reply.events|
  {
    var usage := LastUsage(reply.events);
    [MessageStart(pending.sequence, agentId)] + Forwarded(reply.events[..k])
    + match verdict
      case Replied => (if usage.Some? then [UsageSent(usage.value)] else []) + [MessageComplete(usage), DoneSent]
      case Interrupted => []
      case Broke(e) => [ErrorSent(e), DoneSent]
  }

  /** How a single agent's turn that nobody aborts leaves its row and the client: as `Concludes`, except that
      an error that looks like an abort settles the row as an interruption does, without a word. */
  ghost predicate ChatConcludes(row: Row, reply: Reply, emitted: seq<SseEvent>, streamed: string, abortLike: AdapterError -> bool) {
    if Arrives(reply) then
      && row.status == Completed && row.content == TextOf(reply.events)
      && |emitted| >= 3 && emitted[|emitted| - 2..] == [MessageComplete(LastUsage(reply.events)), DoneSent]
      && (LastUsage(reply.events).Some? ==> emitted[|emitted| - 3] == UsageSent(LastUsage(reply.events).value))
    else
      exists e :: BreaksWith(reply, e)
        && if abortLike(e) then
             && row.status == (if streamed != "" then Completed else Errored)
             && row.content == (if streamed != "" then streamed else INTERRUPTED)
             && DoneSent !in emitted
           else row.status == Errored && |emitted| >= 2 && emitted[|emitted| - 2..] == [ErrorSent(e), DoneSent]
  }

  lemma UnabortedChat(pending: Row, agentId: string, reply: Reply, k: nat, verdict: Verdict, abortLike: AdapterError -> bool)
    requires ChatFitting(reply, k, verdict, false, abortLike)
    ensures ChatConcludes(SettledRow(pending, reply, k, verdict), reply, ChatEvents(pending, agentId, reply, k, verdict),
                          TextOf(reply.events[..k]), abortLike)
  {
    hide TextOf, LastUsage, Forwarded, Failure, BreaksWith, Arrives, BeforeFailure;
    FailureMeans(reply);
    var emitted := ChatEvents(pending, agentId, reply, k, verdict);
    match verdict
    case Replied =>
      assert reply.events[..k] == reply.events;
      assert emitted[|emitted| - 2..] == [MessageComplete(LastUsage(reply.events)), DoneSent];
    case Interrupted =>
      ForwardedCarries(reply.events[..k]);
      assert DoneSent !in emitted;
    case Broke(e) =>
      assert emitted[|emitted| - 2..] == [ErrorSent(e), DoneSent];
  }

  method StreamChat(history: ChatHistory, agentId: string, reply: Reply, signal: AbortSignal,
                    abortLike: AdapterError -> bool)
    returns (verdict: Verdict, emitted: seq<SseEvent>, ghost k: nat, ghost effects: seq<Effect>)
    modifies history, signal
    ensures ChatFitting(reply, k, verdict, signal.aborted, abortLike)
    ensures history.journal == old(history.journal) + effects
    ensures var pending := PendingRow(old(history.rows), agentId);
            && history.rows == old(history.rows) + [SettledRow(pending, reply, k, verdict)]
            && emitted == ChatEvents(pending, agentId, reply, k, verdict)
            && effects != [] && effects[0] == Wrote(old(history.rows) + [pending])
            && Faithful(old(history.rows), effects, history.rows, TextOf(reply.events[..k]), emitted)
    ensures !signal.aborted ==>
              ChatConcludes(history.rows[|old(history.rows)|], reply, emitted, TextOf(reply.events[..k]), abortLike)
  {
    hide Faithful, TextOf, LastUsage, Forwarded;
    ghost var before, base := history.rows, history.journal;
    ghost var pending := PendingRow(before, agentId);
    var index;
    index, emitted, effects := Begin(history, agentId);
    var text, usage, ending;
    ghost var p := Progress(before, base, effects, emitted);
    text, usage, ending, emitted, k, effects := Consume(history, index, reply, signal, p, emitted);
    var aborted := signal.Poll();
    var content, status, events;
    if aborted || (ending.Broken? && abortLike(ending.error)) {
      content, status := if |text| > 0 then text else INTERRUPTED, if |text| > 0 then Completed else Errored;
      events, verdict := [], Interrupted;
    } else if ending.Broken? {
      content, status := text, Errored;
      events, verdict := [ErrorSent(ending.error), DoneSent], Broke(ending.error);
    } else {
      assert reply.events[..k] == reply.events;
      content, status := text, Completed;
      events := (if usage.Some? then [UsageSent(usage.value)] else []) + [MessageComplete(usage), DoneSent];
      verdict := Replied;
    }
    ghost var rows := history.rows;
    emitted, effects := Settle(history, index, text, content, status, events, emitted, before, base, effects);
    SettledLast(before, pending, rows, content, status);
    if !signal.aborted { UnabortedChat(pending, agentId, reply, k, verdict, abortLike); }
  }
}
