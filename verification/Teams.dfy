/** Team chats: four strategies that decide who speaks next, each run with streaming and without. */
module Teams {
  import opened Text
  import Transcript
  import opened Messages
  import opened StreamEvents
  import opened MemberTurn
  import Context
  import opened Schedule
  import opened Traces

  datatype Member = Member(agentId: string, name: string, role: Option<string>, isCoordinator: bool)

  /** The team, the context each turn is asked with, the provider, and the functions of the host that
      read markers and names. The wording of the directives is a parameter as well. */
  datatype World = World(
    members: seq<Member>,
    context: (Turn, seq<Row>) -> Context.Outcome,
    provider: (string, Option<string>, seq<Transcript.AdapterMessage>) -> Reply,
    lower: string -> string,
    delegateOf: string -> Option<string>,
    nextOf: string -> Option<string>,
    coordinatorDirective: string,
    handoffDirective: Member -> string)

  /** Who is asked, with which extra instructions, and up to which message. */
  datatype Turn = Turn(member: Member, extra: Option<string>, maxSequence: Option<int>)

  const FINISH := "<!-- GB_TEAM_FINISH -->"
  const DONE := "[DONE]"

  // ---------------------------------------------------------------------------------------------
  // Asking one member
  // ---------------------------------------------------------------------------------------------

  function Sent(cs: seq<Context.Candidate>): (messages: seq<Transcript.AdapterMessage>)
    ensures |messages| == |cs| && forall i :: 0 <= i < |cs| ==> messages[i] == cs[i].adapterMessage
  {
    if cs == [] then [] else Sent(cs[..|cs| - 1]) + [cs[|cs| - 1].adapterMessage]
  }

  /** The provider's reply to a context, if the context fits. */
  function ReplyTo(w: World, agentId: string, c: Context.Outcome): Option<Reply> {
    match c
    case TooLong(_) => None
    case Fits(a) => Some(w.provider(agentId, a.systemPrompt, Sent(a.included)))
  }

  function Ask(w: World, t: Turn, rows: seq<Row>): Option<Reply> {
    ReplyTo(w, t.member.agentId, w.context(t, rows))
  }

  /** The reply as a whole, if it arrives: its text and the usage reported. */
  function Answer(w: World, t: Turn, rows: seq<Row>): Option<(string, Option<Usage>)> {
    var reply := Ask(w, t, rows);
    if reply.Some? && Failure(reply.value).None?
    then Some((TextOf(reply.value.events), LastUsage(reply.value.events))) else None
  }

  // ---------------------------------------------------------------------------------------------
  // The schedule
  // ---------------------------------------------------------------------------------------------

  datatype Strategy = Sequential | Coordinator | Broadcast | Autonomous

  function BoundedMaxTurns(configured: int): (n: nat)
    ensures 1 <= n <= 10 && (1 <= configured <= 10 ==> n == configured)
    ensures (configured < 1 ==> n == 1) && (configured > 10 ==> n == 10)
  {
    var atLeastOne := if configured < 1 then 1 else configured;
    if atLeastOne > 10 then 10 else atLeastOne
  }

  function Limit(w: World, s: Strategy, bound: nat): nat {
    match s
    case Coordinator => 2
    case Autonomous => bound
    case _ => if |w.members| < bound then |w.members| else bound
  }

  /** The first of the members that fits. */
  ghost predicate Picks(members: seq<Member>, fits: Member -> bool, m: Member) {
    exists i | 0 <= i < |members| ::
      members[i] == m && fits(m) && forall j | 0 <= j < i :: !fits(members[j])
  }

  function FindFirst(members: seq<Member>, fits: Member -> bool): (m: Option<Member>)
    ensures m.Some? ==> m.value in members && fits(m.value) && Picks(members, fits, m.value)
    ensures m.None? ==> forall x | x in members :: !fits(x)
  {
    if members == [] then None
    else if fits(members[0]) then Some(members[0])
    else FindFirst(members[1..], fits)
  }

  function Lead(w: World): Member
    requires w.members != []
  {
    var flagged := FindFirst(w.members, (m: Member) => m.isCoordinator);
    var named := FindFirst(w.members, (m: Member) =>
      m.role.Some? && (Contains(w.lower(m.role.value), "coordinator") || Contains(w.lower(m.role.value), "router")));
    if flagged.Some? then flagged.value else if named.Some? then named.value else w.members[0]
  }

  function Others(members: seq<Member>, agentId: string): (r: seq<Member>)
    ensures forall m :: m in r <==> m in members && m.agentId != agentId
  {
    if members == [] then []
    else (if members[0].agentId != agentId then [members[0]] else []) + Others(members[1..], agentId)
  }

  /** A member named by a marker: by identifier, else by name, else by part of a name. */
  function Target(w: World, candidates: seq<Member>, query: string): (m: Option<Member>)
    ensures m.Some? ==> m.value in candidates
  {
    var byId := FindFirst(candidates, (m: Member) => w.lower(m.agentId) == query);
    var byName := FindFirst(candidates, (m: Member) => w.lower(m.name) == query);
    var byPart := FindFirst(candidates, (m: Member) => Contains(w.lower(m.name), query) || Contains(query, w.lower(m.name)));
    if byId.Some? then byId else if byName.Some? then byName else byPart
  }

  function CoordinatorTurn(w: World): Turn
    requires w.members != []
  {
    var lead := Lead(w);
    Turn(lead, if Others(w.members, lead.agentId) != [] then Some(w.coordinatorDirective) else None, None)
  }

  function AutonomousTurn(w: World, m: Member): Turn {
    Turn(m, if Others(w.members, m.agentId) != [] then Some(w.handoffDirective(m)) else None, None)
  }

  function SpecialistTurn(w: World, bound: nat, content: string): Option<Turn>
    requires w.members != []
  {
    var specialists := Others(w.members, Lead(w).agentId);
    var query := w.delegateOf(content);
    if bound < 2 || specialists == [] || query.None? then None
    else
      var m := Target(w, specialists, query.value);
      if m.Some? then Some(Turn(m.value, None, None)) else None
  }

  function HandoffTurn(w: World, current: Member, content: string): Option<Turn> {
    var query := w.nextOf(content);
    if Contains(content, DONE) || Contains(content, FINISH) || query.None? then None
    else
      var m := Target(w, Others(w.members, current.agentId), query.value);
      if m.Some? then Some(AutonomousTurn(w, m.value)) else None
  }

  function First(w: World, s: Strategy, boundary: int): Turn
    requires w.members != []
  {
    match s
    case Sequential => Turn(w.members[0], None, None)
    case Broadcast => Turn(w.members[0], None, Some(boundary))
    case Coordinator => CoordinatorTurn(w)
    case Autonomous => AutonomousTurn(w, Lead(w))
  }

  /** Who speaks after turn `k` (counted from 0), given what was said in it. */
  function Next(w: World, s: Strategy, bound: nat, boundary: int, k: nat, t: Turn, content: string): (n: Option<Turn>)
    requires w.members != []
    ensures n.Some? ==> k + 1 < Limit(w, s, bound)
  {
    if k + 1 >= Limit(w, s, bound) then None
    else
      match s
      case Sequential => if Contains(content, FINISH) then None else Some(Turn(w.members[k + 1], None, None))
      case Broadcast => Some(Turn(w.members[k + 1], None, Some(boundary)))
      case Coordinator => SpecialistTurn(w, bound, content)
      case Autonomous => HandoffTurn(w, t.member, content)
  }

  /** The rules of a conversation under a strategy. The broadcast boundary is the highest sequence at
      its start. */
  function RulesOf(w: World, s: Strategy, bound: nat, boundary: int): Rules<Turn>
    requires w.members != []
  {
    Rules((t: Turn) => t.member.agentId,
          (t: Turn, rows: seq<Row>) => TextAnswer(w, t, rows),
          (k: nat, t: Turn, content: string) => Next(w, s, bound, boundary, k, t, content),
          Limit(w, s, bound))
  }

  function TextAnswer(w: World, t: Turn, rows: seq<Row>): Option<string> {
    var answer := Answer(w, t, rows);
    if answer.Some? then Some(answer.value.0) else None
  }

  /** A turn is answered exactly if its context fits and the reply arrives, and then with the whole text. */
  lemma AnswerMeans(w: World, t: Turn, rows: seq<Row>)
    ensures var asked, answer := Ask(w, t, rows), TextAnswer(w, t, rows);
            && (answer.Some? <==> asked.Some? && Arrives(asked.value))
            && (answer.Some? ==> answer.value == TextOf(asked.value.events))
  {
    hide Failure, Arrives;
    var asked := Ask(w, t, rows);
    if asked.Some? { FailureMeans(asked.value); }
  }

  /** The one specification of all eight orchestrators. */
  function Scheduled(w: World, s: Strategy, bound: nat, rows: seq<Row>): Script
    requires w.members != []
  {
    Play(RulesOf(w, s, bound, MaxSequence(rows)), rows, 0, First(w, s, MaxSequence(rows)))
  }

  /** A run that has said `said` and is about to take turn `k`. */
  ghost predicate Standing(w: World, s: Strategy, bound: nat, start: seq<Row>, rows: seq<Row>, said: seq<Said>, k: nat, t: Turn)
    requires w.members != []
  {
    AtTurn(RulesOf(w, s, bound, MaxSequence(start)), First(w, s, MaxSequence(start)), start, rows, said, k, t)
  }

  // ---------------------------------------------------------------------------------------------
  // What a run leaves
  // ---------------------------------------------------------------------------------------------

  /** The row that marks a failed turn after others succeeded. */
  function WithErrorRow(rows: seq<Row>, agentId: string): seq<Row> {
    Appended(rows, Transcript.Assistant, Some(agentId), FAILED_TURN, Errored)
  }

  /** The history after a run without streaming: all that was said, and an error row if a turn failed
      after others had succeeded. */
  function AfterComplete(rows: seq<Row>, script: Script): seq<Row> {
    var extended := Extended(rows, script.said);
    if script.failed.Some? && script.said != [] then WithErrorRow(extended, script.failed.value) else extended
  }

  /** A run without streaming: unless aborted, it follows the schedule to its end; aborted, it follows
      it as far as it gets. */
  ghost predicate Completes(w: World, s: Strategy, bound: nat, start: seq<Row>, rows: seq<Row>,
                            said: seq<Said>, failed: Option<string>, aborted: bool)
    requires w.members != []
  {
    && said <= Scheduled(w, s, bound, start).said
    && rows == AfterComplete(start, Script(said, failed))
    && (!aborted ==> Script(said, failed) == Scheduled(w, s, bound, start))
  }

  /** How a streamed run, or a turn of it, ended. */
  datatype Ended = Finished | CutShort | ContextRefused | TurnFailed(error: AdapterError)

  /** The trace of a run: whole turns and the sum of the usages they reported, if it finished; whole turns
      and perhaps an unfinished one, if it was cut short; whole turns, the failed one and its error. */
  ghost predicate WellTraced(emitted: seq<SseEvent>, ended: Ended) {
    match ended
    case Finished =>
      exists turns :: Trace(turns) == Between && emitted == turns + Closing(Reported(turns)) && Trace(emitted) == Over
    case CutShort => Trace(emitted) == Between || Trace(emitted) == Open
    case ContextRefused => Trace(emitted) == Between
    case TurnFailed(error) => FailsWith(emitted, error) && Trace(emitted) == Over
  }

  /** What a streamed run leaves: a row for everything said, and for an unfinished turn one more, which
      belongs to its speaker and holds the text the client was sent, settled. */
  ghost predicate Leaves(before: seq<Row>, rows: seq<Row>, emitted: seq<SseEvent>, ended: Ended) {
    var h := Hear(emitted);
    match ended
    case CutShort =>
      rows == if Trace(emitted) == Open then before + [InterruptedRow(PendingRow(before, h.speaker), h.text)] else before
    case TurnFailed(_) => rows == before + [PendingRow(before, h.speaker).(content := h.text, status := Errored)]
    case _ => rows == before
  }

  /** A streamed run: what it said is the beginning of the schedule, and the client has heard exactly that.
      Finished, it has said all of it; only an aborted run is cut short; otherwise it fails with the turn in
      which the schedule fails. */
  ghost predicate Streams(w: World, s: Strategy, bound: nat, start: seq<Row>, rows: seq<Row>, said: seq<Said>,
                          emitted: seq<SseEvent>, ended: Ended, aborted: bool)
    requires w.members != []
  {
    && said <= Scheduled(w, s, bound, start).said && Heard(emitted) == said
    && Leaves(Extended(start, said), rows, emitted, ended) && WellTraced(emitted, ended)
    && match ended
       case Finished => Scheduled(w, s, bound, start) == Script(said, None)
       case CutShort => aborted
       case ContextRefused => exists id :: Scheduled(w, s, bound, start) == Script(said, Some(id))
       case TurnFailed(_) => Scheduled(w, s, bound, start) == Script(said, Some(Hear(emitted).speaker))
  }

  /** All there is to say has been said, whichever way the run was taken. */
  ghost predicate EndsHere(w: World, s: Strategy, bound: nat, start: seq<Row>, rows: seq<Row>, said: seq<Said>)
    requires w.members != []
  {
    && rows == Extended(start, said) && Scheduled(w, s, bound, start) == Script(said, None)
    && forall aborted :: Completes(w, s, bound, start, rows, said, None, aborted)
  }

  /** After an answer, a run stands at its next turn, or it has said all there is to say. */
  ghost predicate Answered(w: World, s: Strategy, bound: nat, start: seq<Row>, rows: seq<Row>, said: seq<Said>,
                           k: nat, t: Turn, content: string)
    requires w.members != []
  {
    var next := Next(w, s, bound, MaxSequence(start), k, t, content);
    if next.Some? then Standing(w, s, bound, start, rows, said, k + 1, next.value)
    else EndsHere(w, s, bound, start, rows, said)
  }

  lemma AnswerMoves(w: World, s: Strategy, bound: nat, start: seq<Row>, rows: seq<Row>, said: seq<Said>, k: nat, t: Turn, content: string)
    requires w.members != [] && Standing(w, s, bound, start, rows, said, k, t)
    requires TextAnswer(w, t, rows) == Some(content)
    ensures var x := Said(t.member.agentId, content);
            Answered(w, s, bound, start, AppendReply(rows, x), said + [x], k, t, content)
  {
    hide Next, TextAnswer, First, Play, EndsHere, Limit;
    var r, x := RulesOf(w, s, bound, MaxSequence(start)), Said(t.member.agentId, content);
    AfterAnswer(r, First(w, s, MaxSequence(start)), start, rows, said, k, t, content);
    LimitFollows(w, s, bound, MaxSequence(start), k, t, content);
    if r.next(k, t, content).None? {
      SaidAll(w, s, bound, start, AppendReply(rows, x), said + [x]);
    }
  }

  lemma SaidAll(w: World, s: Strategy, bound: nat, start: seq<Row>, rows: seq<Row>, said: seq<Said>)
    requires w.members != [] && rows == Extended(start, said) && Scheduled(w, s, bound, start) == Script(said, None)
    ensures EndsHere(w, s, bound, start, rows, said)
  {
    hide Scheduled, Extended;
  }

  lemma LimitFollows(w: World, s: Strategy, bound: nat, boundary: int, k: nat, t: Turn, content: string)
    requires w.members != []
    ensures Next(w, s, bound, boundary, k, t, content).Some? ==> k + 1 < Limit(w, s, bound)
  {}

  lemma SilenceEnds(w: World, s: Strategy, bound: nat, start: seq<Row>, rows: seq<Row>, said: seq<Said>, k: nat, t: Turn)
    requires w.members != [] && Standing(w, s, bound, start, rows, said, k, t)
    requires TextAnswer(w, t, rows).None?
    ensures Scheduled(w, s, bound, start) == Script(said, Some(t.member.agentId))
  {
    AfterSilence(RulesOf(w, s, bound, MaxSequence(start)), First(w, s, MaxSequence(start)), start, rows, said, k, t);
  }

  lemma StandingSaid(w: World, s: Strategy, bound: nat, start: seq<Row>, rows: seq<Row>, said: seq<Said>, k: nat, t: Turn)
    requires w.members != [] && Standing(w, s, bound, start, rows, said, k, t)
    ensures said <= Scheduled(w, s, bound, start).said && rows == Extended(start, said)
  {}

  lemma StandingAtFirst(w: World, s: Strategy, bound: nat, start: seq<Row>)
    requires w.members != []
    ensures Standing(w, s, bound, start, start, [], 0, First(w, s, MaxSequence(start)))
  {
    AtFirst(RulesOf(w, s, bound, MaxSequence(start)), First(w, s, MaxSequence(start)), start);
  }

  /** An aborted run may stop before any turn. */
  lemma StandingCutShort(w: World, s: Strategy, bound: nat, start: seq<Row>, rows: seq<Row>, said: seq<Said>, k: nat, t: Turn)
    requires w.members != [] && Standing(w, s, bound, start, rows, said, k, t)
    ensures Completes(w, s, bound, start, rows, said, None, true)
  {
    hide Scheduled, Extended;
    StandingSaid(w, s, bound, start, rows, said, k, t);
  }

  // ---------------------------------------------------------------------------------------------
  // Without streaming
  // ---------------------------------------------------------------------------------------------

  /** One turn: the reply is stored once it has arrived as a whole. An aborted request may fail. */
  method ExecuteMemberTurn(w: World, history: ChatHistory, t: Turn, signal: AbortSignal)
    returns (reply: Option<string>)
    modifies history, signal
    ensures old(signal.aborted) ==> signal.aborted
    ensures reply.Some? ==> reply == TextAnswer(w, t, old(history.rows))
                            && history.rows == AppendReply(old(history.rows), Said(t.member.agentId, reply.value))
    ensures reply.None? ==> history.rows == old(history.rows)
    ensures reply.None? && !signal.aborted ==> TextAnswer(w, t, old(history.rows)).None?
    ensures var asked := Ask(w, t, old(history.rows));
            && (reply.Some? ==> asked.Some? && Arrives(asked.value) && reply.value == TextOf(asked.value.events)
                                && history.rows == old(history.rows)
                                   + [Row(MaxSequence(old(history.rows)) + 1, Transcript.Assistant, Some(t.member.agentId),
                                          reply.value, Completed)])
            && (asked.Some? && Arrives(asked.value) && !signal.aborted ==> reply.Some?)
  {
    AnswerMeans(w, t, history.rows);
    var r := Ask(w, t, history.rows);
    var aborted := signal.Poll();
    var cancelled := false;
    if * { cancelled := aborted; }
    if cancelled || r.None? || Failure(r.value).Some? { return None; }
    reply := Some(TextOf(r.value.events));
    var index := history.Append(Transcript.Assistant, Some(t.member.agentId), reply.value, Completed);
  }

  /** A turn of a run without streaming, with the error row if it fails after others succeeded. */
  method CompleteTurn(w: World, ghost s: Strategy, ghost bound: nat, ghost start: seq<Row>, ghost k: nat,
                      history: ChatHistory, t: Turn, said0: seq<Said>, signal: AbortSignal)
    returns (said: seq<Said>, reply: Option<string>)
    requires w.members != [] && Standing(w, s, bound, start, history.rows, said0, k, t)
    modifies history, signal
    ensures old(signal.aborted) ==> signal.aborted
    ensures reply.Some? ==> Answered(w, s, bound, start, history.rows, said, k, t, reply.value)
    ensures reply.None? ==>
              history.rows == old(history.rows)
              + if said0 == [] then []
                else [Row(MaxSequence(old(history.rows)) + 1, Transcript.Assistant, Some(t.member.agentId),
                          "Generation failed mid-team turn", Errored)]
    ensures reply.None? ==> said == said0
                            && Completes(w, s, bound, start, history.rows, said, Some(t.member.agentId), signal.aborted)
  {
    hide Standing, Scheduled, Answered, Completes, TextAnswer;
    said := said0;
    ghost var rows := history.rows;
    reply := ExecuteMemberTurn(w, history, t, signal);
    if reply.Some? {
      said := said + [Said(t.member.agentId, reply.value)];
      AnswerMoves(w, s, bound, start, rows, said0, k, t, reply.value);
    } else {
      if |said| > 0 {
        var index := history.Append(Transcript.Assistant, Some(t.member.agentId), FAILED_TURN, Errored);
      }
      CompletesFailed(w, s, bound, start, rows, said0, k, t, signal.aborted);
    }
  }

  lemma CompletesFailed(w: World, s: Strategy, bound: nat, start: seq<Row>, rows: seq<Row>, said: seq<Said>, k: nat, t: Turn, aborted: bool)
    requires w.members != [] && Standing(w, s, bound, start, rows, said, k, t)
    requires !aborted ==> TextAnswer(w, t, rows).None?
    ensures Completes(w, s, bound, start, if said != [] then WithErrorRow(rows, t.member.agentId) else rows, said,
                      Some(t.member.agentId), aborted)
  {
    hide Standing, Scheduled, TextAnswer;
    StandingSaid(w, s, bound, start, rows, said, k, t);
    if !aborted { SilenceEnds(w, s, bound, start, rows, said, k, t); }
  }

  method CompleteSequential(w: World, bound: nat, history: ChatHistory, signal: AbortSignal)
    returns (said: seq<Said>, failed: Option<string>)
    requires w.members != [] && bound > 0
    modifies history, signal
    ensures Completes(w, Sequential, bound, old(history.rows), history.rows, said, failed, signal.aborted)
  {
    hide Standing, Completes, Streams;
    ghost var start := history.rows;
    said, failed := [], None;
    StandingAtFirst(w, Sequential, bound, start);
    var maxTurns := Limit(w, Sequential, bound);
    var i := 0;
    while i < maxTurns
      invariant i <= maxTurns
      invariant i < maxTurns ==>
        Standing(w, Sequential, bound, start, history.rows, said, i, Turn(w.members[i], None, None))
      invariant i == maxTurns ==> EndsHere(w, Sequential, bound, start, history.rows, said)
    {
      var t := Turn(w.members[i], None, None);
      StandingCutShort(w, Sequential, bound, start, history.rows, said, i, t);
      var aborted := signal.Poll();
      if aborted { return said, None; }
      var reply;
      said, reply := CompleteTurn(w, Sequential, bound, start, i, history, t, said, signal);
      if reply.None? { return said, Some(t.member.agentId); }
      if Contains(reply.value, FINISH) { return said, None; }
      i := i + 1;
    }
  }

  method CompleteCoordinator(w: World, bound: nat, history: ChatHistory, signal: AbortSignal)
    returns (said: seq<Said>, failed: Option<string>)
    requires w.members != [] && bound > 0
    modifies history, signal
    ensures Completes(w, Coordinator, bound, old(history.rows), history.rows, said, failed, signal.aborted)
  {
    hide Standing, Completes, Streams, CoordinatorTurn, SpecialistTurn;
    ghost var start := history.rows;
    StandingAtFirst(w, Coordinator, bound, start);
    var t := CoordinatorTurn(w);
    var reply;
    said, reply := CompleteTurn(w, Coordinator, bound, start, 0, history, t, [], signal);
    if reply.None? { return said, Some(t.member.agentId); }
    var specialist := SpecialistTurn(w, bound, reply.value);
    if specialist.None? { return said, None; }
    said, reply := CompleteTurn(w, Coordinator, bound, start, 1, history, specialist.value, said, signal);
    failed := if reply.None? then Some(specialist.value.member.agentId) else None;
  }

  method CompleteBroadcast(w: World, bound: nat, history: ChatHistory, signal: AbortSignal)
    returns (said: seq<Said>, failed: Option<string>)
    requires w.members != [] && bound > 0
    modifies history, signal
    ensures Completes(w, Broadcast, bound, old(history.rows), history.rows, said, failed, signal.aborted)
  {
    hide Standing, Completes, Streams;
    ghost var start := history.rows;
    var preBroadcastMaxSequence := MaxSequence(history.rows);
    said, failed := [], None;
    StandingAtFirst(w, Broadcast, bound, start);
    var maxTurns := Limit(w, Broadcast, bound);
    var i := 0;
    while i < maxTurns
      invariant i <= maxTurns
      invariant i < maxTurns ==>
        Standing(w, Broadcast, bound, start, history.rows, said, i, Turn(w.members[i], None, Some(preBroadcastMaxSequence)))
      invariant i == maxTurns ==> EndsHere(w, Broadcast, bound, start, history.rows, said)
    {
      var t := Turn(w.members[i], None, Some(preBroadcastMaxSequence));
      StandingCutShort(w, Broadcast, bound, start, history.rows, said, i, t);
      var aborted := signal.Poll();
      if aborted { return said, None; }
      var reply;
      said, reply := CompleteTurn(w, Broadcast, bound, start, i, history, t, said, signal);
      if reply.None? { return said, Some(t.member.agentId); }
      i := i + 1;
    }
  }

  method CompleteAutonomous(w: World, bound: nat, history: ChatHistory, signal: AbortSignal)
    returns (said: seq<Said>, failed: Option<string>)
    requires w.members != [] && bound > 0
    modifies history, signal
    ensures Completes(w, Autonomous, bound, old(history.rows), history.rows, said, failed, signal.aborted)
  {
    hide Standing, Completes, Streams, AutonomousTurn, Lead, Target, Others, Contains;
    ghost var start := history.rows;
    said, failed := [], None;
    StandingAtFirst(w, Autonomous, bound, start);
    var current := Lead(w);
    var turn := 0;
    while turn < bound
      invariant turn <= bound
      invariant turn < bound ==>
        Standing(w, Autonomous, bound, start, history.rows, said, turn, AutonomousTurn(w, current))
      invariant turn == bound ==> EndsHere(w, Autonomous, bound, start, history.rows, said)
    {
      var t := AutonomousTurn(w, current);
      TurnIsFor(w, current);
      StandingCutShort(w, Autonomous, bound, start, history.rows, said, turn, t);
      var aborted := signal.Poll();
      if aborted { return said, None; }
      var reply;
      said, reply := CompleteTurn(w, Autonomous, bound, start, turn, history, t, said, signal);
      if reply.None? { return said, Some(t.member.agentId); }
      if Contains(reply.value, DONE) || Contains(reply.value, FINISH) { return said, None; }
      var query := w.nextOf(reply.value);
      if query.None? { return said, None; }
      var next := Target(w, Others(w.members, current.agentId), query.value);
      if next.None? { return said, None; }
      current := next.value;
      turn := turn + 1;
    }
  }

  lemma TurnIsFor(w: World, m: Member)
    ensures AutonomousTurn(w, m).member == m
  {}

  // ---------------------------------------------------------------------------------------------
  // With streaming
  // ---------------------------------------------------------------------------------------------

  /** One streamed turn. */
  method StreamTurn(w: World, ghost s: Strategy, ghost bound: nat, ghost start: seq<Row>, ghost k: nat,
                    history: ChatHistory, t: Turn, said0: seq<Said>, signal: AbortSignal, emitted0: seq<SseEvent>, totals0: Totals)
    returns (said: seq<Said>, content: string, emitted: seq<SseEvent>, totals: Totals, ended: Ended)
    requires w.members != [] && Standing(w, s, bound, start, history.rows, said0, k, t)
    requires Trace(emitted0) == Between && totals0 == Reported(emitted0) && Heard(emitted0) == said0
    modifies history, signal
    ensures old(signal.aborted) ==> signal.aborted
    ensures Heard(emitted) == said
    ensures ended == Finished ==> Answered(w, s, bound, start, history.rows, said, k, t, content)
                                  && Trace(emitted) == Between && totals == Reported(emitted)
    ensures ended != Finished ==>
              said == said0 && Streams(w, s, bound, start, history.rows, said, emitted, ended, signal.aborted)
  {
    hide Standing, Scheduled, Answered, Streams, Trace, Reported, Hear;
    said, content, emitted, totals := said0, "", emitted0, totals0;
    ghost var rows, id := history.rows, t.member.agentId;
    var r := Ask(w, t, history.rows);
    if r.None? {
      StreamsRefused(w, s, bound, start, rows, said0, k, t, emitted, signal.aborted);
      return said, content, emitted, totals, ContextRefused;
    }
    var result, events;
    ghost var consumed, effects;
    result, events, consumed, effects := StreamMemberTurn(history, t.member.agentId, r.value, signal);
    TurnTrace(emitted0, PendingRow(rows, id), id, r.value, consumed, result.verdict);
    TurnHeard(emitted0, PendingRow(rows, id), id, r.value, consumed, result.verdict);
    emitted := emitted0 + events;
    match result.verdict {
      case Replied =>
        content := result.content;
        said := said + [Said(t.member.agentId, content)];
        totals := Add(totals, result.usage);
        assert r.value.events[..consumed] == r.value.events;
        AnswerMoves(w, s, bound, start, rows, said0, k, t, content);
        ended := Finished;
      case Interrupted =>
        ended := CutShort;
        StreamsEnded(w, s, bound, start, rows, history.rows, said0, k, t, emitted, ended, signal.aborted);
      case Broke(e) =>
        TurnFails(emitted0, PendingRow(rows, id), id, r.value, consumed, e);
        ended := TurnFailed(e);
        StreamsEnded(w, s, bound, start, rows, history.rows, said0, k, t, emitted, ended, signal.aborted);
    }
  }

  lemma StreamsRefused(w: World, s: Strategy, bound: nat, start: seq<Row>, rows: seq<Row>, said: seq<Said>, k: nat, t: Turn,
                       emitted: seq<SseEvent>, aborted: bool)
    requires w.members != [] && Standing(w, s, bound, start, rows, said, k, t) && Ask(w, t, rows).None?
    requires Trace(emitted) == Between && Heard(emitted) == said
    ensures Streams(w, s, bound, start, rows, said, emitted, ContextRefused, aborted)
  {
    hide Standing, Scheduled, Ask, Trace, Hear;
    StandingSaid(w, s, bound, start, rows, said, k, t);
    SilenceEnds(w, s, bound, start, rows, said, k, t);
  }

  /** A turn that was taken and did not complete ends the run. */
  lemma StreamsEnded(w: World, s: Strategy, bound: nat, start: seq<Row>, rows: seq<Row>, after: seq<Row>, said: seq<Said>, k: nat, t: Turn,
                     emitted: seq<SseEvent>, ended: Ended, aborted: bool)
    requires w.members != [] && Standing(w, s, bound, start, rows, said, k, t) && Heard(emitted) == said
    requires Leaves(rows, after, emitted, ended) && WellTraced(emitted, ended) && Hear(emitted).speaker == t.member.agentId
    requires (ended == CutShort && aborted) || (ended.TurnFailed? && TextAnswer(w, t, rows).None?)
    ensures Streams(w, s, bound, start, after, said, emitted, ended, aborted)
  {
    hide Standing, Scheduled, TextAnswer, Leaves, WellTraced, Hear;
    StandingSaid(w, s, bound, start, rows, said, k, t);
    if ended.TurnFailed? { SilenceEnds(w, s, bound, start, rows, said, k, t); }
  }

  /** An aborted run may stop between two turns. */
  lemma StreamsBetween(w: World, s: Strategy, bound: nat, start: seq<Row>, rows: seq<Row>, said: seq<Said>, k: nat, t: Turn,
                       emitted: seq<SseEvent>)
    requires w.members != [] && Standing(w, s, bound, start, rows, said, k, t)
    requires Trace(emitted) == Between && Heard(emitted) == said
    ensures Streams(w, s, bound, start, rows, said, emitted, CutShort, true)
  {
    hide Standing, Scheduled, Hear;
    StandingSaid(w, s, bound, start, rows, said, k, t);
  }

  /** The end of a run that has said all there is to say. */
  method EmitFinalUsageAndDone(w: World, ghost s: Strategy, ghost bound: nat, ghost start: seq<Row>, ghost rows: seq<Row>,
                               ghost said: seq<Said>, emitted0: seq<SseEvent>, totals: Totals)
    returns (emitted: seq<SseEvent>)
    requires w.members != [] && EndsHere(w, s, bound, start, rows, said)
    requires Trace(emitted0) == Between && totals == Reported(emitted0) && Heard(emitted0) == said
    ensures emitted == emitted0 + Closing(totals)
    ensures forall aborted :: Streams(w, s, bound, start, rows, said, emitted, Finished, aborted)
  {
    hide Scheduled, Trace, Reported, Hear, Completes;
    ClosingTrace(emitted0, totals);
    ClosingHeard(emitted0, totals);
    emitted := emitted0 + Closing(totals);
  }

  method StreamSequential(w: World, bound: nat, history: ChatHistory, signal: AbortSignal)
    returns (said: seq<Said>, emitted: seq<SseEvent>, ended: Ended)
    requires w.members != [] && bound > 0
    modifies history, signal
    ensures Streams(w, Sequential, bound, old(history.rows), history.rows, said, emitted, ended, signal.aborted)
  {
    hide Standing, Completes, Streams, EndsHere, Trace, Reported, Hear;
    NothingHeard();
    ghost var start := history.rows;
    var content, totals;
    said, emitted, totals := [], [], ZERO;
    StandingAtFirst(w, Sequential, bound, start);
    var maxTurns := Limit(w, Sequential, bound);
    var i := 0;
    while i < maxTurns
      invariant i <= maxTurns && Trace(emitted) == Between && totals == Reported(emitted) && Heard(emitted) == said
      invariant i < maxTurns ==>
        Standing(w, Sequential, bound, start, history.rows, said, i, Turn(w.members[i], None, None))
      invariant i == maxTurns ==> EndsHere(w, Sequential, bound, start, history.rows, said)
    {
      var t := Turn(w.members[i], None, None);
      StreamsBetween(w, Sequential, bound, start, history.rows, said, i, t, emitted);
      var aborted := signal.Poll();
      if aborted { return said, emitted, CutShort; }
      said, content, emitted, totals, ended := StreamTurn(w, Sequential, bound, start, i, history, t, said, signal, emitted, totals);
      if ended != Finished { return; }
      if Contains(content, FINISH) { break; }
      i := i + 1;
    }
    emitted := EmitFinalUsageAndDone(w, Sequential, bound, start, history.rows, said, emitted, totals);
    ended := Finished;
  }

  method StreamCoordinator(w: World, bound: nat, history: ChatHistory, signal: AbortSignal)
    returns (said: seq<Said>, emitted: seq<SseEvent>, ended: Ended)
    requires w.members != [] && bound > 0
    modifies history, signal
    ensures Streams(w, Coordinator, bound, old(history.rows), history.rows, said, emitted, ended, signal.aborted)
  {
    hide Standing, Completes, Streams, EndsHere, CoordinatorTurn, SpecialistTurn, Trace, Reported, Hear;
    NothingHeard();
    ghost var start := history.rows;
    StandingAtFirst(w, Coordinator, bound, start);
    var t := CoordinatorTurn(w);
    var content, totals;
    said, content, emitted, totals, ended := StreamTurn(w, Coordinator, bound, start, 0, history, t, [], signal, [], ZERO);
    if ended != Finished { return; }
    var specialist := SpecialistTurn(w, bound, content);
    if specialist.Some? {
      said, content, emitted, totals, ended :=
        StreamTurn(w, Coordinator, bound, start, 1, history, specialist.value, said, signal, emitted, totals);
      if ended != Finished { return; }
    }
    emitted := EmitFinalUsageAndDone(w, Coordinator, bound, start, history.rows, said, emitted, totals);
  }

  method StreamBroadcast(w: World, bound: nat, history: ChatHistory, signal: AbortSignal)
    returns (said: seq<Said>, emitted: seq<SseEvent>, ended: Ended)
    requires w.members != [] && bound > 0
    modifies history, signal
    ensures Streams(w, Broadcast, bound, old(history.rows), history.rows, said, emitted, ended, signal.aborted)
  {
    hide Standing, Completes, Streams, EndsHere, Trace, Reported, Hear;
    NothingHeard();
    ghost var start := history.rows;
    var preBroadcastMaxSequence := MaxSequence(history.rows);
    var content, totals;
    said, emitted, totals := [], [], ZERO;
    StandingAtFirst(w, Broadcast, bound, start);
    var maxTurns := Limit(w, Broadcast, bound);
    var i := 0;
    while i < maxTurns
      invariant i <= maxTurns && Trace(emitted) == Between && totals == Reported(emitted) && Heard(emitted) == said
      invariant i < maxTurns ==>
        Standing(w, Broadcast, bound, start, history.rows, said, i, Turn(w.members[i], None, Some(preBroadcastMaxSequence)))
      invariant i == maxTurns ==> EndsHere(w, Broadcast, bound, start, history.rows, said)
    {
      var t := Turn(w.members[i], None, Some(preBroadcastMaxSequence));
      StreamsBetween(w, Broadcast, bound, start, history.rows, said, i, t, emitted);
      var aborted := signal.Poll();
      if aborted { return said, emitted, CutShort; }
      said, content, emitted, totals, ended := StreamTurn(w, Broadcast, bound, start, i, history, t, said, signal, emitted, totals);
      if ended != Finished { return; }
      i := i + 1;
    }
    emitted := EmitFinalUsageAndDone(w, Broadcast, bound, start, history.rows, said, emitted, totals);
    ended := Finished;
  }

  method StreamAutonomous(w: World, bound: nat, history: ChatHistory, signal: AbortSignal)
    returns (said: seq<Said>, emitted: seq<SseEvent>, ended: Ended)
    requires w.members != [] && bound > 0
    modifies history, signal
    ensures Streams(w, Autonomous, bound, old(history.rows), history.rows, said, emitted, ended, signal.aborted)
  {
    hide Standing, Completes, Streams, EndsHere, AutonomousTurn, Lead, Target, Others, Contains, Trace, Reported, Hear;
    NothingHeard();
    ghost var start := history.rows;
    var content, totals;
    said, emitted, totals := [], [], ZERO;
    StandingAtFirst(w, Autonomous, bound, start);
    var current := Lead(w);
    var turn := 0;
    while turn < bound
      invariant turn <= bound && Trace(emitted) == Between && totals == Reported(emitted) && Heard(emitted) == said
      invariant turn < bound ==>
        Standing(w, Autonomous, bound, start, history.rows, said, turn, AutonomousTurn(w, current))
      invariant turn == bound ==> EndsHere(w, Autonomous, bound, start, history.rows, said)
    {
      var t := AutonomousTurn(w, current);
      TurnIsFor(w, current);
      StreamsBetween(w, Autonomous, bound, start, history.rows, said, turn, t, emitted);
      var aborted := signal.Poll();
      if aborted { return said, emitted, CutShort; }
      said, content, emitted, totals, ended := StreamTurn(w, Autonomous, bound, start, turn, history, t, said, signal, emitted, totals);
      if ended != Finished { return; }
      if Contains(content, DONE) || Contains(content, FINISH) { break; }
      var query := w.nextOf(content);
      if query.None? { break; }
      var next := Target(w, Others(w.members, current.agentId), query.value);
      if next.None? { break; }
      current := next.value;
      turn := turn + 1;
    }
    emitted := EmitFinalUsageAndDone(w, Autonomous, bound, start, history.rows, said, emitted, totals);
    ended := Finished;
  }
}
