/** What holds of whole team runs. */
module TeamRuns {
  import opened Text
  import Transcript
  import opened Messages
  import opened StreamEvents
  import opened MemberTurn
  import opened Schedule
  import opened Teams
  import Context

  // ---------------------------------------------------------------------------------------------
  // Who is asked, and what is said
  // ---------------------------------------------------------------------------------------------

  ghost predicate HasMember(members: seq<Member>, fits: Member -> bool) {
    exists m | m in members :: fits(m)
  }

  /** The member who leads: the first one flagged; without one, the first whose role names a coordinator or
      a router; without one, the first of all. */
  ghost predicate Leads(w: World, lead: Member)
    requires w.members != []
  {
    var flagged := (m: Member) => m.isCoordinator;
    var byRole := (m: Member) =>
      m.role.Some? && (Contains(w.lower(m.role.value), "coordinator") || Contains(w.lower(m.role.value), "router"));
    if HasMember(w.members, flagged) then Picks(w.members, flagged, lead)
    else if HasMember(w.members, byRole) then Picks(w.members, byRole, lead)
    else lead == w.members[0]
  }

  lemma LeadLeads(w: World)
    requires w.members != []
    ensures Leads(w, Lead(w))
  {
    hide Contains;
  }

  /** The member a marker of this speaker refers to. Among the others it is the first with that identifier;
      without one, the first with that name; without one, the first whose name is part of it, or the other
      way round. */
  ghost predicate Addressed(w: World, speaker: string, query: string, m: Option<Member>) {
    var byId := (x: Member) => x.agentId != speaker && w.lower(x.agentId) == query;
    var byName := (x: Member) => x.agentId != speaker && w.lower(x.name) == query;
    var byPart := (x: Member) =>
      x.agentId != speaker && (Contains(w.lower(x.name), query) || Contains(query, w.lower(x.name)));
    if HasMember(w.members, byId) then m.Some? && Picks(w.members, byId, m.value)
    else if HasMember(w.members, byName) then m.Some? && Picks(w.members, byName, m.value)
    else if HasMember(w.members, byPart) then m.Some? && Picks(w.members, byPart, m.value)
    else m.None?
  }

  /** The first of the others who fits is the first of all who is another one and fits. */
  lemma {:induction false} FirstOther(members: seq<Member>, speaker: string, fits: Member -> bool, both: Member -> bool)
    requires forall m :: both(m) <==> m.agentId != speaker && fits(m)
    ensures var first := FindFirst(Others(members, speaker), fits);
            && (first.Some? <==> HasMember(members, both)) && (first.Some? ==> Picks(members, both, first.value))
  {
    if members != [] {
      if both(members[0]) {
        assert Others(members, speaker)[0] == members[0];
        assert Picks(members, both, members[0]);
      } else {
        hide Picks, HasMember;
        FirstOther(members[1..], speaker, fits, both);
        FirstLater(members, speaker, fits, both);
      }
    }
  }

  lemma FirstLater(members: seq<Member>, speaker: string, fits: Member -> bool, both: Member -> bool)
    requires members != [] && !both(members[0])
    requires members[0].agentId != speaker ==> !fits(members[0])
    ensures FindFirst(Others(members, speaker), fits) == FindFirst(Others(members[1..], speaker), fits)
    ensures HasMember(members, both) <==> HasMember(members[1..], both)
    ensures forall m :: Picks(members[1..], both, m) ==> Picks(members, both, m)
  {
    var rest := members[1..];
    if members[0].agentId == speaker {
      assert Others(members, speaker) == Others(rest, speaker);
    } else {
      assert Others(members, speaker)[1..] == Others(rest, speaker);
    }
    forall m | Picks(rest, both, m) ensures Picks(members, both, m) {
      var i :| 0 <= i < |rest| && rest[i] == m && both(m) && forall j | 0 <= j < i :: !both(rest[j]);
      assert members[i + 1] == m;
      assert forall j | 0 <= j < i + 1 :: !both(members[j]);
    }
  }

  lemma TargetAddressed(w: World, speaker: string, query: string)
    ensures Addressed(w, speaker, query, Target(w, Others(w.members, speaker), query))
  {
    hide Contains, Others, Picks, HasMember;
    FirstOther(w.members, speaker, (m: Member) => w.lower(m.agentId) == query,
               (x: Member) => x.agentId != speaker && w.lower(x.agentId) == query);
    FirstOther(w.members, speaker, (m: Member) => w.lower(m.name) == query,
               (x: Member) => x.agentId != speaker && w.lower(x.name) == query);
    FirstOther(w.members, speaker, (m: Member) => Contains(w.lower(m.name), query) || Contains(query, w.lower(m.name)),
               (x: Member) => x.agentId != speaker && (Contains(w.lower(x.name), query) || Contains(query, w.lower(x.name))));
  }

  /** What the model of the member replies to the context of this turn. */
  function ReplyIn(w: World, t: Turn, context: Context.Assembled): Reply {
    w.provider(t.member.agentId, context.systemPrompt, Teams.Sent(context.included))
  }

  /** The member said this: the context fitted, the reply arrived, and this is its whole text. */
  predicate Gave(w: World, t: Turn, rows: seq<Row>, said: Said) {
    var outcome := w.context(t, rows);
    && said.agentId == t.member.agentId && outcome.Fits?
    && var reply := ReplyIn(w, t, outcome.context);
       Arrives(reply) && said.content == TextOf(reply.events)
  }

  /** The context did not fit, or the reply did not arrive. */
  predicate GaveNothing(w: World, t: Turn, rows: seq<Row>) {
    var outcome := w.context(t, rows);
    outcome.Fits? ==> !Arrives(ReplyIn(w, t, outcome.context))
  }

  /** A script as a conversation: turn by turn, each asked about the history and what was said before it. */
  ghost predicate Conversation(w: World, rows: seq<Row>, p: Script, turns: seq<Turn>) {
    && |turns| == |p.said| + (if p.failed.Some? then 1 else 0)
    && (forall i :: 0 <= i < |p.said| ==> Gave(w, turns[i], Extended(rows, p.said[..i]), p.said[i]))
    && (p.failed.Some? ==>
          var last := turns[|p.said|];
          p.failed.value == last.member.agentId && GaveNothing(w, last, Extended(rows, p.said)))
  }

  lemma TakenConversation(w: World, s: Strategy, bound: nat, boundary: int, rows: seq<Row>, p: Script, turns: seq<Turn>)
    requires w.members != [] && Taken(RulesOf(w, s, bound, boundary), rows, 0, p, turns)
    ensures Conversation(w, rows, p, turns)
  {
    hide First, Next, TextAnswer, Extended, Arrives, TextOf;
    forall i | 0 <= i < |p.said| ensures Gave(w, turns[i], Extended(rows, p.said[..i]), p.said[i]) {
      AnswerMeans(w, turns[i], Extended(rows, p.said[..i]));
    }
    if p.failed.Some? { AnswerMeans(w, turns[|p.said|], Extended(rows, p.said)); }
  }

  ghost predicate LinkedAt(w: World, s: Strategy, bound: nat, boundary: int, said: seq<Said>, turns: seq<Turn>, i: nat)
    requires w.members != [] && 0 < i < |turns| <= |said| + 1
  {
    Next(w, s, bound, boundary, i - 1, turns[i - 1], said[i - 1].content) == Some(turns[i])
  }

  /** The turns of a schedule under the rules of its strategy. */
  ghost predicate Linked(w: World, s: Strategy, bound: nat, boundary: int, p: Script, turns: seq<Turn>)
    requires w.members != []
  {
    && |turns| == |p.said| + (if p.failed.Some? then 1 else 0)
    && turns != [] && turns[0] == First(w, s, boundary)
    && (forall i :: 0 < i < |turns| ==> LinkedAt(w, s, bound, boundary, p.said, turns, i))
    && (p.failed.None? ==>
          var n := |p.said|;
          Next(w, s, bound, boundary, n - 1, turns[n - 1], p.said[n - 1].content).None?)
  }

  lemma ScheduledTurns(w: World, s: Strategy, bound: nat, rows: seq<Row>) returns (turns: seq<Turn>)
    requires w.members != [] && bound > 0
    ensures var p := Scheduled(w, s, bound, rows);
            Conversation(w, rows, p, turns) && Linked(w, s, bound, MaxSequence(rows), p, turns)
  {
    hide First, Next, TextAnswer, Play, Extended, Conversation;
    var boundary := MaxSequence(rows);
    var r := RulesOf(w, s, bound, boundary);
    turns := PlayTaken(r, rows, 0, First(w, s, boundary));
    var p := Scheduled(w, s, bound, rows);
    TakenConversation(w, s, bound, boundary, rows, p, turns);
    forall i: nat | 0 < i < |turns| ensures LinkedAt(w, s, bound, boundary, p.said, turns, i) {
      assert Follows(r, 0, p.said, turns, i);
    }
    if p.failed.None? {
      LimitFollows(w, s, bound, boundary, |p.said| - 1, turns[|p.said| - 1], p.said[|p.said| - 1].content);
    }
  }

  /** In a sequence the members are asked in order, each once, up to the limit. It ends early only behind a
      member who finishes it, or where one gives nothing. */
  lemma SequentialRuns(w: World, bound: nat, rows: seq<Row>) returns (turns: seq<Turn>)
    requires w.members != [] && bound > 0
    ensures var p, finish := Scheduled(w, Sequential, bound, rows), "<!-- GB_TEAM_FINISH -->";
            && Conversation(w, rows, p, turns)
            && 0 < |turns| <= |w.members| && |turns| <= bound
            && (forall i :: 0 <= i < |turns| ==>
                  turns[i] == Turn(w.members[i], None, None) && (i > 0 ==> !Contains(p.said[i - 1].content, finish)))
            && (p.failed.None? ==>
                  |turns| == |w.members| || |turns| == bound || Contains(p.said[|turns| - 1].content, finish))
  {
    hide Contains, Scheduled, Conversation, LinkedAt;
    var p, boundary := Scheduled(w, Sequential, bound, rows), MaxSequence(rows);
    turns := ScheduledTurns(w, Sequential, bound, rows);
    forall i | 0 < i < |turns|
      ensures i < |w.members| && i < bound && turns[i] == Turn(w.members[i], None, None) && !Contains(p.said[i - 1].content, FINISH)
    {
      SequentialStep(w, bound, boundary, p.said, turns, i);
    }
    if |turns| > 1 { SequentialStep(w, bound, boundary, p.said, turns, |turns| - 1); }
  }

  lemma SequentialStep(w: World, bound: nat, boundary: int, said: seq<Said>, turns: seq<Turn>, i: nat)
    requires w.members != [] && 0 < i < |turns| <= |said| + 1 && LinkedAt(w, Sequential, bound, boundary, said, turns, i)
    ensures i < |w.members| && i < bound && turns[i] == Turn(w.members[i], None, None) && !Contains(said[i - 1].content, FINISH)
  {
    hide Contains;
  }

  /** In a broadcast the members are asked in order, each once, up to the limit, with the boundary that was
      the highest sequence at its start. It ends early only where one gives nothing. */
  lemma BroadcastRuns(w: World, bound: nat, rows: seq<Row>) returns (turns: seq<Turn>)
    requires w.members != [] && bound > 0
    ensures var p := Scheduled(w, Broadcast, bound, rows);
            && Conversation(w, rows, p, turns)
            && 0 < |turns| <= |w.members| && |turns| <= bound
            && (forall i :: 0 <= i < |turns| ==> turns[i] == Turn(w.members[i], None, Some(MaxSequence(rows))))
            && (p.failed.None? ==> |turns| == |w.members| || |turns| == bound)
  {
    hide Scheduled, Gave, GaveNothing;
    var p := Scheduled(w, Broadcast, bound, rows);
    turns := ScheduledTurns(w, Broadcast, bound, rows);
    var boundary := MaxSequence(rows);
    forall i | 0 <= i < |turns|
      ensures i < |w.members| && i < bound && turns[i] == Turn(w.members[i], None, Some(boundary))
    {
      if i > 0 { assert LinkedAt(w, Broadcast, bound, boundary, p.said, turns, i); }
    }
  }

  ghost predicate HasOthers(w: World, m: Member) {
    exists x | x in w.members :: x.agentId != m.agentId
  }

  /** Under a coordinator the lead is asked, with the directive if there are others. If a second turn is allowed and
      the reply delegates to one of the others, that one is asked as well, without one. That is all. */
  lemma CoordinatorRuns(w: World, bound: nat, rows: seq<Row>) returns (turns: seq<Turn>)
    requires w.members != [] && bound > 0
    ensures var p := Scheduled(w, Coordinator, bound, rows);
            && Conversation(w, rows, p, turns) && 1 <= |turns| <= 2
            && var lead := turns[0].member;
               && Leads(w, lead)
               && turns[0] == Turn(lead, if HasOthers(w, lead) then Some(w.coordinatorDirective) else None, None)
               && (p.said != [] ==>
                     var query := w.delegateOf(p.said[0].content);
                     if |turns| == 2 then
                       && bound >= 2 && query.Some? && Addressed(w, lead.agentId, query.value, Some(turns[1].member))
                       && turns[1] == Turn(turns[1].member, None, None)
                     else bound < 2 || query.None? || Addressed(w, lead.agentId, query.value, None))
  {
    hide Contains, Scheduled, Gave, GaveNothing, Lead, Others, Target, Leads, Addressed;
    var p := Scheduled(w, Coordinator, bound, rows);
    turns := ScheduledTurns(w, Coordinator, bound, rows);
    LeadLeads(w);
    OthersExist(w, Lead(w));
    if |turns| > 1 { assert LinkedAt(w, Coordinator, bound, MaxSequence(rows), p.said, turns, 1); }
    assert |turns| > 2 ==> LinkedAt(w, Coordinator, bound, MaxSequence(rows), p.said, turns, 2);
    if p.said != [] {
      var query := w.delegateOf(p.said[0].content);
      if query.Some? {
        TargetAddressed(w, Lead(w).agentId, query.value);
        NobodyAddressed(w, Lead(w).agentId, query.value);
      }
    }
  }

  lemma OthersExist(w: World, m: Member)
    ensures Others(w.members, m.agentId) != [] <==> HasOthers(w, m)
  {
    var others := Others(w.members, m.agentId);
    if others != [] { assert others[0] in others; }
  }

  lemma NobodyAddressed(w: World, speaker: string, query: string)
    ensures Others(w.members, speaker) == [] ==> Addressed(w, speaker, query, None)
  {
    hide Contains;
    assert forall m | m in w.members :: m in Others(w.members, speaker) || m.agentId == speaker;
  }

  /** An autonomous run starts with the lead. Each next speaker is the one the previous speaker hands over to,
      and is asked with the directive if there are others. It ends at the limit, behind a speaker who finishes it or
      hands over to nobody, or where one gives nothing. */
  lemma AutonomousRuns(w: World, bound: nat, rows: seq<Row>) returns (turns: seq<Turn>)
    requires w.members != [] && bound > 0
    ensures var p := Scheduled(w, Autonomous, bound, rows);
            && Conversation(w, rows, p, turns) && 0 < |turns| <= bound
            && Leads(w, turns[0].member)
            && (forall i :: 0 <= i < |turns| ==> AutonomouslyAsked(w, p.said, turns, i))
            && (p.failed.None? ==>
                  |turns| == bound || HandsOver(w, turns[|turns| - 1].member, p.said[|turns| - 1].content, None))
  {
    hide Scheduled, Conversation, Leads, HandsOver, LinkedAt, AutonomouslyAsked, First, Next;
    var p, boundary := Scheduled(w, Autonomous, bound, rows), MaxSequence(rows);
    turns := ScheduledTurns(w, Autonomous, bound, rows);
    AutonomousStart(w, p.said, turns, boundary);
    forall i | 0 < i < |turns| ensures i < bound && AutonomouslyAsked(w, p.said, turns, i) {
      AutonomousStep(w, bound, boundary, p.said, turns, i);
    }
    if |turns| > 1 { AutonomousStep(w, bound, boundary, p.said, turns, |turns| - 1); }
    if p.failed.None? { AutonomousEnd(w, bound, boundary, p.said, turns); }
  }

  lemma AutonomousEnd(w: World, bound: nat, boundary: int, said: seq<Said>, turns: seq<Turn>)
    requires w.members != [] && 0 < |turns| == |said| && |turns| <= bound
    requires Next(w, Autonomous, bound, boundary, |said| - 1, turns[|said| - 1], said[|said| - 1].content).None?
    ensures |turns| == bound || HandsOver(w, turns[|turns| - 1].member, said[|said| - 1].content, None)
  {
    hide HandoffTurn, HandsOver;
    HandoffMeans(w, turns[|turns| - 1].member, said[|said| - 1].content);
  }

  /** A speaker of an autonomous run has the directive if there are others, and has been handed the turn. */
  ghost predicate AutonomouslyAsked(w: World, said: seq<Said>, turns: seq<Turn>, i: nat)
    requires i < |turns| <= |said| + 1
  {
    var m := turns[i].member;
    && turns[i] == Turn(m, if HasOthers(w, m) then Some(w.handoffDirective(m)) else None, None)
    && (i > 0 ==> HandsOver(w, turns[i - 1].member, said[i - 1].content, Some(m)))
  }

  lemma AutonomousStart(w: World, said: seq<Said>, turns: seq<Turn>, boundary: int)
    requires w.members != [] && 0 < |turns| <= |said| + 1 && turns[0] == First(w, Autonomous, boundary)
    ensures Leads(w, turns[0].member) && AutonomouslyAsked(w, said, turns, 0)
  {
    hide Lead, Leads, Others, HandsOver, HasOthers;
    LeadLeads(w);
    OthersExist(w, Lead(w));
  }

  lemma AutonomousStep(w: World, bound: nat, boundary: int, said: seq<Said>, turns: seq<Turn>, i: nat)
    requires w.members != [] && 0 < i < |turns| <= |said| + 1 && LinkedAt(w, Autonomous, bound, boundary, said, turns, i)
    ensures i < bound && AutonomouslyAsked(w, said, turns, i)
  {
    hide HandoffTurn, HandsOver, HasOthers, Others;
    HandoffMeans(w, turns[i - 1].member, said[i - 1].content);
    OthersExist(w, turns[i].member);
  }

  /** What a speaker says ends an autonomous run, or hands it over. */
  ghost predicate HandsOver(w: World, speaker: Member, content: string, m: Option<Member>) {
    var query := w.nextOf(content);
    if Contains(content, "[DONE]") || Contains(content, "<!-- GB_TEAM_FINISH -->") || query.None? then m.None?
    else Addressed(w, speaker.agentId, query.value, m)
  }

  lemma HandoffMeans(w: World, current: Member, content: string)
    ensures var t := HandoffTurn(w, current, content);
            && (t.Some? ==> t.value == AutonomousTurn(w, t.value.member))
            && HandsOver(w, current, content, if t.Some? then Some(t.value.member) else None)
  {
    hide Contains, Others, Target, Addressed;
    var query := w.nextOf(content);
    if query.Some? { TargetAddressed(w, current.agentId, query.value); }
  }

  /** Whoever speaks first in a coordinated or an autonomous run, streamed or not and aborted or not, leads. */
  lemma LeadSpeaksFirst(w: World, s: Strategy, bound: nat, rows: seq<Row>, said: seq<Said>) returns (lead: Member)
    requires w.members != [] && bound > 0 && (s == Coordinator || s == Autonomous)
    requires said != [] && said <= Scheduled(w, s, bound, rows).said
    ensures Leads(w, lead) && said[0].agentId == lead.agentId
  {
    hide Leads, Lead, Scheduled, Extended, Ask;
    LeadLeads(w);
    lead := Lead(w);
    var turns := ScheduledTurns(w, s, bound, rows);
    var p := Scheduled(w, s, bound, rows);
    assert Gave(w, turns[0], Extended(rows, p.said[..0]), p.said[0]);
  }

  // ---------------------------------------------------------------------------------------------
  // How long a run is, and who speaks
  // ---------------------------------------------------------------------------------------------

  lemma LoneCoordinator(w: World, rows: seq<Row>)
    requires w.members != []
    ensures |Scheduled(w, Coordinator, 1, rows).said| <= 1
  {}

  /** Whatever is configured, a run takes at most ten turns and at most as many as configured (but one
      is always allowed); a coordinator has one specialist at most, and in a sequence or a broadcast
      everybody speaks at most once. */
  lemma TurnBound(w: World, s: Strategy, configured: int, rows: seq<Row>)
    requires w.members != []
    ensures var turns := |Scheduled(w, s, BoundedMaxTurns(configured), rows).said|;
            && turns <= 10 && (turns <= configured || turns <= 1)
            && (s == Coordinator ==> turns <= 2)
            && (s == Sequential || s == Broadcast ==> turns <= |w.members|)
  {
    var bound := BoundedMaxTurns(configured);
    var boundary := MaxSequence(rows);
    TurnsBounded(RulesOf(w, s, bound, boundary), rows, 0, First(w, s, boundary));
    if bound == 1 { LoneCoordinator(w, rows); }
  }

  /** An autonomous handoff never goes to the member who makes it. */
  lemma NobodyFollowsThemselves(w: World, bound: nat, rows: seq<Row>)
    requires w.members != []
    ensures var said := Scheduled(w, Autonomous, bound, rows).said;
            forall i :: 0 <= i < |said| - 1 ==> said[i].agentId != said[i + 1].agentId
  {
    var r := RulesOf(w, Autonomous, bound, MaxSequence(rows));
    forall k: nat, t: Turn, c: string
      ensures r.next(k, t, c).Some? ==> r.speaker(r.next(k, t, c).value) != r.speaker(t)
    {
      HandoffLeaves(w, t.member, c);
    }
    NoEcho(r, rows, 0, First(w, Autonomous, MaxSequence(rows)));
  }

  lemma HandoffLeaves(w: World, current: Member, content: string)
    ensures var t := HandoffTurn(w, current, content);
            t.Some? ==> t.value.member in w.members && t.value.member.agentId != current.agentId
  {}

  // ---------------------------------------------------------------------------------------------
  // However replies are cut
  // ---------------------------------------------------------------------------------------------

  /** Replies that fail or not alike, and have the same text if they do not. */
  predicate SameWords(a: Reply, b: Reply) {
    && (Failure(a).None? <==> Failure(b).None?)
    && (Failure(a).None? ==> TextOf(a.events) == TextOf(b.events))
  }

  /** A provider that says the same, cut into other pieces, with other thoughts and usages between. */
  ghost predicate Recut(w: World, other: World) {
    && other == w.(provider := other.provider)
    && forall id, prompt, messages :: SameWords(w.provider(id, prompt, messages), other.provider(id, prompt, messages))
  }

  lemma RecutAnswers(w: World, other: World, t: Turn, rows: seq<Row>)
    requires Recut(w, other)
    ensures TextAnswer(w, t, rows) == TextAnswer(other, t, rows)
  {}

  /** Nobody else reads the provider. */
  lemma RecutNext(w: World, other: World, s: Strategy, bound: nat, boundary: int, k: nat, t: Turn, content: string)
    requires w.members != [] && other == w.(provider := other.provider)
    ensures Next(w, s, bound, boundary, k, t, content) == Next(other, s, bound, boundary, k, t, content)
    ensures First(w, s, boundary) == First(other, s, boundary)
  {
    hide Lead, Target, Others, Contains;
    LeadReads(w, other);
    match s
    case Coordinator =>
      var query := w.delegateOf(content);
      if query.Some? { TargetReads(w, other, Others(w.members, Lead(w).agentId), query.value); }
    case Autonomous =>
      var query := w.nextOf(content);
      if query.Some? { TargetReads(w, other, Others(w.members, t.member.agentId), query.value); }
    case _ =>
  }

  lemma LeadReads(w: World, other: World)
    requires w.members != [] && other == w.(provider := other.provider)
    ensures Lead(w) == Lead(other)
  {}

  lemma TargetReads(w: World, other: World, candidates: seq<Member>, query: string)
    requires other == w.(provider := other.provider)
    ensures Target(w, candidates, query) == Target(other, candidates, query)
  {}

  /** The schedule depends on the words of the replies only, not on how they are cut. */
  lemma CutIndependent(w: World, other: World, s: Strategy, bound: nat, rows: seq<Row>)
    requires w.members != [] && Recut(w, other)
    ensures Scheduled(w, s, bound, rows) == Scheduled(other, s, bound, rows)
  {
    var boundary := MaxSequence(rows);
    var a, b := RulesOf(w, s, bound, boundary), RulesOf(other, s, bound, boundary);
    forall k: nat, t, c ensures a.next(k, t, c) == b.next(k, t, c) { RecutNext(w, other, s, bound, boundary, k, t, c); }
    forall t, rows ensures a.answer(t, rows) == b.answer(t, rows) { RecutAnswers(w, other, t, rows); }
    RecutNext(w, other, s, bound, boundary, 0, First(w, s, boundary), "");
    SameAnswersSamePlay(a, b, rows, 0, First(w, s, boundary));
  }

  /** Streamed or not, a run that nobody aborts and in which nobody fails persists the same agents,
      contents and sequence numbers, however the streamed replies are cut. */
  lemma BothWaysPersistTheSame(w: World, other: World, s: Strategy, bound: nat, start: seq<Row>,
                               streamed: seq<Row>, saidS: seq<Said>, emitted: seq<SseEvent>, ended: Ended,
                               completed: seq<Row>, saidC: seq<Said>, failed: Option<string>)
    requires w.members != [] && Recut(w, other) && Scheduled(w, s, bound, start).failed.None?
    requires Streams(w, s, bound, start, streamed, saidS, emitted, ended, false)
    requires Completes(other, s, bound, start, completed, saidC, failed, false)
    ensures ended == Finished && failed.None?
    ensures streamed == completed == Extended(start, Scheduled(w, s, bound, start).said)
  {
    CutIndependent(w, other, s, bound, start);
  }
}
