/** The context a team member is asked with, and what a broadcast lets through to it. */
module TeamContext {
  import opened Text
  import opened Transcript
  import opened Messages
  import opened Schedule
  import opened Teams
  import Compaction
  import Context

  /** An agent's own instructions and its model's context window. */
  datatype Profile = Profile(
    template: Option<string>, personality: Option<string>, instructions: Option<string>, window: Option<int>)

  /** What is stored about a team chat besides its messages: agents by identifier with their names and
      their roles in the team, and the summary of compacted messages. `base` holds the rest of the team's
      world. The wording of the role directive is a parameter. */
  datatype Stored = Stored(
    base: World,
    profileOf: string -> Profile,
    nameOf: string -> Option<string>,
    roleOf: string -> Option<string>,
    roleDirective: string -> string,
    summary: Option<string>,
    compactedBefore: Option<int>)

  // ---------------------------------------------------------------------------------------------
  // Building a member's context
  // ---------------------------------------------------------------------------------------------

  function WithMore(instructions: Option<string>, more: string): Option<string> {
    Some(if Truthy(instructions) then instructions.value + "\n\n" + more else more)
  }

  /** The agent's own instructions, the turn's, and the role in the team. */
  function Instructions(c: Stored, t: Turn): Option<string> {
    var own, role := c.profileOf(t.member.agentId).instructions, c.roleOf(t.member.agentId);
    var extended := if Truthy(t.extra) then WithMore(own, t.extra.value) else own;
    if role.Some? && Trim(role.value) != "" then WithMore(extended, c.roleDirective(Trim(role.value))) else extended
  }

  function ViewOf(c: Stored, t: Turn): Context.View {
    var profile := c.profileOf(t.member.agentId);
    Context.View(Context.Sources(profile.template, profile.personality, Instructions(c, t), None), profile.window, true,
                 Some(t.member.agentId), t.maxSequence, c.nameOf, c.roleOf)
  }

  function InputFor(c: Stored, t: Turn, rows: seq<Row>): Context.Input {
    Context.InputOf(ViewOf(c, t), rows, c.summary, c.compactedBefore)
  }

  /** The world in which members are asked with these contexts. */
  function WorldOf(c: Stored): World {
    c.base.(context := (t, rows) => Context.Build(InputFor(c, t, rows)))
  }

  /** The parts of a member's instructions: its own, what the turn adds, and the directive for its role in the
      team, as far as there are any. */
  function InstructionParts(c: Stored, t: Turn): seq<string> {
    var own, role := OrElse(c.profileOf(t.member.agentId).instructions, ""), OrElse(c.roleOf(t.member.agentId), "");
    (if own == "" then [] else [own])
    + (if t.extra.None? || t.extra.value == "" then [] else [t.extra.value])
    + (if Blank(role) then [] else [c.roleDirective(Trim(role))])
  }

  lemma InstructionsJoined(c: Stored, t: Turn)
    ensures OrElse(Instructions(c, t), "") == Join(InstructionParts(c, t), "\n\n")
  {
    hide Trim, Blank, Join;
    var own, role := OrElse(c.profileOf(t.member.agentId).instructions, ""), OrElse(c.roleOf(t.member.agentId), "");
    var extra, directive := OrElse(t.extra, ""), c.roleDirective(Trim(role));
    TrimCuts(role);
    BlankNothing();
    JoinFew(own, extra, directive);
    JoinFew(own, directive, "");
    JoinFew(extra, directive, "");
    JoinFew(directive, "", "");
    assert [own] + [extra] == [own, extra] && [own, extra] + [directive] == [own, extra, directive];
    assert [own] + [directive] == [own, directive] && [extra] + [directive] == [extra, directive];
    assert forall parts: seq<string> :: parts + [] == parts && [] + parts == parts;
  }

  lemma JoinFew(a: string, b: string, c: string)
    ensures Join([], "\n\n") == "" && Join([a], "\n\n") == a && Join([a, b], "\n\n") == a + "\n\n" + b
    ensures Join([a, b, c], "\n\n") == a + "\n\n" + b + "\n\n" + c
  {
    JoinSnoc([a], b, "\n\n");
    JoinSnoc([a, b], c, "\n\n");
    assert [a] + [b] == [a, b] && [a, b] + [c] == [a, b, c];
  }

  lemma BlankNothing()
    ensures Trim("") == "" && Blank("")
  {}

  /** A member's model is asked with the member's template and personality, then its instructions, the turn's and
      the directive for its role, then the chat's summary; and as the member in a team chat. */
  lemma AskedAs(c: Stored, t: Turn, rows: seq<Row>)
    requires WorldOf(c).context(t, rows).Fits?
    ensures var profile, summary := c.profileOf(t.member.agentId), OrElse(c.summary, "");
            var texts := [OrElse(profile.template, ""), OrElse(profile.personality, ""), Join(InstructionParts(c, t), "\n\n"), ""];
            var parts := NonBlank(texts) + if Blank(summary) then [] else ["Context summary:\n" + Trim(summary)];
            var prompt := WorldOf(c).context(t, rows).context.systemPrompt;
            && (prompt.None? <==> Blank(summary) && forall i :: 0 <= i < |texts| ==> Blank(texts[i]))
            && (prompt.Some? ==> prompt.value == Join(parts, "\n\n"))
  {
    hide Context.Build, Context.Attribution, Instructions, InstructionParts, Trim, Blank, Join, NonBlank;
    InstructionsJoined(c, t);
    Context.PromptMeans(InputFor(c, t, rows));
    assert Context.PromptTexts(InputFor(c, t, rows).sources, [])
           == [OrElse(c.profileOf(t.member.agentId).template, ""), OrElse(c.profileOf(t.member.agentId).personality, ""),
               Join(InstructionParts(c, t), "\n\n"), ""];
  }

  // ---------------------------------------------------------------------------------------------
  // Isolation
  // ---------------------------------------------------------------------------------------------

  lemma AttributionAppend(v: Context.View, rows: seq<Row>, later: seq<Row>)
    ensures Context.Attribution(v, rows + later) == Context.Attribution(v, rows) + Context.Attribution(v, later)
  {}

  lemma AttributionInSequence(v: Context.View, rows: seq<Row>)
    requires Ascending(rows)
    ensures Context.InSequence(Context.Attribution(v, rows))
  {}

  lemma SamePromptSameReply(w: World, agentId: string, a: Context.Outcome, b: Context.Outcome)
    requires Context.SamePrompt(a, b)
    ensures ReplyTo(w, agentId, a) == ReplyTo(w, agentId, b)
  {}

  lemma LaterAbove(v: Context.View, later: seq<Row>, boundary: int)
    requires forall i :: 0 <= i < |later| ==> later[i].sequence > boundary
    ensures forall m | m in Context.Attribution(v, later) :: m.row.sequence > boundary
  {}

  /** A turn with a boundary is asked exactly what it would be asked if the rows above the boundary were
      not there: the same system prompt, messages and estimate, so the same question. */
  lemma TurnIsolated(c: Stored, t: Turn, rows: seq<Row>, later: seq<Row>)
    requires t.maxSequence.Some? && Ascending(rows + later)
    requires forall i :: 0 <= i < |later| ==> later[i].sequence > t.maxSequence.value
    ensures Context.SamePrompt(WorldOf(c).context(t, rows), WorldOf(c).context(t, rows + later))
    ensures Ask(WorldOf(c), t, rows) == Ask(WorldOf(c), t, rows + later)
  {
    hide Context.Build, Context.SamePrompt, ReplyTo, Context.Attribution, Instructions;
    var input, v := InputFor(c, t, rows), ViewOf(c, t);
    AttributionAppend(v, rows, later);
    AttributionInSequence(v, rows + later);
    LaterAbove(v, later, t.maxSequence.value);
    Context.IsolatedAboveBoundary(input, Context.Attribution(v, later));
    assert InputFor(c, t, rows + later) == input.(messages := input.messages + Context.Attribution(v, later));
    SamePromptSameReply(WorldOf(c), t.member.agentId, WorldOf(c).context(t, rows), WorldOf(c).context(t, rows + later));
  }

  /** The broadcast turn of the member at a position. */
  function BroadcastTurn(w: World, boundary: int, i: nat): Turn
    requires i < |w.members|
  {
    Turn(w.members[i], None, Some(boundary))
  }

  /** Every member from position `i` on, each asked about the history as it was before the broadcast. */
  function Independent(w: World, rows: seq<Row>, bound: nat, i: nat): Script
    decreases |w.members| - i
  {
    if i >= Limit(w, Broadcast, bound) then Script([], None)
    else
      var answer := TextAnswer(w, BroadcastTurn(w, MaxSequence(rows), i), rows);
      if answer.None? then Script([], Some(w.members[i].agentId))
      else Before([Said(w.members[i].agentId, answer.value)], Independent(w, rows, bound, i + 1))
  }

  /** Each broadcast turn is answered as if nothing had been said in the broadcast. */
  ghost predicate Unheard(w: World, start: seq<Row>) {
    forall said: seq<Said>, i: nat :: i < |w.members| ==>
      TextAnswer(w, BroadcastTurn(w, MaxSequence(start), i), Extended(start, said))
      == TextAnswer(w, BroadcastTurn(w, MaxSequence(start), i), start)
  }

  lemma UnheardAt(w: World, start: seq<Row>, said: seq<Said>, i: nat)
    requires Unheard(w, start) && i < |w.members|
    ensures TextAnswer(w, BroadcastTurn(w, MaxSequence(start), i), Extended(start, said))
            == TextAnswer(w, BroadcastTurn(w, MaxSequence(start), i), start)
  {}

  lemma ExtensionUnheard(c: Stored, t: Turn, start: seq<Row>, said: seq<Said>)
    requires Ascending(start) && t.maxSequence == Some(MaxSequence(start))
    ensures TextAnswer(WorldOf(c), t, Extended(start, said)) == TextAnswer(WorldOf(c), t, start)
  {
    hide Ask, WorldOf, Extended, MaxSequence;
    var rows := Extended(start, said);
    ExtendedAbove(start, said);
    var later := rows[|start|..];
    assert rows == start + later;
    TurnIsolated(c, t, start, later);
  }

  lemma BroadcastUnheard(c: Stored, start: seq<Row>)
    requires Ascending(start)
    ensures Unheard(WorldOf(c), start)
  {
    hide TextAnswer, WorldOf, Extended, Ascending, MaxSequence;
    var w := WorldOf(c);
    forall said: seq<Said>, i: nat | i < |w.members|
      ensures TextAnswer(w, BroadcastTurn(w, MaxSequence(start), i), Extended(start, said))
              == TextAnswer(w, BroadcastTurn(w, MaxSequence(start), i), start)
    {
      ExtensionUnheard(c, BroadcastTurn(w, MaxSequence(start), i), start, said);
    }
  }

  lemma {:induction false} BroadcastFrom(w: World, bound: nat, start: seq<Row>, said: seq<Said>, i: nat)
    requires Unheard(w, start) && i < Limit(w, Broadcast, bound)
    ensures Play(RulesOf(w, Broadcast, bound, MaxSequence(start)), Extended(start, said), i, BroadcastTurn(w, MaxSequence(start), i))
            == Independent(w, start, bound, i)
    decreases |w.members| - i
  {
    hide TextAnswer, MaxSequence, Unheard, Extended, AppendReply;
    var t := BroadcastTurn(w, MaxSequence(start), i);
    var answer := TextAnswer(w, t, start);
    UnheardAt(w, start, said, i);
    if answer.Some? {
      var x := Said(t.member.agentId, answer.value);
      if i + 1 < Limit(w, Broadcast, bound) {
        ExtendedSnoc(start, said, x);
        BroadcastFrom(w, bound, start, said + [x], i + 1);
      } else {
        assert [x] + [] == [x];
      }
    }
  }

  /** A broadcast, although its turns are taken one after the other and each is stored before the next,
      says what its members say when each is asked about the history before the broadcast alone. */
  lemma BroadcastIsIndependent(c: Stored, bound: nat, rows: seq<Row>)
    requires c.base.members != [] && bound > 0 && Ascending(rows)
    ensures Scheduled(WorldOf(c), Broadcast, bound, rows)
            == Independent(WorldOf(c), rows, bound, 0)
  {
    BroadcastUnheard(c, rows);
    hide Context.Build, TextAnswer, Unheard;
    BroadcastFrom(WorldOf(c), bound, rows, [], 0);
  }

  // ---------------------------------------------------------------------------------------------
  // What the boundary does not keep out
  // ---------------------------------------------------------------------------------------------

  /** A row is among the messages the turn's model is sent. */
  predicate Shown(c: Stored, t: Turn, rows: seq<Row>, i: nat)
    requires i < |rows|
  {
    var outcome := WorldOf(c).context(t, rows);
    outcome.Fits? && Context.Attributed(ViewOf(c, t), rows[i]) in Context.MessagesOf(outcome.context.included)
  }

  lemma ShownIff(c: Stored, t: Turn, rows: seq<Row>, i: nat)
    requires i < |rows| && WorldOf(c).context(t, rows).Fits?
    ensures Shown(c, t, rows, i)
            <==> Context.Exclusion(InputFor(c, t, rows), Context.Attributed(ViewOf(c, t), rows[i])).None?
  {
    hide Context.Exclusion, Context.Framed, Instructions;
    assert Context.Attribution(ViewOf(c, t), rows)[i] == Context.Attributed(ViewOf(c, t), rows[i]);
    Context.SentIffAllowed(InputFor(c, t, rows), Context.Attributed(ViewOf(c, t), rows[i]));
  }

  /** A row that another request is still writing is not shown. Once that request completes it, while a
      broadcast runs, it is shown to later members exactly if it has text and lies between the compaction
      boundary and the maximum that was captured when the broadcast began. */
  lemma LateReplyShownIff(c: Stored, t: Turn, rows: seq<Row>, i: nat, content: string)
    requires i < |rows| && Live(rows[i])
    requires WorldOf(c).context(t, Updated(rows, i, content, Completed)).Fits?
    ensures !Shown(c, t, rows, i)
    ensures Shown(c, t, Updated(rows, i, content, Completed), i)
            <==> Trim(content) != ""
                 && (t.maxSequence.Some? ==> rows[i].sequence <= t.maxSequence.value)
                 && (c.compactedBefore.Some? ==> c.compactedBefore.value <= rows[i].sequence)
  {
    hide Context.Build, Context.MessagesOf, Trim, Instructions;
    if WorldOf(c).context(t, rows).Fits? { ShownIff(c, t, rows, i); }
    ShownIff(c, t, Updated(rows, i, content, Completed), i);
  }

  /** This happens: someone asks, an agent starts to answer, a broadcast begins, and the answer is finished
      while it runs. Members who are asked after that are shown it, those before were not. */
  lemma LateReplyReachable(c: Stored, t: Turn)
    requires c.profileOf(t.member.agentId).window.None? && c.compactedBefore.None?
    requires t.maxSequence
             == Some(MaxSequence(Compaction.Run([Compaction.Post(User, None, "q"), Compaction.StartTurn("a")]).chat.rows))
    ensures var before := Compaction.Run([Compaction.Post(User, None, "q"), Compaction.StartTurn("a")]);
            var after := Compaction.Apply(before, Compaction.Flush(1, "late", Completed));
            && |before.chat.rows| == |after.chat.rows| == 2
            && !Shown(c, t, before.chat.rows, 1) && Shown(c, t, after.chat.rows, 1)
  {
    hide Compaction.Run, Trim, Shown, Context.Build, Instructions;
    Compaction.AskedAndAnswering();
    var rows := [Row(1, User, None, "q", Completed), Row(2, Assistant, Some("a"), "", Pending)];
    TrimTrimmed("late");
    NoWindowFits(InputFor(c, t, Updated(rows, 1, "late", Completed)));
    LateReplyShownIff(c, t, rows, 1, "late");
  }

  lemma NoWindowFits(input: Context.Input)
    requires input.contextWindow.None?
    ensures Context.Build(input).Fits?
  {}
}
