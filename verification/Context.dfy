/** Construction of the context sent to a model: which messages go in, how they are framed, and how
    they are made to fit the model's window. */
module Context {
  import opened Text
  import opened Transcript
  import opened Messages

  datatype Sources = Sources(
    template: Option<string>, personality: Option<string>, instructions: Option<string>, summary: Option<string>)

  datatype Message = Message(row: Row, agentName: Option<string>, agentRole: Option<string>)

  datatype Fitting = Refuse | TruncateOldest

  datatype Input = Input(
    sources: Sources, memories: seq<string>, messages: seq<Message>, contextWindow: Option<int>, fitting: Fitting,
    compactedBefore: Option<int>, isTeamChat: bool, currentAgentId: Option<string>, maxSequence: Option<int>)

  /** What a turn's context depends on besides the chat's rows, its summary and its boundary: the names and
      the team roles of agents are looked up by identifier. */
  datatype View = View(
    sources: Sources, contextWindow: Option<int>, isTeamChat: bool, currentAgentId: Option<string>, maxSequence: Option<int>,
    nameOf: string -> Option<string>, roleOf: string -> Option<string>)

  datatype Reason = StatusNotComplete | EmptyContent | CompactedHistory | MaxSequenceBoundary | TruncatedForWindow

  datatype Excluded = Excluded(message: Message, reason: Reason)

  datatype Candidate = Candidate(message: Message, adapterMessage: AdapterMessage, tokens: nat)

  datatype Assembled = Assembled(
    systemPrompt: Option<string>, included: seq<Candidate>, excluded: seq<Excluded>, systemTokens: nat, messagesTokens: nat)

  datatype Outcome = Fits(context: Assembled) | TooLong(tokens: nat)

  // ---------------------------------------------------------------------------------------------
  // Estimates and the system prompt
  // ---------------------------------------------------------------------------------------------

  function EstimateTokens(text: string): nat {
    (|text| + 3) / 4
  }

  function EstimateMessageTokens(m: AdapterMessage): nat {
    4 + EstimateTokens(m.content) + (if Truthy(m.name) then EstimateTokens(m.name.value) else 0)
  }

  function Section(heading: string, text: Option<string>): seq<string> {
    if text.Some? && Trim(text.value) != "" then [heading + Trim(text.value)] else []
  }

  function MemorySection(memories: seq<string>): Option<string> {
    if memories == [] then None else Some("<memories>\n" + Join(memories, "\n") + "\n</memories>")
  }

  /** The non-blank sections, trimmed, in their fixed order, separated by blank lines. */
  function AssembleSystemPrompt(s: Sources, memories: seq<string>): Option<string> {
    var sections :=
      Section("", s.template) + Section("", s.personality) + Section("", s.instructions)
      + Section("", MemorySection(memories)) + Section("Context summary:\n", s.summary);
    if sections == [] then None else Some(Join(sections, "\n\n"))
  }

  function SystemTokens(prompt: Option<string>): nat {
    if Truthy(prompt) then 4 + EstimateTokens(prompt.value) else 0
  }

  // ---------------------------------------------------------------------------------------------
  // Inclusion and framing
  // ---------------------------------------------------------------------------------------------

  /** Why a message stays out, if it does; the first rule that applies. */
  function Exclusion(input: Input, m: Message): Option<Reason> {
    if m.row.status != Completed then Some(StatusNotComplete)
    else if Trim(m.row.content) == "" then Some(EmptyContent)
    else if input.compactedBefore.Some? && m.row.sequence < input.compactedBefore.value then Some(CompactedHistory)
    else if input.maxSequence.Some? && m.row.sequence > input.maxSequence.value then Some(MaxSequenceBoundary)
    else None
  }

  /** In a team chat, other agents' messages carry a banner; everything else is verbatim. */
  function Framed(input: Input, m: Message): string {
    if !input.isTeamChat || m.row.role != Assistant then m.row.content
    else if Truthy(input.currentAgentId) && m.row.agentId == input.currentAgentId then m.row.content
    else if Truthy(m.row.agentId) then
      "[Team Member: " + OrText(m.agentName, "Team Member")
      + (if Truthy(m.agentRole) then " (" + m.agentRole.value + ")" else "") + "]:\n" + m.row.content
    else "[Team Member: Former Agent]:\n" + m.row.content
  }

  /** What is said of the author of another agent's message. */
  function Author(m: Message): string {
    if m.row.agentId.None? || m.row.agentId.value == "" then "Former Agent"
    else (if Truthy(m.agentName) then m.agentName.value else "Team Member")
         + (if Truthy(m.agentRole) then " (" + m.agentRole.value + ")" else "")
  }

  /** A message's content comes last in what is sent of it, and alone unless another agent of a team wrote it. */
  lemma FramedMeans(input: Input, m: Message)
    ensures EndsWith(Framed(input, m), m.row.content)
    ensures var own := input.currentAgentId.Some? && input.currentAgentId.value != "" && m.row.agentId == input.currentAgentId;
            Framed(input, m) == if input.isTeamChat && m.row.role == Assistant && !own
                                then "[Team Member: " + Author(m) + "]:\n" + m.row.content else m.row.content
  {
    if Truthy(m.row.agentId) {
      var name := OrText(m.agentName, "Team Member");
      if Truthy(m.agentRole) {
        AppendAssociates("[Team Member: ", name, " (" + m.agentRole.value + ")");
      } else {
        AppendAssociates("[Team Member: ", name, "");
      }
    }
  }

  lemma AppendAssociates(a: string, b: string, c: string)
    ensures a + b + c == a + (b + c)
  {}

  function CandidateOf(input: Input, m: Message): Candidate {
    var adapterMessage := AdapterMessage(m.row.role, Framed(input, m), None);
    Candidate(m, adapterMessage, EstimateMessageTokens(adapterMessage))
  }

  /** Puts a message behind those with the same or a smaller sequence. */
  function InsertBySequence(sorted: seq<Message>, m: Message): seq<Message> {
    if sorted == [] || sorted[|sorted| - 1].row.sequence <= m.row.sequence then sorted + [m]
    else InsertBySequence(sorted[..|sorted| - 1], m) + [sorted[|sorted| - 1]]
  }

  /** The stable sort by sequence. */
  function SortBySequence(ms: seq<Message>): seq<Message> {
    if ms == [] then [] else InsertBySequence(SortBySequence(ms[..|ms| - 1]), ms[|ms| - 1])
  }

  function Attributed(v: View, r: Row): Message {
    if r.agentId.Some? then Message(r, v.nameOf(r.agentId.value), v.roleOf(r.agentId.value)) else Message(r, None, None)
  }

  function Attribution(v: View, rows: seq<Row>): (ms: seq<Message>)
    ensures |ms| == |rows| && forall i :: 0 <= i < |rows| ==> ms[i] == Attributed(v, rows[i])
  {
    if rows == [] then [] else Attribution(v, rows[..|rows| - 1]) + [Attributed(v, rows[|rows| - 1])]
  }

  /** The input built for a chat: nothing is truncated, and there are no memories. */
  function InputOf(v: View, rows: seq<Row>, summary: Option<string>, boundary: Option<int>): Input {
    Input(v.sources.(summary := summary), [], Attribution(v, rows), v.contextWindow, Refuse, boundary,
          v.isTeamChat, v.currentAgentId, v.maxSequence)
  }

  function Candidates(input: Input, ms: seq<Message>): seq<Candidate> {
    if ms == [] then []
    else
      var before, m := Candidates(input, ms[..|ms| - 1]), ms[|ms| - 1];
      if Exclusion(input, m).None? then before + [CandidateOf(input, m)] else before
  }

  function Rejected(input: Input, ms: seq<Message>): seq<Excluded> {
    if ms == [] then []
    else
      var before, m := Rejected(input, ms[..|ms| - 1]), ms[|ms| - 1];
      var reason := Exclusion(input, m);
      if reason.Some? then before + [Excluded(m, reason.value)] else before
  }

  // ---------------------------------------------------------------------------------------------
  // Fitting
  // ---------------------------------------------------------------------------------------------

  function Tokens(cs: seq<Candidate>): nat {
    if cs == [] then 0 else Tokens(cs[..|cs| - 1]) + cs[|cs| - 1].tokens
  }

  /** How many of the oldest candidates are dropped until the rest fits or only one is left. */
  function Dropped(system: nat, cs: seq<Candidate>, window: int): (k: nat)
    ensures k <= |cs|
  {
    if |cs| > 1 && system + Tokens(cs) > window then 1 + Dropped(system, cs[1..], window) else 0
  }

  function Truncated(cs: seq<Candidate>): (es: seq<Excluded>)
    ensures |es| == |cs| && forall i :: 0 <= i < |cs| ==> es[i] == Excluded(cs[i].message, TruncatedForWindow)
  {
    seq(|cs|, i requires 0 <= i < |cs| => Excluded(cs[i].message, TruncatedForWindow))
  }

  /** A window of zero or less is no window. */
  function Window(input: Input): Option<int> {
    if input.contextWindow.Some? && input.contextWindow.value > 0 then input.contextWindow else None
  }

  function Build(input: Input): Outcome {
    var prompt := AssembleSystemPrompt(input.sources, input.memories);
    var system := SystemTokens(prompt);
    var sorted := SortBySequence(input.messages);
    var cs := Candidates(input, sorted);
    var k := if Window(input).Some? && input.fitting == TruncateOldest
             then Dropped(system, cs, Window(input).value) else 0;
    var total := system + Tokens(cs[k..]);
    if Window(input).Some? && total > Window(input).value then TooLong(total)
    else Fits(Assembled(prompt, cs[k..], Rejected(input, sorted) + Truncated(cs[..k]), system, Tokens(cs[k..])))
  }

  /** Messages are pushed one by one onto the candidate or the excluded list. */
  method Select(input: Input, raw: seq<Message>) returns (active: seq<Candidate>, excluded: seq<Excluded>)
    ensures active == Candidates(input, raw) && excluded == Rejected(input, raw)
  {
    active, excluded := [], [];
    for i := 0 to |raw|
      invariant active == Candidates(input, raw[..i]) && excluded == Rejected(input, raw[..i])
    {
      assert raw[..i + 1][..i] == raw[..i];
      var m := raw[i];
      var reason := Exclusion(input, m);
      if reason.Some? {
        excluded := excluded + [Excluded(m, reason.value)];
      } else {
        active := active + [CandidateOf(input, m)];
      }
    }
    assert raw[..|raw|] == raw;
  }

  /** Candidates are shifted off the front while they do not fit and more than one is left. */
  method DropOldest(system: nat, window: int, cs: seq<Candidate>) returns (active: seq<Candidate>, dropped: seq<Excluded>)
    ensures active == cs[Dropped(system, cs, window)..]
    ensures dropped == Truncated(cs[..Dropped(system, cs, window)])
  {
    active, dropped := cs, [];
    var total := system + Tokens(active);
    while |active| > 1 && total > window
      invariant |dropped| <= |cs| && active == cs[|dropped|..] && total == system + Tokens(active)
      invariant dropped == Truncated(cs[..|dropped|])
      invariant |dropped| + Dropped(system, active, window) == Dropped(system, cs, window)
      decreases |active|
    {
      ghost var n := |dropped|;
      dropped := dropped + [Excluded(active[0].message, TruncatedForWindow)];
      assert dropped == Truncated(cs[..n + 1]);
      active := active[1..];
      total := system + Tokens(active);
    }
  }

  method BuildContextPure(input: Input) returns (outcome: Outcome)
    ensures outcome == Build(input)
  {
    var prompt := AssembleSystemPrompt(input.sources, input.memories);
    var system := SystemTokens(prompt);
    var active, excluded := Select(input, SortBySequence(input.messages));
    var window := Window(input);
    assert active[0..] == active && excluded + Truncated(active[..0]) == excluded;
    if window.Some? && input.fitting == TruncateOldest && system + Tokens(active) > window.value {
      var dropped;
      active, dropped := DropOldest(system, window.value, active);
      excluded := excluded + dropped;
    }
    var total := system + Tokens(active);
    if window.Some? && total > window.value {
      return TooLong(total);
    }
    return Fits(Assembled(prompt, active, excluded, system, Tokens(active)));
  }

  // ---------------------------------------------------------------------------------------------
  // What the builder promises
  // ---------------------------------------------------------------------------------------------

  function Eligible(input: Input): seq<Candidate> {
    Candidates(input, SortBySequence(input.messages))
  }

  /** The texts behind a system prompt, apart from the summary. An absent one counts as blank. */
  function PromptTexts(s: Sources, memories: seq<string>): seq<string> {
    [OrElse(s.template, ""), OrElse(s.personality, ""), OrElse(s.instructions, ""),
     if memories == [] then "" else "<memories>\n" + Join(memories, "\n") + "\n</memories>"]
  }

  function SummaryPart(summary: string): seq<string> {
    if Blank(summary) then [] else ["Context summary:\n" + Trim(summary)]
  }

  lemma SectionMeans(text: Option<string>)
    ensures Section("", text) == NonBlank([OrElse(text, "")])
    ensures Section("Context summary:\n", text) == SummaryPart(OrElse(text, ""))
  {
    var t := OrElse(text, "");
    TrimCuts(t);
    assert [t][1..] == [];
    assert "" + Trim(t) == Trim(t);
  }

  lemma NonBlankOne(t: string)
    ensures NonBlank([t]) == if Blank(t) then [] else [Trim(t)]
  {
    assert [t][1..] == [];
  }

  lemma NonBlankFour(a: string, b: string, c: string, d: string)
    ensures NonBlank([a, b, c, d]) == NonBlank([a]) + NonBlank([b]) + NonBlank([c]) + NonBlank([d])
    ensures NonBlank([a, b, c, d]) == [] <==> Blank(a) && Blank(b) && Blank(c) && Blank(d)
  {
    hide NonBlank, Blank, Trim;
    NonBlankOne(a);
    NonBlankOne(b);
    NonBlankOne(c);
    NonBlankOne(d);
    NonBlankAppend([a], [b]);
    NonBlankAppend([a, b], [c]);
    NonBlankAppend([a, b, c], [d]);
    assert [a] + [b] == [a, b] && [a, b] + [c] == [a, b, c] && [a, b, c] + [d] == [a, b, c, d];
  }

  lemma AssembledMeans(s: Sources, memories: seq<string>)
    ensures var parts := NonBlank(PromptTexts(s, memories)) + SummaryPart(OrElse(s.summary, ""));
            AssembleSystemPrompt(s, memories) == if parts == [] then None else Some(Join(parts, "\n\n"))
  {
    hide Section, NonBlank, Join, SummaryPart;
    SectionMeans(s.template);
    SectionMeans(s.personality);
    SectionMeans(s.instructions);
    SectionMeans(MemorySection(memories));
    SectionMeans(s.summary);
    var texts := PromptTexts(s, memories);
    NonBlankFour(texts[0], texts[1], texts[2], texts[3]);
  }

  /** The system prompt of a built context: template, personality, instructions and memories as far as they
      are not blank, trimmed, in that order, then the summary behind its heading, all joined by blank lines.
      There is none exactly if all five are blank. */
  lemma PromptMeans(input: Input)
    requires Build(input).Fits?
    ensures var texts, summary := PromptTexts(input.sources, input.memories), OrElse(input.sources.summary, "");
            var parts := NonBlank(texts) + if Blank(summary) then [] else ["Context summary:\n" + Trim(summary)];
            var prompt := Build(input).context.systemPrompt;
            && (prompt.None? <==> Blank(summary) && forall i :: 0 <= i < |texts| ==> Blank(texts[i]))
            && (prompt.Some? ==> prompt.value == Join(parts, "\n\n"))
  {
    AssembledMeans(input.sources, input.memories);
    hide AssembleSystemPrompt, NonBlank, Join, Trim, Blank, Candidates, Rejected, SortBySequence, Dropped;
    var texts := PromptTexts(input.sources, input.memories);
    NonBlankFour(texts[0], texts[1], texts[2], texts[3]);
    assert texts == [texts[0], texts[1], texts[2], texts[3]];
  }

  /** A summary that is not blank ends the system prompt, behind its heading. */
  lemma SummaryEndsPrompt(input: Input)
    requires Build(input).Fits? && input.sources.summary.Some? && !Blank(input.sources.summary.value)
    ensures var prompt := Build(input).context.systemPrompt;
            prompt.Some? && EndsWith(prompt.value, "Context summary:\n" + Trim(input.sources.summary.value))
  {
    hide Build, Trim, Join, Blank, EndsWith;
    PromptMeans(input);
    JoinEnds(NonBlank(PromptTexts(input.sources, input.memories)),
             "Context summary:\n" + Trim(input.sources.summary.value), "\n\n");
  }

  function SystemCost(input: Input): nat {
    SystemTokens(AssembleSystemPrompt(input.sources, input.memories))
  }

  /** The system prompt and these candidates are within the window. */
  predicate FitsWindow(input: Input, cs: seq<Candidate>) {
    Window(input).Some? ==> SystemCost(input) + Tokens(cs) <= Window(input).value
  }

  lemma NoTokens()
    ensures Tokens([]) == 0
  {}

  lemma {:induction false} TokensSplit(cs: seq<Candidate>, k: nat)
    requires k <= |cs|
    ensures Tokens(cs) == Tokens(cs[..k]) + Tokens(cs[k..])
    decreases |cs|
  {
    if k == |cs| {
      assert cs[..k] == cs;
    } else {
      var n := |cs| - 1;
      TokensSplit(cs[..n], k);
      assert cs[..n][..k] == cs[..k] && cs[..n][k..] == cs[k..][..n - k];
    }
  }

  lemma {:induction false} DroppedIsLeast(system: nat, cs: seq<Candidate>, window: int)
    ensures var k := Dropped(system, cs, window);
            && (forall j :: 0 <= j < k ==> system + Tokens(cs[j..]) > window)
            && (system + Tokens(cs[k..]) <= window || |cs[k..]| <= 1)
            && (cs != [] ==> k < |cs|)
  {
    assert cs[0..] == cs;
    if |cs| > 1 && system + Tokens(cs) > window {
      DroppedIsLeast(system, cs[1..], window);
      var k := Dropped(system, cs[1..], window);
      forall j | 0 <= j < k + 1 ensures system + Tokens(cs[j..]) > window {
        if j > 0 { assert cs[1..][j - 1..] == cs[j..]; }
      }
      assert cs[1..][k..] == cs[k + 1..];
    }
  }

  /** The newest eligible message, if there is one. */
  function Newest(cs: seq<Candidate>): seq<Candidate> {
    if cs == [] then [] else cs[|cs| - 1..]
  }

  lemma TruncateBuilds(input: Input)
    requires input.fitting == TruncateOldest
    ensures var cs, system := Eligible(input), SystemCost(input);
            var k := if Window(input).Some? then Dropped(system, cs, Window(input).value) else 0;
            && (Build(input).TooLong? <==> !FitsWindow(input, cs[k..]))
            && (Build(input).Fits? ==> Build(input).context.included == cs[k..])
  {
    hide Candidates, SortBySequence, AssembleSystemPrompt, Rejected, Truncated, Tokens, Dropped;
  }

  /** `truncate_oldest` keeps the longest suffix that fits, and refuses exactly when the system
      prompt with the newest eligible message alone does not fit. */
  lemma TruncateKeepsLongestSuffix(input: Input)
    requires input.fitting == TruncateOldest
    ensures Build(input).TooLong? <==> !FitsWindow(input, Newest(Eligible(input)))
    ensures Build(input).Fits? ==>
              exists k | 0 <= k <= |Eligible(input)| ::
                && Build(input).context.included == Eligible(input)[k..]
                && FitsWindow(input, Eligible(input)[k..])
                && forall j :: 0 <= j < k ==> !FitsWindow(input, Eligible(input)[j..])
  {
    TruncateBuilds(input);
    hide Build, Eligible, SystemCost, Tokens, Dropped;
    var cs, system := Eligible(input), SystemCost(input);
    NoTokens();
    if Window(input).Some? {
      var window := Window(input).value;
      DroppedIsLeast(system, cs, window);
      var k := Dropped(system, cs, window);
      if cs == [] {
        assert cs[k..] == [];
      } else {
        TokensSplit(cs[k..], |cs| - 1 - k);
        assert cs[k..][|cs| - 1 - k..] == Newest(cs);
      }
    } else {
      assert cs[0..] == cs;
    }
  }

  /** `refuse` sends every eligible message or fails, and where it succeeds the other strategy gives
      the same context. */
  lemma RefuseAgrees(input: Input)
    requires input.fitting == Refuse
    ensures Build(input).Fits? <==> FitsWindow(input, Eligible(input))
    ensures Build(input).Fits? ==>
              && Build(input).context.included == Eligible(input)
              && Build(input.(fitting := TruncateOldest)) == Build(input)
  {
    var other := input.(fitting := TruncateOldest);
    SameEligible(input, other, SortBySequence(input.messages));
    var cs := Eligible(input);
    assert cs[0..] == cs;
  }

  /** Two inputs that agree on the inclusion and framing rules. */
  predicate SameRules(a: Input, b: Input) {
    a.compactedBefore == b.compactedBefore && a.isTeamChat == b.isTeamChat
    && a.currentAgentId == b.currentAgentId && a.maxSequence == b.maxSequence
  }

  lemma {:induction false} SameEligible(a: Input, b: Input, ms: seq<Message>)
    requires SameRules(a, b)
    ensures Candidates(a, ms) == Candidates(b, ms) && Rejected(a, ms) == Rejected(b, ms)
  {
    if ms != [] { SameEligible(a, b, ms[..|ms| - 1]); }
  }

  predicate InSequence(ms: seq<Message>) {
    forall i, j :: 0 <= i < j < |ms| ==> ms[i].row.sequence <= ms[j].row.sequence
  }

  lemma {:induction false} InsertMultiset(sorted: seq<Message>, m: Message)
    ensures multiset(InsertBySequence(sorted, m)) == multiset(sorted) + multiset{m}
  {
    if sorted != [] && sorted[|sorted| - 1].row.sequence > m.row.sequence {
      InsertMultiset(sorted[..|sorted| - 1], m);
      assert sorted == sorted[..|sorted| - 1] + [sorted[|sorted| - 1]];
    }
  }

  /** All sequences up to a bound. */
  predicate UpTo(ms: seq<Message>, bound: nat) {
    forall i :: 0 <= i < |ms| ==> ms[i].row.sequence <= bound
  }

  lemma {:induction false} InsertSorted(sorted: seq<Message>, m: Message, bound: nat)
    requires InSequence(sorted) && UpTo(sorted, bound) && m.row.sequence <= bound
    ensures InSequence(InsertBySequence(sorted, m)) && UpTo(InsertBySequence(sorted, m), bound)
  {
    if sorted != [] && sorted[|sorted| - 1].row.sequence > m.row.sequence {
      InsertSorted(sorted[..|sorted| - 1], m, sorted[|sorted| - 1].row.sequence);
    }
  }

  lemma {:induction false} SortMultiset(ms: seq<Message>)
    ensures multiset(SortBySequence(ms)) == multiset(ms)
  {
    if ms != [] {
      hide InsertBySequence;
      var rest, m := ms[..|ms| - 1], ms[|ms| - 1];
      SortMultiset(rest);
      InsertMultiset(SortBySequence(rest), m);
      assert ms == rest + [m];
    }
  }

  lemma {:induction false} SortInSequence(ms: seq<Message>)
    ensures InSequence(SortBySequence(ms))
  {
    if ms != [] {
      var rest, m := ms[..|ms| - 1], ms[|ms| - 1];
      SortInSequence(rest);
      var sorted := SortBySequence(rest);
      var bound := if Bound(sorted) > m.row.sequence then Bound(sorted) else m.row.sequence;
      InsertSorted(sorted, m, bound);
    }
  }

  lemma {:induction false} SortKeepsSorted(ms: seq<Message>)
    requires InSequence(ms)
    ensures SortBySequence(ms) == ms
  {
    if ms != [] {
      var n := |ms| - 1;
      InSequencePrefix(ms[..n], [ms[n]]);
      assert ms[..n] + [ms[n]] == ms;
      SortKeepsSorted(ms[..n]);
      assert n > 0 ==> ms[..n][n - 1].row.sequence <= ms[n].row.sequence;
    }
  }

  function Bound(ms: seq<Message>): (b: nat)
    ensures UpTo(ms, b)
  {
    if ms == [] then 0
    else
      var b := Bound(ms[..|ms| - 1]);
      if ms[|ms| - 1].row.sequence > b then ms[|ms| - 1].row.sequence else b
  }

  function MessagesOf(cs: seq<Candidate>): (ms: seq<Message>)
    ensures |ms| == |cs| && forall i :: 0 <= i < |cs| ==> ms[i] == cs[i].message
  {
    seq(|cs|, i requires 0 <= i < |cs| => cs[i].message)
  }

  function ExcludedMessages(es: seq<Excluded>): (ms: seq<Message>)
    ensures |ms| == |es| && forall i :: 0 <= i < |es| ==> ms[i] == es[i].message
  {
    seq(|es|, i requires 0 <= i < |es| => es[i].message)
  }

  lemma {:induction false} CandidatesPartition(input: Input, ms: seq<Message>)
    ensures multiset(MessagesOf(Candidates(input, ms))) + multiset(ExcludedMessages(Rejected(input, ms))) == multiset(ms)
  {
    if ms != [] {
      var n := |ms| - 1;
      CandidatesPartition(input, ms[..n]);
      assert ms == ms[..n] + [ms[n]];
      var cs, es := Candidates(input, ms[..n]), Rejected(input, ms[..n]);
      hide MessagesOf, ExcludedMessages, Exclusion, CandidateOf;
      CandidateFrom(input, ms[n]);
      if Exclusion(input, ms[n]).None? {
        MessagesSnoc(cs, CandidateOf(input, ms[n]));
      } else {
        ExcludedSnoc(es, Excluded(ms[n], Exclusion(input, ms[n]).value));
      }
    }
  }

  lemma CandidateFrom(input: Input, m: Message)
    ensures CandidateOf(input, m).message == m
  {}

  lemma MessagesSnoc(cs: seq<Candidate>, c: Candidate)
    ensures MessagesOf(cs + [c]) == MessagesOf(cs) + [c.message]
  {}

  lemma ExcludedSnoc(es: seq<Excluded>, e: Excluded)
    ensures ExcludedMessages(es + [e]) == ExcludedMessages(es) + [e.message]
  {}

  lemma {:induction false} CandidatesInSequence(input: Input, ms: seq<Message>)
    requires InSequence(ms)
    ensures InSequence(MessagesOf(Candidates(input, ms)))
    ensures ms != [] ==> UpTo(MessagesOf(Candidates(input, ms)), ms[|ms| - 1].row.sequence)
  {
    if ms != [] {
      var n := |ms| - 1;
      CandidatesInSequence(input, ms[..n]);
      if n > 0 { assert ms[n - 1].row.sequence <= ms[n].row.sequence; }
    }
  }

  /** A candidate is framed by its own message's rule, and no rule keeps it out. */
  predicate Admitted(input: Input, c: Candidate) {
    c == CandidateOf(input, c.message) && Exclusion(input, c.message).None?
  }

  lemma {:induction false} CandidatesAdmitted(input: Input, ms: seq<Message>)
    ensures forall i :: 0 <= i < |Candidates(input, ms)| ==> Admitted(input, Candidates(input, ms)[i])
  {
    if ms != [] { CandidatesAdmitted(input, ms[..|ms| - 1]); }
  }

  lemma {:induction false} RejectedForReason(input: Input, ms: seq<Message>)
    ensures forall i :: 0 <= i < |Rejected(input, ms)| ==>
              Exclusion(input, Rejected(input, ms)[i].message) == Some(Rejected(input, ms)[i].reason)
  {
    if ms != [] { RejectedForReason(input, ms[..|ms| - 1]); }
  }

  lemma SuffixSplits(cs: seq<Candidate>, k: nat)
    requires k <= |cs|
    ensures multiset(MessagesOf(cs)) == multiset(MessagesOf(cs[..k])) + multiset(MessagesOf(cs[k..]))
    ensures InSequence(MessagesOf(cs)) ==> InSequence(MessagesOf(cs[k..]))
  {
    assert MessagesOf(cs) == MessagesOf(cs[..k]) + MessagesOf(cs[k..]);
    if InSequence(MessagesOf(cs)) {
      forall i, j | 0 <= i < j < |cs| - k
        ensures MessagesOf(cs[k..])[i].row.sequence <= MessagesOf(cs[k..])[j].row.sequence
      {
        assert MessagesOf(cs)[k + i].row.sequence <= MessagesOf(cs)[k + j].row.sequence;
      }
    }
  }

  lemma ExcludedAppend(es: seq<Excluded>, dropped: seq<Candidate>)
    ensures ExcludedMessages(es + Truncated(dropped)) == ExcludedMessages(es) + MessagesOf(dropped)
  {}

  /** The candidates sent are a suffix of the eligible ones; the rest is left out after those that
      a rule rejects. */
  lemma BuildSuffix(input: Input) returns (k: nat)
    requires Build(input).Fits?
    ensures k <= |Eligible(input)|
    ensures Build(input).context.included == Eligible(input)[k..]
    ensures Build(input).context.excluded == Rejected(input, SortBySequence(input.messages)) + Truncated(Eligible(input)[..k])
  {
    k := if Window(input).Some? && input.fitting == TruncateOldest
         then Dropped(SystemCost(input), Eligible(input), Window(input).value) else 0;
  }

  /** No message is lost or doubled: those sent and those left out are together the input. */
  lemma NothingLost(input: Input)
    requires Build(input).Fits?
    ensures var c := Build(input).context;
            multiset(MessagesOf(c.included)) + multiset(ExcludedMessages(c.excluded)) == multiset(input.messages)
  {
    hide Build, Candidates, Rejected, SortBySequence, MessagesOf, ExcludedMessages, Truncated;
    var k := BuildSuffix(input);
    var sorted := SortBySequence(input.messages);
    SortMultiset(input.messages);
    CandidatesPartition(input, sorted);
    SuffixSplits(Candidates(input, sorted), k);
    ExcludedAppend(Rejected(input, sorted), Candidates(input, sorted)[..k]);
  }

  /** Messages are sent in sequence order, each admitted and framed by its own rule. */
  lemma SentInSequence(input: Input)
    requires Build(input).Fits?
    ensures var c := Build(input).context;
            && InSequence(MessagesOf(c.included))
            && forall i :: 0 <= i < |c.included| ==> Admitted(input, c.included[i])
  {
    hide Build, Candidates, Rejected, SortBySequence, MessagesOf, ExcludedMessages, Truncated, Admitted, InSequence;
    var k := BuildSuffix(input);
    var sorted := SortBySequence(input.messages);
    SortInSequence(input.messages);
    CandidatesInSequence(input, sorted);
    CandidatesAdmitted(input, sorted);
    SuffixSplits(Candidates(input, sorted), k);
  }

  /** A quarter of the length, rounded up. */
  predicate Estimates(tokens: nat, text: string) {
    |text| <= 4 * tokens < |text| + 4
  }

  /** What is reported as the cost: four tokens for each message and for the system prompt, and the estimate of
      its text. Together it is within the window. */
  lemma CostEstimated(input: Input)
    requires Build(input).Fits?
    ensures var c := Build(input).context;
            && (forall i :: 0 <= i < |c.included| ==>
                  c.included[i].tokens >= 4 && Estimates(c.included[i].tokens - 4, c.included[i].adapterMessage.content))
            && (if c.systemPrompt.Some? && c.systemPrompt.value != ""
                then c.systemTokens >= 4 && Estimates(c.systemTokens - 4, c.systemPrompt.value) else c.systemTokens == 0)
            && c.messagesTokens == Tokens(c.included)
            && (input.contextWindow.Some? && input.contextWindow.value > 0 ==>
                  c.systemTokens + c.messagesTokens <= input.contextWindow.value)
  {
    SentInSequence(input);
    hide Candidates, Rejected, SortBySequence, AssembleSystemPrompt, Dropped, Tokens, Framed, InSequence, Admitted;
    var c := Build(input).context;
    forall i | 0 <= i < |c.included|
      ensures c.included[i].tokens >= 4 && Estimates(c.included[i].tokens - 4, c.included[i].adapterMessage.content)
    {
      AdmittedEstimated(input, c.included[i]);
    }
  }

  lemma AdmittedEstimated(input: Input, c: Candidate)
    requires Admitted(input, c)
    ensures c.tokens >= 4 && Estimates(c.tokens - 4, c.adapterMessage.content)
  {
    hide Framed, Exclusion;
  }

  /** Isolation: messages numbered above the boundary change neither the system prompt nor the
      messages nor the estimate, whatever they are. */
  lemma IsolatedAboveBoundary(input: Input, later: seq<Message>)
    requires input.maxSequence.Some? && InSequence(input.messages + later)
    requires forall m | m in later :: m.row.sequence > input.maxSequence.value
    ensures SamePrompt(Build(input), Build(input.(messages := input.messages + later)))
  {
    hide Candidates, Rejected, SortBySequence, InSequence, AssembleSystemPrompt, Dropped, Tokens;
    var all := input.(messages := input.messages + later);
    InSequencePrefix(input.messages, later);
    SortKeepsSorted(input.messages);
    SortKeepsSorted(all.messages);
    LaterNotEligible(input, input.messages, later);
    SameEligible(input, all, all.messages);
  }

  /** What the model is sent, and what it is estimated to cost. */
  predicate SamePrompt(a: Outcome, b: Outcome) {
    match (a, b)
    case (Fits(x), Fits(y)) =>
      && x.systemPrompt == y.systemPrompt && x.included == y.included
      && x.systemTokens == y.systemTokens && x.messagesTokens == y.messagesTokens
    case (TooLong(m), TooLong(n)) => m == n
    case _ => false
  }

  lemma InSequencePrefix(ms: seq<Message>, later: seq<Message>)
    requires InSequence(ms + later)
    ensures InSequence(ms)
  {
    forall i, j | 0 <= i < j < |ms| ensures ms[i].row.sequence <= ms[j].row.sequence {
      assert (ms + later)[i].row.sequence <= (ms + later)[j].row.sequence;
    }
  }

  lemma {:induction false} LaterNotEligible(input: Input, ms: seq<Message>, later: seq<Message>)
    requires input.maxSequence.Some? && forall m | m in later :: m.row.sequence > input.maxSequence.value
    ensures Candidates(input, ms + later) == Candidates(input, ms)
  {
    if later == [] {
      assert ms + later == ms;
    } else {
      var n := |later| - 1;
      assert (ms + later)[..|ms| + n] == ms + later[..n];
      LaterNotEligible(input, ms, later[..n]);
    }
  }

  // ---------------------------------------------------------------------------------------------
  // Which messages are sent
  // ---------------------------------------------------------------------------------------------

  /** A message is sent with this text. */
  predicate Sends(a: Assembled, m: Message, text: string) {
    exists i | 0 <= i < |a.included| ::
      a.included[i].message == m && a.included[i].adapterMessage == AdapterMessage(m.row.role, text, None)
  }

  lemma NoneTruncated(input: Input)
    requires input.fitting == Refuse && Build(input).Fits?
    ensures Build(input).context.excluded == Rejected(input, SortBySequence(input.messages))
  {}

  lemma Kept(input: Input, a: Assembled, m: Message)
    requires forall i :: 0 <= i < |a.included| ==> Admitted(input, a.included[i])
    requires forall i :: 0 <= i < |a.excluded| ==> Exclusion(input, a.excluded[i].message).Some?
    requires multiset(MessagesOf(a.included)) + multiset(ExcludedMessages(a.excluded)) == multiset(input.messages)
    requires m in input.messages
    ensures Sends(a, m, Framed(input, m)) <==> Exclusion(input, m).None?
    ensures Sends(a, m, Framed(input, m)) <==> m in MessagesOf(a.included)
  {
    hide Exclusion, Framed;
    var sent, out := MessagesOf(a.included), ExcludedMessages(a.excluded);
    assert m in multiset(sent) + multiset(out);
    if m in sent {
      var j :| 0 <= j < |sent| && sent[j] == m;
      assert Admitted(input, a.included[j]);
    } else {
      var j :| 0 <= j < |out| && out[j] == m;
      assert a.excluded[j].message == m;
    }
  }

  /** Where nothing is truncated, the builder sends exactly the messages that no rule keeps out, each with
      its framed text. */
  lemma SentIffAllowed(input: Input, m: Message)
    requires input.fitting == Refuse && Build(input).Fits? && m in input.messages
    ensures Sends(Build(input).context, m, Framed(input, m)) <==> Exclusion(input, m).None?
    ensures Sends(Build(input).context, m, Framed(input, m)) <==> m in MessagesOf(Build(input).context.included)
  {
    NothingLost(input);
    SentInSequence(input);
    NoneTruncated(input);
    RejectedForReason(input, SortBySequence(input.messages));
    hide Build, Exclusion, Framed, Rejected, SortBySequence, MessagesOf, ExcludedMessages;
    Kept(input, Build(input).context, m);
  }

  /** A reply that was under way at a crash is an error after recovery, and no context built from the
      recovered rows sends it. */
  lemma RecoveredNotSent(v: View, rows: seq<Row>, summary: Option<string>, boundary: Option<int>, k: nat)
    requires k < |rows| && Live(rows[k])
    requires Build(InputOf(v, Swept(rows), summary, boundary)).Fits?
    ensures Swept(rows)[k].status == Errored
    ensures forall c | c in Build(InputOf(v, Swept(rows), summary, boundary)).context.included ::
              c.message.row != Swept(rows)[k]
  {
    var input := InputOf(v, Swept(rows), summary, boundary);
    SentInSequence(input);
    hide Build;
    forall c | c in Build(input).context.included ensures c.message.row.status == Completed {
      var i :| 0 <= i < |Build(input).context.included| && Build(input).context.included[i] == c;
      assert Admitted(input, c);
    }
  }
}
