/** Translation of a transcript into strictly alternating wire turns, as Anthropic and Google
    require it. Both adapters fold the messages by rewriting the last turn in place. */
module Transcript {
  import opened Text

  datatype Role = User | Assistant | System | Tool
  datatype AdapterMessage = AdapterMessage(role: Role, content: string, name: Option<string>)

  datatype WireRole = UserTurn | ModelTurn
  datatype WireTurn = WireTurn(role: WireRole, content: string)
  datatype GeminiContent = GeminiContent(role: WireRole, parts: seq<string>)

  const BLANK_LINE := "\n\n"
  const FILLER := WireTurn(UserTurn, " ")

  function RoleOf(m: AdapterMessage): WireRole {
    if m.role == Assistant then ModelTurn else UserTurn
  }

  function Formatted(m: AdapterMessage): string {
    if Truthy(m.name) then m.name.value + ": " + m.content else m.content
  }

  function NonSystem(messages: seq<AdapterMessage>): seq<AdapterMessage> {
    if messages == [] then []
    else
      var before := NonSystem(messages[..|messages| - 1]);
      if messages[|messages| - 1].role == System then before else before + [messages[|messages| - 1]]
  }

  function SystemTexts(messages: seq<AdapterMessage>): seq<string> {
    if messages == [] then []
    else
      var before := SystemTexts(messages[..|messages| - 1]);
      var m := messages[|messages| - 1];
      if m.role == System && Trim(m.content) != "" then before + [Trim(m.content)] else before
  }

  /** The request's system prompt and every system message, trimmed, joined by blank lines. */
  function SystemPrompt(prompt: Option<string>, messages: seq<AdapterMessage>): Option<string> {
    var parts := (if prompt.Some? && Trim(prompt.value) != "" then [Trim(prompt.value)] else []) + SystemTexts(messages);
    if parts == [] then None else Some(Join(parts, BLANK_LINE))
  }

  /** Messages of one speaker, one after the other. */
  datatype Run = Run(role: WireRole, parts: seq<string>)

  datatype Utterance = Utterance(role: WireRole, text: string)

  function UtteranceOf(m: AdapterMessage): Utterance {
    Utterance(RoleOf(m), Formatted(m))
  }

  function Init<T>(s: seq<T>): seq<T>
    requires s != []
  {
    s[..|s| - 1]
  }

  function Last<T>(s: seq<T>): T
    requires s != []
  {
    s[|s| - 1]
  }

  lemma InitLast<T>(s: seq<T>, x: T)
    ensures Init(s + [x]) == s && Last(s + [x]) == x
    ensures s != [] ==> s == Init(s) + [Last(s)]
  {}

  /** Who says what. */
  function Spoken(messages: seq<AdapterMessage>): seq<Utterance> {
    if messages == [] then [] else Spoken(Init(messages)) + [UtteranceOf(Last(messages))]
  }

  /** Adds one utterance, to the last run if it has the same speaker. */
  function Extend(runs: seq<Run>, u: Utterance): seq<Run> {
    if runs != [] && Last(runs).role == u.role
    then Init(runs) + [Run(u.role, Last(runs).parts + [u.text])]
    else runs + [Run(u.role, [u.text])]
  }

  /** The maximal runs of a sequence of utterances. */
  function Group(spoken: seq<Utterance>): seq<Run> {
    if spoken == [] then [] else Extend(Group(Init(spoken)), Last(spoken))
  }

  function TurnOf(r: Run): WireTurn {
    WireTurn(r.role, Join(r.parts, BLANK_LINE))
  }

  function TurnsOf(runs: seq<Run>): (turns: seq<WireTurn>)
    ensures |turns| == |runs|
  {
    if runs == [] then [] else TurnsOf(Init(runs)) + [TurnOf(Last(runs))]
  }

  /** The turns sent: the runs, behind a filler when they do not start with the user. */
  function WireTurns(messages: seq<AdapterMessage>): seq<WireTurn> {
    var turns := TurnsOf(Group(Spoken(NonSystem(messages))));
    if turns == [] || turns[0].role == ModelTurn then [FILLER] + turns else turns
  }

  /** The same turns as Google writes them. */
  function Renamed(turns: seq<WireTurn>): (contents: seq<GeminiContent>)
    ensures |contents| == |turns|
  {
    if turns == [] then [] else Renamed(Init(turns)) + [GeminiContent(Last(turns).role, [Last(turns).content])]
  }

  // ---------------------------------------------------------------------------------------------
  // The two translators
  // ---------------------------------------------------------------------------------------------

  method Separate(prompt: Option<string>, messages: seq<AdapterMessage>)
    returns (system: Option<string>, rest: seq<AdapterMessage>)
    ensures system == SystemPrompt(prompt, messages)
    ensures rest == NonSystem(messages)
  {
    var parts := [];
    if prompt.Some? && Trim(prompt.value) != "" { parts := [Trim(prompt.value)]; }
    ghost var first := parts;
    rest := [];
    for i := 0 to |messages|
      invariant parts == first + SystemTexts(messages[..i])
      invariant rest == NonSystem(messages[..i])
    {
      assert messages[..i + 1][..i] == messages[..i];
      var m := messages[i];
      if m.role == System {
        if Trim(m.content) != "" { parts := parts + [Trim(m.content)]; }
      } else {
        rest := rest + [m];
      }
    }
    assert messages[..|messages|] == messages;
    system := if parts == [] then None else Some(Join(parts, BLANK_LINE));
  }

  /** A text of the same speaker is appended to the last turn, any other opens a new one. */
  function AddTurn(turns: seq<WireTurn>, u: Utterance): seq<WireTurn> {
    if turns != [] && Last(turns).role == u.role
    then Init(turns) + [WireTurn(u.role, Last(turns).content + BLANK_LINE + u.text)]
    else turns + [WireTurn(u.role, u.text)]
  }

  method TranslateForAnthropic(prompt: Option<string>, messages: seq<AdapterMessage>)
    returns (system: Option<string>, turns: seq<WireTurn>)
    ensures system == SystemPrompt(prompt, messages)
    ensures turns == WireTurns(messages)
  {
    var rest;
    system, rest := Separate(prompt, messages);
    hide TurnsOf, Group, Spoken, SystemPrompt, NonSystem, Formatted;
    NoTurns();
    if rest == [] { return system, [FILLER]; }
    turns := [];
    for i := 0 to |rest|
      invariant turns == TurnsOf(Group(Spoken(rest[..i])))
      invariant i > 0 ==> turns != []
    {
      TurnsStep(rest, i);
      var role, formatted, n := RoleOf(rest[i]), Formatted(rest[i]), |turns|;
      if n > 0 && turns[n - 1].role == role {
        turns := turns[n - 1 := WireTurn(role, turns[n - 1].content + BLANK_LINE + formatted)];
      } else {
        turns := turns + [WireTurn(role, formatted)];
      }
    }
    assert rest[..|rest|] == rest;
    if turns[0].role == ModelTurn { turns := [FILLER] + turns; }
  }

  lemma NoTurns()
    ensures TurnsOf(Group(Spoken([]))) == [] && Renamed([]) == []
    ensures Renamed([FILLER]) == [GeminiContent(UserTurn, [" "])]
  {
    assert Init([FILLER]) == [];
  }

  /** A further text of the same speaker goes into the first part, if there is one. */
  function Merged(previous: GeminiContent, formatted: string): GeminiContent {
    previous.(parts := if previous.parts != []
                       then [previous.parts[0] + BLANK_LINE + formatted] + previous.parts[1..]
                       else [formatted])
  }

  method TranslateForGoogle(prompt: Option<string>, messages: seq<AdapterMessage>)
    returns (system: Option<string>, contents: seq<GeminiContent>)
    ensures system == SystemPrompt(prompt, messages)
    ensures contents == Renamed(WireTurns(messages))
  {
    var rest;
    system, rest := Separate(prompt, messages);
    hide TurnsOf, Group, Spoken, SystemPrompt, NonSystem, Formatted, Renamed;
    NoTurns();
    assert [FILLER] + [] == [FILLER];
    if rest == [] { return system, [GeminiContent(UserTurn, [" "])]; }
    contents := [];
    for i := 0 to |rest|
      invariant contents == Renamed(TurnsOf(Group(Spoken(rest[..i]))))
      invariant i > 0 ==> contents != []
    {
      TurnsStep(rest, i);
      ghost var turns := TurnsOf(Group(Spoken(rest[..i])));
      RenamedAddTurn(turns, UtteranceOf(rest[i]));
      var role, formatted, n := RoleOf(rest[i]), Formatted(rest[i]), |contents|;
      if n > 0 && contents[n - 1].role == role {
        contents := contents[n - 1 := Merged(contents[n - 1], formatted)];
      } else {
        contents := contents + [GeminiContent(role, [formatted])];
      }
    }
    assert rest[..|rest|] == rest;
    ghost var turns := TurnsOf(Group(Spoken(rest)));
    RenamedFirst(turns);
    if contents[0].role == ModelTurn { contents := [GeminiContent(UserTurn, [" "])] + contents; }
  }

  lemma RenamedAddTurn(turns: seq<WireTurn>, u: Utterance)
    ensures var contents := Renamed(turns);
            Renamed(AddTurn(turns, u))
            == if turns != [] && Last(contents).role == u.role
               then contents[|contents| - 1 := Merged(Last(contents), u.text)]
               else contents + [GeminiContent(u.role, [u.text])]
    ensures turns != [] ==> Last(Renamed(turns)).role == Last(turns).role
  {
    RenamedSnoc(turns, WireTurn(u.role, u.text));
    if turns != [] {
      hide Renamed, Merged;
      var before, last := Init(turns), Last(turns);
      InitLast(before, last);
      RenamedSnoc(before, last);
      RenamedSnoc(before, WireTurn(u.role, last.content + BLANK_LINE + u.text));
      MergedText(last.role, last.content, u.text);
      ReplaceLast(Renamed(before), GeminiContent(last.role, [last.content]),
                  GeminiContent(u.role, [last.content + BLANK_LINE + u.text]));
    }
  }

  lemma ReplaceLast<T>(s: seq<T>, x: T, y: T)
    ensures (s + [x])[|s + [x]| - 1 := y] == s + [y] && Last(s + [x]) == x
  {}

  lemma RenamedSnoc(turns: seq<WireTurn>, t: WireTurn)
    ensures Renamed(turns + [t]) == Renamed(turns) + [GeminiContent(t.role, [t.content])]
  {
    InitLast(turns, t);
  }

  lemma MergedText(role: WireRole, text: string, more: string)
    ensures Merged(GeminiContent(role, [text]), more) == GeminiContent(role, [text + BLANK_LINE + more])
  {
    var m := Merged(GeminiContent(role, [text]), more);
    assert m.parts == [text + BLANK_LINE + more];
  }

  lemma {:induction false} RenamedFirst(turns: seq<WireTurn>)
    requires turns != []
    ensures Renamed(turns)[0] == GeminiContent(turns[0].role, [turns[0].content])
    ensures Renamed([FILLER] + turns) == [GeminiContent(UserTurn, [" "])] + Renamed(turns)
  {
    hide Renamed;
    var before, last := turns[..|turns| - 1], turns[|turns| - 1];
    assert turns == before + [last] && [FILLER] + turns == ([FILLER] + before) + [last];
    RenamedSnoc(before, last);
    RenamedSnoc([FILLER] + before, last);
    if |turns| > 1 {
      RenamedFirst(before);
    } else {
      NoTurns();
      assert [FILLER] + before == [FILLER];
    }
  }

  // ---------------------------------------------------------------------------------------------
  // What the turns mean
  // ---------------------------------------------------------------------------------------------

  predicate Alternating(turns: seq<WireTurn>) {
    forall i :: 0 <= i < |turns| - 1 ==> turns[i].role != turns[i + 1].role
  }

  /** Runs of different speakers in turn, none of them empty. */
  predicate WellFormed(runs: seq<Run>) {
    && (forall i :: 0 <= i < |runs| ==> runs[i].parts != [])
    && forall i :: 0 <= i < |runs| - 1 ==> runs[i].role != runs[i + 1].role
  }

  function Said(role: WireRole, parts: seq<string>): seq<Utterance> {
    if parts == [] then [] else Said(role, Init(parts)) + [Utterance(role, Last(parts))]
  }

  /** The utterances of the runs, in order. */
  function Utterances(runs: seq<Run>): seq<Utterance> {
    if runs == [] then [] else Utterances(Init(runs)) + Said(Last(runs).role, Last(runs).parts)
  }

  function Contents(turns: seq<WireTurn>): (texts: seq<string>)
    ensures |texts| == |turns|
  {
    if turns == [] then [] else Contents(Init(turns)) + [Last(turns).content]
  }

  function Texts(spoken: seq<Utterance>): (texts: seq<string>)
    ensures |texts| == |spoken|
  {
    if spoken == [] then [] else Texts(Init(spoken)) + [Last(spoken).text]
  }

  lemma ExtendWellFormed(runs: seq<Run>, u: Utterance)
    requires WellFormed(runs)
    ensures WellFormed(Extend(runs, u))
  {}

  lemma ExtendTurns(runs: seq<Run>, u: Utterance)
    requires WellFormed(runs)
    ensures TurnsOf(Extend(runs, u)) == AddTurn(TurnsOf(runs), u)
  {
    if runs != [] && Last(runs).role == u.role {
      JoinSnoc(Last(runs).parts, u.text, BLANK_LINE);
      InitLast(Init(runs), Run(u.role, Last(runs).parts + [u.text]));
    } else {
      InitLast(runs, Run(u.role, [u.text]));
    }
  }

  lemma TurnsStep(messages: seq<AdapterMessage>, i: nat)
    requires i < |messages|
    ensures TurnsOf(Group(Spoken(messages[..i + 1])))
            == AddTurn(TurnsOf(Group(Spoken(messages[..i]))), UtteranceOf(messages[i]))
  {
    assert messages[..i + 1] == messages[..i] + [messages[i]];
    InitLast(messages[..i], messages[i]);
    InitLast(Spoken(messages[..i]), UtteranceOf(messages[i]));
    GroupSound(Spoken(messages[..i]));
    ExtendTurns(Group(Spoken(messages[..i])), UtteranceOf(messages[i]));
  }

  /** Grouping keeps every utterance, with its speaker and in its place, and every run is maximal. */
  lemma {:induction false} GroupSound(spoken: seq<Utterance>)
    ensures WellFormed(Group(spoken))
    ensures Utterances(Group(spoken)) == spoken
  {
    if spoken != [] {
      GroupSound(Init(spoken));
      var before, u := Group(Init(spoken)), Last(spoken);
      ExtendWellFormed(before, u);
      ExtendUtterances(before, u);
      InitLast(spoken, u);
    }
  }

  lemma ExtendUtterances(runs: seq<Run>, u: Utterance)
    ensures Utterances(Extend(runs, u)) == Utterances(runs) + [u]
  {
    hide Utterances, Said;
    if runs != [] && Last(runs).role == u.role {
      LongerRun(Init(runs), Last(runs), u.text);
      assert runs == Init(runs) + [Last(runs)];
    } else {
      UtterancesSnoc(runs, Run(u.role, [u.text]));
      NothingSaid(u.role);
      SaidSnoc(u.role, [], u.text);
      assert [] + [u.text] == [u.text];
    }
  }

  lemma LongerRun(runs: seq<Run>, run: Run, text: string)
    ensures Utterances(runs + [Run(run.role, run.parts + [text])]) == Utterances(runs + [run]) + [Utterance(run.role, text)]
  {
    hide Utterances, Said;
    UtterancesSnoc(runs, run);
    UtterancesSnoc(runs, Run(run.role, run.parts + [text]));
    SaidSnoc(run.role, run.parts, text);
    var said := Said(run.role, run.parts);
    assert Utterances(runs) + (said + [Utterance(run.role, text)]) == Utterances(runs) + said + [Utterance(run.role, text)];
  }

  lemma NothingSaid(role: WireRole)
    ensures Said(role, []) == []
  {}

  lemma UtterancesSnoc(runs: seq<Run>, run: Run)
    ensures Utterances(runs + [run]) == Utterances(runs) + Said(run.role, run.parts)
  {
    InitLast(runs, run);
  }

  lemma SaidSnoc(role: WireRole, parts: seq<string>, text: string)
    ensures Said(role, parts + [text]) == Said(role, parts) + [Utterance(role, text)]
  {
    InitLast(parts, text);
  }

  /** Grouping undoes writing maximal runs out, so no other runs say the same. */
  lemma {:induction false} GroupUnique(runs: seq<Run>)
    requires WellFormed(runs)
    ensures Group(Utterances(runs)) == runs
  {
    if runs != [] {
      GroupUnique(Init(runs));
      GroupRun(Utterances(Init(runs)), Init(runs), Last(runs).role, Last(runs).parts);
      InitLast(runs, Last(runs));
    }
  }

  lemma GroupSnoc(spoken: seq<Utterance>, u: Utterance)
    ensures Group(spoken + [u]) == Extend(Group(spoken), u)
  {
    InitLast(spoken, u);
  }

  lemma {:induction false} GroupRun(spoken: seq<Utterance>, runs: seq<Run>, role: WireRole, parts: seq<string>)
    requires Group(spoken) == runs && parts != []
    requires runs != [] ==> Last(runs).role != role
    ensures Group(spoken + Said(role, parts)) == runs + [Run(role, parts)]
  {
    hide Group;
    var before, u := spoken + Said(role, Init(parts)), Utterance(role, Last(parts));
    GroupSnoc(before, u);
    assert spoken + Said(role, parts) == before + [u];
    InitLast(before, u);
    InitLast(parts, Last(parts));
    if |parts| == 1 {
      assert before == spoken;
    } else {
      GroupRun(spoken, runs, role, Init(parts));
      InitLast(runs, Run(role, Init(parts)));
    }
  }

  lemma {:induction false} TurnsRoles(runs: seq<Run>)
    ensures forall i :: 0 <= i < |runs| ==> TurnsOf(runs)[i].role == runs[i].role
  {
    if runs != [] { TurnsRoles(Init(runs)); }
  }

  /** Turns start with the user and strictly alternate, for every list of messages. */
  lemma TurnsAlternate(messages: seq<AdapterMessage>)
    ensures var turns := WireTurns(messages);
            turns != [] && turns[0].role == UserTurn && Alternating(turns)
  {
    var runs := Group(Spoken(NonSystem(messages)));
    GroupSound(Spoken(NonSystem(messages)));
    AlternatingTurns(runs);
    AlternatingBehindFiller(TurnsOf(runs));
  }

  lemma AlternatingTurns(runs: seq<Run>)
    requires WellFormed(runs)
    ensures Alternating(TurnsOf(runs))
  {
    TurnsRoles(runs);
  }

  lemma AlternatingBehindFiller(turns: seq<WireTurn>)
    requires Alternating(turns)
    ensures turns == [] || turns[0].role == ModelTurn ==> Alternating([FILLER] + turns)
  {
    var all := [FILLER] + turns;
    assert forall i :: 0 < i < |all| ==> all[i] == turns[i - 1];
  }

  /** A filler is sent exactly when there is no user turn to start with. */
  predicate NeedsFiller(messages: seq<AdapterMessage>) {
    NonSystem(messages) == [] || NonSystem(messages)[0].role == Assistant
  }

  /** Who says what: every message but the system's, in order; the assistant as the model, everybody else as
      the user; behind the name of its author, if it has one. */
  function SaidIn(messages: seq<AdapterMessage>): seq<Utterance> {
    if messages == [] then [] else SaidBy(messages[0]) + SaidIn(messages[1..])
  }

  function SaidBy(m: AdapterMessage): seq<Utterance> {
    var text := if m.name.Some? && m.name.value != "" then m.name.value + ": " + m.content else m.content;
    match m.role
    case System => []
    case Assistant => [Utterance(ModelTurn, text)]
    case _ => [Utterance(UserTurn, text)]
  }

  lemma {:induction false} SaidInSnoc(messages: seq<AdapterMessage>, m: AdapterMessage)
    ensures SaidIn(messages + [m]) == SaidIn(messages) + SaidIn([m])
  {
    var all := messages + [m];
    if messages == [] {
      assert all == [m];
    } else {
      hide SaidBy;
      assert all[1..] == messages[1..] + [m] && all[0] == messages[0];
      SaidInSnoc(messages[1..], m);
    }
  }

  lemma {:induction false} SpokenIsSaid(messages: seq<AdapterMessage>)
    ensures Spoken(NonSystem(messages)) == SaidIn(messages)
  {
    if messages != [] {
      hide SaidIn, Spoken, UtteranceOf, NonSystem;
      var before, m := messages[..|messages| - 1], messages[|messages| - 1];
      SpokenIsSaid(before);
      NonSystemSnoc(before, m);
      SaidInSnoc(before, m);
      assert messages == before + [m];
      OneSaid(m);
      SpokenSnoc(NonSystem(before), m);
      assert NonSystem(before) + [] == NonSystem(before) && SaidIn(before) + [] == SaidIn(before);
    } else {
      NothingSpoken();
    }
  }

  lemma NonSystemSnoc(messages: seq<AdapterMessage>, m: AdapterMessage)
    ensures NonSystem(messages + [m]) == NonSystem(messages) + if m.role == System then [] else [m]
  {
    assert (messages + [m])[..|messages|] == messages;
  }

  lemma NothingSpoken()
    ensures Spoken(NonSystem([])) == [] == SaidIn([])
  {}

  lemma OneSaid(m: AdapterMessage)
    ensures SaidIn([m]) == if m.role == System then [] else [UtteranceOf(m)]
  {
    assert [m][1..] == [];
  }

  lemma SpokenSnoc(messages: seq<AdapterMessage>, m: AdapterMessage)
    ensures Spoken(messages + [m]) == Spoken(messages) + [UtteranceOf(m)]
  {
    hide UtteranceOf;
    InitLast(messages, m);
  }

  function SystemContents(messages: seq<AdapterMessage>): seq<string> {
    if messages == [] then []
    else (if messages[0].role.System? then [messages[0].content] else []) + SystemContents(messages[1..])
  }

  lemma {:induction false} SystemSnoc(messages: seq<AdapterMessage>, m: AdapterMessage)
    ensures SystemContents(messages + [m]) == SystemContents(messages) + SystemContents([m])
  {
    var all := messages + [m];
    if messages == [] {
      assert all == [m];
    } else {
      assert all[1..] == messages[1..] + [m];
      SystemSnoc(messages[1..], m);
    }
  }

  lemma {:induction false} SystemTextsMean(messages: seq<AdapterMessage>)
    ensures SystemTexts(messages) == NonBlank(SystemContents(messages))
  {
    if messages != [] {
      hide Trim, Blank;
      var before, m := messages[..|messages| - 1], messages[|messages| - 1];
      SystemTextsMean(before);
      SystemSnoc(before, m);
      assert messages == before + [m];
      assert [m][1..] == [] && [m.content][1..] == [];
      TrimCuts(m.content);
      NonBlankAppend(SystemContents(before), SystemContents([m]));
    }
  }

  /** The system prompt is the request's own and every system message, as far as they are not blank, trimmed,
      in order, joined by blank lines. */
  lemma SystemPromptMeans(prompt: Option<string>, messages: seq<AdapterMessage>)
    ensures var parts := NonBlank([OrElse(prompt, "")] + SystemContents(messages));
            SystemPrompt(prompt, messages) == if parts == [] then None else Some(Join(parts, "\n\n"))
  {
    SystemTextsMean(messages);
    hide Trim, Blank, Join, SystemTexts;
    var own := OrElse(prompt, "");
    TrimCuts(own);
    TrimCuts("");
    NonBlankAppend([own], SystemContents(messages));
    assert [own][1..] == [];
  }

  /** The turns, without the filler, say exactly what the messages say, in order. */
  lemma TurnsPreserveText(messages: seq<AdapterMessage>)
    ensures var turns := WireTurns(messages);
            && (NeedsFiller(messages) ==> turns[0] == FILLER)
            && Join(Contents(if NeedsFiller(messages) then turns[1..] else turns), BLANK_LINE)
               == Join(Texts(SaidIn(messages)), "\n\n")
  {
    SpokenIsSaid(messages);
    var spoken := Spoken(NonSystem(messages));
    JoinGroup(spoken);
    FirstSpeaker(NonSystem(messages));
    FirstRun(spoken);
    TurnsRoles(Group(spoken));
    if NeedsFiller(messages) { assert WireTurns(messages)[1..] == TurnsOf(Group(spoken)); }
  }

  lemma {:induction false} FirstSpeaker(messages: seq<AdapterMessage>)
    ensures |Spoken(messages)| == |messages|
    ensures messages != [] ==> Spoken(messages)[0].role == RoleOf(messages[0])
  {
    if messages != [] { FirstSpeaker(Init(messages)); }
  }

  lemma {:induction false} FirstRun(spoken: seq<Utterance>)
    ensures Group(spoken) == [] <==> spoken == []
    ensures spoken != [] ==> Group(spoken)[0].role == spoken[0].role
  {
    if spoken != [] { FirstRun(Init(spoken)); }
  }

  lemma {:induction false} JoinGroup(spoken: seq<Utterance>)
    ensures Join(Contents(TurnsOf(Group(spoken))), BLANK_LINE) == Join(Texts(spoken), BLANK_LINE)
  {
    if spoken != [] {
      var rest, u := Init(spoken), Last(spoken);
      JoinGroup(rest);
      GroupSound(rest);
      ExtendTurns(Group(rest), u);
      FirstRun(rest);
      JoinAddTurn(TurnsOf(Group(rest)), u);
      if rest != [] { JoinSnoc(Texts(rest), u.text, BLANK_LINE); }
    }
  }

  lemma JoinAddTurn(turns: seq<WireTurn>, u: Utterance)
    ensures Join(Contents(AddTurn(turns, u)), BLANK_LINE)
            == if turns == [] then u.text else Join(Contents(turns), BLANK_LINE) + BLANK_LINE + u.text
  {
    if turns != [] && Last(turns).role == u.role {
      InitLast(Init(turns), WireTurn(u.role, Last(turns).content + BLANK_LINE + u.text));
      JoinExtend(Contents(Init(turns)), Last(turns).content, u.text, BLANK_LINE);
    } else {
      InitLast(turns, WireTurn(u.role, u.text));
      if turns != [] { JoinSnoc(Contents(turns), u.text, BLANK_LINE); }
    }
  }

  lemma JoinExtend(before: seq<string>, last: string, more: string, separator: string)
    ensures Join(before + [last + separator + more], separator)
            == Join(before + [last], separator) + separator + more
  {
    if before == [] {
      assert before + [last] == [last] && before + [last + separator + more] == [last + separator + more];
    } else {
      JoinSnoc(before, last, separator);
      JoinSnoc(before, last + separator + more, separator);
      assert Join(before, separator) + separator + (last + separator + more)
          == (Join(before, separator) + separator + last) + separator + more;
    }
  }
}
