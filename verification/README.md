# A Dafny model of the chat server's core

The repository is a chat server: it keeps conversations in SQLite, asks model providers for replies,
streams them to clients, lets teams of agents answer in turn, and compacts long histories. This
project models the parts of its API process in which state, protocol or arithmetic is subtle, and
proves what the rest of the system relies on. `dafny verify dfyconfig.toml` checks everything.

A `char` stands for one UTF-16 code unit. JSON decoding, UTF-8 and percent decoding, lower-casing, the
regular expressions that find hand-off markers, and the wording of directives are function parameters,
so every statement holds for all of them. Cancellation, elapsed time and process death are
nondeterministic.

## What is modelled

**Streaming from providers** (`Chunks`, `LineDriver`, `StreamEvents`, `SseFraming`, `OpenAi`, `Google`,
`Anthropic`, `Ollama`). The carried buffer, the parked half-built event and the early returns of the four
adapters. The read loop refines one pass over the whole body, so the events never depend on where reads
are cut, not even inside a CRLF; for OpenAI, Google and Ollama every stream that ends without throwing
yields exactly one terminal event, the last. A body written event by event, with any mixture of line ends,
delivers exactly the reply its payloads carry, its errors with their own type and message, and a completion with
what was reported last.

**Transcripts** (`Transcript`). Both translators rewrite the last turn in place; both equal one grouping of
the messages into maximal runs, which is proved sound and unique.

**Chat history** (`Messages`, `MemberTurn`, `Compaction`, `Context`). Rows are appended and updated in
place, checkpointed while a reply streams in, settled however the turn ends, and swept after a crash. A journal
of every write and every event sent, in order, says what is on disk whenever a client sees something.
Compaction is a step machine in which any number of compactions overlap with posts, turns, flushes and
restarts; the summary carries the set of sequence numbers it accounts for. The context builder is the code's
own loop with its inclusion, framing and fitting rules.

**Team chats** (`Schedule`, `Traces`, `Teams`, `TeamRuns`, `TeamContext`). One turn schedule specifies the
four strategies; the four orchestrators without streaming and the four with streaming are methods over the
history, each proved to follow it. Whom each strategy asks, about what, and where it ends is stated apart from the
schedule.

**Budget windows** (`Calendar`, `PeriodWindow`), **search and paging** (`Like`, `Paging`), **storage**
(`Bytes`, `ContentType`, `FileStorage`, `PathSafety`), **schema migrations** (`Migrations`) and
**identifiers** (`Identifiers`).

## What the proofs found

- A message that is still being generated when a compaction reads the history, and is finished before that
  compaction writes, ends up below the boundary but not in the summary: it is neither summarised nor sent
  (`Compaction.UnfinishedReplyIsLost`, reachable by `UnfinishedReplyReachable`). A summary reply that is blank
  is stored like any other and forgets the history it stands for (`BlankReplyForgets`). Compaction is lossless
  exactly if neither has happened (`LosslessIff`), which callers can see to (`CarefulIsLossless`). With overlapping
  compactions the boundary may move backwards; nothing is lost by that (`BoundaryMovesBack`).
- The comment at `apps/api/src/modules/budget/period-window.ts:146-149` is not true in general. A skipped
  midnight is resolved to an instant after the jump exactly if its reading, taken as UTC, is not before the jump,
  which is so where the zone's clock is ahead; otherwise the result lies on the previous day, as for
  Sao Paulo on 4 November 2018 (`SkippedMidnight`, `SkippedMidnightWest`). With a repeated midnight east of
  Greenwich the daily window can start after now, as in Amman on 28 October 2011 (`RepeatedMidnightEast`);
  `WindowContainsNowIff` says exactly when, from the transition, the offsets and the midnights.
- A broadcast hides everything numbered above the sequence captured at its start, but a row at or below it that
  another request completes meanwhile is shown to later members, unless it is blank or compacted
  (`TeamContext.LateReplyShownIff`, `LateReplyReachable`).
- The prefix check of a storage path alone would accept the root `/` for a reference that leads to it; the
  relative-path check would not. They agree except in that case (`PathSafety.AcceptedIffBelow`).
- A stream without chunks passes a negative size limit, which a buffer does not; apart from that the two write
  paths agree (`FileStorage.WriteStream`).
- Ollama's unterminated last line loses its error, its reasoning, its model and its finish reason; it yields the
  same events as a terminated one exactly if it carries nothing that matters there (`Ollama.TrailingLineAgreement`).
- A payload that is the JSON value `null` makes OpenAI, Google and Ollama's line loop throw; Ollama's last line
  swallows it, and for Anthropic it depends on the event's name (the four lemmas `ThrowsIff`). The Anthropic loop
  reads on after a terminal event.
- The OpenAI and Google adapters deliver a last event whose blank line is missing, which section 9.2.6 of the
  WHATWG HTML Standard would discard (`SseFraming.UnterminatedEventDelivered`). If its last line has no line feed
  either, it keeps its payload exactly if that line is data or a comment (`LeftoverPayloadIff`): for the body
  `data: x`, line feed, `id: 5` the decoder is handed both lines as one payload (`LeftoverFieldCorrupts`).

## Model

| member | source | states |
|---|---|---|
| LineDriver.SplitAppend | apps/api/src/model-adapters/openai/openai.adapter.ts:222-260 | cutting the carried rest with the next read gives the lines of the whole text, even if the cut falls inside a CRLF |
| LineDriver.SplitUnsplit | apps/api/src/model-adapters/openai/openai.adapter.ts:222-260 | splitting inverts every way of writing lines down, LF and CRLF mixed freely |
| LineDriver.OnLines | apps/api/src/model-adapters/openai/openai.adapter.ts:230-290 | the lines of a read are handed over one by one until the adapter returns or throws |
| LineDriver.Drive | apps/api/src/model-adapters/openai/openai.adapter.ts:222-330 | reading a body in pieces ends in the state of one pass over the whole body, however it is cut |
| SseFraming.TerminalOnceAndLast | apps/api/src/model-adapters/openai/openai.adapter.ts:222-330 | a stream that does not throw yields exactly one complete or error event, and it is the last |
| SseFraming.BodyRoundTrip | apps/api/src/model-adapters/openai/openai.adapter.ts:222-330 | a body that carries events, with comments, other fields and any line ends between, hands exactly their payloads to the decoder |
| SseFraming.BodyText | apps/api/src/model-adapters/openai/openai.adapter.ts:222-330 | the caller gets exactly the pieces of the reply the events carry, in order, then one terminal event, with or without the sentinel: the completion with what the events made known |
| SseFraming.BodyFails | apps/api/src/model-adapters/openai/openai.adapter.ts:260-282 | an event that fails ends the stream with its own error, behind the pieces before it, whatever follows |
| SseFraming.UnterminatedEventDelivered | apps/api/src/model-adapters/openai/openai.adapter.ts:292-330 | after any events, a last event without its blank line, with or without its last line feed, is delivered as if it were terminated, unless its unterminated line is another field |
| SseFraming.OpenEnd | apps/api/src/model-adapters/openai/openai.adapter.ts:283-330 | what a body does that ends after some lines of an event and any text without a line feed |
| SseFraming.LeftoverPayloadIff | apps/api/src/model-adapters/openai/openai.adapter.ts:287-301 | without its last line feed an event keeps its payload if and only if that line is data or a comment |
| SseFraming.LeftoverFieldCorrupts | apps/api/src/model-adapters/openai/openai.adapter.ts:287-301 | an input for which it does not: the field becomes part of the payload |
| OpenAi.Stream | apps/api/src/model-adapters/openai/openai.adapter.ts:190-353 | the events depend on the concatenated text alone, and end with one terminal event unless decoding throws |
| OpenAi.EndsWithOneTerminal | apps/api/src/model-adapters/openai/openai.adapter.ts:190-353 | exactly one terminal event, the last, for every body |
| OpenAi.DeltasCarryChoices | apps/api/src/model-adapters/openai/openai.adapter.ts:747-845 | the text deltas of a chunk are its choices' contents in order, the thought deltas their reasoning |
| OpenAi.BodyCarriesReply | apps/api/src/model-adapters/openai/openai.adapter.ts:190-353 | a body of chunks without errors streams exactly the text of all their choices, however framed, then the completion with the model, the finish reason and the usage reported last |
| OpenAi.BodyFails | apps/api/src/model-adapters/openai/openai.adapter.ts:787-806 | an error chunk ends the stream with one failure that has its type, code and message, behind the text before it, whatever follows |
| OpenAi.ThrowsIff | apps/api/src/model-adapters/openai/openai.adapter.ts:747-845 | decoding throws if and only if a payload is `null` and nothing before it ended the stream |
| Google.Stream | apps/api/src/model-adapters/google/google.adapter.ts:253-431 | the events depend on the concatenated text alone, and end with one terminal event unless decoding throws |
| Google.EndsWithOneTerminal | apps/api/src/model-adapters/google/google.adapter.ts:253-431 | exactly one terminal event, the last, for every body |
| Google.DeltasCarryParts | apps/api/src/model-adapters/google/google.adapter.ts:881-1003 | the text deltas of a chunk are its answer parts in order, the thought deltas its thoughts |
| Google.BodyCarriesReply | apps/api/src/model-adapters/google/google.adapter.ts:253-431 | a body of chunks without errors or safety refusals streams exactly the text of their answer parts, then the completion with the model, the finish reason and the token counts reported last |
| Google.BodyFails | apps/api/src/model-adapters/google/google.adapter.ts:917-964 | an error chunk or a refusal on safety grounds ends the stream with one failure that carries its error or its reason, behind the text before it, whatever follows |
| Google.ThrowsIff | apps/api/src/model-adapters/google/google.adapter.ts:881-1003 | decoding throws if and only if a payload is `null` and nothing before it ended the stream |
| Anthropic.Stream | apps/api/src/model-adapters/anthropic/anthropic.adapter.ts:162-337 | the events depend on the concatenated text alone, and say at least once that the completion is complete unless decoding throws |
| Anthropic.AlwaysCompletes | apps/api/src/model-adapters/anthropic/anthropic.adapter.ts:162-337 | no body ends without a complete event unless decoding throws |
| Anthropic.FeedEvent | apps/api/src/model-adapters/anthropic/anthropic.adapter.ts:718-839 | an event's lines, with comments, other fields, several pieces of data and a name or none, have exactly the effect of its decoded payload under its name |
| Anthropic.BodyCarriesReply | apps/api/src/model-adapters/anthropic/anthropic.adapter.ts:162-337 | a body of events of any kinds, named by a field or by their payload, streams exactly the text of its text deltas |
| Anthropic.BodyShows | apps/api/src/model-adapters/anthropic/anthropic.adapter.ts:718-839 | unless decoding throws, the text, reasoning and failures the caller sees are exactly those of the events, in order; a failure for each error event, with its type and message, and for nothing else |
| Anthropic.BodyCompletes | apps/api/src/model-adapters/anthropic/anthropic.adapter.ts:758-814 | a message that is over, with or without the event that says so, is completed last by the model, the finish reason and the token counts reported last |
| Anthropic.ThrowsIff | apps/api/src/model-adapters/anthropic/anthropic.adapter.ts:718-839 | decoding throws if and only if some payload is `null` under a name of which fields are read |
| Ollama.Stream | apps/api/src/model-adapters/ollama/ollama.adapter.ts:216-416 | the events depend on the concatenated text alone, and end with one terminal event unless decoding throws |
| Ollama.EndsWithOneTerminal | apps/api/src/model-adapters/ollama/ollama.adapter.ts:216-416 | exactly one terminal event, the last, for every body |
| Ollama.BodyCarriesReply | apps/api/src/model-adapters/ollama/ollama.adapter.ts:216-416 | lines without errors, only the last of them final, stream exactly their contents, then the completion with the model, the finish reason and the usage reported last |
| Ollama.BodyFails | apps/api/src/model-adapters/ollama/ollama.adapter.ts:282-290 | a terminated line with an error ends the stream with that error, behind the contents before it, whatever follows |
| Ollama.ThrowsIff | apps/api/src/model-adapters/ollama/ollama.adapter.ts:216-385 | decoding throws if and only if a terminated line is `null` and no line before it ended the stream; an unterminated line never makes it throw |
| Ollama.TrailingLineAgreement | apps/api/src/model-adapters/ollama/ollama.adapter.ts:343-385 | an unterminated last line yields what it would yield terminated if and only if it carries nothing that path ignores |
| Transcript.Separate | apps/api/src/model-adapters/anthropic/anthropic.adapter.ts:448-475 | the system prompt and the non-blank system messages are joined in order; all other messages stay, in order |
| Transcript.TranslateForAnthropic | apps/api/src/model-adapters/anthropic/anthropic.adapter.ts:448-511 | folding into the last turn in place gives the maximal runs, behind a filler where needed |
| Transcript.TranslateForGoogle | apps/api/src/model-adapters/google/google.adapter.ts:578-647 | the same turns as for Anthropic up to the renaming |
| Transcript.TurnsAlternate | apps/api/src/model-adapters/anthropic/anthropic.adapter.ts:476-511 | turns start with the user and strictly alternate, for every list of messages |
| Transcript.TurnsPreserveText | apps/api/src/model-adapters/anthropic/anthropic.adapter.ts:476-511 | without the filler, the turns joined by blank lines are the non-system messages joined by blank lines, each behind its author's name if it has one |
| Transcript.SpokenIsSaid | apps/api/src/model-adapters/anthropic/anthropic.adapter.ts:476-511 | what is grouped is every message but the system's, in order, the assistant's as the model's and all others as the user's |
| Transcript.SystemPromptMeans | apps/api/src/model-adapters/anthropic/anthropic.adapter.ts:448-475 | the system prompt is the request's own and every system message, as far as they are not blank, trimmed, in order, joined by blank lines; none if all are blank |
| Transcript.GroupSound | apps/api/src/model-adapters/google/google.adapter.ts:604-647 | grouping keeps every utterance with its speaker and in its place, in maximal runs |
| Transcript.GroupUnique | apps/api/src/model-adapters/google/google.adapter.ts:604-647 | no other maximal runs say the same |
| Messages.ChatHistory.Append | apps/api/src/modules/inference/inference.service.ts:735-790 | a row is added behind all others with the highest sequence plus one, as one journalled write |
| Messages.ChatHistory.Update | apps/api/src/modules/inference/inference.service.ts:383-412 | one row's content and status change and nothing else, as one journalled write |
| Messages.ChatHistory.SweepStranded | apps/api/src/database/database.service.ts:157-176 | exactly the rows under way become errors, empty ones with a notice; every other status stays |
| Messages.SweepRecovers | apps/api/src/database/database.service.ts:157-176 | a row under way becomes an error with its stored text, or with the notice "Generation interrupted unexpectedly" if that is empty; every other row stays as it is; recovery is idempotent |
| MemberTurn.OnTextDelta | apps/api/src/modules/inference/inference.service.ts:1643-1664 | a piece of text is stored when it is due and then sent; what is stored trails what was sent by fewer than 200 characters |
| MemberTurn.Consume | apps/api/src/modules/inference/inference.service.ts:1631-1696 | the read loop sends and stores the text of the events consumed, up to the first failure, what is thrown, or an abort |
| MemberTurn.StreamMemberTurn | apps/api/src/modules/inference/inference.service.ts:1497-1801 | the journal of everything written and sent during the turn: one row is inserted pending and ends settled, neither its status nor its text ever goes back, and whenever an event is sent the stored text is a prefix of all text sent, missing fewer than 200 characters; if nobody aborts, the row is complete with the whole text if and only if no event fails and nothing is thrown, and otherwise an error, and the client is sent the first failure's error or what was thrown, then the end |
| MemberTurn.StreamChat | apps/api/src/modules/inference/inference.service.ts:262-613 | the same for a single agent's chat, where an error that looks like an abort settles the row as an interruption does |
| MemberTurn.FailureMeans | apps/api/src/modules/inference/inference.service.ts:1683-1756 | a reply fails if and only if some event does or something is thrown, and with which error |
| MemberTurn.LastUsageMeans | apps/api/src/modules/inference/inference.service.ts:1668-1682 | the usage that counts is the last one reported |
| MemberTurn.ForwardedCarries | apps/api/src/modules/inference/inference.service.ts:1643-1667 | the client is sent all text and all reasoning of the events consumed, and nothing else |
| MemberTurn.AlwaysSettled | apps/api/src/modules/inference/inference.service.ts:1698-1801 | a turn's row, the speaker's, ends settled with exactly the text the client was sent, or the interruption notice if that is none; the client was told its number first |
| MemberTurn.CrashRecovery | apps/api/src/database/database.service.ts:157-176 | if the process dies after any effect of a turn, recovery leaves nothing under way, makes the turn's row an error if it was, and keeps all text any write had stored, and all but fewer than 200 characters of what the client had been shown |
| Compaction.Chat.BeginCompaction | apps/api/src/modules/inference/inference.service.ts:2263-2325 | the atomic read: everything from the boundary on except the most recent messages is passed; it is refused if and only if none of that is usable |
| Compaction.Chat.FinishCompaction | apps/api/src/modules/inference/inference.service.ts:2390-2420 | the atomic write: the trimmed reply and the boundary of this compaction over whatever is stored; the messages stay |
| Compaction.StepKeepsInv | apps/api/src/modules/inference/inference.service.ts:2258-2420 | every step of posts, turns, flushes, restarts and compactions keeps the invariant of the stored summary and of every compaction in flight |
| Compaction.RunInv | apps/api/src/modules/inference/inference.service.ts:2258-2420 | the invariant holds after every run |
| Compaction.CoveredIff | apps/api/src/modules/inference/inference.service.ts:2272-2425 | in every reachable state a message below the boundary was passed by exactly one compaction, and is in the summary if and only if it was usable then and no later reply was blank; above, never |
| Compaction.SentIff | apps/api/src/modules/inference/context-construction.service.ts:206-277 | in a single agent's chat or a team's, the builder sends a message, framed, if and only if it is complete, not blank, not below the boundary and not above a broadcast's maximum |
| Compaction.NeitherLostNorDoubled | apps/api/src/modules/inference/inference.service.ts:2272-2425 | in both kinds of chat every message reaches the model in exactly one way, or in none for exactly one of four reasons; where it is summarised, the system prompt sent ends in the stored summary behind its heading |
| Compaction.LosslessIff | apps/api/src/modules/inference/inference.service.ts:2272-2425 | nothing usable below the boundary is missing from the summary if and only if nothing passed unfinished was finished and no later reply was blank |
| Compaction.CarefulIsLossless | apps/api/src/modules/inference/inference.service.ts:2272-2425 | if every compaction of a run begins while nothing it passes is under way and every reply has text, nothing is lost |
| Compaction.BoundaryMovesBack | apps/api/src/modules/inference/inference.service.ts:2390-2420 | a run in which the boundary moves backwards and nothing is lost |
| Compaction.UnfinishedReplyIsLost | apps/api/src/modules/inference/inference.service.ts:2288-2325 | a reply under way when it is passed, and finished before the write, is neither summarised nor sent |
| Compaction.UnfinishedReplyReachable | apps/api/src/modules/inference/inference.service.ts:2288-2325 | such a state is reached by asking and compacting while the answer arrives |
| Compaction.BlankReplyForgets | apps/api/src/modules/inference/inference.service.ts:2390-2402 | a blank summary reply is stored and the history it stands for is gone |
| Context.Select | apps/api/src/modules/inference/context-construction.service.ts:206-318 | pushing message by message gives the admitted and the rejected messages, each with the first reason that applies |
| Context.DropOldest | apps/api/src/modules/inference/context-construction.service.ts:336-355 | shifting from the front drops exactly as many as needed, but never the last |
| Context.BuildContextPure | apps/api/src/modules/inference/context-construction.service.ts:171-410 | the builder's loops compute the specified context or refusal |
| Context.PromptMeans | apps/api/src/modules/inference/context-construction.service.ts:127-160 | the system prompt is template, personality, instructions and memories as far as they are not blank, trimmed, in that order, then the summary behind its heading, joined by blank lines; none if and only if all five are blank |
| Context.FramedMeans | apps/api/src/modules/inference/context-construction.service.ts:285-300 | a message is sent with its content last, and alone unless another agent of a team wrote it; then behind a banner with that agent's name and role |
| Context.CostEstimated | apps/api/src/modules/inference/context-construction.service.ts:319-372 | the cost reported is four tokens and a quarter of the length, rounded up, for the prompt and each message, and is within the window |
| Context.TruncateKeepsLongestSuffix | apps/api/src/modules/inference/context-construction.service.ts:319-372 | `truncate_oldest` keeps the longest suffix that fits, and refuses if and only if the prompt with the newest eligible message does not fit |
| Context.RefuseAgrees | apps/api/src/modules/inference/context-construction.service.ts:319-372 | `refuse` succeeds if and only if everything eligible fits, sends all of it, and then the other strategy gives the same context |
| Context.NothingLost | apps/api/src/modules/inference/context-construction.service.ts:206-393 | messages sent and messages left out are together a permutation of the input |
| Context.SentInSequence | apps/api/src/modules/inference/context-construction.service.ts:206-393 | messages are sent in sequence order, each admitted and framed by its own rule |
| Context.SentIffAllowed | apps/api/src/modules/inference/context-construction.service.ts:206-277 | where nothing is truncated, exactly the messages that no rule keeps out are sent, each with its framed text |
| Context.RecoveredNotSent | apps/api/src/modules/inference/context-construction.service.ts:206-232 | a row that was under way at a crash is never sent by a context built from the recovered rows |
| Context.IsolatedAboveBoundary | apps/api/src/modules/inference/context-construction.service.ts:262-277 | messages numbered above the captured maximum change neither prompt nor messages nor estimate |
| Schedule.TurnsBounded | apps/api/src/modules/inference/inference.service.ts:1046-1048 | a schedule never takes more turns than its limit |
| Schedule.PlayTaken | apps/api/src/modules/inference/inference.service.ts:1092-1414 | every schedule is made of turns: each is asked about the history extended by what was said before it and follows from the one before; the schedule ends where nobody answers, no turn follows, or at the limit |
| Teams.ExecuteMemberTurn | apps/api/src/modules/inference/inference.service.ts:908-1020 | a turn without streaming stores the whole reply as one complete row of the member, or changes nothing; unless aborted, it stores it if and only if the context fits and the reply arrives without failure |
| Teams.CompleteTurn | apps/api/src/modules/inference/inference.service.ts:1112-1128 | a failed turn leaves an error row of its member if and only if others succeeded before |
| Teams.CompleteSequential | apps/api/src/modules/inference/inference.service.ts:1092-1138 | persists what the schedule says, all of it unless aborted |
| Teams.CompleteCoordinator | apps/api/src/modules/inference/inference.service.ts:1143-1240 | persists what the schedule says, all of it unless aborted |
| Teams.CompleteBroadcast | apps/api/src/modules/inference/inference.service.ts:1244-1302 | persists what the schedule says, all of it unless aborted |
| Teams.CompleteAutonomous | apps/api/src/modules/inference/inference.service.ts:1306-1414 | persists what the schedule says, all of it unless aborted |
| Teams.StreamTurn | apps/api/src/modules/inference/inference.service.ts:1497-1801 | a streamed turn moves the run to the schedule's next turn, or ends it with its row settled; the client has heard exactly what was said |
| Teams.StreamSequential | apps/api/src/modules/inference/inference.service.ts:1806-1846 | persists what the schedule says and sends a trace in which the client hears exactly that; cut short or failed, it leaves the unfinished turn's row with the text that was sent, and the trace of a failure ends in its error |
| Teams.StreamCoordinator | apps/api/src/modules/inference/inference.service.ts:1851-1955 | persists what the schedule says and sends a trace in which the client hears exactly that; cut short or failed, it leaves the unfinished turn's row with the text that was sent, and the trace of a failure ends in its error |
| Teams.StreamBroadcast | apps/api/src/modules/inference/inference.service.ts:1960-2011 | persists what the schedule says and sends a trace in which the client hears exactly that; cut short or failed, it leaves the unfinished turn's row with the text that was sent, and the trace of a failure ends in its error |
| Teams.StreamAutonomous | apps/api/src/modules/inference/inference.service.ts:2016-2118 | persists what the schedule says and sends a trace in which the client hears exactly that; cut short or failed, it leaves the unfinished turn's row with the text that was sent, and the trace of a failure ends in its error |
| Traces.TurnTrace | apps/api/src/modules/inference/inference.service.ts:1571-1801 | a turn is one piece of the trace's grammar and reports its usage once, if it completes |
| Traces.TurnFails | apps/api/src/modules/inference/inference.service.ts:1712-1755 | a trace in which a turn fails is whole turns, the turn as far as it got, its error and the end |
| Traces.TurnHeard | apps/api/src/modules/inference/inference.service.ts:1571-1801 | a turn is heard with its speaker and all its text so far; if it completes, as one message |
| Traces.ClosingTrace | apps/api/src/modules/inference/inference.service.ts:879-903 | the summed usage, unless zero, and the end close the trace |
| Traces.ClosingSums | apps/api/src/modules/inference/inference.service.ts:879-903 | the usages of all completed turns are summed part by part, and are sent unless no input and no output was counted |
| Traces.Turns | apps/api/src/modules/inference/inference.service.ts:1806-2118 | a trace is a concatenation of whole turns, with at most one unfinished turn behind them |
| Traces.TurnsTraced | apps/api/src/modules/inference/inference.service.ts:1806-2118 | and every such concatenation is a trace |
| Traces.DoneOnlyLast | apps/api/src/modules/inference/inference.service.ts:879-903 | the end comes at most once and only last |
| TeamRuns.TurnBound | apps/api/src/modules/inference/inference.service.ts:1046-1048 | at most min(max(1, n), 10) turns, two under a coordinator, and everybody at most once in a sequence or broadcast |
| TeamRuns.LeadSpeaksFirst | apps/api/src/modules/inference/inference.service.ts:1157-1164 | in coordinated and autonomous runs the first flagged member speaks first; without one the first whose role has "coordinator" or "router"; without one the first of all |
| TeamRuns.TargetAddressed | apps/api/src/modules/inference/inference.service.ts:1207-1217 | a marker refers, among the other members, to the first with that identifier, else the first with that name, else the first whose name is part of it or the other way round, else to nobody |
| TeamRuns.SequentialRuns | apps/api/src/modules/inference/inference.service.ts:1092-1138 | members are asked in order, each about what was said before, and all of them up to the limit unless one finishes or gives nothing |
| TeamRuns.BroadcastRuns | apps/api/src/modules/inference/inference.service.ts:1244-1302 | members are asked in order with the sequence captured at the start, all of them up to the limit unless one gives nothing |
| TeamRuns.CoordinatorRuns | apps/api/src/modules/inference/inference.service.ts:1143-1240 | the lead is asked, with the directive if there are others; if two turns are allowed, the member its reply delegates to is asked as well, if and only if there is one |
| TeamRuns.AutonomousRuns | apps/api/src/modules/inference/inference.service.ts:1306-1414 | the lead starts, each further speaker is the one the previous speaker handed over to, and the run ends at the limit, where a speaker finishes it or hands over to nobody, or where one gives nothing |
| TeamRuns.NobodyFollowsThemselves | apps/api/src/modules/inference/inference.service.ts:1330-1408 | no autonomous speaker follows itself |
| TeamRuns.CutIndependent | apps/api/src/modules/inference/inference.service.ts:1497-2118 | the schedule depends on the words of the replies, not on how they are cut into deltas |
| TeamRuns.BothWaysPersistTheSame | apps/api/src/modules/inference/inference.service.ts:1092-2118 | without aborts and failures, streaming and non-streaming runs leave the same agents, contents and sequence numbers |
| TeamContext.TurnIsolated | apps/api/src/modules/inference/inference.service.ts:1256-1294 | a broadcast turn gets the system prompt, messages and estimate it would get if later rows were not there, whatever they are |
| TeamContext.AskedAs | apps/api/src/modules/inference/context-construction.service.ts:469-487 | a member is asked with its own template and personality, then its instructions, the turn's directive and the directive for its role, then the chat's summary |
| TeamContext.BroadcastIsIndependent | apps/api/src/modules/inference/inference.service.ts:1256-1294 | a broadcast says what its members say when each is asked about the history before it alone |
| TeamContext.LateReplyShownIff | apps/api/src/modules/inference/context-construction.service.ts:206-277 | once a row that was under way is completed during a broadcast, later members are shown it if and only if it has text and lies between the compaction boundary and the captured maximum |
| TeamContext.LateReplyReachable | apps/api/src/modules/inference/inference.service.ts:1256-1294 | a run in which that happens |
| Calendar.Civil | apps/api/src/modules/budget/period-window.ts:108-129 | the date of a day number is valid and has that day number |
| Calendar.CivilInverse | apps/api/src/modules/budget/period-window.ts:108-129 | and it is the only one |
| Calendar.YearStep | apps/api/src/modules/budget/period-window.ts:124-129 | consecutive years are 365 or 366 days apart, by the Gregorian rule |
| PeriodWindow.PeriodEnclosesToday | apps/api/src/modules/budget/period-window.ts:73-122 | the dates enclose today: today alone, the week from Monday, or the month from its first to the first of the month after it |
| PeriodWindow.SolverExact | apps/api/src/modules/budget/period-window.ts:151-157 | if the clock ever shows a reading, it shows it at the instant returned, for any offsets and either side of a transition |
| PeriodWindow.SkippedMidnight | apps/api/src/modules/budget/period-window.ts:138-157 | where the result for a skipped midnight lies, exactly |
| PeriodWindow.SkippedMidnightWest | apps/api/src/modules/budget/period-window.ts:138-157 | a skipped midnight that is resolved to the previous day |
| PeriodWindow.WindowContainsNowIff | apps/api/src/modules/budget/period-window.ts:53-70 | if both midnights exist, exactly when the window contains now, in terms of the transition, the offsets, the two midnights and now |
| PeriodWindow.WindowContainsNow | apps/api/src/modules/budget/period-window.ts:53-70 | if both midnights exist once, it does |
| PeriodWindow.FixedOffsetContainsNow | apps/api/src/modules/budget/period-window.ts:53-70 | where the offset never changes, it always does |
| PeriodWindow.RepeatedMidnightEast | apps/api/src/modules/budget/period-window.ts:53-70 | a day in which the window starts after now |
| PeriodWindow.WindowsShareEdges | apps/api/src/modules/budget/period-window.ts:53-70 | in any zone each window ends where the next starts |
| PeriodWindow.WindowForward | apps/api/src/modules/budget/period-window.ts:53-70 | where offsets lie within a day of each other no window is reversed |
| PeriodWindow.SpendAddsUp | apps/api/src/modules/budget/period-window.ts:53-70 | spend summed over consecutive windows is the spend over their union |
| Like.LiteralPrefix | apps/api/src/common/pagination/sql-query-builder.ts:156-158 | an escaped term matches itself up to ASCII case and nothing else |
| Like.SearchIsSubstring | apps/api/src/common/pagination/sql-query-builder.ts:156-158 | the search pattern matches exactly the texts that contain the term |
| Paging.FragmentOrders | apps/api/src/common/pagination/sql-query-builder.ts:90-145 | sorts by the requested key's column, then by the tiebreaker in the same direction, downwards unless `asc` is asked for; refuses exactly the keys that are not allowed; the page size is the requested one between 1 and 100, or 50, and the offset the requested one, or 0 |
| Paging.UniqueArrangement | apps/api/src/common/pagination/sql-query-builder.ts:125-145 | a table has one sorted arrangement if and only if no two rows tie |
| Paging.PagesPartition | apps/api/src/common/pagination/sql-query-builder.ts:125-145 | with a unique tiebreaker the pages add up to that arrangement, every row once, though each query sorts anew |
| ContentType.ExtractTextSample | apps/api/src/file-storage/content-type.ts:365-402 | the loop returns the head without byte-order mark, unless it has a NUL byte or more than two control characters |
| ContentType.HeadDecides | apps/api/src/file-storage/content-type.ts:118-402 | the first 4096 bytes decide the content type |
| ContentType.TextIff | apps/api/src/file-storage/content-type.ts:365-402 | bytes are looked at as text if and only if their head, without byte-order mark, has no NUL byte and at most two control characters |
| ContentType.ImagesDetected | apps/api/src/file-storage/content-type.ts:129-165 | the signatures of JPEG, PNG and GIF give their types, whatever follows |
| ContentType.ContainersDetected | apps/api/src/file-storage/content-type.ts:167-196 | RIFF with its form and ISO base media with its brand give WebP, WAV, AVIF or MP4 |
| ContentType.ShortDetected | apps/api/src/file-storage/content-type.ts:198-254 | the short signatures give BMP, TIFF, ICO, PDF, GZIP and ZIP unless a container fits |
| ContentType.SqliteDetected | apps/api/src/file-storage/content-type.ts:256-262 | the SQLite header gives its type, whatever follows |
| ContentType.MediaDetected | apps/api/src/file-storage/content-type.ts:272-309 | the remaining signatures give Ogg, WebM and MP3 unless a container or an archive mark fits |
| ContentType.AllowsIff | apps/api/src/file-storage/content-type.ts:437-446 | a type is allowed by the wildcard of all types, by itself and by the wildcard of its family, and by nothing else |
| FileStorage.WriteStream | apps/api/src/file-storage/file-storage.service.ts:260-351 | under every chunking the streamed write agrees with the buffered one on acceptance, on type and on which limit rejects |
| FileStorage.StoredIff | apps/api/src/file-storage/content-type.ts:420-457 | a buffer is stored if and only if it is within the limit and its detected type is allowed; too large comes before unsupported |
| FileStorage.StatAgrees | apps/api/src/file-storage/file-storage.service.ts:460-505 | a later look at a stored file reports the type reported when it was stored |
| Migrations.Database.Exec | apps/api/src/database/schema-migrations.ts:470-510 | a statement changes the schema or fails as SQLite does |
| Migrations.Database.ApplyMigration | apps/api/src/database/schema-migrations.ts:470-510 | one transaction: all statements, duplicate columns passed over, then the ledger entry |
| Migrations.Database.RunMigrations | apps/api/src/database/schema-migrations.ts:441-527 | the runner, stopped after any number of commits, leaves the specified database |
| Migrations.RunUpgradable | apps/api/src/database/schema-migrations.ts:441-527 | a run keeps a database upgradable wherever it dies, and makes it current if it does not |
| Migrations.RunsConverge | apps/api/src/database/schema-migrations.ts:374-527 | after any number of runs that died, a further one ends with the current columns and every name once, even if frozen statements create tables with fewer columns than today's |
| Migrations.CurrentStays | apps/api/src/database/schema-migrations.ts:422-527 | a run on a current database changes nothing |
| Migrations.OldVersionUpgradable | apps/api/src/database/schema-migrations.ts:374-420 | every older bootstrap, with any prefix of its migrations recorded, can be brought up to date |
| Migrations.CurrentPlanWellFormed | apps/api/src/database/schema-migrations.ts:374-420 | the migrations in use only bring what the bootstrap has as well |
| Migrations.CurrentPlanConverges | apps/api/src/database/schema-migrations.ts:374-527 | so the runner converges from the empty database and from every older one |
| PathSafety.RelativeCheckExact | apps/api/src/file-storage/path-safety.ts:110-127 | the relative-path check accepts exactly the paths below the root |
| PathSafety.PrefixCheckExact | apps/api/src/file-storage/path-safety.ts:129-151 | the prefix check accepts exactly the paths below the root, unless the root is `/` |
| PathSafety.AcceptedIffBelow | apps/api/src/file-storage/path-safety.ts:89-152 | a safe reference is accepted if and only if walking its segments ends below the root; the two checks agree except at the root `/` |
| Identifiers.NewId | apps/api/src/common/persistence/identifiers.ts:27-49 | filling the bytes from the last one down gives the big-endian timestamp, version and variant |
| Identifiers.IdsSortByTimestamp | apps/api/src/common/persistence/identifiers.ts:27-63 | identifier texts sort by timestamp modulo 2^48, whatever the random bytes |
| Identifiers.IdsSortByTimestampBelow48Bits | apps/api/src/common/persistence/identifiers.ts:27-63 | below 2^48 a smaller timestamp gives a smaller text |
| Identifiers.IdLayout | apps/api/src/common/persistence/identifiers.ts:27-63 | the first twelve hex digits are the timestamp; version and variant are those of section 5.7 of RFC 9562 |
| Identifiers.IdKeepsRandom | apps/api/src/common/persistence/identifiers.ts:27-63 | every random byte can be read back from the text, but for the bits that version and variant take |

## Left out

- Anthropic.AlwaysCompletes: at least one complete event, not exactly one terminal event, because the loop does not return after one.
- MemberTurn.StreamMemberTurn: the checkpoint that is due after 500 ms may come at any time; database writes succeed and the generator is driven to its end.
- TeamContext.BroadcastIsIndependent: no row that was there before is changed by another request meanwhile; `LateReplyShownIff` is why.
- PeriodWindow.SpendAddsUp: no window is reversed; `WindowForward` gives a sufficient condition.
- SseFraming.UnterminatedEventDelivered: an unterminated line that is neither data nor a comment is excluded, because there the code does otherwise.
- PeriodWindow.WindowContainsNow: zones with at most one transition; years before 100, which `Date.UTC` shifts, are excluded.
- `fetch`, timeouts, readers, decoding of bytes to text, file handles, symbolic links: input and output. Chunks are given as texts or byte sequences.
- Decoded JSON whose fields have the wrong type: every decoded value but `null` is read without throwing.
- Mapping of upstream failures to error classes and HTTP statuses, redaction of secrets, key masking.
- Retries on a conflicting sequence number, failing writes after a row is complete, and a consumer that abandons the generator.
- Usage rows, token counts, time stamps and titles of chats; the wording of directives and summaries beyond what rules depend on.
- Other requests that write to a chat while a team run is in progress, except in the step machine of `Compaction` and in `TurnIsolated`, whose later rows are arbitrary.
- A reply without streaming is taken to be the text that streaming would deliver in pieces.
- What a summary says: a reply with text is taken to account for all messages in its prompt, a blank one for none.
- The memory seam of the context builder beyond its position in the system prompt, and the inspectable breakdown.
- SQL text: fragments are their `ORDER BY` terms and bound parameters; a row is the rank of each column's value.
- Indexes, constraints, seed rows and foreign keys of the schema; the bootstrap is its tables with their columns.
- Windows path rules and percent-decoding itself; a root is an absolute normalised path.
- `Intl` formatting: a zone is a function from instants to offsets.
- CRUD services, request validation, controllers, encryption, the web interface and the desktop shell: single branches or user interface.
