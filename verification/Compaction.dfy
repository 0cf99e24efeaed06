/** Compaction of a chat's history into a summary and a boundary, while messages keep arriving,
    generations run, the process restarts, and other compactions are under way. */
module Compaction {
  import opened Text
  import opened Transcript
  import opened Messages
  import Context

  /** The summary text, and the sequence numbers of the messages it accounts for. A blank text
      accounts for none. */
  datatype Summary = Summary(text: string, covered: set<nat>)

  /** One compaction that led to the stored summary: the sequence numbers `[from, to)` it passed, the
      rows it read, and the reply it stored. */
  datatype Pass = Pass(from: nat, to: nat, seen: seq<Row>, reply: string)

  /** A chat: its messages, and the summary and boundary that are always written together. */
  datatype Record = Record(rows: seq<Row>, summary: Option<Summary>, boundary: Option<nat>, lineage: seq<Pass>)

  /** A compaction between its read and its write. */
  datatype Job = Job(pass: Pass, prior: Option<Summary>, priorLineage: seq<Pass>)

  /** Complete, with text: what a summary or a prompt can carry. */
  predicate Usable(r: Row) {
    r.status == Completed && Trim(r.content) != ""
  }

  function FromSequence(rows: seq<Row>, from: nat): seq<Row> {
    if rows == [] then []
    else (if rows[0].sequence >= from then [rows[0]] else []) + FromSequence(rows[1..], from)
  }

  function UsableSequences(rows: seq<Row>): set<nat> {
    set i | 0 <= i < |rows| && Usable(rows[i]) :: rows[i].sequence
  }

  /** The read: which messages would be folded into the summary, unless there are none. A boundary
      of zero counts as none. */
  function Read(c: Record, preserveRecentCount: int): Option<Job> {
    var from := if c.boundary.Some? then c.boundary.value else 0;
    var uncompacted := FromSequence(c.rows, from);
    if preserveRecentCount < 0 || |uncompacted| <= preserveRecentCount then None
    else
      var toCompact := uncompacted[..|uncompacted| - preserveRecentCount];
      if UsableSequences(toCompact) == {} then None
      else
        var to := toCompact[|toCompact| - 1].sequence + 1;
        Some(Job(Pass(from, to, c.rows, ""), c.summary, c.lineage))
  }

  function BoundaryOf(boundary: Option<nat>): nat {
    if boundary.Some? then boundary.value else 0
  }

  /** Some usable message is not below the boundary and not among the most recent ones. */
  predicate SomethingToPass(rows: seq<Row>, from: nat, preserve: int) {
    exists i | 0 <= i < |rows| && i < |rows| - preserve :: rows[i].sequence >= from && Usable(rows[i])
  }

  /** The messages a pass puts into the prompt. */
  function Prompted(p: Pass): set<nat> {
    set i | 0 <= i < |p.seen| && p.from <= p.seen[i].sequence < p.to && Usable(p.seen[i]) :: p.seen[i].sequence
  }

  /** What the reply accounts for: the prompt carries the prior summary unless that is blank. */
  function Folded(prior: Option<Summary>, p: Pass): set<nat> {
    if Trim(p.reply) == "" then {}
    else Prompted(p) + (if prior.Some? && Trim(prior.value.text) != "" then prior.value.covered else {})
  }

  /** The write: summary and boundary of this compaction, over whatever is stored. */
  function Written(c: Record, job: Job, reply: string): Record {
    var pass := job.pass.(reply := Trim(reply));
    c.(summary := Some(Summary(Trim(reply), Folded(job.prior, pass))),
       boundary := Some(pass.to),
       lineage := job.priorLineage + [pass])
  }

  /** The chat row and its messages. */
  class Chat {
    var rows: seq<Row>
    var summary: Option<Summary>
    var boundary: Option<nat>
    ghost var lineage: seq<Pass>

    ghost function View(): Record
      reads this
    {
      Record(rows, summary, boundary, lineage)
    }

    /** Everything before the call to the model, in one go. */
    method BeginCompaction(preserveRecentCount: int) returns (pass: Option<Pass>, prior: Option<Summary>)
      ensures var job := Read(View(), preserveRecentCount);
              && (pass.Some? <==> job.Some?)
              && (job.Some? ==> pass.value == job.value.pass && prior == job.value.prior)
      ensures Numbered(rows) ==>
                && (pass.Some? <==> preserveRecentCount >= 0 && SomethingToPass(rows, BoundaryOf(boundary), preserveRecentCount))
                && (pass.Some? ==> pass.value == Pass(BoundaryOf(boundary), |rows| - preserveRecentCount + 1, rows, ""))
    {
      if Numbered(rows) { ReadMeans(View(), preserveRecentCount); }
      var from := if boundary.Some? then boundary.value else 0;
      var uncompacted := FromSequence(rows, from);
      if preserveRecentCount < 0 || |uncompacted| <= preserveRecentCount { return None, None; }
      var toCompact := uncompacted[..|uncompacted| - preserveRecentCount];
      if UsableSequences(toCompact) == {} { return None, None; }
      return Some(Pass(from, toCompact[|toCompact| - 1].sequence + 1, rows, "")), summary;
    }

    /** The transaction after the call to the model. */
    method FinishCompaction(pass: Pass, prior: Option<Summary>, ghost priorLineage: seq<Pass>, reply: string)
      modifies this
      ensures View() == Written(old(View()), Job(pass, prior, priorLineage), reply)
      ensures rows == old(rows) && boundary == Some(pass.to) && summary.Some? && summary.value.text == Trim(reply)
    {
      var text := Trim(reply);
      summary := Some(Summary(text, Folded(prior, pass.(reply := text))));
      boundary := Some(pass.to);
      lineage := priorLineage + [pass.(reply := text)];
    }
  }

  // ---------------------------------------------------------------------------------------------
  // Runs
  // ---------------------------------------------------------------------------------------------

  /** A chat and the compactions in flight. */
  datatype State = State(chat: Record, jobs: seq<Job>)

  datatype Step =
    | Post(role: Role, author: Option<string>, content: string)
    | StartTurn(agentId: string)
    | Reply(agentId: string, content: string)
    | RecordError(agentId: string)
    | Flush(index: nat, content: string, status: Status)
    | Restart
    | BeginCompaction(preserveRecentCount: int)
    | FinishCompaction(job: nat, reply: string)
    | AbandonCompaction(job: nat)

  const EMPTY := State(Record([], None, None, []), [])

  function Without<T>(s: seq<T>, i: nat): seq<T>
    requires i < |s|
  {
    s[..i] + s[i + 1..]
  }

  /** One atomic step. A generation only ever updates its own row, and only while it is under way. */
  function Apply(s: State, step: Step): State {
    var rows := s.chat.rows;
    match step
    case Post(role, agent, content) => s.(chat := s.chat.(rows := Appended(rows, role, agent, content, Completed)))
    case StartTurn(agent) => s.(chat := s.chat.(rows := Appended(rows, Assistant, Some(agent), "", Pending)))
    case Reply(agent, content) => s.(chat := s.chat.(rows := Appended(rows, Assistant, Some(agent), content, Completed)))
    case RecordError(agent) => s.(chat := s.chat.(rows := Appended(rows, Assistant, Some(agent), FAILED_TURN, Errored)))
    case Flush(i, content, status) =>
      if i < |rows| && Live(rows[i]) && status != Pending
      then s.(chat := s.chat.(rows := Updated(rows, i, content, status))) else s
    case Restart => State(s.chat.(rows := Swept(rows)), [])
    case BeginCompaction(preserve) =>
      var job := Read(s.chat, preserve);
      if job.Some? then s.(jobs := s.jobs + [job.value]) else s
    case FinishCompaction(j, reply) =>
      if j < |s.jobs| then State(Written(s.chat, s.jobs[j], reply), Without(s.jobs, j)) else s
    case AbandonCompaction(j) => if j < |s.jobs| then s.(jobs := Without(s.jobs, j)) else s
  }

  function Run(steps: seq<Step>): State {
    if steps == [] then EMPTY else Apply(Run(steps[..|steps| - 1]), steps[|steps| - 1])
  }

  // ---------------------------------------------------------------------------------------------
  // The invariant
  // ---------------------------------------------------------------------------------------------

  /** Rows only grow: they keep their number, and once settled they never change. */
  predicate Grown(before: seq<Row>, after: seq<Row>) {
    && |before| <= |after|
    && forall i :: 0 <= i < |before| ==>
         after[i].sequence == before[i].sequence && (!Live(before[i]) ==> after[i] == before[i])
  }

  predicate ValidPass(p: Pass, rows: seq<Row>) {
    && Numbered(p.seen) && Grown(p.seen, rows)
    && p.from < p.to <= |p.seen| + 1
  }

  /** Each pass starts where the one before it ended, the first at the beginning. */
  predicate Chained(lineage: seq<Pass>) {
    && (lineage != [] ==> lineage[0].from == 0)
    && forall i :: 0 <= i < |lineage| - 1 ==> lineage[i + 1].from == lineage[i].to
  }

  /** The sequence numbers a lineage accounts for. */
  function CoveredBy(lineage: seq<Pass>): set<nat> {
    if lineage == [] then {}
    else
      var last := lineage[|lineage| - 1];
      if Trim(last.reply) == "" then {} else CoveredBy(lineage[..|lineage| - 1]) + Prompted(last)
  }

  function End(lineage: seq<Pass>): nat {
    if lineage == [] then 0 else lineage[|lineage| - 1].to
  }

  ghost predicate Sound(rows: seq<Row>, summary: Option<Summary>, lineage: seq<Pass>) {
    && Chained(lineage)
    && (forall i :: 0 <= i < |lineage| ==> ValidPass(lineage[i], rows))
    && (summary.None? <==> lineage == [])
    && (summary.Some? ==>
          summary.value.covered == CoveredBy(lineage) && summary.value.text == lineage[|lineage| - 1].reply)
  }

  ghost predicate SoundJob(rows: seq<Row>, job: Job) {
    && Sound(rows, job.prior, job.priorLineage)
    && ValidPass(job.pass, rows) && job.pass.from == End(job.priorLineage)
  }

  ghost predicate Inv(s: State) {
    && Numbered(s.chat.rows)
    && Sound(s.chat.rows, s.chat.summary, s.chat.lineage)
    && (s.chat.boundary == if s.chat.lineage == [] then None else Some(End(s.chat.lineage)))
    && forall j :: 0 <= j < |s.jobs| ==> SoundJob(s.chat.rows, s.jobs[j])
  }

  lemma GrownSound(before: seq<Row>, after: seq<Row>, summary: Option<Summary>, lineage: seq<Pass>)
    requires Grown(before, after) && Sound(before, summary, lineage)
    ensures Sound(after, summary, lineage)
  {}

  /** Changing the messages by growth keeps everything about the summaries. */
  lemma GrowthKeepsInv(s: State, rows: seq<Row>)
    requires Inv(s) && Grown(s.chat.rows, rows) && Numbered(rows)
    ensures Inv(s.(chat := s.chat.(rows := rows)))
  {
    GrownSound(s.chat.rows, rows, s.chat.summary, s.chat.lineage);
    forall j | 0 <= j < |s.jobs| ensures SoundJob(rows, s.jobs[j]) {
      GrownSound(s.chat.rows, rows, s.jobs[j].prior, s.jobs[j].priorLineage);
    }
  }

  lemma {:induction false} FromSequenceSuffix(rows: seq<Row>, from: nat, offset: nat)
    requires forall i :: 0 <= i < |rows| ==> rows[i].sequence == offset + i + 1
    ensures FromSequence(rows, from)
            == rows[if from <= offset + 1 then 0 else if from - offset - 1 >= |rows| then |rows| else from - offset - 1..]
  {
    if rows != [] {
      FromSequenceSuffix(rows[1..], from, offset + 1);
    }
  }

  lemma UsableSlice(rows: seq<Row>, start: nat, n: nat)
    requires start + n <= |rows|
    ensures UsableSequences(rows[start..start + n]) != {} <==> exists i | start <= i < start + n :: Usable(rows[i])
  {
    var slice := rows[start..start + n];
    if i :| start <= i < start + n && Usable(rows[i]) {
      assert slice[i - start] == rows[i] && slice[i - start].sequence in UsableSequences(slice);
    }
    if UsableSequences(slice) != {} {
      var x :| x in UsableSequences(slice);
      var i :| 0 <= i < n && Usable(slice[i]);
      assert rows[start + i] == slice[i];
    }
  }

  /** What a compaction passes: everything from the boundary on except the most recent messages. It is
      refused exactly if none of that is usable. */
  lemma ReadMeans(c: Record, preserve: int)
    requires Numbered(c.rows)
    ensures Read(c, preserve).Some? <==> preserve >= 0 && SomethingToPass(c.rows, BoundaryOf(c.boundary), preserve)
    ensures Read(c, preserve).Some? ==>
              Read(c, preserve).value
              == Job(Pass(BoundaryOf(c.boundary), |c.rows| - preserve + 1, c.rows, ""), c.summary, c.lineage)
  {
    hide UsableSequences, Usable, SomethingToPass, FromSequence;
    var from := BoundaryOf(c.boundary);
    FromSequenceSuffix(c.rows, from, 0);
    var uncompacted := FromSequence(c.rows, from);
    var start := |c.rows| - |uncompacted|;
    PassableSlice(c.rows, from, preserve, start);
    if preserve >= 0 && |uncompacted| > preserve {
      var n := |uncompacted| - preserve;
      assert uncompacted[..n] == c.rows[start..start + n];
      UsableSlice(c.rows, start, n);
    }
  }

  lemma PassableSlice(rows: seq<Row>, from: nat, preserve: int, start: int)
    requires Numbered(rows) && start == if from <= 1 then 0 else if from - 1 >= |rows| then |rows| else from - 1
    ensures SomethingToPass(rows, from, preserve)
            <==> exists i | start <= i < |rows| && i < |rows| - preserve :: Usable(rows[i])
  {
    hide Usable;
  }

  lemma ReadSound(s: State, preserve: int)
    requires Inv(s) && Read(s.chat, preserve).Some?
    ensures SoundJob(s.chat.rows, Read(s.chat, preserve).value)
  {
    hide Read, Sound, Usable;
    ReadMeans(s.chat, preserve);
  }

  lemma WrittenSound(c: Record, job: Job, reply: string)
    requires SoundJob(c.rows, job)
    ensures var w := Written(c, job, reply);
            Sound(c.rows, w.summary, w.lineage) && w.boundary == Some(End(w.lineage)) && w.rows == c.rows
  {
    var pass := job.pass.(reply := Trim(reply));
    var lineage := job.priorLineage + [pass];
    assert lineage[..|lineage| - 1] == job.priorLineage;
    assert Prompted(pass) == Prompted(job.pass);
    TrimIdempotent(reply);
    assert CoveredBy(lineage) == Folded(job.prior, pass) by {
      if job.prior.Some? && Trim(job.prior.value.text) == "" { assert CoveredBy(job.priorLineage) == {}; }
    }
    assert ValidPass(pass, c.rows);
  }

  lemma TrimIdempotent(s: string)
    ensures Trim(Trim(s)) == Trim(s)
  {
    TrimCuts(s);
    TrimTrimmed(Trim(s));
  }

  lemma AppendGrows(rows: seq<Row>, role: Role, agentId: Option<string>, content: string, status: Status)
    requires Numbered(rows)
    ensures Numbered(Appended(rows, role, agentId, content, status))
    ensures Grown(rows, Appended(rows, role, agentId, content, status))
  {
    NumberedMax(rows);
  }

  lemma UpdateGrows(rows: seq<Row>, index: nat, content: string, status: Status)
    requires Numbered(rows) && index < |rows| && Live(rows[index])
    ensures Numbered(Updated(rows, index, content, status))
    ensures Grown(rows, Updated(rows, index, content, status))
  {}

  lemma SweepGrows(rows: seq<Row>)
    requires Numbered(rows)
    ensures Numbered(Swept(rows)) && Grown(rows, Swept(rows))
  {}

  predicate ChangesRows(step: Step) {
    step.Post? || step.StartTurn? || step.Reply? || step.RecordError? || step.Flush?
  }

  lemma RowStepGrows(s: State, step: Step)
    requires Numbered(s.chat.rows) && ChangesRows(step)
    ensures var rows := Apply(s, step).chat.rows;
            Grown(s.chat.rows, rows) && Numbered(rows) && Apply(s, step) == s.(chat := s.chat.(rows := rows))
  {
    var rows := s.chat.rows;
    match step
    case Post(role, agent, content) => AppendGrows(rows, role, agent, content, Completed);
    case StartTurn(agent) => AppendGrows(rows, Assistant, Some(agent), "", Pending);
    case Reply(agent, content) => AppendGrows(rows, Assistant, Some(agent), content, Completed);
    case RecordError(agent) => AppendGrows(rows, Assistant, Some(agent), FAILED_TURN, Errored);
    case Flush(i, content, status) => if i < |rows| && Live(rows[i]) { UpdateGrows(rows, i, content, status); }
  }

  lemma FinishKeepsInv(s: State, j: nat, reply: string)
    requires Inv(s)
    ensures Inv(Apply(s, FinishCompaction(j, reply)))
  {
    hide Sound, SoundJob, Trim, Folded;
    if j < |s.jobs| {
      assert SoundJob(s.chat.rows, s.jobs[j]);
      WrittenSound(s.chat, s.jobs[j], reply);
    }
  }

  lemma StepKeepsInv(s: State, step: Step)
    requires Inv(s)
    ensures Inv(Apply(s, step))
  {
    hide Sound, Read;
    match step
    case Restart =>
      SweepGrows(s.chat.rows);
      GrowthKeepsInv(s, Swept(s.chat.rows));
    case BeginCompaction(preserve) => if Read(s.chat, preserve).Some? { ReadSound(s, preserve); }
    case FinishCompaction(j, reply) => FinishKeepsInv(s, j, reply);
    case AbandonCompaction(j) =>
    case _ =>
      RowStepGrows(s, step);
      GrowthKeepsInv(s, Apply(s, step).chat.rows);
  }

  lemma {:induction false} RunInv(steps: seq<Step>)
    ensures Inv(Run(steps))
  {
    if steps != [] {
      RunInv(steps[..|steps| - 1]);
      StepKeepsInv(Run(steps[..|steps| - 1]), steps[|steps| - 1]);
    }
  }

  // ---------------------------------------------------------------------------------------------
  // Nothing is lost or doubled
  // ---------------------------------------------------------------------------------------------

  /** The compaction whose range holds a sequence number. */
  predicate Passes(lineage: seq<Pass>, i: int, k: int) {
    0 <= i < |lineage| && lineage[i].from <= k < lineage[i].to
  }

  /** From this pass on, every reply had text. */
  predicate RepliedSince(lineage: seq<Pass>, i: nat) {
    forall j :: i <= j < |lineage| ==> Trim(lineage[j].reply) != ""
  }

  lemma {:induction false} ChainEnds(lineage: seq<Pass>, i: nat)
    requires Chained(lineage) && i < |lineage| && Forward(lineage)
    ensures lineage[i].to <= End(lineage)
    decreases |lineage|
  {
    if i < |lineage| - 1 {
      ChainEnds(lineage[..|lineage| - 1], i);
    }
  }

  predicate Forward(lineage: seq<Pass>) {
    forall j :: 0 <= j < |lineage| ==> lineage[j].from < lineage[j].to
  }

  lemma PassUnique(lineage: seq<Pass>, i: nat, j: nat, k: nat)
    requires Chained(lineage) && Forward(lineage) && Passes(lineage, i, k) && Passes(lineage, j, k)
    ensures i == j
  {
    if i < j { EarlierEnds(lineage, i, j); }
    if j < i { EarlierEnds(lineage, j, i); }
  }

  lemma {:induction false} EarlierEnds(lineage: seq<Pass>, i: nat, j: nat)
    requires Chained(lineage) && Forward(lineage) && i < j < |lineage|
    ensures lineage[i].to <= lineage[j].from
  {
    assert lineage[j - 1 + 1].from == lineage[j - 1].to;
    if i < j - 1 { EarlierEnds(lineage, i, j - 1); }
  }

  lemma DropLast(lineage: seq<Pass>)
    requires lineage != [] && Chained(lineage) && Forward(lineage)
    ensures var before := lineage[..|lineage| - 1];
            Chained(before) && Forward(before) && lineage[|lineage| - 1].from == End(before)
  {
    var n := |lineage| - 1;
    assert n > 0 ==> lineage[n - 1 + 1].from == lineage[n - 1].to;
  }

  /** Below the end of a lineage, some pass holds each number, and the number is accounted for exactly
      if that pass prompted it and no reply since was blank. */
  lemma {:induction false} CoveredExactly(lineage: seq<Pass>, k: nat) returns (i: nat)
    requires Chained(lineage) && Forward(lineage) && k < End(lineage)
    ensures Passes(lineage, i, k)
    ensures k in CoveredBy(lineage) <==> k in Prompted(lineage[i]) && RepliedSince(lineage, i)
  {
    var n := |lineage| - 1;
    var last, before := lineage[n], lineage[..n];
    DropLast(lineage);
    if k >= last.from {
      i := n;
      NotCovered(before, k);
    } else {
      i := CoveredExactly(before, k);
      RepliedSnoc(lineage, i);
    }
  }

  lemma RepliedSnoc(lineage: seq<Pass>, i: nat)
    requires i < |lineage| - 1
    ensures RepliedSince(lineage, i)
            <==> RepliedSince(lineage[..|lineage| - 1], i) && Trim(lineage[|lineage| - 1].reply) != ""
  {}

  lemma {:induction false} NotCovered(lineage: seq<Pass>, k: nat)
    requires Chained(lineage) && Forward(lineage) && k >= End(lineage)
    ensures k !in CoveredBy(lineage)
  {
    if lineage != [] {
      DropLast(lineage);
      NotCovered(lineage[..|lineage| - 1], k);
    }
  }

  function Covered(c: Record): set<nat> {
    if c.summary.Some? then c.summary.value.covered else {}
  }

  predicate BelowBoundary(c: Record, k: nat) {
    c.boundary.Some? && k < c.boundary.value
  }

  lemma SoundForward(rows: seq<Row>, summary: Option<Summary>, lineage: seq<Pass>)
    requires Sound(rows, summary, lineage)
    ensures Forward(lineage)
  {
    forall j | 0 <= j < |lineage| ensures lineage[j].from < lineage[j].to { assert ValidPass(lineage[j], rows); }
  }

  /** A message and the summary: see `CoveredIff`. */
  ghost predicate Accounted(c: Record, i: int, k: nat)
    requires 1 <= k <= |c.rows|
  {
    if BelowBoundary(c, k) then
      && Passes(c.lineage, i, k) && (forall j :: Passes(c.lineage, j, k) ==> j == i)
      && k <= |c.lineage[i].seen|
      && (k in Covered(c) <==> Usable(c.lineage[i].seen[k - 1]) && RepliedSince(c.lineage, i))
      && (Usable(c.lineage[i].seen[k - 1]) ==> c.rows[k - 1] == c.lineage[i].seen[k - 1])
    else k !in Covered(c)
  }

  lemma InvAccounted(s: State, k: nat) returns (i: nat)
    requires Inv(s) && 1 <= k <= |s.chat.rows|
    ensures Accounted(s.chat, i, k)
  {
    hide Trim, CoveredBy;
    var c := s.chat;
    SoundForward(c.rows, c.summary, c.lineage);
    i := 0;
    if BelowBoundary(c, k) {
      i := CoveredExactly(c.lineage, k);
      forall j | Passes(c.lineage, j, k) ensures j == i { PassUnique(c.lineage, i, j, k); }
      var p := c.lineage[i];
      assert ValidPass(p, c.rows);
      assert p.seen[k - 1].sequence == k;
    } else {
      NotCovered(c.lineage, k);
    }
  }

  /** In every reachable state, whatever compactions overlapped: a message below the boundary was
      passed by exactly one compaction of the stored summary's lineage, and is accounted for exactly if
      it was complete and not blank when that compaction read it and no reply since was blank. What is
      accounted for still reads as it was read. At or above the boundary nothing is accounted for. */
  lemma CoveredIff(steps: seq<Step>, k: nat) returns (i: nat)
    requires 1 <= k <= |Run(steps).chat.rows|
    ensures Accounted(Run(steps).chat, i, k)
  {
    RunInv(steps);
    i := InvAccounted(Run(steps), k);
  }

  // ---------------------------------------------------------------------------------------------
  // What the model is sent
  // ---------------------------------------------------------------------------------------------

  /** What a model is asked with, in a single agent's chat or in a team's. */
  function ContextInput(c: Record, v: Context.View): Context.Input {
    Context.InputOf(v, c.rows, if c.summary.Some? then Some(c.summary.value.text) else None, c.boundary)
  }

  predicate AboveMaximum(v: Context.View, k: nat) {
    v.maxSequence.Some? && k > v.maxSequence.value
  }

  /** A row is sent, framed as the chat's kind demands. */
  predicate SentFramed(c: Record, v: Context.View, a: Context.Assembled, r: Row) {
    var m := Context.Attributed(v, r);
    Context.Sends(a, m, Context.Framed(ContextInput(c, v), m))
  }

  /** The builder sends a message, framed, exactly if it is complete, not blank, not below the boundary and
      not above the maximum of a broadcast; in a single agent's chat, it sends it verbatim. */
  lemma SentIff(c: Record, v: Context.View, k: nat)
    requires Numbered(c.rows) && 1 <= k <= |c.rows|
    requires Context.Build(ContextInput(c, v)).Fits?
    ensures SentFramed(c, v, Context.Build(ContextInput(c, v)).context, c.rows[k - 1])
            <==> Usable(c.rows[k - 1]) && !BelowBoundary(c, k) && !AboveMaximum(v, k)
    ensures !v.isTeamChat ==> Context.Framed(ContextInput(c, v), Context.Attributed(v, c.rows[k - 1])) == c.rows[k - 1].content
  {
    var input, m := ContextInput(c, v), Context.Attributed(v, c.rows[k - 1]);
    assert input.messages[k - 1] == m;
    Context.SentIffAllowed(input, m);
    hide Context.Build;
    AllowedIff(c, v, k);
  }

  lemma AllowedIff(c: Record, v: Context.View, k: nat)
    requires Numbered(c.rows) && 1 <= k <= |c.rows|
    ensures Context.Exclusion(ContextInput(c, v), Context.Attributed(v, c.rows[k - 1])).None?
            <==> Usable(c.rows[k - 1]) && !BelowBoundary(c, k) && !AboveMaximum(v, k)
  {}

  /** What becomes of a message. */
  datatype Fate = InPrompt | Summarised | PassedUnfinished | ForgottenByBlankReply | OutsideBroadcast | NothingToSay

  function FateOf(c: Record, v: Context.View, i: nat, k: nat): Fate
    requires 1 <= k <= |c.rows|
    requires BelowBoundary(c, k) ==> Passes(c.lineage, i, k) && k <= |c.lineage[i].seen|
  {
    if !Usable(c.rows[k - 1]) then NothingToSay
    else if !BelowBoundary(c, k) then (if AboveMaximum(v, k) then OutsideBroadcast else InPrompt)
    else if !Usable(c.lineage[i].seen[k - 1]) then PassedUnfinished
    else if !RepliedSince(c.lineage, i) then ForgottenByBlankReply
    else Summarised
  }

  /** In a single agent's chat or a team's, every message reaches the model in exactly one way, or in none
      for exactly one of four reasons: it has nothing to say, it came after a broadcast began, it was not
      finished when it was passed, or a later reply was blank. */
  lemma NeitherLostNorDoubled(steps: seq<Step>, v: Context.View, k: nat) returns (i: nat)
    requires 1 <= k <= |Run(steps).chat.rows|
    requires Context.Build(ContextInput(Run(steps).chat, v)).Fits?
    ensures var c := Run(steps).chat;
            var a := Context.Build(ContextInput(c, v)).context;
            && (BelowBoundary(c, k) ==> Passes(c.lineage, i, k) && k <= |c.lineage[i].seen|)
            && (SentFramed(c, v, a, c.rows[k - 1]) <==> FateOf(c, v, i, k) == InPrompt)
            && (k in Covered(c) <==> FateOf(c, v, i, k) == Summarised)
            && (FateOf(c, v, i, k) == Summarised ==> c.summary.Some? && SummaryIsSent(c, a))
  {
    hide Run, Context.Build, SentFramed, Covered, ContextInput, SummaryIsSent;
    RunInv(steps);
    i := CoveredIff(steps, k);
    SentIff(Run(steps).chat, v, k);
    FateAccounted(Run(steps).chat, v, i, k);
    if FateOf(Run(steps).chat, v, i, k) == Summarised { SummarisedIsSent(Run(steps), v, i); }
  }

  /** The stored summary ends the system prompt. */
  predicate SummaryIsSent(c: Record, a: Context.Assembled)
    requires c.summary.Some?
  {
    a.systemPrompt.Some? && EndsWith(a.systemPrompt.value, "Context summary:\n" + Trim(c.summary.value.text))
  }

  lemma SummarisedIsSent(s: State, v: Context.View, i: nat)
    requires Inv(s) && i < |s.chat.lineage| && RepliedSince(s.chat.lineage, i)
    requires Context.Build(ContextInput(s.chat, v)).Fits?
    ensures s.chat.summary.Some? && Trim(s.chat.summary.value.text) != ""
    ensures SummaryIsSent(s.chat, Context.Build(ContextInput(s.chat, v)).context)
  {
    hide Context.Build, Trim, Context.Attribution, CoveredBy;
    assert Trim(s.chat.lineage[|s.chat.lineage| - 1].reply) != "";
    TrimCuts(s.chat.summary.value.text);
    Context.SummaryEndsPrompt(ContextInput(s.chat, v));
  }

  lemma FateAccounted(c: Record, v: Context.View, i: nat, k: nat)
    requires 1 <= k <= |c.rows| && Accounted(c, i, k)
    ensures BelowBoundary(c, k) ==> Passes(c.lineage, i, k) && k <= |c.lineage[i].seen|
    ensures k in Covered(c) <==> FateOf(c, v, i, k) == Summarised
    ensures FateOf(c, v, i, k) == InPrompt <==> Usable(c.rows[k - 1]) && !BelowBoundary(c, k) && !AboveMaximum(v, k)
  {}

  /** Nothing usable below the boundary is missing from the summary. */
  predicate Lossless(c: Record) {
    forall k :: 1 <= k <= |c.rows| && Usable(c.rows[k - 1]) && BelowBoundary(c, k) ==> k in Covered(c)
  }

  /** Everything usable was settled when it was passed, and no reply since was blank. */
  ghost predicate PassedSettled(c: Record) {
    forall k, i :: 1 <= k <= |c.rows| && Usable(c.rows[k - 1]) && Passes(c.lineage, i, k) ==>
      k <= |c.lineage[i].seen| && !Live(c.lineage[i].seen[k - 1]) && RepliedSince(c.lineage, i)
  }

  lemma PassedMessage(steps: seq<Step>, k: int, i: int)
    requires var c := Run(steps).chat;
             1 <= k <= |c.rows| && Usable(c.rows[k - 1]) && Passes(c.lineage, i, k)
    ensures var c := Run(steps).chat;
            && BelowBoundary(c, k) && k <= |c.lineage[i].seen|
            && (k in Covered(c) <==> !Live(c.lineage[i].seen[k - 1]) && RepliedSince(c.lineage, i))
  {
    RunInv(steps);
    var c := Run(steps).chat;
    SoundForward(c.rows, c.summary, c.lineage);
    ChainEnds(c.lineage, i);
    var m := CoveredIff(steps, k);
    assert ValidPass(c.lineage[i], c.rows);
  }

  /** Compaction is lossless exactly if nothing was passed unfinished that has been finished since and
      no reply after a message's pass was blank. */
  lemma LosslessIff(steps: seq<Step>)
    ensures Lossless(Run(steps).chat) <==> PassedSettled(Run(steps).chat)
  {
    hide Run, Usable, BelowBoundary, RepliedSince, Covered;
    var c := Run(steps).chat;
    forall k, i | 1 <= k <= |c.rows| && Usable(c.rows[k - 1]) && Passes(c.lineage, i, k)
      ensures BelowBoundary(c, k) && k <= |c.lineage[i].seen|
      ensures k in Covered(c) <==> !Live(c.lineage[i].seen[k - 1]) && RepliedSince(c.lineage, i)
    {
      PassedMessage(steps, k, i);
    }
    forall k | 1 <= k <= |c.rows| && BelowBoundary(c, k)
      ensures exists i :: Passes(c.lineage, i, k)
    {
      var m := CoveredIff(steps, k);
    }
  }

  /** Beginning a compaction while nothing it would pass is under way, and finishing it with some text. */
  predicate Careful(s: State, step: Step) {
    match step
    case BeginCompaction(preserve) => Read(s.chat, preserve).Some? ==> PassSettled(Read(s.chat, preserve).value.pass)
    case FinishCompaction(j, reply) => j < |s.jobs| ==> Trim(reply) != ""
    case _ => true
  }

  predicate PassSettled(p: Pass) {
    forall i :: 0 <= i < |p.seen| && p.from <= p.seen[i].sequence < p.to ==> !Live(p.seen[i])
  }

  predicate LineageSettled(lineage: seq<Pass>) {
    forall i :: 0 <= i < |lineage| ==> PassSettled(lineage[i]) && Trim(lineage[i].reply) != ""
  }

  predicate AllSettled(s: State) {
    && LineageSettled(s.chat.lineage)
    && forall j :: 0 <= j < |s.jobs| ==> PassSettled(s.jobs[j].pass) && LineageSettled(s.jobs[j].priorLineage)
  }

  lemma CarefulStep(s: State, step: Step)
    requires AllSettled(s) && Careful(s, step)
    ensures AllSettled(Apply(s, step))
  {
    hide Read, Swept, Appended;
    match step
    case BeginCompaction(preserve) =>
      if Read(s.chat, preserve).Some? { ReadKeepsLineage(s.chat, preserve); }
    case FinishCompaction(j, reply) =>
      if j < |s.jobs| {
        TrimIdempotent(reply);
        assert PassSettled(s.jobs[j].pass.(reply := Trim(reply)));
      }
    case _ =>
  }

  lemma ReadKeepsLineage(c: Record, preserve: int)
    requires Read(c, preserve).Some?
    ensures Read(c, preserve).value.priorLineage == c.lineage
  {}

  lemma {:induction false} CarefulRun(steps: seq<Step>)
    requires forall i :: 0 <= i < |steps| ==> Careful(Run(steps[..i]), steps[i])
    ensures AllSettled(Run(steps))
  {
    if steps != [] {
      hide AllSettled, Careful, Apply;
      var n := |steps| - 1;
      forall i | 0 <= i < n ensures Careful(Run(steps[..n][..i]), steps[..n][i]) {
        assert steps[..n][..i] == steps[..i];
      }
      CarefulRun(steps[..n]);
      CarefulStep(Run(steps[..n]), steps[n]);
    }
  }

  /** If every compaction begins while nothing that it passes is under way, and every reply has text, then
      nothing is ever lost, whatever else happens meanwhile. */
  lemma CarefulIsLossless(steps: seq<Step>)
    requires forall i :: 0 <= i < |steps| ==> Careful(Run(steps[..i]), steps[i])
    ensures Lossless(Run(steps).chat)
  {
    CarefulRun(steps);
    RunInv(steps);
    LosslessIff(steps);
    SettledPasses(Run(steps));
  }

  lemma SettledPasses(s: State)
    requires Inv(s) && AllSettled(s)
    ensures PassedSettled(s.chat)
  {
    var c := s.chat;
    forall k, i | 1 <= k <= |c.rows| && Usable(c.rows[k - 1]) && Passes(c.lineage, i, k)
      ensures k <= |c.lineage[i].seen| && !Live(c.lineage[i].seen[k - 1]) && RepliedSince(c.lineage, i)
    {
      assert ValidPass(c.lineage[i], c.rows) && PassSettled(c.lineage[i]);
      assert c.lineage[i].seen[k - 1].sequence == k;
    }
  }

  lemma RunSnoc(steps: seq<Step>, step: Step)
    ensures Run(steps + [step]) == Apply(Run(steps), step)
  {
    assert (steps + [step])[..|steps|] == steps;
  }

  /** With no boundary yet and nothing to preserve, a compaction reads the whole history. */
  lemma ReadAll(rows: seq<Row>)
    requires Numbered(rows) && rows != [] && Usable(rows[0])
    ensures Read(Record(rows, None, None, []), 0) == Some(Job(Pass(0, |rows| + 1, rows, ""), None, []))
  {
    FromSequenceSuffix(rows, 0, 0);
    assert rows[0..] == rows && rows[..|rows|] == rows;
    assert rows[0].sequence in UsableSequences(rows);
  }

  lemma Asked()
    ensures var rows := [Row(1, User, None, "q", Completed)];
            Run([Post(User, None, "q")]) == State(Record(rows, None, None, []), []) && Usable(rows[0])
  {
    RunSnoc([], Post(User, None, "q"));
    TrimTrimmed("q");
  }

  lemma AskedAndAnswering()
    ensures var rows := [Row(1, User, None, "q", Completed), Row(2, Assistant, Some("a"), "", Pending)];
            Run([Post(User, None, "q"), StartTurn("a")]) == State(Record(rows, None, None, []), [])
  {
    hide Trim;
    Asked();
    RunSnoc([Post(User, None, "q")], StartTurn("a"));
  }

  /** A question, and an answer under way, when a compaction reads both. */
  lemma ReadDuringReply()
    ensures var s := Run([Post(User, None, "q"), StartTurn("a"), BeginCompaction(0)]);
            var rows := [Row(1, User, None, "q", Completed), Row(2, Assistant, Some("a"), "", Pending)];
            s == State(Record(rows, None, None, []), [Job(Pass(0, 3, rows, ""), None, [])])
  {
    hide Trim, Run, Read, Appended;
    Asked();
    AskedAndAnswering();
    RunSnoc([Post(User, None, "q"), StartTurn("a")], BeginCompaction(0));
    assert [Post(User, None, "q"), StartTurn("a")] + [BeginCompaction(0)] == [Post(User, None, "q"), StartTurn("a"), BeginCompaction(0)];
    ReadAll([Row(1, User, None, "q", Completed), Row(2, Assistant, Some("a"), "", Pending)]);
  }

  /** A reply that is still being generated when a compaction reads the history and passes it, and is
      finished before that compaction writes, is neither summarised nor sent. */
  lemma UnfinishedReplyIsLost(s: State, j: nat, k: nat, content: string, reply: string)
    requires Inv(s) && j < |s.jobs| && 1 <= k <= |s.chat.rows|
    requires var pass := s.jobs[j].pass; pass.from <= k < pass.to && Live(pass.seen[k - 1])
    requires Live(s.chat.rows[k - 1]) && Trim(content) != ""
    ensures var c := Apply(Apply(s, Flush(k - 1, content, Completed)), FinishCompaction(j, reply)).chat;
            && Usable(c.rows[k - 1]) && c.rows[k - 1].content == content
            && BelowBoundary(c, k) && k !in Covered(c)
  {
    hide Trim, CoveredBy;
    var job := s.jobs[j];
    assert SoundJob(s.chat.rows, job);
    SoundForward(s.chat.rows, job.prior, job.priorLineage);
    NotCovered(job.priorLineage, k);
    assert job.pass.seen[k - 1].sequence == k;
    assert k !in Prompted(job.pass.(reply := Trim(reply)));
  }

  /** Such a state is reached by asking and compacting while the answer arrives. */
  lemma UnfinishedReplyReachable()
    ensures var s := Run([Post(User, None, "q"), StartTurn("a"), BeginCompaction(0)]);
            && Inv(s) && |s.jobs| == 1 && |s.chat.rows| == 2
            && s.jobs[0].pass.from <= 2 < s.jobs[0].pass.to
            && Live(s.jobs[0].pass.seen[1]) && Live(s.chat.rows[1])
  {
    RunInv([Post(User, None, "q"), StartTurn("a"), BeginCompaction(0)]);
    ReadDuringReply();
  }

  /** A blank reply is stored like any other, and the history it stands for is gone. */
  lemma BlankReplyForgets()
    ensures var c := Run([Post(User, None, "q"), BeginCompaction(0), FinishCompaction(0, " ")]).chat;
            |c.rows| == 1 && Usable(c.rows[0]) && BelowBoundary(c, 1) && Covered(c) == {}
  {
    hide Trim, Run, Read, Usable, Appended;
    var s1, s2, s3 := Post(User, None, "q"), BeginCompaction(0), FinishCompaction(0, " ");
    var rows := [Row(1, User, None, "q", Completed)];
    Asked();
    RunSnoc([s1], s2);
    RunSnoc([s1, s2], s3);
    assert [s1] + [s2] == [s1, s2] && [s1, s2] + [s3] == [s1, s2, s3];
    ReadAll(rows);
    var job := Job(Pass(0, 2, rows, ""), None, []);
    assert Run([s1, s2]) == State(Record(rows, None, None, []), [job]);
    assert Run([s1, s2, s3]).chat == Written(Record(rows, None, None, []), job, " ");
    SpaceIsBlank();
  }

  lemma SpaceIsBlank()
    ensures Trim(" ") == "" && Trim(Trim(" ")) == ""
  {
    TrimCuts(" ");
  }

  /** Two questions, each followed by the start of a compaction; the later compaction finishes first. */
  const OVERLAP := [
    Post(User, None, "q"), BeginCompaction(0), Post(User, None, "q"), BeginCompaction(0),
    FinishCompaction(1, "b"), FinishCompaction(0, "a")]

  const Q1 := Row(1, User, None, "q", Completed)
  const Q2 := Row(2, User, None, "q", Completed)
  const JOB1 := Job(Pass(0, 2, [Q1], ""), None, [])
  const JOB2 := Job(Pass(0, 3, [Q1, Q2], ""), None, [])

  lemma OverlapBegun()
    ensures Run(OVERLAP[..4]) == State(Record([Q1, Q2], None, None, []), [JOB1, JOB2])
  {
    hide Trim, Read, Run, Usable;
    Asked();
    OneAsked();
    OverlapStep(0);
    OverlapStep(1);
    OverlapStep(2);
    OverlapStep(3);
  }

  lemma OverlapStep(n: nat)
    requires n < |OVERLAP|
    ensures Run(OVERLAP[..n + 1]) == Apply(Run(OVERLAP[..n]), OVERLAP[n])
  {
    hide Run, Apply;
    RunStep(OVERLAP, n);
  }

  lemma RunStep(steps: seq<Step>, n: nat)
    requires n < |steps|
    ensures Run(steps[..n + 1]) == Apply(Run(steps[..n]), steps[n])
  {
    hide Run, Apply;
    RunSnoc(steps[..n], steps[n]);
    assert steps[..n] + [steps[n]] == steps[..n + 1];
  }

  lemma OneAsked()
    ensures Run(OVERLAP[..1]) == State(Record([Q1], None, None, []), [])
    ensures Read(Record([Q1], None, None, []), 0) == Some(JOB1)
    ensures Read(Record([Q1, Q2], None, None, []), 0) == Some(JOB2)
    ensures Appended([Q1], User, None, "q", Completed) == [Q1, Q2]
  {
    hide Trim, Run, Read;
    Asked();
    assert OVERLAP[..1] == [Post(User, None, "q")];
    ReadAll([Q1]);
    ReadAll([Q1, Q2]);
    hide Usable;
    NumberedMax([Q1]);
  }

  /** The boundary can move backwards, and nothing is lost by that: what the discarded summary had covered
      is sent again. */
  lemma BoundaryMovesBack()
    ensures Run(OVERLAP[..5]).chat.boundary == Some(3) && Run(OVERLAP).chat.boundary == Some(2)
    ensures Lossless(Run(OVERLAP).chat)
  {
    hide Trim, Run, Folded, Inv, PassedSettled, Lossless;
    OverlapBegun();
    OverlapStep(4);
    OverlapStep(5);
    assert OVERLAP[..6] == OVERLAP;
    assert Run(OVERLAP) == State(Written(Written(Record([Q1, Q2], None, None, []), JOB2, "b"), JOB1, "a"), []);
    assert Run(OVERLAP).chat.lineage == [JOB1.pass.(reply := Trim("a"))];
    LetterIsText();
    RunInv(OVERLAP);
    SettledPassesOf(Run(OVERLAP));
    LosslessIff(OVERLAP);
  }

  lemma LetterIsText()
    ensures Trim("a") != "" && Trim(Trim("a")) != ""
  {
    TrimTrimmed("a");
  }

  lemma SettledPassesOf(s: State)
    requires Inv(s) && |s.chat.lineage| == 1 && Trim(s.chat.lineage[0].reply) != ""
    requires forall r | r in s.chat.lineage[0].seen :: !Live(r)
    ensures PassedSettled(s.chat)
  {
    var c := s.chat;
    forall k, i | 1 <= k <= |c.rows| && Usable(c.rows[k - 1]) && Passes(c.lineage, i, k)
      ensures k <= |c.lineage[i].seen| && !Live(c.lineage[i].seen[k - 1]) && RepliedSince(c.lineage, i)
    {
      assert ValidPass(c.lineage[i], c.rows);
    }
  }
}
