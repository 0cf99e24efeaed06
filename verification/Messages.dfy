/** The messages of one chat, as rows that are appended and updated in place. */
module Messages {
  import opened Text
  import opened Transcript
  import StreamEvents

  datatype Status = Pending | Streaming | Completed | Errored

  datatype Row = Row(sequence: nat, role: Role, agentId: Option<string>, content: string, status: Status)

  const INTERRUPTED := "Generation interrupted"
  const SWEPT := "Generation interrupted unexpectedly"
  const FAILED_TURN := "Generation failed mid-team turn"

  predicate Live(r: Row) {
    r.status == Pending || r.status == Streaming
  }

  /** How far a generation has come. */
  function Rank(s: Status): nat {
    match s
    case Pending => 0
    case Streaming => 1
    case _ => 2
  }

  function MaxSequence(rows: seq<Row>): (m: nat)
    ensures forall i :: 0 <= i < |rows| ==> rows[i].sequence <= m
    ensures rows == [] ==> m == 0
    ensures rows != [] ==> exists i :: 0 <= i < |rows| && rows[i].sequence == m
  {
    if rows == [] then 0
    else
      var before, last := MaxSequence(rows[..|rows| - 1]), rows[|rows| - 1].sequence;
      assert rows[|rows| - 1].sequence == last;
      if before > last then before else last
  }

  /** Rows are numbered from 1 without gaps. */
  predicate Numbered(rows: seq<Row>) {
    forall i :: 0 <= i < |rows| ==> rows[i].sequence == i + 1
  }

  lemma NumberedMax(rows: seq<Row>)
    requires Numbered(rows)
    ensures MaxSequence(rows) == |rows|
  {
    if rows != [] { assert rows[|rows| - 1].sequence == |rows|; }
  }

  /** Rows in the order of their sequences, all different. */
  predicate Ascending(rows: seq<Row>) {
    forall i, j :: 0 <= i < j < |rows| ==> rows[i].sequence < rows[j].sequence
  }

  /** `INSERT` with the sequence `COALESCE(MAX(sequence), 0) + 1`. */
  function Appended(rows: seq<Row>, role: Role, agentId: Option<string>, content: string, status: Status): seq<Row> {
    rows + [Row(MaxSequence(rows) + 1, role, agentId, content, status)]
  }

  function Updated(rows: seq<Row>, index: nat, content: string, status: Status): seq<Row>
    requires index < |rows|
  {
    rows[index := rows[index].(content := content, status := status)]
  }

  /** Start-up recovery of one row: a generation that was under way becomes an error. */
  function SweptRow(r: Row): Row {
    if Live(r) then r.(status := Errored, content := if r.content == "" then SWEPT else r.content) else r
  }

  function Swept(rows: seq<Row>): (r: seq<Row>)
    ensures |r| == |rows| && forall i :: 0 <= i < |rows| ==> r[i] == SweptRow(rows[i])
  {
    seq(|rows|, i requires 0 <= i < |rows| => SweptRow(rows[i]))
  }

  /** Recovery makes an error of every generation that was under way, which keeps its text or gets a notice,
      and leaves everything else alone. Doing it again changes nothing. */
  lemma SweepRecovers(rows: seq<Row>)
    ensures forall i :: 0 <= i < |rows| ==>
              Swept(rows)[i] ==
              if rows[i].status == Pending || rows[i].status == Streaming
              then rows[i].(status := Errored,
                            content := if |rows[i].content| > 0 then rows[i].content else "Generation interrupted unexpectedly")
              else rows[i]
    ensures Swept(Swept(rows)) == Swept(rows)
  {}

  /** What can be observed from outside: the table after a write, or an event that is sent. */
  datatype Effect = Wrote(rows: seq<Row>) | Sent(event: StreamEvents.SseEvent)

  /** The rows on disk, and everything that was written and sent so far, in order. */
  class ChatHistory {
    var rows: seq<Row>
    ghost var journal: seq<Effect>

    method Append(role: Role, agentId: Option<string>, content: string, status: Status) returns (index: nat)
      modifies this
      ensures rows == Appended(old(rows), role, agentId, content, status)
      ensures index == |old(rows)| && index < |rows|
      ensures journal == old(journal) + [Wrote(rows)]
    {
      index := |rows|;
      rows := rows + [Row(MaxSequence(rows) + 1, role, agentId, content, status)];
      journal := journal + [Wrote(rows)];
    }

    method Update(index: nat, content: string, status: Status)
      requires index < |rows|
      modifies this
      ensures rows == Updated(old(rows), index, content, status)
      ensures journal == old(journal) + [Wrote(rows)]
    {
      rows := rows[index := rows[index].(content := content, status := status)];
      journal := journal + [Wrote(rows)];
    }

    /** Hands an event to the client. */
    method Send(event: StreamEvents.SseEvent)
      modifies this`journal
      ensures journal == old(journal) + [Sent(event)]
    {
      journal := journal + [Sent(event)];
    }

    /** Rewrites every stranded row, in one statement. */
    method SweepStranded()
      modifies this
      ensures rows == Swept(old(rows)) && journal == old(journal) + [Wrote(rows)]
      ensures forall i :: 0 <= i < |rows| ==>
                rows[i].status == (if Live(old(rows)[i]) then Errored else old(rows)[i].status)
    {
      for i := 0 to |rows|
        invariant |rows| == |old(rows)| && journal == old(journal)
        invariant forall k :: 0 <= k < |rows| ==> rows[k] == if k < i then SweptRow(old(rows)[k]) else old(rows)[k]
      {
        if Live(rows[i]) {
          var content := if rows[i].content == "" then SWEPT else rows[i].content;
          rows := rows[i := rows[i].(status := Errored, content := content)];
        }
      }
      journal := journal + [Wrote(rows)];
    }
  }
}
