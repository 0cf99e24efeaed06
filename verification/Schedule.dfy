/** Turn-taking in general: ask someone, append the answer, decide who is next. */
module Schedule {
  import opened Text
  import Transcript
  import opened Messages

  datatype Said = Said(agentId: string, content: string)

  /** What is said, and who failed to answer, if the run ended that way. */
  datatype Script = Script(said: seq<Said>, failed: Option<string>)

  /** Rules of a conversation: who a turn belongs to, what is answered to it when these messages are
      there, and which turn follows turn `k` (counted from 0) once its answer is known. */
  datatype Rules<!T> = Rules(
    speaker: T -> string, answer: (T, seq<Row>) -> Option<string>, next: (nat, T, string) -> Option<T>, limit: nat)

  function AppendReply(rows: seq<Row>, said: Said): seq<Row> {
    Appended(rows, Transcript.Assistant, Some(said.agentId), said.content, Completed)
  }

  function Extended(rows: seq<Row>, said: seq<Said>): seq<Row> {
    if said == [] then rows else AppendReply(Extended(rows, said[..|said| - 1]), said[|said| - 1])
  }

  function Before(said: seq<Said>, rest: Script): Script {
    rest.(said := said + rest.said)
  }

  /** The schedule. No turn follows the last one the limit allows. */
  function Play<T>(r: Rules<T>, rows: seq<Row>, k: nat, t: T): Script
    decreases r.limit - k
  {
    var answer := r.answer(t, rows);
    if answer.None? then Script([], Some(r.speaker(t)))
    else
      var said := Said(r.speaker(t), answer.value);
      var next := r.next(k, t, answer.value);
      if next.None? || k + 1 >= r.limit then Script([said], None)
      else Before([said], Play(r, AppendReply(rows, said), k + 1, next.value))
  }

  /** After `said`, turn `k` is about to ask `t`, and the schedule goes on from here. */
  ghost predicate AtTurn<T>(r: Rules<T>, first: T, start: seq<Row>, rows: seq<Row>, said: seq<Said>, k: nat, t: T) {
    && rows == Extended(start, said) && |said| == k
    && Play(r, start, 0, first) == Before(said, Play(r, rows, k, t))
  }

  lemma AtFirst<T>(r: Rules<T>, first: T, start: seq<Row>)
    ensures AtTurn(r, first, start, start, [], 0, first)
  {
    var p := Play(r, start, 0, first);
    assert [] + p.said == p.said;
  }

  /** No answer ends the schedule. */
  lemma AfterSilence<T>(r: Rules<T>, first: T, start: seq<Row>, rows: seq<Row>, said: seq<Said>, k: nat, t: T)
    requires AtTurn(r, first, start, rows, said, k, t) && r.answer(t, rows).None?
    ensures Play(r, start, 0, first) == Script(said, Some(r.speaker(t)))
  {
    assert said + [] == said;
  }

  lemma ExtendedSnoc(rows: seq<Row>, said: seq<Said>, x: Said)
    ensures Extended(rows, said + [x]) == AppendReply(Extended(rows, said), x)
  {
    assert (said + [x])[..|said|] == said;
  }

  /** An answer is appended, and the schedule is at its end or at its next turn. */
  lemma AfterAnswer<T>(r: Rules<T>, first: T, start: seq<Row>, rows: seq<Row>, said: seq<Said>, k: nat, t: T, content: string)
    requires AtTurn(r, first, start, rows, said, k, t) && r.answer(t, rows) == Some(content)
    ensures var x, next := Said(r.speaker(t), content), r.next(k, t, content);
            && AppendReply(rows, x) == Extended(start, said + [x])
            && said + [x] <= Play(r, start, 0, first).said
            && (next.None? || k + 1 >= r.limit ==> Play(r, start, 0, first) == Script(said + [x], None))
            && (next.Some? && k + 1 < r.limit ==>
                  AtTurn(r, first, start, AppendReply(rows, x), said + [x], k + 1, next.value))
  {
    var x, next := Said(r.speaker(t), content), r.next(k, t, content);
    ExtendedSnoc(start, said, x);
    hide Extended, AppendReply;
    if next.Some? && k + 1 < r.limit {
      var rest := Play(r, AppendReply(rows, x), k + 1, next.value);
      assert said + ([x] + rest.said) == (said + [x]) + rest.said;
    }
  }

  /** The turns a script was made of: they are asked in order, each about the history extended by what was
      said before it; each but the first is the one that follows the turn before it; and the script ends
      where nobody answers, where no turn follows, or at the limit. */
  ghost predicate Taken<T(!new)>(r: Rules<T>, rows: seq<Row>, k: nat, p: Script, turns: seq<T>) {
    && |turns| == |p.said| + (if p.failed.Some? then 1 else 0)
    && (forall i :: 0 <= i < |p.said| ==>
          p.said[i].agentId == r.speaker(turns[i]) && r.answer(turns[i], Extended(rows, p.said[..i])) == Some(p.said[i].content))
    && (forall i :: 0 < i < |turns| ==> Follows(r, k, p.said, turns, i))
    && (if p.failed.Some? then
          var last := turns[|p.said|];
          p.failed.value == r.speaker(last) && r.answer(last, Extended(rows, p.said)).None?
        else
          var n := |p.said|;
          n > 0 && (k + n >= r.limit || r.next(k + n - 1, turns[n - 1], p.said[n - 1].content).None?))
  }

  ghost predicate Follows<T(!new)>(r: Rules<T>, k: nat, said: seq<Said>, turns: seq<T>, i: nat)
    requires 0 < i < |turns| <= |said| + 1
  {
    k + i < r.limit && r.next(k + i - 1, turns[i - 1], said[i - 1].content) == Some(turns[i])
  }

  lemma {:induction false} ExtendedCons(rows: seq<Row>, x: Said, rest: seq<Said>)
    ensures Extended(rows, [x] + rest) == Extended(AppendReply(rows, x), rest)
  {
    var all := [x] + rest;
    if rest == [] {
      assert all[..0] == [] && all[0] == x;
    } else {
      assert all[..|all| - 1] == [x] + rest[..|rest| - 1];
      ExtendedCons(rows, x, rest[..|rest| - 1]);
    }
  }

  lemma TakenCons<T(!new)>(r: Rules<T>, rows: seq<Row>, k: nat, t: T, x: Said, p: Script, turns: seq<T>)
    requires Taken(r, AppendReply(rows, x), k + 1, p, turns) && turns != []
    requires x.agentId == r.speaker(t) && r.answer(t, rows) == Some(x.content)
    requires k + 1 < r.limit && r.next(k, t, x.content) == Some(turns[0])
    ensures Taken(r, rows, k, Before([x], p), [t] + turns)
  {
    hide Extended, AppendReply;
    NothingSaid(rows);
    var all, said := [t] + turns, [x] + p.said;
    assert forall i :: 0 < i < |all| ==> all[i] == turns[i - 1];
    assert forall i :: 0 < i < |said| ==> said[i] == p.said[i - 1];
    forall i | 0 <= i < |said|
      ensures said[i].agentId == r.speaker(all[i]) && r.answer(all[i], Extended(rows, said[..i])) == Some(said[i].content)
    {
      if i > 0 {
        assert said[..i] == [x] + p.said[..i - 1];
        ExtendedCons(rows, x, p.said[..i - 1]);
      }
    }
    forall i | 0 < i < |all| ensures Follows(r, k, said, all, i) {
      if i > 1 { assert Follows(r, k + 1, p.said, turns, i - 1); }
    }
    ExtendedCons(rows, x, p.said);
  }

  lemma NothingSaid(rows: seq<Row>)
    ensures Extended(rows, []) == rows
  {}

  /** Every schedule is made of turns. */
  lemma {:induction false} PlayTaken<T(!new)>(r: Rules<T>, rows: seq<Row>, k: nat, t: T) returns (turns: seq<T>)
    requires k < r.limit
    ensures turns != [] && turns[0] == t && Taken(r, rows, k, Play(r, rows, k, t), turns)
    decreases r.limit - k
  {
    turns := [t];
    var answer := r.answer(t, rows);
    if answer.Some? {
      var x, next := Said(r.speaker(t), answer.value), r.next(k, t, answer.value);
      assert [x][..0] == [];
      if next.Some? && k + 1 < r.limit {
        var rest := PlayTaken(r, AppendReply(rows, x), k + 1, next.value);
        TakenCons(r, rows, k, t, x, Play(r, AppendReply(rows, x), k + 1, next.value), rest);
        turns := [t] + rest;
      }
    }
  }

  /** A schedule never takes more turns than its limit allows (one, if that is zero). */
  lemma {:induction false} TurnsBounded<T>(r: Rules<T>, rows: seq<Row>, k: nat, t: T)
    requires k < r.limit
    ensures |Play(r, rows, k, t).said| <= r.limit - k
    decreases r.limit - k
  {
    var answer := r.answer(t, rows);
    if answer.Some? {
      var next := r.next(k, t, answer.value);
      if next.Some? && k + 1 < r.limit {
        TurnsBounded(r, AppendReply(rows, Said(r.speaker(t), answer.value)), k + 1, next.value);
      }
    }
  }

  /** Where no turn is followed by one of the same speaker, nobody speaks twice in a row. */
  lemma {:induction false} NoEcho<T(!new)>(r: Rules<T>, rows: seq<Row>, k: nat, t: T)
    requires forall k: nat, t: T, c: string :: r.next(k, t, c).Some? ==> r.speaker(r.next(k, t, c).value) != r.speaker(t)
    ensures var said := Play(r, rows, k, t).said;
            && (said != [] ==> said[0].agentId == r.speaker(t))
            && forall i :: 0 <= i < |said| - 1 ==> said[i].agentId != said[i + 1].agentId
    decreases r.limit - k
  {
    var answer := r.answer(t, rows);
    if answer.Some? {
      var next := r.next(k, t, answer.value);
      if next.Some? && k + 1 < r.limit {
        var later := AppendReply(rows, Said(r.speaker(t), answer.value));
        NoEcho(r, later, k + 1, next.value);
        var rest, said := Play(r, later, k + 1, next.value).said, Play(r, rows, k, t).said;
        assert said == [Said(r.speaker(t), answer.value)] + rest;
        forall i | 0 <= i < |said| - 1 ensures said[i].agentId != said[i + 1].agentId {
          assert i > 0 ==> said[i] == rest[i - 1];
          assert said[i + 1] == rest[i];
        }
      }
    }
  }

  /** Rules that answer alike give the same schedule. */
  lemma {:induction false} SameAnswersSamePlay<T(!new)>(a: Rules<T>, b: Rules<T>, rows: seq<Row>, k: nat, t: T)
    requires a.limit == b.limit
    requires forall t :: a.speaker(t) == b.speaker(t)
    requires forall k, t, c :: a.next(k, t, c) == b.next(k, t, c)
    requires forall t, rows :: a.answer(t, rows) == b.answer(t, rows)
    ensures Play(a, rows, k, t) == Play(b, rows, k, t)
    decreases a.limit - k
  {
    var answer := a.answer(t, rows);
    if answer.Some? {
      var next := a.next(k, t, answer.value);
      if next.Some? && k + 1 < a.limit {
        SameAnswersSamePlay(a, b, AppendReply(rows, Said(a.speaker(t), answer.value)), k + 1, next.value);
      }
    }
  }

  lemma AppendedAbove(rows: seq<Row>, before: seq<Row>, said: Said)
    requires rows <= before && MaxSequence(before) >= MaxSequence(rows) && Ascending(before)
    requires forall i :: |rows| <= i < |before| ==> before[i].sequence > MaxSequence(rows)
    ensures var after := AppendReply(before, said);
            && rows <= after && MaxSequence(after) >= MaxSequence(rows) && Ascending(after)
            && |after| == |before| + 1
            && forall i :: |rows| <= i < |after| ==> after[i].sequence > MaxSequence(rows)
  {
    hide MaxSequence;
    var after := AppendReply(before, said);
    assert after[..|before|] == before;
    assert MaxSequence(after) >= after[|before|].sequence;
    assert after[|before|].sequence == MaxSequence(before) + 1;
    forall i, j | 0 <= i < j < |after| ensures after[i].sequence < after[j].sequence {
      assert after[i] == before[i] && before[i].sequence <= MaxSequence(before);
      assert j < |before| ==> after[j] == before[j];
    }
  }

  /** What is said goes behind the rows that were there, numbered above all of them. */
  lemma {:induction false} ExtendedAbove(rows: seq<Row>, said: seq<Said>)
    requires Ascending(rows)
    ensures var after := Extended(rows, said);
            && rows <= after && MaxSequence(after) >= MaxSequence(rows) && Ascending(after)
            && |after| == |rows| + |said|
            && forall i :: |rows| <= i < |after| ==> after[i].sequence > MaxSequence(rows)
  {
    if said != [] {
      var n := |said| - 1;
      ExtendedAbove(rows, said[..n]);
      AppendedAbove(rows, Extended(rows, said[..n]), said[n]);
    }
  }
}
