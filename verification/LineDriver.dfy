/** The read loop shared by the four provider adapters: a carried buffer is extended by every
    read, cut into complete lines, and the lines are handed one at a time to the adapter until
    it stops. Whatever is left when the body ends goes through a separate path. */
module LineDriver {
  import opened Chunks
  import opened Text

  /** Complete lines of a text, and the unterminated text after the last line feed. */
  datatype Cut = Cut(lines: seq<string>, rest: string)

  function StripCR(line: string): string {
    if line != "" && line[|line| - 1] == '\r' then line[..|line| - 1] else line
  }

  /** Splitting on an optional carriage return followed by a line feed, last piece kept apart. */
  function Split(s: string): Cut {
    if s == "" then Cut([], "")
    else
      var c := Split(s[..|s| - 1]);
      if s[|s| - 1] == '\n' then Cut(c.lines + [StripCR(c.rest)], "")
      else Cut(c.lines, c.rest + [s[|s| - 1]])
  }

  /** Text put back together: line `i` ends in CRLF exactly if `crlf[i]`. */
  function Unsplit(lines: seq<string>, crlf: seq<bool>, rest: string): string
    requires |lines| == |crlf|
  {
    if lines == [] then rest
    else lines[0] + (if crlf[0] then "\r\n" else "\n") + Unsplit(lines[1..], crlf[1..], rest)
  }

  lemma {:induction false} SplitRest(s: string)
    ensures '\n' !in Split(s).rest
  {
    if s != "" { SplitRest(s[..|s| - 1]); }
  }

  lemma {:induction false} SplitLineless(s: string)
    requires '\n' !in s
    ensures Split(s) == Cut([], s)
  {
    if s != "" {
      SplitLineless(s[..|s| - 1]);
      assert s == s[..|s| - 1] + [s[|s| - 1]];
    }
  }

  /** Cutting the carried rest together with the next read yields exactly the lines that cutting
      the whole text yields, even if the cut fell inside a CRLF. */
  lemma {:induction false} SplitAppend(a: string, b: string)
    ensures Split(a + b).lines == Split(a).lines + Split(Split(a).rest + b).lines
    ensures Split(a + b).rest == Split(Split(a).rest + b).rest
  {
    var carried := Split(a).rest;
    if b == "" {
      assert a + b == a && carried + b == carried;
      SplitRest(a);
      SplitLineless(carried);
    } else {
      var b', last := b[..|b| - 1], b[|b| - 1];
      SplitAppend(a, b');
      assert (a + b)[..|a + b| - 1] == a + b' && (a + b)[|a + b| - 1] == last;
      assert (carried + b)[..|carried + b| - 1] == carried + b' && (carried + b)[|carried + b| - 1] == last;
    }
  }

  /** Lines that can be told apart again: no line feed inside, and no carriage return before a
      bare line feed. */
  predicate Separable(lines: seq<string>, crlf: seq<bool>) {
    && |lines| == |crlf|
    && forall i :: 0 <= i < |lines| ==>
         '\n' !in lines[i] && (crlf[i] || StripCR(lines[i]) == lines[i])
  }

  lemma SplitOneLine(line: string, cr: bool)
    requires '\n' !in line && (cr || StripCR(line) == line)
    ensures Split(line + (if cr then "\r\n" else "\n")) == Cut([line], "")
  {
    var written := if cr then line + "\r" else line;
    var head := written + "\n";
    assert line + (if cr then "\r\n" else "\n") == head;
    SplitLineless(written);
    assert head[..|head| - 1] == written;
    assert StripCR(written) == line;
  }

  /** Splitting inverts every way of writing lines down, with LF and CRLF mixed freely. */
  lemma {:induction false} SplitUnsplit(lines: seq<string>, crlf: seq<bool>, rest: string)
    requires Separable(lines, crlf) && '\n' !in rest
    ensures Split(Unsplit(lines, crlf, rest)) == Cut(lines, rest)
  {
    hide Split, StripCR;
    if lines == [] {
      SplitLineless(rest);
    } else {
      var tail := Unsplit(lines[1..], crlf[1..], rest);
      var head := lines[0] + (if crlf[0] then "\r\n" else "\n");
      SplitOneLine(lines[0], crlf[0]);
      SplitAppend(head, tail);
      assert "" + tail == tail;
      SplitUnsplit(lines[1..], crlf[1..], rest);
    }
  }

  /** An adapter: what it does with a line, what it does with the leftover text at the end of the
      body, and whether it has returned or thrown. A stopped adapter sees no further line. */
  datatype Adapter<!S> = Adapter(onLine: (S, string) -> S, onEnd: (S, string) -> S, stopped: S -> bool)

  /** The adapter's state after a sequence of lines. */
  function Feed<S>(a: Adapter<S>, s: S, lines: seq<string>): S {
    if lines == [] || a.stopped(s) then s else Feed(a, a.onLine(s, lines[0]), lines[1..])
  }

  /** One pass over a body that is available as a whole. */
  function WholeBody<S>(a: Adapter<S>, s: S, body: string): S {
    var cut := Split(body);
    var last := Feed(a, s, cut.lines);
    if a.stopped(last) then last else a.onEnd(last, cut.rest)
  }

  lemma {:induction false} FeedAppend<S>(a: Adapter<S>, s: S, first: seq<string>, second: seq<string>)
    ensures Feed(a, s, first + second) == Feed(a, Feed(a, s, first), second)
  {
    if first == [] {
      assert first + second == second;
    } else if !a.stopped(s) {
      assert (first + second)[1..] == first[1..] + second;
      FeedAppend(a, a.onLine(s, first[0]), first[1..], second);
    }
  }

  /** The lines of one read, up to the one that makes the adapter stop. */
  method OnLines<S>(a: Adapter<S>, entry: S, lines: seq<string>) returns (state: S)
    ensures state == Feed(a, entry, lines)
  {
    state := entry;
    var k := 0;
    while k < |lines| && !a.stopped(state)
      invariant k <= |lines|
      invariant Feed(a, state, lines[k..]) == Feed(a, entry, lines)
      decreases |lines| - k
    {
      assert lines[k..][1..] == lines[k + 1..];
      state := a.onLine(state, lines[k]);
      k := k + 1;
    }
  }

  /** The state after some reads, and the text they leave in the buffer. */
  ghost predicate After<S>(a: Adapter<S>, start: S, text: string, state: S, buffer: string) {
    buffer == Split(text).rest && state == Feed(a, start, Split(text).lines)
  }

  lemma AfterRead<S>(a: Adapter<S>, start: S, text: string, state: S, buffer: string, read: string)
    requires After(a, start, text, state, buffer)
    ensures After(a, start, text + read, Feed(a, state, Split(buffer + read).lines), Split(buffer + read).rest)
  {
    SplitAppend(text, read);
    FeedAppend(a, start, Split(text).lines, Split(buffer + read).lines);
  }

  /** A stopped adapter is not moved by the reads it never makes. */
  lemma StoppedWhole<S>(a: Adapter<S>, start: S, text: string, state: S, buffer: string, unread: string)
    requires After(a, start, text, state, buffer) && a.stopped(state)
    ensures WholeBody(a, start, text + unread) == state
  {
    AfterRead(a, start, text, state, buffer, unread);
  }

  /** Reading the body in pieces gives what one pass over the whole body gives, wherever the
      pieces are cut. */
  method Drive<S>(a: Adapter<S>, start: S, chunks: seq<string>) returns (state: S)
    ensures state == WholeBody(a, start, Concat(chunks))
  {
    state := start;
    var buffer := "";
    var i := 0;
    while i < |chunks| && !a.stopped(state)
      invariant i <= |chunks|
      invariant After(a, start, Concat(chunks[..i]), state, buffer)
      decreases |chunks| - i
    {
      ConcatSnoc(chunks, i);
      AfterRead(a, start, Concat(chunks[..i]), state, buffer, chunks[i]);
      buffer := buffer + chunks[i];
      var cut := Split(buffer);
      buffer := cut.rest;
      state := OnLines(a, state, cut.lines);
      i := i + 1;
    }
    ConcatSplit(chunks, i);
    if a.stopped(state) {
      StoppedWhole(a, start, Concat(chunks[..i]), state, buffer, Concat(chunks[i..]));
    } else {
      assert chunks[..i] == chunks;
      state := a.onEnd(state, buffer);
    }
  }
}
