/** Search terms: escaping for SQLite's LIKE operator with `ESCAPE '\'`. */
module Like {
  import opened Text

  /** Puts a backslash before every backslash, percent sign and underscore. */
  function EscapeLikePattern(term: string): string {
    if term == "" then ""
    else (if term[0] in ['\\', '%', '_'] then ['\\', term[0]] else [term[0]]) + EscapeLikePattern(term[1..])
  }

  /** LIKE as SQLite evaluates it: `%` is any text, `_` any character, the escape character makes
      the next one literal, and letters compare up to ASCII case. */
  predicate Matches(pattern: string, s: string)
    decreases |pattern| + |s|
  {
    if pattern == "" then s == ""
    else if pattern[0] == '%' then Matches(pattern[1..], s) || (s != "" && Matches(pattern, s[1..]))
    else if s == "" then false
    else if pattern[0] == '\\' then
      |pattern| > 1 && AsciiLower(pattern[1]) == AsciiLower(s[0]) && Matches(pattern[2..], s[1..])
    else (pattern[0] == '_' || AsciiLower(pattern[0]) == AsciiLower(s[0])) && Matches(pattern[1..], s[1..])
  }

  predicate EqualUpToCase(s: string, t: string) {
    |s| == |t| && forall i :: 0 <= i < |s| ==> AsciiLower(s[i]) == AsciiLower(t[i])
  }

  /** `term` stands in `s` at position `i`, up to ASCII case. */
  predicate FoundAt(term: string, s: string, i: int) {
    0 <= i <= |s| - |term| && EqualUpToCase(s[i..i + |term|], term)
  }

  /** The escaped term matches itself and nothing else. */
  lemma {:induction false} LiteralPrefix(term: string, rest: string, s: string)
    ensures Matches(EscapeLikePattern(term) + rest, s)
            <==> FoundAt(term, s, 0) && Matches(rest, s[|term|..])
  {
    var pattern := EscapeLikePattern(term) + rest;
    if term == "" {
      assert pattern == rest && s[0..] == s;
    } else {
      var tail := EscapeLikePattern(term[1..]) + rest;
      if term[0] in ['\\', '%', '_'] {
        assert pattern == ['\\', term[0]] + tail;
      } else {
        assert pattern == [term[0]] + tail;
      }
      if s != "" {
        LiteralPrefix(term[1..], rest, s[1..]);
        if |term| <= |s| {
          assert s[0..|term|][1..] == s[1..][0..|term| - 1];
          assert s[1..][|term| - 1..] == s[|term|..];
          assert s[0..|term|] == [s[0]] + s[1..][0..|term| - 1];
          assert term == [term[0]] + term[1..];
        }
      }
    }
  }

  lemma {:induction false} PercentMatchesAll(s: string)
    ensures Matches("%", s)
  {
    if s != "" { PercentMatchesAll(s[1..]); }
  }

  lemma {:induction false} PercentSkips(pattern: string, s: string)
    ensures Matches("%" + pattern, s) <==> exists i | 0 <= i <= |s| :: Matches(pattern, s[i..])
  {
    assert ("%" + pattern)[1..] == pattern && s[0..] == s;
    if s != "" {
      PercentSkips(pattern, s[1..]);
      assert forall i :: 0 <= i <= |s| - 1 ==> s[1..][i..] == s[i + 1..];
      if i :| 0 <= i <= |s| && Matches(pattern, s[i..]) {
        if i > 0 { assert s[1..][i - 1..] == s[i..]; }
      }
    }
  }

  /** A search finds exactly the rows that contain the term, whatever characters it is made of. */
  lemma SearchIsSubstring(term: string, s: string)
    ensures Matches("%" + EscapeLikePattern(term) + "%", s) <==> exists i :: FoundAt(term, s, i)
  {
    var escaped := EscapeLikePattern(term) + "%";
    assert "%" + EscapeLikePattern(term) + "%" == "%" + escaped;
    PercentSkips(escaped, s);
    forall i | 0 <= i <= |s| ensures Matches(escaped, s[i..]) <==> FoundAt(term, s, i) {
      LiteralPrefix(term, "%", s[i..]);
      if |term| <= |s| - i {
        PercentMatchesAll(s[i..][|term|..]);
        assert s[i..][0..|term|] == s[i..i + |term|];
      }
    }
  }
}
