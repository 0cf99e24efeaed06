/** String operations of the host language that several components rely on.
    A `char` stands for one UTF-16 code unit, so `|s|` is the host's `length`. */
module Text {

  datatype Option<+T> = None | Some(value: T)

  /** A text the host treats as present: neither absent nor empty. */
  predicate Truthy(o: Option<string>) {
    o.Some? && o.value != ""
  }

  function OrElse<T>(o: Option<T>, default: T): T {
    if o.Some? then o.value else default
  }

  function OrText(o: Option<string>, default: string): string {
    if Truthy(o) then o.value else default
  }

  /** White space and line terminators, as removed by `trim` (ECMA-262, sections 12.2 and 12.3). */
  predicate IsSpace(c: char) {
    || c == '\t' || c == '\n' || c == '\r' || c == ' '
    || c == '\U{000B}' || c == '\U{000C}' || c == '\U{00A0}' || c == '\U{FEFF}'
    || c == '\U{1680}' || '\U{2000}' <= c <= '\U{200A}'
    || c == '\U{2028}' || c == '\U{2029}' || c == '\U{202F}' || c == '\U{205F}' || c == '\U{3000}'
  }

  function TrimStart(s: string): string {
    if s != "" && IsSpace(s[0]) then TrimStart(s[1..]) else s
  }

  function TrimEnd(s: string): string {
    if s != "" && IsSpace(s[|s| - 1]) then TrimEnd(s[..|s| - 1]) else s
  }

  function Trim(s: string): string {
    TrimEnd(TrimStart(s))
  }

  /** Only white space, or nothing at all. */
  predicate Blank(s: string) {
    forall i :: 0 <= i < |s| ==> IsSpace(s[i])
  }

  /** Text that `trim` leaves alone. */
  predicate Trimmed(s: string) {
    s == "" || (!IsSpace(s[0]) && !IsSpace(s[|s| - 1]))
  }

  lemma {:induction false} TrimStartCuts(s: string)
    ensures |TrimStart(s)| <= |s| && TrimStart(s) == s[|s| - |TrimStart(s)|..]
    ensures Blank(s[..|s| - |TrimStart(s)|])
    ensures TrimStart(s) == "" || !IsSpace(TrimStart(s)[0])
  {
    if s != "" && IsSpace(s[0]) { TrimStartCuts(s[1..]); }
  }

  lemma {:induction false} TrimEndCuts(s: string)
    ensures |TrimEnd(s)| <= |s| && TrimEnd(s) == s[..|TrimEnd(s)|]
    ensures Blank(s[|TrimEnd(s)|..])
    ensures TrimEnd(s) == "" || !IsSpace(TrimEnd(s)[|TrimEnd(s)| - 1])
  {
    if s != "" && IsSpace(s[|s| - 1]) {
      var n, k := |s| - 1, |TrimEnd(s[..|s| - 1])|;
      TrimEndCuts(s[..n]);
      assert s[..n][..k] == s[..k];
      assert s[k..] == s[..n][k..] + [s[n]];
    }
  }

  /** Trimming removes white space at both ends and nothing else. */
  lemma TrimCuts(s: string)
    ensures Trimmed(Trim(s))
    ensures exists i, j :: 0 <= i <= j <= |s| && Blank(s[..i]) && Blank(s[j..]) && Trim(s) == s[i..j]
    ensures Trim(s) == "" <==> Blank(s)
  {
    TrimStartCuts(s);
    var t := TrimStart(s);
    TrimEndCuts(t);
    var i := |s| - |t|;
    var j := i + |Trim(s)|;
    assert t[|Trim(s)|..] == s[j..];
    assert Blank(s[..i]) && Blank(s[j..]) && Trim(s) == s[i..j];
    assert Trim(s) != "" ==> Trim(s)[0] == t[0] == s[i];
    assert s == s[..i] + Trim(s) + s[j..];
  }

  lemma TrimTrimmed(s: string)
    requires Trimmed(s)
    ensures TrimStart(s) == s && Trim(s) == s
  {}

  function AsciiLower(c: char): char {
    if 'A' <= c <= 'Z' then c - 'A' + 'a' else c
  }

  predicate StartsWith(s: string, prefix: string) {
    prefix <= s
  }

  predicate OccursAt(s: string, t: string, i: nat) {
    i + |t| <= |s| && s[i..i + |t|] == t
  }

  predicate Contains(s: string, t: string) {
    exists i | 0 <= i <= |s| :: OccursAt(s, t, i)
  }

  function Join(parts: seq<string>, separator: string): string {
    if parts == [] then ""
    else if |parts| == 1 then parts[0]
    else parts[0] + separator + Join(parts[1..], separator)
  }

  /** The texts that are more than white space, trimmed, in their order. */
  function NonBlank(texts: seq<string>): seq<string> {
    if texts == [] then []
    else (if Blank(texts[0]) then [] else [Trim(texts[0])]) + NonBlank(texts[1..])
  }

  lemma {:induction false} NonBlankAppend(a: seq<string>, b: seq<string>)
    ensures NonBlank(a + b) == NonBlank(a) + NonBlank(b)
  {
    if a == [] {
      assert a + b == b;
    } else {
      assert (a + b)[1..] == a[1..] + b;
      NonBlankAppend(a[1..], b);
    }
  }

  predicate EndsWith(s: string, suffix: string) {
    |suffix| <= |s| && s[|s| - |suffix|..] == suffix
  }

  lemma JoinEnds(parts: seq<string>, last: string, separator: string)
    ensures EndsWith(Join(parts + [last], separator), last)
  {
    if parts != [] { JoinSnoc(parts, last, separator); }
  }

  lemma JoinSnoc(parts: seq<string>, last: string, separator: string)
    requires parts != []
    ensures Join(parts + [last], separator) == Join(parts, separator) + separator + last
  {
    if |parts| == 1 {
      assert (parts + [last])[1..] == [last];
    } else {
      assert (parts + [last])[1..] == parts[1..] + [last];
      JoinSnoc(parts[1..], last, separator);
    }
  }
}
