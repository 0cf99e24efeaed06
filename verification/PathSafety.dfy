/** Lexical containment of storage references below the storage root, under POSIX path rules. */
module PathSafety {
  import opened Text

  /** An absolute, normalised path as its components, outermost first. */
  type Path = seq<string>

  predicate IsComponent(c: string) {
    c != "" && '/' !in c && c != "." && c != ".."
  }

  predicate IsNormal(p: Path) {
    forall i :: 0 <= i < |p| ==> IsComponent(p[i])
  }

  function Render(p: Path): string {
    if p == [] then "/" else "/" + Join(p, "/")
  }

  // ---------------------------------------------------------------------------------------------
  // References
  // ---------------------------------------------------------------------------------------------

  predicate IsLetter(c: char) {
    'a' <= c <= 'z' || 'A' <= c <= 'Z'
  }

  predicate IsSeparator(c: char) {
    c == '/' || c == '\\'
  }

  /** A reference some platform would read as absolute: a leading separator or a drive. */
  predicate LooksAbsolute(s: string) {
    || (s != "" && IsSeparator(s[0]))
    || (|s| >= 3 && IsLetter(s[0]) && s[1] == ':' && IsSeparator(s[2]))
    || (|s| == 2 && IsLetter(s[0]) && s[1] == ':')
  }

  /** Percent decoding is a parameter: it yields nothing for malformed input. */
  type Decoder = string -> Option<string>

  const NUL := '\U{0000}'

  function AssertSafeReference(decode: Decoder, reference: string): Option<string> {
    if Trim(reference) == "" then None
    else if NUL in reference || Contains(reference, "%00") then None
    else
      match decode(reference)
      case None => None
      case Some(decoded) => if NUL in decoded || LooksAbsolute(decoded) then None else Some(decoded)
  }

  /** Splitting on runs of either separator and dropping empty pieces. */
  function Segments(s: string): seq<string> {
    var pieces := Pieces(s);
    NonEmpty(pieces)
  }

  function Pieces(s: string): (pieces: seq<string>)
    ensures pieces != []
  {
    if s == "" then [""]
    else
      var before := Pieces(s[..|s| - 1]);
      var n, c := |before| - 1, s[|s| - 1];
      if IsSeparator(c) then before + [""] else before[n := before[n] + [c]]
  }

  function NonEmpty(pieces: seq<string>): seq<string> {
    if pieces == [] then []
    else (if pieces[0] == "" then [] else [pieces[0]]) + NonEmpty(pieces[1..])
  }

  /** One segment applied to an absolute path; going up from the root stays there. */
  function Enter(p: Path, segment: string): Path {
    if segment == "." then p
    else if segment == ".." then (if p == [] then [] else p[..|p| - 1])
    else p + [segment]
  }

  function Walk(p: Path, segments: seq<string>): Path
    decreases |segments|
  {
    if segments == [] then p else Walk(Enter(p, segments[0]), segments[1..])
  }

  // ---------------------------------------------------------------------------------------------
  // The two checks
  // ---------------------------------------------------------------------------------------------

  function CommonLength(a: Path, b: Path): (k: nat)
    ensures k <= |a| && k <= |b| && a[..k] == b[..k]
    ensures k < |a| && k < |b| ==> a[k] != b[k]
  {
    if a != [] && b != [] && a[0] == b[0] then
      assert forall k :: 0 <= k <= |a| - 1 && k <= |b| - 1 && a[1..][..k] == b[1..][..k] ==> a[..k + 1] == b[..k + 1] by {
        forall k | 0 <= k <= |a| - 1 && k <= |b| - 1 && a[1..][..k] == b[1..][..k] ensures a[..k + 1] == b[..k + 1] {
          assert a[..k + 1] == [a[0]] + a[1..][..k] && b[..k + 1] == [b[0]] + b[1..][..k];
        }
      }
      1 + CommonLength(a[1..], b[1..])
    else 0
  }

  function Ups(n: nat): seq<string> {
    if n == 0 then [] else [".."] + Ups(n - 1)
  }

  /** The relative path: up to the common ancestor, then down. */
  function Relative(from: Path, to: Path): string {
    var k := CommonLength(from, to);
    Join(Ups(|from| - k) + to[k..], "/")
  }

  /** The relative path is not empty (unless the root is allowed) and does not climb. */
  predicate RelativeCheck(root: Path, target: Path, allowRoot: bool) {
    var relative := Relative(root, target);
    !((relative == "" && !allowRoot) || relative == ".." || StartsWith(relative, "../")
      || StartsWith(relative, "..\\") || StartsWith(relative, "/"))
  }

  /** The path starts with the root followed by a separator (or is the root, if allowed). */
  predicate PrefixCheck(root: Path, target: Path, allowRoot: bool) {
    var rootText := Render(root);
    var rootWithSep := if |rootText| > 0 && rootText[|rootText| - 1] == '/' then rootText else rootText + "/";
    StartsWith(Render(target), rootWithSep) || (allowRoot && Render(target) == rootText)
  }

  function ResolveStoragePath(decode: Decoder, root: Path, reference: string, allowRoot: bool): Option<Path> {
    match AssertSafeReference(decode, reference)
    case None => None
    case Some(decoded) =>
      var segments := Segments(decoded);
      if segments == [] && !allowRoot then None
      else
        var target := Walk(root, segments);
        if !RelativeCheck(root, target, allowRoot) then None
        else if !PrefixCheck(root, target, allowRoot) then None
        else Some(target)
  }

  // ---------------------------------------------------------------------------------------------
  // What acceptance means
  // ---------------------------------------------------------------------------------------------

  /** Below the root: its components begin with the root's, and go on unless the root is allowed. */
  predicate Below(root: Path, target: Path, allowRoot: bool) {
    root <= target && (allowRoot || root != target)
  }

  /** Segments hold neither separator and are never empty. */
  predicate IsSegment(s: string) {
    s != "" && forall c | c in s :: !IsSeparator(c)
  }

  lemma {:induction false} PiecesClean(s: string)
    ensures forall i :: 0 <= i < |Pieces(s)| ==> forall c | c in Pieces(s)[i] :: !IsSeparator(c)
  {
    if s != "" { PiecesClean(s[..|s| - 1]); }
  }

  lemma {:induction false} NonEmptyClean(pieces: seq<string>)
    requires forall i :: 0 <= i < |pieces| ==> forall c | c in pieces[i] :: !IsSeparator(c)
    ensures forall i :: 0 <= i < |NonEmpty(pieces)| ==> IsSegment(NonEmpty(pieces)[i])
  {
    if pieces != [] { NonEmptyClean(pieces[1..]); }
  }

  /** Components that a walk adds come from segments; those it keeps come from the start. */
  predicate WalkedFrom(root: Path, p: Path) {
    && IsNormal(p)
    && exists k | 0 <= k <= |root| && k <= |p| ::
         p[..k] == root[..k] && forall i :: k <= i < |p| ==> '\\' !in p[i]
  }

  lemma EnterWalked(root: Path, p: Path, segment: string)
    requires WalkedFrom(root, p) && IsSegment(segment)
    ensures WalkedFrom(root, Enter(p, segment))
  {
    var k :| 0 <= k <= |root| && k <= |p| && p[..k] == root[..k] && forall i :: k <= i < |p| ==> '\\' !in p[i];
    var q := Enter(p, segment);
    if segment == ".." && p != [] {
      var k' := if k < |p| then k else |p| - 1;
      assert q[..k'] == p[..k][..k'] == root[..k'];
    } else {
      assert q[..k] == p[..k];
    }
  }

  lemma {:induction false} WalkWalked(root: Path, p: Path, segments: seq<string>)
    requires WalkedFrom(root, p) && forall i :: 0 <= i < |segments| ==> IsSegment(segments[i])
    ensures WalkedFrom(root, Walk(p, segments))
    decreases |segments|
  {
    if segments != [] {
      EnterWalked(root, p, segments[0]);
      WalkWalked(root, Enter(p, segments[0]), segments[1..]);
    }
  }

  /** The text of several components starts with the first one, followed by its end or a slash. */
  lemma JoinHead(parts: seq<string>)
    requires parts != []
    ensures StartsWith(Join(parts, "/"), parts[0])
    ensures |parts| == 1 ==> Join(parts, "/") == parts[0]
    ensures |parts| > 1 ==> StartsWith(Join(parts, "/"), parts[0] + "/")
  {}

  /** The relative-path check accepts exactly the paths below the root. */
  lemma RelativeCheckExact(root: Path, target: Path, allowRoot: bool)
    requires IsNormal(root) && WalkedFrom(root, target)
    ensures RelativeCheck(root, target, allowRoot) <==> Below(root, target, allowRoot)
  {
    var k := CommonLength(root, target);
    var parts := Ups(|root| - k) + target[k..];
    if k < |root| {
      assert parts[0] == "..";
      JoinHead(parts);
      assert !(root <= target) by { assert k < |target| ==> root[k] != target[k]; }
    } else {
      assert root[..k] == root;
      assert parts == target[k..];
      if parts != [] {
        JoinHead(parts);
        FreshComponent(root, target);
        HeadIsName(parts);
      } else {
        assert target == target[..k];
      }
    }
  }

  lemma FreshComponent(root: Path, target: Path)
    requires WalkedFrom(root, target) && |target| > |root|
    ensures IsComponent(target[|root|]) && '\\' !in target[|root|]
  {}

  /** A relative path that begins with a proper component neither climbs nor is absolute. */
  lemma HeadIsName(parts: seq<string>)
    requires parts != [] && IsComponent(parts[0]) && '\\' !in parts[0]
    ensures var text := Join(parts, "/");
            text != "" && text != ".." && !StartsWith(text, "../") && !StartsWith(text, "..\\") && !StartsWith(text, "/")
  {
    var text, head := Join(parts, "/"), parts[0];
    JoinHead(parts);
    assert text[..|head|] == head;
    assert text[0] == head[0];
    if |head| == 1 {
      assert |text| > 1 ==> text[1] == (head + "/")[1] == '/';
    } else {
      assert text[1] == head[1];
      if |head| > 2 {
        assert text[2] == head[2];
      } else if |parts| > 1 {
        assert text[2] == (head + "/")[2] == '/';
      }
    }
  }

  /** Texts of component lists agree only if the lists do. */
  lemma {:induction false} JoinPrefix(a: Path, b: Path)
    requires IsNormal(a) && IsNormal(b) && a != []
    ensures StartsWith(Join(b, "/"), Join(a, "/") + "/") <==> a <= b && a != b
    ensures b != [] ==> (Join(a, "/") == Join(b, "/") <==> a == b)
    decreases |a|
  {
    if b != [] {
      var x, y := a[0], b[0];
      JoinHead(a);
      JoinHead(b);
      if x == y {
        assert a == [x] + a[1..] && b == [y] + b[1..];
        if |a| > 1 && |b| > 1 {
          JoinPrefix(a[1..], b[1..]);
          CancelPrefix(x + "/", Join(b[1..], "/"), Join(a[1..], "/") + "/");
          CancelEqual(x + "/", Join(b[1..], "/"), Join(a[1..], "/"));
          assert Join(a, "/") + "/" == (x + "/") + (Join(a[1..], "/") + "/");
        }
        assert a <= b && |a| > 1 ==> a[1..] <= b[1..] by {
          if a <= b && |a| > 1 { assert a == b[..|a|]; assert a[1..] == b[1..][..|a| - 1]; }
        }
        assert |a| > 1 && |b| > 1 && a[1..] <= b[1..] ==> a <= b;
      } else {
        FirstComponentDiffers(x, y, Join(a, "/") + "/", Join(b, "/") + "/");
        assert !(a <= b);
      }
    }
  }

  lemma CancelPrefix(head: string, s: string, t: string)
    ensures head + t <= head + s <==> t <= s
  {
    if head + t <= head + s {
      assert (head + s)[..|head + t|] == head + t;
      assert (head + s)[|head|..] == s && (head + t)[|head|..] == t;
      assert (head + s)[..|head + t|][|head|..] == s[..|t|];
    }
  }

  lemma CancelEqual(head: string, s: string, t: string)
    ensures head + t == head + s <==> t == s
  {
    assert (head + s)[|head|..] == s && (head + t)[|head|..] == t;
  }

  /** Different components differ, at the latest where one of them ends. */
  lemma {:induction false} ComponentsDiffer(x: string, y: string) returns (d: nat)
    requires x != y && '/' !in x && '/' !in y
    ensures d <= |x| && d <= |y| && (x + "/")[d] != (y + "/")[d]
  {
    if x == "" || y == "" || x[0] != y[0] {
      d := 0;
    } else {
      assert x == [x[0]] + x[1..] && y == [y[0]] + y[1..];
      var e := ComponentsDiffer(x[1..], y[1..]);
      d := e + 1;
      assert (x + "/")[1..] == x[1..] + "/" && (y + "/")[1..] == y[1..] + "/";
      assert (x + "/")[d] == (x[1..] + "/")[e] && (y + "/")[d] == (y[1..] + "/")[e];
    }
  }

  /** Two texts whose first components differ: neither is a prefix of the other. */
  lemma FirstComponentDiffers(x: string, y: string, s: string, t: string)
    requires IsComponent(x) && IsComponent(y) && x != y && x + "/" <= s && y + "/" <= t
    ensures !(s <= t) && s != t
  {
    var d := ComponentsDiffer(x, y);
    assert s[d] == (x + "/")[d] && t[d] == (y + "/")[d];
  }

  lemma {:induction false} JoinEnd(p: Path)
    requires IsNormal(p) && p != []
    ensures Join(p, "/") != "" && Join(p, "/")[|Join(p, "/")| - 1] != '/'
  {
    if |p| > 1 { JoinEnd(p[1..]); } else { assert p[0][|p[0]| - 1] in p[0]; }
  }

  /** The prefix check accepts exactly the paths below the root, except that a root of `/` passes
      for a path below itself. */
  lemma PrefixCheckExact(root: Path, target: Path, allowRoot: bool)
    requires IsNormal(root) && IsNormal(target)
    ensures PrefixCheck(root, target, allowRoot) <==> Below(root, target, allowRoot || root == [])
  {
    if root == [] {
      assert StartsWith(Render(target), "/") by { assert Render(target)[..1] == "/"; }
    } else {
      JoinEnd(root);
      JoinPrefix(root, target);
      var text := Join(root, "/");
      assert Render(root)[|Render(root)| - 1] == text[|text| - 1];
      assert Render(root) + "/" == "/" + (text + "/");
      if target == [] {
        assert |Render(root)| > 1;
      } else {
        CancelPrefix("/", Join(target, "/"), text + "/");
        CancelEqual("/", Join(target, "/"), text);
      }
    }
  }

  /** A safe reference is accepted exactly when walking its segments from the root ends below the
      root. The relative-path check alone would do; the prefix check would as well, unless the root
      is `/` and the reference leads to it. */
  lemma AcceptedIffBelow(decode: Decoder, root: Path, reference: string, allowRoot: bool)
    requires IsNormal(root)
    ensures match AssertSafeReference(decode, reference)
            case None => ResolveStoragePath(decode, root, reference, allowRoot) == None
            case Some(decoded) =>
              var target := Walk(root, Segments(decoded));
              && (RelativeCheck(root, target, allowRoot) <==> Below(root, target, allowRoot))
              && ((RelativeCheck(root, target, allowRoot) <==> PrefixCheck(root, target, allowRoot))
                  <==> allowRoot || root != [] || target != [])
              && ResolveStoragePath(decode, root, reference, allowRoot)
                 == if Below(root, target, allowRoot) then Some(target) else None
  {
    var safe := AssertSafeReference(decode, reference);
    if safe.Some? {
      var segments := Segments(safe.value);
      PiecesClean(safe.value);
      NonEmptyClean(Pieces(safe.value));
      assert root[..|root|] == root;
      WalkWalked(root, root, segments);
      var target := Walk(root, segments);
      RelativeCheckExact(root, target, allowRoot);
      PrefixCheckExact(root, target, allowRoot);
    }
  }
}
