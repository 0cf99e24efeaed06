/** Content-type detection from bytes: signatures first, then the head of the file as text. */
module ContentType {
  import opened Text
  import opened Bytes

  datatype Detected = Detected(mime: string, extension: string)

  /** Functions of the host: UTF-8 decoding, lower-casing, and whether a text is JSON. */
  datatype Host = Host(utf8: seq<Byte> -> string, lower: string -> string, isJson: string -> bool)

  const SAMPLE_BYTES := 4096

  predicate Magic(data: seq<Byte>, signature: seq<Byte>) {
    |data| >= |signature| && data[..|signature|] == signature
  }

  /** Decoding bytes as ASCII drops their high bit. */
  function Ascii(data: seq<Byte>): string {
    seq(|data|, i requires 0 <= i < |data| => (data[i] % 128) as char)
  }

  /** Bytes decoded as ASCII spell this text. */
  predicate SpellsAscii(data: seq<Byte>, from: nat, text: string) {
    |data| >= from + |text| && Ascii(data[from..from + |text|]) == text
  }

  const BOM: seq<Byte> := [0xef, 0xbb, 0xbf]

  function TextStart(data: seq<Byte>): nat {
    if Magic(data, BOM) then 3 else 0
  }

  predicate Control(b: Byte) {
    b < 0x20 && b != 0x09 && b != 0x0a && b != 0x0d
  }

  function ControlCount(data: seq<Byte>): nat {
    if data == [] then 0
    else ControlCount(data[..|data| - 1]) + (if Control(data[|data| - 1]) then 1 else 0)
  }

  /** The bytes examined as text: the first 4 KiB, without a byte-order mark. */
  function Sample(data: seq<Byte>): seq<Byte> {
    Take(data, SAMPLE_BYTES)[TextStart(data)..]
  }

  /** The sample, unless it has a NUL byte or more than two control characters. */
  function TextSample(data: seq<Byte>): Option<seq<Byte>> {
    if 0 in Sample(data) || ControlCount(Sample(data)) > 2 then None else Some(Sample(data))
  }

  method ExtractTextSample(data: seq<Byte>) returns (sample: Option<seq<Byte>>)
    ensures sample == TextSample(data)
  {
    var limit := if |data| < SAMPLE_BYTES then |data| else SAMPLE_BYTES;
    var startOffset := TextStart(data);
    hide ControlCount, Control;
    var nonPrintableCount := 0;
    NothingCounted();
    ghost var examined := Sample(data);
    var i := startOffset;
    while i < limit
      invariant startOffset <= i <= limit
      invariant nonPrintableCount == ControlCount(examined[..i - startOffset]) <= 2
      invariant 0 !in examined[..i - startOffset]
    {
      var byte := data[i];
      ghost var k := i - startOffset;
      assert examined[k] == byte;
      ControlCountStep(examined, k);
      if byte == 0 { return None; }
      if Control(byte) {
        nonPrintableCount := nonPrintableCount + 1;
        if nonPrintableCount > 2 {
          ControlCountMonotone(examined, k + 1);
          return None;
        }
      }
      i := i + 1;
    }
    assert examined[..i - startOffset] == examined;
    assert data[startOffset..limit] == examined;
    return Some(data[startOffset..limit]);
  }

  lemma NothingCounted()
    ensures ControlCount([]) == 0
  {}

  lemma ControlCountStep(data: seq<Byte>, k: nat)
    requires k < |data|
    ensures ControlCount(data[..k + 1]) == ControlCount(data[..k]) + (if Control(data[k]) then 1 else 0)
    ensures 0 in data[..k + 1] <==> 0 in data[..k] || data[k] == 0
  {
    assert data[..k + 1][..k] == data[..k];
    assert data[..k + 1] == data[..k] + [data[k]];
  }

  lemma {:induction false} ControlCountMonotone(data: seq<Byte>, n: nat)
    requires n <= |data|
    ensures ControlCount(data[..n]) <= ControlCount(data)
    decreases |data|
  {
    if n == |data| {
      assert data[..n] == data;
    } else {
      ControlCountMonotone(data[..|data| - 1], n);
      assert data[..|data| - 1][..n] == data[..n];
    }
  }

  /** Where the control characters are: white space apart, the codes below 32. */
  function ControlsIn(data: seq<Byte>): set<nat> {
    set i: nat | i < |data| && data[i] < 32 && data[i] !in {9, 10, 13}
  }

  lemma {:induction false} ControlsCounted(data: seq<Byte>)
    ensures ControlCount(data) == |ControlsIn(data)|
  {
    if data == [] {
      assert ControlsIn(data) == {};
    } else {
      var n := |data| - 1;
      ControlsCounted(data[..n]);
      assert ControlsIn(data) == ControlsIn(data[..n]) + if Control(data[n]) then {n} else {};
    }
  }

  /** Bytes are taken for text exactly if the first 4 KiB, without a byte-order mark, have no NUL byte and at most
      two control characters; and then it is these bytes that are looked at. */
  lemma TextIff(data: seq<Byte>)
    ensures var head := if |data| <= 4096 then data else data[..4096];
            var examined := if |data| >= 3 && data[..3] == [0xef, 0xbb, 0xbf] then head[3..] else head;
            TextSample(data)
            == if (forall i :: 0 <= i < |examined| ==> examined[i] != 0) && |ControlsIn(examined)| <= 2
               then Some(examined) else None
  {
    ControlsCounted(Sample(data));
    hide ControlCount, ControlsIn;
    assert Take(data, SAMPLE_BYTES)[0..] == Take(data, SAMPLE_BYTES);
  }

  function DetectText(host: Host, bytes: seq<Byte>): Detected {
    var trimmed := Trim(host.utf8(bytes));
    var lower := host.lower(trimmed);
    if (Contains(lower, "<svg")
        && (StartsWith(lower, "<?xml") || StartsWith(lower, "<!doctype svg") || StartsWith(lower, "<svg")))
       || (StartsWith(lower, "<svg") && Contains(lower, "xmlns")) then Detected("image/svg+xml", ".svg")
    else if StartsWith(lower, "<!doctype html") || StartsWith(lower, "<html") then Detected("text/html", ".html")
    else if StartsWith(lower, "<?xml") then Detected("application/xml", ".xml")
    else if (StartsWith(trimmed, "{") || StartsWith(trimmed, "[")) && host.isJson(trimmed) then
      Detected("application/json", ".json")
    else Detected("text/plain", ".txt")
  }

  const BINARY := Detected("application/octet-stream", ".bin")

  const JPEG: seq<Byte> := [0xff, 0xd8, 0xff]
  const PNG: seq<Byte> := [0x89, 0x50, 0x4e, 0x47, 0x0d, 0x0a, 0x1a, 0x0a]
  const GIF87: seq<Byte> := [0x47, 0x49, 0x46, 0x38, 0x37, 0x61]
  const GIF89: seq<Byte> := [0x47, 0x49, 0x46, 0x38, 0x39, 0x61]
  const RIFF: seq<Byte> := [0x52, 0x49, 0x46, 0x46]
  const SQLITE: seq<Byte> :=
    [0x53, 0x51, 0x4c, 0x69, 0x74, 0x65, 0x20, 0x66, 0x6f, 0x72, 0x6d, 0x61, 0x74, 0x20, 0x33, 0x00]

  function DetectWebImage(d: seq<Byte>): Option<Detected> {
    if Magic(d, JPEG) then Some(Detected("image/jpeg", ".jpg"))
    else if Magic(d, PNG) then Some(Detected("image/png", ".png"))
    else if Magic(d, GIF87) || Magic(d, GIF89) then Some(Detected("image/gif", ".gif"))
    else None
  }

  function DetectContainer(d: seq<Byte>): Option<Detected> {
    if Magic(d, RIFF) && SpellsAscii(d, 8, "WEBP") then Some(Detected("image/webp", ".webp"))
    else if Magic(d, RIFF) && SpellsAscii(d, 8, "WAVE") then Some(Detected("audio/wav", ".wav"))
    else if |d| >= 12 && SpellsAscii(d, 4, "ftyp") then
      if SpellsAscii(d, 8, "avif") || SpellsAscii(d, 8, "avis") || SpellsAscii(d, 8, "mif1") || SpellsAscii(d, 8, "msf1")
      then Some(Detected("image/avif", ".avif")) else Some(Detected("video/mp4", ".mp4"))
    else None
  }

  /** Formats known by their first four bytes or fewer. */
  function DetectShort(d: seq<Byte>): Option<Detected> {
    if |d| < 2 then None
    else if d[0] == 0x42 && d[1] == 0x4d then Some(Detected("image/bmp", ".bmp"))
    else if |d| >= 4 && (d[..4] == [0x49, 0x49, 0x2a, 0x00] || d[..4] == [0x4d, 0x4d, 0x00, 0x2a]) then
      Some(Detected("image/tiff", ".tiff"))
    else if |d| >= 4 && d[..4] == [0x00, 0x00, 0x01, 0x00] then Some(Detected("image/x-icon", ".ico"))
    else if |d| >= 4 && d[..4] == [0x25, 0x50, 0x44, 0x46] then Some(Detected("application/pdf", ".pdf"))
    else if d[0] == 0x1f && d[1] == 0x8b then Some(Detected("application/gzip", ".gz"))
    else if |d| >= 4 && d[0] == 0x50 && d[1] == 0x4b && d[2] in {3, 5, 7} && d[3] in {4, 6, 8} then
      Some(Detected("application/zip", ".zip"))
    else None
  }

  function DetectDatabaseOrTar(d: seq<Byte>): Option<Detected> {
    if Magic(d, SQLITE) then Some(Detected("application/vnd.sqlite3", ".db"))
    else if SpellsAscii(d, 257, "ustar") then Some(Detected("application/x-tar", ".tar"))
    else None
  }

  function DetectMedia(d: seq<Byte>): Option<Detected> {
    if |d| < 2 then None
    else if |d| >= 4 && d[..4] == [0x4f, 0x67, 0x67, 0x53] then Some(Detected("audio/ogg", ".ogg"))
    else if |d| >= 4 && d[..4] == [0x1a, 0x45, 0xdf, 0xa3] then Some(Detected("video/webm", ".webm"))
    else if |d| >= 3 && d[..3] == [0x49, 0x44, 0x33] then Some(Detected("audio/mpeg", ".mp3"))
    else if d[0] == 0xff && d[1] in {0xfb, 0xf3, 0xf2} then Some(Detected("audio/mpeg", ".mp3"))
    else None
  }

  /** The first signature that fits, tried in a fixed order. */
  function DetectSignature(d: seq<Byte>): Option<Detected> {
    if DetectWebImage(d).Some? then DetectWebImage(d)
    else if DetectContainer(d).Some? then DetectContainer(d)
    else if DetectShort(d).Some? then DetectShort(d)
    else if DetectDatabaseOrTar(d).Some? then DetectDatabaseOrTar(d)
    else DetectMedia(d)
  }

  function DetectContentType(host: Host, d: seq<Byte>): Detected {
    if d == [] then BINARY
    else if DetectSignature(d).Some? then DetectSignature(d).value
    else if TextSample(d).Some? then DetectText(host, TextSample(d).value)
    else BINARY
  }

  // ---------------------------------------------------------------------------------------------
  // Which bytes give which type
  // ---------------------------------------------------------------------------------------------

  lemma Leads(signature: seq<Byte>, rest: seq<Byte>)
    ensures Magic(signature + rest, signature)
    ensures forall i :: 0 <= i < |signature| ==> (signature + rest)[i] == signature[i]
  {
    assert (signature + rest)[..|signature|] == signature;
  }

  lemma MagicStarts(d: seq<Byte>, signature: seq<Byte>)
    ensures Magic(d, signature) && signature != [] ==> d != [] && d[0] == signature[0]
    ensures Magic(d, signature) && |signature| >= 2 ==> |d| >= 2 && d[1] == signature[1]
  {
    if Magic(d, signature) && signature != [] { assert d[..|signature|][0] == d[0]; }
    if Magic(d, signature) && |signature| >= 2 { assert d[..|signature|][1] == d[1]; }
  }

  lemma SignatureGivesType(host: Host, d: seq<Byte>)
    requires d != [] && DetectSignature(d).Some?
    ensures DetectContentType(host, d) == DetectSignature(d).value
  {
    hide DetectSignature, TextSample, DetectText;
  }

  /** Images, whatever follows their signature. */
  lemma ImagesDetected(host: Host, rest: seq<Byte>)
    ensures DetectContentType(host, [0xff, 0xd8, 0xff] + rest) == Detected("image/jpeg", ".jpg")
    ensures DetectContentType(host, [0x89, 0x50, 0x4e, 0x47, 0x0d, 0x0a, 0x1a, 0x0a] + rest) == Detected("image/png", ".png")
    ensures DetectContentType(host, [0x47, 0x49, 0x46, 0x38, 0x37, 0x61] + rest) == Detected("image/gif", ".gif")
    ensures DetectContentType(host, [0x47, 0x49, 0x46, 0x38, 0x39, 0x61] + rest) == Detected("image/gif", ".gif")
  {
    hide Magic, DetectContainer, DetectShort, DetectDatabaseOrTar, DetectMedia, DetectContentType;
    Leads(JPEG, rest);
    Leads(PNG, rest);
    Leads(GIF87, rest);
    Leads(GIF89, rest);
    MagicStarts(PNG + rest, JPEG);
    MagicStarts(GIF87 + rest, JPEG);
    MagicStarts(GIF87 + rest, PNG);
    MagicStarts(GIF89 + rest, JPEG);
    MagicStarts(GIF89 + rest, PNG);
    SignatureGivesType(host, JPEG + rest);
    SignatureGivesType(host, PNG + rest);
    SignatureGivesType(host, GIF87 + rest);
    SignatureGivesType(host, GIF89 + rest);
  }

  /** No image signature fits bytes that start otherwise. */
  lemma NoWebImage(d: seq<Byte>)
    requires d != [] && d[0] !in {0x89, 0x47} && (d[0] == 0xff ==> |d| >= 2 && d[1] != 0xd8)
    ensures DetectWebImage(d).None?
  {
    hide Magic;
    MagicStarts(d, JPEG);
    MagicStarts(d, PNG);
    MagicStarts(d, GIF87);
    MagicStarts(d, GIF89);
  }

  /** No ISO base media box. */
  predicate NoContainer(d: seq<Byte>) {
    !(|d| >= 12 && Ascii(d[4..8]) == "ftyp")
  }

  lemma NoContainerDetected(d: seq<Byte>)
    requires d != [] && d[0] != 0x52 && NoContainer(d)
    ensures DetectContainer(d).None?
  {
    MagicStarts(d, RIFF);
  }

  /** Formats of a short signature. */
  lemma ShortDetected(host: Host, d: seq<Byte>)
    requires |d| >= 4 && NoContainer(d)
    ensures d[0] == 0x42 && d[1] == 0x4d ==> DetectContentType(host, d) == Detected("image/bmp", ".bmp")
    ensures d[..4] == [0x49, 0x49, 0x2a, 0x00] || d[..4] == [0x4d, 0x4d, 0x00, 0x2a] ==>
              DetectContentType(host, d) == Detected("image/tiff", ".tiff")
    ensures d[..4] == [0x00, 0x00, 0x01, 0x00] ==> DetectContentType(host, d) == Detected("image/x-icon", ".ico")
    ensures d[..4] == [0x25, 0x50, 0x44, 0x46] ==> DetectContentType(host, d) == Detected("application/pdf", ".pdf")
    ensures d[0] == 0x1f && d[1] == 0x8b ==> DetectContentType(host, d) == Detected("application/gzip", ".gz")
    ensures d[0] == 0x50 && d[1] == 0x4b && d[2] in {3, 5, 7} && d[3] in {4, 6, 8} ==>
              DetectContentType(host, d) == Detected("application/zip", ".zip")
  {
    hide NoContainer, DetectWebImage, DetectContainer, DetectDatabaseOrTar, DetectMedia, DetectContentType, TextSample;
    assert d[..4][0] == d[0];
    if d[0] !in {0x89, 0x47, 0xff, 0x52} {
      NoWebImage(d);
      NoContainerDetected(d);
      if DetectShort(d).Some? { SignatureGivesType(host, d); }
    }
  }

  /** The containers: RIFF with a form type, and ISO base media with a brand. */
  lemma ContainersDetected(host: Host, d: seq<Byte>)
    requires |d| >= 12
    ensures d[..4] == [0x52, 0x49, 0x46, 0x46] && Ascii(d[8..12]) == "WEBP" ==>
              DetectContentType(host, d) == Detected("image/webp", ".webp")
    ensures d[..4] == [0x52, 0x49, 0x46, 0x46] && Ascii(d[8..12]) == "WAVE" ==>
              DetectContentType(host, d) == Detected("audio/wav", ".wav")
    ensures d[0] == 0x00 && Ascii(d[4..8]) == "ftyp" ==>
              DetectContentType(host, d)
              == if Ascii(d[8..12]) in ["avif", "avis", "mif1", "msf1"] then Detected("image/avif", ".avif")
                 else Detected("video/mp4", ".mp4")
  {
    hide Ascii, DetectWebImage, DetectShort, DetectDatabaseOrTar, DetectMedia, DetectContentType, TextSample;
    assert d[..4][0] == d[0];
    MagicStarts(d, RIFF);
    if d[0] in {0x52, 0x00} {
      NoWebImage(d);
      if DetectContainer(d).Some? { SignatureGivesType(host, d); }
    }
  }

  /** A database, whatever follows its header. */
  lemma SqliteDetected(host: Host, rest: seq<Byte>)
    ensures DetectContentType(host, SQLITE + rest) == Detected("application/vnd.sqlite3", ".db")
  {
    hide NoContainer, Magic, DetectWebImage, DetectContainer, DetectMedia, DetectContentType, TextSample;
    var d := SQLITE + rest;
    Leads(SQLITE, rest);
    NoWebImage(d);
    SqliteNoContainer(rest);
    NoContainerDetected(d);
    SignatureGivesType(host, d);
  }

  lemma SqliteNoContainer(rest: seq<Byte>)
    ensures NoContainer(SQLITE + rest)
  {
    assert Ascii((SQLITE + rest)[4..8])[0] == 't';
  }

  /** Formats that come after the archives and databases. */
  lemma MediaDetected(host: Host, d: seq<Byte>)
    requires |d| >= 4 && NoContainer(d) && !SpellsAscii(d, 257, "ustar")
    ensures d[..4] == [0x4f, 0x67, 0x67, 0x53] ==> DetectContentType(host, d) == Detected("audio/ogg", ".ogg")
    ensures d[..4] == [0x1a, 0x45, 0xdf, 0xa3] ==> DetectContentType(host, d) == Detected("video/webm", ".webm")
    ensures d[..3] == [0x49, 0x44, 0x33] || (d[0] == 0xff && d[1] in {0xfb, 0xf3, 0xf2}) ==>
              DetectContentType(host, d) == Detected("audio/mpeg", ".mp3")
  {
    hide NoContainer, Magic, SpellsAscii, DetectWebImage, DetectContainer, DetectContentType, TextSample;
    assert d[..4][0] == d[0] && d[..4][1] == d[1] && d[..3][0] == d[0] && d[..3][1] == d[1];
    MagicStarts(d, SQLITE);
    if d[0] in {0x4f, 0x1a, 0x49} || (d[0] == 0xff && d[1] in {0xfb, 0xf3, 0xf2}) {
      NoWebImage(d);
      NoContainerDetected(d);
      if DetectMedia(d).Some? && DetectShort(d).None? { SignatureGivesType(host, d); }
    }
  }

  /** An archive is known by its mark at offset 257, where no earlier signature fits. */
  lemma TarDetected(host: Host, d: seq<Byte>)
    requires |d| >= 262 && Ascii(d[257..262]) == "ustar" && !Magic(d, SQLITE)
    requires DetectWebImage(d).None? && DetectContainer(d).None? && DetectShort(d).None?
    ensures DetectContentType(host, d) == Detected("application/x-tar", ".tar")
  {
    hide Magic, DetectWebImage, DetectContainer, DetectShort, DetectMedia, DetectContentType, Ascii;
    SignatureGivesType(host, d);
  }

  lemma MagicInHead(d: seq<Byte>, signature: seq<Byte>)
    requires |signature| <= SAMPLE_BYTES
    ensures Magic(Take(d, SAMPLE_BYTES), signature) <==> Magic(d, signature)
  {
    if |d| >= |signature| { assert Take(d, SAMPLE_BYTES)[..|signature|] == d[..|signature|]; }
  }

  lemma AsciiInHead(d: seq<Byte>, from: nat, text: string)
    requires from + |text| <= SAMPLE_BYTES
    ensures SpellsAscii(Take(d, SAMPLE_BYTES), from, text) <==> SpellsAscii(d, from, text)
  {}

  lemma WebImageInHead(d: seq<Byte>)
    ensures DetectWebImage(Take(d, SAMPLE_BYTES)) == DetectWebImage(d)
  {}

  lemma ContainerInHead(d: seq<Byte>)
    ensures DetectContainer(Take(d, SAMPLE_BYTES)) == DetectContainer(d)
  {
    MagicInHead(d, RIFF);
    AsciiInHead(d, 8, "WEBP");
    AsciiInHead(d, 8, "WAVE");
    AsciiInHead(d, 4, "ftyp");
    AsciiInHead(d, 8, "avif");
    AsciiInHead(d, 8, "avis");
    AsciiInHead(d, 8, "mif1");
    AsciiInHead(d, 8, "msf1");
  }

  lemma ShortInHead(d: seq<Byte>)
    ensures DetectShort(Take(d, SAMPLE_BYTES)) == DetectShort(d)
  {
    if |d| >= 4 { assert Take(d, SAMPLE_BYTES)[..4] == d[..4]; }
  }

  lemma MediaInHead(d: seq<Byte>)
    ensures DetectMedia(Take(d, SAMPLE_BYTES)) == DetectMedia(d)
  {
    if |d| >= 4 { assert Take(d, SAMPLE_BYTES)[..4] == d[..4]; }
    if |d| >= 3 { assert Take(d, SAMPLE_BYTES)[..3] == d[..3]; }
  }

  lemma SignatureInHead(d: seq<Byte>)
    ensures DetectSignature(Take(d, SAMPLE_BYTES)) == DetectSignature(d)
  {
    WebImageInHead(d);
    ContainerInHead(d);
    ShortInHead(d);
    MagicInHead(d, SQLITE);
    AsciiInHead(d, 257, "ustar");
    MediaInHead(d);
  }

  lemma SampleInHead(d: seq<Byte>)
    ensures Sample(Take(d, SAMPLE_BYTES)) == Sample(d)
  {
    MagicInHead(d, BOM);
    assert Take(Take(d, SAMPLE_BYTES), SAMPLE_BYTES) == Take(d, SAMPLE_BYTES);
  }

  /** The first 4 KiB decide: nothing after them is ever looked at. */
  lemma HeadDecides(host: Host, d: seq<Byte>)
    ensures DetectContentType(host, Take(d, SAMPLE_BYTES)) == DetectContentType(host, d)
  {
    SignatureInHead(d);
    SampleInHead(d);
  }

  /** Alias names of the same format are made equal before types are compared. */
  function NormalizeMimeType(host: Host, mime: string): string {
    var lower := host.lower(Trim(mime));
    match lower
    case "image/jpg" => "image/jpeg"
    case "image/x-png" => "image/png"
    case "image/vnd.microsoft.icon" => "image/x-icon"
    case "application/x-gzip" => "application/gzip"
    case "application/x-gunzip" => "application/gzip"
    case "application/gzipped" => "application/gzip"
    case "gzip" => "application/gzip"
    case "application/x-zip" => "application/zip"
    case "application/x-zip-compressed" => "application/zip"
    case "application/x-sqlite3" => "application/vnd.sqlite3"
    case "application/sqlite3" => "application/vnd.sqlite3"
    case "application/x-sqlite" => "application/vnd.sqlite3"
    case "audio/mp3" => "audio/mpeg"
    case "text/x-markdown" => "text/markdown"
    case _ => lower
  }

  predicate Allows(allowed: string, detected: string) {
    || allowed == "*/*" || allowed == detected
    || (|allowed| >= 2 && allowed[|allowed| - 2..] == "/*" && StartsWith(detected, allowed[..|allowed| - 1]))
  }

  /** A type is allowed by the wildcard of all types, by itself, and by the wildcard of its family. */
  lemma AllowsIff(allowed: string, detected: string)
    ensures Allows(allowed, detected)
            <==> allowed == "*/*" || allowed == detected
                 || exists family: string :: allowed == family + "/*" && StartsWith(detected, family + "/")
  {
    if |allowed| >= 2 && allowed[|allowed| - 2..] == "/*" && StartsWith(detected, allowed[..|allowed| - 1]) {
      var family := allowed[..|allowed| - 2];
      assert allowed == family + "/*";
      assert allowed[..|allowed| - 1] == family + "/" by { assert allowed[|allowed| - 2..][0] == '/'; }
    }
    forall family: string | allowed == family + "/*" && StartsWith(detected, family + "/") ensures Allows(allowed, detected) {
      assert allowed[|allowed| - 2..] == "/*" && allowed[..|allowed| - 1] == family + "/";
    }
  }

  predicate IsAllowed(host: Host, allowedTypes: seq<string>, mime: string) {
    exists i | 0 <= i < |allowedTypes| ::
      Allows(NormalizeMimeType(host, allowedTypes[i]), NormalizeMimeType(host, mime))
  }
}
