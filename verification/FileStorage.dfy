/** Writing a file from a buffer or from a stream, and describing a stored one. */
module FileStorage {
  import opened Text
  import opened Bytes
  import opened Chunks
  import opened ContentType

  datatype Options = Options(maxBytes: Option<int>, allowedMimeTypes: seq<string>)

  datatype Outcome =
    | Stored(content: seq<Byte>, mime: string, extension: string)
    | TooLarge(limit: int, size: int)
    | Unsupported(mime: string)

  predicate Exceeds(options: Options, size: int) {
    options.maxBytes.Some? && size > options.maxBytes.value
  }

  predicate Accepts(host: Host, options: Options, mime: string) {
    options.allowedMimeTypes == [] || IsAllowed(host, options.allowedMimeTypes, mime)
  }

  /** Size first, then type, then the file is stored as it is. */
  function WriteBuffer(host: Host, content: seq<Byte>, options: Options): Outcome {
    if Exceeds(options, |content|) then TooLarge(options.maxBytes.value, |content|)
    else
      var detected := DetectContentType(host, content);
      if Accepts(host, options, detected.mime) then Stored(content, detected.mime, detected.extension)
      else Unsupported(detected.mime)
  }

  /** A buffer is stored exactly if it is within the limit and its detected type is allowed, where an empty list
      allows every type. What is too large is refused as that, whatever its type. */
  lemma StoredIff(host: Host, content: seq<Byte>, options: Options)
    ensures var mime := DetectContentType(host, content).mime;
            var fits := options.maxBytes.None? || |content| <= options.maxBytes.value;
            var allowed := |options.allowedMimeTypes| == 0
                           || exists i | 0 <= i < |options.allowedMimeTypes| ::
                                Allows(NormalizeMimeType(host, options.allowedMimeTypes[i]), NormalizeMimeType(host, mime));
            && (WriteBuffer(host, content, options).Stored? <==> fits && allowed)
            && (WriteBuffer(host, content, options).TooLarge? <==> !fits)
            && (WriteBuffer(host, content, options).Unsupported? ==> WriteBuffer(host, content, options).mime == mime)
  {}

  /** Takes the chunks as they come: counts them against the limit, keeps the first 4 KiB aside,
      appends them to the temporary file. Where the buffer would be stored or its type refused, so
      is the stream; where the buffer is too large, the stream is refused as soon as it is. The
      limit is looked at once per chunk, so a stream without chunks passes even a negative one. */
  method WriteStream(host: Host, chunks: seq<seq<Byte>>, options: Options) returns (outcome: Outcome)
    ensures var limits := if chunks == [] then options.(maxBytes := None) else options;
            var whole := WriteBuffer(host, Concat(chunks), limits);
            if whole.TooLarge?
            then outcome.TooLarge? && outcome.limit == whole.limit < outcome.size <= whole.size
            else outcome == whole
  {
    var file := [];
    var header := [];
    var totalBytes := 0;
    var i := 0;
    while i < |chunks|
      invariant i <= |chunks|
      invariant file == Concat(chunks[..i]) && totalBytes == |file|
      invariant header == Take(file, SAMPLE_BYTES)
      invariant i > 0 ==> !Exceeds(options, totalBytes)
    {
      var chunk := chunks[i];
      ConcatSnoc(chunks, i);
      ConcatSplit(chunks, i + 1);
      totalBytes := totalBytes + |chunk|;
      if Exceeds(options, totalBytes) {
        return TooLarge(options.maxBytes.value, totalBytes);
      }
      if |header| < SAMPLE_BYTES {
        header := header + Take(chunk, SAMPLE_BYTES - |header|);
      }
      file := file + chunk;
      i := i + 1;
    }
    assert chunks[..i] == chunks;
    var detected := DetectContentType(host, header);
    HeadDecides(host, file);
    if !Accepts(host, options, detected.mime) {
      return Unsupported(detected.mime);
    }
    return Stored(file, detected.mime, detected.extension);
  }

  /** The type reported for a stored file, read from its first 4 KiB. */
  function Stat(host: Host, content: seq<Byte>): string {
    DetectContentType(host, Take(content, SAMPLE_BYTES)).mime
  }

  /** What was reported when a file was stored is what a later look at it reports, and a limit
      never changes the type. */
  lemma StatAgrees(host: Host, content: seq<Byte>, options: Options)
    requires WriteBuffer(host, content, options).Stored?
    ensures var stored := WriteBuffer(host, content, options);
            stored.content == content && Stat(host, stored.content) == stored.mime
  {
    HeadDecides(host, content);
  }
}
