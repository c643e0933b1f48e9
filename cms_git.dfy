/**
 * riley-cms-core's streaming Git CGI bridge (`git.rs`): the CGI environment, the stdin
 * forwarding loop with its body-size limit, the line-by-line header reader with its 16 KiB
 * cap, and the order in which `run_cgi` reports failures.
 *
 * The child's stdout is the byte sequence it writes; `read_line`'s UTF-8 check is the decoder
 * parameter `utf8`. The request body is a sequence of chunks, each data or a stream error, and
 * the outcome of the i-th write to the child's stdin is `pipe(i)`.
 */
module CmsGit {
  import opened Wrappers
  import opened Text
  import opened Cgi

  /** The failures of `run_cgi`, each with the text its `Error::Git` carries. */
  datatype GitError =
    | Spawn(detail: string)
    | HeaderReadFailed(detail: string)
    | HeadersTooLarge
    | BodyStream(detail: string)
    | BodyTooLarge(total: nat, max: nat)
    | StdinWrite(detail: string)
    | StdinPanicked(detail: string)

  function Message(e: GitError): string {
    match e
    case Spawn(d) => d
    case HeaderReadFailed(d) => "Failed to read CGI headers: " + d
    case HeadersTooLarge => "CGI headers too large (>" + NatToString(MaxCgiHeaderSize) + " bytes). Possible malformed response."
    case BodyStream(d) => "Body stream error: " + d
    case BodyTooLarge(total, max) =>
      "Request body too large (" + NatToString(total) + " bytes exceeds max " + NatToString(max) + " bytes)"
    case StdinWrite(d) => "Failed to write to git-http-backend stdin: " + d
    case StdinPanicked(d) => "stdin task panicked: " + d
  }

  /** The `Display` of `Error::Git`, which the handler inspects. */
  function Display(e: GitError): string { "Git error: " + Message(e) }

  // ---------------------------------------------------------------- environment

  /** `run_cgi`'s environment: four fixed variables, the optional three only when supplied. */
  method BuildEnv(repoPath: string, requestMethod: string, pathInfo: string, queryString: Option<string>,
                  contentType: Option<string>, contentLength: Option<nat>) returns (env: map<string, string>)
    requires contentLength.Some? ==> contentLength.value <= U64_MAX
    ensures env.Keys == {"GIT_PROJECT_ROOT", "GIT_HTTP_EXPORT_ALL", "PATH_INFO", "REQUEST_METHOD"}
      + (if queryString.Some? then {"QUERY_STRING"} else {})
      + (if contentType.Some? then {"CONTENT_TYPE"} else {})
      + (if contentLength.Some? then {"CONTENT_LENGTH"} else {})
    ensures env["GIT_PROJECT_ROOT"] == repoPath && env["GIT_HTTP_EXPORT_ALL"] == "1"
    ensures env["PATH_INFO"] == pathInfo && env["REQUEST_METHOD"] == requestMethod
    ensures queryString.Some? ==> env["QUERY_STRING"] == queryString.value
    ensures contentType.Some? ==> env["CONTENT_TYPE"] == contentType.value
    ensures contentLength.Some? ==> env["CONTENT_LENGTH"] == NatToString(contentLength.value)
    ensures contentLength.Some? ==> ParseUnsigned(env["CONTENT_LENGTH"], U64_MAX) == contentLength
  {
    env := map[];
    env := env["GIT_PROJECT_ROOT" := repoPath];
    env := env["GIT_HTTP_EXPORT_ALL" := "1"];
    env := env["PATH_INFO" := pathInfo];
    env := env["REQUEST_METHOD" := requestMethod];
    if queryString.Some? {
      env := env["QUERY_STRING" := queryString.value];
    }
    if contentType.Some? {
      env := env["CONTENT_TYPE" := contentType.value];
    }
    if contentLength.Some? {
      env := env["CONTENT_LENGTH" := NatToString(contentLength.value)];
      ParseUnsignedNatToString(contentLength.value, U64_MAX);
    }
  }

  // ---------------------------------------------------------------- stdin forwarding

  datatype Chunk = Data(bytes: seq<byte>) | StreamFailure(detail: string)

  datatype Write = Written | BrokenPipe | WriteFailed(detail: string)

  datatype StdinEnd = AllForwarded | PipeClosed | Failed(error: GitError)

  /** How forwarding ended and how many chunks were written in full before that. */
  datatype Forwarding = Forwarding(end: StdinEnd, chunksWritten: nat)

  /** The bytes of the data chunks of `cs`, in order. */
  function Flatten(cs: seq<Chunk>): seq<byte> {
    if cs == [] then [] else Flatten(cs[..|cs| - 1]) + (match cs[|cs| - 1] case Data(b) => b case StreamFailure(_) => [])
  }

  /**
   * The stdin task from chunk `i` on, with `total` bytes counted so far: the count is updated
   * before the write, and a chunk that takes it past `max` is not written.
   */
  function Forward(chunks: seq<Chunk>, max: nat, pipe: nat -> Write, i: nat, total: nat): (f: Forwarding)
    requires i <= |chunks|
    ensures i <= f.chunksWritten <= |chunks|
    decreases |chunks| - i
  {
    if i == |chunks| then Forwarding(AllForwarded, i)
    else match chunks[i]
      case StreamFailure(d) => Forwarding(Failed(BodyStream(d)), i)
      case Data(b) =>
        var t := total + |b|;
        if t > max then Forwarding(Failed(BodyTooLarge(t, max)), i)
        else match pipe(i)
          case Written => Forward(chunks, max, pipe, i + 1, t)
          case BrokenPipe => Forwarding(PipeClosed, i)
          case WriteFailed(d) => Forwarding(Failed(StdinWrite(d)), i)
  }

  /** The stdin task: the bytes it writes, how it ends, and whether it shuts stdin down. */
  method StreamStdin(chunks: seq<Chunk>, max: nat, pipe: nat -> Write)
    returns (end: StdinEnd, written: seq<byte>, shutdown: bool)
    ensures var f := Forward(chunks, max, pipe, 0, 0);
      end == f.end && written == Flatten(chunks[..f.chunksWritten])
    ensures |written| <= max
    ensures shutdown <==> !end.Failed?
  {
    written := [];
    var total := 0;
    var i := 0;
    while i < |chunks|
      invariant 0 <= i <= |chunks|
      invariant written == Flatten(chunks[..i]) && total == |written| <= max
      invariant forall j :: 0 <= j < i ==> chunks[j].Data?
      invariant Forward(chunks, max, pipe, 0, 0) == Forward(chunks, max, pipe, i, total)
    {
      assert chunks[..i + 1][..i] == chunks[..i];
      match chunks[i] {
        case StreamFailure(d) =>
          return Failed(BodyStream(d)), written, false;
        case Data(b) =>
          total := total + |b|;
          if total > max {
            return Failed(BodyTooLarge(total, max)), written, false;
          }
          match pipe(i) {
            case Written =>
              written := written + b;
            case BrokenPipe =>
              return PipeClosed, written, true;
            case WriteFailed(d) =>
              return Failed(StdinWrite(d)), written, false;
          }
      }
      i := i + 1;
    }
    return AllForwarded, written, true;
  }

  /**
   * The promises of the stdin task about a finished forwarding `f`. Every early end is caused by
   * the chunk just after the written ones: a broken pipe on writing it ends the task without an
   * error, a failed write ends it with that error, and a stream error in it ends it with that
   * error.
   */
  predicate ForwardingKeepsLimit(chunks: seq<Chunk>, max: nat, pipe: nat -> Write, f: Forwarding) {
    f.chunksWritten <= |chunks|
    && (forall j :: 0 <= j < f.chunksWritten ==> chunks[j].Data?)
    && |Flatten(chunks[..f.chunksWritten])| <= max
    && (f.end == AllForwarded ==> f.chunksWritten == |chunks|)
    && (f.end.Failed? && f.end.error.BodyTooLarge? ==>
          f.chunksWritten < |chunks| && chunks[f.chunksWritten].Data?
          && f.end.error == BodyTooLarge(|Flatten(chunks[..f.chunksWritten + 1])|, max)
          && |Flatten(chunks[..f.chunksWritten + 1])| > max)
    && (f.end == PipeClosed ==>
          f.chunksWritten < |chunks| && chunks[f.chunksWritten].Data? && pipe(f.chunksWritten) == BrokenPipe
          && |Flatten(chunks[..f.chunksWritten + 1])| <= max)
    && (f.end.Failed? && f.end.error.StdinWrite? ==>
          f.chunksWritten < |chunks| && chunks[f.chunksWritten].Data?
          && pipe(f.chunksWritten) == WriteFailed(f.end.error.detail))
    && (f.end.Failed? && f.end.error.BodyStream? ==>
          f.chunksWritten < |chunks| && chunks[f.chunksWritten] == StreamFailure(f.end.error.detail))
    && (f.end.Failed? ==> f.end.error.BodyTooLarge? || f.end.error.StdinWrite? || f.end.error.BodyStream?)
  }

  lemma FlattenSnoc(chunks: seq<Chunk>, i: nat)
    requires i < |chunks| && chunks[i].Data?
    ensures Flatten(chunks[..i + 1]) == Flatten(chunks[..i]) + chunks[i].bytes
  {
    assert chunks[..i + 1][..i] == chunks[..i];
  }

  lemma {:induction false} ForwardFacts(chunks: seq<Chunk>, max: nat, pipe: nat -> Write, i: nat, total: nat)
    requires i <= |chunks| && (forall j :: 0 <= j < i ==> chunks[j].Data?) && total == |Flatten(chunks[..i])| <= max
    ensures ForwardingKeepsLimit(chunks, max, pipe, Forward(chunks, max, pipe, i, total))
    decreases |chunks| - i
  {
    if i < |chunks| && chunks[i].Data? {
      FlattenSnoc(chunks, i);
      var t := total + |chunks[i].bytes|;
      assert t == |Flatten(chunks[..i + 1])|;
      if t <= max && pipe(i).Written? {
        ForwardFacts(chunks, max, pipe, i + 1, t);
      }
    }
  }

  /**
   * What the stdin task promises: it writes a prefix of the body, in order, never more than
   * `max` bytes; it reports "too large" with the running total of the first chunk that would
   * exceed `max`, which it does not write; a broken pipe ends it without an error, a failed
   * write or a stream error with that error; and it finishes only after writing every chunk.
   */
  lemma ForwardingWithinLimit(chunks: seq<Chunk>, max: nat, pipe: nat -> Write)
    ensures ForwardingKeepsLimit(chunks, max, pipe, Forward(chunks, max, pipe, 0, 0))
  {
    assert chunks[..0] == [];
    ForwardFacts(chunks, max, pipe, 0, 0);
  }

  // ---------------------------------------------------------------- header reader

  const MaxCgiHeaderSize: nat := 16 * 1024

  /** Where `read_line` stops: just past the next `\n`, or at the end of the data. */
  function LineEnd(data: seq<byte>, pos: nat): (e: nat)
    requires pos < |data|
    ensures pos < e <= |data|
    ensures forall k :: pos <= k < e - 1 ==> data[k] != LF
    ensures data[e - 1] == LF || e == |data|
    decreases |data| - pos
  {
    if data[pos] == LF || pos + 1 == |data| then pos + 1 else LineEnd(data, pos + 1)
  }

  /** The header reader's result and where it leaves the reader. */
  datatype HeaderRead = HeaderRead(result: Result<CgiHeaders, GitError>, position: nat)

  const InvalidUtf8 := "stream did not contain valid UTF-8"

  /** `read_cgi_headers` from byte `pos` on, with the headers `h` collected so far. */
  function ReadFrom(data: seq<byte>, pos: nat, h: CgiHeaders, utf8: seq<byte> -> Option<string>): HeaderRead
    requires pos <= |data|
    decreases |data| - pos
  {
    if pos == |data| then HeaderRead(Ok(h), pos)
    else
      var e := LineEnd(data, pos);
      match utf8(data[pos..e])
      case None => HeaderRead(Err(HeaderReadFailed(InvalidUtf8)), e)
      case Some(line) =>
        if e > MaxCgiHeaderSize then HeaderRead(Err(HeadersTooLarge), e)
        else
          var trimmed := TrimEndWhile(line, IsCrOrLf);
          if trimmed == [] then HeaderRead(Ok(h), e)
          else ReadFrom(data, e, ApplyHeaderLine(h, trimmed, StoreUnparsedStatus), utf8)
  }

  /** `read_cgi_headers`: the running byte count is the reader's position, since it starts at 0. */
  method ReadCgiHeaders(data: seq<byte>, utf8: seq<byte> -> Option<string>) returns (r: HeaderRead)
    ensures r == ReadFrom(data, 0, NoHeaders, utf8)
  {
    var h := NoHeaders;
    var totalHeaderBytes := 0;
    var pos := 0;
    while pos < |data|
      invariant totalHeaderBytes == pos <= |data|
      invariant ReadFrom(data, 0, NoHeaders, utf8) == ReadFrom(data, pos, h, utf8)
      decreases |data| - pos
    {
      var e := LineEnd(data, pos);
      var line := utf8(data[pos..e]);
      if line.None? {
        return HeaderRead(Err(HeaderReadFailed(InvalidUtf8)), e);
      }
      var bytesRead := e - pos;
      pos := e;
      totalHeaderBytes := totalHeaderBytes + bytesRead;
      if totalHeaderBytes > MaxCgiHeaderSize {
        return HeaderRead(Err(HeadersTooLarge), pos);
      }
      var trimmed := TrimEndWhile(line.value, IsCrOrLf);
      if trimmed == [] {
        return HeaderRead(Ok(h), pos);
      }
      h := ApplyHeaderLine(h, trimmed, StoreUnparsedStatus);
    }
    return HeaderRead(Ok(h), pos);
  }

  /** The promises of the header reader about a read `r` of `data` that began at byte 0. */
  ghost predicate ReadKeepsCap(data: seq<byte>, r: HeaderRead) {
    r.position <= |data|
    && (r.result.Ok? ==>
          r.position <= MaxCgiHeaderSize
          && (r.position == |data| || (0 < r.position && data[r.position - 1] == LF))
          && WellFormed(r.result.value, StoreUnparsedStatus))
    && (r.result == Err(HeadersTooLarge) ==> r.position > MaxCgiHeaderSize)
  }

  lemma {:induction false} ReadFromFacts(data: seq<byte>, pos: nat, h: CgiHeaders, utf8: seq<byte> -> Option<string>)
    requires pos <= |data| && pos <= MaxCgiHeaderSize && WellFormed(h, StoreUnparsedStatus)
    requires pos == |data| || pos == 0 || data[pos - 1] == LF
    ensures ReadKeepsCap(data, ReadFrom(data, pos, h, utf8))
    decreases |data| - pos
  {
    if pos < |data| {
      var e := LineEnd(data, pos);
      var line := utf8(data[pos..e]);
      if line.Some? && e <= MaxCgiHeaderSize {
        var trimmed := TrimEndWhile(line.value, IsCrOrLf);
        if trimmed != [] {
          var h' := ApplyHeaderLine(h, trimmed, StoreUnparsedStatus);
          ApplyHeaderLineWellFormed(h, trimmed, StoreUnparsedStatus);
          assert ReadFrom(data, pos, h, utf8) == ReadFrom(data, e, h', utf8);
          ReadFromFacts(data, e, h', utf8);
        }
      }
    }
  }

  /**
   * The header reader never accepts more than 16 KiB of header lines, fails with "too large"
   * only once the count passes that, leaves the reader at the end of the data or just past a
   * newline (the start of the body), and returns well-formed headers.
   */
  lemma HeaderReadBounded(data: seq<byte>, utf8: seq<byte> -> Option<string>)
    ensures ReadKeepsCap(data, ReadFrom(data, 0, NoHeaders, utf8))
  {
    ReadFromFacts(data, 0, NoHeaders, utf8);
  }

  /** The lines `read_line` returns from byte `pos` to the end of the data, each with its `\n`. */
  function RawLines(data: seq<byte>, pos: nat): (r: seq<seq<byte>>)
    requires pos <= |data|
    ensures pos == |data| <==> r == []
    decreases |data| - pos
  {
    if pos == |data| then [] else [data[pos..LineEnd(data, pos)]] + RawLines(data, LineEnd(data, pos))
  }

  /** The bytes of a run of lines, in order. */
  function Concat(lines: seq<seq<byte>>): seq<byte> {
    if lines == [] then [] else lines[0] + Concat(lines[1..])
  }

  /** A line that decodes and is not the blank separator line. */
  predicate IsHeaderLine(raw: seq<byte>, utf8: seq<byte> -> Option<string>) {
    utf8(raw).Some? && TrimEndWhile(utf8(raw).value, IsCrOrLf) != []
  }

  /** Decoded header lines with their line endings trimmed. */
  function TrimmedLines(lines: seq<seq<byte>>, utf8: seq<byte> -> Option<string>): (r: seq<string>)
    requires forall i :: 0 <= i < |lines| ==> IsHeaderLine(lines[i], utf8)
    ensures |r| == |lines|
  {
    if lines == [] then []
    else
      assert IsHeaderLine(lines[0], utf8);
      [TrimEndWhile(utf8(lines[0]).value, IsCrOrLf)] + TrimmedLines(lines[1..], utf8)
  }

  /**
   * End of data before any blank line: when every remaining line decodes and is a header line
   * and the data fit the cap, the reader returns the headers collected so far folded with every
   * one of those lines, at the end of the data.
   */
  lemma {:induction false} ReadUpToEof(data: seq<byte>, pos: nat, h: CgiHeaders, utf8: seq<byte> -> Option<string>)
    requires pos <= |data| <= MaxCgiHeaderSize
    requires forall i :: 0 <= i < |RawLines(data, pos)| ==> IsHeaderLine(RawLines(data, pos)[i], utf8)
    ensures ReadFrom(data, pos, h, utf8)
         == HeaderRead(Ok(FoldLines(h, TrimmedLines(RawLines(data, pos), utf8), StoreUnparsedStatus)), |data|)
    decreases |data| - pos
  {
    if pos < |data| {
      var e := LineEnd(data, pos);
      var lines := RawLines(data, pos);
      var rest := RawLines(data, e);
      assert lines == [data[pos..e]] + rest;
      assert lines[1..] == rest;
      assert IsHeaderLine(lines[0], utf8);
      var t := TrimEndWhile(utf8(data[pos..e]).value, IsCrOrLf);
      var h' := ApplyHeaderLine(h, t, StoreUnparsedStatus);
      forall i | 0 <= i < |rest| ensures IsHeaderLine(rest[i], utf8) {
        assert rest[i] == lines[i + 1];
      }
      ReadUpToEof(data, e, h', utf8);
      var ts := TrimmedLines(lines, utf8);
      assert ts == [t] + TrimmedLines(rest, utf8);
      assert ts[1..] == TrimmedLines(rest, utf8);
    }
  }

  /**
   * The blank line ends the headers: when line `n` is the first that trims to empty and the
   * lines up to it fit the cap, the reader returns the headers collected so far folded with the
   * `n` lines before it, positioned just past the blank line.
   */
  lemma {:induction false} ReadUpToBlankLine(data: seq<byte>, pos: nat, h: CgiHeaders, utf8: seq<byte> -> Option<string>, n: nat)
    requires pos <= |data| && n < |RawLines(data, pos)|
    requires forall i :: 0 <= i < n ==> IsHeaderLine(RawLines(data, pos)[i], utf8)
    requires utf8(RawLines(data, pos)[n]).Some? && TrimEndWhile(utf8(RawLines(data, pos)[n]).value, IsCrOrLf) == []
    requires pos + |Concat(RawLines(data, pos)[..n + 1])| <= MaxCgiHeaderSize
    ensures ReadFrom(data, pos, h, utf8)
         == HeaderRead(Ok(FoldLines(h, TrimmedLines(RawLines(data, pos)[..n], utf8), StoreUnparsedStatus)),
                       pos + |Concat(RawLines(data, pos)[..n + 1])|)
    decreases n
  {
    var e := LineEnd(data, pos);
    var lines := RawLines(data, pos);
    var rest := RawLines(data, e);
    assert lines == [data[pos..e]] + rest;
    assert lines[..n + 1] == [lines[0]] + lines[1..][..n];
    assert lines[1..] == rest;
    var tail := rest[..n];
    assert Concat(lines[..n + 1]) == lines[0] + Concat(tail);
    assert |lines[0]| == e - pos;
    if n > 0 {
      assert IsHeaderLine(lines[0], utf8);
      var t := TrimEndWhile(utf8(data[pos..e]).value, IsCrOrLf);
      var h' := ApplyHeaderLine(h, t, StoreUnparsedStatus);
      forall i | 0 <= i < n - 1 ensures IsHeaderLine(rest[i], utf8) {
        assert rest[i] == lines[i + 1];
      }
      assert rest[n - 1] == lines[n];
      assert rest[..n - 1 + 1] == tail;
      ReadUpToBlankLine(data, e, h', utf8, n - 1);
      var ts := TrimmedLines(lines[..n], utf8);
      assert lines[..n] == [lines[0]] + rest[..n - 1];
      assert ts == [t] + TrimmedLines(rest[..n - 1], utf8);
      assert ts[1..] == TrimmedLines(rest[..n - 1], utf8);
    } else {
      assert lines[..0] == [];
    }
  }

  /** Header text with no line at all (immediate end of output) gives status 200 and no headers. */
  lemma EmptyOutputDefaults(utf8: seq<byte> -> Option<string>)
    ensures ReadFrom([], 0, NoHeaders, utf8) == HeaderRead(Ok(CgiHeaders(200, map[])), 0)
  {
  }

  // ---------------------------------------------------------------- run_cgi

  /**
   * The order of failures in `run_cgi` after the child is spawned: a header-read failure wins;
   * otherwise a stdin failure is reported only if the stdin task had already finished when the
   * headers were parsed (`stdinDone`), a race the caller cannot control.
   */
  function RunCgiOutcome(spawn: Option<GitError>, headers: HeaderRead, stdinDone: bool, stdin: StdinEnd)
    : (r: Result<CgiHeaders, GitError>)
    ensures r.Ok? <==> spawn.None? && headers.result.Ok? && !(stdinDone && stdin.Failed?)
    ensures r.Err? && spawn.None? && headers.result.Ok? ==> r.error == stdin.error
  {
    if spawn.Some? then Err(spawn.value)
    else if headers.result.Err? then Err(headers.result.error)
    else if stdinDone && stdin.Failed? then Err(stdin.error)
    else Ok(headers.result.value)
  }

  /** An oversized body reaches the caller as an error only when the stdin task won the race. */
  lemma BodyTooLargeNeedsRace(headers: HeaderRead, stdin: StdinEnd)
    requires headers.result.Ok? && stdin.Failed? && stdin.error.BodyTooLarge?
    ensures RunCgiOutcome(None, headers, true, stdin) == Err(stdin.error)
    ensures RunCgiOutcome(None, headers, false, stdin) == Ok(headers.result.value)
  {
  }
}
