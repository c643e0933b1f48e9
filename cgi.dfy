/**
 * What the two CGI bridges (`riley-cms-core/src/git.rs` and `riley-core/src/git.rs`) share:
 * the buffered scan for the header/body separator, the handling of one `Key: Value` header
 * line, and the fold of header lines into a status and a header map.
 */
module Cgi {
  import opened Wrappers
  import opened Text

  const DefaultStatus: nat := 200

  datatype CgiHeaders = CgiHeaders(status: nat, headers: map<string, string>)

  const NoHeaders := CgiHeaders(DefaultStatus, map[])

  /**
   * What happens to a `status` header whose first token is not a `u16`: riley-cms-core stores
   * it in the map like any other header, riley-core drops it.
   */
  datatype StatusPolicy = StoreUnparsedStatus | DropStatusHeader

  /** `value.split_whitespace().next()` parsed as `u16`. */
  function StatusCode(value: string): (r: Option<nat>)
    ensures r.Some? ==> r.value <= U16_MAX
  {
    match FirstToken(value)
    case None => None
    case Some(token) => ParseUnsigned(token, U16_MAX)
  }

  /** A decimal code within `u16`, ended by whitespace or by the end of the value, is the status code. */
  lemma StatusCodeOfNumber(n: nat, rest: string)
    requires n <= U16_MAX && (rest == [] || IsWhitespace(rest[0]))
    ensures StatusCode(NatToString(n) + rest) == Some(n)
  {
    var digits := NatToString(n);
    assert forall i :: 0 <= i < |digits| ==> IsAsciiDigit(digits[i]);
    FirstTokenOf(digits, rest);
    ParseUnsignedNatToString(n, U16_MAX);
  }

  /** A decimal code beyond `u16` is no status code: the `u16` parse fails. */
  lemma StatusCodeOutOfRange(n: nat, rest: string)
    requires n > U16_MAX && (rest == [] || IsWhitespace(rest[0]))
    ensures StatusCode(NatToString(n) + rest) == None
  {
    var digits := NatToString(n);
    assert forall i :: 0 <= i < |digits| ==> IsAsciiDigit(digits[i]);
    FirstTokenOf(digits, rest);
    NatToStringRoundTrip(n);
  }

  /** One header line: split at the first ':', lower-case and trim the key, trim the value. */
  function ApplyHeaderLine(h: CgiHeaders, line: string, policy: StatusPolicy): CgiHeaders {
    match SplitOnce(line, ':')
    case None => h
    case Some((k, v)) =>
      var key := ToLower(Trim(k));
      var value := Trim(v);
      if key == "status" && StatusCode(value).Some? then h.(status := StatusCode(value).value)
      else if key == "status" && policy == DropStatusHeader then h
      else h.(headers := h.headers[key := value])
  }

  /**
   * One header line `k: v` where `k` has no ':' and is not a status header sets the trimmed,
   * lower-cased key to the trimmed value, overwriting an earlier one, and changes nothing else;
   * a line with no ':' changes nothing at all.
   */
  lemma HeaderLineEffect(h: CgiHeaders, k: string, v: string, policy: StatusPolicy)
    requires ':' !in k && ToLower(Trim(k)) != "status"
    ensures ApplyHeaderLine(h, k + [':'] + v, policy) == CgiHeaders(h.status, h.headers[ToLower(Trim(k)) := Trim(v)])
    ensures ':' !in k + v ==> ApplyHeaderLine(h, k + v, policy) == h
  {
    SplitOnceAtFirst(k + [':'] + v, k, v, ':');
  }

  /**
   * A `status` line `k: v`: a code that parses sets the status and is not stored; one that does
   * not is stored under "status" by riley-cms-core and dropped by riley-core, leaving the status
   * as it was in both.
   */
  lemma StatusLineEffect(h: CgiHeaders, k: string, v: string, policy: StatusPolicy)
    requires ':' !in k && ToLower(Trim(k)) == "status"
    ensures StatusCode(Trim(v)).Some? ==>
      ApplyHeaderLine(h, k + [':'] + v, policy) == h.(status := StatusCode(Trim(v)).value)
    ensures StatusCode(Trim(v)).None? && policy == StoreUnparsedStatus ==>
      ApplyHeaderLine(h, k + [':'] + v, policy) == h.(headers := h.headers["status" := Trim(v)])
    ensures StatusCode(Trim(v)).None? && policy == DropStatusHeader ==>
      ApplyHeaderLine(h, k + [':'] + v, policy) == h
  {
    SplitOnceAtFirst(k + [':'] + v, k, v, ':');
  }

  /**
   * What holds of every header set the parsers build: a `u16` status, lower-case keys, trimmed
   * values, and a `status` entry only when the policy stores one whose code did not parse.
   */
  ghost predicate WellFormed(h: CgiHeaders, policy: StatusPolicy) {
    h.status <= U16_MAX && forall k :: k in h.headers ==> GoodEntry(k, h.headers[k], policy)
  }

  ghost predicate GoodEntry(key: string, value: string, policy: StatusPolicy) {
    ToLower(key) == key && Trim(value) == value
    && (key == "status" ==> policy == StoreUnparsedStatus && StatusCode(value).None?)
  }

  lemma ApplyHeaderLineWellFormed(h: CgiHeaders, line: string, policy: StatusPolicy)
    requires WellFormed(h, policy)
    ensures WellFormed(ApplyHeaderLine(h, line, policy), policy)
  {
    if SplitOnce(line, ':').Some? {
      var (k, v) := SplitOnce(line, ':').value;
      var key := ToLower(Trim(k));
      var value := Trim(v);
      if !(key == "status" && StatusCode(value).Some?) && !(key == "status" && policy == DropStatusHeader) {
        ToLowerIdempotent(Trim(k));
        TrimIdempotent(v);
        assert GoodEntry(key, value, policy);
        var m := h.headers[key := value];
        forall x | x in m ensures GoodEntry(x, m[x], policy) {
          if x != key { assert m[x] == h.headers[x]; }
        }
        assert ApplyHeaderLine(h, line, policy) == h.(headers := m);
      }
    }
  }

  /** `lines()` of the header text, skipping empty lines, folded left to right. */
  function FoldLines(h: CgiHeaders, lines: seq<string>, policy: StatusPolicy): CgiHeaders
    decreases |lines|
  {
    if lines == [] then h
    else FoldLines(if lines[0] == [] then h else ApplyHeaderLine(h, lines[0], policy), lines[1..], policy)
  }

  lemma {:induction false} FoldLinesWellFormed(h: CgiHeaders, lines: seq<string>, policy: StatusPolicy)
    requires WellFormed(h, policy)
    ensures WellFormed(FoldLines(h, lines, policy), policy)
    decreases |lines|
  {
    if lines != [] {
      if lines[0] != [] { ApplyHeaderLineWellFormed(h, lines[0], policy); }
      FoldLinesWellFormed(if lines[0] == [] then h else ApplyHeaderLine(h, lines[0], policy), lines[1..], policy);
    }
  }

  /** The loop over header lines of `parse_cgi_response`. */
  method ParseHeaderLines(lines: seq<string>, policy: StatusPolicy) returns (h: CgiHeaders)
    ensures h == FoldLines(NoHeaders, lines, policy)
    ensures WellFormed(h, policy)
  {
    h := NoHeaders;
    for i := 0 to |lines|
      invariant FoldLines(NoHeaders, lines, policy) == FoldLines(h, lines[i..], policy)
      invariant WellFormed(h, policy)
    {
      assert lines[i..][1..] == lines[i + 1..];
      var line := lines[i];
      if line == [] {
        continue;
      }
      ApplyHeaderLineWellFormed(h, line, policy);
      h := ApplyHeaderLine(h, line, policy);
    }
    assert lines[|lines|..] == [];
  }

  // ---------------------------------------------------------------- separator scan

  const CR: byte := 13
  const LF: byte := 10

  predicate CrLfCrLfAt(data: seq<byte>, i: nat) {
    i + 3 < |data| && data[i] == CR && data[i + 1] == LF && data[i + 2] == CR && data[i + 3] == LF
  }

  predicate LfLfAt(data: seq<byte>, i: nat) {
    i + 1 < |data| && data[i] == LF && data[i + 1] == LF
  }

  predicate SeparatorAt(data: seq<byte>, i: nat) { CrLfCrLfAt(data, i) || LfLfAt(data, i) }

  /** Where the body begins after a separator at `i`; `\r\n\r\n` wins over `\n\n` at the same index. */
  function SeparatorEnd(data: seq<byte>, i: nat): nat {
    if CrLfCrLfAt(data, i) then i + 4 else i + 2
  }

  predicate IsFirstSeparator(data: seq<byte>, i: nat) {
    i < |data| && SeparatorAt(data, i) && forall j: nat :: j < i ==> !SeparatorAt(data, j)
  }

  lemma FirstSeparatorUnique(data: seq<byte>, i: nat, j: nat)
    requires IsFirstSeparator(data, i) && IsFirstSeparator(data, j)
    ensures i == j
  {
  }

  /** The scan of `parse_cgi_response`: 0 when there is no separator, else just past the first one. */
  method FindBodyStart(data: seq<byte>) returns (bodyStart: nat)
    ensures bodyStart <= |data|
    ensures bodyStart == 0 <==> forall i: nat :: i < |data| ==> !SeparatorAt(data, i)
    ensures bodyStart > 0 ==> exists i: nat :: IsFirstSeparator(data, i) && bodyStart == SeparatorEnd(data, i)
  {
    bodyStart := 0;
    var i := 0;
    while i < |data|
      invariant 0 <= i <= |data|
      invariant forall j: nat :: j < i ==> !SeparatorAt(data, j)
    {
      if i + 3 < |data| && data[i..i + 4] == [CR, LF, CR, LF] {
        assert CrLfCrLfAt(data, i);
        bodyStart := i + 4;
        assert IsFirstSeparator(data, i);
        return;
      }
      if i + 1 < |data| && data[i..i + 2] == [LF, LF] {
        assert data[i] == data[i..i + 2][0] && data[i + 1] == data[i..i + 2][1];
        bodyStart := i + 2;
        assert IsFirstSeparator(data, i);
        return;
      }
      i := i + 1;
    }
  }

  /** The body is everything after the separator; with no separator it is empty, whatever the data. */
  function BodyAfter(data: seq<byte>, bodyStart: nat): (r: seq<byte>)
    requires bodyStart <= |data|
    ensures bodyStart > 0 ==> r == data[bodyStart..]
    ensures bodyStart == 0 ==> r == []
  {
    if bodyStart > 0 && bodyStart < |data| then data[bodyStart..] else []
  }

  datatype CgiResponse = CgiResponse(status: nat, headers: map<string, string>, body: seq<byte>)

  /**
   * `parse_cgi_response`, over a decoder standing for `String::from_utf8_lossy`. It never fails,
   * so the `Result` wrapper of the source is left out.
   */
  method ParseCgiResponse(data: seq<byte>, lossy: seq<byte> -> string, policy: StatusPolicy) returns (r: CgiResponse)
    ensures WellFormed(CgiHeaders(r.status, r.headers), policy)
    ensures (forall i: nat :: i < |data| ==> !SeparatorAt(data, i)) ==> r == CgiResponse(DefaultStatus, map[], [])
    ensures forall i: nat :: IsFirstSeparator(data, i) ==>
      r.body == data[SeparatorEnd(data, i)..]
      && CgiHeaders(r.status, r.headers) == FoldLines(NoHeaders, Lines(lossy(data[..SeparatorEnd(data, i)])), policy)
  {
    var bodyStart := FindBodyStart(data);
    var h := NoHeaders;
    if bodyStart > 0 {
      var headerText := lossy(data[..bodyStart]);
      h := ParseHeaderLines(Lines(headerText), policy);
    }
    forall i: nat | IsFirstSeparator(data, i) ensures bodyStart == SeparatorEnd(data, i) {
      var j: nat :| IsFirstSeparator(data, j) && bodyStart == SeparatorEnd(data, j);
      FirstSeparatorUnique(data, i, j);
    }
    r := CgiResponse(h.status, h.headers, BodyAfter(data, bodyStart));
  }
}
