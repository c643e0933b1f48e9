/**
 * The pieces of Rust's `str`/`u16`/`u64` library the core relies on, stated over `seq<char>`:
 * trimming, splitting, prefix stripping, substring search, `lines()`, decimal parsing and
 * printing, lexicographic order and lower-case hex encoding.
 */
module Text {
  import opened Wrappers

  newtype byte = x: int | 0 <= x < 256

  /** `char::is_whitespace`: the Unicode White_Space property. */
  predicate IsWhitespace(c: char) {
    c == '\t' || c == '\n' || c == '\U{0B}' || c == '\U{0C}' || c == '\r' || c == ' '
    || c == '\U{85}' || c == '\U{A0}' || c == '\U{1680}' || ('\U{2000}' <= c <= '\U{200A}')
    || c == '\U{2028}' || c == '\U{2029}' || c == '\U{202F}' || c == '\U{205F}' || c == '\U{3000}'
  }

  predicate IsCrOrLf(c: char) { c == '\r' || c == '\n' }

  predicate IsSlash(c: char) { c == '/' }

  predicate IsAsciiDigit(c: char) { '0' <= c <= '9' }

  predicate IsAsciiAlphanumeric(c: char) { IsAsciiDigit(c) || 'a' <= c <= 'z' || 'A' <= c <= 'Z' }

  /** `trim_start_matches(p)`: drops the longest prefix of characters satisfying `p`. */
  function TrimStartWhile(s: string, p: char -> bool): (r: string)
    ensures |r| <= |s| && r == s[|s| - |r|..]
    ensures r == [] || !p(r[0])
    ensures forall i :: 0 <= i < |s| - |r| ==> p(s[i])
  {
    if s != [] && p(s[0]) then TrimStartWhile(s[1..], p) else s
  }

  /** `trim_end_matches(p)`: drops the longest suffix of characters satisfying `p`. */
  function TrimEndWhile(s: string, p: char -> bool): (r: string)
    ensures |r| <= |s| && r == s[..|r|]
    ensures r == [] || !p(r[|r| - 1])
    ensures forall i :: |r| <= i < |s| ==> p(s[i])
  {
    if s != [] && p(s[|s| - 1]) then TrimEndWhile(s[..|s| - 1], p) else s
  }

  /** `str::trim`. */
  function Trim(s: string): string {
    TrimEndWhile(TrimStartWhile(s, IsWhitespace), IsWhitespace)
  }

  lemma TrimNeverEndsInWhitespace(s: string)
    ensures var t := Trim(s); t == [] || (!IsWhitespace(t[0]) && !IsWhitespace(t[|t| - 1]))
  {
  }

  /** `str::trim_matches(p)`: drops the longest prefix and the longest suffix of characters satisfying `p`. */
  function TrimMatches(s: string, p: char -> bool): string {
    TrimEndWhile(TrimStartWhile(s, p), p)
  }

  /** A trimmed string is its own trim. */
  lemma TrimIdempotent(s: string)
    ensures Trim(Trim(s)) == Trim(s)
  {
    TrimNeverEndsInWhitespace(s);
  }

  function LowerChar(c: char): char {
    if 'A' <= c <= 'Z' then (c as int + 32) as char else c
  }

  /** `to_lowercase`, restricted to ASCII letters. */
  function ToLower(s: string): (r: string)
    ensures |r| == |s|
    ensures forall i :: 0 <= i < |s| ==> r[i] == LowerChar(s[i])
  {
    if s == [] then [] else [LowerChar(s[0])] + ToLower(s[1..])
  }

  lemma ToLowerIdempotent(s: string)
    ensures ToLower(ToLower(s)) == ToLower(s)
  {
  }

  /** Position of the first occurrence of `c`. */
  function IndexOf(s: string, c: char): (r: Option<nat>)
    ensures r.None? <==> c !in s
    ensures r.Some? ==> r.value < |s| && s[r.value] == c && c !in s[..r.value]
  {
    if s == [] then None
    else if s[0] == c then Some(0)
    else match IndexOf(s[1..], c)
      case None => None
      case Some(i) => assert s[1..][..i] == s[1..i + 1]; Some(i + 1)
  }

  /** `split_once(c)`: the text before and after the first `c`. */
  function SplitOnce(s: string, c: char): (r: Option<(string, string)>)
    ensures r.None? <==> c !in s
    ensures r.Some? ==> s == r.value.0 + [c] + r.value.1 && c !in r.value.0
  {
    match IndexOf(s, c)
    case None => None
    case Some(i) => assert s == s[..i] + [c] + s[i + 1..]; Some((s[..i], s[i + 1..]))
  }

  /** `split_once` splits at the first occurrence: a prefix free of `c` is exactly the text before it. */
  lemma SplitOnceAtFirst(s: string, before: string, after: string, c: char)
    requires s == before + [c] + after && c !in before
    ensures SplitOnce(s, c) == Some((before, after))
  {
    assert s[|before|] == c && s[..|before|] == before && s[|before| + 1..] == after;
    var i := IndexOf(s, c).value;
    assert i <= |before| ==> s[..i] == before[..i];
  }

  predicate StartsWith(s: string, prefix: string) {
    |prefix| <= |s| && s[..|prefix|] == prefix
  }

  /** `strip_prefix`. */
  function StripPrefix(s: string, prefix: string): (r: Option<string>)
    ensures r.Some? <==> StartsWith(s, prefix)
    ensures r.Some? ==> s == prefix + r.value
  {
    if StartsWith(s, prefix) then Some(s[|prefix|..]) else None
  }

  predicate ContainsAt(s: string, pat: string, i: int) {
    0 <= i && i + |pat| <= |s| && s[i..i + |pat|] == pat
  }

  /** `str::contains` for a string pattern. */
  predicate Contains(s: string, pat: string) {
    exists i :: 0 <= i <= |s| - |pat| && ContainsAt(s, pat, i)
  }

  /** An occurrence in either part of a concatenation is an occurrence in the whole. */
  lemma ContainsInLeft(s: string, t: string, pat: string)
    requires Contains(s, pat)
    ensures Contains(s + t, pat)
  {
    var i :| 0 <= i <= |s| - |pat| && ContainsAt(s, pat, i);
    assert (s + t)[i..i + |pat|] == s[i..i + |pat|];
    assert ContainsAt(s + t, pat, i);
  }

  lemma ContainsInRight(s: string, t: string, pat: string)
    requires Contains(t, pat)
    ensures Contains(s + t, pat)
  {
    var i :| 0 <= i <= |t| - |pat| && ContainsAt(t, pat, i);
    assert (s + t)[|s| + i..|s| + i + |pat|] == t[i..i + |pat|];
    assert ContainsAt(s + t, pat, |s| + i);
  }

  /** `split_whitespace().next()`. */
  function FirstToken(s: string): (r: Option<string>)
    ensures r.Some? ==> r.value != [] && forall i :: 0 <= i < |r.value| ==> !IsWhitespace(r.value[i])
    ensures r.None? <==> forall i :: 0 <= i < |s| ==> IsWhitespace(s[i])
  {
    var t := TrimStartWhile(s, IsWhitespace);
    if t == [] then None else Some(TakeNonWhitespace(t))
  }

  function TakeNonWhitespace(s: string): (r: string)
    ensures |r| <= |s| && r == s[..|r|]
    ensures forall i :: 0 <= i < |r| ==> !IsWhitespace(r[i])
    ensures |r| < |s| ==> IsWhitespace(s[|r|])
  {
    if s == [] || IsWhitespace(s[0]) then [] else [s[0]] + TakeNonWhitespace(s[1..])
  }

  /** A token followed by nothing or by whitespace is taken whole. */
  lemma {:induction false} TakeWholeToken(a: string, b: string)
    requires forall i :: 0 <= i < |a| ==> !IsWhitespace(a[i])
    requires b == [] || IsWhitespace(b[0])
    ensures TakeNonWhitespace(a + b) == a
  {
    if a != [] {
      assert (a + b)[0] == a[0];
      assert (a + b)[1..] == a[1..] + b;
      TakeWholeToken(a[1..], b);
    } else {
      assert a + b == b;
    }
  }

  /** The first whitespace-separated token of `a + b` is `a` when `a` is a token ended by `b`. */
  lemma FirstTokenOf(a: string, b: string)
    requires a != [] && forall i :: 0 <= i < |a| ==> !IsWhitespace(a[i])
    requires b == [] || IsWhitespace(b[0])
    ensures FirstToken(a + b) == Some(a)
  {
    assert (a + b)[0] == a[0];
    assert TrimStartWhile(a + b, IsWhitespace) == a + b;
    TakeWholeToken(a, b);
  }

  /** `str::split(c)`: always at least one piece; no piece contains `c`. */
  function Split(s: string, c: char): (r: seq<string>)
    ensures |r| >= 1
    ensures forall k :: 0 <= k < |r| ==> c !in r[k]
    decreases |s|
  {
    match SplitOnce(s, c)
    case None => [s]
    case Some((a, b)) => [a] + Split(b, c)
  }

  function Join(parts: seq<string>, c: char): string {
    if |parts| <= 1 then (if parts == [] then [] else parts[0])
    else parts[0] + [c] + Join(parts[1..], c)
  }

  lemma {:induction false} JoinSplit(s: string, c: char)
    ensures Join(Split(s, c), c) == s
    decreases |s|
  {
    match SplitOnce(s, c)
    case None =>
    case Some((a, b)) => JoinSplit(b, c);
  }

  function StripTrailingCr(line: string): string {
    if line != [] && line[|line| - 1] == '\r' then line[..|line| - 1] else line
  }

  /** `str::lines`: split at `\n`, drop one `\r` before each `\n`, no final empty line. */
  function Lines(s: string): (r: seq<string>)
    ensures s == [] <==> r == []
    ensures forall k :: 0 <= k < |r| ==> '\n' !in r[k]
    decreases |s|
  {
    if s == [] then []
    else match SplitOnce(s, '\n')
      case None => [s]
      case Some((a, b)) =>
        assert '\n' !in StripTrailingCr(a) by {
          assert forall i :: 0 <= i < |StripTrailingCr(a)| ==> StripTrailingCr(a)[i] == a[i];
        }
        [StripTrailingCr(a)] + Lines(b)
  }

  function DigitValue(c: char): nat
    requires IsAsciiDigit(c)
  {
    c as int - '0' as int
  }

  function DigitChar(d: nat): (c: char)
    requires d < 10
    ensures IsAsciiDigit(c) && DigitValue(c) == d
  {
    ('0' as int + d) as char
  }

  predicate AllDigits(s: string) {
    forall i :: 0 <= i < |s| ==> IsAsciiDigit(s[i])
  }

  /** The value of a string of decimal digits, most significant first. */
  function DigitsValue(s: string): nat
    requires AllDigits(s)
  {
    if s == [] then 0 else DigitsValue(s[..|s| - 1]) * 10 + DigitValue(s[|s| - 1])
  }

  /** `to_string` of an unsigned integer. */
  function NatToString(n: nat): (r: string)
    ensures r != [] && AllDigits(r)
  {
    if n < 10 then [DigitChar(n)] else NatToString(n / 10) + [DigitChar(n % 10)]
  }

  lemma {:induction false} NatToStringRoundTrip(n: nat)
    ensures DigitsValue(NatToString(n)) == n
  {
    if n >= 10 {
      var r := NatToString(n);
      assert r[..|r| - 1] == NatToString(n / 10);
      NatToStringRoundTrip(n / 10);
    }
  }

  /** `<uN as FromStr>::from_str` with `max = 2^N - 1`: an optional `+`, then one or more digits, no overflow. */
  function ParseUnsigned(s: string, max: nat): (r: Option<nat>)
    ensures r.Some? ==> r.value <= max
  {
    var digits := if s != [] && s[0] == '+' then s[1..] else s;
    if digits != [] && AllDigits(digits) && DigitsValue(digits) <= max then Some(DigitsValue(digits)) else None
  }

  const U16_MAX: nat := 0xFFFF
  const U64_MAX: nat := 0xFFFF_FFFF_FFFF_FFFF

  lemma ParseUnsignedNatToString(n: nat, max: nat)
    requires n <= max
    ensures ParseUnsigned(NatToString(n), max) == Some(n)
  {
    NatToStringRoundTrip(n);
  }

  /** Lexicographic order on code points, which is the byte order of the UTF-8 encodings (Rust's `Ord for str`). */
  predicate LexLe(a: string, b: string) {
    if a == [] then true
    else if b == [] then false
    else if a[0] != b[0] then a[0] < b[0]
    else LexLe(a[1..], b[1..])
  }

  lemma LexLeTotal(a: string, b: string)
    ensures LexLe(a, b) || LexLe(b, a)
  {
  }

  lemma LexLeAntisymmetric(a: string, b: string)
    requires LexLe(a, b) && LexLe(b, a)
    ensures a == b
  {
    if a != [] && b != [] && a[0] == b[0] {
      LexLeAntisymmetric(a[1..], b[1..]);
      assert a == [a[0]] + a[1..];
      assert b == [b[0]] + b[1..];
    }
  }

  lemma LexLeTransitive(a: string, b: string, c: string)
    requires LexLe(a, b) && LexLe(b, c)
    ensures LexLe(a, c)
  {
    if a != [] && b != [] && c != [] && a[0] == b[0] && b[0] == c[0] {
      LexLeTransitive(a[1..], b[1..], c[1..]);
    }
  }

  function HexDigit(d: nat): (c: char)
    requires d < 16
  {
    if d < 10 then ('0' as int + d) as char else ('a' as int + d - 10) as char
  }

  /** `hex::encode`: two lower-case hex digits per byte, high nibble first. */
  function Hex(bs: seq<byte>): (r: string)
    ensures |r| == 2 * |bs|
    ensures forall i :: 0 <= i < |bs| ==>
      r[2 * i] == HexDigit(bs[i] as nat / 16) && r[2 * i + 1] == HexDigit(bs[i] as nat % 16)
  {
    if bs == [] then []
    else
      var rest := Hex(bs[1..]);
      var r := [HexDigit(bs[0] as nat / 16), HexDigit(bs[0] as nat % 16)] + rest;
      assert forall i :: 1 <= i < |bs| ==> r[2 * i] == rest[2 * (i - 1)] && r[2 * i + 1] == rest[2 * (i - 1) + 1];
      r
  }
}
