/** The handful of Python `str` operations the completion pipeline relies on,
    written out with Python's own semantics: `split(sep)`, `splitlines()`,
    `isspace()`, `rstrip()`/`strip()`, `startswith`, prefix slicing with a
    possibly negative bound, and the UTF-8 / UTF-16 lengths of `encode`. */
module Text {

  /** Python `s.split(sep)` for a non-empty separator: always at least one part. */
  function Split(s: string, sep: string): (r: seq<string>)
    requires |sep| > 0
    ensures |r| >= 1
    decreases |s|
  {
    if |s| < |sep| then [s]
    else if s[..|sep|] == sep then [""] + Split(s[|sep|..], sep)
    else
      var t := Split(s[1..], sep);
      [[s[0]] + t[0]] + t[1..]
  }

  /** Python `sep.join(parts)`. */
  function Join(parts: seq<string>, sep: string): string {
    if |parts| == 0 then ""
    else if |parts| == 1 then parts[0]
    else parts[0] + sep + Join(parts[1..], sep)
  }

  lemma JoinCons(head: string, rest: seq<string>, sep: string)
    requires |rest| >= 1
    ensures Join([head] + rest, sep) == head + sep + Join(rest, sep)
  {
    assert ([head] + rest)[1..] == rest;
  }

  lemma JoinPrepend(c: char, parts: seq<string>, sep: string)
    requires |parts| >= 1
    ensures Join([[c] + parts[0]] + parts[1..], sep) == [c] + Join(parts, sep)
  {
    if |parts| == 1 {
    } else {
      JoinCons([c] + parts[0], parts[1..], sep);
      JoinCons(parts[0], parts[1..], sep);
      assert [parts[0]] + parts[1..] == parts;
    }
  }

  /** `split` and `join` with the same separator are inverse: no text is lost
      or reordered when a line is cut at its separators. */
  lemma {:induction false} JoinSplit(s: string, sep: string)
    requires |sep| > 0
    ensures Join(Split(s, sep), sep) == s
    decreases |s|
  {
    if |s| < |sep| {
    } else if s[..|sep|] == sep {
      var t := Split(s[|sep|..], sep);
      assert Split(s, sep) == [""] + t;
      assert Join(Split(s, sep), sep) == sep + Join(t, sep) by {
        JoinCons("", t, sep);
      }
      assert Join(t, sep) == s[|sep|..] by {
        JoinSplit(s[|sep|..], sep);
      }
      assert s == sep + s[|sep|..];
    } else {
      var t := Split(s[1..], sep);
      assert Split(s, sep) == [[s[0]] + t[0]] + t[1..];
      assert Join(Split(s, sep), sep) == [s[0]] + Join(t, sep) by {
        JoinPrepend(s[0], t, sep);
      }
      assert Join(t, sep) == s[1..] by {
        JoinSplit(s[1..], sep);
      }
      assert s == [s[0]] + s[1..];
    }
  }

  /** The line boundaries of Python's `str.splitlines`. */
  predicate IsLineBoundary(c: char) {
    c == '\n' || c == '\r' || c == '\U{0B}' || c == '\U{0C}'
    || c == '\U{1C}' || c == '\U{1D}' || c == '\U{1E}'
    || c == '\U{85}' || c == '\U{2028}' || c == '\U{2029}'
  }

  /** Index of the first line boundary in `s`, or `|s|` when there is none. */
  function LineEnd(s: string): (k: nat)
    ensures k <= |s|
    ensures forall i :: 0 <= i < k ==> !IsLineBoundary(s[i])
    ensures k < |s| ==> IsLineBoundary(s[k])
  {
    if |s| == 0 || IsLineBoundary(s[0]) then 0 else 1 + LineEnd(s[1..])
  }

  /** Python `s.splitlines()` (boundaries dropped; `"\r\n"` is one boundary;
      the empty string has no lines and a final boundary opens no extra line). */
  function SplitLines(s: string): (r: seq<string>)
    ensures forall i, j :: 0 <= i < |r| && 0 <= j < |r[i]| ==> !IsLineBoundary(r[i][j])
    ensures |s| == 0 <==> |r| == 0
    decreases |s|
  {
    if |s| == 0 then []
    else
      var k := LineEnd(s);
      if k == |s| then [s]
      else
        var skip := if s[k] == '\r' && k + 1 < |s| && s[k + 1] == '\n' then 2 else 1;
        [s[..k]] + SplitLines(s[k + skip..])
  }

  /** Python `str.isspace` on one character. */
  predicate IsSpace(c: char) {
    ('\U{09}' <= c <= '\U{0D}') || ('\U{1C}' <= c <= ' ')
    || c == '\U{85}' || c == '\U{A0}' || c == '\U{1680}'
    || ('\U{2000}' <= c <= '\U{200A}') || c == '\U{2028}' || c == '\U{2029}'
    || c == '\U{202F}' || c == '\U{205F}' || c == '\U{3000}'
  }

  /** Python `s.rstrip()`. */
  function RStrip(s: string): (r: string)
    ensures r <= s
    ensures |r| > 0 ==> !IsSpace(r[|r| - 1])
    ensures forall i :: |r| <= i < |s| ==> IsSpace(s[i])
  {
    if |s| == 0 then s
    else if IsSpace(s[|s| - 1]) then RStrip(s[..|s| - 1])
    else s
  }

  /** Python `s.lstrip()`. */
  function LStrip(s: string): (r: string)
    ensures |r| <= |s| && r == s[|s| - |r|..]
    ensures |r| > 0 ==> !IsSpace(r[0])
  {
    if |s| == 0 then s
    else if IsSpace(s[0]) then LStrip(s[1..])
    else s
  }

  /** Python `s.strip()`: a slice of `s`, so it holds no character `s` lacks. */
  function Strip(s: string): (r: string)
    ensures forall i :: 0 <= i < |r| ==> r[i] in s
  {
    var t := RStrip(s);
    var r := LStrip(t);
    assert forall i :: 0 <= i < |r| ==> r[i] == t[|t| - |r| + i] == s[|t| - |r| + i];
    r
  }

  /** Python `s.startswith(prefix)`. */
  predicate StartsWith(s: string, prefix: string) {
    prefix <= s
  }

  /** ASCII lower-casing; what `lower`/`casefold` do on ASCII text. */
  function AsciiLower(s: string): (r: string)
    ensures |r| == |s|
  {
    if |s| == 0 then ""
    else [if 'A' <= s[0] <= 'Z' then (s[0] as int + 32) as char else s[0]] + AsciiLower(s[1..])
  }

  /** Python `s.replace(c, "")` for a single character. */
  function Remove(s: string, c: char): (r: string)
    ensures |r| <= |s|
    ensures c !in r
  {
    if |s| == 0 then ""
    else (if s[0] == c then "" else [s[0]]) + Remove(s[1..], c)
  }

  /** Python `len(b[:k])` for a byte string of length `n`: a negative `k`
      counts from the end. */
  function SliceLen(n: nat, k: int): (r: nat)
    ensures r <= n
  {
    if k >= 0 then (if k <= n then k else n)
    else if n + k >= 0 then n + k else 0
  }

  /** Python `s[:k]` on a `str`. */
  function Prefix(s: string, k: int): (r: string)
    ensures |r| == SliceLen(|s|, k) && r == s[..|r|]
  {
    s[..SliceLen(|s|, k)]
  }

  /** Number of bytes of one character in UTF-8. */
  function Utf8Width(c: char): nat {
    if c as int < 0x80 then 1
    else if c as int < 0x800 then 2
    else if c as int < 0x10000 then 3
    else 4
  }

  /** `len(s.encode("UTF-8"))`. */
  function Utf8Len(s: string): nat {
    if |s| == 0 then 0 else Utf8Width(s[0]) + Utf8Len(s[1..])
  }

  /** Number of UTF-16 code units of `s`. */
  function Utf16Len(s: string): nat {
    if |s| == 0 then 0 else (if s[0] as int < 0x10000 then 1 else 2) + Utf16Len(s[1..])
  }

  /** UTF-8 byte length of the longest prefix of `s` that fits in `units`
      UTF-16 code units: the byte column that a UTF-16 column designates. */
  function Utf8OfUtf16Prefix(s: string, units: int): nat
    decreases |s|
  {
    if |s| == 0 then 0
    else
      var w := if s[0] as int < 0x10000 then 1 else 2;
      if units < w then 0 else Utf8Width(s[0]) + Utf8OfUtf16Prefix(s[1..], units - w)
  }

  /** UTF-8 length distributes over concatenation. */
  lemma {:induction false} Utf8LenAppend(a: string, b: string)
    ensures Utf8Len(a + b) == Utf8Len(a) + Utf8Len(b)
    decreases |a|
  {
    if |a| > 0 {
      assert (a + b)[0] == a[0] && (a + b)[1..] == a[1..] + b;
      Utf8LenAppend(a[1..], b);
    } else {
      assert a + b == b;
    }
  }

  /** A prefix takes no more UTF-8 bytes nor UTF-16 units than the whole. */
  lemma {:induction false} PrefixLens(s: string, k: nat)
    requires k <= |s|
    ensures Utf8Len(s[..k]) <= Utf8Len(s) && Utf16Len(s[..k]) <= Utf16Len(s)
    decreases k
  {
    if k > 0 {
      assert s[..k][0] == s[0] && s[..k][1..] == s[1..][..k - 1];
      PrefixLens(s[1..], k - 1);
    }
  }

  /** The UTF-16 column of a character boundary designates the UTF-8 length
      of the characters before it. */
  lemma {:induction false} Utf8OfUtf16Boundary(s: string, k: nat)
    requires k <= |s|
    ensures Utf8OfUtf16Prefix(s, Utf16Len(s[..k])) == Utf8Len(s[..k])
    decreases k
  {
    if k > 0 {
      assert s[..k][0] == s[0] && s[..k][1..] == s[1..][..k - 1];
      Utf8OfUtf16Boundary(s[1..], k - 1);
    }
  }

  /** Every character is below 0x80. */
  predicate Ascii(s: string) {
    forall i :: 0 <= i < |s| ==> s[i] as int < 0x80
  }

  /** On ASCII text bytes, UTF-16 units and characters coincide. */
  lemma {:induction false} AsciiLens(s: string)
    requires Ascii(s)
    ensures Utf8Len(s) == |s| && Utf16Len(s) == |s|
    decreases |s|
  {
    if |s| > 0 {
      assert forall i :: 0 <= i < |s[1..]| ==> s[1..][i] == s[i + 1];
      AsciiLens(s[1..]);
    }
  }

  /** On ASCII text a UTF-16 column is a byte column, capped at the end. */
  lemma {:induction false} AsciiUtf16Prefix(s: string, units: nat)
    requires Ascii(s)
    ensures Utf8OfUtf16Prefix(s, units) == if units <= |s| then units else |s|
    decreases |s|
  {
    if |s| > 0 && units >= 1 {
      assert forall i :: 0 <= i < |s[1..]| ==> s[1..][i] == s[i + 1];
      AsciiUtf16Prefix(s[1..], units - 1);
    }
  }

  /** The stripped first line of a text holds no line boundary. */
  lemma FirstLineStripped(s: string)
    requires |s| > 0
    ensures var line := Strip(SplitLines(s)[0]); forall i :: 0 <= i < |line| ==> !IsLineBoundary(line[i])
  {
    var first := SplitLines(s)[0];
    forall i | 0 <= i < |Strip(first)| ensures !IsLineBoundary(Strip(first)[i]) {
      var j :| 0 <= j < |first| && first[j] == Strip(first)[i];
      assert !IsLineBoundary(SplitLines(s)[0][j]);
    }
  }
}
