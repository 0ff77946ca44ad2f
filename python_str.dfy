/**
 * The pieces of Python's `str` and text-file semantics that the harness relies on:
 * `readline()` on a file opened in text mode, `startswith`, `strip()`,
 * `split(sep)`, indexing with `[-1]` and the substring test `in`.
 */
module PyStr {

  /** Python's `str.isspace()` on one character (the characters of Unicode
      category Zs and of bidirectional class WS, B or S). */
  predicate IsSpace(c: char) {
    var n := c as int;
    (9 <= n <= 13) || (28 <= n <= 32) || n == 0x85 || n == 0xA0 || n == 0x1680
    || (0x2000 <= n <= 0x200A) || n == 0x2028 || n == 0x2029 || n == 0x202F
    || n == 0x205F || n == 0x3000
  }

  /** Every character of `s` at positions `lo` up to (not including) `hi` is whitespace. */
  predicate SpaceBetween(s: string, lo: int, hi: int)
    requires 0 <= lo && hi <= |s|
  {
    forall i :: lo <= i < hi ==> IsSpace(s[i])
  }

  /** Neither the first nor the last character is whitespace. */
  predicate Trimmed(s: string) {
    s == [] || (!IsSpace(s[0]) && !IsSpace(s[|s| - 1]))
  }

  /** `s.startswith(prefix)` */
  predicate StartsWith(s: string, prefix: string) {
    |prefix| <= |s| && s[..|prefix|] == prefix
  }

  /** `s[-1]` */
  function Last<T>(s: seq<T>): T
    requires |s| > 0
  {
    s[|s| - 1]
  }

  // ---------------------------------------------------------------- readline

  /** In text mode with universal newlines, "\n", "\r" and "\r\n" all end a line. */
  predicate IsLineBreak(c: char) {
    c == '\n' || c == '\r'
  }

  predicate NoBreak(s: string) {
    forall i :: 0 <= i < |s| ==> !IsLineBreak(s[i])
  }

  /** `f.readline()` on a fresh text-mode file whose decoded contents are `text`:
      everything up to the first line break, which comes back as "\n";
      the whole text when there is no line break. */
  function ReadLine(text: string): (line: string)
    ensures NoBreak(text) ==> line == text
    ensures !NoBreak(text) ==>
      var k := |line| - 1;
      0 <= k < |text| && line[k] == '\n' && IsLineBreak(text[k])
      && line[..k] == text[..k] && NoBreak(text[..k])
  {
    if text == [] then []
    else if IsLineBreak(text[0]) then "\n"
    else [text[0]] + ReadLine(text[1..])
  }

  /** The first line is the text before the first break, whatever follows it. */
  lemma {:induction false} ReadLineOf(line: string, brk: char, rest: string)
    requires NoBreak(line) && IsLineBreak(brk)
    ensures ReadLine(line + [brk] + rest) == line + "\n"
  {
    if line != [] {
      assert (line + [brk] + rest)[1..] == line[1..] + [brk] + rest;
      ReadLineOf(line[1..], brk, rest);
    }
  }

  // ------------------------------------------------------------------- strip

  /** `s.lstrip()` */
  function LStrip(s: string): (r: string)
    ensures |r| <= |s| && r == s[|s| - |r|..]
    ensures SpaceBetween(s, 0, |s| - |r|)
    ensures r == [] || !IsSpace(r[0])
  {
    if s != [] && IsSpace(s[0]) then LStrip(s[1..]) else s
  }

  /** `s.rstrip()` */
  function RStrip(s: string): (r: string)
    ensures |r| <= |s| && r == s[..|r|]
    ensures SpaceBetween(s, |r|, |s|)
    ensures r == [] || !IsSpace(r[|r| - 1])
  {
    if s != [] && IsSpace(s[|s| - 1]) then RStrip(s[..|s| - 1]) else s
  }

  /** `r` is the slice `s[a..b]`, has no whitespace at either end, and only
      whitespace lies outside it. */
  predicate StripsAt(r: string, s: string, a: int, b: int) {
    0 <= a <= b <= |s| && r == s[a..b]
    && SpaceBetween(s, 0, a) && SpaceBetween(s, b, |s|) && Trimmed(r)
  }

  /** `r` is `s` with its leading and trailing whitespace removed. */
  ghost predicate IsStripOf(r: string, s: string) {
    exists a, b :: StripsAt(r, s, a, b)
  }

  /** `s.strip()` */
  function Strip(s: string): (r: string)
    ensures IsStripOf(r, s)
  {
    var t := RStrip(s);
    var r := LStrip(t);
    assert StripsAt(r, s, |t| - |r|, |t|);
    r
  }

  /** Stripping has exactly one answer. */
  lemma StripUnique(s: string, r1: string, r2: string)
    requires IsStripOf(r1, s) && IsStripOf(r2, s)
    ensures r1 == r2
  {
    var a1, b1 :| StripsAt(r1, s, a1, b1);
    var a2, b2 :| StripsAt(r2, s, a2, b2);
    if r1 != [] && r2 != [] {
      assert r1[0] == s[a1] && r2[0] == s[a2];
      assert r1[|r1| - 1] == s[b1 - 1] && r2[|r2| - 1] == s[b2 - 1];
    }
  }

  /** A trailing whitespace character (such as the "\n" that `readline` keeps)
      never changes the stripped text. */
  lemma StripAppendSpace(s: string, c: char)
    requires IsSpace(c)
    ensures Strip(s + [c]) == Strip(s)
  {
    var r := Strip(s);
    var a, b :| StripsAt(r, s, a, b);
    StripsAtAppend(r, s, a, b, c);
    StripUnique(s + [c], Strip(s + [c]), r);
  }

  lemma StripsAtAppend(r: string, s: string, a: int, b: int, c: char)
    requires StripsAt(r, s, a, b) && IsSpace(c)
    ensures StripsAt(r, s + [c], a, b)
  {
    var t := s + [c];
    assert t[a..b] == r;
    assert SpaceBetween(t, 0, a) by {
      forall i | 0 <= i < a ensures IsSpace(t[i]) { assert t[i] == s[i]; }
    }
    assert SpaceBetween(t, b, |t|) by {
      forall i | b <= i < |t| ensures IsSpace(t[i]) {
        if i < |s| { assert t[i] == s[i]; }
      }
    }
  }

  /** Text with no whitespace at either end is left as it is. */
  lemma StripTrimmed(s: string)
    requires Trimmed(s)
    ensures Strip(s) == s
  {
    assert StripsAt(s, s, 0, |s|);
    StripUnique(s, Strip(s), s);
  }

  // ------------------------------------------------------------------- split

  /** `sep.join(parts)`, the inverse of `Split`. */
  function Join(parts: seq<string>, sep: char): string {
    if parts == [] then ""
    else if |parts| == 1 then parts[0]
    else parts[0] + [sep] + Join(parts[1..], sep)
  }

  /** `s.split(sep)` for a one-character separator: the pieces between separators,
      so adjacent separators give empty pieces and "" gives [""]. */
  function Split(s: string, sep: char): (parts: seq<string>)
    ensures |parts| >= 1
  {
    if s == [] then [""]
    else
      var rest := Split(s[1..], sep);
      if s[0] == sep then [""] + rest
      else [[s[0]] + rest[0]] + rest[1..]
  }

  /** No piece holds the separator. */
  predicate SepFree(parts: seq<string>, sep: char) {
    forall i :: 0 <= i < |parts| ==> sep !in parts[i]
  }

  /** Joining the pieces gives back the text: the pieces are separator-free
      and cover the text exactly. */
  lemma {:induction false} JoinSplit(s: string, sep: char)
    ensures SepFree(Split(s, sep), sep)
    ensures Join(Split(s, sep), sep) == s
  {
    if s != [] {
      var rest := Split(s[1..], sep);
      JoinSplit(s[1..], sep);
      if s[0] == sep {
        assert Join(Split(s, sep), sep) == "" + [sep] + Join(rest, sep);
      } else {
        var parts := Split(s, sep);
        assert parts[1..] == rest[1..];
        if |rest| == 1 {
          assert Join(parts, sep) == [s[0]] + rest[0];
        } else {
          assert Join(rest, sep) == rest[0] + [sep] + Join(rest[1..], sep);
          assert Join(parts, sep) == [s[0]] + rest[0] + [sep] + Join(rest[1..], sep);
        }
        assert sep !in parts[0];
        assert forall i :: 1 <= i < |parts| ==> parts[i] == rest[i];
      }
    }
  }

  /** Splitting a separator-free prefix `w` glues it to the first piece. */
  lemma {:induction false} SplitPrefix(w: string, s: string, sep: char)
    requires sep !in w
    ensures Split(w + s, sep) == [w + Split(s, sep)[0]] + Split(s, sep)[1..]
  {
    if w != [] {
      assert (w + s)[1..] == w[1..] + s;
      SplitPrefix(w[1..], s, sep);
      assert [w[0]] + (w[1..] + Split(s, sep)[0]) == w + Split(s, sep)[0];
    } else {
      assert w + s == s;
      assert w + Split(s, sep)[0] == Split(s, sep)[0];
      assert [Split(s, sep)[0]] + Split(s, sep)[1..] == Split(s, sep);
    }
  }

  /** Splitting undoes joining, when no piece holds the separator. */
  lemma {:induction false} SplitJoin(parts: seq<string>, sep: char)
    requires |parts| >= 1 && SepFree(parts, sep)
    ensures Split(Join(parts, sep), sep) == parts
  {
    if |parts| == 1 {
      SplitPrefix(parts[0], "", sep);
      assert parts[0] + "" == parts[0];
    } else {
      var tail := Join(parts[1..], sep);
      SplitJoin(parts[1..], sep);
      assert parts[0] + [sep] + tail == parts[0] + ([sep] + tail);
      SplitPrefix(parts[0], [sep] + tail, sep);
      assert ([sep] + tail)[1..] == tail;
      assert parts[0] + "" == parts[0];
    }
  }

  /** `t` is the last `sep`-separated token of `s`: the longest suffix of `s`
      free of `sep`. */
  predicate IsLastToken(t: string, s: string, sep: char) {
    sep !in t && |t| <= |s| && s[|s| - |t|..] == t
    && (|t| == |s| || s[|s| - |t| - 1] == sep)
  }

  lemma {:induction false} JoinLastToken(parts: seq<string>, sep: char)
    requires |parts| >= 1 && SepFree(parts, sep)
    ensures IsLastToken(Last(parts), Join(parts, sep), sep)
  {
    if |parts| > 1 {
      var tail := Join(parts[1..], sep);
      JoinLastToken(parts[1..], sep);
      var s := parts[0] + [sep] + tail;
      var t := Last(parts);
      assert Last(parts[1..]) == t;
      assert s[|s| - |tail|..] == tail;
      assert s[|s| - |t|..] == tail[|tail| - |t|..];
      if |t| < |tail| {
        assert s[|s| - |t| - 1] == tail[|tail| - |t| - 1];
      } else {
        assert s[|s| - |t| - 1] == sep;
      }
    }
  }

  /** `s.split(sep)[-1]` is the last token of `s`. */
  lemma SplitLastToken(s: string, sep: char)
    ensures IsLastToken(Last(Split(s, sep)), s, sep)
  {
    JoinSplit(s, sep);
    JoinLastToken(Split(s, sep), sep);
  }

  /** There is only one last token. */
  lemma LastTokenUnique(t1: string, t2: string, s: string, sep: char)
    requires IsLastToken(t1, s, sep) && IsLastToken(t2, s, sep)
    ensures t1 == t2
  {
  }

  // --------------------------------------------------------------- substring

  /** `needle in hay` for strings: `needle` occurs as a contiguous slice. */
  ghost predicate IsSubstring(needle: string, hay: string) {
    exists i :: OccursAt(needle, hay, i)
  }

  predicate OccursAt(needle: string, hay: string, i: int) {
    0 <= i <= |hay| - |needle| && hay[i..i + |needle|] == needle
  }

  /** `needle in hay`, searched from the left. */
  function Contains(hay: string, needle: string): bool {
    if StartsWith(hay, needle) then true
    else if hay == [] then false
    else Contains(hay[1..], needle)
  }

  lemma {:induction false} ContainsIsSubstring(hay: string, needle: string)
    ensures Contains(hay, needle) <==> IsSubstring(needle, hay)
  {
    if StartsWith(hay, needle) {
      assert OccursAt(needle, hay, 0);
    } else if hay != [] {
      ContainsIsSubstring(hay[1..], needle);
      if IsSubstring(needle, hay[1..]) {
        var i :| OccursAt(needle, hay[1..], i);
        assert hay[i + 1..i + 1 + |needle|] == hay[1..][i..i + |needle|];
        assert OccursAt(needle, hay, i + 1);
      }
      if IsSubstring(needle, hay) {
        var i :| OccursAt(needle, hay, i);
        assert hay[1..][i - 1..i - 1 + |needle|] == hay[i..i + |needle|];
        assert OccursAt(needle, hay[1..], i - 1);
      }
    }
  }

  /** A needle holding a character the haystack lacks never occurs in it. */
  lemma MissingCharNotSubstring(needle: string, hay: string, c: char)
    requires c in needle && c !in hay
    ensures !IsSubstring(needle, hay)
  {
    var k :| 0 <= k < |needle| && needle[k] == c;
    forall i | 0 <= i <= |hay| - |needle| ensures !OccursAt(needle, hay, i) {
      assert hay[i..i + |needle|][k] == hay[i + k];
    }
  }
}
