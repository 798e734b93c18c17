/** String primitives the playlist code relies on: whitespace stripping,
    prefix tests, splitting at the last separator, ASCII lower-casing,
    substring containment and line splitting. */
module Text {

  /** The characters Python's `str.isspace` accepts (and `str.strip()` removes). */
  predicate IsSpace(c: char) {
    c == ' ' || ('\t' <= c <= '\r') || ('\U{1c}' <= c <= '\U{1f}')
    || c == '\U{85}' || c == '\U{a0}' || c == '\U{1680}'
    || ('\U{2000}' <= c <= '\U{200a}')
    || c == '\U{2028}' || c == '\U{2029}' || c == '\U{202f}' || c == '\U{205f}' || c == '\U{3000}'
  }

  /** Number of whitespace characters at the start of `s`. */
  function LeadingSpaces(s: string): (n: nat)
    ensures n <= |s|
  {
    if s == [] || !IsSpace(s[0]) then 0 else 1 + LeadingSpaces(s[1..])
  }

  /** `s.strip()`: whitespace removed from both ends, one character at a time. */
  function Strip(s: string): (r: string)
    ensures |r| <= |s|
    decreases |s|
  {
    if s != [] && IsSpace(s[0]) then Strip(s[1..])
    else if s != [] && IsSpace(s[|s| - 1]) then Strip(s[..|s| - 1])
    else s
  }

  /** `Strip(s)` is the slice of `s` that starts after its leading whitespace. */
  lemma {:induction false} StripSlice(s: string)
    ensures LeadingSpaces(s) + |Strip(s)| <= |s|
    ensures forall k :: 0 <= k < |Strip(s)| ==> Strip(s)[k] == s[LeadingSpaces(s) + k]
    decreases |s|
  {
    if s != [] && IsSpace(s[0]) {
      var tail := s[1..];
      StripSlice(tail);
      assert Strip(s) == Strip(tail) && LeadingSpaces(s) == 1 + LeadingSpaces(tail);
      forall k | 0 <= k < |Strip(s)| ensures Strip(s)[k] == s[LeadingSpaces(s) + k] {
        assert tail[LeadingSpaces(tail) + k] == s[LeadingSpaces(s) + k];
      }
    } else if s != [] && IsSpace(s[|s| - 1]) {
      var init := s[..|s| - 1];
      assert |s| > 1 && init[0] == s[0];
      StripSlice(init);
      assert Strip(s) == Strip(init) && LeadingSpaces(s) == 0 && LeadingSpaces(init) == 0;
      forall k | 0 <= k < |Strip(s)| ensures Strip(s)[k] == s[k] {
        assert init[k] == s[k];
      }
    }
  }

  /** `Strip(s)` neither starts nor ends with whitespace. */
  lemma {:induction false} StripUnpaddedResult(s: string)
    ensures Strip(s) != [] ==> !IsSpace(Strip(s)[0]) && !IsSpace(Strip(s)[|Strip(s)| - 1])
    decreases |s|
  {
    if s != [] && IsSpace(s[0]) {
      StripUnpaddedResult(s[1..]);
    } else if s != [] && IsSpace(s[|s| - 1]) {
      StripUnpaddedResult(s[..|s| - 1]);
    }
  }

  /** `Strip(s)` keeps every non-space character of `s`. */
  lemma {:induction false} StripKeeps(s: string)
    ensures forall k :: 0 <= k < |s| && !IsSpace(s[k]) ==>
      LeadingSpaces(s) <= k < LeadingSpaces(s) + |Strip(s)|
    decreases |s|
  {
    if s != [] && IsSpace(s[0]) {
      var tail := s[1..];
      StripKeeps(tail);
      assert Strip(s) == Strip(tail) && LeadingSpaces(s) == 1 + LeadingSpaces(tail);
      forall k | 0 <= k < |s| && !IsSpace(s[k])
        ensures LeadingSpaces(s) <= k < LeadingSpaces(s) + |Strip(s)|
      {
        assert tail[k - 1] == s[k];
      }
    } else if s != [] && IsSpace(s[|s| - 1]) {
      var init := s[..|s| - 1];
      assert |s| > 1 && init[0] == s[0];
      StripKeeps(init);
      assert Strip(s) == Strip(init) && LeadingSpaces(s) == 0 && LeadingSpaces(init) == 0;
      forall k | 0 <= k < |s| && !IsSpace(s[k]) ensures k < |Strip(s)| {
        assert init[k] == s[k];
      }
    }
  }

  /** `Strip(s)` is the smallest slice of `s` that keeps every non-space character:
      it starts after the leading whitespace, neither starts nor ends with whitespace,
      and only whitespace was dropped. */
  lemma {:induction false} StripExact(s: string)
    ensures LeadingSpaces(s) + |Strip(s)| <= |s|
    ensures forall k :: 0 <= k < |Strip(s)| ==> Strip(s)[k] == s[LeadingSpaces(s) + k]
    ensures Strip(s) != [] ==> !IsSpace(Strip(s)[0]) && !IsSpace(Strip(s)[|Strip(s)| - 1])
    ensures forall k :: 0 <= k < |s| && !IsSpace(s[k]) ==>
      LeadingSpaces(s) <= k < LeadingSpaces(s) + |Strip(s)|
  {
    StripSlice(s);
    StripUnpaddedResult(s);
    StripKeeps(s);
  }

  /** Stripping twice is stripping once. */
  lemma {:induction false} StripIdempotent(s: string)
    ensures Strip(Strip(s)) == Strip(s)
  {
    StripExact(s);
    StripUnpadded(Strip(s));
  }

  /** `s.startswith(prefix)`. */
  predicate StartsWith(s: string, prefix: string) {
    prefix <= s
  }

  /** `s.split(sep)[-1]`: the text after the last `sep`, or all of `s` when it has none. */
  function AfterLast(s: string, sep: char): (r: string)
    ensures |r| <= |s|
  {
    if s == [] then []
    else if s[|s| - 1] == sep then []
    else AfterLast(s[..|s| - 1], sep) + [s[|s| - 1]]
  }

  /** `AfterLast(s, sep)` is the longest suffix of `s` without `sep`: it is a suffix,
      holds no `sep`, and is preceded by `sep` unless it is all of `s`. */
  lemma {:induction false} AfterLastExact(s: string, sep: char)
    ensures AfterLast(s, sep) == s[|s| - |AfterLast(s, sep)|..]
    ensures sep !in AfterLast(s, sep)
    ensures |AfterLast(s, sep)| < |s| ==> s[|s| - |AfterLast(s, sep)| - 1] == sep
  {
    if s != [] && s[|s| - 1] != sep {
      var init := s[..|s| - 1];
      AfterLastExact(init, sep);
      var r := AfterLast(init, sep);
      assert s[|s| - |r| - 1..] == init[|init| - |r|..] + [s[|s| - 1]];
    }
  }

  /** The text after the last separator is what follows that separator. */
  lemma {:induction false} AfterLastOfSplit(p: string, q: string, sep: char)
    requires sep !in q
    ensures AfterLast(p + [sep] + q, sep) == q
    decreases |q|
  {
    var s := p + [sep] + q;
    if q == [] {
      assert s[|s| - 1] == sep;
    } else {
      assert s[..|s| - 1] == p + [sep] + q[..|q| - 1];
      AfterLastOfSplit(p, q[..|q| - 1], sep);
      assert q == q[..|q| - 1] + [q[|q| - 1]];
    }
  }

  /** `s` neither starts nor ends with whitespace. */
  predicate Unpadded(s: string) {
    s != [] ==> !IsSpace(s[0]) && !IsSpace(s[|s| - 1])
  }

  /** `Strip` leaves unpadded text alone. */
  lemma {:induction false} StripUnpadded(s: string)
    requires Unpadded(s)
    ensures Strip(s) == s
  {
  }

  /** ASCII lower-casing of one character. */
  function LowerChar(c: char): (d: char)
    ensures !('A' <= d <= 'Z')
    ensures 'A' <= c <= 'Z' ==> d as int == c as int - 'A' as int + 'a' as int
    ensures !('A' <= c <= 'Z') ==> d == c
  {
    if 'A' <= c <= 'Z' then (c as int - 'A' as int + 'a' as int) as char else c
  }

  /** `s.lower()`, restricted to ASCII letters. */
  function Lower(s: string): (r: string)
    ensures |r| == |s|
    ensures forall k :: 0 <= k < |s| ==> r[k] == LowerChar(s[k])
  {
    seq(|s|, k requires 0 <= k < |s| => LowerChar(s[k]))
  }

  /** Lower-casing twice is lower-casing once. */
  lemma {:induction false} LowerIdempotent(s: string)
    ensures Lower(Lower(s)) == Lower(s)
  {
    assert forall k :: 0 <= k < |s| ==> Lower(Lower(s))[k] == Lower(s)[k];
  }

  /** `needle in hay` for strings: `needle` occurs in `hay` at some offset. */
  predicate IsSubstring(needle: string, hay: string)
    decreases |hay|
  {
    needle <= hay || (hay != [] && IsSubstring(needle, hay[1..]))
  }

  /** `needle` occurs in `hay` starting at offset `i`. */
  predicate OccursAt(needle: string, hay: string, i: int) {
    0 <= i && i + |needle| <= |hay| && hay[i..i + |needle|] == needle
  }

  /** The recursive test agrees with "there is an offset where `needle` occurs". */
  lemma {:induction false} IsSubstringAt(needle: string, hay: string)
    ensures IsSubstring(needle, hay) <==> exists i :: OccursAt(needle, hay, i)
    decreases |hay|
  {
    if needle <= hay {
      assert OccursAt(needle, hay, 0);
    } else if hay == [] {
    } else {
      IsSubstringAt(needle, hay[1..]);
      if IsSubstring(needle, hay[1..]) {
        var i :| OccursAt(needle, hay[1..], i);
        assert hay[i + 1..i + 1 + |needle|] == hay[1..][i..i + |needle|];
        assert OccursAt(needle, hay, i + 1);
      }
      if exists i :: OccursAt(needle, hay, i) {
        var i :| OccursAt(needle, hay, i);
        assert i != 0;
        assert hay[1..][i - 1..i - 1 + |needle|] == hay[i..i + |needle|];
        assert OccursAt(needle, hay[1..], i - 1);
      }
    }
  }

  /** Python's `str.splitlines` line boundaries. */
  predicate IsLineBreak(c: char) {
    c == '\n' || c == '\r' || c == '\U{b}' || c == '\U{c}'
    || ('\U{1c}' <= c <= '\U{1e}') || c == '\U{85}' || c == '\U{2028}' || c == '\U{2029}'
  }

  /** Index of the first line boundary in `t`, or `|t|` when there is none. */
  function FirstBreak(t: string): (k: nat)
    ensures k <= |t|
    ensures forall j :: 0 <= j < k ==> !IsLineBreak(t[j])
    ensures k < |t| ==> IsLineBreak(t[k])
  {
    if t == [] || IsLineBreak(t[0]) then 0 else 1 + FirstBreak(t[1..])
  }

  /** `t.splitlines()`: `\r\n` is one boundary, and a final boundary adds no empty line. */
  function SplitLines(t: string): (lines: seq<string>)
    decreases |t|
  {
    if t == [] then []
    else
      var k := FirstBreak(t);
      if k == |t| then [t]
      else
        var next := if t[k] == '\r' && k + 1 < |t| && t[k + 1] == '\n' then k + 2 else k + 1;
        [t[..k]] + SplitLines(t[next..])
  }

  /** Every line ends with a `\n` (the inverse of `SplitLines` on line-feed text). */
  function JoinTerminated(lines: seq<string>): (t: string)
  {
    if lines == [] then [] else lines[0] + "\n" + JoinTerminated(lines[1..])
  }

  predicate HasNoBreak(line: string) {
    forall j :: 0 <= j < |line| ==> !IsLineBreak(line[j])
  }

  /** No line `SplitLines` returns contains a line boundary. */
  lemma {:induction false} SplitLinesHaveNoBreak(t: string)
    ensures forall l :: l in SplitLines(t) ==> HasNoBreak(l)
    decreases |t|
  {
    if t != [] {
      var k := FirstBreak(t);
      if k < |t| {
        var next := if t[k] == '\r' && k + 1 < |t| && t[k + 1] == '\n' then k + 2 else k + 1;
        SplitLinesHaveNoBreak(t[next..]);
      }
    }
  }

  /** The lines separated by `\n`, without a final newline. */
  function JoinLines(lines: seq<string>): (t: string)
  {
    if lines == [] then []
    else if |lines| == 1 then lines[0]
    else lines[0] + "\n" + JoinLines(lines[1..])
  }

  /** A line without boundaries followed by `\n` is split off as one line. */
  lemma {:induction false} SplitLinesCons(l: string, rest: string)
    requires HasNoBreak(l)
    ensures SplitLines(l + "\n" + rest) == [l] + SplitLines(rest)
  {
    var t := l + "\n" + rest;
    assert t == l + ("\n" + rest);
    FirstBreakOfLine(l, "\n" + rest);
    assert t[..|l|] == l;
    assert t[|l| + 1..] == rest;
  }

  /** A line without boundaries followed by `\r\n` is split off as one line:
      the pair counts as a single boundary. */
  lemma {:induction false} SplitLinesCrLf(l: string, rest: string)
    requires HasNoBreak(l)
    ensures SplitLines(l + "\r\n" + rest) == [l] + SplitLines(rest)
  {
    var t := l + "\r\n" + rest;
    assert t == l + ("\r\n" + rest);
    FirstBreakOfLine(l, "\r\n" + rest);
    assert t[..|l|] == l;
    assert t[|l|] == '\r' && t[|l| + 1] == '\n';
    assert t[|l| + 2..] == rest;
  }

  /** A non-empty text without boundaries is one line. */
  lemma {:induction false} SplitLinesSingle(l: string)
    requires l != [] && HasNoBreak(l)
    ensures SplitLines(l) == [l]
  {
    FirstBreakNone(l);
  }

  lemma {:induction false} FirstBreakNone(l: string)
    requires HasNoBreak(l)
    ensures FirstBreak(l) == |l|
  {
    if l != [] {
      FirstBreakNone(l[1..]);
    }
  }

  /** Splitting text in which every line is terminated by `\n` gives the lines back,
      so a final newline adds no empty element. */
  lemma {:induction false} SplitJoinRoundTrip(lines: seq<string>)
    requires forall l :: l in lines ==> HasNoBreak(l)
    ensures SplitLines(JoinTerminated(lines)) == lines
  {
    if lines != [] {
      SplitLinesCons(lines[0], JoinTerminated(lines[1..]));
      SplitJoinRoundTrip(lines[1..]);
    }
  }

  /** Splitting lines joined by `\n` gives them back, provided the last one is not
      empty (an empty last line would read as a final newline). */
  lemma {:induction false} SplitJoinLinesRoundTrip(lines: seq<string>)
    requires forall l :: l in lines ==> HasNoBreak(l)
    requires lines != [] ==> lines[|lines| - 1] != []
    ensures SplitLines(JoinLines(lines)) == lines
  {
    if |lines| == 1 {
      SplitLinesSingle(lines[0]);
    } else if |lines| > 1 {
      SplitLinesCons(lines[0], JoinLines(lines[1..]));
      SplitJoinLinesRoundTrip(lines[1..]);
    }
  }

  lemma {:induction false} FirstBreakOfLine(l: string, tail: string)
    requires HasNoBreak(l)
    requires tail != [] && IsLineBreak(tail[0])
    ensures FirstBreak(l + tail) == |l|
    decreases |l|
  {
    if l != [] {
      assert (l + tail)[1..] == l[1..] + tail;
      FirstBreakOfLine(l[1..], tail);
    } else {
      assert l + tail == tail;
    }
  }
}
