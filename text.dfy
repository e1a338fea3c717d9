/** The string operations behind the author parser: Kotlin's `isBlank` and
    `trim`, deleting the characters of `[{}]`, and `split` on the regular
    expressions `\s*,\s*` and `\s*:\s*`.

    Two notions of white space are involved and they differ: `trim` and
    `isBlank` use Kotlin's `Char.isWhitespace` (which on the JVM includes the
    Unicode space separators), while the regex class `\s` of java.util.regex
    (used without the UNICODE_CHARACTER_CLASS flag) is only `[ \t\n\x0B\f\r]`. */
module Text {
  import opened Wrappers
  import Seqs

  /** Kotlin `Char.isWhitespace` on the JVM: `Character.isWhitespace(c) || Character.isSpaceChar(c)`. */
  predicate IsWhitespace(c: char) {
    var n := c as int;
    (9 <= n <= 13) || (0x1C <= n <= 0x20) || n == 0xA0 || n == 0x1680
    || (0x2000 <= n <= 0x200A) || n == 0x2028 || n == 0x2029 || n == 0x202F
    || n == 0x205F || n == 0x3000
  }

  /** The regex class `\s` of java.util.regex: space, tab, line feed, vertical tab, form feed, carriage return. */
  predicate IsRegexSpace(c: char) {
    var n := c as int;
    (9 <= n <= 13) || n == 0x20
  }

  /** Kotlin `isBlank`: every character is white space (the empty string is blank). */
  predicate IsBlank(s: string) {
    forall k :: 0 <= k < |s| ==> IsWhitespace(s[k])
  }

  /** The length of the longest prefix of `s` whose characters all satisfy `p`. */
  function LeadingRun(p: char -> bool, s: string): (n: nat)
    ensures n <= |s|
    ensures forall k :: 0 <= k < n ==> p(s[k])
    ensures n < |s| ==> !p(s[n])
    decreases |s|
  {
    if s != [] && p(s[0]) then 1 + LeadingRun(p, s[1..]) else 0
  }

  /** The length of the longest suffix of `s` whose characters all satisfy `p`. */
  function TrailingRun(p: char -> bool, s: string): (n: nat)
    ensures n <= |s|
    ensures forall k :: |s| - n <= k < |s| ==> p(s[k])
    ensures n < |s| ==> !p(s[|s| - 1 - n])
    decreases |s|
  {
    if s != [] && p(s[|s| - 1]) then 1 + TrailingRun(p, s[..|s| - 1]) else 0
  }

  /** Kotlin `trim()`: drop white space from both ends. The result is the
      contiguous middle of `s`; it is empty exactly for a blank `s`, and
      otherwise begins and ends with a character that is not white space. */
  function Trim(s: string): (r: string)
    ensures |r| <= |s|
    ensures r == [] <==> IsBlank(s)
    ensures r != [] ==> !IsWhitespace(r[0]) && !IsWhitespace(r[|r| - 1])
    ensures exists a :: 0 <= a <= |s| - |r| && r == s[a..a + |r|] && IsBlank(s[..a]) && IsBlank(s[a + |r|..])
  {
    var start := LeadingRun(IsWhitespace, s);
    var rest := s[start..];
    var r := rest[..|rest| - TrailingRun(IsWhitespace, rest)];
    assert r == s[start..start + |r|];
    assert IsBlank(s[..start]);
    assert IsBlank(s[start + |r|..]) by {
      assert s[start + |r|..] == rest[|r|..];
    }
    assert IsBlank(s) ==> start == |s|;
    assert r == [] ==> start == |s|;
    assert 0 <= start <= |s| - |r| && r == s[start..start + |r|] && IsBlank(s[..start]) && IsBlank(s[start + |r|..]);
    r
  }

  predicate NotBrace(c: char) {
    c != '{' && c != '}'
  }

  /** `replace(Regex("[{}]"), "")`: delete every brace, keeping all other characters in order. */
  function RemoveBraces(s: string): (r: string)
    ensures '{' !in r && '}' !in r
  {
    Seqs.Filter(NotBrace, s)
  }

  /** The pieces of `s` between occurrences of `sep`, in order; the reference
      meaning of "the `sep`-separated segments" (always at least one). */
  function Segments(s: string, sep: char): (r: seq<string>)
    ensures |r| >= 1
    ensures forall k :: 0 <= k < |r| ==> sep !in r[k]
    decreases |s|
  {
    if s == [] then [[]]
    else
      var rest := Segments(s[1..], sep);
      if s[0] == sep then [[]] + rest else [[s[0]] + rest[0]] + rest[1..]
  }

  /** The segments glued back together with `sep` between neighbours. */
  function Join(parts: seq<string>, sep: char): string
    decreases |parts|
  {
    if parts == [] then []
    else if |parts| == 1 then parts[0]
    else parts[0] + [sep] + Join(parts[1..], sep)
  }

  /** Segments lose nothing: joining them with the separator gives back the input. */
  lemma {:induction false} JoinSegments(s: string, sep: char)
    ensures Join(Segments(s, sep), sep) == s
    decreases |s|
  {
    if s != [] {
      var rest := Segments(s[1..], sep);
      JoinSegments(s[1..], sep);
      if s[0] == sep {
        assert Segments(s, sep) == [[]] + rest;
        assert ([[]] + rest)[1..] == rest;
      } else if |rest| == 1 {
        assert Segments(s, sep) == [[s[0]] + rest[0]];
      } else {
        var segs := [[s[0]] + rest[0]] + rest[1..];
        assert segs[1..] == rest[1..];
        assert Join(rest, sep) == rest[0] + [sep] + Join(rest[1..], sep);
        assert Join(segs, sep) == [s[0]] + rest[0] + [sep] + Join(rest[1..], sep);
        assert [s[0]] + s[1..] == s;
      }
    }
  }

  /** There is more than one segment exactly when the separator occurs. */
  lemma {:induction false} SegmentsCount(s: string, sep: char)
    ensures |Segments(s, sep)| >= 2 <==> sep in s
    decreases |s|
  {
    if s != [] {
      SegmentsCount(s[1..], sep);
      assert s == [s[0]] + s[1..];
    }
  }

  /** The index of the first occurrence of `c` in `s`. */
  function IndexOf(s: string, c: char): (k: nat)
    requires c in s
    ensures k < |s| && s[k] == c && c !in s[..k]
    decreases |s|
  {
    if s[0] == c then 0
    else
      assert c in s[1..] by { assert s == [s[0]] + s[1..]; }
      var k := 1 + IndexOf(s[1..], c);
      assert s[..k] == [s[0]] + s[1..][..k - 1];
      k
  }

  /** Segments split off at the first separator: the first segment is
      everything before it, the others are the segments of what follows. */
  lemma {:induction false} SegmentsAtFirst(s: string, sep: char)
    ensures sep !in s ==> Segments(s, sep) == [s]
    ensures sep in s ==> Segments(s, sep) == [s[..IndexOf(s, sep)]] + Segments(s[IndexOf(s, sep) + 1..], sep)
    decreases |s|
  {
    if s != [] {
      var rest := Segments(s[1..], sep);
      assert s == [s[0]] + s[1..];
      SegmentsAtFirst(s[1..], sep);
      if sep in s && s[0] != sep {
        assert sep in s[1..];
        var k := IndexOf(s, sep);
        assert IndexOf(s[1..], sep) == k - 1;
        assert s[1..][..k - 1] == s[1..k];
        assert s[1..][k - 1 + 1..] == s[k + 1..];
        assert [s[0]] + s[1..k] == s[..k];
      }
    }
  }

  /** `x` without its leading regex white space. */
  function LStripSpaces(x: string): string {
    x[LeadingRun(IsRegexSpace, x)..]
  }

  /** `x` without its trailing regex white space. */
  function RStripSpaces(x: string): string {
    x[..|x| - TrailingRun(IsRegexSpace, x)]
  }

  /** A segment as it comes out of a regex split on `\s*sep\s*`: white space
      next to a separator is absorbed, so a segment loses its leading white
      space when a separator precedes it (`left`) and its trailing white space
      when one follows it (`right`). */
  function Around(x: string, left: bool, right: bool): string {
    var y := if left then LStripSpaces(x) else x;
    if right then RStripSpaces(y) else y
  }

  /** Dropping a white space prefix keeps every character that is not white space. */
  lemma DropSpacesKeeps(x: string, n: nat, c: char)
    requires n <= |x| && !IsRegexSpace(c)
    requires forall k :: 0 <= k < n ==> IsRegexSpace(x[k])
    ensures c in x[n..] <==> c in x
  {
    if c in x {
      var i :| 0 <= i < |x| && x[i] == c;
      assert x[n..][i - n] == c;
    }
  }

  /** Dropping a white space suffix keeps every character that is not white space. */
  lemma TakeSpacesKeeps(x: string, n: nat, c: char)
    requires n <= |x| && !IsRegexSpace(c)
    requires forall k :: n <= k < |x| ==> IsRegexSpace(x[k])
    ensures c in x[..n] <==> c in x
  {
    if c in x {
      var i :| 0 <= i < |x| && x[i] == c;
      assert x[..n][i] == c;
    }
  }

  /** Stripping white space never adds or removes a character that is not white space. */
  lemma AroundKeeps(x: string, left: bool, right: bool, c: char)
    requires !IsRegexSpace(c)
    ensures c in Around(x, left, right) <==> c in x
  {
    DropSpacesKeeps(x, LeadingRun(IsRegexSpace, x), c);
    var y := if left then LStripSpaces(x) else x;
    TakeSpacesKeeps(y, |y| - TrailingRun(IsRegexSpace, y), c);
  }

  /** Where the matcher finds the separator: `start` is where the match begins, `end` just after it. */
  datatype Span = Span(start: nat, end: nat)

  /** The first match of the regex `\s*sep\s*` in `s` (java.util.regex `Matcher.find`):
      the first `sep` together with the white space run before and after it. */
  function FindSeparator(s: string, sep: char): (m: Option<Span>)
    ensures m.None? <==> sep !in s
    ensures m.Some? ==> m.value.start < m.value.end <= |s|
  {
    if sep !in s then None
    else
      var k := IndexOf(s, sep);
      Some(Span(k - TrailingRun(IsRegexSpace, s[..k]), k + 1 + LeadingRun(IsRegexSpace, s[k + 1..])))
  }

  /** `s[p..e]` is a word of the regular language `\s*sep\s*`. */
  ghost predicate SeparatorMatch(s: string, sep: char, p: int, e: int) {
    0 <= p < e <= |s|
    && exists k :: p <= k < e && s[k] == sep && forall j :: p <= j < e && j != k ==> IsRegexSpace(s[j])
  }

  /** A match can only be built around the first separator when it starts no later than it. */
  lemma MatchUsesFirstSeparator(s: string, sep: char, p: int, e: int, k2: int)
    requires !IsRegexSpace(sep) && sep in s
    requires 0 <= p <= IndexOf(s, sep) && p <= k2 < e <= |s| && s[k2] == sep
    requires forall j :: p <= j < e && j != k2 ==> IsRegexSpace(s[j])
    ensures k2 == IndexOf(s, sep)
  {
    var k := IndexOf(s, sep);
    assert forall i :: 0 <= i < k ==> s[i] == s[..k][i];
  }

  /** The span `FindSeparator` reports is a match of `\s*sep\s*`. */
  lemma FindSeparatorMatches(s: string, sep: char)
    requires sep in s
    ensures SeparatorMatch(s, sep, FindSeparator(s, sep).value.start, FindSeparator(s, sep).value.end)
  {
    var k := IndexOf(s, sep);
    var m := FindSeparator(s, sep).value;
    forall j | m.start <= j < m.end && j != k ensures IsRegexSpace(s[j]) {
      if j < k {
        assert s[j] == s[..k][j];
      } else {
        assert s[j] == s[k + 1..][j - k - 1];
      }
    }
  }

  /** Every match starts at or after the reported start. */
  lemma MatchStartsNoEarlier(s: string, sep: char, p: int, e: int)
    requires !IsRegexSpace(sep) && SeparatorMatch(s, sep, p, e)
    ensures sep in s && FindSeparator(s, sep).value.start <= p
  {
    var k2 :| p <= k2 < e && s[k2] == sep && forall j :: p <= j < e && j != k2 ==> IsRegexSpace(s[j]);
    assert s[k2] in s;
    var k := IndexOf(s, sep);
    if p <= k {
      MatchUsesFirstSeparator(s, sep, p, e, k2);
      assert forall j :: p <= j < k ==> IsRegexSpace(s[..k][j]);
    }
  }

  /** No match starts before the reported one. */
  lemma FindSeparatorLeftmost(s: string, sep: char, p: int, e: int)
    requires !IsRegexSpace(sep) && sep in s
    requires p < FindSeparator(s, sep).value.start
    ensures !SeparatorMatch(s, sep, p, e)
  {
    if SeparatorMatch(s, sep, p, e) {
      MatchStartsNoEarlier(s, sep, p, e);
    }
  }

  /** No match from the reported start reaches further than the reported one. */
  lemma FindSeparatorLongest(s: string, sep: char, e: int)
    requires !IsRegexSpace(sep) && sep in s
    requires SeparatorMatch(s, sep, FindSeparator(s, sep).value.start, e)
    ensures e <= FindSeparator(s, sep).value.end
  {
    var k := IndexOf(s, sep);
    var l := LeadingRun(IsRegexSpace, s[k + 1..]);
    var m := FindSeparator(s, sep).value;
    var k2 :| m.start <= k2 < e && s[k2] == sep && forall j :: m.start <= j < e && j != k2 ==> IsRegexSpace(s[j]);
    MatchUsesFirstSeparator(s, sep, m.start, e, k2);
  }

  /** `FindSeparator` is what `Matcher.find` reports for `\s*sep\s*`: a match,
      at the leftmost position where any match starts, and there the longest
      one (which is what the greedy `\s*` quantifiers select). */
  lemma FindSeparatorIsFirstMatch(s: string, sep: char)
    requires !IsRegexSpace(sep)
    ensures FindSeparator(s, sep).None? ==> forall p, e :: !SeparatorMatch(s, sep, p, e)
    ensures FindSeparator(s, sep).Some? ==>
      var m := FindSeparator(s, sep).value;
      && SeparatorMatch(s, sep, m.start, m.end)
      && (forall p, e :: p < m.start ==> !SeparatorMatch(s, sep, p, e))
      && (forall e :: SeparatorMatch(s, sep, m.start, e) ==> e <= m.end)
  {
    if sep !in s {
    } else {
      FindSeparatorMatches(s, sep);
      forall p, e | p < FindSeparator(s, sep).value.start ensures !SeparatorMatch(s, sep, p, e) {
        FindSeparatorLeftmost(s, sep, p, e);
      }
      forall e | SeparatorMatch(s, sep, FindSeparator(s, sep).value.start, e)
        ensures e <= FindSeparator(s, sep).value.end
      {
        FindSeparatorLongest(s, sep, e);
      }
    }
  }

  /** Kotlin `CharSequence.split(Regex("\\s*sep\\s*"))`: repeatedly take the
      text before the next match and continue after it; with no further match
      the rest is the last piece. Empty pieces, leading or trailing, are kept. */
  function SplitAround(s: string, sep: char): (r: seq<string>)
    ensures |r| >= 1
    ensures |r| >= 2 <==> sep in s
    decreases |s|
  {
    match FindSeparator(s, sep)
    case None => [s]
    case Some(m) => [s[..m.start]] + SplitAround(s[m.end..], sep)
  }

  /** Stripping leading white space off a string strips it off its first segment only. */
  lemma {:induction false} SegmentsLStrip(t: string, sep: char)
    requires !IsRegexSpace(sep)
    ensures Segments(LStripSpaces(t), sep) == [LStripSpaces(Segments(t, sep)[0])] + Segments(t, sep)[1..]
    decreases |t|
  {
    if t != [] && IsRegexSpace(t[0]) {
      var rest := Segments(t[1..], sep);
      SegmentsLStrip(t[1..], sep);
      assert LStripSpaces(t) == LStripSpaces(t[1..]);
      var seg0 := [t[0]] + rest[0];
      assert seg0[1..] == rest[0];
      assert LStripSpaces(seg0) == LStripSpaces(rest[0]);
    } else {
      assert LStripSpaces(t) == t;
      var seg0 := Segments(t, sep)[0];
      if seg0 != [] {
        assert seg0[0] == t[0];
      }
      assert LStripSpaces(seg0) == seg0;
      assert Segments(t, sep) == [seg0] + Segments(t, sep)[1..];
    }
  }

  /** What the split keeps around the first match: the text before the first
      separator without its trailing white space, and the text after it
      without its leading white space. */
  lemma FindSeparatorSlices(s: string, sep: char)
    requires sep in s
    ensures s[..FindSeparator(s, sep).value.start] == RStripSpaces(s[..IndexOf(s, sep)])
    ensures s[FindSeparator(s, sep).value.end..] == LStripSpaces(s[IndexOf(s, sep) + 1..])
  {
  }

  /** The split, taken apart at its first match. */
  lemma SplitAroundAtFirst(s: string, sep: char)
    requires sep in s
    ensures SplitAround(s, sep) == [RStripSpaces(s[..IndexOf(s, sep)])] + SplitAround(LStripSpaces(s[IndexOf(s, sep) + 1..]), sep)
  {
    FindSeparatorSlices(s, sep);
  }

  /** Stripping leading white space twice is stripping it once, so the last
      piece's treatment does not depend on where its white space came from. */
  lemma AroundLStrip(x: string, right: bool)
    ensures Around(LStripSpaces(x), false, right) == Around(x, true, right)
  {
  }

  /** One step of the induction below, as a fact about sequences only. */
  lemma AroundStep(head: string, segsT: seq<string>, splitU: seq<string>)
    requires |segsT| >= 1 && |splitU| == |segsT|
    requires forall j :: 0 <= j < |segsT| ==> splitU[j] == Around(segsT[j], true, j < |segsT| - 1)
    ensures PiecesMatch([RStripSpaces(head)] + splitU, [head] + segsT)
  {
    var pieces := [RStripSpaces(head)] + splitU;
    var segs := [head] + segsT;
    forall i | 0 <= i < |segs| ensures pieces[i] == Around(segs[i], i > 0, i < |segs| - 1) {
      if i == 0 {
        assert Around(head, false, true) == RStripSpaces(head);
      } else {
        assert pieces[i] == splitU[i - 1];
        assert segs[i] == segsT[i - 1];
      }
    }
  }

  /** Each piece is its segment with the white space next to separators removed. */
  ghost predicate PiecesMatch(pieces: seq<string>, segs: seq<string>) {
    && |pieces| == |segs|
    && forall i :: 0 <= i < |segs| ==> pieces[i] == Around(segs[i], i > 0, i < |segs| - 1)
  }

  /** The pieces of the remainder, restated against the remainder's segments
      before their leading white space was stripped. */
  lemma ShiftedSegments(segsT: seq<string>, segsU: seq<string>, splitU: seq<string>)
    requires |segsT| >= 1 && segsU == [LStripSpaces(segsT[0])] + segsT[1..]
    requires PiecesMatch(splitU, segsU)
    ensures |splitU| == |segsT|
    ensures forall j :: 0 <= j < |segsT| ==> splitU[j] == Around(segsT[j], true, j < |segsT| - 1)
  {
    forall j | 0 <= j < |segsT| ensures splitU[j] == Around(segsT[j], true, j < |segsT| - 1) {
      if j == 0 {
        AroundLStrip(segsT[0], 0 < |segsT| - 1);
      } else {
        assert segsU[j] == segsT[j];
      }
    }
  }

  /** `SplitAround` agrees with `Segments` in the way `SplitAroundSegments` states. */
  ghost predicate SplitMatchesSegments(s: string, sep: char) {
    PiecesMatch(SplitAround(s, sep), Segments(s, sep))
  }

  /** The inductive step: if the split of what follows the first match agrees
      with its segments, so does the split of the whole string. */
  lemma SplitAroundStep(s: string, sep: char)
    requires !IsRegexSpace(sep) && sep in s
    requires SplitMatchesSegments(LStripSpaces(s[IndexOf(s, sep) + 1..]), sep)
    ensures SplitMatchesSegments(s, sep)
  {
    var k := IndexOf(s, sep);
    var t := s[k + 1..];
    var u := LStripSpaces(t);
    SplitAroundAtFirst(s, sep);
    SegmentsAtFirst(s, sep);
    SegmentsLStrip(t, sep);
    var segsT := Segments(t, sep);
    var splitU := SplitAround(u, sep);
    ShiftedSegments(segsT, Segments(u, sep), SplitAround(u, sep));
    AroundStep(s[..k], segsT, splitU);
  }

  /** Splitting on `\s*sep\s*` gives one piece per `sep`-separated segment, in
      order, each with the white space next to its separators removed. */
  lemma {:induction false} SplitAroundSegments(s: string, sep: char)
    requires !IsRegexSpace(sep)
    ensures |SplitAround(s, sep)| == |Segments(s, sep)|
    ensures forall i :: 0 <= i < |Segments(s, sep)| ==>
      SplitAround(s, sep)[i] == Around(Segments(s, sep)[i], i > 0, i < |Segments(s, sep)| - 1)
    decreases |s|
  {
    SegmentsAtFirst(s, sep);
    if sep in s {
      SplitAroundSegments(LStripSpaces(s[IndexOf(s, sep) + 1..]), sep);
      SplitAroundStep(s, sep);
    }
  }

  /** Text that neither starts nor ends with white space is its own trim. */
  lemma TrimKeeps(s: string)
    requires s != [] && !IsWhitespace(s[0]) && !IsWhitespace(s[|s| - 1])
    ensures Trim(s) == s
  {
  }

  /** Brace removal keeps every other character, in order: a character
      survives exactly when it occurs and is not a brace, and removal
      distributes over concatenation. */
  lemma RemoveBracesSpec(s: string, more: string, c: char)
    ensures c in RemoveBraces(s) <==> c in s && NotBrace(c)
    ensures RemoveBraces(s + more) == RemoveBraces(s) + RemoveBraces(more)
  {
    Seqs.FilterMembers(NotBrace, s, c);
    Seqs.FilterConcat(NotBrace, s, more);
  }

  /** Text without braces is left alone by `RemoveBraces`. */
  lemma RemoveBracesKeeps(s: string)
    requires '{' !in s && '}' !in s
    ensures RemoveBraces(s) == s
  {
    Seqs.FilterKeepsAll(NotBrace, s);
  }

  /** The first separator of `a + [sep] + b` is the one after `a`. */
  lemma IndexOfAfter(a: string, sep: char, b: string)
    requires sep !in a
    ensures IndexOf(a + [sep] + b, sep) == |a|
    decreases |a|
  {
    if a != [] {
      assert (a + [sep] + b)[1..] == a[1..] + [sep] + b;
      IndexOfAfter(a[1..], sep, b);
    }
  }

  /** Splitting at a first separator that follows `a`. */
  lemma SplitAroundFirst(a: string, sep: char, b: string)
    requires sep !in a
    ensures SplitAround(a + [sep] + b, sep) == [RStripSpaces(a)] + SplitAround(LStripSpaces(b), sep)
  {
    var s := a + [sep] + b;
    IndexOfAfter(a, sep, b);
    assert s[..|a|] == a;
    assert s[|a| + 1..] == b;
    SplitAroundAtFirst(s, sep);
  }

  /** Splitting text with exactly one separator gives the two sides, stripped next to it. */
  lemma SplitAroundOnce(a: string, sep: char, b: string)
    requires sep !in a && sep !in b
    ensures SplitAround(a + [sep] + b, sep) == [RStripSpaces(a), LStripSpaces(b)]
  {
    SplitAroundFirst(a, sep, b);
    SplitAroundNone(LStripSpaces(b), sep);
  }

  /** A string free of the separator splits into itself. */
  lemma SplitAroundNone(s: string, sep: char)
    requires sep !in s
    ensures SplitAround(s, sep) == [s]
  {
  }

  /** Text whose ends are not regex white space is left alone by both strips. */
  lemma StripKeeps(x: string)
    requires x != [] ==> !IsRegexSpace(x[0]) && !IsRegexSpace(x[|x| - 1])
    ensures LStripSpaces(x) == x && RStripSpaces(x) == x
  {
  }

  /** Regex white space in front of text that does not start with it is exactly what `LStripSpaces` drops. */
  lemma LStripAfterSpaces(gap: string, x: string)
    requires forall k :: 0 <= k < |gap| ==> IsRegexSpace(gap[k])
    requires x != [] ==> !IsRegexSpace(x[0])
    ensures LStripSpaces(gap + x) == x
  {
    var s := gap + x;
    assert forall k :: 0 <= k < |gap| ==> s[k] == gap[k];
    assert x != [] ==> s[|gap|] == x[0];
    assert s[|gap|..] == x;
  }
}
