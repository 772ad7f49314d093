/** String primitives of the JavaScript runtime that the model relies on:
    the `\s` character class, `String.prototype.split(/\s+/)`,
    `toLowerCase` (restricted to ASCII), `includes`, and the decimal
    rendering of a non-negative integer inside a template literal. */
module Text {

  predicate IsAsciiLower(c: char) { 'a' <= c <= 'z' }
  predicate IsAsciiUpper(c: char) { 'A' <= c <= 'Z' }
  predicate IsDigit(c: char) { '0' <= c <= '9' }

  /** The ECMAScript `\s` class: WhiteSpace and LineTerminator code points. */
  predicate IsJsWhitespace(c: char) {
    || c == '\t' || c == '\n' || c == '\U{000B}' || c == '\U{000C}' || c == '\r' || c == ' '
    || c == '\U{00A0}' || c == '\U{1680}' || ('\U{2000}' <= c <= '\U{200A}')
    || c == '\U{2028}' || c == '\U{2029}' || c == '\U{202F}' || c == '\U{205F}'
    || c == '\U{3000}' || c == '\U{FEFF}'
  }

  predicate NoWhitespace(s: string) {
    forall i :: 0 <= i < |s| ==> !IsJsWhitespace(s[i])
  }

  // ----- toLowerCase -----

  function LowerChar(c: char): char {
    if IsAsciiUpper(c) then (c as int + 32) as char else c
  }

  /** `s.toLowerCase()`, restricted to the ASCII letters. */
  function Lower(s: string): (r: string)
    ensures |r| == |s|
    ensures forall i :: 0 <= i < |s| ==> r[i] == LowerChar(s[i])
  {
    if |s| == 0 then [] else [LowerChar(s[0])] + Lower(s[1..])
  }

  // ----- includes -----

  predicate IsPrefix(needle: string, hay: string) {
    |needle| <= |hay| && hay[..|needle|] == needle
  }

  /** `hay.includes(needle)`: `needle` occurs as a contiguous block of `hay`. */
  predicate Contains(hay: string, needle: string)
    decreases |hay|
  {
    IsPrefix(needle, hay) || (|hay| > 0 && Contains(hay[1..], needle))
  }

  /** Every string includes the empty string. */
  lemma ContainsEmpty(hay: string)
    ensures Contains(hay, "")
  {
    assert IsPrefix("", hay);
  }

  /** `needle` occurs in `hay` starting at offset `k`. */
  predicate OccursAt(hay: string, needle: string, k: int) {
    0 <= k <= |hay| - |needle| && hay[k..k + |needle|] == needle
  }

  /** Dropping the first character shifts every occurrence by one. */
  lemma OccursShift(hay: string, needle: string, k: int)
    requires |hay| > 0 && k >= 0
    ensures OccursAt(hay[1..], needle, k) <==> OccursAt(hay, needle, k + 1)
  {
    if 0 <= k <= |hay| - 1 - |needle| {
      assert hay[1..][k..k + |needle|] == hay[k + 1..k + 1 + |needle|];
    }
  }

  /** `includes` as an index: `needle` occurs at some offset. */
  lemma {:induction false} ContainsAt(hay: string, needle: string)
    ensures Contains(hay, needle) <==> exists k :: OccursAt(hay, needle, k)
    decreases |hay|
  {
    var n := |needle|;
    if |hay| == 0 {
      if Contains(hay, needle) {
        assert OccursAt(hay, needle, 0);
      }
    } else {
      ContainsAt(hay[1..], needle);
      if Contains(hay, needle) {
        if IsPrefix(needle, hay) {
          assert OccursAt(hay, needle, 0);
        } else {
          var k :| OccursAt(hay[1..], needle, k);
          OccursShift(hay, needle, k);
        }
      }
      if exists k :: OccursAt(hay, needle, k) {
        var k :| OccursAt(hay, needle, k);
        if k == 0 {
          assert IsPrefix(needle, hay);
        } else {
          OccursShift(hay, needle, k - 1);
        }
      }
    }
  }

  /** A block of a block of `a` is a block of `a`. */
  lemma ContainsTransitive(a: string, b: string, c: string)
    requires Contains(a, b) && Contains(b, c)
    ensures Contains(a, c)
  {
    ContainsAt(a, b);
    ContainsAt(b, c);
    var k :| OccursAt(a, b, k);
    var j :| OccursAt(b, c, j);
    assert forall i :: 0 <= i < |c| ==> c[i] == b[j + i] == a[k + j + i];
    assert a[k + j..k + j + |c|] == c;
    assert OccursAt(a, c, k + j);
    ContainsAt(a, c);
  }

  /** Only the empty string occurs in the empty string. */
  lemma InEmptyOnlyEmpty(needle: string)
    requires Contains("", needle)
    ensures needle == ""
  {
  }

  /** Lower-casing twice is lower-casing once. */
  lemma LowerIdempotent(s: string)
    ensures Lower(Lower(s)) == Lower(s)
  {
  }

  // ----- split(/\s+/) -----

  /** `s` with its leading run of whitespace removed. */
  function SkipWhitespace(s: string): (r: string)
    ensures |r| <= |s| && r == s[|s| - |r|..]
    ensures |r| > 0 ==> !IsJsWhitespace(r[0])
  {
    if |s| > 0 && IsJsWhitespace(s[0]) then SkipWhitespace(s[1..]) else s
  }

  /** The pieces of `s` still to be split, `cur` being the piece under way. */
  function SplitFrom(s: string, cur: string): (pieces: seq<string>)
    requires NoWhitespace(cur)
    ensures |pieces| >= 1
    ensures forall k :: 0 <= k < |pieces| ==> NoWhitespace(pieces[k])
    decreases |s|
  {
    if |s| == 0 then [cur]
    else if IsJsWhitespace(s[0]) then [cur] + SplitFrom(SkipWhitespace(s[1..]), [])
    else SplitFrom(s[1..], cur + [s[0]])
  }

  /** `s.split(/\s+/)`: every maximal run of whitespace separates two pieces,
      so a leading or trailing run yields an empty first or last piece. */
  function SplitOnWhitespace(s: string): seq<string>
  {
    SplitFrom(s, [])
  }

  /** Number of maximal whitespace runs of `s`, i.e. of positions holding
      whitespace whose predecessor (if `prevWs` stands for it) is not. */
  function RunsAfter(s: string, prevWs: bool): nat
    decreases |s|
  {
    if |s| == 0 then 0
    else (if IsJsWhitespace(s[0]) && !prevWs then 1 else 0) + RunsAfter(s[1..], IsJsWhitespace(s[0]))
  }

  function WhitespaceRuns(s: string): nat {
    RunsAfter(s, false)
  }

  lemma {:induction false} RunsAfterSkip(s: string)
    ensures RunsAfter(s, true) == RunsAfter(SkipWhitespace(s), false)
    decreases |s|
  {
    if |s| > 0 && IsJsWhitespace(s[0]) {
      RunsAfterSkip(s[1..]);
    }
  }

  lemma {:induction false} SplitFromCountsRuns(s: string, cur: string)
    requires NoWhitespace(cur)
    ensures |SplitFrom(s, cur)| == RunsAfter(s, false) + 1
    decreases |s|
  {
    if |s| == 0 {
    } else if IsJsWhitespace(s[0]) {
      RunsAfterSkip(s[1..]);
      SplitFromCountsRuns(SkipWhitespace(s[1..]), []);
    } else {
      SplitFromCountsRuns(s[1..], cur + [s[0]]);
    }
  }

  /** The number of pieces is one more than the number of whitespace runs;
      in particular it is at least one, even for an all-blank string. */
  lemma SplitCountsRuns(s: string)
    ensures |SplitOnWhitespace(s)| == WhitespaceRuns(s) + 1
  {
    SplitFromCountsRuns(s, []);
  }

  lemma {:induction false} LowerKeepsRuns(s: string, prevWs: bool)
    ensures RunsAfter(Lower(s), prevWs) == RunsAfter(s, prevWs)
    decreases |s|
  {
    if |s| > 0 {
      assert Lower(s)[1..] == Lower(s[1..]);
      LowerKeepsRuns(s[1..], IsJsWhitespace(s[0]));
    }
  }

  /** Lower-casing never creates or removes a separator. */
  lemma SplitLowerSameCount(s: string)
    ensures |SplitOnWhitespace(Lower(s))| == |SplitOnWhitespace(s)|
  {
    SplitCountsRuns(s);
    SplitCountsRuns(Lower(s));
    LowerKeepsRuns(s, false);
  }

  /** `new Set(xs).size`: the number of distinct elements. */
  function DistinctCount(xs: seq<string>): nat {
    |set k | 0 <= k < |xs| :: xs[k]|
  }

  lemma {:induction false} DistinctCountBounds(xs: seq<string>)
    ensures DistinctCount(xs) <= |xs|
    ensures |xs| > 0 ==> DistinctCount(xs) >= 1
  {
    if |xs| > 0 {
      var rest := set k | 0 <= k < |xs| - 1 :: xs[1..][k];
      DistinctCountBounds(xs[1..]);
      assert (set k | 0 <= k < |xs| :: xs[k]) == {xs[0]} + rest by {
        forall k | 0 <= k < |xs| - 1 ensures xs[1..][k] == xs[k + 1] { }
      }
      assert xs[0] in (set k | 0 <= k < |xs| :: xs[k]);
    }
  }

  // ----- number rendering -----

  function DigitChar(d: nat): char
    requires d < 10
  {
    ('0' as int + d) as char
  }

  /** `${n}` for a non-negative integer: its decimal digits, no leading zero. */
  function Decimal(n: nat): (r: string)
    ensures |r| >= 1
    ensures forall i :: 0 <= i < |r| ==> IsDigit(r[i])
    ensures |r| > 1 ==> r[0] != '0'
  {
    if n < 10 then [DigitChar(n)] else Decimal(n / 10) + [DigitChar(n % 10)]
  }

  /** The number a string of decimal digits denotes. */
  function DecimalValue(s: string): nat
    requires forall i :: 0 <= i < |s| ==> IsDigit(s[i])
  {
    if |s| == 0 then 0
    else
      var last := s[|s| - 1];
      assert IsDigit(last);
      10 * DecimalValue(s[..|s| - 1]) + (last as int - '0' as int)
  }

  /** Reading back the rendered digits gives the number that was rendered. */
  lemma {:induction false} DecimalRoundTrip(n: nat)
    ensures DecimalValue(Decimal(n)) == n
  {
    if n >= 10 {
      var d := Decimal(n / 10);
      assert (d + [DigitChar(n % 10)])[..|d|] == d;
      DecimalRoundTrip(n / 10);
    }
  }

  /** `xs.join(sep)`. */
  function Join(xs: seq<string>, sep: string): string {
    if |xs| == 0 then ""
    else if |xs| == 1 then xs[0]
    else xs[0] + sep + Join(xs[1..], sep)
  }

  /** A multi-line template: every line followed by a newline. */
  function Lines(ls: seq<string>): string {
    if |ls| == 0 then "" else ls[0] + "\n" + Lines(ls[1..])
  }

  /** Nothing, or text ending in a newline: what may precede the start of a
      line. */
  predicate AtLineStart(pre: string) {
    pre == "" || pre[|pre| - 1] == '\n'
  }

  /** Text ending at a line start still ends at one after more text is put
      in front of it. */
  lemma AtLineStartPrepend(before: string, pre: string)
    requires AtLineStart(before) && AtLineStart(pre)
    ensures AtLineStart(before + pre)
  {
    if pre == "" {
      assert before + pre == before;
    }
  }

  /** `line` stands on a line of its own somewhere in `text`: it starts the
      text or follows a newline, and a newline follows it. */
  ghost predicate HasLine(text: string, line: string) {
    exists pre, post :: AtLineStart(pre) && text == pre + line + "\n" + post
  }

  /** Each line of a template is a line of the rendered text. */
  lemma {:induction false} LinesHaveLine(ls: seq<string>, k: int)
    requires 0 <= k < |ls|
    ensures HasLine(Lines(ls), ls[k])
  {
    if k == 0 {
      assert Lines(ls) == "" + ls[0] + "\n" + Lines(ls[1..]);
    } else {
      LinesHaveLine(ls[1..], k - 1);
      var pre, post :| AtLineStart(pre) && Lines(ls[1..]) == pre + ls[k] + "\n" + post;
      var head := ls[0] + "\n";
      AtLineStartPrepend(head, pre);
      assert Lines(ls) == (head + pre) + ls[k] + "\n" + post;
    }
  }

  /** Text added after a line keeps it a line. */
  lemma HasLineAppend(text: string, line: string, after: string)
    requires HasLine(text, line)
    ensures HasLine(text + after, line)
  {
    var pre, post :| AtLineStart(pre) && text == pre + line + "\n" + post;
    assert text + after == pre + line + "\n" + (post + after);
  }

  /** Whole lines added before a line keep it a line. */
  lemma HasLinePrepend(text: string, line: string, before: string)
    requires HasLine(text, line) && AtLineStart(before)
    ensures HasLine(before + text, line)
  {
    var pre, post :| AtLineStart(pre) && text == pre + line + "\n" + post;
    AtLineStartPrepend(before, pre);
    assert before + text == (before + pre) + line + "\n" + post;
  }
}
