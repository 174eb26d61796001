// Python string primitives used by the receiver, and the newline framing that the
// kernel loop builds and the receiver takes apart again.
module Text {

  /** `sub` occurs in `s` starting at index `i`. */
  predicate OccursAt(s: string, sub: string, i: int) {
    0 <= i <= |s| && sub <= s[i..]
  }

  /** Python's `sub in s`. */
  predicate Contains(s: string, sub: string) {
    exists i | 0 <= i <= |s| :: OccursAt(s, sub, i)
  }

  /** Python's `s.find(sub)`: the first index where `sub` occurs, or -1. */
  function Find(s: string, sub: string): (i: int)
    ensures i == -1 <==> !Contains(s, sub)
    ensures i != -1 ==> OccursAt(s, sub, i) && forall j :: 0 <= j < i ==> !OccursAt(s, sub, j)
  {
    FindFrom(s, sub, 0)
  }

  function FindFrom(s: string, sub: string, from: nat): (i: int)
    requires from <= |s| + 1
    requires forall j :: 0 <= j < from ==> !OccursAt(s, sub, j)
    ensures i == -1 <==> !Contains(s, sub)
    ensures i != -1 ==> OccursAt(s, sub, i) && forall j :: 0 <= j < i ==> !OccursAt(s, sub, j)
    decreases |s| + 1 - from
  {
    if from == |s| + 1 then -1
    else if OccursAt(s, sub, from) then from
    else FindFrom(s, sub, from + 1)
  }

  /** A piece of a concatenation occurs in the whole. */
  lemma ContainsMiddle(pre: string, sub: string, post: string)
    ensures OccursAt(pre + sub + post, sub, |pre|)
    ensures Contains(pre + sub + post, sub)
  {
    var s := pre + sub + post;
    assert s[|pre|..] == sub + post;
    assert OccursAt(s, sub, |pre|);
  }

  // ---------------------------------------------------------------- split(c)

  /** Python's `s.split(c)`. */
  function Split(s: string, c: char): (parts: seq<string>)
    ensures |parts| >= 1
  {
    if s == "" then [""]
    else
      var rest := Split(s[1..], c);
      if s[0] == c then [""] + rest else [[s[0]] + rest[0]] + rest[1..]
  }

  /** Splitting at a separator: the text before the first separator is the first part. */
  lemma {:induction false} SplitAtSeparator(a: string, c: char, b: string)
    requires c !in a
    ensures Split(a + [c] + b, c) == [a] + Split(b, c)
  {
    var s := a + [c] + b;
    if a == "" {
      assert s == [c] + b;
    } else {
      assert s[1..] == a[1..] + [c] + b;
      SplitAtSeparator(a[1..], c, b);
      assert [a[0]] + a[1..] == a;
    }
  }

  /** Text without the separator is a single part. */
  lemma {:induction false} SplitWithoutSeparator(a: string, c: char)
    requires c !in a
    ensures Split(a, c) == [a]
  {
    if a != "" {
      SplitWithoutSeparator(a[1..], c);
      assert [a[0]] + a[1..] == a;
    }
  }

  /** What follows the last separator is the last part, whatever precedes it. */
  lemma {:induction false} SplitLast(s: string, c: char, z: string)
    requires c !in z
    ensures var parts := Split(s + [c] + z, c);
            |parts| >= 2 && parts[0] == Split(s, c)[0] && parts[|parts| - 1] == z
  {
    var t := s + [c] + z;
    if s == "" {
      SplitAtSeparator("", c, z);
      SplitWithoutSeparator(z, c);
      assert t == "" + [c] + z;
    } else {
      assert t[0] == s[0] && t[1..] == s[1..] + [c] + z;
      SplitLast(s[1..], c, z);
      var rest := Split(t[1..], c);
      assert Split(t, c) == if s[0] == c then [""] + rest else [[s[0]] + rest[0]] + rest[1..];
    }
  }

  // ------------------------------------------------------------- splitlines()

  /** The characters at which Python's `str.splitlines` breaks a line. */
  predicate IsLineBoundary(c: char) {
    c in {'\n', '\r', '\U{0B}', '\U{0C}', '\U{1C}', '\U{1D}', '\U{1E}', '\U{85}', '\U{2028}', '\U{2029}'}
  }

  predicate BoundaryFree(s: string) {
    forall i :: 0 <= i < |s| ==> !IsLineBoundary(s[i])
  }

  /** Length of the text before the first line boundary. */
  function LineLength(s: string): (n: nat)
    ensures n <= |s| && BoundaryFree(s[..n])
    ensures n < |s| ==> IsLineBoundary(s[n])
  {
    if s == "" || IsLineBoundary(s[0]) then 0 else 1 + LineLength(s[1..])
  }

  /** Python's `s.splitlines()`: "\r\n" is one boundary, and a final boundary opens no new line. */
  function SplitLines(s: string): (lines: seq<string>)
    decreases |s|
  {
    if s == "" then []
    else
      var n := LineLength(s);
      if n == |s| then [s]
      else
        var skip := if s[n] == '\r' && n + 1 < |s| && s[n + 1] == '\n' then 2 else 1;
        [s[..n]] + SplitLines(s[n + skip..])
  }

  /** The line boundaries by their code points. */
  lemma BoundariesAreThese(c: char)
    ensures IsLineBoundary(c) <==> c as int in {10, 11, 12, 13, 28, 29, 30, 133, 8232, 8233}
  {
  }

  lemma {:induction false} LineLengthIs(line: string, rest: string)
    requires BoundaryFree(line) && (rest != "" ==> IsLineBoundary(rest[0]))
    ensures LineLength(line + rest) == |line|
  {
    var s := line + rest;
    if line == "" {
      assert s == rest;
    } else {
      assert s[0] == line[0] && s[1..] == line[1..] + rest;
      LineLengthIs(line[1..], rest);
    }
  }

  /** Text without a boundary is one line, and no text is no line. */
  lemma UnterminatedLine(line: string)
    requires BoundaryFree(line)
    ensures SplitLines(line) == if line == "" then [] else [line]
  {
    LineLengthIs(line, "");
    assert line + "" == line;
  }

  /** A line ends at its boundary, which "\r\n" is as a whole. */
  lemma TerminatedLine(line: string, boundary: string, rest: string)
    requires BoundaryFree(line)
    requires boundary == "\r\n" || (|boundary| == 1 && IsLineBoundary(boundary[0]) && !("\r\n" <= boundary + rest))
    ensures SplitLines(line + boundary + rest) == [line] + SplitLines(rest)
  {
    var s, n := line + boundary + rest, |line|;
    assert s == line + (boundary + rest);
    LineLengthIs(line, boundary + rest);
    assert s[..n] == line && s[n..] == boundary + rest && s[n + |boundary|..] == rest;
    assert s[n] == (boundary + rest)[0] == boundary[0];
    if boundary == "\r\n" {
      assert s[n + 1] == '\n';
    } else if s[n] == '\r' && n + 1 < |s| {
      assert (boundary + rest)[1] == s[n + 1];
      assert s[n + 1] != '\n';
    }
  }

  /** The newline-terminated concatenation of a list of records. */
  function Frame(records: seq<string>): string {
    if records == [] then "" else records[0] + "\n" + Frame(records[1..])
  }

  lemma {:induction false} FrameConcat(a: seq<string>, b: seq<string>)
    ensures Frame(a + b) == Frame(a) + Frame(b)
  {
    if a == [] {
      assert a + b == b;
    } else {
      assert (a + b)[1..] == a[1..] + b;
      FrameConcat(a[1..], b);
    }
  }

  /** Appending a record and a newline to a framed batch frames the longer batch. */
  lemma FrameSnoc(a: seq<string>, r: string)
    ensures Frame(a + [r]) == Frame(a) + r + "\n"
  {
    FrameConcat(a, [r]);
    assert [r][1..] == [];
    assert Frame([r]) == r + "\n" + "";
  }

  lemma {:induction false} LineLengthOfFirst(r: string, rest: string)
    requires BoundaryFree(r)
    ensures LineLength(r + "\n" + rest) == |r|
  {
    var s := r + "\n" + rest;
    if r == "" {
      assert s[0] == '\n';
    } else {
      assert s[0] == r[0];
      assert s[1..] == r[1..] + "\n" + rest;
      LineLengthOfFirst(r[1..], rest);
    }
  }

  lemma {:induction false} SplitLinesFrame(records: seq<string>)
    requires forall r | r in records :: BoundaryFree(r)
    ensures SplitLines(Frame(records)) == records
  {
    if records != [] {
      var r, rest := records[0], Frame(records[1..]);
      var s := Frame(records);
      LineLengthOfFirst(r, rest);
      assert s[..|r|] == r;
      assert s[|r|] == '\n';
      assert s[|r| + 1..] == rest;
      SplitLinesFrame(records[1..]);
      assert [r] + records[1..] == records;
    }
  }

  lemma {:induction false} LinesAreBoundaryFree(s: string)
    ensures forall line | line in SplitLines(s) :: BoundaryFree(line)
    decreases |s|
  {
    if s != "" {
      var n := LineLength(s);
      if n == |s| {
        assert s[..n] == s;
      } else {
        var skip := if s[n] == '\r' && n + 1 < |s| && s[n + 1] == '\n' then 2 else 1;
        LinesAreBoundaryFree(s[n + skip..]);
      }
    }
  }

  /**
   * Framing round trip: the receiver gets back exactly the records the kernel framed, empty
   * records included, if and only if no record holds a Python line boundary.
   */
  lemma FramingRoundTrip(records: seq<string>)
    ensures SplitLines(Frame(records)) == records <==> forall r | r in records :: BoundaryFree(r)
  {
    LinesAreBoundaryFree(Frame(records));
    if forall r | r in records :: BoundaryFree(r) {
      SplitLinesFrame(records);
    }
  }
}
