// How the receiver classifies and rewrites a record, and what can be recovered from the
// rewritten line: the body, the host, and the command line carried by a proctitle.
module AuditFormat {
  import opened Wrappers
  import opened Text
  import opened Hex

  // ------------------------------------------------------------ reformatting

  function FormatAuditMsg(auditType: string, msg: string): Option<string> {
    if !Contains(msg, "audit") then None
    else
      var parts := Split(msg, ',');
      Some(parts[|parts| - 1] + " type=" + auditType + " " + parts[0] + "\n")
  }

  /** The record type of the first keyword found, in the receiver's order of preference. */
  function Classify(raw: string): Option<string> {
    if Contains(raw, "syscall") then Some("SYSCALL")
    else if Contains(raw, "proctitle") then Some("PROCTITLE")
    else if Contains(raw, "saddr") then Some("SOCKADDR")
    else if Contains(raw, "cwd") then Some("CWD")
    else if Contains(raw, "item") then Some("PATH")
    else if Contains(raw, "op=start") then Some("DAEMON_START")
    else if Contains(raw, "op=add_rule") then Some("CONFIG_CHANGE")
    else None
  }

  function Translate(raw: string): Option<string> {
    var auditType :- Classify(raw);
    FormatAuditMsg(auditType, raw)
  }

  /** Keywords and the record types they stand for, most preferred first. */
  const RULES: seq<(string, string)> := [
    ("syscall", "SYSCALL"), ("proctitle", "PROCTITLE"), ("saddr", "SOCKADDR"), ("cwd", "CWD"),
    ("item", "PATH"), ("op=start", "DAEMON_START"), ("op=add_rule", "CONFIG_CHANGE")]

  /** A record has the type of rule `i` exactly when that is the first rule whose keyword it contains. */
  lemma ClassifyIsFirstMatch(raw: string, i: nat)
    requires i < |RULES|
    ensures Classify(raw) == Some(RULES[i].1)
       <==> Contains(raw, RULES[i].0) && forall j :: 0 <= j < i ==> !Contains(raw, RULES[j].0)
    ensures Classify(raw).None? <==> forall j :: 0 <= j < |RULES| ==> !Contains(raw, RULES[j].0)
  {
    assert RULES[0] == ("syscall", "SYSCALL") && RULES[1] == ("proctitle", "PROCTITLE")
        && RULES[2] == ("saddr", "SOCKADDR");
    assert RULES[3] == ("cwd", "CWD") && RULES[4] == ("item", "PATH");
    assert RULES[5] == ("op=start", "DAEMON_START") && RULES[6] == ("op=add_rule", "CONFIG_CHANGE");
  }

  /** The record as the kernel enqueues it, with the host name appended. */
  function KernelLine(body: string, host: string): string {
    body + ",node=" + host
  }

  /** The rewritten line: host first, then the type, then the body. */
  function NodeFirst(host: string, auditType: string, body: string): string {
    "node=" + host + " type=" + auditType + " " + body + "\n"
  }

  /** Rewriting moves the node to the front of every comma-free record that names a known type. */
  lemma TranslateKernelLine(body: string, host: string)
    requires ',' !in body && ',' !in host
    ensures var raw := KernelLine(body, host);
            Translate(raw) == if Classify(raw).Some? && Contains(raw, "audit")
                              then Some(NodeFirst(host, Classify(raw).value, body)) else None
  {
    var raw := KernelLine(body, host);
    var node := "node=" + host;
    assert raw == body + [','] + node;
    SplitAtSeparator(body, ',', node);
    SplitWithoutSeparator(node, ',');
  }

  /** The text before the first comma, or all of it. */
  function FirstSegment(s: string): (first: string)
    ensures first <= s && ',' !in first
    ensures |first| < |s| ==> s[|first|] == ','
  {
    if s == "" || s[0] == ',' then "" else [s[0]] + FirstSegment(s[1..])
  }

  /** The text behind the last comma, or all of it. */
  function LastSegment(s: string): (last: string)
    ensures |last| <= |s| && last == s[|s| - |last|..] && ',' !in last
    ensures |last| < |s| ==> s[|s| - |last| - 1] == ','
  {
    if s == "" || s[|s| - 1] == ',' then "" else LastSegment(s[..|s| - 1]) + [s[|s| - 1]]
  }

  /** For any record at all, only the first and the last comma segment survive. */
  lemma FormatKeepsOnlyTheEnds(auditType: string, msg: string)
    ensures FormatAuditMsg(auditType, msg)
         == if Contains(msg, "audit")
            then Some(LastSegment(msg) + " type=" + auditType + " " + FirstSegment(msg) + "\n") else None
  {
    EndsOfSplit(msg);
    FormatFromEnds(auditType, msg, FirstSegment(msg), LastSegment(msg));
  }

  lemma FormatFromEnds(auditType: string, msg: string, first: string, last: string)
    requires var parts := Split(msg, ',');
             parts[0] == first && parts[|parts| - 1] == last
    ensures FormatAuditMsg(auditType, msg)
         == if Contains(msg, "audit") then Some(last + " type=" + auditType + " " + first + "\n") else None
  {
  }

  lemma EndsOfSplit(msg: string)
    ensures var parts := Split(msg, ',');
            parts[0] == FirstSegment(msg) && parts[|parts| - 1] == LastSegment(msg)
  {
    FirstOfSplit(msg);
    LastOfSplit(msg);
  }

  /**
   * What becomes of every record: the last comma segment, the type and the first comma segment if
   * it has a type and mentions "audit", and nothing otherwise.
   */
  lemma TranslateExactly(raw: string)
    ensures Translate(raw)
         == if Classify(raw).Some? && Contains(raw, "audit")
            then Some(LastSegment(raw) + " type=" + Classify(raw).value + " " + FirstSegment(raw) + "\n") else None
  {
    if Classify(raw).Some? {
      FormatKeepsOnlyTheEnds(Classify(raw).value, raw);
    }
  }

  lemma FirstOfSplit(msg: string)
    ensures Split(msg, ',')[0] == FirstSegment(msg)
  {
    var first := FirstSegment(msg);
    if |first| == |msg| {
      SplitWithoutSeparator(first, ',');
    } else {
      SplitAtSeparator(first, ',', msg[|first| + 1..]);
      assert msg == first + [','] + msg[|first| + 1..];
    }
  }

  lemma CutAtLast(msg: string) returns (head: string)
    requires |LastSegment(msg)| < |msg|
    ensures msg == head + [','] + LastSegment(msg)
  {
    head := msg[..|msg| - |LastSegment(msg)| - 1];
  }

  lemma LastOfSplit(msg: string)
    ensures var parts := Split(msg, ',');
            parts[|parts| - 1] == LastSegment(msg)
  {
    if |LastSegment(msg)| == |msg| {
      SplitWithoutSeparator(LastSegment(msg), ',');
    } else {
      var head := CutAtLast(msg);
      SplitLast(head, ',', LastSegment(msg));
    }
  }

  // ---------------------------------------------------------------- recovery

  function UntilSpace(s: string): (n: nat)
    ensures n <= |s|
  {
    if s == "" || s[0] == ' ' then 0 else 1 + UntilSpace(s[1..])
  }

  lemma {:induction false} UntilSpaceOfWord(word: string, rest: string)
    requires ' ' !in word
    ensures UntilSpace(word + " " + rest) == |word|
  {
    var s := word + " " + rest;
    if word != "" {
      assert s[1..] == word[1..] + " " + rest;
      UntilSpaceOfWord(word[1..], rest);
    }
  }

  /** The host of a rewritten line, and the text behind " type=". */
  function SplitHost(line: string): Option<(string, string)> {
    if !("node=" <= line) then None
    else
      var s := line[5..];
      var n := UntilSpace(s);
      if " type=" <= s[n..] then Some((s[..n], s[n + 6..])) else None
  }

  /** The type at the front of a text, and the body behind it without its newline. */
  function SplitType(t: string): Option<(string, string)> {
    var n := UntilSpace(t);
    if |t| < n + 2 then None else Some((t[..n], t[n + 1..|t| - 1]))
  }

  /** Reads host, type and body back out of a rewritten line. */
  function Recover(line: string): Option<(string, string, string)> {
    var (host, rest) :- SplitHost(line);
    var (auditType, body) :- SplitType(rest);
    Some((host, auditType, body))
  }

  lemma SplitHostInverse(host: string, rest: string)
    requires ' ' !in host
    ensures SplitHost("node=" + host + " type=" + rest) == Some((host, rest))
  {
    var line := "node=" + host + " type=" + rest;
    var s := host + " " + ("type=" + rest);
    assert line[5..] == s;
    UntilSpaceOfWord(host, "type=" + rest);
    assert s[|host|..] == " type=" + rest;
    assert s[..|host|] == host && s[|host| + 6..] == rest;
  }

  lemma SplitTypeInverse(auditType: string, body: string)
    requires ' ' !in auditType
    ensures SplitType(auditType + " " + (body + "\n")) == Some((auditType, body))
  {
    var t := auditType + " " + (body + "\n");
    UntilSpaceOfWord(auditType, body + "\n");
    assert t[..|auditType|] == auditType && t[|auditType| + 1..|t| - 1] == body;
  }

  /** Round trip: a rewritten line determines the host, the type and the body. */
  lemma RecoverNodeFirst(host: string, auditType: string, body: string)
    requires ' ' !in host && ' ' !in auditType
    ensures Recover(NodeFirst(host, auditType, body)) == Some((host, auditType, body))
  {
    var rest := auditType + " " + (body + "\n");
    assert NodeFirst(host, auditType, body) == "node=" + host + " type=" + rest;
    SplitHostInverse(host, rest);
    SplitTypeInverse(auditType, body);
  }

  lemma TypesHaveNoSpace(raw: string)
    requires Classify(raw).Some?
    ensures ' ' !in Classify(raw).value
  {
  }

  /** A translated record gives back its host and body. */
  lemma RecoverTranslated(body: string, host: string)
    requires ',' !in body && ',' !in host && ' ' !in host
    requires Translate(KernelLine(body, host)).Some?
    ensures var r := Recover(Translate(KernelLine(body, host)).value);
            r.Some? && r.value.0 == host && r.value.2 == body
  {
    var raw := KernelLine(body, host);
    TranslateKernelLine(body, host);
    TypesHaveNoSpace(raw);
    RecoverNodeFirst(host, Classify(raw).value, body);
  }

  /** Reformatting is injective on well-formed records. */
  lemma TranslateInjective(body: string, host: string, body': string, host': string)
    requires ',' !in body && ',' !in host && ' ' !in host
    requires ',' !in body' && ',' !in host' && ' ' !in host'
    requires Translate(KernelLine(body, host)).Some?
    ensures Translate(KernelLine(body, host)) == Translate(KernelLine(body', host')) <==> body == body' && host == host'
  {
    RecoverTranslated(body, host);
    if Translate(KernelLine(body', host')).Some? {
      RecoverTranslated(body', host');
    }
  }

  // --------------------------------------------------------------- proctitle

  const PROCTITLE: string := "proctitle="

  /** Python's `str.isspace` characters, which `strip()` removes. */
  predicate IsSpace(c: char) {
    || c in {' ', '\t', '\n', '\r', '\U{0B}', '\U{0C}', '\U{1C}', '\U{1D}', '\U{1E}', '\U{1F}'}
    || c in {'\U{85}', '\U{A0}', '\U{1680}', '\U{2028}', '\U{2029}', '\U{202F}', '\U{205F}', '\U{3000}'}
    || '\U{2000}' <= c <= '\U{200A}'
  }

  function Strip(s: string): string {
    if s == "" then ""
    else if IsSpace(s[0]) then Strip(s[1..])
    else if IsSpace(s[|s| - 1]) then Strip(s[..|s| - 1])
    else s
  }

  function Replace(s: string, from: char, to: char): string {
    seq(|s|, i requires 0 <= i < |s| => if s[i] == from then to else s[i])
  }

  type Utf8Decoder = seq<byte> -> Option<string>

  /**
   * The command line that `logmatch` reads from a line: the hex-decoded proctitle with NUL
   * replaced by a space, or the raw proctitle where decoding raises.
   */
  function MatchedCommand(line: string, utf8: Utf8Decoder): Option<string> {
    if !Contains(line, PROCTITLE) then None
    else
      var raw := Strip(line[Find(line, PROCTITLE) + |PROCTITLE|..]);
      match Decode(raw)
      case None => Some(raw)
      case Some(bytes) =>
        match utf8(bytes)
        case None => Some(raw)
        case Some(text) => Some(Replace(text, '\0', ' '))
  }

  function Join(args: seq<string>, sep: char): string {
    if args == [] then ""
    else if |args| == 1 then args[0]
    else args[0] + [sep] + Join(args[1..], sep)
  }

  /** A joined argument list splits into the arguments again. */
  lemma {:induction false} SplitJoin(args: seq<string>, sep: char)
    requires args != [] && forall a | a in args :: sep !in a
    ensures Split(Join(args, sep), sep) == args
  {
    assert args[0] in args;
    if |args| == 1 {
      SplitWithoutSeparator(args[0], sep);
    } else {
      assert forall a | a in args[1..] :: a in args;
      SplitJoin(args[1..], sep);
      SplitAtSeparator(args[0], sep, Join(args[1..], sep));
      assert [args[0]] + args[1..] == args;
    }
  }

  lemma {:induction false} ReplaceJoin(args: seq<string>, from: char, to: char)
    requires forall a | a in args :: from !in a
    ensures Replace(Join(args, from), from, to) == Join(args, to)
  {
    if |args| == 1 {
      assert args[0] in args;
    } else if |args| > 1 {
      assert args[0] in args;
      ReplaceJoin(args[1..], from, to);
      var a, rest := args[0], Join(args[1..], from);
      assert Replace(a + [from] + rest, from, to) == Replace(a, from, to) + [to] + Replace(rest, from, to);
    }
  }

  predicate AllSpace(s: string) {
    forall i :: 0 <= i < |s| ==> IsSpace(s[i])
  }

  predicate Trimmed(s: string) {
    s != "" ==> !IsSpace(s[0]) && !IsSpace(s[|s| - 1])
  }

  /** The whitespace characters by their code points. */
  lemma SpacesAreThese(c: char)
    ensures IsSpace(c)
       <==> c as int in {9, 10, 11, 12, 13, 28, 29, 30, 31, 32, 133, 160, 5760, 8232, 8233, 8239, 8287, 12288}
            || 8192 <= c as int <= 8202
  {
  }

  lemma {:induction false} StripSpaces(s: string)
    requires AllSpace(s)
    ensures Strip(s) == ""
  {
    if s != "" {
      StripSpaces(s[1..]);
    }
  }

  lemma {:induction false} StripFront(a: string, s: string)
    requires AllSpace(a)
    ensures Strip(a + s) == Strip(s)
  {
    if a == "" {
      assert a + s == s;
    } else {
      assert (a + s)[0] == a[0] && (a + s)[1..] == a[1..] + s;
      StripFront(a[1..], s);
    }
  }

  lemma {:induction false} StripBack(text: string, b: string)
    requires text != "" && Trimmed(text) && AllSpace(b)
    ensures Strip(text + b) == text
    decreases |b|
  {
    if b == "" {
      assert text + b == text;
    } else {
      var s, last := text + b, |b| - 1;
      assert s[0] == text[0] && s[|s| - 1] == b[last] && s[..|s| - 1] == text + b[..last];
      StripBack(text, b[..last]);
    }
  }

  /** Whitespace at either end goes, and nothing else. */
  lemma StripTrims(a: string, text: string, b: string)
    requires AllSpace(a) && Trimmed(text) && AllSpace(b)
    ensures Strip(a + text + b) == text
  {
    assert a + text + b == a + (text + b);
    StripFront(a, text + b);
    if text == "" {
      assert text + b == b;
      StripSpaces(b);
    } else {
      StripBack(text, b);
    }
  }

  lemma HexIsTrimmed(digits: string)
    requires IsHexText(digits)
    ensures Trimmed(digits) && ',' !in digits
  {
  }

  lemma MismatchAt(s: string, j: nat, i: nat)
    requires i < |PROCTITLE| && j + i < |s| && s[j + i] != PROCTITLE[i]
    ensures !OccursAt(s, PROCTITLE, j)
  {
    assert s[j..][i] == s[j + i];
  }

  lemma NoEarlierMarker(head: string, tail: string, j: nat)
    requires !Contains(head, PROCTITLE) && j < |head|
    ensures !OccursAt(head + PROCTITLE + tail, PROCTITLE, j)
  {
    var s := head + PROCTITLE + tail;
    if j + 10 <= |head| {
      assert s[j..][..10] == head[j..][..10];
      assert !OccursAt(head, PROCTITLE, j);
    } else {
      assert s[j + 9] == PROCTITLE[j + 9 - |head|];
      MismatchAt(s, j, 9);
    }
  }

  /** The marker does not overlap itself, so it is found right after a text that does not hold it. */
  lemma FindMarker(head: string, tail: string)
    requires !Contains(head, PROCTITLE)
    ensures Find(head + PROCTITLE + tail, PROCTITLE) == |head|
  {
    ContainsMiddle(head, PROCTITLE, tail);
    forall j | 0 <= j < |head| ensures !OccursAt(head + PROCTITLE + tail, PROCTITLE, j) {
      NoEarlierMarker(head, tail, j);
    }
  }

  lemma OccursInFront(s: string, i: nat, sub: string, j: nat)
    requires j <= i <= |s|
    ensures OccursAt(s[..i], sub, j) ==> OccursAt(s, sub, j) && j + |sub| <= i
  {
    assert s[..i][j..] <= s[j..];
  }

  /** A text that holds another one is what is in front of its first occurrence, it, and the rest. */
  lemma SplitAtFirst(s: string, sub: string) returns (head: string, tail: string)
    requires sub != "" && Contains(s, sub)
    ensures s == head + sub + tail && !Contains(head, sub)
  {
    var i := Find(s, sub);
    head, tail := s[..i], s[i + |sub|..];
    assert s[i..] == sub + tail;
    forall j | 0 <= j <= |head| ensures !OccursAt(head, sub, j) {
      OccursInFront(s, i, sub, j);
    }
  }

  /** A line that holds the marker is a text without it, the marker, and what is behind. */
  lemma SplitAtMarker(line: string) returns (head: string, tail: string)
    requires Contains(line, PROCTITLE)
    ensures line == head + PROCTITLE + tail && !Contains(head, PROCTITLE)
  {
    head, tail := SplitAtFirst(line, PROCTITLE);
  }

  lemma TextBehindMarker(head: string, tail: string)
    requires !Contains(head, PROCTITLE)
    ensures var line := head + PROCTITLE + tail;
            Contains(line, PROCTITLE) && line[Find(line, PROCTITLE) + |PROCTITLE|..] == tail
  {
    FindMarker(head, tail);
  }

  /** A line without the marker names no command. */
  lemma NoMarkerNoCommand(line: string, utf8: Utf8Decoder)
    ensures MatchedCommand(line, utf8).None? <==> !Contains(line, PROCTITLE)
  {
  }

  /** A title in hex whose bytes decode is the decoded text with NUL replaced by a space. */
  lemma MatchHexTitle(head: string, tail: string, bytes: seq<byte>, text: string, utf8: Utf8Decoder)
    requires !Contains(head, PROCTITLE) && Spells(Strip(tail), bytes) && utf8(bytes) == Some(text)
    ensures MatchedCommand(head + PROCTITLE + tail, utf8) == Some(Replace(text, '\0', ' '))
  {
    TextBehindMarker(head, tail);
    DecodeExactly(Strip(tail), bytes);
  }

  /** A title in hex whose bytes do not decode is taken as it stands. */
  lemma MatchUndecodableTitle(head: string, tail: string, bytes: seq<byte>, utf8: Utf8Decoder)
    requires !Contains(head, PROCTITLE) && Spells(Strip(tail), bytes) && utf8(bytes).None?
    ensures MatchedCommand(head + PROCTITLE + tail, utf8) == Some(Strip(tail))
  {
    TextBehindMarker(head, tail);
    DecodeExactly(Strip(tail), bytes);
  }

  /** A title that is not hex is taken as it stands. */
  lemma MatchRawTitle(head: string, tail: string, utf8: Utf8Decoder)
    requires !Contains(head, PROCTITLE) && !IsHexText(Strip(tail))
    ensures MatchedCommand(head + PROCTITLE + tail, utf8) == Some(Strip(tail))
  {
    TextBehindMarker(head, tail);
    DecodeFailsExactly(Strip(tail));
  }

  /** Text in front of the proctitle of a rewritten line. */
  function LineHead(host: string, auditType: string, pre: string): string {
    "node=" + host + " type=" + auditType + " " + pre
  }

  /** The marker has no space and one '=', so a rewritten head holds it only if the host or the body does. */
  lemma HeadHasNoMarker(host: string, auditType: string, pre: string)
    requires !Contains(host, PROCTITLE) && '=' !in auditType && !Contains(pre, PROCTITLE)
    ensures !Contains(LineHead(host, auditType, pre), PROCTITLE)
  {
    var s := LineHead(host, auditType, pre);
    var p := 5 + |host|;
    var q := p + 6 + |auditType|;
    assert s[p] == ' ' && s[q] == ' ';
    assert s[q + 1..] == pre;
    forall j | 0 <= j <= |s| ensures !OccursAt(s, PROCTITLE, j) {
      if j > q {
        assert pre[j - q - 1..] == s[j..];
        assert !OccursAt(pre, PROCTITLE, j - q - 1);
      } else if q <= j + 9 {
        MismatchAt(s, j, q - j);
      } else if p + 6 <= j + 9 {
        assert s[j + 9] == auditType[j + 9 - p - 6];
        MismatchAt(s, j, 9);
      } else if p <= j + 9 {
        MismatchAt(s, j, p - j);
      } else if j < 5 {
        assert s[4] == '=';
        MismatchAt(s, j, 4 - j);
      } else {
        assert s[j..][..10] == host[j - 5..][..10];
        assert !OccursAt(host, PROCTITLE, j - 5);
      }
    }
  }

  /** A proctitle record is always translated, as PROCTITLE or, if it mentions "syscall", as SYSCALL. */
  lemma TranslateProctitle(pre: string, digits: string, host: string) returns (auditType: string)
    requires ',' !in pre && ',' !in host && ',' !in digits
    requires Contains(pre, "audit")
    ensures auditType == "SYSCALL" || auditType == "PROCTITLE"
    ensures Translate(KernelLine(pre + PROCTITLE + digits, host))
         == Some(LineHead(host, auditType, pre) + PROCTITLE + (digits + "\n"))
  {
    var body := pre + PROCTITLE + digits;
    var raw := KernelLine(body, host);
    TranslateKernelLine(body, host);
    var rest := digits + ",node=" + host;
    ContainsMiddle(pre, "proctitle", "=" + rest);
    assert raw == pre + "proctitle" + ("=" + rest);
    PrefixContains(pre, PROCTITLE + rest, "audit");
    assert raw == pre + (PROCTITLE + rest);
    auditType := Classify(raw).value;
    assert NodeFirst(host, auditType, body) == LineHead(host, auditType, pre) + PROCTITLE + (digits + "\n");
  }

  /**
   * Proctitle round trip across kernel, reformatting and matching: from a comma-free record that
   * ends in "proctitle=" and the hex of the NUL-joined arguments, each digit in either letter case,
   * `logmatch` reads exactly the space-joined argument list, whichever host name without the marker
   * the kernel appended.
   */
  lemma ProctitleRoundTrip(
      pre: string, digits: string, bytes: seq<byte>, args: seq<string>, host: string, utf8: Utf8Decoder)
    requires ',' !in pre && ',' !in host && !Contains(host, PROCTITLE)
    requires Contains(pre, "audit") && !Contains(pre, PROCTITLE)
    requires forall a | a in args :: '\0' !in a
    requires Spells(digits, bytes) && utf8(bytes) == Some(Join(args, '\0'))
    ensures var line := Translate(KernelLine(pre + PROCTITLE + digits, host));
            line.Some? && MatchedCommand(line.value, utf8) == Some(Join(args, ' '))
  {
    SpelledIsHexText(digits, bytes);
    HexIsTrimmed(digits);
    var auditType := TranslateProctitle(pre, digits, host);
    HeadHasNoMarker(host, auditType, pre);
    StripTrims("", digits, "\n");
    assert "" + digits + "\n" == digits + "\n";
    MatchHexTitle(LineHead(host, auditType, pre), digits + "\n", bytes, Join(args, '\0'), utf8);
    ReplaceJoin(args, '\0', ' ');
  }

  lemma PrefixContains(s: string, rest: string, sub: string)
    requires Contains(s, sub)
    ensures Contains(s + rest, sub)
  {
    var i :| 0 <= i <= |s| && OccursAt(s, sub, i);
    assert (s + rest)[i..] == s[i..] + rest;
    assert OccursAt(s + rest, sub, i);
  }
}
