// The receiver's own loops: parsing a received batch into the three deques, draining one of
// them to a file, and matching another against the monitored commands.
module Receiver {
  import opened Text
  import opened CappedDeque
  import opened AuditFormat
  import opened HeartbeatThread
  import V = Tasks
  import Monitor
  import ExpiryPass

  /** The lines that translate, translated, in order. */
  function Translated(lines: seq<string>): seq<string> {
    if lines == [] then []
    else
      Translated(lines[..|lines| - 1])
      + match Translate(lines[|lines| - 1]) { case None => [] case Some(text) => [text] }
  }

  /** How many lines translate. */
  function Translatable(lines: seq<string>): nat {
    if lines == [] then 0
    else Translatable(lines[..|lines| - 1]) + if Translate(lines[|lines| - 1]).Some? then 1 else 0
  }

  /** The indices of the lines that translate. */
  function Indices(lines: seq<string>): set<nat> {
    set i | 0 <= i < |lines| && Translate(lines[i]).Some?
  }

  lemma IndicesSnoc(init: seq<string>, last: string)
    ensures Indices(init + [last]) == Indices(init) + if Translate(last).Some? then {|init|} else {}
  {
    var lines := init + [last];
    assert forall i :: 0 <= i < |init| ==> lines[i] == init[i];
    assert lines[|init|] == last;
  }

  /** Their number is the size of that set. */
  lemma {:induction false} TranslatableCounts(lines: seq<string>)
    ensures Translatable(lines) == |Indices(lines)|
  {
    if lines != [] {
      var init, last := lines[..|lines| - 1], lines[|lines| - 1];
      TranslatableCounts(init);
      IndicesSnoc(init, last);
      assert lines == init + [last];
    }
  }

  /** One entry per line that translates, its translation, behind those of the lines before it. */
  lemma {:induction false} TranslatedAt(lines: seq<string>, i: nat)
    requires i < |lines|
    ensures |Translated(lines)| == Translatable(lines)
    ensures Translate(lines[i]).Some? ==>
              Translatable(lines[..i]) < Translatable(lines)
              && Translated(lines)[Translatable(lines[..i])] == Translate(lines[i]).value
  {
    var last := |lines| - 1;
    TranslatedCount(lines[..last]);
    if i < last {
      TranslatedAt(lines[..last], i);
      assert lines[..last][..i] == lines[..i];
    }
  }

  lemma {:induction false} TranslatedCount(lines: seq<string>)
    ensures |Translated(lines)| == Translatable(lines)
  {
    if lines != [] {
      TranslatedCount(lines[..|lines| - 1]);
    }
  }

  /** The entry with `k` entries behind it. */
  function FromEnd(items: seq<string>, k: nat): string
    requires k < |items|
  {
    items[|items| - 1 - k]
  }

  /** How many translatable lines follow line `i`. */
  function Behind(lines: seq<string>, i: nat): int
    requires i < |lines|
  {
    Translatable(lines) - 1 - Translatable(lines[..i])
  }

  /** Each line that translates is there, with its followers behind it, unless it was pushed out. */
  predicate TookLines(lines: seq<string>, after: seq<string>) {
    forall i :: 0 <= i < |lines| && Translate(lines[i]).Some? && Behind(lines, i) < |after| ==>
      Behind(lines, i) >= 0 && FromEnd(after, Behind(lines, i)) == Translate(lines[i]).value
  }

  /** In front of `n` new entries are the newest of what the deque held before. */
  predicate KeptNewest(before: seq<string>, n: nat, after: seq<string>) {
    forall k: nat :: k < |before| && n + k < |after| ==> FromEnd(after, n + k) == FromEnd(before, k)
  }

  /** What a deque of at most `maxlen` entries holds after a batch of lines. */
  predicate Took(before: seq<string>, lines: seq<string>, after: seq<string>, maxlen: nat) {
    var n := Translatable(lines);
    && |after| == (if |before| + n < maxlen then |before| + n else maxlen)
    && TookLines(lines, after) && KeptNewest(before, n, after)
  }

  lemma NewestFromEnd(all: seq<string>, maxlen: nat, k: nat)
    ensures |LastN(all, maxlen)| == if |all| < maxlen then |all| else maxlen
    ensures k < |LastN(all, maxlen)| ==> FromEnd(LastN(all, maxlen), k) == FromEnd(all, k)
  {
    LastNAt(all, maxlen, k);
  }

  lemma NewestTookLines(before: seq<string>, lines: seq<string>, maxlen: nat)
    ensures TookLines(lines, LastN(before + Translated(lines), maxlen))
  {
    var all, after := before + Translated(lines), LastN(before + Translated(lines), maxlen);
    forall i | 0 <= i < |lines| && Translate(lines[i]).Some? && Behind(lines, i) < |after|
      ensures Behind(lines, i) >= 0 && FromEnd(after, Behind(lines, i)) == Translate(lines[i]).value
    {
      TranslatedAt(lines, i);
      NewestFromEnd(all, maxlen, Behind(lines, i));
      assert FromEnd(all, Behind(lines, i)) == Translated(lines)[Translatable(lines[..i])];
    }
  }

  lemma NewestKept(before: seq<string>, added: seq<string>, maxlen: nat)
    ensures KeptNewest(before, |added|, LastN(before + added, maxlen))
  {
    forall k: nat | k < |before| && |added| + k < |LastN(before + added, maxlen)|
      ensures FromEnd(LastN(before + added, maxlen), |added| + k) == FromEnd(before, k)
    {
      NewestFromEnd(before + added, maxlen, |added| + k);
    }
  }

  /** A deque that keeps the newest entries took the batch. */
  lemma NewestTook(before: seq<string>, lines: seq<string>, maxlen: nat)
    ensures Took(before, lines, LastN(before + Translated(lines), maxlen), maxlen)
  {
    TranslatedCount(lines);
    NewestFromEnd(before + Translated(lines), maxlen, 0);
    NewestTookLines(before, lines, maxlen);
    NewestKept(before, Translated(lines), maxlen);
  }

  function Concat(lines: seq<string>): string {
    if lines == [] then "" else Concat(lines[..|lines| - 1]) + lines[|lines| - 1]
  }

  /** Concatenation follows the order of the list. */
  lemma {:induction false} ConcatAppends(a: seq<string>, b: seq<string>)
    ensures Concat(a + b) == Concat(a) + Concat(b)
  {
    if b == [] {
      assert a + b == a;
    } else {
      assert (a + b)[..|a + b| - 1] == a + b[..|b| - 1];
      ConcatAppends(a, b[..|b| - 1]);
    }
  }

  lemma ConcatOne(line: string)
    ensures Concat([line]) == line && Concat([]) == ""
  {
    assert [line][..0] == [];
    assert "" + line == line;
  }

  /** What a drain takes out and what it leaves make up what there was. */
  lemma DrainSplits<T>(s: seq<T>, n: nat)
    ensures AllBut(s, n) + LastN(s, n) == s
    ensures |LastN(s, n)| <= n && (AllBut(s, n) != [] ==> |LastN(s, n)| == n)
  {
  }

  /** What draining down to `n` entries takes out. */
  function AllBut<T>(s: seq<T>, n: nat): seq<T> {
    if |s| <= n then [] else s[..|s| - n]
  }

  lemma LastNAbsorbs<T>(a: seq<T>, x: T, n: nat)
    requires n > 0
    ensures LastN(LastN(a, n) + [x], n) == LastN(a + [x], n)
  {
  }

  /**
   * The effect of a list of log lines on the monitored tasks: each matched command flags every
   * task whose command contains it.
   */
  function MatchAll(tasks: seq<V.Task>, lines: seq<string>, utf8: Utf8Decoder): (tasks': seq<V.Task>)
    ensures |tasks'| == |tasks|
  {
    if lines == [] then tasks
    else MatchLine(MatchAll(tasks, lines[..|lines| - 1], utf8), lines[|lines| - 1], utf8)
  }

  function MatchLine(tasks: seq<V.Task>, line: string, utf8: Utf8Decoder): (tasks': seq<V.Task>)
    ensures |tasks'| == |tasks|
  {
    match MatchedCommand(line, utf8)
    case None => tasks
    case Some(command) => V.Mark(tasks, Monitor.Matching(tasks, command))
  }

  /** The line names a command that the task's command contains. */
  predicate Hits(line: string, command: string, utf8: Utf8Decoder) {
    var c := MatchedCommand(line, utf8);
    c.Some? && Contains(command, c.value)
  }

  /** Matching sets flags and nothing else, and a task ends flagged exactly when it was or when some line hits it. */
  lemma {:induction false} MatchAllMeaning(tasks: seq<V.Task>, lines: seq<string>, utf8: Utf8Decoder, i: nat)
    requires ExpiryPass.DistinctIds(tasks) && i < |tasks|
    ensures MatchAll(tasks, lines, utf8)[i]
         == tasks[i].(flagged :=
              tasks[i].flagged || exists k :: 0 <= k < |lines| && Hits(lines[k], tasks[i].command, utf8))
  {
    if lines != [] {
      var init, last := lines[..|lines| - 1], lines[|lines| - 1];
      var mid := MatchAll(tasks, init, utf8);
      forall j | 0 <= j < |tasks| ensures mid[j].id == tasks[j].id && mid[j].command == tasks[j].command {
        MatchAllMeaning(tasks, init, utf8, j);
      }
      MatchAllMeaning(tasks, init, utf8, i);
      MatchLineMeaning(mid, last, utf8, i);
      HitsExtend(init, last, tasks[i].command, utf8);
      assert lines == init + [last];
    }
  }

  lemma HitsExtend(init: seq<string>, last: string, command: string, utf8: Utf8Decoder)
    ensures var lines := init + [last];
            (exists k :: 0 <= k < |lines| && Hits(lines[k], command, utf8))
            <==> (exists k :: 0 <= k < |init| && Hits(init[k], command, utf8)) || Hits(last, command, utf8)
  {
    var lines := init + [last];
    if Hits(last, command, utf8) {
      assert Hits(lines[|init|], command, utf8);
    }
    if k :| 0 <= k < |init| && Hits(init[k], command, utf8) {
      assert Hits(lines[k], command, utf8);
    }
  }

  /** A line without the marker leaves the tasks as they are. */
  lemma MarkerlessLineChangesNothing(tasks: seq<V.Task>, line: string, utf8: Utf8Decoder)
    requires !Contains(line, PROCTITLE)
    ensures MatchLine(tasks, line, utf8) == tasks
  {
    NoMarkerNoCommand(line, utf8);
  }

  lemma {:induction false} MarkerlessLinesChangeNothing(tasks: seq<V.Task>, lines: seq<string>, utf8: Utf8Decoder)
    requires forall line | line in lines :: !Contains(line, PROCTITLE)
    ensures MatchAll(tasks, lines, utf8) == tasks
  {
    if lines != [] {
      var init, last := lines[..|lines| - 1], lines[|lines| - 1];
      assert forall line | line in init :: line in lines;
      MarkerlessLinesChangeNothing(tasks, init, utf8);
      assert last in lines;
      MarkerlessLineChangesNothing(tasks, last, utf8);
    }
  }

  lemma MatchLineMeaning(tasks: seq<V.Task>, line: string, utf8: Utf8Decoder, i: nat)
    requires ExpiryPass.DistinctIds(tasks) && i < |tasks|
    ensures MatchLine(tasks, line, utf8)[i]
         == tasks[i].(flagged := tasks[i].flagged || Hits(line, tasks[i].command, utf8))
  {
    var c := MatchedCommand(line, utf8);
    if c.Some? {
      assert tasks[i].id in Monitor.Matching(tasks, c.value) <==> Contains(tasks[i].command, c.value);
    }
  }

  /** The task, with its flag set if it was hit. */
  function Flagged(t: V.Task, hit: bool): V.Task {
    if hit then t.(flagged := true) else t
  }

  class TcpServer {
    const auditBuffer: Deque<string>
    const auditBufferHeartbeat: Deque<string>
    const logBuffer: Deque<string>
    const heartbeat: Heartbeat

    ghost predicate Valid()
      reads this, auditBuffer, auditBufferHeartbeat, logBuffer, heartbeat
    {
      && auditBuffer != auditBufferHeartbeat && auditBuffer != logBuffer && auditBufferHeartbeat != logBuffer
      && auditBuffer.Valid() && auditBufferHeartbeat.Valid() && logBuffer.Valid() && heartbeat.Valid()
      && auditBuffer.maxlen == 1000 && auditBufferHeartbeat.maxlen == 1000 && logBuffer.maxlen == 10000
    }

    constructor (heartbeat: Heartbeat)
      requires heartbeat.Valid()
      ensures Valid() && this.heartbeat == heartbeat
      ensures auditBuffer.items == [] && auditBufferHeartbeat.items == [] && logBuffer.items == []
    {
      auditBuffer := new Deque<string>(1000);
      auditBufferHeartbeat := new Deque<string>(1000);
      logBuffer := new Deque<string>(10000);
      this.heartbeat := heartbeat;
    }

    /** Parses a received batch: each deque keeps the newest of what it held followed by the translated lines. */
    method ParseEventLog(data: string)
      requires Valid()
      modifies auditBuffer, auditBufferHeartbeat, logBuffer
      ensures Valid()
      ensures auditBuffer.items == LastN(old(auditBuffer.items) + Translated(SplitLines(data)), 1000)
      ensures auditBufferHeartbeat.items == LastN(old(auditBufferHeartbeat.items) + Translated(SplitLines(data)), 1000)
      ensures logBuffer.items == LastN(old(logBuffer.items) + Translated(SplitLines(data)), 10000)
      ensures Took(old(auditBuffer.items), SplitLines(data), auditBuffer.items, 1000)
      ensures Took(old(auditBufferHeartbeat.items), SplitLines(data), auditBufferHeartbeat.items, 1000)
      ensures Took(old(logBuffer.items), SplitLines(data), logBuffer.items, 10000)
    {
      var lines := SplitLines(data);
      ghost var a, h, l := auditBuffer.items, auditBufferHeartbeat.items, logBuffer.items;
      for i := 0 to |lines|
        invariant Valid()
        invariant auditBuffer.items == LastN(a + Translated(lines[..i]), 1000)
        invariant auditBufferHeartbeat.items == LastN(h + Translated(lines[..i]), 1000)
        invariant logBuffer.items == LastN(l + Translated(lines[..i]), 10000)
      {
        var auditLog := Translate(lines[i]);
        LineArrives(a, lines, i, 1000);
        LineArrives(h, lines, i, 1000);
        LineArrives(l, lines, i, 10000);
        if auditLog.Some? {
          auditBuffer.Append(auditLog.value);
          auditBufferHeartbeat.Append(auditLog.value);
          logBuffer.Append(auditLog.value);
        }
      }
      assert lines[..|lines|] == lines;
      assert Took(a, lines, auditBuffer.items, 1000) by { NewestTook(a, lines, 1000); }
      assert Took(h, lines, auditBufferHeartbeat.items, 1000) by { NewestTook(h, lines, 1000); }
      assert Took(l, lines, logBuffer.items, 10000) by { NewestTook(l, lines, 10000); }
    }

    /** Drains the file buffer down to ten entries, once it holds more than five. */
    method SaveAuditLog() returns (temp: string)
      requires Valid()
      modifies auditBuffer
      ensures Valid()
      ensures auditBuffer.items == LastN(old(auditBuffer.items), 10)
      ensures temp == Concat(AllBut(old(auditBuffer.items), 10))
    {
      temp := "";
      ghost var all := auditBuffer.items;
      ghost var k := 0;
      if |auditBuffer.items| > 5 {
        while |auditBuffer.items| > 10
          invariant Valid() && k <= |all| && auditBuffer.items == all[k..]
          invariant k > 0 ==> |auditBuffer.items| >= 10
          invariant temp == Concat(all[..k])
          decreases |auditBuffer.items|
        {
          var line := auditBuffer.PopLeft();
          assert all[..k + 1][..k] == all[..k];
          temp := temp + line;
          k := k + 1;
        }
      }
    }

    /** Flags every monitored task whose command contains the executed one. */
    method FlagMatching(command: string)
      requires Valid()
      modifies heartbeat.executingTasks
      ensures Values(heartbeat.executingTasks)
           == V.Mark(old(Values(heartbeat.executingTasks)),
               Monitor.Matching(old(Values(heartbeat.executingTasks)), command))
    {
      var tasks := heartbeat.executingTasks;
      ghost var before := Values(tasks);
      for i := 0 to |tasks|
        invariant forall k :: 0 <= k < i ==>
                    tasks[k].Value() == Flagged(before[k], Contains(before[k].command, command))
        invariant forall k :: i <= k < |tasks| ==> tasks[k].Value() == before[k]
      {
        if Contains(tasks[i].executeCmd, command) {
          tasks[i].heartbeatCheck := true;
        }
      }
      assert Values(tasks) == V.Mark(before, Monitor.Matching(before, command));
    }

    /** Drains the heartbeat buffer down to ten entries and flags the tasks that the drained lines hit. */
    method LogMatch(utf8: Utf8Decoder)
      requires Valid()
      modifies auditBufferHeartbeat, heartbeat.executingTasks
      ensures Valid()
      ensures auditBufferHeartbeat.items == LastN(old(auditBufferHeartbeat.items), 10)
      ensures Values(heartbeat.executingTasks)
           == MatchAll(old(Values(heartbeat.executingTasks)), AllBut(old(auditBufferHeartbeat.items), 10), utf8)
    {
      ghost var all, before := auditBufferHeartbeat.items, Values(heartbeat.executingTasks);
      ghost var k := 0;
      while |auditBufferHeartbeat.items| > 10
        invariant Valid() && k <= |all| && auditBufferHeartbeat.items == all[k..]
        invariant k > 0 ==> |auditBufferHeartbeat.items| >= 10
        invariant Values(heartbeat.executingTasks) == MatchAll(before, all[..k], utf8)
        decreases |auditBufferHeartbeat.items|
      {
        var auditLog := auditBufferHeartbeat.PopLeft();
        assert all[..k + 1][..k] == all[..k];
        var command := MatchedCommand(auditLog, utf8);
        if command.Some? {
          FlagMatching(command.value);
        }
        k := k + 1;
      }
    }
  }

  /** The SPADE side: one thread per client, forwarding from the shared buffer. */
  class UnixServer {
    const logBuffer: Deque<string>

    constructor (logBuffer: Deque<string>)
      ensures this.logBuffer == logBuffer
    {
      this.logBuffer := logBuffer;
    }

    /**
     * The first `turns` turns of the endless client loop, with no other thread at work: the oldest
     * entries are sent in order, and thirty are left.
     */
    method ListenClient(turns: nat) returns (sent: seq<string>)
      requires logBuffer.Valid()
      modifies logBuffer
      ensures logBuffer.Valid()
      ensures sent + logBuffer.items == old(logBuffer.items)
      ensures |sent| == if turns < |AllBut(old(logBuffer.items), 30)| then turns else |AllBut(old(logBuffer.items), 30)|
    {
      sent := [];
      ghost var surplus := |AllBut(logBuffer.items, 30)|;
      for turn := 0 to turns
        invariant logBuffer.Valid()
        invariant sent + logBuffer.items == old(logBuffer.items)
        invariant |sent| == if turn < surplus then turn else surplus
      {
        if |logBuffer.items| > 30 {
          var temp := logBuffer.PopLeft();
          sent := sent + [temp];
        }
      }
    }
  }

  lemma LineArrives(before: seq<string>, lines: seq<string>, i: nat, n: nat)
    requires i < |lines| && n > 0
    ensures LastN(before + Translated(lines[..i + 1]), n)
         == match Translate(lines[i]) {
              case None => LastN(before + Translated(lines[..i]), n)
              case Some(text) => LastN(LastN(before + Translated(lines[..i]), n) + [text], n)
            }
  {
    assert lines[..i + 1][..i] == lines[..i];
    var done := Translated(lines[..i]);
    match Translate(lines[i])
    case None => assert done + [] == done;
    case Some(text) =>
      LastNAbsorbs(before + done, text, n);
      assert before + (done + [text]) == (before + done) + [text];
  }
}
