// The heartbeat loop closed: the command a refreshed task asked for, run on the device, comes
// back through the audit path and flags that task alone.
module HeartbeatLoop {
  import opened Wrappers
  import opened Text
  import opened Hex
  import opened AuditFormat
  import opened Tasks
  import ExpiryPass
  import opened Commands
  import opened Monitor
  import opened MonitorProperties
  import opened MonitorRuns

  /** The arguments of the process that the touch command starts. */
  function TouchArgs(token: string): seq<string> {
    ["touch", "/tmp/" + token]
  }

  lemma TouchArgsJoin(token: string)
    requires IsToken(token)
    ensures Join(TouchArgs(token), ' ') == TOUCH + token
    ensures forall a | a in TouchArgs(token) :: '\0' !in a
  {
    var args := TouchArgs(token);
    assert args[1..] == ["/tmp/" + token];
    assert Join(args, ' ') == "touch" + [' '] + ("/tmp/" + token);
  }

  /** The process that a ping starts has the ping as its command line. */
  lemma PingArgsJoin(token: string)
    ensures Join(["ps", token], ' ') == Ping(token)
  {
    assert ["ps", token][1..] == [token];
    assert "ps" + [' '] + token == PING + token;
  }

  lemma MatchingIsOne(ts: seq<Task>, line: string, i: nat)
    requires i < |ts|
    requires forall j :: 0 <= j < |ts| ==> (Contains(ts[j].command, line) <==> j == i)
    ensures Matching(ts, line) == {ts[i].id}
  {
    assert Contains(ts[i].command, line);
  }

  /** A matched line flags exactly the tasks whose command contains it. */
  lemma MarkAt(ts: seq<Task>, line: string, j: nat)
    requires ExpiryPass.DistinctIds(ts) && j < |ts|
    ensures Mark(ts, Matching(ts, line))[j]
         == ts[j].(flagged := ts[j].flagged || Contains(ts[j].command, line))
  {
    assert ts[j].id in Matching(ts, line) <==> Contains(ts[j].command, line);
  }

  lemma MarkOne(ts: seq<Task>, i: nat)
    requires ExpiryPass.DistinctIds(ts) && i < |ts|
    ensures Mark(ts, {ts[i].id}) == ts[i := ts[i].(flagged := true)]
  {
  }

  /** Matching the touch line of the task at index i flags that task and leaves the others as they are. */
  lemma MatchFlagsOne(cfg: Config, steps: seq<Step>, i: nat)
    requires Exec(cfg, steps).Some?
    requires i < |Exec(cfg, steps).value.tasks| && IsTouch(Exec(cfg, steps).value.tasks[i].command)
    ensures var s := Exec(cfg, steps).value;
            var s' := Apply(cfg, s, Match(TOUCH + TouchToken(s.tasks[i].command)));
            s'.tasks == s.tasks[i := s.tasks[i].(flagged := true)]
  {
    var s := Exec(cfg, steps).value;
    var line := TOUCH + TouchToken(s.tasks[i].command);
    TouchFlagsExactlyOne(cfg, steps, i);
    IdsStayDistinct(cfg, steps);
    MatchingIsOne(s.tasks, line, i);
    MarkOne(s.tasks, i);
  }

  /**
   * In every reachable state: the audit record of the touch process that a stored refresh command
   * starts is translated, decoded and matched so that exactly its task becomes flagged.
   */
  lemma HeartbeatFlagsItsTask(
      cfg: Config, steps: seq<Step>, s: State, i: nat,
      pre: string, digits: string, bytes: seq<byte>, host: string, utf8: Utf8Decoder)
    requires Exec(cfg, steps) == Some(s)
    requires i < |s.tasks| && IsTouch(s.tasks[i].command)
    requires ',' !in pre && ',' !in host && !Contains(host, PROCTITLE)
    requires Contains(pre, "audit") && !Contains(pre, PROCTITLE)
    requires Spells(digits, bytes) && utf8(bytes) == Some(Join(TouchArgs(TouchToken(s.tasks[i].command)), '\0'))
    ensures var line := Translate(KernelLine(pre + PROCTITLE + digits, host));
            && line.Some?
            && var command := MatchedCommand(line.value, utf8);
               && command.Some?
               && Apply(cfg, s, Match(command.value)).tasks == s.tasks[i := s.tasks[i].(flagged := true)]
  {
    var token := TouchToken(s.tasks[i].command);
    TouchArgsJoin(token);
    MatchFlagsOne(cfg, steps, i);
    ProctitleRoundTrip(pre, digits, bytes, TouchArgs(token), host, utf8);
  }

  // ------------------------------------------- the record that comes too early

  /** The touch line of a token flags exactly the task that carries it, if there is one. */
  lemma TouchLineMatches(s: State, token: string)
    requires TokenInv(s) && IsToken(token)
    ensures forall j :: 0 <= j < |s.tasks| ==>
        (Contains(s.tasks[j].command, TOUCH + token) <==> s.tasks[j].command == Touch(token))
  {
    forall j | 0 <= j < |s.tasks|
      ensures Contains(s.tasks[j].command, TOUCH + token) <==> s.tasks[j].command == Touch(token)
    {
      var c := s.tasks[j].command;
      assert GoodCommand(c, s.used);
      TouchMatchesExactly(c, token);
      TouchIsTouch(token);
      assert IsTouch(c) ==> c == c[..11] + c[11..43] + c[43..];
    }
  }

  /** A refresh is under way at index `i`; `stored` says whether it has stored its command. */
  predicate UnderWay(s: State, i: nat, token: string, stored: bool) {
    && i < |s.tasks|
    && s.beat == (if stored then Checking(i) else Refreshing(i, token))
    && (stored ==> s.tasks[i].command == Touch(token))
  }

  predicate Finishes(steps: seq<Step>) {
    exists k :: 0 <= k < |steps| && steps[k].FinishRefresh?
  }

  lemma StepUnderWay(cfg: Config, s: State, step: Step, i: nat, token: string, stored: bool)
    requires UnderWay(s, i, token, stored) && Enabled(cfg, s, step) && !step.ExpireTask?
    ensures UnderWay(Apply(cfg, s, step), i, token, stored || step.FinishRefresh?)
    ensures Apply(cfg, s, step).tasks[i].id == s.tasks[i].id
  {
  }

  lemma {:induction false} StaysUnderWay(cfg: Config, s: State, steps: seq<Step>, i: nat, token: string, stored: bool)
    requires UnderWay(s, i, token, stored) && Continue(cfg, s, steps).Some?
    requires forall step | step in steps :: !step.ExpireTask?
    ensures var s' := Continue(cfg, s, steps).value;
            UnderWay(s', i, token, stored || Finishes(steps)) && s'.tasks[i].id == s.tasks[i].id
    decreases |steps|
  {
    if steps != [] {
      var step, rest := steps[0], steps[1..];
      assert step in steps;
      StepUnderWay(cfg, s, step, i, token, stored);
      StaysUnderWay(cfg, Apply(cfg, s, step), rest, i, token, stored || step.FinishRefresh?);
      FinishesStep(steps);
    }
  }

  lemma FinishesStep(steps: seq<Step>)
    requires steps != []
    ensures Finishes(steps) <==> steps[0].FinishRefresh? || Finishes(steps[1..])
  {
    if Finishes(steps) && !steps[0].FinishRefresh? {
      var k :| 0 <= k < |steps| && steps[k].FinishRefresh?;
      assert steps[1..][k - 1].FinishRefresh?;
    }
    if Finishes(steps[1..]) {
      var k :| 0 <= k < |steps[1..]| && steps[1..][k].FinishRefresh?;
      assert steps[k + 1].FinishRefresh?;
    }
  }

  lemma MatchingTouch(s: State, i: nat, token: string, stored: bool)
    requires TokenInv(s) && IdInv(s) && IsToken(token) && UnderWay(s, i, token, stored)
    ensures Matching(s.tasks, TOUCH + token) == if stored then {s.tasks[i].id} else {}
  {
    TouchLineMatches(s, token);
    TouchIsTouch(token);
    if stored {
      MatchingIsOne(s.tasks, TOUCH + token, i);
    }
  }

  /**
   * The command is executed before it is stored. From the moment its refresh begins to its expiry
   * test, the record of the touch process flags the task, and nobody else, if the refresh has
   * stored the command by then; otherwise it flags nobody and the heartbeat is lost.
   */
  lemma TouchFlagsIffStored(cfg: Config, before: seq<Step>, s: State, i: nat, token: string, steps: seq<Step>)
    requires Exec(cfg, before) == Some(s) && s.beat == Refreshing(i, token)
    requires Continue(cfg, s, steps).Some? && forall step | step in steps :: !step.ExpireTask?
    ensures i < |s.tasks|
    ensures Matching(Continue(cfg, s, steps).value.tasks, TOUCH + token)
         == if Finishes(steps) then {s.tasks[i].id} else {}
  {
    IdsStayDistinct(cfg, before);
    TokensStayDistinct(cfg, before);
    StaysUnderWay(cfg, s, steps, i, token, false);
    ExecContinues(cfg, before, s, steps);
    IdsStayDistinct(cfg, before + steps);
    TokensStayDistinct(cfg, before + steps);
    MatchingTouch(Continue(cfg, s, steps).value, i, token, Finishes(steps));
  }

  /** From the start: two tasks are registered in one round, and their ping is matched. */
  lemma TwoFlagged() returns (steps: seq<Step>, s: State)
    ensures Exec(Config(true, true), steps) == Some(s) && s.beat == Scanning(0) && s.used == {TOKEN} && |s.tasks| == 2
    ensures s.tasks[0].id != s.tasks[1].id
    ensures forall j :: 0 <= j < 2 ==> s.tasks[j].flagged && s.tasks[j].expires > 0
  {
    var cfg := Config(true, true);
    assert "a" != "b" && IsToken(TOKEN);
    steps, s := TwoInOneRound(TOKEN, "a", "b");
    PingContainsItself(TOKEN);
    assert forall j :: 0 <= j < 2 ==> s.tasks[j].id in Matching(s.tasks, Ping(TOKEN));
    steps, s := Do(cfg, steps, s, Match(Ping(TOKEN)));
    steps, s := Do(cfg, steps, s, StartScan);
  }

  /** Until the command is stored, its record flags nobody. */
  lemma UnstoredFlagsNobody(cfg: Config, steps: seq<Step>, s: State, i: nat, token: string)
    requires Exec(cfg, steps) == Some(s) && s.beat == Refreshing(i, token)
    ensures Apply(cfg, s, Match(TOUCH + token)).tasks == s.tasks
  {
    TouchFlagsIffStored(cfg, steps, s, i, token, []);
    assert Matching(s.tasks, TOUCH + token) == {};
    assert Mark(s.tasks, {}) == s.tasks;
  }

  /** From the start: a run in which the record of an executed refresh command flags nobody. */
  lemma HeartbeatMayBeLost() returns (steps: seq<Step>, s: State)
    ensures Exec(Config(true, true), steps) == Some(s) && s.beat == Refreshing(0, LATER)
    ensures Apply(Config(true, true), s, Match(TOUCH + LATER)).tasks == s.tasks
  {
    steps, s := TwoFlagged();
    LaterIsFresh(s);
    steps, s := Do(Config(true, true), steps, s, BeginRefresh(LATER));
    UnstoredFlagsNobody(Config(true, true), steps, s, 0, LATER);
  }

  // ------------------------------------------------ the other process started

  /** In every reachable state the name of the watchdog program flags every refreshed task, and no other. */
  lemma WatchdogFlagsAllRefreshed(cfg: Config, steps: seq<Step>, s: State, j: nat)
    requires Exec(cfg, steps) == Some(s) && j < |s.tasks|
    ensures Apply(cfg, s, Match(WATCHDOG)).tasks[j]
         == s.tasks[j].(flagged := s.tasks[j].flagged || IsTouch(s.tasks[j].command))
  {
    IdsStayDistinct(cfg, steps);
    TokensStayDistinct(cfg, steps);
    WatchdogInRefreshed(s, j);
    MarkAt(s.tasks, WATCHDOG, j);
  }

  lemma WatchdogInRefreshed(s: State, j: nat)
    requires TokenInv(s) && j < |s.tasks|
    ensures Contains(s.tasks[j].command, WATCHDOG) <==> IsTouch(s.tasks[j].command)
  {
    assert GoodCommand(s.tasks[j].command, s.used);
    WatchdogMatchesExactly(s.tasks[j].command);
  }

  lemma RefreshOnce(steps: seq<Step>, s: State, token: string) returns (steps': seq<Step>, s': State)
    requires Exec(Config(true, true), steps) == Some(s) && Enabled(Config(true, true), s, BeginRefresh(token))
    ensures Exec(Config(true, true), steps') == Some(s') && s'.beat == Scanning(s.beat.i + 1)
    ensures s'.used == s.used + {token} && s'.tasks == RefreshAt(s.tasks, s.beat.i, 0, token)
  {
    var cfg := Config(true, true);
    steps', s' := Do(cfg, steps, s, BeginRefresh(token));
    steps', s' := Do(cfg, steps', s', FinishRefresh(0));
    RenewCleared(s.tasks, s.beat.i, 0, token);
    steps', s' := Do(cfg, steps', s', ExpireTask(0));
  }

  /** From the start: a run in which one line with the name of the watchdog program flags two refreshed tasks. */
  lemma OneLineMayFlagTwo() returns (steps: seq<Step>, s: State)
    ensures Exec(Config(true, true), steps) == Some(s) && |s.tasks| == 2
    ensures forall j :: 0 <= j < 2 ==>
              !s.tasks[j].flagged && Apply(Config(true, true), s, Match(WATCHDOG)).tasks[j].flagged
  {
    steps, s := TwoFlagged();
    LaterIsFresh(s);
    steps, s := RefreshOnce(steps, s, LATER);
    assert s.used == {TOKEN, LATER};
    LaterIsFresh(s);
    steps, s := RefreshOnce(steps, s, LATEST);
    TouchIsTouch(LATER);
    TouchIsTouch(LATEST);
    WatchdogFlagsAllRefreshed(Config(true, true), steps, s, 0);
    WatchdogFlagsAllRefreshed(Config(true, true), steps, s, 1);
  }

  /** It reaches the matcher as it stands whenever the audit record carries it unquoted and in clear. */
  lemma WatchdogTitleIsRead(head: string, utf8: Utf8Decoder)
    requires !Contains(head, PROCTITLE)
    ensures MatchedCommand(head + PROCTITLE + (WATCHDOG + "\n"), utf8) == Some(WATCHDOG)
  {
    assert !IsHexChar(WATCHDOG[0]);
    StripTrims("", WATCHDOG, "\n");
    assert "" + WATCHDOG + "\n" == WATCHDOG + "\n";
    MatchRawTitle(head, WATCHDOG + "\n", utf8);
  }
}
