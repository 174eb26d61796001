// Passes at one clock value in runs of the heartbeat protocol: equal tasks stand together in
// every reachable state as long as registrations read a clock that does not fall, so passes
// halve the runs of expired tasks exactly, at every granularity.
module MonitorPasses {
  import opened Wrappers
  import opened Tasks
  import opened ExpiryPass
  import opened Commands
  import opened Monitor
  import opened MonitorProperties
  import opened MonitorRuns

  // ------------------------------------------------- equal tasks stand together

  predicate Registers(step: Step) {
    step.Register? || step.PopAndRegister?
  }

  /** No registration of the run reads an earlier time than a registration before it. */
  predicate ClockRises(steps: seq<Step>) {
    steps != [] ==>
      var init, last := steps[..|steps| - 1], steps[|steps| - 1];
      ClockRises(init) && (Registers(last) ==> forall t | t in Stamps(init) :: t <= last.now)
  }

  /** Tasks are listed in the order of their registration, and unrefreshed ones have their first deadline. */
  predicate InOrderOfTime(ts: seq<Task>, stamps: set<int>) {
    && (forall i :: 0 <= i < |ts| ==> ts[i].created in stamps)
    && (forall i, j :: 0 <= i < j < |ts| ==> ts[i].created <= ts[j].created)
    && (forall i :: 0 <= i < |ts| && Unrefreshed(ts[i]) ==> ts[i].expires == ts[i].created + 180 * SECOND)
  }

  predicate SameRoundTasks(a: Task, b: Task, roundOf: map<nat, nat>) {
    a.id in roundOf && b.id in roundOf && roundOf[a.id] == roundOf[b.id]
  }

  function RoundAt(t: Task, roundOf: map<nat, nat>): nat {
    if t.id in roundOf then roundOf[t.id] else 0
  }

  predicate InOrderOfRound(ts: seq<Task>, roundOf: map<nat, nat>) {
    forall i, j :: 0 <= i < j < |ts| ==> RoundAt(ts[i], roundOf) <= RoundAt(ts[j], roundOf)
  }

  /** No record has matched the task since its registration; `busy` is the index being refreshed, or -1. */
  predicate Unmatched(ts: seq<Task>, i: int, busy: int)
    requires 0 <= i < |ts|
  {
    Unrefreshed(ts[i]) && !ts[i].flagged && i != busy
  }

  /** Within a round, a task behind one that was never matched was never matched either. */
  predicate MatchedFromFront(ts: seq<Task>, roundOf: map<nat, nat>, busy: int) {
    forall i, k :: 0 <= i < k < |ts| && SameRoundTasks(ts[i], ts[k], roundOf) && Unmatched(ts, i, busy) ==>
      Unmatched(ts, k, busy)
  }

  function Busy(s: State): int {
    if s.beat.Refreshing? then s.beat.i else -1
  }

  predicate ListOk(ts: seq<Task>, roundOf: map<nat, nat>, busy: int, stamps: set<int>) {
    InOrderOfTime(ts, stamps) && InOrderOfRound(ts, roundOf) && MatchedFromFront(ts, roundOf, busy)
  }

  predicate ListInv(s: State, stamps: set<int>) {
    ListOk(s.tasks, s.roundOf, Busy(s), stamps)
  }

  lemma RemovalKeepsList(ts: seq<Task>, j: nat, roundOf: map<nat, nat>, stamps: set<int>)
    requires j < |ts| && ListOk(ts, roundOf, -1, stamps)
    ensures ListOk(RemoveAt(ts, j), roundOf, -1, stamps)
  {
    var ts' := RemoveAt(ts, j);
    forall i, k | 0 <= i < k < |ts'| && SameRoundTasks(ts'[i], ts'[k], roundOf) && Unmatched(ts', i, -1)
      ensures Unmatched(ts', k, -1)
    {
      assert Unmatched(ts, if i < j then i else i + 1, -1);
    }
  }

  /** Unrefreshed tasks of one round have one command, so a line matches all of them or none. */
  lemma MatchSparesBoth(s: State, line: string, i: nat, k: nat)
    requires MatchedFromFront(s.tasks, s.roundOf, Busy(s)) && IdInv(s) && RoundInv(s)
    requires i < k < |s.tasks| && SameRoundTasks(s.tasks[i], s.tasks[k], s.roundOf)
    requires Unmatched(Mark(s.tasks, Matching(s.tasks, line)), i, Busy(s))
    ensures Unmatched(Mark(s.tasks, Matching(s.tasks, line)), k, Busy(s))
  {
    var ts := s.tasks;
    assert Unmatched(ts, i, Busy(s)) && Unmatched(ts, k, Busy(s));
    assert InRound(ts[i], s.pings, s.roundOf) && InRound(ts[k], s.pings, s.roundOf);
    assert ts[i].command == ts[k].command;
  }

  lemma MatchKeepsList(s: State, line: string, stamps: set<int>)
    requires ListInv(s, stamps) && IdInv(s) && RoundInv(s)
    ensures ListOk(Mark(s.tasks, Matching(s.tasks, line)), s.roundOf, Busy(s), stamps)
  {
    var ts', busy := Mark(s.tasks, Matching(s.tasks, line)), Busy(s);
    forall i, k | 0 <= i < k < |ts'| && SameRoundTasks(ts'[i], ts'[k], s.roundOf) && Unmatched(ts', i, busy)
      ensures Unmatched(ts', k, busy)
    {
      MatchSparesBoth(s, line, i, k);
    }
  }

  /** A new task of the latest round at the end of the list. */
  lemma AppendKeepsList(ts: seq<Task>, t: Task, roundOf: map<nat, nat>, round: nat, stamps: set<int>)
    requires ListOk(ts, roundOf, -1, stamps)
    requires forall i :: 0 <= i < |ts| ==> ts[i].id != t.id && RoundAt(ts[i], roundOf) <= round
    requires (forall x | x in stamps :: x <= t.created) && t.expires == t.created + 180 * SECOND
    requires Unrefreshed(t) && !t.flagged
    ensures ListOk(ts + [t], roundOf[t.id := round], -1, stamps + {t.created})
  {
    var ts', roundOf' := ts + [t], roundOf[t.id := round];
    assert forall i :: 0 <= i < |ts| ==> ts'[i] == ts[i] && RoundAt(ts'[i], roundOf') == RoundAt(ts[i], roundOf);
    assert RoundAt(ts'[|ts|], roundOf') == round;
    forall i, k | 0 <= i < k < |ts'| && SameRoundTasks(ts'[i], ts'[k], roundOf') && Unmatched(ts', i, -1)
      ensures Unmatched(ts', k, -1)
    {
      assert Unmatched(ts, i, -1);
      assert k < |ts| ==> SameRoundTasks(ts[i], ts[k], roundOf) && Unmatched(ts, k, -1);
    }
  }

  lemma RegisteredKeepsList(s: State, ip: string, now: int, stamps: set<int>)
    requires ListInv(s, stamps) && IdInv(s) && RoundInv(s) && TokenInv(s) && (s.beat.Draining? || s.beat.InFlight?)
    requires forall t | t in stamps :: t <= now
    ensures ListInv(Registered(s, ip, now), stamps + {now})
  {
    PingIsPing(s.beat.token);
    assert forall i :: 0 <= i < |s.tasks| ==> InRound(s.tasks[i], s.pings, s.roundOf);
    AppendKeepsList(s.tasks, NewTask(s, ip, s.beat.token, now), s.roundOf, |s.pings|, stamps);
  }

  lemma BeginKeepsList(ts: seq<Task>, i: nat, roundOf: map<nat, nat>, stamps: set<int>)
    requires ListOk(ts, roundOf, -1, stamps) && i < |ts| && ts[i].flagged
    ensures ListOk(ClearFlag(ts, i), roundOf, i, stamps)
  {
    var ts' := ClearFlag(ts, i);
    forall x, k | 0 <= x < k < |ts'| && SameRoundTasks(ts'[x], ts'[k], roundOf) && Unmatched(ts', x, i)
      ensures Unmatched(ts', k, i)
    {
      assert Unmatched(ts, x, -1);
    }
  }

  lemma RenewKeepsList(ts: seq<Task>, i: nat, now: int, token: string, roundOf: map<nat, nat>, stamps: set<int>)
    requires ListOk(ts, roundOf, i, stamps) && i < |ts| && IsToken(token)
    ensures ListOk(Renew(ts, i, now, token), roundOf, -1, stamps)
  {
    var ts' := Renew(ts, i, now, token);
    TouchIsTouch(token);
    assert !Unrefreshed(ts'[i]);
    forall x, k | 0 <= x < k < |ts'| && SameRoundTasks(ts'[x], ts'[k], roundOf) && Unmatched(ts', x, -1)
      ensures Unmatched(ts', k, -1)
    {
      assert Unmatched(ts, x, i);
    }
  }

  predicate ChangesTasks(step: Step) {
    Registers(step) || step.BeginRefresh? || step.FinishRefresh? || step.ExpireTask? || step.Match?
  }

  lemma OtherKeepsTasks(cfg: Config, s: State, step: Step)
    requires Enabled(cfg, s, step) && !ChangesTasks(step)
    ensures var s' := Apply(cfg, s, step);
            s'.tasks == s.tasks && s'.roundOf == s.roundOf && Busy(s') == Busy(s)
  {
  }

  lemma ScanKeepsList(cfg: Config, s: State, step: Step, stamps: set<int>)
    requires ListInv(s, stamps) && TokenInv(s) && Enabled(cfg, s, step)
    requires step.BeginRefresh? || step.FinishRefresh? || step.ExpireTask?
    ensures ListInv(Apply(cfg, s, step), stamps)
  {
    match step
    case BeginRefresh(_) => BeginKeepsList(s.tasks, s.beat.i, s.roundOf, stamps);
    case FinishRefresh(now) => RenewKeepsList(s.tasks, s.beat.i, now, s.beat.token, s.roundOf, stamps);
    case ExpireTask(now) =>
      if s.tasks[s.beat.i].expires <= now {
        RemovalKeepsList(s.tasks, FirstSame(s.tasks, s.tasks[s.beat.i]), s.roundOf, stamps);
      }
  }

  lemma StepKeepsList(cfg: Config, s: State, step: Step, stamps: set<int>)
    requires ListInv(s, stamps) && IdInv(s) && RoundInv(s) && TokenInv(s) && Enabled(cfg, s, step)
    requires Registers(step) ==> forall t | t in stamps :: t <= step.now
    ensures ListInv(Apply(cfg, s, step), if Registers(step) then stamps + {step.now} else stamps)
  {
    if step.Register? {
      RegisteredKeepsList(s, s.beat.ip, step.now, stamps);
    } else if step.PopAndRegister? {
      RegisteredKeepsList(s.(queue := s.queue[..|s.queue| - 1]), s.queue[|s.queue| - 1], step.now, stamps);
    } else if step.Match? {
      MatchKeepsList(s, step.line, stamps);
    } else if ChangesTasks(step) {
      ScanKeepsList(cfg, s, step, stamps);
    } else {
      OtherKeepsTasks(cfg, s, step);
    }
  }

  lemma {:induction false} ListsStayOrdered(cfg: Config, steps: seq<Step>)
    requires Exec(cfg, steps).Some? && ClockRises(steps)
    ensures ListInv(Exec(cfg, steps).value, Stamps(steps))
  {
    if steps != [] {
      var init := steps[..|steps| - 1];
      ListsStayOrdered(cfg, init);
      IdsStayDistinct(cfg, init);
      TokensStayDistinct(cfg, init);
      RoundsStayDistinct(cfg, init);
      StepKeepsList(cfg, Exec(cfg, init).value, steps[|steps| - 1], Stamps(init));
      assert Stamps(init) + {} == Stamps(init);
    }
  }

  /** Equal doomed tasks are unrefreshed tasks of one round, and so are all tasks between them. */
  lemma EqualsStandTogether(s: State, stamps: set<int>, i: nat, j: nat, k: nat, now: int)
    requires ListInv(s, stamps) && TokenInv(s) && RoundInv(s) && !s.beat.Refreshing?
    requires i <= k <= j < |s.tasks| && i < j
    requires Doomed(s.tasks[i], now) && Doomed(s.tasks[j], now) && SameValue(s.tasks[i], s.tasks[j])
    ensures Doomed(s.tasks[k], now)
  {
    var a, b, c := s.tasks[i], s.tasks[j], s.tasks[k];
    assert GoodCommand(a.command, s.used) && !SameToken(a.command, b.command);
    assert InRound(a, s.pings, s.roundOf) && InRound(b, s.pings, s.roundOf) && InRound(c, s.pings, s.roundOf);
    PingTellsRound(a, b, s.pings, s.used, s.roundOf);
    if i < k < j {
      assert RoundAt(a, s.roundOf) <= RoundAt(c, s.roundOf) <= RoundAt(b, s.roundOf);
      assert SameRoundTasks(a, c, s.roundOf) && Unmatched(s.tasks, i, -1);
      assert Unmatched(s.tasks, k, -1) && a.created <= c.created <= b.created;
    }
  }

  /** In every reachable state, at every granularity, outside the two halves of a refresh. */
  lemma ReachableIsTogether(cfg: Config, steps: seq<Step>, now: int)
    requires Exec(cfg, steps).Some? && ClockRises(steps) && !Exec(cfg, steps).value.beat.Refreshing?
    ensures Together(Exec(cfg, steps).value.tasks, now)
  {
    var s := Exec(cfg, steps).value;
    IdsStayDistinct(cfg, steps);
    TokensStayDistinct(cfg, steps);
    RoundsStayDistinct(cfg, steps);
    ListsStayOrdered(cfg, steps);
    forall i, j | 0 <= i < j < |s.tasks| && Doomed(s.tasks[i], now) && Doomed(s.tasks[j], now)
        && SameValue(s.tasks[i], s.tasks[j])
      ensures AllDoomed(s.tasks, i, j, now)
    {
      forall k | i <= k <= j ensures Doomed(s.tasks[k], now) {
        EqualsStandTogether(s, Stamps(steps), i, j, k, now);
      }
    }
  }

  // ---------------------------------------------------- passes at one clock value

  /** No record is matched, no device registered, and every clock read of a pass is `now`. */
  predicate QuietStep(step: Step, now: int) {
    && !step.Match? && !Registers(step)
    && (step.FinishRefresh? || step.ExpireTask? ==> step.now == now)
  }

  ghost predicate QuietReads(env: nat -> Reads, now: int) {
    forall k :: env(k) == Reads({}, now, env(k).token, {}, now)
  }

  function TokensOf(env: nat -> Reads): nat -> string {
    (k: nat) => env(k).token
  }

  /** A pass with quiet reads is a quiet pass. */
  lemma QuietReadsScan(ts: seq<Task>, env: nat -> Reads, now: int)
    requires QuietReads(env, now)
    ensures Scan(ts, 0, env) == Scan(ts, 0, Quiet(now, TokensOf(env)))
  {
    forall k: nat ensures env(k) == Quiet(now, TokensOf(env))(k) {
    }
    ScanReadsAhead(ts, 0, env, Quiet(now, TokensOf(env)));
  }

  lemma EarlierIsQuiet(s: State, step: Step, env: nat -> Reads, now: int)
    requires InScan(s) && QuietStep(step, now) && QuietReads(env, now)
    ensures QuietReads(Earlier(s, step, env), now)
  {
  }

  /** The tokens of one pass in front of those of the passes that follow. */
  function Before(first: nat -> string, tokens: nat -> nat -> string): nat -> nat -> string {
    (m: nat) => if m == 0 then first else tokens(m - 1)
  }

  lemma {:induction false} PassesAfterFirst(ts: seq<Task>, m: nat, now: int, first: nat -> string,
      tokens: nat -> nat -> string)
    ensures Passes(ts, m + 1, now, Before(first, tokens)) == Passes(Scan(ts, 0, Quiet(now, first)), m, now, tokens)
  {
    if m == 0 {
      assert Passes(ts, 0, now, Before(first, tokens)) == ts;
      assert Before(first, tokens)(0) == first;
    } else {
      PassesAfterFirst(ts, m - 1, now, first, tokens);
      assert Before(first, tokens)(m) == tokens(m - 1);
    }
  }

  /** What a quiet run with `m` completed passes comes to, from where the heartbeat thread stands. */
  function Outcome(s: State, env: nat -> Reads, m: nat, now: int, tokens: nat -> nat -> string): seq<Task> {
    if InScan(s) && m > 0 then Passes(Rest(SpotOf(s, env), env), m - 1, now, tokens)
        else Passes(s.tasks, m, now, tokens)
  }

  /** A quiet run up to the end of a round. */
  predicate QuietTo(cfg: Config, s: State, steps: seq<Step>, now: int) {
    && (s.beat.Checking? || s.beat.Refreshing? ==> s.beat.i < |s.tasks|)
    && (forall step | step in steps :: QuietStep(step, now))
    && var end := Continue(cfg, s, steps);
       end.Some? && end.value.beat.Starting?
  }

  lemma StaysQuiet(cfg: Config, s: State, steps: seq<Step>, now: int)
    requires QuietTo(cfg, s, steps, now) && steps != []
    ensures Enabled(cfg, s, steps[0]) && QuietStep(steps[0], now)
    ensures QuietTo(cfg, Apply(cfg, s, steps[0]), steps[1..], now)
  {
    assert steps[0] in steps;
    assert forall step | step in steps[1..] :: step in steps;
  }

  /** From within a scan a run to the end of a round completes at least one pass. */
  lemma {:induction false} ScanIsCompleted(cfg: Config, s: State, steps: seq<Step>, now: int)
    requires QuietTo(cfg, s, steps, now) && InScan(s)
    ensures CompletedPasses(steps) > 0
    decreases |steps|
  {
    StaysQuiet(cfg, s, steps, now);
    if !steps[0].EndScan? {
      ScanIsCompleted(cfg, Apply(cfg, s, steps[0]), steps[1..], now);
    }
  }

  lemma StepOutcome(cfg: Config, s: State, step: Step, env: nat -> Reads, m: nat, now: int,
      tokens: nat -> nat -> string)
    requires InScan(s) && Enabled(cfg, s, step) && QuietStep(step, now) && !step.EndScan? && m > 0
    ensures InScan(Apply(cfg, s, step))
    ensures Outcome(s, Earlier(s, step, env), m, now, tokens) == Outcome(Apply(cfg, s, step), env, m, now, tokens)
  {
    StepSameRest(cfg, s, step, env);
  }

  lemma EndOutcome(cfg: Config, s: State, env: nat -> Reads, m: nat, now: int, tokens: nat -> nat -> string)
    requires Enabled(cfg, s, EndScan)
    ensures Outcome(s, env, m + 1, now, tokens) == Outcome(Apply(cfg, s, EndScan), env, m, now, tokens)
  {
    ScanEnd(s.tasks, s.beat.i, env);
  }

  lemma StartOutcome(cfg: Config, s: State, env: nat -> Reads, m: nat, now: int, tokens: nat -> nat -> string)
    requires Enabled(cfg, s, StartScan) && m > 0 && QuietReads(env, now)
    ensures Outcome(s, env, m, now, Before(TokensOf(env), tokens))
        == Outcome(Apply(cfg, s, StartScan), env, m, now, tokens)
  {
    QuietReadsScan(s.tasks, env, now);
    PassesAfterFirst(s.tasks, m - 1, now, TokensOf(env), tokens);
  }

  /** Steps outside a scan, other than its start. */
  lemma IdleOutcome(cfg: Config, s: State, step: Step, env: nat -> Reads, m: nat, now: int,
      tokens: nat -> nat -> string)
    requires Enabled(cfg, s, step) && QuietStep(step, now) && !InScan(s) && !step.StartScan?
    requires s.beat.Checking? || s.beat.Refreshing? ==> s.beat.i < |s.tasks|
    ensures Outcome(s, env, m, now, tokens) == Outcome(Apply(cfg, s, step), env, m, now, tokens)
  {
    var s' := Apply(cfg, s, step);
    assert !InScan(s') && s'.tasks == s.tasks;
  }

  /** A quiet run does to the task list what its completed passes of `check_expire` do at that clock value. */
  lemma {:induction false} QuietRunIsPasses(cfg: Config, s: State, steps: seq<Step>, now: int)
    returns (env: nat -> Reads, tokens: nat -> nat -> string)
    requires QuietTo(cfg, s, steps, now)
    ensures QuietReads(env, now)
    ensures Continue(cfg, s, steps).value.tasks == Outcome(s, env, CompletedPasses(steps), now, tokens)
    decreases |steps|
  {
    if steps == [] {
      var none: nat -> string := _ => "";
      env, tokens := Quiet(now, none), (_: nat) => none;
    } else {
      var step, m := steps[0], CompletedPasses(steps[1..]);
      StaysQuiet(cfg, s, steps, now);
      env, tokens := QuietRunIsPasses(cfg, Apply(cfg, s, step), steps[1..], now);
      if step.EndScan? {
        EndOutcome(cfg, s, env, m, now, tokens);
      } else if step.StartScan? {
        ScanIsCompleted(cfg, Apply(cfg, s, step), steps[1..], now);
        StartOutcome(cfg, s, env, m, now, tokens);
        tokens := Before(TokensOf(env), tokens);
      } else if InScan(s) {
        ScanIsCompleted(cfg, s, steps, now);
        StepOutcome(cfg, s, step, env, m, now, tokens);
        EarlierIsQuiet(s, step, env, now);
        env := Earlier(s, step, env);
      } else {
        IdleOutcome(cfg, s, step, env, m, now, tokens);
      }
    }
  }

  predicate BetweenScans(s: State) {
    s.beat.Starting? || s.beat.Draining?
  }

  lemma QuietRounds(cfg: Config, s: State, steps: seq<Step>, now: int) returns (tokens: nat -> nat -> string)
    requires QuietTo(cfg, s, steps, now) && BetweenScans(s)
    ensures Continue(cfg, s, steps).value.tasks == Passes(s.tasks, CompletedPasses(steps), now, tokens)
  {
    var env;
    env, tokens := QuietRunIsPasses(cfg, s, steps, now);
  }

  /**
   * Convergence in runs of the protocol, exactly, at every granularity: if registrations have
   * read a clock that does not fall, m passes at one clock value with no record matched clear all
   * expired unflagged tasks if and only if the longest run of them is shorter than 2^m; every
   * maximal run is halved m times, and every other task stays, in order.
   */
  lemma ClearedInRun(cfg: Config, before: seq<Step>, s: State, steps: seq<Step>, now: int)
    requires Exec(cfg, before) == Some(s) && ClockRises(before) && BetweenScans(s) && QuietTo(cfg, s, steps, now)
    ensures var after, m := Continue(cfg, s, steps).value.tasks, CompletedPasses(steps);
            && (NoneDoomed(after, now) <==> LongestRun(Pattern(s.tasks, now)) < Pow2(m))
            && RunLengths(Pattern(after, now)) == HalvedAll(RunLengths(Pattern(s.tasks, now)), m)
            && SurvivorIds(after, now) == SurvivorIds(s.tasks, now)
  {
    var tokens := QuietRounds(cfg, s, steps, now);
    ReachableIsTogether(cfg, before, now);
    ClearedExactly(s.tasks, CompletedPasses(steps), now, tokens);
    HalvedRuns(s.tasks, CompletedPasses(steps), now, tokens);
  }

  /** Whatever clock the registrations read, more than log2 d passes clear d expired unflagged tasks. */
  lemma ClearedWithinLogInRun(cfg: Config, before: seq<Step>, s: State, steps: seq<Step>, now: int)
    requires Exec(cfg, before) == Some(s) && BetweenScans(s) && QuietTo(cfg, s, steps, now)
    requires DoomedCount(s.tasks, now) < Pow2(CompletedPasses(steps))
    ensures NoneDoomed(Continue(cfg, s, steps).value.tasks, now)
    ensures SurvivorIds(Continue(cfg, s, steps).value.tasks, now) == SurvivorIds(s.tasks, now)
  {
    var tokens := QuietRounds(cfg, s, steps, now);
    IdsStayDistinct(cfg, before);
    ClearedAfter(s.tasks, CompletedPasses(steps), now, tokens);
  }

  // --------------------------------------------------- a run with a falling clock

  lemma {:induction false} ContinueConcat(cfg: Config, s: State, a: seq<Step>, b: seq<Step>)
    requires Continue(cfg, s, a).Some?
    ensures Continue(cfg, s, a + b) == Continue(cfg, Continue(cfg, s, a).value, b)
    ensures CompletedPasses(a + b) == CompletedPasses(a) + CompletedPasses(b)
    decreases |a|
  {
    if a == [] {
      assert a + b == b;
    } else {
      assert (a + b)[0] == a[0] && (a + b)[1..] == a[1..] + b;
      ContinueConcat(cfg, Apply(cfg, s, a[0]), a[1..], b);
    }
  }

  predicate NoneFlagged(ts: seq<Task>) {
    forall i :: 0 <= i < |ts| ==> !ts[i].flagged
  }

  /** A run without matches from one state between scans to another, with nothing queued. */
  predicate QuietRound(cfg: Config, s: State, steps: seq<Step>, s': State, now: int) {
    && Continue(cfg, s, steps) == Some(s') && s'.beat.Starting? && CompletedPasses(steps) == 1
    && s'.queue == s.queue && s'.used == s.used && NoneFlagged(s'.tasks)
    && (forall step | step in steps :: QuietStep(step, now))
  }

  lemma ExamineUnflagged(cfg: Config, s: State, now: int) returns (s': State)
    requires s.beat.Scanning? && s.beat.i < |s.tasks| && NoneFlagged(s.tasks)
    ensures Continue(cfg, s, [SkipRefresh, ExpireTask(now)]) == Some(s')
    ensures s'.beat == Scanning(s.beat.i + 1) && s'.queue == s.queue && s'.used == s.used
    ensures NoneFlagged(s'.tasks) && |s'.tasks| <= |s.tasks|
  {
    var s1 := Apply(cfg, s, SkipRefresh);
    s' := Apply(cfg, s1, ExpireTask(now));
    assert [SkipRefresh, ExpireTask(now)][1..] == [ExpireTask(now)] && [ExpireTask(now)][1..] == [];
    assert Continue(cfg, s1, [ExpireTask(now)]) == Some(s');
  }

  /** The rest of a pass over unflagged tasks. */
  lemma {:induction false} FinishPass(cfg: Config, s: State, now: int) returns (steps: seq<Step>, s': State)
    requires s.beat.Scanning? && NoneFlagged(s.tasks)
    ensures QuietRound(cfg, s, steps, s', now)
    decreases |s.tasks| - s.beat.i
  {
    if s.beat.i >= |s.tasks| {
      steps, s' := [EndScan], Apply(cfg, s, EndScan);
      assert steps[1..] == [];
    } else {
      var pair := [SkipRefresh, ExpireTask(now)];
      var mid := ExamineUnflagged(cfg, s, now);
      var rest;
      rest, s' := FinishPass(cfg, mid, now);
      steps := pair + rest;
      ContinueConcat(cfg, s, pair, rest);
      assert pair[1..] == [ExpireTask(now)] && [ExpireTask(now)][1..] == [];
      assert CompletedPasses(pair) == 0;
    }
  }

  lemma StartAndFinish(cfg: Config, s: State, now: int) returns (steps: seq<Step>, s': State)
    requires s.beat.Draining? && s.queue == [] && NoneFlagged(s.tasks)
    ensures QuietRound(cfg, s, steps, s', now)
  {
    var rest;
    rest, s' := FinishPass(cfg, Apply(cfg, s, StartScan), now);
    steps := [StartScan] + rest;
    assert steps[1..] == rest;
  }

  /** Two passes over unflagged tasks at one clock value. */
  lemma TwoQuietPasses(cfg: Config, s: State, token: string, now: int) returns (steps: seq<Step>)
    requires s.beat.Draining? && s.queue == [] && NoneFlagged(s.tasks) && IsFresh(s, token)
    ensures QuietTo(cfg, s, steps, now) && CompletedPasses(steps) == 2
  {
    var first, mid := StartAndFinish(cfg, s, now);
    var second, s' := StartAndFinish(cfg, Apply(cfg, mid, NewRound(token)), now);
    var rest := [NewRound(token)] + second;
    assert rest[1..] == second && Continue(cfg, mid, rest) == Some(s');
    steps := first + rest;
    ContinueConcat(cfg, s, first, rest);
  }

  function TaskAt(id: nat, ip: string, now: int): Task {
    Task(id, now, now + 180 * SECOND, ip, Ping(TOKEN), false)
  }

  /** The heartbeat thread is draining the queue of its first round, and the listener is waiting. */
  predicate FirstRound(s: State) {
    s.beat == Draining(TOKEN) && s.listener.Waiting? && s.used == {TOKEN} && s.nextId == |s.tasks|
  }

  /** A device is queued and popped. */
  lemma InFlightNow(cfg: Config, steps: seq<Step>, s: State, ip: string) returns (steps': seq<Step>, s': State)
    requires !cfg.atomicRegister && Exec(cfg, steps) == Some(s) && FirstRound(s)
    requires !IsMonitored(s.tasks, ip) && ip !in s.queue
    ensures Exec(cfg, steps') == Some(s') && s' == s.(beat := InFlight(ip, TOKEN))
  {
    steps', s' := Connect(cfg, steps, s, ip);
    assert s'.queue[..|s.queue|] == s.queue;
    steps', s' := Do(cfg, steps', s', PopDevice);
  }

  /** A device connects, and is popped and registered at once. */
  lemma RegisterAt(cfg: Config, steps: seq<Step>, s: State, ip: string, now: int)
    returns (steps': seq<Step>, s': State)
    requires !cfg.atomicRegister && Exec(cfg, steps) == Some(s) && FirstRound(s)
    requires !IsMonitored(s.tasks, ip) && ip !in s.queue
    ensures Exec(cfg, steps') == Some(s') && FirstRound(s') && s'.queue == s.queue
    ensures s'.tasks == s.tasks + [TaskAt(|s.tasks|, ip, now)]
  {
    steps', s' := InFlightNow(cfg, steps, s, ip);
    steps', s' := Do(cfg, steps', s', Register(now));
  }

  /** A device comes back while it is in flight: it is registered, and queued again. */
  lemma RegisterAndRequeue(cfg: Config, steps: seq<Step>, s: State, ip: string, now: int)
    returns (steps': seq<Step>, s': State)
    requires !cfg.atomicRegister && Exec(cfg, steps) == Some(s) && FirstRound(s)
    requires !IsMonitored(s.tasks, ip) && s.queue == []
    ensures Exec(cfg, steps') == Some(s') && FirstRound(s') && s'.queue == [ip]
    ensures s'.tasks == s.tasks + [TaskAt(|s.tasks|, ip, now)]
  {
    steps', s' := InFlightNow(cfg, steps, s, ip);
    steps', s' := Connect(cfg, steps', s', ip);
    steps', s' := Do(cfg, steps', s', Register(now));
  }

  /** The five tasks of the run: the third was registered at a later time than the two after it. */
  function FiveTasks(): seq<Task> {
    [TaskAt(0, "x", 0), TaskAt(1, "a", 0), TaskAt(2, "n", 100 * SECOND), TaskAt(3, "a", 0), TaskAt(4, "y", 0)]
  }

  lemma FirstRegistrations(cfg: Config) returns (steps: seq<Step>, s: State)
    requires !cfg.atomicRegister
    ensures Exec(cfg, steps) == Some(s) && FirstRound(s) && s.queue == ["a"] && s.tasks == FiveTasks()[..2]
  {
    assert IsToken(TOKEN);
    steps, s := Do(cfg, [], START, NewRound(TOKEN));
    steps, s := RegisterAt(cfg, steps, s, "x", 0);
    assert s.tasks == [TaskAt(0, "x", 0)];
    steps, s := RegisterAndRequeue(cfg, steps, s, "a", 0);
  }

  lemma MoreRegistrations(cfg: Config, steps: seq<Step>, s: State) returns (steps': seq<Step>, s': State)
    requires !cfg.atomicRegister
    requires Exec(cfg, steps) == Some(s) && FirstRound(s) && s.queue == ["a"] && s.tasks == FiveTasks()[..2]
    ensures Exec(cfg, steps') == Some(s') && FirstRound(s') && s'.queue == [] && s'.tasks == FiveTasks()[..4]
  {
    steps', s' := RegisterAt(cfg, steps, s, "n", 100 * SECOND);
    steps', s' := Do(cfg, steps', s', PopDevice);
    assert s'.queue == [];
    steps', s' := Do(cfg, steps', s', Register(0));
  }

  lemma FallingRegistrations(cfg: Config) returns (steps: seq<Step>, s: State)
    requires !cfg.atomicRegister
    ensures Exec(cfg, steps) == Some(s) && FirstRound(s) && s.queue == [] && s.tasks == FiveTasks()
  {
    steps, s := FirstRegistrations(cfg);
    steps, s := MoreRegistrations(cfg, steps, s);
    steps, s := RegisterAt(cfg, steps, s, "y", 0);
  }

  lemma FiveTasksOutlast(tokens: nat -> nat -> string)
    ensures LongestRun(Pattern(FiveTasks(), 180 * SECOND)) == 2 < Pow2(2)
    ensures !NoneDoomed(Passes(FiveTasks(), 2, 180 * SECOND, tokens), 180 * SECOND)
  {
    var ts, now := FiveTasks(), 180 * SECOND;
    assert ts[2].created != ts[3].created && ts[0].ip != ts[3].ip;
    EqualTasksOutlast(ts[0], ts[1], ts[2], ts[3], ts[4], now, tokens);
  }

  /**
   * With a clock that falls between registrations the exact condition fails: from the start, a
   * run comes to a list whose longest run is two, and two passes do not clear it.
   */
  lemma FallingClockOutlasts(cfg: Config) returns (before: seq<Step>, s: State, steps: seq<Step>)
    requires !cfg.atomicRegister
    ensures Exec(cfg, before) == Some(s) && BetweenScans(s) && QuietTo(cfg, s, steps, 180 * SECOND)
    ensures !ClockRises(before)
    ensures CompletedPasses(steps) == 2 && LongestRun(Pattern(s.tasks, 180 * SECOND)) == 2 < Pow2(2)
    ensures !NoneDoomed(Continue(cfg, s, steps).value.tasks, 180 * SECOND)
  {
    before, s := FallingRegistrations(cfg);
    LaterIsFresh(s);
    steps := TwoQuietPasses(cfg, s, LATER, 180 * SECOND);
    var tokens := QuietRounds(cfg, s, steps, 180 * SECOND);
    FiveTasksOutlast(tokens);
    if ClockRises(before) {
      ClearedInRun(cfg, before, s, steps, 180 * SECOND);
    }
  }
}
