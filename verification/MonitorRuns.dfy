// Passes of the heartbeat protocol machine are passes of `check_expire`: what was proved of one
// pass over a list of values holds of the interleaved runs, at every granularity.
module MonitorRuns {
  import opened Wrappers
  import opened Text
  import opened Tasks
  import opened ExpiryPass
  import opened Eviction
  import opened Commands
  import opened Monitor
  import opened MonitorProperties

  /** A run that goes on from a given state. */
  function Continue(cfg: Config, s: State, steps: seq<Step>): Option<State>
    decreases |steps|
  {
    if steps == [] then Some(s)
    else if Enabled(cfg, s, steps[0]) then Continue(cfg, Apply(cfg, s, steps[0]), steps[1..])
    else None
  }

  lemma {:induction false} ExecContinues(cfg: Config, before: seq<Step>, s: State, more: seq<Step>)
    requires Exec(cfg, before) == Some(s)
    ensures Exec(cfg, before + more) == Continue(cfg, s, more)
    decreases |more|
  {
    if more == [] {
      assert before + more == before;
    } else {
      var step := more[0];
      assert before + more == (before + [step]) + more[1..];
      assert (before + [step])[..|before|] == before;
      if Enabled(cfg, s, step) {
        ExecContinues(cfg, before + [step], Apply(cfg, s, step), more[1..]);
      } else {
        StuckStaysStuck(cfg, before + [step], more[1..]);
      }
    }
  }

  lemma {:induction false} StuckStaysStuck(cfg: Config, before: seq<Step>, more: seq<Step>)
    requires Exec(cfg, before).None?
    ensures Exec(cfg, before + more).None?
    decreases |more|
  {
    if more == [] {
      assert before + more == before;
    } else {
      var all := before + more;
      assert all[..|all| - 1] == before + more[..|more| - 1];
      StuckStaysStuck(cfg, before, more[..|more| - 1]);
    }
  }

  // ------------------------------------------------ a pass read off the steps

  lemma MarkTwice(ts: seq<Task>, a: set<nat>, b: set<nat>)
    ensures Mark(Mark(ts, a), b) == Mark(ts, a + b)
  {
  }

  lemma MarkNone(ts: seq<Task>)
    ensures Mark(ts, {}) == ts
  {
  }

  /** The old command can be matched while the task is being refreshed; the flag survives. */
  lemma RenewMarked(ts: seq<Task>, i: nat, now: int, token: string, ids: set<nat>)
    requires i < |ts|
    ensures Renew(Mark(ts, ids), i, now, token) == Mark(Renew(ts, i, now, token), ids)
  {
  }

  lemma RenewCleared(ts: seq<Task>, i: nat, now: int, token: string)
    requires i < |ts| && ts[i].flagged
    ensures Renew(ClearFlag(ts, i), i, now, token) == RefreshAt(ts, i, now, token)
  {
  }

  predicate InScan(s: State) {
    s.beat.Scanning? || ((s.beat.Refreshing? || s.beat.Checking?) && s.beat.i < |s.tasks|)
  }

  /** The rest of an iteration, from its expiry test on. */
  function AfterRefresh(ts: seq<Task>, i: nat, e: Reads): seq<Task>
    requires i < |ts|
  {
    ExpireAt(Mark(ts, e.lateMarks), i, e.checkNow)
  }

  /** The list and the index with which `check_expire` goes on from where the heartbeat thread stands. */
  datatype Spot = Spot(ts: seq<Task>, i: nat)

  function SpotOf(s: State, env: nat -> Reads): Spot
    requires InScan(s)
  {
    match s.beat
    case Scanning(i) => Spot(s.tasks, i)
    case Refreshing(i, token) => Spot(AfterRefresh(Renew(s.tasks, i, env(i).refreshNow, token), i, env(i)), i + 1)
    case Checking(i) => Spot(AfterRefresh(s.tasks, i, env(i)), i + 1)
  }

  function Rest(p: Spot, env: nat -> Reads): seq<Task> {
    Scan(p.ts, p.i, env)
  }

  ghost predicate AgreeFrom(env: nat -> Reads, env': nat -> Reads, i: nat) {
    forall k :: k >= i ==> env(k) == env'(k)
  }

  /** A pass reads only the iterations that are still to come. */
  lemma {:induction false} ScanReadsAhead(ts: seq<Task>, i: nat, env: nat -> Reads, env': nat -> Reads)
    requires AgreeFrom(env, env', i)
    ensures Scan(ts, i, env) == Scan(ts, i, env')
    decreases |ts| - i
  {
    if i < |ts| {
      assert env(i) == env'(i);
      ScanReadsAhead(Examine(ts, i, env(i)), i + 1, env, env');
    }
  }

  /** The second spot is one iteration ahead of the first. */
  ghost predicate OneAhead(p: Spot, env: nat -> Reads, q: Spot, env': nat -> Reads) {
    p.i < |p.ts| && AgreeFrom(env, env', p.i + 1) && q == Spot(Examine(p.ts, p.i, env(p.i)), p.i + 1)
  }

  /** The next iterations at the two spots come to the same. */
  ghost predicate SameIteration(p: Spot, env: nat -> Reads, q: Spot, env': nat -> Reads) {
    && q.i == p.i < |p.ts| && p.i < |q.ts| && AgreeFrom(env, env', p.i + 1)
    && Examine(q.ts, q.i, env'(q.i)) == Examine(p.ts, p.i, env(p.i))
  }

  /** Two spots from which a pass comes to the same: equal, one iteration apart, or with equal next iterations. */
  ghost predicate SamePass(p: Spot, env: nat -> Reads, q: Spot, env': nat -> Reads) {
    || (p == q && AgreeFrom(env, env', p.i))
    || OneAhead(p, env, q, env')
    || SameIteration(p, env, q, env')
  }

  lemma NextIteration(ts: seq<Task>, i: nat, env: nat -> Reads, next: seq<Task>, env': nat -> Reads)
    requires i < |ts| && next == Examine(ts, i, env(i)) && AgreeFrom(env, env', i + 1)
    ensures Scan(ts, i, env) == Scan(next, i + 1, env')
  {
    ScanStep(ts, i, env);
    ScanReadsAhead(next, i + 1, env, env');
  }

  lemma OneAheadSameRest(p: Spot, env: nat -> Reads, q: Spot, env': nat -> Reads)
    requires OneAhead(p, env, q, env')
    ensures Rest(p, env) == Rest(q, env')
  {
    NextIteration(p.ts, p.i, env, q.ts, env');
  }

  lemma BothOneAhead(p: Spot, env: nat -> Reads, q: Spot, env': nat -> Reads, r: Spot)
    requires OneAhead(p, env, r, env') && OneAhead(q, env', r, env')
    ensures Rest(p, env) == Rest(q, env')
  {
    OneAheadSameRest(p, env, r, env');
    OneAheadSameRest(q, env', r, env');
  }

  lemma SamePassSameRest(p: Spot, env: nat -> Reads, q: Spot, env': nat -> Reads)
    requires SamePass(p, env, q, env')
    ensures Rest(p, env) == Rest(q, env')
  {
    if p == q && AgreeFrom(env, env', p.i) {
      ScanReadsAhead(p.ts, p.i, env, env');
    } else if OneAhead(p, env, q, env') {
      OneAheadSameRest(p, env, q, env');
    } else {
      BothOneAhead(p, env, q, env', Spot(Examine(p.ts, p.i, env(p.i)), p.i + 1));
    }
  }

  function Update(env: nat -> Reads, i: nat, e: Reads): nat -> Reads {
    (k: nat) => if k == i then e else env(k)
  }

  /** Steps that complete the pass in which the heartbeat thread stands. */
  predicate CompletesPass(cfg: Config, s: State, steps: seq<Step>) {
    && InScan(s)
    && (forall step | step in steps :: !step.EndScan?)
    && var end := Continue(cfg, s, steps);
       end.Some? && end.value.beat.Scanning? && end.value.beat.i >= |end.value.tasks|
  }

  /** How the reads of a pass follow from those of the pass after its first step. */
  function Earlier(s: State, step: Step, env: nat -> Reads): nat -> Reads
    requires InScan(s)
  {
    var i := s.beat.i;
    match step
    case Match(line) =>
      var ids := Matching(s.tasks, line);
      if s.beat.Scanning? then Update(env, i, env(i).(marks := ids + env(i).marks))
      else Update(env, i, env(i).(lateMarks := ids + env(i).lateMarks))
    case BeginRefresh(token) => Update(env, i, env(i).(marks := {}, token := token))
    case SkipRefresh => Update(env, i, env(i).(marks := {}, token := ""))
    case FinishRefresh(now) => Update(env, i, env(i).(refreshNow := now))
    case ExpireTask(now) => Update(env, i, env(i).(lateMarks := {}, checkNow := now))
    case _ => env
  }

  lemma ExamineMarked(ts: seq<Task>, i: nat, ids: set<nat>, e: Reads)
    requires i < |ts|
    ensures Examine(Mark(ts, ids), i, e) == Examine(ts, i, e.(marks := ids + e.marks))
  {
    MarkTwice(ts, ids, e.marks);
  }

  lemma ExamineRefreshed(ts: seq<Task>, i: nat, e: Reads)
    requires i < |ts| && ts[i].flagged && e.marks == {}
    ensures Examine(ts, i, e) == AfterRefresh(Renew(ClearFlag(ts, i), i, e.refreshNow, e.token), i, e)
  {
    MarkNone(ts);
    RenewCleared(ts, i, e.refreshNow, e.token);
  }

  lemma ExamineSkipped(ts: seq<Task>, i: nat, e: Reads)
    requires i < |ts| && !ts[i].flagged && e.marks == {}
    ensures Examine(ts, i, e) == AfterRefresh(ts, i, e)
  {
    MarkNone(ts);
  }

  lemma AfterRefreshMarked(ts: seq<Task>, i: nat, ids: set<nat>, e: Reads)
    requires i < |ts|
    ensures AfterRefresh(Mark(ts, ids), i, e) == AfterRefresh(ts, i, e.(lateMarks := ids + e.lateMarks))
  {
    MarkTwice(ts, ids, e.lateMarks);
  }

  /** A match is read by the iteration at hand: before its refresh, or between refresh and expiry test. */
  lemma MatchIsRead(cfg: Config, s: State, line: string, env: nat -> Reads)
    requires InScan(s) && (s.beat.Scanning? ==> s.beat.i < |s.tasks|)
    ensures var s', env' := Apply(cfg, s, Match(line)), Earlier(s, Match(line), env);
            SamePass(SpotOf(s, env'), env', SpotOf(s', env), env)
  {
    var ts, i, ids, e := s.tasks, s.beat.i, Matching(s.tasks, line), env(s.beat.i);
    match s.beat
    case Scanning(_) => ExamineMarked(ts, i, ids, e);
    case Checking(_) => AfterRefreshMarked(ts, i, ids, e);
    case Refreshing(_, token) =>
      RenewMarked(ts, i, e.refreshNow, token, ids);
      AfterRefreshMarked(Renew(ts, i, e.refreshNow, token), i, ids, e);
  }

  lemma RefreshIsRead(cfg: Config, s: State, step: Step, env: nat -> Reads)
    requires Enabled(cfg, s, step) && (step.BeginRefresh? || step.SkipRefresh?)
    ensures var s', env' := Apply(cfg, s, step), Earlier(s, step, env);
            SamePass(SpotOf(s, env'), env', SpotOf(s', env), env)
  {
    var env' := Earlier(s, step, env);
    if step.BeginRefresh? {
      ExamineRefreshed(s.tasks, s.beat.i, env'(s.beat.i));
    } else {
      ExamineSkipped(s.tasks, s.beat.i, env'(s.beat.i));
    }
  }

  lemma ClockIsRead(cfg: Config, s: State, step: Step, env: nat -> Reads)
    requires Enabled(cfg, s, step) && (step.FinishRefresh? || step.ExpireTask?)
    ensures var s', env' := Apply(cfg, s, step), Earlier(s, step, env);
            SpotOf(s, env') == SpotOf(s', env) && AgreeFrom(env', env, SpotOf(s', env).i)
  {
    if step.ExpireTask? {
      MarkNone(s.tasks);
    }
  }

  /** The listener's steps do not move the heartbeat thread. */
  lemma ListenerIsRead(cfg: Config, s: State, step: Step, env: nat -> Reads)
    requires InScan(s) && Enabled(cfg, s, step) && !step.EndScan? && !step.Match?
    requires !(step.BeginRefresh? || step.SkipRefresh? || step.FinishRefresh? || step.ExpireTask?)
    ensures var s' := Apply(cfg, s, step);
            s'.tasks == s.tasks && s'.beat == s.beat && Earlier(s, step, env) == env
  {
  }

  /** A step within a pass changes where the thread stands, but not what the pass will come to. */
  lemma StepIsRead(cfg: Config, s: State, step: Step, env: nat -> Reads)
    requires InScan(s) && Enabled(cfg, s, step) && !step.EndScan?
    requires step.Match? && s.beat.Scanning? ==> s.beat.i < |s.tasks|
    ensures InScan(Apply(cfg, s, step))
    ensures var s', env' := Apply(cfg, s, step), Earlier(s, step, env);
            SamePass(SpotOf(s, env'), env', SpotOf(s', env), env)
  {
    if step.Match? {
      MatchIsRead(cfg, s, step.line, env);
    } else if step.BeginRefresh? || step.SkipRefresh? {
      RefreshIsRead(cfg, s, step, env);
    } else if step.FinishRefresh? || step.ExpireTask? {
      ClockIsRead(cfg, s, step, env);
    } else {
      ListenerIsRead(cfg, s, step, env);
    }
  }

  lemma StaysInPass(cfg: Config, s: State, steps: seq<Step>)
    requires CompletesPass(cfg, s, steps) && steps != []
    ensures Enabled(cfg, s, steps[0]) && !steps[0].EndScan?
    ensures CompletesPass(cfg, Apply(cfg, s, steps[0]), steps[1..])
  {
    assert steps[0] in steps;
    assert forall step | step in steps[1..] :: step in steps;
  }

  /**
   * What the pass reads, iteration by iteration: the flags set before and within each iteration,
   * its clock reads and its token, as they come in the steps. `beyond` is what later iterations
   * would read.
   */
  function PassReads(cfg: Config, s: State, steps: seq<Step>, beyond: nat -> Reads): nat -> Reads
    requires CompletesPass(cfg, s, steps)
    decreases |steps|
  {
    if steps == [] then beyond
    else
      StaysInPass(cfg, s, steps);
      Earlier(s, steps[0], PassReads(cfg, Apply(cfg, s, steps[0]), steps[1..], beyond))
  }

  /** Flags set behind the last iteration. */
  function LateMarks(cfg: Config, s: State, steps: seq<Step>): set<nat>
    requires CompletesPass(cfg, s, steps)
    decreases |steps|
  {
    if steps == [] then {}
    else
      StaysInPass(cfg, s, steps);
      var late := LateMarks(cfg, Apply(cfg, s, steps[0]), steps[1..]);
      if steps[0].Match? && s.beat.Scanning? && s.beat.i >= |s.tasks|
      then Matching(s.tasks, steps[0].line) + late else late
  }

  /** Behind the last iteration the list only gets flags. */
  lemma LateMatch(cfg: Config, s: State, line: string, env: nat -> Reads, env1: nat -> Reads, late: set<nat>)
    requires s.beat.Scanning? && s.beat.i >= |s.tasks|
    ensures var s1 := Apply(cfg, s, Match(line));
            InScan(s1) && Mark(Rest(SpotOf(s1, env1), env1), late)
                == Mark(Rest(SpotOf(s, env), env), Matching(s.tasks, line) + late)
  {
    MarkTwice(s.tasks, Matching(s.tasks, line), late);
    ScanEnd(s.tasks, s.beat.i, env);
    ScanEnd(Mark(s.tasks, Matching(s.tasks, line)), s.beat.i, env1);
  }

  /**
   * The steps of a pass, whatever is interleaved with them, do to the task list what
   * `check_expire` does with the clock reads, tokens and flags read off the steps; flags set
   * behind the last iteration come on top.
   */
  lemma {:induction false} PassIsScan(cfg: Config, s: State, steps: seq<Step>, beyond: nat -> Reads)
    requires CompletesPass(cfg, s, steps)
    ensures var env := PassReads(cfg, s, steps, beyond);
            Continue(cfg, s, steps).value.tasks == Mark(Rest(SpotOf(s, env), env), LateMarks(cfg, s, steps))
    decreases |steps|
  {
    var env := PassReads(cfg, s, steps, beyond);
    if steps == [] {
      ScanEnd(s.tasks, s.beat.i, env);
      MarkNone(s.tasks);
    } else {
      var step, s1 := steps[0], Apply(cfg, s, steps[0]);
      StaysInPass(cfg, s, steps);
      var env1, late := PassReads(cfg, s1, steps[1..], beyond), LateMarks(cfg, s1, steps[1..]);
      PassIsScan(cfg, s1, steps[1..], beyond);
      if step.Match? && s.beat.Scanning? && s.beat.i >= |s.tasks| {
        LateMatch(cfg, s, step.line, env, env1, late);
      } else {
        StepSameRest(cfg, s, step, env1);
      }
    }
  }

  lemma StepSameRest(cfg: Config, s: State, step: Step, env: nat -> Reads)
    requires InScan(s) && Enabled(cfg, s, step) && !step.EndScan?
    requires step.Match? && s.beat.Scanning? ==> s.beat.i < |s.tasks|
    ensures InScan(Apply(cfg, s, step))
    ensures var env' := Earlier(s, step, env);
            Rest(SpotOf(s, env'), env') == Rest(SpotOf(Apply(cfg, s, step), env), env)
  {
    StepIsRead(cfg, s, step, env);
    var s', env' := Apply(cfg, s, step), Earlier(s, step, env);
    SamePassSameRest(SpotOf(s, env'), env', SpotOf(s', env), env);
  }

  // ------------------------------------------------------- the reads, in order

  /** The clock reads of the expiry tests, in order. */
  function Checks(steps: seq<Step>): seq<int>
    decreases |steps|
  {
    if steps == [] then [] else (if steps[0].ExpireTask? then [steps[0].now] else []) + Checks(steps[1..])
  }

  /** For each task examined, in order: the clock read of its refresh, if it is refreshed. */
  function Renewals(steps: seq<Step>): seq<Option<int>>
    decreases |steps|
  {
    if steps == [] then []
    else
      (match steps[0] { case FinishRefresh(now) => [Some(now)] case SkipRefresh => [None] case _ => [] })
      + Renewals(steps[1..])
  }

  /** For each task examined, in order: the token of its refresh, if it is refreshed. */
  function Draws(steps: seq<Step>): seq<Option<string>>
    decreases |steps|
  {
    if steps == [] then []
    else
      (match steps[0] { case BeginRefresh(token) => [Some(token)] case SkipRefresh => [None] case _ => [] })
      + Draws(steps[1..])
  }

  /** The iteration of the next token, of the next refresh and of the next expiry test. */
  function NextDraw(s: State): nat
    requires InScan(s)
  {
    if s.beat.Scanning? then s.beat.i else s.beat.i + 1
  }

  function NextRenewal(s: State): nat
    requires InScan(s)
  {
    if s.beat.Checking? then s.beat.i + 1 else s.beat.i
  }

  ghost predicate ChecksAre(env: nat -> Reads, i: nat, checks: seq<int>) {
    forall k :: 0 <= k < |checks| ==> env(i + k).checkNow == checks[k]
  }

  ghost predicate RenewalsAre(env: nat -> Reads, i: nat, renewals: seq<Option<int>>) {
    forall k :: 0 <= k < |renewals| && renewals[k].Some? ==> env(i + k).refreshNow == renewals[k].value
  }

  ghost predicate DrawsAre(env: nat -> Reads, i: nat, draws: seq<Option<string>>) {
    forall k :: 0 <= k < |draws| && draws[k].Some? ==> env(i + k).token == draws[k].value
  }

  lemma EarlierChecks(cfg: Config, s: State, step: Step, rest: seq<Step>, env: nat -> Reads)
    requires InScan(s) && Enabled(cfg, s, step) && !step.EndScan? && InScan(Apply(cfg, s, step))
    requires ChecksAre(env, Apply(cfg, s, step).beat.i, Checks(rest))
    ensures ChecksAre(Earlier(s, step, env), s.beat.i, Checks([step] + rest))
  {
    assert ([step] + rest)[1..] == rest;
    var env', i := Earlier(s, step, env), s.beat.i;
    forall k | 0 <= k < |Checks([step] + rest)| ensures env'(i + k).checkNow == Checks([step] + rest)[k] {
      if step.ExpireTask? && k > 0 {
        assert env((i + 1) + (k - 1)).checkNow == Checks(rest)[k - 1];
      }
    }
  }

  lemma EarlierRenewals(cfg: Config, s: State, step: Step, rest: seq<Step>, env: nat -> Reads)
    requires InScan(s) && Enabled(cfg, s, step) && !step.EndScan? && InScan(Apply(cfg, s, step))
    requires RenewalsAre(env, NextRenewal(Apply(cfg, s, step)), Renewals(rest))
    ensures RenewalsAre(Earlier(s, step, env), NextRenewal(s), Renewals([step] + rest))
  {
    assert ([step] + rest)[1..] == rest;
    var env', i, all := Earlier(s, step, env), NextRenewal(s), Renewals([step] + rest);
    forall k | 0 <= k < |all| && all[k].Some? ensures env'(i + k).refreshNow == all[k].value {
      if (step.FinishRefresh? || step.SkipRefresh?) && k > 0 {
        assert env((i + 1) + (k - 1)).refreshNow == Renewals(rest)[k - 1].value;
      }
    }
  }

  lemma EarlierDraws(cfg: Config, s: State, step: Step, rest: seq<Step>, env: nat -> Reads)
    requires InScan(s) && Enabled(cfg, s, step) && !step.EndScan? && InScan(Apply(cfg, s, step))
    requires DrawsAre(env, NextDraw(Apply(cfg, s, step)), Draws(rest))
    ensures DrawsAre(Earlier(s, step, env), NextDraw(s), Draws([step] + rest))
  {
    assert ([step] + rest)[1..] == rest;
    var env', i, all := Earlier(s, step, env), NextDraw(s), Draws([step] + rest);
    forall k | 0 <= k < |all| && all[k].Some? ensures env'(i + k).token == all[k].value {
      if (step.BeginRefresh? || step.SkipRefresh?) && k > 0 {
        assert env((i + 1) + (k - 1)).token == Draws(rest)[k - 1].value;
      }
    }
  }

  /** The clock reads and the tokens of a pass are those of its steps, in order. */
  lemma {:induction false} ReadsAreInOrder(cfg: Config, s: State, steps: seq<Step>, beyond: nat -> Reads)
    requires CompletesPass(cfg, s, steps)
    ensures var env := PassReads(cfg, s, steps, beyond);
            && ChecksAre(env, s.beat.i, Checks(steps))
            && RenewalsAre(env, NextRenewal(s), Renewals(steps))
            && DrawsAre(env, NextDraw(s), Draws(steps))
    decreases |steps|
  {
    if steps != [] {
      var step, rest, s1 := steps[0], steps[1..], Apply(cfg, s, steps[0]);
      StaysInPass(cfg, s, steps);
      assert [step] + rest == steps;
      var env := PassReads(cfg, s1, rest, beyond);
      ReadsAreInOrder(cfg, s1, rest, beyond);
      EarlierChecks(cfg, s, step, rest, env);
      EarlierRenewals(cfg, s, step, rest, env);
      EarlierDraws(cfg, s, step, rest, env);
    }
  }

  /** What the records matched at iteration `k` flag: before its refresh begins, or later in the iteration. */
  function MatchedAt(cfg: Config, s: State, steps: seq<Step>, k: nat, late: bool): set<nat>
    requires CompletesPass(cfg, s, steps)
    decreases |steps|
  {
    if steps == [] then {}
    else
      StaysInPass(cfg, s, steps);
      var here := steps[0].Match? && s.beat.i == k && late == !s.beat.Scanning?;
      (if here then Matching(s.tasks, steps[0].line) else {})
      + MatchedAt(cfg, Apply(cfg, s, steps[0]), steps[1..], k, late)
  }

  /** The thread has come to, or past, the place in the iteration of which matches are asked. */
  predicate IsPast(s: State, k: nat, late: bool)
    requires InScan(s)
  {
    k < s.beat.i || (k == s.beat.i && !late && !s.beat.Scanning?)
  }

  lemma {:induction false} NoMatchesInThePast(cfg: Config, s: State, steps: seq<Step>, k: nat, late: bool)
    requires CompletesPass(cfg, s, steps) && IsPast(s, k, late)
    ensures MatchedAt(cfg, s, steps, k, late) == {}
    decreases |steps|
  {
    if steps != [] {
      StaysInPass(cfg, s, steps);
      NoMatchesInThePast(cfg, Apply(cfg, s, steps[0]), steps[1..], k, late);
    }
  }

  ghost predicate MarksAre(cfg: Config, s: State, steps: seq<Step>, env: nat -> Reads)
    requires CompletesPass(cfg, s, steps)
  {
    forall k :: !IsPast(s, k, false) ==> env(k).marks == MatchedAt(cfg, s, steps, k, false)
  }

  ghost predicate LateMarksAre(cfg: Config, s: State, steps: seq<Step>, env: nat -> Reads)
    requires CompletesPass(cfg, s, steps)
  {
    forall k :: !IsPast(s, k, true) ==> env(k).lateMarks == MatchedAt(cfg, s, steps, k, true)
  }

  lemma EarlierMarks(cfg: Config, s: State, steps: seq<Step>, env: nat -> Reads)
    requires CompletesPass(cfg, s, steps) && steps != []
    requires CompletesPass(cfg, Apply(cfg, s, steps[0]), steps[1..]) && !steps[0].EndScan?
    requires MarksAre(cfg, Apply(cfg, s, steps[0]), steps[1..], env)
    ensures MarksAre(cfg, s, steps, Earlier(s, steps[0], env))
  {
    var s1, rest, env' := Apply(cfg, s, steps[0]), steps[1..], Earlier(s, steps[0], env);
    forall k: nat | !IsPast(s, k, false) ensures env'(k).marks == MatchedAt(cfg, s, steps, k, false) {
      if IsPast(s1, k, false) { NoMatchesInThePast(cfg, s1, rest, k, false); }
    }
  }

  lemma EarlierLateMarks(cfg: Config, s: State, steps: seq<Step>, env: nat -> Reads)
    requires CompletesPass(cfg, s, steps) && steps != []
    requires CompletesPass(cfg, Apply(cfg, s, steps[0]), steps[1..]) && !steps[0].EndScan?
    requires LateMarksAre(cfg, Apply(cfg, s, steps[0]), steps[1..], env)
    ensures LateMarksAre(cfg, s, steps, Earlier(s, steps[0], env))
  {
    var s1, rest, env' := Apply(cfg, s, steps[0]), steps[1..], Earlier(s, steps[0], env);
    forall k: nat | !IsPast(s, k, true) ensures env'(k).lateMarks == MatchedAt(cfg, s, steps, k, true) {
      if IsPast(s1, k, true) { NoMatchesInThePast(cfg, s1, rest, k, true); }
    }
  }

  /** The flags that a pass meets are those of the records matched meanwhile, each in its iteration. */
  lemma {:induction false} MarksAreInOrder(cfg: Config, s: State, steps: seq<Step>, beyond: nat -> Reads)
    requires CompletesPass(cfg, s, steps) && forall k :: beyond(k).marks == {} && beyond(k).lateMarks == {}
    ensures MarksAre(cfg, s, steps, PassReads(cfg, s, steps, beyond))
    ensures LateMarksAre(cfg, s, steps, PassReads(cfg, s, steps, beyond))
    decreases |steps|
  {
    if steps != [] {
      StaysInPass(cfg, s, steps);
      var env := PassReads(cfg, Apply(cfg, s, steps[0]), steps[1..], beyond);
      MarksAreInOrder(cfg, Apply(cfg, s, steps[0]), steps[1..], beyond);
      EarlierMarks(cfg, s, steps, env);
      EarlierLateMarks(cfg, s, steps, env);
    }
  }

  /** Tokens that a pass draws, or would draw, were not drawn before. */
  ghost predicate DrawsFresh(s: State, env: nat -> Reads)
    requires InScan(s)
  {
    forall k :: k >= NextDraw(s) ==> env(k).token !in s.used
  }

  lemma {:induction false} PassDrawsFresh(cfg: Config, s: State, steps: seq<Step>, beyond: nat -> Reads)
    requires CompletesPass(cfg, s, steps) && TokenInv(s) && forall k :: beyond(k).token == ""
    ensures DrawsFresh(s, PassReads(cfg, s, steps, beyond))
    decreases |steps|
  {
    assert "" !in s.used;
    if steps != [] {
      var step, s1 := steps[0], Apply(cfg, s, steps[0]);
      StaysInPass(cfg, s, steps);
      StepKeepsTokens(cfg, s, step);
      PassDrawsFresh(cfg, s1, steps[1..], beyond);
      EarlierDrawsFresh(cfg, s, step, PassReads(cfg, s1, steps[1..], beyond));
    }
  }

  lemma EarlierDrawsFresh(cfg: Config, s: State, step: Step, env: nat -> Reads)
    requires InScan(s) && TokenInv(s) && Enabled(cfg, s, step) && !step.EndScan? && InScan(Apply(cfg, s, step))
    requires DrawsFresh(Apply(cfg, s, step), env)
    ensures DrawsFresh(s, Earlier(s, step, env))
  {
    assert "" !in s.used && s.used <= Apply(cfg, s, step).used;
  }

  // ------------------------------------------------------------- refreshed tasks

  /** Flags set afterwards do not matter. */
  lemma MarkKeepsSurvival(ts: seq<Task>, late: set<nat>, id: nat, token: string, refreshed: int, checked: int)
    requires SurvivedExactly(ts, id, token, refreshed, checked)
    ensures SurvivedExactly(Mark(ts, late), id, token, refreshed, checked)
  {
    var ts', command := Mark(ts, late), RefreshCommand(token);
    assert Gone(ts', id) <==> Gone(ts, id);
    if Has(ts, id, refreshed + 15 * SECOND, command) {
      var j :| 0 <= j < |ts| && Carries(ts, j, id, refreshed + 15 * SECOND, command);
      assert Carries(ts', j, id, refreshed + 15 * SECOND, command);
    }
  }

  /** A token not drawn before makes a command that nobody has. */
  lemma FreshIsUnused(s: State, token: string)
    requires TokenInv(s) && IsFresh(s, token)
    ensures UnusedCommand(s.tasks, token)
  {
    TouchIsTouch(token);
    forall i | 0 <= i < |s.tasks| ensures s.tasks[i].command != RefreshCommand(token) {
      assert GoodCommand(s.tasks[i].command, s.used);
    }
  }

  /** The steps complete a pass, beginning with the refresh of the task at the index. */
  predicate RefreshesFirst(cfg: Config, s: State, steps: seq<Step>) {
    steps != [] && steps[0].BeginRefresh? && Enabled(cfg, s, steps[0]) && CompletesPass(cfg, s, steps)
  }

  const NO_READS: Reads := Reads({}, 0, "", {}, 0)

  /** What such a pass reads in its first iteration. */
  lemma FirstReads(cfg: Config, s: State, steps: seq<Step>, env: nat -> Reads)
    requires TokenInv(s) && RefreshesFirst(cfg, s, steps) && env == PassReads(cfg, s, steps, (_: nat) => NO_READS)
    ensures Renewals(steps) != [] && Renewals(steps)[0].Some? && Checks(steps) != []
    ensures var e := env(s.beat.i);
            e.token == steps[0].token && e.refreshNow == Renewals(steps)[0].value && e.checkNow == Checks(steps)[0]
    ensures NotDrawnAgain(env, s.beat.i)
  {
    var i, s1, rest := s.beat.i, Apply(cfg, s, steps[0]), steps[1..];
    StaysInPass(cfg, s, steps);
    ReadsAreInOrder(cfg, s, steps, (_: nat) => NO_READS);
    RefreshIsFinished(cfg, s1, rest);
    assert Renewals(steps) == Renewals(rest) && Checks(steps) == Checks(rest);
    assert env(i + 0).checkNow == Checks(steps)[0] && env(i + 0).refreshNow == Renewals(steps)[0].value;
    StepKeepsTokens(cfg, s, steps[0]);
    PassDrawsFresh(cfg, s1, rest, (_: nat) => NO_READS);
    var env1 := PassReads(cfg, s1, rest, (_: nat) => NO_READS);
    assert forall k :: k > i ==> env(k) == env1(k);
    assert steps[0].token in s1.used;
  }

  /** A pass that is completed finishes the refresh that it has begun, and comes to the expiry test. */
  lemma {:induction false} RefreshIsFinished(cfg: Config, s: State, steps: seq<Step>)
    requires CompletesPass(cfg, s, steps) && (s.beat.Refreshing? || s.beat.Checking?)
    ensures s.beat.Refreshing? ==> Renewals(steps) != [] && Renewals(steps)[0].Some?
    ensures Checks(steps) != []
    decreases |steps|
  {
    StaysInPass(cfg, s, steps);
    var s1 := Apply(cfg, s, steps[0]);
    if s1.beat.Refreshing? || s1.beat.Checking? {
      RefreshIsFinished(cfg, s1, steps[1..]);
    }
  }

  lemma RefreshBegunSurvives(cfg: Config, s: State, steps: seq<Step>)
    requires TokenInv(s) && DistinctIds(s.tasks) && RefreshesFirst(cfg, s, steps)
    requires UnusedCommand(s.tasks, steps[0].token)
    ensures Renewals(steps) != [] && Renewals(steps)[0].Some? && Checks(steps) != []
    ensures SurvivedExactly(Continue(cfg, s, steps).value.tasks, s.tasks[s.beat.i].id,
                            steps[0].token, Renewals(steps)[0].value, Checks(steps)[0])
  {
    var i, env, late := s.beat.i, PassReads(cfg, s, steps, (_: nat) => NO_READS), LateMarks(cfg, s, steps);
    PassIsScan(cfg, s, steps, (_: nat) => NO_READS);
    FirstReads(cfg, s, steps, env);
    FlaggedSurvivesExactly(s.tasks, i, env);
    MarkKeepsSurvival(Scan(s.tasks, i, env), late, s.tasks[i].id, env(i).token, env(i).refreshNow, env(i).checkNow);
  }

  /**
   * In every reachable state, at every granularity and whatever is interleaved: a flagged task
   * whose refresh begins survives the pass if and only if the clock reads of its refresh and of
   * its expiry test are less than 15 seconds apart, and then has the new deadline and command.
   */
  lemma FlaggedSurvivesInRun(cfg: Config, before: seq<Step>, s: State, steps: seq<Step>)
    requires Exec(cfg, before) == Some(s) && RefreshesFirst(cfg, s, steps)
    ensures Renewals(steps) != [] && Renewals(steps)[0].Some? && Checks(steps) != []
    ensures SurvivedExactly(Continue(cfg, s, steps).value.tasks, s.tasks[s.beat.i].id,
                            steps[0].token, Renewals(steps)[0].value, Checks(steps)[0])
  {
    TokensStayDistinct(cfg, before);
    IdsStayDistinct(cfg, before);
    FreshIsUnused(s, steps[0].token);
    RefreshBegunSurvives(cfg, s, steps);
  }

  // --------------------------------------------------------------- expired tasks

  /** The step reads no clock before the deadline of `t` and matches no line to its command. */
  predicate Neglecting(step: Step, t: Task) {
    && (step.ExpireTask? ==> t.expires <= step.now)
    && (step.Match? ==> !Contains(t.command, step.line))
  }

  predicate AllNeglect(steps: seq<Step>, t: Task) {
    forall step | step in steps :: Neglecting(step, t)
  }

  /** How far back `t` can be, if it was at index `p` or before when the pass began. */
  function Reach(beat: Beat, p: int): int {
    if (beat.Scanning? || beat.Refreshing? || beat.Checking?) && beat.i > p then p - 1 else p
  }

  /** The neglected task is unchanged, at most this far back, and not the one being refreshed. */
  predicate Approaching(s: State, t: Task, p: int) {
    && Intact(s.tasks, t) && AtMost(s.tasks, t.id, Reach(s.beat, p)) && t.id < s.nextId
    && (s.beat.Refreshing? ==> s.beat.i < |s.tasks| && s.tasks[s.beat.i].id != t.id)
  }

  lemma ExpireApproaches(ts: seq<Task>, i: nat, now: int, t: Task, p: int)
    requires i < |ts| && Intact(ts, t) && AtMost(ts, t.id, if i > p then p - 1 else p) && t.expires <= now
    ensures Intact(ExpireAt(ts, i, now), t) && AtMost(ExpireAt(ts, i, now), t.id, if i + 1 > p then p - 1 else p)
  {
    if ts[i].expires <= now {
      RemovesTheRightOne(ts, i);
      RemovalMovesUp(ts, FirstSame(ts, ts[i]), t.id, if i > p then p - 1 else p);
      if i == p && ts[i].id != t.id {
        RemovalMovesUp(ts, FirstSame(ts, ts[i]), t.id, p - 1);
      }
    }
  }

  lemma MatchApproaches(ts: seq<Task>, line: string, t: Task, p: int)
    requires Intact(ts, t) && AtMost(ts, t.id, p) && !Contains(t.command, line)
    ensures Intact(Mark(ts, Matching(ts, line)), t) && AtMost(Mark(ts, Matching(ts, line)), t.id, p)
  {
  }

  /** A step that changes another task, or registers one. */
  lemma OthersApproach(ts: seq<Task>, ts': seq<Task>, t: Task, p: int)
    requires Intact(ts, t) && AtMost(ts, t.id, p) && |ts| <= |ts'|
    requires forall k :: 0 <= k < |ts'| && ts'[k].id == t.id ==> k < |ts| && ts'[k] == ts[k]
    ensures Intact(ts', t) && AtMost(ts', t.id, p)
  {
  }

  lemma StepApproaches(cfg: Config, s: State, step: Step, t: Task, p: int)
    requires Approaching(s, t, p) && IdInv(s) && Enabled(cfg, s, step) && !t.flagged && Neglecting(step, t)
    ensures Approaching(Apply(cfg, s, step), t, if step.EndScan? then p - 1 else p)
  {
    var s' := Apply(cfg, s, step);
    match step
    case ExpireTask(now) => ExpireApproaches(s.tasks, s.beat.i, now, t, p);
    case Match(line) => MatchApproaches(s.tasks, line, t, Reach(s.beat, p));
    case BeginRefresh(_) => OthersApproach(s.tasks, s'.tasks, t, Reach(s.beat, p));
    case FinishRefresh(_) => OthersApproach(s.tasks, s'.tasks, t, Reach(s.beat, p));
    case Register(_) => OthersApproach(s.tasks, s'.tasks, t, p);
    case PopAndRegister(_) => OthersApproach(s.tasks, s'.tasks, t, p);
    case _ =>
  }

  function CompletedPasses(steps: seq<Step>): nat
    decreases |steps|
  {
    if steps == [] then 0 else (if steps[0].EndScan? then 1 else 0) + CompletedPasses(steps[1..])
  }

  lemma {:induction false} RunApproaches(cfg: Config, s: State, steps: seq<Step>, t: Task, p: int)
    requires Approaching(s, t, p) && IdInv(s) && !t.flagged
    requires Continue(cfg, s, steps).Some? && AllNeglect(steps, t)
    ensures Approaching(Continue(cfg, s, steps).value, t, p - CompletedPasses(steps))
    decreases |steps|
  {
    if steps != [] {
      assert steps[0] in steps;
      StepApproaches(cfg, s, steps[0], t, p);
      StepKeepsIds(cfg, s, steps[0]);
      RunApproaches(cfg, Apply(cfg, s, steps[0]), steps[1..], t, if steps[0].EndScan? then p - 1 else p);
    }
  }

  /**
   * At every granularity and in every interleaving: a task at index p that stays unflagged, and
   * whose deadline every later expiry test has passed, is gone once p + 1 passes are complete.
   */
  lemma EvictedInRun(cfg: Config, before: seq<Step>, s: State, p: nat, more: seq<Step>)
    requires Exec(cfg, before) == Some(s) && s.beat.Starting? && p < |s.tasks| && !s.tasks[p].flagged
    requires Continue(cfg, s, more).Some? && AllNeglect(more, s.tasks[p])
    requires CompletedPasses(more) > p
    ensures Gone(Continue(cfg, s, more).value.tasks, s.tasks[p].id)
  {
    IdsStayDistinct(cfg, before);
    RunApproaches(cfg, s, more, s.tasks[p], p);
  }
}
