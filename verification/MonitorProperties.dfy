// What holds in every reachable state of the heartbeat protocol, and runs that show the
// place bounds to be tight.
module MonitorProperties {
  import opened Wrappers
  import opened Text
  import opened Tasks
  import opened ExpiryPass
  import opened Commands
  import opened Monitor

  // --------------------------------------------------------- the bound is tight

  lemma Do(cfg: Config, steps: seq<Step>, s: State, step: Step) returns (steps': seq<Step>, s': State)
    requires Exec(cfg, steps) == Some(s) && Enabled(cfg, s, step)
    ensures steps' == steps + [step] && s' == Apply(cfg, s, step)
    ensures Exec(cfg, steps') == Some(s')
  {
    steps', s' := steps + [step], Apply(cfg, s, step);
    assert steps'[..|steps|] == steps;
  }

  /** One connection of `ip` goes through the listener while the address is neither monitored nor queued. */
  lemma Connect(cfg: Config, steps: seq<Step>, s: State, ip: string) returns (steps': seq<Step>, s': State)
    requires Exec(cfg, steps) == Some(s) && s.listener.Waiting?
    requires !IsMonitored(s.tasks, ip) && ip !in s.queue
    ensures Exec(cfg, steps') == Some(s') && s' == s.(queue := s.queue + [ip])
  {
    if cfg.atomicAdmission {
      steps', s' := Do(cfg, steps, s, Admit(ip));
    } else {
      steps', s' := Do(cfg, steps, s, ScanTasks(ip));
      steps', s' := Do(cfg, steps', s', CheckQueue);
      steps', s' := Do(cfg, steps', s', AppendDevice);
    }
  }

  /** The first round begins while one device is queued. */
  lemma OneQueued(cfg: Config, token: string, ip: string) returns (steps: seq<Step>, s: State)
    requires IsToken(token)
    ensures Exec(cfg, steps) == Some(s)
    ensures s == START.(queue := [ip], beat := Draining(token), used := {token}, pings := [token])
  {
    steps, s := Do(cfg, [], START, NewRound(token));
    assert s.used == {token} && s.pings == [token];
    steps, s := Connect(cfg, steps, s, ip);
    assert s.queue == [ip];
  }

  /** The device is popped but not yet registered when it connects again. */
  lemma ReconnectWhileInFlight(cfg: Config, steps: seq<Step>, s: State, ip: string)
    returns (steps': seq<Step>, s': State)
    requires !cfg.atomicRegister && Exec(cfg, steps) == Some(s)
    requires s.queue == [ip] && s.listener.Waiting? && s.beat.Draining? && s.tasks == []
    ensures Exec(cfg, steps') == Some(s') && s' == s.(beat := InFlight(ip, s.beat.token))
  {
    steps', s' := Do(cfg, steps, s, PopDevice);
    assert s'.queue == [];
    steps', s' := Connect(cfg, steps', s', ip);
    assert s'.queue == [ip];
  }

  /** It connects once more, and leaves the queue between the listener's two checks. */
  lemma ReconnectBetweenChecks(cfg: Config, steps: seq<Step>, s: State, ip: string)
    returns (steps': seq<Step>, s': State)
    requires !cfg.atomicAdmission && Exec(cfg, steps) == Some(s)
    requires s.queue == [ip] && s.listener.Waiting? && s.tasks == []
    requires if cfg.atomicRegister then s.beat.Draining? else s.beat.InFlight? && s.beat.ip == ip
    ensures Exec(cfg, steps') == Some(s') && s'.queue == [ip]
    ensures |s'.tasks| == 1 && s'.tasks[0].ip == ip && (s'.beat.InFlight? <==> s.beat.InFlight?)
    ensures s'.beat.InFlight? ==> s'.beat.ip == ip
  {
    steps', s' := Do(cfg, steps, s, ScanTasks(ip));
    if cfg.atomicRegister {
      steps', s' := Do(cfg, steps', s', PopAndRegister(0));
    } else {
      steps', s' := Do(cfg, steps', s', Register(0));
      steps', s' := Do(cfg, steps', s', PopDevice);
    }
    assert s'.queue == [];
    steps', s' := Do(cfg, steps', s', CheckQueue);
    steps', s' := Do(cfg, steps', s', AppendDevice);
    assert s'.queue == [ip];
  }

  /** A queued address with at most one task of its own. */
  lemma CountPlaces(s: State, ip: string)
    requires s.queue == [ip] && |s.tasks| <= 1 && (s.tasks != [] ==> s.tasks[0].ip == ip)
    ensures Places(s, ip) == 1 + Flying(s, ip) + |s.tasks|
  {
    assert Ips(s.tasks) == if s.tasks == [] then [] else [ip];
  }

  /** For each granularity some run reaches its bound. */
  lemma BoundIsReached(cfg: Config, ip: string, token: string) returns (steps: seq<Step>, s: State)
    requires IsToken(token)
    ensures Exec(cfg, steps) == Some(s) && Places(s, ip) == Bound(cfg)
  {
    steps, s := OneQueued(cfg, token, ip);
    if !cfg.atomicRegister {
      steps, s := ReconnectWhileInFlight(cfg, steps, s, ip);
    }
    if !cfg.atomicAdmission {
      steps, s := ReconnectBetweenChecks(cfg, steps, s, ip);
    }
    CountPlaces(s, ip);
  }

  // ------------------------------------------------- uniqueness and removal

  predicate IdInv(s: State) {
    && DistinctIds(s.tasks)
    && (forall i :: 0 <= i < |s.tasks| ==> s.tasks[i].id < s.nextId)
    && (s.beat.Checking? || s.beat.Refreshing? ==> s.beat.i < |s.tasks|)
  }

  lemma StepKeepsIds(cfg: Config, s: State, step: Step)
    requires IdInv(s) && Enabled(cfg, s, step)
    ensures IdInv(Apply(cfg, s, step))
  {
    if step.ExpireTask? {
      ExpireKeeps(s.tasks, s.beat.i, step.now);
    }
  }

  /** Expiry keeps the order of the remaining tasks and changes none of them. */
  lemma ExpireKeeps(ts: seq<Task>, i: nat, now: int)
    requires DistinctIds(ts) && i < |ts|
    ensures DistinctIds(ExpireAt(ts, i, now))
    ensures forall k :: 0 <= k < |ExpireAt(ts, i, now)| ==> ExpireAt(ts, i, now)[k] in ts
  {
    if ts[i].expires <= now {
      var j := FirstSame(ts, ts[i]);
      assert ExpireAt(ts, i, now) == RemoveAt(ts, j);
    }
  }

  lemma {:induction false} IdsStayDistinct(cfg: Config, steps: seq<Step>)
    requires Exec(cfg, steps).Some?
    ensures IdInv(Exec(cfg, steps).value)
  {
    if steps != [] {
      IdsStayDistinct(cfg, steps[..|steps| - 1]);
      StepKeepsIds(cfg, Exec(cfg, steps[..|steps| - 1]).value, steps[|steps| - 1]);
    }
  }

  /** Two tasks with one address count twice. */
  lemma SharedAddressCounts(ts: seq<Task>, i: nat, j: nat)
    requires i < j < |ts| && ts[i].ip == ts[j].ip
    ensures multiset(Ips(ts))[ts[i].ip] >= 2
  {
    var ips := Ips(ts);
    assert ips == ips[..j] + [ips[j]] + ips[j + 1..];
    assert ips[..j][i] == ips[i];
    assert ips[i] in multiset(ips[..j]);
  }

  predicate DistinctIps(ts: seq<Task>) {
    forall i, j :: 0 <= i < j < |ts| ==> ts[i].ip != ts[j].ip
  }

  /** With atomic admission and registration, monitored addresses are distinct. */
  lemma AtomicAddressesDiffer(steps: seq<Step>)
    requires Exec(Config(true, true), steps).Some?
    ensures DistinctIps(Exec(Config(true, true), steps).value.tasks)
  {
    var s := Exec(Config(true, true), steps).value;
    forall i, j | 0 <= i < j < |s.tasks| ensures s.tasks[i].ip != s.tasks[j].ip {
      if s.tasks[i].ip == s.tasks[j].ip {
        PlacesBounded(Config(true, true), steps, s.tasks[i].ip);
        SharedAddressCounts(s.tasks, i, j);
      }
    }
  }

  /** An expiry test at index `i` removes the task it looks at, if any, and no other. */
  predicate ExpiresOnly(ts: seq<Task>, i: nat, now: int)
    requires i < |ts|
  {
    ExpireAt(ts, i, now) == if ts[i].expires <= now then RemoveAt(ts, i) else ts
  }

  lemma UnlikeEarlierOnes(ts: seq<Task>, i: nat, now: int)
    requires i < |ts| && forall j :: 0 <= j < i ==> !Same(ts[j], ts[i])
    ensures ExpiresOnly(ts, i, now)
  {
    RemovesTheRightOne(ts, i);
  }

  /** In every reachable state an expiry test removes exactly the examined task. */
  ghost predicate ExpiryIsExact(cfg: Config) {
    forall steps: seq<Step>, now: int ::
      Exec(cfg, steps).Some? && Exec(cfg, steps).value.beat.Checking? ==>
        var s := Exec(cfg, steps).value;
        s.beat.i < |s.tasks| && ExpiresOnly(s.tasks, s.beat.i, now)
  }

  const TOKEN: string := "00000000000000000000000000000000"

  const LATER: string := "11111111111111111111111111111111"
  const LATEST: string := "22222222222222222222222222222222"

  lemma LaterIsFresh(s: State)
    ensures s.used == {TOKEN} ==> IsFresh(s, LATER)
    ensures s.used == {TOKEN, LATER} ==> IsFresh(s, LATEST)
  {
    assert LATER[0] != TOKEN[0] && LATEST[0] != TOKEN[0] && LATEST[0] != LATER[0];
  }

  function EqualTask(id: nat, ip: string): Task {
    Task(id, 0, 180 * SECOND, ip, Ping(TOKEN), false)
  }

  /** A device that comes back while it is in flight is registered twice in one round. */
  lemma TwiceInFlight(cfg: Config, ip: string) returns (steps: seq<Step>, s: State)
    requires !cfg.atomicRegister
    ensures Exec(cfg, steps) == Some(s) && s.beat.Draining? && s.queue == []
    ensures s.tasks == [EqualTask(0, ip), EqualTask(1, ip)]
  {
    steps, s := OneQueued(cfg, TOKEN, ip);
    steps, s := ReconnectWhileInFlight(cfg, steps, s, ip);
    steps, s := Do(cfg, steps, s, Register(0));
    steps, s := Do(cfg, steps, s, PopDevice);
    steps, s := Do(cfg, steps, s, Register(0));
    assert s.queue == [];
  }

  /** So is one that leaves the queue between the listener's two checks. */
  lemma TwiceBetweenChecks(cfg: Config, ip: string) returns (steps: seq<Step>, s: State)
    requires !cfg.atomicAdmission && cfg.atomicRegister
    ensures Exec(cfg, steps) == Some(s) && s.beat.Draining? && s.queue == []
    ensures s.tasks == [EqualTask(0, ip), EqualTask(1, ip)]
  {
    steps, s := OneQueued(cfg, TOKEN, ip);
    steps, s := Do(cfg, steps, s, ScanTasks(ip));
    steps, s := Do(cfg, steps, s, PopAndRegister(0));
    steps, s := Do(cfg, steps, s, CheckQueue);
    steps, s := Do(cfg, steps, s, AppendDevice);
    steps, s := Do(cfg, steps, s, PopAndRegister(0));
    assert s.queue == [];
  }

  /** A pass over two equal tasks comes to its second expiry test. */
  lemma ScanToSecond(cfg: Config, steps: seq<Step>, s: State) returns (steps': seq<Step>, s': State)
    requires Exec(cfg, steps) == Some(s) && s.beat.Draining? && s.queue == []
    requires |s.tasks| == 2 && !s.tasks[0].flagged && !s.tasks[1].flagged && s.tasks[0].expires > 0
    ensures Exec(cfg, steps') == Some(s') && s'.beat == Checking(1) && s'.tasks == s.tasks
  {
    steps', s' := Do(cfg, steps, s, StartScan);
    steps', s' := Do(cfg, steps', s', SkipRefresh);
    steps', s' := Do(cfg, steps', s', ExpireTask(0));
    steps', s' := Do(cfg, steps', s', SkipRefresh);
  }

  /** Without atomicity some run examines one of two equal tasks and removes the other. */
  lemma RemovesTheWrongOne(cfg: Config, ip: string) returns (steps: seq<Step>, s: State)
    requires !(cfg.atomicAdmission && cfg.atomicRegister)
    ensures Exec(cfg, steps) == Some(s) && s.beat == Checking(1) && s.tasks == [EqualTask(0, ip), EqualTask(1, ip)]
    ensures ExpireAt(s.tasks, 1, 180 * SECOND) == [EqualTask(1, ip)]
  {
    if !cfg.atomicRegister {
      steps, s := TwiceInFlight(cfg, ip);
    } else {
      steps, s := TwiceBetweenChecks(cfg, ip);
    }
    steps, s := ScanToSecond(cfg, steps, s);
    assert FirstSame(s.tasks, s.tasks[1]) == 0 by {
      assert Same(s.tasks[0], s.tasks[1]);
    }
  }

  /** Removal by value is exact in every reachable state if and only if both operations are atomic. */
  lemma ExpiryIsExactIff(cfg: Config)
    ensures ExpiryIsExact(cfg) <==> cfg.atomicAdmission && cfg.atomicRegister
  {
    if cfg.atomicAdmission && cfg.atomicRegister {
      forall steps: seq<Step>, now: int | Exec(cfg, steps).Some? && Exec(cfg, steps).value.beat.Checking?
        ensures var s := Exec(cfg, steps).value;
                s.beat.i < |s.tasks| && ExpiresOnly(s.tasks, s.beat.i, now)
      {
        IdsStayDistinct(cfg, steps);
        AtomicAddressesDiffer(steps);
        UnlikeEarlierOnes(Exec(cfg, steps).value.tasks, Exec(cfg, steps).value.beat.i, now);
      }
    } else {
      var steps, s := RemovesTheWrongOne(cfg, "");
      assert RemoveAt(s.tasks, 1)[0] == EqualTask(0, "");
      assert !ExpiresOnly(s.tasks, 1, 180 * SECOND);
    }
  }

  /** The clock reads of the registrations of a run. */
  function Stamps(steps: seq<Step>): set<int> {
    if steps == [] then {}
    else
      var last := steps[|steps| - 1];
      Stamps(steps[..|steps| - 1]) + if last.Register? || last.PopAndRegister? then {last.now} else {}
  }

  /** No two registrations of the run read the same time. */
  predicate StampsDiffer(steps: seq<Step>) {
    steps != [] ==>
      var init, last := steps[..|steps| - 1], steps[|steps| - 1];
      StampsDiffer(init) && (last.Register? || last.PopAndRegister? ==> last.now !in Stamps(init))
  }

  predicate StampInv(ts: seq<Task>, stamps: set<int>) {
    && (forall i :: 0 <= i < |ts| ==> ts[i].created in stamps)
    && (forall i, j :: 0 <= i < j < |ts| ==> ts[i].created != ts[j].created)
  }

  lemma RemovalKeepsStamps(ts: seq<Task>, j: nat, stamps: set<int>)
    requires StampInv(ts, stamps) && j < |ts|
    ensures StampInv(RemoveAt(ts, j), stamps)
  {
  }

  lemma StepKeepsStamps(cfg: Config, s: State, step: Step, stamps: set<int>)
    requires Enabled(cfg, s, step) && StampInv(s.tasks, stamps)
    requires step.Register? || step.PopAndRegister? ==> step.now !in stamps
    ensures StampInv(Apply(cfg, s, step).tasks,
                     stamps + if step.Register? || step.PopAndRegister? then {step.now} else {})
  {
    var s' := Apply(cfg, s, step);
    if step.ExpireTask? {
      if s.tasks[s.beat.i].expires <= step.now {
        RemovalKeepsStamps(s.tasks, FirstSame(s.tasks, s.tasks[s.beat.i]), stamps);
      }
    } else {
      assert forall i :: 0 <= i < |s.tasks| ==> s'.tasks[i].created == s.tasks[i].created;
    }
  }

  lemma {:induction false} StampsStayDistinct(cfg: Config, steps: seq<Step>)
    requires Exec(cfg, steps).Some? && StampsDiffer(steps)
    ensures StampInv(Exec(cfg, steps).value.tasks, Stamps(steps))
  {
    if steps != [] {
      StampsStayDistinct(cfg, steps[..|steps| - 1]);
      StepKeepsStamps(cfg, Exec(cfg, steps[..|steps| - 1]).value, steps[|steps| - 1], Stamps(steps[..|steps| - 1]));
    }
  }

  /** At any granularity, removal is exact as long as no two registrations read the same time. */
  lemma DistinctStampsAreEnough(cfg: Config, steps: seq<Step>, now: int)
    requires Exec(cfg, steps).Some? && StampsDiffer(steps) && Exec(cfg, steps).value.beat.Checking?
    ensures var s := Exec(cfg, steps).value;
            s.beat.i < |s.tasks| && ExpiresOnly(s.tasks, s.beat.i, now)
  {
    var s := Exec(cfg, steps).value;
    IdsStayDistinct(cfg, steps);
    StampsStayDistinct(cfg, steps);
    forall j | 0 <= j < s.beat.i ensures !Same(s.tasks[j], s.tasks[s.beat.i]) {
      assert s.tasks[j].created != s.tasks[s.beat.i].created;
    }
    UnlikeEarlierOnes(s.tasks, s.beat.i, now);
  }

  /** Then no two listed tasks are equal, and a pass leaves exactly the tasks that its sweep leaves. */
  lemma StampedStatesDiffer(cfg: Config, steps: seq<Step>, now: int)
    requires Exec(cfg, steps).Some? && StampsDiffer(steps)
    ensures Together(Exec(cfg, steps).value.tasks, now) && DoomedDiffer(Exec(cfg, steps).value.tasks, now)
  {
    IdsStayDistinct(cfg, steps);
    StampsStayDistinct(cfg, steps);
  }

  // ------------------------------------------------------------------ tokens

  /** The command is a ping or a touch, and a touch carries a token that was drawn. */
  predicate GoodCommand(c: string, used: set<string>) {
    IsPing(c) || (IsTouch(c) && TouchToken(c) in used)
  }

  predicate SameToken(c: string, d: string) {
    IsTouch(c) && IsTouch(d) && TouchToken(c) == TouchToken(d)
  }

  /** Refreshed tasks carry pairwise different tokens, all of them drawn before. */
  predicate TokensDiffer(ts: seq<Task>, used: set<string>) {
    && (forall i :: 0 <= i < |ts| ==> GoodCommand(ts[i].command, used))
    && (forall i, j :: 0 <= i < j < |ts| ==> !SameToken(ts[i].command, ts[j].command))
  }

  /** Nobody carries this token yet. */
  predicate Uncarried(ts: seq<Task>, token: string) {
    forall i :: 0 <= i < |ts| && IsTouch(ts[i].command) ==> TouchToken(ts[i].command) != token
  }

  predicate TokenInv(s: State) {
    && TokensDiffer(s.tasks, s.used)
    && (forall t | t in s.used :: IsToken(t))
    && (s.beat.Draining? || s.beat.InFlight? ==> IsToken(s.beat.token))
    && (s.beat.Refreshing? ==> IsToken(s.beat.token) && s.beat.token in s.used && Uncarried(s.tasks, s.beat.token))
  }

  lemma RemovalKeepsTokens(ts: seq<Task>, used: set<string>, j: nat)
    requires TokensDiffer(ts, used) && j < |ts|
    ensures TokensDiffer(RemoveAt(ts, j), used)
  {
  }

  lemma BeginKeepsTokens(cfg: Config, s: State, token: string)
    requires TokenInv(s) && Enabled(cfg, s, BeginRefresh(token))
    ensures TokenInv(Apply(cfg, s, BeginRefresh(token)))
  {
    var s' := Apply(cfg, s, BeginRefresh(token));
    assert forall k :: 0 <= k < |s.tasks| ==> s'.tasks[k].command == s.tasks[k].command;
  }

  lemma RenewKeepsTokens(ts: seq<Task>, used: set<string>, i: nat, now: int, token: string)
    requires TokensDiffer(ts, used) && i < |ts| && IsToken(token) && token in used && Uncarried(ts, token)
    ensures TokensDiffer(Renew(ts, i, now, token), used)
  {
    TouchIsTouch(token);
    var ts' := Renew(ts, i, now, token);
    assert forall k :: 0 <= k < |ts| && k != i ==> ts'[k] == ts[k];
  }

  lemma RegisterKeepsTokens(ts: seq<Task>, used: set<string>, t: Task, token: string)
    requires TokensDiffer(ts, used) && IsToken(token) && t.command == Ping(token)
    ensures TokensDiffer(ts + [t], used)
  {
    PingIsPing(token);
    assert !IsTouch(t.command);
  }

  lemma StepKeepsTokens(cfg: Config, s: State, step: Step)
    requires TokenInv(s) && Enabled(cfg, s, step)
    ensures TokenInv(Apply(cfg, s, step))
  {
    match step
    case BeginRefresh(token) => BeginKeepsTokens(cfg, s, token);
    case FinishRefresh(now) => RenewKeepsTokens(s.tasks, s.used, s.beat.i, now, s.beat.token);
    case ExpireTask(now) =>
      if s.tasks[s.beat.i].expires <= now {
        RemovalKeepsTokens(s.tasks, s.used, FirstSame(s.tasks, s.tasks[s.beat.i]));
      }
    case Register(now) => RegisterKeepsTokens(s.tasks, s.used, NewTask(s, s.beat.ip, s.beat.token, now), s.beat.token);
    case PopAndRegister(now) =>
      RegisterKeepsTokens(s.tasks, s.used, NewTask(s, s.queue[|s.queue| - 1], s.beat.token, now), s.beat.token);
    case Match(line) =>
      assert forall k :: 0 <= k < |s.tasks| ==> Apply(cfg, s, step).tasks[k].command == s.tasks[k].command;
    case _ =>
  }

  lemma {:induction false} TokensStayDistinct(cfg: Config, steps: seq<Step>)
    requires Exec(cfg, steps).Some?
    ensures TokenInv(Exec(cfg, steps).value)
  {
    if steps != [] {
      TokensStayDistinct(cfg, steps[..|steps| - 1]);
      StepKeepsTokens(cfg, Exec(cfg, steps[..|steps| - 1]).value, steps[|steps| - 1]);
    }
  }

  /** In every reachable state, the command line a refreshed task asked for matches that task and no other. */
  lemma TouchFlagsExactlyOne(cfg: Config, steps: seq<Step>, i: nat)
    requires Exec(cfg, steps).Some?
    requires i < |Exec(cfg, steps).value.tasks| && IsTouch(Exec(cfg, steps).value.tasks[i].command)
    ensures var s := Exec(cfg, steps).value;
            var line := TOUCH + TouchToken(s.tasks[i].command);
            forall j :: 0 <= j < |s.tasks| ==> (Contains(s.tasks[j].command, line) <==> j == i)
  {
    TokensStayDistinct(cfg, steps);
    var s := Exec(cfg, steps).value;
    var token := TouchToken(s.tasks[i].command);
    forall j | 0 <= j < |s.tasks| ensures Contains(s.tasks[j].command, TOUCH + token) <==> j == i {
      TouchMatchesExactly(s.tasks[j].command, token);
    }
  }

  /** Two devices are registered in one round. */
  lemma TwoInOneRound(token: string, a: string, b: string) returns (steps: seq<Step>, s: State)
    requires IsToken(token) && a != b
    ensures Exec(Config(true, true), steps) == Some(s)
    ensures s.beat == Draining(token) && s.queue == [] && s.used == {token}
    ensures |s.tasks| == 2 && s.tasks[0].ip == a && s.tasks[1].ip == b
    ensures forall j :: 0 <= j < 2 ==>
              s.tasks[j].id == j && s.tasks[j].command == Ping(token) && s.tasks[j].expires == 180 * SECOND
  {
    var cfg := Config(true, true);
    steps, s := OneQueued(cfg, token, a);
    steps, s := Do(cfg, steps, s, PopAndRegister(0));
    assert s.queue == [] && s.tasks == [Task(0, 0, 180 * SECOND, a, Ping(token), false)];
    steps, s := Connect(cfg, steps, s, b);
    assert s.queue == [b];
    steps, s := Do(cfg, steps, s, PopAndRegister(0));
    assert s.queue == [];
  }

  lemma PingContainsItself(token: string)
    ensures Contains(Ping(token), Ping(token))
  {
    assert OccursAt(Ping(token), Ping(token), 0);
  }

  /** Devices registered in one round share their ping, so before the first refresh one line flags them all. */
  lemma PingMayFlagSeveral(token: string, a: string, b: string) returns (steps: seq<Step>, s: State)
    requires IsToken(token) && a != b
    ensures Exec(Config(true, true), steps) == Some(s)
    ensures |s.tasks| == 2 && s.tasks[0].ip == a && s.tasks[1].ip == b
    ensures Contains(s.tasks[0].command, Ping(token)) && Contains(s.tasks[1].command, Ping(token))
  {
    PingContainsItself(token);
    steps, s := TwoInOneRound(token, a, b);
  }

  /** The task still carries the ping of the round in which it was registered. */
  predicate Unrefreshed(t: Task) {
    IsPing(t.command)
  }

  predicate DistinctPings(pings: seq<string>, used: set<string>) {
    && (forall r :: 0 <= r < |pings| ==> pings[r] in used && IsToken(pings[r]))
    && (forall q, r :: 0 <= q < r < |pings| ==> pings[q] != pings[r])
  }

  /** The task was registered in a round that took place, and carries that round's ping unless it was refreshed. */
  predicate InRound(t: Task, pings: seq<string>, roundOf: map<nat, nat>) {
    && t.id in roundOf && 1 <= roundOf[t.id] <= |pings|
    && (Unrefreshed(t) ==> t.command == Ping(pings[roundOf[t.id] - 1]))
  }

  predicate AllInRounds(ts: seq<Task>, pings: seq<string>, roundOf: map<nat, nat>) {
    forall i :: 0 <= i < |ts| ==> InRound(ts[i], pings, roundOf)
  }

  /** Rounds have different pings. */
  predicate RoundInv(s: State) {
    && DistinctPings(s.pings, s.used)
    && (s.beat.Draining? || s.beat.InFlight? ==> s.pings != [] && s.beat.token == s.pings[|s.pings| - 1])
    && AllInRounds(s.tasks, s.pings, s.roundOf)
  }

  lemma RegisteredKeepsRounds(s: State, ip: string, now: int)
    requires RoundInv(s) && IdInv(s) && (s.beat.Draining? || s.beat.InFlight?)
    ensures RoundInv(Registered(s, ip, now))
  {
    var s' := Registered(s, ip, now);
    forall i | 0 <= i < |s'.tasks| ensures InRound(s'.tasks[i], s'.pings, s'.roundOf) {
      assert i < |s.tasks| ==> InRound(s.tasks[i], s.pings, s.roundOf);
    }
  }

  lemma RenewKeepsRounds(ts: seq<Task>, i: nat, now: int, token: string, pings: seq<string>, roundOf: map<nat, nat>)
    requires AllInRounds(ts, pings, roundOf) && i < |ts| && IsToken(token)
    ensures AllInRounds(Renew(ts, i, now, token), pings, roundOf)
  {
    TouchIsTouch(token);
    var ts' := Renew(ts, i, now, token);
    assert InRound(ts[i], pings, roundOf) && !Unrefreshed(ts'[i]);
  }

  lemma NewRoundKeepsRounds(ts: seq<Task>, pings: seq<string>, token: string, roundOf: map<nat, nat>)
    requires AllInRounds(ts, pings, roundOf)
    ensures AllInRounds(ts, pings + [token], roundOf)
  {
    forall i | 0 <= i < |ts| ensures InRound(ts[i], pings + [token], roundOf) {
      assert InRound(ts[i], pings, roundOf);
    }
  }

  /** Flags do not matter. */
  lemma FlagsKeepRounds(ts: seq<Task>, ts': seq<Task>, pings: seq<string>, roundOf: map<nat, nat>)
    requires AllInRounds(ts, pings, roundOf) && |ts'| == |ts|
    requires forall i :: 0 <= i < |ts| ==> ts'[i].id == ts[i].id && ts'[i].command == ts[i].command
    ensures AllInRounds(ts', pings, roundOf)
  {
    forall i | 0 <= i < |ts'| ensures InRound(ts'[i], pings, roundOf) {
      assert InRound(ts[i], pings, roundOf);
    }
  }

  lemma StepKeepsRounds(cfg: Config, s: State, step: Step)
    requires RoundInv(s) && IdInv(s) && TokenInv(s) && Enabled(cfg, s, step)
    ensures RoundInv(Apply(cfg, s, step))
  {
    match step
    case Register(now) => RegisteredKeepsRounds(s, s.beat.ip, now);
    case PopAndRegister(now) =>
      RegisteredKeepsRounds(s.(queue := s.queue[..|s.queue| - 1]), s.queue[|s.queue| - 1], now);
    case FinishRefresh(now) => RenewKeepsRounds(s.tasks, s.beat.i, now, s.beat.token, s.pings, s.roundOf);
    case ExpireTask(now) => ExpireKeeps(s.tasks, s.beat.i, now);
    case NewRound(token) => NewRoundKeepsRounds(s.tasks, s.pings, token, s.roundOf);
    case Match(line) => FlagsKeepRounds(s.tasks, Apply(cfg, s, step).tasks, s.pings, s.roundOf);
    case BeginRefresh(_) => FlagsKeepRounds(s.tasks, Apply(cfg, s, step).tasks, s.pings, s.roundOf);
    case _ =>
  }

  lemma {:induction false} RoundsStayDistinct(cfg: Config, steps: seq<Step>)
    requires Exec(cfg, steps).Some?
    ensures RoundInv(Exec(cfg, steps).value)
  {
    if steps != [] {
      var init := steps[..|steps| - 1];
      RoundsStayDistinct(cfg, init);
      IdsStayDistinct(cfg, init);
      TokensStayDistinct(cfg, init);
      StepKeepsRounds(cfg, Exec(cfg, init).value, steps[|steps| - 1]);
    }
  }

  predicate SameRound(s: State, i: nat, j: nat)
    requires i < |s.tasks| && j < |s.tasks|
  {
    var a, b := s.tasks[i].id, s.tasks[j].id;
    a in s.roundOf && b in s.roundOf && s.roundOf[a] == s.roundOf[b]
  }

  lemma PingTellsRound(a: Task, b: Task, pings: seq<string>, used: set<string>, roundOf: map<nat, nat>)
    requires DistinctPings(pings, used) && InRound(a, pings, roundOf) && InRound(b, pings, roundOf)
    requires Unrefreshed(a) && Unrefreshed(b)
    ensures a.command == b.command <==> roundOf[a.id] == roundOf[b.id]
  {
    var x, y := pings[roundOf[a.id] - 1], pings[roundOf[b.id] - 1];
    assert Ping(x)[|PING|..] == x && Ping(y)[|PING|..] == y;
  }

  /**
   * In every reachable state two unrefreshed tasks share their ping if and only if they were
   * registered in one round.
   */
  lemma PingSharedExactly(cfg: Config, steps: seq<Step>, i: nat, j: nat)
    requires Exec(cfg, steps).Some?
    requires i < |Exec(cfg, steps).value.tasks| && j < |Exec(cfg, steps).value.tasks|
    requires Unrefreshed(Exec(cfg, steps).value.tasks[i]) && Unrefreshed(Exec(cfg, steps).value.tasks[j])
    ensures var s := Exec(cfg, steps).value;
            s.tasks[i].command == s.tasks[j].command <==> SameRound(s, i, j)
  {
    RoundsStayDistinct(cfg, steps);
    var s := Exec(cfg, steps).value;
    assert InRound(s.tasks[i], s.pings, s.roundOf) && InRound(s.tasks[j], s.pings, s.roundOf);
    PingTellsRound(s.tasks[i], s.tasks[j], s.pings, s.used, s.roundOf);
  }

  /** A ping's line flags its task alone if and only if no other unrefreshed task is from the same round. */
  lemma PingFlagsOneExactly(cfg: Config, steps: seq<Step>, i: nat)
    requires Exec(cfg, steps).Some?
    requires i < |Exec(cfg, steps).value.tasks| && Unrefreshed(Exec(cfg, steps).value.tasks[i])
    ensures var s := Exec(cfg, steps).value;
            (forall j :: 0 <= j < |s.tasks| ==> (Contains(s.tasks[j].command, s.tasks[i].command) <==> j == i))
            <==> (forall j :: 0 <= j < |s.tasks| && j != i && Unrefreshed(s.tasks[j]) ==> !SameRound(s, i, j))
  {
    var s := Exec(cfg, steps).value;
    TokensStayDistinct(cfg, steps);
    var token := s.tasks[i].command[3..];
    assert s.tasks[i].command == Ping(token);
    forall j | 0 <= j < |s.tasks|
      ensures Contains(s.tasks[j].command, s.tasks[i].command)
          <==> j == i || (Unrefreshed(s.tasks[j]) && SameRound(s, i, j))
    {
      assert GoodCommand(s.tasks[j].command, s.used);
      PingMatchesExactly(s.tasks[j].command, token);
      if Unrefreshed(s.tasks[j]) {
        PingSharedExactly(cfg, steps, i, j);
      }
    }
  }

  // -------------------------------------------------- refreshes and matches

  /** Each refresh was paid for by a record that matched the task since the refresh before it. */
  ghost predicate CountInv(s: State) {
    && (forall id :: Count(s.refreshes, id) <= Count(s.matches, id))
    && (forall i :: 0 <= i < |s.tasks| && s.tasks[i].flagged ==>
          Count(s.refreshes, s.tasks[i].id) < Count(s.matches, s.tasks[i].id))
  }

  lemma StepKeepsCounts(cfg: Config, s: State, step: Step)
    requires CountInv(s) && IdInv(s) && Enabled(cfg, s, step)
    ensures CountInv(Apply(cfg, s, step))
  {
    var s' := Apply(cfg, s, step);
    if step.ExpireTask? {
      ExpireKeeps(s.tasks, s.beat.i, step.now);
    } else if step.Match? {
      var ids := Matching(s.tasks, step.line);
      forall i | 0 <= i < |s'.tasks| && s'.tasks[i].flagged
        ensures Count(s'.refreshes, s'.tasks[i].id) < Count(s'.matches, s'.tasks[i].id)
      {
        assert s.tasks[i].flagged || s.tasks[i].id in ids;
      }
    }
  }

  /** No task is ever refreshed more often than records have matched it. */
  lemma {:induction false} RefreshesNeverOutnumberMatches(cfg: Config, steps: seq<Step>)
    requires Exec(cfg, steps).Some?
    ensures CountInv(Exec(cfg, steps).value)
  {
    if steps != [] {
      RefreshesNeverOutnumberMatches(cfg, steps[..|steps| - 1]);
      IdsStayDistinct(cfg, steps[..|steps| - 1]);
      StepKeepsCounts(cfg, Exec(cfg, steps[..|steps| - 1]).value, steps[|steps| - 1]);
    }
  }

  // --------------------------------------------------- two sequential threads

  /** Which thread makes the step, and where in its loop: its kinds of steps in program order. */
  datatype Place = Beat(n: nat) | Listen(n: nat) | Matcher

  function PlaceOf(step: Step): Place {
    match step
    case NewRound(_) => Beat(0)
    case PopDevice => Beat(1)
    case PopAndRegister(_) => Beat(2)
    case Register(_) => Beat(3)
    case StartScan => Beat(4)
    case SkipRefresh => Beat(5)
    case BeginRefresh(_) => Beat(6)
    case FinishRefresh(_) => Beat(7)
    case ExpireTask(_) => Beat(8)
    case EndScan => Beat(9)
    case Admit(_) => Listen(0)
    case ScanTasks(_) => Listen(1)
    case CheckQueue => Listen(2)
    case AppendDevice => Listen(3)
    case Match(_) => Matcher
  }

  /**
   * The heartbeat thread and the listener are sequential: in any state each of them is at one
   * place of its loop. In particular a scan starts only when the queue is drained.
   */
  lemma ThreadsAreSequential(cfg: Config, s: State, a: Step, b: Step)
    requires Enabled(cfg, s, a) && Enabled(cfg, s, b)
    ensures PlaceOf(a).Beat? && PlaceOf(b).Beat? ==> PlaceOf(a) == PlaceOf(b)
    ensures PlaceOf(a).Listen? && PlaceOf(b).Listen? ==> PlaceOf(a) == PlaceOf(b)
  {
  }

  /** And neither is ever stuck: in every reachable state each of them has a next step. */
  lemma ThreadsGoOn(cfg: Config, steps: seq<Step>, s: State, ip: string, token: string, now: int)
    returns (beat: Step, listen: Step)
    requires Exec(cfg, steps) == Some(s) && IsFresh(s, token)
    ensures Enabled(cfg, s, beat) && PlaceOf(beat).Beat?
    ensures Enabled(cfg, s, listen) && PlaceOf(listen).Listen?
  {
    IdsStayDistinct(cfg, steps);
    listen := if s.listener.PastTasks? then CheckQueue
              else if s.listener.PastQueue? then AppendDevice
              else if cfg.atomicAdmission then Admit(ip) else ScanTasks(ip);
    match s.beat
    case Starting => beat := NewRound(token);
    case Draining(_) => beat := if s.queue == [] then StartScan else if cfg.atomicRegister then PopAndRegister(now)
        else PopDevice;
    case InFlight(_, _) => beat := Register(now);
    case Scanning(i) => beat := if i >= |s.tasks| then EndScan else if s.tasks[i].flagged then BeginRefresh(token)
        else SkipRefresh;
    case Refreshing(_, _) => beat := FinishRefresh(now);
    case Checking(_) => beat := ExpireTask(now);
  }
}
