// The heartbeat protocol: the listener admits devices, the heartbeat thread registers,
// refreshes and evicts them, and the log matcher flags them, all interleaved. One scan of the
// task list, one deque operation and one list append are atomic; refreshing a task is two
// steps, so that the old command can still be matched after the flag was cleared.
module Monitor {
  import opened Wrappers
  import opened Text
  import opened Tasks
  import opened Commands

  /** Whether the listener's two checks and append, and the heartbeat thread's pop and register, are one step each. */
  datatype Config = Config(atomicAdmission: bool, atomicRegister: bool)

  datatype Listener = Waiting | PastTasks(ip: string) | PastQueue(ip: string)

  /**
   * Where the heartbeat thread is: before a round, draining `iot_device`, holding a device, or at
   * an index of its scan, before, within or behind the refresh of the task there.
   */
  datatype Beat =
    | Starting
    | Draining(token: string)
    | InFlight(ip: string, token: string)
    | Scanning(i: nat)
    | Refreshing(i: nat, token: string)
    | Checking(i: nat)

  /**
   * The last five fields are history: all tokens drawn, the ping tokens of the rounds so far,
   * and per task its round, the records that flagged it and its refreshes.
   */
  datatype State = State(
    queue: seq<string>, listener: Listener, beat: Beat, tasks: seq<Task>, nextId: nat,
    used: set<string>, pings: seq<string>, roundOf: map<nat, nat>, matches: map<nat, nat>, refreshes: map<nat, nat>)

  const START: State := State([], Waiting, Starting, [], 0, {}, [], map[], map[], map[])

  datatype Step =
    | Admit(ip: string)
    | ScanTasks(ip: string)
    | CheckQueue
    | AppendDevice
    | NewRound(token: string)
    | PopDevice
    | Register(now: int)
    | PopAndRegister(now: int)
    | StartScan
    | SkipRefresh
    | BeginRefresh(token: string)
    | FinishRefresh(now: int)
    | ExpireTask(now: int)
    | EndScan
    | Match(line: string)

  predicate IsMonitored(ts: seq<Task>, ip: string) {
    exists i :: 0 <= i < |ts| && ts[i].ip == ip
  }

  predicate IsFresh(s: State, token: string) {
    IsToken(token) && token !in s.used
  }

  predicate Enabled(cfg: Config, s: State, step: Step) {
    match step
    case Admit(_) => cfg.atomicAdmission && s.listener.Waiting?
    case ScanTasks(_) => !cfg.atomicAdmission && s.listener.Waiting?
    case CheckQueue => s.listener.PastTasks?
    case AppendDevice => s.listener.PastQueue?
    case NewRound(token) => s.beat.Starting? && IsFresh(s, token)
    case PopDevice => !cfg.atomicRegister && s.beat.Draining? && s.queue != []
    case Register(_) => s.beat.InFlight?
    case PopAndRegister(_) => cfg.atomicRegister && s.beat.Draining? && s.queue != []
    case StartScan => s.beat.Draining? && s.queue == []
    case SkipRefresh => s.beat.Scanning? && s.beat.i < |s.tasks| && !s.tasks[s.beat.i].flagged
    case BeginRefresh(token) => s.beat.Scanning? && s.beat.i < |s.tasks| && s.tasks[s.beat.i].flagged
        && IsFresh(s, token)
    case FinishRefresh(_) => s.beat.Refreshing? && s.beat.i < |s.tasks|
    case ExpireTask(_) => s.beat.Checking? && s.beat.i < |s.tasks|
    case EndScan => s.beat.Scanning? && s.beat.i >= |s.tasks|
    case Match(_) => true
  }

  function Bump(m: map<nat, nat>, ids: set<nat>): (m': map<nat, nat>)
    ensures forall id :: Count(m', id) == Count(m, id) + if id in ids then 1 else 0
  {
    map id | id in m.Keys + ids :: Count(m, id) + if id in ids then 1 else 0
  }

  function Count(m: map<nat, nat>, id: nat): nat {
    if id in m then m[id] else 0
  }

  function NewTask(s: State, ip: string, token: string, now: int): Task {
    Task(s.nextId, now, now + 180 * SECOND, ip, Ping(token), false)
  }

  /** A device becomes a task of the current round. */
  function Registered(s: State, ip: string, now: int): State
    requires s.beat.Draining? || s.beat.InFlight?
  {
    s.(tasks := s.tasks + [NewTask(s, ip, s.beat.token, now)], nextId := s.nextId + 1,
       roundOf := s.roundOf[s.nextId := |s.pings|], beat := Draining(s.beat.token))
  }

  /** The first half of `updated_task`. */
  function ClearFlag(ts: seq<Task>, i: nat): (ts': seq<Task>)
    requires i < |ts|
    ensures |ts'| == |ts|
  {
    ts[i := ts[i].(flagged := false)]
  }

  /** The second half of `updated_task`; the flag may have been set again meanwhile. */
  function Renew(ts: seq<Task>, i: nat, now: int, token: string): (ts': seq<Task>)
    requires i < |ts|
    ensures |ts'| == |ts|
  {
    ts[i := ts[i].(expires := now + 15 * SECOND, command := Touch(token))]
  }

  /** Identities of the tasks whose command contains the line. */
  function Matching(ts: seq<Task>, line: string): set<nat> {
    set i | 0 <= i < |ts| && Contains(ts[i].command, line) :: ts[i].id
  }

  function Apply(cfg: Config, s: State, step: Step): State
    requires Enabled(cfg, s, step)
  {
    match step
    case Admit(ip) => if IsMonitored(s.tasks, ip) || ip in s.queue then s else s.(queue := s.queue + [ip])
    case ScanTasks(ip) => if IsMonitored(s.tasks, ip) then s else s.(listener := PastTasks(ip))
    case CheckQueue => s.(listener := if s.listener.ip in s.queue then Waiting else PastQueue(s.listener.ip))
    case AppendDevice => s.(queue := s.queue + [s.listener.ip], listener := Waiting)
    case NewRound(token) => s.(beat := Draining(token), used := s.used + {token}, pings := s.pings + [token])
    case PopDevice =>
      var last := |s.queue| - 1;
      s.(queue := s.queue[..last], beat := InFlight(s.queue[last], s.beat.token))
    case Register(now) => Registered(s, s.beat.ip, now)
    case PopAndRegister(now) =>
      var last := |s.queue| - 1;
      Registered(s.(queue := s.queue[..last]), s.queue[last], now)
    case StartScan => s.(beat := Scanning(0))
    case SkipRefresh => s.(beat := Checking(s.beat.i))
    case BeginRefresh(token) =>
      s.(tasks := ClearFlag(s.tasks, s.beat.i), beat := Refreshing(s.beat.i, token),
         used := s.used + {token}, refreshes := Bump(s.refreshes, {s.tasks[s.beat.i].id}))
    case FinishRefresh(now) => s.(tasks := Renew(s.tasks, s.beat.i, now, s.beat.token), beat := Checking(s.beat.i))
    case ExpireTask(now) => s.(tasks := ExpireAt(s.tasks, s.beat.i, now), beat := Scanning(s.beat.i + 1))
    case EndScan => s.(beat := Starting)
    case Match(line) =>
      var ids := Matching(s.tasks, line);
      s.(tasks := Mark(s.tasks, ids), matches := Bump(s.matches, ids))
  }

  function Exec(cfg: Config, steps: seq<Step>): Option<State> {
    if steps == [] then Some(START)
    else
      var mid :- Exec(cfg, steps[..|steps| - 1]);
      if Enabled(cfg, mid, steps[|steps| - 1]) then Some(Apply(cfg, mid, steps[|steps| - 1])) else None
  }

  // ---------------------------------------------------- places of one device

  function Ips(ts: seq<Task>): (ips: seq<string>)
    ensures |ips| == |ts|
  {
    seq(|ts|, i requires 0 <= i < |ts| => ts[i].ip)
  }

  function Queued(s: State, ip: string): nat {
    multiset(s.queue)[ip]
  }

  function Flying(s: State, ip: string): nat {
    if s.beat.InFlight? && s.beat.ip == ip then 1 else 0
  }

  function Monitored(s: State, ip: string): nat {
    multiset(Ips(s.tasks))[ip]
  }

  /** How many places one address occupies: queued, in flight, monitored. */
  function Places(s: State, ip: string): nat {
    Queued(s, ip) + Flying(s, ip) + Monitored(s, ip)
  }

  function Bound(cfg: Config): nat {
    1 + (if cfg.atomicAdmission then 0 else 1) + if cfg.atomicRegister then 0 else 1
  }

  predicate PlaceInv(cfg: Config, s: State, ip: string) {
    && Places(s, ip) <= Bound(cfg)
    && Queued(s, ip) <= 1
    && (s.beat.InFlight? ==> !cfg.atomicRegister)
    && (!s.listener.Waiting? ==> !cfg.atomicAdmission)
    && (!s.listener.Waiting? && s.listener.ip == ip ==> Places(s, ip) < Bound(cfg))
    && (s.listener.PastQueue? && s.listener.ip == ip ==> Queued(s, ip) == 0)
  }

  lemma UnmonitoredHasNoPlace(ts: seq<Task>, ip: string)
    ensures IsMonitored(ts, ip) <==> multiset(Ips(ts))[ip] > 0
  {
    if multiset(Ips(ts))[ip] > 0 {
      assert ip in Ips(ts);
    } else {
      assert ip !in Ips(ts);
      forall i | 0 <= i < |ts| ensures ts[i].ip != ip {
        assert Ips(ts)[i] in Ips(ts);
      }
    }
  }

  lemma IpsSnoc(ts: seq<Task>, t: Task, ip: string)
    ensures multiset(Ips(ts + [t]))[ip] == multiset(Ips(ts))[ip] + if t.ip == ip then 1 else 0
  {
    assert Ips(ts + [t]) == Ips(ts) + [t.ip];
  }

  lemma PopLast(q: seq<string>, ip: string)
    requires q != []
    ensures multiset(q[..|q| - 1])[ip] == multiset(q)[ip] - if q[|q| - 1] == ip then 1 else 0
  {
    assert q == q[..|q| - 1] + [q[|q| - 1]];
  }

  lemma RemovalOnlyFrees(ts: seq<Task>, j: nat, ip: string)
    requires j < |ts|
    ensures multiset(Ips(RemoveAt(ts, j)))[ip] <= multiset(Ips(ts))[ip]
  {
    var a, b := Ips(ts)[..j], Ips(ts)[j + 1..];
    assert Ips(RemoveAt(ts, j)) == a + b;
    assert Ips(ts) == a + [ts[j].ip] + b;
  }

  /** Steps of a heartbeat scan and matches only free places. */
  lemma ScanOnlyFrees(cfg: Config, s: State, step: Step, ip: string)
    requires Enabled(cfg, s, step)
    requires step.BeginRefresh? || step.FinishRefresh? || step.ExpireTask? || step.Match?
    ensures Monitored(Apply(cfg, s, step), ip) <= Monitored(s, ip)
  {
    var s' := Apply(cfg, s, step);
    if step.ExpireTask? {
      if s.tasks[s.beat.i].expires <= step.now {
        RemovalOnlyFrees(s.tasks, FirstSame(s.tasks, s.tasks[s.beat.i]), ip);
      }
    } else {
      assert Ips(s'.tasks) == Ips(s.tasks);
    }
  }

  lemma ListenerKeepsPlaces(cfg: Config, s: State, step: Step, ip: string)
    requires PlaceInv(cfg, s, ip) && Enabled(cfg, s, step)
    requires step.Admit? || step.ScanTasks? || step.CheckQueue? || step.AppendDevice?
    ensures PlaceInv(cfg, Apply(cfg, s, step), ip)
  {
    UnmonitoredHasNoPlace(s.tasks, ip);
  }

  /** Popping and registering moves a device from one place to the next. */
  lemma RegisterMoves(cfg: Config, s: State, step: Step, ip: string)
    requires Enabled(cfg, s, step)
    requires step.PopDevice? || step.Register? || step.PopAndRegister?
    ensures var s' := Apply(cfg, s, step);
            Places(s', ip) == Places(s, ip) && Queued(s', ip) <= Queued(s, ip)
  {
    match step
    case PopDevice => PopLast(s.queue, ip);
    case PopAndRegister(now) =>
      PopLast(s.queue, ip);
      IpsSnoc(s.tasks, NewTask(s, s.queue[|s.queue| - 1], s.beat.token, now), ip);
    case Register(now) => IpsSnoc(s.tasks, NewTask(s, s.beat.ip, s.beat.token, now), ip);
  }

  lemma StepKeepsPlaces(cfg: Config, s: State, step: Step, ip: string)
    requires PlaceInv(cfg, s, ip) && Enabled(cfg, s, step)
    ensures PlaceInv(cfg, Apply(cfg, s, step), ip)
  {
    if step.Admit? || step.ScanTasks? || step.CheckQueue? || step.AppendDevice? {
      ListenerKeepsPlaces(cfg, s, step, ip);
    } else if step.PopDevice? || step.Register? || step.PopAndRegister? {
      RegisterMoves(cfg, s, step, ip);
    } else if step.BeginRefresh? || step.FinishRefresh? || step.ExpireTask? || step.Match? {
      ScanOnlyFrees(cfg, s, step, ip);
    }
  }

  /**
   * In every interleaving an address occupies at most one place, plus one for each of the two
   * operations (admission, pop-and-register) that is not atomic: one to three places.
   */
  lemma {:induction false} PlacesBounded(cfg: Config, steps: seq<Step>, ip: string)
    requires Exec(cfg, steps).Some?
    ensures PlaceInv(cfg, Exec(cfg, steps).value, ip)
  {
    if steps != [] {
      PlacesBounded(cfg, steps[..|steps| - 1], ip);
      StepKeepsPlaces(cfg, Exec(cfg, steps[..|steps| - 1]).value, steps[|steps| - 1], ip);
    }
  }
}
