// Threshold-guarded draining of one capped deque by several threads. `len()` and `popleft()`
// are separate atomic steps, so a worker may pop after others have emptied the deque; handing
// the popped entry on (a socket send, a match) is a third step.
module CheckThenPop {
  import opened Wrappers
  import opened CappedDeque

  /** An entry together with its position in the append stream. */
  datatype Placed<T> = Placed(pos: nat, item: T)

  /** A worker between its steps; an IndexError from an empty deque ends the thread. */
  datatype Pc<T> = Idle | Ready | Holding(entry: Placed<T>) | Dead

  datatype Worker<T> = Worker(pc: Pc<T>, handed: seq<Placed<T>>)

  /**
   * The deque `items` and its workers. `stream` is the history of appends, `first` the stream
   * position of the oldest retained entry, `popped` and `lost` the positions that left by a pop
   * and by overflow, and `emitted` the positions handed on, in global order.
   */
  datatype State<T> = State(
    cap: nat, threshold: nat,
    items: seq<T>, workers: seq<Worker<T>>,
    stream: seq<T>, first: nat, popped: set<nat>, lost: set<nat>, emitted: seq<nat>)

  datatype Step<T> = Append(x: T) | Spawn | Check(w: nat) | Pop(w: nat) | Hand(w: nat)

  function Init<T>(cap: nat, threshold: nat): State<T> {
    State(cap, threshold, [], [], [], 0, {}, {}, [])
  }

  predicate Enabled<T>(s: State<T>, step: Step<T>) {
    match step
    case Append(_) => s.cap > 0 && |s.items| <= s.cap
    case Spawn => true
    case Check(w) => w < |s.workers| && s.workers[w].pc.Idle?
    case Pop(w) => w < |s.workers| && s.workers[w].pc.Ready?
    case Hand(w) => w < |s.workers| && s.workers[w].pc.Holding?
  }

  function SetPc<T>(s: State<T>, w: nat, pc: Pc<T>): State<T>
    requires w < |s.workers|
  {
    s.(workers := s.workers[w := s.workers[w].(pc := pc)])
  }

  function Apply<T>(s: State<T>, step: Step<T>): State<T>
    requires Enabled(s, step)
  {
    match step
    case Append(x) =>
      var s' := s.(items := Push(s.items, s.cap, x), stream := s.stream + [x]);
      if |s.items| == s.cap then s'.(first := s.first + 1, lost := s.lost + {s.first}) else s'
    case Spawn => s.(workers := s.workers + [Worker(Idle, [])])
    case Check(w) => if |s.items| > s.threshold then SetPc(s, w, Ready) else s
    case Pop(w) =>
      if s.items == [] then SetPc(s, w, Dead)
      else
        SetPc(s, w, Holding(Placed(s.first, s.items[0])))
          .(items := s.items[1..], first := s.first + 1, popped := s.popped + {s.first})
    case Hand(w) =>
      var entry := s.workers[w].pc.entry;
      s.(workers := s.workers[w := Worker(Idle, s.workers[w].handed + [entry])], emitted := s.emitted + [entry.pos])
  }

  /** The state after a run, or None if some step was not enabled. */
  function Exec<T>(s: State<T>, steps: seq<Step<T>>): Option<State<T>> {
    if steps == [] then Some(s)
    else
      var mid :- Exec(s, steps[..|steps| - 1]);
      if Enabled(mid, steps[|steps| - 1]) then Some(Apply(mid, steps[|steps| - 1])) else None
  }

  // ------------------------------------------------- windows and conservation

  /** Everything a worker has taken out of the deque, in the order it took it. */
  function Owned<T>(w: Worker<T>): seq<Placed<T>> {
    w.handed + if w.pc.Holding? then [w.pc.entry] else []
  }

  predicate InOrder<T>(entries: seq<Placed<T>>) {
    forall i, j :: 0 <= i < j < |entries| ==> entries[i].pos < entries[j].pos
  }

  /** The retained entries are one window of the stream; everything before it left exactly one way. */
  ghost predicate WindowInv<T>(s: State<T>) {
    && s.cap > 0 && |s.items| <= s.cap
    && s.first <= |s.stream| && s.items == s.stream[s.first..]
    && s.popped !! s.lost
    && (forall p :: p in s.popped ==> p < s.first)
    && (forall p :: p in s.lost ==> p < s.first)
    && (forall p: nat :: p < s.first ==> p in s.popped || p in s.lost)
  }

  /** A worker's entries are stream entries it popped, in increasing position. */
  ghost predicate WorkerInv<T>(s: State<T>, w: Worker<T>) {
    var own := Owned(w);
    && InOrder(own)
    && (forall i :: 0 <= i < |own| ==>
          own[i].pos in s.popped && own[i].pos < |s.stream| && own[i].item == s.stream[own[i].pos])
  }

  ghost predicate Apart<T>(a: Worker<T>, b: Worker<T>) {
    forall i, j :: 0 <= i < |Owned(a)| && 0 <= j < |Owned(b)| ==> Owned(a)[i].pos != Owned(b)[j].pos
  }

  ghost predicate Inv<T>(s: State<T>) {
    && WindowInv(s)
    && (forall w :: 0 <= w < |s.workers| ==> WorkerInv(s, s.workers[w]))
    && (forall v, w :: 0 <= v < w < |s.workers| ==> Apart(s.workers[v], s.workers[w]))
  }

  lemma StepKeepsWindow<T>(s: State<T>, step: Step<T>)
    requires WindowInv(s) && Enabled(s, step)
    ensures WindowInv(Apply(s, step))
    ensures s.first <= Apply(s, step).first && s.stream <= Apply(s, step).stream && s.popped <= Apply(s, step).popped
  {
    if step.Append? {
      assert (s.stream + [step.x])[s.first..] == s.items + [step.x];
    }
  }

  /** Growing the stream and the popped set keeps what is known of a worker. */
  lemma WorkerInvMonotone<T>(s: State<T>, s': State<T>, w: Worker<T>)
    requires WorkerInv(s, w) && s.stream <= s'.stream && s.popped <= s'.popped
    ensures WorkerInv(s', w)
  {
  }

  /** A popped entry comes after everything its worker took before. */
  lemma PopKeepsWorker<T>(s: State<T>, s': State<T>, w: Worker<T>)
    requires WindowInv(s) && WorkerInv(s, w) && s.items != [] && !w.pc.Holding?
    requires s.stream == s'.stream && s'.popped == s.popped + {s.first}
    ensures WorkerInv(s', w.(pc := Holding(Placed(s.first, s.items[0]))))
  {
    var own := Owned(w);
    var own' := Owned(w.(pc := Holding(Placed(s.first, s.items[0]))));
    assert own' == own + [Placed(s.first, s.items[0])];
  }

  /** The popped position is new to every other worker. */
  lemma PopKeepsApart<T>(s: State<T>, a: Worker<T>, b: Worker<T>)
    requires WindowInv(s) && WorkerInv(s, a) && s.items != [] && !b.pc.Holding?
    ensures Apart(a, b) ==> Apart(a, b.(pc := Holding(Placed(s.first, s.items[0]))))
    ensures Apart(b, a) ==> Apart(b.(pc := Holding(Placed(s.first, s.items[0]))), a)
  {
    var b' := b.(pc := Holding(Placed(s.first, s.items[0])));
    assert Owned(b') == Owned(b) + [Placed(s.first, s.items[0])];
  }

  lemma PopKeepsInv<T>(s: State<T>, w: nat)
    requires Inv(s) && Enabled(s, Pop(w)) && s.items != []
    ensures Inv(Apply(s, Pop(w)))
  {
    var s' := Apply(s, Pop(w));
    StepKeepsWindow(s, Pop(w));
    forall v | 0 <= v < |s'.workers| ensures WorkerInv(s', s'.workers[v]) {
      if v == w {
        PopKeepsWorker(s, s', s.workers[w]);
      } else {
        WorkerInvMonotone(s, s', s.workers[v]);
      }
    }
    forall u, v | 0 <= u < v < |s'.workers| ensures Apart(s'.workers[u], s'.workers[v]) {
      assert Apart(s.workers[u], s.workers[v]);
      if u == w {
        PopKeepsApart(s, s.workers[v], s.workers[w]);
      } else if v == w {
        PopKeepsApart(s, s.workers[u], s.workers[w]);
      }
    }
  }

  /** Steps that leave every worker's entries as they are. */
  lemma SameOwnersKeepInv<T>(s: State<T>, s': State<T>)
    requires Inv(s) && WindowInv(s') && s.stream <= s'.stream && s.popped <= s'.popped
    requires |s'.workers| == |s.workers|
    requires forall w :: 0 <= w < |s.workers| ==> Owned(s'.workers[w]) == Owned(s.workers[w])
    ensures Inv(s')
  {
    forall w | 0 <= w < |s'.workers| ensures WorkerInv(s', s'.workers[w]) {
      WorkerInvMonotone(s, s', s.workers[w]);
    }
    forall u, v | 0 <= u < v < |s'.workers| ensures Apart(s'.workers[u], s'.workers[v]) {
      assert Apart(s.workers[u], s.workers[v]);
    }
  }

  lemma StepKeepsInv<T>(s: State<T>, step: Step<T>)
    requires Inv(s) && Enabled(s, step)
    ensures Inv(Apply(s, step))
  {
    var s' := Apply(s, step);
    StepKeepsWindow(s, step);
    if step.Pop? && s.items != [] {
      PopKeepsInv(s, step.w);
    } else if step.Spawn? {
      forall v | 0 <= v < |s'.workers| ensures WorkerInv(s', s'.workers[v]) {
        if v < |s.workers| { WorkerInvMonotone(s, s', s.workers[v]); }
      }
    } else {
      SameOwnersKeepInv(s, s');
    }
  }

  /**
   * In every run, with any number of workers: the deque is a window of its append stream, every
   * earlier position left by exactly one pop or one overflow, each worker holds stream entries in
   * increasing position, and no two workers ever hold the same position.
   */
  lemma {:induction false} RunKeepsInv<T>(s: State<T>, steps: seq<Step<T>>)
    requires Inv(s) && Exec(s, steps).Some?
    ensures Inv(Exec(s, steps).value)
  {
    if steps != [] {
      RunKeepsInv(s, steps[..|steps| - 1]);
      StepKeepsInv(Exec(s, steps[..|steps| - 1]).value, steps[|steps| - 1]);
    }
  }

  /** The worker took the entry at this stream position. */
  predicate Owns<T>(w: Worker<T>, p: nat) {
    exists i :: 0 <= i < |Owned(w)| && Owned(w)[i].pos == p
  }

  /** Every popped position was taken by some worker. */
  ghost predicate Claimed<T>(s: State<T>) {
    forall p :: p in s.popped ==> exists w :: 0 <= w < |s.workers| && Owns(s.workers[w], p)
  }

  lemma OwnsMore<T>(w: Worker<T>, w': Worker<T>, p: nat)
    requires Owns(w, p) && Owned(w) <= Owned(w')
    ensures Owns(w', p)
  {
    var i :| 0 <= i < |Owned(w)| && Owned(w)[i].pos == p;
    assert Owned(w')[i].pos == p;
  }

  lemma StepKeepsClaimed<T>(s: State<T>, step: Step<T>)
    requires Claimed(s) && Enabled(s, step)
    ensures Claimed(Apply(s, step))
  {
    var s' := Apply(s, step);
    forall p | p in s'.popped ensures exists w :: 0 <= w < |s'.workers| && Owns(s'.workers[w], p) {
      if p in s.popped {
        var w :| 0 <= w < |s.workers| && Owns(s.workers[w], p);
        OwnsMore(s.workers[w], s'.workers[w], p);
      } else {
        var own := Owned(s'.workers[step.w]);
        assert own[|own| - 1].pos == p;
        assert Owns(s'.workers[step.w], p);
      }
    }
  }

  /** In every run what was popped is with some worker; by the invariant above, with exactly one. */
  lemma {:induction false} RunKeepsClaimed<T>(s: State<T>, steps: seq<Step<T>>)
    requires Claimed(s) && Exec(s, steps).Some?
    ensures Claimed(Exec(s, steps).value)
  {
    if steps != [] {
      RunKeepsClaimed(s, steps[..|steps| - 1]);
      StepKeepsClaimed(Exec(s, steps[..|steps| - 1]).value, steps[|steps| - 1]);
    }
  }

  // ------------------------------------------------------ order of emission

  function Positions<T>(entries: seq<Placed<T>>): seq<nat> {
    seq(|entries|, i requires 0 <= i < |entries| => entries[i].pos)
  }

  predicate Increasing(positions: seq<nat>) {
    forall i, j :: 0 <= i < j < |positions| ==> positions[i] < positions[j]
  }

  /** The emissions of a single worker are exactly what it handed on. */
  predicate EmitsHanded<T>(s: State<T>) {
    |s.workers| <= 1 ==> s.emitted == if s.workers == [] then [] else Positions(s.workers[0].handed)
  }

  lemma StepKeepsEmits<T>(s: State<T>, step: Step<T>)
    requires EmitsHanded(s) && Enabled(s, step)
    ensures EmitsHanded(Apply(s, step))
  {
    var s' := Apply(s, step);
    if step.Hand? && |s'.workers| == 1 {
      assert Positions(s'.workers[0].handed) == Positions(s.workers[0].handed) + [s.workers[0].pc.entry.pos];
    }
  }

  lemma {:induction false} RunKeepsEmits<T>(s: State<T>, steps: seq<Step<T>>)
    requires EmitsHanded(s) && Exec(s, steps).Some?
    ensures EmitsHanded(Exec(s, steps).value)
  {
    if steps != [] {
      RunKeepsEmits(s, steps[..|steps| - 1]);
      StepKeepsEmits(Exec(s, steps[..|steps| - 1]).value, steps[|steps| - 1]);
    }
  }

  lemma HandedInOrder<T>(s: State<T>)
    requires Inv(s) && EmitsHanded(s) && |s.workers| <= 1
    ensures Increasing(s.emitted)
  {
    if s.workers != [] {
      var w := s.workers[0];
      assert WorkerInv(s, w);
      assert forall i :: 0 <= i < |w.handed| ==> Owned(w)[i] == w.handed[i];
    }
  }

  /** So a single worker emits in stream order. */
  lemma OneWorkerEmitsInOrder<T>(s: State<T>, steps: seq<Step<T>>)
    requires Inv(s) && s.workers == [] && s.emitted == [] && Exec(s, steps).Some?
    requires |Exec(s, steps).value.workers| <= 1
    ensures Increasing(Exec(s, steps).value.emitted)
  {
    RunKeepsEmits(s, steps);
    RunKeepsInv(s, steps);
    HandedInOrder(Exec(s, steps).value);
  }

  /** Two workers that both check, both pop and then hand on in the opposite order. */
  lemma CrossOver<T>(s0: State<T>) returns (steps: seq<Step<T>>, s: State<T>)
    requires |s0.items| > s0.threshold && |s0.items| >= 2
    requires |s0.workers| == 2 && s0.workers[0].pc.Idle? && s0.workers[1].pc.Idle?
    ensures Exec(s0, steps) == Some(s) && |s.workers| == 2 && s.emitted == s0.emitted + [s0.first + 1, s0.first]
    ensures forall step | step in steps :: !step.Append? && !step.Spawn?
  {
    steps, s := [], s0;
    var tail := [Check(0), Check(1), Pop(0), Pop(1), Hand(1), Hand(0)];
    var k := 0;
    while k < 6
      invariant 0 <= k <= 6 && Exec(s0, steps) == Some(s) && s.threshold == s0.threshold && |s.workers| == 2
      invariant s.items == s0.items[if k <= 2 then 0 else if k == 3 then 1 else 2..]
      invariant s.first == s0.first + if k <= 2 then 0 else if k == 3 then 1 else 2
      invariant k == 0 ==> s.workers[0].pc.Idle?
      invariant k <= 1 ==> s.workers[1].pc.Idle?
      invariant 1 <= k <= 2 ==> s.workers[0].pc.Ready?
      invariant 2 <= k <= 3 ==> s.workers[1].pc.Ready?
      invariant 3 <= k <= 5 ==> s.workers[0].pc.Holding? && s.workers[0].pc.entry.pos == s0.first
      invariant k == 4 ==> s.workers[1].pc.Holding? && s.workers[1].pc.entry.pos == s0.first + 1
      invariant s.emitted
             == s0.emitted + if k <= 4 then [] else if k == 5 then [s0.first + 1] else [s0.first + 1, s0.first]
      invariant forall step | step in steps :: !step.Append? && !step.Spawn?
    {
      Extend(s0, steps, s, tail[k]);
      s, steps, k := Apply(s, tail[k]), steps + [tail[k]], k + 1;
    }
  }

  /** Two workers need not: whatever the threshold, some run emits position 1 before position 0. */
  lemma TwoWorkersMayReorder<T>(cap: nat, threshold: nat, x: T) returns (steps: seq<Step<T>>, s: State<T>)
    requires threshold < cap
    ensures Exec(Init(cap, threshold), steps) == Some(s)
    ensures |s.workers| == 2 && s.emitted == [1, 0]
  {
    var s0 := Init<T>(cap, threshold);
    s, steps := s0, [];
    while |s.items| <= threshold
      invariant Exec(s0, steps) == Some(s) && s.cap == cap && s.threshold == threshold && |s.items| <= threshold + 1
      invariant s.workers == [] && s.first == 0 && s.emitted == []
    {
      Extend(s0, steps, s, Append(x));
      s, steps := Apply(s, Append(x)), steps + [Append(x)];
    }
    var tail := [Spawn, Spawn, Check(0), Pop(0), Append(x), Check(1), Pop(1), Hand(1), Hand(0)];
    var k := 0;
    while k < 9
      invariant 0 <= k <= 9 && Exec(s0, steps) == Some(s) && s.cap == cap && s.threshold == threshold
      invariant |s.items| == threshold + if k <= 3 || 5 <= k <= 6 then 1 else 0
      invariant s.first == if k <= 3 then 0 else if k <= 6 then 1 else 2
      invariant |s.workers| == if k < 2 then k else 2
      invariant k <= 2 ==> forall v :: 0 <= v < |s.workers| ==> s.workers[v].pc.Idle?
      invariant k == 3 ==> s.workers[0].pc.Ready?
      invariant 3 <= k <= 5 ==> s.workers[1].pc.Idle?
      invariant k == 6 ==> s.workers[1].pc.Ready?
      invariant 4 <= k <= 8 ==> s.workers[0].pc.Holding? && s.workers[0].pc.entry.pos == 0
      invariant k == 7 ==> s.workers[1].pc.Holding? && s.workers[1].pc.entry.pos == 1
      invariant s.emitted == if k < 8 then [] else if k == 8 then [1] else [1, 0]
    {
      Extend(s0, steps, s, tail[k]);
      s, steps, k := Apply(s, tail[k]), steps + [tail[k]], k + 1;
    }
  }

  /** Every run with at most `k` workers emits in stream order. */
  ghost predicate InOrderFor<T(!new)>(cap: nat, threshold: nat, k: nat) {
    forall steps: seq<Step<T>> ::
      var end := Exec(Init(cap, threshold), steps);
      end.Some? && |end.value.workers| <= k ==> Increasing(end.value.emitted)
  }

  /** The global order of emissions is the stream order if and only if there is at most one worker. */
  lemma InOrderExactly<T(!new)>(cap: nat, threshold: nat, k: nat, x: T)
    requires threshold < cap
    ensures InOrderFor<T>(cap, threshold, k) <==> k <= 1
  {
    if k <= 1 {
      forall steps: seq<Step<T>> | Exec(Init(cap, threshold), steps).Some?
                                && |Exec(Init<T>(cap, threshold), steps).value.workers| <= k
        ensures Increasing(Exec(Init<T>(cap, threshold), steps).value.emitted)
      {
        OneWorkerEmitsInOrder(Init(cap, threshold), steps);
      }
    } else {
      var steps, s := TwoWorkersMayReorder(cap, threshold, x);
      assert s.emitted[0] == 1 && s.emitted[1] == 0;
    }
  }

  // -------------------------------------------------------- the safety margin

  predicate Crashed<T>(s: State<T>) {
    exists w :: 0 <= w < |s.workers| && s.workers[w].pc.Dead?
  }

  function ReadyCount<T>(workers: seq<Worker<T>>): nat {
    if workers == [] then 0
    else ReadyCount(workers[..|workers| - 1]) + if workers[|workers| - 1].pc.Ready? then 1 else 0
  }

  lemma {:induction false} ReadyCountUpdate<T>(workers: seq<Worker<T>>, w: nat, x: Worker<T>)
    requires w < |workers|
    ensures ReadyCount(workers[w := x])
         == ReadyCount(workers) - (if workers[w].pc.Ready? then 1 else 0) + if x.pc.Ready? then 1 else 0
  {
    var last := |workers| - 1;
    if w == last {
      assert workers[w := x][..last] == workers[..last];
    } else {
      ReadyCountUpdate(workers[..last], w, x);
      assert workers[w := x][..last] == workers[..last][w := x];
    }
  }

  lemma {:induction false} ReadyCountBound<T>(workers: seq<Worker<T>>)
    ensures ReadyCount(workers) <= |workers|
    ensures (exists w :: 0 <= w < |workers| && !workers[w].pc.Ready?) ==> ReadyCount(workers) < |workers|
  {
    if workers != [] {
      ReadyCountBound(workers[..|workers| - 1]);
      forall w | 0 <= w < |workers| && !workers[w].pc.Ready?
        ensures ReadyCount(workers) < |workers|
      {
        if w < |workers| - 1 {
          assert !workers[..|workers| - 1][w].pc.Ready?;
        }
      }
    }
  }

  /** Every worker past its check has an entry left to pop. */
  predicate Margin<T>(s: State<T>) {
    |s.items| >= ReadyCount(s.workers) && !Crashed(s)
  }

  lemma StepKeepsMargin<T>(s: State<T>, step: Step<T>)
    requires Margin(s) && Enabled(s, step)
    requires |s.workers| <= s.threshold + 1
    ensures Margin(Apply(s, step))
  {
    var s' := Apply(s, step);
    match step
    case Append(_) =>
    case Spawn => assert s'.workers[..|s.workers|] == s.workers;
    case Check(w) =>
      ReadyCountBound(s.workers);
      ReadyCountUpdate(s.workers, w, s'.workers[w]);
      assert s.items == s'.items;
    case Pop(w) => ReadyCountUpdate(s.workers, w, s'.workers[w]);
    case Hand(w) => ReadyCountUpdate(s.workers, w, s'.workers[w]);
  }

  lemma CrewGrows<T>(s: State<T>, step: Step<T>)
    requires Enabled(s, step)
    ensures |s.workers| <= |Apply(s, step).workers| && Apply(s, step).threshold == s.threshold
  {
  }

  /** With at most threshold + 1 workers, no run ever pops an empty deque. */
  lemma {:induction false} FewWorkersNeverCrash<T>(cap: nat, threshold: nat, steps: seq<Step<T>>)
    requires Exec(Init(cap, threshold), steps).Some?
    requires |Exec(Init<T>(cap, threshold), steps).value.workers| <= threshold + 1
    ensures Margin(Exec(Init<T>(cap, threshold), steps).value)
    ensures Exec(Init<T>(cap, threshold), steps).value.threshold == threshold
  {
    if steps != [] {
      FewWorkersNeverCrash(cap, threshold, steps[..|steps| - 1]);
      StepKeepsMargin(Exec(Init(cap, threshold), steps[..|steps| - 1]).value, steps[|steps| - 1]);
    }
  }

  lemma Extend<T>(s: State<T>, steps: seq<Step<T>>, mid: State<T>, step: Step<T>)
    requires Exec(s, steps) == Some(mid) && Enabled(mid, step)
    ensures Exec(s, steps + [step]) == Some(Apply(mid, step))
  {
    assert (steps + [step])[..|steps|] == steps;
  }

  lemma {:induction false} ExecConcat<T>(s: State<T>, a: seq<Step<T>>, b: seq<Step<T>>)
    requires Exec(s, a).Some?
    ensures Exec(s, a + b) == Exec(Exec(s, a).value, b)
  {
    if b == [] {
      assert a + b == a;
    } else {
      ExecConcat(s, a, b[..|b| - 1]);
      assert (a + b)[..|a + b| - 1] == a + b[..|b| - 1];
    }
  }

  predicate AllIdle<T>(workers: seq<Worker<T>>) {
    forall w :: 0 <= w < |workers| ==> workers[w].pc.Idle?
  }

  /** With one entry too few, workers that all check before any of them pops crash. */
  lemma StampedeCrashes<T>(s0: State<T>) returns (steps: seq<Step<T>>, s: State<T>)
    requires |s0.items| == s0.threshold + 1 && |s0.workers| == s0.threshold + 2 && AllIdle(s0.workers)
    ensures Exec(s0, steps) == Some(s) && Crashed(s)
    ensures forall step | step in steps :: step.Check? || step.Pop?
  {
    s, steps := s0, [];
    var w := 0;
    while w < |s0.workers|
      invariant Exec(s0, steps) == Some(s) && s.threshold == s0.threshold && s.items == s0.items
      invariant w <= |s.workers| == |s0.workers|
      invariant forall v :: 0 <= v < |s.workers| ==> if v < w then s.workers[v].pc.Ready? else s.workers[v].pc.Idle?
      invariant forall step | step in steps :: step.Check?
    {
      Extend(s0, steps, s, Check(w));
      s, steps, w := Apply(s, Check(w)), steps + [Check(w)], w + 1;
    }
    w := 0;
    while w < |s0.items|
      invariant Exec(s0, steps) == Some(s) && |s.items| == |s0.items| - w
      invariant w <= |s0.items| && |s.workers| == |s0.workers|
      invariant forall v :: w <= v < |s.workers| ==> s.workers[v].pc.Ready?
      invariant forall step | step in steps :: step.Check? || step.Pop?
    {
      Extend(s0, steps, s, Pop(w));
      s, steps, w := Apply(s, Pop(w)), steps + [Pop(w)], w + 1;
    }
    Extend(s0, steps, s, Pop(w));
    s, steps := Apply(s, Pop(w)), steps + [Pop(w)];
    assert s.workers[w].pc.Dead?;
  }

  /** One worker more, and some run does. */
  lemma TooManyWorkersCrash<T>(cap: nat, threshold: nat, x: T) returns (steps: seq<Step<T>>, s: State<T>)
    requires cap > threshold
    ensures Exec(Init(cap, threshold), steps) == Some(s)
    ensures |s.workers| == threshold + 2 && Crashed(s)
  {
    var s0 := Init<T>(cap, threshold);
    s, steps := s0, [];
    while |s.workers| < threshold + 2
      invariant Exec(s0, steps) == Some(s) && s.cap == cap && s.threshold == threshold && s.items == []
      invariant |s.workers| <= threshold + 2 && AllIdle(s.workers)
    {
      Extend(s0, steps, s, Spawn);
      s, steps := Apply(s, Spawn), steps + [Spawn];
    }
    while |s.items| <= threshold
      invariant Exec(s0, steps) == Some(s) && s.cap == cap && s.threshold == threshold && |s.items| <= threshold + 1
      invariant |s.workers| == threshold + 2 && AllIdle(s.workers)
    {
      Extend(s0, steps, s, Append(x));
      s, steps := Apply(s, Append(x)), steps + [Append(x)];
    }
    var stampede, s' := StampedeCrashes(s);
    ExecConcat(s0, steps, stampede);
    CheckAndPopKeepCrew(s, stampede);
    s, steps := s', steps + stampede;
  }

  /** Checks and pops start no worker. */
  lemma {:induction false} CheckAndPopKeepCrew<T>(s: State<T>, steps: seq<Step<T>>)
    requires Exec(s, steps).Some? && forall step | step in steps :: step.Check? || step.Pop?
    ensures |Exec(s, steps).value.workers| == |s.workers|
  {
    if steps != [] {
      assert steps[|steps| - 1] in steps;
      CheckAndPopKeepCrew(s, steps[..|steps| - 1]);
    }
  }

  /** Runs with at most `k` workers. */
  ghost predicate SafeFor<T(!new)>(cap: nat, threshold: nat, k: nat) {
    forall steps: seq<Step<T>> ::
      var end := Exec(Init(cap, threshold), steps);
      end.Some? && |end.value.workers| <= k ==> !Crashed(end.value)
  }

  /** The margin is exact: the drain is safe for `k` workers if and only if k <= threshold + 1. */
  lemma SafeExactly<T(!new)>(cap: nat, threshold: nat, k: nat, x: T)
    requires cap > threshold
    ensures SafeFor<T>(cap, threshold, k) <==> k <= threshold + 1
  {
    if k <= threshold + 1 {
      forall steps: seq<Step<T>> | Exec(Init(cap, threshold), steps).Some?
                                && |Exec(Init<T>(cap, threshold), steps).value.workers| <= k
        ensures !Crashed(Exec(Init<T>(cap, threshold), steps).value)
      {
        FewWorkersNeverCrash(cap, threshold, steps);
      }
    } else {
      var steps, s := TooManyWorkersCrash(cap, threshold, x);
    }
  }
}
