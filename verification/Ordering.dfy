// In which order records reach the deques. Every batch comes over a connection of its own, read
// by a thread of its own, so two batches of one device can overtake each other and two deques
// can receive the same lines in different orders. This module says exactly when.
module Ordering {
  import opened Wrappers
  import opened KernelRuns
  import opened AuditFormat
  import opened Pipeline
  import opened Completeness
  import C = CheckThenPop

  // ------------------------------------------------ what a connection still owes

  /** The connection can still bring the record at position `p` to the deque. */
  predicate Owes(c: Connection, b: Buffer, p: nat) {
    !c.status.Lost? && Limit(c, b) <= p && c.packet.first <= p < c.packet.last
  }

  /** Connection `i` can still bring a translatable record of device `d` to the deque. */
  predicate OwedBy(s: State, i: nat, b: Buffer, d: nat, p: nat) {
    && i < |s.connections| && s.connections[i].device == d && Owes(s.connections[i], b, p)
    && d < |s.kernels| && p < |s.kernels[d].queue.accepted| && Translate(s.kernels[d].queue.accepted[p]).Some?
  }

  /** Some record of device `d` below position `o` can still reach the deque. */
  predicate Outstanding(s: State, b: Buffer, d: nat, o: nat) {
    exists i, p | 0 <= i < |s.connections| && 0 <= p < o :: OwedBy(s, i, b, d, p)
  }

  /** The entry that a step appends to the deque, if any. */
  function Appends(s: State, step: Pipeline.Step, b: Buffer): Option<Entry>
    requires Pipeline.Enabled(s, step)
  {
    var w := BufferStep(s, step, b);
    if w.Some? && w.value.Append? then Some(w.value.x) else None
  }

  lemma AppendIsOwed(s: State, step: Pipeline.Step, b: Buffer)
    requires Inv(s) && Pipeline.Enabled(s, step) && Appends(s, step, b).Some?
    ensures var e := Appends(s, step, b).value;
            && step == Parse(e.conn) && OwedBy(s, e.conn, b, e.device, e.origin)
            && e.origin == Limit(s.connections[e.conn], b)
            && Get(Pipeline.Apply(s, step), b).stream == Get(s, b).stream + [e]
  {
    var i := step.c;
    var c := s.connections[i];
    assert Hosted(s.kernels, c, i);
    AdvanceKeepsConnection(s.kernels[c.device].queue.accepted, c, i);
    AdvanceLimit(s.kernels[c.device].queue.accepted, c, i, b);
  }

  /** A step that appends nothing leaves the stream alone. */
  lemma NoAppendSameStream(s: State, step: Pipeline.Step, b: Buffer)
    requires Pipeline.Enabled(s, step) && Appends(s, step, b).None?
    ensures Get(Pipeline.Apply(s, step), b).stream == Get(s, b).stream
  {
    var w := BufferStep(s, step, b);
    if w.Some? {
      assert C.Apply(Get(s, b), w.value).stream == Get(s, b).stream;
    }
  }

  lemma OwedIsNotAppended(s: State, i: nat, b: Buffer, d: nat, p: nat)
    requires Inv(s) && OwedBy(s, i, b, d, p)
    ensures !HasEntry(Get(s, b).stream, d, p)
  {
    var stream := Get(s, b).stream;
    assert StreamInv(s.kernels, s.connections, b, stream);
    forall j | 0 <= j < |stream| && stream[j].device == d ensures stream[j].origin != p {
      var e := stream[j];
      assert GoodEntry(s.kernels, s.connections, b, e);
      LimitIsInPacket(s, e.conn, b);
      if e.origin == p {
        OnePacketHolds(s, i, e.conn, p);
      }
    }
  }

  /** A connection that a kernel step opens holds no record that was taken out before. */
  lemma OpenedAreLater(d: nat, k: Kernel, k': Kernel, c: Connection)
    requires Conserved(k) && Conserved(k') && DrainEffect(k, k') && c in NewConnections(d, k, k')
    ensures c.packet.first < c.packet.last ==> c.device == d && TakenCount(k) <= c.packet.first
  {
    NewConnectionIsGood(d, k, k');
    if c !in BatchConnections(d, k, k') {
      assert c in SessionConnections(d, k, k');
    }
  }

  lemma NewPacketsAreLater(s: State, step: Pipeline.Step, i: nat)
    requires Inv(s) && Pipeline.Enabled(s, step) && |s.connections| <= i < |Pipeline.Apply(s, step).connections|
    ensures var c := Pipeline.Apply(s, step).connections[i];
            c.packet.first < c.packet.last ==>
              c.device < |s.kernels| && TakenCount(s.kernels[c.device]) <= c.packet.first
  {
    if step.KernelStep? {
      var k := s.kernels[step.d];
      assert KernelSide(k);
      StepEffect(k, step.e);
      OpenedAreLater(step.d, k, KernelRuns.Step(k, step.e), Pipeline.Apply(s, step).connections[i]);
    }
  }

  /** What is owed after a step was owed before it, unless it was still in the queue. */
  lemma OwedBefore(s: State, step: Pipeline.Step, b: Buffer, i: nat, d: nat, p: nat)
    requires Inv(s) && Pipeline.Enabled(s, step) && d < |s.kernels| && p < TakenCount(s.kernels[d])
    requires OwedBy(Pipeline.Apply(s, step), i, b, d, p)
    ensures OwedBy(s, i, b, d, p)
  {
    var s' := Pipeline.Apply(s, step);
    assert KernelSide(s.kernels[d]);
    KernelsGrow(s, step, d);
    if i < |s.connections| {
      StepGrows(s, step, b);
      assert MovedOn(s.connections[i], s'.connections[i], b);
    } else {
      NewPacketsAreLater(s, step, i);
    }
  }

  lemma OutstandingShrinks(s: State, step: Pipeline.Step, b: Buffer, d: nat, o: nat)
    requires Inv(s) && Pipeline.Enabled(s, step) && d < |s.kernels| && o <= TakenCount(s.kernels[d])
    requires !Outstanding(s, b, d, o)
    ensures !Outstanding(Pipeline.Apply(s, step), b, d, o)
  {
    var s' := Pipeline.Apply(s, step);
    if i, p :| 0 <= i < |s'.connections| && 0 <= p < o && OwedBy(s', i, b, d, p) {
      OwedBefore(s, step, b, i, d, p);
    }
  }

  lemma EntryIsTaken(s: State, b: Buffer, e: Entry)
    requires Inv(s) && GoodEntry(s.kernels, s.connections, b, e)
    ensures e.origin < TakenCount(s.kernels[e.device])
  {
    assert Hosted(s.kernels, s.connections[e.conn], e.conn);
    LimitIsInPacket(s, e.conn, b);
  }

  // --------------------------------------------------------- order of one device

  /** Two entries of one device come in the order in which the device accepted their records. */
  predicate DeviceOrder(e: Entry, f: Entry) {
    e.device == f.device ==> e.origin < f.origin
  }

  predicate Ordered(stream: seq<Entry>) {
    forall i, j :: 0 <= i < j < |stream| ==> DeviceOrder(stream[i], stream[j])
  }

  /** The step appends a record while an earlier one of the same device can still come. */
  predicate Overtakes(s: State, step: Pipeline.Step, b: Buffer)
    requires Pipeline.Enabled(s, step)
  {
    var e := Appends(s, step, b);
    e.Some? && Outstanding(s, b, e.value.device, e.value.origin)
  }

  predicate NeverOvertakes(steps: seq<Pipeline.Step>, b: Buffer)
    requires Exec(START, steps).Some?
  {
    steps != [] ==>
      NeverOvertakes(steps[..|steps| - 1], b) && !Overtakes(End(steps[..|steps| - 1]), steps[|steps| - 1], b)
  }

  /** Nothing that was appended was overtaking. */
  ghost predicate Settled(s: State, b: Buffer) {
    forall e | e in Get(s, b).stream :: !Outstanding(s, b, e.device, e.origin)
  }

  lemma StepKeepsSettled(s: State, step: Pipeline.Step, b: Buffer)
    requires Inv(s) && Pipeline.Enabled(s, step) && Settled(s, b) && !Overtakes(s, step, b)
    ensures Settled(Pipeline.Apply(s, step), b)
  {
    var s', appended := Pipeline.Apply(s, step), Appends(s, step, b);
    forall e | e in Get(s', b).stream ensures !Outstanding(s', b, e.device, e.origin) {
      if appended == Some(e) {
        AppendIsOwed(s, step, b);
        assert Hosted(s.kernels, s.connections[e.conn], e.conn);
      } else {
        if appended.Some? { AppendIsOwed(s, step, b); } else { NoAppendSameStream(s, step, b); }
        assert e in Get(s, b).stream;
        assert StreamInv(s.kernels, s.connections, b, Get(s, b).stream);
        EntryIsTaken(s, b, e);
      }
      OutstandingShrinks(s, step, b, e.device, e.origin);
    }
  }

  lemma StepKeepsOrdered(s: State, step: Pipeline.Step, b: Buffer)
    requires Inv(s) && Pipeline.Enabled(s, step) && Settled(s, b) && Ordered(Get(s, b).stream)
    ensures Ordered(Get(Pipeline.Apply(s, step), b).stream)
  {
    var stream, appended := Get(s, b).stream, Appends(s, step, b);
    if appended.None? {
      NoAppendSameStream(s, step, b);
    } else {
      var e := appended.value;
      AppendIsOwed(s, step, b);
      forall i | 0 <= i < |stream| ensures DeviceOrder(stream[i], e) {
        OwedIsNotAppended(s, e.conn, b, e.device, e.origin);
        assert stream[i] in stream;
        assert stream[i].origin > e.origin ==> Outstanding(s, b, e.device, stream[i].origin);
      }
    }
  }

  /** A run in which no append overtakes keeps every device's records in order at that deque. */
  lemma {:induction false} OrderedUnlessOvertaken(steps: seq<Pipeline.Step>, b: Buffer)
    requires CleanRun(steps) && NeverOvertakes(steps, b)
    ensures Ordered(Get(End(steps), b).stream) && Settled(End(steps), b)
  {
    if steps != [] {
      var init, step := steps[..|steps| - 1], steps[|steps| - 1];
      OrderedUnlessOvertaken(init, b);
      RunKeepsInv(init);
      StepKeepsOrdered(End(init), step, b);
      StepKeepsSettled(End(init), step, b);
    }
  }

  /** Entries that a worker took, per device in accepted order. */
  predicate InDeviceOrder(entries: seq<C.Placed<Entry>>) {
    forall i, j :: 0 <= i < j < |entries| ==> DeviceOrder(entries[i].item, entries[j].item)
  }

  /** The order half of the joining theorem: what a worker or client got is per device in accepted order. */
  lemma EndToEndOrder(steps: seq<Pipeline.Step>, b: Buffer, w: nat)
    requires CleanRun(steps) && NeverOvertakes(steps, b) && w < |Get(End(steps), b).workers|
    ensures InDeviceOrder(C.Owned(Get(End(steps), b).workers[w]))
  {
    OrderedUnlessOvertaken(steps, b);
    RunKeepsInv(steps);
    var q := Get(End(steps), b);
    assert C.Inv(q) && C.WorkerInv(q, q.workers[w]);
    var own := C.Owned(q.workers[w]);
    forall i, j | 0 <= i < j < |own| ensures DeviceOrder(own[i].item, own[j].item) {
      assert own[i].item == q.stream[own[i].pos] && own[j].item == q.stream[own[j].pos];
    }
  }

  // --------------------------------------------------- what is owed can be paid

  /** The next step of connection `k` towards its deques. */
  function NextStep(s: State, k: nat): Pipeline.Step
    requires k < |s.connections|
  {
    if s.served <= k then Accept else if s.connections[k].status.Waiting? then Receive(k) else Parse(k)
  }

  function LinesLeft(c: Connection): int {
    3 * |c.lines| + if c.stage == 0 then 0 else 3 - c.stage
  }

  function WaitingLeft(c: Connection): nat {
    if c.status.Waiting? then 1 else 0
  }

  /** The step touched only connection `k` and the deques. */
  predicate OnlyMoves(s: State, s': State, k: nat) {
    && s'.kernels == s.kernels && |s'.connections| == |s.connections|
    && (forall i :: 0 <= i < |s.connections| && i != k ==> s'.connections[i] == s.connections[i])
  }

  lemma NextStepIsEnabled(s: State, k: nat, b: Buffer, p: nat)
    requires Inv(s) && C.Inv(s.file) && C.Inv(s.heartbeat) && C.Inv(s.spade)
    requires k < |s.connections| && Owes(s.connections[k], b, p)
    ensures Pipeline.Enabled(s, NextStep(s, k))
  {
    assert Hosted(s.kernels, s.connections[k], k);
  }

  /** Connection `k` has come nearer to its end. */
  predicate Nearer(s: State, s': State, k: nat)
    requires k < |s.connections| == |s'.connections|
  {
    var c, c' := s.connections[k], s'.connections[k];
    || s.served < s'.served <= |s.connections|
    || (s'.served == s.served && WaitingLeft(c') < WaitingLeft(c))
    || (s'.served == s.served && WaitingLeft(c') == WaitingLeft(c) && 0 <= LinesLeft(c') < LinesLeft(c))
  }

  lemma NextStepMoves(s: State, k: nat)
    requires ConnectionsInv(s.kernels, s.connections) && k < |s.connections| && Pipeline.Enabled(s, NextStep(s, k))
    ensures var s' := Pipeline.Apply(s, NextStep(s, k));
            && OnlyMoves(s, s', k) && Nearer(s, s', k)
            && (s'.connections[k].status.Lost? ==> s.connections[k].status.Lost?)
  {
    if NextStep(s, k).Parse? {
      assert Hosted(s.kernels, s.connections[k], k);
      ParseEffect(s, k, File);
    }
  }

  /** When the connection no longer owes the record, the deque has it. */
  lemma PaidIsAppended(steps: seq<Pipeline.Step>, k: nat, b: Buffer, p: nat)
    requires CleanRun(steps) && k < |End(steps).connections|
    requires var s, c := End(steps), End(steps).connections[k];
             && c.device < |s.kernels| && p < |s.kernels[c.device].queue.accepted|
             && Translate(s.kernels[c.device].queue.accepted[p]).Some?
             && c.packet.first <= p < c.packet.last && !c.status.Lost? && !Owes(c, b, p)
    ensures HasEntry(Get(End(steps), b).stream, End(steps).connections[k].device, p)
  {
    RunIsComplete(steps);
    assert Appended(End(steps), k, b);
  }

  /** The step moved connection `k`, and no other, nearer to its end without losing its packet. */
  predicate PaysOn(s: State, s': State, k: nat, b: Buffer) {
    && k < |s.connections| && OnlyMoves(s, s', k) && Nearer(s, s', k) && Get(s, b).stream <= Get(s', b).stream
    && s'.connections[k].device == s.connections[k].device && s'.connections[k].packet == s.connections[k].packet
    && !s'.connections[k].status.Lost?
  }

  /** One step towards paying what is owed. */
  lemma PayStep(steps: seq<Pipeline.Step>, k: nat, b: Buffer, d: nat, p: nat) returns (steps': seq<Pipeline.Step>)
    requires CleanRun(steps) && OwedBy(End(steps), k, b, d, p)
    ensures |steps'| == |steps| + 1 && steps <= steps' && CleanRun(steps') && PaysOn(End(steps), End(steps'), k, b)
  {
    RunKeepsInv(steps);
    var s := End(steps);
    var step := NextStep(s, k);
    assert C.Inv(Get(s, File)) && C.Inv(Get(s, Heartbeat)) && C.Inv(Get(s, Spade));
    NextStepIsEnabled(s, k, b, p);
    NextStepMoves(s, k);
    StepGrows(s, step, b);
    assert MovedOn(s.connections[k], Pipeline.Apply(s, step).connections[k], b);
    steps' := Do(steps, step);
  }

  /** Only connection `k` moved, and the record has come to the deque. */
  predicate Paid(s: State, s': State, k: nat, b: Buffer, d: nat, p: nat) {
    OnlyMoves(s, s', k) && Get(s, b).stream <= Get(s', b).stream && HasEntry(Get(s', b).stream, d, p)
  }

  lemma PaidLast(s: State, mid: State, s': State, k: nat, b: Buffer, d: nat, p: nat)
    requires PaysOn(s, mid, k, b) && Paid(mid, s', k, b, d, p)
    ensures Paid(s, s', k, b, d, p)
  {
  }

  lemma PaidNow(steps: seq<Pipeline.Step>, s: State, k: nat, b: Buffer, d: nat, p: nat)
    requires CleanRun(steps) && OwedBy(s, k, b, d, p) && PaysOn(s, End(steps), k, b)
    requires !Owes(End(steps).connections[k], b, p)
    ensures Paid(s, End(steps), k, b, d, p)
  {
    PaidIsAppended(steps, k, b, p);
  }

  /** How far the connection is from its end. */
  datatype Distance = Distance(unserved: int, waiting: nat, lines: int)

  function DistanceOf(s: State, k: nat): Distance
    requires k < |s.connections|
  {
    Distance(|s.connections| - s.served, WaitingLeft(s.connections[k]), LinesLeft(s.connections[k]))
  }

  /** What a connection owes to a deque some continuation brings there, moving that connection alone. */
  lemma {:induction false} CanBePaidFrom(steps: seq<Pipeline.Step>, k: nat, b: Buffer, d: nat, p: nat, left: Distance)
    returns (steps': seq<Pipeline.Step>)
    requires CleanRun(steps) && OwedBy(End(steps), k, b, d, p) && left == DistanceOf(End(steps), k)
    ensures CleanRun(steps') && steps <= steps' && Paid(End(steps), End(steps'), k, b, d, p)
    decreases left.unserved, left.waiting, left.lines
  {
    steps' := PayStep(steps, k, b, d, p);
    var mid := End(steps');
    if Owes(mid.connections[k], b, p) {
      steps' := CanBePaidFrom(steps', k, b, d, p, DistanceOf(mid, k));
      PaidLast(End(steps), mid, End(steps'), k, b, d, p);
    } else {
      PaidNow(steps', End(steps), k, b, d, p);
    }
  }

  lemma CanBePaid(steps: seq<Pipeline.Step>, k: nat, b: Buffer, d: nat, p: nat) returns (more: seq<Pipeline.Step>)
    requires CleanRun(steps) && OwedBy(End(steps), k, b, d, p)
    ensures CleanRun(steps + more) && Paid(End(steps), End(steps + more), k, b, d, p)
  {
    var steps' := CanBePaidFrom(steps, k, b, d, p, DistanceOf(End(steps), k));
    more := steps'[|steps|..];
    assert steps + more == steps';
  }

  // ---------------------------------------------- exactly when order is at risk

  /** Some later entry of the stream is an earlier record of the same device. */
  predicate FollowedByEarlier(stream: seq<Entry>, at: nat) {
    exists j | at < j < |stream| :: stream[j].device == stream[at].device && stream[j].origin < stream[at].origin
  }

  /** Once nothing below `o` is outstanding, nothing below `o` follows. */
  lemma {:induction false} NothingEarlierFollows(steps: seq<Pipeline.Step>, more: seq<Pipeline.Step>, b: Buffer,
      d: nat, o: nat)
    requires CleanRun(steps + more) && CleanRun(steps)
    requires d < |End(steps).kernels| && o <= TakenCount(End(steps).kernels[d]) && !Outstanding(End(steps), b, d, o)
    ensures var s, s' := End(steps), End(steps + more);
            && d < |s'.kernels| && o <= TakenCount(s'.kernels[d]) && !Outstanding(s', b, d, o)
            && Get(s, b).stream <= Get(s', b).stream
            && (forall j :: |Get(s, b).stream| <= j < |Get(s', b).stream| && Get(s', b).stream[j].device == d ==>
               Get(s', b).stream[j].origin >= o)
  {
    if more == [] {
      assert steps + more == steps;
    } else {
      var init, step := more[..|more| - 1], more[|more| - 1];
      var all := steps + more;
      assert all == (steps + init) + [step] && all[..|all| - 1] == steps + init;
      CleanPrefix(steps + init, [step]);
      NothingEarlierFollows(steps, init, b, d, o);
      RunKeepsInv(steps + init);
      LastStepBringsNothingEarlier(End(steps + init), step, b, d, o);
    }
  }

  lemma LastStepBringsNothingEarlier(s: State, step: Pipeline.Step, b: Buffer, d: nat, o: nat)
    requires Inv(s) && Pipeline.Enabled(s, step)
    requires d < |s.kernels| && o <= TakenCount(s.kernels[d]) && !Outstanding(s, b, d, o)
    ensures var s' := Pipeline.Apply(s, step);
            && d < |s'.kernels| && o <= TakenCount(s'.kernels[d]) && !Outstanding(s', b, d, o)
            && Get(s, b).stream <= Get(s', b).stream <= Get(s, b).stream + Get(s', b).stream[|Get(s, b).stream|..]
            && (forall j :: |Get(s, b).stream| <= j < |Get(s', b).stream| && Get(s', b).stream[j].device == d ==>
               Get(s', b).stream[j].origin >= o)
  {
    assert KernelSide(s.kernels[d]);
    KernelsGrow(s, step, d);
    OutstandingShrinks(s, step, b, d, o);
    if Appends(s, step, b).Some? {
      AppendIsOwed(s, step, b);
    } else {
      NoAppendSameStream(s, step, b);
    }
  }

  /** Some continuation of the run brings an earlier record of the device behind the entry at `at`. */
  ghost predicate MayBeFollowed(steps: seq<Pipeline.Step>, b: Buffer, at: nat) {
    exists more: seq<Pipeline.Step> :: CleanRun(steps + more) && at < |Get(End(steps + more), b).stream|
                                       && FollowedByEarlier(Get(End(steps + more), b).stream, at)
  }

  /**
   * Per-device order, exactly: in any reachable state, the entry that a thread appends to a
   * deque can later be followed by an earlier record of its device if and only if, at that
   * moment, another connection can still bring such a record.
   */
  lemma OvertakenExactly(steps: seq<Pipeline.Step>, step: Pipeline.Step, b: Buffer)
    requires CleanRun(steps + [step]) && CleanRun(steps) && Pipeline.Enabled(End(steps), step)
    requires Appends(End(steps), step, b).Some?
    ensures MayBeFollowed(steps + [step], b, |Get(End(steps), b).stream|) <==> Overtakes(End(steps), step, b)
  {
    var s, e := End(steps), Appends(End(steps), step, b).value;
    var steps' := steps + [step];
    assert steps'[..|steps|] == steps;
    RunKeepsInv(steps);
    AppendIsOwed(s, step, b);
    if Overtakes(s, step, b) {
      OvertakenIsFollowed(steps, step, b);
    } else {
      NotOvertakenIsNotFollowed(steps, step, b);
    }
  }

  /** An append leaves what other connections owe as it is. */
  lemma AppendLeavesOthersOwing(s: State, step: Pipeline.Step, b: Buffer, i: nat, d: nat, p: nat)
    requires Inv(s) && Pipeline.Enabled(s, step) && Appends(s, step, b).Some?
    requires OwedBy(s, i, b, d, p) && i != Appends(s, step, b).value.conn
    ensures OwedBy(Pipeline.Apply(s, step), i, b, d, p)
  {
    AppendIsOwed(s, step, b);
    ParseEffect(s, step.c, b);
  }

  /** What is still owed comes behind everything appended so far. */
  lemma PaidLater(steps: seq<Pipeline.Step>, k: nat, b: Buffer, d: nat, p: nat)
    returns (more: seq<Pipeline.Step>, j: nat)
    requires CleanRun(steps) && OwedBy(End(steps), k, b, d, p)
    ensures CleanRun(steps + more) && OnlyMoves(End(steps), End(steps + more), k)
    ensures Get(End(steps), b).stream <= Get(End(steps + more), b).stream
    ensures |Get(End(steps), b).stream| <= j && IsAt(Get(End(steps + more), b).stream, j, d, p)
  {
    RunKeepsInv(steps);
    OwedIsNotAppended(End(steps), k, b, d, p);
    more := CanBePaid(steps, k, b, d, p);
    var before, stream := Get(End(steps), b).stream, Get(End(steps + more), b).stream;
    j :| j < |stream| && stream[j].device == d && stream[j].origin == p;
    assert before == stream[..|before|];
  }

  lemma OvertakenIsFollowed(steps: seq<Pipeline.Step>, step: Pipeline.Step, b: Buffer)
    requires CleanRun(steps + [step]) && CleanRun(steps) && Pipeline.Enabled(End(steps), step)
    requires Overtakes(End(steps), step, b)
    ensures MayBeFollowed(steps + [step], b, |Get(End(steps), b).stream|)
  {
    var s, e, steps' := End(steps), Appends(End(steps), step, b).value, steps + [step];
    assert steps'[..|steps|] == steps;
    RunKeepsInv(steps);
    AppendIsOwed(s, step, b);
    var i, p :| 0 <= i < |s.connections| && 0 <= p < e.origin && OwedBy(s, i, b, e.device, p);
    AppendLeavesOthersOwing(s, step, b, i, e.device, p);
    var more, j := PaidLater(steps', i, b, e.device, p);
    var stream, at := Get(End(steps' + more), b).stream, |Get(s, b).stream|;
    assert stream[at] == e;
    assert FollowedByEarlier(stream, at);
  }

  lemma NotOvertakenIsNotFollowed(steps: seq<Pipeline.Step>, step: Pipeline.Step, b: Buffer)
    requires CleanRun(steps + [step]) && CleanRun(steps) && Pipeline.Enabled(End(steps), step)
    requires Appends(End(steps), step, b).Some? && !Overtakes(End(steps), step, b)
    ensures !MayBeFollowed(steps + [step], b, |Get(End(steps), b).stream|)
  {
    var s, e, steps' := End(steps), Appends(End(steps), step, b).value, steps + [step];
    var at := |Get(s, b).stream|;
    assert steps'[..|steps|] == steps;
    RunKeepsInv(steps);
    AppendIsOwed(s, step, b);
    assert Hosted(s.kernels, s.connections[e.conn], e.conn);
    LastStepBringsNothingEarlier(s, step, b, e.device, e.origin);
    forall more: seq<Pipeline.Step> | CleanRun(steps' + more) && at < |Get(End(steps' + more), b).stream|
      ensures !FollowedByEarlier(Get(End(steps' + more), b).stream, at)
    {
      NothingEarlierFollows(steps', more, b, e.device, e.origin);
      assert Get(End(steps' + more), b).stream[at] == e;
    }
  }

  // ---------------------------------------------- exactly when two deques differ

  /** The connection has a line in hand that the deque is yet to get. */
  predicate HoldsLineFor(c: Connection, b: Buffer) {
    Limit(c, b) < c.next
  }

  predicate SomeoneHoldsLine(s: State, b: Buffer) {
    exists k | 0 <= k < |s.connections| :: HoldsLineFor(s.connections[k], b)
  }

  /** The lines at places y < x of one stream are at places v > u of the other. */
  predicate Swapped(p: seq<Entry>, q: seq<Entry>, y: int, x: int, u: int, v: int) {
    0 <= y < x < |p| && 0 <= u < v < |q| && SameRecord(p[y], q[v]) && SameRecord(p[x], q[u])
  }

  /** Some line before place `x` of the file deque's stream comes behind the line at `x` in the other one. */
  ghost predicate SwappedBehind(s: State, b: Buffer, x: nat) {
    exists y, u, v :: Swapped(s.file.stream, Get(s, b).stream, y, x, u, v)
  }

  ghost predicate MayBeSwapped(steps: seq<Pipeline.Step>, b: Buffer, x: nat) {
    exists more: seq<Pipeline.Step> :: CleanRun(steps + more) && SwappedBehind(End(steps + more), b, x)
  }

  /** The thread is about to take up a line that translates. */
  predicate AtLine(c: Connection) {
    c.status.Received? && c.stage == 0 && c.lines != [] && Translate(c.lines[0]).Some?
  }

  /** The line that a thread is about to take up is owed to every deque. */
  lemma AtLineOwes(s: State, i: nat, b: Buffer)
    requires Inv(s) && i < |s.connections| && AtLine(s.connections[i])
    ensures OwedBy(s, i, b, s.connections[i].device, s.connections[i].next)
  {
    var c := s.connections[i];
    assert Hosted(s.kernels, c, i);
    assert c.lines[0] == s.kernels[c.device].queue.accepted[c.next];
  }

  /** Taking up a line: the file deque gets it at once, the other deques are owed it. */
  lemma StartLine(s: State, i: nat, b: Buffer)
    requires Inv(s) && Pipeline.Enabled(s, Parse(i)) && AtLine(s.connections[i]) && b != File
    ensures var s', c := Pipeline.Apply(s, Parse(i)), s.connections[i];
            && |s'.file.stream| == |s.file.stream| + 1 && s.file.stream <= s'.file.stream
            && s'.file.stream[|s.file.stream|].device == c.device && s'.file.stream[|s.file.stream|].origin == c.next
            && Get(s', b).stream == Get(s, b).stream
            && OwedBy(s, i, b, c.device, c.next) && OwedBy(s', i, b, c.device, c.next)
            && OnlyMoves(s, s', i)
  {
    var c := s.connections[i];
    assert Hosted(s.kernels, c, i);
    AdvanceKeepsConnection(s.kernels[c.device].queue.accepted, c, i);
    ParseEffect(s, i, File);
    ParseEffect(s, i, b);
    AtLineOwes(s, i, b);
  }

  /** A line in hand is in the file deque's stream and owed to the other deque. */
  lemma LineInHand(steps: seq<Pipeline.Step>, k: nat, b: Buffer) returns (y: nat)
    requires CleanRun(steps) && k < |End(steps).connections| && HoldsLineFor(End(steps).connections[k], b)
    ensures var s, c := End(steps), End(steps).connections[k];
            IsAt(s.file.stream, y, c.device, c.current.origin) && OwedBy(s, k, b, c.device, c.current.origin)
  {
    RunKeepsInv(steps);
    RunIsComplete(steps);
    var s, c := End(steps), End(steps).connections[k];
    assert Hosted(s.kernels, c, k) && Appended(s, k, File);
    assert Translate(s.kernels[c.device].queue.accepted[c.current.origin]).Some?;
    var p := c.current.origin;
    assert HasEntry(Get(s, File).stream, c.device, p);
    y :| y < |s.file.stream| && s.file.stream[y].device == c.device && s.file.stream[y].origin == p;
  }

  /** Of two connections that owe a record each, either can pay first. */
  lemma PaidInTurn(steps: seq<Pipeline.Step>, i: nat, p: nat, k: nat, r: nat, b: Buffer)
    returns (more: seq<Pipeline.Step>, u: nat, v: nat)
    requires CleanRun(steps) && i < |End(steps).connections| && k < |End(steps).connections| && i != k
    requires OwedBy(End(steps), i, b, End(steps).connections[i].device, p)
    requires OwedBy(End(steps), k, b, End(steps).connections[k].device, r)
    ensures CleanRun(steps + more) && u < v
    ensures End(steps + more).kernels == End(steps).kernels
    ensures |End(steps + more).connections| == |End(steps).connections|
    ensures var s, stream := End(steps), Get(End(steps + more), b).stream;
            IsAt(stream, u, s.connections[i].device, p) && IsAt(stream, v, s.connections[k].device, r)
  {
    var s := End(steps);
    var first, j := PaidLater(steps, i, b, s.connections[i].device, p);
    var steps2 := steps + first;
    StillOwed(s, End(steps2), i, k, b, r);
    var rest, l := PaidLater(steps2, k, b, s.connections[k].device, r);
    more, u, v := first + rest, j, l;
    assert steps2 + rest == steps + more;
  }

  /** While another thread holds a line, a line taken up now can reach the other deque first. */
  lemma HeldLineMaySwap(steps: seq<Pipeline.Step>, i: nat, k: nat, b: Buffer) returns (more: seq<Pipeline.Step>)
    requires CleanRun(steps) && Pipeline.Enabled(End(steps), Parse(i)) && AtLine(End(steps).connections[i]) && b != File
    requires k < |End(steps).connections| && HoldsLineFor(End(steps).connections[k], b)
    requires CleanRun(steps + [Parse(i)]) && End(steps + [Parse(i)]) == Pipeline.Apply(End(steps), Parse(i))
    ensures CleanRun(steps + [Parse(i)] + more)
    ensures |End(steps + [Parse(i)] + more).connections| == |End(steps).connections|
    ensures SwappedBehind(End(steps + [Parse(i)] + more), b, |End(steps).file.stream|)
  {
    var s, steps1 := End(steps), steps + [Parse(i)];
    RunKeepsInv(steps);
    var y := LineInHand(steps, k, b);
    StartLine(s, i, b);
    StillOwed(s, End(steps1), i, k, b, s.connections[k].current.origin);
    var rest, u, v := PaidInTurn(steps1, i, s.connections[i].next, k, s.connections[k].current.origin, b);
    more := rest;
    StreamsGrow(steps1, more);
    assert Get(End(steps1), File).stream <= Get(End(steps1 + more), File).stream;
    assert Swapped(End(steps1 + more).file.stream, Get(End(steps1 + more), b).stream, y, |s.file.stream|, u, v);
    assert SwappedBehind(End(steps1 + more), b, |s.file.stream|);
  }

  lemma StillOwed(s: State, s': State, i: nat, k: nat, b: Buffer, p: nat)
    requires k < |s.connections| && i != k && OnlyMoves(s, s', i)
    requires OwedBy(s, k, b, s.connections[k].device, p)
    ensures OwedBy(s', k, b, s.connections[k].device, p)
  {
    assert s'.connections[k] == s.connections[k];
  }

  lemma {:induction false} StreamsGrow(steps: seq<Pipeline.Step>, more: seq<Pipeline.Step>)
    requires CleanRun(steps) && CleanRun(steps + more)
    ensures forall b :: Get(End(steps), b).stream <= Get(End(steps + more), b).stream
  {
    if more == [] {
      assert steps + more == steps;
    } else {
      var init, step := more[..|more| - 1], more[|more| - 1];
      var all := steps + more;
      assert all == (steps + init) + [step] && all[..|all| - 1] == steps + init;
      CleanPrefix(steps + init, [step]);
      StreamsGrow(steps, init);
      RunKeepsInv(steps + init);
      forall b ensures Get(End(steps), b).stream <= Get(End(all), b).stream {
        StepGrows(End(steps + init), step, b);
      }
    }
  }

  predicate NoneTwice(stream: seq<Entry>) {
    forall i, j :: 0 <= i < j < |stream| ==> !SameRecord(stream[i], stream[j])
  }

  /** A line that comes to a stream which has all lines before it already is not swapped with any of them. */
  lemma ComesBehind(p: seq<Entry>, before: seq<Entry>, q: seq<Entry>, x: nat)
    requires before <= q && NoneTwice(q) && x < |p|
    requires forall y :: 0 <= y < x ==> HasEntry(before, p[y].device, p[y].origin)
    requires !HasEntry(before, p[x].device, p[x].origin)
    ensures forall y, u, v :: !Swapped(p, q, y, x, u, v)
  {
    forall y, u, v ensures !Swapped(p, q, y, x, u, v) {
      if 0 <= y < x && 0 <= u < v < |q| {
        var w :| 0 <= w < |before| && before[w].device == p[y].device && before[w].origin == p[y].origin;
        assert q[w] == before[w];
        assert u < |before| ==> q[u] == before[u] && !SameRecord(p[x], q[u]);
      }
    }
  }

  /** Lines taken up while no line is in hand are never swapped with what came before them. */
  lemma FreeLineNeverSwaps(steps: seq<Pipeline.Step>, i: nat, b: Buffer, more: seq<Pipeline.Step>)
    requires CleanRun(steps) && Pipeline.Enabled(End(steps), Parse(i)) && AtLine(End(steps).connections[i]) && b != File
    requires CleanRun(steps + [Parse(i)]) && End(steps + [Parse(i)]) == Pipeline.Apply(End(steps), Parse(i))
    requires CleanRun(steps + [Parse(i)] + more)
    requires !SomeoneHoldsLine(End(steps), b)
    ensures !SwappedBehind(End(steps + [Parse(i)] + more), b, |End(steps).file.stream|)
  {
    var s, steps1 := End(steps), steps + [Parse(i)];
    var s', x, before := End(steps1 + more), |End(steps).file.stream|, Get(End(steps), b).stream;
    RunKeepsInv(steps);
    StartLine(s, i, b);
    StreamsGrow(steps1, more);
    assert Get(End(steps1), File).stream <= Get(s', File).stream && before <= Get(s', b).stream;
    OwedIsNotAppended(s, i, b, s.connections[i].device, s.connections[i].next);
    NoRecordAppendedTwice(steps1 + more, b);
    InBothStreams(steps, b);
    ComesBehind(s'.file.stream, before, Get(s', b).stream, x);
  }

  lemma NoRecordAppendedTwice(steps: seq<Pipeline.Step>, b: Buffer)
    requires CleanRun(steps)
    ensures NoneTwice(Get(End(steps), b).stream)
  {
    RunKeepsInv(steps);
    var stream := Get(End(steps), b).stream;
    forall i, j | 0 <= i < j < |stream| ensures !SameRecord(stream[i], stream[j]) {
      StreamIsUnique(End(steps), b, i, j);
    }
  }

  /** With no line in hand, every line of the file deque's stream is in the other one. */
  lemma InBothStreams(steps: seq<Pipeline.Step>, b: Buffer)
    requires CleanRun(steps) && !SomeoneHoldsLine(End(steps), b)
    ensures forall e | e in End(steps).file.stream :: HasEntry(Get(End(steps), b).stream, e.device, e.origin)
  {
    RunKeepsInv(steps);
    RunIsComplete(steps);
    var s := End(steps);
    assert StreamInv(s.kernels, s.connections, File, Get(s, File).stream);
    forall e | e in s.file.stream ensures HasEntry(Get(s, b).stream, e.device, e.origin) {
      assert GoodEntry(s.kernels, s.connections, File, e);
      assert Appended(s, e.conn, b) && !HoldsLineFor(s.connections[e.conn], b);
    }
  }

  /**
   * One common order, exactly: a line that a thread takes up can end up, in another deque,
   * before a line that precedes it in the file deque if and only if, when it is taken up, some
   * thread holds a line that this other deque has not got yet.
   */
  lemma SwappedExactly(steps: seq<Pipeline.Step>, i: nat, b: Buffer)
    requires CleanRun(steps) && Pipeline.Enabled(End(steps), Parse(i)) && AtLine(End(steps).connections[i]) && b != File
    ensures MayBeSwapped(steps + [Parse(i)], b, |End(steps).file.stream|) <==> SomeoneHoldsLine(End(steps), b)
  {
    var steps1 := Do(steps, Parse(i));
    if SomeoneHoldsLine(End(steps), b) {
      var k :| 0 <= k < |End(steps).connections| && HoldsLineFor(End(steps).connections[k], b);
      var more := HeldLineMaySwap(steps, i, k, b);
    } else {
      forall more: seq<Pipeline.Step> | CleanRun(steps1 + more)
        ensures !SwappedBehind(End(steps1 + more), b, |End(steps).file.stream|)
      {
        FreeLineNeverSwaps(steps, i, b, more);
      }
    }
  }
}
