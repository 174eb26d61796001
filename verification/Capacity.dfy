// Room in the receiver's deques for the kernels' batches: the batch bound of the kernel side
// carried through framing and parsing to the capacities of the deques.
module Capacity {
  import opened KernelSpec
  import opened KernelRuns
  import opened Pipeline
  import C = CheckThenPop

  /** Runs that offer only records of at least 20 bytes. */
  ghost predicate LongRun(steps: seq<Pipeline.Step>) {
    forall i :: 0 <= i < |steps| && steps[i].KernelStep? ==> Offers(steps[i].e, AtLeast20)
  }

  predicate Small(c: Connection) {
    c.packet.last - c.packet.first <= 477
  }

  predicate SmallPackets(cs: seq<Connection>) {
    forall i :: 0 <= i < |cs| ==> Small(cs[i])
  }

  predicate LosslessKernels(kernels: seq<Kernel>) {
    forall d :: 0 <= d < |kernels| ==> Lossless(kernels[d])
  }

  /** No device lost a record in its kernel, and every packet holds at most 477 records. */
  predicate AllSmall(s: State) {
    LosslessKernels(s.kernels) && SmallPackets(s.connections)
  }

  lemma NewConnectionIsSmall(d: nat, k: Kernel, k': Kernel)
    requires DrainEffect(k, k') && Lossless(k')
    ensures forall c | c in NewConnections(d, k, k') :: Small(c)
  {
    if BatchConnections(d, k, k') != [] {
      assert SafeDrain(k'.sent[|k'.sent| - 1]);
    }
  }

  lemma KernelMoveKeepsSmall(s: State, d: nat, k: Kernel)
    requires AllSmall(s) && d < |s.kernels| && DrainEffect(s.kernels[d], k) && Lossless(k)
    ensures AllSmall(KernelMove(s, d, k))
  {
    NewConnectionIsSmall(d, s.kernels[d], k);
  }

  lemma KernelStepKeepsSmall(s: State, d: nat, e: Event)
    requires AllSmall(s) && d < |s.kernels| && SessionInv(s.kernels[d]) && Offers(e, AtLeast20)
    ensures AllSmall(Pipeline.Apply(s, KernelStep(d, e)))
  {
    StepLossless(s.kernels[d], e);
    StepEffect(s.kernels[d], e);
    KernelMoveKeepsSmall(s, d, KernelRuns.Step(s.kernels[d], e));
  }

  lemma UpdateKeepsSmall(cs: seq<Connection>, i: nat, c: Connection)
    requires SmallPackets(cs) && i < |cs| && c.packet == cs[i].packet
    ensures SmallPackets(cs[i := c])
  {
  }

  /** Steps that change no kernel and open at most empty connections. */
  lemma OtherKeepsSmall(s: State, step: Pipeline.Step)
    requires AllSmall(s) && Pipeline.Enabled(s, step) && !step.KernelStep?
    ensures AllSmall(Pipeline.Apply(s, step))
  {
    match step
    case Receive(i) => UpdateKeepsSmall(s.connections, i, Read(s.connections[i]));
    case Lose(i) => UpdateKeepsSmall(s.connections, i, s.connections[i].(status := Lost));
    case Parse(i) =>
      UpdateKeepsSmall(s.connections, i, Advance(s.connections[i], i).0);
      ParseEffect(s, i, File);
    case _ =>
  }

  lemma {:induction false} PacketsStaySmall(steps: seq<Pipeline.Step>)
    requires CleanRun(steps) && LongRun(steps)
    ensures AllSmall(End(steps))
  {
    if steps != [] {
      var init, step := steps[..|steps| - 1], steps[|steps| - 1];
      PacketsStaySmall(init);
      RunKeepsInv(init);
      if step.KernelStep? {
        assert KernelSide(End(init).kernels[step.d]);
        KernelStepKeepsSmall(End(init), step.d, step.e);
      } else {
        OtherKeepsSmall(End(init), step);
      }
    }
  }

  // -------------------------------------------------------------------- load

  /** Lines of one connection that a deque has yet to get. */
  function Backlog(c: Connection, b: Buffer): nat {
    |c.lines|
    + match b
      case File => 0
      case Heartbeat => if c.stage == 1 then 1 else 0
      case Spade => if c.stage > 0 then 1 else 0
  }

  function TotalBacklog(cs: seq<Connection>, b: Buffer): nat {
    if cs == [] then 0 else TotalBacklog(cs[..|cs| - 1], b) + Backlog(cs[|cs| - 1], b)
  }

  lemma {:induction false} BacklogUpdate(cs: seq<Connection>, i: nat, c: Connection, b: Buffer)
    requires i < |cs|
    ensures TotalBacklog(cs[i := c], b) == TotalBacklog(cs, b) - Backlog(cs[i], b) + Backlog(c, b)
    ensures TotalBacklog(cs, b) >= Backlog(cs[i], b)
  {
    var last := |cs| - 1;
    if i == last {
      assert cs[i := c][..last] == cs[..last];
    } else {
      BacklogUpdate(cs[..last], i, c, b);
      assert cs[i := c][..last] == cs[..last][i := c];
    }
  }

  lemma BacklogSnoc(cs: seq<Connection>, c: Connection, b: Buffer)
    ensures TotalBacklog(cs + [c], b) == TotalBacklog(cs, b) + Backlog(c, b)
  {
    assert (cs + [c])[..|cs|] == cs;
  }

  /** A connection that nobody has read adds nothing. */
  lemma IdleBacklog(cs: seq<Connection>, added: seq<Connection>, b: Buffer)
    requires |added| <= 1 && forall c | c in added :: c == Fresh(c.device, c.packet)
    ensures TotalBacklog(cs + added, b) == TotalBacklog(cs, b)
  {
    if added == [] {
      assert cs + added == cs;
    } else {
      assert added[0] in added && added == [added[0]];
      BacklogSnoc(cs, added[0], b);
    }
  }

  /** Entries in the deque and lines still on their way to it. */
  function Load(s: State, b: Buffer): nat {
    |Get(s, b).items| + TotalBacklog(s.connections, b)
  }

  function Receives(steps: seq<Pipeline.Step>): nat {
    if steps == [] then 0
    else Receives(steps[..|steps| - 1]) + if steps[|steps| - 1].Receive? then 1 else 0
  }

  /** From `s` to `s'` the load of the deque grew by at most `extra`, and nothing was lost. */
  predicate LoadGrows(s: State, s': State, b: Buffer, extra: nat) {
    && Load(s', b) <= Load(s, b) + extra
    && Get(s', b).cap == Get(s, b).cap
    && Get(s', b).lost == Get(s, b).lost
  }

  /** A line leaves the backlog of a deque exactly when it is appended there or does not translate. */
  lemma AdvanceBacklog(c: Connection, i: nat, b: Buffer)
    requires c.stage <= 2 && CanParse(c)
    ensures var (c', entry) := Advance(c, i);
            Backlog(c', b) + (if entry.Some? && b == Target(c.stage) then 1 else 0) <= Backlog(c, b)
  {
  }

  lemma ParseLoad(s: State, i: nat, b: Buffer)
    requires Pipeline.Enabled(s, Parse(i)) && s.connections[i].stage <= 2
    requires Load(s, b) <= Get(s, b).cap
    ensures LoadGrows(s, Pipeline.Apply(s, Parse(i)), b, 0)
  {
    var c := s.connections[i];
    BacklogUpdate(s.connections, i, Advance(c, i).0, b);
    AdvanceBacklog(c, i, b);
    ParseEffect(s, i, b);
    assert TotalBacklog(s.connections[i := Advance(c, i).0], b) == TotalBacklog(ParseStep(s, i).connections, b);
  }

  lemma ReadBacklog(accepted: seq<Record>, c: Connection, b: Buffer)
    requires GoodPacket(accepted, c.packet) && All(accepted, OneLine) && Small(c)
    ensures Backlog(Read(c), b) <= Backlog(c, b) + 477
  {
    PacketLines(accepted, c.packet);
  }

  lemma ReceiveLoad(s: State, i: nat, b: Buffer)
    requires Inv(s) && AllSmall(s) && Pipeline.Enabled(s, Receive(i))
    ensures LoadGrows(s, Pipeline.Apply(s, Receive(i)), b, 477)
  {
    var c := s.connections[i];
    assert Hosted(s.kernels, c, i) && KernelSide(s.kernels[c.device]);
    ReadBacklog(s.kernels[c.device].queue.accepted, c, b);
    BacklogUpdate(s.connections, i, Read(c), b);
  }

  lemma LoseLoad(s: State, i: nat, b: Buffer)
    requires Pipeline.Enabled(s, Lose(i))
    ensures LoadGrows(s, Pipeline.Apply(s, Lose(i)), b, 0)
  {
    BacklogUpdate(s.connections, i, s.connections[i].(status := Lost), b);
  }

  lemma KernelLoad(s: State, d: nat, k: Kernel, b: Buffer)
    requires d < |s.kernels|
    ensures LoadGrows(s, KernelMove(s, d, k), b, 0)
  {
    var session, batch := SessionConnections(d, s.kernels[d], k), BatchConnections(d, s.kernels[d], k);
    assert s.connections + NewConnections(d, s.kernels[d], k) == (s.connections + session) + batch;
    IdleBacklog(s.connections, session, b);
    IdleBacklog(s.connections + session, batch, b);
  }

  lemma DialLoad(s: State, d: nat, b: Buffer)
    requires Pipeline.Enabled(s, Dial(d))
    ensures LoadGrows(s, Pipeline.Apply(s, Dial(d)), b, 0)
  {
    BacklogSnoc(s.connections, Fresh(d, NO_BATCH), b);
  }

  lemma WorkLoad(s: State, c: Buffer, w: C.Step<Entry>, b: Buffer)
    requires Pipeline.Enabled(s, Work(c, w))
    ensures LoadGrows(s, Pipeline.Apply(s, Work(c, w)), b, 0)
  {
  }

  /** Only receiving a packet adds to the load of a deque, and at most 477 entries; without overflow nothing is lost. */
  lemma StepLoad(s: State, step: Pipeline.Step, b: Buffer)
    requires Inv(s) && AllSmall(s) && Pipeline.Enabled(s, step)
    requires Load(s, b) <= Get(s, b).cap
    ensures LoadGrows(s, Pipeline.Apply(s, step), b, if step.Receive? then 477 else 0)
  {
    match step
    case AddDevice =>
    case Accept =>
    case KernelStep(d, e) => KernelLoad(s, d, KernelRuns.Step(s.kernels[d], e), b);
    case Dial(d) => DialLoad(s, d, b);
    case Receive(i) => ReceiveLoad(s, i, b);
    case Lose(i) => LoseLoad(s, i, b);
    case Parse(i) =>
      assert Hosted(s.kernels, s.connections[i], i);
      ParseLoad(s, i, b);
    case Work(c, w) => WorkLoad(s, c, w, b);
  }

  lemma LoadComposes(s: State, mid: State, s': State, b: Buffer, x: nat, y: nat)
    requires LoadGrows(s, mid, b, x) && LoadGrows(mid, s', b, y)
    ensures LoadGrows(s, s', b, x + y)
  {
  }

  lemma LastStepLoad(init: seq<Pipeline.Step>, step: Pipeline.Step, b: Buffer, s: State, x: nat)
    requires CleanRun(init) && LongRun(init) && Pipeline.Enabled(End(init), step)
    requires LoadGrows(s, End(init), b, x) && Load(s, b) + x <= Get(s, b).cap
    ensures LoadGrows(End(init), Pipeline.Apply(End(init), step), b, if step.Receive? then 477 else 0)
  {
    RunKeepsInv(init);
    PacketsStaySmall(init);
    StepLoad(End(init), step, b);
  }

  /** A prefix of a clean run of long records is one. */
  lemma Shorter(steps: seq<Pipeline.Step>, step: Pipeline.Step)
    requires CleanRun(steps + [step]) && LongRun(steps + [step])
    ensures CleanRun(steps) && LongRun(steps)
    ensures Pipeline.Enabled(End(steps), step) && End(steps + [step]) == Pipeline.Apply(End(steps), step)
  {
    CleanPrefix(steps, [step]);
    assert (steps + [step])[..|steps|] == steps;
    forall i | 0 <= i < |steps| && steps[i].KernelStep? ensures Offers(steps[i].e, AtLeast20) {
      assert (steps + [step])[i] == steps[i];
    }
  }

  lemma {:induction false} RunLoad(before: seq<Pipeline.Step>, steps: seq<Pipeline.Step>, b: Buffer)
    requires CleanRun(before + steps) && LongRun(before + steps) && CleanRun(before)
    requires Load(End(before), b) + 477 * Receives(steps) <= Get(End(before), b).cap
    ensures LoadGrows(End(before), End(before + steps), b, 477 * Receives(steps))
  {
    if steps == [] {
      assert before + steps == before;
    } else {
      var init, step := steps[..|steps| - 1], steps[|steps| - 1];
      var x, y := 477 * Receives(init), if step.Receive? then 477 else 0;
      assert before + steps == (before + init) + [step] && 477 * Receives(steps) == x + y;
      Shorter(before + init, step);
      RunLoad(before, init, b);
      LastStepLoad(before + init, step, b, End(before), x);
      LoadComposes(End(before), End(before + init), End(before + steps), b, x, y);
    }
  }

  lemma {:induction false} CapsAreFixed(steps: seq<Pipeline.Step>, b: Buffer)
    requires Exec(START, steps).Some?
    ensures Get(End(steps), b).cap == Get(START, b).cap && Get(End(steps), b).threshold == Get(START, b).threshold
  {
    if steps != [] {
      CapsAreFixed(steps[..|steps| - 1], b);
      var _ := BufferStep(End(steps[..|steps| - 1]), steps[|steps| - 1], b);
    }
  }

  /**
   * In every run the file and heartbeat deques hold at most 1000 entries and the SPADE deque at
   * most 10000; a step pushes an entry out exactly when it appends to a full one, and then the oldest.
   */
  lemma OverflowsExactly(steps: seq<Pipeline.Step>, step: Pipeline.Step, b: Buffer)
    requires CleanRun(steps) && Pipeline.Enabled(End(steps), step)
    ensures var q, q' := Get(End(steps), b), Get(Pipeline.Apply(End(steps), step), b);
            var full := |q.items| == if b.Spade? then 10000 else 1000;
            var w := BufferStep(End(steps), step, b);
            && |q.items| <= (if b.Spade? then 10000 else 1000)
            && q'.lost == q.lost + (if w.Some? && w.value.Append? && full then {q.first} else {})
  {
    RunKeepsInv(steps);
    CapsAreFixed(steps, b);
    assert C.Inv(Get(End(steps), b));
    var _ := BufferStep(End(steps), step, b);
  }

  /** How many batches a deque takes between two completed drains. */
  function BatchesBetweenDrains(b: Buffer): nat {
    if b.Spade? then 20 else 2
  }

  /**
   * Cross-layer capacity: when a drain has brought a deque down to its threshold and no
   * connection has lines in hand, the next two batches from whichever devices (twenty for the
   * SPADE deque) overflow nothing, however threads and workers are scheduled meanwhile.
   */
  lemma BatchesFit(before: seq<Pipeline.Step>, steps: seq<Pipeline.Step>, b: Buffer)
    requires CleanRun(before + steps) && LongRun(before + steps) && CleanRun(before)
    requires |Get(End(before), b).items| <= Get(START, b).threshold && TotalBacklog(End(before).connections, b) == 0
    requires Receives(steps) <= BatchesBetweenDrains(b)
    ensures Get(End(before + steps), b).lost == Get(End(before), b).lost
  {
    CapsAreFixed(before, b);
    RunLoad(before, steps, b);
  }
}
