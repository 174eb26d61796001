// Runs of the whole path from its start that show where the guarantees end: batches of one
// device out of order, deques that disagree, and a pop of an empty deque. With them the
// conditions become exact.
module Scenarios {
  import opened Text
  import opened KernelSpec
  import opened KernelRuns
  import opened AuditFormat
  import opened Pipeline
  import opened Ordering
  import opened Capacity
  import C = CheckThenPop

  /** A record as the kernel enqueues it. */
  const SAMPLE: Record := "audit: syscall=1,node=a"

  predicate IsSample(r: Record) {
    r == SAMPLE
  }

  lemma SampleIsOneLine()
    ensures OneLine(SAMPLE) && AtLeast20(SAMPLE)
  {
  }

  lemma SampleTranslates()
    ensures Translate(SAMPLE).Some?
  {
    assert OccursAt(SAMPLE, "audit", 0);
    assert SAMPLE[7..] == "syscall=1,node=a";
    assert OccursAt(SAMPLE, "syscall", 7);
  }

  /** A send attempt in which everything works and nothing arrives meanwhile. */
  function SmoothAttempt(): Attempt {
    Attempt(true, 0, TeecSuccess, _ => [], true, 0, TeecSuccess)
  }

  // --------------------------------------------------------------- one batch

  /** One device that has only accepted the sample record and has lost nothing. */
  predicate Supplied(s: State) {
    |s.kernels| == 1 && All(s.kernels[0].queue.accepted, IsSample) && Lossless(s.kernels[0])
  }

  /** Only the queue of the one device has changed. */
  predicate OnlyQueueMoves(s: State, s': State)
    requires |s.kernels| == 1
  {
    && |s'.kernels| == 1 && s' == s.(kernels := s'.kernels)
    && s'.kernels[0].driver == s.kernels[0].driver && s'.kernels[0].ctx == s.kernels[0].ctx
  }

  lemma ArriveOnce(steps: seq<Pipeline.Step>) returns (steps': seq<Pipeline.Step>)
    requires CleanRun(steps) && Supplied(End(steps)) && |End(steps).kernels[0].queue.pending| < SEND_TRIGGER
    ensures CleanRun(steps') && Supplied(End(steps')) && OnlyQueueMoves(End(steps), End(steps'))
    ensures |End(steps').kernels[0].queue.pending| == |End(steps).kernels[0].queue.pending| + 1
  {
    SampleIsOneLine();
    var k, e := End(steps).kernels[0], Arrival(SAMPLE);
    StepLossless(k, e);
    StepAccepts(k, e, IsSample);
    assert NewConnections(0, k, KernelRuns.Step(k, e)) == [];
    assert End(steps).connections + [] == End(steps).connections;
    steps' := Do(steps, KernelStep(0, e));
  }

  lemma FillQueue(steps: seq<Pipeline.Step>) returns (steps': seq<Pipeline.Step>)
    requires CleanRun(steps) && Supplied(End(steps))
    ensures CleanRun(steps') && Supplied(End(steps')) && OnlyQueueMoves(End(steps), End(steps'))
    ensures |End(steps').kernels[0].queue.pending| >= SEND_TRIGGER
  {
    steps' := steps;
    while |End(steps').kernels[0].queue.pending| < SEND_TRIGGER
      invariant CleanRun(steps') && Supplied(End(steps')) && OnlyQueueMoves(End(steps), End(steps'))
      decreases SEND_TRIGGER - |End(steps').kernels[0].queue.pending|
    {
      steps' := ArriveOnce(steps');
    }
  }

  lemma {:induction false} SampleFrame(rs: seq<Record>)
    requires All(rs, IsSample)
    ensures |Frame(rs)| == 24 * |rs|
  {
    if rs != [] {
      assert IsSample(rs[0]);
      SampleFrame(rs[1..]);
    }
  }

  /** A connection of the one device that nobody has read yet, with a long packet. */
  predicate LongAndFresh(c: Connection) {
    c == Fresh(0, c.packet) && c.packet.last - c.packet.first > 300
  }

  /** A triggered smooth send delivers a batch of more than 300 sample records. */
  lemma SmoothSend(k: Kernel)
    requires Lossless(k) && SessionInv(k) && All(k.queue.accepted, IsSample) && |k.queue.pending| >= SEND_TRIGGER
    ensures var k' := KernelRuns.Step(k, WakeUp(SmoothAttempt()));
            && Lossless(k') && All(k'.queue.accepted, IsSample) && k'.ctx.Some?
            && |k'.driver.wire| == |k.driver.wire| + 1
            && (OpensSession(k, k') <==> k.ctx.None?)
            && |BatchConnections(0, k, k')| == 1 && LongAndFresh(BatchConnections(0, k, k')[0])
  {
    var e := WakeUp(SmoothAttempt());
    var k' := KernelRuns.Step(k, e);
    StepLossless(k, e);
    StepEffect(k, e);
    StepAccepts(k, e, IsSample);
    WakeOutcome(k, SmoothAttempt());
    NewBatch(k, k');
    var batch := k'.sent[|k.sent|].batch;
    assert SafeDrain(k'.sent[|k.sent|]);
    forall r | r in batch ensures IsSample(r) {
      assert r in k'.queue.accepted;
    }
    SampleFrame(batch);
  }

  lemma SendBatch(steps: seq<Pipeline.Step>) returns (steps': seq<Pipeline.Step>, c: Connection)
    requires CleanRun(steps) && Supplied(End(steps)) && |End(steps).kernels[0].queue.pending| >= SEND_TRIGGER
    ensures CleanRun(steps') && Supplied(End(steps')) && LongAndFresh(c)
    ensures var s, s' := End(steps), End(steps');
            var dialed := if s.kernels[0].ctx.None? then [Fresh(0, NO_BATCH)] else [];
            && s'.kernels[0].ctx.Some? && |s'.kernels[0].driver.wire| == |s.kernels[0].driver.wire| + 1
            && s' == s.(kernels := s'.kernels, connections := s.connections + (dialed + [c]))
  {
    RunKeepsInv(steps);
    var k, e := End(steps).kernels[0], WakeUp(SmoothAttempt());
    assert KernelSide(k);
    SmoothSend(k);
    var batch := BatchConnections(0, k, KernelRuns.Step(k, e));
    c := batch[0];
    assert batch == [c];
    steps' := Do(steps, KernelStep(0, e));
  }

  // ------------------------------------------------------------ many batches

  /** The session's own connection in front, then those of the batches. */
  predicate SessionThenBatches(cs: seq<Connection>) {
    && cs != [] && cs[0] == Fresh(0, NO_BATCH)
    && (forall i :: 1 <= i < |cs| ==> LongAndFresh(cs[i]))
  }

  /** One device opens its session and sends `n` batches. */
  lemma {:induction false} SendBatches(n: nat) returns (steps: seq<Pipeline.Step>)
    requires n > 0
    ensures CleanRun(steps) && Supplied(End(steps)) && SessionThenBatches(End(steps).connections)
    ensures |End(steps).connections| == n + 1 && |End(steps).kernels[0].driver.wire| == n
    ensures End(steps).kernels[0].ctx.Some?
    ensures End(steps) == START.(kernels := End(steps).kernels, connections := End(steps).connections)
  {
    var before;
    if n == 1 {
      before := Do([], AddDevice);
    } else {
      before := SendBatches(n - 1);
    }
    var full := FillQueue(before);
    var c;
    steps, c := SendBatch(full);
  }

  lemma AcceptOnce(steps: seq<Pipeline.Step>) returns (steps': seq<Pipeline.Step>)
    requires CleanRun(steps) && End(steps).served < |End(steps).connections|
    requires C.AllIdle(End(steps).file.workers) && C.AllIdle(End(steps).heartbeat.workers)
    ensures CleanRun(steps')
    ensures var s, s' := End(steps), End(steps');
            && s'.served == s.served + 1 && s'.kernels == s.kernels && s'.connections == s.connections
            && s'.spade == s.spade
            && C.AllIdle(s'.file.workers) && C.AllIdle(s'.heartbeat.workers)
            && s'.file == s.file.(workers := s'.file.workers)
            && s'.heartbeat == s.heartbeat.(workers := s'.heartbeat.workers)
  {
    steps' := Do(steps, Accept);
  }

  /** All connections are accepted and nothing else has happened to the deques. */
  lemma AcceptAll(steps: seq<Pipeline.Step>) returns (steps': seq<Pipeline.Step>)
    requires CleanRun(steps)
    requires End(steps) == START.(kernels := End(steps).kernels, connections := End(steps).connections)
    ensures CleanRun(steps')
    ensures var s, s' := End(steps), End(steps');
            && s'.served == |s.connections| && s'.kernels == s.kernels && s'.connections == s.connections
            && s'.spade == START.spade && C.AllIdle(s'.file.workers) && C.AllIdle(s'.heartbeat.workers)
            && s'.file == START.file.(workers := s'.file.workers)
            && s'.heartbeat == START.heartbeat.(workers := s'.heartbeat.workers)
  {
    steps' := steps;
    ghost var s := End(steps);
    while End(steps').served < |s.connections|
      invariant CleanRun(steps')
      invariant End(steps').served <= |s.connections| && End(steps').kernels == s.kernels
      invariant End(steps').connections == s.connections
      invariant End(steps').spade == START.spade && C.AllIdle(End(steps').file.workers)
      invariant C.AllIdle(End(steps').heartbeat.workers)
      invariant End(steps').file == START.file.(workers := End(steps').file.workers)
      invariant End(steps').heartbeat == START.heartbeat.(workers := End(steps').heartbeat.workers)
      decreases |s.connections| - End(steps').served
    {
      steps' := AcceptOnce(steps');
    }
  }

  /** Reading a packet of the one device: its thread is about to take up a line that translates. */
  lemma ReadPacket(steps: seq<Pipeline.Step>, i: nat) returns (steps': seq<Pipeline.Step>)
    requires CleanRun(steps) && Supplied(End(steps)) && i < End(steps).served <= |End(steps).connections|
    requires LongAndFresh(End(steps).connections[i])
    ensures CleanRun(steps')
    ensures var s, c := End(steps), End(steps).connections[i];
            && End(steps') == SetConnection(s, i, Read(c))
            && AtLine(Read(c)) && |Read(c).lines| > 300
  {
    RunKeepsInv(steps);
    SampleTranslates();
    var s, c := End(steps), End(steps).connections[i];
    assert Hosted(s.kernels, c, i) && KernelSide(s.kernels[0]);
    PacketLines(s.kernels[0].queue.accepted, c.packet);
    assert Read(c).lines[0] in s.kernels[0].queue.accepted;
    assert IsSample(Read(c).lines[0]);
    steps' := Do(steps, Receive(i));
  }

  /** Two batches of one device, both read and neither parsed. */
  lemma TwoBatches() returns (steps: seq<Pipeline.Step>)
    ensures CleanRun(steps)
    ensures var s := End(steps);
            && |s.connections| == 3 && |s.kernels| == 1 && |s.kernels[0].driver.wire| == 2
            && s.connections[0].packet == NO_BATCH
            && (forall i :: 1 <= i < 3 ==> AtLine(s.connections[i]) && s.connections[i].device == 0)
            && s.file.stream == []
  {
    steps := SendBatches(2);
    steps := AcceptAll(steps);
    steps := ReadPacket(steps, 1);
    steps := ReadPacket(steps, 2);
  }

  // ------------------------------------------------------- order of one device

  /** Two batches of one device can reach a deque in the opposite order, whichever the deque. */
  lemma BatchesMayReorder(b: Buffer) returns (steps: seq<Pipeline.Step>)
    ensures CleanRun(steps) && |End(steps).kernels| == 1 && |End(steps).kernels[0].driver.wire| == 2
    ensures !Ordered(Get(End(steps), b).stream)
  {
    var before := TwoBatches();
    var s := End(before);
    RunKeepsInv(before);
    var c, d := s.connections[1], s.connections[2];
    AtLineOwes(s, 1, b);
    AtLineOwes(s, 2, b);
    assert Successive(c, d);
    var more, u, v := PaidInTurn(before, 2, d.next, 1, c.next, b);
    steps := before + more;
    var stream := Get(End(steps), b).stream;
    assert !DeviceOrder(stream[u], stream[v]);
  }

  function Batches(s: State, d: nat): nat
    requires d < |s.kernels|
  {
    |s.kernels[d].driver.wire|
  }

  predicate HasBatch(c: Connection) {
    c.packet.first < c.packet.last
  }

  predicate TwoOfOneDevice(c: Connection, d: Connection) {
    HasBatch(c) && HasBatch(d) && c.device == d.device
  }

  /** Each connection that carries a batch is one delivered payload of its device. */
  predicate BatchCount(s: State) {
    && (forall i :: 0 <= i < |s.connections| && HasBatch(s.connections[i]) ==>
          s.connections[i].device < |s.kernels| && Batches(s, s.connections[i].device) >= 1)
    && (forall i, j :: 0 <= i < j < |s.connections| && TwoOfOneDevice(s.connections[i], s.connections[j]) ==>
          Batches(s, s.connections[i].device) >= 2)
  }

  lemma BatchesGrow(s: State, step: Pipeline.Step, d: nat)
    requires Inv(s) && Pipeline.Enabled(s, step) && d < |s.kernels|
    ensures d < |Pipeline.Apply(s, step).kernels| && Batches(s, d) <= Batches(Pipeline.Apply(s, step), d)
  {
    assert KernelSide(s.kernels[d]);
    if step.KernelStep? && step.d == d {
      StepEffect(s.kernels[d], step.e);
    } else {
      assert Pipeline.Apply(s, step).kernels[d] == s.kernels[d];
    }
  }

  /** A kernel step opens at most one connection with a batch, behind any other, and then delivers one more payload. */
  lemma OneBatchOpened(d: nat, k: Kernel, k': Kernel, i: nat)
    requires i < |NewConnections(d, k, k')| && HasBatch(NewConnections(d, k, k')[i])
    ensures i == |SessionConnections(d, k, k')| && NewConnections(d, k, k')[i].device == d
    ensures |k.driver.wire| < |k'.driver.wire|
  {
  }

  /** Where the connections of a step come from: an old one with the same packet, an empty one, or a new delivery. */
  lemma ConnectionOrigin(s: State, step: Pipeline.Step, i: nat)
    requires Inv(s) && Pipeline.Enabled(s, step) && i < |Pipeline.Apply(s, step).connections|
    ensures var c := Pipeline.Apply(s, step).connections[i];
            if i < |s.connections| then c.device == s.connections[i].device && c.packet == s.connections[i].packet
            else HasBatch(c) ==>
              && i == |Pipeline.Apply(s, step).connections| - 1 && c.device < |s.kernels|
              && Batches(s, c.device) < Batches(Pipeline.Apply(s, step), c.device)
  {
    var s' := Pipeline.Apply(s, step);
    if i < |s.connections| {
      StepGrows(s, step, File);
      assert MovedOn(s.connections[i], s'.connections[i], File);
    } else if step.KernelStep? && HasBatch(s'.connections[i]) {
      OneBatchOpened(step.d, s.kernels[step.d], s'.kernels[step.d], i - |s.connections|);
    }
  }

  lemma StepKeepsBatchCount(s: State, step: Pipeline.Step)
    requires Inv(s) && BatchCount(s) && Pipeline.Enabled(s, step)
    ensures BatchCount(Pipeline.Apply(s, step))
  {
    var s' := Pipeline.Apply(s, step);
    forall i | 0 <= i < |s'.connections| && HasBatch(s'.connections[i])
      ensures s'.connections[i].device < |s'.kernels| && Batches(s', s'.connections[i].device) >= 1
    {
      ConnectionOrigin(s, step, i);
      BatchesGrow(s, step, s'.connections[i].device);
    }
    forall i, j | 0 <= i < j < |s'.connections| && TwoOfOneDevice(s'.connections[i], s'.connections[j])
      ensures Batches(s', s'.connections[i].device) >= 2
    {
      ConnectionOrigin(s, step, i);
      ConnectionOrigin(s, step, j);
      BatchesGrow(s, step, s'.connections[i].device);
    }
  }

  /** With at most one batch per device nothing is ever overtaken. */
  lemma {:induction false} SingleBatchNeverOvertakes(steps: seq<Pipeline.Step>, b: Buffer)
    requires CleanRun(steps)
    ensures BatchCount(End(steps))
    ensures (forall d :: 0 <= d < |End(steps).kernels| ==> Batches(End(steps), d) <= 1) ==> NeverOvertakes(steps, b)
  {
    if steps != [] {
      var init, step := steps[..|steps| - 1], steps[|steps| - 1];
      var s := End(init);
      SingleBatchNeverOvertakes(init, b);
      RunKeepsInv(init);
      StepKeepsBatchCount(s, step);
      assert End(steps) == Pipeline.Apply(s, step);
      if forall d :: 0 <= d < |End(steps).kernels| ==> Batches(End(steps), d) <= 1 {
        forall d | 0 <= d < |s.kernels| ensures Batches(s, d) <= 1 {
          BatchesGrow(s, step, d);
          assert Batches(End(steps), d) <= 1;
        }
        SingleBatchStep(s, step, b);
      }
    }
  }

  /** What a device's only batch owes comes from one connection, which brings it in order. */
  lemma NothingEarlierOwed(s: State, c: nat, i: nat, b: Buffer, d: nat, p: nat)
    requires BatchCount(s) && d < |s.kernels| && Batches(s, d) <= 1
    requires c < |s.connections| && s.connections[c].device == d && HasBatch(s.connections[c])
    requires p < Limit(s.connections[c], b)
    ensures !OwedBy(s, i, b, d, p)
  {
    if i < |s.connections| && i != c {
      assert !TwoOfOneDevice(s.connections[i], s.connections[c]);
    }
  }

  lemma SingleBatchStep(s: State, step: Pipeline.Step, b: Buffer)
    requires Inv(s) && BatchCount(s) && Pipeline.Enabled(s, step)
    requires forall d :: 0 <= d < |s.kernels| ==> Batches(s, d) <= 1
    ensures !Overtakes(s, step, b)
  {
    var e := Appends(s, step, b);
    if e.Some? {
      AppendIsOwed(s, step, b);
      forall i, p | 0 <= i < |s.connections| && 0 <= p < e.value.origin ensures !OwedBy(s, i, b, e.value.device, p) {
        NothingEarlierOwed(s, e.value.conn, i, b, e.value.device, p);
      }
    }
  }

  /** No device has delivered more than `n` batches. */
  predicate AtMostBatches(s: State, n: nat) {
    forall d :: 0 <= d < |s.kernels| ==> Batches(s, d) <= n
  }

  /** Every run with at most `n` batches per device has every device's records in order at the deque. */
  ghost predicate OrderedFor(b: Buffer, n: nat) {
    forall steps: seq<Pipeline.Step> ::
      CleanRun(steps) && AtMostBatches(End(steps), n) ==> Ordered(Get(End(steps), b).stream)
  }

  /** Per-device order is guaranteed for one batch per device and no more. */
  lemma DeviceOrderExactly(b: Buffer, n: nat)
    ensures OrderedFor(b, n) <==> n <= 1
  {
    if n <= 1 {
      forall steps: seq<Pipeline.Step> | CleanRun(steps) && AtMostBatches(End(steps), n)
        ensures Ordered(Get(End(steps), b).stream)
      {
        SingleBatchNeverOvertakes(steps, b);
        OrderedUnlessOvertaken(steps, b);
      }
    } else {
      var steps := BatchesMayReorder(b);
      assert AtMostBatches(End(steps), n);
    }
  }

  // ---------------------------------------------------- one order for all deques

  /** One thread holds a line for the deque while the other is about to take one up. */
  lemma OneHoldsLine(b: Buffer) returns (steps: seq<Pipeline.Step>)
    requires b != File
    ensures CleanRun(steps) && |End(steps).connections| == 3 && !HasBatch(End(steps).connections[0])
    ensures HoldsLineFor(End(steps).connections[1], b) && AtLine(End(steps).connections[2])
  {
    var before := TwoBatches();
    RunKeepsInv(before);
    var s := End(before);
    assert C.Inv(Get(s, File)) && Hosted(s.kernels, s.connections[1], 1);
    steps := Do(before, Parse(1));
    ParseEffect(s, 1, File);
  }

  /** How many connections carry a batch. */
  function Carriers(cs: seq<Connection>): nat {
    if cs == [] then 0 else Carriers(cs[..|cs| - 1]) + if HasBatch(cs[|cs| - 1]) then 1 else 0
  }

  lemma {:induction false} TwoCarriers(cs: seq<Connection>, i: nat, j: nat)
    requires i <= j < |cs| && HasBatch(cs[i]) && HasBatch(cs[j])
    ensures Carriers(cs) >= if i < j then 2 else 1
  {
    var init := cs[..|cs| - 1];
    if j < |init| {
      TwoCarriers(init, i, j);
    } else if i < j {
      TwoCarriers(init, i, i);
    }
  }

  lemma CarriersSnoc(cs: seq<Connection>, c: Connection)
    ensures Carriers(cs + [c]) == Carriers(cs) + if HasBatch(c) then 1 else 0
  {
    assert (cs + [c])[..|cs|] == cs;
  }

  lemma CarriersOfThree(cs: seq<Connection>)
    requires |cs| == 3 && !HasBatch(cs[0]) && HasBatch(cs[1]) && HasBatch(cs[2])
    ensures Carriers(cs) == 2
  {
    CarriersSnoc([], cs[0]);
    CarriersSnoc([] + [cs[0]], cs[1]);
    CarriersSnoc([] + [cs[0]] + [cs[1]], cs[2]);
    assert cs == [] + [cs[0]] + [cs[1]] + [cs[2]];
  }

  /** With two batches two deques can receive the same two lines in opposite orders. */
  lemma DequesMayDiffer(b: Buffer) returns (steps: seq<Pipeline.Step>, x: nat)
    requires b != File
    ensures CleanRun(steps) && Carriers(End(steps).connections) == 2 && SwappedBehind(End(steps), b, x)
  {
    var holding := OneHoldsLine(b);
    RunKeepsInv(holding);
    assert C.Inv(Get(End(holding), File));
    var both := Do(holding, Parse(2));
    var more := HeldLineMaySwap(holding, 2, 1, b);
    steps, x := both + more, |End(holding).file.stream|;
    ThreeConnections(holding, steps);
  }

  /** Of three connections, of which the first is empty, two carry a batch if two threads have had lines. */
  lemma ThreeConnections(before: seq<Pipeline.Step>, steps: seq<Pipeline.Step>)
    requires CleanRun(before) && CleanRun(steps) && before <= steps
    requires |End(before).connections| == 3 == |End(steps).connections| && !HasBatch(End(before).connections[0])
    requires HoldsLineFor(End(before).connections[1], Spade) || HoldsLineFor(End(before).connections[1], Heartbeat)
    requires AtLine(End(before).connections[2])
    ensures Carriers(End(steps).connections) == 2
  {
    RunKeepsInv(before);
    var cs, cs' := End(before).connections, End(steps).connections;
    assert Hosted(End(before).kernels, cs[1], 1) && Hosted(End(before).kernels, cs[2], 2);
    assert steps == before + steps[|before|..];
    PacketsStay(before, steps[|before|..]);
    CarriersOfThree(cs');
  }

  /** A connection keeps its packet. */
  lemma {:induction false} PacketsStay(steps: seq<Pipeline.Step>, more: seq<Pipeline.Step>)
    requires CleanRun(steps) && CleanRun(steps + more)
    ensures var cs, cs' := End(steps).connections, End(steps + more).connections;
            |cs| <= |cs'| && forall i :: 0 <= i < |cs| ==> cs'[i].packet == cs[i].packet
  {
    if more == [] {
      assert steps + more == steps;
    } else {
      var init, step, all := more[..|more| - 1], more[|more| - 1], steps + more;
      assert all == (steps + init) + [step] && all[..|all| - 1] == steps + init;
      CleanPrefix(steps + init, [step]);
      PacketsStay(steps, init);
      RunKeepsInv(steps + init);
      StepGrows(End(steps + init), step, File);
      assert forall i :: 0 <= i < |End(steps + init).connections| ==>
               MovedOn(End(steps + init).connections[i], End(all).connections[i], File);
    }
  }

  /**
   * Every run with at most `n` batches feeds the file deque and the other deque in one order,
   * whoever else connects.
   */
  ghost predicate OneOrderFor(b: Buffer, n: nat) {
    forall steps: seq<Pipeline.Step>, x: nat ::
      CleanRun(steps) && Carriers(End(steps).connections) <= n ==> !SwappedBehind(End(steps), b, x)
  }

  /** An appended record came with a batch. */
  lemma AppendedHasBatch(s: State, b: Buffer, e: Entry)
    requires Inv(s) && GoodEntry(s.kernels, s.connections, b, e)
    ensures HasBatch(s.connections[e.conn])
  {
    LimitIsInPacket(s, e.conn, b);
  }

  lemma OneCarrier(cs: seq<Connection>, i: nat, j: nat)
    requires i < |cs| && j < |cs| && HasBatch(cs[i]) && HasBatch(cs[j]) && Carriers(cs) <= 1
    ensures i == j
  {
    if i < j {
      TwoCarriers(cs, i, j);
    } else if j < i {
      TwoCarriers(cs, j, i);
    }
  }

  lemma OneSource(s: State, b: Buffer, e: Entry, f: Entry)
    requires Inv(s) && Carriers(s.connections) <= 1 && e in Get(s, b).stream && f in Get(s, b).stream
    ensures e.conn == f.conn
  {
    assert StreamInv(s.kernels, s.connections, b, Get(s, b).stream);
    AppendedHasBatch(s, b, e);
    AppendedHasBatch(s, b, f);
    OneCarrier(s.connections, e.conn, f.conn);
  }

  lemma OneBatchOneOrder(steps: seq<Pipeline.Step>, b: Buffer, x: nat)
    requires CleanRun(steps) && Carriers(End(steps).connections) <= 1
    ensures !SwappedBehind(End(steps), b, x)
  {
    RunKeepsInv(steps);
    var s := End(steps);
    var p, q := Get(s, File).stream, Get(s, b).stream;
    assert StreamInv(s.kernels, s.connections, File, p) && StreamInv(s.kernels, s.connections, b, q);
    forall y, u, v ensures !Swapped(p, q, y, x, u, v) {
      if 0 <= y < x < |p| && 0 <= u < v < |q| {
        OneSource(s, File, p[y], p[x]);
        OneSource(s, b, q[u], q[v]);
        assert BatchOrder(p[y], p[x]) && BatchOrder(q[u], q[v]);
      }
    }
  }

  /** The deques are fed in one common order with one batch and no more, whoever else connects. */
  lemma OneOrderExactly(b: Buffer, n: nat)
    requires b != File
    ensures OneOrderFor(b, n) <==> n <= 1
  {
    if n <= 1 {
      forall steps: seq<Pipeline.Step>, x: nat | CleanRun(steps) && Carriers(End(steps).connections) <= n
        ensures !SwappedBehind(End(steps), b, x)
      {
        OneBatchOneOrder(steps, b, x);
      }
    } else {
      var steps, x := DequesMayDiffer(b);
    }
  }

  // ------------------------------------------------------- pops of an empty deque

  /** A deque that was only appended to by this connection. */
  predicate FedBy(c: Connection, b: Buffer, q: C.State<Entry>) {
    && c.status.Received? && c.packet.last - c.packet.first > 300
    && C.AllIdle(q.workers)
    && c.packet.first + |q.items| == Limit(c, b)
  }

  predicate FedByFirst(s: State, b: Buffer) {
    |s.connections| > 1 && FedBy(s.connections[1], b, Get(s, b))
  }

  function AppendedCount(c: Connection, i: nat, b: Buffer): nat
    requires CanParse(c)
  {
    if Advance(c, i).1.Some? && b == Target(c.stage) then 1 else 0
  }

  /** Every sample line that is taken up comes to each deque. */
  lemma AdvanceSample(accepted: seq<Record>, c: Connection, b: Buffer)
    requires ConnectionInv(accepted, c, 1) && CanParse(c) && All(accepted, IsSample) && Limit(c, b) < |accepted|
    ensures var c' := Advance(c, 1).0;
            && Limit(c', b) == Limit(c, b) + AppendedCount(c, 1, b)
            && c'.packet == c.packet && c'.status == c.status
            && 0 <= LinesLeft(c') < LinesLeft(c)
  {
    SampleTranslates();
    AdvanceLimit(accepted, c, 1, b);
    AdvanceKeepsConnection(accepted, c, 1);
    assert IsSample(accepted[Limit(c, b)]);
  }

  lemma AdvanceFeeds(accepted: seq<Record>, c: Connection, b: Buffer, q: C.State<Entry>, q': C.State<Entry>)
    requires ConnectionInv(accepted, c, 1) && CanParse(c) && All(accepted, IsSample)
    requires FedBy(c, b, q) && |q.items| <= 100
    requires |q'.items| == |q.items| + AppendedCount(c, 1, b) && q'.workers == q.workers
    ensures FedBy(Advance(c, 1).0, b, q') && 0 <= LinesLeft(Advance(c, 1).0) < LinesLeft(c)
  {
    AdvanceSample(accepted, c, b);
  }

  lemma ParseAddsItem(s: State, b: Buffer)
    requires Pipeline.Enabled(s, Parse(1)) && |Get(s, b).items| < Get(s, b).cap
    ensures |Get(ParseStep(s, 1), b).items| == |Get(s, b).items| + AppendedCount(s.connections[1], 1, b)
  {
  }

  /** Nothing but connection 1 and the contents of the deques has changed. */
  predicate OnlyFed(s: State, s': State) {
    && s'.kernels == s.kernels && s'.served == s.served && |s'.connections| == |s.connections|
    && (forall c :: Get(s', c).workers == Get(s, c).workers)
  }

  lemma ParseOnlyFeeds(s: State)
    requires Pipeline.Enabled(s, Parse(1))
    ensures OnlyFed(s, ParseStep(s, 1)) && ParseStep(s, 1).connections[1] == Advance(s.connections[1], 1).0
  {
    forall d ensures Get(ParseStep(s, 1), d).workers == Get(s, d).workers {
      ParseEffect(s, 1, d);
    }
    ParseEffect(s, 1, File);
  }

  /** One step of the thread of connection 1. */
  lemma ParseFeeds(s: State, b: Buffer)
    requires Supplied(s) && FedByFirst(s, b) && |Get(s, b).items| <= 100 < Get(s, b).cap
    requires Hosted(s.kernels, s.connections[1], 1) && Pipeline.Enabled(s, Parse(1))
    ensures var s' := ParseStep(s, 1);
            && FedByFirst(s', b) && OnlyFed(s, s')
            && 0 <= LinesLeft(s'.connections[1]) < LinesLeft(s.connections[1])
            && |Get(s', b).items| <= |Get(s, b).items| + 1
  {
    ParseOnlyFeeds(s);
    ParseAddsItem(s, b);
    AdvanceFeeds(s.kernels[0].queue.accepted, s.connections[1], b, Get(s, b), Get(ParseStep(s, 1), b));
  }

  lemma ParseIsEnabled(s: State, b: Buffer)
    requires Inv(s) && FedByFirst(s, b) && |Get(s, b).items| <= 100 && C.Inv(Get(s, Target(s.connections[1].stage)))
    ensures Pipeline.Enabled(s, Parse(1))
  {
    assert Hosted(s.kernels, s.connections[1], 1);
  }

  /** The thread of connection 1 fills a deque up to `n` entries. */
  lemma {:induction false} Fill(steps: seq<Pipeline.Step>, b: Buffer, n: nat) returns (steps': seq<Pipeline.Step>)
    requires CleanRun(steps) && Supplied(End(steps)) && FedByFirst(End(steps), b)
    requires |Get(End(steps), b).items| <= n <= 100
    ensures CleanRun(steps') && FedByFirst(End(steps'), b) && |Get(End(steps'), b).items| == n
    ensures OnlyFed(End(steps), End(steps'))
    decreases LinesLeft(End(steps).connections[1])
  {
    if |Get(End(steps), b).items| == n {
      steps' := steps;
    } else {
      var s := End(steps);
      RunKeepsInv(steps);
      CapsAreFixed(steps, b);
      assert Hosted(s.kernels, s.connections[1], 1) && C.Inv(Get(s, Target(s.connections[1].stage)));
      ParseIsEnabled(s, b);
      ParseFeeds(s, b);
      var next := Do(steps, Parse(1));
      steps' := Fill(next, b, n);
    }
  }

  /** A run of a deque's own machine that neither appends nor spawns is a run of the whole path. */
  lemma {:induction false} LiftWork(steps: seq<Pipeline.Step>, b: Buffer, work: seq<C.Step<Entry>>)
    returns (steps': seq<Pipeline.Step>)
    requires CleanRun(steps) && C.Exec(Get(End(steps), b), work).Some?
    requires forall w | w in work :: !w.Append? && !w.Spawn?
    ensures CleanRun(steps') && End(steps') == Set(End(steps), b, C.Exec(Get(End(steps), b), work).value)
  {
    if work == [] {
      steps' := steps;
    } else {
      var init, last := work[..|work| - 1], work[|work| - 1];
      assert last in work;
      var mid := LiftWork(steps, b, init);
      steps' := Do(mid, Work(b, last));
    }
  }

  /** `n` SPADE clients connect. */
  lemma {:induction false} SpawnClients(steps: seq<Pipeline.Step>, n: nat) returns (steps': seq<Pipeline.Step>)
    requires CleanRun(steps) && End(steps).spade == START.spade
    ensures CleanRun(steps')
    ensures End(steps') == End(steps).(spade := End(steps').spade)
    ensures End(steps').spade == START.spade.(workers := End(steps').spade.workers)
    ensures |End(steps').spade.workers| == n && C.AllIdle(End(steps').spade.workers)
  {
    if n == 0 {
      steps' := steps;
    } else {
      var before := SpawnClients(steps, n - 1);
      steps' := Do(before, Work(Spade, C.Spawn));
    }
  }

  /**
   * A session and as many batches as it takes, all accepted; connection 1 is read and its lines
   * are parsed until the deque holds one entry too few.
   */
  lemma OneEntryTooFew(b: Buffer) returns (steps: seq<Pipeline.Step>)
    ensures CleanRun(steps)
    ensures var s, q, t := End(steps), Get(End(steps), b), Get(START, b).threshold;
            && |s.kernels| == 1 && |s.connections| == s.served == t + 2 && Batches(s, 0) == t + 1
            && q.threshold == t && |q.items| == t + 1 && |q.workers| == t + 2 && C.AllIdle(q.workers)
  {
    var t := Get(START, b).threshold;
    steps := SendBatches(t + 1);
    steps := AcceptAll(steps);
    RunKeepsInv(steps);
    assert WorkersInv(End(steps));
    if b == Spade {
      steps := SpawnClients(steps, t + 2);
    }
    steps := ReadPacket(steps, 1);
    steps := Fill(steps, b, t + 1);
    CapsAreFixed(steps, b);
  }

  /**
   * One connection more than the threshold allows, that of the session and t + 1 batches, and
   * some run pops an empty deque.
   */
  lemma TooManyBatchesCrash(b: Buffer) returns (steps: seq<Pipeline.Step>)
    ensures CleanRun(steps)
    ensures var s, t := End(steps), Get(START, b).threshold;
            && C.Crashed(Get(s, b)) && |Get(s, b).workers| == t + 2
            && |s.kernels| == 1 && |s.connections| == s.served == t + 2 && Batches(s, 0) == t + 1
  {
    var before := OneEntryTooFew(b);
    var work, q := C.StampedeCrashes(Get(End(before), b));
    C.CheckAndPopKeepCrew(Get(End(before), b), work);
    steps := LiftWork(before, b, work);
  }

  /** Who can pop a deque: one worker per accepted connection, or one per SPADE client. */
  function Crew(s: State, b: Buffer): nat {
    if b.Spade? then |s.spade.workers| else s.served
  }

  /** Every run with at most `n` accepted connections (for SPADE: clients) never pops the deque when it is empty. */
  ghost predicate NeverEmptyFor(b: Buffer, n: nat) {
    forall steps: seq<Pipeline.Step> :: CleanRun(steps) && Crew(End(steps), b) <= n ==> !C.Crashed(Get(End(steps), b))
  }

  /**
   * Empty pops, exactly: the file and heartbeat deques are safe for up to 11 accepted
   * connections, those of sessions included, the SPADE deque for up to 31 clients, and no more.
   */
  lemma NoEmptyPopExactly(b: Buffer, n: nat)
    ensures NeverEmptyFor(b, n) <==> n <= if b.Spade? then 31 else 11
  {
    if n <= (if b.Spade? then 31 else 11) {
      forall steps: seq<Pipeline.Step> | CleanRun(steps) && Crew(End(steps), b) <= n
        ensures !C.Crashed(Get(End(steps), b))
      {
        RunKeepsInv(steps);
        assert WorkersInv(End(steps));
        NoEmptyPop(steps, b);
      }
    } else {
      var steps := TooManyBatchesCrash(b);
    }
  }

  // ------------------------------------------------------- order of the SPADE sends

  lemma {:induction false} JoinedEmits(steps: seq<Pipeline.Step>, b: Buffer)
    requires Exec(START, steps).Some?
    ensures C.EmitsHanded(Get(End(steps), b))
  {
    if steps != [] {
      var s, step := End(steps[..|steps| - 1]), steps[|steps| - 1];
      JoinedEmits(steps[..|steps| - 1], b);
      var w := BufferStep(s, step, b);
      if w.Some? {
        C.StepKeepsEmits(Get(s, b), w.value);
      }
    }
  }

  /** Two SPADE clients with more than enough entries between them. */
  lemma TwoClients() returns (steps: seq<Pipeline.Step>)
    ensures CleanRun(steps)
    ensures var q := End(steps).spade;
            && |q.items| == 31 && q.threshold == 30 && |q.workers| == 2 && C.AllIdle(q.workers)
  {
    steps := SendBatches(1);
    steps := AcceptAll(steps);
    steps := SpawnClients(steps, 2);
    steps := ReadPacket(steps, 1);
    steps := Fill(steps, Spade, 31);
    CapsAreFixed(steps, Spade);
  }

  /** From the start: two SPADE clients send an entry before an earlier one. */
  lemma ClientsMayReorder() returns (steps: seq<Pipeline.Step>)
    ensures CleanRun(steps) && |End(steps).spade.workers| == 2 && !C.Increasing(End(steps).spade.emitted)
  {
    var before := TwoClients();
    var q := Get(End(before), Spade);
    var work, q' := C.CrossOver(q);
    steps := LiftWork(before, Spade, work);
    var n := |q.emitted|;
    assert q'.emitted[n] == q.first + 1 && q'.emitted[n + 1] == q.first;
  }

  /** Every run with at most `n` SPADE clients sends in the order of the stream. */
  ghost predicate SendsInOrderFor(n: nat) {
    forall steps: seq<Pipeline.Step> ::
      CleanRun(steps) && |End(steps).spade.workers| <= n ==> C.Increasing(End(steps).spade.emitted)
  }

  /** The global order of the sends to SPADE is the order of the stream with one client and no more. */
  lemma SendsInOrderExactly(n: nat)
    ensures SendsInOrderFor(n) <==> n <= 1
  {
    if n <= 1 {
      forall steps: seq<Pipeline.Step> | CleanRun(steps) && |End(steps).spade.workers| <= n
        ensures C.Increasing(End(steps).spade.emitted)
      {
        RunKeepsInv(steps);
        JoinedEmits(steps, Spade);
        assert C.Inv(Get(End(steps), Spade));
        C.HandedInOrder(Get(End(steps), Spade));
      }
    } else {
      var steps := ClientsMayReorder();
    }
  }
}
