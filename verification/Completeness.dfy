// Nothing disappears on the way: every accepted record is accounted for, up to the deque
// positions where it was retained, popped or overflowed.
module Completeness {
  import opened Wrappers
  import opened KernelSpec
  import opened KernelRuns
  import opened AuditFormat
  import opened Pipeline
  import C = CheckThenPop

  // ------------------------------------------------------------ in the kernel

  /** Where the i-th drain starts in the accepted stream. */
  function Start(sent: seq<Sent>, i: nat): nat
    requires i <= |sent|
  {
    |Taken(sent[..i])|
  }

  predicate InBatch(sent: seq<Sent>, i: nat, p: nat)
    requires i < |sent|
  {
    Start(sent, i) <= p < Start(sent, i) + |sent[i].batch|
  }

  predicate IsDropped(sent: seq<Sent>, i: nat, p: nat)
    requires i < |sent|
  {
    Start(sent, i) + |sent[i].batch| <= p < Start(sent, i) + |sent[i].batch| + |sent[i].dropped|
  }

  lemma StartSnoc(sent: seq<Sent>, s: Sent, i: nat)
    requires i <= |sent|
    ensures Start(sent + [s], i) == Start(sent, i)
  {
    assert (sent + [s])[..i] == sent[..i];
  }

  /** A record that left the queue was put into the batch of some drain or dropped by it. */
  lemma {:induction false} TakenBySomeDrain(sent: seq<Sent>, p: nat) returns (i: nat)
    requires p < |Taken(sent)|
    ensures i < |sent| && (InBatch(sent, i, p) || IsDropped(sent, i, p))
  {
    var init, last := sent[..|sent| - 1], sent[|sent| - 1];
    assert sent == init + [last];
    if p < |Taken(init)| {
      i := TakenBySomeDrain(init, p);
      StartSnoc(init, last, i);
    } else {
      i := |sent| - 1;
    }
  }

  predicate IsDelivered(sent: seq<Sent>, i: nat, p: nat)
    requires i < |sent|
  {
    InBatch(sent, i, p) && sent[i].outcome.Delivered?
  }

  // ------------------------------------------------------- on the connections

  predicate Holds(c: Connection, d: nat, p: nat) {
    c.device == d && c.packet.first <= p < c.packet.last
  }

  predicate HasPacket(cs: seq<Connection>, d: nat, p: nat) {
    exists i :: 0 <= i < |cs| && Holds(cs[i], d, p)
  }

  /** Every delivered record of device `d` is in the packet of some connection. */
  ghost predicate DeliveredInv(sent: seq<Sent>, cs: seq<Connection>, d: nat) {
    forall i, p: nat :: 0 <= i < |sent| && IsDelivered(sent, i, p) ==> HasPacket(cs, d, p)
  }

  lemma HasPacketKept(cs: seq<Connection>, cs': seq<Connection>, d: nat, p: nat)
    requires HasPacket(cs, d, p) && |cs| <= |cs'|
    requires forall i :: 0 <= i < |cs| ==> cs'[i].device == cs[i].device && cs'[i].packet == cs[i].packet
    ensures HasPacket(cs', d, p)
  {
    var i :| 0 <= i < |cs| && Holds(cs[i], d, p);
    assert Holds(cs'[i], d, p);
  }

  /** A delivered batch is the packet of the connection that the step opened. */
  lemma NewDeliveryIsOpened(d: nat, k: Kernel, k': Kernel, cs: seq<Connection>, p: nat)
    requires Conserved(k) && Conserved(k') && DrainEffect(k, k') && k'.sent != k.sent
    requires IsDelivered(k'.sent, |k.sent|, p)
    ensures HasPacket(cs + NewConnections(d, k, k'), d, p)
  {
    NewBatch(k, k');
    assert Start(k'.sent, |k.sent|) == |Taken(k.sent)| == TakenCount(k);
    var session, batch := SessionConnections(d, k, k'), BatchConnections(d, k, k');
    assert |batch| == 1 && Holds(batch[0], d, p);
    assert (cs + NewConnections(d, k, k'))[|cs| + |session|] == batch[0];
  }

  lemma KernelKeepsDelivered(d: nat, k: Kernel, k': Kernel, cs: seq<Connection>)
    requires DeliveredInv(k.sent, cs, d)
    requires Conserved(k) && Conserved(k') && DrainEffect(k, k')
    ensures DeliveredInv(k'.sent, cs + NewConnections(d, k, k'), d)
  {
    forall i, p: nat | 0 <= i < |k'.sent| && IsDelivered(k'.sent, i, p)
      ensures HasPacket(cs + NewConnections(d, k, k'), d, p)
    {
      if i == |k.sent| {
        NewDeliveryIsOpened(d, k, k', cs, p);
      } else {
        assert k'.sent[..i] == k.sent[..i];
        assert IsDelivered(k.sent, i, p);
        HasPacketKept(cs, cs + NewConnections(d, k, k'), d, p);
      }
    }
  }

  lemma KeptDelivered(sent: seq<Sent>, cs: seq<Connection>, cs': seq<Connection>, d: nat)
    requires DeliveredInv(sent, cs, d) && |cs| <= |cs'|
    requires forall i :: 0 <= i < |cs| ==> cs'[i].device == cs[i].device && cs'[i].packet == cs[i].packet
    ensures DeliveredInv(sent, cs', d)
  {
    forall i, p: nat | 0 <= i < |sent| && IsDelivered(sent, i, p) ensures HasPacket(cs', d, p) {
      HasPacketKept(cs, cs', d, p);
    }
  }

  ghost predicate AllDelivered(s: State) {
    forall d :: 0 <= d < |s.kernels| ==> DeliveredInv(s.kernels[d].sent, s.connections, d)
  }

  lemma StepKeepsDeliveredOf(s: State, step: Pipeline.Step, d: nat)
    requires ConnectionsInv(s.kernels, s.connections) && Pipeline.Enabled(s, step) && d < |s.kernels|
    requires KernelSide(s.kernels[d]) && DeliveredInv(s.kernels[d].sent, s.connections, d)
    ensures var s' := Pipeline.Apply(s, step);
            d < |s'.kernels| && DeliveredInv(s'.kernels[d].sent, s'.connections, d)
  {
    var s' := Pipeline.Apply(s, step);
    if step.KernelStep? && step.d == d {
      StepEffect(s.kernels[d], step.e);
      KernelKeepsDelivered(d, s.kernels[d], s'.kernels[d], s.connections);
    } else {
      assert s'.kernels[d] == s.kernels[d];
      StepGrows(s, step, File);
      assert forall i :: 0 <= i < |s.connections| ==> MovedOn(s.connections[i], s'.connections[i], File);
      KeptDelivered(s.kernels[d].sent, s.connections, s'.connections, d);
    }
  }

  lemma StepKeepsDelivered(s: State, step: Pipeline.Step)
    requires Inv(s) && AllDelivered(s) && Pipeline.Enabled(s, step)
    ensures AllDelivered(Pipeline.Apply(s, step))
  {
    var s' := Pipeline.Apply(s, step);
    forall d | 0 <= d < |s'.kernels| ensures DeliveredInv(s'.kernels[d].sent, s'.connections, d) {
      if d < |s.kernels| {
        StepKeepsDeliveredOf(s, step, d);
      } else {
        assert s'.kernels[d] == BOOT;
      }
    }
  }

  // ------------------------------------------------------------ in the deques

  predicate HasEntry(stream: seq<Entry>, d: nat, p: nat) {
    exists i :: 0 <= i < |stream| && stream[i].device == d && stream[i].origin == p
  }

  lemma HasEntryKept(stream: seq<Entry>, stream': seq<Entry>, d: nat, p: nat)
    requires HasEntry(stream, d, p) && stream <= stream'
    ensures HasEntry(stream', d, p)
  {
    var i :| 0 <= i < |stream| && stream[i].device == d && stream[i].origin == p;
    assert stream'[i] == stream[i];
  }

  /** Every translatable record that the connection has brought to the deque was appended to it. */
  ghost predicate AppendedInv(accepted: seq<Record>, c: Connection, b: Buffer, stream: seq<Entry>) {
    forall p :: c.packet.first <= p < Limit(c, b) && p < |accepted| && Translate(accepted[p]).Some? ==>
      HasEntry(stream, c.device, p)
  }

  lemma AdvanceKeepsAppended(accepted: seq<Record>, c: Connection, i: nat, b: Buffer, stream: seq<Entry>)
    requires ConnectionInv(accepted, c, i) && CanParse(c) && AppendedInv(accepted, c, b, stream)
    ensures AppendedInv(accepted, Advance(c, i).0, b, Extended(c, i, b, stream))
  {
    var (c', entry) := Advance(c, i);
    var stream' := Extended(c, i, b, stream);
    AdvanceKeepsConnection(accepted, c, i);
    AdvanceLimit(accepted, c, i, b);
    forall p | c.packet.first <= p < Limit(c', b) && p < |accepted| && Translate(accepted[p]).Some?
      ensures HasEntry(stream', c.device, p)
    {
      if p < Limit(c, b) {
        HasEntryKept(stream, stream', c.device, p);
      } else {
        assert entry.Some? && stream' == stream + [entry.value] && entry.value.origin == p;
        assert stream'[|stream|] == entry.value;
      }
    }
  }

  /** Records accepted later, and appends by other connections, take no entry away. */
  lemma GrowKeepsAppended(accepted: seq<Record>, accepted': seq<Record>, c: Connection, c': Connection, b: Buffer,
      stream: seq<Entry>, stream': seq<Entry>)
    requires AppendedInv(accepted, c, b, stream) && accepted <= accepted' && stream <= stream'
    requires c'.device == c.device && c'.packet == c.packet && Limit(c', b) == Limit(c, b) <= |accepted|
    ensures AppendedInv(accepted', c', b, stream')
  {
    forall p | c.packet.first <= p < Limit(c', b) && p < |accepted'| && Translate(accepted'[p]).Some?
      ensures HasEntry(stream', c.device, p)
    {
      assert accepted'[p] == accepted[p];
      HasEntryKept(stream, stream', c.device, p);
    }
  }

  ghost predicate Appended(s: State, i: nat, b: Buffer)
    requires i < |s.connections| && s.connections[i].device < |s.kernels|
  {
    AppendedInv(s.kernels[s.connections[i].device].queue.accepted, s.connections[i], b, Get(s, b).stream)
  }

  ghost predicate AllAppended(s: State) {
    forall i, b :: 0 <= i < |s.connections| && s.connections[i].device < |s.kernels| ==> Appended(s, i, b)
  }

  lemma ParseKeepsAppended(s: State, i: nat, j: nat, b: Buffer)
    requires ConnectionsInv(s.kernels, s.connections) && Pipeline.Enabled(s, Parse(i)) && j < |s.connections|
    requires s.connections[j].device < |s.kernels| && Appended(s, j, b)
    ensures var s' := ParseStep(s, i);
            |s'.connections| == |s.connections| && s'.connections[j].device < |s'.kernels| && Appended(s', j, b)
  {
    var s', c := ParseStep(s, i), s.connections[j];
    var accepted := s.kernels[c.device].queue.accepted;
    assert Hosted(s.kernels, c, j) && Hosted(s.kernels, s.connections[i], i);
    AdvanceKeepsConnection(s.kernels[s.connections[i].device].queue.accepted, s.connections[i], i);
    ParseEffect(s, i, b);
    if i == j {
      AdvanceKeepsAppended(accepted, c, i, b, Get(s, b).stream);
    } else {
      GrowKeepsAppended(accepted, accepted, c, c, b, Get(s, b).stream, Get(s', b).stream);
    }
  }

  /** A step other than parsing leaves the limits of the old connections alone and starts new ones at zero. */
  lemma OtherKeepsAppended(s: State, step: Pipeline.Step, j: nat, b: Buffer)
    requires Inv(s) && AllAppended(s) && Pipeline.Enabled(s, step) && !step.Parse?
    requires j < |Pipeline.Apply(s, step).connections|
    requires Pipeline.Apply(s, step).connections[j].device < |Pipeline.Apply(s, step).kernels|
    ensures Appended(Pipeline.Apply(s, step), j, b)
  {
    var s' := Pipeline.Apply(s, step);
    OnlyParsingMoves(s, step, j, b);
    if j < |s.connections| {
      var c, c' := s.connections[j], s'.connections[j];
      StepGrows(s, step, b);
      assert MovedOn(c, c', b) && Hosted(s.kernels, c, j) && Appended(s, j, b);
      KernelsGrow(s, step, c.device);
      GrowKeepsAppended(s.kernels[c.device].queue.accepted, s'.kernels[c.device].queue.accepted, c, c', b,
          Get(s, b).stream, Get(s', b).stream);
    }
  }

  lemma StepKeepsAppended(s: State, step: Pipeline.Step)
    requires Inv(s) && AllAppended(s) && Pipeline.Enabled(s, step)
    ensures AllAppended(Pipeline.Apply(s, step))
  {
    var s' := Pipeline.Apply(s, step);
    forall j, b | 0 <= j < |s'.connections| && s'.connections[j].device < |s'.kernels| ensures Appended(s', j, b) {
      if step.Parse? {
        ParseEffect(s, step.c, b);
        assert Hosted(s.kernels, s.connections[j], j) && Appended(s, j, b);
        ParseKeepsAppended(s, step.c, j, b);
      } else {
        OtherKeepsAppended(s, step, j, b);
      }
    }
  }

  /**
   * Over every run: every delivered record is in the packet of some connection, and every
   * translatable record that a connection has brought to a deque was appended to it.
   */
  lemma {:induction false} RunIsComplete(steps: seq<Pipeline.Step>)
    requires CleanRun(steps)
    ensures AllDelivered(End(steps)) && AllAppended(End(steps))
  {
    if steps != [] {
      RunIsComplete(steps[..|steps| - 1]);
      RunKeepsInv(steps[..|steps| - 1]);
      StepKeepsDelivered(End(steps[..|steps| - 1]), steps[|steps| - 1]);
      StepKeepsAppended(End(steps[..|steps| - 1]), steps[|steps| - 1]);
    }
  }

  /** A deque gets a record only after the deque before it: file, then heartbeat, then SPADE. */
  lemma DequesFollow(steps: seq<Pipeline.Step>, d: nat, p: nat)
    requires CleanRun(steps)
    ensures var s := End(steps);
            && (HasEntry(s.spade.stream, d, p) ==> HasEntry(s.heartbeat.stream, d, p))
            && (HasEntry(s.heartbeat.stream, d, p) ==> HasEntry(s.file.stream, d, p))
  {
    RunKeepsInv(steps);
    RunIsComplete(steps);
    var s := End(steps);
    if HasEntry(Get(s, Spade).stream, d, p) {
      HadBefore(s, Spade, Heartbeat, d, p);
    }
    if HasEntry(Get(s, Heartbeat).stream, d, p) {
      HadBefore(s, Heartbeat, File, d, p);
    }
  }

  lemma HadBefore(s: State, b: Buffer, c: Buffer, d: nat, p: nat)
    requires Inv(s) && AllAppended(s) && HasEntry(Get(s, b).stream, d, p)
    requires (b == Spade && c == Heartbeat) || (b == Heartbeat && c == File)
    ensures HasEntry(Get(s, c).stream, d, p)
  {
    var stream := Get(s, b).stream;
    var i :| 0 <= i < |stream| && stream[i].device == d && stream[i].origin == p;
    var e := stream[i];
    assert StreamInv(s.kernels, s.connections, b, stream) && GoodEntry(s.kernels, s.connections, b, e);
    assert Hosted(s.kernels, s.connections[e.conn], e.conn) && Appended(s, e.conn, c);
  }

  // --------------------------------------------------- accounting for a record

  /** What became of the record at position `p` of device `d`, as far as one deque is concerned. */
  datatype Fate =
    | Queued
    | Dropped(drain: nat)
    | SendFailed(drain: nat)
    | OnTheWay(conn: nat)
    | ReceiveFailed(conn: nat)
    | AwaitingParse(conn: nat)
    | InHand(conn: nat)
    | Untranslatable(conn: nat)
    | Retained(at: nat)
    | Popped(at: nat, worker: nat)
    | Overflowed(at: nat)

  predicate IsAt(stream: seq<Entry>, at: nat, d: nat, p: nat) {
    at < |stream| && stream[at].device == d && stream[at].origin == p
  }

  ghost predicate HasFate(s: State, b: Buffer, d: nat, p: nat, fate: Fate)
    requires d < |s.kernels| && p < |s.kernels[d].queue.accepted|
  {
    var k, cs, q := s.kernels[d], s.connections, Get(s, b);
    match fate
    case Queued => p >= TakenCount(k)
    case Dropped(i) => i < |k.sent| && IsDropped(k.sent, i, p)
    case SendFailed(i) => i < |k.sent| && InBatch(k.sent, i, p) && !k.sent[i].outcome.Delivered?
    case OnTheWay(c) => c < |cs| && Holds(cs[c], d, p) && cs[c].status.Waiting?
    case ReceiveFailed(c) => c < |cs| && Holds(cs[c], d, p) && cs[c].status.Lost?
    case AwaitingParse(c) => c < |cs| && Holds(cs[c], d, p) && cs[c].status.Received? && p >= cs[c].next
    case InHand(c) => c < |cs| && Holds(cs[c], d, p) && Limit(cs[c], b) <= p < cs[c].next
    case Untranslatable(c) => c < |cs| && Holds(cs[c], d, p) && p < cs[c].next && Translate(k.queue.accepted[p]).None?
    case Retained(i) => q.first <= i && IsAt(q.stream, i, d, p)
    case Popped(i, w) => w < |q.workers| && C.Owns(q.workers[w], i) && IsAt(q.stream, i, d, p)
    case Overflowed(i) => i in q.lost && IsAt(q.stream, i, d, p)
  }

  /** A record in the packet of a connection, and not yet brought to the deque. */
  function FateOnConnection(c: Connection, i: nat, p: nat): Fate {
    match c.status
    case Waiting => OnTheWay(i)
    case Lost => ReceiveFailed(i)
    case Received => if p >= c.next then AwaitingParse(i) else InHand(i)
  }

  /** What left a deque is with some worker or overflowed. */
  lemma WhoHasIt(q: C.State<Entry>, at: nat) returns (w: Option<nat>)
    requires C.WindowInv(q) && C.Claimed(q) && at < |q.stream|
    ensures w.Some? ==> w.value < |q.workers| && C.Owns(q.workers[w.value], at)
    ensures w.None? ==> q.first <= at || at in q.lost
  {
    w := None;
    if at in q.popped {
      var v: nat :| v < |q.workers| && C.Owns(q.workers[v], at);
      w := Some(v);
    }
  }

  lemma FateInDeque(s: State, b: Buffer, d: nat, p: nat) returns (fate: Fate)
    requires d < |s.kernels| && p < |s.kernels[d].queue.accepted|
    requires C.WindowInv(Get(s, b)) && C.Claimed(Get(s, b)) && HasEntry(Get(s, b).stream, d, p)
    ensures HasFate(s, b, d, p, fate)
  {
    var q := Get(s, b);
    var at: nat :| at < |q.stream| && q.stream[at].device == d && q.stream[at].origin == p;
    var w := WhoHasIt(q, at);
    fate := if w.Some? then Popped(at, w.value) else if q.first <= at then Retained(at) else Overflowed(at);
  }

  lemma FateOfDelivered(s: State, b: Buffer, d: nat, p: nat, j: nat) returns (fate: Fate)
    requires d < |s.kernels| && p < |s.kernels[d].queue.accepted|
    requires j < |s.connections| && Holds(s.connections[j], d, p) && Hosted(s.kernels, s.connections[j], j)
    requires Appended(s, j, b) && C.WindowInv(Get(s, b)) && C.Claimed(Get(s, b))
    ensures HasFate(s, b, d, p, fate)
  {
    var c := s.connections[j];
    if p >= Limit(c, b) { return FateOnConnection(c, j, p); }
    if Translate(s.kernels[d].queue.accepted[p]).None? { return Untranslatable(j); }
    fate := FateInDeque(s, b, d, p);
  }

  /**
   * Accounting, for every run: each record that a device's queue ever accepted is still queued,
   * was dropped or lost by an identified drain, is in an identified connection (on the way, lost
   * by its `recv`, waiting to be parsed, in hand or untranslatable), or was appended to the
   * deque, where it is retained, was taken by an identified worker, or overflowed.
   */
  lemma EveryRecordHasAFate(steps: seq<Pipeline.Step>, b: Buffer, d: nat, p: nat) returns (fate: Fate)
    requires CleanRun(steps) && d < |End(steps).kernels| && p < |End(steps).kernels[d].queue.accepted|
    ensures HasFate(End(steps), b, d, p, fate)
  {
    RunKeepsInv(steps);
    RunIsComplete(steps);
    var s := End(steps);
    var k := s.kernels[d];
    assert KernelSide(k) && DeliveredInv(k.sent, s.connections, d);
    if p >= TakenCount(k) { return Queued; }
    var i := TakenBySomeDrain(k.sent, p);
    if IsDropped(k.sent, i, p) { return Dropped(i); }
    if !k.sent[i].outcome.Delivered? { return SendFailed(i); }
    assert IsDelivered(k.sent, i, p);
    var j: nat :| j < |s.connections| && Holds(s.connections[j], d, p);
    PoppedIsClaimed(steps, b);
    assert Hosted(s.kernels, s.connections[j], j) && Appended(s, j, b) && C.Inv(Get(s, b));
    fate := FateOfDelivered(s, b, d, p, j);
  }

  // ------------------------------------------------------------ the only fate

  /** A drain ends where a later one starts, and before what is still queued. */
  lemma {:induction false} DrainsFollow(sent: seq<Sent>, i: nat, j: nat)
    requires i < j <= |sent|
    ensures Start(sent, i) + |sent[i].batch| + |sent[i].dropped| <= Start(sent, j)
    decreases j
  {
    assert sent[..j][..j - 1] == sent[..j - 1] && sent[..j][j - 1] == sent[j - 1];
    if i < j - 1 {
      DrainsFollow(sent, i, j - 1);
    }
  }

  predicate InDrain(sent: seq<Sent>, i: nat, p: nat)
    requires i < |sent|
  {
    Start(sent, i) <= p < Start(sent, i) + |sent[i].batch| + |sent[i].dropped|
  }

  lemma OneDrain(sent: seq<Sent>, i: nat, j: nat, p: nat)
    requires i < |sent| && j < |sent| && InDrain(sent, i, p) && InDrain(sent, j, p)
    ensures i == j && p < |Taken(sent)|
  {
    DrainsFollow(sent, i, |sent|);
    assert sent[..|sent|] == sent;
    if i < j {
      DrainsFollow(sent, i, j);
    } else if j < i {
      DrainsFollow(sent, j, i);
    }
  }

  /** The packet is the batch of a delivered drain. */
  predicate FromDrain(sent: seq<Sent>, packet: Packet) {
    exists i | 0 <= i < |sent| ::
      sent[i].outcome.Delivered? && Start(sent, i) == packet.first && packet.last == packet.first + |sent[i].batch|
  }

  /** Every packet that holds a record is the batch of a delivered drain of its device. */
  ghost predicate PacketsFromDrains(s: State) {
    forall i :: 0 <= i < |s.connections| ==> Drained(s.kernels, s.connections[i])
  }

  lemma FromDrainKept(k: Kernel, k': Kernel, packet: Packet)
    requires DrainEffect(k, k') && FromDrain(k.sent, packet)
    ensures FromDrain(k'.sent, packet)
  {
    var i :| 0 <= i < |k.sent| && k.sent[i].outcome.Delivered? && Start(k.sent, i) == packet.first
             && packet.last == packet.first + |k.sent[i].batch|;
    assert k'.sent[..i] == k.sent[..i] && k'.sent[i] == k.sent[i];
    assert Start(k'.sent, i) == packet.first;
  }

  lemma OpenedFromDrain(d: nat, k: Kernel, k': Kernel, c: Connection)
    requires Conserved(k) && DrainEffect(k, k') && c in NewConnections(d, k, k') && c.packet.first < c.packet.last
    ensures c.device == d && FromDrain(k'.sent, c.packet)
  {
    assert c in BatchConnections(d, k, k');
    assert k'.sent[..|k.sent|] == k.sent && Start(k'.sent, |k.sent|) == TakenCount(k);
  }

  /** The packet of the connection, if it holds a record, is the batch of a delivered drain. */
  predicate Drained(kernels: seq<Kernel>, c: Connection) {
    c.packet.first < c.packet.last ==> c.device < |kernels| && FromDrain(kernels[c.device].sent, c.packet)
  }

  lemma KernelStepKeepsDrained(s: State, d: nat, e: Event, i: nat)
    requires Inv(s) && PacketsFromDrains(s) && d < |s.kernels|
    requires i < |Pipeline.Apply(s, KernelStep(d, e)).connections|
    ensures Drained(Pipeline.Apply(s, KernelStep(d, e)).kernels, Pipeline.Apply(s, KernelStep(d, e)).connections[i])
  {
    var s' := Pipeline.Apply(s, KernelStep(d, e));
    var c := s'.connections[i];
    assert KernelSide(s.kernels[d]);
    StepEffect(s.kernels[d], e);
    if c.packet.first < c.packet.last {
      if i >= |s.connections| {
        OpenedFromDrain(d, s.kernels[d], s'.kernels[d], c);
      } else if c.device == d {
        FromDrainKept(s.kernels[d], s'.kernels[d], c.packet);
      }
    }
  }

  lemma OtherKeepsDrained(s: State, step: Pipeline.Step, i: nat)
    requires ConnectionsInv(s.kernels, s.connections) && PacketsFromDrains(s) && Pipeline.Enabled(s, step)
    requires !step.KernelStep? && i < |Pipeline.Apply(s, step).connections|
    ensures Drained(Pipeline.Apply(s, step).kernels, Pipeline.Apply(s, step).connections[i])
  {
    var s' := Pipeline.Apply(s, step);
    assert s.kernels <= s'.kernels;
    if i < |s.connections| {
      StepGrows(s, step, File);
      assert MovedOn(s.connections[i], s'.connections[i], File);
    }
  }

  lemma {:induction false} PacketsStayDrained(steps: seq<Pipeline.Step>)
    requires CleanRun(steps)
    ensures PacketsFromDrains(End(steps))
  {
    if steps != [] {
      var init, step := steps[..|steps| - 1], steps[|steps| - 1];
      PacketsStayDrained(init);
      RunKeepsInv(init);
      forall i | 0 <= i < |End(steps).connections|
        ensures Drained(End(steps).kernels, End(steps).connections[i])
      {
        if step.KernelStep? {
          KernelStepKeepsDrained(End(init), step.d, step.e, i);
        } else {
          OtherKeepsDrained(End(init), step, i);
        }
      }
    }
  }

  predicate InKernel(fate: Fate) {
    fate.Queued? || fate.Dropped? || fate.SendFailed?
  }

  predicate InDeque(fate: Fate) {
    fate.Retained? || fate.Popped? || fate.Overflowed?
  }

  /** The invariants of a reachable state that make a fate unique. */
  ghost predicate Accounted(s: State, b: Buffer) {
    Inv(s) && C.Inv(Get(s, b)) && PacketsFromDrains(s)
  }

  /** A record outside the kernel is in the packet of a connection, and in a deque only if that brought it there. */
  lemma FateConnection(s: State, b: Buffer, d: nat, p: nat, fate: Fate) returns (c: nat)
    requires Accounted(s, b) && d < |s.kernels| && p < |s.kernels[d].queue.accepted|
    requires HasFate(s, b, d, p, fate) && !InKernel(fate)
    ensures c < |s.connections| && Holds(s.connections[c], d, p)
    ensures if InDeque(fate) then p < Limit(s.connections[c], b) && Translate(s.kernels[d].queue.accepted[p]).Some?
            else fate.conn == c
  {
    if InDeque(fate) {
      var e := Get(s, b).stream[fate.at];
      assert StreamInv(s.kernels, s.connections, b, Get(s, b).stream);
      assert GoodEntry(s.kernels, s.connections, b, e);
      LimitIsInPacket(s, e.conn, b);
      c := e.conn;
    } else {
      c := fate.conn;
    }
  }

  lemma OneFateInKernel(s: State, b: Buffer, d: nat, p: nat, f: Fate, g: Fate)
    requires Accounted(s, b) && d < |s.kernels| && p < |s.kernels[d].queue.accepted| && InKernel(f) && InKernel(g)
    requires HasFate(s, b, d, p, f) && HasFate(s, b, d, p, g)
    ensures f == g
  {
    var sent := s.kernels[d].sent;
    assert KernelSide(s.kernels[d]);
    if !f.Queued? { OneDrain(sent, f.drain, f.drain, p); }
    if !g.Queued? { OneDrain(sent, g.drain, g.drain, p); }
    if !f.Queued? && !g.Queued? { OneDrain(sent, f.drain, g.drain, p); }
  }

  /** A record in a packet was delivered: it is neither queued nor dropped nor in a failed batch. */
  lemma NotInKernel(s: State, b: Buffer, d: nat, p: nat, c: nat, f: Fate)
    requires Accounted(s, b) && d < |s.kernels| && p < |s.kernels[d].queue.accepted| && InKernel(f)
    requires c < |s.connections| && Holds(s.connections[c], d, p)
    ensures !HasFate(s, b, d, p, f)
  {
    var sent, packet := s.kernels[d].sent, s.connections[c].packet;
    assert KernelSide(s.kernels[d]) && Drained(s.kernels, s.connections[c]);
    var i: nat :| i < |sent| && sent[i].outcome.Delivered? && Start(sent, i) == packet.first
                  && packet.last == packet.first + |sent[i].batch|;
    OneDrain(sent, i, i, p);
    if !f.Queued? && f.drain < |sent| && InDrain(sent, f.drain, p) {
      OneDrain(sent, i, f.drain, p);
    }
  }

  /** What a fate in the deque says of its place. */
  predicate FitsDeque(q: C.State<Entry>, fate: Fate) {
    match fate
    case Retained(i) => q.first <= i
    case Popped(i, w) => w < |q.workers| && C.Owns(q.workers[w], i)
    case Overflowed(i) => i in q.lost
    case _ => false
  }

  lemma OneFateInDeque(q: C.State<Entry>, f: Fate, g: Fate)
    requires C.Inv(q) && InDeque(f) && InDeque(g) && f.at == g.at && FitsDeque(q, f) && FitsDeque(q, g)
    ensures f == g
  {
    if f.Popped? { OwnedIsPopped(q, f.worker, f.at); }
    if g.Popped? { OwnedIsPopped(q, g.worker, g.at); }
    if f.Popped? && g.Popped? { OneOwner(q, f.worker, g.worker, f.at); }
  }

  lemma OwnedIsPopped(q: C.State<Entry>, w: nat, at: nat)
    requires C.Inv(q) && w < |q.workers| && C.Owns(q.workers[w], at)
    ensures at in q.popped && at < q.first && at !in q.lost
  {
    assert C.WorkerInv(q, q.workers[w]);
  }

  lemma OneOwner(q: C.State<Entry>, v: nat, w: nat, at: nat)
    requires C.Inv(q) && v < |q.workers| && w < |q.workers| && C.Owns(q.workers[v], at) && C.Owns(q.workers[w], at)
    ensures v == w
  {
    assert v < w ==> C.Apart(q.workers[v], q.workers[w]);
    assert w < v ==> C.Apart(q.workers[w], q.workers[v]);
  }

  predicate OnConnection(fate: Fate) {
    !InKernel(fate) && !InDeque(fate)
  }

  /** What a fate on a connection says of the connection. */
  predicate FitsConnection(c: Connection, accepted: seq<Record>, b: Buffer, p: nat, fate: Fate)
    requires p < |accepted|
  {
    match fate
    case OnTheWay(_) => c.status.Waiting?
    case ReceiveFailed(_) => c.status.Lost?
    case AwaitingParse(_) => c.status.Received? && p >= c.next
    case InHand(_) => Limit(c, b) <= p < c.next
    case Untranslatable(_) => p < c.next && Translate(accepted[p]).None?
    case _ => false
  }

  /** A connection fits one fate at most, and none of a record that it has brought to the deque. */
  lemma OneFits(c: Connection, i: nat, accepted: seq<Record>, b: Buffer, p: nat, f: Fate, g: Fate)
    requires ConnectionInv(accepted, c, i) && c.packet.first <= p < c.packet.last && OnConnection(f) && OnConnection(g)
    requires FitsConnection(c, accepted, b, p, f) && f.conn == g.conn
    ensures FitsConnection(c, accepted, b, p, g) ==> f == g
    ensures p >= Limit(c, b) || Translate(accepted[p]).None?
  {
    assert f.InHand? || g.InHand? ==> c.stage > 0 ==> Faithful(accepted, c.current);
  }

  /** Two fates outside the kernel speak of the same connection, and say the same of it. */
  lemma OneFateOutside(s: State, b: Buffer, d: nat, p: nat, f: Fate, g: Fate)
    requires Accounted(s, b) && d < |s.kernels| && p < |s.kernels[d].queue.accepted| && !InKernel(f) && !InKernel(g)
    requires HasFate(s, b, d, p, f) && HasFate(s, b, d, p, g)
    ensures f == g
  {
    if InDeque(f) && InDeque(g) {
      if f.at != g.at {
        StreamIsUnique(s, b, f.at, g.at);
      }
      OneFateInDeque(Get(s, b), f, g);
    } else if OnConnection(f) {
      OneFateOnConnection(s, b, d, p, f, g);
    } else {
      OneFateOnConnection(s, b, d, p, g, f);
    }
  }

  lemma OneFateOnConnection(s: State, b: Buffer, d: nat, p: nat, f: Fate, g: Fate)
    requires Accounted(s, b) && d < |s.kernels| && p < |s.kernels[d].queue.accepted| && OnConnection(f) && !InKernel(g)
    requires HasFate(s, b, d, p, f) && HasFate(s, b, d, p, g)
    ensures f == g
  {
    var c := FateConnection(s, b, d, p, f);
    var c' := FateConnection(s, b, d, p, g);
    OnePacketHolds(s, c, c', p);
    assert Hosted(s.kernels, s.connections[c], c);
    OneFits(s.connections[c], c, s.kernels[d].queue.accepted, b, p, f, if OnConnection(g) then g else f);
  }

  /** In every run each accepted record has, as far as one deque is concerned, exactly one fate. */
  lemma FateIsUnique(steps: seq<Pipeline.Step>, b: Buffer, d: nat, p: nat, f: Fate, g: Fate)
    requires CleanRun(steps) && d < |End(steps).kernels| && p < |End(steps).kernels[d].queue.accepted|
    requires HasFate(End(steps), b, d, p, f) && HasFate(End(steps), b, d, p, g)
    ensures f == g
  {
    RunKeepsInv(steps);
    PacketsStayDrained(steps);
    var s := End(steps);
    assert C.Inv(Get(s, b));
    if InKernel(f) && InKernel(g) {
      OneFateInKernel(s, b, d, p, f, g);
    } else if InKernel(f) {
      var c := FateConnection(s, b, d, p, g);
      NotInKernel(s, b, d, p, c, f);
    } else if InKernel(g) {
      var c := FateConnection(s, b, d, p, f);
      NotInKernel(s, b, d, p, c, g);
    } else {
      OneFateOutside(s, b, d, p, f, g);
    }
  }
}
