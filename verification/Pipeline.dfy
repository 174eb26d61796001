// The whole path of a record, for any number of devices: accepted by a device's kernel queue,
// drained into a batch, delivered by the TA over a connection of its own, read by that
// connection's thread, split into lines, translated, appended to the receiver's three deques,
// popped by some worker and handed on (for the SPADE deque: sent to a SPADE client).
module Pipeline {
  import opened Wrappers
  import opened Text
  import opened KernelSpec
  import opened KernelRuns
  import opened AuditFormat
  import C = CheckThenPop

  /** A translated line, with the device, the connection and the accepted position it came from. */
  datatype Entry = Entry(device: nat, conn: nat, origin: nat, text: string)

  /** A delivered payload; `first` and `last` delimit the accepted positions it was built from. */
  datatype Packet = Packet(first: nat, last: nat, text: string)

  /** The payload is still to be read, was read, or was lost when `recv` or `decode` raised. */
  datatype Status = Waiting | Received | Lost

  /**
   * A connection and its thread: the lines still to parse, how many deques got the line in hand,
   * and as history the accepted position of the next line. The TA opens a connection when its
   * session is opened, over which it sends nothing, and a new connection for every batch.
   */
  datatype Connection = Connection(
    device: nat, packet: Packet, status: Status, next: nat, lines: seq<string>, stage: nat, current: Entry)

  /** `served` counts the connections that the listener has accepted, oldest first. */
  datatype State = State(
    kernels: seq<Kernel>, connections: seq<Connection>, served: nat,
    file: C.State<Entry>, heartbeat: C.State<Entry>, spade: C.State<Entry>)

  datatype Buffer = File | Heartbeat | Spade

  /**
   * `Dial` is a connection without a batch from anybody else. `Work` is a step of a worker, or, at
   * the SPADE deque only, a new client.
   */
  datatype Step =
    | AddDevice
    | KernelStep(d: nat, e: Event)
    | Dial(d: nat)
    | Accept
    | Receive(c: nat)
    | Lose(c: nat)
    | Parse(c: nat)
    | Work(buffer: Buffer, step: C.Step<Entry>)

  const START: State := State([], [], 0, C.Init(1000, 10), C.Init(1000, 10), C.Init(10000, 30))

  function Get(s: State, b: Buffer): C.State<Entry> {
    match b
    case File => s.file
    case Heartbeat => s.heartbeat
    case Spade => s.spade
  }

  function Set(s: State, b: Buffer, q: C.State<Entry>): State {
    match b
    case File => s.(file := q)
    case Heartbeat => s.(heartbeat := q)
    case Spade => s.(spade := q)
  }

  /** The deque that a connection's thread appends to at each stage of a line. */
  function Target(stage: nat): Buffer {
    if stage == 0 then File else if stage == 1 then Heartbeat else Spade
  }

  function TakenCount(k: Kernel): int {
    |k.queue.accepted| - |k.queue.pending|
  }

  function Fresh(d: nat, p: Packet): Connection {
    Connection(d, p, Waiting, p.first, [], 0, Entry(0, 0, 0, ""))
  }

  const NO_BATCH: Packet := Packet(0, 0, "")

  /** The step left one more TEE context open: a session was opened. */
  predicate OpensSession(k: Kernel, k': Kernel) {
    k'.driver.created - k'.driver.released > k.driver.created - k.driver.released
  }

  function SessionConnections(d: nat, k: Kernel, k': Kernel): seq<Connection> {
    if OpensSession(k, k') then [Fresh(d, NO_BATCH)] else []
  }

  function BatchConnections(d: nat, k: Kernel, k': Kernel): seq<Connection> {
    var first := TakenCount(k);
    if first < 0 || k'.sent == [] || |k'.driver.wire| <= |k.driver.wire| then []
    else [Fresh(d, Packet(first, first + |k'.sent[|k'.sent| - 1].batch|, k'.driver.wire[|k'.driver.wire| - 1]))]
  }

  /** What a kernel step opens: a connection for a new session, and one for a newly delivered payload. */
  function NewConnections(d: nat, k: Kernel, k': Kernel): seq<Connection> {
    SessionConnections(d, k, k') + BatchConnections(d, k, k')
  }

  predicate CanParse(c: Connection) {
    c.status.Received? && (c.stage == 0 ==> c.lines != [])
  }

  predicate Enabled(s: State, step: Step) {
    match step
    case AddDevice => true
    case KernelStep(d, _) => d < |s.kernels|
    case Dial(d) => d < |s.kernels|
    case Accept => s.served < |s.connections|
    case Receive(c) => c < s.served <= |s.connections| && s.connections[c].status.Waiting?
    case Lose(c) => c < s.served <= |s.connections| && s.connections[c].status.Waiting?
    case Parse(c) =>
      && c < |s.connections| && CanParse(s.connections[c])
      && C.Enabled(Get(s, Target(s.connections[c].stage)), C.Append(s.connections[c].current))
    case Work(b, w) => !w.Append? && (w.Spawn? ==> b.Spade?) && C.Enabled(Get(s, b), w)
  }

  /** `recv`, `decode` and `splitlines`: the payload becomes lines. */
  function Read(c: Connection): Connection {
    c.(status := Received, lines := SplitLines(c.packet.text))
  }

  /** The thread of connection `i` after one step, and the entry that the step appends to the deque of its stage. */
  function Advance(c: Connection, i: nat): (Connection, Option<Entry>)
    requires CanParse(c)
  {
    if c.stage == 0 then
      var rest := c.(next := c.next + 1, lines := c.lines[1..]);
      match Translate(c.lines[0])
      case None => (rest, None)
      case Some(text) =>
        var entry := Entry(c.device, i, c.next, text);
        (rest.(stage := 1, current := entry), Some(entry))
    else (c.(stage := if c.stage == 1 then 2 else 0), Some(c.current))
  }

  function SetConnection(s: State, i: nat, c: Connection): State
    requires i < |s.connections|
  {
    s.(connections := s.connections[i := c])
  }

  function ParseStep(s: State, i: nat): State
    requires Enabled(s, Parse(i))
  {
    var c := s.connections[i];
    var (c', entry) := Advance(c, i);
    var s' := SetConnection(s, i, c');
    if entry.None? then s' else Set(s', Target(c.stage), C.Apply(Get(s, Target(c.stage)), C.Append(entry.value)))
  }

  function KernelMove(s: State, d: nat, k: Kernel): State
    requires d < |s.kernels|
  {
    s.(kernels := s.kernels[d := k], connections := s.connections + NewConnections(d, s.kernels[d], k))
  }

  function Apply(s: State, step: Step): State
    requires Enabled(s, step)
  {
    match step
    case AddDevice => s.(kernels := s.kernels + [BOOT])
    case KernelStep(d, e) => KernelMove(s, d, KernelRuns.Step(s.kernels[d], e))
    case Dial(d) => s.(connections := s.connections + [Fresh(d, NO_BATCH)])
    case Accept =>
      s.(served := s.served + 1, file := C.Apply(s.file, C.Spawn), heartbeat := C.Apply(s.heartbeat, C.Spawn))
    case Receive(c) => SetConnection(s, c, Read(s.connections[c]))
    case Lose(c) => SetConnection(s, c, s.connections[c].(status := Lost))
    case Parse(c) => ParseStep(s, c)
    case Work(b, w) => Set(s, b, C.Apply(Get(s, b), w))
  }

  function Exec(s: State, steps: seq<Step>): Option<State> {
    if steps == [] then Some(s)
    else
      var mid :- Exec(s, steps[..|steps| - 1]);
      if Enabled(mid, steps[|steps| - 1]) then Some(Apply(mid, steps[|steps| - 1])) else None
  }

  // -------------------------------------------------------------- the kernels

  /** A record the receiver will read as one line. */
  predicate OneLine(r: Record) {
    BoundaryFree(r)
  }

  predicate KernelSide(k: Kernel) {
    Conserved(k) && SessionInv(k) && All(k.queue.accepted, OneLine)
  }

  /** The batch of a new drain is the range of accepted records that starts where the last drain ended. */
  lemma NewBatch(k: Kernel, k': Kernel)
    requires Conserved(k) && Conserved(k') && DrainEffect(k, k') && k'.sent != k.sent
    ensures var first, batch := TakenCount(k), k'.sent[|k.sent|].batch;
            && 0 <= first <= first + |batch| <= TakenCount(k') <= |k'.queue.accepted|
            && k'.queue.accepted[first..first + |batch|] == batch
  {
    var last := k'.sent[|k.sent|];
    assert k'.sent == k.sent + [last];
    TakenSnoc(k.sent, last);
    assert k'.queue.accepted == Taken(k.sent) + (last.batch + (last.dropped + k'.queue.pending));
  }

  predicate GoodPacket(accepted: seq<Record>, p: Packet) {
    p.first <= p.last <= |accepted| && p.text == Frame(accepted[p.first..p.last])
  }

  lemma NewConnectionIsGood(d: nat, k: Kernel, k': Kernel)
    requires Conserved(k) && Conserved(k') && DrainEffect(k, k')
    ensures 0 <= TakenCount(k) <= TakenCount(k') <= |k'.queue.accepted|
    ensures |BatchConnections(d, k, k')| <= 1
    ensures forall c | c in BatchConnections(d, k, k') ::
              && c == Fresh(d, c.packet) && GoodPacket(k'.queue.accepted, c.packet)
              && TakenCount(k) <= c.packet.first && c.packet.last <= TakenCount(k')
  {
    if k'.sent == k.sent {
      assert TakenCount(k) == |Taken(k.sent)| == TakenCount(k');
    } else {
      NewBatch(k, k');
    }
  }

  /** Splitting a delivered payload gives back the accepted records it was built from. */
  lemma PacketLines(accepted: seq<Record>, p: Packet)
    requires All(accepted, OneLine) && GoodPacket(accepted, p)
    ensures SplitLines(p.text) == accepted[p.first..p.last]
  {
    var records := accepted[p.first..p.last];
    forall r | r in records ensures BoundaryFree(r) {
      assert r in accepted && OneLine(r);
    }
    SplitLinesFrame(records);
  }

  // ---------------------------------------------------------- the connections

  /** The entry is the translation of the accepted record it came from. */
  predicate Faithful(accepted: seq<Record>, e: Entry) {
    e.origin < |accepted| && Translate(accepted[e.origin]) == Some(e.text)
  }

  /** The line in hand is the last one taken. */
  predicate HandInv(accepted: seq<Record>, c: Connection, i: nat) {
    && c.stage <= 2
    && (c.stage > 0 ==>
          && c.status.Received? && c.packet.first < c.next
          && c.current.device == c.device && c.current.conn == i && c.current.origin + 1 == c.next
          && Faithful(accepted, c.current))
  }

  predicate ConnectionInv(accepted: seq<Record>, c: Connection, i: nat) {
    && GoodPacket(accepted, c.packet)
    && c.packet.first <= c.next <= c.packet.last
    && c.lines == (if c.status.Received? then accepted[c.next..c.packet.last] else [])
    && (!c.status.Received? ==> c.next == c.packet.first)
    && HandInv(accepted, c, i)
  }

  predicate Hosted(kernels: seq<Kernel>, c: Connection, i: nat) {
    && c.device < |kernels|
    && ConnectionInv(kernels[c.device].queue.accepted, c, i)
    && c.packet.last <= TakenCount(kernels[c.device])
  }

  /** A later batch of a device starts at or behind the end of an earlier one. */
  predicate Successive(c: Connection, d: Connection) {
    c.device == d.device && d.packet.first < d.packet.last ==> c.packet.last <= d.packet.first
  }

  predicate ConnectionsInv(kernels: seq<Kernel>, cs: seq<Connection>) {
    && (forall i :: 0 <= i < |cs| ==> Hosted(kernels, cs[i], i))
    && (forall i, j :: 0 <= i < j < |cs| ==> Successive(cs[i], cs[j]))
  }

  /** A kernel moved on: it accepted and took out more. */
  predicate Later(k: Kernel, k': Kernel) {
    k.queue.accepted <= k'.queue.accepted && TakenCount(k) <= TakenCount(k')
  }

  lemma LaterKeepsConnection(k: Kernel, k': Kernel, c: Connection, i: nat)
    requires Later(k, k') && ConnectionInv(k.queue.accepted, c, i)
    ensures ConnectionInv(k'.queue.accepted, c, i)
  {
    var a, a' := k.queue.accepted, k'.queue.accepted;
    assert a'[c.packet.first..c.packet.last] == a[c.packet.first..c.packet.last];
    assert a'[c.next..c.packet.last] == a[c.next..c.packet.last];
  }

  lemma KernelKeepsConnections(kernels: seq<Kernel>, d: nat, k: Kernel, cs: seq<Connection>)
    requires ConnectionsInv(kernels, cs) && d < |kernels| && Later(kernels[d], k)
    ensures ConnectionsInv(kernels[d := k], cs)
  {
    forall i | 0 <= i < |cs| ensures Hosted(kernels[d := k], cs[i], i) {
      assert Hosted(kernels, cs[i], i);
      if cs[i].device == d {
        LaterKeepsConnection(kernels[d], k, cs[i], i);
      }
    }
  }

  lemma ReadKeepsConnection(accepted: seq<Record>, c: Connection, i: nat)
    requires ConnectionInv(accepted, c, i) && All(accepted, OneLine) && c.status.Waiting?
    ensures ConnectionInv(accepted, Read(c), i)
  {
    PacketLines(accepted, c.packet);
  }

  lemma AdvanceKeepsConnection(accepted: seq<Record>, c: Connection, i: nat)
    requires ConnectionInv(accepted, c, i) && CanParse(c)
    ensures var (c', entry) := Advance(c, i);
            && ConnectionInv(accepted, c', i)
            && c'.device == c.device && c'.packet == c.packet && c'.status == c.status
            && (entry.Some? ==>
                  && entry.value.device == c.device && entry.value.conn == i
                  && c.packet.first <= entry.value.origin && Faithful(accepted, entry.value))
  {
    if c.stage == 0 {
      assert c.lines[0] == accepted[c.next];
      assert c.lines[1..] == accepted[c.next + 1..c.packet.last];
    }
  }

  lemma UpdateKeepsConnections(kernels: seq<Kernel>, cs: seq<Connection>, i: nat, c: Connection)
    requires ConnectionsInv(kernels, cs) && i < |cs|
    requires c.device == cs[i].device && c.packet == cs[i].packet
    requires ConnectionInv(kernels[c.device].queue.accepted, c, i)
    ensures ConnectionsInv(kernels, cs[i := c])
  {
    var cs' := cs[i := c];
    forall j | 0 <= j < |cs'| ensures Hosted(kernels, cs'[j], j) {
      assert Hosted(kernels, cs[j], j);
    }
    forall j, l | 0 <= j < l < |cs'| ensures Successive(cs'[j], cs'[l]) {
      assert Successive(cs[j], cs[l]);
    }
  }

  lemma AppendKeepsConnections(kernels: seq<Kernel>, cs: seq<Connection>, c: Connection)
    requires ConnectionsInv(kernels, cs) && Hosted(kernels, c, |cs|)
    requires forall i :: 0 <= i < |cs| ==> Successive(cs[i], c)
    ensures ConnectionsInv(kernels, cs + [c])
  {
  }

  // ---------------------------------------------------------- the three deques

  /** Which records of its packet the connection has brought to a deque: those below this position. */
  function Limit(c: Connection, b: Buffer): nat {
    match b
    case File => c.next
    case Heartbeat => if c.stage == 1 then c.current.origin else c.next
    case Spade => if c.stage > 0 then c.current.origin else c.next
  }

  predicate GoodEntry(kernels: seq<Kernel>, cs: seq<Connection>, b: Buffer, e: Entry) {
    && e.device < |kernels| && Faithful(kernels[e.device].queue.accepted, e)
    && e.conn < |cs| && cs[e.conn].device == e.device
    && cs[e.conn].packet.first <= e.origin < Limit(cs[e.conn], b)
  }

  /** Two entries of one batch come in the order in which their records were accepted. */
  predicate BatchOrder(e: Entry, f: Entry) {
    e.conn == f.conn ==> e.origin < f.origin
  }

  predicate StreamInv(kernels: seq<Kernel>, cs: seq<Connection>, b: Buffer, stream: seq<Entry>) {
    && (forall i :: 0 <= i < |stream| ==> GoodEntry(kernels, cs, b, stream[i]))
    && (forall i, j :: 0 <= i < j < |stream| ==> BatchOrder(stream[i], stream[j]))
  }

  /** The kernels and the connections moved on: nothing known of an appended entry changes. */
  predicate Forward(kernels: seq<Kernel>, kernels': seq<Kernel>, cs: seq<Connection>, cs': seq<Connection>, b: Buffer) {
    && |kernels| <= |kernels'| && |cs| <= |cs'|
    && (forall d :: 0 <= d < |kernels| ==> kernels[d].queue.accepted <= kernels'[d].queue.accepted)
    && (forall i :: 0 <= i < |cs| ==>
          cs'[i].device == cs[i].device && cs'[i].packet == cs[i].packet && Limit(cs[i], b) <= Limit(cs'[i], b))
  }

  lemma StreamKeeps(kernels: seq<Kernel>, kernels': seq<Kernel>, cs: seq<Connection>, cs': seq<Connection>, b: Buffer,
      stream: seq<Entry>)
    requires StreamInv(kernels, cs, b, stream) && Forward(kernels, kernels', cs, cs', b)
    ensures StreamInv(kernels', cs', b, stream)
  {
    forall i | 0 <= i < |stream| ensures GoodEntry(kernels', cs', b, stream[i]) {
      assert GoodEntry(kernels, cs, b, stream[i]);
    }
  }

  lemma StreamAppend(kernels: seq<Kernel>, cs: seq<Connection>, b: Buffer, stream: seq<Entry>, e: Entry)
    requires StreamInv(kernels, cs, b, stream) && GoodEntry(kernels, cs, b, e)
    requires forall i :: 0 <= i < |stream| ==> BatchOrder(stream[i], e)
    ensures StreamInv(kernels, cs, b, stream + [e])
  {
  }

  /** The stream of deque `b` after connection `i` made a step. */
  function Extended(c: Connection, i: nat, b: Buffer, stream: seq<Entry>): seq<Entry>
    requires CanParse(c)
  {
    var entry := Advance(c, i).1;
    if entry.Some? && b == Target(c.stage) then stream + [entry.value] else stream
  }

  /** Where a step moves the limit of a deque. */
  lemma AdvanceLimit(accepted: seq<Record>, c: Connection, i: nat, b: Buffer)
    requires ConnectionInv(accepted, c, i) && CanParse(c)
    ensures var (c', entry) := Advance(c, i);
            && Limit(c, b) <= Limit(c', b) <= Limit(c, b) + 1
            && (entry.Some? && b == Target(c.stage) ==> entry.value.origin == Limit(c, b) < Limit(c', b))
            && (Limit(c, b) < Limit(c', b) && !(entry.Some? && b == Target(c.stage)) ==>
               Translate(accepted[Limit(c, b)]).None?)
  {
    assert c.stage == 0 ==> c.lines[0] == accepted[c.next];
  }

  lemma AdvanceKeepsStream(kernels: seq<Kernel>, cs: seq<Connection>, i: nat, b: Buffer, stream: seq<Entry>)
    requires StreamInv(kernels, cs, b, stream) && i < |cs| && Hosted(kernels, cs[i], i) && CanParse(cs[i])
    ensures StreamInv(kernels, cs[i := Advance(cs[i], i).0], b, Extended(cs[i], i, b, stream))
  {
    var c, accepted := cs[i], kernels[cs[i].device].queue.accepted;
    var (c', entry) := Advance(c, i);
    AdvanceKeepsConnection(accepted, c, i);
    AdvanceLimit(accepted, c, i, b);
    StreamKeeps(kernels, kernels, cs, cs[i := c'], b, stream);
    if entry.Some? && b == Target(c.stage) {
      assert forall j :: 0 <= j < |stream| ==> GoodEntry(kernels, cs, b, stream[j]);
      StreamAppend(kernels, cs[i := c'], b, stream, entry.value);
    }
  }

  // ------------------------------------------------------------ the invariant

  ghost predicate StreamsInv(s: State) {
    forall b :: StreamInv(s.kernels, s.connections, b, Get(s, b).stream)
  }

  /** Each accepted connection has started one file worker and one heartbeat worker. */
  predicate WorkersInv(s: State) {
    s.served <= |s.connections| && |s.file.workers| == s.served && |s.heartbeat.workers| == s.served
  }

  ghost predicate Inv(s: State) {
    && (forall d :: 0 <= d < |s.kernels| ==> KernelSide(s.kernels[d]))
    && ConnectionsInv(s.kernels, s.connections)
    && StreamsInv(s)
    && WorkersInv(s)
  }

  /** Steps that leave the deques' streams alone. */
  lemma QuietKeepsStreams(s: State, s': State)
    requires StreamsInv(s)
    requires forall b :: Get(s', b).stream == Get(s, b).stream
    requires forall b :: Forward(s.kernels, s'.kernels, s.connections, s'.connections, b)
    ensures StreamsInv(s')
  {
    forall b ensures StreamInv(s'.kernels, s'.connections, b, Get(s', b).stream) {
      StreamKeeps(s.kernels, s'.kernels, s.connections, s'.connections, b, Get(s, b).stream);
    }
  }

  lemma BootIsGood()
    ensures KernelSide(BOOT)
  {
  }

  lemma AddDeviceKeepsInv(s: State)
    requires Inv(s)
    ensures Inv(Apply(s, AddDevice))
  {
    var s' := Apply(s, AddDevice);
    BootIsGood();
    QuietKeepsStreams(s, s');
    forall i | 0 <= i < |s.connections| ensures Hosted(s'.kernels, s.connections[i], i) {
      assert Hosted(s.kernels, s.connections[i], i);
    }
  }

  /** A connection without a batch. */
  lemma DialKeepsConnections(kernels: seq<Kernel>, cs: seq<Connection>, d: nat)
    requires ConnectionsInv(kernels, cs) && d < |kernels| && Conserved(kernels[d])
    ensures ConnectionsInv(kernels, cs + [Fresh(d, NO_BATCH)])
  {
    AppendKeepsConnections(kernels, cs, Fresh(d, NO_BATCH));
  }

  lemma BatchKeepsConnections(kernels: seq<Kernel>, cs: seq<Connection>, d: nat, c: Connection, before: int)
    requires ConnectionsInv(kernels, cs) && d < |kernels|
    requires forall i :: 0 <= i < |cs| && cs[i].device == d ==> cs[i].packet.last <= before
    requires c == Fresh(d, c.packet) && GoodPacket(kernels[d].queue.accepted, c.packet)
    requires before <= c.packet.first && c.packet.last <= TakenCount(kernels[d])
    ensures ConnectionsInv(kernels, cs + [c])
  {
    AppendKeepsConnections(kernels, cs, c);
  }

  lemma OpenedKeepsConnections(kernels: seq<Kernel>, cs: seq<Connection>, d: nat, k: Kernel)
    requires ConnectionsInv(kernels, cs) && d < |kernels|
    requires KernelSide(kernels[d]) && KernelSide(k) && DrainEffect(kernels[d], k) && Later(kernels[d], k)
    ensures ConnectionsInv(kernels[d := k], cs + NewConnections(d, kernels[d], k))
  {
    KernelKeepsConnections(kernels, d, k, cs);
    NewConnectionIsGood(d, kernels[d], k);
    var session, batch := SessionConnections(d, kernels[d], k), BatchConnections(d, kernels[d], k);
    DialKeepsConnections(kernels[d := k], cs, d);
    assert cs + session == if session == [] then cs else cs + [Fresh(d, NO_BATCH)];
    assert cs + NewConnections(d, kernels[d], k) == (cs + session) + batch;
    if batch != [] {
      assert batch == [batch[0]] && batch[0] in batch;
      assert forall i :: 0 <= i < |cs| ==> Hosted(kernels, cs[i], i);
      BatchKeepsConnections(kernels[d := k], cs + session, d, batch[0], TakenCount(kernels[d]));
    } else {
      assert (cs + session) + batch == cs + session;
    }
  }

  lemma KernelMovesForward(
      kernels: seq<Kernel>, d: nat, k: Kernel, cs: seq<Connection>, added: seq<Connection>, b: Buffer)
    requires d < |kernels| && kernels[d].queue.accepted <= k.queue.accepted
    ensures Forward(kernels, kernels[d := k], cs, cs + added, b)
  {
  }

  lemma KernelMoveKeepsInv(s: State, d: nat, k: Kernel)
    requires Inv(s) && d < |s.kernels|
    requires KernelSide(k) && DrainEffect(s.kernels[d], k) && Later(s.kernels[d], k)
    ensures Inv(KernelMove(s, d, k))
  {
    OpenedKeepsConnections(s.kernels, s.connections, d, k);
    var s' := KernelMove(s, d, k);
    forall b ensures Forward(s.kernels, s'.kernels, s.connections, s'.connections, b) {
      KernelMovesForward(s.kernels, d, k, s.connections, NewConnections(d, s.kernels[d], k), b);
    }
    QuietKeepsStreams(s, s');
  }

  lemma KernelStepKeepsInv(s: State, d: nat, e: Event)
    requires Inv(s) && d < |s.kernels| && Offers(e, OneLine)
    ensures Inv(Apply(s, KernelStep(d, e)))
  {
    var k := s.kernels[d];
    StepEffect(k, e);
    StepAccepts(k, e, OneLine);
    NewConnectionIsGood(d, k, KernelRuns.Step(k, e));
    KernelMoveKeepsInv(s, d, KernelRuns.Step(k, e));
  }

  lemma DialKeepsInv(s: State, d: nat)
    requires Inv(s) && d < |s.kernels|
    ensures Inv(Apply(s, Dial(d)))
  {
    assert KernelSide(s.kernels[d]);
    DialKeepsConnections(s.kernels, s.connections, d);
    QuietKeepsStreams(s, Apply(s, Dial(d)));
  }

  lemma AcceptKeepsInv(s: State)
    requires Inv(s) && Enabled(s, Accept)
    ensures Inv(Apply(s, Accept))
  {
    QuietKeepsStreams(s, Apply(s, Accept));
  }

  /** A connection's thread reads or loses its payload. */
  lemma SocketKeepsInv(s: State, i: nat, c: Connection)
    requires Inv(s) && i < |s.connections| && s.connections[i].status.Waiting?
    requires c == Read(s.connections[i]) || c == s.connections[i].(status := Lost)
    ensures Inv(SetConnection(s, i, c))
  {
    assert Hosted(s.kernels, s.connections[i], i);
    var k := s.kernels[c.device];
    assert KernelSide(k);
    ReadKeepsConnection(k.queue.accepted, s.connections[i], i);
    UpdateKeepsConnections(s.kernels, s.connections, i, c);
    QuietKeepsStreams(s, SetConnection(s, i, c));
  }

  /** What a parse step does to the connections and to the stream of one deque. */
  lemma ParseEffect(s: State, i: nat, b: Buffer)
    requires Enabled(s, Parse(i))
    ensures var s' := ParseStep(s, i);
            && s'.kernels == s.kernels && s'.served == s.served
            && s'.connections == s.connections[i := Advance(s.connections[i], i).0]
            && Get(s', b).stream == Extended(s.connections[i], i, b, Get(s, b).stream)
            && Get(s', b).workers == Get(s, b).workers
  {
  }

  lemma ParseKeepsStreams(s: State, i: nat)
    requires Inv(s) && Enabled(s, Parse(i))
    ensures StreamsInv(ParseStep(s, i))
  {
    var s' := ParseStep(s, i);
    forall b ensures StreamInv(s'.kernels, s'.connections, b, Get(s', b).stream) {
      assert Hosted(s.kernels, s.connections[i], i);
      AdvanceKeepsStream(s.kernels, s.connections, i, b, Get(s, b).stream);
      ParseEffect(s, i, b);
    }
  }

  lemma ParseKeepsInv(s: State, i: nat)
    requires Inv(s) && Enabled(s, Parse(i))
    ensures Inv(Apply(s, Parse(i)))
  {
    var c := s.connections[i];
    assert Hosted(s.kernels, c, i);
    ParseKeepsStreams(s, i);
    AdvanceKeepsConnection(s.kernels[c.device].queue.accepted, c, i);
    UpdateKeepsConnections(s.kernels, s.connections, i, Advance(c, i).0);
    ParseEffect(s, i, File);
    ParseEffect(s, i, Heartbeat);
  }

  lemma WorkEffect(s: State, b: Buffer, w: C.Step<Entry>)
    requires Enabled(s, Work(b, w))
    ensures var s' := Apply(s, Work(b, w));
            && s'.kernels == s.kernels && s'.connections == s.connections && s'.served == s.served
            && (forall c :: Get(s', c).stream == Get(s, c).stream)
            && |s'.file.workers| == |s.file.workers| && |s'.heartbeat.workers| == |s.heartbeat.workers|
  {
    assert C.Apply(Get(s, b), w).stream == Get(s, b).stream;
    assert !w.Spawn? ==> |C.Apply(Get(s, b), w).workers| == |Get(s, b).workers|;
  }

  lemma WorkKeepsInv(s: State, b: Buffer, w: C.Step<Entry>)
    requires Inv(s) && Enabled(s, Work(b, w))
    ensures Inv(Apply(s, Work(b, w)))
  {
    WorkEffect(s, b, w);
    QuietKeepsStreams(s, Apply(s, Work(b, w)));
  }

  lemma StepKeepsInv(s: State, step: Step)
    requires Inv(s) && Enabled(s, step)
    requires step.KernelStep? ==> Offers(step.e, OneLine)
    ensures Inv(Apply(s, step))
  {
    match step
    case AddDevice => AddDeviceKeepsInv(s);
    case KernelStep(d, e) => KernelStepKeepsInv(s, d, e);
    case Dial(d) => DialKeepsInv(s, d);
    case Accept => AcceptKeepsInv(s);
    case Receive(c) => SocketKeepsInv(s, c, Read(s.connections[c]));
    case Lose(c) => SocketKeepsInv(s, c, s.connections[c].(status := Lost));
    case Parse(c) => ParseKeepsInv(s, c);
    case Work(b, w) => WorkKeepsInv(s, b, w);
  }

  /** The step that each deque's own machine takes, if any. */
  function BufferStep(s: State, step: Step, b: Buffer): (w: Option<C.Step<Entry>>)
    requires Enabled(s, step)
    ensures w.None? ==> Get(Apply(s, step), b) == Get(s, b)
    ensures w.Some? ==> C.Enabled(Get(s, b), w.value) && Get(Apply(s, step), b) == C.Apply(Get(s, b), w.value)
  {
    match step
    case Work(c, w) => if b == c then Some(w) else None
    case Accept => if b.Spade? then None else Some(C.Spawn)
    case Parse(i) =>
      var entry := Advance(s.connections[i], i).1;
      if entry.Some? && b == Target(s.connections[i].stage) then Some(C.Append(entry.value)) else None
    case _ => None
  }

  lemma StepKeepsBuffer(s: State, step: Step, b: Buffer)
    requires Enabled(s, step) && C.Inv(Get(s, b))
    ensures C.Inv(Get(Apply(s, step), b))
  {
    var w := BufferStep(s, step, b);
    if w.Some? {
      C.StepKeepsInv(Get(s, b), w.value);
    }
  }

  /** Runs whose kernel events offer only records without a Python line boundary. */
  ghost predicate CleanRun(steps: seq<Step>) {
    && Exec(START, steps).Some?
    && (forall i :: 0 <= i < |steps| && steps[i].KernelStep? ==> Offers(steps[i].e, OneLine))
  }

  function End(steps: seq<Step>): State
    requires Exec(START, steps).Some?
  {
    Exec(START, steps).value
  }

  lemma {:induction false} RunKeepsInv(steps: seq<Step>)
    requires CleanRun(steps)
    ensures Inv(End(steps))
    ensures forall b :: C.Inv(Get(End(steps), b))
  {
    if steps != [] {
      RunKeepsInv(steps[..|steps| - 1]);
      var s, step := End(steps[..|steps| - 1]), steps[|steps| - 1];
      StepKeepsInv(s, step);
      forall b ensures C.Inv(Get(Apply(s, step), b)) {
        StepKeepsBuffer(s, step, b);
      }
    }
  }

  /** In every run a connection is read only once it is accepted. */
  lemma {:induction false} UnservedAreUnread(steps: seq<Step>)
    requires Exec(START, steps).Some?
    ensures forall i :: End(steps).served <= i < |End(steps).connections| ==> End(steps).connections[i].status.Waiting?
  {
    if steps != [] {
      var s, step := End(steps[..|steps| - 1]), steps[|steps| - 1];
      UnservedAreUnread(steps[..|steps| - 1]);
      StepKeepsUnread(s, step);
    }
  }

  lemma StepKeepsUnread(s: State, step: Step)
    requires Enabled(s, step)
    requires forall i :: s.served <= i < |s.connections| ==> s.connections[i].status.Waiting?
    ensures var s' := Apply(s, step);
            forall i :: s'.served <= i < |s'.connections| ==> s'.connections[i].status.Waiting?
  {
    if step.Parse? {
      ParseEffect(s, step.c, File);
    }
  }

  /** What left a deque by a pop is with one of its workers. */
  lemma {:induction false} PoppedIsClaimed(steps: seq<Step>, b: Buffer)
    requires Exec(START, steps).Some?
    ensures C.Claimed(Get(End(steps), b))
  {
    if steps != [] {
      var s, step := End(steps[..|steps| - 1]), steps[|steps| - 1];
      PoppedIsClaimed(steps[..|steps| - 1], b);
      var w := BufferStep(s, step, b);
      if w.Some? {
        C.StepKeepsClaimed(Get(s, b), w.value);
      }
    }
  }

  // ------------------------------------------------------------ end to end

  predicate SameRecord(e: Entry, f: Entry) {
    e.device == f.device && e.origin == f.origin
  }

  /** Distinct places of a stream hold distinct accepted records: batches do not overlap. */
  lemma StreamIsUnique(s: State, b: Buffer, i: nat, j: nat)
    requires Inv(s) && i < |Get(s, b).stream| && j < |Get(s, b).stream| && i != j
    ensures !SameRecord(Get(s, b).stream[i], Get(s, b).stream[j])
  {
    var e, f := Get(s, b).stream[i], Get(s, b).stream[j];
    assert StreamInv(s.kernels, s.connections, b, Get(s, b).stream);
    assert GoodEntry(s.kernels, s.connections, b, e) && GoodEntry(s.kernels, s.connections, b, f);
    assert if i < j then BatchOrder(e, f) else BatchOrder(f, e);
    if e.conn != f.conn && SameRecord(e, f) {
      OnePacketHolds(s, e.conn, f.conn, e.origin);
    }
  }

  /** A record of a device is in one packet only. */
  lemma OnePacketHolds(s: State, i: nat, j: nat, p: nat)
    requires Inv(s) && i < |s.connections| && j < |s.connections|
    requires s.connections[i].device == s.connections[j].device
    requires s.connections[i].packet.first <= p < s.connections[i].packet.last
    requires s.connections[j].packet.first <= p < s.connections[j].packet.last
    ensures i == j
  {
    assert i < j ==> Successive(s.connections[i], s.connections[j]);
    assert j < i ==> Successive(s.connections[j], s.connections[i]);
  }

  lemma LimitIsInPacket(s: State, i: nat, b: Buffer)
    requires Inv(s) && i < |s.connections|
    ensures s.connections[i].packet.first <= Limit(s.connections[i], b) <= s.connections[i].packet.last
  {
    assert Hosted(s.kernels, s.connections[i], i);
  }

  /** Entries of one batch appear in the order their records were accepted. */
  predicate InBatchOrder(entries: seq<C.Placed<Entry>>) {
    forall i, j :: 0 <= i < j < |entries| ==> BatchOrder(entries[i].item, entries[j].item)
  }

  ghost predicate NoRecordTwice(entries: seq<C.Placed<Entry>>) {
    forall i, j :: 0 <= i < j < |entries| ==> !SameRecord(entries[i].item, entries[j].item)
  }

  ghost predicate NoSharedRecord(a: C.Worker<Entry>, b: C.Worker<Entry>) {
    forall i, j :: 0 <= i < |C.Owned(a)| && 0 <= j < |C.Owned(b)| ==>
        !SameRecord(C.Owned(a)[i].item, C.Owned(b)[j].item)
  }

  ghost predicate AllFaithful(kernels: seq<Kernel>, entries: seq<C.Placed<Entry>>) {
    forall i :: 0 <= i < |entries| ==>
      entries[i].item.device < |kernels| && Faithful(kernels[entries[i].item.device].queue.accepted, entries[i].item)
  }

  /** What one worker took out of a deque, read back through the stream. */
  lemma WorkerIsFaithful(s: State, b: Buffer, w: nat)
    requires Inv(s) && C.Inv(Get(s, b)) && w < |Get(s, b).workers|
    ensures var own := C.Owned(Get(s, b).workers[w]);
            InBatchOrder(own) && NoRecordTwice(own) && AllFaithful(s.kernels, own)
  {
    var q := Get(s, b);
    var own := C.Owned(q.workers[w]);
    assert StreamInv(s.kernels, s.connections, b, q.stream) && C.WorkerInv(q, q.workers[w]);
    forall i | 0 <= i < |own| ensures GoodEntry(s.kernels, s.connections, b, own[i].item) {
      assert own[i].item == q.stream[own[i].pos];
    }
    forall i, j | 0 <= i < j < |own|
      ensures BatchOrder(own[i].item, own[j].item) && !SameRecord(own[i].item, own[j].item)
    {
      assert own[i].item == q.stream[own[i].pos] && own[j].item == q.stream[own[j].pos];
      StreamIsUnique(s, b, own[i].pos, own[j].pos);
    }
  }

  /** Distinct workers hold distinct stream positions, hence distinct accepted records. */
  lemma RecordsApart(s: State, b: Buffer, v: nat, w: nat)
    requires Inv(s) && C.Inv(Get(s, b)) && v < |Get(s, b).workers| && w < |Get(s, b).workers| && v != w
    ensures NoSharedRecord(Get(s, b).workers[v], Get(s, b).workers[w])
  {
    var q := Get(s, b);
    var x, y := C.Owned(q.workers[v]), C.Owned(q.workers[w]);
    assert C.WorkerInv(q, q.workers[v]) && C.WorkerInv(q, q.workers[w]);
    assert C.Apart(q.workers[v], q.workers[w]) || C.Apart(q.workers[w], q.workers[v]);
    forall i, j | 0 <= i < |x| && 0 <= j < |y| ensures !SameRecord(x[i].item, y[j].item) {
      assert x[i].pos != y[j].pos;
      assert x[i].item == q.stream[x[i].pos] && y[j].item == q.stream[y[j].pos];
      StreamIsUnique(s, b, x[i].pos, y[j].pos);
    }
  }

  /**
   * The joining theorem, for every run, every number of devices and every number of clients:
   * what any worker of any of the three deques handed on (for the SPADE deque, what was sent to
   * that client) is a list of translations of records accepted by the devices' kernel queues,
   * each record at most once and those of one batch in the order they were accepted; and no
   * record reaches two workers of the same deque. The order of different batches of one device
   * is the subject of the module Ordering.
   */
  lemma EndToEnd(steps: seq<Step>, b: Buffer, v: nat, w: nat)
    requires CleanRun(steps)
    requires v < |Get(End(steps), b).workers| && w < |Get(End(steps), b).workers|
    ensures var workers := Get(End(steps), b).workers;
            && InBatchOrder(C.Owned(workers[w]))
            && NoRecordTwice(C.Owned(workers[w]))
            && AllFaithful(End(steps).kernels, C.Owned(workers[w]))
            && (v != w ==> NoSharedRecord(workers[v], workers[w]))
  {
    RunKeepsInv(steps);
    var s := End(steps);
    assert C.Inv(Get(s, b));
    WorkerIsFaithful(s, b, w);
    if v != w {
      RecordsApart(s, b, v, w);
    }
  }

  /** Workers are only ever added, and a threshold never changes. */
  lemma CrewGrows(s: State, step: Step, b: Buffer)
    requires Enabled(s, step)
    ensures |Get(s, b).workers| <= |Get(Apply(s, step), b).workers|
    ensures Get(Apply(s, step), b).threshold == Get(s, b).threshold
  {
    var w := BufferStep(s, step, b);
    if w.Some? {
      C.CrewGrows(Get(s, b), w.value);
    }
  }

  lemma StepKeepsMargin(s: State, step: Step, b: Buffer)
    requires Enabled(s, step) && C.Margin(Get(s, b)) && |Get(s, b).workers| <= Get(s, b).threshold + 1
    ensures C.Margin(Get(Apply(s, step), b))
  {
    var w := BufferStep(s, step, b);
    if w.Some? {
      C.StepKeepsMargin(Get(s, b), w.value);
    }
  }

  /** A deque with at most threshold + 1 workers is never popped when empty. */
  lemma {:induction false} NoEmptyPop(steps: seq<Step>, b: Buffer)
    requires Exec(START, steps).Some?
    requires |Get(End(steps), b).workers| <= Get(START, b).threshold + 1
    ensures C.Margin(Get(End(steps), b))
    ensures Get(End(steps), b).threshold == Get(START, b).threshold
  {
    if steps != [] {
      var s, step := End(steps[..|steps| - 1]), steps[|steps| - 1];
      CrewGrows(s, step, b);
      NoEmptyPop(steps[..|steps| - 1], b);
      StepKeepsMargin(s, step, b);
    }
  }

  // -------------------------------------------------------------------- runs

  /** Steps that change nothing on a kernel, or offer it clean records. */
  ghost predicate Clean(step: Step) {
    step.KernelStep? ==> Offers(step.e, OneLine)
  }

  lemma Do(steps: seq<Step>, step: Step) returns (steps': seq<Step>)
    requires CleanRun(steps) && Enabled(End(steps), step) && Clean(step)
    ensures steps' == steps + [step]
    ensures CleanRun(steps') && End(steps') == Apply(End(steps), step)
  {
    steps' := steps + [step];
    assert steps'[..|steps|] == steps;
  }

  /** A prefix of a clean run is a clean run. */
  lemma {:induction false} CleanPrefix(steps: seq<Step>, more: seq<Step>)
    requires CleanRun(steps + more)
    ensures CleanRun(steps)
    decreases |more|
  {
    if more == [] {
      assert steps + more == steps;
    } else {
      var all := steps + more;
      var init := all[..|all| - 1];
      assert init == steps + more[..|more| - 1];
      forall i | 0 <= i < |init| && init[i].KernelStep? ensures Offers(init[i].e, OneLine) {
        assert all[i] == init[i];
      }
      CleanPrefix(steps, more[..|more| - 1]);
    }
  }

  /** The thread moved on: what it brought to the deque only grows, and a lost payload stays lost. */
  predicate MovedOn(c: Connection, c': Connection, b: Buffer) {
    && c'.device == c.device && c'.packet == c.packet
    && Limit(c, b) <= Limit(c', b)
    && (c.status.Lost? ==> c'.status.Lost?)
  }

  /** Streams and connections only ever grow. */
  predicate Grown(s: State, s': State, b: Buffer) {
    && Get(s, b).stream <= Get(s', b).stream
    && |s.connections| <= |s'.connections| && |s.kernels| <= |s'.kernels|
    && (forall i :: 0 <= i < |s.connections| ==> MovedOn(s.connections[i], s'.connections[i], b))
  }

  lemma AdvanceMovesOn(accepted: seq<Record>, c: Connection, i: nat, b: Buffer)
    requires ConnectionInv(accepted, c, i) && CanParse(c)
    ensures MovedOn(c, Advance(c, i).0, b)
  {
    AdvanceKeepsConnection(accepted, c, i);
    AdvanceLimit(accepted, c, i, b);
  }

  lemma ParseGrows(s: State, i: nat, b: Buffer)
    requires Enabled(s, Parse(i)) && Hosted(s.kernels, s.connections[i], i)
    ensures Grown(s, ParseStep(s, i), b)
  {
    AdvanceMovesOn(s.kernels[s.connections[i].device].queue.accepted, s.connections[i], i, b);
    ParseEffect(s, i, b);
  }

  lemma WorkGrows(s: State, c: Buffer, w: C.Step<Entry>, b: Buffer)
    requires Enabled(s, Work(c, w))
    ensures Grown(s, Apply(s, Work(c, w)), b)
  {
    assert C.Apply(Get(s, c), w).stream == Get(s, c).stream;
  }

  lemma OpenGrows(s: State, s': State, b: Buffer)
    requires s.connections <= s'.connections && |s.kernels| <= |s'.kernels| && Get(s', b).stream == Get(s, b).stream
    ensures Grown(s, s', b)
  {
  }

  lemma SocketGrows(s: State, i: nat, c: Connection, b: Buffer)
    requires i < |s.connections| && MovedOn(s.connections[i], c, b)
    ensures Grown(s, SetConnection(s, i, c), b)
  {
  }

  lemma StepGrows(s: State, step: Step, b: Buffer)
    requires ConnectionsInv(s.kernels, s.connections) && Enabled(s, step)
    ensures Grown(s, Apply(s, step), b)
  {
    match step
    case Parse(i) => ParseGrows(s, i, b);
    case Work(c, w) => WorkGrows(s, c, w, b);
    case Receive(i) => SocketGrows(s, i, Read(s.connections[i]), b);
    case Lose(i) => SocketGrows(s, i, s.connections[i].(status := Lost), b);
    case _ => OpenGrows(s, Apply(s, step), b);
  }

  lemma KernelsGrow(s: State, step: Step, d: nat)
    requires Enabled(s, step) && d < |s.kernels| && KernelSide(s.kernels[d])
    ensures d < |Apply(s, step).kernels| && Later(s.kernels[d], Apply(s, step).kernels[d])
  {
    if step.KernelStep? && step.d == d {
      StepEffect(s.kernels[d], step.e);
      NewConnectionIsGood(d, s.kernels[d], KernelRuns.Step(s.kernels[d], step.e));
    } else {
      assert Apply(s, step).kernels[d] == s.kernels[d];
    }
  }

  /** Only parsing brings records to a deque; a new connection has brought none. */
  lemma OnlyParsingMoves(s: State, step: Step, i: nat, b: Buffer)
    requires Enabled(s, step) && !step.Parse? && i < |Apply(s, step).connections|
    ensures var c := Apply(s, step).connections[i];
            if i < |s.connections| then Limit(c, b) == Limit(s.connections[i], b)
            else c == Fresh(c.device, c.packet)
  {
    if step.KernelStep? {
      var added := NewConnections(step.d, s.kernels[step.d], KernelRuns.Step(s.kernels[step.d], step.e));
      assert i >= |s.connections| ==> Apply(s, step).connections[i] == added[i - |s.connections|];
    }
  }
}
