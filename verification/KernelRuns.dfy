// Whole runs of the collector: arriving records and wake-ups of the audit thread, each
// wake-up opening a TEE session when there is none, draining, and invoking the TA.
module KernelRuns {
  import opened Text
  import opened Wrappers
  import opened KernelSpec

  /**
   * What the TEE driver holds: context counts, contexts with an open session, live shared buffers,
   * delivered payloads.
   */
  datatype Driver = Driver(created: nat, released: nat, sessions: set<nat>, shm: nat, wire: seq<string>)

  datatype TeecResult = TeecSuccess | TeecShortBuffer | TeecError

  /** How the world answers one send attempt. */
  datatype Attempt = Attempt(
    contextOk: bool,
    sessionRc: int, sessionRet: TeecResult,
    arrive: Arrivals,
    allocOk: bool,
    invokeRc: int, invokeRet: TeecResult)
  {
    predicate SessionOk() {
      sessionRc >= 0 && sessionRet.TeecSuccess?
    }
    predicate InvokeOk() {
      invokeRc >= 0 && !invokeRet.TeecError?
    }
    function Outcome(): Outcome {
      if !allocOk then AllocFailed else if !InvokeOk() then InvokeFailed else Delivered
    }
  }

  datatype Outcome = Delivered | AllocFailed | InvokeFailed

  /** One completed drain and what became of its batch. */
  datatype Sent = Sent(batch: seq<Record>, dropped: seq<Record>, outcome: Outcome)

  /** `ctx` is the `tee_ctx` pointer: the handle of the context in use, or None for NULL. */
  datatype Kernel = Kernel(queue: Queue, ctx: Option<nat>, driver: Driver, sent: seq<Sent>)

  const BOOT: Kernel := Kernel(Queue([], []), None, Driver(0, 0, {}, 0, []), [])

  /** Opening a context and a session; a context whose session fails to open is closed again. */
  function Connect(d: Driver, a: Attempt): (Option<nat>, Driver) {
    if !a.contextOk then (None, d)
    else if !a.SessionOk() then (None, d.(created := d.created + 1, released := d.released + 1))
    else (Some(d.created), d.(created := d.created + 1, sessions := d.sessions + {d.created}))
  }

  /** Invoking the TA: only a successful invocation frees its buffer; a failed one ends the session. */
  function Invoke(ctx: nat, d: Driver, a: Attempt, payload: string): (Option<nat>, Driver) {
    match a.Outcome()
    case Delivered => (Some(ctx), d.(wire := d.wire + [payload]))
    case AllocFailed => (None, d.(sessions := d.sessions - {ctx}))
    case InvokeFailed => (None, d.(sessions := d.sessions - {ctx}, shm := d.shm + 1))
  }

  /** Draining the queue into one payload and invoking the TA over an open session. */
  function Transmit(k: Kernel, a: Attempt): Kernel
    requires k.queue.pending != [] && k.ctx.Some?
  {
    var d := Drain(k.queue, [], a.arrive, 0);
    var (ctx, driver) := Invoke(k.ctx.value, k.driver, a, Frame(d.batch));
    Kernel(d.queue, ctx, driver, k.sent + [Sent(d.batch, d.dropped, a.Outcome())])
  }

  /** One send attempt. */
  function Send(k: Kernel, a: Attempt): Kernel
    requires k.queue.pending != []
  {
    var (ctx, driver) := if k.ctx.None? then Connect(k.driver, a) else (k.ctx, k.driver);
    var k' := k.(ctx := ctx, driver := driver);
    if ctx.None? then k' else Transmit(k', a)
  }

  /** The audit thread wakes up and sends once enough records are queued. */
  function Wake(k: Kernel, a: Attempt): Kernel {
    if |k.queue.pending| >= SEND_TRIGGER then Send(k, a) else k
  }

  datatype Event = Arrival(r: Record) | WakeUp(a: Attempt)

  function Step(k: Kernel, e: Event): Kernel {
    match e
    case Arrival(r) => k.(queue := Offer(k.queue, r))
    case WakeUp(a) => Wake(k, a)
  }

  function Run(k: Kernel, events: seq<Event>): Kernel
    decreases |events|
  {
    if events == [] then k else Run(Step(k, events[0]), events[1..])
  }

  /** A run takes its events one by one, in order. */
  lemma {:induction false} RunSnoc(k: Kernel, events: seq<Event>, e: Event)
    ensures Run(k, []) == k && Run(k, events + [e]) == Step(Run(k, events), e)
    decreases |events|
  {
    if events == [] {
      assert [e][1..] == [] && events + [e] == [e];
    } else {
      assert (events + [e])[0] == events[0] && (events + [e])[1..] == events[1..] + [e];
      RunSnoc(Step(k, events[0]), events[1..], e);
    }
  }

  // ------------------------------------------------------------- conservation

  /** All records ever taken out of the queue, drain by drain. */
  function Taken(sent: seq<Sent>): seq<Record> {
    if sent == [] then []
    else Taken(sent[..|sent| - 1]) + sent[|sent| - 1].batch + sent[|sent| - 1].dropped
  }

  predicate Conserved(k: Kernel) {
    && k.queue.accepted == Taken(k.sent) + k.queue.pending
    && (forall i :: 0 <= i < |k.sent| ==> |k.sent[i].dropped| <= 1)
  }

  lemma TakenSnoc(sent: seq<Sent>, s: Sent)
    ensures Taken(sent + [s]) == Taken(sent) + s.batch + s.dropped
  {
    assert (sent + [s])[..|sent|] == sent;
  }

  lemma TransmitConserves(k: Kernel, a: Attempt)
    requires k.queue.pending != [] && k.ctx.Some? && Conserved(k)
    ensures Conserved(Transmit(k, a))
    ensures k.queue.accepted <= Transmit(k, a).queue.accepted
  {
    var taken := Taken(k.sent);
    assert taken + [] == taken;
    DrainConserves(taken, k.queue, [], a.arrive, 0);
    var d := Drain(k.queue, [], a.arrive, 0);
    TakenSnoc(k.sent, Sent(d.batch, d.dropped, a.Outcome()));
  }

  lemma SendConserves(k: Kernel, a: Attempt)
    requires k.queue.pending != [] && Conserved(k)
    ensures Conserved(Send(k, a))
    ensures k.queue.accepted <= Send(k, a).queue.accepted
  {
    var (ctx, driver) := if k.ctx.None? then Connect(k.driver, a) else (k.ctx, k.driver);
    if ctx.Some? {
      TransmitConserves(k.(ctx := ctx, driver := driver), a);
    }
  }

  lemma StepConserves(k: Kernel, e: Event)
    requires Conserved(k)
    ensures Conserved(Step(k, e))
    ensures k.queue.accepted <= Step(k, e).queue.accepted
  {
    match e
    case Arrival(r) =>
      assert Taken(k.sent) + (k.queue.pending + [r]) == Taken(k.sent) + k.queue.pending + [r];
    case WakeUp(a) =>
      if |k.queue.pending| >= SEND_TRIGGER {
        SendConserves(k, a);
      }
  }

  /**
   * Over every run: what was accepted is exactly what the drains took out, in order, followed
   * by what is still queued; and each drain dropped at most one record.
   */
  lemma {:induction false} RunConserves(k: Kernel, events: seq<Event>)
    requires Conserved(k)
    ensures Conserved(Run(k, events))
    ensures k.queue.accepted <= Run(k, events).queue.accepted
    decreases |events|
  {
    if events != [] {
      StepConserves(k, events[0]);
      RunConserves(Step(k, events[0]), events[1..]);
    }
  }

  /** Every record the event offers to the queue satisfies `p`. */
  ghost predicate Offers(e: Event, p: Record -> bool) {
    match e
    case Arrival(r) => p(r)
    case WakeUp(a) => AllArriving(a.arrive, p)
  }

  lemma StepAccepts(k: Kernel, e: Event, p: Record -> bool)
    requires All(k.queue.accepted, p) && Offers(e, p)
    ensures All(Step(k, e).queue.accepted, p)
  {
    if e.WakeUp? && |k.queue.pending| >= SEND_TRIGGER {
      DrainAccepts(k.queue, [], e.a.arrive, 0, p);
    }
  }

  /** A drain that lost nothing and stayed within the batch bounds. */
  predicate SafeDrain(s: Sent) {
    s.dropped == [] && SEND_LIMIT < |Frame(s.batch)| <= 11024 && |s.batch| <= 477
  }

  predicate Lossless(k: Kernel) {
    && Conserved(k)
    && All(k.queue.accepted, AtLeast20)
    && (forall i :: 0 <= i < |k.sent| ==> SafeDrain(k.sent[i]))
  }

  lemma StepLossless(k: Kernel, e: Event)
    requires Lossless(k) && Offers(e, AtLeast20)
    ensures Lossless(Step(k, e))
  {
    StepConserves(k, e);
    StepAccepts(k, e, AtLeast20);
    if e.WakeUp? && |k.queue.pending| >= SEND_TRIGGER {
      TriggeredDrainIsLossless(k.queue, Taken(k.sent), e.a.arrive);
    }
  }

  function Batches(sent: seq<Sent>): seq<Record> {
    if sent == [] then [] else Batches(sent[..|sent| - 1]) + sent[|sent| - 1].batch
  }

  lemma {:induction false} TakenIsBatches(sent: seq<Sent>)
    requires forall i :: 0 <= i < |sent| ==> sent[i].dropped == []
    ensures Taken(sent) == Batches(sent)
  {
    if sent != [] {
      TakenIsBatches(sent[..|sent| - 1]);
    }
  }

  /**
   * With records of at least 20 bytes, no run loses a record inside the kernel: the accepted
   * records are the batches, in order, followed by the queue, and every batch is within bounds.
   */
  lemma {:induction false} RunIsLossless(k: Kernel, events: seq<Event>)
    requires Lossless(k)
    requires forall i :: 0 <= i < |events| ==> Offers(events[i], AtLeast20)
    ensures Lossless(Run(k, events))
    ensures Run(k, events).queue.accepted == Batches(Run(k, events).sent) + Run(k, events).queue.pending
    decreases |events|
  {
    if events == [] {
      TakenIsBatches(k.sent);
    } else {
      StepLossless(k, events[0]);
      RunIsLossless(Step(k, events[0]), events[1..]);
    }
  }

  /** The payloads that reached the TA, as the drains recorded them. */
  function DeliveredTexts(sent: seq<Sent>): seq<string> {
    if sent == [] then []
    else
      var last := sent[|sent| - 1];
      DeliveredTexts(sent[..|sent| - 1]) + if last.outcome.Delivered? then [Frame(last.batch)] else []
  }

  // ----------------------------------------------------------------- sessions

  function Count(sent: seq<Sent>, outcome: Outcome): nat {
    if sent == [] then 0
    else Count(sent[..|sent| - 1], outcome) + if sent[|sent| - 1].outcome == outcome then 1 else 0
  }

  function FailedInvokes(sent: seq<Sent>): nat {
    Count(sent, AllocFailed) + Count(sent, InvokeFailed)
  }

  /**
   * The session automaton between attempts: `tee_ctx` is set exactly when a session is open, at
   * most one session is open, each failed invocation left one context open, each invocation that
   * failed after allocation left one buffer, and the TA received exactly the delivered batches.
   */
  predicate SessionInv(k: Kernel) {
    && k.driver.sessions == (if k.ctx.Some? then {k.ctx.value} else {})
    && (k.ctx.Some? ==> k.ctx.value < k.driver.created)
    && k.driver.created - k.driver.released == (if k.ctx.Some? then 1 else 0) + FailedInvokes(k.sent)
    && k.driver.shm == Count(k.sent, InvokeFailed)
    && k.driver.wire == DeliveredTexts(k.sent)
  }

  lemma AccountsSnoc(sent: seq<Sent>, s: Sent)
    ensures forall outcome :: Count(sent + [s], outcome) == Count(sent, outcome) + if s.outcome == outcome then 1 else 0
    ensures DeliveredTexts(sent + [s]) == DeliveredTexts(sent) + if s.outcome.Delivered? then [Frame(s.batch)] else []
  {
    assert (sent + [s])[..|sent|] == sent;
  }

  lemma ConnectKeepsSessionInv(k: Kernel, a: Attempt)
    requires SessionInv(k) && k.ctx.None?
    ensures var (ctx, driver) := Connect(k.driver, a);
            SessionInv(k.(ctx := ctx, driver := driver))
  {
  }

  lemma TransmitKeepsSessionInv(k: Kernel, a: Attempt)
    requires SessionInv(k) && k.queue.pending != [] && k.ctx.Some?
    ensures SessionInv(Transmit(k, a))
  {
    var d := Drain(k.queue, [], a.arrive, 0);
    AccountsSnoc(k.sent, Sent(d.batch, d.dropped, a.Outcome()));
  }

  lemma SendKeepsSessionInv(k: Kernel, a: Attempt)
    requires k.queue.pending != [] && SessionInv(k)
    ensures SessionInv(Send(k, a))
  {
    var (ctx, driver) := if k.ctx.None? then Connect(k.driver, a) else (k.ctx, k.driver);
    var k' := k.(ctx := ctx, driver := driver);
    if k.ctx.None? {
      ConnectKeepsSessionInv(k, a);
    }
    if ctx.Some? {
      TransmitKeepsSessionInv(k', a);
    }
  }

  lemma {:induction false} RunKeepsSessionInv(k: Kernel, events: seq<Event>)
    requires SessionInv(k)
    ensures SessionInv(Run(k, events))
    decreases |events|
  {
    if events != [] {
      if events[0].WakeUp? && |k.queue.pending| >= SEND_TRIGGER {
        SendKeepsSessionInv(k, events[0].a);
      }
      RunKeepsSessionInv(Step(k, events[0]), events[1..]);
    }
  }

  /** A step either adds no drain, or adds one whose batch reaches the wire exactly when it was delivered. */
  predicate DrainEffect(k: Kernel, k': Kernel) {
    if k'.sent == k.sent then
      k'.driver.wire == k.driver.wire
    else
      && |k'.sent| == |k.sent| + 1 && k'.sent[..|k.sent|] == k.sent
      && var last := k'.sent[|k.sent|];
         k'.driver.wire == k.driver.wire + if last.outcome.Delivered? then [Frame(last.batch)] else []
  }

  lemma StepEffect(k: Kernel, e: Event)
    requires Conserved(k) && SessionInv(k)
    ensures var k' := Step(k, e);
            Conserved(k') && SessionInv(k') && DrainEffect(k, k') && k.queue.accepted <= k'.queue.accepted
  {
    StepConserves(k, e);
    if e.WakeUp? && |k.queue.pending| >= SEND_TRIGGER {
      SendKeepsSessionInv(k, e.a);
    }
  }

  /** Every run of the kernel from boot conserves its records and keeps its session accounts. */
  lemma EveryRun(events: seq<Event>)
    ensures Conserved(Run(BOOT, events)) && SessionInv(Run(BOOT, events))
  {
    RunConserves(BOOT, events);
    RunKeepsSessionInv(BOOT, events);
  }

  /** The conditions under which a wake-up of the audit thread gets how far. */
  datatype Reached = Reached(tried: bool, connects: bool, drained: bool, delivered: bool)

  function HowFar(k: Kernel, a: Attempt): Reached {
    var tried := |k.queue.pending| >= 500;
    var connects := tried && k.ctx.None? && a.contextOk && a.sessionRc >= 0 && a.sessionRet == TeecSuccess;
    var drained := tried && (k.ctx.Some? || connects);
    Reached(tried, connects, drained,
      drained && a.allocOk && a.invokeRc >= 0 && (a.invokeRet == TeecSuccess || a.invokeRet == TeecShortBuffer))
  }

  function One(b: bool): nat {
    if b then 1 else 0
  }

  /**
   * What a wake-up comes to. It tries to send exactly from 500 queued records on; it opens a
   * session exactly when it has none and context and session come up; it drains exactly when it
   * has a session, and leaves the queue alone otherwise; a payload, the framed batch, reaches the
   * TA exactly when the drain happened, the buffer was allocated and the invocation ended well or
   * short; only then it keeps its session; and each failure leaves its own trace in the driver.
   */
  lemma WakeOutcome(k: Kernel, a: Attempt)
    ensures var k', r, d := Wake(k, a), HowFar(k, a), k.driver;
            && (!r.tried ==> k' == k)
            && (if r.drained then k'.queue == Drain(k.queue, [], a.arrive, 0).queue && |k'.sent| == |k.sent| + 1
                else k'.queue == k.queue && k'.sent == k.sent)
            && k'.driver.wire == d.wire + (if r.delivered then [Frame(Drain(k.queue, [], a.arrive, 0).batch)] else [])
            && (k'.ctx.Some? <==> if r.tried then r.delivered else k.ctx.Some?)
            && k'.driver.created == d.created + One(r.tried && k.ctx.None? && a.contextOk)
            && k'.driver.released == d.released + One(r.tried && k.ctx.None? && a.contextOk && !r.connects)
            && k'.driver.shm == d.shm + One(r.drained && a.allocOk && !r.delivered)
  {
  }

  // ---------------------------------------------------------------- the queue

  lemma {:induction false} RunStaysWithin(k: Kernel, events: seq<Event>)
    requires |k.queue.pending| <= 15000
    ensures |Run(k, events).queue.pending| <= 15000
    decreases |events|
  {
    if events != [] {
      StepStaysWithin(k, events[0]);
      RunStaysWithin(Step(k, events[0]), events[1..]);
    }
  }

  lemma StepStaysWithin(k: Kernel, e: Event)
    requires |k.queue.pending| <= 15000
    ensures |Step(k, e).queue.pending| <= 15000
  {
    match e
    case Arrival(r) => OfferedExactly(k.queue, r);
    case WakeUp(a) =>
      WakeOutcome(k, a);
      if |k.queue.pending| > 0 {
        DrainStaysWithin(k.queue, [], a.arrive, 0);
      }
  }

  /** In every run from boot an arriving record is rejected if and only if 15000 are queued. */
  lemma RejectedExactly(events: seq<Event>, r: Record)
    ensures var q := Run(BOOT, events).queue;
            var q' := Step(Run(BOOT, events), Arrival(r)).queue;
            && |q.pending| <= 15000
            && (q' == q <==> |q.pending| == 15000)
            && (|q.pending| < 15000 ==> q' == Queue(q.accepted + [r], q.pending + [r]))
  {
    RunStaysWithin(BOOT, events);
    OfferedExactly(Run(BOOT, events).queue, r);
  }
}
