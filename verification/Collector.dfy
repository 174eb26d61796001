// The collector as the kernel runs it: the ring, the `tee_ctx` global and the TEE driver,
// updated in place. Every operation is proved equal to its value-level step.
module Collector {
  import opened Text
  import opened Wrappers
  import opened KernelSpec
  import opened KernelRuns
  import opened Ring

  /** The TEE client driver, as far as the collector can observe it. */
  class TeeDriver {
    var created: nat
    var released: nat
    var sessions: set<nat>
    var shm: nat
    var wire: seq<string>

    ghost function State(): Driver
      reads this
    {
      Driver(created, released, sessions, shm, wire)
    }

    constructor ()
      ensures State() == BOOT.driver
    {
      created, released, sessions, shm, wire := 0, 0, {}, 0, [];
    }

    method OpenContext(ok: bool) returns (ctx: Option<nat>)
      modifies this`created
      ensures ctx == if ok then Some(old(created)) else None
      ensures created == old(created) + if ok then 1 else 0
    {
      if !ok { return None; }
      ctx := Some(created);
      created := created + 1;
    }
  }

  class KernelCollector {
    const ring: RingBuffer
    const tee: TeeDriver
    var teeCtx: Option<nat>
    ghost var accepted: seq<Record>
    ghost var sent: seq<Sent>

    ghost predicate Valid()
      reads this, ring
    {
      ring.Valid()
    }

    ghost function Pending(): Queue
      requires Valid()
      reads this, ring, ring.slots
    {
      Queue(accepted, ring.Contents())
    }

    ghost function State(): Kernel
      requires Valid()
      reads this, ring, ring.slots, tee
    {
      Kernel(Pending(), teeCtx, tee.State(), sent)
    }

    constructor ()
      ensures Valid() && fresh(ring) && fresh(ring.slots) && fresh(tee)
      ensures State() == BOOT
    {
      ring := new RingBuffer();
      tee := new TeeDriver();
      teeCtx, accepted, sent := None, [], [];
    }

    method Enqueue(auditLog: Record)
      requires Valid()
      modifies ring, ring.slots, this`accepted
      ensures Valid()
      ensures Pending() == Offer(old(Pending()), auditLog)
      ensures |old(Pending()).pending| == 15000 ==> Pending() == old(Pending())
      ensures |old(Pending()).pending| < 15000 ==>
                Pending() == Queue(old(Pending()).accepted + [auditLog], old(Pending()).pending + [auditLog])
    {
      var rc := ring.Enqueue(auditLog);
      if rc == 0 {
        accepted := accepted + [auditLog];
      }
    }

    /** Records enqueued by other CPUs between two steps of a drain. */
    method Interference(arriving: seq<Record>)
      requires Valid()
      modifies ring, ring.slots, this`accepted
      ensures Valid()
      ensures Pending() == OfferAll(old(Pending()), arriving)
    {
      var i := 0;
      while i < |arriving|
        invariant 0 <= i <= |arriving|
        invariant Valid()
        invariant OfferAll(Pending(), arriving[i..]) == OfferAll(old(Pending()), arriving)
      {
        Enqueue(arriving[i]);
        i := i + 1;
      }
    }

    /**
     * The concatenation loop of the send routine. `logMsgLen` is the length that the code takes
     * with strlen; the loop body runs at least once, so it is always set.
     */
    method DrainQueue(arrive: Arrivals) returns (summaryLog: string, logMsgLen: nat, ghost drained: Drained)
      requires Valid() && ring.num >= SEND_TRIGGER
      modifies ring, ring.slots, this`accepted
      ensures Valid() && drained.batch != []
      ensures drained == Drain(old(Pending()), [], arrive, 0)
      ensures Pending() == drained.queue
      ensures summaryLog == Frame(drained.batch) && logMsgLen == |summaryLog| < SUMMARY_SIZE
    {
      ghost var batch: seq<Record> := [];
      var k: nat := 0;
      var eventLog: Record := "";
      summaryLog := "";
      logMsgLen := 0;
      drained := Drain(Pending(), [], arrive, 0);
      DrainTakesOne(Pending(), arrive);
      while true
        invariant Valid() && ring.num > 0
        invariant summaryLog == Frame(batch) && logMsgLen == |summaryLog| <= SEND_LIMIT
        invariant drained == Drain(Pending(), batch, arrive, k)
        decreases SEND_LIMIT - |summaryLog|
      {
        ghost var before := Pending();
        Interference(arrive(2 * k));
        ghost var q0 := Pending();
        var rc: int;
        rc, eventLog := ring.Dequeue(eventLog);
        assert eventLog == q0.pending[0] && Pending() == q0.(pending := q0.pending[1..]);
        Interference(arrive(2 * k + 1));
        assert (eventLog, Pending()) == Round(before, arrive, k);
        if !(rc != 1 && ring.num > 0) {
          return;
        }
        FrameSnoc(batch, eventLog);
        summaryLog := summaryLog + eventLog;
        summaryLog := summaryLog + "\n";
        assert |summaryLog| < SUMMARY_SIZE;
        batch := batch + [eventLog];
        k := k + 1;
        logMsgLen := |summaryLog|;
        if logMsgLen > SEND_LIMIT {
          return;
        }
      }
    }

    /** Opens a context and a session on it; `tee_ctx` is left for the caller to reset on failure. */
    method CreateSession(a: Attempt) returns (rc: int)
      modifies this`teeCtx, tee
      ensures rc == 0 || rc == -1
      ensures var (ctx, driver) := Connect(old(tee.State()), a);
              tee.State() == driver && (rc == 0 <==> ctx.Some?) && (rc == 0 ==> teeCtx == ctx)
    {
      teeCtx := tee.OpenContext(a.contextOk);
      if teeCtx.None? {
        return -1;
      }
      if a.sessionRc < 0 || !a.sessionRet.TeecSuccess? {
        tee.released := tee.released + 1;
        return -1;
      }
      tee.sessions := tee.sessions + {teeCtx.value};
      return 0;
    }

    /** Copies the payload into a fresh shared buffer and invokes the TA. */
    method InvokeTa(a: Attempt, payload: string) returns (rc: int)
      modifies tee
      ensures rc < 0 <==> !a.Outcome().Delivered?
      ensures tee.State() == match a.Outcome()
                             case Delivered => old(tee.State()).(wire := old(tee.wire) + [payload])
                             case AllocFailed => old(tee.State())
                             case InvokeFailed => old(tee.State()).(shm := old(tee.shm) + 1)
    {
      if !a.allocOk {
        return -1;
      }
      tee.shm := tee.shm + 1;
      if a.invokeRc < 0 || (!a.invokeRet.TeecSuccess? && !a.invokeRet.TeecShortBuffer?) {
        return -22;
      }
      tee.wire := tee.wire + [payload];
      tee.shm := tee.shm - 1;
      return 0;
    }

    /** Invokes the TA and gives up the session if that fails; the context is not closed. */
    method InvokeOrReset(a: Attempt, payload: string) returns (rc: int)
      requires teeCtx.Some?
      modifies this`teeCtx, tee
      ensures (teeCtx, tee.State()) == Invoke(old(teeCtx).value, old(tee.State()), a, payload)
      ensures rc == 0 <==> teeCtx.Some?
    {
      rc := InvokeTa(a, payload);
      if rc < 0 {
        tee.sessions := tee.sessions - {teeCtx.value};
        teeCtx := None;
        return -1;
      }
      return 0;
    }

    /** The second half of a send attempt: drain, invoke, and on failure give up the session. */
    method DrainAndInvoke(a: Attempt) returns (rc: int)
      requires Valid() && ring.num >= SEND_TRIGGER && teeCtx.Some?
      modifies this, ring, ring.slots, tee
      ensures Valid()
      ensures State() == Transmit(old(State()), a)
      ensures rc == 0 <==> teeCtx.Some?
    {
      var summaryLog, logMsgLen;
      ghost var drained;
      summaryLog, logMsgLen, drained := DrainQueue(a.arrive);
      assert summaryLog[..logMsgLen] == summaryLog;
      rc := InvokeOrReset(a, summaryLog[..logMsgLen]);
      sent := sent + [Sent(drained.batch, drained.dropped, a.Outcome())];
    }

    /** One send attempt. */
    method SendEventLog(a: Attempt) returns (rc: int)
      requires Valid() && ring.num >= SEND_TRIGGER
      modifies this, ring, ring.slots, tee
      ensures Valid()
      ensures State() == Send(old(State()), a)
      ensures rc == 0 <==> teeCtx.Some?
    {
      if teeCtx == None {
        rc := CreateSession(a);
        if rc < 0 {
          teeCtx := None;
          return -1;
        }
      }
      rc := DrainAndInvoke(a);
    }

    /** The audit thread's wake-up. */
    method WakeUp(a: Attempt)
      requires Valid()
      modifies this, ring, ring.slots, tee
      ensures Valid()
      ensures State() == Wake(old(State()), a)
    {
      if ring.num >= SEND_TRIGGER {
        var _ := SendEventLog(a);
      }
    }
  }
}
