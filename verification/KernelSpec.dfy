// Value-level behaviour of the in-kernel collector: the bounded queue, and one drain with
// records arriving while it runs.
module KernelSpec {
  import opened Text

  const QUEUE_SIZE: nat := 15000
  const SEND_TRIGGER: nat := 500
  const SEND_LIMIT: nat := 10000
  const SUMMARY_SIZE: nat := 12000
  const MAX_RECORD: nat := 1023

  /** A C string that fits one 1024-byte slot with its terminator. */
  type Record = r: string | |r| <= MAX_RECORD && '\0' !in r

  /** The queue, and the history of every record it ever stored. */
  datatype Queue = Queue(accepted: seq<Record>, pending: seq<Record>)

  function Offer(q: Queue, r: Record): Queue {
    if |q.pending| < QUEUE_SIZE then Queue(q.accepted + [r], q.pending + [r]) else q
  }

  /** `q'` is `q` with some records appended to both the history and the queue. */
  predicate Extends(q': Queue, q: Queue) {
    && q.accepted <= q'.accepted
    && q.pending <= q'.pending
    && q'.accepted[|q.accepted|..] == q'.pending[|q.pending|..]
  }

  function OfferAll(q: Queue, rs: seq<Record>): (q': Queue)
    ensures Extends(q', q)
    decreases |rs|
  {
    if rs == [] then q
    else
      var q' := OfferAll(Offer(q, rs[0]), rs[1..]);
      assert q'.accepted[|q.accepted|..] == q'.pending[|q.pending|..] by {
        var m := Offer(q, rs[0]);
        if m != q {
          assert q'.accepted[|q.accepted|..] == [rs[0]] + q'.accepted[|m.accepted|..];
          assert q'.pending[|q.pending|..] == [rs[0]] + q'.pending[|m.pending|..];
        }
      }
      q'
  }

  function FirstN(rs: seq<Record>, n: nat): seq<Record> {
    if |rs| <= n then rs else rs[..n]
  }

  /**
   * What a queue of 15000 slots takes, whatever is offered: the first 15000 of the queued records
   * and the offered ones are queued, and the history grows by those that were queued newly.
   */
  lemma {:induction false} OfferAllTakes(q: Queue, rs: seq<Record>)
    requires |q.pending| <= 15000
    ensures var q' := OfferAll(q, rs);
            && q'.pending == FirstN(q.pending + rs, 15000)
            && q'.accepted == q.accepted + q'.pending[|q.pending|..]
    decreases |rs|
  {
    if rs == [] {
      assert q.pending + rs == q.pending;
    } else {
      var m := Offer(q, rs[0]);
      OfferAllTakes(m, rs[1..]);
      if |q.pending| < 15000 {
        assert m.pending + rs[1..] == q.pending + rs;
        OfferSplits(q, rs[0], OfferAll(m, rs[1..]).pending);
      } else {
        assert FirstN(q.pending + rs, 15000) == q.pending;
      }
    }
  }

  lemma OfferSplits(q: Queue, r: Record, pending: seq<Record>)
    requires q.pending + [r] <= pending
    ensures (q.accepted + [r]) + pending[|q.pending| + 1..] == q.accepted + pending[|q.pending|..]
  {
  }

  /** A record is rejected exactly when 15000 are queued; otherwise it joins queue and history at the end. */
  lemma OfferedExactly(q: Queue, r: Record)
    requires |q.pending| <= 15000
    ensures Offer(q, r) == q <==> |q.pending| == 15000
    ensures |q.pending| < 15000 ==> Offer(q, r) == Queue(q.accepted + [r], q.pending + [r])
  {
    assert |Offer(q, r).pending| == |q.pending| || |Offer(q, r).pending| == |q.pending| + 1;
  }

  // -------------------------------------------------------------------- drain

  /**
   * Records other CPUs enqueue while a drain runs: `arrive(2k)` before its k-th dequeue,
   * `arrive(2k + 1)` between that dequeue and the emptiness test that follows it.
   */
  type Arrivals = nat -> seq<Record>

  /** One round of the loop guard: dequeue the oldest record while others arrive. */
  function Round(q: Queue, arrive: Arrivals, k: nat): (Record, Queue)
    requires q.pending != []
  {
    var q0 := OfferAll(q, arrive(2 * k));
    (q0.pending[0], OfferAll(q0.(pending := q0.pending[1..]), arrive(2 * k + 1)))
  }

  datatype Drained = Drained(queue: Queue, batch: seq<Record>, dropped: seq<Record>)

  /** The concatenation loop: each round dequeues first and only then tests for emptiness. */
  function Drain(q: Queue, batch: seq<Record>, arrive: Arrivals, k: nat): Drained
    requires q.pending != []
    requires |Frame(batch)| <= SEND_LIMIT
    decreases SEND_LIMIT - |Frame(batch)|
  {
    var (record, q') := Round(q, arrive, k);
    if q'.pending == [] then Drained(q', batch, [record])
    else
      FrameSnoc(batch, record);
      if |Frame(batch + [record])| > SEND_LIMIT then Drained(q', batch + [record], [])
      else Drain(q', batch + [record], arrive, k + 1)
  }

  lemma ExtendsConserves(prefix: seq<Record>, q: Queue, q': Queue)
    requires Extends(q', q)
    requires q.accepted == prefix + q.pending
    ensures q'.accepted == prefix + q'.pending
  {
    assert q'.accepted == q.accepted + q'.accepted[|q.accepted|..];
    assert q'.pending == q.pending + q'.pending[|q.pending|..];
  }

  /** One round moves the oldest record out of the queue and only appends to the rest. */
  lemma RoundConserves(prefix: seq<Record>, q: Queue, arrive: Arrivals, k: nat)
    requires q.pending != []
    requires q.accepted == prefix + q.pending
    ensures var (record, q') := Round(q, arrive, k);
            && record == q.pending[0]
            && q.pending[1..] <= q'.pending
            && q.accepted <= q'.accepted
            && q'.accepted == (prefix + [record]) + q'.pending
  {
    var q0 := OfferAll(q, arrive(2 * k));
    ExtendsConserves(prefix, q, q0);
    var m := q0.(pending := q0.pending[1..]);
    assert q0.pending == [q0.pending[0]] + m.pending;
    assert m.accepted == (prefix + [q0.pending[0]]) + m.pending;
    ExtendsConserves(prefix + [q0.pending[0]], m, OfferAll(m, arrive(2 * k + 1)));
  }

  /** No round loses, invents or reorders a record. */
  lemma {:induction false} DrainConserves(taken: seq<Record>, q: Queue, batch: seq<Record>, arrive: Arrivals, k: nat)
    requires q.pending != [] && |Frame(batch)| <= SEND_LIMIT
    requires q.accepted == (taken + batch) + q.pending
    ensures var d := Drain(q, batch, arrive, k);
            && d.queue.accepted == (taken + d.batch + d.dropped) + d.queue.pending
            && q.accepted <= d.queue.accepted
            && |d.dropped| <= 1
    decreases SEND_LIMIT - |Frame(batch)|
  {
    var (record, q') := Round(q, arrive, k);
    RoundConserves(taken + batch, q, arrive, k);
    assert taken + batch + [record] == taken + (batch + [record]);
    assert taken + (batch + [record]) + [] == taken + (batch + [record]);
    FrameSnoc(batch, record);
    if q'.pending != [] && |Frame(batch + [record])| <= SEND_LIMIT {
      DrainConserves(taken, q', batch + [record], arrive, k + 1);
    }
  }

  /** No drain leaves more than 15000 records queued. */
  lemma {:induction false} DrainStaysWithin(q: Queue, batch: seq<Record>, arrive: Arrivals, k: nat)
    requires 0 < |q.pending| <= 15000 && |Frame(batch)| <= SEND_LIMIT
    ensures |Drain(q, batch, arrive, k).queue.pending| <= 15000
    decreases SEND_LIMIT - |Frame(batch)|
  {
    var (record, q') := Round(q, arrive, k);
    RoundTakes(q, arrive, k);
    FrameSnoc(batch, record);
    if q'.pending != [] && |Frame(batch + [record])| <= SEND_LIMIT {
      DrainStaysWithin(q', batch + [record], arrive, k + 1);
    }
  }

  /** One round with all that arrives around its dequeue, at most 15000 records queued at any time. */
  lemma RoundTakes(q: Queue, arrive: Arrivals, k: nat)
    requires 0 < |q.pending| <= 15000
    ensures var (record, q') := Round(q, arrive, k);
            && record == q.pending[0]
            && q'.pending == FirstN(FirstN(q.pending + arrive(2 * k), 15000)[1..] + arrive(2 * k + 1), 15000)
  {
    var q0 := OfferAll(q, arrive(2 * k));
    OfferAllTakes(q, arrive(2 * k));
    OfferAllTakes(q0.(pending := q0.pending[1..]), arrive(2 * k + 1));
  }

  function ButLast(s: seq<Record>): seq<Record>
    requires s != []
  {
    s[..|s| - 1]
  }

  /**
   * How a drain ends: by size with nothing dropped, or by emptying the queue with exactly the
   * last record dropped; and its text always fits the 12000-byte buffer.
   */
  lemma {:induction false} DrainEnds(q: Queue, batch: seq<Record>, arrive: Arrivals, k: nat)
    requires q.pending != [] && |Frame(batch)| <= SEND_LIMIT
    ensures var d := Drain(q, batch, arrive, k);
            && batch <= d.batch
            && |Frame(d.batch)| <= 11024 < 12000 == SUMMARY_SIZE
            && (d.dropped == [] <==> |Frame(d.batch)| > 10000)
            && (d.dropped == [] <==> d.queue.pending != [])
            && (d.dropped == [] ==> d.batch != [] && |Frame(ButLast(d.batch))| <= 10000)
    decreases SEND_LIMIT - |Frame(batch)|
  {
    var (record, q') := Round(q, arrive, k);
    FrameSnoc(batch, record);
    if q'.pending != [] && |Frame(batch + [record])| <= SEND_LIMIT {
      DrainEnds(q', batch + [record], arrive, k + 1);
    } else {
      assert ButLast(batch + [record]) == batch;
    }
  }

  /** From two queued records on, a drain takes at least one into its batch. */
  lemma DrainTakesOne(q: Queue, arrive: Arrivals)
    requires |q.pending| >= 2
    ensures Drain(q, [], arrive, 0).batch != []
  {
    var (record, q') := Round(q, arrive, 0);
    FrameSnoc([], record);
    RoundTakesOldest(q, arrive, 0);
    if |Frame([] + [record])| <= SEND_LIMIT {
      DrainEnds(q', [] + [record], arrive, 1);
    }
  }

  lemma {:induction false} FrameMonotone(a: seq<string>, b: seq<string>)
    requires a <= b
    ensures |Frame(a)| <= |Frame(b)|
  {
    FrameConcat(a, b[|a|..]);
    assert a + b[|a|..] == b;
  }

  lemma RoundTakesOldest(q: Queue, arrive: Arrivals, k: nat)
    requires q.pending != []
    ensures var (record, q') := Round(q, arrive, k);
            record == q.pending[0] && q.pending[1..] <= q'.pending
  {
  }

  /** Moving the oldest record into the batch does not shorten the text that is certain to be sent. */
  lemma TextStaysEnough(pending: seq<Record>, pending': seq<Record>, batch: seq<Record>)
    requires |pending| > 1 && pending[1..] <= pending'
    ensures |Frame(batch + ButLast(pending))| <= |Frame((batch + [pending[0]]) + ButLast(pending'))|
  {
    assert batch + ButLast(pending) == (batch + [pending[0]]) + ButLast(pending)[1..];
    assert ButLast(pending)[1..] <= ButLast(pending');
    FrameMonotone(batch + ButLast(pending), (batch + [pending[0]]) + ButLast(pending'));
  }

  /** A queue whose text, short of its last record, exceeds the limit is drained without loss. */
  lemma {:induction false} EnoughTextIsLossless(q: Queue, batch: seq<Record>, arrive: Arrivals, k: nat)
    requires q.pending != [] && |Frame(batch)| <= SEND_LIMIT
    requires |Frame(batch + ButLast(q.pending))| > SEND_LIMIT
    ensures Drain(q, batch, arrive, k).dropped == []
    decreases SEND_LIMIT - |Frame(batch)|
  {
    var (record, q') := Round(q, arrive, k);
    FrameConcat(batch, ButLast(q.pending));
    assert |q.pending| > 1;
    RoundTakesOldest(q, arrive, k);
    FrameSnoc(batch, record);
    if |Frame(batch + [record])| <= SEND_LIMIT {
      TextStaysEnough(q.pending, q'.pending, batch);
      EnoughTextIsLossless(q', batch + [record], arrive, k + 1);
    }
  }

  /** Without arrivals, too little text always ends in the drop of the last record. */
  lemma {:induction false} TooLittleTextDrops(q: Queue, batch: seq<Record>, arrive: Arrivals, k: nat)
    requires q.pending != []
    requires |Frame(batch + ButLast(q.pending))| <= SEND_LIMIT && |Frame(batch)| <= SEND_LIMIT
    requires forall i :: arrive(i) == []
    ensures Drain(q, batch, arrive, k).dropped == [q.pending[|q.pending| - 1]]
    decreases |q.pending|
  {
    var record := q.pending[0];
    var q1 := q.(pending := q.pending[1..]);
    if |q.pending| > 1 {
      assert batch + ButLast(q.pending) == (batch + [record]) + ButLast(q1.pending);
      FrameMonotone(batch + [record], (batch + [record]) + ButLast(q1.pending));
      TooLittleTextDrops(q1, batch + [record], arrive, k + 1);
    }
  }

  /**
   * Exactly when draining is safe: no schedule of arrivals makes the loop drop a record if and
   * only if the text of all records but the last already exceeds the limit.
   */
  lemma LosslessExactly(q: Queue)
    requires q.pending != []
    ensures (forall arrive: Arrivals :: Drain(q, [], arrive, 0).dropped == [])
            <==> |Frame(ButLast(q.pending))| > 10000
  {
    if |Frame(ButLast(q.pending))| > SEND_LIMIT {
      forall arrive: Arrivals ensures Drain(q, [], arrive, 0).dropped == [] {
        assert [] + ButLast(q.pending) == ButLast(q.pending);
        EnoughTextIsLossless(q, [], arrive, 0);
      }
    } else {
      QuietDrainDrops(q, _ => []);
    }
  }

  lemma QuietDrainDrops(q: Queue, quiet: Arrivals)
    requires q.pending != [] && |Frame(ButLast(q.pending))| <= SEND_LIMIT
    requires forall i :: quiet(i) == []
    ensures Drain(q, [], quiet, 0).dropped != []
  {
    assert [] + ButLast(q.pending) == ButLast(q.pending);
    TooLittleTextDrops(q, [], quiet, 0);
  }

  // ------------------------------------------------- records with a property

  predicate All(rs: seq<Record>, p: Record -> bool) {
    forall r | r in rs :: p(r)
  }

  ghost predicate AllArriving(arrive: Arrivals, p: Record -> bool) {
    forall i :: All(arrive(i), p)
  }

  lemma {:induction false} OfferAllAccepts(q: Queue, rs: seq<Record>, p: Record -> bool)
    requires All(q.accepted, p) && All(rs, p)
    ensures All(OfferAll(q, rs).accepted, p)
    decreases |rs|
  {
    if rs != [] {
      OfferAllAccepts(Offer(q, rs[0]), rs[1..], p);
    }
  }

  lemma RoundAccepts(q: Queue, arrive: Arrivals, k: nat, p: Record -> bool)
    requires q.pending != [] && All(q.accepted, p) && AllArriving(arrive, p)
    ensures All(Round(q, arrive, k).1.accepted, p)
  {
    var q0 := OfferAll(q, arrive(2 * k));
    OfferAllAccepts(q, arrive(2 * k), p);
    OfferAllAccepts(q0.(pending := q0.pending[1..]), arrive(2 * k + 1), p);
  }

  /** A drain accepts nothing but what arrives. */
  lemma {:induction false} DrainAccepts(q: Queue, batch: seq<Record>, arrive: Arrivals, k: nat, p: Record -> bool)
    requires q.pending != [] && |Frame(batch)| <= SEND_LIMIT
    requires All(q.accepted, p) && AllArriving(arrive, p)
    ensures All(Drain(q, batch, arrive, k).queue.accepted, p)
    decreases SEND_LIMIT - |Frame(batch)|
  {
    var (record, q') := Round(q, arrive, k);
    RoundAccepts(q, arrive, k, p);
    FrameSnoc(batch, record);
    if q'.pending != [] && |Frame(batch + [record])| <= SEND_LIMIT {
      DrainAccepts(q', batch + [record], arrive, k + 1, p);
    }
  }

  // ---------------------------------------------------- the 20-byte condition

  predicate AtLeast20(r: Record) {
    |r| >= 20
  }

  lemma {:induction false} FrameLengthAtLeast(rs: seq<Record>)
    requires All(rs, AtLeast20)
    ensures |Frame(rs)| >= 21 * |rs|
  {
    if rs != [] {
      assert AtLeast20(rs[0]);
      FrameLengthAtLeast(rs[1..]);
    }
  }

  /**
   * Draining a triggered queue of records of at least 20 bytes, whatever arrives meanwhile: the
   * loop exits by size, keeps every record in order, and sends at most 477 records in
   * 10001..11024 bytes.
   */
  lemma TriggeredDrainIsLossless(q: Queue, taken: seq<Record>, arrive: Arrivals)
    requires q.accepted == taken + q.pending
    requires |q.pending| >= 500
    requires All(q.accepted, AtLeast20) && AllArriving(arrive, AtLeast20)
    ensures var d := Drain(q, [], arrive, 0);
            && d.dropped == []
            && d.queue.accepted == taken + d.batch + d.queue.pending
            && q.accepted <= d.queue.accepted
            && 10000 < |Frame(d.batch)| <= 11024 < SUMMARY_SIZE
            && |d.batch| <= 477
            && All(d.queue.accepted, AtLeast20)
  {
    LongQueueIsLossless(q, arrive);
    assert taken + [] == taken;
    DrainConserves(taken, q, [], arrive, 0);
    var d := Drain(q, [], arrive, 0);
    assert taken + d.batch + [] == taken + d.batch;
    DrainEnds(q, [], arrive, 0);
    DrainAccepts(q, [], arrive, 0, AtLeast20);
    BatchIsSmall(taken, d);
  }

  lemma LongQueueIsLossless(q: Queue, arrive: Arrivals)
    requires |q.pending| >= 500 && All(q.pending, AtLeast20)
    ensures Drain(q, [], arrive, 0).dropped == []
  {
    FrameLengthAtLeast(ButLast(q.pending));
    assert [] + ButLast(q.pending) == ButLast(q.pending);
    EnoughTextIsLossless(q, [], arrive, 0);
  }

  lemma BatchIsSmall(taken: seq<Record>, d: Drained)
    requires d.queue.accepted == taken + d.batch + d.queue.pending && All(d.queue.accepted, AtLeast20)
    requires d.batch != [] && |Frame(ButLast(d.batch))| <= SEND_LIMIT
    ensures |d.batch| <= 477
  {
    forall r | r in ButLast(d.batch) ensures AtLeast20(r) {
      assert r in d.queue.accepted;
    }
    FrameLengthAtLeast(ButLast(d.batch));
  }

  /** 20 is the least such length: 500 records of 19 bytes lose their last one. */
  lemma NineteenBytesLose(r: Record)
    requires |r| == 19
    ensures var full := seq(500, (_: int) => r);
            Drain(Queue(full, full), [], _ => [], 0).dropped == [r]
  {
    var full := seq(500, (_: int) => r);
    var quiet: Arrivals := _ => [];
    FrameLengthExactly(ButLast(full));
    assert [] + ButLast(full) == ButLast(full);
    TooLittleTextDrops(Queue(full, full), [], quiet, 0);
  }

  lemma {:induction false} FrameLengthExactly(rs: seq<Record>)
    requires forall r | r in rs :: |r| == 19
    ensures |Frame(rs)| == 20 * |rs|
  {
    if rs != [] {
      FrameLengthExactly(rs[1..]);
    }
  }
}
