// The 15000-slot ring of audit records.
module Ring {
  import opened KernelSpec

  /** The `num` records starting at slot `head`, wrapping around the end of the array. */
  function Unroll(slots: seq<Record>, head: nat, num: nat): (s: seq<Record>)
    requires |slots| == QUEUE_SIZE && head < QUEUE_SIZE && num <= QUEUE_SIZE
    ensures |s| == num
    ensures forall i :: 0 <= i < num ==> s[i] == slots[(head + i) % QUEUE_SIZE]
  {
    seq(num, i requires 0 <= i < num => slots[(head + i) % QUEUE_SIZE])
  }

  /** Writing the slot after the last record appends to the sequence, at every wrap-around. */
  lemma UnrollEnqueue(slots: seq<Record>, head: nat, num: nat, r: Record)
    requires |slots| == QUEUE_SIZE && head < QUEUE_SIZE && num < QUEUE_SIZE
    ensures Unroll(slots[(head + num) % QUEUE_SIZE := r], head, num + 1) == Unroll(slots, head, num) + [r]
  {
    var slots' := slots[(head + num) % QUEUE_SIZE := r];
    var s, s' := Unroll(slots, head, num), Unroll(slots', head, num + 1);
    forall i | 0 <= i < num ensures s'[i] == s[i] {
      assert (head + i) % QUEUE_SIZE != (head + num) % QUEUE_SIZE;
    }
  }

  /** Advancing the head removes the oldest record. */
  lemma UnrollDequeue(slots: seq<Record>, head: nat, num: nat)
    requires |slots| == QUEUE_SIZE && head < QUEUE_SIZE && 0 < num <= QUEUE_SIZE
    ensures var s := Unroll(slots, head, num);
            s[0] == slots[head] && Unroll(slots, (head + 1) % QUEUE_SIZE, num - 1) == s[1..]
  {
    var s := Unroll(slots, head, num);
    var t := Unroll(slots, (head + 1) % QUEUE_SIZE, num - 1);
    forall i | 0 <= i < num - 1 ensures t[i] == s[1..][i] {
      assert ((head + 1) % QUEUE_SIZE + i) % QUEUE_SIZE == (head + (i + 1)) % QUEUE_SIZE;
    }
  }

  class RingBuffer {
    const slots: array<Record>
    var head: nat
    var num: nat

    ghost predicate Valid()
      reads this
    {
      slots.Length == QUEUE_SIZE && head < QUEUE_SIZE && num <= QUEUE_SIZE
    }

    ghost function Contents(): (s: seq<Record>)
      requires Valid()
      reads this, slots
      ensures |s| == num
    {
      Unroll(slots[..], head, num)
    }

    constructor ()
      ensures Valid() && fresh(slots)
      ensures Contents() == []
    {
      slots := new Record[QUEUE_SIZE];
      head, num := 0, 0;
    }

    /** Appends the record, or rejects it exactly when all slots are in use. */
    method Enqueue(auditLog: Record) returns (rc: int)
      requires Valid()
      modifies this`num, slots
      ensures Valid()
      ensures rc == 0 || rc == -1
      ensures rc == -1 <==> |old(Contents())| == 15000
      ensures Contents() == if rc == 0 then old(Contents()) + [auditLog] else old(Contents())
    {
      if num < QUEUE_SIZE {
        UnrollEnqueue(slots[..], head, num, auditLog);
        ghost var before := slots[..];
        slots[(head + num) % QUEUE_SIZE] := auditLog;
        assert slots[..] == before[(head + num) % QUEUE_SIZE := auditLog];
        num := num + 1;
        return 0;
      } else {
        return -1;
      }
    }

    /** Removes and returns the oldest record; fails, leaving the caller's buffer as it was, exactly when empty. */
    method Dequeue(stale: Record) returns (rc: int, auditLog: Record)
      requires Valid()
      modifies this`head, this`num
      ensures Valid()
      ensures rc == 0 || rc == -1
      ensures rc == -1 <==> old(Contents()) == []
      ensures rc == 0 ==> [auditLog] + Contents() == old(Contents())
      ensures rc == -1 ==> auditLog == stale && Contents() == old(Contents())
    {
      if num > 0 {
        UnrollDequeue(slots[..], head, num);
        auditLog := slots[head];
        head := (head + 1) % QUEUE_SIZE;
        num := num - 1;
        return 0, auditLog;
      } else {
        return -1, stale;
      }
    }
  }
}
