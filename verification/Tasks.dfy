// The heartbeat list as values: one pass of `check_expire`, which removes by value from the
// list it is iterating by index, with a moving clock and flags set by other threads.
module Tasks {

  /** Times are in microseconds. */
  const SECOND: int := 1_000_000

  /**
   * A task; `id` is the identity of the Python object, which the generated equality of the
   * dataclass does not look at.
   */
  datatype Task = Task(id: nat, created: int, expires: int, ip: string, command: string, flagged: bool)

  predicate SameValue(a: Task, b: Task) {
    a.(id := b.id) == b
  }

  /** What `list.remove` compares: identity or value. */
  predicate Same(a: Task, b: Task) {
    a.id == b.id || SameValue(a, b)
  }

  /** Index of the first element that `list.remove(t)` would match. */
  function FirstSame(ts: seq<Task>, t: Task): (j: nat)
    requires t in ts
    ensures j < |ts| && Same(ts[j], t)
    ensures forall i :: 0 <= i < j ==> !Same(ts[i], t)
  {
    if Same(ts[0], t) then 0 else 1 + FirstSame(ts[1..], t)
  }

  function RemoveAt(ts: seq<Task>, j: nat): (ts': seq<Task>)
    requires j < |ts|
    ensures |ts'| == |ts| - 1
    ensures forall k :: 0 <= k < |ts'| ==> ts'[k] == ts[if k < j then k else k + 1]
  {
    seq(|ts| - 1, k requires 0 <= k < |ts| - 1 => ts[if k < j then k else k + 1])
  }

  /** Python's `ts.remove(t)`. */
  function Remove(ts: seq<Task>, t: Task): seq<Task>
    requires t in ts
  {
    RemoveAt(ts, FirstSame(ts, t))
  }

  /** `list.remove` removes the element being looked at if and only if no earlier one equals it. */
  lemma RemovesTheRightOne(ts: seq<Task>, i: nat)
    requires i < |ts|
    ensures FirstSame(ts, ts[i]) <= i
    ensures FirstSame(ts, ts[i]) == i <==> forall j :: 0 <= j < i ==> !Same(ts[j], ts[i])
  {
    assert Same(ts[i], ts[i]);
  }

  /** Another thread sets the flags of the tasks with these identities. */
  function Mark(ts: seq<Task>, ids: set<nat>): (ts': seq<Task>)
    ensures |ts'| == |ts|
    ensures forall i :: 0 <= i < |ts| ==> ts'[i] == if ts[i].id in ids then ts[i].(flagged := true) else ts[i]
  {
    seq(|ts|, i requires 0 <= i < |ts| => if ts[i].id in ids then ts[i].(flagged := true) else ts[i])
  }

  const TOUCH: string := "touch /tmp/"
  const RESET: string := ";optee_example_watchdog"

  /** `updated_task`: clear the flag, issue a new command, extend the deadline by 15 seconds. */
  function Refresh(t: Task, now: int, token: string): Task {
    t.(flagged := false, expires := now + 15 * SECOND, command := TOUCH + token + RESET)
  }

  /** The first half of one iteration: refresh the task at the index if it is flagged. */
  function RefreshAt(ts: seq<Task>, i: nat, now: int, token: string): (ts': seq<Task>)
    requires i < |ts|
    ensures |ts'| == |ts|
  {
    if ts[i].flagged then ts[i := Refresh(ts[i], now, token)] else ts
  }

  /** The second half: remove the task at the index, by value, if its time has come. */
  function ExpireAt(ts: seq<Task>, i: nat, now: int): (ts': seq<Task>)
    requires i < |ts|
    ensures |ts| - 1 <= |ts'| <= |ts|
  {
    if ts[i].expires <= now then Remove(ts, ts[i]) else ts
  }

  /** What one iteration meets: flags set before and within it, two clock reads, a token. */
  datatype Reads = Reads(marks: set<nat>, refreshNow: int, token: string, lateMarks: set<nat>, checkNow: int)

  function Examine(ts: seq<Task>, i: nat, e: Reads): (ts': seq<Task>)
    requires i < |ts|
    ensures |ts| - 1 <= |ts'| <= |ts|
  {
    ExpireAt(Mark(RefreshAt(Mark(ts, e.marks), i, e.refreshNow, e.token), e.lateMarks), i, e.checkNow)
  }

  /** One pass: Python's list iterator steps its index whether or not the list has shifted. */
  function Scan(ts: seq<Task>, i: nat, env: nat -> Reads): seq<Task>
    decreases |ts| - i
  {
    if i < |ts| then Scan(Examine(ts, i, env(i)), i + 1, env) else ts
  }

  lemma ScanStep(ts: seq<Task>, i: nat, env: nat -> Reads)
    requires i < |ts|
    ensures Scan(ts, i, env) == Scan(Examine(ts, i, env(i)), i + 1, env)
  {
  }

  lemma ScanEnd(ts: seq<Task>, i: nat, env: nat -> Reads)
    requires i >= |ts|
    ensures Scan(ts, i, env) == ts
  {
  }

  /** What every iteration keeps holds when the pass ends, at an index behind the list. */
  lemma {:induction false} ScanInduction(ts: seq<Task>, i: nat, env: nat -> Reads, P: (seq<Task>, nat) -> bool)
    returns (j: nat)
    requires P(ts, i)
    requires forall l, k: nat :: k < |l| && P(l, k) ==> P(Examine(l, k, env(k)), k + 1)
    ensures i <= j && |Scan(ts, i, env)| <= j && P(Scan(ts, i, env), j)
    decreases |ts| - i
  {
    if i < |ts| {
      j := ScanInduction(Examine(ts, i, env(i)), i + 1, env, P);
    } else {
      j := i;
    }
  }
}
