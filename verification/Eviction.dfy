// Progress of `check_expire` with a moving clock and concurrent flags: how soon an expired
// task is gone, and when a task whose heartbeat arrived survives.
module Eviction {
  import opened Tasks
  import opened ExpiryPass

  /** Every task with this identity is at index `p` or before; for p = -1, there is none. */
  predicate AtMost(ts: seq<Task>, id: nat, p: int) {
    forall k :: 0 <= k < |ts| && ts[k].id == id ==> k <= p
  }

  predicate Gone(ts: seq<Task>, id: nat) {
    AtMost(ts, id, -1)
  }

  /** A removal moves nothing back, and moves up what is at or behind it. */
  lemma RemovalMovesUp(ts: seq<Task>, j: nat, id: nat, p: int)
    requires j < |ts| && AtMost(ts, id, p)
    ensures AtMost(RemoveAt(ts, j), id, if j <= p then p - 1 else p)
  {
  }

  /** The list right before the expiry test of an iteration. */
  function BeforeExpiry(ts: seq<Task>, i: nat, e: Reads): (ts': seq<Task>)
    requires i < |ts|
    ensures |ts'| == |ts| && forall k :: 0 <= k < |ts| ==> ts'[k].id == ts[k].id && ts'[k].ip == ts[k].ip
    ensures Examine(ts, i, e) == ExpireAt(ts', i, e.checkNow)
  {
    Mark(RefreshAt(Mark(ts, e.marks), i, e.refreshNow, e.token), e.lateMarks)
  }

  /** An iteration moves nothing back; one that removes something moves up all that is still ahead. */
  lemma ExamineMoves(ts: seq<Task>, i: nat, e: Reads, id: nat, p: int)
    requires i < |ts| && AtMost(ts, id, p)
    ensures AtMost(Examine(ts, i, e), id, p)
    ensures i <= p && BeforeExpiry(ts, i, e)[i].expires <= e.checkNow ==> AtMost(Examine(ts, i, e), id, p - 1)
  {
    var ts' := BeforeExpiry(ts, i, e);
    if ts'[i].expires <= e.checkNow {
      RemovesTheRightOne(ts', i);
      RemovalMovesUp(ts', FirstSame(ts', ts'[i]), id, p);
    }
  }

  lemma ScanNeverMovesBack(ts: seq<Task>, i: nat, env: nat -> Reads, id: nat, p: int)
    requires AtMost(ts, id, p)
    ensures AtMost(Scan(ts, i, env), id, p)
  {
    var P := (l: seq<Task>, k: nat) => AtMost(l, id, p);
    forall l, k: nat | k < |l| && P(l, k) ensures P(Examine(l, k, env(k)), k + 1) {
      ExamineMoves(l, k, env(k), id, p);
    }
    var _ := ScanInduction(ts, i, env, P);
  }

  // ------------------------------------------------------------ expired tasks

  /** The iteration leaves this task's flag alone and comes after its deadline. */
  predicate Misses(e: Reads, t: Task) {
    t.id !in e.marks && t.id !in e.lateMarks && t.expires <= e.checkNow
  }

  ghost predicate AlwaysMisses(env: nat -> Reads, t: Task) {
    forall i :: Misses(env(i), t)
  }

  /** If a task with the identity of `t` is in the list, it is `t`, unchanged. */
  predicate Intact(ts: seq<Task>, t: Task) {
    forall i :: 0 <= i < |ts| && ts[i].id == t.id ==> ts[i] == t
  }

  lemma ExamineKeepsMissed(ts: seq<Task>, i: nat, e: Reads, t: Task)
    requires i < |ts| && Intact(ts, t) && !t.flagged && Misses(e, t)
    ensures Intact(BeforeExpiry(ts, i, e), t) && Intact(Examine(ts, i, e), t)
  {
    var ts' := BeforeExpiry(ts, i, e);
    assert Intact(ts', t);
    if ts'[i].expires <= e.checkNow {
      assert Intact(RemoveAt(ts', FirstSame(ts', ts'[i])), t);
    }
  }

  /**
   * The list and the index of a pass: the missed task is at most at `p`, and has moved up once the
   * index is past `p`.
   */
  predicate Nearing(ts: seq<Task>, i: nat, t: Task, p: int) {
    Intact(ts, t) && AtMost(ts, t.id, if i <= p then p else p - 1)
  }

  lemma ExamineNears(ts: seq<Task>, i: nat, e: Reads, t: Task, p: int)
    requires i < |ts| && Nearing(ts, i, t, p) && !t.flagged && Misses(e, t)
    ensures Nearing(Examine(ts, i, e), i + 1, t, p)
  {
    ExamineKeepsMissed(ts, i, e, t);
    ExamineMoves(ts, i, e, t.id, if i <= p then p else p - 1);
    if i == p {
      if ts[i].id == t.id {
        assert BeforeExpiry(ts, i, e)[i] == t;
      } else {
        ExamineMoves(ts, i, e, t.id, p - 1);
      }
    }
  }

  /**
   * Progress of one pass, whatever the clock and the other tasks do: an expired task that stays
   * unflagged is unchanged, and is removed or ends strictly closer to the front. No uniqueness is needed.
   */
  lemma PassMovesUp(ts: seq<Task>, env: nat -> Reads, t: Task, p: nat)
    requires Intact(ts, t) && !t.flagged && AlwaysMisses(env, t) && AtMost(ts, t.id, p)
    ensures Intact(Scan(ts, 0, env), t) && AtMost(Scan(ts, 0, env), t.id, p - 1)
  {
    var P := (l: seq<Task>, k: nat) => Nearing(l, k, t, p);
    forall l, k: nat | k < |l| && P(l, k) ensures P(Examine(l, k, env(k)), k + 1) {
      assert Misses(env(k), t);
      ExamineNears(l, k, env(k), t, p);
    }
    var _ := ScanInduction(ts, 0, env, P);
  }

  /** One round of the heartbeat thread: newly registered tasks, then a pass. */
  datatype Round = Round(registered: seq<Task>, env: nat -> Reads)

  function Rounds(ts: seq<Task>, rounds: seq<Round>): seq<Task>
    decreases |rounds|
  {
    if rounds == [] then ts
    else Rounds(Scan(ts + rounds[0].registered, 0, rounds[0].env), rounds[1..])
  }

  /** Rounds follow one another in order. */
  lemma {:induction false} RoundsSnoc(ts: seq<Task>, rounds: seq<Round>, r: Round)
    ensures Rounds(ts, []) == ts && Rounds(ts, rounds + [r]) == Scan(Rounds(ts, rounds) + r.registered, 0, r.env)
    decreases |rounds|
  {
    if rounds == [] {
      assert rounds + [r] == [r] && [r][1..] == [];
    } else {
      assert (rounds + [r])[0] == rounds[0] && (rounds + [r])[1..] == rounds[1..] + [r];
      RoundsSnoc(Scan(ts + rounds[0].registered, 0, rounds[0].env), rounds[1..], r);
    }
  }

  /** Registered tasks have other identities, and no round refreshes `t` or reads a clock before its deadline. */
  ghost predicate Neglects(rounds: seq<Round>, t: Task) {
    forall r | r in rounds :: Gone(r.registered, t.id) && AlwaysMisses(r.env, t)
  }

  /** An expired task at index p that stays unflagged is gone after p + 1 rounds, whatever is registered meanwhile. */
  lemma {:induction false} EvictedWithin(ts: seq<Task>, rounds: seq<Round>, t: Task, p: int)
    requires -1 <= p < |rounds|
    requires Intact(ts, t) && AtMost(ts, t.id, p) && !t.flagged && Neglects(rounds, t)
    ensures Gone(Rounds(ts, rounds), t.id)
    decreases |rounds|
  {
    if p == -1 {
      StillGone(ts, rounds, t);
    } else {
      var all, env := ts + rounds[0].registered, rounds[0].env;
      assert rounds[0] in rounds;
      assert Intact(all, t) && AtMost(all, t.id, p);
      PassMovesUp(all, env, t, p);
      EvictedWithin(Scan(all, 0, env), rounds[1..], t, p - 1);
    }
  }

  /** A task that left the list does not come back. */
  lemma {:induction false} StillGone(ts: seq<Task>, rounds: seq<Round>, t: Task)
    requires Gone(ts, t.id) && Neglects(rounds, t)
    ensures Gone(Rounds(ts, rounds), t.id)
    decreases |rounds|
  {
    if rounds != [] {
      var all, env := ts + rounds[0].registered, rounds[0].env;
      assert rounds[0] in rounds;
      assert Gone(all, t.id);
      ScanNeverMovesBack(all, 0, env, t.id, -1);
      StillGone(Scan(all, 0, env), rounds[1..], t);
    }
  }

  // --------------------------------------------------------- refreshed tasks

  function RefreshCommand(token: string): string {
    TOUCH + token + RESET
  }

  lemma RefreshCommandsDiffer(a: string, b: string)
    requires a != b
    ensures RefreshCommand(a) != RefreshCommand(b)
  {
    assert RefreshCommand(a)[|TOUCH|..|TOUCH| + |a|] == a;
    assert RefreshCommand(b)[|TOUCH|..|TOUCH| + |b|] == b;
  }

  /** The task at `j` is the one with this identity, with this deadline and command. */
  predicate Carries(ts: seq<Task>, j: int, id: nat, deadline: int, command: string) {
    0 <= j < |ts| && ts[j].id == id && ts[j].expires == deadline && ts[j].command == command
  }

  /** No task but the one with this identity has this command. */
  predicate OnlyHas(ts: seq<Task>, id: nat, command: string) {
    forall k :: 0 <= k < |ts| && ts[k].command == command ==> ts[k].id == id
  }

  predicate Has(ts: seq<Task>, id: nat, deadline: int, command: string) {
    exists j | 0 <= j < |ts| :: Carries(ts, j, id, deadline, command)
  }

  /** The refreshed task is behind the index of the pass, and its command is its own. */
  predicate Kept(ts: seq<Task>, i: nat, id: nat, deadline: int, command: string) {
    DistinctIds(ts) && OnlyHas(ts, id, command) && exists j :: 0 <= j < i && Carries(ts, j, id, deadline, command)
  }

  /** Before the expiry test only the examined task can have a new deadline and command. */
  lemma BeforeExpiryKeeps(ts: seq<Task>, i: nat, e: Reads, k: nat)
    requires i < |ts| && k < |ts|
    ensures var t, t' := ts[k], BeforeExpiry(ts, i, e)[k];
            && t'.id == t.id
            && (k != i ==> t'.expires == t.expires && t'.command == t.command)
            && (k == i && !(t.flagged || t.id in e.marks) ==> t'.expires == t.expires && t'.command == t.command)
            && (k == i && (t.flagged || t.id in e.marks) ==>
               t'.expires == e.refreshNow + 15 * SECOND && t'.command == RefreshCommand(e.token))
  {
  }

  lemma BeforeExpiryKeepsKept(ts: seq<Task>, i: nat, e: Reads, id: nat, deadline: int, command: string)
    requires i < |ts| && Kept(ts, i, id, deadline, command) && RefreshCommand(e.token) != command
    ensures Kept(BeforeExpiry(ts, i, e), i, id, deadline, command)
  {
    var ts' := BeforeExpiry(ts, i, e);
    forall k | 0 <= k < |ts| ensures ts'[k].id == ts[k].id && (ts'[k].command == command ==> ts[k].id == id) {
      BeforeExpiryKeeps(ts, i, e, k);
    }
    var j :| 0 <= j < i && Carries(ts, j, id, deadline, command);
    BeforeExpiryKeeps(ts, i, e, j);
    assert Carries(ts', j, id, deadline, command);
  }

  lemma RemovalKeepsKept(ts: seq<Task>, m: nat, i: nat, j: nat, id: nat, deadline: int, command: string)
    requires DistinctIds(ts) && OnlyHas(ts, id, command) && j <= i && Carries(ts, j, id, deadline, command)
    requires m < |ts| && m != j
    ensures Kept(RemoveAt(ts, m), i + 1, id, deadline, command)
  {
    assert Carries(RemoveAt(ts, m), if j < m then j else j - 1, id, deadline, command);
  }

  /** The expiry test of another task does not remove it: neither identity nor command can match. */
  lemma ExpireKeepsKept(ts: seq<Task>, i: nat, now: int, id: nat, deadline: int, command: string)
    requires i < |ts| && Kept(ts, i, id, deadline, command)
    ensures Kept(ExpireAt(ts, i, now), i + 1, id, deadline, command)
  {
    var j :| 0 <= j < i && Carries(ts, j, id, deadline, command);
    if ts[i].expires <= now {
      assert ts[j].id != ts[i].id && ts[i].command != command;
      RemovalKeepsKept(ts, FirstSame(ts, ts[i]), i, j, id, deadline, command);
    }
  }

  lemma ScanKeepsKept(ts: seq<Task>, i: nat, env: nat -> Reads, id: nat, deadline: int, command: string)
    requires Kept(ts, i, id, deadline, command)
    requires forall k :: k >= i ==> RefreshCommand(env(k).token) != command
    ensures Has(Scan(ts, i, env), id, deadline, command)
  {
    var P := (l: seq<Task>, k: nat) => k >= i && Kept(l, k, id, deadline, command);
    forall l, k: nat | k < |l| && P(l, k) ensures P(Examine(l, k, env(k)), k + 1) {
      BeforeExpiryKeepsKept(l, k, env(k), id, deadline, command);
      ExpireKeepsKept(BeforeExpiry(l, k, env(k)), k, env(k).checkNow, id, deadline, command);
    }
    var _ := ScanInduction(ts, i, env, P);
  }

  /** Nobody has the command that this token makes. */
  predicate UnusedCommand(ts: seq<Task>, token: string) {
    forall k :: 0 <= k < |ts| ==> ts[k].command != RefreshCommand(token)
  }

  /** No later iteration draws the token of iteration `i`. */
  ghost predicate NotDrawnAgain(env: nat -> Reads, i: nat) {
    forall k :: k > i ==> env(k).token != env(i).token
  }

  /** After iteration `i` the refreshed task is kept, or gone if the check came too late. */
  predicate Decided(next: seq<Task>, i: nat, id: nat, e: Reads) {
    && (e.checkNow >= e.refreshNow + 15 * SECOND ==> Gone(next, id))
    && (e.checkNow < e.refreshNow + 15 * SECOND ==>
       Kept(next, i + 1, id, e.refreshNow + 15 * SECOND, RefreshCommand(e.token)))
  }

  /** Examining a flagged task: it is refreshed, or removed if the check came too late. */
  lemma ExamineFlagged(ts: seq<Task>, i: nat, e: Reads)
    requires DistinctIds(ts) && i < |ts| && UnusedCommand(ts, e.token)
    requires ts[i].flagged || ts[i].id in e.marks
    ensures Decided(Examine(ts, i, e), i, ts[i].id, e)
  {
    var ts', command := BeforeExpiry(ts, i, e), RefreshCommand(e.token);
    forall k | 0 <= k < |ts| ensures ts'[k].id == ts[k].id && (ts'[k].command == command <==> k == i) {
      BeforeExpiryKeeps(ts, i, e, k);
    }
    BeforeExpiryKeeps(ts, i, e, i);
    assert Carries(ts', i, ts[i].id, e.refreshNow + 15 * SECOND, command);
    if e.checkNow >= e.refreshNow + 15 * SECOND {
      forall k | 0 <= k < i ensures !Same(ts'[k], ts'[i]) {
        assert ts'[k].command != ts'[i].command;
      }
      RemovesTheRightOne(ts', i);
    }
  }

  /**
   * A refresh and an expiry test that read the clock at these times: the task survived if and
   * only if they were less than 15 seconds apart, and then has its new deadline and command.
   */
  predicate SurvivedExactly(after: seq<Task>, id: nat, token: string, refreshed: int, checked: int) {
    && (!Gone(after, id) <==> checked < refreshed + 15 * SECOND)
    && (!Gone(after, id) ==> Has(after, id, refreshed + 15 * SECOND, RefreshCommand(token)))
  }

  lemma RefreshedStays(next: seq<Task>, i: nat, env: nat -> Reads, id: nat)
    requires Kept(next, i + 1, id, env(i).refreshNow + 15 * SECOND, RefreshCommand(env(i).token))
    requires NotDrawnAgain(env, i)
    ensures Has(Scan(next, i + 1, env), id, env(i).refreshNow + 15 * SECOND, RefreshCommand(env(i).token))
    ensures !Gone(Scan(next, i + 1, env), id)
  {
    forall k | k > i ensures RefreshCommand(env(k).token) != RefreshCommand(env(i).token) {
      RefreshCommandsDiffer(env(k).token, env(i).token);
    }
    ScanKeepsKept(next, i + 1, env, id, env(i).refreshNow + 15 * SECOND, RefreshCommand(env(i).token));
  }

  /** The rest of the pass neither removes a task refreshed in time nor brings back one that was removed. */
  lemma RestOfPass(next: seq<Task>, i: nat, env: nat -> Reads, id: nat)
    requires Decided(next, i, id, env(i)) && NotDrawnAgain(env, i)
    ensures SurvivedExactly(Scan(next, i + 1, env), id, env(i).token, env(i).refreshNow, env(i).checkNow)
  {
    if env(i).checkNow < env(i).refreshNow + 15 * SECOND {
      RefreshedStays(next, i, env, id);
    } else {
      ScanNeverMovesBack(next, i + 1, env, id, -1);
    }
  }

  /**
   * A task that is flagged when it is examined survives the pass if and only if its two clock
   * reads are less than 15 seconds apart; the survivor has its new deadline and command. All it
   * takes is a fresh token: tasks may share addresses and even be equal.
   */
  lemma FlaggedSurvivesExactly(ts: seq<Task>, i: nat, env: nat -> Reads)
    requires DistinctIds(ts) && i < |ts| && (ts[i].flagged || ts[i].id in env(i).marks)
    requires UnusedCommand(ts, env(i).token) && NotDrawnAgain(env, i)
    ensures SurvivedExactly(Scan(ts, i, env), ts[i].id, env(i).token, env(i).refreshNow, env(i).checkNow)
  {
    ScanStep(ts, i, env);
    ExamineFlagged(ts, i, env(i));
    RestOfPass(Examine(ts, i, env(i)), i, env, ts[i].id);
  }
}
