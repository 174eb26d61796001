// What passes of `check_expire` do to the heartbeat list, and when expired tasks are gone.
module ExpiryPass {
  import opened Tasks

  // ------------------------------------------------ one pass at a fixed clock

  /** Expired and unflagged at `now`: the tasks a pass is meant to remove. */
  predicate Doomed(t: Task, now: int) {
    !t.flagged && t.expires <= now
  }

  /** No flag is set during the pass and the clock stands still; `token(i)` serves iteration `i`. */
  function Quiet(now: int, token: nat -> string): nat -> Reads {
    (i: nat) => Reads({}, now, token(i), {}, now)
  }

  /**
   * Independent description of a pass from iteration `i` on: a removal makes the next task slip
   * through unexamined.
   */
  function Sweep(ts: seq<Task>, i: nat, now: int, token: nat -> string): seq<Task>
    decreases |ts|
  {
    if ts == [] then []
    else if !Doomed(ts[0], now) then [Examined(ts[0], now, token(i))] + Sweep(ts[1..], i + 1, now, token)
    else if |ts| == 1 then []
    else [ts[1]] + Sweep(ts[2..], i + 1, now, token)
  }

  function Examined(t: Task, now: int, token: string): Task {
    if t.flagged then Refresh(t, now, token) else t
  }

  predicate DistinctIds(ts: seq<Task>) {
    forall i, j :: 0 <= i < j < |ts| ==> ts[i].id != ts[j].id
  }

  /** No two doomed tasks are equal as values. */
  predicate DoomedDiffer(ts: seq<Task>, now: int) {
    forall i, j :: 0 <= i < j < |ts| && Doomed(ts[i], now) && Doomed(ts[j], now) ==> !SameValue(ts[i], ts[j])
  }

  predicate AllDoomed(ts: seq<Task>, i: int, j: int, now: int)
    requires 0 <= i <= j < |ts|
  {
    forall k :: i <= k <= j ==> Doomed(ts[k], now)
  }

  /** Doomed tasks that are equal as values have only doomed tasks between them. */
  predicate Together(ts: seq<Task>, now: int) {
    && DistinctIds(ts)
    && (forall i, j :: 0 <= i < j < |ts| && Doomed(ts[i], now) && Doomed(ts[j], now) && SameValue(ts[i], ts[j]) ==>
          AllDoomed(ts, i, j, now))
  }

  /** The same list up to which doomed tasks stand in the places of doomed ones. */
  predicate Alike(ts: seq<Task>, us: seq<Task>, now: int) {
    |ts| == |us| && forall i :: 0 <= i < |ts| ==> ts[i] == us[i] || (Doomed(ts[i], now) && Doomed(us[i], now))
  }

  lemma QuietIteration(ts: seq<Task>, i: nat, now: int, token: nat -> string)
    requires i < |ts|
    ensures Examine(ts, i, Quiet(now, token)(i)) == ExpireAt(RefreshAt(ts, i, now, token(i)), i, now)
  {
    var refreshed := RefreshAt(ts, i, now, token(i));
    assert Mark(ts, {}) == ts && Mark(refreshed, {}) == refreshed;
  }

  /** A quiet iteration at a doomed task removes it or, if an earlier one is equal, that one. */
  lemma DoomedIsRemoved(ts: seq<Task>, i: nat, now: int) returns (j: nat)
    requires i < |ts| && Together(ts, now) && Doomed(ts[i], now)
    ensures j <= i && AllDoomed(ts, j, i, now) && ExpireAt(ts, i, now) == RemoveAt(ts, j)
    ensures DoomedDiffer(ts, now) ==> j == i
  {
    j := FirstSame(ts, ts[i]);
    RemovesTheRightOne(ts, i);
    if j < i {
      assert ts[j].id != ts[i].id && SameValue(ts[j], ts[i]);
    }
  }

  /** Among doomed tasks it does not matter which one goes. */
  lemma EitherMayGo(ts: seq<Task>, j: nat, i: nat, now: int)
    requires j <= i < |ts| && AllDoomed(ts, j, i, now)
    ensures Alike(RemoveAt(ts, j), RemoveAt(ts, i), now) && RemoveAt(ts, j)[i..] == RemoveAt(ts, i)[i..]
  {
  }

  lemma RemoveAfter(done: seq<Task>, rest: seq<Task>)
    requires rest != []
    ensures RemoveAt(done + rest, |done|) == done + rest[1..]
  {
  }

  lemma ReplaceAfter(done: seq<Task>, rest: seq<Task>, t: Task)
    requires rest != []
    ensures (done + rest)[|done| := t] == done + [t] + rest[1..]
  {
  }

  /** What the sweep makes of a list at its first unexamined task. */
  function NextList(done: seq<Task>, rest: seq<Task>, now: int, token: nat -> string): seq<Task>
    requires rest != []
  {
    if Doomed(rest[0], now) then done + rest[1..] else done + [Examined(rest[0], now, token(|done|))] + rest[1..]
  }

  /** One quiet iteration at the first unexamined task. */
  lemma ExamineNext(done: seq<Task>, rest: seq<Task>, now: int, token: nat -> string)
    requires rest != [] && Together(done + rest, now)
    ensures var next := Examine(done + rest, |done|, Quiet(now, token)(|done|));
            && Alike(next, NextList(done, rest, now, token), now)
            && next[|done|..] == NextList(done, rest, now, token)[|done|..]
            && Together(next, now)
            && (DoomedDiffer(done + rest, now) ==> DoomedDiffer(next, now) && next == NextList(done, rest, now, token))
  {
    var ts, i := done + rest, |done|;
    QuietIteration(ts, i, now, token);
    assert ts[i] == rest[0];
    if Doomed(rest[0], now) {
      var j := DoomedIsRemoved(ts, i, now);
      EitherMayGo(ts, j, i, now);
      RemoveAfter(done, rest);
      RemovalKeepsTogether(ts, j, now);
    } else {
      ReplaceAfter(done, rest, Examined(rest[0], now, token(i)));
      ExaminedKeepsTogether(ts, i, now, token(i));
    }
  }

  lemma RemovalKeepsTogether(ts: seq<Task>, j: nat, now: int)
    requires j < |ts| && Together(ts, now)
    ensures Together(RemoveAt(ts, j), now) && (DoomedDiffer(ts, now) ==> DoomedDiffer(RemoveAt(ts, j), now))
  {
    var ts' := RemoveAt(ts, j);
    forall x, y | 0 <= x < y < |ts'| && Doomed(ts'[x], now) && Doomed(ts'[y], now) && SameValue(ts'[x], ts'[y])
      ensures AllDoomed(ts', x, y, now)
    {
      assert AllDoomed(ts, if x < j then x else x + 1, if y < j then y else y + 1, now);
    }
  }

  lemma ExaminedKeepsTogether(ts: seq<Task>, i: nat, now: int, token: string)
    requires i < |ts| && Together(ts, now) && !Doomed(ts[i], now)
    ensures var ts' := ts[i := Examined(ts[i], now, token)];
            Together(ts', now) && (DoomedDiffer(ts, now) ==> DoomedDiffer(ts', now))
  {
    var ts' := ts[i := Examined(ts[i], now, token)];
    forall x, y | 0 <= x < y < |ts'| && Doomed(ts'[x], now) && Doomed(ts'[y], now) && SameValue(ts'[x], ts'[y])
      ensures AllDoomed(ts', x, y, now)
    {
      assert AllDoomed(ts, x, y, now);
    }
  }

  lemma Regroup(done: seq<Task>, t: Task, tail: seq<Task>)
    ensures (done + [t]) + tail == done + ([t] + tail)
  {
  }

  /** What one quiet iteration makes of the examined prefix and the rest. */
  function AfterDone(done: seq<Task>, rest: seq<Task>, now: int, token: nat -> string): seq<Task>
    requires rest != []
  {
    if !Doomed(rest[0], now) then done + [Examined(rest[0], now, token(|done|))]
    else if |rest| > 1 then done + [rest[1]]
    else done
  }

  function AfterRest(rest: seq<Task>, now: int): seq<Task>
    requires rest != []
  {
    if !Doomed(rest[0], now) then rest[1..] else if |rest| > 1 then rest[2..] else []
  }

  lemma SweepNext(done: seq<Task>, rest: seq<Task>, now: int, token: nat -> string)
    requires rest != []
    ensures done + Sweep(rest, |done|, now, token)
         == AfterDone(done, rest, now, token) + Sweep(AfterRest(rest, now), |done| + 1, now, token)
  {
    var tail := Sweep(AfterRest(rest, now), |done| + 1, now, token);
    if !Doomed(rest[0], now) {
      Regroup(done, Examined(rest[0], now, token(|done|)), tail);
    } else if |rest| > 1 {
      Regroup(done, rest[1], tail);
    }
  }

  /** Cutting the list behind the next index gives the examined prefix and the rest. */
  lemma CutAfterIteration(done: seq<Task>, rest: seq<Task>, now: int, token: nat -> string)
    requires rest != []
    ensures var next := NextList(done, rest, now, token);
            var done', rest' := AfterDone(done, rest, now, token), AfterRest(rest, now);
            if |done| < |next| then next[..|done| + 1] == done' && next[|done| + 1..] == rest'
            else next == done' && rest' == []
  {
    if Doomed(rest[0], now) && |rest| > 1 {
      assert rest[1..] == [rest[1]] + rest[2..];
    }
  }

  /** What the sweep makes of a list of which `k` tasks are examined. */
  function SweptFrom(l: seq<Task>, k: nat, now: int, token: nat -> string): seq<Task> {
    if k <= |l| then l[..k] + Sweep(l[k..], k, now, token) else l
  }

  /** The sweep goes on from the next list to the same end. */
  lemma NextSameSweep(l: seq<Task>, k: nat, now: int, token: nat -> string)
    requires k < |l|
    ensures SweptFrom(NextList(l[..k], l[k..], now, token), k + 1, now, token) == SweptFrom(l, k, now, token)
  {
    var done, rest := l[..k], l[k..];
    SweepNext(done, rest, now, token);
    CutAfterIteration(done, rest, now, token);
  }

  lemma AlikeSweeps(l: seq<Task>, m: seq<Task>, k: nat, now: int, token: nat -> string)
    requires Alike(l, m, now) && (k <= |l| ==> l[k..] == m[k..])
    ensures Alike(SweptFrom(l, k, now, token), SweptFrom(m, k, now, token), now)
  {
  }

  lemma AlikeTransitive(a: seq<Task>, b: seq<Task>, c: seq<Task>, now: int)
    requires Alike(a, b, now) && Alike(b, c, now)
    ensures Alike(a, c, now)
  {
  }

  /** After one iteration the sweep still goes on to a like end, and to the same one from the same list. */
  lemma NextSwept(l: seq<Task>, k: nat, next: seq<Task>, now: int, token: nat -> string)
    requires k < |l| && Alike(next, NextList(l[..k], l[k..], now, token), now)
    requires next[k..] == NextList(l[..k], l[k..], now, token)[k..]
    ensures Alike(SweptFrom(next, k + 1, now, token), SweptFrom(l, k, now, token), now)
    ensures next == NextList(l[..k], l[k..], now, token) ==>
        SweptFrom(next, k + 1, now, token) == SweptFrom(l, k, now, token)
  {
    var swept := NextList(l[..k], l[k..], now, token);
    assert k + 1 <= |next| ==> next[k + 1..] == next[k..][1..] && swept[k + 1..] == swept[k..][1..];
    AlikeSweeps(next, swept, k + 1, now, token);
    NextSameSweep(l, k, now, token);
  }

  /** At index `k` the pass will turn the list into one like `target`, and into `target` itself if `exact`. */
  predicate Swept(l: seq<Task>, k: nat, now: int, token: nat -> string, target: seq<Task>, exact: bool) {
    && Together(l, now)
    && Alike(SweptFrom(l, k, now, token), target, now)
    && (exact ==> DoomedDiffer(l, now) && SweptFrom(l, k, now, token) == target)
  }

  lemma ExamineSwept(l: seq<Task>, k: nat, now: int, token: nat -> string, target: seq<Task>, exact: bool)
    requires k < |l| && Swept(l, k, now, token, target, exact)
    ensures Swept(Examine(l, k, Quiet(now, token)(k)), k + 1, now, token, target, exact)
  {
    var next := Examine(l, k, Quiet(now, token)(k));
    assert l[..k] + l[k..] == l;
    ExamineNext(l[..k], l[k..], now, token);
    NextSwept(l, k, next, now, token);
    AlikeTransitive(SweptFrom(next, k + 1, now, token), SweptFrom(l, k, now, token), target, now);
  }

  /**
   * The index-shifting loop does what the sweep says, up to which of several doomed tasks it
   * leaves, whenever equal doomed tasks stand together; exactly, if no two doomed tasks are equal.
   */
  lemma PassIsSweep(ts: seq<Task>, now: int, token: nat -> string)
    requires Together(ts, now)
    ensures var after := Scan(ts, 0, Quiet(now, token));
            && Together(after, now)
            && Alike(after, Sweep(ts, 0, now, token), now)
            && (DoomedDiffer(ts, now) ==> after == Sweep(ts, 0, now, token))
  {
    var target, exact := Sweep(ts, 0, now, token), DoomedDiffer(ts, now);
    assert ts[..0] + Sweep(ts[0..], 0, now, token) == target;
    var P := (l: seq<Task>, k: nat) => Swept(l, k, now, token, target, exact);
    forall l, k: nat | k < |l| && P(l, k) ensures P(Examine(l, k, Quiet(now, token)(k)), k + 1) {
      ExamineSwept(l, k, now, token, target, exact);
    }
    var j := ScanInduction(ts, 0, Quiet(now, token), P);
    var after := Scan(ts, 0, Quiet(now, token));
    assert SweptFrom(after, j, now, token) == after;
  }

  // -------------------------------------------------- runs of expired tasks

  /** Every second element, starting with the second. */
  function Odds<T>(s: seq<T>): (r: seq<T>)
    ensures |r| == |s| / 2
    ensures forall i :: 0 <= i < |r| ==> r[i] == s[2 * i + 1]
  {
    if |s| < 2 then [] else [s[1]] + Odds(s[2..])
  }

  lemma PrependToBlock(x: Task, block: seq<Task>, kept: Task, tail: seq<Task>)
    ensures [x] + (block + [kept] + tail) == ([x] + block) + [kept] + tail
  {
  }

  /** What becomes of the survivor behind a run: behind an odd run it slips through unexamined. */
  function BehindRun(t: Task, length: nat, i: nat, now: int, token: nat -> string): Task {
    if length % 2 == 1 then t else Examined(t, now, token(i + length / 2))
  }

  lemma ShortRunIsHalved(run: seq<Task>, t: Task, rest: seq<Task>, i: nat, now: int, token: nat -> string)
    requires |run| < 2 && (forall r | r in run :: Doomed(r, now)) && !Doomed(t, now)
    ensures Sweep(run + [t] + rest, i, now, token)
         == Odds(run) + [BehindRun(t, |run|, i, now, token)] + Sweep(rest, i + 1, now, token)
  {
    var ts := run + [t] + rest;
    assert Odds(run) + [BehindRun(t, |run|, i, now, token)] == [BehindRun(t, |run|, i, now, token)];
    if run == [] {
      assert ts[0] == t && ts[1..] == rest;
    } else {
      assert run[0] in run && ts[0] == run[0] && ts[1] == t && ts[2..] == rest;
    }
  }

  /** A pair of doomed tasks in front of a list leaves its second one. */
  lemma SweepPair(run: seq<Task>, t: Task, rest: seq<Task>, i: nat, now: int, token: nat -> string)
    requires |run| >= 2 && Doomed(run[0], now)
    ensures Sweep(run + [t] + rest, i, now, token) == [run[1]] + Sweep(run[2..] + [t] + rest, i + 1, now, token)
  {
    var ts := run + [t] + rest;
    assert ts[0] == run[0] && ts[1] == run[1] && ts[2..] == run[2..] + [t] + rest;
  }

  lemma OddsPair(run: seq<Task>)
    requires |run| >= 2
    ensures Odds(run) == [run[1]] + Odds(run[2..])
  {
  }

  lemma BehindPair(t: Task, length: nat, i: nat, now: int, token: nat -> string)
    requires length >= 2
    ensures BehindRun(t, length, i, now, token) == BehindRun(t, length - 2, i + 1, now, token)
  {
    assert (i + 1) + (length - 2) / 2 == i + length / 2;
  }

  /**
   * A maximal run of k doomed tasks in front of a survivor becomes its k/2 odd-placed tasks; the
   * survivor behind an odd run slips through unexamined, so even a flagged one is not refreshed.
   */
  lemma {:induction false} RunIsHalved(run: seq<Task>, t: Task, rest: seq<Task>, i: nat, now: int, token: nat -> string)
    requires (forall r | r in run :: Doomed(r, now)) && !Doomed(t, now)
    ensures Sweep(run + [t] + rest, i, now, token)
         == Odds(run) + [BehindRun(t, |run|, i, now, token)] + Sweep(rest, i + |run| / 2 + 1, now, token)
    decreases |run|
  {
    if |run| < 2 {
      ShortRunIsHalved(run, t, rest, i, now, token);
    } else {
      assert run[0] in run;
      var kept, tail := BehindRun(t, |run|, i, now, token), Sweep(rest, i + |run| / 2 + 1, now, token);
      SweepPair(run, t, rest, i, now, token);
      BehindPair(t, |run|, i, now, token);
      RunIsHalved(run[2..], t, rest, i + 1, now, token);
      PrependToBlock(run[1], Odds(run[2..]), kept, tail);
      OddsPair(run);
    }
  }

  /** A run at the end of the list is halved in the same way. */
  lemma {:induction false} FinalRunIsHalved(run: seq<Task>, i: nat, now: int, token: nat -> string)
    requires forall r | r in run :: Doomed(r, now)
    ensures Sweep(run, i, now, token) == Odds(run)
    decreases |run|
  {
    if run != [] {
      assert run[0] in run;
      if |run| > 1 {
        FinalRunIsHalved(run[2..], i + 1, now, token);
      }
    }
  }

  /**
   * The loop itself: a maximal run of k doomed tasks in front becomes k/2 doomed tasks, its
   * odd-placed ones if no two are equal, and a survivor behind an odd run is not even refreshed.
   */
  lemma PassHalvesRun(ts: seq<Task>, run: seq<Task>, t: Task, rest: seq<Task>, now: int, token: nat -> string)
    requires Together(ts, now) && ts == run + [t] + rest
    requires (forall r | r in run :: Doomed(r, now)) && !Doomed(t, now)
    ensures var after := Scan(ts, 0, Quiet(now, token));
            var target := Odds(run) + [BehindRun(t, |run|, 0, now, token)] + Sweep(rest, |run| / 2 + 1, now, token);
            Alike(after, target, now) && (DoomedDiffer(ts, now) ==> after == target)
  {
    PassIsSweep(ts, now, token);
    RunIsHalved(run, t, rest, 0, now, token);
  }

  // ------------------------------------------------------------- convergence

  /** Which tasks are doomed. */
  function Pattern(ts: seq<Task>, now: int): seq<bool> {
    seq(|ts|, i requires 0 <= i < |ts| => Doomed(ts[i], now))
  }

  /** A pass on patterns. */
  function Thin(p: seq<bool>): seq<bool>
    decreases |p|
  {
    if p == [] then []
    else if !p[0] then [false] + Thin(p[1..])
    else if |p| == 1 then []
    else [p[1]] + Thin(p[2..])
  }

  lemma {:induction false} SweepThins(ts: seq<Task>, i: nat, now: int, token: nat -> string)
    ensures Pattern(Sweep(ts, i, now, token), now) == Thin(Pattern(ts, now))
    decreases |ts|
  {
    if ts != [] {
      if !Doomed(ts[0], now) {
        SweepThins(ts[1..], i + 1, now, token);
        assert Pattern(ts, now)[1..] == Pattern(ts[1..], now);
      } else if |ts| > 1 {
        SweepThins(ts[2..], i + 1, now, token);
        assert Pattern(ts, now)[2..] == Pattern(ts[2..], now);
      }
    }
  }

  function LeadingRun(p: seq<bool>): (k: nat)
    ensures k <= |p| && (forall i :: 0 <= i < k ==> p[i]) && (k < |p| ==> !p[k])
  {
    if p == [] || !p[0] then 0 else 1 + LeadingRun(p[1..])
  }

  function Max(a: nat, b: nat): nat {
    if a < b then b else a
  }

  /** Lengths of the maximal runs of doomed tasks: before each survivor and behind the last one. */
  function RunLengths(p: seq<bool>): seq<nat>
    decreases |p|
  {
    var k := LeadingRun(p);
    if k == |p| then [k] else [k] + RunLengths(p[k + 1..])
  }

  function Halves(lengths: seq<nat>): seq<nat> {
    seq(|lengths|, i requires 0 <= i < |lengths| => lengths[i] / 2)
  }

  /** Length of the longest run of doomed tasks. */
  function LongestRun(p: seq<bool>): nat
    decreases |p|
  {
    var k := LeadingRun(p);
    if k == |p| then k else Max(k, LongestRun(p[k + 1..]))
  }

  lemma LeadingPair(p: seq<bool>)
    requires |p| >= 2 && p[0] && p[1]
    ensures LeadingRun(p) == 2 + LeadingRun(p[2..])
  {
    assert p[1..][0] == p[1] && p[1..][1..] == p[2..];
  }

  /** A pass halves the run at the front and treats what is behind its survivor on its own. */
  predicate HalvesFront(p: seq<bool>) {
    var k, q := LeadingRun(p), Thin(p);
    && LeadingRun(q) == k / 2
    && if k == |p| then |q| == k / 2 else k / 2 < |q| && q[k / 2 + 1..] == Thin(p[k + 1..])
  }

  lemma PrependPair(p: seq<bool>)
    requires |p| >= 2 && p[0] && p[1] && HalvesFront(p[2..])
    ensures HalvesFront(p)
  {
    LeadingPair(p);
    var k, q, tail := LeadingRun(p), Thin(p), Thin(p[2..]);
    assert q == [true] + tail && q[1..] == tail && LeadingRun(q) == 1 + LeadingRun(tail);
    if k < |p| {
      assert q[k / 2 + 1..] == tail[k / 2..];
      assert p[k + 1..] == p[2..][k - 1..];
    }
  }

  lemma {:induction false} ThinHalvesFront(p: seq<bool>)
    ensures HalvesFront(p)
    decreases |p|
  {
    if |p| >= 2 && p[0] && p[1] {
      ThinHalvesFront(p[2..]);
      PrependPair(p);
    } else if |p| >= 2 && p[0] {
      assert p[1..][0] == p[1];
    }
  }

  lemma HalvesCons(k: nat, lengths: seq<nat>)
    ensures Halves([k] + lengths) == [k / 2] + Halves(lengths)
  {
  }

  /** A pass halves every run, rounding down. */
  lemma {:induction false} RunLengthsHalve(p: seq<bool>)
    ensures RunLengths(Thin(p)) == Halves(RunLengths(p))
    decreases |p|
  {
    ThinHalvesFront(p);
    var k, q := LeadingRun(p), Thin(p);
    if k == |p| {
      HalvesCons(k, []);
      assert [k] + [] == [k] && [k / 2] + [] == [k / 2];
    } else {
      RunLengthsHalve(p[k + 1..]);
      HalvesCons(k, RunLengths(p[k + 1..]));
      assert RunLengths(q) == [k / 2] + RunLengths(q[k / 2 + 1..]);
    }
  }

  lemma {:induction false} LongestRunHalves(p: seq<bool>)
    ensures LongestRun(Thin(p)) == LongestRun(p) / 2
    decreases |p|
  {
    ThinHalvesFront(p);
    if LeadingRun(p) < |p| {
      LongestRunHalves(p[LeadingRun(p) + 1..]);
    }
  }

  function Pow2(m: nat): nat {
    if m == 0 then 1 else 2 * Pow2(m - 1)
  }

  /** `n` halved `m` times, rounding down. */
  function Halved(n: nat, m: nat): nat {
    if m == 0 then n else Halved(n / 2, m - 1)
  }

  lemma {:induction false} HalvedOnceMore(n: nat, m: nat)
    requires m > 0
    ensures Halved(n, m) == Halved(n, m - 1) / 2
  {
    if m > 1 {
      HalvedOnceMore(n / 2, m - 1);
    }
  }

  lemma {:induction false} HalvedToNothing(n: nat, m: nat)
    ensures Halved(n, m) == 0 <==> n < Pow2(m)
  {
    if m > 0 {
      HalvedToNothing(n / 2, m - 1);
    }
  }

  /** Tasks left after `m` passes at the same clock, with no flag set meanwhile. */
  function Passes(ts: seq<Task>, m: nat, now: int, tokens: nat -> nat -> string): seq<Task> {
    if m == 0 then ts else Scan(Passes(ts, m - 1, now, tokens), 0, Quiet(now, tokens(m - 1)))
  }

  predicate NoneDoomed(ts: seq<Task>, now: int) {
    forall t | t in ts :: !Doomed(t, now)
  }

  /** Identities of the tasks that are not doomed, in order. */
  function SurvivorIds(ts: seq<Task>, now: int): seq<nat> {
    if ts == [] then []
    else (if Doomed(ts[0], now) then [] else [ts[0].id]) + SurvivorIds(ts[1..], now)
  }

  lemma {:induction false} SweepKeepsSurvivors(ts: seq<Task>, i: nat, now: int, token: nat -> string)
    ensures SurvivorIds(Sweep(ts, i, now, token), now) == SurvivorIds(ts, now)
    decreases |ts|
  {
    if ts != [] {
      if !Doomed(ts[0], now) {
        SweepKeepsSurvivors(ts[1..], i + 1, now, token);
      } else if |ts| > 1 {
        SweepKeepsSurvivors(ts[2..], i + 1, now, token);
        assert ts[1..][1..] == ts[2..];
      }
    }
  }

  lemma {:induction false} AlikeSurvivors(ts: seq<Task>, us: seq<Task>, now: int)
    requires Alike(ts, us, now)
    ensures SurvivorIds(ts, now) == SurvivorIds(us, now) && Pattern(ts, now) == Pattern(us, now)
  {
    if ts != [] {
      AlikeSurvivors(ts[1..], us[1..], now);
    }
  }

  /**
   * The loop itself halves every maximal run of doomed tasks, rounding down, and keeps every
   * other task, in order, whenever equal doomed tasks stand together.
   */
  lemma PassHalvesEveryRun(ts: seq<Task>, now: int, token: nat -> string)
    requires Together(ts, now)
    ensures var after := Scan(ts, 0, Quiet(now, token));
            && Together(after, now)
            && RunLengths(Pattern(after, now)) == Halves(RunLengths(Pattern(ts, now)))
            && LongestRun(Pattern(after, now)) == LongestRun(Pattern(ts, now)) / 2
            && SurvivorIds(after, now) == SurvivorIds(ts, now)
  {
    PassIsSweep(ts, now, token);
    AlikeSurvivors(Scan(ts, 0, Quiet(now, token)), Sweep(ts, 0, now, token), now);
    SweepThins(ts, 0, now, token);
    SweepKeepsSurvivors(ts, 0, now, token);
    RunLengthsHalve(Pattern(ts, now));
    LongestRunHalves(Pattern(ts, now));
  }

  /** Every length halved `m` times. */
  function HalvedAll(lengths: seq<nat>, m: nat): seq<nat> {
    seq(|lengths|, i requires 0 <= i < |lengths| => Halved(lengths[i], m))
  }

  lemma HalvedAllOnceMore(lengths: seq<nat>, m: nat)
    requires m > 0
    ensures HalvedAll(lengths, m) == Halves(HalvedAll(lengths, m - 1))
  {
    forall i | 0 <= i < |lengths| ensures Halved(lengths[i], m) == Halved(lengths[i], m - 1) / 2 {
      HalvedOnceMore(lengths[i], m);
    }
  }

  /** So `m` passes halve every maximal run `m` times. */
  lemma {:induction false} HalvedRuns(ts: seq<Task>, m: nat, now: int, tokens: nat -> nat -> string)
    requires Together(ts, now)
    ensures Together(Passes(ts, m, now, tokens), now)
    ensures RunLengths(Pattern(Passes(ts, m, now, tokens), now)) == HalvedAll(RunLengths(Pattern(ts, now)), m)
    ensures LongestRun(Pattern(Passes(ts, m, now, tokens), now)) == Halved(LongestRun(Pattern(ts, now)), m)
    ensures SurvivorIds(Passes(ts, m, now, tokens), now) == SurvivorIds(ts, now)
  {
    if m == 0 {
      assert HalvedAll(RunLengths(Pattern(ts, now)), 0) == RunLengths(Pattern(ts, now));
    } else {
      HalvedRuns(ts, m - 1, now, tokens);
      PassHalvesEveryRun(Passes(ts, m - 1, now, tokens), now, tokens(m - 1));
      HalvedAllOnceMore(RunLengths(Pattern(ts, now)), m);
      HalvedOnceMore(LongestRun(Pattern(ts, now)), m);
    }
  }

  lemma {:induction false} NoRunMeansNoneDoomed(ts: seq<Task>, now: int)
    ensures LongestRun(Pattern(ts, now)) == 0 <==> NoneDoomed(ts, now)
    decreases |ts|
  {
    var p := Pattern(ts, now);
    var k := LeadingRun(p);
    if k == 0 && ts != [] {
      NoRunMeansNoneDoomed(ts[1..], now);
      assert p[1..] == Pattern(ts[1..], now);
      assert ts == [ts[0]] + ts[1..];
      assert !p[0];
    } else if k > 0 {
      assert Doomed(ts[0], now) && ts[0] in ts;
    }
  }

  /**
   * Convergence, exactly: at a fixed clock, `m` passes clear all expired unflagged tasks if and
   * only if the longest run of them is shorter than 2^m; every other task stays, in order.
   */
  lemma ClearedExactly(ts: seq<Task>, m: nat, now: int, tokens: nat -> nat -> string)
    requires Together(ts, now)
    ensures NoneDoomed(Passes(ts, m, now, tokens), now) <==> LongestRun(Pattern(ts, now)) < Pow2(m)
    ensures SurvivorIds(Passes(ts, m, now, tokens), now) == SurvivorIds(ts, now)
  {
    HalvedRuns(ts, m, now, tokens);
    NoRunMeansNoneDoomed(Passes(ts, m, now, tokens), now);
    HalvedToNothing(LongestRun(Pattern(ts, now)), m);
  }

  // ------------------------------------------- convergence without uniqueness

  function CountTrue(p: seq<bool>): (n: nat)
    ensures n <= |p|
  {
    if p == [] then 0 else (if p[0] then 1 else 0) + CountTrue(p[1..])
  }

  lemma {:induction false} CountTrueConcat(a: seq<bool>, b: seq<bool>)
    ensures CountTrue(a + b) == CountTrue(a) + CountTrue(b)
  {
    if a == [] {
      assert a + b == b;
    } else {
      assert (a + b)[1..] == a[1..] + b;
      CountTrueConcat(a[1..], b);
    }
  }

  function Cut(p: seq<bool>, j: nat): (q: seq<bool>)
    requires j < |p|
    ensures |q| == |p| - 1 && forall i :: 0 <= i < |q| ==> q[i] == p[if i < j then i else i + 1]
  {
    p[..j] + p[j + 1..]
  }

  lemma CountTrueCut(p: seq<bool>, j: nat)
    requires j < |p| && p[j]
    ensures CountTrue(Cut(p, j)) == CountTrue(p) - 1
  {
    assert p == p[..j] + ([p[j]] + p[j + 1..]);
    CountTrueConcat(p[..j], [p[j]] + p[j + 1..]);
    CountTrueConcat(p[..j], p[j + 1..]);
  }

  function Prefix(p: seq<bool>, k: nat): seq<bool> {
    if k <= |p| then p[..k] else p
  }

  /** The doomed tasks that the index has passed do not outnumber the removals so far. */
  predicate Halving(p: seq<bool>, k: nat, total: nat) {
    CountTrue(Prefix(p, k)) + CountTrue(p) <= total
  }

  lemma CutPrefix(p: seq<bool>, j: nat, k: nat)
    requires j <= k && k + 1 < |p|
    ensures Cut(p, j)[..k + 1] == Cut(p[..k + 1], j) + [p[k + 1]]
  {
    var q, r := Cut(p, j)[..k + 1], Cut(p[..k + 1], j) + [p[k + 1]];
    assert |q| == |r|;
    forall i | 0 <= i < |q| ensures q[i] == r[i] {
      assert i < k ==> r[i] == p[..k + 1][if i < j then i else i + 1];
    }
  }

  /** One doomed task goes, and at most one passes the index. */
  lemma CutPrefixCount(p: seq<bool>, j: nat, k: nat)
    requires j <= k < |p| && p[j] && p[k]
    ensures CountTrue(Prefix(Cut(p, j), k + 1)) <= CountTrue(p[..k]) + 1
  {
    var here := p[..k + 1];
    assert here == p[..k] + [true];
    CountTrueConcat(p[..k], [true]);
    CountTrueCut(here, j);
    if k + 1 < |p| {
      CutPrefix(p, j, k);
      CountTrueConcat(Cut(here, j), [p[k + 1]]);
    } else {
      assert here == p;
    }
  }

  /** Removing a doomed task at or before the doomed one at the index lets at most one doomed task pass. */
  lemma CutKeepsHalving(p: seq<bool>, j: nat, k: nat, total: nat)
    requires j <= k < |p| && p[j] && p[k] && Halving(p, k, total)
    ensures Halving(Cut(p, j), k + 1, total)
  {
    CountTrueCut(p, j);
    CutPrefixCount(p, j, k);
  }

  lemma StepKeepsHalving(p: seq<bool>, k: nat, total: nat)
    requires k < |p| && !p[k] && Halving(p, k, total)
    ensures Halving(p, k + 1, total)
  {
    assert p[..k + 1] == p[..k] + [false];
    CountTrueConcat(p[..k], [false]);
  }

  lemma {:induction false} SurvivorsConcat(a: seq<Task>, b: seq<Task>, now: int)
    ensures SurvivorIds(a + b, now) == SurvivorIds(a, now) + SurvivorIds(b, now)
  {
    if a == [] {
      assert a + b == b;
    } else {
      assert (a + b)[1..] == a[1..] + b;
      SurvivorsConcat(a[1..], b, now);
    }
  }

  /** Putting one task, or none, in the place of another that has the same share in the survivors. */
  lemma SurvivorsAround(ts: seq<Task>, j: nat, middle: seq<Task>, now: int)
    requires j < |ts| && SurvivorIds(middle, now) == SurvivorIds([ts[j]], now)
    ensures SurvivorIds(ts[..j] + middle + ts[j + 1..], now) == SurvivorIds(ts, now)
  {
    assert ts == ts[..j] + [ts[j]] + ts[j + 1..];
    SurvivorsConcat(ts[..j], [ts[j]], now);
    SurvivorsConcat(ts[..j] + [ts[j]], ts[j + 1..], now);
    SurvivorsConcat(ts[..j], middle, now);
    SurvivorsConcat(ts[..j] + middle, ts[j + 1..], now);
  }

  /** A quiet iteration removes a task equal to the doomed one it looks at, or examines in place. */
  lemma QuietOutcome(ts: seq<Task>, i: nat, now: int, token: nat -> string) returns (j: nat)
    requires DistinctIds(ts) && i < |ts|
    ensures j <= i && (Doomed(ts[i], now) ==> Doomed(ts[j], now))
    ensures Examine(ts, i, Quiet(now, token)(i))
         == if Doomed(ts[i], now) then RemoveAt(ts, j) else ts[i := Examined(ts[i], now, token(i))]
  {
    QuietIteration(ts, i, now, token);
    j := FirstSame(ts, ts[i]);
    RemovesTheRightOne(ts, i);
  }

  /** What every iteration of a quiet pass keeps. */
  predicate Waning(ts: seq<Task>, k: nat, now: int, total: nat, survivors: seq<nat>) {
    DistinctIds(ts) && Halving(Pattern(ts, now), k, total) && SurvivorIds(ts, now) == survivors
  }

  lemma RemovalKeepsWaning(ts: seq<Task>, j: nat, k: nat, now: int, total: nat, survivors: seq<nat>)
    requires j <= k < |ts| && Doomed(ts[j], now) && Doomed(ts[k], now) && Waning(ts, k, now, total, survivors)
    ensures Waning(RemoveAt(ts, j), k + 1, now, total, survivors)
  {
    var ts' := RemoveAt(ts, j);
    CutKeepsHalving(Pattern(ts, now), j, k, total);
    assert Pattern(ts', now) == Cut(Pattern(ts, now), j);
    SurvivorsAround(ts, j, [], now);
    assert ts' == ts[..j] + [] + ts[j + 1..];
  }

  lemma ExaminedKeepsWaning(ts: seq<Task>, k: nat, now: int, token: string, total: nat, survivors: seq<nat>)
    requires k < |ts| && !Doomed(ts[k], now) && Waning(ts, k, now, total, survivors)
    ensures Waning(ts[k := Examined(ts[k], now, token)], k + 1, now, total, survivors)
  {
    var t := Examined(ts[k], now, token);
    var ts' := ts[k := t];
    StepKeepsHalving(Pattern(ts, now), k, total);
    assert Pattern(ts', now) == Pattern(ts, now);
    assert SurvivorIds([t], now) == SurvivorIds([ts[k]], now) by {
      assert [t][1..] == [] && [ts[k]][1..] == [];
    }
    SurvivorsAround(ts, k, [t], now);
    assert ts' == ts[..k] + [t] + ts[k + 1..];
  }

  function DoomedCount(ts: seq<Task>, now: int): nat {
    CountTrue(Pattern(ts, now))
  }

  /**
   * Whatever tasks are equal by value: one pass leaves at most half of the doomed tasks, and
   * every other task, in order.
   */
  lemma PassLeavesHalf(ts: seq<Task>, now: int, token: nat -> string)
    requires DistinctIds(ts)
    ensures var after := Scan(ts, 0, Quiet(now, token));
            && DistinctIds(after)
            && 2 * DoomedCount(after, now) <= DoomedCount(ts, now)
            && SurvivorIds(after, now) == SurvivorIds(ts, now)
  {
    var total, survivors := DoomedCount(ts, now), SurvivorIds(ts, now);
    var P := (l: seq<Task>, k: nat) => Waning(l, k, now, total, survivors);
    forall l, k: nat | k < |l| && P(l, k) ensures P(Examine(l, k, Quiet(now, token)(k)), k + 1) {
      var j := QuietOutcome(l, k, now, token);
      if Doomed(l[k], now) {
        RemovalKeepsWaning(l, j, k, now, total, survivors);
      } else {
        ExaminedKeepsWaning(l, k, now, token(k), total, survivors);
      }
    }
    var j := ScanInduction(ts, 0, Quiet(now, token), P);
    var p := Pattern(Scan(ts, 0, Quiet(now, token)), now);
    assert Prefix(p, j) == p;
  }

  lemma {:induction false} PassesLeave(ts: seq<Task>, m: nat, now: int, tokens: nat -> nat -> string)
    requires DistinctIds(ts)
    ensures var after := Passes(ts, m, now, tokens);
            && DistinctIds(after)
            && DoomedCount(after, now) <= Halved(DoomedCount(ts, now), m)
            && SurvivorIds(after, now) == SurvivorIds(ts, now)
  {
    if m > 0 {
      PassesLeave(ts, m - 1, now, tokens);
      PassLeavesHalf(Passes(ts, m - 1, now, tokens), now, tokens(m - 1));
      HalvedOnceMore(DoomedCount(ts, now), m);
    }
  }

  lemma {:induction false} NoneTrue(p: seq<bool>)
    requires CountTrue(p) == 0
    ensures forall i :: 0 <= i < |p| ==> !p[i]
  {
    if p != [] {
      NoneTrue(p[1..]);
      assert forall i :: 0 < i < |p| ==> p[i] == p[1..][i - 1];
    }
  }

  function Log2(n: nat): nat {
    if n <= 1 then 0 else 1 + Log2(n / 2)
  }

  lemma {:induction false} Log2Bound(n: nat)
    ensures n < Pow2(Log2(n) + 1)
  {
    if n > 1 {
      Log2Bound(n / 2);
    }
  }

  lemma ClearedAfter(ts: seq<Task>, m: nat, now: int, tokens: nat -> nat -> string)
    requires DistinctIds(ts) && DoomedCount(ts, now) < Pow2(m)
    ensures NoneDoomed(Passes(ts, m, now, tokens), now)
    ensures SurvivorIds(Passes(ts, m, now, tokens), now) == SurvivorIds(ts, now)
  {
    var after := Passes(ts, m, now, tokens);
    PassesLeave(ts, m, now, tokens);
    HalvedToNothing(DoomedCount(ts, now), m);
    NoneTrue(Pattern(after, now));
    forall t | t in after ensures !Doomed(t, now) {
      var i :| 0 <= i < |after| && after[i] == t;
      assert !Pattern(after, now)[i];
    }
  }

  /**
   * So floor(log2 d) + 1 passes clear the d doomed tasks of any list, and floor(log2 n) + 1 any
   * list of n tasks, also when several of them are equal by value; every other task stays, in order.
   */
  lemma ClearedWithinLog(ts: seq<Task>, now: int, tokens: nat -> nat -> string)
    requires DistinctIds(ts)
    ensures NoneDoomed(Passes(ts, Log2(DoomedCount(ts, now)) + 1, now, tokens), now)
    ensures SurvivorIds(Passes(ts, Log2(DoomedCount(ts, now)) + 1, now, tokens), now) == SurvivorIds(ts, now)
    ensures NoneDoomed(Passes(ts, Log2(|ts|) + 1, now, tokens), now)
    ensures SurvivorIds(Passes(ts, Log2(|ts|) + 1, now, tokens), now) == SurvivorIds(ts, now)
  {
    Log2Bound(DoomedCount(ts, now));
    Log2Bound(|ts|);
    ClearedAfter(ts, Log2(DoomedCount(ts, now)) + 1, now, tokens);
    ClearedAfter(ts, Log2(|ts|) + 1, now, tokens);
  }

  // ------------------------------------------------ why exactness needs `Together`

  /** One quiet iteration at a doomed task whose first equal is at `j`. */
  lemma RemovesFirstEqual(ts: seq<Task>, i: nat, j: nat, now: int, token: nat -> string)
    requires DistinctIds(ts) && j <= i < |ts| && Doomed(ts[i], now) && Same(ts[j], ts[i])
    requires forall k :: 0 <= k < j ==> !Same(ts[k], ts[i])
    ensures Scan(ts, i, Quiet(now, token)) == Scan(RemoveAt(ts, j), i + 1, Quiet(now, token))
  {
    QuietIteration(ts, i, now, token);
    assert FirstSame(ts, ts[i]) == j;
    ScanStep(ts, i, Quiet(now, token));
  }

  lemma PassesOver(ts: seq<Task>, i: nat, now: int, token: nat -> string)
    requires i < |ts| && !Doomed(ts[i], now) && !ts[i].flagged
    ensures Scan(ts, i, Quiet(now, token)) == Scan(ts, i + 1, Quiet(now, token))
  {
    QuietIteration(ts, i, now, token);
    ScanStep(ts, i, Quiet(now, token));
  }

  /** Doomed tasks x, a, b, y of which only a and b are equal, and n, which is not doomed. */
  predicate OneEqualPair(x: Task, a: Task, n: Task, b: Task, y: Task, now: int) {
    && DistinctIds([x, a, n, b, y])
    && Doomed(x, now) && Doomed(a, now) && Doomed(b, now) && Doomed(y, now) && !Doomed(n, now) && !n.flagged
    && SameValue(a, b) && !SameValue(x, b) && !SameValue(n, b)
  }

  lemma TailsDiffer(ts: seq<Task>, k: nat)
    requires DistinctIds(ts) && k <= |ts|
    ensures DistinctIds(ts[k..])
  {
  }

  /** From index 1 on, the pass examines b and removes a, which leaves b and y adjacent. */
  lemma EqualPairRest(a: Task, n: Task, b: Task, y: Task, now: int, token: nat -> string)
    requires DistinctIds([a, n, b, y]) && Doomed(b, now) && !Doomed(n, now) && !n.flagged && SameValue(a, b)
    ensures Scan([a, n, b, y], 1, Quiet(now, token)) == [n, b, y]
  {
    var ts := [a, n, b, y];
    PassesOver(ts, 1, now, token);
    assert Same(ts[0], ts[2]);
    RemovesFirstEqual(ts, 2, 0, now, token);
    assert RemoveAt(ts, 0) == [n, b, y];
    ScanEnd([n, b, y], 3, Quiet(now, token));
  }

  lemma EqualPairFirstPass(x: Task, a: Task, n: Task, b: Task, y: Task, now: int, token: nat -> string)
    requires OneEqualPair(x, a, n, b, y, now)
    ensures Scan([x, a, n, b, y], 0, Quiet(now, token)) == [n, b, y]
  {
    var ts := [x, a, n, b, y];
    RemovesFirstEqual(ts, 0, 0, now, token);
    assert RemoveAt(ts, 0) == [a, n, b, y];
    TailsDiffer(ts, 1);
    assert ts[1..] == [a, n, b, y];
    EqualPairRest(a, n, b, y, now, token);
  }

  lemma EqualPairSecondPass(n: Task, b: Task, y: Task, now: int, token: nat -> string)
    requires DistinctIds([n, b, y]) && Doomed(b, now) && !Doomed(n, now) && !n.flagged && !SameValue(n, b)
    ensures Scan([n, b, y], 0, Quiet(now, token)) == [n, y]
  {
    PassesOver([n, b, y], 0, now, token);
    RemovesFirstEqual([n, b, y], 1, 1, now, token);
    assert RemoveAt([n, b, y], 1) == [n, y];
    ScanEnd([n, y], 2, Quiet(now, token));
  }

  lemma EqualPairPattern(x: Task, a: Task, n: Task, b: Task, y: Task, now: int)
    requires OneEqualPair(x, a, n, b, y, now)
    ensures LongestRun(Pattern([x, a, n, b, y], now)) == 2
  {
    var p: seq<bool> := [true, true, false, true, true];
    assert Pattern([x, a, n, b, y], now) == p;
    LeadingPair(p);
    assert p[2..] == [false, true, true] && p[3..] == [true, true];
    LeadingPair(p[3..]);
    assert p[3..][2..] == [];
  }

  /**
   * With two equal tasks the exact condition fails: the longest run has two tasks, which two
   * passes would clear, but the second pass meets a run of two again.
   */
  lemma EqualTasksOutlast(x: Task, a: Task, n: Task, b: Task, y: Task, now: int, tokens: nat -> nat -> string)
    requires OneEqualPair(x, a, n, b, y, now)
    ensures LongestRun(Pattern([x, a, n, b, y], now)) == 2 < Pow2(2)
    ensures !NoneDoomed(Passes([x, a, n, b, y], 2, now, tokens), now)
  {
    var ts := [x, a, n, b, y];
    EqualPairPattern(x, a, n, b, y, now);
    EqualPairFirstPass(x, a, n, b, y, now, tokens(0));
    TailsDiffer(ts, 2);
    assert ts[2..] == [n, b, y];
    EqualPairSecondPass(n, b, y, now, tokens(1));
    assert Passes(ts, 0, now, tokens) == ts;
    assert Passes(ts, 1, now, tokens) == [n, b, y];
    assert Passes(ts, 2, now, tokens) == [n, y];
    assert y in [n, y];
  }
}
