// Python's `deque(maxlen=n)`: a queue that drops its oldest entry when it overflows.
module CappedDeque {

  /** The last `n` entries of `s`, or all of them. */
  function LastN<T>(s: seq<T>, n: nat): seq<T> {
    if |s| <= n then s else s[|s| - n..]
  }

  /** `append` on a deque of at most `cap` entries. */
  function Push<T>(items: seq<T>, cap: nat, x: T): (items': seq<T>)
    requires |items| <= cap && cap > 0
    ensures |items'| <= cap
  {
    if |items| == cap then items[1..] + [x] else items + [x]
  }

  function PushAll<T>(items: seq<T>, cap: nat, xs: seq<T>): (items': seq<T>)
    requires |items| <= cap && cap > 0
    ensures |items'| <= cap
    decreases |xs|
  {
    if xs == [] then items else PushAll(Push(items, cap, xs[0]), cap, xs[1..])
  }

  /** Appending a list keeps exactly the newest `cap` entries, in order. */
  lemma {:induction false} PushAllKeepsNewest<T>(items: seq<T>, cap: nat, xs: seq<T>)
    requires |items| <= cap && cap > 0
    ensures PushAll(items, cap, xs) == LastN(items + xs, cap)
    decreases |xs|
  {
    if xs == [] {
      assert items + xs == items;
    } else {
      var pushed := Push(items, cap, xs[0]);
      PushAllKeepsNewest(pushed, cap, xs[1..]);
      if |items| == cap {
        assert items + xs == [items[0]] + (pushed + xs[1..]);
      } else {
        assert items + xs == pushed + xs[1..];
      }
    }
  }

  /** Which entries those are: min(n, |s|) of them, counted from the end. */
  lemma LastNAt<T>(s: seq<T>, n: nat, k: nat)
    ensures |LastN(s, n)| == if |s| < n then |s| else n
    ensures k < |LastN(s, n)| ==> LastN(s, n)[|LastN(s, n)| - 1 - k] == s[|s| - 1 - k]
  {
  }

  class Deque<T> {
    const maxlen: nat
    var items: seq<T>

    ghost predicate Valid()
      reads this
    {
      maxlen > 0 && |items| <= maxlen
    }

    constructor (maxlen: nat)
      requires maxlen > 0
      ensures Valid() && items == [] && this.maxlen == maxlen
    {
      this.maxlen := maxlen;
      items := [];
    }

    method Append(x: T)
      requires Valid()
      modifies this
      ensures Valid() && items == LastN(old(items) + [x], maxlen)
    {
      if |items| == maxlen {
        items := items[1..];
      }
      items := items + [x];
    }

    method PopLeft() returns (x: T)
      requires Valid() && items != []
      modifies this
      ensures Valid() && [x] + items == old(items)
    {
      x := items[0];
      items := items[1..];
    }
  }
}
