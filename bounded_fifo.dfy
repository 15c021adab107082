/**
 The value semantics of a bounded double-ended queue, `deque(maxlen=cap)`,
 restricted to the one operation the replay memory uses: `append`. Once the
 queue holds `cap` items, each append discards the oldest item.
 */
module BoundedFifo {

  function Min(a: nat, b: nat): nat {
    if a <= b then a else b
  }

  /** `append(x)` on a deque with `maxlen = cap`: add `x` on the right, then
      discard from the left whatever exceeds the bound. */
  function BoundedAppend<T>(s: seq<T>, cap: nat, x: T): (r: seq<T>)
    ensures |s| <= cap ==> |r| == Min(|s| + 1, cap)
    ensures |r| <= cap
    ensures |s| < cap ==> r == s + [x]
    ensures 0 < cap <= |s| ==> r == s[|s| + 1 - cap..] + [x]
    ensures cap == 0 ==> r == []
  {
    var t := s + [x];
    if |t| > cap then t[|t| - cap..] else t
  }

  /** Reference definition: the `cap` most recently stored items, oldest first. */
  function Newest<T>(xs: seq<T>, cap: nat): (r: seq<T>)
    ensures |r| == Min(|xs|, cap)
  {
    xs[|xs| - Min(|xs|, cap)..]
  }

  /** The queue obtained by appending every item of `xs`, in order, to an
      empty queue with `maxlen = cap`. */
  function Fill<T>(xs: seq<T>, cap: nat): seq<T>
  {
    if xs == [] then [] else BoundedAppend(Fill(xs[..|xs| - 1], cap), cap, xs[|xs| - 1])
  }

  /** Appending one item to a queue that holds the newest `cap` items of
      `xs` yields the newest `cap` items of `xs + [x]`. */
  lemma AppendKeepsNewest<T>(xs: seq<T>, cap: nat, x: T)
    ensures BoundedAppend(Newest(xs, cap), cap, x) == Newest(xs + [x], cap)
  {
    var ys := xs + [x];
    if 0 < cap <= |xs| {
      var q := Newest(xs, cap);
      assert q == xs[|xs| - cap..];
      assert q[1..] + [x] == ys[|ys| - cap..];
    } else if cap > |xs| {
      assert Newest(ys, cap) == ys;
    }
  }

  /** After any sequence of appends the queue holds exactly the `cap` most
      recently appended items, in insertion order. */
  lemma {:induction false} FillIsNewest<T>(xs: seq<T>, cap: nat)
    ensures Fill(xs, cap) == Newest(xs, cap)
  {
    if xs != [] {
      var init, last := xs[..|xs| - 1], xs[|xs| - 1];
      FillIsNewest(init, cap);
      AppendKeepsNewest(init, cap, last);
      assert init + [last] == xs;
    }
  }
}
