/** The write limiter of the server. `allow` is six lines; what they promise is about whole runs:
    which requests pass, how many can pass in a window, and that no cleverer limiter passes more. */
module TokenBuckets {

  /** What flows in over a span of time. */
  function Gain(rate: real, elapsed: real): real {
    elapsed * rate
  }

  lemma GainAdds(rate: real, a: real, b: real)
    ensures Gain(rate, a + b) == Gain(rate, a) + Gain(rate, b)
  {
  }

  lemma GainSign(rate: real, a: real)
    requires rate >= 0.0 && a >= 0.0
    ensures Gain(rate, a) >= 0.0
    ensures Gain(rate, 0.0) == 0.0
  {
  }

  /** Calls come in the order of the lock, at nondecreasing readings of a monotonic clock. */
  datatype Bucket = Bucket(capacity: real, rate: real, start: real) {
    predicate Sound() { capacity >= 0.0 && rate >= 0.0 }

    predicate Clock(times: seq<real>) {
      && (times != [] ==> start <= times[0])
      && (forall i, j :: 0 <= i < j < |times| ==> times[i] <= times[j])
    }

    function Last(times: seq<real>): real {
      if times == [] then start else times[|times| - 1]
    }

    /** The tokens that the last call finds. */
    function Found(times: seq<real>): real
      requires times != []
      decreases |times|, 0
    {
      var before := times[..|times| - 1];
      var refilled := Left(before) + Gain(rate, times[|times| - 1] - Last(before));
      if refilled < capacity then refilled else capacity
    }

    /** The tokens left after the calls. */
    function Left(times: seq<real>): real
      decreases |times|, 1
    {
      if times == [] then capacity
      else if Found(times) >= 1.0 then Found(times) - 1.0 else Found(times)
    }

    function Grants(times: seq<real>): (g: seq<bool>)
      ensures |g| == |times|
    {
      if times == [] then [] else Grants(times[..|times| - 1]) + [Found(times) >= 1.0]
    }
  }

  /** How many of the requests i, ..., j - 1 were granted. */
  function Count(g: seq<bool>, i: nat, j: nat): nat
    requires j <= |g|
  {
    if j <= i then 0 else Count(g, i, j - 1) + if g[j - 1] then 1 else 0
  }

  lemma {:induction false} CountSplits(g: seq<bool>, i: nat, m: nat, j: nat)
    requires i <= m <= j <= |g|
    ensures Count(g, i, j) == Count(g, i, m) + Count(g, m, j)
  {
    if m < j {
      CountSplits(g, i, m, j - 1);
    }
  }

  lemma {:induction false} CountOfPrefix(g: seq<bool>, n: nat, i: nat, j: nat)
    requires j <= n <= |g|
    ensures Count(g[..n], i, j) == Count(g, i, j)
  {
    if i < j {
      CountOfPrefix(g, n, i, j - 1);
    }
  }

  lemma {:induction false} GrantsOfPrefix(b: Bucket, times: seq<real>, n: nat)
    requires n <= |times|
    ensures b.Grants(times)[..n] == b.Grants(times[..n])
    ensures n < |times| ==> b.Grants(times)[n] == (b.Found(times[..n + 1]) >= 1.0)
  {
    if n == |times| {
      assert times[..n] == times;
    } else {
      var before := times[..|times| - 1];
      if n < |before| {
        GrantsOfPrefix(b, before, n);
        assert before[..n] == times[..n] && before[..n + 1] == times[..n + 1];
      } else {
        assert times[..n] == before && times[..n + 1] == times;
      }
    }
  }

  // ---------- the two bounds on the tokens ----------

  lemma {:induction false} TokensInRange(b: Bucket, times: seq<real>)
    requires b.Sound() && b.Clock(times)
    ensures 0.0 <= b.Left(times) <= b.capacity
    ensures times != [] ==> 0.0 <= b.Found(times) <= b.capacity
  {
    hide Gain;
    if times != [] {
      var before := times[..|times| - 1];
      TokensInRange(b, before);
      GainSign(b.rate, times[|times| - 1] - b.Last(before));
    }
  }

  /** What the requests from i on have used up and what is left never exceed what came in. */
  lemma {:induction false} SpentAtMost(b: Bucket, times: seq<real>, i: nat)
    requires b.Sound() && b.Clock(times) && i < |times|
    ensures b.Left(times) + Count(b.Grants(times), i, |times|) as real
         <= b.capacity + Gain(b.rate, times[|times| - 1] - times[i])
  {
    hide Gain;
    var before, n := times[..|times| - 1], |times| - 1;
    var g := b.Grants(times);
    GrantsOfPrefix(b, times, n);
    CountOfPrefix(g, n, i, n);
    assert times[..n + 1] == times;
    if i < n {
      SpentAtMost(b, before, i);
      GainAdds(b.rate, b.Last(before) - times[i], times[n] - b.Last(before));
      assert Count(g, i, n + 1) == Count(g, i, n) + if g[n] then 1 else 0;
    } else {
      assert Count(g, i, n) == 0;
      GainSign(b.rate, 0.0);
    }
  }

  lemma CountGrantsLonger(b: Bucket, times: seq<real>, m: nat)
    requires m <= |times| - 2
    ensures var before, n := times[..|times| - 1], |times| - 1;
      Count(b.Grants(times), m, n) == Count(b.Grants(before), m, n - 1) + if b.Found(before) >= 1.0 then 1 else 0
  {
    var before, n := times[..|times| - 1], |times| - 1;
    GrantsOfPrefix(b, times, n);
    GrantsOfPrefix(b, times, n - 1);
    CountOfPrefix(b.Grants(times), n, m, n - 1);
    assert times[..n - 1 + 1] == before;
  }

  /** The tokens found are all that came in since some call that found the bucket full. */
  lemma {:induction false} FullSinceSomeCall(b: Bucket, times: seq<real>) returns (m: nat)
    requires b.Sound() && b.Clock(times) && times != []
    ensures m < |times|
    ensures b.Found(times) == b.capacity + Gain(b.rate, times[|times| - 1] - times[m])
                              - Count(b.Grants(times), m, |times| - 1) as real
  {
    hide Gain;
    var before, n := times[..|times| - 1], |times| - 1;
    GainSign(b.rate, times[n] - b.Last(before));
    if before == [] || b.Left(before) + Gain(b.rate, times[n] - b.Last(before)) >= b.capacity {
      m := n;
      assert Count(b.Grants(times), m, n) == 0;
    } else {
      m := FullSinceSomeCall(b, before);
      GainAdds(b.rate, b.Last(before) - times[m], times[n] - b.Last(before));
      CountGrantsLonger(b, times, m);
    }
  }

  // ---------- what `allow` means ----------

  /** The requests i, ..., j - 1 that `g` grants fit the window bound. */
  predicate Fits(b: Bucket, times: seq<real>, g: seq<bool>, i: nat, j: nat)
    requires i < j <= |times| && |g| == |times|
  {
    Count(g, i, j) as real <= b.capacity + Gain(b.rate, times[j - 1] - times[i])
  }

  /** Sliding window: between any two calls, at most capacity + rate * elapsed requests pass. */
  lemma WindowBound(b: Bucket, times: seq<real>, i: nat, j: nat)
    requires b.Sound() && b.Clock(times) && i < j <= |times|
    ensures Fits(b, times, b.Grants(times), i, j)
  {
    hide Gain;
    var some := times[..j];
    GrantsOfPrefix(b, times, j);
    CountOfPrefix(b.Grants(times), j, i, j);
    SpentAtMost(b, some, i);
    TokensInRange(b, some);
  }

  /** Granting request n keeps the bound of every window that ends with it. */
  predicate StillFits(b: Bucket, times: seq<real>, n: nat)
    requires n < |times|
  {
    forall m :: 0 <= m <= n ==>
      Count(b.Grants(times), m, n) as real + 1.0 <= b.capacity + Gain(b.rate, times[n] - times[m])
  }

  lemma GrantFitsWindow(b: Bucket, times: seq<real>, n: nat, m: nat)
    requires b.Sound() && b.Clock(times) && m <= n < |times| && b.Grants(times)[n]
    ensures Count(b.Grants(times), m, n) as real + 1.0 <= b.capacity + Gain(b.rate, times[n] - times[m])
  {
    hide Gain;
    WindowBound(b, times, m, n + 1);
  }

  lemma GrantStillFits(b: Bucket, times: seq<real>, n: nat)
    requires b.Sound() && b.Clock(times) && n < |times| && b.Grants(times)[n]
    ensures StillFits(b, times, n)
  {
    hide Gain;
    forall m | 0 <= m <= n
      ensures Count(b.Grants(times), m, n) as real + 1.0 <= b.capacity + Gain(b.rate, times[n] - times[m])
    {
      GrantFitsWindow(b, times, n, m);
    }
  }

  lemma RefusalWouldNotFit(b: Bucket, times: seq<real>, n: nat) returns (m: nat)
    requires b.Sound() && b.Clock(times) && n < |times| && !b.Grants(times)[n]
    ensures m <= n
    ensures Count(b.Grants(times), m, n) as real + 1.0 > b.capacity + Gain(b.rate, times[n] - times[m])
  {
    hide Gain;
    var g, some := b.Grants(times), times[..n + 1];
    GrantsOfPrefix(b, times, n);
    GrantsOfPrefix(b, times, n + 1);
    m := FullSinceSomeCall(b, some);
    CountOfPrefix(g, n + 1, m, n);
    hide *;
    assert |some| - 1 == n && some[n] == times[n] && some[m] == times[m];
    assert b.Found(some) == b.capacity + Gain(b.rate, times[n] - times[m]) - Count(g, m, n) as real;
  }

  /** `allow` grants a request exactly when that breaks no window bound ending with it. */
  lemma AllowIffItFits(b: Bucket, times: seq<real>, n: nat)
    requires b.Sound() && b.Clock(times) && n < |times|
    ensures b.Grants(times)[n] <==> StillFits(b, times, n)
  {
    hide Gain;
    if b.Grants(times)[n] {
      GrantStillFits(b, times, n);
    } else {
      var m := RefusalWouldNotFit(b, times, n);
    }
  }

  lemma GainIs(rate: real, elapsed: real)
    ensures Gain(rate, elapsed) == elapsed * rate
  {
  }

  /** The same with the numbers. A granted request leaves no window that ends with it overfull: room
      is the capacity and what flows in at the rate. */
  lemma GrantedInFull(b: Bucket, times: seq<real>, n: nat, m: nat)
    requires b.Sound() && b.Clock(times) && m <= n < |times| && b.Grants(times)[n]
    ensures Count(b.Grants(times), m, n) as real + 1.0 <= b.capacity + (times[n] - times[m]) * b.rate
  {
    hide *;
    GrantFitsWindow(b, times, n, m);
    GainIs(b.rate, times[n] - times[m]);
  }

  /** A refused one would have overfilled some window. */
  lemma RefusedInFull(b: Bucket, times: seq<real>, n: nat) returns (m: nat)
    requires b.Sound() && b.Clock(times) && n < |times| && !b.Grants(times)[n]
    ensures m <= n && Count(b.Grants(times), m, n) as real + 1.0 > b.capacity + (times[n] - times[m]) * b.rate
  {
    hide *;
    m := RefusalWouldNotFit(b, times, n);
    GainIs(b.rate, times[n] - times[m]);
  }

  /** Optimality: no choice of requests that respects the window bounds has granted more at any
      point of the run than the bucket, which respects them too. */
  lemma {:induction false} GreedyIsOptimal(b: Bucket, times: seq<real>, choice: seq<bool>, n: nat)
    requires b.Sound() && b.Clock(times) && |choice| == |times| && n <= |times|
    requires forall i, j :: 0 <= i < j <= |times| ==> Fits(b, times, choice, i, j)
    ensures Count(choice, 0, n) <= Count(b.Grants(times), 0, n)
  {
    hide Gain;
    if n > 0 {
      var g, k := b.Grants(times), n - 1;
      GreedyIsOptimal(b, times, choice, k);
      if choice[k] && !g[k] {
        var m := RefusalWouldNotFit(b, times, k);
        assert Fits(b, times, choice, m, n);
        assert Count(choice, m, n) <= Count(g, m, k);
        GreedyIsOptimal(b, times, choice, m);
        CountSplits(choice, 0, m, n);
        CountSplits(g, 0, m, k);
      }
    }
  }

  // ---------- the object ----------

  class TokenBucket {
    const capacity: real
    const refillPerSecond: real
    var tokens: real
    var updated: real
    ghost const start: real
    ghost var times: seq<real>

    ghost function Spec(): Bucket {
      Bucket(capacity, refillPerSecond, start)
    }

    ghost predicate Valid()
      reads this
    {
      && Spec().Sound() && Spec().Clock(times)
      && tokens == Spec().Left(times) && updated == Spec().Last(times)
    }

    constructor (capacity: real, refillPerSecond: real, now: real)
      requires capacity >= 0.0 && refillPerSecond >= 0.0
      ensures Valid() && times == []
      ensures Spec() == Bucket(capacity, refillPerSecond, now)
    {
      this.capacity := capacity;
      this.refillPerSecond := refillPerSecond;
      tokens := capacity;
      updated := now;
      start := now;
      times := [];
    }

    /** The answers of a bucket's whole life are `Spec().Grants(times)`. */
    method Allow(now: real) returns (ok: bool)
      requires Valid() && updated <= now
      modifies this
      ensures Valid() && times == old(times) + [now]
      ensures Spec().Grants(times) == Spec().Grants(old(times)) + [ok]
      ensures 0.0 <= tokens <= capacity
      ensures updated == now
    {
      ghost var before := times;
      times := times + [now];
      assert times[..|times| - 1] == before;
      var refilled := tokens + (now - updated) * refillPerSecond;
      assert refilled == tokens + Gain(refillPerSecond, now - updated);
      hide Gain;
      tokens := if refilled < capacity then refilled else capacity;
      updated := now;
      ok := tokens >= 1.0;
      if ok {
        tokens := tokens - 1.0;
      }
      TokensInRange(Spec(), times);
    }
  }
}
