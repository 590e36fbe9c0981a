/** What the order of the limits is for: the narrow subnets are isolated exactly in the sorted order, or
    when the wide limit needs no help. */
module RateLimitOrder {
  import opened RateLimit
  import opened RateLimitExact

  // No cleanup deletes a bucket that is not full.
  ghost predicate AllHarmless(l: Limiter, history: seq<Op>, window: seq<Op>) {
    forall lim :: lim in l.v4 + l.v6 ==> Harmless(l, history, window, lim)
  }

  ghost predicate Isolated(l: Limiter) {
    forall clock: real, history: seq<Op>, open: real, window: seq<Op>, k: Subnet, w: Subnet, lim: Limit ::
      && Window(l, clock, history, open, window) && AllHarmless(l, history, window) && Owns(l, k, lim)
      && |w.bits| < |k.bits| ==>
        Tokens(Final(l, history), window, w, k) as real <= lim.burst as real + Inflow(open, End(open, window), lim.rps)
  }

  // Two limits on IPv4 prefixes, in some order.
  ghost predicate Pair(l: Limiter, wide: Limit, narrow: Limit) {
    && l.v6 == [] && l.buckets == map[] && (l.v4 == [wide, narrow] || l.v4 == [narrow, wide])
    && 0 <= wide.prefix < narrow.prefix <= 32 && Sensible(wide) && Sensible(narrow)
  }

  // The wide limit alone keeps what the narrow one promises.
  predicate Tighter(wide: Limit, narrow: Limit) {
    wide.burst == 0 || (wide.burst <= narrow.burst && wide.rps <= narrow.rps)
  }

  /** Two limits isolate the narrow subnets if and only if they are in the order that the sort gives,
      or the wide limit is so tight that it does so alone. */
  lemma OrderMatters(l: Limiter, wide: Limit, narrow: Limit)
    requires Pair(l, wide, narrow)
    ensures Isolated(l) <==> l.v4 == [narrow, wide] || Tighter(wide, narrow)
  {
    if l.v4 == [narrow, wide] || Tighter(wide, narrow) {
      forall clock: real, history: seq<Op>, open: real, window: seq<Op>, k: Subnet, w: Subnet, lim: Limit
        | Window(l, clock, history, open, window) && AllHarmless(l, history, window) && Owns(l, k, lim)
          && |w.bits| < |k.bits|
        ensures Tokens(Final(l, history), window, w, k) as real <=
                lim.burst as real + Inflow(open, End(open, window), lim.rps)
      {
        assert lim in l.v4 + l.v6;
        if l.v4 == [narrow, wide] {
          Isolation(l, clock, history, open, window, k, w, lim);
        } else {
          TightWide(l, wide, narrow, clock, history, open, window, k, w, lim);
        }
      }
    } else if wide.burst > narrow.burst {
      LeakAtOnce(l, wide, narrow);
    } else {
      LeakInTime(l, wide, narrow);
    }
  }

  lemma {:induction false} TakenInside(m: Buckets, limits: seq<Limit>, a: Addr, now: real, w: Subnet)
    requires !Inside(a, w)
    ensures Count(Walk(m, limits, a, now).taken, w) == 0
    decreases |limits|
  {
    if limits != [] {
      if Fits(a, limits[0].prefix) {
        var j := Masked(a, limits[0].prefix);
        var m' := m[j := After(Find(m, j, limits[0], now), now)];
        var o := Walk(m', limits[1..], a, now);
        assert ([j] + o.taken)[1..] == o.taken;
        TakenInside(m', limits[1..], a, now, w);
      } else {
        TakenInside(m, limits[1..], a, now, w);
      }
    }
  }

  // A bucket serves the addresses of its own subnet only.
  lemma {:induction false} TokensInside(l: Limiter, ops: seq<Op>, w: Subnet, from: Subnet)
    ensures Tokens(l, ops, w, from) <= Tokens(l, ops, w, w)
    decreases |ops|
  {
    if ops != [] {
      if ops[0].Allow? && !Inside(ops[0].a, w) {
        TakenInside(l.buckets, Asked(l, ops[0].a), ops[0].a, ops[0].now, w);
      }
      TokensInside(Step(l, ops[0]), ops[1..], w, from);
    }
  }

  // Without a limit of its length there is no bucket.
  lemma {:induction false} NoTokens(l: Limiter, ops: seq<Op>, w: Subnet, from: Subnet)
    requires DistinctLengths(Limits(l, from.family))
    requires forall i :: 0 <= i < |Limits(l, from.family)| ==> Limits(l, from.family)[i].prefix != |w.bits|
    ensures Tokens(l, ops, w, from) == 0
    decreases |ops|
  {
    if ops != [] {
      if ops[0].Allow? && Inside(ops[0].a, from) {
        AtMostOnce(l.buckets, Limits(l, from.family), ops[0].a, ops[0].now, w);
      }
      NoTokens(Step(l, ops[0]), ops[1..], w, from);
    }
  }

  // A bucket without capacity never gives a token.
  lemma {:induction false} ZeroBurst(l: Limiter, ops: seq<Op>, w: Subnet, lim: Limit, clock: real)
    requires Sane(l.buckets, w, lim, clock) && Owns(l, w, lim) && Ordered(clock, ops) && Sensible(lim)
    requires lim.burst == 0 && Covers(ops, lim, l.expiry)
    ensures Tokens(l, ops, w, w) == 0
    decreases |ops|
  {
    if ops != [] {
      StepLevel(l, ops[0], w, lim, clock);
      StepOwns(l, ops[0], w, lim);
      LevelBounds(l.buckets, w, lim, clock, ops[0].now);
      LevelBounds(Step(l, ops[0]).buckets, w, lim, ops[0].now, ops[0].now);
      CoversRest(ops, lim, l.expiry);
      ZeroBurst(Step(l, ops[0]), ops[1..], w, lim, ops[0].now);
    }
  }

  lemma TightWide(l: Limiter, wide: Limit, narrow: Limit, clock: real, history: seq<Op>, open: real, window: seq<Op>,
                  k: Subnet, w: Subnet, lim: Limit)
    requires Pair(l, wide, narrow) && l.v4 == [wide, narrow] && Tighter(wide, narrow)
    requires Window(l, clock, history, open, window) && AllHarmless(l, history, window) && Owns(l, k, lim)
             && |w.bits| < |k.bits|
    ensures Tokens(Final(l, history), window, w, k) as real <=
            lim.burst as real + Inflow(open, End(open, window), lim.rps)
  {
    var m := Final(l, history);
    SameLimits(l, history);
    WindowForward(open, window);
    assert lim in l.v4 + l.v6 && wide in l.v4 + l.v6;
    Gain(open, End(open, window), lim.rps);
    if |w.bits| != wide.prefix {
      NoTokens(m, window, w, k);
    } else {
      TokensInside(m, window, w, k);
      if w.family == V6 {
        NoTokens(m, window, w, w);
      } else if wide.burst == 0 {
        SaneAlong(l, history, w, wide, clock);
        LaterSane(m.buckets, w, wide, End(clock, history), open);
        ZeroBurst(m, window, w, wide, open);
      } else {
        TokenBound(l, clock, history, open, window, w, wide);
        SlowerInflow(open, End(open, window), wide.rps, narrow.rps);
      }
    }
  }

  lemma LaterSane(m: Buckets, k: Subnet, lim: Limit, t: real, u: real)
    requires Sane(m, k, lim, t) && t <= u
    ensures Sane(m, k, lim, u)
  {
  }

  lemma {:induction false} WindowForward(open: real, window: seq<Op>)
    requires Ordered(open, window)
    ensures open <= End(open, window)
    decreases |window|
  {
    if window != [] { WindowForward(window[0].now, window[1..]); }
  }

  lemma SlowerInflow(t: real, u: real, slow: real, fast: real)
    requires t <= u && slow <= fast
    ensures Inflow(t, u, slow) <= Inflow(t, u, fast)
  {
    Gain(t, u, fast - slow);
    Rates(t, u, slow, fast - slow);
  }

  lemma Rates(t: real, u: real, x: real, y: real)
    ensures Inflow(t, u, x + y) == Inflow(t, u, x) + Inflow(t, u, y)
  {
  }

  function Somebody(): Addr { Ip(V4, seq(32, i => false)) }

  // With the wide limit first, refused requests still cost a wide token: many at once ...
  lemma LeakAtOnce(l: Limiter, wide: Limit, narrow: Limit)
    requires Pair(l, wide, narrow) && l.v4 == [wide, narrow] && wide.burst > narrow.burst
    ensures !Isolated(l)
  {
    var a, n := Somebody(), narrow.burst + 1;
    var k, w, window := Masked(a, narrow.prefix), Masked(a, wide.prefix), Burst(Copies(n, a), 0.0);
    BurstEnd(Copies(n, a), 0.0);
    NoTime(0.0, narrow.rps);
    assert window + [] == window && Final(l, []) == l;
    DrainTakes(l, wide, a, 0.0, n, [], k);
    Leaks(l, wide, narrow, window, k, w);
  }

  // A run without cleanups in which the wide bucket loses more than the narrow limit allows.
  lemma Leaks(l: Limiter, wide: Limit, narrow: Limit, window: seq<Op>, k: Subnet, w: Subnet)
    requires Pair(l, wide, narrow) && l.v4 == [wide, narrow] && Ordered(0.0, window)
    requires forall i :: 0 <= i < |window| ==> window[i].Allow?
    requires k.family == V4 && |k.bits| == narrow.prefix && |w.bits| == wide.prefix
    requires Tokens(l, window, w, k) as real > narrow.burst as real + Inflow(0.0, End(0.0, window), narrow.rps)
    ensures !Isolated(l)
  {
    assert l.v4[1..] == [narrow] && Final(l, []) == l;
    assert Owns(l, k, narrow) by { assert l.v4[1] == narrow && l.v4[1..][0] == narrow; }
    assert Window(l, 0.0, [], 0.0, window) && AllHarmless(l, [], window);
    assert Tokens(Final(l, []), window, w, k) as real >
           narrow.burst as real + Inflow(0.0, End(0.0, window), narrow.rps);
  }

  // ... or one after the other, as fast as the wide bucket refills.
  function Paced(n: nat, a: Addr, t: real, step: real): seq<Op> {
    if n == 0 then [] else [Allow(a, t)] + Paced(n - 1, a, t + step, step)
  }

  lemma {:induction false} PacedTimes(n: nat, a: Addr, t: real, step: real, clock: real)
    requires clock <= t && step >= 0.0
    ensures Ordered(clock, Paced(n, a, t, step))
    ensures n > 0 ==> End(clock, Paced(n, a, t, step)) == t + (n - 1) as real * step
    ensures forall i :: 0 <= i < |Paced(n, a, t, step)| ==> Paced(n, a, t, step)[i].Allow?
    decreases n
  {
    if n > 0 {
      var u := t + step;
      assert Paced(n, a, t, step)[1..] == Paced(n - 1, a, u, step);
      PacedTimes(n - 1, a, u, step, t);
      assert (n - 1) as real * step == (n - 2) as real * step + step;
    }
  }

  lemma {:induction false} PacedTakes(l: Limiter, lim: Limit, a: Addr, n: nat, t: real, step: real, from: Subnet)
    requires First(l, a, lim) && Inside(a, from) && Sane(l.buckets, Masked(a, lim.prefix), lim, t)
    requires Level(l.buckets, Masked(a, lim.prefix), lim, t) >= 1.0 && lim.burst >= 1 && step >= 0.0
             && step * lim.rps >= 1.0
    ensures Tokens(l, Paced(n, a, t, step), Masked(a, lim.prefix), from) == n
    decreases n
  {
    if n > 0 {
      var u, m, k := t + step, Step(l, Allow(a, t)), Masked(a, lim.prefix);
      assert Paced(n, a, t, step)[1..] == Paced(n - 1, a, u, step);
      FirstGives(l, lim, a, t, from);
      LevelLater(m.buckets, k, lim, t, t, u);
      WholeExpiry(t, step, lim.rps);
      LaterSane(m.buckets, k, lim, t, u);
      PacedTakes(m, lim, a, n - 1, u, step, from);
    }
  }

  // A quotient of positive numbers is positive.
  lemma Positive(x: real, y: real)
    requires x * y > 0.0 && y > 0.0
    ensures x > 0.0
  {
  }

  lemma Distribute(x: real, y: real, z: real)
    ensures x * (y + z) == x * y + x * z && x * y == y * x
  {
  }

  lemma EnoughRequests(burst: int, share: real) returns (n: nat)
    requires 0.0 <= share < 1.0 && burst >= 0
    ensures n > 0 && n as real > burst as real + (n - 1) as real * share
  {
    var left := 1.0 - share;
    var q := (burst as real + 1.0) / left;
    assert q * left == burst as real + 1.0;
    Positive(q, left);
    n := q.Floor + 1;
    var x, y := n as real, (n - 1) as real;
    Product(x - q, left);
    Distribute(left, x - q, q);
    Distribute(x, left, share);
    Distribute(share, y, 1.0);
  }

  lemma LeakInTime(l: Limiter, wide: Limit, narrow: Limit)
    requires Pair(l, wide, narrow) && l.v4 == [wide, narrow] && wide.burst > 0 && wide.rps > narrow.rps
    ensures !Isolated(l)
  {
    var a := Somebody();
    var k, w := Masked(a, narrow.prefix), Masked(a, wide.prefix);
    var step, share := Pace(wide.rps, narrow.rps);
    var n := EnoughRequests(narrow.burst, share);
    var window := Paced(n, a, 0.0, step);
    PacedTimes(n, a, 0.0, step, 0.0);
    PacedTakes(l, wide, a, n, 0.0, step, k);
    PacedInflow(n, step, narrow.rps, End(0.0, window), share);
    Leaks(l, wide, narrow, window, k, w);
  }

  // The time in which the wide bucket gains one token, and what the narrow one gains in it.
  lemma Pace(fast: real, slow: real) returns (step: real, share: real)
    requires fast > slow >= 0.0
    ensures step > 0.0 && step * fast == 1.0 && share == step * slow && 0.0 <= share < 1.0
  {
    step := Reciprocal(fast);
    Positive(step, fast);
    share := step * slow;
    Product(step, slow);
    MultiplyLess(step, slow, fast, share, 1.0);
  }

  lemma Reciprocal(x: real) returns (y: real)
    requires x > 0.0
    ensures y * x == 1.0
  {
    y := 1.0 / x;
  }

  lemma MultiplyLess(x: real, y: real, z: real, p: real, q: real)
    requires x > 0.0 && y < z && p == x * y && q == x * z
    ensures p < q
  {
    Strict(x, z - y);
    Less(p, q, x * (z - y));
  }

  lemma Less(p: real, q: real, gap: real)
    requires gap > 0.0 && q - p == gap
    ensures p < q
  {
  }

  lemma Strict(x: real, y: real)
    requires x > 0.0 && y > 0.0
    ensures x * y > 0.0
  {
  }

  lemma PacedInflow(n: nat, step: real, rps: real, end: real, share: real)
    requires n > 0 && end == 0.0 + (n - 1) as real * step && share == step * rps
    ensures Inflow(0.0, end, rps) == (n - 1) as real * share
  {
  }
}
