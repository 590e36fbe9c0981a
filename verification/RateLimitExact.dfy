/**
 When the promises of the rate limiter hold: the rate bound holds in every run, and cleanup cannot be
 observed in any, exactly when the limits refill within the expiry time. The converses need a client
 that drains a bucket although the other limits are asked as well.
 */
module RateLimitExact {
  import opened Common
  import opened RateLimit

  function Width(f: Family): nat { if f == V4 then 32 else 128 }

  ghost predicate Proper(limits: seq<Limit>, f: Family) {
    DistinctLengths(limits) && forall lim :: lim in limits ==> Sensible(lim) && 0 <= lim.prefix <= Width(f)
  }

  // A limiter without buckets yet.
  ghost predicate Unused(l: Limiter) {
    l.buckets == map[] && l.expiry >= 0.0 && Proper(l.v4, V4) && Proper(l.v6, V6)
  }

  /** No other limit stands in the way of a whole burst: a wider one has at least that burst, and a
      narrower one has it in all its subnets together. */
  ghost predicate Unhindered(limits: seq<Limit>, lim: Limit) {
    forall x :: x in limits ==> lim.burst <= x.burst * Pow2(if x.prefix > lim.prefix then x.prefix - lim.prefix else 0)
  }

  /** The rate bound of one limit, in all runs. */
  ghost predicate KeepsRate(l: Limiter, f: Family, lim: Limit) {
    forall clock: real, history: seq<Op>, open: real, window: seq<Op>, k: Subnet ::
      Window(l, clock, history, open, window) && k.family == f && Owns(l, k, lim) ==>
        Admitted(Final(l, history), window, k) as real <= lim.burst as real + Inflow(open, End(open, window), lim.rps)
  }

  ghost predicate HidesCleanup(l: Limiter) {
    forall clock: real, ops: seq<Op> :: Ordered(clock, ops) ==> Verdicts(l, ops) == Verdicts(l, Requests(ops))
  }

  // ---------------------------------------------------------------- many requests at once

  function Burst(who: seq<Addr>, now: real): seq<Op> {
    if who == [] then [] else [Allow(who[0], now)] + Burst(who[1..], now)
  }

  lemma {:induction false} BurstTimes(who: seq<Addr>, now: real, clock: real, rest: seq<Op>)
    requires clock <= now && Ordered(now, rest) && rest != []
    ensures Ordered(clock, Burst(who, now) + rest) && End(clock, Burst(who, now) + rest) == End(clock, rest)
    decreases |who|
  {
    if who == [] {
      assert Burst(who, now) + rest == rest;
    } else {
      assert (Burst(who, now) + rest)[1..] == Burst(who[1..], now) + rest;
      BurstTimes(who[1..], now, now, rest);
    }
  }

  lemma {:induction false} BurstEnd(who: seq<Addr>, now: real)
    ensures Ordered(now, Burst(who, now)) && End(now, Burst(who, now)) == now
    ensures |Burst(who, now)| == |who|
    ensures forall i :: 0 <= i < |Burst(who, now)| ==> Burst(who, now)[i] == Allow(who[i], now)
    decreases |who|
  {
    if who != [] {
      assert Burst(who, now)[1..] == Burst(who[1..], now);
      BurstEnd(who[1..], now);
    }
  }

  lemma {:induction false} BurstRequests(who: seq<Addr>, now: real, rest: seq<Op>)
    ensures Requests(Burst(who, now) + rest) == Burst(who, now) + Requests(rest)
    decreases |who|
  {
    var ops := Burst(who, now) + rest;
    if who == [] {
      assert ops == rest;
    } else {
      assert ops[1..] == Burst(who[1..], now) + rest;
      BurstRequests(who[1..], now, rest);
    }
  }

  lemma Product(t: real, rps: real)
    requires t >= 0.0 && rps >= 0.0
    ensures t * rps >= 0.0
  {
  }

  // A time after the expiry at which the bucket has not refilled yet.
  lemma TooSoon(lim: Limit, expiry: real) returns (t: real)
    requires Sensible(lim) && expiry >= 0.0 && expiry * lim.rps < lim.burst as real
    ensures t > expiry && Inflow(0.0, t, lim.rps) < lim.burst as real
  {
    var gap := lim.burst as real - expiry * lim.rps;
    var eps := gap / (lim.rps + 1.0);
    assert eps * (lim.rps + 1.0) == gap;
    assert eps > 0.0;
    t := expiry + eps;
    assert t * lim.rps == expiry * lim.rps + eps * lim.rps;
    assert eps * lim.rps == gap - eps;
  }

  // Drain, clean up, and drain again; and the same requests with nothing between them.
  function Sweeping(who: seq<Addr>, t: real): seq<Op> { Burst(who, 0.0) + ([Cleanup(t)] + Burst(who, t)) }

  function Unswept(who: seq<Addr>, t: real): seq<Op> { Burst(who, 0.0) + Burst(who, t) }

  lemma SweepingTimes(who: seq<Addr>, t: real)
    requires t >= 0.0
    ensures Ordered(0.0, Sweeping(who, t)) && End(0.0, Sweeping(who, t)) == t
  {
    var second := Burst(who, t);
    BurstEnd(who, t);
    assert ([Cleanup(t)] + second)[1..] == second;
    BurstTimes(who, 0.0, 0.0, [Cleanup(t)] + second);
  }

  lemma UnsweptTimes(who: seq<Addr>, t: real)
    requires who != [] && t >= 0.0
    ensures Ordered(0.0, Unswept(who, t)) && End(0.0, Unswept(who, t)) == t
    ensures forall i :: 0 <= i < |Unswept(who, t)| ==> Unswept(who, t)[i].Allow?
  {
    BurstEnd(who, 0.0);
    BurstEnd(who, t);
    BurstTimes(who, 0.0, 0.0, Burst(who, t));
  }

  lemma SweepingRequests(who: seq<Addr>, t: real)
    ensures Requests(Sweeping(who, t)) == Unswept(who, t)
  {
    var second := Burst(who, t);
    var rest := [Cleanup(t)] + second;
    assert rest[1..] == second && second + [] == second;
    BurstRequests(who, t, []);
    BurstRequests(who, 0.0, rest);
  }

  // ---------------------------------------------------------------- addresses spread over the subnets

  function Asking(who: seq<Addr>, k: Subnet): nat {
    if who == [] then 0 else (if Inside(who[0], k) then 1 else 0) + Asking(who[1..], k)
  }

  lemma {:induction false} AskingConcat(p: seq<Addr>, q: seq<Addr>, k: Subnet)
    ensures Asking(p + q, k) == Asking(p, k) + Asking(q, k)
    decreases |p|
  {
    if p == [] {
      assert p + q == q;
    } else {
      assert (p + q)[1..] == p[1..] + q;
      AskingConcat(p[1..], q, k);
    }
  }

  lemma {:induction false} AskingMost(who: seq<Addr>, k: Subnet)
    ensures Asking(who, k) <= |who|
    ensures (forall i :: 0 <= i < |who| ==> !Inside(who[i], k)) ==> Asking(who, k) == 0
    decreases |who|
  {
    if who != [] { AskingMost(who[1..], k); }
  }

  // n addresses of a subnet, divided as evenly as can be between its halves, and so on.
  function Spread(n: nat, f: Family, bits: seq<bool>): seq<Addr>
    requires |bits| <= Width(f)
    decreases Width(f) - |bits|
  {
    if |bits| == Width(f) then seq(n, i => Ip(f, bits))
    else Spread((n + 1) / 2, f, bits + [false]) + Spread(n / 2, f, bits + [true])
  }

  lemma {:induction false} SpreadInside(n: nat, f: Family, bits: seq<bool>)
    requires |bits| <= Width(f)
    ensures |Spread(n, f, bits)| == n
    ensures forall i :: 0 <= i < n ==> Inside(Spread(n, f, bits)[i], Subnet(f, bits))
    decreases Width(f) - |bits|
  {
    if |bits| < Width(f) {
      SpreadInside((n + 1) / 2, f, bits + [false]);
      SpreadInside(n / 2, f, bits + [true]);
    }
  }

  // A narrower subnet has its share of them, at most.
  lemma {:induction false} SpreadThin(n: nat, f: Family, bits: seq<bool>, k: Subnet, d: nat, share: int)
    requires |bits| <= Width(f) && |k.bits| == |bits| + d <= Width(f) && n <= share * Pow2(d)
    ensures Asking(Spread(n, f, bits), k) <= share
    decreases d
  {
    if d == 0 {
      SpreadInside(n, f, bits);
      AskingMost(Spread(n, f, bits), k);
      Whole(n, share);
    } else {
      var more, fewer := (n + 1) / 2, n / 2;
      Halved(n, share, d, more, fewer);
      if k.bits[|bits|] {
        SpreadThin(fewer, f, bits + [true], k, d - 1, share);
      } else {
        SpreadThin(more, f, bits + [false], k, d - 1, share);
      }
      OneHalf(f, bits, more, fewer, k);
    }
  }

  // Only one half of the addresses can be in a narrower subnet.
  lemma OneHalf(f: Family, bits: seq<bool>, more: nat, fewer: nat, k: Subnet)
    requires |bits| < Width(f) && |bits| < |k.bits|
    ensures var p, q := Spread(more, f, bits + [false]), Spread(fewer, f, bits + [true]);
            Asking(p + q, k) == if k.bits[|bits|] then Asking(q, k) else Asking(p, k)
  {
    var p, q := Spread(more, f, bits + [false]), Spread(fewer, f, bits + [true]);
    AskingConcat(p, q, k);
    SpreadInside(more, f, bits + [false]);
    SpreadInside(fewer, f, bits + [true]);
    if k.bits[|bits|] { Foreign(p, f, bits + [false], k); } else { Foreign(q, f, bits + [true], k); }
  }

  lemma Whole(n: nat, share: int)
    requires n <= share * Pow2(0)
    ensures n <= share
  {
    assert Pow2(0) == 1;
  }

  lemma Halved(n: nat, share: int, d: nat, more: nat, fewer: nat)
    requires d > 0 && n <= share * Pow2(d) && more == (n + 1) / 2 && fewer == n / 2
    ensures more <= share * Pow2(d - 1) && fewer <= share * Pow2(d - 1)
  {
    var p := Pow2(d - 1);
    assert Pow2(d) == 2 * p;
    Doubling(share, p);
  }

  lemma Doubling(x: int, y: int)
    ensures x * (2 * y) == 2 * (x * y)
  {
  }

  // Addresses in one half are not in a subnet of the other.
  lemma Foreign(who: seq<Addr>, f: Family, bits: seq<bool>, k: Subnet)
    requires bits != [] && |k.bits| >= |bits| && k.bits[|bits| - 1] != bits[|bits| - 1]
    requires forall i :: 0 <= i < |who| ==> Inside(who[i], Subnet(f, bits))
    ensures Asking(who, k) == 0
  {
    forall i | 0 <= i < |who| ensures !Inside(who[i], k) {
      var a := who[i];
      assert a.bits[|bits| - 1] == bits[|bits| - 1];
    }
    AskingMost(who, k);
  }

  // ---------------------------------------------------------------- draining a bucket past the others

  // After these requests every bucket has lost no more than its own of them.
  ghost predicate Spent(l: Limiter, f: Family, done: seq<Addr>, now: real) {
    forall k, x :: Owns(l, k, x) && k.family == f ==>
      Sane(l.buckets, k, x, now) && Level(l.buckets, k, x, now) >= (x.burst - Asking(done, k)) as real
  }

  ghost predicate AllAt(m: Buckets, now: real) { forall k :: k in m ==> m[k].last == now }

  lemma {:induction false} WalkAt(m: Buckets, limits: seq<Limit>, a: Addr, now: real)
    requires AllAt(m, now)
    ensures AllAt(Walk(m, limits, a, now).buckets, now)
    decreases |limits|
  {
    if limits != [] {
      if Fits(a, limits[0].prefix) {
        var j := Masked(a, limits[0].prefix);
        WalkAt(m[j := After(Find(m, j, limits[0], now), now)], limits[1..], a, now);
      } else {
        WalkAt(m, limits[1..], a, now);
      }
    }
  }

  // When every bucket has a token, the request is let in.
  lemma {:induction false} WalkPasses(m: Buckets, limits: seq<Limit>, a: Addr, now: real)
    requires DistinctLengths(limits)
    requires forall i :: 0 <= i < |limits| && Fits(a, limits[i].prefix) ==>
               Grants(Find(m, Masked(a, limits[i].prefix), limits[i], now), now)
    ensures Walk(m, limits, a, now).ok
    decreases |limits|
  {
    if limits != [] {
      if Fits(a, limits[0].prefix) {
        var j := Masked(a, limits[0].prefix);
        var m' := m[j := After(Find(m, j, limits[0], now), now)];
        forall i | 0 <= i < |limits[1..]| && Fits(a, limits[1..][i].prefix)
          ensures Grants(Find(m', Masked(a, limits[1..][i].prefix), limits[1..][i], now), now)
        {
          assert limits[1..][i] == limits[i + 1] && limits[0].prefix != limits[i + 1].prefix;
          assert |Masked(a, limits[i + 1].prefix).bits| != |j.bits|;
        }
        WalkPasses(m', limits[1..], a, now);
      } else {
        WalkPasses(m, limits[1..], a, now);
      }
    }
  }

  lemma {:induction false} OwnsOwn(limits: seq<Limit>, i: nat)
    requires DistinctLengths(limits) && i < |limits|
    ensures OwnedBy(limits, limits[i].prefix, limits[i])
    decreases |limits|
  {
    if i > 0 {
      assert limits[1..][i - 1] == limits[i];
      OwnsOwn(limits[1..], i - 1);
    }
  }

  lemma Granted(l: Limiter, f: Family, done: seq<Addr>, a: Addr, now: real, i: nat)
    requires Proper(Limits(l, f), f) && Spent(l, f, done, now) && a.Ip? && a.family == f && i < |Limits(l, f)|
    requires forall k, x :: Owns(l, k, x) && k.family == f && Inside(a, k) ==> Asking(done, k) < x.burst
    requires Fits(a, Limits(l, f)[i].prefix)
    ensures var x := Limits(l, f)[i]; Grants(Find(l.buckets, Masked(a, x.prefix), x, now), now)
  {
    var x := Limits(l, f)[i];
    var k := Masked(a, x.prefix);
    OwnsOwn(Limits(l, f), i);
    assert Owns(l, k, x) && Inside(a, k) && x in Limits(l, f);
    TakeLevel(l.buckets, k, x, x, now);
  }

  lemma DrainStep(l: Limiter, f: Family, done: seq<Addr>, a: Addr, now: real)
    requires Proper(Limits(l, f), f) && Spent(l, f, done, now) && a.Ip? && a.family == f
    requires forall k, x :: Owns(l, k, x) && k.family == f && Inside(a, k) ==> Asking(done, k) < x.burst
    ensures Answer(l, a, now).ok && Spent(Step(l, Allow(a, now)), f, done + [a], now)
    ensures AllAt(l.buckets, now) ==> AllAt(Step(l, Allow(a, now)).buckets, now)
  {
    var limits, s := Limits(l, f), Step(l, Allow(a, now));
    forall i | 0 <= i < |limits| && Fits(a, limits[i].prefix)
      ensures Grants(Find(l.buckets, Masked(a, limits[i].prefix), limits[i], now), now)
    {
      Granted(l, f, done, a, now, i);
    }
    WalkPasses(l.buckets, limits, a, now);
    forall k, x | Owns(s, k, x) && k.family == f
      ensures Sane(s.buckets, k, x, now) && Level(s.buckets, k, x, now) >= (x.burst - Asking(done + [a], k)) as real
    {
      assert Owns(l, k, x);
      SpentMore(l, f, done, a, now, k, x);
    }
    if AllAt(l.buckets, now) { WalkAt(l.buckets, limits, a, now); }
  }

  lemma SpentMore(l: Limiter, f: Family, done: seq<Addr>, a: Addr, now: real, k: Subnet, x: Limit)
    requires Proper(Limits(l, f), f) && Spent(l, f, done, now) && a.Ip? && a.family == f
    requires Owns(l, k, x) && k.family == f
    ensures var m := Step(l, Allow(a, now)).buckets;
            Sane(m, k, x, now) && Level(m, k, x, now) >= (x.burst - Asking(done + [a], k)) as real
  {
    AskingConcat(done, [a], k);
    AtMostOnce(l.buckets, Limits(l, f), a, now, k);
    WalkLevel(l.buckets, Limits(l, f), a, now, k, x);
  }

  // All of the requests are let in when no bucket gets more of them than its burst.
  lemma {:induction false} Drain(l: Limiter, f: Family, done: seq<Addr>, who: seq<Addr>, now: real,
                                 rest: seq<Op>, k: Subnet)
    requires Proper(Limits(l, f), f) && Spent(l, f, done, now) && AllAt(l.buckets, now)
    requires forall i :: 0 <= i < |who| ==> Inside(who[i], k) && who[i].family == f
    requires forall j, x :: Owns(l, j, x) && j.family == f ==> Asking(done + who, j) <= x.burst
    ensures var m := Final(l, Burst(who, now));
            && Admitted(l, Burst(who, now) + rest, k) == |who| + Admitted(m, rest, k)
            && m == l.(buckets := m.buckets) && AllAt(m.buckets, now)
    decreases |who|
  {
    if who == [] {
      assert Burst(who, now) + rest == rest;
    } else {
      var tail, s := Burst(who[1..], now), Step(l, Allow(who[0], now));
      assert (Burst(who, now) + rest)[1..] == tail + rest && Burst(who, now)[1..] == tail;
      assert who == [who[0]] + who[1..] && done + who == (done + [who[0]]) + who[1..];
      forall j, x | Owns(l, j, x) && j.family == f && Inside(who[0], j) ensures Asking(done, j) < x.burst {
        AskingConcat(done, who, j);
      }
      DrainStep(l, f, done, who[0], now);
      assert Admits(l, Allow(who[0], now), k);
      assert forall j, x :: Owns(s, j, x) && j.family == f ==> Owns(l, j, x);
      Drain(s, f, done + [who[0]], who[1..], now, rest, k);
    }
  }

  // The requests that drain the given limit's first subnet.
  function Zeros(n: int): seq<bool> { if n <= 0 then [] else seq(n, i => false) }

  function Drainers(f: Family, lim: Limit): seq<Addr>
    requires 0 <= lim.prefix <= Width(f) && lim.burst >= 0
  {
    Spread(lim.burst, f, Zeros(lim.prefix))
  }

  lemma DrainersFit(l: Limiter, f: Family, lim: Limit, j: Subnet, x: Limit)
    requires Proper(Limits(l, f), f) && lim in Limits(l, f) && Unhindered(Limits(l, f), lim)
    requires Owns(l, j, x) && j.family == f
    ensures Asking(Drainers(f, lim), j) <= x.burst
  {
    var who := Drainers(f, lim);
    SpreadInside(lim.burst, f, Zeros(lim.prefix));
    AskingMost(who, j);
    if x.prefix > lim.prefix {
      SpreadThin(lim.burst, f, Zeros(lim.prefix), j, x.prefix - lim.prefix, x.burst);
    } else {
      assert Pow2(0) == 1 && lim.burst <= x.burst * 1;
    }
  }

  lemma TwiceAdmits(l: Limiter, f: Family, lim: Limit, t: real)
    requires Unused(l) && lim in Limits(l, f) && Unhindered(Limits(l, f), lim) && t > l.expiry
    ensures Admitted(l, Sweeping(Drainers(f, lim), t), Subnet(f, Zeros(lim.prefix))) == 2 * lim.burst
  {
    var who, k := Drainers(f, lim), Subnet(f, Zeros(lim.prefix));
    SpreadInside(lim.burst, f, Zeros(lim.prefix));
    var second := Burst(who, t);
    forall j, x | Owns(l, j, x) && j.family == f ensures Asking([] + who, j) <= x.burst {
      assert [] + who == who;
      DrainersFit(l, f, lim, j, x);
    }
    Drain(l, f, [], who, 0.0, [Cleanup(t)] + second, k);
    assert ([Cleanup(t)] + second)[1..] == second && second + [] == second;
    assert Step(Final(l, Burst(who, 0.0)), Cleanup(t)) == l;
    Drain(l, f, [], who, t, [], k);
  }

  lemma BreaksRate(l: Limiter, f: Family, lim: Limit)
    requires Unused(l) && lim in Limits(l, f) && Unhindered(Limits(l, f), lim) && !Refills(lim, l.expiry)
    ensures !KeepsRate(l, f, lim)
  {
    var t := TooSoon(lim, l.expiry);
    Product(l.expiry, lim.rps);
    TwiceAdmits(l, f, lim, t);
    var who, k := Drainers(f, lim), Subnet(f, Zeros(lim.prefix));
    SweepingTimes(who, t);
    OwnsFirst(l, f, lim);
    assert Window(l, 0.0, [], 0.0, Sweeping(who, t)) && Final(l, []) == l;
    assert Admitted(Final(l, []), Sweeping(who, t), k) as real > lim.burst as real + Inflow(0.0, t, lim.rps);
  }

  lemma OwnsFirst(l: Limiter, f: Family, lim: Limit)
    requires Proper(Limits(l, f), f) && lim in Limits(l, f)
    ensures Owns(l, Subnet(f, Zeros(lim.prefix)), lim)
  {
    var i :| 0 <= i < |Limits(l, f)| && Limits(l, f)[i] == lim;
    OwnsOwn(Limits(l, f), i);
  }

  /** The rate bound of a limit that no other one hinders holds in every run exactly when its buckets
      refill within the expiry time. */
  lemma RateBoundIff(l: Limiter, f: Family, lim: Limit)
    requires Unused(l) && lim in Limits(l, f) && Unhindered(Limits(l, f), lim)
    ensures KeepsRate(l, f, lim) <==> l.expiry * lim.rps >= lim.burst as real
  {
    if l.expiry * lim.rps < lim.burst as real {
      BreaksRate(l, f, lim);
    } else {
      forall clock: real, history: seq<Op>, open: real, window: seq<Op>, k: Subnet
        | Window(l, clock, history, open, window) && k.family == f && Owns(l, k, lim)
        ensures Admitted(Final(l, history), window, k) as real <=
                lim.burst as real + Inflow(open, End(open, window), lim.rps)
      {
        RateBound(l, clock, history, open, window, k, lim);
      }
    }
  }

  // ---------------------------------------------------------------- seeing the cleanup

  function Trues(v: seq<bool>): nat { if v == [] then 0 else (if v[0] then 1 else 0) + Trues(v[1..]) }

  predicate AllInside(ops: seq<Op>, k: Subnet) {
    forall i :: 0 <= i < |ops| && ops[i].Allow? ==> Inside(ops[i].a, k)
  }

  lemma {:induction false} TruesAdmitted(l: Limiter, ops: seq<Op>, k: Subnet)
    requires AllInside(ops, k)
    ensures Trues(Verdicts(l, ops)) == Admitted(l, ops, k)
    decreases |ops|
  {
    if ops != [] {
      var tail := Verdicts(Step(l, ops[0]), ops[1..]);
      TruesAdmitted(Step(l, ops[0]), ops[1..], k);
      if ops[0].Allow? {
        assert Verdicts(l, ops)[1..] == tail;
      } else {
        assert Verdicts(l, ops) == tail;
      }
    }
  }

  // Without the cleanup the second burst is not let in completely.
  lemma UnsweptAdmits(l: Limiter, f: Family, lim: Limit, t: real)
    requires Unused(l) && lim in Limits(l, f) && lim.burst > 0 && t >= 0.0
             && Inflow(0.0, t, lim.rps) < lim.burst as real
    ensures Admitted(l, Unswept(Drainers(f, lim), t), Subnet(f, Zeros(lim.prefix))) < 2 * lim.burst
  {
    var who, k := Drainers(f, lim), Subnet(f, Zeros(lim.prefix));
    SpreadInside(lim.burst, f, Zeros(lim.prefix));
    var quiet := Unswept(who, t);
    UnsweptTimes(who, t);
    OwnsFirst(l, f, lim);
    assert Final(l, []) == l && Covers(quiet, lim, l.expiry);
    RateBound(l, 0.0, [], 0.0, quiet, k, lim);
  }

  lemma ShowsCleanup(l: Limiter, f: Family, lim: Limit)
    requires Unused(l) && lim in Limits(l, f) && Unhindered(Limits(l, f), lim) && !Refills(lim, l.expiry)
    ensures !HidesCleanup(l)
  {
    var t := TooSoon(lim, l.expiry);
    Product(l.expiry, lim.rps);
    TwiceAdmits(l, f, lim, t);
    UnsweptAdmits(l, f, lim, t);
    var who, k := Drainers(f, lim), Subnet(f, Zeros(lim.prefix));
    SpreadInside(lim.burst, f, Zeros(lim.prefix));
    SweepingTimes(who, t);
    SweepingRequests(who, t);
    DifferentAnswers(l, who, t, k);
  }

  lemma DifferentAnswers(l: Limiter, who: seq<Addr>, t: real, k: Subnet)
    requires forall i :: 0 <= i < |who| ==> Inside(who[i], k)
    requires Admitted(l, Sweeping(who, t), k) != Admitted(l, Unswept(who, t), k)
    ensures Verdicts(l, Sweeping(who, t)) != Verdicts(l, Unswept(who, t))
  {
    BurstEnd(who, 0.0);
    BurstEnd(who, t);
    TruesAdmitted(l, Sweeping(who, t), k);
    TruesAdmitted(l, Unswept(who, t), k);
  }

  /** When the limits that do not refill are unhindered, cleanup cannot be observed in any run exactly
      when there is none of them. */
  lemma CleanupHiddenIff(l: Limiter)
    requires Unused(l)
    requires forall f, lim :: lim in Limits(l, f) && !Refills(lim, l.expiry) ==> Unhindered(Limits(l, f), lim)
    ensures HidesCleanup(l) <==> AllRefill(l)
  {
    if AllRefill(l) {
      forall clock: real, ops: seq<Op> | Ordered(clock, ops) ensures Verdicts(l, ops) == Verdicts(l, Requests(ops)) {
        CleanupUnobservable(l, clock, ops);
      }
    } else {
      var lim :| lim in l.v4 + l.v6 && !Refills(lim, l.expiry);
      ShowsCleanup(l, if lim in l.v4 then V4 else V6, lim);
    }
  }

  // DefaultSubnetLimiterConfig, whose lists are in the sorted order already.
  function DefaultLimits(f: Family): seq<Limit> {
    if f == V4 then [Limit(24, 10.0, 50), Limit(16, 100.0, 500)] else [Limit(64, 10.0, 50), Limit(48, 100.0, 500)]
  }

  lemma {:induction false} Pow2Large(d: nat)
    requires d >= 4
    ensures Pow2(d) >= 16
  {
    if d == 4 {
      assert Shl(1, 2) == 4 && Shl(1, 4) == 4 * Shl(1, 2);
    } else {
      Pow2Large(d - 1);
    }
  }

  lemma DefaultsUnhindered(f: Family, lim: Limit)
    requires lim in DefaultLimits(f)
    ensures Unhindered(DefaultLimits(f), lim)
  {
    assert Pow2(0) == 1;
    Pow2Large(8);
    Pow2Large(16);
  }

  /** With the default limits cleanup cannot be observed in any run exactly when buckets live at least
      five seconds without a request; the default is ten minutes. */
  lemma DefaultsIff(l: Limiter)
    requires l == Limiter(DefaultLimits(V4), DefaultLimits(V6), l.expiry, map[]) && l.expiry >= 0.0
    ensures HidesCleanup(l) <==> l.expiry >= 5.0
  {
    forall f, lim | lim in Limits(l, f) ensures Unhindered(Limits(l, f), lim) { DefaultsUnhindered(f, lim); }
    CleanupHiddenIff(l);
    assert Limit(24, 10.0, 50) in l.v4 + l.v6;
  }

  // ---------------------------------------------------------------- tokens of the first limit

  /** The token bound of one limit, in all runs. */
  ghost predicate KeepsTokens(l: Limiter, f: Family, lim: Limit) {
    forall clock: real, history: seq<Op>, open: real, window: seq<Op>, k: Subnet ::
      Window(l, clock, history, open, window) && k.family == f && Owns(l, k, lim) ==>
        Tokens(Final(l, history), window, k, k) as real <= lim.burst as real + Inflow(open, End(open, window), lim.rps)
  }

  // The limit that is asked first for address a, and the bucket it asks.
  ghost predicate First(l: Limiter, a: Addr, lim: Limit) {
    a.Ip? && Fits(a, lim.prefix) && Sensible(lim) &&
    Limits(l, a.family) != [] && Limits(l, a.family)[0] == lim && DistinctLengths(Limits(l, a.family))
  }

  lemma WalkFirst(m: Buckets, limits: seq<Limit>, a: Addr, now: real)
    requires limits != [] && Fits(a, limits[0].prefix)
             && Grants(Find(m, Masked(a, limits[0].prefix), limits[0], now), now)
    ensures var k := Masked(a, limits[0].prefix);
            var o := Walk(m[k := After(Find(m, k, limits[0], now), now)], limits[1..], a, now);
            Walk(m, limits, a, now).taken == [k] + o.taken && Walk(m, limits, a, now).buckets == o.buckets
  {
  }

  // A bucket that was just updated stays so for the rest of the walk.
  lemma {:induction false} StaysUpdated(m: Buckets, limits: seq<Limit>, a: Addr, now: real, k: Subnet)
    requires k in m && m[k].last == now
    ensures var o := Walk(m, limits, a, now); k in o.buckets && o.buckets[k].last == now
    decreases |limits|
  {
    if limits != [] {
      if Fits(a, limits[0].prefix) {
        var j := Masked(a, limits[0].prefix);
        StaysUpdated(m[j := After(Find(m, j, limits[0], now), now)], limits[1..], a, now, k);
      } else {
        StaysUpdated(m, limits[1..], a, now, k);
      }
    }
  }

  // With a token in it, the first bucket gives one, whatever the other limits say.
  lemma FirstGives(l: Limiter, lim: Limit, a: Addr, now: real, from: Subnet)
    requires First(l, a, lim) && Inside(a, from) && Sane(l.buckets, Masked(a, lim.prefix), lim, now)
    requires Level(l.buckets, Masked(a, lim.prefix), lim, now) >= 1.0
    ensures var k, m := Masked(a, lim.prefix), Step(l, Allow(a, now)).buckets;
            && TokensBy(l, Allow(a, now), k, from) == 1
            && Sane(m, k, lim, now) && k in m && m[k].last == now
            && Level(m, k, lim, now) == Level(l.buckets, k, lim, now) - 1.0
  {
    var limits, k := Limits(l, a.family), Masked(a, lim.prefix);
    TakeLevel(l.buckets, k, lim, lim, now);
    WalkFirst(l.buckets, limits, a, now);
    var m := l.buckets[k := After(Find(l.buckets, k, lim, now), now)];
    AtMostOnce(m, limits[1..], a, now, k);
    var o := Walk(m, limits[1..], a, now);
    assert ([k] + o.taken)[1..] == o.taken;
    WalkLevel(l.buckets, limits, a, now, k, lim);
    StaysUpdated(m, limits[1..], a, now, k);
  }

  function Copies(n: nat, a: Addr): seq<Addr> { seq(n, i => a) }

  lemma {:induction false} DrainTakes(l: Limiter, lim: Limit, a: Addr, now: real, n: nat, rest: seq<Op>, from: Subnet)
    requires First(l, a, lim) && Inside(a, from) && Sane(l.buckets, Masked(a, lim.prefix), lim, now)
    requires Level(l.buckets, Masked(a, lim.prefix), lim, now) >= n as real
    ensures var k, ops := Masked(a, lim.prefix), Burst(Copies(n, a), now);
            var m := Final(l, ops);
            && Tokens(l, ops + rest, k, from) == n + Tokens(m, rest, k, from)
            && m == l.(buckets := m.buckets) && Sane(m.buckets, k, lim, now)
            && (n > 0 ==> k in m.buckets && m.buckets[k].last == now)
    decreases n
  {
    var ops := Burst(Copies(n, a), now);
    if n == 0 {
      assert ops + rest == rest;
    } else {
      assert Copies(n, a)[1..] == Copies(n - 1, a);
      var tail := Burst(Copies(n - 1, a), now);
      assert (ops + rest)[1..] == tail + rest && ops[1..] == tail;
      FirstGives(l, lim, a, now, from);
      DrainTakes(Step(l, Allow(a, now)), lim, a, now, n - 1, rest, from);
    }
  }

  lemma TwiceTakes(l: Limiter, lim: Limit, a: Addr, t: real)
    requires First(l, a, lim) && l.buckets == map[] && lim.burst > 0 && t > l.expiry && l.expiry >= 0.0
    ensures var k := Masked(a, lim.prefix);
            Tokens(l, Sweeping(Copies(lim.burst, a), t), k, k) == 2 * lim.burst
  {
    var n, k, who := lim.burst, Masked(a, lim.prefix), Copies(lim.burst, a);
    var second := Burst(who, t);
    assert ([Cleanup(t)] + second)[1..] == second && second + [] == second;
    DrainTakes(l, lim, a, 0.0, n, [Cleanup(t)] + second, k);
    var m := Step(Final(l, Burst(who, 0.0)), Cleanup(t));
    assert k !in m.buckets;
    DrainTakes(m, lim, a, t, n, [], k);
  }

  /** For the first, that is the narrowest, limit of any list the token bound holds in every run
      exactly when the bucket refills within the expiry time. */
  lemma TokenBoundIff(l: Limiter, lim: Limit, a: Addr)
    requires First(l, a, lim) && l.buckets == map[] && l.expiry >= 0.0
    ensures KeepsTokens(l, a.family, lim) <==> l.expiry * lim.rps >= lim.burst as real
  {
    if l.expiry * lim.rps < lim.burst as real {
      var t := TooSoon(lim, l.expiry);
      Product(l.expiry, lim.rps);
      TwiceTakes(l, lim, a, t);
      var k, who := Masked(a, lim.prefix), Copies(lim.burst, a);
      SweepingTimes(who, t);
      assert Window(l, 0.0, [], 0.0, Sweeping(who, t)) && Owns(l, k, lim) && Final(l, []) == l;
      assert Tokens(Final(l, []), Sweeping(who, t), k, k) as real >
             lim.burst as real + Inflow(0.0, t, lim.rps);
    } else {
      forall clock: real, history: seq<Op>, open: real, window: seq<Op>, k: Subnet
        | Window(l, clock, history, open, window) && k.family == a.family && Owns(l, k, lim)
        ensures Tokens(Final(l, history), window, k, k) as real <=
                lim.burst as real + Inflow(open, End(open, window), lim.rps)
      {
        TokenBound(l, clock, history, open, window, k, lim);
      }
    }
  }
}
