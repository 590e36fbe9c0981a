/**
 The subnet rate limiter (internal/core/connmgr/ip_limit.go) on values: token buckets keyed by
 subnet, the walk over the configured limits, and the cleanup of expired buckets. Times, in
 seconds, and tokens are reals.
 */
module RateLimit {

  datatype Limit = Limit(prefix: int, rps: real, burst: int)

  datatype Bucket = Bucket(tokens: real, last: real, rps: real, burst: int)

  datatype Family = V4 | V6

  datatype RawAddr = Ip(family: Family, bits: seq<bool>) | NoAddr

  // netip.Addr: 32 or 128 bits, or the invalid address.
  type Addr = a: RawAddr | a.Ip? ==> |a.bits| == if a.family == V4 then 32 else 128
    witness NoAddr

  // A masked prefix, which is what the bucket's key spells out.
  datatype Subnet = Subnet(family: Family, bits: seq<bool>)

  type Buckets = map<Subnet, Bucket>

  predicate Inside(a: Addr, k: Subnet) { a.Ip? && a.family == k.family && k.bits <= a.bits }

  // Addr.Prefix reports an error for any other length.
  predicate Fits(a: Addr, n: int) { a.Ip? && 0 <= n <= |a.bits| }

  function Masked(a: Addr, n: int): Subnet
    requires Fits(a, n)
  {
    Subnet(a.family, a.bits[..n])
  }

  // ---------------------------------------------------------------- one bucket

  function Fresh(limit: Limit, now: real): Bucket { Bucket(limit.burst as real, now, limit.rps, limit.burst) }

  // What flows in between two clock readings.
  function Inflow(t: real, u: real, rps: real): real { (u - t) * rps }

  /** The tokens after the refill at the start of take. */
  function Refilled(b: Bucket, now: real): real {
    var t := b.tokens + Inflow(b.last, now, b.rps);
    if t > b.burst as real then b.burst as real else t
  }

  predicate Grants(b: Bucket, now: real) { Refilled(b, now) >= 1.0 }

  function After(b: Bucket, now: real): Bucket {
    b.(tokens := Refilled(b, now) - (if Grants(b, now) then 1.0 else 0.0), last := now)
  }

  // ---------------------------------------------------------------- Allow and cleanup

  function Find(m: Buckets, k: Subnet, limit: Limit, now: real): Bucket {
    if k in m then m[k] else Fresh(limit, now)
  }

  // What a walk leaves: the buckets, the verdict, and the subnets that gave a token, in order.
  datatype Outcome = Outcome(buckets: Buckets, ok: bool, taken: seq<Subnet>)

  /** Allow: one take for each limit in order, stopping at the first refusal. */
  function Walk(m: Buckets, limits: seq<Limit>, a: Addr, now: real): Outcome
    decreases |limits|
  {
    if limits == [] then Outcome(m, true, [])
    else if !Fits(a, limits[0].prefix) then Walk(m, limits[1..], a, now)
    else
      var k := Masked(a, limits[0].prefix);
      var b := Find(m, k, limits[0], now);
      if !Grants(b, now) then Outcome(m[k := After(b, now)], false, [])
      else
        var o := Walk(m[k := After(b, now)], limits[1..], a, now);
        o.(taken := [k] + o.taken)
  }

  function Swept(m: Buckets, expiry: real, now: real): Buckets {
    map k | k in m && now - m[k].last <= expiry :: m[k]
  }

  // ---------------------------------------------------------------- runs

  datatype Limiter = Limiter(v4: seq<Limit>, v6: seq<Limit>, expiry: real, buckets: Buckets)

  datatype Op = Allow(a: Addr, now: real) | Cleanup(now: real)

  function Limits(l: Limiter, f: Family): seq<Limit> { if f == V4 then l.v4 else l.v6 }

  // An invalid address meets no limit.
  function Asked(l: Limiter, a: Addr): seq<Limit> { if a.Ip? then Limits(l, a.family) else [] }

  function Answer(l: Limiter, a: Addr, now: real): Outcome { Walk(l.buckets, Asked(l, a), a, now) }

  function Step(l: Limiter, op: Op): Limiter {
    match op
    case Allow(a, now) => l.(buckets := Answer(l, a, now).buckets)
    case Cleanup(now) => l.(buckets := Swept(l.buckets, l.expiry, now))
  }

  function Final(l: Limiter, ops: seq<Op>): Limiter
    decreases |ops|
  {
    if ops == [] then l else Final(Step(l, ops[0]), ops[1..])
  }

  // The clock does not go back.
  predicate Ordered(clock: real, ops: seq<Op>)
    decreases |ops|
  {
    ops == [] || (clock <= ops[0].now && Ordered(ops[0].now, ops[1..]))
  }

  function End(clock: real, ops: seq<Op>): real
    decreases |ops|
  {
    if ops == [] then clock else End(ops[0].now, ops[1..])
  }

  function Count(taken: seq<Subnet>, k: Subnet): nat {
    if taken == [] then 0 else (if taken[0] == k then 1 else 0) + Count(taken[1..], k)
  }

  // Tokens the operation takes from subnet k's bucket on behalf of addresses inside `from`.
  function TokensBy(l: Limiter, op: Op, k: Subnet, from: Subnet): nat {
    if op.Allow? && Inside(op.a, from) then Count(Answer(l, op.a, op.now).taken, k) else 0
  }

  function Tokens(l: Limiter, ops: seq<Op>, k: Subnet, from: Subnet): nat
    decreases |ops|
  {
    if ops == [] then 0 else TokensBy(l, ops[0], k, from) + Tokens(Step(l, ops[0]), ops[1..], k, from)
  }

  predicate Admits(l: Limiter, op: Op, k: Subnet) {
    op.Allow? && Inside(op.a, k) && Answer(l, op.a, op.now).ok
  }

  // Addresses of subnet k that are let in.
  function Admitted(l: Limiter, ops: seq<Op>, k: Subnet): nat
    decreases |ops|
  {
    if ops == [] then 0 else (if Admits(l, ops[0], k) then 1 else 0) + Admitted(Step(l, ops[0]), ops[1..], k)
  }

  function Verdicts(l: Limiter, ops: seq<Op>): seq<bool>
    decreases |ops|
  {
    if ops == [] then []
    else (if ops[0].Allow? then [Answer(l, ops[0].a, ops[0].now).ok] else []) + Verdicts(Step(l, ops[0]), ops[1..])
  }

  function Requests(ops: seq<Op>): seq<Op> {
    if ops == [] then [] else (if ops[0].Allow? then [ops[0]] else []) + Requests(ops[1..])
  }

  // ---------------------------------------------------------------- which limit owns a bucket

  // The first limit with prefix length n, if any, has the given rate and burst.
  predicate OwnedBy(limits: seq<Limit>, n: int, lim: Limit) {
    limits == [] || if limits[0].prefix == n then limits[0] == lim else OwnedBy(limits[1..], n, lim)
  }

  ghost predicate Owns(l: Limiter, k: Subnet, lim: Limit) {
    lim in Limits(l, k.family) && lim.prefix == |k.bits| && OwnedBy(Limits(l, k.family), |k.bits|, lim)
  }

  ghost predicate Descending(limits: seq<Limit>) {
    forall i, j :: 0 <= i < j < |limits| ==> limits[i].prefix >= limits[j].prefix
  }

  ghost predicate DistinctLengths(limits: seq<Limit>) {
    forall i, j :: 0 <= i < j < |limits| ==> limits[i].prefix != limits[j].prefix
  }

  // ---------------------------------------------------------------- the level of a bucket

  /** The tokens subnet k would have at time t; a missing bucket counts as full. */
  ghost function Level(m: Buckets, k: Subnet, lim: Limit, t: real): real {
    if k in m then Refilled(m[k], t) else lim.burst as real
  }

  // Subnet k's bucket, if there is one, carries lim's rate and burst and was updated by `clock`.
  ghost predicate Sane(m: Buckets, k: Subnet, lim: Limit, clock: real) {
    k in m ==>
      m[k].rps == lim.rps && m[k].burst == lim.burst && m[k].last <= clock && 0.0 <= m[k].tokens <= lim.burst as real
  }

  predicate Sensible(lim: Limit) { lim.rps >= 0.0 && lim.burst >= 0 }

  // A bucket that expires has refilled completely.
  predicate Refills(lim: Limit, expiry: real) { Sensible(lim) && expiry * lim.rps >= lim.burst as real }

  lemma Gain(t: real, u: real, rps: real)
    requires t <= u && rps >= 0.0
    ensures Inflow(t, u, rps) >= 0.0
  {
  }

  lemma Flow(rps: real, t: real, u: real, v: real)
    ensures Inflow(t, v, rps) == Inflow(t, u, rps) + Inflow(u, v, rps)
  {
  }

  lemma NoTime(t: real, rps: real)
    ensures Inflow(t, t, rps) == 0.0
  {
  }

  lemma WholeExpiry(t: real, expiry: real, rps: real)
    ensures Inflow(t, t + expiry, rps) == expiry * rps
  {
  }

  lemma LevelBounds(m: Buckets, k: Subnet, lim: Limit, clock: real, t: real)
    requires Sane(m, k, lim, clock) && Sensible(lim) && clock <= t
    ensures 0.0 <= Level(m, k, lim, t) <= lim.burst as real
  {
    if k in m { Gain(m[k].last, t, m[k].rps); }
  }

  /** Between operations the level grows at the rate of the limit, up to its burst. */
  lemma LevelLater(m: Buckets, k: Subnet, lim: Limit, clock: real, t: real, u: real)
    requires Sane(m, k, lim, clock) && Sensible(lim) && clock <= t <= u
    ensures Level(m, k, lim, u) ==
            (var g := Level(m, k, lim, t) + Inflow(t, u, lim.rps);
             if g > lim.burst as real then lim.burst as real else g)
    ensures Level(m, k, lim, u) <= Level(m, k, lim, t) + Inflow(t, u, lim.rps)
  {
    Gain(t, u, lim.rps);
    if k in m {
      Flow(m[k].rps, m[k].last, t, u);
    }
  }

  // ---------------------------------------------------------------- a walk changes levels by what it takes

  lemma OnlyOwnKeys(a: Addr, n: int, k: Subnet)
    requires Fits(a, n) && Masked(a, n) == k
    ensures Inside(a, k) && |k.bits| == n
  {
  }

  lemma TakeLevel(m: Buckets, k: Subnet, lim: Limit, limit: Limit, now: real)
    requires Sane(m, k, lim, now) && Sensible(lim) && (k !in m ==> limit == lim)
    ensures var b := Find(m, k, limit, now);
            && Refilled(b, now) == Level(m, k, lim, now)
            && Sane(m[k := After(b, now)], k, lim, now)
            && Level(m[k := After(b, now)], k, lim, now) ==
                 Level(m, k, lim, now) - (if Grants(b, now) then 1.0 else 0.0)
  {
    LevelBounds(m, k, lim, now, now);
    var b := Find(m, k, limit, now);
    NoTime(now, b.rps);
  }

  lemma {:induction false} WalkLevel(m: Buckets, limits: seq<Limit>, a: Addr, now: real, k: Subnet, lim: Limit)
    requires Sane(m, k, lim, now) && Sensible(lim)
    requires k in m || !Inside(a, k) || OwnedBy(limits, |k.bits|, lim)
    ensures var o := Walk(m, limits, a, now);
            && Sane(o.buckets, k, lim, now)
            && Level(o.buckets, k, lim, now) == Level(m, k, lim, now) - Count(o.taken, k) as real
    ensures !Inside(a, k) ==> Count(Walk(m, limits, a, now).taken, k) == 0
    decreases |limits|
  {
    if limits == [] {
    } else if !Fits(a, limits[0].prefix) {
      if Inside(a, k) { assert limits[0].prefix != |k.bits|; }
      WalkLevel(m, limits[1..], a, now, k, lim);
    } else {
      var j := Masked(a, limits[0].prefix);
      var b := Find(m, j, limits[0], now);
      var m' := m[j := After(b, now)];
      if j == k {
        OnlyOwnKeys(a, limits[0].prefix, k);
        TakeLevel(m, k, lim, limits[0], now);
      } else if Inside(a, k) {
        assert limits[0].prefix != |k.bits|;
      }
      if Grants(b, now) {
        WalkLevel(m', limits[1..], a, now, k, lim);
        var o := Walk(m', limits[1..], a, now);
        assert ([j] + o.taken)[1..] == o.taken;
      }
    }
  }

  lemma SweepLevel(m: Buckets, expiry: real, now: real, k: Subnet, lim: Limit)
    requires Sane(m, k, lim, now) && Refills(lim, expiry)
    ensures Sane(Swept(m, expiry, now), k, lim, now)
    ensures Level(Swept(m, expiry, now), k, lim, now) == Level(m, k, lim, now)
  {
    if k in m && now - m[k].last > expiry {
      var full := m[k].last + expiry;
      Flow(m[k].rps, m[k].last, full, now);
      Gain(full, now, m[k].rps);
      WholeExpiry(m[k].last, expiry, m[k].rps);
    }
  }

  lemma StepLevel(l: Limiter, op: Op, k: Subnet, lim: Limit, clock: real)
    requires Sane(l.buckets, k, lim, clock) && clock <= op.now && Owns(l, k, lim)
    requires Sensible(lim) && (op.Cleanup? ==> Refills(lim, l.expiry))
    ensures Sane(Step(l, op).buckets, k, lim, op.now)
    ensures Level(Step(l, op).buckets, k, lim, op.now) ==
            Level(l.buckets, k, lim, op.now) - TokensBy(l, op, k, k) as real
  {
    match op
    case Allow(a, now) => WalkLevel(l.buckets, Asked(l, a), a, now, k, lim);
    case Cleanup(now) => SweepLevel(l.buckets, l.expiry, now, k, lim);
  }

  lemma StepOwns(l: Limiter, op: Op, k: Subnet, lim: Limit)
    requires Owns(l, k, lim)
    ensures Owns(Step(l, op), k, lim)
  {
  }

  // ---------------------------------------------------------------- the rate bound

  // If there are cleanups, a bucket they delete is full.
  ghost predicate Covers(ops: seq<Op>, lim: Limit, expiry: real) {
    (exists i :: 0 <= i < |ops| && ops[i].Cleanup?) ==> Refills(lim, expiry)
  }

  lemma CoversRest(ops: seq<Op>, lim: Limit, expiry: real)
    requires ops != [] && Covers(ops, lim, expiry)
    ensures Covers(ops[1..], lim, expiry)
  {
    forall i | 0 <= i < |ops[1..]| && ops[1..][i].Cleanup? ensures Refills(lim, expiry) { assert ops[i + 1].Cleanup?; }
  }

  /** Conservation over a stretch of operations: what a bucket gives and what is left of it is no
      more than what it had and what flowed in. */
  lemma {:induction false} Conservation(l: Limiter, ops: seq<Op>, k: Subnet, lim: Limit, clock: real)
    requires Sane(l.buckets, k, lim, clock) && Owns(l, k, lim) && Ordered(clock, ops)
    requires Sensible(lim) && Covers(ops, lim, l.expiry)
    ensures clock <= End(clock, ops) && Sane(Final(l, ops).buckets, k, lim, End(clock, ops))
    ensures Tokens(l, ops, k, k) as real + Level(Final(l, ops).buckets, k, lim, End(clock, ops))
            <= Level(l.buckets, k, lim, clock) + Inflow(clock, End(clock, ops), lim.rps)
    decreases |ops|
  {
    if ops != [] {
      var now, rest, l' := ops[0].now, ops[1..], Step(l, ops[0]);
      StepLevel(l, ops[0], k, lim, clock);
      StepOwns(l, ops[0], k, lim);
      LevelLater(l.buckets, k, lim, clock, clock, now);
      CoversRest(ops, lim, l.expiry);
      Conservation(l', rest, k, lim, now);
      Flow(lim.rps, clock, now, End(now, rest));
    }
  }

  lemma {:induction false} SaneAlong(l: Limiter, ops: seq<Op>, k: Subnet, lim: Limit, clock: real)
    requires Sane(l.buckets, k, lim, clock) && Owns(l, k, lim) && Ordered(clock, ops)
    requires Sensible(lim) && Covers(ops, lim, l.expiry)
    ensures Sane(Final(l, ops).buckets, k, lim, End(clock, ops)) && Owns(Final(l, ops), k, lim)
    ensures Final(l, ops).expiry == l.expiry
    decreases |ops|
  {
    if ops != [] {
      StepLevel(l, ops[0], k, lim, clock);
      StepOwns(l, ops[0], k, lim);
      CoversRest(ops, lim, l.expiry);
      SaneAlong(Step(l, ops[0]), ops[1..], k, lim, ops[0].now);
    }
  }

  // A window: operations that follow a history, with the clock reading at which it opens.
  ghost predicate Window(l: Limiter, clock: real, history: seq<Op>, open: real, window: seq<Op>) {
    l.buckets == map[] && Ordered(clock, history) && End(clock, history) <= open && Ordered(open, window)
  }

  // Cleanups that occur at all find this limit's buckets full.
  ghost predicate Harmless(l: Limiter, history: seq<Op>, window: seq<Op>, lim: Limit) {
    Sensible(lim) && Covers(history, lim, l.expiry) && Covers(window, lim, l.expiry)
  }

  /** In any window of any run a subnet's bucket gives at most burst + rps * d tokens. */
  lemma TokenBound(l: Limiter, clock: real, history: seq<Op>, open: real, window: seq<Op>, k: Subnet, lim: Limit)
    requires Window(l, clock, history, open, window) && Owns(l, k, lim) && Harmless(l, history, window, lim)
    ensures Tokens(Final(l, history), window, k, k) as real <=
            lim.burst as real + Inflow(open, End(open, window), lim.rps)
  {
    SaneAlong(l, history, k, lim, clock);
    var m := Final(l, history);
    Conservation(m, window, k, lim, open);
    LevelBounds(m.buckets, k, lim, open, open);
    LevelBounds(Final(m, window).buckets, k, lim, End(open, window), End(open, window));
  }

  // An address that is let in took a token from the bucket of every limit that fits it.
  lemma {:induction false} AdmittedTook(m: Buckets, limits: seq<Limit>, a: Addr, now: real, k: Subnet, i: nat)
    requires i < |limits| && limits[i].prefix == |k.bits| && Inside(a, k) && Walk(m, limits, a, now).ok
    ensures Count(Walk(m, limits, a, now).taken, k) >= 1
    decreases |limits|
  {
    assert Masked(a, |k.bits|) == k;
    if Fits(a, limits[0].prefix) {
      var j := Masked(a, limits[0].prefix);
      var m' := m[j := After(Find(m, j, limits[0], now), now)];
      var o := Walk(m', limits[1..], a, now);
      assert ([j] + o.taken)[1..] == o.taken;
      if i > 0 { AdmittedTook(m', limits[1..], a, now, k, i - 1); }
    } else {
      AdmittedTook(m, limits[1..], a, now, k, i - 1);
    }
  }

  lemma {:induction false} AdmittedPaid(l: Limiter, ops: seq<Op>, k: Subnet, lim: Limit)
    requires Owns(l, k, lim)
    ensures Admitted(l, ops, k) <= Tokens(l, ops, k, k)
    decreases |ops|
  {
    if ops != [] {
      if Admits(l, ops[0], k) {
        var limits := Limits(l, k.family);
        var i :| 0 <= i < |limits| && limits[i] == lim;
        AdmittedTook(l.buckets, limits, ops[0].a, ops[0].now, k, i);
      }
      StepOwns(l, ops[0], k, lim);
      AdmittedPaid(Step(l, ops[0]), ops[1..], k, lim);
    }
  }

  /** Layered rate bound: for every limit and subnet, in any window of any run. */
  lemma RateBound(l: Limiter, clock: real, history: seq<Op>, open: real, window: seq<Op>, k: Subnet, lim: Limit)
    requires Window(l, clock, history, open, window) && Owns(l, k, lim) && Harmless(l, history, window, lim)
    ensures Admitted(Final(l, history), window, k) as real <=
            lim.burst as real + Inflow(open, End(open, window), lim.rps)
  {
    TokenBound(l, clock, history, open, window, k, lim);
    FinalOwns(l, history, k, lim);
    AdmittedPaid(Final(l, history), window, k, lim);
  }

  lemma {:induction false} FinalOwns(l: Limiter, ops: seq<Op>, k: Subnet, lim: Limit)
    requires Owns(l, k, lim)
    ensures Owns(Final(l, ops), k, lim)
    decreases |ops|
  {
    if ops != [] {
      StepOwns(l, ops[0], k, lim);
      FinalOwns(Step(l, ops[0]), ops[1..], k, lim);
    }
  }

  // ---------------------------------------------------------------- isolation

  // With longer prefixes first, a token of a wide bucket follows one of every narrower bucket.
  lemma {:induction false} NarrowFirst(m: Buckets, limits: seq<Limit>, a: Addr, now: real, k: Subnet, w: Subnet, i: nat)
    requires Descending(limits) && DistinctLengths(limits) && i < |limits| && limits[i].prefix == |k.bits|
    requires Inside(a, k) && |w.bits| < |k.bits|
    ensures var taken := Walk(m, limits, a, now).taken;
            Count(taken, w) <= 1 && Count(taken, w) <= Count(taken, k)
    decreases |limits|
  {
    assert Masked(a, |k.bits|) == k;
    if Fits(a, limits[0].prefix) {
      var j := Masked(a, limits[0].prefix);
      var m' := m[j := After(Find(m, j, limits[0], now), now)];
      var o := Walk(m', limits[1..], a, now);
      assert ([j] + o.taken)[1..] == o.taken;
      assert limits[0].prefix >= limits[i].prefix;
      if i > 0 {
        assert limits[0].prefix != limits[i].prefix;
        NarrowFirst(m', limits[1..], a, now, k, w, i - 1);
      } else {
        AtMostOnce(m', limits[1..], a, now, w);
      }
    } else {
      NarrowFirst(m, limits[1..], a, now, k, w, i - 1);
    }
  }

  lemma {:induction false} AtMostOnce(m: Buckets, limits: seq<Limit>, a: Addr, now: real, w: Subnet)
    requires DistinctLengths(limits)
    ensures Count(Walk(m, limits, a, now).taken, w) <= 1
    ensures (forall i :: 0 <= i < |limits| ==> limits[i].prefix != |w.bits|) ==>
            Count(Walk(m, limits, a, now).taken, w) == 0
    decreases |limits|
  {
    if limits != [] {
      if Fits(a, limits[0].prefix) {
        var j := Masked(a, limits[0].prefix);
        var m' := m[j := After(Find(m, j, limits[0], now), now)];
        var o := Walk(m', limits[1..], a, now);
        assert ([j] + o.taken)[1..] == o.taken;
        AtMostOnce(m', limits[1..], a, now, w);
      } else {
        AtMostOnce(m, limits[1..], a, now, w);
      }
    }
  }

  lemma {:induction false} NarrowPays(l: Limiter, ops: seq<Op>, k: Subnet, w: Subnet, lim: Limit)
    requires Owns(l, k, lim) && |w.bits| < |k.bits|
    requires Descending(Limits(l, k.family)) && DistinctLengths(Limits(l, k.family))
    ensures Tokens(l, ops, w, k) <= Tokens(l, ops, k, k)
    decreases |ops|
  {
    if ops != [] {
      if ops[0].Allow? && Inside(ops[0].a, k) {
        var limits := Limits(l, k.family);
        var i :| 0 <= i < |limits| && limits[i] == lim;
        NarrowFirst(l.buckets, limits, ops[0].a, ops[0].now, k, w, i);
      }
      StepOwns(l, ops[0], k, lim);
      NarrowPays(Step(l, ops[0]), ops[1..], k, w, lim);
    }
  }

  /** Isolation: the addresses of a narrow subnet take no more from any wider bucket than the
      narrow subnet's own burst + rps * d. */
  lemma Isolation(l: Limiter, clock: real, history: seq<Op>, open: real, window: seq<Op>, k: Subnet,
                  w: Subnet, lim: Limit)
    requires Window(l, clock, history, open, window) && Owns(l, k, lim) && Harmless(l, history, window, lim)
    requires Descending(Limits(l, k.family)) && DistinctLengths(Limits(l, k.family)) && |w.bits| < |k.bits|
    ensures Tokens(Final(l, history), window, w, k) as real <=
            lim.burst as real + Inflow(open, End(open, window), lim.rps)
  {
    TokenBound(l, clock, history, open, window, k, lim);
    FinalOwns(l, history, k, lim);
    SameLimits(l, history);
    NarrowPays(Final(l, history), window, k, w, lim);
  }

  lemma {:induction false} SameLimits(l: Limiter, ops: seq<Op>)
    ensures Final(l, ops) == l.(buckets := Final(l, ops).buckets)
    decreases |ops|
  {
    if ops != [] { SameLimits(Step(l, ops[0]), ops[1..]); }
  }

  // ---------------------------------------------------------------- cleanup cannot be observed

  // The limit that owns the buckets of n-bit prefixes.
  function FirstOf(limits: seq<Limit>, n: int): (lim: Limit)
    requires exists i :: 0 <= i < |limits| && limits[i].prefix == n
    ensures lim in limits && lim.prefix == n && OwnedBy(limits, n, lim)
  {
    if limits[0].prefix == n then limits[0]
    else
      assert exists i :: 0 <= i < |limits[1..]| && limits[1..][i].prefix == n by {
        var i :| 0 <= i < |limits| && limits[i].prefix == n;
        assert limits[1..][i - 1].prefix == n;
      }
      FirstOf(limits[1..], n)
  }

  ghost predicate SameLevel(m: Buckets, m': Buckets, k: Subnet, lim: Limit, clock: real) {
    Sane(m, k, lim, clock) && Sane(m', k, lim, clock) && Level(m, k, lim, clock) == Level(m', k, lim, clock)
  }

  // Every bucket has the same level in both limiters.
  ghost predicate Alike(l: Limiter, l': Limiter, clock: real) {
    && l'.v4 == l.v4 && l'.v6 == l.v6
    && forall k, lim :: Owns(l, k, lim) ==> SameLevel(l.buckets, l'.buckets, k, lim, clock)
  }

  // Ready for the rest of a walk: the bucket is there, or the rest makes it as its owner would.
  ghost predicate Ready(m: Buckets, rest: seq<Limit>, k: Subnet, lim: Limit) {
    k in m || OwnedBy(rest, |k.bits|, lim)
  }

  ghost predicate InStep(m: Buckets, m': Buckets, rest: seq<Limit>, k: Subnet, lim: Limit, now: real) {
    SameLevel(m, m', k, lim, now) && Ready(m, rest, k, lim) && Ready(m', rest, k, lim)
  }

  lemma {:induction false} WalkAlike(l: Limiter, m: Buckets, m': Buckets, rest: seq<Limit>, a: Addr, now: real)
    requires forall lim :: lim in Limits(l, V4) + Limits(l, V6) ==> Sensible(lim)
    requires a.Ip? ==> forall i :: 0 <= i < |rest| ==> rest[i] in Limits(l, a.family)
    requires forall k, lim :: Owns(l, k, lim) && Inside(a, k) ==> InStep(m, m', rest, k, lim, now)
    ensures Walk(m, rest, a, now).ok == Walk(m', rest, a, now).ok
    ensures Walk(m, rest, a, now).taken == Walk(m', rest, a, now).taken
    decreases |rest|
  {
    if rest == [] {
    } else if !Fits(a, rest[0].prefix) {
      forall k, lim | Owns(l, k, lim) && Inside(a, k) ensures InStep(m, m', rest[1..], k, lim, now) {
        assert InStep(m, m', rest, k, lim, now) && rest[0].prefix != |k.bits|;
      }
      WalkAlike(l, m, m', rest[1..], a, now);
    } else {
      assert rest[0] in Limits(l, a.family);
      var n := rest[0].prefix;
      var j, own := Masked(a, n), FirstOf(Limits(l, a.family), n);
      assert Owns(l, j, own) && Inside(a, j) && InStep(m, m', rest, j, own, now);
      TakeLevel(m, j, own, rest[0], now);
      TakeLevel(m', j, own, rest[0], now);
      var b, b' := After(Find(m, j, rest[0], now), now), After(Find(m', j, rest[0], now), now);
      var q, q' := m[j := b], m'[j := b'];
      forall k, lim | Owns(l, k, lim) && Inside(a, k) ensures InStep(q, q', rest[1..], k, lim, now) {
        assert InStep(m, m', rest, k, lim, now);
        if k == j {
          OneOwner(Limits(l, a.family), n, own, lim);
        } else {
          OtherInStep(m, m', rest, j, b, b', k, lim, now);
        }
      }
      WalkAlike(l, q, q', rest[1..], a, now);
    }
  }

  lemma OtherInStep(m: Buckets, m': Buckets, rest: seq<Limit>, j: Subnet, b: Bucket, b': Bucket,
                    k: Subnet, lim: Limit, now: real)
    requires InStep(m, m', rest, k, lim, now) && rest != [] && rest[0].prefix == |j.bits| != |k.bits|
    ensures InStep(m[j := b], m'[j := b'], rest[1..], k, lim, now)
  {
  }

  lemma {:induction false} OneOwner(limits: seq<Limit>, n: int, x: Limit, y: Limit)
    requires x in limits && x.prefix == n && OwnedBy(limits, n, x)
    requires y in limits && y.prefix == n && OwnedBy(limits, n, y)
    ensures x == y
    decreases |limits|
  {
    if limits[0].prefix != n { OneOwner(limits[1..], n, x, y); }
  }

  lemma LaterAlike(l: Limiter, l': Limiter, clock: real, now: real)
    requires Alike(l, l', clock) && clock <= now && AllRefill(l)
    ensures Alike(l, l', now)
  {
    forall k, lim | Owns(l, k, lim) ensures SameLevel(l.buckets, l'.buckets, k, lim, now) {
      assert SameLevel(l.buckets, l'.buckets, k, lim, clock);
      assert lim in l.v4 + l.v6;
      LevelLater(l.buckets, k, lim, clock, clock, now);
      LevelLater(l'.buckets, k, lim, clock, clock, now);
    }
  }

  // Every configured limit refills within the expiry time.
  ghost predicate AllRefill(l: Limiter) { forall lim :: lim in l.v4 + l.v6 ==> Refills(lim, l.expiry) }

  lemma SweepAlike(l: Limiter, l': Limiter, now: real)
    requires Alike(l, l', now) && AllRefill(l)
    ensures Alike(Step(l, Cleanup(now)), l', now)
  {
    forall k, lim | Owns(l, k, lim) ensures SameLevel(Swept(l.buckets, l.expiry, now), l'.buckets, k, lim, now) {
      assert SameLevel(l.buckets, l'.buckets, k, lim, now) && lim in l.v4 + l.v6;
      SweepLevel(l.buckets, l.expiry, now, k, lim);
    }
    var s := Step(l, Cleanup(now));
    forall k, lim | Owns(s, k, lim) ensures SameLevel(s.buckets, l'.buckets, k, lim, now) { assert Owns(l, k, lim); }
  }

  lemma AllowAlike(l: Limiter, l': Limiter, a: Addr, now: real)
    requires Alike(l, l', now) && AllRefill(l)
    ensures Answer(l, a, now).ok == Answer(l', a, now).ok
    ensures Alike(Step(l, Allow(a, now)), Step(l', Allow(a, now)), now)
  {
    forall k, lim | Owns(l, k, lim) && Inside(a, k) ensures InStep(l.buckets, l'.buckets, Asked(l, a), k, lim, now) {
      assert SameLevel(l.buckets, l'.buckets, k, lim, now);
    }
    WalkAlike(l, l.buckets, l'.buckets, Asked(l, a), a, now);
    var s, s' := Step(l, Allow(a, now)), Step(l', Allow(a, now));
    forall k, lim | Owns(s, k, lim) ensures SameLevel(s.buckets, s'.buckets, k, lim, now) {
      assert Owns(l, k, lim) && SameLevel(l.buckets, l'.buckets, k, lim, now) && lim in l.v4 + l.v6;
      WalkLevel(l.buckets, Asked(l, a), a, now, k, lim);
      WalkLevel(l'.buckets, Asked(l, a), a, now, k, lim);
    }
  }

  lemma {:induction false} AlikeAnswers(l: Limiter, l': Limiter, ops: seq<Op>, clock: real)
    requires Alike(l, l', clock) && AllRefill(l) && Ordered(clock, ops)
    ensures Verdicts(l, ops) == Verdicts(l', Requests(ops))
    decreases |ops|
  {
    if ops != [] {
      var now, rest := ops[0].now, ops[1..];
      LaterAlike(l, l', clock, now);
      if ops[0].Allow? {
        AllowAlike(l, l', ops[0].a, now);
        AlikeAnswers(Step(l, ops[0]), Step(l', ops[0]), rest, now);
        assert Requests(ops)[0] == ops[0] && Requests(ops)[1..] == Requests(rest);
      } else {
        SweepAlike(l, l', now);
        AlikeAnswers(Step(l, ops[0]), l', rest, now);
        assert Requests(ops) == Requests(rest);
      }
    }
  }

  /** Cleanup is unobservable: the verdicts are those of a limiter that never deletes a bucket. */
  lemma CleanupUnobservable(l: Limiter, clock: real, ops: seq<Op>)
    requires l.buckets == map[] && AllRefill(l) && Ordered(clock, ops)
    ensures Verdicts(l, ops) == Verdicts(l, Requests(ops))
  {
    AlikeAnswers(l, l, ops, clock);
  }
}
