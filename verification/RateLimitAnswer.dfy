/**
 What one request meets: which tokens it takes, when it is let in, and what it does to every bucket.
 */
module RateLimitAnswer {
  import opened RateLimit

  // The limits that apply to the address, in order.
  function Fitting(limits: seq<Limit>, a: Addr): seq<Limit> {
    if limits == [] || a.NoAddr? then []
    else (if 0 <= limits[0].prefix <= |a.bits| then [limits[0]] else []) + Fitting(limits[1..], a)
  }

  function SubnetOf(a: Addr, n: int): Subnet
    requires a.Ip?
  {
    Subnet(a.family, if 0 <= n <= |a.bits| then a.bits[..n] else a.bits)
  }

  // What was left in a bucket, and what flowed in since, up to the burst.
  function Stock(b: Bucket, now: real): real {
    var tokens := b.tokens + (now - b.last) * b.rps;
    if tokens < b.burst as real then tokens else b.burst as real
  }

  /** The tokens a subnet has at a time. A subnet without a bucket has the whole burst. */
  function Available(m: Buckets, k: Subnet, lim: Limit, now: real): real {
    if k in m then Stock(m[k], now) else lim.burst as real
  }

  // The bucket of a subnet that was asked for a token.
  function Updated(m: Buckets, k: Subnet, lim: Limit, now: real, tokens: real): Bucket {
    if k in m then Bucket(tokens, now, m[k].rps, m[k].burst) else Bucket(tokens, now, lim.rps, lim.burst)
  }

  lemma {:induction false} FittingOk(limits: seq<Limit>, a: Addr)
    requires DistinctLengths(limits)
    ensures DistinctLengths(Fitting(limits, a))
    ensures forall i :: 0 <= i < |Fitting(limits, a)| ==>
              a.Ip? && 0 <= Fitting(limits, a)[i].prefix <= |a.bits| && Fitting(limits, a)[i] in limits
    decreases |limits|
  {
    if limits != [] && a.Ip? {
      var q := Fitting(limits[1..], a);
      FittingOk(limits[1..], a);
      forall i | 0 <= i < |q| ensures q[i].prefix != limits[0].prefix {
        var j :| 0 <= j < |limits[1..]| && limits[1..][j] == q[i];
        assert limits[j + 1] == q[i];
      }
    }
  }

  // The first t of the limits gave a token, and n were asked.
  ghost predicate Walked(m: Buckets, q: seq<Limit>, a: Addr, now: real, o: Outcome, t: nat, n: nat) {
    && t <= n <= |q| && |o.taken| == t && (o.ok <==> t == |q|) && n == (if t < |q| then t + 1 else t)
    && (forall i {:trigger q[i]} :: 0 <= i < t ==> a.Ip? && o.taken[i] == SubnetOf(a, q[i].prefix))
    && (forall i {:trigger q[i]} :: 0 <= i < n ==> AskedOne(m, q[i], a, now, o.buckets, i < t))
    && (forall k :: NotAsked(q[..n], a, k) ==> (k in o.buckets <==> k in m) && (k in m ==> o.buckets[k] == m[k]))
  }

  // The limit was asked for a token, and gave one exactly if one was available.
  ghost predicate AskedOne(m: Buckets, lim: Limit, a: Addr, now: real, after: Buckets, gave: bool) {
    && a.Ip?
    && var k := SubnetOf(a, lim.prefix);
       var tokens := Available(m, k, lim, now);
       && (gave <==> tokens >= 1.0)
       && k in after && after[k] == Updated(m, k, lim, now, if gave then tokens - 1.0 else tokens)
  }

  ghost predicate NotAsked(q: seq<Limit>, a: Addr, k: Subnet) {
    forall i :: 0 <= i < |q| ==> a.NoAddr? || SubnetOf(a, q[i].prefix) != k
  }

  lemma TakeIs(m: Buckets, a: Addr, lim: Limit, now: real)
    requires Fits(a, lim.prefix)
    ensures var k := SubnetOf(a, lim.prefix);
            var b := Find(m, k, lim, now);
            && k == Masked(a, lim.prefix)
            && (Grants(b, now) <==> Available(m, k, lim, now) >= 1.0)
            && After(b, now) ==
               Updated(m, k, lim, now, Available(m, k, lim, now) - if Grants(b, now) then 1.0 else 0.0)
  {
    NoTime(now, lim.rps);
  }

  // The buckets of other lengths do not change.
  lemma OtherLimit(m: Buckets, a: Addr, lim: Limit, b: Bucket, other: Limit, now: real, after: Buckets, gave: bool)
    requires Fits(a, lim.prefix) && Fits(a, other.prefix) && lim.prefix != other.prefix
    requires AskedOne(m[SubnetOf(a, lim.prefix) := b], other, a, now, after, gave)
    ensures AskedOne(m, other, a, now, after, gave)
  {
    var j, k := SubnetOf(a, lim.prefix), SubnetOf(a, other.prefix);
    assert |j.bits| != |k.bits|;
    OtherBucket(m, j, b, k, other, now);
    var tokens := Available(m, k, other, now);
    OtherUpdated(m, j, b, k, other, now, if gave then tokens - 1.0 else tokens);
  }

  lemma OtherBucket(m: Buckets, j: Subnet, b: Bucket, k: Subnet, lim: Limit, now: real)
    requires j != k
    ensures Available(m[j := b], k, lim, now) == Available(m, k, lim, now)
  {
    assert k in m ==> m[j := b][k] == m[k];
  }

  lemma OtherUpdated(m: Buckets, j: Subnet, b: Bucket, k: Subnet, lim: Limit, now: real, tokens: real)
    requires j != k
    ensures Updated(m[j := b], k, lim, now, tokens) == Updated(m, k, lim, now, tokens)
  {
    assert k in m ==> m[j := b][k] == m[k];
  }

  lemma Refusal(m: Buckets, q: seq<Limit>, a: Addr, now: real, o: Outcome)
    requires q != [] && Fits(a, q[0].prefix) && DistinctLengths(q)
    requires var b := Find(m, Masked(a, q[0].prefix), q[0], now);
             !Grants(b, now) && o == Outcome(m[Masked(a, q[0].prefix) := After(b, now)], false, [])
    ensures Walked(m, q, a, now, o, 0, 1)
  {
    TakeIs(m, a, q[0], now);
    assert q[..1] == [q[0]];
  }

  // The first limit gave a token, and the rest was walked from there.
  ghost predicate Goes(m: Buckets, q: seq<Limit>, a: Addr, now: real, k: Subnet, b: Bucket,
                       o: Outcome, t: nat, n: nat)
  {
    && q != [] && DistinctLengths(q) && (forall i :: 0 <= i < |q| ==> Fits(a, q[i].prefix))
    && k == SubnetOf(a, q[0].prefix) && Available(m, k, q[0], now) >= 1.0
    && b == Updated(m, k, q[0], now, Available(m, k, q[0], now) - 1.0)
    && Walked(m[k := b], q[1..], a, now, o, t, n)
  }

  lemma FirstOne(m: Buckets, q: seq<Limit>, a: Addr, now: real, k: Subnet, b: Bucket,
                 o: Outcome, r: Outcome, t: nat, n: nat)
    requires Goes(m, q, a, now, k, b, o, t, n) && r == o.(taken := [k] + o.taken)
    ensures Walked(m, q, a, now, r, t + 1, n + 1)
  {
    forall i {:trigger q[i]} | 0 <= i < n + 1 ensures AskedOne(m, q[i], a, now, r.buckets, i < t + 1) {
      OneAsked(m, q, a, now, k, b, o, t, n, i);
    }
    forall i {:trigger q[i]} | 0 <= i < t + 1 ensures a.Ip? && r.taken[i] == SubnetOf(a, q[i].prefix) {
      if i > 0 { assert q[1..][i - 1] == q[i]; }
    }
    forall x | NotAsked(q[..n + 1], a, x)
      ensures (x in r.buckets <==> x in m) && (x in m ==> r.buckets[x] == m[x])
    {
      NotAskedRest(q, a, x, n);
    }
  }

  lemma OneAsked(m: Buckets, q: seq<Limit>, a: Addr, now: real, k: Subnet, b: Bucket,
                 o: Outcome, t: nat, n: nat, i: nat)
    requires Goes(m, q, a, now, k, b, o, t, n) && i < n + 1
    ensures i < |q| && AskedOne(m, q[i], a, now, o.buckets, i < t + 1)
  {
    if i == 0 {
      FirstKept(q, a, k, n);
    } else {
      var j := i - 1;
      assert q[1..][j] == q[i] && AskedOne(m[k := b], q[1..][j], a, now, o.buckets, j < t);
      OtherLimit(m, a, q[0], b, q[i], now, o.buckets, j < t);
    }
  }

  // The later limits are of other lengths than the first.
  lemma FirstKept(q: seq<Limit>, a: Addr, k: Subnet, n: nat)
    requires q != [] && DistinctLengths(q) && forall i :: 0 <= i < |q| ==> Fits(a, q[i].prefix)
    requires a.Ip? && k == SubnetOf(a, q[0].prefix) && n < |q|
    ensures NotAsked(q[1..][..n], a, k)
  {
    forall i | 0 <= i < n ensures SubnetOf(a, q[1..][..n][i].prefix) != k {
      assert q[1..][..n][i] == q[i + 1];
    }
  }

  lemma NotAskedRest(q: seq<Limit>, a: Addr, k: Subnet, n: nat)
    requires n < |q| && NotAsked(q[..n + 1], a, k)
    ensures NotAsked(q[1..][..n], a, k) && (a.NoAddr? || SubnetOf(a, q[0].prefix) != k)
  {
    assert q[..n + 1][0] == q[0];
    forall i | 0 <= i < n ensures a.NoAddr? || SubnetOf(a, q[1..][..n][i].prefix) != k {
      assert q[1..][..n][i] == q[..n + 1][i + 1];
    }
  }

  lemma FittingFirst(limits: seq<Limit>, a: Addr)
    requires limits != [] && DistinctLengths(limits) && Fits(a, limits[0].prefix)
    ensures var q := Fitting(limits, a);
            && q != [] && q[0] == limits[0] && q[1..] == Fitting(limits[1..], a)
            && DistinctLengths(q) && forall i :: 0 <= i < |q| ==> Fits(a, q[i].prefix)
  {
    FittingOk(limits, a);
    assert Fitting(limits, a) == [limits[0]] + Fitting(limits[1..], a);
  }

  ghost predicate WalkFine(m: Buckets, limits: seq<Limit>, a: Addr, now: real, t: nat, n: nat) {
    Walked(m, Fitting(limits, a), a, now, Walk(m, limits, a, now), t, n)
  }

  lemma NoLimit(m: Buckets, a: Addr, now: real)
    ensures WalkFine(m, [], a, now, 0, 0)
  {
  }

  lemma WalkSkips(m: Buckets, limits: seq<Limit>, a: Addr, now: real, t: nat, n: nat)
    requires limits != [] && a.Ip? && !Fits(a, limits[0].prefix) && WalkFine(m, limits[1..], a, now, t, n)
    ensures WalkFine(m, limits, a, now, t, n)
  {
    assert Fitting(limits, a) == Fitting(limits[1..], a);
  }

  lemma WalkRefused(m: Buckets, limits: seq<Limit>, a: Addr, now: real)
    requires limits != [] && DistinctLengths(limits) && Fits(a, limits[0].prefix)
    requires !Grants(Find(m, Masked(a, limits[0].prefix), limits[0], now), now)
    ensures WalkFine(m, limits, a, now, 0, 1)
  {
    FittingFirst(limits, a);
    Refusal(m, Fitting(limits, a), a, now, Walk(m, limits, a, now));
  }

  lemma WalkOn(m: Buckets, limits: seq<Limit>, a: Addr, now: real, k: Subnet, b: Bucket, t: nat, n: nat)
    requires limits != [] && DistinctLengths(limits) && Fits(a, limits[0].prefix) && k == Masked(a, limits[0].prefix)
    requires Grants(Find(m, k, limits[0], now), now) && b == After(Find(m, k, limits[0], now), now)
    requires WalkFine(m[k := b], limits[1..], a, now, t, n)
    ensures WalkFine(m, limits, a, now, t + 1, n + 1)
  {
    FittingFirst(limits, a);
    TakeIs(m, a, limits[0], now);
    FirstOne(m, Fitting(limits, a), a, now, k, b, Walk(m[k := b], limits[1..], a, now), Walk(m, limits, a, now), t, n);
  }

  lemma {:induction false} WalkIs(m: Buckets, limits: seq<Limit>, a: Addr, now: real) returns (t: nat, n: nat)
    requires DistinctLengths(limits) && a.Ip?
    ensures WalkFine(m, limits, a, now, t, n)
    decreases |limits|
  {
    if limits == [] {
      t, n := 0, 0;
      NoLimit(m, a, now);
    } else {
      t, n := WalkNext(m, limits, a, now);
    }
  }

  lemma WalkNext(m: Buckets, limits: seq<Limit>, a: Addr, now: real) returns (t: nat, n: nat)
    requires limits != [] && DistinctLengths(limits) && a.Ip?
    ensures WalkFine(m, limits, a, now, t, n)
    decreases |limits|, 0
  {
    if !Fits(a, limits[0].prefix) {
      t, n := WalkIs(m, limits[1..], a, now);
      WalkSkips(m, limits, a, now, t, n);
    } else {
      var k := Masked(a, limits[0].prefix);
      var b := After(Find(m, k, limits[0], now), now);
      if !Grants(Find(m, k, limits[0], now), now) {
        t, n := 0, 1;
        WalkRefused(m, limits, a, now);
      } else {
        t, n := WalkIs(m[k := b], limits[1..], a, now);
        WalkOn(m, limits, a, now, k, b, t, n);
        t, n := t + 1, n + 1;
      }
    }
  }

  // The configured limits of an address's family.
  function Configured(l: Limiter, a: Addr): seq<Limit> {
    match a
    case NoAddr => []
    case Ip(V4, _) => l.v4
    case Ip(V6, _) => l.v6
  }

  /** With one limit per length, a request asks the limits that apply to it, in order, for a token of its
      subnet until one has none available; n are asked, of which t give one, and no other bucket changes. */
  lemma AllowIs(l: Limiter, a: Addr, now: real) returns (t: nat, n: nat)
    requires DistinctLengths(l.v4) && DistinctLengths(l.v6)
    ensures Walked(l.buckets, Fitting(Configured(l, a), a), a, now, Answer(l, a, now), t, n)
  {
    if a.Ip? {
      t, n := WalkIs(l.buckets, Configured(l, a), a, now);
    } else {
      t, n := 0, 0;
      assert Fitting(Configured(l, a), a) == [];
    }
  }

  /** So it is let in exactly if a token of every subnet it is limited by is available. */
  lemma AllowIff(l: Limiter, a: Addr, now: real)
    requires DistinctLengths(l.v4) && DistinctLengths(l.v6)
    ensures Answer(l, a, now).ok <==>
            forall lim :: lim in Configured(l, a) && 0 <= lim.prefix <= |a.bits| ==>
              Available(l.buckets, SubnetOf(a, lim.prefix), lim, now) >= 1.0
  {
    var q := Fitting(Configured(l, a), a);
    var t, n := AllowIs(l, a, now);
    FittingAll(Configured(l, a), a);
    if t < |q| {
      assert AskedOne(l.buckets, q[t], a, now, Answer(l, a, now).buckets, t < t);
    } else {
      forall lim | lim in Configured(l, a) && 0 <= lim.prefix <= |a.bits|
        ensures Available(l.buckets, SubnetOf(a, lim.prefix), lim, now) >= 1.0
      {
        var i :| 0 <= i < |q| && q[i] == lim;
        assert AskedOne(l.buckets, q[i], a, now, Answer(l, a, now).buckets, i < t);
      }
    }
  }

  lemma {:induction false} FittingAll(limits: seq<Limit>, a: Addr)
    ensures forall lim :: lim in Fitting(limits, a) <==> a.Ip? && lim in limits && 0 <= lim.prefix <= |a.bits|
    decreases |limits|
  {
    if limits != [] && a.Ip? {
      FittingAll(limits[1..], a);
      assert forall lim :: lim in limits <==> lim == limits[0] || lim in limits[1..];
    }
  }
}
