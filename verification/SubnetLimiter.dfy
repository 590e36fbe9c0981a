/**
 The subnet rate limiter as objects (internal/core/connmgr/ip_limit.go): buckets updated in place,
 a table of them, and the bubble sort of the configured limits. Every method is tied to the
 functions of RateLimit.
 */
module SubnetLimiter {
  import opened RateLimit

  // ---------------------------------------------------------------- sorting the limits

  // The limits with prefix length n, in order.
  function WithPrefix(s: seq<Limit>, n: int): seq<Limit> {
    if s == [] then [] else (if s[0].prefix == n then [s[0]] else []) + WithPrefix(s[1..], n)
  }

  lemma {:induction false} WithPrefixConcat(s: seq<Limit>, t: seq<Limit>, n: int)
    ensures WithPrefix(s + t, n) == WithPrefix(s, n) + WithPrefix(t, n)
  {
    if s == [] {
      assert s + t == t;
    } else {
      var head := if s[0].prefix == n then [s[0]] else [];
      assert (s + t)[0] == s[0] && (s + t)[1..] == s[1..] + t;
      WithPrefixConcat(s[1..], t, n);
      assert head + (WithPrefix(s[1..], n) + WithPrefix(t, n)) == (head + WithPrefix(s[1..], n)) + WithPrefix(t, n);
    }
  }

  // Exchanging neighbours of different length keeps every length's limits in order.
  lemma SwapKeepsOrder(s: seq<Limit>, j: nat, n: int)
    requires j + 1 < |s| && s[j].prefix != s[j + 1].prefix
    ensures WithPrefix(s[j := s[j + 1]][j + 1 := s[j]], n) == WithPrefix(s, n)
  {
    var t := s[j := s[j + 1]][j + 1 := s[j]];
    assert s == s[..j] + ([s[j], s[j + 1]] + s[j + 2..]) && t == s[..j] + ([s[j + 1], s[j]] + s[j + 2..]);
    WithPrefixConcat(s[..j], [s[j], s[j + 1]] + s[j + 2..], n);
    WithPrefixConcat(s[..j], [s[j + 1], s[j]] + s[j + 2..], n);
    WithPrefixConcat([s[j], s[j + 1]], s[j + 2..], n);
    WithPrefixConcat([s[j + 1], s[j]], s[j + 2..], n);
    PairFilter(s[j], s[j + 1], n);
    PairFilter(s[j + 1], s[j], n);
  }

  lemma PairFilter(x: Limit, y: Limit, n: int)
    ensures WithPrefix([x, y], n) == (if x.prefix == n then [x] else []) + (if y.prefix == n then [y] else [])
  {
    assert [x, y] == [x] + [y] && [x][1..] == [] && [y][1..] == [];
    WithPrefixConcat([x], [y], n);
  }

  ghost predicate SameOrder(s: seq<Limit>, t: seq<Limit>) {
    multiset(s) == multiset(t) && forall n :: WithPrefix(s, n) == WithPrefix(t, n)
  }

  /** Whoever owns a length before the sort owns it afterwards. */
  lemma {:induction false} OwnerIsFirst(s: seq<Limit>, n: int, lim: Limit)
    ensures OwnedBy(s, n, lim) <==> WithPrefix(s, n) == [] || WithPrefix(s, n)[0] == lim
  {
    if s == [] {
    } else if s[0].prefix == n {
      assert WithPrefix(s, n)[0] == s[0];
    } else {
      OwnerIsFirst(s[1..], n, lim);
      assert OwnedBy(s, n, lim) <==> OwnedBy(s[1..], n, lim);
    }
  }

  lemma SortKeepsOwner(s: seq<Limit>, t: seq<Limit>, n: int, lim: Limit)
    requires SameOrder(s, t)
    ensures OwnedBy(s, n, lim) <==> OwnedBy(t, n, lim)
  {
    OwnerIsFirst(s, n, lim);
    OwnerIsFirst(t, n, lim);
  }

  // From position k on the limits are in place.
  ghost predicate Settled(s: seq<Limit>, k: int) {
    forall i, j :: 0 <= i < j < |s| && k <= j ==> s[i].prefix >= s[j].prefix
  }

  /** The bubble sort of sortLimits: longest prefix first, ties in the configured order. */
  method SortLimits(a: array<Limit>)
    modifies a
    ensures Descending(a[..]) && SameOrder(a[..], old(a[..]))
  {
    var n, i := a.Length, 0;
    while i < n - 1
      invariant 0 <= i && (i < n || n == 0)
      invariant Settled(a[..], n - i) && SameOrder(a[..], old(a[..]))
    {
      var j := 0;
      while j < n - 1 - i
        invariant 0 <= j <= n - 1 - i
        invariant forall k :: 0 <= k <= j ==> a[k].prefix >= a[j].prefix
        invariant Settled(a[..], n - i) && SameOrder(a[..], old(a[..]))
      {
        Bubble(a, j, n - i);
        j := j + 1;
      }
      i := i + 1;
    }
  }

  method Bubble(a: array<Limit>, j: nat, ghost k: int)
    requires j + 1 < k <= a.Length && Settled(a[..], k)
    requires forall i :: 0 <= i <= j ==> a[i].prefix >= a[j].prefix
    modifies a
    ensures Settled(a[..], k) && SameOrder(a[..], old(a[..]))
    ensures forall i :: 0 <= i <= j + 1 ==> a[i].prefix >= a[j + 1].prefix
  {
    if a[j].prefix < a[j + 1].prefix {
      ghost var s := a[..];
      a[j], a[j + 1] := a[j + 1], a[j];
      assert a[..] == s[j := s[j + 1]][j + 1 := s[j]];
      forall n ensures WithPrefix(a[..], n) == WithPrefix(s, n) { SwapKeepsOrder(s, j, n); }
    }
  }

  // ---------------------------------------------------------------- buckets

  class TokenBucket {
    var tokens: real
    var lastUpdate: real
    const rps: real
    const burst: int

    constructor (limit: Limit, now: real)
      ensures Value() == Fresh(limit, now)
    {
      tokens, lastUpdate, rps, burst := limit.burst as real, now, limit.rps, limit.burst;
    }

    function Value(): Bucket
      reads this
    {
      Bucket(tokens, lastUpdate, rps, burst)
    }

    predicate Expired(now: real, expiry: real)
      reads this
    {
      now - lastUpdate > expiry
    }

    method Take(now: real) returns (ok: bool)
      modifies this
      ensures Value() == After(old(Value()), now) && ok == Grants(old(Value()), now)
    {
      var elapsed := Inflow(lastUpdate, now, rps);
      tokens := tokens + elapsed;
      if tokens > burst as real {
        tokens := burst as real;
      }
      lastUpdate := now;
      ok := tokens >= 1.0;
      if ok {
        tokens := tokens - 1.0;
      }
    }
  }

  class SubnetLimiter {
    const ipv4Limits: array<Limit>
    const ipv6Limits: array<Limit>
    const bucketExpiry: real
    var buckets: map<Subnet, TokenBucket>

    // No two subnets share a bucket.
    ghost predicate Valid()
      reads this
    {
      forall j, k :: j in buckets && k in buckets && j != k ==> buckets[j] != buckets[k]
    }

    ghost function Table(): Buckets
      reads this, buckets.Values
    {
      map k | k in buckets :: buckets[k].Value()
    }

    ghost function Abs(): Limiter
      reads this, buckets.Values, ipv4Limits, ipv6Limits
    {
      Limiter(ipv4Limits[..], ipv6Limits[..], bucketExpiry, Table())
    }

    // A zero expiry stands for ten minutes. The configured slices are sorted in place.
    constructor (ipv4: array<Limit>, ipv6: array<Limit>, expiry: real)
      modifies ipv4, ipv6
      ensures Valid() && ipv4Limits == ipv4 && ipv6Limits == ipv6
      ensures Abs() == Limiter(ipv4[..], ipv6[..], if expiry == 0.0 then 600.0 else expiry, map[])
      ensures Descending(Abs().v4) && SameOrder(Abs().v4, old(ipv4[..]))
      ensures Descending(Abs().v6) && SameOrder(Abs().v6, old(ipv6[..]))
    {
      ipv4Limits, ipv6Limits := ipv4, ipv6;
      bucketExpiry := if expiry == 0.0 then 600.0 else expiry;
      buckets := map[];
      new;
      SortLimits(ipv4);
      SortLimits(ipv6);
    }

    method GetOrCreateBucket(k: Subnet, limit: Limit, now: real) returns (b: TokenBucket)
      requires Valid()
      modifies this
      ensures Valid() && k in buckets && buckets[k] == b
      ensures b.Value() == Find(old(Table()), k, limit, now)
      ensures Table() == old(Table())[k := b.Value()]
      ensures fresh(buckets.Values - old(buckets.Values))
    {
      if k in buckets {
        b := buckets[k];
      } else {
        b := new TokenBucket(limit, now);
        buckets := buckets[k := b];
      }
    }

    // The bucket of one limit: found or made, and asked for a token.
    method TakeOne(k: Subnet, limit: Limit, now: real) returns (ok: bool)
      requires Valid()
      modifies this, buckets.Values
      ensures Valid() && fresh(buckets.Values - old(buckets.Values))
      ensures var b := Find(old(Table()), k, limit, now);
              ok == Grants(b, now) && Table() == old(Table())[k := After(b, now)]
    {
      var b := GetOrCreateBucket(k, limit, now);
      ghost var before := Table();
      ok := b.Take(now);
      assert Table() == before[k := b.Value()];
    }

    method Allow(a: Addr, now: real) returns (ok: bool)
      requires Valid()
      modifies this, buckets.Values
      ensures Valid() && fresh(buckets.Values - old(buckets.Values))
      ensures ok == Answer(old(Abs()), a, now).ok
      ensures Abs() == Step(old(Abs()), RateLimit.Allow(a, now))
    {
      if a.NoAddr? { return true; }
      var limits := if a.family == V4 then ipv4Limits else ipv6Limits;
      var i := 0;
      ghost var asked := limits[..];
      ok := true;
      while i < limits.Length
        invariant 0 <= i <= limits.Length && ok
        invariant Valid() && fresh(buckets.Values - old(buckets.Values))
        invariant Walk(old(Table()), asked, a, now).ok == Walk(Table(), asked[i..], a, now).ok
        invariant Walk(old(Table()), asked, a, now).buckets == Walk(Table(), asked[i..], a, now).buckets
      {
        var limit := limits[i];
        assert asked[i..][0] == limit && asked[i..][1..] == asked[i + 1..];
        if Fits(a, limit.prefix) {
          ok := TakeOne(Masked(a, limit.prefix), limit, now);
          if !ok { break; }
        }
        i := i + 1;
      }
    }

    method Cleanup(now: real)
      requires Valid()
      modifies this`buckets
      ensures Valid() && buckets.Values <= old(buckets.Values)
      ensures Abs() == Step(old(Abs()), RateLimit.Cleanup(now))
      ensures forall k :: k in Table() <==> k in old(Table()) && old(Table())[k].last >= now - bucketExpiry
      ensures forall k :: k in Table() ==> Table()[k] == old(Table())[k]
    {
      DeleteExpired(now);
      assert Table() == Swept(old(Table()), bucketExpiry, now);
    }

    method DeleteExpired(now: real)
      modifies this`buckets
      ensures forall k :: k in buckets <==> k in old(buckets) && !old(buckets)[k].Expired(now, bucketExpiry)
      ensures forall k :: k in buckets ==> buckets[k] == old(buckets)[k]
    {
      var keys := buckets.Keys;
      while keys != {}
        invariant keys <= buckets.Keys
        invariant forall k :: k in buckets <==>
                  k in old(buckets) && (k in keys || !old(buckets)[k].Expired(now, bucketExpiry))
        invariant forall k :: k in buckets ==> buckets[k] == old(buckets)[k]
        decreases |keys|
      {
        var key :| key in keys;
        if buckets[key].Expired(now, bucketExpiry) { buckets := buckets - {key}; }
        keys := keys - {key};
      }
    }
  }
}
