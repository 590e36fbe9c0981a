/**
 Leave messages of a realm (internal/realm/realm.go): acceptance window, replay cache and its
 pruning, and what an accepted message does to the members. Times are in nanoseconds.
 */
module MemberLeave {

  const Second: int := 1_000_000_000
  const Validity: int := 30 * Second
  const FutureSkew: int := 5 * Second
  const Retention: int := 2 * Validity

  datatype Reason = Unknown | Graceful | Kicked | Witness

  // What verifyMemberLeaveSignature makes of the signature, if there is one.
  datatype Signature = Absent | Unverifiable | Invalid | Genuine

  datatype Leave = Leave(peer: string, realm: string, ts: int, reason: Reason, signature: Signature)

  // ---------------------------------------------------------------- the key of the replay cache

  function Digit(d: int): char
    requires 0 <= d < 10
  {
    ['0', '1', '2', '3', '4', '5', '6', '7', '8', '9'][d]
  }

  function Digits(n: nat): string {
    if n < 10 then [Digit(n)] else Digits(n / 10) + [Digit(n % 10)]
  }

  // The %d verb.
  function Decimal(n: int): string { if n < 0 then "-" + Digits(-n) else Digits(n) }

  function CacheKey(peer: string, realm: string, ts: int): string { peer + ":" + realm + ":" + Decimal(ts) }

  lemma {:induction false} DigitsPlain(n: nat)
    ensures Digits(n) != [] && ':' !in Digits(n) && '-' !in Digits(n) && (n >= 10 ==> |Digits(n)| > 1)
    decreases n
  {
    if n >= 10 { DigitsPlain(n / 10); }
  }

  lemma {:induction false} DigitsInjective(m: nat, n: nat)
    requires Digits(m) == Digits(n)
    ensures m == n
    decreases m
  {
    DigitsPlain(m);
    DigitsPlain(n);
    if m >= 10 && n >= 10 {
      var a, b := Digits(m), Digits(n);
      assert a[..|a| - 1] == Digits(m / 10) && b[..|b| - 1] == Digits(n / 10);
      assert a[|a| - 1] == Digit(m % 10) && b[|b| - 1] == Digit(n % 10);
      DigitsInjective(m / 10, n / 10);
    }
  }

  lemma DecimalInjective(m: int, n: int)
    requires Decimal(m) == Decimal(n)
    ensures m == n
  {
    DigitsPlain(if m < 0 then -m else m);
    DigitsPlain(if n < 0 then -n else n);
    assert m < 0 <==> Decimal(m)[0] == '-';
    assert n < 0 <==> Decimal(n)[0] == '-';
    if m < 0 {
      assert Decimal(m)[1..] == Digits(-m) && Decimal(n)[1..] == Digits(-n);
      DigitsInjective(-m, -n);
    } else {
      DigitsInjective(m, n);
    }
  }

  lemma DecimalPlain(n: int)
    ensures ':' !in Decimal(n)
  {
    DigitsPlain(if n < 0 then -n else n);
  }

  // A string without ':' after the last ':' can be split off again.
  lemma LastColon(a: string, x: string, b: string, y: string)
    requires a + ":" + x == b + ":" + y && ':' !in x && ':' !in y
    ensures a == b && x == y
  {
    var s := a + ":" + x;
    assert s[|a|] == ':' && s[|b|] == ':';
    assert forall k :: |a| < k < |s| ==> s[k] == x[k - |a| - 1];
    assert forall k :: |b| < k < |s| ==> s[k] == y[k - |b| - 1];
    assert s[..|a|] == a && s[..|b|] == b && s[|a| + 1..] == x && s[|b| + 1..] == y;
  }

  /** Two keys are equal exactly when the timestamps are and peer and realm run together the same. */
  lemma KeysEqualIff(p: string, r: string, t: int, q: string, s: string, u: int)
    ensures CacheKey(p, r, t) == CacheKey(q, s, u) <==> t == u && p + ":" + r == q + ":" + s
  {
    if CacheKey(p, r, t) == CacheKey(q, s, u) {
      DecimalPlain(t);
      DecimalPlain(u);
      LastColon(p + ":" + r, Decimal(t), q + ":" + s, Decimal(u));
      DecimalInjective(t, u);
    }
  }

  /** Within one realm the key tells peer and timestamp apart. */
  lemma KeyInjective(p: string, q: string, realm: string, t: int, u: int)
    requires CacheKey(p, realm, t) == CacheKey(q, realm, u)
    ensures p == q && t == u
  {
    KeysEqualIff(p, realm, t, q, realm, u);
    assert |p| == |q| && p == (p + ":" + realm)[..|p|] && q == (q + ":" + realm)[..|q|];
  }

  // ---------------------------------------------------------------- the handler

  // members: peer to its online flag; left: peers that must not be re-added by gossip.
  datatype Realm = Realm(
    id: string, processed: map<string, int>, managed: bool, members: map<string, bool>, left: set<string>)

  predicate WellAddressed(r: Realm, m: Leave) { m.peer != "" && m.realm != "" && m.realm == r.id }

  // Not older than 30 seconds, and at most 5 seconds ahead.
  predicate Timely(m: Leave, now: int) { now - m.ts <= Validity && m.ts <= now + FutureSkew }

  predicate Replayed(r: Realm, m: Leave) { CacheKey(m.peer, m.realm, m.ts) in r.processed }

  /** The message gets past the replay check. */
  predicate Passes(r: Realm, m: Leave, now: int) { WellAddressed(r, m) && Timely(m, now) && !Replayed(r, m) }

  predicate TakesEffect(r: Realm, m: Leave, now: int) {
    Passes(r, m, now) && !m.signature.Invalid? && r.managed && m.peer in r.members
  }

  function Record(r: Realm, m: Leave, now: int): Realm {
    r.(processed := r.processed[CacheKey(m.peer, m.realm, m.ts) := now])
  }

  function Depart(r: Realm, m: Leave): Realm {
    if m.reason.Graceful? || m.reason.Kicked? then r.(left := r.left + {m.peer}, members := r.members - {m.peer})
    else r.(members := r.members[m.peer := false])
  }

  /** handleMemberLeave with the clock reading it decides by. */
  function Handle(r: Realm, m: Leave, now: int): Realm {
    if !Passes(r, m, now) then r
    else if TakesEffect(r, m, now) then Depart(Record(r, m, now), m)
    else Record(r, m, now)
  }

  function Pruned(r: Realm, now: int): Realm {
    r.(processed := map k | k in r.processed && now - r.processed[k] <= Retention :: r.processed[k])
  }

  // ---------------------------------------------------------------- runs

  // A handler reads the clock, and takes the cache's lock some time later; a cleanup reads the
  // clock under the lock.
  datatype Event = Deliver(m: Leave, read: int) | Cleanup

  function Step(r: Realm, e: Event, at: int): Realm {
    match e
    case Deliver(m, read) => Handle(r, m, read)
    case Cleanup => Pruned(r, at)
  }

  // `at[i]` is the clock when event i holds the lock; no handler waits longer than `lag` for it.
  ghost predicate IsRun(lag: int, run: seq<Realm>, evs: seq<Event>, at: seq<int>) {
    && |run| == |evs| + 1 && |at| == |evs| && run[0].processed == map[]
    && (forall i :: 0 <= i < |evs| ==> run[i + 1] == Step(run[i], evs[i], at[i]))
    && (forall i, j :: 0 <= i <= j < |evs| ==> at[i] <= at[j])
    && (forall i :: 0 <= i < |evs| && evs[i].Deliver? ==> at[i] - lag <= evs[i].read <= at[i])
  }

  ghost predicate Got(run: seq<Realm>, evs: seq<Event>, i: int, peer: string, ts: int) {
    && 0 <= i < |evs| && i < |run|
    && evs[i].Deliver? && evs[i].m.peer == peer && evs[i].m.ts == ts && Passes(run[i], evs[i].m, evs[i].read)
  }

  lemma {:induction false} SameRealm(lag: int, run: seq<Realm>, evs: seq<Event>, at: seq<int>, n: nat)
    requires IsRun(lag, run, evs, at) && n < |run|
    ensures run[n].id == run[0].id && run[n].managed == run[0].managed
  {
    if n > 0 { SameRealm(lag, run, evs, at, n - 1); }
  }

  // A message that passed is remembered, or is more than the retention time old.
  ghost predicate Remembered(r: Realm, m: Leave, read: int, clock: int) {
    var k := CacheKey(m.peer, m.realm, m.ts);
    (k in r.processed && r.processed[k] == read) || clock > read + Retention
  }

  lemma {:induction false} StaysRemembered(lag: int, run: seq<Realm>, evs: seq<Event>, at: seq<int>, i: nat, n: nat)
    requires IsRun(lag, run, evs, at) && i < n <= |evs| && evs[i].Deliver? && Passes(run[i], evs[i].m, evs[i].read)
    ensures Remembered(run[n], evs[i].m, evs[i].read, at[n - 1])
    decreases n
  {
    if n > i + 1 {
      StaysRemembered(lag, run, evs, at, i, n - 1);
      assert run[n] == Step(run[n - 1], evs[n - 1], at[n - 1]) && at[n - 2] <= at[n - 1];
    }
  }

  ghost predicate AtMostOnce(run: seq<Realm>, evs: seq<Event>) {
    forall i, j, peer, ts :: Got(run, evs, i, peer, ts) && Got(run, evs, j, peer, ts) ==> i == j
  }

  /** At most one leave message with a given peer and timestamp gets past the replay check, as long
      as no handler waits more than 25 seconds for the lock. */
  lemma NeverTwice(lag: int, run: seq<Realm>, evs: seq<Event>, at: seq<int>, i: nat, j: nat, peer: string, ts: int)
    requires IsRun(lag, run, evs, at) && lag <= 25 * Second && i < j
    requires Got(run, evs, i, peer, ts)
    ensures !Got(run, evs, j, peer, ts)
  {
    if j < |evs| {
      StaysRemembered(lag, run, evs, at, i, j);
      SameRealm(lag, run, evs, at, i);
      SameRealm(lag, run, evs, at, j);
      assert at[j - 1] <= at[j];
    }
  }

  function Message(ts: int): Leave { Leave("p", "r", ts, Graceful, Absent) }

  // A handler that waits longer decides by a stale reading after the entry has been pruned.
  lemma LateHandler(lag: int) returns (run: seq<Realm>, evs: seq<Event>, at: seq<int>)
    requires lag > 25 * Second
    ensures IsRun(lag, run, evs, at) && !AtMostOnce(run, evs)
  {
    var m := Message(FutureSkew);
    var late := Retention + 1;
    evs := [Deliver(m, 0), Cleanup, Deliver(m, late - 25 * Second - 1)];
    at := [0, late, late];
    var r0 := Realm("r", map[], false, map[], {});
    var r1 := Step(r0, evs[0], at[0]);
    var r2 := Step(r1, evs[1], at[1]);
    run := [r0, r1, r2, Step(r2, evs[2], at[2])];
    assert Passes(r0, m, 0);
    assert CacheKey(m.peer, m.realm, m.ts) !in r2.processed;
    assert Got(run, evs, 0, "p", FutureSkew) && Got(run, evs, 2, "p", FutureSkew);
  }

  /** Exactly how long a handler may wait between its clock reading and the replay check. */
  lemma AtMostOnceIff(lag: int)
    requires lag >= 0
    ensures (forall run: seq<Realm>, evs: seq<Event>, at: seq<int> :: IsRun(lag, run, evs, at) ==> AtMostOnce(run, evs))
            <==> lag <= 25 * Second
  {
    if lag <= 25 * Second {
      forall run: seq<Realm>, evs: seq<Event>, at: seq<int> | IsRun(lag, run, evs, at) ensures AtMostOnce(run, evs) {
        forall i, j, peer, ts | Got(run, evs, i, peer, ts) && Got(run, evs, j, peer, ts) ensures i == j {
          if i < j { NeverTwice(lag, run, evs, at, i, j, peer, ts); }
          if j < i { NeverTwice(lag, run, evs, at, j, i, peer, ts); }
        }
      }
    } else {
      var run, evs, at := LateHandler(lag);
    }
  }

  // ---------------------------------------------------------------- no false replays

  ghost predicate Caused(run: seq<Realm>, evs: seq<Event>, n: int, key: string) {
    exists i :: 0 <= i < n && i < |evs| && i < |run| && evs[i].Deliver? && Passes(run[i], evs[i].m, evs[i].read) &&
      key == CacheKey(evs[i].m.peer, evs[i].m.realm, evs[i].m.ts)
  }

  lemma {:induction false} EntriesCaused(lag: int, run: seq<Realm>, evs: seq<Event>, at: seq<int>, n: nat, key: string)
    requires IsRun(lag, run, evs, at) && n < |run| && key in run[n].processed
    ensures Caused(run, evs, n, key)
    decreases n
  {
    assert n > 0;
    assert run[n] == Step(run[n - 1], evs[n - 1], at[n - 1]);
    if key in run[n - 1].processed {
      EntriesCaused(lag, run, evs, at, n - 1, key);
    }
  }

  /** A timely leave message for this realm is refused only if one with the same peer and timestamp
      got past the replay check before. */
  lemma RefusedOnlyIfSeen(lag: int, run: seq<Realm>, evs: seq<Event>, at: seq<int>, n: nat)
    requires IsRun(lag, run, evs, at) && n < |evs| && evs[n].Deliver?
    requires evs[n].m.peer != "" && evs[n].m.realm == run[n].id != ""
    requires -5_000_000_000 <= evs[n].read - evs[n].m.ts <= 30_000_000_000
    ensures || Passes(run[n], evs[n].m, evs[n].read)
            || exists i :: 0 <= i < n && Got(run, evs, i, evs[n].m.peer, evs[n].m.ts)
  {
    var m := evs[n].m;
    if Replayed(run[n], m) {
      EntriesCaused(lag, run, evs, at, n, CacheKey(m.peer, m.realm, m.ts));
      var i :| 0 <= i < n && i < |evs| && i < |run| && evs[i].Deliver? && Passes(run[i], evs[i].m, evs[i].read) &&
        CacheKey(m.peer, m.realm, m.ts) == CacheKey(evs[i].m.peer, evs[i].m.realm, evs[i].m.ts);
      SameRealm(lag, run, evs, at, i);
      SameRealm(lag, run, evs, at, n);
      KeyInjective(m.peer, evs[i].m.peer, m.realm, m.ts, evs[i].m.ts);
      assert Got(run, evs, i, m.peer, m.ts);
    }
  }

  // ---------------------------------------------------------------- when a genuine message counts

  /** A message gets past the replay check exactly when it names a peer and this realm, is at most 30
      seconds old and at most 5 seconds ahead, and its key is not in the cache. */
  lemma PassesIff(r: Realm, m: Leave, now: int)
    ensures Passes(r, m, now) <==>
            && m.peer != "" && m.realm == r.id && r.id != ""
            && -5_000_000_000 <= now - m.ts <= 30_000_000_000
            && (m.peer + ":" + m.realm + ":" + Decimal(m.ts)) !in r.processed
  {
  }

  // What a leave message needs apart from being the first: a member of this realm that says so in time.
  predicate Entitled(r: Realm, m: Leave, now: int) {
    && m.peer != "" && m.realm == r.id && r.id != ""
    && -5_000_000_000 <= now - m.ts <= 30_000_000_000
    && (m.signature.Absent? || m.signature.Unverifiable? || m.signature.Genuine?)
    && r.managed && m.peer in r.members
  }

  /** A message takes effect exactly when it is entitled to, and no message with its peer and timestamp,
      whatever its signature, got past the replay check before it. */
  lemma TakesEffectIff(lag: int, run: seq<Realm>, evs: seq<Event>, at: seq<int>, n: nat)
    requires IsRun(lag, run, evs, at) && lag <= 25 * Second && n < |evs| && evs[n].Deliver?
    ensures TakesEffect(run[n], evs[n].m, evs[n].read) <==>
            && Entitled(run[n], evs[n].m, evs[n].read)
            && !exists i :: 0 <= i < n && Got(run, evs, i, evs[n].m.peer, evs[n].m.ts)
  {
    var m := evs[n].m;
    PassesIff(run[n], m, evs[n].read);
    if Entitled(run[n], m, evs[n].read) { RefusedOnlyIfSeen(lag, run, evs, at, n); }
    if i :| 0 <= i < n && Got(run, evs, i, m.peer, m.ts) {
      NeverTwice(lag, run, evs, at, i, n, m.peer, m.ts);
      assert !Got(run, evs, n, m.peer, m.ts);
    }
  }

  /** In particular a copy with an invalid signature that arrives first is recorded before its signature
      is looked at, and keeps the genuine message from taking effect. */
  lemma InvalidCopyFirst(r: Realm, m: Leave, now: int) returns (run: seq<Realm>, evs: seq<Event>, at: seq<int>)
    requires r.processed == map[] && Entitled(r, m, now)
    ensures IsRun(0, run, evs, at) && run[0] == r && |evs| == 2 && evs[1] == Deliver(m, now)
    ensures Entitled(run[1], m, now) && TakesEffect(r, m, now) && !TakesEffect(run[1], m, now)
    ensures run[2].members == r.members && run[2].left == r.left
  {
    evs, at := [Deliver(m.(signature := Invalid), now), Deliver(m, now)], [now, now];
    var r1 := Step(r, evs[0], now);
    run := [r, r1, Step(r1, evs[1], now)];
  }

  // ---------------------------------------------------------------- effect on the members

  // Graceful and forced departures remove the member for good; any other reason takes it offline.
  lemma HandleEffect(r: Realm, m: Leave, now: int, q: string)
    ensures var s := Handle(r, m, now);
            && (q != m.peer || !TakesEffect(r, m, now) ==>
                (q in s.members <==> q in r.members) && (q in s.left <==> q in r.left))
            && (q != m.peer && q in r.members ==> s.members[q] == r.members[q])
            && (TakesEffect(r, m, now) && (m.reason.Graceful? || m.reason.Kicked?) ==>
                m.peer !in s.members && m.peer in s.left)
            && (TakesEffect(r, m, now) && (m.reason.Witness? || m.reason.Unknown?) ==>
                m.peer in s.members && !s.members[m.peer])
            && s.id == r.id
  {
  }

  // Event i takes peer p out of the realm: for good, or at least offline.
  ghost predicate Took(run: seq<Realm>, evs: seq<Event>, i: int, p: string, forGood: bool) {
    && 0 <= i < |evs| && i < |run| && evs[i].Deliver? && evs[i].m.peer == p
    && TakesEffect(run[i], evs[i].m, evs[i].read)
    && (forGood ==> evs[i].m.reason.Graceful? || evs[i].m.reason.Kicked?)
  }

  ghost predicate TookBefore(run: seq<Realm>, evs: seq<Event>, n: int, p: string, forGood: bool) {
    exists i :: 0 <= i < n && Took(run, evs, i, p, forGood)
  }

  /** After any leave messages and prunings a peer is barred, gone or offline exactly when it was so at
      first or some message about it, accepted in the realm's state at that time, made it so. */
  lemma {:induction false} MembershipIff(lag: int, run: seq<Realm>, evs: seq<Event>, at: seq<int>,
                                         n: nat, p: string)
    requires IsRun(lag, run, evs, at) && n < |run|
    ensures p in run[n].left <==> p in run[0].left || TookBefore(run, evs, n, p, true)
    ensures p in run[n].members <==> p in run[0].members && !TookBefore(run, evs, n, p, true)
    ensures p in run[n].members ==>
              (run[n].members[p] <==> run[0].members[p] && !TookBefore(run, evs, n, p, false))
  {
    if n > 0 {
      var r, e := run[n - 1], evs[n - 1];
      MembershipIff(lag, run, evs, at, n - 1, p);
      assert run[n] == Step(r, e, at[n - 1]);
      if e.Deliver? { HandleEffect(r, e.m, e.read, p); }
      TookNow(run, evs, n, p, true);
      TookNow(run, evs, n, p, false);
    }
  }

  lemma TookNow(run: seq<Realm>, evs: seq<Event>, n: nat, p: string, forGood: bool)
    requires n > 0
    ensures TookBefore(run, evs, n, p, forGood) <==>
            TookBefore(run, evs, n - 1, p, forGood) || Took(run, evs, n - 1, p, forGood)
  {
    if TookBefore(run, evs, n, p, forGood) {
      var i :| 0 <= i < n && Took(run, evs, i, p, forGood);
    }
  }

  // ---------------------------------------------------------------- the realm as an object

  class RealmImpl {
    const id: string
    const managed: bool                        // is there a member manager?
    var processed: map<string, int>
    var members: map<string, bool>
    var left: set<string>

    constructor (id: string, managed: bool, members: map<string, bool>)
      ensures Abs() == Realm(id, map[], managed, members, {})
    {
      this.id, this.managed, this.members := id, managed, members;
      processed, left := map[], {};
    }

    function Abs(): Realm
      reads this
    {
      Realm(id, processed, managed, members, left)
    }

    method HandleMemberLeave(m: Leave, now: int)
      modifies this
      ensures Abs() == Handle(old(Abs()), m, now)
    {
      if m.peer == "" || m.realm == "" { return; }
      if m.realm != id { return; }
      if now - m.ts > Validity || m.ts > now + FutureSkew { return; }
      var cacheKey := CacheKey(m.peer, m.realm, m.ts);
      if cacheKey in processed { return; }
      processed := processed[cacheKey := now];
      if m.signature.Invalid? { return; }
      if !managed { return; }
      if m.peer !in members { return; }
      match m.reason
      case Graceful =>
        left := left + {m.peer};
        members := members - {m.peer};
      case Kicked =>
        left := left + {m.peer};
        members := members - {m.peer};
      case Witness =>
        members := members[m.peer := false];
      case Unknown =>
        members := members[m.peer := false];
    }

    method CleanupMemberLeaveCache(now: int)
      modifies this
      ensures Abs() == Pruned(old(Abs()), now)
      ensures forall k :: k in processed <==> k in old(processed) && now - old(processed)[k] <= 60_000_000_000
      ensures forall k :: k in processed ==> processed[k] == old(processed)[k]
    {
      var keys := processed.Keys;
      while keys != {}
        invariant keys <= processed.Keys && members == old(members) && left == old(left)
        invariant forall k :: k in processed <==>
                  k in old(processed) && (k in keys || now - old(processed)[k] <= Retention)
        invariant forall k :: k in processed ==> processed[k] == old(processed)[k]
        decreases |keys|
      {
        var key :| key in keys;
        if now - processed[key] > Retention { processed := processed - {key}; }
        keys := keys - {key};
      }
    }
  }
}
