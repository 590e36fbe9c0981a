/**
 Jitter tolerance (internal/core/connmgr/jitter.go) as a state machine: peers that just lost their
 connection are held and redialed for a while before they are given up. Times are in nanoseconds;
 one event is one section under the mutex.
 */
module Jitter {

  // validateJitterConfig leaves only positive times and a multiplier above one.
  datatype Config = Config(
    enabled: bool, hold: int, redial: bool, initial: int, maxDelay: int, maxAttempts: int, multiplier: real,
    callback: bool)

  predicate Valid(c: Config) { c.hold > 0 && c.initial > 0 && c.maxDelay > 0 && c.multiplier > 1.0 }

  datatype Status = Disconnected | Reconnecting | Held

  datatype Peer = Peer(since: int, attempts: int, nextAt: int, status: Status, failed: bool)

  // launched: attempts started by a tick that did not reach the table yet; dialing: attempts whose
  // callback runs.
  datatype State = State(peers: map<string, Peer>, launched: multiset<string>, dialing: multiset<string>)

  datatype Event =
    | Disconnect(peer: string)
    | Reconnect(peer: string)
    | Tick
    | Attempt(peer: string)
    | Finish(peer: string, failed: bool)

  // ---------------------------------------------------------------- backoff

  function Pow(b: real, n: nat): real { if n == 0 then 1.0 else b * Pow(b, n - 1) }

  /** The delay before truncation to whole nanoseconds. */
  function RawDelay(c: Config, attempt: int): real {
    if attempt <= 0 then c.initial as real
    else
      var delay := c.initial as real * Pow(c.multiplier, attempt - 1);
      if delay > c.maxDelay as real then c.maxDelay as real else delay
  }

  function Delay(c: Config, attempt: int): int { RawDelay(c, attempt).Floor }

  lemma {:induction false} PowGrows(b: real, m: nat, n: nat)
    requires b > 1.0 && m <= n
    ensures 1.0 <= Pow(b, m) <= Pow(b, n)
    decreases n
  {
    if m < n {
      PowGrows(b, m, n - 1);
      Grow(b, Pow(b, n - 1));
    } else if n > 0 {
      PowGrows(b, n - 1, n - 1);
      Grow(b, Pow(b, n - 1));
    }
  }

  lemma Grow(b: real, x: real)
    requires b > 1.0 && x >= 1.0
    ensures b * x >= x
  {
  }

  lemma Scaled(k: real, x: real, y: real)
    requires k > 0.0 && x <= y
    ensures k * x <= k * y
  {
  }

  /** From the first attempt on the delay never shrinks and stays between zero and the maximum. */
  lemma DelayGrows(c: Config, m: int, n: int)
    requires Valid(c) && 1 <= m <= n
    ensures 0 <= Delay(c, m) <= Delay(c, n) <= c.maxDelay
  {
    PowGrows(c.multiplier, m - 1, n - 1);
    Scaled(c.initial as real, Pow(c.multiplier, m - 1), Pow(c.multiplier, n - 1));
    Scaled(c.initial as real, 1.0, Pow(c.multiplier, m - 1));
  }

  function Smaller(x: real, y: real): real { if x < y then x else y }

  // The delay after k attempts, if there were no maximum.
  function Uncapped(c: Config, k: int): real
    requires k >= 1
  {
    c.initial as real * Pow(c.multiplier, k - 1)
  }

  lemma UncappedNext(c: Config, k: int)
    requires Valid(c) && k >= 1
    ensures Uncapped(c, 1) == c.initial as real && Uncapped(c, k) > 0.0
    ensures Uncapped(c, k + 1) == c.multiplier * Uncapped(c, k)
  {
    PowGrows(c.multiplier, 0, k - 1);
    Scaled(c.initial as real, 1.0, Pow(c.multiplier, k - 1));
    Regroup(c.initial as real, c.multiplier, Pow(c.multiplier, k - 1));
  }

  lemma Regroup(x: real, m: real, p: real)
    ensures x * (m * p) == m * (x * p)
  {
  }

  // The maximum may be applied before the multiplication as well.
  lemma Capped(m: real, x: real, y: real, cap: real, z: real, w: real)
    requires m > 1.0 && x > 0.0 && cap > 0.0 && y == m * x && z == Smaller(x, cap) && w == m * z
    ensures Smaller(w, cap) == Smaller(y, cap)
  {
    if x >= cap {
      Scaled(m, cap, x);
      More(m, cap);
      assert w == m * cap;
    }
  }

  lemma More(m: real, x: real)
    requires m > 1.0 && x > 0.0
    ensures m * x > x
  {
  }

  /** The delay before truncation starts at the initial one and is multiplied with every further attempt,
      within the maximum. */
  lemma DelayLaw(c: Config, k: int)
    requires Valid(c) && k >= 1
    ensures RawDelay(c, 1) == Smaller(c.initial as real, c.maxDelay as real)
    ensures RawDelay(c, k + 1) == Smaller(c.multiplier * RawDelay(c, k), c.maxDelay as real)
  {
    var z := RawDelay(c, k);
    var w := c.multiplier * z;
    NextDelay(c, k, z, w);
    UncappedNext(c, k);
  }

  lemma NextDelay(c: Config, k: int, z: real, w: real)
    requires Valid(c) && k >= 1 && z == RawDelay(c, k) && w == c.multiplier * z
    ensures RawDelay(c, k + 1) == Smaller(w, c.maxDelay as real)
  {
    UncappedNext(c, k);
    DelayAt(c, k);
    DelayAt(c, k + 1);
    Capped(c.multiplier, Uncapped(c, k), Uncapped(c, k + 1), c.maxDelay as real, z, w);
  }

  lemma DelayAt(c: Config, k: int)
    requires k >= 1
    ensures RawDelay(c, k) == Smaller(Uncapped(c, k), c.maxDelay as real)
  {
  }

  /** So after k attempts it is the initial delay times the multiplier's (k - 1)-th power, within the maximum. */
  lemma {:induction false} DelayForm(c: Config, k: int)
    requires Valid(c) && k >= 1
    ensures RawDelay(c, k) == Smaller(Uncapped(c, k), c.maxDelay as real)
    decreases k
  {
    if k == 1 {
      DelayLaw(c, 1);
      UncappedNext(c, 1);
    } else {
      var z, x, y := RawDelay(c, k - 1), Uncapped(c, k - 1), Uncapped(c, k);
      var w := c.multiplier * z;
      DelayForm(c, k - 1);
      NextDelay(c, k - 1, z, w);
      UncappedNext(c, k - 1);
      Capped(c.multiplier, x, y, c.maxDelay as real, z, w);
    }
  }

  // The delay is the whole part of that.
  lemma DelayWhole(c: Config, k: int, d: real)
    requires d == RawDelay(c, k)
    ensures Delay(c, k) as real <= d < Delay(c, k) as real + 1.0
  {
  }

  /** Below the maximum it grows strictly. */
  lemma DelayStrict(c: Config, k: int)
    requires Valid(c) && k >= 1 && RawDelay(c, k) < c.maxDelay as real
    ensures RawDelay(c, k) < RawDelay(c, k + 1)
  {
    var z, x, r := RawDelay(c, k), Uncapped(c, k), RawDelay(c, k + 1);
    var w := c.multiplier * z;
    UncappedNext(c, k);
    DelayForm(c, k);
    NextDelay(c, k, z, w);
    Positive(z, x, c.maxDelay as real);
    Exceeds(c.multiplier, z, w);
    Above(z, w, r, c.maxDelay as real);
  }

  lemma Positive(z: real, x: real, cap: real)
    requires x > 0.0 && cap > 0.0 && z == Smaller(x, cap)
    ensures z > 0.0
  {
  }

  lemma Exceeds(m: real, z: real, w: real)
    requires m > 1.0 && z > 0.0 && w == m * z
    ensures w > z
  {
    More(m, z);
  }

  lemma Above(z: real, w: real, r: real, cap: real)
    requires z < w && z < cap && r == Smaller(w, cap)
    ensures z < r
  {
  }

  // Without attempts the delay is the initial one, even above the maximum; the first attempt caps it.
  lemma DelayStart(c: Config)
    requires Valid(c)
    ensures Delay(c, 0) == c.initial
    ensures Delay(c, 1) == if c.initial > c.maxDelay then c.maxDelay else c.initial
    ensures Delay(c, 0) <= Delay(c, 1) <==> c.initial <= c.maxDelay
  {
    assert Pow(c.multiplier, 0) == 1.0;
  }

  /** The delay never shrinks with further attempts if and only if the initial one is within the maximum. */
  lemma DelayMonotoneIff(c: Config)
    requires Valid(c)
    ensures (forall m, n :: 0 <= m <= n ==> Delay(c, m) <= Delay(c, n)) <==> c.initial <= c.maxDelay
  {
    DelayStart(c);
    if c.initial <= c.maxDelay {
      forall m, n | 0 <= m <= n ensures Delay(c, m) <= Delay(c, n) {
        if m > 0 {
          DelayGrows(c, m, n);
        } else if n > 0 {
          DelayGrows(c, 1, n);
        }
      }
    } else {
      assert Delay(c, 1) < Delay(c, 0);
    }
  }

  // ---------------------------------------------------------------- the sections

  /** ShouldRemove of a peer in the table. */
  predicate Expired(c: Config, p: Peer, now: int) {
    now - p.since > c.hold || (c.maxAttempts > 0 && p.attempts >= c.maxAttempts)
  }

  predicate ShouldRemove(c: Config, s: State, id: string, now: int) {
    !c.enabled || (id in s.peers && Expired(c, s.peers[id], now))
  }

  predicate Due(c: Config, p: Peer, now: int) { c.redial && now > p.nextAt && !Expired(c, p, now) }

  function OnDisconnect(c: Config, s: State, id: string, now: int): State {
    if !c.enabled then s
    else if id in s.peers then s.(peers := s.peers[id := s.peers[id].(since := now, status := Disconnected)])
    else s.(peers := s.peers[id := Peer(now, 0, now + c.initial, Disconnected, false)])
  }

  function OnReconnect(s: State, id: string): State { s.(peers := s.peers - {id}) }

  function OnTick(c: Config, s: State, now: int): State {
    s.(peers := map id | id in s.peers && !Expired(c, s.peers[id], now) :: s.peers[id],
       launched := s.launched + multiset(set id | id in s.peers && Due(c, s.peers[id], now)))
  }

  function Attempted(p: Peer): Peer { p.(status := Reconnecting, attempts := p.attempts + 1) }

  function OnAttempt(c: Config, s: State, id: string): State {
    var t := s.(launched := s.launched - multiset{id});
    if !c.callback || id !in s.peers then t
    else t.(peers := s.peers[id := Attempted(s.peers[id])],
            dialing := s.dialing + multiset{id})
  }

  function Backed(c: Config, p: Peer, now: int): Peer {
    p.(failed := true, status := Held, nextAt := now + Delay(c, p.attempts))
  }

  function OnFinish(c: Config, s: State, id: string, failed: bool, now: int): State {
    var t := s.(dialing := s.dialing - multiset{id});
    if id !in s.peers || !failed then t
    else t.(peers := s.peers[id := Backed(c, s.peers[id], now)])
  }

  predicate Enabled(s: State, e: Event) {
    match e
    case Disconnect(_) => true
    case Reconnect(_) => true
    case Tick => true
    case Attempt(id) => id in s.launched
    case Finish(id, _) => id in s.dialing
  }

  function Step(c: Config, s: State, e: Event, now: int): State
    requires Enabled(s, e)
  {
    match e
    case Disconnect(id) => OnDisconnect(c, s, id, now)
    case Reconnect(id) => OnReconnect(s, id)
    case Tick => OnTick(c, s, now)
    case Attempt(id) => OnAttempt(c, s, id)
    case Finish(id, failed) => OnFinish(c, s, id, failed, now)
  }

  const Start: State := State(map[], multiset{}, multiset{})

  ghost predicate IsRun(c: Config, run: seq<State>, evs: seq<Event>, at: seq<int>) {
    && |run| == |evs| + 1 && |at| == |evs| && run[0] == Start
    && (forall i, j :: 0 <= i <= j < |evs| ==> at[i] <= at[j])
    && forall i :: 0 <= i < |evs| ==> Enabled(run[i], evs[i]) && run[i + 1] == Step(c, run[i], evs[i], at[i])
  }

  // At every tick, at most q attempts that earlier ticks launched for a peer are still uncounted.
  ghost predicate Lags(run: seq<State>, evs: seq<Event>, q: nat) {
    forall i :: 0 <= i < |evs| && i < |run| && evs[i].Tick? ==> Uncounted(run[i], q)
  }

  ghost predicate Uncounted(s: State, q: nat) { forall id :: s.launched[id] <= q }

  // ---------------------------------------------------------------- ticks

  // A tick removes exactly the peers for which ShouldRemove holds at that instant.
  lemma TickRemoves(c: Config, s: State, now: int, id: string)
    requires c.enabled
    ensures var t := OnTick(c, s, now);
            && (id in s.peers && id !in t.peers <==> ShouldRemove(c, s, id, now))
            && (id in t.peers ==> id in s.peers && t.peers[id] == s.peers[id] && !ShouldRemove(c, t, id, now))
            && t.launched[id] ==
               s.launched[id] + (if id in t.peers && c.redial && now > t.peers[id].nextAt then 1 else 0)
  {
  }

  // ---------------------------------------------------------------- the attempt bound

  ghost predicate Bounded(c: Config, s: State) {
    && (forall id :: s.launched[id] <= 1)
    && (forall id :: id in s.peers ==>
        0 <= s.peers[id].attempts && s.peers[id].attempts + s.launched[id] <= c.maxAttempts)
  }

  lemma StepBounded(c: Config, s: State, e: Event, now: int)
    requires c.maxAttempts > 0 && Bounded(c, s) && Enabled(s, e)
    requires e.Tick? ==> Uncounted(s, 0)
    ensures Bounded(c, Step(c, s, e, now))
  {
    var t := Step(c, s, e, now);
    if e.Tick? {
      forall id | id in t.peers ensures t.peers[id].attempts + t.launched[id] <= c.maxAttempts {
        assert s.peers[id].attempts < c.maxAttempts;
      }
    }
  }

  /** When every launched attempt is counted before the next tick, no peer is redialed more often
      than configured, in any run. */
  lemma {:induction false} AttemptsBounded(c: Config, run: seq<State>, evs: seq<Event>, at: seq<int>, n: nat)
    requires IsRun(c, run, evs, at) && Lags(run, evs, 0) && c.maxAttempts > 0 && n < |run|
    ensures Bounded(c, run[n])
  {
    if n > 0 {
      AttemptsBounded(c, run, evs, at, n - 1);
      StepBounded(c, run[n - 1], evs[n - 1], at[n - 1]);
    }
  }

  // A tolerance that is off, does not redial, or has no callback never counts an attempt.
  predicate Redials(c: Config) { c.enabled && c.redial && c.callback }

  ghost predicate Unattempted(c: Config, s: State) {
    && (forall id :: id in s.peers ==> s.peers[id].attempts == 0)
    && (!c.enabled ==> s.peers == map[])
    && (!c.enabled || !c.redial ==> s.launched == multiset{})
  }

  lemma StepUnattempted(c: Config, s: State, e: Event, now: int)
    requires !Redials(c) && Unattempted(c, s) && Enabled(s, e)
    ensures Unattempted(c, Step(c, s, e, now))
  {
    if e.Tick? && (!c.enabled || !c.redial) {
      assert (set id | id in s.peers && Due(c, s.peers[id], now)) == {};
    }
  }

  lemma {:induction false} RunUnattempted(c: Config, run: seq<State>, evs: seq<Event>, at: seq<int>, n: nat)
    requires IsRun(c, run, evs, at) && !Redials(c) && n < |run|
    ensures Unattempted(c, run[n])
  {
    if n > 0 {
      RunUnattempted(c, run, evs, at, n - 1);
      StepUnattempted(c, run[n - 1], evs[n - 1], at[n - 1]);
    }
  }

  // One peer "p" whose time has come, with n attempts made, m launched and d calling back.
  function OnlyP(c: Config, n: nat, m: nat, d: nat): State {
    State(map["p" := Peer(c.initial + 1, n, c.initial, if n == 0 then Disconnected else Reconnecting, false)],
          multiset{}["p" := m], multiset{}["p" := d])
  }

  lemma TickP(c: Config, n: nat, m: nat, d: nat)
    requires Valid(c) && Redials(c) && n < c.maxAttempts
    ensures OnTick(c, OnlyP(c, n, m, d), c.initial + 1) == OnlyP(c, n, m + 1, d)
  {
    var s := OnlyP(c, n, m, d);
    assert (set id | id in s.peers && Due(c, s.peers[id], c.initial + 1)) == {"p"};
  }

  lemma AttemptP(c: Config, n: nat, m: nat, d: nat)
    requires c.callback && m > 0
    ensures OnAttempt(c, OnlyP(c, n, m, d), "p") == OnlyP(c, n + 1, m - 1, d + 1)
  {
  }

  // The run so far ends now, with n attempts made and m more launched.
  ghost predicate Reaches(c: Config, run: seq<State>, evs: seq<Event>, at: seq<int>, n: nat, m: nat) {
    && IsRun(c, run, evs, at) && Lags(run, evs, 1) && at != []
    && at[|at| - 1] == c.initial + 1 && run[|evs|] == OnlyP(c, n, m, n)
  }

  // A peer disconnects, and once more when its time has just come.
  lemma ReachStart(c: Config) returns (run: seq<State>, evs: seq<Event>, at: seq<int>)
    requires Valid(c) && Redials(c)
    ensures Reaches(c, run, evs, at, 0, 0)
  {
    var t := c.initial + 1;
    run, evs, at := [Start], [], [];
    run, evs, at := Continue(c, run, evs, at, Disconnect("p"), 0);
    run, evs, at := Continue(c, run, evs, at, Disconnect("p"), t);
    assert OnDisconnect(c, OnDisconnect(c, Start, "p", 0), "p", t) == OnlyP(c, 0, 0, 0);
  }

  lemma ReachTick(c: Config, run: seq<State>, evs: seq<Event>, at: seq<int>, n: nat, m: nat)
    returns (run': seq<State>, evs': seq<Event>, at': seq<int>)
    requires Valid(c) && Redials(c) && n < c.maxAttempts && m <= 1 && Reaches(c, run, evs, at, n, m)
    ensures Reaches(c, run', evs', at', n, m + 1)
  {
    TickP(c, n, m, n);
    run', evs', at' := Continue(c, run, evs, at, Tick, c.initial + 1);
  }

  lemma ReachAttempt(c: Config, run: seq<State>, evs: seq<Event>, at: seq<int>, n: nat, m: nat)
    returns (run': seq<State>, evs': seq<Event>, at': seq<int>)
    requires Valid(c) && Redials(c) && m > 0 && Reaches(c, run, evs, at, n, m)
    ensures Reaches(c, run', evs', at', n + 1, m - 1)
  {
    AttemptP(c, n, m, n);
    run', evs', at' := Continue(c, run, evs, at, Attempt("p"), c.initial + 1);
  }

  // One attempt after the other, each counted before the next tick.
  lemma {:induction false} ReachCount(c: Config, n: nat) returns (run: seq<State>, evs: seq<Event>, at: seq<int>)
    requires Valid(c) && Redials(c) && n <= c.maxAttempts
    ensures Reaches(c, run, evs, at, n, 0)
  {
    if n == 0 {
      run, evs, at := ReachStart(c);
    } else {
      run, evs, at := ReachCount(c, n - 1);
      run, evs, at := ReachTick(c, run, evs, at, n - 1, 0);
      run, evs, at := ReachAttempt(c, run, evs, at, n - 1, 1);
    }
  }

  lemma ReachTicks(c: Config, n: nat) returns (run: seq<State>, evs: seq<Event>, at: seq<int>)
    requires Valid(c) && Redials(c) && n < c.maxAttempts
    ensures Reaches(c, run, evs, at, n, 2)
  {
    run, evs, at := ReachCount(c, n);
    run, evs, at := ReachTick(c, run, evs, at, n, 0);
    run, evs, at := ReachTick(c, run, evs, at, n, 1);
  }

  lemma ReachOver(c: Config, n: nat) returns (run: seq<State>, evs: seq<Event>, at: seq<int>)
    requires Valid(c) && Redials(c) && n < c.maxAttempts
    ensures Reaches(c, run, evs, at, n + 2, 0)
  {
    run, evs, at := ReachTicks(c, n);
    run, evs, at := ReachAttempt(c, run, evs, at, n, 2);
    run, evs, at := ReachAttempt(c, run, evs, at, n + 1, 1);
  }

  /** For every limit: two ticks in a row at the last attempt left launch two. */
  lemma Overshoot(c: Config) returns (run: seq<State>, evs: seq<Event>, at: seq<int>)
    requires Valid(c) && Redials(c) && c.maxAttempts > 0
    ensures IsRun(c, run, evs, at) && Lags(run, evs, 1)
    ensures "p" in run[|evs|].peers && run[|evs|].peers["p"].attempts == c.maxAttempts + 1
  {
    run, evs, at := ReachOver(c, c.maxAttempts - 1);
  }

  ghost predicate WithinLimit(c: Config, run: seq<State>) {
    forall i, id :: 0 <= i < |run| && id in run[i].peers ==> run[i].peers[id].attempts <= c.maxAttempts
  }

  /** The attempt limit holds in every run with at most q uncounted attempts of a peer at a tick if
      and only if q is zero, or no attempt is ever made. */
  lemma AttemptLimitIff(c: Config, q: nat)
    requires Valid(c) && c.maxAttempts > 0
    ensures (forall run: seq<State>, evs: seq<Event>, at: seq<int> ::
               IsRun(c, run, evs, at) && Lags(run, evs, q) ==> WithinLimit(c, run))
            <==> q == 0 || !Redials(c)
  {
    if q == 0 || !Redials(c) {
      forall run: seq<State>, evs: seq<Event>, at: seq<int> | IsRun(c, run, evs, at) && Lags(run, evs, q)
        ensures WithinLimit(c, run)
      {
        forall i, id | 0 <= i < |run| && id in run[i].peers ensures run[i].peers[id].attempts <= c.maxAttempts {
          if q == 0 { AttemptsBounded(c, run, evs, at, i); } else { RunUnattempted(c, run, evs, at, i); }
        }
      }
    } else {
      var run, evs, at := Overshoot(c);
    }
  }

  lemma Continue(c: Config, run: seq<State>, evs: seq<Event>, at: seq<int>, e: Event, now: int)
    returns (run': seq<State>, evs': seq<Event>, at': seq<int>)
    requires IsRun(c, run, evs, at) && Enabled(run[|evs|], e) && (at != [] ==> at[|at| - 1] <= now)
    requires Lags(run, evs, 1) && (e.Tick? ==> Uncounted(run[|evs|], 1))
    ensures IsRun(c, run', evs', at') && Lags(run', evs', 1) && |evs'| == |evs| + 1 && at'[|evs|] == now
    ensures run'[|evs'|] == Step(c, run[|evs|], e, now)
  {
    run', evs', at' := run + [Step(c, run[|evs|], e, now)], evs + [e], at + [now];
  }

  // ---------------------------------------------------------------- the backoff in a run

  // The peer's entry was last set back by a failure no later than the given time allows.
  ghost predicate BacksOff(c: Config, s: State, id: string, k: int, until: int) {
    id in s.peers && s.peers[id].attempts >= k && s.peers[id].nextAt >= until
  }

  lemma StepBacksOff(c: Config, s: State, e: Event, now: int, id: string, k: int, failedAt: int)
    requires Valid(c) && BacksOff(c, s, id, k, failedAt + Delay(c, k)) && 1 <= k && failedAt <= now
    requires Enabled(s, e) && e != Reconnect(id) && id in Step(c, s, e, now).peers
    ensures BacksOff(c, Step(c, s, e, now), id, k, failedAt + Delay(c, k))
  {
    DelayGrows(c, k, s.peers[id].attempts);
  }

  lemma FinishBacksOff(c: Config, s: State, id: string, now: int)
    requires id in s.peers
    ensures BacksOff(c, OnFinish(c, s, id, true, now), id, s.peers[id].attempts, now + Delay(c, s.peers[id].attempts))
  {
  }

  // A launch in a tick means that the peer's time has come.
  lemma LaunchLate(c: Config, s: State, now: int, id: string)
    requires OnTick(c, s, now).launched[id] > s.launched[id]
    ensures id in s.peers && now > s.peers[id].nextAt
  {
  }

  /** After a failed attempt, its k-th, a peer that stays in the table is not launched again before
      the backoff for k attempts has run out. */
  lemma {:induction false} BackoffRespected(c: Config, run: seq<State>, evs: seq<Event>,
                                            at: seq<int>, f: nat, n: nat, id: string, k: int)
    requires IsRun(c, run, evs, at) && Valid(c) && f < n <= |evs|
    requires evs[f] == Finish(id, true) && id in run[f].peers && run[f].peers[id].attempts == k >= 1
    requires forall i :: f < i < n ==> evs[i] != Reconnect(id)
    requires forall i :: f < i <= n ==> id in run[i].peers
    ensures BacksOff(c, run[n], id, k, at[f] + Delay(c, k))
    ensures n < |evs| && evs[n].Tick? && run[n + 1].launched[id] > run[n].launched[id] ==> at[n] > at[f] + Delay(c, k)
    decreases n
  {
    if n == f + 1 {
      FinishBacksOff(c, run[f], id, at[f]);
    } else {
      BackoffRespected(c, run, evs, at, f, n - 1, id, k);
      var s, e, now := run[n - 1], evs[n - 1], at[n - 1];
      assert at[f] <= now && Enabled(s, e) && run[n] == Step(c, s, e, now) && id in run[n].peers;
      StepBacksOff(c, s, e, now, id, k, at[f]);
    }
    if n < |evs| && evs[n].Tick? && run[n + 1].launched[id] > run[n].launched[id] {
      LaunchLate(c, run[n], at[n], id);
    }
  }

  // ---------------------------------------------------------------- holding

  // A held peer that is not reported connected leaves only in a tick that finds it expired.
  lemma LeavesOnlyExpired(c: Config, s: State, e: Event, now: int, id: string)
    requires c.enabled && Enabled(s, e) && id in s.peers
    ensures id !in Step(c, s, e, now).peers <==> e == Reconnect(id) || (e.Tick? && ShouldRemove(c, s, id, now))
    ensures e != Reconnect(id) && id in Step(c, s, e, now).peers ==>
              Step(c, s, e, now).peers[id].since == if e == Disconnect(id) then now else s.peers[id].since
  {
    if e.Tick? { TickRemoves(c, s, now, id); }
  }

  // The clock reading of the last disconnection of the peer among events d to n - 1.
  function LastLost(evs: seq<Event>, at: seq<int>, id: string, d: nat, n: nat): int
    requires d < n <= |evs| == |at|
  {
    if n == d + 1 || evs[n - 1] == Disconnect(id) then at[n - 1] else LastLost(evs, at, id, d, n - 1)
  }

  // Between its loss and event n the peer was not reported connected, and no tick found it expired.
  ghost predicate Waits(c: Config, run: seq<State>, evs: seq<Event>, at: seq<int>, d: nat, n: nat, id: string)
    requires IsRun(c, run, evs, at)
  {
    && d < n <= |evs| && evs[d] == Disconnect(id)
    && (forall i :: d < i < n ==> evs[i] != Reconnect(id))
    && forall i :: d < i < n && evs[i].Tick? && id in run[i].peers ==>
         && at[i] - LastLost(evs, at, id, d, i) <= c.hold
         && (c.maxAttempts > 0 ==> run[i].peers[id].attempts < c.maxAttempts)
  }

  lemma {:induction false} StaysHeld(c: Config, run: seq<State>, evs: seq<Event>, at: seq<int>,
                                     d: nat, n: nat, id: string)
    requires IsRun(c, run, evs, at) && c.enabled && Waits(c, run, evs, at, d, n, id)
    ensures id in run[n].peers && run[n].peers[id].since == LastLost(evs, at, id, d, n)
    decreases n
  {
    var s, e, now := run[n - 1], evs[n - 1], at[n - 1];
    assert Enabled(s, e) && run[n] == Step(c, s, e, now);
    if n > d + 1 {
      StillWaits(c, run, evs, at, d, n, id);
      StaysHeld(c, run, evs, at, d, n - 1, id);
      HoldsOn(c, s, e, now, id, LastLost(evs, at, id, d, n - 1));
    } else {
      LostNow(c, s, id, now);
    }
  }

  lemma StillWaits(c: Config, run: seq<State>, evs: seq<Event>, at: seq<int>, d: nat, n: nat, id: string)
    requires IsRun(c, run, evs, at) && Waits(c, run, evs, at, d, n, id) && n > d + 1
    ensures Waits(c, run, evs, at, d, n - 1, id) && evs[n - 1] != Reconnect(id)
    ensures evs[n - 1].Tick? && id in run[n - 1].peers
            && run[n - 1].peers[id].since == LastLost(evs, at, id, d, n - 1) ==>
              !Expired(c, run[n - 1].peers[id], at[n - 1])
  {
  }

  lemma LostNow(c: Config, s: State, id: string, now: int)
    requires c.enabled
    ensures var t := OnDisconnect(c, s, id, now); id in t.peers && t.peers[id].since == now
  {
  }

  lemma HoldsOn(c: Config, s: State, e: Event, now: int, id: string, since: int)
    requires c.enabled && Enabled(s, e) && id in s.peers && s.peers[id].since == since && e != Reconnect(id)
    requires e.Tick? ==> !Expired(c, s.peers[id], now)
    ensures var t := Step(c, s, e, now);
            id in t.peers && t.peers[id].since == if e == Disconnect(id) then now else since
  {
    LeavesOnlyExpired(c, s, e, now, id);
  }

  /** A peer that was lost, and was not reported connected since, is in the table until the first tick
      that comes more than the hold time after it was last lost, or finds its attempts used up. */
  lemma HeldUntilExpired(c: Config, run: seq<State>, evs: seq<Event>, at: seq<int>, d: nat, n: nat, id: string)
    requires IsRun(c, run, evs, at) && c.enabled && Waits(c, run, evs, at, d, n, id)
    ensures id in run[n].peers && run[n].peers[id].since == LastLost(evs, at, id, d, n)
    ensures n < |evs| && evs[n].Tick? ==>
              (id !in run[n + 1].peers <==>
                 || at[n] - LastLost(evs, at, id, d, n) > c.hold
                 || (c.maxAttempts > 0 && run[n].peers[id].attempts >= c.maxAttempts))
  {
    StaysHeld(c, run, evs, at, d, n, id);
    if n < |evs| && evs[n].Tick? { LeavesOnlyExpired(c, run[n], evs[n], at[n], id); }
  }
}
