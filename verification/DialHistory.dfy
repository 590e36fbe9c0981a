/**
 What a peer state's own fields say about the past: where the configured peers start, that the attempts
 count the failures since the state was last connected and the priority the failures that were retried, and
 how a dial's end shows in the tables.
 */
module DialHistory {
  import opened Common
  import opened DialMachine
  import opened DialTheorems
  import DialExact

  // ---------------------------------------------------------------- the start

  /** A new scheduler has every configured peer in its table and queued once: static, due at once, of the
      highest priority, 0, and with the configured addresses; nothing is banned or being dialed. */
  lemma ConfiguredDue<H>(peers: seq<StaticPeer>, hs: seq<H>, start: int, k: nat)
    requires |peers| == |hs| && Distinct(hs) && DistinctIds(peers) && k < |peers|
    ensures var s, p := Init(peers, hs, start).s, peers[k];
            && p.id in s.peers && s.peers[p.id] == hs[k] && s.queue[hs[k]] == 1 && hs[k] in s.recs
            && s.dialing == {} && p.id !in s.banned
            && var r := s.recs[hs[k]];
               && r.id == p.id && r.addrs == p.addrs && r.isStatic && (r.permanent <==> p.permanent)
               && r.priority == 0 && r.next == start && r.attempts == 0 && !r.failed && !r.connected
  {
    DialExact.BootDue(peers, hs, start, k);
    NoBans(peers, hs, start);
  }

  lemma {:induction false} NoBans<H>(peers: seq<StaticPeer>, hs: seq<H>, start: int)
    requires |peers| == |hs|
    ensures Boot(peers, hs, start).banned == map[]
  {
    if peers != [] { NoBans(peers[..|peers| - 1], hs[..|peers| - 1], start); }
  }

  // ---------------------------------------------------------------- the end of a dial

  /** A dial that succeeds leaves the state connected and without failures, and not queued by it. */
  lemma SucceededClean<H>(cfg: Config, w: World<H>, h: H, now: int)
    requires Enabled(cfg, w, EvComplete(h, false))
    ensures var v := Apply(cfg, w, EvComplete(h, false), now);
            && h in v.s.recs && v.s.recs[h].connected && v.s.recs[h].attempts == 0 && !v.s.recs[h].failed
            && v.s.recs[h].lastAttempt == now && v.s.recs[h].next == w.s.recs[h].next
            && v.s.queue == w.s.queue && v.s.peers == w.s.peers && v.s.banned == w.s.banned
            && v.s.dialing == w.s.dialing - {w.s.recs[h].id} && v.log == w.log
  {
  }

  /** A failed dial that was the last one allowed takes the peer out and bans it for BackoffMax; any other
      is retried after the backoff for the failures so far, one priority lower, down to the lowest, 3. */
  lemma FailedRetried<H>(cfg: Config, w: World<H>, h: H, now: int)
    requires Enabled(cfg, w, EvComplete(h, true))
    ensures var r, v := w.s.recs[h], Apply(cfg, w, EvComplete(h, true), now);
            && h in v.s.recs && v.s.recs[h].attempts == r.attempts + 1 && v.s.recs[h].failed
            && v.s.recs[h].lastAttempt == now && v.s.recs[h].connected == r.connected
            && v.s.dialing == w.s.dialing - {r.id}
            && (if r.attempts + 1 >= cfg.maxAttempts && !r.permanent then
                  && r.id !in v.s.peers && r.id in v.s.banned && v.s.banned[r.id] == now + cfg.backoffMax
                  && v.s.queue == w.s.queue && v.s.recs[h].priority == r.priority
                else
                  && v.s.peers == w.s.peers && v.s.banned == w.s.banned && v.s.queue == w.s.queue + multiset{h}
                  && v.s.recs[h].next == now + Backoff(cfg, r.attempts + 1)
                  && v.s.recs[h].priority == if r.priority < 3 then r.priority + 1 else r.priority)
  {
  }

  // ---------------------------------------------------------------- attempts

  // The failed dials of the state among the first i events since it last succeeded or was reported connected.
  function Streak<H>(run: seq<World<H>>, evs: seq<Event<H>>, h: H, i: nat): nat
    requires i <= |evs| < |run|
  {
    if i == 0 then 0
    else
      var w, e := run[i - 1], evs[i - 1];
      if e.EvComplete? && e.h == h then if e.failed then Streak(run, evs, h, i - 1) + 1 else 0
      else if e.EvConnected? && e.id in w.s.peers && w.s.peers[e.id] == h then 0
      else if h !in w.s.recs then 0
      else Streak(run, evs, h, i - 1)
  }

  lemma NotifyAttempts<H>(cfg: Config, w: World<H>, e: Event<H>, now: int, h: H)
    requires Wf(w.s) && Enabled(cfg, w, e) && h in w.s.recs
    requires e.EvRemove? || e.EvBan? || e.EvConnected? || e.EvDisconnected?
    ensures var v := Apply(cfg, w, e, now);
            var reset := e.EvConnected? && e.id in w.s.peers && w.s.peers[e.id] == h;
            && h in v.s.recs && v.s.recs[h].attempts == (if reset then 0 else w.s.recs[h].attempts)
            && v.s.recs[h].failed == (if reset then false else w.s.recs[h].failed)
            && v.s.recs[h].priority == w.s.recs[h].priority
  {
  }

  lemma AddAttempts<H>(s: Sched<H>, id: string, addrs: seq<string>, priority: int, now: int, h: H, g: H)
    requires Wf(s) && h !in s.recs
    ensures var t := AddPeer(s, id, addrs, priority, now, h);
            && (g in s.recs ==> g in t.recs && t.recs[g].attempts == s.recs[g].attempts
                                && t.recs[g].failed == s.recs[g].failed && t.recs[g].priority == s.recs[g].priority)
            && (g in t.recs && g !in s.recs ==> t.recs[g].attempts == 0 && !t.recs[g].failed)
  {
  }

  lemma OtherAttempts<H>(cfg: Config, w: World<H>, e: Event<H>, now: int, g: H)
    requires Enabled(cfg, w, e) && !e.EvAdd? && !e.EvRemove? && !e.EvBan? && !e.EvConnected? && !e.EvDisconnected?
    requires e.EvComplete? ==> e.h != g
    ensures var v := Apply(cfg, w, e, now);
            (g in v.s.recs <==> g in w.s.recs) && (g in w.s.recs ==> v.s.recs[g] == w.s.recs[g])
  {
  }

  // The failures told by the fields.
  predicate Tells(r: Rec, n: nat) { r.attempts == n && (r.failed <==> n > 0) }

  lemma EventTells<H>(cfg: Config, run: seq<World<H>>, evs: seq<Event<H>>, at: seq<int>, k: nat, h: H)
    requires IsRun(cfg, run, evs, at) && k < |evs| && Wf(run[k].s) && h in run[k + 1].s.recs
    requires h in run[k].s.recs ==> Tells(run[k].s.recs[h], Streak(run, evs, h, k))
    ensures Tells(run[k + 1].s.recs[h], Streak(run, evs, h, k + 1))
  {
    var w, e, now := run[k], evs[k], at[k];
    assert Enabled(cfg, w, e) && run[k + 1] == Apply(cfg, w, e, now);
    if e.EvAdd? {
      AddAttempts(w.s, e.id, e.addrs, e.priority, now, e.h, h);
    } else if e.EvRemove? || e.EvBan? || e.EvConnected? || e.EvDisconnected? {
      NoNewState(cfg, w, e, now, h);
      NotifyAttempts(cfg, w, e, now, h);
    } else if e.EvComplete? && e.h == h {
      if e.failed { FailedRetried(cfg, w, h, now); } else { SucceededClean(cfg, w, h, now); }
    } else {
      OtherAttempts(cfg, w, e, now, h);
    }
  }

  lemma NoNewState<H>(cfg: Config, w: World<H>, e: Event<H>, now: int, h: H)
    requires Enabled(cfg, w, e) && (e.EvRemove? || e.EvBan? || e.EvConnected? || e.EvDisconnected?)
    requires h in Apply(cfg, w, e, now).s.recs
    ensures h in w.s.recs
  {
  }

  /** In every run the attempts of a state are its failed dials since it last succeeded or was reported
      connected, and it carries an error exactly when there are any. */
  lemma {:induction false} AttemptsTell<H>(cfg: Config, peers: seq<StaticPeer>, hs: seq<H>, start: int,
                                           run: seq<World<H>>, evs: seq<Event<H>>, at: seq<int>, i: nat, h: H)
    requires |peers| == |hs| && Distinct(hs) && DistinctIds(peers)
    requires IsRun(cfg, run, evs, at) && run[0] == Init(peers, hs, start) && i < |run| && h in run[i].s.recs
    ensures run[i].s.recs[h].attempts == Streak(run, evs, h, i)
    ensures run[i].s.recs[h].failed <==> Streak(run, evs, h, i) > 0
  {
    if i == 0 {
      var k := BootHandles(peers, hs, start, h);
      BootRec(peers, hs, start, k);
    } else {
      var k := i - 1;
      RunSound(cfg, peers, hs, start, run, evs, at, k);
      if h in run[k].s.recs { AttemptsTell(cfg, peers, hs, start, run, evs, at, k, h); }
      EventTells(cfg, run, evs, at, k, h);
    }
  }

  // ---------------------------------------------------------------- priority

  // The failed dials of the state among the first i events that were retried.
  function Retried<H>(cfg: Config, run: seq<World<H>>, evs: seq<Event<H>>, h: H, i: nat): nat
    requires i <= |evs| < |run|
  {
    if i == 0 then 0
    else
      var w, e := run[i - 1], evs[i - 1];
      Retried(cfg, run, evs, h, i - 1) + if IsRetried(cfg, w, e, h, Streak(run, evs, h, i - 1)) then 1 else 0
  }

  predicate IsRetried<H>(cfg: Config, w: World<H>, e: Event<H>, h: H, streak: int) {
    && e.EvComplete? && e.h == h && e.failed && h in w.s.recs
    && (w.s.recs[h].permanent || streak + 1 < cfg.maxAttempts)
  }

  // A priority after so many retries: every one lowers it by a step, down to the lowest.
  function Lowered(p: int, n: nat): int { if p >= 3 then p else Min(3, p + n) }

  /** In every run a state's priority is the one it came with, a step lower for every retried failure. */
  lemma {:induction false} PriorityTells<H>(cfg: Config, peers: seq<StaticPeer>, hs: seq<H>, start: int,
                                            run: seq<World<H>>, evs: seq<Event<H>>, at: seq<int>, j: nat, i: nat, h: H)
    returns (n: nat)
    requires |peers| == |hs| && Distinct(hs) && DistinctIds(peers)
    requires IsRun(cfg, run, evs, at) && run[0] == Init(peers, hs, start) && j <= i < |run| && h in run[j].s.recs
    ensures Retried(cfg, run, evs, h, i) == Retried(cfg, run, evs, h, j) + n
    ensures h in run[i].s.recs && run[i].s.recs[h].priority == Lowered(run[j].s.recs[h].priority, n)
    decreases i
  {
    if j == i {
      n := 0;
    } else {
      var k: nat := i - 1;
      var m := PriorityTells(cfg, peers, hs, start, run, evs, at, j, k, h);
      var hit := PriorityStep(cfg, peers, hs, start, run, evs, at, k, i, h);
      n := if hit then m + 1 else m;
      Sum(Retried(cfg, run, evs, h, j), m, hit, Retried(cfg, run, evs, h, k), Retried(cfg, run, evs, h, i), n);
      LoweredOn(run[j].s.recs[h].priority, m, run[k].s.recs[h].priority, hit, run[i].s.recs[h].priority, n);
    }
  }

  lemma Sum(first: nat, m: nat, hit: bool, before: nat, after: nat, n: nat)
    requires before == first + m && after == before + (if hit then 1 else 0) && n == if hit then m + 1 else m
    ensures after == first + n
  {
  }

  lemma LoweredOn(p: int, m: nat, before: int, hit: bool, after: int, n: nat)
    requires before == Lowered(p, m) && n == if hit then m + 1 else m
    requires after == if hit && before < 3 then before + 1 else before
    ensures after == Lowered(p, n)
  {
  }

  lemma PriorityStep<H>(cfg: Config, peers: seq<StaticPeer>, hs: seq<H>, start: int,
                        run: seq<World<H>>, evs: seq<Event<H>>, at: seq<int>, k: nat, i: nat, h: H) returns (hit: bool)
    requires |peers| == |hs| && Distinct(hs) && DistinctIds(peers)
    requires IsRun(cfg, run, evs, at) && run[0] == Init(peers, hs, start)
    requires k < |evs| && h in run[k].s.recs && i == k + 1
    ensures Retried(cfg, run, evs, h, i) == Retried(cfg, run, evs, h, k) + if hit then 1 else 0
    ensures h in run[i].s.recs
    ensures var p := run[k].s.recs[h].priority; run[i].s.recs[h].priority == if hit && p < 3 then p + 1 else p
  {
    RunSound(cfg, peers, hs, start, run, evs, at, k);
    AttemptsTell(cfg, peers, hs, start, run, evs, at, k, h);
    EventPriority(cfg, run[k], evs[k], at[k], h);
    hit := IsRetried(cfg, run[k], evs[k], h, Streak(run, evs, h, k));
  }

  lemma EventPriority<H>(cfg: Config, w: World<H>, e: Event<H>, now: int, h: H)
    requires Wf(w.s) && Enabled(cfg, w, e) && h in w.s.recs
    ensures var r, v := w.s.recs[h], Apply(cfg, w, e, now);
            var retried := IsRetried(cfg, w, e, h, r.attempts);
            h in v.s.recs && v.s.recs[h].priority == if retried && r.priority < 3 then r.priority + 1 else r.priority
  {
    if e.EvAdd? {
      AddAttempts(w.s, e.id, e.addrs, e.priority, now, e.h, h);
    } else if e.EvRemove? || e.EvBan? || e.EvConnected? || e.EvDisconnected? {
      NotifyAttempts(cfg, w, e, now, h);
    } else if e.EvComplete? && e.h == h {
      if e.failed { FailedRetried(cfg, w, h, now); } else { SucceededPriority(cfg, w, h, now); }
    } else {
      OtherAttempts(cfg, w, e, now, h);
    }
  }

  lemma SucceededPriority<H>(cfg: Config, w: World<H>, h: H, now: int)
    requires Enabled(cfg, w, EvComplete(h, false))
    ensures Apply(cfg, w, EvComplete(h, false), now).s.recs[h].priority == w.s.recs[h].priority
  {
  }
}
