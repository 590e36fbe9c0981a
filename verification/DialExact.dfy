/**
 When the promises about the dial queue hold in all runs of the scheduler: exactly how many
 notifications of the kind that DialOverlap and DialWithdrawn describe they survive.
 */
module DialExact {
  import opened Common
  import opened DialMachine
  import opened DialTheorems
  import opened DialRedial
  import opened DialOverlap
  import opened DialWithdrawn

  // ---------------------------------------------------------------- counting events

  function MidDials<H>(run: seq<World<H>>, evs: seq<Event<H>>): nat
    requires |run| == |evs| + 1
  {
    if evs == [] then 0
    else
      var n := |evs| - 1;
      MidDials(run[..n + 1], evs[..n]) + if MidDial(run[n], evs[n]) then 1 else 0
  }

  function Withdrawals<H>(run: seq<World<H>>, evs: seq<Event<H>>): nat
    requires |run| == |evs| + 1
  {
    if evs == [] then 0
    else
      var n := |evs| - 1;
      Withdrawals(run[..n + 1], evs[..n]) + if Withdraws(run[n], evs[n]) then 1 else 0
  }

  lemma {:induction false} NoMidDial<H>(run: seq<World<H>>, evs: seq<Event<H>>, k: nat)
    requires |run| == |evs| + 1 && MidDials(run, evs) == 0 && k < |evs|
    ensures !MidDial(run[k], evs[k])
  {
    var n := |evs| - 1;
    if k < n { NoMidDial(run[..n + 1], evs[..n], k); }
  }

  lemma {:induction false} NoWithdrawal<H>(run: seq<World<H>>, evs: seq<Event<H>>, k: nat)
    requires |run| == |evs| + 1 && Withdrawals(run, evs) == 0 && k < |evs|
    ensures !Withdraws(run[k], evs[k])
  {
    var n := |evs| - 1;
    if k < n { NoWithdrawal(run[..n + 1], evs[..n], k); }
  }

  ghost predicate AllExact<H>(run: seq<World<H>>, evs: seq<Event<H>>) {
    |run| == |evs| + 1 && forall k :: 0 <= k < |evs| ==> Exact(run[k], evs[k])
  }

  // ---------------------------------------------------------------- building runs

  // A run from w0 to w with true positions, so many mid-dial disconnects and so many withdrawals.
  ghost predicate Reaches<H>(cfg: Config, w0: World<H>, run: seq<World<H>>, evs: seq<Event<H>>, at: seq<int>,
                             w: World<H>, mid: nat, out: nat)
  {
    && IsRun(cfg, run, evs, at) && AllExact(run, evs) && run[0] == w0 && run[|evs|] == w
    && MidDials(run, evs) == mid && Withdrawals(run, evs) == out
  }

  lemma Go<H>(cfg: Config, w0: World<H>, run: seq<World<H>>, evs: seq<Event<H>>, at: seq<int>, w: World<H>,
              mid: nat, out: nat, e: Event<H>, now: int)
    returns (run': seq<World<H>>, evs': seq<Event<H>>, at': seq<int>, v: World<H>)
    requires Reaches(cfg, w0, run, evs, at, w, mid, out)
    requires w.clock <= now && Enabled(cfg, w, e) && Exact(w, e)
    ensures v == Apply(cfg, w, e, now) && run' == run + [v] && evs' == evs + [e]
    ensures Reaches(cfg, w0, run', evs', at', v,
                    mid + (if MidDial(w, e) then 1 else 0), out + (if Withdraws(w, e) then 1 else 0))
  {
    v := Apply(cfg, w, e, now);
    run', evs', at' := run + [v], evs + [e], at + [now];
    RunOn(cfg, run, evs, at, e, now, v);
    assert run'[..|run|] == run && evs'[..|evs|] == evs;
    forall k | 0 <= k < |evs'| ensures Exact(run'[k], evs'[k]) {
      if k < |evs| { assert run'[k] == run[k] && evs'[k] == evs[k]; }
    }
  }

  // The pass starts and takes a due state.
  lemma GoTake<H>(cfg: Config, w0: World<H>, run: seq<World<H>>, evs: seq<Event<H>>, at: seq<int>, w: World<H>,
                  mid: nat, out: nat, h: H, now: int)
    returns (run': seq<World<H>>, evs': seq<Event<H>>, at': seq<int>, v: World<H>)
    requires Reaches(cfg, w0, run, evs, at, w, mid, out)
    requires w.clock <= now && w.pass.Idle? && MayTake(w.s, h, now)
    ensures Reaches(cfg, w0, run', evs', at', v, mid, out)
    ensures v == w.(clock := now, s := Take(w.s, h), pass := Waiting(now, h))
  {
    run', evs', at', v := Go(cfg, w0, run, evs, at, w, mid, out, EvBeginPass, now);
    run', evs', at', v := Go(cfg, w0, run', evs', at', v, mid, out, EvTake(h), now);
  }

  lemma GoAcquire<H>(cfg: Config, w0: World<H>, run: seq<World<H>>, evs: seq<Event<H>>, at: seq<int>, w: World<H>,
                     mid: nat, out: nat)
    returns (run': seq<World<H>>, evs': seq<Event<H>>, at': seq<int>, v: World<H>)
    requires Reaches(cfg, w0, run, evs, at, w, mid, out)
    requires w.pass.Waiting? && w.pass.h in w.s.recs && |w.inflight| + w.releasing < cfg.concurrent
    ensures Reaches(cfg, w0, run', evs', at', v, mid, out) && evs' == evs + [EvAcquire] && run' == run + [v]
    ensures v == w.(pass := Scanning(w.pass.now), inflight := w.inflight + multiset{w.pass.h},
                    log := w.log + [Start(w.pass.h, w.s.recs[w.pass.h].id, w.clock)])
  {
    run', evs', at', v := Go(cfg, w0, run, evs, at, w, mid, out, EvAcquire, w.clock);
  }

  // ---------------------------------------------------------------- a state queued twice

  ghost predicate Single<H>(q: multiset<H>) { forall h :: h in q ==> q[h] == 1 }

  ghost predicate NeverTwice<H>(run: seq<World<H>>) { forall i :: 0 <= i < |run| ==> Single(run[i].s.queue) }

  // Some configured peer's dial can fail without being given up.
  ghost predicate Retries(cfg: Config, peers: seq<StaticPeer>) {
    exists k :: 0 <= k < |peers| && (peers[k].permanent || cfg.maxAttempts > 1)
  }

  lemma BootDue<H>(peers: seq<StaticPeer>, hs: seq<H>, start: int, k: nat)
    requires |peers| == |hs| && Distinct(hs) && DistinctIds(peers) && k < |peers|
    ensures var s := Boot(peers, hs, start);
            && MayTake(s, hs[k], start) && s.queue[hs[k]] == 1 && s.dialing == {}
            && peers[k].id in s.peers && s.peers[peers[k].id] == hs[k]
            && s.recs[hs[k]] == NewRec(peers[k].id, peers[k].addrs, PriorityStatic, start, true, peers[k].permanent)
  {
    BootRec(peers, hs, start, k);
    BootQueue(peers, hs, start);
    BootIdle(peers, hs, start);
    BootTable(peers, hs, start, k);
    DistinctCount(hs, k);
  }

  lemma ReachesApart<H>(cfg: Config, peers: seq<StaticPeer>, hs: seq<H>, start: int,
                        run: seq<World<H>>, evs: seq<Event<H>>, at: seq<int>, w: World<H>, out: nat)
    requires |peers| == |hs| && Distinct(hs) && DistinctIds(peers)
    requires Reaches(cfg, Init(peers, hs, start), run, evs, at, w, 0, out)
    ensures NoOverlap(w)
  {
    forall k | 0 <= k < |evs| ensures !MidDial(run[k], evs[k]) { NoMidDial(run, evs, k); }
    RunNoOverlap(cfg, peers, hs, start, run, evs, at, |evs|);
  }

  // The peer is disconnected in the middle of its first dial, which fails.
  lemma TwiceRun<H>(cfg: Config, peers: seq<StaticPeer>, hs: seq<H>, start: int, k: nat)
    returns (run: seq<World<H>>, evs: seq<Event<H>>, at: seq<int>)
    requires |peers| == |hs| && Distinct(hs) && DistinctIds(peers) && cfg.concurrent > 0
    requires k < |peers| && (peers[k].permanent || cfg.maxAttempts > 1)
    ensures IsRun(cfg, run, evs, at) && run[0] == Init(peers, hs, start) && AllExact(run, evs)
            && MidDials(run, evs) == 1
    ensures run[|evs|].s.queue[hs[k]] == 2
  {
    var w0, h, id := Init(peers, hs, start), hs[k], peers[k].id;
    BootDue(peers, hs, start, k);
    var w;
    run, evs, at, w := [w0], [], [], w0;
    run, evs, at, w := GoTake(cfg, w0, run, evs, at, w, 0, 0, h, start);
    run, evs, at, w := GoAcquire(cfg, w0, run, evs, at, w, 0, 0);
    ReachesApart(cfg, peers, hs, start, run, evs, at, w, 0);
    QueuedTwice(cfg, w, id, start, start);
    run, evs, at, w := Go(cfg, w0, run, evs, at, w, 0, 0, EvDisconnected(id, false), start);
    run, evs, at, w := Go(cfg, w0, run, evs, at, w, 1, 0, EvComplete(h, true), start);
  }

  // What an event does to the queue, apart from a failed dial that is retried.
  lemma TableSingle<H>(cfg: Config, w: World<H>, e: Event<H>, now: int)
    requires Wf(w.s) && Single(w.s.queue) && Enabled(cfg, w, e) && Exact(w, e)
    requires e.EvRemove? || e.EvBan? || e.EvConnected? || e.EvDisconnected?
    ensures Single(Apply(cfg, w, e, now).s.queue)
  {
    if e.EvRemove? { RemoveShrinks(w.s, e.id, e.ix); }
    else if e.EvBan? { BanShrinks(w.s, e.id, e.until, e.ix); }
    else if e.EvConnected? { ConnectedShrinks(w.s, e.id, e.ix); }
    else { DisconnectSingle(w.s, cfg, e.id, now, e.ix); }
  }

  lemma DisconnectSingle<H>(s: Sched<H>, cfg: Config, id: string, now: int, ix: bool)
    requires Single(s.queue) && ix == (id in s.peers && s.peers[id] in s.queue)
    ensures Single(NotifyDisconnected(s, cfg, id, now, ix).queue)
  {
  }

  lemma AddSingle<H>(s: Sched<H>, id: string, addrs: seq<string>, priority: int, now: int, h: H)
    requires Wf(s) && Single(s.queue) && h !in s.recs
    ensures Single(AddPeer(s, id, addrs, priority, now, h).queue)
  {
  }

  lemma CompleteSingle<H>(s: Sched<H>, cfg: Config, h: H, failed: bool, now: int)
    requires Single(s.queue) && h in s.recs && (failed ==> GivesUp(cfg, s.recs[h]))
    ensures Single(Complete(s, cfg, h, failed, now).queue)
  {
  }

  lemma EventSingle<H>(cfg: Config, w: World<H>, e: Event<H>, now: int)
    requires Wf(w.s) && Single(w.s.queue) && Enabled(cfg, w, e) && Exact(w, e)
    requires e.EvComplete? && e.failed ==> GivesUp(cfg, w.s.recs[e.h])
    ensures Single(Apply(cfg, w, e, now).s.queue)
  {
    if e.EvRemove? || e.EvBan? || e.EvConnected? || e.EvDisconnected? { TableSingle(cfg, w, e, now); }
    else if e.EvAdd? { AddSingle(w.s, e.id, e.addrs, e.priority, now, e.h); }
    else if e.EvComplete? { CompleteSingle(w.s, cfg, e.h, e.failed, now); }
  }

  // Attempts are not negative, and only configured peers are static or permanent.
  ghost predicate Configured<H>(s: Sched<H>, peers: seq<StaticPeer>) {
    forall h :: h in s.recs ==>
      && s.recs[h].attempts >= 0
      && (s.recs[h].isStatic ==> peers != [])
      && (s.recs[h].permanent ==> exists k :: 0 <= k < |peers| && peers[k].permanent)
  }

  lemma RemoveConfigured<H>(s: Sched<H>, id: string, until: int, ix: bool, peers: seq<StaticPeer>)
    requires Configured(s, peers)
    ensures Configured(RemovePeer(s, id, ix), peers) && Configured(BanPeer(s, id, until, ix), peers)
  {
  }

  lemma ConnectedConfigured<H>(s: Sched<H>, id: string, ix: bool, peers: seq<StaticPeer>)
    requires Configured(s, peers)
    ensures Configured(NotifyConnected(s, id, ix), peers)
  {
  }

  lemma DisconnectedConfigured<H>(s: Sched<H>, cfg: Config, id: string, now: int, ix: bool, peers: seq<StaticPeer>)
    requires Configured(s, peers)
    ensures Configured(NotifyDisconnected(s, cfg, id, now, ix), peers)
  {
  }

  lemma AddConfigured<H>(s: Sched<H>, id: string, addrs: seq<string>, priority: int, now: int, h: H,
                         peers: seq<StaticPeer>)
    requires Configured(s, peers)
    ensures Configured(AddPeer(s, id, addrs, priority, now, h), peers)
  {
  }

  lemma CompleteConfigured<H>(s: Sched<H>, cfg: Config, h: H, failed: bool, now: int, peers: seq<StaticPeer>)
    requires Configured(s, peers) && h in s.recs
    ensures Configured(Complete(s, cfg, h, failed, now), peers)
  {
  }

  lemma EventConfigured<H>(cfg: Config, w: World<H>, e: Event<H>, now: int, peers: seq<StaticPeer>)
    requires Configured(w.s, peers) && Enabled(cfg, w, e)
    ensures Configured(Apply(cfg, w, e, now).s, peers)
  {
    if e.EvRemove? { RemoveConfigured(w.s, e.id, now, e.ix, peers); }
    else if e.EvBan? { RemoveConfigured(w.s, e.id, e.until, e.ix, peers); }
    else if e.EvConnected? { ConnectedConfigured(w.s, e.id, e.ix, peers); }
    else if e.EvDisconnected? { DisconnectedConfigured(w.s, cfg, e.id, now, e.ix, peers); }
    else if e.EvAdd? { AddConfigured(w.s, e.id, e.addrs, e.priority, now, e.h, peers); }
    else if e.EvComplete? { CompleteConfigured(w.s, cfg, e.h, e.failed, now, peers); }
  }

  lemma {:induction false} RunConfigured<H>(cfg: Config, peers: seq<StaticPeer>, hs: seq<H>, start: int,
                                            run: seq<World<H>>, evs: seq<Event<H>>, at: seq<int>, i: nat)
    requires |peers| == |hs| && Distinct(hs)
    requires IsRun(cfg, run, evs, at) && run[0] == Init(peers, hs, start) && i < |run|
    ensures Configured(run[i].s, peers) && (cfg.concurrent == 0 ==> run[i].inflight == multiset{})
  {
    if i == 0 {
      forall h | h in run[0].s.recs
        ensures && run[0].s.recs[h].attempts >= 0 && peers != []
                && (run[0].s.recs[h].permanent ==> exists k :: 0 <= k < |peers| && peers[k].permanent)
      {
        var k := BootHandles(peers, hs, start, h);
        BootRec(peers, hs, start, k);
      }
    } else {
      RunConfigured(cfg, peers, hs, start, run, evs, at, i - 1);
      EventConfigured(cfg, run[i - 1], evs[i - 1], at[i - 1], peers);
    }
  }

  // No failed dial is retried.
  ghost predicate NoRetry(cfg: Config, peers: seq<StaticPeer>) {
    cfg.concurrent == 0 || (cfg.maxAttempts <= 1 && forall k :: 0 <= k < |peers| ==> !peers[k].permanent)
  }

  lemma AlwaysGivesUp<H>(cfg: Config, w: World<H>, h: H, peers: seq<StaticPeer>)
    requires NoRetry(cfg, peers) && Configured(w.s, peers) && (cfg.concurrent == 0 ==> w.inflight == multiset{})
    requires h in w.inflight && h in w.s.recs
    ensures GivesUp(cfg, w.s.recs[h])
  {
  }

  lemma BootSingle<H>(peers: seq<StaticPeer>, hs: seq<H>, start: int)
    requires |peers| == |hs| && Distinct(hs)
    ensures Single(Boot(peers, hs, start).queue)
  {
    BootQueue(peers, hs, start);
    forall h | h in multiset(hs) ensures multiset(hs)[h] == 1 {
      var k :| 0 <= k < |hs| && hs[k] == h;
      DistinctCount(hs, k);
    }
  }

  lemma StepSingle<H>(cfg: Config, w: World<H>, e: Event<H>, now: int, peers: seq<StaticPeer>)
    requires Wf(w.s) && Single(w.s.queue) && Enabled(cfg, w, e) && Exact(w, e) && NoRetry(cfg, peers)
    requires Configured(w.s, peers) && (cfg.concurrent == 0 ==> w.inflight == multiset{})
    ensures Single(Apply(cfg, w, e, now).s.queue)
  {
    if e.EvComplete? { AlwaysGivesUp(cfg, w, e.h, peers); }
    EventSingle(cfg, w, e, now);
  }

  lemma {:induction false} RunSingle<H>(cfg: Config, peers: seq<StaticPeer>, hs: seq<H>, start: int,
                                        run: seq<World<H>>, evs: seq<Event<H>>, at: seq<int>, i: nat)
    requires |peers| == |hs| && Distinct(hs) && DistinctIds(peers)
    requires IsRun(cfg, run, evs, at) && run[0] == Init(peers, hs, start) && AllExact(run, evs) && i < |run|
    requires NoRetry(cfg, peers)
    ensures Single(run[i].s.queue)
  {
    if i == 0 {
      BootSingle(peers, hs, start);
    } else {
      RunSingle(cfg, peers, hs, start, run, evs, at, i - 1);
      RunConfigured(cfg, peers, hs, start, run, evs, at, i - 1);
      RunSound(cfg, peers, hs, start, run, evs, at, i - 1);
      StepSingle(cfg, run[i - 1], evs[i - 1], at[i - 1], peers);
    }
  }

  // Without configured peers there is nobody to disconnect mid-dial.
  lemma NobodyConfigured<H>(cfg: Config, peers: seq<StaticPeer>, hs: seq<H>, start: int,
                            run: seq<World<H>>, evs: seq<Event<H>>, at: seq<int>, k: nat)
    requires |peers| == |hs| && Distinct(hs) && peers == []
    requires IsRun(cfg, run, evs, at) && run[0] == Init(peers, hs, start) && k < |evs|
    ensures !MidDial(run[k], evs[k])
  {
    RunConfigured(cfg, peers, hs, start, run, evs, at, k);
  }

  lemma OverlapSingle<H>(cfg: Config, peers: seq<StaticPeer>, hs: seq<H>, start: int,
                         run: seq<World<H>>, evs: seq<Event<H>>, at: seq<int>, i: nat)
    requires |peers| == |hs| && Distinct(hs) && DistinctIds(peers)
    requires IsRun(cfg, run, evs, at) && run[0] == Init(peers, hs, start) && AllExact(run, evs) && i < |run|
    requires forall k :: 0 <= k < |evs| ==> !MidDial(run[k], evs[k])
    ensures Single(run[i].s.queue)
  {
    RunNoOverlap(cfg, peers, hs, start, run, evs, at, i);
    forall h | h in run[i].s.queue ensures run[i].s.queue[h] == 1 { assert Apart1(run[i], h); }
  }

  // The runs in question.
  ghost predicate Fair<H>(cfg: Config, peers: seq<StaticPeer>, hs: seq<H>, start: int,
                          run: seq<World<H>>, evs: seq<Event<H>>, at: seq<int>)
    requires |peers| == |hs|
  {
    IsRun(cfg, run, evs, at) && run[0] == Init(peers, hs, start) && AllExact(run, evs)
  }

  /** In all runs with at most q disconnects of redialed peers mid-dial no state is ever queued twice if
      and only if q is zero, or nothing is dialed, or no configured peer is ever retried. */
  lemma QueuedOnceIff<H>(cfg: Config, peers: seq<StaticPeer>, hs: seq<H>, start: int, q: nat)
    requires |peers| == |hs| && Distinct(hs) && DistinctIds(peers)
    ensures (forall run: seq<World<H>>, evs: seq<Event<H>>, at: seq<int> ::
               Fair(cfg, peers, hs, start, run, evs, at) && MidDials(run, evs) <= q ==> NeverTwice(run))
            <==> q == 0 || cfg.concurrent == 0 || !Retries(cfg, peers)
  {
    if q == 0 || cfg.concurrent == 0 || !Retries(cfg, peers) {
      forall run: seq<World<H>>, evs: seq<Event<H>>, at: seq<int>
        | Fair(cfg, peers, hs, start, run, evs, at) && MidDials(run, evs) <= q
        ensures NeverTwice(run)
      {
        forall i | 0 <= i < |run| ensures Single(run[i].s.queue) {
          QueuedOnce(cfg, peers, hs, start, run, evs, at, i);
        }
      }
    } else {
      var run, evs, at := SomeTwice(cfg, peers, hs, start);
    }
  }

  lemma SomeTwice<H>(cfg: Config, peers: seq<StaticPeer>, hs: seq<H>, start: int)
    returns (run: seq<World<H>>, evs: seq<Event<H>>, at: seq<int>)
    requires |peers| == |hs| && Distinct(hs) && DistinctIds(peers) && cfg.concurrent > 0 && Retries(cfg, peers)
    ensures Fair(cfg, peers, hs, start, run, evs, at) && MidDials(run, evs) == 1 && !NeverTwice(run)
  {
    var k :| 0 <= k < |peers| && (peers[k].permanent || cfg.maxAttempts > 1);
    run, evs, at := TwiceRun(cfg, peers, hs, start, k);
    assert hs[k] in run[|evs|].s.queue && !Single(run[|evs|].s.queue);
  }

  lemma QueuedOnce<H>(cfg: Config, peers: seq<StaticPeer>, hs: seq<H>, start: int,
                      run: seq<World<H>>, evs: seq<Event<H>>, at: seq<int>, i: nat)
    requires |peers| == |hs| && Distinct(hs) && DistinctIds(peers)
    requires Fair(cfg, peers, hs, start, run, evs, at) && i < |run|
    requires MidDials(run, evs) == 0 || cfg.concurrent == 0 || !Retries(cfg, peers)
    ensures Single(run[i].s.queue)
  {
    if MidDials(run, evs) == 0 || peers == [] {
      forall k | 0 <= k < |evs| ensures !MidDial(run[k], evs[k]) {
        if peers == [] { NobodyConfigured(cfg, peers, hs, start, run, evs, at, k); } else { NoMidDial(run, evs, k); }
      }
      OverlapSingle(cfg, peers, hs, start, run, evs, at, i);
    } else {
      assert !Retries(cfg, peers) ==> !(peers[0].permanent || cfg.maxAttempts > 1);
      RunSingle(cfg, peers, hs, start, run, evs, at, i);
    }
  }

  // ---------------------------------------------------------------- a dial nobody wants

  ghost predicate WantedStarts<H>(run: seq<World<H>>, evs: seq<Event<H>>)
    requires |run| == |evs| + 1
  {
    forall i :: 0 <= i < |evs| && evs[i].EvAcquire? ==> run[i].pass.Waiting? && Wanted(run[i].s, run[i].pass.h)
  }

  // A peer that nobody configured is removed or banned.
  predicate TakesOut<H>(e: Event<H>, id: string) { (e.EvRemove? || e.EvBan?) && e.id == id && !e.ix }

  // A new peer is added and its state taken from the queue.
  lemma AddedRun<H>(cfg: Config, peers: seq<StaticPeer>, hs: seq<H>, start: int, id: string, h: H)
    returns (run: seq<World<H>>, evs: seq<Event<H>>, at: seq<int>, w: World<H>)
    requires |peers| == |hs| && Distinct(hs) && DistinctIds(peers)
    requires h !in hs && forall k :: 0 <= k < |peers| ==> peers[k].id != id
    ensures Reaches(cfg, Init(peers, hs, start), run, evs, at, w, 0, 0)
    ensures w.pass == Waiting(start, h) && w.inflight == multiset{} && w.releasing == 0 && w.log == []
            && w.clock == start
    ensures id in w.s.peers && w.s.peers[id] == h && h in w.s.recs && h !in w.s.queue && w.s.dialing == {id}
    ensures w.s.recs[h] == NewRec(id, [], PriorityStatic, start, false, false)
  {
    var w0 := Init(peers, hs, start);
    NewPeer(peers, hs, start, id, h);
    run, evs, at, w := [w0], [], [], w0;
    run, evs, at, w := Go(cfg, w0, run, evs, at, w, 0, 0, EvAdd(id, [], PriorityStatic, h), start);
    run, evs, at, w := GoTake(cfg, w0, run, evs, at, w, 0, 0, h, start);
  }

  lemma NewPeer<H>(peers: seq<StaticPeer>, hs: seq<H>, start: int, id: string, h: H)
    requires |peers| == |hs| && h !in hs && forall k :: 0 <= k < |peers| ==> peers[k].id != id
    ensures var s := Boot(peers, hs, start);
            h !in s.recs && h !in s.queue && id !in s.peers && s.banned == map[] && s.dialing == {}
  {
    var s := Boot(peers, hs, start);
    BootIdle(peers, hs, start);
    BootQueue(peers, hs, start);
    if h in s.recs { var k := BootHandles(peers, hs, start, h); }
    if id in s.peers { var k := BootIds(peers, hs, start, id); }
  }

  /** The peer is taken out while its state waits for the semaphore: its dial starts all the same. */
  lemma UnwantedRun<H>(cfg: Config, peers: seq<StaticPeer>, hs: seq<H>, start: int, id: string, h: H, e: Event<H>)
    returns (run: seq<World<H>>, evs: seq<Event<H>>, at: seq<int>)
    requires |peers| == |hs| && Distinct(hs) && DistinctIds(peers) && cfg.concurrent > 0
    requires h !in hs && (forall k :: 0 <= k < |peers| ==> peers[k].id != id) && TakesOut(e, id)
    ensures Fair(cfg, peers, hs, start, run, evs, at) && MidDials(run, evs) == 0 && Withdrawals(run, evs) == 1
    ensures !WantedStarts(run, evs)
  {
    var w0 := Init(peers, hs, start);
    var w;
    run, evs, at, w := AddedRun(cfg, peers, hs, start, id, h);
    run, evs, at, w := Go(cfg, w0, run, evs, at, w, 0, 0, e, start);
    assert w.pass == Waiting(start, h) && id !in w.s.peers && h in w.s.recs && w.s.recs[h].id == id;
    var n := |evs|;
    run, evs, at, w := GoAcquire(cfg, w0, run, evs, at, w, 0, 1);
    assert evs[n].EvAcquire? && run[n].pass.h == h && !Wanted(run[n].s, h);
  }

  /** In all runs with true positions, without mid-dial disconnects and with at most q removals or bans
      of peers being dialed, only states in the table that are not banned start to be dialed, unless
      permanent, if and only if q is zero or nothing is dialed at all. */
  lemma WantedStartsIff<H>(cfg: Config, peers: seq<StaticPeer>, hs: seq<H>, start: int, id: string, h: H, q: nat)
    requires |peers| == |hs| && Distinct(hs) && DistinctIds(peers)
    requires h !in hs && forall k :: 0 <= k < |peers| ==> peers[k].id != id
    ensures (forall run: seq<World<H>>, evs: seq<Event<H>>, at: seq<int> ::
               && Fair(cfg, peers, hs, start, run, evs, at) && MidDials(run, evs) == 0 && Withdrawals(run, evs) <= q
               ==> WantedStarts(run, evs))
            <==> q == 0 || cfg.concurrent == 0
  {
    if q == 0 || cfg.concurrent == 0 {
      forall run: seq<World<H>>, evs: seq<Event<H>>, at: seq<int>
        | Fair(cfg, peers, hs, start, run, evs, at) && MidDials(run, evs) == 0 && Withdrawals(run, evs) <= q
        ensures WantedStarts(run, evs)
      {
        forall i | 0 <= i < |evs| && evs[i].EvAcquire?
          ensures run[i].pass.Waiting? && Wanted(run[i].s, run[i].pass.h)
        {
          OnlyWanted(cfg, peers, hs, start, run, evs, at, i);
        }
      }
    } else {
      var run, evs, at := UnwantedRun(cfg, peers, hs, start, id, h, EvRemove(id, false));
    }
  }

  lemma OnlyWanted<H>(cfg: Config, peers: seq<StaticPeer>, hs: seq<H>, start: int,
                      run: seq<World<H>>, evs: seq<Event<H>>, at: seq<int>, i: nat)
    requires |peers| == |hs| && Distinct(hs) && DistinctIds(peers)
    requires Fair(cfg, peers, hs, start, run, evs, at) && i < |evs| && evs[i].EvAcquire?
    requires MidDials(run, evs) == 0 && (Withdrawals(run, evs) == 0 || cfg.concurrent == 0)
    ensures run[i].pass.Waiting? && Wanted(run[i].s, run[i].pass.h)
  {
    assert Enabled(cfg, run[i], evs[i]);
    if cfg.concurrent > 0 {
      forall k | 0 <= k < |evs| ensures !MidDial(run[k], evs[k]) && !Withdraws(run[k], evs[k]) {
        NoMidDial(run, evs, k);
        NoWithdrawal(run, evs, k);
      }
      StartsWanted(cfg, peers, hs, start, run, evs, at, i);
    }
  }

  /** And when the peer is taken out while it is being dialed, and that dial fails without being given up,
      the scheduler dials it once more. */
  lemma RedialedRun<H>(cfg: Config, peers: seq<StaticPeer>, hs: seq<H>, start: int, id: string, h: H, e: Event<H>)
    returns (run: seq<World<H>>, evs: seq<Event<H>>, at: seq<int>)
    requires |peers| == |hs| && Distinct(hs) && DistinctIds(peers) && cfg.concurrent > 0 && cfg.maxAttempts > 1
    requires h !in hs && (forall k :: 0 <= k < |peers| ==> peers[k].id != id) && TakesOut(e, id)
    ensures Fair(cfg, peers, hs, start, run, evs, at) && MidDials(run, evs) == 0 && Withdrawals(run, evs) == 1
    ensures !WantedStarts(run, evs) && Starts(run[|evs|].log, h) == 2
  {
    var w0 := Init(peers, hs, start);
    var w;
    run, evs, at, w := OrphanedRun(cfg, peers, hs, start, id, h, e);
    run, evs, at, w := Go(cfg, w0, run, evs, at, w, 0, 1, EvRelease, start);
    run, evs, at, w := Go(cfg, w0, run, evs, at, w, 0, 1, EvEndPass, start);
    var later := Max(start, w.s.recs[h].next);
    run, evs, at, w := GoTake(cfg, w0, run, evs, at, w, 0, 1, h, later);
    var n, log := |evs|, w.log;
    run, evs, at, w := GoAcquire(cfg, w0, run, evs, at, w, 0, 1);
    StartsAppend(log, w.log[|log|], h);
    assert evs[n].EvAcquire? && run[n].pass.h == h && !Wanted(run[n].s, h);
  }

  // The state is queued again, although it is not in the table.
  lemma OrphanedRun<H>(cfg: Config, peers: seq<StaticPeer>, hs: seq<H>, start: int, id: string, h: H, e: Event<H>)
    returns (run: seq<World<H>>, evs: seq<Event<H>>, at: seq<int>, w: World<H>)
    requires |peers| == |hs| && Distinct(hs) && DistinctIds(peers) && cfg.concurrent > 0 && cfg.maxAttempts > 1
    requires h !in hs && (forall k :: 0 <= k < |peers| ==> peers[k].id != id) && TakesOut(e, id)
    ensures Reaches(cfg, Init(peers, hs, start), run, evs, at, w, 0, 1)
    ensures w.pass == Scanning(start) && w.inflight == multiset{} && w.releasing == 1 && w.clock == start
    ensures h in w.s.queue && h in w.s.recs && w.s.recs[h].id == id && id !in w.s.peers && w.s.dialing == {}
    ensures Starts(w.log, h) == 1
  {
    var w0 := Init(peers, hs, start);
    run, evs, at, w := DialedRun(cfg, peers, hs, start, id, h);
    var log := w.log;
    ReachesApart(cfg, peers, hs, start, run, evs, at, w, 0);
    Orphaned(cfg, w, e, start, start);
    run, evs, at, w := Go(cfg, w0, run, evs, at, w, 0, 0, e, start);
    run, evs, at, w := Go(cfg, w0, run, evs, at, w, 0, 1, EvComplete(h, true), start);
    StartsAppend(log, w.log[|log|], h);
  }

  // The new peer is being dialed for the first time.
  lemma DialedRun<H>(cfg: Config, peers: seq<StaticPeer>, hs: seq<H>, start: int, id: string, h: H)
    returns (run: seq<World<H>>, evs: seq<Event<H>>, at: seq<int>, w: World<H>)
    requires |peers| == |hs| && Distinct(hs) && DistinctIds(peers) && cfg.concurrent > 0
    requires h !in hs && forall k :: 0 <= k < |peers| ==> peers[k].id != id
    ensures Reaches(cfg, Init(peers, hs, start), run, evs, at, w, 0, 0)
    ensures w.pass == Scanning(start) && w.inflight == multiset{h} && w.releasing == 0 && w.clock == start
    ensures h in w.s.recs && w.s.recs[h] == NewRec(id, [], PriorityStatic, start, false, false) && h !in w.s.queue
    ensures id in w.s.peers && w.s.peers[id] == h && w.s.dialing == {id} && Starts(w.log, h) == 1
  {
    var w0 := Init(peers, hs, start);
    run, evs, at, w := AddedRun(cfg, peers, hs, start, id, h);
    run, evs, at, w := GoAcquire(cfg, w0, run, evs, at, w, 0, 0);
    OneStart(w.log[0], h);
  }

  lemma OneStart<H>(x: Entry<H>, h: H)
    requires x.Start? && x.h == h
    ensures Starts([x], h) == 1
  {
    StartsAppend([], x, h);
    assert [] + [x] == [x];
  }
}
