/**
 Whether peers that were removed or banned are dialed. Removal and ban take a state out of the table and
 the queue, but not out of the hands of the pass or of a dial goroutine: a state that waits for the
 semaphore is dialed all the same, and one whose dial fails is pushed back. Here is what runs without
 such removals and bans keep; DialExact has the converse.
 */
module DialWithdrawn {
  import opened Common
  import opened DialMachine
  import opened DialTheorems
  import opened DialRedial
  import opened DialOverlap

  // Only states in the table are queued or dialed.
  ghost predicate InTable<H>(w: World<H>) {
    (forall h :: h in w.s.queue ==> Live(w.s, h)) && (forall h :: h in Busy(w) ==> Live(w.s, h))
  }

  // Removal or ban of a peer that is being dialed.
  predicate Withdraws<H>(w: World<H>, e: Event<H>) {
    && (e.EvRemove? || e.EvBan?) && e.id in w.s.peers && w.s.peers[e.id] in w.s.recs && w.s.peers[e.id] in Busy(w)
    && (e.EvRemove? ==> !w.s.recs[w.s.peers[e.id]].isStatic)
    && (e.EvBan? ==> !w.s.recs[w.s.peers[e.id]].permanent)
  }

  // ---------------------------------------------------------------- the table

  // A state taken out of the table leaves the queue as well.
  lemma DropTable<H>(s: Sched<H>, id: string, ix: bool)
    requires Wf(s) && id in s.peers && s.queue[s.peers[id]] <= 1 && ix == (s.peers[id] in s.queue)
    ensures var t := Dequeue(s, s.peers[id], ix).(peers := s.peers - {id});
            && t.recs == s.recs && s.peers[id] !in t.queue && t.queue <= s.queue
            && forall g :: Live(t, g) <==> Live(s, g) && g != s.peers[id]
  {
  }

  lemma DropInTable<H>(w: World<H>, v: World<H>, id: string, ix: bool)
    requires NoOverlap(w) && InTable(w) && Told(w, id, ix) && id in w.s.peers
    requires v.s.peers == w.s.peers - {id} && v.s.queue == Dequeue(w.s, w.s.peers[id], ix).queue
    requires v.s.recs == w.s.recs && v.inflight == w.inflight && v.pass == w.pass
    ensures InTable(v) <==> w.s.peers[id] !in Busy(w)
  {
    assert Apart1(w, w.s.peers[id]);
    DropTable(w.s, id, ix);
    OneGone(w, v, w.s.peers[id]);
  }

  lemma OneGone<H>(w: World<H>, v: World<H>, d: H)
    requires InTable(w) && v.s.queue <= w.s.queue && d !in v.s.queue && Busy(v) == Busy(w)
    requires forall g :: Live(v.s, g) <==> Live(w.s, g) && g != d
    ensures InTable(v) <==> d !in Busy(w)
  {
  }

  lemma WithdrawIff<H>(cfg: Config, w: World<H>, e: Event<H>, now: int)
    requires NoOverlap(w) && InTable(w) && Enabled(cfg, w, e) && Exact(w, e) && (e.EvRemove? || e.EvBan?)
    ensures InTable(Apply(cfg, w, e, now)) <==> !Withdraws(w, e)
  {
    var v := Apply(cfg, w, e, now);
    if e.id in w.s.peers {
      var r := w.s.recs[w.s.peers[e.id]];
      if (e.EvRemove? && !r.isStatic) || (e.EvBan? && !r.permanent) {
        DropInTable(w, v, e.id, e.ix);
      } else {
        SameTable(w, v);
      }
    } else {
      SameTable(w, v);
    }
  }

  // Nothing new is queued or dialed, and every state stays where it is in the table.
  lemma SameTable<H>(w: World<H>, v: World<H>)
    requires InTable(w) && v.s.peers == w.s.peers && w.s.recs.Keys <= v.s.recs.Keys
    requires forall h :: h in w.s.recs ==> v.s.recs[h].id == w.s.recs[h].id
    requires forall h :: h in v.s.queue || h in Busy(v) ==> h in w.s.queue || h in Busy(w) || Live(w.s, h)
    ensures InTable(v)
  {
    forall h | h in v.s.queue || h in Busy(v) ensures Live(v.s, h) { assert Live(w.s, h); }
  }

  lemma ConnectedTable<H>(s: Sched<H>, id: string, ix: bool)
    ensures var t := NotifyConnected(s, id, ix);
            && t.peers == s.peers && t.queue <= s.queue && t.recs.Keys == s.recs.Keys
            && forall h :: h in s.recs ==> t.recs[h].id == s.recs[h].id
  {
  }

  lemma DisconnectedTable<H>(s: Sched<H>, cfg: Config, id: string, now: int, ix: bool)
    requires Wf(s)
    ensures var t := NotifyDisconnected(s, cfg, id, now, ix);
            && t.peers == s.peers && t.recs.Keys == s.recs.Keys
            && (forall h :: h in s.recs ==> t.recs[h].id == s.recs[h].id)
            && forall h :: h in t.queue ==> h in s.queue || Live(s, h)
  {
  }

  lemma ConnectedInTable<H>(cfg: Config, w: World<H>, e: Event<H>, now: int)
    requires InTable(w) && Enabled(cfg, w, e) && e.EvConnected?
    ensures InTable(Apply(cfg, w, e, now))
  {
    var v := Apply(cfg, w, e, now);
    ConnectedTable(w.s, e.id, e.ix);
    assert Busy(v) == Busy(w);
    SameTable(w, v);
  }

  lemma DisconnectedInTable<H>(cfg: Config, w: World<H>, e: Event<H>, now: int)
    requires InRecs(w) && InTable(w) && Enabled(cfg, w, e) && e.EvDisconnected?
    ensures InTable(Apply(cfg, w, e, now))
  {
    var v := Apply(cfg, w, e, now);
    DisconnectedTable(w.s, cfg, e.id, now, e.ix);
    assert Busy(v) == Busy(w);
    SameTable(w, v);
  }

  lemma AddTable<H>(s: Sched<H>, id: string, addrs: seq<string>, priority: int, now: int, h: H)
    requires Wf(s) && h !in s.recs
    ensures var t := AddPeer(s, id, addrs, priority, now, h);
            && (forall g :: Live(s, g) ==> Live(t, g)) && forall g :: g in t.queue ==> g in s.queue || Live(t, g)
  {
  }

  lemma AddInTable<H>(cfg: Config, w: World<H>, e: Event<H>, now: int)
    requires InRecs(w) && InTable(w) && Enabled(cfg, w, e) && e.EvAdd?
    ensures InTable(Apply(cfg, w, e, now))
  {
    AddTable(w.s, e.id, e.addrs, e.priority, now, e.h);
    assert Busy(Apply(cfg, w, e, now)) == Busy(w);
  }

  lemma CompleteTable<H>(s: Sched<H>, cfg: Config, h: H, failed: bool, now: int)
    requires h in s.recs && Live(s, h) && h !in s.queue
    ensures var t := Complete(s, cfg, h, failed, now);
            && (forall g :: Live(s, g) && g != h ==> Live(t, g))
            && forall g :: g in t.queue ==> (g in s.queue && g != h) || (g == h && Live(t, g))
  {
  }

  lemma CompleteInTable<H>(cfg: Config, w: World<H>, e: Event<H>, now: int)
    requires NoOverlap(w) && InTable(w) && Enabled(cfg, w, e) && e.EvComplete?
    ensures InTable(Apply(cfg, w, e, now))
  {
    var v := Apply(cfg, w, e, now);
    assert e.h in Busy(w) && Apart1(w, e.h) && Live(w.s, e.h);
    CompleteTable(w.s, cfg, e.h, e.failed, now);
    CompleteBusy(w, v, e.h);
  }

  // Its dial was the only one.
  lemma CompleteBusy<H>(w: World<H>, v: World<H>, h: H)
    requires h in w.inflight && Busy(w)[h] <= 1 && v.inflight == w.inflight - multiset{h} && v.pass == w.pass
    ensures forall g :: g in Busy(v) ==> g in Busy(w) && g != h
  {
  }

  lemma TakeInTable<H>(cfg: Config, w: World<H>, e: Event<H>, now: int)
    requires InTable(w) && Enabled(cfg, w, e) && e.EvTake?
    ensures InTable(Apply(cfg, w, e, now))
  {
    var v := Apply(cfg, w, e, now);
    assert forall g :: g in Busy(v) ==> g in Busy(w) || g == e.h;
    SameTable(w, v);
  }

  lemma MoveInTable<H>(cfg: Config, w: World<H>, e: Event<H>, now: int)
    requires InTable(w) && Enabled(cfg, w, e)
    requires e.EvBeginPass? || e.EvEndPass? || e.EvAcquire? || e.EvRelease? || e.EvCleanup? || e.EvCancel?
    ensures InTable(Apply(cfg, w, e, now))
  {
    var v := Apply(cfg, w, e, now);
    assert v.s.peers == w.s.peers && v.s.recs == w.s.recs && v.s.queue == w.s.queue;
    assert forall g :: g in Busy(v) ==> g in Busy(w);
    SameTable(w, v);
  }

  /** A single event keeps all queued and dialed states in the table if and only if it does not remove or
      ban a peer that is being dialed. */
  lemma EventInTableIff<H>(cfg: Config, w: World<H>, e: Event<H>, now: int)
    requires NoOverlap(w) && InTable(w) && Enabled(cfg, w, e) && Exact(w, e)
    ensures InTable(Apply(cfg, w, e, now)) <==> !Withdraws(w, e)
  {
    if e.EvRemove? || e.EvBan? { WithdrawIff(cfg, w, e, now); }
    else if e.EvConnected? { ConnectedInTable(cfg, w, e, now); }
    else if e.EvDisconnected? { DisconnectedInTable(cfg, w, e, now); }
    else if e.EvAdd? { AddInTable(cfg, w, e, now); }
    else if e.EvComplete? { CompleteInTable(cfg, w, e, now); }
    else if e.EvTake? { TakeInTable(cfg, w, e, now); }
    else { MoveInTable(cfg, w, e, now); }
  }

  /** Otherwise the dial's failure, unless it is the last allowed one, queues a state that is not in the
      table, and the scheduler may dial it as soon as its backoff has run out. */
  lemma Orphaned<H>(cfg: Config, w: World<H>, e: Event<H>, now: int, later: int)
    requires NoOverlap(w) && Enabled(cfg, w, e) && Exact(w, e) && Withdraws(w, e)
    requires w.s.peers[e.id] in w.inflight && !GivesUp(cfg, w.s.recs[w.s.peers[e.id]])
    ensures var v, h := Apply(cfg, w, e, now), w.s.peers[e.id];
            && Enabled(cfg, v, EvComplete(h, true))
            && var x := Apply(cfg, v, EvComplete(h, true), later);
               && h in x.s.queue && !Live(x.s, h) && MayTake(x.s, h, x.s.recs[h].next) && x.s.recs[h].id == e.id
               && e.id !in x.s.peers && x.s.dialing == w.s.dialing - {e.id} && (e.EvBan? ==> e.id in x.s.banned)
  {
    WithdrawnState(cfg, w, e, now);
    OrphanedState(cfg, Apply(cfg, w, e, now), e.id, w.s.peers[e.id], later);
  }

  lemma WithdrawnState<H>(cfg: Config, w: World<H>, e: Event<H>, now: int)
    requires NoOverlap(w) && Enabled(cfg, w, e) && Withdraws(w, e)
    ensures var v, h := Apply(cfg, w, e, now), w.s.peers[e.id];
            && h in v.s.recs && v.s.recs[h] == w.s.recs[h] && v.s.recs[h].id == e.id && e.id !in v.s.peers
            && v.inflight == w.inflight && v.s.dialing == w.s.dialing && (e.EvBan? ==> e.id in v.s.banned)
  {
  }

  lemma OrphanedState<H>(cfg: Config, v: World<H>, id: string, h: H, later: int)
    requires h in v.inflight && h in v.s.recs && v.s.recs[h].id == id && id !in v.s.peers && !GivesUp(cfg, v.s.recs[h])
    ensures var x := Apply(cfg, v, EvComplete(h, true), later);
            && h in x.s.queue && !Live(x.s, h) && MayTake(x.s, h, x.s.recs[h].next) && x.s.recs[h].id == id
            && id !in x.s.peers && x.s.dialing == v.s.dialing - {id}
            && (id in v.s.banned ==> id in x.s.banned)
  {
  }

  // ---------------------------------------------------------------- bans

  // A banned peer is not in the table, unless it is permanent.
  ghost predicate BansHold<H>(s: Sched<H>) {
    forall id :: id in s.peers && s.peers[id] in s.recs && !s.recs[s.peers[id]].permanent ==> id !in s.banned
  }

  lemma NotifyBans<H>(cfg: Config, w: World<H>, e: Event<H>, now: int)
    requires Wf(w.s) && BansHold(w.s) && Enabled(cfg, w, e)
             && (e.EvConnected? || e.EvDisconnected? || e.EvRemove? || e.EvBan?)
    ensures BansHold(Apply(cfg, w, e, now).s)
  {
    if e.EvDisconnected? { DisconnectBans(w.s, cfg, e.id, now, e.ix); }
  }

  lemma DisconnectBans<H>(s: Sched<H>, cfg: Config, id: string, now: int, ix: bool)
    requires Wf(s) && BansHold(s)
    ensures BansHold(NotifyDisconnected(s, cfg, id, now, ix))
  {
  }

  lemma AddBans<H>(s: Sched<H>, id: string, addrs: seq<string>, priority: int, now: int, h: H)
    requires Wf(s) && BansHold(s) && h !in s.recs
    ensures BansHold(AddPeer(s, id, addrs, priority, now, h))
  {
  }

  lemma CompleteBans<H>(s: Sched<H>, cfg: Config, h: H, failed: bool, now: int)
    requires Wf(s) && BansHold(s) && h in s.recs
    ensures BansHold(Complete(s, cfg, h, failed, now))
  {
  }

  lemma EventBans<H>(cfg: Config, w: World<H>, e: Event<H>, now: int)
    requires Wf(w.s) && BansHold(w.s) && Enabled(cfg, w, e)
    ensures BansHold(Apply(cfg, w, e, now).s)
  {
    if e.EvAdd? { AddBans(w.s, e.id, e.addrs, e.priority, now, e.h); }
    else if e.EvComplete? { CompleteBans(w.s, cfg, e.h, e.failed, now); }
    else if e.EvConnected? || e.EvDisconnected? || e.EvRemove? || e.EvBan? { NotifyBans(cfg, w, e, now); }
  }

  // ---------------------------------------------------------------- runs

  // A state that the scheduler should dial.
  ghost predicate Wanted<H>(s: Sched<H>, h: H) {
    Live(s, h) && (s.recs[h].permanent || s.recs[h].id !in s.banned)
  }

  /** In every run in which nobody is removed or banned mid-dial, every state that is taken from the
      queue, and every state whose dial starts, is in the table and not banned, unless permanent. */
  lemma {:induction false} StartsWanted<H>(cfg: Config, peers: seq<StaticPeer>, hs: seq<H>, start: int,
                                           run: seq<World<H>>, evs: seq<Event<H>>, at: seq<int>, i: nat)
    requires |peers| == |hs| && Distinct(hs) && DistinctIds(peers)
    requires IsRun(cfg, run, evs, at) && run[0] == Init(peers, hs, start) && i < |run|
    requires forall k :: 0 <= k < |evs| ==>
             Exact(run[k], evs[k]) && !MidDial(run[k], evs[k]) && !Withdraws(run[k], evs[k])
    ensures NoOverlap(run[i]) && InTable(run[i]) && BansHold(run[i].s)
    ensures i < |evs| && evs[i].EvTake? ==> Wanted(run[i].s, evs[i].h)
    ensures i < |evs| && evs[i].EvAcquire? ==> run[i].pass.Waiting? && Wanted(run[i].s, run[i].pass.h)
  {
    RunNoOverlap(cfg, peers, hs, start, run, evs, at, i);
    if i == 0 {
      BootInTable(peers, hs, start);
    } else {
      StartsWanted(cfg, peers, hs, start, run, evs, at, i - 1);
      EventInTableIff(cfg, run[i - 1], evs[i - 1], at[i - 1]);
      EventBans(cfg, run[i - 1], evs[i - 1], at[i - 1]);
    }
    if i < |evs| { WantedNow(cfg, run[i], evs[i]); }
  }

  lemma WantedNow<H>(cfg: Config, w: World<H>, e: Event<H>)
    requires InTable(w) && BansHold(w.s) && Enabled(cfg, w, e)
    ensures e.EvTake? ==> Wanted(w.s, e.h)
    ensures e.EvAcquire? ==> w.pass.Waiting? && Wanted(w.s, w.pass.h)
  {
    if e.EvAcquire? { assert w.pass.h in Busy(w); }
  }

  /** Until the context ends, no queued state of such a run is behind a dial of its own peer. */
  lemma QueuedNotDialed<H>(cfg: Config, peers: seq<StaticPeer>, hs: seq<H>, start: int,
                           run: seq<World<H>>, evs: seq<Event<H>>, at: seq<int>, i: nat, h: H)
    requires |peers| == |hs| && Distinct(hs) && DistinctIds(peers)
    requires IsRun(cfg, run, evs, at) && run[0] == Init(peers, hs, start) && i < |run|
    requires forall k :: 0 <= k < |evs| ==>
             Exact(run[k], evs[k]) && !MidDial(run[k], evs[k]) && !Withdraws(run[k], evs[k])
    requires !run[i].cancelled && h in run[i].s.queue
    ensures h in run[i].s.recs && run[i].s.recs[h].id !in run[i].s.dialing
  {
    StartsWanted(cfg, peers, hs, start, run, evs, at, i);
    RunSound(cfg, peers, hs, start, run, evs, at, i);
    NotDialed(run[i], h);
  }

  lemma NotDialed<H>(w: World<H>, h: H)
    requires NoOverlap(w) && InTable(w) && OneDial(w) && !w.cancelled && h in w.s.queue
    ensures h in w.s.recs && w.s.recs[h].id !in w.s.dialing
  {
    assert Live(w.s, h) && Apart1(w, h);
    forall g | g in Busy(w) ensures w.s.recs[g].id != w.s.recs[h].id { assert Live(w.s, g); }
  }

  lemma BootInTable<H>(peers: seq<StaticPeer>, hs: seq<H>, start: int)
    requires |peers| == |hs| && Distinct(hs) && DistinctIds(peers)
    ensures InTable(Init(peers, hs, start)) && BansHold(Boot(peers, hs, start))
  {
    var s := Boot(peers, hs, start);
    BootQueue(peers, hs, start);
    BootIdle(peers, hs, start);
    forall h | h in s.queue ensures Live(s, h) {
      var k :| 0 <= k < |hs| && hs[k] == h;
      BootRec(peers, hs, start, k);
      BootTable(peers, hs, start, k);
    }
  }
}
