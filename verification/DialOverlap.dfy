/**
 When a peer state is in two places. A disconnect notification for a static or permanent peer whose dial
 is in flight queues the state that is being dialed. The heap is still intact then; it breaks when that
 dial fails and pushes the state once more. Here is what one event does, and what runs without such
 notifications keep; DialExact has the converse.
 */
module DialOverlap {
  import opened Common
  import opened DialMachine
  import opened DialTheorems
  import opened DialRedial

  // No state is queued twice or queued while it is being dialed.
  ghost predicate Apart1<H>(w: World<H>, h: H) { w.s.queue[h] + Busy(w)[h] <= 1 }

  ghost predicate NoOverlap<H>(w: World<H>) {
    InRecs(w) && forall h :: h in w.s.recs ==> Apart1(w, h)
  }

  // The stored heap position tells whether the state is queued, as in an intrusive heap it does.
  predicate Told<H>(w: World<H>, id: string, ix: bool) {
    ix == (id in w.s.peers && w.s.peers[id] in w.s.queue)
  }

  predicate Exact<H>(w: World<H>, e: Event<H>) {
    match e
    case EvRemove(id, ix) => Told(w, id, ix)
    case EvBan(id, _, ix) => Told(w, id, ix)
    case EvConnected(id, ix) => Told(w, id, ix)
    case EvDisconnected(id, ix) => Told(w, id, ix)
    case _ => true
  }

  // A disconnect notification for a static or permanent peer that is being dialed.
  predicate MidDial<H>(w: World<H>, e: Event<H>) {
    && e.EvDisconnected? && e.id in w.s.peers && w.s.peers[e.id] in w.s.recs
    && (w.s.recs[w.s.peers[e.id]].isStatic || w.s.recs[w.s.peers[e.id]].permanent)
    && w.s.peers[e.id] in Busy(w)
  }

  lemma SameApart1<H>(w: World<H>, v: World<H>, h: H)
    requires Apart1(w, h) && v.s.queue[h] <= w.s.queue[h] && v.inflight[h] <= w.inflight[h]
             && (Waits(v, h) ==> Waits(w, h))
    ensures Apart1(v, h)
  {
  }

  // The sections under the mutex keep the tables consistent and forget no state.
  ghost predicate Grows<H>(s: Sched<H>, s': Sched<H>) { Wf(s') && s.recs.Keys <= s'.recs.Keys }

  lemma RemoveGrows<H>(s: Sched<H>, id: string, ix: bool)
    requires Wf(s)
    ensures Grows(s, RemovePeer(s, id, ix))
  {
  }

  lemma BanGrows<H>(s: Sched<H>, id: string, until: int, ix: bool)
    requires Wf(s)
    ensures Grows(s, BanPeer(s, id, until, ix))
  {
  }

  lemma ConnectedGrows<H>(s: Sched<H>, id: string, ix: bool)
    requires Wf(s)
    ensures Grows(s, NotifyConnected(s, id, ix))
  {
  }

  lemma DisconnectedGrows<H>(s: Sched<H>, cfg: Config, id: string, now: int, ix: bool)
    requires Wf(s)
    ensures Grows(s, NotifyDisconnected(s, cfg, id, now, ix))
  {
  }

  lemma TableInRecs<H>(cfg: Config, w: World<H>, e: Event<H>, now: int)
    requires InRecs(w) && Enabled(cfg, w, e) && (e.EvRemove? || e.EvBan? || e.EvConnected? || e.EvDisconnected?)
    ensures InRecs(Apply(cfg, w, e, now))
  {
    var v := Apply(cfg, w, e, now);
    assert v == w.(clock := now, s := v.s);
    assert Grows(w.s, v.s) by {
      if e.EvRemove? { RemoveGrows(w.s, e.id, e.ix); }
      else if e.EvBan? { BanGrows(w.s, e.id, e.until, e.ix); }
      else if e.EvConnected? { ConnectedGrows(w.s, e.id, e.ix); }
      else { DisconnectedGrows(w.s, cfg, e.id, now, e.ix); }
    }
    StillInRecs(w, v);
  }

  lemma StillInRecs<H>(w: World<H>, v: World<H>)
    requires InRecs(w) && Grows(w.s, v.s) && v == w.(clock := v.clock, s := v.s)
    ensures InRecs(v)
  {
  }

  lemma MoveInRecs<H>(cfg: Config, w: World<H>, e: Event<H>, now: int)
    requires InRecs(w) && Enabled(cfg, w, e)
    requires e.EvTake? || e.EvAcquire? || e.EvBeginPass? || e.EvEndPass? || e.EvRelease? || e.EvCleanup? || e.EvCancel?
    ensures InRecs(Apply(cfg, w, e, now))
  {
  }

  lemma AddNoOverlap<H>(cfg: Config, w: World<H>, e: Event<H>, now: int)
    requires NoOverlap(w) && Enabled(cfg, w, e) && e.EvAdd?
    ensures NoOverlap(Apply(cfg, w, e, now))
  {
    var v := Apply(cfg, w, e, now);
    AddInRecs(cfg, w, e, now);
    assert e.h !in w.s.queue && e.h !in w.inflight && !Waits(w, e.h);
    forall h | h in v.s.recs ensures Apart1(v, h) {
      if h != e.h { assert Apart1(w, h); SameApart1(w, v, h); }
    }
  }

  lemma AddInRecs<H>(cfg: Config, w: World<H>, e: Event<H>, now: int)
    requires InRecs(w) && Enabled(cfg, w, e) && e.EvAdd?
    ensures InRecs(Apply(cfg, w, e, now))
  {
    if !IsBanned(w.s, e.id, now) && e.id !in w.s.peers {
      var b := Unbanned(w, e.id, now);
      InsertInRecs(b, Apply(cfg, w, e, now), NewRec(e.id, e.addrs, e.priority, now, false, false), e.h);
    }
  }

  lemma TakeNoOverlap<H>(cfg: Config, w: World<H>, e: Event<H>, now: int)
    requires NoOverlap(w) && Enabled(cfg, w, e) && (e.EvTake? || e.EvAcquire?)
    ensures NoOverlap(Apply(cfg, w, e, now))
  {
    var v := Apply(cfg, w, e, now);
    MoveInRecs(cfg, w, e, now);
    forall h | h in v.s.recs ensures Apart1(v, h) { assert Apart1(w, h); }
  }

  lemma CompleteNoOverlap<H>(cfg: Config, w: World<H>, e: Event<H>, now: int)
    requires NoOverlap(w) && Enabled(cfg, w, e) && e.EvComplete?
    ensures NoOverlap(Apply(cfg, w, e, now))
    ensures e.h !in w.s.queue
  {
    var v := Apply(cfg, w, e, now);
    CompleteInRecs(cfg, w, e, now);
    CompleteQueue(w.s, cfg, e.h, e.failed, now);
    assert Apart1(w, e.h);
    forall h | h in v.s.recs ensures Apart1(v, h) {
      assert Apart1(w, h);
      if h != e.h { SameApart1(w, v, h); }
    }
  }

  lemma CompleteQueue<H>(s: Sched<H>, cfg: Config, h: H, failed: bool, now: int)
    requires h in s.recs
    ensures Complete(s, cfg, h, failed, now).recs.Keys == s.recs.Keys
    ensures s.queue <= Complete(s, cfg, h, failed, now).queue <= s.queue + multiset{h}
  {
  }

  // Nothing enters the queue or starts a dial.
  predicate Shrinks<H>(s: Sched<H>, s': Sched<H>) { s'.queue <= s.queue && s'.recs.Keys == s.recs.Keys }

  lemma RemoveShrinks<H>(s: Sched<H>, id: string, ix: bool)
    ensures Shrinks(s, RemovePeer(s, id, ix))
  {
  }

  lemma BanShrinks<H>(s: Sched<H>, id: string, until: int, ix: bool)
    ensures Shrinks(s, BanPeer(s, id, until, ix))
  {
  }

  lemma ConnectedShrinks<H>(s: Sched<H>, id: string, ix: bool)
    ensures Shrinks(s, NotifyConnected(s, id, ix))
  {
  }

  lemma TableNoOverlap<H>(cfg: Config, w: World<H>, e: Event<H>, now: int)
    requires NoOverlap(w) && Enabled(cfg, w, e) && (e.EvRemove? || e.EvBan? || e.EvConnected?)
    ensures NoOverlap(Apply(cfg, w, e, now))
  {
    var v := Apply(cfg, w, e, now);
    TableInRecs(cfg, w, e, now);
    assert Shrinks(w.s, v.s) by {
      if e.EvRemove? { RemoveShrinks(w.s, e.id, e.ix); }
      else if e.EvBan? { BanShrinks(w.s, e.id, e.until, e.ix); }
      else { ConnectedShrinks(w.s, e.id, e.ix); }
    }
    forall h | h in v.s.recs ensures Apart1(v, h) {
      assert Apart1(w, h);
      SameApart1(w, v, h);
    }
  }

  lemma QuietNoOverlap<H>(cfg: Config, w: World<H>, e: Event<H>, now: int)
    requires NoOverlap(w) && Enabled(cfg, w, e)
    requires e.EvBeginPass? || e.EvEndPass? || e.EvRelease? || e.EvCleanup? || e.EvCancel?
    ensures NoOverlap(Apply(cfg, w, e, now))
  {
    var v := Apply(cfg, w, e, now);
    MoveInRecs(cfg, w, e, now);
    forall h | h in v.s.recs ensures Apart1(v, h) {
      assert Apart1(w, h);
      SameApart1(w, v, h);
    }
  }

  /** A disconnect notification overlaps queue and dial exactly when it reaches a static or permanent
      peer that is being dialed. */
  lemma DisconnectOverlapsIff<H>(cfg: Config, w: World<H>, e: Event<H>, now: int)
    requires NoOverlap(w) && Enabled(cfg, w, e) && Exact(w, e) && e.EvDisconnected?
    ensures NoOverlap(Apply(cfg, w, e, now)) <==> !MidDial(w, e)
  {
    var v := Apply(cfg, w, e, now);
    TableInRecs(cfg, w, e, now);
    if MidDial(w, e) {
      var h := w.s.peers[e.id];
      assert Apart1(w, h) && !Apart1(v, h);
    } else {
      forall h | h in v.s.recs ensures Apart1(v, h) {
        assert Apart1(w, h);
        if e.id in w.s.peers && h == w.s.peers[e.id] { assert Busy(v)[h] == Busy(w)[h]; } else { SameApart1(w, v, h); }
      }
    }
  }

  // ... and when that dial then fails without being given up, the state is in the queue twice.
  lemma QueuedTwice<H>(cfg: Config, w: World<H>, id: string, now: int, later: int)
    requires NoOverlap(w) && MidDial(w, EvDisconnected(id, false)) && w.s.peers[id] in w.inflight
    requires !GivesUp(cfg, w.s.recs[w.s.peers[id]])
    ensures var v := Apply(cfg, w, EvDisconnected(id, false), now);
            var h := w.s.peers[id];
            Enabled(cfg, v, EvComplete(h, true)) && Apply(cfg, v, EvComplete(h, true), later).s.queue[h] == 2
  {
    assert Apart1(w, w.s.peers[id]);
  }

  lemma EventNoOverlap<H>(cfg: Config, w: World<H>, e: Event<H>, now: int)
    requires NoOverlap(w) && Enabled(cfg, w, e) && Exact(w, e) && !MidDial(w, e)
    ensures NoOverlap(Apply(cfg, w, e, now))
  {
    if e.EvAdd? { AddNoOverlap(cfg, w, e, now); }
    else if e.EvTake? || e.EvAcquire? { TakeNoOverlap(cfg, w, e, now); }
    else if e.EvComplete? { CompleteNoOverlap(cfg, w, e, now); }
    else if e.EvDisconnected? { DisconnectOverlapsIff(cfg, w, e, now); }
    else if e.EvRemove? || e.EvBan? || e.EvConnected? { TableNoOverlap(cfg, w, e, now); }
    else { QuietNoOverlap(cfg, w, e, now); }
  }

  /** In every run without mid-dial disconnects of such peers, no state is queued twice or
      queued while dialed, so a state whose dial completes is never in the queue already. */
  lemma {:induction false} RunNoOverlap<H>(cfg: Config, peers: seq<StaticPeer>, hs: seq<H>, start: int,
                                           run: seq<World<H>>, evs: seq<Event<H>>, at: seq<int>, i: nat)
    requires |peers| == |hs| && Distinct(hs) && DistinctIds(peers)
    requires IsRun(cfg, run, evs, at) && run[0] == Init(peers, hs, start) && i < |run|
    requires forall k :: 0 <= k < |evs| ==> Exact(run[k], evs[k]) && !MidDial(run[k], evs[k])
    ensures NoOverlap(run[i])
    ensures i < |evs| && evs[i].EvComplete? ==> evs[i].h !in run[i].s.queue
  {
    if i == 0 {
      BootKeeps(peers, hs, start);
      BootQueue(peers, hs, start);
      forall h | h in run[0].s.recs ensures Apart1(run[0], h) {
        var k := BootHandles(peers, hs, start, h);
        DistinctCount(hs, k);
      }
    } else {
      RunNoOverlap(cfg, peers, hs, start, run, evs, at, i - 1);
      EventNoOverlap(cfg, run[i - 1], evs[i - 1], at[i - 1]);
    }
    if i < |evs| && evs[i].EvComplete? { CompleteNoOverlap(cfg, run[i], evs[i], at[i]); }
  }
}
