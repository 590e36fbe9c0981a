/**
 The scheduler object in a run: every call on it is an event of the state machine, in any order and
 any number. As long as no disconnect notification reaches a redialed peer in the middle of its dial,
 the heap is intact after every call, and what is proved about runs of the state machine holds of
 the object.
 */
module SchedulerRun {
  import opened Common
  import opened DialQueue
  import opened DialMachine
  import opened DialTheorems
  import opened DialRedial
  import opened DialOverlap
  import opened DialWithdrawn
  import opened Scheduler

  // A run of the state machine from the configured peers to world w, without mid-dial disconnects.
  ghost predicate LeadsTo(cfg: Config, statics: seq<StaticPeer>, handles: seq<PeerDialState>, start: int,
                          run: seq<World<PeerDialState>>, evs: seq<Event<PeerDialState>>, at: seq<int>,
                          w: World<PeerDialState>)
  {
    && |statics| == |handles| && Distinct(handles) && DistinctIds(statics)
    && IsRun(cfg, run, evs, at) && run[0] == Init(statics, handles, start) && run[|evs|] == w
    && forall k :: 0 <= k < |evs| ==> Calm(run[k], evs[k])
  }

  // The event states the positions truly and does not disconnect a redialed peer mid-dial.
  ghost predicate Calm(w: World<PeerDialState>, e: Event<PeerDialState>) { Exact(w, e) && !MidDial(w, e) }

  lemma LeadsOn(cfg: Config, statics: seq<StaticPeer>, handles: seq<PeerDialState>, start: int,
                run: seq<World<PeerDialState>>, evs: seq<Event<PeerDialState>>, at: seq<int>,
                w: World<PeerDialState>, e: Event<PeerDialState>, now: int, v: World<PeerDialState>)
    requires LeadsTo(cfg, statics, handles, start, run, evs, at, w)
    requires w.clock <= now && Enabled(cfg, w, e) && Calm(w, e) && v == Apply(cfg, w, e, now)
    ensures LeadsTo(cfg, statics, handles, start, run + [v], evs + [e], at + [now], v)
  {
    var r, x, y := run + [v], evs + [e], at + [now];
    forall i | 0 <= i < |x|
      ensures r[i].clock <= y[i] && Enabled(cfg, r[i], x[i]) && r[i + 1] == Apply(cfg, r[i], x[i], y[i])
              && Calm(r[i], x[i])
    {
      if i < |evs| {
        assert r[i] == run[i] && r[i + 1] == run[i + 1] && x[i] == evs[i] && y[i] == at[i] && Calm(run[i], evs[i]);
      } else {
        assert r[i] == w && x[i] == e && y[i] == now && r[i + 1] == v;
      }
    }
  }

  // ---------------------------------------------------------------- the events of the calls

  lemma RemoveEvent(cfg: Config, w: World<PeerDialState>, id: string, ix: bool, now: int)
    requires Told(w, id, ix)
    ensures var e := EvRemove(id, ix);
            Enabled(cfg, w, e) && Calm(w, e) && Apply(cfg, w, e, now).s == RemovePeer(w.s, id, ix)
  {
  }

  lemma BanEvent(cfg: Config, w: World<PeerDialState>, id: string, until: int, ix: bool, now: int)
    requires Told(w, id, ix)
    ensures var e := EvBan(id, until, ix);
            Enabled(cfg, w, e) && Calm(w, e) && Apply(cfg, w, e, now).s == BanPeer(w.s, id, until, ix)
  {
  }

  lemma ConnectedEvent(cfg: Config, w: World<PeerDialState>, id: string, ix: bool, now: int)
    requires Told(w, id, ix)
    ensures var e := EvConnected(id, ix);
            Enabled(cfg, w, e) && Calm(w, e) && Apply(cfg, w, e, now).s == NotifyConnected(w.s, id, ix)
  {
  }

  lemma DisconnectedEvent(cfg: Config, w: World<PeerDialState>, id: string, ix: bool, now: int)
    requires Told(w, id, ix) && !MidDial(w, EvDisconnected(id, false))
    ensures var e := EvDisconnected(id, ix);
            Enabled(cfg, w, e) && Calm(w, e) && Apply(cfg, w, e, now).s == NotifyDisconnected(w.s, cfg, id, now, ix)
  {
  }

  lemma AddEvent(cfg: Config, w: World<PeerDialState>, id: string, addrs: seq<string>, priority: int,
                 h: PeerDialState, now: int)
    requires h !in w.s.recs
    ensures var e := EvAdd(id, addrs, priority, h);
            Enabled(cfg, w, e) && Calm(w, e) && Apply(cfg, w, e, now).s == AddPeer(w.s, id, addrs, priority, now, h)
  {
  }

  lemma FinishEvent(cfg: Config, w: World<PeerDialState>, s: PeerDialState, failed: bool, now: int)
    requires s in w.inflight && s in w.s.recs
    ensures var e := EvComplete(s, failed);
            Enabled(cfg, w, e) && Calm(w, e) && Apply(cfg, w, e, now).s == Complete(w.s, cfg, s, failed, now)
  {
  }

  lemma TakeEvent(cfg: Config, w: World<PeerDialState>, s: PeerDialState, now: int)
    requires w.pass.Scanning? && MayTake(w.s, s, w.pass.now)
    ensures var e := EvTake(s);
            Enabled(cfg, w, e) && Calm(w, e) && Apply(cfg, w, e, now).s == Take(w.s, s)
  {
  }

  lemma MoveEvent(cfg: Config, w: World<PeerDialState>, e: Event<PeerDialState>, now: int)
    requires Enabled(cfg, w, e) && (e.EvBeginPass? || e.EvEndPass? || e.EvAcquire? || e.EvRelease? || e.EvCancel?)
    ensures Calm(w, e) && Apply(cfg, w, e, now).s == w.s
  {
  }

  /** A scheduler with the run of the state machine that it has gone through. */
  class Running {
    const sched: Scheduler
    const statics: seq<StaticPeer>
    ghost const handles: seq<PeerDialState>    // the states made for the configured peers
    ghost const start: int
    ghost var world: World<PeerDialState>
    ghost var run: seq<World<PeerDialState>>   // how the world came about
    ghost var evs: seq<Event<PeerDialState>>
    ghost var at: seq<int>

    ghost predicate History()
      reads this
    {
      LeadsTo(sched.config, statics, handles, start, run, evs, at, world)
    }

    // The scheduler's tables are t, and its heap is intact.
    ghost predicate Holds(t: Sched<PeerDialState>)
      reads sched, sched.queue, sched.all
    {
      sched.Valid() && sched.Intact() && sched.Abs() == t
    }

    ghost predicate Ok()
      reads this, sched, sched.queue, sched.all
    {
      History() && Holds(world.s)
    }

    static method Booted(config: Config, statics: seq<StaticPeer>, now: int)
      returns (s: Scheduler, hs: seq<PeerDialState>)
      ensures Distinct(hs) && |hs| == |statics|
      ensures s.Valid() && s.Intact() && s.Abs() == Boot(statics, hs, now) && s.config == config
      ensures fresh(s) && fresh(s.queue) && fresh(s.all)
    {
      s := new Scheduler(config);
      hs := s.AddStatics(statics, now);
    }

    constructor (config: Config, statics: seq<StaticPeer>, now: int)
      requires DistinctIds(statics)
      ensures Ok() && evs == [] && this.statics == statics && sched.config == config
      ensures fresh(sched) && fresh(sched.queue) && fresh(sched.all)
    {
      var s, hs := Booted(config, statics, now);
      sched, this.statics, handles, start := s, statics, hs, now;
      world, run, evs, at := Init(statics, hs, now), [Init(statics, hs, now)], [], [];
    }

    lemma HistoryNoOverlap()
      requires History()
      ensures NoOverlap(world)
    {
      assert forall k :: 0 <= k < |evs| ==> Calm(run[k], evs[k]);
      RunNoOverlap(sched.config, statics, handles, start, run, evs, at, |evs|);
    }

    // A state that is queued twice means that the heap is not intact.
    lemma TwiceBreaks(s: PeerDialState)
      requires multiset(sched.queue.items)[s] > 1
      ensures !sched.Intact()
    {
      if sched.Intact() {
        var q := sched.queue.items;
        assert s in multiset(q);
        var k :| 0 <= k < |q| && q[k] == s;
        DistinctCount(q, k);
      }
    }

    // So far nobody was removed or banned in the middle of a dial, and the context has not ended.
    ghost predicate Steady()
      reads this
      requires History()
    {
      !world.cancelled && forall k :: 0 <= k < |evs| ==> !Withdraws(run[k], evs[k])
    }

    lemma HeadFree()
      requires Ok() && Steady()
      ensures forall t :: t in sched.queue.items ==> t.ID !in sched.dialing
    {
      forall t | t in sched.queue.items ensures t.ID !in sched.dialing {
        assert t in multiset(sched.queue.items);
        assert forall k :: 0 <= k < |evs| ==> Calm(run[k], evs[k]);
        QueuedNotDialed(sched.config, statics, handles, start, run, evs, at, |evs|, t);
        assert world.s.recs[t] == RecOf(t);
      }
    }

    // With an intact heap the stored position says whether the state is queued.
    lemma StoredTrue(id: string)
      requires Holds(world.s)
      ensures Told(world, id, sched.Stored(id))
    {
    }

    // Adds an event to the history, which the scheduler has gone through already.
    ghost method Commit(e: Event<PeerDialState>, now: int)
      requires History() && world.clock <= now && Enabled(sched.config, world, e) && Calm(world, e)
      requires Holds(Apply(sched.config, world, e, now).s)
      modifies this
      ensures Ok() && world == Apply(sched.config, old(world), e, now)
    {
      var v := Apply(sched.config, world, e, now);
      LeadsOn(sched.config, statics, handles, start, run, evs, at, world, e, now, v);
      Enter(e, now, v);
    }

    ghost method Enter(e: Event<PeerDialState>, now: int, v: World<PeerDialState>)
      requires LeadsTo(sched.config, statics, handles, start, run + [v], evs + [e], at + [now], v) && Holds(v.s)
      modifies this
      ensures Ok() && world == v
    {
      world, run, evs, at := v, run + [v], evs + [e], at + [now];
    }

    method AddPeer(id: string, addrs: seq<string>, priority: int, now: int) returns (ghost h: PeerDialState)
      requires Ok() && world.clock <= now
      modifies this, sched, sched.queue, sched.all
      ensures Ok() && fresh(h) && fresh(sched.all - old(sched.all))
      ensures world == Apply(sched.config, old(world), EvAdd(id, addrs, priority, h), now)
    {
      h := Add(id, addrs, priority, now);
      AddEvent(sched.config, world, id, addrs, priority, h, now);
      Commit(EvAdd(id, addrs, priority, h), now);
    }

    method Add(id: string, addrs: seq<string>, priority: int, now: int) returns (ghost h: PeerDialState)
      requires Holds(world.s)
      modifies sched, sched.queue, sched.all
      ensures fresh(h) && h !in world.s.recs && fresh(sched.all - old(sched.all))
      ensures Holds(DialMachine.AddPeer(world.s, id, addrs, priority, now, h))
    {
      var s := AddOrReaddress(id, addrs, priority, now);
      if s == null { s := Spare(AddKnown(world.s, id, addrs, now)); }
      h := s;
    }

    // A state that only names the event.
    method Spare(ghost t: Sched<PeerDialState>) returns (h: PeerDialState)
      requires Holds(t)
      ensures fresh(h) && h !in t.recs && Holds(t)
    {
      h := new PeerDialState("", [], 0, 0, false, false);
    }

    method AddOrReaddress(id: string, addrs: seq<string>, priority: int, now: int) returns (s: PeerDialState?)
      requires Holds(world.s)
      modifies sched, sched.queue, sched.all
      ensures sched.all == old(sched.all) + if s == null then {} else {s}
      ensures s != null ==> fresh(s) && Holds(DialMachine.AddPeer(world.s, id, addrs, priority, now, s))
      ensures s == null ==> !NeedsState(world.s, id, now) && Holds(AddKnown(world.s, id, addrs, now))
    {
      s := sched.AddPeer(id, addrs, priority, now);
    }

    method RemovePeer(id: string, now: int)
      requires Ok() && world.clock <= now
      modifies this, sched, sched.queue, sched.all
      ensures Ok() && world == Apply(sched.config, old(world), EvRemove(id, old(sched.Stored(id))), now)
    {
      ghost var ix := Remove(id);
      RemoveEvent(sched.config, world, id, ix, now);
      Commit(EvRemove(id, ix), now);
    }

    method Remove(id: string) returns (ghost ix: bool)
      requires Holds(world.s)
      modifies sched, sched.queue, sched.all
      ensures ix == old(sched.Stored(id)) && Told(world, id, ix) && sched.all == old(sched.all)
      ensures Holds(DialMachine.RemovePeer(world.s, id, ix))
    {
      StoredTrue(id);
      ix := sched.Stored(id);
      sched.RemovePeer(id);
    }

    method BanPeer(id: string, duration: int, now: int) returns (ghost until: int)
      requires Ok() && world.clock <= now
      modifies this, sched, sched.queue, sched.all
      ensures Ok() && until == now + duration
      ensures world == Apply(sched.config, old(world), EvBan(id, until, old(sched.Stored(id))), now)
    {
      until := now + duration;
      ghost var ix := Ban(id, duration, now, until);
      BanEvent(sched.config, world, id, until, ix, now);
      Commit(EvBan(id, until, ix), now);
    }

    method Ban(id: string, duration: int, now: int, ghost until: int) returns (ghost ix: bool)
      requires Holds(world.s) && until == now + duration
      modifies sched, sched.queue, sched.all
      ensures ix == old(sched.Stored(id)) && Told(world, id, ix) && sched.all == old(sched.all)
      ensures Holds(DialMachine.BanPeer(world.s, id, until, ix))
    {
      StoredTrue(id);
      ix := sched.Stored(id);
      sched.BanPeer(id, duration, now);
    }

    method NotifyConnected(id: string, now: int)
      requires Ok() && world.clock <= now
      modifies this, sched, sched.queue, sched.all
      ensures Ok() && world == Apply(sched.config, old(world), EvConnected(id, old(sched.Stored(id))), now)
    {
      ghost var ix := Connected(id);
      ConnectedEvent(sched.config, world, id, ix, now);
      Commit(EvConnected(id, ix), now);
    }

    method Connected(id: string) returns (ghost ix: bool)
      requires Holds(world.s)
      modifies sched, sched.queue, sched.all
      ensures ix == old(sched.Stored(id)) && Told(world, id, ix) && sched.all == old(sched.all)
      ensures Holds(DialMachine.NotifyConnected(world.s, id, ix))
    {
      StoredTrue(id);
      ix := sched.Stored(id);
      sched.NotifyConnected(id);
    }

    method NotifyDisconnected(id: string, now: int)
      requires Ok() && world.clock <= now && !MidDial(world, EvDisconnected(id, false))
      modifies this, sched, sched.queue, sched.all
      ensures Ok() && world == Apply(sched.config, old(world), EvDisconnected(id, old(sched.Stored(id))), now)
    {
      ghost var ix := Disconnected(id, now);
      DisconnectedEvent(sched.config, world, id, ix, now);
      Commit(EvDisconnected(id, ix), now);
    }

    method Disconnected(id: string, now: int) returns (ghost ix: bool)
      requires Holds(world.s)
      modifies sched, sched.queue, sched.all
      ensures ix == old(sched.Stored(id)) && Told(world, id, ix) && sched.all == old(sched.all)
      ensures Holds(DialMachine.NotifyDisconnected(world.s, sched.config, id, now, ix))
    {
      StoredTrue(id);
      ix := sched.Stored(id);
      sched.NotifyDisconnected(id, now);
    }

    // Outside the mutex: the pass starts or ends, gets the semaphore or waits for it in vain; a dial gives it back.
    method Move(ghost e: Event<PeerDialState>, now: int)
      requires Ok() && world.clock <= now && Enabled(sched.config, world, e)
      requires e.EvBeginPass? || e.EvEndPass? || e.EvAcquire? || e.EvRelease? || e.EvCancel?
      modifies this
      ensures Ok() && world == Apply(sched.config, old(world), e, now)
    {
      MoveEvent(sched.config, world, e, now);
      Commit(e, now);
    }

    /** One round of the pass. What it takes is due and a minimum of the queue; as long as nobody was
        removed or banned mid-dial and the context has not ended, it takes nothing only when nothing is due. */
    method TakeDue(passNow: int, now: int) returns (s: PeerDialState?)
      requires Ok() && world.clock <= now && world.pass == Scanning(passNow)
      modifies this, sched, sched.queue, sched.all
      ensures Ok()
      ensures s == null ==> world == old(world)
      ensures s != null ==>
              Enabled(sched.config, old(world), EvTake(s)) && world == Apply(sched.config, old(world), EvTake(s), now)
      ensures s != null ==> s !in sched.queue.items && forall t :: t in sched.queue.items ==>
                s.NextDialTime < t.NextDialTime || (s.NextDialTime == t.NextDialTime && s.Priority <= t.Priority)
      ensures s == null && sched.queue.items != [] && sched.queue.items[0].ID !in sched.dialing ==>
                forall t :: t in sched.queue.items ==> t.NextDialTime > passNow
      ensures s == null && old(Steady()) ==> forall t :: t in sched.queue.items ==> t.NextDialTime > passNow
    {
      s := Due(passNow);
      if s != null {
        TakeEvent(sched.config, world, s, now);
        Commit(EvTake(s), now);
      } else if Steady() {
        HeadFree();
      }
    }

    method Due(passNow: int) returns (s: PeerDialState?)
      requires Holds(world.s)
      modifies sched, sched.queue, sched.all
      ensures sched.all == old(sched.all)
      ensures if s == null then Holds(world.s) else MayTake(world.s, s, passNow) && Holds(Take(world.s, s))
      ensures s != null ==> s !in sched.queue.items && forall t :: t in sched.queue.items ==>
                s.NextDialTime < t.NextDialTime || (s.NextDialTime == t.NextDialTime && s.Priority <= t.Priority)
      ensures s == null && sched.queue.items != [] && sched.queue.items[0].ID !in sched.dialing ==>
                forall t :: t in sched.queue.items ==> t.NextDialTime > passNow
    {
      s := sched.TakeDue(passNow);
    }

    /** A dial ends: its state is never queued, so the push finds the heap intact. */
    method FinishDial(s: PeerDialState, failed: bool, now: int)
      requires Ok() && world.clock <= now && s in world.inflight
      modifies this, sched, sched.queue, sched.all
      ensures Ok() && s in old(sched.all) && world == Apply(sched.config, old(world), EvComplete(s, failed), now)
    {
      NotQueued(s);
      Finish(s, failed, now);
      FinishEvent(sched.config, world, s, failed, now);
      Commit(EvComplete(s, failed), now);
    }

    method Finish(s: PeerDialState, failed: bool, now: int)
      requires Holds(world.s) && s in sched.all && s in world.s.recs && s.heapIndex < 0
      modifies sched, sched.queue, sched.all
      ensures sched.all == old(sched.all) && Holds(Complete(world.s, sched.config, s, failed, now))
    {
      sched.FinishDial(s, failed, now);
    }

    lemma NotQueued(s: PeerDialState)
      requires Ok() && s in world.inflight
      ensures s in sched.all && s in world.s.recs && s.heapIndex < 0
    {
      HistoryNoOverlap();
      assert s in Busy(world) && Apart1(world, s);
      assert s !in multiset(sched.queue.items);
    }

    method Cleanup(now: int)
      requires Ok() && world.clock <= now
      modifies this, sched
      ensures Ok() && world == Apply(sched.config, old(world), EvCleanup, now)
    {
      sched.Cleanup(now);
      Commit(EvCleanup, now);
    }

    /** After any calls, every configured permanent peer is in the scheduler's own table, and queued,
        connected or marked as being dialed; and the heap's root is before everything queued. */
    lemma NothingLost()
      requires Ok()
      ensures forall k :: 0 <= k < |statics| && statics[k].permanent ==>
                && statics[k].id in sched.peers && sched.peers[statics[k].id] == handles[k]
                && (handles[k] in sched.queue.items || handles[k].Connected || statics[k].id in sched.dialing)
      ensures forall t :: t in sched.queue.items ==>
                var s := sched.queue.items[0];
                s.NextDialTime < t.NextDialTime || (s.NextDialTime == t.NextDialTime && s.Priority <= t.Priority)
    {
      PermanentNeverLost(sched.config, statics, handles, start, run, evs, at, |evs|);
      forall k | 0 <= k < |statics| && statics[k].permanent
        ensures handles[k] in sched.queue.items || handles[k].Connected || statics[k].id in sched.dialing
      {
        assert handles[k] in world.s.queue ==> handles[k] in multiset(sched.queue.items);
        assert handles[k] in sched.all && world.s.recs[handles[k]] == RecOf(handles[k]);
      }
      if sched.queue.items != [] {
        RootIsLeast(sched.queue.items, sched.KeyMap());
        var s := sched.queue.items[0];
        forall t | t in sched.queue.items
          ensures s.NextDialTime < t.NextDialTime || (s.NextDialTime == t.NextDialTime && s.Priority <= t.Priority)
        {
          assert t in multiset(sched.queue.items);
          assert !KeyLess(sched.KeyMap()[t], sched.KeyMap()[s]);
        }
      }
    }
  }
}
