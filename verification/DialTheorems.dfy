/** Run-level results about the dial scheduler that hold under any mix of events. */
module DialTheorems {
  import opened Common
  import opened DialMachine

  // The states being dialed: waiting for the semaphore or inside a dial goroutine.
  function Busy<H>(w: World<H>): multiset<H> {
    w.inflight + if w.pass.Waiting? then multiset{w.pass.h} else multiset{}
  }

  ghost predicate IdBusy<H>(w: World<H>, id: string) {
    exists h :: h in Busy(w) && h in w.s.recs && w.s.recs[h].id == id
  }

  // At most one dial per peer ID, and `dialing` marks it.
  ghost predicate DialedOnce<H>(w: World<H>) {
    && (forall h :: h in Busy(w) ==> h in w.s.recs && w.s.recs[h].id in w.s.dialing && Busy(w)[h] == 1)
    && (forall g, h :: g in Busy(w) && h in Busy(w) && w.s.recs[g].id == w.s.recs[h].id ==> g == h)
  }

  // `dialing` marks exactly the IDs being dialed until the context ends.
  ghost predicate OneDial<H>(w: World<H>) {
    DialedOnce(w) && (!w.cancelled ==> forall id :: id in w.s.dialing ==> IdBusy(w, id))
  }

  // A permanent state is in the table under its ID and accounted for; no other state shares its ID.
  ghost predicate Kept<H>(s: Sched<H>, h: H)
    requires h in s.recs
  {
    var r := s.recs[h];
    && (r.permanent ==>
          && r.isStatic && r.id in s.peers && s.peers[r.id] == h
          && (h in s.queue || r.id in s.dialing || r.connected))
    && (r.id in s.peers && s.peers[r.id] in s.recs && s.recs[s.peers[r.id]].permanent ==> s.peers[r.id] == h)
  }

  // States are never forgotten and keep their identity.
  ghost predicate Remembers<H>(s: Sched<H>, s': Sched<H>) {
    forall h :: h in s.recs ==>
      h in s'.recs && s'.recs[h].id == s.recs[h].id && s'.recs[h].permanent == s.recs[h].permanent
  }

  ghost predicate AllKept<H>(s: Sched<H>) {
    Wf(s) && forall h :: h in s.recs ==> Kept(s, h)
  }

  ghost predicate Sound<H>(cfg: Config, w: World<H>) {
    AllKept(w.s) && OneDial(w) && |w.inflight| + w.releasing <= cfg.concurrent
  }

  // ---------------------------------------------------------------- start

  // The booted tables in terms of the configured peers.
  lemma {:induction false} BootRec<H>(peers: seq<StaticPeer>, hs: seq<H>, now: int, k: nat)
    requires |peers| == |hs| && Distinct(hs) && k < |peers|
    ensures var s := Boot(peers, hs, now);
            && hs[k] in s.recs
            && s.recs[hs[k]] == NewRec(peers[k].id, peers[k].addrs, PriorityStatic, now, true, peers[k].permanent)
  {
    var n := |peers| - 1;
    if k < n {
      assert hs[k] != hs[n];
      BootRec(peers[..n], hs[..n], now, k);
    }
  }

  lemma {:induction false} BootHandles<H>(peers: seq<StaticPeer>, hs: seq<H>, now: int, h: H) returns (k: nat)
    requires |peers| == |hs| && h in Boot(peers, hs, now).recs
    ensures k < |peers| && hs[k] == h
  {
    var n := |peers| - 1;
    if hs[n] == h { k := n; } else { k := BootHandles(peers[..n], hs[..n], now, h); }
  }

  lemma {:induction false} BootIdle<H>(peers: seq<StaticPeer>, hs: seq<H>, now: int)
    requires |peers| == |hs|
    ensures Boot(peers, hs, now).dialing == {} && Boot(peers, hs, now).banned == map[]
  {
    if peers != [] { BootIdle(peers[..|peers| - 1], hs[..|peers| - 1], now); }
  }

  lemma {:induction false} BootTable<H>(peers: seq<StaticPeer>, hs: seq<H>, now: int, k: nat)
    requires |peers| == |hs| && DistinctIds(peers) && k < |peers|
    ensures peers[k].id in Boot(peers, hs, now).peers && Boot(peers, hs, now).peers[peers[k].id] == hs[k]
  {
    var n := |peers| - 1;
    if k < n {
      assert peers[k].id != peers[n].id;
      BootTable(peers[..n], hs[..n], now, k);
    }
  }

  lemma {:induction false} BootIds<H>(peers: seq<StaticPeer>, hs: seq<H>, now: int, id: string) returns (k: nat)
    requires |peers| == |hs| && id in Boot(peers, hs, now).peers
    ensures k < |peers| && peers[k].id == id
  {
    var n := |peers| - 1;
    if peers[n].id == id { k := n; } else { k := BootIds(peers[..n], hs[..n], now, id); }
  }

  lemma {:induction false} BootQueue<H>(peers: seq<StaticPeer>, hs: seq<H>, now: int)
    requires |peers| == |hs|
    ensures Boot(peers, hs, now).queue == multiset(hs)
  {
    if peers != [] {
      var n := |peers| - 1;
      BootQueue(peers[..n], hs[..n], now);
      assert hs == hs[..n] + [hs[n]];
    }
  }

  lemma BootKeeps<H>(peers: seq<StaticPeer>, hs: seq<H>, now: int)
    requires |peers| == |hs| && Distinct(hs) && DistinctIds(peers)
    ensures AllKept(Boot(peers, hs, now))
  {
    BootWf(peers, hs, now);
    var s := Boot(peers, hs, now);
    forall h | h in s.recs ensures Kept(s, h) {
      var k := BootHandles(peers, hs, now, h);
      BootRec(peers, hs, now, k);
      BootTable(peers, hs, now, k);
    }
  }

  lemma BootWf<H>(peers: seq<StaticPeer>, hs: seq<H>, now: int)
    requires |peers| == |hs| && Distinct(hs) && DistinctIds(peers)
    ensures Wf(Boot(peers, hs, now))
  {
    BootQueue(peers, hs, now);
    var s := Boot(peers, hs, now);
    forall id | id in s.peers ensures s.peers[id] in s.recs && s.recs[s.peers[id]].id == id {
      var k := BootIds(peers, hs, now, id);
      BootTable(peers, hs, now, k);
      BootRec(peers, hs, now, k);
    }
    forall h | h in s.queue ensures h in s.recs {
      var k :| 0 <= k < |hs| && hs[k] == h;
      BootRec(peers, hs, now, k);
    }
  }

  // ---------------------------------------------------------------- each section keeps the permanent peers

  lemma AddKeeps<H>(s: Sched<H>, id: string, addrs: seq<string>, priority: int, now: int, h: H)
    requires AllKept(s) && h !in s.recs
    ensures var s' := AddPeer(s, id, addrs, priority, now, h);
            AllKept(s') && Remembers(s, s') && s'.dialing == s.dialing
  {
    if !IsBanned(s, id, now) {
      var b := s.(banned := s.banned - {id});
      BannedKeeps(s, b);
      if id in s.peers {
        ChangeKeeps(b, s.peers[id], Readdress(b, s.peers[id], addrs));
      } else {
        InsertKeeps(b, NewRec(id, addrs, priority, now, false, false), h);
      }
    }
  }

  // Bans do not matter to the permanent peers.
  lemma BannedKeeps<H>(s: Sched<H>, s': Sched<H>)
    requires AllKept(s) && s' == s.(banned := s'.banned)
    ensures AllKept(s') && Remembers(s, s')
  {
    forall g | g in s'.recs ensures Kept(s', g) { assert Kept(s, g); }
  }

  lemma InsertKeeps<H>(s: Sched<H>, r: Rec, h: H)
    requires AllKept(s) && h !in s.recs && r.id !in s.peers && !r.permanent
    ensures AllKept(Insert(s, r, h)) && Remembers(s, Insert(s, r, h))
  {
    var s' := Insert(s, r, h);
    forall g | g in s'.recs ensures Kept(s', g) {
      if g != h { assert Kept(s, g); } else { NoOther(s, r.id); }
    }
  }

  lemma NoOther<H>(s: Sched<H>, id: string)
    requires AllKept(s) && id !in s.peers
    ensures forall g :: g in s.recs && s.recs[g].permanent ==> s.recs[g].id != id
  {
    forall g | g in s.recs && s.recs[g].permanent ensures s.recs[g].id != id { assert Kept(s, g); }
  }

  // One record changed without its identity, and a permanent state stayed where it was or better.
  lemma ChangeKeeps<H>(s: Sched<H>, h: H, s': Sched<H>)
    requires AllKept(s) && h in s.recs && s'.recs.Keys == s.recs.Keys && s'.peers == s.peers && s'.dialing == s.dialing
    requires forall g :: g in s.recs && g != h ==> s'.recs[g] == s.recs[g] && (g in s.queue ==> g in s'.queue)
    requires forall g :: g in s'.queue ==> g in s.queue || g == h
    requires var a, b := s.recs[h], s'.recs[h];
             && b.id == a.id && b.isStatic == a.isStatic && b.permanent == a.permanent
             && (b.permanent ==>
                 h in s'.queue || b.connected || ((h in s.queue ==> h in s'.queue) && b.connected == a.connected))
    ensures AllKept(s') && Remembers(s, s')
  {
    forall g | g in s'.recs ensures Kept(s', g) { assert Kept(s, g); }
  }

  lemma RemoveKeeps<H>(s: Sched<H>, id: string, ix: bool)
    requires AllKept(s)
    ensures var s' := RemovePeer(s, id, ix);
            AllKept(s') && Remembers(s, s') && s'.dialing == s.dialing
  {
    if id in s.peers && !s.recs[s.peers[id]].isStatic {
      assert Kept(s, s.peers[id]);
      DropKeeps(s, id, ix);
    }
  }

  lemma DropKeeps<H>(s: Sched<H>, id: string, ix: bool)
    requires AllKept(s) && id in s.peers && !s.recs[s.peers[id]].permanent
    ensures var s' := Dequeue(s, s.peers[id], ix).(peers := s.peers - {id});
            AllKept(s') && Remembers(s, s')
  {
    var s' := Dequeue(s, s.peers[id], ix).(peers := s.peers - {id});
    forall g | g in s'.recs ensures Kept(s', g) { assert Kept(s, g); }
  }

  lemma BanKeeps<H>(s: Sched<H>, id: string, until: int, ix: bool)
    requires AllKept(s)
    ensures var s' := BanPeer(s, id, until, ix);
            AllKept(s') && Remembers(s, s') && s'.dialing == s.dialing
  {
    if id in s.peers && !s.recs[s.peers[id]].permanent { DropKeeps(s, id, ix); }
    BannedKeeps(Withdraw(s, id, ix), BanPeer(s, id, until, ix));
  }

  lemma ConnectedKeeps<H>(s: Sched<H>, id: string, ix: bool)
    requires AllKept(s)
    ensures var s' := NotifyConnected(s, id, ix);
            AllKept(s') && Remembers(s, s') && s'.dialing == s.dialing
  {
    if id in s.peers { ChangeKeeps(s, s.peers[id], NotifyConnected(s, id, ix)); }
  }

  lemma DisconnectedKeeps<H>(s: Sched<H>, cfg: Config, id: string, now: int, ix: bool)
    requires AllKept(s) && Positioned(s, id, ix)
    ensures var s' := NotifyDisconnected(s, cfg, id, now, ix);
            AllKept(s') && Remembers(s, s') && s'.dialing == s.dialing
  {
    if id in s.peers {
      assert Kept(s, s.peers[id]);
      ChangeKeeps(s, s.peers[id], NotifyDisconnected(s, cfg, id, now, ix));
    }
  }

  lemma CleanupKeeps<H>(s: Sched<H>, now: int)
    requires AllKept(s)
    ensures var s' := Cleanup(s, now);
            AllKept(s') && Remembers(s, s') && s'.dialing == s.dialing
  {
    BannedKeeps(s, Cleanup(s, now));
  }

  lemma TakeKeeps<H>(s: Sched<H>, h: H)
    requires AllKept(s) && h in s.recs
    ensures AllKept(Take(s, h)) && Remembers(s, Take(s, h))
  {
    var s' := Take(s, h);
    forall g | g in s'.recs ensures Kept(s', g) { assert Kept(s, g); }
  }

  lemma CompleteKeeps<H>(s: Sched<H>, cfg: Config, h: H, failed: bool, now: int)
    requires AllKept(s) && h in s.recs
    ensures AllKept(Complete(s, cfg, h, failed, now)) && Remembers(s, Complete(s, cfg, h, failed, now))
  {
    var r := s.recs[h].(lastAttempt := now);
    var d := s.(dialing := s.dialing - {r.id});
    if !failed {
      LandKeeps(s, h, Complete(s, cfg, h, failed, now));
    } else if GivesUp(cfg, r) {
      var until := now + cfg.backoffMax;
      GiveUpKeeps(s, d, h, Failed(r), until);
    } else {
      RequeueKeeps(s, d, h, Later(cfg, Failed(r), now));
    }
  }

  lemma RequeueKeeps<H>(s: Sched<H>, d: Sched<H>, h: H, r: Rec)
    requires AllKept(s) && h in s.recs && d == s.(dialing := s.dialing - {s.recs[h].id})
    requires r.id == s.recs[h].id && r.isStatic == s.recs[h].isStatic && r.permanent == s.recs[h].permanent
    ensures AllKept(Requeue(d, h, r, false)) && Remembers(s, Requeue(d, h, r, false))
  {
    LandKeeps(s, h, Requeue(d, h, r, false));
  }

  // The dialed state is connected or queued again.
  lemma LandKeeps<H>(s: Sched<H>, h: H, s': Sched<H>)
    requires AllKept(s) && h in s.recs && s'.recs.Keys == s.recs.Keys && s'.peers == s.peers
    requires s'.dialing == s.dialing - {s.recs[h].id} && s.queue <= s'.queue
    requires forall g :: g in s.recs && g != h ==> s'.recs[g] == s.recs[g]
    requires forall g :: g in s'.queue ==> g in s.queue || g == h
    requires var a, b := s.recs[h], s'.recs[h];
             b.id == a.id && b.isStatic == a.isStatic && b.permanent == a.permanent && (h in s'.queue || b.connected)
    ensures AllKept(s') && Remembers(s, s')
  {
    forall g | g in s'.recs ensures Kept(s', g) {
      assert Kept(s, g) && Kept(s, h);
      assert g in s.queue ==> g in s'.queue;
    }
  }

  lemma GiveUpKeeps<H>(s: Sched<H>, d: Sched<H>, h: H, r: Rec, until: int)
    requires AllKept(s) && h in s.recs && d == s.(dialing := s.dialing - {s.recs[h].id})
    requires r.id == s.recs[h].id && r.isStatic == s.recs[h].isStatic && !r.permanent && !s.recs[h].permanent
    ensures AllKept(GiveUp(d, h, r, until)) && Remembers(s, GiveUp(d, h, r, until))
  {
    var s' := GiveUp(d, h, r, until);
    assert Kept(s, h);
    forall g | g in s'.recs ensures Kept(s', g) { assert Kept(s, g); }
  }

  // ---------------------------------------------------------------- each event keeps the world sound

  // Events that leave the dials alone.
  lemma SameDials<H>(cfg: Config, w: World<H>, v: World<H>)
    requires Sound(cfg, w) && AllKept(v.s) && Remembers(w.s, v.s) && v.s.dialing == w.s.dialing
    requires v == w.(s := v.s, pass := v.pass, clock := v.clock)
    requires v.pass == w.pass || (!v.pass.Waiting? && !w.pass.Waiting?)
    ensures Sound(cfg, v)
  {
    assert Busy(v) == Busy(w);
    forall id | id in v.s.dialing && !v.cancelled ensures IdBusy(v, id) {
      assert IdBusy(w, id);
      var h :| h in Busy(w) && h in w.s.recs && w.s.recs[h].id == id;
      assert h in Busy(v);
    }
  }

  lemma BusyMinus<H>(w: World<H>, v: World<H>, h: H)
    requires h in w.inflight && v.inflight == w.inflight - multiset{h} && v.pass == w.pass
    requires Busy(w)[h] == 1
    ensures h !in Busy(v)
    ensures forall g :: g != h ==> Busy(v)[g] == Busy(w)[g]
  {
  }

  lemma TakeSound<H>(cfg: Config, w: World<H>, e: Event<H>, now: int)
    requires Sound(cfg, w) && Enabled(cfg, w, e) && e.EvTake?
    ensures GoodStep(cfg, w, Apply(cfg, w, e, now))
  {
    var v := Apply(cfg, w, e, now);
    TakeKeeps(w.s, e.h);
    TakeDials(w, v, e.h);
  }

  lemma TakeDials<H>(w: World<H>, v: World<H>, h: H)
    requires OneDial(w) && h in w.s.recs && w.s.recs[h].id !in w.s.dialing && Remembers(w.s, v.s)
    requires v.inflight == w.inflight && !w.pass.Waiting? && v.pass.Waiting? && v.pass.h == h
             && v.cancelled == w.cancelled
    requires v.s.dialing == w.s.dialing + {w.s.recs[h].id}
    ensures OneDial(v)
  {
    assert Busy(v) == Busy(w) + multiset{h};
    TakeOnce(w, v, h);
    forall id | id in v.s.dialing && !v.cancelled ensures IdBusy(v, id) { TakeBusy(w, v, h, id); }
  }

  lemma TakeOnce<H>(w: World<H>, v: World<H>, h: H)
    requires DialedOnce(w) && h in w.s.recs && w.s.recs[h].id !in w.s.dialing && Remembers(w.s, v.s)
    requires Busy(v) == Busy(w) + multiset{h} && v.s.dialing == w.s.dialing + {w.s.recs[h].id}
    ensures DialedOnce(v)
  {
    assert forall g :: g in Busy(v) ==> g in Busy(w) || g == h;
  }

  lemma TakeBusy<H>(w: World<H>, v: World<H>, h: H, id: string)
    requires h in w.s.recs && Remembers(w.s, v.s) && Busy(v) == Busy(w) + multiset{h}
    requires id == w.s.recs[h].id || IdBusy(w, id)
    ensures IdBusy(v, id)
  {
    if id == w.s.recs[h].id {
      assert h in Busy(v);
    } else {
      var g :| g in Busy(w) && g in w.s.recs && w.s.recs[g].id == id;
      assert g in Busy(v);
    }
  }

  lemma CompleteSound<H>(cfg: Config, w: World<H>, e: Event<H>, now: int)
    requires Sound(cfg, w) && Enabled(cfg, w, e) && e.EvComplete?
    ensures GoodStep(cfg, w, Apply(cfg, w, e, now))
  {
    CompleteKeeps(w.s, cfg, e.h, e.failed, now);
    CompleteMarks(w.s, cfg, e.h, e.failed, now);
    CompleteGood(cfg, w, Apply(cfg, w, e, now), e.h);
  }

  lemma CompleteMarks<H>(s: Sched<H>, cfg: Config, h: H, failed: bool, now: int)
    requires h in s.recs
    ensures Complete(s, cfg, h, failed, now).dialing == s.dialing - {s.recs[h].id}
  {
  }

  lemma CompleteGood<H>(cfg: Config, w: World<H>, v: World<H>, h: H)
    requires Sound(cfg, w) && h in w.inflight && AllKept(v.s) && Remembers(w.s, v.s)
    requires v.inflight == w.inflight - multiset{h} && v.releasing == w.releasing + 1
    requires v.pass == w.pass && v.cancelled == w.cancelled
    requires h in w.s.recs && v.s.dialing == w.s.dialing - {w.s.recs[h].id}
    ensures GoodStep(cfg, w, v)
  {
    CompleteDials(w, v, h);
  }

  lemma CompleteDials<H>(w: World<H>, v: World<H>, h: H)
    requires OneDial(w) && h in w.inflight && Remembers(w.s, v.s)
    requires v.inflight == w.inflight - multiset{h} && v.pass == w.pass && v.cancelled == w.cancelled
    requires h in w.s.recs && v.s.dialing == w.s.dialing - {w.s.recs[h].id}
    ensures OneDial(v)
  {
    assert h in Busy(w);
    BusyMinus(w, v, h);
    assert forall g :: g in Busy(v) ==> g in Busy(w) && g != h;
    forall id | id in v.s.dialing && !v.cancelled ensures IdBusy(v, id) {
      assert IdBusy(w, id);
      var g :| g in Busy(w) && g in w.s.recs && w.s.recs[g].id == id;
      assert g in Busy(v);
    }
  }

  lemma MoveSound<H>(cfg: Config, w: World<H>, e: Event<H>, now: int)
    requires Sound(cfg, w) && Enabled(cfg, w, e) && (e.EvAcquire? || e.EvCancel?)
    ensures GoodStep(cfg, w, Apply(cfg, w, e, now))
  {
    var v := Apply(cfg, w, e, now);
    if e.EvAcquire? {
      assert Busy(v) == Busy(w);
      forall id | id in v.s.dialing && !v.cancelled ensures IdBusy(v, id) { assert IdBusy(w, id); }
    } else {
      assert Busy(v) <= Busy(w);
    }
  }

  lemma TableSound<H>(cfg: Config, w: World<H>, s: Sched<H>, now: int)
    requires Sound(cfg, w) && AllKept(s) && Remembers(w.s, s) && s.dialing == w.s.dialing
    ensures GoodStep(cfg, w, w.(clock := now, s := s))
  {
    SameDials(cfg, w, w.(clock := now, s := s));
  }

  ghost predicate GoodStep<H>(cfg: Config, w: World<H>, v: World<H>) { Sound(cfg, v) && Remembers(w.s, v.s) }

  lemma AddSound<H>(cfg: Config, w: World<H>, e: Event<H>, now: int)
    requires Sound(cfg, w) && Enabled(cfg, w, e) && e.EvAdd?
    ensures GoodStep(cfg, w, Apply(cfg, w, e, now))
  {
    AddKeeps(w.s, e.id, e.addrs, e.priority, now, e.h);
    TableSound(cfg, w, AddPeer(w.s, e.id, e.addrs, e.priority, now, e.h), now);
  }

  lemma RemoveSound<H>(cfg: Config, w: World<H>, e: Event<H>, now: int)
    requires Sound(cfg, w) && Enabled(cfg, w, e) && e.EvRemove?
    ensures GoodStep(cfg, w, Apply(cfg, w, e, now))
  {
    RemoveKeeps(w.s, e.id, e.ix);
    TableSound(cfg, w, RemovePeer(w.s, e.id, e.ix), now);
  }

  lemma BanSound<H>(cfg: Config, w: World<H>, e: Event<H>, now: int)
    requires Sound(cfg, w) && Enabled(cfg, w, e) && e.EvBan?
    ensures GoodStep(cfg, w, Apply(cfg, w, e, now))
  {
    BanKeeps(w.s, e.id, e.until, e.ix);
    TableSound(cfg, w, BanPeer(w.s, e.id, e.until, e.ix), now);
  }

  lemma ConnectedSound<H>(cfg: Config, w: World<H>, e: Event<H>, now: int)
    requires Sound(cfg, w) && Enabled(cfg, w, e) && e.EvConnected?
    ensures GoodStep(cfg, w, Apply(cfg, w, e, now))
  {
    ConnectedKeeps(w.s, e.id, e.ix);
    TableSound(cfg, w, NotifyConnected(w.s, e.id, e.ix), now);
  }

  lemma DisconnectedSound<H>(cfg: Config, w: World<H>, e: Event<H>, now: int)
    requires Sound(cfg, w) && Enabled(cfg, w, e) && e.EvDisconnected?
    ensures GoodStep(cfg, w, Apply(cfg, w, e, now))
  {
    DisconnectedKeeps(w.s, cfg, e.id, now, e.ix);
    TableSound(cfg, w, NotifyDisconnected(w.s, cfg, e.id, now, e.ix), now);
  }

  lemma CleanupSound<H>(cfg: Config, w: World<H>, e: Event<H>, now: int)
    requires Sound(cfg, w) && Enabled(cfg, w, e) && e.EvCleanup?
    ensures GoodStep(cfg, w, Apply(cfg, w, e, now))
  {
    CleanupKeeps(w.s, now);
    TableSound(cfg, w, Cleanup(w.s, now), now);
  }

  lemma PassSound<H>(cfg: Config, w: World<H>, e: Event<H>, now: int)
    requires Sound(cfg, w) && Enabled(cfg, w, e) && (e.EvBeginPass? || e.EvEndPass?)
    ensures GoodStep(cfg, w, Apply(cfg, w, e, now))
  {
    SameDials(cfg, w, Apply(cfg, w, e, now));
  }

  lemma ReleaseSound<H>(cfg: Config, w: World<H>, e: Event<H>, now: int)
    requires Sound(cfg, w) && Enabled(cfg, w, e) && e.EvRelease?
    ensures GoodStep(cfg, w, Apply(cfg, w, e, now))
  {
    var v := Apply(cfg, w, e, now);
    forall id | id in v.s.dialing && !v.cancelled ensures IdBusy(v, id) { assert IdBusy(w, id); }
  }

  lemma EventSound<H>(cfg: Config, w: World<H>, e: Event<H>, now: int)
    requires Sound(cfg, w) && Enabled(cfg, w, e)
    ensures GoodStep(cfg, w, Apply(cfg, w, e, now))
  {
    match e
    case EvAdd(_, _, _, _) => AddSound(cfg, w, e, now);
    case EvRemove(_, _) => RemoveSound(cfg, w, e, now);
    case EvBan(_, _, _) => BanSound(cfg, w, e, now);
    case EvConnected(_, _) => ConnectedSound(cfg, w, e, now);
    case EvDisconnected(_, _) => DisconnectedSound(cfg, w, e, now);
    case EvCleanup => CleanupSound(cfg, w, e, now);
    case EvTake(_) => TakeSound(cfg, w, e, now);
    case EvComplete(_, _) => CompleteSound(cfg, w, e, now);
    case EvAcquire => MoveSound(cfg, w, e, now);
    case EvCancel => MoveSound(cfg, w, e, now);
    case EvRelease => ReleaseSound(cfg, w, e, now);
    case EvBeginPass => PassSound(cfg, w, e, now);
    case EvEndPass => PassSound(cfg, w, e, now);
  }

  lemma {:induction false} RunSound<H>(cfg: Config, peers: seq<StaticPeer>, hs: seq<H>, start: int,
                                       run: seq<World<H>>, evs: seq<Event<H>>, at: seq<int>, i: nat)
    requires |peers| == |hs| && Distinct(hs) && DistinctIds(peers)
    requires IsRun(cfg, run, evs, at) && run[0] == Init(peers, hs, start) && i < |run|
    ensures Sound(cfg, run[i]) && Remembers(run[0].s, run[i].s)
  {
    if i == 0 {
      BootKeeps(peers, hs, start);
      BootIdle(peers, hs, start);
    } else {
      RunSound(cfg, peers, hs, start, run, evs, at, i - 1);
      EventSound(cfg, run[i - 1], evs[i - 1], at[i - 1]);
    }
  }

  /** No permanent peer is ever lost: with distinct static IDs, after any events whatever, it is
      in the peer table and queued, connected or marked as dialing, and until the context ends the
      mark means that this very state is waiting for the semaphore or being dialed. There is at
      most one dial per ID and never more than ConcurrentDials in flight. */
  lemma PermanentNeverLost<H>(cfg: Config, peers: seq<StaticPeer>, hs: seq<H>, start: int,
                              run: seq<World<H>>, evs: seq<Event<H>>, at: seq<int>, i: nat)
    requires |peers| == |hs| && Distinct(hs) && DistinctIds(peers)
    requires IsRun(cfg, run, evs, at) && run[0] == Init(peers, hs, start) && i < |run|
    ensures var w := run[i];
            forall k :: 0 <= k < |peers| && peers[k].permanent ==>
              && peers[k].id in w.s.peers && w.s.peers[peers[k].id] == hs[k]
              && hs[k] in w.s.recs
              && (hs[k] in w.s.queue || w.s.recs[hs[k]].connected || peers[k].id in w.s.dialing)
              && (peers[k].id in w.s.dialing && !w.cancelled ==> hs[k] in Busy(w))
    ensures var w := run[i];
            && |w.inflight| <= cfg.concurrent
            && (forall g, h :: g in Busy(w) && h in Busy(w) ==>
                  && g in w.s.recs && h in w.s.recs && Busy(w)[h] == 1
                  && (w.s.recs[g].id == w.s.recs[h].id ==> g == h))
  {
    RunSound(cfg, peers, hs, start, run, evs, at, i);
    var w := run[i];
    forall k | 0 <= k < |peers| && peers[k].permanent
      ensures && peers[k].id in w.s.peers && w.s.peers[peers[k].id] == hs[k]
              && hs[k] in w.s.recs
              && (hs[k] in w.s.queue || w.s.recs[hs[k]].connected || peers[k].id in w.s.dialing)
              && (peers[k].id in w.s.dialing && !w.cancelled ==> hs[k] in Busy(w))
    {
      BootRec(peers, hs, start, k);
      assert hs[k] in run[0].s.recs;
      assert Kept(w.s, hs[k]);
      if peers[k].id in w.s.dialing && !w.cancelled {
        assert IdBusy(w, peers[k].id);
        var h :| h in Busy(w) && h in w.s.recs && w.s.recs[h].id == peers[k].id;
        assert Kept(w.s, h);
      }
    }
  }
}
