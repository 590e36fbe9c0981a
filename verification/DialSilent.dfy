/**
 Who is not dialed. What the calls on the scheduler do is told by the tables they leave, and from that
 by the log: for how long no dial starts for a peer that was removed, banned, connected or lost.
 */
module DialSilent {
  import opened Common
  import opened DialMachine
  import opened DialTheorems
  import opened DialRedial
  import opened DialOverlap
  import opened DialWithdrawn

  // ---------------------------------------------------------------- what the calls leave

  /** Removal takes a peer that is not static out of the table and its state out of the queue, and
      nothing else; a static peer is left as it was. */
  lemma RemovedGone<H>(cfg: Config, w: World<H>, e: Event<H>, now: int)
    requires NoOverlap(w) && Enabled(cfg, w, e) && Exact(w, e) && e.EvRemove?
    ensures var v := Apply(cfg, w, e, now);
            if e.id in w.s.peers && !w.s.recs[w.s.peers[e.id]].isStatic then
              && e.id !in v.s.peers && w.s.peers[e.id] !in v.s.queue
              && (forall q :: q != e.id ==> (q in v.s.peers <==> q in w.s.peers))
              && (forall q :: q in v.s.peers ==> v.s.peers[q] == w.s.peers[q])
              && (forall g :: g != w.s.peers[e.id] ==> v.s.queue[g] == w.s.queue[g])
              && v.s.recs == w.s.recs && v.s.banned == w.s.banned && v.s.dialing == w.s.dialing
            else v.s == w.s
  {
    if e.id in w.s.peers { assert Apart1(w, w.s.peers[e.id]); }
  }

  /** A ban is entered for any peer, and takes one that is not permanent out as removal does. */
  lemma BannedGone<H>(cfg: Config, w: World<H>, e: Event<H>, now: int)
    requires NoOverlap(w) && Enabled(cfg, w, e) && Exact(w, e) && e.EvBan?
    ensures var v := Apply(cfg, w, e, now);
            && e.id in v.s.banned && v.s.banned[e.id] == e.until
            && (forall q :: q != e.id ==> (q in v.s.banned <==> q in w.s.banned))
            && (forall q :: q != e.id && q in v.s.banned ==> v.s.banned[q] == w.s.banned[q])
            && (if e.id in w.s.peers && !w.s.recs[w.s.peers[e.id]].permanent then
                  && e.id !in v.s.peers && w.s.peers[e.id] !in v.s.queue
                  && (forall q :: q != e.id ==> (q in v.s.peers <==> q in w.s.peers))
                  && (forall q :: q in v.s.peers ==> v.s.peers[q] == w.s.peers[q])
                  && (forall g :: g != w.s.peers[e.id] ==> v.s.queue[g] == w.s.queue[g])
                  && v.s.recs == w.s.recs && v.s.dialing == w.s.dialing
                else v.s == w.s.(banned := v.s.banned))
  {
    if e.id in w.s.peers {
      assert Apart1(w, w.s.peers[e.id]);
      WithdrawnGone(w.s, e.id, e.ix);
    }
  }

  lemma WithdrawnGone<H>(s: Sched<H>, id: string, ix: bool)
    requires Wf(s) && id in s.peers && s.queue[s.peers[id]] <= 1 && ix == (s.peers[id] in s.queue)
    ensures var t := Withdraw(s, id, ix);
            && t.recs == s.recs && t.dialing == s.dialing && t.banned == s.banned
            && (if !s.recs[s.peers[id]].permanent then
                  && t.peers == s.peers - {id} && s.peers[id] !in t.queue
                  && forall g :: g != s.peers[id] ==> t.queue[g] == s.queue[g]
                else t == s)
  {
  }

  /** While a ban runs, adding the peer changes nothing; otherwise the ban is forgotten, and the peer gets
      new addresses, if any are given, or a new state that is due at once. */
  lemma AddedDue<H>(cfg: Config, w: World<H>, e: Event<H>, now: int)
    requires InRecs(w) && Enabled(cfg, w, e) && e.EvAdd?
    ensures var v := Apply(cfg, w, e, now);
            if e.id in w.s.banned && now < w.s.banned[e.id] then v.s == w.s
            else
              && e.id !in v.s.banned && (forall q :: q != e.id ==> (q in v.s.banned <==> q in w.s.banned))
              && e.id in v.s.peers && v.s.peers[e.id] in v.s.recs && v.s.dialing == w.s.dialing
              && var g := v.s.peers[e.id];
                 if e.id in w.s.peers then
                   && g == w.s.peers[e.id] && v.s.peers == w.s.peers && v.s.queue == w.s.queue
                   && v.s.recs[g] == w.s.recs[g].(addrs := if e.addrs == [] then w.s.recs[g].addrs else e.addrs)
                 else
                   && g == e.h && v.s.queue[g] == 1 && v.s.recs[g].next == now && v.s.recs[g].attempts == 0
                   && v.s.recs[g].id == e.id && v.s.recs[g].addrs == e.addrs && v.s.recs[g].priority == e.priority
                   && !v.s.recs[g].isStatic && !v.s.recs[g].permanent && !v.s.recs[g].connected
  {
    assert e.h !in w.s.queue;
  }

  /** A connection notification leaves the state connected, without failures, and out of the queue. */
  lemma ConnectedOut<H>(cfg: Config, w: World<H>, e: Event<H>, now: int)
    requires NoOverlap(w) && Enabled(cfg, w, e) && Exact(w, e) && e.EvConnected?
    ensures var v := Apply(cfg, w, e, now);
            if e.id in w.s.peers then
              var h := w.s.peers[e.id];
              && v.s.peers == w.s.peers && h !in v.s.queue && h in v.s.recs
              && v.s.recs[h].connected && v.s.recs[h].attempts == 0 && !v.s.recs[h].failed
              && v.s.recs[h].next == w.s.recs[h].next && v.s.recs[h].priority == w.s.recs[h].priority
            else v.s == w.s
  {
    if e.id in w.s.peers { assert Apart1(w, w.s.peers[e.id]); }
  }

  /** A disconnect notification leaves a static or permanent peer queued, due after the base backoff; any
      other peer is no longer connected, and that is all. */
  lemma DisconnectedDue<H>(cfg: Config, w: World<H>, e: Event<H>, now: int)
    requires NoOverlap(w) && Enabled(cfg, w, e) && Exact(w, e) && e.EvDisconnected?
    ensures var v := Apply(cfg, w, e, now);
            if e.id in w.s.peers then
              var h := w.s.peers[e.id];
              && v.s.peers == w.s.peers && h in v.s.recs && !v.s.recs[h].connected
              && v.s.recs[h].attempts == w.s.recs[h].attempts && v.s.recs[h].priority == w.s.recs[h].priority
              && (if w.s.recs[h].isStatic || w.s.recs[h].permanent then
                    v.s.queue[h] == 1 && v.s.recs[h].next == now + cfg.backoffBase
                  else v.s.queue == w.s.queue && v.s.recs[h].next == w.s.recs[h].next)
            else v.s == w.s
  {
    if e.id in w.s.peers { assert Apart1(w, w.s.peers[e.id]); }
  }

  /** Cleanup forgets the bans that have run out, and nobody can tell. */
  lemma CleanupUnseen<H>(cfg: Config, w: World<H>, now: int, id: string, later: int)
    requires now <= later
    ensures var v := Apply(cfg, w, EvCleanup, now);
            && (id in v.s.banned <==> id in w.s.banned && now <= w.s.banned[id])
            && (id in v.s.banned && later < v.s.banned[id] <==> id in w.s.banned && later < w.s.banned[id])
            && v.s == w.s.(banned := v.s.banned)
  {
  }

  // ---------------------------------------------------------------- silence

  // Nothing of this peer can be dialed before the given time.
  ghost predicate Barred<H>(w: World<H>, id: string, until: int) {
    id in w.s.peers ==>
      && w.s.peers[id] in w.s.recs && w.s.peers[id] !in Busy(w)
      && (w.s.peers[id] in w.s.queue ==> w.s.recs[w.s.peers[id]].next >= until)
  }

  // The pass goes by an earlier clock reading.
  ghost predicate PassBehind<H>(w: World<H>) { !w.pass.Idle? ==> w.pass.now <= w.clock }

  // The event does not let the peer in anew, or make it due before that time.
  ghost predicate KeepsOut<H>(cfg: Config, w: World<H>, e: Event<H>, now: int, id: string, until: int) {
    && (e.EvAdd? && e.id == id ==> id in w.s.peers || (id in w.s.banned && now < w.s.banned[id]))
    && (e.EvDisconnected? && e.id == id && Redialed(w.s, id) ==> now + cfg.backoffBase >= until)
  }

  predicate Redialed<H>(s: Sched<H>, id: string) {
    id in s.peers && s.peers[id] in s.recs && (s.recs[s.peers[id]].isStatic || s.recs[s.peers[id]].permanent)
  }

  lemma AddBarred<H>(cfg: Config, w: World<H>, e: Event<H>, now: int, id: string, until: int)
    requires NoOverlap(w) && Enabled(cfg, w, e) && Barred(w, id, until) && e.EvAdd?
    requires KeepsOut(cfg, w, e, now, id, until)
    ensures Barred(Apply(cfg, w, e, now), id, until)
  {
    assert Busy(Apply(cfg, w, e, now)) == Busy(w);
  }

  lemma TakenOutBarred<H>(cfg: Config, w: World<H>, e: Event<H>, now: int, id: string, until: int)
    requires NoOverlap(w) && Enabled(cfg, w, e) && Exact(w, e) && Barred(w, id, until) && (e.EvRemove? || e.EvBan?)
    ensures Barred(Apply(cfg, w, e, now), id, until)
  {
    if e.EvRemove? { RemovedGone(cfg, w, e, now); } else { BannedGone(cfg, w, e, now); }
    assert Busy(Apply(cfg, w, e, now)) == Busy(w);
  }

  lemma NotifyBarred<H>(cfg: Config, w: World<H>, e: Event<H>, now: int, id: string, until: int)
    requires NoOverlap(w) && Enabled(cfg, w, e) && Exact(w, e) && Barred(w, id, until)
    requires KeepsOut(cfg, w, e, now, id, until) && (e.EvConnected? || e.EvDisconnected?)
    ensures Barred(Apply(cfg, w, e, now), id, until)
  {
    assert Busy(Apply(cfg, w, e, now)) == Busy(w);
    if e.EvConnected? { ConnectedOut(cfg, w, e, now); } else { DisconnectedDue(cfg, w, e, now); }
  }

  lemma CompleteBarred<H>(cfg: Config, w: World<H>, e: Event<H>, now: int, id: string, until: int)
    requires NoOverlap(w) && InTable(w) && Enabled(cfg, w, e) && Barred(w, id, until) && e.EvComplete?
    ensures Barred(Apply(cfg, w, e, now), id, until)
  {
    assert e.h in Busy(w) && Live(w.s, e.h);
    assert w.s.recs[e.h].id != id;
    CompleteApartFrom(w.s, cfg, e.h, e.failed, now, id);
    assert forall g :: g in Busy(Apply(cfg, w, e, now)) ==> g in Busy(w);
  }

  // A dial of another peer.
  lemma CompleteApartFrom<H>(s: Sched<H>, cfg: Config, h: H, failed: bool, now: int, id: string)
    requires Wf(s) && h in s.recs && s.recs[h].id != id
    ensures var t := Complete(s, cfg, h, failed, now);
            && (id in t.peers <==> id in s.peers)
            && (id in s.peers ==>
                  && t.peers[id] == s.peers[id] && s.peers[id] in t.recs && t.recs[s.peers[id]] == s.recs[s.peers[id]]
                  && (s.peers[id] in t.queue <==> s.peers[id] in s.queue))
  {
  }

  lemma PassBarred<H>(cfg: Config, w: World<H>, e: Event<H>, now: int, id: string, until: int)
    requires NoOverlap(w) && PassBehind(w) && Enabled(cfg, w, e) && Barred(w, id, until) && w.clock <= now < until
    requires !e.EvAdd? && !e.EvRemove? && !e.EvBan? && !e.EvConnected? && !e.EvDisconnected? && !e.EvComplete?
    ensures Barred(Apply(cfg, w, e, now), id, until)
  {
    var v := Apply(cfg, w, e, now);
    assert forall g :: g in Busy(v) ==> g in Busy(w) || (e.EvTake? && g == e.h);
  }

  lemma EventBarred<H>(cfg: Config, w: World<H>, e: Event<H>, now: int, id: string, until: int)
    requires NoOverlap(w) && InTable(w) && PassBehind(w) && Enabled(cfg, w, e) && Exact(w, e)
    requires Barred(w, id, until) && KeepsOut(cfg, w, e, now, id, until) && w.clock <= now < until
    ensures Barred(Apply(cfg, w, e, now), id, until)
  {
    if e.EvAdd? { AddBarred(cfg, w, e, now, id, until); }
    else if e.EvRemove? || e.EvBan? { TakenOutBarred(cfg, w, e, now, id, until); }
    else if e.EvConnected? || e.EvDisconnected? { NotifyBarred(cfg, w, e, now, id, until); }
    else if e.EvComplete? { CompleteBarred(cfg, w, e, now, id, until); }
    else { PassBarred(cfg, w, e, now, id, until); }
  }

  // ---------------------------------------------------------------- silence in a run

  // True positions, and nobody disconnected, removed or banned in the middle of a dial.
  ghost predicate Undisturbed<H>(cfg: Config, peers: seq<StaticPeer>, hs: seq<H>, start: int,
                                 run: seq<World<H>>, evs: seq<Event<H>>, at: seq<int>)
  {
    && |peers| == |hs| && Distinct(hs) && DistinctIds(peers)
    && IsRun(cfg, run, evs, at) && run[0] == Init(peers, hs, start)
    && forall k :: 0 <= k < |evs| ==> Exact(run[k], evs[k]) && !MidDial(run[k], evs[k]) && !Withdraws(run[k], evs[k])
  }

  // Between these two logs no dial of the peer starts.
  ghost predicate NoStart<H>(before: seq<Entry<H>>, after: seq<Entry<H>>, id: string) {
    before <= after && forall k :: |before| <= k < |after| ==> !(after[k].Start? && after[k].id == id)
  }

  lemma {:induction false} RunBehind<H>(cfg: Config, peers: seq<StaticPeer>, hs: seq<H>, start: int,
                                        run: seq<World<H>>, evs: seq<Event<H>>, at: seq<int>, i: nat)
    requires Undisturbed(cfg, peers, hs, start, run, evs, at) && i < |run|
    ensures PassBehind(run[i])
  {
    if i > 0 { RunBehind(cfg, peers, hs, start, run, evs, at, i - 1); }
  }

  lemma EventQuiet<H>(cfg: Config, w: World<H>, e: Event<H>, now: int, id: string, until: int)
    requires NoOverlap(w) && InTable(w) && Enabled(cfg, w, e) && Barred(w, id, until)
    ensures NoStart(w.log, Apply(cfg, w, e, now).log, id)
  {
    if e.EvAcquire? {
      AcquireQuiet(cfg, w, now, id, until);
    } else {
      OnlyAcquireStarts(cfg, w, e, now, id);
    }
  }

  lemma AcquireQuiet<H>(cfg: Config, w: World<H>, now: int, id: string, until: int)
    requires InTable(w) && Enabled(cfg, w, EvAcquire) && Barred(w, id, until)
    ensures NoStart(w.log, Apply(cfg, w, EvAcquire, now).log, id)
  {
    assert w.pass.h in Busy(w) && Live(w.s, w.pass.h);
  }

  lemma OnlyAcquireStarts<H>(cfg: Config, w: World<H>, e: Event<H>, now: int, id: string)
    requires Enabled(cfg, w, e) && !e.EvAcquire?
    ensures NoStart(w.log, Apply(cfg, w, e, now).log, id)
  {
  }

  lemma NoStartOn<H>(a: seq<Entry<H>>, b: seq<Entry<H>>, c: seq<Entry<H>>, id: string)
    requires NoStart(a, b, id) && NoStart(b, c, id)
    ensures NoStart(a, c, id)
  {
    forall k | |a| <= k < |c| ensures !(c[k].Start? && c[k].id == id) {
      if k < |b| { assert c[k] == b[k]; }
    }
  }

  /** A peer that cannot be dialed before some time is not dialed before it, unless let in anew. */
  lemma {:induction false} StaysBarred<H>(cfg: Config, peers: seq<StaticPeer>, hs: seq<H>, start: int,
                                          run: seq<World<H>>, evs: seq<Event<H>>, at: seq<int>,
                                          r: nat, i: nat, id: string, until: int)
    requires Undisturbed(cfg, peers, hs, start, run, evs, at) && r <= i < |run| && Barred(run[r], id, until)
    requires forall j :: r <= j < i ==> at[j] < until && KeepsOut(cfg, run[j], evs[j], at[j], id, until)
    ensures Barred(run[i], id, until) && NoStart(run[r].log, run[i].log, id)
    decreases i
  {
    if r < i {
      var k := i - 1;
      StaysBarred(cfg, peers, hs, start, run, evs, at, r, k, id, until);
      StepFacts(cfg, peers, hs, start, run, evs, at, k);
      BarredStep(cfg, run[k], evs[k], at[k], run[i], id, until);
      NoStartOn(run[r].log, run[k].log, run[i].log, id);
    }
  }

  lemma StepFacts<H>(cfg: Config, peers: seq<StaticPeer>, hs: seq<H>, start: int,
                     run: seq<World<H>>, evs: seq<Event<H>>, at: seq<int>, k: nat)
    requires Undisturbed(cfg, peers, hs, start, run, evs, at) && k < |evs|
    ensures NoOverlap(run[k]) && InTable(run[k]) && BansHold(run[k].s) && PassBehind(run[k])
    ensures Enabled(cfg, run[k], evs[k]) && Exact(run[k], evs[k]) && run[k].clock <= at[k]
    ensures run[k + 1] == Apply(cfg, run[k], evs[k], at[k])
  {
    StartsWanted(cfg, peers, hs, start, run, evs, at, k);
    RunBehind(cfg, peers, hs, start, run, evs, at, k);
  }

  lemma BarredStep<H>(cfg: Config, w: World<H>, e: Event<H>, now: int, v: World<H>, id: string, until: int)
    requires NoOverlap(w) && InTable(w) && PassBehind(w) && Enabled(cfg, w, e) && Exact(w, e)
    requires Barred(w, id, until) && KeepsOut(cfg, w, e, now, id, until) && w.clock <= now < until
    requires v == Apply(cfg, w, e, now)
    ensures Barred(v, id, until) && NoStart(w.log, v.log, id)
  {
    EventBarred(cfg, w, e, now, id, until);
    EventQuiet(cfg, w, e, now, id, until);
  }

  lemma EventOut<H>(cfg: Config, w: World<H>, e: Event<H>, now: int, id: string)
    requires InRecs(w) && Enabled(cfg, w, e) && id !in w.s.peers && !(e.EvAdd? && e.id == id)
    ensures id !in Apply(cfg, w, e, now).s.peers
  {
    if e.EvComplete? {
      CompleteOut(w.s, cfg, e.h, e.failed, now, id);
    } else if e.EvAdd? {
      AddOut(w.s, e.id, e.addrs, e.priority, now, e.h, id);
    } else {
      OtherOut(cfg, w, e, now, id);
    }
  }

  lemma CompleteOut<H>(s: Sched<H>, cfg: Config, h: H, failed: bool, now: int, id: string)
    requires h in s.recs && id !in s.peers
    ensures id !in Complete(s, cfg, h, failed, now).peers
  {
  }

  lemma AddOut<H>(s: Sched<H>, p: string, addrs: seq<string>, priority: int, now: int, h: H, id: string)
    requires id !in s.peers && p != id
    ensures id !in AddPeer(s, p, addrs, priority, now, h).peers
  {
  }

  lemma OtherOut<H>(cfg: Config, w: World<H>, e: Event<H>, now: int, id: string)
    requires Enabled(cfg, w, e) && id !in w.s.peers && !e.EvAdd? && !e.EvComplete?
    ensures id !in Apply(cfg, w, e, now).s.peers
  {
  }

  lemma {:induction false} StaysOut<H>(cfg: Config, peers: seq<StaticPeer>, hs: seq<H>, start: int,
                                       run: seq<World<H>>, evs: seq<Event<H>>, at: seq<int>, r: nat, i: nat, id: string)
    requires Undisturbed(cfg, peers, hs, start, run, evs, at) && r <= i < |run| && id !in run[r].s.peers
    requires forall j :: r <= j < i ==> !(evs[j].EvAdd? && evs[j].id == id)
    ensures id !in run[i].s.peers
    decreases i
  {
    if r < i {
      var k := i - 1;
      StaysOut(cfg, peers, hs, start, run, evs, at, r, k, id);
      StepFacts(cfg, peers, hs, start, run, evs, at, k);
      EventOut(cfg, run[k], evs[k], at[k], id);
    }
  }

  /** After the removal of a peer that is not static, no dial of it starts until it is added again. */
  lemma RemovedSilent<H>(cfg: Config, peers: seq<StaticPeer>, hs: seq<H>, start: int,
                         run: seq<World<H>>, evs: seq<Event<H>>, at: seq<int>, r: nat, i: nat, id: string)
    requires Undisturbed(cfg, peers, hs, start, run, evs, at) && r < i <= |evs|
    requires evs[r].EvRemove? && evs[r].id == id && !IsStatic(run[r].s, id)
    requires forall j :: r < j < i ==> !(evs[j].EvAdd? && evs[j].id == id)
    ensures id !in run[i].s.peers && NoStart(run[r].log, run[i].log, id)
  {
    StepFacts(cfg, peers, hs, start, run, evs, at, r);
    RemovedGone(cfg, run[r], evs[r], at[r]);
    assert run[r + 1].log == run[r].log;
    OutSilent(cfg, peers, hs, start, run, evs, at, r + 1, i, id);
  }

  predicate IsStatic<H>(s: Sched<H>, id: string) {
    id in s.peers && s.peers[id] in s.recs && s.recs[s.peers[id]].isStatic
  }

  lemma OutSilent<H>(cfg: Config, peers: seq<StaticPeer>, hs: seq<H>, start: int,
                     run: seq<World<H>>, evs: seq<Event<H>>, at: seq<int>, r: nat, i: nat, id: string)
    requires Undisturbed(cfg, peers, hs, start, run, evs, at) && r <= i <= |evs| && id !in run[r].s.peers
    requires forall j :: r <= j < i ==> !(evs[j].EvAdd? && evs[j].id == id)
    ensures id !in run[i].s.peers && NoStart(run[r].log, run[i].log, id)
  {
    StaysOut(cfg, peers, hs, start, run, evs, at, r, i, id);
    var until := Later(at, i);
    forall j | r <= j < i ensures at[j] < until && KeepsOut(cfg, run[j], evs[j], at[j], id, until) {
      StaysOut(cfg, peers, hs, start, run, evs, at, r, j, id);
      TimesGrow(cfg, run, evs, at, j, i - 1);
    }
    StaysBarred(cfg, peers, hs, start, run, evs, at, r, i, id, until);
  }

  // A time after the first i events.
  function Later(at: seq<int>, i: nat): int
    requires i <= |at|
  {
    if i == 0 then 0 else at[i - 1] + 1
  }

  lemma {:induction false} TimesGrow<H>(cfg: Config, run: seq<World<H>>, evs: seq<Event<H>>, at: seq<int>,
                                        j: nat, k: nat)
    requires IsRun(cfg, run, evs, at) && j <= k < |evs|
    ensures at[j] <= at[k]
    decreases k
  {
    if j < k {
      TimesGrow(cfg, run, evs, at, j, k - 1);
      ClockIs(cfg, run[k - 1], evs[k - 1], at[k - 1]);
    }
  }

  lemma ClockIs<H>(cfg: Config, w: World<H>, e: Event<H>, now: int)
    requires Enabled(cfg, w, e)
    ensures Apply(cfg, w, e, now).clock == now
  {
  }

  /** After a ban no dial of the peer starts before it has run out, whoever adds it, unless it is permanent
      or banned anew for a shorter time. */
  lemma BannedSilent<H>(cfg: Config, peers: seq<StaticPeer>, hs: seq<H>, start: int,
                        run: seq<World<H>>, evs: seq<Event<H>>, at: seq<int>, r: nat, i: nat, id: string, until: int)
    requires Undisturbed(cfg, peers, hs, start, run, evs, at) && r < i <= |evs|
    requires evs[r].EvBan? && evs[r].id == id && evs[r].until >= until && !IsPermanent(run[r].s, id)
    requires forall j :: r < j < i ==> at[j] < until && !(evs[j].EvBan? && evs[j].id == id && evs[j].until < until)
    ensures BanStands(run[i].s, id, until) && NoStart(run[r].log, run[i].log, id)
  {
    StepFacts(cfg, peers, hs, start, run, evs, at, r);
    BannedGone(cfg, run[r], evs[r], at[r]);
    assert run[r + 1].log == run[r].log;
    StaysBanned(cfg, peers, hs, start, run, evs, at, r + 1, i, id, until);
    forall j | r + 1 <= j < i ensures at[j] < until && KeepsOut(cfg, run[j], evs[j], at[j], id, until) {
      StaysBanned(cfg, peers, hs, start, run, evs, at, r + 1, j, id, until);
    }
    StaysBarred(cfg, peers, hs, start, run, evs, at, r + 1, i, id, until);
  }

  predicate IsPermanent<H>(s: Sched<H>, id: string) {
    id in s.peers && s.peers[id] in s.recs && s.recs[s.peers[id]].permanent
  }

  // The peer is not in the table, and banned until then at least.
  predicate BanStands<H>(s: Sched<H>, id: string, until: int) {
    id !in s.peers && id in s.banned && s.banned[id] >= until
  }

  lemma EventBanned<H>(cfg: Config, w: World<H>, e: Event<H>, now: int, id: string, until: int)
    requires NoOverlap(w) && InTable(w) && Enabled(cfg, w, e) && Exact(w, e) && BanStands(w.s, id, until) && now < until
    requires !(e.EvBan? && e.id == id && e.until < until)
    ensures BanStands(Apply(cfg, w, e, now).s, id, until)
  {
    if e.EvAdd? { AddBanStands(w.s, e.id, e.addrs, e.priority, now, e.h, id, until); }
    else if e.EvBan? { BannedGone(cfg, w, e, now); }
    else if e.EvComplete? { CompleteBanStands(cfg, w, e, now, id, until); }
  }

  lemma AddBanStands<H>(s: Sched<H>, p: string, addrs: seq<string>, priority: int, now: int, h: H,
                        id: string, until: int)
    requires BanStands(s, id, until) && now < until
    ensures BanStands(AddPeer(s, p, addrs, priority, now, h), id, until)
  {
  }

  lemma CompleteBanStands<H>(cfg: Config, w: World<H>, e: Event<H>, now: int, id: string, until: int)
    requires InTable(w) && Enabled(cfg, w, e) && e.EvComplete? && BanStands(w.s, id, until)
    ensures BanStands(Apply(cfg, w, e, now).s, id, until)
  {
    assert e.h in Busy(w) && Live(w.s, e.h);
  }

  lemma {:induction false} StaysBanned<H>(cfg: Config, peers: seq<StaticPeer>, hs: seq<H>, start: int,
                                          run: seq<World<H>>, evs: seq<Event<H>>, at: seq<int>,
                                          r: nat, i: nat, id: string, until: int)
    requires Undisturbed(cfg, peers, hs, start, run, evs, at) && r <= i < |run| && BanStands(run[r].s, id, until)
    requires forall j :: r <= j < i ==> at[j] < until && !(evs[j].EvBan? && evs[j].id == id && evs[j].until < until)
    ensures BanStands(run[i].s, id, until)
    decreases i
  {
    if r < i {
      var k := i - 1;
      StaysBanned(cfg, peers, hs, start, run, evs, at, r, k, id, until);
      StepFacts(cfg, peers, hs, start, run, evs, at, k);
      EventBanned(cfg, run[k], evs[k], at[k], id, until);
    }
  }

  // Nobody lets the peer in again after it left the table, and nobody reports it lost.
  ghost predicate LeftAlone<H>(run: seq<World<H>>, evs: seq<Event<H>>, r: nat, i: nat, id: string)
    requires i <= |evs| < |run|
  {
    forall j :: r < j < i ==>
      && (evs[j].EvAdd? && evs[j].id == id ==> id in run[j].s.peers)
      && !(evs[j].EvDisconnected? && evs[j].id == id)
  }

  /** A peer reported connected while nothing of it is being dialed is not dialed until it is reported lost,
      or added again after it left the table. */
  lemma ConnectedSilent<H>(cfg: Config, peers: seq<StaticPeer>, hs: seq<H>, start: int,
                           run: seq<World<H>>, evs: seq<Event<H>>, at: seq<int>, r: nat, i: nat, id: string)
    requires Undisturbed(cfg, peers, hs, start, run, evs, at) && r < i <= |evs|
    requires evs[r].EvConnected? && evs[r].id == id && id in run[r].s.peers && run[r].s.peers[id] !in Busy(run[r])
    requires LeftAlone(run, evs, r, i, id)
    ensures NoStart(run[r].log, run[i].log, id)
  {
    var until := Later(at, i);
    StepFacts(cfg, peers, hs, start, run, evs, at, r);
    ConnectedOut(cfg, run[r], evs[r], at[r]);
    SameBusy(cfg, run[r], evs[r], at[r]);
    assert Barred(run[r + 1], id, until);
    forall j | r + 1 <= j < i ensures at[j] < until && KeepsOut(cfg, run[j], evs[j], at[j], id, until) {
      TimesGrow(cfg, run, evs, at, j, i - 1);
    }
    StaysBarred(cfg, peers, hs, start, run, evs, at, r + 1, i, id, until);
  }

  lemma SameBusy<H>(cfg: Config, w: World<H>, e: Event<H>, now: int)
    requires Enabled(cfg, w, e) && (e.EvConnected? || e.EvDisconnected?)
    ensures var v := Apply(cfg, w, e, now); Busy(v) == Busy(w) && v.log == w.log
  {
  }

  /** A static or permanent peer reported lost is queued, and no dial of it starts within the base backoff,
      unless it is added again after it left the table. */
  lemma LostWaits<H>(cfg: Config, peers: seq<StaticPeer>, hs: seq<H>, start: int,
                     run: seq<World<H>>, evs: seq<Event<H>>, at: seq<int>, r: nat, i: nat, id: string)
    requires Undisturbed(cfg, peers, hs, start, run, evs, at) && r < i <= |evs|
    requires evs[r].EvDisconnected? && evs[r].id == id && Redialed(run[r].s, id)
    requires forall j :: r < j < i ==> at[j] < at[r] + cfg.backoffBase
    requires forall j :: r < j < i && evs[j].EvAdd? && evs[j].id == id ==> id in run[j].s.peers
    ensures run[r].s.peers[id] in run[r + 1].s.queue && NoStart(run[r].log, run[i].log, id)
  {
    var until := at[r] + cfg.backoffBase;
    StepFacts(cfg, peers, hs, start, run, evs, at, r);
    DisconnectedDue(cfg, run[r], evs[r], at[r]);
    SameBusy(cfg, run[r], evs[r], at[r]);
    assert Barred(run[r + 1], id, until);
    forall j | r + 1 <= j < i ensures at[j] < until && KeepsOut(cfg, run[j], evs[j], at[j], id, until) {
      TimesGrow(cfg, run, evs, at, r, j);
    }
    StaysBarred(cfg, peers, hs, start, run, evs, at, r + 1, i, id, until);
  }
}
