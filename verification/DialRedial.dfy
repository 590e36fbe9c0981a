/**
 How often a peer is redialed: bounds on the dials started in runs made of AddPeer, scheduling
 passes, dial completions and cleanup.
 */
module DialRedial {
  import opened Common
  import opened DialMachine
  import opened DialTheorems

  predicate Plain<H>(e: Event<H>) {
    || e.EvAdd? || e.EvBeginPass? || e.EvEndPass? || e.EvTake? || e.EvAcquire? || e.EvComplete? || e.EvRelease?
    || e.EvCleanup?
  }

  function MaxStarts(cfg: Config): int { if cfg.maxAttempts > 1 then cfg.maxAttempts else 1 }

  // How many dials of state h were started.
  function Starts<H(==)>(log: seq<Entry<H>>, h: H): nat {
    if log == [] then 0
    else Starts(log[..|log| - 1], h) + if log[|log| - 1].Start? && log[|log| - 1].h == h then 1 else 0
  }

  // How many dials of peer id were started between lo and hi.
  function StartsWithin<H>(log: seq<Entry<H>>, id: string, lo: int, hi: int): nat {
    if log == [] then 0
    else StartsWithin(log[..|log| - 1], id, lo, hi) + if InWindow(log[|log| - 1], id, lo, hi) then 1 else 0
  }

  predicate InWindow<H>(e: Entry<H>, id: string, lo: int, hi: int) { e.Start? && e.id == id && lo <= e.at <= hi }

  // ---------------------------------------------------------------- the invariant

  predicate Live<H>(s: Sched<H>, h: H) {
    h in s.recs && s.recs[h].id in s.peers && s.peers[s.recs[h].id] == h
  }

  predicate Waits<H>(w: World<H>, h: H) { w.pass.Waiting? && w.pass.h == h }

  // A state in the table is at exactly one place, any other state at none.
  ghost predicate Located<H>(w: World<H>, h: H)
    requires h in w.s.recs
  {
    w.s.queue[h] + (if Waits(w, h) then 1 else 0) + w.inflight[h] + (if w.s.recs[h].connected then 1 else 0)
    == if Live(w.s, h) then 1 else 0
  }

  // A state that can still fail has failed as often as it was dialed, and not too often.
  ghost predicate Budget<H>(cfg: Config, w: World<H>, h: H)
    requires h in w.s.recs
  {
    var r := w.s.recs[h];
    !r.permanent ==>
      && Starts(w.log, h) <= MaxStarts(cfg)
      && (h in w.s.queue || Waits(w, h) ==> 0 <= r.attempts == Starts(w.log, h) < MaxStarts(cfg))
      && (h in w.inflight ==> 0 <= r.attempts == Starts(w.log, h) - 1 < MaxStarts(cfg))
  }

  // A dial of a state that was given up lies BackoffMax back, or the ban still covers that span.
  ghost predicate Apart<H>(cfg: Config, w: World<H>, e: Entry<H>) {
    && e.h in w.s.recs && w.s.recs[e.h].id == e.id && e.at <= w.clock
    && (e.Start? && !w.s.recs[e.h].permanent && !Live(w.s, e.h) ==>
          || (e.id !in w.s.peers && e.id in w.s.banned && w.s.banned[e.id] >= e.at + cfg.backoffMax)
          || w.clock >= e.at + cfg.backoffMax)
  }

  // Dials of one peer through different states are BackoffMax apart.
  ghost predicate Spaced<H>(cfg: Config, w: World<H>) {
    forall i, j :: 0 <= i < j < |w.log| && w.log[i].Start? && w.log[j].Start? && w.log[i].id == w.log[j].id
                   && w.log[i].h != w.log[j].h && w.log[i].h in w.s.recs && !w.s.recs[w.log[i].h].permanent ==>
      w.log[j].at >= w.log[i].at + cfg.backoffMax
  }

  ghost predicate InRecs<H>(w: World<H>) {
    && Wf(w.s)
    && (forall h :: h in w.inflight ==> h in w.s.recs)
    && (w.pass.Waiting? ==> w.pass.h in w.s.recs)
  }

  ghost predicate AllLocated<H>(w: World<H>) { InRecs(w) && forall h :: h in w.s.recs ==> Located(w, h) }

  ghost predicate AllBudget<H>(cfg: Config, w: World<H>) { forall h :: h in w.s.recs ==> Budget(cfg, w, h) }

  ghost predicate AllApart<H>(cfg: Config, w: World<H>) { forall i :: 0 <= i < |w.log| ==> Apart(cfg, w, w.log[i]) }

  ghost predicate Bounded<H>(cfg: Config, w: World<H>) {
    AllLocated(w) && AllBudget(cfg, w) && AllApart(cfg, w) && Spaced(cfg, w)
  }

  lemma {:induction false} StartsZero<H>(log: seq<Entry<H>>, h: H)
    requires forall i :: 0 <= i < |log| ==> log[i].h != h
    ensures Starts(log, h) == 0
  {
    if log != [] { StartsZero(log[..|log| - 1], h); }
  }

  lemma StartsAppend<H>(log: seq<Entry<H>>, e: Entry<H>, h: H)
    ensures Starts(log + [e], h) == Starts(log, h) + if e.Start? && e.h == h then 1 else 0
  {
    assert (log + [e])[..|log|] == log;
  }

  // ---------------------------------------------------------------- where the states are

  // Everything about state h that Located looks at is the same.
  lemma SameLocated<H>(w: World<H>, v: World<H>, h: H)
    requires h in w.s.recs && h in v.s.recs && Located(w, h)
    requires v.s.queue[h] == w.s.queue[h] && v.inflight[h] == w.inflight[h] && Waits(v, h) == Waits(w, h)
    requires v.s.recs[h].connected == w.s.recs[h].connected && Live(v.s, h) == Live(w.s, h)
    ensures Located(v, h)
  {
  }

  lemma InsertLocated<H>(b: World<H>, v: World<H>, r: Rec, h: H)
    requires AllLocated(b) && r.id !in b.s.peers && h !in b.s.recs && !r.connected
    requires v == b.(s := Insert(b.s, r, h))
    ensures AllLocated(v)
  {
    InsertInRecs(b, v, r, h);
    InsertedLocated(b, v, r, h);
    forall g | g in b.s.recs ensures g != h && Located(v, g) {
      assert Located(b, g);
      SameLocated(b, v, g);
    }
  }

  lemma InsertedLocated<H>(b: World<H>, v: World<H>, r: Rec, h: H)
    requires InRecs(b) && r.id !in b.s.peers && h !in b.s.recs && !r.connected
    requires v == b.(s := Insert(b.s, r, h))
    ensures Located(v, h)
  {
    assert h !in b.s.queue && h !in b.inflight;
  }

  lemma InsertInRecs<H>(b: World<H>, v: World<H>, r: Rec, h: H)
    requires InRecs(b) && r.id !in b.s.peers && h !in b.s.recs && v == b.(s := Insert(b.s, r, h))
    ensures InRecs(v)
  {
  }

  lemma ReaddressLocated<H>(b: World<H>, v: World<H>, h: H, addrs: seq<string>)
    requires AllLocated(b) && v == b.(s := Readdress(b.s, h, addrs))
    ensures AllLocated(v)
  {
    forall g | g in v.s.recs ensures Located(v, g) { assert Located(b, g); SameLocated(b, v, g); }
  }

  lemma TakeLocated<H>(cfg: Config, w: World<H>, e: Event<H>, now: int)
    requires AllLocated(w) && Enabled(cfg, w, e) && e.EvTake?
    ensures AllLocated(Apply(cfg, w, e, now))
  {
    var v := Apply(cfg, w, e, now);
    forall g | g in v.s.recs ensures Located(v, g) {
      assert Located(w, g);
      if g != e.h { SameLocated(w, v, g); }
    }
  }

  lemma AcquireLocated<H>(cfg: Config, w: World<H>, e: Event<H>, now: int)
    requires AllLocated(w) && Enabled(cfg, w, e) && e.EvAcquire?
    ensures AllLocated(Apply(cfg, w, e, now))
  {
    var v := Apply(cfg, w, e, now);
    forall g | g in v.s.recs ensures Located(v, g) {
      assert Located(w, g);
      if g != w.pass.h { SameLocated(w, v, g); }
    }
  }

  lemma CompleteLocated<H>(cfg: Config, w: World<H>, e: Event<H>, now: int)
    requires AllLocated(w) && Enabled(cfg, w, e) && e.EvComplete?
    ensures AllLocated(Apply(cfg, w, e, now))
  {
    var v := Apply(cfg, w, e, now);
    CompleteInRecs(cfg, w, e, now);
    assert Located(w, e.h);
    assert Live(w.s, e.h) && w.inflight[e.h] == 1;
    CompleteHere(cfg, w, e, now);
    forall g | g in v.s.recs ensures Located(v, g) {
      if g != e.h {
        assert Located(w, g);
        CompleteOther(w.s, cfg, e.h, e.failed, now, g);
        SameLocated(w, v, g);
      }
    }
  }

  // A dial that ends leaves every other state alone.
  lemma CompleteOther<H>(s: Sched<H>, cfg: Config, h: H, failed: bool, now: int, g: H)
    requires h in s.recs && Live(s, h) && g in s.recs && g != h
    ensures var t := Complete(s, cfg, h, failed, now);
            g in t.recs && t.recs[g] == s.recs[g] && t.queue[g] == s.queue[g] && Live(t, g) == Live(s, g)
  {
  }

  lemma CompleteInRecs<H>(cfg: Config, w: World<H>, e: Event<H>, now: int)
    requires InRecs(w) && Enabled(cfg, w, e) && e.EvComplete?
    ensures InRecs(Apply(cfg, w, e, now))
  {
    CompleteWf(w.s, cfg, e.h, e.failed, now);
  }

  lemma CompleteWf<H>(s: Sched<H>, cfg: Config, h: H, failed: bool, now: int)
    requires Wf(s) && h in s.recs
    ensures var t := Complete(s, cfg, h, failed, now);
            Wf(t) && t.recs.Keys == s.recs.Keys && forall g :: g in s.recs && g != h ==> t.recs[g] == s.recs[g]
  {
  }

  lemma CompleteHere<H>(cfg: Config, w: World<H>, e: Event<H>, now: int)
    requires Enabled(cfg, w, e) && e.EvComplete? && Located(w, e.h) && Live(w.s, e.h) && w.inflight[e.h] == 1
    ensures e.h in Apply(cfg, w, e, now).s.recs && Located(Apply(cfg, w, e, now), e.h)
  {
  }

  // ---------------------------------------------------------------- how often they were dialed

  lemma InsertBudget<H>(cfg: Config, b: World<H>, v: World<H>, r: Rec, h: H)
    requires AllBudget(cfg, b) && InRecs(b) && h !in b.s.recs && r.attempts == 0
    requires v == b.(s := Insert(b.s, r, h))
    requires forall i :: 0 <= i < |b.log| ==> b.log[i].h != h
    ensures AllBudget(cfg, v)
  {
    StartsZero(b.log, h);
    forall g | g in v.s.recs ensures Budget(cfg, v, g) { if g != h { assert Budget(cfg, b, g); } }
  }

  lemma ReaddressBudget<H>(cfg: Config, b: World<H>, v: World<H>, h: H, addrs: seq<string>)
    requires AllBudget(cfg, b) && v == b.(s := Readdress(b.s, h, addrs))
    ensures AllBudget(cfg, v)
  {
    forall g | g in v.s.recs ensures Budget(cfg, v, g) { assert Budget(cfg, b, g); }
  }

  lemma TakeBudget<H>(cfg: Config, w: World<H>, e: Event<H>, now: int)
    requires AllBudget(cfg, w) && Enabled(cfg, w, e) && e.EvTake?
    ensures AllBudget(cfg, Apply(cfg, w, e, now))
  {
    var v := Apply(cfg, w, e, now);
    forall g | g in v.s.recs ensures Budget(cfg, v, g) {
      assert Budget(cfg, w, g);
      assert g in v.s.queue ==> g in w.s.queue;
    }
  }

  lemma AcquireBudget<H>(cfg: Config, w: World<H>, e: Event<H>, now: int)
    requires AllBudget(cfg, w) && AllLocated(w) && Enabled(cfg, w, e) && e.EvAcquire?
    ensures AllBudget(cfg, Apply(cfg, w, e, now))
  {
    var v := Apply(cfg, w, e, now);
    forall g | g in v.s.recs ensures Budget(cfg, v, g) {
      assert Budget(cfg, w, g) && Located(w, g);
      StartsAppend(w.log, v.log[|w.log|], g);
    }
  }

  lemma CompleteBudget<H>(cfg: Config, w: World<H>, e: Event<H>, now: int)
    requires AllBudget(cfg, w) && AllLocated(w) && Enabled(cfg, w, e) && e.EvComplete?
    ensures AllBudget(cfg, Apply(cfg, w, e, now))
  {
    var v := Apply(cfg, w, e, now);
    forall g | g in v.s.recs ensures Budget(cfg, v, g) {
      assert Budget(cfg, w, g) && Located(w, g);
      if e.failed {
        StartsAppend(w.log, v.log[|w.log|], g);
        FailedBudget(cfg, w, v, e.h, now, g);
      }
    }
  }

  lemma FailedBudget<H>(cfg: Config, w: World<H>, v: World<H>, h: H, now: int, g: H)
    requires h in w.inflight && h in w.s.recs && v.s == Complete(w.s, cfg, h, true, now) && g in w.s.recs
    requires Budget(cfg, w, g) && Located(w, g) && Starts(v.log, g) == Starts(w.log, g)
    requires v.inflight == w.inflight - multiset{h} && v.pass == w.pass
    ensures Budget(cfg, v, g)
  {
  }

  // ---------------------------------------------------------------- how far apart

  // Liveness of the states in the log is the same, and so are the tables but for bans run out.
  lemma SameApart<H>(cfg: Config, w: World<H>, v: World<H>, e: Entry<H>)
    requires Apart(cfg, w, e) && w.clock <= v.clock && e.h in v.s.recs
    requires v.s.recs[e.h].id == w.s.recs[e.h].id && v.s.recs[e.h].permanent == w.s.recs[e.h].permanent
    requires Live(v.s, e.h) == Live(w.s, e.h)
    requires e.id !in w.s.peers && e.id in w.s.banned ==>
               || (e.id !in v.s.peers && e.id in v.s.banned && v.s.banned[e.id] == w.s.banned[e.id])
               || w.s.banned[e.id] <= v.clock
    ensures Apart(cfg, v, e)
  {
  }

  lemma AddApart<H>(cfg: Config, w: World<H>, e: Event<H>, now: int)
    requires AllApart(cfg, w) && InRecs(w) && Enabled(cfg, w, e) && e.EvAdd? && w.clock <= now
    ensures AllApart(cfg, Apply(cfg, w, e, now))
  {
    var v := Apply(cfg, w, e, now);
    forall i | 0 <= i < |v.log| ensures Apart(cfg, v, v.log[i]) {
      assert Apart(cfg, w, w.log[i]);
      SameApart(cfg, w, v, w.log[i]);
    }
  }

  lemma QuietApart<H>(cfg: Config, w: World<H>, e: Event<H>, now: int)
    requires AllApart(cfg, w) && Enabled(cfg, w, e) && w.clock <= now
    requires e.EvTake? || e.EvCleanup? || e.EvBeginPass? || e.EvEndPass? || e.EvRelease?
    ensures AllApart(cfg, Apply(cfg, w, e, now))
  {
    var v := Apply(cfg, w, e, now);
    forall i | 0 <= i < |v.log| ensures Apart(cfg, v, v.log[i]) {
      assert Apart(cfg, w, w.log[i]);
      SameApart(cfg, w, v, w.log[i]);
    }
  }

  lemma AcquireApart<H>(cfg: Config, w: World<H>, e: Event<H>, now: int)
    requires AllApart(cfg, w) && AllLocated(w) && Enabled(cfg, w, e) && e.EvAcquire? && w.clock <= now
    ensures AllApart(cfg, Apply(cfg, w, e, now))
  {
    var v := Apply(cfg, w, e, now);
    assert Located(w, w.pass.h);
    forall i | 0 <= i < |v.log| ensures Apart(cfg, v, v.log[i]) {
      if i < |w.log| { assert Apart(cfg, w, w.log[i]); SameApart(cfg, w, v, w.log[i]); }
    }
  }

  lemma CompleteApart<H>(cfg: Config, w: World<H>, e: Event<H>, now: int)
    requires AllApart(cfg, w) && AllLocated(w) && Enabled(cfg, w, e) && e.EvComplete? && w.clock <= now
    ensures AllApart(cfg, Apply(cfg, w, e, now))
  {
    var v := Apply(cfg, w, e, now);
    assert Located(w, e.h) && Live(w.s, e.h);
    forall i | 0 <= i < |v.log| ensures Apart(cfg, v, v.log[i]) {
      if i < |w.log| {
        assert Apart(cfg, w, w.log[i]);
        if w.log[i].h != e.h {
          CompleteOther(w.s, cfg, e.h, e.failed, now, w.log[i].h);
          SameApart(cfg, w, v, w.log[i]);
        }
      }
    }
  }

  // A dial of a live state is BackoffMax after those of the states given up under its ID.
  lemma AcquireSpaced<H>(cfg: Config, w: World<H>, e: Event<H>, now: int)
    requires Spaced(cfg, w) && AllApart(cfg, w) && AllLocated(w) && Enabled(cfg, w, e) && e.EvAcquire? && w.clock <= now
    ensures Spaced(cfg, Apply(cfg, w, e, now))
  {
    assert Located(w, w.pass.h);
    assert forall i :: 0 <= i < |w.log| ==> Apart(cfg, w, w.log[i]);
  }

  lemma OtherSpaced<H>(cfg: Config, w: World<H>, v: World<H>)
    requires Spaced(cfg, w)
             && (v.log == w.log
                 || (|v.log| == |w.log| + 1 && v.log == w.log + [v.log[|w.log|]] && v.log[|w.log|].Fail?))
    requires forall i :: 0 <= i < |w.log| ==>
               w.log[i].h in w.s.recs && w.log[i].h in v.s.recs
               && v.s.recs[w.log[i].h].permanent == w.s.recs[w.log[i].h].permanent
    ensures Spaced(cfg, v)
  {
  }

  // ---------------------------------------------------------------- every event

  lemma QuietBounded<H>(cfg: Config, w: World<H>, e: Event<H>, now: int)
    requires Bounded(cfg, w) && Enabled(cfg, w, e) && w.clock <= now
    requires e.EvCleanup? || e.EvBeginPass? || e.EvEndPass? || e.EvRelease?
    ensures Bounded(cfg, Apply(cfg, w, e, now))
  {
    var v := Apply(cfg, w, e, now);
    QuietApart(cfg, w, e, now);
    forall g | g in v.s.recs ensures Located(v, g) { assert Located(w, g); SameLocated(w, v, g); }
    forall g | g in v.s.recs ensures Budget(cfg, v, g) { assert Budget(cfg, w, g); }
  }

  // AddPeer first forgets a ban that has run out, then changes the tables.
  function Unbanned<H>(w: World<H>, id: string, now: int): World<H> {
    w.(clock := now, s := if IsBanned(w.s, id, now) then w.s else w.s.(banned := w.s.banned - {id}))
  }

  lemma UnbannedKeeps<H>(cfg: Config, w: World<H>, id: string, now: int)
    requires AllLocated(w) && AllBudget(cfg, w)
    ensures AllLocated(Unbanned(w, id, now)) && AllBudget(cfg, Unbanned(w, id, now))
  {
    var b := Unbanned(w, id, now);
    forall g | g in b.s.recs ensures Located(b, g) { assert Located(w, g); SameLocated(w, b, g); }
    forall g | g in b.s.recs ensures Budget(cfg, b, g) { assert Budget(cfg, w, g); }
  }

  lemma AddBounded<H>(cfg: Config, w: World<H>, e: Event<H>, now: int)
    requires Bounded(cfg, w) && Enabled(cfg, w, e) && e.EvAdd? && w.clock <= now
    ensures Bounded(cfg, Apply(cfg, w, e, now))
  {
    var v := Apply(cfg, w, e, now);
    AddApart(cfg, w, e, now);
    forall i | 0 <= i < |w.log| ensures w.log[i].h in w.s.recs { assert Apart(cfg, w, w.log[i]); }
    OtherSpaced(cfg, w, v);
    AddPlaces(cfg, w, e, now);
  }

  lemma AddPlaces<H>(cfg: Config, w: World<H>, e: Event<H>, now: int)
    requires AllLocated(w) && AllBudget(cfg, w) && Enabled(cfg, w, e) && e.EvAdd?
    requires forall i :: 0 <= i < |w.log| ==> w.log[i].h in w.s.recs
    ensures AllLocated(Apply(cfg, w, e, now)) && AllBudget(cfg, Apply(cfg, w, e, now))
  {
    var b, v := Unbanned(w, e.id, now), Apply(cfg, w, e, now);
    UnbannedKeeps(cfg, w, e.id, now);
    if IsBanned(w.s, e.id, now) {
    } else if e.id in w.s.peers {
      ReaddressLocated(b, v, w.s.peers[e.id], e.addrs);
      ReaddressBudget(cfg, b, v, w.s.peers[e.id], e.addrs);
    } else {
      InsertLocated(b, v, NewRec(e.id, e.addrs, e.priority, now, false, false), e.h);
      InsertBudget(cfg, b, v, NewRec(e.id, e.addrs, e.priority, now, false, false), e.h);
    }
  }

  lemma TakeBounded<H>(cfg: Config, w: World<H>, e: Event<H>, now: int)
    requires Bounded(cfg, w) && Enabled(cfg, w, e) && e.EvTake? && w.clock <= now
    ensures Bounded(cfg, Apply(cfg, w, e, now))
  {
    TakeLocated(cfg, w, e, now);
    TakeBudget(cfg, w, e, now);
    QuietApart(cfg, w, e, now);
  }

  lemma CompleteBounded<H>(cfg: Config, w: World<H>, e: Event<H>, now: int)
    requires Bounded(cfg, w) && Enabled(cfg, w, e) && e.EvComplete? && w.clock <= now
    ensures Bounded(cfg, Apply(cfg, w, e, now))
  {
    var v := Apply(cfg, w, e, now);
    CompleteLocated(cfg, w, e, now);
    CompleteBudget(cfg, w, e, now);
    CompleteApart(cfg, w, e, now);
    forall i | 0 <= i < |w.log| ensures w.log[i].h in w.s.recs { assert Apart(cfg, w, w.log[i]); }
    CompletePermanent(w.s, cfg, e.h, e.failed, now);
    OtherSpaced(cfg, w, v);
  }

  lemma CompletePermanent<H>(s: Sched<H>, cfg: Config, h: H, failed: bool, now: int)
    requires h in s.recs
    ensures var t := Complete(s, cfg, h, failed, now);
            forall g :: g in s.recs ==> g in t.recs && t.recs[g].permanent == s.recs[g].permanent
  {
  }

  lemma EventBounded<H>(cfg: Config, w: World<H>, e: Event<H>, now: int)
    requires Bounded(cfg, w) && Enabled(cfg, w, e) && Plain(e) && w.clock <= now
    ensures Bounded(cfg, Apply(cfg, w, e, now))
  {
    if e.EvAdd? {
      AddBounded(cfg, w, e, now);
    } else if e.EvTake? {
      TakeBounded(cfg, w, e, now);
    } else if e.EvAcquire? {
      AcquireLocated(cfg, w, e, now);
      AcquireBudget(cfg, w, e, now);
      AcquireApart(cfg, w, e, now);
      AcquireSpaced(cfg, w, e, now);
    } else if e.EvComplete? {
      CompleteBounded(cfg, w, e, now);
    } else {
      QuietBounded(cfg, w, e, now);
    }
  }

  lemma BootBounded<H>(cfg: Config, peers: seq<StaticPeer>, hs: seq<H>, start: int)
    requires |peers| == |hs| && Distinct(hs) && DistinctIds(peers)
    ensures Bounded(cfg, Init(peers, hs, start))
  {
    var w := Init(peers, hs, start);
    BootKeeps(peers, hs, start);
    BootQueue(peers, hs, start);
    forall h | h in w.s.recs ensures Located(w, h) && Budget(cfg, w, h) {
      var k := BootHandles(peers, hs, start, h);
      BootRec(peers, hs, start, k);
      BootTable(peers, hs, start, k);
      DistinctCount(hs, k);
    }
  }

  lemma DistinctCount<H>(hs: seq<H>, k: nat)
    requires Distinct(hs) && k < |hs|
    ensures multiset(hs)[hs[k]] == 1
  {
    assert hs == hs[..k] + [hs[k]] + hs[k + 1..];
    assert hs[k] !in hs[..k] && hs[k] !in hs[k + 1..];
    assert hs[k] !in multiset(hs[..k]) && hs[k] !in multiset(hs[k + 1..]);
  }

  lemma {:induction false} RunBounded<H>(cfg: Config, peers: seq<StaticPeer>, hs: seq<H>, start: int,
                                         run: seq<World<H>>, evs: seq<Event<H>>, at: seq<int>, i: nat)
    requires |peers| == |hs| && Distinct(hs) && DistinctIds(peers)
    requires IsRun(cfg, run, evs, at) && run[0] == Init(peers, hs, start) && i < |run|
    requires forall k :: 0 <= k < |evs| ==> Plain(evs[k])
    ensures Bounded(cfg, run[i])
  {
    if i == 0 {
      BootBounded(cfg, peers, hs, start);
    } else {
      RunBounded(cfg, peers, hs, start, run, evs, at, i - 1);
      EventBounded(cfg, run[i - 1], evs[i - 1], at[i - 1]);
    }
  }

  // ---------------------------------------------------------------- the redial bound

  // Starts of one ID in a window shorter than BackoffMax all go through one state.
  ghost predicate OneState<H>(log: seq<Entry<H>>, id: string, lo: int, hi: int) {
    forall i, j :: 0 <= i < j < |log| && InWindow(log[i], id, lo, hi) && InWindow(log[j], id, lo, hi) ==>
      log[i].h == log[j].h
  }

  lemma {:induction false} CountedOnce<H>(log: seq<Entry<H>>, id: string, lo: int, hi: int, h: H)
    requires forall i :: 0 <= i < |log| && InWindow(log[i], id, lo, hi) ==> log[i].h == h
    ensures StartsWithin(log, id, lo, hi) <= Starts(log, h)
  {
    if log != [] { CountedOnce(log[..|log| - 1], id, lo, hi, h); }
  }

  /** Redial bound: with no other events than AddPeer, passes, completions and cleanup, the dials
      of a peer that is not permanent number at most max(1, MaxDialAttempts) in any window shorter
      than BackoffMax. */
  lemma RedialBound<H>(cfg: Config, peers: seq<StaticPeer>, hs: seq<H>, start: int,
                       run: seq<World<H>>, evs: seq<Event<H>>, at: seq<int>, i: nat, id: string, lo: int, hi: int)
    requires |peers| == |hs| && Distinct(hs) && DistinctIds(peers)
    requires IsRun(cfg, run, evs, at) && run[0] == Init(peers, hs, start) && i < |run|
    requires forall k :: 0 <= k < |evs| ==> Plain(evs[k])
    requires forall k :: 0 <= k < |peers| && peers[k].id == id ==> !peers[k].permanent
    requires hi - lo < cfg.backoffMax
    ensures StartsWithin(run[i].log, id, lo, hi) <= MaxStarts(cfg)
  {
    RunBounded(cfg, peers, hs, start, run, evs, at, i);
    RunOrdinary(cfg, peers, hs, start, run, evs, at, i, id);
    var w := run[i];
    forall k | 0 <= k < |w.log| && w.log[k].id == id
      ensures w.log[k].h in w.s.recs && !w.s.recs[w.log[k].h].permanent
    {
      assert Apart(cfg, w, w.log[k]);
    }
    assert OneState(w.log, id, lo, hi);
    if k :| 0 <= k < |w.log| && InWindow(w.log[k], id, lo, hi) {
      CountedOnce(w.log, id, lo, hi, w.log[k].h);
      assert Budget(cfg, w, w.log[k].h);
    } else {
      NoneCounted(w.log, id, lo, hi);
    }
  }

  lemma {:induction false} NoneCounted<H>(log: seq<Entry<H>>, id: string, lo: int, hi: int)
    requires forall i :: 0 <= i < |log| ==> !InWindow(log[i], id, lo, hi)
    ensures StartsWithin(log, id, lo, hi) == 0
  {
    if log != [] { NoneCounted(log[..|log| - 1], id, lo, hi); }
  }

  // No event makes a state permanent.
  ghost predicate Ordinary<H>(s: Sched<H>, id: string) {
    forall h :: h in s.recs && s.recs[h].id == id ==> !s.recs[h].permanent
  }

  lemma EventOrdinary<H>(cfg: Config, w: World<H>, e: Event<H>, now: int, id: string)
    requires Enabled(cfg, w, e) && Plain(e) && Ordinary(w.s, id)
    ensures Ordinary(Apply(cfg, w, e, now).s, id)
  {
    if e.EvAdd? {
      AddOrdinary(w.s, e.id, e.addrs, e.priority, now, e.h, id);
    } else if e.EvComplete? {
      CompleteOrdinary(w.s, cfg, e.h, e.failed, now, id);
    }
  }

  lemma AddOrdinary<H>(s: Sched<H>, p: string, addrs: seq<string>, priority: int, now: int, h: H, id: string)
    requires Ordinary(s, id)
    ensures Ordinary(AddPeer(s, p, addrs, priority, now, h), id)
  {
  }

  lemma CompleteOrdinary<H>(s: Sched<H>, cfg: Config, h: H, failed: bool, now: int, id: string)
    requires Ordinary(s, id) && h in s.recs
    ensures Ordinary(Complete(s, cfg, h, failed, now), id)
  {
  }

  lemma {:induction false} RunOrdinary<H>(cfg: Config, peers: seq<StaticPeer>, hs: seq<H>, start: int,
                                          run: seq<World<H>>, evs: seq<Event<H>>, at: seq<int>, i: nat, id: string)
    requires |peers| == |hs| && Distinct(hs)
    requires IsRun(cfg, run, evs, at) && run[0] == Init(peers, hs, start) && i < |run|
    requires forall k :: 0 <= k < |evs| ==> Plain(evs[k])
    requires forall k :: 0 <= k < |peers| && peers[k].id == id ==> !peers[k].permanent
    ensures Ordinary(run[i].s, id)
  {
    if i == 0 {
      forall h | h in run[0].s.recs && run[0].s.recs[h].id == id ensures !run[0].s.recs[h].permanent {
        var k := BootHandles(peers, hs, start, h);
        BootRec(peers, hs, start, k);
      }
    } else {
      RunOrdinary(cfg, peers, hs, start, run, evs, at, i - 1, id);
      EventOrdinary(cfg, run[i - 1], evs[i - 1], at[i - 1], id);
    }
  }

  // ---------------------------------------------------------------- waiting out the backoff

  // A state that failed is not offered for dialing before its backoff has run out.
  ghost predicate WaitsOut<H>(cfg: Config, w: World<H>, e: Entry<H>) {
    e.Fail? ==>
      && e.h in w.s.recs
      && (e.h in w.s.queue ==> w.s.recs[e.h].next >= e.at + Backoff(cfg, e.k) || w.clock >= e.at + Backoff(cfg, e.k))
      && (Waits(w, e.h) || e.h in w.inflight ==> w.clock >= e.at + Backoff(cfg, e.k))
  }

  ghost predicate Late<H>(cfg: Config, log: seq<Entry<H>>) {
    forall i, j :: 0 <= i < j < |log| && log[i].Fail? && log[j].Start? && log[i].h == log[j].h ==>
      log[j].at >= log[i].at + Backoff(cfg, log[i].k)
  }

  ghost predicate Patient<H>(cfg: Config, w: World<H>) {
    && (w.pass.Scanning? || w.pass.Waiting? ==> w.pass.now <= w.clock)
    && (forall i :: 0 <= i < |w.log| ==> WaitsOut(cfg, w, w.log[i]))
    && Late(cfg, w.log)
  }

  lemma EventPatient<H>(cfg: Config, w: World<H>, e: Event<H>, now: int)
    requires Patient(cfg, w) && AllLocated(w) && Enabled(cfg, w, e) && Plain(e) && w.clock <= now
    ensures Patient(cfg, Apply(cfg, w, e, now))
  {
    var v := Apply(cfg, w, e, now);
    if e.EvAcquire? {
      AcquirePatient(cfg, w, e, now);
    } else if e.EvComplete? {
      CompletePatient(cfg, w, e, now);
    } else if e.EvAdd? {
      AddPatient(cfg, w, e, now);
    } else if e.EvTake? {
      TakePatient(cfg, w, e, now);
    } else {
      SameQueuePatient(cfg, w, v);
    }
  }

  lemma SameQueuePatient<H>(cfg: Config, w: World<H>, v: World<H>)
    requires Patient(cfg, w) && w.clock <= v.clock && v.log == w.log && v.s.recs == w.s.recs && v.s.queue == w.s.queue
    requires v.inflight == w.inflight && (v.pass.Waiting? ==> v.pass == w.pass)
    requires v.pass.Scanning? ==> v.pass == w.pass || v.pass.now == v.clock
    ensures Patient(cfg, v)
  {
    forall i | 0 <= i < |v.log| ensures WaitsOut(cfg, v, v.log[i]) { assert WaitsOut(cfg, w, w.log[i]); }
  }

  lemma AddPatient<H>(cfg: Config, w: World<H>, e: Event<H>, now: int)
    requires Patient(cfg, w) && Enabled(cfg, w, e) && e.EvAdd? && w.clock <= now
    ensures Patient(cfg, Apply(cfg, w, e, now))
  {
    var v := Apply(cfg, w, e, now);
    forall i | 0 <= i < |v.log| ensures WaitsOut(cfg, v, v.log[i]) { assert WaitsOut(cfg, w, w.log[i]); }
  }

  lemma TakePatient<H>(cfg: Config, w: World<H>, e: Event<H>, now: int)
    requires Patient(cfg, w) && Enabled(cfg, w, e) && e.EvTake? && w.clock <= now
    ensures Patient(cfg, Apply(cfg, w, e, now))
  {
    var v := Apply(cfg, w, e, now);
    forall i | 0 <= i < |v.log| ensures WaitsOut(cfg, v, v.log[i]) { assert WaitsOut(cfg, w, w.log[i]); }
  }

  lemma AcquirePatient<H>(cfg: Config, w: World<H>, e: Event<H>, now: int)
    requires Patient(cfg, w) && Enabled(cfg, w, e) && e.EvAcquire? && w.clock <= now
    ensures Patient(cfg, Apply(cfg, w, e, now))
  {
    var v := Apply(cfg, w, e, now);
    forall i | 0 <= i < |w.log| ensures WaitsOut(cfg, v, w.log[i]) { assert WaitsOut(cfg, w, w.log[i]); }
  }

  lemma CompletePatient<H>(cfg: Config, w: World<H>, e: Event<H>, now: int)
    requires Patient(cfg, w) && AllLocated(w) && Enabled(cfg, w, e) && e.EvComplete? && w.clock <= now
    ensures Patient(cfg, Apply(cfg, w, e, now))
  {
    var v := Apply(cfg, w, e, now);
    assert Located(w, e.h);
    forall i | 0 <= i < |v.log| ensures WaitsOut(cfg, v, v.log[i]) {
      if i < |w.log| {
        assert WaitsOut(cfg, w, w.log[i]);
        CompleteWaits(cfg, w, e, now, w.log[i]);
      }
    }
  }

  lemma CompleteWaits<H>(cfg: Config, w: World<H>, e: Event<H>, now: int, x: Entry<H>)
    requires WaitsOut(cfg, w, x) && Enabled(cfg, w, e) && e.EvComplete? && w.clock <= now
    requires Located(w, e.h)
    ensures WaitsOut(cfg, Apply(cfg, w, e, now), x)
  {
    if x.h != e.h && x.Fail? { CompleteOther(w.s, cfg, e.h, e.failed, now, x.h); }
  }

  /** After the k-th consecutive failure of a state, its next dial starts at least
      calculateBackoff(k) later. */
  lemma {:induction false} BackoffRespected<H>(cfg: Config, peers: seq<StaticPeer>, hs: seq<H>, start: int,
                                               run: seq<World<H>>, evs: seq<Event<H>>, at: seq<int>, i: nat)
    requires |peers| == |hs| && Distinct(hs) && DistinctIds(peers)
    requires IsRun(cfg, run, evs, at) && run[0] == Init(peers, hs, start) && i < |run|
    requires forall k :: 0 <= k < |evs| ==> Plain(evs[k])
    ensures Patient(cfg, run[i]) && Late(cfg, run[i].log)
  {
    if i > 0 {
      BackoffRespected(cfg, peers, hs, start, run, evs, at, i - 1);
      RunBounded(cfg, peers, hs, start, run, evs, at, i - 1);
      EventPatient(cfg, run[i - 1], evs[i - 1], at[i - 1]);
    }
  }

  // ---------------------------------------------------------------- the backoff itself

  lemma {:induction false} DoubledForm(cfg: Config, backoff: int, steps: nat)
    requires 0 <= backoff <= cfg.backoffMax
    ensures Doubled(cfg, backoff, steps) == Min(backoff * Pow2(steps), cfg.backoffMax)
    decreases steps
  {
    if steps > 0 {
      var p := Pow2(steps - 1);
      assert backoff * Pow2(steps) == 2 * backoff * p;
      PowPositive(steps - 1);
      if 2 * backoff > cfg.backoffMax {
        assert 2 * backoff * p >= 2 * backoff;
      } else {
        DoubledForm(cfg, 2 * backoff, steps - 1);
      }
    }
  }

  lemma {:induction false} PowPositive(n: nat)
    ensures Pow2(n) >= 1
  {
    if n > 0 { PowPositive(n - 1); }
  }

  /** For k >= 1 the backoff is BackoffBase doubled k - 1 times and capped, whenever the base does
      not itself exceed the cap; a larger base is used as it is for k = 1 and then drops to the cap. */
  lemma BackoffForm(cfg: Config, k: int)
    requires 0 <= cfg.backoffBase && k >= 1
    ensures cfg.backoffBase <= cfg.backoffMax ==>
              Backoff(cfg, k) == Min(cfg.backoffBase * Pow2(k - 1), cfg.backoffMax)
    ensures 0 <= cfg.backoffMax < cfg.backoffBase ==>
              Backoff(cfg, k) == if k == 1 then cfg.backoffBase else cfg.backoffMax
  {
    if cfg.backoffBase <= cfg.backoffMax { DoubledForm(cfg, cfg.backoffBase, if k > 1 then k - 1 else 0); }
  }

  /** The backoff never shrinks with further failures exactly when the base is within the cap. */
  lemma BackoffMonotoneIff(cfg: Config)
    requires 0 <= cfg.backoffBase && 0 <= cfg.backoffMax
    ensures (forall k :: k >= 1 ==> Backoff(cfg, k) <= Backoff(cfg, k + 1)) <==> cfg.backoffBase <= cfg.backoffMax
  {
    if cfg.backoffBase <= cfg.backoffMax {
      forall k | k >= 1 ensures Backoff(cfg, k) <= Backoff(cfg, k + 1) {
        BackoffForm(cfg, k);
        BackoffForm(cfg, k + 1);
        assert Pow2(k) == 2 * Pow2(k - 1);
        assert cfg.backoffBase * Pow2(k) == 2 * (cfg.backoffBase * Pow2(k - 1));
      }
    } else {
      BackoffForm(cfg, 1);
      BackoffForm(cfg, 2);
      assert Backoff(cfg, 1) > Backoff(cfg, 1 + 1);
    }
  }
}
