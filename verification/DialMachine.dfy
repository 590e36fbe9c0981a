/**
 The dial scheduler as a state machine over values: one function for every section that runs
 under the scheduler's mutex, and the scheduling pass, the semaphore and the dial goroutines
 around them. `H` stands for the identity of a peer state, so that a state which was removed
 while its dial is in flight differs from a later one with the same peer ID.
 */
module DialMachine {
  import opened Common

  datatype Config = Config(maxAttempts: int, backoffBase: int, backoffMax: int, concurrent: nat)

  const PriorityStatic: int := 0
  const PriorityLow: int := 3

  // A peer state without its heap position.
  datatype Rec = Rec(
    id: string, addrs: seq<string>, priority: int, next: int, attempts: int,
    lastAttempt: int, failed: bool, isStatic: bool, permanent: bool, connected: bool)

  datatype Sched<H(==)> = Sched(
    recs: map<H, Rec>, queue: multiset<H>, peers: map<string, H>, banned: map<string, int>, dialing: set<string>)

  // Every table entry points at a state with that ID, and only known states are queued.
  ghost predicate Wf<H>(s: Sched<H>) {
    && (forall id :: id in s.peers ==> s.peers[id] in s.recs && s.recs[s.peers[id]].id == id)
    && (forall h :: h in s.queue ==> h in s.recs)
  }

  // ---------------------------------------------------------------- sections under the mutex

  /** The doubling loop of calculateBackoff; the first doubling that exceeds the maximum ends it. */
  function Doubled(cfg: Config, backoff: int, steps: nat): int
    decreases steps
  {
    if steps == 0 then backoff
    else if 2 * backoff > cfg.backoffMax then cfg.backoffMax
    else Doubled(cfg, 2 * backoff, steps - 1)
  }

  function Backoff(cfg: Config, attempts: int): int {
    Doubled(cfg, cfg.backoffBase, if attempts > 1 then attempts - 1 else 0)
  }

  function NewRec(id: string, addrs: seq<string>, priority: int, now: int, isStatic: bool, permanent: bool): Rec {
    Rec(id, addrs, priority, now, 0, 0, false, isStatic, permanent, false)
  }

  function AddStatic<H>(s: Sched<H>, id: string, addrs: seq<string>, permanent: bool, now: int, h: H): Sched<H> {
    Insert(s, NewRec(id, addrs, PriorityStatic, now, true, permanent), h)
  }

  predicate IsBanned<H>(s: Sched<H>, id: string, now: int) { id in s.banned && now < s.banned[id] }

  /** `h` is the identity of the state that AddPeer allocates when it needs one. */
  function AddPeer<H>(s: Sched<H>, id: string, addrs: seq<string>, priority: int, now: int, h: H): Sched<H> {
    if NeedsState(s, id, now)
    then Insert(s.(banned := s.banned - {id}), NewRec(id, addrs, priority, now, false, false), h)
    else AddKnown(s, id, addrs, now)
  }

  predicate NeedsState<H>(s: Sched<H>, id: string, now: int) { !IsBanned(s, id, now) && id !in s.peers }

  // AddPeer for a banned peer, or one that is in the table already.
  function AddKnown<H>(s: Sched<H>, id: string, addrs: seq<string>, now: int): Sched<H>
    requires !NeedsState(s, id, now)
  {
    if IsBanned(s, id, now) then s else Readdress(s.(banned := s.banned - {id}), s.peers[id], addrs)
  }

  function Readdress<H>(s: Sched<H>, h: H, addrs: seq<string>): Sched<H> {
    if addrs == [] || h !in s.recs then s else s.(recs := s.recs[h := s.recs[h].(addrs := addrs)])
  }

  function Insert<H>(s: Sched<H>, r: Rec, h: H): Sched<H> {
    s.(recs := s.recs[h := r], peers := s.peers[r.id := h], queue := s.queue + multiset{h})
  }

  // Removal from the heap happens when the state's stored position says it is queued.
  function Dequeue<H>(s: Sched<H>, h: H, ix: bool): Sched<H> {
    if ix then s.(queue := s.queue - multiset{h}) else s
  }

  function RemovePeer<H>(s: Sched<H>, id: string, ix: bool): Sched<H> {
    if id !in s.peers || s.peers[id] !in s.recs || s.recs[s.peers[id]].isStatic then s
    else Dequeue(s, s.peers[id], ix).(peers := s.peers - {id})
  }

  function BanPeer<H>(s: Sched<H>, id: string, until: int, ix: bool): Sched<H> {
    Withdraw(s, id, ix).(banned := s.banned[id := until])
  }

  function Withdraw<H>(s: Sched<H>, id: string, ix: bool): Sched<H> {
    if id !in s.peers || s.peers[id] !in s.recs || s.recs[s.peers[id]].permanent then s
    else Dequeue(s, s.peers[id], ix).(peers := s.peers - {id})
  }

  function NotifyConnected<H>(s: Sched<H>, id: string, ix: bool): Sched<H> {
    if id !in s.peers || s.peers[id] !in s.recs then s
    else
      var h := s.peers[id];
      Dequeue(s.(recs := s.recs[h := s.recs[h].(connected := true, attempts := 0, failed := false)]), h, ix)
  }

  function NotifyDisconnected<H>(s: Sched<H>, cfg: Config, id: string, now: int, ix: bool): Sched<H> {
    if id !in s.peers || s.peers[id] !in s.recs then s
    else
      var h := s.peers[id];
      var r := s.recs[h].(connected := false);
      if !r.isStatic && !r.permanent then s.(recs := s.recs[h := r])
      else Requeue(s, h, r.(next := now + cfg.backoffBase), ix)
  }

  function Requeue<H>(s: Sched<H>, h: H, r: Rec, queued: bool): Sched<H> {
    s.(recs := s.recs[h := r], queue := if queued then s.queue else s.queue + multiset{h})
  }

  // processDials: the head of the queue may be taken at the pass's reading of the clock.
  predicate MayTake<H>(s: Sched<H>, h: H, now: int) {
    h in s.queue && h in s.recs && s.recs[h].next <= now && s.recs[h].id !in s.dialing
  }

  function Take<H>(s: Sched<H>, h: H): Sched<H>
    requires h in s.recs
  {
    s.(queue := s.queue - multiset{h}, dialing := s.dialing + {s.recs[h].id})
  }

  predicate GivesUp(cfg: Config, r: Rec) { r.attempts + 1 >= cfg.maxAttempts && !r.permanent }

  /** The end of dialPeer, after Connect returned. */
  function Complete<H>(s: Sched<H>, cfg: Config, h: H, failed: bool, now: int): Sched<H>
    requires h in s.recs
  {
    var r := s.recs[h].(lastAttempt := now);
    var d := s.(dialing := s.dialing - {r.id});
    if !failed then d.(recs := s.recs[h := r.(connected := true, attempts := 0, failed := false)])
    else if GivesUp(cfg, r) then GiveUp(d, h, Failed(r), now + cfg.backoffMax)
    else Requeue(d, h, Later(cfg, Failed(r), now), false)
  }

  function Failed(r: Rec): Rec { r.(attempts := r.attempts + 1, failed := true) }

  function Later(cfg: Config, r: Rec, now: int): Rec {
    r.(next := now + Backoff(cfg, r.attempts),
       priority := if r.priority < PriorityLow then r.priority + 1 else r.priority)
  }

  function GiveUp<H>(s: Sched<H>, h: H, r: Rec, until: int): Sched<H> {
    s.(recs := s.recs[h := r], banned := s.banned[r.id := until], peers := s.peers - {r.id})
  }

  function Cleanup<H>(s: Sched<H>, now: int): Sched<H> {
    s.(banned := map id | id in s.banned && now <= s.banned[id] :: s.banned[id])
  }

  // ---------------------------------------------------------------- the running scheduler

  // The one scheduling goroutine: outside processDials, scanning with the clock reading it
  // started from, or waiting for the semaphore with the state it popped.
  datatype Pass<H> = Idle | Scanning(now: int) | Waiting(now: int, h: H)

  // History: dials started, and failures with the number of consecutive failures so far.
  datatype Entry<H> = Start(h: H, id: string, at: int) | Fail(h: H, id: string, k: int, at: int)

  datatype World<H(==)> = World(
    s: Sched<H>, pass: Pass<H>, inflight: multiset<H>, releasing: nat, cancelled: bool, clock: int, log: seq<Entry<H>>)

  datatype Event<H> =
    | EvAdd(id: string, addrs: seq<string>, priority: int, h: H)
    | EvRemove(id: string, ix: bool)
    | EvBan(id: string, until: int, ix: bool)       // the duration added to the clock
    | EvConnected(id: string, ix: bool)
    | EvDisconnected(id: string, ix: bool)
    | EvBeginPass
    | EvEndPass
    | EvTake(h: H)
    | EvAcquire                       // the semaphore is taken and the dial goroutine started
    | EvComplete(h: H, failed: bool)
    | EvRelease                       // a finished dial goroutine gives its semaphore slot back
    | EvCleanup
    | EvCancel                        // the context ends while the pass waits for the semaphore

  // A stored heap position is a position of that state (DialQueue.Queue.Backed).
  predicate Positioned<H>(s: Sched<H>, id: string, ix: bool) {
    ix ==> id in s.peers && s.peers[id] in s.queue
  }

  predicate Enabled<H>(cfg: Config, w: World<H>, e: Event<H>) {
    match e
    case EvAdd(_, _, _, h) => h !in w.s.recs
    case EvRemove(id, ix) => Positioned(w.s, id, ix)
    case EvBan(id, _, ix) => Positioned(w.s, id, ix)
    case EvConnected(id, ix) => Positioned(w.s, id, ix)
    case EvDisconnected(id, ix) => Positioned(w.s, id, ix)
    case EvBeginPass => w.pass.Idle?
    case EvEndPass => w.pass.Scanning?
    case EvTake(h) => w.pass.Scanning? && MayTake(w.s, h, w.pass.now)
    case EvAcquire => w.pass.Waiting? && w.pass.h in w.s.recs && |w.inflight| + w.releasing < cfg.concurrent
    case EvComplete(h, _) => h in w.inflight && h in w.s.recs
    case EvRelease => w.releasing > 0
    case EvCleanup => true
    case EvCancel => w.pass.Waiting?
  }

  /** One event at clock reading `now`. */
  function Apply<H>(cfg: Config, w: World<H>, e: Event<H>, now: int): World<H>
    requires Enabled(cfg, w, e)
  {
    var v := w.(clock := now);
    match e
    case EvAdd(id, addrs, priority, h) => v.(s := AddPeer(w.s, id, addrs, priority, now, h))
    case EvRemove(id, ix) => v.(s := RemovePeer(w.s, id, ix))
    case EvBan(id, until, ix) => v.(s := BanPeer(w.s, id, until, ix))
    case EvConnected(id, ix) => v.(s := NotifyConnected(w.s, id, ix))
    case EvDisconnected(id, ix) => v.(s := NotifyDisconnected(w.s, cfg, id, now, ix))
    case EvBeginPass => v.(pass := Scanning(now))
    case EvEndPass => v.(pass := Idle)
    case EvTake(h) => v.(s := Take(w.s, h), pass := Waiting(w.pass.now, h))
    case EvAcquire =>
      v.(pass := Scanning(w.pass.now), inflight := w.inflight + multiset{w.pass.h},
         log := w.log + [Start(w.pass.h, w.s.recs[w.pass.h].id, now)])
    case EvComplete(h, failed) =>
      v.(s := Complete(w.s, cfg, h, failed, now), inflight := w.inflight - multiset{h}, releasing := w.releasing + 1,
         log := if failed then w.log + [Fail(h, w.s.recs[h].id, w.s.recs[h].attempts + 1, now)] else w.log)
    case EvRelease => v.(releasing := w.releasing - 1)
    case EvCleanup => v.(s := Cleanup(w.s, now))
    case EvCancel => v.(pass := Idle, cancelled := true)
  }

  datatype StaticPeer = StaticPeer(id: string, addrs: seq<string>, permanent: bool)

  predicate DistinctIds(q: seq<StaticPeer>) { forall i, j :: 0 <= i < j < |q| ==> q[i].id != q[j].id }

  /** NewScheduler: the configured peers are added in order. */
  function Boot<H>(peers: seq<StaticPeer>, hs: seq<H>, now: int): Sched<H>
    requires |peers| == |hs|
  {
    if peers == [] then Sched(map[], multiset{}, map[], map[], {})
    else
      var k := |peers| - 1;
      AddStatic(Boot(peers[..k], hs[..k], now), peers[k].id, peers[k].addrs, peers[k].permanent, now, hs[k])
  }

  function Init<H>(peers: seq<StaticPeer>, hs: seq<H>, now: int): World<H>
    requires |peers| == |hs|
  {
    World(Boot(peers, hs, now), Idle, multiset{}, 0, false, now, [])
  }

  /** A run: `at[i]` is the clock reading of event i, which never goes back. */
  ghost predicate IsRun<H>(cfg: Config, run: seq<World<H>>, evs: seq<Event<H>>, at: seq<int>) {
    && |run| == |evs| + 1 && |at| == |evs|
    && forall i :: 0 <= i < |evs| ==>
         run[i].clock <= at[i] && Enabled(cfg, run[i], evs[i]) && run[i + 1] == Apply(cfg, run[i], evs[i], at[i])
  }

  lemma RunOn<H>(cfg: Config, run: seq<World<H>>, evs: seq<Event<H>>, at: seq<int>, e: Event<H>, now: int, v: World<H>)
    requires IsRun(cfg, run, evs, at) && run[|evs|].clock <= now && Enabled(cfg, run[|evs|], e)
    requires v == Apply(cfg, run[|evs|], e, now)
    ensures IsRun(cfg, run + [v], evs + [e], at + [now])
  {
    var r, x, y := run + [v], evs + [e], at + [now];
    forall i | 0 <= i < |x|
      ensures r[i].clock <= y[i] && Enabled(cfg, r[i], x[i]) && r[i + 1] == Apply(cfg, r[i], x[i], y[i])
    {
      if i < |evs| { assert r[i] == run[i] && r[i + 1] == run[i + 1] && x[i] == evs[i] && y[i] == at[i]; }
    }
  }
}
