/**
 The dial scheduler as an object (internal/core/connmgr/scheduler.go): tables and states updated
 in place around the intrusive heap. Every method is one section under the scheduler's mutex and
 is tied to the section of the state machine in DialMachine, whatever the heap looks like; when
 the heap is intact (`Intact`) the method also says that it stays so.
 */
module Scheduler {
  import opened Common
  import opened DialQueue
  import opened DialMachine

  function RecOf(s: PeerDialState): Rec
    reads s`Addrs, s`Priority, s`NextDialTime, s`Attempts, s`LastAttempt, s`LastError, s`Connected
  {
    Rec(s.ID, s.Addrs, s.Priority, s.NextDialTime, s.Attempts, s.LastAttempt, s.LastError, s.Static, s.Permanent,
        s.Connected)
  }

  lemma Overwrite<K, V>(m: map<K, V>, k: K, v: V, w: V)
    ensures m[k := v][k := w] == m[k := w]
  {
  }

  // The booted states are distinct members of `all`.
  ghost predicate Listed(q: seq<PeerDialState>, all: set<PeerDialState>) {
    Distinct(q) && forall i :: 0 <= i < |q| ==> q[i] in all
  }

  lemma ListedStep(q: seq<PeerDialState>, all: set<PeerDialState>, s: PeerDialState)
    requires Listed(q, all) && s !in all
    ensures Listed(q + [s], all + {s})
  {
  }

  lemma BootStep(statics: seq<StaticPeer>, hs: seq<PeerDialState>, s: PeerDialState, now: int, i: nat)
    requires i < |statics| && |hs| == i
    ensures Boot(statics[..i + 1], hs + [s], now) ==
            DialMachine.AddStatic(
              Boot(statics[..i], hs, now), statics[i].id, statics[i].addrs, statics[i].permanent, now, s)
  {
    assert statics[..i + 1][..i] == statics[..i] && (hs + [s])[..i] == hs;
  }

  class Scheduler {
    const config: Config
    const queue: Queue
    var peers: map<string, PeerDialState>
    var banned: map<string, int>
    var dialing: set<string>
    ghost var all: set<PeerDialState>         // every state ever created

    ghost predicate Valid()
      reads this`peers, this`all, queue, all`heapIndex
    {
      && queue.Backed(all)
      && forall id :: id in peers ==> peers[id] in all && peers[id].ID == id
    }

    ghost function KeyMap(): (m: Keys)
      reads this`all, all`NextDialTime, all`Priority
    {
      map s | s in all :: Key(s.NextDialTime, s.Priority)
    }

    ghost function Recs(): map<PeerDialState, Rec>
      reads this`all, all`Addrs, all`Priority, all`NextDialTime, all`Attempts, all`LastAttempt, all`LastError,
            all`Connected
    {
      map s | s in all :: RecOf(s)
    }

    // The heap is intact: every position recorded, nothing queued twice, in heap order.
    ghost predicate Intact()
      reads this`all, queue, queue.items`heapIndex, all`NextDialTime, all`Priority
    {
      && (forall i :: 0 <= i < |queue.items| ==> queue.items[i] in all)
      && queue.Indexed() && Known(queue.items, KeyMap()) && Heap(queue.items, KeyMap(), |queue.items|)
    }

    // The tables as values.
    ghost function Abs(): Sched<PeerDialState>
      reads this`peers, this`banned, this`dialing, this`all, queue
      reads all`Addrs, all`Priority, all`NextDialTime, all`Attempts, all`LastAttempt, all`LastError, all`Connected
    {
      Sched(Recs(), multiset(queue.items), peers, banned, dialing)
    }

    constructor (config: Config)
      ensures Valid() && Intact() && this.config == config && all == {} && fresh(queue)
      ensures Abs() == Sched(map[], multiset{}, map[], map[], {})
    {
      this.config := config;
      queue := new Queue();
      peers, banned, dialing := map[], map[], {};
      all := {};
    }

    /** The configured peers enter in order; `hs` names the states made for them. */
    method AddStatics(statics: seq<StaticPeer>, now: int) returns (hs: seq<PeerDialState>)
      requires Valid() && Intact() && all == {} && Abs() == Boot([], [], now)
      modifies this`peers, this`all, queue
      ensures Valid() && Intact() && Listed(hs, all) && fresh(all) && |hs| == |statics|
      ensures Abs() == Boot(statics, hs, now)
    {
      hs := [];
      assert statics[..0] == [];
      for i := 0 to |statics|
        invariant Valid() && Intact() && fresh(all) && |hs| == i
        invariant Listed(hs, all)
        invariant Abs() == Boot(statics[..i], hs, now)
      {
        hs := AddNext(statics, hs, i, now);
      }
      assert statics[..|statics|] == statics;
    }

    method AddNext(statics: seq<StaticPeer>, hs: seq<PeerDialState>, i: nat, now: int) returns (hs': seq<PeerDialState>)
      requires Valid() && Listed(hs, all) && |hs| == i < |statics|
      requires Abs() == Boot(statics[..i], hs, now)
      modifies this`peers, this`all, queue, all`heapIndex
      ensures Valid() && Listed(hs', all) && fresh(all - old(all)) && |hs'| == i + 1
      ensures Abs() == Boot(statics[..i + 1], hs', now)
      ensures old(Intact()) ==> Intact()
    {
      var s := AddStatic(statics[i].id, statics[i].addrs, statics[i].permanent, now);
      BootStep(statics, hs, s, now, i);
      ListedStep(hs, old(all), s);
      hs' := hs + [s];
    }

    // Pushing onto the heap changes no record.
    method Push(s: PeerDialState)
      requires Valid() && s in all
      modifies queue, all`heapIndex
      ensures Valid() && Recs() == old(Recs()) && KeyMap() == old(KeyMap())
      ensures multiset(queue.items) == old(multiset(queue.items)) + multiset{s}
      ensures old(Intact() && s.heapIndex < 0) ==> Intact()
    {
      ghost var strict := Intact() && s.heapIndex < 0;
      queue.Push(s, KeyMap(), all, strict);
    }

    // heap.Remove of a state whose stored position says it is queued.
    method Dequeue(s: PeerDialState)
      requires Valid() && s in all
      modifies queue, all`heapIndex
      ensures Valid() && Recs() == old(Recs()) && KeyMap() == old(KeyMap())
      ensures multiset(queue.items) ==
              old(multiset(queue.items)) - if old(s.heapIndex) >= 0 then multiset{s} else multiset{}
      ensures old(s.heapIndex) >= 0 ==> s in old(queue.items)
      ensures old(Intact()) ==> Intact()
    {
      if s.heapIndex >= 0 { TakeOut(s); }
    }

    method TakeOut(s: PeerDialState)
      requires Valid() && s in all && s.heapIndex >= 0
      modifies queue, all`heapIndex
      ensures Valid() && s in old(queue.items)
      ensures multiset(queue.items) == old(multiset(queue.items)) - multiset{s}
      ensures old(Intact()) ==> Intact()
    {
      ghost var strict := Intact();
      var x := queue.Remove(s.heapIndex, KeyMap(), all, strict);
    }

    // Enters a new state in the table.
    method Enter(s: PeerDialState)
      requires Valid() && s !in all && s.heapIndex == -1 && s !in queue.items
      modifies this`peers, this`all
      ensures Valid() && all == old(all) + {s} && peers == old(peers)[s.ID := s]
      ensures Recs() == old(Recs())[s := RecOf(s)]
      ensures old(Intact()) ==> Intact()
    {
      peers := peers[s.ID := s];
      all := all + {s};
    }

    // A new state enters the table and the queue.
    method Insert(s: PeerDialState)
      requires Valid() && s !in all && s.heapIndex == -1 && s !in queue.items
      modifies this`peers, this`all, queue, all`heapIndex, s`heapIndex
      ensures Valid() && all == old(all) + {s}
      ensures Abs() == DialMachine.Insert(old(Abs()), old(RecOf(s)), s)
      ensures old(Intact()) ==> Intact()
    {
      Enter(s);
      Push(s);
    }

    method AddStatic(id: string, addrs: seq<string>, permanent: bool, now: int) returns (s: PeerDialState)
      requires Valid()
      modifies this`peers, this`all, queue, all`heapIndex
      ensures Valid() && fresh(s) && all == old(all) + {s}
      ensures Abs() == DialMachine.AddStatic(old(Abs()), id, addrs, permanent, now, s)
      ensures old(Intact()) ==> Intact()
    {
      s := new PeerDialState(id, addrs, PriorityStatic, now, true, permanent);
      Insert(s);
    }

    method AddPeer(id: string, addrs: seq<string>, priority: int, now: int) returns (s: PeerDialState?)
      requires Valid()
      modifies this`peers, this`all, this`banned, queue, all`heapIndex, all`Addrs
      ensures Valid() && (s != null <==> NeedsState(old(Abs()), id, now))
      ensures s != null ==> fresh(s) && Abs() == DialMachine.AddPeer(old(Abs()), id, addrs, priority, now, s)
      ensures s == null ==> Abs() == AddKnown(old(Abs()), id, addrs, now)
      ensures all == old(all) + if s == null then {} else {s}
      ensures old(Intact()) ==> Intact()
    {
      s := null;
      if !(id in banned && now < banned[id]) {
        s := AddUnbanned(id, addrs, priority, now);
      }
    }

    method AddUnbanned(id: string, addrs: seq<string>, priority: int, now: int) returns (s: PeerDialState?)
      requires Valid()
      modifies this`peers, this`all, this`banned, queue, all`heapIndex, all`Addrs
      ensures Valid() && (s != null <==> id !in old(peers))
      ensures var unbanned := old(Abs()).(banned := old(banned) - {id});
              && (s != null ==>
                  fresh(s) && Abs() == DialMachine.Insert(unbanned, NewRec(id, addrs, priority, now, false, false), s))
              && (s == null ==> Abs() == DialMachine.Readdress(unbanned, old(peers)[id], addrs))
      ensures all == old(all) + if s == null then {} else {s}
      ensures old(Intact()) ==> Intact()
    {
      Unban(id);
      s := null;
      if id !in peers {
        s := AddNew(id, addrs, priority, now);
      } else if |addrs| > 0 {
        Readdress(peers[id], addrs);
      }
    }

    method Unban(id: string)
      requires Valid()
      modifies this`banned
      ensures Valid() && Abs() == old(Abs()).(banned := old(banned) - {id})
      ensures old(Intact()) ==> Intact()
    {
      banned := banned - {id};
    }

    method AddNew(id: string, addrs: seq<string>, priority: int, now: int) returns (s: PeerDialState)
      requires Valid()
      modifies this`peers, this`all, queue, all`heapIndex
      ensures Valid() && fresh(s) && all == old(all) + {s}
      ensures Abs() == DialMachine.Insert(old(Abs()), NewRec(id, addrs, priority, now, false, false), s)
      ensures old(Intact()) ==> Intact()
    {
      var state := new PeerDialState(id, addrs, priority, now, false, false);
      Insert(state);
      s := state;
    }

    method Readdress(s: PeerDialState, addrs: seq<string>)
      requires Valid() && s in all
      modifies s`Addrs
      ensures Valid() && Recs() == old(Recs())[s := old(RecOf(s)).(addrs := addrs)]
      ensures old(Intact()) ==> Intact()
    {
      s.Addrs := addrs;
    }

    // Does the state under this ID record a heap position?
    predicate Stored(id: string)
      reads this`peers, peers.Values`heapIndex
    {
      id in peers && peers[id].heapIndex >= 0
    }

    // Takes a peer out of the queue and out of the table.
    method Drop(id: string)
      requires Valid() && id in peers
      modifies this`peers, queue, all`heapIndex
      ensures Valid()
      ensures Abs() == DialMachine.Dequeue(old(Abs()), old(peers[id]), old(Stored(id))).(peers := old(peers) - {id})
      ensures old(Stored(id)) ==> old(peers[id]) in old(queue.items)
      ensures old(Intact()) ==> Intact()
    {
      Dequeue(peers[id]);
      Forget(id);
    }

    method Forget(id: string)
      requires Valid()
      modifies this`peers
      ensures Valid() && peers == old(peers) - {id}
      ensures Recs() == old(Recs())
      ensures old(Intact()) ==> Intact()
    {
      peers := peers - {id};
    }

    method RemovePeer(id: string)
      requires Valid()
      modifies this`peers, queue, all`heapIndex
      ensures Valid()
      ensures Abs() == DialMachine.RemovePeer(old(Abs()), id, old(Stored(id)))
      ensures Positioned(old(Abs()), id, old(Stored(id)))
      ensures old(Intact()) ==> Intact()
    {
      if id in peers && !peers[id].Static {
        Drop(id);
      }
    }

    method BanPeer(id: string, duration: int, now: int)
      requires Valid()
      modifies this`peers, this`banned, queue, all`heapIndex
      ensures Valid()
      ensures Abs() == DialMachine.BanPeer(old(Abs()), id, now + duration, old(Stored(id)))
      ensures Positioned(old(Abs()), id, old(Stored(id)))
      ensures old(Intact()) ==> Intact()
    {
      banned := banned[id := now + duration];
      if id in peers && !peers[id].Permanent {
        Drop(id);
      }
    }

    // Overwrites the fields a notification or a finished dial changes, none of them in the key.
    method Settle(s: PeerDialState, connected: bool, attempts: int, failed: bool, lastAttempt: int)
      requires Valid() && s in all
      modifies s`Connected, s`Attempts, s`LastError, s`LastAttempt
      ensures Valid() && KeyMap() == old(KeyMap())
      ensures RecOf(s) ==
              old(RecOf(s)).(connected := connected, attempts := attempts, failed := failed, lastAttempt := lastAttempt)
      ensures Recs() == old(Recs())[s := RecOf(s)]
      ensures old(Intact()) ==> Intact()
    {
      SetFields(s, connected, attempts, failed, lastAttempt);
    }

    method SetFields(s: PeerDialState, connected: bool, attempts: int, failed: bool, lastAttempt: int)
      requires s in all
      modifies s`Connected, s`Attempts, s`LastError, s`LastAttempt
      ensures RecOf(s) ==
              old(RecOf(s)).(connected := connected, attempts := attempts, failed := failed, lastAttempt := lastAttempt)
      ensures Recs() == old(Recs())[s := RecOf(s)]
    {
      s.Connected := connected;
      s.Attempts := attempts;
      s.LastError := failed;
      s.LastAttempt := lastAttempt;
    }

    method Connect(s: PeerDialState)
      requires Valid() && s in all
      modifies queue, all`heapIndex, s`Connected, s`Attempts, s`LastError, s`LastAttempt
      ensures Valid()
      ensures Recs() == old(Recs())[s := old(RecOf(s)).(connected := true, attempts := 0, failed := false)]
      ensures multiset(queue.items) ==
              old(multiset(queue.items)) - if old(s.heapIndex) >= 0 then multiset{s} else multiset{}
      ensures old(s.heapIndex) >= 0 ==> s in old(queue.items)
      ensures old(Intact()) ==> Intact()
    {
      Settle(s, true, 0, false, s.LastAttempt);
      Dequeue(s);
    }

    method NotifyConnected(id: string)
      requires Valid()
      modifies queue, all`heapIndex, all`Connected, all`Attempts, all`LastError, all`LastAttempt
      ensures Valid()
      ensures Abs() == DialMachine.NotifyConnected(old(Abs()), id, old(Stored(id)))
      ensures Positioned(old(Abs()), id, old(Stored(id)))
      ensures old(Intact()) ==> Intact()
    {
      if id in peers {
        Connect(peers[id]);
      }
    }

    // The heap is intact but for the key of the state at position i.
    ghost predicate Loose(i: int)
      reads this`all, queue, queue.items`heapIndex, all`NextDialTime, all`Priority
    {
      && (forall i :: 0 <= i < |queue.items| ==> queue.items[i] in all)
      && queue.Indexed() && Known(queue.items, KeyMap()) && 0 <= i && HeapDown(queue.items, KeyMap(), i, |queue.items|)
    }

    method SetKey(s: PeerDialState, next: int, priority: int)
      requires Valid() && s in all
      modifies s`NextDialTime, s`Priority
      ensures Recs() == old(Recs())[s := old(RecOf(s)).(next := next, priority := priority)]
      ensures KeyMap() == old(KeyMap())[s := Key(next, priority)]
    {
      s.NextDialTime := next;
      s.Priority := priority;
    }

    method Retime(s: PeerDialState, next: int, priority: int)
      requires Valid() && s in all
      modifies s`NextDialTime, s`Priority
      ensures Valid() && Recs() == old(Recs())[s := old(RecOf(s)).(next := next, priority := priority)]
      ensures old(Intact()) ==> if s.heapIndex < 0 then Intact() else Loose(s.heapIndex)
    {
      ghost var strict, keys := Intact(), KeyMap();
      SetKey(s, next, priority);
      if strict {
        if s.heapIndex >= 0 {
          FixReady(queue.items, keys, KeyMap(), s.heapIndex);
        } else {
          KeepHeap(queue.items, keys, KeyMap());
        }
      }
    }

    // heap.Fix of a state whose stored position says it is queued.
    method Refix(s: PeerDialState)
      requires Valid() && s in all && s.heapIndex >= 0
      modifies queue, all`heapIndex
      ensures Valid() && Recs() == old(Recs())
      ensures multiset(queue.items) == old(multiset(queue.items))
      ensures old(Loose(s.heapIndex)) ==> Intact()
    {
      ghost var strict := Loose(s.heapIndex);
      queue.Fix(s.heapIndex, KeyMap(), all, strict);
    }

    // A queued state is fixed in place, another is pushed; either way with a new dial time.
    method Reschedule(s: PeerDialState, next: int, priority: int)
      requires Valid() && s in all
      modifies queue, all`heapIndex, s`NextDialTime, s`Priority
      ensures Valid()
      ensures Recs() == old(Recs())[s := old(RecOf(s)).(next := next, priority := priority)]
      ensures multiset(queue.items) ==
              old(multiset(queue.items)) + if old(s.heapIndex) >= 0 then multiset{} else multiset{s}
      ensures old(s.heapIndex) >= 0 ==> s in old(queue.items)
      ensures old(Intact()) ==> Intact()
    {
      Retime(s, next, priority);
      if s.heapIndex < 0 { Push(s); } else { Refix(s); }
    }

    method NotifyDisconnected(id: string, now: int)
      requires Valid()
      modifies queue, all`heapIndex, all`NextDialTime, all`Priority, all`Connected, all`Attempts, all`LastError,
               all`LastAttempt
      ensures Valid()
      ensures Abs() == DialMachine.NotifyDisconnected(old(Abs()), config, id, now, old(Stored(id)))
      ensures Positioned(old(Abs()), id, old(Stored(id)))
      ensures old(Intact()) ==> Intact()
    {
      if id in peers {
        var next := now + config.backoffBase;
        Disconnect(peers[id], next);
        AfterDisconnect(old(Abs()), id, now, next, old(Stored(id)));
      }
    }

    lemma AfterDisconnect(before: Sched<PeerDialState>, id: string, now: int, next: int, ix: bool)
      requires id in before.peers && before.peers[id] in before.recs && next == now + config.backoffBase
      requires Abs().peers == before.peers && Abs().banned == before.banned && Abs().dialing == before.dialing
      requires var s := before.peers[id];
               var r := before.recs[s].(connected := false);
               var redial := r.isStatic || r.permanent;
               && Abs().recs == before.recs[s := if redial then r.(next := next) else r]
               && Abs().queue == before.queue + if redial && !ix then multiset{s} else multiset{}
      ensures Abs() == DialMachine.NotifyDisconnected(before, config, id, now, ix)
    {
    }

    method Disconnect(s: PeerDialState, next: int)
      requires Valid() && s in all
      modifies queue, all`heapIndex, s`NextDialTime, s`Priority, s`Connected, s`Attempts, s`LastError, s`LastAttempt
      ensures Valid()
      ensures var r := old(RecOf(s)).(connected := false);
              var redial := s.Static || s.Permanent;
              && (redial ==> Recs() == old(Recs())[s := r.(next := next)])
              && (!redial ==> Recs() == old(Recs())[s := r])
              && multiset(queue.items) ==
                 old(multiset(queue.items)) + if redial && old(s.heapIndex) < 0 then multiset{s} else multiset{}
      ensures old(s.heapIndex) >= 0 ==> s in old(queue.items)
      ensures old(Intact()) ==> Intact()
    {
      ghost var before, r := Recs(), RecOf(s);
      Settle(s, false, s.Attempts, s.LastError, s.LastAttempt);
      assert RecOf(s) == r.(connected := false);
      if s.Static || s.Permanent {
        Reschedule(s, next, s.Priority);
        Overwrite(before, s, r.(connected := false), r.(connected := false, next := next));
      }
    }

    /**
     The locked section of processDials: takes the head of the queue when it is due and no dial to
     its peer is in flight. With an intact heap, what it takes is a minimum of the queue, and when
     it takes nothing although the head's peer is not being dialed, nothing at all is due.
     */
    method TakeDue(now: int) returns (s: PeerDialState?)
      requires Valid()
      modifies this`dialing, queue, all`heapIndex
      ensures Valid()
      ensures s != null ==> MayTake(old(Abs()), s, now) && Abs() == Take(old(Abs()), s)
      ensures s == null ==> Abs() == old(Abs()) && queue.items == old(queue.items)
      ensures s == null ==> queue.items == [] || queue.items[0].NextDialTime > now || queue.items[0].ID in dialing
      ensures old(Intact()) ==> Intact()
      ensures old(Intact()) && s != null ==> s !in queue.items
      ensures old(Intact()) && s != null ==> forall t :: t in queue.items ==>
              s.NextDialTime < t.NextDialTime || (s.NextDialTime == t.NextDialTime && s.Priority <= t.Priority)
      ensures old(Intact()) && s == null && queue.items != [] && queue.items[0].ID !in dialing ==>
                forall t :: t in queue.items ==> t.NextDialTime > now
    {
      s := null;
      if |queue.items| > 0 {
        var head := queue.items[0];
        if head.NextDialTime > now {
          NothingDue(now);
        } else if head.ID !in dialing {
          s := PopHead();
          dialing := dialing + {head.ID};
        }
      }
    }

    lemma NothingDue(now: int)
      requires Valid() && |queue.items| > 0 && queue.items[0].NextDialTime > now
      ensures Intact() ==> forall t :: t in queue.items ==> t.NextDialTime > now
    {
      if Intact() {
        RootIsLeast(queue.items, KeyMap());
        forall t | t in queue.items ensures t.NextDialTime > now {
          assert t in multiset(queue.items);
          assert !KeyLess(KeyMap()[t], KeyMap()[queue.items[0]]);
        }
      }
    }

    method PopHead() returns (s: PeerDialState)
      requires Valid() && |queue.items| > 0
      modifies queue, all`heapIndex
      ensures Valid() && s == old(queue.items[0]) && Recs() == old(Recs())
      ensures multiset(queue.items) == old(multiset(queue.items)) - multiset{s}
      ensures old(Intact()) ==> Intact() && s !in queue.items
      ensures old(Intact()) ==> forall t :: t in queue.items ==>
              s.NextDialTime < t.NextDialTime || (s.NextDialTime == t.NextDialTime && s.Priority <= t.Priority)
    {
      s := PopMin();
    }

    method PopMin() returns (s: PeerDialState)
      requires Valid() && |queue.items| > 0
      modifies queue, all`heapIndex
      ensures Valid() && s == old(queue.items[0]) && s in all
      ensures multiset(queue.items) == old(multiset(queue.items)) - multiset{s}
      ensures old(Intact()) ==> Intact() && s !in queue.items
      ensures old(Intact()) ==> forall t :: t in queue.items ==> t in all && !KeyLess(KeyMap()[t], KeyMap()[s])
    {
      ghost var strict := Intact();
      s := queue.Pop(KeyMap(), all, strict);
    }

    /** The doubling loop. */
    method CalculateBackoff(attempts: int) returns (backoff: int)
      ensures backoff == Backoff(config, attempts)
    {
      backoff := config.backoffBase;
      var i := 1;
      while i < attempts
        invariant 1 <= i && (i <= attempts || i == 1)
        invariant Backoff(config, attempts) == Doubled(config, backoff, if i < attempts then attempts - i else 0)
      {
        backoff := 2 * backoff;
        if backoff > config.backoffMax {
          backoff := config.backoffMax;
          break;
        }
        i := i + 1;
      }
    }

    /** The end of dialPeer, after Connect returned. */
    method FinishDial(s: PeerDialState, failed: bool, now: int)
      requires Valid() && s in all
      modifies this`peers, this`banned, this`dialing, queue, all`heapIndex
      modifies s`NextDialTime, s`Priority, s`Connected, s`Attempts, s`LastError, s`LastAttempt
      ensures Valid() && Abs() == Complete(old(Abs()), config, s, failed, now)
      ensures old(Intact() && s.heapIndex < 0) ==> Intact()
    {
      dialing := dialing - {s.ID};
      if failed {
        FailDial(s, now);
        AfterFailure(old(Abs()), s, now);
      } else {
        Settle(s, true, 0, false, now);
        AfterSuccess(old(Abs()), s, now);
      }
    }

    // The tables after a dial, one at a time.
    lemma AfterSuccess(before: Sched<PeerDialState>, s: PeerDialState, now: int)
      requires s in before.recs && Abs().dialing == before.dialing - {before.recs[s].id}
      requires Abs().banned == before.banned && Abs().peers == before.peers && Abs().queue == before.queue
      requires Abs().recs ==
               before.recs[s := before.recs[s].(lastAttempt := now, connected := true, attempts := 0, failed := false)]
      ensures Abs() == Complete(before, config, s, false, now)
    {
    }

    lemma AfterFailure(before: Sched<PeerDialState>, s: PeerDialState, now: int)
      requires s in before.recs && Abs().dialing == before.dialing - {before.recs[s].id}
      requires var r := before.recs[s].(lastAttempt := now);
               if GivesUp(config, r) then
                 && Abs().recs == before.recs[s := Failed(r)] && Abs().queue == before.queue
                 && Abs().banned == before.banned[r.id := now + config.backoffMax]
                 && Abs().peers == before.peers - {r.id}
               else
                 && Abs().banned == before.banned && Abs().peers == before.peers
                 && Abs().recs == before.recs[s := Later(config, Failed(r), now)]
                 && Abs().queue == before.queue + multiset{s}
      ensures Abs() == Complete(before, config, s, true, now)
    {
    }

    method FailDial(s: PeerDialState, now: int)
      requires Valid() && s in all
      modifies this`peers, this`banned, queue, all`heapIndex
      modifies s`NextDialTime, s`Priority, s`Connected, s`Attempts, s`LastError, s`LastAttempt
      ensures Valid()
      ensures var r := old(RecOf(s)).(lastAttempt := now);
              if GivesUp(config, r) then
                && Recs() == old(Recs())[s := Failed(r)] && queue.items == old(queue.items)
                && banned == old(banned)[s.ID := now + config.backoffMax] && peers == old(peers) - {s.ID}
              else
                && Recs() == old(Recs())[s := Later(config, Failed(r), now)]
                && multiset(queue.items) == old(multiset(queue.items)) + multiset{s}
                && banned == old(banned) && peers == old(peers)
      ensures old(Intact() && s.heapIndex < 0) ==> Intact()
    {
      ghost var before, r := Recs(), RecOf(s).(lastAttempt := now);
      Settle(s, s.Connected, s.Attempts + 1, true, now);
      assert RecOf(s) == Failed(r);
      if s.Attempts >= config.maxAttempts && !s.Permanent {
        Discard(s.ID, now + config.backoffMax);
      } else {
        Redial(s, now);
        Overwrite(before, s, Failed(r), Later(config, Failed(r), now));
      }
    }

    // Bans a peer that failed too often.
    method Discard(id: string, until: int)
      requires Valid()
      modifies this`peers, this`banned
      ensures Valid() && peers == old(peers) - {id} && banned == old(banned)[id := until] && Recs() == old(Recs())
      ensures old(Intact()) ==> Intact()
    {
      banned := banned[id := until];
      peers := peers - {id};
    }

    // Pushes the state of a failed dial back, later and with a lower priority.
    method Redial(s: PeerDialState, now: int)
      requires Valid() && s in all
      modifies queue, all`heapIndex, s`NextDialTime, s`Priority
      ensures Valid() && Recs() == old(Recs())[s := Later(config, old(RecOf(s)), now)]
      ensures multiset(queue.items) == old(multiset(queue.items)) + multiset{s}
      ensures old(Intact() && s.heapIndex < 0) ==> Intact()
    {
      var backoff := CalculateBackoff(s.Attempts);
      var next := now + backoff;
      var priority := if s.Priority < PriorityLow then s.Priority + 1 else s.Priority;
      LaterIs(RecOf(s), now, next, priority);
      Repush(s, next, priority);
    }

    lemma LaterIs(r: Rec, now: int, next: int, priority: int)
      requires next == now + Backoff(config, r.attempts)
      requires priority == if r.priority < PriorityLow then r.priority + 1 else r.priority
      ensures r.(next := next, priority := priority) == Later(config, r, now)
    {
    }

    method Repush(s: PeerDialState, next: int, priority: int)
      requires Valid() && s in all
      modifies queue, all`heapIndex, s`NextDialTime, s`Priority
      ensures Valid() && Recs() == old(Recs())[s := old(RecOf(s)).(next := next, priority := priority)]
      ensures multiset(queue.items) == old(multiset(queue.items)) + multiset{s}
      ensures old(Intact() && s.heapIndex < 0) ==> Intact()
    {
      Retime(s, next, priority);
      Push(s);
    }

    method Cleanup(now: int)
      requires Valid()
      modifies this`banned
      ensures Valid() && Abs() == DialMachine.Cleanup(old(Abs()), now)
      ensures old(Intact()) ==> Intact()
    {
      LiftBans(now);
      assert banned == DialMachine.Cleanup(old(Abs()), now).banned;
    }

    method LiftBans(now: int)
      modifies this`banned
      ensures forall id :: id in banned <==> id in old(banned) && now <= old(banned)[id]
      ensures forall id :: id in banned ==> banned[id] == old(banned)[id]
    {
      var ids := banned.Keys;
      while ids != {}
        invariant ids <= banned.Keys
        invariant forall id :: id in banned <==> id in old(banned) && (id in ids || now <= old(banned)[id])
        invariant forall id :: id in banned ==> banned[id] == old(banned)[id]
        decreases |ids|
      {
        var id :| id in ids;
        if now > banned[id] { banned := banned - {id}; }
        ids := ids - {id};
      }
    }
  }
}
