/**
 Jitter tolerance as an object (internal/core/connmgr/jitter.go): a table of entries that the
 notifications, the ticks and the reconnect attempts update in place. Every method is tied to its
 event in Jitter.
 */
module JitterTolerance {
  import opened Jitter

  class DisconnectedPeer {
    var DisconnectedAt: int
    var ReconnectAttempts: int
    var NextReconnectAt: int
    var State: Status
    var LastError: bool

    constructor (at: int, next: int)
      ensures Value() == Peer(at, 0, next, Disconnected, false)
    {
      DisconnectedAt, ReconnectAttempts, NextReconnectAt, State, LastError := at, 0, next, Disconnected, false;
    }

    function Value(): Peer
      reads this
    {
      Peer(DisconnectedAt, ReconnectAttempts, NextReconnectAt, State, LastError)
    }
  }

  class JitterTolerance {
    const config: Config
    var disconnectedPeers: map<string, DisconnectedPeer>
    ghost var launched: multiset<string>
    ghost var dialing: multiset<string>

    // No two peers share an entry.
    ghost predicate Valid()
      reads this`disconnectedPeers
    {
      forall p, q :: p in disconnectedPeers && q in disconnectedPeers && p != q ==>
        disconnectedPeers[p] != disconnectedPeers[q]
    }

    ghost function Table(): map<string, Peer>
      reads this`disconnectedPeers, disconnectedPeers.Values
    {
      map p | p in disconnectedPeers :: disconnectedPeers[p].Value()
    }

    ghost function Abs(): State
      reads this, disconnectedPeers.Values
    {
      State(Table(), launched, dialing)
    }

    constructor (config: Config)
      ensures Valid() && Abs() == Start && this.config == config
    {
      this.config := config;
      disconnectedPeers, launched, dialing := map[], multiset{}, multiset{};
    }

    // Reports whether the caller should remove the peer at once.
    method NotifyDisconnected(id: string, now: int) returns (remove: bool)
      requires Valid()
      modifies this, disconnectedPeers.Values
      ensures Valid() && remove == !config.enabled && fresh(disconnectedPeers.Values - old(disconnectedPeers.Values))
      ensures Abs() == OnDisconnect(config, old(Abs()), id, now)
    {
      remove := !config.enabled;
      if config.enabled {
        if id in disconnectedPeers {
          Renew(id, now);
        } else {
          var next := now + config.initial;
          Hold(id, now, next);
        }
      }
    }

    // A peer that is held already is held anew.
    method Renew(id: string, now: int)
      requires Valid() && id in disconnectedPeers
      modifies disconnectedPeers[id]
      ensures Table() == old(Table())[id := old(Table()[id]).(since := now, status := Disconnected)]
    {
      var state := disconnectedPeers[id];
      state.DisconnectedAt := now;
      state.State := Disconnected;
    }

    method Hold(id: string, now: int, next: int)
      requires Valid() && id !in disconnectedPeers
      modifies this`disconnectedPeers
      ensures Valid() && fresh(disconnectedPeers.Values - old(disconnectedPeers.Values))
      ensures Table() == old(Table())[id := Peer(now, 0, next, Disconnected, false)]
    {
      var state := new DisconnectedPeer(now, next);
      disconnectedPeers := disconnectedPeers[id := state];
    }

    method NotifyReconnected(id: string)
      requires Valid()
      modifies this
      ensures Valid() && disconnectedPeers.Values <= old(disconnectedPeers.Values)
      ensures Abs() == OnReconnect(old(Abs()), id)
    {
      if id in disconnectedPeers {
        disconnectedPeers := disconnectedPeers - {id};
      }
    }

    method ShouldRemove(id: string, now: int) returns (r: bool)
      ensures r == Jitter.ShouldRemove(config, Abs(), id, now)
      ensures r <==> || !config.enabled
                     || (id in Table()
                         && (now - Table()[id].since > config.hold
                             || (config.maxAttempts > 0 && Table()[id].attempts >= config.maxAttempts)))
    {
      if !config.enabled { return true; }
      if id !in disconnectedPeers { return false; }
      var state := disconnectedPeers[id];
      if now - state.DisconnectedAt > config.hold { return true; }
      if config.maxAttempts > 0 && state.ReconnectAttempts >= config.maxAttempts { return true; }
      return false;
    }

    /** One pass over the table, in any order, collecting what to remove and what to redial; then the
        removals. */
    method ProcessDisconnectedPeers(now: int) returns (toRemove: set<string>, redials: set<string>)
      requires Valid()
      modifies this
      ensures Valid() && disconnectedPeers.Values <= old(disconnectedPeers.Values)
      ensures Abs() == OnTick(config, old(Abs()), now)
      ensures config.enabled ==>
                toRemove == set id | id in old(Abs()).peers && Jitter.ShouldRemove(config, old(Abs()), id, now)
      ensures redials == set id | id in old(Abs()).peers && Due(config, old(Abs()).peers[id], now)
    {
      toRemove, redials := Sort(now);
      TickIs(Abs(), toRemove, redials, now);
      Remove(toRemove);
      launched := launched + multiset(redials);
    }

    lemma TickIs(s: State, toRemove: set<string>, redials: set<string>, now: int)
      requires toRemove == set id | id in s.peers && Expired(config, s.peers[id], now)
      requires redials == set id | id in s.peers && Due(config, s.peers[id], now)
      ensures OnTick(config, s, now) == s.(peers := s.peers - toRemove, launched := s.launched + multiset(redials))
      ensures config.enabled ==> toRemove == set id | id in s.peers && Jitter.ShouldRemove(config, s, id, now)
    {
    }

    method Remove(ids: set<string>)
      requires Valid()
      modifies this`disconnectedPeers
      ensures Valid() && disconnectedPeers.Values <= old(disconnectedPeers.Values)
      ensures Table() == old(Table()) - ids
    {
      disconnectedPeers := disconnectedPeers - ids;
    }

    method Sort(now: int) returns (toRemove: set<string>, redials: set<string>)
      ensures toRemove == set id | id in Abs().peers && Expired(config, Abs().peers[id], now)
      ensures redials == set id | id in Abs().peers && Due(config, Abs().peers[id], now)
    {
      toRemove, redials := {}, {};
      var ids := disconnectedPeers.Keys;
      while ids != {}
        invariant ids <= disconnectedPeers.Keys
        invariant toRemove == set id | id in disconnectedPeers && id !in ids
                  && Expired(config, disconnectedPeers[id].Value(), now)
        invariant redials == set id | id in disconnectedPeers && id !in ids
                  && Due(config, disconnectedPeers[id].Value(), now)
        decreases |ids|
      {
        var id :| id in ids;
        ids := ids - {id};
        var state := disconnectedPeers[id];
        if now - state.DisconnectedAt > config.hold {
          toRemove := toRemove + {id};
        } else if config.maxAttempts > 0 && state.ReconnectAttempts >= config.maxAttempts {
          toRemove := toRemove + {id};
        } else if config.redial && now > state.NextReconnectAt {
          redials := redials + {id};
        }
      }
    }

    /** attemptReconnect up to the callback; reports whether the callback is to be called. */
    method BeginAttempt(id: string) returns (dial: bool)
      requires Valid() && id in launched
      modifies this`launched, this`dialing, disconnectedPeers.Values
      ensures Valid() && dial == (config.callback && id in disconnectedPeers)
      ensures Abs() == OnAttempt(config, old(Abs()), id)
    {
      dial := config.callback && id in disconnectedPeers;
      if dial { Call(id); }
      launched := launched - multiset{id};
    }

    // The attempt is counted and the callback runs.
    method Call(id: string)
      requires Valid() && id in disconnectedPeers
      modifies this`dialing, disconnectedPeers[id]
      ensures Abs() == old(Abs()).(dialing := old(dialing) + multiset{id},
                                   peers := old(Abs()).peers[id := Attempted(old(Abs()).peers[id])])
    {
      MarkReconnecting(id);
      dialing := dialing + multiset{id};
    }

    method MarkReconnecting(id: string)
      requires Valid() && id in disconnectedPeers
      modifies disconnectedPeers[id]
      ensures Table() == old(Table())[id := Attempted(old(Table()[id]))]
    {
      var state := disconnectedPeers[id];
      state.State := Reconnecting;
      state.ReconnectAttempts := state.ReconnectAttempts + 1;
    }

    /** attemptReconnect after the callback. */
    method FinishAttempt(id: string, failed: bool, now: int)
      requires Valid() && id in dialing
      modifies this`dialing, disconnectedPeers.Values
      ensures Valid()
      ensures Abs() == OnFinish(config, old(Abs()), id, failed, now)
    {
      dialing := dialing - multiset{id};
      if id in disconnectedPeers && failed {
        MarkHeld(id, now);
      }
      FinishIs(old(Abs()), Abs(), id, failed, now);
    }

    lemma FinishIs(s: State, t: State, id: string, failed: bool, now: int)
      requires t.launched == s.launched && t.dialing == s.dialing - multiset{id}
      requires if id in s.peers && failed then
                 t.peers == s.peers[id := Backed(config, s.peers[id], now)]
               else t.peers == s.peers
      ensures t == OnFinish(config, s, id, failed, now)
    {
    }

    method MarkHeld(id: string, now: int)
      requires Valid() && id in disconnectedPeers
      modifies disconnectedPeers[id]
      ensures Table() == old(Table())[id := Backed(config, old(Table()[id]), now)]
    {
      var state := disconnectedPeers[id];
      state.LastError := true;
      state.State := Held;
      state.NextReconnectAt := now + Delay(config, state.ReconnectAttempts);
    }
  }
}
