/**
 What the table of lost peers says is told by the events since each entry was made, and so is when a peer
 is redialed.
 */
module JitterHistory {
  import opened Jitter

  // The peer's entry was made by event d and is in the table since.
  ghost predicate Kept(run: seq<State>, evs: seq<Event>, d: nat, n: nat, id: string) {
    d < n <= |evs| && |run| == |evs| + 1 && id !in run[d].peers && forall i :: d < i <= n ==> id in run[i].peers
  }

  // The attempts counted since the entry was made.
  function Counted(c: Config, evs: seq<Event>, id: string, d: nat, n: nat): nat
    requires d < n <= |evs|
  {
    if n == d + 1 then 0 else Counted(c, evs, id, d, n - 1) + if c.callback && evs[n - 1] == Attempt(id) then 1 else 0
  }

  // When the peer may be redialed: after the initial delay, or after the backoff since the last failure.
  function NextTry(c: Config, evs: seq<Event>, at: seq<int>, id: string, d: nat, n: nat): int
    requires d < n <= |evs| == |at|
  {
    if n == d + 1 then at[d] + c.initial
    else if evs[n - 1] == Finish(id, true) then at[n - 1] + Delay(c, Counted(c, evs, id, d, n - 1))
    else NextTry(c, evs, at, id, d, n - 1)
  }

  // The status by the last loss, attempt or failure.
  function Phase(c: Config, evs: seq<Event>, id: string, d: nat, n: nat): Status
    requires d < n <= |evs|
  {
    if n == d + 1 || evs[n - 1] == Disconnect(id) then Disconnected
    else if c.callback && evs[n - 1] == Attempt(id) then Reconnecting
    else if evs[n - 1] == Finish(id, true) then Held
    else Phase(c, evs, id, d, n - 1)
  }

  // Did an attempt fail since the entry was made?
  function FailedSince(evs: seq<Event>, id: string, d: nat, n: nat): bool
    requires d < n <= |evs|
  {
    n > d + 1 && (evs[n - 1] == Finish(id, true) || FailedSince(evs, id, d, n - 1))
  }

  lemma EntryMade(c: Config, s: State, e: Event, now: int, id: string)
    requires Enabled(s, e) && id !in s.peers && id in Step(c, s, e, now).peers
    ensures e == Disconnect(id) && Step(c, s, e, now).peers[id] == Peer(now, 0, now + c.initial, Disconnected, false)
  {
  }

  // What one event does to the entry of a peer that stays.
  lemma EntryStep(c: Config, s: State, e: Event, now: int, id: string)
    requires Enabled(s, e) && id in s.peers && id in Step(c, s, e, now).peers && c.enabled
    ensures var p, q := s.peers[id], Step(c, s, e, now).peers[id];
            q == if e == Disconnect(id) then p.(since := now, status := Disconnected)
                 else if e == Attempt(id) && c.callback then p.(attempts := p.attempts + 1, status := Reconnecting)
                 else if e == Finish(id, true) then
                   p.(failed := true, status := Held, nextAt := now + Delay(c, p.attempts))
                 else p
  {
  }

  lemma OneBack(run: seq<State>, evs: seq<Event>, d: nat, n: nat, id: string)
    requires Kept(run, evs, d, n, id) && n > d + 1
    ensures Kept(run, evs, d, n - 1, id) && id in run[n - 1].peers && id in run[n].peers
  {
  }

  lemma RunStep(c: Config, run: seq<State>, evs: seq<Event>, at: seq<int>, k: nat, n: nat)
    requires IsRun(c, run, evs, at) && n == k + 1 <= |evs|
    ensures Enabled(run[k], evs[k]) && run[n] == Step(c, run[k], evs[k], at[k])
  {
  }

  /** The entry of a peer that is in the table without a break since event d. */
  lemma {:induction false} EntryTells(c: Config, run: seq<State>, evs: seq<Event>, at: seq<int>,
                                      d: nat, n: nat, id: string)
    requires IsRun(c, run, evs, at) && c.enabled && Kept(run, evs, d, n, id)
    ensures run[n].peers[id] == Peer(LastLost(evs, at, id, d, n), Counted(c, evs, id, d, n),
                                     NextTry(c, evs, at, id, d, n), Phase(c, evs, id, d, n), FailedSince(evs, id, d, n))
    decreases n
  {
    var k := n - 1;
    RunStep(c, run, evs, at, k, n);
    if n == d + 1 {
      EntryMade(c, run[k], evs[k], at[k], id);
    } else {
      OneBack(run, evs, d, n, id);
      EntryTells(c, run, evs, at, d, k, id);
      EntryStep(c, run[k], evs[k], at[k], id);
    }
  }

  /** A tick redials such a peer exactly if redialing is on, its time has come, it was not lost for longer
      than the hold time, and its attempts are not used up. */
  lemma RedialedIff(c: Config, run: seq<State>, evs: seq<Event>, at: seq<int>, d: nat, n: nat, id: string)
    requires IsRun(c, run, evs, at) && c.enabled && Kept(run, evs, d, n, id) && n < |evs| && evs[n].Tick?
    ensures var due := && c.redial && at[n] > NextTry(c, evs, at, id, d, n)
                       && at[n] - LastLost(evs, at, id, d, n) <= c.hold
                       && (c.maxAttempts > 0 ==> Counted(c, evs, id, d, n) < c.maxAttempts);
            run[n + 1].launched[id] == run[n].launched[id] + if due then 1 else 0
  {
    EntryTells(c, run, evs, at, d, n, id);
    RunStep(c, run, evs, at, n, n + 1);
    TickRemoves(c, run[n], at[n], id);
  }

  // ---------------------------------------------------------------- attempts under way

  // Attempts that found the peer in the table, and so called back.
  function Calls(c: Config, run: seq<State>, evs: seq<Event>, id: string, n: nat): nat
    requires n <= |evs| < |run|
  {
    if n == 0 then 0
    else Calls(c, run, evs, id, n - 1)
         + if c.callback && evs[n - 1] == Attempt(id) && id in run[n - 1].peers then 1 else 0
  }

  function Finishes(evs: seq<Event>, id: string, n: nat): nat
    requires n <= |evs|
  {
    if n == 0 then 0
    else Finishes(evs, id, n - 1) + if evs[n - 1].Finish? && evs[n - 1].peer == id then 1 else 0
  }

  /** The callback is under way once for every attempt that found its peer in the table and is not finished. */
  lemma {:induction false} CallsTell(c: Config, run: seq<State>, evs: seq<Event>, at: seq<int>, n: nat, id: string)
    requires IsRun(c, run, evs, at) && n < |run|
    ensures run[n].dialing[id] + Finishes(evs, id, n) == Calls(c, run, evs, id, n)
  {
    if n > 0 {
      var k := n - 1;
      CallsTell(c, run, evs, at, k, id);
      RunStep(c, run, evs, at, k, n);
      DialingStep(c, run[k], evs[k], at[k], id);
    }
  }

  lemma DialingStep(c: Config, s: State, e: Event, now: int, id: string)
    requires Enabled(s, e)
    ensures Step(c, s, e, now).dialing[id] + (if e.Finish? && e.peer == id then 1 else 0) ==
            s.dialing[id] + if c.callback && e == Attempt(id) && id in s.peers then 1 else 0
  {
  }
}
