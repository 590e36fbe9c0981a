/**
 The code of the event bus that runs under a node's lock (internal/core/eventbus/bus.go), on the
 objects it updates in place: the delivery loop, the registration of a subscription with its replay,
 and its removal. Each is tied to the functions that the state machine in EventBus steps by.
 */
module BusNode {
  import opened Common
  import EventBus

  class Subscription {
    const cap: nat
    var buf: seq<EventBus.Event>
    var waiting: nat
    var chClosed: bool
    ghost var view: EventBus.Sub               // the subscription as the state machine sees it

    constructor (ghost view: EventBus.Sub, cap: nat)
      requires view.cap == cap && view.buf == [] && view.waiting == 0 && !view.chClosed
      ensures Valid() && this.view == view
    {
      this.cap, buf, waiting, chClosed, this.view := cap, [], 0, false, view;
    }

    ghost predicate Valid()
      reads this
    {
      view.cap == cap && view.buf == buf && view.waiting == waiting && view.chClosed == chClosed
    }

    /** The non-blocking send of a select with a default branch. */
    method TrySend(ev: EventBus.Event) returns (sent: bool)
      requires Valid() && !chClosed
      modifies this
      ensures Valid() && view == EventBus.Put(old(view), ev) && sent == EventBus.CanSend(old(view))
    {
      sent := true;
      view := EventBus.Put(view, ev);
      if waiting > 0 {
        waiting := waiting - 1;
      } else if |buf| < cap {
        buf := buf + [ev];
      } else {
        sent := false;
      }
    }
  }

  // What one delivery does to a subscription, as in EventBus.SendOne.
  function Delivered(b: EventBus.Sub, ev: EventBus.Event): EventBus.Sub {
    EventBus.Put(b, ev).(marks := b.marks + [EventBus.CanSend(b)])
  }

  // The values of some subscriptions, in order.
  ghost function Values(q: seq<Subscription>): (v: seq<EventBus.Sub>)
    reads q
    ensures |v| == |q| && forall i :: 0 <= i < |q| ==> v[i] == q[i].view
  {
    seq(|q|, i requires 0 <= i < |q| reads q => q[i].view)
  }

  function AllDelivered(subs: seq<EventBus.Sub>, ev: EventBus.Event): (r: seq<EventBus.Sub>)
    ensures |r| == |subs| && forall i :: 0 <= i < |subs| ==> r[i] == Delivered(subs[i], ev)
  {
    seq(|subs|, i requires 0 <= i < |subs| => Delivered(subs[i], ev))
  }

  class Node {
    var sinks: seq<Subscription>
    var nEmitters: int
    var keepLast: bool
    var last: EventBus.Event
    var dropCount: nat

    constructor ()
      ensures sinks == [] && nEmitters == 0 && !keepLast && last.NilEvent? && dropCount == 0
    {
      sinks, nEmitters, keepLast, last, dropCount := [], 0, false, EventBus.NilEvent, 0;
    }

    // No subscription is registered twice.
    ghost predicate Valid()
      reads this
    {
      forall i, j :: 0 <= i < j < |sinks| ==> sinks[i] != sinks[j]
    }

    // No registered subscription is closed: EventBusTheorems.NeverPanics.
    ghost predicate Open()
      reads this, sinks
    {
      forall i :: 0 <= i < |sinks| ==> sinks[i].Valid() && !sinks[i].chClosed
    }

    /** emit: remembers the event of a stateful node, offers it to every sink in order, and counts
        the sinks that have no room. */
    method Emit(ev: EventBus.Event)
      requires Valid() && Open()
      modifies this`last, this`dropCount, sinks
      ensures Valid() && Open() && last == if keepLast then ev else old(last)
      ensures Values(sinks) == AllDelivered(old(Values(sinks)), ev)
      ensures dropCount == old(dropCount) + Refusals(old(Values(sinks)))
    {
      ghost var before := Values(sinks);
      if keepLast { last := ev; }
      Deliver(ev, before, AllDelivered(before, ev));
    }

    method Deliver(ev: EventBus.Event, ghost before: seq<EventBus.Sub>, ghost after: seq<EventBus.Sub>)
      requires Valid() && Open() && before == Values(sinks) && |after| == |sinks|
      requires forall i {:trigger after[i]} :: 0 <= i < |sinks| ==> after[i] == Delivered(before[i], ev)
      modifies this`dropCount, sinks
      ensures forall i {:trigger sinks[i]} :: 0 <= i < |sinks| ==>
                sinks[i].Valid() && !sinks[i].chClosed && sinks[i].view == after[i]
      ensures dropCount == old(dropCount) + Refusals(before)
    {
      var i, q := 0, sinks;
      while i < |q|
        invariant 0 <= i <= |q|
        invariant forall k {:trigger q[k]} :: 0 <= k < |q| ==>
                    q[k].Valid() && !q[k].chClosed && q[k].view == if k < i then after[k] else before[k]
        invariant dropCount == old(dropCount) + Refusals(before[..i])
      {
        RefusalsMore(before, i);
        Offer(q[i], ev);
        i := i + 1;
      }
      assert before[..i] == before;
    }

    // One iteration of the loop.
    method Offer(sub: Subscription, ev: EventBus.Event)
      requires sub.Valid() && !sub.chClosed
      modifies this`dropCount, sub
      ensures sub.Valid() && !sub.chClosed && sub.view == Delivered(old(sub.view), ev)
      ensures dropCount == old(dropCount) + if EventBus.CanSend(old(sub.view)) then 0 else 1
    {
      ghost var marks := sub.view.marks;
      var sent := sub.TrySend(ev);
      sub.view := sub.view.(marks := marks + [sent]);
      if !sent { dropCount := dropCount + 1; }
    }

    /** Subscribe's callback: registers the subscription and replays a stateful node's last event. */
    method AddSink(sub: Subscription)
      requires Valid() && sub !in sinks && sub.Valid() && !sub.chClosed
      modifies this`sinks, sub
      ensures Valid() && sinks == old(sinks) + [sub] && sub.Valid()
      ensures sub.view == if keepLast && !last.NilEvent? then EventBus.Put(old(sub.view), last) else old(sub.view)
    {
      sinks := sinks + [sub];
      if keepLast && !last.NilEvent? {
        var sent := sub.TrySend(last);
      }
    }

    /** removeSub under the node's lock: cuts out the first occurrence and reports whether nobody
        uses the node any more. */
    method RemoveSink(sub: Subscription) returns (shouldDrop: bool)
      requires Valid()
      modifies this`sinks
      ensures Valid() && sinks == EventBus.Without(old(sinks), sub) && sub !in sinks
      ensures shouldDrop <==> sinks == [] && nEmitters == 0
    {
      var i := 0;
      while i < |sinks| && sinks[i] != sub
        invariant 0 <= i <= |sinks| && sub !in sinks[..i]
      {
        i := i + 1;
      }
      CutFirst(sinks, sub, i);
      if i < |sinks| {
        sinks := sinks[..i] + sinks[i + 1..];
      }
      shouldDrop := |sinks| == 0 && nEmitters == 0;
    }
  }

  lemma {:induction false} CutFirst<T>(q: seq<T>, x: T, i: nat)
    requires i <= |q| && x !in q[..i] && (i < |q| ==> q[i] == x)
    ensures EventBus.Without(q, x) == if i < |q| then q[..i] + q[i + 1..] else q
    decreases i
  {
    if i > 0 {
      assert q[0] in q[..i] && q[1..][..i - 1] == q[..i][1..];
      CutFirst(q[1..], x, i - 1);
      assert i < |q| ==> [q[0]] + (q[1..][..i - 1] + q[1..][i..]) == q[..i] + q[i + 1..];
    }
  }

  // How many of the subscriptions have no room.
  function Refusals(subs: seq<EventBus.Sub>): nat {
    if subs == [] then 0
    else Refusals(subs[..|subs| - 1]) + if EventBus.CanSend(subs[|subs| - 1]) then 0 else 1
  }

  lemma RefusalsMore(subs: seq<EventBus.Sub>, i: nat)
    requires i < |subs|
    ensures Refusals(subs[..i + 1]) == Refusals(subs[..i]) + if EventBus.CanSend(subs[i]) then 0 else 1
  {
    assert subs[..i + 1][..i] == subs[..i];
  }

  // ---------------------------------------------------------------- the delivery loop of the state machine

  // The rest of operation t's loop from sink i on, with nothing in between.
  function EmitRest(s: EventBus.State, t: nat, n: nat, ev: EventBus.Event, i: nat): EventBus.State
    requires t < |s.ops| && n < |s.nodes| && i <= |s.nodes[n].sinks|
    requires forall k :: 0 <= k < |s.nodes[n].sinks| ==> s.nodes[n].sinks[k] < |s.subs|
    decreases |s.nodes[n].sinks| - i
  {
    if i == |s.nodes[n].sinks| then s else EmitRest(EventBus.SendOne(s, t, n, ev, i), t, n, ev, i + 1)
  }

  // The subscriptions registered with node n, in order.
  function SinksOf(s: EventBus.State, n: nat): (q: seq<EventBus.Sub>)
    requires n < |s.nodes| && forall k :: 0 <= k < |s.nodes[n].sinks| ==> s.nodes[n].sinks[k] < |s.subs|
    ensures |q| == |s.nodes[n].sinks| && forall k :: 0 <= k < |q| ==> q[k] == s.subs[s.nodes[n].sinks[k]]
  {
    seq(|s.nodes[n].sinks|, k requires 0 <= k < |s.nodes[n].sinks| => s.subs[s.nodes[n].sinks[k]])
  }

  lemma SendOneDelivers(s: EventBus.State, t: nat, n: nat, ev: EventBus.Event, i: nat)
    requires t < |s.ops| && n < |s.nodes| && i < |s.nodes[n].sinks| && s.nodes[n].sinks[i] < |s.subs|
    ensures var x, r := s.nodes[n].sinks[i], EventBus.SendOne(s, t, n, ev, i);
            && r.subs == s.subs[x := Delivered(s.subs[x], ev)]
            && |r.nodes| == |s.nodes| && |r.ops| == |s.ops|
            && r.nodes[n].sinks == s.nodes[n].sinks
            && r.nodes[n].dropCount == s.nodes[n].dropCount + if EventBus.CanSend(s.subs[x]) then 0 else 1
  {
  }

  // One step changes no later sink.
  lemma LaterSinks(s: EventBus.State, t: nat, n: nat, ev: EventBus.Event, i: nat)
    requires t < |s.ops| && n < |s.nodes| && i < |s.nodes[n].sinks| && Distinct(s.nodes[n].sinks)
    requires forall k :: 0 <= k < |s.nodes[n].sinks| ==> s.nodes[n].sinks[k] < |s.subs|
    ensures var m, sinks := EventBus.SendOne(s, t, n, ev, i), s.nodes[n].sinks;
            && |m.subs| == |s.subs| && n < |m.nodes| && t < |m.ops| && m.nodes[n].sinks == sinks
            && SinksOf(m, n)[i + 1..] == SinksOf(s, n)[i + 1..]
            && m.subs[sinks[i]] == Delivered(s.subs[sinks[i]], ev)
            && (forall x :: 0 <= x < |s.subs| && x != sinks[i] ==> m.subs[x] == s.subs[x])
            && m.nodes[n].dropCount == s.nodes[n].dropCount + if EventBus.CanSend(SinksOf(s, n)[i]) then 0 else 1
  {
    SendOneDelivers(s, t, n, ev, i);
  }

  lemma {:induction false} EmitRestCounts(s: EventBus.State, t: nat, n: nat, ev: EventBus.Event, i: nat)
    requires t < |s.ops| && n < |s.nodes| && i <= |s.nodes[n].sinks| && Distinct(s.nodes[n].sinks)
    requires forall k :: 0 <= k < |s.nodes[n].sinks| ==> s.nodes[n].sinks[k] < |s.subs|
    ensures var r := EmitRest(s, t, n, ev, i);
            n < |r.nodes| && r.nodes[n].dropCount == s.nodes[n].dropCount + Refusals(SinksOf(s, n)[i..])
    decreases |s.nodes[n].sinks| - i
  {
    var q := SinksOf(s, n);
    if i < |q| {
      var m := EventBus.SendOne(s, t, n, ev, i);
      LaterSinks(s, t, n, ev, i);
      EmitRestCounts(m, t, n, ev, i + 1);
      RefusalsFirst(q[i..]);
      assert q[i..][0] == q[i] && q[i..][1..] == q[i + 1..];
    } else {
      assert q[i..] == [];
    }
  }

  // A subscription that the rest of the loop does not reach.
  lemma {:induction false} EmitRestSpares(s: EventBus.State, t: nat, n: nat, ev: EventBus.Event, i: nat, x: nat)
    requires t < |s.ops| && n < |s.nodes| && i <= |s.nodes[n].sinks| && Distinct(s.nodes[n].sinks)
    requires forall k :: 0 <= k < |s.nodes[n].sinks| ==> s.nodes[n].sinks[k] < |s.subs|
    requires x < |s.subs| && x !in s.nodes[n].sinks[i..]
    ensures var r := EmitRest(s, t, n, ev, i);
            |r.subs| == |s.subs| && n < |r.nodes| && r.nodes[n].sinks == s.nodes[n].sinks && r.subs[x] == s.subs[x]
    decreases |s.nodes[n].sinks| - i
  {
    var sinks := s.nodes[n].sinks;
    if i < |sinks| {
      assert sinks[i..] == [sinks[i]] + sinks[i + 1..];
      LaterSinks(s, t, n, ev, i);
      EmitRestSpares(EventBus.SendOne(s, t, n, ev, i), t, n, ev, i + 1, x);
    }
  }

  // A sink that it reaches.
  lemma {:induction false} EmitRestReaches(s: EventBus.State, t: nat, n: nat, ev: EventBus.Event, i: nat, k: nat)
    requires t < |s.ops| && n < |s.nodes| && i <= k < |s.nodes[n].sinks| && Distinct(s.nodes[n].sinks)
    requires forall k :: 0 <= k < |s.nodes[n].sinks| ==> s.nodes[n].sinks[k] < |s.subs|
    ensures var r, x := EmitRest(s, t, n, ev, i), s.nodes[n].sinks[k];
            |r.subs| == |s.subs| && r.subs[x] == Delivered(s.subs[x], ev)
    decreases |s.nodes[n].sinks| - i
  {
    LaterSinks(s, t, n, ev, i);
    if k == i {
      EmitRestHere(s, t, n, ev, i);
    } else {
      EmitRestReaches(EventBus.SendOne(s, t, n, ev, i), t, n, ev, i + 1, k);
    }
  }

  lemma EmitRestHere(s: EventBus.State, t: nat, n: nat, ev: EventBus.Event, i: nat)
    requires t < |s.ops| && n < |s.nodes| && i < |s.nodes[n].sinks| && Distinct(s.nodes[n].sinks)
    requires forall k :: 0 <= k < |s.nodes[n].sinks| ==> s.nodes[n].sinks[k] < |s.subs|
    ensures var r, x := EmitRest(s, t, n, ev, i), s.nodes[n].sinks[i];
            |r.subs| == |s.subs| && r.subs[x] == Delivered(s.subs[x], ev)
  {
    LaterSinks(s, t, n, ev, i);
    assert s.nodes[n].sinks[i] !in s.nodes[n].sinks[i + 1..];
    EmitRestSpares(EventBus.SendOne(s, t, n, ev, i), t, n, ev, i + 1, s.nodes[n].sinks[i]);
  }

  lemma {:induction false} EmitRestShape(s: EventBus.State, t: nat, n: nat, ev: EventBus.Event, i: nat)
    requires t < |s.ops| && n < |s.nodes| && i <= |s.nodes[n].sinks| && Distinct(s.nodes[n].sinks)
    requires forall k :: 0 <= k < |s.nodes[n].sinks| ==> s.nodes[n].sinks[k] < |s.subs|
    ensures var r := EmitRest(s, t, n, ev, i);
            |r.subs| == |s.subs| && n < |r.nodes| && r.nodes[n].sinks == s.nodes[n].sinks
    decreases |s.nodes[n].sinks| - i
  {
    if i < |s.nodes[n].sinks| {
      LaterSinks(s, t, n, ev, i);
      EmitRestShape(EventBus.SendOne(s, t, n, ev, i), t, n, ev, i + 1);
    }
  }

  lemma {:induction false} RefusalsFirst(subs: seq<EventBus.Sub>)
    requires subs != []
    ensures Refusals(subs) == (if EventBus.CanSend(subs[0]) then 0 else 1) + Refusals(subs[1..])
    decreases |subs|
  {
    var k := |subs| - 1;
    if k > 0 {
      RefusalsFirst(subs[..k]);
      assert subs[1..][..k - 1] == subs[..k][1..];
    } else {
      assert subs[1..] == [] && subs[..k] == [];
    }
  }

  // The rest of the loop, for all its sinks at once.
  lemma EmitRestAll(s: EventBus.State, t: nat, n: nat, ev: EventBus.Event, r: EventBus.State)
    requires t < |s.ops| && n < |s.nodes| && Distinct(s.nodes[n].sinks)
    requires forall k :: 0 <= k < |s.nodes[n].sinks| ==> s.nodes[n].sinks[k] < |s.subs|
    requires r == EmitRest(s, t, n, ev, 0) && |r.subs| == |s.subs|
    ensures forall k :: 0 <= k < |s.nodes[n].sinks| ==>
            r.subs[s.nodes[n].sinks[k]] == Delivered(s.subs[s.nodes[n].sinks[k]], ev)
    ensures forall x :: 0 <= x < |s.subs| && x !in s.nodes[n].sinks ==> r.subs[x] == s.subs[x]
  {
    forall k | 0 <= k < |s.nodes[n].sinks|
      ensures r.subs[s.nodes[n].sinks[k]] == Delivered(s.subs[s.nodes[n].sinks[k]], ev)
    {
      EmitRestReaches(s, t, n, ev, 0, k);
    }
    assert s.nodes[n].sinks[0..] == s.nodes[n].sinks;
    forall x | 0 <= x < |s.subs| && x !in s.nodes[n].sinks ensures r.subs[x] == s.subs[x] {
      EmitRestSpares(s, t, n, ev, 0, x);
    }
  }

  /** Run without interruption, the state machine's loop does to the sinks and to the drop counter what
      Node.Emit does, and leaves every other subscription alone. */
  lemma EmitAsMachine(s: EventBus.State, t: nat, n: nat, ev: EventBus.Event, r: EventBus.State)
    requires t < |s.ops| && n < |s.nodes| && Distinct(s.nodes[n].sinks)
    requires forall k :: 0 <= k < |s.nodes[n].sinks| ==> s.nodes[n].sinks[k] < |s.subs|
    requires r == EmitRest(s, t, n, ev, 0)
    ensures n < |r.nodes| && r.nodes[n].sinks == s.nodes[n].sinks && |r.subs| == |s.subs|
    ensures SinksOf(r, n) == AllDelivered(SinksOf(s, n), ev)
    ensures forall x :: 0 <= x < |s.subs| && x !in s.nodes[n].sinks ==> r.subs[x] == s.subs[x]
    ensures r.nodes[n].dropCount == s.nodes[n].dropCount + Refusals(SinksOf(s, n))
  {
    EmitRestShape(s, t, n, ev, 0);
    EmitRestCounts(s, t, n, ev, 0);
    EmitRestAll(s, t, n, ev, r);
    assert SinksOf(s, n)[0..] == SinksOf(s, n);
  }
}
