/**
 The two ends of a subscription's channel: what a late subscription finds in it, and where every receive
 went.
 */
module EventBusChannels {
  import opened Common
  import opened Wrappers
  import opened EventBus
  import opened EventBusInvariant
  import opened EventBusSteps
  import opened EventBusDelivery
  import opened EventBusTheorems
  import opened EventBusCalls

  // ---------------------------------------------------------------- what a node remembers

  // Was a stateful emitter of node n made, closed or not?
  ghost predicate StatefulOn(s: State, n: nat) {
    exists e :: 0 <= e < |s.emitters| && StatefulAt(s.emitters[e], n)
  }

  predicate StatefulAt(m: Emitter, n: nat) { !m.stage.Creating? && m.stateful && m.node == n }

  // The last event emitted on node n since its first stateful emitter was made.
  ghost function LastStateful(run: seq<State>, n: nat, i: nat): Event
    requires i < |run|
  {
    if i == 0 then NilEvent
    else if |EmittedOn(run[i], n)| > |EmittedOn(run[i - 1], n)| && StatefulOn(run[i - 1], n)
    then EmittedOn(run[i], n)[|EmittedOn(run[i], n)| - 1]
    else LastStateful(run, n, i - 1)
  }

  ghost predicate Remembers(s: State, n: nat, last: Event) {
    if n < |s.nodes| then (s.nodes[n].keepLast <==> StatefulOn(s, n)) && s.nodes[n].last == last
    else last == NilEvent && !StatefulOn(s, n)
  }

  // What a step may do to the memory of node n.
  lemma EmitterMemory(s: State, t: nat, e: nat, k: nat, n: nat)
    requires Structure(s) && At(s, t) && s.ops[t] == HasNode(EmitterTask(e), k)
    ensures var s' := Advance(s, t);
            && |s'.nodes| == |s.nodes| && EmittedOn(s', n) == EmittedOn(s, n) && k < |s.nodes|
            && (StatefulOn(s', n) <==> StatefulOn(s, n) || (n == k && s.emitters[e].stateful))
            && (n < |s.nodes| ==>
                && s'.nodes[n].last == s.nodes[n].last
                && s'.nodes[n].keepLast == (s.nodes[n].keepLast || (n == k && s.emitters[e].stateful)))
  {
    assert OpOk(s, t);
    var s' := Advance(s, t);
    assert s'.emitters == s.emitters[e := s'.emitters[e]];
    if StatefulOn(s, n) {
      var d :| 0 <= d < |s.emitters| && StatefulAt(s.emitters[d], n);
      assert StatefulAt(s'.emitters[d], n);
    }
    if n == k && s.emitters[e].stateful { assert StatefulAt(s'.emitters[e], n); }
  }

  lemma EmitMemory(s: State, t: nat, k: nat, ev: Event, n: nat)
    requires Structure(s) && At(s, t) && s.ops[t] == EmitWait(k, ev)
    ensures var s' := Advance(s, t);
            && |s'.nodes| == |s.nodes| && k < |s.nodes| && s'.emitters == s.emitters
            && EmittedOn(s', n) == (if n == k then EmittedOn(s, n) + [ev] else EmittedOn(s, n))
            && (n < |s.nodes| ==>
                && s'.nodes[n].keepLast == s.nodes[n].keepLast
                && s'.nodes[n].last == if n == k && s.nodes[n].keepLast then ev else s.nodes[n].last)
  {
    assert OpOk(s, t);
  }

  ghost predicate SameNodeMemory(s: State, s': State, n: nat) {
    && |s.nodes| <= |s'.nodes| && EmittedOn(s', n) == EmittedOn(s, n)
    && (n < |s.nodes| ==> s'.nodes[n].last == s.nodes[n].last && s'.nodes[n].keepLast == s.nodes[n].keepLast)
    && (|s.nodes| <= n < |s'.nodes| ==> s'.nodes[n].last == NilEvent && !s'.nodes[n].keepLast)
  }

  ghost predicate SameMemory(s: State, s': State, n: nat) {
    SameNodeMemory(s, s', n) && (StatefulOn(s', n) <==> StatefulOn(s, n))
  }

  lemma OtherMemory(s: State, t: nat, n: nat)
    requires Structure(s) && At(s, t) && !s.ops[t].EmitWait? && !(s.ops[t].HasNode? && s.ops[t].task.EmitterTask?)
    ensures SameMemory(s, Advance(s, t), n)
  {
    OtherNode(s, t, n);
    OtherEmitters(s, t);
    SameStateful(s, Advance(s, t), n);
  }

  lemma OtherNode(s: State, t: nat, n: nat)
    requires Structure(s) && At(s, t) && !s.ops[t].EmitWait? && !(s.ops[t].HasNode? && s.ops[t].task.EmitterTask?)
    ensures SameNodeMemory(s, Advance(s, t), n)
  {
    var pc := s.ops[t];
    if pc.HasNode? || pc.EmitLoop? || pc.RemHasNode? || pc.DecRefs? {
      HandleNode(s, t, n);
    } else {
      ControlNode(s, t, n);
    }
  }

  lemma HandleNode(s: State, t: nat, n: nat)
    requires At(s, t)
    requires || (s.ops[t].HasNode? && s.ops[t].task.SubTask?) || s.ops[t].EmitLoop?
             || s.ops[t].RemHasNode? || s.ops[t].DecRefs?
    ensures SameNodeMemory(s, Advance(s, t), n)
  {
  }

  lemma ControlNode(s: State, t: nat, n: nat)
    requires At(s, t)
    requires !s.ops[t].HasNode? && !s.ops[t].EmitLoop? && !s.ops[t].RemHasNode?
    requires !s.ops[t].DecRefs? && !s.ops[t].EmitWait?
    ensures SameNodeMemory(s, Advance(s, t), n)
  {
  }

  ghost predicate SameEmitterNodes(s: State, s': State) {
    && |s'.emitters| == |s.emitters|
    && forall e :: 0 <= e < |s.emitters| ==> SameStatefulness(s.emitters[e], s'.emitters[e])
  }

  ghost predicate SameStatefulness(a: Emitter, b: Emitter) {
    a.stateful == b.stateful && a.node == b.node && (a.stage.Creating? <==> b.stage.Creating?)
  }

  lemma OtherEmitters(s: State, t: nat)
    requires Structure(s) && At(s, t) && !(s.ops[t].HasNode? && s.ops[t].task.EmitterTask?)
    ensures SameEmitterNodes(s, Advance(s, t))
  {
    StepLength(s, t);
    forall e | 0 <= e < |s.emitters| ensures SameStatefulness(s.emitters[e], Advance(s, t).emitters[e]) {
      OtherEmitter(s, t, e);
    }
  }

  lemma OtherEmitter(s: State, t: nat, e: nat)
    requires Structure(s) && At(s, t) && !(s.ops[t].HasNode? && s.ops[t].task.EmitterTask?)
    requires e < |s.emitters| == |Advance(s, t).emitters|
    ensures SameStatefulness(s.emitters[e], Advance(s, t).emitters[e])
  {
    assert OpOk(s, t) && EmitterOk(s, e);
  }

  lemma SameStateful(s: State, s': State, n: nat)
    requires SameEmitterNodes(s, s')
    ensures StatefulOn(s', n) <==> StatefulOn(s, n)
  {
    if StatefulOn(s, n) {
      var d :| 0 <= d < |s.emitters| && StatefulAt(s.emitters[d], n);
      assert StatefulAt(s'.emitters[d], n);
    }
    if StatefulOn(s', n) {
      var d :| 0 <= d < |s'.emitters| && StatefulAt(s'.emitters[d], n);
      assert SameStatefulness(s.emitters[d], s'.emitters[d]);
      assert StatefulAt(s.emitters[d], n);
    }
  }

  lemma ClientMemory(s: State, a: Action, n: nat)
    requires Enabled(s, a) && !a.Step?
    ensures SameMemory(s, Apply(s, a), n)
  {
    var s' := Apply(s, a);
    assert s.emitters <= s'.emitters;
    assert forall e :: |s.emitters| <= e < |s'.emitters| ==> s'.emitters[e].stage.Creating?;
    if StatefulOn(s, n) {
      var d :| 0 <= d < |s.emitters| && StatefulAt(s.emitters[d], n);
      assert StatefulAt(s'.emitters[d], n);
    }
    if StatefulOn(s', n) {
      var d :| 0 <= d < |s'.emitters| && StatefulAt(s'.emitters[d], n);
      assert d < |s.emitters| && StatefulAt(s.emitters[d], n);
    }
  }

  // The event a node is to remember after a step.
  ghost function Recalled(s: State, s': State, n: nat, last: Event): Event {
    var emitted := EmittedOn(s', n);
    if |emitted| > |EmittedOn(s, n)| && StatefulOn(s, n) then emitted[|emitted| - 1] else last
  }

  lemma MemoryStep(s: State, a: Action, n: nat, last: Event)
    requires Structure(s) && Enabled(s, a) && Remembers(s, n, last)
    ensures Remembers(Apply(s, a), n, Recalled(s, Apply(s, a), n, last))
  {
    if !a.Step? {
      ClientMemory(s, a, n);
    } else if s.ops[a.t].EmitWait? {
      EmitMemory(s, a.t, s.ops[a.t].n, s.ops[a.t].ev, n);
      SameStateful(s, Apply(s, a), n);
    } else if s.ops[a.t].HasNode? && s.ops[a.t].task.EmitterTask? {
      EmitterMemory(s, a.t, s.ops[a.t].task.em, s.ops[a.t].n, n);
    } else {
      OtherMemory(s, a.t, n);
    }
  }

  lemma RunStep(run: seq<State>, acts: seq<Action>, k: nat, i: nat)
    requires IsRun(run, acts) && i == k + 1 < |run|
    ensures Structure(run[k]) && Logs(run[k]) && Enabled(run[k], acts[k]) && run[i] == Apply(run[k], acts[k])
  {
    RunLogs(run, acts, k);
  }

  lemma NextStateful(run: seq<State>, n: nat, k: nat, i: nat, s: State, s': State, last: Event)
    requires i == k + 1 < |run| && s == run[k] && s' == run[i] && last == LastStateful(run, n, k)
    ensures LastStateful(run, n, i) == Recalled(s, s', n, last)
  {
  }

  lemma {:induction false} RunRemembers(run: seq<State>, acts: seq<Action>, i: nat, n: nat)
    requires IsRun(run, acts) && i < |run|
    ensures Remembers(run[i], n, LastStateful(run, n, i))
  {
    if i > 0 {
      var k := i - 1;
      var last := LastStateful(run, n, k);
      RunRemembers(run, acts, k, n);
      RunStep(run, acts, k, i);
      NextStateful(run, n, k, i, run[k], run[i], last);
      MemoryStep(run[k], acts[k], n, last);
    }
  }

  /** A subscription is registered with its node's replay in its channel, and nothing else: the last event
      emitted since the node's first stateful emitter was made, if there is one and the channel has a
      buffer. */
  lemma ReplayIff(run: seq<State>, acts: seq<Action>, k: nat, i: nat, x: nat)
    requires IsRun(run, acts) && i == k + 1 < |run|
    requires x < |run[k].subs| && run[k].subs[x].stage.Creating? && x < |run[i].subs| && !run[i].subs[x].stage.Creating?
    ensures var b := run[i].subs[x];
            && b.node < |run[i].nodes| && run[i].nodes[b.node].typ == b.typ && b.regAt == |run[i].nodes[b.node].emitted|
            && b.buf == b.replay && b.consumed == [] && b.marks == [] && b.waiting == 0
            && var last := LastStateful(run, b.node, k);
               b.replay == if last != NilEvent && b.cap > 0 then [last] else []
  {
    RunStep(run, acts, k, i);
    Registered(run[k], acts[k], x);
    RunRemembers(run, acts, k, run[i].subs[x].node);
    Replayed(run[k], run[i].subs[x].node, LastStateful(run, run[i].subs[x].node, k));
  }

  // A node that is not to keep events remembers none.
  lemma Replayed(s: State, n: nat, last: Event)
    requires Logs(s) && n < |s.nodes| && Remembers(s, n, last)
    ensures s.nodes[n].last == last && (last != NilEvent ==> s.nodes[n].keepLast)
  {
    assert NodeLogOk(s, n);
  }

  lemma Registered(s: State, a: Action, x: nat)
    requires Structure(s) && Logs(s) && Enabled(s, a) && x < |s.subs| && s.subs[x].stage.Creating?
    requires x < |Apply(s, a).subs| && !Apply(s, a).subs[x].stage.Creating?
    ensures var s' := Apply(s, a);
            var b := s'.subs[x];
            && b.node < |s.nodes| && b.node < |s'.nodes| && s'.nodes[b.node].typ == b.typ
            && b.regAt == |s'.nodes[b.node].emitted|
            && b.buf == b.replay && b.consumed == [] && b.marks == [] && b.waiting == 0
            && b.replay == (if s.nodes[b.node].keepLast && s.nodes[b.node].last != NilEvent && b.cap > 0
                            then [s.nodes[b.node].last] else [])
  {
    assert SubOk(s, x) && LogOk(s, x);
    if a.Step? {
      StepShape(s, a.t);
      assert OpOk(s, a.t);
      RegisteredBy(s, a.t, x);
    }
  }

  // Only the subscription's own call registers it.
  lemma RegisteredBy(s: State, t: nat, x: nat)
    requires Structure(s) && At(s, t) && x < |s.subs| == |Advance(s, t).subs| && s.subs[x].stage.Creating?
    requires !Advance(s, t).subs[x].stage.Creating?
    ensures s.ops[t].HasNode? && s.ops[t].task == SubTask(x)
  {
    assert OpOk(s, t);
    if !TouchesSubs(s.ops[t]) {
      SubsSame(s, t);
    } else if !s.ops[t].HasNode? {
      StaysCreating(s, t, x);
    }
  }

  lemma StaysCreating(s: State, t: nat, x: nat)
    requires OpOkAt(s, t) && x < |s.subs| == |Advance(s, t).subs| && s.subs[x].stage.Creating?
    requires TouchesSubs(s.ops[t]) && !s.ops[t].HasNode?
    ensures Advance(s, t).subs[x].stage.Creating?
  {
  }

  // ---------------------------------------------------------------- receives

  function Receives(acts: seq<Action>, x: nat, i: nat): nat
    requires i <= |acts|
  {
    if i == 0 then 0 else Receives(acts, x, i - 1) + if acts[i - 1] == Receive(x) then 1 else 0
  }

  function Abandons(acts: seq<Action>, x: nat, i: nat): nat
    requires i <= |acts|
  {
    if i == 0 then 0 else Abandons(acts, x, i - 1) + if acts[i - 1] == Abandon(x) then 1 else 0
  }

  // A send moves a waiting receiver to the events consumed; a closed channel is left alone.
  ghost predicate SendsOnly(a: Sub, b: Sub) {
    && (a.chClosed ==> b.chClosed && b.consumed == a.consumed && b.buf == a.buf && b.waiting == a.waiting)
    && (!a.chClosed && b.chClosed ==> b.consumed == a.consumed && b.buf == a.buf && b.waiting == 0)
    && (!b.chClosed ==> |b.consumed| + b.waiting == |a.consumed| + a.waiting)
  }

  lemma SubSendsOnly(s: State, t: nat, x: nat)
    requires Structure(s) && At(s, t) && x < |s.subs|
    ensures x < |Advance(s, t).subs| && SendsOnly(s.subs[x], Advance(s, t).subs[x])
  {
    StepShape(s, t);
    if !TouchesSubs(s.ops[t]) {
      SubsSame(s, t);
    } else if s.ops[t].EmitLoop? {
      SendSendsOnly(s, t, x);
    } else {
      TouchSendsOnly(s, t, x);
    }
  }

  lemma TouchSendsOnly(s: State, t: nat, x: nat)
    requires Structure(s) && At(s, t) && x < |s.subs| == |Advance(s, t).subs|
    requires TouchesSubs(s.ops[t]) && !s.ops[t].EmitLoop?
    ensures SendsOnly(s.subs[x], Advance(s, t).subs[x])
  {
    assert OpOk(s, t) && SubOk(s, x);
  }

  lemma SendSendsOnly(s: State, t: nat, x: nat)
    requires Structure(s) && At(s, t) && x < |s.subs| == |Advance(s, t).subs| && s.ops[t].EmitLoop?
    ensures SendsOnly(s.subs[x], Advance(s, t).subs[x])
  {
    var n, i := s.ops[t].n, s.ops[t].i;
    assert NodeOk(s, n) && SubOk(s, x);
    if i < |s.nodes[n].sinks| { assert s.nodes[n].sinks[i] in s.nodes[n].sinks; }
  }

  // The receives of a subscription so far, and what became of them.
  ghost predicate Received(s: State, x: nat, receives: nat, abandons: nat) {
    if x < |s.subs| then
      && (s.subs[x].chClosed ==> s.subs[x].waiting == 0)
      && (!s.subs[x].chClosed ==> receives == |s.subs[x].consumed| + s.subs[x].waiting + abandons)
    else receives == 0 && abandons == 0
  }

  lemma ReceivedStep(s: State, a: Action, x: nat, receives: nat, abandons: nat)
    requires Structure(s) && Enabled(s, a) && Received(s, x, receives, abandons)
    ensures Received(Apply(s, a), x, receives + (if a == Receive(x) then 1 else 0),
                     abandons + if a == Abandon(x) then 1 else 0)
  {
    if a.Step? {
      StepShape(s, a.t);
      if x < |s.subs| { SubSendsOnly(s, a.t, x); }
    }
  }

  lemma {:induction false} RunReceived(run: seq<State>, acts: seq<Action>, i: nat, x: nat)
    requires IsRun(run, acts) && i < |run|
    ensures Received(run[i], x, Receives(acts, x, i), Abandons(acts, x, i))
  {
    if i > 0 {
      var k := i - 1;
      RunReceived(run, acts, k, x);
      RunStep(run, acts, k, i);
      ReceivedStep(run[k], acts[k], x, Receives(acts, x, k), Abandons(acts, x, k));
    }
  }

  /** While a channel is open, every receive on it got one event, waits for one, or was given up; nobody waits
      on a closed channel, nor on one that has an event. */
  lemma ReceivesAccounted(run: seq<State>, acts: seq<Action>, i: nat, x: nat)
    requires IsRun(run, acts) && i < |run| && x < |run[i].subs|
    ensures var b := run[i].subs[x];
            && (b.waiting > 0 ==> b.buf == [] && !b.chClosed)
            && (!b.chClosed ==> Receives(acts, x, i) == |b.consumed| + b.waiting + Abandons(acts, x, i))
  {
    RunReceived(run, acts, i, x);
    RunLogs(run, acts, i);
    assert LogOk(run[i], x);
  }

  // The closed channel b is what a was, k of its events further.
  ghost predicate Drained(a: Sub, b: Sub, k: nat) {
    k <= |a.buf| && b.chClosed && b.consumed == a.consumed + a.buf[..k] && b.buf == a.buf[k..]
  }

  lemma DrainStep(s: State, a: Action, x: nat, b: Sub, k: nat, m: nat)
    requires Structure(s) && Enabled(s, a) && x < |s.subs| && s.subs[x].chClosed && Drained(b, s.subs[x], k)
    requires m == Min(|b.buf|, k + if a == Receive(x) then 1 else 0)
    ensures x < |Apply(s, a).subs| && Drained(b, Apply(s, a).subs[x], m)
  {
    if a.Step? {
      StepShape(s, a.t);
      SubSendsOnly(s, a.t, x);
    } else if a == Receive(x) && k < |b.buf| {
      assert b.buf[..k + 1] == b.buf[..k] + [b.buf[k]];
      assert b.consumed + b.buf[..k] + [b.buf[k]] == b.consumed + b.buf[..k + 1];
    }
  }

  lemma {:induction false} ReceivesGrow(acts: seq<Action>, x: nat, j: nat, i: nat)
    requires j <= i <= |acts|
    ensures Receives(acts, x, j) <= Receives(acts, x, i)
    decreases i
  {
    if j < i { ReceivesGrow(acts, x, j, i - 1); }
  }

  lemma NotDrained(b: Sub)
    requires b.chClosed
    ensures Drained(b, b, 0)
  {
  }

  lemma OneReceive(acts: seq<Action>, x: nat, j: nat, h: nat, i: nat, n: nat, k: nat, m: nat)
    requires j <= h && i == h + 1 <= |acts| && Receives(acts, x, j) <= Receives(acts, x, h)
    requires k == Min(n, Receives(acts, x, h) - Receives(acts, x, j))
    requires m == Min(n, Receives(acts, x, i) - Receives(acts, x, j))
    ensures m == Min(n, k + if acts[h] == Receive(x) then 1 else 0)
  {
  }

  lemma DrainOn(run: seq<State>, acts: seq<Action>, h: nat, i: nat, x: nat, b: Sub, k: nat, m: nat)
    requires IsRun(run, acts) && i == h + 1 < |run| && x < |run[h].subs| && Drained(b, run[h].subs[x], k)
    requires m == Min(|b.buf|, k + if acts[h] == Receive(x) then 1 else 0)
    ensures x < |run[i].subs| && Drained(b, run[i].subs[x], m)
  {
    RunStep(run, acts, h, i);
    DrainStep(run[h], acts[h], x, b, k, m);
  }

  /** A closed channel can be drained: every further receive gets the next event that was in it, in order,
      until none is left. */
  lemma {:induction false} ClosedDrains(run: seq<State>, acts: seq<Action>, j: nat, i: nat, x: nat, b: Sub, k: nat)
    requires IsRun(run, acts) && j <= i < |run| && x < |run[j].subs| && run[j].subs[x] == b && b.chClosed
    requires k == Min(|b.buf|, Receives(acts, x, i) - Receives(acts, x, j))
    ensures x < |run[i].subs| && Drained(b, run[i].subs[x], k)
    decreases i
  {
    if i == j {
      NotDrained(b);
    } else {
      var h := i - 1;
      ReceivesGrow(acts, x, j, h);
      var m := Min(|b.buf|, Receives(acts, x, h) - Receives(acts, x, j));
      ClosedDrains(run, acts, j, h, x, b, m);
      OneReceive(acts, x, j, h, i, |b.buf|, m, k);
      DrainOn(run, acts, h, i, x, b, m, k);
    }
  }
}
