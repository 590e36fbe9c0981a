/** What holds of the event bus in every run, in terms a client would use. */
module EventBusTheorems {
  import opened Common
  import opened Wrappers
  import opened EventBus
  import opened EventBusInvariant
  import opened EventBusSteps
  import opened EventBusDelivery

  // ---------------------------------------------------------------- registration

  function Occurrences(q: seq<nat>, x: nat): nat {
    if q == [] then 0 else (if q[0] == x then 1 else 0) + Occurrences(q[1..], x)
  }

  lemma {:induction false} OccursOnce(q: seq<nat>, x: nat)
    requires Distinct(q)
    ensures Occurrences(q, x) == if x in q then 1 else 0
  {
    if q != [] {
      assert Distinct(q[1..]);
      assert q[0] !in q[1..];
      assert x in q <==> x == q[0] || x in q[1..];
      OccursOnce(q[1..], x);
    }
  }

  /** A handle attached to a node is attached to the node its type is mapped to, and a registered
      subscription occurs there exactly once and nowhere else. */
  lemma AttachedExactlyOnce(run: seq<State>, acts: seq<Action>, i: nat)
    requires IsRun(run, acts) && i < |run|
    ensures var s := run[i];
            && (forall x :: 0 <= x < |s.subs| && s.subs[x].stage.Attached? ==>
                  MapsTo(s, s.subs[x].typ, s.subs[x].node))
            && (forall e :: 0 <= e < |s.emitters| && s.emitters[e].stage.Attached? ==>
                  MapsTo(s, s.emitters[e].typ, s.emitters[e].node))
            && (forall x, n :: 0 <= x < |s.subs| && 0 <= n < |s.nodes| ==>
                  Occurrences(s.nodes[n].sinks, x) == if s.subs[x].stage.Attached? && s.subs[x].node == n then 1 else 0)
            && (forall n :: 0 <= n < |s.nodes| ==> s.nodes[n].nEmitters == CountRefs(s.emitters, n))
  {
    RunKeeps(run, acts, i);
    var s := run[i];
    forall x | 0 <= x < |s.subs| && s.subs[x].stage.Attached? ensures MapsTo(s, s.subs[x].typ, s.subs[x].node) {
      assert SubOk(s, x);
    }
    forall e | 0 <= e < |s.emitters| && s.emitters[e].stage.Attached?
      ensures MapsTo(s, s.emitters[e].typ, s.emitters[e].node)
    {
      assert EmitterOk(s, e);
    }
    forall x, n | 0 <= x < |s.subs| && 0 <= n < |s.nodes|
      ensures Occurrences(s.nodes[n].sinks, x) == if s.subs[x].stage.Attached? && s.subs[x].node == n then 1 else 0
    {
      assert NodeOk(s, n) && SubOk(s, x);
      OccursOnce(s.nodes[n].sinks, x);
    }
    forall n | 0 <= n < |s.nodes| ensures s.nodes[n].nEmitters == CountRefs(s.emitters, n) { assert NodeOk(s, n); }
  }

  /** No step changes the node of an attached handle. */
  lemma NodeNeverReplaced(s: State, a: Action, x: nat, e: nat)
    requires Structure(s) && Enabled(s, a)
    ensures x < |s.subs| && s.subs[x].stage.Attached? ==>
              && x < |Apply(s, a).subs| && Apply(s, a).subs[x].node == s.subs[x].node
              && !Apply(s, a).subs[x].stage.Creating?
    ensures e < |s.emitters| && s.emitters[e].stage.Attached? ==>
              && e < |Apply(s, a).emitters| && Apply(s, a).emitters[e].node == s.emitters[e].node
              && !Apply(s, a).emitters[e].stage.Creating?
  {
    if x < |s.subs| && s.subs[x].stage.Attached? { SubNodeKept(s, a, x); }
    if e < |s.emitters| && s.emitters[e].stage.Attached? { EmitterNodeKept(s, a, e); }
  }

  lemma SubNodeKept(s: State, a: Action, x: nat)
    requires Structure(s) && Enabled(s, a) && x < |s.subs| && s.subs[x].stage.Attached?
    ensures x < |Apply(s, a).subs| && Apply(s, a).subs[x].node == s.subs[x].node && !Apply(s, a).subs[x].stage.Creating?
  {
    if a.Step? {
      StepShape(s, a.t);
      if s.ops[a.t].HasNode? { assert OpOk(s, a.t); }
    }
  }

  lemma EmitterNodeKept(s: State, a: Action, e: nat)
    requires Structure(s) && Enabled(s, a) && e < |s.emitters| && s.emitters[e].stage.Attached?
    ensures e < |Apply(s, a).emitters| && Apply(s, a).emitters[e].node == s.emitters[e].node
            && !Apply(s, a).emitters[e].stage.Creating?
  {
    if a.Step? && s.ops[a.t].HasNode? { assert OpOk(s, a.t); }
  }

  /** A send never meets a closed channel, and removeSub always finds the node. */
  lemma NeverPanics(run: seq<State>, acts: seq<Action>, i: nat)
    requires IsRun(run, acts) && i < |run|
    ensures !run[i].panicked
    ensures forall t :: 0 <= t < |run[i].ops| && run[i].ops[t].RemWantBus? ==>
              && run[i].ops[t].sub < |run[i].subs|
              && run[i].subs[run[i].ops[t].sub].typ in run[i].nodeMap
  {
    RunKeeps(run, acts, i);
    forall t | 0 <= t < |run[i].ops| && run[i].ops[t].RemWantBus?
      ensures run[i].ops[t].sub < |run[i].subs| && run[i].subs[run[i].ops[t].sub].typ in run[i].nodeMap
    {
      assert OpOk(run[i], t) && SubOk(run[i], run[i].ops[t].sub);
    }
  }

  // ---------------------------------------------------------------- progress

  predicate Quiescent(s: State) { forall t :: 0 <= t < |s.ops| ==> s.ops[t].Done? }

  /** No reachable state is deadlocked: while an operation is in flight, some operation can step. */
  lemma NoDeadlock(s: State, t: nat) returns (u: nat)
    requires Structure(s) && t < |s.ops| && !s.ops[t].Done?
    ensures At(s, u)
  {
    if n :| 0 <= n < |s.nodes| && s.nodes[n].lk.Some? {
      // Whoever holds a node lock waits for nothing.
      assert NodeOk(s, n);
      u := s.nodes[n].lk.value;
      assert OpOk(s, u);
      HolderSteps(s, u);
    } else if s.bus.Some? {
      // The holder of the bus lock waits at most for a node lock.
      u := s.bus.value;
      assert OpOk(s, u);
    } else {
      assert OpOk(s, t);
      if s.ops[t].OnceWait? && OnceOf(s, s.ops[t].c).Running? {
        u := OnceOf(s, s.ops[t].c).op;
        CloserSteps(s, s.ops[t].c);
      } else {
        u := t;
        FreeSteps(s, t);
      }
    }
  }

  /** In every run: an operation in flight is never stuck for good. */
  lemma RunNeverDeadlocks(run: seq<State>, acts: seq<Action>, i: nat)
    requires IsRun(run, acts) && i < |run| && !Quiescent(run[i])
    ensures exists u: nat :: At(run[i], u)
  {
    RunKeeps(run, acts, i);
    var t :| 0 <= t < |run[i].ops| && !run[i].ops[t].Done?;
    var u := NoDeadlock(run[i], t);
  }

  lemma HolderSteps(s: State, u: nat)
    requires Structure(s) && u < |s.ops| && (s.ops[u].HasNode? || s.ops[u].RemHasNode? || s.ops[u].EmitLoop?)
    ensures At(s, u)
  {
    assert OpOk(s, u);
    if s.ops[u].EmitLoop? {
      var n := s.ops[u].n;
      assert NodeOk(s, n);
      if s.ops[u].i < |s.nodes[n].sinks| { assert s.nodes[n].sinks[s.ops[u].i] in s.nodes[n].sinks; }
    }
  }

  // With every lock free, an operation that waits for no closeOnce can step.
  lemma FreeSteps(s: State, t: nat)
    requires Structure(s) && t < |s.ops| && !s.ops[t].Done? && s.bus.None?
    requires forall n :: 0 <= n < |s.nodes| ==> s.nodes[n].lk.None?
    requires s.ops[t].OnceWait? ==> HasHandle(s, s.ops[t].c) && OnceOf(s, s.ops[t].c).Ran?
    ensures At(s, t)
  {
    assert OpOk(s, t);
    if s.ops[t].DecRefs? { assert EmitterOk(s, s.ops[t].em); }
  }

  lemma CloserSteps(s: State, c: Cont)
    requires Structure(s) && s.bus.None? && HasHandle(s, c) && OnceOf(s, c).Running?
    requires forall n :: 0 <= n < |s.nodes| ==> s.nodes[n].lk.None?
    ensures At(s, OnceOf(s, c).op)
  {
    match c
    case CloseSub(x) => assert SubOk(s, x); FreeSteps(s, s.subs[x].once.op);
    case CloseEmitter(e) => assert EmitterOk(s, e); FreeSteps(s, s.emitters[e].once.op);
  }

  // The most steps an operation can still take, with k subscriptions in existence.
  function Weight(pc: PC, k: nat): nat {
    match pc
    case Done => 0
    case OnceWait(_) => 1
    case FinishOnce(_) => 1
    case CloseChan(_) => 1
    case DropDelete(_, _, _) => 2
    case DropHasBus(_, _, _) => 3
    case DropWantBus(_, _) => 4
    case RemHasNode(_, _) => 5
    case DecRefs(_) => 5
    case RemHasBus(_, _) => 6
    case RemWantBus(_) => 7
    case CloseCall(_) => 8
    case HasNode(_, _) => 1
    case HasBus(_, _) => 2
    case WantBus(_) => 3
    case EmitLoop(_, _, i) => if i <= k then k + 1 - i else 1
    case EmitWait(_, _) => k + 2
    case EmitCheck(_, _) => k + 3
  }

  function Work(ops: seq<PC>, k: nat): nat {
    if ops == [] then 0 else Work(ops[..|ops| - 1], k) + Weight(ops[|ops| - 1], k)
  }

  lemma {:induction false} WorkUpdate(ops: seq<PC>, t: nat, pc: PC, k: nat)
    requires t < |ops|
    ensures Work(ops[t := pc], k) == Work(ops, k) + Weight(pc, k) - Weight(ops[t], k)
  {
    var m := |ops| - 1;
    if t == m {
      assert ops[t := pc][..m] == ops[..m];
    } else {
      assert ops[t := pc][..m] == ops[..m][t := pc];
      WorkUpdate(ops[..m], t, pc, k);
    }
  }

  lemma {:induction false} FewSinks(q: seq<nat>, k: nat)
    requires Distinct(q) && forall x :: x in q ==> x < k
    ensures |q| <= k
    decreases k
  {
    if q != [] {
      assert q[0] in q;
      var top: nat := k - 1;
      WithoutOk(q, top);
      WithoutLength(q, top);
      FewSinks(Without(q, top), top);
    }
  }

  lemma {:induction false} WithoutLength(q: seq<nat>, x: nat)
    ensures |Without(q, x)| >= |q| - 1
  {
    if q != [] && q[0] != x { WithoutLength(q[1..], x); }
  }

  lemma StepWork(s: State, t: nat)
    requires Structure(s) && At(s, t)
    ensures |Advance(s, t).subs| == |s.subs|
    ensures Work(Advance(s, t).ops, |s.subs|) < Work(s.ops, |s.subs|)
  {
    if s.ops[t].EmitLoop? {
      assert OpOk(s, t) && NodeOk(s, s.ops[t].n);
      FewSinks(s.nodes[s.ops[t].n].sinks, |s.subs|);
    }
    StepShape(s, t);
    StepWeight(s, t, |s.subs|);
    WorkUpdate(s.ops, t, Advance(s, t).ops[t], |s.subs|);
  }

  lemma StepShape(s: State, t: nat)
    requires At(s, t)
    ensures |Advance(s, t).ops| == |s.ops| && |Advance(s, t).subs| == |s.subs|
    ensures Advance(s, t).ops == s.ops[t := Advance(s, t).ops[t]]
  {
    match s.ops[t]
    case HasNode(SubTask(x), n) => assert AttachSub(s, t, x, n).ops == s.ops[t := Done];
    case HasNode(EmitterTask(e), n) => assert AttachEmitter(s, t, e, n).ops == s.ops[t := Done];
    case CloseCall(c) =>
    case _ =>
  }

  lemma StepWeight(s: State, t: nat, k: nat)
    requires At(s, t) && |Advance(s, t).ops| == |s.ops|
    requires s.ops[t].EmitLoop? ==> |s.nodes[s.ops[t].n].sinks| <= k
    ensures Weight(Advance(s, t).ops[t], k) < Weight(s.ops[t], k)
  {
    var pc := s.ops[t];
    if pc.HasNode? || pc.RemHasNode? || pc.DecRefs? {
      HandleStepWeight(s, t, k);
    } else if pc.EmitLoop? || pc.CloseCall? {
      LoopStepWeight(s, t, k);
    } else {
      LockStepWeight(s, t, k);
    }
  }

  lemma LockStepWeight(s: State, t: nat, k: nat)
    requires At(s, t) && |Advance(s, t).ops| == |s.ops|
    requires var pc := s.ops[t]; !pc.HasNode? && !pc.EmitLoop? && !pc.CloseCall? && !pc.RemHasNode? && !pc.DecRefs?
    ensures Weight(Advance(s, t).ops[t], k) < Weight(s.ops[t], k)
  {
    match s.ops[t]
    case WantBus(_) =>
    case DropWantBus(_, _) =>
    case DropHasBus(_, _, _) =>
    case _ =>
  }

  lemma LoopStepWeight(s: State, t: nat, k: nat)
    requires At(s, t) && |Advance(s, t).ops| == |s.ops| && (s.ops[t].EmitLoop? || s.ops[t].CloseCall?)
    requires s.ops[t].EmitLoop? ==> |s.nodes[s.ops[t].n].sinks| <= k
    ensures Weight(Advance(s, t).ops[t], k) < Weight(s.ops[t], k)
  {
    match s.ops[t]
    case EmitLoop(n, ev, i) =>
    case CloseCall(c) =>
  }

  lemma HandleStepWeight(s: State, t: nat, k: nat)
    requires At(s, t) && |Advance(s, t).ops| == |s.ops|
    requires s.ops[t].HasNode? || s.ops[t].RemHasNode? || s.ops[t].DecRefs?
    ensures Weight(Advance(s, t).ops[t], k) < Weight(s.ops[t], k)
  {
    match s.ops[t]
    case HasNode(SubTask(x), n) =>
    case HasNode(EmitterTask(e), n) =>
    case RemHasNode(x, n) =>
    case DecRefs(e) =>
  }

  ghost predicate IsOpRun(run: seq<State>, ts: seq<nat>) {
    && |run| == |ts| + 1
    && forall i :: 0 <= i < |ts| ==> At(run[i], ts[i]) && run[i + 1] == Advance(run[i], ts[i])
  }

  /** Operations in flight finish: without new client calls every run of their steps is at most as
      long as the work left, whatever the interleaving. With NoDeadlock, a run that cannot be
      extended ends in a quiescent state. */
  lemma {:induction false} OperationsFinish(run: seq<State>, ts: seq<nat>)
    requires IsOpRun(run, ts) && Structure(run[0])
    ensures Structure(run[|ts|]) && |run[|ts|].subs| == |run[0].subs|
    ensures Work(run[|ts|].ops, |run[0].subs|) + |ts| <= Work(run[0].ops, |run[0].subs|)
    ensures (forall t :: 0 <= t < |run[|ts|].ops| ==> !At(run[|ts|], t)) ==> Quiescent(run[|ts|])
  {
    if ts != [] {
      var k := |ts| - 1;
      OperationsFinish(run[..k + 1], ts[..k]);
      AdvanceKeeps(run[k], ts[k]);
      StepWork(run[k], ts[k]);
    }
    var s := run[|ts|];
    if !Quiescent(s) {
      var t :| 0 <= t < |s.ops| && !s.ops[t].Done?;
      var u := NoDeadlock(s, t);
    }
  }

  // ---------------------------------------------------------------- quiescence

  // A handle the client was given and never closed.
  predicate OpenSub(s: State, x: nat) { x < |s.subs| && s.subs[x].once.NotRun? }

  predicate OpenEmitter(s: State, e: nat) { e < |s.emitters| && s.emitters[e].once.NotRun? }

  ghost predicate InUse(s: State, typ: Type) {
    || (exists x: nat :: OpenSub(s, x) && s.subs[x].typ == typ)
    || (exists e: nat :: OpenEmitter(s, e) && s.emitters[e].typ == typ)
  }

  lemma {:induction false} CountedEmitter(ems: seq<Emitter>, n: nat) returns (e: nat)
    requires CountRefs(ems, n) != 0
    ensures e < |ems| && ems[e].stage.Attached? && ems[e].node == n
  {
    var k := |ems| - 1;
    if ems[k].stage.Attached? && ems[k].node == n { e := k; } else { e := CountedEmitter(ems[..k], n); }
  }

  /** With no operation in flight, the bus has a node for a type exactly when someone uses it. */
  lemma NodesInUse(s: State)
    requires Structure(s) && Quiescent(s)
    ensures forall typ :: typ in s.nodeMap <==> InUse(s, typ)
  {
    forall typ | InUse(s, typ) ensures typ in s.nodeMap {
      if x: nat :| OpenSub(s, x) && s.subs[x].typ == typ {
        assert SubOk(s, x);
      } else {
        var e: nat :| OpenEmitter(s, e) && s.emitters[e].typ == typ;
        assert EmitterOk(s, e);
      }
    }
    forall typ | typ in s.nodeMap ensures InUse(s, typ) {
      var n := s.nodeMap[typ];
      assert Covered(s, typ) && NodeOk(s, n);
      if s.nodes[n].sinks != [] {
        var x := s.nodes[n].sinks[0];
        assert x in s.nodes[n].sinks;
        assert SubOk(s, x);
        assert OpenSub(s, x);
      } else {
        var e := CountedEmitter(s.emitters, n);
        assert EmitterOk(s, e);
        assert OpenEmitter(s, e);
      }
    }
  }

  /** In every run: whenever no operation is in flight, the node map holds exactly the types in use. */
  lemma RunNodesInUse(run: seq<State>, acts: seq<Action>, i: nat, typ: Type)
    requires IsRun(run, acts) && i < |run| && Quiescent(run[i])
    ensures typ in run[i].nodeMap <==> InUse(run[i], typ)
  {
    RunKeeps(run, acts, i);
    NodesInUse(run[i]);
  }

  // ---------------------------------------------------------------- delivery

  lemma {:induction false} SelectCount(evs: seq<Event>, marks: seq<bool>)
    requires |evs| == |marks|
    ensures |Select(evs, marks)| + Falses(marks) == |marks|
  {
    if marks != [] { SelectCount(evs[..|evs| - 1], marks[..|marks| - 1]); }
  }

  /** Delivery accounting in every reachable state: what a subscription consumed and still holds
      is the replayed event, if any, followed by the offered events in emission order without the
      dropped ones; every node's drop counter is the number of drops of its subscriptions. With no
      operation in flight, every event emitted since registration was offered; and a subscription that
      was removed was offered exactly the events emitted between registration and removal. */
  lemma DeliveryAccounting(run: seq<State>, acts: seq<Action>, i: nat, x: nat)
    requires IsRun(run, acts) && i < |run| && x < |run[i].subs| && !run[i].subs[x].stage.Creating?
    ensures var s := run[i];
            var b := s.subs[x];
            && b.node < |s.nodes| && b.regAt + |b.marks| <= |s.nodes[b.node].emitted|
            && b.consumed + b.buf == b.replay + Select(Offered(s, b), b.marks)
            && |b.consumed| + |b.buf| + Falses(b.marks) == |b.replay| + |Offered(s, b)|
            && (b.replay == [] || (b.regAt > 0 && b.replay == [s.nodes[b.node].emitted[b.regAt - 1]]))
            && s.nodes[b.node].dropCount == SumDrops(s.subs, b.node)
            && (b.stage.Attached? && Quiescent(s) ==> Offered(s, b) == s.nodes[b.node].emitted[b.regAt..])
            && (b.stage.Detached? ==>
                  && b.regAt <= b.endAt <= |s.nodes[b.node].emitted|
                  && Offered(s, b) == s.nodes[b.node].emitted[b.regAt..b.endAt])
  {
    RunLogs(run, acts, i);
    var s := run[i];
    var b := s.subs[x];
    assert LogOk(s, x) && NodeLogOk(s, b.node) && NodeOk(s, b.node);
    SelectCount(Offered(s, b), b.marks);
    assert |b.consumed + b.buf| == |b.replay + Select(Offered(s, b), b.marks)|;
    if Quiescent(s) { assert !Awaits(s, x); }
  }

  /** A step appends at most one mark, and a drop only when the channel had no room. */
  lemma DropsOnlyWhenFull(s: State, a: Action, x: nat)
    requires Enabled(s, a) && x < |s.subs| && |s.subs[x].buf| <= s.subs[x].cap
    ensures var b, b' := s.subs[x], Apply(s, a).subs[x];
            b'.marks == b.marks || b'.marks == b.marks + [true]
            || (b'.marks == b.marks + [false] && |b.buf| == b.cap && b.waiting == 0
                && b'.buf == b.buf && b'.consumed == b.consumed)
  {
    if a.Step? && !s.ops[a.t].EmitLoop? { MarksKept(s, a.t, x); }
  }

  // Only the delivery loop marks.
  lemma MarksKept(s: State, t: nat, x: nat)
    requires At(s, t) && x < |s.subs| && !s.ops[t].EmitLoop?
    ensures x < |Advance(s, t).subs| && Advance(s, t).subs[x].marks == s.subs[x].marks
  {
    if s.ops[t].HasNode? && s.ops[t].task.SubTask? {
      AttachMarks(s, t, s.ops[t].task.sub, s.ops[t].n, x);
    } else if s.ops[t].RemHasNode? || s.ops[t].CloseChan? || s.ops[t].CloseCall? {
      CloseMarks(s, t, x);
    }
  }

  lemma AttachMarks(s: State, t: nat, y: nat, n: nat, x: nat)
    requires t < |s.ops| && y < |s.subs| && n < |s.nodes| && x < |s.subs|
    ensures |AttachSub(s, t, y, n).subs| == |s.subs| && AttachSub(s, t, y, n).subs[x].marks == s.subs[x].marks
  {
  }

  lemma CloseMarks(s: State, t: nat, x: nat)
    requires At(s, t) && x < |s.subs| && (s.ops[t].RemHasNode? || s.ops[t].CloseChan? || s.ops[t].CloseCall?)
    ensures x < |Advance(s, t).subs| && Advance(s, t).subs[x].marks == s.subs[x].marks
  {
  }
}
