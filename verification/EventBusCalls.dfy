/**
 What the calls of the clients come to: which Emit calls deliver their event, to which node and in which
 order, and that every subscription attached meanwhile is offered it. A call is told by the action that
 started it and by the steps its operation took, not by its program counter.
 */
module EventBusCalls {
  import opened Common
  import opened Wrappers
  import opened EventBus
  import opened EventBusInvariant
  import opened EventBusSteps
  import opened EventBusDelivery
  import opened EventBusTheorems

  // ---------------------------------------------------------------- the history of a run

  predicate IsStart(a: Action) { a.StartSubscribe? || a.StartEmitter? || a.StartEmit? || a.StartClose? }

  // The calls started by the first i actions; call t is operation t.
  function Calls(acts: seq<Action>, i: nat): seq<Action>
    requires i <= |acts|
  {
    if i == 0 then [] else Calls(acts, i - 1) + if IsStart(acts[i - 1]) then [acts[i - 1]] else []
  }

  // How many steps operation t took among the first i actions.
  function Steps(acts: seq<Action>, t: nat, i: nat): nat
    requires i <= |acts|
  {
    if i == 0 then 0 else Steps(acts, t, i - 1) + if acts[i - 1] == Action.Step(t) then 1 else 0
  }

  // What an Emit call found when it looked whether its emitter is closed, which is its first step.
  datatype Found = Unasked | Open | Shut

  function Asked(run: seq<State>, acts: seq<Action>, t: nat, e: nat, i: nat): Found
    requires i <= |acts| < |run|
  {
    if i == 0 then Unasked
    else if acts[i - 1] != Action.Step(t) || Steps(acts, t, i - 1) != 0 then Asked(run, acts, t, e, i - 1)
    else if e < |run[i - 1].emitters| && run[i - 1].emitters[e].closed then Shut
    else Open
  }

  datatype Taken = Taken(op: nat, ev: Event)

  // Is this the second step of an Emit call on node n? It takes the node's lock.
  predicate TakesNode(s: State, calls: seq<Action>, acts: seq<Action>, n: nat, i: nat)
    requires i < |acts|
  {
    && acts[i].Step? && acts[i].t < |calls| && calls[acts[i].t].StartEmit? && Steps(acts, acts[i].t, i) == 1
    && calls[acts[i].t].em < |s.emitters| && s.emitters[calls[acts[i].t].em].node == n
  }

  // The Emit calls that took node n's lock, in that order, with their events.
  function Takers(run: seq<State>, acts: seq<Action>, n: nat, i: nat): seq<Taken>
    requires i <= |acts| < |run|
  {
    if i == 0 then []
    else
      var calls := Calls(acts, i - 1);
      Takers(run, acts, n, i - 1)
      + if TakesNode(run[i - 1], calls, acts, n, i - 1) then [Taken(acts[i - 1].t, calls[acts[i - 1].t].ev)] else []
  }

  function Values(q: seq<Taken>): seq<Event> { seq(|q|, k requires 0 <= k < |q| => q[k].ev) }

  // ---------------------------------------------------------------- what one action does to Emit calls

  predicate Emitting(pc: PC) { pc.EmitCheck? || pc.EmitWait? || pc.EmitLoop? }

  function EmittedOn(s: State, n: nat): seq<Event> { if n < |s.nodes| then s.nodes[n].emitted else [] }

  // The emitters that exist are still there, with the node they are attached to.
  ghost predicate SameEmitters(s: State, s': State) {
    |s.emitters| <= |s'.emitters| && forall e :: 0 <= e < |s.emitters| && !s.emitters[e].stage.Creating? ==>
      !s'.emitters[e].stage.Creating? && s'.emitters[e].node == s.emitters[e].node
  }

  lemma CheckStep(s: State, t: nat, e: nat, ev: Event)
    requires Structure(s) && At(s, t) && s.ops[t] == EmitCheck(e, ev)
    ensures var s' := Advance(s, t);
            && s'.nodes == s.nodes && s'.emitters == s.emitters && e < |s.emitters|
            && s'.ops == s.ops[t := if s.emitters[e].closed then Done else EmitWait(s.emitters[e].node, ev)]
  {
    assert OpOk(s, t);
  }

  lemma LockStep(s: State, t: nat, n: nat, ev: Event)
    requires Structure(s) && At(s, t) && s.ops[t] == EmitWait(n, ev)
    ensures var s' := Advance(s, t);
            && s'.emitters == s.emitters && s'.ops == s.ops[t := EmitLoop(n, ev, 0)] && n < |s.nodes| == |s'.nodes|
            && s'.nodes[n].emitted == s.nodes[n].emitted + [ev]
            && forall m :: 0 <= m < |s.nodes| && m != n ==> s'.nodes[m].emitted == s.nodes[m].emitted
  {
    assert OpOk(s, t);
  }

  lemma LoopStep(s: State, t: nat, n: nat, ev: Event, i: nat)
    requires Structure(s) && At(s, t) && s.ops[t] == EmitLoop(n, ev, i)
    ensures var s' := Advance(s, t);
            && s'.emitters == s.emitters && |s'.nodes| == |s.nodes| && |s'.ops| == |s.ops|
            && (s'.ops[t] == Done || s'.ops[t] == EmitLoop(n, ev, i + 1))
            && (forall u :: 0 <= u < |s.ops| && u != t ==> s'.ops[u] == s.ops[u])
            && forall m :: 0 <= m < |s.nodes| ==> s'.nodes[m].emitted == s.nodes[m].emitted
  {
    assert OpOk(s, t);
  }

  lemma OtherStep(s: State, t: nat)
    requires Structure(s) && At(s, t) && !Emitting(s.ops[t])
    ensures var s' := Advance(s, t);
            && |s'.ops| == |s.ops| && !Emitting(s'.ops[t])
            && forall u :: 0 <= u < |s.ops| && u != t ==> s'.ops[u] == s.ops[u]
  {
    StepShape(s, t);
    OtherPc(s, t);
  }

  lemma OtherPc(s: State, t: nat)
    requires At(s, t) && !Emitting(s.ops[t]) && |Advance(s, t).ops| == |s.ops|
    ensures !Emitting(Advance(s, t).ops[t])
  {
    if TouchesSubs(s.ops[t]) || s.ops[t].DecRefs? { HandlePc(s, t); } else { ControlPc(s, t); }
  }

  lemma HandlePc(s: State, t: nat)
    requires At(s, t) && (TouchesSubs(s.ops[t]) || s.ops[t].DecRefs?) && !s.ops[t].EmitLoop?
    requires |Advance(s, t).ops| == |s.ops|
    ensures !Emitting(Advance(s, t).ops[t])
  {
    match s.ops[t]
    case HasNode(SubTask(x), n) =>
    case HasNode(EmitterTask(e), n) =>
    case CloseCall(c) =>
    case _ =>
  }

  lemma ControlPc(s: State, t: nat)
    requires At(s, t) && !Emitting(s.ops[t]) && !TouchesSubs(s.ops[t]) && !s.ops[t].DecRefs?
    requires |Advance(s, t).ops| == |s.ops|
    ensures !Emitting(Advance(s, t).ops[t])
  {
    match s.ops[t]
    case WantBus(_) =>
    case HasBus(_, _) =>
    case DropWantBus(_, _) =>
    case DropHasBus(_, _, _) =>
    case DropDelete(_, _, _) =>
    case _ =>
  }

  lemma OtherNodes(s: State, t: nat, n: nat)
    requires Structure(s) && Logs(s) && At(s, t) && !Emitting(s.ops[t])
    ensures EmittedOn(Advance(s, t), n) == EmittedOn(s, n)
  {
    if s.ops[t].HasNode? && s.ops[t].task.SubTask? {
      assert OpOk(s, t);
    } else {
      AdvanceQuiet(s, t);
      assert n < |s.nodes| ==> QuietNode(s, Advance(s, t), t, n);
    }
  }

  lemma StepEmitters(s: State, t: nat)
    requires Structure(s) && At(s, t)
    ensures SameEmitters(s, Advance(s, t))
  {
    forall e | 0 <= e < |s.emitters| && !s.emitters[e].stage.Creating?
      ensures e < |Advance(s, t).emitters| && !Advance(s, t).emitters[e].stage.Creating?
              && Advance(s, t).emitters[e].node == s.emitters[e].node
    {
      assert Enabled(s, Action.Step(t));
      EmitterFixed(s, t, e);
    }
    StepLength(s, t);
  }

  lemma StepLength(s: State, t: nat)
    requires Structure(s) && At(s, t)
    ensures |Advance(s, t).emitters| == |s.emitters|
  {
  }

  lemma EmitterFixed(s: State, t: nat, e: nat)
    requires Structure(s) && At(s, t) && e < |s.emitters| && !s.emitters[e].stage.Creating?
    ensures var s' := Advance(s, t);
            e < |s'.emitters| && !s'.emitters[e].stage.Creating? && s'.emitters[e].node == s.emitters[e].node
  {
    if s.ops[t].HasNode? { assert OpOk(s, t); }
  }

  ghost predicate OpOkAt(s: State, t: nat) { At(s, t) && OpOk(s, t) }

  // Most steps leave the subscriptions alone.
  predicate TouchesSubs(pc: PC) { pc.HasNode? || pc.EmitLoop? || pc.RemHasNode? || pc.CloseCall? || pc.CloseChan? }

  lemma SubsSame(s: State, t: nat)
    requires At(s, t) && !TouchesSubs(s.ops[t])
    ensures Advance(s, t).subs == s.subs
  {
  }

  // An action of a client starts an operation at its first program counter, or only touches a channel.
  lemma ClientStep(s: State, a: Action)
    requires Enabled(s, a) && !a.Step?
    ensures var s' := Apply(s, a);
            && s'.nodes == s.nodes && SameEmitters(s, s') && s.ops <= s'.ops
            && |s'.ops| == |s.ops| + (if IsStart(a) then 1 else 0)
            && (a.StartEmit? ==> s'.ops[|s.ops|] == EmitCheck(a.em, a.ev) && HasHandle(s, CloseEmitter(a.em)))
            && (IsStart(a) && !a.StartEmit? ==> !Emitting(s'.ops[|s.ops|]))
  {
  }

  // ---------------------------------------------------------------- what a state tells of the calls

  ghost predicate OpTold(run: seq<State>, acts: seq<Action>, i: nat, t: nat)
    requires i <= |acts| < |run|
  {
    && t < |run[i].ops| == |Calls(acts, i)|
    && var s, c := run[i], Calls(acts, i)[t];
       if c.StartEmit? then
         && c.em < |s.emitters| && !s.emitters[c.em].stage.Creating?
         && var found, steps, n := Asked(run, acts, t, c.em, i), Steps(acts, t, i), s.emitters[c.em].node;
            match found
            case Unasked => steps == 0 && s.ops[t] == EmitCheck(c.em, c.ev)
            case Shut => steps == 1 && s.ops[t] == Done
            case Open =>
              || (steps == 1 && s.ops[t] == EmitWait(n, c.ev))
              || (steps >= 2 && Taken(t, c.ev) in Takers(run, acts, n, i)
                  && (s.ops[t] == Done || (s.ops[t].EmitLoop? && s.ops[t].n == n && s.ops[t].ev == c.ev)))
       else !Emitting(s.ops[t])
  }

  ghost predicate TakerTold(run: seq<State>, acts: seq<Action>, i: nat, n: nat, x: Taken)
    requires i <= |acts| < |run|
  {
    && x.op < |Calls(acts, i)| && Steps(acts, x.op, i) >= 2
    && var c := Calls(acts, i)[x.op];
       c.StartEmit? && c.ev == x.ev && c.em < |run[i].emitters| && !run[i].emitters[c.em].stage.Creating?
       && run[i].emitters[c.em].node == n
  }

  ghost predicate NodeTold(run: seq<State>, acts: seq<Action>, i: nat, n: nat)
    requires i <= |acts| < |run|
  {
    var q := Takers(run, acts, n, i);
    && EmittedOn(run[i], n) == Values(q)
    && (forall a, b :: 0 <= a < b < |q| ==> q[a].op != q[b].op)
    && forall a :: 0 <= a < |q| ==> TakerTold(run, acts, i, n, q[a])
  }

  ghost predicate Told(run: seq<State>, acts: seq<Action>, i: nat)
    requires i <= |acts| < |run|
  {
    && |Calls(acts, i)| == |run[i].ops|
    && (forall t :: 0 <= t < |run[i].ops| ==> OpTold(run, acts, i, t))
    && forall n: nat :: NodeTold(run, acts, i, n)
  }

  // Everything the step from i to j uses.
  ghost predicate Next(run: seq<State>, acts: seq<Action>, i: nat, j: nat) {
    && IsRun(run, acts) && j == i + 1 <= |acts| && Structure(run[i]) && Logs(run[i]) && Told(run, acts, i)
    && Enabled(run[i], acts[i]) && run[j] == Apply(run[i], acts[i])
  }

  lemma CallsGrow(run: seq<State>, acts: seq<Action>, i: nat, j: nat)
    requires Next(run, acts, i, j)
    ensures Calls(acts, i) <= Calls(acts, j) && |Calls(acts, j)| == |run[j].ops| && SameEmitters(run[i], run[j])
    ensures forall u :: 0 <= u < |run[i].ops| && acts[i] != Action.Step(u) ==> run[j].ops[u] == run[i].ops[u]
  {
    if acts[i].Step? {
      StepShape(run[i], acts[i].t);
      StepEmitters(run[i], acts[i].t);
    } else {
      ClientStep(run[i], acts[i]);
    }
  }

  // An operation that takes no step.
  lemma OpStays(run: seq<State>, acts: seq<Action>, i: nat, j: nat, t: nat)
    requires Next(run, acts, i, j) && t < |run[i].ops| && acts[i] != Action.Step(t)
    ensures OpTold(run, acts, j, t)
  {
    CallsGrow(run, acts, i, j);
    assert OpTold(run, acts, i, t);
  }

  lemma OpStarts(run: seq<State>, acts: seq<Action>, i: nat, j: nat, t: nat)
    requires Next(run, acts, i, j) && IsStart(acts[i]) && t == |run[i].ops|
    ensures OpTold(run, acts, j, t)
  {
    CallsGrow(run, acts, i, j);
    ClientStep(run[i], acts[i]);
    NoStepYet(run, acts, i, t);
    NotAsked(run, acts, t, if acts[i].StartEmit? then acts[i].em else 0, i);
  }

  // An operation that was not started took no step.
  lemma {:induction false} NoStepYet(run: seq<State>, acts: seq<Action>, i: nat, t: nat)
    requires IsRun(run, acts) && i <= |acts| && t >= |run[i].ops|
    ensures Steps(acts, t, i) == 0
  {
    if i > 0 {
      var k := i - 1;
      OpsGrowBy(run, acts, k, i, t);
      NoStepYet(run, acts, k, t);
    }
  }

  lemma OpsGrowBy(run: seq<State>, acts: seq<Action>, k: nat, i: nat, t: nat)
    requires IsRun(run, acts) && i == k + 1 < |run| && t >= |run[i].ops|
    ensures t >= |run[k].ops| && acts[k] != Action.Step(t)
  {
    assert Enabled(run[k], acts[k]) && run[i] == Apply(run[k], acts[k]);
    OpsGrow(run[k], acts[k]);
  }

  lemma OpsGrow(s: State, a: Action)
    requires Enabled(s, a)
    ensures |Apply(s, a).ops| >= |s.ops|
  {
    if a.Step? { StepShape(s, a.t); } else { ClientStep(s, a); }
  }

  lemma {:induction false} NotAsked(run: seq<State>, acts: seq<Action>, t: nat, e: nat, i: nat)
    requires i <= |acts| < |run| && Steps(acts, t, i) == 0
    ensures Asked(run, acts, t, e, i) == Unasked
  {
    if i > 0 { NotAsked(run, acts, t, e, i - 1); }
  }

  // An operation that takes a step.
  lemma OpMoves(run: seq<State>, acts: seq<Action>, i: nat, j: nat, t: nat)
    requires Next(run, acts, i, j) && t < |run[i].ops| && acts[i] == Action.Step(t)
    ensures OpTold(run, acts, j, t)
  {
    assert OpTold(run, acts, i, t);
    if Emitting(run[i].ops[t]) {
      EmitMoves(run, acts, i, j, t);
    } else {
      CallsGrow(run, acts, i, j);
      OtherStep(run[i], t);
    }
  }

  lemma EmitMoves(run: seq<State>, acts: seq<Action>, i: nat, j: nat, t: nat)
    requires Next(run, acts, i, j) && t < |run[i].ops| && acts[i] == Action.Step(t) && Emitting(run[i].ops[t])
    ensures OpTold(run, acts, j, t)
  {
    assert OpTold(run, acts, i, t);
    if run[i].ops[t].EmitCheck? { CheckMoves(run, acts, i, j, t); }
    else if run[i].ops[t].EmitWait? { WaitMoves(run, acts, i, j, t); }
    else { LoopMoves(run, acts, i, j, t); }
  }

  lemma CheckMoves(run: seq<State>, acts: seq<Action>, i: nat, j: nat, t: nat)
    requires Next(run, acts, i, j) && OpTold(run, acts, i, t) && acts[i] == Action.Step(t) && run[i].ops[t].EmitCheck?
    ensures OpTold(run, acts, j, t)
  {
    CallsGrow(run, acts, i, j);
    CheckStep(run[i], t, run[i].ops[t].em, run[i].ops[t].ev);
  }

  lemma WaitMoves(run: seq<State>, acts: seq<Action>, i: nat, j: nat, t: nat)
    requires Next(run, acts, i, j) && OpTold(run, acts, i, t) && acts[i] == Action.Step(t) && run[i].ops[t].EmitWait?
    ensures OpTold(run, acts, j, t)
  {
    CallsGrow(run, acts, i, j);
    LockStep(run[i], t, run[i].ops[t].n, run[i].ops[t].ev);
    var n := run[i].ops[t].n;
    assert Takers(run, acts, n, j) == Takers(run, acts, n, i) + [Taken(t, Calls(acts, i)[t].ev)];
  }

  lemma LoopMoves(run: seq<State>, acts: seq<Action>, i: nat, j: nat, t: nat)
    requires Next(run, acts, i, j) && OpTold(run, acts, i, t) && acts[i] == Action.Step(t) && run[i].ops[t].EmitLoop?
    ensures OpTold(run, acts, j, t)
  {
    CallsGrow(run, acts, i, j);
    LoopStep(run[i], t, run[i].ops[t].n, run[i].ops[t].ev, run[i].ops[t].i);
  }

  lemma TakerStays(run: seq<State>, acts: seq<Action>, i: nat, j: nat, n: nat, x: Taken)
    requires Next(run, acts, i, j) && TakerTold(run, acts, i, n, x)
    ensures TakerTold(run, acts, j, n, x)
  {
    CallsGrow(run, acts, i, j);
  }

  // The next event on node n, and its taker.
  lemma NodeTaken(run: seq<State>, acts: seq<Action>, i: nat, j: nat, n: nat)
    requires Next(run, acts, i, j) && TakesNode(run[i], Calls(acts, i), acts, n, i)
    ensures NodeTold(run, acts, j, n)
  {
    var t, q := acts[i].t, Takers(run, acts, n, i);
    var x := Taken(t, Calls(acts, i)[t].ev);
    assert NodeTold(run, acts, i, n);
    TakenNow(run, acts, i, j, n, t, x);
    ValuesMore(q, x);
    EarlierTakers(run, acts, i, j, n, t, q);
  }

  lemma ValuesMore(q: seq<Taken>, x: Taken)
    ensures Values(q + [x]) == Values(q) + [x.ev]
  {
  }

  lemma TakenNow(run: seq<State>, acts: seq<Action>, i: nat, j: nat, n: nat, t: nat, x: Taken)
    requires Next(run, acts, i, j) && TakesNode(run[i], Calls(acts, i), acts, n, i)
    requires acts[i].t == t && x == Taken(t, Calls(acts, i)[t].ev)
    ensures Takers(run, acts, n, j) == Takers(run, acts, n, i) + [x] && Steps(acts, t, i) == 1
    ensures EmittedOn(run[j], n) == EmittedOn(run[i], n) + [x.ev] && TakerTold(run, acts, j, n, x)
  {
    CallsGrow(run, acts, i, j);
    assert OpTold(run, acts, i, t);
    LockStep(run[i], t, n, x.ev);
    assert Steps(acts, t, j) == 2;
  }

  lemma EarlierTakers(run: seq<State>, acts: seq<Action>, i: nat, j: nat, n: nat, t: nat, q: seq<Taken>)
    requires Next(run, acts, i, j) && q == Takers(run, acts, n, i) && Steps(acts, t, i) == 1
    ensures forall a :: 0 <= a < |q| ==> q[a].op != t && TakerTold(run, acts, j, n, q[a])
  {
    assert NodeTold(run, acts, i, n);
    forall a | 0 <= a < |q| ensures q[a].op != t && TakerTold(run, acts, j, n, q[a]) {
      assert TakerTold(run, acts, i, n, q[a]);
      TakerStays(run, acts, i, j, n, q[a]);
    }
  }

  lemma NodeQuiet(run: seq<State>, acts: seq<Action>, i: nat, j: nat, n: nat)
    requires Next(run, acts, i, j) && !TakesNode(run[i], Calls(acts, i), acts, n, i)
    ensures EmittedOn(run[j], n) == EmittedOn(run[i], n)
  {
    if acts[i].Step? {
      var t := acts[i].t;
      assert OpTold(run, acts, i, t);
      match run[i].ops[t]
      case EmitCheck(e, ev) => CheckStep(run[i], t, e, ev);
      case EmitWait(m, ev) => LockStep(run[i], t, m, ev);
      case EmitLoop(m, ev, k) => LoopStep(run[i], t, m, ev, k);
      case _ => OtherNodes(run[i], t, n);
    } else {
      ClientStep(run[i], acts[i]);
    }
  }

  lemma NodeNext(run: seq<State>, acts: seq<Action>, i: nat, j: nat, n: nat)
    requires Next(run, acts, i, j)
    ensures NodeTold(run, acts, j, n)
  {
    if TakesNode(run[i], Calls(acts, i), acts, n, i) {
      NodeTaken(run, acts, i, j, n);
    } else {
      NodeQuiet(run, acts, i, j, n);
      var q := Takers(run, acts, n, i);
      assert NodeTold(run, acts, i, n) && Takers(run, acts, n, j) == q;
      forall a | 0 <= a < |q| ensures TakerTold(run, acts, j, n, q[a]) { TakerStays(run, acts, i, j, n, q[a]); }
    }
  }

  lemma ToldNext(run: seq<State>, acts: seq<Action>, i: nat, j: nat)
    requires Next(run, acts, i, j)
    ensures Told(run, acts, j)
  {
    CallsGrow(run, acts, i, j);
    forall t | 0 <= t < |run[j].ops| ensures OpTold(run, acts, j, t) {
      if t >= |run[i].ops| {
        OneMore(run[i], acts[i]);
        OpStarts(run, acts, i, j, t);
      } else if acts[i] == Action.Step(t) {
        OpMoves(run, acts, i, j, t);
      } else {
        OpStays(run, acts, i, j, t);
      }
    }
    forall n: nat ensures NodeTold(run, acts, j, n) { NodeNext(run, acts, i, j, n); }
  }

  lemma OneMore(s: State, a: Action)
    requires Enabled(s, a)
    ensures |Apply(s, a).ops| == |s.ops| + if IsStart(a) then 1 else 0
  {
    if a.Step? { StepShape(s, a.t); } else { ClientStep(s, a); }
  }

  lemma {:induction false} RunTold(run: seq<State>, acts: seq<Action>, i: nat)
    requires IsRun(run, acts) && i < |run|
    ensures Told(run, acts, i) && Structure(run[i]) && Logs(run[i])
  {
    RunLogs(run, acts, i);
    if i > 0 {
      var k := i - 1;
      RunTold(run, acts, k);
      ToldNext(run, acts, k, i);
    }
  }

  // ---------------------------------------------------------------- Emit

  // How often the call took the lock.
  function Times(q: seq<Taken>, t: nat): nat {
    if q == [] then 0 else (if q[0].op == t then 1 else 0) + Times(q[1..], t)
  }

  lemma {:induction false} TimesNone(q: seq<Taken>, t: nat)
    requires forall a :: 0 <= a < |q| ==> q[a].op != t
    ensures Times(q, t) == 0
  {
    if q != [] { TimesNone(q[1..], t); }
  }

  lemma {:induction false} TimesOnce(q: seq<Taken>, t: nat)
    requires forall a, b :: 0 <= a < b < |q| ==> q[a].op != q[b].op
    ensures Times(q, t) <= 1
    ensures (exists a :: 0 <= a < |q| && q[a].op == t) ==> Times(q, t) == 1
  {
    if q != [] {
      if q[0].op == t {
        TimesNone(q[1..], t);
      } else {
        TimesOnce(q[1..], t);
        if a :| 0 <= a < |q| && q[a].op == t { assert q[1..][a - 1] == q[a]; }
      }
    }
  }

  // The call is among the takers of its own node's lock only.
  lemma TimesHere(run: seq<State>, acts: seq<Action>, i: nat, t: nat, n: nat)
    requires i <= |acts| < |run| && NodeTold(run, acts, i, n) && OpTold(run, acts, i, t) && Calls(acts, i)[t].StartEmit?
    ensures var c := Calls(acts, i)[t];
            && Times(Takers(run, acts, n, i), t) <= 1
            && (Steps(acts, t, i) < 2 || run[i].emitters[c.em].node != n ==> Times(Takers(run, acts, n, i), t) == 0)
  {
    var q := Takers(run, acts, n, i);
    TimesOnce(q, t);
    if Steps(acts, t, i) < 2 || run[i].emitters[Calls(acts, i)[t].em].node != n {
      forall a | 0 <= a < |q| ensures q[a].op != t { assert TakerTold(run, acts, i, n, q[a]); }
      TimesNone(q, t);
    }
  }

  /** An Emit call that found its emitter closed returns without emitting anything. One that found it open
      emits its event exactly once, on the emitter's node and on no other, before it returns. */
  lemma EmitOnce(run: seq<State>, acts: seq<Action>, i: nat, t: nat, n: nat)
    requires IsRun(run, acts) && i < |run| && t < |Calls(acts, i)| && Calls(acts, i)[t].StartEmit?
    ensures t < |run[i].ops|
    ensures var s, c, q := run[i], Calls(acts, i)[t], Takers(run, acts, n, i);
            && c.em < |s.emitters|
            && match Asked(run, acts, t, c.em, i)
               case Unasked => !s.ops[t].Done? && Times(q, t) == 0
               case Shut => s.ops[t].Done? && Times(q, t) == 0
               case Open =>
                 && Times(q, t) <= (if n == s.emitters[c.em].node then 1 else 0)
                 && (s.ops[t].Done? && n == s.emitters[c.em].node ==> Times(q, t) == 1 && Taken(t, c.ev) in q)
  {
    RunTold(run, acts, i);
    assert OpTold(run, acts, i, t) && NodeTold(run, acts, i, n);
    TimesHere(run, acts, i, t, n);
    TimesOnce(Takers(run, acts, n, i), t);
  }

  // Operation t is an Emit call, on an emitter of node n that it found open.
  ghost predicate OpenCall(run: seq<State>, acts: seq<Action>, i: nat, n: nat, t: nat)
    requires i <= |acts| < |run| && t < |Calls(acts, i)|
  {
    var c := Calls(acts, i)[t];
    && c.StartEmit? && c.em < |run[i].emitters| && run[i].emitters[c.em].node == n
    && Asked(run, acts, t, c.em, i) == Open
  }

  /** What was emitted on a node are the events of different Emit calls that found their emitter open, in the
      order in which they took the node's lock. */
  lemma EmittedInOrder(run: seq<State>, acts: seq<Action>, i: nat, n: nat)
    requires IsRun(run, acts) && i < |run| && n < |run[i].nodes|
    ensures run[i].nodes[n].emitted == Values(Takers(run, acts, n, i))
    ensures var q := Takers(run, acts, n, i);
            && (forall a, b :: 0 <= a < b < |q| ==> q[a].op != q[b].op)
            && forall a :: 0 <= a < |q| ==>
                 && q[a].op < |Calls(acts, i)| && OpenCall(run, acts, i, n, q[a].op)
                 && Calls(acts, i)[q[a].op].ev == q[a].ev
  {
    RunTold(run, acts, i);
    var q := Takers(run, acts, n, i);
    assert NodeTold(run, acts, i, n);
    forall a | 0 <= a < |q|
      ensures q[a].op < |Calls(acts, i)| && OpenCall(run, acts, i, n, q[a].op) && Calls(acts, i)[q[a].op].ev == q[a].ev
    {
      assert TakerTold(run, acts, i, n, q[a]) && OpTold(run, acts, i, q[a].op);
    }
  }

  /** With nothing in flight the events emitted on a node are exactly those of the Emit calls that found an
      emitter of the node open, one each, in the order in which they took the lock. */
  lemma QuietEmitted(run: seq<State>, acts: seq<Action>, i: nat, n: nat)
    requires IsRun(run, acts) && i < |run| && n < |run[i].nodes| && Quiescent(run[i])
    ensures run[i].nodes[n].emitted == Values(Takers(run, acts, n, i))
    ensures forall t :: 0 <= t < |Calls(acts, i)| ==>
              Times(Takers(run, acts, n, i), t) == (if OpenCall(run, acts, i, n, t) then 1 else 0)
  {
    EmittedInOrder(run, acts, i, n);
    forall t | 0 <= t < |Calls(acts, i)|
      ensures Times(Takers(run, acts, n, i), t) == (if OpenCall(run, acts, i, n, t) then 1 else 0)
    {
      QuietTimes(run, acts, i, n, t);
    }
  }

  lemma QuietTimes(run: seq<State>, acts: seq<Action>, i: nat, n: nat, t: nat)
    requires IsRun(run, acts) && i < |run| && n < |run[i].nodes| && Quiescent(run[i]) && t < |Calls(acts, i)|
    ensures Times(Takers(run, acts, n, i), t) == (if OpenCall(run, acts, i, n, t) then 1 else 0)
  {
    var q := Takers(run, acts, n, i);
    EmittedInOrder(run, acts, i, n);
    if Calls(acts, i)[t].StartEmit? {
      EmitOnce(run, acts, i, t, n);
    } else {
      forall a | 0 <= a < |q| ensures q[a].op != t { assert OpenCall(run, acts, i, n, q[a].op); }
      TimesNone(q, t);
    }
  }

  // ---------------------------------------------------------------- and the subscriptions

  lemma {:induction false} AskedAt(run: seq<State>, acts: seq<Action>, t: nat, e: nat, k: nat, i: nat)
    requires k < i <= |acts| < |run| && acts[k] == Action.Step(t) && Steps(acts, t, k) == 0 && e < |run[k].emitters|
    ensures Asked(run, acts, t, e, i) == (if run[k].emitters[e].closed then Shut else Open) && Steps(acts, t, i) > 0
    decreases i
  {
    if i > k + 1 { AskedAt(run, acts, t, e, k, i - 1); }
  }

  lemma {:induction false} TakersGrow(run: seq<State>, acts: seq<Action>, n: nat, k: nat, i: nat)
    requires k <= i <= |acts| < |run|
    ensures Takers(run, acts, n, k) <= Takers(run, acts, n, i)
    decreases i
  {
    if k < i { TakersGrow(run, acts, n, k, i - 1); }
  }

  // What a registered subscription and a made emitter keep.
  ghost predicate Keeps(s: State, s': State, x: nat, e: nat) {
    && (x < |s.subs| && !s.subs[x].stage.Creating? ==>
          && x < |s'.subs| && !s'.subs[x].stage.Creating?
          && s'.subs[x].node == s.subs[x].node && s'.subs[x].regAt == s.subs[x].regAt)
    && (e < |s.emitters| && !s.emitters[e].stage.Creating? ==>
          e < |s'.emitters| && !s'.emitters[e].stage.Creating? && s'.emitters[e].node == s.emitters[e].node)
  }

  lemma SubKept(s: State, a: Action, x: nat)
    requires Structure(s) && Enabled(s, a) && x < |s.subs| && !s.subs[x].stage.Creating?
    ensures var s' := Apply(s, a);
            && x < |s'.subs| && !s'.subs[x].stage.Creating?
            && s'.subs[x].node == s.subs[x].node && s'.subs[x].regAt == s.subs[x].regAt
  {
    if a.Step? {
      StepShape(s, a.t);
      if s.ops[a.t].HasNode? {
        AttachKeeps(s, a.t, x);
      } else if s.ops[a.t].EmitLoop? {
        LoopKeepsSub(s, a.t, x);
      } else if TouchesSubs(s.ops[a.t]) {
        StepKeepsSub(s, a.t, x);
      } else {
        SubsSame(s, a.t);
      }
    }
  }

  lemma AttachKeeps(s: State, t: nat, x: nat)
    requires Structure(s) && At(s, t) && x < |s.subs| && !s.subs[x].stage.Creating? && s.ops[t].HasNode?
    ensures x < |Advance(s, t).subs| && Advance(s, t).subs[x] == s.subs[x]
  {
    assert OpOk(s, t);
  }

  lemma StepKeepsSub(s: State, t: nat, x: nat)
    requires At(s, t) && x < |s.subs| == |Advance(s, t).subs| && !s.subs[x].stage.Creating?
    requires TouchesSubs(s.ops[t]) && !s.ops[t].HasNode? && !s.ops[t].EmitLoop?
    ensures var s' := Advance(s, t);
            && !s'.subs[x].stage.Creating?
            && s'.subs[x].node == s.subs[x].node && s'.subs[x].regAt == s.subs[x].regAt
  {
  }

  lemma LoopKeepsSub(s: State, t: nat, x: nat)
    requires At(s, t) && x < |s.subs| == |Advance(s, t).subs| && s.ops[t].EmitLoop?
    ensures var b, b' := s.subs[x], Advance(s, t).subs[x];
            b'.stage == b.stage && b'.node == b.node && b'.regAt == b.regAt
  {
  }

  lemma EmitterKept(s: State, a: Action, e: nat)
    requires Structure(s) && Enabled(s, a) && e < |s.emitters| && !s.emitters[e].stage.Creating?
    ensures var s' := Apply(s, a);
            e < |s'.emitters| && !s'.emitters[e].stage.Creating? && s'.emitters[e].node == s.emitters[e].node
  {
    if a.Step? { EmitterFixed(s, a.t, e); }
  }

  lemma {:induction false} RunHandles(run: seq<State>, acts: seq<Action>, k: nat, i: nat, x: nat, e: nat)
    requires IsRun(run, acts) && k <= i < |run|
    ensures Keeps(run[k], run[i], x, e)
    decreases i
  {
    if k < i {
      var j := i - 1;
      RunHandles(run, acts, k, j, x, e);
      RunKeeps(run, acts, j);
      assert Enabled(run[j], acts[j]) && run[i] == Apply(run[j], acts[j]);
      if x < |run[j].subs| && !run[j].subs[x].stage.Creating? { SubKept(run[j], acts[j], x); }
      if e < |run[j].emitters| && !run[j].emitters[e].stage.Creating? { EmitterKept(run[j], acts[j], e); }
    }
  }

  // An open emitter and a registered subscription of one type share their node.
  lemma SameNode(s: State, x: nat, e: nat)
    requires Structure(s) && x < |s.subs| && s.subs[x].stage.Attached?
    requires e < |s.emitters| && !s.emitters[e].stage.Creating? && !s.emitters[e].closed
    requires s.emitters[e].typ == s.subs[x].typ
    ensures s.emitters[e].node == s.subs[x].node
  {
    assert SubOk(s, x) && EmitterOk(s, e);
  }

  lemma {:induction false} CallStays(acts: seq<Action>, k: nat, i: nat, t: nat)
    requires k <= i <= |acts| && t < |Calls(acts, k)|
    ensures t < |Calls(acts, i)| && Calls(acts, i)[t] == Calls(acts, k)[t]
    decreases i
  {
    if k < i { CallStays(acts, k, i - 1, t); }
  }

  // The event comes after the registration.
  lemma NotBefore(run: seq<State>, acts: seq<Action>, k: nat, i: nat, t: nat, n: nat, a: nat, x: nat)
    requires IsRun(run, acts) && k <= i < |run| && Steps(acts, t, k) == 0 && a < |Takers(run, acts, n, i)|
    requires Takers(run, acts, n, i)[a].op == t
    requires x < |run[k].subs| && run[k].subs[x].stage.Attached? && run[k].subs[x].node == n
    ensures run[k].subs[x].regAt <= a
  {
    RunTold(run, acts, k);
    TakersGrow(run, acts, n, k, i);
    assert LogOk(run[k], x) && NodeTold(run, acts, k, n);
    var q := Takers(run, acts, n, k);
    forall c | 0 <= c < |q| ensures Takers(run, acts, n, i)[c].op != t {
      assert TakerTold(run, acts, k, n, q[c]);
    }
    assert run[k].subs[x].regAt <= |Values(q)| == |q|;
  }

  // Where an Emit call that found its emitter open stands among those that took the lock.
  lemma CallTaken(run: seq<State>, acts: seq<Action>, k: nat, i: nat, t: nat, e: nat, n: nat) returns (a: nat)
    requires IsRun(run, acts) && k < i < |run| && Quiescent(run[i])
    requires t < |Calls(acts, k)| && Calls(acts, k)[t].StartEmit? && Calls(acts, k)[t].em == e
    requires acts[k] == Action.Step(t) && Steps(acts, t, k) == 0
    requires e < |run[k].emitters| && !run[k].emitters[e].stage.Creating? && !run[k].emitters[e].closed
    requires run[k].emitters[e].node == n
    ensures a < |Takers(run, acts, n, i)| && Takers(run, acts, n, i)[a] == Taken(t, Calls(acts, k)[t].ev)
  {
    var c := Calls(acts, k)[t];
    RunHandles(run, acts, k, i, 0, e);
    CallStays(acts, k, i, t);
    AskedAt(run, acts, t, e, k, i);
    EmitOnce(run, acts, i, t, n);
    var q := Takers(run, acts, n, i);
    assert run[i].ops[t].Done? && Taken(t, c.ev) in q;
    a :| 0 <= a < |q| && q[a] == Taken(t, c.ev);
  }

  // The a-th event of the node was offered to a subscription registered before it.
  lemma TakenOffered(run: seq<State>, acts: seq<Action>, i: nat, x: nat, n: nat, a: nat, p: nat)
    requires IsRun(run, acts) && i < |run| && Quiescent(run[i]) && x < |run[i].subs| && run[i].subs[x].stage.Attached?
    requires run[i].subs[x].node == n && run[i].subs[x].regAt + p == a < |Takers(run, acts, n, i)|
    ensures var s, b := run[i], run[i].subs[x];
            && n < |s.nodes| && b.regAt + |b.marks| <= |s.nodes[n].emitted|
            && p < |Offered(s, b)| && Offered(s, b)[p] == Takers(run, acts, n, i)[a].ev
  {
    OfferedRest(run, acts, i, x, n);
    EmittedInOrder(run, acts, i, n);
    ValueAt(Takers(run, acts, n, i), a, run[i].nodes[n].emitted, run[i].subs[x].regAt, p);
  }

  lemma OfferedRest(run: seq<State>, acts: seq<Action>, i: nat, x: nat, n: nat)
    requires IsRun(run, acts) && i < |run| && Quiescent(run[i]) && x < |run[i].subs| && run[i].subs[x].stage.Attached?
    requires run[i].subs[x].node == n
    ensures var s, b := run[i], run[i].subs[x];
            && n < |s.nodes| && b.regAt + |b.marks| <= |s.nodes[n].emitted|
            && Offered(s, b) == s.nodes[n].emitted[b.regAt..]
  {
    DeliveryAccounting(run, acts, i, x);
  }

  lemma ValueAt(q: seq<Taken>, a: nat, emitted: seq<Event>, from: nat, p: nat)
    requires emitted == Values(q) && from + p == a < |q|
    ensures a < |emitted| && emitted[from..][p] == q[a].ev
  {
    assert |Values(q)| == |q| && Values(q)[a] == q[a].ev;
  }

  // By action k the Emit call t looks whether its emitter is closed, and finds it open, while subscription x
  // is registered for the emitter's type.
  ghost predicate Listens(run: seq<State>, acts: seq<Action>, k: nat, t: nat, x: nat)
    requires k < |acts| < |run|
  {
    && t < |Calls(acts, k)| && Calls(acts, k)[t].StartEmit? && acts[k] == Action.Step(t) && Steps(acts, t, k) == 0
    && var e := Calls(acts, k)[t].em;
    && e < |run[k].emitters| && !run[k].emitters[e].closed
    && x < |run[k].subs| && run[k].subs[x].stage.Attached? && run[k].subs[x].typ == run[k].emitters[e].typ
  }

  // The event of the call comes after the registration of x, which stays on the same node.
  lemma TakenSince(run: seq<State>, acts: seq<Action>, k: nat, i: nat, t: nat, x: nat) returns (a: nat)
    requires IsRun(run, acts) && k < i < |run| && Quiescent(run[i]) && Listens(run, acts, k, t, x)
    ensures x < |run[i].subs| && run[i].subs[x].regAt <= a < |Takers(run, acts, run[i].subs[x].node, i)|
    ensures Takers(run, acts, run[i].subs[x].node, i)[a] == Taken(t, Calls(acts, k)[t].ev)
  {
    var e, n := Calls(acts, k)[t].em, run[k].subs[x].node;
    EmitterMade(run, acts, k, t);
    SameNode(run[k], x, e);
    a := CallTaken(run, acts, k, i, t, e, n);
    RunHandles(run, acts, k, i, x, e);
    NotBefore(run, acts, k, i, t, n, a, x);
  }

  /** A subscription of the emitter's type that was registered when an Emit call found its emitter open, and
      is so when nothing is in flight any more, was offered the event of that call: it is the a-th that was
      emitted on the node, and the p-th that was offered. */
  lemma EveryEmitOffered(run: seq<State>, acts: seq<Action>, k: nat, i: nat, t: nat, x: nat) returns (a: nat, p: nat)
    requires IsRun(run, acts) && k < i < |run| && Quiescent(run[i]) && Listens(run, acts, k, t, x)
    requires x < |run[i].subs| && run[i].subs[x].stage.Attached?
    ensures var n := run[i].subs[x].node;
            a < |Takers(run, acts, n, i)| && Takers(run, acts, n, i)[a] == Taken(t, Calls(acts, k)[t].ev)
    ensures var s, b := run[i], run[i].subs[x];
            && b.node < |s.nodes| && b.regAt + |b.marks| <= |s.nodes[b.node].emitted| && b.regAt + p == a
            && p < |Offered(s, b)| && Offered(s, b)[p] == Calls(acts, k)[t].ev
  {
    a := TakenSince(run, acts, k, i, t, x);
    p := a - run[i].subs[x].regAt;
    TakenOffered(run, acts, i, x, run[i].subs[x].node, a, p);
  }

  lemma EmitterMade(run: seq<State>, acts: seq<Action>, k: nat, t: nat)
    requires IsRun(run, acts) && k < |run| && t < |Calls(acts, k)| && Calls(acts, k)[t].StartEmit?
    ensures Structure(run[k])
    ensures Calls(acts, k)[t].em < |run[k].emitters| && !run[k].emitters[Calls(acts, k)[t].em].stage.Creating?
  {
    RunTold(run, acts, k);
    assert OpTold(run, acts, k, t);
  }
}
