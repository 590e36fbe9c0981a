/**
 What the other calls come to: every Subscribe, Emitter and Close call has had its effect when it returns,
 and only a Close call takes a handle out.
 */
module EventBusEffects {
  import opened Common
  import opened Wrappers
  import opened EventBus
  import opened EventBusInvariant
  import opened EventBusSteps
  import opened EventBusTheorems
  import opened EventBusCalls

  // ---------------------------------------------------------------- calls and handles

  // The handles made by these calls, in order.
  function SubCalls(calls: seq<Action>): nat {
    if calls == [] then 0 else SubCalls(calls[..|calls| - 1]) + if calls[|calls| - 1].StartSubscribe? then 1 else 0
  }

  function EmitterCalls(calls: seq<Action>): nat {
    if calls == [] then 0 else EmitterCalls(calls[..|calls| - 1]) + if calls[|calls| - 1].StartEmitter? then 1 else 0
  }

  // The operation is on its way through Close of this handle.
  predicate Closes(pc: PC, c: Cont) {
    || pc == CloseCall(c) || pc == OnceWait(c) || Leaves(pc, c)
    || (c.CloseSub? && Removes(pc, c.sub)) || (c.CloseEmitter? && pc == DecRefs(c.em))
  }

  // The call is under way, or has returned and had its effect.
  ghost predicate CallOk(s: State, calls: seq<Action>, t: nat)
    requires t < |calls| == |s.ops|
  {
    match calls[t]
    case StartSubscribe(typ, cap) =>
      var x := SubCalls(calls[..t]);
      && x < |s.subs| && s.subs[x].typ == typ && s.subs[x].cap == cap
      && (Makes(s.ops[t], SubTask(x)) || (s.ops[t].Done? && !s.subs[x].stage.Creating?))
    case StartEmitter(typ, stateful) =>
      var e := EmitterCalls(calls[..t]);
      && e < |s.emitters| && s.emitters[e].typ == typ && s.emitters[e].stateful == stateful
      && (Makes(s.ops[t], EmitterTask(e)) || (s.ops[t].Done? && !s.emitters[e].stage.Creating?))
    case StartClose(c) => HasHandle(s, c) && (Closes(s.ops[t], c) || (s.ops[t].Done? && OnceOf(s, c).Ran?))
    case StartEmit(_, _) => Emitting(s.ops[t]) || s.ops[t].Done?
    case _ => false
  }

  // Only a Close call starts to take a handle out.
  ghost predicate CloserKnown(s: State, calls: seq<Action>, c: Cont) {
    HasHandle(s, c) && !OnceOf(s, c).NotRun? ==> StartClose(c) in calls
  }

  ghost predicate CallsOk(s: State, calls: seq<Action>) {
    && |calls| == |s.ops| && |s.subs| == SubCalls(calls) && |s.emitters| == EmitterCalls(calls)
    && (forall t :: 0 <= t < |calls| ==> CallOk(s, calls, t))
    && (forall c :: CloserKnown(s, calls, c))
  }

  // What an operation has done to a handle is not undone.
  ghost predicate SubLasts(a: Sub, b: Sub) {
    a.typ == b.typ && a.cap == b.cap && (!a.stage.Creating? ==> !b.stage.Creating?) && (a.once.Ran? ==> b.once.Ran?)
  }

  ghost predicate EmitterLasts(a: Emitter, b: Emitter) {
    && a.typ == b.typ && a.stateful == b.stateful && (!a.stage.Creating? ==> !b.stage.Creating?)
    && (a.once.Ran? ==> b.once.Ran?)
  }

  ghost predicate Lasts(s: State, s': State) {
    && |s.subs| <= |s'.subs| && |s.emitters| <= |s'.emitters|
    && (forall x :: 0 <= x < |s.subs| ==> SubLasts(s.subs[x], s'.subs[x]))
    && (forall e :: 0 <= e < |s.emitters| ==> EmitterLasts(s.emitters[e], s'.emitters[e]))
  }

  lemma SubStepLasts(s: State, t: nat, x: nat)
    requires Structure(s) && At(s, t) && x < |s.subs|
    ensures |Advance(s, t).subs| == |s.subs| && SubLasts(s.subs[x], Advance(s, t).subs[x])
  {
    StepShape(s, t);
    if TouchesSubs(s.ops[t]) { HandleLasts(s, t, x); } else { SubsSame(s, t); }
  }

  lemma HandleLasts(s: State, t: nat, x: nat)
    requires Structure(s) && At(s, t) && x < |s.subs| == |Advance(s, t).subs|
    requires TouchesSubs(s.ops[t])
    ensures SubLasts(s.subs[x], Advance(s, t).subs[x])
  {
    assert OpOk(s, t);
  }

  lemma EmitterStepLasts(s: State, t: nat, e: nat)
    requires Structure(s) && At(s, t) && e < |s.emitters|
    ensures |Advance(s, t).emitters| == |s.emitters| && EmitterLasts(s.emitters[e], Advance(s, t).emitters[e])
  {
    StepLength(s, t);
    assert OpOk(s, t);
  }

  lemma ActionLasts(s: State, a: Action)
    requires Structure(s) && Enabled(s, a)
    ensures Lasts(s, Apply(s, a))
  {
    if a.Step? {
      StepShape(s, a.t);
      StepLength(s, a.t);
      forall x | 0 <= x < |s.subs| ensures SubLasts(s.subs[x], Apply(s, a).subs[x]) { SubStepLasts(s, a.t, x); }
      forall e | 0 <= e < |s.emitters| ensures EmitterLasts(s.emitters[e], Apply(s, a).emitters[e]) {
        EmitterStepLasts(s, a.t, e);
      }
    }
  }

  // A step of a Close call goes on closing, or returns with closeOnce done.
  lemma CloseStep(s: State, t: nat, c: Cont)
    requires Structure(s) && At(s, t) && Closes(s.ops[t], c) && HasHandle(s, c)
    ensures var s' := Advance(s, t);
            && t < |s'.ops| && HasHandle(s', c)
            && (Closes(s'.ops[t], c) || (s'.ops[t].Done? && OnceOf(s', c).Ran?))
  {
    assert OpOk(s, t);
    ActionLasts(s, Action.Step(t));
    ClosePc(s, t, c);
  }

  lemma ClosePc(s: State, t: nat, c: Cont)
    requires OpOkAt(s, t) && Closes(s.ops[t], c) && HasHandle(s, c) && HasHandle(Advance(s, t), c)
    ensures var s' := Advance(s, t);
            t < |s'.ops| && (Closes(s'.ops[t], c) || (s'.ops[t].Done? && OnceOf(s', c).Ran?))
  {
    if s.ops[t].CloseCall? || s.ops[t].OnceWait? || s.ops[t].CloseChan? || s.ops[t].FinishOnce? {
      OncePc(s, t, c);
    } else if s.ops[t].DecRefs? || s.ops[t].RemWantBus? || s.ops[t].RemHasBus? || s.ops[t].RemHasNode? {
      RemovePc(s, t, c);
    } else {
      DropPc(s, t, c);
    }
  }

  lemma OncePc(s: State, t: nat, c: Cont)
    requires OpOkAt(s, t) && Closes(s.ops[t], c) && HasHandle(s, c) && HasHandle(Advance(s, t), c)
    requires s.ops[t].CloseCall? || s.ops[t].OnceWait? || s.ops[t].CloseChan? || s.ops[t].FinishOnce?
    ensures var s' := Advance(s, t);
            t < |s'.ops| && (Closes(s'.ops[t], c) || (s'.ops[t].Done? && OnceOf(s', c).Ran?))
  {
  }

  lemma RemovePc(s: State, t: nat, c: Cont)
    requires OpOkAt(s, t) && Closes(s.ops[t], c)
    requires s.ops[t].DecRefs? || s.ops[t].RemWantBus? || s.ops[t].RemHasBus? || s.ops[t].RemHasNode?
    ensures t < |Advance(s, t).ops| && Closes(Advance(s, t).ops[t], c)
  {
  }

  lemma DropPc(s: State, t: nat, c: Cont)
    requires OpOkAt(s, t) && Closes(s.ops[t], c)
    requires s.ops[t].DropWantBus? || s.ops[t].DropHasBus? || s.ops[t].DropDelete?
    ensures t < |Advance(s, t).ops| && Closes(Advance(s, t).ops[t], c)
  {
  }

  lemma MakeStep(s: State, t: nat, task: Task)
    requires Structure(s) && At(s, t) && Makes(s.ops[t], task)
    ensures var s' := Advance(s, t);
            && t < |s'.ops|
            && (Makes(s'.ops[t], task)
                || (s'.ops[t].Done? && match task
                                       case SubTask(x) => x < |s'.subs| && !s'.subs[x].stage.Creating?
                                       case EmitterTask(e) => e < |s'.emitters| && !s'.emitters[e].stage.Creating?))
  {
    assert OpOk(s, t);
  }

  // Only entering closeOnce makes it run.
  lemma StepCloser(s: State, t: nat, c: Cont)
    requires Structure(s) && At(s, t) && HasHandle(Advance(s, t), c) && !OnceOf(Advance(s, t), c).NotRun?
    ensures (HasHandle(s, c) && !OnceOf(s, c).NotRun?) || s.ops[t] == CloseCall(c)
  {
    StepShape(s, t);
    StepLength(s, t);
    match c
    case CloseSub(x) => SubCloser(s, t, x);
    case CloseEmitter(e) => EmitterCloser(s, t, e);
  }

  lemma SubCloser(s: State, t: nat, x: nat)
    requires Structure(s) && At(s, t) && x < |s.subs| == |Advance(s, t).subs| && !Advance(s, t).subs[x].once.NotRun?
    ensures (!s.subs[x].stage.Creating? && !s.subs[x].once.NotRun?) || s.ops[t] == CloseCall(CloseSub(x))
  {
    assert SubOk(s, x);
    if s.ops[t].CloseChan? {
      assert OpOk(s, t);
    } else if !TouchesSubs(s.ops[t]) {
      SubsSame(s, t);
    } else if !s.ops[t].CloseCall? {
      SameOnce(s, t, x);
    }
  }

  lemma SameOnce(s: State, t: nat, x: nat)
    requires At(s, t) && x < |s.subs| == |Advance(s, t).subs|
    requires TouchesSubs(s.ops[t]) && !s.ops[t].CloseCall? && !s.ops[t].CloseChan?
    ensures Advance(s, t).subs[x].once == s.subs[x].once
  {
  }

  lemma EmitterCloser(s: State, t: nat, e: nat)
    requires Structure(s) && At(s, t) && e < |s.emitters| == |Advance(s, t).emitters|
    requires !Advance(s, t).emitters[e].once.NotRun?
    ensures (!s.emitters[e].stage.Creating? && !s.emitters[e].once.NotRun?) || s.ops[t] == CloseCall(CloseEmitter(e))
  {
    assert EmitterOk(s, e) && OpOk(s, t);
  }

  // ---------------------------------------------------------------- one action

  lemma EmitStep(s: State, t: nat)
    requires Structure(s) && At(s, t) && Emitting(s.ops[t])
    ensures var s' := Advance(s, t); t < |s'.ops| && (Emitting(s'.ops[t]) || s'.ops[t].Done?)
  {
    match s.ops[t]
    case EmitCheck(e, ev) => CheckStep(s, t, e, ev);
    case EmitWait(n, ev) => LockStep(s, t, n, ev);
    case EmitLoop(n, ev, i) => LoopStep(s, t, n, ev, i);
  }

  lemma CallMoves(s: State, calls: seq<Action>, t: nat)
    requires Structure(s) && t < |calls| == |s.ops| && CallOk(s, calls, t) && At(s, t)
    ensures |Advance(s, t).ops| == |calls| && CallOk(Advance(s, t), calls, t)
  {
    StepShape(s, t);
    ActionLasts(s, Action.Step(t));
    match calls[t]
    case StartSubscribe(_, _) => MakeStep(s, t, SubTask(SubCalls(calls[..t])));
    case StartEmitter(_, _) => MakeStep(s, t, EmitterTask(EmitterCalls(calls[..t])));
    case StartClose(c) => CloseStep(s, t, c);
    case StartEmit(_, _) => EmitStep(s, t);
  }

  lemma CallStays(s: State, s': State, calls: seq<Action>, calls': seq<Action>, t: nat)
    requires Lasts(s, s') && t < |calls| == |s.ops| && CallOk(s, calls, t) && calls <= calls' && |calls'| == |s'.ops|
    requires s'.ops[t] == s.ops[t]
    ensures CallOk(s', calls', t)
  {
    assert calls'[..t] == calls[..t] && calls'[t] == calls[t];
  }

  lemma CallStarts(s: State, a: Action, calls: seq<Action>)
    requires Enabled(s, a) && IsStart(a) && CallsOk(s, calls) && |Apply(s, a).ops| == |calls| + 1
    ensures CallOk(Apply(s, a), calls + [a], |calls|)
  {
    assert (calls + [a])[..|calls|] == calls;
  }

  lemma CloserStep(s: State, calls: seq<Action>, t: nat, c: Cont)
    requires Structure(s) && CallsOk(s, calls) && At(s, t)
    ensures CloserKnown(Advance(s, t), calls, c)
  {
    if HasHandle(Advance(s, t), c) && !OnceOf(Advance(s, t), c).NotRun? {
      StepCloser(s, t, c);
      assert CloserKnown(s, calls, c) && CallOk(s, calls, t);
    }
  }

  lemma CallsLengths(s: State, a: Action, calls: seq<Action>)
    requires Structure(s) && Enabled(s, a) && CallsOk(s, calls)
    ensures var s', calls' := Apply(s, a), calls + if IsStart(a) then [a] else [];
            && |calls'| == |s'.ops| && |s'.subs| == SubCalls(calls') && |s'.emitters| == EmitterCalls(calls')
  {
    OneMore(s, a);
    assert (calls + [a])[..|calls|] == calls && calls + [] == calls;
    if a.Step? {
      StepShape(s, a.t);
      StepLength(s, a.t);
    }
  }

  lemma CallsNext(s: State, a: Action, calls: seq<Action>, calls': seq<Action>)
    requires Structure(s) && Enabled(s, a) && CallsOk(s, calls) && calls' == calls + if IsStart(a) then [a] else []
    ensures CallsOk(Apply(s, a), calls')
  {
    var s' := Apply(s, a);
    CallsLengths(s, a, calls);
    ActionLasts(s, a);
    forall t | 0 <= t < |calls'| ensures CallOk(s', calls', t) { CallNext(s, a, calls, calls', t); }
    forall c ensures CloserKnown(s', calls', c) {
      assert CloserKnown(s, calls, c);
      if a.Step? {
        CloserStep(s, calls, a.t, c);
        assert calls' == calls;
      } else {
        CloserStays(s, a, calls, calls', c);
      }
    }
  }

  lemma CloserStays(s: State, a: Action, calls: seq<Action>, calls': seq<Action>, c: Cont)
    requires Enabled(s, a) && !a.Step? && CloserKnown(s, calls, c) && calls <= calls'
    ensures CloserKnown(Apply(s, a), calls', c)
  {
    assert forall d :: d in calls ==> d in calls' by {
      assert calls' == calls + calls'[|calls|..];
    }
  }

  lemma CallNext(s: State, a: Action, calls: seq<Action>, calls': seq<Action>, t: nat)
    requires Structure(s) && Enabled(s, a) && CallsOk(s, calls) && calls' == calls + if IsStart(a) then [a] else []
    requires t < |calls'| == |Apply(s, a).ops| && Lasts(s, Apply(s, a))
    ensures CallOk(Apply(s, a), calls', t)
  {
    if t == |calls| {
      CallStarts(s, a, calls);
    } else if a == Action.Step(t) {
      assert CallOk(s, calls, t) && calls' == calls;
      CallMoves(s, calls, t);
    } else {
      assert CallOk(s, calls, t);
      if a.Step? { StepShape(s, a.t); }
      CallStays(s, Apply(s, a), calls, calls', t);
    }
  }

  lemma {:induction false} RunCalls(run: seq<State>, acts: seq<Action>, i: nat)
    requires IsRun(run, acts) && i < |run|
    ensures Structure(run[i]) && CallsOk(run[i], Calls(acts, i))
  {
    RunKeeps(run, acts, i);
    if i > 0 {
      var k := i - 1;
      RunCalls(run, acts, k);
      assert Enabled(run[k], acts[k]) && run[i] == Apply(run[k], acts[k]);
      CallsNext(run[k], acts[k], Calls(acts, k), Calls(acts, i));
    }
  }

  // ---------------------------------------------------------------- what the calls come to

  /** A Subscribe or Emitter call that returned made a handle as asked for, which is attached unless some
      Close call takes it out; a Close call that returned has taken it out and, for a subscription, closed
      its channel. */
  lemma CallsTakeEffect(run: seq<State>, acts: seq<Action>, i: nat, t: nat)
    requires IsRun(run, acts) && i < |run| && t < |Calls(acts, i)|
    ensures t < |run[i].ops|
    ensures run[i].ops[t].Done? ==>
              var s, calls := run[i], Calls(acts, i);
              match calls[t]
              case StartSubscribe(typ, cap) =>
                var x := SubCalls(calls[..t]);
                && x < |s.subs| && s.subs[x].typ == typ && s.subs[x].cap == cap
                && (s.subs[x].stage.Attached? || StartClose(CloseSub(x)) in calls)
              case StartEmitter(typ, stateful) =>
                var e := EmitterCalls(calls[..t]);
                && e < |s.emitters| && s.emitters[e].typ == typ && s.emitters[e].stateful == stateful
                && (s.emitters[e].stage.Attached? || StartClose(CloseEmitter(e)) in calls)
              case StartClose(CloseSub(x)) => x < |s.subs| && s.subs[x].stage.Detached? && s.subs[x].chClosed
              case StartClose(CloseEmitter(e)) =>
                e < |s.emitters| && s.emitters[e].stage.Detached? && s.emitters[e].closed
              case _ => true
  {
    RunCalls(run, acts, i);
    var s, calls := run[i], Calls(acts, i);
    assert CallOk(s, calls, t);
    match calls[t]
    case StartSubscribe(_, _) => SubStanding(s, calls, SubCalls(calls[..t]));
    case StartEmitter(_, _) => EmitterStanding(s, calls, EmitterCalls(calls[..t]));
    case StartClose(CloseSub(x)) => assert SubOk(s, x);
    case StartClose(CloseEmitter(e)) => assert EmitterOk(s, e);
    case _ =>
  }

  lemma SubStanding(s: State, calls: seq<Action>, x: nat)
    requires Structure(s) && CallsOk(s, calls) && x < |s.subs|
    ensures !s.subs[x].stage.Creating? ==> s.subs[x].stage.Attached? || StartClose(CloseSub(x)) in calls
    ensures s.subs[x].chClosed ==> StartClose(CloseSub(x)) in calls
  {
    assert SubOk(s, x) && CloserKnown(s, calls, CloseSub(x));
  }

  lemma EmitterStanding(s: State, calls: seq<Action>, e: nat)
    requires Structure(s) && CallsOk(s, calls) && e < |s.emitters|
    ensures !s.emitters[e].stage.Creating? ==> s.emitters[e].stage.Attached? || StartClose(CloseEmitter(e)) in calls
    ensures s.emitters[e].closed ==> StartClose(CloseEmitter(e)) in calls
  {
    assert EmitterOk(s, e) && CloserKnown(s, calls, CloseEmitter(e));
  }

  /** With nothing in flight there is one handle for every Subscribe and every Emitter call; it is attached
      exactly if no Close call was made on it, and a channel or an emitter is closed exactly if one was. */
  lemma QuietHandles(run: seq<State>, acts: seq<Action>, i: nat)
    requires IsRun(run, acts) && i < |run| && Quiescent(run[i])
    ensures var s, calls := run[i], Calls(acts, i);
            && |s.subs| == SubCalls(calls) && |s.emitters| == EmitterCalls(calls)
            && (forall x :: 0 <= x < |s.subs| ==>
                  && (s.subs[x].stage.Attached? <==> StartClose(CloseSub(x)) !in calls)
                  && (s.subs[x].chClosed <==> StartClose(CloseSub(x)) in calls))
            && (forall e :: 0 <= e < |s.emitters| ==>
                  && (s.emitters[e].stage.Attached? <==> StartClose(CloseEmitter(e)) !in calls)
                  && (s.emitters[e].closed <==> StartClose(CloseEmitter(e)) in calls))
  {
    RunCalls(run, acts, i);
    var s, calls := run[i], Calls(acts, i);
    forall x | 0 <= x < |s.subs|
      ensures s.subs[x].stage.Attached? <==> StartClose(CloseSub(x)) !in calls
      ensures s.subs[x].chClosed <==> StartClose(CloseSub(x)) in calls
    {
      QuietSub(run, acts, i, x);
    }
    forall e | 0 <= e < |s.emitters|
      ensures s.emitters[e].stage.Attached? <==> StartClose(CloseEmitter(e)) !in calls
      ensures s.emitters[e].closed <==> StartClose(CloseEmitter(e)) in calls
    {
      QuietEmitter(run, acts, i, e);
    }
  }

  lemma QuietSub(run: seq<State>, acts: seq<Action>, i: nat, x: nat)
    requires IsRun(run, acts) && i < |run| && Quiescent(run[i]) && x < |run[i].subs|
    ensures run[i].subs[x].stage.Attached? <==> StartClose(CloseSub(x)) !in Calls(acts, i)
    ensures run[i].subs[x].chClosed <==> StartClose(CloseSub(x)) in Calls(acts, i)
  {
    RunCalls(run, acts, i);
    var s, calls := run[i], Calls(acts, i);
    SubStanding(s, calls, x);
    assert SubOk(s, x);
    if StartClose(CloseSub(x)) in calls {
      var t :| 0 <= t < |calls| && calls[t] == StartClose(CloseSub(x));
      CallsTakeEffect(run, acts, i, t);
    }
  }

  lemma QuietEmitter(run: seq<State>, acts: seq<Action>, i: nat, e: nat)
    requires IsRun(run, acts) && i < |run| && Quiescent(run[i]) && e < |run[i].emitters|
    ensures run[i].emitters[e].stage.Attached? <==> StartClose(CloseEmitter(e)) !in Calls(acts, i)
    ensures run[i].emitters[e].closed <==> StartClose(CloseEmitter(e)) in Calls(acts, i)
  {
    RunCalls(run, acts, i);
    var s, calls := run[i], Calls(acts, i);
    EmitterStanding(s, calls, e);
    assert EmitterOk(s, e);
    if StartClose(CloseEmitter(e)) in calls {
      var t :| 0 <= t < |calls| && calls[t] == StartClose(CloseEmitter(e));
      CallsTakeEffect(run, acts, i, t);
    }
  }
}
