/** Every step of every operation keeps the structural invariant of the event bus. */
module EventBusSteps {
  import opened Common
  import opened Wrappers
  import opened EventBus
  import opened EventBusInvariant

  predicate At(s: State, t: nat) { t < |s.ops| && CanStep(s, s.ops[t]) }

  // Steps that change nothing but the bus lock, the program counter and the map of types.
  lemma ControlKeeps(s: State, s': State, t: nat)
    requires Structure(s) && t < |s.ops| && |s'.ops| == |s.ops| && s' == s.(bus := s'.bus, ops := s.ops[t := s'.ops[t]])
    requires s.bus.Some? && s.bus.value != t ==> s'.bus == s.bus
    requires s'.bus == s.bus || s'.bus == None || s'.bus == Some(t)
    requires HoldsBus(s'.ops[t]) <==> s'.bus == Some(t)
    requires OpOk(s', t)
    requires forall n :: 0 <= n < |s.nodes| && s.nodes[n].lk == Some(t) ==> false
    requires forall x :: 0 <= x < |s.subs| && Owns(s.subs[x].stage, s.subs[x].once, t) ==> SubOk(s', x)
    requires forall e :: 0 <= e < |s.emitters| && Owns(s.emitters[e].stage, s.emitters[e].once, t) ==> EmitterOk(s', e)
    requires forall typ :: typ in s.nodeMap && Unused(s, s.nodeMap[typ]) && Covers(s.ops[t], typ, s.nodeMap[typ]) ==>
               Covers(s'.ops[t], typ, s.nodeMap[typ])
    ensures Structure(s')
  {
    forall n | 0 <= n < |s.nodes| ensures GuarNode(s, s', t, n) && NodeOk(s', n) { assert NodeOk(s, n); }
    assert Guar(s, s', t);
    forall typ | typ in s'.nodeMap ensures Covered(s', typ) { CoveredKeeps(s, s', t, typ); }
    StepKeeps(s, s', t);
  }

  lemma EmitCheckKeeps(s: State, t: nat)
    requires Structure(s) && At(s, t) && (s.ops[t].EmitCheck? || s.ops[t].OnceWait?)
    ensures Structure(Advance(s, t))
  {
    NoLocks(s, t);
    assert OpOk(s, t);
    var s' := Advance(s, t);
    if s.ops[t].EmitCheck? { assert EmitterOk(s, s.ops[t].em); }
    OwnsNothing(s, s', t);
    ControlKeeps(s, s', t);
  }

  // An operation at a program counter without locks holds none.
  lemma NoLocks(s: State, t: nat)
    requires Structure(s) && t < |s.ops| && !s.ops[t].HasNode? && !s.ops[t].RemHasNode? && !s.ops[t].EmitLoop?
    ensures forall n :: 0 <= n < |s.nodes| ==> s.nodes[n].lk != Some(t)
  {
    forall n | 0 <= n < |s.nodes| ensures s.nodes[n].lk != Some(t) { assert NodeOk(s, n); }
  }

  lemma OwnsNothing(s: State, s': State, t: nat)
    requires Structure(s) && t < |s.ops|
    requires var pc := s.ops[t]; pc.EmitCheck? || pc.OnceWait? || pc.CloseCall? || pc.EmitWait? || pc.EmitLoop?
    ensures forall x :: 0 <= x < |s.subs| ==> !Owns(s.subs[x].stage, s.subs[x].once, t)
    ensures forall e :: 0 <= e < |s.emitters| ==> !Owns(s.emitters[e].stage, s.emitters[e].once, t)
  {
    forall x | 0 <= x < |s.subs| ensures !Owns(s.subs[x].stage, s.subs[x].once, t) { assert SubOk(s, x); }
    forall e | 0 <= e < |s.emitters| ensures !Owns(s.emitters[e].stage, s.emitters[e].once, t) {
      assert EmitterOk(s, e);
    }
  }

  lemma RemWantBusKeeps(s: State, t: nat)
    requires Structure(s) && At(s, t) && s.ops[t].RemWantBus?
    ensures Structure(Advance(s, t))
  {
    NoLocks(s, t);
    var s' := Advance(s, t);
    var x := s.ops[t].sub;
    assert OpOk(s, t) && SubOk(s, x);
    forall y | 0 <= y < |s.subs| && Owns(s.subs[y].stage, s.subs[y].once, t) ensures SubOk(s', y) {
      assert SubOk(s, y);
    }
    forall e | 0 <= e < |s.emitters| && Owns(s.emitters[e].stage, s.emitters[e].once, t) ensures EmitterOk(s', e) {
      assert EmitterOk(s, e);
    }
    ControlKeeps(s, s', t);
  }

  lemma DropWantBusKeeps(s: State, t: nat)
    requires Structure(s) && At(s, t) && s.ops[t].DropWantBus?
    ensures Structure(Advance(s, t))
  {
    NoLocks(s, t);
    var s' := Advance(s, t);
    assert OpOk(s, t);
    LeaverKeeps(s, s', t, s.ops[t].c);
    ControlKeeps(s, s', t);
  }

  lemma DropHasBusKeeps(s: State, t: nat)
    requires Structure(s) && At(s, t) && s.ops[t].DropHasBus?
    ensures Structure(Advance(s, t))
  {
    NoLocks(s, t);
    var s' := Advance(s, t);
    assert OpOk(s, t);
    assert NodeOk(s, s.ops[t].n);
    LeaverKeeps(s, s', t, s.ops[t].c);
    CountNonNegative(s.emitters, s.ops[t].n);
    forall typ | typ in s.nodeMap && Unused(s, s.nodeMap[typ]) && Covers(s.ops[t], typ, s.nodeMap[typ])
      ensures Covers(s'.ops[t], typ, s.nodeMap[typ]) {
    }
    ControlKeeps(s, s', t);
  }

  lemma {:induction false} CountNonNegative(ems: seq<Emitter>, n: nat)
    ensures CountRefs(ems, n) >= 0
  {
    if ems != [] { CountNonNegative(ems[..|ems| - 1], n); }
  }

  lemma LookupKeeps(s: State, t: nat)
    requires Structure(s) && At(s, t) && s.ops[t].WantBus?
    ensures Structure(Advance(s, t))
  {
    var task := s.ops[t].task;
    if TaskType(s, task) in s.nodeMap { FindKeeps(s, t, task); } else { CreateKeeps(s, t, task); }
  }

  lemma FindKeeps(s: State, t: nat, task: Task)
    requires Structure(s) && t < |s.ops| && s.ops[t] == WantBus(task) && s.bus == None && TaskType(s, task) in s.nodeMap
    ensures Structure(LookupOrCreate(s, t, task))
  {
    NoLocks(s, t);
    var s' := LookupOrCreate(s, t, task);
    assert OpOk(s, t);
    forall y | 0 <= y < |s.subs| && Owns(s.subs[y].stage, s.subs[y].once, t) ensures SubOk(s', y) {
      assert SubOk(s, y);
    }
    forall e | 0 <= e < |s.emitters| && Owns(s.emitters[e].stage, s.emitters[e].once, t) ensures EmitterOk(s', e) {
      assert EmitterOk(s, e);
    }
    ControlKeeps(s, s', t);
  }

  lemma CreateKeeps(s: State, t: nat, task: Task)
    requires Structure(s) && t < |s.ops| && s.ops[t] == WantBus(task) && s.bus == None
             && TaskType(s, task) !in s.nodeMap
    ensures Structure(LookupOrCreate(s, t, task))
  {
    var s' := LookupOrCreate(s, t, task);
    var typ, m := TaskType(s, task), |s.nodes|;
    assert OpOk(s, t);
    CreateGuar(s, s', t, task);
    forall typ' | typ' in s'.nodeMap
      ensures s'.nodeMap[typ'] < |s'.nodes| && s'.nodes[s'.nodeMap[typ']].typ == typ' && Covered(s', typ')
    {
      if typ' == typ { assert Covers(s'.ops[t], typ, m); } else { CoveredKeeps(s, s', t, typ'); }
    }
    MakerKeeps(s, s', t, task);
    StepKeeps(s, s', t);
  }

  lemma CreateGuar(s: State, s': State, t: nat, task: Task)
    requires Structure(s) && t < |s.ops| && s.ops[t] == WantBus(task) && s.bus == None
             && TaskType(s, task) !in s.nodeMap
    requires s' == LookupOrCreate(s, t, task)
    ensures Guar(s, s', t) && forall n :: 0 <= n < |s'.nodes| ==> NodeOk(s', n)
  {
    NoLocks(s, t);
    forall n | 0 <= n < |s.nodes| ensures GuarNode(s, s', t, n) && NodeOk(s', n) { assert NodeOk(s, n); }
    forall e | 0 <= e < |s.emitters| && s.emitters[e].stage.Attached? ensures s.emitters[e].node != |s.nodes| {
      assert EmitterOk(s, e);
    }
    CountRefsZero(s.emitters, |s.nodes|);
  }

  // The one handle an operation making it owns.
  lemma MakerKeeps(s: State, s': State, t: nat, task: Task)
    requires Structure(s) && t < |s.ops| && t < |s'.ops| && Makes(s.ops[t], task) && Makes(s'.ops[t], task)
    requires s'.subs == s.subs && s'.emitters == s.emitters
    ensures forall y :: 0 <= y < |s.subs| && TouchesSub(s, s', t, y) ==> SubOk(s', y)
    ensures forall e :: 0 <= e < |s.emitters| && TouchesEmitter(s, s', t, e) ==> EmitterOk(s', e)
  {
    forall y | 0 <= y < |s.subs| && TouchesSub(s, s', t, y) ensures SubOk(s', y) { assert SubOk(s, y); }
    forall e | 0 <= e < |s.emitters| && TouchesEmitter(s, s', t, e) ensures EmitterOk(s', e) { assert EmitterOk(s, e); }
  }

  // Taking a node lock while holding the bus lock, and releasing the latter.
  lemma LockForTaskKeeps(s: State, t: nat, task: Task, n: nat)
    requires Structure(s) && At(s, t) && s.ops[t] == HasBus(task, n)
    ensures Structure(Advance(s, t))
  {
    var s' := LockNode(s.(bus := None), t, n, HasNode(task, n));
    assert OpOk(s, t);
    LockNodeGuar(s, s', t, n);
    MakerKeeps(s, s', t, task);
    StepKeeps(s, s', t);
  }

  lemma LockForRemoveKeeps(s: State, t: nat, x: nat, n: nat)
    requires Structure(s) && At(s, t) && s.ops[t] == RemHasBus(x, n)
    ensures Structure(Advance(s, t))
  {
    var s' := LockNode(s.(bus := None), t, n, RemHasNode(x, n));
    assert OpOk(s, t);
    LockNodeGuar(s, s', t, n);
    forall y | 0 <= y < |s'.subs| && TouchesSub(s, s', t, y) ensures SubOk(s', y) { assert SubOk(s, y); }
    forall e | 0 <= e < |s'.emitters| && TouchesEmitter(s, s', t, e) ensures EmitterOk(s', e) {
      assert EmitterOk(s, e);
    }
    StepKeeps(s, s', t);
  }

  lemma LockNodeGuar(s: State, s': State, t: nat, n: nat)
    requires Structure(s) && t < |s.ops| && n < |s.nodes| && s.nodes[n].lk.None? && s.bus == Some(t)
    requires s.ops[t].HasBus? || s.ops[t].RemHasBus?
    requires |s'.ops| == |s.ops| && s' == LockNode(s.(bus := None), t, n, s'.ops[t]) && HoldsNode(s'.ops[t], n)
    requires forall typ :: Covers(s.ops[t], typ, n) ==> Covers(s'.ops[t], typ, n)
    requires s.ops[t].n == n
    ensures Guar(s, s', t)
    ensures forall m :: 0 <= m < |s.nodes| ==> NodeOk(s', m)
    ensures forall typ :: typ in s'.nodeMap ==> Covered(s', typ)
  {
    NoLocks(s, t);
    forall m | 0 <= m < |s.nodes| ensures GuarNode(s, s', t, m) && NodeOk(s', m) { assert NodeOk(s, m); }
    forall typ | typ in s'.nodeMap ensures Covered(s', typ) { CoveredKeeps(s, s', t, typ); }
  }

  lemma AttachSubKeeps(s: State, t: nat, x: nat, n: nat)
    requires Structure(s) && At(s, t) && s.ops[t] == HasNode(SubTask(x), n)
    ensures Structure(AttachSub(s, t, x, n))
  {
    var s' := AttachSub(s, t, x, n);
    AttachSubNodes(s, s', t, x, n);
    assert OpOk(s, t);
    assert forall y :: 0 <= y < |s.subs| ==> GuarSub(s, s', t, y);
    assert forall e :: 0 <= e < |s.emitters| ==> GuarEmitter(s, s', t, e);
    assert Guar(s, s', t);
    forall typ | typ in s'.nodeMap ensures Covered(s', typ) { CoveredKeeps(s, s', t, typ); }
    AttachSubOwned(s, s', t, x, n);
    StepKeeps(s, s', t);
  }

  lemma AttachSubNodes(s: State, s': State, t: nat, x: nat, n: nat)
    requires Structure(s) && At(s, t) && s.ops[t] == HasNode(SubTask(x), n) && s' == AttachSub(s, t, x, n)
    ensures forall m :: 0 <= m < |s.nodes| ==> GuarNode(s, s', t, m) && NodeOk(s', m)
  {
    assert OpOk(s, t) && SubOk(s, x);
    forall m | 0 <= m < |s.nodes| ensures GuarNode(s, s', t, m) && NodeOk(s', m) {
      assert NodeOk(s, m);
      forall y | y in s.nodes[m].sinks ensures y != x { assert SubOk(s, y); }
    }
  }

  lemma AttachSubOwned(s: State, s': State, t: nat, x: nat, n: nat)
    requires Structure(s) && At(s, t) && s.ops[t] == HasNode(SubTask(x), n) && s' == AttachSub(s, t, x, n)
    ensures forall y :: 0 <= y < |s'.subs| && TouchesSub(s, s', t, y) ==> SubOk(s', y)
    ensures forall e :: 0 <= e < |s'.emitters| && TouchesEmitter(s, s', t, e) ==> EmitterOk(s', e)
  {
    assert OpOk(s, t);
    forall y | 0 <= y < |s'.subs| && TouchesSub(s, s', t, y) ensures SubOk(s', y) {
      assert SubOk(s, y);
      if y == x { assert s'.nodes[n].sinks[|s.nodes[n].sinks|] == x; }
    }
    forall e | 0 <= e < |s'.emitters| && TouchesEmitter(s, s', t, e) ensures EmitterOk(s', e) {
      assert EmitterOk(s, e);
    }
  }

  lemma AttachEmitterKeeps(s: State, t: nat)
    requires Structure(s) && At(s, t) && s.ops[t].HasNode? && s.ops[t].task.EmitterTask?
    ensures Structure(Advance(s, t))
  {
    var s' := Advance(s, t);
    var e, n := s.ops[t].task.em, s.ops[t].n;
    assert OpOk(s, t) && EmitterOk(s, e) && NodeOk(s, n);
    AttachEmitterNodes(s, s', t, e, n);
    assert Guar(s, s', t);
    AttachEmitterOwned(s, s', t, e, n);
    StepKeeps(s, s', t);
  }

  lemma AttachEmitterOwned(s: State, s': State, t: nat, e: nat, n: nat)
    requires Structure(s) && At(s, t) && s.ops[t] == HasNode(EmitterTask(e), n) && e < |s.emitters| && n < |s.nodes|
    requires s' == AttachEmitter(s, t, e, n) && Guar(s, s', t)
    ensures forall typ :: typ in s'.nodeMap ==> Covered(s', typ)
    ensures forall y :: 0 <= y < |s'.subs| && TouchesSub(s, s', t, y) ==> SubOk(s', y)
    ensures forall y :: 0 <= y < |s'.emitters| && TouchesEmitter(s, s', t, y) ==> EmitterOk(s', y)
  {
    assert OpOk(s, t) && EmitterOk(s, e) && NodeOk(s, n);
    CountNonNegative(s.emitters, n);
    forall typ | typ in s'.nodeMap ensures Covered(s', typ) { CoveredKeeps(s, s', t, typ); }
    forall y | 0 <= y < |s'.subs| && TouchesSub(s, s', t, y) ensures SubOk(s', y) { assert SubOk(s, y); }
    forall y | 0 <= y < |s'.emitters| && TouchesEmitter(s, s', t, y) ensures EmitterOk(s', y) {
      assert EmitterOk(s, y);
    }
  }

  lemma AttachEmitterNodes(s: State, s': State, t: nat, e: nat, n: nat)
    requires Structure(s) && At(s, t) && s.ops[t] == HasNode(EmitterTask(e), n) && e < |s.emitters| && n < |s.nodes|
    requires s' == AttachEmitter(s, t, e, n)
    ensures forall m :: 0 <= m < |s.nodes| ==> GuarNode(s, s', t, m) && NodeOk(s', m)
  {
    assert OpOk(s, t) && EmitterOk(s, e) && NodeOk(s, n);
    CountNonNegative(s.emitters, n);
    forall m | 0 <= m < |s.nodes| ensures GuarNode(s, s', t, m) && NodeOk(s', m) {
      assert NodeOk(s, m);
      CountRefsUpdate(s.emitters, e, s'.emitters[e], m);
    }
  }

  lemma BeginEmitKeeps(s: State, t: nat)
    requires Structure(s) && At(s, t) && s.ops[t].EmitWait?
    ensures Structure(Advance(s, t))
  {
    var s' := Advance(s, t);
    assert OpOk(s, t);
    OwnsNothing(s, s', t);
    BeginEmitGuar(s, s', t);
    forall typ | typ in s'.nodeMap ensures Covered(s', typ) { CoveredKeeps(s, s', t, typ); }
    StepKeeps(s, s', t);
  }

  lemma BeginEmitGuar(s: State, s': State, t: nat)
    requires Structure(s) && At(s, t) && s.ops[t].EmitWait? && s' == Advance(s, t)
    ensures Guar(s, s', t) && forall n :: 0 <= n < |s.nodes| ==> NodeOk(s', n)
  {
    NoLocks(s, t);
    OwnsNothing(s, s', t);
    forall n | 0 <= n < |s.nodes| ensures GuarNode(s, s', t, n) && NodeOk(s', n) { assert NodeOk(s, n); }
  }

  // One send. The channel is open because its subscription is attached.
  lemma SendOneKeeps(s: State, t: nat, n: nat, ev: Event, i: nat)
    requires Structure(s) && At(s, t) && s.ops[t] == EmitLoop(n, ev, i) && i < |s.nodes[n].sinks|
    ensures Structure(SendOne(s, t, n, ev, i))
  {
    var s' := SendOne(s, t, n, ev, i);
    var x := s.nodes[n].sinks[i];
    assert OpOk(s, t) && NodeOk(s, n);
    assert x in s.nodes[n].sinks && SubOk(s, x);
    EmittingKeeps(s, s', t, n);
  }

  lemma EndLoopKeeps(s: State, t: nat, n: nat, ev: Event, i: nat)
    requires Structure(s) && At(s, t) && s.ops[t] == EmitLoop(n, ev, i)
    ensures Structure(Goto(Unlock(s, n), t, Done))
  {
    assert OpOk(s, t);
    EmittingKeeps(s, Goto(Unlock(s, n), t, Done), t, n);
  }

  // A step of the delivery loop touches channels and counters only.
  lemma EmittingKeeps(s: State, s': State, t: nat, n: nat)
    requires Structure(s) && t < |s.ops| && s.ops[t].EmitLoop? && s.ops[t].n == n && n < |s.nodes|
    requires s'.bus == s.bus && s'.nodeMap == s.nodeMap && s'.emitters == s.emitters && !s'.panicked
    requires |s'.ops| == |s.ops| && s'.ops == s.ops[t := s'.ops[t]] && OpOk(s', t)
    requires |s'.subs| == |s.subs|
    requires forall x :: 0 <= x < |s.subs| ==>
               s'.subs[x] == s.subs[x].(buf := s'.subs[x].buf, waiting := s'.subs[x].waiting,
                                        marks := s'.subs[x].marks, consumed := s'.subs[x].consumed)
    requires |s'.nodes| == |s.nodes|
    requires s'.nodes == s.nodes[n := s.nodes[n].(lk := s'.nodes[n].lk, dropCount := s'.nodes[n].dropCount)]
    requires (s'.ops[t].EmitLoop? && s'.ops[t].n == n && s'.nodes[n].lk == Some(t))
             || (s'.ops[t].Done? && s'.nodes[n].lk == None)
    ensures Structure(s')
  {
    assert OpOk(s, t);
    OwnsNothing(s, s', t);
    EmittingNodes(s, s', t, n);
    assert Guar(s, s', t);
    forall typ | typ in s'.nodeMap ensures Covered(s', typ) { CoveredKeeps(s, s', t, typ); }
    StepKeeps(s, s', t);
  }

  lemma EmittingNodes(s: State, s': State, t: nat, n: nat)
    requires Structure(s) && t < |s.ops| && s.ops[t].EmitLoop? && s.ops[t].n == n && n < |s.nodes|
    requires s'.emitters == s.emitters && |s'.ops| == |s.ops| && s'.ops == s.ops[t := s'.ops[t]]
             && |s'.subs| == |s.subs|
    requires forall x :: 0 <= x < |s.subs| ==> s'.subs[x].stage == s.subs[x].stage && s'.subs[x].node == s.subs[x].node
    requires |s'.nodes| == |s.nodes|
    requires s'.nodes == s.nodes[n := s.nodes[n].(lk := s'.nodes[n].lk, dropCount := s'.nodes[n].dropCount)]
    requires (s'.ops[t].EmitLoop? && s'.ops[t].n == n && s'.nodes[n].lk == Some(t))
             || (s'.ops[t].Done? && s'.nodes[n].lk == None)
    ensures forall m :: 0 <= m < |s.nodes| ==> GuarNode(s, s', t, m) && NodeOk(s', m)
  {
    assert OpOk(s, t);
    forall m | 0 <= m < |s.nodes| ensures GuarNode(s, s', t, m) && NodeOk(s', m) { assert NodeOk(s, m); }
  }

  lemma EnterOnceKeeps(s: State, t: nat, c: Cont)
    requires Structure(s) && At(s, t) && s.ops[t] == CloseCall(c)
    ensures Structure(EnterOnce(s, t, c))
  {
    assert OpOk(s, t);
    if OnceOf(s, c) != NotRun {
      NoLocks(s, t);
      OwnsNothing(s, EnterOnce(s, t, c), t);
      ControlKeeps(s, EnterOnce(s, t, c), t);
    } else if c.CloseSub? {
      CloseSubKeeps(s, t, c.sub);
    } else {
      CloseEmitterKeeps(s, t, c.em);
    }
  }

  lemma CloseSubKeeps(s: State, t: nat, x: nat)
    requires Structure(s) && At(s, t) && s.ops[t] == CloseCall(CloseSub(x)) && HasHandle(s, CloseSub(x))
             && s.subs[x].once == NotRun
    ensures Structure(EnterOnce(s, t, CloseSub(x)))
  {
    var s' := EnterOnce(s, t, CloseSub(x));
    OwnsNothing(s, s', t);
    assert SubOk(s, x);
    CloseSubGuar(s, s', t, x);
    forall typ | typ in s'.nodeMap ensures Covered(s', typ) { CoveredKeeps(s, s', t, typ); }
    StepKeeps(s, s', t);
  }

  lemma CloseSubGuar(s: State, s': State, t: nat, x: nat)
    requires Structure(s) && At(s, t) && s.ops[t] == CloseCall(CloseSub(x)) && HasHandle(s, CloseSub(x))
             && s.subs[x].once == NotRun
    requires s' == EnterOnce(s, t, CloseSub(x))
    ensures Guar(s, s', t) && forall m :: 0 <= m < |s.nodes| ==> NodeOk(s', m)
  {
    NoLocks(s, t);
    OwnsNothing(s, s', t);
    forall m | 0 <= m < |s.nodes| ensures GuarNode(s, s', t, m) && NodeOk(s', m) { assert NodeOk(s, m); }
  }

  lemma CloseEmitterKeeps(s: State, t: nat, e: nat)
    requires Structure(s) && At(s, t) && s.ops[t] == CloseCall(CloseEmitter(e)) && HasHandle(s, CloseEmitter(e))
             && s.emitters[e].once == NotRun
    ensures Structure(EnterOnce(s, t, CloseEmitter(e)))
  {
    var s' := EnterOnce(s, t, CloseEmitter(e));
    OwnsNothing(s, s', t);
    assert EmitterOk(s, e);
    CloseEmitterGuar(s, s', t, e);
    forall typ | typ in s'.nodeMap ensures Covered(s', typ) { CoveredKeeps(s, s', t, typ); }
    StepKeeps(s, s', t);
  }

  lemma CloseEmitterGuar(s: State, s': State, t: nat, e: nat)
    requires Structure(s) && At(s, t) && s.ops[t] == CloseCall(CloseEmitter(e)) && HasHandle(s, CloseEmitter(e))
             && s.emitters[e].once == NotRun
    requires s' == EnterOnce(s, t, CloseEmitter(e))
    ensures Guar(s, s', t) && forall m :: 0 <= m < |s.nodes| ==> NodeOk(s', m)
  {
    NoLocks(s, t);
    OwnsNothing(s, s', t);
    forall m | 0 <= m < |s.nodes| ensures GuarNode(s, s', t, m) && NodeOk(s', m) {
      assert NodeOk(s, m);
      CountRefsUpdate(s.emitters, e, s'.emitters[e], m);
    }
  }

  lemma DetachSubKeeps(s: State, t: nat, x: nat, n: nat)
    requires Structure(s) && At(s, t) && s.ops[t] == RemHasNode(x, n)
    ensures Structure(DetachSub(s, t, x, n))
  {
    var s' := DetachSub(s, t, x, n);
    DetachSubGuar(s, s', t, x, n);
    DetachSubOwned(s, s', t, x, n);
    assert OpOk(s, t);
    forall typ | typ in s'.nodeMap ensures Covered(s', typ) {
      if typ == s.subs[x].typ && Unused(s', n) {
        assert Covers(s'.ops[t], typ, n);
      } else {
        assert s.nodeMap[typ] != n || !Unused(s', n);
        CoveredKeeps(s, s', t, typ);
      }
    }
    StepKeeps(s, s', t);
  }

  lemma DetachSubGuar(s: State, s': State, t: nat, x: nat, n: nat)
    requires Structure(s) && At(s, t) && s.ops[t] == RemHasNode(x, n) && s' == DetachSub(s, t, x, n)
    ensures Guar(s, s', t)
    ensures forall m :: 0 <= m < |s.nodes| ==> NodeOk(s', m)
  {
    assert OpOk(s, t) && SubOk(s, x) && NodeOk(s, n);
    WithoutOk(s.nodes[n].sinks, x);
    forall m | 0 <= m < |s.nodes| ensures GuarNode(s, s', t, m) && NodeOk(s', m) { assert NodeOk(s, m); }
  }

  lemma DetachSubOwned(s: State, s': State, t: nat, x: nat, n: nat)
    requires Structure(s) && At(s, t) && s.ops[t] == RemHasNode(x, n) && s' == DetachSub(s, t, x, n)
    ensures forall y :: 0 <= y < |s'.subs| && TouchesSub(s, s', t, y) ==> SubOk(s', y)
    ensures forall e :: 0 <= e < |s'.emitters| && TouchesEmitter(s, s', t, e) ==> EmitterOk(s', e)
  {
    assert OpOk(s, t);
    forall y | 0 <= y < |s'.subs| && TouchesSub(s, s', t, y) ensures SubOk(s', y) { assert SubOk(s, y); }
    forall e | 0 <= e < |s'.emitters| && TouchesEmitter(s, s', t, e) ensures EmitterOk(s', e) {
      assert EmitterOk(s, e);
    }
  }

  // The decrement outside both locks: whoever brings the count to zero covers the node.
  lemma DetachEmitterKeeps(s: State, t: nat, e: nat)
    requires Structure(s) && At(s, t) && s.ops[t] == DecRefs(e)
    ensures Structure(DetachEmitter(s, t, e))
  {
    var s' := DetachEmitter(s, t, e);
    var n := s.emitters[e].node;
    DetachEmitterGuar(s, s', t, e);
    DetachEmitterOwned(s, s', t, e);
    assert OpOk(s, t) && EmitterOk(s, e);
    forall typ | typ in s'.nodeMap ensures Covered(s', typ) {
      if typ == s.emitters[e].typ && Unused(s', n) {
        assert Covers(s'.ops[t], typ, n);
      } else {
        assert s.nodeMap[typ] != n || !Unused(s', n);
        CoveredKeeps(s, s', t, typ);
      }
    }
    StepKeeps(s, s', t);
  }

  lemma DetachEmitterGuar(s: State, s': State, t: nat, e: nat)
    requires Structure(s) && At(s, t) && s.ops[t] == DecRefs(e) && s' == DetachEmitter(s, t, e)
    ensures Guar(s, s', t)
    ensures forall m :: 0 <= m < |s.nodes| ==> NodeOk(s', m)
  {
    NoLocks(s, t);
    assert OpOk(s, t) && EmitterOk(s, e);
    var n := s.emitters[e].node;
    assert NodeOk(s, n);
    CountRefsBound(s.emitters, e, n);
    forall m | 0 <= m < |s.nodes| ensures GuarNode(s, s', t, m) && NodeOk(s', m) {
      assert NodeOk(s, m);
      CountRefsUpdate(s.emitters, e, s'.emitters[e], m);
    }
  }

  lemma DetachEmitterOwned(s: State, s': State, t: nat, e: nat)
    requires Structure(s) && At(s, t) && s.ops[t] == DecRefs(e) && s' == DetachEmitter(s, t, e)
    ensures forall y :: 0 <= y < |s'.subs| && TouchesSub(s, s', t, y) ==> SubOk(s', y)
    ensures forall d :: 0 <= d < |s'.emitters| && TouchesEmitter(s, s', t, d) ==> EmitterOk(s', d)
  {
    assert OpOk(s, t);
    forall y | 0 <= y < |s'.subs| && TouchesSub(s, s', t, y) ensures SubOk(s', y) { assert SubOk(s, y); }
    forall d | 0 <= d < |s'.emitters| && TouchesEmitter(s, s', t, d) ensures EmitterOk(s', d) {
      assert EmitterOk(s, d);
    }
  }

  lemma DropDeleteKeeps(s: State, t: nat)
    requires Structure(s) && At(s, t) && s.ops[t].DropDelete?
    ensures Structure(Advance(s, t))
  {
    var s' := Advance(s, t);
    assert OpOk(s, t);
    DropDeleteGuar(s, s', t);
    forall typ | typ in s'.nodeMap ensures Covered(s', typ) { CoveredKeeps(s, s', t, typ); }
    LeaverKeeps(s, s', t, s.ops[t].c);
    StepKeeps(s, s', t);
  }

  lemma DropDeleteGuar(s: State, s': State, t: nat)
    requires Structure(s) && At(s, t) && s.ops[t].DropDelete? && s' == Advance(s, t)
    ensures Guar(s, s', t) && forall n :: 0 <= n < |s.nodes| ==> NodeOk(s', n)
  {
    NoLocks(s, t);
    assert OpOk(s, t) && Droppable(s, s.ops[t].n);
    forall n | 0 <= n < |s.nodes| ensures GuarNode(s, s', t, n) && NodeOk(s', n) { assert NodeOk(s, n); }
  }

  // The one handle an operation has taken off its node and not finished closing.
  lemma LeaverKeeps(s: State, s': State, t: nat, c: Cont)
    requires Structure(s) && t < |s.ops| && t < |s'.ops| && Leaves(s.ops[t], c) && Leaves(s'.ops[t], c)
    requires s'.subs == s.subs && s'.emitters == s.emitters && |s'.nodes| == |s.nodes|
    ensures forall y :: 0 <= y < |s.subs| && TouchesSub(s, s', t, y) ==> SubOk(s', y)
    ensures forall e :: 0 <= e < |s.emitters| && TouchesEmitter(s, s', t, e) ==> EmitterOk(s', e)
  {
    forall y | 0 <= y < |s.subs| && TouchesSub(s, s', t, y) ensures SubOk(s', y) { assert SubOk(s, y); }
    forall e | 0 <= e < |s.emitters| && TouchesEmitter(s, s', t, e) ensures EmitterOk(s', e) { assert EmitterOk(s, e); }
  }

  lemma CloseChanKeeps(s: State, t: nat)
    requires Structure(s) && At(s, t) && s.ops[t].CloseChan?
    ensures Structure(Advance(s, t))
  {
    var s' := Advance(s, t);
    assert OpOk(s, t) && SubOk(s, s.ops[t].sub);
    FinalGuar(s, s', t);
    FinalOwned(s, s', t);
    StepKeeps(s, s', t);
  }

  lemma FinishKeeps(s: State, t: nat)
    requires Structure(s) && At(s, t) && s.ops[t].FinishOnce?
    ensures Structure(Advance(s, t))
  {
    var s' := Advance(s, t);
    assert OpOk(s, t);
    FinalGuar(s, s', t);
    FinalOwned(s, s', t);
    StepKeeps(s, s', t);
  }

  // The last step of a Close call.
  lemma FinalGuar(s: State, s': State, t: nat)
    requires Structure(s) && At(s, t) && (s.ops[t].CloseChan? || s.ops[t].FinishOnce?) && s' == Advance(s, t)
    ensures Guar(s, s', t)
    ensures forall n :: 0 <= n < |s.nodes| ==> NodeOk(s', n)
    ensures forall typ :: typ in s'.nodeMap ==> Covered(s', typ)
  {
    FinalNodes(s, s', t);
    assert OpOk(s, t);
    assert Guar(s, s', t);
    forall typ | typ in s'.nodeMap ensures Covered(s', typ) { CoveredKeeps(s, s', t, typ); }
  }

  lemma FinalNodes(s: State, s': State, t: nat)
    requires Structure(s) && At(s, t) && (s.ops[t].CloseChan? || s.ops[t].FinishOnce?) && s' == Advance(s, t)
    ensures forall n :: 0 <= n < |s.nodes| ==> GuarNode(s, s', t, n) && NodeOk(s', n)
  {
    NoLocks(s, t);
    assert OpOk(s, t);
    forall n | 0 <= n < |s.nodes| ensures GuarNode(s, s', t, n) && NodeOk(s', n) {
      assert NodeOk(s, n);
      if s.ops[t].FinishOnce? { CountRefsUpdate(s.emitters, s.ops[t].em, s'.emitters[s.ops[t].em], n); }
    }
  }

  lemma FinalOwned(s: State, s': State, t: nat)
    requires Structure(s) && At(s, t) && (s.ops[t].CloseChan? || s.ops[t].FinishOnce?) && s' == Advance(s, t)
    ensures forall y :: 0 <= y < |s'.subs| && TouchesSub(s, s', t, y) ==> SubOk(s', y)
    ensures forall e :: 0 <= e < |s'.emitters| && TouchesEmitter(s, s', t, e) ==> EmitterOk(s', e)
  {
    assert OpOk(s, t);
    forall y | 0 <= y < |s'.subs| && TouchesSub(s, s', t, y) ensures SubOk(s', y) { assert SubOk(s, y); }
    forall e | 0 <= e < |s'.emitters| && TouchesEmitter(s, s', t, e) ensures EmitterOk(s', e) {
      assert EmitterOk(s, e);
    }
  }

  lemma AdvanceKeeps(s: State, t: nat)
    requires Structure(s) && At(s, t)
    ensures Structure(Advance(s, t))
  {
    match s.ops[t]
    case WantBus(_) => LookupKeeps(s, t);
    case HasBus(task, n) => LockForTaskKeeps(s, t, task, n);
    case RemHasBus(x, n) => LockForRemoveKeeps(s, t, x, n);
    case HasNode(SubTask(x), n) => AttachSubKeeps(s, t, x, n);
    case HasNode(EmitterTask(_), _) => AttachEmitterKeeps(s, t);
    case EmitCheck(_, _) => EmitCheckKeeps(s, t);
    case OnceWait(_) => EmitCheckKeeps(s, t);
    case EmitWait(_, _) => BeginEmitKeeps(s, t);
    case EmitLoop(n, ev, i) =>
      if i < |s.nodes[n].sinks| { SendOneKeeps(s, t, n, ev, i); } else { EndLoopKeeps(s, t, n, ev, i); }
    case CloseCall(c) => EnterOnceKeeps(s, t, c);
    case RemWantBus(_) => RemWantBusKeeps(s, t);
    case RemHasNode(x, n) => DetachSubKeeps(s, t, x, n);
    case DecRefs(e) => DetachEmitterKeeps(s, t, e);
    case DropWantBus(_, _) => DropWantBusKeeps(s, t);
    case DropHasBus(_, _, _) => DropHasBusKeeps(s, t);
    case DropDelete(_, _, _) => DropDeleteKeeps(s, t);
    case CloseChan(_) => CloseChanKeeps(s, t);
    case FinishOnce(_) => FinishKeeps(s, t);
    case Done =>
  }

  lemma ApplyKeeps(s: State, a: Action)
    requires Structure(s) && Enabled(s, a)
    ensures Structure(Apply(s, a))
  {
    match a
    case StartSubscribe(typ, cap) => StartSubscribeKeeps(s, typ, cap);
    case StartEmitter(typ, stateful) => StartEmitterKeeps(s, typ, stateful);
    case StartEmit(e, ev) => StartCallKeeps(s, EmitCheck(e, ev));
    case StartClose(c) => StartCallKeeps(s, CloseCall(c));
    case Receive(x) => ChannelKeeps(s, x, Recv(s.subs[x]));
    case Abandon(x) => ChannelKeeps(s, x, s.subs[x].(waiting := s.subs[x].waiting - 1));
    case Step(t) => AdvanceKeeps(s, t);
  }

  lemma {:induction false} RunKeeps(run: seq<State>, acts: seq<Action>, i: nat)
    requires IsRun(run, acts) && i < |run|
    ensures Structure(run[i])
  {
    if i > 0 {
      RunKeeps(run, acts, i - 1);
      ApplyKeeps(run[i - 1], acts[i - 1]);
    }
  }
}
