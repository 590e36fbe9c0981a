/**
 The invariant of the event bus and its preservation by every step.

 It is split by entity: what each program counter, subscription, emitter and node may assume of
 the rest of the state. Ownership is explicit: a lock, a `Creating` stage and a running closeOnce
 name the operation responsible, so that no two operations can claim the same thing.
 */
module EventBusInvariant {
  import opened Common
  import opened Wrappers
  import opened EventBus

  // ---------------------------------------------------------------- who holds what

  predicate HoldsBus(pc: PC) { pc.HasBus? || pc.RemHasBus? || pc.DropHasBus? || pc.DropDelete? }

  predicate HoldsNode(pc: PC, n: nat) { (pc.HasNode? || pc.RemHasNode? || pc.EmitLoop?) && pc.n == n }

  predicate Makes(pc: PC, task: Task) { (pc.WantBus? || pc.HasBus? || pc.HasNode?) && pc.task == task }

  predicate Removes(pc: PC, x: nat) { (pc.RemWantBus? || pc.RemHasBus? || pc.RemHasNode?) && pc.sub == x }

  // The part of a Close call that comes after the handle left its node.
  predicate Leaves(pc: PC, c: Cont) {
    || ((pc.DropWantBus? || pc.DropHasBus? || pc.DropDelete?) && pc.c == c)
    || pc == After(c)
  }

  // An operation that will attach something to node n of this type, or re-examine the type.
  predicate Covers(pc: PC, typ: Type, n: nat) {
    || ((pc.HasBus? || pc.HasNode?) && pc.n == n)
    || (pc.DropWantBus? && pc.typ == typ)
    || ((pc.DropHasBus? || pc.DropDelete?) && pc.typ == typ && pc.n == n)
  }

  function CountRefs(ems: seq<Emitter>, n: nat): (c: nat) {
    if ems == [] then 0
    else CountRefs(ems[..|ems| - 1], n) + if ems[|ems| - 1].stage.Attached? && ems[|ems| - 1].node == n then 1 else 0
  }

  function Falses(marks: seq<bool>): nat {
    if marks == [] then 0 else Falses(marks[..|marks| - 1]) + if marks[|marks| - 1] then 0 else 1
  }

  function SumDrops(subs: seq<Sub>, n: nat): nat {
    if subs == [] then 0
    else SumDrops(subs[..|subs| - 1], n) + if subs[|subs| - 1].node == n then Falses(subs[|subs| - 1].marks) else 0
  }

  // The events whose mark is true, in order.
  function Select(evs: seq<Event>, marks: seq<bool>): seq<Event>
    requires |evs| == |marks|
  {
    if marks == [] then []
    else Select(evs[..|evs| - 1], marks[..|marks| - 1]) + if marks[|marks| - 1] then [evs[|evs| - 1]] else []
  }

  // ---------------------------------------------------------------- the invariant

  ghost predicate TaskOk(s: State, task: Task, t: nat) {
    match task
    case SubTask(x) => x < |s.subs| && s.subs[x].stage == Creating(t)
    case EmitterTask(e) => e < |s.emitters| && s.emitters[e].stage == Creating(t)
  }

  ghost predicate MapsTo(s: State, typ: Type, n: nat) {
    typ in s.nodeMap && s.nodeMap[typ] == n && n < |s.nodes|
  }

  ghost predicate RemovingOk(s: State, x: nat, t: nat) {
    x < |s.subs| && s.subs[x].stage == Attached && s.subs[x].once == Running(t)
  }

  ghost predicate LeavingOk(s: State, c: Cont, t: nat) {
    match c
    case CloseSub(x) => x < |s.subs| && s.subs[x].stage == Detached && s.subs[x].once == Running(t)
    case CloseEmitter(e) => e < |s.emitters| && s.emitters[e].stage == Detached && s.emitters[e].once == Running(t)
  }

  ghost predicate OpOk(s: State, t: nat)
    requires t < |s.ops|
  {
    match s.ops[t]
    case WantBus(task) => TaskOk(s, task, t)
    case HasBus(task, n) => TaskOk(s, task, t) && s.bus == Some(t) && MapsTo(s, TaskType(s, task), n)
    case HasNode(task, n) =>
      TaskOk(s, task, t) && MapsTo(s, TaskType(s, task), n) && s.nodes[n].lk == Some(t)
    case EmitCheck(e, _) => e < |s.emitters| && !s.emitters[e].stage.Creating?
    case EmitWait(n, _) => n < |s.nodes|
    case EmitLoop(n, ev, i) =>
      && n < |s.nodes| && s.nodes[n].lk == Some(t) && i <= |s.nodes[n].sinks|
      && s.nodes[n].emitted != [] && s.nodes[n].emitted[|s.nodes[n].emitted| - 1] == ev
    case CloseCall(c) => HasHandle(s, c)
    case OnceWait(c) => HasHandle(s, c) && !OnceOf(s, c).NotRun?
    case RemWantBus(x) => RemovingOk(s, x, t)
    case RemHasBus(x, n) => RemovingOk(s, x, t) && s.bus == Some(t) && MapsTo(s, s.subs[x].typ, n)
    case RemHasNode(x, n) => RemovingOk(s, x, t) && MapsTo(s, s.subs[x].typ, n) && s.nodes[n].lk == Some(t)
    case DecRefs(e) => e < |s.emitters| && s.emitters[e].stage == Attached && s.emitters[e].once == Running(t)
    case DropWantBus(typ, c) => LeavingOk(s, c, t)
    case DropHasBus(typ, n, c) => LeavingOk(s, c, t) && s.bus == Some(t) && MapsTo(s, typ, n)
    case DropDelete(typ, n, c) =>
      && LeavingOk(s, c, t) && s.bus == Some(t) && MapsTo(s, typ, n)
      && s.nodes[n].sinks == [] && s.nodes[n].nEmitters == 0
      && (s.nodes[n].lk.Some? ==> s.nodes[n].lk.value < |s.ops| && s.ops[s.nodes[n].lk.value].EmitLoop?)
    case CloseChan(x) => LeavingOk(s, CloseSub(x), t)
    case FinishOnce(e) => LeavingOk(s, CloseEmitter(e), t)
    case Done => true
  }

  ghost predicate SubOk(s: State, x: nat)
    requires x < |s.subs|
  {
    var b := s.subs[x];
    match b.stage
    case Creating(t) => b.once == NotRun && !b.chClosed && t < |s.ops| && Makes(s.ops[t], SubTask(x))
    case Attached =>
      && !b.chClosed && MapsTo(s, b.typ, b.node) && x in s.nodes[b.node].sinks
      && (b.once == NotRun || (b.once.Running? && b.once.op < |s.ops| && Removes(s.ops[b.once.op], x)))
    case Detached =>
      match b.once
      case NotRun => false
      case Running(t) => !b.chClosed && t < |s.ops| && Leaves(s.ops[t], CloseSub(x))
      case Ran => b.chClosed
  }

  ghost predicate EmitterOk(s: State, e: nat)
    requires e < |s.emitters|
  {
    var m := s.emitters[e];
    match m.stage
    case Creating(t) => m.once == NotRun && !m.closed && t < |s.ops| && Makes(s.ops[t], EmitterTask(e))
    case Attached =>
      && MapsTo(s, m.typ, m.node)
      && (if m.closed then m.once.Running? && m.once.op < |s.ops| && s.ops[m.once.op] == DecRefs(e)
          else m.once == NotRun)
    case Detached =>
      && m.closed && m.node < |s.nodes|
      && match m.once
         case NotRun => false
         case Running(t) => t < |s.ops| && Leaves(s.ops[t], CloseEmitter(e))
         case Ran => true
  }

  ghost predicate NodeOk(s: State, n: nat)
    requires n < |s.nodes|
  {
    var node := s.nodes[n];
    && (node.lk.Some? ==> node.lk.value < |s.ops| && HoldsNode(s.ops[node.lk.value], n))
    && Distinct(node.sinks)
    && (forall x :: x in node.sinks ==> x < |s.subs| && s.subs[x].stage == Attached && s.subs[x].node == n)
    && node.nEmitters == CountRefs(s.emitters, n)
  }

  // A node nobody uses is about to be attached to, or somebody is on the way to drop it.
  ghost predicate Covered(s: State, typ: Type)
    requires typ in s.nodeMap && s.nodeMap[typ] < |s.nodes|
  {
    var n := s.nodeMap[typ];
    s.nodes[n].sinks == [] && s.nodes[n].nEmitters == 0 ==>
      exists t :: 0 <= t < |s.ops| && Covers(s.ops[t], typ, n)
  }

  ghost predicate Structure(s: State) {
    && !s.panicked
    && (s.bus.Some? ==> s.bus.value < |s.ops| && HoldsBus(s.ops[s.bus.value]))
    && (forall typ :: typ in s.nodeMap ==> s.nodeMap[typ] < |s.nodes| && s.nodes[s.nodeMap[typ]].typ == typ)
    && (forall t :: 0 <= t < |s.ops| ==> OpOk(s, t))
    && (forall x :: 0 <= x < |s.subs| ==> SubOk(s, x))
    && (forall e :: 0 <= e < |s.emitters| ==> EmitterOk(s, e))
    && (forall n :: 0 <= n < |s.nodes| ==> NodeOk(s, n))
    && (forall typ :: typ in s.nodeMap ==> Covered(s, typ))
  }

  // ---------------------------------------------------------------- counting lemmas

  lemma {:induction false} CountRefsUpdate(ems: seq<Emitter>, e: nat, m: Emitter, n: nat)
    requires e < |ems|
    ensures CountRefs(ems[e := m], n) ==
            CountRefs(ems, n) + (if m.stage.Attached? && m.node == n then 1 else 0)
                              - (if ems[e].stage.Attached? && ems[e].node == n then 1 else 0)
  {
    var k := |ems| - 1;
    if e == k {
      assert ems[e := m][..k] == ems[..k];
    } else {
      assert ems[e := m][..k] == ems[..k][e := m];
      CountRefsUpdate(ems[..k], e, m, n);
    }
  }

  lemma {:induction false} CountRefsBound(ems: seq<Emitter>, e: nat, n: nat)
    requires e < |ems| && ems[e].stage.Attached? && ems[e].node == n
    ensures CountRefs(ems, n) >= 1
  {
    if e < |ems| - 1 { CountRefsBound(ems[..|ems| - 1], e, n); }
  }

  lemma {:induction false} CountRefsZero(ems: seq<Emitter>, n: nat)
    requires forall e :: 0 <= e < |ems| && ems[e].stage.Attached? ==> ems[e].node != n
    ensures CountRefs(ems, n) == 0
  {
    if ems != [] { CountRefsZero(ems[..|ems| - 1], n); }
  }

  lemma CountRefsAppend(ems: seq<Emitter>, m: Emitter, n: nat)
    requires !m.stage.Attached?
    ensures CountRefs(ems + [m], n) == CountRefs(ems, n)
  {
    assert (ems + [m])[..|ems|] == ems;
  }

  lemma {:induction false} WithoutOk(q: seq<nat>, x: nat)
    requires Distinct(q)
    ensures Distinct(Without(q, x)) && x !in Without(q, x)
    ensures forall y :: y in Without(q, x) <==> y in q && y != x
  {
    if q != [] {
      assert Distinct(q[1..]);
      assert forall y :: y in q <==> y == q[0] || y in q[1..];
      assert q[0] !in q[1..];
      if q[0] != x { WithoutOk(q[1..], x); }
    }
  }

  // ---------------------------------------------------------------- rely and guarantee

  // A mapped node that the holder of the bus lock may unmap: nobody uses it or is about to.
  ghost predicate Droppable(s: State, n: nat) {
    && n < |s.nodes| && s.nodes[n].sinks == [] && s.nodes[n].nEmitters == 0
    && (s.nodes[n].lk.Some? ==> s.nodes[n].lk.value < |s.ops| && s.ops[s.nodes[n].lk.value].EmitLoop?)
  }

  ghost predicate GuarNode(s: State, s': State, t: nat, n: nat)
    requires n < |s.nodes| && n < |s'.nodes|
  {
    var a, b := s.nodes[n], s'.nodes[n];
    && a.typ == b.typ
    && (a.lk.Some? && a.lk.value != t ==> b.lk == a.lk && b.sinks == a.sinks && b.emitted == a.emitted)
    && (b.lk.Some? ==> a.lk == b.lk || b.lk == Some(t))
    && (b.lk == Some(t) ==> t < |s'.ops| && (s'.ops[t].EmitLoop? || s.bus == Some(t)))
    && (b.sinks != a.sinks ==> a.lk == Some(t) && t < |s.ops| && !s.ops[t].EmitLoop?)
    && (b.nEmitters != a.nEmitters ==>
          a.nEmitters > 0 || (a.lk == Some(t) && t < |s.ops| && !s.ops[t].EmitLoop?))
  }

  // Does operation t own this subscription or emitter, by making it or by closing it?
  predicate Owns(stage: Stage, once: Once, t: nat) { stage == Creating(t) || once == Running(t) }

  ghost predicate GuarOnce(a: Once, b: Once, t: nat) {
    match a
    case NotRun => b == NotRun || b == Running(t)
    case Running(u) => b == a || (u == t && b == Ran)
    case Ran => b == Ran
  }

  ghost predicate GuarSub(s: State, s': State, t: nat, x: nat)
    requires x < |s.subs| && x < |s'.subs|
  {
    var a, b := s.subs[x], s'.subs[x];
    && a.typ == b.typ
    && GuarOnce(a.once, b.once, t)
    && (!Owns(a.stage, a.once, t) ==> b.stage == a.stage && b.chClosed == a.chClosed && b.node == a.node)
    && (!a.stage.Creating? ==> !b.stage.Creating?)
    && (a.stage == Attached && !Owns(a.stage, a.once, t) && a.node < |s.nodes| && a.node < |s'.nodes| ==>
          x in s.nodes[a.node].sinks ==> x in s'.nodes[a.node].sinks)
  }

  ghost predicate GuarEmitter(s: State, s': State, t: nat, e: nat)
    requires e < |s.emitters| && e < |s'.emitters|
  {
    var a, b := s.emitters[e], s'.emitters[e];
    && a.typ == b.typ
    && GuarOnce(a.once, b.once, t)
    && (!Owns(a.stage, a.once, t) ==> b.stage == a.stage && b.node == a.node)
    && (!a.stage.Creating? ==> !b.stage.Creating?)
    && (!Owns(a.stage, a.once, t) && b.once == a.once ==> b.closed == a.closed)
  }

  /** What a step of operation t leaves alone: the program counters of the others, the locks they
      hold with what those locks protect, and the handles they own. */
  ghost predicate Guar(s: State, s': State, t: nat) {
    && |s.ops| <= |s'.ops| && |s.nodes| <= |s'.nodes| && |s.subs| <= |s'.subs| && |s.emitters| <= |s'.emitters|
    && (forall u :: 0 <= u < |s'.ops| && u != t ==> u < |s.ops| && s'.ops[u] == s.ops[u])
    && (s.bus.Some? && s.bus.value != t ==> s'.bus == s.bus)
    && (forall typ :: typ in s.nodeMap ==>
          || (typ in s'.nodeMap && s'.nodeMap[typ] == s.nodeMap[typ])
          || (s.bus == Some(t) && Droppable(s, s.nodeMap[typ])))
    && (forall n :: 0 <= n < |s.nodes| ==> GuarNode(s, s', t, n))
    && (forall x :: 0 <= x < |s.subs| ==> GuarSub(s, s', t, x))
    && (forall e :: 0 <= e < |s.emitters| ==> GuarEmitter(s, s', t, e))
  }

  lemma RelyOp(s: State, s': State, t: nat, u: nat)
    requires Structure(s) && Guar(s, s', t) && u < |s.ops| && u < |s'.ops| && u != t
    ensures OpOk(s', u)
  {
    assert OpOk(s, u);
    assert s'.ops[u] == s.ops[u];
    match s.ops[u]
    case WantBus(task) => RelyTask(s, s', t, u, task);
    case HasBus(task, n) => RelyTask(s, s', t, u, task);
    case HasNode(task, n) =>
      RelyTask(s, s', t, u, task);
      assert GuarNode(s, s', t, n);
      assert TaskType(s, task) in s.nodeMap && !Droppable(s, n);
    case EmitLoop(n, _, _) => assert GuarNode(s, s', t, n);
    case EmitCheck(e, _) => assert GuarEmitter(s, s', t, e);
    case CloseCall(c) => RelyHandle(s, s', t, c);
    case OnceWait(c) => RelyHandle(s, s', t, c);
    case Done =>
    case EmitWait(_, _) =>
    case _ => RelyCloser(s, s', t, u);
  }

  // An operation inside a Close call.
  lemma RelyCloser(s: State, s': State, t: nat, u: nat)
    requires Structure(s) && Guar(s, s', t) && u < |s.ops| && u < |s'.ops| && u != t
    requires s.ops[u].RemWantBus? || s.ops[u].RemHasBus? || s.ops[u].RemHasNode? || s.ops[u].DecRefs?
             || s.ops[u].DropWantBus? || s.ops[u].DropHasBus? || s.ops[u].DropDelete? || s.ops[u].CloseChan?
             || s.ops[u].FinishOnce?
    ensures OpOk(s', u)
  {
    assert OpOk(s, u);
    assert s'.ops[u] == s.ops[u];
    match s.ops[u]
    case RemWantBus(x) => assert GuarSub(s, s', t, x);
    case RemHasBus(x, n) => assert GuarSub(s, s', t, x);
    case RemHasNode(x, n) =>
      assert GuarSub(s, s', t, x) && GuarNode(s, s', t, n);
      assert s.subs[x].typ in s.nodeMap && !Droppable(s, n);
    case DecRefs(e) => assert GuarEmitter(s, s', t, e);
    case DropWantBus(_, c) => RelyLeaving(s, s', t, u, c);
    case DropHasBus(_, _, c) => RelyLeaving(s, s', t, u, c);
    case DropDelete(_, n, c) => RelyLeaving(s, s', t, u, c); assert GuarNode(s, s', t, n);
    case CloseChan(x) => assert GuarSub(s, s', t, x);
    case FinishOnce(e) => assert GuarEmitter(s, s', t, e);
  }

  lemma RelyTask(s: State, s': State, t: nat, u: nat, task: Task)
    requires Structure(s) && Guar(s, s', t) && u != t && TaskOk(s, task, u)
    ensures TaskOk(s', task, u) && TaskType(s', task) == TaskType(s, task)
  {
    match task
    case SubTask(x) => assert SubOk(s, x) && GuarSub(s, s', t, x);
    case EmitterTask(e) => assert EmitterOk(s, e) && GuarEmitter(s, s', t, e);
  }

  lemma RelyHandle(s: State, s': State, t: nat, c: Cont)
    requires Guar(s, s', t) && HasHandle(s, c)
    ensures HasHandle(s', c) && (!OnceOf(s, c).NotRun? ==> !OnceOf(s', c).NotRun?)
  {
    match c
    case CloseSub(x) => assert GuarSub(s, s', t, x);
    case CloseEmitter(e) => assert GuarEmitter(s, s', t, e);
  }

  lemma RelyLeaving(s: State, s': State, t: nat, u: nat, c: Cont)
    requires Guar(s, s', t) && u != t && LeavingOk(s, c, u)
    ensures LeavingOk(s', c, u)
  {
    match c
    case CloseSub(x) => assert GuarSub(s, s', t, x);
    case CloseEmitter(e) => assert GuarEmitter(s, s', t, e);
  }

  lemma RelySub(s: State, s': State, t: nat, x: nat)
    requires Structure(s) && Guar(s, s', t) && x < |s.subs|
    requires !Owns(s.subs[x].stage, s.subs[x].once, t) && s'.subs[x].once == s.subs[x].once
    requires t < |s.ops| ==> t < |s'.ops|
    ensures SubOk(s', x)
  {
    assert SubOk(s, x) && GuarSub(s, s', t, x);
    var b := s.subs[x];
    if b.stage == Attached {
      assert GuarNode(s, s', t, b.node);
      assert b.typ in s.nodeMap && !Droppable(s, b.node);
    }
  }

  lemma RelyEmitter(s: State, s': State, t: nat, e: nat)
    requires Structure(s) && Guar(s, s', t) && e < |s.emitters|
    requires !Owns(s.emitters[e].stage, s.emitters[e].once, t) && s'.emitters[e].once == s.emitters[e].once
    ensures EmitterOk(s', e)
  {
    assert EmitterOk(s, e) && GuarEmitter(s, s', t, e);
    var m := s.emitters[e];
    if m.stage == Attached {
      assert NodeOk(s, m.node);
      CountRefsBound(s.emitters, e, m.node);
      assert m.typ in s.nodeMap && !Droppable(s, m.node);
    }
  }

  // Is the entity one the step may have changed?
  predicate TouchesSub(s: State, s': State, t: nat, x: nat)
    requires x < |s'.subs|
  {
    x >= |s.subs| || Owns(s.subs[x].stage, s.subs[x].once, t) || s'.subs[x].once != s.subs[x].once
  }

  predicate TouchesEmitter(s: State, s': State, t: nat, e: nat)
    requires e < |s'.emitters|
  {
    e >= |s.emitters| || Owns(s.emitters[e].stage, s.emitters[e].once, t) || s'.emitters[e].once != s.emitters[e].once
  }

  /** The step lemma: what is left to show for a step that meets its guarantee. */
  lemma StepKeeps(s: State, s': State, t: nat)
    requires Structure(s) && Guar(s, s', t) && !s'.panicked
    requires s'.bus.Some? ==> s'.bus.value < |s'.ops| && HoldsBus(s'.ops[s'.bus.value])
    requires forall typ :: typ in s'.nodeMap ==>
               s'.nodeMap[typ] < |s'.nodes| && s'.nodes[s'.nodeMap[typ]].typ == typ && Covered(s', typ)
    requires t < |s'.ops| ==> OpOk(s', t)
    requires forall x :: 0 <= x < |s'.subs| && TouchesSub(s, s', t, x) ==> SubOk(s', x)
    requires forall e :: 0 <= e < |s'.emitters| && TouchesEmitter(s, s', t, e) ==> EmitterOk(s', e)
    requires forall n :: 0 <= n < |s'.nodes| ==> NodeOk(s', n)
    requires t < |s.ops| ==> t < |s'.ops|
    ensures Structure(s')
  {
    forall u | 0 <= u < |s'.ops| ensures OpOk(s', u) {
      var pc := s'.ops[u];
      if u != t { RelyOp(s, s', t, u); }
    }
    forall x | 0 <= x < |s'.subs| ensures SubOk(s', x) {
      if !TouchesSub(s, s', t, x) { RelySub(s, s', t, x); }
    }
    forall e | 0 <= e < |s'.emitters| ensures EmitterOk(s', e) {
      if !TouchesEmitter(s, s', t, e) { RelyEmitter(s, s', t, e); }
    }
  }

  predicate Unused(s: State, n: nat) { n < |s.nodes| && s.nodes[n].sinks == [] && s.nodes[n].nEmitters == 0 }

  lemma CoveredKeeps(s: State, s': State, t: nat, typ: Type)
    requires Structure(s) && Guar(s, s', t) && typ in s.nodeMap && typ in s'.nodeMap
    requires s'.nodeMap[typ] == s.nodeMap[typ]
    requires Unused(s', s'.nodeMap[typ]) && !(t < |s'.ops| && Covers(s'.ops[t], typ, s'.nodeMap[typ])) ==>
               Unused(s, s.nodeMap[typ]) && !(t < |s.ops| && Covers(s.ops[t], typ, s.nodeMap[typ]))
    ensures Covered(s', typ)
  {
    var n := s.nodeMap[typ];
    assert Covered(s, typ);
    if Unused(s', n) {
      if t < |s'.ops| && Covers(s'.ops[t], typ, n) {
      } else {
        var u :| 0 <= u < |s.ops| && Covers(s.ops[u], typ, n);
        assert u != t;
        assert s'.ops[u] == s.ops[u];
      }
    }
  }

  // ---------------------------------------------------------------- client actions

  lemma StartSubscribeKeeps(s: State, typ: Type, cap: nat)
    requires Structure(s)
    ensures Structure(Apply(s, StartSubscribe(typ, cap)))
  {
    StartKeeps(s, Apply(s, StartSubscribe(typ, cap)));
  }

  lemma StartEmitterKeeps(s: State, typ: Type, stateful: bool)
    requires Structure(s)
    ensures Structure(Apply(s, StartEmitter(typ, stateful)))
  {
    var s' := Apply(s, StartEmitter(typ, stateful));
    forall n ensures CountRefs(s'.emitters, n) == CountRefs(s.emitters, n) {
      CountRefsAppend(s.emitters, s'.emitters[|s.emitters|], n);
    }
    StartKeeps(s, s');
  }

  lemma StartCallKeeps(s: State, pc: PC)
    requires Structure(s)
    requires (pc.EmitCheck? && HasHandle(s, CloseEmitter(pc.em))) || (pc.CloseCall? && HasHandle(s, pc.c))
    ensures Structure(s.(ops := s.ops + [pc]))
  {
    StartKeeps(s, s.(ops := s.ops + [pc]));
  }

  // Starting an operation only appends: nothing that exists changes.
  lemma StartKeeps(s: State, s': State)
    requires Structure(s)
    requires s'.bus == s.bus && s'.nodeMap == s.nodeMap && s'.nodes == s.nodes && s'.panicked == s.panicked
    requires s.subs <= s'.subs && s.emitters <= s'.emitters && s.ops <= s'.ops && |s'.ops| == |s.ops| + 1
    requires OpOk(s', |s.ops|)
    requires forall x :: |s.subs| <= x < |s'.subs| ==> SubOk(s', x)
    requires forall e :: |s.emitters| <= e < |s'.emitters| ==> EmitterOk(s', e)
    requires forall n :: 0 <= n < |s.nodes| ==> CountRefs(s'.emitters, n) == CountRefs(s.emitters, n)
    ensures Structure(s')
  {
    var t := |s.ops|;
    forall x | 0 <= x < |s.subs| ensures !TouchesSub(s, s', t, x) { assert SubOk(s, x); }
    forall e | 0 <= e < |s.emitters| ensures !TouchesEmitter(s, s', t, e) { assert EmitterOk(s, e); }
    forall n | 0 <= n < |s.nodes| ensures GuarNode(s, s', t, n) && NodeOk(s', n) { assert NodeOk(s, n); }
    assert Guar(s, s', t);
    forall typ | typ in s'.nodeMap ensures Covered(s', typ) { CoveredKeeps(s, s', t, typ); }
    StepKeeps(s, s', t);
  }

  // What a receiver does changes the channel only.
  lemma ChannelKeeps(s: State, x: nat, b: Sub)
    requires Structure(s) && x < |s.subs| && b == s.subs[x].(buf := b.buf, waiting := b.waiting, consumed := b.consumed)
    ensures Structure(s.(subs := s.subs[x := b]))
  {
    var s' := s.(subs := s.subs[x := b]);
    var t := |s.ops|;
    forall y | 0 <= y < |s.subs| ensures !TouchesSub(s, s', t, y) { assert SubOk(s, y); }
    forall e | 0 <= e < |s.emitters| ensures !TouchesEmitter(s, s', t, e) { assert EmitterOk(s, e); }
    forall n | 0 <= n < |s.nodes| ensures GuarNode(s, s', t, n) && NodeOk(s', n) { assert NodeOk(s, n); }
    assert Guar(s, s', t);
    forall typ | typ in s'.nodeMap ensures Covered(s', typ) { CoveredKeeps(s, s', t, typ); }
    StepKeeps(s, s', t);
  }
}
