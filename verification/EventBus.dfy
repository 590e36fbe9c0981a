/**
 The event bus (internal/core/eventbus) as an interleaving state machine.

 Every operation in flight is a program counter. One step of an operation is the code
 between two points where another goroutine can interfere: taking a lock, sending on one
 channel, or touching an atomic counter. Locks are part of the state, so a step that has to
 wait is simply not enabled, and a send on a closed channel sets `panicked`.
 */
module EventBus {
  import opened Wrappers

  // An emitted interface value; Emit(nil) is legal and is never replayed.
  datatype Event = NilEvent | Event(id: int)

  type Type = nat     // the element type an event channel is keyed by

  datatype Once = NotRun | Running(op: nat) | Ran    // sync.Once, with the operation running it

  datatype Stage =
    | Creating(op: nat)   // allocated by operation `op`, not yet attached to a node
    | Attached            // in the sinks of its node / counted in nEmitters
    | Detached            // removed from the sinks / counter already decremented

  /** One event-type node. `emitted` is a history variable: every event emitted on the node. */
  datatype Node = Node(
    typ: Type, lk: Option<nat>, sinks: seq<nat>, nEmitters: int,
    keepLast: bool, last: Event, dropCount: nat, emitted: seq<Event>)

  /** A subscription with its channel. `waiting` counts receivers blocked on the empty channel.
      History variables: `node` and `regAt` say where and when it was attached, `endAt` when it was
      removed, `replay` what was replayed at first, `marks[k]` whether the k-th event emitted since
      then was sent or dropped, and `consumed` what left the channel. */
  datatype Sub = Sub(
    typ: Type, cap: nat, buf: seq<Event>, waiting: nat, chClosed: bool, once: Once, stage: Stage,
    node: nat, regAt: nat, endAt: nat, replay: seq<Event>, marks: seq<bool>, consumed: seq<Event>)

  datatype Emitter = Emitter(typ: Type, stateful: bool, node: nat, closed: bool, once: Once, stage: Stage)

  // The callback withNode runs, and the Close call a node removal returns to.
  datatype Task = SubTask(sub: nat) | EmitterTask(em: nat)
  datatype Cont = CloseSub(sub: nat) | CloseEmitter(em: nat)

  datatype PC =
    | WantBus(task: Task)                          // withNode: before b.mu.Lock
    | HasBus(task: Task, n: nat)                   //   holds b.mu, before n.lk.Lock
    | HasNode(task: Task, n: nat)                  //   holds n.lk, callback not run yet
    | EmitCheck(em: nat, ev: Event)                // Emit: before the closed check
    | EmitWait(n: nat, ev: Event)                  //   check passed, before n.lk.Lock
    | EmitLoop(n: nat, ev: Event, i: nat)          //   holds n.lk, about to send to sinks[i]
    | CloseCall(c: Cont)                           // Close: before closeOnce.Do
    | OnceWait(c: Cont)                            //   another goroutine runs the closure
    | RemWantBus(sub: nat)                         // removeSub: before b.mu.Lock
    | RemHasBus(sub: nat, n: nat)
    | RemHasNode(sub: nat, n: nat)
    | DecRefs(em: nat)                             // Emitter.Close: before nEmitters.Add(-1)
    | DropWantBus(typ: Type, c: Cont)              // tryDropNode: before b.mu.Lock
    | DropHasBus(typ: Type, n: nat, c: Cont)       //   holds b.mu, before n.lk.Lock
    | DropDelete(typ: Type, n: nat, c: Cont)       //   holds b.mu, decided to delete
    | CloseChan(sub: nat)                          // Subscription.Close: before close(s.out)
    | FinishOnce(em: nat)                          // Emitter.Close: the closure is about to return
    | Done

  datatype State = State(
    bus: Option<nat>, nodeMap: map<Type, nat>, nodes: seq<Node>,
    subs: seq<Sub>, emitters: seq<Emitter>, ops: seq<PC>, panicked: bool)

  function Init(): State { State(None, map[], [], [], [], [], false) }

  // ---------------------------------------------------------------- client actions

  // What a client may do in any state: start an operation on a handle it was given, or receive.
  datatype Action =
    | StartSubscribe(typ: Type, cap: nat)
    | StartEmitter(typ: Type, stateful: bool)
    | StartEmit(em: nat, ev: Event)
    | StartClose(c: Cont)
    | Receive(sub: nat)
    | Abandon(sub: nat)   // a blocked receiver gives up, as in a select with a timeout
    | Step(t: nat)        // one step of the operation t in flight

  predicate HasHandle(s: State, c: Cont) {
    match c
    case CloseSub(x) => x < |s.subs| && !s.subs[x].stage.Creating?
    case CloseEmitter(e) => e < |s.emitters| && !s.emitters[e].stage.Creating?
  }

  predicate Enabled(s: State, a: Action) {
    match a
    case StartSubscribe(_, _) => true
    case StartEmitter(_, _) => true
    case StartEmit(e, _) => HasHandle(s, CloseEmitter(e))
    case StartClose(c) => HasHandle(s, c)
    case Receive(x) => HasHandle(s, CloseSub(x))
    case Abandon(x) => HasHandle(s, CloseSub(x)) && s.subs[x].waiting > 0
    case Step(t) => t < |s.ops| && CanStep(s, s.ops[t])
  }

  // A running operation can step unless the lock it wants is held or it waits for closeOnce.
  predicate CanStep(s: State, pc: PC) {
    match pc
    case WantBus(_) => s.bus.None?
    case RemWantBus(x) => s.bus.None? && x < |s.subs|
    case DropWantBus(_, _) => s.bus.None?
    case HasBus(_, n) => n < |s.nodes| && s.nodes[n].lk.None?
    case RemHasBus(_, n) => n < |s.nodes| && s.nodes[n].lk.None?
    case DropHasBus(_, n, _) => n < |s.nodes| && s.nodes[n].lk.None?
    case EmitWait(n, _) => n < |s.nodes| && s.nodes[n].lk.None?
    case OnceWait(c) => HasHandle(s, c) && OnceOf(s, c).Ran?
    case Done => false
    case _ => InRange(s, pc)
  }

  predicate InRange(s: State, pc: PC) {
    match pc
    case HasNode(SubTask(x), n) => x < |s.subs| && n < |s.nodes|
    case HasNode(EmitterTask(e), n) => e < |s.emitters| && n < |s.nodes|
    case EmitCheck(e, _) => e < |s.emitters|
    case EmitLoop(n, _, i) => n < |s.nodes| && (i < |s.nodes[n].sinks| ==> s.nodes[n].sinks[i] < |s.subs|)
    case CloseCall(c) => HasHandle(s, c)
    case RemHasNode(x, n) => x < |s.subs| && n < |s.nodes|
    case DecRefs(e) => e < |s.emitters| && s.emitters[e].node < |s.nodes|
    case CloseChan(x) => x < |s.subs|
    case FinishOnce(e) => e < |s.emitters|
    case _ => true
  }

  function OnceOf(s: State, c: Cont): Once
    requires HasHandle(s, c)
  {
    match c
    case CloseSub(x) => s.subs[x].once
    case CloseEmitter(e) => s.emitters[e].once
  }

  function Apply(s: State, a: Action): State
    requires Enabled(s, a)
  {
    match a
    case StartSubscribe(typ, cap) =>
      s.(subs := s.subs + [Sub(typ, cap, [], 0, false, NotRun, Creating(|s.ops|), 0, 0, 0, [], [], [])],
         ops := s.ops + [WantBus(SubTask(|s.subs|))])
    case StartEmitter(typ, stateful) =>
      s.(emitters := s.emitters + [Emitter(typ, stateful, 0, false, NotRun, Creating(|s.ops|))],
         ops := s.ops + [WantBus(EmitterTask(|s.emitters|))])
    case StartEmit(e, ev) => s.(ops := s.ops + [EmitCheck(e, ev)])
    case StartClose(c) => s.(ops := s.ops + [CloseCall(c)])
    case Receive(x) => s.(subs := s.subs[x := Recv(s.subs[x])])
    case Abandon(x) => s.(subs := s.subs[x := s.subs[x].(waiting := s.subs[x].waiting - 1)])
    case Step(t) => Advance(s, t)
  }

  // ---------------------------------------------------------------- channels

  /** A receive: takes the oldest queued event, else blocks unless the channel is closed. */
  function Recv(b: Sub): Sub {
    if b.buf != [] then b.(consumed := b.consumed + [b.buf[0]], buf := b.buf[1..])
    else if b.chClosed then b
    else b.(waiting := b.waiting + 1)
  }

  // A non-blocking send succeeds when a receiver waits or the buffer has room.
  predicate CanSend(b: Sub) { b.waiting > 0 || |b.buf| < b.cap }

  function Put(b: Sub, ev: Event): Sub {
    if b.waiting > 0 then b.(waiting := b.waiting - 1, consumed := b.consumed + [ev])
    else if |b.buf| < b.cap then b.(buf := b.buf + [ev])
    else b
  }

  // ---------------------------------------------------------------- one step of an operation

  function Advance(s: State, t: nat): State
    requires t < |s.ops| && CanStep(s, s.ops[t])
  {
    match s.ops[t]
    case WantBus(task) => LookupOrCreate(s, t, task)
    case HasBus(task, n) => LockNode(s.(bus := None), t, n, HasNode(task, n))
    case HasNode(SubTask(x), n) => AttachSub(s, t, x, n)
    case HasNode(EmitterTask(e), n) => AttachEmitter(s, t, e, n)
    case EmitCheck(e, ev) =>
      Goto(s, t, if s.emitters[e].closed then Done else EmitWait(s.emitters[e].node, ev))
    case EmitWait(n, ev) => BeginEmit(s, t, n, ev)
    case EmitLoop(n, ev, i) =>
      if i < |s.nodes[n].sinks| then SendOne(s, t, n, ev, i)
      else Goto(Unlock(s, n), t, Done)
    case CloseCall(c) => EnterOnce(s, t, c)
    case OnceWait(_) => Goto(s, t, Done)
    case RemWantBus(x) =>
      if s.subs[x].typ in s.nodeMap
      then Goto(s.(bus := Some(t)), t, RemHasBus(x, s.nodeMap[s.subs[x].typ]))
      else Goto(s, t, CloseChan(x))
    case RemHasBus(x, n) => LockNode(s.(bus := None), t, n, RemHasNode(x, n))
    case RemHasNode(x, n) => DetachSub(s, t, x, n)
    case DecRefs(e) => DetachEmitter(s, t, e)
    case DropWantBus(typ, c) =>
      if typ in s.nodeMap then Goto(s.(bus := Some(t)), t, DropHasBus(typ, s.nodeMap[typ], c))
      else Goto(s, t, After(c))
    case DropHasBus(typ, n, c) =>
      if |s.nodes[n].sinks| > 0 || s.nodes[n].nEmitters > 0
      then Goto(s.(bus := None), t, After(c))
      else Goto(s, t, DropDelete(typ, n, c))
    case DropDelete(typ, n, c) =>
      Goto(s.(bus := None, nodeMap := s.nodeMap - {typ}), t, After(c))
    case CloseChan(x) => CloseChannel(s, t, x)
    case FinishOnce(e) => Goto(s.(emitters := s.emitters[e := s.emitters[e].(once := Ran)]), t, Done)
  }

  function Goto(s: State, t: nat, pc: PC): State
    requires t < |s.ops|
  {
    s.(ops := s.ops[t := pc])
  }

  function After(c: Cont): PC {
    match c
    case CloseSub(x) => CloseChan(x)
    case CloseEmitter(e) => FinishOnce(e)
  }

  function TaskType(s: State, task: Task): Type {
    match task
    case SubTask(x) => if x < |s.subs| then s.subs[x].typ else 0
    case EmitterTask(e) => if e < |s.emitters| then s.emitters[e].typ else 0
  }

  function LookupOrCreate(s: State, t: nat, task: Task): State
    requires t < |s.ops|
  {
    var typ := TaskType(s, task);
    if typ in s.nodeMap then Goto(s.(bus := Some(t)), t, HasBus(task, s.nodeMap[typ]))
    else
      var n := |s.nodes|;
      Goto(s.(bus := Some(t), nodeMap := s.nodeMap[typ := n],
              nodes := s.nodes + [Node(typ, None, [], 0, false, NilEvent, 0, [])]),
           t, HasBus(task, n))
  }

  function LockNode(s: State, t: nat, n: nat, pc: PC): State
    requires t < |s.ops| && n < |s.nodes|
  {
    Goto(s.(nodes := s.nodes[n := s.nodes[n].(lk := Some(t))]), t, pc)
  }

  function Unlock(s: State, n: nat): State
    requires n < |s.nodes|
  {
    s.(nodes := s.nodes[n := s.nodes[n].(lk := None)])
  }

  /** Subscribe's callback: append to the sinks, then replay the last event of a stateful node
      with a non-blocking send. */
  function AttachSub(s: State, t: nat, x: nat, n: nat): State
    requires t < |s.ops| && x < |s.subs| && n < |s.nodes|
  {
    var node := s.nodes[n];
    var replay := if node.keepLast && node.last != NilEvent && CanSend(s.subs[x]) then [node.last] else [];
    var sub := if replay == [] then s.subs[x] else Put(s.subs[x], node.last);
    Goto(s.(nodes := s.nodes[n := node.(sinks := node.sinks + [x], lk := None)],
            subs := s.subs[x := sub.(stage := Attached, node := n, regAt := |node.emitted|, replay := replay)]),
         t, Done)
  }

  function AttachEmitter(s: State, t: nat, e: nat, n: nat): State
    requires t < |s.ops| && e < |s.emitters| && n < |s.nodes|
  {
    var node := s.nodes[n];
    var em := s.emitters[e];
    Goto(s.(nodes := s.nodes[n := node.(nEmitters := node.nEmitters + 1, lk := None,
                                        keepLast := node.keepLast || em.stateful)],
            emitters := s.emitters[e := em.(stage := Attached, node := n)]),
         t, Done)
  }

  function BeginEmit(s: State, t: nat, n: nat, ev: Event): State
    requires t < |s.ops| && n < |s.nodes|
  {
    var node := s.nodes[n];
    Goto(s.(nodes := s.nodes[n := node.(lk := Some(t), last := if node.keepLast then ev else node.last,
                                        emitted := node.emitted + [ev])]),
         t, EmitLoop(n, ev, 0))
  }

  /** One iteration of the delivery loop: a non-blocking send that counts a drop when it fails. */
  function SendOne(s: State, t: nat, n: nat, ev: Event, i: nat): State
    requires t < |s.ops| && n < |s.nodes| && i < |s.nodes[n].sinks| && s.nodes[n].sinks[i] < |s.subs|
  {
    var node := s.nodes[n];
    var x := node.sinks[i];
    var sub := s.subs[x];
    var sent := CanSend(sub);
    Goto(s.(subs := s.subs[x := Put(sub, ev).(marks := sub.marks + [sent])],
            nodes := s.nodes[n := node.(dropCount := node.dropCount + if sent then 0 else 1)],
            panicked := s.panicked || sub.chClosed),
         t, EmitLoop(n, ev, i + 1))
  }

  /** sync.Once: the first caller runs the closure, later callers wait for it. The closed flag
      is set as the closure starts. */
  function EnterOnce(s: State, t: nat, c: Cont): State
    requires t < |s.ops| && HasHandle(s, c)
  {
    match OnceOf(s, c)
    case Running(_) => Goto(s, t, OnceWait(c))
    case Ran => Goto(s, t, Done)
    case NotRun =>
      match c
      case CloseSub(x) =>
        Goto(s.(subs := s.subs[x := s.subs[x].(once := Running(t))]), t, RemWantBus(x))
      case CloseEmitter(e) =>
        Goto(s.(emitters := s.emitters[e := s.emitters[e].(once := Running(t), closed := true)]), t, DecRefs(e))
  }

  // removeSub's loop: cut out the first occurrence.
  function Without<T(==)>(sinks: seq<T>, x: T): seq<T> {
    if sinks == [] then [] else if sinks[0] == x then sinks[1..] else [sinks[0]] + Without(sinks[1..], x)
  }

  function DetachSub(s: State, t: nat, x: nat, n: nat): State
    requires t < |s.ops| && x < |s.subs| && n < |s.nodes|
  {
    var node := s.nodes[n];
    var sinks := Without(node.sinks, x);
    var drop := sinks == [] && node.nEmitters == 0;
    Goto(s.(nodes := s.nodes[n := node.(sinks := sinks, lk := None)],
            subs := s.subs[x := s.subs[x].(stage := Detached, endAt := |node.emitted|)]),
         t, if drop then DropWantBus(s.subs[x].typ, CloseSub(x)) else CloseChan(x))
  }

  /** Emitter.Close: the decrement takes no lock. */
  function DetachEmitter(s: State, t: nat, e: nat): State
    requires t < |s.ops| && e < |s.emitters| && s.emitters[e].node < |s.nodes|
  {
    var em := s.emitters[e];
    var left := s.nodes[em.node].nEmitters - 1;
    Goto(s.(nodes := s.nodes[em.node := s.nodes[em.node].(nEmitters := left)],
            emitters := s.emitters[e := em.(stage := Detached)]),
         t, if left == 0 then DropWantBus(em.typ, CloseEmitter(e)) else FinishOnce(e))
  }

  function CloseChannel(s: State, t: nat, x: nat): State
    requires t < |s.ops| && x < |s.subs|
  {
    var sub := s.subs[x];
    Goto(s.(subs := s.subs[x := sub.(chClosed := true, waiting := 0, once := Ran)],
            panicked := s.panicked || sub.chClosed),
         t, Done)
  }

  // ---------------------------------------------------------------- runs

  ghost predicate IsRun(run: seq<State>, acts: seq<Action>) {
    && |run| == |acts| + 1
    && run[0] == Init()
    && forall i :: 0 <= i < |acts| ==> Enabled(run[i], acts[i]) && run[i + 1] == Apply(run[i], acts[i])
  }
}
