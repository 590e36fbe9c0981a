/**
 Delivery accounting on the event bus: what every subscription received, still holds and lost,
 in terms of the events emitted on its node.
 */
module EventBusDelivery {
  import opened Common
  import opened Wrappers
  import opened EventBus
  import opened EventBusInvariant
  import opened EventBusSteps

  // The delivery loop in progress on x's node has not reached x yet.
  ghost predicate Awaits(s: State, x: nat)
    requires x < |s.subs|
  {
    var n := s.subs[x].node;
    && n < |s.nodes| && s.nodes[n].lk.Some? && s.nodes[n].lk.value < |s.ops|
    && var pc := s.ops[s.nodes[n].lk.value];
    && pc.EmitLoop? && pc.n == n && pc.i <= |s.nodes[n].sinks| && x in s.nodes[n].sinks[pc.i..]
  }

  // The events offered to subscription b so far: those emitted from its registration on.
  function Offered(s: State, b: Sub): seq<Event>
    requires b.node < |s.nodes| && b.regAt + |b.marks| <= |s.nodes[b.node].emitted|
  {
    s.nodes[b.node].emitted[b.regAt..b.regAt + |b.marks|]
  }

  ghost predicate LogOk(s: State, x: nat)
    requires x < |s.subs|
  {
    var b := s.subs[x];
    if b.stage.Creating? then
      b.buf == [] && b.waiting == 0 && b.consumed == [] && b.marks == [] && b.replay == [] && b.node == 0
    else
      && b.node < |s.nodes|
      && b.regAt + |b.marks| <= |s.nodes[b.node].emitted|
      && (b.stage.Attached? ==>
            b.regAt + |b.marks| + (if Awaits(s, x) then 1 else 0) == |s.nodes[b.node].emitted|)
      && (b.stage.Detached? ==> b.regAt + |b.marks| == b.endAt)
      && b.consumed + b.buf == b.replay + Select(Offered(s, b), b.marks)
      && (b.waiting > 0 ==> b.buf == [])
      && |b.buf| <= b.cap
      && (b.replay != [] ==> b.regAt > 0 && b.replay == [s.nodes[b.node].emitted[b.regAt - 1]])
  }

  ghost predicate NodeLogOk(s: State, n: nat)
    requires n < |s.nodes|
  {
    var node := s.nodes[n];
    && (node.last != NilEvent ==> node.keepLast && node.emitted != [] && node.last == node.emitted[|node.emitted| - 1])
    && node.dropCount == SumDrops(s.subs, n)
  }

  ghost predicate Logs(s: State) {
    && (forall x :: 0 <= x < |s.subs| ==> LogOk(s, x))
    && (forall n :: 0 <= n < |s.nodes| ==> NodeLogOk(s, n))
  }

  // ---------------------------------------------------------------- sums and selections

  lemma {:induction false} SumDropsUpdate(subs: seq<Sub>, x: nat, b: Sub, n: nat)
    requires x < |subs| && b.node == subs[x].node
    ensures SumDrops(subs[x := b], n) ==
            SumDrops(subs, n) + (if b.node == n then Falses(b.marks) - Falses(subs[x].marks) else 0)
  {
    var k := |subs| - 1;
    if x == k {
      assert subs[x := b][..k] == subs[..k];
    } else {
      assert subs[x := b][..k] == subs[..k][x := b];
      SumDropsUpdate(subs[..k], x, b, n);
    }
  }

  // Attaching a subscription that has no marks yet moves nothing between nodes.
  lemma {:induction false} SumDropsSame(a: seq<Sub>, b: seq<Sub>, n: nat)
    requires |a| == |b|
    requires forall x :: 0 <= x < |a| ==> a[x].marks == b[x].marks && (a[x].node == b[x].node || a[x].marks == [])
    ensures SumDrops(a, n) == SumDrops(b, n)
  {
    if a != [] { SumDropsSame(a[..|a| - 1], b[..|b| - 1], n); }
  }

  lemma SumDropsAppend(subs: seq<Sub>, b: Sub, n: nat)
    requires b.marks == []
    ensures SumDrops(subs + [b], n) == SumDrops(subs, n)
  {
    assert (subs + [b])[..|subs|] == subs;
  }

  lemma {:induction false} SumDropsZero(subs: seq<Sub>, n: nat)
    requires forall x :: 0 <= x < |subs| ==> subs[x].node != n || subs[x].marks == []
    ensures SumDrops(subs, n) == 0
  {
    if subs != [] { SumDropsZero(subs[..|subs| - 1], n); }
  }

  lemma SelectSnoc(evs: seq<Event>, marks: seq<bool>, ev: Event, m: bool)
    requires |evs| == |marks|
    ensures Select(evs + [ev], marks + [m]) == Select(evs, marks) + (if m then [ev] else [])
    ensures Falses(marks + [m]) == Falses(marks) + if m then 0 else 1
  {
    assert (evs + [ev])[..|evs|] == evs && (marks + [m])[..|marks|] == marks;
  }

  // ---------------------------------------------------------------- steps that deliver nothing

  ghost predicate SameLog(a: Sub, b: Sub) {
    && b == a.(waiting := b.waiting, chClosed := b.chClosed, once := b.once, stage := b.stage, endAt := b.endAt)
    && b.waiting <= a.waiting
    && ((b.stage == a.stage && b.endAt == a.endAt) || (a.stage.Attached? && b.stage.Detached?))
  }

  // A subscription leaves its node between two deliveries.
  ghost predicate LeavesBetween(s: State, s': State, x: nat)
    requires x < |s.subs| && x < |s'.subs|
  {
    s'.subs[x].stage != s.subs[x].stage ==>
      s.subs[x].node < |s.nodes| && s'.subs[x].endAt == |s.nodes[s.subs[x].node].emitted| && !Awaits(s, x)
  }

  ghost predicate QuietNode(s: State, s': State, t: nat, n: nat)
    requires n < |s.nodes| && n < |s'.nodes|
  {
    var a, b := s.nodes[n], s'.nodes[n];
    && b.emitted == a.emitted && b.last == a.last && b.dropCount == a.dropCount
    && (a.keepLast ==> b.keepLast)
    && (b.lk == a.lk || ((a.lk == None || a.lk == Some(t)) && (b.lk == None || b.lk == Some(t))))
    && (b.sinks != a.sinks ==> a.lk == Some(t))
  }

  ghost predicate Quiet(s: State, s': State, t: nat) {
    && |s.nodes| <= |s'.nodes| && |s.subs| == |s'.subs|
    && (forall n :: 0 <= n < |s.nodes| ==> QuietNode(s, s', t, n))
    && (forall n :: |s.nodes| <= n < |s'.nodes| ==>
          s'.nodes[n].emitted == [] && s'.nodes[n].last == NilEvent && s'.nodes[n].dropCount == 0)
    && (forall x :: 0 <= x < |s.subs| ==> SameLog(s.subs[x], s'.subs[x]) && LeavesBetween(s, s', x))
    && |s.ops| <= |s'.ops| && (forall u :: 0 <= u < |s.ops| && u != t ==> s'.ops[u] == s.ops[u])
    && (t < |s.ops| && s.ops[t].EmitLoop? ==>
          s.ops[t].n < |s.nodes| && s.ops[t].i >= |s.nodes[s.ops[t].n].sinks|)
    && (t < |s'.ops| ==> !s'.ops[t].EmitLoop?)
  }

  lemma QuietKeeps(s: State, s': State, t: nat)
    requires Structure(s) && Logs(s) && Quiet(s, s', t)
    ensures Logs(s')
  {
    forall x | 0 <= x < |s'.subs| ensures LogOk(s', x) { QuietLog(s, s', t, x); }
    forall n | 0 <= n < |s'.nodes| ensures NodeLogOk(s', n) {
      if n < |s.nodes| {
        assert NodeLogOk(s, n) && QuietNode(s, s', t, n);
        SumDropsSame(s.subs, s'.subs, n);
      } else {
        forall x | 0 <= x < |s'.subs| ensures s'.subs[x].node != n || s'.subs[x].marks == [] {
          assert LogOk(s, x) && SameLog(s.subs[x], s'.subs[x]);
        }
        SumDropsZero(s'.subs, n);
      }
    }
  }

  lemma QuietLog(s: State, s': State, t: nat, x: nat)
    requires Structure(s) && Quiet(s, s', t) && x < |s.subs| && LogOk(s, x)
    ensures LogOk(s', x)
  {
    assert SubOk(s, x) && SameLog(s.subs[x], s'.subs[x]) && LeavesBetween(s, s', x);
    var n := s.subs[x].node;
    if !s.subs[x].stage.Creating? { assert QuietNode(s, s', t, n); }
    if s.subs[x].stage.Attached? {
      assert NodeOk(s, n);
      assert Awaits(s, x) == Awaits(s', x);
    }
  }

  // ---------------------------------------------------------------- steps that move events

  lemma ChannelLogs(s: State, x: nat, b: Sub)
    requires Structure(s) && Logs(s) && x < |s.subs| && !s.subs[x].stage.Creating?
    requires b == Recv(s.subs[x]) || (s.subs[x].waiting > 0 && b == s.subs[x].(waiting := s.subs[x].waiting - 1))
    ensures Logs(s.(subs := s.subs[x := b]))
  {
    var s' := s.(subs := s.subs[x := b]);
    forall y | 0 <= y < |s'.subs| ensures LogOk(s', y) {
      assert LogOk(s, y);
      ChannelLog(s, x, b, y);
    }
    forall n | 0 <= n < |s'.nodes| ensures NodeLogOk(s', n) {
      assert NodeLogOk(s, n);
      SumDropsSame(s.subs, s'.subs, n);
    }
  }

  lemma ChannelLog(s: State, x: nat, b: Sub, y: nat)
    requires x < |s.subs| && y < |s.subs| && LogOk(s, y) && !s.subs[x].stage.Creating?
    requires b == Recv(s.subs[x]) || (s.subs[x].waiting > 0 && b == s.subs[x].(waiting := s.subs[x].waiting - 1))
    ensures LogOk(s.(subs := s.subs[x := b]), y)
  {
    var s' := s.(subs := s.subs[x := b]);
    assert Awaits(s', y) == Awaits(s, y);
    if y == x && b != s.subs[x] && s.subs[x].buf != [] {
      var a := s.subs[x];
      assert a.buf == [a.buf[0]] + a.buf[1..];
      assert (a.consumed + [a.buf[0]]) + a.buf[1..] == a.consumed + a.buf;
    }
  }

  lemma StartLogs(s: State, s': State)
    requires Structure(s) && Logs(s) && Structure(s')
    requires s'.nodes == s.nodes && s.subs <= s'.subs && s.ops <= s'.ops
    requires forall x :: |s.subs| <= x < |s'.subs| ==> LogOk(s', x)
    requires forall n :: 0 <= n < |s.nodes| ==> SumDrops(s'.subs, n) == SumDrops(s.subs, n)
    ensures Logs(s')
  {
    forall x | 0 <= x < |s'.subs| ensures LogOk(s', x) {
      if x < |s.subs| {
        assert LogOk(s, x) && SubOk(s, x);
        if s.subs[x].stage.Attached? { assert NodeOk(s, s.subs[x].node); }
        assert s.subs[x].stage.Attached? ==> Awaits(s', x) == Awaits(s, x);
      }
    }
    forall n | 0 <= n < |s'.nodes| ensures NodeLogOk(s', n) { assert NodeLogOk(s, n); }
  }

  // A send keeps the order of what the channel delivered and holds.
  lemma PutContents(b: Sub, ev: Event)
    requires (b.waiting > 0 ==> b.buf == []) && |b.buf| <= b.cap
    ensures var c := Put(b, ev);
            && c == b.(buf := c.buf, waiting := c.waiting, consumed := c.consumed)
            && c.consumed + c.buf == b.consumed + b.buf + (if CanSend(b) then [ev] else [])
            && (c.waiting > 0 ==> c.buf == []) && |c.buf| <= c.cap
  {
  }

  lemma AttachSubLogs(s: State, t: nat, x: nat, n: nat)
    requires Structure(s) && Logs(s) && At(s, t) && s.ops[t] == HasNode(SubTask(x), n)
    ensures Logs(AttachSub(s, t, x, n))
  {
    assert OpOk(s, t) && LogOk(s, x) && NodeLogOk(s, n);
    AttachedLog(s, t, x, n);
    forall y | 0 <= y < |s.subs| ensures LogOk(AttachSub(s, t, x, n), y) {
      if y != x { NotAttachedLog(s, AttachSub(s, t, x, n), t, x, n, y); }
    }
    forall m | 0 <= m < |s.nodes| ensures NodeLogOk(AttachSub(s, t, x, n), m) {
      AttachedNode(s, t, x, n, m);
    }
  }

  lemma NotAttachedLog(s: State, s': State, t: nat, x: nat, n: nat, y: nat)
    requires Structure(s) && Logs(s) && At(s, t) && s.ops[t] == HasNode(SubTask(x), n)
    requires s' == AttachSub(s, t, x, n) && y < |s.subs| && y != x
    ensures LogOk(s', y)
  {
    assert OpOk(s, t) && LogOk(s, y);
    if s.subs[y].stage.Attached? { AwaitsSame(s, s', t, y); }
    OtherLog(s, s', y);
  }

  lemma AttachedNode(s: State, t: nat, x: nat, n: nat, m: nat)
    requires t < |s.ops| && x < |s.subs| && n < |s.nodes| && s.subs[x].marks == []
    requires m < |s.nodes| && NodeLogOk(s, m)
    ensures NodeLogOk(AttachSub(s, t, x, n), m)
  {
    AttachedDrops(s, t, x, n, m);
  }

  lemma AttachedDrops(s: State, t: nat, x: nat, n: nat, m: nat)
    requires t < |s.ops| && x < |s.subs| && n < |s.nodes| && s.subs[x].marks == []
    ensures SumDrops(AttachSub(s, t, x, n).subs, m) == SumDrops(s.subs, m)
  {
    SumDropsSame(s.subs, AttachSub(s, t, x, n).subs, m);
  }

  lemma AttachedLog(s: State, t: nat, x: nat, n: nat)
    requires t < |s.ops| && x < |s.subs| && n < |s.nodes| && s.ops[t] == HasNode(SubTask(x), n)
    requires s.subs[x].stage.Creating? && LogOk(s, x) && NodeLogOk(s, n)
    ensures LogOk(AttachSub(s, t, x, n), x)
    ensures s.subs[x].marks == []
  {
    var s' := AttachSub(s, t, x, n);
    PutContents(s.subs[x], s.nodes[n].last);
    assert Offered(s', s'.subs[x]) == [];
    assert !Awaits(s', x);
  }

  // An untouched subscription whose node emitted nothing and whose turn did not change.
  lemma OtherLog(s: State, s': State, y: nat)
    requires y < |s.subs| && y < |s'.subs| && LogOk(s, y) && s'.subs[y] == s.subs[y]
    requires |s.nodes| <= |s'.nodes|
    requires forall n :: 0 <= n < |s.nodes| ==> s'.nodes[n].emitted == s.nodes[n].emitted
    requires s.subs[y].stage.Attached? ==> Awaits(s', y) == Awaits(s, y)
    ensures LogOk(s', y)
  {
    if !s.subs[y].stage.Creating? { assert Offered(s', s.subs[y]) == Offered(s, s.subs[y]); }
  }

  // A step of t that does not move a delivery loop changes nobody's turn.
  lemma AwaitsSame(s: State, s': State, t: nat, y: nat)
    requires Structure(s) && t < |s.ops| && |s'.ops| == |s.ops| && s'.ops == s.ops[t := s'.ops[t]]
    requires !s.ops[t].EmitLoop? && !s'.ops[t].EmitLoop?
    requires y < |s.subs| && y < |s'.subs| && s.subs[y].stage == Attached && s'.subs[y].node == s.subs[y].node
    requires |s.nodes| <= |s'.nodes|
    requires forall n :: 0 <= n < |s.nodes| ==>
               || (s'.nodes[n].lk == s.nodes[n].lk && s'.nodes[n].sinks == s.nodes[n].sinks)
               || ((s.nodes[n].lk == None || s.nodes[n].lk == Some(t))
                   && (s'.nodes[n].lk == None || s'.nodes[n].lk == Some(t)))
    ensures Awaits(s', y) == Awaits(s, y)
  {
    assert SubOk(s, y) && NodeOk(s, s.subs[y].node);
  }

  // The emit begins: one more event, and every sink awaits it.
  lemma BeginEmitLogs(s: State, t: nat, n: nat, ev: Event)
    requires Structure(s) && Logs(s) && At(s, t) && s.ops[t] == EmitWait(n, ev)
    ensures Logs(BeginEmit(s, t, n, ev))
  {
    var s' := BeginEmit(s, t, n, ev);
    assert OpOk(s, t) && NodeLogOk(s, n);
    forall y | 0 <= y < |s'.subs| ensures LogOk(s', y) {
      assert LogOk(s, y) && SubOk(s, y);
      var b := s.subs[y];
      if !b.stage.Creating? {
        assert Offered(s', b) == Offered(s, b);
        if b.stage.Attached? {
          assert NodeOk(s, b.node);
          if b.node == n { assert !Awaits(s, y) && Awaits(s', y); } else { assert Awaits(s', y) == Awaits(s, y); }
        }
      }
    }
    forall m | 0 <= m < |s'.nodes| ensures NodeLogOk(s', m) { assert NodeLogOk(s, m); }
  }

  // One iteration of the loop accounts for the event at sinks[i], once.
  lemma SendOneLogs(s: State, t: nat, n: nat, ev: Event, i: nat)
    requires Structure(s) && Logs(s) && At(s, t) && s.ops[t] == EmitLoop(n, ev, i) && i < |s.nodes[n].sinks|
    ensures Logs(SendOne(s, t, n, ev, i))
  {
    var s' := SendOne(s, t, n, ev, i);
    var x := s.nodes[n].sinks[i];
    SentTurn(s, s', t, n, ev, i);
    assert OpOk(s, t) && LogOk(s, x);
    SentLog(s, t, n, ev, i);
    forall y | 0 <= y < |s'.subs| && y != x ensures LogOk(s', y) { NotSentLog(s, s', t, n, ev, i, y); }
    forall m | 0 <= m < |s'.nodes| ensures NodeLogOk(s', m) {
      assert NodeLogOk(s, m);
      SentDrops(s, t, n, ev, i, m);
    }
  }

  lemma SentDrops(s: State, t: nat, n: nat, ev: Event, i: nat, m: nat)
    requires t < |s.ops| && n < |s.nodes| && i < |s.nodes[n].sinks| && s.nodes[n].sinks[i] < |s.subs|
    requires s.subs[s.nodes[n].sinks[i]].node == n && m < |s.nodes| && NodeLogOk(s, m)
    ensures NodeLogOk(SendOne(s, t, n, ev, i), m)
  {
    var s' := SendOne(s, t, n, ev, i);
    var x := s.nodes[n].sinks[i];
    SumDropsUpdate(s.subs, x, s'.subs[x], m);
    SelectSnoc(seq(|s.subs[x].marks|, _ => ev), s.subs[x].marks, ev, CanSend(s.subs[x]));
  }

  lemma NotSentLog(s: State, s': State, t: nat, n: nat, ev: Event, i: nat, y: nat)
    requires Structure(s) && Logs(s) && At(s, t) && s.ops[t] == EmitLoop(n, ev, i) && i < |s.nodes[n].sinks|
    requires s' == SendOne(s, t, n, ev, i) && y < |s.subs| && y != s.nodes[n].sinks[i]
    ensures LogOk(s', y)
  {
    assert LogOk(s, y);
    if s.subs[y].stage.Attached? { NotSentTurn(s, s', t, n, ev, i, y); }
    OtherLog(s, s', y);
  }

  lemma NotSentTurn(s: State, s': State, t: nat, n: nat, ev: Event, i: nat, y: nat)
    requires Structure(s) && At(s, t) && s.ops[t] == EmitLoop(n, ev, i) && i < |s.nodes[n].sinks|
    requires s' == SendOne(s, t, n, ev, i) && y < |s.subs| && y != s.nodes[n].sinks[i] && s.subs[y].stage.Attached?
    ensures Awaits(s', y) == Awaits(s, y)
  {
    assert OpOk(s, t) && SubOk(s, y) && NodeOk(s, s.subs[y].node);
    assert s.nodes[n].sinks[i..] == [s.nodes[n].sinks[i]] + s.nodes[n].sinks[i + 1..];
  }

  lemma SentLog(s: State, t: nat, n: nat, ev: Event, i: nat)
    requires t < |s.ops| && n < |s.nodes| && i < |s.nodes[n].sinks| && s.nodes[n].sinks[i] < |s.subs|
    requires LogOk(s, s.nodes[n].sinks[i]) && Awaits(s, s.nodes[n].sinks[i])
    requires s.subs[s.nodes[n].sinks[i]].stage == Attached && s.subs[s.nodes[n].sinks[i]].node == n
    requires s.nodes[n].emitted != [] && s.nodes[n].emitted[|s.nodes[n].emitted| - 1] == ev
    requires !Awaits(SendOne(s, t, n, ev, i), s.nodes[n].sinks[i])
    ensures LogOk(SendOne(s, t, n, ev, i), s.nodes[n].sinks[i])
  {
    var b := s.subs[s.nodes[n].sinks[i]];
    PutContents(b, ev);
    SentOffered(s, t, n, ev, i);
    SelectSnoc(Offered(s, b), b.marks, ev, CanSend(b));
  }

  lemma SentOffered(s: State, t: nat, n: nat, ev: Event, i: nat)
    requires t < |s.ops| && n < |s.nodes| && i < |s.nodes[n].sinks| && s.nodes[n].sinks[i] < |s.subs|
    requires var b := s.subs[s.nodes[n].sinks[i]];
             && b.node == n && b.regAt + |b.marks| + 1 == |s.nodes[n].emitted|
             && s.nodes[n].emitted[|s.nodes[n].emitted| - 1] == ev
    ensures var s', b := SendOne(s, t, n, ev, i), s.subs[s.nodes[n].sinks[i]];
            var b' := s'.subs[s.nodes[n].sinks[i]];
            && b' == Put(b, ev).(marks := b.marks + [CanSend(b)])
            && b'.node == n && n < |s'.nodes| && s'.nodes[n].emitted == s.nodes[n].emitted && b'.regAt == b.regAt
            && Offered(s', b') == Offered(s, b) + [ev]
  {
  }

  lemma SentTurn(s: State, s': State, t: nat, n: nat, ev: Event, i: nat)
    requires Structure(s) && At(s, t) && s.ops[t] == EmitLoop(n, ev, i) && i < |s.nodes[n].sinks|
    requires s' == SendOne(s, t, n, ev, i)
    ensures var x := s.nodes[n].sinks[i];
            x < |s.subs| && s.subs[x].stage == Attached && s.subs[x].node == n && Awaits(s, x) && !Awaits(s', x)
  {
    var x := s.nodes[n].sinks[i];
    assert OpOk(s, t) && NodeOk(s, n) && x in s.nodes[n].sinks;
    assert s.nodes[n].sinks[i..][0] == x;
  }


  // ---------------------------------------------------------------- every action

  // The other steps of an operation deliver nothing: those that only move the control ...
  lemma ControlQuiet(s: State, t: nat)
    requires Structure(s) && At(s, t)
    requires s.ops[t].RemWantBus? || s.ops[t].DropWantBus? || s.ops[t].DropHasBus? || s.ops[t].DropDelete?
             || s.ops[t].EmitCheck? || s.ops[t].OnceWait? || s.ops[t].FinishOnce?
    ensures Quiet(s, Advance(s, t), t)
  {
    assert OpOk(s, t);
  }

  // ... those that create or lock a node ...
  lemma LockQuiet(s: State, t: nat)
    requires Structure(s) && At(s, t)
    requires s.ops[t].WantBus? || s.ops[t].HasBus? || s.ops[t].RemHasBus?
    ensures Quiet(s, Advance(s, t), t)
  {
    assert OpOk(s, t);
  }

  // ... and those that change a node, a subscription or an emitter.
  lemma HandleQuiet(s: State, t: nat)
    requires Structure(s) && At(s, t)
    requires (s.ops[t].HasNode? && s.ops[t].task.EmitterTask?) || s.ops[t].DecRefs? || s.ops[t].CloseCall?
             || s.ops[t].CloseChan?
    ensures Quiet(s, Advance(s, t), t)
  {
    assert OpOk(s, t);
  }

  lemma DetachQuiet(s: State, t: nat, x: nat, n: nat)
    requires Structure(s) && At(s, t) && s.ops[t] == RemHasNode(x, n)
    ensures Quiet(s, DetachSub(s, t, x, n), t)
  {
    assert OpOk(s, t) && SubOk(s, x);
    assert x < |s.subs| && s.subs[x].node == n && s.nodes[n].lk == Some(t);
    assert LeavesBetween(s, DetachSub(s, t, x, n), x);
  }

  lemma EndQuiet(s: State, t: nat, n: nat, ev: Event, i: nat)
    requires Structure(s) && At(s, t) && s.ops[t] == EmitLoop(n, ev, i) && i >= |s.nodes[n].sinks|
    ensures Quiet(s, Goto(Unlock(s, n), t, Done), t)
  {
    assert OpOk(s, t);
  }

  lemma ApplyLogs(s: State, a: Action)
    requires Structure(s) && Logs(s) && Enabled(s, a)
    ensures Logs(Apply(s, a))
  {
    ApplyKeeps(s, a);
    match a
    case StartSubscribe(typ, cap) =>
      forall n ensures SumDrops(Apply(s, a).subs, n) == SumDrops(s.subs, n) {
        SumDropsAppend(s.subs, Apply(s, a).subs[|s.subs|], n);
      }
      StartLogs(s, Apply(s, a));
    case StartEmitter(_, _) => StartLogs(s, Apply(s, a));
    case StartEmit(_, _) => StartLogs(s, Apply(s, a));
    case StartClose(_) => StartLogs(s, Apply(s, a));
    case Receive(x) => ChannelLogs(s, x, Recv(s.subs[x]));
    case Abandon(x) => ChannelLogs(s, x, s.subs[x].(waiting := s.subs[x].waiting - 1));
    case Step(t) => AdvanceLogs(s, t);
  }

  // The steps that move no event.
  ghost predicate Delivers(s: State, t: nat)
    requires At(s, t)
  {
    var pc := s.ops[t];
    (pc.HasNode? && pc.task.SubTask?) || pc.EmitWait? || (pc.EmitLoop? && pc.i < |s.nodes[pc.n].sinks|)
  }

  lemma AdvanceQuiet(s: State, t: nat)
    requires Structure(s) && Logs(s) && At(s, t) && !Delivers(s, t)
    ensures Quiet(s, Advance(s, t), t)
  {
    match s.ops[t]
    case HasNode(_, _) => HandleQuiet(s, t);
    case EmitLoop(n, ev, i) => EndQuiet(s, t, n, ev, i);
    case WantBus(_) => LockQuiet(s, t);
    case HasBus(_, _) => LockQuiet(s, t);
    case RemHasBus(_, _) => LockQuiet(s, t);
    case RemHasNode(x, n) => DetachQuiet(s, t, x, n);
    case DecRefs(_) => HandleQuiet(s, t);
    case CloseCall(_) => HandleQuiet(s, t);
    case CloseChan(_) => HandleQuiet(s, t);
    case _ => ControlQuiet(s, t);
  }

  lemma AdvanceLogs(s: State, t: nat)
    requires Structure(s) && Logs(s) && At(s, t)
    ensures Logs(Advance(s, t))
  {
    if !Delivers(s, t) {
      AdvanceQuiet(s, t);
      QuietKeeps(s, Advance(s, t), t);
    } else {
      match s.ops[t]
      case HasNode(SubTask(x), n) => AttachSubLogs(s, t, x, n);
      case EmitWait(n, ev) => BeginEmitLogs(s, t, n, ev);
      case EmitLoop(n, ev, i) => SendOneLogs(s, t, n, ev, i);
    }
  }

  lemma {:induction false} RunLogs(run: seq<State>, acts: seq<Action>, i: nat)
    requires IsRun(run, acts) && i < |run|
    ensures Structure(run[i]) && Logs(run[i])
  {
    if i > 0 {
      RunLogs(run, acts, i - 1);
      ApplyKeeps(run[i - 1], acts[i - 1]);
      ApplyLogs(run[i - 1], acts[i - 1]);
    }
  }
}
