/**
 The join gossip of a realm (internal/realm/realm.go): every node that learns of a member adds it
 and announces it twice, in the new and in the old message format, on the member topic, which
 brings each announcement to every other node. Messages arrive in any order and may be lost.
 */
module JoinGossip {

  // ---------------------------------------------------------------- the member topic

  datatype Sync = JoinV2(payload: string) | SyncV2(payload: string) | Leave(payload: string)
                | Join(peer: string) | SyncList(peers: string) | Request | Ignored

  // The switch of processMemberSyncMessage; messages shorter than five bytes are ignored.
  function Classify(data: string): Sync {
    if |data| < 5 then Ignored
    else if "join2:" <= data then JoinV2(data[6..])
    else if "sync2:" <= data then SyncV2(data[6..])
    else if "leave:" <= data then Leave(data[6..])
    else if "join:" <= data then Join(data[5..])
    else if "sync:" <= data then SyncList(data[5..])
    else if data == "req:sync" then Request
    else Ignored
  }

  function Encode(m: Sync): string {
    match m
    case JoinV2(p) => "join2:" + p
    case SyncV2(p) => "sync2:" + p
    case Leave(p) => "leave:" + p
    case Join(p) => "join:" + p
    case SyncList(p) => "sync:" + p
    case Request => "req:sync"
    case Ignored => ""
  }

  // Every kind of message is told apart from the others, whatever it carries.
  lemma ClassifyEncode(m: Sync)
    ensures Classify(Encode(m)) == m
  {
    var d := Encode(m);
    match m
    case JoinV2(p) => assert d[..6] == "join2:" && d[6..] == p;
    case SyncV2(p) => assert d[..6] == "sync2:" && d[6..] == p && d[0] == 's';
    case Leave(p) => assert d[..6] == "leave:" && d[6..] == p && d[0] == 'l';
    case Join(p) => assert d[..5] == "join:" && d[5..] == p && d[4] == ':';
    case SyncList(p) => assert d[..5] == "sync:" && d[5..] == p && d[4] == ':' && d[0] == 's';
    case Request => assert d[0] == 'r';
    case Ignored =>
  }

  // And nothing else is understood.
  lemma EncodeClassify(data: string)
    ensures Classify(data) == Ignored || Encode(Classify(data)) == data
  {
  }

  /** Data is taken for a message exactly when it is that message's encoding. */
  lemma UnderstoodIff(data: string, m: Sync)
    requires m != Ignored
    ensures Classify(data) == m <==> data == Encode(m)
  {
    ClassifyEncode(m);
    EncodeClassify(data);
  }

  // ---------------------------------------------------------------- the network

  // Node i knows members[i]; an announcement of p on its way to node d is the pair (d, p).
  datatype Net = Net(members: seq<set<string>>, inflight: multiset<(nat, string)>)

  datatype Action =
    | Discover(node: nat, peer: string)   // a peer authenticates to the node
    | Deliver(node: nat, peer: string)
    | Drop(node: nat, peer: string)

  // Both announcements of p by node `from`, to the first n nodes but itself.
  function Announced(n: nat, from: nat, p: string): multiset<(nat, string)> {
    if n == 0 then multiset{}
    else Announced(n - 1, from, p) + if n - 1 == from then multiset{} else multiset{(n - 1, p), (n - 1, p)}
  }

  // handleMemberJoinWithAddrs, and the end of onPeerAuthenticated.
  function Learn(s: Net, i: nat, p: string): Net
    requires i < |s.members|
  {
    if p == "" || p in s.members[i] then s
    else Net(s.members[i := s.members[i] + {p}], s.inflight + Announced(|s.members|, i, p))
  }

  predicate Enabled(s: Net, a: Action) {
    && a.node < |s.members|
    && (a.Discover? ==> a.peer != "" && a.peer !in s.members[a.node])
    && (!a.Discover? ==> (a.node, a.peer) in s.inflight)
  }

  function Apply(s: Net, a: Action): Net
    requires Enabled(s, a)
  {
    match a
    case Discover(i, p) => Learn(s, i, p)
    case Deliver(i, p) => Learn(s.(inflight := s.inflight - multiset{(i, p)}), i, p)
    case Drop(i, p) => s.(inflight := s.inflight - multiset{(i, p)})
  }

  ghost predicate IsRun(run: seq<Net>, acts: seq<Action>) {
    && |run| == |acts| + 1
    && forall i :: 0 <= i < |acts| ==> Enabled(run[i], acts[i]) && run[i + 1] == Apply(run[i], acts[i])
  }

  // ---------------------------------------------------------------- quiescence

  // How many (node, member) pairs are known.
  function Known(members: seq<set<string>>): nat {
    if members == [] then 0 else |members[0]| + Known(members[1..])
  }

  lemma {:induction false} KnownUpdate(members: seq<set<string>>, i: nat, p: string)
    requires i < |members| && p !in members[i]
    ensures Known(members[i := members[i] + {p}]) == Known(members) + 1
  {
    if i == 0 {
      assert members[0 := members[0] + {p}][1..] == members[1..];
    } else {
      assert members[i := members[i] + {p}][1..] == members[1..][i - 1 := members[1..][i - 1] + {p}];
      KnownUpdate(members[1..], i - 1, p);
    }
  }

  lemma {:induction false} KnownBound(members: seq<set<string>>, u: set<string>)
    requires forall i :: 0 <= i < |members| ==> members[i] <= u
    ensures Known(members) <= |members| * |u|
  {
    if members != [] {
      SubsetSize(members[0], u);
      KnownBound(members[1..], u);
      assert |members| * |u| == |u| + |members[1..]| * |u|;
    }
  }

  lemma SubsetSize(a: set<string>, b: set<string>)
    requires a <= b
    ensures |a| <= |b|
  {
    assert b == a + (b - a);
  }

  lemma {:induction false} AnnouncedSize(n: nat, from: nat, p: string)
    ensures |Announced(n, from, p)| == 2 * if from < n then n - 1 else n
  {
    if n > 0 { AnnouncedSize(n - 1, from, p); }
  }

  lemma {:induction false} AnnouncedTo(n: nat, from: nat, p: string, m: (nat, string))
    ensures m in Announced(n, from, p) <==> m.0 < n && m.0 != from && m.1 == p
  {
    if n > 0 { AnnouncedTo(n - 1, from, p, m); }
  }

  function Discoveries(acts: seq<Action>, n: nat): nat
    requires n <= |acts|
  {
    if n == 0 then 0 else Discoveries(acts, n - 1) + if acts[n - 1].Discover? then 1 else 0
  }

  // Messages that a network of n nodes sends when `pairs` more pairs become known.
  function Cost(n: nat, pairs: nat): int {
    if pairs == 0 then 0 else Cost(n, pairs - 1) + 2 * (n - 1)
  }

  lemma {:induction false} CostIs(n: nat, pairs: nat)
    ensures Cost(n, pairs) == 2 * (n - 1) * pairs
  {
    if pairs > 0 {
      CostIs(n, pairs - 1);
      assert 2 * (n - 1) * pairs == 2 * (n - 1) * (pairs - 1) + 2 * (n - 1);
    }
  }

  lemma LearnCount(s: Net, i: nat, p: string) returns (learnt: nat)
    requires i < |s.members|
    ensures var t := Learn(s, i, p);
            && |t.members| == |s.members| && Known(t.members) == Known(s.members) + learnt
            && |t.inflight| == |s.inflight| + if learnt > 0 then 2 * (|s.members| - 1) else 0
    ensures learnt == if p != "" && p !in s.members[i] then 1 else 0
  {
    learnt := 0;
    if p != "" && p !in s.members[i] {
      KnownUpdate(s.members, i, p);
      AnnouncedSize(|s.members|, i, p);
      learnt := 1;
    }
  }

  lemma StepCount(s: Net, a: Action) returns (learnt: nat)
    requires Enabled(s, a)
    ensures var t := Apply(s, a);
            && |t.members| == |s.members| && Known(t.members) == Known(s.members) + learnt
            && |t.inflight| + (if a.Discover? then 0 else 1)
               == |s.inflight| + if learnt > 0 then 2 * (|s.members| - 1) else 0
    ensures learnt <= 1 && (a.Discover? ==> learnt == 1)
  {
    match a
    case Discover(i, p) => learnt := LearnCount(s, i, p);
    case Deliver(i, p) => learnt := LearnCount(s.(inflight := s.inflight - multiset{(i, p)}), i, p);
    case Drop(i, p) => learnt := 0;
  }

  /** Exact accounting of the first n steps of a run: the discoveries, plus one step for each message
      that is no longer on its way; and every pair learnt puts a fixed number of messages on theirs. */
  lemma {:induction false} Accounting(run: seq<Net>, acts: seq<Action>, n: nat) returns (learnt: nat)
    requires IsRun(run, acts) && n <= |acts|
    ensures |run[n].members| == |run[0].members|
    ensures Known(run[n].members) == Known(run[0].members) + learnt && Discoveries(acts, n) <= learnt
    ensures n + |run[n].inflight| == Discoveries(acts, n) + |run[0].inflight| + Cost(|run[0].members|, learnt)
  {
    learnt := 0;
    if n > 0 {
      var before := Accounting(run, acts, n - 1);
      assert run[n] == Apply(run[n - 1], acts[n - 1]);
      var more := StepCount(run[n - 1], acts[n - 1]);
      learnt := before + more;
      var nodes, inc := |run[0].members|, if more > 0 then 2 * (|run[0].members| - 1) else 0;
      CostStep(nodes, before, learnt, inc);
      assert |run[n].inflight| + (if acts[n - 1].Discover? then 0 else 1) == |run[n - 1].inflight| + inc;
    }
  }

  lemma CostStep(n: nat, before: nat, after: nat, inc: int)
    requires before <= after <= before + 1 && inc == if after > before then 2 * (n - 1) else 0
    ensures Cost(n, after) == Cost(n, before) + inc
  {
  }

  // Members and announcements all come from the peers u.
  ghost predicate Within(s: Net, u: set<string>) {
    (forall i :: 0 <= i < |s.members| ==> s.members[i] <= u) && (forall m :: m in s.inflight ==> m.1 in u)
  }

  lemma StepWithin(s: Net, a: Action, u: set<string>)
    requires Enabled(s, a) && Within(s, u) && a.peer in u
    ensures Within(Apply(s, a), u)
  {
    forall m | m in Apply(s, a).inflight ensures m.1 in u { AnnouncedTo(|s.members|, a.node, a.peer, m); }
  }

  lemma {:induction false} RunWithin(run: seq<Net>, acts: seq<Action>, u: set<string>, n: nat)
    requires IsRun(run, acts) && Within(run[0], u) && n < |run|
    requires forall i :: 0 <= i < |acts| && acts[i].Discover? ==> acts[i].peer in u
    ensures Within(run[n], u)
  {
    if n > 0 {
      RunWithin(run, acts, u, n - 1);
      StepWithin(run[n - 1], acts[n - 1], u);
    }
  }

  lemma {:induction false} CostGrows(n: nat, a: nat, b: nat)
    requires n > 0 && a <= b
    ensures Cost(n, a) <= Cost(n, b)
    decreases b
  {
    if a < b { CostGrows(n, a, b - 1); }
  }

  /** The gossip quiesces: with finitely many peers every run is finite, whatever is delivered, lost
      or discovered along the way. */
  lemma RunsAreFinite(run: seq<Net>, acts: seq<Action>, u: set<string>)
    requires IsRun(run, acts) && |run[0].members| > 0 && Within(run[0], u)
    requires forall i :: 0 <= i < |acts| && acts[i].Discover? ==> acts[i].peer in u
    ensures var pairs := |run[0].members| * |u|;
            |acts| <= pairs + 2 * (|run[0].members| - 1) * pairs + |run[0].inflight|
  {
    var last := run[|acts|];
    var learnt := Accounting(run, acts, |acts|);
    RunWithin(run, acts, u, |acts|);
    KnownBound(last.members, u);
    CostGrows(|run[0].members|, learnt, |run[0].members| * |u|);
    CostIs(|run[0].members|, |run[0].members| * |u|);
  }

  // ---------------------------------------------------------------- convergence

  // A member that spread from somewhere is known or about to be heard of everywhere.
  ghost predicate Spreading(s: Net, p: string) {
    forall i: nat :: i < |s.members| ==> p in s.members[i] || (i, p) in s.inflight
  }

  lemma StepSpreading(s: Net, a: Action, p: string)
    requires Enabled(s, a) && !a.Drop? && (Spreading(s, p) || a == Discover(a.node, p)) && p != ""
    ensures Spreading(Apply(s, a), p)
  {
    var t := Apply(s, a);
    forall i: nat | i < |s.members| ensures p in t.members[i] || (i, p) in t.inflight {
      AnnouncedTo(|s.members|, a.node, a.peer, (i, p));
      assert Spreading(s, p) ==> p in s.members[i] || (i, p) in s.inflight;
    }
  }

  lemma {:induction false} StaysSpreading(run: seq<Net>, acts: seq<Action>, k: nat, p: string, n: nat)
    requires IsRun(run, acts) && k < n <= |acts| && acts[k] == Discover(acts[k].node, p)
    requires forall i :: 0 <= i < |acts| ==> !acts[i].Drop?
    ensures Spreading(run[n], p)
    decreases n
  {
    if n > k + 1 { StaysSpreading(run, acts, k, p, n - 1); }
    StepSpreading(run[n - 1], acts[n - 1], p);
  }

  /** If no message is lost, a quiet state has every node knowing every member that was discovered. */
  lemma QuietMeansAgreed(run: seq<Net>, acts: seq<Action>, k: nat, i: nat)
    requires IsRun(run, acts) && k < |acts| && acts[k].Discover? && i < |run[0].members|
    requires (forall j :: 0 <= j < |acts| ==> !acts[j].Drop?) && run[|acts|].inflight == multiset{}
    ensures i < |run[|acts|].members| && acts[k].peer in run[|acts|].members[i]
  {
    StaysSpreading(run, acts, k, acts[k].peer, |acts|);
    var learnt := Accounting(run, acts, |acts|);
  }

  // No node knows p or will hear of it.
  ghost predicate Unheard(s: Net, p: string) {
    (forall i :: 0 <= i < |s.members| ==> p !in s.members[i]) && (forall m :: m in s.inflight ==> m.1 != p)
  }

  lemma StepUnheard(s: Net, a: Action, p: string)
    requires Enabled(s, a) && Unheard(s, p) && a != Discover(a.node, p)
    ensures Unheard(Apply(s, a), p)
  {
    if !a.Drop? {
      var t := if a.Discover? then s else s.(inflight := s.inflight - multiset{(a.node, a.peer)});
      LearnUnheard(t, a.node, a.peer, p);
    }
  }

  lemma LearnUnheard(s: Net, i: nat, q: string, p: string)
    requires i < |s.members| && Unheard(s, p) && q != p
    ensures Unheard(Learn(s, i, q), p)
  {
    forall m | m in Learn(s, i, q).inflight ensures m.1 != p { AnnouncedTo(|s.members|, i, q, m); }
  }

  /** Nobody learns of a peer that no node discovered. */
  lemma {:induction false} NoRumours(run: seq<Net>, acts: seq<Action>, p: string, n: nat)
    requires IsRun(run, acts) && n < |run| && Unheard(run[0], p)
    requires forall k :: 0 <= k < |acts| && acts[k].Discover? ==> acts[k].peer != p
    ensures Unheard(run[n], p)
  {
    if n > 0 {
      NoRumours(run, acts, p, n - 1);
      StepUnheard(run[n - 1], acts[n - 1], p);
    }
  }

  /** What an agreement costs: from quiet to quiet every pair learnt takes exactly 2 * (n - 1) messages. */
  lemma CostOfAgreement(run: seq<Net>, acts: seq<Action>) returns (learnt: nat)
    requires IsRun(run, acts) && run[0].inflight == multiset{} && run[|acts|].inflight == multiset{}
    ensures Known(run[|acts|].members) == Known(run[0].members) + learnt
    ensures |acts| - Discoveries(acts, |acts|) == 2 * (|run[0].members| - 1) * learnt
  {
    learnt := Accounting(run, acts, |acts|);
    CostIs(|run[0].members|, learnt);
  }
}
