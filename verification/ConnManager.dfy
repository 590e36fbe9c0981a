/**
 The connection manager (internal/core/connmgr/manager.go, trim.go, protect.go, tags.go): its
 protection and tag stores, the score that trimming ranks by, and the trim itself.
 */
module ConnManager {
  import opened Common
  import opened TrimPlan

  // ---------------------------------------------------------------- protections

  datatype Call = Protected(peer: string, tag: string) | Unprotected(peer: string, tag: string)

  // The tag was put on the peer and not taken off since.
  ghost predicate Standing(calls: seq<Call>, peer: string, tag: string) {
    exists k :: 0 <= k < |calls| && calls[k] == Protected(peer, tag) && NotAfter(calls, k, Unprotected(peer, tag))
  }

  ghost predicate NotAfter(calls: seq<Call>, k: int, c: Call) {
    forall j :: k < j < |calls| && 0 <= j ==> calls[j] != c
  }

  lemma StandingMore(calls: seq<Call>, c: Call, peer: string, tag: string)
    ensures Standing(calls + [c], peer, tag) <==>
            c == Protected(peer, tag) || (Standing(calls, peer, tag) && c != Unprotected(peer, tag))
  {
    var more := calls + [c];
    if c == Protected(peer, tag) {
      assert more[|calls|] == c && NotAfter(more, |calls|, Unprotected(peer, tag));
    } else if Standing(calls, peer, tag) && c != Unprotected(peer, tag) {
      var k :| 0 <= k < |calls| && calls[k] == Protected(peer, tag) && NotAfter(calls, k, Unprotected(peer, tag));
      assert more[k] == calls[k] && NotAfter(more, k, Unprotected(peer, tag));
    }
    if Standing(more, peer, tag) && c != Protected(peer, tag) { StandingLess(calls, c, peer, tag); }
  }

  lemma StandingLess(calls: seq<Call>, c: Call, peer: string, tag: string)
    requires Standing(calls + [c], peer, tag) && c != Protected(peer, tag)
    ensures Standing(calls, peer, tag) && c != Unprotected(peer, tag)
  {
    var more := calls + [c];
    var k :| 0 <= k < |more| && more[k] == Protected(peer, tag) && NotAfter(more, k, Unprotected(peer, tag));
    assert k < |calls| && more[|calls|] == c && calls[k] == more[k];
    assert forall j :: k < j < |calls| ==> more[j] == calls[j];
  }

  class ProtectStore {
    var protects: map<string, set<string>>
    ghost var calls: seq<Call>                 // every call so far

    constructor ()
      ensures Valid() && protects == map[] && calls == []
    {
      protects := map[];
      calls := [];
    }

    // A peer without protections has no entry, and the tags are those standing.
    ghost predicate Valid()
      reads this
    {
      && (forall p :: p in protects ==> protects[p] != {})
      && forall p, tag :: tag in Of(p) <==> Standing(calls, p, tag)
    }

    // The protections of a peer.
    function Of(peer: string): set<string>
      reads this
    {
      if peer in protects then protects[peer] else {}
    }

    predicate HasAnyProtection(peer: string): (any: bool)
      reads this
      ensures any <==> exists tag :: tag in Of(peer)
    {
      assert |Of(peer)| > 0 <==> Of(peer) != {};
      |Of(peer)| > 0
    }

    method Protect(peer: string, tag: string)
      requires Valid()
      modifies this
      ensures Valid() && Of(peer) == old(Of(peer)) + {tag} && calls == old(calls) + [Protected(peer, tag)]
      ensures forall q :: q != peer ==> Of(q) == old(Of(q))
    {
      if peer !in protects { protects := protects[peer := {}]; }
      protects := protects[peer := protects[peer] + {tag}];
      Called(Protected(peer, tag));
    }

    ghost method Called(c: Call)
      requires forall p :: p in protects ==> protects[p] != {}
      requires forall p, tag :: tag in Of(p) <==>
                 c == Protected(p, tag) || (Standing(calls, p, tag) && c != Unprotected(p, tag))
      modifies this`calls
      ensures Valid() && calls == old(calls) + [c]
    {
      forall p, tag ensures Standing(calls + [c], p, tag) <==> tag in Of(p) { StandingMore(calls, c, p, tag); }
      calls := calls + [c];
    }

    // Reports whether the peer keeps other protections.
    method Unprotect(peer: string, tag: string) returns (remains: bool)
      requires Valid()
      modifies this
      ensures Valid() && Of(peer) == old(Of(peer)) - {tag} && calls == old(calls) + [Unprotected(peer, tag)]
      ensures remains <==> old(Of(peer)) - {tag} != {}
      ensures forall q :: q != peer ==> Of(q) == old(Of(q))
    {
      remains := Remove(peer, tag);
      Called(Unprotected(peer, tag));
    }

    method Remove(peer: string, tag: string) returns (remains: bool)
      requires forall p :: p in protects ==> protects[p] != {}
      modifies this`protects
      ensures forall p :: p in protects ==> protects[p] != {}
      ensures Of(peer) == old(Of(peer)) - {tag} && (remains <==> old(Of(peer)) - {tag} != {})
      ensures forall q :: q != peer ==> Of(q) == old(Of(q))
    {
      if peer !in protects { return false; }
      protects := protects[peer := protects[peer] - {tag}];
      if |protects[peer]| == 0 {
        protects := protects - {peer};
        return false;
      }
      return true;
    }
  }

  // ---------------------------------------------------------------- tags

  /** The sum of all weights. */
  ghost function Total(m: map<string, int>): int
    decreases |m.Keys|
  {
    if m.Keys == {} then 0
    else
      var k :| k in m.Keys;
      assert (m - {k}).Keys == m.Keys - {k};
      m[k] + Total(m - {k})
  }

  /** The sum does not depend on the order of the iteration. */
  lemma {:induction false} TotalRemove(m: map<string, int>, k: string)
    requires k in m
    ensures Total(m) == m[k] + Total(m - {k})
    decreases |m.Keys|
  {
    var j :| j in m.Keys && Total(m) == m[j] + Total(m - {j});
    assert (m - {k}).Keys == m.Keys - {k} && (m - {j}).Keys == m.Keys - {j};
    if j != k {
      TotalRemove(m - {j}, k);
      TotalRemove(m - {k}, j);
      assert m - {j} - {k} == m - {k} - {j};
    }
  }

  lemma TotalUpdate(m: map<string, int>, k: string, v: int)
    ensures Total(m[k := v]) == Total(m - {k}) + v
    ensures Total(m) == Total(m - {k}) + if k in m then m[k] else 0
  {
    TotalRemove(m[k := v], k);
    assert m[k := v] - {k} == m - {k};
    if k in m {
      TotalRemove(m, k);
    } else {
      assert m - {k} == m;
    }
  }

  /** What setting and deleting a tag does to the sum. */
  lemma TotalChange(m: map<string, int>, k: string, v: int)
    ensures Total(m[k := v]) == Total(m) - (if k in m then m[k] else 0) + v
    ensures Total(m - {k}) == Total(m) - if k in m then m[k] else 0
  {
    TotalUpdate(m, k, v);
  }

  class TagStore {
    var tags: map<string, map<string, int>>
    var firstSeen: map<string, int>

    constructor ()
      ensures Valid() && tags == map[]
    {
      tags, firstSeen := map[], map[];
    }

    // Peers with tags are the ones with a first-seen time.
    ghost predicate Valid()
      reads this
    {
      tags.Keys == firstSeen.Keys && forall p :: p in tags ==> tags[p].Keys != {}
    }

    function Of(peer: string): map<string, int>
      reads this
    {
      if peer in tags then tags[peer] else map[]
    }

    function Get(peer: string, tag: string): int
      reads this
    {
      if tag in Of(peer) then Of(peer)[tag] else 0
    }

    ghost function Weight(peer: string): int
      reads this
    {
      Total(Of(peer))
    }

    method Set(peer: string, tag: string, value: int, now: int)
      requires Valid()
      modifies this
      ensures Valid() && Of(peer) == old(Of(peer))[tag := value]
      ensures forall q :: q != peer ==> Of(q) == old(Of(q))
      ensures firstSeen == if old(peer in tags) then old(firstSeen) else old(firstSeen)[peer := now]
    {
      if peer !in tags {
        tags := tags[peer := map[]];
        firstSeen := firstSeen[peer := now];
      }
      tags := tags[peer := tags[peer][tag := value]];
      assert tag in tags[peer].Keys;
    }

    method Delete(peer: string, tag: string)
      requires Valid()
      modifies this
      ensures Valid() && Of(peer) == old(Of(peer)) - {tag}
      ensures forall q :: q != peer ==> Of(q) == old(Of(q))
      ensures firstSeen == if Of(peer).Keys == {} then old(firstSeen) - {peer} else old(firstSeen)
    {
      var m := Of(peer) - {tag};
      if |m.Keys| == 0 {
        assert m == map[];
        Drop(peer);
      } else {
        tags := tags[peer := m];
      }
    }

    // A peer whose last tag is gone is dropped.
    method Drop(peer: string)
      requires Valid()
      modifies this
      ensures Valid() && Of(peer) == map[] && forall q :: q != peer ==> Of(q) == old(Of(q))
      ensures firstSeen == old(firstSeen) - {peer}
    {
      tags := tags - {peer};
      firstSeen := firstSeen - {peer};
    }

    method Sum(peer: string) returns (sum: int)
      ensures sum == Weight(peer)
    {
      sum := 0;
      var weights := Of(peer);
      var keys := weights.Keys;
      assert weights == map k | k in keys :: weights[k];
      while keys != {}
        invariant keys <= weights.Keys
        invariant sum + Total(map k | k in keys :: weights[k]) == Weight(peer)
        decreases |keys|
      {
        var k :| k in keys;
        ghost var rest := map j | j in keys :: weights[j];
        TotalRemove(rest, k);
        assert rest - {k} == map j | j in keys - {k} :: weights[j];
        sum := sum + weights[k];
        keys := keys - {k};
      }
    }
  }

  // ---------------------------------------------------------------- the host

  class Host {
    var conns: seq<string>

    constructor (conns: seq<string>)
      ensures this.conns == conns
    {
      this.conns := conns;
    }

    // Closes every connection to the peer.
    method CloseConnection(peer: string)
      modifies this
      ensures conns == Left(old(conns), [peer])
    {
      var i, kept := 0, [];
      while i < |conns|
        invariant 0 <= i <= |conns| && conns == old(conns)
        invariant kept + Left(conns[i..], [peer]) == Left(conns, [peer])
      {
        assert conns[i..][1..] == conns[i + 1..];
        if conns[i] != peer { kept := kept + [conns[i]]; }
        i := i + 1;
      }
      conns := kept;
    }
  }

  // ---------------------------------------------------------------- trimming

  datatype PeerScore = PeerScore(peer: string, score: int)

  ghost predicate Ascending(c: seq<PeerScore>) { forall i, j :: 0 <= i < j < |c| ==> c[i].score <= c[j].score }

  ghost predicate DistinctPeers(c: seq<PeerScore>) { forall i, j :: 0 <= i < j < |c| ==> c[i].peer != c[j].peer }

  // The candidates are the eligible peers, each once and with its score.
  ghost predicate Complete(v: View, c: seq<PeerScore>)
    requires Scored(v)
  {
    && DistinctPeers(c)
    && (forall i :: 0 <= i < |c| ==> c[i].peer in Eligible(v) && c[i].score == v.score[c[i].peer])
    && (forall p :: p in Eligible(v) ==> exists i :: 0 <= i < |c| && c[i].peer == p)
  }

  lemma CompleteSize(v: View, c: seq<PeerScore>)
    requires Scored(v) && Complete(v, c)
    ensures |c| == |Eligible(v)|
  {
    var peers := seq(|c|, i requires 0 <= i < |c| => c[i].peer);
    assert Distinct(peers);
    DistinctSize(peers);
    assert (set p | p in peers) == Eligible(v) by {
      forall p | p in Eligible(v) ensures p in peers {
        var i :| 0 <= i < |c| && c[i].peer == p;
        assert peers[i] == p;
      }
    }
  }

  // No element twice, said of the multiset.
  lemma OccursTwice<T>(s: seq<T>, i: int, j: int)
    requires 0 <= i < j < |s| && s[i] == s[j]
    ensures multiset(s)[s[i]] >= 2
  {
    assert s == s[..j] + s[j..] && s[..j][i] == s[i] && s[j..][0] == s[j];
  }

  lemma {:induction false} OccursOnce<T>(s: seq<T>, x: T)
    requires Distinct(s)
    ensures multiset(s)[x] <= 1
  {
    if s != [] {
      var n := |s| - 1;
      OccursOnce(s[..n], x);
      assert s == s[..n] + [s[n]];
      assert x == s[n] ==> x !in s[..n];
    }
  }

  lemma SortedComplete(v: View, c: seq<PeerScore>, s: seq<PeerScore>)
    requires Scored(v) && Complete(v, c) && multiset(s) == multiset(c)
    ensures Complete(v, s)
  {
    forall i | 0 <= i < |s| ensures s[i] in c { assert s[i] in multiset(s); }
    forall p | p in Eligible(v) ensures exists i :: 0 <= i < |s| && s[i].peer == p {
      var i :| 0 <= i < |c| && c[i].peer == p;
      assert c[i] in multiset(s);
      var j :| 0 <= j < |s| && s[j] == c[i];
    }
    forall i, j | 0 <= i < j < |s| ensures s[i].peer != s[j].peer {
      OccursOnce(c, s[i]);
      if s[i] == s[j] { OccursTwice(s, i, j); }
      var a :| 0 <= a < |c| && c[a] == s[i];
      var b :| 0 <= b < |c| && c[b] == s[j];
    }
  }

  // The peers of the first k candidates are a lowest choice.
  lemma PrefixLowest(v: View, s: seq<PeerScore>, closed: seq<string>)
    requires Scored(v) && Complete(v, s) && Ascending(s) && |closed| <= |s|
    requires forall i :: 0 <= i < |closed| ==> closed[i] == s[i].peer
    ensures Lowest(v, closed)
  {
    forall p, q | p in closed && q in Eligible(v) && q !in closed ensures v.score[p] <= v.score[q] {
      var i :| 0 <= i < |closed| && closed[i] == p;
      var j :| 0 <= j < |s| && s[j].peer == q;
      assert j >= |closed|;
    }
  }

  // sort.Slice by score: some ascending rearrangement.
  method SortByScore(c: seq<PeerScore>) returns (s: seq<PeerScore>)
    ensures multiset(s) == multiset(c) && Ascending(s)
  {
    s := [];
    var n := 0;
    while n < |c|
      invariant 0 <= n <= |c| && multiset(s) == multiset(c[..n]) && Ascending(s)
    {
      assert c[..n + 1] == c[..n] + [c[n]];
      s := Place(s, c[n]);
      n := n + 1;
    }
    assert c[..n] == c;
  }

  method Place(s: seq<PeerScore>, x: PeerScore) returns (t: seq<PeerScore>)
    requires Ascending(s)
    ensures multiset(t) == multiset(s) + multiset{x} && Ascending(t)
  {
    var i := |s|;
    while i > 0 && s[i - 1].score > x.score
      invariant 0 <= i <= |s| && forall k :: i <= k < |s| ==> s[k].score > x.score
    {
      i := i - 1;
    }
    Placed(s, x, i);
    Inserted(s, x, i);
    t := s[..i] + [x] + s[i..];
  }

  lemma Inserted(s: seq<PeerScore>, x: PeerScore, i: nat)
    requires i <= |s|
    ensures multiset(s[..i] + [x] + s[i..]) == multiset(s) + multiset{x}
  {
    assert s == s[..i] + s[i..];
  }

  lemma Placed(s: seq<PeerScore>, x: PeerScore, i: nat)
    requires Ascending(s) && i <= |s| && (i > 0 ==> s[i - 1].score <= x.score)
    requires forall k :: i <= k < |s| ==> s[k].score > x.score
    ensures Ascending(s[..i] + [x] + s[i..])
  {
    var t := s[..i] + [x] + s[i..];
    forall a, b | 0 <= a < b < |t| ensures t[a].score <= t[b].score {
      assert t[a] == if a < i then s[a] else if a == i then x else s[a - 1];
      assert t[b] == if b < i then s[b] else if b == i then x else s[b - 1];
    }
  }

  // The candidates among the peers seen so far.
  ghost predicate Covers(v: View, c: seq<PeerScore>, seen: set<string>)
    requires Scored(v)
  {
    && DistinctPeers(c)
    && (forall i :: 0 <= i < |c| ==> c[i].peer in seen && c[i].peer in Eligible(v) && c[i].score == v.score[c[i].peer])
    && (forall p :: p in seen && p in Eligible(v) ==> exists i :: 0 <= i < |c| && c[i].peer == p)
  }

  lemma CoversMore(v: View, c: seq<PeerScore>, seen: set<string>, x: PeerScore)
    requires Scored(v) && Covers(v, c, seen) && x.peer !in seen && x.peer in Eligible(v) && x.score == v.score[x.peer]
    ensures Covers(v, c + [x], seen + {x.peer})
  {
    var r := c + [x];
    forall p | p in seen + {x.peer} && p in Eligible(v) ensures exists i :: 0 <= i < |r| && r[i].peer == p {
      if p == x.peer {
        assert r[|c|].peer == p;
      } else {
        var i :| 0 <= i < |c| && c[i].peer == p;
        assert r[i].peer == p;
      }
    }
  }

  lemma CoversSkip(v: View, c: seq<PeerScore>, seen: set<string>, p: string)
    requires Scored(v) && Covers(v, c, seen) && p !in Eligible(v)
    ensures Covers(v, c, seen + {p})
  {
  }

  class Manager {
    const tags: TagStore
    const protects: ProtectStore
    const host: Host?
    var lowWater: int
    var highWater: int
    var closed: bool
    var connInfos: set<string>                 // peers with a connection record

    constructor (host: Host?, low: int, high: int)
      ensures Valid() && fresh(tags) && fresh(protects) && this.host == host && !closed
      ensures lowWater == low && highWater == high
    {
      tags := new TagStore();
      protects := new ProtectStore();
      this.host, lowWater, highWater, closed, connInfos := host, low, high, false, {};
    }

    ghost predicate Valid()
      reads tags, protects
    {
      tags.Valid() && protects.Valid()
    }

    /** What a peer's rank is made of. */
    ghost function Score(peer: string): int
      reads tags, protects
    {
      tags.Weight(peer)
      + (if host != null && tags.Get(peer, "connected") > 0 then 10 else 0)
      + (if protects.Of(peer) != {} then 20 else 0)
    }

    ghost function Now(conns: seq<string>): (v: View)
      reads tags, protects
      ensures Scored(v)
    {
      View(conns, (set p | p in conns && protects.Of(p) != {}), map p | p in conns :: Score(p))
    }

    method CalculateScore(peer: string) returns (score: int)
      ensures score == Score(peer)
      ensures var weights := tags.Of(peer);
              var connected := host != null && "connected" in weights && weights["connected"] > 0;
              var guarded := protects.Of(peer) != {};
              && (!connected && !guarded ==> score == Total(weights))
              && (connected && !guarded ==> score == Total(weights) + 10)
              && (!connected && guarded ==> score == Total(weights) + 20)
              && (connected && guarded ==> score == Total(weights) + 30)
    {
      score := tags.Sum(peer);
      if host != null {
        if tags.Get(peer, "connected") > 0 { score := score + 10; }
      }
      if protects.HasAnyProtection(peer) { score := score + 20; }
    }

    // The view at a connection's peer.
    lemma NowAt(conns: seq<string>, peer: string)
      requires peer in conns
      ensures var v := Now(conns);
              (peer in Eligible(v) <==> protects.Of(peer) == {}) && v.score[peer] == Score(peer)
    {
    }

    // The loop over the connections.
    method Candidates(conns: seq<string>) returns (candidates: seq<PeerScore>)
      ensures Complete(Now(conns), candidates)
    {
      candidates := [];
      var seen: set<string> := {};
      for i := 0 to |conns|
        invariant seen == (set p | p in conns[..i]) && Covers(Now(conns), candidates, seen)
      {
        assert conns[..i + 1] == conns[..i] + [conns[i]];
        if conns[i] !in seen {
          candidates := Consider(conns, conns[i], candidates, seen);
          seen := seen + {conns[i]};
        }
      }
      assert conns[..|conns|] == conns;
    }

    method Consider(ghost conns: seq<string>, peer: string, candidates: seq<PeerScore>, ghost seen: set<string>)
      returns (r: seq<PeerScore>)
      requires peer in conns && peer !in seen && Covers(Now(conns), candidates, seen)
      ensures Covers(Now(conns), r, seen + {peer})
    {
      NowAt(conns, peer);
      if protects.HasAnyProtection(peer) {
        CoversSkip(Now(conns), candidates, seen, peer);
        r := candidates;
      } else {
        var score := CalculateScore(peer);
        CoversMore(Now(conns), candidates, seen, PeerScore(peer, score));
        r := candidates + [PeerScore(peer, score)];
      }
    }

    /** A trim closes no peer with a tag, and leaves all its connections. */
    ghost predicate Spared(before: seq<string>, closing: seq<string>, after: seq<string>)
      reads protects
    {
      forall p :: (exists tag :: tag in protects.Of(p)) ==> p !in closing && multiset(after)[p] == multiset(before)[p]
    }

    // The same by the calls made on the protections.
    lemma StandingSpared(before: seq<string>, closing: seq<string>, after: seq<string>, p: string, tag: string)
      requires Valid() && Spared(before, closing, after) && Standing(protects.calls, p, tag)
      ensures p !in closing && multiset(after)[p] == multiset(before)[p]
    {
      assert tag in protects.Of(p);
    }

    lemma LowestSpared(before: seq<string>, closing: seq<string>)
      requires Lowest(Now(before), closing)
      ensures Spared(before, closing, Left(before, closing))
    {
      forall p, tag | tag in protects.Of(p)
        ensures p !in closing && multiset(Left(before, closing))[p] == multiset(before)[p]
      {
        assert p in closing ==> p in Eligible(Now(before));
        LeftCount(before, closing, p);
      }
    }

    /** Closes lowest-ranked peers until the target or the candidates are used up, or the context is
        done; it is done from the `doneAt`-th close on. */
    method TrimToTarget(target: int, doneAt: nat) returns (closing: seq<string>)
      requires host != null
      modifies host
      ensures Lowest(Now(old(host.conns)), closing) && Spared(old(host.conns), closing, host.conns)
      ensures |closing| == Min(doneAt, Quota(Now(old(host.conns)), target))
      ensures host.conns == Left(old(host.conns), closing)
    {
      var conns := host.conns;
      if |conns| <= target {
        LeftNone(conns);
        return [];
      }
      var candidates := Candidates(conns);
      closing := CloseLowest(candidates, target, doneAt, Now(conns));
      LowestSpared(conns, closing);
    }

    method CloseLowest(unsorted: seq<PeerScore>, target: int, doneAt: nat, ghost v: View) returns (closing: seq<string>)
      requires host != null && host.conns == v.conns && |host.conns| > target && Scored(v) && Complete(v, unsorted)
      modifies host
      ensures Lowest(v, closing) && |closing| == Min(doneAt, Quota(v, target))
      ensures host.conns == Left(v.conns, closing)
    {
      var candidates := SortByScore(unsorted);
      SortedComplete(v, unsorted, candidates);
      CompleteSize(v, candidates);
      var toClose := |host.conns| - target;
      if toClose > |candidates| { toClose := |candidates|; }
      closing := CloseFirst(candidates, toClose, doneAt);
      PrefixLowest(v, candidates, closing);
    }

    method CloseFirst(candidates: seq<PeerScore>, toClose: nat, doneAt: nat) returns (closing: seq<string>)
      requires host != null && toClose <= |candidates|
      modifies host
      ensures |closing| == Min(doneAt, toClose) && forall k :: 0 <= k < |closing| ==> closing[k] == candidates[k].peer
      ensures host.conns == Left(old(host.conns), closing)
    {
      closing := [];
      LeftNone(host.conns);
      var i := 0;
      while i < toClose
        invariant 0 <= i <= toClose && |closing| == i <= doneAt
        invariant forall k :: 0 <= k < i ==> closing[k] == candidates[k].peer
        invariant host.conns == Left(old(host.conns), closing)
      {
        if i >= doneAt { return; }
        LeftMore(old(host.conns), closing, candidates[i].peer);
        host.CloseConnection(candidates[i].peer);
        closing := closing + [candidates[i].peer];
        i := i + 1;
      }
    }

    // The periodic check goes by the manager's own connection records.
    method CheckAndTrim(doneAt: nat) returns (closing: seq<string>)
      modifies if host == null then {} else {host}
      ensures host == null || |connInfos| <= highWater || |connInfos| <= lowWater ==>
                closing == [] && (host != null ==> host.conns == old(host.conns))
      ensures host != null && |connInfos| > highWater && |connInfos| > lowWater ==>
                && Lowest(Now(old(host.conns)), closing)
                && Spared(old(host.conns), closing, host.conns)
                && |closing| == Min(doneAt, Quota(Now(old(host.conns)), lowWater))
                && host.conns == Left(old(host.conns), closing)
    {
      closing := [];
      var connCount := |connInfos|;
      if connCount <= highWater { return; }
      var targetCount := lowWater;
      if connCount - targetCount <= 0 { return; }
      if host == null { return; }
      closing := TrimToTarget(targetCount, doneAt);
    }

    method TrimOpenConns(doneAt: nat) returns (closing: seq<string>)
      modifies if host == null then {} else {host}
      ensures host == null || closed ==> closing == [] && (host != null ==> host.conns == old(host.conns))
      ensures host != null && !closed ==>
                && Lowest(Now(old(host.conns)), closing)
                && Spared(old(host.conns), closing, host.conns)
                && |closing| == Min(doneAt, Quota(Now(old(host.conns)), lowWater))
                && host.conns == Left(old(host.conns), closing)
    {
      closing := [];
      if closed { return; }
      if host == null { return; }
      closing := TrimToTarget(lowWater, doneAt);
    }
  }
}
