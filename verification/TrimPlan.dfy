/**
 What a trim may close (internal/core/connmgr/trim.go), on values: the connection list, the
 protected peers and the scores as they are when it starts.
 */
module TrimPlan {
  import opened Common

  // conns names the remote peer of every connection.
  datatype View = View(conns: seq<string>, protected: set<string>, score: map<string, int>)

  ghost predicate Scored(v: View) { forall p :: p in v.conns ==> p in v.score }

  // Peers that may be closed.
  ghost function Eligible(v: View): set<string> { set p | p in v.conns && p !in v.protected }

  // The connections left when all connections to some peers are closed.
  function Left(conns: seq<string>, gone: seq<string>): seq<string> {
    if conns == [] then []
    else (if conns[0] in gone then [] else [conns[0]]) + Left(conns[1..], gone)
  }

  /** How many peers an uncancelled trim closes. */
  ghost function Quota(v: View, target: int): nat {
    if |v.conns| <= target then 0 else Min(|v.conns| - target, |Eligible(v)|)
  }

  /** Distinct unprotected peers, none of which outranks an unprotected peer that stays. */
  ghost predicate Lowest(v: View, closed: seq<string>)
    requires Scored(v)
  {
    && Distinct(closed)
    && (forall p :: p in closed ==> p in Eligible(v))
    && (forall p, q :: p in closed && q in Eligible(v) && q !in closed ==> v.score[p] <= v.score[q])
  }

  // ---------------------------------------------------------------- counting connections

  lemma {:induction false} LeftAt(conns: seq<string>, gone: seq<string>, p: string)
    ensures p in Left(conns, gone) <==> p in conns && p !in gone
  {
    if conns != [] {
      LeftAt(conns[1..], gone, p);
      assert conns == [conns[0]] + conns[1..];
    }
  }

  // All connections to the peers that stay are left.
  lemma {:induction false} LeftCount(conns: seq<string>, gone: seq<string>, p: string)
    ensures multiset(Left(conns, gone))[p] == if p in gone then 0 else multiset(conns)[p]
  {
    if conns != [] {
      LeftCount(conns[1..], gone, p);
      assert conns == [conns[0]] + conns[1..];
    }
  }

  lemma {:induction false} LeftNone(conns: seq<string>)
    ensures Left(conns, []) == conns
  {
    if conns != [] { LeftNone(conns[1..]); }
  }

  lemma {:induction false} LeftMore(conns: seq<string>, gone: seq<string>, p: string)
    ensures Left(Left(conns, gone), [p]) == Left(conns, gone + [p])
  {
    if conns != [] {
      LeftMore(conns[1..], gone, p);
      var rest := Left(conns[1..], gone);
      if conns[0] in gone {
        assert Left(conns, gone) == rest;
      } else {
        assert ([conns[0]] + rest)[1..] == rest;
      }
    }
  }

  // Closing a further connected peer removes at least its one connection.
  lemma {:induction false} CloseOne(conns: seq<string>, p: string)
    requires p in conns
    ensures |Left(conns, [p])| < |conns|
    ensures Distinct(conns) ==> |Left(conns, [p])| == |conns| - 1
  {
    if conns[0] == p {
      ShorterOrEqual(conns[1..], p);
    } else {
      CloseOne(conns[1..], p);
    }
  }

  lemma {:induction false} ShorterOrEqual(conns: seq<string>, p: string)
    ensures |Left(conns, [p])| <= |conns|
    ensures p !in conns ==> Left(conns, [p]) == conns
  {
    if conns != [] { ShorterOrEqual(conns[1..], p); }
  }

  lemma {:induction false} LeftDistinct(conns: seq<string>, gone: seq<string>)
    requires Distinct(conns)
    ensures Distinct(Left(conns, gone))
  {
    if conns != [] {
      LeftDistinct(conns[1..], gone);
      LeftAt(conns[1..], gone, conns[0]);
    }
  }

  lemma {:induction false} Shrinks(conns: seq<string>, gone: seq<string>)
    requires Distinct(gone) && forall p :: p in gone ==> p in conns
    ensures |Left(conns, gone)| <= |conns| - |gone|
    ensures Distinct(conns) ==> |Left(conns, gone)| == |conns| - |gone|
    decreases |gone|
  {
    if gone == [] {
      LeftNone(conns);
    } else {
      var n := |gone| - 1;
      Shrinks(conns, gone[..n]);
      LeftMore(conns, gone[..n], gone[n]);
      assert gone == gone[..n] + [gone[n]];
      LeftAt(conns, gone[..n], gone[n]);
      CloseOne(Left(conns, gone[..n]), gone[n]);
      if Distinct(conns) { LeftDistinct(conns, gone[..n]); }
    }
  }

  lemma {:induction false} DistinctSize<T>(s: seq<T>)
    requires Distinct(s)
    ensures |set x | x in s| == |s|
  {
    if s != [] {
      var n := |s| - 1;
      DistinctSize(s[..n]);
      assert (set x | x in s) == (set x | x in s[..n]) + {s[n]};
      assert s[n] !in s[..n];
    }
  }

  // All eligible peers being closed, the protected connections remain.
  lemma {:induction false} OnlyProtected(conns: seq<string>, gone: seq<string>, protected: set<string>)
    requires forall p :: p in conns ==> (p in gone <==> p !in protected)
    ensures Left(conns, gone) == Protected(conns, protected)
  {
    if conns != [] { OnlyProtected(conns[1..], gone, protected); }
  }

  // The connections to protected peers.
  function Protected(conns: seq<string>, protected: set<string>): seq<string> {
    if conns == [] then []
    else (if conns[0] in protected then [conns[0]] else []) + Protected(conns[1..], protected)
  }

  lemma SameSet(a: set<string>, b: set<string>)
    requires a <= b && |a| == |b|
    ensures a == b
  {
    assert |b - a| == 0;
  }

  lemma {:induction false} AtLeastProtected(conns: seq<string>, gone: seq<string>, protected: set<string>)
    requires forall p :: p in gone ==> p !in protected
    ensures |Protected(conns, protected)| <= |Left(conns, gone)|
  {
    if conns != [] { AtLeastProtected(conns[1..], gone, protected); }
  }

  /** A trim that is not cancelled, from above the target, leaves at most the larger of the target
      and the protected connections; with one connection per peer it leaves exactly that many. */
  lemma TrimReaches(v: View, target: nat, closed: seq<string>)
    requires Scored(v) && Lowest(v, closed) && |closed| == Quota(v, target) && |v.conns| > target
    ensures |Left(v.conns, closed)| <= Max(target, |Protected(v.conns, v.protected)|)
    ensures Distinct(v.conns) ==> |Left(v.conns, closed)| == Max(target, |Protected(v.conns, v.protected)|)
  {
    Shrinks(v.conns, closed);
    AtLeastProtected(v.conns, closed, v.protected);
    if |closed| == |Eligible(v)| {
      DistinctSize(closed);
      SameSet((set p | p in closed), Eligible(v));
      forall p | p in v.conns ensures p in closed <==> p !in v.protected {
        assert p in Eligible(v) <==> p !in v.protected;
        assert p in closed <==> p in (set x | x in closed);
      }
      OnlyProtected(v.conns, closed, v.protected);
    }
  }

  /** However early it is cancelled, a trim never leaves fewer connections than the target when every
      peer has one, and never touches a protected connection. */
  lemma TrimKeeps(v: View, target: nat, closed: seq<string>)
    requires Scored(v) && Lowest(v, closed) && |closed| <= Quota(v, target)
    ensures Distinct(v.conns) && |v.conns| >= target ==> |Left(v.conns, closed)| >= target
    ensures Protected(Left(v.conns, closed), v.protected) == Protected(v.conns, v.protected)
  {
    Shrinks(v.conns, closed);
    ProtectedStay(v.conns, closed, v.protected);
  }

  lemma {:induction false} ProtectedStay(conns: seq<string>, gone: seq<string>, protected: set<string>)
    requires forall p :: p in gone ==> p !in protected
    ensures Protected(Left(conns, gone), protected) == Protected(conns, protected)
  {
    if conns != [] {
      var rest := Left(conns[1..], gone);
      ProtectedStay(conns[1..], gone, protected);
      if conns[0] in gone {
        assert Left(conns, gone) == rest;
      } else {
        assert ([conns[0]] + rest)[1..] == rest;
      }
    }
  }
}
