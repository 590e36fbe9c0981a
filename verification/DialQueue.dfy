/**
 The dial queue (internal/core/connmgr/scheduler.go): container/heap over a slice of peer
 states, each of which stores its own position.

 Contracts come in two layers. `Backed` holds whatever the callers do, even when a state is
 pushed twice: a stored index is -1 or a position of that very state. The ghost flag `strict`
 asks for more: every position is recorded (so no state occurs twice) and the heap order holds.
 */
module DialQueue {

  class PeerDialState {
    const ID: string
    const Static: bool
    const Permanent: bool
    var Addrs: seq<string>
    var Priority: int
    var NextDialTime: int
    var Attempts: int
    var LastAttempt: int
    var LastError: bool
    var Connected: bool
    var heapIndex: int

    constructor (id: string, addrs: seq<string>, priority: int, now: int, isStatic: bool, permanent: bool)
      ensures ID == id && Addrs == addrs && Priority == priority && NextDialTime == now
      ensures Static == isStatic && Permanent == permanent
      ensures Attempts == 0 && LastAttempt == 0 && !LastError && !Connected && heapIndex == -1
    {
      ID, Addrs, Priority, NextDialTime := id, addrs, priority, now;
      Static, Permanent := isStatic, permanent;
      Attempts, LastAttempt, LastError, Connected, heapIndex := 0, 0, false, false, -1;
    }
  }

  // What the queue is ordered by: earlier time first, then the smaller priority value.
  datatype Key = Key(time: int, priority: int)

  predicate KeyLess(a: Key, b: Key) {
    if a.time != b.time then a.time < b.time else a.priority < b.priority
  }

  predicate Less(a: PeerDialState, b: PeerDialState)
    reads a, b
  {
    if a.NextDialTime != b.NextDialTime then a.NextDialTime < b.NextDialTime else a.Priority < b.Priority
  }

  // The keys of all states, as a value: sifting moves states but changes no key.
  type Keys = map<PeerDialState, Key>

  ghost predicate KeysOf(keys: Keys, all: set<PeerDialState>)
    reads all`NextDialTime, all`Priority
  {
    forall s :: s in all ==> s in keys && keys[s] == Key(s.NextDialTime, s.Priority)
  }

  function Parent(i: int): int { if i <= 0 then 0 else (i - 1) / 2 }

  // ---------------------------------------------------------------- heap order on values

  ghost predicate Known(q: seq<PeerDialState>, keys: Keys) { forall i :: 0 <= i < |q| ==> q[i] in keys }

  ghost predicate NotLess(q: seq<PeerDialState>, keys: Keys, i: int, j: int)
    requires Known(q, keys) && 0 <= i < |q| && 0 <= j < |q|
  {
    !KeyLess(keys[q[i]], keys[q[j]])
  }

  ghost predicate Heap(q: seq<PeerDialState>, keys: Keys, n: int)
    requires Known(q, keys) && 0 <= n <= |q|
  {
    forall i :: 0 < i < n ==> NotLess(q, keys, i, Parent(i))
  }

  // The heap order but for position j, which may be smaller than its parent.
  ghost predicate HeapUp(q: seq<PeerDialState>, keys: Keys, j: int, n: int)
    requires Known(q, keys) && 0 <= j < n <= |q|
  {
    && (forall i :: 0 < i < n && i != j ==> NotLess(q, keys, i, Parent(i)))
    && (forall i :: 0 < i < n && Parent(i) == j ==> NotLess(q, keys, i, Parent(j)))
  }

  // The heap order but for position j, which may also be larger than its children.
  ghost predicate HeapDown(q: seq<PeerDialState>, keys: Keys, j: int, n: int)
    requires Known(q, keys) && 0 <= j && 0 <= n <= |q|
  {
    && (forall i :: 0 < i < n && i != j && Parent(i) != j ==> NotLess(q, keys, i, Parent(i)))
    && (forall i :: 0 < j < i < n && Parent(i) == j ==> NotLess(q, keys, i, Parent(j)))
  }

  function Swapped(q: seq<PeerDialState>, i: int, j: int): seq<PeerDialState>
    requires 0 <= i < |q| && 0 <= j < |q|
  {
    q[i := q[j]][j := q[i]]
  }

  lemma SwappedKeeps(q: seq<PeerDialState>, i: int, j: int)
    requires 0 <= i < |q| && 0 <= j < |q|
    ensures multiset(Swapped(q, i, j)) == multiset(q)
  {
  }

  // After swapping j with its parent the only open pair is the one above.
  lemma UpStep(q: seq<PeerDialState>, keys: Keys, j: int, n: int)
    requires Known(q, keys) && 0 < j < n <= |q| && HeapUp(q, keys, j, n) && !NotLess(q, keys, j, Parent(j))
    ensures Known(Swapped(q, Parent(j), j), keys) && HeapUp(Swapped(q, Parent(j), j), keys, Parent(j), n)
  {
    var i := Parent(j);
    var r := Swapped(q, i, j);
    forall k | 0 < k < n && k != i ensures NotLess(r, keys, k, Parent(k)) {
      if k != j {
        assert NotLess(q, keys, k, Parent(k));
        if Parent(k) == j { assert NotLess(q, keys, k, Parent(j)); }
      }
    }
    forall k | 0 < k < n && Parent(k) == i ensures NotLess(r, keys, k, Parent(i)) {
      if i > 0 { assert NotLess(q, keys, i, Parent(i)); }
      if k != j { assert NotLess(q, keys, k, i); }
    }
  }

  // After swapping i with its smallest child j the only open pairs are those below j.
  lemma DownStep(q: seq<PeerDialState>, keys: Keys, i: int, j: int, n: int)
    requires Known(q, keys) && 0 <= i < j < n <= |q| && i == Parent(j) && HeapDown(q, keys, i, n)
    requires forall k :: 0 < k < n && Parent(k) == i ==> NotLess(q, keys, k, j)
    requires !NotLess(q, keys, j, i)
    ensures Known(Swapped(q, i, j), keys) && HeapDown(Swapped(q, i, j), keys, j, n)
    ensures NotLess(Swapped(q, i, j), keys, j, i)
    ensures i > 0 ==> NotLess(Swapped(q, i, j), keys, i, Parent(i))
    ensures forall k :: 0 < k < n && Parent(k) == i ==> NotLess(Swapped(q, i, j), keys, k, i)
  {
    var r := Swapped(q, i, j);
    forall k | 0 < k < n && k != j && Parent(k) != j ensures NotLess(r, keys, k, Parent(k)) {
      if k == i { assert i > 0; assert NotLess(q, keys, j, Parent(i)); }
      else if Parent(k) == i { assert NotLess(q, keys, k, j); }
      else { assert NotLess(q, keys, k, Parent(k)); }
    }
    forall k | 0 < k < n && Parent(k) == j ensures NotLess(r, keys, k, Parent(j)) {
      assert NotLess(q, keys, k, Parent(k));
    }
    forall k | 0 < k < n && Parent(k) == i ensures NotLess(r, keys, k, i) {
      assert NotLess(q, keys, k, j);
    }
  }

  // Nothing to move at i: only the pair above it may be open.
  lemma DownDone(q: seq<PeerDialState>, keys: Keys, i: int, n: int)
    requires Known(q, keys) && 0 <= i < n <= |q| && HeapDown(q, keys, i, n)
    requires forall k :: 0 < k < n && Parent(k) == i ==> NotLess(q, keys, k, i)
    ensures HeapUp(q, keys, i, n)
    ensures i == 0 || NotLess(q, keys, i, Parent(i)) ==> Heap(q, keys, n)
  {
    forall k | 0 < k < n && k != i ensures NotLess(q, keys, k, Parent(k)) {
      if Parent(k) == i { assert NotLess(q, keys, k, i); }
    }
  }

  // Putting the last position in place of position i opens the pairs at i only.
  lemma RemoveReady(q: seq<PeerDialState>, keys: Keys, i: int)
    requires Known(q, keys) && 0 <= i < |q| && Heap(q, keys, |q|)
    ensures Known(Swapped(q, i, |q| - 1), keys) && HeapDown(Swapped(q, i, |q| - 1), keys, i, |q| - 1)
  {
    var n := |q| - 1;
    var r := Swapped(q, i, n);
    forall k | 0 < k < n && k != i && Parent(k) != i ensures NotLess(r, keys, k, Parent(k)) {
      assert NotLess(q, keys, k, Parent(k));
    }
    forall k | 0 < i < k < n && Parent(k) == i ensures NotLess(r, keys, k, Parent(i)) {
      assert NotLess(q, keys, k, i) && NotLess(q, keys, i, Parent(i));
    }
  }

  // Changing the key of the state at position i opens the pairs at i only.
  lemma FixReady(q: seq<PeerDialState>, keys: Keys, keys': Keys, i: int)
    requires Known(q, keys) && Known(q, keys') && 0 <= i < |q| && Heap(q, keys, |q|)
    requires forall k :: 0 <= k < |q| && k != i ==> keys'[q[k]] == keys[q[k]]
    ensures HeapDown(q, keys', i, |q|)
  {
    forall k | 0 < k < |q| && k != i && Parent(k) != i ensures NotLess(q, keys', k, Parent(k)) {
      assert NotLess(q, keys, k, Parent(k));
    }
    forall k | 0 < i < k < |q| && Parent(k) == i ensures NotLess(q, keys', k, Parent(i)) {
      assert NotLess(q, keys, k, i) && NotLess(q, keys, i, Parent(i));
    }
  }

  lemma KeepHeap(q: seq<PeerDialState>, keys: Keys, keys': Keys)
    requires Known(q, keys) && Known(q, keys') && Heap(q, keys, |q|)
    requires forall k :: 0 <= k < |q| ==> keys'[q[k]] == keys[q[k]]
    ensures Heap(q, keys', |q|)
  {
    forall k | 0 < k < |q| ensures NotLess(q, keys', k, Parent(k)) {
      assert NotLess(q, keys, k, Parent(k));
    }
  }

  /** The root of a heap is a minimum of the queue. */
  lemma {:induction false} RootIsMin(q: seq<PeerDialState>, keys: Keys, i: int)
    requires Known(q, keys) && 0 <= i < |q| && Heap(q, keys, |q|)
    ensures NotLess(q, keys, i, 0)
    decreases i
  {
    if i > 0 {
      assert NotLess(q, keys, i, Parent(i));
      RootIsMin(q, keys, Parent(i));
    }
  }

  lemma RootIsLeast(q: seq<PeerDialState>, keys: Keys)
    requires Known(q, keys) && q != [] && Heap(q, keys, |q|)
    ensures forall s :: s in multiset(q) ==> s in keys && !KeyLess(keys[s], keys[q[0]])
  {
    forall s | s in multiset(q) ensures s in keys && !KeyLess(keys[s], keys[q[0]]) {
      var i :| 0 <= i < |q| && q[i] == s;
      RootIsMin(q, keys, i);
    }
  }

  // What is left when the state parked at the last position is cut off.
  lemma CutLast(q: seq<PeerDialState>, r: seq<PeerDialState>, i: int)
    requires 0 <= i < |q| == |r| && multiset(r) == multiset(q) && r[|q| - 1] == q[i]
    ensures multiset(q) == multiset(r[..|q| - 1]) + multiset{q[i]}
  {
    var n := |q| - 1;
    assert r == r[..n] + [r[n]];
  }

  // ---------------------------------------------------------------- the queue

  class Queue {
    var items: seq<PeerDialState>

    constructor ()
      ensures items == []
    {
      items := [];
    }

    // A recorded position is right.
    ghost predicate Backed(all: set<PeerDialState>)
      reads this, all`heapIndex
    {
      && (forall i :: 0 <= i < |items| ==> items[i] in all)
      && (forall s :: s in all ==>
            s.heapIndex == -1 || (0 <= s.heapIndex < |items| && items[s.heapIndex] == s))
    }

    // Every position is recorded; in particular no state is queued twice.
    ghost predicate Indexed()
      reads this, items`heapIndex
    {
      forall i :: 0 <= i < |items| ==> items[i].heapIndex == i
    }

    ghost predicate Valid(keys: Keys, all: set<PeerDialState>)
      reads this, all
    {
      Backed(all) && KeysOf(keys, all) && Known(items, keys)
    }

    method Swap(i: int, j: int, ghost keys: Keys, ghost all: set<PeerDialState>)
      requires 0 <= i < |items| && 0 <= j < |items| && Valid(keys, all)
      modifies this, all`heapIndex
      ensures Valid(keys, all) && items == Swapped(old(items), i, j)
      ensures multiset(items) == old(multiset(items))
      ensures old(Indexed()) ==> Indexed()
    {
      SwappedKeeps(items, i, j);
      items := items[i := items[j]][j := items[i]];
      items[i].heapIndex := i;
      items[j].heapIndex := j;
    }

    /** heap.up on the first n positions. */
    method Up(start: int, ghost n: int, ghost keys: Keys, ghost all: set<PeerDialState>, ghost strict: bool)
      requires Valid(keys, all) && 0 <= start < n <= |items|
      requires strict ==> Indexed() && HeapUp(items, keys, start, n)
      modifies this, all`heapIndex
      ensures Valid(keys, all) && |items| == old(|items|) && items[n..] == old(items)[n..]
      ensures multiset(items) == old(multiset(items))
      ensures strict ==> Indexed() && Heap(items, keys, n)
    {
      var j := start;
      while true
        invariant Valid(keys, all) && 0 <= j < n <= |items| == old(|items|) && items[n..] == old(items)[n..]
        invariant multiset(items) == old(multiset(items))
        invariant strict ==> Indexed() && HeapUp(items, keys, j, n)
        decreases j
      {
        var i := Parent(j);
        if i == j || !Less(items[j], items[i]) { break; }
        if strict { UpStep(items, keys, j, n); }
        Swap(i, j, keys, all);
        j := i;
      }
    }

    /** heap.down from i0 on the first n positions; reports whether anything moved. */
    method Down(i0: int, n: int, ghost keys: Keys, ghost all: set<PeerDialState>, ghost strict: bool)
      returns (moved: bool)
      requires Valid(keys, all) && 0 <= i0 && 0 <= n <= |items|
      requires strict ==> Indexed() && HeapDown(items, keys, i0, n)
      modifies this, all`heapIndex
      ensures Valid(keys, all) && |items| == old(|items|) && items[n..] == old(items)[n..]
      ensures multiset(items) == old(multiset(items))
      ensures strict ==> Indexed()
      ensures strict && (moved || i0 == 0 || i0 >= n) ==> Heap(items, keys, n)
      ensures strict && i0 < n ==> moved || HeapUp(items, keys, i0, n)
      ensures !moved ==> items == old(items)
    {
      var i := i0;
      while true
        invariant Valid(keys, all) && i0 <= i && n <= |items| == old(|items|) && items[n..] == old(items)[n..]
        invariant multiset(items) == old(multiset(items))
        invariant strict ==> Indexed() && HeapDown(items, keys, i, n)
        invariant i0 < i ==> i < n && (strict ==> NotLess(items, keys, i, Parent(i)))
        invariant i == i0 ==> items == old(items)
        decreases n - i
      {
        if 2 * i + 1 >= n {
          if strict && i < n { DownDone(items, keys, i, n); }
          break;
        }
        var j := SmallestChild(i, n, keys, all);
        if !Less(items[j], items[i]) {
          if strict { DownDone(items, keys, i, n); }
          break;
        }
        if strict { DownStep(items, keys, i, j, n); }
        Swap(i, j, keys, all);
        i := j;
      }
      moved := i > i0;
    }

    method SmallestChild(i: int, n: int, ghost keys: Keys, ghost all: set<PeerDialState>) returns (j: int)
      requires Valid(keys, all) && 0 <= i && 2 * i + 1 < n <= |items|
      ensures i < j < n && Parent(j) == i
      ensures forall k :: 0 < k < n && Parent(k) == i ==> NotLess(items, keys, k, j)
    {
      j := 2 * i + 1;
      if j + 1 < n && Less(items[j + 1], items[j]) { j := j + 1; }
    }

    // heap.down, then heap.up when nothing moved.
    method Sift(i: int, n: int, ghost keys: Keys, ghost all: set<PeerDialState>, ghost strict: bool)
      requires Valid(keys, all) && 0 <= i < n <= |items|
      requires strict ==> Indexed() && HeapDown(items, keys, i, n)
      modifies this, all`heapIndex
      ensures Valid(keys, all) && |items| == old(|items|) && items[n..] == old(items)[n..]
      ensures multiset(items) == old(multiset(items))
      ensures strict ==> Indexed() && Heap(items, keys, n)
    {
      var moved := Down(i, n, keys, all, strict);
      if !moved { Up(i, n, keys, all, strict); }
    }

    /** heap.Push: `strict` needs a state that is not queued. */
    method Push(x: PeerDialState, ghost keys: Keys, ghost all: set<PeerDialState>, ghost strict: bool)
      requires Valid(keys, all) && x in all
      requires strict ==> Indexed() && Heap(items, keys, |items|) && x.heapIndex < 0
      modifies this, all`heapIndex
      ensures Valid(keys, all)
      ensures multiset(items) == old(multiset(items)) + multiset{x}
      ensures strict ==> Indexed() && Heap(items, keys, |items|)
    {
      var n := |items|;
      assert strict ==> x !in items;
      items := items + [x];
      x.heapIndex := n;
      Up(n, n + 1, keys, all, strict);
    }

    // Drops the last position; heap.Pop and heap.Remove end with it.
    method PopLast(ghost keys: Keys, ghost all: set<PeerDialState>, ghost strict: bool) returns (x: PeerDialState)
      requires Valid(keys, all) && |items| > 0
      requires strict ==> Indexed() && Heap(items, keys, |items| - 1)
      modifies this, all`heapIndex
      ensures Valid(keys, all) && x == old(items)[|old(items)| - 1] && x.heapIndex == -1
      ensures items == old(items)[..|old(items)| - 1]
      ensures strict ==> Indexed() && Heap(items, keys, |items|)
    {
      var n := |items| - 1;
      x := items[n];
      x.heapIndex := -1;
      items := items[..n];
    }

    /** heap.Pop takes the root, a minimum when `strict`. */
    method Pop(ghost keys: Keys, ghost all: set<PeerDialState>, ghost strict: bool) returns (x: PeerDialState)
      requires Valid(keys, all) && |items| > 0
      requires strict ==> Indexed() && Heap(items, keys, |items|)
      modifies this, all`heapIndex
      ensures Valid(keys, all) && x == old(items)[0] && x.heapIndex == -1
      ensures old(multiset(items)) == multiset(items) + multiset{x}
      ensures strict ==> Indexed() && Heap(items, keys, |items|)
      ensures strict ==> forall s :: s in items ==> !KeyLess(keys[s], keys[x])
    {
      ghost var before := items;
      if strict { RootIsLeast(items, keys); }
      ParkRoot(keys, all, strict);
      CutLast(before, items, 0);
      x := PopLast(keys, all, strict);
      assert forall s :: s in items ==> s in multiset(items);
    }

    // Moves the root last and restores the heap before it.
    method ParkRoot(ghost keys: Keys, ghost all: set<PeerDialState>, ghost strict: bool)
      requires Valid(keys, all) && |items| > 0
      requires strict ==> Indexed() && Heap(items, keys, |items|)
      modifies this, all`heapIndex
      ensures Valid(keys, all) && multiset(items) == old(multiset(items))
      ensures |items| == old(|items|) && items[|items| - 1] == old(items)[0]
      ensures strict ==> Indexed() && Heap(items, keys, |items| - 1)
    {
      var n := |items| - 1;
      Exchange(0, keys, all, strict);
      var moved := Down(0, n, keys, all, strict);
      assert items[n..][0] == items[n];
    }

    // Exchanges the state at position i with the last one.
    method Exchange(i: int, ghost keys: Keys, ghost all: set<PeerDialState>, ghost strict: bool)
      requires Valid(keys, all) && 0 <= i < |items|
      requires strict ==> Indexed() && Heap(items, keys, |items|)
      modifies this, all`heapIndex
      ensures Valid(keys, all) && multiset(items) == old(multiset(items))
      ensures |items| == old(|items|) && items[|items| - 1..][0] == old(items)[i]
      ensures strict ==> Indexed() && HeapDown(items, keys, i, |items| - 1)
    {
      if strict { RemoveReady(items, keys, i); }
      Swap(i, |items| - 1, keys, all);
    }

    // Moves the state at position i last and restores the heap before it.
    method Park(i: int, ghost keys: Keys, ghost all: set<PeerDialState>, ghost strict: bool)
      requires Valid(keys, all) && 0 <= i < |items|
      requires strict ==> Indexed() && Heap(items, keys, |items|)
      modifies this, all`heapIndex
      ensures Valid(keys, all) && multiset(items) == old(multiset(items))
      ensures |items| == old(|items|) && items[|items| - 1] == old(items)[i]
      ensures strict ==> Indexed() && Heap(items, keys, |items| - 1)
    {
      var n := |items| - 1;
      if n != i {
        Exchange(i, keys, all, strict);
        Sift(i, n, keys, all, strict);
        assert items[n..][0] == items[n];
      }
    }

    /** heap.Remove takes out one occurrence of the state at position i. */
    method Remove(i: int, ghost keys: Keys, ghost all: set<PeerDialState>, ghost strict: bool)
      returns (x: PeerDialState)
      requires Valid(keys, all) && 0 <= i < |items|
      requires strict ==> Indexed() && Heap(items, keys, |items|)
      modifies this, all`heapIndex
      ensures Valid(keys, all) && x == old(items)[i] && x.heapIndex == -1
      ensures old(multiset(items)) == multiset(items) + multiset{x}
      ensures strict ==> Indexed() && Heap(items, keys, |items|)
    {
      ghost var before := items;
      Park(i, keys, all, strict);
      CutLast(before, items, i);
      x := PopLast(keys, all, strict);
    }

    /** heap.Fix after the key of the state at position i changed. */
    method Fix(i: int, ghost keys: Keys, ghost all: set<PeerDialState>, ghost strict: bool)
      requires Valid(keys, all) && 0 <= i < |items|
      requires strict ==> Indexed() && HeapDown(items, keys, i, |items|)
      modifies this, all`heapIndex
      ensures Valid(keys, all) && multiset(items) == old(multiset(items))
      ensures strict ==> Indexed() && Heap(items, keys, |items|)
    {
      Sift(i, |items|, keys, all, strict);
    }
  }
}
