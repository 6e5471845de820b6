/**
The bookkeeping beside the tree, on values: intent counts, the two per-client registries and the
running totals. Each update below is what the code does to them; the lemmas show that they keep
agreeing with the owners and the queues.
*/
module LockBook {
  import opened Paths
  import opened LockSpec
  import opened LockInvariants

  datatype Book = Book(
    locks: LockState,
    intents: map<Path, int>,
    held: map<int, seq<Path>>,     // the nodes each client owns
    pending: map<int, seq<Path>>,  // the nodes each client waits for
    lockTotal: int,
    waiterTotal: int)

  function Entries(lists: map<int, seq<Path>>, fd: int): seq<Path> {
    if fd in lists then lists[fd] else []
  }

  /** One pair for every place in a queue, so its size is the total number of waiters. */
  ghost function Places(s: LockState): set<(Path, int)> {
    set p, i | p in s.queue && 0 <= i < |s.queue[p]| :: (p, i)
  }

  /** `held` and `pending` list exactly the nodes owned and waited for by `fd`, each once. */
  ghost predicate ListedFor(b: Book, fd: int) {
    && ListsOwned(b.locks, Entries(b.held, fd), fd)
    && NoDuplicates(Entries(b.pending, fd))
    && forall p :: p in Entries(b.pending, fd) <==> p in b.locks.queue && fd in b.locks.queue[p]
  }

  ghost predicate Listed(b: Book) {
    forall fd {:trigger ListedFor(b, fd)} :: ListedFor(b, fd)
  }

  ghost predicate CountedAt(b: Book, p: Path, owing: set<Path>)
    requires p in b.intents
  {
    b.intents[p] == |OwnedBelow(b.locks, p)| + if p in owing then 1 else 0
  }

  /** Every count is the number of locks below, with one too many at the nodes in `owing`. */
  ghost predicate Counted(b: Book, owing: set<Path>) {
    && b.intents.Keys == b.locks.queue.Keys
    && forall p {:trigger CountedAt(b, p, owing)} :: p in b.intents ==> CountedAt(b, p, owing)
  }

  ghost predicate Totalled(b: Book) {
    b.lockTotal == |b.locks.owner| && b.waiterTotal == |Places(b.locks)|
  }

  ghost predicate BalancedOwing(b: Book, owing: set<Path>) {
    WellFormed(b.locks) && Counted(b, owing) && Listed(b) && Totalled(b)
  }

  /** Every derived index agrees with the tree. */
  ghost predicate Balanced(b: Book) {
    BalancedOwing(b, {})
  }

  // ---- what the code does to the books ----

  /** Add `delta` to the count of every strict ancestor of `p`. */
  function AdjustAbove(intents: map<Path, int>, p: Path, delta: int): map<Path, int> {
    map q | q in intents :: intents[q] + if Above(q, p) then delta else 0
  }

  function Register(lists: map<int, seq<Path>>, p: Path, fd: int): map<int, seq<Path>> {
    lists[fd := Entries(lists, fd) + [p]]
  }

  function IndexOf<T(==)>(xs: seq<T>, x: T): (i: nat)
    ensures i <= |xs| && (x in xs ==> i < |xs| && xs[i] == x)
    ensures x !in xs ==> i == |xs|
  {
    if xs == [] || xs[0] == x then 0 else 1 + IndexOf(xs[1..], x)
  }

  /** The last entry takes the place of entry `i`. */
  function SwapRemove<T>(xs: seq<T>, i: nat): seq<T>
    requires i < |xs|
  {
    xs[i := xs[|xs| - 1]][..|xs| - 1]
  }

  function Unregister(lists: map<int, seq<Path>>, p: Path, fd: int): map<int, seq<Path>> {
    if fd in lists && p in lists[fd] then lists[fd := SwapRemove(lists[fd], IndexOf(lists[fd], p))] else lists
  }

  function GrowBook(b: Book, p: Path): Book {
    b.(locks := Grow(b.locks, p),
       intents := map q | q in b.intents.Keys + Prefixes(p) :: if q in b.intents then b.intents[q] else 0)
  }

  function TakeBook(b: Book, p: Path, fd: int): Book {
    b.(locks := b.locks.(owner := b.locks.owner[p := fd]),
       lockTotal := b.lockTotal + 1,
       held := Register(b.held, p, fd),
       intents := AdjustAbove(b.intents, p, 1))
  }

  function ArriveBook(b: Book, p: Path, fd: int): Book
    requires p in b.locks.queue
  {
    b.(locks := b.locks.(queue := b.locks.queue[p := b.locks.queue[p] + [fd]]),
       waiterTotal := b.waiterTotal + 1,
       pending := Register(b.pending, p, fd))
  }

  /** Unlocking, before the counts above are adjusted. */
  function UnlockBook(b: Book, p: Path, fd: int): Book {
    b.(locks := Unlock(b.locks, p), lockTotal := b.lockTotal - 1, held := Unregister(b.held, p, fd))
  }

  /** Unlocking, with the counts above adjusted. */
  function FreeBook(b: Book, p: Path, fd: int): Book {
    UnlockBook(b, p, fd).(intents := AdjustAbove(b.intents, p, -1))
  }

  function HandBook(b: Book, p: Path): Book
    requires p in b.locks.queue && b.locks.queue[p] != []
  {
    var fd := b.locks.queue[p][0];
    b.(locks := Hand(b.locks, p),
       waiterTotal := b.waiterTotal - 1,
       pending := Unregister(b.pending, p, fd),
       lockTotal := b.lockTotal + 1,
       held := Register(b.held, p, fd),
       intents := AdjustAbove(b.intents, p, 1))
  }

  // ---- lists ----

  lemma SwapRemoveFacts<T>(xs: seq<T>, i: nat)
    requires i < |xs| && NoDuplicates(xs)
    ensures NoDuplicates(SwapRemove(xs, i))
    ensures forall y :: y in SwapRemove(xs, i) <==> y in xs && y != xs[i]
  {
    var ys := SwapRemove(xs, i);
    assert forall k :: 0 <= k < |ys| ==> ys[k] == if k == i then xs[|xs| - 1] else xs[k];
    forall y | y in xs && y != xs[i]
      ensures y in ys
    {
      var k :| 0 <= k < |xs| && xs[k] == y;
      assert k < |xs| - 1 ==> ys[k] == y;
      assert k == |xs| - 1 ==> ys[i] == y;
    }
  }

  lemma RegisterFacts(lists: map<int, seq<Path>>, p: Path, fd: int)
    requires NoDuplicates(Entries(lists, fd)) && p !in Entries(lists, fd)
    ensures var r := Register(lists, p, fd);
            && NoDuplicates(Entries(r, fd))
            && (forall q :: q in Entries(r, fd) <==> q in Entries(lists, fd) || q == p)
            && (forall x :: x != fd ==> Entries(r, x) == Entries(lists, x))
  {
  }

  lemma UnregisterFacts(lists: map<int, seq<Path>>, p: Path, fd: int)
    requires NoDuplicates(Entries(lists, fd))
    ensures var r := Unregister(lists, p, fd);
            && NoDuplicates(Entries(r, fd))
            && (forall q :: q in Entries(r, fd) <==> q in Entries(lists, fd) && q != p)
            && (forall x :: x != fd ==> Entries(r, x) == Entries(lists, x))
  {
    if fd in lists && p in lists[fd] {
      SwapRemoveFacts(lists[fd], IndexOf(lists[fd], p));
    }
  }

  // ---- counts ----

  lemma CountOneMore(s: LockState, t: LockState, p: Path, q: Path)
    requires p !in s.owner && t.owner.Keys == s.owner.Keys + {p}
    ensures |OwnedBelow(t, q)| == |OwnedBelow(s, q)| + if Above(q, p) then 1 else 0
  {
    assert OwnedBelow(t, q) == OwnedBelow(s, q) + if Above(q, p) then {p} else {};
  }

  lemma LocksOneMore(s: LockState, t: LockState, p: Path)
    requires p !in s.owner && t.owner.Keys == s.owner.Keys + {p}
    ensures |t.owner| == |s.owner| + 1
  {
    assert |t.owner.Keys| == |s.owner.Keys| + 1;
  }

  /** Locking `p` and adding one above it keeps the counts, whatever is owed. */
  lemma CountedLock(b: Book, t: Book, p: Path, owing: set<Path>)
    requires Counted(b, owing) && p !in b.locks.owner
    requires t.locks.owner.Keys == b.locks.owner.Keys + {p} && t.locks.queue.Keys == b.locks.queue.Keys
    requires t.intents == AdjustAbove(b.intents, p, 1)
    ensures Counted(t, owing)
  {
    forall q | q in t.intents
      ensures CountedAt(t, q, owing)
    {
      assert CountedAt(b, q, owing);
      CountOneMore(b.locks, t.locks, p, q);
    }
  }

  /** Unlocking `p` leaves exactly its ancestors with one lock too many. */
  lemma CountedUnlock(b: Book, p: Path, fd: int)
    requires Counted(b, {}) && p in b.locks.owner
    ensures Counted(UnlockBook(b, p, fd), set q | q in b.intents && Above(q, p))
  {
    var t := UnlockBook(b, p, fd);
    var owing := set q | q in b.intents && Above(q, p);
    forall q | q in t.intents
      ensures CountedAt(t, q, owing)
    {
      assert CountedAt(b, q, {});
      CountOneMore(t.locks, b.locks, p, q);
    }
  }

  /** Paying back one at `p`. */
  lemma CountedPay(b: Book, p: Path, owing: set<Path>)
    requires Counted(b, owing) && p in owing && p in b.intents
    ensures Counted(b.(intents := b.intents[p := b.intents[p] - 1]), owing - {p})
  {
    var t := b.(intents := b.intents[p := b.intents[p] - 1]);
    forall q | q in t.intents
      ensures CountedAt(t, q, owing - {p})
    {
      assert CountedAt(b, q, owing);
    }
  }

  lemma CountedSame(b: Book, t: Book, owing: set<Path>)
    requires Counted(b, owing) && t.intents == b.intents
    requires t.locks.owner == b.locks.owner && t.locks.queue.Keys == b.locks.queue.Keys
    ensures Counted(t, owing)
  {
    forall q | q in t.intents
      ensures CountedAt(t, q, owing)
    {
      assert CountedAt(b, q, owing);
      assert OwnedBelow(t.locks, q) == OwnedBelow(b.locks, q);
    }
  }

  lemma CountedGrow(b: Book, p: Path)
    requires WellFormed(b.locks) && Counted(b, {})
    ensures Counted(GrowBook(b, p), {})
  {
    var g := GrowBook(b, p);
    forall q | q in g.intents
      ensures CountedAt(g, q, {})
    {
      assert OwnedBelow(g.locks, q) == OwnedBelow(b.locks, q);
      if q in b.intents {
        assert CountedAt(b, q, {});
      } else {
        NothingBelowUnknown(b.locks, q);
      }
    }
  }

  /** Below a path that is no node there is no node, let alone a locked one. */
  lemma NothingBelowUnknown(s: LockState, p: Path)
    requires WellFormed(s) && p !in s.queue
    ensures OwnedBelow(s, p) == {}
  {
    forall q | q in s.owner
      ensures !Above(p, q)
    {
      UnknownAbove(s, p, q);
    }
  }

  lemma {:induction false} UnknownAbove(s: LockState, p: Path, q: Path)
    requires WellFormed(s) && p !in s.queue && q in s.queue
    ensures !Above(p, q)
    decreases |q|
  {
    if q != [] {
      AboveIsUpOrHigher(p, q);
      UnknownAbove(s, p, Up(q));
    }
  }

  /** The walk's test on a count is the grant test. */
  lemma CountTest(b: Book, p: Path, owing: set<Path>)
    requires Counted(b, owing) && p in b.intents && p !in owing
    ensures b.intents[p] >= 0
    ensures b.intents[p] > 0 <==> OwnedBelow(b.locks, p) != {}
  {
    assert CountedAt(b, p, owing);
  }

  // ---- totals ----

  lemma PlacesOneMore(s: LockState, t: LockState, p: Path)
    requires p in s.queue && t.queue.Keys == s.queue.Keys
    requires |t.queue[p]| == |s.queue[p]| + 1
    requires forall q :: q in s.queue && q != p ==> t.queue[q] == s.queue[q]
    ensures |Places(t)| == |Places(s)| + 1
  {
    assert Places(t) == Places(s) + {(p, |s.queue[p]|)};
  }

  /** The queue lengths along a list of nodes, added up. */
  function Lengths(queue: map<Path, seq<int>>, nodes: seq<Path>): nat
    requires forall p :: p in nodes ==> p in queue
  {
    if nodes == [] then 0 else |queue[nodes[0]]| + Lengths(queue, nodes[1..])
  }

  /** Over any list of all nodes, each once, the queue lengths add up to the number of places. */
  lemma {:induction false} PlacesTotal(s: LockState, nodes: seq<Path>)
    requires NoDuplicates(nodes) && forall p :: p in nodes <==> p in s.queue
    ensures |Places(s)| == Lengths(s.queue, nodes)
    decreases |nodes|
  {
    if nodes == [] {
      assert Places(s) == {};
    } else {
      var p, tail := nodes[0], nodes[1..];
      var rest := s.(queue := s.queue - {p});
      PlacesSum(s, p);
      assert nodes == [p] + tail;
      assert p !in tail;
      PlacesTotal(rest, tail);
      LengthsSame(s.queue, rest.queue, tail);
    }
  }

  lemma {:induction false} LengthsSame(queue: map<Path, seq<int>>, other: map<Path, seq<int>>, nodes: seq<Path>)
    requires forall p :: p in nodes ==> p in queue && p in other && queue[p] == other[p]
    ensures Lengths(queue, nodes) == Lengths(other, nodes)
    decreases |nodes|
  {
    if nodes != [] {
      LengthsSame(queue, other, nodes[1..]);
    }
  }

  lemma PlacesSum(s: LockState, p: Path)
    requires p in s.queue
    ensures |Places(s)| == |s.queue[p]| + |Places(s.(queue := s.queue - {p}))|
  {
    var rest := Places(s.(queue := s.queue - {p}));
    var here := set i | 0 <= i < |s.queue[p]| :: (p, i);
    assert Places(s) == here + rest;
    assert here !! rest;
    PlacesHere(p, |s.queue[p]|);
  }

  lemma {:induction false} PlacesHere(p: Path, n: nat)
    ensures |set i | 0 <= i < n :: (p, i)| == n
  {
    if n != 0 {
      PlacesHere(p, n - 1);
      assert (set i | 0 <= i < n :: (p, i)) == (set i | 0 <= i < n - 1 :: (p, i)) + {(p, n - 1)};
    }
  }

  // ---- registries ----

  lemma ListedLock(b: Book, t: Book, p: Path, fd: int)
    requires Listed(b) && p !in b.locks.owner
    requires t.locks.owner == b.locks.owner[p := fd] && t.held == Register(b.held, p, fd)
    ensures forall x :: ListsOwned(t.locks, Entries(t.held, x), x)
  {
    assert ListedFor(b, fd);
    RegisterFacts(b.held, p, fd);
    forall x
      ensures ListsOwned(t.locks, Entries(t.held, x), x)
    {
      assert ListedFor(b, x);
      assert Owned(t.locks, x) == Owned(b.locks, x) + if x == fd then {p} else {};
    }
  }

  lemma ListedUnlock(b: Book, p: Path)
    requires Listed(b) && p in b.locks.owner
    ensures Listed(UnlockBook(b, p, b.locks.owner[p]))
  {
    var fd := b.locks.owner[p];
    var t := UnlockBook(b, p, fd);
    assert ListedFor(b, fd);
    UnregisterFacts(b.held, p, fd);
    forall x
      ensures ListedFor(t, x)
    {
      assert ListedFor(b, x);
      assert Owned(t.locks, x) == Owned(b.locks, x) - if x == fd then {p} else {};
    }
  }

  /** `fd` leaves the front of the queue of `p`. */
  lemma PendingServed(b: Book, t: Book, p: Path)
    requires Listed(b) && p in b.locks.queue && b.locks.queue[p] != [] && NoDuplicates(b.locks.queue[p])
    requires t.locks.queue == b.locks.queue[p := b.locks.queue[p][1..]]
    requires t.pending == Unregister(b.pending, p, b.locks.queue[p][0])
    requires forall x :: ListsOwned(t.locks, Entries(t.held, x), x)
    ensures Listed(t)
  {
    var fd, xs := b.locks.queue[p][0], b.locks.queue[p];
    assert ListedFor(b, fd);
    UnregisterFacts(b.pending, p, fd);
    assert xs == [fd] + xs[1..];
    forall x
      ensures ListedFor(t, x)
    {
      assert ListedFor(b, x);
      assert x in xs[1..] <==> x in xs && x != fd;
    }
  }

  lemma PendingArrived(b: Book, p: Path, fd: int)
    requires Listed(b) && p in b.locks.queue && fd !in b.locks.queue[p]
    ensures Listed(ArriveBook(b, p, fd))
  {
    var t := ArriveBook(b, p, fd);
    assert ListedFor(b, fd);
    RegisterFacts(b.pending, p, fd);
    forall x
      ensures ListedFor(t, x)
    {
      assert ListedFor(b, x);
      assert Owned(t.locks, x) == Owned(b.locks, x);
    }
  }

  // ---- each update keeps the books balanced ----

  lemma GrowBalanced(b: Book, p: Path)
    requires Balanced(b) && NoLostWakeup(b.locks)
    ensures Balanced(GrowBook(b, p))
  {
    var g := GrowBook(b, p);
    GrowSound(b.locks, p);
    CountedGrow(b, p);
    assert Places(g.locks) == Places(b.locks);
    ListedGrow(b, p);
  }

  lemma ListedGrow(b: Book, p: Path)
    requires Listed(b)
    ensures Listed(GrowBook(b, p))
  {
    var g := GrowBook(b, p);
    forall x
      ensures ListedFor(g, x)
    {
      assert ListedFor(b, x);
      assert Owned(g.locks, x) == Owned(b.locks, x);
    }
  }

  lemma TakeBalanced(b: Book, p: Path, fd: int)
    requires Balanced(b) && fd >= 0
    requires p in b.locks.queue && p !in b.locks.owner && b.locks.queue[p] == []
    ensures Balanced(TakeBook(b, p, fd))
  {
    var t := TakeBook(b, p, fd);
    CountedLock(b, t, p, {});
    LocksOneMore(b.locks, t.locks, p);
    assert Places(t.locks) == Places(b.locks);
    ListedTake(b, p, fd);
    TakeWellFormed(b.locks, p, fd);
  }

  lemma TakeWellFormed(s: LockState, p: Path, fd: int)
    requires WellFormed(s) && fd >= 0 && p in s.queue && s.queue[p] == []
    ensures WellFormed(s.(owner := s.owner[p := fd]))
  {
  }

  lemma ListedTake(b: Book, p: Path, fd: int)
    requires Listed(b) && p !in b.locks.owner
    ensures Listed(TakeBook(b, p, fd))
  {
    var t := TakeBook(b, p, fd);
    ListedLock(b, t, p, fd);
    forall x
      ensures ListedFor(t, x)
    {
      assert ListedFor(b, x);
    }
  }

  lemma ArriveBalanced(b: Book, p: Path, fd: int)
    requires Balanced(b) && fd >= 0
    requires p in b.locks.queue && fd !in b.locks.queue[p] && (p in b.locks.owner ==> b.locks.owner[p] != fd)
    ensures Balanced(ArriveBook(b, p, fd))
  {
    var t := ArriveBook(b, p, fd);
    PlacesOneMore(b.locks, t.locks, p);
    PendingArrived(b, p, fd);
    CountedSame(b, t, {});
  }

  lemma UnlockBalanced(b: Book, p: Path)
    requires Balanced(b) && p in b.locks.owner
    ensures BalancedOwing(UnlockBook(b, p, b.locks.owner[p]), set q | q in b.intents && Above(q, p))
  {
    var fd := b.locks.owner[p];
    var t := UnlockBook(b, p, fd);
    CountedUnlock(b, p, fd);
    LocksOneMore(t.locks, b.locks, p);
    assert Places(t.locks) == Places(b.locks);
    ListedUnlock(b, p);
  }

  lemma FreeBalanced(b: Book, p: Path)
    requires Balanced(b) && p in b.locks.owner
    ensures Balanced(FreeBook(b, p, b.locks.owner[p]))
  {
    var fd := b.locks.owner[p];
    UnlockBalanced(b, p);
    var u, t := UnlockBook(b, p, fd), FreeBook(b, p, fd);
    var owing := set q | q in b.intents && Above(q, p);
    forall q | q in t.intents
      ensures CountedAt(t, q, {})
    {
      assert CountedAt(u, q, owing);
    }
    ListedUnlock(b, p);
    forall x
      ensures ListedFor(t, x)
    {
      assert ListedFor(u, x);
    }
  }

  lemma HandBalanced(b: Book, p: Path, owing: set<Path>)
    requires BalancedOwing(b, owing) && Grantable(b.locks, p)
    ensures BalancedOwing(HandBook(b, p), owing)
  {
    OfferGrants(b.locks, p);
    assert HandBook(b, p).locks == Offer(b.locks, p).state;
    CountedLock(b, HandBook(b, p), p, owing);
    TotalledHand(b, HandBook(b, p), p);
    ListedHand(b, p);
  }

  lemma TotalledHand(b: Book, t: Book, p: Path)
    requires Totalled(b) && p in b.locks.queue && b.locks.queue[p] != [] && p !in b.locks.owner
    requires t.locks == Hand(b.locks, p) && t.lockTotal == b.lockTotal + 1 && t.waiterTotal == b.waiterTotal - 1
    ensures Totalled(t)
  {
    hide Places;
    LocksOneMore(b.locks, t.locks, p);
    PlacesOneMore(t.locks, b.locks, p);
  }

  lemma ListedHand(b: Book, p: Path)
    requires Listed(b) && p in b.locks.queue && b.locks.queue[p] != [] && p !in b.locks.owner
    requires NoDuplicates(b.locks.queue[p])
    ensures Listed(HandBook(b, p))
  {
    var t := HandBook(b, p);
    ListedLock(b, t, p, b.locks.queue[p][0]);
    PendingServed(b, t, p);
  }

  /** A client leaves every queue, and its list of pending nodes is dropped. */
  lemma WithdrawBalanced(b: Book, fd: int, total: int)
    requires Balanced(b) && NoLostWakeup(b.locks)
    requires total == |Places(Withdraw(b.locks, fd))|
    ensures Balanced(b.(locks := Withdraw(b.locks, fd), pending := b.pending - {fd}, waiterTotal := total))
  {
    var t := b.(locks := Withdraw(b.locks, fd), pending := b.pending - {fd}, waiterTotal := total);
    WithdrawSound(b.locks, fd);
    CountedSame(b, t, {});
    ListedWithdraw(b, t, fd);
  }

  lemma ListedWithdraw(b: Book, t: Book, fd: int)
    requires Listed(b) && forall p :: p in b.locks.queue ==> NoDuplicates(b.locks.queue[p])
    requires t.locks == Withdraw(b.locks, fd) && t.held == b.held && t.pending == b.pending - {fd}
    ensures Listed(t)
  {
    forall p | p in b.locks.queue
      ensures forall x :: x in t.locks.queue[p] <==> x in b.locks.queue[p] && x != fd
    {
      WithoutFacts(b.locks.queue[p], fd);
    }
    forall x
      ensures ListedFor(t, x)
    {
      assert ListedFor(b, x);
      assert Owned(t.locks, x) == Owned(b.locks, x);
    }
  }

  // ---- with nobody left waiting at a free node ----

  ghost predicate Healthy(b: Book) {
    Balanced(b) && NoLostWakeup(b.locks)
  }

  lemma GrowHealthy(b: Book, p: Path)
    requires Healthy(b)
    ensures Healthy(GrowBook(b, p)) && p in GrowBook(b, p).locks.queue
  {
    GrowBalanced(b, p);
    GrowSound(b.locks, p);
  }

  lemma BlockedStaysBlocked(s: LockState, t: LockState)
    requires NoLostWakeup(s) && s.owner.Keys <= t.owner.Keys
    requires forall p :: p in t.queue && t.queue[p] != [] ==> p in s.queue && (s.queue[p] != [] || !Free(s, p))
    ensures NoLostWakeup(t)
  {
    forall p | p in t.queue
      ensures !Grantable(t, p)
    {
      assert OwnedBelow(s, p) <= OwnedBelow(t, p);
      if t.queue[p] != [] {
        assert !Grantable(s, p);
      }
    }
  }

  lemma TakeHealthy(b: Book, p: Path, fd: int)
    requires Healthy(b) && fd >= 0 && p in b.locks.queue && Free(b.locks, p)
    ensures Healthy(TakeBook(b, p, fd))
  {
    assert !Grantable(b.locks, p);
    TakeBalanced(b, p, fd);
    BlockedStaysBlocked(b.locks, TakeBook(b, p, fd).locks);
  }

  lemma ArriveHealthy(b: Book, p: Path, fd: int)
    requires Healthy(b) && fd >= 0 && p in b.locks.queue && !Free(b.locks, p)
    requires fd !in b.locks.queue[p] && (p in b.locks.owner ==> b.locks.owner[p] != fd)
    ensures Healthy(ArriveBook(b, p, fd))
  {
    ArriveBalanced(b, p, fd);
    BlockedStaysBlocked(b.locks, ArriveBook(b, p, fd).locks);
  }
}
