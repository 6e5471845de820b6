/**
The lock manager on values: who owns which node and who waits where.

There are no intent counts, registries or counters here. Whether a node can be granted is read
off the owned nodes directly; `LockTrie` shows that the counting implementation computes these
functions.
*/
module LockSpec {
  import opened Paths

  const MAX_WAITERS := 4096

  /** The nodes are `queue.Keys`; the locked ones are `owner.Keys`. */
  datatype LockState = LockState(owner: map<Path, int>, queue: map<Path, seq<int>>)

  /** What happens to locks and queues, in order. `Gone(fd)` takes `fd` out of every queue. */
  datatype Event =
    | Taken(path: Path, fd: int)    // granted without waiting
    | Arrived(path: Path, fd: int)  // joined the queue
    | Handed(path: Path, fd: int)   // granted from the queue
    | Dropped(path: Path, fd: int)  // gave the lock up
    | Gone(fd: int)

  datatype Outcome = Outcome(state: LockState, log: seq<Event>, code: int)

  // ---- reading a state ----

  ghost function OwnedBelow(s: LockState, p: Path): set<Path> {
    set q | q in s.owner && Above(p, q)
  }

  /** Neither `p` nor anything below it is locked. */
  ghost predicate Free(s: LockState, p: Path) {
    p !in s.owner && OwnedBelow(s, p) == {}
  }

  ghost predicate Grantable(s: LockState, p: Path) {
    p in s.queue && s.queue[p] != [] && Free(s, p)
  }

  predicate NoDuplicates<T(==)>(xs: seq<T>) {
    forall i, j :: 0 <= i < j < |xs| ==> xs[i] != xs[j]
  }

  ghost predicate WellFormed(s: LockState) {
    && [] in s.queue
    && (forall p {:trigger Up(p)} :: p in s.queue && p != [] ==> Up(p) in s.queue)
    && s.owner.Keys <= s.queue.Keys
    && (forall p :: p in s.queue ==> NoDuplicates(s.queue[p]))
    && (forall p :: p in s.owner ==> s.owner[p] >= 0 && s.owner[p] !in s.queue[p])
    && (forall p, fd :: p in s.queue && fd in s.queue[p] ==> fd >= 0)
  }

  /** A node with waiters is blocked by its own lock or by one below it. */
  ghost predicate NoLostWakeup(s: LockState) {
    forall p :: p in s.queue ==> !Grantable(s, p)
  }

  /** The invariant of every reachable state. */
  ghost predicate Sound(s: LockState) {
    WellFormed(s) && NoLostWakeup(s)
  }

  /** Hierarchical mutual exclusion. */
  ghost predicate Exclusive(s: LockState) {
    forall p, q :: p in s.owner && q in s.owner ==> !Above(p, q)
  }

  ghost predicate AncestorLocked(s: LockState, p: Path) {
    exists a :: a in s.owner && Above(a, p)
  }

  // ---- operations ----

  const Empty := LockState(map[], map[[] := []])

  function Prefixes(p: Path): set<Path> {
    set i | 0 <= i <= |p| :: p[..i]
  }

  /** Create `p` and its missing ancestors. */
  function Grow(s: LockState, p: Path): LockState {
    s.(queue := map q | q in s.queue.Keys + Prefixes(p) :: if q in s.queue then s.queue[q] else [])
  }

  /** Take an existing node, or wait for it. Result codes: 0 granted, 1 queued, -1 denied. */
  ghost function AcquireNode(s: LockState, p: Path, fd: int, wait: bool): Outcome
    requires p in s.queue
  {
    if p in s.owner && s.owner[p] == fd then Outcome(s, [], 0)
    else if Free(s, p) then Outcome(s.(owner := s.owner[p := fd]), [Taken(p, fd)], 0)
    else if !wait then Outcome(s, [], -1)
    else if fd in s.queue[p] then Outcome(s, [], 1)
    else if |s.queue[p]| >= MAX_WAITERS then Outcome(s, [], -1)
    else Outcome(s.(queue := s.queue[p := s.queue[p] + [fd]]), [Arrived(p, fd)], 1)
  }

  /** A locked ancestor denies the request; otherwise the node is created if need be. */
  ghost function Acquire(s: LockState, p: Path, fd: int, wait: bool): Outcome {
    if AncestorLocked(s, p) then Outcome(s, [], -1)
    else
      assert p[..|p|] == p;
      AcquireNode(Grow(s, p), p, fd, wait)
  }

  function Unlock(s: LockState, p: Path): LockState {
    s.(owner := s.owner - {p})
  }

  /** Hand `p` to the head of its queue. */
  function Hand(s: LockState, p: Path): LockState
    requires p in s.queue && s.queue[p] != []
  {
    s.(owner := s.owner[p := s.queue[p][0]], queue := s.queue[p := s.queue[p][1..]])
  }

  /** Hand `p` over if that is possible; the code is the new owner, or -1. */
  ghost function Offer(s: LockState, p: Path): Outcome {
    if Grantable(s, p) then Outcome(Hand(s, p), [Handed(p, s.queue[p][0])], s.queue[p][0])
    else Outcome(s, [], -1)
  }

  /** Offer `p`, then its ancestors from the nearest up, until one of them is handed over. */
  ghost function OfferFirst(s: LockState, p: Path): Outcome
    decreases |p|
  {
    if Grantable(s, p) || p == [] then Offer(s, p) else OfferFirst(s, Up(p))
  }

  ghost function Release(s: LockState, p: Path, fd: int): Outcome {
    if p !in s.owner || s.owner[p] != fd then Outcome(s, [], -1)
    else
      var o := OfferFirst(Unlock(s, p), p);
      Outcome(o.state, [Dropped(p, fd)] + o.log, o.code)
  }

  /** Offer every strict ancestor of `p` in turn, from the nearest up, not stopping at a grant. */
  ghost function OfferAncestors(s: LockState, p: Path): Outcome
    decreases |p|
  {
    if p == [] then Outcome(s, [], -1)
    else
      var o := Offer(s, Up(p));
      var rest := OfferAncestors(o.state, Up(p));
      Outcome(rest.state, o.log + rest.log, -1)
  }

  /** One turn of the disconnect loop: unlock `p`, offer its ancestors, then `p` itself. */
  ghost function Vacate(s: LockState, p: Path, fd: int): Outcome {
    var up := OfferAncestors(Unlock(s, p), p);
    var o := Offer(up.state, p);
    Outcome(o.state, [Dropped(p, fd)] + up.log + o.log, -1)
  }

  ghost function VacateAll(s: LockState, order: seq<Path>, fd: int): Outcome
    decreases |order|
  {
    if order == [] then Outcome(s, [], -1)
    else
      var o := Vacate(s, order[0], fd);
      var rest := VacateAll(o.state, order[1..], fd);
      Outcome(rest.state, o.log + rest.log, -1)
  }

  /** `xs` without its first occurrence of `x`. */
  function Without(xs: seq<int>, x: int): seq<int> {
    if xs == [] then []
    else if xs[0] == x then xs[1..]
    else [xs[0]] + Without(xs[1..], x)
  }

  /** Take `fd` out of every queue. */
  function Withdraw(s: LockState, fd: int): LockState {
    s.(queue := map p | p in s.queue :: Without(s.queue[p], fd))
  }

  function Owned(s: LockState, fd: int): set<Path> {
    set p | p in s.owner && s.owner[p] == fd
  }

  /** `order` lists the nodes that `fd` owns, each once. */
  ghost predicate ListsOwned(s: LockState, order: seq<Path>, fd: int) {
    NoDuplicates(order) && forall p :: p in order <==> p in Owned(s, fd)
  }

  ghost function Disconnect(s: LockState, fd: int, order: seq<Path>): Outcome {
    var o := VacateAll(Withdraw(s, fd), order, fd);
    Outcome(o.state, [Gone(fd)] + o.log, -1)
  }
}
