/** What one operation does for whom, said without reference to how the operations are defined. */
module LockOutcomes {
  import opened Common
  import opened Paths
  import opened LockSpec
  import opened LockInvariants
  import opened LockExclusion

  // ---- reading a state ----

  predicate Owns(s: LockState, p: Path, fd: int) {
    p in s.owner && s.owner[p] == fd
  }

  /** The queue at `p`; a node that does not exist has none. */
  function QueueAt(s: LockState, p: Path): seq<int> {
    if p in s.queue then s.queue[p] else []
  }

  ghost predicate SameQueues(s: LockState, t: LockState) {
    forall q :: QueueAt(t, q) == QueueAt(s, q)
  }

  /** Somebody else holds `p`, or anybody holds something below it. */
  ghost predicate Blocked(s: LockState, p: Path, fd: int) {
    !Owns(s, p, fd) && (p in s.owner || exists q :: q in s.owner && Above(p, q))
  }

  predicate Full(s: LockState, p: Path) {
    |QueueAt(s, p)| >= 4096
  }

  lemma GrowKeepsQueues(s: LockState, p: Path)
    ensures forall q :: QueueAt(Grow(s, p), q) == QueueAt(s, q)
    ensures Grow(s, p).owner == s.owner && p in Grow(s, p).queue
  {
    assert p[..|p|] == p;
  }

  lemma BlockedExactly(s: LockState, p: Path, fd: int)
    ensures Blocked(s, p, fd) <==> !Owns(s, p, fd) && !Free(Grow(s, p), p)
  {
    assert OwnedBelow(Grow(s, p), p) == OwnedBelow(s, p);
    if q :| q in s.owner && Above(p, q) {
      assert q in OwnedBelow(s, p);
    }
    if OwnedBelow(s, p) != {} {
      var q :| q in OwnedBelow(s, p);
    }
  }

  // ---- acquire ----

  /** Which answer an acquire gets: 0 granted, 1 queued, -1 denied. */
  lemma AcquireCode(s: LockState, p: Path, fd: int, wait: bool)
    requires Sound(s)
    ensures var code := Acquire(s, p, fd, wait).code;
            && (code == 0 <==> !AncestorLocked(s, p) && !Blocked(s, p, fd))
            && (code == 1 <==> wait && !AncestorLocked(s, p) && Blocked(s, p, fd) && (fd in QueueAt(s, p) || !Full(s, p)))
            && (code == -1 <==> AncestorLocked(s, p)
                                || (Blocked(s, p, fd) && (!wait || (fd !in QueueAt(s, p) && Full(s, p)))))
  {
    GrowKeepsQueues(s, p);
    BlockedExactly(s, p, fd);
    hide Grow, Free, Blocked;
  }

  /** Who owns what afterwards: at most `p` changes hands, from nobody to `fd`, and exactly when granted. */
  lemma AcquireOwners(s: LockState, p: Path, fd: int, wait: bool)
    requires Sound(s)
    ensures var o := Acquire(s, p, fd, wait);
            && (forall q, c :: q != p ==> (Owns(o.state, q, c) <==> Owns(s, q, c)))
            && (forall c :: c != fd ==> (Owns(o.state, p, c) <==> Owns(s, p, c)))
            && (o.code == 0 <==> !AncestorLocked(s, p) && Owns(o.state, p, fd))
            && (Owns(o.state, p, fd) <==> o.code == 0 || Owns(s, p, fd))
            && (Taken(p, fd) in o.log <==> Owns(o.state, p, fd) && !Owns(s, p, fd))
  {
    AcquireCode(s, p, fd, wait);
    GrowKeepsQueues(s, p);
    BlockedExactly(s, p, fd);
    hide Grow, Blocked, QueueAt;
  }

  /** Who waits where afterwards: only `fd` can join, only at the end of the queue of `p`, and only by asking to wait. */
  lemma AcquireQueues(s: LockState, p: Path, fd: int, wait: bool)
    requires Sound(s)
    ensures var o := Acquire(s, p, fd, wait);
            && (forall q :: q != p ==> QueueAt(o.state, q) == QueueAt(s, q))
            && QueueAt(o.state, p)
               == (if o.code == 1 && fd !in QueueAt(s, p) then QueueAt(s, p) + [fd] else QueueAt(s, p))
            && (!wait ==> o.code != 1 && SameQueues(s, o.state) && forall e :: e in o.log ==> !e.Arrived?)
            && (o.code == 1 <==> wait && !AncestorLocked(s, p) && fd in QueueAt(o.state, p))
            && (Arrived(p, fd) in o.log <==> fd in QueueAt(o.state, p) && fd !in QueueAt(s, p))
  {
    AcquireCode(s, p, fd, wait);
    GrowKeepsQueues(s, p);
    BlockedExactly(s, p, fd);
    NotGrantableWaits(s, p, fd);
    hide Grow, Blocked, AncestorLocked;
  }

  /** In a sound state whoever waits at a node is blocked there. */
  lemma NotGrantableWaits(s: LockState, p: Path, fd: int)
    requires Sound(s)
    ensures fd in QueueAt(s, p) ==> Blocked(s, p, fd)
  {
    if fd in QueueAt(s, p) {
      assert !Grantable(s, p);
      if p !in s.owner {
        var q :| q in OwnedBelow(s, p);
      }
    }
  }

  /** The nodes there are afterwards: `p` and its ancestors exist unless an ancestor is locked. */
  lemma AcquireNodes(s: LockState, p: Path, fd: int, wait: bool)
    ensures forall q :: q in Acquire(s, p, fd, wait).state.queue
              <==> q in s.queue || (!AncestorLocked(s, p) && (q == p || Above(q, p)))
  {
    assert p[..|p|] == p;
    forall q
      ensures q in Prefixes(p) <==> q == p || Above(q, p)
    {
      if q == p || Above(q, p) {
        assert p[..|q|] == q;
      }
    }
    assert p in Grow(s, p).queue;
    hide AncestorLocked, Free;
  }

  /** A request for a node with no lock above, at or below it is always granted. */
  lemma UnlockedIsGranted(s: LockState, p: Path, fd: int, wait: bool)
    requires Sound(s)
    requires forall q :: q in s.owner ==> q != p && !Above(q, p) && !Above(p, q)
    ensures Acquire(s, p, fd, wait).code == 0 && Owns(Acquire(s, p, fd, wait).state, p, fd)
  {
    AcquireCode(s, p, fd, wait);
    AcquireOwners(s, p, fd, wait);
  }

  // ---- release ----

  /** Only the owner can release: for anybody else nothing changes and the answer is -1. */
  lemma ReleaseByOthers(s: LockState, p: Path, fd: int)
    requires !Owns(s, p, fd)
    ensures Release(s, p, fd) == Outcome(s, [], -1)
  {
  }

  /** `a` would be granted next if `p` were given up, and nothing nearer to `p` would. */
  ghost predicate NextInLine(s: LockState, p: Path, a: Path) {
    && (a == p || Above(a, p)) && Grantable(Unlock(s, p), a)
    && forall b :: (b == p || Above(b, p)) && Grantable(Unlock(s, p), b) ==> b == a || Above(b, a)
  }

  lemma {:induction false} OfferFirstNearest(s: LockState, p: Path)
    ensures if exists a :: (a == p || Above(a, p)) && Grantable(s, a) then
              exists a :: (a == p || Above(a, p)) && Grantable(s, a)
                          && (forall b :: (b == p || Above(b, p)) && Grantable(s, b) ==> b == a || Above(b, a))
                          && OfferFirst(s, p) == Outcome(Hand(s, a), [Handed(a, s.queue[a][0])], s.queue[a][0])
            else OfferFirst(s, p) == Outcome(s, [], -1)
    decreases |p|
  {
    if !Grantable(s, p) && p != [] {
      OfferFirstNearest(s, Up(p));
      forall b
        ensures Above(b, p) <==> b == Up(p) || Above(b, Up(p))
      {
        AboveIsUpOrHigher(b, p);
      }
    }
  }

  /** An owner's release: `p` is free, and the nearest waiting node that can be granted goes to its first waiter. */
  lemma ReleaseByOwner(s: LockState, p: Path, fd: int)
    requires WellFormed(s) && Owns(s, p, fd)
    ensures var t, o := Unlock(s, p), Release(s, p, fd);
            if exists a :: NextInLine(s, p, a) then
              exists a :: NextInLine(s, p, a) && o.state == Hand(t, a) && o.code == s.queue[a][0]
                          && o.log == [Dropped(p, fd), Handed(a, s.queue[a][0])]
            else o == Outcome(t, [Dropped(p, fd)], -1)
  {
    var t := Unlock(s, p);
    OfferFirstNearest(t, p);
    if exists a :: (a == p || Above(a, p)) && Grantable(t, a) {
      var a :| (a == p || Above(a, p)) && Grantable(t, a)
               && (forall b :: (b == p || Above(b, p)) && Grantable(t, b) ==> b == a || Above(b, a))
               && OfferFirst(t, p) == Outcome(Hand(t, a), [Handed(a, t.queue[a][0])], t.queue[a][0]);
      assert NextInLine(s, p, a);
    }
  }

  /** Whatever is released by whom, nobody else loses a lock, and only the answered client gains one. */
  lemma ReleaseKeepsOthers(s: LockState, p: Path, fd: int)
    requires WellFormed(s)
    ensures var o := Release(s, p, fd);
            && (forall q, c :: Owns(s, q, c) && (q != p || c != fd) ==> Owns(o.state, q, c))
            && (Owns(s, p, fd) ==> !Owns(o.state, p, fd))
            && (forall q, c :: Owns(o.state, q, c) && !Owns(s, q, c) ==> c == o.code && QueueAt(s, q) != [] && QueueAt(s, q)[0] == c)
            && (o.code == -1 <==> forall q, c :: Owns(o.state, q, c) ==> Owns(s, q, c))
            && (forall q, r, c, d :: Owns(o.state, q, c) && !Owns(s, q, c) && Owns(o.state, r, d) && !Owns(s, r, d) ==> q == r)
  {
    if !Owns(s, p, fd) {
      ReleaseByOthers(s, p, fd);
    } else {
      ReleaseByOwner(s, p, fd);
      if exists a :: NextInLine(s, p, a) {
        var a :| NextInLine(s, p, a) && Release(s, p, fd).state == Hand(Unlock(s, p), a)
                 && Release(s, p, fd).code == s.queue[a][0];
        HandedOver(s, p, fd, a);
      }
    }
  }

  lemma HandedOver(s: LockState, p: Path, fd: int, a: Path)
    requires WellFormed(s) && Owns(s, p, fd) && Grantable(Unlock(s, p), a)
    ensures var t, c := Hand(Unlock(s, p), a), s.queue[a][0];
            && c >= 0 && Owns(t, a, c) && !Owns(s, a, c) && (a == p ==> c != fd)
            && forall q, d :: q != a ==> (Owns(t, q, d) <==> Owns(s, q, d) && q != p)
  {
    var c := s.queue[a][0];
    assert c in s.queue[a];
  }

  /** Queues after a release: the granted client leaves its queue, nothing else moves. */
  lemma ReleaseQueues(s: LockState, p: Path, fd: int)
    requires WellFormed(s)
    ensures var o := Release(s, p, fd);
            && o.state.queue.Keys == s.queue.Keys
            && forall q :: q in s.queue ==>
                 if q in o.state.owner && (q !in s.owner || o.state.owner[q] != s.owner[q]) then
                   s.queue[q] == [o.code] + o.state.queue[q]
                 else o.state.queue[q] == s.queue[q]
  {
    if !Owns(s, p, fd) {
      ReleaseByOthers(s, p, fd);
    } else {
      ReleaseByOwner(s, p, fd);
      if exists a :: NextInLine(s, p, a) {
        var a :| NextInLine(s, p, a) && Release(s, p, fd).state == Hand(Unlock(s, p), a)
                 && Release(s, p, fd).code == s.queue[a][0];
        hide Release, WellFormed;
        HandedQueues(s, p, fd, a);
      }
    }
  }

  lemma HandedQueues(s: LockState, p: Path, fd: int, a: Path)
    requires WellFormed(s) && Owns(s, p, fd) && Grantable(Unlock(s, p), a)
    ensures var t := Hand(Unlock(s, p), a);
            && t.queue.Keys == s.queue.Keys
            && s.queue[a] == [s.queue[a][0]] + t.queue[a]
            && (forall q :: q in s.queue && q != a ==> t.queue[q] == s.queue[q])
            && forall q :: q in t.owner && (q !in s.owner || t.owner[q] != s.owner[q]) <==> q == a
  {
    HandedOver(s, p, fd, a);
    hide WellFormed, Grantable;
    var t, xs := Hand(Unlock(s, p), a), s.queue[a];
    assert xs == [xs[0]] + xs[1..];
  }

  // ---- disconnect ----

  /** The state with every trace of `fd` taken out and nobody else touched. */
  function Cleared(s: LockState, fd: int): LockState {
    s.(owner := map p | p in s.owner && s.owner[p] != fd :: s.owner[p],
       queue := map p | p in s.queue :: Without(s.queue[p], fd))
  }

  function Others(s: LockState, fd: int): LockState {
    s.(owner := map p | p in s.owner && s.owner[p] != fd :: s.owner[p])
  }

  lemma VacateOthers(s: LockState, p: Path, fd: int)
    requires Sound(s) && NotWaiting(s, fd) && Owns(s, p, fd)
    ensures GrantsOnly(Others(s, fd), Others(Vacate(s, p, fd).state, fd))
  {
    VacateSound(s, p, fd);
    var x, t := Unlock(s, p), Vacate(s, p, fd).state;
    assert Others(x, fd).owner == Others(s, fd).owner;
    forall q | q in t.owner && q !in x.owner
      ensures t.owner[q] != fd
    {
      assert t.owner[q] == s.queue[q][0] && s.queue[q][0] in s.queue[q];
    }
  }

  lemma {:induction false} VacateAllOthers(s: LockState, order: seq<Path>, fd: int)
    requires Sound(s) && NotWaiting(s, fd) && ListsOwned(s, order, fd)
    ensures GrantsOnly(Others(s, fd), VacateAll(s, order, fd).state)
    decreases |order|
  {
    if order == [] {
      assert Owned(s, fd) == {} by {
        assert forall p :: p in Owned(s, fd) ==> p in order;
      }
      assert forall p :: p in s.owner && s.owner[p] == fd ==> p in Owned(s, fd);
      assert Others(s, fd).owner == s.owner;
    } else {
      var p := order[0];
      assert p in order;
      var t := Vacate(s, p, fd).state;
      VacateOthers(s, p, fd);
      VacateSound(s, p, fd);
      VacateShrinks(s, p, fd);
      ListsOwnedTail(s, t, order, fd);
      VacateAllOthers(t, order[1..], fd);
      GrantsOnlyTransitive(Others(s, fd), Others(t, fd), VacateAll(s, order, fd).state);
    }
  }

  /**
  After a disconnect the others own what they owned and wait where they waited, except that some
  nodes have gone to the first of their waiters, and no waiter is left at a node that could be granted.
  */
  lemma DisconnectOutcome(s: LockState, fd: int, order: seq<Path>)
    requires Sound(s) && ListsOwned(s, order, fd)
    ensures GrantsOnly(Cleared(s, fd), Disconnect(s, fd, order).state)
    ensures NoLostWakeup(Disconnect(s, fd, order).state)
  {
    WithdrawSound(s, fd);
    var w := Withdraw(s, fd);
    assert Owned(w, fd) == Owned(s, fd);
    VacateAllOthers(w, order, fd);
    assert Others(w, fd) == Cleared(s, fd);
    VacateAllSound(w, order, fd);
  }
}
