/** What every single operation keeps. */
module LockInvariants {
  import opened Paths
  import opened LockSpec

  // ---- handing over ----

  /** `t` comes from `s` by handing some unlocked nodes to the heads of their queues. */
  ghost predicate GrantsOnly(s: LockState, t: LockState) {
    && t.queue.Keys == s.queue.Keys
    && s.owner.Keys <= t.owner.Keys
    && (forall q :: q in s.owner ==> t.owner[q] == s.owner[q])
    && (forall q :: q in t.owner && q !in s.owner ==>
          q in s.queue && s.queue[q] != [] && t.owner[q] == s.queue[q][0] && t.queue[q] == s.queue[q][1..])
    && (forall q :: q in s.queue && (q in s.owner || q !in t.owner) ==> t.queue[q] == s.queue[q])
  }

  lemma OfferGrants(s: LockState, a: Path)
    requires WellFormed(s)
    ensures GrantsOnly(s, Offer(s, a).state)
    ensures WellFormed(Offer(s, a).state)
    ensures forall q :: Grantable(Offer(s, a).state, q) ==> Grantable(s, q) && q != a
    ensures Grantable(s, a) ==> forall q :: Grantable(Offer(s, a).state, q) ==> !Above(q, a)
  {
    if Grantable(s, a) {
      var t := Hand(s, a);
      var xs := s.queue[a];
      assert xs == [xs[0]] + xs[1..];
      assert xs[0] in xs;
      assert forall x :: x in xs[1..] ==> x in xs;
      assert NoDuplicates(xs[1..]);
      assert xs[0] !in xs[1..];
      forall q | Grantable(t, q)
        ensures Grantable(s, q) && q != a && !Above(q, a)
      {
        assert OwnedBelow(s, q) <= OwnedBelow(t, q);
        assert Above(q, a) ==> a in OwnedBelow(t, q);
      }
    }
  }

  lemma GrantsOnlyTransitive(s: LockState, t: LockState, u: LockState)
    requires GrantsOnly(s, t) && GrantsOnly(t, u)
    ensures GrantsOnly(s, u)
  {
  }

  /** Unlocking can only make `p` and its ancestors grantable. */
  lemma UnlockExposes(s: LockState, p: Path)
    requires Sound(s)
    ensures WellFormed(Unlock(s, p))
    ensures forall q :: Grantable(Unlock(s, p), q) ==> q == p || Above(q, p)
  {
    var t := Unlock(s, p);
    forall q | Grantable(t, q) && q != p && !Above(q, p)
      ensures false
    {
      assert OwnedBelow(s, q) == OwnedBelow(t, q);
      assert Grantable(s, q);
    }
  }

  lemma {:induction false} OfferFirstSound(s: LockState, p: Path)
    requires WellFormed(s)
    requires forall q :: Grantable(s, q) ==> q == p || Above(q, p)
    ensures Sound(OfferFirst(s, p).state)
    ensures GrantsOnly(s, OfferFirst(s, p).state)
    decreases |p|
  {
    OfferGrants(s, p);
    if !Grantable(s, p) && p != [] {
      forall q | Grantable(s, q)
        ensures q == Up(p) || Above(q, Up(p))
      {
        AboveIsUpOrHigher(q, p);
      }
      OfferFirstSound(s, Up(p));
    }
  }

  lemma {:induction false} OfferAncestorsSound(s: LockState, p: Path, x: Path)
    requires WellFormed(s)
    requires forall q :: Grantable(s, q) ==> q == x || Above(q, p)
    ensures WellFormed(OfferAncestors(s, p).state)
    ensures forall q :: Grantable(OfferAncestors(s, p).state, q) ==> q == x
    ensures GrantsOnly(s, OfferAncestors(s, p).state)
    decreases |p|
  {
    if p != [] {
      var o := Offer(s, Up(p));
      OfferGrants(s, Up(p));
      forall q | Grantable(o.state, q)
        ensures q == x || Above(q, Up(p))
      {
        AboveIsUpOrHigher(q, p);
      }
      OfferAncestorsSound(o.state, Up(p), x);
      GrantsOnlyTransitive(s, o.state, OfferAncestors(o.state, Up(p)).state);
    }
  }

  // ---- acquire and release ----

  lemma GrowSound(s: LockState, p: Path)
    requires Sound(s)
    ensures Sound(Grow(s, p))
    ensures p in Grow(s, p).queue
    ensures forall q :: q in Grow(s, p).queue ==> (q in s.queue || (q !in s.owner && Grow(s, p).queue[q] == []))
  {
    var g := Grow(s, p);
    assert p == p[..|p|];
    assert p in Prefixes(p);
    forall q | q in g.queue && q != []
      ensures Up(q) in g.queue
    {
      if q !in s.queue {
        var i :| 0 <= i <= |p| && q == p[..i];
        assert Up(q) == p[..i - 1];
      }
    }
    forall q | q in g.queue
      ensures !Grantable(g, q)
    {
      if q in s.queue {
        assert !Grantable(s, q);
        assert OwnedBelow(g, q) == OwnedBelow(s, q);
      }
    }
  }

  lemma AcquireSound(s: LockState, p: Path, fd: int, wait: bool)
    requires Sound(s) && fd >= 0
    ensures Sound(Acquire(s, p, fd, wait).state)
  {
    if !AncestorLocked(s, p) {
      GrowSound(s, p);
      hide Grow;
      AcquireNodeSound(Grow(s, p), p, fd, wait);
    }
  }

  lemma AcquireNodeSound(s: LockState, p: Path, fd: int, wait: bool)
    requires Sound(s) && fd >= 0 && p in s.queue
    ensures Sound(AcquireNode(s, p, fd, wait).state)
  {
    var t := AcquireNode(s, p, fd, wait).state;
    assert OwnedBelow(s, p) <= OwnedBelow(t, p);
    assert !Grantable(s, p);
    forall q | q in t.queue
      ensures !Grantable(t, q)
    {
      assert !Grantable(s, q);
      assert OwnedBelow(s, q) <= OwnedBelow(t, q);
    }
  }

  lemma ReleaseSound(s: LockState, p: Path, fd: int)
    requires Sound(s)
    ensures Sound(Release(s, p, fd).state)
  {
    UnlockExposes(s, p);
    OfferFirstSound(Unlock(s, p), p);
  }

  // ---- disconnect ----

  lemma {:induction false} WithoutFacts(xs: seq<int>, x: int)
    requires NoDuplicates(xs)
    ensures NoDuplicates(Without(xs, x))
    ensures forall y :: y in Without(xs, x) <==> y in xs && y != x
    ensures x !in xs ==> Without(xs, x) == xs
  {
    if xs != [] {
      assert xs == [xs[0]] + xs[1..];
      assert NoDuplicates(xs[1..]);
      WithoutFacts(xs[1..], x);
      assert xs[0] !in xs[1..];
      var w := Without(xs[1..], x);
      if xs[0] != x {
        assert Without(xs, x) == [xs[0]] + w;
        assert xs[0] !in w;
      }
    }
  }

  ghost predicate NotWaiting(s: LockState, fd: int) {
    forall p :: p in s.queue ==> fd !in s.queue[p]
  }

  lemma WithdrawSound(s: LockState, fd: int)
    requires Sound(s)
    ensures Sound(Withdraw(s, fd))
    ensures NotWaiting(Withdraw(s, fd), fd)
  {
    var t := Withdraw(s, fd);
    forall p | p in s.queue
      ensures NoDuplicates(t.queue[p]) && !Grantable(t, p)
      ensures forall y :: y in t.queue[p] <==> y in s.queue[p] && y != fd
    {
      WithoutFacts(s.queue[p], fd);
      assert !Grantable(s, p);
      assert OwnedBelow(s, p) == OwnedBelow(t, p);
    }
  }

  lemma VacateSound(s: LockState, p: Path, fd: int)
    requires Sound(s)
    ensures Sound(Vacate(s, p, fd).state)
    ensures GrantsOnly(Unlock(s, p), Vacate(s, p, fd).state)
  {
    var t := Unlock(s, p);
    UnlockExposes(s, p);
    OfferAncestorsSound(t, p, p);
    var up := OfferAncestors(t, p).state;
    OfferGrants(up, p);
    GrantsOnlyTransitive(t, up, Offer(up, p).state);
  }

  /** Nothing granted while `fd` disconnects goes to `fd`, so its locks go one by one. */
  lemma VacateShrinks(s: LockState, p: Path, fd: int)
    requires Sound(s) && NotWaiting(s, fd)
    ensures NotWaiting(Vacate(s, p, fd).state, fd)
    ensures Owned(Vacate(s, p, fd).state, fd) == Owned(s, fd) - {p}
  {
    VacateSound(s, p, fd);
    var u := Vacate(s, p, fd).state;
    forall q | q in u.queue
      ensures fd !in u.queue[q]
    {
      assert forall x :: x in u.queue[q] ==> x in s.queue[q];
    }
    forall q | q in u.owner && (q !in s.owner || q == p)
      ensures u.owner[q] != fd
    {
      assert s.queue[q][0] in s.queue[q];
    }
  }

  lemma ListsOwnedTail(s: LockState, t: LockState, order: seq<Path>, fd: int)
    requires order != [] && ListsOwned(s, order, fd)
    requires Owned(t, fd) == Owned(s, fd) - {order[0]}
    ensures ListsOwned(t, order[1..], fd)
  {
    assert order == [order[0]] + order[1..];
  }

  lemma {:induction false} VacateAllSound(s: LockState, order: seq<Path>, fd: int)
    requires Sound(s) && NotWaiting(s, fd) && ListsOwned(s, order, fd)
    ensures Sound(VacateAll(s, order, fd).state)
    ensures NotWaiting(VacateAll(s, order, fd).state, fd)
    ensures Owned(VacateAll(s, order, fd).state, fd) == {}
    decreases |order|
  {
    if order == [] {
      assert forall p :: p in Owned(s, fd) ==> p in order;
    } else {
      var t := Vacate(s, order[0], fd).state;
      VacateSound(s, order[0], fd);
      VacateShrinks(s, order[0], fd);
      ListsOwnedTail(s, t, order, fd);
      VacateAllSound(t, order[1..], fd);
    }
  }

  /** A disconnected client owns nothing and waits nowhere, and every lock invariant holds. */
  lemma DisconnectSound(s: LockState, fd: int, order: seq<Path>)
    requires Sound(s) && ListsOwned(s, order, fd)
    ensures Sound(Disconnect(s, fd, order).state)
    ensures NotWaiting(Disconnect(s, fd, order).state, fd)
    ensures Owned(Disconnect(s, fd, order).state, fd) == {}
  {
    WithdrawSound(s, fd);
    assert Owned(Withdraw(s, fd), fd) == Owned(s, fd);
    VacateAllSound(Withdraw(s, fd), order, fd);
  }

  // ---- nobody grants to the client that leaves ----

  predicate GrantsNone(log: seq<Event>, fd: int) {
    forall e :: e in log && e.Handed? ==> e.fd != fd
  }

  lemma OfferToOther(s: LockState, a: Path, fd: int)
    requires NotWaiting(s, fd)
    ensures GrantsNone(Offer(s, a).log, fd) && NotWaiting(Offer(s, a).state, fd)
  {
    if Grantable(s, a) {
      assert s.queue[a][0] in s.queue[a];
      assert forall x :: x in s.queue[a][1..] ==> x in s.queue[a];
    }
  }

  lemma {:induction false} OfferAncestorsToOthers(s: LockState, p: Path, fd: int)
    requires NotWaiting(s, fd)
    ensures GrantsNone(OfferAncestors(s, p).log, fd) && NotWaiting(OfferAncestors(s, p).state, fd)
    decreases |p|
  {
    if p != [] {
      OfferToOther(s, Up(p), fd);
      OfferAncestorsToOthers(Offer(s, Up(p)).state, Up(p), fd);
    }
  }

  lemma VacateToOthers(s: LockState, p: Path, fd: int)
    requires NotWaiting(s, fd)
    ensures GrantsNone(Vacate(s, p, fd).log, fd) && NotWaiting(Vacate(s, p, fd).state, fd)
  {
    OfferAncestorsToOthers(Unlock(s, p), p, fd);
    OfferToOther(OfferAncestors(Unlock(s, p), p).state, p, fd);
  }

  lemma {:induction false} VacateAllToOthers(s: LockState, order: seq<Path>, fd: int)
    requires NotWaiting(s, fd)
    ensures GrantsNone(VacateAll(s, order, fd).log, fd)
    decreases |order|
  {
    if order != [] {
      VacateToOthers(s, order[0], fd);
      VacateAllToOthers(Vacate(s, order[0], fd).state, order[1..], fd);
    }
  }

  /** No lock handed over while a client disconnects goes to that client. */
  lemma DisconnectGrantsToOthers(s: LockState, fd: int, order: seq<Path>)
    requires Sound(s)
    ensures GrantsNone(Disconnect(s, fd, order).log, fd)
  {
    WithdrawSound(s, fd);
    VacateAllToOthers(Withdraw(s, fd), order, fd);
  }
}
