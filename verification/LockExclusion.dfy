/** Hierarchical mutual exclusion: which operations keep it, and exactly when a disconnect does. */
module LockExclusion {
  import opened Paths
  import opened LockSpec
  import opened LockInvariants

  lemma AcquireExclusive(s: LockState, p: Path, fd: int, wait: bool)
    requires Exclusive(s)
    ensures Exclusive(Acquire(s, p, fd, wait).state)
  {
    var g := Grow(s, p);
    assert forall q :: q in g.owner && Above(p, q) ==> q in OwnedBelow(g, p);
  }

  /** A walk from `p` upwards hands over at most one node, on the path from the root to `p`. */
  lemma {:induction false} OfferFirstExact(s: LockState, p: Path)
    ensures OfferFirst(s, p).state == s
            || exists a :: (a == p || Above(a, p)) && Grantable(s, a) && OfferFirst(s, p).state == Hand(s, a)
    decreases |p|
  {
    if !Grantable(s, p) && p != [] {
      OfferFirstExact(s, Up(p));
      forall a | a == Up(p) || Above(a, Up(p))
        ensures Above(a, p)
      {
        AboveIsUpOrHigher(a, p);
      }
    }
  }

  lemma HandExclusive(s: LockState, a: Path)
    requires Exclusive(s) && Grantable(s, a) && !AncestorLocked(s, a)
    ensures Exclusive(Hand(s, a))
  {
    assert forall q :: q in s.owner && Above(a, q) ==> q in OwnedBelow(s, a);
  }

  lemma ReleaseExclusive(s: LockState, p: Path, fd: int)
    requires Exclusive(s)
    ensures Exclusive(Release(s, p, fd).state)
  {
    if p in s.owner && s.owner[p] == fd {
      var t := Unlock(s, p);
      OfferFirstExact(t, p);
      var u := OfferFirst(t, p).state;
      if u != t {
        var a :| (a == p || Above(a, p)) && Grantable(t, a) && u == Hand(t, a);
        forall b | b in t.owner
          ensures !Above(b, a)
        {
          if Above(b, a) && a != p {
            AboveTransitive(b, a, p);
          }
        }
        HandExclusive(t, a);
      }
    }
  }

  // ---- disconnect ----

  /** The walk of one disconnect turn hands over the lowest grantable ancestor, and no other. */
  lemma {:induction false} OfferAncestorsExact(s: LockState, p: Path)
    requires WellFormed(s)
    ensures (forall a :: Above(a, p) ==> !Grantable(s, a)) ==> OfferAncestors(s, p).state == s
    ensures (exists a :: Above(a, p) && Grantable(s, a)) ==>
              exists a :: Above(a, p) && Grantable(s, a) && OfferAncestors(s, p).state == Hand(s, a)
    decreases |p|
  {
    if p != [] {
      var u := Up(p);
      var o := Offer(s, u);
      OfferGrants(s, u);
      OfferAncestorsExact(o.state, u);
      forall a
        ensures Above(a, p) <==> (a == u || Above(a, u))
      {
        AboveIsUpOrHigher(a, p);
      }
    }
  }

  /** Releasing `n` hands `a` and then `n` itself to waiters. */
  ghost predicate Collides(s: LockState, n: Path, a: Path) {
    && Above(a, n)
    && a in s.queue && s.queue[a] != []
    && n in s.queue && s.queue[n] != []
    && OwnedBelow(s, a) == {n}
  }

  lemma UnlockBelow(s: LockState, n: Path)
    requires Exclusive(s) && n in s.owner
    ensures OwnedBelow(Unlock(s, n), n) == {}
    ensures forall a :: Above(a, n) ==> a !in s.owner
    ensures forall a :: Above(a, n) ==> n in OwnedBelow(s, a) && OwnedBelow(Unlock(s, n), a) == OwnedBelow(s, a) - {n}
  {
    assert forall q :: q in s.owner ==> !Above(n, q);
  }

  /** Which ancestors the walk can hand over. */
  lemma GrantableAboveReleased(s: LockState, n: Path, a: Path)
    requires Sound(s) && Exclusive(s) && n in s.owner && Above(a, n)
    ensures Grantable(Unlock(s, n), a) <==> a in s.queue && s.queue[a] != [] && OwnedBelow(s, a) == {n}
  {
    UnlockBelow(s, n);
  }

  /** One turn keeps exclusion unless the node and an ancestor blocked by nothing else both have waiters. */
  lemma VacateExclusive(s: LockState, n: Path, fd: int)
    requires Sound(s) && Exclusive(s) && n in s.owner
    ensures Exclusive(Vacate(s, n, fd).state) <==> !exists a :: Collides(s, n, a)
  {
    var t := Unlock(s, n);
    UnlockExposes(s, n);
    UnlockBelow(s, n);
    OfferAncestorsExact(t, n);
    assert Exclusive(t);
    if a :| Above(a, n) && Grantable(t, a) {
      var b :| Above(b, n) && Grantable(t, b) && OfferAncestors(t, n).state == Hand(t, b);
      GrantableAboveReleased(s, n, b);
      TurnWithAncestorHanded(s, n, fd, b);
      assert s.queue[n] != [] ==> Collides(s, n, b);
    } else {
      forall a
        ensures !Collides(s, n, a)
      {
        if Above(a, n) {
          GrantableAboveReleased(s, n, a);
        }
      }
      if Grantable(t, n) {
        HandExclusive(t, n);
      }
    }
  }

  lemma TurnWithAncestorHanded(s: LockState, n: Path, fd: int, b: Path)
    requires Sound(s) && Exclusive(s) && n in s.owner && Above(b, n)
    requires Grantable(Unlock(s, n), b) && OfferAncestors(Unlock(s, n), n).state == Hand(Unlock(s, n), b)
    ensures Exclusive(Vacate(s, n, fd).state) <==> s.queue[n] == []
  {
    var t := Unlock(s, n);
    var u := Hand(t, b);
    UnlockBelow(s, n);
    NothingLockedAbove(t, b, n);
    HandExclusive(t, b);
    assert OwnedBelow(u, n) == {};
    assert Grantable(u, n) <==> s.queue[n] != [];
    if s.queue[n] != [] {
      var v := Hand(u, n);
      assert b in v.owner && n in v.owner;
    }
  }

  lemma NothingLockedAbove(t: LockState, b: Path, n: Path)
    requires Above(b, n) && forall a :: Above(a, n) ==> a !in t.owner
    ensures !AncestorLocked(t, b)
  {
    forall a | Above(a, b)
      ensures a !in t.owner
    {
      AboveTransitive(a, b, n);
    }
  }

  /**
  Seen from the state before the disconnect loop: `order[i]` and its ancestor `a` have waiters,
  everything locked under `a` is given up by turn `i`, and nobody waits under `a` away from the
  path to `order[i]`.
  */
  ghost predicate CollisionAt(s: LockState, order: seq<Path>, i: nat, a: Path) {
    && i < |order|
    && Above(a, order[i])
    && a in s.queue && s.queue[a] != []
    && order[i] in s.queue && s.queue[order[i]] != []
    && (forall q :: q in OwnedBelow(s, a) ==> q in order[..i + 1])
    && (forall q :: q in s.queue && s.queue[q] != [] && Above(a, q) ==> q == order[i] || Above(q, order[i]))
  }

  ghost predicate Collision(s: LockState, order: seq<Path>) {
    exists i: nat, a :: CollisionAt(s, order, i, a)
  }

  lemma FirstCollision(s: LockState, order: seq<Path>, a: Path)
    requires Sound(s) && order != [] && order[0] in s.owner
    ensures CollisionAt(s, order, 0, a) <==> Collides(s, order[0], a)
  {
    var n := order[0];
    assert order[..1] == [n];
    if Collides(s, n, a) {
      assert n in OwnedBelow(s, a);
      forall q | q in s.queue && s.queue[q] != [] && Above(a, q)
        ensures q == n || Above(q, n)
      {
        assert !Grantable(s, q);
        if q in s.owner {
          assert q in OwnedBelow(s, a);
        } else {
          var r :| r in OwnedBelow(s, q);
          AboveTransitive(a, q, r);
          assert r in OwnedBelow(s, a);
        }
      }
    }
    if CollisionAt(s, order, 0, a) {
      assert n in OwnedBelow(s, a);
      assert OwnedBelow(s, a) == {n};
    }
  }

  /** What a turn does away from the released node: `fd` gains nothing, an emptied queue got its lock. */
  lemma TurnAndOthers(s: LockState, m: Path, fd: int)
    requires Sound(s) && NotWaiting(s, fd)
    ensures var t := Vacate(s, m, fd).state;
            && (forall q :: q in t.owner && t.owner[q] == fd ==> q in s.owner && s.owner[q] == fd && q != m)
            && (forall q :: q in s.owner && q != m ==> q in t.owner && t.owner[q] == s.owner[q])
            && t.queue.Keys == s.queue.Keys
            && (forall q :: q in s.queue && t.queue[q] == [] && s.queue[q] != [] ==> q in t.owner && t.owner[q] != fd)
            && (forall q :: q in s.queue && s.queue[q] == [] ==> t.queue[q] == [])
  {
    VacateSound(s, m, fd);
    VacateShrinks(s, m, fd);
    var t := Vacate(s, m, fd).state;
    forall q | q in t.owner && t.owner[q] == fd
      ensures q in s.owner && s.owner[q] == fd && q != m
    {
      assert q in Owned(t, fd);
    }
    forall q | q in s.queue && s.queue[q] != []
      ensures s.queue[q][0] != fd
    {
      assert s.queue[q][0] in s.queue[q];
    }
  }

  /** A turn that does not collide leaves the later collisions as they were. */
  lemma LaterCollisionBack(s: LockState, order: seq<Path>, fd: int, i: nat, a: Path)
    requires Sound(s) && NotWaiting(s, fd) && ListsOwned(s, order, fd) && order != []
    requires CollisionAt(Vacate(s, order[0], fd).state, order[1..], i, a)
    ensures CollisionAt(s, order, i + 1, a)
  {
    var m := order[0];
    var t := Vacate(s, m, fd).state;
    VacateShrinks(s, m, fd);
    TurnAndOthers(s, m, fd);
    ListsOwnedTail(s, t, order, fd);
    assert order[..i + 2] == [m] + order[1..][..i + 1];
    forall q | q in OwnedBelow(s, a)
      ensures q in order[..i + 2]
    {
      if q != m {
        assert q in OwnedBelow(t, a);
      }
    }
    forall q | q in OwnedBelow(t, a)
      ensures t.owner[q] == fd
    {
      assert q in order[1..][..i + 1];
      assert q in order[1..];
      assert q in Owned(t, fd);
    }
    forall q | q in s.queue && s.queue[q] != [] && Above(a, q)
      ensures t.queue[q] != []
    {
      assert q in t.owner ==> q in OwnedBelow(t, a);
    }
  }

  lemma LaterCollisionForth(s: LockState, order: seq<Path>, fd: int, i: nat, a: Path)
    requires Sound(s) && Exclusive(s) && NotWaiting(s, fd) && ListsOwned(s, order, fd) && order != []
    requires CollisionAt(s, order, i + 1, a)
    ensures CollisionAt(Vacate(s, order[0], fd).state, order[1..], i, a)
  {
    var m, n := order[0], order[i + 1];
    var t := Vacate(s, m, fd).state;
    TurnAndOthers(s, m, fd);
    TurnUnderCollision(s, order, fd, i, a);
    assert order[..i + 2] == [m] + order[1..][..i + 1];
    forall q | q in OwnedBelow(t, a)
      ensures q in order[1..][..i + 1]
    {
      assert q in OwnedBelow(s, a) && q != m;
    }
  }

  /** With a collision still to come at `a`, an earlier turn changes nothing at or under `a` but its own node. */
  lemma TurnUnderCollision(s: LockState, order: seq<Path>, fd: int, i: nat, a: Path)
    requires Sound(s) && Exclusive(s) && NotWaiting(s, fd) && ListsOwned(s, order, fd) && order != []
    requires CollisionAt(s, order, i + 1, a)
    ensures var t := Vacate(s, order[0], fd).state;
            && a in t.queue && order[i + 1] in t.queue
            && t.queue[a] == s.queue[a] && t.queue[order[i + 1]] == s.queue[order[i + 1]]
            && forall q :: q in OwnedBelow(t, a) ==> q in s.owner && q != order[0]
  {
    var m, n := order[0], order[i + 1];
    var t, u := Vacate(s, m, fd).state, Unlock(s, m);
    assert m in order && n in order && m != n;
    if Above(a, m) {
      NoGrantUnderCollision(s, order, fd, i, a);
    } else {
      VacateSound(s, m, fd);
      HandedInTurn(s, m, fd);
      forall q | q == a || Above(a, q)
        ensures q !in t.owner || q in u.owner
      {
        if Above(a, q) && Above(q, m) {
          AboveTransitive(a, q, m);
        }
        assert a == m ==> Above(m, n);
      }
    }
  }

  /** One turn only hands over nodes on the path from the root to the released node. */
  lemma HandedInTurn(s: LockState, m: Path, fd: int)
    requires Sound(s)
    ensures forall q :: q in Vacate(s, m, fd).state.owner && q !in Unlock(s, m).owner ==>
              (q == m || Above(q, m)) && Grantable(Unlock(s, m), q)
  {
    UnlockExposes(s, m);
    OfferAncestorsExact(Unlock(s, m), m);
    OfferAncestorsSound(Unlock(s, m), m, m);
    var t, u := Unlock(s, m), OfferAncestors(Unlock(s, m), m).state;
    assert OwnedBelow(t, m) <= OwnedBelow(u, m);
  }

  lemma NoGrantUnderCollision(s: LockState, order: seq<Path>, fd: int, i: nat, a: Path)
    requires Sound(s) && Exclusive(s) && ListsOwned(s, order, fd) && order != []
    requires CollisionAt(s, order, i + 1, a) && Above(a, order[0])
    ensures Vacate(s, order[0], fd).state == Unlock(s, order[0])
  {
    var m, n := order[0], order[i + 1];
    var t := Unlock(s, m);
    assert m in order && n in order && m != n;
    assert n in t.owner;
    UnlockExposes(s, m);
    OfferAncestorsExact(t, m);
    forall g | Above(g, m)
      ensures !Grantable(t, g)
    {
      if g == a || Above(g, a) {
        if Above(g, a) {
          AboveTransitive(g, a, n);
        }
        assert n in OwnedBelow(t, g);
      } else {
        AncestorsAreLinear(g, a, m);
        if g in s.queue && s.queue[g] != [] && g != n {
          assert n in OwnedBelow(t, g);
        }
      }
    }
    assert s.queue[m] == [];
  }

  /** Once both ends are locked by others, the rest of the loop cannot repair it. */
  lemma {:induction false} ViolationPersists(s: LockState, order: seq<Path>, fd: int)
    requires Sound(s) && NotWaiting(s, fd) && ListsOwned(s, order, fd)
    requires exists p, q :: p in s.owner && q in s.owner && Above(p, q) && s.owner[p] != fd && s.owner[q] != fd
    ensures !Exclusive(VacateAll(s, order, fd).state)
    decreases |order|
  {
    if order != [] {
      var m := order[0];
      var t := Vacate(s, m, fd).state;
      VacateSound(s, m, fd);
      VacateShrinks(s, m, fd);
      ListsOwnedTail(s, t, order, fd);
      var p, q :| p in s.owner && q in s.owner && Above(p, q) && s.owner[p] != fd && s.owner[q] != fd;
      assert m in order;
      assert p in Unlock(s, m).owner && q in Unlock(s, m).owner;
      assert p in t.owner && q in t.owner;
      ViolationPersists(t, order[1..], fd);
    }
  }

  lemma CollidingTurn(s: LockState, order: seq<Path>, fd: int)
    requires Sound(s) && Exclusive(s) && NotWaiting(s, fd) && ListsOwned(s, order, fd) && order != []
    requires !Exclusive(Vacate(s, order[0], fd).state)
    ensures !Exclusive(VacateAll(s, order, fd).state)
  {
    var m := order[0];
    var t := Vacate(s, m, fd).state;
    VacateSound(s, m, fd);
    VacateShrinks(s, m, fd);
    ListsOwnedTail(s, t, order, fd);
    assert m in order;
    var p, q :| p in t.owner && q in t.owner && Above(p, q);
    assert t.owner[p] != fd && t.owner[q] != fd by {
      HandedInTurn(s, m, fd);
      LocksOfOthers(s, order, fd, p, q);
    }
    ViolationPersists(t, order[1..], fd);
  }

  lemma LocksOfOthers(s: LockState, order: seq<Path>, fd: int, p: Path, q: Path)
    requires Sound(s) && Exclusive(s) && NotWaiting(s, fd) && ListsOwned(s, order, fd) && order != []
    requires var t := Vacate(s, order[0], fd).state; p in t.owner && q in t.owner && Above(p, q)
    ensures var t := Vacate(s, order[0], fd).state; t.owner[p] != fd && t.owner[q] != fd
  {
    var m := order[0];
    var u, t := Unlock(s, m), Vacate(s, m, fd).state;
    VacateShrinks(s, m, fd);
    HandedInTurn(s, m, fd);
    assert m in order;
    TurnAndOthers(s, m, fd);
    if q !in u.owner && q != m {
      AboveTransitive(p, q, m);
    }
    assert p !in u.owner && q in u.owner ==> q in OwnedBelow(u, p);
  }

  lemma {:induction false} VacateAllExclusive(s: LockState, order: seq<Path>, fd: int)
    requires Sound(s) && Exclusive(s) && NotWaiting(s, fd) && ListsOwned(s, order, fd)
    ensures Exclusive(VacateAll(s, order, fd).state) <==> !Collision(s, order)
    decreases |order|
  {
    if order != [] {
      var m := order[0];
      var t := Vacate(s, m, fd).state;
      assert m in order;
      VacateExclusive(s, m, fd);
      forall a
        ensures CollisionAt(s, order, 0, a) <==> Collides(s, m, a)
      {
        FirstCollision(s, order, a);
      }
      if Exclusive(t) {
        VacateSound(s, m, fd);
        VacateShrinks(s, m, fd);
        ListsOwnedTail(s, t, order, fd);
        VacateAllExclusive(t, order[1..], fd);
        forall i: nat, a
          ensures CollisionAt(s, order, i + 1, a) <==> CollisionAt(t, order[1..], i, a)
        {
          if CollisionAt(s, order, i + 1, a) {
            LaterCollisionForth(s, order, fd, i, a);
          }
          if CollisionAt(t, order[1..], i, a) {
            LaterCollisionBack(s, order, fd, i, a);
          }
        }
        CollisionsOfTail(s, t, order);
      } else {
        CollidingTurn(s, order, fd);
        var a :| Collides(s, m, a);
        assert CollisionAt(s, order, 0, a);
      }
    }
  }

  lemma CollisionsOfTail(s: LockState, t: LockState, order: seq<Path>)
    requires order != []
    requires forall a :: !CollisionAt(s, order, 0, a)
    requires forall i: nat, a :: CollisionAt(s, order, i + 1, a) <==> CollisionAt(t, order[1..], i, a)
    ensures Collision(s, order) <==> Collision(t, order[1..])
  {
    if i: nat, a: Path :| CollisionAt(s, order, i, a) {
      assert i != 0;
      var k: nat := i - 1;
      assert CollisionAt(t, order[1..], k, a);
    }
    if i: nat, a: Path :| CollisionAt(t, order[1..], i, a) {
      assert CollisionAt(s, order, i + 1, a);
    }
  }

  /** A disconnect keeps exclusion exactly when the state before it holds no collision. */
  lemma DisconnectExclusive(s: LockState, fd: int, order: seq<Path>)
    requires Sound(s) && Exclusive(s) && ListsOwned(s, order, fd)
    ensures Exclusive(Disconnect(s, fd, order).state) <==> !Collision(Withdraw(s, fd), order)
  {
    WithdrawSound(s, fd);
    assert Owned(Withdraw(s, fd), fd) == Owned(s, fd);
    VacateAllExclusive(Withdraw(s, fd), order, fd);
  }
}
