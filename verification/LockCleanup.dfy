/** What a disconnect does, turn by turn, on values: queues left, locks released, clients told. */
module LockCleanup {
  import opened Common
  import opened Paths
  import opened PathText
  import opened LockSpec
  import opened LockInvariants
  import opened LockBook

  // ---- what clients are told ----

  const PATH_BUFFER: nat := 4096

  /** The callback for a grant made while the node `self` is being released. */
  function NoticeOf(e: Event, self: Path): seq<(int, string)> {
    if !e.Handed? then []
    else if |Print(e.path)| < PATH_BUFFER then [(e.fd, Print(e.path))]
    else if e.path == self then [(e.fd, "<unknown>")]
    else []
  }

  function WakeOf(e: Event): seq<(int, string)> {
    if e.Handed? then [(e.fd, if |Print(e.path)| < PATH_BUFFER then Print(e.path) else "<truncated>")] else []
  }

  function Notices(log: seq<Event>, self: Path): seq<(int, string)>
    decreases |log|
  {
    if log == [] then [] else Notices(log[..|log| - 1], self) + NoticeOf(log[|log| - 1], self)
  }

  function Wakes(log: seq<Event>): seq<(int, string)>
    decreases |log|
  {
    if log == [] then [] else Wakes(log[..|log| - 1]) + WakeOf(log[|log| - 1])
  }

  /** The wakeup array holds the first `cap` entries. */
  function Capped<T>(xs: seq<T>, cap: nat): seq<T> {
    if |xs| <= cap then xs else xs[..cap]
  }

  lemma NoNotices(self: Path, allWakes: seq<(int, string)>, cap: nat)
    ensures Notices([], self) == [] && Capped(allWakes + Wakes([]), cap) == Capped(allWakes, cap)
  {
    assert allWakes + [] == allWakes;
  }

  lemma NoticesOfOne(e: Event, self: Path)
    requires !e.Handed?
    ensures Notices([e], self) == [] && Wakes([e]) == []
  {
    assert [e][..0] == [];
  }

  lemma OneMoreNotice(log: seq<Event>, s: LockState, p: Path, self: Path, allWakes: seq<(int, string)>, cap: nat)
    ensures var more := log + Offer(s, p).log;
            && (!Grantable(s, p) ==> Notices(more, self) == Notices(log, self) && Wakes(more) == Wakes(log))
            && (Grantable(s, p) ==>
                  var e := Handed(p, Offer(s, p).code);
                  && Notices(more, self) == Notices(log, self) + NoticeOf(e, self)
                  && Capped(allWakes + Wakes(more), cap) ==
                       if |Capped(allWakes + Wakes(log), cap)| < cap
                       then Capped(allWakes + Wakes(log), cap) + WakeOf(e) else Capped(allWakes + Wakes(log), cap))
  {
    var more := log + Offer(s, p).log;
    if Grantable(s, p) {
      var e := Handed(p, Offer(s, p).code);
      assert more[..|more| - 1] == log && more[|more| - 1] == e;
      assert allWakes + (Wakes(log) + WakeOf(e)) == (allWakes + Wakes(log)) + WakeOf(e);
    } else {
      assert more == log;
    }
  }

  lemma NoticesAppend(a: seq<Event>, b: seq<Event>, self: Path)
    ensures Notices(a + b, self) == Notices(a, self) + Notices(b, self)
    ensures Wakes(a + b) == Wakes(a) + Wakes(b)
  {
    CallsAppend(a, b, self);
    WakesAppend(a, b);
  }

  lemma {:induction false} CallsAppend(a: seq<Event>, b: seq<Event>, self: Path)
    ensures Notices(a + b, self) == Notices(a, self) + Notices(b, self)
    decreases |b|
  {
    hide NoticeOf;
    if b == [] {
      assert a + b == a;
    } else {
      var k, ab := |b| - 1, a + b;
      assert ab[..|ab| - 1] == a + b[..k] && ab[|ab| - 1] == b[k];
      CallsAppend(a, b[..k], self);
      Associative(Notices(a, self), Notices(b[..k], self), NoticeOf(b[k], self));
    }
  }

  lemma {:induction false} WakesAppend(a: seq<Event>, b: seq<Event>)
    ensures Wakes(a + b) == Wakes(a) + Wakes(b)
    decreases |b|
  {
    hide WakeOf;
    if b == [] {
      assert a + b == a;
    } else {
      var k, ab := |b| - 1, a + b;
      assert ab[..|ab| - 1] == a + b[..k] && ab[|ab| - 1] == b[k];
      WakesAppend(a, b[..k]);
      Associative(Wakes(a), Wakes(b[..k]), WakeOf(b[k]));
    }
  }

  // ---- one turn of a disconnect ----

  ghost function AncestorsIn(tree: set<Path>, p: Path): set<Path> {
    set q | q in tree && Above(q, p)
  }

  lemma VacateStart(b: Book, p: Path, fd: int)
    requires Healthy(b) && p in b.locks.owner && b.locks.owner[p] == fd && NotWaiting(b.locks, fd)
    requires |Entries(b.held, fd)| > 0 && Entries(b.held, fd)[0] == p
    ensures var u := UnlockBook(b, p, fd);
            && BalancedOwing(u, AncestorsIn(b.intents.Keys, p))
            && u.locks == Unlock(b.locks, p) && u.intents == b.intents
            && NotWaiting(u.locks, fd)
            && Entries(u.held, fd) == SwapRemove(Entries(b.held, fd), 0)
  {
    UnlockBalanced(b, p);
    assert AncestorsIn(b.intents.Keys, p) == set q | q in b.intents && Above(q, p);
    assert Entries(b.held, fd)[0] in Entries(b.held, fd);
    assert IndexOf(Entries(b.held, fd), p) == 0;
  }

  /** Lowering the count of the parent of `cur` moves the debt one level up. */
  lemma PayBack(b: Book, cur: Path, keys: set<Path>)
    requires BalancedOwing(b, AncestorsIn(keys, cur)) && keys == b.intents.Keys
    requires cur != [] && Up(cur) in keys
    ensures var p := Up(cur);
            && BalancedOwing(b.(intents := b.intents[p := b.intents[p] - 1]), AncestorsIn(keys, p))
            && p !in AncestorsIn(keys, p)
  {
    var p := Up(cur);
    var owing := AncestorsIn(keys, cur);
    assert p in owing;
    CountedPay(b, p, owing);
    forall q
      ensures q in owing - {p} <==> q in AncestorsIn(keys, p)
    {
      AboveIsUpOrHigher(q, cur);
    }
    assert owing - {p} == AncestorsIn(keys, p);
    var t := b.(intents := b.intents[p := b.intents[p] - 1]);
    forall x
      ensures ListedFor(t, x)
    {
      assert ListedFor(b, x);
    }
  }

  lemma OfferAncestorsStep(s: LockState, cur: Path, log: seq<Event>)
    requires cur != []
    ensures var o := Offer(s, Up(cur));
            && OfferAncestors(s, cur).state == OfferAncestors(o.state, Up(cur)).state
            && log + OfferAncestors(s, cur).log == (log + o.log) + OfferAncestors(o.state, Up(cur)).log
    ensures |Up(cur)| < |cur|
  {
    hide Offer, Above;
    var o := Offer(s, Up(cur));
    Associative(log, o.log, OfferAncestors(o.state, Up(cur)).log);
  }

  /** A grant to someone else leaves the leaver's own list and its absence from queues alone. */
  lemma OfferToOthers(b: Book, p: Path, fd: int)
    requires NotWaiting(b.locks, fd)
    ensures Grantable(b.locks, p) ==>
              var t := HandBook(b, p);
              && NotWaiting(t.locks, fd) && Entries(t.held, fd) == Entries(b.held, fd)
              && t.locks == Offer(b.locks, p).state && t.intents.Keys == b.intents.Keys
    ensures !Grantable(b.locks, p) ==> Offer(b.locks, p).state == b.locks
  {
    if Grantable(b.locks, p) {
      var xs := b.locks.queue[p];
      assert xs[0] in xs;
      assert forall x :: x in xs[1..] ==> x in xs;
    }
  }

  lemma VacateEnd(t: LockState, p: Path, s: LockState, log: seq<Event>, keys: set<Path>)
    requires OfferAncestors(t, p).state == OfferAncestors(s, []).state
    requires OfferAncestors(t, p).log == log + OfferAncestors(s, []).log
    ensures OfferAncestors(t, p).state == s && OfferAncestors(t, p).log == log
    ensures AncestorsIn(keys, []) == {}
  {
    assert log + [] == log;
  }

  lemma VacateLog(s0: LockState, p: Path, fd: int, log: seq<Event>, s: LockState, allWakes: seq<(int, string)>)
    requires OfferAncestors(Unlock(s0, p), p).state == s && OfferAncestors(Unlock(s0, p), p).log == log
    ensures var o := Vacate(s0, p, fd);
            && o.state == Offer(s, p).state
            && Notices(o.log, p) == Notices(log + Offer(s, p).log, p)
            && allWakes + Wakes(o.log) == allWakes + Wakes(log + Offer(s, p).log)
  {
    hide Offer, OfferAncestors, NoticeOf, WakeOf;
    var d, rest := [Dropped(p, fd)], log + Offer(s, p).log;
    Associative(d, log, Offer(s, p).log);
    assert Vacate(s0, p, fd).log == d + rest;
    NoticesAppend(d, rest, p);
    NoticesOfOne(d[0], p);
  }

  lemma VacateKeepsSound(s: LockState, p: Path, fd: int)
    requires Sound(s)
    ensures NoLostWakeup(Vacate(s, p, fd).state)
  {
    VacateSound(s, p, fd);
  }

  // ---- the whole disconnect ----

  /** The order in which the swap-removing loop empties a list. */
  function Drain<T>(xs: seq<T>): seq<T>
    decreases |xs|
  {
    if xs == [] then [] else [xs[0]] + Drain(SwapRemove(xs, 0))
  }

  function Reverse<T>(xs: seq<T>): seq<T>
    decreases |xs|
  {
    if xs == [] then [] else [xs[|xs| - 1]] + Reverse(xs[..|xs| - 1])
  }

  lemma SwapRemoveFirst<T>(xs: seq<T>)
    requires |xs| >= 2
    ensures SwapRemove(xs, 0) == [xs[|xs| - 1]] + xs[1..|xs| - 1]
    ensures xs[1..][|xs| - 2] == xs[|xs| - 1] && xs[1..][..|xs| - 2] == xs[1..|xs| - 1]
    ensures SwapRemove(xs, 0)[1..] == xs[1..|xs| - 1]
  {
  }

  /** That order is the first entry and then the others from the back. */
  lemma {:induction false} DrainOrder<T>(xs: seq<T>)
    requires xs != []
    ensures Drain(xs) == [xs[0]] + Reverse(xs[1..])
    decreases |xs|
  {
    var k := |xs| - 1;
    var ys, rest := SwapRemove(xs, 0), xs[1..];
    assert |rest| == k == |ys|;
    if k == 0 {
      assert ys == [] && rest == [];
    } else {
      SwapRemoveFirst(xs);
      DrainOrder(ys);
      assert Reverse(rest) == [rest[k - 1]] + Reverse(rest[..k - 1]);
    }
  }

  lemma {:induction false} DrainFacts<T>(xs: seq<T>)
    requires NoDuplicates(xs)
    ensures NoDuplicates(Drain(xs))
    ensures forall x :: x in Drain(xs) <==> x in xs
    decreases |xs|
  {
    if xs != [] {
      SwapRemoveFacts(xs, 0);
      var rest := Drain(SwapRemove(xs, 0));
      DrainFacts(SwapRemove(xs, 0));
      assert Drain(xs) == [xs[0]] + rest && xs[0] !in rest;
    }
  }

  lemma DrainListsOwned(b: Book, fd: int)
    requires Healthy(b)
    ensures ListsOwned(b.locks, Drain(Entries(b.held, fd)), fd)
  {
    assert ListedFor(b, fd);
    DrainFacts(Entries(b.held, fd));
  }

  /** The callbacks of the whole loop. */
  ghost function VacateNotices(s: LockState, order: seq<Path>, fd: int): seq<(int, string)>
    decreases |order|
  {
    if order == [] then []
    else
      var o := Vacate(s, order[0], fd);
      Notices(o.log, order[0]) + VacateNotices(o.state, order[1..], fd)
  }

  /** With paths that fit the buffers, the callbacks are the grants of the disconnect, in order. */
  lemma {:induction false} NoticesAreGrants(s: LockState, order: seq<Path>, fd: int)
    requires Sound(s) && NotWaiting(s, fd) && ListsOwned(s, order, fd)
    requires forall p :: p in s.queue ==> |Print(p)| < PATH_BUFFER
    ensures VacateNotices(s, order, fd) == Wakes(VacateAll(s, order, fd).log)
    decreases |order|
  {
    if order != [] {
      var p, o := order[0], Vacate(s, order[0], fd);
      VacateSound(s, p, fd);
      VacateShrinks(s, p, fd);
      ListsOwnedTail(s, o.state, order, fd);
      NoticesAreGrants(o.state, order[1..], fd);
      VacateLogFits(s, p, fd);
      NoticesFit(o.log, p);
      WakesAppend(o.log, VacateAll(o.state, order[1..], fd).log);
    }
  }

  ghost predicate LogFits(log: seq<Event>) {
    forall e :: e in log && e.Handed? ==> |Print(e.path)| < PATH_BUFFER
  }

  lemma {:induction false} NoticesFit(log: seq<Event>, self: Path)
    requires LogFits(log)
    ensures Notices(log, self) == Wakes(log)
    decreases |log|
  {
    if log != [] {
      assert log[|log| - 1] in log;
      NoticesFit(log[..|log| - 1], self);
    }
  }

  lemma VacateLogFits(s: LockState, p: Path, fd: int)
    requires WellFormed(s) && forall q :: q in s.queue ==> |Print(q)| < PATH_BUFFER
    ensures LogFits(Vacate(s, p, fd).log)
  {
    OfferAncestorsFits(Unlock(s, p), p);
  }

  lemma {:induction false} OfferAncestorsFits(s: LockState, p: Path)
    requires forall q :: q in s.queue ==> |Print(q)| < PATH_BUFFER
    ensures LogFits(OfferAncestors(s, p).log)
    ensures OfferAncestors(s, p).state.queue.Keys == s.queue.Keys
    decreases |p|
  {
    if p != [] {
      OfferAncestorsFits(Offer(s, Up(p)).state, Up(p));
    }
  }

  lemma CleanupStart(s: LockState, fd: int, cap: nat, list: seq<Path>)
    requires Sound(s)
    ensures NotWaiting(Withdraw(s, fd), fd)
    ensures VacateAll(Withdraw(s, fd), Drain(list), fd).log == [] + VacateAll(Withdraw(s, fd), Drain(list), fd).log
    ensures VacateNotices(Withdraw(s, fd), Drain(list), fd) == [] + VacateNotices(Withdraw(s, fd), Drain(list), fd)
    ensures [] == Capped(Wakes([]), cap)
  {
    WithdrawSound(s, fd);
    hide Withdraw, WellFormed, NoLostWakeup, VacateAll, VacateNotices, Drain;
  }

  lemma DrainStep(s: LockState, entries: seq<Path>, fd: int, log: seq<Event>, calls: seq<(int, string)>)
    requires entries != []
    ensures var o, rest := Vacate(s, entries[0], fd), Drain(SwapRemove(entries, 0));
            && VacateAll(s, Drain(entries), fd).state == VacateAll(o.state, rest, fd).state
            && log + VacateAll(s, Drain(entries), fd).log == (log + o.log) + VacateAll(o.state, rest, fd).log
            && calls + VacateNotices(s, Drain(entries), fd) ==
                 (calls + Notices(o.log, entries[0])) + VacateNotices(o.state, rest, fd)
            && Wakes(log + o.log) == Wakes(log) + Wakes(o.log)
            && |SwapRemove(entries, 0)| < |entries|
  {
    hide Vacate, Notices, Wakes;
    var order, o, rest := Drain(entries), Vacate(s, entries[0], fd), Drain(SwapRemove(entries, 0));
    assert order[0] == entries[0] && order[1..] == rest;
    Associative(log, o.log, VacateAll(o.state, rest, fd).log);
    Associative(calls, Notices(o.log, entries[0]), VacateNotices(o.state, rest, fd));
    NoticesAppend(log, o.log, entries[0]);
  }

  lemma CleanupEnd(s0: LockState, s: LockState, t: LockState, list: seq<Path>, fd: int,
                   log: seq<Event>, calls: seq<(int, string)>)
    requires s == Withdraw(s0, fd)
    requires VacateAll(s, Drain(list), fd).state == VacateAll(t, Drain([]), fd).state
    requires VacateAll(s, Drain(list), fd).log == log + VacateAll(t, Drain([]), fd).log
    requires VacateNotices(s, Drain(list), fd) == calls + VacateNotices(t, Drain([]), fd)
    ensures var o := Disconnect(s0, fd, Drain(list));
            o.state == t && Wakes(o.log) == Wakes(log)
    ensures VacateNotices(s, Drain(list), fd) == calls
  {
    var empty: seq<Path> := [];
    assert Drain(empty) == [];
    assert VacateAll(s, Drain(list), fd).log == log;
    assert calls + [] == calls;
    NoticesAppend([Gone(fd)], log, []);
    NoticesOfOne(Gone(fd), []);
  }

  lemma DropEmptyList(b: Book, fd: int)
    requires Healthy(b) && |Entries(b.held, fd)| == 0
    ensures BalancedOwing(b.(held := b.held - {fd}), {})
  {
    var t := b.(held := b.held - {fd});
    CountedSame(b, t, {});
    forall x
      ensures ListedFor(t, x)
    {
      assert ListedFor(b, x);
    }
  }

  // ---- leaving the queues one by one ----

  lemma {:induction false} WithoutIs(xs: seq<int>, x: int, j: nat)
    requires j < |xs| && xs[j] == x && x !in xs[..j]
    ensures Without(xs, x) == xs[..j] + xs[j + 1..]
  {
    if j != 0 {
      assert xs[0] == xs[..j][0];
      assert xs[1..][..j - 1] == xs[..j][1..];
      WithoutIs(xs[1..], x, j - 1);
      assert xs[..j] == [xs[0]] + xs[1..][..j - 1];
      assert xs[1..][j..] == xs[j + 1..];
    }
  }

  lemma {:induction false} WithoutAbsent(xs: seq<int>, x: int)
    requires x !in xs[..|xs|]
    ensures Without(xs, x) == xs
  {
    assert xs[..|xs|] == xs;
    if xs != [] {
      assert xs == [xs[0]] + xs[1..];
      assert xs[1..][..|xs| - 1] == xs[1..];
      WithoutAbsent(xs[1..], x);
    }
  }

  ghost function LeaveEach(queues: map<Path, seq<int>>, fd: int, paths: seq<Path>): map<Path, seq<int>>
    decreases |paths|
  {
    if paths == [] then queues
    else
      var before, p := LeaveEach(queues, fd, paths[..|paths| - 1]), paths[|paths| - 1];
      if p in before then before[p := Without(before[p], fd)] else before
  }

  lemma LeaveStart(b: Book, fd: int, paths: seq<Path>)
    requires Healthy(b)
    ensures LeaveEach(b.locks.queue, fd, paths[..0]) == b.locks.queue
    ensures b.waiterTotal == |Places(LockState(b.locks.owner, b.locks.queue))|
  {
    assert LockState(b.locks.owner, b.locks.queue) == b.locks;
  }

  lemma {:induction false} LeaveKeys(queues: map<Path, seq<int>>, fd: int, paths: seq<Path>)
    ensures LeaveEach(queues, fd, paths).Keys == queues.Keys
    decreases |paths|
  {
    if paths != [] {
      LeaveKeys(queues, fd, paths[..|paths| - 1]);
    }
  }

  lemma LeaveMore(b: Book, fd: int, paths: seq<Path>, i: nat)
    requires Healthy(b) && paths == Entries(b.pending, fd) && i < |paths|
    ensures var before, p := LeaveEach(b.locks.queue, fd, paths[..i]), paths[i];
            && p in before
            && LeaveEach(b.locks.queue, fd, paths[..i + 1]) == before[p := Without(before[p], fd)]
            && |Places(LockState(b.locks.owner, before[p := Without(before[p], fd)]))| ==
                 |Places(LockState(b.locks.owner, before))| + |Without(before[p], fd)| - |before[p]|
  {
    var before, p := LeaveEach(b.locks.queue, fd, paths[..i]), paths[i];
    LeaveKeys(b.locks.queue, fd, paths[..i]);
    assert ListedFor(b, fd);
    assert p in Entries(b.pending, fd);
    assert paths[..i + 1][..i] == paths[..i];
    PlacesChange(LockState(b.locks.owner, before), p, Without(before[p], fd));
  }

  lemma PlacesChange(s: LockState, p: Path, fds: seq<int>)
    requires p in s.queue
    ensures |Places(LockState(s.owner, s.queue[p := fds]))| == |Places(s)| + |fds| - |s.queue[p]|
  {
    var t := LockState(s.owner, s.queue[p := fds]);
    PlacesSum(s, p);
    PlacesSum(t, p);
    assert t.queue - {p} == s.queue - {p};
  }

  lemma {:induction false} LeaveAt(queues: map<Path, seq<int>>, fd: int, paths: seq<Path>, p: Path)
    requires NoDuplicates(paths) && p in queues
    ensures p in LeaveEach(queues, fd, paths)
    ensures LeaveEach(queues, fd, paths)[p] == if p in paths then Without(queues[p], fd) else queues[p]
    decreases |paths|
  {
    LeaveKeys(queues, fd, paths);
    if paths != [] {
      var k := |paths| - 1;
      assert paths == paths[..k] + [paths[k]];
      LeaveAt(queues, fd, paths[..k], p);
      if p == paths[k] {
        assert p !in paths[..k];
      }
    }
  }

  /** Leaving the queues on one's list is leaving every queue. */
  lemma LeaveDone(b: Book, fd: int, paths: seq<Path>, total: int)
    requires Healthy(b) && paths == Entries(b.pending, fd)
    requires total == |Places(LockState(b.locks.owner, LeaveEach(b.locks.queue, fd, paths[..|paths|])))|
    ensures LockState(b.locks.owner, LeaveEach(b.locks.queue, fd, paths[..|paths|])) == Withdraw(b.locks, fd)
    ensures BalancedOwing(Book(Withdraw(b.locks, fd), b.intents, b.held, b.pending - {fd}, b.lockTotal, total), {})
    ensures NoLostWakeup(Withdraw(b.locks, fd))
  {
    assert paths[..|paths|] == paths;
    LeaveKeys(b.locks.queue, fd, paths);
    assert ListedFor(b, fd);
    forall p | p in b.locks.queue
      ensures LeaveEach(b.locks.queue, fd, paths)[p] == Without(b.locks.queue[p], fd)
    {
      LeaveAt(b.locks.queue, fd, paths, p);
      WithoutFacts(b.locks.queue[p], fd);
    }
    assert LeaveEach(b.locks.queue, fd, paths) == Withdraw(b.locks, fd).queue;
    WithdrawSound(b.locks, fd);
    WithdrawBalanced(b, fd, total);
  }

  // ---- the fields of an updated book ----

  lemma HandBookIs(b: Book, p: Path)
    requires p in b.locks.queue && b.locks.queue[p] != []
    ensures var fds := b.locks.queue[p];
            HandBook(b, p) ==
              Book(LockState(b.locks.owner[p := fds[0]], b.locks.queue[p := fds[1..]]), AdjustAbove(b.intents, p, 1),
                   Register(b.held, p, fds[0]), Unregister(b.pending, p, fds[0]),
                   b.lockTotal + 1, b.waiterTotal + |fds[1..]| - |fds|)
  {
  }

  lemma FreeBookIs(b: Book, p: Path, fd: int)
    ensures FreeBook(b, p, fd) ==
              Book(LockState(b.locks.owner - {p}, b.locks.queue), AdjustAbove(b.intents, p, -1),
                   Unregister(b.held, p, fd), b.pending, b.lockTotal - 1, b.waiterTotal)
  {
  }

  // ---- parts of a release ----

  lemma ReleaseParts(b: Book, p: Path, fd: int)
    requires Healthy(b) && p in b.locks.owner && b.locks.owner[p] == fd
    ensures BalancedOwing(FreeBook(b, p, fd), {})
    ensures var o := OfferFirst(FreeBook(b, p, fd).locks, p);
            && Release(b.locks, p, fd).state == o.state && Release(b.locks, p, fd).code == o.code
            && NoLostWakeup(o.state)
  {
    FreeBalanced(b, p);
    ReleaseSound(b.locks, p, fd);
  }

  lemma OfferFirstSteps(s: LockState, p: Path)
    ensures Grantable(s, p) ==> OfferFirst(s, p) == Offer(s, p)
    ensures !Grantable(s, p) && p == [] ==> OfferFirst(s, p) == Outcome(s, [], -1)
    ensures !Grantable(s, p) && p != [] ==> OfferFirst(s, p) == OfferFirst(s, Up(p))
  {
  }
}
