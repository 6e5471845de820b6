/** Runs: any sequence of client requests and disconnects, from the empty trie. */
module LockRuns {
  import opened Common
  import opened Paths
  import opened LockSpec
  import opened LockInvariants
  import opened LockExclusion

  datatype Step =
    | AcquireStep(path: Path, fd: int, wait: bool)
    | ReleaseStep(path: Path, fd: int)
    | ConfigStep(path: Path)                      // writing a setting creates its node
    | DisconnectStep(fd: int, order: seq<Path>)

  ghost predicate Enabled(s: LockState, step: Step) {
    match step
    case AcquireStep(_, fd, _) => fd >= 0
    case ReleaseStep(_, _) => true
    case ConfigStep(_) => true
    case DisconnectStep(fd, order) => ListsOwned(s, order, fd)
  }

  ghost function Next(s: LockState, step: Step): Outcome {
    match step
    case AcquireStep(p, fd, wait) => Acquire(s, p, fd, wait)
    case ReleaseStep(p, fd) => Release(s, p, fd)
    case ConfigStep(p) => Outcome(Grow(s, p), [], 0)
    case DisconnectStep(fd, order) => Disconnect(s, fd, order)
  }

  /** The state after `steps`, with everything that happened on the way. */
  ghost function After(steps: seq<Step>): Outcome
    decreases |steps|
  {
    if steps == [] then Outcome(Empty, [], 0)
    else
      var before := After(steps[..|steps| - 1]);
      var o := Next(before.state, steps[|steps| - 1]);
      Outcome(o.state, before.log + o.log, o.code)
  }

  ghost predicate Legal(steps: seq<Step>)
    decreases |steps|
  {
    steps == [] ||
    (Legal(steps[..|steps| - 1]) && Enabled(After(steps[..|steps| - 1]).state, steps[|steps| - 1]))
  }

  lemma NextSound(s: LockState, step: Step)
    requires Sound(s) && Enabled(s, step)
    ensures Sound(Next(s, step).state)
  {
    match step
    case AcquireStep(p, fd, wait) => AcquireSound(s, p, fd, wait);
    case ReleaseStep(p, fd) => ReleaseSound(s, p, fd);
    case ConfigStep(p) => GrowSound(s, p);
    case DisconnectStep(fd, order) => DisconnectSound(s, fd, order);
  }

  /** In every reachable state nobody waits at a node that could be granted. */
  lemma {:induction false} RunSound(steps: seq<Step>)
    requires Legal(steps)
    ensures Sound(After(steps).state)
    decreases |steps|
  {
    if steps != [] {
      var before := steps[..|steps| - 1];
      RunSound(before);
      NextSound(After(before).state, steps[|steps| - 1]);
    }
  }

  // ---- exclusion ----

  ghost predicate StepCollides(s: LockState, step: Step) {
    step.DisconnectStep? && Collision(Withdraw(s, step.fd), step.order)
  }

  lemma NextExclusive(s: LockState, step: Step)
    requires Sound(s) && Exclusive(s) && Enabled(s, step)
    ensures Exclusive(Next(s, step).state) <==> !StepCollides(s, step)
  {
    match step
    case AcquireStep(p, fd, wait) => AcquireExclusive(s, p, fd, wait);
    case ReleaseStep(p, fd) => ReleaseExclusive(s, p, fd);
    case ConfigStep(p) =>
    case DisconnectStep(fd, order) => DisconnectExclusive(s, fd, order);
  }

  ghost predicate ExclusiveAt(steps: seq<Step>, n: nat)
    requires n <= |steps|
  {
    Exclusive(After(steps[..n]).state)
  }

  ghost predicate CollidesAt(steps: seq<Step>, n: nat)
    requires n < |steps|
  {
    StepCollides(After(steps[..n]).state, steps[n])
  }

  lemma {:induction false} LegalPrefix(steps: seq<Step>, n: nat)
    requires Legal(steps) && n <= |steps|
    ensures Legal(steps[..n])
    decreases |steps|
  {
    if n == |steps| {
      assert steps[..n] == steps;
    } else {
      LegalPrefix(steps[..|steps| - 1], n);
      assert steps[..|steps| - 1][..n] == steps[..n];
    }
  }

  lemma ExclusiveNext(steps: seq<Step>, n: nat)
    requires Legal(steps) && n < |steps| && ExclusiveAt(steps, n)
    ensures ExclusiveAt(steps, n + 1) <==> !CollidesAt(steps, n)
  {
    LegalPrefix(steps, n);
    LegalPrefix(steps, n + 1);
    RunSound(steps[..n]);
    assert steps[..n + 1][..n] == steps[..n];
    NextExclusive(After(steps[..n]).state, steps[n]);
  }

  /** If a property starts out true and each step keeps it unless the step is bad, it always holds iff no step is bad. */
  lemma {:induction false} FirstFailure(holds: seq<bool>, bad: seq<bool>)
    requires |holds| == |bad| + 1 && holds[0]
    requires forall n :: 0 <= n < |bad| && holds[n] ==> (holds[n + 1] <==> !bad[n])
    ensures (forall n :: 0 <= n < |holds| ==> holds[n]) <==> (forall n :: 0 <= n < |bad| ==> !bad[n])
  {
    var k := |bad|;
    if k != 0 {
      FirstFailure(holds[..k], bad[..k - 1]);
      assert forall n :: 0 <= n < k ==> holds[..k][n] == holds[n];
      assert forall n :: 0 <= n < k - 1 ==> bad[..k - 1][n] == bad[n];
      assert holds[k - 1] ==> (holds[k] <==> !bad[k - 1]);
      if forall n :: 0 <= n < k ==> holds[n] {
        assert holds[k - 1];
      } else {
        var n :| 0 <= n < k && !holds[n];
        assert !holds[..k][n];
        var m :| 0 <= m < k - 1 && bad[..k - 1][m];
        assert bad[m];
      }
    }
  }

  lemma ExclusiveStart(steps: seq<Step>)
    ensures ExclusiveAt(steps, 0)
  {
    assert steps[..0] == [];
  }

  /** Exclusion holds all along a run exactly when no disconnect in it starts from a collision. */
  lemma RunExclusive(steps: seq<Step>)
    requires Legal(steps)
    ensures (forall n :: 0 <= n <= |steps| ==> ExclusiveAt(steps, n)) <==>
            (forall n :: 0 <= n < |steps| ==> !CollidesAt(steps, n))
  {
    hide Legal, ExclusiveAt, CollidesAt;
    ExclusiveStart(steps);
    var holds := seq(|steps| + 1, n requires 0 <= n <= |steps| => ExclusiveAt(steps, n));
    var bad := seq(|steps|, n requires 0 <= n < |steps| => CollidesAt(steps, n));
    assert holds[0];
    forall n | 0 <= n < |steps| && holds[n]
      ensures holds[n + 1] <==> !bad[n]
    {
      ExclusiveNext(steps, n);
    }
    FirstFailure(holds, bad);
    assert forall n :: 0 <= n <= |steps| ==> holds[n] == ExclusiveAt(steps, n);
    assert forall n :: 0 <= n < |steps| ==> bad[n] == CollidesAt(steps, n);
  }

  /** Without disconnects exclusion always holds. */
  lemma RunWithoutDisconnects(steps: seq<Step>)
    requires Legal(steps)
    requires forall step :: step in steps ==> !step.DisconnectStep?
    ensures Exclusive(After(steps).state)
  {
    RunExclusive(steps);
    assert steps[..|steps|] == steps;
    assert ExclusiveAt(steps, |steps|);
  }

  // ---- history ----

  /** The queue of `p` as its history tells it: arrivals in order, served from the front, leavers taken out. */
  function QueueOf(log: seq<Event>, p: Path): seq<int>
    decreases |log|
  {
    if log == [] then []
    else QueueStep(QueueOf(log[..|log| - 1], p), log[|log| - 1], p)
  }

  function QueueStep(queue: seq<int>, e: Event, p: Path): seq<int> {
    match e
    case Arrived(q, fd) => if q == p then queue + [fd] else queue
    case Handed(q, _) => if q == p && queue != [] then queue[1..] else queue
    case Gone(fd) => Without(queue, fd)
    case _ => queue
  }

  /** The owner of `p` as its history tells it. */
  function OwnerOf(log: seq<Event>, p: Path): Option<int>
    decreases |log|
  {
    if log == [] then None
    else OwnerStep(OwnerOf(log[..|log| - 1], p), log[|log| - 1], p)
  }

  function OwnerStep(owner: Option<int>, e: Event, p: Path): Option<int> {
    match e
    case Taken(q, fd) => if q == p then Some(fd) else owner
    case Handed(q, fd) => if q == p then Some(fd) else owner
    case Dropped(q, _) => if q == p then None else owner
    case _ => owner
  }

  /** `e` is fair at `p` after a history that leaves `queue` and `owner`. */
  predicate Fair(queue: seq<int>, owner: Option<int>, e: Event, p: Path) {
    match e
    case Taken(q, fd) => q == p ==> queue == [] && owner == None
    case Arrived(q, fd) => q == p ==> fd !in queue && owner != Some(fd)
    case Handed(q, fd) => q == p ==> queue != [] && fd == queue[0] && owner == None
    case Dropped(q, fd) => q == p ==> owner == Some(fd)
    case Gone(fd) => true
  }

  predicate FairHistory(log: seq<Event>, p: Path)
    decreases |log|
  {
    log == [] ||
    (FairHistory(log[..|log| - 1], p) &&
     Fair(QueueOf(log[..|log| - 1], p), OwnerOf(log[..|log| - 1], p), log[|log| - 1], p))
  }

  /** `log` explains `s`. */
  ghost predicate Explains(log: seq<Event>, s: LockState) {
    forall p :: ExplainsAt(log, s, p)
  }

  ghost predicate ExplainsAt(log: seq<Event>, s: LockState, p: Path) {
    && (if p in s.queue then s.queue[p] == QueueOf(log, p) else QueueOf(log, p) == [])
    && (if p in s.owner then OwnerOf(log, p) == Some(s.owner[p]) else OwnerOf(log, p) == None)
    && FairHistory(log, p)
  }

  lemma OneMore(log: seq<Event>, e: Event, p: Path)
    ensures QueueOf(log + [e], p) == QueueStep(QueueOf(log, p), e, p)
    ensures OwnerOf(log + [e], p) == OwnerStep(OwnerOf(log, p), e, p)
    ensures FairHistory(log + [e], p) <==> FairHistory(log, p) && Fair(QueueOf(log, p), OwnerOf(log, p), e, p)
  {
    assert (log + [e])[..|log|] == log;
  }

  lemma OfferExplained(log: seq<Event>, s: LockState, a: Path)
    requires WellFormed(s) && Explains(log, s)
    ensures Explains(log + Offer(s, a).log, Offer(s, a).state)
  {
    if Grantable(s, a) {
      forall p
        ensures ExplainsAt(log + Offer(s, a).log, Offer(s, a).state, p)
      {
        assert ExplainsAt(log, s, p) && ExplainsAt(log, s, a);
        OneMore(log, Handed(a, s.queue[a][0]), p);
      }
    } else {
      assert log + [] == log;
    }
  }

  lemma {:induction false} OfferFirstExplained(log: seq<Event>, s: LockState, p: Path)
    requires WellFormed(s) && Explains(log, s)
    ensures Explains(log + OfferFirst(s, p).log, OfferFirst(s, p).state)
    decreases |p|
  {
    if Grantable(s, p) || p == [] {
      OfferExplained(log, s, p);
    } else {
      OfferFirstExplained(log, s, Up(p));
    }
  }

  lemma {:induction false} OfferAncestorsExplained(log: seq<Event>, s: LockState, p: Path)
    requires WellFormed(s) && Explains(log, s)
    ensures Explains(log + OfferAncestors(s, p).log, OfferAncestors(s, p).state)
    decreases |p|
  {
    if p == [] {
      assert log + [] == log;
    } else {
      var o := Offer(s, Up(p));
      OfferExplained(log, s, Up(p));
      OfferGrants(s, Up(p));
      OfferAncestorsExplained(log + o.log, o.state, Up(p));
      assert log + OfferAncestors(s, p).log == log + o.log + OfferAncestors(o.state, Up(p)).log;
    }
  }

  lemma UnlockExplained(log: seq<Event>, s: LockState, p: Path)
    requires Explains(log, s) && p in s.owner
    ensures Explains(log + [Dropped(p, s.owner[p])], Unlock(s, p))
  {
    forall q
      ensures ExplainsAt(log + [Dropped(p, s.owner[p])], Unlock(s, p), q)
    {
      assert ExplainsAt(log, s, q);
      OneMore(log, Dropped(p, s.owner[p]), q);
    }
  }

  lemma GrowExplained(log: seq<Event>, s: LockState, p: Path)
    requires Explains(log, s)
    ensures Explains(log, Grow(s, p))
  {
    forall q
      ensures ExplainsAt(log, Grow(s, p), q)
    {
      assert ExplainsAt(log, s, q);
    }
  }

  lemma AcquireExplained(log: seq<Event>, s: LockState, p: Path, fd: int, wait: bool)
    requires Sound(s) && Explains(log, s)
    ensures Explains(log + Acquire(s, p, fd, wait).log, Acquire(s, p, fd, wait).state)
  {
    GrowExplained(log, s, p);
    assert log + [] == log;
    if !AncestorLocked(s, p) {
      GrowSound(s, p);
      hide Grow;
      AcquireNodeExplained(log, Grow(s, p), p, fd, wait);
    }
  }

  lemma AcquireNodeExplained(log: seq<Event>, s: LockState, p: Path, fd: int, wait: bool)
    requires p in s.queue && !Grantable(s, p) && Explains(log, s)
    ensures Explains(log + AcquireNode(s, p, fd, wait).log, AcquireNode(s, p, fd, wait).state)
  {
    var o := AcquireNode(s, p, fd, wait);
    if o.log == [] {
      assert log + o.log == log;
    } else {
      forall q
        ensures ExplainsAt(log + o.log, o.state, q)
      {
        assert ExplainsAt(log, s, q);
        OneMore(log, o.log[0], q);
        assert o.log == [o.log[0]];
      }
    }
  }

  lemma ReleaseExplained(log: seq<Event>, s: LockState, p: Path, fd: int)
    requires Sound(s) && Explains(log, s)
    ensures Explains(log + Release(s, p, fd).log, Release(s, p, fd).state)
  {
    if p in s.owner && s.owner[p] == fd {
      var t := Unlock(s, p);
      UnlockExplained(log, s, p);
      UnlockExposes(s, p);
      OfferFirstExplained(log + [Dropped(p, fd)], t, p);
      assert log + Release(s, p, fd).log == log + [Dropped(p, fd)] + OfferFirst(t, p).log;
    } else {
      assert log + [] == log;
    }
  }

  lemma VacateExplained(log: seq<Event>, s: LockState, p: Path, fd: int)
    requires Sound(s) && Explains(log, s) && p in s.owner && s.owner[p] == fd
    ensures Explains(log + Vacate(s, p, fd).log, Vacate(s, p, fd).state)
  {
    hide *;
    VacateParts(log, s, p, fd);
    UnlockedReady(s, p);
    UnlockExplained(log, s, p);
    var t, log1 := Unlock(s, p), log + [Dropped(p, fd)];
    OfferAncestorsExplained(log1, t, p);
    var up := OfferAncestors(t, p);
    OfferExplained(log1 + up.log, up.state, p);
  }

  lemma UnlockedReady(s: LockState, p: Path)
    requires Sound(s) && p in s.owner
    ensures WellFormed(Unlock(s, p)) && WellFormed(OfferAncestors(Unlock(s, p), p).state)
  {
    UnlockExposes(s, p);
    hide WellFormed, Unlock, OfferAncestors, GrantsOnly;
    OfferAncestorsSound(Unlock(s, p), p, p);
  }

  lemma VacateParts(log: seq<Event>, s: LockState, p: Path, fd: int)
    ensures var up := OfferAncestors(Unlock(s, p), p);
            var o := Offer(up.state, p);
            && Vacate(s, p, fd).state == o.state
            && log + Vacate(s, p, fd).log == log + [Dropped(p, fd)] + up.log + o.log
  {
    hide OfferAncestors, Offer, Unlock;
    var up := OfferAncestors(Unlock(s, p), p);
    Associative(log, [Dropped(p, fd)] + up.log, Offer(up.state, p).log);
    Associative(log, [Dropped(p, fd)], up.log);
  }

  lemma {:induction false} VacateAllExplained(log: seq<Event>, s: LockState, order: seq<Path>, fd: int)
    requires Sound(s) && NotWaiting(s, fd) && ListsOwned(s, order, fd) && Explains(log, s)
    ensures Explains(log + VacateAll(s, order, fd).log, VacateAll(s, order, fd).state)
    decreases |order|
  {
    if order == [] {
      assert log + [] == log;
    } else {
      var o := Vacate(s, order[0], fd);
      assert order[0] in order;
      assert order[0] in Owned(s, fd);
      hide Vacate, WellFormed, NoLostWakeup, Explains, ListsOwned, NotWaiting, GrantsOnly;
      VacateExplained(log, s, order[0], fd);
      VacateSound(s, order[0], fd);
      VacateShrinks(s, order[0], fd);
      ListsOwnedTail(s, o.state, order, fd);
      VacateAllExplained(log + o.log, o.state, order[1..], fd);
      assert log + VacateAll(s, order, fd).log == log + o.log + VacateAll(o.state, order[1..], fd).log;
    }
  }

  lemma DisconnectExplained(log: seq<Event>, s: LockState, fd: int, order: seq<Path>)
    requires Sound(s) && ListsOwned(s, order, fd) && Explains(log, s)
    ensures Explains(log + Disconnect(s, fd, order).log, Disconnect(s, fd, order).state)
  {
    var t := Withdraw(s, fd);
    WithdrawExplained(log, s, fd);
    WithdrawSound(s, fd);
    assert Owned(t, fd) == Owned(s, fd);
    assert ListsOwned(t, order, fd);
    hide Withdraw, WellFormed, NoLostWakeup, Explains, NotWaiting, ListsOwned, VacateAll;
    VacateAllExplained(log + [Gone(fd)], t, order, fd);
    assert log + Disconnect(s, fd, order).log == log + [Gone(fd)] + VacateAll(t, order, fd).log;
  }

  lemma WithdrawExplained(log: seq<Event>, s: LockState, fd: int)
    requires Explains(log, s)
    ensures Explains(log + [Gone(fd)], Withdraw(s, fd))
  {
    forall p
      ensures ExplainsAt(log + [Gone(fd)], Withdraw(s, fd), p)
    {
      assert ExplainsAt(log, s, p);
      OneMore(log, Gone(fd), p);
    }
  }

  /**
  The logged events account for every owner and queue, every grant from a queue goes to its
  first waiter, and nobody is granted a node directly while others wait for it.
  */
  lemma {:induction false} RunExplained(steps: seq<Step>)
    requires Legal(steps)
    ensures Explains(After(steps).log, After(steps).state)
    decreases |steps|
  {
    if steps != [] {
      var before := steps[..|steps| - 1];
      var step := steps[|steps| - 1];
      var o := After(before);
      RunSound(before);
      RunExplained(before);
      match step
      case AcquireStep(p, fd, wait) => AcquireExplained(o.log, o.state, p, fd, wait);
      case ReleaseStep(p, fd) => ReleaseExplained(o.log, o.state, p, fd);
      case ConfigStep(p) => GrowExplained(o.log, o.state, p); assert o.log + [] == o.log;
      case DisconnectStep(fd, order) => DisconnectExplained(o.log, o.state, fd, order);
    }
  }

  // ---- no barging ----

  /** A client that does not wait is granted a node only when nobody waits there or anywhere below. */
  lemma NoBarging(steps: seq<Step>, p: Path, fd: int, wait: bool, q: Path)
    requires Legal(steps)
    requires var s := After(steps).state;
             Taken(p, fd) in Acquire(s, p, fd, wait).log && q in s.queue && (q == p || Above(p, q))
    ensures After(steps).state.queue[q] == []
  {
    RunSound(steps);
    var s := After(steps).state;
    var g := Grow(s, p);
    assert Free(g, p);
    assert !Grantable(s, q);
    assert q !in s.owner ==> OwnedBelow(s, q) <= OwnedBelow(g, p) by {
      forall r | r in OwnedBelow(s, q)
        ensures r in OwnedBelow(g, p)
      {
        if q != p {
          AboveTransitive(p, q, r);
        }
      }
    }
    assert q in s.owner && q != p ==> q in OwnedBelow(g, p);
  }

  // ---- where exclusion fails ----

  /** Client 1 owns "/a", client 2 waits for it, client 3 waits for "/", and client 1 disconnects. */
  function WaitingRun(): seq<Step> {
    [AcquireStep(["a"], 1, false), AcquireStep(["a"], 2, true), AcquireStep([], 3, true)]
  }

  function CollidingRun(): seq<Step> {
    WaitingRun() + [DisconnectStep(1, [["a"]])]
  }

  lemma Extend(before: seq<Step>, step: Step)
    requires Legal(before) && Enabled(After(before).state, step)
    ensures Legal(before + [step])
    ensures After(before + [step]).state == Next(After(before).state, step).state
  {
    assert (before + [step])[..|before|] == before;
  }

  function OwnedByOne(atRoot: seq<int>, atA: seq<int>): LockState {
    LockState(map[["a"] := 1], map[[] := atRoot, ["a"] := atA])
  }

  lemma OwnedByOneFacts(atRoot: seq<int>, atA: seq<int>)
    ensures var s := OwnedByOne(atRoot, atA);
            && s.queue[[]] == atRoot && s.queue[["a"]] == atA
            && Above([], ["a"]) && !Above(["a"], ["a"]) && !Above(["a"], [])
            && OwnedBelow(s, []) == {["a"]}
            && Grow(s, ["a"]) == s && Grow(s, []) == s
  {
    var a: Path := ["a"];
    var root: Path := [];
    var s := OwnedByOne(atRoot, atA);
    assert a[..0] == [] && a[..1] == a && root[..0] == root;
    assert Above(root, a);
    assert a in OwnedBelow(s, root);
    assert forall q :: q in Prefixes(a) + Prefixes(root) ==> q == [] || q == a;
  }

  lemma OneOwns()
    ensures Acquire(Empty, ["a"], 1, false).state == OwnedByOne([], [])
  {
    var a: Path := ["a"];
    assert a[..0] == [] && a[..1] == a;
    assert a[..0] in Prefixes(a) && a[..1] in Prefixes(a);
    assert Grow(Empty, a).queue == map[[] := [], a := []];
  }

  lemma TwoAndThreeWait()
    ensures Acquire(OwnedByOne([], []), ["a"], 2, true).state == OwnedByOne([], [2])
    ensures Acquire(OwnedByOne([], [2]), [], 3, true).state == OwnedByOne([3], [2])
  {
    OwnedByOneFacts([], []);
    OwnedByOneFacts([], [2]);
    var s, t := OwnedByOne([], []), OwnedByOne([], [2]);
    assert !AncestorLocked(s, ["a"]) && !AncestorLocked(t, []);
    assert [] + [2] == [2] && [] + [3] == [3];
    assert s.queue[["a"] := [2]] == t.queue;
    assert t.queue[[] := [3]] == OwnedByOne([3], [2]).queue;
  }

  lemma WaitingRunReaches()
    ensures Legal(WaitingRun()) && After(WaitingRun()).state == OwnedByOne([3], [2])
  {
    var run := WaitingRun();
    OneOwns();
    TwoAndThreeWait();
    Extend([], run[0]);
    assert [] + [run[0]] == [run[0]];
    Extend([run[0]], run[1]);
    assert [run[0]] + [run[1]] == [run[0], run[1]];
    Extend([run[0], run[1]], run[2]);
    assert [run[0], run[1]] + [run[2]] == run;
  }

  lemma WaitingRunCollides()
    ensures var s := OwnedByOne([3], [2]);
            ListsOwned(s, [["a"]], 1) && Collision(Withdraw(s, 1), [["a"]])
  {
    var s, order: seq<Path> := OwnedByOne([3], [2]), [["a"]];
    OwnedByOneFacts([3], [2]);
    WithoutFacts([2], 1);
    WithoutFacts([3], 1);
    assert Withdraw(s, 1).queue == s.queue;
    assert order[..1] == order;
    assert CollisionAt(s, order, 0, []);
  }

  lemma DisconnectCanBreakExclusion()
    ensures Legal(CollidingRun())
    ensures !Exclusive(After(CollidingRun()).state)
  {
    var s := OwnedByOne([3], [2]);
    WaitingRunReaches();
    WaitingRunCollides();
    RunSound(WaitingRun());
    OwnedByOneFacts([3], [2]);
    DisconnectExclusive(s, 1, [["a"]]);
    Extend(WaitingRun(), DisconnectStep(1, [["a"]]));
  }
}
