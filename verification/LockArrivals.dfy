/** First come, first served: the arrivals at a node against the grants made there and its queue. */
module LockArrivals {
  import opened Common
  import opened Paths
  import opened LockSpec
  import opened LockInvariants
  import opened LockRuns

  /** The clients served from the queue of `p`, in order. */
  function Served(log: seq<Event>, p: Path): seq<int>
    decreases |log|
  {
    if log == [] then []
    else
      var before, e := Served(log[..|log| - 1], p), log[|log| - 1];
      if e.Handed? && e.path == p then before + [e.fd] else before
  }

  predicate ArrivedAt(log: seq<Event>, p: Path, i: nat) {
    i < |log| && log[i].Arrived? && log[i].path == p
  }

  predicate NotHanded(log: seq<Event>, p: Path, fd: int, i: nat, j: nat)
    requires j <= |log|
  {
    forall k :: i < k < j ==> log[k] != Handed(p, fd)
  }

  /** The client of arrival `i` left before it was granted the node. */
  ghost predicate Removed(log: seq<Event>, p: Path, i: nat)
    requires ArrivedAt(log, p, i)
  {
    exists j: nat :: i < j < |log| && log[j] == Gone(log[i].fd) && NotHanded(log, p, log[i].fd, i, j)
  }

  /** The arrivals at `p` among the first `n` events that no disconnect removes, by position. */
  ghost function Staying(log: seq<Event>, p: Path, n: nat): seq<nat>
    requires n <= |log|
  {
    if n == 0 then []
    else Staying(log, p, n - 1) + if ArrivedAt(log, p, n - 1) && !Removed(log, p, n - 1) then [n - 1] else []
  }

  predicate AllArrivals(log: seq<Event>, p: Path, positions: seq<nat>) {
    forall k :: 0 <= k < |positions| ==> ArrivedAt(log, p, positions[k])
  }

  function Clients(log: seq<Event>, p: Path, positions: seq<nat>): seq<int>
    requires AllArrivals(log, p, positions)
  {
    seq(|positions|, k requires 0 <= k < |positions| => log[positions[k]].fd)
  }

  // ---- which arrivals were answered and which still wait ----

  ghost predicate Answered(log: seq<Event>, p: Path, i: nat)
    requires ArrivedAt(log, p, i)
  {
    !NotHanded(log, p, log[i].fd, i, |log|)
  }

  function Leave(log: seq<Event>, p: Path, waiting: seq<nat>, fd: int): seq<nat>
    requires AllArrivals(log, p, waiting)
  {
    if waiting == [] then []
    else if log[waiting[0]].fd == fd then waiting[1..]
    else [waiting[0]] + Leave(log, p, waiting[1..], fd)
  }

  /** Positions of answered and of waiting arrivals, kept event by event. */
  function Split(log: seq<Event>, p: Path): (r: (seq<nat>, seq<nat>))
    ensures AllArrivals(log, p, r.0) && AllArrivals(log, p, r.1)
    decreases |log|
  {
    if log == [] then ([], [])
    else
      var n := |log| - 1;
      var (answered, waiting) := Split(log[..n], p);
      var e := log[n];
      if e.Arrived? && e.path == p then (answered, waiting + [n])
      else if e.Handed? && e.path == p then
        if waiting == [] then (answered, waiting) else (answered + [waiting[0]], waiting[1..])
      else if e.Gone? then
        LeaveIsPart(log[..n], p, waiting, e.fd);
        (answered, Leave(log[..n], p, waiting, e.fd))
      else (answered, waiting)
  }

  lemma {:induction false} LeaveIsPart(log: seq<Event>, p: Path, waiting: seq<nat>, fd: int)
    requires AllArrivals(log, p, waiting)
    ensures forall i: nat :: i in Leave(log, p, waiting, fd) ==> i in waiting
    ensures AllArrivals(log, p, Leave(log, p, waiting, fd))
    decreases |waiting|
  {
    if waiting != [] {
      LeaveIsPart(log, p, waiting[1..], fd);
    }
  }

  lemma {:induction false} LeaveClients(log: seq<Event>, p: Path, waiting: seq<nat>, fd: int)
    requires AllArrivals(log, p, waiting)
    ensures AllArrivals(log, p, Leave(log, p, waiting, fd))
    ensures Clients(log, p, Leave(log, p, waiting, fd)) == Without(Clients(log, p, waiting), fd)
    decreases |waiting|
  {
    LeaveIsPart(log, p, waiting, fd);
    if waiting != [] {
      LeaveClients(log, p, waiting[1..], fd);
      assert Clients(log, p, waiting) == [log[waiting[0]].fd] + Clients(log, p, waiting[1..]);
      if log[waiting[0]].fd != fd {
        var rest := Leave(log, p, waiting[1..], fd);
        assert Clients(log, p, [waiting[0]] + rest) == [log[waiting[0]].fd] + Clients(log, p, rest);
      }
    }
  }

  predicate Ascending(xs: seq<nat>) {
    forall i, j :: 0 <= i < j < |xs| ==> xs[i] < xs[j]
  }

  /** Removing one client's waiting arrival keeps the order and exactly the others. */
  lemma {:induction false} LeaveKeeps(log: seq<Event>, p: Path, waiting: seq<nat>, fd: int)
    requires AllArrivals(log, p, waiting) && Ascending(waiting) && NoDuplicates(Clients(log, p, waiting))
    ensures Ascending(Leave(log, p, waiting, fd))
    ensures forall i: nat :: i in Leave(log, p, waiting, fd) <==> i in waiting && log[i].fd != fd
    decreases |waiting|
  {
    LeaveIsPart(log, p, waiting, fd);
    if waiting != [] {
      var first, tail := waiting[0], waiting[1..];
      assert Clients(log, p, waiting)[1..] == Clients(log, p, tail);
      LeaveKeeps(log, p, tail, fd);
      LeaveIsPart(log, p, tail, fd);
      if log[first].fd == fd {
        forall k | 0 <= k < |tail| ensures log[tail[k]].fd != fd {
          var clients := Clients(log, p, waiting);
          assert clients[0] == log[first].fd && clients[k + 1] == log[tail[k]].fd;
          assert clients[0] != clients[k + 1];
        }
      }
    }
  }

  // ---- the split says what the history says ----

  ghost predicate SplitRight(log: seq<Event>, p: Path) {
    var (answered, waiting) := Split(log, p);
    && Ascending(answered + waiting)
    && Clients(log, p, answered) == Served(log, p)
    && Clients(log, p, waiting) == QueueOf(log, p)
    && NoDuplicates(QueueOf(log, p))
    && (forall i: nat :: ArrivedAt(log, p, i) ==>
          (i in answered <==> !Removed(log, p, i) && Answered(log, p, i))
          && (i in waiting <==> !Removed(log, p, i) && !Answered(log, p, i)))
  }

  lemma RemovedSnoc(log: seq<Event>, e: Event, p: Path, i: nat)
    requires ArrivedAt(log, p, i)
    ensures ArrivedAt(log + [e], p, i)
    ensures Removed(log + [e], p, i) <==> Removed(log, p, i) || (e == Gone(log[i].fd) && !Answered(log, p, i))
    ensures Answered(log + [e], p, i) <==> Answered(log, p, i) || e == Handed(p, log[i].fd)
  {
    var longer, fd := log + [e], log[i].fd;
    forall j | 0 <= j <= |log| ensures NotHanded(longer, p, fd, i, j) <==> NotHanded(log, p, fd, i, j) {
      assert forall k :: i < k < j ==> longer[k] == log[k];
    }
    if Removed(log, p, i) {
      var j :| i < j < |log| && log[j] == Gone(fd) && NotHanded(log, p, fd, i, j);
      assert longer[j] == Gone(fd);
    }
    if e == Gone(fd) && !Answered(log, p, i) {
      assert longer[|log|] == Gone(fd) && NotHanded(longer, p, fd, i, |log|);
    }
    if Removed(longer, p, i) {
      var j :| i < j < |longer| && longer[j] == Gone(fd) && NotHanded(longer, p, fd, i, j);
      assert j < |log| ==> log[j] == Gone(fd);
    }
    assert NotHanded(longer, p, fd, i, |log| + 1) <==> NotHanded(log, p, fd, i, |log|) && e != Handed(p, fd) by {
      assert longer[|log|] == e;
      assert forall k :: i < k < |log| ==> longer[k] == log[k];
    }
  }

  lemma FreshArrival(log: seq<Event>, e: Event, p: Path)
    requires e.Arrived? && e.path == p
    ensures ArrivedAt(log + [e], p, |log|)
    ensures !Removed(log + [e], p, |log|) && !Answered(log + [e], p, |log|)
  {
  }

  /** The positions and clients of the longer history, apart from the new event. */
  lemma ClientsSnoc(log: seq<Event>, e: Event, p: Path, positions: seq<nat>)
    requires AllArrivals(log, p, positions)
    ensures AllArrivals(log + [e], p, positions)
    ensures Clients(log + [e], p, positions) == Clients(log, p, positions)
  {
    assert forall k :: 0 <= k < |positions| ==> ArrivedAt(log, p, positions[k]) && ArrivedAt(log + [e], p, positions[k]);
  }

  lemma SplitSnoc(log: seq<Event>, e: Event, p: Path)
    ensures var (answered, waiting) := Split(log, p);
            Split(log + [e], p)
            == if e.Arrived? && e.path == p then (answered, waiting + [|log|])
               else if e.Handed? && e.path == p then
                 if waiting == [] then (answered, waiting) else (answered + [waiting[0]], waiting[1..])
               else if e.Gone? then (answered, Leave(log, p, waiting, e.fd))
               else (answered, waiting)
  {
    assert (log + [e])[..|log|] == log;
  }

  /** A step that neither adds, answers nor removes an arrival. */
  lemma QuietStep(log: seq<Event>, e: Event, p: Path)
    requires SplitRight(log, p)
    requires e.Taken? || e.Dropped? || ((e.Arrived? || e.Handed?) && e.path != p)
    ensures SplitRight(log + [e], p)
  {
    hide Removed, Answered, SplitRight;
    SplitSnoc(log, e, p);
    SplitParts(log, p);
    OneMore(log, e, p);
    ServedSnoc(log, e, p);
    var (answered, waiting) := Split(log, p);
    ClientsSnoc(log, e, p, answered);
    ClientsSnoc(log, e, p, waiting);
    forall i: nat | ArrivedAt(log + [e], p, i)
      ensures PlacedRight(log + [e], p, i, answered, waiting)
    {
      assert ArrivedAt(log, p, i);
      RemovedSnoc(log, e, p, i);
    }
    SplitFromParts(log + [e], p);
  }

  ghost predicate PlacedRight(log: seq<Event>, p: Path, i: nat, answered: seq<nat>, waiting: seq<nat>)
    requires ArrivedAt(log, p, i)
  {
    && (i in answered <==> !Removed(log, p, i) && Answered(log, p, i))
    && (i in waiting <==> !Removed(log, p, i) && !Answered(log, p, i))
  }

  lemma ServedSnoc(log: seq<Event>, e: Event, p: Path)
    ensures Served(log + [e], p) == Served(log, p) + if e.Handed? && e.path == p then [e.fd] else []
  {
    assert (log + [e])[..|log|] == log;
  }

  lemma ArrivalStep(log: seq<Event>, e: Event, p: Path)
    requires SplitRight(log, p) && e.Arrived? && e.path == p && e.fd !in QueueOf(log, p)
    ensures SplitRight(log + [e], p)
  {
    hide Removed, Answered, SplitRight;
    SplitSnoc(log, e, p);
    SplitParts(log, p);
    OneMore(log, e, p);
    ServedSnoc(log, e, p);
    FreshArrival(log, e, p);
    var (answered, waiting) := Split(log, p);
    ClientsSnoc(log, e, p, answered);
    ClientsSnoc(log, e, p, waiting);
    forall i: nat | ArrivedAt(log + [e], p, i)
      ensures PlacedRight(log + [e], p, i, answered, waiting + [|log|])
    {
      if i < |log| {
        assert ArrivedAt(log, p, i);
        RemovedSnoc(log, e, p, i);
      }
    }
    assert Clients(log + [e], p, waiting + [|log|]) == QueueOf(log, p) + [e.fd];
    Associative(answered, waiting, [|log|]);
    assert forall k :: 0 <= k < |answered| ==> ArrivedAt(log, p, answered[k]);
    assert forall k :: 0 <= k < |waiting| ==> ArrivedAt(log, p, waiting[k]);
    AscendingSnoc(answered + waiting, |log|);
    SplitFromParts(log + [e], p);
  }

  lemma HandStep(log: seq<Event>, e: Event, p: Path)
    requires SplitRight(log, p) && e.Handed? && e.path == p
    requires QueueOf(log, p) != [] && e.fd == QueueOf(log, p)[0]
    ensures SplitRight(log + [e], p)
  {
    hide Removed, Answered, SplitRight, Clients, Ascending, NoDuplicates, Split, Served, QueueOf;
    SplitSnoc(log, e, p);
    SplitParts(log, p);
    OneMore(log, e, p);
    ServedSnoc(log, e, p);
    var (answered, waiting) := Split(log, p);
    SameLength(log, p, waiting);
    AscendingParts(answered, waiting);
    MoveFirst(log, p, answered, waiting);
    ClientsSnoc(log, e, p, answered + [waiting[0]]);
    ClientsSnoc(log, e, p, waiting[1..]);
    forall i: nat | ArrivedAt(log + [e], p, i)
      ensures PlacedRight(log + [e], p, i, answered + [waiting[0]], waiting[1..])
    {
      HandedPlaced(log, e, p, i, answered, waiting);
    }
    SplitFromParts(log + [e], p);
  }

  lemma SameLength(log: seq<Event>, p: Path, positions: seq<nat>)
    requires AllArrivals(log, p, positions)
    ensures |Clients(log, p, positions)| == |positions|
  {
  }

  /** The first waiting arrival becomes the last answered one. */
  lemma MoveFirst(log: seq<Event>, p: Path, answered: seq<nat>, waiting: seq<nat>)
    requires AllArrivals(log, p, answered) && AllArrivals(log, p, waiting) && waiting != []
    requires NoDuplicates(Clients(log, p, waiting))
    ensures AllArrivals(log, p, answered + [waiting[0]]) && AllArrivals(log, p, waiting[1..])
    ensures Clients(log, p, answered + [waiting[0]]) == Clients(log, p, answered) + [Clients(log, p, waiting)[0]]
    ensures Clients(log, p, waiting[1..]) == Clients(log, p, waiting)[1..]
    ensures NoDuplicates(Clients(log, p, waiting)[1..])
    ensures answered + [waiting[0]] + waiting[1..] == answered + waiting
  {
    assert [waiting[0]] + waiting[1..] == waiting;
    Associative(answered, [waiting[0]], waiting[1..]);
  }

  lemma HandedPlaced(log: seq<Event>, e: Event, p: Path, i: nat, answered: seq<nat>, waiting: seq<nat>)
    requires ArrivedAt(log + [e], p, i) && e.Handed?
    requires AllArrivals(log, p, waiting) && waiting != [] && NoDuplicates(Clients(log, p, waiting))
    requires Ascending(waiting) && e == Handed(p, Clients(log, p, waiting)[0])
    requires forall k: nat :: ArrivedAt(log, p, k) ==> PlacedRight(log, p, k, answered, waiting)
    ensures PlacedRight(log + [e], p, i, answered + [waiting[0]], waiting[1..])
  {
    hide Removed, Answered, Clients, Ascending, NoDuplicates;
    assert ArrivedAt(log, p, i);
    RemovedSnoc(log, e, p, i);
    OnlyFirst(log, p, waiting, i);
    assert waiting[0] in waiting;
    FirstClient(log, p, waiting);
  }

  lemma FirstClient(log: seq<Event>, p: Path, waiting: seq<nat>)
    requires AllArrivals(log, p, waiting) && waiting != []
    ensures ArrivedAt(log, p, waiting[0]) && Clients(log, p, waiting)[0] == log[waiting[0]].fd
  {
  }

  /** Among the waiting, only the first is an arrival of the first's client. */
  lemma OnlyFirst(log: seq<Event>, p: Path, waiting: seq<nat>, i: nat)
    requires AllArrivals(log, p, waiting) && waiting != [] && NoDuplicates(Clients(log, p, waiting))
    requires ArrivedAt(log, p, i) && Ascending(waiting)
    ensures i in waiting && log[i].fd == Clients(log, p, waiting)[0] ==> i == waiting[0]
    ensures i in waiting[1..] <==> i in waiting && i != waiting[0]
  {
    if i in waiting {
      var k :| 0 <= k < |waiting| && waiting[k] == i;
      assert Clients(log, p, waiting)[k] == log[i].fd;
    }
    assert waiting == [waiting[0]] + waiting[1..];
  }

  lemma LeaveStep(log: seq<Event>, e: Event, p: Path)
    requires SplitRight(log, p) && e.Gone?
    ensures SplitRight(log + [e], p)
  {
    hide Removed, Answered, SplitRight;
    SplitSnoc(log, e, p);
    SplitParts(log, p);
    OneMore(log, e, p);
    ServedSnoc(log, e, p);
    var (answered, waiting) := Split(log, p);
    var left := Leave(log, p, waiting, e.fd);
    AscendingParts(answered, waiting);
    LeaveClients(log, p, waiting, e.fd);
    LeaveKeeps(log, p, waiting, e.fd);
    WithoutFacts(QueueOf(log, p), e.fd);
    ClientsSnoc(log, e, p, answered);
    ClientsSnoc(log, e, p, left);
    forall i: nat | ArrivedAt(log + [e], p, i)
      ensures PlacedRight(log + [e], p, i, answered, left)
    {
      assert ArrivedAt(log, p, i);
      RemovedSnoc(log, e, p, i);
    }
    AscendingJoined(answered, waiting, left);
    SplitFromParts(log + [e], p);
  }

  lemma AscendingSnoc(xs: seq<nat>, n: nat)
    requires Ascending(xs) && forall k :: 0 <= k < |xs| ==> xs[k] < n
    ensures Ascending(xs + [n])
  {
  }

  lemma AscendingParts(a: seq<nat>, b: seq<nat>)
    requires Ascending(a + b)
    ensures Ascending(a) && Ascending(b)
  {
    assert forall i :: 0 <= i < |a| ==> (a + b)[i] == a[i];
    assert forall i :: 0 <= i < |b| ==> (a + b)[|a| + i] == b[i];
  }

  lemma AscendingJoined(a: seq<nat>, b: seq<nat>, c: seq<nat>)
    requires Ascending(a + b) && Ascending(c) && forall i: nat :: i in c ==> i in b
    ensures Ascending(a + c)
  {
    AscendingParts(a, b);
    forall i, j | 0 <= i < |a| && 0 <= j < |c| ensures a[i] < c[j] {
      assert c[j] in b;
      var k :| 0 <= k < |b| && b[k] == c[j];
      assert (a + b)[i] < (a + b)[|a| + k];
    }
  }

  lemma SplitParts(log: seq<Event>, p: Path)
    requires SplitRight(log, p)
    ensures var (answered, waiting) := Split(log, p);
            && Ascending(answered + waiting)
            && Clients(log, p, answered) == Served(log, p)
            && Clients(log, p, waiting) == QueueOf(log, p)
            && NoDuplicates(QueueOf(log, p))
            && (forall i: nat :: ArrivedAt(log, p, i) ==> PlacedRight(log, p, i, answered, waiting))
  {
  }

  lemma SplitFromParts(log: seq<Event>, p: Path)
    requires var (answered, waiting) := Split(log, p);
             && Ascending(answered + waiting)
             && Clients(log, p, answered) == Served(log, p)
             && Clients(log, p, waiting) == QueueOf(log, p)
             && NoDuplicates(QueueOf(log, p))
             && (forall i: nat :: ArrivedAt(log, p, i) ==> PlacedRight(log, p, i, answered, waiting))
    ensures SplitRight(log, p)
  {
  }

  lemma {:induction false} HistorySplit(log: seq<Event>, p: Path)
    requires FairHistory(log, p)
    ensures SplitRight(log, p)
    decreases |log|
  {
    hide SplitRight;
    if log == [] {
      NothingSplit(p);
    } else {
      var before, e := log[..|log| - 1], log[|log| - 1];
      HistorySplit(before, p);
      assert before + [e] == log;
      if e.Arrived? && e.path == p {
        ArrivalStep(before, e, p);
      } else if e.Handed? && e.path == p {
        HandStep(before, e, p);
      } else if e.Gone? {
        LeaveStep(before, e, p);
      } else {
        QuietStep(before, e, p);
      }
    }
  }

  lemma NothingSplit(p: Path)
    ensures SplitRight([], p)
  {
  }

  // ---- the arrivals are the answered and then the waiting ----

  lemma {:induction false} StayingExactly(log: seq<Event>, p: Path, n: nat)
    requires n <= |log|
    ensures Ascending(Staying(log, p, n))
    ensures forall i: nat :: i in Staying(log, p, n) <==> i < n && ArrivedAt(log, p, i) && !Removed(log, p, i)
    decreases n
  {
    hide Removed;
    if n != 0 {
      StayingExactly(log, p, n - 1);
      var before := Staying(log, p, n - 1);
      assert forall k :: 0 <= k < |before| ==> before[k] in before;
      AscendingSnoc(before, n - 1);
    }
  }

  lemma {:induction false} SameAscending(xs: seq<nat>, ys: seq<nat>)
    requires Ascending(xs) && Ascending(ys) && forall i: nat :: i in xs <==> i in ys
    ensures xs == ys
    decreases |xs|
  {
    if xs == [] {
      HasSome(ys);
    } else {
      assert xs[0] in ys && ys != [] && ys[0] in xs;
      var x, y := xs[1..], ys[1..];
      assert xs == [xs[0]] + x && ys == [ys[0]] + y;
      assert xs[0] == ys[0];
      forall i: nat ensures i in x <==> i in y {
        assert i in x <==> i in xs && i != xs[0];
        assert i in y <==> i in ys && i != ys[0];
      }
      SameAscending(x, y);
    }
  }

  lemma HasSome(ys: seq<nat>)
    ensures ys != [] ==> exists i: nat :: i in ys
  {
    if ys != [] {
      assert ys[0] in ys;
    }
  }

  /** The clients whose arrivals at `p` no disconnect removes, in order. */
  ghost function Arrivals(log: seq<Event>, p: Path): seq<int> {
    StayingExactly(log, p, |log|);
    Clients(log, p, Staying(log, p, |log|))
  }

  /** In a fair history they are those served so far and then the queue. */
  lemma FirstComeFirstServed(log: seq<Event>, p: Path)
    requires FairHistory(log, p)
    ensures Arrivals(log, p) == Served(log, p) + QueueOf(log, p)
  {
    var (answered, waiting) := Split(log, p);
    StayingIsSplit(log, p);
    ClientsConcat(log, p, answered, waiting);
    HistorySplit(log, p);
    SplitParts(log, p);
    hide Split, SplitRight, Clients, Staying, Ascending;
  }

  lemma StayingIsSplit(log: seq<Event>, p: Path)
    requires FairHistory(log, p)
    ensures Staying(log, p, |log|) == Split(log, p).0 + Split(log, p).1
  {
    hide Removed, Answered, Split, Staying, Clients, Ascending;
    HistorySplit(log, p);
    SplitParts(log, p);
    StayingExactly(log, p, |log|);
    var (answered, waiting) := Split(log, p);
    var staying := Staying(log, p, |log|);
    forall i: nat ensures i in staying <==> i in answered + waiting {
      if i in answered + waiting {
        assert ArrivedAt(log, p, i);
      }
      if ArrivedAt(log, p, i) {
        assert PlacedRight(log, p, i, answered, waiting);
      }
    }
    SameAscending(staying, answered + waiting);
  }

  lemma ClientsConcat(log: seq<Event>, p: Path, a: seq<nat>, b: seq<nat>)
    requires AllArrivals(log, p, a) && AllArrivals(log, p, b)
    ensures AllArrivals(log, p, a + b)
    ensures Clients(log, p, a + b) == Clients(log, p, a) + Clients(log, p, b)
  {
  }

  /** At each node, the arrivals that no disconnect removed are the grants so far and then the queue. */
  lemma RunFirstComeFirstServed(steps: seq<Step>, p: Path)
    requires Legal(steps) && p in After(steps).state.queue
    ensures Arrivals(After(steps).log, p) == Served(After(steps).log, p) + After(steps).state.queue[p]
  {
    RunExplained(steps);
    assert ExplainsAt(After(steps).log, After(steps).state, p);
    FirstComeFirstServed(After(steps).log, p);
  }
}
