/** Serving any sequence of requests with the trie is the run of the lock specification that they make. */
module LockServer {
  import opened Common
  import opened Paths
  import opened PathText
  import opened LockSpec
  import opened LockRuns
  import opened LockInvariants
  import opened LockArrivals
  import opened LockOutcomes
  import opened LockBook
  import opened LockCleanup
  import opened LockTrie
  import C = ConfigSpec

  datatype Request =
    | AcquireRequest(path: string, fd: nat, wait: bool)
    | ReleaseRequest(path: string, fd: nat)
    | ConfigRequest(path: string, fd: nat, key: string, value: Option<string>, transient: bool)
    | LookupRequest(path: string, fd: nat, key: string)
    | Hangup(fd: nat)

  /** A result code, a setting, or for a hang-up the grant callbacks made on the way. */
  datatype Reply = Code(code: int) | Setting(value: Option<string>) | Granted(calls: seq<(int, string)>)

  // ---- what a request means ----

  /** The step of the specification that serves a request, if it does anything to the locks. */
  ghost function StepsOf(request: Request, order: seq<Path>): seq<Step> {
    match request
    case AcquireRequest(path, fd, wait) => if path == "" then [] else [AcquireStep(Resolve(path), fd, wait)]
    case ReleaseRequest(path, fd) => [ReleaseStep(Resolve(path), fd)]
    case ConfigRequest(path, _, _, _, transient) => if transient then [] else [ConfigStep(Resolve(path))]
    case LookupRequest(_, _, _) => []
    case Hangup(fd) => [DisconnectStep(fd, order)]
  }

  ghost function OpsOf(request: Request): seq<C.Op> {
    match request
    case ConfigRequest(path, fd, key, value, transient) =>
      if transient then [C.Override(fd, key, value)] else [C.Persist(Resolve(path), key, value)]
    case Hangup(fd) => [C.Leave(fd)]
    case _ => []
  }

  ghost function ReplyTo(request: Request, order: seq<Path>, s: LockState, c: C.Config): Reply {
    match request
    case AcquireRequest(path, fd, wait) => Code(if path == "" then -1 else Next(s, AcquireStep(Resolve(path), fd, wait)).code)
    case ReleaseRequest(path, fd) => Code(Next(s, ReleaseStep(Resolve(path), fd)).code)
    case ConfigRequest(_, _, _, _, _) => Code(0)
    case LookupRequest(path, fd, key) => Setting(C.Lookup(c.settings, c.transients, Resolve(path), fd, key))
    case Hangup(fd) => Granted(VacateNotices(Withdraw(s, fd), order, fd))
  }

  /** The run that requests make; `orders[i]` is the order in which request `i`, a hang-up, gives locks up. */
  ghost function AllSteps(requests: seq<Request>, orders: seq<seq<Path>>): seq<Step>
    requires |orders| == |requests|
  {
    if requests == [] then []
    else
      var n := |requests| - 1;
      AllSteps(requests[..n], orders[..n]) + StepsOf(requests[n], orders[n])
  }

  ghost function AllOps(requests: seq<Request>): seq<C.Op> {
    if requests == [] then [] else AllOps(requests[..|requests| - 1]) + OpsOf(requests[|requests| - 1])
  }

  ghost function ReplyAt(requests: seq<Request>, orders: seq<seq<Path>>, i: nat): Reply
    requires i < |requests| == |orders|
  {
    ReplyTo(requests[i], orders[i], After(AllSteps(requests[..i], orders[..i])).state, C.After(AllOps(requests[..i])))
  }

  predicate NobodyLeaves(requests: seq<Request>) {
    forall r :: r in requests ==> !r.Hangup?
  }

  // ---- one more request ----

  lemma RunOn(before: seq<Step>, more: seq<Step>)
    requires Legal(before) && |more| <= 1 && (|more| == 1 ==> Enabled(After(before).state, more[0]))
    ensures Legal(before + more)
    ensures After(before + more).state == if more == [] then After(before).state else Next(After(before).state, more[0]).state
  {
    hide Legal, After, Next, Enabled;
    if more == [] {
      assert before + more == before;
    } else {
      assert before + more == before + [more[0]];
      Extend(before, more[0]);
    }
  }

  lemma ConfigOn(before: seq<C.Op>, more: seq<C.Op>)
    requires |more| <= 1
    ensures C.After(before + more) == if more == [] then C.After(before) else C.Step(C.After(before), more[0])
  {
    hide C.Step;
    if more == [] {
      assert before + more == before;
    } else {
      assert (before + more)[..|before|] == before;
    }
  }

  lemma NothingYet()
    ensures AllSteps([], []) == [] && AllOps([]) == []
    ensures Legal([]) && After([]).state == Empty && C.After([]) == C.Config(map[], map[])
  {
  }

  lemma AtMostOne(request: Request, order: seq<Path>)
    ensures |StepsOf(request, order)| <= 1 && |OpsOf(request)| <= 1
    ensures !request.Hangup? ==> forall s :: s in StepsOf(request, order) ==> !s.DisconnectStep?
  {
  }

  lemma OneMoreRequest(requests: seq<Request>, i: nat, orders: seq<seq<Path>>, order: seq<Path>)
    requires |orders| == i < |requests|
    ensures AllSteps(requests[..i + 1], orders + [order]) == AllSteps(requests[..i], orders) + StepsOf(requests[i], order)
    ensures AllOps(requests[..i + 1]) == AllOps(requests[..i]) + OpsOf(requests[i])
  {
    hide StepsOf, OpsOf;
    var more, longer := requests[..i + 1], orders + [order];
    assert more[..i] == requests[..i] && more[i] == requests[i];
    assert longer[..i] == orders && longer[i] == order;
  }

  lemma {:induction false} NobodyLeft(requests: seq<Request>, orders: seq<seq<Path>>)
    requires |orders| == |requests| && NobodyLeaves(requests)
    ensures forall s :: s in AllSteps(requests, orders) ==> !s.DisconnectStep?
    decreases |requests|
  {
    if requests != [] {
      var n := |requests| - 1;
      NobodyLeft(requests[..n], orders[..n]);
      AtMostOne(requests[n], orders[n]);
    }
  }

  /** Serves one request; `order` is the order in which a hang-up gave its locks up. */
  method ServeOne(trie: Trie, request: Request) returns (reply: Reply, ghost order: seq<Path>)
    requires trie.Valid()
    modifies trie, trie.at.Values
    ensures trie.Valid() && fresh(trie.at.Values - old(trie.at.Values))
    ensures var more := StepsOf(request, order);
            && (|more| == 1 ==> Enabled(old(trie.Locks()), more[0]))
            && trie.Locks() == if more == [] then old(trie.Locks()) else Next(old(trie.Locks()), more[0]).state
    ensures var ops, c := OpsOf(request), C.Config(old(trie.Settings()), old(trie.transientRegistry));
            && C.Config(trie.Settings(), trie.transientRegistry) == (if ops == [] then c else C.Step(c, ops[0]))
            && reply == ReplyTo(request, order, old(trie.Locks()), c)
  {
    hide Trie.Valid, Trie.Locks, Trie.Settings, Acquire, Release, Disconnect, Grow, Resolve, ListsOwned,
      C.WriteTransient, C.Write, C.Lookup, VacateNotices, Withdraw;
    order := [];
    match request {
      case AcquireRequest(path, fd, wait) =>
        var code := trie.AcquireLock(path, fd, wait);
        reply := Code(code);
      case ReleaseRequest(path, fd) =>
        var code := trie.ReleaseLock(path, fd);
        reply := Code(code);
      case ConfigRequest(path, fd, key, value, transient) =>
        var code := trie.SetConfig(path, fd, key, value, transient);
        reply := Code(code);
      case LookupRequest(path, fd, key) =>
        var value := trie.GetConfig(path, fd, key);
        reply := Setting(value);
      case Hangup(fd) =>
        order := Drain(Entries(trie.Held(), fd));
        var _, calls := trie.CleanupFd(fd, 0);
        reply := Granted(calls);
    }
  }

  /**
  Serves any requests with a new tree. Locks and settings end as those of the run and the writes
  that these very requests make, and each reply is the one that run gives at that point. So no
  wake-up is lost, queues are first come first served, and lookups answer from the last writes.
  */
  method Serve(requests: seq<Request>)
    returns (trie: Trie, replies: seq<Reply>, ghost orders: seq<seq<Path>>)
    ensures trie.Valid() && fresh(trie) && fresh(trie.at.Values)
    ensures |orders| == |replies| == |requests|
    ensures Legal(AllSteps(requests, orders)) && trie.Locks() == After(AllSteps(requests, orders)).state
    ensures C.Config(trie.Settings(), trie.transientRegistry) == C.After(AllOps(requests))
    ensures forall i :: 0 <= i < |requests| ==> replies[i] == ReplyAt(requests, orders, i)
    ensures Sound(trie.Locks()) && (NobodyLeaves(requests) ==> Exclusive(trie.Locks()))
    ensures var log := After(AllSteps(requests, orders)).log;
            forall p :: p in trie.Locks().queue ==> Arrivals(log, p) == Served(log, p) + trie.Locks().queue[p]
    ensures forall i :: 0 <= i < |requests| && requests[i].LookupRequest? ==>
              replies[i] == LastWritten(AllOps(requests[..i]), requests[i])
  {
    hide *;
    trie := new Trie();
    replies, orders := [], [];
    NothingYet();
    var i := 0;
    while i < |requests|
      invariant 0 <= i <= |requests| && |orders| == |replies| == i
      invariant trie.Valid() && fresh(trie) && fresh(trie.at.Values)
      invariant Legal(AllSteps(requests[..i], orders)) && trie.Locks() == After(AllSteps(requests[..i], orders)).state
      invariant C.Config(trie.Settings(), trie.transientRegistry) == C.After(AllOps(requests[..i]))
      invariant forall k :: 0 <= k < i ==> replies[k] == ReplyAt(requests[..i], orders, k)
    {
      ghost var steps, ops := AllSteps(requests[..i], orders), AllOps(requests[..i]);
      var reply; ghost var order;
      reply, order := ServeOne(trie, requests[i]);
      AtMostOne(requests[i], order);
      RunOn(steps, StepsOf(requests[i], order));
      ConfigOn(ops, OpsOf(requests[i]));
      OneMoreRequest(requests, i, orders, order);
      RepliesStay(requests, i, orders, order);
      replies, orders := replies + [reply], orders + [order];
      i := i + 1;
    }
    assert requests[..i] == requests;
    ServedSound(requests, orders, trie.Locks());
    forall p | p in trie.Locks().queue
      ensures Arrivals(After(AllSteps(requests, orders)).log, p)
           == Served(After(AllSteps(requests, orders)).log, p) + trie.Locks().queue[p]
    {
      ServedFirstComeFirst(requests, orders, trie.Locks(), p);
    }
    forall k | 0 <= k < |requests| && requests[k].LookupRequest?
      ensures replies[k] == LastWritten(AllOps(requests[..k]), requests[k])
    {
      ServedLookup(requests, orders, k);
    }
  }

  lemma RepliesStay(requests: seq<Request>, i: nat, orders: seq<seq<Path>>, order: seq<Path>)
    requires |orders| == i < |requests|
    ensures forall k :: 0 <= k < i ==>
              ReplyAt(requests[..i + 1], orders + [order], k) == ReplyAt(requests[..i], orders, k)
    ensures ReplyAt(requests[..i + 1], orders + [order], i)
         == ReplyTo(requests[i], order, After(AllSteps(requests[..i], orders)).state, C.After(AllOps(requests[..i])))
  {
    hide ReplyTo, After, AllSteps, AllOps, C.After;
    assert requests[..i + 1][..i] == requests[..i] && (orders + [order])[..i] == orders;
    forall k | 0 <= k < i
      ensures ReplyAt(requests[..i + 1], orders + [order], k) == ReplyAt(requests[..i], orders, k)
    {
      assert requests[..i + 1][..k] == requests[..i][..k] && (orders + [order])[..k] == orders[..k];
    }
  }

  // ---- what that means for the served tree ----

  /** No lost wake-up, and exclusion if nobody hung up. */
  lemma ServedSound(requests: seq<Request>, orders: seq<seq<Path>>, s: LockState)
    requires |orders| == |requests| && Legal(AllSteps(requests, orders)) && s == After(AllSteps(requests, orders)).state
    ensures Sound(s)
    ensures NobodyLeaves(requests) ==> Exclusive(s)
  {
    hide Legal, After, AllSteps, Sound, Exclusive;
    RunSound(AllSteps(requests, orders));
    if NobodyLeaves(requests) {
      NobodyLeft(requests, orders);
      RunWithoutDisconnects(AllSteps(requests, orders));
    }
  }

  /** At each node of the served tree the arrivals that no hang-up removed are the grants and then the queue. */
  lemma ServedFirstComeFirst(requests: seq<Request>, orders: seq<seq<Path>>, s: LockState, p: Path)
    requires |orders| == |requests| && Legal(AllSteps(requests, orders)) && s == After(AllSteps(requests, orders)).state
    requires p in s.queue
    ensures var log := After(AllSteps(requests, orders)).log;
            Arrivals(log, p) == Served(log, p) + s.queue[p]
  {
    hide Legal, After, AllSteps, Arrivals, Served;
    RunFirstComeFirstServed(AllSteps(requests, orders), p);
  }

  /** A request granted at once finds nobody waiting at its node or anywhere below. */
  lemma ServedNoBarging(requests: seq<Request>, orders: seq<seq<Path>>, i: nat, q: Path)
    requires i < |requests| == |orders| && Legal(AllSteps(requests[..i], orders[..i]))
    requires var s := After(AllSteps(requests[..i], orders[..i])).state;
             && requests[i].AcquireRequest? && requests[i].path != ""
             && ReplyAt(requests, orders, i) == Code(0)
             && q in s.queue && (q == Resolve(requests[i].path) || Above(Resolve(requests[i].path), q))
             && Resolve(requests[i].path) !in Owned(s, requests[i].fd)
    ensures After(AllSteps(requests[..i], orders[..i])).state.queue[q] == []
  {
    hide Legal, After, AllSteps, Resolve, Owned;
    var steps := AllSteps(requests[..i], orders[..i]);
    var s, p, fd := After(steps).state, Resolve(requests[i].path), requests[i].fd;
    GrantedAtOnce(s, p, fd, requests[i].wait);
    NoBarging(steps, p, fd, requests[i].wait, q);
  }

  lemma GrantedAtOnce(s: LockState, p: Path, fd: int, wait: bool)
    requires Acquire(s, p, fd, wait).code == 0 && p !in Owned(s, fd)
    ensures Taken(p, fd) in Acquire(s, p, fd, wait).log
  {
  }

  /** The locks after one more request. */
  lemma StateAfter(requests: seq<Request>, orders: seq<seq<Path>>, i: nat)
    requires i < |requests| == |orders| && Legal(AllSteps(requests[..i], orders[..i]))
    requires requests[i].ReleaseRequest? || (requests[i].AcquireRequest? && requests[i].path != "")
    ensures var s := After(AllSteps(requests[..i], orders[..i])).state;
            After(AllSteps(requests[..i + 1], orders[..i + 1])).state == Next(s, StepsOf(requests[i], orders[i])[0]).state
  {
    hide Legal, After, Next, AllSteps, AllOps, Resolve;
    OneMoreRequest(requests, i, orders[..i], orders[i]);
    assert orders[..i] + [orders[i]] == orders[..i + 1];
    RunOn(AllSteps(requests[..i], orders[..i]), StepsOf(requests[i], orders[i]));
  }

  /** A served release of a lock the client does not own is answered -1 and leaves every lock and queue as it was. */
  lemma ServedRelease(requests: seq<Request>, orders: seq<seq<Path>>, i: nat)
    requires i < |requests| == |orders| && Legal(AllSteps(requests[..i], orders[..i]))
    requires requests[i].ReleaseRequest?
    ensures var s, t := After(AllSteps(requests[..i], orders[..i])).state, After(AllSteps(requests[..i + 1], orders[..i + 1])).state;
            var p, fd := Resolve(requests[i].path), requests[i].fd;
            && (!Owns(s, p, fd) ==> ReplyAt(requests, orders, i) == Code(-1) && t == s)
            && (forall q, c :: Owns(s, q, c) && (q != p || c != fd) ==> Owns(t, q, c))
            && (forall q, c :: Owns(t, q, c) && !Owns(s, q, c) ==> ReplyAt(requests, orders, i) == Code(c))
  {
    var s := After(AllSteps(requests[..i], orders[..i])).state;
    StateAfter(requests, orders, i);
    RunSound(AllSteps(requests[..i], orders[..i]));
    ReleaseByOthersOnly(s, Resolve(requests[i].path), requests[i].fd);
    ReleaseKeepsOthers(s, Resolve(requests[i].path), requests[i].fd);
    hide After, AllSteps, Owns, Release, Resolve;
  }

  lemma ReleaseByOthersOnly(s: LockState, p: Path, fd: int)
    ensures !Owns(s, p, fd) ==> Release(s, p, fd) == Outcome(s, [], -1)
  {
    if !Owns(s, p, fd) {
      ReleaseByOthers(s, p, fd);
    }
  }

  /** A served acquire that does not ask to wait is granted or denied, and nobody joins or leaves a queue. */
  lemma ServedTry(requests: seq<Request>, orders: seq<seq<Path>>, i: nat)
    requires i < |requests| == |orders| && Legal(AllSteps(requests[..i], orders[..i]))
    requires requests[i].AcquireRequest? && requests[i].path != "" && !requests[i].wait
    ensures var s, t := After(AllSteps(requests[..i], orders[..i])).state, After(AllSteps(requests[..i + 1], orders[..i + 1])).state;
            var p, fd := Resolve(requests[i].path), requests[i].fd;
            && ReplyAt(requests, orders, i) == Code(if AncestorLocked(s, p) || Blocked(s, p, fd) then -1 else 0)
            && SameQueues(s, t)
            && (!AncestorLocked(s, p) && !Blocked(s, p, fd) ==> Owns(t, p, fd))
  {
    var s := After(AllSteps(requests[..i], orders[..i])).state;
    var p, fd := Resolve(requests[i].path), requests[i].fd;
    StateAfter(requests, orders, i);
    RunSound(AllSteps(requests[..i], orders[..i]));
    AcquireCode(s, p, fd, false);
    AcquireOwners(s, p, fd, false);
    AcquireQueues(s, p, fd, false);
    hide After, AllSteps, Owns, Acquire, Resolve, Blocked, AncestorLocked, SameQueues;
  }

  /** The client's last override since it last left, else the last setting written at the deepest path. */
  ghost function LastWritten(ops: seq<C.Op>, request: Request): Reply
    requires request.LookupRequest?
  {
    var own := C.LastOverride(ops, request.fd, request.key);
    Setting(if own.Some? then own else C.LastInherited(ops, Resolve(request.path), request.key))
  }

  /** A lookup is answered from the last writes among the requests before it. */
  lemma ServedLookup(requests: seq<Request>, orders: seq<seq<Path>>, i: nat)
    requires i < |requests| == |orders| && requests[i].LookupRequest?
    ensures ReplyAt(requests, orders, i) == LastWritten(AllOps(requests[..i]), requests[i])
  {
    var LookupRequest(path, fd, key) := requests[i];
    C.LookupIsLastWrite(AllOps(requests[..i]), Resolve(path), fd, key);
  }
}
