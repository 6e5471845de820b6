/** The trie itself: mutable nodes with parent pointers, intent counts, queues and registries. */
module LockTrie {
  import opened Common
  import opened Paths
  import opened PathText
  import opened LockSpec
  import opened LockInvariants
  import opened LockOutcomes
  import opened LockBook
  import opened LockCleanup
  import C = ConfigSpec

  const NO_FD := -1

  class Node {
    ghost const path: Path
    const segment: string
    const parent: Node?
    var children: map<string, Node>
    var settings: map<string, string>
    var ownerFd: int
    var intentCount: int
    var waiters: seq<int>

    constructor Root()
      ensures path == [] && parent == null
      ensures children == map[] && settings == map[]
      ensures ownerFd == NO_FD && intentCount == 0 && waiters == []
    {
      path, segment, parent := [], "", null;
      children, settings := map[], map[];
      ownerFd, intentCount, waiters := NO_FD, 0, [];
    }

    constructor Child(name: string, above: Node)
      ensures path == above.path + [name] && segment == name && parent == above
      ensures children == map[] && settings == map[]
      ensures ownerFd == NO_FD && intentCount == 0 && waiters == []
    {
      path, segment, parent := above.path + [name], name, above;
      children, settings := map[], map[];
      ownerFd, intentCount, waiters := NO_FD, 0, [];
    }
  }

  /** Names and parent pointers agree with the paths. */
  ghost predicate Linked(at: map<Path, Node>) {
    && [] in at
    && forall p {:trigger LinkedAt(at, p)} :: p in at ==> LinkedAt(at, p)
  }

  ghost predicate LinkedAt(at: map<Path, Node>, p: Path)
    requires p in at
  {
    && at[p].path == p && StorablePath(p)
    && (if p == [] then at[p].parent == null
        else Up(p) in at && at[p].parent == at[Up(p)] && at[p].segment == p[|p| - 1])
  }

  type Registry = map<int, seq<Node>>

  ghost function PathsOf(nodes: seq<Node>): (paths: seq<Path>)
    ensures |paths| == |nodes| && forall i :: 0 <= i < |nodes| ==> paths[i] == nodes[i].path
  {
    seq(|nodes|, i requires 0 <= i < |nodes| => nodes[i].path)
  }

  ghost function RegistryPaths(registry: Registry): map<int, seq<Path>> {
    map fd | fd in registry :: PathsOf(registry[fd])
  }

  ghost predicate AllKnown(at: map<Path, Node>, registry: Registry) {
    forall fd, n :: fd in registry && n in registry[fd] ==> n.path in at && at[n.path] == n
  }

  class Trie {
    const root: Node
    ghost var at: map<Path, Node>  // every node under its path
    var fdRegistry: Registry
    var waitingRegistry: Registry
    var transientRegistry: map<int, map<string, string>>
    var totalNodes: int
    var totalLocks: int
    var totalWaiters: int

    // ---- the invariant ----

    ghost predicate Known(n: Node)
      reads this`at
    {
      n.path in at && at[n.path] == n
    }

    /** The children of the node at `p` are the nodes one segment further down. */
    ghost predicate Branches(p: Path)
      requires p in at
      reads this`at, at.Values`children
    {
      forall s :: (s in at[p].children <==> p + [s] in at) && (s in at[p].children ==> at[p].children[s] == at[p + [s]])
    }

    /** The nodes form one tree, each node under its own path. */
    ghost predicate Rooted()
      reads this`at, this`totalNodes, at.Values`children
    {
      && Linked(at)
      && at[[]] == root
      && (forall p {:trigger Branches(p)} :: p in at ==> Branches(p))
      && totalNodes == |at|
    }

    /** The registries hold nodes of this tree. */
    ghost predicate Filed()
      reads this`at, this`fdRegistry, this`waitingRegistry
    {
      AllKnown(at, fdRegistry) && AllKnown(at, waitingRegistry)
    }

    ghost function Held(): map<int, seq<Path>>
      reads this`fdRegistry
    {
      RegistryPaths(fdRegistry)
    }

    ghost function Pending(): map<int, seq<Path>>
      reads this`waitingRegistry
    {
      RegistryPaths(waitingRegistry)
    }

    ghost function Owners(): map<Path, int>
      reads this`at, at.Values`ownerFd
    {
      map p | p in at && at[p].ownerFd != NO_FD :: at[p].ownerFd
    }

    ghost function Queues(): map<Path, seq<int>>
      reads this`at, at.Values`waiters
    {
      map p | p in at :: at[p].waiters
    }

    /** Owners and queues, without the indexes derived from them. */
    ghost function Locks(): LockState
      reads this`at, at.Values`ownerFd, at.Values`waiters
    {
      LockState(Owners(), Queues())
    }

    ghost function Intents(): map<Path, int>
      reads this`at, at.Values`intentCount
    {
      map p | p in at :: at[p].intentCount
    }

    ghost function Books(): Book
      reads this`at, this`fdRegistry, this`waitingRegistry, this`totalLocks, this`totalWaiters
      reads at.Values`ownerFd, at.Values`waiters, at.Values`intentCount
    {
      Book.Book(Locks(), Intents(), Held(), Pending(), totalLocks, totalWaiters)
    }

    ghost function KeyValues(): map<Path, map<string, string>>
      reads this`at, at.Values`settings
    {
      map p | p in at :: at[p].settings
    }

    /** The settings stored in the tree. */
    ghost function Settings(): map<(Path, string), string>
      reads this`at, at.Values`settings
    {
      Flatten(KeyValues())
    }

    ghost predicate Valid()
      reads this, at.Values
    {
      Rooted() && Filed() && Healthy(Books())
    }

    constructor ()
      ensures Valid() && fresh(at.Values)
      ensures Locks() == Empty && Settings() == map[] && transientRegistry == map[]
    {
      root := new Node.Root();
      at := map[[] := root];
      fdRegistry, waitingRegistry, transientRegistry := map[], map[], map[];
      totalNodes, totalLocks, totalWaiters := 1, 0, 0;
      new;
      assert at == map[[] := root];
      assert [] in at && at[[]] == root;
      assert at.Values == {root};
      assert OnlyRoot();
      hide *;
      NewTree();
      NewBooks();
      NewSettings();
      NewTrieValid();
    }

    ghost predicate OnlyRoot()
      reads this, root
    {
      && at == map[[] := root] && totalNodes == 1 && root.path == [] && root.parent == null && root.children == map[]
      && root.settings == map[] && root.ownerFd == NO_FD && root.intentCount == 0 && root.waiters == []
      && fdRegistry == map[] && waitingRegistry == map[] && totalLocks == 0 && totalWaiters == 0
    }

    lemma NewTree()
      requires OnlyRoot()
      ensures Rooted() && Filed()
    {
    }

    lemma NewBooks()
      requires OnlyRoot()
      ensures Locks() == Empty && Books() == EmptyBook
    {
      assert Owners() == map[] && Queues() == map[[] := []] && Intents() == map[[] := 0];
      assert Held() == map[] && Pending() == map[];
    }

    lemma NewSettings()
      requires OnlyRoot()
      ensures Settings() == map[]
    {
      FlattenBlank();
      hide Flatten;
      assert KeyValues() == map[[] := map[]];
    }

    lemma NewTrieValid()
      requires Rooted() && Filed() && Books() == EmptyBook
      ensures Valid()
    {
      EmptyBalanced();
    }

    // ---- resolving ----

    /** The child of `node` called `segment`; if there is none and `create` is set, a new one. */
    method GetChild(node: Node, segment: string, create: bool) returns (child: Node?)
      requires Rooted() && Known(node)
      requires Storable(segment) && |node.path| < MAX_DEPTH
      modifies this`at, this`totalNodes, node`children
      ensures Rooted()
      ensures child == null <==> !create && node.path + [segment] !in old(at)
      ensures child != null ==> Known(child) && child.path == node.path + [segment]
      ensures child == null || node.path + [segment] in old(at) ==> at == old(at)
      ensures child != null && node.path + [segment] !in old(at) ==>
                at == old(at)[node.path + [segment] := child] && fresh(child)
                && Blank(child)
    {
      assert Branches(node.path);
      if segment in node.children {
        child := node.children[segment];
        assert LinkedAt(at, node.path + [segment]);
        return;
      }
      if !create {
        child := null;
        return;
      }
      ghost var tree, path := at, node.path + [segment];
      child := new Node.Child(segment, node);
      node.children := node.children[segment := child];
      at := at[path := child];
      totalNodes := totalNodes + 1;
      LinkedGrows(tree, node, segment, child);
      forall q | q in at
        ensures Branches(q)
      {
        forall s
          ensures q + [s] == path <==> q == node.path && s == segment
          ensures q == path ==> q + [s] !in tree
        {
          assert Up(q + [s]) == q;
        }
        if q in tree {
          NoOtherNode(tree, node.path);
          assert tree[q] != node ==> old(Branches(q));
        }
      }
    }

    ghost predicate Blank(n: Node)
      reads n`ownerFd, n`intentCount, n`waiters, n`settings
    {
      n.ownerFd == NO_FD && n.intentCount == 0 && n.waiters == [] && n.settings == map[]
    }

    /** The tree has gained blank nodes for `p` and its missing ancestors, and nothing else. */
    twostate predicate GrownTo(p: Path)
      reads this`at, at.Values
    {
      && Extended(old(at), at, p)
      && (forall q :: q in at && q !in old(at) ==> fresh(at[q]) && Blank(at[q]))
    }

    /**
    Resolves a path string to its node. `ancestorLocked` reports a locked strict ancestor when
    `refuseLocked` asks for that check, and then there is no node.
    */
    method Traverse(path: string, create: bool, refuseLocked: bool) returns (node: Node?, ancestorLocked: bool)
      requires Rooted()
      modifies this`at, this`totalNodes, at.Values`children
      ensures Rooted()
      ensures ancestorLocked <==> refuseLocked && AncestorLocked(old(Locks()), Resolve(path))
      ensures node != null ==> Known(node) && node.path == Resolve(path)
      ensures if create && !ancestorLocked then node != null && GrownTo(Resolve(path)) else at == old(at)
      ensures !create || ancestorLocked ==> (node != null <==> !ancestorLocked && Resolve(path) in at)
    {
      var slots, count := ParseSegments(path);
      var segments := slots[..count];
      ResolveStorable(path);
      node, ancestorLocked := Descend(segments, create, refuseLocked);
      SameAncestorsLocked(segments);
    }

    /** A locked node lies strictly above `p`. */
    ghost predicate LockedAbove(p: Path)
      reads this`at, at.Values`ownerFd
    {
      exists q :: q in at && Above(q, p) && at[q].ownerFd != NO_FD
    }

    /** Blank new nodes do not change which ancestors are locked. */
    twostate lemma SameAncestorsLocked(p: Path)
      requires GrownTo(p) || at == old(at)
      requires forall q :: q in old(at) ==> at[q].ownerFd == old(at[q].ownerFd)
      ensures LockedAbove(p) <==> AncestorLocked(old(Locks()), p)
    {
      ghost var owners := old(Owners());
      if q :| q in at && Above(q, p) && at[q].ownerFd != NO_FD {
        assert q in old(at) && q in owners;
      }
      if AncestorLocked(old(Locks()), p) {
        var q :| q in old(Locks()).owner && Above(q, p);
        assert q in old(at) && at[q].ownerFd != NO_FD;
      }
    }

    /** One step down: the child of the node at `p[..i]`, created if need be. */
    method StepDown(current: Node, p: Path, i: nat, create: bool, ghost tree: map<Path, Node>) returns (child: Node?)
      requires Rooted() && Known(current) && StorablePath(p) && i < |p| && current.path == p[..i]
      requires Extended(tree, at, p[..i])
      modifies this`at, this`totalNodes, current`children
      ensures Rooted()
      ensures child != null ==> Known(child) && child.path == p[..i + 1] && Extended(tree, at, p[..i + 1])
      ensures child == null ==> !create && p !in at && (LockedAbove(p) ==> LockedAbove(p[..i + 1]))
      ensures !create ==> at == old(at)
      ensures at == old(at) || (child != null && fresh(child) && Blank(child) && at == old(at)[p[..i + 1] := child])
      ensures LockedAbove(p[..i + 1]) <==> old(LockedAbove(p[..i + 1]))
    {
      hide Branches, StorablePath, Storable, Owners, Extended, Above;
      NextPrefix(p, i);
      ghost var next, before := p[..i + 1], at;
      child := GetChild(current, p[i], create);
      if child == null {
        MissingBelow(at, next, p);
        NothingLockedBelow(next, p);
      } else {
        ExtendedMore(tree, before, at, next);
        LockedStill(next, child);
      }
    }

    lemma NothingLockedBelow(next: Path, p: Path)
      requires next != []
      requires forall q :: q in at && Above(q, p) ==> q == Up(next) || Above(q, Up(next))
      ensures LockedAbove(p) ==> LockedAbove(next)
    {
      if LockedAbove(p) {
        var q :| q in at && Above(q, p) && at[q].ownerFd != NO_FD;
        AboveIsUpOrHigher(q, next);
        if q != Up(next) {
          AboveTransitive(q, Up(next), next);
        }
        assert Above(q, next);
      }
    }

    /** A blank node at `next` locks nothing above `next`. */
    twostate lemma LockedStill(next: Path, new child: Node)
      requires at == old(at) || at == old(at)[next := child]
      requires forall q :: q in old(at) ==> at[q] == old(at[q]) && at[q].ownerFd == old(at[q].ownerFd)
      ensures LockedAbove(next) <==> old(LockedAbove(next))
    {
      assert !Above(next, next);
      if LockedAbove(next) {
        var q :| q in at && Above(q, next) && at[q].ownerFd != NO_FD;
        assert q in old(at) && old(at[q].ownerFd) != NO_FD;
      }
      if old(LockedAbove(next)) {
        var q :| q in old(at) && Above(q, next) && old(at[q].ownerFd) != NO_FD;
        assert q in at && at[q].ownerFd != NO_FD;
      }
    }

    lemma LockedNext(p: Path, i: nat, current: Node)
      requires Rooted() && i < |p| && Known(current) && current.path == p[..i]
      ensures LockedAbove(p[..i + 1]) <==> LockedAbove(p[..i]) || current.ownerFd != NO_FD
      ensures current.ownerFd != NO_FD ==> LockedAbove(p)
    {
      assert Up(p[..i + 1]) == p[..i];
      forall q
        ensures Above(q, p[..i + 1]) <==> q == p[..i] || Above(q, p[..i])
      {
        AboveIsUpOrHigher(q, p[..i + 1]);
      }
      assert Above(p[..i], p);
    }

    method Descend(p: Path, create: bool, refuseLocked: bool) returns (node: Node?, ancestorLocked: bool)
      requires Rooted() && StorablePath(p)
      modifies this`at, this`totalNodes, at.Values`children
      ensures Rooted()
      ensures ancestorLocked <==> refuseLocked && LockedAbove(p)
      ensures node != null ==> Known(node) && node.path == p
      ensures if create && !ancestorLocked then node != null && GrownTo(p) else at == old(at)
      ensures !create || ancestorLocked ==> (node != null <==> !ancestorLocked && p in at)
    {
      hide *;
      ancestorLocked := false;
      var current: Node := root;
      ghost var tree, made: set<Node> := at, {};
      AtRoot();
      var i := 0;
      while i < |p|
        invariant 0 <= i <= |p|
        invariant Partway(tree, made, p, i, current) && fresh(made)
        invariant current in made || current in tree.Values
        invariant !create ==> at == tree
        invariant refuseLocked ==> !LockedAbove(p[..i])
      {
        PartwayParts(tree, made, p, i, current);
        LockedNext(p, i, current);
        if refuseLocked && current.ownerFd != NO_FD {
          ExtendedNothing(tree, at, p[..i]);
          return null, true;
        }
        ghost var before := at;
        var child := StepDown(current, p, i, create, tree);
        if child == null {
          return null, false;
        }
        if at != before {
          made := made + {child};
        }
        OneFurther(tree, before, made, p, i, child);
        current := child;
        i := i + 1;
      }
      PartwayParts(tree, made, p, i, current);
      Arrived(tree, made, p, current);
      GrownBy(p, made);
      node := current;
    }

    twostate lemma GrownBy(p: Path, new made: set<Node>)
      requires Extended(old(at), at, p) && fresh(made)
      requires forall q :: q in at && q !in old(at) ==> at[q] in made
      requires forall n :: n in made ==> Blank(n)
      ensures GrownTo(p)
    {
    }

    /** The tree is the old one with blank nodes `made` on the way to `p[..i]`, where `current` is. */
    ghost predicate Partway(tree: map<Path, Node>, made: set<Node>, p: Path, i: nat, current: Node)
      requires i <= |p|
      reads this`at, this`totalNodes, at.Values`children
      reads made`ownerFd, made`intentCount, made`waiters, made`settings
    {
      && Rooted() && Known(current) && current.path == p[..i]
      && Linked(tree) && Extended(tree, at, p[..i])
      && (forall q :: q in at && q !in tree ==> at[q] in made)
      && (forall n :: n in made ==> Blank(n))
    }

    lemma AtRoot()
      requires Rooted()
      ensures forall p: Path :: Partway(at, {}, p, 0, root) && !LockedAbove(p[..0])
      ensures root in at.Values
    {
      assert LinkedAt(at, []);
      forall p: Path
        ensures Partway(at, {}, p, 0, root) && !LockedAbove(p[..0])
      {
        assert p[..0] == [];
        ExtendedStart(at);
      }
    }

    lemma PartwayParts(tree: map<Path, Node>, made: set<Node>, p: Path, i: nat, current: Node)
      requires i <= |p| && Partway(tree, made, p, i, current)
      ensures Rooted() && Known(current) && current.path == p[..i]
      ensures Linked(tree) && Extended(tree, at, p[..i])
      ensures i < |p| && current.ownerFd != NO_FD && current in tree.Values ==> p[..i] in tree
      ensures i < |p| && current.ownerFd != NO_FD && current in made ==> p[..i] in tree
      ensures forall q :: q in at && q !in tree ==> at[q] in made
      ensures forall n :: n in made ==> Blank(n)
    {
      assert current in made ==> Blank(current);
      assert Linked(tree) && p[..i] == current.path;
      if current in tree.Values {
        var q :| q in tree && tree[q] == current;
        assert LinkedAt(tree, q);
      }
    }

    lemma OneFurther(tree: map<Path, Node>, before: map<Path, Node>, made: set<Node>, p: Path, i: nat, child: Node)
      requires i < |p| && Linked(tree) && Rooted() && Known(child) && child.path == p[..i + 1]
      requires Extended(tree, before, p[..i]) && Extended(tree, at, p[..i + 1])
      requires forall q :: q in before && q !in tree ==> before[q] in made
      requires at == before || (child in made && at == before[p[..i + 1] := child])
      requires forall n :: n in made ==> Blank(n)
      ensures Partway(tree, made, p, i + 1, child)
      ensures child in made || child in tree.Values
    {
    }

    lemma Arrived(tree: map<Path, Node>, made: set<Node>, p: Path, current: Node)
      requires Partway(tree, made, p, |p|, current)
      ensures Known(current) && current.path == p && p in at
      ensures Extended(tree, at, p)
      ensures forall q :: q in at && q !in tree ==> at[q] in made
      ensures forall n :: n in made ==> Blank(n)
    {
      assert p[..|p|] == p;
    }

    /** Growing the tree shows in the books as `GrowBook`, and touches no setting. */
    twostate lemma GrownBooks(p: Path)
      requires GrownTo(p)
      requires forall q :: q in old(at) ==>
                 && at[q].ownerFd == old(at[q].ownerFd) && at[q].waiters == old(at[q].waiters)
                 && at[q].intentCount == old(at[q].intentCount) && at[q].settings == old(at[q].settings)
      requires fdRegistry == old(fdRegistry) && waitingRegistry == old(waitingRegistry)
      requires totalLocks == old(totalLocks) && totalWaiters == old(totalWaiters)
      ensures Books() == GrowBook(old(Books()), p)
    {
      PrefixesAre(p);
      hide Prefixes, Above;
      assert Owners() == old(Owners());
      assert Queues() == Grow(old(Locks()), p).queue;
      assert Intents() == GrowBook(old(Books()), p).intents;
    }

    twostate lemma GrownFiled(p: Path)
      requires old(Filed()) && GrownTo(p)
      requires fdRegistry == old(fdRegistry) && waitingRegistry == old(waitingRegistry)
      ensures Filed()
      ensures fresh(at.Values - old(at.Values))
      ensures forall n :: n in old(at.Values) ==> n in at.Values
    {
      forall n | n in at.Values && n !in old(at.Values)
        ensures fresh(n)
      {
        var q :| q in at && at[q] == n;
      }
      forall n | n in old(at.Values)
        ensures n in at.Values
      {
        var q :| q in old(at) && old(at)[q] == n;
        assert at[q] == n;
      }
    }

    twostate lemma GrownSettings(p: Path)
      requires GrownTo(p)
      requires forall q :: q in old(at) ==> at[q].settings == old(at[q].settings)
      ensures Settings() == old(Settings())
    {
      forall q, k
        ensures (q, k) in Settings() <==> (q, k) in old(Settings())
      {
      }
    }

    // ---- one node, with the running total ----

    method SetOwner(node: Node, fd: int)
      requires Linked(at) && Known(node) && fd != NO_FD
      modifies node`ownerFd, this`totalLocks
      ensures Owners() == old(Owners())[node.path := fd] && totalLocks == old(totalLocks) + 1
      ensures Queues() == old(Queues()) && Intents() == old(Intents())
    {
      NoOtherNode(at, node.path);
      node.ownerFd := fd;
      totalLocks := totalLocks + 1;
    }

    method ClearOwner(node: Node)
      requires Linked(at) && Known(node)
      modifies node`ownerFd, this`totalLocks
      ensures Owners() == old(Owners()) - {node.path} && totalLocks == old(totalLocks) - 1
      ensures Queues() == old(Queues()) && Intents() == old(Intents())
    {
      NoOtherNode(at, node.path);
      node.ownerFd := NO_FD;
      totalLocks := totalLocks - 1;
    }

    method SetWaiters(node: Node, fds: seq<int>)
      requires Linked(at) && Known(node)
      modifies node`waiters, this`totalWaiters
      ensures Queues() == old(Queues())[node.path := fds]
      ensures totalWaiters == old(totalWaiters) + |fds| - |old(Queues())[node.path]|
      ensures Owners() == old(Owners()) && Intents() == old(Intents())
    {
      NoOtherNode(at, node.path);
      totalWaiters := totalWaiters + |fds| - |node.waiters|;
      node.waiters := fds;
    }

    method AddIntent(node: Node, delta: int)
      requires Linked(at) && Known(node)
      modifies node`intentCount
      ensures Intents() == old(Intents())[node.path := old(Intents())[node.path] + delta]
      ensures Owners() == old(Owners()) && Queues() == old(Queues())
    {
      NoOtherNode(at, node.path);
      node.intentCount := node.intentCount + delta;
    }

    // ---- walking ----

    /** Adds `delta` to the intent count of every strict ancestor of `node`. */
    method AdjustAncestors(node: Node, delta: int)
      requires Linked(at) && Known(node)
      modifies at.Values`intentCount
      ensures Intents() == AdjustAbove(old(Intents()), node.path, delta)
      ensures Owners() == old(Owners()) && Queues() == old(Queues())
    {
      hide *;
      ghost var was, cur, done := Intents(), node.path, {};
      ClimbStart(was, node.path, delta);
      ParentOf(node);
      var p := node.parent;
      while p != null
        invariant p == null <==> cur == []
        invariant p != null ==> Known(p) && p in at.Values && p.path == Up(cur) && |p.path| < |cur|
        invariant Climbed(done, cur, node.path) && Intents() == AddIn(was, done, delta)
        invariant Owners() == old(Owners()) && Queues() == old(Queues())
        decreases |cur|
      {
        HasIntents(p);
        Climb(done, cur, node.path);
        AddOneMore(was, done, delta, p.path);
        AddIntent(p, delta);
        done := done + {p.path};
        cur := p.path;
        ParentOf(p);
        p := p.parent;
      }
      ClimbEnd(was, done, node.path, delta);
    }

    lemma ParentOf(node: Node)
      requires Linked(at) && Known(node)
      ensures node.parent == null <==> node.path == []
      ensures node.parent != null ==>
                && Known(node.parent) && node.parent in at.Values
                && node.parent.path == Up(node.path) && |node.parent.path| < |node.path|
    {
      assert LinkedAt(at, node.path);
      if node.path != [] {
        assert LinkedAt(at, Up(node.path));
      }
    }

    lemma HasIntents(n: Node)
      requires Known(n)
      ensures n.path in Intents().Keys
    {
    }

    lemma KnownInValues(node: Node)
      requires Known(node)
      ensures node in at.Values
    {
    }

    // ---- the parts of the invariant ----

    lemma BooksLocks()
      ensures Books().locks == Locks()
    {
    }

    lemma BooksParts()
      ensures Locks() == LockState(Owners(), Queues())
      ensures Books() == Book.Book(LockState(Owners(), Queues()), Intents(), Held(), Pending(), totalLocks, totalWaiters)
    {
    }

    lemma Opened()
      requires Valid()
      ensures Rooted() && Linked(at) && Filed() && Books().locks == Locks()
      ensures Healthy(Books()) && BalancedOwing(Books(), {}) && Sound(Locks())
    {
    }

    lemma Closed()
      requires Rooted() && Filed() && BalancedOwing(Books(), {}) && NoLostWakeup(Locks())
      ensures Valid()
    {
    }

    // ---- registries ----

    method RegisterOwned(node: Node, fd: int)
      requires Known(node) && Filed()
      modifies this`fdRegistry
      ensures Filed() && Held() == Register(old(Held()), node.path, fd)
      ensures Locks() == old(Locks()) && Intents() == old(Intents())
    {
      fdRegistry := RegisterNode(fdRegistry, node, fd);
    }

    method UnregisterOwned(node: Node, fd: int)
      requires Known(node) && Filed()
      modifies this`fdRegistry
      ensures Filed() && Held() == Unregister(old(Held()), node.path, fd)
      ensures Locks() == old(Locks()) && Intents() == old(Intents())
    {
      fdRegistry := UnregisterNode(fdRegistry, node, fd);
    }

    method RegisterWaiting(node: Node, fd: int)
      requires Known(node) && Filed()
      modifies this`waitingRegistry
      ensures Filed() && Pending() == Register(old(Pending()), node.path, fd)
      ensures Locks() == old(Locks()) && Intents() == old(Intents())
    {
      waitingRegistry := RegisterNode(waitingRegistry, node, fd);
    }

    method UnregisterWaiting(node: Node, fd: int)
      requires Known(node) && Filed()
      modifies this`waitingRegistry
      ensures Filed() && Pending() == Unregister(old(Pending()), node.path, fd)
      ensures Locks() == old(Locks()) && Intents() == old(Intents())
    {
      waitingRegistry := UnregisterNode(waitingRegistry, node, fd);
    }

    // ---- granting ----

    /**
    Hands an unlocked node without locks below to the head of its queue and returns the new
    owner, or -1. `owing` are nodes whose count a disconnect has not adjusted yet.
    */
    method GrantToNextWaiter(node: Node, ghost owing: set<Path>) returns (granted: int)
      requires Linked(at) && Filed() && Known(node)
      requires BalancedOwing(Books(), owing) && node.path !in owing
      modifies this`fdRegistry, this`waitingRegistry, this`totalLocks, this`totalWaiters
      modifies at.Values`ownerFd, at.Values`waiters, at.Values`intentCount
      ensures Filed() && BalancedOwing(Books(), owing)
      ensures Locks() == Offer(old(Locks()), node.path).state && granted == Offer(old(Locks()), node.path).code
      ensures granted == NO_FD <==> !Grantable(old(Locks()), node.path)
      ensures !Grantable(old(Locks()), node.path) ==> Books() == old(Books())
      ensures Grantable(old(Locks()), node.path) ==> Books() == HandBook(old(Books()), node.path)
    {
      ghost var b, path := Books(), node.path;
      CountTest(b, path, owing);
      assert node.waiters == b.locks.queue[path] && node.intentCount == b.intents[path];
      if |node.waiters| == 0 {
        return NO_FD;
      }
      if node.intentCount > 0 || node.ownerFd != NO_FD {
        return NO_FD;
      }
      assert Grantable(b.locks, path);
      assert node.waiters[0] in b.locks.queue[path];
      granted := HandOver(node);
      HandBalanced(b, path, owing);
    }

    method HandOver(node: Node) returns (granted: int)
      requires Linked(at) && Filed() && Known(node) && node.waiters != []
      modifies this`fdRegistry, this`waitingRegistry, this`totalLocks, this`totalWaiters
      modifies at.Values`ownerFd, at.Values`waiters, at.Values`intentCount
      requires node.waiters[0] != NO_FD
      ensures Filed()
      ensures granted == old(Locks()).queue[node.path][0]
      ensures Books() == HandBook(old(Books()), node.path)
    {
      hide *;
      BooksParts();
      WaitersInQueues(node);
      KnownInValues(node);
      HandBookIs(Books(), node.path);
      granted := node.waiters[0];
      SetWaiters(node, node.waiters[1..]);
      UnregisterWaiting(node, granted);
      SetOwner(node, granted);
      RegisterOwned(node, granted);
      AdjustAncestors(node, 1);
      BooksParts();
    }

    lemma TakeReady(node: Node, fd: int)
      requires Valid() && Known(node) && fd >= 0 && Free(Locks(), node.path)
      ensures Rooted() && Linked(at) && Filed() && fd != NO_FD
      ensures var b := TakeBook(Books(), node.path, fd); BalancedOwing(b, {}) && NoLostWakeup(b.locks)
    {
      TakeHealthy(Books(), node.path, fd);
    }

    lemma EnqueueReady(node: Node, fd: int)
      requires Valid() && Known(node) && fd >= 0
      requires !Free(Locks(), node.path) && fd !in node.waiters && node.ownerFd != fd
      ensures Rooted() && Linked(at) && Filed() && node.path in Books().locks.queue
      ensures var b := ArriveBook(Books(), node.path, fd); BalancedOwing(b, {}) && NoLostWakeup(b.locks)
    {
      ArriveHealthy(Books(), node.path, fd);
    }

    /** Takes a free node. */
    method Take(node: Node, fd: int)
      requires Valid() && Known(node) && fd >= 0 && Free(Locks(), node.path)
      modifies this`fdRegistry, this`totalLocks, at.Values`ownerFd, at.Values`intentCount
      ensures Valid() && Books() == TakeBook(old(Books()), node.path, fd)
    {
      hide *;
      TakeReady(node, fd);
      TakeFields(node, fd);
      BooksLocks();
      Closed();
    }

    method TakeFields(node: Node, fd: int)
      requires Linked(at) && Filed() && Known(node) && fd != NO_FD
      modifies this`fdRegistry, this`totalLocks, at.Values`ownerFd, at.Values`intentCount
      ensures Filed() && Books() == TakeBook(old(Books()), node.path, fd)
    {
      SetOwner(node, fd);
      RegisterOwned(node, fd);
      AdjustAncestors(node, 1);
    }

    /** Joins the queue of a node. */
    method Enqueue(node: Node, fd: int)
      requires Valid() && Known(node) && fd >= 0
      requires !Free(Locks(), node.path) && fd !in node.waiters && node.ownerFd != fd
      modifies this`waitingRegistry, this`totalWaiters, node`waiters
      ensures Valid() && Books() == ArriveBook(old(Books()), node.path, fd)
    {
      hide *;
      EnqueueReady(node, fd);
      EnqueueFields(node, fd);
      BooksLocks();
      Closed();
    }

    method EnqueueFields(node: Node, fd: int)
      requires Linked(at) && Filed() && Known(node)
      modifies this`waitingRegistry, this`totalWaiters, node`waiters
      ensures Filed() && Books() == ArriveBook(old(Books()), node.path, fd)
    {
      SetWaiters(node, node.waiters + [fd]);
      RegisterWaiting(node, fd);
    }

    // ---- requests ----

    /** Resolves and creates a node for a lock request, unless an ancestor is locked. */
    method Locate(path: string, refuseLocked: bool) returns (node: Node?, ancestorLocked: bool)
      requires Valid()
      modifies this`at, this`totalNodes, at.Values`children
      ensures Valid()
      ensures ancestorLocked <==> refuseLocked && AncestorLocked(old(Locks()), Resolve(path))
      ensures ancestorLocked ==> node == null && Locks() == old(Locks())
      ensures !ancestorLocked ==> node != null && Known(node) && node.path == Resolve(path)
      ensures !ancestorLocked ==> Locks() == Grow(old(Locks()), Resolve(path))
      ensures Settings() == old(Settings())
      ensures forall n :: n in old(at.Values) ==> n in at.Values
      ensures fresh(at.Values - old(at.Values))
    {
      hide Healthy, AncestorLocked, Grow, Rooted, Owners, Queues, Intents, Settings, Held, Pending;
      ghost var b := Books();
      node, ancestorLocked := Traverse(path, true, refuseLocked);
      if !ancestorLocked {
        GrownFiled(node.path);
        GrownBooks(node.path);
        GrownSettings(node.path);
        GrowHealthy(b, node.path);
      }
    }

    lemma AcquireSays(path: string, fd: int, wait: bool)
      requires Valid()
      ensures var p := Resolve(path);
              var o := Acquire(Locks(), p, fd, wait);
              && (!wait ==> o.code != 1 && SameQueues(Locks(), o.state))
              && (o.code == 0 <==> !AncestorLocked(Locks(), p) && Owns(o.state, p, fd))
              && p in Grow(Locks(), p).queue
              && o == (if AncestorLocked(Locks(), p) then Outcome(Locks(), [], -1) else AcquireNode(Grow(Locks(), p), p, fd, wait))
      ensures SameQueues(Locks(), Locks())
    {
      GrowKeepsQueues(Locks(), Resolve(path));
      hide Rooted, Filed, Locks, AcquireNode, Sound;
      SoundLocks();
      AcquireOwners(Locks(), Resolve(path), fd, wait);
      AcquireQueues(Locks(), Resolve(path), fd, wait);
    }

    lemma SoundLocks()
      requires Valid()
      ensures Sound(Locks())
    {
    }

    method AcquireLock(path: string, fd: int, wait: bool) returns (code: int)
      requires Valid() && fd >= 0
      modifies this, at.Values
      ensures Valid()
      ensures path == "" ==> code == -1 && Locks() == old(Locks())
      ensures path != "" ==>
                var o := Acquire(old(Locks()), Resolve(path), fd, wait);
                code == o.code && Locks() == o.state
      ensures !wait ==> code != 1 && SameQueues(old(Locks()), Locks())
      ensures path != "" ==> (code == 0 <==> !AncestorLocked(old(Locks()), Resolve(path)) && Owns(Locks(), Resolve(path), fd))
      ensures Settings() == old(Settings()) && transientRegistry == old(transientRegistry)
      ensures fresh(at.Values - old(at.Values))
    {
      hide *;
      AcquireSays(path, fd, wait);
      if path == "" {
        return -1;
      }
      var node, ancestorLocked := Locate(path, true);
      if ancestorLocked || node == null {
        return -1;
      }
      code := AcquireAt(node, fd, wait);
    }

    /** What the local fields of a node say about the locks. */
    lemma NodeTests(node: Node)
      requires Valid() && Known(node)
      ensures var s, p := Locks(), node.path;
              && p in s.queue && node.waiters == s.queue[p]
              && (p in s.owner <==> node.ownerFd != NO_FD) && (p in s.owner ==> s.owner[p] == node.ownerFd)
              && (node.ownerFd >= 0 ==> p in s.owner)
              && (Free(s, p) <==> node.ownerFd == NO_FD && node.intentCount <= 0)
              && (p in s.owner ==> s.owner[p] !in s.queue[p])
    {
      CountTest(Books(), node.path, {});
    }

    method AcquireAt(node: Node, fd: int, wait: bool) returns (code: int)
      requires Valid() && fd >= 0 && Known(node)
      modifies this`fdRegistry, this`waitingRegistry, this`totalLocks, this`totalWaiters
      modifies at.Values`ownerFd, at.Values`waiters, at.Values`intentCount
      ensures Valid()
      ensures var o := AcquireNode(old(Locks()), node.path, fd, wait);
              code == o.code && Locks() == o.state
    {
      NodeTests(node);
      hide Valid, Free, Owners, Queues, Intents;
      if node.ownerFd == fd {
        return 0;
      }
      if node.ownerFd != NO_FD || node.intentCount > 0 {
        if !wait {
          return -1;
        }
        var waiting := IsWaiting(node, fd);
        if waiting {
          return 1;
        }
        if |node.waiters| >= MAX_WAITERS {
          return -1;
        }
        Enqueue(node, fd);
        return 1;
      }
      Take(node, fd);
      code := 0;
    }

    method ReleaseLock(path: string, fd: int) returns (next: int)
      requires Valid() && fd >= 0
      modifies this, at.Values
      ensures Valid()
      ensures var o := Release(old(Locks()), Resolve(path), fd);
              next == o.code && Locks() == o.state
      ensures !Owns(old(Locks()), Resolve(path), fd) ==> next == -1 && Locks() == old(Locks())
      ensures at == old(at) && Settings() == old(Settings()) && transientRegistry == old(transientRegistry)
    {
      hide Balanced, BalancedOwing, Healthy, Settings, Intents, Held, Pending, Filed;
      var node, _ := Traverse(path, false, false);
      if node == null || node.ownerFd != fd {
        return NO_FD;
      }
      next := ReleaseNode(node, fd);
    }

    method ReleaseNode(node: Node, fd: int) returns (next: int)
      requires Valid() && fd >= 0 && Known(node) && node.ownerFd == fd
      modifies this`fdRegistry, this`waitingRegistry, this`totalLocks, this`totalWaiters
      modifies at.Values`ownerFd, at.Values`waiters, at.Values`intentCount
      ensures Valid()
      ensures var o := Release(old(Locks()), node.path, fd);
              next == o.code && Locks() == o.state
    {
      hide *;
      NodeTests(node);
      Opened();
      ReleaseParts(Books(), node.path, fd);
      GiveUp(node, fd);
      BooksLocks();
      next := GrantUpwards(node);
      Closed();
    }

    /** Offers a node and then its ancestors, from the nearest up, until one is granted. */
    method GrantUpwards(node: Node) returns (next: int)
      requires Linked(at) && Filed() && Known(node) && BalancedOwing(Books(), {})
      modifies this`fdRegistry, this`waitingRegistry, this`totalLocks, this`totalWaiters
      modifies at.Values`ownerFd, at.Values`waiters, at.Values`intentCount
      ensures Filed() && BalancedOwing(Books(), {})
      ensures var o := OfferFirst(old(Locks()), node.path);
              next == o.code && Locks() == o.state
    {
      hide *;
      ghost var s, path := Locks(), node.path;
      OfferFirstSteps(s, path);
      BooksLocks();
      next := GrantToNextWaiter(node, {});
      BooksLocks();
      if next == NO_FD {
        ParentOf(node);
        var p := node.parent;
        while p != null
          invariant Filed() && BalancedOwing(Books(), {}) && Locks() == s
          invariant p != null ==> Known(p) && OfferFirst(s, path) == OfferFirst(s, p.path)
          invariant p == null ==> OfferFirst(s, path) == Outcome(s, [], -1)
          decreases if p == null then 0 else |p.path| + 1
        {
          OfferFirstSteps(s, p.path);
          BooksLocks();
          next := GrantToNextWaiter(p, {});
          BooksLocks();
          if next != NO_FD {
            return;
          }
          ParentOf(p);
          p := p.parent;
        }
        next := -1;
      }
    }

    method GiveUp(node: Node, fd: int)
      requires Linked(at) && Filed() && Known(node)
      modifies this`fdRegistry, this`totalLocks, at.Values`ownerFd, at.Values`intentCount
      ensures Filed() && Books() == FreeBook(old(Books()), node.path, fd)
    {
      hide *;
      BooksParts();
      KnownInValues(node);
      FreeBookIs(Books(), node.path, fd);
      ClearOwner(node);
      UnregisterOwned(node, fd);
      AdjustAncestors(node, -1);
      BooksParts();
    }

    // ---- disconnect ----

    lemma WaitersInQueues(node: Node)
      requires Known(node)
      ensures node.path in Queues() && Queues()[node.path] == node.waiters && Queues() == Queues()[node.path := node.waiters]
    {
    }

    /** Takes `fd` out of one queue. */
    method RemoveWaiter(node: Node, fd: int)
      requires Linked(at) && Known(node)
      modifies node`waiters, this`totalWaiters
      ensures var before := old(Queues())[node.path];
              && Queues() == old(Queues())[node.path := Without(before, fd)]
              && totalWaiters == old(totalWaiters) + |Without(before, fd)| - |before|
      ensures Owners() == old(Owners()) && Intents() == old(Intents())
    {
      var fds := node.waiters;
      WaitersInQueues(node);
      hide *;
      var j := 0;
      while j < |fds|
        invariant 0 <= j <= |fds| && fd !in fds[..j]
      {
        if fds[j] == fd {
          WithoutIs(fds, fd, j);
          SetWaiters(node, fds[..j] + fds[j + 1..]);
          return;
        }
        j := j + 1;
      }
      WithoutAbsent(fds, fd);
    }

    /** Step one of a disconnect: `fd` leaves every queue, before any of its locks is released. */
    method LeaveQueues(fd: int)
      requires Valid()
      modifies this`waitingRegistry, this`totalWaiters, at.Values`waiters
      ensures Valid()
      ensures Locks() == Withdraw(old(Locks()), fd) && Held() == old(Held())
    {
      hide *;
      Opened();
      BooksParts();
      ghost var b, paths := Books(), PathsOf(NodesOf(waitingRegistry, fd));
      var list := NodesOf(waitingRegistry, fd);
      ListKnown(fd);
      LeaveStart(b, fd, paths);
      var i := 0;
      while i < |list|
        invariant 0 <= i <= |list|
        invariant Queues() == LeaveEach(b.locks.queue, fd, paths[..i])
        invariant totalWaiters == |Places(LockState(b.locks.owner, Queues()))|
        invariant Owners() == b.locks.owner && Intents() == b.intents && Held() == b.held && Pending() == b.pending
        invariant totalLocks == b.lockTotal
        invariant Rooted() && Linked(at) && Filed()
        invariant forall k :: 0 <= k < |list| ==> Known(list[k]) && list[k] in at.Values && list[k].path == paths[k]
      {
        LeaveMore(b, fd, paths, i);
        RemoveWaiter(list[i], fd);
        i := i + 1;
      }
      LeaveDone(b, fd, paths, totalWaiters);
      DropWaiting(fd);
      BooksParts();
      Closed();
    }

    method DropWaiting(fd: int)
      requires Filed()
      modifies this`waitingRegistry
      ensures Filed() && Pending() == old(Pending()) - {fd}
      ensures Locks() == old(Locks()) && Intents() == old(Intents()) && Held() == old(Held())
      ensures Owners() == old(Owners()) && Queues() == old(Queues())
    {
      waitingRegistry := waitingRegistry - {fd};
    }

    lemma ListKnown(fd: int)
      requires Filed()
      ensures var list := NodesOf(waitingRegistry, fd);
              && PathsOf(list) == Entries(Pending(), fd)
              && forall k :: 0 <= k < |list| ==>
                   Known(list[k]) && list[k] in at.Values && list[k].path == PathsOf(list)[k]
    {
      var list := NodesOf(waitingRegistry, fd);
      forall k | 0 <= k < |list|
        ensures Known(list[k])
      {
        assert list[k] in waitingRegistry[fd];
      }
    }

    /** Walks up from a node to collect its segments, then prints them into `len` bytes. */
    method NodeGetPath(node: Node, len: nat) returns (written: int, buf: string)
      requires Linked(at) && Known(node)
      ensures written == if |Print(node.path)| < len then |Print(node.path)| else if node.path == [] then 0 else -1
      ensures |Print(node.path)| < len ==> buf == Print(node.path)
      ensures |Print(node.path)| > 0
    {
      var segments: seq<string> := [];
      var n: Node := node;
      assert node.path == node.path[..|node.path|];
      while n.parent != null
        invariant Known(n) && |n.path| <= |node.path| && n.path == node.path[..|n.path|]
        invariant segments == node.path[|n.path|..]
        decreases |n.path|
      {
        assert LinkedAt(at, n.path) && LinkedAt(at, Up(n.path));
        segments := [n.segment] + segments;
        n := n.parent;
      }
      assert LinkedAt(at, n.path);
      written, buf := PrintPath(segments, len);
    }

    /** Resolving the printed path of a node leads back to that node. */
    lemma PrintedPathLeadsBack(node: Node)
      requires Linked(at) && Known(node)
      ensures Resolve(Print(node.path)) in at && at[Resolve(Print(node.path))] == node
    {
      assert LinkedAt(at, node.path);
      ResolvePrint(node.path);
    }

    /** Unlocks a node that is first on its owner's list; the last entry takes its place there. */
    method UnlockFirst(node: Node, fd: int)
      requires Linked(at) && Filed() && Known(node)
      requires fd in fdRegistry && |fdRegistry[fd]| > 0 && fdRegistry[fd][0] == node
      modifies this`fdRegistry, this`totalLocks, node`ownerFd
      ensures Filed() && Books() == UnlockBook(old(Books()), node.path, fd)
    {
      ClearOwner(node);
      RemoveFirst(node, fd);
    }

    method RemoveFirst(node: Node, fd: int)
      requires Filed() && fd in fdRegistry && |fdRegistry[fd]| > 0 && fdRegistry[fd][0] == node
      modifies this`fdRegistry
      ensures Filed() && Held() == Unregister(old(Held()), node.path, fd)
      ensures Locks() == old(Locks()) && Intents() == old(Intents())
    {
      var list := fdRegistry[fd];
      ghost var before := Held();
      FirstOfList(list, node);
      fdRegistry := fdRegistry[fd := SwapRemove(list, 0)];
      assert Held() == Unregister(before, node.path, fd);
    }

    /**
    One turn of a disconnect. The node is unlocked; then, walking up, each ancestor's count is
    lowered and the ancestor offered at once, while the counts above it are still too high; the
    node itself is offered last. `calls` are the callbacks made, `wakeups` the bounded list.
    */
    method VacateNode(node: Node, fd: int, cap: nat, wakeups: seq<(int, string)>, ghost allWakes: seq<(int, string)>)
      returns (newWakeups: seq<(int, string)>, calls: seq<(int, string)>)
      requires Valid() && Known(node) && fd >= 0 && NotWaiting(Locks(), fd)
      requires fd in fdRegistry && |fdRegistry[fd]| > 0 && fdRegistry[fd][0] == node
      requires wakeups == Capped(allWakes, cap)
      modifies this`fdRegistry, this`waitingRegistry, this`totalLocks, this`totalWaiters
      modifies at.Values`ownerFd, at.Values`waiters, at.Values`intentCount
      ensures Valid() && NotWaiting(Locks(), fd)
      ensures var o := Vacate(old(Locks()), node.path, fd);
              && Locks() == o.state
              && calls == Notices(o.log, node.path)
              && newWakeups == Capped(allWakes + Wakes(o.log), cap)
      ensures Entries(Held(), fd) == SwapRemove(Entries(old(Held()), fd), 0)
    {
      hide *;
      FirstOwned(node, fd);
      Opened();
      BooksParts();
      ghost var b, path, keys := Books(), node.path, Intents().Keys;
      VacateStart(b, path, fd);
      UnlockFirst(node, fd);
      BooksParts();
      ghost var t := Locks();
      var written, text := NodeGetPath(node, PATH_BUFFER);
      newWakeups, calls := WalkUp(node, fd, cap, wakeups, allWakes, keys);
      ghost var s, log := Locks(), OfferAncestors(t, path).log;
      newWakeups, calls := OfferSelf(node, fd, written, text, cap, newWakeups, calls, log, allWakes);
      VacateLog(b.locks, path, fd, log, s, allWakes);
      VacateKeepsSound(b.locks, path, fd);
      Closed();
    }

    /** The end of a turn: the released node itself is offered. */
    method OfferSelf(node: Node, fd: int, written: int, text: string, cap: nat,
                     wakeups: seq<(int, string)>, calls: seq<(int, string)>,
                     ghost log: seq<Event>, ghost allWakes: seq<(int, string)>)
      returns (newWakeups: seq<(int, string)>, newCalls: seq<(int, string)>)
      requires Linked(at) && Filed() && Known(node) && NotWaiting(Locks(), fd) && BalancedOwing(Books(), {})
      requires written > 0 <==> |Print(node.path)| < PATH_BUFFER
      requires written > 0 ==> text == Print(node.path)
      requires calls == Notices(log, node.path) && wakeups == Capped(allWakes + Wakes(log), cap)
      modifies this`fdRegistry, this`waitingRegistry, this`totalLocks, this`totalWaiters
      modifies at.Values`ownerFd, at.Values`waiters, at.Values`intentCount
      ensures Filed() && BalancedOwing(Books(), {})
      ensures NotWaiting(Locks(), fd) && Entries(Held(), fd) == Entries(old(Held()), fd)
      ensures Locks() == Offer(old(Locks()), node.path).state
      ensures newCalls == Notices(log + Offer(old(Locks()), node.path).log, node.path)
      ensures newWakeups == Capped(allWakes + Wakes(log + Offer(old(Locks()), node.path).log), cap)
    {
      hide *;
      BooksParts();
      OfferToOthers(Books(), node.path, fd);
      ghost var s := Locks();
      var w := GrantToNextWaiter(node, {});
      BooksParts();
      newWakeups, newCalls := NoticeNode(node, w, written, text, cap, wakeups, calls, s, log, allWakes);
    }

    method WalkUp(node: Node, fd: int, cap: nat, wakeups: seq<(int, string)>, ghost allWakes: seq<(int, string)>,
                  ghost keys: set<Path>)
      returns (newWakeups: seq<(int, string)>, calls: seq<(int, string)>)
      requires Linked(at) && Filed() && Known(node) && NotWaiting(Locks(), fd)
      requires BalancedOwing(Books(), AncestorsIn(keys, node.path)) && Intents().Keys == keys
      requires wakeups == Capped(allWakes, cap)
      modifies this`fdRegistry, this`waitingRegistry, this`totalLocks, this`totalWaiters
      modifies at.Values`ownerFd, at.Values`waiters, at.Values`intentCount
      ensures Filed() && NotWaiting(Locks(), fd)
      ensures BalancedOwing(Books(), {}) && Entries(Held(), fd) == Entries(old(Held()), fd)
      ensures var o := OfferAncestors(old(Locks()), node.path);
              && Locks() == o.state
              && calls == Notices(o.log, node.path) && newWakeups == Capped(allWakes + Wakes(o.log), cap)
    {
      hide *;
      ghost var t, held, path := Locks(), Entries(Held(), fd), node.path;
      ghost var cur, log: seq<Event> := path, [];
      newWakeups, calls := wakeups, [];
      NoNotices(path, allWakes, cap);
      ParentOf(node);
      var p := node.parent;
      while p != null
        invariant p == null <==> cur == []
        invariant p != null ==> Known(p) && p in at.Values && p.path == Up(cur) && |Up(cur)| < |path|
        invariant Filed() && BalancedOwing(Books(), AncestorsIn(keys, cur)) && Intents().Keys == keys
        invariant NotWaiting(Locks(), fd) && Entries(Held(), fd) == held
        invariant OfferAncestors(t, path).state == OfferAncestors(Locks(), cur).state
        invariant OfferAncestors(t, path).log == log + OfferAncestors(Locks(), cur).log
        invariant calls == Notices(log, path) && newWakeups == Capped(allWakes + Wakes(log), cap)
        decreases |cur|
      {
        ghost var s := Locks();
        OfferAncestorsStep(s, cur, log);
        var w := LowerAndOffer(p, cur, keys, fd);
        newWakeups, calls := NoticeAncestor(p, w, cap, newWakeups, calls, s, path, log, allWakes);
        log := log + Offer(s, p.path).log;
        cur := p.path;
        ParentOf(p);
        p := p.parent;
      }
      VacateEnd(t, path, Locks(), log, keys);
    }

    /** Lowers the count of the parent of `cur`, then offers it. */
    method LowerAndOffer(p: Node, ghost cur: Path, ghost keys: set<Path>, ghost fd: int) returns (w: int)
      requires Linked(at) && Filed() && Known(p) && p in at.Values && cur != [] && p.path == Up(cur)
      requires BalancedOwing(Books(), AncestorsIn(keys, cur)) && Intents().Keys == keys
      requires NotWaiting(Locks(), fd)
      modifies this`fdRegistry, this`waitingRegistry, this`totalLocks, this`totalWaiters
      modifies at.Values`ownerFd, at.Values`waiters, at.Values`intentCount
      ensures Filed() && BalancedOwing(Books(), AncestorsIn(keys, p.path)) && Intents().Keys == keys
      ensures NotWaiting(Locks(), fd) && Entries(Held(), fd) == Entries(old(Held()), fd)
      ensures Locks() == Offer(old(Locks()), p.path).state && w == Offer(old(Locks()), p.path).code
      ensures w == NO_FD <==> !Grantable(old(Locks()), p.path)
    {
      hide *;
      BooksParts();
      HasIntents(p);
      PayBack(Books(), cur, keys);
      AddIntent(p, -1);
      BooksParts();
      OfferToOthers(Books(), p.path, fd);
      w := GrantToNextWaiter(p, AncestorsIn(keys, p.path));
      BooksParts();
    }

    /**
    A client disconnects. Its waits go first, so that nothing released below can be granted to
    it; then its locks go, one turn each, until its list is empty; then its transient settings.
    `calls` are the callbacks in order, `wakeups` the first `cap` grants.
    */
    method CleanupFd(fd: int, cap: nat) returns (wakeups: seq<(int, string)>, calls: seq<(int, string)>)
      requires Valid() && fd >= 0
      modifies this, at.Values
      ensures Valid()
      ensures var order := Drain(Entries(old(Held()), fd));
              var o := Disconnect(old(Locks()), fd, order);
              && ListsOwned(old(Locks()), order, fd)
              && Locks() == o.state
              && calls == VacateNotices(Withdraw(old(Locks()), fd), order, fd)
              && wakeups == Capped(Wakes(o.log), cap)
      ensures transientRegistry == old(transientRegistry) - {fd}
      ensures at == old(at) && Settings() == old(Settings())
    {
      hide *;
      wakeups, calls := CleanupLocks(fd, cap);
      DropTransient(fd);
      // The prune that follows starts at the root, which it never removes.
    }

    method CleanupLocks(fd: int, cap: nat) returns (wakeups: seq<(int, string)>, calls: seq<(int, string)>)
      requires Valid() && fd >= 0
      modifies this`fdRegistry, this`waitingRegistry, this`totalLocks, this`totalWaiters
      modifies at.Values`ownerFd, at.Values`waiters, at.Values`intentCount
      ensures Valid()
      ensures var order := Drain(Entries(old(Held()), fd));
              var o := Disconnect(old(Locks()), fd, order);
              && ListsOwned(old(Locks()), order, fd)
              && Locks() == o.state
              && calls == VacateNotices(Withdraw(old(Locks()), fd), order, fd)
              && wakeups == Capped(Wakes(o.log), cap)
    {
      hide *;
      Opened();
      BooksParts();
      ghost var b, list := Books(), Entries(Held(), fd);
      DrainListsOwned(b, fd);
      LeaveQueues(fd);
      ghost var s, log: seq<Event> := Locks(), [];
      CleanupStart(b.locks, fd, cap, list);
      wakeups, calls := [], [];
      OwnedList(fd);
      while |NodesOf(fdRegistry, fd)| > 0
        invariant Valid() && NotWaiting(Locks(), fd)
        invariant Entries(Held(), fd) == PathsOf(NodesOf(fdRegistry, fd)) && |Entries(Held(), fd)| == |NodesOf(fdRegistry, fd)|
        invariant VacateAll(s, Drain(list), fd).state == VacateAll(Locks(), Drain(Entries(Held(), fd)), fd).state
        invariant VacateAll(s, Drain(list), fd).log == log + VacateAll(Locks(), Drain(Entries(Held(), fd)), fd).log
        invariant VacateNotices(s, Drain(list), fd) == calls + VacateNotices(Locks(), Drain(Entries(Held(), fd)), fd)
        invariant wakeups == Capped(Wakes(log), cap)
        decreases |NodesOf(fdRegistry, fd)|
      {
        OwnedList(fd);
        ghost var before, entries, heard := Locks(), Entries(Held(), fd), calls;
        var node := NodesOf(fdRegistry, fd)[0];
        DrainStep(before, entries, fd, log, calls);
        var more: seq<(int, string)>;
        wakeups, more := VacateNode(node, fd, cap, wakeups, Wakes(log));
        calls := calls + more;
        log := log + Vacate(before, entries[0], fd).log;
        OwnedList(fd);
      }
      CleanupEnd(b.locks, s, Locks(), list, fd, log, calls);
      DropOwned(fd);
    }

    lemma OwnedList(fd: int)
      requires Valid()
      ensures var list := NodesOf(fdRegistry, fd);
              && Entries(Held(), fd) == PathsOf(list) && |PathsOf(list)| == |list|
              && (|list| > 0 ==> Known(list[0]) && PathsOf(list)[0] == list[0].path && fd in fdRegistry
                                 && |fdRegistry[fd]| > 0 && fdRegistry[fd][0] == list[0])
    {
      var list := NodesOf(fdRegistry, fd);
      if |list| > 0 {
        assert list[0] in fdRegistry[fd];
      }
    }

    method DropOwned(fd: int)
      requires Valid() && |NodesOf(fdRegistry, fd)| == 0
      modifies this`fdRegistry
      ensures Valid() && Locks() == old(Locks())
    {
      hide *;
      Opened();
      BooksParts();
      OwnedList(fd);
      DropEmptyList(Books(), fd);
      DropOwnedEntry(fd);
      BooksParts();
      Closed();
    }

    method DropOwnedEntry(fd: int)
      requires Filed()
      modifies this`fdRegistry
      ensures Filed() && Held() == old(Held()) - {fd}
    {
      fdRegistry := fdRegistry - {fd};
    }

    method DropTransient(fd: int)
      requires Valid()
      modifies this`transientRegistry
      ensures Valid() && transientRegistry == old(transientRegistry) - {fd}
    {
      hide *;
      Opened();
      transientRegistry := transientRegistry - {fd};
      Closed();
    }

    lemma FirstOwned(node: Node, fd: int)
      requires Valid() && Known(node) && fd in fdRegistry && |fdRegistry[fd]| > 0 && fdRegistry[fd][0] == node
      ensures node in at.Values
      ensures node.path in Locks().owner && Locks().owner[node.path] == fd
      ensures |Entries(Held(), fd)| > 0 && Entries(Held(), fd)[0] == node.path
    {
      assert ListedFor(Books(), fd);
      assert node.path in Entries(Held(), fd);
      assert node.path in Owned(Locks(), fd);
    }

    /** What a grant at an ancestor adds to the notices. */
    method NoticeAncestor(p: Node, w: int, cap: nat, wakeups: seq<(int, string)>, calls: seq<(int, string)>,
                          ghost s: LockState, ghost self: Path, ghost log: seq<Event>, ghost allWakes: seq<(int, string)>)
      returns (newWakeups: seq<(int, string)>, newCalls: seq<(int, string)>)
      requires Linked(at) && Known(p) && p.path != self
      requires w == Offer(s, p.path).code && (w == NO_FD <==> !Grantable(s, p.path))
      requires calls == Notices(log, self) && wakeups == Capped(allWakes + Wakes(log), cap)
      ensures newCalls == Notices(log + Offer(s, p.path).log, self)
      ensures newWakeups == Capped(allWakes + Wakes(log + Offer(s, p.path).log), cap)
    {
      newWakeups, newCalls := wakeups, calls;
      OneMoreNotice(log, s, p.path, self, allWakes, cap);
      if w == NO_FD {
        return;
      }
      var written, text := NodeGetPath(p, PATH_BUFFER);
      if |wakeups| < cap {
        newWakeups := wakeups + [(w, if written < 0 then "<truncated>" else text)];
      }
      if written >= 0 {
        newCalls := calls + [(w, text)];
      }
    }

    /** What a grant at the released node itself adds to the notices. */
    method NoticeNode(node: Node, w: int, written: int, text: string, cap: nat,
                      wakeups: seq<(int, string)>, calls: seq<(int, string)>,
                      ghost s: LockState, ghost log: seq<Event>, ghost allWakes: seq<(int, string)>)
      returns (newWakeups: seq<(int, string)>, newCalls: seq<(int, string)>)
      requires w == Offer(s, node.path).code && (w == NO_FD <==> !Grantable(s, node.path))
      requires written > 0 <==> |Print(node.path)| < PATH_BUFFER
      requires written > 0 ==> text == Print(node.path)
      requires calls == Notices(log, node.path) && wakeups == Capped(allWakes + Wakes(log), cap)
      ensures newCalls == Notices(log + Offer(s, node.path).log, node.path)
      ensures newWakeups == Capped(allWakes + Wakes(log + Offer(s, node.path).log), cap)
    {
      newWakeups, newCalls := wakeups, calls;
      OneMoreNotice(log, s, node.path, node.path, allWakes, cap);
      if w == NO_FD {
        return;
      }
      if |wakeups| < cap {
        newWakeups := wakeups + [(w, if written > 0 then text else "<truncated>")];
      }
      newCalls := calls + [(w, if written > 0 then text else "<unknown>")];
    }

    // ---- settings ----

    /** Writes a setting, or removes it when there is no value; a persistent one creates its node. */
    method SetConfig(path: string, fd: int, key: string, value: Option<string>, transient: bool) returns (code: int)
      requires Valid()
      modifies this, at.Values
      ensures Valid() && code == 0
      ensures transient ==>
                && transientRegistry == C.WriteTransient(old(transientRegistry), fd, key, value)
                && Settings() == old(Settings()) && Locks() == old(Locks())
      ensures !transient ==>
                && Settings() == C.Write(old(Settings()), (Resolve(path), key), value)
                && transientRegistry == old(transientRegistry) && Locks() == Grow(old(Locks()), Resolve(path))
      ensures fresh(at.Values - old(at.Values))
    {
      hide *;
      if transient {
        SetTransient(fd, key, value);
        return 0;
      }
      var node, _ := Locate(path, false);
      KnownInValues(node);
      PersistAt(node, key, value);
      code := 0;
    }

    method SetTransient(fd: int, key: string, value: Option<string>)
      requires Valid()
      modifies this`transientRegistry
      ensures Valid() && transientRegistry == C.WriteTransient(old(transientRegistry), fd, key, value)
    {
      hide *;
      Opened();
      var kv := KvOf(fd);
      kv := WriteKv(kv, key, value);
      WroteTransient(transientRegistry, fd, key, value);
      transientRegistry := transientRegistry[fd := kv];
      Closed();
    }

    method KvOf(fd: int) returns (kv: map<string, string>)
      ensures kv == if fd in transientRegistry then transientRegistry[fd] else map[]
    {
      kv := map[];
      if fd in transientRegistry {
        kv := transientRegistry[fd];
      }
    }

    method PersistAt(node: Node, key: string, value: Option<string>)
      requires Valid() && Known(node)
      modifies node`settings
      ensures Valid() && Settings() == C.Write(old(Settings()), (node.path, key), value)
      ensures Locks() == old(Locks())
    {
      hide *;
      Opened();
      WriteSettings(node, key, value);
      Closed();
    }

    method WriteSettings(node: Node, key: string, value: Option<string>)
      requires Linked(at) && Known(node)
      modifies node`settings
      ensures Settings() == C.Write(old(Settings()), (node.path, key), value)
    {
      NoOtherNode(at, node.path);
      ghost var before, path := KeyValues(), node.path;
      node.settings := WriteKv(node.settings, key, value);
      assert KeyValues() == before[path := node.settings];
      FlattenWrite(before, path, key, value);
    }

    /** The client's own override, else the setting of the deepest existing node on the path that has one. */
    method GetConfig(path: string, fd: int, key: string) returns (value: Option<string>)
      requires Valid()
      ensures value == C.Lookup(Settings(), transientRegistry, Resolve(path), fd, key)
    {
      if fd in transientRegistry {
        if key in transientRegistry[fd] {
          return Some(transientRegistry[fd][key]);
        }
      }
      var slots, count := ParseSegments(path);
      var segments := slots[..count];
      ResolveStorable(path);
      value := GetInherited(segments, key);
    }

    method GetInherited(p: Path, key: string) returns (value: Option<string>)
      requires Valid() && StorablePath(p)
      ensures value == C.Inherited(Settings(), p, key)
    {
      hide *;
      Opened();
      var nodes := FindNodes(p);
      var i := |nodes| - 1;
      NothingDeeper(p, i, key);
      while i >= 0
        invariant -1 <= i < |nodes|
        invariant C.Inherited(Settings(), p, key) == if i >= 0 then C.Inherited(Settings(), p[..i], key) else None
      {
        SettingAt(p[..i], key);
        if key in nodes[i].settings {
          InheritedHere(Settings(), p[..i], key);
          return Some(nodes[i].settings[key]);
        }
        InheritedUp(Settings(), p, i, key);
        i := i - 1;
      }
      value := None;
    }

    /** The existing nodes on a path, from the root down to the deepest. */
    method FindNodes(p: Path) returns (nodes: seq<Node>)
      requires Rooted()
      ensures 0 < |nodes| <= |p| + 1
      ensures forall k :: 0 <= k < |nodes| ==> p[..k] in at && nodes[k] == at[p[..k]]
      ensures |nodes| <= |p| ==> p[..|nodes|] !in at
    {
      nodes := [root];
      while |nodes| <= |p|
        invariant 0 < |nodes| <= |p| + 1
        invariant forall k :: 0 <= k < |nodes| ==> p[..k] in at && nodes[k] == at[p[..k]]
      {
        var i := |nodes| - 1;
        assert Branches(p[..i]);
        assert p[..i] + [p[i]] == p[..i + 1];
        if p[i] !in nodes[i].children {
          return;
        }
        nodes := nodes + [nodes[i].children[p[i]]];
      }
    }

    lemma SettingAt(p: Path, key: string)
      ensures (p, key) in Settings() <==> p in at && key in at[p].settings
      ensures (p, key) in Settings() ==> Settings()[(p, key)] == at[p].settings[key]
    {
      FlattenAt(KeyValues(), p, key);
    }

    /** Below the deepest existing node on a path nothing is stored. */
    lemma NothingDeeper(p: Path, i: nat, key: string)
      requires Linked(at) && i <= |p| && (i < |p| ==> p[..i + 1] !in at)
      ensures C.Inherited(Settings(), p, key) == C.Inherited(Settings(), p[..i], key)
      decreases |p| - i
    {
      hide Settings, StorablePath;
      if i < |p| {
        SettingAt(p[..i + 1], key);
      }
      if i == |p| {
        assert p[..i] == p;
      } else {
        if i + 1 < |p| {
          assert Up(p[..i + 2]) == p[..i + 1];
          assert p[..i + 2] in at ==> LinkedAt(at, p[..i + 2]);
        }
        NothingDeeper(p, i + 1, key);
        assert Up(p[..i + 1]) == p[..i];
      }
    }

    /** The running totals are those of a walk over the whole tree. */
    method GetStats() returns (nodes: int, waiters: int, locks: int)
      requires Valid()
      ensures nodes == |at| && locks == |Locks().owner| && waiters == |Places(Locks())|
    {
      nodes, waiters, locks := totalNodes, totalWaiters, totalLocks;
    }

    /** How many nodes a client owns. */
    method GetOwnedCount(fd: int) returns (count: nat)
      requires Valid()
      ensures count == |Owned(Locks(), fd)|
    {
      OwnedList(fd);
      assert ListedFor(Books(), fd);
      DistinctCount(Entries(Held(), fd), Owned(Locks(), fd));
      count := |NodesOf(fdRegistry, fd)|;
    }

    method IsWaiting(node: Node, fd: int) returns (waiting: bool)
      ensures waiting <==> fd in node.waiters
    {
      var i := 0;
      while i < |node.waiters|
        invariant 0 <= i <= |node.waiters| && fd !in node.waiters[..i]
      {
        if node.waiters[i] == fd {
          return true;
        }
        i := i + 1;
      }
      waiting := false;
    }
  }

  lemma {:induction false} DistinctCount(xs: seq<Path>, s: set<Path>)
    requires NoDuplicates(xs) && forall x :: x in xs <==> x in s
    ensures |xs| == |s|
  {
    if xs == [] {
      assert s == {};
    } else {
      assert xs == [xs[0]] + xs[1..];
      assert xs[0] !in xs[1..];
      DistinctCount(xs[1..], s - {xs[0]});
    }
  }

  lemma FirstOfList(list: seq<Node>, node: Node)
    requires |list| > 0 && list[0] == node
    ensures IndexOf(PathsOf(list), node.path) == 0 && node.path in PathsOf(list)
    ensures PathsOf(SwapRemove(list, 0)) == SwapRemove(PathsOf(list), 0)
  {
    assert PathsOf(list)[0] == node.path;
  }

  // ---- settings ----

  ghost function Flatten(kvs: map<Path, map<string, string>>): map<(Path, string), string> {
    map p, k | p in kvs && k in kvs[p] :: (p, k) := kvs[p][k]
  }

  lemma FlattenBlank()
    ensures Flatten(map[[] := map[]]) == map[]
  {
  }

  lemma FlattenAt(kvs: map<Path, map<string, string>>, p: Path, key: string)
    ensures (p, key) in Flatten(kvs) <==> p in kvs && key in kvs[p]
    ensures (p, key) in Flatten(kvs) ==> Flatten(kvs)[(p, key)] == kvs[p][key]
  {
  }

  lemma FlattenWriteAt(kvs: map<Path, map<string, string>>, p: Path, key: string, value: Option<string>, at: (Path, string))
    requires p in kvs
    ensures var now, after := Flatten(kvs[p := C.Write(kvs[p], key, value)]), C.Write(Flatten(kvs), (p, key), value);
            && (at in now <==> at in after)
            && (at in now && at in after ==> now[at] == after[at])
  {
    var (q, k) := at;
    FlattenAt(kvs, q, k);
    FlattenAt(kvs[p := C.Write(kvs[p], key, value)], q, k);
    hide Flatten;
  }

  lemma FlattenWrite(kvs: map<Path, map<string, string>>, p: Path, key: string, value: Option<string>)
    requires p in kvs
    ensures Flatten(kvs[p := C.Write(kvs[p], key, value)]) == C.Write(Flatten(kvs), (p, key), value)
  {
    hide *;
    forall at: (Path, string) {
      FlattenWriteAt(kvs, p, key, value, at);
    }
  }

  /** Removes the old value, then inserts the new one if there is one. */
  method WriteKv(kv: map<string, string>, key: string, value: Option<string>) returns (updated: map<string, string>)
    ensures updated == C.Write(kv, key, value)
  {
    updated := kv - {key};
    if value.Some? {
      updated := updated[key := value.value];
    }
  }

  lemma WroteTransient(transients: C.Transients, fd: int, key: string, value: Option<string>)
    ensures C.WriteTransient(transients, fd, key, value) ==
              transients[fd := C.Write(if fd in transients then transients[fd] else map[], key, value)]
  {
  }

  lemma InheritedHere(settings: C.Settings, p: Path, key: string)
    requires (p, key) in settings
    ensures C.Inherited(settings, p, key) == Some(settings[(p, key)])
  {
  }

  lemma InheritedUp(settings: C.Settings, p: Path, i: nat, key: string)
    requires i <= |p| && (p[..i], key) !in settings
    ensures C.Inherited(settings, p[..i], key) == if i > 0 then C.Inherited(settings, p[..i - 1], key) else None
  {
    if i > 0 {
      assert Up(p[..i]) == p[..i - 1];
    }
  }

  lemma PrefixesAre(p: Path)
    ensures forall q :: q in Prefixes(p) <==> q == p || Above(q, p)
  {
    assert p == p[..|p|];
    forall q | q == p || Above(q, p)
      ensures q in Prefixes(p)
    {
      assert q == p[..|q|];
    }
  }

  // ---- registries ----

  function NodesOf(registry: Registry, fd: int): seq<Node> {
    if fd in registry then registry[fd] else []
  }

  method RegisterNode(registry: Registry, node: Node, fd: int) returns (updated: Registry)
    ensures updated == registry[fd := NodesOf(registry, fd) + [node]]
    ensures RegistryPaths(updated) == Register(RegistryPaths(registry), node.path, fd)
  {
    var list := [];
    if fd in registry {
      list := registry[fd];
    }
    updated := registry[fd := list + [node]];
    assert PathsOf(updated[fd]) == PathsOf(NodesOf(registry, fd)) + [node.path];
  }

  method UnregisterNode(registry: Registry, node: Node, fd: int) returns (updated: Registry)
    requires forall n :: n in NodesOf(registry, fd) && n.path == node.path ==> n == node
    ensures RegistryPaths(updated) == Unregister(RegistryPaths(registry), node.path, fd)
    ensures updated.Keys == registry.Keys
    ensures forall x, n :: x in updated && n in updated[x] ==> n in registry[x]
  {
    hide RegistryPaths, PathsOf, Unregister, SwapRemove;
    updated := registry;
    var i := 0;
    while fd in registry && i < |registry[fd]|
      invariant 0 <= i <= |NodesOf(registry, fd)|
      invariant updated == registry
      invariant node !in NodesOf(registry, fd)[..i]
      decreases |NodesOf(registry, fd)| - i
    {
      var list := registry[fd];
      if list[i] == node {
        updated := registry[fd := SwapRemove(list, i)];
        Unregistered(registry, node, fd, i);
        return;
      }
      i := i + 1;
    }
    NotRegistered(registry, node, fd);
  }

  lemma Unregistered(registry: Registry, node: Node, fd: int, i: nat)
    requires fd in registry && i < |registry[fd]| && registry[fd][i] == node && node !in registry[fd][..i]
    requires forall n :: n in registry[fd] && n.path == node.path ==> n == node
    ensures var updated := registry[fd := SwapRemove(registry[fd], i)];
            && RegistryPaths(updated) == Unregister(RegistryPaths(registry), node.path, fd)
            && updated.Keys == registry.Keys
            && forall x, n :: x in updated && n in updated[x] ==> n in registry[x]
  {
    var list := registry[fd];
    var paths := PathsOf(list);
    IndexIs(paths, node.path, i);
    SwapPaths(list, i);
    hide SwapRemove, PathsOf;
    var updated := registry[fd := SwapRemove(list, i)];
    assert updated.Keys == registry.Keys;
  }

  lemma NotRegistered(registry: Registry, node: Node, fd: int)
    requires node !in NodesOf(registry, fd)
    requires forall n :: n in NodesOf(registry, fd) && n.path == node.path ==> n == node
    ensures RegistryPaths(registry) == Unregister(RegistryPaths(registry), node.path, fd)
  {
    if fd in registry {
      var paths := PathsOf(registry[fd]);
      forall k | 0 <= k < |paths|
        ensures paths[k] != node.path
      {
        assert registry[fd][k] in registry[fd];
      }
    }
  }

  lemma SwapPaths(list: seq<Node>, i: nat)
    requires i < |list|
    ensures PathsOf(SwapRemove(list, i)) == SwapRemove(PathsOf(list), i)
    ensures forall n :: n in SwapRemove(list, i) ==> n in list
  {
  }

  lemma {:induction false} IndexIs<T>(xs: seq<T>, x: T, i: nat)
    requires i < |xs| && xs[i] == x && x !in xs[..i]
    ensures x in xs && IndexOf(xs, x) == i
  {
    if i != 0 {
      assert xs[0] == xs[..i][0];
      assert xs[1..][..i - 1] == xs[..i][1..];
      IndexIs(xs[1..], x, i - 1);
    }
  }

  /** Past a missing ancestor nothing exists. */
  lemma MissingBelow(tree: map<Path, Node>, next: Path, p: Path)
    requires Linked(tree) && next !in tree && (next == p || Above(next, p)) && next != []
    ensures p !in tree
    ensures forall q :: q in tree && Above(q, p) ==> q == Up(next) || Above(q, Up(next))
  {
    forall q | q in tree && (q == p || Above(q, p))
      ensures Above(q, next)
    {
      if next != p && q != p {
        AncestorsAreLinear(q, next, p);
      }
      if !Above(q, next) {
        PrefixKnown(tree, next, q);
      }
    }
    forall q | Above(q, next)
      ensures q == Up(next) || Above(q, Up(next))
    {
      AboveIsUpOrHigher(q, next);
    }
  }

  /** `grown` is `tree` with `p` and its ancestors added where they were missing. */
  ghost predicate Extended(tree: map<Path, Node>, grown: map<Path, Node>, p: Path) {
    && (forall q :: q in grown <==> q in tree || q == p || Above(q, p))
    && (forall q :: q in tree ==> grown[q] == tree[q])
  }

  lemma NextPrefix(p: Path, i: nat)
    requires i < |p| && StorablePath(p)
    ensures Storable(p[i]) && i < MAX_DEPTH
    ensures p[..i] + [p[i]] == p[..i + 1] && Up(p[..i + 1]) == p[..i] && p[i] in p
    ensures Above(p[..i], p) && (p[..i + 1] == p || Above(p[..i + 1], p))
    ensures forall q :: Above(q, p[..i + 1]) <==> q == p[..i] || Above(q, p[..i])
  {
    assert Up(p[..i + 1]) == p[..i];
    forall q
      ensures Above(q, p[..i + 1]) <==> q == p[..i] || Above(q, p[..i])
    {
      AboveIsUpOrHigher(q, p[..i + 1]);
    }
  }

  lemma ExtendedStart(tree: map<Path, Node>)
    requires [] in tree
    ensures Extended(tree, tree, [])
  {
  }

  lemma {:induction false} PrefixKnown(tree: map<Path, Node>, q: Path, p: Path)
    requires Linked(tree) && p in tree && (q == p || Above(q, p))
    ensures q in tree
    decreases |p|
  {
    if q != p {
      assert LinkedAt(tree, p);
      AboveIsUpOrHigher(q, p);
      PrefixKnown(tree, q, Up(p));
    }
  }

  lemma ExtendedMore(tree: map<Path, Node>, grown: map<Path, Node>, more: map<Path, Node>, p: Path)
    requires p != [] && Extended(tree, grown, Up(p))
    requires if p in grown then more == grown else p in more && more == grown[p := more[p]]
    ensures Extended(tree, more, p)
  {
    forall q
      ensures Above(q, p) <==> q == Up(p) || Above(q, Up(p))
    {
      AboveIsUpOrHigher(q, p);
    }
  }

  lemma ExtendedNothing(tree: map<Path, Node>, grown: map<Path, Node>, p: Path)
    requires Linked(tree) && p in tree && Extended(tree, grown, p)
    ensures grown == tree
  {
    forall q | q in grown
      ensures q in tree
    {
      if q !in tree {
        PrefixKnown(tree, q, p);
      }
    }
  }

  lemma LinkedGrows(tree: map<Path, Node>, node: Node, segment: string, child: Node)
    requires Linked(tree) && node.path in tree && tree[node.path] == node
    requires child.path == node.path + [segment] && child.segment == segment && child.parent == node
    requires child.path !in tree && Storable(segment) && |node.path| < MAX_DEPTH
    ensures Linked(tree[child.path := child])
    ensures forall s :: child.path + [s] !in tree
  {
    var path, at := child.path, tree[child.path := child];
    forall q | q in at
      ensures LinkedAt(at, q)
    {
      assert LinkedAt(tree, node.path);
      if q == path {
        assert Up(q) == node.path;
      } else {
        assert LinkedAt(tree, q);
      }
    }
    forall s
      ensures path + [s] !in tree
    {
      assert Up(path + [s]) == path;
      assert path + [s] in tree ==> LinkedAt(tree, path + [s]);
    }
  }

  /** No two paths lead to one node. */
  lemma NoOtherNode(at: map<Path, Node>, p: Path)
    requires Linked(at) && p in at
    ensures forall q :: q in at && at[q] == at[p] ==> q == p
  {
    assert LinkedAt(at, p);
    assert forall q :: q in at ==> LinkedAt(at, q);
  }

  /** `done` holds the ancestors of `path` that are not ancestors of `cur`. */
  ghost predicate Climbed(done: set<Path>, cur: Path, path: Path) {
    && (cur == path || Above(cur, path))
    && forall q :: q in done <==> Above(q, path) && !Above(q, cur)
  }

  function AddIn(intents: map<Path, int>, done: set<Path>, delta: int): map<Path, int> {
    map q | q in intents :: intents[q] + if q in done then delta else 0
  }

  lemma ClimbStart(intents: map<Path, int>, path: Path, delta: int)
    ensures Climbed({}, path, path) && AddIn(intents, {}, delta) == intents
  {
  }

  lemma Climb(done: set<Path>, cur: Path, path: Path)
    requires cur != [] && Climbed(done, cur, path)
    ensures Up(cur) !in done && Climbed(done + {Up(cur)}, Up(cur), path)
  {
    forall q
      ensures Above(q, cur) <==> q == Up(cur) || Above(q, Up(cur))
    {
      AboveIsUpOrHigher(q, cur);
    }
    if cur != path {
      AboveTransitive(Up(cur), cur, path);
    }
  }

  lemma AddOneMore(intents: map<Path, int>, done: set<Path>, delta: int, p: Path)
    requires p in AddIn(intents, done, delta) && p !in done
    ensures var before := AddIn(intents, done, delta);
            AddIn(intents, done + {p}, delta) == before[p := before[p] + delta]
  {
  }

  lemma ClimbEnd(intents: map<Path, int>, done: set<Path>, path: Path, delta: int)
    requires Climbed(done, [], path)
    ensures AddIn(intents, done, delta) == AdjustAbove(intents, path, delta)
  {
  }

  ghost const EmptyBook := Book.Book(Empty, map[[] := 0], map[], map[], 0, 0)

  lemma EmptyBalanced()
    ensures Healthy(EmptyBook)
  {
    assert Places(Empty) == {};
    assert OwnedBelow(Empty, []) == {};
    forall p | p in EmptyBook.intents
      ensures CountedAt(EmptyBook, p, {})
    {
    }
    forall fd
      ensures ListedFor(EmptyBook, fd)
    {
    }
  }
}
