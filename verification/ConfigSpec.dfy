/** Settings: what a lookup finds, and what any history of writes and disconnects leaves to find. */
module ConfigSpec {
  import opened Common
  import opened Paths

  type Settings = map<(Path, string), string>
  type Transients = map<int, map<string, string>>

  /** The value at the longest prefix of `p` that holds `key`. */
  function Inherited(settings: Settings, p: Path, key: string): Option<string>
    decreases |p|
  {
    if (p, key) in settings then Some(settings[(p, key)])
    else if p == [] then None
    else Inherited(settings, Up(p), key)
  }

  function TransientOf(transients: Transients, fd: int, key: string): Option<string> {
    if fd in transients && key in transients[fd] then Some(transients[fd][key]) else None
  }

  /** A client's own override first, then the settings of the path. */
  function Lookup(settings: Settings, transients: Transients, p: Path, fd: int, key: string): Option<string> {
    var own := TransientOf(transients, fd, key);
    if own.Some? then own else Inherited(settings, p, key)
  }

  predicate AtOrAbove(q: Path, p: Path) {
    q == p || Above(q, p)
  }

  /** `Inherited` finds the deepest holder on the path, and nothing exactly when there is none. */
  lemma {:induction false} InheritedFromDeepest(settings: Settings, p: Path, key: string)
    ensures Inherited(settings, p, key) == None <==> forall q :: AtOrAbove(q, p) ==> (q, key) !in settings
    ensures forall q :: AtOrAbove(q, p) && (q, key) in settings &&
                        (forall r :: AtOrAbove(r, p) && (r, key) in settings ==> |r| <= |q|) ==>
              Inherited(settings, p, key) == Some(settings[(q, key)])
    decreases |p|
  {
    if (p, key) in settings {
      assert AtOrAbove(p, p);
    } else if p != [] {
      forall q
        ensures AtOrAbove(q, p) && q != p <==> AtOrAbove(q, Up(p))
      {
        AboveIsUpOrHigher(q, p);
      }
      InheritedFromDeepest(settings, Up(p), key);
      forall q | AtOrAbove(q, p) && (q, key) in settings &&
                 (forall r :: AtOrAbove(r, p) && (r, key) in settings ==> |r| <= |q|)
        ensures Inherited(settings, p, key) == Some(settings[(q, key)])
      {
        assert AtOrAbove(q, Up(p));
      }
    }
  }

  // ---- writes ----

  function Write<K>(m: map<K, string>, k: K, value: Option<string>): map<K, string> {
    match value
    case Some(v) => m[k := v]
    case None => m - {k}
  }

  function WriteTransient(transients: Transients, fd: int, key: string, value: Option<string>): Transients {
    transients[fd := Write(if fd in transients then transients[fd] else map[], key, value)]
  }

  datatype Op =
    | Persist(path: Path, key: string, value: Option<string>)
    | Override(fd: int, key: string, value: Option<string>)
    | Leave(fd: int)

  datatype Config = Config(settings: Settings, transients: Transients)

  function Step(c: Config, op: Op): Config {
    match op
    case Persist(p, key, value) => c.(settings := Write(c.settings, (p, key), value))
    case Override(fd, key, value) => c.(transients := WriteTransient(c.transients, fd, key, value))
    case Leave(fd) => c.(transients := c.transients - {fd})
  }

  function After(ops: seq<Op>): Config
    decreases |ops|
  {
    if ops == [] then Config(map[], map[]) else Step(After(ops[..|ops| - 1]), ops[|ops| - 1])
  }

  /** The last write to `key` at exactly `p`. */
  function LastPersisted(ops: seq<Op>, p: Path, key: string): Option<string>
    decreases |ops|
  {
    if ops == [] then None
    else
      var op := ops[|ops| - 1];
      if op.Persist? && op.path == p && op.key == key then op.value
      else LastPersisted(ops[..|ops| - 1], p, key)
  }

  /** The last override of `key` by `fd`, forgotten when `fd` disconnects. */
  function LastOverride(ops: seq<Op>, fd: int, key: string): Option<string>
    decreases |ops|
  {
    if ops == [] then None
    else
      var op := ops[|ops| - 1];
      if op == Leave(fd) then None
      else if op.Override? && op.fd == fd && op.key == key then op.value
      else LastOverride(ops[..|ops| - 1], fd, key)
  }

  function LastInherited(ops: seq<Op>, p: Path, key: string): Option<string>
    decreases |p|
  {
    var here := LastPersisted(ops, p, key);
    if here.Some? || p == [] then here else LastInherited(ops, Up(p), key)
  }

  lemma {:induction false} AfterIsLastWrite(ops: seq<Op>, p: Path, fd: int, key: string)
    ensures var c := After(ops);
            && ((p, key) in c.settings <==> LastPersisted(ops, p, key).Some?)
            && ((p, key) in c.settings ==> LastPersisted(ops, p, key) == Some(c.settings[(p, key)]))
            && TransientOf(c.transients, fd, key) == LastOverride(ops, fd, key)
    decreases |ops|
  {
    if ops != [] {
      AfterIsLastWrite(ops[..|ops| - 1], p, fd, key);
    }
  }

  lemma {:induction false} InheritedIsLast(ops: seq<Op>, p: Path, key: string)
    ensures Inherited(After(ops).settings, p, key) == LastInherited(ops, p, key)
    decreases |p|
  {
    AfterIsLastWrite(ops, p, 0, key);
    if p != [] {
      InheritedIsLast(ops, Up(p), key);
    }
  }

  /** A lookup after any history is decided by the last writes in it. */
  lemma LookupIsLastWrite(ops: seq<Op>, p: Path, fd: int, key: string)
    ensures var own := LastOverride(ops, fd, key);
            Lookup(After(ops).settings, After(ops).transients, p, fd, key) ==
              if own.Some? then own else LastInherited(ops, p, key)
  {
    AfterIsLastWrite(ops, p, fd, key);
    InheritedIsLast(ops, p, key);
  }
}
