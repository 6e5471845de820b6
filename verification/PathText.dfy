/** Path strings: resolving one to the segments of a node, and printing a node's path. */
module PathText {
  import opened Paths

  const MAX_DEPTH := 64
  const MAX_SEGMENT := 127

  // ---- resolving ----

  /** The non-empty pieces between slashes, `current` being what has been read of the first. */
  function Cut(current: string, text: string): seq<string>
    decreases |text|
  {
    if text == "" then Keep(current)
    else if text[0] == '/' then Keep(current) + Cut("", text[1..])
    else Cut(current + [text[0]], text[1..])
  }

  function Keep(piece: string): seq<string> {
    if piece == "" then [] else [piece]
  }

  function Pieces(text: string): seq<string> {
    Cut("", text)
  }

  function Push(stack: Path, piece: string): Path {
    if piece == "." then stack
    else if piece == ".." then (if stack == [] then [] else Up(stack))
    else stack + [if |piece| > MAX_SEGMENT then piece[..MAX_SEGMENT] else piece]
  }

  /** Push the pieces one by one; a full stack ignores everything after it. */
  function Fold(stack: Path, pieces: seq<string>): Path
    decreases |pieces|
  {
    if pieces == [] || |stack| >= MAX_DEPTH then stack
    else Fold(Push(stack, pieces[0]), pieces[1..])
  }

  function Resolve(text: string): Path {
    Fold([], Pieces(text))
  }

  /** A segment as it is stored in a node. */
  predicate Storable(segment: string) {
    0 < |segment| <= MAX_SEGMENT && segment != "." && segment != ".." && '/' !in segment
  }

  predicate StorablePath(p: Path) {
    |p| <= MAX_DEPTH && forall s :: s in p ==> Storable(s)
  }

  lemma {:induction false} CutHasNoSlash(current: string, text: string)
    requires '/' !in current
    ensures forall s :: s in Cut(current, text) ==> s != "" && '/' !in s
    decreases |text|
  {
    if text != "" {
      CutHasNoSlash(if text[0] == '/' then "" else current + [text[0]], text[1..]);
    }
  }

  lemma PushStorable(stack: Path, piece: string)
    requires StorablePath(stack) && |stack| < MAX_DEPTH
    requires piece != "" && '/' !in piece
    ensures StorablePath(Push(stack, piece))
  {
    assert forall i :: 0 <= i < |piece| ==> piece[i] != '/';
    if piece != ".." && |piece| > MAX_SEGMENT {
      assert Storable(piece[..MAX_SEGMENT]);
    }
  }

  lemma {:induction false} FoldStorable(stack: Path, pieces: seq<string>)
    requires StorablePath(stack)
    requires forall s :: s in pieces ==> s != "" && '/' !in s
    ensures StorablePath(Fold(stack, pieces))
    decreases |pieces|
  {
    if pieces != [] && |stack| < MAX_DEPTH {
      assert pieces[0] in pieces;
      PushStorable(stack, pieces[0]);
      FoldStorable(Push(stack, pieces[0]), pieces[1..]);
    }
  }

  /** Whatever the client sends, the segments stored are proper names and at most 64 deep. */
  lemma ResolveStorable(text: string)
    ensures StorablePath(Resolve(text))
  {
    CutHasNoSlash("", text);
    FoldStorable([], Pieces(text));
  }

  /**
  Splits a path string in place, as the traversal and the config lookup do, into 64 slots of
  at most 127 characters.
  */
  method ParseSegments(path: string) returns (slots: array<string>, count: nat)
    ensures slots.Length == MAX_DEPTH && count <= MAX_DEPTH
    ensures slots[..count] == Resolve(path)
    ensures fresh(slots)
  {
    slots := new string[MAX_DEPTH](_ => "");
    count := 0;
    var p := SkipSlashes(path, 0);
    assert path[0..] == path;
    while p < |path| && count < MAX_DEPTH
      invariant p <= |path| && count <= MAX_DEPTH
      invariant p < |path| ==> path[p] != '/'
      invariant Fold(slots[..count], Pieces(path[p..])) == Resolve(path)
      decreases |path| - p
    {
      ghost var stack, before := slots[..count], Pieces(path[p..]);
      var start := p;
      p := SkipSegment(path, p);
      assert before[1..] == Pieces(path[p..]);
      count := PushSegment(slots, count, path[start..p]);
      assert Fold(slots[..count], Pieces(path[p..])) == Fold(stack, before);
      p := SkipSlashes(path, p);
    }
  }

  method PushSegment(slots: array<string>, count: nat, piece: string) returns (newCount: nat)
    requires slots.Length == MAX_DEPTH && count < MAX_DEPTH
    modifies slots
    ensures newCount <= MAX_DEPTH && slots[..newCount] == Push(old(slots[..count]), piece)
  {
    newCount := count;
    ghost var stack := slots[..count];
    if |piece| == 1 && piece == "." {
    } else if |piece| == 2 && piece == ".." {
      if count > 0 {
        newCount := count - 1;
        assert slots[..newCount] == stack[..|stack| - 1];
      }
    } else {
      slots[count] := if |piece| > MAX_SEGMENT then piece[..MAX_SEGMENT] else piece;
      newCount := count + 1;
      assert slots[..newCount] == stack + [slots[count]];
    }
  }

  method SkipSlashes(path: string, from: nat) returns (p: nat)
    requires from <= |path|
    ensures from <= p <= |path| && (p < |path| ==> path[p] != '/')
    ensures Pieces(path[p..]) == Pieces(path[from..])
  {
    p := from;
    while p < |path| && path[p] == '/'
      invariant from <= p <= |path|
      invariant Pieces(path[p..]) == Pieces(path[from..])
    {
      assert path[p..][1..] == path[p + 1..];
      p := p + 1;
    }
  }

  method SkipSegment(path: string, from: nat) returns (p: nat)
    requires from < |path| && path[from] != '/'
    ensures from < p <= |path|
    ensures Pieces(path[from..]) == [path[from..p]] + Pieces(path[p..])
  {
    p := from;
    assert path[from..p] == "";
    while p < |path| && path[p] != '/'
      invariant from <= p <= |path| && (p == from ==> path[p] != '/')
      invariant Cut(path[from..p], path[p..]) == Pieces(path[from..])
    {
      assert path[p..][1..] == path[p + 1..];
      SliceGrows(path, from, p);
      p := p + 1;
    }
  }

  lemma SliceGrows<T>(xs: seq<T>, i: nat, j: nat)
    requires i <= j < |xs|
    ensures xs[i..j] + [xs[j]] == xs[i..j + 1]
  {
  }

  // ---- printing ----

  function Print(p: Path): string {
    if p == [] then "/" else Slashed(p)
  }

  /** Every segment with a slash before it. */
  function Slashed(p: Path): string {
    if p == [] then "" else "/" + p[0] + Slashed(p[1..])
  }

  /** Reading a name up to a slash or the end yields exactly that name. */
  lemma {:induction false} CutName(current: string, name: string, rest: string)
    requires '/' !in name && current + name != "" && (rest == "" || rest[0] == '/')
    ensures Cut(current, name + rest) == [current + name] + Pieces(rest)
    decreases |name|
  {
    if name == "" {
      assert name + rest == rest && current + name == current;
    } else {
      assert (name + rest)[1..] == name[1..] + rest;
      assert current + [name[0]] + name[1..] == current + name;
      CutName(current + [name[0]], name[1..], rest);
    }
  }

  lemma {:induction false} PiecesOfSlashed(p: Path)
    requires forall s :: s in p ==> Storable(s)
    ensures Pieces(Slashed(p)) == p
  {
    if p != [] {
      assert p[0] in p && Storable(p[0]);
      assert Slashed(p)[1..] == p[0] + Slashed(p[1..]);
      assert "" + p[0] == p[0];
      CutName("", p[0], Slashed(p[1..]));
      PiecesOfSlashed(p[1..]);
    }
  }

  lemma {:induction false} FoldKeeps(stack: Path, pieces: seq<string>)
    requires forall s :: s in pieces ==> Storable(s)
    requires |stack| + |pieces| <= MAX_DEPTH
    ensures Fold(stack, pieces) == stack + pieces
    decreases |pieces|
  {
    if pieces == [] {
      assert stack + pieces == stack;
    } else {
      assert pieces[0] in pieces && Storable(pieces[0]);
      FoldKeeps(stack + [pieces[0]], pieces[1..]);
      assert stack + [pieces[0]] + pieces[1..] == stack + pieces;
    }
  }

  /** The printed path of a node resolves to that node. */
  lemma ResolvePrint(p: Path)
    requires StorablePath(p)
    ensures Resolve(Print(p)) == p
  {
    if p == [] {
      assert "/"[1..] == "";
      assert Pieces("/") == [];
    } else {
      PiecesOfSlashed(p);
      FoldKeeps([], p);
    }
  }

  /** A slash is followed by a name: none at the end, no two in a row. */
  predicate Tight(text: string) {
    forall i :: 0 <= i < |text| && text[i] == '/' ==> i + 1 < |text| && text[i + 1] != '/'
  }

  lemma {:induction false} SlashedTight(p: Path)
    requires forall s :: s in p ==> Storable(s)
    ensures Tight(Slashed(p)) && (p != [] ==> Slashed(p)[0] == '/') && (p == [] <==> Slashed(p) == "")
    decreases |p|
  {
    if p != [] {
      assert p[0] in p && Storable(p[0]);
      SlashedTight(p[1..]);
      var rest, text := Slashed(p[1..]), Slashed(p);
      assert forall i :: 0 <= i < |p[0]| ==> text[1 + i] == p[0][i] && p[0][i] in p[0];
      assert forall i :: 0 <= i < |rest| ==> text[1 + |p[0]| + i] == rest[i];
      forall i | 0 <= i < |text| && text[i] == '/'
        ensures i + 1 < |text| && text[i + 1] != '/'
      {
        if i > |p[0]| {
          assert rest[i - 1 - |p[0]|] == '/';
        }
      }
    }
  }

  /** The printed form is the plain one: it starts with a slash, and every slash has a name behind it. */
  lemma PrintIsPlain(p: Path)
    requires StorablePath(p)
    ensures Print(p)[0] == '/' && (p == [] <==> Print(p) == "/") && (p != [] ==> Tight(Print(p)))
  {
    SlashedTight(p);
  }

  // ---- the meaning of a longer path ----

  lemma {:induction false} CutAppend(current: string, a: string, b: string)
    requires b == "" || b[0] == '/'
    ensures Cut(current, a + b) == Cut(current, a) + Pieces(b)
    decreases |a|
  {
    if a == "" {
      assert a + b == b;
    } else {
      assert (a + b)[1..] == a[1..] + b;
      CutAppend(if a[0] == '/' then "" else current + [a[0]], a[1..], b);
    }
  }

  lemma {:induction false} FoldAppend(stack: Path, xs: seq<string>, ys: seq<string>)
    ensures Fold(stack, xs + ys) == Fold(Fold(stack, xs), ys)
    decreases |xs|
  {
    if xs == [] {
      assert xs + ys == ys;
    } else if |stack| < MAX_DEPTH {
      assert (xs + ys)[1..] == xs[1..] + ys;
      FoldAppend(Push(stack, xs[0]), xs[1..], ys);
    }
  }

  /** Appending one more component: "." stays, ".." goes to the parent, a name goes to the child. */
  lemma ResolveComponent(path: string, name: string)
    requires name != "" && '/' !in name
    ensures var p := Resolve(path);
            Resolve(path + "/" + name) ==
              if |p| == MAX_DEPTH || name == "." then p
              else if name == ".." then (if p == [] then [] else Up(p))
              else if |name| <= MAX_SEGMENT then p + [name]
              else p + [name[..MAX_SEGMENT]]
  {
    var text := "/" + name;
    assert path + "/" + name == path + text;
    CutAppend("", path, text);
    assert text[1..] == name && name + "" == name && "" + name == name;
    CutName("", name, "");
    assert Pieces(text) == [name];
    FoldAppend([], Pieces(path), [name]);
    ResolveStorable(path);
    assert [name][1..] == [];
  }

  /** A slash more between two pieces, or at the end, changes nothing. */
  lemma ResolveSlashes(path: string, rest: string)
    requires rest == "" || rest[0] == '/'
    ensures Resolve(path + "/" + rest) == Resolve(path + rest)
  {
    assert path + "/" + rest == path + ("/" + rest);
    CutAppend("", path, "/" + rest);
    CutAppend("", path, rest);
    assert ("/" + rest)[1..] == rest;
    if rest != "" {
      assert Pieces("/" + rest) == Pieces(rest);
    }
  }

  // ---- printing into a buffer ----

  /**
  Prints a path into a buffer of `len` bytes. The result is the length written, or -1 when the
  text and its terminator do not fit; only for the root is that reported as 0.
  */
  method PrintPath(p: Path, len: nat) returns (written: int, buf: string)
    ensures written == if |Print(p)| < len then |Print(p)| else if p == [] then 0 else -1
    ensures |Print(p)| < len ==> buf == Print(p)
    ensures len > 0 ==> |buf| < len
  {
    buf := "";
    if p == [] {
      if len > 1 {
        buf := "/";
        return 1, buf;
      }
      return 0, buf;
    }
    SlashedUnfold(p);
    if 1 >= len {
      return -1, buf;
    }
    buf := "/";
    var i := 0;
    while i < |p|
      invariant 0 <= i <= |p|
      invariant |buf| < len
      invariant i < |p| ==> buf + p[i] + Slashed(p[i + 1..]) == Slashed(p)
      invariant i == |p| ==> buf == Slashed(p)
    {
      ghost var before, rest := buf, Slashed(p[i + 1..]);
      if |buf| + |p[i]| >= len {
        return -1, buf;
      }
      buf := buf + p[i];
      i := i + 1;
      if i < |p| {
        SlashedUnfold(p[i..]);
        assert p[i..][1..] == p[i + 1..];
        assert buf + rest == Slashed(p);
        if |buf| + 1 >= len {
          return -1, buf;
        }
        buf := buf + "/";
        assert buf + p[i] + Slashed(p[i + 1..]) == before + p[i - 1] + rest;
      } else {
        assert p[i..] == [];
        assert buf == buf + rest;
      }
    }
    written := |buf|;
  }

  lemma SlashedUnfold(p: Path)
    requires p != []
    ensures Slashed(p) == "/" + p[0] + Slashed(p[1..])
    ensures |Slashed(p)| == 1 + |p[0]| + |Slashed(p[1..])|
  {
  }
}
