/** The anchor index as it is kept: a forward vector and a reverse map, updated in place. */
module AnchorIndex {
  import opened AnchorSpec
  import J = JsonText

  /** Three digits, least significant first, written from the back. */
  method AnchorHash(h: nat) returns (r: string)
    ensures r == Anchor(h)
  {
    var result := ['0', '0', '0'];
    var remaining := h;
    var i := 3;
    while i > 0
      invariant 0 <= i <= 3 && |result| == 3
      invariant i == 3 ==> remaining == h
      invariant i == 2 ==> remaining == h / 32
      invariant i == 1 ==> remaining == h / 32 / 32
      invariant i <= 2 ==> result[2] == Alphabet[h % 32]
      invariant i <= 1 ==> result[1] == Alphabet[h / 32 % 32]
      invariant i == 0 ==> result[0] == Alphabet[h / 32 / 32 % 32]
    {
      i := i - 1;
      result := result[i := Alphabet[remaining % 32]];
      remaining := remaining / 32;
    }
    assert h / 32 / 32 == h / 1024;
    r := result;
  }

  ghost predicate Inverse(names: seq<string>, lineOf: map<string, nat>) {
    (forall i :: 0 <= i < |names| ==> names[i] in lineOf && lineOf[names[i]] == i)
    && (forall name :: name in lineOf ==> lineOf[name] < |names| && names[lineOf[name]] == name)
  }

  /** First pass: every line's raw anchor, and the lines that share each. */
  method Collide(lines: seq<string>, hash: string -> nat)
    returns (raws: seq<string>, shared: map<string, seq<nat>>)
    ensures raws == Raws(lines, hash)
    ensures forall i :: 0 <= i < |raws| ==> raws[i] in shared
    ensures forall raw :: raw in shared ==> shared[raw] == Places(raws, raw)
  {
    hide Anchor, Places;
    raws, shared := [], map[];
    NoPlaces();
    var i := 0;
    while i < |lines|
      invariant 0 <= i <= |lines|
      invariant raws == Raws(lines[..i], hash)
      invariant forall k :: 0 <= k < |raws| ==> raws[k] in shared
      invariant forall raw :: raw in shared ==> shared[raw] == Places(raws, raw)
      invariant forall raw :: raw !in shared ==> Places(raws, raw) == []
    {
      var raw := AnchorHash(hash(lines[i]));
      ghost var before := raws;
      raws := raws + [raw];
      var places := if raw in shared then shared[raw] else [];
      shared := shared[raw := places + [i]];
      PlacesSnoc(before, raw);
      i := i + 1;
    }
    assert lines[..i] == lines;
  }

  lemma NoPlaces()
    ensures forall raw :: Places([], raw) == []
  {
  }

  lemma PlacesSnoc(raws: seq<string>, raw: string)
    ensures forall r :: Places(raws + [raw], r) == Places(raws, r) + if r == raw then [|raws|] else []
  {
    var longer := raws + [raw];
    forall r ensures Places(longer, r) == Places(raws, r) + if r == raw then [|raws|] else [] {
      assert longer[..|longer| - 1] == raws;
    }
  }

  lemma {:induction false} PlacesAscend(raws: seq<string>, raw: string)
    ensures forall p :: 0 <= p < |Places(raws, raw)| ==> Places(raws, raw)[p] < |raws|
    ensures forall p, q :: 0 <= p < q < |Places(raws, raw)| ==> Places(raws, raw)[p] < Places(raws, raw)[q]
    decreases |raws|
  {
    if raws != [] {
      PlacesAscend(raws[..|raws| - 1], raw);
    }
  }

  method Position(places: seq<nat>, i: nat) returns (p: nat)
    ensures p < |places| ==> places[p] == i && forall q :: 0 <= q < p ==> places[q] != i
    ensures p == |places| ==> i !in places
    ensures p <= |places|
  {
    p := 0;
    while p < |places| && places[p] != i
      invariant 0 <= p <= |places|
      invariant forall q :: 0 <= q < p ==> places[q] != i
    {
      p := p + 1;
    }
  }

  /** A line's number is its position among the lines that share its raw anchor. */
  method FinalName(raws: seq<string>, places: seq<nat>, i: nat) returns (name: string)
    requires i < |raws| && places == Places(raws, raws[i])
    ensures name == NewName(raws, i)
  {
    hide Places;
    if |places| == 1 {
      return raws[i];
    }
    var p := Position(places, i);
    PlaceOf(raws, i);
    PlacesAscend(raws, raws[i]);
    assert p == |Places(raws[..i], raws[i])|;
    name := raws[i] + "_" + J.Digits(p);
  }

  /** Second pass: final names and the reverse map. */
  method NameAll(raws: seq<string>, shared: map<string, seq<nat>>)
    returns (names: seq<string>, lineOf: map<string, nat>)
    requires forall i :: 0 <= i < |raws| ==> raws[i] in shared && |raws[i]| == 3
    requires forall raw :: raw in shared ==> shared[raw] == Places(raws, raw)
    ensures |names| == |raws| && forall i :: 0 <= i < |raws| ==> names[i] == NewName(raws, i)
    ensures Inverse(names, lineOf)
  {
    hide NewName, Places;
    names, lineOf := [], map[];
    var i := 0;
    while i < |raws|
      invariant 0 <= i <= |raws| && |names| == i
      invariant forall k :: 0 <= k < i ==> names[k] == NewName(raws, k)
      invariant Inverse(names, lineOf)
    {
      var name := FinalName(raws, shared[raws[i]], i);
      forall k | 0 <= k < i ensures names[k] != name {
        NewNamesApart(raws, k, i);
      }
      lineOf := lineOf[name := i];
      names := names + [name];
      i := i + 1;
    }
  }

  lemma InverseKeys(names: seq<string>, lineOf: map<string, nat>)
    requires Inverse(names, lineOf)
    ensures Distinct(names) && lineOf.Keys == Names(names)
  {
    forall name | name in lineOf ensures name in Names(names) {
      assert names[lineOf[name]] == name;
    }
  }

  class FileAnchorIndex {
    const hash: string -> nat
    var hashByLine: seq<string>
    var lineIdxByHash: map<string, nat>
    var lines: seq<string>

    ghost function Value(): Index
      reads this
    {
      Index(hashByLine, lines)
    }

    ghost predicate Valid()
      reads this
    {
      Sound(Value(), hash) && Inverse(hashByLine, lineIdxByHash)
    }

    constructor (lines: seq<string>, hash: string -> nat)
      ensures Valid() && this.hash == hash && Value() == NewIndex(lines, hash)
    {
      hide Anchor, NewName;
      var raws, shared := Collide(lines, hash);
      var names, lineOf := NameAll(raws, shared);
      this.hash, hashByLine, lineIdxByHash, this.lines := hash, names, lineOf, lines;
      NewIndexSound(lines, hash);
      assert names == NewIndex(lines, hash).anchors;
    }

    method GetHash(i: nat) returns (name: string)
      requires Valid()
      ensures name == if i < |lines| then hashByLine[i] else ""
    {
      name := if i < |hashByLine| then hashByLine[i] else "";
    }

    /** Looking an anchor up finds the one line that bears it. */
    method GetLineIdx(name: string) returns (found: bool, i: nat)
      requires Valid()
      ensures found <==> name in hashByLine
      ensures found ==> i < |lines| && hashByLine[i] == name && forall j :: 0 <= j < |lines| && hashByLine[j] == name ==> j == i
    {
      found := name in lineIdxByHash;
      i := if found then lineIdxByHash[name] else 0;
    }

    method GetLine(i: nat) returns (line: string)
      requires Valid()
      ensures line == if i < |lines| then lines[i] else ""
    {
      line := if i < |lines| then lines[i] else "";
    }

    /** Gives the edited line a free anchor; every other line keeps its own. */
    method UpdateLine(i: nat, content: string)
      requires Valid()
      modifies this
      ensures Valid()
      ensures Value() == Updated(old(Value()), i, content, hash)
      ensures i < |lines| ==> lineIdxByHash == (old(lineIdxByHash) - {old(hashByLine[i])})[hashByLine[i] := i]
      ensures i >= |lines| ==> lineIdxByHash == old(lineIdxByHash)
    {
      hide Anchor, Numbered, Resolved;
      if i >= |lines| {
        return;
      }
      UpdatedSound(Value(), i, content, hash);
      InverseKeys(hashByLine, lineIdxByHash);
      var oldHash := hashByLine[i];
      lineIdxByHash := lineIdxByHash - {oldHash};
      assert lineIdxByHash.Keys == Others(hashByLine, i);
      lines := lines[i := content];
      var raw := AnchorHash(hash(content));
      var name := FreeName(lineIdxByHash, raw);
      lineIdxByHash := lineIdxByHash[name := i];
      hashByLine := hashByLine[i := name];
      Renamed(old(hashByLine), old(lineIdxByHash), i, name);
    }
  }

  lemma Renamed(names: seq<string>, lineOf: map<string, nat>, i: nat, name: string)
    requires Inverse(names, lineOf) && i < |names|
    requires name !in Others(names, i)
    ensures Inverse(names[i := name], (lineOf - {names[i]})[name := i])
  {
    InverseKeys(names, lineOf);
  }

  /** The raw anchor if it is free, else the least free number, found before the names run out. */
  method FreeName(lineOf: map<string, nat>, raw: string) returns (name: string)
    requires |raw| == 3
    ensures name == Resolved(lineOf.Keys, raw)
  {
    hide Numbered;
    if raw !in lineOf {
      return raw;
    }
    var suffix := 0;
    while true
      invariant suffix <= |lineOf.Keys|
      invariant forall j: nat :: j < suffix ==> Numbered(raw, j) in lineOf
      invariant FirstFree(lineOf.Keys, raw, 0) == FirstFree(lineOf.Keys, raw, suffix)
      decreases |lineOf.Keys| - suffix
    {
      var candidate := Numbered(raw, suffix);
      if candidate !in lineOf {
        return candidate;
      }
      Pigeonhole(lineOf.Keys, raw, suffix);
      suffix := suffix + 1;
    }
  }

  /** The search tries fewer names than there are lines. */
  lemma SearchIsShort(ix: Index, hash: string -> nat, i: nat, raw: string)
    requires Sound(ix, hash) && i < |ix.lines| && |raw| == 3
    requires raw in Others(ix.anchors, i)
    ensures FirstFree(Others(ix.anchors, i), raw, 0) + 1 < |ix.lines|
  {
    hide Numbered, Anchor;
    var n := FirstFree(Others(ix.anchors, i), raw, 0);
    NamesCount(ix.anchors);
    assert |Others(ix.anchors, i)| == |Names(ix.anchors)| - 1;
  }

  lemma {:induction false} NamesCount(anchors: seq<string>)
    ensures |Names(anchors)| <= |anchors|
    decreases |anchors|
  {
    if anchors != [] {
      var init, last := anchors[..|anchors| - 1], anchors[|anchors| - 1];
      NamesCount(init);
      assert forall i :: 0 <= i < |init| ==> init[i] == anchors[i];
      assert Names(anchors) == Names(init) + {last};
    }
  }

  /** A whole life of an index: built once, edited any number of times. */
  method Live(lines: seq<string>, edits: seq<Edit>, hash: string -> nat) returns (ix: FileAnchorIndex)
    ensures fresh(ix) && ix.Valid() && ix.hash == hash
    ensures ix.Value() == Edited(NewIndex(lines, hash), edits, hash)
  {
    ix := new FileAnchorIndex(lines, hash);
    var k := 0;
    assert edits[0..] == edits;
    while k < |edits|
      invariant 0 <= k <= |edits| && fresh(ix) && ix.Valid() && ix.hash == hash
      invariant Edited(NewIndex(lines, hash), edits, hash) == Edited(ix.Value(), edits[k..], hash)
    {
      assert edits[k..][1..] == edits[k + 1..];
      ix.UpdateLine(edits[k].line, edits[k].content);
      k := k + 1;
    }
    assert edits[k..] == [];
  }
}
