/** Content-hash anchors: one short name per line, unique in the file. */
module AnchorSpec {
  import J = JsonText

  const Alphabet: string := "0123456789abcdefghijklmnopqrstuv"

  /** Three base-32 digits of a 32-bit hash, most significant first. */
  function Anchor(h: nat): (r: string)
    ensures |r| == 3
  {
    [Alphabet[h / 1024 % 32], Alphabet[h / 32 % 32], Alphabet[h % 32]]
  }

  function DigitOf(c: char): int {
    if '0' <= c <= '9' then c as int - '0' as int else c as int - 'a' as int + 10
  }

  lemma AlphabetDigits(d: nat)
    requires d < 32
    ensures DigitOf(Alphabet[d]) == d && Alphabet[d] != '_'
  {
  }

  function Value(anchor: string): int
    requires |anchor| == 3
  {
    DigitOf(anchor[0]) * 1024 + DigitOf(anchor[1]) * 32 + DigitOf(anchor[2])
  }

  /** An anchor tells exactly the low fifteen bits of the hash. */
  lemma AnchorsDiffer(g: nat, h: nat)
    ensures Anchor(g) == Anchor(h) <==> g % 32768 == h % 32768
  {
    hide Anchor, Value;
    AnchorValue(g);
    AnchorValue(h);
    OnlyLowBits(g);
    OnlyLowBits(h);
  }

  lemma AnchorValue(h: nat)
    ensures Value(Anchor(h)) == h % 32768
  {
    hide DigitOf;
    AlphabetDigits(h % 32);
    AlphabetDigits(h / 32 % 32);
    AlphabetDigits(h / 1024 % 32);
    LowBits(h);
  }

  lemma OnlyLowBits(h: nat)
    ensures Anchor(h) == Anchor(h % 32768)
  {
    hide Anchor;
    LowBits(h);
    var a, b, c := h / 1024 % 32, h / 32 % 32, h % 32;
    Split(a, b, c);
    SameDigits(h, a * 1024 + b * 32 + c);
  }

  lemma SameDigits(g: nat, h: nat)
    requires g / 1024 % 32 == h / 1024 % 32 && g / 32 % 32 == h / 32 % 32 && g % 32 == h % 32
    ensures Anchor(g) == Anchor(h)
  {
  }

  lemma Split(a: nat, b: nat, c: nat)
    requires a < 32 && b < 32 && c < 32
    ensures var low := a * 1024 + b * 32 + c; low / 1024 % 32 == a && low / 32 % 32 == b && low % 32 == c
  {
    var low := a * 1024 + b * 32 + c;
    assert low == (a * 32 + b) * 32 + c;
    assert low / 32 == a * 32 + b;
  }

  lemma LowBits(h: nat)
    ensures h % 32768 == h / 1024 % 32 * 1024 + h / 32 % 32 * 32 + h % 32
  {
    var q := h / 1024;
    assert h / 32 / 32 == q;
    assert h == h / 32 * 32 + h % 32;
    assert h / 32 == q * 32 + h / 32 % 32;
    assert q == q / 32 * 32 + q % 32;
    var low := q % 32 * 1024 + h / 32 % 32 * 32 + h % 32;
    assert h == q / 32 * 32768 + low;
    Remainder(q / 32, low);
  }

  lemma Remainder(q: nat, low: nat)
    requires low < 32768
    ensures (q * 32768 + low) % 32768 == low
  {
  }

  /** A raw anchor, or one with a collision number. */
  function Numbered(raw: string, k: nat): string {
    raw + "_" + J.Digits(k)
  }

  lemma {:induction false} DigitsInjective(a: nat, b: nat)
    requires J.Digits(a) == J.Digits(b)
    ensures a == b
    decreases a + b
  {
    DigitsLength(a);
    DigitsLength(b);
    var s, t := J.Digits(a), J.Digits(b);
    HexDigitInjective(a % 10, b % 10);
    assert s[|s| - 1] == J.HexDigit(a % 10) && t[|t| - 1] == J.HexDigit(b % 10);
    if a >= 10 && b >= 10 {
      assert s[..|s| - 1] == J.Digits(a / 10) && t[..|t| - 1] == J.Digits(b / 10);
      DigitsInjective(a / 10, b / 10);
    }
  }

  lemma DigitsLength(n: nat)
    ensures |J.Digits(n)| >= 1 && (|J.Digits(n)| == 1 <==> n < 10)
  {
  }

  lemma HexDigitInjective(a: nat, b: nat)
    requires a < 16 && b < 16
    ensures J.HexDigit(a) == J.HexDigit(b) ==> a == b
  {
  }

  predicate IsRaw(raw: string) {
    |raw| == 3 && '_' !in raw
  }

  lemma RawAnchor(h: nat)
    ensures IsRaw(Anchor(h))
  {
    AlphabetDigits(h % 32);
    AlphabetDigits(h / 32 % 32);
    AlphabetDigits(h / 1024 % 32);
  }

  /** Different raw anchors or different numbers never give the same name, and a number shows. */
  lemma NumberedApart(raw: string, k: nat, other: string, j: nat)
    requires |raw| == |other| == 3
    ensures Numbered(raw, k) == Numbered(other, j) ==> raw == other && k == j
    ensures Numbered(raw, k) != other
  {
    if Numbered(raw, k) == Numbered(other, j) {
      assert Numbered(raw, k)[..3] == raw && Numbered(other, j)[..3] == other;
      assert Numbered(raw, k)[4..] == J.Digits(k) && Numbered(other, j)[4..] == J.Digits(j);
      DigitsInjective(k, j);
    }
  }

  // ---- the search for a free number ----

  ghost function Candidates(raw: string, k: nat): set<string> {
    if k == 0 then {} else Candidates(raw, k - 1) + {Numbered(raw, k - 1)}
  }

  lemma {:induction false} CandidatesCount(raw: string, k: nat)
    requires |raw| == 3
    ensures |Candidates(raw, k)| == k
    ensures forall j: nat :: Numbered(raw, j) in Candidates(raw, k) <==> j < k
    ensures forall c :: c in Candidates(raw, k) ==> exists j: nat :: j < k && c == Numbered(raw, j)
  {
    hide Numbered;
    if k > 0 {
      CandidatesCount(raw, k - 1);
      forall j: nat | Numbered(raw, j) == Numbered(raw, k - 1) ensures j == k - 1 {
        NumberedApart(raw, j, raw, k - 1);
      }
    }
  }

  lemma {:induction false} SubsetCount<T>(a: set<T>, b: set<T>)
    requires a <= b
    ensures |a| <= |b|
    decreases |a|
  {
    if a != {} {
      var x :| x in a;
      SubsetCount(a - {x}, b - {x});
    }
  }

  /** Only as many numbers can be taken as there are names in use. */
  lemma Pigeonhole(taken: set<string>, raw: string, k: nat)
    requires |raw| == 3 && raw in taken
    requires forall j: nat :: j < k ==> Numbered(raw, j) in taken
    ensures k < |taken|
  {
    CandidatesCount(raw, k);
    forall c | c in Candidates(raw, k) ensures c in taken && c != raw {
      var j: nat :| j < k && c == Numbered(raw, j);
      NumberedApart(raw, j, raw, 0);
    }
    hide Numbered;
    SubsetCount(Candidates(raw, k) + {raw}, taken);
  }

  /** The least number from `k` on whose name is free. */
  function FirstFree(taken: set<string>, raw: string, k: nat): (n: nat)
    requires |raw| == 3 && raw in taken
    requires forall j: nat :: j < k ==> Numbered(raw, j) in taken
    ensures k <= n < |taken| && Numbered(raw, n) !in taken
    ensures forall j: nat :: j < n ==> Numbered(raw, j) in taken
    decreases |taken| - k
  {
    Pigeonhole(taken, raw, k);
    if Numbered(raw, k) in taken then FirstFree(taken, raw, k + 1) else k
  }

  function Resolved(taken: set<string>, raw: string): (name: string)
    requires |raw| == 3
    ensures name !in taken
  {
    if raw !in taken then raw else Numbered(raw, FirstFree(taken, raw, 0))
  }

  // ---- the index ----

  /** Each line's anchor; `hash` is the content hash, of which nothing is assumed. */
  datatype Index = Index(anchors: seq<string>, lines: seq<string>)

  function Names(anchors: seq<string>): set<string> {
    set i | 0 <= i < |anchors| :: anchors[i]
  }

  predicate Distinct(anchors: seq<string>) {
    forall i, j :: 0 <= i < j < |anchors| ==> anchors[i] != anchors[j]
  }

  /** `name` is a raw anchor of three characters without an underscore, or that with a number. */
  ghost predicate NameFor(name: string, raw: string) {
    IsRaw(raw) && (name == raw || exists k: nat :: name == Numbered(raw, k))
  }

  ghost predicate Sound(ix: Index, hash: string -> nat) {
    |ix.anchors| == |ix.lines| && Distinct(ix.anchors)
    && forall i :: 0 <= i < |ix.lines| ==> NameFor(ix.anchors[i], Anchor(hash(ix.lines[i])))
  }

  function Others(anchors: seq<string>, i: nat): set<string>
    requires i < |anchors|
  {
    Names(anchors) - {anchors[i]}
  }

  function Updated(ix: Index, i: nat, content: string, hash: string -> nat): Index
    requires |ix.anchors| == |ix.lines|
  {
    if i >= |ix.lines| then ix
    else Index(ix.anchors[i := Resolved(Others(ix.anchors, i), Anchor(hash(content)))], ix.lines[i := content])
  }

  lemma UpdatedSound(ix: Index, i: nat, content: string, hash: string -> nat)
    requires Sound(ix, hash)
    ensures Sound(Updated(ix, i, content, hash), hash)
  {
    if i < |ix.lines| {
      hide Anchor, Numbered;
      var name := Resolved(Others(ix.anchors, i), Anchor(hash(content)));
      var next := Updated(ix, i, content, hash);
      forall j | 0 <= j < |ix.lines| && j != i ensures ix.anchors[j] != name {
        assert ix.anchors[j] in Names(ix.anchors);
        assert ix.anchors[j] != ix.anchors[i];
      }
      RawAnchor(hash(content));
      assert NameFor(name, Anchor(hash(content)));
      forall j | 0 <= j < |ix.lines| ensures NameFor(next.anchors[j], Anchor(hash(next.lines[j]))) {
        assert NameFor(ix.anchors[j], Anchor(hash(ix.lines[j])));
      }
    }
  }

  // ---- building ----

  function Raws(lines: seq<string>, hash: string -> nat): seq<string> {
    seq(|lines|, i requires 0 <= i < |lines| => Anchor(hash(lines[i])))
  }

  /** Where `raw` stands in a sequence of raw anchors. */
  function Places(raws: seq<string>, raw: string): seq<nat> {
    if raws == [] then []
    else
      Places(raws[..|raws| - 1], raw) + if raws[|raws| - 1] == raw then [|raws| - 1] else []
  }

  /** The anchor a new index gives: numbered by the earlier lines of the same hash, if any line shares it. */
  function NewName(raws: seq<string>, i: nat): string
    requires i < |raws|
  {
    if |Places(raws, raws[i])| == 1 then raws[i] else Numbered(raws[i], |Places(raws[..i], raws[i])|)
  }

  function NewIndex(lines: seq<string>, hash: string -> nat): Index {
    var raws := Raws(lines, hash);
    Index(seq(|lines|, i requires 0 <= i < |lines| => NewName(raws, i)), lines)
  }

  lemma {:induction false} PlacesGrow(raws: seq<string>, i: nat, raw: string)
    requires i <= |raws|
    ensures Places(raws[..i], raw) <= Places(raws, raw)
    decreases |raws|
  {
    if i < |raws| {
      PlacesGrow(raws[..|raws| - 1], i, raw);
      assert raws[..|raws| - 1][..i] == raws[..i];
    } else {
      assert raws[..i] == raws;
    }
  }

  /** A line's place among those that share its hash is the number of earlier ones. */
  lemma PlaceOf(raws: seq<string>, i: nat)
    requires i < |raws|
    ensures var p := |Places(raws[..i], raws[i])|;
            p < |Places(raws, raws[i])| && Places(raws, raws[i])[p] == i
  {
    assert raws[..i + 1][..i] == raws[..i];
    PlacesGrow(raws, i + 1, raws[i]);
    var p := |Places(raws[..i], raws[i])|;
    assert Places(raws[..i + 1], raws[i]) == Places(raws[..i], raws[i]) + [i];
    assert Places(raws[..i + 1], raws[i])[p] == i;
  }

  lemma NewNamesApart(raws: seq<string>, i: nat, j: nat)
    requires i < j < |raws|
    requires forall k :: 0 <= k < |raws| ==> |raws[k]| == 3
    ensures NewName(raws, i) != NewName(raws, j)
  {
    hide Numbered, Places;
    PlaceOf(raws, i);
    PlaceOf(raws, j);
    NumberedApart(raws[i], |Places(raws[..i], raws[i])|, raws[j], |Places(raws[..j], raws[j])|);
    NumberedApart(raws[j], |Places(raws[..j], raws[j])|, raws[i], 0);
  }

  lemma NewIndexSound(lines: seq<string>, hash: string -> nat)
    ensures Sound(NewIndex(lines, hash), hash)
  {
    hide Anchor, Numbered, Places;
    var raws, ix := Raws(lines, hash), NewIndex(lines, hash);
    forall i, j | 0 <= i < j < |lines| ensures ix.anchors[i] != ix.anchors[j] {
      NewNamesApart(raws, i, j);
    }
    forall i | 0 <= i < |lines| ensures NameFor(ix.anchors[i], Anchor(hash(lines[i]))) {
      RawAnchor(hash(lines[i]));
    }
  }

  // ---- which names, exactly ----

  /** How many of the first `i` lines have the raw anchor. */
  function Earlier(raws: seq<string>, i: nat, raw: string): set<nat>
    requires i <= |raws|
  {
    set j: nat | j < i && raws[j] == raw
  }

  lemma {:induction false} PlacesCount(raws: seq<string>, i: nat, raw: string)
    requires i <= |raws|
    ensures |Places(raws[..i], raw)| == |Earlier(raws, i, raw)|
    ensures forall j: nat :: j in Places(raws[..i], raw) <==> j in Earlier(raws, i, raw)
    decreases i
  {
    if i == 0 {
      assert Earlier(raws, i, raw) == {};
    } else {
      PlacesCount(raws, i - 1, raw);
      assert raws[..i][..i - 1] == raws[..i - 1];
      if raws[i - 1] == raw {
        assert Earlier(raws, i, raw) == Earlier(raws, i - 1, raw) + {i - 1};
      } else {
        assert Earlier(raws, i, raw) == Earlier(raws, i - 1, raw);
      }
    }
  }

  lemma SoleMember(xs: set<nat>, i: nat)
    requires i in xs
    ensures |xs| == 1 <==> forall j :: j in xs ==> j == i
  {
    var rest := xs - {i};
    assert |xs| == |rest| + 1;
    if forall j :: j in xs ==> j == i {
      assert rest == {};
    }
    if |xs| == 1 {
      assert rest == {};
      assert forall j :: j in xs ==> j == i || j in rest;
    }
  }

  /** A new index names a line by its raw anchor if no other line has it, else by how many earlier lines do. */
  lemma NewNameExactly(lines: seq<string>, hash: string -> nat, i: nat)
    requires i < |lines|
    ensures var raw, name := Anchor(hash(lines[i])), NewIndex(lines, hash).anchors[i];
            && (name == raw <==> forall j :: 0 <= j < |lines| && j != i ==> Anchor(hash(lines[j])) != raw)
            && (name != raw ==> name == Numbered(raw, |set j: nat | j < i && Anchor(hash(lines[j])) == raw|))
  {
    hide Anchor, Numbered, Places;
    var raws, raw := Raws(lines, hash), Anchor(hash(lines[i]));
    assert raws[..|raws|] == raws;
    PlacesCount(raws, |raws|, raw);
    PlacesCount(raws, i, raw);
    SoleMember(Earlier(raws, |raws|, raw), i);
    NumberedApart(raw, |Places(raws[..i], raw)|, raw, 0);
    assert (set j: nat | j < i && Anchor(hash(lines[j])) == raw) == Earlier(raws, i, raw);
    assert forall j :: 0 <= j < |lines| ==> (j in Earlier(raws, |raws|, raw) <==> Anchor(hash(lines[j])) == raw);
  }

  /** Another line bears the name. */
  ghost predicate Taken(ix: Index, i: nat, name: string) {
    exists j :: 0 <= j < |ix.anchors| && j != i && ix.anchors[j] == name
  }

  /** An edited line is named by its raw anchor if no other line is, else by the least number that is free. */
  lemma UpdatedNameExactly(ix: Index, i: nat, content: string, hash: string -> nat)
    requires Sound(ix, hash) && i < |ix.lines|
    ensures var raw, name := Anchor(hash(content)), Updated(ix, i, content, hash).anchors[i];
            && (name == raw <==> !Taken(ix, i, raw))
            && (Taken(ix, i, raw) ==>
                  exists k: nat :: name == Numbered(raw, k) && !Taken(ix, i, name)
                                   && forall j: nat :: j < k ==> Taken(ix, i, Numbered(raw, j)))
  {
    hide Anchor, Numbered;
    var raw, taken := Anchor(hash(content)), Others(ix.anchors, i);
    forall name
      ensures name in taken <==> Taken(ix, i, name)
    {
      if j :| 0 <= j < |ix.anchors| && j != i && ix.anchors[j] == name {
        assert ix.anchors[j] in Names(ix.anchors);
      }
    }
    hide Taken;
    if raw in taken {
      var k := FirstFree(taken, raw, 0);
      NumberedApart(raw, k, raw, 0);
      assert Updated(ix, i, content, hash).anchors[i] == Numbered(raw, k);
    }
  }

  /** The decimal number a text of digits writes. */
  function Decimal(text: string): int {
    if text == "" then 0 else Decimal(text[..|text| - 1]) * 10 + (text[|text| - 1] as int - '0' as int)
  }

  /** A numbered name is the raw anchor, an underscore and the number in decimal. */
  lemma NumberedReadsBack(raw: string, k: nat)
    requires |raw| == 3
    ensures var name := Numbered(raw, k);
            |name| > 4 && name[..3] == raw && name[3] == '_' && Decimal(name[4..]) == k
  {
    DigitsLength(k);
    DecimalDigits(k);
    assert Numbered(raw, k)[4..] == J.Digits(k);
  }

  lemma {:induction false} DecimalDigits(k: nat)
    ensures Decimal(J.Digits(k)) == k
  {
    var text := J.Digits(k);
    if k >= 10 {
      DecimalDigits(k / 10);
      assert text[..|text| - 1] == J.Digits(k / 10);
    } else {
      assert text[..0] == "";
    }
  }

  // ---- whole lives ----

  datatype Edit = Edit(line: nat, content: string)

  function Edited(ix: Index, edits: seq<Edit>, hash: string -> nat): (r: Index)
    requires |ix.anchors| == |ix.lines|
    ensures |r.anchors| == |r.lines| == |ix.lines|
    decreases |edits|
  {
    if edits == [] then ix
    else Edited(Updated(ix, edits[0].line, edits[0].content, hash), edits[1..], hash)
  }

  /** Anchors stay unique and true to their lines through any edits of any new index. */
  lemma {:induction false} EditedSound(ix: Index, edits: seq<Edit>, hash: string -> nat)
    requires Sound(ix, hash)
    ensures Sound(Edited(ix, edits, hash), hash)
    decreases |edits|
  {
    if edits != [] {
      UpdatedSound(ix, edits[0].line, edits[0].content, hash);
      EditedSound(Updated(ix, edits[0].line, edits[0].content, hash), edits[1..], hash);
    }
  }

  lemma AnyLifeSound(lines: seq<string>, edits: seq<Edit>, hash: string -> nat)
    ensures Sound(Edited(NewIndex(lines, hash), edits, hash), hash)
  {
    NewIndexSound(lines, hash);
    EditedSound(NewIndex(lines, hash), edits, hash);
  }

  /** A line nobody edits keeps its anchor and its text through every edit of the others. */
  lemma {:induction false} UneditedKeepsAnchor(ix: Index, edits: seq<Edit>, hash: string -> nat, i: nat)
    requires |ix.anchors| == |ix.lines| && i < |ix.lines|
    requires forall e :: e in edits ==> e.line != i
    ensures Edited(ix, edits, hash).anchors[i] == ix.anchors[i]
    ensures Edited(ix, edits, hash).lines[i] == ix.lines[i]
    decreases |edits|
  {
    if edits != [] {
      UneditedKeepsAnchor(Updated(ix, edits[0].line, edits[0].content, hash), edits[1..], hash, i);
    }
  }
}
