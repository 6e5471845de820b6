/** The central daemon's own JSON string escaping, its inverse, and the messages built with it. */
module CentralText {
  import opened Common
  import opened JsonText
  import F = Framing

  // ---- escaping ----

  function EscapeOne(c: char): string {
    if c == '\\' || c == '"' then ['\\', c]
    else if c < ' ' then "\\u00" + [HexDigit(c as int / 16), HexDigit(c as int % 16)]
    else [c]
  }

  function EscapedText(s: string): string {
    if s == "" then "" else EscapeOne(s[0]) + EscapedText(s[1..])
  }

  /** The room the loop insists on before it writes `c`. */
  function Need(c: char): nat {
    if c != '\\' && c != '"' && c < ' ' then 6 else 2
  }

  predicate Roomy(src: string, room: nat) {
    forall i :: 0 <= i < |src| ==> |EscapedText(src[..i])| + Need(src[i]) < room
  }

  lemma {:induction false} EscapedLength(s: string)
    ensures |s| <= |EscapedText(s)| <= 6 * |s|
    decreases |s|
  {
    if s != "" {
      EscapedLength(s[1..]);
    }
  }

  /** Six bytes a character and one more are always enough. */
  lemma SixTimesIsEnough(src: string, room: nat)
    requires room >= 6 * |src| + 1
    ensures Roomy(src, room)
  {
    forall i | 0 <= i < |src| ensures |EscapedText(src[..i])| + Need(src[i]) < room {
      EscapedLength(src[..i]);
    }
  }

  lemma {:induction false} EscapedSnoc(s: string, c: char)
    ensures EscapedText(s + [c]) == EscapedText(s) + EscapeOne(c)
    decreases |s|
  {
    if s == "" {
      assert (s + [c])[1..] == "";
    } else {
      assert (s + [c])[1..] == s[1..] + [c];
      EscapedSnoc(s[1..], c);
    }
  }

  lemma EscapedAppend(s: string, i: nat)
    requires i < |s|
    ensures EscapedText(s[..i + 1]) == EscapedText(s[..i]) + EscapeOne(s[i])
  {
    assert s[..i + 1] == s[..i] + [s[i]];
    EscapedSnoc(s[..i], s[i]);
  }

  method JsonEscapeString(src: string, dst: array<char>) returns (n: int)
    requires dst.Length > 0
    modifies dst
    ensures n >= 0 <==> Roomy(src, dst.Length)
    ensures n >= 0 ==> n == |EscapedText(src)| < dst.Length
                       && dst[..n] == EscapedText(src) && dst[n] == '\0'
    ensures dst.Length >= 6 * |src| + 1 ==> n >= 0
  {
    hide EscapedText, EscapeOne;
    if dst.Length >= 6 * |src| + 1 {
      SixTimesIsEnough(src, dst.Length);
    }
    EscapedNothing(src);
    var pos, i := 0, 0;
    while i < |src|
      invariant 0 <= i <= |src| && pos < dst.Length
      invariant pos == |EscapedText(src[..i])| && dst[..pos] == EscapedText(src[..i])
      invariant forall k :: 0 <= k < i ==> |EscapedText(src[..k])| + Need(src[k]) < dst.Length
    {
      EscapedAppend(src, i);
      if pos + 2 >= dst.Length {
        return -1;
      }
      if Need(src[i]) == 6 && pos + 6 >= dst.Length {
        return -1;
      }
      pos := PutOne(src[i], dst, pos);
      i := i + 1;
    }
    assert src[..i] == src;
    dst[pos] := '\0';
    n := pos;
  }

  lemma EscapedNothing(src: string)
    ensures EscapedText(src[..0]) == ""
  {
  }

  method PutOne(c: char, dst: array<char>, pos: nat) returns (after: nat)
    requires pos + Need(c) < dst.Length
    modifies dst
    ensures after == pos + |EscapeOne(c)| < dst.Length
    ensures dst[..after] == old(dst[..pos]) + EscapeOne(c)
  {
    if c == '\\' || c == '"' {
      dst[pos], dst[pos + 1] := '\\', c;
      after := pos + 2;
    } else if c < ' ' {
      dst[pos], dst[pos + 1], dst[pos + 2], dst[pos + 3] := '\\', 'u', '0', '0';
      dst[pos + 4], dst[pos + 5] := HexDigit(c as int / 16), HexDigit(c as int % 16);
      after := pos + 6;
    } else {
      dst[pos] := c;
      after := pos + 1;
    }
  }

  // ---- unescaping ----

  function HexValue(c: char): (v: int)
    ensures -1 <= v < 16
  {
    if '0' <= c <= '9' then c as int - '0' as int
    else if 'a' <= c <= 'f' then c as int - 'a' as int + 10
    else if 'A' <= c <= 'F' then c as int - 'A' as int + 10
    else -1
  }

  /** The value of four hexadecimal digits, or -1. */
  function CodePoint(text: string): (cp: int)
    ensures -1 <= cp < 0x1_0000
  {
    if |text| < 4 || exists i :: 0 <= i < 4 && HexValue(text[i]) < 0 then -1
    else ((HexValue(text[0]) * 16 + HexValue(text[1])) * 16 + HexValue(text[2])) * 16 + HexValue(text[3])
  }

  function Utf8(cp: nat): (r: string)
    requires cp < 0x1_0000
    ensures 0 < |r| <= 3
  {
    if cp <= 0x7F then [cp as char]
    else if cp <= 0x7FF then [(0xC0 + cp / 64) as char, (0x80 + cp % 64) as char]
    else [(0xE0 + cp / 4096) as char, (0x80 + cp / 64 % 64) as char, (0x80 + cp % 64) as char]
  }

  datatype Piece = Bad | Piece(out: string, used: nat, need: nat)

  /** The first decoded piece: its bytes, how much text it takes and the room it insists on. */
  function First(text: string): (p: Piece)
    requires text != ""
    ensures p.Piece? ==> 0 < p.used <= |text| && |p.out| <= p.need
  {
    if text[0] != '\\' then Piece([text[0]], 1, 1)
    else if |text| == 1 then Bad
    else if text[1] == 'u' then
      var cp := CodePoint(text[2..]);
      if cp < 0 then Bad else Piece(Utf8(cp), 6, 4)
    else if Meaning(text[1]) != "" then Piece(Meaning(text[1]), 2, 1)
    else Piece(['\\', text[1]], 2, 2)
  }

  /** Decoding with `pos` bytes already in a destination of `room`. */
  function Decode(text: string, pos: nat, room: nat): Option<string>
    decreases |text|
  {
    if text == "" then Some("")
    else
      var p := First(text);
      if p.Bad? || pos + p.need >= room then None
      else
        match Decode(text[p.used..], pos + |p.out|, room)
        case None => None
        case Some(rest) => Some(p.out + rest)
  }

  /** Which strings fit: a control character needs the room of any `\u` escape. */
  predicate Fits(s: string, pos: nat, room: nat) {
    forall i :: 0 <= i < |s| ==> pos + i + (if s[i] < ' ' then 4 else 1) < room
  }

  lemma HexValueOfDigit(n: nat)
    requires n < 16
    ensures HexValue(HexDigit(n)) == n
  {
  }

  lemma FirstOfEscaped(c: char, tail: string)
    ensures First(EscapeOne(c) + tail) == Piece([c], |EscapeOne(c)|, if c < ' ' then 4 else 1)
    ensures (EscapeOne(c) + tail)[|EscapeOne(c)|..] == tail
  {
    var text := EscapeOne(c) + tail;
    if c < ' ' {
      HexValueOfDigit(c as int / 16);
      HexValueOfDigit(c as int % 16);
      assert text[2..][0] == '0' && text[2..][1] == '0' && text[2..][2] == text[4] && text[2..][3] == text[5];
    }
  }

  lemma {:induction false} DecodeEscaped(s: string, pos: nat, room: nat)
    ensures Decode(EscapedText(s), pos, room) == if Fits(s, pos, room) then Some(s) else None
    decreases |s|
  {
    hide EscapeOne, First;
    if s != "" {
      FirstOfEscaped(s[0], EscapedText(s[1..]));
      EscapeOneSome(s[0]);
      DecodeEscaped(s[1..], pos + 1, room);
      FitsSplit(s, pos, room);
      assert [s[0]] + s[1..] == s;
    }
  }

  lemma EscapeOneSome(c: char)
    ensures EscapeOne(c) != ""
  {
  }

  lemma FitsSplit(s: string, pos: nat, room: nat)
    requires s != ""
    ensures Fits(s, pos, room)
       <==> pos + (if s[0] < ' ' then 4 else 1) < room && Fits(s[1..], pos + 1, room)
  {
    forall i | 0 <= i < |s| - 1 && Fits(s, pos, room)
      ensures pos + 1 + i + (if s[1..][i] < ' ' then 4 else 1) < room
    {
      assert s[1..][i] == s[i + 1];
    }
    forall i | 0 < i < |s| && Fits(s[1..], pos + 1, room)
      ensures pos + i + (if s[i] < ' ' then 4 else 1) < room
    {
      assert s[i] == s[1..][i - 1];
    }
  }

  /** Unescaping undoes escaping exactly when the destination suffices; four spare bytes always do. */
  lemma UnescapeUndoesEscape(s: string, room: nat)
    ensures Decode(EscapedText(s), 0, room) == if Fits(s, 0, room) then Some(s) else None
    ensures room >= |s| + 4 ==> Decode(EscapedText(s), 0, room) == Some(s)
  {
    DecodeEscaped(s, 0, room);
  }

  lemma FirstOfWritten(c: char, tail: string)
    ensures First(EscapeChar(c) + tail).Piece?
    ensures First(EscapeChar(c) + tail).out == [c] && First(EscapeChar(c) + tail).used == |EscapeChar(c)|
    ensures First(EscapeChar(c) + tail).need <= 4
    ensures (EscapeChar(c) + tail)[|EscapeChar(c)|..] == tail
  {
    var text := EscapeChar(c) + tail;
    if |EscapeChar(c)| == 6 {
      HexValueOfDigit(c as int / 16);
      HexValueOfDigit(c as int % 16);
      assert text[2..][0] == '0' && text[2..][1] == '0' && text[2..][2] == text[4] && text[2..][3] == text[5];
    }
  }

  /** The central daemon reads back every string the command daemon's writer escapes. */
  lemma {:induction false} UnescapeReadsWriter(s: string, pos: nat, room: nat)
    requires room >= pos + |s| + 4
    ensures Decode(Escaped(s), pos, room) == Some(s)
    decreases |s|
  {
    hide EscapeChar, First;
    if s != "" {
      FirstOfWritten(s[0], Escaped(s[1..]));
      UnescapeReadsWriter(s[1..], pos + 1, room);
      assert [s[0]] + s[1..] == s;
      assert EscapeChar(s[0]) + Escaped(s[1..]) != "";
    }
  }

  function Prepend(done: string, rest: Option<string>): Option<string> {
    if rest.None? then None else Some(done + rest.value)
  }

  lemma DecodeStep(done: string, text: string, pos: nat, room: nat)
    requires text != ""
    ensures Prepend(done, Decode(text, pos, room))
         == var p := First(text);
            if p.Bad? || pos + p.need >= room then None
            else Prepend(done + p.out, Decode(text[p.used..], pos + |p.out|, room))
  {
    var p := First(text);
    if p.Piece? && pos + p.need < room {
      var rest := Decode(text[p.used..], pos + |p.out|, room);
      if rest.Some? {
        Associative(done, p.out, rest.value);
      }
    }
  }

  method JsonUnescape(src: string, dst: array<char>) returns (n: int)
    requires dst.Length > 0
    modifies dst
    ensures match Decode(src, 0, dst.Length)
            case None => n == -1
            case Some(s) => n == |s| < dst.Length && dst[..n] == s && dst[n] == '\0'
  {
    hide Decode, First, Prepend;
    var pos, p := 0, 0;
    ghost var whole := Decode(src, 0, dst.Length);
    assert src[0..] == src;
    DecodeWhole(whole, dst[..0]);
    while p < |src|
      invariant 0 <= p <= |src| && pos < dst.Length
      invariant whole == Prepend(dst[..pos], Decode(src[p..], pos, dst.Length))
    {
      ghost var done, text := dst[..pos], src[p..];
      DecodeStep(done, text, pos, dst.Length);
      var piece := FirstPiece(src, p);
      if piece.Bad? || pos + piece.need >= dst.Length {
        return -1;
      }
      Copy(piece.out, dst, pos);
      assert src[p + piece.used..] == text[piece.used..];
      p, pos := p + piece.used, pos + |piece.out|;
      assert dst[..pos] == done + piece.out;
    }
    DecodeNothing(dst[..pos], src[p..], pos, dst.Length);
    dst[pos] := '\0';
    n := pos;
    assert whole == Some(dst[..n]);
  }

  lemma DecodeWhole(whole: Option<string>, done: string)
    requires done == ""
    ensures whole == Prepend(done, whole)
  {
    assert whole.Some? ==> done + whole.value == whole.value;
  }

  lemma DecodeNothing(done: string, text: string, pos: nat, room: nat)
    requires text == ""
    ensures Prepend(done, Decode(text, pos, room)) == Some(done)
  {
    assert done + "" == done;
  }

  method Copy(out: string, dst: array<char>, pos: nat)
    requires pos + |out| <= dst.Length
    modifies dst
    ensures dst[..pos + |out|] == old(dst[..pos]) + out
  {
    var i := 0;
    while i < |out|
      invariant 0 <= i <= |out|
      invariant dst[..pos + i] == old(dst[..pos]) + out[..i]
    {
      dst[pos + i] := out[i];
      assert dst[..pos + i + 1] == dst[..pos + i] + [out[i]];
      i := i + 1;
    }
  }

  /** The piece that starts at `p`; the four digits of an escape are folded one at a time. */
  method FirstPiece(src: string, p: nat) returns (piece: Piece)
    requires p < |src|
    ensures piece == First(src[p..])
  {
    ghost var text := src[p..];
    var c := src[p];
    if c != '\\' {
      return Piece([c], 1, 1);
    }
    if p + 1 == |src| {
      return Bad;
    }
    var next := src[p + 1];
    assert next == text[1];
    if next == 'u' {
      var cp := FoldDigits(src, p + 2);
      assert text[2..] == src[p + 2..];
      return if cp < 0 then Bad else Piece(Utf8(cp), 6, 4);
    }
    return if Meaning(next) != "" then Piece(Meaning(next), 2, 1) else Piece(['\\', next], 2, 2);
  }

  function Folded(text: string, i: nat): int
    requires i <= |text|
  {
    if i == 0 then 0 else Folded(text, i - 1) * 16 + HexValue(text[i - 1])
  }

  method FoldDigits(src: string, from: nat) returns (cp: int)
    requires from <= |src|
    ensures cp == CodePoint(src[from..])
  {
    ghost var text := src[from..];
    if from + 4 > |src| {
      return -1;
    }
    cp := 0;
    var i := 0;
    while i < 4
      invariant 0 <= i <= 4
      invariant cp == Folded(text, i)
      invariant forall k :: 0 <= k < i ==> HexValue(text[k]) >= 0
    {
      var digit := HexValue(src[from + i]);
      assert src[from + i] == text[i];
      if digit < 0 {
        return -1;
      }
      cp := cp * 16 + digit;
      i := i + 1;
    }
    assert Folded(text, 1) == HexValue(text[0]);
    assert Folded(text, 2) == Folded(text, 1) * 16 + HexValue(text[1]);
    assert Folded(text, 3) == Folded(text, 2) * 16 + HexValue(text[2]);
  }

  // ---- what a \u escape stands for ----

  /** A decoder for the UTF-8 forms of one to three bytes (RFC 3629, section 3); -1 for anything else. */
  function Utf8Value(bytes: string): int {
    if |bytes| == 1 && bytes[0] as int < 0x80 then bytes[0] as int
    else if |bytes| == 2 && 0xC2 <= bytes[0] as int < 0xE0 && Continues(bytes[1]) then
      (bytes[0] as int - 0xC0) * 64 + (bytes[1] as int - 0x80)
    else if |bytes| == 3 && 0xE0 <= bytes[0] as int < 0xF0 && Continues(bytes[1]) && Continues(bytes[2])
            && (bytes[0] as int == 0xE0 ==> bytes[1] as int >= 0xA0) then
      (bytes[0] as int - 0xE0) * 4096 + (bytes[1] as int - 0x80) * 64 + (bytes[2] as int - 0x80)
    else -1
  }

  predicate Continues(c: char) {
    0x80 <= c as int < 0xC0
  }

  /** The bytes emitted for a code point are its UTF-8 form, in the shortest of the three lengths. */
  lemma Utf8RoundTrip(cp: nat)
    requires cp < 0x1_0000
    ensures Utf8Value(Utf8(cp)) == cp
  {
    assert cp == cp / 64 * 64 + cp % 64;
    assert cp / 64 == cp / 64 / 64 * 64 + cp / 64 % 64;
    assert cp / 64 / 64 == cp / 4096;
  }

  function UpperDigit(n: int): char
    requires 0 <= n < 16
  {
    "0123456789ABCDEF"[n]
  }

  function DigitOf(n: int, upper: bool): char
    requires 0 <= n < 16
  {
    if upper then UpperDigit(n) else HexDigit(n)
  }

  /** Four digits, each in either case, fold to the number they write. */
  lemma FourDigits(n: nat, cases: seq<bool>, tail: string)
    requires n < 0x1_0000 && |cases| == 4
    ensures CodePoint([DigitOf(n / 4096, cases[0]), DigitOf(n / 256 % 16, cases[1]),
                       DigitOf(n / 16 % 16, cases[2]), DigitOf(n % 16, cases[3])] + tail) == n
  {
    var a, b, c, d := n / 4096, n / 256 % 16, n / 16 % 16, n % 16;
    ValueOfDigit(a, cases[0]);
    ValueOfDigit(b, cases[1]);
    ValueOfDigit(c, cases[2]);
    ValueOfDigit(d, cases[3]);
    hide DigitOf, HexValue;
    assert n == n / 16 * 16 + d;
    assert n / 16 == n / 16 / 16 * 16 + c;
    assert n / 16 / 16 == n / 256;
    assert n / 256 == n / 256 / 16 * 16 + b;
    assert n / 256 / 16 == a;
    var text := [DigitOf(a, cases[0]), DigitOf(b, cases[1]), DigitOf(c, cases[2]), DigitOf(d, cases[3])] + tail;
    assert text[0] == DigitOf(a, cases[0]) && text[1] == DigitOf(b, cases[1]);
    assert text[2] == DigitOf(c, cases[2]) && text[3] == DigitOf(d, cases[3]);
  }

  lemma ValueOfDigit(n: nat, upper: bool)
    requires n < 16
    ensures HexValue(DigitOf(n, upper)) == n
  {
  }

  /** `\uXXXX` decodes to the UTF-8 form of the number written, whatever follows and in either case. */
  lemma EscapeIsCodePoint(n: nat, cases: seq<bool>, tail: string)
    requires n < 0x1_0000 && |cases| == 4
    ensures var digits := [DigitOf(n / 4096, cases[0]), DigitOf(n / 256 % 16, cases[1]),
                           DigitOf(n / 16 % 16, cases[2]), DigitOf(n % 16, cases[3])];
            var p := First("\\u" + (digits + tail));
            p.Piece? && p.used == 6 && Utf8Value(p.out) == n
  {
    var digits := [DigitOf(n / 4096, cases[0]), DigitOf(n / 256 % 16, cases[1]),
                   DigitOf(n / 16 % 16, cases[2]), DigitOf(n % 16, cases[3])];
    FourDigits(n, cases, tail);
    Utf8RoundTrip(n);
    hide DigitOf, CodePoint, Utf8, Utf8Value;
    assert ("\\u" + (digits + tail))[2..] == digits + tail;
  }

  /** A backslash before a letter without a meaning is kept, with the letter. */
  lemma UnknownEscapeIsKept(c: char, tail: string)
    requires Meaning(c) == "" && c != 'u'
    ensures First(['\\', c] + tail) == Piece(['\\', c], 2, 2)
  {
  }

  // ---- between quotes ----

  lemma {:induction false} EscapedIsScanned(s: string, rest: string)
    ensures StringEnd(EscapedText(s) + "\"" + rest) == |EscapedText(s)| + 1
    decreases |s|
  {
    if s == "" {
      assert EscapedText(s) + "\"" + rest == "\"" + rest;
    } else {
      var tail := EscapedText(s[1..]) + "\"" + rest;
      assert EscapedText(s) + "\"" + rest == EscapeOne(s[0]) + tail;
      EscapedOneScanned(s[0], tail);
      EscapedIsScanned(s[1..], rest);
    }
  }

  lemma EscapedOneScanned(c: char, tail: string)
    ensures StringEnd(EscapeOne(c) + tail) == |EscapeOne(c)| + StringEnd(tail)
  {
    var e := EscapeOne(c);
    if |e| == 6 {
      PlainRun(e[2..], tail);
      assert (e + tail)[2..] == e[2..] + tail;
    } else {
      assert (e + tail)[|e|..] == tail;
    }
  }

  /** The string scanner stops at the closing quote, and brackets inside do not count. */
  lemma EscapedStays(s: string, rest: string)
    ensures StringEnd(EscapedText(s) + "\"" + rest) == |EscapedText(s)| + 1
    ensures Neutral("\"" + EscapedText(s) + "\"")
  {
    hide StringEnd, EscapedText, Neutral;
    forall more ensures StringEnd(EscapedText(s) + "\"" + more) == |EscapedText(s)| + 1 {
      EscapedIsScanned(s, more);
    }
    NeutralQuoted(EscapedText(s));
  }

  /** The notice sent to other clients when a setting changes; no value means it was removed. */
  function ConfigNotice(path: string, key: string, value: Option<string>): string {
    "{" + NoticeInside(path, key, value) + "}\n"
  }

  function Quote(s: string): string {
    "\"" + EscapedText(s) + "\""
  }

  function NoticeInside(path: string, key: string, value: Option<string>): string {
    Tag("status") + ": " + Tag("config_update") + ", " + Tag("path") + ": " + Quote(path)
    + ", " + Tag("key") + ": " + Quote(key) + ", " + Tag("value") + ": "
    + if value.None? then "null" else Quote(value.value)
  }

  function Tag(key: string): string {
    "\"" + key + "\""
  }

  lemma KeyNeutral(key: string)
    requires SafeKey(key)
    ensures Neutral(Tag(key))
  {
    forall rest ensures StringEnd(key + "\"" + rest) == |key| + 1 {
      StringEndOfKey(key, rest);
    }
    NeutralQuoted(key);
  }

  lemma NoticeNeutral(path: string, key: string, value: Option<string>)
    ensures Neutral(NoticeInside(path, key, value))
  {
    hide Neutral, Quote, Tag;
    var a := Tag("status") + ": " + Tag("config_update") + ", ";
    LiteralNeutral();
    NeutralConcat(Tag("status"), ": ");
    NeutralConcat(Tag("status") + ": ", Tag("config_update"));
    NeutralConcat(Tag("status") + ": " + Tag("config_update"), ", ");
    NeutralConcat(a, Tag("path"));
    NeutralConcat(a + Tag("path"), ": ");
    QuoteNeutral(path);
    NeutralConcat(a + Tag("path") + ": ", Quote(path));
    var b := a + Tag("path") + ": " + Quote(path);
    NeutralConcat(b, ", ");
    NeutralConcat(b + ", ", Tag("key"));
    NeutralConcat(b + ", " + Tag("key"), ": ");
    QuoteNeutral(key);
    NeutralConcat(b + ", " + Tag("key") + ": ", Quote(key));
    var c := b + ", " + Tag("key") + ": " + Quote(key);
    NeutralConcat(c, ", ");
    NeutralConcat(c + ", ", Tag("value"));
    NeutralConcat(c + ", " + Tag("value"), ": ");
    var last := if value.None? then "null" else Quote(value.value);
    if value.Some? {
      QuoteNeutral(value.value);
    }
    NeutralConcat(c + ", " + Tag("value") + ": ", last);
  }

  lemma LiteralNeutral()
    ensures Neutral(Tag("status")) && Neutral(Tag("config_update")) && Neutral(Tag("path"))
    ensures Neutral(Tag("key")) && Neutral(Tag("value")) && Neutral(": ") && Neutral(", ") && Neutral("null")
  {
    hide Neutral, Tag;
    KeyNeutral("status");
    KeyNeutral("config_update");
    KeyNeutral("path");
    KeyNeutral("key");
    KeyNeutral("value");
    NeutralFlat(": ");
    NeutralFlat(", ");
    NeutralFlat("null");
  }

  lemma QuoteNeutral(s: string)
    ensures Neutral(Quote(s))
  {
    EscapedStays(s, "");
  }

  /** A notice is framed as exactly one object, whatever path, key and value contain. */
  lemma NoticeIsOneObject(path: string, key: string, value: Option<string>, post: string)
    ensures F.FindEnd(ConfigNotice(path, key, value) + post, F.Outside) == |ConfigNotice(path, key, value)| - 1
  {
    hide Neutral, F.FindEnd, NoticeInside;
    var inner := NoticeInside(path, key, value);
    NoticeNeutral(path, key, value);
    F.EndOfBraced(inner, "\n" + post);
    assert ConfigNotice(path, key, value) + post == "{" + inner + "}" + ("\n" + post);
  }
}
