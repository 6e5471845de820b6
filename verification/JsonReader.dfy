/** The zero-copy reader: a cursor over a buffer, and what it returns for text the writer wrote. */
module JsonReader {
  import opened Common
  import opened JsonText

  // ---- what one key/value step yields ----

  datatype Entry = Entry(key: string, value: string, used: nat)

  /** The key as copied into a buffer of `room + 1` characters: quotes dropped, cut when too long. */
  function KeyOf(token: string, room: nat): string {
    var bare := if |token| >= 2 && token[0] == '"' then token[1..|token| - 1] else token;
    bare[..Min(|bare|, room)]
  }

  function TokenAt(text: string): (t: (nat, nat))
    ensures t.0 + t.1 <= |text|
  {
    (Skipped(text), TokenLength(text[Skipped(text)..]))
  }

  /** Blanks, at most one colon. */
  function PastColon(text: string): (n: nat)
    ensures n <= |text|
  {
    var n := Skipped(text);
    if n < |text| && text[n] == ':' then n + 1 else n
  }

  /** The next key and value; an empty value ends the iteration just as a missing key does. */
  function EntryAt(text: string, room: nat): (e: Entry)
    ensures e.used <= |text| && (e.value != "" ==> e.used > 0)
  {
    var (ks, kn) := TokenAt(text);
    if kn == 0 then Entry("", "", ks)
    else
      var v := ks + kn + PastColon(text[ks + kn..]);
      var (vs, vn) := TokenAt(text[v..]);
      Entry(KeyOf(text[ks..ks + kn], room), text[v + vs..v + vs + vn], v + vs + vn)
  }

  /** All key/value pairs a caller gets by asking until the answer is empty. */
  function Entries(text: string, room: nat): seq<(string, string)>
    decreases |text|
  {
    var e := EntryAt(text, room);
    if e.value == "" then [] else [(e.key, e.value)] + Entries(text[e.used..], room)
  }

  function Clip(key: string, room: nat): string {
    key[..Min(|key|, room)]
  }

  function Written(fields: seq<Field>, room: nat): seq<(string, string)> {
    seq(|fields|, i requires 0 <= i < |fields| => (Clip(fields[i].key, room), Text(fields[i].value)))
  }

  /** Iterating over the inside of a written object yields exactly its fields, in order. */
  lemma {:induction false} EntriesOfFields(fields: seq<Field>, room: nat, lead: string)
    requires forall f :: f in fields ==> SafeKey(f.key) && Writable(f.value)
    requires lead == "" || lead == ","
    ensures Entries(lead + Fields(fields), room) == Written(fields, room)
    decreases |fields|
  {
    hide EntryAt, FieldText, Text, Fields, Writable, Clip, BareText, Written, Skipped, TokenAt, PastColon, KeyOf;
    if fields == [] {
      NothingLeft(room, lead);
      assert lead + "" == lead;
    } else {
      var f, tail := fields[0], fields[1..];
      assert f in fields;
      var rest := if tail == [] then "" else "," + Fields(tail);
      FieldsSplit(fields);
      EntryOfField(f, room, lead, rest);
      Middle(lead, FieldText(f), rest);
      WrittenSplit(fields, room);
      EntriesOfFields(tail, room, if tail == [] then "" else ",");
      assert tail == [] ==> "" + Fields(tail) == "";
    }
  }

  lemma NothingLeft(room: nat, lead: string)
    requires lead == "" || lead == ","
    ensures Entries(lead, room) == [] && Written([], room) == [] && Fields([]) == ""
  {
    assert lead == "," ==> lead[1..] == "";
  }

  lemma FieldsSplit(fields: seq<Field>)
    requires fields != []
    ensures Fields(fields) == FieldText(fields[0]) + if |fields| == 1 then "" else "," + Fields(fields[1..])
    ensures fields[1..] == [] ==> Fields(fields[1..]) == ""
  {
    hide FieldText;
    if |fields| > 1 {
      var tail := fields[1..];
      assert Fields(fields) == FieldText(fields[0]) + "," + Fields(tail);
      hide Fields;
      Associative(FieldText(fields[0]), ",", Fields(tail));
    }
  }

  lemma Middle(a: string, b: string, c: string)
    ensures (a + (b + c))[|a|..|a| + |b|] == b && (a + (b + c))[|a| + |b|..] == c
  {
  }

  lemma WrittenSplit(fields: seq<Field>, room: nat)
    requires fields != []
    ensures Written(fields, room)
         == [(Clip(fields[0].key, room), Text(fields[0].value))] + Written(fields[1..], room)
  {
    hide Text, Clip;
  }

  lemma LeadingSkipped(lead: string, text: string)
    requires lead == "" || lead == ","
    requires text != "" && text[0] != ',' && !Blank(text[0])
    ensures TokenAt(lead + text) == (|lead|, TokenLength(text))
  {
    assert (lead + text)[|lead|..] == text;
    assert lead == "," ==> (lead + text)[1..] == text;
    assert Skipped(text) == 0;
  }

  /** One step in terms of its three scans. */
  lemma EntryParts(text: string, room: nat, key: (nat, nat), colon: nat, value: (nat, nat))
    requires TokenAt(text) == key && key.1 > 0
    requires PastColon(text[key.0 + key.1..]) == colon
    requires TokenAt(text[key.0 + key.1..][colon..]) == value
    ensures EntryAt(text, room)
         == Entry(KeyOf(text[key.0..key.0 + key.1], room),
                  text[key.0 + key.1..][colon..][value.0..value.0 + value.1],
                  key.0 + key.1 + colon + value.0 + value.1)
  {
    hide TokenAt, PastColon, KeyOf;
    var v := key.0 + key.1 + colon;
    assert text[key.0 + key.1..][colon..] == text[v..];
    assert text[v..] == text[v..|text|];
    Slice(text, v, |text|, value.0, value.0 + value.1);
  }

  lemma EntryAssembled(lead: string, quoted: string, value: string, rest: string, room: nat)
    requires quoted != ""
    requires TokenAt(lead + (quoted + (":" + (value + rest)))) == (|lead|, |quoted|)
    requires TokenAt(value + rest) == (0, |value|)
    ensures EntryAt(lead + (quoted + (":" + (value + rest))), room)
         == Entry(KeyOf(quoted, room), value, |lead| + |quoted| + 1 + |value|)
  {
    hide TokenAt, PastColon, KeyOf, EntryAt;
    Middle(lead, quoted, ":" + (value + rest));
    ColonPassed(value + rest);
    Middle(":", value, rest);
    assert (":" + (value + rest))[1..] == value + rest;
    EntryParts(lead + (quoted + (":" + (value + rest))), room, (|lead|, |quoted|), 1, (0, |value|));
  }

  lemma EntryOfField(f: Field, room: nat, lead: string, rest: string)
    requires SafeKey(f.key) && Writable(f.value)
    requires lead == "" || lead == ","
    requires rest == "" || rest[0] == ','
    ensures Text(f.value) != ""
    ensures EntryAt(lead + (FieldText(f) + rest), room)
         == Entry(Clip(f.key, room), Text(f.value), |lead| + |FieldText(f)|)
  {
    hide TokenAt, PastColon, KeyOf, EntryAt, Skipped, TokenLength, Text, BareText, Writable;
    var quoted, value := "\"" + f.key + "\"", Text(f.value);
    var after := ":" + (value + rest);
    assert FieldText(f) + rest == quoted + after;
    TokenIsValue(f.value, rest);
    KeyToken(f.key, after);
    ValueStarts(f.value);
    assert quoted + after == "\"" + f.key + "\"" + after;
    LeadingSkipped(lead, quoted + after);
    WithoutLead(value + rest);
    EntryAssembled(lead, quoted, value, rest, room);
    KeyOfQuoted(f.key, room);
  }

  lemma WithoutLead(text: string)
    requires text != "" && text[0] != ',' && !Blank(text[0])
    ensures TokenAt(text) == (0, TokenLength(text))
  {
    LeadingSkipped("", text);
    assert "" + text == text;
  }

  lemma KeyToken(key: string, after: string)
    requires SafeKey(key)
    ensures TokenLength("\"" + key + "\"" + after) == |key| + 2
  {
    var text := "\"" + key + "\"" + after;
    assert text[1..] == key + "\"" + after;
    StringEndOfKey(key, after);
  }

  lemma KeyOfQuoted(key: string, room: nat)
    ensures KeyOf("\"" + key + "\"", room) == Clip(key, room)
  {
    var quoted := "\"" + key + "\"";
    assert quoted[1..|quoted| - 1] == key;
  }

  /** A written value starts with neither a blank nor a comma. */
  lemma ValueStarts(v: Json)
    requires Writable(v)
    ensures Text(v) != "" && Text(v)[0] != ',' && !Blank(Text(v)[0])
  {
    TokenIsValue(v, "");
    assert Text(v) + "" == Text(v);
  }

  lemma ColonPassed(text: string)
    ensures PastColon(":" + text) == 1
  {
  }

  /** All tokens a caller gets by asking until there is none. */
  function Tokens(text: string): seq<string>
    decreases |text|
  {
    var (s, n) := TokenAt(text);
    if n == 0 then [] else [text[s..s + n]] + Tokens(text[s + n..])
  }

  function Texts(items: seq<Json>): seq<string> {
    seq(|items|, i requires 0 <= i < |items| => Text(items[i]))
  }

  /** Iterating over the inside of a written array yields exactly its items, in order. */
  lemma {:induction false} TokensOfItems(items: seq<Json>, lead: string)
    requires forall x :: x in items ==> Writable(x)
    requires lead == "" || lead == ","
    ensures Tokens(lead + Items(items)) == Texts(items)
    decreases |items|
  {
    hide TokenAt, TokenLength, Skipped, Text, Items, Texts, Writable, BareText;
    if items == [] {
      NoTokens(lead);
      assert lead + "" == lead;
    } else {
      var v, tail := items[0], items[1..];
      assert v in items;
      var rest := if tail == [] then "" else "," + Items(tail);
      ItemsSplit(items);
      TextsSplit(items);
      TokenIsValue(v, rest);
      ValueStarts(v);
      assert (Text(v) + rest)[0] == Text(v)[0];
      LeadingSkipped(lead, Text(v) + rest);
      Middle(lead, Text(v), rest);
      TokensOfItems(tail, if tail == [] then "" else ",");
      assert tail == [] ==> "" + Items(tail) == "";
    }
  }

  lemma NoTokens(lead: string)
    requires lead == "" || lead == ","
    ensures Tokens(lead) == [] && Texts([]) == [] && Items([]) == ""
  {
    assert lead == "," ==> lead[1..] == "";
  }

  lemma ItemsSplit(items: seq<Json>)
    requires items != []
    ensures Items(items) == Text(items[0]) + if |items| == 1 then "" else "," + Items(items[1..])
    ensures items[1..] == [] ==> Items(items[1..]) == ""
  {
    hide Text;
    if |items| > 1 {
      var tail := items[1..];
      assert Items(items) == Text(items[0]) + "," + Items(tail);
      hide Items;
      Associative(Text(items[0]), ",", Items(tail));
    }
  }

  lemma TextsSplit(items: seq<Json>)
    requires items != []
    ensures Texts(items) == [Text(items[0])] + Texts(items[1..])
  {
    hide Text;
  }

  // ---- unescaping ----

  /** The first decoded character and how much text it takes; unknown escapes are copied as they are. */
  function Decoded(text: string): (r: (char, nat))
    requires text != ""
    ensures 0 < r.1 <= |text|
  {
    if text[0] == '\\' && |text| > 1 && Meaning(text[1]) != "" then (Meaning(text[1])[0], 2) else (text[0], 1)
  }

  /** At most `room` characters of the decoded string. */
  function Unescaped(text: string, room: nat): (r: string)
    ensures |r| <= room
    decreases |text|
  {
    if text == "" || room == 0 then ""
    else [Decoded(text).0] + Unescaped(text[Decoded(text).1..], room - 1)
  }

  lemma DecodeStep(done: string, text: string, room: nat)
    requires text != "" && room > 0
    ensures var (c, used) := Decoded(text);
            done + Unescaped(text, room) == done + [c] + Unescaped(text[used..], room - 1)
  {
  }

  predicate Decodable(c: char) {
    c >= ' ' || c == '\n' || c == '\r' || c == '\t'
  }

  predicate Plain(s: string) {
    forall c :: c in s ==> Decodable(c)
  }

  /** Decodable strings come back, cut to the room there is. */
  lemma {:induction false} UnescapedPrefix(s: string, room: nat)
    requires Plain(s)
    ensures Unescaped(Escaped(s), room) == s[..Min(|s|, room)]
    decreases |s|
  {
    hide Unescaped, EscapeChar, Decodable;
    NothingUnescaped(room);
    if s != "" && room > 0 {
      assert s[0] in s;
      UnescapedChar(s[0], Escaped(s[1..]), room);
      UnescapedPrefix(s[1..], room - 1);
      PrefixStep(s, room);
    } else if s != "" {
      assert Unescaped(Escaped(s), room) == "";
    }
  }

  lemma NothingUnescaped(room: nat)
    ensures Unescaped("", room) == ""
  {
  }

  lemma PrefixStep(s: string, room: nat)
    requires s != "" && room > 0
    ensures s[..Min(|s|, room)] == [s[0]] + s[1..][..Min(|s[1..]|, room - 1)]
  {
  }

  lemma UnescapedChar(c: char, tail: string, room: nat)
    requires room > 0
    ensures Decodable(c) ==> Unescaped(EscapeChar(c) + tail, room) == [c] + Unescaped(tail, room - 1)
    ensures !Decodable(c) ==> Unescaped(EscapeChar(c) + tail, room) != ""
    ensures !Decodable(c) ==> Unescaped(EscapeChar(c) + tail, room)[0] == '\\'
  {
    var text := EscapeChar(c) + tail;
    assert text[|EscapeChar(c)|..] == tail;
    assert Decodable(c) ==> Decoded(text) == (c, |EscapeChar(c)|);
    assert !Decodable(c) ==> text[1] == 'u' && Decoded(text) == ('\\', 1);
  }

  /** Exactly which strings survive a round trip through writer and reader. */
  lemma {:induction false} UnescapedExactly(s: string, room: nat)
    ensures Unescaped(Escaped(s), room) == s <==> room >= |s| && Plain(s)
    decreases |s|
  {
    hide Unescaped, EscapeChar, Decodable, Plain;
    NothingUnescaped(room);
    NothingPlain();
    if s != "" && room > 0 {
      UnescapedChar(s[0], Escaped(s[1..]), room);
      UnescapedExactly(s[1..], room - 1);
      AllDecodable(s);
      NotBackslash(s[0]);
      HeadAndTail(s, Unescaped(Escaped(s), room));
    }
  }

  lemma NothingPlain()
    ensures Plain("")
  {
  }

  lemma HeadAndTail(s: string, r: string)
    requires s != ""
    ensures r == s <==> r != "" && r[0] == s[0] && r[1..] == s[1..]
  {
    assert r != "" ==> r == [r[0]] + r[1..];
    assert s == [s[0]] + s[1..];
  }

  lemma NotBackslash(c: char)
    ensures !Decodable(c) ==> c != '\\'
  {
  }

  lemma AllDecodable(s: string)
    requires s != ""
    ensures Plain(s)
       <==> Decodable(s[0]) && Plain(s[1..])
  {
    hide Decodable;
    assert forall c :: c in s <==> c == s[0] || c in s[1..];
  }

  // ---- lookup ----

  datatype Answer = Missing | Found(s: string)

  predicate Quoted(token: string) {
    |token| >= 2 && token[0] == '"' && token[|token| - 1] == '"'
  }

  /** The string held by a token, "" for anything that is not a string. */
  function StringOf(token: string, room: nat): string {
    if Quoted(token) then Unescaped(token[1..|token| - 1], room) else ""
  }

  function FirstNamed(entries: seq<(string, string)>, key: string, room: nat): Answer {
    if entries == [] then Missing
    else if entries[0].0 == key then
      (if Quoted(entries[0].1) then Found(StringOf(entries[0].1, room)) else Missing)
    else FirstNamed(entries[1..], key, room)
  }

  lemma FirstNamedStep(text: string, key: string, room: nat, keyRoom: nat)
    ensures var e := EntryAt(text, keyRoom);
            FirstNamed(Entries(text, keyRoom), key, room)
            == if e.value == "" then Missing
               else if e.key != key then FirstNamed(Entries(text[e.used..], keyRoom), key, room)
               else if Quoted(e.value) then Found(StringOf(e.value, room)) else Missing
  {
    hide EntryAt, Quoted, StringOf;
    var e := EntryAt(text, keyRoom);
    if e.value != "" {
      assert Entries(text, keyRoom)[1..] == Entries(text[e.used..], keyRoom);
    }
  }

  const KeyRoom: nat := 127

  /** The bounds of the container `text` begins with, or nothing. */
  function Inside(text: string): (r: (bool, nat, nat))
    ensures r.0 ==> r.1 <= r.2 <= |text|
  {
    var (s, n) := TokenAt(text);
    if n == 0 || text[s] != '{' then (false, 0, 0) else Entered(text, s, n)
  }

  function LastSolid(text: string, start: nat, last: nat): (n: nat)
    requires start <= last < |text|
    ensures start <= n <= last
  {
    if last > start && Blank(text[last]) then LastSolid(text, start, last - 1) else last
  }

  function Entered(text: string, s: nat, n: nat): (r: (bool, nat, nat))
    requires s + n <= |text|
    ensures r.0 ==> s < r.1 <= r.2 < s + n
  {
    if n < 2 || !Bracket(text[s]) then (false, 0, 0)
    else
      var last := LastSolid(text, s, s + n - 1);
      if text[last] != Close(text[s]) then (false, 0, 0) else (true, s + 1, last)
  }

  function FindString(text: string, key: string, room: nat): Answer {
    var (ok, from, to) := Inside(text);
    if !ok then Missing else FirstNamed(Entries(text[from..to], KeyRoom), key, room)
  }

  /** Entering a written container leaves exactly what stands between its brackets. */
  lemma EnterWritten(v: Json, post: string)
    requires Writable(v) && (v.Obj? || v.Arr?)
    requires post == "" || Delimiter(post[0])
    ensures var text := Text(v) + post;
            TokenAt(text) == (0, |Text(v)|)
            && Entered(text, 0, |Text(v)|) == (true, 1, |Text(v)| - 1)
            && text[1..|Text(v)| - 1]
               == (if v.Obj? then Fields(v.fields) else Items(v.items))
  {
    TokenIsValue(v, post);
    assert (Text(v) + post)[0..] == Text(v) + post;
    TextBracketed(v);
    EnterBracketed(Text(v), post);
  }

  lemma TextBracketed(v: Json)
    requires v.Obj? || v.Arr?
    ensures var t := Text(v);
            |t| >= 2 && Bracket(t[0]) && t[|t| - 1] == Close(t[0]) && t[0] == (if v.Obj? then '{' else '[')
            && t[1..|t| - 1] == (if v.Obj? then Fields(v.fields) else Items(v.items))
  {
    hide Fields, Items;
  }

  lemma EnterBracketed(t: string, post: string)
    requires |t| >= 2 && Bracket(t[0]) && t[|t| - 1] == Close(t[0])
    ensures Entered(t + post, 0, |t|) == (true, 1, |t| - 1)
    ensures (t + post)[1..|t| - 1] == t[1..|t| - 1]
  {
    assert (t + post)[|t| - 1] == t[|t| - 1];
    assert !Blank(t[|t| - 1]);
  }

  /** Looking a key up in written text finds the first field of that name. */
  lemma FindInWritten(fields: seq<Field>, post: string, key: string, room: nat)
    requires Writable(Obj(fields))
    requires post == "" || Delimiter(post[0])
    ensures FindString(Text(Obj(fields)) + post, key, room)
         == FirstNamed(Written(fields, KeyRoom), key, room)
  {
    EnterWritten(Obj(fields), post);
    TextBracketed(Obj(fields));
    assert (Text(Obj(fields)) + post)[0] == '{';
    EntriesOfFields(fields, KeyRoom, "");
    assert "" + Fields(fields) == Fields(fields);
  }

  /** Which field that is, and what comes back. */
  lemma {:induction false} FirstNamedIs(fields: seq<Field>, i: nat, key: string, room: nat)
    requires Writable(Obj(fields)) && i < |fields|
    requires Clip(fields[i].key, KeyRoom) == key
    requires forall k :: 0 <= k < i ==> Clip(fields[k].key, KeyRoom) != key
    ensures FirstNamed(Written(fields, KeyRoom), key, room)
         == if fields[i].value.Str? then Found(Unescaped(Escaped(fields[i].value.s), room)) else Missing
    decreases i
  {
    var all := Written(fields, KeyRoom);
    if i == 0 {
      assert fields[0] in fields;
      QuotedExactly(fields[0].value);
    } else {
      assert all[0].0 != key;
      assert all[1..] == Written(fields[1..], KeyRoom);
      FirstNamedIs(fields[1..], i - 1, key, room);
    }
  }

  lemma {:induction false} FirstNamedMissing(fields: seq<Field>, key: string, room: nat)
    requires forall k :: 0 <= k < |fields| ==> Clip(fields[k].key, KeyRoom) != key
    ensures FirstNamed(Written(fields, KeyRoom), key, room) == Missing
    decreases |fields|
  {
    if fields != [] {
      assert Written(fields, KeyRoom)[1..] == Written(fields[1..], KeyRoom);
      FirstNamedMissing(fields[1..], key, room);
    }
  }

  /** Only written strings read back as strings. */
  lemma QuotedExactly(v: Json)
    requires Writable(v)
    ensures Quoted(Text(v)) <==> v.Str?
    ensures v.Str? ==> forall room: nat :: StringOf(Text(v), room) == Unescaped(Escaped(v.s), room)
  {
    match v
    case Str(s) => assert Text(v)[1..|Text(v)| - 1] == Escaped(s);
    case Obj(fields) => assert Text(v)[0] == '{';
    case Arr(items) => assert Text(v)[0] == '[';
    case _ =>
      BareTextIsBare(v);
      assert BareText(v)[0] in BareText(v);
  }

  /** A stored string comes back whole exactly when it fits and holds no other control characters. */
  lemma WrittenStringComesBack(fields: seq<Field>, i: nat, post: string, room: nat)
    requires Writable(Obj(fields)) && i < |fields| && fields[i].value.Str?
    requires post == "" || Delimiter(post[0])
    requires forall k :: 0 <= k < i ==> Clip(fields[k].key, KeyRoom) != Clip(fields[i].key, KeyRoom)
    ensures FindString(Text(Obj(fields)) + post, Clip(fields[i].key, KeyRoom), room) == Found(fields[i].value.s)
       <==> |fields[i].value.s| <= room && Plain(fields[i].value.s)
  {
    FindInWritten(fields, post, Clip(fields[i].key, KeyRoom), room);
    FirstNamedIs(fields, i, Clip(fields[i].key, KeyRoom), room);
    UnescapedExactly(fields[i].value.s, room);
  }

  // ---- integers ----

  predicate IsDigit(c: char) {
    '0' <= c <= '9'
  }

  predicate IsInt(token: string) {
    token != ""
    && var digits := if token[0] == '-' then token[1..] else token;
       digits != "" && AllDigits(digits)
  }

  predicate AllDigits(digits: string) {
    forall i :: 0 <= i < |digits| ==> IsDigit(digits[i])
  }

  function DigitsValue(digits: string): int {
    if digits == "" then 0
    else DigitsValue(digits[..|digits| - 1]) * 10 + (digits[|digits| - 1] as int - '0' as int)
  }

  /** The C library's conversion to a 64-bit integer, which saturates. */
  function Strtol(token: string): int
    requires IsInt(token)
  {
    if token[0] == '-' then Max(-DigitsValue(token[1..]), -0x8000_0000_0000_0000)
    else Min(DigitsValue(token), 0x7FFF_FFFF_FFFF_FFFF)
  }

  function Max(a: int, b: int): int {
    if a < b then b else a
  }

  /** A cast to 32 bits. */
  function Wrapped(n: int): int {
    (n + 0x8000_0000) % 0x1_0000_0000 - 0x8000_0000
  }

  datatype Number = NoInt | IntOf(n: int)

  /** At most 31 characters of the token are converted. */
  function GetInt(token: string): Number {
    if !IsInt(token) then NoInt
    else
      var part := token[..Min(|token|, 31)];
      if !IsInt(part) then NoInt else IntOf(Wrapped(Strtol(part)))
  }

  lemma {:induction false} DigitsAreDigits(n: nat)
    ensures Digits(n) != "" && AllDigits(Digits(n))
    ensures DigitsValue(Digits(n)) == n
  {
    HexDigitValue(n % 10);
    if n >= 10 {
      DigitsAreDigits(n / 10);
      assert Digits(n)[..|Digits(n)| - 1] == Digits(n / 10);
    } else {
      assert Digits(n)[..0] == "";
    }
  }

  lemma HexDigitValue(d: nat)
    requires d < 10
    ensures IsDigit(HexDigit(d)) && HexDigit(d) as int - '0' as int == d
  {
  }

  lemma {:induction false} DigitsShort(n: nat, k: nat)
    requires k > 0 && n < Power(k)
    ensures |Digits(n)| <= k
    decreases k
  {
    if n >= 10 {
      DigitsShort(n / 10, k - 1);
    }
  }

  function Power(k: nat): nat {
    if k == 0 then 1 else 10 * Power(k - 1)
  }

  lemma PowerOfTwenty()
    ensures Power(20) == 1_0000_0000_0000_0000_0000
  {
    assert Power(5) == 10_0000;
    assert Power(10) == 100_0000_0000 by {
      assert Power(6) == 100_0000 && Power(8) == 1_0000_0000;
    }
    assert Power(15) == 1000_0000_0000_0000 by {
      assert Power(12) == 1_0000_0000_0000;
    }
    assert Power(18) == 100_0000_0000_0000_0000;
  }

  /** A written 64-bit integer reads back cut to 32 bits, so it comes back exactly when it has 32. */
  lemma WrittenIntComesBack(n: int)
    requires -0x8000_0000_0000_0000 <= n < 0x8000_0000_0000_0000
    ensures GetInt(Text(Int(n))) == IntOf(Wrapped(n))
    ensures GetInt(Text(Int(n))) == IntOf(n) <==> -0x8000_0000 <= n < 0x8000_0000
  {
    hide Digits, Power;
    var m := if n < 0 then -n else n;
    var digits, text := Digits(m), Text(Int(n));
    PowerOfTwenty();
    DigitsShort(m, 20);
    DigitsAreDigits(m);
    assert IsDigit(digits[0]);
    assert n < 0 ==> text == "-" + digits && text[1..] == digits;
    assert text[..Min(|text|, 31)] == text;
    assert Strtol(text) == n;
  }

  // ---- kinds of token ----

  function GetBool(token: string): Option<bool> {
    if token == "true" then Some(true) else if token == "false" then Some(false) else None
  }

  predicate IsNull(token: string) {
    token == "null"
  }

  predicate IsContainer(token: string) {
    |token| >= 2 && (token[0] == '{' || token[0] == '[')
  }

  lemma {:induction false} FloatIsNoInt(text: string)
    requires FloatText(text)
    ensures !IsInt(text) && GetBool(text) == None && !IsNull(text)
  {
    if text == "inf" || text == "nan" {
      assert !IsDigit(text[0]);
    } else if text == "-inf" || text == "-nan" {
      assert !IsDigit(text[1..][0]);
    } else {
      var i :| 0 <= i < |text| && text[i] == '.';
      assert text[0] in text;
      var digits := if text[0] == '-' then text[1..] else text;
      var k := if text[0] == '-' then i - 1 else i;
      assert digits[k] == '.' && !IsDigit(digits[k]);
    }
  }

  lemma IntKind(n: int)
    ensures var token := Text(Int(n)); IsInt(token) && GetBool(token) == None && !IsNull(token)
  {
    var m := if n < 0 then -n else n;
    DigitsAreDigits(m);
    var token := Text(Int(n));
    assert n < 0 ==> token[1..] == Digits(m);
    assert IsDigit(Digits(m)[0]);
  }

  /** Each kind of written value passes its own check and no other, and a boolean reads as itself. */
  lemma KindsExactly(v: Json)
    requires Writable(v)
    ensures GetBool(Text(v)) == if v.Bool? then Some(v.b) else None
    ensures IsNull(Text(v)) <==> v.Null?
    ensures IsInt(Text(v)) <==> v.Int?
    ensures Quoted(Text(v)) <==> v.Str?
    ensures IsContainer(Text(v)) <==> v.Obj? || v.Arr?
  {
    QuotedExactly(v);
    match v
    case Obj(fields) => assert Text(v)[0] == '{';
    case Arr(items) => assert Text(v)[0] == '[';
    case Str(s) => assert Text(v)[0] == '"';
    case Int(n) =>
      IntKind(n);
      BareTextIsBare(v);
      assert Text(v)[0] in Text(v);
    case Double(text) =>
      FloatIsNoInt(text);
      FloatIsBare(text);
      assert text[0] in text;
    case Bool(b) => assert !IsDigit(Text(v)[0]);
    case Null => assert !IsDigit(Text(v)[0]);
  }

  /** The same for the values found on the way through a written object. */
  lemma FieldKindsExactly(fields: seq<Field>, room: nat, i: nat)
    requires Writable(Obj(fields)) && i < |fields|
    ensures |Entries(Fields(fields), room)| == |fields|
    ensures var (key, token) := Entries(Fields(fields), room)[i];
            && key == Clip(fields[i].key, room)
            && GetBool(token) == (if fields[i].value.Bool? then Some(fields[i].value.b) else None)
            && (IsNull(token) <==> fields[i].value.Null?)
            && (IsInt(token) <==> fields[i].value.Int?)
            && (Quoted(token) <==> fields[i].value.Str?)
            && (IsContainer(token) <==> fields[i].value.Obj? || fields[i].value.Arr?)
  {
    EntriesOfFields(fields, room, "");
    assert "" + Fields(fields) == Fields(fields);
    assert fields[i] in fields;
    hide GetBool, IsInt, IsNull, Quoted, IsContainer, Entries, Fields;
    KindsExactly(fields[i].value);
  }
}
