/** The notice of a changed setting, as the reader of either daemon takes it apart again. */
module CentralNotice {
  import opened Common
  import opened JsonText
  import opened JsonReader
  import opened CentralText

  predicate Loose(lead: string) {
    forall i :: 0 <= i < |lead| ==> lead[i] == ',' || Blank(lead[i])
  }

  predicate Solid(text: string) {
    text != "" && text[0] != ',' && !Blank(text[0])
  }

  lemma {:induction false} LooseSkipped(lead: string, text: string)
    requires Loose(lead) && Solid(text)
    ensures TokenAt(lead + text) == (|lead|, TokenLength(text))
    ensures Skipped(lead + text) == |lead|
    decreases |lead|
  {
    if lead == "" {
      assert lead + text == text && text[0..] == text;
    } else {
      assert (lead + text)[1..] == lead[1..] + text;
      LooseSkipped(lead[1..], text);
      assert (lead + text)[|lead|..] == text;
    }
  }

  /** One field with a blank after its colon. */
  function Pair(lead: string, key: string, value: string, rest: string): string {
    lead + (Tag(key) + (":" + (" " + (value + rest))))
  }

  lemma PairEntry(lead: string, key: string, value: string, rest: string, room: nat)
    requires Loose(lead) && SafeKey(key) && Solid(value) && TokenLength(value + rest) == |value|
    ensures EntryAt(Pair(lead, key, value, rest), room)
         == Entry(Clip(key, room), value, |lead| + |Tag(key)| + 2 + |value|)
    ensures Pair(lead, key, value, rest)[|lead| + |Tag(key)| + 2 + |value|..] == rest
  {
    hide TokenAt, PastColon, KeyOf, EntryAt, TokenLength, Skipped;
    var quoted, after := Tag(key), " " + (value + rest);
    var text := Pair(lead, key, value, rest);
    KeyToken(key, ":" + after);
    assert quoted + (":" + after) == "\"" + key + "\"" + (":" + after);
    LooseSkipped(lead, quoted + (":" + after));
    ColonPassed(after);
    assert (value + rest)[0] == value[0];
    LooseSkipped(" ", value + rest);
    Middle(lead, quoted, ":" + after);
    assert (":" + after)[1..] == after;
    EntryParts(text, room, (|lead|, |quoted|), 1, (1, |value|));
    KeyOfQuoted(key, room);
    Middle(" ", value, rest);
    PairTail(lead, quoted, value, rest);
  }

  lemma PairTail(lead: string, quoted: string, value: string, rest: string)
    ensures (lead + (quoted + (":" + (" " + (value + rest)))))[|lead| + |quoted| + 2 + |value|..] == rest
  {
    var front := lead + quoted + ":" + " " + value;
    assert lead + (quoted + (":" + (" " + (value + rest)))) == front + rest;
  }

  lemma PairFirst(lead: string, key: string, value: string, rest: string, room: nat)
    requires Loose(lead) && SafeKey(key) && Solid(value) && TokenLength(value + rest) == |value|
    ensures Entries(Pair(lead, key, value, rest), room) == [(Clip(key, room), value)] + Entries(rest, room)
  {
    hide EntryAt, Clip, Pair, TokenLength, Loose, SafeKey, Entries;
    PairEntry(lead, key, value, rest, room);
    EntriesStep(Pair(lead, key, value, rest), room);
  }

  lemma EntriesStep(text: string, room: nat)
    ensures var e := EntryAt(text, room);
            Entries(text, room) == if e.value == "" then [] else [(e.key, e.value)] + Entries(text[e.used..], room)
  {
    hide EntryAt;
  }

  lemma ClipShort(key: string, room: nat)
    requires |key| <= room
    ensures Clip(key, room) == key
  {
  }

  lemma QuoteToken(s: string, rest: string)
    ensures Solid(Quote(s)) && TokenLength(Quote(s) + rest) == |Quote(s)|
  {
    EscapedStays(s, rest);
    var text := Quote(s) + rest;
    assert text[1..] == EscapedText(s) + "\"" + rest;
    hide StringEnd, EscapedText;
  }

  lemma TagToken(key: string, rest: string)
    requires SafeKey(key)
    ensures Solid(Tag(key)) && TokenLength(Tag(key) + rest) == |Tag(key)|
  {
    KeyToken(key, rest);
  }

  lemma NullToken()
    ensures Solid("null") && TokenLength("null" + "") == 4
  {
    assert Writable(Null) && Text(Null) == "null";
    TokenIsValue(Null, "");
  }

  lemma NothingMore(room: nat)
    ensures Entries("", room) == []
  {
  }

  function ValueText(value: Option<string>): string {
    if value.None? then "null" else Quote(value.value)
  }

  /** The notice says in its four fields, in order, that it is an update, and of which path, key and value. */
  lemma NoticeReads(path: string, key: string, value: Option<string>)
    ensures Entries(NoticeInside(path, key, value), 127)
         == [("status", Tag("config_update")), ("path", Quote(path)), ("key", Quote(key)), ("value", ValueText(value))]
  {
    hide Entries, Tag, Quote, Pair, TokenLength, NoticeInside, Clip;
    ClipShort("status", 127);
    ClipShort("path", 127);
    ClipShort("key", 127);
    ClipShort("value", 127);
    var last := ValueText(value);
    var d := Pair(", ", "value", last, "");
    var c := Pair(", ", "key", Quote(key), d);
    var b := Pair(", ", "path", Quote(path), c);
    var a := Pair("", "status", Tag("config_update"), b);
    SamePairs(path, key, value);
    if value.Some? {
      QuoteToken(value.value, "");
    } else {
      NullToken();
    }
    PairFirst(", ", "value", last, "", 127);
    QuoteToken(key, d);
    PairFirst(", ", "key", Quote(key), d, 127);
    QuoteToken(path, c);
    PairFirst(", ", "path", Quote(path), c, 127);
    TagToken("config_update", b);
    PairFirst("", "status", Tag("config_update"), b, 127);
    NothingMore(127);
  }

  lemma SamePairs(path: string, key: string, value: Option<string>)
    ensures NoticeInside(path, key, value)
         == Pair("", "status", Tag("config_update"),
              Pair(", ", "path", Quote(path), Pair(", ", "key", Quote(key), Pair(", ", "value", ValueText(value), ""))))
  {
    hide Tag, Quote;
    var s, u, p, k, v := Tag("status"), Tag("config_update"), Tag("path"), Tag("key"), Tag("value");
    Flatten(", ", v, ValueText(value), "");
    Flatten(", ", k, Quote(key), Pair(", ", "value", ValueText(value), ""));
    Flatten(", ", p, Quote(path), Pair(", ", "key", Quote(key), Pair(", ", "value", ValueText(value), "")));
    Flatten("", s, u, Pair(", ", "path", Quote(path), Pair(", ", "key", Quote(key), Pair(", ", "value", ValueText(value), ""))));
  }

  lemma Flatten(lead: string, quoted: string, value: string, rest: string)
    ensures lead + (quoted + (":" + (" " + (value + rest)))) == lead + quoted + ": " + value + rest
  {
    assert ": " == ":" + " ";
  }

  /** Each of the three comes back whole from its token when the buffer leaves four bytes to spare. */
  lemma NoticePartsDecode(s: string, room: nat)
    requires room >= |s| + 4
    ensures Quoted(Quote(s)) && Decode(Quote(s)[1..|Quote(s)| - 1], 0, room) == Some(s)
  {
    assert Quote(s)[1..|Quote(s)| - 1] == EscapedText(s);
    UnescapeUndoesEscape(s, room);
  }
}
