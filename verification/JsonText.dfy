/** JSON values, the text the writer produces for them, and how the reader scans such text. */
module JsonText {

  datatype Field = Field(key: string, value: Json)

  datatype Json =
    | Obj(fields: seq<Field>)
    | Arr(items: seq<Json>)
    | Str(s: string)
    | Int(n: int)
    | Bool(b: bool)
    | Null
    | Double(text: string)  // whatever text the C library prints

  // ---- writing ----

  function HexDigit(n: int): char
    requires 0 <= n < 16
  {
    "0123456789abcdef"[n]
  }

  /** One character inside a JSON string. */
  function EscapeChar(c: char): string {
    if c == '"' then "\\\""
    else if c == '\\' then "\\\\"
    else if c == '\n' then "\\n"
    else if c == '\r' then "\\r"
    else if c == '\t' then "\\t"
    else if c < ' ' then "\\u00" + [HexDigit(c as int / 16), HexDigit(c as int % 16)]
    else [c]
  }

  function Escaped(s: string): string {
    if s == "" then "" else EscapeChar(s[0]) + Escaped(s[1..])
  }

  function Digits(n: nat): string {
    if n < 10 then [HexDigit(n)] else Digits(n / 10) + [HexDigit(n % 10)]
  }

  function BareText(v: Json): string
    requires v.Int? || v.Bool? || v.Null? || v.Double?
  {
    match v
    case Int(n) => if n < 0 then "-" + Digits(-n) else Digits(n)
    case Bool(b) => if b then "true" else "false"
    case Null => "null"
    case Double(text) => text
  }

  function Text(v: Json): string
    decreases v, 1
  {
    match v
    case Obj(fields) => "{" + Fields(fields) + "}"
    case Arr(items) => "[" + Items(items) + "]"
    case Str(s) => "\"" + Escaped(s) + "\""
    case _ => BareText(v)
  }

  function FieldText(f: Field): string
    decreases f, 2
  {
    "\"" + f.key + "\":" + Text(f.value)
  }

  function Fields(fields: seq<Field>): string
    decreases fields, 0
  {
    if fields == [] then ""
    else if |fields| == 1 then FieldText(fields[0])
    else FieldText(fields[0]) + "," + Fields(fields[1..])
  }

  function Items(items: seq<Json>): string
    decreases items, 0
  {
    if items == [] then ""
    else if |items| == 1 then Text(items[0])
    else Text(items[0]) + "," + Items(items[1..])
  }

  predicate BareChar(c: char) {
    c != '"' && c != '{' && c != '}' && c != '[' && c != ']' && c != ',' && !Blank(c)
  }

  predicate Blank(c: char) {
    c == ' ' || c == '\t' || c == '\n' || c == '\r'
  }

  predicate Bare(text: string) {
    text != "" && forall c :: c in text ==> BareChar(c)
  }

  /** Keys are written as they are, so they must not need escaping. */
  predicate SafeKey(key: string) {
    '"' !in key && '\\' !in key
  }

  predicate Writable(v: Json) {
    match v
    case Obj(fields) => forall f :: f in fields ==> SafeKey(f.key) && Writable(f.value)
    case Arr(items) => forall x :: x in items ==> Writable(x)
    case Double(text) => FloatText(text)
    case _ => true
  }

  /** What the C library's six-decimal format prints: a number with a point, or one of four names. */
  predicate FloatText(text: string) {
    text in {"inf", "-inf", "nan", "-nan"}
    || ('.' in text && forall c :: c in text ==> c == '-' || c == '.' || '0' <= c <= '9')
  }

  /** What a backslash and `c` stand for, when the readers know it; "" otherwise. */
  function Meaning(c: char): (r: string) {
    if c == 'n' then "\n"
    else if c == 't' then "\t"
    else if c == 'r' then "\r"
    else if c == '\\' || c == '"' || c == '/' then [c]
    else if c == 'b' then [8 as char]
    else if c == 'f' then [12 as char]
    else ""
  }

  /** The eight two-character escapes of RFC 8259, section 7, by code point; no other letter has a meaning. */
  lemma EscapesOfTheStandard(c: char)
    ensures Meaning(c) == (if c == '"' then [0x22 as char] else if c == '\\' then [0x5C as char]
                           else if c == '/' then [0x2F as char] else if c == 'b' then [0x08 as char]
                           else if c == 'f' then [0x0C as char] else if c == 'n' then [0x0A as char]
                           else if c == 'r' then [0x0D as char] else if c == 't' then [0x09 as char] else "")
  {
  }

  // ---- scanning: each function says how much of the text is consumed ----

  /** Past the closing quote; `text` starts after the opening one. */
  function StringEnd(text: string): (n: nat)
    ensures n <= |text|
    decreases |text|
  {
    if text == "" then 0
    else if text[0] == '\\' then (if |text| == 1 then 1 else 2 + StringEnd(text[2..]))
    else if text[0] == '"' then 1
    else 1 + StringEnd(text[1..])
  }

  /** Past the bracket that brings `depth` to 0; strings are skipped, other brackets ignored. */
  function ContainerEnd(text: string, open: char, close: char, depth: nat): (n: nat)
    ensures n <= |text|
    decreases |text|
  {
    if text == "" || depth == 0 then 0
    else if text[0] == '"' then
      var n := 1 + StringEnd(text[1..]);
      n + ContainerEnd(text[n..], open, close, depth)
    else if text[0] == open then 1 + ContainerEnd(text[1..], open, close, depth + 1)
    else if text[0] == close then 1 + ContainerEnd(text[1..], open, close, depth - 1)
    else 1 + ContainerEnd(text[1..], open, close, depth)
  }

  predicate Delimiter(c: char) {
    c == ',' || c == '}' || c == ']' || Blank(c)
  }

  function BareEnd(text: string): (n: nat)
    ensures n <= |text|
  {
    if text == "" || Delimiter(text[0]) then 0 else 1 + BareEnd(text[1..])
  }

  /** Leading blanks and commas. */
  function Skipped(text: string): (n: nat)
    ensures n <= |text| && (n < |text| ==> text[n] != ',' && !Blank(text[n]))
  {
    if text != "" && (text[0] == ',' || Blank(text[0])) then 1 + Skipped(text[1..]) else 0
  }

  function Close(open: char): char {
    if open == '{' then '}' else ']'
  }

  /** The length of the token that `text` starts with; 0 at the end or at a closing bracket. */
  function TokenLength(text: string): (n: nat)
    ensures n <= |text|
  {
    if text == "" || text[0] == '}' || text[0] == ']' then 0
    else if text[0] == '"' then 1 + StringEnd(text[1..])
    else if text[0] == '{' || text[0] == '[' then 1 + ContainerEnd(text[1..], text[0], Close(text[0]), 1)
    else BareEnd(text)
  }

  // ---- the scanner consumes exactly what the writer wrote ----

  lemma {:induction false} StringEndOfEscaped(s: string, rest: string)
    ensures StringEnd(Escaped(s) + "\"" + rest) == |Escaped(s)| + 1
    decreases |s|
  {
    if s == "" {
      assert Escaped(s) + "\"" + rest == "\"" + rest;
    } else {
      var e, tail := EscapeChar(s[0]), Escaped(s[1..]) + "\"" + rest;
      assert Escaped(s) + "\"" + rest == e + tail;
      StringEndOfEscapedChar(s[0], tail);
      StringEndOfEscaped(s[1..], rest);
    }
  }

  lemma StringEndOfEscapedChar(c: char, tail: string)
    ensures StringEnd(EscapeChar(c) + tail) == |EscapeChar(c)| + StringEnd(tail)
  {
    var e := EscapeChar(c);
    if |e| == 1 {
      PlainRun(e, tail);
    } else if |e| == 2 {
      PairSkipped(e[1], "", tail);
      assert e == ['\\', e[1]] + "";
    } else {
      PlainDigits(c as int / 16);
      PlainDigits(c as int % 16);
      PairSkipped('u', e[2..], tail);
      assert e == ['\\', 'u'] + e[2..];
    }
  }

  lemma PlainDigits(n: int)
    requires 0 <= n < 16
    ensures HexDigit(n) != '"' && HexDigit(n) != '\\'
  {
  }

  /** A backslash and what it escapes, then plain text. */
  lemma PairSkipped(a: char, more: string, tail: string)
    requires '"' !in more && '\\' !in more
    ensures StringEnd(['\\', a] + more + tail) == 2 + |more| + StringEnd(tail)
  {
    var text := ['\\', a] + more + tail;
    assert text[2..] == more + tail;
    PlainRun(more, tail);
  }

  lemma {:induction false} PlainRun(text: string, tail: string)
    requires '"' !in text && '\\' !in text
    ensures StringEnd(text + tail) == |text| + StringEnd(tail)
  {
    if text == "" {
      assert text + tail == tail;
    } else {
      assert (text + tail)[1..] == text[1..] + tail;
      assert text[0] in text;
      PlainRun(text[1..], tail);
    }
  }

  lemma StringEndOfKey(key: string, rest: string)
    requires SafeKey(key)
    ensures StringEnd(key + "\"" + rest) == |key| + 1
  {
    PlainRun(key, "\"" + rest);
    assert key + ("\"" + rest) == key + "\"" + rest;
  }

  // ---- text that leaves the nesting depth alone ----

  /** Scanning past `text` inside a container ends where scanning what follows ends. */
  predicate NeutralBefore(text: string, post: string, open: char, depth: nat) {
    depth > 0 ==>
      ContainerEnd(text + post, open, Close(open), depth)
      == |text| + ContainerEnd(post, open, Close(open), depth)
  }

  predicate Bracket(c: char) {
    c == '{' || c == '['
  }

  ghost predicate Neutral(text: string) {
    forall post, open, depth :: Bracket(open) ==> NeutralBefore(text, post, open, depth)
  }

  lemma NeutralConcat(a: string, b: string)
    requires Neutral(a) && Neutral(b)
    ensures Neutral(a + b)
  {
    forall post, open, depth: nat | Bracket(open) ensures NeutralBefore(a + b, post, open, depth) {
      assert a + b + post == a + (b + post);
      assert NeutralBefore(a, b + post, open, depth) && NeutralBefore(b, post, open, depth);
    }
  }

  lemma NeutralChar(c: char)
    requires Flat(c)
    ensures Neutral([c])
  {
    forall post, open, depth: nat | Bracket(open) ensures NeutralBefore([c], post, open, depth) {
      assert ([c] + post)[1..] == post;
    }
  }

  predicate Flat(c: char) {
    c != '"' && c != '{' && c != '}' && c != '[' && c != ']'
  }

  lemma {:induction false} NeutralFlat(text: string)
    requires forall c :: c in text ==> Flat(c)
    ensures Neutral(text)
    decreases |text|
  {
    if text == "" {
      forall post, open, depth: nat | Bracket(open) ensures NeutralBefore(text, post, open, depth) {
        assert text + post == post;
      }
    } else {
      assert Flat(text[0]);
      NeutralChar(text[0]);
      NeutralFlat(text[1..]);
      NeutralConcat([text[0]], text[1..]);
      assert [text[0]] + text[1..] == text;
    }
  }

  lemma PastQuoted(inner: string, post: string, open: char, depth: nat)
    requires StringEnd(inner + "\"" + post) == |inner| + 1
    requires Bracket(open)
    ensures NeutralBefore("\"" + inner + "\"", post, open, depth)
  {
    hide StringEnd;
    var text := "\"" + inner + "\"" + post;
    assert text[1..] == inner + "\"" + post;
    assert text[|inner| + 2..] == post;
  }

  /** A quoted text is neutral when the string scanner stops exactly at its last quote. */
  lemma NeutralQuoted(inner: string)
    requires forall rest :: StringEnd(inner + "\"" + rest) == |inner| + 1
    ensures Neutral("\"" + inner + "\"")
  {
    hide NeutralBefore, StringEnd;
    forall post, open, depth: nat | Bracket(open)
      ensures NeutralBefore("\"" + inner + "\"", post, open, depth)
    {
      PastQuoted(inner, post, open, depth);
    }
  }

  lemma NeutralEscaped(s: string)
    ensures Neutral("\"" + Escaped(s) + "\"")
  {
    forall rest ensures StringEnd(Escaped(s) + "\"" + rest) == |Escaped(s)| + 1 {
      StringEndOfEscaped(s, rest);
    }
    NeutralQuoted(Escaped(s));
  }

  lemma NeutralKey(key: string)
    requires SafeKey(key)
    ensures Neutral("\"" + key + "\":")
  {
    forall rest ensures StringEnd(key + "\"" + rest) == |key| + 1 {
      StringEndOfKey(key, rest);
    }
    NeutralQuoted(key);
    NeutralChar(':');
    NeutralConcat("\"" + key + "\"", ":");
    assert "\"" + key + "\"" + ":" == "\"" + key + "\":";
  }

  lemma NeutralBracketed(open: char, inner: string)
    requires Bracket(open) && Neutral(inner)
    ensures Neutral([open] + inner + [Close(open)])
  {
    var text := [open] + inner + [Close(open)];
    forall post, o, depth: nat | Bracket(o) ensures NeutralBefore(text, post, o, depth) {
      assert (text + post)[1..] == inner + ([Close(open)] + post);
      assert ([Close(open)] + post)[1..] == post;
      assert NeutralBefore(inner, [Close(open)] + post, o, depth);
      assert NeutralBefore(inner, [Close(open)] + post, o, depth + 1);
    }
  }

  lemma {:induction false} TextNeutral(v: Json)
    requires Writable(v)
    ensures Neutral(Text(v))
    decreases v, 1
  {
    match v
    case Obj(fields) =>
      FieldsNeutral(fields);
      NeutralBracketed('{', Fields(fields));
      assert Text(v) == ['{'] + Fields(fields) + [Close('{')];
    case Arr(items) =>
      ItemsNeutral(items);
      NeutralBracketed('[', Items(items));
      assert Text(v) == ['['] + Items(items) + [Close('[')];
    case Str(s) => NeutralEscaped(s);
    case _ =>
      BareTextIsBare(v);
      assert forall c :: c in BareText(v) ==> Flat(c) by {
        assert forall c :: c in BareText(v) ==> BareChar(c);
      }
      NeutralFlat(BareText(v));
  }

  lemma {:induction false} FieldsNeutral(fields: seq<Field>)
    requires forall f :: f in fields ==> SafeKey(f.key) && Writable(f.value)
    ensures Neutral(Fields(fields))
    decreases fields, 0
  {
    if fields == [] {
      NeutralFlat("");
    } else {
      var f := fields[0];
      assert f in fields;
      NeutralKey(f.key);
      TextNeutral(f.value);
      NeutralConcat("\"" + f.key + "\":", Text(f.value));
      if |fields| > 1 {
        NeutralChar(',');
        NeutralConcat(FieldText(f), ",");
        FieldsNeutral(fields[1..]);
        NeutralConcat(FieldText(f) + ",", Fields(fields[1..]));
      }
    }
  }

  lemma {:induction false} ItemsNeutral(items: seq<Json>)
    requires forall x :: x in items ==> Writable(x)
    ensures Neutral(Items(items))
    decreases items, 0
  {
    if items == [] {
      NeutralFlat("");
    } else {
      assert items[0] in items;
      TextNeutral(items[0]);
      if |items| > 1 {
        NeutralChar(',');
        NeutralConcat(Text(items[0]), ",");
        ItemsNeutral(items[1..]);
        NeutralConcat(Text(items[0]) + ",", Items(items[1..]));
      }
    }
  }

  lemma {:induction false} DigitsBare(n: nat)
    ensures Bare(Digits(n))
  {
    if n >= 10 {
      DigitsBare(n / 10);
    }
  }

  lemma FloatIsBare(text: string)
    requires FloatText(text)
    ensures Bare(text)
  {
    if '.' in text {
      assert text != "";
    }
  }

  lemma BareTextIsBare(v: Json)
    requires v.Int? || v.Bool? || v.Null? || (v.Double? && FloatText(v.text))
    ensures Bare(BareText(v))
  {
    match v
    case Double(text) => FloatIsBare(text);
    case Int(n) => DigitsBare(if n < 0 then -n else n);
    case _ =>
  }

  // ---- one token is one value ----

  lemma {:induction false} BareEndExact(text: string, post: string)
    requires Bare(text) || text == ""
    requires post == "" || Delimiter(post[0])
    ensures BareEnd(text + post) == |text|
    decreases |text|
  {
    if text == "" {
      assert text + post == post;
    } else {
      assert text[0] in text;
      assert (text + post)[1..] == text[1..] + post;
      BareEndExact(text[1..], post);
    }
  }

  /** The scanner's token for a written value is that value's text, whatever follows. */
  lemma TokenIsValue(v: Json, post: string)
    requires Writable(v)
    requires post == "" || Delimiter(post[0])
    ensures Skipped(Text(v) + post) == 0
    ensures |Text(v)| > 0 && TokenLength(Text(v) + post) == |Text(v)|
  {
    hide StringEnd, ContainerEnd, BareEnd, Neutral, TokenLength, Bare;
    match v
    case Obj(fields) =>
      FieldsNeutral(fields);
      ClosesAt('{', Fields(fields), post);
      assert Text(v) == ['{'] + Fields(fields) + [Close('{')];
    case Arr(items) =>
      ItemsNeutral(items);
      ClosesAt('[', Items(items), post);
      assert Text(v) == ['['] + Items(items) + [Close('[')];
    case Str(s) => TokenOfString(s, post);
    case _ =>
      BareTextIsBare(v);
      TokenOfBare(BareText(v), post);
  }

  lemma TokenOfString(s: string, post: string)
    ensures TokenLength("\"" + Escaped(s) + "\"" + post) == |Escaped(s)| + 2
  {
    var t := "\"" + Escaped(s) + "\"" + post;
    assert t[1..] == Escaped(s) + "\"" + post;
    StringEndOfEscaped(s, post);
  }

  lemma TokenOfBare(text: string, post: string)
    requires Bare(text)
    requires post == "" || Delimiter(post[0])
    ensures text != "" && Skipped(text + post) == 0 && TokenLength(text + post) == |text|
  {
    assert (text + post)[0] == text[0] && text[0] in text;
    BareEndExact(text, post);
  }

  lemma ClosesAt(open: char, inner: string, post: string)
    requires Bracket(open) && Neutral(inner)
    ensures TokenLength([open] + inner + [Close(open)] + post) == |inner| + 2
  {
    var t := [open] + inner + [Close(open)] + post;
    assert t[1..] == inner + ([Close(open)] + post);
    assert NeutralBefore(inner, [Close(open)] + post, open, 1);
    assert ([Close(open)] + post)[1..] == post;
    assert ContainerEnd(post, open, Close(open), 0) == 0;
    assert ContainerEnd([Close(open)] + post, open, Close(open), 1) == 1;
    assert t[0] == open;
  }
}
