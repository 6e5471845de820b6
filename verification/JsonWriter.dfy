/** The writer: one output stream and a flag saying whether a comma is due. */
module JsonWriter {
  import opened Common
  import opened JsonText

  const Marker: string := "...[truncated]..."

  /** What a length limit leaves of a string: head, marker, tail. */
  function Shortened(s: string, limit: int): string {
    if limit > 0 && |s| > limit then s[..limit / 2] + Marker + s[|s| - limit / 2..] else s
  }

  /** Within the limit nothing changes; beyond it half the limit stays at either end, around the marker. */
  lemma ShortenedExactly(s: string, limit: int)
    ensures var r, half := Shortened(s, limit), limit / 2;
            if limit <= 0 || |s| <= limit then r == s
            else
              && |r| == half + 17 + half && r[half..half + 17] == "...[truncated]..."
              && (forall k :: 0 <= k < half ==> r[k] == s[k])
              && forall k :: |r| - half <= k < |r| ==> r[k] == s[k - |r| + |s|]
  {
    assert |Marker| == 17;
  }

  lemma {:induction false} EscapedConcat(a: string, b: string)
    ensures Escaped(a + b) == Escaped(a) + Escaped(b)
    decreases |a|
  {
    if a == "" {
      assert a + b == b;
    } else {
      assert (a + b)[1..] == a[1..] + b;
      EscapedConcat(a[1..], b);
    }
  }

  predicate NeedsNothing(c: char) {
    c >= ' ' && c != '"' && c != '\\'
  }

  lemma EscapedStep(s: string)
    requires s != ""
    ensures NeedsNothing(s[0]) ==> Escaped(s) == [s[0]] + Escaped(s[1..])
  {
  }

  lemma {:induction false} EscapedPlain(s: string)
    requires forall i :: 0 <= i < |s| ==> NeedsNothing(s[i])
    ensures Escaped(s) == s
    decreases |s|
  {
    if s != "" {
      hide Escaped, NeedsNothing;
      EscapedStep(s);
      EscapedPlain(s[1..]);
      assert NeedsNothing(s[0]);
    }
  }

  lemma EscapedSnoc(s: string, from: nat, i: nat)
    requires from <= i < |s|
    ensures Escaped(s[from..i + 1]) == Escaped(s[from..i]) + EscapeChar(s[i])
  {
    assert s[from..i + 1] == s[from..i] + [s[i]];
    EscapedConcat(s[from..i], [s[i]]);
    assert Escaped([s[i]]) == EscapeChar(s[i]) + Escaped("");
  }

  function Separator(due: bool): string {
    if due then "," else ""
  }

  class Writer {
    var out: string
    var needComma: bool

    constructor ()
      ensures out == "" && !needComma
    {
      out, needComma := "", false;
    }

    method Put(s: string)
      modifies this
      ensures out == old(out) + s && needComma == old(needComma)
    {
      out := out + s;
    }

    method Comma()
      modifies this
      ensures out == old(out) + Separator(old(needComma)) && needComma == old(needComma)
    {
      if needComma {
        Put(",");
      }
    }

    method PutChar(c: char)
      modifies this
      ensures out == old(out) + EscapeChar(c) && needComma == old(needComma)
    {
      if c == '"' {
        Put("\\\"");
      } else if c == '\\' {
        Put("\\\\");
      } else if c == '\n' {
        Put("\\n");
      } else if c == '\r' {
        Put("\\r");
      } else if c == '\t' {
        Put("\\t");
      } else if c < ' ' {
        Put("\\u00" + [HexDigit(c as int / 16), HexDigit(c as int % 16)]);
      } else {
        Put([c]);
      }
    }

    method PutEscaped(s: string, from: nat, to: nat)
      requires from <= to <= |s|
      modifies this
      ensures out == old(out) + Escaped(s[from..to]) && needComma == old(needComma)
    {
      hide *;
      var i := from;
      NothingEscaped(s, from);
      ghost var start := out;
      while i < to
        invariant from <= i <= to
        invariant out == start + Escaped(s[from..i]) && needComma == old(needComma)
      {
        EscapedSnoc(s, from, i);
        Associative(start, Escaped(s[from..i]), EscapeChar(s[i]));
        PutChar(s[i]);
        i := i + 1;
      }
    }

    /** The text of the shortened string, escaped; the marker needs no escaping. */
    method WriteEscaped(s: string, limit: int)
      modifies this
      ensures out == old(out) + Escaped(Shortened(s, limit)) && needComma == old(needComma)
    {
      hide Escaped;
      ShortenedEscaped(s, limit);
      if limit > 0 && |s| > limit {
        var half := limit / 2;
        ghost var start := out;
        PutEscaped(s, 0, half);
        Put("...[truncated]...");
        PutEscaped(s, |s| - half, |s|);
        Associative(start, Escaped(s[0..half]), Marker);
        Associative(start, Escaped(s[0..half]) + Marker, Escaped(s[|s| - half..|s|]));
      } else {
        PutEscaped(s, 0, |s|);
      }
    }

    method Open(bracket: char)
      modifies this
      ensures out == old(out) + Separator(old(needComma)) + [bracket] && !needComma
    {
      Comma();
      Put([bracket]);
      needComma := false;
    }

    method CloseWith(bracket: char)
      modifies this
      ensures out == old(out) + [bracket] && needComma
    {
      Put([bracket]);
      needComma := true;
    }

    method Key(key: string)
      modifies this
      ensures out == old(out) + Separator(old(needComma)) + "\"" + key + "\":" && !needComma
    {
      Comma();
      Put("\"");
      Put(key);
      Put("\":");
      needComma := false;
    }

    method StrN(s: string, limit: int)
      modifies this
      ensures out == old(out) + Separator(old(needComma)) + Text(Str(Shortened(s, limit))) && needComma
    {
      hide Escaped, Shortened;
      Comma();
      ghost var start := out;
      Put("\"");
      WriteEscaped(s, limit);
      Put("\"");
      Associative(start, "\"", Escaped(Shortened(s, limit)));
      Associative(start, "\"" + Escaped(Shortened(s, limit)), "\"");
      needComma := true;
    }

    /** Integers, booleans, null and floating-point text. */
    method Word(v: Json)
      requires v.Int? || v.Bool? || v.Null? || v.Double?
      modifies this
      ensures out == old(out) + Separator(old(needComma)) + Text(v) && needComma
    {
      Comma();
      Put(BareText(v));
      needComma := true;
    }

    /** The calls a client makes for one value: the result is that value's text, one comma before it if due. */
    method Emit(v: Json)
      modifies this
      ensures out == old(out) + Separator(old(needComma)) + Text(v) && needComma
      decreases v
    {
      match v
      case Obj(fields) =>
        hide *;
        ObjectText(fields);
        ghost var start := out + Separator(needComma);
        Open('{');
        EmitFields(fields);
        CloseWith('}');
        Associative(start, "{", Fields(fields));
        Associative(start, "{" + Fields(fields), "}");
      case Arr(items) =>
        hide *;
        ArrayText(items);
        ghost var start := out + Separator(needComma);
        Open('[');
        EmitItems(items);
        CloseWith(']');
        Associative(start, "[", Items(items));
        Associative(start, "[" + Items(items), "]");
      case Str(s) =>
        assert Shortened(s, 0) == s;
        StrN(s, 0);
      case _ =>
        Word(v);
    }

    method EmitFields(fields: seq<Field>)
      requires !needComma
      modifies this
      ensures out == old(out) + Fields(fields)
      decreases fields
    {
      hide *;
      ghost var start := out;
      NothingWritten();
      var i := 0;
      while i < |fields|
        invariant 0 <= i <= |fields|
        invariant out == start + Fields(fields[..i]) && needComma == (i > 0)
      {
        var f := fields[i];
        ghost var done, sep := Fields(fields[..i]), Separator(needComma);
        FieldsSnoc(fields, i);
        SeparatorNone();
        Key(f.key);
        Emit(f.value);
        FieldAppended(start, done, sep, f);
        i := i + 1;
      }
      assert fields[..i] == fields;
    }

    method EmitItems(items: seq<Json>)
      requires !needComma
      modifies this
      ensures out == old(out) + Items(items)
      decreases items
    {
      hide *;
      ghost var start := out;
      NothingWritten();
      var i := 0;
      while i < |items|
        invariant 0 <= i <= |items|
        invariant out == start + Items(items[..i]) && needComma == (i > 0)
      {
        ghost var done, sep := Items(items[..i]), Separator(needComma);
        ItemsSnoc(items, i);
        Emit(items[i]);
        Associative(start, done, sep);
        Associative(start, done + sep, Text(items[i]));
        i := i + 1;
      }
      assert items[..i] == items;
    }
  }

  lemma NothingEscaped(s: string, from: nat)
    requires from <= |s|
    ensures Escaped(s[from..from]) == "" && forall t: string :: t + "" == t
  {
  }

  lemma NothingWritten()
    ensures Fields([]) == "" && Items([]) == "" && forall t: string :: t + "" == t
  {
  }

  lemma ObjectText(fields: seq<Field>)
    ensures Text(Obj(fields)) == "{" + Fields(fields) + "}"
  {
  }

  lemma ArrayText(items: seq<Json>)
    ensures Text(Arr(items)) == "[" + Items(items) + "]"
  {
  }

  lemma SeparatorNone()
    ensures Separator(false) == ""
  {
  }

  lemma FieldAppended(start: string, done: string, sep: string, f: Field)
    ensures start + done + sep + "\"" + f.key + "\":" + "" + Text(f.value) == start + (done + sep + FieldText(f))
  {
    hide Text;
    var quoted := "\"" + f.key + "\":";
    assert start + done + sep + "\"" + f.key + "\":" + "" == start + done + sep + quoted;
    assert FieldText(f) == quoted + Text(f.value);
    Associative(start, done, sep);
    Associative(start + (done + sep), quoted, Text(f.value));
    Associative(start, done + sep, quoted + Text(f.value));
  }

  lemma ShortenedEscaped(s: string, limit: int)
    ensures if limit > 0 && |s| > limit then
              Escaped(Shortened(s, limit))
              == Escaped(s[0..limit / 2]) + Marker + Escaped(s[|s| - limit / 2..|s|])
            else Shortened(s, limit) == s[0..|s|]
  {
    hide Escaped;
    if limit > 0 && |s| > limit {
      var half := limit / 2;
      assert s[0..half] == s[..half] && s[|s| - half..|s|] == s[|s| - half..];
      EscapedConcat(s[..half] + Marker, s[|s| - half..]);
      EscapedConcat(s[..half], Marker);
      EscapedPlain(Marker);
    }
  }

  lemma {:induction false} FieldsConcat(a: seq<Field>, f: Field)
    ensures Fields(a + [f]) == Fields(a) + Separator(a != []) + FieldText(f)
    decreases |a|
  {
    if a != [] {
      assert (a + [f])[1..] == a[1..] + [f];
      FieldsConcat(a[1..], f);
    }
  }

  lemma FieldsSnoc(fields: seq<Field>, i: nat)
    requires i < |fields|
    ensures Fields(fields[..i + 1]) == Fields(fields[..i]) + Separator(i > 0) + FieldText(fields[i])
  {
    assert fields[..i + 1] == fields[..i] + [fields[i]];
    FieldsConcat(fields[..i], fields[i]);
  }

  lemma {:induction false} ItemsConcat(a: seq<Json>, v: Json)
    ensures Items(a + [v]) == Items(a) + Separator(a != []) + Text(v)
    decreases |a|
  {
    if a != [] {
      assert (a + [v])[1..] == a[1..] + [v];
      ItemsConcat(a[1..], v);
    }
  }

  lemma ItemsSnoc(items: seq<Json>, i: nat)
    requires i < |items|
    ensures Items(items[..i + 1]) == Items(items[..i]) + Separator(i > 0) + Text(items[i])
  {
    assert items[..i + 1] == items[..i] + [items[i]];
    ItemsConcat(items[..i], items[i]);
  }
}
