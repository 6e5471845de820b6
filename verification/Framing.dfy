/** Splitting a byte stream into JSON objects, however the reads happen to cut it. */
module Framing {
  import opened JsonText

  // ---- the end of one object ----

  datatype Mode = Mode(depth: int, inString: bool, escaped: bool)

  const Outside := Mode(0, false, false)

  function Turn(m: Mode, c: char): Mode {
    if m.inString then
      if m.escaped then m.(escaped := false)
      else if c == '\\' then m.(escaped := true)
      else if c == '"' then m.(inString := false)
      else m
    else if c == '"' then m.(inString := true, escaped := false)
    else if c == '{' then m.(depth := m.depth + 1)
    else if c == '}' then m.(depth := m.depth - 1)
    else m
  }

  predicate Closes(m: Mode, c: char) {
    !m.inString && c == '}' && m.depth == 1
  }

  function Shift(n: nat, e: int): int {
    if e < 0 then -1 else n + e
  }

  /** Characters up to and including the brace that brings the depth to 0, or -1. */
  function FindEnd(text: string, m: Mode): (e: int)
    ensures e == -1 || 0 < e <= |text|
  {
    if text == "" then -1
    else if Closes(m, text[0]) then 1
    else Shift(1, FindEnd(text[1..], Turn(m, text[0])))
  }

  /** An end once found is not moved by any later bytes. */
  lemma {:induction false} EndIsStable(a: string, b: string, m: Mode)
    ensures FindEnd(a, m) > 0 ==> FindEnd(a + b, m) == FindEnd(a, m)
    ensures FindEnd(a, m) < 0 ==> FindEnd(a + b, m) < 0 || FindEnd(a + b, m) > |a|
    decreases |a|
  {
    if a != "" {
      assert (a + b)[1..] == a[1..] + b;
      EndIsStable(a[1..], b, Turn(m, a[0]));
    }
  }

  /** Only a closing brace ends an object. */
  lemma {:induction false} EndsInBrace(text: string, m: Mode)
    requires FindEnd(text, m) > 0
    ensures text[FindEnd(text, m) - 1] == '}'
    decreases |text|
  {
    if !Closes(m, text[0]) {
      EndsInBrace(text[1..], Turn(m, text[0]));
    }
  }

  /** Inside a string the framer waits for exactly the quote the string scanner stops at. */
  lemma {:induction false} EndAfterString(text: string, depth: int)
    ensures FindEnd(text, Mode(depth, true, false))
         == Shift(StringEnd(text), FindEnd(text[StringEnd(text)..], Mode(depth, false, false)))
    decreases |text|
  {
    if text == "" {
    } else if text[0] == '\\' {
      if |text| > 1 {
        assert text[1..][1..] == text[2..];
        EndAfterString(text[2..], depth);
        assert text[2..][StringEnd(text[2..])..] == text[StringEnd(text)..];
        assert FindEnd(text[1..], Mode(depth, true, true))
            == Shift(1, FindEnd(text[2..], Mode(depth, true, false)));
      }
    } else if text[0] != '"' {
      EndAfterString(text[1..], depth);
      assert text[1..][StringEnd(text[1..])..] == text[StringEnd(text)..];
    }
  }

  /** The framer and the container scanner agree on where an object ends. */
  lemma {:induction false} EndIsContainerEnd(text: string, depth: nat)
    requires depth > 0
    ensures ContainerEnd(text, '{', '}', depth)
         == var e := FindEnd(text, Mode(depth, false, false)); if e < 0 then |text| else e
    decreases |text|
  {
    if text == "" {
    } else if text[0] == '"' {
      var n := 1 + StringEnd(text[1..]);
      EndAfterString(text[1..], depth);
      assert text[1..][StringEnd(text[1..])..] == text[n..];
      EndIsContainerEnd(text[n..], depth);
    } else if text[0] == '{' {
      EndIsContainerEnd(text[1..], depth + 1);
    } else if text[0] == '}' {
      if depth > 1 {
        EndIsContainerEnd(text[1..], depth - 1);
      }
    } else {
      EndIsContainerEnd(text[1..], depth);
    }
  }

  // ---- a stream of objects ----

  /** The next opening brace, as the C library finds it: a NUL stops the search. */
  function OpeningBrace(text: string): (i: int)
    ensures i == -1 || (0 <= i < |text| && text[i] == '{')
  {
    if text == "" || text[0] == '\0' then -1
    else if text[0] == '{' then 0
    else Shift(1, OpeningBrace(text[1..]))
  }

  datatype Scanned = Scanned(objects: seq<string>, rest: string)

  /** The complete objects of a stream and the bytes left for later. */
  function Scan(text: string): (r: Scanned)
    ensures |r.rest| <= |text|
    decreases |text|
  {
    var i := OpeningBrace(text);
    if i < 0 then Scanned([], text)
    else
      var e := FindEnd(text[i..], Outside);
      if e < 0 then Scanned([], text[i..])
      else
        var more := Scan(text[i + e..]);
        Scanned([text[i..i + e]] + more.objects, more.rest)
  }

  lemma {:induction false} OpeningBraceStable(a: string, b: string)
    requires OpeningBrace(a) >= 0
    ensures OpeningBrace(a + b) == OpeningBrace(a)
    ensures OpeningBrace(a[OpeningBrace(a)..] + b) == 0
    decreases |a|
  {
    if a[0] != '{' {
      assert (a + b)[1..] == a[1..] + b;
      OpeningBraceStable(a[1..], b);
      assert a[OpeningBrace(a)..] == a[1..][OpeningBrace(a[1..])..];
    }
  }

  /** Scanning what is left, with more bytes behind it, continues the scan of the whole. */
  lemma {:induction false} ScanContinues(a: string, b: string)
    ensures var first := Scan(a);
            var second := Scan(first.rest + b);
            Scan(a + b) == Scanned(first.objects + second.objects, second.rest)
    decreases |a|
  {
    hide Scan, FindEnd, OpeningBrace;
    var i := OpeningBrace(a);
    if i < 0 {
      ScanNothing(a);
    } else {
      OpeningBraceStable(a, b);
      var tail := a[i..];
      assert (a + b)[i..] == tail + b;
      EndIsStable(tail, b, Outside);
      var e := FindEnd(tail, Outside);
      if e < 0 {
        ScanUnfinished(a, i);
        ScanFromBrace(a + b, i);
      } else {
        var left := a[i + e..];
        assert (a + b)[i..i + e] == a[i..i + e] && (a + b)[i + e..] == left + b;
        ScanContinues(left, b);
        ScanStep(a, i, e);
        ScanStep(a + b, i, e);
      }
    }
  }

  lemma ScanNothing(text: string)
    requires OpeningBrace(text) < 0
    ensures Scan(text) == Scanned([], text)
  {
  }

  lemma ScanUnfinished(text: string, i: nat)
    requires i == OpeningBrace(text) && FindEnd(text[i..], Outside) < 0
    ensures Scan(text) == Scanned([], text[i..])
  {
  }

  lemma ScanStep(text: string, i: nat, e: nat)
    requires i == OpeningBrace(text) && e == FindEnd(text[i..], Outside)
    ensures Scan(text) == Scanned([text[i..i + e]] + Scan(text[i + e..]).objects, Scan(text[i + e..]).rest)
  {
  }

  /** Bytes before the first opening brace do not matter once it is there. */
  lemma ScanFromBrace(text: string, i: nat)
    requires i == OpeningBrace(text)
    requires OpeningBrace(text[i..]) == 0
    ensures Scan(text) == Scan(text[i..])
  {
    hide Scan, FindEnd, OpeningBrace;
    var tail := text[i..];
    assert tail[0..] == tail;
    var e := FindEnd(tail, Outside);
    if e < 0 {
      ScanUnfinished(text, i);
      ScanUnfinished(tail, 0);
    } else {
      assert tail[0..e] == text[i..i + e] && tail[e..] == text[i + e..];
      ScanStep(text, i, e);
      ScanStep(tail, 0, e);
    }
  }

  // ---- what a scan makes of any bytes ----

  /** Bytes that are skipped: no brace, no NUL. */
  predicate Gap(text: string) {
    '{' !in text && '\0' !in text
  }

  /** A complete object: it opens with a brace and closes with its last byte, not before. */
  predicate Complete(text: string) {
    text != "" && text[0] == '{' && FindEnd(text, Outside) == |text|
  }

  /** Nothing more to find: an unfinished object, or no brace ahead of the first NUL. */
  ghost predicate Nothing(text: string) {
    (text != "" && text[0] == '{' && FindEnd(text, Outside) < 0)
    || forall i :: 0 <= i < |text| && text[i] == '{' ==> '\0' in text[..i]
  }

  function Interleaved(gaps: seq<string>, objects: seq<string>): string
    requires |gaps| == |objects|
  {
    if gaps == [] then "" else gaps[0] + objects[0] + Interleaved(gaps[1..], objects[1..])
  }

  lemma {:induction false} OpeningBraceIs(text: string)
    ensures var i := OpeningBrace(text);
            if i >= 0 then Gap(text[..i])
            else forall k :: 0 <= k < |text| && text[k] == '{' ==> '\0' in text[..k]
    decreases |text|
  {
    if text != "" && text[0] != '\0' && text[0] != '{' {
      OpeningBraceIs(text[1..]);
      var i := OpeningBrace(text);
      if i >= 0 {
        assert text[..i] == [text[0]] + text[1..][..i - 1];
      } else {
        forall k | 0 <= k < |text| && text[k] == '{' ensures '\0' in text[..k] {
          assert text[1..][k - 1] == '{';
          assert text[..k] == [text[0]] + text[1..][..k - 1];
        }
      }
    } else if text != "" && text[0] == '\0' {
      assert forall k :: 0 < k < |text| ==> text[..k][0] == '\0';
    }
  }

  lemma EndIsComplete(text: string, e: nat)
    requires text != "" && text[0] == '{' && e == FindEnd(text, Outside)
    ensures Complete(text[..e])
  {
    EndOfPrefix(text, e, Outside);
  }

  lemma {:induction false} EndOfPrefix(text: string, e: nat, m: Mode)
    requires FindEnd(text, m) == e && e > 0
    ensures FindEnd(text[..e], m) == e
    decreases |text|
  {
    if !Closes(m, text[0]) {
      EndOfPrefix(text[1..], e - 1, Turn(m, text[0]));
      assert text[..e][1..] == text[1..][..e - 1];
    }
  }

  /** The bytes are gaps and complete objects by turns, a last gap, and what is kept; every object is dispatched. */
  lemma {:induction false} ScanExplained(text: string) returns (gaps: seq<string>, last: string)
    ensures var r := Scan(text);
            && |gaps| == |r.objects| && text == Interleaved(gaps, r.objects) + last + r.rest
            && (forall k :: 0 <= k < |gaps| ==> Gap(gaps[k]) && Complete(r.objects[k]))
            && Gap(last) && Nothing(r.rest)
    decreases |text|
  {
    hide Scan, FindEnd, OpeningBrace, Complete, Gap, Nothing;
    var i := OpeningBrace(text);
    OpeningBraceIs(text);
    EmptyGap();
    if i < 0 {
      ScanNothing(text);
      NothingIs(text);
      gaps, last := [], "";
      assert "" + "" + text == text;
    } else {
      var tail := text[i..];
      var e := FindEnd(tail, Outside);
      if e < 0 {
        ScanUnfinished(text, i);
        NothingIs(tail);
        gaps, last := [], text[..i];
        assert "" + text[..i] + tail == text;
      } else {
        var gs, l := ScanExplained(text[i + e..]);
        ScanStep(text, i, e);
        EndIsComplete(tail, e);
        assert tail[..e] == text[i..i + e];
        gaps, last := [text[..i]] + gs, l;
        var found, more := text[i..i + e], Scan(text[i + e..]);
        assert gaps[1..] == gs && ([found] + more.objects)[1..] == more.objects;
        Regroup(text[..i], found, Interleaved(gs, more.objects), l, more.rest);
        assert text == text[..i] + found + text[i + e..];
      }
    }
  }

  lemma Regroup(a: string, b: string, c: string, d: string, e: string)
    ensures a + b + (c + d + e) == a + b + c + d + e
  {
  }

  lemma EmptyGap()
    ensures Gap("") && Interleaved([], []) == ""
  {
  }

  lemma NothingIs(text: string)
    ensures text != "" && text[0] == '{' && FindEnd(text, Outside) < 0 ==> Nothing(text)
    ensures (forall k :: 0 <= k < |text| && text[k] == '{' ==> '\0' in text[..k]) ==> Nothing(text)
  {
  }

  // ---- the same, read by read ----

  function Joined(cuts: seq<string>): string {
    if cuts == [] then "" else Joined(cuts[..|cuts| - 1]) + cuts[|cuts| - 1]
  }

  /** What a client's reads leave behind: objects dispatched so far and bytes still buffered. */
  function Fed(cuts: seq<string>): Scanned {
    if cuts == [] then Scanned([], "")
    else
      var before := Fed(cuts[..|cuts| - 1]);
      var now := Scan(before.rest + cuts[|cuts| - 1]);
      Scanned(before.objects + now.objects, now.rest)
  }

  /** However a stream is cut into reads, the outcome is that of one scan of the whole stream. */
  lemma {:induction false} FedIsScan(cuts: seq<string>)
    ensures Fed(cuts) == Scan(Joined(cuts))
    decreases |cuts|
  {
    if cuts != [] {
      var before := cuts[..|cuts| - 1];
      FedIsScan(before);
      ScanContinues(Joined(before), cuts[|cuts| - 1]);
    }
  }

  // ---- written objects ----

  /** A bracketed text whose inside is neutral is one object, whatever follows. */
  lemma EndOfBraced(inner: string, post: string)
    requires Neutral(inner)
    ensures FindEnd("{" + inner + "}" + post, Outside) == |inner| + 2
  {
    var text := inner + "}";
    NotUnfinished(inner);
    assert ("{" + inner + "}" + post)[1..] == text + post;
    EndIsStable(text, post, Mode(1, false, false));
  }

  lemma NotUnfinished(inner: string)
    requires Neutral(inner)
    ensures FindEnd(inner + "}", Mode(1, false, false)) == |inner| + 1
  {
    hide *;
    InnerContainerEnd(inner);
    assert inner + "}" + " " == inner + ("}" + " ");
    EndBefore(inner + "}");
    assert |inner + "}"| == |inner| + 1;
  }

  lemma InnerContainerEnd(inner: string)
    requires Neutral(inner)
    ensures ContainerEnd(inner + ("}" + " "), '{', '}', 1) == |inner| + 1
  {
    hide ContainerEnd;
    var tail := "}" + " ";
    BraceContainerEnd(tail);
    assert NeutralBefore(inner, tail, '{', 1);
  }

  /** Where the container scanner stops before the last character, the framer has found its end. */
  lemma EndBefore(text: string)
    requires ContainerEnd(text + " ", '{', '}', 1) == |text|
    ensures FindEnd(text, Mode(1, false, false)) == |text|
  {
    hide ContainerEnd, FindEnd;
    EndIsContainerEnd(text + " ", 1);
    EndIsStable(text, " ", Mode(1, false, false));
  }

  lemma BraceContainerEnd(text: string)
    requires text != "" && text[0] == '}'
    ensures ContainerEnd(text, '{', '}', 1) == 1
  {
    ContainerEndZero(text[1..]);
  }

  lemma ContainerEndZero(text: string)
    ensures ContainerEnd(text, '{', '}', 0) == 0
  {
  }

  lemma EndOfWritten(fields: seq<Field>, post: string)
    requires Writable(Obj(fields))
    ensures FindEnd(Text(Obj(fields)) + post, Outside) == |Text(Obj(fields))|
  {
    FieldsNeutral(fields);
    EndOfBraced(Fields(fields), post);
  }

  /** Messages as a client sends them: one object a line. */
  function Lines(messages: seq<Json>): string {
    if messages == [] then "" else Text(messages[0]) + "\n" + Lines(messages[1..])
  }

  predicate Message(v: Json) {
    v.Obj? && Writable(v)
  }

  function Sent(messages: seq<Json>): seq<string> {
    seq(|messages|, i requires 0 <= i < |messages| => Text(messages[i]))
  }

  lemma {:induction false} LinesScanned(messages: seq<Json>, lead: string)
    requires forall v :: v in messages ==> Message(v)
    requires lead == "" || lead == "\n"
    ensures Scan(lead + Lines(messages)).objects == Sent(messages)
    decreases |messages|
  {
    hide Text, FindEnd, Writable;
    if messages == [] {
      assert lead + Lines(messages) == lead;
      assert lead == "\n" ==> OpeningBrace(lead[1..]) < 0;
    } else {
      var v, rest := messages[0], "\n" + Lines(messages[1..]);
      assert v in messages;
      LineScanned(v, lead, rest);
      assert Text(v) + rest == Lines(messages);
      LinesScanned(messages[1..], "\n");
      SentSplit(messages);
    }
  }

  lemma SentSplit(messages: seq<Json>)
    requires messages != []
    ensures Sent(messages) == [Text(messages[0])] + Sent(messages[1..])
  {
    hide Text;
  }

  lemma LineScanned(v: Json, lead: string, rest: string)
    requires Message(v)
    requires lead == "" || lead == "\n"
    ensures Scan(lead + (Text(v) + rest)).objects == [Text(v)] + Scan(rest).objects
  {
    var text := lead + (Text(v) + rest);
    EndOfWritten(v.fields, rest);
    BraceAfterLead(lead, Text(v) + rest);
    hide Text, FindEnd, Writable, Message, Scan, Fields;
    assert text[|lead|..] == Text(v) + rest;
    ScanStep(text, |lead|, |Text(v)|);
    assert text[|lead|..|lead| + |Text(v)|] == Text(v);
    assert text[|lead| + |Text(v)|..] == rest;
  }

  lemma BraceAfterLead(lead: string, text: string)
    requires lead == "" || lead == "\n"
    requires text != "" && text[0] == '{'
    ensures OpeningBrace(lead + text) == |lead|
  {
    assert lead != "" ==> (lead + text)[1..] == text;
  }

  /** Messages sent one a line are dispatched one by one, in order, whole, however the reads cut them. */
  lemma MessagesArrive(messages: seq<Json>, cuts: seq<string>)
    requires forall v :: v in messages ==> Message(v)
    requires Joined(cuts) == Lines(messages)
    ensures Fed(cuts).objects == Sent(messages)
  {
    FedIsScan(cuts);
    LinesScanned(messages, "");
    assert "" + Lines(messages) == Lines(messages);
  }
}
