/** What is said in the messages that go out: each piece of text, call and result, by its place in the history. */
module ToolContents {
  import opened Common
  import opened ToolPairing
  import opened ToolMessages

  // ---- the places of one kind of block ----

  predicate HasText(b: Block) {
    b.kind == "text"
  }

  predicate HasThought(b: Block) {
    b.kind == "thinking"
  }

  predicate HasUse(b: Block) {
    b.kind == "tool_use" && b.toolUse.Some?
  }

  predicate HasResult(b: Block) {
    b.kind == "tool_result" && b.toolResult.Some?
  }

  predicate HasImage(b: Block) {
    b.kind == "image" && b.image.Some? && (b.image.value.data != "" || b.image.value.url != "")
  }

  /** Where the wanted blocks are, first to last. */
  function Places(blocks: seq<Block>, wanted: Block -> bool): (ps: seq<nat>)
    ensures forall k :: 0 <= k < |ps| ==> ps[k] < |blocks|
  {
    if blocks == [] then []
    else
      var n := |blocks| - 1;
      Places(blocks[..n], wanted) + if wanted(blocks[n]) then [n] else []
  }

  /** These are all of them, each once and in order. */
  lemma {:induction false} PlacesExactly(blocks: seq<Block>, wanted: Block -> bool)
    ensures var ps := Places(blocks, wanted);
            && (forall i, j :: 0 <= i < j < |ps| ==> ps[i] < ps[j])
            && forall i: nat :: i in ps <==> i < |blocks| && wanted(blocks[i])
    decreases |blocks|
  {
    if blocks != [] {
      var n := |blocks| - 1;
      PlacesExactly(blocks[..n], wanted);
      assert forall i :: 0 <= i < n ==> blocks[..n][i] == blocks[i];
      var before := Places(blocks[..n], wanted);
      assert forall k :: 0 <= k < |before| ==> before[k] in before;
    }
  }

  // ---- list by list ----

  lemma {:induction false} TextsAt(blocks: seq<Block>)
    ensures var ps := Places(blocks, HasText);
            |TextParts(blocks)| == |ps| == |Strings(blocks, "text")|
            && forall k :: 0 <= k < |ps| ==>
                 TextParts(blocks)[k] == TextPart(blocks[ps[k]].text) && Strings(blocks, "text")[k] == blocks[ps[k]].text
    decreases |blocks|
  {
    if blocks != [] {
      TextsAt(blocks[..|blocks| - 1]);
    }
  }

  lemma {:induction false} ThoughtsAt(blocks: seq<Block>)
    ensures var ps := Places(blocks, HasThought);
            |Strings(blocks, "thinking")| == |ps|
            && forall k :: 0 <= k < |ps| ==> Strings(blocks, "thinking")[k] == blocks[ps[k]].thinking
    decreases |blocks|
  {
    if blocks != [] {
      ThoughtsAt(blocks[..|blocks| - 1]);
    }
  }

  predicate CarriesImage(part: Part, image: Image) {
    part.ImagePart?
    && part.url == if image.data == "" then image.url else "data:" + image.mimeType + ";base64," + image.data
  }

  lemma {:induction false} ImagesAt(blocks: seq<Block>)
    ensures var ps := Places(blocks, HasImage);
            |ImageParts(blocks)| == |ps|
            && forall k :: 0 <= k < |ps| ==>
                 blocks[ps[k]].image.Some? && CarriesImage(ImageParts(blocks)[k], blocks[ps[k]].image.value)
    decreases |blocks|
  {
    if blocks != [] {
      var b := blocks[|blocks| - 1];
      ImagesAt(blocks[..|blocks| - 1]);
      if b.image.Some? && b.image.value.data != "" {
        assert UrlOf(b.image.value)[0] == 'd';
      }
    }
  }

  predicate CarriesResult(out: Out, result: ToolResult) {
    out.role == "tool" && out.callId == Some(result.toolUseId) && out.content == Plain(result.content)
    && out.calls == None && out.reasoning == None
  }

  lemma {:induction false} ResultsAt(blocks: seq<Block>)
    ensures var ps := Places(blocks, HasResult);
            |ResultMessages(blocks)| == |ps|
            && forall k :: 0 <= k < |ps| ==>
                 blocks[ps[k]].toolResult.Some? && CarriesResult(ResultMessages(blocks)[k], blocks[ps[k]].toolResult.value)
    decreases |blocks|
  {
    if blocks != [] {
      ResultsAt(blocks[..|blocks| - 1]);
    }
  }

  /** A call goes out under its own id and name; without arguments it gets an empty object. */
  predicate CarriesCall(call: ToolCall, use: ToolCall) {
    call.id == use.id && call.name == use.name
    && call.arguments == if use.arguments == "" then "{}" else use.arguments
  }

  lemma {:induction false} UsesAt(blocks: seq<Block>)
    ensures var ps := Places(blocks, HasUse);
            |Uses(blocks)| == |ps|
            && forall k :: 0 <= k < |ps| ==>
                 blocks[ps[k]].toolUse.Some? && CarriesCall(Uses(blocks)[k], blocks[ps[k]].toolUse.value)
    decreases |blocks|
  {
    if blocks != [] {
      UsesAt(blocks[..|blocks| - 1]);
    }
  }

  // ---- message by message ----

  /** A user message: one tool message for each result block, then the texts and the images, if there are any. */
  lemma UserContents(m: Message)
    ensures var out, rs := UserMessages(m), Places(m.blocks, HasResult);
            var ts, ims := Places(m.blocks, HasText), Places(m.blocks, HasImage);
            && |out| == |rs| + (if ts == [] && ims == [] then 0 else 1)
            && (forall k :: 0 <= k < |rs| ==>
                  m.blocks[rs[k]].toolResult.Some? && CarriesResult(out[k], m.blocks[rs[k]].toolResult.value))
            && (|out| > |rs| ==>
                  var last := out[|rs|];
                  && last.role == "user" && last.content.Parts? && last.calls == None && last.callId == None
                  && |last.content.parts| == |ts| + |ims|
                  && (forall k :: 0 <= k < |ts| ==> last.content.parts[k] == TextPart(m.blocks[ts[k]].text))
                  && (forall k :: 0 <= k < |ims| ==>
                        m.blocks[ims[k]].image.Some?
                        && CarriesImage(last.content.parts[|ts| + k], m.blocks[ims[k]].image.value)))
  {
    hide Places, TextParts, ImageParts, ResultMessages, CarriesResult, CarriesImage;
    TextsAt(m.blocks);
    ImagesAt(m.blocks);
    ResultsAt(m.blocks);
  }

  function TextsOf(blocks: seq<Block>): seq<string> {
    var ps := Places(blocks, HasText);
    seq(|ps|, k requires 0 <= k < |ps| => blocks[ps[k]].text)
  }

  function ThoughtsOf(blocks: seq<Block>): seq<string> {
    var ps := Places(blocks, HasThought);
    seq(|ps|, k requires 0 <= k < |ps| => blocks[ps[k]].thinking)
  }

  /** An assistant message: its texts as lines, its thoughts run together, its calls one by one. */
  lemma AssistantContents(m: Message)
    ensures var out, us := AssistantMessage(m), Places(m.blocks, HasUse);
            && out.role == "assistant" && out.callId == None
            && out.content == (if TextsOf(m.blocks) != [] then Plain(Join(TextsOf(m.blocks), "\n"))
                               else if us != [] then Nil else Plain(""))
            && out.reasoning == (if ThoughtsOf(m.blocks) != [] then Some(Join(ThoughtsOf(m.blocks), "")) else None)
            && (out.calls == None <==> us == [])
            && (us != [] ==>
                  |out.calls.value| == |us|
                  && forall k :: 0 <= k < |us| ==>
                       m.blocks[us[k]].toolUse.Some? && CarriesCall(out.calls.value[k], m.blocks[us[k]].toolUse.value))
  {
    hide Places, Strings, Uses, Join, CarriesCall;
    TextsAt(m.blocks);
    ThoughtsAt(m.blocks);
    UsesAt(m.blocks);
    assert Strings(m.blocks, "text") == TextsOf(m.blocks);
    assert Strings(m.blocks, "thinking") == ThoughtsOf(m.blocks);
  }

  /** Joining puts the separator between any two neighbours and nothing anywhere else. */
  lemma {:induction false} JoinConcat(a: seq<string>, b: seq<string>, separator: string)
    requires a != [] && b != []
    ensures Join(a + b, separator) == Join(a, separator) + separator + Join(b, separator)
    ensures |a| == 1 ==> Join(a, separator) == a[0]
    decreases |a|
  {
    assert (a + b)[1..] == a[1..] + b;
    if |a| > 1 {
      JoinConcat(a[1..], b, separator);
      var rest := Join(a[1..], separator);
      Associative(a[0] + separator, rest, separator);
      Associative(a[0] + separator, rest + separator, Join(b, separator));
    }
  }

  /** A message without blocks goes out as it is, as a result, or as an answer to the call it names. */
  lemma LegacyContents(m: Message)
    ensures var out := LegacyMessage(m);
            && (m.toolResult.Some? ==>
                  out.role == "tool" && out.callId == Some(m.toolResult.value.toolUseId)
                  && out.content == Plain(m.toolResult.value.content))
            && (m.toolResult.None? ==>
                  && out.role == (if m.toolUseId != "" then "tool" else m.role)
                  && out.callId == (if m.toolUseId != "" then Some(m.toolUseId) else None)
                  && (m.content != "" ==> out.content == Plain(m.content))
                  && (m.content == "" ==> out.content == if m.toolCalls != [] then Nil else Absent))
            && (out.calls == None <==> m.toolCalls == [])
            && (m.toolCalls != [] ==> out.calls == Some(m.toolCalls))
  {
  }

  // ---- the results of a whole history ----

  /** Id and content of the tool messages, in order. */
  function Answers(out: seq<Out>): seq<(string, string)> {
    if out == [] then []
    else
      var m := out[|out| - 1];
      Answers(out[..|out| - 1]) + if m.role == "tool" then [(IdOf(m), TextOf(m.content))] else []
  }

  function ResultOf(b: Block): (string, string) {
    if b.toolResult.Some? then (b.toolResult.value.toolUseId, b.toolResult.value.content) else ("", "")
  }

  function ResultsOf(blocks: seq<Block>): seq<(string, string)> {
    var ps := Places(blocks, HasResult);
    seq(|ps|, k requires 0 <= k < |ps| => ResultOf(blocks[ps[k]]))
  }

  /** The results one message answers with. */
  function AnswersOf(m: Message): seq<(string, string)> {
    if m.blocks != [] then (if m.role == "user" then ResultsOf(m.blocks) else [])
    else if m.toolResult.Some? then [(m.toolResult.value.toolUseId, m.toolResult.value.content)]
    else if m.toolUseId != "" then [(m.toolUseId, m.content)]
    else if m.role == "tool" then [("", m.content)]
    else []
  }

  function AllAnswers(messages: seq<Message>): seq<(string, string)> {
    if messages == [] then [] else AllAnswers(messages[..|messages| - 1]) + AnswersOf(messages[|messages| - 1])
  }

  lemma {:induction false} AnswersConcat(a: seq<Out>, b: seq<Out>)
    ensures Answers(a + b) == Answers(a) + Answers(b)
    decreases |b|
  {
    if b == [] {
      assert a + b == a;
    } else {
      var init, m := b[..|b| - 1], b[|b| - 1];
      assert (a + b)[..|a + b| - 1] == a + init && (a + b)[|a + b| - 1] == m;
      AnswersConcat(a, init);
      Associative(Answers(a), Answers(init), if m.role == "tool" then [(IdOf(m), TextOf(m.content))] else []);
    }
  }

  lemma AnswersOne(m: Out)
    ensures Answers([m]) == if m.role == "tool" then [(IdOf(m), TextOf(m.content))] else []
    ensures Answers([]) == []
  {
    assert [m][..0] == [];
  }

  lemma {:induction false} ResultsAnswered(out: seq<Out>)
    requires forall k :: 0 <= k < |out| ==> out[k].role == "tool"
    ensures |Answers(out)| == |out|
    ensures forall k :: 0 <= k < |out| ==> Answers(out)[k] == (IdOf(out[k]), TextOf(out[k].content))
    decreases |out|
  {
    if out != [] {
      ResultsAnswered(out[..|out| - 1]);
    }
  }

  lemma MessageAnswers(m: Message)
    ensures Answers(Converted(m)) == AnswersOf(m)
  {
    if m.blocks == [] {
      AnswersOne(LegacyMessage(m));
    } else if m.role == "user" {
      ResultsAt(m.blocks);
      var results := ResultMessages(m.blocks);
      ResultsAnswered(results);
      var rest := UserMessages(m)[|results|..];
      assert UserMessages(m) == results + rest;
      AnswersConcat(results, rest);
      if rest != [] {
        assert rest == [rest[0]];
        AnswersOne(rest[0]);
      }
      assert Answers(results) == ResultsOf(m.blocks);
    } else {
      AnswersOne(AssistantMessage(m));
    }
  }

  /** The tool messages of a converted history are its results, each with its own id and content, in order. */
  lemma {:induction false} AnswersConverted(messages: seq<Message>)
    ensures Answers(ConvertedAll(messages)) == AllAnswers(messages)
    decreases |messages|
  {
    hide Converted, AnswersOf;
    if messages != [] {
      var n := |messages| - 1;
      AnswersConverted(messages[..n]);
      MessageAnswers(messages[n]);
      AnswersConcat(ConvertedAll(messages[..n]), Converted(messages[n]));
    }
  }

  lemma HistoryAnswers(r: Request)
    ensures Answers(History(r)) == AllAnswers(r.messages)
    ensures r.system != "" ==> History(r) != [] && History(r)[0] == Out("system", Plain(r.system), None, None, None)
    ensures History(r)[if r.system == "" then 0 else 1..] == ConvertedAll(r.messages)
  {
    AnswersConverted(r.messages);
    AnswersConcat(Preamble(r.system), ConvertedAll(r.messages));
    AnswersOne(Out("system", Plain(r.system), None, None, None));
  }

  /** A repaired result is a user message that names the id and ends with the whole content; the rest is untouched. */
  lemma RepairKeepsContent(out: seq<Out>, i: nat)
    requires i < |out|
    ensures var m, n := out[i], Sanitized(out)[i];
            if Orphan(m, Known(out)) then
              && n.role == "user" && n.content.Plain? && n.calls == None && n.callId == None
              && var text, content, id := n.content.s, TextOf(m.content), IdOf(m);
                 && |text| == 17 + |id| + 3 + |content|
                 && text[17..17 + |id|] == id && text[|text| - |content|..] == content
            else n == m
  {
    var m := out[i];
    if Orphan(m, Known(out)) {
      var head := "[Tool result for ";
      assert |head| == 17;
      assert Sanitized(out)[i].content.s == head + IdOf(m) + "]: " + TextOf(m.content);
    }
  }
}
