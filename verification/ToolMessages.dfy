/** Conversion of a history to chat messages, and the repair of results whose call is gone. */
module ToolMessages {
  import opened Common
  import opened ToolPairing

  datatype Part = TextPart(text: string) | ImagePart(url: string)

  datatype Content = Absent | Nil | Plain(s: string) | Parts(parts: seq<Part>)

  /** A chat message; fields the program leaves out of its map are `None` or `Absent`. */
  datatype Out = Out(
    role: string, content: Content, calls: Option<seq<ToolCall>>, callId: Option<string>, reasoning: Option<string>)

  // ---- conversion, message by message ----

  function UrlOf(image: Image): string {
    if image.data != "" then "data:" + image.mimeType + ";base64," + image.data else image.url
  }

  function TextParts(blocks: seq<Block>): seq<Part> {
    if blocks == [] then []
    else
      var b := blocks[|blocks| - 1];
      TextParts(blocks[..|blocks| - 1]) + if b.kind == "text" then [TextPart(b.text)] else []
  }

  function ImageParts(blocks: seq<Block>): seq<Part> {
    if blocks == [] then []
    else
      var b := blocks[|blocks| - 1];
      ImageParts(blocks[..|blocks| - 1])
      + if b.kind == "image" && b.image.Some? && UrlOf(b.image.value) != "" then [ImagePart(UrlOf(b.image.value))] else []
  }

  function ToolMessage(r: ToolResult): Out {
    Out("tool", Plain(r.content), None, Some(r.toolUseId), None)
  }

  function ResultMessages(blocks: seq<Block>): seq<Out> {
    if blocks == [] then []
    else
      var b := blocks[|blocks| - 1];
      ResultMessages(blocks[..|blocks| - 1])
      + if b.kind == "tool_result" && b.toolResult.Some? then [ToolMessage(b.toolResult.value)] else []
  }

  function UserMessages(m: Message): seq<Out> {
    var parts := TextParts(m.blocks) + ImageParts(m.blocks);
    ResultMessages(m.blocks) + if parts == [] then [] else [Out("user", Parts(parts), None, None, None)]
  }

  function Strings(blocks: seq<Block>, kind: string): seq<string> {
    if blocks == [] then []
    else
      var b := blocks[|blocks| - 1];
      Strings(blocks[..|blocks| - 1], kind)
      + if b.kind == kind then [if kind == "text" then b.text else b.thinking] else []
  }

  function Uses(blocks: seq<Block>): seq<ToolCall> {
    if blocks == [] then []
    else
      var b := blocks[|blocks| - 1];
      Uses(blocks[..|blocks| - 1])
      + if b.kind == "tool_use" && b.toolUse.Some?
        then [b.toolUse.value.(arguments := if b.toolUse.value.arguments == "" then "{}" else b.toolUse.value.arguments)]
        else []
  }

  function Join(parts: seq<string>, separator: string): string {
    if parts == [] then ""
    else if |parts| == 1 then parts[0]
    else parts[0] + separator + Join(parts[1..], separator)
  }

  function AssistantMessage(m: Message): Out {
    var texts, uses, thoughts := Strings(m.blocks, "text"), Uses(m.blocks), Strings(m.blocks, "thinking");
    Out("assistant",
        if texts != [] then Plain(Join(texts, "\n")) else if uses != [] then Nil else Plain(""),
        if uses != [] then Some(uses) else None,
        None,
        if thoughts != [] then Some(Join(thoughts, "")) else None)
  }

  function LegacyMessage(m: Message): Out {
    var content := if m.content != "" then Plain(m.content) else if m.toolCalls != [] then Nil else Absent;
    var calls := if m.toolCalls != [] then Some(m.toolCalls) else None;
    if m.toolResult.Some? then
      Out("tool", Plain(m.toolResult.value.content), calls, Some(m.toolResult.value.toolUseId), None)
    else if m.toolUseId != "" then Out("tool", content, calls, Some(m.toolUseId), None)
    else Out(m.role, content, calls, None, None)
  }

  function Converted(m: Message): seq<Out> {
    if m.blocks != [] then (if m.role == "user" then UserMessages(m) else [AssistantMessage(m)])
    else [LegacyMessage(m)]
  }

  function ConvertedAll(messages: seq<Message>): seq<Out> {
    if messages == [] then []
    else ConvertedAll(messages[..|messages| - 1]) + Converted(messages[|messages| - 1])
  }

  function Preamble(system: string): seq<Out> {
    if system == "" then [] else [Out("system", Plain(system), None, None, None)]
  }

  function History(r: Request): seq<Out> {
    Preamble(r.system) + ConvertedAll(r.messages)
  }

  // ---- repair ----

  function IdsOf(m: Out): set<string> {
    if m.role == "assistant" && m.calls.Some? then set c | c in m.calls.value && c.id != "" :: c.id else {}
  }

  function Known(out: seq<Out>): set<string> {
    if out == [] then {} else Known(out[..|out| - 1]) + IdsOf(out[|out| - 1])
  }

  function TextOf(content: Content): string {
    if content.Plain? then content.s else ""
  }

  function IdOf(m: Out): string {
    if m.callId.Some? then m.callId.value else ""
  }

  predicate Orphan(m: Out, known: set<string>) {
    m.role == "tool" && (IdOf(m) == "" || IdOf(m) !in known)
  }

  function Repaired(m: Out, known: set<string>): Out {
    if Orphan(m, known) then
      Out("user", Plain("[Tool result for " + IdOf(m) + "]: " + TextOf(m.content)), None, None, None)
    else m
  }

  function RepairAll(out: seq<Out>, known: set<string>): seq<Out> {
    seq(|out|, i requires 0 <= i < |out| => Repaired(out[i], known))
  }

  function Sanitized(out: seq<Out>): (r: seq<Out>)
    ensures |r| == |out|
  {
    RepairAll(out, Known(out))
  }

  lemma {:induction false} KnownConcat(a: seq<Out>, b: seq<Out>)
    ensures Known(a + b) == Known(a) + Known(b)
    decreases |b|
  {
    if b == [] {
      assert a + b == a;
    } else {
      assert (a + b)[..|a + b| - 1] == a + b[..|b| - 1];
      KnownConcat(a, b[..|b| - 1]);
    }
  }

  /** Repair touches no call, so the known ids stay the same. */
  lemma {:induction false} RepairKeepsKnown(out: seq<Out>, known: set<string>)
    ensures Known(RepairAll(out, known)) == Known(out)
    decreases |out|
  {
    if out != [] {
      var init := out[..|out| - 1];
      RepairKeepsKnown(init, known);
      assert RepairAll(out, known)[..|out| - 1] == RepairAll(init, known);
    }
  }

  /** Repairing twice is repairing once. */
  lemma SanitizedTwice(out: seq<Out>)
    ensures Sanitized(Sanitized(out)) == Sanitized(out)
  {
    RepairKeepsKnown(out, Known(out));
  }

  /** After repair every tool message answers a call that is there. */
  lemma NoOrphansLeft(out: seq<Out>)
    ensures forall m :: m in Sanitized(out) ==> !Orphan(m, Known(Sanitized(out)))
  {
    RepairKeepsKnown(out, Known(out));
  }

  /** Repair changes nothing exactly when there is no orphan. */
  lemma SanitizedIdentity(out: seq<Out>)
    ensures Sanitized(out) == out <==> forall i :: 0 <= i < |out| ==> !Orphan(out[i], Known(out))
  {
    forall i | 0 <= i < |out| ensures Sanitized(out)[i] == out[i] <==> !Orphan(out[i], Known(out)) {
    }
    if Sanitized(out) == out {
      forall i | 0 <= i < |out| ensures !Orphan(out[i], Known(out)) {
        assert Sanitized(out)[i] == out[i];
      }
    }
  }

  // ---- accepted histories need no repair ----

  predicate MakesNoCalls(m: Message) {
    m.toolCalls == [] && forall b :: b in m.blocks ==> b.kind != "tool_use"
  }

  /** The client's side of the bargain, message by message. */
  predicate Tidy(m: Message) {
    (m.toolCalls != [] ==> m.role == "assistant")
    && (m.role == "user" ==> MakesNoCalls(m))
    && (m.blocks != [] ==> m.toolCalls == [] && m.toolResult.None?)
    && (m.toolResult.Some? ==> m.toolCalls == [])
    && (m.blocks == [] && m.toolResult.None? ==> m.toolUseId == "" && m.role != "tool")
  }

  predicate AllTidy(messages: seq<Message>) {
    forall m :: m in messages ==> Tidy(m)
  }

  /** Every tool message answers a call made by an assistant message before it. */
  ghost predicate Answered(out: seq<Out>) {
    forall i :: 0 <= i < |out| ==> AnsweredAt(out, i)
  }

  ghost predicate AnsweredAt(out: seq<Out>, i: nat)
    requires i < |out|
  {
    out[i].role == "tool" ==> IdOf(out[i]) != "" && IdOf(out[i]) in Known(out[..i])
  }

  predicate AnswersFrom(out: seq<Out>, known: set<string>) {
    forall m :: m in out && m.role == "tool" ==> IdOf(m) != "" && IdOf(m) in known
  }

  lemma AnsweredConcat(a: seq<Out>, b: seq<Out>)
    requires Answered(a) && AnswersFrom(b, Known(a))
    ensures Answered(a + b)
  {
    forall i | 0 <= i < |a + b| ensures AnsweredAt(a + b, i) {
      if i < |a| {
        assert (a + b)[..i] == a[..i] && AnsweredAt(a, i);
      } else {
        assert (a + b)[..i] == a + b[..i - |a|];
        KnownConcat(a, b[..i - |a|]);
        assert (a + b)[i] in b;
      }
    }
  }

  function Opened(events: seq<Event>): set<string> {
    if events == [] then {} else (if events[0].Opens? then {events[0].id} else {}) + Opened(events[1..])
  }

  function Closed(events: seq<Event>): set<string> {
    if events == [] then {} else (if events[0].Closes? then {events[0].id} else {}) + Closed(events[1..])
  }

  function CallIds(calls: seq<ToolCall>): set<string> {
    if calls == [] then {} else {calls[0].id} + CallIds(calls[1..])
  }

  lemma {:induction false} ReplayBounds(events: seq<Event>, open: set<string>)
    requires Replay(events, open).Some?
    ensures Replay(events, open).value <= open + Opened(events)
    ensures Opened(events) == {} ==> Closed(events) <= open
    decreases |events|
  {
    if events != [] {
      match events[0]
      case Opens(id) => ReplayBounds(events[1..], open + {id}); assert id in Opened(events);
      case Closes(id) => ReplayBounds(events[1..], open - {id});
    }
  }

  lemma {:induction false} CallEventsOpen(calls: seq<ToolCall>)
    ensures Opened(CallEvents(calls)) == CallIds(calls)
    ensures Closed(CallEvents(calls)) == {}
    decreases |calls|
  {
    if calls != [] {
      CallEventsOpen(calls[1..]);
      assert CallEvents(calls)[1..] == CallEvents(calls[1..]);
    }
  }

  lemma {:induction false} BlockEventsSnoc(blocks: seq<Block>, b: Block)
    ensures BlockEvents(blocks + [b]) == BlockEvents(blocks) + BlockEvent(b)
    decreases |blocks|
  {
    if blocks == [] {
      assert (blocks + [b])[1..] == [];
    } else {
      assert (blocks + [b])[1..] == blocks[1..] + [b];
      BlockEventsSnoc(blocks[1..], b);
    }
  }

  lemma {:induction false} UnionEvents(a: seq<Event>, b: seq<Event>)
    ensures Opened(a + b) == Opened(a) + Opened(b) && Closed(a + b) == Closed(a) + Closed(b)
    decreases |a|
  {
    if a == [] {
      assert a + b == b;
    } else {
      assert (a + b)[1..] == a[1..] + b;
      UnionEvents(a[1..], b);
    }
  }

  lemma {:induction false} UnionIds(a: seq<ToolCall>, b: seq<ToolCall>)
    ensures CallIds(a + b) == CallIds(a) + CallIds(b)
    decreases |a|
  {
    if a == [] {
      assert a + b == b;
    } else {
      assert (a + b)[1..] == a[1..] + b;
      UnionIds(a[1..], b);
    }
  }

  lemma {:induction false} IdsInCalls(calls: seq<ToolCall>, id: string)
    ensures id in CallIds(calls) <==> exists c :: c in calls && c.id == id
    decreases |calls|
  {
    if calls != [] {
      IdsInCalls(calls[1..], id);
      assert forall c :: c in calls <==> c == calls[0] || c in calls[1..];
    }
  }

  /** The calls and results a message's blocks announce are those its conversion carries. */
  lemma {:induction false} BlocksCarried(blocks: seq<Block>)
    ensures Opened(BlockEvents(blocks)) == CallIds(Uses(blocks))
    ensures forall m :: m in ResultMessages(blocks) ==> m.role == "tool" && IdOf(m) in Closed(BlockEvents(blocks))
    decreases |blocks|
  {
    if blocks != [] {
      var init, b := blocks[..|blocks| - 1], blocks[|blocks| - 1];
      BlocksCarried(init);
      assert init + [b] == blocks;
      BlockEventsSnoc(init, b);
      BlockSnoc(init, b);
      OneBlockCarried(b);
      hide BlockEvent, BlockEvents, Uses, ResultMessages, Opened, Closed, CallIds;
      UnionEvents(BlockEvents(init), BlockEvent(b));
      UnionIds(Uses(init), Uses([b]));
    }
  }

  lemma BlockSnoc(blocks: seq<Block>, b: Block)
    ensures Uses(blocks + [b]) == Uses(blocks) + Uses([b])
    ensures ResultMessages(blocks + [b]) == ResultMessages(blocks) + ResultMessages([b])
  {
    assert (blocks + [b])[..|blocks|] == blocks;
    assert [b][..0] == [];
  }

  lemma OneBlockCarried(b: Block)
    ensures Opened(BlockEvent(b)) == CallIds(Uses([b]))
    ensures forall m :: m in ResultMessages([b]) ==> m.role == "tool" && IdOf(m) in Closed(BlockEvent(b))
  {
    assert [b][..0] == [];
  }

  lemma {:induction false} NoUsesNoCalls(blocks: seq<Block>)
    requires forall b :: b in blocks ==> b.kind != "tool_use"
    ensures Opened(BlockEvents(blocks)) == {}
    decreases |blocks|
  {
    if blocks != [] {
      UnionEvents(BlockEvent(blocks[0]), BlockEvents(blocks[1..]));
      NoUsesNoCalls(blocks[1..]);
      OneBlockCarried(blocks[0]);
    }
  }

  lemma EventsOfParts(m: Message)
    ensures Opened(MessageEvents(m))
         == CallIds(m.toolCalls) + Opened(BlockEvents(m.blocks))
    ensures Closed(MessageEvents(m))
         == Closed(ResultEvents(m.toolResult)) + Closed(BlockEvents(m.blocks))
  {
    UnionEvents(CallEvents(m.toolCalls) + ResultEvents(m.toolResult), BlockEvents(m.blocks));
    UnionEvents(CallEvents(m.toolCalls), ResultEvents(m.toolResult));
    CallEventsOpen(m.toolCalls);
  }

  /** A tidy message's calls are all carried by its conversion. */
  lemma CallsCarried(m: Message)
    requires Tidy(m) && MessageShaped(m)
    ensures Opened(MessageEvents(m)) <= Known(Converted(m))
  {
    EventsOfParts(m);
    BlocksCarried(m.blocks);
    if m.role == "user" {
      NoUsesNoCalls(m.blocks);
    } else if m.blocks != [] {
      CarriedBy(AssistantMessage(m), Uses(m.blocks));
      UsesHaveIds(m.blocks);
    } else {
      CarriedBy(LegacyMessage(m), m.toolCalls);
    }
  }

  lemma {:induction false} UsesHaveIds(blocks: seq<Block>)
    requires BlocksShaped(blocks)
    ensures CallsShaped(Uses(blocks))
    decreases |blocks|
  {
    if blocks != [] {
      UsesHaveIds(blocks[..|blocks| - 1]);
      assert BlockShaped(blocks[|blocks| - 1]);
    }
  }

  lemma CarriedBy(out: Out, calls: seq<ToolCall>)
    ensures Known([out]) == IdsOf(out)
    ensures out.role == "assistant" && out.calls == Some(calls) && CallsShaped(calls) ==> CallIds(calls) <= IdsOf(out)
  {
    assert [out][..0] == [];
    if out.role == "assistant" && out.calls == Some(calls) && CallsShaped(calls) {
      forall id | id in CallIds(calls) ensures id in IdsOf(out) {
        IdsInCalls(calls, id);
      }
    }
  }

  lemma {:induction false} ResultsHaveIds(blocks: seq<Block>)
    requires BlocksShaped(blocks)
    ensures forall m :: m in ResultMessages(blocks) ==> IdOf(m) != ""
    decreases |blocks|
  {
    if blocks != [] {
      ResultsHaveIds(blocks[..|blocks| - 1]);
      assert BlockShaped(blocks[|blocks| - 1]);
    }
  }

  /** A tidy message's results answer calls that were open before it. */
  lemma ResultsAnswer(m: Message, open: set<string>)
    requires Tidy(m) && MessageShaped(m) && Replay(MessageEvents(m), open).Some?
    ensures AnswersFrom(Converted(m), open)
  {
    EventsOfParts(m);
    ReplayBounds(MessageEvents(m), open);
    if m.blocks != [] && m.role == "user" {
      NoUsesNoCalls(m.blocks);
      BlocksCarried(m.blocks);
      ResultsHaveIds(m.blocks);
    } else if m.blocks == [] && m.toolResult.Some? {
      assert Closed(ResultEvents(m.toolResult)) == {m.toolResult.value.toolUseId};
    }
  }

  lemma PreambleAnswered(system: string)
    ensures Answered(Preamble(system) + ConvertedAll([])) && Events([]) == []
  {
    assert Preamble(system) + [] == Preamble(system);
  }

  lemma AnswersWiden(out: seq<Out>, few: set<string>, many: set<string>)
    requires AnswersFrom(out, few) && few <= many
    ensures AnswersFrom(out, many)
  {
  }

  lemma {:induction false} HistoryAnswered(system: string, messages: seq<Message>)
    requires AllShaped(messages) && AllTidy(messages) && Replay(Events(messages), {}).Some?
    ensures var out := Preamble(system) + ConvertedAll(messages);
            Answered(out) && Replay(Events(messages), {}).value <= Known(out)
    decreases |messages|
  {
    hide Converted, MessageEvents, Tidy, MessageShaped, Replay, Known, Answered, AnswersFrom, Opened;
    if messages == [] {
      PreambleAnswered(system);
      ReplayNothing({});
    } else {
      var init, m := messages[..|messages| - 1], messages[|messages| - 1];
      assert init + [m] == messages;
      EventsSnoc(init, m);
      ReplayConcat(Events(init), MessageEvents(m), {});
      HistoryAnswered(system, init);
      var before, open := Preamble(system) + ConvertedAll(init), Replay(Events(init), {}).value;
      ResultsAnswer(m, open);
      AnswersWiden(Converted(m), open, Known(before));
      AnsweredConcat(before, Converted(m));
      assert before + Converted(m) == Preamble(system) + ConvertedAll(messages);
      ReplayBounds(MessageEvents(m), open);
      CallsCarried(m);
      KnownConcat(before, Converted(m));
    }
  }

  lemma {:induction false} KnownPrefix(out: seq<Out>, i: nat)
    requires i <= |out|
    ensures Known(out[..i]) <= Known(out)
  {
    KnownConcat(out[..i], out[i..]);
    assert out[..i] + out[i..] == out;
  }

  /**
   * The validator and the repair agree: an accepted, tidy history converts to one in which every
   * result follows its call, and repair leaves it alone.
   */
  lemma AcceptedNeedsNoRepair(r: Request)
    requires Validate(r) == None && AllTidy(r.messages)
    ensures Answered(History(r))
    ensures Sanitized(History(r)) == History(r)
  {
    hide WellPaired, MessageShaped, Tidy, Converted;
    AcceptsExactly(r);
    ReplayIsPairing(Events(r.messages));
    HistoryAnswered(r.system, r.messages);
    var out := History(r);
    forall i | 0 <= i < |out| ensures !Orphan(out[i], Known(out)) {
      assert AnsweredAt(out, i);
      KnownPrefix(out, i);
    }
    SanitizedIdentity(out);
  }

  // ---- exactly which requests need no repair ----

  /** The call with this id is still there after conversion. */
  ghost predicate CallSurvives(m: Message, id: string) {
    id != ""
    && if m.blocks != [] then m.role != "user" && UsedBy(m.blocks, id)
       else
         m.role == "assistant" && m.toolResult.None? && m.toolUseId == ""
         && exists c :: c in m.toolCalls && c.id == id
  }

  ghost predicate UsedBy(blocks: seq<Block>, id: string) {
    exists b :: b in blocks && b.kind == "tool_use" && b.toolUse.Some? && b.toolUse.value.id == id
  }

  /** The message becomes a tool message for this id; "" for one that merely claims the tool role. */
  ghost predicate Answers(m: Message, id: string) {
    if m.blocks != [] then m.role == "user" && AnsweredBy(m.blocks, id)
    else if m.toolResult.Some? then id == m.toolResult.value.toolUseId
    else if m.toolUseId != "" then id == m.toolUseId
    else m.role == "tool" && id == ""
  }

  ghost predicate AnsweredBy(blocks: seq<Block>, id: string) {
    exists b :: b in blocks && b.kind == "tool_result" && b.toolResult.Some? && b.toolResult.value.toolUseId == id
  }

  /** Every result names a call that survives. */
  ghost predicate NothingOrphaned(messages: seq<Message>) {
    forall id :: AnyAnswers(messages, id) ==> id != "" && AnyCallSurvives(messages, id)
  }

  ghost predicate AnyAnswers(messages: seq<Message>, id: string) {
    exists m :: m in messages && Answers(m, id)
  }

  ghost predicate AnyCallSurvives(messages: seq<Message>, id: string) {
    exists m :: m in messages && CallSurvives(m, id)
  }

  ghost predicate HoldsAnswer(out: seq<Out>, id: string) {
    exists o :: o in out && o.role == "tool" && IdOf(o) == id
  }

  lemma HoldsAnswerConcat(a: seq<Out>, b: seq<Out>, id: string)
    ensures HoldsAnswer(a + b, id) <==> HoldsAnswer(a, id) || HoldsAnswer(b, id)
  {
    if o :| o in a && o.role == "tool" && IdOf(o) == id {
      assert o in a + b;
    }
    if o :| o in b && o.role == "tool" && IdOf(o) == id {
      assert o in a + b;
    }
  }

  lemma {:induction false} UsesAreBlocks(blocks: seq<Block>, id: string)
    ensures id in CallIds(Uses(blocks)) <==> UsedBy(blocks, id)
    decreases |blocks|
  {
    if blocks != [] {
      var init, b := blocks[..|blocks| - 1], blocks[|blocks| - 1];
      UsesAreBlocks(init, id);
      assert init + [b] == blocks;
      BlockSnoc(init, b);
      UnionIds(Uses(init), Uses([b]));
      assert forall c :: c in blocks <==> c in init || c == b;
      assert [b][..0] == [];
      assert id in CallIds(Uses([b])) <==> b.kind == "tool_use" && b.toolUse.Some? && b.toolUse.value.id == id;
    }
  }

  lemma {:induction false} ResultsAreBlocks(blocks: seq<Block>, id: string)
    ensures HoldsAnswer(ResultMessages(blocks), id) <==> AnsweredBy(blocks, id)
    decreases |blocks|
  {
    if blocks != [] {
      var init, b := blocks[..|blocks| - 1], blocks[|blocks| - 1];
      ResultsAreBlocks(init, id);
      assert init + [b] == blocks;
      BlockSnoc(init, b);
      HoldsAnswerConcat(ResultMessages(init), ResultMessages([b]), id);
      OneResult(b, id);
      assert forall c :: c in blocks <==> c in init || c == b;
    }
  }

  lemma OneResult(b: Block, id: string)
    ensures HoldsAnswer(ResultMessages([b]), id)
       <==> b.kind == "tool_result" && b.toolResult.Some? && b.toolResult.value.toolUseId == id
  {
    assert [b][..0] == [];
    if b.kind == "tool_result" && b.toolResult.Some? {
      assert ToolMessage(b.toolResult.value) in ResultMessages([b]);
    }
  }

  lemma OneAnswer(o: Out, id: string)
    ensures HoldsAnswer([o], id) <==> o.role == "tool" && IdOf(o) == id
  {
    assert o in [o];
  }

  lemma CallIdsExactly(out: Out, calls: seq<ToolCall>, id: string)
    requires out.role == "assistant" && out.calls == (if calls != [] then Some(calls) else None)
    ensures id in Known([out]) <==> id != "" && id in CallIds(calls)
  {
    assert [out][..0] == [];
    IdsInCalls(calls, id);
  }

  /** One message: the calls and the results its conversion carries. */
  lemma ConvertedExactly(m: Message, id: string)
    ensures id in Known(Converted(m)) <==> CallSurvives(m, id)
    ensures HoldsAnswer(Converted(m), id) <==> Answers(m, id)
  {
    if m.blocks == [] {
      LegacyExactly(m, id);
    } else if m.role == "user" {
      UserExactly(m, id);
    } else {
      var out := AssistantMessage(m);
      CallIdsExactly(out, Uses(m.blocks), id);
      UsesAreBlocks(m.blocks, id);
      OneAnswer(out, id);
    }
  }

  lemma LegacyExactly(m: Message, id: string)
    requires m.blocks == []
    ensures id in Known([LegacyMessage(m)]) <==> CallSurvives(m, id)
    ensures HoldsAnswer([LegacyMessage(m)], id) <==> Answers(m, id)
  {
    var out := LegacyMessage(m);
    OneAnswer(out, id);
    if out.role == "assistant" {
      CallIdsExactly(out, m.toolCalls, id);
      IdsInCalls(m.toolCalls, id);
    } else {
      CarriedBy(out, m.toolCalls);
    }
  }

  lemma UserExactly(m: Message, id: string)
    ensures id !in Known(UserMessages(m))
    ensures HoldsAnswer(UserMessages(m), id) <==> AnsweredBy(m.blocks, id)
  {
    var parts := TextParts(m.blocks) + ImageParts(m.blocks);
    var last := Out("user", Parts(parts), None, None, None);
    var rest := if parts == [] then [] else [last];
    ResultsAreBlocks(m.blocks, id);
    ResultsMakeNoCalls(m.blocks);
    HoldsAnswerConcat(ResultMessages(m.blocks), rest, id);
    OneAnswer(last, id);
    KnownConcat(ResultMessages(m.blocks), rest);
    CarriedBy(last, []);
  }

  lemma {:induction false} ResultsMakeNoCalls(blocks: seq<Block>)
    ensures Known(ResultMessages(blocks)) == {}
    decreases |blocks|
  {
    if blocks != [] {
      var init, b := blocks[..|blocks| - 1], blocks[|blocks| - 1];
      ResultsMakeNoCalls(init);
      assert init + [b] == blocks;
      BlockSnoc(init, b);
      KnownConcat(ResultMessages(init), ResultMessages([b]));
      OneResultNoCall(b);
    }
  }

  lemma OneResultNoCall(b: Block)
    ensures Known(ResultMessages([b])) == {}
  {
    assert [b][..0] == [];
    if b.kind == "tool_result" && b.toolResult.Some? {
      CarriedBy(ToolMessage(b.toolResult.value), []);
    }
  }

  lemma {:induction false} ConvertedAllExactly(messages: seq<Message>, id: string)
    ensures id in Known(ConvertedAll(messages)) <==> AnyCallSurvives(messages, id)
    ensures HoldsAnswer(ConvertedAll(messages), id) <==> AnyAnswers(messages, id)
    decreases |messages|
  {
    hide Converted, CallSurvives, Answers;
    if messages != [] {
      var init, m := messages[..|messages| - 1], messages[|messages| - 1];
      ConvertedAllExactly(init, id);
      ConvertedExactly(m, id);
      KnownConcat(ConvertedAll(init), Converted(m));
      HoldsAnswerConcat(ConvertedAll(init), Converted(m), id);
      assert forall n :: n in messages <==> n in init || n == m;
    }
  }

  /** For every request: repair changes nothing if and only if every result names a call that survives. */
  lemma RepairsExactly(r: Request)
    ensures Sanitized(History(r)) == History(r) <==> NothingOrphaned(r.messages)
  {
    var out := History(r);
    SanitizedIdentity(out);
    OrphansExactly(out);
    forall id
      ensures (HoldsAnswer(out, id) ==> id != "" && id in Known(out))
         <==> (AnyAnswers(r.messages, id) ==> id != "" && AnyCallSurvives(r.messages, id))
    {
      HistoryExactly(r, id);
    }
    hide Sanitized, History, AnyAnswers, AnyCallSurvives, Known, HoldsAnswer;
  }

  lemma HistoryExactly(r: Request, id: string)
    ensures id in Known(History(r)) <==> AnyCallSurvives(r.messages, id)
    ensures HoldsAnswer(History(r), id) <==> AnyAnswers(r.messages, id)
  {
    hide Known, HoldsAnswer, AnyCallSurvives, AnyAnswers;
    ConvertedAllExactly(r.messages, id);
    KnownConcat(Preamble(r.system), ConvertedAll(r.messages));
    HoldsAnswerConcat(Preamble(r.system), ConvertedAll(r.messages), id);
    PreambleExactly(r.system, id);
  }

  lemma PreambleExactly(system: string, id: string)
    ensures id !in Known(Preamble(system)) && !HoldsAnswer(Preamble(system), id)
  {
    CarriedBy(Out("system", Plain(system), None, None, None), []);
  }

  lemma OrphansExactly(out: seq<Out>)
    ensures (forall i :: 0 <= i < |out| ==> !Orphan(out[i], Known(out)))
       <==> forall id :: HoldsAnswer(out, id) ==> id != "" && id in Known(out)
  {
    hide Known;
    if forall i :: 0 <= i < |out| ==> !Orphan(out[i], Known(out)) {
      forall id | HoldsAnswer(out, id) ensures id != "" && id in Known(out) {
        var o :| o in out && o.role == "tool" && IdOf(o) == id;
      }
    }
    if forall id :: HoldsAnswer(out, id) ==> id != "" && id in Known(out) {
      forall i | 0 <= i < |out| ensures !Orphan(out[i], Known(out)) {
        assert out[i] in out;
        assert out[i].role == "tool" ==> HoldsAnswer(out, IdOf(out[i]));
      }
    }
  }

  function DroppedCall(): Request {
    var use := Block("tool_use", "", "", Some(ToolCall("1", "f", "")), None, None);
    Request("p", "",
      [Message("user", "", [use], [], "", "", None), Message("user", "", [], [], "", "", Some(ToolResult("1", "x")))],
      0, 0, 0)
  }

  /** A call made by a user message pairs for the validator but is dropped by conversion. */
  lemma UserCallIsDropped()
    ensures Validate(DroppedCall()) == None
    ensures Sanitized(History(DroppedCall())) != History(DroppedCall())
  {
    var r := DroppedCall();
    var first, second := r.messages[0], r.messages[1];
    assert CheckBlocks(0, 1, first.blocks[1..], {"1"}) == Pass({"1"});
    assert CheckBlocks(0, 0, first.blocks, {}) == Pass({"1"});
    assert CheckMessage(0, first, {}) == Pass({"1"});
    assert CheckMessage(1, second, {"1"}) == Pass({});
    assert r.messages[1..] == [second] && [second][1..] == [];
    assert CheckMessages(2, [second][1..], {}) == Pass({});
    assert CheckMessages(1, r.messages[1..], {"1"}) == Pass({});
    assert CheckMessages(0, r.messages, {}) == Pass({});
    RepairsExactly(r);
    assert second in r.messages && Answers(second, "1");
    assert AnyAnswers(r.messages, "1");
    assert !CallSurvives(first, "1") && !CallSurvives(second, "1");
    assert forall m :: m in r.messages ==> m == first || m == second;
    assert !AnyCallSurvives(r.messages, "1");
    hide Sanitized, History, Validate;
  }

  lemma {:induction false} ConvertedIsIn(messages: seq<Message>, k: nat, m: Out)
    requires k < |messages| && m in Converted(messages[k])
    ensures m in ConvertedAll(messages)
    decreases |messages|
  {
    hide Converted;
    if k < |messages| - 1 {
      ConvertedIsIn(messages[..|messages| - 1], k, m);
    }
  }

  /** A message that merely claims the tool role is accepted but always rewritten. */
  lemma BareToolRoleIsRewritten(r: Request, k: nat)
    requires k < |r.messages|
    requires var m := r.messages[k]; m.role == "tool" && m.blocks == [] && m.toolResult.None? && m.toolUseId == ""
    ensures Sanitized(History(r)) != History(r)
  {
    var m := LegacyMessage(r.messages[k]);
    assert m in Converted(r.messages[k]);
    hide Converted, Sanitized;
    ConvertedIsIn(r.messages, k, m);
    var out := History(r);
    assert m in out;
    var i :| 0 <= i < |out| && out[i] == m;
    SanitizedIdentity(out);
  }

  lemma AcceptedBareToolRole()
    ensures var m := Message("tool", "x", [], [], "", "", None);
            Validate(Request("p", "", [m], 0, 0, 0)) == None
  {
    var m := Message("tool", "x", [], [], "", "", None);
    assert CheckMessage(0, m, {}) == Pass({});
    assert CheckMessages(1, [m][1..], {}) == Pass({});
    assert CheckMessages(0, [m], {}) == Pass({});
  }

  // ---- the loops ----

  method ConvertUserBlocks(m: Message) returns (out: seq<Out>)
    ensures out == UserMessages(m)
  {
    var texts: seq<Part>, images: seq<Part>, results: seq<Out> := [], [], [];
    for k := 0 to |m.blocks|
      invariant texts == TextParts(m.blocks[..k]) && images == ImageParts(m.blocks[..k])
      invariant results == ResultMessages(m.blocks[..k])
    {
      var block := m.blocks[k];
      assert m.blocks[..k + 1][..k] == m.blocks[..k];
      match block.kind {
        case "text" => texts := texts + [TextPart(block.text)];
        case "image" =>
          if block.image.Some? {
            var url := "";
            if block.image.value.data != "" {
              url := "data:" + block.image.value.mimeType + ";base64," + block.image.value.data;
            } else if block.image.value.url != "" {
              url := block.image.value.url;
            }
            if url != "" {
              images := images + [ImagePart(url)];
            }
          }
        case "tool_result" =>
          if block.toolResult.Some? {
            results := results + [ToolMessage(block.toolResult.value)];
          }
        case _ =>
      }
    }
    assert m.blocks[..|m.blocks|] == m.blocks;
    var content := texts + images;
    out := if |content| > 0 then results + [Out("user", Parts(content), None, None, None)] else results;
  }

  lemma OneMoreBlock(blocks: seq<Block>, k: nat)
    requires k < |blocks|
    ensures Uses(blocks[..k + 1]) == Uses(blocks[..k]) + Uses([blocks[k]])
    ensures forall kind :: Strings(blocks[..k + 1], kind) == Strings(blocks[..k], kind) + Strings([blocks[k]], kind)
  {
    var init, b := blocks[..k], blocks[k];
    assert blocks[..k + 1] == init + [b] && (init + [b])[..k] == init;
    assert [b][..0] == [];
  }

  lemma OneBlock(b: Block)
    ensures Uses([b])
         == if b.kind == "tool_use" && b.toolUse.Some?
            then [b.toolUse.value.(arguments := if b.toolUse.value.arguments == "" then "{}" else b.toolUse.value.arguments)]
            else []
    ensures Strings([b], "text") == if b.kind == "text" then [b.text] else []
    ensures Strings([b], "thinking") == if b.kind == "thinking" then [b.thinking] else []
  {
    assert [b][..0] == [];
  }

  lemma NoBlocks()
    ensures Uses([]) == [] && Strings([], "text") == [] && Strings([], "thinking") == []
  {
  }

  method ConvertAssistantBlocks(m: Message) returns (out: Out)
    ensures out == AssistantMessage(m)
  {
    hide Uses, Strings, Join;
    NoBlocks();
    var texts: seq<string>, thoughts: seq<string>, uses: seq<ToolCall> := [], [], [];
    for k := 0 to |m.blocks|
      invariant texts == Strings(m.blocks[..k], "text") && thoughts == Strings(m.blocks[..k], "thinking")
      invariant uses == Uses(m.blocks[..k])
    {
      var block := m.blocks[k];
      OneMoreBlock(m.blocks, k);
      OneBlock(block);
      match block.kind {
        case "text" => texts := texts + [block.text];
        case "thinking" => thoughts := thoughts + [block.thinking];
        case "tool_use" =>
          if block.toolUse.Some? {
            var arguments := block.toolUse.value.arguments;
            if arguments == "" {
              arguments := "{}";
            }
            uses := uses + [ToolCall(block.toolUse.value.id, block.toolUse.value.name, arguments)];
          }
        case _ =>
      }
    }
    assert m.blocks[..|m.blocks|] == m.blocks;
    out := Out("assistant", Plain(""), None, None, None);
    if |texts| > 0 {
      out := out.(content := Plain(Join(texts, "\n")));
    } else if |uses| > 0 {
      out := out.(content := Nil);
    }
    if |uses| > 0 {
      out := out.(calls := Some(uses));
    }
    if |thoughts| > 0 {
      out := out.(reasoning := Some(Join(thoughts, "")));
    }
  }

  method ConvertLegacy(m: Message) returns (out: Out)
    ensures out == LegacyMessage(m)
  {
    out := Out(m.role, Absent, None, None, None);
    if m.content != "" {
      out := out.(content := Plain(m.content));
    }
    if |m.toolCalls| > 0 {
      out := out.(calls := Some(m.toolCalls));
      if m.content == "" {
        out := out.(content := Nil);
      }
    }
    if m.toolResult.Some? {
      out := out.(role := "tool", callId := Some(m.toolResult.value.toolUseId), content := Plain(m.toolResult.value.content));
    } else if m.toolUseId != "" {
      out := out.(role := "tool", callId := Some(m.toolUseId));
    }
  }

  method SanitizeOrphans(messages: seq<Out>) returns (cleaned: seq<Out>)
    ensures cleaned == Sanitized(messages)
  {
    var known: set<string> := {};
    for i := 0 to |messages|
      invariant known == Known(messages[..i])
    {
      assert messages[..i + 1][..i] == messages[..i];
      if messages[i].role == "assistant" && messages[i].calls.Some? {
        var calls := messages[i].calls.value;
        var ids: set<string> := {};
        for j := 0 to |calls|
          invariant ids == set c | c in calls[..j] && c.id != "" :: c.id
        {
          assert calls[..j + 1] == calls[..j] + [calls[j]];
          if calls[j].id != "" {
            ids := ids + {calls[j].id};
          }
        }
        assert calls[..|calls|] == calls;
        known := known + ids;
      }
    }
    assert messages[..|messages|] == messages;
    cleaned := [];
    for i := 0 to |messages|
      invariant cleaned == RepairAll(messages[..i], known)
    {
      var m := messages[i];
      if m.role == "tool" {
        var id := if m.callId.Some? then m.callId.value else "";
        if id == "" || id !in known {
          var content := if m.content.Plain? then m.content.s else "";
          m := Out("user", Plain("[Tool result for " + id + "]: " + content), None, None, None);
        }
      }
      cleaned := cleaned + [m];
    }
    assert messages[..|messages|] == messages;
  }

  /** What is sent to the provider for a request's history. */
  method ConvertMessages(r: Request) returns (out: seq<Out>)
    ensures out == Sanitized(History(r))
    ensures out == History(r) <==> NothingOrphaned(r.messages)
    ensures Validate(r) == None && AllTidy(r.messages) ==> out == History(r) && Answered(out)
  {
    RepairsExactly(r);
    hide Sanitized, Converted, Validate, AllTidy, Answered, NothingOrphaned;
    assert Validate(r) == None && AllTidy(r.messages) ==> Sanitized(History(r)) == History(r) && Answered(History(r)) by {
      if Validate(r) == None && AllTidy(r.messages) {
        AcceptedNeedsNoRepair(r);
      }
    }
    var messages := if r.system != "" then [Out("system", Plain(r.system), None, None, None)] else [];
    assert messages + [] == messages;
    for i := 0 to |r.messages|
      invariant messages == Preamble(r.system) + ConvertedAll(r.messages[..i])
    {
      assert r.messages[..i + 1][..i] == r.messages[..i];
      var more := ConvertMessage(r.messages[i]);
      messages := messages + more;
    }
    assert r.messages[..|r.messages|] == r.messages;
    out := SanitizeOrphans(messages);
  }

  method ConvertMessage(msg: Message) returns (out: seq<Out>)
    ensures out == Converted(msg)
  {
    if |msg.blocks| > 0 {
      if msg.role == "user" {
        out := ConvertUserBlocks(msg);
      } else {
        var one := ConvertAssistantBlocks(msg);
        out := [one];
      }
    } else {
      var one := ConvertLegacy(msg);
      out := [one];
    }
  }
}
