/** Request validation: which histories of tool calls and results are accepted. */
module ToolPairing {
  import opened Common

  datatype ToolCall = ToolCall(id: string, name: string, arguments: string)

  datatype ToolResult = ToolResult(toolUseId: string, content: string)

  datatype Image = Image(mimeType: string, data: string, url: string)

  datatype Block = Block(
    kind: string, text: string, thinking: string,
    toolUse: Option<ToolCall>, toolResult: Option<ToolResult>, image: Option<Image>)

  datatype Message = Message(
    role: string, content: string, blocks: seq<Block>, toolCalls: seq<ToolCall>,
    toolUseId: string, thinking: string, toolResult: Option<ToolResult>)

  datatype Request = Request(
    providerId: string, system: string, messages: seq<Message>, tools: nat, maxTokens: int, settings: nat)

  datatype Error =
    | NoProvider | NoMessages | TooManyMessages | TooManyTools | TooManyTokens | TooManySettings
    | NoRole(i: nat) | TooManyCalls(i: nat) | TooManyBlocks(i: nat) | NoContent(i: nat)
    | CallWithoutId(i: nat) | ResultWithoutId(i: nat) | ImageTooLarge(i: nat, j: nat)
    | UseWithoutId(i: nat, j: nat) | BlockResultWithoutId(i: nat, j: nat)
    | DuplicateCall(id: string) | UnknownResult(i: nat, id: string) | UnknownBlockResult(i: nat, j: nat, id: string)

  const MaxImage: nat := 14 * 0x10_0000

  // ---- what is required ----

  datatype Event = Opens(id: string) | Closes(id: string)

  /** A call with this id was made before `i` and has not been answered since. */
  ghost predicate OpenAt(events: seq<Event>, i: nat, id: string)
    requires i <= |events|
  {
    exists j :: 0 <= j < i && events[j] == Opens(id) && NotClosed(events, j, i, id)
  }

  predicate NotClosed(events: seq<Event>, j: nat, i: nat, id: string)
    requires i <= |events|
  {
    forall k :: j < k < i ==> events[k] != Closes(id)
  }

  ghost predicate Allowed(events: seq<Event>, i: nat)
    requires i < |events|
  {
    if events[i].Opens? then !OpenAt(events, i, events[i].id) else OpenAt(events, i, events[i].id)
  }

  /** No open call is opened again, and only open calls are answered. */
  ghost predicate WellPaired(events: seq<Event>) {
    forall i :: 0 <= i < |events| ==> Allowed(events, i)
  }

  function CallEvents(calls: seq<ToolCall>): seq<Event> {
    if calls == [] then [] else [Opens(calls[0].id)] + CallEvents(calls[1..])
  }

  function ResultEvents(result: Option<ToolResult>): seq<Event> {
    if result.None? then [] else [Closes(result.value.toolUseId)]
  }

  function BlockEvent(b: Block): seq<Event> {
    if b.kind == "tool_use" && b.toolUse.Some? then [Opens(b.toolUse.value.id)]
    else if b.kind == "tool_result" then ResultEvents(b.toolResult)
    else []
  }

  function BlockEvents(blocks: seq<Block>): seq<Event> {
    if blocks == [] then [] else BlockEvent(blocks[0]) + BlockEvents(blocks[1..])
  }

  function MessageEvents(m: Message): seq<Event> {
    CallEvents(m.toolCalls) + ResultEvents(m.toolResult) + BlockEvents(m.blocks)
  }

  /** Calls and results of a history, flattened in the order they are checked. */
  function Events(messages: seq<Message>): seq<Event> {
    if messages == [] then [] else MessageEvents(messages[0]) + Events(messages[1..])
  }

  lemma {:induction false} EventsSnoc(messages: seq<Message>, m: Message)
    ensures Events(messages + [m]) == Events(messages) + MessageEvents(m)
    decreases |messages|
  {
    hide MessageEvents;
    if messages == [] {
      assert (messages + [m])[1..] == [];
    } else {
      assert (messages + [m])[1..] == messages[1..] + [m];
      EventsSnoc(messages[1..], m);
    }
  }

  predicate CallsShaped(calls: seq<ToolCall>) {
    forall c :: c in calls ==> c.id != ""
  }

  predicate ResultShaped(result: Option<ToolResult>) {
    result.Some? ==> result.value.toolUseId != ""
  }

  predicate BlockShaped(b: Block) {
    (b.kind == "image" && b.image.Some? ==> |b.image.value.data| <= MaxImage)
    && (b.kind == "tool_use" ==> b.toolUse.Some? && b.toolUse.value.id != "")
    && (b.kind == "tool_result" ==> b.toolResult.Some? && b.toolResult.value.toolUseId != "")
  }

  predicate BlocksShaped(blocks: seq<Block>) {
    forall b :: b in blocks ==> BlockShaped(b)
  }

  predicate HasSomething(m: Message) {
    m.content != "" || m.blocks != [] || m.thinking != "" || m.toolCalls != [] || m.toolResult.Some?
  }

  predicate MessageShaped(m: Message) {
    m.role != "" && |m.toolCalls| <= 100 && |m.blocks| <= 100 && HasSomething(m)
    && CallsShaped(m.toolCalls) && ResultShaped(m.toolResult) && BlocksShaped(m.blocks)
  }

  predicate RequestShaped(r: Request) {
    r.providerId != "" && 0 < |r.messages| <= 1000 && r.tools <= 128 && r.maxTokens <= 1_000_000 && r.settings <= 100
    && forall m :: m in r.messages ==> MessageShaped(m)
  }

  // ---- what the checks do, error by error ----

  datatype Checked = Fail(error: Error) | Pass(open: set<string>)

  function CheckCalls(i: nat, calls: seq<ToolCall>, open: set<string>): Checked {
    if calls == [] then Pass(open)
    else if calls[0].id == "" then Fail(CallWithoutId(i))
    else if calls[0].id in open then Fail(DuplicateCall(calls[0].id))
    else CheckCalls(i, calls[1..], open + {calls[0].id})
  }

  function CheckResult(i: nat, result: Option<ToolResult>, open: set<string>): Checked {
    if result.None? then Pass(open)
    else if result.value.toolUseId == "" then Fail(ResultWithoutId(i))
    else if result.value.toolUseId !in open then Fail(UnknownResult(i, result.value.toolUseId))
    else Pass(open - {result.value.toolUseId})
  }

  function CheckBlock(i: nat, j: nat, b: Block, open: set<string>): Checked {
    if b.kind == "image" then
      if b.image.Some? && |b.image.value.data| > MaxImage then Fail(ImageTooLarge(i, j)) else Pass(open)
    else if b.kind == "tool_use" then
      if b.toolUse.None? || b.toolUse.value.id == "" then Fail(UseWithoutId(i, j))
      else if b.toolUse.value.id in open then Fail(DuplicateCall(b.toolUse.value.id))
      else Pass(open + {b.toolUse.value.id})
    else if b.kind == "tool_result" then
      if b.toolResult.None? || b.toolResult.value.toolUseId == "" then Fail(BlockResultWithoutId(i, j))
      else if b.toolResult.value.toolUseId !in open then Fail(UnknownBlockResult(i, j, b.toolResult.value.toolUseId))
      else Pass(open - {b.toolResult.value.toolUseId})
    else Pass(open)
  }

  function CheckBlocks(i: nat, j: nat, blocks: seq<Block>, open: set<string>): Checked
    decreases |blocks|
  {
    if blocks == [] then Pass(open)
    else
      match CheckBlock(i, j, blocks[0], open)
      case Fail(e) => Fail(e)
      case Pass(next) => CheckBlocks(i, j + 1, blocks[1..], next)
  }

  function CheckMessage(i: nat, m: Message, open: set<string>): Checked {
    if m.role == "" then Fail(NoRole(i))
    else if |m.toolCalls| > 100 then Fail(TooManyCalls(i))
    else if |m.blocks| > 100 then Fail(TooManyBlocks(i))
    else if !HasSomething(m) then Fail(NoContent(i))
    else
      match CheckCalls(i, m.toolCalls, open)
      case Fail(e) => Fail(e)
      case Pass(called) =>
        match CheckResult(i, m.toolResult, called)
        case Fail(e) => Fail(e)
        case Pass(answered) => CheckBlocks(i, 0, m.blocks, answered)
  }

  function CheckMessages(i: nat, messages: seq<Message>, open: set<string>): Checked
    decreases |messages|
  {
    if messages == [] then Pass(open)
    else
      match CheckMessage(i, messages[0], open)
      case Fail(e) => Fail(e)
      case Pass(next) => CheckMessages(i + 1, messages[1..], next)
  }

  function Validate(r: Request): Option<Error> {
    if r.providerId == "" then Some(NoProvider)
    else if |r.messages| == 0 then Some(NoMessages)
    else if |r.messages| > 1000 then Some(TooManyMessages)
    else if r.tools > 128 then Some(TooManyTools)
    else if r.maxTokens > 1_000_000 then Some(TooManyTokens)
    else if r.settings > 100 then Some(TooManySettings)
    else
      match CheckMessages(0, r.messages, {})
      case Fail(e) => Some(e)
      case Pass(_) => None
  }

  // ---- the two agree ----

  /** Events one by one over the set of open ids; nothing when one of them is not allowed. */
  function Replay(events: seq<Event>, open: set<string>): Option<set<string>> {
    if events == [] then Some(open)
    else
      match events[0]
      case Opens(id) => if id in open then None else Replay(events[1..], open + {id})
      case Closes(id) => if id in open then Replay(events[1..], open - {id}) else None
  }

  lemma {:induction false} ReplayConcat(a: seq<Event>, b: seq<Event>, open: set<string>)
    ensures Replay(a + b, open)
         == match Replay(a, open) case None => None case Some(next) => Replay(b, next)
    decreases |a|
  {
    if a == [] {
      assert a + b == b;
    } else {
      assert (a + b)[1..] == a[1..] + b;
      match a[0]
      case Opens(id) => ReplayConcat(a[1..], b, open + {id});
      case Closes(id) => ReplayConcat(a[1..], b, open - {id});
    }
  }

  predicate Agrees(checked: Checked, shaped: bool, replay: Option<set<string>>) {
    (shaped && replay.Some? ==> checked == Pass(replay.value))
    && (checked.Pass? ==> shaped && replay.Some?)
  }

  lemma {:induction false} CallsAgree(i: nat, calls: seq<ToolCall>, open: set<string>)
    ensures Agrees(CheckCalls(i, calls, open), CallsShaped(calls), Replay(CallEvents(calls), open))
    decreases |calls|
  {
    if calls != [] {
      var c, tail := calls[0], calls[1..];
      assert CallEvents(calls)[1..] == CallEvents(tail);
      assert CallsShaped(calls) <==> c.id != "" && CallsShaped(tail) by {
        assert forall d :: d in calls <==> d == c || d in tail;
      }
      CallsAgree(i, tail, open + {c.id});
    }
  }

  lemma ResultAgrees(i: nat, result: Option<ToolResult>, open: set<string>)
    ensures Agrees(CheckResult(i, result, open), ResultShaped(result), Replay(ResultEvents(result), open))
  {
    ReplayOne(open);
  }

  lemma ReplayOne(open: set<string>)
    ensures forall e :: Replay([e], open)
              == if e.Opens? then (if e.id in open then None else Some(open + {e.id}))
                 else if e.id in open then Some(open - {e.id}) else None
  {
    forall e: Event
      ensures Replay([e], open)
              == if e.Opens? then (if e.id in open then None else Some(open + {e.id}))
                 else if e.id in open then Some(open - {e.id}) else None
    {
      assert [e][1..] == [];
    }
  }

  lemma BlockAgrees(i: nat, j: nat, b: Block, open: set<string>)
    ensures Agrees(CheckBlock(i, j, b, open), BlockShaped(b), Replay(BlockEvent(b), open))
  {
    ReplayOne(open);
  }

  lemma {:induction false} BlocksAgree(i: nat, j: nat, blocks: seq<Block>, open: set<string>)
    ensures Agrees(CheckBlocks(i, j, blocks, open), BlocksShaped(blocks), Replay(BlockEvents(blocks), open))
    decreases |blocks|
  {
    hide CheckBlock, BlockShaped, BlockEvent;
    if blocks != [] {
      var b, tail := blocks[0], blocks[1..];
      BlockAgrees(i, j, b, open);
      ReplayConcat(BlockEvent(b), BlockEvents(tail), open);
      assert BlocksShaped(blocks) <==> BlockShaped(b) && BlocksShaped(tail) by {
        assert forall d :: d in blocks <==> d == b || d in tail;
      }
      if CheckBlock(i, j, b, open).Pass? {
        BlocksAgree(i, j + 1, tail, CheckBlock(i, j, b, open).open);
      }
    }
  }

  lemma MessageAgrees(i: nat, m: Message, open: set<string>)
    ensures Agrees(CheckMessage(i, m, open), MessageShaped(m), Replay(MessageEvents(m), open))
  {
    hide CheckCalls, CheckResult, CheckBlocks, CallsShaped, ResultShaped, BlocksShaped, Replay;
    hide CallEvents, ResultEvents, BlockEvents;
    var a, b, c := CallEvents(m.toolCalls), ResultEvents(m.toolResult), BlockEvents(m.blocks);
    ReplayConcat(a + b, c, open);
    ReplayConcat(a, b, open);
    CallsAgree(i, m.toolCalls, open);
    if CheckCalls(i, m.toolCalls, open).Pass? {
      var called := CheckCalls(i, m.toolCalls, open).open;
      ResultAgrees(i, m.toolResult, called);
      if CheckResult(i, m.toolResult, called).Pass? {
        BlocksAgree(i, 0, m.blocks, CheckResult(i, m.toolResult, called).open);
      }
    }
  }

  predicate AllShaped(messages: seq<Message>) {
    forall m :: m in messages ==> MessageShaped(m)
  }

  lemma {:induction false} MessagesAgree(i: nat, messages: seq<Message>, open: set<string>)
    ensures Agrees(CheckMessages(i, messages, open), AllShaped(messages), Replay(Events(messages), open))
    decreases |messages|
  {
    hide CheckMessage, MessageShaped, MessageEvents, Replay;
    if messages == [] {
      ReplayNothing(open);
    } else {
      var m, tail := messages[0], messages[1..];
      MessageAgrees(i, m, open);
      ReplayConcat(MessageEvents(m), Events(tail), open);
      assert AllShaped(messages) <==> MessageShaped(m) && AllShaped(tail) by {
        assert forall d :: d in messages <==> d == m || d in tail;
      }
      if CheckMessage(i, m, open).Pass? {
        MessagesAgree(i + 1, tail, CheckMessage(i, m, open).open);
      }
    }
  }

  lemma ReplayNothing(open: set<string>)
    ensures Replay([], open) == Some(open)
  {
  }

  // ---- replay is pairing ----

  lemma OpenAtSnoc(events: seq<Event>, e: Event, i: nat, id: string)
    requires i <= |events|
    ensures OpenAt(events + [e], i, id) <==> OpenAt(events, i, id)
  {
    var longer := events + [e];
    if j :| 0 <= j < i && events[j] == Opens(id) && NotClosed(events, j, i, id) {
      assert longer[j] == Opens(id) && NotClosed(longer, j, i, id);
    }
    if j :| 0 <= j < i && longer[j] == Opens(id) && NotClosed(longer, j, i, id) {
      assert forall k :: j < k < i ==> longer[k] == events[k];
      assert events[j] == Opens(id) && NotClosed(events, j, i, id);
    }
  }

  lemma OpenAfter(events: seq<Event>, e: Event, id: string)
    ensures OpenAt(events + [e], |events| + 1, id)
       <==> e == Opens(id) || (OpenAt(events, |events|, id) && e != Closes(id))
  {
    var longer, n := events + [e], |events|;
    if j :| 0 <= j < n + 1 && longer[j] == Opens(id) && NotClosed(longer, j, n + 1, id) {
      if j < n {
        assert longer[n] == e;
        assert forall k :: j < k < n ==> longer[k] == events[k];
        assert events[j] == Opens(id) && NotClosed(events, j, n, id);
      }
    }
    if e == Opens(id) {
      assert longer[n] == Opens(id) && NotClosed(longer, n, n + 1, id);
    } else if e != Closes(id) && OpenAt(events, n, id) {
      var j :| 0 <= j < n && events[j] == Opens(id) && NotClosed(events, j, n, id);
      assert longer[j] == Opens(id) && NotClosed(longer, j, n + 1, id);
    }
  }

  ghost predicate IsOpen(open: set<string>, events: seq<Event>) {
    forall id :: id in open <==> OpenAt(events, |events|, id)
  }

  lemma AllowedSnoc(events: seq<Event>, e: Event)
    ensures WellPaired(events + [e])
       <==> WellPaired(events) && (if e.Opens? then !OpenAt(events, |events|, e.id) else OpenAt(events, |events|, e.id))
  {
    var longer := events + [e];
    forall i | 0 <= i < |events| ensures Allowed(longer, i) <==> Allowed(events, i) {
      OpenAtSnoc(events, e, i, events[i].id);
      assert longer[i] == events[i];
    }
    OpenAtSnoc(events, e, |events|, e.id);
    assert longer[|events|] == e;
    assert Allowed(longer, |events|)
      <==> if e.Opens? then !OpenAt(events, |events|, e.id) else OpenAt(events, |events|, e.id);
    if WellPaired(longer) {
      assert Allowed(longer, |events|);
      forall i | 0 <= i < |events| ensures Allowed(events, i) {
        assert Allowed(longer, i);
      }
    }
  }

  /** A history replays exactly when it is well paired, and then the open ids are those unanswered. */
  lemma {:induction false} ReplayIsPairing(events: seq<Event>)
    ensures Replay(events, {}).Some? <==> WellPaired(events)
    ensures Replay(events, {}).Some? ==> IsOpen(Replay(events, {}).value, events)
    decreases |events|
  {
    if events == [] {
    } else {
      var init, e := events[..|events| - 1], events[|events| - 1];
      assert events == init + [e];
      ReplayIsPairing(init);
      ReplayConcat(init, [e], {});
      AllowedSnoc(init, e);
      if Replay(init, {}).Some? {
        var open := Replay(init, {}).value;
        ReplayOne(open);
        forall id ensures OpenAt(events, |events|, id)
                     <==> e == Opens(id) || (OpenAt(init, |init|, id) && e != Closes(id)) {
          OpenAfter(init, e, id);
        }
      }
    }
  }

  /** Validation accepts exactly the well-shaped requests whose calls and results are well paired. */
  lemma AcceptsExactly(r: Request)
    ensures Validate(r) == None <==> RequestShaped(r) && WellPaired(Events(r.messages))
  {
    hide CheckMessages, MessageShaped, WellPaired;
    MessagesAgree(0, r.messages, {});
    ReplayIsPairing(Events(r.messages));
  }

  // ---- the loop ----

  lemma Keyed(pending: map<string, string>, id: string, name: string)
    ensures pending[id := name].Keys == pending.Keys + {id}
  {
  }

  lemma Unkeyed(pending: map<string, string>, id: string)
    ensures (pending - {id}).Keys == pending.Keys - {id}
  {
  }

  method CheckCallList(i: nat, calls: seq<ToolCall>, pending: map<string, string>)
    returns (error: Option<Error>, after: map<string, string>)
    ensures CheckCalls(i, calls, pending.Keys) == if error.Some? then Fail(error.value) else Pass(after.Keys)
  {
    after := pending;
    assert calls[0..] == calls;
    for k := 0 to |calls|
      invariant CheckCalls(i, calls, pending.Keys) == CheckCalls(i, calls[k..], after.Keys)
    {
      var tc := calls[k];
      assert calls[k..][1..] == calls[k + 1..];
      if tc.id == "" {
        return Some(CallWithoutId(i)), after;
      }
      if tc.id in after {
        return Some(DuplicateCall(tc.id)), after;
      }
      Keyed(after, tc.id, tc.name);
      after := after[tc.id := tc.name];
    }
    assert calls[|calls|..] == [];
    error := None;
  }

  method CheckBlockList(i: nat, blocks: seq<Block>, pending: map<string, string>)
    returns (error: Option<Error>, after: map<string, string>)
    ensures CheckBlocks(i, 0, blocks, pending.Keys) == if error.Some? then Fail(error.value) else Pass(after.Keys)
  {
    after := pending;
    assert blocks[0..] == blocks;
    for j := 0 to |blocks|
      invariant CheckBlocks(i, 0, blocks, pending.Keys) == CheckBlocks(i, j, blocks[j..], after.Keys)
    {
      var block := blocks[j];
      assert blocks[j..][1..] == blocks[j + 1..];
      match block.kind {
        case "image" =>
          if block.image.Some? && |block.image.value.data| > MaxImage {
            return Some(ImageTooLarge(i, j)), after;
          }
        case "tool_use" =>
          if block.toolUse.None? || block.toolUse.value.id == "" {
            return Some(UseWithoutId(i, j)), after;
          }
          if block.toolUse.value.id in after {
            return Some(DuplicateCall(block.toolUse.value.id)), after;
          }
          Keyed(after, block.toolUse.value.id, block.toolUse.value.name);
          after := after[block.toolUse.value.id := block.toolUse.value.name];
        case "tool_result" =>
          if block.toolResult.None? || block.toolResult.value.toolUseId == "" {
            return Some(BlockResultWithoutId(i, j)), after;
          }
          if block.toolResult.value.toolUseId !in after {
            return Some(UnknownBlockResult(i, j, block.toolResult.value.toolUseId)), after;
          }
          Unkeyed(after, block.toolResult.value.toolUseId);
          after := after - {block.toolResult.value.toolUseId};
        case _ =>
      }
    }
    assert blocks[|blocks|..] == [];
    error := None;
  }

  method CheckOne(i: nat, msg: Message, pending: map<string, string>)
    returns (error: Option<Error>, after: map<string, string>)
    ensures CheckMessage(i, msg, pending.Keys) == if error.Some? then Fail(error.value) else Pass(after.Keys)
  {
    hide CheckCalls, CheckBlocks;
    after := pending;
    if msg.role == "" {
      return Some(NoRole(i)), after;
    }
    if |msg.toolCalls| > 100 {
      return Some(TooManyCalls(i)), after;
    }
    if |msg.blocks| > 100 {
      return Some(TooManyBlocks(i)), after;
    }
    if msg.content == "" && |msg.blocks| == 0 && msg.thinking == "" && |msg.toolCalls| == 0 && msg.toolResult.None? {
      return Some(NoContent(i)), after;
    }
    error, after := CheckCallList(i, msg.toolCalls, after);
    if error.Some? {
      return;
    }
    if msg.toolResult.Some? {
      var id := msg.toolResult.value.toolUseId;
      if id == "" {
        return Some(ResultWithoutId(i)), after;
      }
      if id !in after {
        return Some(UnknownResult(i, id)), after;
      }
      Unkeyed(after, id);
      after := after - {id};
    }
    error, after := CheckBlockList(i, msg.blocks, after);
  }

  /** The first error in the order of the checks, or none. */
  method ValidateRequest(r: Request) returns (error: Option<Error>)
    ensures error == Validate(r)
    ensures error == None <==> RequestShaped(r) && WellPaired(Events(r.messages))
  {
    AcceptsExactly(r);
    hide RequestShaped, WellPaired, CheckMessage;
    if r.providerId == "" {
      return Some(NoProvider);
    }
    if |r.messages| == 0 {
      return Some(NoMessages);
    }
    if |r.messages| > 1000 {
      return Some(TooManyMessages);
    }
    if r.tools > 128 {
      return Some(TooManyTools);
    }
    if r.maxTokens > 1_000_000 {
      return Some(TooManyTokens);
    }
    if r.settings > 100 {
      return Some(TooManySettings);
    }
    var pending: map<string, string> := map[];
    assert r.messages[0..] == r.messages && pending.Keys == {};
    for i := 0 to |r.messages|
      invariant CheckMessages(0, r.messages, {}) == CheckMessages(i, r.messages[i..], pending.Keys)
    {
      assert r.messages[i..][1..] == r.messages[i + 1..];
      error, pending := CheckOne(i, r.messages[i], pending);
      if error.Some? {
        return;
      }
    }
    assert r.messages[|r.messages|..] == [];
    error := None;
  }
}
