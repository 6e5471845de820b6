/** Which error a refused request gets: the first thing wrong with it, and where. */
module ToolErrors {
  import opened Common
  import opened ToolPairing

  // ---- what comes before a place in the history ----

  function BeforeCall(ms: seq<Message>, i: nat, c: nat): seq<Event>
    requires i < |ms| && c <= |ms[i].toolCalls|
  {
    Events(ms[..i]) + CallEvents(ms[i].toolCalls[..c])
  }

  function BeforeBlock(ms: seq<Message>, i: nat, j: nat): seq<Event>
    requires i < |ms| && j <= |ms[i].blocks|
  {
    Events(ms[..i]) + CallEvents(ms[i].toolCalls) + ResultEvents(ms[i].toolResult) + BlockEvents(ms[i].blocks[..j])
  }

  ghost predicate IsPending(events: seq<Event>, id: string) {
    OpenAt(events, |events|, id)
  }

  /** The message is complete and of a permitted size. */
  predicate Sized(m: Message) {
    m.role != "" && |m.toolCalls| <= 100 && |m.blocks| <= 100 && HasSomething(m)
  }

  /** Everything up to call `c` of message `i` is in order. */
  ghost predicate ReachesCall(ms: seq<Message>, i: nat, c: nat) {
    i < |ms| && c <= |ms[i].toolCalls| && Sized(ms[i])
    && CallsShaped(ms[i].toolCalls[..c]) && WellPaired(BeforeCall(ms, i, c))
  }

  /** Everything up to block `j` of message `i` is in order. */
  ghost predicate ReachesBlock(ms: seq<Message>, i: nat, j: nat) {
    i < |ms| && j <= |ms[i].blocks| && Sized(ms[i])
    && CallsShaped(ms[i].toolCalls) && ResultShaped(ms[i].toolResult) && BlocksShaped(ms[i].blocks[..j])
    && WellPaired(BeforeBlock(ms, i, j))
  }

  ghost predicate CallFails(ms: seq<Message>, i: nat, c: nat, e: Error) {
    ReachesCall(ms, i, c) && c < |ms[i].toolCalls|
    && var id := ms[i].toolCalls[c].id;
       match e
       case CallWithoutId(k) => k == i && id == ""
       case DuplicateCall(name) => name == id && id != "" && IsPending(BeforeCall(ms, i, c), id)
       case _ => false
  }

  ghost predicate ResultFails(ms: seq<Message>, i: nat, e: Error) {
    i < |ms| && ReachesCall(ms, i, |ms[i].toolCalls|) && ms[i].toolResult.Some?
    && var id := ms[i].toolResult.value.toolUseId;
       match e
       case ResultWithoutId(k) => k == i && id == ""
       case UnknownResult(k, name) =>
         k == i && name == id && id != "" && !IsPending(BeforeCall(ms, i, |ms[i].toolCalls|), id)
       case _ => false
  }

  ghost predicate BlockFails(ms: seq<Message>, i: nat, j: nat, e: Error) {
    ReachesBlock(ms, i, j) && j < |ms[i].blocks|
    && var b := ms[i].blocks[j];
       match e
       case ImageTooLarge(k, l) => k == i && l == j && b.kind == "image" && b.image.Some? && |b.image.value.data| > 14 * 1024 * 1024
       case UseWithoutId(k, l) => k == i && l == j && b.kind == "tool_use" && (b.toolUse.None? || b.toolUse.value.id == "")
       case DuplicateCall(name) =>
         b.kind == "tool_use" && b.toolUse.Some? && b.toolUse.value.id == name && name != ""
         && IsPending(BeforeBlock(ms, i, j), name)
       case BlockResultWithoutId(k, l) =>
         k == i && l == j && b.kind == "tool_result" && (b.toolResult.None? || b.toolResult.value.toolUseId == "")
       case UnknownBlockResult(k, l, name) =>
         k == i && l == j && b.kind == "tool_result" && b.toolResult.Some? && b.toolResult.value.toolUseId == name
         && name != "" && !IsPending(BeforeBlock(ms, i, j), name)
       case _ => false
  }

  predicate ShapeFails(m: Message, i: nat, e: Error) {
    match e
    case NoRole(k) => k == i && m.role == ""
    case TooManyCalls(k) => k == i && m.role != "" && |m.toolCalls| > 100
    case TooManyBlocks(k) => k == i && m.role != "" && |m.toolCalls| <= 100 && |m.blocks| > 100
    case NoContent(k) =>
      k == i && m.role != "" && |m.toolCalls| <= 100 && |m.blocks| <= 100
      && m.content == "" && m.thinking == "" && m.blocks == [] && m.toolCalls == [] && m.toolResult.None?
    case _ => false
  }

  /** Message `i` is the first that is not in order, and the error says what is wrong with it first. */
  ghost predicate FailsFirst(ms: seq<Message>, i: nat, e: Error) {
    i < |ms| && AllShaped(ms[..i]) && WellPaired(Events(ms[..i]))
    && (ShapeFails(ms[i], i, e) || ResultFails(ms, i, e)
        || (exists c :: CallFails(ms, i, c, e)) || (exists j :: BlockFails(ms, i, j, e)))
  }

  // ---- check by check ----

  lemma PairedOpen(events: seq<Event>, open: set<string>)
    requires Replay(events, {}) == Some(open)
    ensures WellPaired(events) && forall id :: IsPending(events, id) <==> id in open
  {
    ReplayIsPairing(events);
  }

  lemma ReplayMore(before: seq<Event>, more: seq<Event>, open: set<string>)
    requires Replay(before, {}) == Some(open)
    ensures Replay(before + more, {}) == Replay(more, open)
  {
    ReplayConcat(before, more, {});
  }

  lemma {:induction false} CallStops(i: nat, calls: seq<ToolCall>, open: set<string>) returns (c: nat, at: set<string>)
    requires CheckCalls(i, calls, open).Fail?
    ensures c < |calls| && CallsShaped(calls[..c]) && Replay(CallEvents(calls[..c]), open) == Some(at)
    ensures CheckCalls(i, calls, open)
         == Fail(if calls[c].id == "" then CallWithoutId(i) else DuplicateCall(calls[c].id))
    ensures calls[c].id != "" ==> calls[c].id in at
    decreases |calls|
  {
    if calls[0].id == "" || calls[0].id in open {
      c, at := 0, open;
    } else {
      c, at := CallStops(i, calls[1..], open + {calls[0].id});
      assert calls[..c + 1] == [calls[0]] + calls[1..][..c];
      assert CallEvents(calls[..c + 1]) == [Opens(calls[0].id)] + CallEvents(calls[1..][..c]);
      assert calls[..c + 1][1..] == calls[1..][..c];
      var events := CallEvents(calls[..c + 1]);
      assert events[1..] == CallEvents(calls[1..][..c]);
      c := c + 1;
    }
  }

  predicate BlockStops(i: nat, j: nat, b: Block, at: set<string>, e: Error) {
    CheckBlock(i, j, b, at) == Fail(e)
  }

  lemma {:induction false} BlocksStop(i: nat, j: nat, blocks: seq<Block>, open: set<string>) returns (c: nat, at: set<string>)
    requires CheckBlocks(i, j, blocks, open).Fail?
    ensures c < |blocks| && BlocksShaped(blocks[..c]) && Replay(BlockEvents(blocks[..c]), open) == Some(at)
    ensures BlockStops(i, j + c, blocks[c], at, CheckBlocks(i, j, blocks, open).error)
    decreases |blocks|
  {
    hide CheckBlock, BlockShaped, BlockEvent;
    var b := blocks[0];
    if CheckBlock(i, j, b, open).Fail? {
      c, at := 0, open;
      NoEvents(open);
    } else {
      BlockAgrees(i, j, b, open);
      var next := CheckBlock(i, j, b, open).open;
      c, at := BlocksStop(i, j + 1, blocks[1..], next);
      var prefix := blocks[..c + 1];
      assert prefix == [b] + blocks[1..][..c];
      assert prefix[1..] == blocks[1..][..c];
      assert forall x :: x in prefix <==> x == b || x in blocks[1..][..c];
      ReplayConcat(BlockEvent(b), BlockEvents(blocks[1..][..c]), open);
      c := c + 1;
    }
  }

  lemma NoEvents(open: set<string>)
    ensures Replay([], open) == Some(open) && BlockEvents([]) == [] && CallEvents([]) == []
  {
  }

  // ---- one message ----

  lemma CallsFail(ms: seq<Message>, i: nat, open: set<string>)
    requires i < |ms| && Replay(Events(ms[..i]), {}) == Some(open) && Sized(ms[i])
    requires CheckCalls(i, ms[i].toolCalls, open).Fail?
    ensures exists c :: CallFails(ms, i, c, CheckCalls(i, ms[i].toolCalls, open).error)
  {
    var c, at := CallStops(i, ms[i].toolCalls, open);
    ReplayMore(Events(ms[..i]), CallEvents(ms[i].toolCalls[..c]), open);
    PairedOpen(BeforeCall(ms, i, c), at);
    hide WellPaired, Replay, Events, CallEvents, CheckCalls, IsPending;
    assert CallFails(ms, i, c, if ms[i].toolCalls[c].id == "" then CallWithoutId(i) else DuplicateCall(ms[i].toolCalls[c].id));
  }

  lemma ResultFailsHere(ms: seq<Message>, i: nat, open: set<string>, called: set<string>)
    requires i < |ms| && Replay(Events(ms[..i]), {}) == Some(open) && Sized(ms[i])
    requires CheckCalls(i, ms[i].toolCalls, open) == Pass(called)
    requires CheckResult(i, ms[i].toolResult, called).Fail?
    ensures ResultFails(ms, i, CheckResult(i, ms[i].toolResult, called).error)
  {
    var calls := ms[i].toolCalls;
    CallsAgree(i, calls, open);
    assert calls[..|calls|] == calls;
    ReplayMore(Events(ms[..i]), CallEvents(calls), open);
    PairedOpen(BeforeCall(ms, i, |calls|), called);
    hide WellPaired, Replay, Events, CallEvents, CheckCalls, IsPending, CallsShaped;
  }

  lemma BlocksFail(ms: seq<Message>, i: nat, open: set<string>, called: set<string>, answered: set<string>)
    requires i < |ms| && Replay(Events(ms[..i]), {}) == Some(open) && Sized(ms[i])
    requires CheckCalls(i, ms[i].toolCalls, open) == Pass(called)
    requires CheckResult(i, ms[i].toolResult, called) == Pass(answered)
    requires CheckBlocks(i, 0, ms[i].blocks, answered).Fail?
    ensures exists j :: BlockFails(ms, i, j, CheckBlocks(i, 0, ms[i].blocks, answered).error)
  {
    var m := ms[i];
    CallsAgree(i, m.toolCalls, open);
    ResultAgrees(i, m.toolResult, called);
    ReplayMore(Events(ms[..i]), CallEvents(m.toolCalls), open);
    ReplayMore(Events(ms[..i]) + CallEvents(m.toolCalls), ResultEvents(m.toolResult), called);
    var j, at := BlocksStop(i, 0, m.blocks, answered);
    ReplayMore(Events(ms[..i]) + CallEvents(m.toolCalls) + ResultEvents(m.toolResult), BlockEvents(m.blocks[..j]), answered);
    PairedOpen(BeforeBlock(ms, i, j), at);
    BlockReason(ms, i, j, at, CheckBlocks(i, 0, m.blocks, answered).error);
  }

  lemma BlockReason(ms: seq<Message>, i: nat, j: nat, at: set<string>, e: Error)
    requires ReachesBlock(ms, i, j) && j < |ms[i].blocks| && BlockStops(i, j, ms[i].blocks[j], at, e)
    requires forall id :: IsPending(BeforeBlock(ms, i, j), id) <==> id in at
    ensures BlockFails(ms, i, j, e)
  {
    hide WellPaired, BlocksShaped, CallsShaped, ResultShaped, IsPending, BeforeBlock;
  }

  lemma MessageFails(ms: seq<Message>, i: nat, open: set<string>)
    requires i < |ms| && AllShaped(ms[..i]) && Replay(Events(ms[..i]), {}) == Some(open)
    requires CheckMessage(i, ms[i], open).Fail?
    ensures FailsFirst(ms, i, CheckMessage(i, ms[i], open).error)
  {
    PairedOpen(Events(ms[..i]), open);
    var m := ms[i];
    hide WellPaired, AllShaped, Replay, Events, CheckCalls, CheckResult, CheckBlocks, ResultFails, CallFails, BlockFails;
    if Sized(m) {
      if CheckCalls(i, m.toolCalls, open).Fail? {
        CallsFail(ms, i, open);
      } else {
        var called := CheckCalls(i, m.toolCalls, open).open;
        if CheckResult(i, m.toolResult, called).Fail? {
          ResultFailsHere(ms, i, open, called);
        } else {
          BlocksFail(ms, i, open, called, CheckResult(i, m.toolResult, called).open);
        }
      }
    } else {
      assert ShapeFails(m, i, CheckMessage(i, m, open).error);
    }
  }

  // ---- the whole request ----

  lemma OneMoreMessage(ms: seq<Message>, i: nat)
    requires i < |ms|
    ensures Events(ms[..i + 1]) == Events(ms[..i]) + MessageEvents(ms[i])
    ensures AllShaped(ms[..i + 1]) <==> AllShaped(ms[..i]) && MessageShaped(ms[i])
  {
    hide MessageEvents, MessageShaped;
    assert ms[..i + 1] == ms[..i] + [ms[i]];
    EventsSnoc(ms[..i], ms[i]);
    assert forall m :: m in ms[..i + 1] <==> m in ms[..i] || m == ms[i];
  }

  lemma {:induction false} MessagesFail(ms: seq<Message>, i: nat, open: set<string>) returns (k: nat)
    requires i <= |ms| && AllShaped(ms[..i]) && Replay(Events(ms[..i]), {}) == Some(open)
    requires CheckMessages(i, ms[i..], open).Fail?
    ensures FailsFirst(ms, k, CheckMessages(i, ms[i..], open).error)
    decreases |ms| - i
  {
    hide AllShaped, Replay, Events, CheckMessage, FailsFirst, MessageShaped, MessageEvents;
    var m := ms[i];
    assert ms[i..][0] == m && ms[i..][1..] == ms[i + 1..];
    if CheckMessage(i, m, open).Fail? {
      MessageFails(ms, i, open);
      k := i;
    } else {
      MessageAgrees(i, m, open);
      OneMoreMessage(ms, i);
      ReplayMore(Events(ms[..i]), MessageEvents(m), open);
      k := MessagesFail(ms, i + 1, CheckMessage(i, m, open).open);
    }
  }

  predicate RequestError(e: Error) {
    e.NoProvider? || e.NoMessages? || e.TooManyMessages? || e.TooManyTools? || e.TooManyTokens? || e.TooManySettings?
  }

  /** An error about the history names its first message that is not in order, and what is wrong there first. */
  lemma ErrorIsFirst(r: Request)
    requires Validate(r).Some? && !RequestError(Validate(r).value)
    ensures exists i :: FailsFirst(r.messages, i, Validate(r).value)
  {
    hide FailsFirst;
    assert r.messages[..0] == [] && r.messages[0..] == r.messages;
    NothingBefore();
    var k := MessagesFail(r.messages, 0, {});
  }

  lemma NothingBefore()
    ensures AllShaped([]) && Replay(Events([]), {}) == Some({})
  {
  }

  /** An error about the request as a whole names the first of six limits that it breaks, before any message is read. */
  lemma RequestErrorsFirst(r: Request)
    ensures var e := Validate(r);
            && (e == Some(NoProvider) <==> r.providerId == "")
            && (e == Some(NoMessages) <==> r.providerId != "" && r.messages == [])
            && (e == Some(TooManyMessages) <==> r.providerId != "" && |r.messages| > 1000)
            && (e == Some(TooManyTools) <==> r.providerId != "" && 0 < |r.messages| <= 1000 && r.tools > 128)
            && (e == Some(TooManyTokens) <==>
                  r.providerId != "" && 0 < |r.messages| <= 1000 && r.tools <= 128 && r.maxTokens > 1_000_000)
            && (e == Some(TooManySettings) <==>
                  r.providerId != "" && 0 < |r.messages| <= 1000 && r.tools <= 128 && r.maxTokens <= 1_000_000
                  && r.settings > 100)
  {
    if CheckMessages(0, r.messages, {}).Fail? {
      assert r.messages[..0] == [] && r.messages[0..] == r.messages;
      NothingBefore();
      var k := MessagesFail(r.messages, 0, {});
      assert !RequestError(CheckMessages(0, r.messages, {}).error);
    }
    hide CheckMessages;
  }
}
