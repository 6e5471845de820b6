/** The parser's loop: lines in, callback calls out, stopping at the first cancellation or failing call. */
module SseParser {
  import opened Common
  import opened SseSpec
  import C = SseConservation
  import E = SseEndings

  /** The callback. It records what it is given and fails at one call, or never. */
  class Sink {
    var seen: seq<Emission>
    const failAt: int

    constructor (failAt: int)
      ensures seen == [] && this.failAt == failAt
    {
      seen, this.failAt := [], failAt;
    }

    method Call(e: Emission) returns (ok: bool)
      modifies this
      ensures seen == old(seen) + [e]
      ensures ok <==> |old(seen)| != failAt
    {
      ok := |seen| != failAt;
      seen := seen + [e];
    }
  }

  predicate Fails(out: seq<Emission>, failAt: int) {
    0 <= failAt < |out|
  }

  /** What the callback has seen when `out` was to be emitted: everything up to the call that fails. */
  function Cut(out: seq<Emission>, failAt: int): seq<Emission> {
    if Fails(out, failAt) then out[..failAt + 1] else out
  }

  method EmitText(d: Delta, sink: Sink) returns (ok: bool)
    requires !Fails(sink.seen, sink.failAt)
    modifies sink
    ensures sink.seen == Cut(old(sink.seen) + Texts(d), sink.failAt)
    ensures ok <==> !Fails(old(sink.seen) + Texts(d), sink.failAt)
  {
    ok := true;
    var hasReasoning := d.reasoningContent != "" || d.reasoning != "" || |d.details| > 0;
    if d.content != "" && !hasReasoning {
      ok := sink.Call(Text(d.content));
    }
  }

  method EmitThoughts(d: Delta, sink: Sink) returns (ok: bool)
    requires !Fails(sink.seen, sink.failAt)
    modifies sink
    ensures sink.seen == Cut(old(sink.seen) + Thoughts(d), sink.failAt)
    ensures ok <==> !Fails(old(sink.seen) + Thoughts(d), sink.failAt)
  {
    ok := true;
    if |d.details| > 0 {
      ok := EmitDetails(d.details, sink);
    } else if d.reasoningContent != "" {
      ok := sink.Call(Thinking(d.reasoningContent));
    } else if d.reasoning != "" {
      ok := sink.Call(Thinking(d.reasoning));
    }
  }

  lemma CutEarly(out: seq<Emission>, more: seq<Emission>, failAt: int)
    requires out <= more && Fails(out, failAt)
    ensures Cut(more, failAt) == Cut(out, failAt) && Fails(more, failAt)
  {
  }

  lemma {:induction false} DetailsGrow(details: seq<string>, i: nat)
    requires i <= |details|
    ensures Details(details[..i]) <= Details(details)
    decreases |details| - i
  {
    if i < |details| {
      DetailsGrow(details, i + 1);
      assert details[..i + 1][..i] == details[..i];
    } else {
      assert details[..i] == details;
    }
  }

  method EmitDetails(details: seq<string>, sink: Sink) returns (ok: bool)
    requires !Fails(sink.seen, sink.failAt)
    modifies sink
    ensures sink.seen == Cut(old(sink.seen) + Details(details), sink.failAt)
    ensures ok <==> !Fails(old(sink.seen) + Details(details), sink.failAt)
  {
    ghost var before := sink.seen;
    var i := 0;
    while i < |details|
      invariant 0 <= i <= |details|
      invariant sink.seen == before + Details(details[..i])
      invariant !Fails(sink.seen, sink.failAt)
    {
      assert details[..i + 1][..i] == details[..i];
      if details[i] != "" {
        ok := sink.Call(Thinking(details[i]));
        assert sink.seen == before + Details(details[..i + 1]);
        if !ok {
          DetailsGrow(details, i + 1);
          CutEarly(sink.seen, before + Details(details), sink.failAt);
          return;
        }
      }
      i := i + 1;
    }
    assert details[..i] == details;
    ok := true;
  }

  /** One fragment: the call's record, its start when it first has an identity, its arguments. */
  method EmitTool(s: State, choice: int, f: Fragment, sink: Sink) returns (ok: bool, calls: map<Key, Call>)
    requires sink.seen == s.out && !Fails(sink.seen, sink.failAt)
    modifies sink
    ensures sink.seen == Cut(Tool(s, choice, f).out, sink.failAt)
    ensures ok <==> !Fails(Tool(s, choice, f).out, sink.failAt)
    ensures calls == Tool(s, choice, f).calls
  {
    var key := (choice, f.index);
    var state := Call("", "", false);
    if key in s.calls {
      state := s.calls[key];
    }
    if f.id != "" {
      state := state.(id := f.id);
    }
    if f.name != "" {
      state := state.(name := f.name);
    }
    ok := true;
    ghost var call := state;
    assert call == Identify(CallOf(s.calls, key), f);
    var starting := !state.started && (state.id != "" || state.name != "");
    if starting {
      state := state.(started := true);
    }
    calls := s.calls[key := state];
    ghost var whole := s.out + Starts(key, call) + Arguments(key, call, f);
    assert Tool(s, choice, f).out == whole && Tool(s, choice, f).calls == calls;
    hide Tool;
    if starting {
      ok := sink.Call(ToolStart(key, state.id, state.name));
      if !ok {
        CutEarly(sink.seen, whole, sink.failAt);
        return;
      }
    }
    assert sink.seen == s.out + Starts(key, call);
    if f.arguments != "" {
      ok := sink.Call(ToolArgs(key, state.id, state.name, f.arguments));
    }
  }

  lemma {:induction false} ToolsGrow(s: State, choice: int, fs: seq<Fragment>, i: nat)
    requires i <= |fs|
    ensures Tools(s, choice, fs[..i]).out <= Tools(s, choice, fs).out
    decreases |fs| - i
  {
    hide Tool;
    if i < |fs| {
      ToolsGrow(s, choice, fs, i + 1);
      assert fs[..i + 1][..i] == fs[..i];
      ToolGrows(Tools(s, choice, fs[..i]), choice, fs[i]);
    } else {
      assert fs[..i] == fs;
    }
  }

  lemma ToolGrows(s: State, choice: int, f: Fragment)
    ensures s.out <= Tool(s, choice, f).out
  {
  }

  method EmitTools(s: State, choice: int, fs: seq<Fragment>, sink: Sink) returns (ok: bool, calls: map<Key, Call>)
    requires sink.seen == s.out && !Fails(sink.seen, sink.failAt)
    modifies sink
    ensures sink.seen == Cut(Tools(s, choice, fs).out, sink.failAt)
    ensures ok <==> !Fails(Tools(s, choice, fs).out, sink.failAt)
    ensures ok ==> calls == Tools(s, choice, fs).calls
  {
    hide Tool, Cut, Fails;
    var t := s;
    CutNothing(s.out, sink.failAt);
    var i := 0;
    while i < |fs|
      invariant 0 <= i <= |fs|
      invariant t == Tools(s, choice, fs[..i])
      invariant sink.seen == t.out && !Fails(sink.seen, sink.failAt)
    {
      assert fs[..i + 1][..i] == fs[..i];
      ghost var next := Tool(t, choice, fs[i]);
      ToolKeeps(t, choice, fs[i]);
      ok, calls := EmitTool(t, choice, fs[i], sink);
      if !ok {
        ToolsGrow(s, choice, fs, i + 1);
        CutEarly(next.out, Tools(s, choice, fs).out, sink.failAt);
        return;
      }
      CutNothing(next.out, sink.failAt);
      t := t.(calls := calls, out := sink.seen);
      i := i + 1;
    }
    assert fs[..i] == fs;
    CutNothing(t.out, sink.failAt);
    ok, calls := true, t.calls;
  }

  lemma CutNothing(out: seq<Emission>, failAt: int)
    ensures !Fails(out, failAt) ==> Cut(out, failAt) == out
  {
  }

  lemma ToolKeeps(s: State, choice: int, f: Fragment)
    ensures var t := Tool(s, choice, f); t == s.(calls := t.calls, out := t.out)
  {
  }

  datatype Result = Ok | Cancelled | CallbackFailed | ContextExceeded | ReadFailed

  /** How a run ends: the first thing that goes wrong decides. */
  function Ended(s: State, failAt: int, cancelled: bool, readFails: bool): Result {
    if Fails(s.out, failAt) then CallbackFailed
    else
      match s.end
      case Finished => Ok
      case Exceeded => ContextExceeded
      case Open => if cancelled then Cancelled else if readFails then ReadFailed else Ok
  }

  /** One data chunk with choices, before any stop. */
  method EmitChunk(s: State, chunk: Chunk, reasons: Reasons, sink: Sink) returns (ok: bool, t: State)
    requires chunk.choices != [] && !s.stopped && s.end.Open?
    requires sink.seen == s.out && !Fails(sink.seen, sink.failAt)
    modifies sink
    ensures var next := Step(s, Data(chunk), reasons);
            sink.seen == Cut(next.out, sink.failAt)
            && (ok <==> !Fails(next.out, sink.failAt)) && (ok ==> t == next)
  {
    hide Tools, Texts, Thoughts, Cut, Fails;
    var choice := chunk.choices[0];
    var d := choice.delta;
    ghost var next, u := Step(s, Data(chunk), reasons), Deltas(s, choice);
    ghost var first := s.out + Texts(d);
    ghost var second := first + Thoughts(d);
    t := s;
    FinishGrows(u, choice.finish, chunk.usage, reasons);
    C.ToolsOut(s.(out := second), choice.index, d.tools);
    assert first <= second <= u.out <= next.out;
    ok := EmitText(d, sink);
    if !ok {
      CutEarly(first, next.out, sink.failAt);
      return;
    }
    CutNothing(first, sink.failAt);
    ok := EmitThoughts(d, sink);
    if !ok {
      CutEarly(second, next.out, sink.failAt);
      return;
    }
    CutNothing(second, sink.failAt);
    t := s.(out := sink.seen);
    var calls;
    ok, calls := EmitTools(t, choice.index, d.tools, sink);
    if !ok {
      CutEarly(u.out, next.out, sink.failAt);
      return;
    }
    CutNothing(u.out, sink.failAt);
    ToolsKeep(t, choice.index, d.tools);
    t := t.(calls := calls, out := sink.seen);
    if choice.finish.Some? {
      var fr := reasons.rename(choice.finish.value);
      if reasons.exceeded(fr) {
        t := t.(end := Exceeded);
      } else {
        var stopUsage := chunk.usage;
        if stopUsage.None? {
          stopUsage := t.usage;
        }
        ok := sink.Call(Stop(fr, stopUsage));
        CallOutcome(u.out, Stop(fr, stopUsage), sink.failAt);
        t := t.(out := sink.seen, stopped := true);
      }
    }
    CutNothing(next.out, sink.failAt);
  }

  lemma CallOutcome(out: seq<Emission>, e: Emission, failAt: int)
    requires !Fails(out, failAt)
    ensures Cut(out + [e], failAt) == out + [e]
    ensures Fails(out + [e], failAt) <==> |out| == failAt
  {
  }

  lemma FinishGrows(s: State, finish: Option<string>, usage: Option<int>, reasons: Reasons)
    ensures s.out <= Finish(s, finish, usage, reasons).out
  {
  }

  lemma {:induction false} ToolsKeep(s: State, choice: int, fs: seq<Fragment>)
    ensures var t := Tools(s, choice, fs); t == s.(calls := t.calls, out := t.out)
    decreases |fs|
  {
    if fs != [] {
      ToolsKeep(s, choice, fs[..|fs| - 1]);
    }
  }

  /**
   * Reads lines until the end marker, a failing call, a cancelled context or the end of the input.
   * The callback sees the automaton's output on the lines read, cut after the call that fails.
   */
  method Parse(lines: seq<Line>, reasons: Reasons, cancelAt: nat, readFails: bool, sink: Sink) returns (result: Result)
    requires sink.seen == []
    modifies sink
    ensures var s := Run(Start, lines[..Min(cancelAt, |lines|)], reasons);
            sink.seen == Cut(s.out, sink.failAt)
            && result == Ended(s, sink.failAt, cancelAt < |lines|, readFails)
    ensures var read := lines[..Min(cancelAt, |lines|)];
            result == if Fails(Run(Start, read, reasons).out, sink.failAt) then CallbackFailed
                      else if E.Overflows(read, reasons) then ContextExceeded
                      else if E.HasDone(read) then Ok
                      else if cancelAt < |lines| then Cancelled
                      else if readFails then ReadFailed
                      else Ok
  {
    EndedAsRead(lines[..Min(cancelAt, |lines|)], reasons, sink.failAt, cancelAt < |lines|, readFails);
    hide Step, Cut, Fails, Ended, E.Overflows, E.HasDone;
    ghost var n := Min(cancelAt, |lines|);
    var s := Start;
    NothingFails(sink.failAt);
    EndedNow(Run(Start, lines[..n], reasons), sink.failAt, cancelAt < |lines|, readFails);
    assert lines[..0] == [];
    var i := 0;
    while i < |lines|
      invariant 0 <= i <= n
      invariant s == Run(Start, lines[..i], reasons)
      invariant sink.seen == s.out && !Fails(sink.seen, sink.failAt) && s.end.Open?
      decreases |lines| - i
    {
      if i == cancelAt {
        CutNothing(s.out, sink.failAt);
        return Cancelled;
      }
      assert lines[..i + 1][..i] == lines[..i];
      ghost var next := Step(s, lines[i], reasons);
      StepCases(s, lines[i], reasons);
      Stays(lines[..n], i + 1, reasons);
      C.RunGrows(lines[..n], i + 1, reasons);
      assert lines[..n][..i + 1] == lines[..i + 1];
      match lines[i] {
        case Ignored =>
        case Malformed =>
        case Done =>
          var ok := sink.Call(Complete(s.usage));
          CallOutcome(s.out, Complete(s.usage), sink.failAt);
          return if ok then Ok else CallbackFailed;
        case Data(chunk) =>
          if |chunk.choices| == 0 {
            if chunk.usage.Some? {
              s := s.(usage := chunk.usage);
            }
          } else if !s.stopped {
            var ok, t := EmitChunk(s, chunk, reasons, sink);
            if !ok {
              CutEarly(next.out, Run(Start, lines[..n], reasons).out, sink.failAt);
              return CallbackFailed;
            }
            CutNothing(next.out, sink.failAt);
            s := t;
            if s.end.Exceeded? {
              return ContextExceeded;
            }
          }
      }
      i := i + 1;
    }
    assert lines[..i] == lines;
    CutNothing(s.out, sink.failAt);
    return if readFails then ReadFailed else Ok;
  }

  /** The result, read off the lines: what decides the stream, then an end marker, then how reading ended. */
  lemma EndedAsRead(read: seq<Line>, reasons: Reasons, failAt: int, cancelled: bool, readFails: bool)
    ensures Ended(Run(Start, read, reasons), failAt, cancelled, readFails)
         == if Fails(Run(Start, read, reasons).out, failAt) then CallbackFailed
            else if E.Overflows(read, reasons) then ContextExceeded
            else if E.HasDone(read) then Ok
            else if cancelled then Cancelled
            else if readFails then ReadFailed
            else Ok
  {
    E.RunEnds(read, reasons);
    hide Run, Fails, E.Overflows, E.HasDone, E.FinishesWell;
  }

  lemma EndedNow(s: State, failAt: int, cancelled: bool, readFails: bool)
    ensures Ended(s, failAt, cancelled, readFails)
         == if Fails(s.out, failAt) then CallbackFailed
            else if s.end.Finished? then Ok
            else if s.end.Exceeded? then ContextExceeded
            else if cancelled then Cancelled
            else if readFails then ReadFailed
            else Ok
  {
  }

  lemma NothingFails(failAt: int)
    ensures !Fails([], failAt)
  {
  }

  lemma StepCases(s: State, line: Line, reasons: Reasons)
    requires s.end.Open?
    ensures line.Ignored? || line.Malformed? ==> Step(s, line, reasons) == s
    ensures line.Done? ==> Step(s, line, reasons) == s.(out := s.out + [Complete(s.usage)], end := Finished)
    ensures line.Data? && line.chunk.choices == [] ==>
              Step(s, line, reasons) == s.(usage := if line.chunk.usage.None? then s.usage else line.chunk.usage)
    ensures line.Data? && line.chunk.choices != [] ==>
              !Step(s, line, reasons).end.Finished? && (s.stopped ==> Step(s, line, reasons) == s)
  {
    if line.Data? && line.chunk.choices != [] {
      C.DeltasKeepsRest(s, line.chunk.choices[0]);
    }
  }

  /** Once ended, further lines change nothing. */
  lemma {:induction false} Stays(lines: seq<Line>, i: nat, reasons: Reasons)
    requires i <= |lines|
    ensures Run(Start, lines[..i], reasons).end != Open ==>
              Run(Start, lines, reasons) == Run(Start, lines[..i], reasons)
    decreases |lines|
  {
    if i < |lines| {
      Stays(lines[..|lines| - 1], i, reasons);
      assert lines[..|lines| - 1][..i] == lines[..i];
    } else {
      assert lines[..i] == lines;
    }
  }

  /** What the callback sees is disciplined in every run, however it ends. */
  lemma SeenIsDisciplined(lines: seq<Line>, reasons: Reasons, failAt: int)
    ensures Disciplined(Cut(Run(Start, lines, reasons).out, failAt))
  {
    RunSound(lines, reasons);
    var out := Run(Start, lines, reasons).out;
    DisciplinedPrefix(out, if Fails(out, failAt) then failAt + 1 else |out|);
    assert out[..|out|] == out;
  }
}
