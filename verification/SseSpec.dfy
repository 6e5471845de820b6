/** The provider stream automaton as a fold over parsed lines, and what every stream it emits looks like. */
module SseSpec {
  import opened Common

  type Key = (int, int)  // choice index, tool index

  datatype Fragment = Fragment(index: int, id: string, name: string, arguments: string)

  /** `content` is the text extracted from the chunk's content field, "" when there is none. */
  datatype Delta = Delta(
    content: string, reasoningContent: string, reasoning: string, details: seq<string>, tools: seq<Fragment>)

  datatype Choice = Choice(index: int, delta: Delta, finish: Option<string>)

  datatype Chunk = Chunk(choices: seq<Choice>, usage: Option<int>)

  datatype Line = Ignored | Malformed | Done | Data(chunk: Chunk)

  /** What the callback is given. A tool emission's `key.1` is the chunk's index field. */
  datatype Emission =
    | Text(text: string)
    | Thinking(text: string)
    | ToolStart(key: Key, id: string, name: string)
    | ToolArgs(key: Key, id: string, name: string, arguments: string)
    | Stop(reason: string, usage: Option<int>)
    | Complete(usage: Option<int>)

  datatype Call = Call(id: string, name: string, started: bool)

  datatype End = Open | Finished | Exceeded

  datatype State = State(
    calls: map<Key, Call>, usage: Option<int>, stopped: bool, out: seq<Emission>, end: End)

  const Start := State(map[], None, false, [], Open)

  /** How a provider names finish reasons, and which of them mean the context window is full. */
  datatype Reasons = Reasons(rename: string -> string, exceeded: string -> bool)

  function CallOf(calls: map<Key, Call>, key: Key): Call {
    if key in calls then calls[key] else Call("", "", false)
  }

  function HasReasoning(d: Delta): bool {
    d.reasoningContent != "" || d.reasoning != "" || d.details != []
  }

  function Texts(d: Delta): seq<Emission> {
    if d.content != "" && !HasReasoning(d) then [Text(d.content)] else []
  }

  function Details(details: seq<string>): seq<Emission> {
    if details == [] then []
    else Details(details[..|details| - 1])
         + (if details[|details| - 1] == "" then [] else [Thinking(details[|details| - 1])])
  }

  function Thoughts(d: Delta): seq<Emission> {
    if d.details != [] then Details(d.details)
    else if d.reasoningContent != "" then [Thinking(d.reasoningContent)]
    else if d.reasoning != "" then [Thinking(d.reasoning)]
    else []
  }

  function Identify(call: Call, f: Fragment): Call {
    call.(id := if f.id != "" then f.id else call.id, name := if f.name != "" then f.name else call.name)
  }

  predicate Named(call: Call) {
    call.id != "" || call.name != ""
  }

  function Starts(key: Key, call: Call): seq<Emission> {
    if !call.started && Named(call) then [ToolStart(key, call.id, call.name)] else []
  }

  function Arguments(key: Key, call: Call, f: Fragment): seq<Emission> {
    if f.arguments != "" then [ToolArgs(key, call.id, call.name, f.arguments)] else []
  }

  /** One tool-call fragment. */
  function Tool(s: State, choice: int, f: Fragment): State {
    var key := (choice, f.index);
    var call := Identify(CallOf(s.calls, key), f);
    s.(calls := s.calls[key := call.(started := call.started || Named(call))],
       out := s.out + Starts(key, call) + Arguments(key, call, f))
  }

  function Tools(s: State, choice: int, fs: seq<Fragment>): State {
    if fs == [] then s else Tool(Tools(s, choice, fs[..|fs| - 1]), choice, fs[|fs| - 1])
  }

  /** The end of a chunk: a finish reason stops the stream, or fails it when the context is exceeded. */
  function Finish(s: State, finish: Option<string>, usage: Option<int>, reasons: Reasons): State {
    match finish
    case None => s
    case Some(raw) =>
      var reason := reasons.rename(raw);
      if reasons.exceeded(reason) then s.(end := Exceeded)
      else s.(stopped := true, out := s.out + [Stop(reason, if usage.None? then s.usage else usage)])
  }

  function Deltas(s: State, c: Choice): State {
    Tools(s.(out := s.out + Texts(c.delta) + Thoughts(c.delta)), c.index, c.delta.tools)
  }

  function Step(s: State, line: Line, reasons: Reasons): State {
    if s.end != Open then s
    else
      match line
      case Ignored => s
      case Malformed => s
      case Done => s.(out := s.out + [Complete(s.usage)], end := Finished)
      case Data(chunk) =>
        if chunk.choices == [] then s.(usage := if chunk.usage.None? then s.usage else chunk.usage)
        else if s.stopped then s
        else Finish(Deltas(s, chunk.choices[0]), chunk.choices[0].finish, chunk.usage, reasons)
  }

  function Run(s: State, lines: seq<Line>, reasons: Reasons): State {
    if lines == [] then s else Step(Run(s, lines[..|lines| - 1], reasons), lines[|lines| - 1], reasons)
  }

  // ---- the shape of every stream ----

  /** Only a complete may follow a stop, and nothing follows a complete. */
  ghost predicate Shaped(out: seq<Emission>) {
    forall i, j :: 0 <= i < j < |out| ==> MayFollow(out[i], out[j])
  }

  predicate MayFollow(first: Emission, later: Emission) {
    !first.Complete? && (first.Stop? ==> later.Complete?)
  }

  ghost predicate StartOf(out: seq<Emission>, i: int, key: Key) {
    0 <= i < |out| && out[i].ToolStart? && out[i].key == key
  }

  /** A call starts at most once. */
  ghost predicate StartedOnce(out: seq<Emission>) {
    forall i, j, key :: i < j && StartOf(out, i, key) ==> !StartOf(out, j, key)
  }

  /** Arguments that carry an id or a name come after their call's start; a start carries one itself. */
  ghost predicate StartedFirst(out: seq<Emission>) {
    forall i :: 0 <= i < |out| ==> StartedBefore(out, i)
  }

  ghost predicate StartedBefore(out: seq<Emission>, i: nat)
    requires i < |out|
  {
    (out[i].ToolArgs? && (out[i].id != "" || out[i].name != "") ==> exists j :: j < i && StartOf(out, j, out[i].key))
    && (out[i].ToolStart? ==> out[i].id != "" || out[i].name != "")
  }

  ghost predicate Disciplined(out: seq<Emission>) {
    Shaped(out) && StartedOnce(out) && StartedFirst(out)
  }

  ghost predicate Tracked(calls: map<Key, Call>, out: seq<Emission>) {
    (forall key :: key in calls ==> CallTracked(calls[key], key, out))
    && (forall i, key :: StartOf(out, i, key) ==> key in calls)
  }

  ghost predicate CallTracked(call: Call, key: Key, out: seq<Emission>) {
    (Named(call) ==> call.started) && (call.started <==> exists i :: StartOf(out, i, key))
  }

  ghost predicate Sound(s: State) {
    Disciplined(s.out) && Tracked(s.calls, s.out)
    && (s.stopped <==> exists i :: 0 <= i < |s.out| && s.out[i].Stop?)
    && (s.end.Finished? <==> exists i :: 0 <= i < |s.out| && s.out[i].Complete?)
  }

  ghost predicate Live(s: State) {
    Sound(s) && !s.stopped && s.end.Open?
  }

  lemma StartOfSnoc(out: seq<Emission>, e: Emission)
    ensures forall i, key :: StartOf(out + [e], i, key)
              <==> StartOf(out, i, key) || (i == |out| && e.ToolStart? && e.key == key)
  {
  }

  lemma ShapedSnoc(out: seq<Emission>, e: Emission)
    requires Shaped(out) && forall i :: 0 <= i < |out| ==> !out[i].Complete? && (out[i].Stop? ==> e.Complete?)
    ensures Shaped(out + [e])
  {
  }

  /** One more emission keeps the tool discipline when its own obligations hold. */
  lemma DisciplinedSnoc(out: seq<Emission>, e: Emission)
    requires Disciplined(out) && Shaped(out + [e])
    requires e.ToolStart? ==> (e.id != "" || e.name != "") && forall i :: !StartOf(out, i, e.key)
    requires e.ToolArgs? && (e.id != "" || e.name != "") ==> exists i :: StartOf(out, i, e.key)
    ensures Disciplined(out + [e])
  {
    StartOfSnoc(out, e);
    var longer := out + [e];
    assert StartedOnce(longer);
    forall i | 0 <= i < |longer| ensures StartedBefore(longer, i) {
      if i < |out| {
        assert StartedBefore(out, i) && longer[i] == out[i];
        if out[i].ToolArgs? && (out[i].id != "" || out[i].name != "") {
          var j :| j < i && StartOf(out, j, out[i].key);
          assert StartOf(longer, j, longer[i].key);
        }
      } else if e.ToolArgs? && (e.id != "" || e.name != "") {
        var j :| StartOf(out, j, e.key);
        assert StartOf(longer, j, longer[i].key);
      }
    }
  }

  lemma AppendDelta(s: State, e: Emission)
    requires Live(s) && (e.Text? || e.Thinking?)
    ensures Live(s.(out := s.out + [e]))
  {
    ShapedSnoc(s.out, e);
    DisciplinedSnoc(s.out, e);
    StartOfSnoc(s.out, e);
    SameKinds(s.out, e);
    TrackedSnoc(s.calls, s.out, e);
  }

  /** An emission that is neither a start, a stop nor a complete adds none of these. */
  lemma SameKinds(out: seq<Emission>, e: Emission)
    requires !e.Stop? && !e.Complete?
    ensures (exists i :: 0 <= i < |out + [e]| && (out + [e])[i].Stop?) <==> (exists i :: 0 <= i < |out| && out[i].Stop?)
    ensures (exists i :: 0 <= i < |out + [e]| && (out + [e])[i].Complete?)
       <==> (exists i :: 0 <= i < |out| && out[i].Complete?)
  {
    var longer := out + [e];
    assert forall i :: 0 <= i < |out| ==> longer[i] == out[i];
    assert longer[|out|] == e;
    if i :| 0 <= i < |out| && out[i].Stop? {
      assert longer[i].Stop?;
    }
    if i :| 0 <= i < |out| && out[i].Complete? {
      assert longer[i].Complete?;
    }
  }

  lemma TrackedSnoc(calls: map<Key, Call>, out: seq<Emission>, e: Emission)
    requires Tracked(calls, out) && !e.ToolStart?
    ensures Tracked(calls, out + [e])
  {
    StartOfSnoc(out, e);
    forall key | key in calls ensures CallTracked(calls[key], key, out + [e]) {
      assert CallTracked(calls[key], key, out);
    }
  }

  lemma {:induction false} AppendDeltas(s: State, es: seq<Emission>)
    requires Live(s) && forall e :: e in es ==> e.Text? || e.Thinking?
    ensures Live(s.(out := s.out + es))
    decreases |es|
  {
    hide Live;
    if es == [] {
      assert s.out + es == s.out;
    } else {
      AppendDeltas(s, es[..|es| - 1]);
      AppendDelta(s.(out := s.out + es[..|es| - 1]), es[|es| - 1]);
      assert s.out + es[..|es| - 1] + [es[|es| - 1]] == s.out + es;
    }
  }

  lemma AppendStart(s: State, key: Key, call: Call)
    requires Live(s) && !CallOf(s.calls, key).started && Named(call)
    ensures Live(s.(calls := s.calls[key := call.(started := true)],
                    out := s.out + [ToolStart(key, call.id, call.name)]))
  {
    var e := ToolStart(key, call.id, call.name);
    var calls, out := s.calls[key := call.(started := true)], s.out + [e];
    assert key in s.calls ==> CallTracked(s.calls[key], key, s.out);
    ShapedSnoc(s.out, e);
    DisciplinedSnoc(s.out, e);
    StartOfSnoc(s.out, e);
    SameKinds(s.out, e);
    assert StartOf(out, |s.out|, key);
    forall k | k in calls ensures CallTracked(calls[k], k, out) {
      if k != key {
        assert CallTracked(s.calls[k], k, s.out);
      }
    }
  }

  lemma AppendArguments(s: State, key: Key, f: Fragment)
    requires Live(s) && key in s.calls
    ensures Live(s.(out := s.out + Arguments(key, s.calls[key], f)))
  {
    if f.arguments == "" {
      assert s.out + [] == s.out;
    } else {
      var e := ToolArgs(key, s.calls[key].id, s.calls[key].name, f.arguments);
      assert CallTracked(s.calls[key], key, s.out);
      ShapedSnoc(s.out, e);
      DisciplinedSnoc(s.out, e);
      SameKinds(s.out, e);
      TrackedSnoc(s.calls, s.out, e);
    }
  }

  /** Renaming a call that has started, or leaving it unnamed, keeps the table right. */
  lemma UpdateCall(s: State, key: Key, call: Call)
    requires Live(s) && call.started == CallOf(s.calls, key).started
    requires Named(call) ==> call.started
    ensures Live(s.(calls := s.calls[key := call]))
  {
    var calls := s.calls[key := call];
    forall k | k in calls ensures CallTracked(calls[k], k, s.out) {
      if k in s.calls {
        assert CallTracked(s.calls[k], k, s.out);
      }
    }
  }

  lemma ToolSound(s: State, choice: int, f: Fragment)
    requires Live(s)
    ensures Live(Tool(s, choice, f))
  {
    hide Live;
    var key := (choice, f.index);
    var call := Identify(CallOf(s.calls, key), f);
    var t: State;
    if !call.started && Named(call) {
      AppendStart(s, key, call);
      t := s.(calls := s.calls[key := call.(started := true)], out := s.out + [ToolStart(key, call.id, call.name)]);
    } else {
      StillStarted(s, key, f);
      UpdateCall(s, key, call);
      t := s.(calls := s.calls[key := call]);
      assert s.out + [] == s.out;
    }
    AppendArguments(t, key, f);
  }

  lemma StillStarted(s: State, key: Key, f: Fragment)
    requires Live(s)
    ensures CallOf(s.calls, key).started == Identify(CallOf(s.calls, key), f).started
  {
  }

  lemma {:induction false} ToolsSound(s: State, choice: int, fs: seq<Fragment>)
    requires Live(s)
    ensures Live(Tools(s, choice, fs))
    decreases |fs|
  {
    hide Live;
    if fs != [] {
      ToolsSound(s, choice, fs[..|fs| - 1]);
      ToolSound(Tools(s, choice, fs[..|fs| - 1]), choice, fs[|fs| - 1]);
    }
  }

  lemma {:induction false} DetailsAreThoughts(details: seq<string>)
    ensures forall e :: e in Details(details) ==> e.Thinking?
    decreases |details|
  {
    if details != [] {
      DetailsAreThoughts(details[..|details| - 1]);
    }
  }

  lemma DeltasSound(s: State, c: Choice)
    requires Live(s)
    ensures Live(Deltas(s, c))
  {
    hide Live;
    DetailsAreThoughts(c.delta.details);
    AppendDeltas(s, Texts(c.delta) + Thoughts(c.delta));
    assert s.out + (Texts(c.delta) + Thoughts(c.delta)) == s.out + Texts(c.delta) + Thoughts(c.delta);
    ToolsSound(s.(out := s.out + Texts(c.delta) + Thoughts(c.delta)), c.index, c.delta.tools);
  }

  lemma AppendStop(s: State, e: Emission)
    requires Live(s) && e.Stop?
    ensures Sound(s.(stopped := true, out := s.out + [e]))
  {
    ShapedSnoc(s.out, e);
    DisciplinedSnoc(s.out, e);
    TrackedSnoc(s.calls, s.out, e);
    assert (s.out + [e])[|s.out|].Stop?;
  }

  lemma AppendComplete(s: State, e: Emission)
    requires Sound(s) && s.end.Open? && e.Complete?
    ensures Sound(s.(out := s.out + [e], end := Finished))
  {
    ShapedSnoc(s.out, e);
    DisciplinedSnoc(s.out, e);
    TrackedSnoc(s.calls, s.out, e);
    var longer := s.out + [e];
    assert longer[|s.out|].Complete?;
    if i :| 0 <= i < |s.out| && s.out[i].Stop? {
      assert longer[i].Stop?;
    }
  }

  lemma StepSound(s: State, line: Line, reasons: Reasons)
    requires Sound(s)
    ensures Sound(Step(s, line, reasons))
  {
    hide Disciplined, Tracked;
    if s.end.Open? {
      if line.Done? {
        AppendComplete(s, Complete(s.usage));
      } else if line.Data? && line.chunk.choices != [] && !s.stopped {
        var c := line.chunk.choices[0];
        DeltasSound(s, c);
        if c.finish.Some? && !reasons.exceeded(reasons.rename(c.finish.value)) {
          var t := Deltas(s, c);
          AppendStop(t, Stop(reasons.rename(c.finish.value), if line.chunk.usage.None? then t.usage else line.chunk.usage));
        }
      }
    }
  }

  /** Every stream the automaton emits keeps the discipline, whatever the lines. */
  lemma {:induction false} RunSound(lines: seq<Line>, reasons: Reasons)
    ensures Sound(Run(Start, lines, reasons))
    decreases |lines|
  {
    if lines != [] {
      RunSound(lines[..|lines| - 1], reasons);
      StepSound(Run(Start, lines[..|lines| - 1], reasons), lines[|lines| - 1], reasons);
    }
  }

  /** So does what is left of one when the callback fails. */
  lemma DisciplinedPrefix(out: seq<Emission>, n: nat)
    requires Disciplined(out) && n <= |out|
    ensures Disciplined(out[..n])
  {
    var cut := out[..n];
    assert forall i, key :: StartOf(cut, i, key) <==> StartOf(out, i, key) && i < n;
    forall i, j | 0 <= i < j < n ensures MayFollow(cut[i], cut[j]) {
      assert MayFollow(out[i], out[j]);
    }
    forall i, j, key | i < j && StartOf(cut, i, key) ensures !StartOf(cut, j, key) {
      assert StartOf(out, i, key);
      assert !StartOf(out, j, key);
    }
    forall i | 0 <= i < n ensures StartedBefore(cut, i) {
      assert StartedBefore(out, i) && cut[i] == out[i];
      if cut[i].ToolArgs? && (cut[i].id != "" || cut[i].name != "") {
        var j :| j < i && StartOf(out, j, out[i].key);
        assert StartOf(cut, j, cut[i].key);
      }
    }
  }
}
