/**
What the automaton emits against everything the provider sent up to the stop. Arguments of the
first choice always come out whole; text beside reasoning, a second source of thoughts and all
choices but the first do not, and `Conserved` says exactly when nothing is lost.
*/
module SseConservation {
  import opened Common
  import opened SseSpec

  // ---- what is kept ----

  /** A line after which nothing more is forwarded. */
  predicate Halts(line: Line) {
    line.Done? || (line.Data? && line.chunk.choices != [] && line.chunk.choices[0].finish.Some?)
  }

  ghost predicate Halted(lines: seq<Line>) {
    exists i :: 0 <= i < |lines| && Halts(lines[i])
  }

  /** The choices the provider sent up to and including the one that finishes. */
  ghost function LiveChoices(lines: seq<Line>): seq<Choice> {
    if lines == [] then []
    else
      var before, line := lines[..|lines| - 1], lines[|lines| - 1];
      LiveChoices(before)
      + if !Halted(before) && line.Data? && line.chunk.choices != [] then [line.chunk.choices[0]] else []
  }

  /** A kind of payload; the last collects arguments by the tool index that the emitted chunk carries. */
  datatype Slot = TextSlot | ThinkingSlot | ArgumentsSlot(key: Key) | IndexSlot(index: int)

  function Payload(e: Emission, slot: Slot): string {
    match slot
    case TextSlot => if e.Text? then e.text else ""
    case ThinkingSlot => if e.Thinking? then e.text else ""
    case ArgumentsSlot(key) => if e.ToolArgs? && e.key == key then e.arguments else ""
    case IndexSlot(index) => if e.ToolArgs? && e.key.1 == index then e.arguments else ""
  }

  function Payloads(out: seq<Emission>, slot: Slot): string {
    if out == [] then "" else Payloads(out[..|out| - 1], slot) + Payload(out[|out| - 1], slot)
  }

  function Joined(parts: seq<string>): string {
    if parts == [] then "" else Joined(parts[..|parts| - 1]) + parts[|parts| - 1]
  }

  function ArgumentsOf(fs: seq<Fragment>, index: int): string {
    if fs == [] then ""
    else ArgumentsOf(fs[..|fs| - 1], index) + if fs[|fs| - 1].index == index then fs[|fs| - 1].arguments else ""
  }

  /** The part of a choice that the code forwards. */
  function Kept(c: Choice, slot: Slot): string {
    match slot
    case TextSlot => if HasReasoning(c.delta) then "" else c.delta.content
    case ThinkingSlot =>
      if c.delta.details != [] then Joined(c.delta.details)
      else if c.delta.reasoningContent != "" then c.delta.reasoningContent
      else c.delta.reasoning
    case ArgumentsSlot(key) => if key.0 == c.index then ArgumentsOf(c.delta.tools, key.1) else ""
    case IndexSlot(index) => ArgumentsOf(c.delta.tools, index)
  }

  function AllKept(cs: seq<Choice>, slot: Slot): string {
    if cs == [] then "" else AllKept(cs[..|cs| - 1], slot) + Kept(cs[|cs| - 1], slot)
  }

  // ---- conservation ----

  lemma {:induction false} PayloadsConcat(a: seq<Emission>, b: seq<Emission>, slot: Slot)
    ensures Payloads(a + b, slot) == Payloads(a, slot) + Payloads(b, slot)
    decreases |b|
  {
    hide Payload;
    if b == [] {
      assert a + b == a;
    } else {
      var init, last := b[..|b| - 1], b[|b| - 1];
      assert (a + b)[..|a + b| - 1] == a + init && (a + b)[|a + b| - 1] == last;
      PayloadsConcat(a, init, slot);
      Associative(Payloads(a, slot), Payloads(init, slot), Payload(last, slot));
    }
  }

  lemma PayloadsOne(e: Emission, slot: Slot)
    ensures Payloads([e], slot) == Payload(e, slot) && Payloads([], slot) == ""
  {
    assert [e][..0] == [];
  }

  lemma {:induction false} DetailsPayload(details: seq<string>, slot: Slot)
    ensures Payloads(Details(details), slot) == if slot.ThinkingSlot? then Joined(details) else ""
    decreases |details|
  {
    if details != [] {
      var init, last := details[..|details| - 1], details[|details| - 1];
      DetailsPayload(init, slot);
      PayloadsOne(Thinking(last), slot);
      PayloadsConcat(Details(init), if last == "" then [] else [Thinking(last)], slot);
    }
  }

  /** Text and thoughts of one chunk. */
  lemma SpokenPayload(d: Delta, slot: Slot)
    ensures Payloads(Texts(d) + Thoughts(d), slot)
         == match slot
            case TextSlot => if HasReasoning(d) then "" else d.content
            case ThinkingSlot =>
              if d.details != [] then Joined(d.details)
              else if d.reasoningContent != "" then d.reasoningContent
              else d.reasoning
            case _ => ""
  {
    PayloadsConcat(Texts(d), Thoughts(d), slot);
    DetailsPayload(d.details, slot);
    PayloadsOne(Text(d.content), slot);
    PayloadsOne(Thinking(d.reasoningContent), slot);
    PayloadsOne(Thinking(d.reasoning), slot);
  }

  predicate Covers(slot: Slot, key: Key) {
    (slot.ArgumentsSlot? && slot.key == key) || (slot.IndexSlot? && slot.index == key.1)
  }

  function CoveredArguments(slot: Slot, choice: int, fs: seq<Fragment>): string {
    match slot
    case ArgumentsSlot(key) => if key.0 == choice then ArgumentsOf(fs, key.1) else ""
    case IndexSlot(index) => ArgumentsOf(fs, index)
    case _ => ""
  }

  lemma ToolPayload(s: State, choice: int, f: Fragment, slot: Slot)
    ensures Payloads(Tool(s, choice, f).out, slot)
         == Payloads(s.out, slot)
            + if Covers(slot, (choice, f.index)) then f.arguments else ""
  {
    hide Payloads, Identify;
    var key := (choice, f.index);
    var call := Identify(CallOf(s.calls, key), f);
    PayloadsConcat(s.out + Starts(key, call), Arguments(key, call, f), slot);
    PayloadsConcat(s.out, Starts(key, call), slot);
    PayloadsOne(ToolStart(key, call.id, call.name), slot);
    PayloadsOne(ToolArgs(key, call.id, call.name, f.arguments), slot);
  }

  lemma {:induction false} ToolsPayload(s: State, choice: int, fs: seq<Fragment>, slot: Slot)
    ensures Payloads(Tools(s, choice, fs).out, slot)
         == Payloads(s.out, slot)
            + CoveredArguments(slot, choice, fs)
    decreases |fs|
  {
    hide Payloads, Tool;
    if fs != [] {
      ToolsPayload(s, choice, fs[..|fs| - 1], slot);
      ToolPayload(Tools(s, choice, fs[..|fs| - 1]), choice, fs[|fs| - 1], slot);
    }
  }

  lemma DeltasPayload(s: State, c: Choice, slot: Slot)
    ensures Payloads(Deltas(s, c).out, slot) == Payloads(s.out, slot) + Kept(c, slot)
  {
    hide Payloads, Tools, Texts, Thoughts, Joined, ArgumentsOf;
    var spoken := Texts(c.delta) + Thoughts(c.delta);
    SpokenPayload(c.delta, slot);
    PayloadsConcat(s.out, spoken, slot);
    assert s.out + spoken == s.out + Texts(c.delta) + Thoughts(c.delta);
    ToolsPayload(s.(out := s.out + Texts(c.delta) + Thoughts(c.delta)), c.index, c.delta.tools, slot);
  }

  lemma {:induction false} ToolsKeepsRest(s: State, choice: int, fs: seq<Fragment>)
    ensures var t := Tools(s, choice, fs); t.stopped == s.stopped && t.end == s.end && t.usage == s.usage
    decreases |fs|
  {
    if fs != [] {
      ToolsKeepsRest(s, choice, fs[..|fs| - 1]);
    }
  }

  lemma StepPayload(s: State, line: Line, reasons: Reasons, slot: Slot)
    ensures Payloads(Step(s, line, reasons).out, slot)
         == Payloads(s.out, slot)
            + if s.end.Open? && !s.stopped && line.Data? && line.chunk.choices != []
              then Kept(line.chunk.choices[0], slot) else ""
    ensures var t := Step(s, line, reasons);
            (t.stopped || t.end != Open) <==> s.stopped || s.end != Open || Halts(line)
  {
    hide Payloads, Deltas, Kept;
    PayloadsOne(Complete(s.usage), slot);
    PayloadsConcat(s.out, [Complete(s.usage)], slot);
    if s.end.Open? && line.Data? && line.chunk.choices != [] {
      var c := line.chunk.choices[0];
      DeltasKeepsRest(s, c);
      DeltasPayload(s, c, slot);
      if c.finish.Some? {
        var e := Stop(reasons.rename(c.finish.value), if line.chunk.usage.None? then s.usage else line.chunk.usage);
        PayloadsOne(e, slot);
        PayloadsConcat(Deltas(s, c).out, [e], slot);
      }
    }
  }

  lemma DeltasKeepsRest(s: State, c: Choice)
    ensures var t := Deltas(s, c); t.stopped == s.stopped && t.end == s.end && t.usage == s.usage
  {
    ToolsKeepsRest(s.(out := s.out + Texts(c.delta) + Thoughts(c.delta)), c.index, c.delta.tools);
  }

  lemma HaltedSnoc(lines: seq<Line>)
    requires lines != []
    ensures Halted(lines) <==> Halted(lines[..|lines| - 1]) || Halts(lines[|lines| - 1])
  {
    if Halted(lines[..|lines| - 1]) {
      var i :| 0 <= i < |lines| - 1 && Halts(lines[..|lines| - 1][i]);
      assert Halts(lines[i]);
    }
    if Halted(lines) && !Halts(lines[|lines| - 1]) {
      var i :| 0 <= i < |lines| && Halts(lines[i]);
      assert Halts(lines[..|lines| - 1][i]);
    }
  }

  /** The output is, slot by slot, what the code keeps of the live choices. */
  lemma {:induction false} EmitsKept(lines: seq<Line>, reasons: Reasons, slot: Slot)
    ensures Payloads(Run(Start, lines, reasons).out, slot) == AllKept(LiveChoices(lines), slot)
    ensures var s := Run(Start, lines, reasons); (s.stopped || s.end != Open) <==> Halted(lines)
    decreases |lines|
  {
    hide Payloads, Step, Kept, Halted, Halts;
    if lines == [] {
      PayloadsOne(Complete(None), slot);
      NothingHalts();
    } else {
      var before, line := lines[..|lines| - 1], lines[|lines| - 1];
      EmitsKept(before, reasons, slot);
      StepPayload(Run(Start, before, reasons), line, reasons, slot);
      HaltedSnoc(lines);
      var cs := LiveChoices(before);
      if !Halted(before) && line.Data? && line.chunk.choices != [] {
        assert (cs + [line.chunk.choices[0]])[..|cs|] == cs;
      } else {
        assert cs + [] == cs;
      }
    }
  }

  lemma NothingHalts()
    ensures !Halted([])
  {
  }

  // ---- what is lost ----

  /** Everything of a choice that belongs in the slot, nothing held back. */
  function Sent(c: Choice, slot: Slot): string {
    match slot
    case TextSlot => c.delta.content
    case ThinkingSlot => Joined(c.delta.details) + c.delta.reasoningContent + c.delta.reasoning
    case ArgumentsSlot(key) => if key.0 == c.index then ArgumentsOf(c.delta.tools, key.1) else ""
    case IndexSlot(index) => ArgumentsOf(c.delta.tools, index)
  }

  function SentByAll(choices: seq<Choice>, slot: Slot): string {
    if choices == [] then "" else Sent(choices[0], slot) + SentByAll(choices[1..], slot)
  }

  /** All choices of every chunk up to and including the one that finishes. */
  ghost function LiveChunks(lines: seq<Line>): seq<seq<Choice>> {
    if lines == [] then []
    else
      var before, line := lines[..|lines| - 1], lines[|lines| - 1];
      LiveChunks(before)
      + if !Halted(before) && line.Data? && line.chunk.choices != [] then [line.chunk.choices] else []
  }

  function AllSent(chunks: seq<seq<Choice>>, slot: Slot): string {
    if chunks == [] then "" else AllSent(chunks[..|chunks| - 1], slot) + SentByAll(chunks[|chunks| - 1], slot)
  }

  /** The first choice of a chunk carries something that another of its fields pushes out. */
  predicate Drops(c: Choice, slot: Slot) {
    var d := c.delta;
    match slot
    case TextSlot => d.content != "" && HasReasoning(d)
    case ThinkingSlot =>
      if d.details != [] then d.reasoningContent != "" || d.reasoning != ""
      else d.reasoningContent != "" && d.reasoning != ""
    case _ => false
  }

  /** A choice that carries nothing for the slot. */
  predicate Silent(c: Choice, slot: Slot) {
    var d := c.delta;
    match slot
    case TextSlot => d.content == ""
    case ThinkingSlot => (forall i :: 0 <= i < |d.details| ==> d.details[i] == "") && d.reasoningContent == "" && d.reasoning == ""
    case ArgumentsSlot(key) => forall f :: f in d.tools && (c.index, f.index) == key ==> f.arguments == ""
    case IndexSlot(index) => forall f :: f in d.tools && f.index == index ==> f.arguments == ""
  }

  /** Nothing of the chunk is lost: its first choice drops nothing and the others have nothing to say. */
  predicate Whole(choices: seq<Choice>, slot: Slot) {
    choices != [] && !Drops(choices[0], slot) && forall k :: 0 < k < |choices| ==> Silent(choices[k], slot)
  }

  lemma {:induction false} JoinedSilent(parts: seq<string>)
    ensures Joined(parts) == "" <==> forall i :: 0 <= i < |parts| ==> parts[i] == ""
    decreases |parts|
  {
    if parts != [] {
      var n := |parts| - 1;
      JoinedSilent(parts[..n]);
      assert forall i :: 0 <= i < n ==> parts[..n][i] == parts[i];
      assert |Joined(parts)| == |Joined(parts[..n])| + |parts[n]|;
    }
  }

  lemma {:induction false} ArgumentsSilent(fs: seq<Fragment>, index: int)
    ensures ArgumentsOf(fs, index) == "" <==> forall f :: f in fs && f.index == index ==> f.arguments == ""
    decreases |fs|
  {
    if fs != [] {
      var init, last := fs[..|fs| - 1], fs[|fs| - 1];
      ArgumentsSilent(init, index);
      assert forall f :: f in fs <==> f in init || f == last;
    }
  }

  lemma SilentExactly(c: Choice, slot: Slot)
    ensures Silent(c, slot) <==> Sent(c, slot) == ""
  {
    JoinedSilent(c.delta.details);
    if slot.ArgumentsSlot? {
      ArgumentsSilent(c.delta.tools, slot.key.1);
    } else if slot.IndexSlot? {
      ArgumentsSilent(c.delta.tools, slot.index);
    }
  }

  /** A first choice comes out whole or strictly shorter. */
  lemma KeptOrDropped(c: Choice, slot: Slot)
    ensures if Drops(c, slot) then |Kept(c, slot)| < |Sent(c, slot)| else Kept(c, slot) == Sent(c, slot)
  {
    var d := c.delta;
    if slot.ThinkingSlot? && d.details == [] {
      assert Joined(d.details) == "";
      assert "" + d.reasoningContent + d.reasoning == d.reasoningContent + d.reasoning;
    } else if slot.ThinkingSlot? && !Drops(c, slot) {
      assert Joined(d.details) + "" + "" == Joined(d.details);
    }
  }

  lemma {:induction false} OthersSilent(choices: seq<Choice>, slot: Slot)
    ensures SentByAll(choices, slot) == "" <==> forall k :: 0 <= k < |choices| ==> Silent(choices[k], slot)
    decreases |choices|
  {
    hide Sent, Silent;
    if choices != [] {
      SilentExactly(choices[0], slot);
      OthersSilent(choices[1..], slot);
      assert forall k :: 0 < k < |choices| ==> choices[k] == choices[1..][k - 1];
      assert forall k :: 0 <= k < |choices| - 1 ==> choices[1..][k] == choices[k + 1];
    }
  }

  lemma ChunkKeptOrCut(choices: seq<Choice>, slot: Slot)
    requires choices != []
    ensures if Whole(choices, slot) then Kept(choices[0], slot) == SentByAll(choices, slot)
            else |Kept(choices[0], slot)| < |SentByAll(choices, slot)|
  {
    hide Kept, Sent, Drops, Silent;
    var c, rest := choices[0], choices[1..];
    KeptOrDropped(c, slot);
    OthersSilent(rest, slot);
    assert forall k :: 0 < k < |choices| ==> choices[k] == rest[k - 1];
    assert forall k :: 0 <= k < |rest| ==> rest[k] == choices[k + 1];
    assert SentByAll(choices, slot) == Sent(c, slot) + SentByAll(rest, slot);
    assert Sent(c, slot) + "" == Sent(c, slot);
  }

  lemma {:induction false} LiveFirsts(lines: seq<Line>)
    ensures |LiveChoices(lines)| == |LiveChunks(lines)|
    ensures forall i :: 0 <= i < |LiveChunks(lines)| ==>
              LiveChunks(lines)[i] != [] && LiveChoices(lines)[i] == LiveChunks(lines)[i][0]
    decreases |lines|
  {
    hide Halted;
    if lines != [] {
      LiveFirsts(lines[..|lines| - 1]);
    }
  }

  lemma {:induction false} KeptOrCut(chunks: seq<seq<Choice>>, firsts: seq<Choice>, slot: Slot)
    requires |firsts| == |chunks|
    requires forall i :: 0 <= i < |chunks| ==> chunks[i] != [] && firsts[i] == chunks[i][0]
    ensures if forall i :: 0 <= i < |chunks| ==> Whole(chunks[i], slot) then AllKept(firsts, slot) == AllSent(chunks, slot)
            else |AllKept(firsts, slot)| < |AllSent(chunks, slot)|
    decreases |chunks|
  {
    hide Whole, Kept, SentByAll;
    if chunks != [] {
      var n := |chunks| - 1;
      KeptOrCut(chunks[..n], firsts[..n], slot);
      ChunkKeptOrCut(chunks[n], slot);
      assert forall i :: 0 <= i < n ==> chunks[..n][i] == chunks[i];
    }
  }

  /**
  Text, thoughts and arguments come out exactly as the provider sent them, up to and including the
  finishing chunk, if and only if no first choice drops a field and no other choice has anything.
  */
  lemma Conserved(lines: seq<Line>, reasons: Reasons, slot: Slot)
    ensures Payloads(Run(Start, lines, reasons).out, slot) == AllSent(LiveChunks(lines), slot)
       <==> forall i :: 0 <= i < |LiveChunks(lines)| ==> Whole(LiveChunks(lines)[i], slot)
  {
    hide Payloads, AllKept, AllSent, Whole, LiveChunks, LiveChoices, Run, Halted;
    EmitsKept(lines, reasons, slot);
    LiveFirsts(lines);
    KeptOrCut(LiveChunks(lines), LiveChoices(lines), slot);
  }

  function Lossy(details: seq<string>): Chunk {
    Chunk([Choice(0, Delta("hello", "why", "", details, []), None)], None)
  }

  /** Text beside a thought is dropped. */
  lemma TextBesideThoughtIsLost(reasons: Reasons)
    ensures Run(Start, [Data(Lossy([]))], reasons).out == [Thinking("why")]
    ensures AllSent(LiveChunks([Data(Lossy([]))]), TextSlot) == "hello"
  {
    RunOne(Data(Lossy([])), reasons);
    OneLiveChunk(Lossy([]), TextSlot);
  }

  /** Beside one empty detail, text and thought are both dropped. */
  lemma EmptyDetailLosesAll(reasons: Reasons)
    ensures Run(Start, [Data(Lossy([""]))], reasons).out == []
    ensures AllSent(LiveChunks([Data(Lossy([""]))]), TextSlot) == "hello"
    ensures AllSent(LiveChunks([Data(Lossy([""]))]), ThinkingSlot) == "why"
  {
    var chunk := Lossy([""]);
    RunOne(Data(chunk), reasons);
    OneLiveChunk(chunk, TextSlot);
    OneLiveChunk(chunk, ThinkingSlot);
    EmptyDetail(chunk.choices[0].delta.details);
    hide Details, Joined, Run, LiveChunks, AllSent;
    var d := chunk.choices[0].delta;
    assert Texts(d) == [] && Thoughts(d) == [];
  }

  lemma EmptyDetail(details: seq<string>)
    requires details == [""]
    ensures Details(details) == [] && Joined(details) == ""
  {
    assert details[..0] == [];
  }

  lemma RunOne(line: Line, reasons: Reasons)
    ensures Run(Start, [line], reasons) == Step(Start, line, reasons)
  {
    assert [line][..0] == [];
  }

  lemma OneLiveChunk(chunk: Chunk, slot: Slot)
    requires |chunk.choices| == 1
    ensures AllSent(LiveChunks([Data(chunk)]), slot) == Sent(chunk.choices[0], slot)
  {
    var lines, sent := [Data(chunk)], Sent(chunk.choices[0], slot);
    NothingHalts();
    assert lines[..0] == [];
    assert LiveChunks(lines) == [] + [chunk.choices] == [chunk.choices];
    assert [chunk.choices][..0] == [];
    assert AllSent([chunk.choices], slot) == "" + SentByAll(chunk.choices, slot);
    assert chunk.choices[1..] == [];
    assert SentByAll(chunk.choices, slot) == sent + "" == sent;
  }

  // ---- whose arguments they are ----

  ghost predicate GivenId(cs: seq<Choice>, key: Key, id: string) {
    id == "" || exists c, f :: c in cs && f in c.delta.tools && (c.index, f.index) == key && f.id == id
  }

  ghost predicate GivenName(cs: seq<Choice>, key: Key, name: string) {
    name == "" || exists c, f :: c in cs && f in c.delta.tools && (c.index, f.index) == key && f.name == name
  }

  ghost predicate Attributed(cs: seq<Choice>, e: Emission) {
    e.ToolStart? || e.ToolArgs? ==> GivenId(cs, e.key, e.id) && GivenName(cs, e.key, e.name)
  }

  ghost predicate CallGiven(cs: seq<Choice>, key: Key, call: Call) {
    GivenId(cs, key, call.id) && GivenName(cs, key, call.name)
  }

  ghost predicate AllAttributed(cs: seq<Choice>, s: State) {
    (forall e :: e in s.out ==> Attributed(cs, e))
    && (forall key :: key in s.calls ==> CallGiven(cs, key, s.calls[key]))
  }

  lemma GivenGrows(cs: seq<Choice>, c: Choice, s: State)
    requires AllAttributed(cs, s)
    ensures AllAttributed(cs + [c], s)
  {
    forall key, id | GivenId(cs, key, id) ensures GivenId(cs + [c], key, id) {
      if id != "" {
        var d, f :| d in cs && f in d.delta.tools && (d.index, f.index) == key && f.id == id;
        assert d in cs + [c];
      }
    }
    forall key, name | GivenName(cs, key, name) ensures GivenName(cs + [c], key, name) {
      if name != "" {
        var d, f :| d in cs && f in d.delta.tools && (d.index, f.index) == key && f.name == name;
        assert d in cs + [c];
      }
    }
    hide GivenId, GivenName;
  }

  lemma ToolAttributed(cs: seq<Choice>, s: State, c: Choice, f: Fragment)
    requires AllAttributed(cs, s) && c in cs && f in c.delta.tools
    ensures AllAttributed(cs, Tool(s, c.index, f))
  {
    var key := (c.index, f.index);
    var call := Identify(CallOf(s.calls, key), f);
    IdentifyGiven(cs, s, c, f);
    hide GivenId, GivenName, Identify;
    var t := Tool(s, c.index, f);
    forall e | e in t.out ensures Attributed(cs, e) {
      assert e in s.out || e in Starts(key, call) || e in Arguments(key, call, f);
    }
  }

  lemma IdentifyGiven(cs: seq<Choice>, s: State, c: Choice, f: Fragment)
    requires AllAttributed(cs, s) && c in cs && f in c.delta.tools
    ensures CallGiven(cs, (c.index, f.index), Identify(CallOf(s.calls, (c.index, f.index)), f))
  {
    var key := (c.index, f.index);
    assert key in s.calls ==> CallGiven(cs, key, s.calls[key]);
    assert GivenId(cs, key, f.id) && GivenName(cs, key, f.name);
    assert GivenId(cs, key, "") && GivenName(cs, key, "");
    hide GivenId, GivenName;
  }

  lemma {:induction false} ToolsAttributed(cs: seq<Choice>, s: State, c: Choice, fs: seq<Fragment>)
    requires AllAttributed(cs, s) && c in cs && forall f :: f in fs ==> f in c.delta.tools
    ensures AllAttributed(cs, Tools(s, c.index, fs))
    decreases |fs|
  {
    hide AllAttributed;
    if fs != [] {
      ToolsAttributed(cs, s, c, fs[..|fs| - 1]);
      ToolAttributed(cs, Tools(s, c.index, fs[..|fs| - 1]), c, fs[|fs| - 1]);
    }
  }

  lemma DeltasAttributed(cs: seq<Choice>, s: State, c: Choice)
    requires AllAttributed(cs, s) && c in cs
    ensures AllAttributed(cs, Deltas(s, c))
  {
    hide GivenId, GivenName;
    var t := s.(out := s.out + Texts(c.delta) + Thoughts(c.delta));
    DetailsAreThoughts(c.delta.details);
    forall e | e in t.out ensures Attributed(cs, e) {
      assert e in s.out || e in Texts(c.delta) || e in Thoughts(c.delta);
    }
    ToolsAttributed(cs, t, c, c.delta.tools);
  }

  /** Ids and names on tool emissions were sent for that very call: calls are never mixed up. */
  lemma {:induction false} CallsKeptApart(lines: seq<Line>, reasons: Reasons)
    ensures AllAttributed(LiveChoices(lines), Run(Start, lines, reasons))
    decreases |lines|
  {
    if lines != [] {
      hide AllAttributed, Halted, Halts;
      var before, line := lines[..|lines| - 1], lines[|lines| - 1];
      CallsKeptApart(before, reasons);
      EmitsKept(before, reasons, TextSlot);
      var s, cs := Run(Start, before, reasons), LiveChoices(before);
      if !Halted(before) && line.Data? && line.chunk.choices != [] {
        var c := line.chunk.choices[0];
        GivenGrows(cs, c, s);
        DeltasAttributed(cs + [c], s, c);
        FinishAttributed(cs + [c], Deltas(s, c), c.finish, line.chunk.usage, reasons);
      } else {
        assert cs + [] == cs;
        CompleteAttributed(cs, s);
        UsageAttributed(cs, s);
      }
    }
  }

  lemma FinishAttributed(cs: seq<Choice>, s: State, finish: Option<string>, usage: Option<int>, reasons: Reasons)
    requires AllAttributed(cs, s)
    ensures AllAttributed(cs, Finish(s, finish, usage, reasons))
  {
    hide GivenId, GivenName;
  }

  lemma CompleteAttributed(cs: seq<Choice>, s: State)
    requires AllAttributed(cs, s)
    ensures AllAttributed(cs, s.(out := s.out + [Complete(s.usage)], end := Finished))
  {
    hide GivenId, GivenName;
  }

  lemma UsageAttributed(cs: seq<Choice>, s: State)
    requires AllAttributed(cs, s)
    ensures forall usage :: AllAttributed(cs, s.(usage := usage))
  {
    hide GivenId, GivenName;
  }

  // ---- starts, by the index that is emitted ----

  /** Some live choice gives the call an id or a name. */
  ghost predicate NamedIn(cs: seq<Choice>, key: Key) {
    exists c, f :: c in cs && f in c.delta.tools && NamedBy(c, f, key)
  }

  predicate NamedBy(c: Choice, f: Fragment, key: Key) {
    (c.index, f.index) == key && (f.id != "" || f.name != "")
  }

  ghost predicate AllNamed(cs: seq<Choice>, calls: map<Key, Call>) {
    forall key :: NamedIn(cs, key) ==> Named(CallOf(calls, key))
  }

  lemma {:induction false} ToolsNamed(cs: seq<Choice>, s: State, c: Choice, fs: seq<Fragment>)
    requires AllNamed(cs, s.calls)
    ensures AllNamed(cs, Tools(s, c.index, fs).calls)
    ensures forall f, key :: f in fs && NamedBy(c, f, key) ==> Named(CallOf(Tools(s, c.index, fs).calls, key))
    decreases |fs|
  {
    hide NamedIn;
    if fs != [] {
      var init, last := fs[..|fs| - 1], fs[|fs| - 1];
      ToolsNamed(cs, s, c, init);
      assert forall f :: f in fs <==> f in init || f == last;
    }
  }

  lemma {:induction false} RunNamed(lines: seq<Line>, reasons: Reasons)
    ensures AllNamed(LiveChoices(lines), Run(Start, lines, reasons).calls)
    decreases |lines|
  {
    if lines != [] {
      hide Halted, Halts, AllNamed, Step, Deltas;
      var before, line := lines[..|lines| - 1], lines[|lines| - 1];
      RunNamed(before, reasons);
      EmitsKept(before, reasons, TextSlot);
      var s, cs := Run(Start, before, reasons), LiveChoices(before);
      if !Halted(before) && line.Data? && line.chunk.choices != [] {
        var c := line.chunk.choices[0];
        DeltasNamed(cs, s, c);
        StepCalls(s, line, reasons);
      } else {
        assert cs + [] == cs;
        StepCalls(s, line, reasons);
      }
    }
  }

  lemma StepCalls(s: State, line: Line, reasons: Reasons)
    ensures Step(s, line, reasons).calls
         == if s.end.Open? && !s.stopped && line.Data? && line.chunk.choices != []
            then Deltas(s, line.chunk.choices[0]).calls else s.calls
  {
    hide Deltas;
  }

  lemma DeltasNamed(cs: seq<Choice>, s: State, c: Choice)
    requires AllNamed(cs, s.calls)
    ensures AllNamed(cs + [c], Deltas(s, c).calls)
  {
    hide NamedIn, NamedBy, Tools;
    ToolsNamed(cs, s.(out := s.out + Texts(c.delta) + Thoughts(c.delta)), c, c.delta.tools);
    NamedInSnoc(cs, c);
  }

  lemma NamedInSnoc(cs: seq<Choice>, c: Choice)
    ensures forall key :: NamedIn(cs + [c], key) ==>
              NamedIn(cs, key) || exists f :: f in c.delta.tools && NamedBy(c, f, key)
  {
    forall key | NamedIn(cs + [c], key)
      ensures NamedIn(cs, key) || exists f :: f in c.delta.tools && NamedBy(c, f, key)
    {
      var d, f :| d in cs + [c] && f in d.delta.tools && NamedBy(d, f, key);
      assert d in cs || d == c;
    }
  }

  ghost predicate EverStarts(out: seq<Emission>, key: Key) {
    exists i :: StartOf(out, i, key)
  }

  /** A call starts exactly if it is ever named before the stop. */
  lemma StartedExactly(lines: seq<Line>, reasons: Reasons, key: Key)
    ensures EverStarts(Run(Start, lines, reasons).out, key) <==> NamedIn(LiveChoices(lines), key)
  {
    var s, cs := Run(Start, lines, reasons), LiveChoices(lines);
    RunSound(lines, reasons);
    RunNamed(lines, reasons);
    CallsKeptApart(lines, reasons);
    hide Run, LiveChoices;
    if NamedIn(cs, key) {
      assert Named(CallOf(s.calls, key)) && key in s.calls;
      assert CallTracked(s.calls[key], key, s.out);
    }
    if i :| StartOf(s.out, i, key) {
      assert StartedBefore(s.out, i);
      assert s.out[i] in s.out && Attributed(cs, s.out[i]);
      GivenIsNamed(cs, key, s.out[i].id, s.out[i].name);
    }
  }

  lemma GivenIsNamed(cs: seq<Choice>, key: Key, id: string, name: string)
    requires GivenId(cs, key, id) && GivenName(cs, key, name) && (id != "" || name != "")
    ensures NamedIn(cs, key)
  {
    if id != "" {
      var c, f :| c in cs && f in c.delta.tools && (c.index, f.index) == key && f.id == id;
      assert NamedBy(c, f, key);
    } else {
      var c, f :| c in cs && f in c.delta.tools && (c.index, f.index) == key && f.name == name;
      assert NamedBy(c, f, key);
    }
  }

  ghost predicate IndexStart(out: seq<Emission>, i: int, index: int) {
    exists choice :: StartOf(out, i, (choice, index))
  }

  ghost predicate StartsOnce(out: seq<Emission>, index: int) {
    forall i, j :: i < j && IndexStart(out, i, index) ==> !IndexStart(out, j, index)
  }

  /** Only one choice index ever names a call under the tool index. */
  ghost predicate OneChoiceNames(cs: seq<Choice>, index: int) {
    forall a, b :: NamedIn(cs, (a, index)) && NamedIn(cs, (b, index)) ==> a == b
  }

  /** A tool index starts at most once if and only if only one choice index ever names a call under it. */
  lemma IndexStartsOnce(lines: seq<Line>, reasons: Reasons, index: int)
    ensures StartsOnce(Run(Start, lines, reasons).out, index) <==> OneChoiceNames(LiveChoices(lines), index)
  {
    var out, cs := Run(Start, lines, reasons).out, LiveChoices(lines);
    RunSound(lines, reasons);
    forall choice ensures EverStarts(out, (choice, index)) <==> NamedIn(cs, (choice, index)) {
      StartedExactly(lines, reasons, (choice, index));
    }
    hide Run, LiveChoices, NamedIn, Tracked, EverStarts, StartsOnce, IndexStart;
    if !StartsOnce(out, index) {
      var a, b := TwoStarts(out, index);
    } else {
      forall a, b | EverStarts(out, (a, index)) && EverStarts(out, (b, index)) ensures a == b {
        OnlyStart(out, index, a, b);
      }
    }
  }

  lemma OnlyStart(out: seq<Emission>, index: int, a: int, b: int)
    requires StartsOnce(out, index) && EverStarts(out, (a, index)) && EverStarts(out, (b, index))
    ensures a == b
  {
    var i :| StartOf(out, i, (a, index));
    var j :| StartOf(out, j, (b, index));
    assert IndexStart(out, i, index) && IndexStart(out, j, index);
    assert i == j;
  }

  lemma TwoStarts(out: seq<Emission>, index: int) returns (a: int, b: int)
    requires StartedOnce(out) && !StartsOnce(out, index)
    ensures a != b && EverStarts(out, (a, index)) && EverStarts(out, (b, index))
  {
    var i, j :| i < j && IndexStart(out, i, index) && IndexStart(out, j, index);
    a :| StartOf(out, i, (a, index));
    b :| StartOf(out, j, (b, index));
    assert StartOf(out, i, out[i].key);
    assert !StartOf(out, j, out[i].key);
    assert out[i].key == (a, index) && out[j].key == (b, index);
  }

  // ---- usage ----

  /** The latest usage reported by a chunk of its own, however late it comes. */
  function LastUsage(lines: seq<Line>): Option<int> {
    if lines == [] then None
    else
      var line := lines[|lines| - 1];
      if line.Data? && line.chunk.choices == [] && line.chunk.usage.Some? then line.chunk.usage
      else LastUsage(lines[..|lines| - 1])
  }

  lemma {:induction false} UsageIsLast(lines: seq<Line>, reasons: Reasons)
    ensures Run(Start, lines, reasons).end.Open? ==> Run(Start, lines, reasons).usage == LastUsage(lines)
    decreases |lines|
  {
    if lines != [] {
      var before, line := lines[..|lines| - 1], lines[|lines| - 1];
      UsageIsLast(before, reasons);
      if line.Data? && line.chunk.choices != [] {
        DeltasKeepsRest(Run(Start, before, reasons), line.chunk.choices[0]);
      }
    }
  }

  /** The complete event comes from the first end marker and carries the usage reported by then. */
  lemma {:induction false} CompleteCarriesUsage(lines: seq<Line>, reasons: Reasons) returns (n: nat)
    requires Run(Start, lines, reasons).end.Finished?
    ensures n < |lines| && lines[n].Done? && Run(Start, lines[..n], reasons).end.Open?
    ensures Run(Start, lines, reasons).out
         == Run(Start, lines[..n], reasons).out + [Complete(LastUsage(lines[..n]))]
    decreases |lines|
  {
    var before, line := lines[..|lines| - 1], lines[|lines| - 1];
    var s := Run(Start, before, reasons);
    if s.end.Open? {
      if line.Data? && line.chunk.choices != [] {
        DeltasKeepsRest(s, line.chunk.choices[0]);
      }
      UsageIsLast(before, reasons);
      n := |before|;
    } else {
      n := CompleteCarriesUsage(before, reasons);
      assert before[..n] == lines[..n];
    }
  }

  /** The stop event: its reason is not a context failure, and its usage is the chunk's own or the latest before it. */
  lemma {:induction false} StopIsGenuine(lines: seq<Line>, reasons: Reasons, i: nat)
    requires i < |Run(Start, lines, reasons).out| && Run(Start, lines, reasons).out[i].Stop?
    ensures var e := Run(Start, lines, reasons).out[i];
            !reasons.exceeded(e.reason)
            && exists n :: 0 <= n < |lines| && StopFrom(e, lines, n, reasons)
    decreases |lines|
  {
    hide Step, StopFrom;
    var before, line := lines[..|lines| - 1], lines[|lines| - 1];
    var s, t := Run(Start, before, reasons), Run(Start, lines, reasons);
    OutGrows(s, line, reasons);
    if i < |s.out| {
      StopIsGenuine(before, reasons, i);
      var n :| 0 <= n < |before| && StopFrom(s.out[i], before, n, reasons);
      StopFromLonger(t.out[i], lines, n, reasons);
    } else {
      UsageIsLast(before, reasons);
      NewStop(s, line, reasons, i);
      StopFromLast(t.out[i], lines, reasons);
    }
  }

  lemma StopFromLonger(e: Emission, lines: seq<Line>, n: nat, reasons: Reasons)
    requires n < |lines| - 1
    ensures StopFrom(e, lines[..|lines| - 1], n, reasons) ==> StopFrom(e, lines, n, reasons)
  {
    assert lines[..|lines| - 1][..n] == lines[..n];
  }

  predicate StopAfter(e: Emission, line: Line, usage: Option<int>, reasons: Reasons) {
    line.Data? && line.chunk.choices != [] && line.chunk.choices[0].finish.Some?
    && e == Stop(reasons.rename(line.chunk.choices[0].finish.value),
                 if line.chunk.usage.None? then usage else line.chunk.usage)
  }

  lemma StopFromLast(e: Emission, lines: seq<Line>, reasons: Reasons)
    requires lines != [] && StopAfter(e, lines[|lines| - 1], LastUsage(lines[..|lines| - 1]), reasons)
    ensures StopFrom(e, lines, |lines| - 1, reasons)
  {
  }

  lemma NewStop(s: State, line: Line, reasons: Reasons, i: nat)
    requires |s.out| <= i < |Step(s, line, reasons).out| && Step(s, line, reasons).out[i].Stop?
    ensures s.end.Open? && StopAfter(Step(s, line, reasons).out[i], line, s.usage, reasons)
    ensures !reasons.exceeded(Step(s, line, reasons).out[i].reason)
  {
    if line.Data? && line.chunk.choices != [] {
      var c := line.chunk.choices[0];
      DeltasKeepsRest(s, c);
      DeltasHaveNoStop(s, c);
      hide Deltas;
    }
  }

  predicate StopFrom(e: Emission, lines: seq<Line>, n: nat, reasons: Reasons)
    requires n < |lines|
  {
    StopAfter(e, lines[n], LastUsage(lines[..n]), reasons)
  }

  lemma {:induction false} ToolsOut(s: State, choice: int, fs: seq<Fragment>)
    ensures s.out <= Tools(s, choice, fs).out
    ensures forall e :: e in Tools(s, choice, fs).out[|s.out|..] ==> e.ToolStart? || e.ToolArgs?
    decreases |fs|
  {
    if fs != [] {
      ToolsOut(s, choice, fs[..|fs| - 1]);
    }
  }

  lemma DeltasHaveNoStop(s: State, c: Choice)
    ensures s.out <= Deltas(s, c).out
    ensures forall e :: e in Deltas(s, c).out[|s.out|..] ==> !e.Stop?
  {
    hide Texts, Thoughts;
    var spoken := Texts(c.delta) + Thoughts(c.delta);
    var t := s.(out := s.out + Texts(c.delta) + Thoughts(c.delta));
    SpokenIsNoStop(c.delta);
    ToolsOut(t, c.index, c.delta.tools);
    var u := Deltas(s, c).out;
    assert t.out == s.out + spoken;
    TailSplit(s.out, spoken, u);
  }

  lemma TailSplit(a: seq<Emission>, b: seq<Emission>, u: seq<Emission>)
    requires a + b <= u
    ensures a <= u && u[|a|..] == b + u[|a + b|..]
  {
    assert u == a + b + u[|a + b|..];
  }

  lemma SpokenIsNoStop(d: Delta)
    ensures forall e :: e in Texts(d) + Thoughts(d) ==> e.Text? || e.Thinking?
  {
    DetailsAreThoughts(d.details);
  }

  lemma OutGrows(s: State, line: Line, reasons: Reasons)
    ensures s.out <= Step(s, line, reasons).out
  {
    if line.Data? && line.chunk.choices != [] {
      DeltasHaveNoStop(s, line.chunk.choices[0]);
    }
  }

  lemma {:induction false} RunGrows(lines: seq<Line>, n: nat, reasons: Reasons)
    requires n <= |lines|
    ensures Run(Start, lines[..n], reasons).out <= Run(Start, lines, reasons).out
    decreases |lines| - n
  {
    if n < |lines| {
      RunGrows(lines, n + 1, reasons);
      assert lines[..n + 1][..n] == lines[..n];
      OutGrows(Run(Start, lines[..n], reasons), lines[n], reasons);
    } else {
      assert lines[..n] == lines;
    }
  }
}
