/** How a stream ends, read off the lines alone: which line decides, and what it makes of the stream. */
module SseEndings {
  import opened Common
  import opened SseSpec
  import opened SseConservation

  /** The first line that ends the forwarding of deltas. */
  predicate DecidesAt(lines: seq<Line>, n: nat) {
    n < |lines| && Halts(lines[n]) && forall k :: 0 <= k < n ==> !Halts(lines[k])
  }

  /** A finish reason that means the context window is full. */
  predicate TooLong(line: Line, reasons: Reasons) {
    FinishReason(line).Some? && reasons.exceeded(reasons.rename(FinishReason(line).value))
  }

  predicate Stops(line: Line, reasons: Reasons) {
    FinishReason(line).Some? && !reasons.exceeded(reasons.rename(FinishReason(line).value))
  }

  function FinishReason(line: Line): Option<string> {
    if line.Data? && line.chunk.choices != [] then line.chunk.choices[0].finish else None
  }

  /** The line that decides is of the kind. */
  ghost predicate DecidedBy(lines: seq<Line>, kind: Line -> bool) {
    exists n: nat :: DecidesAt(lines, n) && kind(lines[n])
  }

  /** The line that decides is a finish for a full context window. */
  ghost predicate Overflows(lines: seq<Line>, reasons: Reasons) {
    DecidedBy(lines, line => TooLong(line, reasons))
  }

  /** The line that decides is an ordinary finish. */
  ghost predicate FinishesWell(lines: seq<Line>, reasons: Reasons) {
    DecidedBy(lines, line => Stops(line, reasons))
  }

  ghost predicate HasDone(lines: seq<Line>) {
    exists n :: 0 <= n < |lines| && lines[n].Done?
  }

  // ---- one more line ----

  lemma DecidedSnoc(lines: seq<Line>, line: Line, kind: Line -> bool)
    requires kind(line) ==> Halts(line)
    ensures DecidedBy(lines + [line], kind) <==> DecidedBy(lines, kind) || (!Halted(lines) && kind(line))
  {
    var longer, n := lines + [line], |lines|;
    assert forall k :: 0 <= k < n ==> longer[k] == lines[k];
    if m: nat :| DecidesAt(lines, m) && kind(lines[m]) {
      assert DecidesAt(longer, m) && kind(longer[m]);
    }
    if !Halted(lines) && kind(line) {
      assert DecidesAt(longer, n) && kind(longer[n]);
    }
    if m: nat :| DecidesAt(longer, m) && kind(longer[m]) {
      if m < n {
        assert DecidesAt(lines, m) && kind(lines[m]);
      }
    }
  }

  lemma DoneSnoc(lines: seq<Line>, line: Line)
    ensures HasDone(lines + [line]) <==> HasDone(lines) || line.Done?
  {
    var longer := lines + [line];
    assert forall k :: 0 <= k < |lines| ==> longer[k] == lines[k];
    assert longer[|lines|] == line;
    if n :| 0 <= n < |lines| && lines[n].Done? {
      assert longer[n].Done?;
    }
  }

  lemma OverflowsSnoc(lines: seq<Line>, line: Line, reasons: Reasons)
    ensures Overflows(lines + [line], reasons) <==> Overflows(lines, reasons) || (!Halted(lines) && TooLong(line, reasons))
    ensures FinishesWell(lines + [line], reasons) <==> FinishesWell(lines, reasons) || (!Halted(lines) && Stops(line, reasons))
  {
    hide DecidedBy, Halted;
    DecidedSnoc(lines, line, l => TooLong(l, reasons));
    DecidedSnoc(lines, line, l => Stops(l, reasons));
  }

  // ---- the end of every run ----

  ghost predicate EndsAsRead(lines: seq<Line>, s: State, reasons: Reasons) {
    && (s.end.Exceeded? <==> Overflows(lines, reasons))
    && (s.stopped <==> FinishesWell(lines, reasons))
    && (s.end.Finished? <==> HasDone(lines) && !Overflows(lines, reasons))
  }

  lemma StepEnds(s: State, line: Line, reasons: Reasons)
    ensures var t := Step(s, line, reasons);
            && (t.end.Exceeded? <==> s.end.Exceeded? || (s.end.Open? && !s.stopped && TooLong(line, reasons)))
            && (t.stopped <==> s.stopped || (s.end.Open? && Stops(line, reasons)))
            && (t.end.Finished? <==> s.end.Finished? || (s.end.Open? && line.Done?))
  {
    if line.Data? && line.chunk.choices != [] {
      DeltasKeepsRest(s, line.chunk.choices[0]);
      hide Deltas;
    }
  }

  lemma {:induction false} RunEnds(lines: seq<Line>, reasons: Reasons)
    ensures EndsAsRead(lines, Run(Start, lines, reasons), reasons)
    decreases |lines|
  {
    hide Step, Halts, Halted, Overflows, FinishesWell, HasDone, TooLong, Stops, DecidesAt;
    if lines == [] {
      NothingRead(reasons);
    } else {
      var before, line := lines[..|lines| - 1], lines[|lines| - 1];
      var s := Run(Start, before, reasons);
      RunEnds(before, reasons);
      EmitsKept(before, reasons, TextSlot);
      StepEnds(s, line, reasons);
      assert before + [line] == lines;
      OverflowsSnoc(before, line, reasons);
      DoneSnoc(before, line);
      DoneHalts(before);
      Exclusive(before, reasons);
    }
  }

  lemma NothingRead(reasons: Reasons)
    ensures !Overflows([], reasons) && !FinishesWell([], reasons) && !HasDone([])
  {
  }

  lemma DoneHalts(lines: seq<Line>)
    ensures HasDone(lines) ==> Halted(lines)
  {
    if n :| 0 <= n < |lines| && lines[n].Done? {
      assert Halts(lines[n]);
    }
  }

  /** Only one line decides. */
  lemma Exclusive(lines: seq<Line>, reasons: Reasons)
    ensures !(Overflows(lines, reasons) && FinishesWell(lines, reasons))
    ensures Overflows(lines, reasons) || FinishesWell(lines, reasons) ==> Halted(lines)
  {
    OneDecision(lines);
    if n: nat :| DecidesAt(lines, n) && TooLong(lines[n], reasons) {
      assert Halts(lines[n]);
    }
    if m: nat :| DecidesAt(lines, m) && Stops(lines[m], reasons) {
      assert Halts(lines[m]);
    }
  }

  lemma OneDecision(lines: seq<Line>)
    ensures forall n: nat, m: nat :: DecidesAt(lines, n) && DecidesAt(lines, m) ==> n == m
  {
  }

  /**
  A run fails for its length exactly when the line that decides is such a finish; it emits a stop, and
  only one, exactly when that line is an ordinary finish; and a complete exactly when an end marker is
  read and the stream has not failed.
  */
  lemma EndsByTheLines(lines: seq<Line>, reasons: Reasons)
    ensures var s := Run(Start, lines, reasons);
            && (s.end.Exceeded? <==> Overflows(lines, reasons))
            && ((exists i :: 0 <= i < |s.out| && s.out[i].Stop?) <==> FinishesWell(lines, reasons))
            && (forall i, j :: 0 <= i < j < |s.out| ==> !(s.out[i].Stop? && s.out[j].Stop?))
            && ((exists i :: 0 <= i < |s.out| && s.out[i].Complete?) <==> HasDone(lines) && !Overflows(lines, reasons))
            && (forall i, j :: 0 <= i < j < |s.out| ==> !(s.out[i].Complete? && s.out[j].Complete?))
  {
    RunEnds(lines, reasons);
    RunSound(lines, reasons);
    var out := Run(Start, lines, reasons).out;
    hide Run, Overflows, FinishesWell, HasDone, Tracked, StartedOnce, StartedFirst;
    assert forall i, j :: 0 <= i < j < |out| ==> MayFollow(out[i], out[j]);
  }

  // ---- the order inside a chunk ----

  function Rank(e: Emission): nat {
    match e
    case Text(_) => 0
    case Thinking(_) => 0
    case ToolStart(_, _, _) => 1
    case ToolArgs(_, _, _, _) => 1
    case Stop(_, _) => 2
    case Complete(_) => 3
  }

  predicate Ordered(es: seq<Emission>) {
    forall i, j :: 0 <= i < j < |es| ==> Rank(es[i]) <= Rank(es[j])
  }

  lemma OrderedJoin(a: seq<Emission>, b: seq<Emission>, rank: nat)
    requires Ordered(a) && Ordered(b)
    requires forall e :: e in a ==> Rank(e) <= rank
    requires forall e :: e in b ==> Rank(e) >= rank
    ensures Ordered(a + b)
  {
    assert forall i :: 0 <= i < |a| ==> a[i] in a;
    assert forall i :: 0 <= i < |b| ==> b[i] in b;
  }

  lemma SameRank(es: seq<Emission>, rank: nat)
    requires forall e :: e in es ==> Rank(e) == rank
    ensures Ordered(es)
  {
    assert forall i :: 0 <= i < |es| ==> es[i] in es;
  }

  /** What one line adds comes in order: text or thoughts, then tool calls, then the stop. */
  lemma LineOrdered(s: State, line: Line, reasons: Reasons)
    ensures s.out <= Step(s, line, reasons).out
    ensures Ordered(Step(s, line, reasons).out[|s.out|..])
  {
    OutGrows(s, line, reasons);
    var more := Step(s, line, reasons).out[|s.out|..];
    if s.end.Open? && !s.stopped && line.Data? && line.chunk.choices != [] {
      var c := line.chunk.choices[0];
      DeltasOrdered(s, c);
      DeltasKeepsRest(s, c);
      var deltas := Deltas(s, c).out[|s.out|..];
      FinishAdds(Deltas(s, c), c.finish, line.chunk.usage, reasons, s.out);
      hide Deltas, Finish;
      var last := more[|deltas|..];
      assert more == deltas + last;
      SameRank(last, 2);
      OrderedJoin(deltas, last, 1);
    } else {
      assert |more| <= 1;
    }
  }

  lemma FinishAdds(t: State, finish: Option<string>, usage: Option<int>, reasons: Reasons, before: seq<Emission>)
    requires before <= t.out
    ensures var out := Finish(t, finish, usage, reasons).out;
            && t.out <= out
            && out[|before|..] == t.out[|before|..] + out[|t.out|..]
            && |t.out[|before|..]| == |t.out| - |before|
            && forall e :: e in out[|t.out|..] ==> Rank(e) == 2
  {
    var out := Finish(t, finish, usage, reasons).out;
    assert out == t.out + out[|t.out|..];
    assert t.out == before + t.out[|before|..];
  }

  lemma DeltasOrdered(s: State, c: Choice)
    ensures s.out <= Deltas(s, c).out
    ensures var more := Deltas(s, c).out[|s.out|..]; Ordered(more) && forall e :: e in more ==> Rank(e) <= 1
  {
    hide Texts, Thoughts, Tools;
    var spoken := Texts(c.delta) + Thoughts(c.delta);
    var t := s.(out := s.out + Texts(c.delta) + Thoughts(c.delta));
    assert t.out == s.out + spoken;
    SpokenIsNoStop(c.delta);
    ToolsOut(t, c.index, c.delta.tools);
    var u := Deltas(s, c).out;
    TailSplit(s.out, spoken, u);
    var tools := u[|t.out|..];
    SameRank(spoken, 0);
    SameRank(tools, 1);
    OrderedJoin(spoken, tools, 0);
  }

  // ---- tool calls, fragment by fragment ----

  /** A fragment with the call it belongs to. */
  datatype Piece = Piece(key: Key, id: string, name: string, arguments: string)

  function PiecesOf(c: Choice): seq<Piece> {
    seq(|c.delta.tools|, i requires 0 <= i < |c.delta.tools| =>
      var f := c.delta.tools[i]; Piece((c.index, f.index), f.id, f.name, f.arguments))
  }

  function AllPieces(cs: seq<Choice>): seq<Piece> {
    if cs == [] then [] else AllPieces(cs[..|cs| - 1]) + PiecesOf(cs[|cs| - 1])
  }

  /** The last id given to a call, "" if none. */
  function LastId(ps: seq<Piece>, key: Key): string {
    if ps == [] then ""
    else if ps[|ps| - 1].key == key && ps[|ps| - 1].id != "" then ps[|ps| - 1].id
    else LastId(ps[..|ps| - 1], key)
  }

  function LastName(ps: seq<Piece>, key: Key): string {
    if ps == [] then ""
    else if ps[|ps| - 1].key == key && ps[|ps| - 1].name != "" then ps[|ps| - 1].name
    else LastName(ps[..|ps| - 1], key)
  }

  predicate Identified(ps: seq<Piece>, key: Key) {
    LastId(ps, key) != "" || LastName(ps, key) != ""
  }

  /**
  What the pieces make a client see: a start when a call is first identified, and each piece's
  arguments, both under the latest id and name of the call.
  */
  function Trace(ps: seq<Piece>): seq<Emission> {
    if ps == [] then []
    else
      var before, p := ps[..|ps| - 1], ps[|ps| - 1];
      Trace(before)
      + (if !Identified(before, p.key) && Identified(ps, p.key)
         then [ToolStart(p.key, LastId(ps, p.key), LastName(ps, p.key))] else [])
      + (if p.arguments != "" then [ToolArgs(p.key, LastId(ps, p.key), LastName(ps, p.key), p.arguments)] else [])
  }

  function ToolPart(out: seq<Emission>): seq<Emission> {
    if out == [] then []
    else
      var e := out[|out| - 1];
      ToolPart(out[..|out| - 1]) + if e.ToolStart? || e.ToolArgs? then [e] else []
  }

  lemma {:induction false} ToolPartConcat(a: seq<Emission>, b: seq<Emission>)
    ensures ToolPart(a + b) == ToolPart(a) + ToolPart(b)
    decreases |b|
  {
    if b == [] {
      assert a + b == a;
    } else {
      var init, e := b[..|b| - 1], b[|b| - 1];
      assert (a + b)[..|a + b| - 1] == a + init && (a + b)[|a + b| - 1] == e;
      ToolPartConcat(a, init);
      Associative(ToolPart(a), ToolPart(init), if e.ToolStart? || e.ToolArgs? then [e] else []);
    }
  }

  lemma {:induction false} ToolPartAll(es: seq<Emission>)
    ensures (forall e :: e in es ==> e.ToolStart? || e.ToolArgs?) ==> ToolPart(es) == es
    ensures (forall e :: e in es ==> !e.ToolStart? && !e.ToolArgs?) ==> ToolPart(es) == []
    decreases |es|
  {
    if es != [] {
      ToolPartAll(es[..|es| - 1]);
    }
  }

  ghost predicate Follows(s: State, ps: seq<Piece>) {
    && ToolPart(s.out) == Trace(ps)
    && forall key :: CallOf(s.calls, key) == Call(LastId(ps, key), LastName(ps, key), Identified(ps, key))
  }

  lemma LastSnoc(ps: seq<Piece>, p: Piece, key: Key)
    ensures LastId(ps + [p], key) == if p.key == key && p.id != "" then p.id else LastId(ps, key)
    ensures LastName(ps + [p], key) == if p.key == key && p.name != "" then p.name else LastName(ps, key)
  {
    assert (ps + [p])[..|ps|] == ps;
  }

  lemma TraceSnoc(ps: seq<Piece>, p: Piece)
    ensures var longer := ps + [p];
            Trace(longer)
            == Trace(ps)
               + (if !Identified(ps, p.key) && Identified(longer, p.key)
                  then [ToolStart(p.key, LastId(longer, p.key), LastName(longer, p.key))] else [])
               + (if p.arguments != "" then [ToolArgs(p.key, LastId(longer, p.key), LastName(longer, p.key), p.arguments)] else [])
  {
    assert (ps + [p])[..|ps|] == ps;
  }

  lemma ToolFollows(s: State, choice: int, f: Fragment, ps: seq<Piece>)
    requires Follows(s, ps)
    ensures Follows(Tool(s, choice, f), ps + [Piece((choice, f.index), f.id, f.name, f.arguments)])
  {
    hide LastId, LastName, Trace, ToolPart;
    var key, p := (choice, f.index), Piece((choice, f.index), f.id, f.name, f.arguments);
    var longer, t := ps + [p], Tool(s, choice, f);
    var call := Identify(CallOf(s.calls, key), f);
    var starts, arguments := Starts(key, call), Arguments(key, call, f);
    LastSnoc(ps, p, key);
    TraceSnoc(ps, p);
    ToolPartConcat(s.out + starts, arguments);
    ToolPartConcat(s.out, starts);
    ToolPartAll(starts);
    ToolPartAll(arguments);
    forall k ensures CallOf(t.calls, k) == Call(LastId(longer, k), LastName(longer, k), Identified(longer, k)) {
      LastSnoc(ps, p, k);
    }
  }

  lemma {:induction false} ToolsFollow(s: State, c: Choice, n: nat, ps: seq<Piece>)
    requires n <= |c.delta.tools| && Follows(s, ps)
    ensures Follows(Tools(s, c.index, c.delta.tools[..n]), ps + PiecesOf(c)[..n])
    decreases n
  {
    hide Follows, Tool;
    if n == 0 {
      assert ps + PiecesOf(c)[..0] == ps;
    } else {
      var f := c.delta.tools[n - 1];
      ToolsFollow(s, c, n - 1, ps);
      assert c.delta.tools[..n][..n - 1] == c.delta.tools[..n - 1];
      ToolFollows(Tools(s, c.index, c.delta.tools[..n - 1]), c.index, f, ps + PiecesOf(c)[..n - 1]);
      assert PiecesOf(c)[..n] == PiecesOf(c)[..n - 1] + [PiecesOf(c)[n - 1]];
      Associative(ps, PiecesOf(c)[..n - 1], [PiecesOf(c)[n - 1]]);
    }
  }

  lemma DeltasFollow(s: State, c: Choice, ps: seq<Piece>)
    requires Follows(s, ps)
    ensures Follows(Deltas(s, c), ps + PiecesOf(c))
  {
    SpokenFollows(s, c.delta, ps);
    var t := s.(out := s.out + Texts(c.delta) + Thoughts(c.delta));
    hide Follows, Texts, Thoughts, Tools;
    ToolsFollow(t, c, |c.delta.tools|, ps);
    assert c.delta.tools[..|c.delta.tools|] == c.delta.tools && PiecesOf(c)[..|c.delta.tools|] == PiecesOf(c);
  }

  lemma SpokenFollows(s: State, d: Delta, ps: seq<Piece>)
    requires Follows(s, ps)
    ensures Follows(s.(out := s.out + Texts(d) + Thoughts(d)), ps)
  {
    hide Texts, Thoughts, ToolPart, Trace;
    var spoken := Texts(d) + Thoughts(d);
    SpokenIsNoStop(d);
    ToolPartAll(spoken);
    ToolPartConcat(s.out, spoken);
    Associative(s.out, Texts(d), Thoughts(d));
  }

  lemma FinishFollows(s: State, finish: Option<string>, usage: Option<int>, reasons: Reasons, ps: seq<Piece>)
    requires Follows(s, ps)
    ensures Follows(Finish(s, finish, usage, reasons), ps)
    ensures Follows(s.(out := s.out + [Complete(s.usage)], end := Finished), ps)
    ensures forall usage :: Follows(s.(usage := usage), ps)
  {
    var t := Finish(s, finish, usage, reasons);
    ToolPartConcat(s.out, [Complete(s.usage)]);
    ToolPartAll([Complete(s.usage)]);
    if t.out != s.out {
      var e := t.out[|s.out|];
      assert t.out == s.out + [e];
      ToolPartConcat(s.out, [e]);
      ToolPartAll([e]);
    }
  }

  /** The tool emissions of a stream are those its live fragments make, one by one and in order. */
  lemma {:induction false} ToolsTraced(lines: seq<Line>, reasons: Reasons)
    ensures Follows(Run(Start, lines, reasons), AllPieces(LiveChoices(lines)))
    decreases |lines|
  {
    if lines != [] {
      hide Follows, Halted, Halts, Deltas, Finish;
      var before, line := lines[..|lines| - 1], lines[|lines| - 1];
      ToolsTraced(before, reasons);
      EmitsKept(before, reasons, TextSlot);
      var s, cs := Run(Start, before, reasons), LiveChoices(before);
      if !Halted(before) && line.Data? && line.chunk.choices != [] {
        var c := line.chunk.choices[0];
        assert (cs + [c])[..|cs|] == cs;
        DeltasFollow(s, c, AllPieces(cs));
        FinishFollows(Deltas(s, c), c.finish, line.chunk.usage, reasons, AllPieces(cs + [c]));
      } else {
        assert cs + [] == cs;
        FinishFollows(s, None, None, reasons, AllPieces(cs));
      }
    }
  }
}
