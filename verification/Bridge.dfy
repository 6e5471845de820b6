/** The streaming bridge: a provider goroutine, three bounded channels and a selecting consumer. */
module Bridge {

  datatype Chunk = Chunk(body: string, complete: bool, marshals: bool)

  datatype Frame =
    | Body(chunk: Chunk)                  // status 200, the chunk itself
    | ProviderFailure(error: string)      // status 500
    | MarshalFailure(chunk: Chunk)        // status 500
    | TimedOut                            // status 499
    | SynthesisedComplete                 // status 200

  datatype Producer =
    | Streaming                 // inside the provider's Stream
    | Offering(chunk: Chunk)    // in the callback's select
    | Returned(error: string)   // Stream returned an error
    | Panicked(error: string)   // in the recovering deferred function
    | Finishing                 // about to signal done
    | Exited

  datatype Consumer =
    | Selecting
    | Cancelling                            // the request context is done
    | Checking                              // done received, looking for an error
    | Draining
    | Writing(frame: Frame, resume: Consumer)
    | Gone

  const Capacity := 100

  /** The three channels, the two contexts and, for the statements, what was sent and written. */
  datatype State = State(
    producer: Producer,
    consumer: Consumer,
    chunks: seq<Chunk>,
    errors: seq<string>,
    dones: nat,
    requestDone: bool,
    streamCancelled: bool,
    completeSent: bool,
    written: seq<Frame>,
    writeFailed: bool,
    emitted: seq<Chunk>,
    enqueued: seq<Chunk>,
    taken: nat,
    errorsSent: seq<string>,
    donesSent: nat)

  const Start := State(Streaming, Selecting, [], [], 0, false, false, false, [], false, [], [], 0, [], 0)

  datatype Event =
    | Emit(chunk: Chunk) | Enqueue | Refuse
    | ReturnNil | ReturnError(error: string) | Panic(error: string)
    | SendError | SendDone
    | CancelRequest
    | TakeError | TakeCancel | TakeChunk | TakeDone
    | CancelSettled(sawDone: bool)
    | Check | DrainEnd
    | Write(ok: bool)

  predicate StreamDone(s: State) {
    s.requestDone || s.streamCancelled
  }

  /** What can happen next. A select takes any ready case, so several events may be enabled at once. */
  predicate Enabled(s: State, e: Event) {
    match e
    case Emit(_) => s.producer.Streaming?
    case Enqueue => s.producer.Offering? && |s.chunks| < Capacity
    case Refuse => s.producer.Offering? && StreamDone(s)
    case ReturnNil => s.producer.Streaming?
    case ReturnError(_) => s.producer.Streaming?
    case Panic(_) => s.producer.Streaming?
    case SendError => (s.producer.Returned? || s.producer.Panicked?) && |s.errors| < 1
    case SendDone => s.producer.Finishing? && s.dones < 1
    case CancelRequest => true
    case TakeError => s.consumer.Selecting? && s.errors != []
    case TakeCancel => s.consumer.Selecting? && s.requestDone
    case TakeChunk => (s.consumer.Selecting? || s.consumer.Draining?) && s.chunks != []
    case TakeDone => s.consumer.Selecting? && s.dones > 0
    case CancelSettled(sawDone) => s.consumer.Cancelling? && (sawDone ==> s.dones > 0)
    case Check => s.consumer.Checking?
    case DrainEnd => s.consumer.Draining? && s.chunks == []
    case Write(_) => s.consumer.Writing?
  }

  function Next(s: State, e: Event): State
    requires Enabled(s, e)
  {
    if ByProducer(e) then AfterProducer(s, e) else AfterConsumer(s, e)
  }

  predicate ByProducer(e: Event) {
    e.Emit? || e.Enqueue? || e.Refuse? || e.ReturnNil? || e.ReturnError? || e.Panic?
    || e.SendError? || e.SendDone? || e.CancelRequest?
  }

  /** The producer's side and the request context; nothing of the consumer's changes. */
  function AfterProducer(s: State, e: Event): (t: State)
    requires ByProducer(e) && Enabled(s, e)
    ensures t.consumer == s.consumer && t.written == s.written && t.writeFailed == s.writeFailed
    ensures t.taken == s.taken && t.completeSent == s.completeSent && t.streamCancelled == s.streamCancelled
  {
    match e
    case Emit(chunk) => s.(producer := Offering(chunk), emitted := s.emitted + [chunk])
    case Enqueue =>
      s.(producer := Streaming, chunks := s.chunks + [s.producer.chunk], enqueued := s.enqueued + [s.producer.chunk])
    case Refuse => s.(producer := Streaming)
    case ReturnNil => s.(producer := Finishing)
    case ReturnError(error) => s.(producer := Returned(error))
    case Panic(error) => s.(producer := Panicked(error))
    case SendError =>
      s.(producer := if s.producer.Returned? then Finishing else Exited,
         errors := s.errors + [s.producer.error], errorsSent := s.errorsSent + [s.producer.error])
    case SendDone => s.(producer := Exited, dones := s.dones + 1, donesSent := s.donesSent + 1)
    case CancelRequest => s.(requestDone := true)
  }

  /** The consumer's side; nothing of the producer's changes. */
  function AfterConsumer(s: State, e: Event): (t: State)
    requires !ByProducer(e) && Enabled(s, e)
    ensures t.producer == s.producer && t.emitted == s.emitted && t.enqueued == s.enqueued
    ensures t.errorsSent == s.errorsSent && t.donesSent == s.donesSent && t.requestDone == s.requestDone
    ensures t.writeFailed <==> s.writeFailed || e == Write(false)
  {
    match e
    case TakeError => s.(errors := s.errors[1..], consumer := Writing(ProviderFailure(s.errors[0]), Gone))
    case TakeCancel => s.(streamCancelled := true, consumer := Cancelling)
    case TakeChunk => ForwardFirst(s)
    case TakeDone => s.(dones := s.dones - 1, consumer := Checking)
    case CancelSettled(sawDone) =>
      s.(dones := if sawDone then s.dones - 1 else s.dones,
         errors := if s.errors == [] then [] else s.errors[1..],
         consumer := Writing(TimedOut, Gone))
    case Check =>
      if s.errors == [] then s.(consumer := Draining)
      else s.(errors := s.errors[1..], consumer := Writing(ProviderFailure(s.errors[0]), Gone))
    case DrainEnd =>
      if s.completeSent then Leave(s) else s.(consumer := Writing(SynthesisedComplete, Gone))
    case Write(ok) =>
      var after := if ok then s.(written := s.written + [s.consumer.frame]) else s.(writeFailed := true);
      if ok && s.consumer.resume != Gone then after.(consumer := s.consumer.resume) else Leave(after)
  }

  /** Returning cancels the stream context. */
  function Leave(s: State): State {
    s.(consumer := Gone, streamCancelled := true)
  }

  function ForwardFirst(s: State): State
    requires s.chunks != []
  {
    var chunk := s.chunks[0];
    var frame := if chunk.marshals then Body(chunk) else MarshalFailure(chunk);
    s.(chunks := s.chunks[1..], taken := s.taken + 1,
       completeSent := s.completeSent || chunk.complete,
       consumer := Writing(frame, if chunk.complete || !chunk.marshals then Gone else s.consumer))
  }

  predicate Legal(s: State, run: seq<Event>)
    decreases |run|
  {
    run == [] || (Enabled(s, run[0]) && Legal(Next(s, run[0]), run[1..]))
  }

  function After(s: State, run: seq<Event>): State
    requires Legal(s, run)
    decreases |run|
  {
    if run == [] then s else After(Next(s, run[0]), run[1..])
  }

  // ---- the invariant ----

  function Bodies(chunks: seq<Chunk>): seq<Frame> {
    seq(|chunks|, i requires 0 <= i < |chunks| => Body(chunks[i]))
  }

  /** Chunks that leave the stream open. */
  predicate Ordinary(chunks: seq<Chunk>) {
    forall c :: c in chunks ==> !c.complete && c.marshals
  }

  /** The first `n` enqueued chunks were forwarded, and nothing else was written. */
  predicate Forwarded(enqueued: seq<Chunk>, written: seq<Frame>, n: int) {
    0 <= n <= |enqueued| && Ordinary(enqueued[..n]) && written == Bodies(enqueued[..n])
  }

  predicate Channels(s: State) {
    s.taken <= |s.enqueued| && s.chunks == s.enqueued[s.taken..] && |s.chunks| <= Capacity
    && (s.streamCancelled ==> s.requestDone || s.consumer.Gone?)
    && (!StreamDone(s) ==> s.emitted == s.enqueued + if s.producer.Offering? then [s.producer.chunk] else [])
  }

  /** How often the producer has sent on the two signal channels. */
  predicate Signals(s: State) {
    |s.errors| <= |s.errorsSent| <= 1 && s.dones <= s.donesSent <= 1
    && (s.producer.Exited? ==> s.donesSent == 1 || |s.errorsSent| == 1)
    && (!s.producer.Exited? ==> s.donesSent == 0)
    && (!s.producer.Exited? && !s.producer.Finishing? ==> s.errorsSent == [])
  }

  predicate Untouched(s: State) {
    s.errors == s.errorsSent && s.dones == s.donesSent
  }

  /** Why a frame may be about to end the stream. */
  predicate Justified(s: State, frame: Frame)
    requires s.taken <= |s.enqueued|
  {
    match frame
    case Body(c) => s.taken > 0 && c == s.enqueued[s.taken - 1] && c.complete && c.marshals
    case MarshalFailure(c) => s.taken > 0 && c == s.enqueued[s.taken - 1] && !c.marshals
    case ProviderFailure(error) => s.errorsSent == [error]
    case TimedOut => s.requestDone
    case SynthesisedComplete =>
      s.producer.Exited? && s.errorsSent == [] && s.taken == |s.enqueued|
      && (!s.requestDone ==> s.emitted == s.enqueued)
  }

  /** Chunks forwarded before `frame`, which itself may be the last chunk taken. */
  function Before(s: State, frame: Frame): int
  {
    if frame.Body? || frame.MarshalFailure? then s.taken - 1 else s.taken
  }

  predicate Consuming(s: State, c: Consumer) {
    match c
    case Selecting => Untouched(s) && !s.completeSent
    case Cancelling => s.requestDone
    case Checking => s.donesSent == 1 && s.producer.Exited? && s.errors == s.errorsSent && !s.completeSent
    case Draining => s.donesSent == 1 && s.producer.Exited? && s.errorsSent == [] && !s.completeSent
    case Writing(_, _) => false
    case Gone => false
  }

  predicate Output(s: State)
    requires Channels(s)
  {
    match s.consumer
    case Writing(frame, resume) =>
      Forwarded(s.enqueued, s.written, Before(s, frame)) && !s.writeFailed
      && (if resume == Gone then Justified(s, frame)
          else
            (resume.Selecting? || resume.Draining?) && Consuming(s, resume)
            && frame.Body? && frame.chunk == s.enqueued[s.taken - 1]
            && !frame.chunk.complete && frame.chunk.marshals)
    case Gone => s.streamCancelled && Ended(s)
    case c => Consuming(s, c) && Forwarded(s.enqueued, s.written, s.taken) && !s.writeFailed
  }

  /** Nothing lost: the forwarded prefix and one justified last frame. A failed write leaves a prefix. */
  predicate Ended(s: State)
    requires Channels(s)
  {
    if s.writeFailed then
      Forwarded(s.enqueued, s.written, s.taken) || Forwarded(s.enqueued, s.written, s.taken - 1)
    else
      |s.written| > 0
      && var last := s.written[|s.written| - 1];
         Justified(s, last) && Forwarded(s.enqueued, s.written[..|s.written| - 1], Before(s, last))
  }

  predicate Sound(s: State) {
    Channels(s) && Signals(s) && Output(s)
  }

  // ---- every step keeps it ----

  lemma BodiesSnoc(chunks: seq<Chunk>, n: nat)
    requires n < |chunks|
    ensures Bodies(chunks[..n + 1]) == Bodies(chunks[..n]) + [Body(chunks[n])]
    ensures Ordinary(chunks[..n + 1]) <==> Ordinary(chunks[..n]) && !chunks[n].complete && chunks[n].marshals
  {
    assert chunks[..n + 1] == chunks[..n] + [chunks[n]];
  }

  /** Chunks enqueued later do not change what was forwarded. */
  lemma ForwardedGrows(enqueued: seq<Chunk>, chunk: Chunk, written: seq<Frame>)
    ensures forall n :: Forwarded(enqueued, written, n) ==> Forwarded(enqueued + [chunk], written, n)
  {
    forall n: int | 0 <= n <= |enqueued|
      ensures Forwarded(enqueued, written, n) ==> Forwarded(enqueued + [chunk], written, n)
    {
      assert (enqueued + [chunk])[..n] == enqueued[..n];
    }
  }

  lemma EnqueueSound(s: State)
    requires Sound(s) && Enabled(s, Enqueue)
    ensures Sound(Next(s, Enqueue))
  {
    hide Forwarded;
    var chunk := s.producer.chunk;
    ForwardedGrows(s.enqueued, chunk, s.written);
    ForwardedGrows(s.enqueued, chunk, if s.written == [] then [] else s.written[..|s.written| - 1]);
    assert (s.enqueued + [chunk])[s.taken..] == s.chunks + [chunk];
  }

  lemma EmitSound(s: State, chunk: Chunk)
    requires Sound(s) && s.producer.Streaming?
    ensures Sound(Next(s, Emit(chunk)))
  {
    hide Forwarded;
  }

  lemma RefuseSound(s: State)
    requires Sound(s) && Enabled(s, Refuse)
    ensures Sound(Next(s, Refuse))
  {
    hide Forwarded;
  }

  /** The provider's Stream is over, one way or another. */
  lemma OverSound(s: State, e: Event)
    requires Sound(s) && s.producer.Streaming?
    requires e.ReturnNil? || e.ReturnError? || e.Panic?
    ensures Sound(Next(s, e))
  {
    hide Forwarded;
  }

  lemma SendErrorSound(s: State)
    requires Sound(s) && Enabled(s, SendError)
    ensures Sound(Next(s, SendError))
  {
    hide Forwarded;
  }

  lemma SendDoneSound(s: State)
    requires Sound(s) && Enabled(s, SendDone)
    ensures Sound(Next(s, SendDone))
  {
    hide Forwarded;
  }

  lemma CancelSound(s: State)
    requires Sound(s)
    ensures Sound(Next(s, CancelRequest))
  {
    hide Forwarded;
  }

  lemma ProducerStepSound(s: State, e: Event)
    requires Sound(s) && ByProducer(e) && Enabled(s, e)
    ensures Sound(Next(s, e))
  {
    hide Sound, Next;
    match e
    case Emit(chunk) => EmitSound(s, chunk);
    case Enqueue => EnqueueSound(s);
    case Refuse => RefuseSound(s);
    case SendError => SendErrorSound(s);
    case SendDone => SendDoneSound(s);
    case CancelRequest => CancelSound(s);
    case _ => OverSound(s, e);
  }

  lemma TakeChunkSound(s: State)
    requires Sound(s) && Enabled(s, TakeChunk)
    ensures Sound(ForwardFirst(s))
  {
    assert s.chunks[0] == s.enqueued[s.taken];
  }

  lemma WriteSound(s: State, ok: bool)
    requires Sound(s) && s.consumer.Writing?
    ensures Sound(Next(s, Write(ok)))
  {
    if !ok {
      WriteFails(s);
    } else if s.consumer.resume == Gone {
      WriteEnds(s);
    } else {
      WriteResumes(s);
    }
  }

  lemma WriteFails(s: State)
    requires Sound(s) && s.consumer.Writing?
    ensures Sound(Next(s, Write(false)))
  {
    hide Forwarded;
    var t := Next(s, Write(false));
    assert Forwarded(t.enqueued, t.written, Before(s, s.consumer.frame));
    assert Channels(t);
    assert Signals(t);
  }

  lemma WriteEnds(s: State)
    requires Sound(s) && s.consumer.Writing? && s.consumer.resume == Gone
    ensures Sound(Next(s, Write(true)))
  {
    hide Forwarded;
    var t := Next(s, Write(true));
    assert t.written[..|t.written| - 1] == s.written;
    assert t.written[|t.written| - 1] == s.consumer.frame;
    assert Justified(t, s.consumer.frame);
    assert Channels(t);
    assert Signals(t);
  }

  lemma WriteResumes(s: State)
    requires Sound(s) && s.consumer.Writing? && s.consumer.resume != Gone
    ensures Sound(Next(s, Write(true)))
  {
    hide Forwarded;
    var frame, resume := s.consumer.frame, s.consumer.resume;
    WrittenOne(s.enqueued, s.written, s.taken - 1);
    var t := s.(written := s.written + [frame], consumer := resume);
    assert Next(s, Write(true)) == t;
    assert Channels(t) && Signals(t) by {
      hide Output;
    }
    assert Forwarded(t.enqueued, t.written, t.taken);
    assert Consuming(t, resume);
    assert resume.Selecting? || resume.Draining?;
    hide Channels, Signals, Next;
  }

  lemma WrittenOne(enqueued: seq<Chunk>, written: seq<Frame>, n: int)
    requires Forwarded(enqueued, written, n) && n < |enqueued|
    requires !enqueued[n].complete && enqueued[n].marshals
    ensures Forwarded(enqueued, written + [Body(enqueued[n])], n + 1)
  {
    BodiesSnoc(enqueued, n);
  }

  lemma NextSound(s: State, e: Event)
    requires Sound(s) && Enabled(s, e)
    ensures Sound(Next(s, e))
  {
    hide Forwarded, Bodies, Ordinary;
    if ByProducer(e) {
      ProducerStepSound(s, e);
    } else if e.TakeChunk? {
      TakeChunkSound(s);
    } else if e.Write? {
      WriteSound(s, e.ok);
    }
  }

  lemma {:induction false} RunSound(s: State, run: seq<Event>)
    requires Sound(s) && Legal(s, run)
    ensures Sound(After(s, run))
    decreases |run|
  {
    if run != [] {
      NextSound(s, run[0]);
      RunSound(Next(s, run[0]), run[1..]);
    }
  }

  // ---- what that means for whole runs ----

  predicate Terminal(frame: Frame) {
    !frame.Body? || frame.chunk.complete
  }

  /** Some enqueued chunks in order, none of them ending the stream, then exactly one terminal frame. */
  predicate Finished(s: State, n: nat, last: Frame) {
    n <= |s.enqueued| && Ordinary(s.enqueued[..n])
    && s.written == Bodies(s.enqueued[..n]) + [last] && Terminal(last)
  }

  predicate OnlyForwarded(s: State, n: nat) {
    n <= |s.enqueued| && Ordinary(s.enqueued[..n]) && s.written == Bodies(s.enqueued[..n])
  }

  lemma StartSound()
    ensures Sound(Start)
  {
  }

  /** Whenever the consumer has returned without a failing write, the stream is finished, and for a reason. */
  lemma RunFinished(run: seq<Event>) returns (n: nat, last: Frame)
    requires Legal(Start, run)
    requires After(Start, run).consumer.Gone? && !After(Start, run).writeFailed
    ensures var s := After(Start, run);
            Finished(s, n, last)
            && match last
               case Body(c) => n < |s.enqueued| && c == s.enqueued[n]
               case MarshalFailure(c) => n < |s.enqueued| && c == s.enqueued[n] && !c.marshals
               case ProviderFailure(error) => s.errorsSent == [error]
               case TimedOut => s.requestDone
               case SynthesisedComplete =>
                 n == |s.enqueued| && s.errorsSent == [] && s.producer.Exited?
                 && (!s.requestDone ==> s.emitted == s.enqueued)
  {
    StartSound();
    RunSound(Start, run);
    var s := After(Start, run);
    last := s.written[|s.written| - 1];
    n := Before(s, last);
  }

  /** Before that, and after a failed write, what was written is a prefix of the chunks, nothing else. */
  lemma RunForwards(run: seq<Event>) returns (n: nat)
    requires Legal(Start, run)
    requires !After(Start, run).consumer.Gone? || After(Start, run).writeFailed
    ensures OnlyForwarded(After(Start, run), n)
  {
    StartSound();
    RunSound(Start, run);
    var s := After(Start, run);
    if s.consumer.Writing? {
      n := Before(s, s.consumer.frame);
    } else if s.consumer.Gone? && !Forwarded(s.enqueued, s.written, s.taken) {
      n := s.taken - 1;
    } else {
      n := s.taken;
    }
  }

  /** Nothing is written once the consumer has returned, and it does not come back. */
  lemma {:induction false} NothingAfterReturn(s: State, run: seq<Event>)
    requires Legal(s, run) && s.consumer.Gone?
    ensures After(s, run).written == s.written && After(s, run).consumer.Gone?
    decreases |run|
  {
    if run != [] {
      NothingAfterReturn(Next(s, run[0]), run[1..]);
    }
  }

  /** A provider that reports no error, uncancelled, has its whole stream delivered and marked complete. */
  lemma UndisturbedRunDelivers(run: seq<Event>)
    requires Legal(Start, run)
    requires var s := After(Start, run);
             s.consumer.Gone? && !s.writeFailed && !s.requestDone && s.errorsSent == []
             && forall c :: c in s.enqueued ==> c.marshals
    ensures var s := After(Start, run);
            if exists c :: c in s.enqueued && c.complete then
              exists n :: 0 <= n < |s.enqueued| && s.enqueued[n].complete && Ordinary(s.enqueued[..n])
                          && s.written == Bodies(s.enqueued[..n + 1])
            else
              s.enqueued == s.emitted && s.written == Bodies(s.emitted) + [SynthesisedComplete]
  {
    var s := After(Start, run);
    var n, last := RunFinished(run);
    if last.Body? {
      assert Bodies(s.enqueued[..n + 1]) == Bodies(s.enqueued[..n]) + [Body(s.enqueued[n])] by {
        BodiesSnoc(s.enqueued, n);
      }
      assert s.enqueued[n] in s.enqueued;
    } else {
      assert last == SynthesisedComplete;
      assert s.enqueued[..n] == s.enqueued;
    }
  }

  /** Each signal channel carries at most one value ever, so the producer never waits to send on it. */
  lemma ProducerNeverStuck(run: seq<Event>)
    requires Legal(Start, run)
    ensures var s := After(Start, run);
            |s.errorsSent| <= 1 && s.donesSent <= 1
            && (s.producer.Returned? || s.producer.Panicked? ==> Enabled(s, SendError))
            && (s.producer.Finishing? ==> Enabled(s, SendDone))
            && (s.producer.Offering? && s.consumer.Gone? ==> Enabled(s, Refuse))
  {
    StartSound();
    RunSound(Start, run);
  }

  predicate ConsumerCanMove(s: State) {
    Enabled(s, TakeError) || Enabled(s, TakeCancel) || Enabled(s, TakeChunk) || Enabled(s, TakeDone)
    || Enabled(s, CancelSettled(false)) || Enabled(s, Check) || Enabled(s, DrainEnd) || Enabled(s, Write(true))
  }

  predicate ProducerCanMove(s: State) {
    Enabled(s, Enqueue) || Enabled(s, Refuse) || Enabled(s, SendError) || Enabled(s, SendDone)
  }

  lemma SomebodyMoves(s: State)
    requires Signals(s)
    requires match s.consumer case Writing(_, _) => true case Gone => true case c => Consuming(s, c)
    ensures s.consumer.Gone? || ConsumerCanMove(s) || ProducerCanMove(s) || s.producer.Streaming?
  {
    if s.consumer.Selecting? && s.chunks == [] && s.producer.Offering? {
      assert Enabled(s, Enqueue);
    }
  }

  /** No deadlock: until the consumer returns, it or the producer can move, or the provider is at work. */
  lemma NeverDeadlocked(run: seq<Event>)
    requires Legal(Start, run)
    ensures var s := After(Start, run);
            s.consumer.Gone? || ConsumerCanMove(s) || ProducerCanMove(s) || s.producer.Streaming?
  {
    StartSound();
    RunSound(Start, run);
    hide Signals, Channels, Consuming, Forwarded, Ended, ConsumerCanMove, ProducerCanMove, Legal;
    SomebodyMoves(After(Start, run));
  }

  /** After the consumer has returned the producer ends by itself as soon as the provider does. */
  lemma ProducerDrains(run: seq<Event>) returns (more: seq<Event>)
    requires Legal(Start, run) && After(Start, run).consumer.Gone?
    requires !After(Start, run).producer.Streaming? && !After(Start, run).producer.Offering?
    ensures |more| <= 2 && Legal(After(Start, run), more)
    ensures After(After(Start, run), more).producer.Exited?
  {
    StartSound();
    RunSound(Start, run);
    var s := After(Start, run);
    more := if s.producer.Exited? then []
            else if s.producer.Finishing? then [SendDone]
            else if s.producer.Panicked? then [SendError]
            else [SendError, SendDone];
    if s.producer.Returned? {
      var t := Next(s, SendError);
      assert more[1..] == [SendDone] && Legal(t, [SendDone]);
      assert Next(t, SendDone).producer.Exited?;
      assert After(t, [SendDone]) == Next(t, SendDone);
    }
  }

  // ---- what the record says of the run ----

  /** The chunks the provider offered, in order. */
  function Emits(run: seq<Event>): seq<Chunk> {
    if run == [] then []
    else (if run[0].Emit? then [run[0].chunk] else []) + Emits(run[1..])
  }

  /** The provider returned or panicked with this error. */
  predicate Reported(run: seq<Event>, error: string) {
    ReturnError(error) in run || Panic(error) in run
  }

  predicate Holds(p: Producer, error: string) {
    (p.Returned? || p.Panicked?) && p.error == error
  }

  lemma {:induction false} EmittedIsOffered(s: State, run: seq<Event>)
    requires Legal(s, run)
    ensures After(s, run).emitted == s.emitted + Emits(run)
    ensures After(s, run).requestDone <==> s.requestDone || CancelRequest in run
    ensures After(s, run).writeFailed <==> s.writeFailed || Write(false) in run
    decreases |run|
  {
    hide Next;
    if run == [] {
      assert s.emitted + [] == s.emitted;
    } else {
      EmittedIsOffered(Next(s, run[0]), run[1..]);
      StepFields(s, run[0]);
      var first := if run[0].Emit? then [run[0].chunk] else [];
      assert s.emitted + first + Emits(run[1..]) == s.emitted + (first + Emits(run[1..]));
      assert forall e :: e in run <==> e == run[0] || e in run[1..];
    }
  }

  lemma {:induction false} ErrorsAreReported(s: State, run: seq<Event>, error: string)
    requires Legal(s, run)
    ensures error in After(s, run).errorsSent ==> error in s.errorsSent || Holds(s.producer, error) || Reported(run, error)
    decreases |run|
  {
    hide Next;
    if run != [] {
      ErrorsAreReported(Next(s, run[0]), run[1..], error);
      StepErrors(s, run[0]);
      assert forall e :: e in run <==> e == run[0] || e in run[1..];
    }
  }

  lemma StepFields(s: State, e: Event)
    requires Enabled(s, e)
    ensures var t := Next(s, e);
            && t.emitted == s.emitted + (if e.Emit? then [e.chunk] else [])
            && (t.requestDone <==> s.requestDone || e == CancelRequest)
            && (t.writeFailed <==> s.writeFailed || e == Write(false))
  {
    hide AfterConsumer;
    if ByProducer(e) {
      match e
      case Emit(_) =>
      case Enqueue =>
      case SendError =>
      case CancelRequest =>
      case _ =>
    } else {
      hide AfterProducer;
    }
  }

  lemma StepErrors(s: State, e: Event)
    requires Enabled(s, e)
    ensures var t := Next(s, e);
            && t.errorsSent == s.errorsSent + (if e.SendError? then [s.producer.error] else [])
            && (e.SendError? ==> Holds(s.producer, s.producer.error))
            && forall x :: Holds(t.producer, x) ==> Holds(s.producer, x) || e == ReturnError(x) || e == Panic(x)
  {
    hide AfterConsumer;
    if ByProducer(e) {
      match e
      case Emit(_) =>
      case Enqueue =>
      case SendError =>
      case CancelRequest =>
      case _ =>
    } else {
      hide AfterProducer;
    }
  }

  /** In a whole run: what was emitted is what the provider offered, an error that is written is one it reported. */
  lemma RunRecorded(run: seq<Event>)
    requires Legal(Start, run)
    ensures var s := After(Start, run);
            && s.emitted == Emits(run)
            && (s.requestDone <==> CancelRequest in run)
            && (s.writeFailed <==> Write(false) in run)
            && (forall e :: e in s.errorsSent ==> Reported(run, e))
            && (forall e :: ProviderFailure(e) in s.written ==> Reported(run, e))
  {
    EmittedIsOffered(Start, run);
    StartSound();
    RunSound(Start, run);
    var s := After(Start, run);
    assert Start.emitted + Emits(run) == Emits(run);
    forall e | e in s.errorsSent ensures Reported(run, e) {
      ErrorsAreReported(Start, run, e);
    }
    forall e | ProviderFailure(e) in s.written ensures e in s.errorsSent {
      FailureWritten(s, e);
    }
  }

  lemma FailureWritten(s: State, e: string)
    requires Sound(s) && ProviderFailure(e) in s.written
    ensures e in s.errorsSent
  {
    if s.consumer.Gone? && !s.writeFailed {
      var n := |s.written| - 1;
      assert s.written == s.written[..n] + [s.written[n]];
    }
  }

  // ---- a cancelled request ends ----

  function Urgency(c: Consumer): nat {
    match c
    case Gone => 0
    case Writing(_, resume) => if resume.Draining? then 6 else if resume.Selecting? then 4 else 1
    case Cancelling => 2
    case Selecting => 3
    case Draining => 5
    case Checking => 7
  }

  /** The consumer's next step when it attends to a cancelled request. */
  function Attend(s: State): Event {
    match s.consumer
    case Selecting => TakeCancel
    case Cancelling => CancelSettled(false)
    case Checking => Check
    case Draining => if s.chunks == [] then DrainEnd else TakeChunk
    case _ => Write(true)
  }

  predicate ByConsumer(run: seq<Event>) {
    forall e :: e in run ==> !ByProducer(e)
  }

  lemma AttendSteps(s: State)
    requires Sound(s) && s.requestDone && !s.consumer.Gone?
    ensures Enabled(s, Attend(s)) && !ByProducer(Attend(s))
    ensures var t := Next(s, Attend(s));
            t.requestDone && (|t.chunks| < |s.chunks| || (t.chunks == s.chunks && Urgency(t.consumer) < Urgency(s.consumer)))
  {
    hide Forwarded;
  }

  /** Once the request is cancelled the consumer can always return by itself, whatever the provider does. */
  lemma {:induction false} CancelledCanEnd(s: State) returns (more: seq<Event>)
    requires Sound(s) && s.requestDone
    ensures Legal(s, more) && After(s, more).consumer.Gone? && ByConsumer(more)
    decreases |s.chunks|, Urgency(s.consumer)
  {
    hide Sound;
    if s.consumer.Gone? {
      more := [];
    } else {
      AttendSteps(s);
      NextSound(s, Attend(s));
      var rest := CancelledCanEnd(Next(s, Attend(s)));
      more := [Attend(s)] + rest;
      assert more[1..] == rest;
    }
  }
}
