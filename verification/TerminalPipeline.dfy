/** Terminal output from process to peer (hub/internal/terminal/attachment.go:113-265).

    Three threads share the two buffers: the reader pump, the starter that
    flushes the staging buffer once, and the writer pump.  The flush holds the
    attachment's mutex, and so does the reader while it decides where a chunk
    goes; the end of output does not take it.
  */
module TerminalPipeline {
  import opened Option
  import opened OutputBuffers

  // --- The attachment object, one call at a time ---

  class Attachment {
    var ready: bool
    const stage: StagingBuffer
    const queue: OutputQueue

    constructor (stage: StagingBuffer, queue: OutputQueue)
      ensures this.stage == stage && this.queue == queue && !ready
    {
      this.stage, this.queue, ready := stage, queue, false;
    }

    /** Output goes to staging until the attachment is ready, then to the queue. */
    method Deliver(b: Chunk)
      requires stage.Valid() && queue.Valid()
      modifies stage, queue
      ensures stage.Valid() && queue.Valid()
      ensures stage.chunks == if ready then old(stage.chunks) else Staged(old(stage.chunks), b, stage.cap)
      ensures queue.View() == if ready then Pushed(old(queue.View()), b) else old(queue.View())
    {
      if !ready {
        var _ := stage.Write(b);
        return;
      }
      queue.PushChunk(b);
    }

    method MarkReadyAndFlush()
      requires stage.Valid() && queue.Valid()
      modifies this, stage, queue
      ensures stage.Valid() && queue.Valid() && ready
      ensures stage.chunks == []
      ensures queue.View() == old(queue.View()).(chunks := old(queue.chunks) + old(stage.chunks))
    {
      ready := true;
      ghost var before := queue.View();
      var drained := stage.Drain();
      assert WithFirst(before, drained, 0) == before;
      for i := 0 to |drained|
        invariant stage.Valid() && queue.Valid() && stage.chunks == [] && ready
        invariant queue.View() == WithFirst(before, drained, i)
      {
        queue.PushChunk(drained[i]);
        OneMorePushed(before, drained, i);
      }
      assert drained[..|drained|] == drained;
    }
  }

  /** The queue with the first n drained chunks behind its own. */
  function WithFirst(q: Queue, drained: seq<Chunk>, n: nat): Queue
    requires n <= |drained|
  {
    q.(chunks := q.chunks + drained[..n])
  }

  lemma OneMorePushed(q: Queue, drained: seq<Chunk>, n: nat)
    requires n < |drained| && drained[n] != []
    ensures Pushed(WithFirst(q, drained, n), drained[n]) == WithFirst(q, drained, n + 1)
  {
    assert drained[..n + 1] == drained[..n] + [drained[n]];
  }

  // --- Reader, starter and writer ---

  datatype Config = Config(high: int, low: int, cap: nat, chunk: nat)

  /** What configuration validation guarantees. */
  predicate Sane(cfg: Config) {
    0 < cfg.low < cfg.high && cfg.chunk <= cfg.cap
  }

  /** `last` says the read that brought the chunk also reported the end. */
  datatype Reader =
    | Polling
    | Permitted
    | Got(chunk: Chunk, last: bool)
    | Pushing(chunk: Chunk, last: bool)
    | Ending
    | Ended
    | Stopped

  datatype Starter = NotReady | Flushing(draining: seq<Chunk>) | Flushed

  datatype Writer = Ready | Sending(chunk: Chunk) | SawDrained | ExitSent | NoExit | Broken(chunk: Chunk)

  /** `read`, `evicted`, `sent`, `popped`, `poppedAtPause` and `abnormal` are
      bookkeeping of the model. */
  datatype Pipe = Pipe(
    cfg: Config,
    reader: Reader,
    starter: Starter,
    writer: Writer,
    stage: seq<Chunk>,
    queue: Queue,
    read: seq<Chunk>,
    evicted: seq<Chunk>,
    sent: seq<Chunk>,
    popped: nat,
    poppedAtPause: nat,
    abnormal: bool)

  datatype Step =
    | Poll
    | CancelReader
    | ReadChunk(chunk: Chunk, last: bool)
    | ReadNothing(last: bool)
    | Decide
    | PushOne
    | EndOutput(code: Option<int>)
    | BeginFlush
    | FlushOne
    | EndFlush
    | PopOne
    | SendOk
    | SendFails
    | SendExit
    | CloseAbnormal

  predicate Enabled(s: Pipe, step: Step) {
    match step
    case Poll => s.reader == Polling
    case CancelReader => s.reader == Polling
    case ReadChunk(chunk, _) => s.reader == Permitted && 0 < |chunk| <= s.cfg.chunk
    case ReadNothing(_) => s.reader == Permitted
    case Decide => s.reader.Got? && !s.starter.Flushing?
    case PushOne => s.reader.Pushing?
    case EndOutput(_) => s.reader == Ending
    case BeginFlush => s.starter == NotReady
    case FlushOne => s.starter.Flushing? && s.starter.draining != []
    case EndFlush => s.starter == Flushing([])
    case PopOne => s.writer == Ready && !Pop(s.queue).0.Blocked?
    case SendOk => s.writer.Sending?
    case SendFails => s.writer.Sending?
    case SendExit => s.writer == SawDrained
    case CloseAbnormal => true
  }

  function AfterRead(last: bool): Reader {
    if last then Ending else Polling
  }

  function Polled(s: Pipe): Pipe {
    var (answer, q) := ShouldRead(s.queue, s.cfg.high, s.cfg.low);
    s.(queue := q,
       reader := match answer case Read => Permitted case Wait => Polling case Stop => Stopped,
       poppedAtPause := if q.paused && !s.queue.paused then s.popped else s.poppedAtPause)
  }

  function Decided(s: Pipe): Pipe
    requires s.reader.Got?
  {
    var c := s.reader.chunk;
    if s.starter == NotReady then
      var kept := |Evict(s.stage, |c|, s.cfg.cap)|;
      s.(stage := Staged(s.stage, c, s.cfg.cap),
         evicted := s.evicted + if kept <= |s.stage| then s.stage[..|s.stage| - kept] else [],
         reader := AfterRead(s.reader.last))
    else s.(reader := Pushing(c, s.reader.last))
  }

  function Popping(s: Pipe): Pipe {
    match Pop(s.queue)
    case (Popped(c), q) => s.(queue := q, writer := Sending(c), popped := s.popped + |c|)
    case (Drained, q) => s.(writer := SawDrained)
    case (Blocked, q) => s
  }

  function Apply(s: Pipe, step: Step): Pipe
    requires Enabled(s, step)
  {
    match step
    case Poll => Polled(s)
    case CancelReader => s.(reader := Stopped)
    case ReadChunk(chunk, last) => s.(reader := Got(chunk, last), read := s.read + [chunk])
    case ReadNothing(last) => s.(reader := AfterRead(last))
    case Decide => Decided(s)
    case PushOne => s.(queue := Pushed(s.queue, s.reader.chunk), reader := AfterRead(s.reader.last))
    case EndOutput(code) => s.(queue := ClosedWithExit(s.queue, code), reader := Ended)
    case BeginFlush => s.(starter := Flushing(s.stage), stage := [])
    case FlushOne =>
      s.(queue := Pushed(s.queue, s.starter.draining[0]), starter := Flushing(s.starter.draining[1..]))
    case EndFlush => s.(starter := Flushed)
    case PopOne => Popping(s)
    case SendOk => s.(writer := Ready, sent := s.sent + [s.writer.chunk])
    case SendFails => s.(writer := Broken(s.writer.chunk), queue := ClosedAbnormally(s.queue), abnormal := true)
    case SendExit => s.(writer := if s.queue.exitCode.Some? then ExitSent else NoExit)
    case CloseAbnormal => s.(queue := ClosedAbnormally(s.queue), abnormal := true)
  }

  predicate Init(s: Pipe) {
    s == Pipe(s.cfg, Polling, NotReady, Ready, [], Queue([], false, false, None), [], [], [], 0, 0, false)
  }

  /** Running these steps in this order leads from one state to the other. */
  ghost predicate Leads(s: Pipe, steps: seq<Step>, s': Pipe)
    decreases |steps|
  {
    if steps == [] then s == s'
    else Enabled(s, steps[0]) && Leads(Apply(s, steps[0]), steps[1..], s')
  }

  ghost predicate Reachable(s: Pipe) {
    exists init, steps :: Init(init) && Leads(init, steps, s)
  }

  // --- What every step keeps ---

  function WriterHand(s: Pipe): seq<Chunk> {
    if s.writer.Sending? || s.writer.Broken? then [s.writer.chunk] else []
  }

  function StarterHand(s: Pipe): seq<Chunk> {
    if s.starter.Flushing? then s.starter.draining else []
  }

  function ReaderHand(s: Pipe): seq<Chunk> {
    if s.reader.Got? || s.reader.Pushing? then [s.reader.chunk] else []
  }

  predicate NonEmpty(chunks: seq<Chunk>) {
    forall i :: 0 <= i < |chunks| ==> chunks[i] != []
  }

  predicate Shape(s: Pipe) {
    && (s.starter == NotReady ==> s.queue.chunks == [] && s.sent == [] && WriterHand(s) == [])
    && (s.starter != NotReady ==> s.stage == [])
    && (s.reader.Pushing? ==> s.starter == Flushed)
    && (s.reader.Got? || s.reader.Pushing? ==> 0 < |s.reader.chunk| <= s.cfg.chunk)
    && NonEmpty(s.stage) && NonEmpty(StarterHand(s))
  }

  /** What is on its way, oldest first. */
  function Onward(s: Pipe): seq<Chunk> {
    WriterHand(s) + (s.queue.chunks + (StarterHand(s) + (s.stage + ReaderHand(s))))
  }

  /** Everything read, in order, is evicted, sent or in exactly one place on the way. */
  predicate Accounted(s: Pipe) {
    s.read == s.evicted + (s.sent + Onward(s))
  }

  function Peak(cfg: Config): int {
    if cfg.high - 1 > cfg.cap then cfg.high - 1 else cfg.cap
  }

  predicate HoldsPermit(s: Pipe) {
    s.reader == Permitted || s.reader.Got? || s.reader.Pushing?
  }

  predicate Bounded(s: Pipe) {
    Sane(s.cfg) ==> Within(s)
  }

  predicate Within(s: Pipe) {
    && Total(s.stage) <= s.cfg.cap
    && (s.starter.Flushing? ==> Total(s.queue.chunks) + Total(s.starter.draining) <= s.cfg.cap)
    && Total(s.queue.chunks) <= Peak(s.cfg) + if HoldsPermit(s) then 0 else s.cfg.chunk
  }

  predicate Hysteresis(s: Pipe) {
    && s.poppedAtPause <= s.popped
    && (s.queue.paused ==> Total(s.queue.chunks) + (s.popped - s.poppedAtPause) >= s.cfg.high)
  }

  /** Only the end of output closes a queue that nothing closed abnormally, and
      after it the reader adds nothing. */
  predicate EndIsLast(s: Pipe) {
    && (s.queue.closed && !s.abnormal ==> s.reader == Ended)
    && (s.writer == SawDrained || s.writer == ExitSent || s.writer == NoExit ==> s.queue.closed)
    && (s.writer.Broken? ==> s.abnormal)
  }

  predicate Inv(s: Pipe) {
    Shape(s) && Accounted(s) && Bounded(s) && Hysteresis(s) && EndIsLast(s)
  }

  lemma DecideKeepsShape(s: Pipe)
    requires Shape(s) && Enabled(s, Decide)
    ensures Shape(Decided(s))
  {
    if s.starter == NotReady {
      EvictKeepsLongestTail(s.stage, |s.reader.chunk|, s.cfg.cap);
    }
  }

  lemma FlushKeepsShape(s: Pipe)
    requires Shape(s) && Enabled(s, FlushOne)
    ensures Shape(Apply(s, FlushOne))
  {
  }

  lemma StepKeepsShape(s: Pipe, step: Step)
    requires Shape(s) && Enabled(s, step)
    ensures Shape(Apply(s, step))
  {
    match step
    case Decide => DecideKeepsShape(s);
    case FlushOne => FlushKeepsShape(s);
    case _ =>
  }

  lemma Regroup(a: seq<Chunk>, b: seq<Chunk>, c: seq<Chunk>)
    ensures (a + b) + c == a + (b + c)
  {
  }

  /** A chunk staged behind what eviction left, or moved to the reader's other hand. */
  lemma DecideKeepsAccount(s: Pipe)
    requires Shape(s) && Accounted(s) && Enabled(s, Decide)
    ensures Accounted(Decided(s))
  {
    if s.starter == NotReady {
      var c := s.reader.chunk;
      EvictKeepsLongestTail(s.stage, |c|, s.cfg.cap);
      var kept := Evict(s.stage, |c|, s.cfg.cap);
      var gone := s.stage[..|s.stage| - |kept|];
      var s' := Decided(s);
      assert Onward(s) == s.stage + [c] && Onward(s') == kept + [c];
      assert s.stage == gone + kept && s'.evicted == s.evicted + gone;
      Regroup(gone, kept, [c]);
      Regroup(s.evicted, gone, kept + [c]);
      assert s.sent + Onward(s) == Onward(s) && s'.sent + Onward(s') == Onward(s');
    }
  }

  lemma QueueKeepsAccount(s: Pipe, s': Pipe)
    requires Accounted(s) && s'.read == s.read && s'.evicted == s.evicted
    requires s'.sent + WriterHand(s') == s.sent + WriterHand(s)
    requires s'.queue.chunks + (StarterHand(s') + (s'.stage + ReaderHand(s')))
             == s.queue.chunks + (StarterHand(s) + (s.stage + ReaderHand(s)))
    ensures Accounted(s')
  {
    var rest := s.queue.chunks + (StarterHand(s) + (s.stage + ReaderHand(s)));
    Regroup(s.sent, WriterHand(s), rest);
    Regroup(s'.sent, WriterHand(s'), rest);
  }

  lemma HandOver(q: seq<Chunk>, rest: seq<Chunk>)
    requires q != []
    ensures [] + (q + rest) == [q[0]] + (q[1..] + rest)
  {
  }

  lemma PopKeepsAccount(s: Pipe)
    requires Accounted(s) && Enabled(s, PopOne)
    ensures Accounted(Popping(s))
  {
    if s.queue.chunks != [] {
      HandOver(s.queue.chunks, StarterHand(s) + (s.stage + ReaderHand(s)));
      assert Onward(Popping(s)) == Onward(s);
    }
  }

  lemma FlushKeepsAccount(s: Pipe)
    requires Shape(s) && Accounted(s) && Enabled(s, FlushOne)
    ensures Accounted(Apply(s, FlushOne))
  {
    var d, rest := s.starter.draining, s.stage + ReaderHand(s);
    assert d == [d[0]] + d[1..] && d[0] != [];
    Regroup([d[0]], d[1..], rest);
    Regroup(s.queue.chunks, [d[0]], d[1..] + rest);
    QueueKeepsAccount(s, Apply(s, FlushOne));
  }

  lemma PushKeepsAccount(s: Pipe)
    requires Shape(s) && Accounted(s) && Enabled(s, PushOne)
    ensures Accounted(Apply(s, PushOne))
  {
    var s', c := Apply(s, PushOne), s.reader.chunk;
    assert StarterHand(s) == [] && s.stage == [] && ReaderHand(s') == [];
    assert StarterHand(s) + (s.stage + ReaderHand(s)) == [c];
    assert StarterHand(s') + (s'.stage + ReaderHand(s')) == [];
    QueueKeepsAccount(s, s');
  }

  lemma ReadKeepsAccount(s: Pipe, chunk: Chunk, last: bool)
    requires Accounted(s) && Enabled(s, ReadChunk(chunk, last))
    ensures Accounted(Apply(s, ReadChunk(chunk, last)))
  {
    var s' := Apply(s, ReadChunk(chunk, last));
    var q, d, w := s.queue.chunks, StarterHand(s), WriterHand(s);
    assert s.stage + ReaderHand(s) == s.stage && s'.stage + ReaderHand(s') == s.stage + [chunk];
    Regroup(d, s.stage, [chunk]);
    Regroup(q, d + s.stage, [chunk]);
    Regroup(w, q + (d + s.stage), [chunk]);
    assert Onward(s') == Onward(s) + [chunk];
    Regroup(s.sent, Onward(s), [chunk]);
    Regroup(s.evicted, s.sent + Onward(s), [chunk]);
  }

  lemma SmallKeepsAccount(s: Pipe, step: Step)
    requires Shape(s) && Accounted(s) && Enabled(s, step)
    requires step.BeginFlush? || step.EndFlush? || step.SendOk? || step.SendFails?
    ensures Accounted(Apply(s, step))
  {
    var s' := Apply(s, step);
    if step.BeginFlush? {
      assert StarterHand(s) + (s.stage + ReaderHand(s)) == s.stage + ReaderHand(s);
      assert s'.stage + ReaderHand(s') == ReaderHand(s);
    }
    if step.SendOk? {
      assert s.sent + [s.writer.chunk] == s'.sent + WriterHand(s');
    }
    QueueKeepsAccount(s, s');
  }

  lemma StepKeepsAccount(s: Pipe, step: Step)
    requires Shape(s) && Accounted(s) && Enabled(s, step)
    ensures Accounted(Apply(s, step))
  {
    match step
    case ReadChunk(chunk, last) => ReadKeepsAccount(s, chunk, last);
    case Decide => DecideKeepsAccount(s);
    case PushOne => PushKeepsAccount(s);
    case PopOne => PopKeepsAccount(s);
    case FlushOne => FlushKeepsAccount(s);
    case BeginFlush => SmallKeepsAccount(s, step);
    case EndFlush => SmallKeepsAccount(s, step);
    case SendOk => SmallKeepsAccount(s, step);
    case SendFails => SmallKeepsAccount(s, step);
    case _ =>
      var s' := Apply(s, step);
      assert WriterHand(s') == WriterHand(s) && StarterHand(s') == StarterHand(s) && ReaderHand(s') == ReaderHand(s);
      assert Onward(s') == Onward(s);
  }

  lemma PollKeepsBound(s: Pipe)
    requires Bounded(s) && s.reader == Polling
    ensures Bounded(Polled(s))
  {
  }

  lemma DeliverKeepsBound(s: Pipe, step: Step)
    requires Shape(s) && Bounded(s) && Enabled(s, step) && (step.Decide? || step.PushOne?)
    ensures Bounded(Apply(s, step))
  {
    if step.PushOne? {
      TotalSplit(s.queue.chunks, [s.reader.chunk]);
    } else if s.starter == NotReady {
      if Sane(s.cfg) {
        StagedFits(s.stage, s.reader.chunk, s.cfg.cap);
      }
    }
  }

  lemma FlushKeepsBound(s: Pipe, step: Step)
    requires Shape(s) && Bounded(s) && Enabled(s, step) && (step.BeginFlush? || step.FlushOne? || step.EndFlush?)
    ensures Bounded(Apply(s, step))
  {
    if step.FlushOne? {
      TotalSplit(s.queue.chunks, [s.starter.draining[0]]);
    }
  }

  lemma StepKeepsBound(s: Pipe, step: Step)
    requires Shape(s) && Bounded(s) && Enabled(s, step)
    ensures Bounded(Apply(s, step))
  {
    match step
    case Poll => PollKeepsBound(s);
    case Decide => DeliverKeepsBound(s, step);
    case PushOne => DeliverKeepsBound(s, step);
    case BeginFlush => FlushKeepsBound(s, step);
    case FlushOne => FlushKeepsBound(s, step);
    case EndFlush => FlushKeepsBound(s, step);
    case _ =>
  }

  lemma StepKeepsHysteresis(s: Pipe, step: Step)
    requires Hysteresis(s) && Enabled(s, step)
    ensures Hysteresis(Apply(s, step))
  {
    match step
    case PushOne => TotalSplit(s.queue.chunks, [s.reader.chunk]);
    case FlushOne => TotalSplit(s.queue.chunks, [s.starter.draining[0]]);
    case _ =>
  }

  lemma StepKeepsEnd(s: Pipe, step: Step)
    requires EndIsLast(s) && Enabled(s, step)
    ensures EndIsLast(Apply(s, step))
  {
  }

  lemma StepKeepsInv(s: Pipe, step: Step)
    requires Inv(s) && Enabled(s, step)
    ensures Inv(Apply(s, step))
  {
    StepKeepsShape(s, step);
    StepKeepsAccount(s, step);
    StepKeepsBound(s, step);
    StepKeepsHysteresis(s, step);
    StepKeepsEnd(s, step);
  }

  lemma {:induction false} LeadsKeepsInv(s: Pipe, steps: seq<Step>, s': Pipe)
    requires Inv(s) && Leads(s, steps, s')
    ensures Inv(s')
    decreases |steps|
  {
    if steps != [] {
      StepKeepsInv(s, steps[0]);
      LeadsKeepsInv(Apply(s, steps[0]), steps[1..], s');
    }
  }

  lemma ReachableInv(s: Pipe)
    requires Reachable(s)
    ensures Inv(s)
  {
    var init, steps :| Init(init) && Leads(init, steps, s);
    LeadsKeepsInv(init, steps, s);
  }

  // --- Main results, over every reachable state ---

  /** Stream fidelity: what was sent, then what the writer holds, what is queued,
      what the flush holds, what is staged and what the reader holds, is the
      sequence of chunks read without a prefix of whole chunks; and nothing is
      evicted any more once the attachment is ready. */
  lemma StreamFidelity(s: Pipe, step: Step)
    requires Reachable(s)
    ensures |s.evicted| <= |s.read| && s.evicted == s.read[..|s.evicted|]
    ensures s.sent + Onward(s) == s.read[|s.evicted|..]
    ensures Enabled(s, step) && s.starter != NotReady ==> Apply(s, step).evicted == s.evicted
  {
    ReachableInv(s);
  }

  /** Memory bound: queued bytes, plus a whole chunk for a permitted read that has
      not arrived, never exceed the larger of the two limits by more than a chunk. */
  lemma MemoryBound(s: Pipe)
    requires Reachable(s) && Sane(s.cfg)
    ensures Total(s.queue.chunks) + (if HoldsPermit(s) then s.cfg.chunk else 0) <= Peak(s.cfg) + s.cfg.chunk
    ensures Total(s.stage) <= s.cfg.cap
  {
    ReachableInv(s);
  }

  /** Hysteresis: between a pause and the next permitted read at least
      high - low + 1 bytes are popped. */
  lemma PauseDrains(s: Pipe)
    requires Reachable(s) && Enabled(s, Poll) && s.queue.paused
    requires Apply(s, Poll).reader == Permitted
    ensures s.popped - s.poppedAtPause >= s.cfg.high - s.cfg.low + 1
  {
    ReachableInv(s);
  }

  predicate Complete(s: Pipe) {
    s.read == s.evicted + s.sent
  }

  /** Nothing is staged and the flush holds nothing. */
  predicate NothingUnflushed(s: Pipe) {
    s.stage == [] && StarterHand(s) == []
  }

  predicate NothingLeftBehind(s: Pipe) {
    && s.reader == Ended && NothingUnflushed(s)
    && (s.writer == SawDrained || s.writer == ExitSent || s.writer == NoExit ==> s.queue.chunks == [])
  }

  lemma {:induction false} LeadsKeepsNothingBehind(s: Pipe, steps: seq<Step>, s': Pipe)
    requires NothingLeftBehind(s) && Leads(s, steps, s')
    ensures NothingLeftBehind(s')
    decreases |steps|
  {
    if steps != [] {
      LeadsKeepsNothingBehind(Apply(s, steps[0]), steps[1..], s');
    }
  }

  /** The writer sends out the whole queue and then the exit frame. */
  lemma {:induction false} WriterDrains(s: Pipe) returns (steps: seq<Step>, s': Pipe)
    requires s.queue.closed && s.queue.exitCode.Some?
    requires s.writer == Ready || s.writer.Sending?
    ensures Leads(s, steps, s') && s'.writer == ExitSent
    ensures s'.read == s.read && s'.evicted == s.evicted && s'.abnormal == s.abnormal
    ensures s'.sent == s.sent + WriterHand(s) + s.queue.chunks
    decreases |s.queue.chunks|, s.writer.Sending?
  {
    if s.writer == Ready && s.queue.chunks == [] {
      steps, s' := LastSteps(s);
    } else {
      var step := if s.writer.Sending? then SendOk else PopOne;
      var rest;
      rest, s' := WriterDrains(Apply(s, step));
      steps := [step] + rest;
      LeadsCons(s, step, rest, s');
      NothingReordered(s, step);
    }
  }

  lemma NothingReordered(s: Pipe, step: Step)
    requires Enabled(s, step)
    requires (s.writer.Sending? && step.SendOk?) || (s.writer == Ready && s.queue.chunks != [] && step.PopOne?)
    ensures var s' := Apply(s, step);
            s'.sent + WriterHand(s') + s'.queue.chunks == s.sent + WriterHand(s) + s.queue.chunks
  {
  }

  lemma LastSteps(s: Pipe) returns (steps: seq<Step>, s': Pipe)
    requires s.queue.closed && s.queue.exitCode.Some? && s.writer == Ready && s.queue.chunks == []
    ensures Leads(s, steps, s') && s'.writer == ExitSent
    ensures s'.read == s.read && s'.evicted == s.evicted && s'.abnormal == s.abnormal && s'.sent == s.sent
  {
    var drained := Apply(s, PopOne);
    s' := Apply(drained, SendExit);
    LeadsCons(drained, SendExit, [], s');
    steps := [PopOne] + ([SendExit] + []);
    LeadsCons(s, PopOne, [SendExit] + [], s');
  }

  lemma LeadsCons(s: Pipe, step: Step, rest: seq<Step>, s': Pipe)
    requires Enabled(s, step) && Leads(Apply(s, step), rest, s')
    ensures Leads(s, [step] + rest, s')
  {
    assert ([step] + rest)[1..] == rest;
  }

  /** A continuation that sends the exit frame over a sound connection. */
  ghost predicate SendsExit(s: Pipe, steps: seq<Step>, s': Pipe) {
    Leads(s, steps, s') && s'.writer == ExitSent && !s'.abnormal
  }

  /** Exit ordering, exactly: when the process ends while the connection is
      sound, the exit frame is certain to follow every chunk that was read and
      not evicted if and only if nothing is still staged or being flushed.  The
      end of output does not wait for the flush, so otherwise the writer may
      find the queue empty and send the exit frame first. */
  lemma ExitFollowsOutput(s: Pipe, code: Option<int>)
    requires Reachable(s) && Enabled(s, EndOutput(code)) && code.Some? && !s.abnormal
    ensures NothingUnflushed(s) <==>
            forall steps, s' :: SendsExit(Apply(s, EndOutput(code)), steps, s') ==> Complete(s')
  {
    ReachableInv(s);
    var ended := Apply(s, EndOutput(code));
    StepKeepsInv(s, EndOutput(code));
    if NothingUnflushed(s) {
      forall steps, s' | SendsExit(ended, steps, s')
        ensures Complete(s')
      {
        LeadsKeepsInv(ended, steps, s');
        LeadsKeepsNothingBehind(ended, steps, s');
      }
    } else {
      var steps, s' := WriterDrains(ended);
      assert |s'.evicted| + |s'.sent| < |s'.read|;
      assert SendsExit(ended, steps, s') && !Complete(s');
    }
  }

  /** In particular when the flush had finished. */
  lemma ExitAfterFlush(s: Pipe, code: Option<int>, steps: seq<Step>, s': Pipe)
    requires Reachable(s) && Enabled(s, EndOutput(code)) && !s.abnormal && s.starter == Flushed
    requires SendsExit(Apply(s, EndOutput(code)), steps, s')
    ensures Complete(s')
  {
    ReachableInv(s);
    var ended := Apply(s, EndOutput(code));
    StepKeepsInv(s, EndOutput(code));
    LeadsKeepsInv(ended, steps, s');
    LeadsKeepsNothingBehind(ended, steps, s');
  }

  /** Back-pressure never stalls the pipe: where a reader is told to wait, there is
      something for the writer to pop, and every pop brings the queue nearer to the
      mark below which the reader is let go on. */
  lemma WaitingMeansPoppable(s: Pipe)
    requires Sane(s.cfg) && s.reader == Polling && !s.queue.closed
    ensures var s' := Apply(s, Poll);
            || s'.reader == Permitted
            || (&& s'.reader == Polling && Pop(s'.queue).0.Popped?
                && Total(s'.queue.chunks) == |Pop(s'.queue).0.chunk| + Total(Pop(s'.queue).1.chunks))
    ensures Total(s.queue.chunks) < s.cfg.low ==> Apply(s, Poll).reader == Permitted
  {
    MayReadMeaning(s.queue, s.cfg.high, s.cfg.low);
  }

  // --- A process that ends before its flush ---

  function Fresh(cfg: Config): Pipe {
    Pipe(cfg, Polling, NotReady, Ready, [], Queue([], false, false, None), [], [], [], 0, 0, false)
  }

  lemma ThreeSteps(s: Pipe, a: Step, b: Step, c: Step)
    requires Enabled(s, a) && Enabled(Apply(s, a), b) && Enabled(Apply(Apply(s, a), b), c)
    ensures Leads(s, [a] + ([b] + ([c] + [])), Apply(Apply(Apply(s, a), b), c))
  {
    var s1, s2 := Apply(s, a), Apply(Apply(s, a), b);
    LeadsCons(s2, c, [], Apply(s2, c));
    LeadsCons(s1, b, [c] + [], Apply(s2, c));
    LeadsCons(s, a, [b] + ([c] + []), Apply(s2, c));
  }

  lemma OneByteRead(cfg: Config)
    requires cfg == Config(4, 1, 4, 1)
    ensures var s, read := Fresh(cfg), ReadChunk([7], true);
            && Enabled(s, Poll) && Apply(s, Poll) == s.(reader := Permitted)
            && Enabled(Apply(s, Poll), read)
            && Apply(Apply(s, Poll), read) == s.(reader := Got([7], true), read := [[7]])
  {
  }

  /** The process writes one byte and ends before the attachment is ready. */
  lemma OutputMayBeUnflushed() returns (s: Pipe)
    ensures Reachable(s) && Sane(s.cfg) && !s.abnormal
    ensures Enabled(s, EndOutput(Some(0))) && !NothingUnflushed(s)
  {
    var cfg := Config(4, 1, 4, 1);
    var read := ReadChunk([7], true);
    s := Fresh(cfg).(reader := Ending, stage := [[7]], read := [[7]]);
    assert Init(Fresh(cfg));
    OneByteRead(cfg);
    assert Decided(Fresh(cfg).(reader := Got([7], true), read := [[7]])) == s;
    ThreeSteps(Fresh(cfg), Poll, read, Decide);
  }
}
