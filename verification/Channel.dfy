/**
 Producer and receiver as a step system over the bounded channel: every interleaving of sends, receives,
 batch writes and the final flush, with a producer that may fail early and a write that may fail.
 */
module Channel {
  import opened Base
  import opened EventIdentities
  import opened Pipeline

  type Events = seq<NormalizedEvent>

  datatype Producer = Sending | Ended(ok: bool)

  datatype Receiver = Receiving | Finished | Broken

  /** `sent` remembers everything that went into the channel. */
  datatype Flow = Flow(unsent: Events, sent: Events, channel: Events, pending: Events, inFlight: Option<Events>,
                       written: seq<Events>, producer: Producer, receiver: Receiver)

  ghost predicate Start(s: Flow, input: Events) {
    s == Flow(input, [], [], [], None, [], Sending, Receiving)
  }

  /** The producer waits while the channel is full. */
  ghost predicate Send(s: Flow, s': Flow, capacity: nat) {
    && s.producer.Sending? && s.receiver.Receiving? && s.unsent != [] && |s.channel| < capacity
    && s' == s.(unsent := s.unsent[1..], sent := s.sent + [s.unsent[0]], channel := s.channel + [s.unsent[0]])
  }

  /** The producer returns, and its sender is dropped: after its last event, or with an error at any time. */
  ghost predicate EndProducer(s: Flow, s': Flow) {
    s.producer.Sending? && (s' == s.(producer := Ended(false)) || (s.unsent == [] && s' == s.(producer := Ended(true))))
  }

  /** The receiver takes the oldest event; it does so only between two batch writes. */
  ghost predicate Receive(s: Flow, s': Flow, cfg: PipelineConfig) {
    && s.channel != [] && s.inFlight.None? && s.receiver.Receiving?
    && var rest := s.(channel := s.channel[1..]);
       var more := s.pending + [s.channel[0]];
       if ShouldSkip(s.channel[0], cfg) then s' == rest
       else if |more| >= cfg.batchSize then s' == rest.(pending := [], inFlight := Some(more))
       else s' == rest.(pending := more)
  }

  ghost predicate Written(s: Flow, s': Flow) {
    && s.inFlight.Some? && s.receiver.Receiving?
    && s' == s.(inFlight := None, written := s.written + [s.inFlight.value])
  }

  /** Writing the batch in flight fails, and the receiver gives up. */
  ghost predicate Break(s: Flow, s': Flow) {
    s.inFlight.Some? && s.receiver.Receiving? && s' == s.(receiver := Broken)
  }

  /** The channel is closed once its sender is gone and it is empty. */
  ghost predicate Closed(s: Flow) {
    s.producer.Ended? && s.channel == [] && s.inFlight.None? && s.receiver.Receiving?
  }

  ghost predicate Flush(s: Flow, s': Flow) {
    Closed(s) && s.pending != [] && s' == s.(pending := [], inFlight := Some(s.pending))
  }

  ghost predicate Finish(s: Flow, s': Flow) {
    Closed(s) && s.pending == [] && s' == s.(receiver := Finished)
  }

  ghost predicate Step(s: Flow, s': Flow, cfg: PipelineConfig, capacity: nat) {
    Send(s, s', capacity) || EndProducer(s, s') || Receive(s, s', cfg) || Written(s, s') || Break(s, s') || Flush(s, s')
    || Finish(s, s')
  }

  ghost predicate Run(trace: seq<Flow>, input: Events, cfg: PipelineConfig, capacity: nat) {
    && trace != [] && Start(trace[0], input)
    && forall i | 0 <= i < |trace| - 1 :: Step(trace[i], trace[i + 1], cfg, capacity)
  }

  datatype Outcome = Success | ProducerError | PipelineError

  /** The receiver's error comes first; otherwise the producer's result decides. */
  function Joined(s: Flow): Option<Outcome> {
    if s.receiver.Broken? then Some(PipelineError)
    else if s.receiver.Receiving? || s.producer.Sending? then None
    else if s.producer.ok then Some(Success)
    else Some(ProducerError)
  }

  // ---------------------------------------------------------------- the invariant

  /** The batches written and the one in flight. */
  ghost function Begun(s: Flow): seq<Events> {
    s.written + if s.inFlight.Some? then [s.inFlight.value] else []
  }

  ghost function ToCome(s: Flow, cfg: PipelineConfig): Events {
    s.pending + Accepted(s.channel, cfg)
  }

  ghost predicate AllFull(batches: seq<Events>, n: nat) {
    forall b | 0 <= b < |batches| :: |batches[b]| == n
  }

  /** The batches begun and the chunks of what is still to come are the chunks of everything sent. */
  ghost predicate Inv(s: Flow, input: Events, cfg: PipelineConfig, capacity: nat)
    requires cfg.batchSize > 0
  {
    && s.sent + s.unsent == input
    && Chunks(Accepted(s.sent, cfg), cfg.batchSize) == Begun(s) + Chunks(ToCome(s, cfg), cfg.batchSize)
    && (s.producer.Sending? ==> AllFull(Begun(s), cfg.batchSize))
    && |s.channel| <= capacity && |s.pending| < cfg.batchSize
    && (s.channel != [] ==> AllFull(Begun(s), cfg.batchSize))
    && (s.inFlight.Some? ==> s.inFlight.value != [] && s.pending == [])
    && (s.receiver.Finished? ==> s.producer.Ended? && s.channel == [] && s.pending == [] && s.inFlight.None?)
    && (s.producer.Ended? && s.producer.ok ==> s.unsent == [])
  }

  lemma OneAccepted(e: NormalizedEvent, cfg: PipelineConfig)
    ensures Accepted([e], cfg) == if ShouldSkip(e, cfg) then [] else [e]
  {
    assert [e][..0] == [];
  }

  /** Chunking is stable under more input behind full batches. */
  lemma ChunksGrow(all: Events, full: seq<Events>, rest: Events, more: Events, n: nat)
    requires n > 0 && AllFull(full, n) && Chunks(all, n) == full + Chunks(rest, n)
    ensures Chunks(all + more, n) == full + Chunks(rest + more, n)
  {
    ChunksFlatten(all, n);
    ChunksFlatten(rest, n);
    FlattenAppend(full, Chunks(rest, n));
    Associates(Flatten(full), rest, more);
    ChunksSplit(full, rest + more, n);
  }

  /** Sending adds to what is still to come and leaves the batches begun alone. */
  lemma SendKeepsChunks(s: Flow, s': Flow, cfg: PipelineConfig, capacity: nat)
    requires cfg.batchSize > 0 && Send(s, s', capacity) && AllFull(Begun(s), cfg.batchSize)
    requires Chunks(Accepted(s.sent, cfg), cfg.batchSize) == Begun(s) + Chunks(ToCome(s, cfg), cfg.batchSize)
    ensures Chunks(Accepted(s'.sent, cfg), cfg.batchSize) == Begun(s') + Chunks(ToCome(s', cfg), cfg.batchSize)
  {
    var more := Accepted([s.unsent[0]], cfg);
    AcceptedAppend(s.sent, [s.unsent[0]], cfg);
    AcceptedAppend(s.channel, [s.unsent[0]], cfg);
    ChunksGrow(Accepted(s.sent, cfg), Begun(s), ToCome(s, cfg), more, cfg.batchSize);
    Associates(s.pending, Accepted(s.channel, cfg), more);
  }

  lemma SendKeepsInput(s: Flow, s': Flow, capacity: nat)
    requires Send(s, s', capacity)
    ensures s'.sent + s'.unsent == s.sent + s.unsent && Begun(s') == Begun(s)
  {
  }

  lemma SendKeepsInv(s: Flow, s': Flow, input: Events, cfg: PipelineConfig, capacity: nat)
    requires cfg.batchSize > 0 && Inv(s, input, cfg, capacity) && Send(s, s', capacity)
    ensures Inv(s', input, cfg, capacity)
  {
    SendKeepsChunks(s, s', cfg, capacity);
    SendKeepsInput(s, s', capacity);
  }

  lemma AcceptedHead(channel: Events, cfg: PipelineConfig)
    requires channel != []
    ensures Accepted(channel, cfg)
         == (if ShouldSkip(channel[0], cfg) then [] else [channel[0]]) + Accepted(channel[1..], cfg)
  {
    assert channel == [channel[0]] + channel[1..];
    AcceptedAppend([channel[0]], channel[1..], cfg);
    OneAccepted(channel[0], cfg);
  }

  lemma FirstChunkTaken(begun: seq<Events>, batch: Events, rest: Events, n: nat)
    requires n > 0 && |batch| == n
    ensures begun + Chunks(batch + rest, n) == (begun + [batch]) + Chunks([] + rest, n)
  {
    ChunksCons(batch, rest, n);
    assert [] + rest == rest;
    Associates(begun, [batch], Chunks(rest, n));
  }

  lemma ReceiveKeepsChunks(s: Flow, s': Flow, cfg: PipelineConfig)
    requires cfg.batchSize > 0 && |s.pending| < cfg.batchSize && Receive(s, s', cfg)
    ensures Begun(s') + Chunks(ToCome(s', cfg), cfg.batchSize) == Begun(s) + Chunks(ToCome(s, cfg), cfg.batchSize)
  {
    var e, rest := s.channel[0], Accepted(s.channel[1..], cfg);
    AcceptedHead(s.channel, cfg);
    if ShouldSkip(e, cfg) {
      assert [] + rest == rest;
    } else {
      var more := s.pending + [e];
      Associates(s.pending, [e], rest);
      assert ToCome(s, cfg) == more + rest;
      if |more| >= cfg.batchSize {
        assert Begun(s) == s.written;
        FirstChunkTaken(s.written, more, rest, cfg.batchSize);
      }
    }
  }

  lemma ReceiveKeepsInv(s: Flow, s': Flow, input: Events, cfg: PipelineConfig, capacity: nat)
    requires cfg.batchSize > 0 && Inv(s, input, cfg, capacity) && Receive(s, s', cfg)
    ensures Inv(s', input, cfg, capacity)
  {
    ReceiveKeepsChunks(s, s', cfg);
    assert Begun(s) == s.written;
    forall b | 0 <= b < |Begun(s')| ensures |Begun(s')[b]| == cfg.batchSize {
      if b < |s.written| { assert Begun(s')[b] == Begun(s)[b]; }
    }
  }

  lemma FlushKeepsInv(s: Flow, s': Flow, input: Events, cfg: PipelineConfig, capacity: nat)
    requires cfg.batchSize > 0 && Inv(s, input, cfg, capacity) && Flush(s, s')
    ensures Inv(s', input, cfg, capacity)
  {
    assert ToCome(s, cfg) == s.pending && ToCome(s', cfg) == [];
    assert Begun(s) == s.written;
    assert Begun(s') + Chunks<NormalizedEvent>([], cfg.batchSize) == s.written + [s.pending];
  }

  lemma StepKeepsInv(s: Flow, s': Flow, input: Events, cfg: PipelineConfig, capacity: nat)
    requires cfg.batchSize > 0 && Inv(s, input, cfg, capacity) && Step(s, s', cfg, capacity)
    ensures Inv(s', input, cfg, capacity)
  {
    if Send(s, s', capacity) { SendKeepsInv(s, s', input, cfg, capacity); }
    else if Receive(s, s', cfg) { ReceiveKeepsInv(s, s', input, cfg, capacity); }
    else if Flush(s, s') { FlushKeepsInv(s, s', input, cfg, capacity); }
    else { assert Begun(s') == Begun(s) && ToCome(s', cfg) == ToCome(s, cfg); }
  }

  /** Every state of every interleaving satisfies the invariant. */
  lemma {:induction false} RunKeepsInv(trace: seq<Flow>, input: Events, cfg: PipelineConfig, capacity: nat, i: nat)
    requires cfg.batchSize > 0 && Run(trace, input, cfg, capacity) && i < |trace|
    ensures Inv(trace[i], input, cfg, capacity)
    decreases i
  {
    if i == 0 {
      assert [] + input == input;
      assert ToCome(trace[0], cfg) == [];
      assert Begun(trace[0]) + Chunks<NormalizedEvent>([], cfg.batchSize) == [];
    } else {
      RunKeepsInv(trace, input, cfg, capacity, i - 1);
      StepKeepsInv(trace[i - 1], trace[i], input, cfg, capacity);
    }
  }

  /** Nothing accepted is lost, duplicated or reordered anywhere between the producer and the writer. */
  lemma NothingLost(trace: seq<Flow>, input: Events, cfg: PipelineConfig, capacity: nat, i: nat)
    requires cfg.batchSize > 0 && Run(trace, input, cfg, capacity) && i < |trace|
    ensures var s := trace[i];
            && Flatten(s.written) + (if s.inFlight.Some? then s.inFlight.value else []) + s.pending
                 + Accepted(s.channel + s.unsent, cfg)
                 == Accepted(input, cfg)
            && |s.channel| <= capacity && |s.pending| < cfg.batchSize
  {
    RunKeepsInv(trace, input, cfg, capacity, i);
    var s := trace[i];
    var flying := if s.inFlight.Some? then s.inFlight.value else [];
    ChunksFlatten(Accepted(s.sent, cfg), cfg.batchSize);
    ChunksFlatten(ToCome(s, cfg), cfg.batchSize);
    FlattenAppend(Begun(s), Chunks(ToCome(s, cfg), cfg.batchSize));
    assert Flatten(Begun(s)) == Flatten(s.written) + flying by {
      if s.inFlight.Some? { FlattenSnoc(s.written, flying); }
      else { assert Begun(s) == s.written && Flatten(s.written) + [] == Flatten(s.written); }
    }
    AcceptedAppend(s.sent, s.unsent, cfg);
    AcceptedAppend(s.channel, s.unsent, cfg);
    Associates(Flatten(s.written) + flying, s.pending, Accepted(s.channel, cfg));
    Associates(Flatten(s.written) + flying + s.pending, Accepted(s.channel, cfg), Accepted(s.unsent, cfg));
  }

  /**
   What each outcome means. Success: the chunks of the whole input are written. A producer error: still, everything
   it had sent is written. A pipeline error: the batches before the failed one are written.
   */
  lemma OutcomeTellsWhatIsWritten(trace: seq<Flow>, input: Events, cfg: PipelineConfig, capacity: nat)
    requires cfg.batchSize > 0 && Run(trace, input, cfg, capacity)
    ensures var s := trace[|trace| - 1];
            && s.sent <= input
            && (Joined(s) == Some(Success) ==> s.sent == input)
            && (Joined(s) == Some(Success) || Joined(s) == Some(ProducerError) ==>
                  s.written == Chunks(Accepted(s.sent, cfg), cfg.batchSize))
            && (Joined(s) == Some(PipelineError) ==> s.written < Chunks(Accepted(s.sent, cfg), cfg.batchSize))
  {
    RunKeepsInv(trace, input, cfg, capacity, |trace| - 1);
    var s := trace[|trace| - 1];
    if s.receiver.Finished? {
      assert ToCome(s, cfg) == [];
      assert Begun(s) + Chunks<NormalizedEvent>([], cfg.batchSize) == s.written;
    }
    if s.receiver.Broken? {
      BrokenInFlight(trace, cfg, input, capacity, |trace| - 1);
      assert s.written + [s.inFlight.value] <= Chunks(Accepted(s.sent, cfg), cfg.batchSize);
    }
  }

  lemma {:induction false} BrokenInFlight(trace: seq<Flow>, cfg: PipelineConfig, input: Events, capacity: nat, i: nat)
    requires Run(trace, input, cfg, capacity) && i < |trace|
    ensures trace[i].receiver.Broken? ==> trace[i].inFlight.Some?
  {
    if i > 0 {
      BrokenInFlight(trace, cfg, input, capacity, i - 1);
      assert Step(trace[i - 1], trace[i], cfg, capacity);
    }
  }

  // ---------------------------------------------------------------- which outcome a run has

  /** Step `i` is the failure of a write. */
  ghost predicate BreaksAt(trace: seq<Flow>, i: nat) {
    i + 1 < |trace| && Break(trace[i], trace[i + 1])
  }

  /** In step `i` the receiver finds the channel closed and nothing pending. */
  ghost predicate FinishesAt(trace: seq<Flow>, i: nat) {
    i + 1 < |trace| && Finish(trace[i], trace[i + 1])
  }

  /** In step `i` the producer returns, with success after its last event or with an error. */
  ghost predicate ProducerEndsAt(trace: seq<Flow>, i: nat, ok: bool) {
    && i + 1 < |trace| && trace[i].producer.Sending? && trace[i + 1] == trace[i].(producer := Ended(ok))
    && (ok ==> trace[i].unsent == [])
  }

  lemma ReceiverStep(trace: seq<Flow>, input: Events, cfg: PipelineConfig, capacity: nat, i: nat)
    requires Run(trace, input, cfg, capacity) && i + 1 < |trace|
    ensures trace[i + 1].receiver.Broken? <==> trace[i].receiver.Broken? || BreaksAt(trace, i)
    ensures trace[i + 1].receiver.Finished? <==> trace[i].receiver.Finished? || FinishesAt(trace, i)
  {
    assert Step(trace[i], trace[i + 1], cfg, capacity);
  }

  lemma ProducerStep(trace: seq<Flow>, input: Events, cfg: PipelineConfig, capacity: nat, i: nat, ok: bool)
    requires Run(trace, input, cfg, capacity) && i + 1 < |trace|
    ensures trace[i + 1].producer == Ended(ok) <==> trace[i].producer == Ended(ok) || ProducerEndsAt(trace, i, ok)
  {
    assert Step(trace[i], trace[i + 1], cfg, capacity);
  }

  lemma {:induction false} BrokenRemembers(trace: seq<Flow>, input: Events, cfg: PipelineConfig, capacity: nat, n: nat)
    requires Run(trace, input, cfg, capacity) && n < |trace|
    ensures trace[n].receiver.Broken? <==> exists i: nat :: i < n && BreaksAt(trace, i)
  {
    if n > 0 {
      BrokenRemembers(trace, input, cfg, capacity, n - 1);
      ReceiverStep(trace, input, cfg, capacity, n - 1);
    }
  }

  lemma {:induction false} FinishRemembers(trace: seq<Flow>, input: Events, cfg: PipelineConfig, capacity: nat, n: nat)
    requires Run(trace, input, cfg, capacity) && n < |trace|
    ensures trace[n].receiver.Finished? <==> exists i: nat :: i < n && FinishesAt(trace, i)
  {
    if n > 0 {
      FinishRemembers(trace, input, cfg, capacity, n - 1);
      ReceiverStep(trace, input, cfg, capacity, n - 1);
    }
  }

  lemma {:induction false} ProducerRemembers(trace: seq<Flow>, input: Events, cfg: PipelineConfig, capacity: nat,
                                             n: nat, ok: bool)
    requires Run(trace, input, cfg, capacity) && n < |trace|
    ensures trace[n].producer == Ended(ok) <==> exists i: nat :: i < n && ProducerEndsAt(trace, i, ok)
  {
    if n > 0 {
      ProducerRemembers(trace, input, cfg, capacity, n - 1, ok);
      ProducerStep(trace, input, cfg, capacity, n - 1, ok);
    }
  }

  /**
   A run has failed in the pipeline exactly if a write has failed, whatever the producer did; otherwise, once the
   receiver is done, it has succeeded or failed just as the producer did.
   */
  lemma WhichOutcome(trace: seq<Flow>, input: Events, cfg: PipelineConfig, capacity: nat)
    requires cfg.batchSize > 0 && Run(trace, input, cfg, capacity)
    ensures var last := trace[|trace| - 1];
            && (Joined(last) == Some(PipelineError) <==> exists i: nat :: BreaksAt(trace, i))
            && (Joined(last) == Some(Success) <==>
                  (exists i: nat :: FinishesAt(trace, i)) && exists i: nat :: ProducerEndsAt(trace, i, true))
            && (Joined(last) == Some(ProducerError) <==>
                  (exists i: nat :: FinishesAt(trace, i)) && exists i: nat :: ProducerEndsAt(trace, i, false))
  {
    var n := |trace| - 1;
    BrokenRemembers(trace, input, cfg, capacity, n);
    FinishRemembers(trace, input, cfg, capacity, n);
    ProducerRemembers(trace, input, cfg, capacity, n, true);
    ProducerRemembers(trace, input, cfg, capacity, n, false);
    RunKeepsInv(trace, input, cfg, capacity, n);
  }

  // ---------------------------------------------------------------- progress

  ghost function Work(s: Flow): nat {
    4 * |s.unsent| + 3 * |s.channel| + 2 * |s.pending| + (if s.inFlight.Some? then |s.inFlight.value| else 0)
      + (if s.producer.Sending? then 1 else 0) + if s.receiver.Receiving? then 1 else 0
  }

  lemma StepDoesWork(s: Flow, s': Flow, input: Events, cfg: PipelineConfig, capacity: nat)
    requires cfg.batchSize > 0 && Inv(s, input, cfg, capacity) && Step(s, s', cfg, capacity)
    ensures Work(s') < Work(s)
  {
  }

  lemma {:induction false} WorkRunsDown(trace: seq<Flow>, input: Events, cfg: PipelineConfig, capacity: nat, i: nat)
    requires cfg.batchSize > 0 && Run(trace, input, cfg, capacity) && i < |trace|
    ensures Work(trace[i]) + i <= 4 * |input| + 2
  {
    if i > 0 {
      WorkRunsDown(trace, input, cfg, capacity, i - 1);
      RunKeepsInv(trace, input, cfg, capacity, i - 1);
      StepDoesWork(trace[i - 1], trace[i], input, cfg, capacity);
    }
  }

  ghost predicate CanStep(s: Flow, cfg: PipelineConfig, capacity: nat) {
    exists s' :: Step(s, s', cfg, capacity)
  }

  /** With room for at least one event in the channel, a run whose receiver is still at work can always go on. */
  lemma NeverStuck(s: Flow, input: Events, cfg: PipelineConfig, capacity: nat)
    requires cfg.batchSize > 0 && Inv(s, input, cfg, capacity)
    ensures capacity > 0 && s.receiver.Receiving? ==> CanStep(s, cfg, capacity)
    ensures s.receiver.Finished? ==> !CanStep(s, cfg, capacity)
  {
    if capacity > 0 && s.receiver.Receiving? {
      assert Step(s, NextOf(s, cfg), cfg, capacity);
    }
  }

  /** One possible next state: drain first, then receive, then send, then close. */
  ghost function NextOf(s: Flow, cfg: PipelineConfig): Flow {
    if s.inFlight.Some? then s.(inFlight := None, written := s.written + [s.inFlight.value])
    else if s.channel != [] then
      var rest, more := s.(channel := s.channel[1..]), s.pending + [s.channel[0]];
      if ShouldSkip(s.channel[0], cfg) then rest
      else if |more| >= cfg.batchSize then rest.(pending := [], inFlight := Some(more))
      else rest.(pending := more)
    else if s.producer.Sending? then
      if s.unsent == [] then s.(producer := Ended(true))
      else s.(unsent := s.unsent[1..], sent := s.sent + [s.unsent[0]], channel := s.channel + [s.unsent[0]])
    else if s.pending != [] then s.(pending := [], inFlight := Some(s.pending))
    else s.(receiver := Finished)
  }

  /** Every interleaving is finite, and one that cannot go on has an outcome. */
  lemma MaximalRunsHaveOutcome(trace: seq<Flow>, input: Events, cfg: PipelineConfig, capacity: nat)
    requires cfg.batchSize > 0 && capacity > 0 && Run(trace, input, cfg, capacity)
    ensures |trace| <= 4 * |input| + 3
    ensures !CanStep(trace[|trace| - 1], cfg, capacity) ==> Joined(trace[|trace| - 1]).Some?
  {
    WorkRunsDown(trace, input, cfg, capacity, |trace| - 1);
    RunKeepsInv(trace, input, cfg, capacity, |trace| - 1);
    NeverStuck(trace[|trace| - 1], input, cfg, capacity);
  }
}
