/** What a chat reader gets, under every interleaving of gateway, forwarder, reader and
    cancellation. */
module ChatTheorems {
  import opened ChatPipeline

  // ---------------------------------------------------------------- the invariant

  ghost predicate OnlyTokens(deltas: seq<Delta>) {
    forall i | 0 <= i < |deltas| :: deltas[i].Token?
  }

  /** The delta channel holds the script between what was received and what was sent. */
  ghost predicate ChannelInv(s: Pipeline) {
    && s.received <= s.sent <= |s.script|
    && s.deltas == s.script[s.received..s.sent]
    && |s.deltas| <= s.capacity && |s.frames| <= FRAME_BUFFER_SIZE
    && (s.producer.Sending? ==> s.sent < |s.script|)
  }

  /** The frames so far: one for each of the first n deltas, all tokens. */
  ghost predicate Forwarded(script: seq<Delta>, emitted: seq<Frame>, n: nat) {
    n <= |script| && OnlyTokens(script[..n]) && emitted == DeltaFrames(script[..n])
  }

  /** When a frame may be the last one: Done after the gateway closed and all it ever sent was
      received, an error frame for the delta just received. */
  ghost predicate Ends(script: seq<Delta>, received: nat, drained: bool, n: nat, last: Frame)
    requires received <= |script|
  {
    match last
    case DoneFrame => drained && n == received
    case ErrorFrame(cause) => n + 1 == received && script[n] == Failure(cause)
    case DeltaFrame(_) => false
  }

  predicate Drained(s: Pipeline) {
    s.producer.Finished? && s.received == s.sent
  }

  /** A forwarder that is gone emitted a prefix, cut short by a cancellation or ended by a
      terminal frame. */
  ghost predicate Stopped(script: seq<Delta>, received: nat, emitted: seq<Frame>, drained: bool, cancelled: bool)
    requires received <= |script|
  {
    var count := |emitted|;
    || (cancelled && count <= received && Forwarded(script, emitted, count))
    || (count > 0 && Forwarded(script, emitted[..count - 1], count - 1)
        && Ends(script, received, drained, count - 1, emitted[count - 1]))
  }

  ghost predicate ForwarderInv(
    script: seq<Delta>, received: nat, forwarder: Forwarder, emitted: seq<Frame>, drained: bool, cancelled: bool)
    requires received <= |script|
  {
    match forwarder
    case Receiving => Forwarded(script, emitted, received)
    case Emitting(frame, last) =>
      if !last || frame.ErrorFrame? then
        && received > 0 && Forwarded(script, emitted, received - 1)
        && frame == FrameOf(script[received - 1]) && last == frame.ErrorFrame?
      else
        frame == DoneFrame && drained && Forwarded(script, emitted, received)
    case Returned => Stopped(script, received, emitted, drained, cancelled)
  }

  ghost predicate Inv(s: Pipeline) {
    && ChannelInv(s)
    && ForwarderInv(s.script, s.received, s.forwarder, Emitted(s), Drained(s), s.cancelled)
  }

  lemma ProducerKeepsChannel(s: Pipeline, abort: bool)
    requires ChannelInv(s) && Enabled(s, Produce(abort))
    ensures ChannelInv(Step(s, Produce(abort)))
  {
    if s.producer.Sending? && !abort {
      assert s.script[s.received..s.sent + 1] == s.script[s.received..s.sent] + [s.script[s.sent]];
    }
  }

  /** The forwarder's part survives a gateway closing and a cancellation. */
  lemma ForwarderInvStays(
    script: seq<Delta>, received: nat, forwarder: Forwarder, emitted: seq<Frame>,
    drained: bool, cancelled: bool, drained': bool, cancelled': bool)
    requires received <= |script| && ForwarderInv(script, received, forwarder, emitted, drained, cancelled)
    requires (drained ==> drained') && (cancelled ==> cancelled')
    ensures ForwarderInv(script, received, forwarder, emitted, drained', cancelled')
  {
  }

  lemma ProducerKeepsInv(s: Pipeline, abort: bool)
    requires Inv(s) && Enabled(s, Produce(abort))
    ensures Inv(Step(s, Produce(abort)))
  {
    ProducerKeepsChannel(s, abort);
    var t := Step(s, Produce(abort));
    ForwarderInvStays(s.script, s.received, s.forwarder, Emitted(s), Drained(s), s.cancelled, Drained(t), t.cancelled);
  }

  lemma ReceiveKeepsInv(s: Pipeline)
    requires Inv(s) && s.forwarder.Receiving? && Enabled(s, Forward(false))
    ensures Inv(Step(s, Forward(false)))
  {
  }

  lemma EmitKeepsInv(s: Pipeline, abort: bool)
    requires Inv(s) && s.forwarder.Emitting? && Enabled(s, Forward(abort))
    ensures Inv(Step(s, Forward(abort)))
  {
    if !abort {
      var emitted, frame := Emitted(s), s.forwarder.frame;
      assert Emitted(Step(s, Forward(abort))) == emitted + [frame];
      SendKeepsInv(s.script, s.received, s.forwarder, emitted, Drained(s), s.cancelled);
    }
  }

  lemma SendKeepsInv(
    script: seq<Delta>, received: nat, forwarder: Forwarder, emitted: seq<Frame>, drained: bool, cancelled: bool)
    requires received <= |script| && forwarder.Emitting?
    requires ForwarderInv(script, received, forwarder, emitted, drained, cancelled)
    ensures var next := if forwarder.last then Returned else Receiving;
      ForwarderInv(script, received, next, emitted + [forwarder.frame], drained, cancelled)
  {
  }

  lemma ReadKeepsInv(s: Pipeline)
    requires Inv(s) && s.frames != []
    ensures Inv(Step(s, Read))
  {
    assert Emitted(Step(s, Read)) == Emitted(s);
  }

  lemma StepKeepsInv(s: Pipeline, a: Act)
    requires Inv(s) && Enabled(s, a)
    ensures Inv(Step(s, a))
  {
    match a
    case Produce(abort) => ProducerKeepsInv(s, abort);
    case Forward(abort) =>
      if s.forwarder.Receiving? { ReceiveKeepsInv(s); } else { EmitKeepsInv(s, abort); }
    case Read => ReadKeepsInv(s);
    case Cancel =>
      ForwarderInvStays(s.script, s.received, s.forwarder, Emitted(s), Drained(s), s.cancelled, Drained(s), true);
  }

  lemma {:induction false} RunKeepsInv(s: Pipeline, acts: seq<Act>)
    requires Inv(s) && CanRun(s, acts)
    ensures Inv(After(s, acts))
    decreases |acts|
  {
    if acts != [] {
      StepKeepsInv(s, acts[0]);
      RunKeepsInv(Step(s, acts[0]), acts[1..]);
    }
  }

  lemma OpenInv(script: seq<Delta>, capacity: nat, pauses: bool)
    ensures Inv(Open(script, capacity, pauses))
  {
  }

  // ---------------------------------------------------------------- what the reader can rely on

  /** The shape of what was emitted: tokens in order, then at most one terminal frame. */
  ghost predicate PrefixThenEnd(s: Pipeline, n: nat) {
    && n <= s.sent <= |s.script| && OnlyTokens(s.script[..n])
    && (|| Emitted(s) == DeltaFrames(s.script[..n])
        || (Emitted(s) == DeltaFrames(s.script[..n]) + [DoneFrame] && s.producer.Finished? && n == s.sent)
        || (n < s.sent && s.script[n].Failure? && Emitted(s) == DeltaFrames(s.script[..n]) + [FrameOf(s.script[n])]))
  }

  lemma InvShowsPrefix(s: Pipeline) returns (n: nat)
    requires Inv(s)
    ensures PrefixThenEnd(s, n)
  {
    var emitted := Emitted(s);
    match s.forwarder
    case Receiving => n := s.received;
    case Emitting(frame, last) => n := |emitted|;
    case Returned =>
      if s.cancelled && |emitted| <= s.received && Forwarded(s.script, emitted, |emitted|) {
        n := |emitted|;
      } else {
        n := |emitted| - 1;
        assert emitted == emitted[..n] + [emitted[n]];
      }
  }

  /** Whatever gateway, buffer, schedule and cancellation: the frames emitted are an in-order
      prefix of the gateway's deltas, followed by at most one terminal frame; Done only comes
      when the gateway has closed and everything it ever sent was forwarded, an error frame
      only for the gateway's own first failure. */
  lemma FramesAreAPrefix(script: seq<Delta>, capacity: nat, pauses: bool, acts: seq<Act>) returns (n: nat)
    requires CanRun(Open(script, capacity, pauses), acts)
    ensures var s := After(Open(script, capacity, pauses), acts);
      && s.script == script && n <= s.sent <= |script| && |s.deltas| <= capacity && |s.frames| <= 8
      && n <= |s.read + s.frames| <= n + 1
      && (forall i | 0 <= i < n :: script[i].Token? && (s.read + s.frames)[i] == DeltaFrame(script[i].content))
      && (|s.read + s.frames| == n + 1 ==>
            || ((s.read + s.frames)[n] == DoneFrame && s.producer.Finished? && n == s.sent)
            || (n < s.sent && script[n].Failure? && (s.read + s.frames)[n] == ErrorFrame(script[n].cause)))
  {
    var start := Open(script, capacity, pauses);
    OpenInv(script, capacity, pauses);
    RunKeepsInv(start, acts);
    ScriptStays(start, acts);
    n := InvShowsPrefix(After(start, acts));
    PrefixInTheFields(After(start, acts), n);
  }

  lemma PrefixInTheFields(s: Pipeline, n: nat)
    requires PrefixThenEnd(s, n)
    ensures n <= |s.read + s.frames| <= n + 1
    ensures forall i | 0 <= i < n :: s.script[i].Token? && (s.read + s.frames)[i] == DeltaFrame(s.script[i].content)
    ensures |s.read + s.frames| == n + 1 ==>
      || ((s.read + s.frames)[n] == DoneFrame && s.producer.Finished? && n == s.sent)
      || (n < s.sent && s.script[n].Failure? && (s.read + s.frames)[n] == ErrorFrame(s.script[n].cause))
  {
    var prefix := s.script[..n];
    assert forall i | 0 <= i < n :: prefix[i] == s.script[i];
  }

  lemma {:induction false} ScriptStays(s: Pipeline, acts: seq<Act>)
    ensures After(s, acts).script == s.script && After(s, acts).capacity == s.capacity
    ensures After(s, acts).pauses == s.pauses
    decreases |acts|
  {
    if acts != [] { ScriptStays(Step(s, acts[0]), acts[1..]); }
  }

  // ---------------------------------------------------------------- progress

  function ProducerWork(s: Pipeline): nat
    requires s.sent <= |s.script|
  {
    match s.producer
    case Looping => 2 * (|s.script| - s.sent) + 1
    case Sending => 2 * (|s.script| - s.sent)
    case Finished => 0
  }

  function ForwarderWork(s: Pipeline): nat
    requires s.received <= |s.script|
  {
    match s.forwarder
    case Receiving => 3 * (|s.script| - s.received) + 3
    case Emitting(_, last) => if last then 2 else 3 * (|s.script| - s.received) + 5
    case Returned => 0
  }

  function Work(s: Pipeline): nat
    requires s.sent <= |s.script| && s.received <= |s.script|
  {
    ProducerWork(s) + ForwarderWork(s) + |s.frames| + if s.cancelled then 0 else 1
  }

  lemma WorkFalls(s: Pipeline, a: Act)
    requires ChannelInv(s) && ChannelInv(Step(s, a)) && Enabled(s, a)
    ensures Work(Step(s, a)) < Work(s)
  {
  }

  /** Every run is finite: it has at most as many steps as there is work. */
  lemma {:induction false} RunsAreBounded(s: Pipeline, acts: seq<Act>)
    requires Inv(s) && CanRun(s, acts)
    ensures Inv(After(s, acts)) && |acts| + Work(After(s, acts)) <= Work(s)
    decreases |acts|
  {
    if acts != [] {
      StepKeepsInv(s, acts[0]);
      WorkFalls(s, acts[0]);
      RunsAreBounded(Step(s, acts[0]), acts[1..]);
    }
  }

  /** Nobody can go on by itself; only the caller could still cancel. */
  ghost predicate Quiet(s: Pipeline) {
    && (forall abort: bool :: !Enabled(s, Produce(abort)) && !Enabled(s, Forward(abort)))
    && !Enabled(s, Read)
  }

  /** The gateway port's contract: after a delta that carries an error the channel closes. */
  ghost predicate FailureIsLast(script: seq<Delta>) {
    forall i | 0 <= i < |script| - 1 :: script[i].Token?
  }

  /** No deadlock and no leak: a pipeline that cannot go on has closed both channels and been
      read out. */
  lemma QuietIsFinished(s: Pipeline)
    requires Inv(s) && s.capacity > 0 && FailureIsLast(s.script) && Quiet(s)
    ensures s.producer.Finished? && s.forwarder.Returned? && s.frames == []
  {
    assert !Enabled(s, Forward(false)) && !Enabled(s, Produce(false)) && !Enabled(s, Produce(true));
    assert s.forwarder.Returned?;
  }

  /** A cancelled pipeline closes both channels even if nobody ever reads again. */
  lemma CancelledCloses(s: Pipeline)
    requires Inv(s) && s.cancelled
    requires forall abort: bool :: !Enabled(s, Produce(abort)) && !Enabled(s, Forward(abort))
    ensures s.producer.Finished? && s.forwarder.Returned?
  {
    assert !Enabled(s, Produce(true)) && !Enabled(s, Produce(false));
    assert !Enabled(s, Forward(true)) && !Enabled(s, Forward(false));
  }

  lemma {:induction false} NeverCancelled(s: Pipeline, acts: seq<Act>)
    requires !s.cancelled && Cancel !in acts
    ensures !After(s, acts).cancelled
    decreases |acts|
  {
    if acts != [] { NeverCancelled(Step(s, acts[0]), acts[1..]); }
  }

  /** Every token with the space after it, in order, then exactly one Done. */
  ghost predicate ReadsAll(read: seq<Frame>, tokens: seq<string>) {
    && |read| == |tokens| + 1
    && (forall i | 0 <= i < |tokens| :: read[i] == DeltaFrame(tokens[i] + " "))
    && read[|tokens|] == DoneFrame
  }

  /** Completeness: whatever the schedule, once an uncancelled stream over the in-memory gateway
      can go no further, the reader has read every token in order and then exactly one
      Done. */
  lemma UncancelledRunDelivers(tokens: seq<string>, pauses: bool, acts: seq<Act>)
    requires CanRun(OpenInMemory(tokens, pauses), acts) && Cancel !in acts
    requires Quiet(After(OpenInMemory(tokens, pauses), acts))
    ensures ReadsAll(After(OpenInMemory(tokens, pauses), acts).read, tokens)
  {
    var start := OpenInMemory(tokens, pauses);
    OpenInv(Tokens(tokens), |tokens| + 1, pauses);
    RunKeepsInv(start, acts);
    ScriptStays(start, acts);
    NeverCancelled(start, acts);
    var s := After(start, acts);
    QuietIsFinished(s);
    UncancelledSendsAll(start, acts);
    assert s.read + s.frames == s.read;
    var n := FramesAreAPrefix(Tokens(tokens), |tokens| + 1, pauses, acts);
    assert n == |tokens| && |s.read| == n + 1 by { EndedWithAFrame(s, n); }
  }

  /** An uncancelled forwarder that is gone emitted a last frame. */
  lemma EndedWithAFrame(s: Pipeline, n: nat)
    requires Inv(s) && s.forwarder.Returned? && !s.cancelled && OnlyTokens(s.script)
    requires n <= |s.script| && n <= |s.read + s.frames| <= n + 1
    requires forall i | 0 <= i < n :: (s.read + s.frames)[i] == DeltaFrame(s.script[i].content)
    ensures |s.read + s.frames| == n + 1
  {
    var emitted := s.read + s.frames;
    assert emitted == Emitted(s) && Stopped(s.script, s.received, emitted, Drained(s), false);
    assert |emitted| > 0 && !emitted[|emitted| - 1].DeltaFrame?;
  }

  /** Only a cancellation makes the gateway close before its script is sent. */
  ghost predicate SendsAll(s: Pipeline) {
    !s.cancelled && s.sent <= |s.script| && (s.producer.Finished? ==> s.sent == |s.script|)
  }

  lemma {:induction false} UncancelledSendsAll(s: Pipeline, acts: seq<Act>)
    requires SendsAll(s) && CanRun(s, acts) && Cancel !in acts
    ensures SendsAll(After(s, acts))
    decreases |acts|
  {
    if acts != [] {
      var t := Step(s, acts[0]);
      assert acts[0] in acts;
      assert SendsAll(t);
      UncancelledSendsAll(t, acts[1..]);
    }
  }

  // ---------------------------------------------------------------- the gateway by itself

  /** The in-memory gateway never waits for room in its channel. */
  lemma ProducerNeverBlocks(tokens: seq<string>, pauses: bool, acts: seq<Act>)
    requires CanRun(OpenInMemory(tokens, pauses), acts)
    ensures var s := After(OpenInMemory(tokens, pauses), acts);
      s.producer.Finished? || Enabled(s, Produce(false))
  {
    var start := OpenInMemory(tokens, pauses);
    OpenInv(Tokens(tokens), |tokens| + 1, pauses);
    RunKeepsInv(start, acts);
    ScriptStays(start, acts);
  }

  /** ... so it finishes on its own from wherever a run may have left it, with neither forwarder
      nor reader taking part. */
  lemma GatewayFinishesUnread(tokens: seq<string>, pauses: bool, acts: seq<Act>) returns (alone: seq<Act>)
    requires CanRun(OpenInMemory(tokens, pauses), acts)
    ensures var s := After(OpenInMemory(tokens, pauses), acts);
      CanRun(s, alone) && After(s, alone).producer.Finished?
    ensures |alone| <= 2 * |tokens| + 1 && forall a | a in alone :: a == Produce(false)
  {
    var start := OpenInMemory(tokens, pauses);
    OpenInv(Tokens(tokens), |tokens| + 1, pauses);
    RunKeepsInv(start, acts);
    ScriptStays(start, acts);
    alone := ProducerFinishesAlone(After(start, acts));
  }

  lemma {:induction false} ProducerFinishesAlone(s: Pipeline) returns (alone: seq<Act>)
    requires ChannelInv(s) && |s.script| < s.capacity
    ensures CanRun(s, alone) && After(s, alone).producer.Finished?
    ensures |alone| <= ProducerWork(s) && forall a | a in alone :: a == Produce(false)
    decreases ProducerWork(s)
  {
    alone := [];
    if !s.producer.Finished? {
      ProducerKeepsChannel(s, false);
      var rest := ProducerFinishesAlone(Step(s, Produce(false)));
      alone := [Produce(false)] + rest;
      assert alone[1..] == rest;
    }
  }

  // ---------------------------------------------------------------- cancellation is only a choice

  lemma CancelledStep(s: Pipeline, a: Act)
    requires Enabled(s, a) && a != Cancel
    ensures Enabled(s.(cancelled := true), a)
    ensures Step(s.(cancelled := true), a) == Step(s, a).(cancelled := true)
  {
  }

  /** Whatever an uncancelled run can do next can also happen after a cancellation. */
  lemma {:induction false} CancelledRun(s: Pipeline, acts: seq<Act>)
    requires CanRun(s, acts) && Cancel !in acts
    ensures CanRun(s.(cancelled := true), acts)
    ensures After(s.(cancelled := true), acts) == After(s, acts).(cancelled := true)
    decreases |acts|
  {
    if acts != [] {
      assert acts[0] in acts;
      CancelledStep(s, acts[0]);
      CancelledRun(Step(s, acts[0]), acts[1..]);
    }
  }

  /** Some run without a cancellation goes on until nothing is left to do. */
  lemma {:induction false} RunToTheEnd(s: Pipeline) returns (acts: seq<Act>)
    requires Inv(s)
    ensures CanRun(s, acts) && Cancel !in acts && Quiet(After(s, acts))
    decreases Work(s)
  {
    acts := [];
    if !Quiet(s) {
      var a: Act :| a != Cancel && Enabled(s, a);
      StepKeepsInv(s, a);
      WorkFalls(s, a);
      var rest := RunToTheEnd(Step(s, a));
      acts := [a] + rest;
      assert acts[1..] == rest;
    }
  }

  /** The comment at the facade's Stream says that no Done frame is emitted once the context was
      cancelled before the gateway completed. The code does not promise that: for every
      message there is a run cancelled before anything was sent that still delivers every
      token and Done, because a select may take its send. */
  lemma DoneAfterCancellation(tokens: seq<string>, pauses: bool) returns (acts: seq<Act>)
    ensures CanRun(OpenInMemory(tokens, pauses), [Cancel] + acts)
    ensures ReadsAll(After(OpenInMemory(tokens, pauses), [Cancel] + acts).read, tokens)
  {
    var s := OpenInMemory(tokens, pauses);
    OpenInv(Tokens(tokens), |tokens| + 1, pauses);
    acts := RunToTheEnd(s);
    UncancelledRunDelivers(tokens, pauses, acts);
    assert ([Cancel] + acts)[1..] == acts;
    CancelledRun(s, acts);
  }
}
