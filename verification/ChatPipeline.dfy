/** The chat stream: a gateway goroutine sending deltas over a buffered channel, the facade's
    forwarder turning them into frames on a second buffered channel, a reader that may stop
    reading, and a cancellation that may come at any moment.

    A select with several ready cases may take any of them, so whether a goroutine honours a
    cancellation that is already there is a choice of the schedule. */
module ChatPipeline {

  datatype Delta = Token(content: string) | Failure(cause: string)

  datatype Frame = DeltaFrame(content: string) | ErrorFrame(cause: string) | DoneFrame

  const FRAME_BUFFER_SIZE := 8

  /** The gateway's goroutine: at the top of its loop, about to send, or gone with its channel
      closed. */
  datatype Producer = Looping | Sending | Finished

  /** The facade's goroutine: waiting for a delta, about to emit a frame (the last one or
      not), or gone with the frame channel closed. */
  datatype Forwarder = Receiving | Emitting(frame: Frame, last: bool) | Returned

  /** script is what the gateway will send if nobody stops it; sent and received count the
      deltas that entered and left its channel. */
  datatype Pipeline = Pipeline(
    script: seq<Delta>, capacity: nat, pauses: bool,
    producer: Producer, sent: nat, deltas: seq<Delta>, received: nat,
    forwarder: Forwarder, frames: seq<Frame>, read: seq<Frame>,
    cancelled: bool)

  /** One step of one party; aborting means taking the ctx.Done() case. */
  datatype Act = Produce(abort: bool) | Forward(abort: bool) | Read | Cancel

  function Open(script: seq<Delta>, capacity: nat, pauses: bool): Pipeline {
    Pipeline(script, capacity, pauses, Looping, 0, [], 0, Receiving, [], [], false)
  }

  /** The in-memory gateway: one delta per token, and room for one more than it will send. */
  function OpenInMemory(tokens: seq<string>, pauses: bool): Pipeline {
    Open(Tokens(tokens), |tokens| + 1, pauses)
  }

  function Tokens(tokens: seq<string>): (deltas: seq<Delta>)
    ensures |deltas| == |tokens|
    ensures forall i | 0 <= i < |tokens| :: deltas[i] == Token(tokens[i] + " ")
  {
    seq(|tokens|, i requires 0 <= i < |tokens| => Token(tokens[i] + " "))
  }

  predicate Enabled(s: Pipeline, a: Act) {
    match a
    case Produce(abort) =>
      if s.producer.Finished? then false
      else if s.producer.Looping? then abort ==> s.cancelled && s.pauses && s.sent < |s.script|
      else if abort then s.cancelled
      else |s.deltas| < s.capacity && s.sent < |s.script|
    case Forward(abort) =>
      if s.forwarder.Returned? then false
      else if s.forwarder.Receiving? then !abort && (s.deltas != [] || s.producer.Finished?)
      else if abort then s.cancelled
      else |s.frames| < FRAME_BUFFER_SIZE
    case Read => s.frames != []
    case Cancel => !s.cancelled
  }

  /** At the top of the loop the gateway finds its script done, or sleeps (and may be
      cancelled asleep), or goes straight to the send. */
  function ProducerStep(s: Pipeline, abort: bool): Pipeline {
    match s.producer
    case Looping => s.(producer := if abort || s.sent >= |s.script| then Finished else Sending)
    case Sending =>
      if abort || s.sent >= |s.script| then s.(producer := Finished)
      else s.(producer := Looping, deltas := s.deltas + [s.script[s.sent]], sent := s.sent + 1)
    case Finished => s
  }

  function FrameOf(delta: Delta): Frame {
    match delta
    case Token(content) => DeltaFrame(content)
    case Failure(cause) => ErrorFrame(cause)
  }

  function ForwarderStep(s: Pipeline, abort: bool): Pipeline {
    match s.forwarder
    case Receiving =>
      if s.deltas == [] then s.(forwarder := Emitting(DoneFrame, true))
      else
        s.(deltas := s.deltas[1..], received := s.received + 1,
           forwarder := Emitting(FrameOf(s.deltas[0]), s.deltas[0].Failure?))
    case Emitting(frame, last) =>
      if abort then s.(forwarder := Returned)
      else s.(frames := s.frames + [frame], forwarder := if last then Returned else Receiving)
    case Returned => s
  }

  function Step(s: Pipeline, a: Act): Pipeline {
    match a
    case Produce(abort) => ProducerStep(s, abort)
    case Forward(abort) => ForwarderStep(s, abort)
    case Read => if s.frames == [] then s else s.(read := s.read + [s.frames[0]], frames := s.frames[1..])
    case Cancel => s.(cancelled := true)
  }

  ghost predicate CanRun(s: Pipeline, acts: seq<Act>)
    decreases |acts|
  {
    acts != [] ==> Enabled(s, acts[0]) && CanRun(Step(s, acts[0]), acts[1..])
  }

  function After(s: Pipeline, acts: seq<Act>): Pipeline
    decreases |acts|
  {
    if acts == [] then s else After(Step(s, acts[0]), acts[1..])
  }

  /** Every frame that ever entered the frame channel, in order. */
  function Emitted(s: Pipeline): seq<Frame> {
    s.read + s.frames
  }

  function DeltaFrames(deltas: seq<Delta>): (frames: seq<Frame>)
    ensures |frames| == |deltas|
    ensures forall i | 0 <= i < |deltas| :: frames[i] == FrameOf(deltas[i])
  {
    seq(|deltas|, i requires 0 <= i < |deltas| => FrameOf(deltas[i]))
  }
}
