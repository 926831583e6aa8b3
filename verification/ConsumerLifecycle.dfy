/** Starting and stopping the auto-loan consumer on a bus it shares with other subscribers. */
module ConsumerLifecycle {
  import opened Domain
  import opened EventBus
  import opened EventBusTheorems

  const RETURNED := "LoanReturned"

  /** A topic's live subscriptions of one handler. */
  function Mine(live: seq<Sub>, handler: Handler): seq<Sub> {
    if live == [] then []
    else
      var rest, last := Mine(live[..|live| - 1], handler), live[|live| - 1];
      if last.handler == handler then rest + [last] else rest
  }

  lemma MineAppended(live: seq<Sub>, sub: Sub, handler: Handler)
    ensures Mine(live + [sub], handler) ==
      if sub.handler == handler then Mine(live, handler) + [sub] else Mine(live, handler)
  {
  }

  lemma {:induction false} MineRemoved(live: seq<Sub>, id: nat, handler: Handler)
    ensures Mine(Removed(live, id), handler) == Removed(Mine(live, handler), id)
  {
    if live != [] {
      var init, last := live[..|live| - 1], live[|live| - 1];
      MineRemoved(init, id, handler);
      MineAppended(Removed(init, id), last, handler);
      var mine := Mine(init, handler);
      assert (mine + [last])[..|mine|] == mine;
    }
  }

  // ---------------------------------------------------------------- other clients

  /** Commands of other clients: they do not register this handler and do not call this
      consumer's unsubscribe closure, which they never see. */
  ghost predicate Apart(c: Command, handler: Handler, id: Option<nat>)
    decreases c
  {
    match c
    case Subscribe(_, h) => h != handler
    case Unsubscribe(topic, i) => topic == RETURNED ==> id != Some(i)
    case Publish(_, reactions) => forall i | 0 <= i < |reactions| :: AllApart(reactions[i].commands, handler, id)
  }

  ghost predicate AllApart(cs: seq<Command>, handler: Handler, id: Option<nat>)
    decreases cs
  {
    forall i | 0 <= i < |cs| :: Apart(cs[i], handler, id)
  }

  function Own(handler: Handler, id: Option<nat>): seq<Sub> {
    if id.Some? then [Sub(id.value, handler)] else []
  }

  ghost predicate Registers(s: Listing, handler: Handler, id: Option<nat>) {
    Mine(ListOf(s, RETURNED).live, handler) == Own(handler, id)
  }

  lemma {:induction false} OthersKeepOne(s: Listing, c: Command, handler: Handler, id: Option<nat>)
    requires Registers(s, handler, id) && Apart(c, handler, id)
    ensures Registers(Execute(s, c), handler, id)
    decreases c
  {
    match c
    case Subscribe(topic, h) =>
      MineAppended(ListOf(s, topic).live, Sub(ListOf(s, topic).made, h), handler);
    case Unsubscribe(topic, i) =>
      MineRemoved(ListOf(s, topic).live, i, handler);
    case Publish(topic, reactions) =>
      var live := ListOf(s, topic).live;
      OthersKeepWhile(s.(calls := s.calls + 1), s.calls, topic, live, reactions, |live|, handler, id);
  }

  lemma {:induction false} OthersKeep(s: Listing, cs: seq<Command>, handler: Handler, id: Option<nat>)
    requires Registers(s, handler, id) && AllApart(cs, handler, id)
    ensures Registers(ExecuteAll(s, cs), handler, id)
    decreases cs
  {
    if cs != [] {
      OthersKeep(s, cs[..|cs| - 1], handler, id);
      OthersKeepOne(ExecuteAll(s, cs[..|cs| - 1]), cs[|cs| - 1], handler, id);
    }
  }

  lemma {:induction false} OthersKeepWhile(
    s: Listing, call: nat, topic: Topic, targets: seq<Sub>, reactions: seq<Reaction>, n: nat, handler: Handler,
    id: Option<nat>)
    requires Registers(s, handler, id) && n <= |targets|
    requires forall i | 0 <= i < |reactions| :: AllApart(reactions[i].commands, handler, id)
    ensures Registers(Deliver(s, call, topic, targets, reactions, n), handler, id)
    decreases reactions, n
  {
    if n > 0 {
      OthersKeepWhile(s, call, topic, targets, reactions, n - 1, handler, id);
      var before := Deliver(s, call, topic, targets, reactions, n - 1);
      var logged := before.(log := before.log + [Invocation(call, topic, targets[n - 1])]);
      if n <= |reactions| { OthersKeep(logged, reactions[n - 1].commands, handler, id); }
    }
  }

  // ---------------------------------------------------------------- the consumer

  /** A call on the consumer, or calls of other clients on the bus. */
  datatype Call = StartCall | StopCall | OthersCall(commands: seq<Command>)

  /** Whether the last Start or Stop was Start. */
  function StartedLast(started: bool, calls: seq<Call>): bool {
    if calls == [] then started
    else
      match calls[|calls| - 1]
      case StartCall => true
      case StopCall => false
      case OthersCall(_) => StartedLast(started, calls[..|calls| - 1])
  }

  /** The bus and the consumer's subscription after one call. */
  function Called(s: Listing, handler: Handler, id: Option<nat>, call: Call): (Listing, Option<nat>) {
    match call
    case StartCall =>
      if id.Some? then (s, id) else (Execute(s, Subscribe(RETURNED, handler)), Some(ListOf(s, RETURNED).made))
    case StopCall => if id.None? then (s, id) else (Execute(s, Unsubscribe(RETURNED, id.value)), None)
    case OthersCall(commands) => (ExecuteAll(s, commands), id)
  }

  /** Other clients keep their hands off the subscription the consumer has at the time. */
  ghost predicate OthersApart(s: Listing, handler: Handler, id: Option<nat>, calls: seq<Call>)
    decreases |calls|
  {
    calls == [] ||
    ((calls[0].OthersCall? ==> AllApart(calls[0].commands, handler, id)) &&
     OthersApart(Called(s, handler, id, calls[0]).0, handler, Called(s, handler, id, calls[0]).1, calls[1..]))
  }

  /** The consumer and the handler it registers, which nobody else registers. */
  class Consumer {
    const bus: Bus
    const handler: Handler
    var started: bool
    var unsubscribe: Option<nat>

    ghost predicate Valid()
      reads this, bus
    {
      && bus.Valid()
      && started == unsubscribe.Some?
      && Registers(bus.State(), handler, unsubscribe)
    }

    constructor (bus: Bus, handler: Handler)
      requires bus.Valid() && Mine(ListOf(bus.State(), RETURNED).live, handler) == []
      ensures Valid() && this.bus == bus && this.handler == handler && !started
    {
      this.bus, this.handler, started, unsubscribe := bus, handler, false, None;
    }

    method Start()
      requires Valid()
      modifies this, bus
      ensures Valid() && started
      ensures (bus.State(), unsubscribe) == Called(old(bus.State()), handler, old(unsubscribe), StartCall)
    {
      if started { return; }
      ghost var list := ListOf(bus.State(), RETURNED);
      MineAppended(list.live, Sub(list.made, handler), handler);
      var id := bus.Subscribe(RETURNED, handler);
      unsubscribe := Some(id);
      started := true;
    }

    method Stop()
      requires Valid()
      modifies this, bus
      ensures Valid() && !started
      ensures (bus.State(), unsubscribe) == Called(old(bus.State()), handler, old(unsubscribe), StopCall)
    {
      if !started { return; }
      if unsubscribe.Some? {
        MineRemoved(ListOf(bus.State(), RETURNED).live, unsubscribe.value, handler);
        bus.Unsubscribe(RETURNED, unsubscribe.value);
        unsubscribe := None;
      }
      started := false;
    }

    /** Whatever other clients do, from handlers or not, the consumer stays as it is. */
    method Meanwhile(cs: seq<Command>)
      requires Valid() && AllApart(cs, handler, unsubscribe)
      modifies bus
      ensures Valid() && bus.State() == ExecuteAll(old(bus.State()), cs)
    {
      OthersKeep(bus.State(), cs, handler, unsubscribe);
      bus.PerformAll(cs);
    }

    /** After any sequence of Start and Stop, with any calls of other clients in between, the bus
        has one live consumer handler if the last of them was Start and none if it was Stop:
        double starts do not double the handling of a return. */
    method Lifecycle(calls: seq<Call>)
      requires Valid() && OthersApart(bus.State(), handler, unsubscribe, calls)
      modifies this, bus
      ensures Valid() && started == StartedLast(old(started), calls)
      ensures |Mine(ListOf(bus.State(), RETURNED).live, handler)| == if started then 1 else 0
    {
      for i := 0 to |calls|
        invariant Valid() && started == StartedLast(old(started), calls[..i])
        invariant OthersApart(bus.State(), handler, unsubscribe, calls[i..])
      {
        assert calls[i..][0] == calls[i] && calls[i..][1..] == calls[i + 1..] && calls[..i + 1][..i] == calls[..i];
        match calls[i]
        case StartCall => Start();
        case StopCall => Stop();
        case OthersCall(commands) => Meanwhile(commands);
      }
      assert calls[..|calls|] == calls;
    }
  }
}
