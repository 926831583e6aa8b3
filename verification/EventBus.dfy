/** The in-memory event bus: slots that are cleared but never reused, refining an ordered list
    of live subscriptions, with handlers that call back into the bus. */
module EventBus {
  import opened Domain

  type Topic = string

  /** A handler function; the same function may be subscribed more than once. */
  type Handler = nat

  // ---------------------------------------------------------------- the list of live subscriptions

  /** The id-th subscription made to a topic. */
  datatype Sub = Sub(id: nat, handler: Handler)

  /** A handler run by the call-th Publish. */
  datatype Invocation = Invocation(call: nat, topic: Topic, sub: Sub)

  /** What a client does; in a Publish the k-th handler that runs reacts with reactions[k],
      or does nothing to the bus if there is none. */
  datatype Command =
    | Subscribe(topic: Topic, handler: Handler)
    | Unsubscribe(topic: Topic, id: nat)
    | Publish(topic: Topic, reactions: seq<Reaction>)

  datatype Reaction = Reaction(commands: seq<Command>)

  /** A topic's live subscriptions in registration order, and how many were ever made. */
  datatype TopicList = TopicList(live: seq<Sub>, made: nat)

  datatype Listing = Listing(topics: map<Topic, TopicList>, calls: nat, log: seq<Invocation>)

  function ListOf(s: Listing, topic: Topic): TopicList {
    if topic in s.topics then s.topics[topic] else TopicList([], 0)
  }

  function Removed(live: seq<Sub>, id: nat): seq<Sub> {
    if live == [] then []
    else
      var rest, last := Removed(live[..|live| - 1], id), live[|live| - 1];
      if last.id == id then rest else rest + [last]
  }

  function Execute(s: Listing, c: Command): Listing
    decreases c
  {
    match c
    case Subscribe(topic, handler) =>
      var list := ListOf(s, topic);
      s.(topics := s.topics[topic := TopicList(list.live + [Sub(list.made, handler)], list.made + 1)])
    case Unsubscribe(topic, id) =>
      if topic in s.topics
      then s.(topics := s.topics[topic := s.topics[topic].(live := Removed(s.topics[topic].live, id))])
      else s
    case Publish(topic, reactions) =>
      Deliver(s.(calls := s.calls + 1), s.calls, topic, ListOf(s, topic).live, reactions, |ListOf(s, topic).live|)
  }

  function ExecuteAll(s: Listing, cs: seq<Command>): Listing
    decreases cs
  {
    if cs == [] then s else Execute(ExecuteAll(s, cs[..|cs| - 1]), cs[|cs| - 1])
  }

  /** After the first n targets ran. */
  function Deliver(s: Listing, call: nat, topic: Topic, targets: seq<Sub>, reactions: seq<Reaction>, n: nat): Listing
    requires n <= |targets|
    decreases reactions, n
  {
    if n == 0 then s
    else
      var before := Deliver(s, call, topic, targets, reactions, n - 1);
      var logged := before.(log := before.log + [Invocation(call, topic, targets[n - 1])]);
      if n <= |reactions| then ExecuteAll(logged, reactions[n - 1].commands) else logged
  }

  // ---------------------------------------------------------------- the slots

  /** The live subscriptions of a slot array: the slots that are not cleared. */
  function Compact(slots: seq<Option<Handler>>): seq<Sub> {
    if slots == [] then []
    else
      var rest, last := Compact(slots[..|slots| - 1]), slots[|slots| - 1];
      if last.Some? then rest + [Sub(|slots| - 1, last.value)] else rest
  }

  lemma CompactAppended(slots: seq<Option<Handler>>, handler: Handler)
    ensures Compact(slots + [Some(handler)]) == Compact(slots) + [Sub(|slots|, handler)]
  {
  }

  lemma {:induction false} RemovedAbsent(slots: seq<Option<Handler>>, k: nat)
    requires |slots| <= k
    ensures Removed(Compact(slots), k) == Compact(slots)
  {
    if slots != [] {
      var init, last := slots[..|slots| - 1], slots[|slots| - 1];
      RemovedAbsent(init, k);
      if last.Some? {
        assert (Compact(init) + [Sub(|init|, last.value)])[..|Compact(init)|] == Compact(init);
      }
    }
  }

  /** Clearing a slot takes exactly its subscription out of the list. */
  lemma {:induction false} CompactCleared(slots: seq<Option<Handler>>, k: nat)
    requires k < |slots|
    ensures Compact(slots[k := None]) == Removed(Compact(slots), k)
  {
    var init, last := slots[..|slots| - 1], slots[|slots| - 1];
    if last.Some? {
      assert (Compact(init) + [Sub(|init|, last.value)])[..|Compact(init)|] == Compact(init);
    }
    if k == |init| {
      assert slots[k := None][..k] == init;
      RemovedAbsent(init, k);
    } else {
      assert slots[k := None][..|init|] == init[k := None];
      CompactCleared(init, k);
    }
  }

  class Bus {
    var handlers: map<Topic, seq<Option<Handler>>>
    /** The unsubscribe closures that have run; each runs its body once. */
    var spent: set<(Topic, nat)>
    ghost var calls: nat
    ghost var log: seq<Invocation>

    ghost predicate Valid()
      reads this
    {
      forall topic: Topic, k: nat :: (topic, k) in spent <==>
        topic in handlers && k < |handlers[topic]| && handlers[topic][k].None?
    }

    ghost function State(): Listing
      reads this
    {
      Listing(map topic | topic in handlers :: TopicList(Compact(handlers[topic]), |handlers[topic]|), calls, log)
    }

    constructor ()
      ensures Valid() && State() == Listing(map[], 0, [])
    {
      handlers, spent, calls, log := map[], {}, 0, [];
    }

    /** Returns the subscription id the unsubscribe closure captures. */
    method Subscribe(topic: Topic, handler: Handler) returns (id: nat)
      requires Valid()
      modifies this
      ensures Valid() && id == ListOf(old(State()), topic).made
      ensures State() == Execute(old(State()), Command.Subscribe(topic, handler))
    {
      var slots := if topic in handlers then handlers[topic] else [];
      CompactAppended(slots, handler);
      handlers := handlers[topic := slots + [Some(handler)]];
      id := |slots|;
    }

    method RemoveHandler(topic: Topic, id: nat)
      modifies `handlers
      ensures handlers == if topic in old(handlers) && id < |old(handlers)[topic]|
                          then old(handlers)[topic := old(handlers)[topic][id := None]] else old(handlers)
    {
      if topic !in handlers { return; }
      if id >= |handlers[topic]| { return; }
      handlers := handlers[topic := handlers[topic][id := None]];
    }

    /** Calling the unsubscribe closure of the id-th subscription to a topic, once or more. A
        client cannot call a closure it was never given. */
    method Unsubscribe(topic: Topic, id: nat)
      requires Valid()
      modifies this
      ensures Valid() && State() == Execute(old(State()), Command.Unsubscribe(topic, id))
    {
      if topic !in handlers { return; }
      var slots := handlers[topic];
      if id >= |slots| {
        RemovedAbsent(slots, id);
        return;
      }
      CompactCleared(slots, id);
      if (topic, id) !in spent {
        spent := spent + {(topic, id)};
        RemoveHandler(topic, id);
      } else {
        assert slots[id := None] == slots;
      }
    }

    /** The handlers to run, copied so that they stay put whatever the handlers do. */
    method SnapshotHandlers(topic: Topic) returns (snapshot: seq<Handler>)
      requires Valid()
      ensures var live := ListOf(State(), topic).live;
        |snapshot| == |live| && forall i | 0 <= i < |live| :: snapshot[i] == live[i].handler
    {
      snapshot := [];
      if topic !in handlers { return; }
      var registered := handlers[topic];
      for i := 0 to |registered|
        invariant |snapshot| == |Compact(registered[..i])|
        invariant forall j | 0 <= j < |snapshot| :: snapshot[j] == Compact(registered[..i])[j].handler
      {
        assert registered[..i + 1][..i] == registered[..i];
        if registered[i].Some? {
          snapshot := snapshot + [registered[i].value];
        }
      }
      assert registered[..|registered|] == registered;
    }

    method Publish(topic: Topic, reactions: seq<Reaction>)
      requires Valid()
      modifies this
      ensures Valid() && State() == Execute(old(State()), Command.Publish(topic, reactions))
      decreases reactions
    {
      var snapshot := SnapshotHandlers(topic);
      ghost var targets, call := ListOf(State(), topic).live, calls;
      calls := calls + 1;
      ghost var start := State();
      for i := 0 to |snapshot|
        invariant Valid() && State() == Deliver(start, call, topic, targets, reactions, i)
      {
        log := log + [Invocation(call, topic, Sub(targets[i].id, snapshot[i]))];
        if i < |reactions| {
          PerformAll(reactions[i].commands);
        }
      }
    }

    method PerformAll(cs: seq<Command>)
      requires Valid()
      modifies this
      ensures Valid() && State() == ExecuteAll(old(State()), cs)
      decreases cs
    {
      ghost var start := State();
      for i := 0 to |cs|
        invariant Valid() && State() == ExecuteAll(start, cs[..i])
      {
        assert cs[..i + 1][..i] == cs[..i];
        match cs[i]
        case Subscribe(topic, handler) => var id := Subscribe(topic, handler);
        case Unsubscribe(topic, id) => Unsubscribe(topic, id);
        case Publish(topic, reactions) => Publish(topic, reactions);
      }
      assert cs[..|cs|] == cs;
    }
  }
}
