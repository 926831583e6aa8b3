/** What subscribers and publishers can rely on, over every tree of calls and callbacks. */
module EventBusTheorems {
  import opened Domain
  import opened EventBus

  // ---------------------------------------------------------------- what only grows

  /** Live subscriptions are listed by id, and ids count the subscriptions made. */
  ghost predicate Registered(list: TopicList) {
    ById(list.live) && Below(list.live, list.made)
  }

  ghost predicate ById(live: seq<Sub>) {
    forall i, j | 0 <= i < j < |live| :: live[i].id < live[j].id
  }

  ghost predicate Below(live: seq<Sub>, bound: nat) {
    forall sub | sub in live :: sub.id < bound
  }

  ghost predicate WellFormed(s: Listing) {
    && (forall topic | topic in s.topics :: Registered(s.topics[topic]))
    && (forall i | 0 <= i < |s.log| :: s.log[i].call < s.calls)
  }

  /** The subscriptions one Publish ran, in the order it ran them. */
  function RunBy(log: seq<Invocation>, call: nat): seq<Sub> {
    if log == [] then []
    else
      var before, last := RunBy(log[..|log| - 1], call), log[|log| - 1];
      if last.call == call then before + [last.sub] else before
  }

  /** A subscription that was already made is live later only if it is live now. */
  ghost predicate Grows(a: TopicList, b: TopicList) {
    && a.made <= b.made
    && (forall sub | sub in b.live && sub.id < a.made :: sub in a.live)
  }

  ghost predicate Later(s: Listing, t: Listing) {
    && s.calls <= t.calls && s.log <= t.log
    && (forall topic | topic in s.topics :: topic in t.topics && Grows(s.topics[topic], t.topics[topic]))
    && (forall call: nat | call < s.calls :: RunBy(t.log, call) == RunBy(s.log, call))
  }

  lemma LaterStill(s: Listing, t: Listing, u: Listing)
    requires Later(s, t) && Later(t, u)
    ensures Later(s, u)
  {
  }

  lemma {:induction false} RemovedMembers(live: seq<Sub>, id: nat)
    ensures forall sub :: sub in Removed(live, id) <==> sub in live && sub.id != id
  {
    if live != [] {
      var init := live[..|live| - 1];
      RemovedMembers(init, id);
      assert live == init + [live[|live| - 1]];
    }
  }

  lemma ByIdAppended(live: seq<Sub>, last: Sub)
    requires ById(live) && Below(live, last.id)
    ensures ById(live + [last])
  {
  }

  lemma {:induction false} RemovedById(live: seq<Sub>, id: nat)
    requires ById(live)
    ensures ById(Removed(live, id))
  {
    if live != [] {
      var init, last := live[..|live| - 1], live[|live| - 1];
      RemovedById(init, id);
      RemovedMembers(init, id);
      assert Below(init, last.id);
      ByIdAppended(Removed(init, id), last);
    }
  }

  lemma SubscribeGrows(s: Listing, topic: Topic, handler: Handler)
    requires WellFormed(s)
    ensures var t := Execute(s, Subscribe(topic, handler)); WellFormed(t) && Later(s, t)
  {
  }

  lemma UnsubscribeGrows(s: Listing, topic: Topic, id: nat)
    requires WellFormed(s)
    ensures var t := Execute(s, Unsubscribe(topic, id)); WellFormed(t) && Later(s, t)
  {
    if topic in s.topics {
      RemovedById(s.topics[topic].live, id);
      RemovedMembers(s.topics[topic].live, id);
    }
  }

  /** One more entry in the log of a call in progress. */
  lemma EntryGrows(s: Listing, b: Listing, call: nat, topic: Topic, sub: Sub)
    requires WellFormed(b) && call < b.calls
    ensures var t := b.(log := b.log + [Invocation(call, topic, sub)]);
      WellFormed(t) && RunBy(t.log, call) == RunBy(b.log, call) + [sub]
    ensures Later(s, b) && s.calls <= call ==> Later(s, b.(log := b.log + [Invocation(call, topic, sub)]))
  {
  }

  /** Whatever handlers do while a Publish delivers, that Publish runs its own targets. */
  lemma {:induction false} DeliverRuns(
    s: Listing, call: nat, topic: Topic, targets: seq<Sub>, reactions: seq<Reaction>, n: nat)
    requires WellFormed(s) && n <= |targets| && call + 1 == s.calls && RunBy(s.log, call) == []
    ensures var t := Deliver(s, call, topic, targets, reactions, n);
      && WellFormed(t) && RunBy(t.log, call) == targets[..n]
      && s.calls <= t.calls && Later(s.(calls := call), t)
    decreases reactions, n
  {
    var from := s.(calls := call);
    if n > 0 {
      DeliverRuns(s, call, topic, targets, reactions, n - 1);
      var before := Deliver(s, call, topic, targets, reactions, n - 1);
      EntryGrows(from, before, call, topic, targets[n - 1]);
      var logged := before.(log := before.log + [Invocation(call, topic, targets[n - 1])]);
      assert targets[..n] == targets[..n - 1] + [targets[n - 1]];
      if n <= |reactions| {
        ExecuteAllGrows(logged, reactions[n - 1].commands);
        LaterStill(from, logged, ExecuteAll(logged, reactions[n - 1].commands));
      }
    }
  }

  lemma {:induction false} FreshCall(log: seq<Invocation>, call: nat)
    requires forall i | 0 <= i < |log| :: log[i].call < call
    ensures RunBy(log, call) == []
  {
    if log != [] { FreshCall(log[..|log| - 1], call); }
  }

  lemma {:induction false} ExecuteGrows(s: Listing, c: Command)
    requires WellFormed(s)
    ensures WellFormed(Execute(s, c)) && Later(s, Execute(s, c))
    decreases c
  {
    match c
    case Subscribe(topic, handler) => SubscribeGrows(s, topic, handler);
    case Unsubscribe(topic, id) => UnsubscribeGrows(s, topic, id);
    case Publish(topic, reactions) =>
      FreshCall(s.log, s.calls);
      var live := ListOf(s, topic).live;
      DeliverRuns(s.(calls := s.calls + 1), s.calls, topic, live, reactions, |live|);
  }

  lemma {:induction false} ExecuteAllGrows(s: Listing, cs: seq<Command>)
    requires WellFormed(s)
    ensures WellFormed(ExecuteAll(s, cs)) && Later(s, ExecuteAll(s, cs))
    decreases cs
  {
    if cs != [] {
      var init := cs[..|cs| - 1];
      ExecuteAllGrows(s, init);
      ExecuteGrows(ExecuteAll(s, init), cs[|cs| - 1]);
      LaterStill(s, ExecuteAll(s, init), ExecuteAll(s, cs));
    }
  }

  // ---------------------------------------------------------------- the promises

  const EMPTY_BUS := Listing(map[], 0, [])

  /** After any run, a Publish runs exactly the subscriptions live at its start, in the order
      they were registered, each once: whatever its handlers subscribe, unsubscribe or
      publish meanwhile, and even if one of them removes a subscription yet to run. */
  lemma PublishRunsTheLive(history: seq<Command>, topic: Topic, reactions: seq<Reaction>)
    ensures var s := ExecuteAll(EMPTY_BUS, history);
      && RunBy(Execute(s, Publish(topic, reactions)).log, s.calls) == ListOf(s, topic).live
      && ById(ListOf(s, topic).live)
  {
    ExecuteAllGrows(EMPTY_BUS, history);
    var s := ExecuteAll(EMPTY_BUS, history);
    FreshCall(s.log, s.calls);
    var live := ListOf(s, topic).live;
    assert Registered(ListOf(s, topic));
    DeliverRuns(s.(calls := s.calls + 1), s.calls, topic, live, reactions, |live|);
    assert live[..|live|] == live;
  }

  /** Unsubscribing removes its own subscription and no other, from whatever the bus has become
      since; doing it again changes nothing. */
  lemma UnsubscribeRemovesOne(s: Listing, topic: Topic, id: nat)
    ensures var t := Execute(s, Unsubscribe(topic, id));
      && (forall sub :: sub in ListOf(t, topic).live <==> sub in ListOf(s, topic).live && sub.id != id)
      && (forall other | other != topic :: ListOf(t, other) == ListOf(s, other))
      && Execute(t, Unsubscribe(topic, id)) == t
  {
    RemovedMembers(ListOf(s, topic).live, id);
    var live := Removed(ListOf(s, topic).live, id);
    RemovedMembers(live, id);
    RemovedNone(live, id);
  }

  lemma {:induction false} RemovedNone(live: seq<Sub>, id: nat)
    requires forall sub | sub in live :: sub.id != id
    ensures Removed(live, id) == live
  {
    if live != [] {
      var init := live[..|live| - 1];
      assert live == init + [live[|live| - 1]];
      RemovedNone(init, id);
    }
  }

  /** Slots are never reused: once a subscription is gone no run brings its id back, so a stale
      unsubscribe closure can never hit a newer subscription. */
  lemma GoneForGood(history: seq<Command>, more: seq<Command>, topic: Topic, id: nat)
    requires id < ListOf(ExecuteAll(EMPTY_BUS, history), topic).made
    requires forall sub | sub in ListOf(ExecuteAll(EMPTY_BUS, history), topic).live :: sub.id != id
    ensures forall sub | sub in ListOf(ExecuteAll(ExecuteAll(EMPTY_BUS, history), more), topic).live :: sub.id != id
  {
    ExecuteAllGrows(EMPTY_BUS, history);
    var s := ExecuteAll(EMPTY_BUS, history);
    ExecuteAllGrows(s, more);
    assert topic in s.topics;
    assert Grows(s.topics[topic], ExecuteAll(s, more).topics[topic]);
  }

  /** A subscription goes last on its own topic, under an id that counts the subscriptions made, and
      nothing else changes. */
  lemma SubscribeAddsOne(s: Listing, topic: Topic, handler: Handler)
    ensures var t, list := Execute(s, Subscribe(topic, handler)), ListOf(s, topic);
      && ListOf(t, topic) == TopicList(list.live + [Sub(list.made, handler)], list.made + 1)
      && (forall other | other != topic :: ListOf(t, other) == ListOf(s, other))
      && t.log == s.log && t.calls == s.calls
  {
  }

  // ---------------------------------------------------------------- what handlers do to the bus

  /** The commands of the first n handlers that run, one after the other. */
  function Reacted(reactions: seq<Reaction>, n: nat): seq<Command> {
    if n == 0 then []
    else Reacted(reactions, n - 1) + if n <= |reactions| then reactions[n - 1].commands else []
  }

  lemma {:induction false} ExecuteInTwoParts(s: Listing, a: seq<Command>, b: seq<Command>)
    ensures ExecuteAll(s, a + b) == ExecuteAll(ExecuteAll(s, a), b)
  {
    if b == [] {
      assert a + b == a;
    } else {
      var init := b[..|b| - 1];
      ExecuteInTwoParts(s, a, init);
      assert (a + b)[..|a + b| - 1] == a + init;
    }
  }

  /** Subscriptions depend on subscriptions only, not on calls counted or handlers run so far. */
  lemma {:induction false} TopicsDecide(s: Listing, t: Listing, c: Command)
    requires s.topics == t.topics
    ensures Execute(s, c).topics == Execute(t, c).topics
    decreases c
  {
    if c.Publish? {
      var live := ListOf(s, c.topic).live;
      DeliverTopics(s.(calls := s.calls + 1), t.(calls := t.calls + 1), s.calls, t.calls, c.topic, live, c.reactions,
                    |live|);
    }
  }

  lemma {:induction false} DeliverTopics(s: Listing, t: Listing, call: nat, call': nat, topic: Topic,
                                         targets: seq<Sub>, reactions: seq<Reaction>, n: nat)
    requires s.topics == t.topics && n <= |targets|
    ensures Deliver(s, call, topic, targets, reactions, n).topics ==
      Deliver(t, call', topic, targets, reactions, n).topics
    decreases reactions, n
  {
    if n > 0 {
      DeliverTopics(s, t, call, call', topic, targets, reactions, n - 1);
      if n <= |reactions| {
        var a := Deliver(s, call, topic, targets, reactions, n - 1);
        var b := Deliver(t, call', topic, targets, reactions, n - 1);
        TopicsDecideAll(a.(log := a.log + [Invocation(call, topic, targets[n - 1])]),
                        b.(log := b.log + [Invocation(call', topic, targets[n - 1])]), reactions[n - 1].commands);
      }
    }
  }

  lemma {:induction false} TopicsDecideAll(s: Listing, t: Listing, cs: seq<Command>)
    requires s.topics == t.topics
    ensures ExecuteAll(s, cs).topics == ExecuteAll(t, cs).topics
    decreases cs
  {
    if cs != [] {
      var init := cs[..|cs| - 1];
      TopicsDecideAll(s, t, init);
      TopicsDecide(ExecuteAll(s, init), ExecuteAll(t, init), cs[|cs| - 1]);
    }
  }

  lemma {:induction false} DeliverReacts(s: Listing, call: nat, topic: Topic, targets: seq<Sub>,
                                         reactions: seq<Reaction>, n: nat)
    requires n <= |targets|
    ensures Deliver(s, call, topic, targets, reactions, n).topics == ExecuteAll(s, Reacted(reactions, n)).topics
  {
    if n > 0 {
      DeliverReacts(s, call, topic, targets, reactions, n - 1);
      if n <= |reactions| {
        var before := Deliver(s, call, topic, targets, reactions, n - 1);
        var logged := before.(log := before.log + [Invocation(call, topic, targets[n - 1])]);
        ExecuteInTwoParts(s, Reacted(reactions, n - 1), reactions[n - 1].commands);
        TopicsDecideAll(logged, ExecuteAll(s, Reacted(reactions, n - 1)), reactions[n - 1].commands);
      } else {
        assert Reacted(reactions, n) == Reacted(reactions, n - 1);
      }
    }
  }

  /** What a Publish does to the subscriptions is what its handlers do, one after the other: the
      first handler's commands first, each handler's once. */
  lemma PublishReacts(s: Listing, topic: Topic, reactions: seq<Reaction>)
    ensures Execute(s, Publish(topic, reactions)).topics ==
      ExecuteAll(s, Reacted(reactions, |ListOf(s, topic).live|)).topics
  {
    var live := ListOf(s, topic).live;
    var counted := s.(calls := s.calls + 1);
    DeliverReacts(counted, s.calls, topic, live, reactions, |live|);
    TopicsDecideAll(counted, s, Reacted(reactions, |live|));
  }
}
