/**
 * The in-memory event bus: a bounded channel, one dispatcher goroutine, and handlers that may be
 * registered at any time.  Every step below is one atomic action of a publisher, a subscriber or the
 * dispatcher, and they interleave freely.
 */
module InProcessBus {
  datatype Event<E> = Event(topic: string, payload: E)

  /** Between receiving from the channel and finishing the handlers, the dispatcher has an event in hand. */
  datatype InHand<E> =
    | Idle
    | Received(event: Event<E>)                                    // handlers not read yet
    | Running(event: Event<E>, handlers: seq<nat>, next: nat)      // handlers read under the lock

  /** A subscription: how many events had been started when it was made, and what its handler was called with. */
  datatype Sub<E> = Sub(topic: string, since: nat, got: seq<E>)

  /**
   * `handlers` maps a topic to its subscriptions in order.  The second line is history: what Publish
   * `accepted` and `dropped` (with the queue length it saw), the events whose handlers were read, those
   * whose handlers have all run, and the subscriptions.
   */
  datatype State<E> = State(
    capacity: nat, queue: seq<Event<E>>, handlers: map<string, seq<nat>>, hand: InHand<E>, closed: bool, done: bool,
    accepted: seq<Event<E>>, dropped: seq<(Event<E>, nat)>, started: seq<Event<E>>, dispatched: seq<Event<E>>,
    subs: seq<Sub<E>>)

  function New<E>(bufferSize: int): State<E> {
    State(if bufferSize <= 0 then 256 else bufferSize, [], map[], Idle, false, false, [], [], [], [], [])
  }

  datatype Step<E> =
    | Publish(event: Event<E>)
    | Subscribe(topic: string)
    | Receive          // the range over the channel yields
    | ReadHandlers     // under the read lock
    | Call             // the next handler; its error is only logged
    | Finish           // no handler left
    | Close            // close(ch); Close itself returns once done
    | Exit             // the range ends: closed and empty

  /** Publishing after Close, and closing twice, panics in Go. */
  predicate Enabled<E>(s: State<E>, step: Step<E>) {
    match step
    case Publish(_) => !s.closed
    case Subscribe(_) => true
    case Receive => s.hand.Idle? && s.queue != [] && !s.done
    case ReadHandlers => s.hand.Received?
    case Call => s.hand.Running? && s.hand.next < |s.hand.handlers| && s.hand.handlers[s.hand.next] < |s.subs|
    case Finish => s.hand.Running? && s.hand.next == |s.hand.handlers|
    case Close => !s.closed
    case Exit => s.closed && s.queue == [] && s.hand.Idle? && !s.done
  }

  function HandlersOf<E>(s: State<E>, topic: string): seq<nat> {
    if topic in s.handlers then s.handlers[topic] else []
  }

  function Apply<E>(s: State<E>, step: Step<E>): State<E>
    requires Enabled(s, step)
  {
    match step
    case Publish(e) =>
      if |s.queue| < s.capacity then s.(queue := s.queue + [e], accepted := s.accepted + [e])
      else s.(dropped := s.dropped + [(e, |s.queue|)])
    case Subscribe(topic) =>
      s.(handlers := s.handlers[topic := HandlersOf(s, topic) + [|s.subs|]],
          subs := s.subs + [Sub(topic, |s.started|, [])])
    case Receive => s.(hand := Received(s.queue[0]), queue := s.queue[1..])
    case ReadHandlers =>
      s.(hand := Running(s.hand.event, HandlersOf(s, s.hand.event.topic), 0), started := s.started + [s.hand.event])
    case Call =>
      var h := s.hand.handlers[s.hand.next];
      s.(hand := s.hand.(next := s.hand.next + 1),
          subs := s.subs[h := s.subs[h].(got := s.subs[h].got + [s.hand.event.payload])])
    case Finish => s.(hand := Idle, dispatched := s.dispatched + [s.hand.event])
    case Close => s.(closed := true)
    case Exit => s.(done := true)
  }

  datatype Run<E> = Begin(bufferSize: int) | Then(prev: Run<E>, step: Step<E>)

  function Exec<E>(run: Run<E>): State<E> {
    match run
    case Begin(bufferSize) => New(bufferSize)
    case Then(prev, step) => if Enabled(Exec(prev), step) then Apply(Exec(prev), step) else Exec(prev)
  }

  predicate Legal<E>(run: Run<E>) {
    run.Then? ==> Legal(run.prev) && Enabled(Exec(run.prev), run.step)
  }

  // ---------------------------------------------------------------- conservation and order

  /** The event the dispatcher has in hand, if any. */
  function HandEvents<E>(h: InHand<E>): seq<Event<E>> {
    if h.Idle? then [] else [h.event]
  }

  ghost predicate Conserved<E>(s: State<E>) {
    && s.capacity >= 1 && |s.queue| <= s.capacity
    && s.accepted == s.dispatched + HandEvents(s.hand) + s.queue
    && s.started == s.dispatched + (if s.hand.Running? then [s.hand.event] else [])
    && (forall i :: 0 <= i < |s.dropped| ==> s.dropped[i].1 == s.capacity)
    && (s.done ==> s.closed && s.queue == [] && s.hand.Idle?)
  }

  lemma StepConserves<E>(s: State<E>, step: Step<E>)
    requires Conserved(s) && Enabled(s, step)
    ensures Conserved(Apply(s, step))
  {
    if step.Receive? {
      assert s.queue == [s.queue[0]] + s.queue[1..];
    }
  }

  /**
   * In every reachable state, what Publish accepted is exactly what was dispatched, then what is in
   * hand, then what is queued, in that order; the queue never exceeds its capacity; an event is
   * dropped only when the queue was full; and once the dispatcher is done, all that was accepted was
   * dispatched.
   */
  lemma {:induction false} BusConserves<E>(run: Run<E>)
    requires Legal(run)
    ensures var s := Exec(run);
            && s.accepted == s.dispatched + HandEvents(s.hand) + s.queue
            && |s.queue| <= s.capacity
            && (forall i :: 0 <= i < |s.dropped| ==> s.dropped[i].1 == s.capacity)
            && (s.done ==> s.dispatched == s.accepted)
    ensures Conserved(Exec(run))
  {
    if run.Then? {
      BusConserves(run.prev);
      StepConserves(Exec(run.prev), run.step);
    }
  }

  // ---------------------------------------------------------------- what a handler gets

  /** The payloads on one topic, in order. */
  function OnTopic<E>(es: seq<Event<E>>, topic: string): seq<E> {
    if es == [] then []
    else OnTopic(es[..|es| - 1], topic) + (if es[|es| - 1].topic == topic then [es[|es| - 1].payload] else [])
  }

  /** Whether a running dispatch still owes its event to subscription `h`. */
  predicate Owed<E>(hand: InHand<E>, h: nat) {
    hand.Running? && exists i :: hand.next <= i < |hand.handlers| && hand.handlers[i] == h
  }

  /** Subscriptions of a topic are listed once each, in the order they were made. */
  ghost predicate Registered<E>(s: State<E>) {
    && (forall t, i :: t in s.handlers && 0 <= i < |s.handlers[t]| ==>
        s.handlers[t][i] < |s.subs| && s.subs[s.handlers[t][i]].topic == t)
    && (forall t, i, j :: t in s.handlers && 0 <= i < j < |s.handlers[t]| ==> s.handlers[t][i] < s.handlers[t][j])
    && (forall h :: 0 <= h < |s.subs| ==> s.subs[h].topic in s.handlers && h in s.handlers[s.subs[h].topic])
  }

  /** The handlers in hand are those of the event's topic that existed when they were read. */
  ghost predicate Snapshot<E>(s: State<E>) {
    s.hand.Running? ==>
      var hs := s.hand.handlers;
      && s.hand.next <= |hs|
      && (forall i :: 0 <= i < |hs| ==>
          hs[i] < |s.subs| && s.subs[hs[i]].topic == s.hand.event.topic && s.subs[hs[i]].since < |s.started|)
      && (forall i, j :: 0 <= i < j < |hs| ==> hs[i] < hs[j])
  }

  /** What a subscription has been given: every started event of its topic since it was made, but one still owed. */
  ghost predicate Delivered<E>(s: State<E>) {
    forall h :: 0 <= h < |s.subs| ==> Settled(s, h)
  }

  ghost predicate Settled<E>(s: State<E>, h: nat)
    requires h < |s.subs|
  {
    var sub := s.subs[h];
    && sub.since <= |s.started|
    && sub.got + (if Owed(s.hand, h) then [s.hand.event.payload] else []) == OnTopic(s.started[sub.since..], sub.topic)
  }

  lemma OnTopicSnoc<E>(es: seq<Event<E>>, e: Event<E>, topic: string)
    ensures OnTopic(es + [e], topic) == OnTopic(es, topic) + (if e.topic == topic then [e.payload] else [])
  {
    assert (es + [e])[..|es|] == es;
  }

  lemma SubscribeRegisters<E>(s: State<E>, topic: string)
    requires Registered(s)
    ensures Registered(Apply(s, Subscribe(topic)))
  {
    var s', last := Apply(s, Subscribe(topic)), |s.subs|;
    var listed := HandlersOf(s, topic);
    assert s'.handlers == s.handlers[topic := listed + [last]] && s'.subs == s.subs + [Sub(topic, |s.started|, [])];
    hide Apply;
    assert s'.handlers[topic][|HandlersOf(s, topic)|] == last;
    forall h | 0 <= h < |s'.subs|
      ensures s'.subs[h].topic in s'.handlers && h in s'.handlers[s'.subs[h].topic]
    {
      if h < last {
        var i :| 0 <= i < |s.handlers[s.subs[h].topic]| && s.handlers[s.subs[h].topic][i] == h;
        assert s'.handlers[s.subs[h].topic][i] == h;
      }
    }
  }

  lemma SubscribeSettles<E>(s: State<E>, topic: string)
    requires Snapshot(s) && Delivered(s)
    ensures var s' := Apply(s, Subscribe(topic)); Snapshot(s') && Delivered(s')
  {
    var s' := Apply(s, Subscribe(topic));
    forall h | 0 <= h < |s'.subs| ensures Settled(s', h) {
      if h < |s.subs| {
        assert Settled(s, h) && s'.subs[h] == s.subs[h];
      } else {
        assert s'.started[|s.started|..] == [];
      }
    }
  }

  /** Reading the handlers makes the event owed to exactly the subscriptions of its topic. */
  lemma OwedOnRead<E>(s: State<E>, h: nat)
    requires Registered(s) && s.hand.Received? && h < |s.subs|
    ensures Owed(Apply(s, ReadHandlers).hand, h) <==> s.subs[h].topic == s.hand.event.topic
  {
    var handlers := HandlersOf(s, s.hand.event.topic);
    if s.subs[h].topic == s.hand.event.topic {
      var i :| 0 <= i < |handlers| && handlers[i] == h;
      assert Apply(s, ReadHandlers).hand.handlers[i] == h;
    }
  }

  lemma ReadHandlersSettlesOne<E>(s: State<E>, h: nat)
    requires Registered(s) && s.hand.Received? && h < |s.subs| && Settled(s, h)
    ensures Settled(Apply(s, ReadHandlers), h)
  {
    var e, sub := s.hand.event, s.subs[h];
    OwedOnRead(s, h);
    assert (s.started + [e])[sub.since..] == s.started[sub.since..] + [e];
    OnTopicSnoc(s.started[sub.since..], e, sub.topic);
    assert !Owed(s.hand, h) && sub.got + [] == sub.got;
    assert OnTopic(s.started[sub.since..], sub.topic) + [] == OnTopic(s.started[sub.since..], sub.topic);
    hide OnTopic, Owed, Registered, HandlersOf;
  }

  lemma ReadHandlersSettles<E>(s: State<E>)
    requires Registered(s) && Delivered(s) && s.hand.Received?
    ensures var s' := Apply(s, ReadHandlers); Snapshot(s') && Delivered(s')
  {
    var s' := Apply(s, ReadHandlers);
    forall h | 0 <= h < |s.subs| ensures Settled(s', h) {
      ReadHandlersSettlesOne(s, h);
    }
    hide OnTopic, Owed;
    var handlers := HandlersOf(s, s.hand.event.topic);
    forall i | 0 <= i < |handlers| ensures s'.subs[handlers[i]].since < |s'.started| {
      assert Settled(s, handlers[i]);
    }
  }

  lemma CallSettles<E>(s: State<E>)
    requires Snapshot(s) && Delivered(s) && Enabled(s, Call)
    ensures var s' := Apply(s, Call); Snapshot(s') && Delivered(s')
  {
    var s', h0 := Apply(s, Call), s.hand.handlers[s.hand.next];
    assert Owed(s.hand, h0) && !Owed(s'.hand, h0);
    forall h | 0 <= h < |s'.subs| ensures Settled(s', h) {
      assert Settled(s, h);
      if h != h0 { OwedOther(s.hand, h); }
    }
  }

  /** Calling the next handler settles nobody else's claim. */
  lemma OwedOther<E>(hand: InHand<E>, h: nat)
    requires hand.Running? && hand.next < |hand.handlers| && h != hand.handlers[hand.next]
    ensures Owed(hand.(next := hand.next + 1), h) == Owed(hand, h)
  {
    var later := hand.(next := hand.next + 1);
    if Owed(hand, h) {
      var i :| hand.next <= i < |hand.handlers| && hand.handlers[i] == h;
      assert later.next <= i;
    }
  }

  /** Only Subscribe changes who is registered where. */
  lemma RegisteredStays<E>(s: State<E>, step: Step<E>)
    requires Registered(s) && Enabled(s, step) && !step.Subscribe?
    ensures Registered(Apply(s, step))
  {
    var s' := Apply(s, step);
    assert s'.handlers == s.handlers && |s'.subs| == |s.subs|;
    assert forall h :: 0 <= h < |s.subs| ==> s'.subs[h].topic == s.subs[h].topic;
    hide Apply, Enabled;
  }

  lemma StepKeepsDelivery<E>(s: State<E>, step: Step<E>)
    requires Registered(s) && Snapshot(s) && Delivered(s) && Enabled(s, step)
    ensures var s' := Apply(s, step); Registered(s') && Snapshot(s') && Delivered(s')
  {
    hide Registered, Snapshot, Delivered, Apply;
    if !step.Subscribe? { RegisteredStays(s, step); }
    match step {
      case Subscribe(topic) =>
        SubscribeRegisters(s, topic);
        SubscribeSettles(s, topic);
      case ReadHandlers => ReadHandlersSettles(s);
      case Call => CallSettles(s);
      case _ => QuietSettles(s, step);
    }
  }

  /** The other steps start no event and call no handler. */
  lemma QuietSettles<E>(s: State<E>, step: Step<E>)
    requires Snapshot(s) && Delivered(s) && Enabled(s, step) && !step.Subscribe? && !step.ReadHandlers? && !step.Call?
    ensures var s' := Apply(s, step); Snapshot(s') && Delivered(s')
  {
    var s' := Apply(s, step);
    assert s'.subs == s.subs && s'.started == s.started;
    assert forall h :: Owed(s'.hand, h) == Owed(s.hand, h);
    hide OnTopic, Owed;
    forall h | 0 <= h < |s.subs| ensures Settled(s', h) { assert Settled(s, h); }
  }

  lemma {:induction false} RunKeepsDelivery<E>(run: Run<E>)
    requires Legal(run)
    ensures Registered(Exec(run)) && Snapshot(Exec(run)) && Delivered(Exec(run))
  {
    if run.Then? {
      RunKeepsDelivery(run.prev);
      hide Registered, Snapshot, Delivered;
      StepKeepsDelivery(Exec(run.prev), run.step);
    }
  }

  /** A contiguous run of the topic's events from `since` on: all the dispatched ones, and at most the one in hand. */
  ghost predicate HasItsRun<E>(s: State<E>, sub: Sub<E>) {
    if sub.since > |s.dispatched| then s.hand.Running? && sub.got == []
    else
      var whole := OnTopic(s.dispatched[sub.since..], sub.topic);
      sub.got == whole || (s.hand.Running? && s.hand.event.topic == sub.topic &&
          sub.got == whole + [s.hand.event.payload])
  }

  /**
   * Each handler gets, once each and in order, a contiguous run of its topic's events, starting at the
   * first one whose handlers were read after its subscription.
   */
  lemma HandlerGetsItsRun<E>(run: Run<E>, h: nat)
    requires Legal(run) && h < |Exec(run).subs|
    ensures HasItsRun(Exec(run), Exec(run).subs[h])
  {
    RunKeepsDelivery(run);
    BusConserves(run);
    assert Settled(Exec(run), h);
    GotFrom(Exec(run), h);
  }

  lemma GotFrom<E>(s: State<E>, h: nat)
    requires h < |s.subs| && Settled(s, h) && Snapshot(s)
    requires s.started == s.dispatched + (if s.hand.Running? then [s.hand.event] else [])
    ensures HasItsRun(s, s.subs[h])
  {
    var sub := s.subs[h];
    if !s.hand.Running? {
      assert s.started == s.dispatched;
    } else if sub.since > |s.dispatched| {
      assert s.started[sub.since..] == [];
      assert |sub.got| == 0;
    } else {
      assert s.started[sub.since..] == s.dispatched[sub.since..] + [s.hand.event];
      OnTopicSnoc(s.dispatched[sub.since..], s.hand.event, sub.topic);
      if Owed(s.hand, h) {
        var i :| s.hand.next <= i < |s.hand.handlers| && s.hand.handlers[i] == h;
        var all, whole := OnTopic(s.started[sub.since..], sub.topic), OnTopic(s.dispatched[sub.since..], sub.topic);
        assert all == sub.got + [s.hand.event.payload] && all == whole + [s.hand.event.payload];
        assert sub.got == all[..|all| - 1] == whole;
      } else {
        assert sub.got + [] == sub.got;
      }
    }
  }

  /** When Close returns, every accepted event that was started after a subscription has reached it. */
  lemma {:induction false} CloseDelivers<E>(run: Run<E>, h: nat)
    requires Legal(run) && Exec(run).done && h < |Exec(run).subs|
    ensures Exec(run).subs[h].since <= |Exec(run).accepted|
    ensures Exec(run).subs[h].got == OnTopic(Exec(run).accepted[Exec(run).subs[h].since..], Exec(run).subs[h].topic)
  {
    BusConserves(run);
    HandlerGetsItsRun(run, h);
  }

  // ---------------------------------------------------------------- the bus as an object

  /** `InProcessBus` with its fields; `state` is what the state machine says of them. */
  class Bus<E> {
    var ch: seq<Event<E>>
    var handlers: map<string, seq<nat>>
    var count: nat                 // handlers registered so far; a handler is its number
    var closed: bool
    const bufferSize: nat
    ghost var state: State<E>

    ghost predicate Valid()
      reads this
    {
      && Conserved(state) && Registered(state) && Snapshot(state) && Delivered(state)
      && state.queue == ch && state.handlers == handlers && state.closed == closed
      && state.capacity == bufferSize && |state.subs| == count
    }

    constructor (bufferSize: int)
      ensures Valid() && state == New(bufferSize)
      ensures this.bufferSize == if bufferSize >= 1 then bufferSize else 256
      ensures ch == [] && handlers == map[] && !closed
    {
      var size := bufferSize;
      if bufferSize <= 0 {
        size := 256;
      }
      this.bufferSize := size;
      ch, handlers, count, closed := [], map[], 0, false;
      state := New(bufferSize);
    }

    /** One step of the state machine. */
    ghost method Advance(step: Step<E>)
      requires Conserved(state) && Registered(state) && Snapshot(state) && Delivered(state) && Enabled(state, step)
      modifies this`state
      ensures Conserved(state) && Registered(state) && Snapshot(state) && Delivered(state)
      ensures state == Apply(old(state), step)
    {
      StepConserves(state, step);
      StepKeepsDelivery(state, step);
      state := Apply(state, step);
    }

    /** Never blocks: an event that does not fit is dropped, and the caller is not told. */
    method Publish(event: Event<E>)
      requires Valid() && !closed
      modifies this
      ensures Valid() && state == Apply(old(state), Step.Publish(event))
      ensures ch == if |old(ch)| < bufferSize then old(ch) + [event] else old(ch)
      ensures handlers == old(handlers) && !closed
    {
      hide Registered, Snapshot, Delivered, Conserved;
      Advance(Step.Publish(event));
      if |ch| < bufferSize {
        ch := ch + [event];
      }
    }

    method Subscribe(topic: string) returns (handler: nat)
      requires Valid()
      modifies this
      ensures Valid() && state == Apply(old(state), Step.Subscribe(topic)) && handler == |old(state).subs|
      ensures var listed := if topic in old(handlers) then old(handlers)[topic] else [];
              handlers == old(handlers)[topic := listed + [handler]]
      ensures ch == old(ch) && closed == old(closed)
    {
      hide Registered, Snapshot, Delivered, Conserved;
      Advance(Step.Subscribe(topic));
      handler := count;
      count := count + 1;
      handlers := handlers[topic := (if topic in handlers then handlers[topic] else []) + [handler]];
    }

    /** The loop over the handlers; a failing one does not stop it. */
    method RunHandlers(env: Event<E>, hs: seq<nat>)
      requires Valid() && state.hand == Running(env, hs, 0)
      modifies this`state
      ensures Valid() && state.hand == Running(env, hs, |hs|)
      ensures state.accepted == old(state.accepted) && state.dispatched == old(state.dispatched)
      ensures state.done == old(state.done)
    {
      for i := 0 to |hs|
        invariant Valid() && state.hand == Running(env, hs, i)
        invariant state.accepted == old(state.accepted) && state.dispatched == old(state.dispatched)
        invariant state.done == old(state.done)
      {
        assert hs[i] < |state.subs|;
        hide Conserved, Registered, Snapshot, Delivered;
        Advance(Call);
      }
    }

    /** One turn of the dispatcher: receive, read the handlers, call each of them once. */
    method DispatchOne()
      requires Valid() && state.hand.Idle? && !state.done && ch != []
      modifies this
      ensures Valid() && state.hand.Idle? && !state.done
      ensures ch == old(ch)[1..] && closed == old(closed) && handlers == old(handlers)
      ensures state.accepted == old(state.accepted) && state.dispatched == old(state.dispatched) + [old(ch)[0]]
    {
      hide Conserved, Registered, Snapshot, Delivered;
      var env := ch[0];
      Advance(Receive);
      ch := ch[1..];
      var hs := if env.topic in handlers then handlers[env.topic] else [];
      Advance(ReadHandlers);
      RunHandlers(env, hs);
      Advance(Finish);
    }

    /** The rest of a loop over the handlers that is under way. */
    ghost method FinishCalls()
      requires Valid() && state.hand.Running?
      modifies this`state
      ensures Valid() && state.hand == old(state.hand).(next := |old(state.hand.handlers)|)
      ensures state.accepted == old(state.accepted) && state.dispatched == old(state.dispatched)
      ensures state.done == old(state.done)
    {
      ghost var hand := state.hand;
      assert hand.next <= |hand.handlers|;
      for i := hand.next to |hand.handlers|
        invariant Valid() && state.hand == hand.(next := i)
        invariant state.accepted == old(state.accepted) && state.dispatched == old(state.dispatched)
        invariant state.done == old(state.done)
      {
        assert hand.handlers[i] < |state.subs|;
        hide Conserved, Registered, Snapshot, Delivered;
        Advance(Call);
      }
    }

    /** The dispatcher gets through what it has in hand. */
    ghost method FinishHand()
      requires Valid() && !state.done
      modifies this`state
      ensures Valid() && state.hand.Idle? && !state.done && state.accepted == old(state.accepted)
      ensures state.dispatched == old(state.dispatched) + HandEvents(old(state.hand))
    {
      hide Conserved, Registered, Snapshot, Delivered;
      if state.hand.Received? {
        Advance(ReadHandlers);
      }
      if state.hand.Running? {
        FinishCalls();
        Advance(Finish);
      }
    }

    /** Closes the channel and waits until the dispatcher has drained it. */
    method Close()
      requires Valid() && !closed
      modifies this
      ensures Valid() && state.done && state.dispatched == state.accepted == old(state.accepted)
    {
      Advance(Step.Close);
      closed := true;
      FinishHand();
      while ch != []
        invariant Valid() && closed && state.hand.Idle? && !state.done
        invariant state.accepted == old(state.accepted)
        decreases |ch|
      {
        DispatchOne();
      }
      Advance(Exit);
    }
  }
}
