/** The endpoint use cases publishing into the in-process bus, whose queue may be full at any time. */
module EventReplay {
  import opened Results
  import Bus = InProcessBus
  import Ep = EndpointLifecycle

  const TOPIC := "masterfabric.api-management"

  /** `ops` and `published` are history; payloads on other topics are of no concern here. */
  datatype System = System(ops: seq<Ep.Op>, store: Ep.Store, published: seq<Ep.Publication>, bus: Bus.State<Ep.Event>)

  datatype Step = UseCase(op: Ep.Op) | BusStep(step: Bus.Step<Ep.Event>)

  /** Only the endpoint use cases publish on the topic, and they do not after Close. */
  predicate Enabled(s: System, step: Step) {
    match step
    case UseCase(_) => !s.bus.closed
    case BusStep(b) => Bus.Enabled(s.bus, b) && (b.Publish? ==> b.event.topic != TOPIC)
  }

  function Apply(s: System, step: Step): System
    requires Enabled(s, step)
  {
    match step
    case BusStep(b) => s.(bus := Bus.Apply(s.bus, b))
    case UseCase(op) =>
      var e := Ep.Step(s.store, op);
      if e.event.None? then s.(ops := s.ops + [op], store := e.store)
      else
        System(s.ops + [op], e.store,
               s.published + [Ep.Publication(e.event.value, |s.bus.queue| < s.bus.capacity)],
               Bus.Apply(s.bus, Bus.Publish(Bus.Event(TOPIC, e.event.value))))
  }

  datatype Run = Begin(bufferSize: int) | Then(prev: Run, step: Step)

  function Exec(run: Run): System {
    match run
    case Begin(bufferSize) => System([], map[], [], Bus.New(bufferSize))
    case Then(prev, step) => if Enabled(Exec(prev), step) then Apply(Exec(prev), step) else Exec(prev)
  }

  predicate Legal(run: Run) {
    run.Then? ==> Legal(run.prev) && Enabled(Exec(run.prev), run.step)
  }

  /** The store and the publications are those of the use cases run so far, and the bus holds the accepted ones. */
  ghost predicate Consistent(s: System) {
    && Ep.After(s.ops) == Ep.History(s.store, Ep.Published(s.published))
    && Bus.OnTopic(s.bus.accepted, TOPIC) == Ep.Surviving(s.published)
    && Bus.Conserved(s.bus)
  }

  lemma AfterSnoc(ops: seq<Ep.Op>, op: Ep.Op)
    ensures var h, e := Ep.After(ops), Ep.Step(Ep.After(ops).store, op);
            Ep.After(ops + [op]) == Ep.History(e.store, h.published + (if e.event.Some? then [e.event.value] else []))
  {
    assert (ops + [op])[..|ops|] == ops;
  }

  lemma SurvivingSnoc(ps: seq<Ep.Publication>, p: Ep.Publication)
    ensures Ep.Surviving(ps + [p]) == Ep.Surviving(ps) + (if p.accepted then [p.event] else [])
  {
    assert (ps + [p])[..|ps|] == ps;
  }

  /** A use case that publishes: the store and the publications go on together. */
  lemma PublishingFollowsOps(s: System, op: Ep.Op)
    requires Consistent(s) && Enabled(s, UseCase(op)) && Ep.Step(s.store, op).event.Some?
    ensures var s' := Apply(s, UseCase(op)); Ep.After(s'.ops) == Ep.History(s'.store, Ep.Published(s'.published))
  {
    hide Ep.Step, Ep.After, Ep.Published, Ep.Surviving, Bus.Apply, Bus.OnTopic, Bus.Conserved;
    var e := Ep.Step(s.store, op);
    AfterSnoc(s.ops, op);
    Ep.PublishedSnoc(s.published, Ep.Publication(e.event.value, |s.bus.queue| < s.bus.capacity));
  }

  /** ... and the bus has accepted the event exactly if it is recorded as accepted. */
  lemma PublishingReachesBus(s: System, op: Ep.Op)
    requires Consistent(s) && Enabled(s, UseCase(op)) && Ep.Step(s.store, op).event.Some?
    ensures var s' := Apply(s, UseCase(op));
            Bus.OnTopic(s'.bus.accepted, TOPIC) == Ep.Surviving(s'.published) && Bus.Conserved(s'.bus)
  {
    hide Ep.Step, Ep.After, Ep.Published, Ep.Surviving, Bus.OnTopic, Bus.Conserved;
    var event := Ep.Step(s.store, op).event.value;
    var be := Bus.Event(TOPIC, event);
    Bus.StepConserves(s.bus, Bus.Publish(be));
    Bus.OnTopicSnoc(s.bus.accepted, be, TOPIC);
    SurvivingSnoc(s.published, Ep.Publication(event, |s.bus.queue| < s.bus.capacity));
    assert Ep.Surviving(s.published) + [] == Ep.Surviving(s.published);
  }

  lemma QuietConsistent(s: System, op: Ep.Op)
    requires Consistent(s) && Enabled(s, UseCase(op)) && Ep.Step(s.store, op).event.None?
    ensures Consistent(Apply(s, UseCase(op)))
  {
    hide Ep.Step, Ep.After, Ep.Published, Ep.Surviving, Bus.Apply, Bus.OnTopic, Bus.Conserved;
    AfterSnoc(s.ops, op);
    assert Ep.Published(s.published) + [] == Ep.Published(s.published);
  }

  lemma UseCaseConsistent(s: System, op: Ep.Op)
    requires Consistent(s) && Enabled(s, UseCase(op))
    ensures Consistent(Apply(s, UseCase(op)))
  {
    hide Ep.Step, Ep.After, Ep.Published, Ep.Surviving, Bus.Apply, Bus.OnTopic, Bus.Conserved;
    if Ep.Step(s.store, op).event.Some? {
      PublishingFollowsOps(s, op);
      PublishingReachesBus(s, op);
    } else {
      QuietConsistent(s, op);
    }
  }

  lemma BusStepConsistent(s: System, b: Bus.Step<Ep.Event>)
    requires Consistent(s) && Enabled(s, BusStep(b))
    ensures Consistent(Apply(s, BusStep(b)))
  {
    hide Ep.After, Ep.Surviving, Ep.Published;
    Bus.StepConserves(s.bus, b);
    if b.Publish? {
      Bus.OnTopicSnoc(s.bus.accepted, b.event, TOPIC);
      assert Bus.OnTopic(s.bus.accepted, TOPIC) + [] == Bus.OnTopic(s.bus.accepted, TOPIC);
    }
  }

  lemma {:induction false} RunConsistent(run: Run)
    requires Legal(run)
    ensures Consistent(Exec(run))
  {
    if run.Then? {
      RunConsistent(run.prev);
      hide Consistent;
      match run.step {
        case UseCase(op) => UseCaseConsistent(Exec(run.prev), op);
        case BusStep(b) => BusStepConsistent(Exec(run.prev), b);
      }
    }
  }

  /** Everything the bus has accepted: dispatched, in hand and queued. */
  function InTheBus(b: Bus.State<Ep.Event>): seq<Ep.Event> {
    Bus.OnTopic(b.dispatched + Bus.HandEvents(b.hand) + b.queue, TOPIC)
  }

  lemma {:induction false} AllSurvive(ps: seq<Ep.Publication>)
    requires forall i :: 0 <= i < |ps| ==> ps[i].accepted
    ensures Ep.Surviving(ps) == Ep.Published(ps)
  {
    if ps != [] {
      AllSurvive(ps[..|ps| - 1]);
      Ep.PublishedSnoc(ps[..|ps| - 1], ps[|ps| - 1]);
      assert ps == ps[..|ps| - 1] + [ps[|ps| - 1]];
    }
  }

  /** In every interleaving with the dispatcher in which no endpoint event was dropped, the bus replays to the store. */
  lemma {:induction false} BusReplaysToStore(run: Run)
    requires Legal(run)
    requires forall i :: 0 <= i < |Exec(run).published| ==> Exec(run).published[i].accepted
    ensures Ep.Rebuild(InTheBus(Exec(run).bus)) == Ep.Statuses(Exec(run).store)
  {
    RunConsistent(run);
    AllSurvive(Exec(run).published);
    Ep.ReplayGivesStatuses(Exec(run).ops);
  }

  /** What the events in the bus tell of an endpoint is what is stored. */
  predicate BusIsRight(s: System, id: nat) {
    Ep.Right(Ep.Rebuild(InTheBus(s.bus)), s.store, id)
  }

  /** The bus has seen some event of the endpoint, and an even number was dropped after the last it saw. */
  predicate EvenlyDropped(s: System, id: nat) {
    id in Ep.Rebuild(InTheBus(s.bus)) && Ep.TrailingDropped(s.published, id) % 2 == 0
  }

  /** With drops, the bus is right about an endpoint exactly when an even number of its events were dropped last. */
  lemma {:induction false} BusReplayRightExactlyWhen(run: Run, id: nat)
    requires Legal(run)
    ensures BusIsRight(Exec(run), id) <==> id !in Exec(run).store || EvenlyDropped(Exec(run), id)
  {
    RunConsistent(run);
    Ep.ReplayRightExactlyWhen(Exec(run).ops, Exec(run).published, id);
  }

  /**
   * A queue of one event, an endpoint defined and retired: the second event is dropped, and the bus tells of an
   * active endpoint.
   */
  lemma {:induction false} DropBreaksReplay() returns (run: Run)
    ensures Legal(run) && 7 in Exec(run).store && Exec(run).store[7].status == Ep.Retired
    ensures !BusIsRight(Exec(run), 7)
  {
    var define, retire := Ep.Define(7, 1, "GET", "/orders", "v1", true, true), Ep.Retire(7, true, true);
    run := Then(Then(Begin(1), UseCase(define)), UseCase(retire));
    var created := Bus.Event(TOPIC, Ep.EndpointCreated(7, 1, "GET", "/orders"));
    var s1, s2 := Exec(run.prev), Exec(run);
    assert s1.bus.queue == [created] && s1.store[7].status == Ep.Active;
    assert s2.bus.queue == [created] && s2.bus.dispatched == [] && s2.bus.hand.Idle?;
    OneEventInTheBus(s2.bus, created);
  }

  lemma OneEventInTheBus(b: Bus.State<Ep.Event>, e: Bus.Event<Ep.Event>)
    requires b.queue == [e] && b.dispatched == [] && b.hand.Idle? && e.topic == TOPIC
    ensures Ep.Rebuild(InTheBus(b)) == map[e.payload.id := Ep.Says(e.payload)]
  {
    var none: seq<Bus.Event<Ep.Event>> := [];
    assert b.dispatched + Bus.HandEvents(b.hand) + b.queue == none + [e];
    Bus.OnTopicSnoc(none, e, TOPIC);
    assert Bus.OnTopic(none, TOPIC) == [] && [] + [e.payload] == [e.payload];
    hide Bus.OnTopic;
    RebuildOne(e.payload);
  }

  lemma RebuildOne(e: Ep.Event)
    ensures Ep.Rebuild([e]) == map[e.id := Ep.Says(e)]
  {
    assert [e][..0] == [];
  }
}
