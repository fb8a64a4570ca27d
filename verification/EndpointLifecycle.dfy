/** Defining, retiring and activating endpoints, and the events these use cases publish. */
module EndpointLifecycle {
  import opened Results

  datatype Status = Active | Inactive | Deprecated | Retired

  datatype Endpoint = Endpoint(app: nat, verb: string, path: string, version: string, status: Status)

  datatype Event =
    | EndpointCreated(id: nat, app: nat, verb: string, path: string)
    | EndpointRetired(id: nat, app: nat)
    | EndpointActivated(id: nat, app: nat)

  datatype Outcome = Done | AlreadyExists | NotFound | BadRequest | Internal

  /** One use case, with what the database did: `lookupOk` for a read, `dbOk` for a write. */
  datatype Op =
    | Define(newId: nat, app: nat, verb: string, path: string, version: string, lookupOk: bool, dbOk: bool)
    | Retire(id: nat, lookupOk: bool, dbOk: bool)
    | Activate(id: nat, lookupOk: bool, dbOk: bool)

  type Store = map<nat, Endpoint>

  predicate Taken(store: Store, app: nat, verb: string, path: string, version: string) {
    exists id :: id in store && store[id].app == app && store[id].verb == verb && store[id].path == path &&
        store[id].version == version
  }

  datatype Effect = Effect(store: Store, outcome: Outcome, event: Option<Event>)

  /** A failing duplicate lookup counts as "no duplicate"; the database constraint still refuses the row. */
  function Step(store: Store, op: Op): Effect {
    match op
    case Define(id, app, verb, path, version, lookupOk, dbOk) =>
      var v := if version == "" then "v1" else version;
      if lookupOk && Taken(store, app, verb, path, v) then Effect(store, AlreadyExists, None)
      else if !dbOk || id in store || Taken(store, app, verb, path, v) then Effect(store, Internal, None)
      else Effect(store[id := Endpoint(app, verb, path, v, Active)], Done, Some(EndpointCreated(id, app, verb, path)))
    case Retire(id, lookupOk, dbOk) =>
      if !lookupOk then Effect(store, Internal, None)
      else if id !in store then Effect(store, NotFound, None)
      else if store[id].status == Retired then Effect(store, BadRequest, None)
      else if !dbOk then Effect(store, Internal, None)
      else Effect(store[id := store[id].(status := Retired)], Done, Some(EndpointRetired(id, store[id].app)))
    case Activate(id, lookupOk, dbOk) =>
      if !lookupOk then Effect(store, Internal, None)
      else if id !in store then Effect(store, NotFound, None)
      else if store[id].status == Active then Effect(store, BadRequest, None)
      else if !dbOk then Effect(store, Internal, None)
      else Effect(store[id := store[id].(status := Active)], Done, Some(EndpointActivated(id, store[id].app)))
  }

  /** The use cases over the endpoint table. */
  class Endpoints {
    var rows: Store

    constructor ()
      ensures rows == map[]
    {
      rows := map[];
    }

    method DefineEndpoint(id: nat, app: nat, verb: string, path: string, version: string, lookupOk: bool, dbOk: bool)
        returns (outcome: Outcome, event: Option<Event>)
      modifies this
      ensures Effect(rows, outcome, event) == Step(old(rows), Define(id, app, verb, path, version, lookupOk, dbOk))
      ensures var v := if version == "" then "v1" else version;
              var taken := exists other | other in old(rows) ::
                             var e := old(rows)[other];
                             e.app == app && e.verb == verb && e.path == path && e.version == v;
              && (outcome == AlreadyExists <==> lookupOk && taken)
              && (outcome == Done <==> dbOk && id !in old(rows) && !taken)
              && (outcome !in {AlreadyExists, Done} ==> outcome == Internal)
              && (outcome == Done ==>
                    && rows == old(rows)[id := Endpoint(app, verb, path, v, Active)]
                    && event == Some(EndpointCreated(id, app, verb, path)))
      ensures outcome != Done ==> rows == old(rows) && event == None
    {
      var v := version;
      if version == "" {
        v := "v1";
      }
      if lookupOk && Taken(rows, app, verb, path, v) {
        return AlreadyExists, None;
      }
      if !dbOk || id in rows || Taken(rows, app, verb, path, v) {
        return Internal, None;
      }
      rows := rows[id := Endpoint(app, verb, path, v, Active)];
      return Done, Some(EndpointCreated(id, app, verb, path));
    }

    method RetireEndpoint(id: nat, lookupOk: bool, dbOk: bool) returns (outcome: Outcome, event: Option<Event>)
      modifies this
      ensures Effect(rows, outcome, event) == Step(old(rows), Retire(id, lookupOk, dbOk))
      ensures outcome == NotFound <==> lookupOk && id !in old(rows)
      ensures outcome == BadRequest <==> lookupOk && id in old(rows) && old(rows)[id].status == Retired
      ensures outcome == Done <==> lookupOk && id in old(rows) && old(rows)[id].status != Retired && dbOk
      ensures outcome !in {NotFound, BadRequest, Done} ==> outcome == Internal
      ensures outcome == Done ==>
                && rows == old(rows)[id := old(rows)[id].(status := Retired)]
                && event == Some(EndpointRetired(id, old(rows)[id].app))
      ensures outcome != Done ==> rows == old(rows) && event == None
    {
      if !lookupOk { return Internal, None; }
      if id !in rows { return NotFound, None; }
      var endpoint := rows[id];
      if endpoint.status == Retired { return BadRequest, None; }
      endpoint := endpoint.(status := Retired);
      if !dbOk { return Internal, None; }
      rows := rows[id := endpoint];
      return Done, Some(EndpointRetired(id, endpoint.app));
    }

    method ActivateEndpoint(id: nat, lookupOk: bool, dbOk: bool) returns (outcome: Outcome, event: Option<Event>)
      modifies this
      ensures Effect(rows, outcome, event) == Step(old(rows), Activate(id, lookupOk, dbOk))
      ensures outcome == NotFound <==> lookupOk && id !in old(rows)
      ensures outcome == BadRequest <==> lookupOk && id in old(rows) && old(rows)[id].status == Active
      ensures outcome == Done <==> lookupOk && id in old(rows) && old(rows)[id].status != Active && dbOk
      ensures outcome !in {NotFound, BadRequest, Done} ==> outcome == Internal
      ensures outcome == Done ==>
                && rows == old(rows)[id := old(rows)[id].(status := Active)]
                && event == Some(EndpointActivated(id, old(rows)[id].app))
      ensures outcome != Done ==> rows == old(rows) && event == None
    {
      if !lookupOk { return Internal, None; }
      if id !in rows { return NotFound, None; }
      var endpoint := rows[id];
      if endpoint.status == Active { return BadRequest, None; }
      endpoint := endpoint.(status := Active);
      if !dbOk { return Internal, None; }
      rows := rows[id := endpoint];
      return Done, Some(EndpointActivated(id, endpoint.app));
    }
  }

  // ---------------------------------------------------------------- replay

  /** What a consumer that keeps only the latest event of an endpoint believes of it. */
  function Says(e: Event): Status {
    if e.EndpointRetired? then Retired else Active
  }

  function Rebuild(es: seq<Event>): map<nat, Status> {
    if es == [] then map[] else Rebuild(es[..|es| - 1])[es[|es| - 1].id := Says(es[|es| - 1])]
  }

  function Statuses(store: Store): map<nat, Status> {
    map id | id in store :: store[id].status
  }

  function EventsOf(es: seq<Event>, id: nat): seq<Event> {
    if es == [] then []
    else EventsOf(es[..|es| - 1], id) + (if es[|es| - 1].id == id then [es[|es| - 1]] else [])
  }

  /** Created, then Retired and Activated in turn. */
  predicate Lawful(es: seq<Event>) {
    forall i :: 0 <= i < |es| ==>
      if i == 0 then es[i].EndpointCreated? else if i % 2 == 1 then es[i].EndpointRetired? else es[i].EndpointActivated?
  }

  datatype History = History(store: Store, published: seq<Event>)

  function After(ops: seq<Op>): History {
    if ops == [] then History(map[], [])
    else
      var h := After(ops[..|ops| - 1]);
      var e := Step(h.store, ops[|ops| - 1]);
      History(e.store, h.published + (if e.event.Some? then [e.event.value] else []))
  }

  /** An endpoint's stored status and the number of its events agree. */
  ghost predicate InStep(h: History, id: nat) {
    var es := EventsOf(h.published, id);
    && Lawful(es)
    && (id in h.store <==> es != [])
    && (id in h.store ==> h.store[id].status == Parity(|es|))
  }

  lemma EventsOfSnoc(es: seq<Event>, e: Event, id: nat)
    ensures EventsOf(es + [e], id) == EventsOf(es, id) + (if e.id == id then [e] else [])
  {
    assert (es + [e])[..|es|] == es;
  }

  /** The status that goes with a number of events. */
  function Parity(n: nat): Status {
    if n % 2 == 1 then Active else Retired
  }

  lemma LawfulSnoc(es: seq<Event>, e: Event)
    requires Lawful(es)
    ensures Lawful(es + [e]) <==>
          if es == [] then e.EndpointCreated? else if |es| % 2 == 1 then e.EndpointRetired? else e.EndpointActivated?
  {
    assert (es + [e])[|es|] == e;
  }

  lemma StepInStep(h: History, op: Op, id: nat)
    requires InStep(h, id)
    ensures var e := Step(h.store, op);
            InStep(History(e.store, h.published + (if e.event.Some? then [e.event.value] else [])), id)
  {
    hide EventsOf, Lawful, Taken;
    var e := Step(h.store, op);
    var es := EventsOf(h.published, id);
    if e.event.Some? {
      EventsOfSnoc(h.published, e.event.value, id);
      LawfulSnoc(es, e.event.value);
      assert es + [] == es;
    } else {
      assert h.published + [] == h.published;
    }
  }

  lemma {:induction false} StaysInStep(ops: seq<Op>, id: nat)
    ensures InStep(After(ops), id)
  {
    if ops != [] {
      StaysInStep(ops[..|ops| - 1], id);
      hide InStep;
      StepInStep(After(ops[..|ops| - 1]), ops[|ops| - 1], id);
    }
  }

  /** Over any run, an endpoint's events are Created, (Retired, Activated)*, and perhaps one more Retired. */
  lemma EventsAreLawful(ops: seq<Op>, id: nat)
    ensures Lawful(EventsOf(After(ops).published, id))
  {
    StaysInStep(ops, id);
  }

  lemma {:induction false} RebuildIsLast(es: seq<Event>, id: nat)
    ensures id in Rebuild(es) <==> EventsOf(es, id) != []
    ensures id in Rebuild(es) ==> Rebuild(es)[id] == Says(EventsOf(es, id)[|EventsOf(es, id)| - 1])
  {
    if es != [] {
      RebuildIsLast(es[..|es| - 1], id);
    }
  }

  lemma LawfulSays(es: seq<Event>)
    requires Lawful(es) && es != []
    ensures Says(es[|es| - 1]) == Parity(|es|)
  {
  }

  lemma ReplayGivesStatus(ops: seq<Op>, id: nat)
    ensures id in Rebuild(After(ops).published) <==> id in After(ops).store
    ensures id in After(ops).store ==> Rebuild(After(ops).published)[id] == After(ops).store[id].status
  {
    StaysInStep(ops, id);
    RebuildIsLast(After(ops).published, id);
    if id in After(ops).store {
      LawfulSays(EventsOf(After(ops).published, id));
    }
  }

  /** Replaying everything that was published rebuilds the stored statuses. */
  lemma ReplayGivesStatuses(ops: seq<Op>)
    ensures Rebuild(After(ops).published) == Statuses(After(ops).store)
  {
    var rebuilt, stored := Rebuild(After(ops).published), Statuses(After(ops).store);
    forall id ensures id in rebuilt <==> id in stored { ReplayGivesStatus(ops, id); }
    forall id | id in stored ensures rebuilt[id] == stored[id] { ReplayGivesStatus(ops, id); }
  }

  // ---------------------------------------------------------------- replay of what survived

  /** A published event, and whether the bus accepted it. */
  datatype Publication = Publication(event: Event, accepted: bool)

  function Published(ps: seq<Publication>): seq<Event> {
    seq(|ps|, i requires 0 <= i < |ps| => ps[i].event)
  }

  function Surviving(ps: seq<Publication>): seq<Event> {
    if ps == [] then []
    else Surviving(ps[..|ps| - 1]) + (if ps[|ps| - 1].accepted then [ps[|ps| - 1].event] else [])
  }

  /** How many of an endpoint's latest events were dropped, after its last accepted one. */
  function TrailingDropped(ps: seq<Publication>, id: nat): nat {
    if ps == [] then 0
    else
      var last := ps[|ps| - 1];
      if last.event.id != id then TrailingDropped(ps[..|ps| - 1], id)
      else if last.accepted then 0
      else TrailingDropped(ps[..|ps| - 1], id) + 1
  }

  lemma PublishedSnoc(ps: seq<Publication>, p: Publication)
    ensures Published(ps + [p]) == Published(ps) + [p.event]
  {
  }

  lemma LawfulPrefix(es: seq<Event>, more: seq<Event>)
    requires Lawful(es + more)
    ensures Lawful(es)
  {
    assert forall i :: 0 <= i < |es| ==> (es + more)[i] == es[i];
  }

  /** The last surviving event says what the number of events up to it says. */
  ghost predicate SurvivorTells(ps: seq<Publication>, id: nat) {
    var n, kept := |EventsOf(Published(ps), id)|, EventsOf(Surviving(ps), id);
    && TrailingDropped(ps, id) <= n
    && (kept == [] <==> TrailingDropped(ps, id) == n)
    && (kept != [] ==> Says(kept[|kept| - 1]) == Parity(n - TrailingDropped(ps, id)))
  }

  lemma SurvivingSnoc(ps: seq<Publication>, p: Publication, id: nat)
    ensures EventsOf(Published(ps + [p]), id) ==
          EventsOf(Published(ps), id) + (if p.event.id == id then [p.event] else [])
    ensures EventsOf(Surviving(ps + [p]), id) ==
            EventsOf(Surviving(ps), id) + (if p.accepted && p.event.id == id then [p.event] else [])
    ensures TrailingDropped(ps + [p], id) ==
            if p.event.id != id then TrailingDropped(ps, id) else if p.accepted then 0 else TrailingDropped(ps, id) + 1
  {
    assert (ps + [p])[..|ps|] == ps;
    PublishedSnoc(ps, p);
    EventsOfSnoc(Published(ps), p.event, id);
    EventsOfSnoc(Surviving(ps), p.event, id);
    assert Surviving(ps) + [] == Surviving(ps);
    assert EventsOf(Surviving(ps), id) + [] == EventsOf(Surviving(ps), id);
  }

  lemma SurvivorStep(ps: seq<Publication>, p: Publication, id: nat)
    requires SurvivorTells(ps, id) && Lawful(EventsOf(Published(ps + [p]), id))
    ensures SurvivorTells(ps + [p], id)
  {
    hide EventsOf, Published, Surviving, TrailingDropped, Lawful, Parity, Says;
    SurvivingSnoc(ps, p, id);
    if p.event.id == id && p.accepted {
      LawfulSays(EventsOf(Published(ps + [p]), id));
    }
  }

  lemma {:induction false} SurvivorSays(ps: seq<Publication>, id: nat)
    requires Lawful(EventsOf(Published(ps), id))
    ensures SurvivorTells(ps, id)
  {
    if ps != [] {
      var init, last := ps[..|ps| - 1], ps[|ps| - 1];
      assert init + [last] == ps;
      SurvivingSnoc(init, last, id);
      LawfulPrefix(EventsOf(Published(init), id), if last.event.id == id then [last.event] else []);
      SurvivorSays(init, id);
      SurvivorStep(init, last, id);
    }
  }

  lemma SameParity(n: nat, t: nat)
    requires t <= n
    ensures Parity(n) == Parity(n - t) <==> t % 2 == 0
  {
  }

  /**
   * What a full queue does to a consumer: it is right about an endpoint exactly when the endpoint never
   * published, or some event of it survived and an even number was dropped after the last survivor.
   */
  lemma ReplayRightExactlyWhen(ops: seq<Op>, ps: seq<Publication>, id: nat)
    requires Published(ps) == After(ops).published
    ensures Right(Rebuild(Surviving(ps)), After(ops).store, id) <==>
            (id !in After(ops).store || (id in Rebuild(Surviving(ps)) && TrailingDropped(ps, id) % 2 == 0))
  {
    hide EventsOf, Lawful, Rebuild, Surviving, TrailingDropped, After, Says, Parity, Published;
    StaysInStep(ops, id);
    SurvivorSays(ps, id);
    RebuildIsLast(Surviving(ps), id);
    SameParity(|EventsOf(Published(ps), id)|, TrailingDropped(ps, id));
  }

  /** A consumer's belief about an endpoint agrees with the store. */
  predicate Right(belief: map<nat, Status>, store: Store, id: nat) {
    if id in store then id in belief && belief[id] == store[id].status else id !in belief
  }
}
