/**
 * The gate and the permission cache together: `Enforce` asks `HasPermission`, which reads through the
 * cache, while roles change and any number of requests and readers go on.
 */
module GatePermissions {
  import opened Results
  import opened RoleStore
  import Cache = PermissionCache
  import Gate = PolicyGate

  /** When a request arrived, and the reads that had been started by then. */
  datatype Arrival = Arrival(at: int, readers: set<nat>)

  /** What the repositories answered when the request was screened, and the read that answered for which user. */
  datatype Check = Check(snap: Gate.Snapshot, who: Option<Who>, reader: nat, time: int)

  /** `arrivals` and `checks` are history. */
  datatype System = System(gate: Gate.State, cache: Cache.State, arrivals: map<nat, Arrival>, checks: map<nat, Check>)

  datatype Step =
    | Tick(to: int)
    | GateStep(gate: Gate.Step)     // any but the passing of time and the screening
    | CacheStep(cache: Cache.Step)  // any but the passing of time
    | Screening(id: nat, snap: Gate.Snapshot, org: nat, reader: nat)

  /** The permission the request is asked for; none if it does not get as far. */
  function Needed(req: Gate.Request, snap: Gate.Snapshot): string {
    if Gate.Managed(req, snap) && Gate.Found(req, snap).status == Gate.EL.Active
    then Gate.PolicyOf(Gate.Found(req, snap), snap).requiredPermission
    else ""
  }

  predicate Asks(req: Gate.Request, snap: Gate.Snapshot) {
    Needed(req, snap) != "" && req.user.Some?
  }

  /** A read of the user's permissions that has ended. */
  predicate Ended(c: Cache.State, r: nat, who: Who) {
    r in c.readers && c.readers[r].who == who && (c.readers[r].phase.Returned? || c.readers[r].phase.Failed?)
  }

  /** `HasPermission` over that read. */
  function Answer(c: Cache.State, r: nat, permission: string): Gate.Permission
    requires r in c.readers
  {
    if !c.readers[r].phase.Returned? then Gate.CheckFailed
    else if permission in c.readers[r].phase.perms then Gate.Held
    else Gate.NotHeld
  }

  function WhoAsks(req: Gate.Request, org: nat): Who
    requires req.user.Some?
  {
    Who(req.user.value, org)
  }

  /** What the screening of a request is told; nothing is asked if it does not get as far. */
  function Told(c: Cache.State, reader: nat, req: Gate.Request, snap: Gate.Snapshot): Gate.Permission
    requires Asks(req, snap) ==> reader in c.readers
  {
    if Asks(req, snap) then Answer(c, reader, Needed(req, snap)) else Gate.NotHeld
  }

  predicate Enabled(s: System, step: Step)
    requires s.cache.versions != []
  {
    match step
    case Tick(to) => s.gate.now <= to && s.cache.now <= to
    case GateStep(g) => Gate.Enabled(s.gate, g) && !g.Tick? && !g.Check?
    case CacheStep(c) => Cache.Enabled(s.cache, c) && !c.Tick?
    case Screening(id, snap, org, reader) =>
      && Gate.In(s.gate, id, Gate.Arrived) && id in s.arrivals
      && (Asks(s.gate.reqs[id].request, snap) ==>
            Ended(s.cache, reader, WhoAsks(s.gate.reqs[id].request, org)) && reader !in s.arrivals[id].readers)
  }

  function Apply(s: System, step: Step): System
    requires s.cache.versions != [] && Enabled(s, step)
  {
    match step
    case Tick(to) => s.(gate := Gate.Apply(s.gate, Gate.Tick(to)), cache := Cache.Apply(s.cache, Cache.Tick(to)))
    case GateStep(g) =>
      s.(gate := Gate.Apply(s.gate, g),
         arrivals := if g.Arrive? then s.arrivals[g.id := Arrival(s.cache.now, s.cache.readers.Keys)] else s.arrivals)
    case CacheStep(c) => s.(cache := Cache.Apply(s.cache, c))
    case Screening(id, snap, org, reader) =>
      var req := s.gate.reqs[id].request;
      var who := if Asks(req, snap) then Some(WhoAsks(req, org)) else None;
      s.(gate := Gate.Apply(s.gate, Gate.Check(id, snap, Told(s.cache, reader, req, snap))),
         checks := s.checks[id := Check(snap, who, reader, s.cache.now)])
  }

  datatype Run = Begin(redis: bool, tables: Tables) | Then(prev: Run, step: Step)

  function Exec(run: Run): (s: System)
    ensures s.cache.versions != []
  {
    match run
    case Begin(redis, tables) => System(Gate.Exec(Gate.Begin(redis)), Cache.Exec(Cache.Begin(tables)), map[], map[])
    case Then(prev, step) => if Enabled(Exec(prev), step) then Apply(Exec(prev), step) else Exec(prev)
  }

  predicate Legal(run: Run) {
    run.Then? ==> Legal(run.prev) && Enabled(Exec(run.prev), run.step)
  }

  // ---------------------------------------------------------------- invariants

  /** The read began after the request arrived, so what it took it took later still. */
  predicate ReadsAfter(c: Cache.State, a: Arrival) {
    && a.at <= c.now
    && (forall r :: r in c.readers && r !in a.readers ==>
          match c.readers[r].phase
          case Holding(_, _, since) => a.at <= since
          case Returned(_, _, since, _) => a.at <= since
          case _ => true)
  }

  /** A request that was let through had the permission in the list its read returned. */
  predicate Allowed(c: Cache.State, req: Gate.Request, check: Check) {
    Needed(req, check.snap) != "" ==>
      && check.who.Some? && Ended(c, check.reader, check.who.value)
      && c.readers[check.reader].phase.Returned? && Needed(req, check.snap) in c.readers[check.reader].phase.perms
  }

  /** The endpoint is managed and active. */
  predicate PassedGate(req: Gate.Request, snap: Gate.Snapshot) {
    Gate.Managed(req, snap) && Gate.Found(req, snap).status == Gate.EL.Active
  }

  /** History of one request. */
  predicate RequestOk(s: System, id: nat)
    requires id in s.gate.reqs
  {
    var t := s.gate.reqs[id];
    && id in s.arrivals && ReadsAfter(s.cache, s.arrivals[id])
    && (t.verdict.Some? ==> id in s.checks && s.checks[id].time <= s.cache.now)
    && (t.verdict.Some? && s.checks[id].who.Some? ==>
          && t.request.user == Some(s.checks[id].who.value.user)
          && Ended(s.cache, s.checks[id].reader, s.checks[id].who.value)
          && s.checks[id].reader !in s.arrivals[id].readers
          && ReturnedBy(s.cache, s.checks[id].reader, s.checks[id].time))
    && (t.verdict.Some? && !t.verdict.value.Stop? ==>
          PassedGate(t.request, s.checks[id].snap) && Allowed(s.cache, t.request, s.checks[id]))
  }

  predicate ReturnedBy(c: Cache.State, r: nat, time: int)
    requires r in c.readers
  {
    c.readers[r].phase.Returned? ==> c.readers[r].phase.at <= time
  }

  ghost predicate Inv(s: System) {
    && Cache.Inv(s.cache) && Gate.TracksOk(s.gate)
    && (forall id :: id in s.gate.reqs ==> RequestOk(s, id))
  }

  /** A read that has ended stays as it is. */
  lemma EndedStays(c: Cache.State, step: Cache.Step)
    requires c.versions != [] && Cache.Enabled(c, step)
    ensures forall r, who :: Ended(c, r, who) ==>
          Ended(Cache.Apply(c, step), r, who) && Cache.Apply(c, step).readers[r] == c.readers[r]
    ensures c.now <= Cache.Apply(c, step).now
  {
    hide Join;
  }

  lemma ReadsAfterStays(c: Cache.State, step: Cache.Step, a: Arrival)
    requires c.versions != [] && Cache.Enabled(c, step) && ReadsAfter(c, a)
    ensures ReadsAfter(Cache.Apply(c, step), a)
  {
    hide Join, Lists, Cache.Current;
  }

  lemma CacheMoves(s: System, c: Cache.Step, id: nat)
    requires Inv(s) && Cache.Enabled(s.cache, c) && id in s.gate.reqs
    ensures RequestOk(s.(cache := Cache.Apply(s.cache, c)), id)
  {
    assert RequestOk(s, id);
    EndedStays(s.cache, c);
    ReadsAfterStays(s.cache, c, s.arrivals[id]);
    hide Inv, ReadsAfter, Cache.Apply, Cache.Enabled, Ended;
    EndedIsRead(s.cache);
  }

  lemma EndedIsRead(c: Cache.State)
    ensures forall r, who :: Ended(c, r, who) ==> r in c.readers
  {
  }

  /** Only the screening gives a request its verdict. */
  lemma GateKeepsVerdicts(g: Gate.State, step: Gate.Step, id: nat)
    requires Gate.Enabled(g, step) && !step.Check? && id in Gate.Apply(g, step).reqs
    ensures id in g.reqs ==>
              && Gate.Apply(g, step).reqs[id].verdict == g.reqs[id].verdict
              && Gate.Apply(g, step).reqs[id].request == g.reqs[id].request
    ensures id !in g.reqs ==> step.Arrive? && step.id == id && Gate.Apply(g, step).reqs[id].verdict.None?
    ensures step.Arrive? ==> step.id !in g.reqs
  {
    hide Gate.RL.Apply, Gate.Screened;
  }

  lemma ScreenKeepsOthers(g: Gate.State, id: nat, snap: Gate.Snapshot, permission: Gate.Permission)
    requires Gate.In(g, id, Gate.Arrived)
    ensures var g' := Gate.Apply(g, Gate.Check(id, snap, permission));
            && g'.reqs.Keys == g.reqs.Keys
            && (forall other :: other in g.reqs && other != id ==> g'.reqs[other] == g.reqs[other])
            && g'.reqs[id].request == g.reqs[id].request
            && g'.reqs[id].verdict == Some(Gate.Screened(g.reqs[id].request, snap, permission, g.redis))
  {
    hide Gate.Screened;
  }

  /** Who is let through needs no permission, or is known and holds it. */
  lemma PassedWasPermitted(req: Gate.Request, snap: Gate.Snapshot, permission: Gate.Permission, redis: bool)
    requires !Gate.Screened(req, snap, permission, redis).Stop?
    ensures PassedGate(req, snap)
    ensures Needed(req, snap) != "" ==> req.user.Some? && permission.Held?
  {
  }

  lemma ScreeningOk(s: System, id: nat, snap: Gate.Snapshot, org: nat, reader: nat)
    requires Inv(s) && Enabled(s, Screening(id, snap, org, reader))
    ensures RequestOk(Apply(s, Screening(id, snap, org, reader)), id)
  {
    var s', req := Apply(s, Screening(id, snap, org, reader)), s.gate.reqs[id].request;
    var permission := Told(s.cache, reader, req, snap);
    assert RequestOk(s, id);
    assert Asks(req, snap) ==> ReturnedBy(s.cache, reader, s.cache.now) by {
      if Asks(req, snap) { assert Cache.ReaderInv(s.cache, s.cache.readers[reader]); }
    }
    ScreenKeepsOthers(s.gate, id, snap, permission);
    hide Inv, Gate.Apply, Gate.Screened, Needed, ReadsAfter;
    if !s'.gate.reqs[id].verdict.value.Stop? {
      PassedWasPermitted(req, snap, permission, s.gate.redis);
    }
  }

  lemma GateMoves(s: System, g: Gate.Step, id: nat)
    requires Inv(s) && Enabled(s, GateStep(g)) && id in Gate.Apply(s.gate, g).reqs
    ensures RequestOk(Apply(s, GateStep(g)), id)
  {
    GateKeepsVerdicts(s.gate, g, id);
    assert id in s.gate.reqs ==> RequestOk(s, id);
    hide Inv, Gate.Apply, Gate.Enabled, Allowed;
  }

  lemma StepKeepsParts(s: System, step: Step)
    requires Inv(s) && Enabled(s, step)
    ensures Cache.Inv(Apply(s, step).cache) && Gate.TracksOk(Apply(s, step).gate)
  {
    hide Cache.Inv, Gate.TracksOk, RequestOk, Cache.Apply, Gate.Apply;
    match step {
      case Tick(to) =>
        Cache.StepKeepsInv(s.cache, Cache.Tick(to));
        Gate.StepKeepsTracks(s.gate, Gate.Tick(to));
      case GateStep(g) => Gate.StepKeepsTracks(s.gate, g);
      case CacheStep(c) => Cache.StepKeepsInv(s.cache, c);
      case Screening(id, snap, org, reader) =>
        var req := s.gate.reqs[id].request;
        Gate.StepKeepsTracks(s.gate, Gate.Check(id, snap, Told(s.cache, reader, req, snap)));
    }
  }

  lemma StepKeepsRequests(s: System, step: Step, id: nat)
    requires Inv(s) && Enabled(s, step) && id in Apply(s, step).gate.reqs
    ensures RequestOk(Apply(s, step), id)
  {
    hide RequestOk, Cache.Apply, Cache.Enabled, Needed, Ended;
    match step {
      case Tick(to) =>
        TickIsEnabled(s.cache, to);
        CacheMoves(s, Cache.Tick(to), id);
        TimeForGate(s.(cache := Cache.Apply(s.cache, Cache.Tick(to))), to, id);
      case GateStep(g) => GateMoves(s, g, id);
      case CacheStep(c) => CacheMoves(s, c, id);
      case Screening(screened, snap, org, reader) =>
        if id == screened {
          ScreeningOk(s, id, snap, org, reader);
        } else {
          OthersScreened(s, screened, snap, org, reader, id);
        }
    }
  }

  lemma TickIsEnabled(c: Cache.State, to: int)
    requires c.versions != [] && c.now <= to
    ensures Cache.Enabled(c, Cache.Tick(to))
  {
  }

  lemma TimeForGate(s: System, to: int, id: nat)
    requires id in s.gate.reqs && RequestOk(s, id) && s.gate.now <= to
    ensures RequestOk(s.(gate := Gate.Apply(s.gate, Gate.Tick(to))), id)
  {
  }

  lemma OthersScreened(s: System, screened: nat, snap: Gate.Snapshot, org: nat, reader: nat, id: nat)
    requires Inv(s) && Enabled(s, Screening(screened, snap, org, reader)) && id != screened
    requires id in Apply(s, Screening(screened, snap, org, reader)).gate.reqs
    ensures RequestOk(Apply(s, Screening(screened, snap, org, reader)), id)
  {
    var req := s.gate.reqs[screened].request;
    ScreenKeepsOthers(s.gate, screened, snap, Told(s.cache, reader, req, snap));
    assert id in s.gate.reqs && RequestOk(s, id);
    hide Inv, Gate.Apply, Gate.Enabled, Needed, ReadsAfter, Allowed;
  }

  lemma {:induction false} RunKeepsInv(run: Run)
    requires Legal(run)
    ensures Inv(Exec(run))
  {
    if run.Then? {
      RunKeepsInv(run.prev);
      var s := Exec(run.prev);
      hide Apply, Enabled, RequestOk, Cache.Inv, Gate.TracksOk;
      StepKeepsParts(s, run.step);
      forall id | id in Apply(s, run.step).gate.reqs ensures RequestOk(Apply(s, run.step), id) {
        StepKeepsRequests(s, run.step, id);
      }
    } else {
      BeginOk(run);
    }
  }

  lemma BeginOk(run: Run)
    requires run.Begin?
    ensures Inv(Exec(run))
  {
  }

  /**
   * Whose request reached the backend of an endpoint that asks for a permission held that permission, by
   * the role tables, at some instant before the check; and that instant lies less than the TTL, plus the time
   * its list took from the database to the cache, before the request arrived, if it lies before it at all.
   */
  lemma BackendCallersWerePermitted(run: Run, id: nat)
    requires Legal(run) && id in Exec(run).gate.reqs && Exec(run).gate.reqs[id].called.Some?
    ensures var s := Exec(run);
            var req := s.gate.reqs[id].request;
            && id in s.checks && id in s.arrivals && req.header.App?
            && var snap := s.checks[id].snap;
               var rest := if "/api/v1" <= req.path then req.path[7..] else req.path;
               var path := if "/api/v1" == req.path then "/" else rest;
               && (req.header.id, req.verb, path) in snap.endpoints
               && var e := snap.endpoints[(req.header.id, req.verb, path)];
                  e.status == Gate.EL.Active &&
                  (e.id in snap.policies && snap.policies[e.id].requiredPermission != "" ==>
                     WasPermitted(s, id, snap.policies[e.id].requiredPermission))
  {
    RunKeepsInv(run);
    var s := Exec(run);
    hide Exec, Legal;
    assert RequestOk(s, id) && Gate.TrackOk(s.gate.reqs[id]);
    var check := s.checks[id];
    if Needed(s.gate.reqs[id].request, check.snap) != "" {
      assert Cache.ReaderInv(s.cache, s.cache.readers[check.reader]);
    }
  }

  /** The user of the request had the permission in the role tables at the instant its list was read. */
  ghost predicate WasPermitted(s: System, id: nat, permission: string)
    requires id in s.gate.reqs && id in s.checks && id in s.arrivals
  {
    var check := s.checks[id];
    && check.who.Some? && s.gate.reqs[id].request.user == Some(check.who.value.user)
    && check.reader in s.cache.readers && s.cache.readers[check.reader].phase.Returned?
    && var Returned(perms, o, since, at) := s.cache.readers[check.reader].phase;
       && Cache.CurrentAt(s.cache.versions, o.version, o.readAt)
       && permission in Join(s.cache.versions[o.version].tables, check.who.value)
       && o.readAt <= at <= check.time
       && s.arrivals[id].at - o.readAt < 15 * 60 * 1_000_000_000 + (o.setAt - o.readAt)
  }
}
