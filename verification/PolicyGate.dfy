/**
 * `Pipeline.Enforce` for many requests at once: each goes through the gate's checks, its INCR, perhaps an
 * EXPIRE (waited for or not), the interceptors and the backend, and the steps of different requests interleave.
 */
module PolicyGate {
  import opened Headers
  import opened Results
  import EL = EndpointLifecycle
  import RL = RateLimiter

  datatype Endpoint = Endpoint(id: nat, status: EL.Status)

  /** An empty permission asks for none, and a limit of zero or less is no limit. */
  datatype Policy = Policy(requiredPermission: string, rateLimit: int)

  datatype Request = Request(path: string, verb: string, header: AppHeader, user: Option<nat>)

  datatype Key = Key(app: nat, endpoint: nat)

  datatype Permission = Held | NotHeld | CheckFailed

  /** What the repositories answer when the request is screened: endpoints of version v1, and policies. */
  datatype Snapshot = Snapshot(endpoints: map<(nat, string, string), Endpoint>, policies: map<nat, Policy>)

  datatype Outcome =
    | PassedThrough           // not a managed endpoint: the next handler serves it
    | InvalidApp              // 400
    | Gone                    // 410
    | Unauthenticated         // 401
    | PermissionCheckFailed   // 500
    | Forbidden               // 403
    | TooManyRequests         // 429
    | Rejected                // 400, by an interceptor
    | BackendFailed           // 502
    | Answered(status: nat)
    | NoHandler               // 200, with a note

  datatype Verdict = Stop(outcome: Outcome) | Token(key: Key, limit: int) | Free(key: Key)

  predicate HasPrefix(s: string, p: string) {
    p <= s
  }

  predicate ShouldSkip(path: string) {
    HasPrefix(path, "/health") || HasPrefix(path, "/api/v1/auth") || HasPrefix(path, "/api/v1/admin")
  }

  /** Stored paths have no `/api/v1` in front. */
  function LookupPath(path: string): string {
    if HasPrefix(path, "/api/v1") then (if path[7..] == "" then "/" else path[7..]) else path
  }

  predicate Managed(req: Request, snap: Snapshot) {
    !ShouldSkip(req.path) && req.header.App? && (req.header.id, req.verb, LookupPath(req.path)) in snap.endpoints
  }

  function Found(req: Request, snap: Snapshot): Endpoint
    requires Managed(req, snap)
  {
    snap.endpoints[(req.header.id, req.verb, LookupPath(req.path))]
  }

  function PolicyOf(e: Endpoint, snap: Snapshot): Policy {
    if e.id in snap.policies then snap.policies[e.id] else Policy("", 0)
  }

  /** The permission the policy asks for was asked for and held. */
  predicate Permitted(req: Request, policy: Policy, permission: Permission) {
    policy.requiredPermission == "" || (req.user.Some? && permission.Held?)
  }

  /** Active, permitted, under a limit, and there is a Redis client. */
  predicate NeedsToken(req: Request, e: Endpoint, policy: Policy, permission: Permission, redis: bool) {
    e.status == EL.Active && Permitted(req, policy, permission) && policy.rateLimit > 0 && redis
  }

  /**
   * The checks of Enforce up to the rate limiter, in order.  A request needs a token of its endpoint's
   * counter exactly when it is managed, active, permitted, limited, and there is a Redis client.
   */
  method Screen(req: Request, snap: Snapshot, permission: Permission, redis: bool) returns (v: Verdict)
    ensures v == Screened(req, snap, permission, redis)
    ensures v.Token? <==>
          Managed(req, snap) && NeedsToken(req, Found(req, snap), PolicyOf(Found(req, snap), snap), permission, redis)
    ensures v.Token? ==>
          v.key == Key(req.header.id, Found(req, snap).id) && v.limit == PolicyOf(Found(req, snap), snap).rateLimit
    ensures "/health" <= req.path || "/api/v1/auth" <= req.path || "/api/v1/admin" <= req.path ==>
              v == Stop(PassedThrough)
    ensures !("/health" <= req.path || "/api/v1/auth" <= req.path || "/api/v1/admin" <= req.path) ==>
              match req.header
              case Missing => v == Stop(PassedThrough)
              case Garbled => v == Stop(InvalidApp)
              case App(a) =>
                var rest := if "/api/v1" <= req.path then req.path[7..] else req.path;
                var path := if "/api/v1" == req.path then "/" else rest;
                if (a, req.verb, path) !in snap.endpoints then v == Stop(PassedThrough)
                else
                  var e := snap.endpoints[(a, req.verb, path)];
                  var asks := e.id in snap.policies && snap.policies[e.id].requiredPermission != "";
                  var limited := redis && e.id in snap.policies && snap.policies[e.id].rateLimit > 0;
                  var permitted := asks ==> req.user.Some? && permission == Held;
                  && (v == Stop(Gone) <==> e.status != EL.Active)
                  && (v == Stop(Unauthenticated) <==> e.status == EL.Active && asks && req.user.None?)
                  && (v == Stop(PermissionCheckFailed) <==>
                        e.status == EL.Active && asks && req.user.Some? && permission == CheckFailed)
                  && (v == Stop(Forbidden) <==>
                        e.status == EL.Active && asks && req.user.Some? && permission == NotHeld)
                  && (v.Token? <==> e.status == EL.Active && permitted && limited)
                  && (v.Token? ==> v == Token(Key(a, e.id), snap.policies[e.id].rateLimit))
                  && (v == Free(Key(a, e.id)) <==> e.status == EL.Active && permitted && !limited)
  {
    if ShouldSkip(req.path) {
      return Stop(PassedThrough);
    }
    if req.header.Missing? {
      return Stop(PassedThrough);
    }
    if req.header.Garbled? {
      return Stop(InvalidApp);
    }
    var appID := req.header.id;
    var lookupPath := req.path;
    if HasPrefix(lookupPath, "/api/v1") {
      lookupPath := lookupPath[7..];
      if lookupPath == "" {
        lookupPath := "/";
      }
    }
    if (appID, req.verb, lookupPath) !in snap.endpoints {
      return Stop(PassedThrough);
    }
    var endpoint := snap.endpoints[(appID, req.verb, lookupPath)];
    if endpoint.status != EL.Active {
      return Stop(Gone);
    }
    if endpoint.id in snap.policies && snap.policies[endpoint.id].requiredPermission != "" {
      if req.user.None? {
        return Stop(Unauthenticated);
      }
      if permission.CheckFailed? {
        return Stop(PermissionCheckFailed);
      }
      if permission.NotHeld? {
        return Stop(Forbidden);
      }
    }
    if endpoint.id in snap.policies && snap.policies[endpoint.id].rateLimit > 0 && redis {
      return Token(Key(appID, endpoint.id), snap.policies[endpoint.id].rateLimit);
    }
    v := Free(Key(appID, endpoint.id));
  }

  /** The verdict, told by what is true of the request rather than by the order of the checks. */
  function Screened(req: Request, snap: Snapshot, permission: Permission, redis: bool): Verdict {
    if !ShouldSkip(req.path) && req.header.Garbled? then Stop(InvalidApp)
    else if !Managed(req, snap) then Stop(PassedThrough)
    else
      var e := Found(req, snap);
      var policy := PolicyOf(e, snap);
      if e.status == EL.Active && Permitted(req, policy, permission) then
        if redis && policy.rateLimit > 0 then Token(Key(req.header.id, e.id), policy.rateLimit)
        else Free(Key(req.header.id, e.id))
      else
        Stop(if e.status != EL.Active then Gone
             else if req.user.None? then Unauthenticated
             else if permission.CheckFailed? then PermissionCheckFailed
             else Forbidden)
  }

  // ---------------------------------------------------------------- many requests

  datatype Phase =
    | Arrived
    | Waiting                 // verdict Token, INCR not sent
    | Expiring                // got count 1: its EXPIRE is outstanding
    | Cleared                 // past the limiter, or free of it
    | Ready                   // past the interceptors
    | Done(outcome: Outcome)

  /**
   * A request under way; the last three are history: which counter counted it, admitted it, and whose backend it
   * called.
   */
  datatype Tracked = Tracked(request: Request, verdict: Option<Verdict>, phase: Phase,
                             counted: Option<Key>, admitted: Option<Key>, called: Option<Key>)

  datatype State = State(now: int, redis: bool, cells: map<Key, RL.Cell>, reqs: map<nat, Tracked>)

  datatype Backend = Fails | Responds(status: nat) | Nothing

  datatype Step =
    | Tick(to: int)
    | Arrive(id: nat, request: Request)
    | Check(id: nat, snap: Snapshot, permission: Permission)
    | Count(id: nat, replied: bool)      // an INCR that Redis executed
    | CountFails(id: nat)                // one that it did not
    | Expire(id: nat, lost: bool)
    | GiveUp(id: nat)                    // the client stops waiting for its EXPIRE, which may still reach Redis
    | LateExpire(id: nat, lost: bool)
    | RepeatExpire(id: nat)              // executed, but its answer was lost and the client sends it again
    | Intercept(id: nat, ok: bool)
    | CallBackend(id: nat, answer: Backend)

  function CellOf(s: State, key: Key): RL.Cell {
    if key in s.cells then s.cells[key] else RL.EmptyCell
  }

  predicate In(s: State, id: nat, phase: Phase) {
    id in s.reqs && s.reqs[id].phase == phase
  }

  predicate Limited(t: Tracked) {
    t.verdict.Some? && t.verdict.value.Token?
  }

  /** The request's EXPIRE may still be executed. */
  predicate Outstanding(s: State, id: nat) {
    id in s.reqs && Limited(s.reqs[id]) && id in CellOf(s, s.reqs[id].verdict.value.key).pending
  }

  predicate Enabled(s: State, step: Step) {
    match step
    case Tick(to) => s.now <= to
    case Arrive(id, _) => id !in s.reqs
    case Check(id, _, _) => In(s, id, Arrived)
    case Count(id, _) => In(s, id, Waiting) && Limited(s.reqs[id]) && s.reqs[id].verdict.value.limit > 0
    case CountFails(id) => In(s, id, Waiting)
    case Expire(id, _) => In(s, id, Expiring) && Outstanding(s, id)
    case GiveUp(id) => In(s, id, Expiring)
    case LateExpire(id, _) => Outstanding(s, id) && !In(s, id, Expiring)
    case RepeatExpire(id) => Outstanding(s, id)
    case Intercept(id, _) => In(s, id, Cleared)
    case CallBackend(id, _) => In(s, id, Ready) && s.reqs[id].verdict.Some? && !s.reqs[id].verdict.value.Stop?
  }

  function KeyOf(v: Verdict): Key
    requires !v.Stop?
  {
    v.key
  }

  function AfterCheck(t: Tracked, v: Verdict): Tracked {
    t.(verdict := Some(v), phase := match v case Stop(o) => Done(o) case Token(_, _) => Waiting case Free(_) => Cleared)
  }

  /** What `checkRateLimit` makes of the answer to INCR; count 1 never exceeds a positive limit. */
  function AfterCount(t: Tracked, key: Key, count: nat, limit: int, replied: bool): Tracked {
    var ok := replied && count <= limit;
    t.(counted := Some(key), admitted := if ok then Some(key) else None,
       phase := if !ok then Done(TooManyRequests) else if count == 1 then Expiring else Cleared)
  }

  function Fate(id: nat, lost: bool): RL.Step {
    if lost then RL.LoseExpire(id) else RL.DoExpire(id)
  }

  /** The counter after the EXPIRE of a request, executed, lost, or executed and to be repeated. */
  function Expired(s: State, id: nat, fate: RL.Step): State
    requires id in s.reqs && Limited(s.reqs[id])
  {
    var key := s.reqs[id].verdict.value.key;
    s.(cells := s.cells[key := RL.Apply(CellOf(s, key), s.now, fate)])
  }

  function Apply(s: State, step: Step): State
    requires Enabled(s, step)
  {
    match step
    case Tick(to) => s.(now := to)
    case Arrive(id, request) => s.(reqs := s.reqs[id := Tracked(request, None, Arrived, None, None, None)])
    case Check(id, snap, permission) =>
      s.(reqs := s.reqs[id := AfterCheck(s.reqs[id], Screened(s.reqs[id].request, snap, permission, s.redis))])
    case Count(id, replied) =>
      var t := s.reqs[id];
      var key, limit := t.verdict.value.key, t.verdict.value.limit;
      var cell := RL.Apply(CellOf(s, key), s.now, RL.DoIncr(id, limit, replied));
      s.(cells := s.cells[key := cell], reqs := s.reqs[id := AfterCount(t, key, cell.key.count, limit, replied)])
    case CountFails(id) => s.(reqs := s.reqs[id := s.reqs[id].(phase := Done(TooManyRequests))])
    case Expire(id, lost) => Expired(s, id, Fate(id, lost)).(reqs := s.reqs[id := s.reqs[id].(phase := Cleared)])
    case GiveUp(id) => s.(reqs := s.reqs[id := s.reqs[id].(phase := Cleared)])
    case LateExpire(id, lost) => Expired(s, id, Fate(id, lost))
    case RepeatExpire(id) => Expired(s, id, RL.RepeatExpire(id))
    case Intercept(id, ok) => s.(reqs := s.reqs[id := s.reqs[id].(phase := if ok then Ready else Done(Rejected))])
    case CallBackend(id, answer) =>
      var o := match answer
        case Fails => BackendFailed
        case Responds(status) => Answered(status)
        case Nothing => NoHandler;
      s.(reqs := s.reqs[id := s.reqs[id].(phase := Done(o), called := Some(KeyOf(s.reqs[id].verdict.value)))])
  }

  datatype Run = Begin(redis: bool) | Then(prev: Run, step: Step)

  function Exec(run: Run): State {
    match run
    case Begin(redis) => State(0, redis, map[], map[])
    case Then(prev, step) => if Enabled(Exec(prev), step) then Apply(Exec(prev), step) else Exec(prev)
  }

  predicate Legal(run: Run) {
    run.Then? ==> Legal(run.prev) && Enabled(Exec(run.prev), run.step)
  }

  // ---------------------------------------------------------------- the counters

  ghost predicate CellsOk(s: State) {
    forall key :: key in s.cells ==> RL.CellInv(s.cells[key], s.now)
  }

  lemma StepKeepsCells(s: State, step: Step)
    requires CellsOk(s) && Enabled(s, step)
    ensures CellsOk(Apply(s, step))
  {
    hide RL.Windowed, RL.Follows, RL.Start;
    assert RL.CellInv(RL.EmptyCell, s.now) by { EmptyCellOk(s.now); }
    match step {
      case Count(id, replied) =>
        var t := s.reqs[id].verdict.value;
        RL.ApplyKeepsInv(CellOf(s, t.key), s.now, RL.DoIncr(id, t.limit, replied), s.now);
      case Expire(id, lost) => ExpiredKeepsCells(s, id, Fate(id, lost));
      case LateExpire(id, lost) => ExpiredKeepsCells(s, id, Fate(id, lost));
      case RepeatExpire(id) => ExpiredKeepsCells(s, id, RL.RepeatExpire(id));
      case _ =>
    }
  }

  lemma ExpiredKeepsCells(s: State, id: nat, fate: RL.Step)
    requires CellsOk(s) && Outstanding(s, id) && fate in {RL.DoExpire(id), RL.LoseExpire(id), RL.RepeatExpire(id)}
    ensures CellsOk(Expired(s, id, fate))
  {
    hide RL.Windowed, RL.Follows, RL.Start;
    RL.ApplyKeepsInv(CellOf(s, s.reqs[id].verdict.value.key), s.now, fate, s.now);
  }

  lemma EmptyCellOk(now: int)
    ensures RL.CellInv(RL.EmptyCell, now)
  {
  }

  lemma {:induction false} RunKeepsCells(run: Run)
    requires Legal(run)
    ensures CellsOk(Exec(run))
  {
    if run.Then? {
      RunKeepsCells(run.prev);
      hide CellsOk;
      StepKeepsCells(Exec(run.prev), run.step);
    }
  }

  /** Whatever else the gate does, each (app, endpoint) counter keeps its rate bound. */
  lemma GateRateBound(run: Run, key: Key, L: nat, from: int, k: nat)
    requires Legal(run) && L > 0 && RL.LimitsWithin(CellOf(Exec(run), key).log, L)
    ensures RL.Admitted(CellOf(Exec(run), key).log, from, from + RL.Windows(k)) <= (k + 1) * L - 1
  {
    RunKeepsCells(run);
    EmptyCellOk(Exec(run).now);
    RL.LogBound(CellOf(Exec(run), key).log, L, from, k);
  }

  // ---------------------------------------------------------------- accounting

  function Ids(log: seq<RL.Call>): set<nat> {
    set c | c in log :: c.req
  }

  function AdmittedIds(log: seq<RL.Call>): set<nat> {
    set c | c in log && RL.Admits(c) :: c.req
  }

  function Counted(s: State, key: Key): set<nat> {
    set id | id in s.reqs && s.reqs[id].counted == Some(key)
  }

  function AdmittedBy(s: State, key: Key): set<nat> {
    set id | id in s.reqs && s.reqs[id].admitted == Some(key)
  }

  /** Backend calls of requests that needed a token of this counter. */
  function CalledLimited(s: State, key: Key): set<nat> {
    set id | id in s.reqs && s.reqs[id].called == Some(key) && Limited(s.reqs[id])
  }

  /** Requests under a rate-limited policy of this endpoint that got past its status and permission checks. */
  function Needing(s: State, key: Key): set<nat> {
    set id | id in s.reqs && Limited(s.reqs[id]) && s.reqs[id].verdict.value.key == key
  }

  /** ... of which those still before their INCR, or whose INCR never reached Redis. */
  function Uncounted(s: State, key: Key): set<nat> {
    set id | id in Needing(s, key) && s.reqs[id].counted.None?
  }

  predicate NoRepeat(log: seq<RL.Call>) {
    forall i, j :: 0 <= i < j < |log| ==> log[i].req != log[j].req
  }

  predicate FromBackend(o: Outcome) {
    o.BackendFailed? || o.Answered? || o.NoHandler?
  }

  /** The history of one request hangs together. */
  predicate TrackOk(t: Tracked) {
    && (t.counted.Some? ==>
        Limited(t) && t.verdict.value.key == t.counted.value && !t.phase.Arrived? && !t.phase.Waiting?)
    && (t.admitted.Some? ==> t.admitted == t.counted)
    && (t.phase.Arrived? ==> t.verdict.None?)
    && (t.verdict.None? ==> t.phase.Arrived?)
    && (t.verdict.Some? && t.verdict.value.Stop? ==> t.phase == Done(t.verdict.value.outcome))
    && (t.phase.Waiting? ==> Limited(t))
    && (Limited(t) ==> t.verdict.value.limit > 0)
    && (Limited(t) && (t.phase.Expiring? || t.phase.Cleared? || t.phase.Ready? || t.called.Some?) ==>
        t.admitted == Some(t.verdict.value.key))
    && (t.phase.Expiring? ==> Limited(t))
    && (t.called.Some? ==>
        t.verdict.Some? && !t.verdict.value.Stop? && t.called == Some(t.verdict.value.key) && t.phase.Done?)
    && (Limited(t) && t.counted.None? ==> t.phase.Waiting? || t.phase == Done(TooManyRequests))
    && (t.phase.Done? ==> (t.called.Some? <==> FromBackend(t.phase.outcome)))
  }

  /** A request that was let through ended for a reason. */
  predicate EndOk(t: Tracked) {
    t.phase.Done? && t.verdict.Some? && !t.verdict.value.Stop? ==>
      && (t.phase.outcome.TooManyRequests? <==> Limited(t) && t.admitted.None?)
      && (t.called.None? ==> t.phase.outcome.TooManyRequests? || t.phase.outcome.Rejected?)
  }

  ghost predicate LogsOk(s: State) {
    forall key :: NoRepeat(CellOf(s, key).log) && Ids(CellOf(s, key).log) == Counted(s, key)
                  && AdmittedIds(CellOf(s, key).log) == AdmittedBy(s, key)
  }

  ghost predicate TracksOk(s: State) {
    forall id :: id in s.reqs ==> TrackOk(s.reqs[id]) && EndOk(s.reqs[id])
  }

  /**
   * Why a request ended as it did, in every run: by its verdict, or refused by a limit that did not admit it, or
   * rejected by an interceptor on the way to the backend, or by the backend.
   */
  lemma WhyDone(run: Run, id: nat)
    requires Legal(run) && id in Exec(run).reqs && Exec(run).reqs[id].phase.Done?
    ensures var t := Exec(run).reqs[id];
            && t.verdict.Some?
            && match t.verdict.value
               case Stop(o) => t.phase.outcome == o && t.called.None?
               case Token(key, _) =>
                 if t.admitted.None? then t.phase.outcome == TooManyRequests && t.called.None?
                 else if t.called.None? then t.phase.outcome == Rejected
                 else t.called == Some(key) && FromBackend(t.phase.outcome)
               case Free(key) =>
                 if t.called.None? then t.phase.outcome == Rejected
                 else t.called == Some(key) && FromBackend(t.phase.outcome)
  {
    RunKeepsBooks(run);
    assert TrackOk(Exec(run).reqs[id]) && EndOk(Exec(run).reqs[id]);
    hide Exec, Legal;
  }

  /** What the interceptors and the backend answer is what the request ends with. */
  lemma AnswersBecomeOutcomes(s: State, id: nat, status: nat)
    ensures In(s, id, Cleared) ==>
              && Apply(s, Intercept(id, true)).reqs[id].phase == Ready
              && Apply(s, Intercept(id, false)).reqs[id].phase == Done(Rejected)
    ensures Enabled(s, CallBackend(id, Fails)) ==>
              && Apply(s, CallBackend(id, Fails)).reqs[id].phase == Done(BackendFailed)
              && Apply(s, CallBackend(id, Responds(status))).reqs[id].phase == Done(Answered(status))
              && Apply(s, CallBackend(id, Nothing)).reqs[id].phase == Done(NoHandler)
  {
  }

  /** A request is admitted exactly if its INCR was answered with a count within the limit; count 1 owes the EXPIRE. */
  lemma CountDecides(s: State, id: nat, replied: bool)
    requires Enabled(s, Count(id, replied))
    ensures var v, t := s.reqs[id].verdict.value, Apply(s, Count(id, replied)).reqs[id];
            var key := CellOf(s, v.key).key;
            var count := if RL.Readable(key, s.now) then key.count + 1 else 1;
            && (t.admitted.Some? <==> replied && count <= v.limit)
            && t.phase == if t.admitted.None? then Done(TooManyRequests) else if count == 1 then Expiring else Cleared
  {
  }

  lemma TokenHasLimit(req: Request, snap: Snapshot, permission: Permission, redis: bool)
    ensures var v := Screened(req, snap, permission, redis);
            && (v.Token? ==> v.limit > 0)
            && (v.Stop? ==> !FromBackend(v.outcome))
  {
  }

  lemma TrackStays(s: State, step: Step, id: nat)
    requires TracksOk(s) && Enabled(s, step) && id in Apply(s, step).reqs
    ensures TrackOk(Apply(s, step).reqs[id])
  {
    hide RL.Apply, Screened, EndOk, NeedsToken, CellOf;
    if step.Check? { TokenHasLimit(s.reqs[step.id].request, step.snap, step.permission, s.redis); }
    assert id in s.reqs ==> TrackOk(s.reqs[id]);
    hide TracksOk;
  }

  lemma EndStays(s: State, step: Step, id: nat)
    requires TracksOk(s) && Enabled(s, step) && id in Apply(s, step).reqs
    ensures EndOk(Apply(s, step).reqs[id])
  {
    hide RL.Apply, ShouldSkip, LookupPath, Managed, Screened;
    assert id in s.reqs ==> TrackOk(s.reqs[id]) && EndOk(s.reqs[id]);
    hide TracksOk;
  }

  lemma StepKeepsTracks(s: State, step: Step)
    requires TracksOk(s) && Enabled(s, step)
    ensures TracksOk(Apply(s, step))
  {
    hide TrackOk, EndOk, Apply;
    forall id | id in Apply(s, step).reqs ensures TrackOk(Apply(s, step).reqs[id]) && EndOk(Apply(s, step).reqs[id]) {
      TrackStays(s, step, id);
      EndStays(s, step, id);
    }
  }

  /** A step that writes no log and changes nobody's history keeps the logs in order. */
  lemma SameHistory(s: State, s': State)
    requires LogsOk(s) && s.reqs.Keys <= s'.reqs.Keys
    requires forall key :: CellOf(s', key).log == CellOf(s, key).log
    requires forall id :: id in s.reqs ==>
          s'.reqs[id].counted == s.reqs[id].counted && s'.reqs[id].admitted == s.reqs[id].admitted
    requires forall id :: id in s'.reqs && id !in s.reqs ==> s'.reqs[id].counted.None? && s'.reqs[id].admitted.None?
    ensures LogsOk(s')
  {
    forall key ensures Counted(s', key) == Counted(s, key) && AdmittedBy(s', key) == AdmittedBy(s, key) {
    }
    hide Counted, AdmittedBy, Ids, AdmittedIds, NoRepeat;
    forall key ensures NoRepeat(CellOf(s', key).log) && Ids(CellOf(s', key).log) == Counted(s', key)
                       && AdmittedIds(CellOf(s', key).log) == AdmittedBy(s', key) {
    }
  }

  lemma IdsSnoc(log: seq<RL.Call>, c: RL.Call)
    ensures Ids(log + [c]) == Ids(log) + {c.req}
    ensures AdmittedIds(log + [c]) == AdmittedIds(log) + (if RL.Admits(c) then {c.req} else {})
    ensures NoRepeat(log) && c.req !in Ids(log) ==> NoRepeat(log + [c])
  {
    assert forall d :: d in log + [c] <==> d in log || d == c;
    forall i | 0 <= i < |log| ensures log[i].req in Ids(log) { assert log[i] in log; }
  }

  /** The call that an INCR appends to the log of its counter. */
  function CallOf(s: State, id: nat, replied: bool): RL.Call
    requires Enabled(s, Count(id, replied))
  {
    var v := s.reqs[id].verdict.value;
    RL.Call(id, s.now, v.limit, RL.Incr(CellOf(s, v.key).key, s.now).count, replied)
  }

  lemma CountAppends(s: State, id: nat, replied: bool)
    requires Enabled(s, Count(id, replied))
    ensures var s', key := Apply(s, Count(id, replied)), s.reqs[id].verdict.value.key;
            && CellOf(s', key).log == CellOf(s, key).log + [CallOf(s, id, replied)]
            && (forall other :: other != key ==> CellOf(s', other).log == CellOf(s, other).log)
  {
  }

  lemma CountMarks(s: State, id: nat, replied: bool)
    requires TracksOk(s) && Enabled(s, Count(id, replied))
    ensures var s', key := Apply(s, Count(id, replied)), s.reqs[id].verdict.value.key;
            && id !in Counted(s, key) && Counted(s', key) == Counted(s, key) + {id}
            && AdmittedBy(s', key) == AdmittedBy(s, key) + (if RL.Admits(CallOf(s, id, replied)) then {id} else {})
            && (forall other :: other != key ==>
                  Counted(s', other) == Counted(s, other) && AdmittedBy(s', other) == AdmittedBy(s, other))
  {
    var s', key := Apply(s, Count(id, replied)), s.reqs[id].verdict.value.key;
    assert TrackOk(s.reqs[id]) && s.reqs[id].counted.None? && s.reqs[id].admitted.None?;
    assert s'.reqs == s.reqs[id := s'.reqs[id]] && s'.reqs[id].counted == Some(key);
    assert s'.reqs[id].admitted == if RL.Admits(CallOf(s, id, replied)) then Some(key) else None;
    hide Apply, TracksOk, TrackOk, CallOf, CellOf, RL.Admits;
    forall other | other != key
      ensures Counted(s', other) == Counted(s, other) && AdmittedBy(s', other) == AdmittedBy(s, other)
    {
    }
  }

  lemma CountKeepsLogs(s: State, id: nat, replied: bool)
    requires LogsOk(s) && TracksOk(s) && Enabled(s, Count(id, replied))
    ensures LogsOk(Apply(s, Count(id, replied)))
  {
    hide Counted, AdmittedBy, Ids, AdmittedIds, NoRepeat, TracksOk, Apply, CellOf;
    var key, c := s.reqs[id].verdict.value.key, CallOf(s, id, replied);
    CountAppends(s, id, replied);
    CountMarks(s, id, replied);
    IdsSnoc(CellOf(s, key).log, c);
  }

  lemma ExpiredKeepsHistory(s: State, id: nat, fate: RL.Step)
    requires id in s.reqs && Limited(s.reqs[id]) && !fate.DoIncr?
    ensures forall key :: CellOf(Expired(s, id, fate), key).log == CellOf(s, key).log
    ensures Expired(s, id, fate).reqs == s.reqs
  {
  }

  lemma StepKeepsLogs(s: State, step: Step)
    requires LogsOk(s) && TracksOk(s) && Enabled(s, step)
    ensures LogsOk(Apply(s, step))
  {
    hide LogsOk, Screened, TracksOk, Expired, RL.Apply;
    match step {
      case Count(id, replied) => CountKeepsLogs(s, id, replied);
      case Expire(id, lost) =>
        ExpiredKeepsHistory(s, id, Fate(id, lost));
        SameHistory(s, Apply(s, step));
      case LateExpire(id, lost) =>
        ExpiredKeepsHistory(s, id, Fate(id, lost));
        SameHistory(s, Apply(s, step));
      case RepeatExpire(id) =>
        ExpiredKeepsHistory(s, id, RL.RepeatExpire(id));
        SameHistory(s, Apply(s, step));
      case _ =>
        assert Apply(s, step).cells == s.cells;
        SameHistory(s, Apply(s, step));
    }
  }

  lemma {:induction false} RunKeepsBooks(run: Run)
    requires Legal(run)
    ensures TracksOk(Exec(run)) && LogsOk(Exec(run))
  {
    if run.Then? {
      RunKeepsBooks(run.prev);
      hide TracksOk, LogsOk;
      StepKeepsTracks(Exec(run.prev), run.step);
      StepKeepsLogs(Exec(run.prev), run.step);
    }
  }

  lemma {:induction false} IdsCount(log: seq<RL.Call>)
    requires NoRepeat(log)
    ensures |Ids(log)| == |log|
  {
    if log != [] {
      var init, last := log[..|log| - 1], log[|log| - 1];
      IdsCount(init);
      assert log == init + [last];
      IdsSnoc(init, last);
      assert last.req !in Ids(init);
    }
  }

  lemma HistoriesAgree(s: State, key: Key)
    requires TracksOk(s)
    ensures Counted(s, key) == Needing(s, key) - Uncounted(s, key) && Uncounted(s, key) <= Needing(s, key)
    ensures CalledLimited(s, key) <= AdmittedBy(s, key)
    ensures forall id :: id in Uncounted(s, key) ==> In(s, id, Waiting) || In(s, id, Done(TooManyRequests))
  {
    forall id | id in s.reqs ensures TrackOk(s.reqs[id]) {}
  }

  lemma AdmittedAreIds(log: seq<RL.Call>)
    ensures AdmittedIds(log) <= Ids(log)
  {
  }

  lemma LogsOf(s: State, key: Key)
    requires LogsOk(s)
    ensures NoRepeat(CellOf(s, key).log)
    ensures Ids(CellOf(s, key).log) == Counted(s, key) && AdmittedIds(CellOf(s, key).log) == AdmittedBy(s, key)
  {
  }

  /**
   * Gate accounting, in every interleaving: a counter was incremented once for each request that passed
   * the status and permission checks under a rate-limited policy of its endpoint, except those still
   * waiting or whose INCR never reached Redis; and it admitted at least as many as called the backend.
   */
  lemma GateAccounting(run: Run, key: Key)
    requires Legal(run)
    ensures var s := Exec(run);
            && |CellOf(s, key).log| == |Needing(s, key)| - |Uncounted(s, key)|
            && CalledLimited(s, key) <= AdmittedBy(s, key) == AdmittedIds(CellOf(s, key).log)
            && |CalledLimited(s, key)| <= |AdmittedIds(CellOf(s, key).log)| <= |CellOf(s, key).log|
            && (forall id :: id in Uncounted(s, key) ==> In(s, id, Waiting) || In(s, id, Done(TooManyRequests)))
  {
    RunKeepsBooks(run);
    var s := Exec(run);
    var log := CellOf(s, key).log;
    HistoriesAgree(s, key);
    IdsCount(log);
    hide *;
    assert AdmittedIds(log) <= Ids(log) by { AdmittedAreIds(log); }
    assert Ids(log) == Counted(s, key) && AdmittedIds(log) == AdmittedBy(s, key) by { LogsOf(s, key); }
    SubsetSize(Uncounted(s, key), Needing(s, key));
    SubsetSize(CalledLimited(s, key), AdmittedBy(s, key));
    SubsetSize(AdmittedIds(log), Ids(log));
  }

  lemma SubsetSize<T>(a: set<T>, b: set<T>)
    requires a <= b
    ensures |a| <= |b| && |b - a| == |b| - |a|
  {
    assert b == a + (b - a);
  }

  predicate Extends(run: Run, earlier: Run) {
    run == earlier || (run.Then? && Extends(run.prev, earlier))
  }

  // ---------------------------------------------------------------- outcomes

  /** The request a step moves on; none for the passing of time, nor for an EXPIRE nobody waits for. */
  predicate About(step: Step, id: nat) {
    !step.Tick? && !step.LateExpire? && !step.RepeatExpire? && step.id == id
  }

  function Rank(phase: Phase): nat {
    match phase
    case Arrived => 5
    case Waiting => 4
    case Expiring => 3
    case Cleared => 2
    case Ready => 1
    case Done(_) => 0
  }

  /** A request moves by its own steps only, and each of them takes it nearer to its end. */
  lemma OwnStepsEnd(s: State, step: Step, id: nat)
    requires Enabled(s, step) && id in s.reqs
    ensures id in Apply(s, step).reqs
    ensures About(step, id) ==> Rank(Apply(s, step).reqs[id].phase) < Rank(s.reqs[id].phase)
    ensures !About(step, id) ==> Apply(s, step).reqs[id] == s.reqs[id]
  {
    hide RL.Apply, Screened, CellOf;
  }

  /** A request ends in at most one outcome: once it has one, no step changes it. */
  lemma {:induction false} OneOutcome(run: Run, earlier: Run, id: nat, o: Outcome)
    requires Legal(run) && Extends(run, earlier) && In(Exec(earlier), id, Done(o))
    ensures In(Exec(run), id, Done(o)) && Exec(run).reqs[id] == Exec(earlier).reqs[id]
  {
    hide Apply, Enabled;
    if run != earlier {
      OneOutcome(run.prev, earlier, id, o);
      OwnStepsEnd(Exec(run.prev), run.step, id);
    }
  }

  /** Who got count 1 has its EXPIRE outstanding. */
  ghost predicate PendingOk(s: State) {
    forall id :: id in s.reqs && s.reqs[id].phase.Expiring? ==>
        Limited(s.reqs[id]) && id in CellOf(s, s.reqs[id].verdict.value.key).pending
  }

  lemma StepKeepsPending(s: State, step: Step)
    requires PendingOk(s) && Enabled(s, step)
    ensures PendingOk(Apply(s, step))
  {
    hide Screened;
  }

  lemma {:induction false} RunKeepsPending(run: Run)
    requires Legal(run)
    ensures PendingOk(Exec(run))
  {
    if run.Then? {
      RunKeepsPending(run.prev);
      hide PendingOk;
      StepKeepsPending(Exec(run.prev), run.step);
    }
  }

  /** Whatever has happened, a request that has no outcome yet can take a step. */
  lemma NeverStuck(run: Run, id: nat, snap: Snapshot) returns (step: Step)
    requires Legal(run) && id in Exec(run).reqs && !Exec(run).reqs[id].phase.Done?
    ensures Enabled(Exec(run), step) && About(step, id)
  {
    RunKeepsBooks(run);
    RunKeepsPending(run);
    var s := Exec(run);
    hide Exec, Legal;
    assert TrackOk(s.reqs[id]);
    step := match s.reqs[id].phase
      case Arrived => Check(id, snap, NotHeld)
      case Waiting => CountFails(id)
      case Expiring => Expire(id, true)
      case Cleared => Intercept(id, true)
      case _ => CallBackend(id, Fails);
  }

  /** Every request can be brought to an outcome, from any state the gate can be in. */
  lemma {:induction false} EveryRequestCanEnd(run: Run, id: nat, snap: Snapshot) returns (ended: Run)
    requires Legal(run) && id in Exec(run).reqs
    ensures Legal(ended) && Extends(ended, run) && id in Exec(ended).reqs && Exec(ended).reqs[id].phase.Done?
    decreases Rank(Exec(run).reqs[id].phase)
  {
    hide Apply, Enabled;
    if Exec(run).reqs[id].phase.Done? {
      return run;
    }
    var step := NeverStuck(run, id, snap);
    OwnStepsEnd(Exec(run), step, id);
    var next := Then(run, step);
    ended := EveryRequestCanEnd(next, id, snap);
    ExtendsMore(ended, next);
  }

  lemma {:induction false} ExtendsMore(run: Run, next: Run)
    requires next.Then? && Extends(run, next)
    ensures Extends(run, next.prev)
  {
    if run != next {
      ExtendsMore(run.prev, next);
    }
  }
}
