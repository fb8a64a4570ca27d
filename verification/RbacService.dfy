/**
 * `RBACServiceImpl` over its role repository and its Redis cache, and the use case that assigns a
 * role, with operations that run one at a time.
 */
module RbacService {
  import opened Results
  import opened RoleStore
  import PermissionCache

  datatype Entry = Entry(perms: seq<string>, expiry: int)

  /** What the servers did during one operation: whether each command got through, and when. */
  datatype Weather = Weather(now: int, dbOk: bool, getOk: bool, setOk: bool, delOk: bool)

  class Service {
    const roles: RoleRepo
    const redis: bool              // false for a nil client
    var cache: map<Who, Entry>

    /** Every entry that can still be read lists the join of the role tables. */
    ghost predicate Coherent(now: int)
      reads this, roles
    {
      forall who :: Live(who, now) ==> Elements(cache[who].perms) == Join(roles.tables, who)
    }

    predicate Live(who: Who, now: int)
      reads this
    {
      redis && who in cache && now < cache[who].expiry
    }

    /** What an answer is told from: the entry, if it can be read and the GET gets through, or else the tables. */
    ghost function Visible(who: Who, w: Weather): set<string>
      reads this, roles
    {
      if Live(who, w.now) && w.getOk then Elements(cache[who].perms) else Join(roles.tables, who)
    }

    /** The cache after one read. */
    ghost predicate Filled(before: map<Who, Entry>, who: Who, w: Weather, hit: bool)
      reads this, roles
    {
      if redis && !hit && w.dbOk && w.setOk && Join(roles.tables, who) != {} then
        exists rows ::
            Lists(rows, Join(roles.tables, who)) && cache == before[who := Entry(rows, w.now + PermissionCache.TTL)]
      else cache == before
    }

    constructor (roles: RoleRepo, redis: bool)
      ensures this.roles == roles && this.redis == redis && cache == map[]
      ensures forall now :: Coherent(now)
    {
      this.roles := roles;
      this.redis := redis;
      cache := map[];
    }

    /** Expiry alone never makes a coherent cache incoherent. */
    lemma CoherentLater(now: int, later: int)
      requires Coherent(now) && now <= later
      ensures Coherent(later)
    {
    }

    /** Over a coherent cache nobody can tell whether there is one. */
    lemma CacheIsInvisible(who: Who, w: Weather)
      requires Coherent(w.now)
      ensures Visible(who, w) == Join(roles.tables, who)
    {
    }

    method GetUserPermissions(who: Who, w: Weather) returns (perms: Result<seq<string>, ()>)
      modifies this
      ensures perms.Err? <==> !(old(Live(who, w.now)) && w.getOk) && !w.dbOk
      ensures perms.Ok? ==> Elements(perms.value) == old(Visible(who, w))
      ensures Filled(old(cache), who, w, old(Live(who, w.now)) && w.getOk)
      ensures old(Coherent(w.now)) ==> Coherent(w.now)
    {
      if redis && w.getOk && who in cache && w.now < cache[who].expiry {
        return Ok(cache[who].perms);
      }
      if !w.dbOk {
        return Err(());
      }
      var rows := roles.GetUserPermissions(who);
      assert |rows| > 0 <==> Join(roles.tables, who) != {} by {
        PermissionCache.NoElements(rows);
      }
      if redis && |rows| > 0 && w.setOk {
        cache := cache[who := Entry(rows, w.now + PermissionCache.TTL)];
      }
      perms := Ok(rows);
    }

    method HasPermission(who: Who, permission: string, w: Weather) returns (has: Result<bool, ()>)
      modifies this
      ensures has.Err? <==> !(old(Live(who, w.now)) && w.getOk) && !w.dbOk
      ensures has.Ok? ==> (has.value <==> permission in old(Visible(who, w)))
      ensures Filled(old(cache), who, w, old(Live(who, w.now)) && w.getOk)
      ensures old(Coherent(w.now)) ==> Coherent(w.now)
    {
      var perms := GetUserPermissions(who, w);
      if perms.Err? {
        return Err(());
      }
      for i := 0 to |perms.value|
        invariant permission !in perms.value[..i]
      {
        if perms.value[i] == permission {
          assert permission in Elements(perms.value);
          return Ok(true);
        }
      }
      assert permission !in Elements(perms.value);
      has := Ok(false);
    }

    /** True exactly when `HasPermission` would be true of one of the permissions. */
    method HasAnyPermission(who: Who, permissions: seq<string>, w: Weather) returns (has: Result<bool, ()>)
      modifies this
      ensures has.Err? <==> !(old(Live(who, w.now)) && w.getOk) && !w.dbOk
      ensures has.Ok? ==> (has.value <==> exists p :: p in permissions && p in old(Visible(who, w)))
      ensures Filled(old(cache), who, w, old(Live(who, w.now)) && w.getOk)
      ensures old(Coherent(w.now)) ==> Coherent(w.now)
    {
      var perms := GetUserPermissions(who, w);
      if perms.Err? {
        return Err(());
      }
      var permSet: set<string> := {};
      for i := 0 to |perms.value|
        invariant permSet == Elements(perms.value[..i])
      {
        permSet := permSet + {perms.value[i]};
      }
      assert perms.value[..|perms.value|] == perms.value;
      for i := 0 to |permissions|
        invariant forall j :: 0 <= j < i ==> permissions[j] !in permSet
      {
        if permissions[i] in permSet {
          return Ok(true);
        }
      }
      has := Ok(false);
    }

    method InvalidateCache(who: Who, w: Weather) returns (ok: bool)
      modifies this
      ensures ok == (!redis || w.delOk)
      ensures cache == if redis && w.delOk then old(cache) - {who} else old(cache)
    {
      if redis {
        if w.delOk {
          cache := cache - {who};
        }
        return w.delOk;
      }
      ok := true;
    }
  }

  datatype RoleAssigned = RoleAssigned(user: nat, role: nat, org: nat)

  class AssignRoleUseCase {
    const service: Service

    constructor (service: Service)
      ensures this.service == service
    {
      this.service := service;
    }

    /**
     * Insert, then invalidate; a failing DEL is ignored.  Answers are the fresh join again exactly when
     * the DEL got through, no entry was left to read, or the role added nothing new.
     */
    method Execute(row: UserRole, w: Weather) returns (ok: bool, event: Option<RoleAssigned>)
      modifies service, service.roles
      ensures ok == w.dbOk && event == if ok then Some(RoleAssigned(row.user, row.role, row.org)) else None
      ensures service.roles.tables ==
              if ok then After(old(service.roles.tables), Assign(row)) else old(service.roles.tables)
      ensures service.cache ==
              if ok && service.redis && w.delOk then old(service.cache) - {Who(row.user, row.org)}
              else old(service.cache)
      ensures ok && old(service.Coherent(w.now)) ==>
                (service.Coherent(w.now) <==>
                 || w.delOk
                 || !old(service.Live(Who(row.user, row.org), w.now))
                 || RolePermissions(old(service.roles.tables), row.role) <=
                    Join(old(service.roles.tables), Who(row.user, row.org)))
    {
      if !w.dbOk {
        return false, None;
      }
      ghost var before := service.roles.tables;
      service.roles.AssignRoleToUser(row);
      forall who {
        AssignJoins(before, row, who);
      }
      var deleted := service.InvalidateCache(Who(row.user, row.org), w);
      ok, event := true, Some(RoleAssigned(row.user, row.role, row.org));
    }

    /**
     * Calls one after the other, every DEL among them successful: no answer differs from the join of the
     * tables at its turn, so nobody can tell that there is a cache.
     */
    method Serve(calls: seq<Call>) returns (answers: seq<Option<Result<seq<string>, ()>>>)
      requires Ordered(calls) && (calls != [] ==> service.Coherent(calls[0].w.now))
      requires forall i :: 0 <= i < |calls| && calls[i].Give? ==> calls[i].w.delOk
      modifies service, service.roles
      ensures |answers| == |calls| && service.roles.tables == TablesAfter(old(service.roles.tables), calls)
      ensures forall i :: 0 <= i < |calls| ==> answers[i].Some? == calls[i].Ask?
      ensures forall i :: 0 <= i < |calls| && calls[i].Ask? && answers[i].value.Ok? ==>
                Elements(answers[i].value.value) ==
                    Join(TablesAfter(old(service.roles.tables), calls[..i]), calls[i].who)
    {
      hide Service.Visible, Service.Filled, Elements, Join, After;
      answers := [];
      ghost var start := service.roles.tables;
      for i := 0 to |calls|
        invariant |answers| == i && service.roles.tables == TablesAfter(start, calls[..i])
        invariant i < |calls| ==> service.Coherent(calls[i].w.now)
        invariant forall j :: 0 <= j < i ==> answers[j].Some? == calls[j].Ask?
        invariant forall j :: 0 <= j < i && calls[j].Ask? && answers[j].value.Ok? ==>
                    Elements(answers[j].value.value) == Join(TablesAfter(start, calls[..j]), calls[j].who)
      {
        assert calls[..i + 1][..i] == calls[..i];
        match calls[i] {
          case Ask(who, w) =>
            service.CacheIsInvisible(who, w);
            var answer := service.GetUserPermissions(who, w);
            answers := answers + [Some(answer)];
          case Give(row, w) =>
            var ok, event := Execute(row, w);
            answers := answers + [None];
        }
        if i + 1 < |calls| {
          service.CoherentLater(calls[i].w.now, calls[i + 1].w.now);
        }
      }
      assert calls[..|calls|] == calls;
    }
  }

  /** A read, or an assignment. */
  datatype Call = Ask(who: Who, w: Weather) | Give(row: UserRole, w: Weather)

  predicate Ordered(calls: seq<Call>) {
    forall i :: 0 <= i < |calls| - 1 ==> calls[i].w.now <= calls[i + 1].w.now
  }

  /** The tables the assignments lead to. */
  function TablesAfter(t: Tables, calls: seq<Call>): Tables {
    if calls == [] then t
    else
      var before, last := TablesAfter(t, calls[..|calls| - 1]), calls[|calls| - 1];
      if last.Give? && last.w.dbOk then After(before, Assign(last.row)) else before
  }
}
