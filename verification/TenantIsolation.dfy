/** Many tenants share one table; none of them can tell. */
module TenantIsolation {
  import opened Results
  import opened Sql
  import Pagination
  import opened DynamicHandler

  datatype Call = Call(tenant: Tenant, op: Op)

  /** The table after the calls, and the answer to each. */
  function Play(s: Schema, table: seq<Row>, calls: seq<Call>): (r: (seq<Row>, seq<Outcome>))
    ensures |r.1| == |calls|
  {
    if calls == [] then (table, [])
    else
      var (t, os) := Play(s, table, calls[..|calls| - 1]);
      var last := calls[|calls| - 1];
      var (t', o) := Step(s, t, last.tenant, last.op);
      (t', os + [o])
  }

  function Own(table: seq<Row>, tn: Tenant): seq<Row> {
    Filter(table, OwnedBy(tn))
  }

  /** The calls of one tenant, in order. */
  function CallsOf(calls: seq<Call>, tn: Tenant): seq<Call> {
    if calls == [] then []
    else CallsOf(calls[..|calls| - 1], tn) + (if calls[|calls| - 1].tenant == tn then [calls[|calls| - 1]] else [])
  }

  /** The answers one tenant got, in order. */
  function AnswersOf(calls: seq<Call>, os: seq<Outcome>, tn: Tenant): seq<Outcome>
    requires |calls| == |os|
  {
    if calls == [] then []
    else
      AnswersOf(calls[..|calls| - 1], os[..|os| - 1], tn) +
      (if calls[|calls| - 1].tenant == tn then [os[|os| - 1]] else [])
  }

  function Ids(table: seq<Row>): set<Value> {
    set r | r in table && "id" in r :: r["id"]
  }

  /** Every id drawn for a create is new to the table and to the run. */
  predicate FreshIds(used: set<Value>, calls: seq<Call>) {
    calls == [] ||
    (FreshIds(used, calls[..|calls| - 1]) &&
     var last := calls[|calls| - 1];
     (last.op.Create? ==> Uuid(last.op.newId) !in used + Drawn(calls[..|calls| - 1])))
  }

  function Drawn(calls: seq<Call>): set<Value> {
    set c | c in calls && c.op.Create? :: Uuid(c.op.newId)
  }

  // ---------------------------------------------------------------- filters

  lemma FilterAppend(rows: seq<Row>, r: Row, keep: Row -> bool)
    ensures Filter(rows + [r], keep) == Filter(rows, keep) + (if keep(r) then [r] else [])
  {
    assert (rows + [r])[..|rows|] == rows;
  }

  function Both(p: Row -> bool, q: Row -> bool): Row -> bool {
    r => p(r) && q(r)
  }

  /** Filtering twice is filtering once by both. */
  lemma {:induction false} FilterFilter(rows: seq<Row>, p: Row -> bool, q: Row -> bool)
    ensures Filter(Filter(rows, p), q) == Filter(rows, Both(p, q))
  {
    if rows != [] {
      var init, last := rows[..|rows| - 1], rows[|rows| - 1];
      FilterFilter(init, p, q);
      FilterAppend(Filter(init, p), last, q);
      assert Filter(init, p) + [] == Filter(init, p);
    }
  }

  lemma RewriteAppend(rows: seq<Row>, r: Row, hit: Row -> bool, change: Row)
    ensures Rewrite(rows + [r], hit, change) == Rewrite(rows, hit, change) + [if hit(r) then r + change else r]
  {
  }

  /** Rewriting rows that stay in a filter commutes with the filter. */
  lemma {:induction false} FilterRewrite(rows: seq<Row>, keep: Row -> bool, hit: Row -> bool, change: Row)
    requires forall r: Row :: keep(r + change) == keep(r)
    ensures Filter(Rewrite(rows, hit, change), keep) == Rewrite(Filter(rows, keep), hit, change)
  {
    if rows != [] {
      var init, last := rows[..|rows| - 1], rows[|rows| - 1];
      FilterRewrite(init, keep, hit, change);
      assert rows == init + [last];
      RewriteAppend(init, last, hit, change);
      FilterAppend(Rewrite(init, hit, change), if hit(last) then last + change else last, keep);
      RewriteAppend(Filter(init, keep), last, hit, change);
      assert Filter(init, keep) + [] == Filter(init, keep);
    }
  }

  lemma {:induction false} FilterNone(rows: seq<Row>, keep: Row -> bool)
    requires forall r :: r in rows ==> !keep(r)
    ensures Filter(rows, keep) == []
  {
    if rows != [] { FilterNone(rows[..|rows| - 1], keep); }
  }

  // ---------------------------------------------------------------- one call

  lemma ChangesKeepOwner(r: Row, now: int, input: map<string, Value>, tn: Tenant)
    ensures Owned(r + Changes(now, input), tn) == Owned(r, tn)
  {
    var change := Changes(now, input);
    assert "organization_id" !in change && "app_id" !in change;
  }

  lemma NewRecordOwner(s: Schema, tn: Tenant, id: nat, now: int, input: map<string, Value>, other: Tenant)
    ensures Owned(NewRecord(s, tn, id, now, input), other) <==> other == tn
    ensures "id" in NewRecord(s, tn, id, now, input) && NewRecord(s, tn, id, now, input)["id"] == Uuid(id)
  {
  }

  /** What an id addresses for a tenant is found among the tenant's own rows. */
  lemma AddressedAmongOwn(table: seq<Row>, tn: Tenant, id: nat)
    ensures Filter(table, At(tn, id)) == Filter(Own(table, tn), At(tn, id))
    ensures Own(Filter(table, NotAt(tn, id)), tn) == Filter(Own(table, tn), NotAt(tn, id))
  {
    var own, addr, not := OwnedBy(tn), At(tn, id), NotAt(tn, id);
    FilterFilter(table, own, addr);
    FilterAgrees(table, addr, Both(own, addr));
    FilterFilter(table, own, not);
    FilterFilter(table, not, own);
    FilterAgrees(table, Both(own, not), Both(not, own));
  }

  lemma UpdatedOwn(table: seq<Row>, actor: Tenant, id: nat, now: int, input: map<string, Value>, tn: Tenant)
    ensures Own(Rewrite(table, At(actor, id), Changes(now, input)), tn) ==
            Rewrite(Own(table, tn), At(actor, id), Changes(now, input))
  {
    var change := Changes(now, input);
    forall r: Row ensures Owned(r + change, tn) == Owned(r, tn) { ChangesKeepOwner(r, now, input, tn); }
    FilterRewrite(table, OwnedBy(tn), At(actor, id), change);
  }

  /** A call on two tables that hold the same rows of its tenant answers the same and leaves them the same. */
  lemma MyCall(s: Schema, t: seq<Row>, u: seq<Row>, tn: Tenant, op: Op)
    requires Own(t, tn) == Own(u, tn)
    requires op.Create? ==> !HasId(t, Uuid(op.newId)) && !HasId(u, Uuid(op.newId))
    ensures Step(s, t, tn, op).1 == Step(s, u, tn, op).1
    ensures Own(Step(s, t, tn, op).0, tn) == Own(Step(s, u, tn, op).0, tn)
  {
    hide Filter, Has, HasId, NewRecord, Changes, Rewrite, Newest, Pagination.Cut, Addressed, Owned;
    match op {
      case List(_, _) =>
      case Get(Some(id)) =>
        AddressedAmongOwn(t, tn, id);
        AddressedAmongOwn(u, tn, id);
      case Create(id, now, input) =>
        var row := NewRecord(s, tn, id, now, input);
        FilterAppend(t, row, OwnedBy(tn));
        FilterAppend(u, row, OwnedBy(tn));
      case Update(Some(id), now, input) =>
        AddressedAmongOwn(t, tn, id);
        AddressedAmongOwn(u, tn, id);
        UpdatedOwn(t, tn, id, now, input, tn);
        UpdatedOwn(u, tn, id, now, input, tn);
      case Remove(Some(id)) =>
        AddressedAmongOwn(t, tn, id);
        AddressedAmongOwn(u, tn, id);
      case _ =>
    }
  }

  lemma NoHit(rows: seq<Row>, hit: Row -> bool, change: Row)
    requires forall r :: r in rows ==> !hit(r)
    ensures Rewrite(rows, hit, change) == rows
  {
  }

  /** A call leaves the rows of every other tenant exactly as they were, in the same order. */
  lemma OthersCall(s: Schema, t: seq<Row>, actor: Tenant, op: Op, tn: Tenant)
    requires actor != tn
    ensures Own(Step(s, t, actor, op).0, tn) == Own(t, tn)
  {
    match op {
      case Create(id, now, input) =>
        NewRecordOwner(s, actor, id, now, input, tn);
        FilterAppend(t, NewRecord(s, actor, id, now, input), OwnedBy(tn));
      case Update(Some(id), now, input) =>
        UpdatedOwn(t, actor, id, now, input, tn);
        FilterFinds(t, OwnedBy(tn));
        NoHit(Own(t, tn), At(actor, id), Changes(now, input));
      case Remove(Some(id)) =>
        FilterFilter(t, NotAt(actor, id), OwnedBy(tn));
        FilterAgrees(t, Both(NotAt(actor, id), OwnedBy(tn)), OwnedBy(tn));
      case _ =>
    }
  }

  lemma {:induction false} FilterAll(rows: seq<Row>, keep: Row -> bool)
    requires forall r :: r in rows ==> keep(r)
    ensures Filter(rows, keep) == rows
  {
    if rows != [] {
      FilterAll(rows[..|rows| - 1], keep);
      assert rows == rows[..|rows| - 1] + [rows[|rows| - 1]];
    }
  }

  /** A call that fails has changed nothing, an UPDATE or DELETE that found no record included. */
  lemma FailureChangesNothing(s: Schema, t: seq<Row>, tn: Tenant, op: Op)
    requires Step(s, t, tn, op).1.Failed?
    ensures Step(s, t, tn, op).0 == t
  {
    match op {
      case Update(Some(id), now, input) =>
        FilterFinds(t, At(tn, id));
        if Filter(t, At(tn, id)) == [] {
          forall r | r in t ensures !At(tn, id)(r) { assert r !in Filter(t, At(tn, id)); }
          NoHit(t, At(tn, id), Changes(now, input));
        }
      case Remove(Some(id)) =>
        FilterFinds(t, At(tn, id));
        if Filter(t, At(tn, id)) == [] {
          forall r | r in t ensures NotAt(tn, id)(r) { assert r !in Filter(t, At(tn, id)); }
          FilterAll(t, NotAt(tn, id));
        }
      case _ =>
    }
  }

  // ---------------------------------------------------------------- whole runs

  /** Rows never get an id nobody drew. */
  lemma StepIds(s: Schema, t: seq<Row>, tn: Tenant, op: Op)
    ensures Ids(Step(s, t, tn, op).0) <= Ids(t) + (if op.Create? then {Uuid(op.newId)} else {})
  {
    match op {
      case Create(id, now, input) => NewRecordOwner(s, tn, id, now, input, tn);
      case Update(Some(id), now, input) =>
        var change := Changes(now, input);
        assert "id" !in change;
        var t' := Rewrite(t, At(tn, id), change);
        forall r | r in t' && "id" in r ensures r["id"] in Ids(t) {
          var i :| 0 <= i < |t'| && t'[i] == r;
          assert t[i] in t && "id" in t[i] && t[i]["id"] == r["id"];
        }
      case Remove(Some(id)) => FilterFinds(t, NotAt(tn, id));
      case _ =>
    }
  }

  lemma DrawnSnoc(calls: seq<Call>)
    requires calls != []
    ensures var last := calls[|calls| - 1];
            Drawn(calls) == Drawn(calls[..|calls| - 1]) + (if last.op.Create? then {Uuid(last.op.newId)} else {})
  {
    assert calls == calls[..|calls| - 1] + [calls[|calls| - 1]];
  }

  lemma {:induction false} PlayIds(s: Schema, table: seq<Row>, calls: seq<Call>)
    ensures Ids(Play(s, table, calls).0) <= Ids(table) + Drawn(calls)
  {
    if calls != [] {
      var prev, last := calls[..|calls| - 1], calls[|calls| - 1];
      PlayIds(s, table, prev);
      DrawnSnoc(calls);
      StepIds(s, Play(s, table, prev).0, last.tenant, last.op);
    }
  }

  lemma {:induction false} DrawnOfTenant(calls: seq<Call>, tn: Tenant)
    ensures Drawn(CallsOf(calls, tn)) <= Drawn(calls)
  {
    if calls != [] {
      var prev, last := calls[..|calls| - 1], calls[|calls| - 1];
      DrawnOfTenant(prev, tn);
      DrawnSnoc(calls);
      if last.tenant == tn {
        assert CallsOf(calls, tn)[..|CallsOf(prev, tn)|] == CallsOf(prev, tn);
        DrawnSnoc(CallsOf(calls, tn));
      }
    }
  }

  lemma HasIdIsAmongIds(table: seq<Row>, id: Value)
    ensures HasId(table, id) ==> id in Ids(table)
  {
    if HasId(table, id) {
      var i :| 0 <= i < |table| && "id" in table[i] && table[i]["id"] == id;
      assert table[i] in table;
    }
  }

  lemma PlaySnoc(s: Schema, table: seq<Row>, calls: seq<Call>)
    requires calls != []
    ensures var prev, last := calls[..|calls| - 1], calls[|calls| - 1];
            var (t, os) := Play(s, table, prev);
            Play(s, table, calls) == (Step(s, t, last.tenant, last.op).0, os + [Step(s, t, last.tenant, last.op).1])
            && Play(s, table, calls).1[..|calls| - 1] == os
  {
  }

  lemma PlayCallsOf(s: Schema, u: seq<Row>, calls: seq<Call>, tn: Tenant)
    requires calls != [] && calls[|calls| - 1].tenant == tn
    ensures var prev := CallsOf(calls[..|calls| - 1], tn);
            var (v, os) := Play(s, u, prev);
            var (v', o) := Step(s, v, tn, calls[|calls| - 1].op);
            Play(s, u, CallsOf(calls, tn)) == (v', os + [o])
  {
    var mine := CallsOf(calls, tn);
    assert mine[..|mine| - 1] == CallsOf(calls[..|calls| - 1], tn);
  }

  /**
   * From any table `u` with the tenant's rows of `table` and none but its ids, the tenant's own calls
   * get the answers they get among everybody's, and end with the same rows.
   */
  lemma {:induction false} NonInterferenceFrom(s: Schema, table: seq<Row>, u: seq<Row>, calls: seq<Call>, tn: Tenant)
    requires FreshIds(Ids(table), calls)
    requires Own(u, tn) == Own(table, tn) && Ids(u) <= Ids(table)
    ensures AnswersOf(calls, Play(s, table, calls).1, tn) == Play(s, u, CallsOf(calls, tn)).1
    ensures Own(Play(s, table, calls).0, tn) == Own(Play(s, u, CallsOf(calls, tn)).0, tn)
  {
    if calls != [] {
      var prev, last := calls[..|calls| - 1], calls[|calls| - 1];
      NonInterferenceFrom(s, table, u, prev, tn);
      var t, v := Play(s, table, prev).0, Play(s, u, CallsOf(prev, tn)).0;
      PlaySnoc(s, table, calls);
      hide Own, Step, Ids, Drawn;
      if last.tenant != tn {
        OthersCall(s, t, last.tenant, last.op, tn);
        assert CallsOf(prev, tn) + [] == CallsOf(prev, tn);
      } else {
        if last.op.Create? {
          PlayIds(s, table, prev);
          PlayIds(s, u, CallsOf(prev, tn));
          DrawnOfTenant(prev, tn);
          HasIdIsAmongIds(t, Uuid(last.op.newId));
          HasIdIsAmongIds(v, Uuid(last.op.newId));
        }
        MyCall(s, t, v, tn, last.op);
        PlayCallsOf(s, u, calls, tn);
      }
    }
  }

  /**
   * Tenant non-interference over whole runs: with fresh ids, deleting every other tenant's calls from
   * any interleaving changes neither a tenant's answers nor its rows.
   */
  lemma NonInterference(s: Schema, table: seq<Row>, calls: seq<Call>, tn: Tenant)
    requires FreshIds(Ids(table), calls)
    ensures AnswersOf(calls, Play(s, table, calls).1, tn) == Play(s, table, CallsOf(calls, tn)).1
    ensures Own(Play(s, table, calls).0, tn) == Own(Play(s, table, CallsOf(calls, tn)).0, tn)
  {
    NonInterferenceFrom(s, table, table, calls, tn);
  }

  /** Nor does the tenant notice whether other tenants' rows were ever in the table. */
  lemma AloneInTheTable(s: Schema, table: seq<Row>, calls: seq<Call>, tn: Tenant)
    requires FreshIds(Ids(table), calls)
    ensures AnswersOf(calls, Play(s, table, calls).1, tn) == Play(s, Own(table, tn), CallsOf(calls, tn)).1
    ensures Own(Play(s, table, calls).0, tn) == Own(Play(s, Own(table, tn), CallsOf(calls, tn)).0, tn)
  {
    FilterFilter(table, OwnedBy(tn), OwnedBy(tn));
    FilterAgrees(table, Both(OwnedBy(tn), OwnedBy(tn)), OwnedBy(tn));
    FilterFinds(table, OwnedBy(tn));
    NonInterferenceFrom(s, table, Own(table, tn), calls, tn);
  }

  // ---------------------------------------------------------------- one row per id

  predicate UniqueIds(table: seq<Row>) {
    forall i, j :: 0 <= i < j < |table| && "id" in table[i] && "id" in table[j] ==> table[i]["id"] != table[j]["id"]
  }

  lemma {:induction false} FilterUnique(table: seq<Row>, keep: Row -> bool)
    requires UniqueIds(table)
    ensures UniqueIds(Filter(table, keep))
  {
    if table != [] {
      var init, last := table[..|table| - 1], table[|table| - 1];
      FilterUnique(init, keep);
      FilterFinds(init, keep);
      var kept := Filter(init, keep);
      forall i | 0 <= i < |kept| && "id" in kept[i] && "id" in last ensures kept[i]["id"] != last["id"] {
        assert kept[i] in kept;
        var j :| 0 <= j < |init| && init[j] == kept[i];
        assert table[j] == kept[i];
      }
    }
  }

  lemma StepKeepsUnique(s: Schema, t: seq<Row>, tn: Tenant, op: Op)
    requires UniqueIds(t)
    ensures UniqueIds(Step(s, t, tn, op).0)
  {
    match op {
      case Create(id, now, input) =>
        NewRecordOwner(s, tn, id, now, input, tn);
      case Update(Some(id), now, input) =>
        var change := Changes(now, input);
        assert "id" !in change;
        var t' := Rewrite(t, At(tn, id), change);
        forall i, j | 0 <= i < j < |t'| && "id" in t'[i] && "id" in t'[j] ensures t'[i]["id"] != t'[j]["id"] {
          assert "id" in t[i] && "id" in t[j] && t[i]["id"] == t'[i]["id"] && t[j]["id"] == t'[j]["id"];
        }
      case Remove(Some(id)) => FilterUnique(t, NotAt(tn, id));
      case _ =>
    }
  }

  lemma {:induction false} PlayKeepsUnique(s: Schema, table: seq<Row>, calls: seq<Call>)
    requires UniqueIds(table)
    ensures UniqueIds(Play(s, table, calls).0)
  {
    if calls != [] {
      var prev, last := calls[..|calls| - 1], calls[|calls| - 1];
      PlayKeepsUnique(s, table, prev);
      StepKeepsUnique(s, Play(s, table, prev).0, last.tenant, last.op);
    }
  }

  /** After any run, an UPDATE or DELETE touches at most one row, so RETURNING names all it changed. */
  lemma TouchesAtMostOne(s: Schema, table: seq<Row>, calls: seq<Call>, tn: Tenant, id: nat)
    requires UniqueIds(table)
    ensures |Filter(Play(s, table, calls).0, At(tn, id))| <= 1
  {
    PlayKeepsUnique(s, table, calls);
    AtMostOne(Play(s, table, calls).0, tn, id);
  }

  lemma {:induction false} AtMostOne(t: seq<Row>, tn: Tenant, id: nat)
    requires UniqueIds(t)
    ensures |Filter(t, At(tn, id))| <= 1
  {
    if t != [] {
      var init, last := t[..|t| - 1], t[|t| - 1];
      AtMostOne(init, tn, id);
      if Addressed(last, tn, id) {
        forall r | r in init ensures !At(tn, id)(r) {
          var i :| 0 <= i < |init| && init[i] == r;
          assert t[i] == r;
        }
        FilterNone(init, At(tn, id));
      }
    }
  }

  // ---------------------------------------------------------------- a record stays as its tenant left it

  /** The call does not change the record that `id` addresses for `tn`. */
  predicate Spares(call: Call, tn: Tenant, id: nat) {
    match call.op
    case Create(newId, _, _) => newId != id
    case Update(Some(j), _, _) => call.tenant != tn || j != id
    case Remove(Some(j)) => call.tenant != tn || j != id
    case _ => true
  }

  lemma SparedCall(s: Schema, t: seq<Row>, call: Call, tn: Tenant, id: nat)
    requires Spares(call, tn, id)
    ensures Filter(Step(s, t, call.tenant, call.op).0, At(tn, id)) == Filter(t, At(tn, id))
  {
    var actor, at := call.tenant, At(tn, id);
    match call.op {
      case Create(newId, now, input) =>
        NewRecordOwner(s, actor, newId, now, input, tn);
        FilterAppend(t, NewRecord(s, actor, newId, now, input), at);
      case Update(Some(j), now, input) =>
        var change := Changes(now, input);
        forall r: Row ensures at(r + change) == at(r) {
          ChangesKeepOwner(r, now, input, tn);
          assert "id" !in change;
        }
        FilterRewrite(t, at, At(actor, j), change);
        FilterFinds(t, at);
        NoHit(Filter(t, at), At(actor, j), change);
      case Remove(Some(j)) =>
        FilterFilter(t, NotAt(actor, j), at);
        FilterAgrees(t, Both(NotAt(actor, j), at), at);
      case _ =>
    }
  }

  lemma {:induction false} SparedRun(s: Schema, t: seq<Row>, calls: seq<Call>, tn: Tenant, id: nat)
    requires forall c :: c in calls ==> Spares(c, tn, id)
    ensures Filter(Play(s, t, calls).0, At(tn, id)) == Filter(t, At(tn, id))
  {
    hide Step, Spares;
    if calls != [] {
      var prev, last := calls[..|calls| - 1], calls[|calls| - 1];
      assert forall c :: c in prev ==> c in calls;
      SparedRun(s, t, prev, tn, id);
      PlaySnoc(s, t, calls);
      SparedCall(s, Play(s, t, prev).0, last, tn, id);
    }
  }

  /**
   * Read your writes: after a create that succeeded, and any run of calls by anybody in which the tenant
   * itself neither updates nor deletes the record, GET answers the record that was created.
   */
  lemma CreatedIsRead(s: Schema, t: seq<Row>, tn: Tenant, id: nat, now: int, input: map<string, Value>,
                      calls: seq<Call>)
    requires CreateRecord(s, t, tn, id, now, input).1.Fresh?
    requires forall c :: c in calls ==> Spares(c, tn, id)
    ensures var created := CreateRecord(s, t, tn, id, now, input);
            && CreatedAs(created.1.row, s, tn, id, now, input)
            && GetRecord(s, Play(s, created.0, calls).0, tn, id) == Record(created.1.row)
  {
    var row := NewRecord(s, tn, id, now, input);
    NewRecordIsCreated(s, tn, id, now, input);
    NewRecordOwner(s, tn, id, now, input, tn);
    hide CreatedAs, NewRecord;
    SparedRun(s, t + [row], calls, tn, id);
    FilterAppend(t, row, At(tn, id));
    forall r | r in t ensures !At(tn, id)(r) {
      var i :| 0 <= i < |t| && t[i] == r;
      assert !("id" in t[i] && t[i]["id"] == Uuid(id));
    }
    FilterNone(t, At(tn, id));
  }

  /** ... after an update, GET answers the old record with the changes over it; after a delete, nothing. */
  lemma UpdatedIsRead(s: Schema, t: seq<Row>, tn: Tenant, id: nat, now: int, input: map<string, Value>,
                      calls: seq<Call>)
    requires UpdateRecord(s, t, tn, id, now, input).1.Record?
    requires forall c :: c in calls ==> Spares(c, tn, id)
    ensures var updated := UpdateRecord(s, t, tn, id, now, input);
            && GetRecord(s, t, tn, id).Record?
            && updated.1.row == GetRecord(s, t, tn, id).row + Changes(now, input)
            && UpdatedAs(GetRecord(s, t, tn, id).row, updated.1.row, now, input)
            && GetRecord(s, Play(s, updated.0, calls).0, tn, id) == Record(updated.1.row)
  {
    UpdateAnswers(s, t, tn, id, now, input);
    hide UpdatedAs;
    var change, at := Changes(now, input), At(tn, id);
    SparedRun(s, Rewrite(t, at, change), calls, tn, id);
    forall r: Row ensures at(r + change) == at(r) {
      ChangesKeepOwner(r, now, input, tn);
      assert "id" !in change;
    }
    FilterRewrite(t, at, at, change);
    FilterFinds(t, at);
  }

  lemma RemovedIsGone(s: Schema, t: seq<Row>, tn: Tenant, id: nat, calls: seq<Call>)
    requires RemoveRecord(s, t, tn, id).1.Removed?
    requires forall c :: c in calls ==> Spares(c, tn, id)
    ensures GetRecord(s, Play(s, RemoveRecord(s, t, tn, id).0, calls).0, tn, id) == Failed(NotFound)
  {
    SparedRun(s, Filter(t, NotAt(tn, id)), calls, tn, id);
    FilterFinds(t, NotAt(tn, id));
    FilterNone(Filter(t, NotAt(tn, id)), At(tn, id));
  }
}
