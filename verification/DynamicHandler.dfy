/**
 * The dynamic database handler: a JSON object is compiled, key by key, into one INSERT or UPDATE with
 * hand-numbered placeholders, and every statement carries the tenant in its filter.  Each handler is
 * proved to do to the table what `Step` says in terms of records alone.
 */
module DynamicHandler {
  import opened Headers
  import opened Results
  import opened Sql
  import Pagination
  import opened Text

  datatype Tenant = Tenant(org: nat, app: nat)

  const FIXED: set<string> := {"id", "organization_id", "app_id", "created_at", "updated_at"}

  const ADDRESS: set<string> := {"id", "organization_id", "app_id"}

  datatype Failure =
    | NoOrganization | NoApp | InvalidApp | NoTable | NoDatabase | UnknownAction
    | BadId | NotFound
    | Db(error: DbError)

  datatype Outcome =
    | Listing(data: seq<Row>, total: nat, offset: int, limit: nat)
    | Record(row: Row)
    | Fresh(row: Row)
    | Removed
    | Failed(why: Failure)

  /** `id` is None when the path holds no usable record id; the id of a create is the fresh UUID drawn for it. */
  datatype Op =
    | List(offset: int, limit: int)
    | Get(id: Option<nat>)
    | Create(newId: nat, now: int, input: map<string, Value>)
    | Update(id: Option<nat>, at: int, changes: map<string, Value>)
    | Remove(id: Option<nat>)

  // ---------------------------------------------------------------- meaning in terms of records

  predicate Owned(r: Row, tn: Tenant) {
    "organization_id" in r && r["organization_id"] == Uuid(tn.org) && "app_id" in r && r["app_id"] == Uuid(tn.app)
  }

  predicate Addressed(r: Row, tn: Tenant, id: nat) {
    "id" in r && r["id"] == Uuid(id) && Owned(r, tn)
  }

  function OwnedBy(tn: Tenant): Row -> bool {
    r => Owned(r, tn)
  }

  function At(tn: Tenant, id: nat): Row -> bool {
    r => Addressed(r, tn, id)
  }

  function NotAt(tn: Tenant, id: nat): Row -> bool {
    r => !Addressed(r, tn, id)
  }

  predicate Has(s: Schema, cs: set<string>) {
    cs <= s.defaults.Keys
  }

  function Limit(limit: int): nat {
    if limit <= 0 || limit > 100 then 20 else limit
  }

  /** The input without the columns the handler sets itself. */
  function Free(input: map<string, Value>): Row {
    input - FIXED
  }

  function FixedValues(tn: Tenant, id: nat, now: int): (r: Row)
    ensures r.Keys == FIXED
  {
    map["id" := Uuid(id), "organization_id" := Uuid(tn.org), "app_id" := Uuid(tn.app),
        "created_at" := Stamp(now), "updated_at" := Stamp(now)]
  }

  /** The fixed columns win over the input, and columns the input leaves out take their defaults. */
  function NewRecord(s: Schema, tn: Tenant, id: nat, now: int, input: map<string, Value>): Row {
    s.defaults + (Free(input) + FixedValues(tn, id, now))
  }

  /** What an update writes; the columns it leaves out stay as they are. */
  function Changes(now: int, input: map<string, Value>): Row {
    Free(input) + map["updated_at" := Stamp(now)]
  }

  function CreateRecord(s: Schema, table: seq<Row>, tn: Tenant, id: nat, now: int, input: map<string, Value>)
      : (seq<Row>, Outcome)
  {
    if !Has(s, FIXED + input.Keys) then (table, Failed(Db(UnknownColumn)))
    else if HasId(table, Uuid(id)) then (table, Failed(Db(DuplicateKey)))
    else (table + [NewRecord(s, tn, id, now, input)], Fresh(NewRecord(s, tn, id, now, input)))
  }

  function UpdateRecord(s: Schema, table: seq<Row>, tn: Tenant, id: nat, now: int, input: map<string, Value>)
      : (seq<Row>, Outcome)
  {
    if !Has(s, ADDRESS + {"updated_at"} + (input.Keys - FIXED)) then (table, Failed(Db(UnknownColumn)))
    else
      var found := Filter(table, At(tn, id));
      (Rewrite(table, At(tn, id), Changes(now, input)),
       if found == [] then Failed(NotFound) else Record(found[0] + Changes(now, input)))
  }

  function RemoveRecord(s: Schema, table: seq<Row>, tn: Tenant, id: nat): (seq<Row>, Outcome) {
    if !Has(s, ADDRESS) then (table, Failed(Db(UnknownColumn)))
    else (Filter(table, NotAt(tn, id)),
          if Filter(table, At(tn, id)) == [] then Failed(NotFound) else Removed)
  }

  function GetRecord(s: Schema, table: seq<Row>, tn: Tenant, id: nat): Outcome {
    if !Has(s, ADDRESS) then Failed(Db(UnknownColumn))
    else
      var found := Filter(table, At(tn, id));
      if found == [] then Failed(NotFound) else Record(found[0])
  }

  function ListRecords(s: Schema, table: seq<Row>, tn: Tenant, offset: int, limit: int): Outcome {
    if !Has(s, {"organization_id", "app_id", "created_at"}) then Failed(Db(UnknownColumn))
    else if offset < 0 then Failed(Db(NegativeOffset))
    else
      var own := Filter(table, OwnedBy(tn));
      Listing(Pagination.Cut(Newest(own), offset, Limit(limit)), |own|, offset, Limit(limit))
  }

  /** What one call does to the table, and what it answers. */
  function Step(s: Schema, table: seq<Row>, tn: Tenant, op: Op): (seq<Row>, Outcome) {
    match op
    case List(offset, limit) => (table, ListRecords(s, table, tn, offset, limit))
    case Get(Some(id)) => (table, GetRecord(s, table, tn, id))
    case Create(id, now, input) => CreateRecord(s, table, tn, id, now, input)
    case Update(Some(id), now, input) => UpdateRecord(s, table, tn, id, now, input)
    case Remove(Some(id)) => RemoveRecord(s, table, tn, id)
    case _ => (table, Failed(BadId))
  }

  /** A call answers with what its operation asks for, or fails for a bad id, a missing record or a database error. */
  lemma StepAnswers(s: Schema, table: seq<Row>, tn: Tenant, op: Op)
    ensures var o := Step(s, table, tn, op).1;
            if o.Failed? then o.why in {BadId, NotFound} || o.why.Db?
            else
              match op
              case List(_, _) => o.Listing?
              case Get(_) => o.Record?
              case Create(_, _, _) => o.Fresh?
              case Update(_, _, _) => o.Record?
              case Remove(_) => o.Removed?
  {
    hide Filter, Rewrite, Has, HasId, NewRecord, Changes, Pagination.Cut, Newest;
  }

  // ---------------------------------------------------------------- the records, column by column

  /** The input gives the column, and the column is not one the handler sets itself. */
  predicate Given(input: map<string, Value>, c: string) {
    c in input && c != "id" && c != "organization_id" && c != "app_id" && c != "created_at" && c != "updated_at"
  }

  /** `row` is a new record: the given values, the fixed columns, and defaults for the rest. */
  ghost predicate CreatedAs(row: Row, s: Schema, tn: Tenant, id: nat, now: int, input: map<string, Value>) {
    && (forall c :: Given(input, c) ==> c in row && row[c] == input[c])
    && "id" in row && row["id"] == Uuid(id)
    && "organization_id" in row && row["organization_id"] == Uuid(tn.org)
    && "app_id" in row && row["app_id"] == Uuid(tn.app)
    && "created_at" in row && row["created_at"] == Stamp(now)
    && "updated_at" in row && row["updated_at"] == Stamp(now)
    && (forall c :: c in row <==> c in s.defaults)
    && (forall c | c in row && c !in {"id", "organization_id", "app_id", "created_at", "updated_at"} ::
          c !in input ==> row[c] == s.defaults[c])
  }

  /** `row` is the record `was` after an update: the given values, the time, and all else as it was. */
  ghost predicate UpdatedAs(was: Row, row: Row, now: int, input: map<string, Value>) {
    && (forall c :: Given(input, c) ==> c in row && row[c] == input[c])
    && "updated_at" in row && row["updated_at"] == Stamp(now)
    && (forall c :: !Given(input, c) && c != "updated_at" ==>
          (c in row <==> c in was) && (c in row ==> row[c] == was[c]))
  }

  lemma FreeIsGiven(input: map<string, Value>)
    ensures forall c :: Given(input, c) <==> c in Free(input)
    ensures forall c :: Given(input, c) ==> Free(input)[c] == input[c]
  {
  }

  lemma FixedColumns(tn: Tenant, id: nat, now: int)
    ensures var r := FixedValues(tn, id, now);
            && r.Keys == {"id", "organization_id", "app_id", "created_at", "updated_at"}
            && r["id"] == Uuid(id) && r["organization_id"] == Uuid(tn.org) && r["app_id"] == Uuid(tn.app)
            && r["created_at"] == Stamp(now) && r["updated_at"] == Stamp(now)
  {
  }

  lemma NewRecordIsCreated(s: Schema, tn: Tenant, id: nat, now: int, input: map<string, Value>)
    requires Has(s, FIXED + input.Keys)
    ensures CreatedAs(NewRecord(s, tn, id, now, input), s, tn, id, now, input)
  {
    FreeIsGiven(input);
    FixedColumns(tn, id, now);
    var free, fixed, row := Free(input), FixedValues(tn, id, now), NewRecord(s, tn, id, now, input);
    assert forall c :: c in row <==> c in s.defaults || c in free || c in fixed;
    hide Free, FixedValues;
    forall c | Given(input, c) ensures c in row && row[c] == input[c] {
      assert c in free && c !in fixed;
    }
    forall c | c in row ensures c in s.defaults {}
  }

  lemma ChangesUpdate(was: Row, now: int, input: map<string, Value>)
    ensures UpdatedAs(was, was + Changes(now, input), now, input)
  {
    FreeIsGiven(input);
    hide Free;
  }

  /** The table after an update, row by row. */
  lemma UpdateTable(s: Schema, table: seq<Row>, tn: Tenant, id: nat, now: int, input: map<string, Value>)
    requires Has(s, ADDRESS + {"updated_at"} + (input.Keys - FIXED))
    ensures var t := UpdateRecord(s, table, tn, id, now, input).0;
            && |t| == |table|
            && (forall i :: 0 <= i < |t| ==>
                  if Addressed(table[i], tn, id) then UpdatedAs(table[i], t[i], now, input) else t[i] == table[i])
  {
    hide Changes, UpdatedAs, Addressed, Filter;
    forall was: Row ensures UpdatedAs(was, was + Changes(now, input), now, input) {
      ChangesUpdate(was, now, input);
    }
  }

  /** What an update answers is a record of the table before it, with the changes. */
  lemma UpdateAnswers(s: Schema, table: seq<Row>, tn: Tenant, id: nat, now: int, input: map<string, Value>)
    requires UpdateRecord(s, table, tn, id, now, input).1.Record?
    ensures GetRecord(s, table, tn, id).Record?
    ensures UpdatedAs(GetRecord(s, table, tn, id).row, UpdateRecord(s, table, tn, id, now, input).1.row, now, input)
  {
    hide Changes, UpdatedAs, Addressed;
    ChangesUpdate(Filter(table, At(tn, id))[0], now, input);
  }

  lemma Found(rows: seq<Row>, tn: Tenant, id: nat)
    ensures Filter(rows, At(tn, id)) != [] <==> exists r :: r in rows && Addressed(r, tn, id)
  {
    hide Addressed;
    var found := Filter(rows, At(tn, id));
    FilterFinds(rows, At(tn, id));
    if found != [] {
      assert found[0] in found && At(tn, id)(found[0]);
    }
    if r :| r in rows && Addressed(r, tn, id) {
      assert At(tn, id)(r);
    }
  }

  /** All of what an update does, in terms of the rows themselves. */
  lemma UpdateFacts(s: Schema, table: seq<Row>, tn: Tenant, id: nat, now: int, input: map<string, Value>)
    ensures var (t, o) := Step(s, table, tn, Update(Some(id), now, input));
            && (o.Record? ==>
                  var before := GetRecord(s, table, tn, id);
                  before.Record? && UpdatedAs(before.row, o.row, now, input))
            && (if ADDRESS + {"updated_at"} + (input.Keys - FIXED) <= s.defaults.Keys then
                  && |t| == |table|
                  && (o.Record? <==> exists r :: r in table && Addressed(r, tn, id))
                  && (forall i :: 0 <= i < |t| ==>
                        if Addressed(table[i], tn, id) then UpdatedAs(table[i], t[i], now, input) else t[i] == table[i])
                else o.Failed? && t == table)
  {
    hide UpdatedAs, Changes, Addressed;
    Found(table, tn, id);
    if Has(s, ADDRESS + {"updated_at"} + (input.Keys - FIXED)) { UpdateTable(s, table, tn, id, now, input); }
    if UpdateRecord(s, table, tn, id, now, input).1.Record? { UpdateAnswers(s, table, tn, id, now, input); }
  }

  lemma {:induction false} FilterFinds(rows: seq<Row>, keep: Row -> bool)
    ensures forall r :: r in Filter(rows, keep) <==> r in rows && keep(r)
  {
    if rows != [] {
      FilterFinds(rows[..|rows| - 1], keep);
      assert rows == rows[..|rows| - 1] + [rows[|rows| - 1]];
    }
  }

  lemma HasIdMeans(table: seq<Row>, id: nat)
    ensures HasId(table, Uuid(id)) <==> exists r :: r in table && "id" in r && r["id"] == Uuid(id)
  {
    if HasId(table, Uuid(id)) {
      var i :| 0 <= i < |table| && "id" in table[i] && table[i]["id"] == Uuid(id);
      assert table[i] in table;
    }
  }

  // ---------------------------------------------------------------- the statement builders

  /** `$1`, `$2`, ... in order, each once. */
  predicate Numbered(ps: seq<nat>) {
    forall i :: 0 <= i < |ps| ==> ps[i] == i + 1
  }

  /** Distinct columns, each with its own placeholder, bound to what `row` has for it. */
  ghost predicate Writes(cs: seq<string>, ps: seq<nat>, args: seq<Value>, row: Row) {
    && |cs| == |ps| == |args| && Numbered(ps) && Distinct(cs)
    && (forall i :: 0 <= i < |cs| ==> cs[i] in row && row[cs[i]] == args[i])
    && (forall c :: c in row ==> c in cs)
  }

  lemma WritesOne(cs: seq<string>, ps: seq<nat>, args: seq<Value>, row: Row, c: string, v: Value)
    requires Writes(cs, ps, args, row) && c !in row
    ensures Writes(cs + [c], ps + [|args| + 1], args + [v], row[c := v])
  {
  }

  /** Such a list assigns exactly `row`. */
  lemma WritesAssign(cs: seq<string>, ps: seq<nat>, args: seq<Value>, row: Row, more: seq<Value>)
    requires Writes(cs, ps, args, row)
    ensures forall i :: 0 <= i < |ps| ==> 1 <= ps[i] <= |args + more|
    ensures Assigned(cs, ps, args + more) == row
  {
  }

  predicate IsFixed(key: string)
    ensures IsFixed(key) <==> key in FIXED
  {
    key == "id" || key == "organization_id" || key == "app_id" || key == "created_at" || key == "updated_at"
  }

  /** The part of the input that the range over it has passed. */
  function Passed(input: map<string, Value>, rest: set<string>): Row {
    Free(input) - rest
  }

  /** One turn of the range: a fixed column is skipped, any other is written. */
  lemma PassOne(cs: seq<string>, ps: seq<nat>, args: seq<Value>, fixed: Row, input: map<string, Value>,
                rest: set<string>, key: string)
    requires key in rest && rest <= input.Keys && fixed.Keys <= FIXED
    requires Writes(cs, ps, args, fixed + Passed(input, rest))
    ensures key in FIXED ==> Passed(input, rest - {key}) == Passed(input, rest)
    ensures key !in FIXED ==>
          Writes(cs + [key], ps + [|args| + 1], args + [input[key]], fixed + Passed(input, rest - {key}))
  {
    hide Writes;
    if key !in FIXED {
      WritesOne(cs, ps, args, fixed + Passed(input, rest), key, input[key]);
      assert fixed + Passed(input, rest - {key}) == (fixed + Passed(input, rest))[key := input[key]];
    } else {
      assert Passed(input, rest - {key}) == Passed(input, rest);
    }
  }

  lemma PassedAll(fixed: Row, input: map<string, Value>)
    requires fixed.Keys <= FIXED
    ensures fixed + Passed(input, input.Keys) == fixed
    ensures fixed + Passed(input, {}) == Free(input) + fixed
  {
  }

  lemma FixedWrites(tn: Tenant, id: nat, now: int)
    ensures Writes(["id", "organization_id", "app_id", "created_at", "updated_at"], [1, 2, 3, 4, 5],
                   [Uuid(id), Uuid(tn.org), Uuid(tn.app), Stamp(now), Stamp(now)], FixedValues(tn, id, now))
  {
    assert "created_at"[0] != "updated_at"[0];
  }

  /** INSERT for an input object, ranged over in any order. */
  method BuildInsert(tn: Tenant, id: nat, now: int, input: map<string, Value>) returns (stmt: Stmt, args: seq<Value>)
    ensures stmt.Insert?
    ensures Writes(stmt.columns, stmt.params, args, Free(input) + FixedValues(tn, id, now))
  {
    var columns := ["id", "organization_id", "app_id", "created_at", "updated_at"];
    args := [Uuid(id), Uuid(tn.org), Uuid(tn.app), Stamp(now), Stamp(now)];
    var params: seq<nat> := [1, 2, 3, 4, 5];
    var paramIndex := 6;
    var rest := input.Keys;
    ghost var fixed := FixedValues(tn, id, now);
    FixedWrites(tn, id, now);
    PassedAll(fixed, input);
    hide Writes, Passed, FixedValues, Free, IsFixed;
    while rest != {}
      invariant rest <= input.Keys && paramIndex == |args| + 1
      invariant Writes(columns, params, args, fixed + Passed(input, rest))
      decreases rest
    {
      var key :| key in rest;
      PassOne(columns, params, args, fixed, input, rest, key);
      if !IsFixed(key) {
        columns := columns + [key];
        args := args + [input[key]];
        params := params + [paramIndex];
        paramIndex := paramIndex + 1;
      }
      rest := rest - {key};
    }
    stmt := Insert(columns, params);
  }

  /** The columns, and then the placeholders, of a list of bindings. */
  lemma BindingsSnoc(bs: seq<Binding>, b: Binding)
    ensures Columns(bs + [b]) == Columns(bs) + [b.column] && Params(bs + [b]) == Params(bs) + [b.param]
  {
  }

  /** UPDATE for an input object, ranged over in any order, with the tenant in the filter. */
  method BuildUpdate(tn: Tenant, id: nat, now: int, input: map<string, Value>)
      returns (stmt: Stmt, args: seq<Value>)
    ensures stmt.UpdateSet? && 3 <= |args|
    ensures Writes(Columns(stmt.sets), Params(stmt.sets), args[..|args| - 3], Changes(now, input))
    ensures args == args[..|args| - 3] + AddressArgs(tn, id) && stmt.filter == AddressFilter(|args| - 2)
  {
    var setParts := [Binding("updated_at", 1)];
    args := [Stamp(now)];
    var paramIndex := 2;
    var rest := input.Keys;
    ghost var fixed: Row := map["updated_at" := Stamp(now)];
    assert Writes(Columns([]), Params([]), [], map[]);
    WritesOne(Columns([]), Params([]), [], map[], "updated_at", Stamp(now));
    BindingsSnoc([], Binding("updated_at", 1));
    assert [] + setParts == setParts && [] + args == args;
    PassedAll(fixed, input);
    hide Writes, Passed, Free, Columns, Params, IsFixed;
    while rest != {}
      invariant rest <= input.Keys && paramIndex == |args| + 1
      invariant Writes(Columns(setParts), Params(setParts), args, fixed + Passed(input, rest))
      decreases rest
    {
      var key :| key in rest;
      PassOne(Columns(setParts), Params(setParts), args, fixed, input, rest, key);
      if !IsFixed(key) {
        BindingsSnoc(setParts, Binding(key, paramIndex));
        setParts := setParts + [Binding(key, paramIndex)];
        args := args + [input[key]];
        paramIndex := paramIndex + 1;
      }
      rest := rest - {key};
    }
    stmt := UpdateSet(setParts, [Binding("id", paramIndex), Binding("organization_id", paramIndex + 1),
        Binding("app_id", paramIndex + 2)]);
    ghost var written := args;
    args := args + [Uuid(id), Uuid(tn.org), Uuid(tn.app)];
    assert args[..|args| - 3] == written;
  }

  // ---------------------------------------------------------------- the statements mean the record operations

  lemma FilterAgrees(rows: seq<Row>, p: Row -> bool, q: Row -> bool)
    requires forall r :: p(r) == q(r)
    ensures Filter(rows, p) == Filter(rows, q)
  {
  }

  lemma RewriteAgrees(rows: seq<Row>, p: Row -> bool, q: Row -> bool, change: Row)
    requires forall r :: p(r) == q(r)
    ensures Rewrite(rows, p, change) == Rewrite(rows, q, change)
  {
  }

  /** The filter `id = $k AND organization_id = $k+1 AND app_id = $k+2`. */
  function AddressFilter(k: nat): seq<Binding> {
    [Binding("id", k), Binding("organization_id", k + 1), Binding("app_id", k + 2)]
  }

  function AddressArgs(tn: Tenant, id: nat): seq<Value> {
    [Uuid(id), Uuid(tn.org), Uuid(tn.app)]
  }

  /** ... selects the addressed record and nothing else. */
  lemma FilterMeans(args: seq<Value>, tn: Tenant, id: nat, r: Row)
    ensures Matches(r, AddressFilter(|args| + 1), args + AddressArgs(tn, id)) == Addressed(r, tn, id)
    ensures Addressed(r, tn, id) <==>
              && "id" in r && r["id"] == Uuid(id)
              && "organization_id" in r && r["organization_id"] == Uuid(tn.org)
              && "app_id" in r && r["app_id"] == Uuid(tn.app)
  {
    var f, all := AddressFilter(|args| + 1), args + AddressArgs(tn, id);
    assert all[|args|] == Uuid(id) && all[|args| + 1] == Uuid(tn.org) && all[|args| + 2] == Uuid(tn.app);
    assert Matches(r, f, all) <==>
      (f[0].column in r && r[f[0].column] == Uuid(id)) &&
      (f[1].column in r && r[f[1].column] == Uuid(tn.org)) &&
      (f[2].column in r && r[f[2].column] == Uuid(tn.app));
  }

  lemma AllBound(params: seq<nat>, args: seq<Value>)
    requires Numbered(params) && |params| == |args|
    ensures Bound(params, args)
  {
    forall n | 1 <= n <= |args| ensures n in params { assert params[n - 1] == n; }
  }

  lemma KnownKeys(s: Schema, columns: seq<string>, row: Row)
    requires forall c :: c in columns <==> c in row
    ensures Known(s, columns) <==> row.Keys <= s.defaults.Keys
  {
    if row.Keys <= s.defaults.Keys {
      forall i | 0 <= i < |columns| ensures columns[i] in s.defaults { assert columns[i] in columns; }
    }
  }

  /** An INSERT that writes `row` inserts the defaults overridden by `row`. */
  lemma InsertWrites(s: Schema, table: seq<Row>, row: Row, columns: seq<string>, params: seq<nat>, args: seq<Value>)
    requires Writes(columns, params, args, row) && "id" in row
    ensures InsertRow(columns, params, args, s, table) ==
            if !(row.Keys <= s.defaults.Keys) then Err(UnknownColumn)
            else if HasId(table, row["id"]) then Err(DuplicateKey)
            else Ok(Effect(table + [s.defaults + row], [s.defaults + row]))
  {
    WritesAssign(columns, params, args, row, []);
    assert args + [] == args;
    AllBound(params, args);
    KnownKeys(s, columns, row);
    hide Known, Bound, Numbered, Assigned, HasId;
  }

  /** Creating a record, as the database reports it. */
  function Inserted(s: Schema, table: seq<Row>, tn: Tenant, id: nat, now: int, input: map<string,
                    Value>): Result<Effect, DbError> {
    if !Has(s, FIXED + input.Keys) then Err(UnknownColumn)
    else if HasId(table, Uuid(id)) then Err(DuplicateKey)
    else Ok(Effect(table + [NewRecord(s, tn, id, now, input)], [NewRecord(s, tn, id, now, input)]))
  }

  /** The compiled INSERT does exactly what creating the record does. */
  lemma {:induction false} InsertMeans(s: Schema, table: seq<Row>, tn: Tenant, id: nat, now: int, input: map<string,
                                       Value>,
                    columns: seq<string>, params: seq<nat>, args: seq<Value>)
    requires Writes(columns, params, args, Free(input) + FixedValues(tn, id, now))
    ensures InsertRow(columns, params, args, s, table) == Inserted(s, table, tn, id, now, input)
  {
    var row := Free(input) + FixedValues(tn, id, now);
    assert row["id"] == Uuid(id);
    assert row.Keys == FIXED + input.Keys;
    hide FixedValues, Free, Writes, InsertRow, HasId;
    InsertWrites(s, table, row, columns, params, args);
  }

  lemma UpdateBound(sets: seq<Binding>, args: seq<Value>, tn: Tenant, id: nat)
    requires |sets| == |args| && Numbered(Params(sets))
    ensures BoundBy(sets + AddressFilter(|args| + 1), args + AddressArgs(tn, id))
  {
    var all := sets + AddressFilter(|args| + 1);
    forall i | 0 <= i < |all| ensures all[i].param == i + 1 {
      if i < |sets| { assert Params(sets)[i] == i + 1; }
    }
    forall n | 1 <= n <= |all| ensures Uses(all, n) { assert all[n - 1].param == n; }
  }

  lemma KnownBoth(s: Schema, sets: seq<Binding>, k: nat, change: Row)
    requires forall c :: c in Columns(sets) <==> c in change
    ensures Known(s, Columns(sets + AddressFilter(k))) <==> Has(s, change.Keys + ADDRESS)
  {
    var f := AddressFilter(k);
    var cs := Columns(sets + f);
    assert cs == Columns(sets) + Columns(f);
    assert Columns(f) == ["id", "organization_id", "app_id"];
    assert forall c :: c in Columns(f) <==> c in ADDRESS;
    assert forall c :: c in cs <==> c in Columns(sets) || c in Columns(f);
    hide AddressFilter, Columns;
    if Known(s, cs) {
      forall c | c in change.Keys + ADDRESS ensures c in s.defaults {
        var i :| 0 <= i < |cs| && cs[i] == c;
      }
    }
    if Has(s, change.Keys + ADDRESS) {
      forall i | 0 <= i < |cs| ensures cs[i] in s.defaults {
        assert cs[i] in cs;
      }
    }
  }

  /** The compiled UPDATE does exactly what changing the record does. */
  lemma UpdateMeans(s: Schema, table: seq<Row>, tn: Tenant, id: nat, now: int, input: map<string, Value>,
                    sets: seq<Binding>, args: seq<Value>)
    requires Writes(Columns(sets), Params(sets), args, Changes(now, input))
    ensures UpdateRows(sets, AddressFilter(|args| + 1), args + AddressArgs(tn, id), s, table) ==
            if !Has(s, ADDRESS + {"updated_at"} + (input.Keys - FIXED)) then Err(UnknownColumn)
            else
              var hit := At(tn, id);
              Ok(Effect(Rewrite(table, hit, Changes(now, input)),
                        Rewrite(Filter(table, hit), r => true, Changes(now, input))))
  {
    var f, all, change := AddressFilter(|args| + 1), args + AddressArgs(tn, id), Changes(now, input);
    var cols := ADDRESS + {"updated_at"} + (input.Keys - FIXED);
    assert change.Keys + ADDRESS == cols;
    hide Changes, AddressFilter, AddressArgs, Columns, Params, Known, Has, Addressed, Matches, Filter, Rewrite;
    hide BoundBy, Assigned;
    WritesAssign(Columns(sets), Params(sets), args, change, AddressArgs(tn, id));
    UpdateBound(sets, args, tn, id);
    KnownBoth(s, sets, |args| + 1, change);
    if Has(s, cols) {
      InRange(sets, f, all);
      var hit, addressed := (r: Row) => Matches(r, f, all), At(tn, id);
      forall r ensures hit(r) == addressed(r) { FilterMeans(args, tn, id, r); }
      FilterAgrees(table, hit, addressed);
      RewriteAgrees(table, hit, addressed, change);
    }
  }

  // ---------------------------------------------------------------- the handlers

  /** `organization_id = $1 AND app_id = $2` selects the tenant's records. */
  lemma TenantFilterMeans(tn: Tenant, r: Row)
    ensures Matches(r, [Binding("organization_id", 1), Binding("app_id", 2)], [Uuid(tn.org), Uuid(tn.app)]) ==
          Owned(r, tn)
  {
    var f, args := [Binding("organization_id", 1), Binding("app_id", 2)], [Uuid(tn.org), Uuid(tn.app)];
    assert Matches(r, f, args) <==>
      (f[0].column in r && r[f[0].column] == Uuid(tn.org)) && (f[1].column in r && r[f[1].column] == Uuid(tn.app));
  }

  lemma SelectTenant(s: Schema, table: seq<Row>, tn: Tenant)
    ensures SelectRows([Binding("organization_id", 1), Binding("app_id", 2)], [Uuid(tn.org), Uuid(tn.app)], s, table) ==
            if !Has(s, {"organization_id", "app_id"}) then Err(UnknownColumn)
            else Ok(Effect(table, Filter(table, OwnedBy(tn))))
  {
    var f, args := [Binding("organization_id", 1), Binding("app_id", 2)], [Uuid(tn.org), Uuid(tn.app)];
    assert f[0].param == 1 && f[1].param == 2;
    assert Uses(f, 1) && Uses(f, 2);
    assert Columns(f) == ["organization_id", "app_id"];
    assert Known(s, Columns(f)) <==> Columns(f)[0] in s.defaults && Columns(f)[1] in s.defaults;
    forall r ensures Matches(r, f, args) == Owned(r, tn) { TenantFilterMeans(tn, r); }
    hide Matches, Owned, Known;
    FilterAgrees(table, r => Matches(r, f, args), OwnedBy(tn));
  }

  lemma AddressBound(s: Schema, tn: Tenant, id: nat)
    ensures BoundBy(AddressFilter(1), AddressArgs(tn, id))
    ensures Known(s, Columns(AddressFilter(1))) <==> Has(s, ADDRESS)
    ensures forall r :: Matches(r, AddressFilter(1), AddressArgs(tn, id)) == Addressed(r, tn, id)
  {
    var none: seq<Value> := [];
    UpdateBound([], none, tn, id);
    assert [] + AddressFilter(1) == AddressFilter(1) && none + AddressArgs(tn, id) == AddressArgs(tn, id);
    var nothing: Row := map[];
    KnownBoth(s, [], 1, nothing);
    assert nothing.Keys + ADDRESS == ADDRESS;
    forall r ensures Matches(r, AddressFilter(1), AddressArgs(tn, id)) == Addressed(r, tn, id) {
      FilterMeans(none, tn, id, r);
    }
  }

  lemma SelectAddressed(s: Schema, table: seq<Row>, tn: Tenant, id: nat)
    ensures SelectRows(AddressFilter(1), AddressArgs(tn, id), s, table) ==
            if !Has(s, ADDRESS) then Err(UnknownColumn) else Ok(Effect(table, Filter(table, At(tn, id))))
    ensures DeleteRows(AddressFilter(1), AddressArgs(tn, id), s, table) ==
            if !Has(s, ADDRESS) then Err(UnknownColumn)
            else Ok(Effect(Filter(table, NotAt(tn, id)), Filter(table, At(tn, id))))
  {
    var f, args := AddressFilter(1), AddressArgs(tn, id);
    AddressBound(s, tn, id);
    hide AddressFilter, AddressArgs, Matches, Addressed, BoundBy, Known, Has;
    FilterAgrees(table, r => Matches(r, f, args), At(tn, id));
    FilterAgrees(table, r => !Matches(r, f, args), NotAt(tn, id));
  }

  /** Executing what was built for an update is the update, as far as the handler looks at the effect. */
  lemma UpdateRefines(s: Schema, table: seq<Row>, tn: Tenant, id: nat, now: int, input: map<string, Value>,
                      stmt: Stmt, args: seq<Value>)
    requires stmt.UpdateSet? && 3 <= |args|
    requires Writes(Columns(stmt.sets), Params(stmt.sets), args[..|args| - 3], Changes(now, input))
    requires args == args[..|args| - 3] + AddressArgs(tn, id) && stmt.filter == AddressFilter(|args| - 2)
    ensures match Exec(stmt, args, s, table)
            case Err(e) => Step(s, table, tn, Update(Some(id), now, input)) == (table, Failed(Db(e)))
            case Ok(effect) =>
              Step(s, table, tn, Update(Some(id), now, input)) ==
              (effect.table, if |effect.rows| == 0 then Failed(NotFound) else Record(effect.rows[0]))
  {
    hide UpdateRows, Changes, Has, Filter, Addressed, AddressFilter, AddressArgs, Columns, Params, Writes, At;
    UpdateMeans(s, table, tn, id, now, input, stmt.sets, args[..|args| - 3]);
  }

  /** The stretch of the tenant's own records that the offset and the limit ask for, and how many there are in all. */
  ghost predicate Lists(o: Outcome, own: seq<Row>, offset: int, limit: int)
    requires o.Listing? && 0 <= offset
  {
    var left := |own| - offset;
    && o.total == |own| && o.offset == offset && o.limit == (if 1 <= limit <= 100 then limit else 20)
    && |o.data| == (if left <= 0 then 0 else if left < o.limit then left else o.limit)
    && forall i :: 0 <= i < |o.data| ==> offset + i < |own| && o.data[i] == own[offset + i]
  }

  lemma ListAnswers(s: Schema, table: seq<Row>, tn: Tenant, offset: int, limit: int)
    ensures var o := ListRecords(s, table, tn, offset, limit);
            && (o.Listing? <==> {"organization_id", "app_id", "created_at"} <= s.defaults.Keys && 0 <= offset)
            && (o.Listing? ==> Lists(o, Newest(Filter(table, OwnedBy(tn))), offset, limit))
  {
    hide Filter, Newest;
    NewestLength(Filter(table, OwnedBy(tn)));
  }

  /** The handlers over one table of the application database, one call at a time. */
  class Handler {
    const schema: Schema
    var table: seq<Row>

    constructor (schema: Schema, table: seq<Row>)
      ensures this.schema == schema && this.table == table
    {
      this.schema := schema;
      this.table := table;
    }

    method HandleList(tn: Tenant, offset: int, limit: int) returns (o: Outcome)
      ensures (table, o) == Step(schema, table, tn, List(offset, limit))
      ensures o.Listing? <==> {"organization_id", "app_id", "created_at"} <= schema.defaults.Keys && 0 <= offset
      ensures o.Listing? ==> Lists(o, Newest(Filter(table, OwnedBy(tn))), offset, limit)
    {
      hide SelectRows, Filter, Newest, Owned;
      ListAnswers(schema, table, tn, offset, limit);
      var capped := limit;
      if limit <= 0 || limit > 100 {
        capped := 20;
      }
      var filter, args := [Binding("organization_id", 1), Binding("app_id", 2)], [Uuid(tn.org), Uuid(tn.app)];
      SelectTenant(schema, table, tn);
      var counted := Exec(Select(filter), args, schema, table);
      if counted.Err? {
        return Failed(Db(counted.error));
      }
      var page := Exec(SelectPage(filter, capped, offset), args, schema, table);
      assert Known(schema, ["created_at"]) <==> ["created_at"][0] in schema.defaults;
      if page.Err? {
        return Failed(Db(page.error));
      }
      o := Listing(page.value.rows, |counted.value.rows|, offset, capped);
      hide ListRecords;
    }

    method HandleGet(tn: Tenant, id: Option<nat>) returns (o: Outcome)
      ensures (table, o) == Step(schema, table, tn, Get(id))
      ensures o.Record? <==>
                && id.Some? && ADDRESS <= schema.defaults.Keys
                && exists r :: r in table && Addressed(r, tn, id.value)
      ensures o.Record? ==> o.row in table && Addressed(o.row, tn, id.value)
    {
      if id.Some? {
        FilterFinds(table, At(tn, id.value));
        Found(table, tn, id.value);
      }
      if id.None? {
        return Failed(BadId);
      }
      SelectAddressed(schema, table, tn, id.value);
      var found := Exec(Select(AddressFilter(1)), AddressArgs(tn, id.value), schema, table);
      if found.Err? {
        return Failed(Db(found.error));
      }
      if found.value.rows == [] {
        return Failed(NotFound);
      }
      o := Record(found.value.rows[0]);
    }

    method HandleCreate(tn: Tenant, newId: nat, now: int, input: map<string, Value>) returns (o: Outcome)
      modifies this
      ensures (table, o) == Step(schema, old(table), tn, Create(newId, now, input))
      ensures o.Fresh? <==>
                && FIXED + input.Keys <= schema.defaults.Keys
                && forall r :: r in old(table) ==> !("id" in r && r["id"] == Uuid(newId))
      ensures o.Fresh? ==> table == old(table) + [o.row] && CreatedAs(o.row, schema, tn, newId, now, input)
      ensures !o.Fresh? ==> o.Failed? && table == old(table)
    {
      if Has(schema, FIXED + input.Keys) { NewRecordIsCreated(schema, tn, newId, now, input); }
      HasIdMeans(table, newId);
      hide CreatedAs;
      var stmt, args := BuildInsert(tn, newId, now, input);
      InsertMeans(schema, table, tn, newId, now, input, stmt.columns, stmt.params, args);
      hide InsertRow, Writes, NewRecord, FixedValues, Free, HasId, Has;
      var done := Exec(stmt, args, schema, table);
      if done.Err? {
        return Failed(Db(done.error));
      }
      table := done.value.table;
      o := Fresh(done.value.rows[0]);
    }

    method HandleUpdate(tn: Tenant, id: Option<nat>, now: int, input: map<string, Value>) returns (o: Outcome)
      modifies this
      ensures (table, o) == Step(schema, old(table), tn, Update(id, now, input))
      ensures o.Record? ==>
                var before := GetRecord(schema, old(table), tn, id.value);
                id.Some? && before.Record? && UpdatedAs(before.row, o.row, now, input)
      ensures id.Some? && ADDRESS + {"updated_at"} + (input.Keys - FIXED) <= schema.defaults.Keys ==>
                && |table| == |old(table)|
                && (o.Record? <==> exists r :: r in old(table) && Addressed(r, tn, id.value))
                && (forall i :: 0 <= i < |table| ==>
                      if Addressed(old(table)[i], tn, id.value) then UpdatedAs(old(table)[i], table[i], now, input)
                      else table[i] == old(table)[i])
      ensures !(id.Some? && ADDRESS + {"updated_at"} + (input.Keys - FIXED) <= schema.defaults.Keys) ==>
                o.Failed? && table == old(table)
    {
      if id.None? {
        return Failed(BadId);
      }
      hide Exec, Step, Writes, AddressFilter, AddressArgs, Changes, Columns, Params;
      UpdateFacts(schema, table, tn, id.value, now, input);
      hide UpdatedAs, Addressed, Has;
      var stmt, args := BuildUpdate(tn, id.value, now, input);
      var done := Exec(stmt, args, schema, table);
      UpdateRefines(schema, table, tn, id.value, now, input, stmt, args);
      if done.Err? {
        return Failed(Db(done.error));
      }
      table := done.value.table;
      if |done.value.rows| == 0 {
        return Failed(NotFound);
      }
      o := Record(done.value.rows[0]);
    }

    method HandleDelete(tn: Tenant, id: Option<nat>) returns (o: Outcome)
      modifies this
      ensures (table, o) == Step(schema, old(table), tn, Remove(id))
      ensures id.Some? && ADDRESS <= schema.defaults.Keys ==>
                && (o.Removed? <==> exists r :: r in old(table) && Addressed(r, tn, id.value))
                && (forall r :: r in table <==> r in old(table) && !Addressed(r, tn, id.value))
      ensures !o.Removed? ==> o.Failed?
    {
      if id.Some? {
        Found(table, tn, id.value);
        FilterFinds(table, NotAt(tn, id.value));
      }
      if id.None? {
        return Failed(BadId);
      }
      SelectAddressed(schema, table, tn, id.value);
      var done := Exec(Delete(AddressFilter(1)), AddressArgs(tn, id.value), schema, table);
      if done.Err? {
        return Failed(Db(done.error));
      }
      table := done.value.table;
      if |done.value.rows| == 0 {
        return Failed(NotFound);
      }
      o := Removed;
    }

    /** The checks before the switch on the action, in the order the code makes them. */
    method HandleGeneric(org: Option<nat>, app: AppHeader, tableName: string, dbUp: bool, verb: string,
                         body: map<string, Value>,
                         action: string, id: Option<nat>, newId: nat, now: int, offset: int, limit: int)
        returns (o: Outcome, status: nat)
      modifies this
      ensures org.None? ==> o == Failed(NoOrganization) && status == 400
      ensures org.Some? && app.Missing? ==> o == Failed(NoApp) && status == 400
      ensures org.Some? && app.Garbled? ==> o == Failed(InvalidApp) && status == 400
      ensures org.Some? && app.App? && tableName == "" ==> o == Failed(NoTable) && status == 400
      ensures org.Some? && app.App? && tableName != "" && !dbUp ==> o == Failed(NoDatabase) && status == 500
      ensures !(org.Some? && app.App? && tableName != "" && dbUp) ==> table == old(table)
      ensures org.Some? && app.App? && tableName != "" && dbUp ==>
                var tn, name := Tenant(org.value, app.id), ToLower(action);
                var input := if verb == "GET" || verb == "DELETE" then map[] else body;
                && (name == "list" ==> (table, o) == Step(schema, old(table), tn, List(offset, limit)))
                && (name == "get" ==> (table, o) == Step(schema, old(table), tn, Get(id)))
                && (name == "create" ==> (table, o) == Step(schema, old(table), tn, Create(newId, now, input)))
                && (name in {"update", "patch"} ==> (table, o) == Step(schema, old(table), tn, Update(id, now, input)))
                && (name == "delete" ==> (table, o) == Step(schema, old(table), tn, Remove(id)))
                && (name in {"list", "get", "create", "update", "patch", "delete"} ==>
                      status == if o.Failed? then 500 else if name == "create" then 201 else 200)
                && (name !in {"list", "get", "create", "update", "patch", "delete"} ==>
                      o == Failed(UnknownAction) && status == 400 && table == old(table))
    {
      hide Step, ToLower;
      if org.None? { return Failed(NoOrganization), 400; }
      if app == Missing { return Failed(NoApp), 400; }
      if app == Garbled { return Failed(InvalidApp), 400; }
      if tableName == "" { return Failed(NoTable), 400; }
      if !dbUp { return Failed(NoDatabase), 500; }
      var tn := Tenant(org.value, app.id);
      var requestData := if verb != "GET" && verb != "DELETE" then body else map[];
      var name := ToLower(action);
      if name == "list" {
        o := HandleList(tn, offset, limit);
      } else if name == "get" {
        o := HandleGet(tn, id);
      } else if name == "create" {
        o := HandleCreate(tn, newId, now, requestData);
      } else if name == "update" || name == "patch" {
        o := HandleUpdate(tn, id, now, requestData);
      } else if name == "delete" {
        o := HandleDelete(tn, id);
      } else {
        return Failed(UnknownAction), 400;
      }
      status := if o.Failed? then 500 else if name == "create" then 201 else 200;
    }
  }
}
