/** The few statement shapes the dynamic handler sends, and what a table does with them. */
module Sql {
  import opened Results
  import Pagination

  datatype Value = Null | Uuid(n: nat) | Stamp(t: int) | Json(text: string)

  type Row = map<string, Value>

  /** The columns of a table with their defaults. */
  datatype Schema = Schema(defaults: Row)

  datatype DbError = Malformed | UnknownColumn | DuplicateKey | NegativeOffset

  /** `$n` stands for the n-th argument, counting from 1. */
  datatype Binding = Binding(column: string, param: nat)

  datatype Stmt =
    | Insert(columns: seq<string>, params: seq<nat>)
    | UpdateSet(sets: seq<Binding>, filter: seq<Binding>)
    | Delete(filter: seq<Binding>)
    | Select(filter: seq<Binding>)
    | SelectPage(filter: seq<Binding>, limit: nat, offset: int)  // ORDER BY created_at DESC

  function Params(bs: seq<Binding>): seq<nat> {
    seq(|bs|, i requires 0 <= i < |bs| => bs[i].param)
  }

  function Columns(bs: seq<Binding>): seq<string> {
    seq(|bs|, i requires 0 <= i < |bs| => bs[i].column)
  }

  predicate Distinct(cs: seq<string>) {
    forall i, j :: 0 <= i < j < |cs| ==> cs[i] != cs[j]
  }

  /** Every placeholder has an argument and every argument a placeholder. */
  predicate Bound(params: seq<nat>, args: seq<Value>) {
    && (forall i :: 0 <= i < |params| ==> 1 <= params[i] <= |args|)
    && (forall n :: 1 <= n <= |args| ==> n in params)
  }

  predicate BoundBy(bs: seq<Binding>, args: seq<Value>) {
    && (forall i :: 0 <= i < |bs| ==> 1 <= bs[i].param <= |args|)
    && (forall n :: 1 <= n <= |args| ==> Uses(bs, n))
  }

  predicate Uses(bs: seq<Binding>, n: nat) {
    exists i :: 0 <= i < |bs| && bs[i].param == n
  }

  predicate Known(s: Schema, cs: seq<string>) {
    forall i :: 0 <= i < |cs| ==> cs[i] in s.defaults
  }

  function IndexOf(cs: seq<string>, c: string): (i: nat)
    requires c in cs
    ensures i < |cs| && cs[i] == c
  {
    if cs[0] == c then 0 else 1 + IndexOf(cs[1..], c)
  }

  /** The column values a list of assignments writes. */
  function Assigned(cs: seq<string>, ps: seq<nat>, args: seq<Value>): Row
    requires |cs| == |ps| && forall i :: 0 <= i < |ps| ==> 1 <= ps[i] <= |args|
  {
    map c | c in cs :: args[ps[IndexOf(cs, c)] - 1]
  }

  /** NULL equals nothing. */
  predicate Matches(r: Row, filter: seq<Binding>, args: seq<Value>)
    requires forall i :: 0 <= i < |filter| ==> 1 <= filter[i].param <= |args|
  {
    forall i :: 0 <= i < |filter| ==>
      filter[i].column in r && r[filter[i].column] == args[filter[i].param - 1] != Null
  }

  function Filter(rows: seq<Row>, keep: Row -> bool): seq<Row> {
    if rows == [] then []
    else Filter(rows[..|rows| - 1], keep) + (if keep(rows[|rows| - 1]) then [rows[|rows| - 1]] else [])
  }

  function Rewrite(rows: seq<Row>, hit: Row -> bool, change: Row): seq<Row> {
    seq(|rows|, i requires 0 <= i < |rows| => if hit(rows[i]) then rows[i] + change else rows[i])
  }

  predicate HasId(rows: seq<Row>, id: Value) {
    exists i :: 0 <= i < |rows| && "id" in rows[i] && rows[i]["id"] == id
  }

  /** `created_at` descending: NULL first, and rows created at the same time stay in stored order. */
  predicate Newer(a: Row, b: Row) {
    match (CreationTime(a), CreationTime(b))
    case (None, Some(_)) => true
    case (Some(x), Some(y)) => x > y
    case (_, None) => false
  }

  function CreationTime(r: Row): Option<int> {
    if "created_at" in r && r["created_at"].Stamp? then Some(r["created_at"].t) else None
  }

  function Place(sorted: seq<Row>, r: Row): seq<Row> {
    if sorted == [] || !Newer(r, sorted[|sorted| - 1]) then sorted + [r]
    else Place(sorted[..|sorted| - 1], r) + [sorted[|sorted| - 1]]
  }

  function Newest(rows: seq<Row>): seq<Row> {
    if rows == [] then [] else Place(Newest(rows[..|rows| - 1]), rows[|rows| - 1])
  }

  /** The table afterwards, and the rows the statement returns (for DELETE, those it removed). */
  datatype Effect = Effect(table: seq<Row>, rows: seq<Row>)

  function InsertRow(columns: seq<string>, params: seq<nat>, args: seq<Value>, s: Schema,
                     table: seq<Row>): Result<Effect, DbError> {
    if !Distinct(columns) || |columns| != |params| || !Bound(params, args) then Err(Malformed)
    else if !Known(s, columns) then Err(UnknownColumn)
    else
      var row := s.defaults + Assigned(columns, params, args);
      if "id" in row && HasId(table, row["id"]) then Err(DuplicateKey) else Ok(Effect(table + [row], [row]))
  }

  function UpdateRows(sets: seq<Binding>, filter: seq<Binding>, args: seq<Value>, s: Schema,
                      table: seq<Row>): Result<Effect, DbError> {
    if !Distinct(Columns(sets)) || !BoundBy(sets + filter, args) then Err(Malformed)
    else if !Known(s, Columns(sets + filter)) then Err(UnknownColumn)
    else
      InRange(sets, filter, args);
      var hit := (r: Row) => Matches(r, filter, args);
      var change := Assigned(Columns(sets), Params(sets), args);
      Ok(Effect(Rewrite(table, hit, change), Rewrite(Filter(table, hit), r => true, change)))
  }

  function DeleteRows(filter: seq<Binding>, args: seq<Value>, s: Schema, table: seq<Row>): Result<Effect, DbError> {
    if !BoundBy(filter, args) then Err(Malformed)
    else if !Known(s, Columns(filter)) then Err(UnknownColumn)
    else Ok(Effect(Filter(table, r => !Matches(r, filter, args)), Filter(table, r => Matches(r, filter, args))))
  }

  function SelectRows(filter: seq<Binding>, args: seq<Value>, s: Schema, table: seq<Row>): Result<Effect, DbError> {
    if !BoundBy(filter, args) then Err(Malformed)
    else if !Known(s, Columns(filter)) then Err(UnknownColumn)
    else Ok(Effect(table, Filter(table, r => Matches(r, filter, args))))
  }

  function Exec(stmt: Stmt, args: seq<Value>, s: Schema, table: seq<Row>): Result<Effect, DbError> {
    match stmt
    case Insert(columns, params) => InsertRow(columns, params, args, s, table)
    case UpdateSet(sets, filter) => UpdateRows(sets, filter, args, s, table)
    case Delete(filter) => DeleteRows(filter, args, s, table)
    case Select(filter) => SelectRows(filter, args, s, table)
    case SelectPage(filter, limit, offset) =>
      if !Known(s, ["created_at"]) then Err(UnknownColumn)
      else
        match SelectRows(filter, args, s, table)
        case Err(e) => Err(e)
        case Ok(found) =>
          if offset < 0 then Err(NegativeOffset)
          else Ok(Effect(table, Pagination.Cut(Newest(found.rows), offset, limit)))
  }

  lemma InRange(sets: seq<Binding>, filter: seq<Binding>, args: seq<Value>)
    requires BoundBy(sets + filter, args)
    ensures forall i :: 0 <= i < |sets| ==> 1 <= sets[i].param <= |args|
    ensures forall i :: 0 <= i < |filter| ==> 1 <= filter[i].param <= |args|
  {
    var all := sets + filter;
    assert forall i :: 0 <= i < |sets| ==> all[i] == sets[i];
    assert forall i :: 0 <= i < |filter| ==> all[|sets| + i] == filter[i];
  }

  // ---------------------------------------------------------------- ORDER BY created_at DESC

  predicate Ordered(rows: seq<Row>) {
    forall i, j :: 0 <= i < j < |rows| ==> !Newer(rows[j], rows[i])
  }

  lemma NewestLength(rows: seq<Row>)
    ensures |Newest(rows)| == |rows|
  {
    NewestSorts(rows);
    assert |multiset(Newest(rows))| == |Newest(rows)| && |multiset(rows)| == |rows|;
  }

  lemma AppendOlder(sorted: seq<Row>, r: Row)
    requires Ordered(sorted) && (forall x :: x in sorted ==> !Newer(r, x))
    ensures Ordered(sorted + [r])
  {
  }

  lemma NotNewer(a: Row, b: Row, c: Row)
    ensures !Newer(a, b) && !Newer(b, c) ==> !Newer(a, c)
    ensures Newer(a, b) ==> !Newer(b, a)
  {
  }

  lemma AppendNotNewer(sorted: seq<Row>, r: Row)
    requires Ordered(sorted) && (sorted == [] || !Newer(r, sorted[|sorted| - 1]))
    ensures Ordered(sorted + [r])
  {
    forall i | 0 <= i < |sorted| ensures !Newer(r, sorted[i]) {
      NotNewer(r, sorted[|sorted| - 1], sorted[i]);
    }
    hide Newer;
  }

  lemma {:induction false} PlaceKeepsOrder(sorted: seq<Row>, r: Row)
    requires Ordered(sorted)
    ensures multiset(Place(sorted, r)) == multiset(sorted) + multiset{r}
    ensures Ordered(Place(sorted, r))
  {
    hide Newer;
    if sorted == [] || !Newer(r, sorted[|sorted| - 1]) {
      AppendNotNewer(sorted, r);
    } else {
      var init, last := sorted[..|sorted| - 1], sorted[|sorted| - 1];
      assert sorted == init + [last];
      PlaceKeepsOrder(init, r);
      NotNewer(r, last, r);
      forall x | x in Place(init, r) ensures !Newer(last, x) {
        assert x in multiset(Place(init, r));
        if x != r { var i :| 0 <= i < |init| && init[i] == x; assert sorted[i] == x; }
      }
      hide Ordered;
      AppendOlder(Place(init, r), last);
    }
  }

  /** The order the database returns is a permutation of the rows in which no later row is newer. */
  lemma {:induction false} NewestSorts(rows: seq<Row>)
    ensures multiset(Newest(rows)) == multiset(rows)
    ensures Ordered(Newest(rows))
  {
    hide Newer, Place;
    if rows != [] {
      NewestSorts(rows[..|rows| - 1]);
      PlaceKeepsOrder(Newest(rows[..|rows| - 1]), rows[|rows| - 1]);
      assert rows == rows[..|rows| - 1] + [rows[|rows| - 1]];
    }
  }

  /** Read off the rows: times go down, and rows without one come first. */
  lemma NewestFirst(rows: seq<Row>, i: nat, j: nat)
    requires i < j < |Newest(rows)|
    ensures var a, b := Newest(rows)[i], Newest(rows)[j];
            "created_at" in a && a["created_at"].Stamp? ==>
              "created_at" in b && b["created_at"].Stamp? && a["created_at"].t >= b["created_at"].t
  {
    NewestSorts(rows);
    assert !Newer(Newest(rows)[j], Newest(rows)[i]);
  }
}
