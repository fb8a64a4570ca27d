/**
 * The masker of personal data in JSON bodies: `maskMap` rewrites a decoded body in place, walking
 * nested maps and the maps that are items of a list.
 */
module PiiMasker {
  import opened Results
  import opened Text

  // ---------------------------------------------------------------- JSON as values

  datatype Json =
    | Scalar(text: string)
    | Str(s: string)
    | List(items: seq<Json>)
    | Object(fields: map<string, Json>)

  predicate StartsWithFold(s: string, p: string) {
    |p| <= |s| && forall i :: 0 <= i < |p| ==> Lower(s[i]) == Lower(p[i])
  }

  /** `(?i)(<quoted field>)`: the field occurs in the key, letter case aside. */
  predicate Occurs(field: string, key: string) {
    exists i :: 0 <= i <= |key| && StartsWithFold(key[i..], field)
  }

  predicate Sensitive(fields: seq<string>, key: string) {
    exists i :: 0 <= i < |fields| && Occurs(fields[i], key)
  }

  /** Some stretch of the key reads like the field when both are put in lower case. */
  ghost predicate Contains(key: string, field: string) {
    exists a, b :: 0 <= a <= b <= |key| && ToLower(key[a..b]) == ToLower(field)
  }

  lemma {:induction false} OccursExactlyWhen(field: string, key: string)
    ensures Occurs(field, key) <==> Contains(key, field)
  {
    if Occurs(field, key) {
      var i :| 0 <= i <= |key| && StartsWithFold(key[i..], field);
      assert forall j :: 0 <= j < |field| ==> key[i..i + |field|][j] == key[i..][j];
      assert ToLower(key[i..i + |field|]) == ToLower(field);
    }
    if Contains(key, field) {
      var a, b :| 0 <= a <= b <= |key| && ToLower(key[a..b]) == ToLower(field);
      assert |key[a..b]| == |ToLower(key[a..b])| == |field|;
      forall j | 0 <= j < |field| ensures Lower(key[a..][j]) == Lower(field[j]) {
        assert key[a..b][j] == key[a..][j];
        assert ToLower(key[a..b])[j] == Lower(key[a..b][j]) && ToLower(field)[j] == Lower(field[j]);
      }
      assert StartsWithFold(key[a..], field);
    }
  }

  /** A key is sensitive exactly when it contains some field, in any letter case. */
  lemma {:induction false} SensitiveExactlyWhen(fields: seq<string>, key: string)
    ensures Sensitive(fields, key) <==> exists i :: 0 <= i < |fields| && Contains(key, fields[i])
  {
    hide Occurs, Contains;
    forall i | 0 <= i < |fields| ensures Occurs(fields[i], key) <==> Contains(key, fields[i]) {
      OccursExactlyWhen(fields[i], key);
    }
  }

  /** So whatever stands before and after the field, and however it is capitalised. */
  lemma SensitiveAround(fields: seq<string>, i: nat, pre: string, mid: string, post: string)
    requires i < |fields| && ToLower(mid) == ToLower(fields[i])
    ensures Sensitive(fields, pre + mid + post)
  {
    var key := pre + mid + post;
    assert key[|pre|..|pre| + |mid|] == mid;
    assert Contains(key, fields[i]);
    SensitiveExactlyWhen(fields, key);
  }

  /** The masked form of a value that is not itself under a sensitive key. */
  function MaskValue(fields: seq<string>, mask: string, v: Json): Json
    decreases v, 2
  {
    match v
    case Object(_) => Mask(fields, mask, v)
    case List(items) => List(seq(|items|, i requires 0 <= i < |items| => MaskItem(fields, mask, items[i])))
    case _ => v
  }

  /** Among the items of a list, only the maps are walked into. */
  function MaskItem(fields: seq<string>, mask: string, v: Json): Json
    decreases v, 1
  {
    if v.Object? then Mask(fields, mask, v) else v
  }

  /** The masked form of an object. */
  function Mask(fields: seq<string>, mask: string, v: Json): (r: Json)
    requires v.Object?
    ensures r.Object?
    decreases v, 0
  {
    Object(map k | k in v.fields :: if Sensitive(fields, k) then Str(mask) else MaskValue(fields, mask, v.fields[k]))
  }

  // ---------------------------------------------------------------- laws of the masked form

  lemma FieldsOfMask(fields: seq<string>, mask: string, m: map<string, Json>)
    ensures Mask(fields, mask, Object(m)).Object? && Mask(fields, mask, Object(m)).fields.Keys == m.Keys
    ensures forall k :: k in m ==> Mask(fields, mask, Object(m)).fields[k] ==
                                   if Sensitive(fields, k) then Str(mask) else MaskValue(fields, mask, m[k])
  {
  }

  /** Masking with one pattern list after another is masking once with both. */
  lemma {:induction false} MaskTwice(ps: seq<string>, qs: seq<string>, mask: string, v: Json)
    ensures MaskValue(ps, mask, MaskValue(qs, mask, v)) == MaskValue(qs + ps, mask, v)
    decreases v
  {
    match v {
      case Object(m) =>
        forall k | k in m ensures MaskValue(ps, mask, MaskValue(qs, mask, m[k])) == MaskValue(qs + ps, mask, m[k]) {
          MaskTwice(ps, qs, mask, m[k]);
        }
        ObjectTwice(ps, qs, mask, m);
      case List(items) =>
        forall i | 0 <= i < |items|
          ensures MaskItem(ps, mask, MaskItem(qs, mask, items[i])) == MaskItem(qs + ps, mask, items[i]) {
          if items[i].Object? { MaskTwice(ps, qs, mask, items[i]); }
        }
        ListTwice(ps, qs, mask, items);
      case _ =>
    }
  }

  lemma ListTwice(ps: seq<string>, qs: seq<string>, mask: string, items: seq<Json>)
    requires forall i :: 0 <= i < |items| ==>
               MaskItem(ps, mask, MaskItem(qs, mask, items[i])) == MaskItem(qs + ps, mask, items[i])
    ensures MaskValue(ps, mask, MaskValue(qs, mask, List(items))) == MaskValue(qs + ps, mask, List(items))
  {
    hide MaskItem;
  }

  lemma ObjectTwice(ps: seq<string>, qs: seq<string>, mask: string, m: map<string, Json>)
    requires forall k :: k in m ==> MaskValue(ps, mask, MaskValue(qs, mask, m[k])) == MaskValue(qs + ps, mask, m[k])
    ensures Mask(ps, mask, Mask(qs, mask, Object(m))) == Mask(qs + ps, mask, Object(m))
  {
    assert MaskValue(ps, mask, Str(mask)) == Str(mask);
    hide MaskValue, Sensitive;
    var once, twice := Mask(qs + ps, mask, Object(m)).fields, Mask(ps, mask, Mask(qs, mask, Object(m))).fields;
    forall k | k in m
      ensures once[k] == twice[k]
    {
      SensitiveEither(qs, ps, k);
    }
  }

  lemma SensitiveEither(ps: seq<string>, qs: seq<string>, key: string)
    ensures Sensitive(ps + qs, key) == (Sensitive(ps, key) || Sensitive(qs, key))
  {
    var all := ps + qs;
    if Sensitive(ps, key) {
      var i :| 0 <= i < |ps| && Occurs(ps[i], key);
      assert all[i] == ps[i];
    }
    if Sensitive(qs, key) {
      var i :| 0 <= i < |qs| && Occurs(qs[i], key);
      assert all[|ps| + i] == qs[i];
    }
  }

  /** Only which keys are sensitive matters, not the order or repetition of the patterns. */
  lemma {:induction false} PatternsAsSet(ps: seq<string>, qs: seq<string>, mask: string, v: Json)
    requires forall k :: Sensitive(ps, k) == Sensitive(qs, k)
    ensures MaskValue(ps, mask, v) == MaskValue(qs, mask, v)
    decreases v
  {
    match v {
      case Object(m) =>
        forall k | k in m ensures MaskValue(ps, mask, m[k]) == MaskValue(qs, mask, m[k]) {
          PatternsAsSet(ps, qs, mask, m[k]);
        }
      case List(items) =>
        forall i | 0 <= i < |items| ensures MaskItem(ps, mask, items[i]) == MaskItem(qs, mask, items[i]) {
          if items[i].Object? { PatternsAsSet(ps, qs, mask, items[i]); }
        }
      case _ =>
    }
  }

  /** Masking twice changes nothing more. */
  lemma MaskIdempotent(fields: seq<string>, mask: string, v: Json)
    ensures MaskValue(fields, mask, MaskValue(fields, mask, v)) == MaskValue(fields, mask, v)
  {
    MaskTwice(fields, fields, mask, v);
    forall k ensures Sensitive(fields + fields, k) == Sensitive(fields, k) {
      SensitiveEither(fields, fields, k);
    }
    PatternsAsSet(fields + fields, fields, mask, v);
  }

  /** A value at `path` down through objects and through list items that are objects. */
  datatype Hop = Key(k: string) | Index(i: nat)

  function At(v: Json, path: seq<Hop>): Json
    requires Walkable(v, path)
  {
    if path == [] then v
    else if path[0].Key? then At(v.fields[path[0].k], path[1..])
    else At(v.items[path[0].i], path[1..])
  }

  /** The path exists, and leaves a list only through an item that is an object. */
  predicate Walkable(v: Json, path: seq<Hop>) {
    path == [] ||
    (path[0].Key? && v.Object? && path[0].k in v.fields && Walkable(v.fields[path[0].k], path[1..])) ||
    (path[0].Index? && v.List? && path[0].i < |v.items| && v.items[path[0].i].Object? &&
        Walkable(v.items[path[0].i], path[1..]))
  }

  predicate ClearPath(fields: seq<string>, path: seq<Hop>) {
    forall i :: 0 <= i < |path| && path[i].Key? ==> !Sensitive(fields, path[i].k)
  }

  /** Masking is pointwise: along a path with no sensitive key, what is there is masked in its place ... */
  lemma {:induction false} MaskedAtClearPath(fields: seq<string>, mask: string, v: Json, path: seq<Hop>)
    requires Walkable(v, path) && ClearPath(fields, path)
    ensures Walkable(MaskValue(fields, mask, v), path)
    ensures At(MaskValue(fields, mask, v), path) == MaskValue(fields, mask, At(v, path))
  {
    if path != [] {
      assert !(path[0].Key? && Sensitive(fields, path[0].k));
      assert ClearPath(fields, path[1..]);
      MaskedAtClearPath(fields, mask, if path[0].Key? then v.fields[path[0].k] else v.items[path[0].i], path[1..]);
    }
  }

  /** ... and at the first sensitive key stands the mask, whatever was there. */
  lemma MaskedAtSensitiveKey(fields: seq<string>, mask: string, v: Json, path: seq<Hop>, k: string)
    requires Walkable(v, path) && ClearPath(fields, path)
    requires At(v, path).Object? && k in At(v, path).fields && Sensitive(fields, k)
    ensures Walkable(MaskValue(fields, mask, v), path)
    ensures At(MaskValue(fields, mask, v), path).Object?
    ensures k in At(MaskValue(fields, mask, v), path).fields
    ensures At(MaskValue(fields, mask, v), path).fields[k] == Str(mask)
  {
    MaskedAtClearPath(fields, mask, v, path);
  }

  /**
   * Wherever the walk goes, short of a sensitive key, every map keeps its keys, every list its length, and
   * every other value is left alone: masking only replaces what sensitive keys hold.
   */
  lemma {:induction false} KeysKept(fields: seq<string>, mask: string, v: Json, path: seq<Hop>)
    requires Walkable(v, path) && ClearPath(fields, path)
    ensures Walkable(MaskValue(fields, mask, v), path)
    ensures var before, after := At(v, path), At(MaskValue(fields, mask, v), path);
            match before
            case Object(m) => after.Object? && after.fields.Keys == m.Keys
            case List(items) =>
              && after.List? && |after.items| == |items|
              && forall i :: 0 <= i < |items| && !items[i].Object? ==> after.items[i] == items[i]
            case _ => after == before
  {
    MaskedAtClearPath(fields, mask, v, path);
  }

  /** No sensitive key anywhere holds anything but the mask. */
  predicate Clean(fields: seq<string>, mask: string, v: Json) {
    match v
    case Object(m) => forall k :: k in m ==>
          if Sensitive(fields, k) then m[k] == Str(mask) else Clean(fields, mask, m[k])
    case List(items) => forall i :: 0 <= i < |items| ==> Clean(fields, mask, items[i])
    case _ => true
  }

  /** Every list that is itself an item of a list is clean already. */
  predicate NestedListsClean(fields: seq<string>, mask: string, v: Json) {
    match v
    case Object(m) => forall k :: k in m && !Sensitive(fields, k) ==> NestedListsClean(fields, mask, m[k])
    case List(items) =>
      forall i :: 0 <= i < |items| ==>
        if items[i].Object? then NestedListsClean(fields, mask, items[i]) else Clean(fields, mask, items[i])
    case _ => true
  }

  /** Masking removes every sensitive value exactly when none hides in a list inside a list. */
  lemma {:induction false} CleanExactlyWhen(fields: seq<string>, mask: string, v: Json)
    ensures Clean(fields, mask, MaskValue(fields, mask, v)) <==> NestedListsClean(fields, mask, v)
  {
    match v {
      case Object(m) =>
        var masked := Mask(fields, mask, v).fields;
        forall k | k in m ensures Clean(fields, mask, MaskValue(fields, mask, m[k])) <==>
            NestedListsClean(fields, mask, m[k]) {
          CleanExactlyWhen(fields, mask, m[k]);
        }
        hide MaskValue;
        assert forall k :: k in m ==>
            masked[k] == if Sensitive(fields, k) then Str(mask) else MaskValue(fields, mask, m[k]);
      case List(items) =>
        var masked := MaskValue(fields, mask, v).items;
        forall i | 0 <= i < |items|
          ensures Clean(fields, mask, masked[i]) <==>
                  if items[i].Object? then NestedListsClean(fields, mask, items[i]) else Clean(fields, mask, items[i])
        {
          assert masked[i] == MaskItem(fields, mask, items[i]);
          if items[i].Object? { CleanExactlyWhen(fields, mask, items[i]); }
        }
      case _ =>
    }
  }

  /** `maskBody`: only a body that decodes to an object is rewritten; lists and non-JSON pass as they are. */
  function MaskBody(fields: seq<string>, mask: string, body: Option<Json>): Option<Json> {
    if body.Some? && body.value.Object? then Some(Mask(fields, mask, body.value)) else body
  }

  /** So a body with a list on top is clean only if it was clean to begin with. */
  lemma BodyCleanExactlyWhen(fields: seq<string>, mask: string, v: Json)
    ensures MaskBody(fields, mask, Some(v)).Some?
    ensures Clean(fields, mask, MaskBody(fields, mask, Some(v)).value) <==>
            if v.Object? then NestedListsClean(fields, mask, v) else Clean(fields, mask, v)
  {
    CleanExactlyWhen(fields, mask, v);
  }

  const SECRET := Object(map["password" := Str("hunter2")])

  lemma SecretIsNotClean()
    ensures !Clean(["password"], "***", SECRET)
  {
    assert "password"[0..] == "password" && StartsWithFold("password"[0..], "password");
    assert Occurs(["password"][0], "password");
    assert SECRET.fields["password"] == Str("hunter2") && |"hunter2"| != |"***"|;
  }

  /** A sensitive value that survives in a list inside a list. */
  lemma NestedListLeak()
    ensures !Clean(["password"], "***", MaskValue(["password"], "***", Object(map["rows" := List([List([SECRET])])])))
  {
    hide Mask, MaskValue, MaskItem, Sensitive;
    var inner := List([SECRET]);
    var outer := List([inner]);
    var v := Object(map["rows" := outer]);
    SecretIsNotClean();
    assert SECRET == inner.items[0] && inner == outer.items[0];
    assert !Clean(["password"], "***", inner) && !NestedListsClean(["password"], "***", outer);
    RowsAreNotPasswords();
    assert outer == v.fields["rows"];
    CleanExactlyWhen(["password"], "***", v);
  }

  /** And one in a body whose top is a list. */
  lemma ListBodyLeak()
    ensures MaskBody(["password"], "***", Some(List([SECRET]))) == Some(List([SECRET]))
    ensures !Clean(["password"], "***", List([SECRET]))
  {
    SecretIsNotClean();
    assert List([SECRET]).items[0] == SECRET;
  }

  lemma RowsAreNotPasswords()
    ensures !Sensitive(["password"], "rows")
  {
  }

  // ---------------------------------------------------------------- JSON on the heap

  /**
   * What a decoded map stores under a key.  Go maps are references, so nested maps are objects;
   * `maskMap` never looks inside a list that is itself an item of a list, so such an item is a value.
   */
  datatype Item = Plain(v: Json) | Nested(m: JsonMap)

  datatype Field = Leaf(v: Json) | Child(m: JsonMap) | Items(items: seq<Item>)

  /** The maps held directly by a field. */
  function Maps(f: Field): set<JsonMap> {
    match f
    case Leaf(_) => {}
    case Child(m) => {m}
    case Items(items) => set i | i in items && i.Nested? :: i.m
  }

  /** What decoding builds: maps are references wherever `maskMap` would look for them. */
  predicate Shaped(f: Field) {
    match f
    case Leaf(v) => !v.Object? && !v.List?
    case Child(_) => true
    case Items(items) => forall i :: 0 <= i < |items| && items[i].Plain? ==> !items[i].v.Object?
  }

  /** Everything reachable from a field. */
  ghost function Footprint(f: Field): set<JsonMap>
  {
    set n, o | n in Maps(f) && o in n.repr :: o
  }

  ghost predicate Apart(items: seq<Item>) {
    forall i, j :: 0 <= i < j < |items| && items[i].Nested? && items[j].Nested? ==> items[i].m.repr !! items[j].m.repr
  }

  /** The maps reachable from a field form separate trees. */
  ghost predicate Sound(f: Field)
    reads Maps(f), Footprint(f)
    ensures Sound(f) ==> Maps(f) <= Footprint(f)
    decreases Footprint(f), 1
  {
    && Shaped(f)
    && (forall m :: m in Maps(f) ==> m.repr <= Footprint(f) && m.Valid())
    && (f.Items? ==> Apart(f.items))
  }

  /** `v` is the JSON a field stands for. */
  ghost predicate Denotes(f: Field, v: Json)
    reads Maps(f)
  {
    match f
    case Leaf(w) => v == w
    case Child(m) => v == Object(m.value)
    case Items(items) =>
      v.List? && |v.items| == |items| && forall i :: 0 <= i < |items| ==> ItemDenotes(items[i], v.items[i])
  }

  ghost predicate ItemDenotes(item: Item, v: Json)
    reads if item.Nested? then {item.m} else {}
  {
    match item
    case Plain(w) => v == w
    case Nested(m) => v == Object(m.value)
  }

  /** The footprints of a map's fields lie inside its own and apart from each other. */
  ghost predicate Laid(m: JsonMap, entries: map<string, Field>) {
    && m in m.repr
    && (forall k :: k in entries ==> Maps(entries[k]) <= Footprint(entries[k]) <= m.repr - {m})
    && (forall k, l :: k in entries && l in entries && k != l ==> Footprint(entries[k]) !! Footprint(entries[l]))
  }

  class JsonMap {
    var entries: map<string, Field>
    ghost const repr: set<JsonMap>      // this map and every map below it
    ghost var value: map<string, Json>  // the JSON this map stands for

    /** Decoding: a new map over fields that are trees apart from each other. */
    constructor (fields: map<string, Field>, ghost value: map<string, Json>, ghost below: set<JsonMap>)
      requires fields.Keys == value.Keys
      requires forall k :: k in fields ==> Footprint(fields[k]) <= below
      requires forall k :: k in fields ==> Sound(fields[k]) && Denotes(fields[k], value[k])
      requires forall k, l :: k in fields && l in fields && k != l ==> Footprint(fields[k]) !! Footprint(fields[l])
      ensures Valid() && this.value == value && entries == fields && repr == {this} + below
    {
      hide Sound, Denotes, Footprint, Maps, Shaped;
      entries := fields;
      this.value := value;
      repr := {this} + below;
    }

    /** The maps from here down form a tree, and `value` is what they stand for. */
    ghost predicate Valid()
      reads this, repr
      ensures Valid() ==> this in repr
      decreases repr, 0
    {
      && Laid(this, entries)
      && entries.Keys == value.Keys
      && (forall k :: k in entries ==> Sound(entries[k]) && Denotes(entries[k], value[k]))
    }
  }

  lemma ItemInFootprint(items: seq<Item>, i: nat)
    requires i < |items| && items[i].Nested?
    ensures items[i].m.repr <= Footprint(Items(items))
  {
    assert items[i] in items && items[i].m in Maps(Items(items));
  }

  // ---------------------------------------------------------------- to the heap and back

  /** `json.Unmarshal` of an object: a fresh tree of maps. */
  method DecodeObject(v: Json) returns (m: JsonMap)
    requires v.Object?
    ensures m.Valid() && m.value == v.fields && fresh(m.repr)
    decreases v, 0
  {
    hide Sound, Denotes, Footprint, Maps, JsonMap.Valid;
    var entries: map<string, Field> := map[];
    ghost var below: set<JsonMap> := {};
    var rest := v.fields.Keys;
    while rest != {}
      invariant rest <= v.fields.Keys && entries.Keys == v.fields.Keys - rest && fresh(below)
      invariant forall k :: k in entries ==> Footprint(entries[k]) <= below
      invariant forall k :: k in entries ==> Sound(entries[k]) && Denotes(entries[k], v.fields[k])
      invariant forall k, l :: k in entries && l in entries && k != l ==> Footprint(entries[k]) !! Footprint(entries[l])
      decreases rest
    {
      var key :| key in rest;
      var field := DecodeField(v.fields[key]);
      below := below + Footprint(field);
      entries := entries[key := field];
      rest := rest - {key};
    }
    m := new JsonMap(entries, v.fields, below);
  }

  method DecodeField(v: Json) returns (f: Field)
    ensures Sound(f) && Denotes(f, v) && fresh(Footprint(f))
    decreases v, 1
  {
    match v {
      case Object(_) =>
        var m := DecodeObject(v);
        f := Child(m);
        assert Maps(f) == {m} && Footprint(f) == m.repr;
      case List(items) =>
        f := DecodeItems(items, v);
      case _ =>
        f := Leaf(v);
    }
  }

  method DecodeItems(items: seq<Json>, ghost v: Json) returns (f: Field)
    requires v == List(items)
    ensures Sound(f) && Denotes(f, v) && fresh(Footprint(f))
    decreases v, 0
  {
    var decoded: seq<Item> := [];
    ghost var below: set<JsonMap> := {};
    for i := 0 to |items|
      invariant |decoded| == i && fresh(below) && Apart(decoded)
      invariant forall j :: 0 <= j < i ==> ItemDenotes(decoded[j], items[j])
      invariant forall j :: 0 <= j < i && decoded[j].Plain? ==> !decoded[j].v.Object?
      invariant forall j :: 0 <= j < i && decoded[j].Nested? ==> decoded[j].m.Valid() && decoded[j].m.repr <= below
    {
      hide JsonMap.Valid;
      if items[i].Object? {
        var m := DecodeObject(items[i]);
        decoded := decoded + [Nested(m)];
        below := below + m.repr;
      } else {
        decoded := decoded + [Plain(items[i])];
      }
    }
    f := Items(decoded);
    ItemsSound(decoded, below);
  }

  lemma ItemsSound(items: seq<Item>, below: set<JsonMap>)
    requires Shaped(Items(items)) && Apart(items)
    requires forall i :: 0 <= i < |items| && items[i].Nested? ==> items[i].m.Valid() && items[i].m.repr <= below
    ensures Sound(Items(items)) && Footprint(Items(items)) <= below
  {
    forall m | m in Maps(Items(items)) ensures m.Valid() && m.repr <= below {
      var item :| item in items && item.Nested? && item.m == m;
      var i :| 0 <= i < |items| && items[i] == item;
    }
  }

  /** `json.Marshal`: what the tree stands for. */
  method EncodeObject(m: JsonMap) returns (v: Json)
    requires m.Valid()
    ensures v == Object(m.value)
    decreases m.repr, 1
  {
    hide Sound, Denotes, Footprint, Maps;
    var fields: map<string, Json> := map[];
    var rest := m.entries.Keys;
    while rest != {}
      invariant rest <= m.entries.Keys && fields.Keys == m.entries.Keys - rest
      invariant forall k :: k in fields ==> fields[k] == m.value[k]
      decreases rest
    {
      var key :| key in rest;
      var field := EncodeField(m.entries[key], m.value[key]);
      fields := fields[key := field];
      rest := rest - {key};
    }
    v := Object(fields);
  }

  method EncodeItems(items: seq<Item>, ghost vs: seq<Json>) returns (encoded: seq<Json>)
    requires forall i :: 0 <= i < |items| && items[i].Nested? ==> items[i].m.Valid()
    requires |vs| == |items| && forall i :: 0 <= i < |items| ==> ItemDenotes(items[i], vs[i])
    ensures encoded == vs
    decreases Footprint(Items(items)), 2
  {
    hide JsonMap.Valid, Footprint;
    encoded := [];
    for i := 0 to |items|
      invariant encoded == vs[..i]
    {
      assert ItemDenotes(items[i], vs[i]);
      if items[i].Nested? {
        ItemInFootprint(items, i);
        var v := EncodeObject(items[i].m);
        encoded := encoded + [v];
      } else {
        encoded := encoded + [items[i].v];
      }
    }
  }

  method EncodeField(f: Field, ghost w: Json) returns (v: Json)
    requires Sound(f) && Denotes(f, w)
    ensures v == w
    decreases Footprint(f), 3
  {
    hide JsonMap.Valid;
    match f {
      case Leaf(x) =>
        v := x;
      case Child(m) =>
        assert m in Maps(f);
        v := EncodeObject(m);
      case Items(items) =>
        var encoded := EncodeItems(items, w.items);
        v := List(encoded);
    }
  }

  // ---------------------------------------------------------------- the walk

  lemma StillLaid(m: JsonMap, before: map<string, Field>, after: map<string, Field>)
    requires Laid(m, before) && before.Keys == after.Keys
    requires forall k :: k in before ==> after[k] == before[k] || (Footprint(after[k]) == {} == Maps(after[k]))
    ensures Laid(m, after)
  {
    hide Footprint, Maps;
  }

  /** A map whose fields were masked one by one is again a tree that stands for its value. */
  lemma Rebuilt(m: JsonMap, before: map<string, Field>, sensitive: string -> bool, mask: string)
    requires Laid(m, before) && m.entries.Keys == m.value.Keys == before.Keys
    requires forall k :: k in before ==> m.entries[k] == if sensitive(k) then Leaf(Str(mask)) else before[k]
    requires forall k :: k in before && sensitive(k) ==> m.value[k] == Str(mask)
    requires forall k :: k in before && !sensitive(k) ==> Sound(before[k]) && Denotes(before[k], m.value[k])
    ensures m.Valid()
  {
    LeafIsSound(mask);
    hide Sound, Denotes, Footprint, Maps, Laid;
    StillLaid(m, before, m.entries);
  }

  lemma LeafIsSound(mask: string)
    ensures var leaf := Leaf(Str(mask)); Sound(leaf) && Footprint(leaf) == {} == Maps(leaf) && Denotes(leaf, Str(mask))
  {
  }

  class Masker {
    const fields: seq<string>
    const mask: string

    /** An empty mask value stands for three asterisks. */
    constructor (fields: seq<string>, mask: string)
      ensures this.fields == fields
      ensures this.mask == (if mask == "" then "***" else mask)
    {
      this.fields := fields;
      this.mask := if mask == "" then "***" else mask;
    }

    /** Walks into the items of a list that are maps. */
    method MaskItems(items: seq<Item>, ghost vs: seq<Json>)
      requires forall i :: 0 <= i < |items| && items[i].Plain? ==> !items[i].v.Object?
      requires forall i :: 0 <= i < |items| && items[i].Nested? ==> items[i].m.Valid()
      requires Apart(items)
      requires |vs| == |items| && forall i :: 0 <= i < |items| ==> ItemDenotes(items[i], vs[i])
      modifies Footprint(Items(items))
      ensures forall i :: 0 <= i < |items| && items[i].Nested? ==> items[i].m.Valid()
      ensures forall i :: 0 <= i < |items| ==> ItemDenotes(items[i], MaskItem(fields, mask, vs[i]))
      decreases Footprint(Items(items)), 2
    {
      hide Mask, JsonMap.Valid, Footprint;
      for i := 0 to |items|
        invariant forall j :: 0 <= j < |items| && items[j].Nested? ==> items[j].m.Valid()
        invariant forall j :: 0 <= j < i ==> ItemDenotes(items[j], MaskItem(fields, mask, vs[j]))
        invariant forall j :: i <= j < |items| ==> ItemDenotes(items[j], vs[j])
      {
        if items[i].Nested? {
          ItemInFootprint(items, i);
          MaskMap(items[i].m);
        }
      }
    }

    /** Walks into whatever maps a field holds. */
    method MaskNested(f: Field, ghost v: Json)
      requires Sound(f) && Denotes(f, v)
      modifies Footprint(f)
      ensures Sound(f) && Denotes(f, MaskValue(fields, mask, v))
      decreases Footprint(f), 3
    {
      hide Mask, JsonMap.Valid;
      match f {
        case Leaf(_) =>
        case Child(m) =>
          assert m in Maps(f);
          MaskMap(m);
        case Items(items) =>
          MaskItems(items, v.items);
      }
    }

    /** The loop over the patterns: every match writes the mask again. */
    method MaskKey(m: JsonMap, key: string)
      requires key in m.entries
      modifies m`entries
      ensures m.entries == old(m.entries[key := if Sensitive(fields, key) then Leaf(Str(mask)) else m.entries[key]])
      ensures Sensitive(fields, key) <==> exists i :: 0 <= i < |fields| && Contains(key, fields[i])
    {
      SensitiveExactlyWhen(fields, key);
      hide Contains;
      var seen := m.entries;
      for i := 0 to |fields|
        invariant m.entries == (if Sensitive(fields[..i], key) then seen[key := Leaf(Str(mask))] else seen)
      {
        if Occurs(fields[i], key) {
          m.entries := m.entries[key := Leaf(Str(mask))];
        }
      }
      assert fields[..|fields|] == fields;
    }

    /** One turn of the range; the value is read before its key is overwritten. */
    method MaskEntry(m: JsonMap, key: string, ghost v: Json)
      requires key in m.entries && Sound(m.entries[key]) && Denotes(m.entries[key], v)
      requires m !in Footprint(m.entries[key]) && m !in Maps(m.entries[key])
      modifies m`entries, Footprint(m.entries[key])
      ensures m.entries == old(m.entries[key := if Sensitive(fields, key) then Leaf(Str(mask)) else m.entries[key]])
      ensures Sound(old(m.entries[key])) && Denotes(old(m.entries[key]), MaskValue(fields, mask, v))
      decreases Footprint(m.entries[key]), 4
    {
      hide MaskValue, Mask, Sound, Denotes, Sensitive;
      var value := m.entries[key];
      MaskKey(m, key);
      MaskNested(value, v);
    }

    /** The range over the keys, in any order. */
    method MaskEntries(m: JsonMap, ghost vs: map<string, Json>)
      requires Laid(m, m.entries) && m.entries.Keys == vs.Keys
      requires forall k :: k in m.entries ==> Sound(m.entries[k]) && Denotes(m.entries[k], vs[k])
      modifies m, m.repr
      ensures Object(m.value) == Mask(fields, mask, Object(vs))
      ensures m.entries.Keys == old(m.entries.Keys)
      ensures forall k :: k in m.entries ==>
                m.entries[k] == if Sensitive(fields, k) then Leaf(Str(mask)) else old(m.entries[k])
      ensures forall k :: k in m.entries ==>
                Sound(old(m.entries[k])) && Denotes(old(m.entries[k]), MaskValue(fields, mask, vs[k]))
      decreases m.repr, 0
    {
      hide MaskValue, Mask, Sound, Footprint, Denotes, Maps, Sensitive, JsonMap.Valid, Shaped;
      ghost var before := m.entries;
      m.value := Mask(fields, mask, Object(vs)).fields;
      var rest := m.entries.Keys;
      while rest != {}
        invariant rest <= before.Keys == m.entries.Keys && Object(m.value) == Mask(fields, mask, Object(vs))
        invariant forall k :: k in before ==>
          m.entries[k] == (if k !in rest && Sensitive(fields, k) then Leaf(Str(mask)) else before[k])
        invariant forall k :: k in before ==>
          Sound(before[k]) && Denotes(before[k], if k in rest then vs[k] else MaskValue(fields, mask, vs[k]))
        decreases rest
      {
        var key :| key in rest;
        MaskEntry(m, key, vs[key]);
        rest := rest - {key};
      }
    }

    /** `maskMap`: the map ends up standing for the masked form of what it stood for. */
    method MaskMap(m: JsonMap)
      requires m.Valid()
      modifies m.repr
      ensures m.Valid()
      ensures Object(m.value) == Mask(fields, mask, Object(old(m.value)))
      decreases m.repr, 1
    {
      hide Mask, MaskValue, Sound, Denotes, Footprint, Maps, Sensitive, Laid;
      ghost var before, vs := m.entries, m.value;
      MaskEntries(m, vs);
      FieldsOfMask(fields, mask, vs);
      hide JsonMap.Valid;
      Rebuilt(m, before, k => Sensitive(fields, k), mask);
    }

    lemma MaskedAtTop(body: Option<Json>)
      requires body.Some? && body.value.Object?
      ensures var masked := Mask(fields, mask, body.value).fields;
              && masked.Keys == body.value.fields.Keys
              && forall k :: k in body.value.fields ==>
                   if exists i :: 0 <= i < |fields| && Contains(k, fields[i]) then masked[k] == Str(mask)
                   else body.value.fields[k].Scalar? || body.value.fields[k].Str? ==> masked[k] == body.value.fields[k]
    {
      hide Contains, Sensitive;
      forall k | k in body.value.fields
        ensures Sensitive(fields, k) <==> exists i :: 0 <= i < |fields| && Contains(k, fields[i])
      {
        SensitiveExactlyWhen(fields, k);
      }
      FieldsOfMask(fields, mask, body.value.fields);
      hide Mask;
    }

    /** `maskBody` on the heap: decode, mask in place, encode.  What is not an object passes as it is. */
    method MaskInPlace(body: Option<Json>) returns (masked: Option<Json>)
      ensures masked == MaskBody(fields, mask, body)
      ensures body.Some? && body.value.Object? ==>
                && masked.Some? && masked.value.Object? && masked.value.fields.Keys == body.value.fields.Keys
                && forall k :: k in body.value.fields ==>
                     var was, now := body.value.fields[k], masked.value.fields[k];
                     if exists i :: 0 <= i < |fields| && Contains(k, fields[i]) then now == Str(mask)
                     else was.Scalar? || was.Str? ==> now == was
      ensures body.None? || !body.value.Object? ==> masked == body
    {
      if body.None? || !body.value.Object? {
        return body;
      }
      MaskedAtTop(body);
      hide Contains, Mask, Sensitive;
      var m := DecodeObject(body.value);
      MaskMap(m);
      var v := EncodeObject(m);
      masked := Some(v);
    }
  }
}
