/** The view mappers that recurse into each other (a district lists its
    streets, a street lists its districts) and the structure view that
    embeds them, in knk-web-app/src/utils/domain/dto/{district,street}/,
    src/utils/domain/dto/{District,Street,Structure}ViewDTO.ts and
    src/utils/domain/dto/structure/StructureViewDTO.ts. Values are finite
    trees, so the recursion ends: each call goes to a value read out of
    the one before. */
module DistrictStreetViews {
  import opened JsValues
  import Text
  import Seqs
  import DtoUtils
  import opened ViewMappers

  /** A property read is undefined or one of the object's own values. */
  lemma GetIsEntry(v: Value, k: string)
    ensures Get(v, k) == Undefined || (v.Obj? && exists i :: 0 <= i < |v.entries| && Get(v, k) == v.entries[i].1)
  {
    if v.Obj? {
      LookupIsEntry(v.entries, k);
    }
  }

  // ----- Map -----

  /** The entries of a `Map`, in insertion order. */
  type Pairs = seq<(Value, Value)>

  /** `m.set(k, v)`: overwrites in place when the key is present, else
      appends. Keys compare as values (NaN equals NaN, as in a Map). */
  function MapSet(m: Pairs, k: Value, v: Value): Pairs
    decreases |m|
  {
    if |m| == 0 then [(k, v)]
    else if m[0].0 == k then [(k, v)] + m[1..]
    else [m[0]] + MapSet(m[1..], k, v)
  }

  /** `m.get(k)` */
  function MapGet(m: Pairs, k: Value): Value
    decreases |m|
  {
    if |m| == 0 then Undefined else if m[0].0 == k then m[0].1 else MapGet(m[1..], k)
  }

  function MapKeys(m: Pairs): seq<Value> {
    seq(|m|, i requires 0 <= i < |m| => m[i].0)
  }

  predicate DistinctMapKeys(m: Pairs) {
    forall i, j :: 0 <= i < j < |m| ==> m[i].0 != m[j].0
  }

  /** `new Map(list)`: each pair is set in turn. */
  function MapFrom(list: Pairs): Pairs
    decreases |list|
  {
    if |list| == 0 then [] else MapSet(MapFrom(list[..|list| - 1]), list[|list| - 1].0, list[|list| - 1].1)
  }

  lemma {:induction false} MapSetGet(m: Pairs, k: Value, v: Value, j: Value)
    ensures MapGet(MapSet(m, k, v), j) == if j == k then v else MapGet(m, j)
    decreases |m|
  {
    if |m| > 0 && m[0].0 != k {
      MapSetGet(m[1..], k, v, j);
      assert MapSet(m, k, v)[1..] == MapSet(m[1..], k, v);
    }
  }

  /** Setting adds the key once and keeps the keys distinct. */
  lemma {:induction false} MapSetKeys(m: Pairs, k: Value, v: Value)
    requires DistinctMapKeys(m)
    ensures DistinctMapKeys(MapSet(m, k, v))
    ensures forall j :: j in MapKeys(MapSet(m, k, v)) <==> j == k || j in MapKeys(m)
    ensures |MapSet(m, k, v)| == if k in MapKeys(m) then |m| else |m| + 1
    decreases |m|
  {
    var r := MapSet(m, k, v);
    if |m| == 0 {
      assert MapKeys(r) == [k];
    } else {
      assert MapKeys(m) == [m[0].0] + MapKeys(m[1..]);
      assert DistinctMapKeys(m[1..]);
      if m[0].0 == k {
        assert MapKeys(m)[0] == k;
        assert forall i :: 0 <= i < |r| ==> r[i].0 == m[i].0;
        assert MapKeys(r) == MapKeys(m);
      } else {
        MapSetKeys(m[1..], k, v);
        var rest := MapSet(m[1..], k, v);
        assert r == [m[0]] + rest;
        assert MapKeys(r) == [m[0].0] + MapKeys(rest);
        assert m[0].0 !in MapKeys(m[1..]) by {
          forall t | 0 <= t < |m| - 1 ensures MapKeys(m[1..])[t] != m[0].0 {
            assert m[1..][t] == m[t + 1];
          }
        }
        forall i, j | 0 <= i < j < |r| ensures r[i].0 != r[j].0 {
          if i == 0 {
            assert r[j].0 == MapKeys(rest)[j - 1];
          } else {
            assert r[i] == rest[i - 1] && r[j] == rest[j - 1];
          }
        }
      }
    }
  }

  /** The map built from a list holds each key of the list once, and
      nothing else. */
  lemma {:induction false} MapFromKeys(list: Pairs)
    ensures DistinctMapKeys(MapFrom(list))
    ensures forall k :: k in MapKeys(MapFrom(list)) <==> exists i :: 0 <= i < |list| && list[i].0 == k
    ensures |MapFrom(list)| <= |list|
    decreases |list|
  {
    if |list| > 0 {
      var init := list[..|list| - 1];
      MapFromKeys(init);
      MapSetKeys(MapFrom(init), list[|list| - 1].0, list[|list| - 1].1);
      forall k ensures (exists i :: 0 <= i < |list| && list[i].0 == k) ==> k in MapKeys(MapFrom(list)) {
        if exists i :: 0 <= i < |list| && list[i].0 == k {
          var i :| 0 <= i < |list| && list[i].0 == k;
          if i < |list| - 1 {
            assert init[i].0 == k;
          }
        }
      }
    }
  }

  /** For a key set more than once, the last value set wins. */
  lemma {:induction false} MapFromLast(list: Pairs, j: int)
    requires 0 <= j < |list|
    requires forall m :: j < m < |list| ==> list[m].0 != list[j].0
    ensures MapGet(MapFrom(list), list[j].0) == list[j].1
    decreases |list|
  {
    var n := |list| - 1;
    MapSetGet(MapFrom(list[..n]), list[n].0, list[n].1, list[j].0);
    if j < n {
      MapFromLast(list[..n], j);
    }
  }

  /** A key no pair carries is not in the map. */
  lemma {:induction false} MapFromAbsent(list: Pairs, k: Value)
    requires forall m :: 0 <= m < |list| ==> list[m].0 != k
    ensures MapGet(MapFrom(list), k) == Undefined
    decreases |list|
  {
    if |list| > 0 {
      var n := |list| - 1;
      MapSetGet(MapFrom(list[..n]), list[n].0, list[n].1, k);
      MapFromAbsent(list[..n], k);
    }
  }

  // ----- StreetNames -----

  /** `Object.entries(v)` for a value whose typeof is "object": an
      object's own entries, an array's indices and elements, and none for
      dates, maps and sets. */
  function ObjectEntries(v: Value): Entries {
    match v
    case Obj(e) => e
    case Arr(items) => seq(|items|, i requires 0 <= i < |items| => (Text.IntToString(i), items[i]))
    case _ => []
  }

  /** The `StreetNames` normalisation of the knk district view: a falsy
      value gives an empty Map, a Map passes through, any other object
      becomes a Map of `Number(key)` to `String(value)`, and anything else
      gives an empty Map. */
  function StreetNames(v: Value, loc: Locale): Value {
    if !Truthy(v) then MapV([])
    else if v.MapV? then v
    else if TypeOf(v) == "object" then
      var e := ObjectEntries(v);
      MapV(MapFrom(seq(|e|, i requires 0 <= i < |e| => (ToNumber(Str(e[i].0)), Str(ToStr(e[i].1, loc))))))
    else MapV([])
  }

  /** An object's entry whose numeric key no later entry repeats maps
      `Number(key)` to `String(value)`, and the Map's keys are exactly the
      numeric keys of the entries. */
  lemma StreetNamesOfObject(e: Entries, loc: Locale, j: int)
    requires 0 <= j < |e|
    requires forall m :: j < m < |e| ==> ToNumber(Str(e[m].0)) != ToNumber(Str(e[j].0))
    ensures StreetNames(Obj(e), loc).MapV?
    ensures MapGet(StreetNames(Obj(e), loc).pairs, ToNumber(Str(e[j].0))) == Str(ToStr(e[j].1, loc))
    ensures forall k :: k in MapKeys(StreetNames(Obj(e), loc).pairs) <==>
      exists i :: 0 <= i < |e| && k == ToNumber(Str(e[i].0))
  {
    var list := seq(|e|, i requires 0 <= i < |e| => (ToNumber(Str(e[i].0)), Str(ToStr(e[i].1, loc))));
    assert forall i :: 0 <= i < |e| ==> list[i].0 == ToNumber(Str(e[i].0));
    MapFromLast(list, j);
    MapFromKeys(list);
  }

  /** A falsy value gives an empty Map; a Map is returned unchanged; a
      truthy value that is not an object gives an empty Map. */
  lemma StreetNamesCases(v: Value, loc: Locale)
    ensures !Truthy(v) ==> StreetNames(v, loc) == MapV([])
    ensures v.MapV? ==> StreetNames(v, loc) == v
    ensures TypeOf(v) != "object" ==> StreetNames(v, loc) == MapV([])
    ensures StreetNames(v, loc).MapV?
  {
  }

  /** An array's entries are keyed by its indices, so element `i` is
      named under the number `i`. */
  lemma StreetNamesOfArray(items: seq<Value>, loc: Locale, i: int)
    requires 0 <= i < |items|
    ensures MapGet(StreetNames(Arr(items), loc).pairs, Num(i)) == Str(ToStr(items[i], loc))
  {
    var e := ObjectEntries(Arr(items));
    var list := seq(|e|, m requires 0 <= m < |e| => (ToNumber(Str(e[m].0)), Str(ToStr(e[m].1, loc))));
    forall m | 0 <= m < |e| ensures list[m].0 == Num(m) {
      StrToNumberOfIntToString(m);
    }
    MapFromLast(list, i);
  }

  // ----- records shared by the district and street views -----

  /** `data.Districts || data.districts || []` */
  function DistrictSource(data: Value): Value {
    Or(Get(data, "Districts"), Or(Get(data, "districts"), Arr([])))
  }

  /** The knk district record: `{ ...dominionForm, town, streets, streetNames }`. */
  function DistrictRecord(dominionForm: Value, town: Value, streets: Value, streetNames: Value): Value {
    Obj(Assign(SpreadOf(dominionForm), [("town", town), ("streets", streets), ("streetNames", streetNames)]))
  }

  /** Over a dominion form, the record appends the three keys and keeps
      every other key's value. */
  lemma DistrictRecordShape(dominionForm: Value, town: Value, streets: Value, streetNames: Value, k: string)
    requires dominionForm.Obj? && Keys(dominionForm.entries) == DominionViewKeys
    ensures Keys(DistrictRecord(dominionForm, town, streets, streetNames).entries) ==
      DominionViewKeys + ["town", "streets", "streetNames"]
    ensures Get(DistrictRecord(dominionForm, town, streets, streetNames), k) ==
      if k == "town" then town else if k == "streets" then streets else if k == "streetNames" then streetNames
      else Get(dominionForm, k)
  {
    var over := [("town", town), ("streets", streets), ("streetNames", streetNames)];
    assert Keys(over) == ["town", "streets", "streetNames"];
    LookupAssign(dominionForm.entries, over, k);
    DtoUtils.LookupAt(over, 1);
    DtoUtils.LookupAt(over, 2);
    AssignFresh(dominionForm.entries, over);
  }

  /** The flat district record: `{ ...dominionForm, Town, Streets }`. */
  function FlatDistrictRecord(dominionForm: Value, town: Value, streets: Value): Value {
    Obj(Assign(SpreadOf(dominionForm), [("Town", town), ("Streets", streets)]))
  }

  lemma FlatDistrictRecordShape(dominionForm: Value, town: Value, streets: Value, k: string)
    requires dominionForm.Obj? && Keys(dominionForm.entries) == DominionViewKeys
    ensures Keys(FlatDistrictRecord(dominionForm, town, streets).entries) == DominionViewKeys + ["Town", "Streets"]
    ensures Get(FlatDistrictRecord(dominionForm, town, streets), k) ==
      if k == "Town" then town else if k == "Streets" then streets else Get(dominionForm, k)
  {
    var over := [("Town", town), ("Streets", streets)];
    assert Keys(over) == ["Town", "Streets"];
    LookupAssign(dominionForm.entries, over, k);
    AssignFresh(dominionForm.entries, over);
  }

  /** The keys a street record is written under. */
  const KnkStreetFields: (string, string, string) := ("id", "name", "districts")
  const FlatStreetFields: (string, string, string) := ("Id", "Name", "Districts")

  /** `{ id: data.Id || data.id, name: data.Name || data.name, districts }`
      under the given keys. */
  function StreetRecord(fields: (string, string, string), data: Value, districts: Value): Value {
    Obj([(fields.0, Or(Get(data, "Id"), Get(data, "id"))), (fields.1, Or(Get(data, "Name"), Get(data, "name"))),
         (fields.2, districts)])
  }

  /** Exactly three keys; a falsy `Id` or `Name` falls back to the
      lower-case key. */
  lemma StreetRecordShape(fields: (string, string, string), data: Value, districts: Value)
    requires fields == KnkStreetFields || fields == FlatStreetFields
    ensures Keys(StreetRecord(fields, data, districts).entries) == [fields.0, fields.1, fields.2]
    ensures Get(StreetRecord(fields, data, districts), fields.0) ==
      if Truthy(Get(data, "Id")) then Get(data, "Id") else Get(data, "id")
    ensures Get(StreetRecord(fields, data, districts), fields.1) ==
      if Truthy(Get(data, "Name")) then Get(data, "Name") else Get(data, "name")
    ensures Get(StreetRecord(fields, data, districts), fields.2) == districts
  {
    var e := StreetRecord(fields, data, districts).entries;
    DtoUtils.LookupAt(e, 1);
    DtoUtils.LookupAt(e, 2);
  }

  // ----- knk district and street views -----

  /** `data.Town ? mapTown(data.Town) : null`; the town view cannot throw
      on a truthy town. */
  function KnkTownOf(data: Value, loc: Locale): (r: Value)
    ensures r == Null <==> !Truthy(Get(data, "Town"))
  {
    var town := Get(data, "Town");
    if Truthy(town) then KnkTownView(town, loc).value else Null
  }

  /** knk-web-app/src/utils/domain/dto/district/DistrictViewDTO.ts */
  function KnkDistrictView(data: Value, loc: Locale): Mapped
    decreases data, 1
  {
    if !Truthy(data) then Ok(Null)
    else
      var dominionForm := DominionViewKnk(data, loc);
      if !Truthy(dominionForm) then Ok(Null)
      else
        var streets := KnkStreets(data, loc);
        if streets.Threw? then Threw
        else
          Ok(DistrictRecord(dominionForm, KnkTownOf(data, loc), Arr(FilterTruthy(streets.value.items)),
                            StreetNames(Get(data, "StreetNames"), loc)))
  }

  /** `Array.isArray(data.Streets) ? data.Streets.map(street) : []`,
      before the falsy results are dropped. */
  function KnkStreets(data: Value, loc: Locale): (r: Mapped)
    ensures r.Ok? ==> r.value.Arr?
    decreases data, 0
  {
    GetIsEntry(data, "Streets");
    match Get(data, "Streets")
    case Arr(items) => Collect(seq(|items|, i requires 0 <= i < |items| => KnkStreetView(items[i], loc)))
    case _ => Ok(Arr([]))
  }

  /** knk-web-app/src/utils/domain/dto/street/StreetViewDTO.ts */
  function KnkStreetView(data: Value, loc: Locale): Mapped
    decreases data, 1
  {
    if !Truthy(data) then Ok(Null)
    else
      var districts := KnkDistricts(data, loc);
      if districts.Threw? then Threw
      else Ok(StreetRecord(KnkStreetFields, data, Arr(FilterTruthy(districts.value.items))))
  }

  /** `(data.Districts || data.districts || []).map(district)`; a truthy
      source that is not an array has no `map` and throws. */
  function KnkDistricts(data: Value, loc: Locale): (r: Mapped)
    ensures r.Ok? ==> r.value.Arr?
    decreases data, 0
  {
    GetIsEntry(data, "Districts");
    GetIsEntry(data, "districts");
    match DistrictSource(data)
    case Arr(items) => Collect(seq(|items|, i requires 0 <= i < |items| => KnkDistrictView(items[i], loc)))
    case _ => Threw
  }

  /** A falsy district gives null; a truthy one throws exactly when its
      streets do, and otherwise holds the dominion keys, then `town`,
      `streets` (falsy streets dropped) and `streetNames`. The town is null
      exactly when `Town` is falsy. */
  lemma KnkDistrictShape(data: Value, loc: Locale, k: string)
    ensures !Truthy(data) ==> KnkDistrictView(data, loc) == Ok(Null)
    ensures Truthy(data) ==> (KnkDistrictView(data, loc).Ok? <==> KnkStreets(data, loc).Ok?)
    ensures Truthy(data) && KnkDistrictView(data, loc).Ok? ==>
      var out := KnkDistrictView(data, loc).value;
      Keys(out.entries) == DominionViewKeys + ["town", "streets", "streetNames"]
      && (k !in ["town", "streets", "streetNames"] ==> Get(out, k) == Get(DominionViewKnk(data, loc), k))
      && (Get(out, "town") == Null <==> !Truthy(Get(data, "Town")))
      && Get(out, "streetNames") == StreetNames(Get(data, "StreetNames"), loc)
      && Get(out, "streets") == Arr(FilterTruthy(KnkStreets(data, loc).value.items))
  {
    if Truthy(data) {
      DominionViewKnkCases(data, loc);
      var streets := KnkStreets(data, loc);
      if streets.Ok? {
        var form := DominionViewKnk(data, loc);
        var town := KnkTownOf(data, loc);
        var list := Arr(FilterTruthy(streets.value.items));
        var names := StreetNames(Get(data, "StreetNames"), loc);
        assert KnkDistrictView(data, loc) == Ok(DistrictRecord(form, town, list, names));
        DistrictRecordShape(form, town, list, names, k);
        DistrictRecordShape(form, town, list, names, "town");
        DistrictRecordShape(form, town, list, names, "streets");
        DistrictRecordShape(form, town, list, names, "streetNames");
      }
    }
  }

  /** A non-array `Streets` gives no streets; an array gives each element
      through the street view, in order, and throws if any of them does. */
  lemma KnkStreetsMeaning(data: Value, loc: Locale)
    ensures !Get(data, "Streets").Arr? ==> KnkStreets(data, loc) == Ok(Arr([]))
    ensures Get(data, "Streets").Arr? ==>
      var items := Get(data, "Streets").items;
      (KnkStreets(data, loc).Ok? <==> forall i :: 0 <= i < |items| ==> KnkStreetView(items[i], loc).Ok?)
      && (KnkStreets(data, loc).Ok? ==>
            |KnkStreets(data, loc).value.items| == |items|
            && forall i :: 0 <= i < |items| ==> KnkStreetView(items[i], loc) == Ok(KnkStreets(data, loc).value.items[i]))
  {
    if Get(data, "Streets").Arr? {
      var items := Get(data, "Streets").items;
      var ms := seq(|items|, i requires 0 <= i < |items| => KnkStreetView(items[i], loc));
      assert KnkStreets(data, loc) == Collect(ms);
      assert forall i :: 0 <= i < |items| ==> ms[i] == KnkStreetView(items[i], loc);
    }
  }

  /** A falsy street gives null; a truthy one throws exactly when its
      districts do, and otherwise has exactly `id`, `name` and `districts`
      (falsy districts dropped), a falsy `Id` or `Name` falling back to
      `id` or `name`. */
  lemma KnkStreetShape(data: Value, loc: Locale)
    ensures !Truthy(data) ==> KnkStreetView(data, loc) == Ok(Null)
    ensures Truthy(data) ==> (KnkStreetView(data, loc).Ok? <==> KnkDistricts(data, loc).Ok?)
    ensures Truthy(data) && KnkStreetView(data, loc).Ok? ==>
      var out := KnkStreetView(data, loc).value;
      Keys(out.entries) == ["id", "name", "districts"]
      && Get(out, "id") == (if Truthy(Get(data, "Id")) then Get(data, "Id") else Get(data, "id"))
      && Get(out, "name") == (if Truthy(Get(data, "Name")) then Get(data, "Name") else Get(data, "name"))
      && Get(out, "districts") == Arr(FilterTruthy(KnkDistricts(data, loc).value.items))
  {
    if Truthy(data) && KnkDistricts(data, loc).Ok? {
      StreetRecordShape(KnkStreetFields, data, Arr(FilterTruthy(KnkDistricts(data, loc).value.items)));
    }
  }

  /** The districts come from `Districts`, else `districts`, else none; a
      source that is not an array throws, an array gives each element
      through the district view, in order. */
  lemma KnkDistrictsMeaning(data: Value, loc: Locale)
    ensures !DistrictSource(data).Arr? ==> KnkDistricts(data, loc) == Threw
    ensures DistrictSource(data).Arr? ==>
      var items := DistrictSource(data).items;
      (KnkDistricts(data, loc).Ok? <==> forall i :: 0 <= i < |items| ==> KnkDistrictView(items[i], loc).Ok?)
      && (KnkDistricts(data, loc).Ok? ==>
            |KnkDistricts(data, loc).value.items| == |items|
            && forall i :: 0 <= i < |items| ==> KnkDistrictView(items[i], loc) == Ok(KnkDistricts(data, loc).value.items[i]))
  {
    if DistrictSource(data).Arr? {
      var items := DistrictSource(data).items;
      var ms := seq(|items|, i requires 0 <= i < |items| => KnkDistrictView(items[i], loc));
      assert KnkDistricts(data, loc) == Collect(ms);
      assert forall i :: 0 <= i < |items| ==> ms[i] == KnkDistrictView(items[i], loc);
    }
  }

  /** The inputs on which the knk district and street views do not throw:
      every street reachable below has an array (or no) district list. */
  predicate KnkDistrictTree(data: Value)
    decreases data
  {
    !Truthy(data) ||
    (GetIsEntry(data, "Streets");
     match Get(data, "Streets")
     case Arr(items) => forall i :: 0 <= i < |items| ==> KnkStreetTree(items[i])
     case _ => true)
  }

  predicate KnkStreetTree(data: Value)
    decreases data
  {
    !Truthy(data) ||
    (GetIsEntry(data, "Districts");
     GetIsEntry(data, "districts");
     match DistrictSource(data)
     case Arr(items) => forall i :: 0 <= i < |items| ==> KnkDistrictTree(items[i])
     case _ => false)
  }

  /** The knk district view throws exactly when some street below it has
      a truthy district list that is not an array. */
  lemma {:induction false} KnkDistrictThrows(data: Value, loc: Locale)
    ensures KnkDistrictView(data, loc).Ok? <==> KnkDistrictTree(data)
    decreases data, 1
  {
    if Truthy(data) {
      KnkDistrictShape(data, loc, "");
      KnkStreetsMeaning(data, loc);
      GetIsEntry(data, "Streets");
      match Get(data, "Streets")
      case Arr(items) =>
        forall i | 0 <= i < |items| ensures KnkStreetView(items[i], loc).Ok? <==> KnkStreetTree(items[i]) {
          KnkStreetThrows(items[i], loc);
        }
      case _ =>
    }
  }

  lemma {:induction false} KnkStreetThrows(data: Value, loc: Locale)
    ensures KnkStreetView(data, loc).Ok? <==> KnkStreetTree(data)
    decreases data, 0
  {
    if Truthy(data) {
      KnkStreetShape(data, loc);
      KnkDistrictsMeaning(data, loc);
      GetIsEntry(data, "Districts");
      GetIsEntry(data, "districts");
      match DistrictSource(data)
      case Arr(items) =>
        forall i | 0 <= i < |items| ensures KnkDistrictView(items[i], loc).Ok? <==> KnkDistrictTree(items[i]) {
          KnkDistrictThrows(items[i], loc);
        }
      case _ =>
    }
  }

  // ----- flat district and street views -----

  /** src/utils/domain/dto/DistrictViewDTO.ts: no guards, no filtering. */
  function FlatDistrictView(data: Value): Mapped
    decreases data, 1
  {
    match DominionViewFlat(data)
    case Threw => Threw
    case Ok(dominionForm) =>
      match FlatTownView(Get(data, "town"))
      case Threw => Threw
      case Ok(townForm) =>
        var streets := FlatStreets(data);
        if streets.Threw? then Threw else Ok(FlatDistrictRecord(dominionForm, townForm, streets.value))
  }

  /** `data.streets.map(street)`: throws unless `streets` is an array. */
  function FlatStreets(data: Value): (r: Mapped)
    ensures r.Ok? ==> r.value.Arr?
    decreases data, 0
  {
    GetIsEntry(data, "streets");
    match Get(data, "streets")
    case Arr(items) => Collect(seq(|items|, i requires 0 <= i < |items| => FlatStreetView(items[i])))
    case _ => Threw
  }

  /** src/utils/domain/dto/StreetViewDTO.ts */
  function FlatStreetView(data: Value): Mapped
    decreases data, 1
  {
    if !Truthy(data) then Ok(Null)
    else
      var districts := FlatDistricts(data);
      if districts.Threw? then Threw
      else Ok(StreetRecord(FlatStreetFields, data, Arr(FilterTruthy(districts.value.items))))
  }

  function FlatDistricts(data: Value): (r: Mapped)
    ensures r.Ok? ==> r.value.Arr?
    decreases data, 0
  {
    GetIsEntry(data, "Districts");
    GetIsEntry(data, "districts");
    match DistrictSource(data)
    case Arr(items) => Collect(seq(|items|, i requires 0 <= i < |items| => FlatDistrictView(items[i])))
    case _ => Threw
  }

  /** The flat district throws on a missing record, location or town, and
      on a `streets` that is not an array. Otherwise it holds the dominion
      keys, then `Town` (the town view of `data.town`) and `Streets`. */
  lemma FlatDistrictShape(data: Value, k: string)
    ensures FlatDistrictView(data).Ok? <==>
      DominionViewFlat(data).Ok? && FlatTownView(Get(data, "town")).Ok? && FlatStreets(data).Ok?
    ensures !IsNullish(data) && IsNullish(Get(data, "town")) ==> FlatDistrictView(data) == Threw
    ensures FlatDistrictView(data).Ok? ==>
      var out := FlatDistrictView(data).value;
      Keys(out.entries) == DominionViewKeys + ["Town", "Streets"]
      && (k != "Town" && k != "Streets" ==> Get(out, k) == Get(DominionViewFlat(data).value, k))
      && Get(out, "Town") == FlatTownView(Get(data, "town")).value
      && Get(out, "Streets") == FlatStreets(data).value
  {
    DominionViewFlatCases(data);
    DominionViewFlatCases(Get(data, "town"));
    if FlatDistrictView(data).Ok? {
      var form := DominionViewFlat(data).value;
      var town := FlatTownView(Get(data, "town")).value;
      var streets := FlatStreets(data).value;
      FlatDistrictRecordShape(form, town, streets, k);
      FlatDistrictRecordShape(form, town, streets, "Town");
      FlatDistrictRecordShape(form, town, streets, "Streets");
    }
  }

  /** `Streets` is `data.streets` mapped element by element: same length
      and order, nothing dropped. */
  lemma FlatStreetsMeaning(data: Value)
    ensures !Get(data, "streets").Arr? ==> FlatStreets(data) == Threw
    ensures FlatStreets(data).Ok? ==>
      var items := Get(data, "streets").items;
      |FlatStreets(data).value.items| == |items|
      && forall i :: 0 <= i < |items| ==> FlatStreetView(items[i]) == Ok(FlatStreets(data).value.items[i])
  {
    if Get(data, "streets").Arr? {
      var items := Get(data, "streets").items;
      var ms := seq(|items|, i requires 0 <= i < |items| => FlatStreetView(items[i]));
      assert FlatStreets(data) == Collect(ms);
      assert forall i :: 0 <= i < |items| ==> ms[i] == FlatStreetView(items[i]);
    }
  }

  /** The flat street: a falsy one gives null; otherwise exactly `Id`,
      `Name` and `Districts`, with the same fallbacks as the knk street. */
  lemma FlatStreetShape(data: Value)
    ensures !Truthy(data) ==> FlatStreetView(data) == Ok(Null)
    ensures Truthy(data) ==> (FlatStreetView(data).Ok? <==> FlatDistricts(data).Ok?)
    ensures Truthy(data) && !DistrictSource(data).Arr? ==> FlatStreetView(data) == Threw
    ensures Truthy(data) && FlatStreetView(data).Ok? ==>
      var out := FlatStreetView(data).value;
      Keys(out.entries) == ["Id", "Name", "Districts"]
      && Get(out, "Id") == (if Truthy(Get(data, "Id")) then Get(data, "Id") else Get(data, "id"))
      && Get(out, "Name") == (if Truthy(Get(data, "Name")) then Get(data, "Name") else Get(data, "name"))
      && Get(out, "Districts") == Arr(FilterTruthy(FlatDistricts(data).value.items))
  {
    if Truthy(data) && FlatDistricts(data).Ok? {
      StreetRecordShape(FlatStreetFields, data, Arr(FilterTruthy(FlatDistricts(data).value.items)));
    }
  }

  // ----- structure views -----

  /** The keys the two structure street mappers read and write. */
  datatype StreetKeys = StreetKeys(list: string, id: string, name: string, outId: string, outName: string, outList: string)

  /** src/utils/domain/dto/structure/StructureViewDTO.ts reads PascalCase
      and writes camelCase; src/utils/domain/dto/StructureViewDTO.ts the
      reverse. */
  const NestedStreetKeys := StreetKeys("Districts", "Id", "Name", "id", "name", "districts")
  const FlatStreetKeys := StreetKeys("districts", "id", "name", "Id", "Name", "Districts")

  /** What `v?.forEach(f)` visits: nothing for a missing value, the
      elements of an array or set, the values of a map; `None` when `v`
      has no `forEach` and the call throws. */
  function ForEachItems(v: Value): Option<seq<Value>> {
    match v
    case Undefined => Some([])
    case Null => Some([])
    case Arr(items) => Some(items)
    case SetV(elems) => Some(elems)
    case MapV(pairs) => Some(seq(|pairs|, i requires 0 <= i < |pairs| => pairs[i].1))
    case _ => None
  }

  /** `(d.id, d.name)` for each visited district. */
  function DistrictPairs(ds: seq<Value>): Pairs {
    seq(|ds|, i requires 0 <= i < |ds| => (Get(ds[i], "id"), Get(ds[i], "name")))
  }

  /** The district Map of a structure's street: `d.id` to `d.name`, set in
      order; reading a property of a missing district throws. */
  function DistrictsMap(ds: seq<Value>): Mapped {
    if exists i :: 0 <= i < |ds| && IsNullish(ds[i]) then Threw else Ok(MapV(MapFrom(DistrictPairs(ds))))
  }

  /** The `forEach` loop that fills the district Map. */
  method BuildDistrictsMap(ds: seq<Value>) returns (r: Mapped)
    ensures r == DistrictsMap(ds)
  {
    var districts: Pairs := [];
    var i := 0;
    while i < |ds|
      invariant 0 <= i <= |ds|
      invariant forall j :: 0 <= j < i ==> !IsNullish(ds[j])
      invariant districts == MapFrom(DistrictPairs(ds[..i]))
    {
      if IsNullish(ds[i]) {
        return Threw;
      }
      assert DistrictPairs(ds[..i + 1])[..i] == DistrictPairs(ds[..i]);
      districts := MapSet(districts, Get(ds[i], "id"), Get(ds[i], "name"));
      i := i + 1;
    }
    assert ds[..i] == ds;
    return Ok(MapV(districts));
  }

  /** `mapStreetFieldDataToForm` of either structure view. */
  function StructureStreetView(data: Value, keys: StreetKeys): Mapped {
    if IsNullish(data) then Threw
    else
      match ForEachItems(Get(data, keys.list))
      case None => Threw
      case Some(ds) =>
        match DistrictsMap(ds)
        case Threw => Threw
        case Ok(districts) => Ok(Obj([(keys.outId, Get(data, keys.id)), (keys.outName, Get(data, keys.name)),
                                      (keys.outList, districts)]))
  }

  /** The street mapper with its loop. */
  method StreetFieldDataToForm(data: Value, keys: StreetKeys) returns (r: Mapped)
    ensures r == StructureStreetView(data, keys)
  {
    if IsNullish(data) {
      return Threw;
    }
    var visited := ForEachItems(Get(data, keys.list));
    if visited.None? {
      return Threw;
    }
    var districts := BuildDistrictsMap(visited.value);
    if districts.Threw? {
      return Threw;
    }
    r := Ok(Obj([(keys.outId, Get(data, keys.id)), (keys.outName, Get(data, keys.name)),
                 (keys.outList, districts.value)]));
  }

  /** The street's district Map holds one entry per distinct district id,
      the last name given for that id, and is empty for a missing list. */
  lemma StreetDistrictsMeaning(ds: seq<Value>, j: int)
    requires forall i :: 0 <= i < |ds| ==> !IsNullish(ds[i])
    requires 0 <= j < |ds|
    requires forall m :: j < m < |ds| ==> Get(ds[m], "id") != Get(ds[j], "id")
    ensures DistrictsMap(ds).Ok? && DistrictsMap(ds).value.MapV?
    ensures MapGet(DistrictsMap(ds).value.pairs, Get(ds[j], "id")) == Get(ds[j], "name")
    ensures forall k :: k in MapKeys(DistrictsMap(ds).value.pairs) <==> exists i :: 0 <= i < |ds| && Get(ds[i], "id") == k
  {
    assert forall i :: 0 <= i < |ds| ==> DistrictPairs(ds)[i].0 == Get(ds[i], "id");
    MapFromLast(DistrictPairs(ds), j);
    MapFromKeys(DistrictPairs(ds));
  }

  /** A missing district list gives an empty Map; the street keeps its id
      and name under the renamed keys. */
  lemma StructureStreetShape(data: Value, keys: StreetKeys)
    requires keys == NestedStreetKeys || keys == FlatStreetKeys
    ensures !IsNullish(data) && IsNullish(Get(data, keys.list)) ==>
      StructureStreetView(data, keys) == Ok(Obj([(keys.outId, Get(data, keys.id)), (keys.outName, Get(data, keys.name)), (keys.outList, MapV([]))]))
    ensures StructureStreetView(data, keys).Ok? ==>
      var out := StructureStreetView(data, keys).value;
      Keys(out.entries) == [keys.outId, keys.outName, keys.outList]
      && Get(out, keys.outId) == Get(data, keys.id) && Get(out, keys.outName) == Get(data, keys.name)
      && Get(out, keys.outList).MapV?
  {
    assert DistrictPairs([]) == [];
    if StructureStreetView(data, keys).Ok? {
      DtoUtils.LookupAt(StructureStreetView(data, keys).value.entries, 0);
      DtoUtils.LookupAt(StructureStreetView(data, keys).value.entries, 1);
      DtoUtils.LookupAt(StructureStreetView(data, keys).value.entries, 2);
    }
  }

  /** src/utils/domain/dto/structure/StructureViewDTO.ts, whose district
      mapper is the knk district view. */
  function StructureView(data: Value, loc: Locale): Mapped {
    match DominionViewNested(data, loc)
    case Threw => Threw
    case Ok(dominionForm) =>
      if IsNullish(data) then Threw
      else
        var street := Get(data, "Street");
        var district := Get(data, "District");
        var streetForm := if Truthy(street) then StructureStreetView(street, NestedStreetKeys) else Ok(Null);
        var districtForm := if Truthy(district) then KnkDistrictView(district, loc) else Ok(Null);
        if streetForm.Threw? || districtForm.Threw? then Threw
        else
          Ok(Obj(Assign(SpreadOf(dominionForm),
            [("street", streetForm.value), ("streetNumber", Get(data, "StreetNumber")),
             ("district", districtForm.value), ("storages", Get(data, "storages"))])))
  }

  /** src/utils/domain/dto/StructureViewDTO.ts: the dominion part read
      from PascalCase keys, the rest from lower-case ones. */
  function FlatStructureView(data: Value): Mapped {
    match DominionViewFlat(data)
    case Threw => Threw
    case Ok(dominionForm) =>
      var street := Get(data, "street");
      var district := Get(data, "district");
      var streetForm := if Truthy(street) then StructureStreetView(street, FlatStreetKeys) else Ok(Null);
      var districtForm := if Truthy(district) then FlatDistrictView(district) else Ok(Null);
      if streetForm.Threw? || districtForm.Threw? then Threw
      else
        Ok(Obj(Assign(SpreadOf(dominionForm),
          [("Street", streetForm.value), ("StreetNumber", Get(data, "streetNumber")),
           ("District", districtForm.value)])))
  }

  /** `{...base, a: x, b: y, c: z, d: w}` for four distinct keys: each
      written key reads back its value, any other key reads `base`'s. */
  lemma SpreadFour(base: Value, over: Entries, k: string)
    requires |over| == 4 && UniqueKeys(over)
    ensures forall i :: 0 <= i < 4 ==> Get(Obj(Assign(SpreadOf(base), over)), over[i].0) == over[i].1
    ensures k !in Keys(over) ==> Get(Obj(Assign(SpreadOf(base), over)), k) == Get(base, k)
  {
    LookupAssign(SpreadOf(base), over, k);
    forall i | 0 <= i < 4
      ensures Get(Obj(Assign(SpreadOf(base), over)), over[i].0) == over[i].1
    {
      assert Keys(over)[i] == over[i].0;
      LookupAssign(SpreadOf(base), over, over[i].0);
      DtoUtils.LookupAt(over, i);
    }
  }

  /** The same for three distinct keys. */
  lemma SpreadThree(base: Value, over: Entries, k: string)
    requires |over| == 3 && UniqueKeys(over)
    ensures forall i :: 0 <= i < 3 ==> Get(Obj(Assign(SpreadOf(base), over)), over[i].0) == over[i].1
    ensures k !in Keys(over) ==> Get(Obj(Assign(SpreadOf(base), over)), k) == Get(base, k)
  {
    LookupAssign(SpreadOf(base), over, k);
    forall i | 0 <= i < 3
      ensures Get(Obj(Assign(SpreadOf(base), over)), over[i].0) == over[i].1
    {
      assert Keys(over)[i] == over[i].0;
      LookupAssign(SpreadOf(base), over, over[i].0);
      DtoUtils.LookupAt(over, i);
    }
  }

  /** The structure throws exactly when the record is missing or its
      location, street or district mapper throws. It keeps every key of
      the dominion form; `street` and `district` are null exactly when
      `Street` and `District` are falsy and otherwise hold the street
      mapper's and the district view's results; `streetNumber` and
      `storages` are copied. */
  lemma StructureViewThrows(data: Value, loc: Locale)
    ensures StructureView(data, loc).Threw? <==>
      IsNullish(data) || DominionViewNested(data, loc).Threw?
      || (Truthy(Get(data, "Street")) && StructureStreetView(Get(data, "Street"), NestedStreetKeys).Threw?)
      || (Truthy(Get(data, "District")) && KnkDistrictView(Get(data, "District"), loc).Threw?)
  {
  }

  lemma StructureViewShape(data: Value, loc: Locale, k: string)
    ensures StructureView(data, loc).Threw? <==>
      IsNullish(data) || DominionViewNested(data, loc).Threw?
      || (Truthy(Get(data, "Street")) && StructureStreetView(Get(data, "Street"), NestedStreetKeys).Threw?)
      || (Truthy(Get(data, "District")) && KnkDistrictView(Get(data, "District"), loc).Threw?)
    ensures StructureView(data, loc).Ok? && Truthy(Get(data, "Street")) ==>
      Get(StructureView(data, loc).value, "street") == StructureStreetView(Get(data, "Street"), NestedStreetKeys).value
    ensures StructureView(data, loc).Ok? && Truthy(Get(data, "District")) ==>
      Get(StructureView(data, loc).value, "district") == KnkDistrictView(Get(data, "District"), loc).value
    ensures StructureView(data, loc).Ok? ==>
      var out := StructureView(data, loc).value;
      (k !in ["street", "streetNumber", "district", "storages"] ==>
         Get(out, k) == Get(DominionViewNested(data, loc).value, k))
      && (Get(out, "street") == Null <==> !Truthy(Get(data, "Street")))
      && (Get(out, "district") == Null <==> !Truthy(Get(data, "District")))
      && Get(out, "streetNumber") == Get(data, "StreetNumber")
      && Get(out, "storages") == Get(data, "storages")
  {
    StructureViewThrows(data, loc);
    if StructureView(data, loc).Ok? {
      var dominionForm := DominionViewNested(data, loc).value;
      var street := Get(data, "Street");
      var district := Get(data, "District");
      var streetForm := if Truthy(street) then StructureStreetView(street, NestedStreetKeys) else Ok(Null);
      var districtForm := if Truthy(district) then KnkDistrictView(district, loc) else Ok(Null);
      var over := [("street", streetForm.value), ("streetNumber", Get(data, "StreetNumber")),
                   ("district", districtForm.value), ("storages", Get(data, "storages"))];
      assert StructureView(data, loc) == Ok(Obj(Assign(SpreadOf(dominionForm), over)));
      assert Keys(over) == ["street", "streetNumber", "district", "storages"];
      SpreadFour(dominionForm, over, k);
      assert over[0].0 == "street" && over[1].0 == "streetNumber" && over[2].0 == "district" && over[3].0 == "storages";
      if Truthy(district) {
        DominionViewKnkCases(district, loc);
      }
    }
  }

  /** The flat structure throws exactly when the flat dominion view or its
      street or district mapper throws, so always for a missing record. It
      keeps every key of the flat dominion form read from the same record;
      `Street` and `District` are null exactly when `street` and `district`
      are falsy and otherwise hold the street mapper's and the flat
      district view's results; `StreetNumber` is `streetNumber`. */
  lemma FlatStructureViewThrows(data: Value)
    ensures FlatStructureView(data).Threw? <==>
      DominionViewFlat(data).Threw?
      || (Truthy(Get(data, "street")) && StructureStreetView(Get(data, "street"), FlatStreetKeys).Threw?)
      || (Truthy(Get(data, "district")) && FlatDistrictView(Get(data, "district")).Threw?)
  {
  }

  lemma FlatStructureViewShape(data: Value, k: string)
    ensures IsNullish(data) ==> FlatStructureView(data) == Threw
    ensures FlatStructureView(data).Threw? <==>
      DominionViewFlat(data).Threw?
      || (Truthy(Get(data, "street")) && StructureStreetView(Get(data, "street"), FlatStreetKeys).Threw?)
      || (Truthy(Get(data, "district")) && FlatDistrictView(Get(data, "district")).Threw?)
    ensures FlatStructureView(data).Ok? && Truthy(Get(data, "street")) ==>
      Get(FlatStructureView(data).value, "Street") == StructureStreetView(Get(data, "street"), FlatStreetKeys).value
    ensures FlatStructureView(data).Ok? && Truthy(Get(data, "district")) ==>
      Get(FlatStructureView(data).value, "District") == FlatDistrictView(Get(data, "district")).value
    ensures FlatStructureView(data).Ok? ==>
      var out := FlatStructureView(data).value;
      (k !in ["Street", "StreetNumber", "District"] ==> Get(out, k) == Get(DominionViewFlat(data).value, k))
      && (Get(out, "Street") == Null <==> !Truthy(Get(data, "street")))
      && (Get(out, "District") == Null <==> !Truthy(Get(data, "district")))
      && Get(out, "StreetNumber") == Get(data, "streetNumber")
  {
    FlatStructureViewThrows(data);
    if FlatStructureView(data).Ok? {
      var dominionForm := DominionViewFlat(data).value;
      var street := Get(data, "street");
      var district := Get(data, "district");
      var streetForm := if Truthy(street) then StructureStreetView(street, FlatStreetKeys) else Ok(Null);
      var districtForm := if Truthy(district) then FlatDistrictView(district) else Ok(Null);
      var over := [("Street", streetForm.value), ("StreetNumber", Get(data, "streetNumber")),
                   ("District", districtForm.value)];
      assert FlatStructureView(data) == Ok(Obj(Assign(SpreadOf(dominionForm), over)));
      assert Keys(over) == ["Street", "StreetNumber", "District"];
      SpreadThree(dominionForm, over, k);
      assert over[0].0 == "Street" && over[1].0 == "StreetNumber" && over[2].0 == "District";
    }
  }
}
