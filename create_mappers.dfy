/** The create mappers of src/utils/domain/dto/{location,dominion,district,
    street}/ and knk-web-app/src/utils/domain/dto/structure/: a form record
    (camelCase) becomes a create record (PascalCase) and back. A reference
    whose id is negative stands for a record still to be created, so its
    whole create record is embedded; any other reference travels as its id
    only. */
module CreateMappers {
  import opened JsValues
  import DtoUtils

  /** Pairs of (record key, form key). */
  type Names = seq<(string, string)>

  const LocationNames: Names := [("Id", "id"), ("X", "x"), ("Y", "y"), ("Z", "z"),
    ("Pitch", "pitch"), ("Yaw", "yaw"), ("WorldName", "worldName")]

  const DominionNames: Names := [("Id", "id"), ("Name", "name"), ("AllowEntry", "allowEntry"),
    ("Created", "created"), ("Description", "description"), ("WgRegionId", "wgRegionId")]

  const StreetNames: Names := [("Id", "id"), ("Name", "name")]

  /** `{ K1: data.f1, ... }`: each record key reads its form key. */
  function Rename(data: Value, names: Names): (e: Entries)
    ensures Keys(e) == seq(|names|, i requires 0 <= i < |names| => names[i].0)
  {
    seq(|names|, i requires 0 <= i < |names| => (names[i].0, Get(data, names[i].1)))
  }

  function Swap(names: Names): (r: Names)
    ensures |r| == |names| && forall i :: 0 <= i < |names| ==> r[i] == (names[i].1, names[i].0)
  {
    seq(|names|, i requires 0 <= i < |names| => (names[i].1, names[i].0))
  }

  /** No key is renamed twice and no two keys get the same name. */
  predicate Injective(names: Names) {
    forall i, j :: 0 <= i < j < |names| ==> names[i].0 != names[j].0 && names[i].1 != names[j].1
  }

  lemma TablesInjective()
    ensures Injective(LocationNames) && Injective(DominionNames) && Injective(StreetNames)
    ensures Injective(Swap(LocationNames)) && Injective(Swap(DominionNames)) && Injective(Swap(StreetNames))
  {
  }

  /** Each renamed key holds the value of the key it renames. */
  lemma RenameGet(data: Value, names: Names, i: int)
    requires Injective(names) && 0 <= i < |names|
    ensures Lookup(Rename(data, names), names[i].0) == Get(data, names[i].1)
    ensures UniqueKeys(Rename(data, names))
  {
    var e := Rename(data, names);
    assert forall a, b :: 0 <= a < b < |e| ==> e[a].0 == names[a].0 && e[b].0 == names[b].0;
    DtoUtils.LookupAt(e, i);
  }

  lemma {:induction false} LookupConcat(a: Entries, b: Entries, k: string)
    ensures Lookup(a + b, k) == if k in Keys(a) then Lookup(a, k) else Lookup(b, k)
    decreases |a|
  {
    if |a| > 0 {
      assert (a + b)[1..] == a[1..] + b;
      assert Keys(a) == [a[0].0] + Keys(a[1..]);
      LookupConcat(a[1..], b, k);
    } else {
      assert a + b == b;
    }
  }

  /** Renaming one way and back restores every renamed key. */
  lemma RenameRoundTrip(data: Value, names: Names, i: int)
    requires Injective(names) && Injective(Swap(names)) && 0 <= i < |names|
    ensures Lookup(Rename(Obj(Rename(data, names)), Swap(names)), names[i].1) == Get(data, names[i].1)
  {
    RenameGet(Obj(Rename(data, names)), Swap(names), i);
    RenameGet(data, names, i);
  }

  // ----- location -----

  /** `new LocationCreateDTO()`: only `Name`, which defaults to "Location". */
  function NewLocationCreateDTO(): (v: Value)
    ensures Get(v, "Name") == Str("Location") && Keys(v.entries) == ["Name"]
  {
    Obj([("Name", Str("Location"))])
  }

  function LocationToFields(data: Value): Value
    requires !IsNullish(data)
  {
    Obj(Rename(data, LocationNames))
  }

  function LocationToForm(dto: Value): Value
    requires !IsNullish(dto)
  {
    Obj(Rename(dto, Swap(LocationNames)))
  }

  /** The two location mappers are inverse renamings of the same seven
      keys: form to record to form, and record to form to record, restore
      each key. */
  lemma LocationRoundTrip(form: Value, dto: Value, i: int)
    requires !IsNullish(form) && !IsNullish(dto) && 0 <= i < 7
    ensures Get(LocationToFields(form), LocationNames[i].0) == Get(form, LocationNames[i].1)
    ensures Get(LocationToForm(dto), LocationNames[i].1) == Get(dto, LocationNames[i].0)
    ensures Get(LocationToForm(LocationToFields(form)), LocationNames[i].1) == Get(form, LocationNames[i].1)
    ensures Get(LocationToFields(LocationToForm(dto)), LocationNames[i].0) == Get(dto, LocationNames[i].0)
    ensures Keys(LocationToForm(dto).entries) == ["id", "x", "y", "z", "pitch", "yaw", "worldName"]
    ensures Keys(LocationToFields(form).entries) == ["Id", "X", "Y", "Z", "Pitch", "Yaw", "WorldName"]
  {
    TablesInjective();
    RenameGet(form, LocationNames, i);
    RenameGet(dto, Swap(LocationNames), i);
    RenameRoundTrip(form, LocationNames, i);
    assert Swap(Swap(LocationNames)) == LocationNames;
    RenameRoundTrip(dto, Swap(LocationNames), i);
  }

  // ----- dominion -----

  /** The form fields whose presence the dominion mapper demands:
      `data.location.id` is read unconditionally. */
  predicate DominionFormOk(data: Value) {
    !IsNullish(Get(data, "location"))
  }

  function DominionToFields(data: Value): Value
    requires DominionFormOk(data)
  {
    var location := Get(data, "location");
    var id := Get(location, "id");
    Obj(Rename(data, DominionNames) +
      [("LocationId", id),
       ("LocationCreateDTO", if LessThan(id, 0) then LocationToFields(location) else Undefined)])
  }

  function DominionToForm(dto: Value): Value
    requires !IsNullish(dto)
  {
    var nested := Get(dto, "LocationCreateDTO");
    Obj(Rename(dto, Swap(DominionNames)) +
      [("location", if Truthy(nested) then LocationToForm(nested) else Obj([("id", Get(dto, "LocationId"))]))])
  }

  /** The record renames the six scalars, always carries `LocationId`, and
      embeds the location exactly when its id is negative. */
  lemma DominionToFieldsShape(data: Value, i: int)
    requires DominionFormOk(data) && 0 <= i < 6
    ensures Get(DominionToFields(data), DominionNames[i].0) == Get(data, DominionNames[i].1)
    ensures Get(DominionToFields(data), "LocationId") == Get(Get(data, "location"), "id")
    ensures Truthy(Get(DominionToFields(data), "LocationCreateDTO")) <==> LessThan(Get(Get(data, "location"), "id"), 0)
    ensures LessThan(Get(Get(data, "location"), "id"), 0) ==>
      Get(DominionToFields(data), "LocationCreateDTO") == LocationToFields(Get(data, "location"))
    ensures Keys(DominionToFields(data).entries) ==
      ["Id", "Name", "AllowEntry", "Created", "Description", "WgRegionId", "LocationId", "LocationCreateDTO"]
  {
    TablesInjective();
    var e := Rename(data, DominionNames);
    RenameGet(data, DominionNames, i);
    assert Keys(e)[i] == DominionNames[i].0;
    var tail := DominionToFields(data).entries[6..];
    LookupConcat(e, tail, DominionNames[i].0);
    LookupConcat(e, tail, "LocationId");
    LookupConcat(e, tail, "LocationCreateDTO");
  }

  /** The form mapper restores the six scalars and the location: the
      embedded record when there is one, else `{ id: LocationId }`. */
  lemma DominionToFormShape(dto: Value, i: int)
    requires !IsNullish(dto) && 0 <= i < 6
    ensures Get(DominionToForm(dto), DominionNames[i].1) == Get(dto, DominionNames[i].0)
    ensures Get(DominionToForm(dto), "location") ==
      if Truthy(Get(dto, "LocationCreateDTO")) then LocationToForm(Get(dto, "LocationCreateDTO"))
      else Obj([("id", Get(dto, "LocationId"))])
  {
    TablesInjective();
    var e := Rename(dto, Swap(DominionNames));
    RenameGet(dto, Swap(DominionNames), i);
    assert Keys(e)[i] == DominionNames[i].1;
    var tail := DominionToForm(dto).entries[6..];
    LookupConcat(e, tail, DominionNames[i].1);
    LookupConcat(e, tail, "location");
  }

  /** Form to record to form: a location to be created comes back whole,
      any other location as its id alone. */
  lemma DominionRoundTrip(data: Value, i: int)
    requires DominionFormOk(data) && 0 <= i < 7
    ensures i < 6 ==> Get(DominionToForm(DominionToFields(data)), DominionNames[i].1) == Get(data, DominionNames[i].1)
    ensures LessThan(Get(Get(data, "location"), "id"), 0) ==>
      Get(Get(DominionToForm(DominionToFields(data)), "location"), LocationNames[i].1) ==
      Get(Get(data, "location"), LocationNames[i].1)
    ensures !LessThan(Get(Get(data, "location"), "id"), 0) ==>
      Get(DominionToForm(DominionToFields(data)), "location") == Obj([("id", Get(Get(data, "location"), "id"))])
  {
    var dto := DominionToFields(data);
    DominionToFieldsShape(data, if i < 6 then i else 0);
    DominionToFormShape(dto, if i < 6 then i else 0);
    var location := Get(data, "location");
    if LessThan(Get(location, "id"), 0) {
      LocationRoundTrip(location, location, i);
    }
  }

  // ----- town -----

  /** `mapFormDataToFields` of src/utils/domain/dto/TownCreateDTO.ts. */
  function TownToFields(data: Value): Value
    requires DominionFormOk(data)
  {
    Obj(Assign(DominionToFields(data).entries, [("RequiredTitle", Get(data, "requiredTitle"))]))
  }

  /** The town form mapper, taken as the dominion one plus `requiredTitle`. */
  function TownToForm(dto: Value): Value
    requires !IsNullish(dto)
  {
    Obj(Assign(DominionToForm(dto).entries, [("requiredTitle", Get(dto, "RequiredTitle"))]))
  }

  /** A spread whose added key is new appends it; any other key reads through. */
  lemma SpreadOne(base: Value, k: string, x: Value, j: string)
    requires base.Obj? && k !in Keys(base.entries)
    ensures Assign(base.entries, [(k, x)]) == base.entries + [(k, x)]
    ensures Lookup(Assign(base.entries, [(k, x)]), j) == if j == k then x else Get(base, j)
  {
    DtoUtils.PutFresh(base.entries, k, x);
    assert Keys([(k, x)]) == [k];
    LookupAssign(base.entries, [(k, x)], j);
  }

  /** The town record is the dominion record plus `RequiredTitle` and no
      other key, so the location rule is the dominion one. */
  lemma TownToFieldsShape(data: Value, k: string)
    requires DominionFormOk(data)
    ensures Keys(TownToFields(data).entries) == Keys(DominionToFields(data).entries) + ["RequiredTitle"]
    ensures Get(TownToFields(data), k) ==
      if k == "RequiredTitle" then Get(data, "requiredTitle") else Get(DominionToFields(data), k)
  {
    DominionToFieldsShape(data, 0);
    SpreadOne(DominionToFields(data), "RequiredTitle", Get(data, "requiredTitle"), k);
  }

  lemma TownToFormShape(dto: Value, k: string)
    requires !IsNullish(dto)
    ensures Get(TownToForm(dto), k) ==
      if k == "requiredTitle" then Get(dto, "RequiredTitle") else Get(DominionToForm(dto), k)
  {
    assert Keys([("requiredTitle", Get(dto, "RequiredTitle"))]) == ["requiredTitle"];
    LookupAssign(DominionToForm(dto).entries, [("requiredTitle", Get(dto, "RequiredTitle"))], k);
  }

  // ----- district -----

  predicate DistrictFormOk(data: Value) {
    DominionFormOk(data) && !IsNullish(Get(data, "town"))
    && (LessThan(Get(Get(data, "town"), "id"), 0) ==> DominionFormOk(Get(data, "town")))
  }

  function DistrictToFields(data: Value): Value
    requires DistrictFormOk(data)
  {
    var town := Get(data, "town");
    var id := Get(town, "id");
    Obj(Assign(DominionToFields(data).entries,
      [("TownId", id), ("Town", if LessThan(id, 0) then TownToFields(town) else Undefined)]))
  }

  function DistrictToForm(dto: Value): Value
    requires !IsNullish(dto)
  {
    var town := Get(dto, "Town");
    var byId := Obj([("id", Get(dto, "TownId"))]);
    Obj(Assign(DominionToForm(dto).entries,
      [("town", if Truthy(town) then Or(TownToForm(town), byId) else byId)]))
  }

  /** The district record is the dominion record plus `TownId` and `Town`,
      the town embedded exactly when its id is negative. */
  lemma DistrictToFieldsShape(data: Value, k: string)
    requires DistrictFormOk(data)
    ensures k != "TownId" && k != "Town" ==> Get(DistrictToFields(data), k) == Get(DominionToFields(data), k)
    ensures Get(DistrictToFields(data), "TownId") == Get(Get(data, "town"), "id")
    ensures Truthy(Get(DistrictToFields(data), "Town")) <==> LessThan(Get(Get(data, "town"), "id"), 0)
    ensures LessThan(Get(Get(data, "town"), "id"), 0) ==>
      Get(DistrictToFields(data), "Town") == TownToFields(Get(data, "town"))
  {
    var town := Get(data, "town");
    var id := Get(town, "id");
    var over := [("TownId", id), ("Town", if LessThan(id, 0) then TownToFields(town) else Undefined)];
    assert Keys(over) == ["TownId", "Town"];
    LookupAssign(DominionToFields(data).entries, over, k);
    LookupAssign(DominionToFields(data).entries, over, "TownId");
    LookupAssign(DominionToFields(data).entries, over, "Town");
  }

  lemma DistrictToFormShape(dto: Value, k: string)
    requires !IsNullish(dto)
    ensures k != "town" ==> Get(DistrictToForm(dto), k) == Get(DominionToForm(dto), k)
    ensures Get(DistrictToForm(dto), "town") ==
      if Truthy(Get(dto, "Town")) then TownToForm(Get(dto, "Town")) else Obj([("id", Get(dto, "TownId"))])
  {
    var town := Get(dto, "Town");
    var byId := Obj([("id", Get(dto, "TownId"))]);
    var over := [("town", if Truthy(town) then Or(TownToForm(town), byId) else byId)];
    assert Keys(over) == ["town"];
    LookupAssign(DominionToForm(dto).entries, over, k);
    LookupAssign(DominionToForm(dto).entries, over, "town");
  }

  /** Form to record to form keeps the district's scalars; a town with a
      non-negative id comes back as `{ id }`, a town to be created keeps its
      scalars and required title. */
  lemma DistrictRoundTrip(data: Value, i: int)
    requires DistrictFormOk(data) && 0 <= i < 6
    ensures Get(DistrictToForm(DistrictToFields(data)), DominionNames[i].1) == Get(data, DominionNames[i].1)
    ensures !LessThan(Get(Get(data, "town"), "id"), 0) ==>
      Get(DistrictToForm(DistrictToFields(data)), "town") == Obj([("id", Get(Get(data, "town"), "id"))])
    ensures LessThan(Get(Get(data, "town"), "id"), 0) ==>
      Get(Get(DistrictToForm(DistrictToFields(data)), "town"), DominionNames[i].1) ==
        Get(Get(data, "town"), DominionNames[i].1)
      && Get(Get(DistrictToForm(DistrictToFields(data)), "town"), "requiredTitle") ==
        Get(Get(data, "town"), "requiredTitle")
  {
    var dto := DistrictToFields(data);
    var town := Get(data, "town");
    DistrictToFormShape(dto, DominionNames[i].1);
    DominionToFormShape(dto, i);
    DistrictToFieldsShape(data, DominionNames[i].0);
    DominionToFieldsShape(data, i);
    DistrictToFormShape(dto, "town");
    if LessThan(Get(town, "id"), 0) {
      var t := Get(dto, "Town");
      TownToFormShape(t, DominionNames[i].1);
      DominionToFormShape(t, i);
      TownToFieldsShape(town, DominionNames[i].0);
      DominionToFieldsShape(town, i);
      TownToFormShape(t, "requiredTitle");
      TownToFieldsShape(town, "RequiredTitle");
    }
  }

  // ----- street -----

  predicate StreetFormOk(data: Value) {
    !IsNullish(Get(data, "district"))
    && (LessThan(Get(Get(data, "district"), "id"), 0) ==> DistrictFormOk(Get(data, "district")))
  }

  function StreetToFields(data: Value): Value
    requires StreetFormOk(data)
  {
    var district := Get(data, "district");
    var id := Get(district, "id");
    Obj(Rename(data, StreetNames) +
      [("DistrictId", id), ("District", if LessThan(id, 0) then DistrictToFields(district) else Undefined)])
  }

  function StreetToForm(dto: Value): Value
    requires !IsNullish(dto)
  {
    var district := Get(dto, "District");
    Obj(Rename(dto, Swap(StreetNames)) +
      [("district", if Truthy(district) then DistrictToForm(district) else Obj([("id", Get(dto, "DistrictId"))]))])
  }

  /** The street record has exactly `Id`, `Name`, `DistrictId` and
      `District`, the district embedded exactly when its id is negative. */
  lemma StreetToFieldsShape(data: Value)
    requires StreetFormOk(data)
    ensures Keys(StreetToFields(data).entries) == ["Id", "Name", "DistrictId", "District"]
    ensures Get(StreetToFields(data), "Id") == Get(data, "id") && Get(StreetToFields(data), "Name") == Get(data, "name")
    ensures Get(StreetToFields(data), "DistrictId") == Get(Get(data, "district"), "id")
    ensures Truthy(Get(StreetToFields(data), "District")) <==> LessThan(Get(Get(data, "district"), "id"), 0)
    ensures LessThan(Get(Get(data, "district"), "id"), 0) ==>
      Get(StreetToFields(data), "District") == DistrictToFields(Get(data, "district"))
  {
    var district := Get(data, "district");
    var id := Get(district, "id");
    var e := StreetToFields(data).entries;
    assert e == [("Id", Get(data, "id")), ("Name", Get(data, "name")),
      ("DistrictId", id), ("District", if LessThan(id, 0) then DistrictToFields(district) else Undefined)];
    assert Keys(e) == ["Id", "Name", "DistrictId", "District"];
    DtoUtils.LookupAt(e, 0);
    DtoUtils.LookupAt(e, 1);
    DtoUtils.LookupAt(e, 2);
    DtoUtils.LookupAt(e, 3);
  }

  /** Form to record to form keeps the street's id and name and its
      district's id, whether the district was embedded or not. */
  lemma StreetRoundTrip(data: Value)
    requires StreetFormOk(data)
    ensures Get(StreetToForm(StreetToFields(data)), "id") == Get(data, "id")
    ensures Get(StreetToForm(StreetToFields(data)), "name") == Get(data, "name")
    ensures Get(Get(StreetToForm(StreetToFields(data)), "district"), "id") == Get(Get(data, "district"), "id")
  {
    var district := Get(data, "district");
    var dto := StreetToFields(data);
    StreetToFieldsShape(data);
    var nested := Get(dto, "District");
    var f := StreetToForm(dto).entries;
    assert f == [("id", Get(dto, "Id")), ("name", Get(dto, "Name")),
      ("district", if Truthy(nested) then DistrictToForm(nested) else Obj([("id", Get(dto, "DistrictId"))]))];
    DtoUtils.LookupAt(f, 0);
    DtoUtils.LookupAt(f, 1);
    DtoUtils.LookupAt(f, 2);
    if LessThan(Get(district, "id"), 0) {
      DistrictIdRoundTrip(district);
    }
  }

  /** A district to be created keeps its id through the round trip. */
  lemma DistrictIdRoundTrip(district: Value)
    requires DistrictFormOk(district)
    ensures Get(DistrictToForm(DistrictToFields(district)), "id") == Get(district, "id")
  {
    DistrictRoundTrip(district, 0);
  }

  // ----- structure -----

  predicate StructureFormOk(data: Value) {
    DominionFormOk(data)
    && !IsNullish(Get(data, "street"))
    && (LessThan(Get(Get(data, "street"), "id"), 0) ==> StreetFormOk(Get(data, "street")))
    && !IsNullish(Get(data, "district"))
    && (LessThan(Get(Get(data, "district"), "id"), 0) ==> DistrictFormOk(Get(data, "district")))
  }

  function StructureToFields(data: Value): Value
    requires StructureFormOk(data)
  {
    var street := Get(data, "street");
    var district := Get(data, "district");
    Obj(Assign(DominionToFields(data).entries,
      [("StreetId", Get(street, "id")),
       ("Street", if LessThan(Get(street, "id"), 0) then StreetToFields(street) else Undefined),
       ("StreetNumber", Get(data, "streetNumber")),
       ("DistrictId", Get(district, "id")),
       ("District", if LessThan(Get(district, "id"), 0) then DistrictToFields(district) else Undefined)]))
  }

  function StructureToForm(dto: Value): Value
    requires !IsNullish(dto)
  {
    var street := Get(dto, "Street");
    var district := Get(dto, "District");
    Obj(Assign(DominionToForm(dto).entries,
      [("street", if Truthy(street) then StreetToForm(street) else Obj([("id", Get(dto, "StreetId"))])),
       ("streetNumber", Get(dto, "StreetNumber")),
       ("district", if Truthy(district) then DistrictToForm(district) else Obj([("id", Get(dto, "DistrictId"))]))]))
  }

  /** Street and district are each embedded exactly when their id is
      negative, both ids always travel, and the dominion part is kept. */
  lemma StructureToFieldsShape(data: Value, k: string)
    requires StructureFormOk(data)
    ensures k !in ["StreetId", "Street", "StreetNumber", "DistrictId", "District"] ==>
      Get(StructureToFields(data), k) == Get(DominionToFields(data), k)
    ensures Get(StructureToFields(data), "StreetId") == Get(Get(data, "street"), "id")
    ensures Get(StructureToFields(data), "DistrictId") == Get(Get(data, "district"), "id")
    ensures Get(StructureToFields(data), "StreetNumber") == Get(data, "streetNumber")
    ensures Truthy(Get(StructureToFields(data), "Street")) <==> LessThan(Get(Get(data, "street"), "id"), 0)
    ensures Truthy(Get(StructureToFields(data), "District")) <==> LessThan(Get(Get(data, "district"), "id"), 0)
    ensures LessThan(Get(Get(data, "street"), "id"), 0) ==>
      Get(StructureToFields(data), "Street") == StreetToFields(Get(data, "street"))
    ensures LessThan(Get(Get(data, "district"), "id"), 0) ==>
      Get(StructureToFields(data), "District") == DistrictToFields(Get(data, "district"))
  {
    var street := Get(data, "street");
    var district := Get(data, "district");
    var o := [("StreetId", Get(street, "id")),
       ("Street", if LessThan(Get(street, "id"), 0) then StreetToFields(street) else Undefined),
       ("StreetNumber", Get(data, "streetNumber")),
       ("DistrictId", Get(district, "id")),
       ("District", if LessThan(Get(district, "id"), 0) then DistrictToFields(district) else Undefined)];
    var base := DominionToFields(data).entries;
    assert Keys(o) == ["StreetId", "Street", "StreetNumber", "DistrictId", "District"];
    assert StructureToFields(data).entries == Assign(base, o);
    LookupAssign(base, o, k);
    LookupAssign(base, o, "StreetId");
    LookupAssign(base, o, "DistrictId");
    LookupAssign(base, o, "StreetNumber");
    LookupAssign(base, o, "Street");
    LookupAssign(base, o, "District");
    DtoUtils.LookupAt(o, 2);
    DtoUtils.LookupAt(o, 3);
    DtoUtils.LookupAt(o, 4);
  }

  /** Form to record to form keeps the street's id, the district's id and
      the street number. */
  lemma StructureRoundTrip(data: Value)
    requires StructureFormOk(data)
    ensures Get(Get(StructureToForm(StructureToFields(data)), "street"), "id") == Get(Get(data, "street"), "id")
    ensures Get(Get(StructureToForm(StructureToFields(data)), "district"), "id") == Get(Get(data, "district"), "id")
    ensures Get(StructureToForm(StructureToFields(data)), "streetNumber") == Get(data, "streetNumber")
  {
    var dto := StructureToFields(data);
    StructureToFieldsShape(data, "Id");
    var street := Get(dto, "Street");
    var district := Get(dto, "District");
    var o := [("street", if Truthy(street) then StreetToForm(street) else Obj([("id", Get(dto, "StreetId"))])),
       ("streetNumber", Get(dto, "StreetNumber")),
       ("district", if Truthy(district) then DistrictToForm(district) else Obj([("id", Get(dto, "DistrictId"))]))];
    assert Keys(o) == ["street", "streetNumber", "district"];
    assert StructureToForm(dto).entries == Assign(DominionToForm(dto).entries, o);
    LookupAssign(DominionToForm(dto).entries, o, "street");
    LookupAssign(DominionToForm(dto).entries, o, "district");
    LookupAssign(DominionToForm(dto).entries, o, "streetNumber");
    DtoUtils.LookupAt(o, 2);
    if LessThan(Get(Get(data, "street"), "id"), 0) {
      StreetRoundTrip(Get(data, "street"));
    }
    if LessThan(Get(Get(data, "district"), "id"), 0) {
      DistrictIdRoundTrip(Get(data, "district"));
    }
  }
}
