/** The view mappers that turn a PascalCase record fetched from the API
    into the camelCase record a view shows, under
    src/utils/domain/dto/{location,dominion,town,structure,item}/ and
    knk-web-app/src/utils/domain/dto/dominion/. A property read on null
    or undefined, or a call on something that is not a function, throws a
    TypeError: that outcome is `Threw`. */
module ViewMappers {
  import opened JsValues
  import DtoUtils
  import Seqs
  import CreateMappers

  /** What a mapper call ends in: a value, or a thrown TypeError. */
  datatype Mapped = Ok(value: Value) | Threw

  /** Pairs of (view key, record key). */
  type Names = seq<(string, string)>

  /** A property read is either undefined or one of the object's own values,
      so it is structurally smaller than the object read from. */
  lemma {:induction false} LookupIsEntry(e: Entries, k: string)
    ensures Lookup(e, k) == Undefined || exists i :: 0 <= i < |e| && Lookup(e, k) == e[i].1
    decreases |e|
  {
    if |e| > 0 && e[0].0 != k {
      LookupIsEntry(e[1..], k);
      assert forall i :: 0 <= i < |e| - 1 ==> e[1..][i] == e[i + 1];
    }
  }

  /** `{ k1: data.K1, ... }` for a table of (view key, record key). */
  function Renamed(data: Value, names: Names): (e: Entries)
    ensures Keys(e) == seq(|names|, i requires 0 <= i < |names| => names[i].0)
  {
    CreateMappers.Rename(data, names)
  }

  /** Every view key of an injective table holds its record key's value. */
  lemma RenamedGet(data: Value, names: Names, i: int)
    requires CreateMappers.Injective(names) && 0 <= i < |names|
    ensures Get(Obj(Renamed(data, names)), names[i].0) == Get(data, names[i].1)
  {
    CreateMappers.RenameGet(data, names, i);
  }

  /** Spreading keys the base does not have appends them, in order. */
  lemma {:induction false} AssignFresh(base: Entries, over: Entries)
    requires UniqueKeys(over)
    requires forall t :: t in Keys(over) ==> t !in Keys(base)
    ensures Assign(base, over) == base + over
    decreases |over|
  {
    if |over| > 0 {
      assert Keys(over)[0] == over[0].0;
      DtoUtils.PutFresh(base, over[0].0, over[0].1);
      var extended := base + [over[0]];
      assert Keys(extended) == Keys(base) + [over[0].0];
      assert Keys(over) == [over[0].0] + Keys(over[1..]);
      forall t | t in Keys(over[1..]) ensures t !in Keys(extended) {
        assert t in Keys(over);
      }
      assert UniqueKeys(over[1..]) by {
        forall a, b | 0 <= a < b < |over| - 1 ensures over[1..][a].0 != over[1..][b].0 {
          assert over[1..][a] == over[a + 1] && over[1..][b] == over[b + 1];
        }
      }
      AssignFresh(extended, over[1..]);
      assert extended + over[1..] == base + over;
    }
  }

  // ----- location -----

  /** `mapFieldDataToForm` of src/utils/domain/dto/location/LocationViewDTO.ts:
      the inverse renaming of the location create record. */
  function LocationView(data: Value): Mapped {
    if IsNullish(data) then Threw else Ok(CreateMappers.LocationToForm(data))
  }

  /** Exactly the seven lower-case keys, each read from its PascalCase key
      without defaulting; a missing record throws. */
  lemma LocationViewShape(data: Value, i: int)
    requires 0 <= i < 7
    ensures LocationView(data).Threw? <==> IsNullish(data)
    ensures LocationView(data).Ok? ==>
      Keys(LocationView(data).value.entries) == ["id", "x", "y", "z", "pitch", "yaw", "worldName"]
      && Get(LocationView(data).value, CreateMappers.LocationNames[i].1) == Get(data, CreateMappers.LocationNames[i].0)
  {
    if !IsNullish(data) {
      CreateMappers.LocationRoundTrip(data, data, i);
    }
  }

  // ----- dominion -----

  /** The record all three dominion view mappers build. */
  function DominionRecord(data: Value, created: Value, location: Value): Value {
    Obj([("id", Get(data, "Id")), ("name", Get(data, "Name")), ("description", Get(data, "Description")),
         ("allowEntry", Get(data, "AllowEntry")), ("created", created), ("wgRegionId", Get(data, "WgRegionId")),
         ("location", location)])
  }

  const DominionViewKeys: seq<string> := ["id", "name", "description", "allowEntry", "created", "wgRegionId", "location"]

  /** The record's keys are the seven view keys, each once. */
  lemma DominionRecordKeys(data: Value, created: Value, location: Value)
    ensures Keys(DominionRecord(data, created, location).entries) == DominionViewKeys
    ensures UniqueKeys(DominionRecord(data, created, location).entries)
  {
    var e := DominionRecord(data, created, location).entries;
    assert Keys(e) == DominionViewKeys;
  }

  /** Seven keys: the five scalars renamed, then `created` and `location`
      as given. */
  lemma DominionRecordShape(data: Value, created: Value, location: Value)
    ensures Keys(DominionRecord(data, created, location).entries) == DominionViewKeys
    ensures UniqueKeys(DominionRecord(data, created, location).entries)
    ensures Get(DominionRecord(data, created, location), "id") == Get(data, "Id")
    ensures Get(DominionRecord(data, created, location), "name") == Get(data, "Name")
    ensures Get(DominionRecord(data, created, location), "description") == Get(data, "Description")
    ensures Get(DominionRecord(data, created, location), "allowEntry") == Get(data, "AllowEntry")
    ensures Get(DominionRecord(data, created, location), "created") == created
    ensures Get(DominionRecord(data, created, location), "wgRegionId") == Get(data, "WgRegionId")
    ensures Get(DominionRecord(data, created, location), "location") == location
  {
    DominionRecordKeys(data, created, location);
    var e := DominionRecord(data, created, location).entries;
    DtoUtils.LookupAt(e, 0);
    DtoUtils.LookupAt(e, 1);
    DtoUtils.LookupAt(e, 2);
    DtoUtils.LookupAt(e, 3);
    DtoUtils.LookupAt(e, 4);
    DtoUtils.LookupAt(e, 5);
    DtoUtils.LookupAt(e, 6);
  }

  /** `data.Created ? new Date(data.Created) : null` */
  function CreatedDate(data: Value, loc: Locale): Value {
    var created := Get(data, "Created");
    if Truthy(created) then NewDate(created, loc) else Null
  }

  /** src/utils/domain/dto/dominion/DominionViewDTO.ts: null for a falsy
      record; the location always goes through the location mapper. */
  function DominionViewNested(data: Value, loc: Locale): Mapped {
    if !Truthy(data) then Ok(Null)
    else
      match LocationView(Get(data, "Location"))
      case Threw => Threw
      case Ok(location) => Ok(DominionRecord(data, CreatedDate(data, loc), location))
  }

  /** knk-web-app/src/utils/domain/dto/dominion/DominionViewDTO.ts: as
      above, but a missing `Location` gives a null location. */
  function DominionViewKnk(data: Value, loc: Locale): Value {
    if !Truthy(data) then Null
    else
      var location := Get(data, "Location");
      DominionRecord(data, CreatedDate(data, loc),
        if Truthy(location) then CreateMappers.LocationToForm(location) else Null)
  }

  /** src/utils/domain/dto/DominionViewDTO.ts: no guard, `created` copied
      as it is, the location always mapped. */
  function DominionViewFlat(data: Value): Mapped {
    if IsNullish(data) then Threw
    else
      match LocationView(Get(data, "Location"))
      case Threw => Threw
      case Ok(location) => Ok(DominionRecord(data, Get(data, "Created"), location))
  }

  /** A falsy record gives null; otherwise the record throws exactly when
      `Location` is missing, and `created` is a date exactly when `Created`
      is truthy. */
  lemma DominionViewNestedCases(data: Value, loc: Locale)
    ensures !Truthy(data) ==> DominionViewNested(data, loc) == Ok(Null)
    ensures Truthy(data) ==> (DominionViewNested(data, loc).Threw? <==> IsNullish(Get(data, "Location")))
    ensures DominionViewNested(data, loc).Ok? && Truthy(data) ==>
      Keys(DominionViewNested(data, loc).value.entries) == DominionViewKeys
      && Get(DominionViewNested(data, loc).value, "created") ==
        (if Truthy(Get(data, "Created")) then NewDate(Get(data, "Created"), loc) else Null)
      && Get(DominionViewNested(data, loc).value, "location") == CreateMappers.LocationToForm(Get(data, "Location"))
      && Get(DominionViewNested(data, loc).value, "wgRegionId") == Get(data, "WgRegionId")
  {
    if Truthy(data) && !IsNullish(Get(data, "Location")) {
      DominionRecordShape(data, CreatedDate(data, loc), CreateMappers.LocationToForm(Get(data, "Location")));
    }
  }

  /** The knk mapper never throws: null for a falsy record, else the seven
      keys with a null location exactly when `Location` is falsy. */
  lemma DominionViewKnkCases(data: Value, loc: Locale)
    ensures DominionViewKnk(data, loc) == Null <==> !Truthy(data)
    ensures Truthy(data) ==> Truthy(DominionViewKnk(data, loc))
    ensures Truthy(data) ==>
      Keys(DominionViewKnk(data, loc).entries) == DominionViewKeys
      && (Get(DominionViewKnk(data, loc), "location") == Null <==> !Truthy(Get(data, "Location")))
      && Get(DominionViewKnk(data, loc), "created") ==
        (if Truthy(Get(data, "Created")) then NewDate(Get(data, "Created"), loc) else Null)
  {
    if Truthy(data) {
      var location := Get(data, "Location");
      DominionRecordShape(data, CreatedDate(data, loc),
        if Truthy(location) then CreateMappers.LocationToForm(location) else Null);
    }
  }

  /** The flat mapper throws on a missing record or location, and copies
      `Created` unconverted. */
  lemma DominionViewFlatCases(data: Value)
    ensures DominionViewFlat(data).Threw? <==> IsNullish(data) || IsNullish(Get(data, "Location"))
    ensures DominionViewFlat(data).Ok? ==>
      Keys(DominionViewFlat(data).value.entries) == DominionViewKeys
      && Get(DominionViewFlat(data).value, "created") == Get(data, "Created")
      && Get(DominionViewFlat(data).value, "id") == Get(data, "Id")
      && Get(DominionViewFlat(data).value, "location") == CreateMappers.LocationToForm(Get(data, "Location"))
  {
    if !IsNullish(data) && !IsNullish(Get(data, "Location")) {
      DominionRecordShape(data, Get(data, "Created"), CreateMappers.LocationToForm(Get(data, "Location")));
    }
  }

  // ----- town -----

  /** `{ ...dominionForm, RequiredTitle: data.RequiredTitle }`, the body of
      src/utils/domain/dto/town/TownViewDTO.ts over a given dominion form. */
  function TownOver(dominion: Mapped, data: Value): Mapped {
    match dominion
    case Threw => Threw
    case Ok(form) =>
      if IsNullish(data) then Threw
      else Ok(Obj(Assign(SpreadOf(form), [("RequiredTitle", Get(data, "RequiredTitle"))])))
  }

  /** src/utils/domain/dto/town/TownViewDTO.ts, over the nested dominion mapper. */
  function TownView(data: Value, loc: Locale): Mapped {
    TownOver(DominionViewNested(data, loc), data)
  }

  /** The same town mapper resolved against the knk dominion mapper. */
  function KnkTownView(data: Value, loc: Locale): Mapped {
    TownOver(Ok(DominionViewKnk(data, loc)), data)
  }

  /** The same town mapper resolved against the flat dominion mapper. */
  function FlatTownView(data: Value): Mapped {
    TownOver(DominionViewFlat(data), data)
  }

  /** The two town mappers part on a falsy non-null input such as `0`: the
      nested dominion view gives null, which spreads to nothing, while the
      flat one reads `Location` from it and throws. */
  lemma TownViewsDiffer(loc: Locale)
    ensures TownView(Num(0), loc) == Ok(Obj([("RequiredTitle", Undefined)]))
    ensures FlatTownView(Num(0)).Threw?
  {
  }

  /** The town record is the dominion form plus the PascalCase key
      `RequiredTitle`: every dominion key keeps its value and no other key
      is added. A missing record throws; a falsy one that is not missing
      spreads nothing and keeps only `RequiredTitle`. */
  lemma TownOverShape(dominion: Mapped, data: Value, k: string)
    ensures TownOver(dominion, data).Threw? <==> dominion.Threw? || IsNullish(data)
    ensures (TownOver(dominion, data).Ok? && dominion.value.Obj? &&
             "RequiredTitle" !in Keys(dominion.value.entries)) ==>
      Keys(TownOver(dominion, data).value.entries) == Keys(dominion.value.entries) + ["RequiredTitle"]
    ensures TownOver(dominion, data).Ok? ==>
      Get(TownOver(dominion, data).value, k) ==
        if k == "RequiredTitle" then Get(data, "RequiredTitle") else Get(dominion.value, k)
  {
    if dominion.Ok? && !IsNullish(data) {
      var over := [("RequiredTitle", Get(data, "RequiredTitle"))];
      assert Keys(over) == ["RequiredTitle"];
      LookupAssign(SpreadOf(dominion.value), over, k);
      if dominion.value.Obj? && "RequiredTitle" !in Keys(dominion.value.entries) {
        DtoUtils.PutFresh(dominion.value.entries, "RequiredTitle", Get(data, "RequiredTitle"));
      }
    }
  }

  /** For a record with a location, the town view holds the dominion view's
      seven keys and then `RequiredTitle`. */
  lemma TownViewKeys(data: Value, loc: Locale)
    requires Truthy(data) && !IsNullish(Get(data, "Location"))
    ensures TownView(data, loc).Ok?
    ensures Keys(TownView(data, loc).value.entries) == DominionViewKeys + ["RequiredTitle"]
  {
    DominionViewNestedCases(data, loc);
    DominionRecordShape(data, CreatedDate(data, loc), CreateMappers.LocationToForm(Get(data, "Location")));
    TownOverShape(DominionViewNested(data, loc), data, "RequiredTitle");
  }

  // ----- structure overview and item -----

  const OverviewNames: Names := [("id", "Id"), ("name", "Name"), ("streetId", "StreetId"),
    ("streetName", "StreetName"), ("districtId", "DistrictId"), ("districtName", "DistrictName"),
    ("streetNumber", "StreetNumber"), ("townId", "TownId"), ("townName", "TownName")]

  const ItemNames: Names := [("id", "Id"), ("name", "Name"), ("displayName", "DisplayName"),
    ("basePrice", "BasePrice"), ("baseItemId", "BaseItemId"), ("categoryId", "CategoryId"),
    ("gradeId", "GradeId"), ("itemtypeId", "ItemtypeId"), ("itemtypeName", "ItemtypeName"),
    ("blockData", "BlockData"), ("data", "Data")]

  /** src/utils/domain/dto/structure/StructureOverviewDTO.ts */
  function OverviewView(data: Value): Mapped {
    if IsNullish(data) then Threw else Ok(Obj(Renamed(data, OverviewNames)))
  }

  /** src/utils/domain/dto/item/ItemDTO.ts */
  function ItemView(data: Value): Mapped {
    if IsNullish(data) then Threw else Ok(Obj(Renamed(data, ItemNames)))
  }

  /** Exactly nine keys, each the camelCase form of the key it reads, with
      no defaulting. */
  lemma OverviewViewShape(data: Value, i: int)
    requires 0 <= i < 9
    ensures OverviewView(data).Threw? <==> IsNullish(data)
    ensures OverviewView(data).Ok? ==>
      Keys(OverviewView(data).value.entries) ==
        ["id", "name", "streetId", "streetName", "districtId", "districtName", "streetNumber", "townId", "townName"]
      && Get(OverviewView(data).value, OverviewNames[i].0) == Get(data, OverviewNames[i].1)
  {
    assert CreateMappers.Injective(OverviewNames);
    RenamedGet(data, OverviewNames, i);
  }

  /** No two rows of the item table share a view key or a record key. */
  lemma ItemNamesInjective()
    ensures CreateMappers.Injective(ItemNames)
  {
  }

  /** The item view's keys, in order. */
  lemma ItemViewKeys(data: Value)
    requires !IsNullish(data)
    ensures Keys(ItemView(data).value.entries) ==
      ["id", "name", "displayName", "basePrice", "baseItemId", "categoryId", "gradeId",
       "itemtypeId", "itemtypeName", "blockData", "data"]
  {
    assert Keys(ItemView(data).value.entries) == seq(|ItemNames|, i requires 0 <= i < |ItemNames| => ItemNames[i].0);
  }

  /** Exactly eleven keys, `ItemtypeId` and `ItemtypeName` keeping their
      lower-case "t". */
  lemma ItemViewShape(data: Value, i: int)
    requires 0 <= i < 11
    ensures ItemView(data).Threw? <==> IsNullish(data)
    ensures ItemView(data).Ok? ==>
      Keys(ItemView(data).value.entries) ==
        ["id", "name", "displayName", "basePrice", "baseItemId", "categoryId", "gradeId",
         "itemtypeId", "itemtypeName", "blockData", "data"]
      && Get(ItemView(data).value, ItemNames[i].0) == Get(data, ItemNames[i].1)
  {
    if !IsNullish(data) {
      ItemViewKeys(data);
      ItemNamesInjective();
      RenamedGet(data, ItemNames, i);
    }
  }

  // ----- concise storage view -----

  const StorageNames: Names := [("id", "Id"), ("name", "Name"), ("capacityMax", "CapacityMax"),
    ("capacity", "Capacity"), ("itemAmountMax", "ItemAmountMax"), ("itemAmount", "ItemAmount"),
    ("structureId", "StructureId"), ("structureName", "StructureName"), ("userId", "UserId"),
    ("userName", "UserName")]

  /** No two rows of the storage table share a view key or a record key. */
  lemma StorageNamesInjective()
    ensures CreateMappers.Injective(StorageNames)
  {
  }

  /** src/utils/domain/dto/item/StorageViewConciseDTO.ts; `item` is the
      storage-item mapper it applies to each element of `Contents`. A
      truthy `Contents` that is not an array has no `map` and throws. */
  function StorageView(data: Value, item: Value -> Value): Mapped {
    if IsNullish(data) then Threw
    else
      var contents := Get(data, "Contents");
      if Truthy(contents) && !contents.Arr? then Threw
      else
        var form := if Truthy(contents)
          then Arr(seq(|contents.items|, i requires 0 <= i < |contents.items| => item(contents.items[i])))
          else Null;
        Ok(Obj(Renamed(data, StorageNames) + [("contents", form)]))
  }

  /** The ten scalars are renamed; `contents` is null when `Contents` is
      falsy, and otherwise holds each element mapped, in order. */
  lemma StorageViewShape(data: Value, item: Value -> Value, i: int)
    requires 0 <= i < 10
    ensures StorageView(data, item).Threw? <==>
      IsNullish(data) || (Truthy(Get(data, "Contents")) && !Get(data, "Contents").Arr?)
    ensures StorageView(data, item).Ok? ==>
      Get(StorageView(data, item).value, StorageNames[i].0) == Get(data, StorageNames[i].1)
      && (!Truthy(Get(data, "Contents")) ==> Get(StorageView(data, item).value, "contents") == Null)
      && (Truthy(Get(data, "Contents")) ==>
            var contents := Get(StorageView(data, item).value, "contents");
            contents.Arr? && |contents.items| == |Get(data, "Contents").items|
            && forall j :: 0 <= j < |contents.items| ==> contents.items[j] == item(Get(data, "Contents").items[j]))
  {
    if StorageView(data, item).Ok? {
      var e := Renamed(data, StorageNames);
      var contents := Get(data, "Contents");
      var form := if Truthy(contents)
        then Arr(seq(|contents.items|, j requires 0 <= j < |contents.items| => item(contents.items[j])))
        else Null;
      assert StorageView(data, item).value.entries == e + [("contents", form)];
      StorageNamesInjective();
      RenamedGet(data, StorageNames, i);
      assert Keys(e)[i] == StorageNames[i].0;
      CreateMappers.LookupConcat(e, [("contents", form)], StorageNames[i].0);
      assert "contents" !in Keys(e) by {
        assert Keys(e) == seq(|StorageNames|, j requires 0 <= j < |StorageNames| => StorageNames[j].0);
      }
      CreateMappers.LookupConcat(e, [("contents", form)], "contents");
      assert Get(StorageView(data, item).value, "contents") == form;
    }
  }

  // ----- filtering -----

  /** `.filter(Boolean)` */
  function FilterTruthy(vs: seq<Value>): (r: seq<Value>)
    ensures Seqs.IsSubsequence(r, vs)
    ensures forall x :: x in r <==> x in vs && Truthy(x)
    ensures forall x :: multiset(r)[x] == if Truthy(x) then multiset(vs)[x] else 0
    decreases |vs|
  {
    if |vs| == 0 then []
    else
      assert vs == [vs[0]] + vs[1..];
      if Truthy(vs[0]) then [vs[0]] + FilterTruthy(vs[1..]) else FilterTruthy(vs[1..])
  }

  /** `items.map(f)` where each call may throw: the first throw ends it. */
  function Collect(ms: seq<Mapped>): (r: Mapped)
    ensures r.Ok? <==> forall i :: 0 <= i < |ms| ==> ms[i].Ok?
    ensures r.Ok? ==>
      r.value.Arr? && |r.value.items| == |ms| && forall i :: 0 <= i < |ms| ==> ms[i] == Ok(r.value.items[i])
  {
    if forall i :: 0 <= i < |ms| ==> ms[i].Ok?
    then Ok(Arr(seq(|ms|, i requires 0 <= i < |ms| => ms[i].value)))
    else Threw
  }
}
