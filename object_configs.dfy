/** The entity registry of src/config/objectConfigs.tsx: the shared fields,
    one configuration per entity built by spreading the dominion fields,
    and the `objectConfigs` record. The dominion's `created` field defaults
    to `new Date()` taken when the module is loaded; that instant is the
    parameter `now` throughout. */
module ObjectConfigs {
  import opened Text
  import opened JsValues
  import opened FormTypes

  // ----- commonFields -----

  const IdField := FormField("id", "Id", NumberField, false, Some(Num(-1)), [], None, None, None, true)
  const NameField := FormField("name", "Name", TextField, true, None, [], Some(NameLength), None, None, false)
  const DescriptionField := Field("description", "Description", TextField, false)

  const CommonFields: seq<(string, FormField)> :=
    [("id", IdField), ("name", NameField), ("description", DescriptionField)]

  // ----- the per-entity configurations -----

  function NumberWithDefault(name: string, caption: string, d: int): FormField {
    FormField(name, caption, NumberField, false, Some(Num(d)), [], None, None, None, false)
  }

  const LocationConfig := ObjectConfig("location", "Location", [
    ("id", IdField),
    ("name", FormField("name", "Name", TextField, false, Some(Str("Location")), [], None, None, None, true)),
    ("x", Field("x", "X", NumberField, true)),
    ("y", Field("y", "Y", NumberField, true)),
    ("z", Field("z", "Z", NumberField, true)),
    ("yaw", NumberWithDefault("yaw", "Yaw", 0)),
    ("pitch", NumberWithDefault("pitch", "Pitch", 0)),
    ("worldName", FormField("WorldName", "World Name", TextField, true, Some(Str("world")), [], None, None, None, false))
  ], [])

  /** A required reference to another entity. */
  function Reference(name: string, target: ObjectConfig): FormField {
    FormField(name, name, ObjectField, true, None, [], None, Some(target), None, false)
  }

  function DominionFields(now: int): seq<(string, FormField)> {
    [ ("id", IdField),
      ("name", NameField),
      ("description", DescriptionField),
      ("allowEntry", FormField("AllowEntry", "Allow Entry", BoolField, true, Some(Bool(true)), [], None, None, None, false)),
      ("wgRegionId", Field("RegionName", "Region", TextField, true)),
      ("created", FormField("Created", "Created", DateField, false, Some(Date(now)), [], None, None, None, true)),
      ("location", Reference("Location", LocationConfig)) ]
  }

  const DominionFormatters: seq<(string, Formatter)> := [("wgRegionId", RegionBadge), ("created", LocaleDate)]

  function DominionConfig(now: int): ObjectConfig {
    ObjectConfig("dominion", "Dominion", DominionFields(now), DominionFormatters)
  }

  const RequiredTitleField :=
    FormField("RequiredTitle", "Required Title", NumberField, true, Some(Num(1)), [], Some(TitleAtLeastOne), None, None, false)

  function TownConfig(now: int): ObjectConfig {
    ObjectConfig("town", "Town", Spread(DominionFields(now), [("requiredTitle", RequiredTitleField)]), DominionFormatters)
  }

  function DistrictConfig(now: int): ObjectConfig {
    ObjectConfig("district", "District",
      Spread(DominionFields(now), [("town", Reference("Town", TownConfig(now)))]), DominionFormatters)
  }

  function StreetConfig(now: int): ObjectConfig {
    ObjectConfig("street", "Street",
      [("id", IdField), ("name", NameField), ("district", Reference("District", DistrictConfig(now)))],
      DominionFormatters)
  }

  const StreetNumberField :=
    FormField("StreetNumber", "Street Number", NumberField, false, None, [], Some(StreetNumberPositive), None, None, false)

  function StructureOwnFields(now: int): seq<(string, FormField)> {
    [ ("district", Reference("District", DistrictConfig(now))),
      ("street", Reference("Street", StreetConfig(now))),
      ("streetNumber", StreetNumberField) ]
  }

  function StructureConfig(now: int): ObjectConfig {
    ObjectConfig("structure", "Structure",
      Spread(DominionFields(now), StructureOwnFields(now)),
      Spread(DominionFormatters, [("streetNumber", StreetNumberHash)]))
  }

  function Required(name: string, caption: string, t: FieldType, v: Option<Validator>): FormField {
    FormField(name, caption, t, true, None, [], v, None, None, false)
  }

  const ItemConfig := ObjectConfig("item", "Item", [
    ("Name", Required("Name", "Name", TextField, Some(SlugName))),
    ("DisplayName", Required("DisplayName", "Display Name", TextField, None)),
    ("CategoryId", FormField("CategoryId", "Category", SelectField, true, None,
       [("Electronics", Str("1")), ("Furniture", Str("2")), ("Books", Str("3"))], None, None, None, false)),
    ("BaseItemName", Required("BaseItemName", "Base Item Name", TextField, None)),
    ("BasePrice", Required("BasePrice", "Base Price", NumberField, Some(NonNegativePrice))),
    ("Price", Required("Price", "Sale Price", NumberField, Some(NonNegativePrice)))
  ], [("CategoryName", CategoryBadge), ("BasePrice", PriceFixed), ("Price", PriceFixed)])

  const UserConfig := ObjectConfig("user", "User", [
    ("name", Required("name", "Full Name", TextField, None)),
    ("email", Required("email", "Email Address", TextField, Some(EmailShape))),
    ("role", FormField("role", "Role", SelectField, true, None,
       [("User", Str("user")), ("Admin", Str("admin")), ("Manager", Str("manager"))], None, None, None, false)),
    ("isActive", FormField("isActive", "Status", SelectField, true, Some(Bool(true)),
       [("Active", Str("true")), ("Inactive", Str("false"))], None, None, None, false))
  ], [("isActive", ActiveBadge), ("role", RoleBadge)])

  /** `objectConfigs`, in declaration order. */
  function Registry(now: int): seq<(string, ObjectConfig)> {
    [ ("location", LocationConfig),
      ("dominion", DominionConfig(now)),
      ("town", TownConfig(now)),
      ("district", DistrictConfig(now)),
      ("structure", StructureConfig(now)),
      ("street", StreetConfig(now)),
      ("item", ItemConfig),
      ("user", UserConfig) ]
  }

  // ----- properties of the registry -----

  lemma DominionFieldKeys(now: int)
    ensures EntryKeys(DominionFields(now)) ==
      ["id", "name", "description", "allowEntry", "wgRegionId", "created", "location"]
  {
  }

  /** Town fields are the dominion fields followed by `requiredTitle`,
      which defaults to 1 and rejects exactly the numbers below 1. */
  lemma TownInheritsDominion(now: int, n: int, loc: Locale)
    ensures TownConfig(now).fields == DominionFields(now) + [("requiredTitle", RequiredTitleField)]
    ensures TownConfig(now).formatters == DominionConfig(now).formatters
    ensures RequiredTitleField.defaultValue == Some(Num(1)) && RequiredTitleField.required
    ensures Validate(RequiredTitleField.validation.value, Num(n), loc).Some? <==> n < 1
  {
    DominionFieldKeys(now);
    SpreadFresh(DominionFields(now), [("requiredTitle", RequiredTitleField)]);
  }

  /** District fields are the dominion fields followed by a required `town`
      reference to the town configuration. */
  lemma DistrictInheritsDominion(now: int)
    ensures DistrictConfig(now).fields == DominionFields(now) + [("town", Reference("Town", TownConfig(now)))]
  {
    DominionFieldKeys(now);
    SpreadFresh(DominionFields(now), [("town", Reference("Town", TownConfig(now)))]);
  }

  /** Structure fields are the dominion fields followed by `district`,
      `street` and the optional `streetNumber`, which rejects numbers below
      1; the formatters add `streetNumber` to the dominion ones, printing
      `#` and the number. */
  lemma StructureInheritsDominion(now: int, n: int, loc: Locale)
    ensures StructureConfig(now).fields == DominionFields(now) + StructureOwnFields(now)
    ensures StructureConfig(now).formatters == DominionFormatters + [("streetNumber", StreetNumberHash)]
    ensures !StreetNumberField.required
    ensures Validate(StreetNumberField.validation.value, Num(n), loc).Some? <==> n < 1
    ensures FormatterText(StreetNumberHash, Num(n), loc) == Some("#" + IntToString(n))
  {
    DominionFieldKeys(now);
    assert EntryKeys(StructureOwnFields(now)) == ["district", "street", "streetNumber"];
    SpreadFresh(DominionFields(now), StructureOwnFields(now));
    assert EntryKeys(DominionFormatters) == ["wgRegionId", "created"];
    SpreadFresh(DominionFormatters, [("streetNumber", StreetNumberHash)]);
  }

  /** A street carries only id, name and district, not the dominion fields;
      the shared id is hidden with default -1. */
  lemma StreetFields(now: int)
    ensures EntryKeys(StreetConfig(now).fields) == ["id", "name", "district"]
    ensures "allowEntry" !in EntryKeys(StreetConfig(now).fields)
    ensures IdField.hidden && IdField.defaultValue == Some(Num(-1)) && !IdField.required
  {
  }

  /** The registry's keys are distinct and each entry's `type` is its key. */
  lemma TypeTagsAreKeys(now: int)
    ensures EntryKeys(Registry(now)) ==
      ["location", "dominion", "town", "district", "structure", "street", "item", "user"]
    ensures DistinctKeys(Registry(now))
    ensures forall i :: 0 <= i < |Registry(now)| ==> Registry(now)[i].1.typeName == Registry(now)[i].0
  {
  }

  /** The types a configuration's fields refer to through `objectConfig`. */
  function References(c: ObjectConfig): seq<string> {
    seq(|c.fields|, i requires 0 <= i < |c.fields| =>
      if c.fields[i].1.objectConfig.Some? then c.fields[i].1.objectConfig.value.typeName else "")
  }

  /** How far an entity sits from the leaves of the reference graph. */
  function Rank(typeName: string): nat {
    if typeName == "structure" then 4
    else if typeName == "street" then 3
    else if typeName == "district" then 2
    else if typeName == "town" || typeName == "dominion" then 1
    else 0
  }

  predicate RefsBelow(c: ObjectConfig, rank: nat) {
    forall r :: r in References(c) && r != "" ==> Rank(r) < rank
  }

  lemma ReferencesOfInherited(now: int)
    ensures References(DominionConfig(now)) == ["", "", "", "", "", "", "location"]
    ensures References(TownConfig(now)) == References(DominionConfig(now)) + [""]
    ensures References(DistrictConfig(now)) == References(DominionConfig(now)) + ["town"]
    ensures References(StructureConfig(now)) == References(DominionConfig(now)) + ["district", "street", ""]
  {
    var loc := Locale((a, b) => 0, t => "", t => "", s => None);
    TownInheritsDominion(now, 0, loc);
    DistrictInheritsDominion(now);
    StructureInheritsDominion(now, 0, loc);
  }

  /** Every reference leads to an entity of lower rank, so following
      `objectConfig` links always ends: structure to district and street,
      street to district, district to town, town and dominion to location. */
  lemma ReferencesDescend(now: int)
    ensures forall i :: 0 <= i < |Registry(now)| ==> RefsBelow(Registry(now)[i].1, Rank(Registry(now)[i].0))
  {
    ReferencesOfInherited(now);
    ReferencesOfOwn(now);
  }

  /** The configurations that inherit nothing: only the street's `District` refers on. */
  lemma ReferencesOfOwn(now: int)
    ensures References(StreetConfig(now)) == ["", "", "district"]
    ensures References(LocationConfig) == ["", "", "", "", "", "", "", ""]
    ensures References(ItemConfig) == ["", "", "", "", "", ""]
    ensures References(UserConfig) == ["", "", "", ""]
  {
    assert References(StreetConfig(now)) == ["", "", "district"];
    assert References(LocationConfig) == ["", "", "", "", "", "", "", ""];
    assert References(ItemConfig) == ["", "", "", "", "", ""];
  }

  /** The item and user validators: a slug name, non-negative prices and an
      email of the form `a@b.c`. */
  lemma ItemAndUserValidators()
    ensures Find(ItemConfig.fields, "Name").value.validation == Some(SlugName)
    ensures Find(ItemConfig.fields, "BasePrice").value.validation == Some(NonNegativePrice)
    ensures Find(ItemConfig.fields, "Price").value.validation == Some(NonNegativePrice)
    ensures Find(UserConfig.fields, "email").value.validation == Some(EmailShape)
  {
  }
}
