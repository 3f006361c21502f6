/** The detail page of knk-web-app/src/components/ObjectView.tsx: one
    entry per configured field, related entities as collapsible sections
    filtered by a display mode, and a recursive rendering of arrays, maps,
    sets and plain objects. The rendered page is a tree of `Node`s. */
module KnkObjectView {
  import opened Text
  import opened JsValues
  import opened FormTypes
  import ObjectConfigs

  /** The label in front of one element of a collapsible section. */
  datatype Label =
    | Index(i: nat)       // `[i]` before an array element
    | MapKey(k: Value)    // `key →` before a map value
    | Bullet              // `•` before a set element
    | Prop(name: string)  // `key:` before an object property

  datatype Node =
    | FormattedBy(f: Formatter, raw: Value)  // the configured formatter applied to the value
    | Dash                                   // grey `-`
    | Muted(text: string)                    // grey text: "Empty object", "No streets assigned"
    | NamePill(v: Value)                     // the value in a pill
    | YesNo(yes: bool)                       // green Yes or red No badge
    | Text(s: string)
    | Section(title: string, kind: string, count: nat, expanded: bool, items: seq<(Label, Node)>)

  /** A `CollapsibleSection`: its children show while it is expanded. */
  class CollapsibleSection {
    var isExpanded: bool

    constructor (defaultExpanded: bool)
      ensures isExpanded == defaultExpanded
    {
      isExpanded := defaultExpanded;
    }

    /** A click on the header. */
    method Toggle()
      modifies this
      ensures isExpanded == !old(isExpanded)
    {
      isExpanded := !isExpanded;
    }

    predicate ShowsChildren()
      reads this
    {
      isExpanded
    }
  }

  // ----- renderComplexValue -----

  /** `isDistrictViewDTO(value) && value.StreetNames` */
  predicate IsDistrictView(v: Value) {
    Truthy(v) && TypeOf(v) == "object" && HasKey(v, "StreetNames") && Get(v, "StreetNames").MapV?
  }

  /** `renderStreetNamesMap(streetNames)` */
  function StreetNamesNode(pairs: seq<(Value, Value)>): Node {
    if |pairs| == 0 then Muted("No streets assigned")
    else Section("Street Names", "Map<number, string>", |pairs|, true,
      seq(|pairs|, i requires 0 <= i < |pairs| => (MapKey(pairs[i].0), NamePill(pairs[i].1))))
  }

  /** The element type shown in a section badge: `typeof` of the first
      element, or "unknown" when there is none (for a map, also when the
      first key or value is null). */
  function FirstType(xs: seq<Value>): string {
    if |xs| > 0 then TypeOf(xs[0]) else "unknown"
  }

  function FirstNonNullType(present: bool, x: Value): string {
    if present && !x.Null? then TypeOf(x) else "unknown"
  }

  /** `renderComplexValue(value)` */
  function RenderComplex(v: Value, loc: Locale): Node
    decreases v
  {
    if IsNullish(v) then Dash
    else if IsDistrictView(v) then StreetNamesNode(Get(v, "StreetNames").pairs)
    else match v
      case Arr(items) =>
        Section("Array", FirstType(items) + "[]", |items|, false,
          seq(|items|, i requires 0 <= i < |items| => (Index(i), RenderComplex(items[i], loc))))
      case MapV(pairs) =>
        var keyType := FirstNonNullType(|pairs| > 0, if |pairs| > 0 then pairs[0].0 else Null);
        var valueType := FirstNonNullType(|pairs| > 0, if |pairs| > 0 then pairs[0].1 else Null);
        Section("Map", "Map<" + keyType + ", " + valueType + ">", |pairs|, false,
          seq(|pairs|, i requires 0 <= i < |pairs| => (MapKey(pairs[i].0), RenderComplex(pairs[i].1, loc))))
      case SetV(elems) =>
        Section("Set", "Set<" + FirstType(elems) + ">", |elems|, false,
          seq(|elems|, i requires 0 <= i < |elems| => (Bullet, RenderComplex(elems[i], loc))))
      case Obj(entries) =>
        if |entries| == 0 then Muted("Empty object")
        else Section("Object", "Object", |entries|, false,
          seq(|entries|, i requires 0 <= i < |entries| => (Prop(entries[i].0), RenderComplex(entries[i].1, loc))))
      case Date(_) => Muted("Empty object")
      case InvalidDate => Muted("Empty object")
      case _ => Text(ToStr(v, loc))
  }

  /** Every section's badge count is its number of children, and only the
      street-names section starts expanded. */
  predicate WellCounted(n: Node)
    decreases n
  {
    n.Section? ==>
      n.count == |n.items| && (n.expanded <==> n.title == "Street Names")
      && forall i :: 0 <= i < |n.items| ==> WellCounted(n.items[i].1)
  }

  lemma {:induction false} RenderComplexWellCounted(v: Value, loc: Locale)
    ensures WellCounted(RenderComplex(v, loc))
    decreases v
  {
    var n := RenderComplex(v, loc);
    if IsNullish(v) || IsDistrictView(v) {
    } else {
      match v
      case Arr(items) =>
        forall i | 0 <= i < |items| ensures WellCounted(n.items[i].1) {
          RenderComplexWellCounted(items[i], loc);
        }
      case MapV(pairs) =>
        forall i | 0 <= i < |pairs| ensures WellCounted(n.items[i].1) {
          RenderComplexWellCounted(pairs[i].1, loc);
        }
      case SetV(elems) =>
        forall i | 0 <= i < |elems| ensures WellCounted(n.items[i].1) {
          RenderComplexWellCounted(elems[i], loc);
        }
      case Obj(entries) =>
        if |entries| > 0 {
          forall i | 0 <= i < |entries| ensures WellCounted(n.items[i].1) {
            RenderComplexWellCounted(entries[i].1, loc);
          }
        }
      case _ =>
    }
  }

  /** The street-names map of a district DTO takes precedence over the
      generic object rendering; an empty map reads "No streets assigned". */
  lemma DistrictStreetNames(entries: seq<(string, Value)>, pairs: seq<(Value, Value)>, loc: Locale)
    requires "StreetNames" in Keys(entries) && Lookup(entries, "StreetNames") == MapV(pairs)
    ensures RenderComplex(Obj(entries), loc) ==
      if |pairs| == 0 then Muted("No streets assigned")
      else Section("Street Names", "Map<number, string>", |pairs|, true,
        seq(|pairs|, i requires 0 <= i < |pairs| => (MapKey(pairs[i].0), NamePill(pairs[i].1))))
    ensures |entries| > 0
  {
  }

  // ----- renderValue -----

  /** `renderValue(key, value, formatter)` */
  function RenderValue(key: string, value: Value, formatter: Option<Formatter>, loc: Locale): Node {
    if formatter.Some? then FormattedBy(formatter.value, value)
    else if IsNullish(value) then Dash
    else if key == "name" || key == "Name" then NamePill(value)
    else if value.Bool? then YesNo(value.b)
    else if value.Date? then Text(loc.localeDateString(value.time))
    else if value.InvalidDate? then Text("Invalid Date")
    else if TypeOf(value) == "object" then RenderComplex(value, loc)
    else Text(ToStr(value, loc))
  }

  /** The order of `renderValue`'s checks: the formatter, then nullish, then
      the name pill (whatever the value's type), then booleans. */
  lemma RenderValuePriority(key: string, value: Value, formatter: Option<Formatter>, loc: Locale)
    ensures formatter.Some? ==> RenderValue(key, value, formatter, loc) == FormattedBy(formatter.value, value)
    ensures formatter.None? && IsNullish(value) ==> RenderValue(key, value, formatter, loc) == Dash
    ensures RenderValue(key, value, formatter, loc).NamePill? <==>
      formatter.None? && !IsNullish(value) && (key == "name" || key == "Name")
    ensures RenderValue(key, value, formatter, loc).YesNo? <==>
      formatter.None? && value.Bool? && key != "name" && key != "Name"
    ensures RenderValue(key, value, formatter, loc).Dash? <==> formatter.None? && IsNullish(value)
  {
    if formatter.None? && !IsNullish(value) && key != "name" && key != "Name" && !value.Bool? && TypeOf(value) == "object" {
      assert !RenderComplex(value, loc).NamePill?;
      assert !RenderComplex(value, loc).YesNo?;
    }
  }

  /** A date at the top level prints as a locale date, but inside an array
      or object it has no own keys and reads "Empty object". */
  lemma NestedDateIsEmptyObject(key: string, t: int, loc: Locale)
    requires key != "name" && key != "Name"
    ensures RenderValue(key, Date(t), None, loc) == Text(loc.localeDateString(t))
    ensures RenderValue(key, Arr([Date(t)]), None, loc) ==
      Section("Array", "object[]", 1, false, [(Index(0), Muted("Empty object"))])
  {
    var items := [Date(t)];
    assert !IsDistrictView(Arr(items));
    assert RenderComplex(items[0], loc) == Muted("Empty object");
  }

  // ----- RelatedEntity -----

  /** `fieldDisplayConfig[key].fieldDisplayMode`, absent meaning 'all'. */
  datatype DisplayMode = AllFields | IdAndName | NameOnly | NoFields

  /** `shouldShowField(key)`: the comparison ignores case. */
  predicate ShouldShowField(key: string, mode: DisplayMode) {
    match mode
    case NameOnly => Lower(key) == "name"
    case IdAndName => Lower(key) == "name" || Lower(key) == "id"
    case _ => true
  }

  /** `Object.entries(data)`: an object's own entries, an array's indices
      and a string's characters; nothing for other values. */
  function OwnEntries(v: Value): Entries {
    match v
    case Obj(entries) => entries
    case Arr(items) => seq(|items|, i requires 0 <= i < |items| => (IntToString(i), items[i]))
    case Str(s) => seq(|s|, i requires 0 <= i < |s| => (IntToString(i), Str([s[i]])))
    case _ => []
  }

  /** One line of a related entity: caption, key and rendered value. */
  datatype Row = Row(caption: string, key: string, node: Node)

  /** `field.label || key` */
  function CaptionOf(f: FormField, key: string): string {
    if f.caption != "" then f.caption else key
  }

  /** The lines `RelatedEntity` shows for `entries`: those with a field in
      the entity's configuration that the display mode lets through. */
  function RelatedRows(entries: Entries, fields: seq<(string, FormField)>, mode: DisplayMode, loc: Locale): (rows: seq<Row>)
    ensures forall r :: r in rows ==>
      r.key in Keys(entries) && Find(fields, r.key).Some? && ShouldShowField(r.key, mode)
      && r.caption == CaptionOf(Find(fields, r.key).value, r.key)
    ensures forall i :: 0 <= i < |entries| && Find(fields, entries[i].0).Some? && ShouldShowField(entries[i].0, mode) ==>
      Row(CaptionOf(Find(fields, entries[i].0).value, entries[i].0), entries[i].0, RenderValue(entries[i].0, entries[i].1, None, loc)) in rows
    ensures |rows| <= |entries|
    decreases |entries|
  {
    if |entries| == 0 then []
    else
      var k := entries[0].0;
      var rest := RelatedRows(entries[1..], fields, mode, loc);
      assert Keys(entries) == [k] + Keys(entries[1..]);
      assert forall i :: 1 <= i < |entries| ==> entries[i] == entries[1..][i - 1];
      if Find(fields, k).Some? && ShouldShowField(k, mode) then
        [Row(CaptionOf(Find(fields, k).value, k), k, RenderValue(k, entries[0].1, None, loc))] + rest
      else rest
  }

  /** `RelatedEntity`: nothing for falsy data. */
  function RelatedEntity(data: Value, fields: seq<(string, FormField)>, mode: DisplayMode, loc: Locale): Option<seq<Row>> {
    if !Truthy(data) then None else Some(RelatedRows(OwnEntries(data), fields, mode, loc))
  }

  /** In 'nameOnly' mode every line is a name, in any letter case; in
      'idAndName' mode every line is a name or an id. */
  lemma DisplayModesRestrict(entries: Entries, fields: seq<(string, FormField)>, loc: Locale)
    ensures forall r :: r in RelatedRows(entries, fields, NameOnly, loc) ==> Lower(r.key) == "name"
    ensures forall r :: r in RelatedRows(entries, fields, IdAndName, loc) ==> Lower(r.key) in {"name", "id"}
    ensures RelatedRows([("Name", Str("x"))], [("Name", NameFieldOf("Name"))], NameOnly, loc) ==
      [Row("Name", "Name", NamePill(Str("x")))]
  {
    assert Lower("Name") == "name";
  }

  function NameFieldOf(key: string): FormField {
    FormField(key, "Name", TextField, false, None, [], None, None, None, false)
  }

  // ----- the page -----

  datatype Icon = MapPinIcon | BuildingIcon | HomeIcon | NoIcon

  function IconFor(typeName: string): Icon {
    if typeName == "district" then MapPinIcon
    else if typeName == "structure" then BuildingIcon
    else if typeName == "town" then HomeIcon
    else NoIcon
  }

  datatype FieldView =
    | Related(key: string, title: string, icon: Icon, rows: seq<Row>, viewPath: Option<string>)
    | Block(key: string, caption: string, node: Node)   // arrays and objects: full width
    | Inline(key: string, caption: string, node: Node)

  /** What the page is given besides the data: its configuration, the
      registry related entities are looked up in, the per-field display
      modes, and the fields whose `showViewButton` is false. */
  datatype Setting = Setting(
    config: ObjectConfig,
    registry: seq<(string, ObjectConfig)>,
    modes: map<string, DisplayMode>,
    noViewButton: set<string>,
    loc: Locale)

  /** `renderField(key, value, field)`, None when it renders nothing. */
  function RenderField(key: string, value: Value, field: FormField, s: Setting): Option<FieldView> {
    if field.hidden || (key in s.modes && s.modes[key] == NoFields) then None
    else if field.fieldType == ObjectField && Truthy(value) && field.objectConfig.Some? then
      var t := field.objectConfig.value.typeName;
      match Find(s.registry, t)
      case None => None
      case Some(entity) =>
        var mode := if key in s.modes then s.modes[key] else AllFields;
        Some(Related(key, field.caption + " Information", IconFor(t),
          RelatedRows(OwnEntries(value), entity.fields, mode, s.loc),
          if key in s.noViewButton then None else Some("/view/" + t + "/" + ToStr(Get(value, "id"), s.loc))))
    else if field.fieldType == ArrayField || IsObjectLike(value) then
      Some(Block(key, field.caption, RenderValue(key, value, Find(s.config.formatters, key), s.loc)))
    else Some(Inline(key, field.caption, RenderValue(key, value, Find(s.config.formatters, key), s.loc)))
  }

  /** Which fields render nothing, and when a related entity is shown. */
  lemma RenderFieldCases(key: string, value: Value, field: FormField, s: Setting)
    ensures field.hidden ==> RenderField(key, value, field, s).None?
    ensures key in s.modes && s.modes[key] == NoFields ==> RenderField(key, value, field, s).None?
    ensures RenderField(key, value, field, s).None? <==>
      field.hidden || (key in s.modes && s.modes[key] == NoFields)
      || (field.fieldType == ObjectField && Truthy(value) && field.objectConfig.Some?
          && Find(s.registry, field.objectConfig.value.typeName).None?)
    ensures RenderField(key, value, field, s).Some? && RenderField(key, value, field, s).value.Related? ==>
      var r := RenderField(key, value, field, s).value;
      Truthy(value) && field.objectConfig.Some? && r.title == field.caption + " Information"
      && (r.viewPath.Some? <==> key !in s.noViewButton)
      && (r.viewPath.Some? ==>
            r.viewPath.value == "/view/" + field.objectConfig.value.typeName + "/" + ToStr(Get(value, "id"), s.loc))
  {
  }

  /** `Object.entries(config.fields).map(...)` without the nulls. */
  function RenderFields(fields: seq<(string, FormField)>, data: Value, s: Setting): (views: seq<FieldView>)
    ensures |views| <= |fields|
    ensures forall v :: v in views ==> exists i :: 0 <= i < |fields| && RenderField(fields[i].0, Get(data, fields[i].0), fields[i].1, s) == Some(v)
    ensures views == Somes(seq(|fields|, i requires 0 <= i < |fields| =>
      RenderField(fields[i].0, Get(data, fields[i].0), fields[i].1, s)))
    decreases |fields|
  {
    if |fields| == 0 then []
    else
      var all := seq(|fields|, i requires 0 <= i < |fields| =>
        RenderField(fields[i].0, Get(data, fields[i].0), fields[i].1, s));
      var tail := fields[1..];
      assert all[1..] == seq(|tail|, i requires 0 <= i < |tail| =>
        RenderField(tail[i].0, Get(data, tail[i].0), tail[i].1, s));
      var rest := RenderFields(fields[1..], data, s);
      assert forall v :: v in rest ==> exists i :: 0 <= i < |fields| && RenderField(fields[i].0, Get(data, fields[i].0), fields[i].1, s) == Some(v) by {
        forall v | v in rest
          ensures exists i :: 0 <= i < |fields| && RenderField(fields[i].0, Get(data, fields[i].0), fields[i].1, s) == Some(v)
        {
          var i :| 0 <= i < |fields[1..]| && RenderField(fields[1..][i].0, Get(data, fields[1..][i].0), fields[1..][i].1, s) == Some(v);
          assert fields[i + 1] == fields[1..][i];
        }
      }
      match RenderField(fields[0].0, Get(data, fields[0].0), fields[0].1, s)
      case Some(v) => [v] + rest
      case None => rest
  }

  /** `ObjectView({ data, config })`: the heading and the field entries. */
  function ObjectView(data: Value, s: Setting): (page: (string, seq<FieldView>)) {
    ((if Truthy(Get(data, "Name")) then ToStr(Get(data, "Name"), s.loc) else s.config.caption) + " Details",
     RenderFields(s.config.fields, data, s))
  }

  /** The heading names the object by its `Name` when that is truthy and by
      its configuration otherwise; hidden fields never appear. */
  lemma ObjectViewHeading(data: Value, s: Setting)
    ensures Truthy(Get(data, "Name")) && Get(data, "Name").Str? ==>
      ObjectView(data, s).0 == Get(data, "Name").s + " Details"
    ensures !Truthy(Get(data, "Name")) ==> ObjectView(data, s).0 == s.config.caption + " Details"
    ensures forall v :: v in ObjectView(data, s).1 ==>
      exists i :: 0 <= i < |s.config.fields| && !s.config.fields[i].1.hidden && s.config.fields[i].0 == v.key
  {
    var views := ObjectView(data, s).1;
    forall v | v in views
      ensures exists i :: 0 <= i < |s.config.fields| && !s.config.fields[i].1.hidden && s.config.fields[i].0 == v.key
    {
      var i :| 0 <= i < |s.config.fields|
        && RenderField(s.config.fields[i].0, Get(data, s.config.fields[i].0), s.config.fields[i].1, s) == Some(v);
    }
  }

  /** With the entity registry every reference a configuration makes is
      registered, so a related entity with a truthy value is always shown. */
  lemma RegistryResolvesReferences(now: int)
    ensures forall i, r :: 0 <= i < |ObjectConfigs.Registry(now)| && r in ObjectConfigs.References(ObjectConfigs.Registry(now)[i].1) && r != "" ==>
      Find(ObjectConfigs.Registry(now), r).Some?
  {
    ObjectConfigs.ReferencesOfInherited(now);
    ObjectConfigs.ReferencesOfOwn(now);
    ObjectConfigs.TypeTagsAreKeys(now);
    var reg := ObjectConfigs.Registry(now);
    forall r | r in {"location", "town", "district", "street"} ensures Find(reg, r).Some? {
      assert r in EntryKeys(reg);
    }
  }
}
