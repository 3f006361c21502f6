/** The detail page of src/components/ObjectView.tsx: the plain fields of a
    record, and each object or array field as a related-entity block that
    lists only the primitive properties its own configuration names. */
module SrcObjectView {
  import opened Text
  import opened JsValues
  import opened FormTypes
  import Knk = KnkObjectView

  /** `renderValue(key, value, formatter)`; unlike the knk-web-app page it
      never descends into objects: anything else prints with `toString`. */
  function RenderValue(key: string, value: Value, formatter: Option<Formatter>, loc: Locale): Knk.Node {
    if formatter.Some? then Knk.FormattedBy(formatter.value, value)
    else if IsNullish(value) then Knk.Dash
    else if key == "name" || key == "Name" then Knk.NamePill(value)
    else if value.Bool? then Knk.YesNo(value.b)
    else if value.Date? then Knk.Text(loc.localeDateString(value.time))
    else if value.InvalidDate? then Knk.Text("Invalid Date")
    else Knk.Text(ToStr(value, loc))
  }

  /** The two pages render a value alike unless it is a non-null object
      that reaches the generic branch, where knk-web-app draws a tree and
      this page prints `toString`. */
  lemma RenderValueAgreesWithKnk(key: string, value: Value, formatter: Option<Formatter>, loc: Locale)
    ensures (formatter.Some? || IsNullish(value) || key == "name" || key == "Name" || value.Bool?
             || value.Date? || value.InvalidDate? || TypeOf(value) != "object") ==>
      RenderValue(key, value, formatter, loc) == Knk.RenderValue(key, value, formatter, loc)
    ensures formatter.None? && key != "name" && key != "Name" && value.Obj? ==>
      RenderValue(key, value, formatter, loc) == Knk.Text("[object Object]")
      && Knk.RenderValue(key, value, formatter, loc) != Knk.Text("[object Object]")
  {
    if formatter.None? && key != "name" && key != "Name" && value.Obj? {
      var n := Knk.RenderValue(key, value, formatter, loc);
      assert n == Knk.RenderComplex(value, loc);
      assert !n.Text?;
    }
  }

  /** The lines of a related-entity block: properties other than `Id` whose
      value is not an object (null, dates and arrays included) and that the
      entity's configuration names, with that configuration's formatter. */
  function SubRows(entries: Entries, entity: ObjectConfig, loc: Locale): (rows: seq<Knk.Row>)
    ensures forall r :: r in rows ==>
      r.key != "Id" && r.key in Keys(entries) && Find(entity.fields, r.key).Some?
      && r.caption == Find(entity.fields, r.key).value.caption
    ensures UniqueKeys(entries) ==> forall r :: r in rows ==> TypeOf(Lookup(entries, r.key)) != "object"
    ensures forall i :: 0 <= i < |entries| && Listed(entries[i], entity) ==>
        Knk.Row(Find(entity.fields, entries[i].0).value.caption, entries[i].0,
          RenderValue(entries[i].0, entries[i].1, Find(entity.formatters, entries[i].0), loc)) in rows
    decreases |entries|
  {
    if |entries| == 0 then []
    else
      var k := entries[0].0;
      var v := entries[0].1;
      var rest := SubRows(entries[1..], entity, loc);
      assert Keys(entries) == [k] + Keys(entries[1..]);
      assert forall i :: 1 <= i < |entries| ==> entries[i] == entries[1..][i - 1];
      assert UniqueKeys(entries) ==> UniqueKeys(entries[1..]) && k !in Keys(entries[1..]);
      if k == "Id" || TypeOf(v) == "object" || Find(entity.fields, k).None? then rest
      else [Knk.Row(Find(entity.fields, k).value.caption, k, RenderValue(k, v, Find(entity.formatters, k), loc))] + rest
  }

  /** The property passes the filters of `renderRelatedEntity`. */
  predicate Listed(e: (string, Value), entity: ObjectConfig) {
    e.0 != "Id" && TypeOf(e.1) != "object" && Find(entity.fields, e.0).Some?
  }

  lemma {:induction false} AllObjectsNoRows(e: Entries, entity: ObjectConfig, loc: Locale)
    requires forall i :: 0 <= i < |e| ==> TypeOf(e[i].1) == "object"
    ensures SubRows(e, entity, loc) == []
    decreases |e|
  {
    if |e| > 0 {
      AllObjectsNoRows(e[1..], entity, loc);
    }
  }

  datatype Entry =
    | Related(key: string, title: string, rows: seq<Knk.Row>, viewPath: Option<string>)
    | Plain(key: string, caption: string, node: Knk.Node)

  /** `renderRelatedEntity(key, value, field)`: the entity is described by
      the field's own `objectConfig`. */
  function RenderRelated(key: string, value: Value, field: FormField, noViewButton: set<string>, loc: Locale): Option<Entry> {
    if !Truthy(value) || field.objectConfig.None? then None
    else
      var entity := field.objectConfig.value;
      Some(Related(key, field.caption + " Information", SubRows(OwnEntries(value), entity, loc),
        if key in noViewButton then None else Some("/view/" + entity.typeName + "/" + ToStr(Get(value, "Id"), loc))))
  }

  /** `Object.entries(data)` as `KnkObjectView.OwnEntries` defines it. */
  function OwnEntries(v: Value): Entries {
    Knk.OwnEntries(v)
  }

  /** The entry for one configured field, None when it renders nothing. */
  function RenderEntry(key: string, field: FormField, data: Value, config: ObjectConfig, noViewButton: set<string>, loc: Locale): Option<Entry> {
    var value := Get(data, key);
    if field.hidden then None
    else if field.fieldType == ObjectField || field.fieldType == ArrayField then RenderRelated(key, value, field, noViewButton, loc)
    else if TypeOf(value) == "object" && Find(config.formatters, key).None? then None
    else Some(Plain(key, field.caption, RenderValue(key, value, Find(config.formatters, key), loc)))
  }

  /** Outside related blocks, a null value of a field without formatter is
      skipped (`typeof null` is 'object') while an undefined one shows `-`;
      a date without formatter is skipped as well. */
  lemma NullSkippedUndefinedDashed(key: string, field: FormField, entries: Entries, config: ObjectConfig, nv: set<string>, loc: Locale)
    requires !field.hidden && field.fieldType != ObjectField && field.fieldType != ArrayField
    requires Find(config.formatters, key).None?
    ensures Lookup(entries, key).Null? ==> RenderEntry(key, field, Obj(entries), config, nv, loc).None?
    ensures Lookup(entries, key).Date? ==> RenderEntry(key, field, Obj(entries), config, nv, loc).None?
    ensures Lookup(entries, key).Undefined? ==>
      RenderEntry(key, field, Obj(entries), config, nv, loc) == Some(Plain(key, field.caption, Knk.Dash))
  {
  }

  /** A related entity whose properties are all objects, such as a list of
      records, shows no lines; its view link still uses `Id`. */
  lemma ObjectPropertiesNeverListed(key: string, items: seq<Value>, field: FormField, nv: set<string>, loc: Locale)
    requires field.objectConfig.Some? && key !in nv
    requires forall i :: 0 <= i < |items| ==> TypeOf(items[i]) == "object"
    ensures RenderRelated(key, Arr(items), field, nv, loc) ==
      Some(Related(key, field.caption + " Information", [],
        Some("/view/" + field.objectConfig.value.typeName + "/undefined")))
  {
    var e := OwnEntries(Arr(items));
    assert forall i :: 0 <= i < |e| ==> e[i].1 == items[i];
    AllObjectsNoRows(e, field.objectConfig.value, loc);
    var t := field.objectConfig.value.typeName;
    assert "/view/" + t + "/" + ToStr(Get(Arr(items), "Id"), loc) == "/view/" + t + "/undefined";
  }

  /** `Object.entries(config.fields).map(...)` without the nulls, and the heading. */
  function RenderEntries(fields: seq<(string, FormField)>, data: Value, config: ObjectConfig, nv: set<string>, loc: Locale): (entries: seq<Entry>)
    ensures |entries| <= |fields|
    ensures forall e :: e in entries ==> exists i :: 0 <= i < |fields| && !fields[i].1.hidden && fields[i].0 == e.key
    ensures entries == Somes(seq(|fields|, i requires 0 <= i < |fields| =>
      RenderEntry(fields[i].0, fields[i].1, data, config, nv, loc)))
    decreases |fields|
  {
    if |fields| == 0 then []
    else
      var all := seq(|fields|, i requires 0 <= i < |fields| =>
        RenderEntry(fields[i].0, fields[i].1, data, config, nv, loc));
      var tail := fields[1..];
      assert all[1..] == seq(|tail|, i requires 0 <= i < |tail| =>
        RenderEntry(tail[i].0, tail[i].1, data, config, nv, loc));
      var rest := RenderEntries(fields[1..], data, config, nv, loc);
      assert forall e :: e in rest ==> exists i :: 0 <= i < |fields| && !fields[i].1.hidden && fields[i].0 == e.key by {
        forall e | e in rest ensures exists i :: 0 <= i < |fields| && !fields[i].1.hidden && fields[i].0 == e.key {
          var i :| 0 <= i < |fields[1..]| && !fields[1..][i].1.hidden && fields[1..][i].0 == e.key;
          assert fields[i + 1] == fields[1..][i];
        }
      }
      match RenderEntry(fields[0].0, fields[0].1, data, config, nv, loc)
      case Some(e) =>
        assert e.key == fields[0].0 && !fields[0].1.hidden;
        [e] + rest
      case None => rest
  }

  function ObjectView(data: Value, config: ObjectConfig, nv: set<string>, loc: Locale): (string, seq<Entry>) {
    ((if Truthy(Get(data, "Name")) then ToStr(Get(data, "Name"), loc) else config.caption) + " Details",
     RenderEntries(config.fields, data, config, nv, loc))
  }
}
