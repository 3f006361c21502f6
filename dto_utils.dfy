/** The field helpers: `extractFieldsFromDTO`
    (knk-web-app/src/utils/dtoUtils/DTOFieldExtractor.ts) describes each own
    property of a DTO instance by name and `typeof`, and `mergeDTOWithConfig`
    (src/utils/dtoUtils/ConfigDTOMerger.ts) overlays the configured field
    attributes on those descriptions. Both fill a fresh object in a `for-in`
    loop over the own keys. */
module DtoUtils {
  import opened Text
  import opened JsValues

  /** `{ name: key, type: typeof value }` */
  function Describe(key: string, value: Value): Value {
    Obj([("name", Str(key)), ("type", Str(TypeOf(value)))])
  }

  /** The object `extractFieldsFromDTO` builds, entry by entry. */
  function ExtractedFields(dto: Entries): (fields: Entries)
    ensures Keys(fields) == Keys(dto)
  {
    seq(|dto|, i requires 0 <= i < |dto| => (dto[i].0, Describe(dto[i].0, dto[i].1)))
  }

  /** The merged description of one key: the DTO's attributes, overridden by
      those of `config[key]` (nothing when the config lacks the key). */
  function MergedField(dtoField: Value, configField: Value): Value {
    Obj(Assign(SpreadOf(dtoField), SpreadOf(configField)))
  }

  /** The object `mergeDTOWithConfig` builds, entry by entry. */
  function MergedFields(dtoFields: Entries, config: Entries): (merged: Entries)
    ensures Keys(merged) == Keys(dtoFields)
  {
    seq(|dtoFields|, i requires 0 <= i < |dtoFields| =>
      (dtoFields[i].0, MergedField(dtoFields[i].1, Lookup(config, dtoFields[i].0))))
  }

  /** Writing a key the object does not have yet appends it. */
  lemma {:induction false} PutFresh(e: Entries, k: string, x: Value)
    requires k !in Keys(e)
    ensures Put(e, k, x) == e + [(k, x)]
    decreases |e|
  {
    if |e| > 0 {
      assert Keys(e) == [e[0].0] + Keys(e[1..]);
      PutFresh(e[1..], k, x);
    }
  }

  lemma KeysPrefix(e: Entries, i: int)
    requires 0 <= i < |e|
    ensures Keys(e[..i]) == Keys(e)[..i]
    ensures Keys(e[..i + 1]) == Keys(e[..i]) + [e[i].0]
  {
  }

  /** `extractFieldsFromDTO(dto)` for an object `dto`. */
  method ExtractFieldsFromDTO(dto: Entries) returns (fields: Entries)
    requires UniqueKeys(dto)
    ensures fields == ExtractedFields(dto)
  {
    fields := [];
    var i := 0;
    while i < |dto|
      invariant 0 <= i <= |dto|
      invariant fields == ExtractedFields(dto[..i])
    {
      var key := dto[i].0;
      KeysPrefix(dto, i);
      assert key !in Keys(dto[..i]) by {
        forall j | 0 <= j < i ensures dto[j].0 != key { }
      }
      PutFresh(fields, key, Describe(key, dto[i].1));
      fields := Put(fields, key, Describe(key, dto[i].1));
      i := i + 1;
    }
    assert dto[..i] == dto;
  }

  /** `mergeDTOWithConfig(dtoFields, config)` for objects. */
  method MergeDTOWithConfig(dtoFields: Entries, config: Entries) returns (merged: Entries)
    requires UniqueKeys(dtoFields)
    ensures merged == MergedFields(dtoFields, config)
  {
    merged := [];
    var i := 0;
    while i < |dtoFields|
      invariant 0 <= i <= |dtoFields|
      invariant merged == MergedFields(dtoFields[..i], config)
    {
      var key := dtoFields[i].0;
      KeysPrefix(dtoFields, i);
      assert key !in Keys(dtoFields[..i]) by {
        forall j | 0 <= j < i ensures dtoFields[j].0 != key { }
      }
      var entry := MergedField(dtoFields[i].1, Lookup(config, key));
      PutFresh(merged, key, entry);
      merged := Put(merged, key, entry);
      i := i + 1;
    }
    assert dtoFields[..i] == dtoFields;
  }

  // ----- what the results mean -----

  lemma {:induction false} LookupAt(e: Entries, i: int)
    requires UniqueKeys(e) && 0 <= i < |e|
    ensures Lookup(e, e[i].0) == e[i].1
    decreases i
  {
    if i > 0 {
      assert e[0].0 != e[i].0;
      assert e[1..][i - 1] == e[i];
      LookupAt(e[1..], i - 1);
    }
  }

  lemma {:induction false} LookupMissing(e: Entries, k: string)
    requires k !in Keys(e)
    ensures Lookup(e, k) == Undefined
    decreases |e|
  {
    if |e| > 0 {
      assert Keys(e) == [e[0].0] + Keys(e[1..]);
      LookupMissing(e[1..], k);
    }
  }

  /** One entry per own key, named by its key and typed by `typeof` of its value. */
  lemma ExtractedFieldDescribes(dto: Entries, key: string)
    requires UniqueKeys(dto)
    ensures key in Keys(ExtractedFields(dto)) <==> key in Keys(dto)
    ensures key in Keys(dto) ==>
      Get(Lookup(ExtractedFields(dto), key), "name") == Str(key)
      && Get(Lookup(ExtractedFields(dto), key), "type") == Str(TypeOf(Lookup(dto, key)))
    ensures |dto| == 0 ==> ExtractedFields(dto) == []
  {
    if key in Keys(dto) {
      var i :| 0 <= i < |dto| && Keys(dto)[i] == key;
      var f := ExtractedFields(dto);
      assert Keys(f) == Keys(dto);
      LookupAt(dto, i);
      LookupAt(f, i);
      var d := Describe(key, dto[i].1);
      assert Lookup(f, key) == d;
      var rest := d.entries[1..];
      assert rest[0] == ("type", Str(TypeOf(dto[i].1)));
      assert Lookup(rest, "type") == Str(TypeOf(dto[i].1));
      assert Lookup(d.entries, "type") == Lookup(rest, "type");
    }
  }

  /** The merged object has exactly the DTO's keys; for each, an attribute
      the config entry defines wins and every other attribute of the DTO
      entry is kept. Keys only in `config` are dropped. */
  lemma MergedFieldOverrides(dtoFields: Entries, config: Entries, key: string, attr: string)
    requires UniqueKeys(dtoFields)
    requires key in Keys(dtoFields)
    requires Lookup(config, key).Obj? ==> UniqueKeys(Lookup(config, key).entries)
    ensures Get(Lookup(MergedFields(dtoFields, config), key), attr) ==
      if HasKey(Lookup(config, key), attr) then Get(Lookup(config, key), attr)
      else Get(Lookup(dtoFields, key), attr)
  {
    var i :| 0 <= i < |dtoFields| && Keys(dtoFields)[i] == key;
    var m := MergedFields(dtoFields, config);
    assert Keys(m) == Keys(dtoFields);
    LookupAt(dtoFields, i);
    LookupAt(m, i);
    var c := Lookup(config, key);
    if c.Obj? {
      LookupAssign(SpreadOf(Lookup(dtoFields, key)), c.entries, attr);
    } else {
      assert SpreadOf(c) == [];
    }
  }

  /** A key that is not an own key of the DTO descriptions is not in the result. */
  lemma MergedDropsConfigOnlyKeys(dtoFields: Entries, config: Entries, key: string)
    requires key !in Keys(dtoFields)
    ensures key !in Keys(MergedFields(dtoFields, config))
    ensures Lookup(MergedFields(dtoFields, config), key) == Undefined
  {
    LookupMissing(MergedFields(dtoFields, config), key);
  }

  /** Without a config entry the merged description is a copy of the DTO's. */
  lemma MergedWithoutConfig(dtoFields: Entries, config: Entries, i: int)
    requires UniqueKeys(dtoFields) && 0 <= i < |dtoFields|
    requires dtoFields[i].0 !in Keys(config) && dtoFields[i].1.Obj?
    ensures MergedFields(dtoFields, config)[i].1 == dtoFields[i].1
  {
    LookupMissing(config, dtoFields[i].0);
  }
}
