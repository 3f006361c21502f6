/** The UI field configuration records (src/utils/domain/dto/
    UIFieldConfigurationDTO.ts) and the page that lists, creates, updates
    and deletes them (src/pages/UIFieldConfigurationsPage.tsx). A record's
    attributes are JavaScript values: the constructor only replaces falsy
    inputs by defaults, it checks no types. */
module UIFieldConfigurations {
  import opened JsValues
  import opened Seqs
  import DtoUtils

  datatype UIFieldConfiguration = UIFieldConfiguration(
    id: Value, objectType: Value, fieldName: Value, caption: Value, typeName: Value,
    required: Value, placeholder: Value, optionsEndpoint: Value, readonly: Value)

  /** `new UIFieldConfigurationDTO(data)` for a plain object `data`. */
  function New(data: Value): (c: UIFieldConfiguration)
    ensures Normalised(c)
    ensures Truthy(Get(data, "id")) ==> c.id == Get(data, "id")
    ensures !Truthy(Get(data, "id")) ==> c.id == Num(0)
    ensures Truthy(Get(data, "objectType")) ==> c.objectType == Get(data, "objectType")
    ensures !Truthy(Get(data, "objectType")) ==> c.objectType == Str("")
    ensures Truthy(Get(data, "fieldName")) ==> c.fieldName == Get(data, "fieldName")
    ensures !Truthy(Get(data, "fieldName")) ==> c.fieldName == Str("")
    ensures Truthy(Get(data, "label")) ==> c.caption == Get(data, "label")
    ensures !Truthy(Get(data, "label")) ==> c.caption == Str("")
    ensures Truthy(Get(data, "type")) ==> c.typeName == Get(data, "type")
    ensures !Truthy(Get(data, "type")) ==> c.typeName == Str("")
    ensures Truthy(Get(data, "required")) ==> c.required == Get(data, "required")
    ensures !Truthy(Get(data, "required")) ==> c.required == Bool(false)
    ensures Truthy(Get(data, "readonly")) ==> c.readonly == Get(data, "readonly")
    ensures !Truthy(Get(data, "readonly")) ==> c.readonly == Bool(false)
    ensures c.placeholder == Get(data, "placeholder") && c.optionsEndpoint == Get(data, "optionsEndpoint")
  {
    UIFieldConfiguration(
      Or(Get(data, "id"), Num(0)),
      Or(Get(data, "objectType"), Str("")),
      Or(Get(data, "fieldName"), Str("")),
      Or(Get(data, "label"), Str("")),
      Or(Get(data, "type"), Str("")),
      Or(Get(data, "required"), Bool(false)),
      Get(data, "placeholder"),
      Get(data, "optionsEndpoint"),
      Or(Get(data, "readonly"), Bool(false)))
  }

  /** Every attribute the constructor defaults is truthy or its default. */
  predicate Normalised(c: UIFieldConfiguration) {
    (Truthy(c.id) || c.id == Num(0))
    && (Truthy(c.objectType) || c.objectType == Str(""))
    && (Truthy(c.fieldName) || c.fieldName == Str(""))
    && (Truthy(c.caption) || c.caption == Str(""))
    && (Truthy(c.typeName) || c.typeName == Str(""))
    && (Truthy(c.required) || c.required == Bool(false))
    && (Truthy(c.readonly) || c.readonly == Bool(false))
  }

  /** `toApi()`: the nine attributes under their wire names. */
  function ToApi(c: UIFieldConfiguration): (v: Value)
    ensures v.Obj? && UniqueKeys(v.entries)
    ensures Keys(v.entries) == ["id", "objectType", "fieldName", "label", "type", "required",
                                "placeholder", "optionsEndpoint", "readonly"]
  {
    Obj([("id", c.id), ("objectType", c.objectType), ("fieldName", c.fieldName),
         ("label", c.caption), ("type", c.typeName), ("required", c.required),
         ("placeholder", c.placeholder), ("optionsEndpoint", c.optionsEndpoint),
         ("readonly", c.readonly)])
  }

  /** The nine wire attributes of any payload, read with `data.x`. */
  function Raw(data: Value): UIFieldConfiguration {
    UIFieldConfiguration(Get(data, "id"), Get(data, "objectType"), Get(data, "fieldName"),
      Get(data, "label"), Get(data, "type"), Get(data, "required"), Get(data, "placeholder"),
      Get(data, "optionsEndpoint"), Get(data, "readonly"))
  }

  /** `UIFieldConfigurationDTO.fromApi(data)`: it copies the nine wire
      attributes into the constructor. */
  function FromApi(data: Value): UIFieldConfiguration {
    New(ToApi(Raw(data)))
  }

  /** Each wire name of `toApi()` reads back its attribute. */
  lemma ApiLookups(c: UIFieldConfiguration)
    ensures Raw(ToApi(c)) == c
  {
    var e := ToApi(c).entries;
    DtoUtils.LookupAt(e, 0);
    DtoUtils.LookupAt(e, 1);
    DtoUtils.LookupAt(e, 2);
    DtoUtils.LookupAt(e, 3);
    DtoUtils.LookupAt(e, 4);
    DtoUtils.LookupAt(e, 5);
    DtoUtils.LookupAt(e, 6);
    DtoUtils.LookupAt(e, 7);
    DtoUtils.LookupAt(e, 8);
  }

  /** A normalised record survives the wire in both directions, and
      `fromApi` reads any payload exactly as the constructor does. */
  lemma RoundTrip(c: UIFieldConfiguration, data: Value)
    ensures Normalised(c) ==> FromApi(ToApi(c)) == c
    ensures FromApi(data) == New(data)
  {
    ApiLookups(c);
    ApiLookups(Raw(data));
  }

  /** Normalising twice is normalising once; so is re-reading the page's
      own spread `{ ...config }` of a record. */
  lemma NewIdempotent(data: Value)
    ensures New(ToApi(New(data))) == New(data)
  {
    ApiLookups(New(data));
  }

  /** The edit inputs: `new UIFieldConfigurationDTO({ ...editingConfig, objectType })`. */
  function WithObjectType(c: UIFieldConfiguration, objectType: string): UIFieldConfiguration {
    New(Obj(Put(ToApi(c).entries, "objectType", Str(objectType))))
  }

  function WithFieldName(c: UIFieldConfiguration, fieldName: string): UIFieldConfiguration {
    New(Obj(Put(ToApi(c).entries, "fieldName", Str(fieldName))))
  }

  /** Typing into an input changes that attribute only, of a normalised record. */
  lemma EditChangesOneAttribute(c: UIFieldConfiguration, s: string)
    requires Normalised(c)
    ensures WithObjectType(c, s) == c.(objectType := Str(s))
    ensures WithFieldName(c, s) == c.(fieldName := Str(s))
  {
    EditObjectType(c, s);
    EditFieldName(c, s);
  }

  lemma EditObjectType(c: UIFieldConfiguration, s: string)
    requires Normalised(c)
    ensures WithObjectType(c, s) == c.(objectType := Str(s))
  {
    var c1 := c.(objectType := Str(s));
    PutObjectType(c, s);
    NewOfApi(c1);
  }

  lemma PutObjectType(c: UIFieldConfiguration, s: string)
    ensures Obj(Put(ToApi(c).entries, "objectType", Str(s))) == ToApi(c.(objectType := Str(s)))
  {
    var e := ToApi(c).entries;
    assert Put(e[1..], "objectType", Str(s)) == [("objectType", Str(s))] + e[2..];
  }

  lemma EditFieldName(c: UIFieldConfiguration, s: string)
    requires Normalised(c)
    ensures WithFieldName(c, s) == c.(fieldName := Str(s))
  {
    var c2 := c.(fieldName := Str(s));
    PutFieldName(c, s);
    NewOfApi(c2);
  }

  lemma PutFieldName(c: UIFieldConfiguration, s: string)
    ensures Obj(Put(ToApi(c).entries, "fieldName", Str(s))) == ToApi(c.(fieldName := Str(s)))
  {
    var e := ToApi(c).entries;
    assert Put(e[2..], "fieldName", Str(s)) == [("fieldName", Str(s))] + e[3..];
    assert Put(e[1..], "fieldName", Str(s)) == [e[1]] + Put(e[2..], "fieldName", Str(s));
  }

  /** The constructor gives a normalised record back unchanged. */
  lemma NewOfApi(c: UIFieldConfiguration)
    requires Normalised(c)
    ensures New(ToApi(c)) == c
  {
    ApiLookups(c);
  }

  /** `configurations.map(c => c.id === updated.id ? updated : c)` */
  function Replaced(list: seq<UIFieldConfiguration>, updated: UIFieldConfiguration): (r: seq<UIFieldConfiguration>)
    ensures |r| == |list|
    ensures forall i :: 0 <= i < |list| ==>
      r[i] == if StrictEquals(list[i].id, updated.id) then updated else list[i]
  {
    seq(|list|, i requires 0 <= i < |list| =>
      if StrictEquals(list[i].id, updated.id) then updated else list[i])
  }

  /** `configurations.filter(c => c.id !== id)` */
  function WithoutId(list: seq<UIFieldConfiguration>, id: Value): (r: seq<UIFieldConfiguration>)
    ensures IsSubsequence(r, list)
    ensures forall c :: c in r <==> c in list && !StrictEquals(c.id, id)
    ensures forall c :: multiset(r)[c] == if !StrictEquals(c.id, id) then multiset(list)[c] else 0
    decreases |list|
  {
    if |list| == 0 then []
    else
      assert list == [list[0]] + list[1..];
      if StrictEquals(list[0].id, id) then WithoutId(list[1..], id)
      else [list[0]] + WithoutId(list[1..], id)
  }

  /** An update keeps positions: entries with the record's id become the
      record, every other entry stays where it was; updating twice is
      updating once; an id nobody has changes nothing. */
  lemma ReplacedProperties(list: seq<UIFieldConfiguration>, updated: UIFieldConfiguration)
    ensures |Replaced(list, updated)| == |list|
    ensures forall i :: 0 <= i < |list| && StrictEquals(list[i].id, updated.id) ==>
      Replaced(list, updated)[i] == updated
    ensures forall i :: 0 <= i < |list| && !StrictEquals(list[i].id, updated.id) ==>
      Replaced(list, updated)[i] == list[i]
    ensures !updated.id.NaN? ==> Replaced(Replaced(list, updated), updated) == Replaced(list, updated)
    ensures (forall c :: c in list ==> !StrictEquals(c.id, updated.id)) ==> Replaced(list, updated) == list
  {
  }

  /** Deleting an id nobody has changes nothing; deleting after an update
      of that id removes the same entries as deleting before it. */
  lemma {:induction false} DeleteAfterUpdate(list: seq<UIFieldConfiguration>, updated: UIFieldConfiguration)
    ensures WithoutId(Replaced(list, updated), updated.id) == WithoutId(list, updated.id)
    decreases |list|
  {
    if |list| > 0 {
      assert Replaced(list, updated)[1..] == Replaced(list[1..], updated);
      DeleteAfterUpdate(list[1..], updated);
    }
  }

  lemma {:induction false} DeleteAbsent(list: seq<UIFieldConfiguration>, id: Value)
    requires forall c :: c in list ==> !StrictEquals(c.id, id)
    ensures WithoutId(list, id) == list
    decreases |list|
  {
    if |list| > 0 {
      var tail := list[1..];
      assert list == [list[0]] + tail;
      assert !StrictEquals(list[0].id, id);
      DeleteAbsent(tail, id);
      assert WithoutId(list, id) == [list[0]] + WithoutId(tail, id);
    }
  }

  class UIFieldConfigurationsPage {
    var configurations: seq<UIFieldConfiguration>
    var editingConfig: Option<UIFieldConfiguration>

    /** The page after `client.getAll()` delivered `loaded`. */
    constructor (loaded: seq<UIFieldConfiguration>)
      ensures configurations == loaded && editingConfig.None?
    {
      configurations := loaded;
      editingConfig := None;
    }

    /** "Add New": an empty record, whose id is 0. */
    method AddNew()
      modifies this`editingConfig
      ensures editingConfig == Some(New(Obj([])))
      ensures editingConfig.value.id == Num(0)
    {
      editingConfig := Some(New(Obj([])));
    }

    method Edit(config: UIFieldConfiguration)
      modifies this`editingConfig
      ensures editingConfig == Some(config)
    {
      editingConfig := Some(config);
    }

    method Cancel()
      modifies this`editingConfig
      ensures editingConfig.None?
    {
      editingConfig := None;
    }

    method TypeObjectType(s: string)
      modifies this`editingConfig
      ensures editingConfig == if old(editingConfig).Some? then Some(WithObjectType(old(editingConfig).value, s)) else None
    {
      if editingConfig.Some? {
        editingConfig := Some(WithObjectType(editingConfig.value, s));
      }
    }

    method TypeFieldName(s: string)
      modifies this`editingConfig
      ensures editingConfig == if old(editingConfig).Some? then Some(WithFieldName(old(editingConfig).value, s)) else None
    {
      if editingConfig.Some? {
        editingConfig := Some(WithFieldName(editingConfig.value, s));
      }
    }

    /** `handleSave()`; `response` is what `client.create` or `client.update`
        answered for the record being edited. */
    method HandleSave(response: UIFieldConfiguration)
      modifies this
      ensures old(editingConfig).None? ==> configurations == old(configurations) && editingConfig.None?
      ensures old(editingConfig).Some? && StrictEquals(old(editingConfig).value.id, Num(0)) ==>
        configurations == old(configurations) + [response] && editingConfig.None?
      ensures old(editingConfig).Some? && !StrictEquals(old(editingConfig).value.id, Num(0)) ==>
        configurations == Replaced(old(configurations), response) && editingConfig.None?
    {
      if editingConfig.Some? {
        if StrictEquals(editingConfig.value.id, Num(0)) {
          configurations := configurations + [response];
        } else {
          configurations := Replaced(configurations, response);
        }
        editingConfig := None;
      }
    }

    method HandleDelete(id: Value)
      modifies this`configurations
      ensures configurations == WithoutId(old(configurations), id)
    {
      configurations := WithoutId(configurations, id);
    }
  }
}
