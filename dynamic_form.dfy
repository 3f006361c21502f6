/** The configuration-driven form of
    knk-web-app/src/components/DynamicForm-Copilot.ts: per-field validation,
    whole-form validation, submission, `dependsOn` gating, default filling
    from the merged DTO description, the single and multiple selection
    handlers and the nested-form flags. The candidate lists the form loads
    for its object and array fields are given to it. */
module DynamicFormModel {
  import opened Text
  import opened JsValues
  import opened Seqs
  import opened FormTypes
  import opened DtoUtils

  const RequiredMessage := "This field is required"

  /** `formData[name]` */
  function DataAt(data: map<string, Value>, name: string): Value {
    if name in data then data[name] else Undefined
  }

  // ----- validation -----

  /** `validateField(name, value)`: unknown fields pass, then the required
      check, then the field's own validator. */
  function ValidateField(fields: seq<(string, FormField)>, name: string, value: Value, loc: Locale): string {
    match Find(fields, name)
    case None => ""
    case Some(f) =>
      if f.required && !Truthy(value) then RequiredMessage
      else if f.validation.Some? then
        (match Validate(f.validation.value, value, loc) case Some(m) => m case None => "")
      else ""
  }

  /** The required check comes first and, when it fails, the validator is
      not consulted: replacing it changes nothing. */
  lemma RequiredBeforeCustom(fields: seq<(string, FormField)>, name: string, value: Value, loc: Locale, other: Option<Validator>)
    requires Find(fields, name).Some? && Find(fields, name).value.required && !Truthy(value)
    ensures ValidateField(fields, name, value, loc) == RequiredMessage
    ensures var f := Find(fields, name).value;
      ValidateField(Replace(fields, name, f.(validation := other)), name, value, loc) == RequiredMessage
  {
    ReplaceFinds(fields, name, Find(fields, name).value.(validation := other));
  }

  lemma {:induction false} ReplaceFinds<T>(e: seq<(string, T)>, key: string, x: T)
    ensures Find(Replace(e, key, x), key) == Some(x)
    decreases |e|
  {
    if |e| > 0 && e[0].0 != key {
      ReplaceFinds(e[1..], key, x);
      assert Replace(e, key, x)[1..] == Replace(e[1..], key, x);
    }
  }

  /** The outcomes of `validateField`: "" for an unknown field, the required
      message exactly for a required field with a falsy value (0, "" and
      false included), and otherwise the validator's message or "". */
  lemma ValidateFieldCases(fields: seq<(string, FormField)>, name: string, value: Value, loc: Locale)
    ensures Find(fields, name).None? ==> ValidateField(fields, name, value, loc) == ""
    ensures Find(fields, name).Some? ==>
      var f := Find(fields, name).value;
      ((f.required && !Truthy(value)) <==>
         (ValidateField(fields, name, value, loc) == RequiredMessage
          && !(f.validation.Some? && Validate(f.validation.value, value, loc) == Some(RequiredMessage))))
      && (!(f.required && !Truthy(value)) ==>
            ValidateField(fields, name, value, loc) ==
              if f.validation.Some? && Validate(f.validation.value, value, loc).Some?
              then Validate(f.validation.value, value, loc).value else "")
    ensures Find(fields, name).Some? && Find(fields, name).value.required ==>
      ValidateField(fields, name, Num(0), loc) == RequiredMessage
      && ValidateField(fields, name, Str(""), loc) == RequiredMessage
      && ValidateField(fields, name, Bool(false), loc) == RequiredMessage
  {
  }

  /** `validateField(name, formData[name])` for the `i`th configured field. */
  function FieldError(fields: seq<(string, FormField)>, i: nat, data: map<string, Value>, loc: Locale): string
    requires i < |fields|
  {
    ValidateField(fields, fields[i].0, DataAt(data, fields[i].0), loc)
  }

  /** The errors `validateForm` collects from the first `n` fields. */
  function ErrorsOf(fields: seq<(string, FormField)>, n: nat, data: map<string, Value>, loc: Locale): map<string, string>
    requires n <= |fields|
    decreases n
  {
    if n == 0 then map[]
    else
      var e := FieldError(fields, n - 1, data, loc);
      var prev := ErrorsOf(fields, n - 1, data, loc);
      if e != "" then prev[fields[n - 1].0 := e] else prev
  }

  function FormErrors(fields: seq<(string, FormField)>, data: map<string, Value>, loc: Locale): map<string, string> {
    ErrorsOf(fields, |fields|, data, loc)
  }

  lemma {:induction false} ErrorsOfMeaning(fields: seq<(string, FormField)>, n: nat, data: map<string, Value>, loc: Locale, k: string)
    requires n <= |fields| && DistinctKeys(fields)
    ensures k in ErrorsOf(fields, n, data, loc) <==>
      k in EntryKeys(fields[..n]) && ValidateField(fields, k, DataAt(data, k), loc) != ""
    ensures k in ErrorsOf(fields, n, data, loc) ==>
      ErrorsOf(fields, n, data, loc)[k] == ValidateField(fields, k, DataAt(data, k), loc)
    decreases n
  {
    if n > 0 {
      ErrorsOfMeaning(fields, n - 1, data, loc, k);
      assert EntryKeys(fields[..n]) == EntryKeys(fields[..n - 1]) + [fields[n - 1].0];
    }
  }

  /** `validateForm` flags exactly the configured fields whose
      `validateField` is non-empty, with that message, and succeeds exactly
      when every field passes. */
  lemma FormErrorsMeaning(fields: seq<(string, FormField)>, data: map<string, Value>, loc: Locale)
    requires DistinctKeys(fields)
    ensures forall k :: k in FormErrors(fields, data, loc) <==>
      k in EntryKeys(fields) && ValidateField(fields, k, DataAt(data, k), loc) != ""
    ensures forall k :: k in FormErrors(fields, data, loc) ==>
      FormErrors(fields, data, loc)[k] == ValidateField(fields, k, DataAt(data, k), loc)
    ensures FormErrors(fields, data, loc) == map[] <==>
      forall k :: k in EntryKeys(fields) ==> ValidateField(fields, k, DataAt(data, k), loc) == ""
  {
    assert fields[..|fields|] == fields;
    forall k ensures k in FormErrors(fields, data, loc) <==>
      k in EntryKeys(fields) && ValidateField(fields, k, DataAt(data, k), loc) != ""
    {
      ErrorsOfMeaning(fields, |fields|, data, loc, k);
    }
    forall k | k in FormErrors(fields, data, loc)
      ensures FormErrors(fields, data, loc)[k] == ValidateField(fields, k, DataAt(data, k), loc)
    {
      ErrorsOfMeaning(fields, |fields|, data, loc, k);
    }
    if FormErrors(fields, data, loc) != map[] {
      var k :| k in FormErrors(fields, data, loc);
      assert k in EntryKeys(fields) && ValidateField(fields, k, DataAt(data, k), loc) != "";
    }
  }

  // ----- rendering gates -----

  /** `!field.dependsOn || field.dependsOn.every(dep => formData[dep])` */
  predicate ShouldRender(f: FormField, data: map<string, Value>) {
    f.dependsOn.None? || forall dep :: dep in f.dependsOn.value ==> Truthy(DataAt(data, dep))
  }

  /** `validateForm` does not look at `dependsOn`: a required field hidden
      because a dependency is falsy still blocks submission when empty. */
  lemma HiddenFieldsStillValidated(fields: seq<(string, FormField)>, data: map<string, Value>, loc: Locale, name: string, dep: string)
    requires DistinctKeys(fields)
    requires Find(fields, name).Some? && Find(fields, name).value.required
    requires Find(fields, name).value.dependsOn == Some([dep]) && !Truthy(DataAt(data, dep))
    requires !Truthy(DataAt(data, name))
    ensures !ShouldRender(Find(fields, name).value, data)
    ensures name in FormErrors(fields, data, loc)
  {
    FormErrorsMeaning(fields, data, loc);
  }

  /** The input a rendered field gets; boolean and date fields get none. */
  datatype Control = Dropdown | MultiSelect | TextInput | NumberInput | SelectInput

  function ControlFor(t: FieldType): Option<Control> {
    match t
    case ObjectField => Some(Dropdown)
    case ArrayField => Some(MultiSelect)
    case TextField => Some(TextInput)
    case NumberField => Some(NumberInput)
    case SelectField => Some(SelectInput)
    case _ => None
  }

  predicate Renderable(f: FormField, data: map<string, Value>) {
    ShouldRender(f, data) && ControlFor(f.fieldType).Some?
  }

  /** Entry `e` names a field that is rendered with control `e.1`. */
  ghost predicate Shown(fields: seq<(string, FormField)>, data: map<string, Value>, e: (string, Control)) {
    exists j :: 0 <= j < |fields| && fields[j].0 == e.0
      && ShouldRender(fields[j].1, data) && ControlFor(fields[j].1.fieldType) == Some(e.1)
  }

  /** `renderField` over `Object.entries(config.fields)`: the names shown
      with their control, in field order. */
  function RenderedFields(fields: seq<(string, FormField)>, data: map<string, Value>): (r: seq<(string, Control)>)
    ensures forall i :: 0 <= i < |r| ==> Shown(fields, data, r[i])
    ensures forall j :: 0 <= j < |fields| && Renderable(fields[j].1, data) ==>
      (fields[j].0, ControlFor(fields[j].1.fieldType).value) in r
    decreases |fields|
  {
    if |fields| == 0 then []
    else
      var rest := RenderedFields(fields[1..], data);
      var f := fields[0].1;
      var head := if ShouldRender(f, data) && ControlFor(f.fieldType).Some? then [(fields[0].0, ControlFor(f.fieldType).value)] else [];
      assert forall i :: 0 <= i < |rest| ==> Shown(fields, data, rest[i]) by {
        forall i | 0 <= i < |rest| ensures Shown(fields, data, rest[i]) {
          assert Shown(fields[1..], data, rest[i]);
          var j :| 0 <= j < |fields[1..]| && fields[1..][j].0 == rest[i].0
            && ShouldRender(fields[1..][j].1, data) && ControlFor(fields[1..][j].1.fieldType) == Some(rest[i].1);
          assert fields[j + 1] == fields[1..][j];
        }
      }
      assert forall j :: 1 <= j < |fields| && Renderable(fields[j].1, data) ==>
        (fields[j].0, ControlFor(fields[j].1.fieldType).value) in rest by {
        forall j | 1 <= j < |fields| && Renderable(fields[j].1, data)
          ensures (fields[j].0, ControlFor(fields[j].1.fieldType).value) in rest
        {
          assert fields[1..][j - 1] == fields[j];
        }
      }
      head + rest
  }

  // ----- defaults -----

  /** The defaults the mount effect collects from the merged fields: a key
      gets its `defaultValue` when that is defined and `formData[key]` is
      undefined. */
  function Defaults(merged: Entries, data: map<string, Value>): map<string, Value>
    decreases |merged|
  {
    if |merged| == 0 then map[]
    else
      var last := merged[|merged| - 1];
      var d := Defaults(merged[..|merged| - 1], data);
      var dv := Get(last.1, "defaultValue");
      if dv != Undefined && DataAt(data, last.0) == Undefined then d[last.0 := dv] else d
  }

  lemma {:induction false} DefaultsMeaning(merged: Entries, data: map<string, Value>, k: string)
    requires UniqueKeys(merged)
    ensures k in Defaults(merged, data) <==>
      k in Keys(merged) && Get(Lookup(merged, k), "defaultValue") != Undefined && DataAt(data, k) == Undefined
    ensures k in Defaults(merged, data) ==> Defaults(merged, data)[k] == Get(Lookup(merged, k), "defaultValue")
    decreases |merged|
  {
    if |merged| > 0 {
      var n := |merged| - 1;
      var front, last := merged[..n], merged[n];
      assert front + [last] == merged;
      assert UniqueKeys(front);
      DefaultsMeaning(front, data, k);
      assert Keys(merged) == Keys(front) + [last.0];
      LookupSplit(front, last, k);
      var dv := Get(last.1, "defaultValue");
      assert Defaults(merged, data) == if dv != Undefined && DataAt(data, last.0) == Undefined
        then Defaults(front, data)[last.0 := dv] else Defaults(front, data);
    }
  }

  lemma {:induction false} LookupSplit(front: Entries, last: (string, Value), k: string)
    requires UniqueKeys(front + [last])
    ensures Lookup(front + [last], k) == if k in Keys(front) then Lookup(front, k) else if k == last.0 then last.1 else Undefined
    decreases |front|
  {
    if |front| == 0 {
    } else {
      assert (front + [last])[1..] == front[1..] + [last];
      assert Keys(front) == [front[0].0] + Keys(front[1..]);
      assert front[0].0 != last.0 by {
        assert (front + [last])[0] == front[0] && (front + [last])[|front|] == last;
      }
      if front[0].0 != k {
        LookupSplit(front[1..], last, k);
      }
    }
  }

  /** `config.fields` seen as an object: looking a key up gives that field's attributes. */
  lemma {:induction false} LookupFieldsAsValue(fields: seq<(string, FormField)>, k: string)
    ensures Lookup(FieldsAsValue(fields).entries, k) ==
      if Find(fields, k).Some? then FieldAsValue(Find(fields, k).value) else Undefined
    decreases |fields|
  {
    if |fields| > 0 {
      LookupFieldsAsValue(fields[1..], k);
      assert FieldsAsValue(fields).entries[1..] == FieldsAsValue(fields[1..]).entries;
    }
  }

  /** What the mount effect writes: a key receives a default exactly when it
      is an own key of the DTO instance, the configured field of that name
      has a `defaultValue` other than undefined, and the form has no value
      for it yet. Keys with a value are left alone. */
  lemma DefaultFillingMeaning(dto: Entries, fields: seq<(string, FormField)>, data: map<string, Value>, k: string)
    requires UniqueKeys(dto)
    ensures var d := Defaults(MergedFields(ExtractedFields(dto), FieldsAsValue(fields).entries), data);
      (k in d <==> k in Keys(dto) && Find(fields, k).Some? && Find(fields, k).value.defaultValue.Some?
                   && Find(fields, k).value.defaultValue.value != Undefined && DataAt(data, k) == Undefined)
      && (k in d ==> d[k] == Find(fields, k).value.defaultValue.value)
  {
    var ex := ExtractedFields(dto);
    var cfg := FieldsAsValue(fields).entries;
    var merged := MergedFields(ex, cfg);
    assert Keys(ex) == Keys(dto);
    assert UniqueKeys(ex) by {
      forall i, j | 0 <= i < j < |ex| ensures ex[i].0 != ex[j].0 {
        assert ex[i].0 == dto[i].0 && ex[j].0 == dto[j].0;
      }
    }
    assert UniqueKeys(merged) by {
      forall i, j | 0 <= i < j < |merged| ensures merged[i].0 != merged[j].0 {
        assert merged[i].0 == ex[i].0 && merged[j].0 == ex[j].0;
      }
    }
    DefaultsMeaning(merged, data, k);
    if k in Keys(dto) {
      LookupFieldsAsValue(fields, k);
      MergedFieldOverrides(ex, cfg, k, "defaultValue");
      var i :| 0 <= i < |dto| && Keys(dto)[i] == k;
      LookupAt(ex, i);
      var desc := Describe(k, dto[i].1);
      assert Lookup(ex, k) == desc;
      assert Get(desc, "defaultValue") == Undefined by {
        assert Lookup(desc.entries, "defaultValue") == Lookup(desc.entries[1..], "defaultValue");
        assert Lookup(desc.entries[1..], "defaultValue") == Lookup(desc.entries[1..][1..], "defaultValue");
      }
      if Find(fields, k).Some? {
        var fv := FieldAsValue(Find(fields, k).value);
        assert HasKey(fv, "defaultValue") <==> Get(fv, "defaultValue") != Undefined || Find(fields, k).value.defaultValue.Some? by {
          FieldDefaultKey(Find(fields, k).value);
        }
      }
    }
  }

  /** The `defaultValue` attribute is present exactly when the field has a default. */
  lemma FieldDefaultKey(f: FormField)
    ensures HasKey(FieldAsValue(f), "defaultValue") <==> f.defaultValue.Some?
  {
    var v := FieldAsValue(f);
    if f.defaultValue.Some? {
      assert v.entries[|v.entries| - 1].0 == "defaultValue";
      assert Keys(v.entries)[|v.entries| - 1] == "defaultValue";
    } else {
      assert forall i :: 0 <= i < |v.entries| ==> v.entries[i].0 != "defaultValue";
    }
  }

  // ----- selection -----

  /** `x` is the first element of `list` whose id is strictly equal to `id`. */
  ghost predicate FirstMatch(list: seq<Value>, id: Value, x: Value) {
    exists i :: 0 <= i < |list| && list[i] == x
      && forall j :: 0 <= j < i ==> !StrictEquals(Get(list[j], "id"), id)
  }

  /** `list.find(i => i.id === id)` */
  function FindById(list: seq<Value>, id: Value): (r: Option<Value>)
    ensures r.Some? ==> r.value in list && StrictEquals(Get(r.value, "id"), id)
    ensures r.None? <==> forall i :: 0 <= i < |list| ==> !StrictEquals(Get(list[i], "id"), id)
    ensures r.Some? ==> FirstMatch(list, id, r.value)
    decreases |list|
  {
    if |list| == 0 then None
    else if StrictEquals(Get(list[0], "id"), id) then Some(list[0])
    else
      var r := FindById(list[1..], id);
      if r.Some? then
        assert FirstMatch(list, id, r.value) by {
          assert FirstMatch(list[1..], id, r.value);
          var i :| 0 <= i < |list[1..]| && list[1..][i] == r.value
            && forall j :: 0 <= j < i ==> !StrictEquals(Get(list[1..][j], "id"), id);
          assert list[i + 1] == r.value;
          forall j | 0 <= j < i + 1 ensures !StrictEquals(Get(list[j], "id"), id) {
            if j > 0 { assert list[j] == list[1..][j - 1]; }
          }
        }
        r
      else
        assert forall i :: 0 <= i < |list| ==> !StrictEquals(Get(list[i], "id"), id) by {
          forall i | 0 <= i < |list| ensures !StrictEquals(Get(list[i], "id"), id) {
            if i > 0 { assert list[i] == list[1..][i - 1]; }
          }
        }
        r
  }

  /** `list.filter(instance => ids.includes(instance.id))` */
  function SelectedByIds(list: seq<Value>, ids: seq<Value>): (r: seq<Value>)
    ensures IsSubsequence(r, list)
    ensures forall x :: x in r <==> x in list && Get(x, "id") in ids
    ensures forall x :: multiset(r)[x] == if Get(x, "id") in ids then multiset(list)[x] else 0
    decreases |list|
  {
    if |list| == 0 then []
    else
      assert list == [list[0]] + list[1..];
      if Get(list[0], "id") in ids then [list[0]] + SelectedByIds(list[1..], ids)
      else SelectedByIds(list[1..], ids)
  }

  datatype SubmitOutcome =
    | Invalid                              // validation failed; `onSubmit` not called
    | Submitted(data: map<string, Value>)  // `onSubmit(formData)` returned
    | SubmitFailed(data: map<string, Value>) // `onSubmit(formData)` threw

  class DynamicForm {
    const config: ObjectConfig
    const loc: Locale
    var formData: map<string, Value>
    var errors: map<string, string>
    var loading: bool
    var nestedForms: map<string, bool>
    var relationshipData: map<string, seq<Value>>

    /** The first render: `initialData || {}`, no errors, not loading, no
        nested form open, and the candidate lists loaded for the
        relationship fields. */
    constructor (config: ObjectConfig, initialData: Option<map<string, Value>>, candidates: map<string, seq<Value>>, loc: Locale)
      ensures this.config == config && this.loc == loc
      ensures formData == (if initialData.Some? then initialData.value else map[])
      ensures errors == map[] && !loading && nestedForms == map[] && relationshipData == candidates
    {
      this.config := config;
      this.loc := loc;
      formData := if initialData.Some? then initialData.value else map[];
      errors := map[];
      loading := false;
      nestedForms := map[];
      relationshipData := candidates;
    }

    /** The mount effect: describe the DTO instance, merge the configured
        fields over it, and add each collected default to `formData`. */
    method FillDefaults(dto: Entries)
      requires UniqueKeys(dto)
      modifies this`formData
      ensures formData == old(formData) + Defaults(MergedFields(ExtractedFields(dto), FieldsAsValue(config.fields).entries), old(formData))
    {
      var described := ExtractFieldsFromDTO(dto);
      var merged := MergeDTOWithConfig(described, FieldsAsValue(config.fields).entries);
      var defaults := CollectDefaults(merged, formData);
      formData := formData + defaults;
    }

    /** `handleChange(name, value)`: store the value and its validation message. */
    method HandleChange(name: string, value: Value)
      modifies this`formData, this`errors
      ensures formData == old(formData)[name := value]
      ensures errors == old(errors)[name := ValidateField(config.fields, name, value, loc)]
    {
      formData := formData[name := value];
      errors := errors[name := ValidateField(config.fields, name, value, loc)];
    }

    /** `validateForm()`: replace the errors by those of every configured
        field and report whether there are none. */
    method ValidateForm() returns (valid: bool)
      modifies this`errors
      ensures errors == FormErrors(config.fields, formData, loc)
      ensures valid <==> errors == map[]
    {
      var newErrors: map<string, string> := map[];
      valid := true;
      var i := 0;
      while i < |config.fields|
        invariant 0 <= i <= |config.fields|
        invariant newErrors == ErrorsOf(config.fields, i, formData, loc)
        invariant valid <==> newErrors == map[]
      {
        var error := FieldError(config.fields, i, formData, loc);
        if error != "" {
          var name := config.fields[i].0;
          newErrors := newErrors[name := error];
          assert name in newErrors;
          valid := false;
        }
        i := i + 1;
      }
      errors := newErrors;
    }

    /** `handleSubmit`: `onSubmit` runs only on a valid form, and `loading`
        is false afterwards whether it returned or threw. Whether the
        callback throws is the parameter `onSubmitThrows`. */
    method HandleSubmit(onSubmitThrows: bool) returns (outcome: SubmitOutcome)
      modifies this`errors, this`loading
      ensures errors == FormErrors(config.fields, formData, loc)
      ensures outcome.Invalid? <==> errors != map[]
      ensures !outcome.Invalid? ==>
        !loading && outcome == (if onSubmitThrows then SubmitFailed(formData) else Submitted(formData))
      ensures outcome.Invalid? ==> loading == old(loading)
    {
      var valid := ValidateForm();
      if !valid {
        return Invalid;
      }
      loading := true;
      outcome := if onSubmitThrows then SubmitFailed(formData) else Submitted(formData);
      loading := false;
    }

    /** The single-select `onSelect(id)`: the first candidate with that id
        (undefined when there is none or no list), or null when cleared. */
    method SelectOne(name: string, id: Value)
      modifies this`formData, this`errors
      ensures var chosen :=
        if !Truthy(id) then Null
        else if name in relationshipData then
          (match FindById(relationshipData[name], id) case Some(x) => x case None => Undefined)
        else Undefined;
        formData == old(formData)[name := chosen]
        && errors == old(errors)[name := ValidateField(config.fields, name, chosen, loc)]
    {
      var chosen: Value;
      if Truthy(id) {
        if name in relationshipData {
          var found := FindById(relationshipData[name], id);
          chosen := if found.Some? then found.value else Undefined;
        } else {
          chosen := Undefined;
        }
      } else {
        chosen := Null;
      }
      HandleChange(name, chosen);
    }

    /** The multi-select `onSelect(ids)`: the candidates whose id is chosen,
        in candidate order (undefined when the field has no list). */
    method SelectMany(name: string, ids: seq<Value>)
      modifies this`formData, this`errors
      ensures var chosen :=
        if name in relationshipData then Arr(SelectedByIds(relationshipData[name], ids)) else Undefined;
        formData == old(formData)[name := chosen]
        && errors == old(errors)[name := ValidateField(config.fields, name, chosen, loc)]
    {
      var chosen := if name in relationshipData then Arr(SelectedByIds(relationshipData[name], ids)) else Undefined;
      HandleChange(name, chosen);
    }

    /** "Create New" in a dropdown opens that field's nested form. */
    method OpenNested(name: string)
      modifies this`nestedForms
      ensures nestedForms == old(nestedForms)[name := true]
    {
      nestedForms := nestedForms[name := true];
    }

    /** Cancel in a nested form closes it. */
    method CancelNested(name: string)
      modifies this`nestedForms
      ensures nestedForms == old(nestedForms)[name := false]
    {
      nestedForms := nestedForms[name := false];
    }

    /** `handleNestedSubmit(name, data)`: append the record to the field's
        candidates, select it, and close only that nested form. Without a
        candidate list the push throws and nothing changes. */
    method HandleNestedSubmit(name: string, data: Value) returns (ok: bool)
      modifies this`relationshipData, this`formData, this`errors, this`nestedForms
      ensures ok <==> name in old(relationshipData)
      ensures ok ==>
        relationshipData == old(relationshipData)[name := old(relationshipData)[name] + [data]]
        && formData == old(formData)[name := data]
        && errors == old(errors)[name := ValidateField(config.fields, name, data, loc)]
        && nestedForms == old(nestedForms)[name := false]
      ensures !ok ==>
        relationshipData == old(relationshipData) && formData == old(formData)
        && errors == old(errors) && nestedForms == old(nestedForms)
    {
      if name !in relationshipData {
        return false;
      }
      relationshipData := relationshipData[name := relationshipData[name] + [data]];
      HandleChange(name, data);
      nestedForms := nestedForms[name := false];
      ok := true;
    }
  }

  /** The `forEach` of the mount effect that fills `defaultData`. */
  method CollectDefaults(merged: Entries, data: map<string, Value>) returns (defaults: map<string, Value>)
    ensures defaults == Defaults(merged, data)
  {
    defaults := map[];
    var i := 0;
    while i < |merged|
      invariant 0 <= i <= |merged|
      invariant defaults == Defaults(merged[..i], data)
    {
      var key := merged[i].0;
      var dv := Get(merged[i].1, "defaultValue");
      assert merged[..i + 1][..i] == merged[..i];
      if dv != Undefined && DataAt(data, key) == Undefined {
        defaults := defaults[key := dv];
      }
      i := i + 1;
    }
    assert merged[..i] == merged;
  }
}
