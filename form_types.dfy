/** The form-field and entity-configuration records of src/types/common.ts,
    with the validators and formatters the entity registry attaches to them
    (src/config/objectConfigs.tsx) given a meaning here. */
module FormTypes {
  import opened Text
  import opened JsValues

  /** `FormField.type` */
  datatype FieldType = TextField | NumberField | SelectField | DateField | ObjectField | ArrayField | BoolField

  function FieldTypeTag(t: FieldType): string {
    match t
    case TextField => "text"
    case NumberField => "number"
    case SelectField => "select"
    case DateField => "date"
    case ObjectField => "object"
    case ArrayField => "array"
    case BoolField => "bool"
  }

  /** The `validation` callbacks the registry uses. */
  datatype Validator =
    | NameLength             // the shared `name` field
    | TitleAtLeastOne        // town `requiredTitle`
    | StreetNumberPositive   // structure `streetNumber`
    | SlugName               // item `Name`
    | NonNegativePrice       // item `BasePrice` and `Price`
    | EmailShape             // user `email`

  /** The `formatters` the registry uses; only their text matters here. */
  datatype Formatter =
    | RegionBadge | LocaleDate | StreetNumberHash | CategoryBadge | PriceFixed | ActiveBadge | RoleBadge

  /** `FormField`; optional booleans that are absent are `false`. */
  datatype FormField = FormField(
    name: string,
    caption: string,     // `label`
    fieldType: FieldType,
    required: bool,
    defaultValue: Option<Value>,
    options: seq<(string, Value)>,
    validation: Option<Validator>,
    objectConfig: Option<ObjectConfig>,
    dependsOn: Option<seq<string>>,
    hidden: bool)

  /** `ObjectConfig`: fields and formatters in declaration order. */
  datatype ObjectConfig = ObjectConfig(
    typeName: string,    // `type`
    caption: string,     // `label`
    fields: seq<(string, FormField)>,
    formatters: seq<(string, Formatter)>)

  /** A plain field with no default, options, validator, reference or dependency. */
  function Field(name: string, caption: string, t: FieldType, required: bool): FormField {
    FormField(name, caption, t, required, None, [], None, None, None, false)
  }

  // ----- lookups in a record of fields or formatters -----

  function EntryKeys<T>(e: seq<(string, T)>): seq<string> {
    seq(|e|, i requires 0 <= i < |e| => e[i].0)
  }

  predicate DistinctKeys<T>(e: seq<(string, T)>) {
    forall i, j :: 0 <= i < j < |e| ==> e[i].0 != e[j].0
  }

  /** `record[key]`, `None` standing for undefined. */
  function Find<T>(e: seq<(string, T)>, key: string): (r: Option<T>)
    ensures r.Some? <==> key in EntryKeys(e)
    decreases |e|
  {
    if |e| == 0 then None
    else
      assert EntryKeys(e) == [e[0].0] + EntryKeys(e[1..]);
      if e[0].0 == key then Some(e[0].1) else Find(e[1..], key)
  }

  /** `{...base, ...over}` on a record: a key of `over` overwrites the
      entry of `base` in place, a new key is appended. */
  function Spread<T>(base: seq<(string, T)>, over: seq<(string, T)>): seq<(string, T)>
    decreases |over|
  {
    if |over| == 0 then base else Spread(Replace(base, over[0].0, over[0].1), over[1..])
  }

  function Replace<T>(e: seq<(string, T)>, key: string, x: T): seq<(string, T)>
    decreases |e|
  {
    if |e| == 0 then [(key, x)]
    else if e[0].0 == key then [(key, x)] + e[1..]
    else [e[0]] + Replace(e[1..], key, x)
  }

  lemma {:induction false} ReplaceFresh<T>(e: seq<(string, T)>, key: string, x: T)
    requires key !in EntryKeys(e)
    ensures Replace(e, key, x) == e + [(key, x)]
    decreases |e|
  {
    if |e| > 0 {
      assert EntryKeys(e) == [e[0].0] + EntryKeys(e[1..]);
      ReplaceFresh(e[1..], key, x);
    }
  }

  /** Spreading entries whose keys are all new appends them: this is how
      the registry extends the dominion fields. */
  lemma {:induction false} SpreadFresh<T>(base: seq<(string, T)>, over: seq<(string, T)>)
    requires DistinctKeys(over)
    requires forall k :: k in EntryKeys(over) ==> k !in EntryKeys(base)
    ensures Spread(base, over) == base + over
    decreases |over|
  {
    if |over| > 0 {
      assert EntryKeys(over)[0] == over[0].0;
      ReplaceFresh(base, over[0].0, over[0].1);
      var base' := base + [over[0]];
      assert EntryKeys(base') == EntryKeys(base) + [over[0].0];
      forall k | k in EntryKeys(over[1..]) ensures k !in EntryKeys(base') {
        var i :| 0 <= i < |over[1..]| && EntryKeys(over[1..])[i] == k;
        assert over[i + 1].0 == k;
        assert EntryKeys(over)[i + 1] == k;
      }
      SpreadFresh(base', over[1..]);
      assert base' + over[1..] == base + over;
    }
  }

  // ----- the validators -----

  /** JavaScript's `\s`. */
  predicate IsJsSpace(c: char) {
    c == ' ' || c == '\t' || c == '\n' || c == '\r' || c == '\U{000B}' || c == '\U{000C}'
    || c == '\U{00A0}' || c == '\U{1680}' || ('\U{2000}' <= c <= '\U{200A}')
    || c == '\U{2028}' || c == '\U{2029}' || c == '\U{202F}' || c == '\U{205F}'
    || c == '\U{3000}' || c == '\U{FEFF}'
  }

  /** A match of `[^\s@]+`. */
  predicate PlainRun(s: string) {
    |s| > 0 && forall k :: 0 <= k < |s| ==> !IsJsSpace(s[k]) && s[k] != '@'
  }

  /** `/^[^\s@]+@[^\s@]+\.[^\s@]+$/.test(s)`: an `@` at `i` and a `.` at `j`
      split `s` into three non-empty runs without blanks or `@`. */
  predicate EmailMatch(s: string) {
    exists i, j :: 0 <= i < j < |s| && s[i] == '@' && s[j] == '.'
      && PlainRun(s[..i]) && PlainRun(s[i + 1..j]) && PlainRun(s[j + 1..])
  }

  predicate SlugChar(c: char) { IsLower(c) || IsDigit(c) || c == '-' }

  /** `/^[a-z0-9-]+$/.test(s)` */
  predicate SlugMatch(s: string) {
    |s| > 0 && forall k :: 0 <= k < |s| ==> SlugChar(s[k])
  }

  /** `value.length` */
  function LengthOf(v: Value): Value {
    match v
    case Str(s) => Num(|s|)
    case Arr(items) => Num(|items|)
    case Obj(_) => Get(v, "length")
    case _ => Undefined
  }

  const NameMessage := "Town name must be at least 3 characters"
  const TitleMessage := "Title must be larger than 0"
  const StreetNumberMessage := "Street number must be positive"
  const SlugMessage := "Name must contain only lowercase letters, numbers, and hyphens"
  const PriceMessage := "Price cannot be negative"
  const EmailMessage := "Please enter a valid email address"

  /** The validator's message, `None` when it returns undefined. The regular
      expressions test `String(value)`. */
  function Validate(v: Validator, value: Value, loc: Locale): Option<string> {
    match v
    case NameLength =>
      if !Truthy(value) || LessThan(LengthOf(value), 3) then Some(NameMessage) else None
    case TitleAtLeastOne => if LessThan(value, 1) then Some(TitleMessage) else None
    case StreetNumberPositive => if LessThan(value, 1) then Some(StreetNumberMessage) else None
    case SlugName => if !SlugMatch(ToStr(value, loc)) then Some(SlugMessage) else None
    case NonNegativePrice => if LessThan(value, 0) then Some(PriceMessage) else None
    case EmailShape => if !EmailMatch(ToStr(value, loc)) then Some(EmailMessage) else None
  }

  /** Every message a validator returns is non-empty, so `message || ''`
      keeps it. */
  lemma ValidateMessagesNonEmpty(v: Validator, value: Value, loc: Locale)
    ensures Validate(v, value, loc).Some? ==> Validate(v, value, loc).value != ""
  {
  }

  /** The name validator fails exactly on a falsy value or one shorter than
      three characters; for a string that is `|s| < 3`. */
  lemma NameValidator(s: string, loc: Locale)
    ensures Validate(NameLength, Str(s), loc).Some? <==> |s| < 3
    ensures Validate(NameLength, Undefined, loc) == Some(NameMessage)
    ensures Validate(NameLength, Num(5), loc).None?
  {
    StrToNumberOfIntToString(|s|);
  }

  /** The numeric validators on numbers are plain comparisons. */
  lemma NumericValidators(n: int, loc: Locale)
    ensures Validate(TitleAtLeastOne, Num(n), loc).Some? <==> n < 1
    ensures Validate(StreetNumberPositive, Num(n), loc).Some? <==> n < 1
    ensures Validate(NonNegativePrice, Num(n), loc).Some? <==> n < 0
    ensures Validate(NonNegativePrice, NaN, loc).None?
  {
  }

  lemma PlainRunAt(s: string, lo: int, hi: int, k: int)
    requires 0 <= lo <= k < hi <= |s| && PlainRun(s[lo..hi])
    ensures !IsJsSpace(s[k]) && s[k] != '@'
  {
    assert s[lo..hi][k - lo] == s[k];
  }

  /** A string the email pattern accepts has no blanks and exactly one
      `@`, neither first nor last. */
  lemma EmailMatchShape(s: string)
    requires EmailMatch(s)
    ensures forall k :: 0 <= k < |s| ==> !IsJsSpace(s[k])
    ensures exists i :: 0 < i < |s| - 1 && s[i] == '@' && forall k :: 0 <= k < |s| && k != i ==> s[k] != '@'
  {
    var i, j :| 0 <= i < j < |s| && s[i] == '@' && s[j] == '.'
      && PlainRun(s[..i]) && PlainRun(s[i + 1..j]) && PlainRun(s[j + 1..]);
    assert s[..i] == s[0..i] && s[j + 1..] == s[j + 1..|s|];
    forall k | 0 <= k < |s| && k != i ensures !IsJsSpace(s[k]) && s[k] != '@' {
      if k < i {
        PlainRunAt(s, 0, i, k);
      } else if k < j {
        PlainRunAt(s, i + 1, j, k);
      } else if k > j {
        PlainRunAt(s, j + 1, |s|, k);
      }
    }
    assert 0 < i < |s| - 1;
  }

  /** A value that passes the slug validator prints as lower-case letters,
      digits and hyphens only; a string of those passes. */
  lemma SlugValidator(s: string, loc: Locale)
    ensures Validate(SlugName, Str(s), loc).None? <==> |s| > 0 && forall k :: 0 <= k < |s| ==> SlugChar(s[k])
  {
  }

  // ----- formatters -----

  /** The text a formatter produces, `None` for one that draws markup or
      formats a float. For `LocaleDate`, `None` also stands for a value that
      is not a Date: the source calls `value.toLocaleDateString()` on it,
      which throws (on a null `created`, for one). */
  function FormatterText(f: Formatter, value: Value, loc: Locale): Option<string> {
    match f
    case StreetNumberHash => Some("#" + ToStr(value, loc))
    case LocaleDate =>
      if value.Date? then Some(loc.localeDateString(value.time))
      else if value.InvalidDate? then Some("Invalid Date")
      else None
    case _ => None
  }

  // ----- a field record as a JavaScript object -----

  /** The own attributes of a field object: `name`, `label`, `type` and
      `required` always, `hidden` when set, `defaultValue` when given. */
  function FieldAsValue(f: FormField): (v: Value)
    ensures v.Obj? && UniqueKeys(v.entries)
    ensures Get(v, "defaultValue") == (if f.defaultValue.Some? then f.defaultValue.value else Undefined)
  {
    var head := [("name", Str(f.name)), ("label", Str(f.caption)), ("type", Str(FieldTypeTag(f.fieldType))),
                 ("required", Bool(f.required))];
    var hidden := if f.hidden then [("hidden", Bool(true))] else [];
    var default := if f.defaultValue.Some? then [("defaultValue", f.defaultValue.value)] else [];
    var e := head + hidden + default;
    assert forall i :: 0 <= i < |head + hidden| ==> (head + hidden)[i].0 != "defaultValue";
    LookupPrefixMiss(head + hidden, default, "defaultValue");
    Obj(e)
  }

  lemma {:induction false} LookupPrefixMiss(a: Entries, b: Entries, k: string)
    requires forall i :: 0 <= i < |a| ==> a[i].0 != k
    ensures Lookup(a + b, k) == Lookup(b, k)
    decreases |a|
  {
    if |a| > 0 {
      assert (a + b)[0] == a[0] && (a + b)[1..] == a[1..] + b;
      assert a[0].0 != k;
      LookupPrefixMiss(a[1..], b, k);
    } else {
      assert a + b == b;
    }
  }

  /** A record of fields as the object `config.fields`. */
  function FieldsAsValue(fields: seq<(string, FormField)>): (v: Value)
    ensures v.Obj? && Keys(v.entries) == EntryKeys(fields)
  {
    Obj(seq(|fields|, i requires 0 <= i < |fields| => (fields[i].0, FieldAsValue(fields[i].1))))
  }
}
