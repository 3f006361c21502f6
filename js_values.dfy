/** JavaScript values as the dashboard's untyped records see them.
    Objects keep their own keys in insertion order (column order and
    entry order depend on it); numbers are integers, plus NaN. */
module JsValues {
  import opened Text

  datatype Option<T> = None | Some(value: T)

  /** The values of the `Some`s, in order: what a `map` whose callback
      returns null for some elements leaves once the nulls are dropped. */
  function Somes<T(==,!new)>(xs: seq<Option<T>>): (r: seq<T>)
    ensures |r| <= |xs|
    ensures forall v :: v in r <==> Some(v) in xs
    decreases |xs|
  {
    if |xs| == 0 then []
    else
      assert xs == [xs[0]] + xs[1..];
      (if xs[0].Some? then [xs[0].value] else []) + Somes(xs[1..])
  }

  datatype Value =
    | Undefined
    | Null
    | Bool(b: bool)
    | Num(n: int)
    | NaN
    | Str(s: string)
    | Date(time: int)
    | InvalidDate
    | Fn(tag: string)
    | Arr(items: seq<Value>)
    | Obj(entries: seq<(string, Value)>)
    | MapV(pairs: seq<(Value, Value)>)
    | SetV(elems: seq<Value>)

  /** The own enumerable properties of an object, in insertion order. */
  type Entries = seq<(string, Value)>

  /** The locale- and clock-dependent library calls, left uninterpreted:
      `localeCompare`, `String(date)`, `toLocaleDateString` and `Date.parse`. */
  datatype Locale = Locale(
    collate: (string, string) -> int,
    dateString: int -> string,
    localeDateString: int -> string,
    parseDate: string -> Option<int>)

  predicate IsNullish(v: Value) { v.Undefined? || v.Null? }

  /** `!!v` */
  predicate Truthy(v: Value) {
    match v
    case Undefined => false
    case Null => false
    case Bool(b) => b
    case Num(n) => n != 0
    case NaN => false
    case Str(s) => s != ""
    case _ => true
  }

  /** `typeof v` */
  function TypeOf(v: Value): string {
    match v
    case Undefined => "undefined"
    case Bool(_) => "boolean"
    case Num(_) => "number"
    case NaN => "number"
    case Str(_) => "string"
    case Fn(_) => "function"
    case _ => "object"
  }

  /** `typeof v === 'object' && v !== null` */
  predicate IsObjectLike(v: Value) {
    TypeOf(v) == "object" && !v.Null?
  }

  function Keys(e: Entries): seq<string> {
    seq(|e|, i requires 0 <= i < |e| => e[i].0)
  }

  /** A JavaScript object never holds the same own key twice. */
  predicate UniqueKeys(e: Entries) {
    forall i, j :: 0 <= i < j < |e| ==> e[i].0 != e[j].0
  }

  function Lookup(e: Entries, k: string): Value
    decreases |e|
  {
    if |e| == 0 then Undefined else if e[0].0 == k then e[0].1 else Lookup(e[1..], k)
  }

  /** `v[k]` for an own property; undefined for a missing key or a non-object. */
  function Get(v: Value, k: string): Value {
    if v.Obj? then Lookup(v.entries, k) else Undefined
  }

  /** `k in v` on a plain object. */
  predicate HasKey(v: Value, k: string) {
    v.Obj? && k in Keys(v.entries)
  }

  /** `o[k] = x`: overwrites the value in place when the key exists, else appends. */
  function Put(e: Entries, k: string, x: Value): Entries
    decreases |e|
  {
    if |e| == 0 then [(k, x)]
    else if e[0].0 == k then [(k, x)] + e[1..]
    else [e[0]] + Put(e[1..], k, x)
  }

  /** `{...base, ...over}` (equally `Object.assign({}, base, over)`). */
  function Assign(base: Entries, over: Entries): Entries
    decreases |over|
  {
    if |over| == 0 then base else Assign(Put(base, over[0].0, over[0].1), over[1..])
  }

  /** The entries `{...v}` copies: those of a plain object, none for
      undefined, null, numbers, booleans and functions. */
  function SpreadOf(v: Value): Entries {
    if v.Obj? then v.entries else []
  }

  /** `a % n` for a positive `n`: JavaScript's remainder takes the sign
      of the dividend, so it is reached by stepping `n` at a time towards
      zero. */
  function JsRem(a: int, n: int): (r: int)
    requires n > 0
    ensures a >= 0 ==> 0 <= r < n
    ensures a < 0 ==> -n < r <= 0
    ensures 0 <= a < n || -n < a < 0 ==> r == a
    decreases if a >= 0 then a else -a
  {
    if a >= n then JsRem(a - n, n)
    else if a <= -n then JsRem(a + n, n)
    else a
  }

  /** `a % n` is `a` minus a whole number `q` of `n`s. */
  lemma {:induction false} JsRemCongruent(a: int, n: int) returns (q: int)
    requires n > 0
    ensures a == q * n + JsRem(a, n)
    decreases if a >= 0 then a else -a
  {
    if a >= n {
      var q' := JsRemCongruent(a - n, n);
      q := q' + 1;
      MoreLap(a - n, n, q', JsRem(a, n));
    } else if a <= -n {
      var q' := JsRemCongruent(a + n, n);
      q := q' - 1;
      MoreLap(a, n, q, JsRem(a, n));
    } else {
      q := 0;
    }
  }

  /** One more lap of `n` adds one to the multiple. */
  lemma MoreLap(a: int, n: int, q: int, r: int)
    ensures a == q * n + r <==> a + n == (q + 1) * n + r
  {
  }

  /** One lap past `n` wraps back by `n`. */
  lemma JsRemWraps(x: int, n: int)
    requires 0 < n <= x < 2 * n
    ensures JsRem(x, n) == x - n
  {
  }

  /** `a || b` */
  function Or(a: Value, b: Value): Value {
    if Truthy(a) then a else b
  }

  /** `Number(s)` for a string: decimal integers with an optional sign. */
  function StrToNumber(s: string): Value {
    if s == "" then Num(0)
    else if AllDigits(s) then Num(ParseNat(s))
    else if |s| > 1 && s[0] == '-' && AllDigits(s[1..]) then Num(0 - ParseNat(s[1..]))
    else if |s| > 1 && s[0] == '+' && AllDigits(s[1..]) then Num(ParseNat(s[1..]))
    else NaN
  }

  /** `Number(v)`: a `Num` or `NaN`. An array goes through its string:
      `[]` is 0, `[x]` is `Number(String(x))`, longer arrays are NaN. */
  function ToNumber(v: Value): (r: Value)
    ensures r.Num? || r.NaN?
    decreases v
  {
    match v
    case Null => Num(0)
    case Bool(b) => Num(if b then 1 else 0)
    case Num(_) => v
    case Str(s) => StrToNumber(s)
    case Date(t) => Num(t)
    case Arr(items) =>
      if |items| == 0 then Num(0)
      else if |items| > 1 then NaN
      else (match items[0]
            case Undefined => Num(0)
            case Null => Num(0)
            case Num(_) => items[0]
            case Str(s) => StrToNumber(s)
            case Arr(_) => ToNumber(items[0])
            case _ => NaN)
    case _ => NaN
  }

  /** `a === b` on primitives; NaN is unequal to itself. Objects compare
      by structure here, not by identity. */
  predicate StrictEquals(a: Value, b: Value) {
    !a.NaN? && a == b
  }

  /** `v < bound` with JavaScript's numeric coercion (NaN compares false). */
  predicate LessThan(v: Value, bound: int) {
    ToNumber(v).Num? && ToNumber(v).n < bound
  }

  /** `String(v)`; arrays join their elements with "," and show null and
      undefined elements as "". A function prints as its tag. */
  function ToStr(v: Value, loc: Locale): string
    decreases v
  {
    match v
    case Undefined => "undefined"
    case Null => "null"
    case Bool(b) => if b then "true" else "false"
    case Num(n) => IntToString(n)
    case NaN => "NaN"
    case Str(s) => s
    case Date(t) => loc.dateString(t)
    case InvalidDate => "Invalid Date"
    case Fn(tag) => tag
    case Arr(items) =>
      Join(seq(|items|, i requires 0 <= i < |items| =>
        if IsNullish(items[i]) then "" else ToStr(items[i], loc)), ",")
    case Obj(_) => "[object Object]"
    case MapV(_) => "[object Map]"
    case SetV(_) => "[object Set]"
  }

  /** `new Date(v)` for a truthy argument. */
  function NewDate(v: Value, loc: Locale): Value
    requires Truthy(v)
  {
    match v
    case Date(t) => Date(t)
    case InvalidDate => InvalidDate
    case Num(n) => Date(n)
    case Bool(_) => Date(1)
    case _ =>
      match loc.parseDate(ToStr(v, loc))
      case Some(t) => Date(t)
      case None => InvalidDate
  }

  // ----- lemmas about the object operations -----

  lemma {:induction false} LookupPut(e: Entries, k: string, x: Value, j: string)
    ensures Lookup(Put(e, k, x), j) == if j == k then x else Lookup(e, j)
    decreases |e|
  {
    if |e| > 0 && e[0].0 != k {
      LookupPut(e[1..], k, x, j);
      assert Put(e, k, x)[1..] == Put(e[1..], k, x);
    }
  }

  lemma {:induction false} KeysPut(e: Entries, k: string, x: Value)
    ensures Keys(Put(e, k, x)) == if k in Keys(e) then Keys(e) else Keys(e) + [k]
    decreases |e|
  {
    if |e| > 0 {
      assert Keys(e) == [e[0].0] + Keys(e[1..]);
      if e[0].0 != k {
        KeysPut(e[1..], k, x);
        assert Keys(Put(e, k, x)) == [e[0].0] + Keys(Put(e[1..], k, x));
      } else {
        assert Keys(Put(e, k, x)) == [k] + Keys(e[1..]);
      }
    }
  }

  lemma {:induction false} PutUnique(e: Entries, k: string, x: Value)
    requires UniqueKeys(e)
    ensures UniqueKeys(Put(e, k, x))
  {
    KeysPut(e, k, x);
    var r := Put(e, k, x);
    forall i, j | 0 <= i < j < |r| ensures r[i].0 != r[j].0 {
      assert Keys(r)[i] == r[i].0 && Keys(r)[j] == r[j].0;
      if k !in Keys(e) && j == |e| {
        assert r[i].0 == Keys(e)[i];
      } else {
        assert Keys(r)[i] == Keys(e)[i] && Keys(r)[j] == Keys(e)[j];
      }
    }
  }

  /** Spreading `over` onto `base`: `over`'s attributes win, `base`'s others stay. */
  lemma {:induction false} LookupAssign(base: Entries, over: Entries, j: string)
    requires UniqueKeys(over)
    ensures Lookup(Assign(base, over), j) ==
      if j in Keys(over) then Lookup(over, j) else Lookup(base, j)
    decreases |over|
  {
    if |over| > 0 {
      var rest := over[1..];
      assert Keys(over) == [over[0].0] + Keys(rest);
      assert UniqueKeys(rest);
      LookupAssign(Put(base, over[0].0, over[0].1), rest, j);
      LookupPut(base, over[0].0, over[0].1, j);
      if j == over[0].0 {
        assert j !in Keys(rest);
      }
    }
  }

  /** The spread keeps `base`'s keys in their order and adds the new keys of `over`. */
  lemma {:induction false} KeysAssign(base: Entries, over: Entries)
    ensures |Keys(base)| <= |Keys(Assign(base, over))|
    ensures Keys(Assign(base, over))[..|Keys(base)|] == Keys(base)
    ensures forall j :: j in Keys(Assign(base, over)) <==> j in Keys(base) || j in Keys(over)
    decreases |over|
  {
    if |over| > 0 {
      var k, rest := over[0].0, over[1..];
      var b' := Put(base, k, over[0].1);
      assert Assign(base, over) == Assign(b', rest);
      KeysPut(base, k, over[0].1);
      KeysAssign(b', rest);
      var kb, kb', ka := Keys(base), Keys(b'), Keys(Assign(b', rest));
      assert Keys(over) == [k] + Keys(rest);
      assert kb'[..|kb|] == kb;
      assert ka[..|kb|] == ka[..|kb'|][..|kb|];
    }
  }

  lemma {:induction false} AssignUnique(base: Entries, over: Entries)
    requires UniqueKeys(base)
    ensures UniqueKeys(Assign(base, over))
    decreases |over|
  {
    if |over| > 0 {
      PutUnique(base, over[0].0, over[0].1);
      AssignUnique(Put(base, over[0].0, over[0].1), over[1..]);
    }
  }

  /** `Number(String(n)) == n`: decimal printing and parsing are inverse. */
  lemma StrToNumberOfIntToString(n: int)
    ensures StrToNumber(IntToString(n)) == Num(n)
  {
    if n >= 0 {
      NatToStringDigits(n);
    } else {
      var d := NatToString(-n);
      NatToStringDigits(-n);
      var s := IntToString(n);
      assert s == "-" + d && s[1..] == d;
      assert !IsDigit(s[0]);
    }
  }
}
