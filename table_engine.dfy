/** The generic table engine shared by both DataTable components
    (knk-web-app/src/components/DataTable.tsx and src/components/DataTable.tsx
    carry the same helpers): column inference from the first row, header
    text, the value comparator, the sort-state cycle and copy-then-sort. */
module TableEngine {
  import opened Text
  import opened JsValues
  import opened Seqs

  datatype Direction = Asc | Desc

  /** `{column, direction}`; the component starts from `Unsorted`. */
  datatype SortState = SortState(column: Option<string>, direction: Option<Direction>)

  const Unsorted := SortState(None, None)

  /** The caller's table configuration: `excludeColumns`, the keys that
      have a formatter, and the header overrides. */
  datatype TableProps = TableProps(
    excludeColumns: seq<string>,
    formatters: set<string>,
    headers: map<string, string>)

  /** What a body cell shows. */
  datatype Cell =
    | Formatted(column: string, raw: Value)   // the caller's formatter for that column, applied to the value
    | Dash                                    // "-"
    | YesNoBadge(yes: bool)                   // a coloured "Yes"/"No" badge
    | Plain(text: string)                     // text
    | NamePill(v: Value)                      // the value inside a pill
    | Raw(v: Value)                           // the value as React renders it

  /** The row actions: the three defaults and, in knk-web-app, the caller's extra ones. */
  datatype Action = View | Edit | Delete | Custom(index: nat, title: string)

  /** What running an action on a row does. */
  datatype Effect =
    | Navigate(path: string)
    | Logged(message: string, item: Value)
    | Invoked(index: nat, item: Value)

  /** A rendered table: columns, their header texts, the rows in display
      order, one cell per row and column, and the actions offered per row. */
  datatype TableView = TableView(
    columns: seq<string>,
    headers: seq<string>,
    rows: seq<Value>,
    cells: seq<seq<Cell>>,
    actions: seq<Action>)

  // ----- column inference -----

  /** `Object.keys(item)` of a row. */
  function RowKeys(row: Value): seq<string> {
    if row.Obj? then Keys(row.entries) else []
  }

  /** The filter of `getDisplayColumns`: not excluded, not an array, and not
      a non-null object unless the column has a formatter. */
  predicate KeepColumn(row: Value, key: string, props: TableProps) {
    key !in props.excludeColumns
    && !Get(row, key).Arr?
    && !(IsObjectLike(Get(row, key)) && key !in props.formatters)
  }

  function FilterColumns(keys: seq<string>, row: Value, props: TableProps): (cols: seq<string>)
    ensures IsSubsequence(cols, keys)
    ensures forall k :: k in cols <==> k in keys && KeepColumn(row, k, props)
    decreases |keys|
  {
    if |keys| == 0 then []
    else if KeepColumn(row, keys[0], props) then [keys[0]] + FilterColumns(keys[1..], row, props)
    else FilterColumns(keys[1..], row, props)
  }

  /** `getDisplayColumns(data[0])`: the row's keys, in order, that pass the filter. */
  function DisplayColumns(row: Value, props: TableProps): (cols: seq<string>)
    ensures IsSubsequence(cols, RowKeys(row))
    ensures forall k :: k in cols <==> k in RowKeys(row) && KeepColumn(row, k, props)
  {
    FilterColumns(RowKeys(row), row, props)
  }

  /** A column holding a Date in the first row is shown only when it has a
      formatter: a Date is a non-null object to the filter. */
  lemma DateColumnNeedsFormatter(row: Value, key: string, props: TableProps)
    requires Get(row, key).Date?
    ensures key in DisplayColumns(row, props) ==> key in props.formatters
  {
  }

  /** `{a: 1, b: [1, 2], c: {x: 1}, d: "s"}` shows columns a and d. */
  lemma ColumnsExample()
    ensures DisplayColumns(
      Obj([("a", Num(1)), ("b", Arr([Num(1), Num(2)])), ("c", Obj([("x", Num(1))])), ("d", Str("s"))]),
      TableProps([], {}, map[])) == ["a", "d"]
  {
    var row := Obj([("a", Num(1)), ("b", Arr([Num(1), Num(2)])), ("c", Obj([("x", Num(1))])), ("d", Str("s"))]);
    var p := TableProps([], {}, map[]);
    var keys := ["a", "b", "c", "d"];
    assert RowKeys(row) == keys;
    ExampleKeeps(row, p);
    assert FilterColumns(keys[4..], row, p) == [];
    assert FilterColumns(keys[3..], row, p) == ["d"];
    assert FilterColumns(keys[2..], row, p) == ["d"];
    assert FilterColumns(keys[1..], row, p) == ["d"];
  }

  lemma ExampleKeeps(row: Value, p: TableProps)
    requires row == Obj([("a", Num(1)), ("b", Arr([Num(1), Num(2)])), ("c", Obj([("x", Num(1))])), ("d", Str("s"))])
    requires p == TableProps([], {}, map[])
    ensures KeepColumn(row, "a", p) && !KeepColumn(row, "b", p) && !KeepColumn(row, "c", p) && KeepColumn(row, "d", p)
  {
    assert Get(row, "a") == Num(1);
    assert Get(row, "b") == Arr([Num(1), Num(2)]);
    assert Get(row, "c") == Obj([("x", Num(1))]);
    assert Get(row, "d") == Str("s");
  }

  // ----- header text -----

  /** `key.split(/(?=[A-Z])|_/)`, scanning with the fragment `cur` read so
      far: an underscore always ends a fragment; an upper-case letter starts
      a new one unless the current fragment is still empty. */
  function Fragments(s: string, cur: string): seq<string>
    decreases |s|
  {
    if |s| == 0 then [cur]
    else if s[0] == '_' then [cur] + Fragments(s[1..], "")
    else if IsUpper(s[0]) && cur != "" then [cur] + Fragments(s[1..], [s[0]])
    else Fragments(s[1..], cur + [s[0]])
  }

  function SplitKey(key: string): seq<string> {
    Fragments(key, "")
  }

  /** `word.charAt(0).toUpperCase() + word.slice(1).toLowerCase()` */
  function TitleWord(w: string): string {
    if w == "" then "" else [UpperChar(w[0])] + Lower(w[1..])
  }

  /** `getHeaderText`: a non-empty override, else the title-cased fragments joined by spaces. */
  function HeaderText(key: string, props: TableProps): string {
    if key in props.headers && props.headers[key] != "" then props.headers[key]
    else Join(TitleWords(SplitKey(key)), " ")
  }

  function Concat(parts: seq<string>): string
    decreases |parts|
  {
    if |parts| == 0 then "" else parts[0] + Concat(parts[1..])
  }

  function DropUnderscores(s: string): string
    decreases |s|
  {
    if |s| == 0 then "" else (if s[0] == '_' then "" else [s[0]]) + DropUnderscores(s[1..])
  }

  /** A fragment has no underscore and no upper-case letter after its first character. */
  predicate WellSplit(f: string) {
    '_' !in f && forall i :: 1 <= i < |f| ==> !IsUpper(f[i])
  }

  /** The split loses nothing but the underscores. */
  lemma {:induction false} FragmentsConcat(s: string, cur: string)
    ensures Concat(Fragments(s, cur)) == cur + DropUnderscores(s)
    decreases |s|
  {
    if |s| > 0 {
      FragmentsConcat(s[1..], if s[0] == '_' then "" else if IsUpper(s[0]) && cur != "" then [s[0]] else cur + [s[0]]);
      if s[0] == '_' {
        assert Concat([cur] + Fragments(s[1..], "")) == cur + Concat(Fragments(s[1..], ""));
      } else if IsUpper(s[0]) && cur != "" {
        assert Concat([cur] + Fragments(s[1..], [s[0]])) == cur + Concat(Fragments(s[1..], [s[0]]));
        assert cur + ([s[0]] + DropUnderscores(s[1..])) == cur + DropUnderscores(s);
      } else {
        assert (cur + [s[0]]) + DropUnderscores(s[1..]) == cur + DropUnderscores(s);
      }
    }
  }

  /** Every fragment is free of underscores and upper-case only at its start. */
  lemma {:induction false} FragmentsWellSplit(s: string, cur: string)
    requires WellSplit(cur)
    ensures forall f :: f in Fragments(s, cur) ==> WellSplit(f)
    decreases |s|
  {
    if |s| > 0 {
      if s[0] == '_' {
        FragmentsWellSplit(s[1..], "");
      } else if IsUpper(s[0]) && cur != "" {
        FragmentsWellSplit(s[1..], [s[0]]);
      } else {
        assert WellSplit(cur + [s[0]]) by {
          assert cur == "" || !IsUpper(s[0]);
        }
        FragmentsWellSplit(s[1..], cur + [s[0]]);
      }
    }
  }

  /** The header split, written position by position: a `Cut` token marks
      where one fragment ends and the next begins. */
  datatype Token = Ch(c: char) | Cut

  /** What `split(/(?=[A-Z])|_/)` makes of `key[i]`: an underscore is
      consumed as a cut; an upper-case letter is preceded by a cut unless it
      comes first or right after an underscore (the split never matches an
      empty separator where the previous fragment ended); any other
      character is kept. */
  function TokensAt(key: string, i: nat): seq<Token>
    requires i < |key|
  {
    if key[i] == '_' then [Cut]
    else if IsUpper(key[i]) && i > 0 && key[i - 1] != '_' then [Cut, Ch(key[i])]
    else [Ch(key[i])]
  }

  /** The tokens of `key[i..]`. */
  function Marked(key: string, i: nat): seq<Token>
    requires i <= |key|
    decreases |key| - i
  {
    if i == |key| then [] else TokensAt(key, i) + Marked(key, i + 1)
  }

  /** The fragments between the cuts, `cur` being the one under way. */
  function Pieces(ts: seq<Token>, cur: string): seq<string>
    decreases |ts|
  {
    if |ts| == 0 then [cur]
    else if ts[0].Cut? then [cur] + Pieces(ts[1..], "")
    else Pieces(ts[1..], cur + [ts[0].c])
  }

  lemma PiecesCut(rest: seq<Token>, cur: string)
    ensures Pieces([Cut] + rest, cur) == [cur] + Pieces(rest, "")
  {
    assert ([Cut] + rest)[1..] == rest;
  }

  lemma PiecesCh(c: char, rest: seq<Token>, cur: string)
    ensures Pieces([Ch(c)] + rest, cur) == Pieces(rest, cur + [c])
  {
    assert ([Ch(c)] + rest)[1..] == rest;
  }

  /** The scan of `Fragments` cuts exactly where the tokens do. Its current
      fragment is empty exactly at the start and right after an underscore. */
  lemma {:induction false} FragmentsArePieces(key: string, i: nat, cur: string)
    requires i <= |key|
    requires cur == "" <==> i == 0 || key[i - 1] == '_'
    ensures Fragments(key[i..], cur) == Pieces(Marked(key, i), cur)
    decreases |key| - i
  {
    if i == |key| {
      assert key[i..] == [];
    } else {
      var s := key[i..];
      assert s[0] == key[i] && s[1..] == key[i + 1..];
      var rest := Marked(key, i + 1);
      assert Marked(key, i) == TokensAt(key, i) + rest;
      if key[i] == '_' {
        assert Fragments(s, cur) == [cur] + Fragments(key[i + 1..], "");
        assert TokensAt(key, i) == [Cut];
        PiecesCut(rest, cur);
        FragmentsArePieces(key, i + 1, "");
      } else if IsUpper(key[i]) && cur != "" {
        assert Fragments(s, cur) == [cur] + Fragments(key[i + 1..], [key[i]]);
        assert TokensAt(key, i) + rest == [Cut] + ([Ch(key[i])] + rest);
        PiecesCut([Ch(key[i])] + rest, cur);
        PiecesCh(key[i], rest, "");
        assert "" + [key[i]] == [key[i]];
        FragmentsArePieces(key, i + 1, [key[i]]);
      } else {
        assert Fragments(s, cur) == Fragments(key[i + 1..], cur + [key[i]]);
        assert TokensAt(key, i) == [Ch(key[i])];
        PiecesCh(key[i], rest, cur);
        FragmentsArePieces(key, i + 1, cur + [key[i]]);
      }
    }
  }

  /** The header split loses only the underscores, its fragments are free
      of underscores and upper-case only at their start, and it cuts
      exactly at each underscore and before each upper-case letter that
      neither comes first nor follows an underscore. */
  lemma SplitKeyProperties(key: string)
    ensures Concat(SplitKey(key)) == DropUnderscores(key)
    ensures forall f :: f in SplitKey(key) ==> WellSplit(f)
    ensures SplitKey(key) == Pieces(Marked(key, 0), "")
  {
    FragmentsConcat(key, "");
    FragmentsWellSplit(key, "");
    assert key[0..] == key;
    FragmentsArePieces(key, 0, "");
  }

  /** A run of lower-case letters is appended to the current fragment. */
  lemma {:induction false} FragmentsPlain(w: string, rest: string, cur: string)
    requires forall i :: 0 <= i < |w| ==> w[i] != '_' && !IsUpper(w[i])
    ensures Fragments(w + rest, cur) == Fragments(rest, cur + w)
    decreases |w|
  {
    if |w| > 0 {
      var s := w + rest;
      assert s[0] == w[0] && s[1..] == w[1..] + rest;
      assert Fragments(s, cur) == Fragments(s[1..], cur + [w[0]]);
      FragmentsPlain(w[1..], rest, cur + [w[0]]);
      assert cur + [w[0]] + w[1..] == cur + w;
    } else {
      assert w + rest == rest && cur + w == cur;
    }
  }

  /** A non-empty override always wins. */
  lemma HeaderOverride(key: string, props: TableProps)
    requires key in props.headers && props.headers[key] != ""
    ensures HeaderText(key, props) == props.headers[key]
  {
  }

  lemma SplitStreetNumber()
    ensures SplitKey("streetNumber") == ["street", "Number"]
  {
    FragmentsPlain("street", "Number", "");
    assert "street" + "Number" == "streetNumber";
    assert "" + "street" == "street";
    SplitBeforeNumber();
  }

  /** The capital of `Number` closes the fragment `street`. */
  lemma SplitBeforeNumber()
    ensures Fragments("Number", "street") == ["street", "Number"]
  {
    assert Fragments("Number", "street") == ["street"] + Fragments("umber", "N");
    FragmentsPlain("umber", "", "N");
    assert "umber" + "" == "umber";
    assert "N" + "umber" == "Number";
  }

  lemma TitleStreetNumber()
    ensures TitleWord("street") == "Street" && TitleWord("Number") == "Number"
  {
    assert Lower("treet") == "treet";
    assert Lower("umber") == "umber";
  }

  function TitleWords(parts: seq<string>): seq<string> {
    seq(|parts|, i requires 0 <= i < |parts| => TitleWord(parts[i]))
  }

  /** `streetNumber` reads "Street Number". */
  lemma HeaderExample(key: string, props: TableProps)
    requires key == "streetNumber" && props.headers == map[]
    ensures HeaderText(key, props) == "Street Number"
  {
    SplitStreetNumber();
    TitleStreetNumber();
    var words := TitleWords(SplitKey(key));
    assert words == ["Street", "Number"];
    assert Join(words, " ") == "Street" + " " + Join(["Number"], " ");
  }

  // ----- comparator -----

  predicate IsDateObject(v: Value) { v.Date? || v.InvalidDate? }

  /** `if (typeof a === 'object' && a !== null && 'Name' in a) a = a.Name` */
  function NameReduced(v: Value): Value {
    if IsObjectLike(v) && HasKey(v, "Name") then Get(v, "Name") else v
  }

  /** `compareValues(a, b, direction)` as `sort` reads it: a NaN difference
      (an invalid Date, a NaN number) is read as 0. */
  function CompareValues(a: Value, b: Value, dir: Direction, loc: Locale): int {
    if IsNullish(a) then (if dir == Asc then -1 else 1)
    else if IsNullish(b) then (if dir == Asc then 1 else -1)
    else if IsDateObject(a) && IsDateObject(b) then
      (if a.Date? && b.Date? then (if dir == Asc then a.time - b.time else b.time - a.time) else 0)
    else if TypeOf(a) == "number" && TypeOf(b) == "number" then
      (if a.Num? && b.Num? then (if dir == Asc then a.n - b.n else b.n - a.n) else 0)
    else
      var sa := Lower(ToStr(NameReduced(a), loc));
      var sb := Lower(ToStr(NameReduced(b), loc));
      if dir == Asc then loc.collate(sa, sb) else loc.collate(sb, sa)
  }

  /** Nulls first ascending, last descending; `a` is inspected before `b`. */
  lemma CompareNulls(a: Value, b: Value, loc: Locale)
    ensures IsNullish(a) ==> CompareValues(a, b, Asc, loc) == -1 && CompareValues(a, b, Desc, loc) == 1
    ensures !IsNullish(a) && IsNullish(b) ==>
      CompareValues(a, b, Asc, loc) == 1 && CompareValues(a, b, Desc, loc) == -1
  {
  }

  /** For nulls, Dates and numbers the descending result negates the ascending one. */
  lemma CompareDescNegatesAsc(a: Value, b: Value, loc: Locale)
    requires IsNullish(a) || IsNullish(b) || (IsDateObject(a) && IsDateObject(b))
      || (TypeOf(a) == "number" && TypeOf(b) == "number")
    ensures CompareValues(a, b, Desc, loc) == -CompareValues(a, b, Asc, loc)
  {
  }

  /** Between two non-null values, descending is ascending with the arguments swapped. */
  lemma CompareDescSwapsAsc(a: Value, b: Value, loc: Locale)
    requires !IsNullish(a) && !IsNullish(b)
    ensures CompareValues(a, b, Desc, loc) == CompareValues(b, a, Asc, loc)
  {
  }

  /** Objects carrying `Name` compare as their names, lower-cased. */
  lemma CompareByName(a: Value, b: Value, dir: Direction, loc: Locale)
    requires a.Obj? && b.Obj? && HasKey(a, "Name") && HasKey(b, "Name")
    ensures CompareValues(a, b, dir, loc) ==
      var sa := Lower(ToStr(Get(a, "Name"), loc));
      var sb := Lower(ToStr(Get(b, "Name"), loc));
      if dir == Asc then loc.collate(sa, sb) else loc.collate(sb, sa)
  {
  }

  /** Two null cells are "less than" each other ascending and "greater"
      descending, in both argument orders: the comparator is not consistent
      on them, so their relative order is left to the sort implementation. */
  lemma NullPairInconsistent(loc: Locale)
    ensures CompareValues(Null, Undefined, Asc, loc) == -1 && CompareValues(Undefined, Null, Asc, loc) == -1
    ensures CompareValues(Null, Undefined, Desc, loc) == 1 && CompareValues(Undefined, Null, Desc, loc) == 1
  {
  }

  /** Ascending comparison is sign-antisymmetric whenever `localeCompare` is. */
  lemma CompareAscAntisymmetric(a: Value, b: Value, loc: Locale)
    requires forall x, y :: loc.collate(x, y) > 0 ==> loc.collate(y, x) <= 0
    ensures CompareValues(a, b, Asc, loc) > 0 ==> CompareValues(b, a, Asc, loc) <= 0
  {
  }

  // ----- sort state -----

  /** `handleSort(column)`: asc, then desc, then none on the same column;
      asc on a different one; no direction also clears the column. */
  function NextSort(prev: SortState, column: string): (next: SortState)
    ensures next.column.Some? <==> next.direction.Some?
    ensures next.column.Some? ==> next.column == Some(column)
    ensures prev.column != Some(column) ==> next == SortState(Some(column), Some(Asc))
  {
    var dir :=
      if prev.column == Some(column) then
        (if prev.direction == Some(Asc) then Some(Desc)
         else if prev.direction == Some(Desc) then None
         else Some(Asc))
      else Some(Asc);
    SortState(if dir.Some? then Some(column) else None, dir)
  }

  /** Clicking one header three times from any state not sorted by another
      column walks asc, desc, none and comes back. */
  lemma SortCycle(column: string)
    ensures NextSort(Unsorted, column) == SortState(Some(column), Some(Asc))
    ensures NextSort(SortState(Some(column), Some(Asc)), column) == SortState(Some(column), Some(Desc))
    ensures NextSort(SortState(Some(column), Some(Desc)), column) == Unsorted
    ensures NextSort(NextSort(NextSort(Unsorted, column), column), column) == Unsorted
  {
  }

  datatype SortIcon = BothWays | Up | Down

  /** `getSortIcon(column)`. */
  function IconFor(s: SortState, column: string): (icon: SortIcon)
    ensures icon == BothWays <==> s.column != Some(column)
    ensures icon == Up <==> s.column == Some(column) && s.direction == Some(Asc)
  {
    if s.column != Some(column) then BothWays
    else if s.direction == Some(Asc) then Up
    else Down
  }

  /** After a click on `column` only that header shows an arrow, and the
      arrow follows the cycle: up on the first click, down on the second,
      none on the third. */
  lemma IconAfterClick(prev: SortState, column: string, other: string)
    requires other != column
    ensures IconFor(NextSort(prev, column), other) == BothWays
    ensures prev.column != Some(column) ==> IconFor(NextSort(prev, column), column) == Up
    ensures prev == SortState(Some(column), Some(Asc)) ==> IconFor(NextSort(prev, column), column) == Down
    ensures prev == SortState(Some(column), Some(Desc)) ==> IconFor(NextSort(prev, column), column) == BothWays
  {
  }

  // ----- copy-then-sort -----

  /** The sort is active only with a non-empty column and a direction. */
  predicate Active(s: SortState) {
    s.column.Some? && s.column.value != "" && s.direction.Some?
  }

  /** The comparator handed to `sort`: 0 for every pair when inactive. */
  function RowCompare(x: Value, y: Value, s: SortState, loc: Locale): int {
    if Active(s) then CompareValues(Get(x, s.column.value), Get(y, s.column.value), s.direction.value, loc)
    else 0
  }

  /** The comparator never answers "greater" in both directions on these rows. */
  predicate SignConsistent(rows: seq<Value>, s: SortState, loc: Locale) {
    forall x, y :: x in rows && y in rows && RowCompare(x, y, s, loc) > 0 ==> RowCompare(y, x, s, loc) <= 0
  }

  predicate AdjacentOrdered(rows: seq<Value>, s: SortState, loc: Locale) {
    forall k :: 0 < k < |rows| ==> RowCompare(rows[k - 1], rows[k], s, loc) <= 0
  }

  /** The comparator function the table passes to `sort`. */
  function RowOrder(s: SortState, loc: Locale): (Value, Value) -> int {
    (x, y) => RowCompare(x, y, s, loc)
  }

  /** The rows in the order the table displays them. */
  function SortedRows(data: seq<Value>, s: SortState, loc: Locale): (rows: seq<Value>)
    ensures |rows| == |data|
  {
    InsertionSorted(data, |data|, RowOrder(s, loc))
  }

  /** `[...data].sort(...)`: the rows under the table's comparator. */
  method SortedData(data: seq<Value>, s: SortState, loc: Locale) returns (sorted: seq<Value>)
    ensures sorted == SortedRows(data, s, loc)
    ensures multiset(sorted) == multiset(data)
    ensures !Active(s) ==> sorted == data
    ensures SignConsistent(data, s, loc) ==> AdjacentOrdered(sorted, s, loc)
  {
    sorted := SortCopy(data, RowOrder(s, loc));
  }

  predicate Antisymmetric(rows: seq<Value>, cmp: (Value, Value) -> int) {
    forall x, y :: x in rows && y in rows && cmp(x, y) > 0 ==> cmp(y, x) <= 0
  }

  /** Copies `data` into a fresh array and sorts the copy in place (a stable
      insertion sort stands for the engine's sort), so `data` is untouched. */
  method SortCopy(data: seq<Value>, cmp: (Value, Value) -> int) returns (sorted: seq<Value>)
    ensures sorted == InsertionSorted(data, |data|, cmp)
    ensures multiset(sorted) == multiset(data)
    ensures (forall x, y :: cmp(x, y) <= 0) ==> sorted == data
    ensures Antisymmetric(data, cmp) ==> forall k :: 0 < k < |sorted| ==> cmp(sorted[k - 1], sorted[k]) <= 0
  {
    var a := new Value[|data|](k requires 0 <= k < |data| => data[k]);
    assert a[..] == data;
    var i := 0;
    while i < a.Length
      invariant 0 <= i <= a.Length
      invariant a[..] == InsertionSorted(data, i, cmp)
    {
      Sink(a, i, cmp);
      i := i + 1;
    }
    sorted := a[..];
    if forall x, y :: cmp(x, y) <= 0 {
      InsertionSortedKeeps(data, |data|, cmp);
    }
    if Antisymmetric(data, cmp) {
      InsertionSortedOrdered(data, |data|, cmp);
    }
  }

  /** A comparator that never answers "greater" moves nothing. */
  lemma {:induction false} InsertionSortedKeeps(s: seq<Value>, n: nat, cmp: (Value, Value) -> int)
    requires n <= |s|
    requires forall x, y :: cmp(x, y) <= 0
    ensures InsertionSorted(s, n, cmp) == s
    decreases n
  {
    if n > 0 {
      InsertionSortedKeeps(s, n - 1, cmp);
    }
  }

  /** Under an antisymmetric comparator the first `n` steps order the first `n` elements. */
  lemma {:induction false} InsertionSortedOrdered(s: seq<Value>, n: nat, cmp: (Value, Value) -> int)
    requires n <= |s| && Antisymmetric(s, cmp)
    ensures OrderedUpTo(InsertionSorted(s, n, cmp), cmp, n)
    decreases n
  {
    if n > 0 {
      InsertionSortedOrdered(s, n - 1, cmp);
      SunkOrdered(s, cmp, InsertionSorted(s, n - 1, cmp), n - 1, n - 1);
    }
  }

  lemma SwapPreservesMultiset(s: seq<Value>, j: int)
    requires 0 < j < |s|
    ensures multiset(s[j - 1 := s[j]][j := s[j - 1]]) == multiset(s)
  {
  }

  /** While `a[i]` sinks to position `j`, adjacent elements up to `i` are in
      order except at `j`, and the neighbours of `j` are in order. */
  predicate Sinking(s: seq<Value>, cmp: (Value, Value) -> int, i: int, j: int)
    requires 0 <= j <= i < |s|
  {
    (forall k :: 0 < k <= i && k != j ==> cmp(s[k - 1], s[k]) <= 0)
    && (0 < j < i ==> cmp(s[j - 1], s[j + 1]) <= 0)
  }

  /** One insertion step on values: `s[j]` moves left past every element
      that compares greater. */
  function Sunk(s: seq<Value>, j: nat, cmp: (Value, Value) -> int): seq<Value>
    requires j < |s|
    decreases j
  {
    if j > 0 && cmp(s[j - 1], s[j]) > 0 then Sunk(s[j - 1 := s[j]][j := s[j - 1]], j - 1, cmp)
    else s
  }

  /** The first `n` insertion steps applied to `s`. */
  function InsertionSorted(s: seq<Value>, n: nat, cmp: (Value, Value) -> int): (r: seq<Value>)
    requires n <= |s|
    ensures |r| == |s| && multiset(r) == multiset(s)
    decreases n
  {
    if n == 0 then s
    else
      var prev := InsertionSorted(s, n - 1, cmp);
      SunkPermutes(prev, n - 1, cmp);
      Sunk(prev, n - 1, cmp)
  }

  lemma {:induction false} SunkPermutes(s: seq<Value>, j: nat, cmp: (Value, Value) -> int)
    requires j < |s|
    ensures |Sunk(s, j, cmp)| == |s| && multiset(Sunk(s, j, cmp)) == multiset(s)
    decreases j
  {
    if j > 0 && cmp(s[j - 1], s[j]) > 0 {
      SwapPreservesMultiset(s, j);
      SunkPermutes(s[j - 1 := s[j]][j := s[j - 1]], j - 1, cmp);
    }
  }

  /** Under an antisymmetric comparator the step orders the prefix up to `i`. */
  lemma {:induction false} SunkOrdered(data: seq<Value>, cmp: (Value, Value) -> int, s: seq<Value>, i: nat, j: nat)
    requires j <= i < |s|
    requires multiset(s) == multiset(data) && Antisymmetric(data, cmp)
    requires Sinking(s, cmp, i, j)
    ensures |Sunk(s, j, cmp)| == |s|
    ensures forall k :: 0 < k <= i ==> cmp(Sunk(s, j, cmp)[k - 1], Sunk(s, j, cmp)[k]) <= 0
    decreases j
  {
    SunkPermutes(s, j, cmp);
    if j > 0 && cmp(s[j - 1], s[j]) > 0 {
      var t := s[j - 1 := s[j]][j := s[j - 1]];
      SwapPreservesMultiset(s, j);
      SwapKeepsOrder(data, cmp, s, t, j, i);
      SunkOrdered(data, cmp, t, i, j - 1);
    }
  }

  /** Swapping the out-of-order pair at `j` moves the gap in the ordered
      prefix from `j` to `j - 1`. */
  lemma SwapKeepsOrder(data: seq<Value>, cmp: (Value, Value) -> int, before: seq<Value>, after: seq<Value>, j: int, i: int)
    requires 0 < j <= i < |before|
    requires after == before[j - 1 := before[j]][j := before[j - 1]]
    requires multiset(before) == multiset(data) && Antisymmetric(data, cmp)
    requires cmp(before[j - 1], before[j]) > 0
    requires Sinking(before, cmp, i, j)
    ensures Sinking(after, cmp, i, j - 1)
  {
    UseAntisymmetry(data, cmp, before, j);
    forall k | 0 < k <= i && k != j - 1
      ensures cmp(after[k - 1], after[k]) <= 0
    {
      if k == j + 1 {
        assert after[k - 1] == before[j - 1] && after[k] == before[j + 1];
      } else if k != j {
        assert after[k - 1] == before[k - 1] && after[k] == before[k];
      }
    }
    if 0 < j - 1 {
      assert after[j - 2] == before[j - 2] && after[j] == before[j - 1];
    }
  }

  lemma UseAntisymmetry(data: seq<Value>, cmp: (Value, Value) -> int, before: seq<Value>, j: int)
    requires multiset(before) == multiset(data) && Antisymmetric(data, cmp)
    requires 0 < j < |before| && cmp(before[j - 1], before[j]) > 0
    ensures cmp(before[j], before[j - 1]) <= 0
  {
    assert before[j] in multiset(before) && before[j - 1] in multiset(before);
  }

  /** Exchanges `a[j - 1]` and `a[j]`. */
  method SwapDown(a: array<Value>, j: nat)
    requires 0 < j < a.Length
    modifies a
    ensures a[..] == old(a[..])[j - 1 := old(a[j])][j := old(a[j - 1])]
  {
    var x, y := a[j], a[j - 1];
    a[j - 1], a[j] := x, y;
  }

  /** The first `n` elements are in order under `cmp`. */
  predicate OrderedUpTo(s: seq<Value>, cmp: (Value, Value) -> int, n: int)
    requires n <= |s|
  {
    forall k :: 0 < k < n ==> cmp(s[k - 1], s[k]) <= 0
  }

  /** One insertion step: moves `a[i]` left past every element that compares greater. */
  method Sink(a: array<Value>, i: nat, cmp: (Value, Value) -> int)
    requires i < a.Length
    modifies a
    ensures a[..] == Sunk(old(a[..]), i, cmp)
    ensures multiset(a[..]) == multiset(old(a[..]))
    ensures Antisymmetric(old(a[..]), cmp) && OrderedUpTo(old(a[..]), cmp, i) ==> OrderedUpTo(a[..], cmp, i + 1)
  {
    var j := i;
    while j > 0 && cmp(a[j - 1], a[j]) > 0
      invariant 0 <= j <= i
      invariant Sunk(a[..], j, cmp) == Sunk(old(a[..]), i, cmp)
    {
      SwapDown(a, j);
      j := j - 1;
    }
    SunkPermutes(old(a[..]), i, cmp);
    if Antisymmetric(old(a[..]), cmp) && OrderedUpTo(old(a[..]), cmp, i) {
      SunkOrdered(old(a[..]), cmp, old(a[..]), i, i);
    }
  }

}
