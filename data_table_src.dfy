/** The DataTable component of the top-level app: the same table engine,
    plain-text booleans, no name pill, and the three default actions as
    buttons on every row, with the view route guessed from the row's keys. */
module SrcDataTable {
  import opened Text
  import opened JsValues
  import opened TableEngine
  import Knk = KnkDataTable

  /** `formatValue(key, value)`. */
  function FormatValue(key: string, value: Value, props: TableProps, loc: Locale): Cell {
    if key in props.formatters then Formatted(key, value)
    else if IsNullish(value) then Dash
    else if value.Bool? then Plain(if value.b then "Yes" else "No")
    else if value.Date? then Plain(loc.localeDateString(value.time))
    else if value.InvalidDate? then Plain("Invalid Date")
    else if TypeOf(value) == "object" then
      (if HasKey(value, "Name") then Raw(Get(value, "Name")) else Plain("[Object]"))
    else Raw(value)
  }

  /** The two components format every cell alike except that knk-web-app
      draws booleans as a badge and `name`/`Name` primitives as a pill. */
  lemma FormatAgreesWithKnk(key: string, value: Value, props: TableProps, loc: Locale)
    ensures var knk := Knk.FormatValue(key, value, props, loc);
      var src := FormatValue(key, value, props, loc);
      (knk.YesNoBadge? <==> key !in props.formatters && value.Bool?)
      && (knk.YesNoBadge? ==> src == Plain(if knk.yes then "Yes" else "No"))
      && (knk.NamePill? ==> src == Raw(knk.v) && knk.v == value)
      && (!knk.YesNoBadge? && !knk.NamePill? ==> src == knk)
  {
  }

  /** `handleView`: the route type is guessed from the row's own keys. */
  function ViewType(item: Value): (t: string)
    ensures t == "town" <==> HasKey(item, "RequiredTitle")
    ensures t == "district" <==> !HasKey(item, "RequiredTitle") && HasKey(item, "TownId")
    ensures t in {"town", "district", "structure"}
  {
    if HasKey(item, "RequiredTitle") then "town"
    else if HasKey(item, "TownId") then "district"
    else "structure"
  }

  const Actions: seq<Action> := [View, Edit, Delete]

  function RunAction(a: Action, item: Value, loc: Locale): Effect {
    match a
    case View => Navigate("/view/" + ViewType(item) + "/" + ToStr(Get(item, "Id"), loc))
    case Edit => Logged("Edit item:", item)
    case Delete => Logged("Delete item:", item)
    case Custom(i, _) => Invoked(i, item)
  }

  /** The route of a town row: a row with `RequiredTitle` goes to the town view
      by its `Id`, whatever other keys it has. */
  lemma TownRoute(item: Value, id: int, loc: Locale)
    requires HasKey(item, "RequiredTitle") && Get(item, "Id") == Num(id)
    ensures RunAction(View, item, loc) == Navigate("/view/town/" + IntToString(id))
  {
  }

  class DataTable {
    const data: seq<Value>
    const props: TableProps
    const loc: Locale
    var sortState: SortState

    constructor (data: seq<Value>, props: TableProps, loc: Locale)
      ensures this.data == data && this.props == props && this.loc == loc
      ensures sortState == Unsorted
    {
      this.data := data;
      this.props := props;
      this.loc := loc;
      sortState := Unsorted;
    }

    /** A click on a column header. */
    method HandleSort(column: string)
      modifies this`sortState
      ensures sortState == NextSort(old(sortState), column)
    {
      sortState := NextSort(sortState, column);
    }

    /** A click on one of the buttons of displayed row `index`. */
    method ClickAction(index: nat, actionIndex: nat) returns (row: Value, effect: Effect)
      requires index < |data| && actionIndex < |Actions|
      ensures row == SortedRows(data, sortState, loc)[index]
      ensures row in multiset(data)
      ensures !Active(sortState) ==> row == data[index]
      ensures effect == RunAction(Actions[actionIndex], row, loc)
    {
      var sorted := SortedData(data, sortState, loc);
      assert |sorted| == |multiset(sorted)| == |multiset(data)| == |data|;
      assert sorted[index] in multiset(sorted);
      row := sorted[index];
      effect := RunAction(Actions[actionIndex], row, loc);
    }

    /** The rendered table; nothing at all for empty data. */
    method Render() returns (view: Option<TableView>)
      ensures view.None? <==> |data| == 0
      ensures view.Some? ==>
        var v := view.value;
        v.columns == DisplayColumns(data[0], props)
        && |v.headers| == |v.columns|
        && (forall c :: 0 <= c < |v.columns| ==> v.headers[c] == HeaderText(v.columns[c], props))
        && v.rows == SortedRows(data, sortState, loc)
        && multiset(v.rows) == multiset(data)
        && (!Active(sortState) ==> v.rows == data)
        && (SignConsistent(data, sortState, loc) ==> AdjacentOrdered(v.rows, sortState, loc))
        && |v.cells| == |v.rows|
        && (forall r :: 0 <= r < |v.rows| ==>
              (|v.cells[r]| == |v.columns|
               && forall c :: 0 <= c < |v.columns| ==>
                    v.cells[r][c] == FormatValue(v.columns[c], Get(v.rows[r], v.columns[c]), props, loc)))
        && v.actions == Actions
    {
      if |data| == 0 {
        return None;
      }
      var columns := DisplayColumns(data[0], props);
      var headers := seq(|columns|, c requires 0 <= c < |columns| => HeaderText(columns[c], props));
      var rows := SortedData(data, sortState, loc);
      var cells := seq(|rows|, r requires 0 <= r < |rows| =>
        seq(|columns|, c requires 0 <= c < |columns| => FormatValue(columns[c], Get(rows[r], columns[c]), props, loc)));
      view := Some(TableView(columns, headers, rows, cells, Actions));
    }
  }
}
