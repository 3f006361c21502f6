/** The DataTable component of knk-web-app: cell formatting with badges and
    name pills, a sortable header, and a per-row action menu of which at
    most one is open. */
module KnkDataTable {
  import opened Text
  import opened JsValues
  import opened TableEngine

  /** `formatValue(key, value)`. */
  function FormatValue(key: string, value: Value, props: TableProps, loc: Locale): Cell {
    if key in props.formatters then Formatted(key, value)
    else if IsNullish(value) then Dash
    else if value.Bool? then YesNoBadge(value.b)
    else if value.Date? then Plain(loc.localeDateString(value.time))
    else if value.InvalidDate? then Plain("Invalid Date")
    else if TypeOf(value) == "object" then
      (if HasKey(value, "Name") then Raw(Get(value, "Name")) else Plain("[Object]"))
    else if key == "name" || key == "Name" then NamePill(value)
    else Raw(value)
  }

  /** The priority order of `formatValue`: a formatter beats everything,
      null and undefined show "-", and only a non-null primitive other than
      a boolean under the key "name" or "Name" gets a pill. */
  lemma FormatPriority(key: string, value: Value, props: TableProps, loc: Locale)
    ensures key in props.formatters ==> FormatValue(key, value, props, loc) == Formatted(key, value)
    ensures key !in props.formatters && IsNullish(value) ==> FormatValue(key, value, props, loc) == Dash
    ensures FormatValue(key, value, props, loc).NamePill? <==>
      key !in props.formatters && (key == "name" || key == "Name")
      && !IsNullish(value) && !value.Bool? && TypeOf(value) != "object"
    ensures !value.Date? ==>
      (FormatValue(key, value, props, loc) == Plain("[Object]") <==>
        key !in props.formatters && IsObjectLike(value) && !IsDateObject(value) && !HasKey(value, "Name"))
  {
  }

  /** In the first row every shown cell is a formatter, "-", a badge, a pill
      or a raw primitive: objects there are either filtered out of the
      columns or have a formatter. */
  lemma FirstRowCellsArePrimitive(row: Value, props: TableProps, loc: Locale, k: int)
    requires 0 <= k < |DisplayColumns(row, props)|
    ensures var key := DisplayColumns(row, props)[k];
      var cell := FormatValue(key, Get(row, key), props, loc);
      cell.Formatted? || cell.Dash? || cell.YesNoBadge? || cell.NamePill?
      || (cell.Raw? && !IsObjectLike(cell.v))
  {
    var key := DisplayColumns(row, props)[k];
    assert key in DisplayColumns(row, props);
  }

  // ----- the action menu -----

  /** `[...defaultActions, ...actions]`: the defaults first, then the caller's. */
  function CombinedActions(extra: seq<string>): (acts: seq<Action>)
    ensures |acts| == 3 + |extra|
    ensures acts[0] == View && acts[1] == Edit && acts[2] == Delete
    ensures forall i :: 0 <= i < |extra| ==> acts[3 + i] == Custom(i, extra[i])
  {
    [View, Edit, Delete] + seq(|extra|, i requires 0 <= i < |extra| => Custom(i, extra[i]))
  }

  /** The default actions log or navigate to `/view/<type>/<item.id>`;
      an extra action calls the caller's handler with the row. */
  function RunAction(a: Action, item: Value, entityType: string, loc: Locale): Effect {
    match a
    case View => Navigate("/view/" + entityType + "/" + ToStr(Get(item, "id"), loc))
    case Edit => Logged("Edit item:", item)
    case Delete => Logged("Delete item:", item)
    case Custom(i, _) => Invoked(i, item)
  }

  /** The trigger `setActiveMenu(activeMenu === index ? null : index)`. */
  function ToggledMenu(active: Option<nat>, index: nat): (next: Option<nat>)
    ensures next == Some(index) <==> active != Some(index)
    ensures next.None? <==> active == Some(index)
  {
    if active == Some(index) then None else Some(index)
  }

  /** Opening a second row's menu closes the first; toggling the same row twice returns to closed. */
  lemma MenuToggles(i: nat, j: nat)
    requires i != j
    ensures ToggledMenu(Some(i), j) == Some(j)
    ensures ToggledMenu(ToggledMenu(None, i), i) == None
  {
  }

  class DataTable {
    const data: seq<Value>
    const entityType: string
    const props: TableProps
    const extraActions: seq<string>
    const loc: Locale
    var sortState: SortState
    var activeMenu: Option<nat>

    constructor (data: seq<Value>, entityType: string, props: TableProps, extraActions: seq<string>, loc: Locale)
      ensures this.data == data && this.entityType == entityType && this.props == props
      ensures this.extraActions == extraActions && this.loc == loc
      ensures sortState == Unsorted && activeMenu == None
    {
      this.data := data;
      this.entityType := entityType;
      this.props := props;
      this.extraActions := extraActions;
      this.loc := loc;
      sortState := Unsorted;
      activeMenu := None;
    }

    /** A click on a column header. */
    method HandleSort(column: string)
      modifies this`sortState
      ensures sortState == NextSort(old(sortState), column)
    {
      sortState := NextSort(sortState, column);
    }

    /** A click on a row's menu trigger. */
    method ToggleMenu(index: nat)
      modifies this`activeMenu
      ensures activeMenu == ToggledMenu(old(activeMenu), index)
    {
      activeMenu := ToggledMenu(activeMenu, index);
    }

    /** A click on an action in the open menu of row `index`: the action runs
        on the row shown there and the menu closes. */
    method ChooseAction(index: nat, actionIndex: nat) returns (row: Value, effect: Effect)
      requires activeMenu == Some(index) && index < |data|
      requires actionIndex < |CombinedActions(extraActions)|
      modifies this`activeMenu
      ensures activeMenu == None
      ensures row == SortedRows(data, sortState, loc)[index]
      ensures row in multiset(data)
      ensures !Active(sortState) ==> row == data[index]
      ensures effect == RunAction(CombinedActions(extraActions)[actionIndex], row, entityType, loc)
    {
      var sorted := SortedData(data, sortState, loc);
      assert |sorted| == |multiset(sorted)| == |multiset(data)| == |data|;
      assert sorted[index] in multiset(sorted);
      row := sorted[index];
      effect := RunAction(CombinedActions(extraActions)[actionIndex], row, entityType, loc);
      activeMenu := None;
    }

    /** The rendered table; nothing at all for empty data. */
    method Render() returns (view: Option<TableView>)
      ensures view.None? <==> |data| == 0
      ensures view.Some? ==>
        var v := view.value;
        v.columns == DisplayColumns(data[0], props)
        && |v.headers| == |v.columns|
        && (forall c :: 0 <= c < |v.columns| ==> v.headers[c] == HeaderText(v.columns[c], props))
        && v.rows == SortedRows(data, sortState, loc)
        && multiset(v.rows) == multiset(data)
        && (!Active(sortState) ==> v.rows == data)
        && (SignConsistent(data, sortState, loc) ==> AdjacentOrdered(v.rows, sortState, loc))
        && |v.cells| == |v.rows|
        && (forall r :: 0 <= r < |v.rows| ==>
              (|v.cells[r]| == |v.columns|
               && forall c :: 0 <= c < |v.columns| ==>
                    v.cells[r][c] == FormatValue(v.columns[c], Get(v.rows[r], v.columns[c]), props, loc)))
        && v.actions == CombinedActions(extraActions)
    {
      if |data| == 0 {
        return None;
      }
      var columns := DisplayColumns(data[0], props);
      var headers := seq(|columns|, c requires 0 <= c < |columns| => HeaderText(columns[c], props));
      var rows := SortedData(data, sortState, loc);
      var cells := seq(|rows|, r requires 0 <= r < |rows| =>
        seq(|columns|, c requires 0 <= c < |columns| => FormatValue(columns[c], Get(rows[r], columns[c]), props, loc)));
      view := Some(TableView(columns, headers, rows, cells, CombinedActions(extraActions)));
    }
  }
}
