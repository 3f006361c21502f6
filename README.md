# Admin dashboard core, modelled in Dafny

This project models the logic of a React admin dashboard for a world of
locations, dominions, towns, districts, streets, structures, items and
users. Most of the dashboard is markup and HTTP glue. What is modelled
is the decision-making underneath it:

- **The generic data table.** Both copies of `DataTable` are modelled. They share
  - column inference from the first row,
  - header text from camelCase/underscore keys,
  - a priority-ordered cell formatter,
  - a three-valued comparator.

  On top of these sit the asc → desc → none sort cycle, the copy-then-sort
  (an insertion sort on an array), and the one-open-at-a-time row menu.
- **Configuration-driven forms and views.**
  - `DynamicForm` handles validation, change, submit, default filling, select and nested-form state.
  - Two field helpers: the DTO field extractor and the config merger.
  - The entity registry `objectConfigs`: field inheritance by spread, validators, and acyclic references.
  - The field-selection rules of both `ObjectView` components.
- **Small UI state machines.**
  - The searchable and multi-select dropdowns.
  - The navigation menu.
  - The slideshow.
  - The toast list.
  - The UI field configuration page.
  - The image upload modal.
- **Logging.** Level parsing, longest-prefix level lookup, entry emission and idempotent console registration.
- **DTO mappers** between PascalCase wire records and camelCase form/view records.
  - The create mappers follow an "id < 0 means new, embed the nested create DTO" rule.
  - The view mappers include null guards and `Map` construction.
  - The district and street view mappers are mutually recursive.

JavaScript values are a datatype (`JsValues.Value`) with ordered object
entries, so key order (column order, spread order) is kept. Numbers are
integers. Functions the program takes from the platform are fields of a
`Locale` record that every caller passes in: `localeCompare`,
`toLocaleDateString`, `toLocaleString` and `new Date(...)`. TypeErrors
thrown by the view mappers are the `Threw` result.

Files: `js_values.dfy`, `text.dfy`, `seqs.dfy` (value model and helpers);
`table_engine.dfy`, `data_table_knk.dfy`, `data_table_src.dfy`;
`form_types.dfy`, `object_configs.dfy`, `dto_utils.dfy`,
`dynamic_form.dfy`, `object_view_knk.dfy`, `object_view_src.dfy`;
`pickers.dfy`, `navigation.dfy`, `slideshow.dfy`, `toasts.dfy`,
`ui_field_configurations.dfy`, `image_upload.dfy`; `logging.dfy`;
`create_mappers.dfy`, `view_mappers.dfy`, `district_street_views.dfy`.

Two facts of the code that the model keeps:
- `validateForm` checks every field of the configuration, including those hidden by `dependsOn` (knk-web-app/src/components/DynamicForm-Copilot.ts:103-117).
- The district configuration refers to its town only: it has no reference to streets (src/config/objectConfigs.tsx:131-146). The street configuration refers to its district.

## Model

| member | source | states |
|---|---|---|
| TableEngine.DisplayColumns | knk-web-app/src/components/DataTable.tsx:86-108 | The columns are the first row's keys, in order, keeping exactly those not excluded, not array-valued, and not formatter-less non-null objects. The same holds for src/components/DataTable.tsx:74-93. |
| TableEngine.FilterColumns | knk-web-app/src/components/DataTable.tsx:89-98 | The filter keeps a subsequence of the keys, and a key is kept iff it passes the column test. |
| TableEngine.DateColumnNeedsFormatter | knk-web-app/src/components/DataTable.tsx:92-96 | A Date is an object, so a Date-valued column is shown only when it has a formatter. |
| TableEngine.ColumnsExample | knk-web-app/src/components/DataTable.tsx:86-108 | Example: array and object columns are dropped; scalars stay in key order. |
| TableEngine.SplitKeyProperties | knk-web-app/src/components/DataTable.tsx:154-162 | The header fragments concatenate back to the key minus underscores, and each fragment has no underscore and an uppercase letter only at its start. The fragments are exactly the pieces between cuts, where a cut is made at every underscore and before every uppercase letter not at the start and not right after an underscore. |
| TableEngine.FragmentsConcat | knk-web-app/src/components/DataTable.tsx:157-160 | Splitting before capitals and at underscores loses only the underscores. |
| TableEngine.FragmentsWellSplit | knk-web-app/src/components/DataTable.tsx:157-160 | Every fragment is well split. |
| TableEngine.FragmentsArePieces | knk-web-app/src/components/DataTable.tsx:157-160 | Scanning the key gives the same fragments as cutting a token list that marks each underscore and each capital not at the start of a fragment. |
| TableEngine.HeaderOverride | knk-web-app/src/components/DataTable.tsx:155-156 | A header override wins over the derived text. The same holds for src/components/DataTable.tsx:122-130. |
| TableEngine.HeaderExample | knk-web-app/src/components/DataTable.tsx:154-162 | `streetNumber` becomes "Street Number". |
| TableEngine.CompareNulls | knk-web-app/src/components/DataTable.tsx:171-183 | A nullish `a` gives -1 asc and +1 desc, checked before `b`. A nullish `b` gives +1 asc and -1 desc. The same holds for src/components/DataTable.tsx:139-168. |
| TableEngine.CompareDescNegatesAsc | knk-web-app/src/components/DataTable.tsx:171-191 | For nulls, Date pairs and number pairs, descending is the negation of ascending. |
| TableEngine.CompareDescSwapsAsc | knk-web-app/src/components/DataTable.tsx:185-199 | For non-null operands, descending equals ascending with the arguments swapped. |
| TableEngine.CompareByName | knk-web-app/src/components/DataTable.tsx:193-199 | Objects carrying `Name` compare by their lower-cased `Name` under the locale collation. |
| TableEngine.NullPairInconsistent | knk-web-app/src/components/DataTable.tsx:175-177 | Two nullish cells compare -1 both ways ascending and +1 both ways descending. |
| TableEngine.CompareAscAntisymmetric | knk-web-app/src/components/DataTable.tsx:171-199 | With an antisymmetric collation, a positive comparison is never positive in the other order. |
| TableEngine.NextSort | knk-web-app/src/components/DataTable.tsx:202-218 | Column and direction are set together, to the clicked column. A different column always yields asc. |
| TableEngine.SortCycle | knk-web-app/src/components/DataTable.tsx:202-218 | On one column: none → asc → desc → none. Three clicks return to no sort. The same holds for src/components/DataTable.tsx:170-186. |
| TableEngine.IconAfterClick | knk-web-app/src/components/DataTable.tsx:164-169 | Other columns show the neutral icon; the clicked column shows up, down or neutral after asc, desc or reset. |
| TableEngine.IconFor | knk-web-app/src/components/DataTable.tsx:164-169 | The icon is neutral iff the column is not the sorted one, and up iff it is sorted ascending. |
| TableEngine.SortedData | knk-web-app/src/components/DataTable.tsx:220-223 | The rows are `SortedRows(data, s, loc)`, the order the table displays. They are a permutation of the input. With no active sort they are the input order. With a sign-consistent comparator, adjacent rows are ordered. The same holds for src/components/DataTable.tsx:188-191. |
| TableEngine.SortCopy | knk-web-app/src/components/DataTable.tsx:220 | The copy is sorted in place into `InsertionSorted(data, \|data\|, cmp)`: a permutation, unchanged under an all-zero comparator and ordered under an antisymmetric one. |
| TableEngine.InsertionSorted | knk-web-app/src/components/DataTable.tsx:220 | Any number of insertion steps keeps the length and the multiset. |
| TableEngine.InsertionSortedKeeps | knk-web-app/src/components/DataTable.tsx:220 | A comparator that never answers "greater" leaves the rows in input order. |
| TableEngine.InsertionSortedOrdered | knk-web-app/src/components/DataTable.tsx:220 | Under a comparator antisymmetric on the data, the first `n` steps order the first `n` rows. |
| TableEngine.Sink | knk-web-app/src/components/DataTable.tsx:220 | One insertion step on the array: its contents become `Sunk` of the old contents, and the multiset is kept. When the comparator is antisymmetric on the old contents and their first `i` elements are ordered, the first `i + 1` are. |
| TableEngine.SunkPermutes | knk-web-app/src/components/DataTable.tsx:220 | The insertion step on values keeps the length and the multiset. |
| TableEngine.SunkOrdered | knk-web-app/src/components/DataTable.tsx:220 | Under a comparator antisymmetric on the data, the step leaves the prefix up to `i` ordered. |
| KnkDataTable.FormatPriority | knk-web-app/src/components/DataTable.tsx:110-152 | The formatter comes first, then null → "-". The name pill is shown iff the key is name/Name on a non-null, non-boolean primitive. "[Object]" is shown iff the value is a non-Date object without `Name`. |
| KnkDataTable.FirstRowCellsArePrimitive | knk-web-app/src/components/DataTable.tsx:86-152 | A cell in a displayed column of the first row is never rendered as a raw object. |
| KnkDataTable.CombinedActions | knk-web-app/src/components/DataTable.tsx:54-73 | The actions are View, Edit, Delete, then the caller's actions in order. |
| KnkDataTable.ToggledMenu | knk-web-app/src/components/DataTable.tsx:268 | The trigger opens its row iff that row was not the open one, and otherwise closes the menu. |
| KnkDataTable.MenuToggles | knk-web-app/src/components/DataTable.tsx:268 | Opening another row replaces the open one, and toggling twice closes. |
| KnkDataTable.DataTable.HandleSort | knk-web-app/src/components/DataTable.tsx:202-218 | The sort state becomes `NextSort` of the old state. |
| KnkDataTable.DataTable.ToggleMenu | knk-web-app/src/components/DataTable.tsx:268 | The active menu becomes the toggled one. |
| KnkDataTable.DataTable.ChooseAction | knk-web-app/src/components/DataTable.tsx:276-282 | Choosing an action closes the menu and runs that action on the displayed row `SortedRows(data, sortState, loc)[index]`, the same row `Render` shows at `index`. Unsorted, that is the input row. |
| KnkDataTable.DataTable.Render | knk-web-app/src/components/DataTable.tsx:86-300 | Empty data renders nothing. Otherwise it renders the inferred columns and headers, the rows `SortedRows(data, sortState, loc)`, formatted cells and the combined actions. |
| SrcDataTable.FormatAgreesWithKnk | src/components/DataTable.tsx:95-120 | This formatter is the knk one except that booleans are plain "Yes"/"No" and name/Name values have no pill. |
| SrcDataTable.ViewType | src/components/DataTable.tsx:34-43 | The route is "town" iff `RequiredTitle` is present, "district" iff `TownId` is present without it, and "structure" otherwise. |
| SrcDataTable.TownRoute | src/components/DataTable.tsx:34-43 | View on a town navigates to /view/town/{Id}. |
| SrcDataTable.DataTable.HandleSort | src/components/DataTable.tsx:170-186 | The sort state becomes `NextSort` of the old state. |
| SrcDataTable.DataTable.ClickAction | src/components/DataTable.tsx:53-71 | The fixed View/Edit/Delete actions run on the displayed row `SortedRows(data, sortState, loc)[index]`, the same row `Render` shows at `index`. |
| SrcDataTable.DataTable.Render | src/components/DataTable.tsx:71-250 | Empty data renders nothing. Otherwise it renders columns, headers, the rows `SortedRows(data, sortState, loc)`, cells and the fixed actions. |
| JsValues.JsRem | src/components/Navigation.tsx:35-39 | JavaScript `%` keeps the dividend's sign and lies strictly between -n and n. |
| JsValues.JsRemCongruent | src/components/Navigation.tsx:35-39 | `a % n` is `a` minus a whole multiple of `n`: `a == q * n + a % n` for the returned `q`. With the sign and range of JsValues.JsRem this fixes the value. |
| Text.ContainsIffOccurs | src/components/SearchableDropdown.tsx:36-38 | `includes` holds iff the needle occurs at some index. |
| Text.LowerIdempotent | src/components/SearchableDropdown.tsx:37 | Lower-casing twice is lower-casing once. |
| JsValues.StrToNumberOfIntToString | knk-web-app/src/utils/domain/dto/district/DistrictViewDTO.ts:27 | `Number(String(n)) == n` for integers. |
| DtoUtils.ExtractFieldsFromDTO | knk-web-app/src/utils/dtoUtils/DTOFieldExtractor.ts:5-10 | The loop builds exactly `ExtractedFields(dto)`. |
| DtoUtils.ExtractedFields | knk-web-app/src/utils/dtoUtils/DTOFieldExtractor.ts:6-10 | There is one entry per own key, in key order. |
| DtoUtils.ExtractedFieldDescribes | knk-web-app/src/utils/dtoUtils/DTOFieldExtractor.ts:7-8 | An entry exists iff its key is an own key. Its `name` is the key and its `type` is the value's `typeof`. An empty object gives no entries. |
| DtoUtils.MergeDTOWithConfig | src/utils/dtoUtils/ConfigDTOMerger.ts:5-16 | The loop builds exactly `MergedFields(dtoFields, config)`. |
| DtoUtils.MergedFields | src/utils/dtoUtils/ConfigDTOMerger.ts:7-8 | The merged key list equals the DTO's keys. |
| DtoUtils.MergedFieldOverrides | src/utils/dtoUtils/ConfigDTOMerger.ts:9-12 | A config attribute overrides the same DTO attribute, and other DTO attributes are kept (a shallow merge). |
| DtoUtils.MergedDropsConfigOnlyKeys | src/utils/dtoUtils/ConfigDTOMerger.ts:7-14 | Keys present only in the config are dropped. |
| DtoUtils.MergedWithoutConfig | src/utils/dtoUtils/ConfigDTOMerger.ts:9-12 | A key missing from the config yields a copy of the DTO entry. |
| FormTypes.NameValidator | src/config/objectConfigs.tsx:33-39 | The name validator fails iff the value is falsy or shorter than 3 characters. |
| FormTypes.NumericValidators | src/config/objectConfigs.tsx:115-264 | `requiredTitle` and `streetNumber` fail iff below 1; prices fail iff below 0. |
| FormTypes.SlugValidator | src/config/objectConfigs.tsx:219-223 | The item name passes iff it matches `[a-z0-9-]+`. |
| FormTypes.EmailMatchShape | src/config/objectConfigs.tsx:293-297 | A matching email has no whitespace and exactly one `@`, not at either end. |
| FormTypes.ValidateMessagesNonEmpty | src/config/objectConfigs.tsx:33-39 | A failing validator always yields a non-empty message. |
| ObjectConfigs.DominionFieldKeys | src/config/objectConfigs.tsx:64-109 | The dominion fields are id, name, description, allowEntry, wgRegionId, created and location. |
| ObjectConfigs.TownInheritsDominion | src/config/objectConfigs.tsx:111-129 | Town fields are the dominion fields plus `requiredTitle`. It is required, defaults to 1 and fails iff below 1. Town shares the dominion formatters. |
| ObjectConfigs.DistrictInheritsDominion | src/config/objectConfigs.tsx:131-146 | District fields are the dominion fields plus a `town` reference. |
| ObjectConfigs.StructureInheritsDominion | src/config/objectConfigs.tsx:166-200 | Structure fields are the dominion fields plus its own. Its formatters are the dominion ones plus `streetNumber` → "#"+n. `streetNumber` is optional and fails iff below 1. |
| ObjectConfigs.StreetFields | src/config/objectConfigs.tsx:30-164 | Street has only id, name and district. The shared id is hidden, optional and defaults to -1. |
| ObjectConfigs.TypeTagsAreKeys | src/config/objectConfigs.tsx:202-278 | The registry keys are distinct and every config's `type` equals its key. |
| ObjectConfigs.ReferencesOfInherited | src/config/objectConfigs.tsx:64-200 | Lists the references of each inherited config. |
| ObjectConfigs.ReferencesDescend | src/config/objectConfigs.tsx:64-200 | Every reference points to a strictly lower rank, so the reference graph is acyclic. |
| ObjectConfigs.ItemAndUserValidators | src/config/objectConfigs.tsx:219-297 | Item Name, BasePrice, Price and the user email carry the slug, non-negative and email validators. |
| DynamicFormModel.ValidateFieldCases | knk-web-app/src/components/DynamicForm-Copilot.ts:74-87 | An unknown field gives "". A required falsy value (0, "", false) gives "This field is required". Otherwise the custom message or "". |
| DynamicFormModel.RequiredBeforeCustom | knk-web-app/src/components/DynamicForm-Copilot.ts:78-84 | When the required check fails, the custom validator is not consulted: any replacement validator gives the same result. |
| DynamicFormModel.FormErrorsMeaning | knk-web-app/src/components/DynamicForm-Copilot.ts:103-117 | The error map holds exactly the fields with a non-empty validation message, each with that message. It is empty iff every field validates. |
| DynamicFormModel.ErrorsOfMeaning | knk-web-app/src/components/DynamicForm-Copilot.ts:107-112 | The loop invariant: after n fields, the map holds the failing fields among the first n. |
| DynamicFormModel.HiddenFieldsStillValidated | knk-web-app/src/components/DynamicForm-Copilot.ts:103-139 | A required field hidden by `dependsOn` is still reported as an error. |
| DynamicFormModel.RenderedFields | knk-web-app/src/components/DynamicForm-Copilot.ts:136-139 | Only fields whose dependencies are all truthy are rendered, and every such field with a control is rendered. |
| DynamicFormModel.DefaultsMeaning | knk-web-app/src/components/DynamicForm-Copilot.ts:41-46 | A default is collected exactly for keys with a defined default whose current value is undefined. |
| DynamicFormModel.DefaultFillingMeaning | knk-web-app/src/components/DynamicForm-Copilot.ts:35-47 | After extract-and-merge, a default is written exactly for DTO keys with a configured default whose form value is undefined. |
| DynamicFormModel.CollectDefaults | knk-web-app/src/components/DynamicForm-Copilot.ts:41-46 | The forEach loop collects exactly `Defaults(merged, data)`. |
| DynamicFormModel.FindById | knk-web-app/src/components/DynamicForm-Copilot.ts:150 | `find` returns the first candidate whose id is strictly equal, or nothing iff none is. |
| DynamicFormModel.SelectedByIds | knk-web-app/src/components/DynamicForm-Copilot.ts:169-171 | The multi-select keeps, in candidate order, exactly the candidates whose id is among the chosen ids. Each kept element keeps its multiplicity; the others are gone. |
| DynamicFormModel.DynamicForm.constructor | knk-web-app/src/components/DynamicForm-Copilot.ts:29-33 | The initial state is `initialData` or {}, no errors, not loading, no nested forms. |
| DynamicFormModel.DynamicForm.FillDefaults | knk-web-app/src/components/DynamicForm-Copilot.ts:35-47 | Form data becomes the old data overlaid with the collected defaults. |
| DynamicFormModel.DynamicForm.HandleChange | knk-web-app/src/components/DynamicForm-Copilot.ts:89-93 | Sets `formData[name]` and `errors[name]` to the validation message, and nothing else. |
| DynamicFormModel.DynamicForm.ValidateForm | knk-web-app/src/components/DynamicForm-Copilot.ts:103-117 | Errors become `FormErrors`, and the result is true iff they are empty. |
| DynamicFormModel.DynamicForm.HandleSubmit | knk-web-app/src/components/DynamicForm-Copilot.ts:119-134 | Submits only when the form is valid. Loading is false afterwards even if `onSubmit` throws. |
| DynamicFormModel.DynamicForm.SelectOne | knk-web-app/src/components/DynamicForm-Copilot.ts:148-155 | A truthy id selects the matching candidate (undefined if none); a cleared id sets null. |
| DynamicFormModel.DynamicForm.SelectMany | knk-web-app/src/components/DynamicForm-Copilot.ts:168-172 | The field becomes the candidates with the chosen ids, in candidate order. |
| DynamicFormModel.DynamicForm.OpenNested | knk-web-app/src/components/DynamicForm-Copilot.ts:156-174 | Opens only that field's nested form. |
| DynamicFormModel.DynamicForm.CancelNested | knk-web-app/src/components/DynamicForm-Copilot.ts:333 | Closes only that field's nested form. |
| DynamicFormModel.DynamicForm.HandleNestedSubmit | knk-web-app/src/components/DynamicForm-Copilot.ts:95-101 | Appends the record to the field's candidates, selects it and closes only that flag. With no candidate list (the push throws) nothing changes. |
| KnkObjectView.CollapsibleSection.Toggle | knk-web-app/src/components/ObjectView.tsx:36-41 | Clicking flips `isExpanded`. |
| KnkObjectView.RelatedRows | knk-web-app/src/components/ObjectView.tsx:81-101 | A row exists iff the key is in the entity's fields and passes the display mode, with the field's caption. |
| KnkObjectView.DisplayModesRestrict | knk-web-app/src/components/ObjectView.tsx:83-93 | nameOnly shows only "name" (case-insensitive); idAndName shows only name or id. |
| KnkObjectView.RenderValuePriority | knk-web-app/src/components/ObjectView.tsx:265-308 | Formatter first, then null → "-". The name pill applies to name/Name (before booleans), then Yes/No for booleans. |
| KnkObjectView.NestedDateIsEmptyObject | knk-web-app/src/components/ObjectView.tsx:162-292 | A Date renders as its locale string, but a Date inside an array is classified as an empty object. |
| KnkObjectView.RenderComplexWellCounted | knk-web-app/src/components/ObjectView.tsx:162-263 | Every rendered array, map, set and object section reports its own element count. |
| KnkObjectView.DistrictStreetNames | knk-web-app/src/components/ObjectView.tsx:127-190 | An object whose `StreetNames` is a Map renders as the street list, or "No streets assigned" when it is empty. |
| KnkObjectView.RenderFieldCases | knk-web-app/src/components/ObjectView.tsx:315-353 | A field is skipped iff hidden, mode "none", or an object field with an unregistered type. The View button goes to /view/{type}/{id} unless disabled. |
| KnkObjectView.RenderFields | knk-web-app/src/components/ObjectView.tsx:396 | The views are exactly the rendered fields of `config.fields` that produce a view, in `config.fields` order: none is dropped or added. |
| KnkObjectView.ObjectViewHeading | knk-web-app/src/components/ObjectView.tsx:396-404 | The title is `data.Name` or, failing that, the label; views only for non-hidden fields. |
| KnkObjectView.RegistryResolvesReferences | knk-web-app/src/components/ObjectView.tsx:318-322 | Every reference in the registry resolves, so no object field is skipped for a missing type. |
| SrcObjectView.RenderValueAgreesWithKnk | src/components/ObjectView.tsx:14-47 | The same priority as the knk view except that plain objects print "[object Object]". |
| SrcObjectView.SubRows | src/components/ObjectView.tsx:62-73 | Sub-rows skip "Id", object and array values, and keys absent from the entity's fields. Every other entry is listed. |
| SrcObjectView.AllObjectsNoRows | src/components/ObjectView.tsx:66-68 | An entity whose values are all objects lists nothing. |
| SrcObjectView.ObjectPropertiesNeverListed | src/components/ObjectView.tsx:50-90 | An array value whose elements are all objects, such as a list of records, is rendered as an entity with no rows and a view link to ".../undefined". |
| SrcObjectView.NullSkippedUndefinedDashed | src/components/ObjectView.tsx:136-138 | A plain field with a null or Date value and no formatter is skipped; an undefined one renders "-". |
| SrcObjectView.RenderEntries | src/components/ObjectView.tsx:128-138 | The entries are exactly the rendered configured fields that produce an entry, in `config.fields` order: none is dropped or added. |
| Pickers.FilterByName | src/components/SearchableDropdown.tsx:36-38 | Keeps, in order, exactly the instances whose lower-cased name contains the lower-cased term. Each kept element keeps its multiplicity; the others are gone. The same holds for src/components/MultiSelectDropdown.tsx:34-36. |
| Pickers.EmptyTermKeepsAll | src/components/SearchableDropdown.tsx:36-38 | An empty term keeps every instance. |
| Pickers.FilterIgnoresTermCase | src/components/MultiSelectDropdown.tsx:34-36 | The filter does not depend on the term's case. |
| Pickers.FindInstance | src/components/SearchableDropdown.tsx:40 | The selected instance is the first one with the selected id, or none iff no id matches. |
| Pickers.ArrowsStayInRange | src/components/SearchableDropdown.tsx:61-72 | ArrowDown and ArrowUp keep h in [0, n] and undo each other. |
| Pickers.DownsCycle | src/components/SearchableDropdown.tsx:61-66 | n+1 ArrowDowns return to the start. |
| Pickers.EnterActs | src/components/SearchableDropdown.tsx:73-81 | Enter on a highlight in range always acts, picking a matching instance or Create New. |
| Pickers.SearchableDropdown.KeyDown | src/components/SearchableDropdown.tsx:59-86 | Arrows move the highlight and keep the menu state. Enter acts and closes. Escape closes. |
| Pickers.SearchableDropdown.Search | src/components/SearchableDropdown.tsx:146-149 | Typing sets the term and resets the highlight to 0. |
| Pickers.SearchableDropdown.ClickInstance | src/components/SearchableDropdown.tsx:164-166 | Clicking selects that instance and closes. |
| Pickers.SearchableDropdown.ClickCreateNew | src/components/SearchableDropdown.tsx:183-185 | Create New requests creation and closes. |
| Pickers.SearchableDropdown.Clear | src/components/SearchableDropdown.tsx:118-121 | The clear button selects null. |
| Pickers.SearchableDropdown.Hover | src/components/SearchableDropdown.tsx:168-187 | Hovering sets the highlight. |
| Pickers.SelectedInstances | src/components/MultiSelectDropdown.tsx:38-40 | Exactly the instances whose id is selected, in instance order. Each kept element keeps its multiplicity; the others are gone. |
| Pickers.ToggleProperties | src/components/MultiSelectDropdown.tsx:59-64 | Toggle removes every occurrence of a present id or appends an absent one; toggling an absent id twice restores the list. |
| Pickers.RemoveAll | src/components/MultiSelectDropdown.tsx:61 | Removing keeps, in order, exactly the other ids. Each kept element keeps its multiplicity; the others are gone. |
| Pickers.SelectAllProperties | src/components/MultiSelectDropdown.tsx:67-74 | When all are selected, Select All removes exactly the filtered ids, in order. Otherwise it makes a duplicate-free union with the old ids first. An empty filter changes nothing. |
| Pickers.MultiSelectDropdown.ClickInstance | src/components/MultiSelectDropdown.tsx:163 | A click emits the toggled id list. |
| Pickers.MultiSelectDropdown.RemoveChip | src/components/MultiSelectDropdown.tsx:105-111 | A chip's remove button emits the list without that id. |
| Pickers.MultiSelectDropdown.ClickSelectAll | src/components/MultiSelectDropdown.tsx:66-75 | Emits the Select All list. |
| Pickers.MultiSelectDropdown.ClickCreateNew | src/components/MultiSelectDropdown.tsx:188-191 | Create New requests creation and closes. |
| NavigationMenu.MenuRoutes | src/components/Navigation.tsx:13-18 | There is one entry per registry entry, in order, with route /create/{key}; distinct keys give distinct routes. |
| NavigationMenu.RegistryMenu | src/components/Navigation.tsx:13-18 | The registry gives eight entries, from location to user. |
| NavigationMenu.ArrowsCycle | src/components/Navigation.tsx:34-40 | ArrowDown is (i+1) mod n and takes -1 to 0. ArrowUp stays in range on [0, n) and is its inverse. |
| NavigationMenu.ArrowUpFromNothing | src/components/Navigation.tsx:38-40 | ArrowUp from -1 lands on n-2 (not the last entry) when n ≥ 2. |
| NavigationMenu.Navigation.constructor | src/components/Navigation.tsx:7-18 | It starts closed with selectedIndex -1 and one entry per registry key. |
| NavigationMenu.Navigation.KeyDown | src/components/Navigation.tsx:31-51 | Arrows cycle. Enter navigates and closes only when i ≥ 0. Escape closes. |
| NavigationMenu.Navigation.Hover | src/components/Navigation.tsx:120 | Hovering selects that entry. |
| NavigationMenu.Navigation.ClickEntry | src/components/Navigation.tsx:108-110 | A click navigates to the entry and closes. |
| SlideshowModel.TransitionProperties | src/components/Slideshow.tsx:41-49 | With at most one image nothing changes. Otherwise the index stays in [0, n), and next and previous undo each other. |
| SlideshowModel.PreloadIsNext | src/components/Slideshow.tsx:35-38 | The preloaded image is the next index, only when n > 1. |
| SlideshowModel.Slideshow.Transition | src/components/Slideshow.tsx:41-49 | The index becomes the transitioned index. |
| SlideshowModel.Slideshow.Tick | src/components/Slideshow.tsx:51-64 | An autoplay tick advances only with more than one image and when not paused. |
| SlideshowModel.Slideshow.ClickDot | src/components/Slideshow.tsx:128 | A dot click sets the index to that dot. |
| SlideshowModel.Slideshow.constructor | src/components/Slideshow.tsx:17-20 | It starts at index 0, not paused, with interval 6000 by default. |
| Toasts.NewToast | src/components/ToastProvider.tsx:28-40 | A toast gets id `now`, the message, and position "top", duration 3000 and type "info" by default. |
| Toasts.WithoutId | src/components/ToastProvider.tsx:43-45 | Removal keeps, in order, exactly the toasts with another id. Each kept element keeps its multiplicity; the others are gone. |
| Toasts.WithoutAbsentId | src/components/ToastProvider.tsx:44 | Removing an absent id changes nothing. |
| Toasts.ShowThenClose | src/components/ToastProvider.tsx:34-45 | When no toast in the list has the id `now`, closing the toast just shown with that id restores the list. |
| Toasts.ToastProvider.ShowToast | src/components/ToastProvider.tsx:34-40 | Appends exactly one toast at the end. |
| Toasts.ToastProvider.RemoveToast | src/components/ToastProvider.tsx:43-45 | The list becomes `WithoutId`. |
| Toasts.UseToast | src/components/ToastProvider.tsx:64-69 | Throws iff there is no provider, with the fixed message. |
| UIFieldConfigurations.New | src/utils/domain/dto/UIFieldConfigurationDTO.ts:12-22 | Each of the seven defaulted attributes (`id`, `objectType`, `fieldName`, `label` as caption, `type` as type name, `required`, `readonly`) is the input's value when that is truthy, and otherwise its default: 0, "" or false. `placeholder` and `optionsEndpoint` pass through. |
| UIFieldConfigurations.ToApi | src/utils/domain/dto/UIFieldConfigurationDTO.ts:38-50 | `toApi` has exactly the nine fields. |
| UIFieldConfigurations.RoundTrip | src/utils/domain/dto/UIFieldConfigurationDTO.ts:24-50 | `fromApi(d.toApi()) == d` for every normalised d, and `fromApi` is the constructor. |
| UIFieldConfigurations.NewIdempotent | src/utils/domain/dto/UIFieldConfigurationDTO.ts:12-22 | Constructing from a constructed DTO changes nothing. |
| UIFieldConfigurations.ApiLookups | src/utils/domain/dto/UIFieldConfigurationDTO.ts:38-50 | Reading the nine fields back from `toApi` gives the DTO. |
| UIFieldConfigurations.ReplacedProperties | src/pages/UIFieldConfigurationsPage.tsx:20-22 | An update keeps the length, puts the record at every matching position and keeps the others, and is idempotent. With no match it is the identity. |
| UIFieldConfigurations.Replaced | src/pages/UIFieldConfigurationsPage.tsx:22 | An update keeps the length; each entry whose id is strictly equal to the record's becomes the record, and every other entry stays at its position. |
| UIFieldConfigurations.WithoutId | src/pages/UIFieldConfigurationsPage.tsx:28-31 | Delete keeps, in order, exactly the entries with another id. Each kept element keeps its multiplicity; the others are gone. |
| UIFieldConfigurations.DeleteAfterUpdate | src/pages/UIFieldConfigurationsPage.tsx:20-31 | Deleting an id after updating it equals deleting it. |
| UIFieldConfigurations.DeleteAbsent | src/pages/UIFieldConfigurationsPage.tsx:30 | Deleting an absent id changes nothing. |
| UIFieldConfigurations.EditChangesOneAttribute | src/pages/UIFieldConfigurationsPage.tsx:44-50 | Typing into an input changes only that attribute. |
| UIFieldConfigurations.UIFieldConfigurationsPage.HandleSave | src/pages/UIFieldConfigurationsPage.tsx:15-25 | With nothing edited, nothing changes. Id 0 appends; any other id replaces. Editing ends. |
| UIFieldConfigurations.UIFieldConfigurationsPage.AddNew | src/pages/UIFieldConfigurationsPage.tsx:36 | "Add New" edits a DTO with id 0, so its save takes the create path. |
| UIFieldConfigurations.UIFieldConfigurationsPage.HandleDelete | src/pages/UIFieldConfigurationsPage.tsx:28-31 | Removes every entry with the id. |
| UIFieldConfigurations.UIFieldConfigurationsPage.TypeObjectType | src/pages/UIFieldConfigurationsPage.tsx:44 | Rebuilds the edited DTO with the new object type, or stays null. |
| UIFieldConfigurations.UIFieldConfigurationsPage.TypeFieldName | src/pages/UIFieldConfigurationsPage.tsx:50 | Rebuilds the edited DTO with the new field name, or stays null. |
| ImageUpload.ValidationOrder | knk-web-app/src/components/ImageUploadModal.tsx:16-64 | The type is checked first, then size > 5 MiB (exactly 5 MiB passes). An image is rejected iff it is under 1920×1080, and valid iff all three pass. |
| ImageUpload.ImageUploadModal.HandleFileChange | knk-web-app/src/components/ImageUploadModal.tsx:67-81 | A valid file sets file and preview. An invalid one clears both and shows its message. |
| ImageUpload.ImageUploadModal.HandleSubmit | knk-web-app/src/components/ImageUploadModal.tsx:84-101 | Without a file nothing happens. Success closes; failure sets the message and stays open. Loading ends false. |
| ImageUpload.ImageUploadModal.SubmitForm | knk-web-app/src/components/ImageUploadModal.tsx:117-223 | The submit button: while the required title, photographer or description is empty nothing happens, so every submission sent has all three non-empty. Otherwise it is `handleSubmit`. |
| Logging.LevelToInt | src/utils/logging/index.ts:8-28 | trace..error map to 1..5 case-insensitively, and anything else to 99. |
| Logging.LevelOrder | src/utils/logging/index.ts:8-28 | The levels are strictly increasing, and case does not matter. |
| Logging.CallerIndex | src/utils/logging/index.ts:41-44 | The stack scan skips exactly the leading logger frames. |
| Logging.IndexOf | src/utils/logging/index.ts:46 | `indexOf` is the first occurrence, or -1 iff absent. |
| Logging.ConsoleLine | src/utils/logging/index.ts:102-122 | An entry goes to `console.log` iff its level is not one of the five exact lower-case names. |
| Logging.UppercaseLevelPrintsAsLog | src/utils/logging/index.ts:22-121 | "INFO" has level 3 but prints through `console.log`. |
| Logging.Echoes | src/utils/logging/index.ts:50-123 | One emission prints once per registered console listener. |
| Logging.ScanMeaning | src/utils/logging/index.ts:78-89 | The lookup picks the longest key that is a prefix of the module (the later one on ties), or "none". |
| Logging.DefaultIsInfo | src/utils/logging/index.ts:61-65 | With the default options every module resolves to "info". |
| Logging.LogManager.MinLevelFor | src/utils/logging/index.ts:79-87 | The loop computes the longest-prefix choice. |
| Logging.LogManager.Configure | src/utils/logging/index.ts:69-72 | A supplied `minLevels` replaces the old one wholesale. |
| Logging.LogManager.GetLogger | src/utils/logging/index.ts:78-90 | Returns a new logger for the module, with the minimum level fixed at 1. |
| Logging.LogManager.RegisterConsoleLogger | src/utils/logging/index.ts:97-127 | Registration is idempotent: exactly one console listener afterwards. |
| Logging.LogManager.OnLogEntry | src/utils/logging/index.ts:92-95 | Appends one listener. |
| Logging.Logger.constructor | src/utils/logging/index.ts:16-20 | The `minLevel` argument is ignored and fixed at 1. |
| Logging.Logger.Log | src/utils/logging/index.ts:30-51 | Never suppresses. It emits the level as passed, the module, the caller location and the message. |
| Logging.Logger.Trace | src/utils/logging/index.ts:53 | Delegates with "trace". |
| Logging.Logger.Debug | src/utils/logging/index.ts:54 | Delegates with "debug". |
| Logging.Logger.Info | src/utils/logging/index.ts:55 | Delegates with "info". |
| Logging.Logger.Warn | src/utils/logging/index.ts:56 | Delegates with "warn". |
| Logging.Logger.Error | src/utils/logging/index.ts:57 | Delegates with "error". |
| CreateMappers.NewLocationCreateDTO | src/utils/domain/dto/location/LocationCreateDTO.ts:11-13 | A new location create DTO has `Name` "Location". |
| CreateMappers.TablesInjective | src/utils/domain/dto/location/LocationCreateDTO.ts:15-37 | The rename tables and their inverses are injective. |
| CreateMappers.RenameRoundTrip | src/utils/domain/dto/location/LocationCreateDTO.ts:15-37 | Renaming then renaming back returns every renamed field. |
| CreateMappers.LocationRoundTrip | src/utils/domain/dto/location/LocationCreateDTO.ts:15-37 | Both directions rename the seven keys. Form → DTO → form and DTO → form → DTO are the identity on them. |
| CreateMappers.DominionToFieldsShape | src/utils/domain/dto/dominion/DominionCreateDTO.ts:14-25 | The scalars are renamed and `LocationId` is `location.id`. `LocationCreateDTO` is present iff `location.id < 0`, and then it is the mapped location. There are exactly eight keys. The same holds for src/utils/domain/dto/DominionCreateDTO.ts:14-25. |
| CreateMappers.DominionToFormShape | src/utils/domain/dto/dominion/DominionCreateDTO.ts:27-37 | The reverse restores the scalars. The location comes from the nested DTO when present, else {id: LocationId}. |
| CreateMappers.DominionRoundTrip | src/utils/domain/dto/dominion/DominionCreateDTO.ts:14-37 | Round trip: the scalars survive. A location with id < 0 survives on all seven keys; one with id ≥ 0 comes back as {id}. |
| CreateMappers.TownToFieldsShape | src/utils/domain/dto/TownCreateDTO.ts:7-18 | The town DTO is the dominion DTO plus `RequiredTitle`, with no other key. |
| CreateMappers.TownToFormShape | src/utils/domain/dto/district/DistrictCreateDTO.ts:30 | The reverse town mapping is the dominion form plus `requiredTitle`. |
| CreateMappers.DistrictToFieldsShape | src/utils/domain/dto/district/DistrictCreateDTO.ts:9-21 | The dominion fields are kept and `TownId` is `town.id`. `Town` is truthy iff `town.id < 0`, and then it is the mapped town. The same holds for src/utils/domain/dto/DistrictCreateDTO.ts:9-21. |
| CreateMappers.DistrictToFormShape | src/utils/domain/dto/district/DistrictCreateDTO.ts:23-32 | The reverse keeps the dominion form; the town is the nested mapping when truthy, else {id: TownId}. |
| CreateMappers.DistrictRoundTrip | src/utils/domain/dto/district/DistrictCreateDTO.ts:9-32 | The scalars survive. A town with id ≥ 0 comes back as {id}; a new town keeps its scalars and required title. |
| CreateMappers.StreetToFieldsShape | src/utils/domain/dto/street/StreetCreateDTO.ts:10-17 | Exactly Id, Name, DistrictId and District. `District` is truthy iff `district.id < 0`, and then it is the mapped district. The same holds for src/utils/domain/dto/StreetCreateDTO.ts:10-17. |
| CreateMappers.StreetRoundTrip | src/utils/domain/dto/street/StreetCreateDTO.ts:10-25 | Round trip preserves id, name and district.id. |
| CreateMappers.DistrictIdRoundTrip | src/utils/domain/dto/district/DistrictCreateDTO.ts:9-32 | A district's id survives its round trip. |
| CreateMappers.StructureToFieldsShape | knk-web-app/src/utils/domain/dto/structure/StructureCreateDTO.ts:13-28 | The dominion fields are kept. StreetId, DistrictId and StreetNumber are copied, and `Street`/`District` are nested iff their id < 0. The same holds for src/utils/domain/dto/StructureCreateDTO.ts:13-28. |
| CreateMappers.StructureRoundTrip | knk-web-app/src/utils/domain/dto/structure/StructureCreateDTO.ts:13-41 | Round trip preserves street.id, district.id and streetNumber. |
| ViewMappers.LocationViewShape | src/utils/domain/dto/location/LocationViewDTO.ts:11-21 | Exactly seven keys, each copied from its PascalCase source with no swap (Pitch → pitch, Yaw → yaw). A nullish input throws. |
| ViewMappers.DominionRecordShape | src/utils/domain/dto/dominion/DominionViewDTO.ts:16-25 | The dominion view record has exactly the seven keys, with the scalars renamed. |
| ViewMappers.DominionViewNestedCases | src/utils/domain/dto/dominion/DominionViewDTO.ts:14-26 | A falsy input gives null and a missing `Location` throws. `created` is a Date iff `Created` is truthy, else null. `location` is always mapped. |
| ViewMappers.DominionViewKnkCases | knk-web-app/src/utils/domain/dto/dominion/DominionViewDTO.ts:14-26 | The result is null iff the input is falsy. `location` is null iff `Location` is falsy. `created` is as in the nested view. |
| ViewMappers.DominionViewFlatCases | src/utils/domain/dto/DominionViewDTO.ts:14-24 | It throws iff the input or `Location` is nullish. `created` is copied unchanged and `location` is always mapped. |
| ViewMappers.TownOverShape | src/utils/domain/dto/town/TownViewDTO.ts:7-16 | Every dominion key is kept and `RequiredTitle` is appended under its PascalCase key. A nullish input throws. |
| ViewMappers.TownViewKeys | src/utils/domain/dto/town/TownViewDTO.ts:7-16 | A town with a location has the dominion keys plus `RequiredTitle`. |
| ViewMappers.TownViewsDiffer | src/utils/domain/dto/town/TownViewDTO.ts:7-16 | Over the nested dominion view, `0` maps to `{RequiredTitle: undefined}`; over the flat dominion view the same body throws on it. |
| ViewMappers.OverviewViewShape | src/utils/domain/dto/structure/StructureOverviewDTO.ts:20-32 | Exactly nine keys, each copied from its source with no defaulting. |
| ViewMappers.ItemViewShape | src/utils/domain/dto/item/ItemDTO.ts:15-29 | Exactly eleven keys, including `itemtypeId`/`itemtypeName` with the lower-case t. |
| ViewMappers.StorageViewShape | src/utils/domain/dto/item/StorageViewConciseDTO.ts:17-33 | The ten renamed fields. `contents` is null when `Contents` is falsy, else `Contents` mapped element-wise with the same length and order. |
| ViewMappers.FilterTruthy | knk-web-app/src/utils/domain/dto/district/DistrictViewDTO.ts:19 | `filter(Boolean)` keeps, in order, exactly the truthy elements. Each kept element keeps its multiplicity; the others are gone. |
| ViewMappers.Collect | src/utils/domain/dto/DistrictViewDTO.ts:13 | `map` succeeds iff every element does, giving the same length and order. |
| DistrictStreetViews.StreetNamesCases | knk-web-app/src/utils/domain/dto/district/DistrictViewDTO.ts:22-29 | An absent `StreetNames` gives an empty Map, a Map passes through unchanged, and a non-object gives an empty Map. |
| DistrictStreetViews.StreetNamesOfObject | knk-web-app/src/utils/domain/dto/district/DistrictViewDTO.ts:26-27 | A plain object becomes a Map from `Number(key)` to `String(value)`, holding exactly those keys. |
| DistrictStreetViews.StreetNamesOfArray | knk-web-app/src/utils/domain/dto/district/DistrictViewDTO.ts:26-27 | An array becomes a Map from each index to its stringified element. |
| DistrictStreetViews.KnkTownOf | knk-web-app/src/utils/domain/dto/district/DistrictViewDTO.ts:17 | `town` is null iff `Town` is falsy. |
| DistrictStreetViews.KnkDistrictShape | knk-web-app/src/utils/domain/dto/district/DistrictViewDTO.ts:11-37 | A falsy input gives null. Otherwise the result is the dominion keys plus town, streets (falsy dropped) and streetNames. It throws iff its streets do. |
| DistrictStreetViews.DistrictRecordShape | knk-web-app/src/utils/domain/dto/district/DistrictViewDTO.ts:31-36 | The spread record appends town, streets and streetNames and keeps the dominion values. |
| DistrictStreetViews.KnkStreets | knk-web-app/src/utils/domain/dto/district/DistrictViewDTO.ts:18-20 | The streets are an array whenever they do not throw. |
| DistrictStreetViews.KnkStreetsMeaning | knk-web-app/src/utils/domain/dto/district/DistrictViewDTO.ts:18-20 | A non-array `Streets` gives []. An array is mapped element by element, in order, and throws iff an element does. |
| DistrictStreetViews.KnkStreetShape | knk-web-app/src/utils/domain/dto/street/StreetViewDTO.ts:9-20 | A falsy input gives null. Otherwise exactly id, name and districts, with `Id \|\| id` and `Name \|\| name`. Falsy districts are dropped. |
| DistrictStreetViews.StreetRecordShape | knk-web-app/src/utils/domain/dto/street/StreetViewDTO.ts:15-19 | A street record has three keys, and a falsy PascalCase value falls back to the lower-case one. |
| DistrictStreetViews.KnkDistricts | knk-web-app/src/utils/domain/dto/street/StreetViewDTO.ts:12-13 | The districts are an array whenever they do not throw. |
| DistrictStreetViews.KnkDistrictsMeaning | knk-web-app/src/utils/domain/dto/street/StreetViewDTO.ts:12-13 | The source is `Districts \|\| districts \|\| []`. A non-array throws; an array is mapped element by element, in order. |
| DistrictStreetViews.KnkDistrictThrows | knk-web-app/src/utils/domain/dto/district/DistrictViewDTO.ts:18-20 | The mutually recursive knk district view throws exactly when a street below it has a truthy non-array district list. |
| DistrictStreetViews.KnkStreetThrows | knk-web-app/src/utils/domain/dto/street/StreetViewDTO.ts:12-13 | The same characterisation from the street side. |
| DistrictStreetViews.FlatDistrictShape | src/utils/domain/dto/DistrictViewDTO.ts:10-20 | The dominion fields are kept, then `Town` is the mapped `data.town` and `Streets` the mapped `data.streets`. A null town throws. |
| DistrictStreetViews.FlatDistrictRecordShape | src/utils/domain/dto/DistrictViewDTO.ts:15-19 | The spread record appends Town and Streets and keeps the dominion values. |
| DistrictStreetViews.FlatStreets | src/utils/domain/dto/DistrictViewDTO.ts:13 | The streets are an array whenever they do not throw. |
| DistrictStreetViews.FlatStreetsMeaning | src/utils/domain/dto/DistrictViewDTO.ts:13-18 | `Streets` is `data.streets` mapped element by element: same length and order, nothing dropped. A non-array throws. |
| DistrictStreetViews.FlatStreetShape | src/utils/domain/dto/StreetViewDTO.ts:9-20 | A falsy input gives null. Otherwise exactly Id, Name and Districts, with the same fallbacks. Falsy districts are dropped; a non-array source throws. |
| DistrictStreetViews.FlatDistricts | src/utils/domain/dto/StreetViewDTO.ts:12-13 | The districts are an array whenever they do not throw. |
| DistrictStreetViews.BuildDistrictsMap | src/utils/domain/dto/structure/StructureViewDTO.ts:12-15 | The forEach/set loop builds exactly `DistrictsMap(ds)`. |
| DistrictStreetViews.StreetDistrictsMeaning | src/utils/domain/dto/structure/StructureViewDTO.ts:12-15 | The Map has exactly the district ids as keys, and each id maps to the name of its last occurrence. |
| DistrictStreetViews.MapFromLast | src/utils/domain/dto/structure/StructureViewDTO.ts:14 | Later `set`s on a duplicate key overwrite earlier ones. |
| DistrictStreetViews.MapSetGet | src/utils/domain/dto/structure/StructureViewDTO.ts:14 | After `set(k, v)`, `get(k)` is v and other keys are unchanged. |
| DistrictStreetViews.MapSetKeys | src/utils/domain/dto/structure/StructureViewDTO.ts:14 | `set` adds its key once and keeps the keys distinct. |
| DistrictStreetViews.StreetFieldDataToForm | src/utils/domain/dto/structure/StructureViewDTO.ts:11-22 | The street mapper's forEach/set loop computes `StructureStreetView` for the nested key set (`Districts`, `Id`, `Name`) and for the flat one of src/utils/domain/dto/StructureViewDTO.ts:10-21 (`districts`, `id`, `name`). |
| DistrictStreetViews.StructureStreetShape | src/utils/domain/dto/structure/StructureViewDTO.ts:11-22 | Exactly id, name and the districts Map; an absent `Districts` gives an empty Map. For the flat mapper in src/utils/domain/dto/StructureViewDTO.ts:10-21 the keys are Id, Name and Districts, read from `id`, `name` and `districts`. |
| DistrictStreetViews.StructureViewShape | src/utils/domain/dto/structure/StructureViewDTO.ts:31-43 | It throws iff the record is nullish or the dominion view, the street mapper on a truthy `Street` or the district view on a truthy `District` throws. The dominion form is kept. `street` and `district` are null iff falsy and otherwise hold the street mapper's and the district view's results. `streetNumber` is copied and `storages` passed through. |
| DistrictStreetViews.FlatStructureViewShape | src/utils/domain/dto/StructureViewDTO.ts:29-40 | A null input throws. It throws iff the flat dominion view, the street mapper on a truthy `street` or the flat district view on a truthy `district` throws. The dominion part comes from the flat dominion view. `Street` and `District` are null iff falsy and otherwise hold the mappers' results, and `StreetNumber` is copied. |

## Left out

- HTTP clients, fetch flows, timers and focus handling, page composition, DOM geometry and JSX markup are not modelled. The one exception is the `required` attribute of the image upload's text inputs, which ImageUpload.ImageUploadModal.SubmitForm models.
- The relationship-loading effect of the dynamic form: the candidate lists are a given input (`candidates`).
- The slideshow's interval timer is a `Tick` method; image preloading is reduced to the preload index.
- Locale-dependent library calls (`localeCompare`, `toLocaleDateString`, `toLocaleString`, `new Date`, price `toFixed(2)`) are functions in a `Locale` parameter, not modelled.
- `Date.now()` and object URLs are parameters (`now`, `url`).
- The user's `onSubmit` and upload calls are reduced to whether they throw (`onSubmitThrows`, `rejected`).
- Numbers are unbounded integers. Floating point, `NaN` arithmetic and `Infinity` are not modelled beyond a `NaN` value.
- Case mapping is ASCII only.
- FormTypes.NameValidator: a string is a sequence of characters, while JavaScript's `length` counts UTF-16 code units. A character outside the Basic Multilingual Plane counts once in the model and twice in the source, so "a😀" passes the source's check and fails the model's.
- The `console.log` calls in the dynamic form's `handleNestedSubmit` and `handleSubmit` and in the knk data table's `handleView`, `handleEdit` and `handleDelete` only print; they are not modelled.
- Objects are lists of own properties: prototype keys (`constructor`, `toString`) are not visible.
- Object identity is structural: two equal records are the same object.
- `Object.entries` lists keys in insertion order. The JavaScript rule that puts integer-like keys first is not modelled.
- A `forEach` over a value whose own `forEach` property is not the built-in one is not modelled.
- Any such non-array value throws in the model.
- A `map` on a non-array, or a property read on null or undefined, is a TypeError in the source and the `Threw` result in the model.
- CreateMappers.LocationToFields, CreateMappers.DominionToFields, CreateMappers.DistrictToFields, CreateMappers.StreetToFields and CreateMappers.StructureToFields require their references (`location`, `town`, `district`, `street`) to be non-null. The source reads their `id` and throws on null; the forms always set them.
- CreateMappers.StructureToFields and CreateMappers.StructureToForm: the knk-web-app copies of the district, dominion and street create files, which knk-web-app/src/utils/domain/dto/structure/StructureCreateDTO.ts:1-3 imports, are not part of this model. They are assumed to match the src/utils/domain/dto versions the model uses.
- CreateMappers.TownToForm: the nested `town/TownCreateDTO` file is not part of this model, and its reverse mapping is assumed to be the dominion form plus `requiredTitle`.
- The flat `LocationCreateDTO` and `TownViewDTO`, the nested `town/TownCreateDTO`, the knk location and town views, and the nested `district/DistrictViewDTO` are not part of this model:
  - the create side uses the nested location mapper and the flat town mapper of src/utils/domain/dto/TownCreateDTO.ts;
  - the flat town view, ViewMappers.FlatTownView, is the body of src/utils/domain/dto/town/TownViewDTO.ts over the flat dominion view, `TownOver(DominionViewFlat(data), data)`. It differs from the nested ViewMappers.TownView, as ViewMappers.TownViewsDiffer states: on `0` it throws where the nested one gives `{RequiredTitle: undefined}`, and it copies `created` unchanged rather than converting it to a Date;
  - the district view used by the structure views is the knk district view.
- ViewMappers.DominionViewKnk: the knk location view is not part of this model, so it maps `Location` with CreateMappers.LocationToForm, the create-side reverse mapper, which never throws. ViewMappers.DominionViewKnkCases rests on this choice.
- ViewMappers.KnkTownView: the knk town view is not part of this model. It stands in as `TownOver(Ok(DominionViewKnk(data, loc)), data)`: the body of src/utils/domain/dto/town/TownViewDTO.ts over the knk dominion view. DistrictStreetViews.KnkTownOf rests on this choice.
- ViewMappers.DominionViewFlat: the flat `./LocationViewDTO` that src/utils/domain/dto/DominionViewDTO.ts:2 imports is not part of this model, so it maps `Location` with the nested ViewMappers.LocationView. The "throws iff `Location` is nullish" of ViewMappers.DominionViewFlatCases rests on this choice.
- SrcObjectView.ObjectPropertiesNeverListed: states only the case of an array whose elements are all objects. An array with primitive elements is listed through its index keys, as SrcObjectView.SubRows states for any entries, but no lemma spells out that case.
- ViewMappers.StorageView: `StorageItemDTO.ts` exports no `mapFieldDataToForm`, so the element mapper is a parameter. As written, the source either fails at the import or calls `Contents.map(undefined)`, which throws for every truthy `Contents`, even `[]`; the model does not capture that failure.
- The stack text of a log entry is a parameter (`stack`). Its frames are scanned as in the source, but the JavaScript stack format itself is not modelled.
- Logging.LogManager.Emit: the EventEmitter and rxjs Subjects become a list of emitted entries and a list of console calls. The four handler Subjects are not modelled.
- DynamicFormModel.DynamicForm.FillDefaults and DynamicFormModel.DefaultFillingMeaning take an arbitrary `dto` in place of `new StructureCreateDTO()`. The form's mount effect builds that DTO whatever the configuration (knk-web-app/src/components/DynamicForm-Copilot.ts:37), but `StructureCreateDTO` is an interface (knk-web-app/src/utils/domain/dto/structure/StructureCreateDTO.ts:5), so as written the effect cannot construct it.
- TableEngine.SortedData: for a comparator that is not consistent in sign (two nullish cells, see TableEngine.NullPairInconsistent, or cells of mixed types) the order `Array.prototype.sort` produces is engine-defined; the model gives the order of its insertion sort, and promises only a permutation then.
- TableEngine.SortCopy: the same holds of the copy-then-sort. Under a comparator that is not antisymmetric, the engine's order is replaced by insertion order.
- TableEngine.FragmentsWellSplit: states only the shape of each fragment. Where the cuts fall is stated by TableEngine.SplitKeyProperties and TableEngine.FragmentsArePieces.
- JsValues.StrToNumber: `Number(s)` reads decimal integers only. Surrounding white space, hexadecimal, binary and octal prefixes, fractions and exponents are not modelled.
- JsValues.SpreadOf: spreading an array or a string gives no index keys in the model. The source spreads only records, `null` and `undefined`.
- KnkObjectView.ObjectViewHeading: a truthy non-string `Name` is turned into text by `ToStr`. JSX renders `true` as nothing and throws on a plain object; neither is modelled.
- `objectConfigs-deprecated.ts`, `testData.ts` and the type-only files are not modelled.

