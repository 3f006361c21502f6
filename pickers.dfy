/** The two pickers the forms use for references:
    src/components/SearchableDropdown.tsx (one instance, keyboard
    highlight with a trailing "Create New" slot) and
    src/components/MultiSelectDropdown.tsx (several instances, toggles and
    Select All). Both filter their instances by a case-insensitive
    substring of the name. The callbacks `onSelect` and `onCreateNew` are
    returned as a `Choice`. */
module Pickers {
  import opened Text
  import opened JsValues
  import opened Seqs

  datatype Instance<I> = Instance(id: I, name: string)

  // ----- the shared filter -----

  predicate NameMatches<I>(x: Instance<I>, term: string) {
    Contains(Lower(x.name), Lower(term))
  }

  /** `instances.filter(i => i.name.toLowerCase().includes(term.toLowerCase()))` */
  function FilterByName<I(==,!new)>(xs: seq<Instance<I>>, term: string): (r: seq<Instance<I>>)
    ensures IsSubsequence(r, xs)
    ensures forall x :: x in r <==> x in xs && NameMatches(x, term)
    ensures forall x :: multiset(r)[x] == if NameMatches(x, term) then multiset(xs)[x] else 0
    decreases |xs|
  {
    if |xs| == 0 then []
    else
      assert xs == [xs[0]] + xs[1..];
      if NameMatches(xs[0], term) then [xs[0]] + FilterByName(xs[1..], term)
      else FilterByName(xs[1..], term)
  }

  /** An empty search keeps every instance, in order. */
  lemma {:induction false} EmptyTermKeepsAll<I(!new)>(xs: seq<Instance<I>>)
    ensures FilterByName(xs, "") == xs
    decreases |xs|
  {
    if |xs| > 0 {
      assert StartsWith(Lower(xs[0].name), Lower(""));
      EmptyTermKeepsAll(xs[1..]);
    }
  }

  /** The letter case of the search term does not matter. */
  lemma {:induction false} FilterIgnoresTermCase<I(!new)>(xs: seq<Instance<I>>, term: string)
    ensures FilterByName(xs, Lower(term)) == FilterByName(xs, term)
    decreases |xs|
  {
    LowerIdempotent(term);
    if |xs| > 0 {
      FilterIgnoresTermCase(xs[1..], term);
    }
  }

  // ----- SearchableDropdown -----

  /** `instances.find(i => i.id == selectedId)`; nothing when no id is selected. */
  function FindInstance<I(==,!new)>(xs: seq<Instance<I>>, id: Option<I>): (r: Option<Instance<I>>)
    ensures r.Some? ==> id.Some? && r.value in xs && r.value.id == id.value
    ensures r.None? <==> id.None? || forall i :: 0 <= i < |xs| ==> xs[i].id != id.value
    ensures r.Some? ==> exists i :: 0 <= i < |xs| && xs[i] == r.value && forall j :: 0 <= j < i ==> xs[j].id != id.value
    decreases |xs|
  {
    if id.None? || |xs| == 0 then None
    else if xs[0].id == id.value then Some(xs[0])
    else
      var r := FindInstance(xs[1..], id);
      assert forall j :: 1 <= j < |xs| ==> xs[j] == xs[1..][j - 1];
      if r.Some? then
        var i :| 0 <= i < |xs[1..]| && xs[1..][i] == r.value && forall j :: 0 <= j < i ==> xs[1..][j].id != id.value;
        assert xs[i + 1] == r.value;
        r
      else r
  }

  /** ArrowDown over the `n` instances and the "Create New" slot `n`. */
  function NextDown(h: int, n: nat): int {
    if h < n then h + 1 else 0
  }

  /** ArrowUp: from the top it wraps to "Create New". */
  function NextUp(h: int, n: nat): int {
    if h > 0 then h - 1 else n
  }

  /** The highlight stays on an instance or on "Create New", and each
      arrow undoes the other. */
  lemma ArrowsStayInRange(h: int, n: nat)
    requires 0 <= h <= n
    ensures 0 <= NextDown(h, n) <= n && 0 <= NextUp(h, n) <= n
    ensures NextUp(NextDown(h, n), n) == h
    ensures NextDown(NextUp(h, n), n) == h
  {
  }

  /** `k` presses of ArrowDown. */
  function Downs(h: int, n: nat, k: nat): int
    decreases k
  {
    if k == 0 then h else NextDown(Downs(h, n, k - 1), n)
  }

  /** Below "Create New", each ArrowDown moves one row down. */
  lemma {:induction false} DownsWalk(h: int, n: nat, k: nat)
    requires 0 <= h && h + k <= n
    ensures Downs(h, n, k) == h + k
    decreases k
  {
    if k > 0 {
      DownsWalk(h, n, k - 1);
    }
  }

  lemma {:induction false} DownsAdd(h: int, n: nat, a: nat, b: nat)
    ensures Downs(h, n, a + b) == Downs(Downs(h, n, a), n, b)
    decreases b
  {
    if b > 0 {
      DownsAdd(h, n, a, b - 1);
    }
  }

  /** ArrowDown walks the `n + 1` slots cyclically: `n + 1` presses come
      back to the starting row. */
  lemma DownsCycle(h: int, n: nat)
    requires 0 <= h <= n
    ensures Downs(h, n, n + 1) == h
  {
    DownsAdd(h, n, n - h, h + 1);
    DownsWalk(h, n, n - h);
    DownsAdd(n, n, 1, h);
    DownsWalk(0, n, h);
  }

  datatype Key = ArrowDown | ArrowUp | Enter | Escape | OtherKey

  /** The callbacks a dropdown event fires. */
  datatype Choice<I> = NoChoice | Picked(id: I) | Cleared | CreateRequested

  /** Enter: "Create New" on slot `n`, the highlighted instance otherwise. */
  function EnterChoice(filtered: seq<Instance<int>>, h: int): Choice<int> {
    if h == |filtered| then CreateRequested
    else if 0 <= h < |filtered| then Picked(filtered[h].id)
    else NoChoice
  }

  /** Enter on a highlight in range always acts, and picks an instance that
      matches the search. */
  lemma EnterActs(instances: seq<Instance<int>>, term: string, h: int)
    requires 0 <= h <= |FilterByName(instances, term)|
    ensures EnterChoice(FilterByName(instances, term), h) != NoChoice
    ensures EnterChoice(FilterByName(instances, term), h).Picked? ==>
      exists x :: x in instances && NameMatches(x, term) && x.id == EnterChoice(FilterByName(instances, term), h).id
  {
    var f := FilterByName(instances, term);
    if h < |f| {
      assert f[h] in f;
    }
  }

  class SearchableDropdown {
    const instances: seq<Instance<int>>
    const selectedId: Option<int>
    var isOpen: bool
    var searchTerm: string
    var highlightedIndex: int

    function Filtered(): seq<Instance<int>>
      reads this
    {
      FilterByName(instances, searchTerm)
    }

    /** The instance shown on the button. */
    function Selected(): Option<Instance<int>> {
      FindInstance(instances, selectedId)
    }

    /** The highlight is on a filtered instance or on "Create New". */
    ghost predicate Valid()
      reads this
    {
      0 <= highlightedIndex <= |Filtered()|
    }

    constructor (instances: seq<Instance<int>>, selectedId: Option<int>)
      ensures this.instances == instances && this.selectedId == selectedId
      ensures !isOpen && searchTerm == "" && highlightedIndex == 0
      ensures Valid() && Filtered() == instances
    {
      this.instances := instances;
      this.selectedId := selectedId;
      isOpen := false;
      searchTerm := "";
      highlightedIndex := 0;
      new;
      EmptyTermKeepsAll(instances);
    }

    /** A click on the button. */
    method ToggleOpen()
      modifies this`isOpen
      ensures isOpen == !old(isOpen)
    {
      isOpen := !isOpen;
    }

    /** `handleKeyDown(e)` */
    method KeyDown(key: Key) returns (choice: Choice<int>)
      requires Valid()
      modifies this`isOpen, this`highlightedIndex
      ensures Valid()
      ensures key == ArrowDown ==>
        highlightedIndex == NextDown(old(highlightedIndex), |Filtered()|) && isOpen == old(isOpen) && choice == NoChoice
      ensures key == ArrowUp ==>
        highlightedIndex == NextUp(old(highlightedIndex), |Filtered()|) && isOpen == old(isOpen) && choice == NoChoice
      ensures key == Enter ==>
        highlightedIndex == old(highlightedIndex) && !isOpen
        && choice == EnterChoice(Filtered(), highlightedIndex) && choice != NoChoice
      ensures key == Escape ==> highlightedIndex == old(highlightedIndex) && !isOpen && choice == NoChoice
      ensures key == OtherKey ==> highlightedIndex == old(highlightedIndex) && isOpen == old(isOpen) && choice == NoChoice
    {
      var n := |Filtered()|;
      ArrowsStayInRange(highlightedIndex, n);
      EnterActs(instances, searchTerm, highlightedIndex);
      choice := NoChoice;
      match key
      case ArrowDown => highlightedIndex := NextDown(highlightedIndex, n);
      case ArrowUp => highlightedIndex := NextUp(highlightedIndex, n);
      case Enter =>
        choice := EnterChoice(Filtered(), highlightedIndex);
        isOpen := false;
      case Escape => isOpen := false;
      case OtherKey =>
    }

    /** Typing in the search box moves the highlight back to the top. */
    method Search(term: string)
      modifies this`searchTerm, this`highlightedIndex
      ensures searchTerm == term && highlightedIndex == 0 && Valid()
    {
      searchTerm := term;
      highlightedIndex := 0;
    }

    /** The mouse over row `index` (`|Filtered()|` is "Create New"). */
    method Hover(index: nat)
      requires index <= |Filtered()|
      modifies this`highlightedIndex
      ensures highlightedIndex == index && Valid()
    {
      highlightedIndex := index;
    }

    /** A click on a listed instance selects it and closes the list. */
    method ClickInstance(index: nat) returns (choice: Choice<int>)
      requires index < |Filtered()|
      modifies this`isOpen
      ensures choice == Picked(Filtered()[index].id) && !isOpen
    {
      choice := Picked(Filtered()[index].id);
      isOpen := false;
    }

    /** A click on "Create New". */
    method ClickCreateNew() returns (choice: Choice<int>)
      modifies this`isOpen
      ensures choice == CreateRequested && !isOpen
    {
      choice := CreateRequested;
      isOpen := false;
    }

    /** The clear button of the selected instance: `onSelect(null)`, the
        list stays as it is. */
    method Clear() returns (choice: Choice<int>)
      requires Selected().Some?
      ensures choice == Cleared
    {
      choice := Cleared;
    }

    /** A mouse press outside the component. */
    method ClickOutside()
      modifies this`isOpen
      ensures !isOpen
    {
      isOpen := false;
    }
  }

  // ----- MultiSelectDropdown -----

  predicate NoDuplicates<T(==,!new)>(s: seq<T>) {
    forall i, j :: 0 <= i < j < |s| ==> s[i] != s[j]
  }

  /** `xs.filter(y => y !== x)` */
  function RemoveAll<T(==,!new)>(xs: seq<T>, x: T): (r: seq<T>)
    ensures IsSubsequence(r, xs)
    ensures forall y :: y in r <==> y in xs && y != x
    ensures forall y :: multiset(r)[y] == if y != x then multiset(xs)[y] else 0
    decreases |xs|
  {
    if |xs| == 0 then []
    else
      assert xs == [xs[0]] + xs[1..];
      var rest := RemoveAll(xs[1..], x);
      if xs[0] == x then
        assert |rest| == 0 || rest[0] in rest;
        rest
      else [xs[0]] + rest
  }

  /** `toggleInstance(id)` */
  function Toggle<T(==,!new)>(ids: seq<T>, id: T): seq<T> {
    if id in ids then RemoveAll(ids, id) else ids + [id]
  }

  lemma {:induction false} RemoveAllAbsent<T(!new)>(xs: seq<T>, x: T)
    requires x !in xs
    ensures RemoveAll(xs, x) == xs
    decreases |xs|
  {
    if |xs| > 0 {
      RemoveAllAbsent(xs[1..], x);
    }
  }

  lemma {:induction false} RemoveAllAppend<T(!new)>(xs: seq<T>, ys: seq<T>, x: T)
    ensures RemoveAll(xs + ys, x) == RemoveAll(xs, x) + RemoveAll(ys, x)
    decreases |xs|
  {
    if |xs| > 0 {
      assert (xs + ys)[1..] == xs[1..] + ys;
      RemoveAllAppend(xs[1..], ys, x);
    } else {
      assert xs + ys == ys;
    }
  }

  /** A toggle flips the membership of its id and of no other; an absent id
      goes to the end, and toggling it again restores the list. */
  lemma ToggleProperties<T(!new)>(ids: seq<T>, id: T)
    ensures id in Toggle(ids, id) <==> id !in ids
    ensures forall y :: y != id ==> (y in Toggle(ids, id) <==> y in ids)
    ensures id !in ids ==> Toggle(ids, id) == ids + [id] && Toggle(Toggle(ids, id), id) == ids
  {
    if id !in ids {
      assert id in ids + [id];
      RemoveAllAppend(ids, [id], id);
      RemoveAllAbsent(ids, id);
      assert RemoveAll([id], id) == [];
    }
  }

  /** `Array.from(new Set(acc ++ xs))` with `acc` already duplicate-free:
      the first occurrences, in order. */
  function DedupFrom<T(==,!new)>(xs: seq<T>, acc: seq<T>): seq<T>
    decreases |xs|
  {
    if |xs| == 0 then acc
    else DedupFrom(xs[1..], if xs[0] in acc then acc else acc + [xs[0]])
  }

  function Dedup<T(==,!new)>(xs: seq<T>): seq<T> {
    DedupFrom(xs, [])
  }

  lemma {:induction false} DedupFromProperties<T(!new)>(xs: seq<T>, acc: seq<T>)
    requires NoDuplicates(acc)
    ensures NoDuplicates(DedupFrom(xs, acc))
    ensures forall y :: y in DedupFrom(xs, acc) <==> y in acc || y in xs
    ensures |acc| <= |DedupFrom(xs, acc)| && DedupFrom(xs, acc)[..|acc|] == acc
    decreases |xs|
  {
    if |xs| > 0 {
      var next := if xs[0] in acc then acc else acc + [xs[0]];
      assert NoDuplicates(next);
      DedupFromProperties(xs[1..], next);
      var r := DedupFrom(xs, acc);
      assert r[..|next|] == next;
      assert r[..|acc|] == r[..|next|][..|acc|];
      assert forall y :: y in xs <==> y == xs[0] || y in xs[1..];
    }
  }

  lemma {:induction false} DedupKeepsDistinctPrefix<T(!new)>(acc: seq<T>, xs: seq<T>)
    requires NoDuplicates(acc)
    ensures Dedup(acc + xs) == DedupFrom(xs, acc)
  {
    DedupPrefixStep(acc, [], xs);
    assert [] + acc == acc;
  }

  /** Deduplicating `pre ++ rest` from `acc` is deduplicating `rest` from
      `acc ++ pre` when `pre` brings only new, distinct elements. */
  lemma {:induction false} DedupPrefixStep<T(!new)>(pre: seq<T>, acc: seq<T>, rest: seq<T>)
    requires NoDuplicates(acc + pre)
    ensures DedupFrom(pre + rest, acc) == DedupFrom(rest, acc + pre)
    decreases |pre|
  {
    if |pre| == 0 {
      assert pre + rest == rest;
      assert acc + pre == acc;
    } else {
      assert (pre + rest)[0] == pre[0];
      assert (pre + rest)[1..] == pre[1..] + rest;
      assert pre[0] !in acc by {
        assert (acc + pre)[|acc|] == pre[0];
        forall i | 0 <= i < |acc| ensures acc[i] != pre[0] {
          assert (acc + pre)[i] == acc[i];
        }
      }
      assert acc + [pre[0]] + pre[1..] == acc + pre;
      DedupPrefixStep(pre[1..], acc + [pre[0]], rest);
    }
  }

  /** `instances.filter(i => selectedIds.includes(i.id))` */
  function SelectedInstances<I(==,!new)>(instances: seq<Instance<I>>, ids: seq<I>): (r: seq<Instance<I>>)
    ensures IsSubsequence(r, instances)
    ensures forall x :: x in r <==> x in instances && x.id in ids
    ensures forall x :: multiset(r)[x] == if x.id in ids then multiset(instances)[x] else 0
    decreases |instances|
  {
    if |instances| == 0 then []
    else
      assert instances == [instances[0]] + instances[1..];
      if instances[0].id in ids then [instances[0]] + SelectedInstances(instances[1..], ids)
      else SelectedInstances(instances[1..], ids)
  }

  function Ids<I>(xs: seq<Instance<I>>): seq<I> {
    seq(|xs|, i requires 0 <= i < |xs| => xs[i].id)
  }

  /** Every filtered instance is selected. */
  predicate AllSelected<I(==,!new)>(filtered: seq<Instance<I>>, ids: seq<I>) {
    forall i :: 0 <= i < |filtered| ==> filtered[i].id in ids
  }

  /** `xs.filter(id => !bad.includes(id))` */
  function Without<T(==,!new)>(xs: seq<T>, bad: seq<T>): (r: seq<T>)
    ensures IsSubsequence(r, xs)
    ensures forall y :: y in r <==> y in xs && y !in bad
    ensures forall y :: multiset(r)[y] == if y !in bad then multiset(xs)[y] else 0
    decreases |xs|
  {
    if |xs| == 0 then []
    else
      assert xs == [xs[0]] + xs[1..];
      if xs[0] in bad then Without(xs[1..], bad)
      else [xs[0]] + Without(xs[1..], bad)
  }

  lemma {:induction false} WithoutNothing<T(!new)>(xs: seq<T>)
    ensures Without(xs, []) == xs
    decreases |xs|
  {
    if |xs| > 0 {
      WithoutNothing(xs[1..]);
    }
  }

  /** `handleSelectAll()` */
  function SelectAll<I(==,!new)>(ids: seq<I>, filtered: seq<Instance<I>>): seq<I> {
    if AllSelected(filtered, ids) then Without(ids, Ids(filtered))
    else Dedup(ids + Ids(filtered))
  }

  /** When every filtered instance is selected, Select All deselects exactly
      those and keeps the rest in order; otherwise it selects them all,
      keeping the earlier selection first and adding no duplicates. With
      nothing filtered it changes nothing. */
  lemma SelectAllProperties<I(!new)>(ids: seq<I>, filtered: seq<Instance<I>>)
    ensures AllSelected(filtered, ids) ==>
      IsSubsequence(SelectAll(ids, filtered), ids)
      && forall y :: y in SelectAll(ids, filtered) <==> y in ids && y !in Ids(filtered)
    ensures !AllSelected(filtered, ids) ==>
      NoDuplicates(SelectAll(ids, filtered))
      && (forall y :: y in SelectAll(ids, filtered) <==> y in ids || y in Ids(filtered))
      && AllSelected(filtered, SelectAll(ids, filtered))
    ensures !AllSelected(filtered, ids) && NoDuplicates(ids) ==>
      |ids| <= |SelectAll(ids, filtered)| && SelectAll(ids, filtered)[..|ids|] == ids
    ensures |filtered| == 0 ==> SelectAll(ids, filtered) == ids
  {
    if !AllSelected(filtered, ids) {
      DedupFromProperties(ids + Ids(filtered), []);
      var r := SelectAll(ids, filtered);
      assert forall y :: y in ids + Ids(filtered) <==> y in ids || y in Ids(filtered);
      forall i | 0 <= i < |filtered| ensures filtered[i].id in r {
        assert Ids(filtered)[i] == filtered[i].id;
      }
      if NoDuplicates(ids) {
        DedupKeepsDistinctPrefix(ids, Ids(filtered));
        DedupFromProperties(Ids(filtered), ids);
      }
    }
    if |filtered| == 0 {
      WithoutNothing(ids);
    }
  }

  /** The label of the Select All row. */
  function SelectAllLabel<I(==,!new)>(ids: seq<I>, filtered: seq<Instance<I>>): string {
    if AllSelected(filtered, ids) then "Deselect All" else "Select All"
  }

  class MultiSelectDropdown {
    const instances: seq<Instance<string>>
    const selectedIds: seq<string>
    var isOpen: bool
    var searchTerm: string

    function Filtered(): seq<Instance<string>>
      reads this
    {
      FilterByName(instances, searchTerm)
    }

    /** The chips on the button. */
    function Chips(): seq<Instance<string>> {
      SelectedInstances(instances, selectedIds)
    }

    constructor (instances: seq<Instance<string>>, selectedIds: seq<string>)
      ensures this.instances == instances && this.selectedIds == selectedIds
      ensures !isOpen && searchTerm == ""
    {
      this.instances := instances;
      this.selectedIds := selectedIds;
      isOpen := false;
      searchTerm := "";
    }

    method ToggleOpen()
      modifies this`isOpen
      ensures isOpen == !old(isOpen)
    {
      isOpen := !isOpen;
    }

    method Search(term: string)
      modifies this`searchTerm
      ensures searchTerm == term
    {
      searchTerm := term;
    }

    /** A click on a listed instance: `onSelect` with its id toggled. */
    method ClickInstance(index: nat) returns (ids: seq<string>)
      requires index < |Filtered()|
      ensures ids == Toggle(selectedIds, Filtered()[index].id)
    {
      ids := Toggle(selectedIds, Filtered()[index].id);
    }

    /** The cross on a chip deselects that instance. */
    method RemoveChip(index: nat) returns (ids: seq<string>)
      requires index < |Chips()|
      ensures ids == RemoveAll(selectedIds, Chips()[index].id)
      ensures Chips()[index].id !in ids
    {
      assert Chips()[index] in Chips();
      ids := Toggle(selectedIds, Chips()[index].id);
    }

    method ClickSelectAll() returns (ids: seq<string>)
      ensures ids == SelectAll(selectedIds, Filtered())
    {
      ids := SelectAll(selectedIds, Filtered());
    }

    /** "Create New" asks for a new instance and closes the list. */
    method ClickCreateNew() returns (choice: Choice<string>)
      modifies this`isOpen
      ensures choice == CreateRequested && !isOpen
    {
      choice := CreateRequested;
      isOpen := false;
    }

    method ClickOutside()
      modifies this`isOpen
      ensures !isOpen
    {
      isOpen := false;
    }
  }
}
