/** The top bar of src/components/Navigation.tsx: a "Create" menu with one
    entry per registered entity type, opened by a button and driven by the
    arrow keys, Enter and Escape. The selection starts at -1 (nothing
    selected) and moves with JavaScript's remainder. */
module NavigationMenu {
  import opened Text
  import opened JsValues
  import opened FormTypes
  import ObjectConfigs

  datatype MenuEntry = MenuEntry(id: string, caption: string, route: string)

  /** `objectTypes`: one entry per registry entry, in registry order. */
  function MenuEntries(registry: seq<(string, ObjectConfig)>): seq<MenuEntry> {
    seq(|registry|, i requires 0 <= i < |registry| =>
      MenuEntry(registry[i].0, registry[i].1.caption, "/create/" + registry[i].0))
  }

  /** Each entry's route is `/create/` followed by its type, so distinct
      types give distinct routes. */
  lemma MenuRoutes(registry: seq<(string, ObjectConfig)>)
    ensures |MenuEntries(registry)| == |registry|
    ensures forall i :: 0 <= i < |registry| ==>
      MenuEntries(registry)[i].route[..8] == "/create/" && MenuEntries(registry)[i].route[8..] == registry[i].0
    ensures forall i, j :: 0 <= i < |registry| && 0 <= j < |registry| && registry[i].0 != registry[j].0 ==>
      MenuEntries(registry)[i].route != MenuEntries(registry)[j].route
  {
    var m := MenuEntries(registry);
    forall i, j | 0 <= i < |registry| && 0 <= j < |registry| && registry[i].0 != registry[j].0
      ensures m[i].route != m[j].route
    {
      assert m[i].route[8..] == registry[i].0;
      assert m[j].route[8..] == registry[j].0;
    }
  }

  /** The menu of the entity registry: eight create routes, in order. */
  lemma RegistryMenu(now: int)
    ensures |MenuEntries(ObjectConfigs.Registry(now))| == 8
    ensures MenuEntries(ObjectConfigs.Registry(now))[0].route == "/create/location"
    ensures MenuEntries(ObjectConfigs.Registry(now))[7].route == "/create/user"
  {
  }

  /** ArrowDown: `(i + 1) % n`. */
  function NextIndex(i: int, n: nat): int
    requires n > 0
  {
    JsRem(i + 1, n)
  }

  /** ArrowUp: `(i - 1 + n) % n`. */
  function PrevIndex(i: int, n: nat): int
    requires n > 0
  {
    JsRem(i - 1 + n, n)
  }

  /** Both arrows keep the selection on an entry, ArrowDown from nothing
      selected goes to the first entry, and on the entries each arrow
      undoes the other. */
  lemma ArrowsCycle(i: int, n: nat)
    requires n > 0
    ensures -1 <= i < n ==> 0 <= NextIndex(i, n) < n
    ensures NextIndex(-1, n) == 0
    ensures 0 <= i < n ==> 0 <= PrevIndex(i, n) < n
    ensures 0 <= i < n ==> PrevIndex(NextIndex(i, n), n) == i && NextIndex(PrevIndex(i, n), n) == i
    ensures 0 <= i < n - 1 ==> NextIndex(i, n) == i + 1
    ensures NextIndex(n - 1, n) == 0 && PrevIndex(0, n) == n - 1
  {
    if 0 <= i < n {
      if i == 0 {
        JsRemWraps(n - 1 + n, n);
        assert PrevIndex(i, n) == n - 1;
      } else {
        JsRemWraps(i - 1 + n, n);
        assert PrevIndex(i, n) == i - 1;
      }
      if i < n - 1 {
        JsRemWraps(i + n, n);
      } else {
        JsRemWraps(n - 1 + n, n);
        JsRemWraps(n, n);
      }
    }
    JsRemWraps(n - 1 + n, n);
    JsRemWraps(n, n);
  }

  /** ArrowUp from nothing selected skips the last entry: it lands on the
      one before it (and on the only entry when there is one). */
  lemma ArrowUpFromNothing(n: nat)
    requires n > 0
    ensures n >= 2 ==> PrevIndex(-1, n) == n - 2
    ensures n == 1 ==> PrevIndex(-1, n) == 0
  {
  }

  datatype Key = ArrowDown | ArrowUp | Enter | Escape | OtherKey

  class Navigation {
    const entries: seq<MenuEntry>
    var isOpen: bool
    var selectedIndex: int

    ghost predicate Valid()
      reads this
    {
      |entries| > 0 && -1 <= selectedIndex < |entries|
    }

    constructor (now: int)
      ensures entries == MenuEntries(ObjectConfigs.Registry(now))
      ensures !isOpen && selectedIndex == -1 && Valid()
    {
      entries := MenuEntries(ObjectConfigs.Registry(now));
      isOpen := false;
      selectedIndex := -1;
    }

    method ToggleOpen()
      modifies this`isOpen
      ensures isOpen == !old(isOpen)
    {
      isOpen := !isOpen;
    }

    /** `handleKeyDown(e)`: the route navigated to, if any. */
    method KeyDown(key: Key) returns (route: Option<string>)
      requires Valid()
      modifies this`isOpen, this`selectedIndex
      ensures Valid()
      ensures key == ArrowDown ==>
        selectedIndex == NextIndex(old(selectedIndex), |entries|) && isOpen == old(isOpen) && route.None?
      ensures key == ArrowUp ==>
        selectedIndex == PrevIndex(old(selectedIndex), |entries|) && isOpen == old(isOpen) && route.None?
      ensures key == Enter && old(selectedIndex) >= 0 ==>
        route == Some(entries[old(selectedIndex)].route) && !isOpen && selectedIndex == old(selectedIndex)
      ensures key == Enter && old(selectedIndex) < 0 ==>
        route.None? && isOpen == old(isOpen) && selectedIndex == old(selectedIndex)
      ensures key == Escape ==> !isOpen && route.None? && selectedIndex == old(selectedIndex)
      ensures key == OtherKey ==> isOpen == old(isOpen) && route.None? && selectedIndex == old(selectedIndex)
    {
      var n := |entries|;
      route := None;
      match key
      case ArrowDown =>
        ArrowsCycle(selectedIndex, n);
        selectedIndex := NextIndex(selectedIndex, n);
      case ArrowUp =>
        if selectedIndex == -1 {
          ArrowUpFromNothing(n);
        } else {
          ArrowsCycle(selectedIndex, n);
        }
        selectedIndex := PrevIndex(selectedIndex, n);
      case Enter =>
        if selectedIndex >= 0 {
          route := Some(entries[selectedIndex].route);
          isOpen := false;
        }
      case Escape => isOpen := false;
      case OtherKey =>
    }

    /** The mouse over entry `index` selects it. */
    method Hover(index: nat)
      requires Valid() && index < |entries|
      modifies this`selectedIndex
      ensures selectedIndex == index && Valid()
    {
      selectedIndex := index;
    }

    /** A click on entry `index` goes to its create route and closes. */
    method ClickEntry(index: nat) returns (route: string)
      requires index < |entries|
      modifies this`isOpen
      ensures route == entries[index].route && !isOpen
    {
      route := entries[index].route;
      isOpen := false;
    }

    method ClickOutside()
      modifies this`isOpen
      ensures !isOpen
    {
      isOpen := false;
    }
  }
}
