/** The sidebar's rules: toggling a tag in the selection, choosing which
    categories to list, and the sidebar's own state cells. */
module Sidebar {
  import opened Seqs
  import opened Locations

  /** `selected.filter(t => t !== tag)`: every occurrence of `tag` removed,
      every other element kept, in order and with its multiplicity. */
  function RemoveAll(s: seq<string>, tag: string): (r: seq<string>)
    ensures tag !in r
    ensures IsSubseq(r, s)
    ensures forall x :: x != tag ==> multiset(r)[x] == multiset(s)[x]
  {
    if s == [] then []
    else
      var rest := RemoveAll(s[1..], tag);
      assert s == [s[0]] + s[1..];
      if s[0] != tag then
        SubseqCons(rest, s[1..], s[0]);
        [s[0]] + rest
      else
        SubseqWeaken(rest, s[1..], s[0]);
        rest
  }

  /** `handleTagToggle`: a selected tag is removed everywhere, an unselected
      one is appended; either way the tag's membership flips. */
  function ToggleTag(selected: seq<string>, tag: string): (r: seq<string>)
    ensures tag in r <==> tag !in selected
  {
    if tag in selected then RemoveAll(selected, tag) else selected + [tag]
  }

  lemma {:induction false} RemoveAllAbsent(s: seq<string>, tag: string)
    requires tag !in s
    ensures RemoveAll(s, tag) == s
  {
    if s != [] {
      assert s == [s[0]] + s[1..];
      RemoveAllAbsent(s[1..], tag);
    }
  }

  lemma {:induction false} RemoveAllAppend(s: seq<string>, x: string, tag: string)
    ensures RemoveAll(s + [x], tag) == RemoveAll(s, tag) + (if x == tag then [] else [x])
  {
    if s == [] {
      assert s + [x] == [x];
      assert [x][1..] == [];
    } else {
      assert (s + [x])[0] == s[0];
      assert (s + [x])[1..] == s[1..] + [x];
      RemoveAllAppend(s[1..], x, tag);
    }
  }

  /** Toggling changes nothing but the toggled tag: once that tag is taken
      out, the list before and after the toggle is the same. An absent tag
      goes to the end. */
  lemma ToggleTagOthersUnchanged(selected: seq<string>, tag: string)
    ensures RemoveAll(ToggleTag(selected, tag), tag) == RemoveAll(selected, tag)
    ensures tag !in selected ==> ToggleTag(selected, tag) == selected + [tag]
  {
    if tag in selected {
      RemoveAllAbsent(RemoveAll(selected, tag), tag);
    } else {
      RemoveAllAppend(selected, tag, tag);
    }
  }

  /** Toggling an unselected tag twice restores the selection exactly. */
  lemma ToggleTwiceRestores(selected: seq<string>, tag: string)
    requires tag !in selected
    ensures ToggleTag(ToggleTag(selected, tag), tag) == selected
  {
    RemoveAllAppend(selected, tag, tag);
    RemoveAllAbsent(selected, tag);
  }

  /** A duplicate-free selection stays duplicate-free under a toggle. */
  lemma ToggleKeepsDistinct(selected: seq<string>, tag: string)
    requires NoDuplicates(selected)
    ensures NoDuplicates(ToggleTag(selected, tag))
  {
    if tag in selected {
      SubseqNoDuplicates(RemoveAll(selected, tag), selected);
    }
  }

  /** The categories the list walks: the selected one alone, or, with `''`,
      every key in key order. */
  function VisibleCategories(data: Table, selectedCategory: string): seq<string> {
    if selectedCategory != "" then [selectedCategory] else Keys(data)
  }

  /** `categories.map(c => locationData[c]?.map(...))`: a missing key lists nothing. */
  function LocationsFor(data: Table, categories: seq<string>): seq<Location> {
    if categories == [] then []
    else
      (match Lookup(data, categories[0]) case Some(ls) => ls case None => [])
      + LocationsFor(data, categories[1..])
  }

  /** The locations shown in the sidebar list. */
  function ListedLocations(data: Table, selectedCategory: string): seq<Location> {
    LocationsFor(data, VisibleCategories(data, selectedCategory))
  }

  lemma {:induction false} LocationsForSkipFirst(data: Table, categories: seq<string>)
    requires data != [] && data[0].0 !in categories
    ensures LocationsFor(data, categories) == LocationsFor(data[1..], categories)
  {
    if categories != [] {
      assert categories[0] != data[0].0;
      LocationsForSkipFirst(data, categories[1..]);
    }
  }

  lemma {:induction false} LocationsForAllKeys(data: Table)
    requires UniqueKeys(data)
    ensures LocationsFor(data, Keys(data)) == AllLocations(data)
  {
    if data != [] {
      var ks := Keys(data);
      assert ks[1..] == Keys(data[1..]);
      assert UniqueKeys(data[1..]) by {
        forall i, j | 0 <= i < j < |data[1..]| ensures Keys(data[1..])[i] != Keys(data[1..])[j] {
          assert ks[i + 1] != ks[j + 1];
        }
      }
      assert data[0].0 !in Keys(data[1..]) by {
        forall k | 0 <= k < |Keys(data[1..])| ensures Keys(data[1..])[k] != data[0].0 {
          assert ks[k + 1] != ks[0];
        }
      }
      LocationsForSkipFirst(data, Keys(data[1..]));
      LocationsForAllKeys(data[1..]);
    }
  }

  /** With `''` every category is listed in key order; with a selected key
      only that category's locations; with a key that is gone, nothing. */
  lemma ListedLocationsChoice(data: Table, selectedCategory: string)
    requires UniqueKeys(data)
    ensures selectedCategory == "" ==> ListedLocations(data, selectedCategory) == AllLocations(data)
    ensures selectedCategory != "" && selectedCategory in Keys(data) ==>
      ListedLocations(data, selectedCategory) == Lookup(data, selectedCategory).value
    ensures selectedCategory != "" && selectedCategory !in Keys(data) ==>
      ListedLocations(data, selectedCategory) == []
  {
    if selectedCategory == "" {
      LocationsForAllKeys(data);
    } else {
      var cats := [selectedCategory];
      assert cats[1..] == [];
      assert ListedLocations(data, selectedCategory) == LocationsFor(data, cats);
      assert LocationsFor(data, cats) ==
        (match Lookup(data, selectedCategory) case Some(ls) => ls case None => []) + LocationsFor(data, []);
    }
  }

  datatype Visibility = Visibility(descriptions: bool, tags: bool)

  /** `keyof VisibilitySettings`. */
  datatype Setting = Descriptions | Tags

  /** The sidebar's own state cells. */
  class SidebarState {
    var selectedCategory: string
    var isFilterOpen: bool
    var visibility: Visibility

    constructor ()
      ensures selectedCategory == "" && !isFilterOpen && visibility == Visibility(true, true)
    {
      selectedCategory := "";
      isFilterOpen := false;
      visibility := Visibility(true, true);
    }

    /** The effect on `[locationData, selectedCategory]`: a selected category
        that is no longer a key of the data is reset to `''`. */
    method ResetSelectedCategory(data: Table)
      modifies this
      ensures old(selectedCategory) != "" && old(selectedCategory) !in Keys(data) ==> selectedCategory == ""
      ensures old(selectedCategory) == "" || old(selectedCategory) in Keys(data) ==>
        selectedCategory == old(selectedCategory)
      ensures selectedCategory == "" || selectedCategory in Keys(data)
      ensures isFilterOpen == old(isFilterOpen) && visibility == old(visibility)
    {
      if selectedCategory != "" && Lookup(data, selectedCategory).None? {
        selectedCategory := "";
      }
    }

    /** The category `<select>`'s `onChange`. */
    method SelectCategory(category: string)
      modifies this
      ensures selectedCategory == category
      ensures isFilterOpen == old(isFilterOpen) && visibility == old(visibility)
    {
      selectedCategory := category;
    }

    /** `handleVisibilityChange`: flips exactly the named setting. */
    method HandleVisibilityChange(setting: Setting)
      modifies this
      ensures visibility.descriptions == (if setting == Descriptions then !old(visibility.descriptions) else old(visibility.descriptions))
      ensures visibility.tags == (if setting == Tags then !old(visibility.tags) else old(visibility.tags))
      ensures selectedCategory == old(selectedCategory) && isFilterOpen == old(isFilterOpen)
    {
      visibility := match setting
        case Descriptions => visibility.(descriptions := !visibility.descriptions)
        case Tags => visibility.(tags := !visibility.tags);
    }

    /** `toggleFilter`: the filter button opens or closes the popup. */
    method ToggleFilter()
      modifies this
      ensures isFilterOpen == !old(isFilterOpen)
      ensures selectedCategory == old(selectedCategory) && visibility == old(visibility)
    {
      isFilterOpen := !isFilterOpen;
    }

    /** The document `mousedown` listener: a press outside both the mounted
        popup and the filter button closes the popup. */
    method HandleClickOutside(popupMounted: bool, insidePopup: bool, onFilterButton: bool)
      modifies this
      ensures isFilterOpen == (old(isFilterOpen) && !(popupMounted && !insidePopup && !onFilterButton))
      ensures selectedCategory == old(selectedCategory) && visibility == old(visibility)
    {
      if popupMounted && !insidePopup && !onFilterButton {
        isFilterOpen := false;
      }
    }
  }
}
