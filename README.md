# queer_map core in Dafny

queer_map is a browser map of queer-friendly places. It loads a table of
locations grouped by category and shows them as Leaflet markers. A sidebar lists
them and filters them by a search term and by tags. This project models the logic
behind that shell. It has three parts:

- the app (`src/App.tsx`):
  - the filter over the category table;
  - the sorted tag catalogue;
  - the bounding box and fallback camera;
  - the state cells and their handlers.
- the sidebar's rules (`src/components/Sidebar.tsx`):
  - the tag toggle;
  - clearing the filters;
  - resetting a category that has disappeared;
  - choosing which categories to list;
  - the display settings;
  - the filter popup.
- the map component (`src/components/Map.tsx`):
  - the focus and hover state machine;
  - the `isInitialLoad` flag of `MapUpdater` and the camera commands it issues;
  - the tag colour cycle.

Files and modules:

| file | module | contents |
|---|---|---|
| `seqs.dfy` | `Seqs` | order-preserving subsequences, duplicate-freedom |
| `text.dfy` | `Text` | ASCII `toLowerCase`, `includes`, string order |
| `locations.dfy` | `Locations` | `Location`, the category table as a sequence of (name, locations) pairs with unique names |
| `filter.dfy` | `FilterEngine` | `filteredLocations`: specification functions, the in-place loop, lemmas |
| `tags.dfy` | `TagCatalogue` | `allTags`: de-duplication and sort |
| `viewport.dfy` | `Viewport` | the bounds reduce with its ±Infinity seed; centre; zoom |
| `sidebar.dfy` | `Sidebar` | tag toggle, listed categories, `class SidebarState` |
| `map.dfy` | `MapView` | `class MapUpdater`, `class MapState`, tooltips, tag colours |
| `app.dfy` | `App` | `class AppState` and its render |
| `startup.dfy` | `Startup` | the start-up and selection sequences that compose the three components |

Modelling conventions:

- **State.** React state cells are class fields. Each handler is a method whose `ensures` gives the whole new state.
- **Filter.** The filter's `reduce` fills its accumulator in place. It is the loop method `FilterEngine.FilteredLocations`, proved equal to the function `FilterTable`.
- **Mounting.** While the fetch is pending `App` renders only its loading screen, so the map is mounted by the first render that has the data. `MapState` starts from the app's camera at that render.
- **Effect order in the sequences.** React runs a child's effects before its parent's. So `MapUpdater` sees the map's camera cells of the render in progress, before the map's own effect on `[center, zoom]` copies the new props in. Each app render with locations hands `MapUpdater` a new bounds object, so that render runs its effect too.
- **Array identity.** React compares the centre array by reference. The model gives that identity as a number, `centerRef`. The array the app builds from the bounds gets a new number. A sidebar selection passes the location's own `position` array, with its number as a parameter. Storing the array that is already stored is skipped, so re-selecting the same location leaves the centre cell as it is. The map's own cells carry the number of the array they hold, `mapCenterRef`; a marker click stores the marker's own array there. Equal numbers denote the same array, so `Startup.Select` requires a row whose number is the one the app holds to be at the position the app holds.

## Model

| member | source | states |
|---|---|---|
| Text.LowerChar | src/App.tsx:289-290 | lower-cases exactly the ASCII capitals (code point plus 32) and leaves every other character alone |
| Text.LowerIdempotent | src/App.tsx:289-290 | a lower-cased string has no ASCII capital, so lower-casing it again changes nothing |
| Text.LowerFixedPoints | src/App.tsx:289-290 | a string is its own lower-case form iff it has no ASCII capital |
| Text.IncludesIff | src/App.tsx:289-290 | the scan `includes` holds exactly when the pattern occurs at some offset |
| Text.IncludesEmpty | src/App.tsx:289-290 | every string includes the empty term |
| Text.StrLtIrreflexive | src/App.tsx:284 | the sort order is irreflexive |
| Text.StrLtTransitive | src/App.tsx:284 | the sort order is transitive |
| Text.StrLtTotal | src/App.tsx:284 | two different strings are ordered one way or the other |
| Text.StrLtAsymmetric | src/App.tsx:284 | the sort order is asymmetric |
| Locations.Keys | src/components/Sidebar.tsx:134 | `Object.keys` has one key per entry, in entry order |
| Locations.Lookup | src/components/Sidebar.tsx:105 | `table[key]` is undefined exactly for a key that is absent, and is otherwise that key's list |
| Locations.AllLocations | src/App.tsx:224 | a location is in `Object.values(table).flat()` iff it is in some category |
| FilterEngine.FilterSeq | src/App.tsx:288-297 | the filtered list is an order-preserving subsequence holding exactly the input locations that pass the test |
| FilterEngine.FilterTable | src/App.tsx:287-303 | no result category is empty, and there are no more categories than in the input |
| FilterEngine.FilteredLocations | src/App.tsx:287-303 | the reduce loop that fills the accumulator builds exactly `FilterTable` |
| FilterEngine.FilterTableConcat | src/App.tsx:287-303 | filtering a table is filtering its parts and concatenating them, category order kept |
| FilterEngine.AnySelectedIff | src/App.tsx:294 | `tags.some(t => selected.includes(t))` holds iff a tag of the location is selected |
| FilterEngine.KeepIff | src/App.tsx:288-296 | a location is kept iff (the term is empty, or occurs in the lower-cased name, or in the lower-cased description) and (no tag is selected, or one of its tags is) |
| FilterEngine.SearchCaseInsensitive | src/App.tsx:288-290 | two search terms with the same lower-case form match the same locations |
| FilterEngine.UntaggedExcluded | src/App.tsx:293-294 | a location without tags is dropped as soon as any tag is selected |
| FilterEngine.FilterSeqNoFilter | src/App.tsx:288-297 | with no search and no tags every location of a list passes |
| FilterEngine.FilterTableNoFilter | src/App.tsx:287-303 | with no search and no tags the result is the input with only its empty categories removed |
| FilterEngine.FilterTableMembers | src/App.tsx:288-301 | a location is under a category of the result iff it is under that category in the input and passes the test, so nothing moves between categories |
| FilterEngine.FilterTableKeys | src/App.tsx:299-301 | the result's categories are an order-preserving subsequence of the input's |
| FilterEngine.FilterTableFromInput | src/App.tsx:288-301 | each result category holds exactly the filtered list of the input category of the same name |
| FilterEngine.FilterTableUniqueKeys | src/App.tsx:299-301 | the result's category names stay unique |
| FilterEngine.KeepTagMonotone | src/App.tsx:293-294 | a location kept under a non-empty tag set T1 is kept under any superset T2 |
| FilterEngine.FilterSeqTagMonotone | src/App.tsx:288-297 | under T1 ⊆ T2 with T1 non-empty, the list filtered by T1 is a subsequence of the list filtered by T2 |
| FilterEngine.FilterTableTagMonotone | src/App.tsx:287-303 | under T1 ⊆ T2 with T1 non-empty, every location of a category kept under T1 is kept there under T2 |
| FilterEngine.FilterSeqIdempotent | src/App.tsx:288-297 | filtering a filtered list again changes nothing |
| FilterEngine.FilterTableIdempotent | src/App.tsx:287-303 | filtering the filtered table again with the same search and tags returns it unchanged |
| TagCatalogue.TagOccurrences | src/App.tsx:282 | the `flatMap` over the locations holds exactly their tags, an untagged location contributing none |
| TagCatalogue.Distinct | src/App.tsx:279-281 | `Array.from(new Set(s))` has no duplicates and the same members as `s` |
| TagCatalogue.StrLeTransitive | src/App.tsx:284 | the non-strict sort order is transitive |
| TagCatalogue.PrependSorted | src/App.tsx:284 | putting an element no greater than the head in front keeps a list sorted |
| TagCatalogue.Insert | src/App.tsx:284 | one insertion step keeps the list sorted and adds exactly one copy of the element |
| TagCatalogue.InsertNoDuplicates | src/App.tsx:284 | inserting a new element into a duplicate-free sorted list keeps it duplicate-free |
| TagCatalogue.TailNoDuplicates | src/App.tsx:279-281 | the tail of a duplicate-free list is duplicate-free and lacks the head |
| TagCatalogue.ConsNoDuplicates | src/App.tsx:279-281 | a new head keeps a list duplicate-free |
| TagCatalogue.Sort | src/App.tsx:284 | `sort()` returns a sorted permutation of its input |
| TagCatalogue.SortNoDuplicates | src/App.tsx:284 | sorting keeps a duplicate-free list duplicate-free |
| TagCatalogue.SortedDistinctIncreasing | src/App.tsx:278-284 | a sorted duplicate-free list is strictly increasing |
| TagCatalogue.AllTagsCatalogue | src/App.tsx:278-284 | `allTags` is strictly increasing, and a string is in it iff it is a tag of some location in some category |
| TagCatalogue.SameMembersEmpty | src/App.tsx:278-284 | lists with the same members are empty together |
| TagCatalogue.IncreasingUnique | src/App.tsx:278-284 | two strictly increasing lists with the same members are equal, so `allTags` does not depend on the engine's sort algorithm |
| Viewport.ExtMin | src/App.tsx:229-232 | `Math.min` over the extended reals returns one argument and is below both |
| Viewport.ExtMax | src/App.tsx:229-232 | `Math.max` over the extended reals returns one argument and is above both |
| Viewport.FoldBounds | src/App.tsx:225-241 | the reduce from the ±Infinity seed leaves all four extremes finite exactly when there is a location |
| Viewport.FoldBoundsTight | src/App.tsx:225-241 | for a non-empty list the folded box contains every position and each extreme is attained by one |
| Viewport.InitialBounds | src/App.tsx:413-418 | the bounds prop is present iff there is a location; it contains every position and is tight |
| Viewport.InitialCenter | src/App.tsx:244-249 | with no location the centre is (51.5074, -0.1278); otherwise it lies inside the box, halfway between the extremes on each axis |
| Viewport.InitialZoom | src/App.tsx:255-257 | with no location the zoom is 13 |
| Viewport.AllPositionsMembers | src/App.tsx:223-227 | a position is listed iff some location of some category sits there |
| Sidebar.RemoveAll | src/components/Sidebar.tsx:112 | `filter(t => t !== tag)` removes every occurrence and keeps every other element in order with its multiplicity |
| Sidebar.ToggleTag | src/components/Sidebar.tsx:110-116 | the toggled tag's membership flips |
| Sidebar.RemoveAllAbsent | src/components/Sidebar.tsx:112 | removing an absent tag changes nothing |
| Sidebar.RemoveAllAppend | src/components/Sidebar.tsx:112-114 | removing commutes with appending one element |
| Sidebar.ToggleTagOthersUnchanged | src/components/Sidebar.tsx:110-116 | an absent tag is appended at the end; with the tag taken out, the list before and after the toggle is the same, so no other element changes or moves |
| Sidebar.ToggleTwiceRestores | src/components/Sidebar.tsx:110-116 | toggling an absent tag twice restores the list exactly |
| Sidebar.ToggleKeepsDistinct | src/components/Sidebar.tsx:110-116 | a duplicate-free selection stays duplicate-free under a toggle |
| Sidebar.LocationsForSkipFirst | src/components/Sidebar.tsx:346-347 | looking up categories other than the first entry's ignores that entry |
| Sidebar.LocationsForAllKeys | src/components/Sidebar.tsx:346-347 | walking every key in key order lists every location in table order |
| Sidebar.ListedLocationsChoice | src/components/Sidebar.tsx:346-347 | with `''` the list is every location in key order; with a present key, that category's locations only; with an absent key, nothing |
| Sidebar.SidebarState.constructor | src/components/Sidebar.tsx:59-64 | the sidebar starts with no category, the popup closed and both settings shown |
| Sidebar.SidebarState.ResetSelectedCategory | src/components/Sidebar.tsx:104-108 | a selected category that is not a key of the data becomes `''`; otherwise it is unchanged; afterwards it is `''` or a key |
| Sidebar.SidebarState.SelectCategory | src/components/Sidebar.tsx:147 | the `<select>` stores the chosen category and nothing else |
| Sidebar.SidebarState.HandleVisibilityChange | src/components/Sidebar.tsx:118-123 | exactly the named setting flips; the other stays |
| Sidebar.SidebarState.ToggleFilter | src/components/Sidebar.tsx:125-127 | the filter button flips the popup state |
| Sidebar.SidebarState.HandleClickOutside | src/components/Sidebar.tsx:89-102 | a press outside both the mounted popup and the button closes the popup; any other press leaves it |
| MapView.RunAll | src/components/Map.tsx:83-99 | one command per effect run |
| MapView.RunAllCommands | src/components/Map.tsx:81-98 | from the initial flag, run i fits the bounds iff it is the first run with bounds; every other run flies to its centre when the timestamp is non-zero and issues nothing otherwise |
| MapView.FlagAfterRuns | src/components/Map.tsx:81-98 | `isInitialLoad` is still set after a sequence of runs iff none of them had bounds |
| MapView.FlagAfterCleared | src/components/Map.tsx:81-98 | once cleared, the flag is never set again |
| MapView.MapUpdater.constructor | src/components/Map.tsx:81 | the flag starts set |
| MapView.MapUpdater.Run | src/components/Map.tsx:83-99 | one effect run: fit and clear the flag on a run with bounds while the flag is set, else fly when the timestamp is non-zero, else nothing |
| MapView.MapUpdater.LayoutTimerFired | src/components/Map.tsx:101-115 | the timer always resizes, and sets the view to the given camera iff the initial fit is done |
| MapView.ShownTooltips | src/components/Map.tsx:472 | a marker's tooltip is rendered iff it is a marker and its id is the hovered id |
| MapView.TailUniqueIds | src/components/Map.tsx:448-449 | unique marker ids stay unique in the tail and differ from the head's |
| MapView.NoTooltipWithoutId | src/components/Map.tsx:472 | no tooltip shows for an id no marker has |
| MapView.AtMostOneTooltip | src/components/Map.tsx:457-472 | with unique ids at most one tooltip is shown, and after hovering a marker it is exactly that marker's |
| MapView.TagColour | src/components/Map.tsx:612-614 | the colour is one of the six, and the first six tags get them in order |
| MapView.TagColourCycle | src/components/Map.tsx:612-614 | neighbouring tags differ in colour, and colours repeat every six tags |
| MapView.MapState.constructor | src/components/Map.tsx:297-300 | the camera cells start at the props; nothing is selected or hovered |
| MapView.MapState.ReceiveProps | src/components/Map.tsx:331-334 | new props replace the camera cells, with the array's identity, when the centre array or the zoom changed, and only then |
| MapView.MapState.HandleMarkerClick | src/components/Map.tsx:343-348 | the location is selected and hovered, and the camera cells are set to its own position array at zoom 16 |
| MapView.MapState.HandleCloseModal | src/components/Map.tsx:350-352 | only the selection is cleared; hover and camera stay |
| MapView.MapState.HandleMapClick | src/components/Map.tsx:358-360 | only the hover is cleared; the selection stays |
| MapView.MapState.MarkerMouseOver | src/components/Map.tsx:457 | the hovered id becomes this marker's, and the last hover wins |
| MapView.MapState.MarkerMouseOut | src/components/Map.tsx:458-468 | a pinned marker keeps the hover; otherwise the hover clears only if the tooltip exists and is not under the pointer |
| MapView.MapState.TooltipMouseLeave | src/components/Map.tsx:486-494 | a pinned marker keeps the hover; otherwise the hover clears |
| App.AppState.constructor | src/App.tsx:259-264 | first render: empty table, fallback camera (51.5074, -0.1278) at zoom 13, sidebar open, no filter, timestamp equal to the clock |
| App.AppState.ReceiveDataAsWritten | src/App.tsx:259-260 | the fetched table is stored and the camera cells keep their first-render values |
| App.AppState.ReceiveData | src/App.tsx:244-260 | the fetched table is stored and, when it has a location, the camera becomes the box midpoint at the fit zoom |
| App.AppState.HandleLocationSelect | src/App.tsx:267-271 | the centre cell holds the passed array afterwards: its position when it is a different array, the old cell when it is the same array; zoom 16; timestamp replaced by the clock reading; search, tags and sidebar untouched |
| App.AppState.ToggleSidebar | src/App.tsx:273-275 | only the collapsed flag flips |
| App.AppState.SetSearchTerm | src/components/Sidebar.tsx:169-174 | only the search term changes |
| App.AppState.HandleTagToggle | src/components/Sidebar.tsx:110-116 | the selection becomes the toggled selection, with the tag's membership flipped; nothing else changes |
| App.AppState.ClearTags | src/components/Sidebar.tsx:294 | "Clear all" empties only the tag selection |
| App.AppState.ClearAllFilters | src/components/Sidebar.tsx:334-337 | search and tags are emptied, so the filtered table is the whole table minus its empty categories |
| App.AppState.Render | src/App.tsx:224-303 | a render derives the filtered table, `allTags`, the markers (every filtered location) and the bounds of all locations from the state |
| App.SidebarMatchesMarkers | src/App.tsx:362-411 | with no category chosen the sidebar lists exactly the map's markers in the same order; with a category its rows are markers too |
| Startup.FinalTarget | src/components/Map.tsx:93-97 | None iff no command is a fly-to; otherwise the centre of the last fly-to, with no fly-to after it |
| Startup.MountMap | src/App.tsx:305-314 | the map mounts with the app's camera as its cells; with bounds the updater issues fit(box) then fly-to(camera) and clears its flag; without bounds it issues fly-to(camera) and keeps the flag |
| Startup.StartupAsWritten | src/App.tsx:259-264 | as written, start-up with locations issues fit(box), fly-to(fallback), and the layout timer sets the view to the fallback; without locations it issues fly-to(fallback) and the timer only invalidates the size |
| Startup.Startup | src/App.tsx:244-264 | with the camera initialised from the data, start-up issues fit(box), fly-to(box midpoint, fit zoom), and the layout timer keeps that camera; without locations it issues fly-to(fallback) |
| Startup.StartupEndsInBox | src/App.tsx:244-249 | after that start-up the camera's final target lies inside the fitted box |
| Startup.ExamplePositions | src/App.tsx:224 | the two-location example table has the positions (52.0, 13.0) and (52.1, 13.2) |
| Startup.ExampleBox | src/App.tsx:224-249 | its box is [52.0, 52.1] × [13.0, 13.2] and its centre is (52.05, 13.1) |
| Startup.ExampleAsWrittenLeavesBox | src/App.tsx:259-260 | as written, start-up with that table ends at the fallback centre, which lies outside the box |
| Startup.Select | src/components/Map.tsx:331-334 | a selection re-renders the app iff the centre array, the zoom or the timestamp changed; the updater then flies to the camera the map still holds (when there are bounds or a new timestamp); when the prop array or the zoom changed the map passes them to its cells, and only when that changes the cells (their array or their zoom) does the updater fly to the row at zoom 16 |
| Startup.SelectAfterStartup | src/components/Map.tsx:331-334 | after start-up a row click gives fly-to(start-up camera) and then fly-to(row's location, 16), and a marker there is pinned; every other case is stated too |
| Startup.SelectClickedMarkerRow | src/components/Map.tsx:343-345 | selecting row A, clicking marker B, closing its panel and selecting row B issues a single fly-to to B at zoom 16, because the row passes the array the click already stored |
| Startup.ReselectAfterMarkerClick | src/components/Sidebar.tsx:350 | as written, selecting row A, clicking marker B, closing its panel and selecting row A again flies to B at zoom 16, or issues nothing with an unchanged clock |
| Startup.ReselectCopyAfterMarkerClick | src/components/Sidebar.tsx:350 | when each selection stores a copy of the row's array, the same steps end with a fly-to to A at zoom 16 |

## Left out

- **The fetch** from the Google Apps Script web endpoint, and its error screen. These are I/O. The data arrives as the parameter of `ReceiveData`. A failed fetch shows the error screen and never mounts the map.
- **The loading screen** is not a model member. While `loading` is true the map is not mounted, so the model constructs `MapState` and `MapUpdater` only after the data has arrived.
- **Clocks.** `Date.now()` is a parameter.
- Viewport.InitialZoom: the fit formula `floor(15.5 - log2(maxSpan * 111))` is floating-point. It is the parameter `fitted`, so only the fallback zoom 13 is stated. The infinite zoom that a zero span gives is not represented.
- **Floating point.** Coordinates are exact reals. Rounding in the midpoint and NaN inputs are not modelled.
- Text.Lower: `toLowerCase` is modelled on ASCII letters only. Unicode case mapping (which can change a string's length) is not modelled.
- Text.StrLt: the default sort compares UTF-16 code units. The model compares characters, which agrees on the Basic Multilingual Plane only.
- **Object keys.** Category names are assumed distinct. Keys that collide with `Object.prototype` members (for example `"constructor"`) are not modelled. Integer-like keys are not moved to the front as `Object.keys` would move them.
- **Leaflet calls.**
  - `fitBounds`, `flyTo`, `invalidateSize`, `setView` and `setZoom` are modelled only as the abstract commands `Command` and `LayoutCommand`. Their options (padding, durations, easing) are left out.
  - The zoom buttons and the layer switch are left out.
  - The 300 ms timer appears only as the command `LayoutTimerFired` returns when it fires. Cancelling the timer is not modelled.
- **DOM listeners.**
  - The mouse-down test and the `:hover` test are boolean inputs.
  - The window-resize listener and mobile layout are left out.
- **Object identity.** React compares dependencies by reference. The model has the numbers `centerRef` (the centre array the app passes) and `mapCenterRef` (the array in the map's own cells) for the centre arrays only.
  - When a marker is clicked, the updater's run on the new cells is not part of any result.
  - The bounds prop is a new object on every app render, so `MapUpdater`'s effect also re-runs on every app render. The sequences in `Startup` include the runs of start-up and of selections; renders caused by the search box, the tags or the sidebar toggle are not sequenced. `RunAllCommands` covers any sequence of runs.
- **Detail panel.** The animated background is drawn from `Math.random`. The image existence check is a network request. Both are left out, together with the panel markup.
- **Geolocation.** `handleLocate` and the current-location marker are I/O and are left out.
- **Rendering.** SVG marker icons, the pastel tag colours of the sidebar, all markup, the legal modals and the build configuration are left out.
- **Sidebar row click.** It only calls `onLocationSelect`. It does not open the detail panel, and the model follows the code in this.

## Findings

| source | as written | input that shows it | evidently intended | confidence | as-written member | corrected member |
|---|---|---|---|---|---|---|
| src/App.tsx:259-260 | `useState(initialCenter)` and `useState(initialZoom)` are evaluated only at the first render, while the table is still `{}`. The camera cells therefore stay at (51.5074, -0.1278), zoom 13, after the data arrives. The map is mounted by the first render with the data. Its updater fits the box, re-runs when `isInitialLoad` clears, and, its timestamp being non-zero from `Date.now()`, flies back to that centre. The layout timer then sets the view there too. | the table with locations at (52.0, 13.0) and (52.1, 13.2), any clock reading > 0: commands fit([52.0, 52.1] × [13.0, 13.2]), fly-to(51.5074, -0.1278); the final target lies outside the box | the camera starts at the computed midpoint and fit zoom of the loaded locations, so the map stays on them after the fit | medium, not executed | Startup.StartupAsWritten, Startup.ExampleAsWrittenLeavesBox | Startup.Startup, Startup.StartupEndsInBox |
| src/components/Sidebar.tsx:350 | A row passes the `position` array of its own location to `handleLocationSelect`. After a marker click has moved the camera cells of the map elsewhere, selecting the row already selected stores the same array and the same zoom 16. Only the timestamp changes, so `MapState`'s `[center, zoom]` effect does not run. The updater then flies to the marker the cells still hold. | select row A, click marker B, close its panel, select row A again at a later clock reading: the last command is fly-to(B, 16) | a row click always brings the map to the location of that row | medium, not executed | Startup.ReselectAfterMarkerClick | Startup.ReselectCopyAfterMarkerClick |
