/** The application shell: the state cells of `App`, the handlers that update
    them and the values one render derives from them. */
module App {
  import opened Seqs
  import opened Locations
  import opened FilterEngine
  import opened TagCatalogue
  import opened Viewport
  import Sidebar

  /** The zoom `handleLocationSelect` asks for. */
  const DetailZoom: real := 16.0

  /** What one render of `App` hands to the sidebar and the map. */
  datatype AppView = AppView(
    filtered: Table,
    allTags: seq<string>,
    markers: seq<Location>,
    initialBounds: Option<Box>,
    center: Position,
    centerRef: nat,
    zoom: real,
    centerTimestamp: int,
    sidebarCollapsed: bool)

  /** The state cells of `App`. `centerRef` stands for the identity of the
      `mapCenter` array: the array the app builds from the bounds is a new
      one, while a selection stores the location's own `position` array, so
      selecting a location whose array is already stored keeps the cell as
      it is (a state update with the same object is skipped). Equal
      identities denote the same array, hence the same position. */
  class AppState {
    var locationData: Table
    var mapCenter: Position
    var centerRef: nat
    var mapZoom: real
    var isSidebarCollapsed: bool
    var searchTerm: string
    var selectedTags: seq<string>
    var centerTimestamp: int

    /** The first render, before the fetch resolves: the table is `{}`, so the
        camera initialisers see no location and give the fallback camera; the
        timestamp is the clock reading `now`. */
    constructor (now: int)
      ensures locationData == [] && mapCenter == FallbackCenter && mapZoom == FallbackZoom
      ensures centerRef == 0 && centerTimestamp == now
      ensures !isSidebarCollapsed && searchTerm == "" && selectedTags == []
    {
      locationData := [];
      mapCenter := InitialCenter(AllPositions([]));
      centerRef := 0;
      mapZoom := InitialZoom(AllPositions([]), 0.0);
      isSidebarCollapsed := false;
      searchTerm := "";
      selectedTags := [];
      centerTimestamp := now;
    }

    /** `setLocationData` after the fetch, as the source does it: the camera
        cells keep the values their initialisers computed at the first render. */
    method ReceiveDataAsWritten(data: Table)
      modifies this
      ensures locationData == data
      ensures mapCenter == old(mapCenter) && centerRef == old(centerRef) && mapZoom == old(mapZoom)
      ensures centerTimestamp == old(centerTimestamp) && isSidebarCollapsed == old(isSidebarCollapsed)
      ensures searchTerm == old(searchTerm) && selectedTags == old(selectedTags)
    {
      locationData := data;
    }

    /** `setLocationData` after the fetch, with the camera initialised from the
        fetched locations: the midpoint of their box at the fit zoom `fitted`.
        An empty table leaves the fallback camera. */
    method ReceiveData(data: Table, fitted: real)
      modifies this
      ensures locationData == data
      ensures |AllPositions(data)| > 0 ==>
        && mapCenter == InitialCenter(AllPositions(data)) && mapZoom == fitted
        && centerRef == old(centerRef) + 1
      ensures |AllPositions(data)| == 0 ==>
        mapCenter == old(mapCenter) && centerRef == old(centerRef) && mapZoom == old(mapZoom)
      ensures centerTimestamp == old(centerTimestamp) && isSidebarCollapsed == old(isSidebarCollapsed)
      ensures searchTerm == old(searchTerm) && selectedTags == old(selectedTags)
    {
      locationData := data;
      var ps := AllPositions(data);
      if |ps| > 0 {
        mapCenter := InitialCenter(ps);
        centerRef := centerRef + 1;
        mapZoom := InitialZoom(ps, fitted);
      }
    }

    /** `handleLocationSelect`: the camera command of a sidebar row, which
        passes the location's `position` array, of identity `coordinatesRef`.
        The centre cell changes only when that array is not the one stored;
        the zoom becomes 16 and the timestamp the clock reading `now`. */
    method HandleLocationSelect(coordinates: Position, coordinatesRef: nat, now: int)
      modifies this
      ensures centerRef == coordinatesRef
      ensures coordinatesRef != old(centerRef) ==> mapCenter == coordinates
      ensures coordinatesRef == old(centerRef) ==> mapCenter == old(mapCenter)
      ensures mapZoom == DetailZoom && centerTimestamp == now
      ensures locationData == old(locationData) && isSidebarCollapsed == old(isSidebarCollapsed)
      ensures searchTerm == old(searchTerm) && selectedTags == old(selectedTags)
    {
      if coordinatesRef != centerRef {
        mapCenter, centerRef := coordinates, coordinatesRef;
      }
      mapZoom := DetailZoom;
      centerTimestamp := now;
    }

    /** `toggleSidebar`. */
    method ToggleSidebar()
      modifies this
      ensures isSidebarCollapsed == !old(isSidebarCollapsed)
      ensures locationData == old(locationData) && mapCenter == old(mapCenter) && centerRef == old(centerRef)
      ensures mapZoom == old(mapZoom) && centerTimestamp == old(centerTimestamp)
      ensures searchTerm == old(searchTerm) && selectedTags == old(selectedTags)
    {
      isSidebarCollapsed := !isSidebarCollapsed;
    }

    /** `onSearchChange`: the search box, or `''` from its clear button. */
    method SetSearchTerm(term: string)
      modifies this
      ensures searchTerm == term
      ensures locationData == old(locationData) && mapCenter == old(mapCenter) && centerRef == old(centerRef)
      ensures mapZoom == old(mapZoom) && centerTimestamp == old(centerTimestamp)
      ensures isSidebarCollapsed == old(isSidebarCollapsed) && selectedTags == old(selectedTags)
    {
      searchTerm := term;
    }

    /** The sidebar's `handleTagToggle`, through `onTagsChange`. */
    method HandleTagToggle(tag: string)
      modifies this
      ensures selectedTags == Sidebar.ToggleTag(old(selectedTags), tag)
      ensures tag in selectedTags <==> tag !in old(selectedTags)
      ensures locationData == old(locationData) && mapCenter == old(mapCenter) && centerRef == old(centerRef)
      ensures mapZoom == old(mapZoom) && centerTimestamp == old(centerTimestamp)
      ensures isSidebarCollapsed == old(isSidebarCollapsed) && searchTerm == old(searchTerm)
    {
      selectedTags := Sidebar.ToggleTag(selectedTags, tag);
    }

    /** The tag popup's "Clear all": `onTagsChange([])`. */
    method ClearTags()
      modifies this
      ensures selectedTags == []
      ensures locationData == old(locationData) && mapCenter == old(mapCenter) && centerRef == old(centerRef)
      ensures mapZoom == old(mapZoom) && centerTimestamp == old(centerTimestamp)
      ensures isSidebarCollapsed == old(isSidebarCollapsed) && searchTerm == old(searchTerm)
    {
      selectedTags := [];
    }

    /** "Clear all filters": both filters reset, so the filtered table is the
        whole table minus its empty categories. */
    method ClearAllFilters()
      modifies this
      ensures searchTerm == "" && selectedTags == []
      ensures FilterTable(locationData, searchTerm, selectedTags) == DropEmpty(locationData)
      ensures locationData == old(locationData) && mapCenter == old(mapCenter) && centerRef == old(centerRef)
      ensures mapZoom == old(mapZoom) && centerTimestamp == old(centerTimestamp)
      ensures isSidebarCollapsed == old(isSidebarCollapsed)
    {
      searchTerm := "";
      selectedTags := [];
      FilterTableNoFilter(locationData);
    }

    /** One render: the filtered table, the tag catalogue, the markers (every
        filtered location) and the bounds of all locations, next to the
        camera cells. */
    method Render() returns (view: AppView)
      ensures view.filtered == FilterTable(locationData, searchTerm, selectedTags)
      ensures view.allTags == AllTags(locationData)
      ensures view.markers == AllLocations(view.filtered)
      ensures view.initialBounds == InitialBounds(AllPositions(locationData))
      ensures view.center == mapCenter && view.centerRef == centerRef && view.zoom == mapZoom
      ensures view.centerTimestamp == centerTimestamp && view.sidebarCollapsed == isSidebarCollapsed
    {
      var filtered := FilteredLocations(locationData, searchTerm, selectedTags);
      view := AppView(
        filtered, AllTags(locationData), AllLocations(filtered),
        InitialBounds(AllPositions(locationData)),
        mapCenter, centerRef, mapZoom, centerTimestamp, isSidebarCollapsed);
    }
  }

  /** With no category chosen, the sidebar lists exactly the map's markers, in
      the same order; with a chosen category its rows are markers too. */
  lemma SidebarMatchesMarkers(data: Table, term: string, selected: seq<string>, category: string)
    requires UniqueKeys(data)
    ensures var filtered := FilterTable(data, term, selected);
      Sidebar.ListedLocations(filtered, "") == AllLocations(filtered)
    ensures var filtered := FilterTable(data, term, selected);
      forall loc :: loc in Sidebar.ListedLocations(filtered, category) ==> loc in AllLocations(filtered)
  {
    var filtered := FilterTable(data, term, selected);
    FilterTableUniqueKeys(data, term, selected);
    Sidebar.ListedLocationsChoice(filtered, "");
    Sidebar.ListedLocationsChoice(filtered, category);
    if category != "" && category in Keys(filtered) {
      var ls := Lookup(filtered, category).value;
      forall loc | loc in ls ensures loc in AllLocations(filtered) {
        var i :| 0 <= i < |filtered| && filtered[i] == (category, ls);
      }
    }
  }
}
