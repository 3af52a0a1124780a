/** The start-up sequence of the application and the selections after it.
    While the fetch is pending `App` shows its loading screen, so the map is
    first mounted by the render that follows the data; the camera commands
    the map receives are listed in the order React runs the effects
    (children first). */
module Startup {
  import opened Locations
  import opened Viewport
  import opened App
  import opened MapView

  /** Command `i` is a fly-to and none comes after it. */
  predicate LastFlyTo(cmds: seq<Command>, i: int) {
    0 <= i < |cmds| && cmds[i].FlyTo? && forall j :: i < j < |cmds| ==> !cmds[j].FlyTo?
  }

  /** The last camera target issued by a sequence of commands, if any. */
  function FinalTarget(cmds: seq<Command>): (r: Option<Position>)
    ensures r.None? <==> forall i :: 0 <= i < |cmds| ==> !cmds[i].FlyTo?
    ensures r.Some? ==> exists i :: LastFlyTo(cmds, i) && cmds[i].center == r.value
  {
    if cmds == [] then None
    else if cmds[|cmds| - 1].FlyTo? then
      assert LastFlyTo(cmds, |cmds| - 1);
      Some(cmds[|cmds| - 1].center)
    else
      var front := cmds[..|cmds| - 1];
      var r := FinalTarget(front);
      assert forall i :: 0 <= i < |front| ==> front[i] == cmds[i];
      assert forall i :: LastFlyTo(front, i) ==> LastFlyTo(cmds, i);
      r
  }

  /** The render after the fetch mounts the map. `MapState` starts from the
      app's camera, so the mount run of its `[center, zoom]` effect stores
      the values its cells already hold and changes nothing. The updater's
      first run fits the bounds when there are any; clearing its flag runs
      it again, and that run flies to the camera. Without bounds the first
      run flies to the camera and the flag stays set. */
  method MountMap(app: AppState) returns (view: MapState, updater: MapUpdater, cmds: seq<Command>)
    requires app.centerTimestamp > 0
    ensures fresh(view) && fresh(updater)
    ensures view.center == app.mapCenter && view.centerRef == app.centerRef && view.zoom == app.mapZoom
    ensures view.markers == AllLocations(FilterEngine.FilterTable(app.locationData, app.searchTerm, app.selectedTags))
    ensures view.mapCenter == app.mapCenter && view.mapZoom == app.mapZoom && view.mapCenterRef == app.centerRef
    ensures view.selectedLocation == None && view.hoveredMarkerId == None
    ensures var b := InitialBounds(AllPositions(app.locationData));
      && (b.Some? ==> cmds == [FitBounds(b.value), FlyTo(app.mapCenter, app.mapZoom)] && !updater.isInitialLoad)
      && (b.None? ==> cmds == [FlyTo(app.mapCenter, app.mapZoom)] && updater.isInitialLoad)
  {
    var v := app.Render();
    view := new MapState(v.center, v.centerRef, v.zoom, v.markers);
    updater := new MapUpdater();
    var first := updater.Run(EffectRun(view.mapCenter, view.mapZoom, v.initialBounds, v.centerTimestamp));
    cmds := [first];
    if v.initialBounds.Some? {
      var again := updater.Run(EffectRun(view.mapCenter, view.mapZoom, v.initialBounds, v.centerTimestamp));
      cmds := cmds + [again];
    }
  }

  /** The start-up sequence as the source writes it. The camera cells of the
      app keep the fallback camera their initialisers gave them at the first
      render, so once the map is mounted the updater's run that follows the
      fit flies back to the fallback centre, and the layout timer sets the
      view there too. */
  method StartupAsWritten(data: Table, now: int) returns (cmds: seq<Command>, layout: LayoutCommand)
    requires now > 0
    ensures var ps := AllPositions(data);
      |ps| > 0 ==>
        && cmds == [FitBounds(InitialBounds(ps).value), FlyTo(FallbackCenter, FallbackZoom)]
        && layout == InvalidateAndSetView(FallbackCenter, FallbackZoom)
    ensures var ps := AllPositions(data);
      |ps| == 0 ==> cmds == [FlyTo(FallbackCenter, FallbackZoom)] && layout == InvalidateSize
  {
    var app := new AppState(now);
    app.ReceiveDataAsWritten(data);
    var view, updater;
    view, updater, cmds := MountMap(app);
    layout := updater.LayoutTimerFired(view.mapCenter, view.mapZoom);
  }

  /** The start-up sequence with the camera initialised from the fetched
      locations: after the fit the map flies to the midpoint of the box at
      the fit zoom, and the layout timer keeps it there. */
  method Startup(data: Table, now: int, fitted: real) returns (cmds: seq<Command>, layout: LayoutCommand)
    requires now > 0
    ensures var ps := AllPositions(data);
      |ps| > 0 ==>
        && cmds == [FitBounds(InitialBounds(ps).value), FlyTo(InitialCenter(ps), fitted)]
        && layout == InvalidateAndSetView(InitialCenter(ps), fitted)
    ensures var ps := AllPositions(data);
      |ps| == 0 ==> cmds == [FlyTo(FallbackCenter, FallbackZoom)] && layout == InvalidateSize
  {
    var app := new AppState(now);
    app.ReceiveData(data, fitted);
    var view, updater;
    view, updater, cmds := MountMap(app);
    layout := updater.LayoutTimerFired(view.mapCenter, view.mapZoom);
  }

  /** After start-up with the camera initialised from the data, the map ends
      inside the fitted box: the last fly-to and the layout timer's view both
      target a point of the box. */
  lemma StartupEndsInBox(data: Table, fitted: real)
    requires |AllPositions(data)| > 0
    ensures var ps := AllPositions(data);
      var cmds := [FitBounds(InitialBounds(ps).value), FlyTo(InitialCenter(ps), fitted)];
      FinalTarget(cmds).Some? && Contains(InitialBounds(ps).value, FinalTarget(cmds).value)
  {
    var ps := AllPositions(data);
    var cmds := [FitBounds(InitialBounds(ps).value), FlyTo(InitialCenter(ps), fitted)];
    assert FinalTarget(cmds) == Some(InitialCenter(ps));
  }

  function ExampleLocation(id: int, name: string, lat: real, lng: real): Location {
    Location(id, name, Position(lat, lng), None, "", None, "", None, None, None, None)
  }

  /** Two locations, at (52.0, 13.0) and (52.1, 13.2). */
  const ExampleTable: Table :=
    [("Bars", [ExampleLocation(1, "A", 52.0, 13.0), ExampleLocation(2, "B", 52.1, 13.2)])]

  lemma ExamplePositions()
    ensures AllPositions(ExampleTable) == [Position(52.0, 13.0), Position(52.1, 13.2)]
  {
    var t := ExampleTable;
    assert t[1..] == [];
    assert AllLocations(t) == t[0].1 + AllLocations(t[1..]);
  }

  /** For the two-location table the box is [52.0, 52.1] x [13.0, 13.2] and
      its midpoint is (52.05, 13.1). */
  lemma ExampleBox()
    ensures InitialBounds(AllPositions(ExampleTable)) == Some(Box(52.0, 52.1, 13.0, 13.2))
    ensures InitialCenter(AllPositions(ExampleTable)) == Position(52.05, 13.1)
  {
    ExamplePositions();
    var ps := AllPositions(ExampleTable);
    var box := InitialBounds(ps).value;
    assert Contains(box, ps[0]) && Contains(box, ps[1]);
  }

  /** As written, start-up with the two-location table ends with the camera
      sent to the fallback centre, which lies outside the fitted box. */
  lemma ExampleAsWrittenLeavesBox()
    ensures var ps := AllPositions(ExampleTable);
      var cmds := [FitBounds(InitialBounds(ps).value), FlyTo(FallbackCenter, FallbackZoom)];
      && |ps| > 0
      && FinalTarget(cmds) == Some(FallbackCenter)
      && !Contains(InitialBounds(ps).value, FallbackCenter)
  {
    ExampleBox();
  }

  /** A sidebar row selection reaching the mounted map; `locationRef` is the
      identity of the location's `position` array, and an array the app
      already holds has that array's position. The app re-renders when one
      of its camera cells changes. Every such render hands the updater a new
      bounds object when there are locations, and maybe a new timestamp, so
      the updater first runs on the camera `MapState` still holds. Then
      `MapState`'s effect passes the new props to its cells when the prop
      array or the zoom changed; when that changes the cells (its array or
      its zoom), the updater runs on them. */
  method Select(app: AppState, view: MapState, updater: MapUpdater, location: Location, locationRef: nat, now: int)
    returns (cmds: seq<Command>)
    modifies app, view, updater
    requires now > 0
    requires locationRef == app.centerRef ==> location.position == app.mapCenter
    requires view.center == app.mapCenter && view.centerRef == app.centerRef && view.zoom == app.mapZoom
    requires updater.isInitialLoad ==> InitialBounds(AllPositions(app.locationData)).None?
    ensures app.centerRef == locationRef && app.mapCenter == location.position
    ensures app.mapZoom == DetailZoom && app.centerTimestamp == now
    ensures app.locationData == old(app.locationData)
    ensures var moved := locationRef != old(app.centerRef) || old(app.mapZoom) != DetailZoom;
      var rendered := moved || now != old(app.centerTimestamp);
      var stale := rendered && (InitialBounds(AllPositions(app.locationData)).Some? || now != old(app.centerTimestamp));
      var cellsMoved := moved && (locationRef != old(view.mapCenterRef) || old(view.mapZoom) != DetailZoom);
      && cmds == (if stale then [FlyTo(old(view.mapCenter), old(view.mapZoom))] else [])
                 + (if cellsMoved then [FlyTo(location.position, DetailZoom)] else [])
      && (moved ==> view.mapCenter == location.position && view.mapCenterRef == locationRef && view.mapZoom == DetailZoom)
      && (!moved ==> view.mapCenter == old(view.mapCenter) && view.mapCenterRef == old(view.mapCenterRef)
                     && view.mapZoom == old(view.mapZoom))
    ensures view.center == app.mapCenter && view.centerRef == app.centerRef && view.zoom == app.mapZoom
    ensures view.selectedLocation == old(view.selectedLocation) && view.hoveredMarkerId == old(view.hoveredMarkerId)
    ensures updater.isInitialLoad == old(updater.isInitialLoad)
  {
    var ref0, zoom0, ts0 := app.centerRef, app.mapZoom, app.centerTimestamp;
    app.HandleLocationSelect(location.position, locationRef, now);
    cmds := [];
    if app.centerRef != ref0 || app.mapZoom != zoom0 || app.centerTimestamp != ts0 {
      var v := app.Render();
      if v.initialBounds.Some? || v.centerTimestamp != ts0 {
        var stale := updater.Run(EffectRun(view.mapCenter, view.mapZoom, v.initialBounds, v.centerTimestamp));
        cmds := [stale];
      }
      var cellRef0, cellZoom0 := view.mapCenterRef, view.mapZoom;
      view.ReceiveProps(v.center, v.centerRef, v.zoom, v.markers);
      if view.mapCenterRef != cellRef0 || view.mapZoom != cellZoom0 {
        var cmd := updater.Run(EffectRun(view.mapCenter, view.mapZoom, v.initialBounds, v.centerTimestamp));
        cmds := cmds + [cmd];
      }
    }
  }

  /** The camera the app holds once the data has arrived (the corrected
      start-up), and the identity of its centre array. */
  function StartCenter(ps: seq<Position>): Position {
    if |ps| > 0 then InitialCenter(ps) else FallbackCenter
  }

  function StartZoom(ps: seq<Position>, fitted: real): real {
    if |ps| > 0 then fitted else FallbackZoom
  }

  function StartRef(ps: seq<Position>): nat {
    if |ps| > 0 then 1 else 0
  }

  /** After start-up, a sidebar row click first lets the updater fly to the
      start-up camera (a new render), then flies the map to the row's
      location at zoom 16, and a marker sitting there keeps its tooltip on
      mouse-out. A row array that were the app's own start-up array (and so
      at its position) would only change the zoom. */
  method SelectAfterStartup(data: Table, now: int, fitted: real, location: Location, locationRef: nat, later: int)
    returns (cmds: seq<Command>, pinned: bool)
    requires now > 0 && later > 0
    requires var ps := AllPositions(data);
      locationRef == StartRef(ps) ==> location.position == StartCenter(ps)
    ensures var ps := AllPositions(data);
      var stale := if |ps| > 0 || later != now then [FlyTo(StartCenter(ps), StartZoom(ps, fitted))] else [];
      locationRef != StartRef(ps) ==>
        cmds == stale + [FlyTo(location.position, DetailZoom)] && pinned
    ensures var ps := AllPositions(data);
      var zoomed := StartZoom(ps, fitted) != DetailZoom;
      var stale := if (zoomed || later != now) && (|ps| > 0 || later != now)
        then [FlyTo(StartCenter(ps), StartZoom(ps, fitted))] else [];
      locationRef == StartRef(ps) ==>
        cmds == stale + (if zoomed then [FlyTo(StartCenter(ps), DetailZoom)] else [])
  {
    var app := new AppState(now);
    app.ReceiveData(data, fitted);
    var view, updater, _ := MountMap(app);
    cmds := Select(app, view, updater, location, locationRef, later);
    pinned := Pinned(location, view.center, view.zoom);
  }

  lemma MemberHasPosition(data: Table, loc: Location)
    requires loc in AllLocations(data)
    ensures |AllPositions(data)| > 0
  {
  }

  /** Selecting row A, clicking marker B, closing its panel and selecting
      row B: the row passes the same array the marker click stored, at the
      same zoom, so `MapState`'s effect leaves its cells alone and only the
      updater's run of the new render flies to B. */
  method SelectClickedMarkerRow(data: Table, now: int, fitted: real, a: Location, aRef: nat, b: Location, bRef: nat, t1: int, t2: int)
    returns (cmds: seq<Command>)
    requires now > 0 && t1 > 0 && t2 > 0
    requires b in AllLocations(data)
    requires var ps := AllPositions(data); aRef == StartRef(ps) ==> a.position == StartCenter(ps)
    requires bRef == aRef ==> b.position == a.position
    ensures bRef != aRef ==> cmds == [FlyTo(b.position, MarkerZoom)]
    ensures bRef == aRef ==> cmds == (if t2 != t1 then [FlyTo(b.position, MarkerZoom)] else [])
  {
    MemberHasPosition(data, b);
    var app := new AppState(now);
    app.ReceiveData(data, fitted);
    var view, updater, _ := MountMap(app);
    var _ := Select(app, view, updater, a, aRef, t1);
    // The updater's run on the marker's cells issues a fly-to and leaves its
    // cleared flag as it is; it is not part of the result.
    view.HandleMarkerClick(b, bRef);
    view.HandleCloseModal();
    cmds := Select(app, view, updater, b, bRef, t2);
  }

  /** As written, selecting a row, clicking another location's marker,
      closing its panel and selecting the same row again leaves the map on
      the marker: the row's array is already stored and the zoom is already
      16, so only the timestamp changes, and the updater flies to the camera
      `MapState` holds, the marker's. With the same clock reading nothing
      changes. */
  method ReselectAfterMarkerClick(data: Table, now: int, fitted: real, a: Location, aRef: nat, b: Location, bRef: nat, t1: int, t2: int)
    returns (cmds: seq<Command>)
    requires now > 0 && t1 > 0 && t2 > 0
    requires b in AllLocations(data)
    requires var ps := AllPositions(data); aRef == StartRef(ps) ==> a.position == StartCenter(ps)
    ensures t2 != t1 ==> cmds == [FlyTo(b.position, MarkerZoom)]
    ensures t2 == t1 ==> cmds == []
  {
    MemberHasPosition(data, b);
    var app := new AppState(now);
    app.ReceiveData(data, fitted);
    var view, updater, _ := MountMap(app);
    var _ := Select(app, view, updater, a, aRef, t1);
    view.HandleMarkerClick(b, bRef);
    view.HandleCloseModal();
    cmds := Select(app, view, updater, a, aRef, t2);
  }

  /** With each selection storing a copy of the row's array (an identity no
      other array has), the second selection moves the cells again: the
      updater's stale run goes to the marker and the next one to the row. */
  method ReselectCopyAfterMarkerClick(data: Table, now: int, fitted: real, a: Location, b: Location, bRef: nat, t1: int, t2: int)
    returns (cmds: seq<Command>)
    requires now > 0 && t1 > 0 && t2 > 0
    requires b in AllLocations(data)
    ensures cmds == [FlyTo(b.position, MarkerZoom), FlyTo(a.position, DetailZoom)]
    ensures FinalTarget(cmds) == Some(a.position)
  {
    MemberHasPosition(data, b);
    var app := new AppState(now);
    app.ReceiveData(data, fitted);
    var view, updater, _ := MountMap(app);
    var _ := Select(app, view, updater, a, app.centerRef + view.mapCenterRef + 1, t1);
    view.HandleMarkerClick(b, bRef);
    view.HandleCloseModal();
    cmds := Select(app, view, updater, a, app.centerRef + view.mapCenterRef + 1, t2);
  }
}
