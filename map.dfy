/** The map view: the camera commands of `MapUpdater`, and the focus and hover
    state machine of the `Map` component driven by marker, tooltip and map
    events. */
module MapView {
  import opened Locations
  import opened Viewport

  /** The zoom a marker click asks for. */
  const MarkerZoom: real := 16.0

  /** Above this zoom a marker at the requested centre keeps its tooltip. */
  const PinZoomThreshold: real := 14.0

  /** The camera call an updater run makes on the map. */
  datatype Command = FitBounds(box: Box) | FlyTo(center: Position, zoom: real) | NoCommand

  /** The calls of the delayed layout effect: always `invalidateSize`, plus
      `setView` once the initial fit is done. */
  datatype LayoutCommand = InvalidateSize | InvalidateAndSetView(center: Position, zoom: real)

  /** The inputs one run of the updater's effect sees. */
  datatype EffectRun = EffectRun(center: Position, zoom: real, bounds: Option<Box>, timestamp: int)

  /** One run of the updater's effect from the flag `isInitialLoad`: the new
      flag and the command issued. */
  function UpdaterStep(initial: bool, run: EffectRun): (bool, Command) {
    if initial && run.bounds.Some? then (false, FitBounds(run.bounds.value))
    else if run.timestamp != 0 then (initial, FlyTo(run.center, run.zoom))
    else (initial, NoCommand)
  }

  /** The commands of consecutive runs. */
  function RunAll(initial: bool, runs: seq<EffectRun>): (cmds: seq<Command>)
    ensures |cmds| == |runs|
  {
    if runs == [] then []
    else
      var (flag, cmd) := UpdaterStep(initial, runs[0]);
      [cmd] + RunAll(flag, runs[1..])
  }

  /** The flag after consecutive runs. */
  function FlagAfter(initial: bool, runs: seq<EffectRun>): bool {
    if runs == [] then initial else FlagAfter(UpdaterStep(initial, runs[0]).0, runs[1..])
  }

  /** Run `k` is the first one that sees bounds. */
  predicate FirstWithBounds(runs: seq<EffectRun>, k: int) {
    0 <= k < |runs| && runs[k].bounds.Some? && forall j :: 0 <= j < k ==> runs[j].bounds.None?
  }

  /** What a run that does not fit issues. */
  function FlyOrNothing(run: EffectRun): Command {
    if run.timestamp != 0 then FlyTo(run.center, run.zoom) else NoCommand
  }

  /** From the initial flag, run `i` fits the bounds exactly when it is the
      first run with bounds (so at most once); every other run flies to its
      centre when the timestamp is non-zero and issues nothing otherwise. From
      a cleared flag no run fits. */
  lemma {:induction false} RunAllCommands(initial: bool, runs: seq<EffectRun>, i: int)
    requires 0 <= i < |runs|
    ensures RunAll(initial, runs)[i].FitBounds? <==> initial && FirstWithBounds(runs, i)
    ensures initial && FirstWithBounds(runs, i) ==> RunAll(initial, runs)[i] == FitBounds(runs[i].bounds.value)
    ensures !(initial && FirstWithBounds(runs, i)) ==> RunAll(initial, runs)[i] == FlyOrNothing(runs[i])
  {
    var (flag, cmd) := UpdaterStep(initial, runs[0]);
    assert RunAll(initial, runs) == [cmd] + RunAll(flag, runs[1..]);
    if i > 0 {
      RunAllCommands(flag, runs[1..], i - 1);
      assert RunAll(initial, runs)[i] == RunAll(flag, runs[1..])[i - 1];
      if initial && runs[0].bounds.None? {
        assert FirstWithBounds(runs, i) <==> FirstWithBounds(runs[1..], i - 1) by {
          if FirstWithBounds(runs[1..], i - 1) {
            forall j | 0 <= j < i ensures runs[j].bounds.None? {
              if j > 0 { assert runs[j] == runs[1..][j - 1]; }
            }
          }
          if FirstWithBounds(runs, i) {
            forall j | 0 <= j < i - 1 ensures runs[1..][j].bounds.None? {
              assert runs[1..][j] == runs[j + 1];
            }
          }
        }
      } else {
        assert !(initial && FirstWithBounds(runs, i));
      }
    }
  }

  /** `isInitialLoad` is still set after a sequence of runs exactly when none
      of them saw bounds. */
  lemma {:induction false} FlagAfterRuns(runs: seq<EffectRun>)
    ensures FlagAfter(true, runs) <==> forall j :: 0 <= j < |runs| ==> runs[j].bounds.None?
  {
    if runs != [] {
      if runs[0].bounds.None? {
        FlagAfterRuns(runs[1..]);
        assert (forall j :: 0 <= j < |runs| ==> runs[j].bounds.None?) <==>
               (forall j :: 0 <= j < |runs[1..]| ==> runs[1..][j].bounds.None?) by {
          if forall j :: 0 <= j < |runs[1..]| ==> runs[1..][j].bounds.None? {
            forall j | 0 <= j < |runs| ensures runs[j].bounds.None? {
              if j > 0 { assert runs[j] == runs[1..][j - 1]; }
            }
          }
        }
      } else {
        FlagAfterCleared(runs[1..]);
      }
    }
  }

  lemma {:induction false} FlagAfterCleared(runs: seq<EffectRun>)
    ensures !FlagAfter(false, runs)
  {
    if runs != [] {
      FlagAfterCleared(runs[1..]);
    }
  }

  /** The `MapUpdater` component: the `isInitialLoad` flag and its effects. */
  class MapUpdater {
    var isInitialLoad: bool

    constructor ()
      ensures isInitialLoad
    {
      isInitialLoad := true;
    }

    /** One run of the effect on `[center, zoom, initialBounds, isInitialLoad,
        centerTimestamp]`: fit the bounds once, on the first run that has
        them, and otherwise fly to the centre when the timestamp is non-zero. */
    method Run(run: EffectRun) returns (cmd: Command)
      modifies this
      ensures (isInitialLoad, cmd) == UpdaterStep(old(isInitialLoad), run)
    {
      if isInitialLoad && run.bounds.Some? {
        cmd := FitBounds(run.bounds.value);
        isInitialLoad := false;
      } else if run.timestamp != 0 {
        cmd := FlyTo(run.center, run.zoom);
      } else {
        cmd := NoCommand;
      }
    }

    /** The 300 ms timer of the layout effect: resize, and re-apply the
        camera once the initial fit is done. */
    function LayoutTimerFired(center: Position, zoom: real): (c: LayoutCommand)
      reads this
      ensures c.InvalidateAndSetView? <==> !isInitialLoad
      ensures c.InvalidateAndSetView? ==> c.center == center && c.zoom == zoom
    {
      if isInitialLoad then InvalidateSize else InvalidateAndSetView(center, zoom)
    }
  }

  /** The guard of mouse-out and tooltip mouse-leave: the marker sits at the
      centre passed in from the app and the requested zoom is above 14. */
  predicate Pinned(marker: Location, center: Position, zoom: real) {
    marker.position == center && zoom > PinZoomThreshold
  }

  /** Marker ids are unique (they are the React keys of the markers). */
  predicate UniqueIds(markers: seq<Location>) {
    forall i, j :: 0 <= i < j < |markers| ==> markers[i].id != markers[j].id
  }

  /** The markers whose tooltip is rendered: `hoveredMarkerId === marker.id`. */
  function ShownTooltips(markers: seq<Location>, hovered: Option<int>): (r: seq<Location>)
    ensures forall m :: m in r <==> m in markers && hovered == Some(m.id)
  {
    if markers == [] then []
    else
      assert forall m :: m in markers <==> m == markers[0] || m in markers[1..] by {
        assert markers == [markers[0]] + markers[1..];
      }
      (if hovered == Some(markers[0].id) then [markers[0]] else []) + ShownTooltips(markers[1..], hovered)
  }

  lemma TailUniqueIds(markers: seq<Location>)
    requires markers != [] && UniqueIds(markers)
    ensures UniqueIds(markers[1..])
    ensures forall m :: m in markers[1..] ==> m.id != markers[0].id
  {
    forall i, j | 0 <= i < j < |markers[1..]| ensures markers[1..][i].id != markers[1..][j].id {
      assert markers[1..][i] == markers[i + 1] && markers[1..][j] == markers[j + 1];
    }
    forall m | m in markers[1..] ensures m.id != markers[0].id {
      var k :| 0 <= k < |markers[1..]| && markers[1..][k] == m;
      assert markers[k + 1] == m;
    }
  }

  lemma {:induction false} NoTooltipWithoutId(markers: seq<Location>, id: int)
    requires forall m :: m in markers ==> m.id != id
    ensures ShownTooltips(markers, Some(id)) == []
  {
    if markers != [] {
      assert markers[0] in markers;
      assert forall m :: m in markers[1..] ==> m in markers;
      NoTooltipWithoutId(markers[1..], id);
    }
  }

  /** With unique ids at most one tooltip is open, and hovering a marker
      shows exactly that marker's tooltip. */
  lemma {:induction false} AtMostOneTooltip(markers: seq<Location>, hovered: Option<int>)
    requires UniqueIds(markers)
    ensures |ShownTooltips(markers, hovered)| <= 1
    ensures forall m :: m in markers && hovered == Some(m.id) ==> ShownTooltips(markers, hovered) == [m]
  {
    if markers != [] {
      TailUniqueIds(markers);
      AtMostOneTooltip(markers[1..], hovered);
      var rest := ShownTooltips(markers[1..], hovered);
      if hovered == Some(markers[0].id) {
        NoTooltipWithoutId(markers[1..], markers[0].id);
      }
    }
  }

  /** The six tag colours as (background, text) pairs. */
  const RainbowColors: seq<(string, string)> := [
    ("#FFF5F5", "#1A1A1A"), ("#FFFAF0", "#1A1A1A"), ("#FEFFF0", "#1A1A1A"),
    ("#F0FFF4", "#1A1A1A"), ("#F0F7FF", "#1A1A1A"), ("#FAF5FF", "#1A1A1A")]

  /** The colour of the tag at position `index` of a location's tag list:
      the six colours in order, then again from the first. */
  function TagColour(index: nat): (c: (string, string))
    ensures c in RainbowColors
    ensures index < |RainbowColors| ==> c == RainbowColors[index]
  {
    RainbowColors[index % |RainbowColors|]
  }

  /** Neighbouring tags never share a colour, and colours repeat every six tags. */
  lemma TagColourCycle(index: nat)
    ensures TagColour(index) != TagColour(index + 1)
    ensures TagColour(index + |RainbowColors|) == TagColour(index)
  {
    var k := index % 6;
    assert (index + 1) % 6 == if k == 5 then 0 else k + 1;
    assert (index + 6) % 6 == k;
  }

  /** The `Map` component's state. `center` and `zoom` are the props from the
      app, `centerRef` the identity of the centre array the app last passed
      (React compares the array by reference); `mapCenter` and `mapZoom` are
      the component's own camera cells, and `mapCenterRef` the identity of
      the array `mapCenter` holds. */
  class MapState {
    var center: Position
    var centerRef: nat
    var zoom: real
    var markers: seq<Location>
    var mapCenter: Position
    var mapZoom: real
    var mapCenterRef: nat
    var selectedLocation: Option<Location>
    var hoveredMarkerId: Option<int>

    constructor (center: Position, centerRef: nat, zoom: real, markers: seq<Location>)
      ensures this.center == center && this.centerRef == centerRef && this.zoom == zoom
      ensures this.markers == markers
      ensures mapCenter == center && mapZoom == zoom && mapCenterRef == centerRef
      ensures selectedLocation == None && hoveredMarkerId == None
    {
      this.center := center;
      this.centerRef := centerRef;
      this.zoom := zoom;
      this.markers := markers;
      mapCenter := center;
      mapZoom := zoom;
      mapCenterRef := centerRef;
      selectedLocation := None;
      hoveredMarkerId := None;
    }

    /** New props from the app; the effect on `[center, zoom]` copies them
        into the camera cells when the centre array or the zoom changed. */
    method ReceiveProps(newCenter: Position, newCenterRef: nat, newZoom: real, newMarkers: seq<Location>)
      modifies this
      ensures center == newCenter && centerRef == newCenterRef && zoom == newZoom && markers == newMarkers
      ensures old(centerRef) != newCenterRef || old(zoom) != newZoom ==>
        mapCenter == newCenter && mapCenterRef == newCenterRef && mapZoom == newZoom
      ensures old(centerRef) == newCenterRef && old(zoom) == newZoom ==>
        mapCenter == old(mapCenter) && mapCenterRef == old(mapCenterRef) && mapZoom == old(mapZoom)
      ensures selectedLocation == old(selectedLocation) && hoveredMarkerId == old(hoveredMarkerId)
    {
      var changed := centerRef != newCenterRef || zoom != newZoom;
      center, centerRef, zoom, markers := newCenter, newCenterRef, newZoom, newMarkers;
      if changed {
        mapCenter, mapCenterRef, mapZoom := newCenter, newCenterRef, newZoom;
      }
    }

    /** `handleMarkerClick`, called by a marker or its tooltip: centre on the
        location's own `position` array, of identity `locationRef`, at zoom
        16, open its detail panel and keep its tooltip. */
    method HandleMarkerClick(location: Location, locationRef: nat)
      modifies this
      ensures mapCenter == location.position && mapCenterRef == locationRef && mapZoom == MarkerZoom
      ensures selectedLocation == Some(location) && hoveredMarkerId == Some(location.id)
      ensures center == old(center) && centerRef == old(centerRef) && zoom == old(zoom) && markers == old(markers)
    {
      mapCenter, mapCenterRef := location.position, locationRef;
      mapZoom := MarkerZoom;
      selectedLocation := Some(location);
      hoveredMarkerId := Some(location.id);
    }

    /** `handleCloseModal`: close the detail panel; hover and camera stay. */
    method HandleCloseModal()
      modifies this
      ensures selectedLocation == None
      ensures hoveredMarkerId == old(hoveredMarkerId)
      ensures mapCenter == old(mapCenter) && mapCenterRef == old(mapCenterRef) && mapZoom == old(mapZoom)
      ensures center == old(center) && centerRef == old(centerRef) && zoom == old(zoom) && markers == old(markers)
    {
      selectedLocation := None;
    }

    /** `handleMapClick`: a click on the map background closes any tooltip;
        the detail panel stays. */
    method HandleMapClick()
      modifies this
      ensures hoveredMarkerId == None
      ensures selectedLocation == old(selectedLocation)
      ensures mapCenter == old(mapCenter) && mapCenterRef == old(mapCenterRef) && mapZoom == old(mapZoom)
      ensures center == old(center) && centerRef == old(centerRef) && zoom == old(zoom) && markers == old(markers)
    {
      hoveredMarkerId := None;
    }

    /** A marker's `mouseover`: its tooltip opens. */
    method MarkerMouseOver(marker: Location)
      modifies this
      ensures hoveredMarkerId == Some(marker.id)
      ensures selectedLocation == old(selectedLocation)
      ensures mapCenter == old(mapCenter) && mapCenterRef == old(mapCenterRef) && mapZoom == old(mapZoom)
      ensures center == old(center) && centerRef == old(centerRef) && zoom == old(zoom) && markers == old(markers)
    {
      hoveredMarkerId := Some(marker.id);
    }

    /** A marker's `mouseout`: unless the marker is pinned, the tooltip closes
        when its element exists and the pointer is not over it. */
    method MarkerMouseOut(marker: Location, tooltipExists: bool, pointerOnTooltip: bool)
      modifies this
      ensures Pinned(marker, center, zoom) ==> hoveredMarkerId == old(hoveredMarkerId)
      ensures !Pinned(marker, center, zoom) ==>
        hoveredMarkerId == (if tooltipExists && !pointerOnTooltip then None else old(hoveredMarkerId))
      ensures selectedLocation == old(selectedLocation)
      ensures mapCenter == old(mapCenter) && mapCenterRef == old(mapCenterRef) && mapZoom == old(mapZoom)
      ensures center == old(center) && centerRef == old(centerRef) && zoom == old(zoom) && markers == old(markers)
    {
      if !Pinned(marker, center, zoom) {
        if tooltipExists && !pointerOnTooltip {
          hoveredMarkerId := None;
        }
      }
    }

    /** The tooltip's `mouseleave`: unless the marker is pinned, the tooltip closes. */
    method TooltipMouseLeave(marker: Location)
      modifies this
      ensures hoveredMarkerId == (if Pinned(marker, center, zoom) then old(hoveredMarkerId) else None)
      ensures selectedLocation == old(selectedLocation)
      ensures mapCenter == old(mapCenter) && mapCenterRef == old(mapCenterRef) && mapZoom == old(mapZoom)
      ensures center == old(center) && centerRef == old(centerRef) && zoom == old(zoom) && markers == old(markers)
    {
      if !Pinned(marker, center, zoom) {
        hoveredMarkerId := None;
      }
    }
  }
}
