/** The initial viewport: the bounding box of all locations (`initialBounds`),
    its midpoint (`initialCenter`) and the fallback camera for an empty table. */
module Viewport {
  import opened Locations

  /** The centre used when there is no location (central London). */
  const FallbackCenter: Position := Position(51.5074, -0.1278)

  /** The zoom used when there is no location. */
  const FallbackZoom: real := 13.0

  /** A coordinate, or one of the `Infinity` / `-Infinity` seeds of the reduce. */
  datatype Ext = NegInf | Fin(v: real) | PosInf

  predicate ExtLe(a: Ext, b: Ext) {
    match (a, b)
    case (NegInf, _) => true
    case (_, PosInf) => true
    case (Fin(x), Fin(y)) => x <= y
    case _ => false
  }

  /** `Math.min`. */
  function ExtMin(a: Ext, b: Ext): (r: Ext)
    ensures r == a || r == b
    ensures ExtLe(r, a) && ExtLe(r, b)
  {
    if ExtLe(a, b) then a else b
  }

  /** `Math.max`. */
  function ExtMax(a: Ext, b: Ext): (r: Ext)
    ensures r == a || r == b
    ensures ExtLe(a, r) && ExtLe(b, r)
  {
    if ExtLe(a, b) then b else a
  }

  /** The accumulator of the reduce: four extremes. */
  datatype Bounds = Bounds(minLat: Ext, maxLat: Ext, minLng: Ext, maxLng: Ext)

  /** `{ minLat: Infinity, maxLat: -Infinity, minLng: Infinity, maxLng: -Infinity }`. */
  const Seed: Bounds := Bounds(PosInf, NegInf, PosInf, NegInf)

  /** The reduce callback: widen the extremes to cover one position. */
  function Widen(b: Bounds, p: Position): Bounds {
    Bounds(ExtMin(b.minLat, Fin(p.lat)), ExtMax(b.maxLat, Fin(p.lat)),
           ExtMin(b.minLng, Fin(p.lng)), ExtMax(b.maxLng, Fin(p.lng)))
  }

  predicate AllFinite(b: Bounds) {
    b.minLat.Fin? && b.maxLat.Fin? && b.minLng.Fin? && b.maxLng.Fin?
  }

  /** The reduce over the positions, left to right from the seed; the extremes
      are finite exactly when there is at least one position. */
  function FoldBounds(ps: seq<Position>): (b: Bounds)
    ensures |ps| > 0 <==> AllFinite(b)
    ensures |ps| == 0 ==> b.minLat == PosInf && b.maxLat == NegInf
  {
    if ps == [] then Seed else Widen(FoldBounds(ps[..|ps| - 1]), ps[|ps| - 1])
  }

  /** A finite box, as handed to the map. */
  datatype Box = Box(minLat: real, maxLat: real, minLng: real, maxLng: real)

  predicate Contains(box: Box, p: Position) {
    box.minLat <= p.lat <= box.maxLat && box.minLng <= p.lng <= box.maxLng
  }

  /** Every extreme of the box is the coordinate of one of the positions. */
  predicate Attained(box: Box, ps: seq<Position>) {
    && (exists i :: 0 <= i < |ps| && ps[i].lat == box.minLat)
    && (exists i :: 0 <= i < |ps| && ps[i].lat == box.maxLat)
    && (exists i :: 0 <= i < |ps| && ps[i].lng == box.minLng)
    && (exists i :: 0 <= i < |ps| && ps[i].lng == box.maxLng)
  }

  function BoxOf(b: Bounds): Box
    requires AllFinite(b)
  {
    Box(b.minLat.v, b.maxLat.v, b.minLng.v, b.maxLng.v)
  }

  /** For a non-empty list the folded box contains every position and each of
      its four extremes is attained by some position. */
  lemma {:induction false} FoldBoundsTight(ps: seq<Position>)
    requires |ps| > 0
    ensures var box := BoxOf(FoldBounds(ps));
      (forall i :: 0 <= i < |ps| ==> Contains(box, ps[i])) && Attained(box, ps)
  {
    var init, p := ps[..|ps| - 1], ps[|ps| - 1];
    var box := BoxOf(FoldBounds(ps));
    if |init| == 0 {
      assert init == [] && FoldBounds(init) == Seed;
      assert FoldBounds(ps) == Widen(Seed, p);
      assert box == Box(p.lat, p.lat, p.lng, p.lng);
      assert ps[0] == p;
    } else {
      FoldBoundsTight(init);
      var prev := BoxOf(FoldBounds(init));
      forall i | 0 <= i < |ps| ensures Contains(box, ps[i]) {
        if i < |init| { assert ps[i] == init[i]; }
      }
      assert Attained(box, ps) by {
        var a :| 0 <= a < |init| && init[a].lat == prev.minLat;
        var b :| 0 <= b < |init| && init[b].lat == prev.maxLat;
        var c :| 0 <= c < |init| && init[c].lng == prev.minLng;
        var d :| 0 <= d < |init| && init[d].lng == prev.maxLng;
        assert ps[a] == init[a] && ps[b] == init[b] && ps[c] == init[c] && ps[d] == init[d];
        assert ps[|ps| - 1] == p;
      }
    }
  }

  /** `allLocations.length > 0 ? { ...initialBounds } : undefined`: the box
      exists exactly for a non-empty list, contains every position and is
      as tight as possible. */
  function InitialBounds(ps: seq<Position>): (r: Option<Box>)
    ensures r.Some? <==> |ps| > 0
    ensures r.Some? ==> (forall i :: 0 <= i < |ps| ==> Contains(r.value, ps[i])) && Attained(r.value, ps)
  {
    if |ps| > 0 then
      FoldBoundsTight(ps);
      Some(BoxOf(FoldBounds(ps)))
    else None
  }

  /** `initialCenter`: the per-axis midpoint of the box, which lies inside it;
      the fixed fallback centre when there is no position. */
  function InitialCenter(ps: seq<Position>): (c: Position)
    ensures |ps| == 0 ==> c == FallbackCenter
    ensures |ps| > 0 ==>
      var box := InitialBounds(ps).value;
      && Contains(box, c)
      && c.lat - box.minLat == box.maxLat - c.lat
      && c.lng - box.minLng == box.maxLng - c.lng
  {
    if |ps| > 0 then
      var box := InitialBounds(ps).value;
      assert box.minLat <= ps[0].lat <= box.maxLat && box.minLng <= ps[0].lng <= box.maxLng by {
        assert Contains(box, ps[0]);
      }
      Position((box.minLat + box.maxLat) / 2.0, (box.minLng + box.maxLng) / 2.0)
    else FallbackCenter
  }

  /** `initialZoom`; the floating-point fit heuristic for a non-empty list is
      the parameter `fitted`. */
  function InitialZoom(ps: seq<Position>, fitted: real): (z: real)
    ensures |ps| == 0 ==> z == FallbackZoom
  {
    if |ps| > 0 then fitted else FallbackZoom
  }

  /** The positions of every location of the table, category by category. */
  function AllPositions(t: Table): (ps: seq<Position>)
    ensures |ps| == |AllLocations(t)|
    ensures forall i :: 0 <= i < |ps| ==> ps[i] == AllLocations(t)[i].position
  {
    var ls := AllLocations(t);
    seq(|ls|, i requires 0 <= i < |ls| => ls[i].position)
  }

  /** The positions are exactly those of the locations of some category. */
  lemma AllPositionsMembers(t: Table, p: Position)
    ensures p in AllPositions(t) <==> exists i, loc :: 0 <= i < |t| && loc in t[i].1 && loc.position == p
  {
    var ps, ls := AllPositions(t), AllLocations(t);
    if p in ps {
      var k :| 0 <= k < |ps| && ps[k] == p;
      assert ls[k] in ls;
    }
    if exists i, loc :: 0 <= i < |t| && loc in t[i].1 && loc.position == p {
      var i, loc :| 0 <= i < |t| && loc in t[i].1 && loc.position == p;
      assert loc in ls;
      var k :| 0 <= k < |ls| && ls[k] == loc;
      assert ps[k] == p;
    }
  }
}
