/** The data model: a location record and the category table it is fetched in. */
module Locations {
  import opened Seqs

  datatype Option<T> = None | Some(value: T)

  /** A `[latitude, longitude]` pair in degrees. */
  datatype Position = Position(lat: real, lng: real)

  /** One point of interest; the optional fields of the record are `Option`s. */
  datatype Location = Location(
    id: int,
    name: string,
    position: Position,
    description: Option<string>,
    website: string,
    tags: Option<seq<string>>,
    image: string,
    address: Option<string>,
    phone: Option<string>,
    email: Option<string>,
    additionalInfo: Option<string>)

  /** The category table `{ [category]: Location[] }` as (name, locations)
      pairs in the object's key order. */
  type Table = seq<(string, seq<Location>)>

  /** `Object.keys`. */
  function Keys(t: Table): (ks: seq<string>)
    ensures |ks| == |t|
    ensures forall i :: 0 <= i < |t| ==> ks[i] == t[i].0
  {
    if t == [] then [] else [t[0].0] + Keys(t[1..])
  }

  /** Object keys are unique. */
  predicate UniqueKeys(t: Table) {
    NoDuplicates(Keys(t))
  }

  /** `table[category]`: the locations under a key, or `None` (undefined). */
  function Lookup(t: Table, category: string): (r: Option<seq<Location>>)
    ensures r.None? <==> category !in Keys(t)
    ensures r.Some? ==> exists i :: 0 <= i < |t| && t[i] == (category, r.value)
  {
    if t == [] then None
    else if t[0].0 == category then Some(t[0].1)
    else
      var r := Lookup(t[1..], category);
      assert r.Some? ==> exists i :: 1 <= i < |t| && t[i] == (category, r.value) by {
        if r.Some? {
          var i :| 0 <= i < |t[1..]| && t[1..][i] == (category, r.value);
          assert t[i + 1] == (category, r.value);
        }
      }
      r
  }

  /** `Object.values(table).flat()`: every location, category by category. */
  function AllLocations(t: Table): (r: seq<Location>)
    ensures forall loc :: loc in r <==> exists i :: 0 <= i < |t| && loc in t[i].1
  {
    if t == [] then []
    else
      var r := t[0].1 + AllLocations(t[1..]);
      assert forall loc :: loc in r <== exists i :: 0 <= i < |t| && loc in t[i].1 by {
        forall loc | exists i :: 0 <= i < |t| && loc in t[i].1 ensures loc in r {
          var i :| 0 <= i < |t| && loc in t[i].1;
          if i > 0 { assert t[1..][i - 1] == t[i]; }
        }
      }
      assert forall loc :: loc in r ==> exists i :: 0 <= i < |t| && loc in t[i].1 by {
        forall loc | loc in r ensures exists i :: 0 <= i < |t| && loc in t[i].1 {
          if loc !in t[0].1 {
            var i :| 0 <= i < |t[1..]| && loc in t[1..][i].1;
            assert t[i + 1] == t[1..][i];
          }
        }
      }
      r
  }

  /** `location` is listed under `category` in `t`. */
  predicate InCategory(t: Table, category: string, location: Location) {
    exists i :: 0 <= i < |t| && t[i].0 == category && location in t[i].1
  }

  /** `location.tags || []`. */
  function TagsOf(location: Location): seq<string> {
    if location.tags.Some? then location.tags.value else []
  }
}
