/** The filter engine: which locations of the category table survive a search
    term and a list of selected tags (the `filteredLocations` reduce). */
module FilterEngine {
  import opened Seqs
  import opened Text
  import opened Locations

  /** The search test: an empty term matches everything; otherwise the
      lower-cased term must be included in the lower-cased name or in the
      lower-cased description (a missing description never matches). */
  predicate MatchesSearch(location: Location, term: string) {
    || term == ""
    || Includes(Lower(location.name), Lower(term))
    || (location.description.Some? && Includes(Lower(location.description.value), Lower(term)))
  }

  /** The search ignores case: two terms with the same lower-case form
      match the same locations. */
  lemma SearchCaseInsensitive(location: Location, a: string, b: string)
    requires Lower(a) == Lower(b)
    ensures MatchesSearch(location, a) == MatchesSearch(location, b)
  {
    assert |a| == |Lower(a)| == |Lower(b)| == |b|;
  }

  /** `tags.some(tag => selected.includes(tag))`. */
  predicate AnySelected(tags: seq<string>, selected: seq<string>) {
    if tags == [] then false else tags[0] in selected || AnySelected(tags[1..], selected)
  }

  /** The tag test: no selected tag matches everything; otherwise some tag of
      the location must be selected (a location without tags never matches). */
  predicate MatchesTags(location: Location, selected: seq<string>) {
    selected == [] || (location.tags.Some? && AnySelected(location.tags.value, selected))
  }

  /** The callback of `locations.filter`: search AND tags. */
  predicate Keep(location: Location, term: string, selected: seq<string>) {
    MatchesSearch(location, term) && MatchesTags(location, selected)
  }

  /** `locations.filter(Keep)`: the kept locations in their original order. */
  function FilterSeq(ls: seq<Location>, term: string, selected: seq<string>): (r: seq<Location>)
    ensures IsSubseq(r, ls)
    ensures forall loc :: loc in r <==> loc in ls && Keep(loc, term, selected)
  {
    if ls == [] then []
    else
      var rest := FilterSeq(ls[1..], term, selected);
      assert ls == [ls[0]] + ls[1..];
      if Keep(ls[0], term, selected) then
        assert ([ls[0]] + rest)[1..] == rest;
        [ls[0]] + rest
      else
        assert rest != [] ==> rest[0] != ls[0] by {
          if rest != [] { assert rest[0] in rest; }
        }
        rest
  }

  /** The body of the reduce callback: the category enters the accumulator
      only when its filtered list is non-empty. */
  function KeptEntry(category: string, filtered: seq<Location>): Table {
    if |filtered| > 0 then [(category, filtered)] else []
  }

  /** The value of `filteredLocations`: each category filtered, empty
      categories dropped, categories in their input order. */
  function FilterTable(t: Table, term: string, selected: seq<string>): (r: Table)
    ensures forall i :: 0 <= i < |r| ==> |r[i].1| > 0
    ensures |r| <= |t|
  {
    if t == [] then []
    else KeptEntry(t[0].0, FilterSeq(t[0].1, term, selected)) + FilterTable(t[1..], term, selected)
  }

  /** The reduce itself: visits the categories in key order and stores each
      non-empty filtered list in the accumulator. */
  method FilteredLocations(data: Table, term: string, selected: seq<string>) returns (acc: Table)
    ensures acc == FilterTable(data, term, selected)
  {
    acc := [];
    var i := 0;
    while i < |data|
      invariant 0 <= i <= |data|
      invariant acc == FilterTable(data[..i], term, selected)
    {
      var (category, locations) := data[i];
      var filtered := FilterSeq(locations, term, selected);
      if |filtered| > 0 {
        acc := acc + [(category, filtered)];
      }
      assert data[..i + 1] == data[..i] + [data[i]];
      FilterTableConcat(data[..i], [data[i]], term, selected);
      i := i + 1;
    }
    assert data[..|data|] == data;
  }

  /** Filtering distributes over concatenation of tables. */
  lemma {:induction false} FilterTableConcat(a: Table, b: Table, term: string, selected: seq<string>)
    ensures FilterTable(a + b, term, selected) == FilterTable(a, term, selected) + FilterTable(b, term, selected)
  {
    if a == [] {
      assert a + b == b;
    } else {
      assert (a + b)[0] == a[0];
      assert (a + b)[1..] == a[1..] + b;
      FilterTableConcat(a[1..], b, term, selected);
    }
  }

  lemma {:induction false} AnySelectedIff(tags: seq<string>, selected: seq<string>)
    ensures AnySelected(tags, selected) <==> exists t :: t in tags && t in selected
  {
    if tags != [] {
      AnySelectedIff(tags[1..], selected);
      assert tags == [tags[0]] + tags[1..];
    }
  }

  /** The location test spelled out: (empty term, or the term occurs in the
      lower-cased name, or in the lower-cased description) AND (no tag
      selected, or a tag of the location is selected). */
  lemma KeepIff(location: Location, term: string, selected: seq<string>)
    ensures Keep(location, term, selected) <==>
      && (|| term == ""
          || (exists k: nat :: OccursAt(Lower(location.name), Lower(term), k))
          || (location.description.Some? &&
              exists k: nat :: OccursAt(Lower(location.description.value), Lower(term), k)))
      && (selected == [] || exists t :: t in TagsOf(location) && t in selected)
  {
    IncludesIff(Lower(location.name), Lower(term));
    if location.description.Some? {
      IncludesIff(Lower(location.description.value), Lower(term));
    }
    if location.tags.Some? {
      AnySelectedIff(location.tags.value, selected);
    }
  }

  /** A location without tags is excluded as soon as any tag is selected. */
  lemma UntaggedExcluded(location: Location, term: string, selected: seq<string>)
    requires selected != [] && TagsOf(location) == []
    ensures !Keep(location, term, selected)
  {
  }

  /** The empty term and no selected tag keep every location of a list. */
  lemma {:induction false} FilterSeqNoFilter(ls: seq<Location>)
    ensures FilterSeq(ls, "", []) == ls
  {
    if ls != [] {
      FilterSeqNoFilter(ls[1..]);
      assert ls == [ls[0]] + ls[1..];
    }
  }

  /** The table with its empty categories removed. */
  function DropEmpty(t: Table): Table {
    if t == [] then [] else (if |t[0].1| > 0 then [t[0]] else []) + DropEmpty(t[1..])
  }

  /** With no filter active the result is the input minus its empty categories. */
  lemma {:induction false} FilterTableNoFilter(t: Table)
    ensures FilterTable(t, "", []) == DropEmpty(t)
  {
    if t != [] {
      FilterSeqNoFilter(t[0].1);
      FilterTableNoFilter(t[1..]);
    }
  }

  /** A location is in category `c` of the result iff it is in category `c`
      of the input and passes the test: nothing moves between categories. */
  lemma {:induction false} FilterTableMembers(t: Table, term: string, selected: seq<string>, c: string, loc: Location)
    ensures InCategory(FilterTable(t, term, selected), c, loc) <==> InCategory(t, c, loc) && Keep(loc, term, selected)
  {
    if t != [] {
      FilterTableMembers(t[1..], term, selected, c, loc);
      var head := KeptEntry(t[0].0, FilterSeq(t[0].1, term, selected));
      var tail := FilterTable(t[1..], term, selected);
      var r := head + tail;
      if InCategory(r, c, loc) {
        var i :| 0 <= i < |r| && r[i].0 == c && loc in r[i].1;
        if i < |head| {
          assert r[i] == head[i];
          assert InCategory(t, c, loc) by { assert t[0].0 == c && loc in t[0].1; }
        } else {
          assert r[i] == tail[i - |head|];
          assert InCategory(tail, c, loc);
          var j :| 0 <= j < |t[1..]| && t[1..][j].0 == c && loc in t[1..][j].1;
          assert t[j + 1] == t[1..][j];
        }
      }
      if InCategory(t, c, loc) && Keep(loc, term, selected) {
        var j :| 0 <= j < |t| && t[j].0 == c && loc in t[j].1;
        if j == 0 {
          assert r[0] == head[0];
        } else {
          assert t[1..][j - 1] == t[j];
          assert InCategory(t[1..], c, loc);
          var i :| 0 <= i < |tail| && tail[i].0 == c && loc in tail[i].1;
          assert r[i + |head|] == tail[i];
        }
      }
    }
  }

  /** The result's keys are an order-preserving subsequence of the input's keys. */
  lemma {:induction false} FilterTableKeys(t: Table, term: string, selected: seq<string>)
    ensures IsSubseq(Keys(FilterTable(t, term, selected)), Keys(t))
  {
    if t != [] {
      FilterTableKeys(t[1..], term, selected);
      var f := FilterSeq(t[0].1, term, selected);
      var tail := FilterTable(t[1..], term, selected);
      assert Keys(t) == [t[0].0] + Keys(t[1..]);
      if |f| > 0 {
        var r := [(t[0].0, f)] + tail;
        assert Keys(r) == [t[0].0] + Keys(tail) by { assert r[1..] == tail; }
        SubseqCons(Keys(tail), Keys(t[1..]), t[0].0);
      } else {
        assert FilterTable(t, term, selected) == tail;
        SubseqWeaken(Keys(tail), Keys(t[1..]), t[0].0);
      }
    }
  }

  /** `entry` is some input category, of the same name, with its list filtered. */
  predicate FilteredFrom(t: Table, entry: (string, seq<Location>), term: string, selected: seq<string>) {
    exists j :: 0 <= j < |t| && t[j].0 == entry.0 && entry.1 == FilterSeq(t[j].1, term, selected)
  }

  /** Each result category comes from an input category of the same name and
      holds exactly that category's filtered list. */
  lemma {:induction false} FilterTableFromInput(t: Table, term: string, selected: seq<string>)
    ensures forall e :: e in FilterTable(t, term, selected) ==> FilteredFrom(t, e, term, selected)
  {
    if t != [] {
      FilterTableFromInput(t[1..], term, selected);
      var head := KeptEntry(t[0].0, FilterSeq(t[0].1, term, selected));
      var tail := FilterTable(t[1..], term, selected);
      forall e | e in head + tail ensures FilteredFrom(t, e, term, selected) {
        if e in head {
          assert t[0].0 == e.0 && e.1 == FilterSeq(t[0].1, term, selected);
        } else {
          assert FilteredFrom(t[1..], e, term, selected);
          var j :| 0 <= j < |t[1..]| && t[1..][j].0 == e.0 && e.1 == FilterSeq(t[1..][j].1, term, selected);
          assert t[j + 1] == t[1..][j];
        }
      }
    }
  }

  /** The result is again a table: its keys stay unique. */
  lemma FilterTableUniqueKeys(t: Table, term: string, selected: seq<string>)
    requires UniqueKeys(t)
    ensures UniqueKeys(FilterTable(t, term, selected))
  {
    FilterTableKeys(t, term, selected);
    SubseqNoDuplicates(Keys(FilterTable(t, term, selected)), Keys(t));
  }

  /** `some` over a larger selection succeeds whenever it did over a smaller one. */
  lemma KeepTagMonotone(location: Location, term: string, t1: seq<string>, t2: seq<string>)
    requires t1 != [] && forall x :: x in t1 ==> x in t2
    requires Keep(location, term, t1)
    ensures Keep(location, term, t2)
  {
    AnySelectedIff(location.tags.value, t1);
    AnySelectedIff(location.tags.value, t2);
  }

  /** For non-empty T1 within T2, the list kept under T1 is an
      order-preserving subsequence of the list kept under T2. */
  lemma {:induction false} FilterSeqTagMonotone(ls: seq<Location>, term: string, t1: seq<string>, t2: seq<string>)
    requires t1 != [] && forall x :: x in t1 ==> x in t2
    ensures IsSubseq(FilterSeq(ls, term, t1), FilterSeq(ls, term, t2))
  {
    if ls != [] {
      FilterSeqTagMonotone(ls[1..], term, t1, t2);
      var r1 := FilterSeq(ls[1..], term, t1);
      var r2 := FilterSeq(ls[1..], term, t2);
      if Keep(ls[0], term, t1) {
        KeepTagMonotone(ls[0], term, t1, t2);
        SubseqCons(r1, r2, ls[0]);
      } else if Keep(ls[0], term, t2) {
        SubseqWeaken(r1, r2, ls[0]);
      }
    }
  }

  /** For non-empty T1 within T2, every location kept under T1 is kept, in
      the same category, under T2. */
  lemma FilterTableTagMonotone(t: Table, term: string, t1: seq<string>, t2: seq<string>, c: string, loc: Location)
    requires t1 != [] && forall x :: x in t1 ==> x in t2
    requires InCategory(FilterTable(t, term, t1), c, loc)
    ensures InCategory(FilterTable(t, term, t2), c, loc)
  {
    FilterTableMembers(t, term, t1, c, loc);
    KeepTagMonotone(loc, term, t1, t2);
    FilterTableMembers(t, term, t2, c, loc);
  }

  lemma {:induction false} FilterSeqIdempotent(ls: seq<Location>, term: string, selected: seq<string>)
    ensures FilterSeq(FilterSeq(ls, term, selected), term, selected) == FilterSeq(ls, term, selected)
  {
    if ls != [] {
      FilterSeqIdempotent(ls[1..], term, selected);
      var rest := FilterSeq(ls[1..], term, selected);
      if Keep(ls[0], term, selected) {
        var r := [ls[0]] + rest;
        assert r[0] == ls[0] && r[1..] == rest;
      }
    }
  }

  /** Filtering the filtered table again with the same arguments changes nothing. */
  lemma {:induction false} FilterTableIdempotent(t: Table, term: string, selected: seq<string>)
    ensures FilterTable(FilterTable(t, term, selected), term, selected) == FilterTable(t, term, selected)
  {
    if t != [] {
      var f := FilterSeq(t[0].1, term, selected);
      var head := KeptEntry(t[0].0, f);
      var tail := FilterTable(t[1..], term, selected);
      FilterTableConcat(head, tail, term, selected);
      FilterTableIdempotent(t[1..], term, selected);
      if |f| > 0 {
        FilterSeqIdempotent(t[0].1, term, selected);
        assert head[1..] == [];
      }
    }
  }
}
