/** The tag catalogue `allTags`: every tag of every location, de-duplicated
    through a `Set` and sorted with the default comparator. */
module TagCatalogue {
  import opened Seqs
  import opened Text
  import opened Locations

  /** `.flatMap(location => location.tags || [])`. */
  function TagOccurrences(ls: seq<Location>): (r: seq<string>)
    ensures forall x :: x in r <==> exists loc :: loc in ls && x in TagsOf(loc)
  {
    if ls == [] then []
    else
      var r := TagsOf(ls[0]) + TagOccurrences(ls[1..]);
      assert forall loc :: loc in ls <==> loc == ls[0] || loc in ls[1..] by {
        assert ls == [ls[0]] + ls[1..];
      }
      r
  }

  /** `Array.from(new Set(s))`: each element once, at its first occurrence. */
  function Distinct(s: seq<string>): (r: seq<string>)
    ensures NoDuplicates(r)
    ensures forall x :: x in r <==> x in s
  {
    if s == [] then []
    else
      var init := s[..|s| - 1];
      var x := s[|s| - 1];
      assert s == init + [x];
      var r := Distinct(init);
      if x in r then r else r + [x]
  }

  /** `a` sorts no later than `b`. */
  predicate StrLe(a: string, b: string) {
    !StrLt(b, a)
  }

  lemma StrLeTransitive(a: string, b: string, c: string)
    requires StrLe(a, b) && StrLe(b, c)
    ensures StrLe(a, c)
  {
    if StrLt(c, a) {
      if a != b {
        StrLtTotal(a, b);
        StrLtTransitive(c, a, b);
      }
    }
  }

  /** Non-descending in string order. */
  predicate Sorted(s: seq<string>) {
    forall i, j :: 0 <= i < j < |s| ==> StrLe(s[i], s[j])
  }

  /** Strictly ascending in string order: sorted and without duplicates. */
  predicate StrictlyIncreasing(s: seq<string>) {
    forall i, j :: 0 <= i < j < |s| ==> StrLt(s[i], s[j])
  }

  lemma PrependSorted(x: string, s: seq<string>)
    requires Sorted(s)
    requires s != [] ==> StrLe(x, s[0])
    ensures Sorted([x] + s)
  {
    var r := [x] + s;
    forall i, j | 0 <= i < j < |r| ensures StrLe(r[i], r[j]) {
      if i == 0 && j > 1 {
        StrLeTransitive(x, s[0], s[j - 1]);
      }
    }
  }

  /** One step of the sort: `x` placed before the first element not below it. */
  function Insert(x: string, s: seq<string>): (r: seq<string>)
    requires Sorted(s)
    ensures Sorted(r)
    ensures multiset(r) == multiset(s) + multiset{x}
  {
    if s == [] then [x]
    else if StrLe(x, s[0]) then
      PrependSorted(x, s);
      [x] + s
    else
      assert s == [s[0]] + s[1..];
      var rest := Insert(x, s[1..]);
      assert StrLe(s[0], rest[0]) by {
        assert rest[0] in multiset(rest);
        if rest[0] == x {
          StrLtAsymmetric(s[0], x);
        } else {
          assert rest[0] in s[1..];
        }
      }
      PrependSorted(s[0], rest);
      [s[0]] + rest
  }

  lemma TailNoDuplicates(s: seq<string>)
    requires s != [] && NoDuplicates(s)
    ensures NoDuplicates(s[1..]) && s[0] !in s[1..]
  {
    forall i, j | 0 <= i < j < |s[1..]| ensures s[1..][i] != s[1..][j] {
      assert s[1..][i] == s[i + 1] && s[1..][j] == s[j + 1];
    }
  }

  lemma ConsNoDuplicates(x: string, s: seq<string>)
    requires NoDuplicates(s) && x !in s
    ensures NoDuplicates([x] + s)
  {
    var r := [x] + s;
    forall i, j | 0 <= i < j < |r| ensures r[i] != r[j] {
      assert r[j] == s[j - 1];
      if i > 0 { assert r[i] == s[i - 1]; }
    }
  }

  /** Inserting a new element into a duplicate-free list keeps it duplicate-free. */
  lemma {:induction false} InsertNoDuplicates(x: string, s: seq<string>)
    requires Sorted(s) && NoDuplicates(s) && x !in s
    ensures NoDuplicates(Insert(x, s))
  {
    if s == [] {
    } else if StrLe(x, s[0]) {
      ConsNoDuplicates(x, s);
    } else {
      assert s == [s[0]] + s[1..];
      TailNoDuplicates(s);
      InsertNoDuplicates(x, s[1..]);
      var rest := Insert(x, s[1..]);
      assert s[0] !in multiset(s[1..]) + multiset{x};
      assert s[0] !in multiset(rest);
      ConsNoDuplicates(s[0], rest);
    }
  }

  /** The default `Array.prototype.sort`, as an insertion sort. */
  function Sort(s: seq<string>): (r: seq<string>)
    ensures Sorted(r)
    ensures multiset(r) == multiset(s)
  {
    if s == [] then []
    else
      assert s == [s[0]] + s[1..];
      Insert(s[0], Sort(s[1..]))
  }

  /** Sorting a duplicate-free list leaves it duplicate-free. */
  lemma {:induction false} SortNoDuplicates(s: seq<string>)
    requires NoDuplicates(s)
    ensures NoDuplicates(Sort(s))
  {
    if s != [] {
      TailNoDuplicates(s);
      SortNoDuplicates(s[1..]);
      var rest := Sort(s[1..]);
      assert s[0] !in multiset(s[1..]);
      assert s[0] !in multiset(rest);
      InsertNoDuplicates(s[0], rest);
    }
  }

  /** `allTags`. */
  function AllTags(t: Table): seq<string> {
    Sort(Distinct(TagOccurrences(AllLocations(t))))
  }

  /** A sorted sequence without duplicates is strictly increasing. */
  lemma SortedDistinctIncreasing(s: seq<string>)
    requires Sorted(s) && NoDuplicates(s)
    ensures StrictlyIncreasing(s)
  {
    forall i, j | 0 <= i < j < |s| ensures StrLt(s[i], s[j]) {
      StrLtTotal(s[i], s[j]);
    }
  }

  /** `allTags` is strictly increasing (so it has no duplicates), and a string
      is in it iff it is a tag of some location in some category. */
  lemma AllTagsCatalogue(t: Table)
    ensures StrictlyIncreasing(AllTags(t))
    ensures forall x :: x in AllTags(t) <==>
      exists i, loc :: 0 <= i < |t| && loc in t[i].1 && x in TagsOf(loc)
  {
    var d := Distinct(TagOccurrences(AllLocations(t)));
    SortNoDuplicates(d);
    SortedDistinctIncreasing(Sort(d));
    forall x ensures x in AllTags(t) <==> x in d {
      assert x in AllTags(t) <==> x in multiset(Sort(d));
    }
  }

  lemma SameMembersEmpty(a: seq<string>, b: seq<string>)
    requires forall x :: x in a <==> x in b
    ensures a == [] <==> b == []
  {
    if a != [] { assert a[0] in b; }
    if b != [] { assert b[0] in a; }
  }

  /** Two strictly increasing sequences with the same elements are equal, so
      `allTags` does not depend on which sorting algorithm the engine uses. */
  lemma {:induction false} IncreasingUnique(a: seq<string>, b: seq<string>)
    requires StrictlyIncreasing(a) && StrictlyIncreasing(b)
    requires forall x :: x in a <==> x in b
    ensures a == b
  {
    SameMembersEmpty(a, b);
    if a != [] {
      assert a[0] == b[0] by {
        if a[0] != b[0] {
          assert a[0] in b && b[0] in a;
          var i :| 0 <= i < |a| && a[i] == b[0];
          var j :| 0 <= j < |b| && b[j] == a[0];
          StrLtAsymmetric(a[0], a[i]);
        }
      }
      forall x ensures x in a[1..] <==> x in b[1..] {
        if x in a[1..] {
          var i :| 0 <= i < |a[1..]| && a[1..][i] == x;
          assert StrLt(a[0], a[i + 1]);
          StrLtIrreflexive(x);
          assert x in b;
          var j :| 0 <= j < |b| && b[j] == x;
          assert j > 0;
          assert b[1..][j - 1] == x;
        }
        if x in b[1..] {
          var j :| 0 <= j < |b[1..]| && b[1..][j] == x;
          assert StrLt(b[0], b[j + 1]);
          StrLtIrreflexive(x);
          assert x in a;
          var i :| 0 <= i < |a| && a[i] == x;
          assert i > 0;
          assert a[1..][i - 1] == x;
        }
      }
      assert StrictlyIncreasing(a[1..]) by {
        forall i, j | 0 <= i < j < |a[1..]| ensures StrLt(a[1..][i], a[1..][j]) {
          assert a[1..][i] == a[i + 1] && a[1..][j] == a[j + 1];
        }
      }
      assert StrictlyIncreasing(b[1..]) by {
        forall i, j | 0 <= i < j < |b[1..]| ensures StrLt(b[1..][i], b[1..][j]) {
          assert b[1..][i] == b[i + 1] && b[1..][j] == b[j + 1];
        }
      }
      IncreasingUnique(a[1..], b[1..]);
      assert a == [a[0]] + a[1..] && b == [b[0]] + b[1..];
    }
  }
}
