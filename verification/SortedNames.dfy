/**
  Deterministic order for Go maps. Iterating over a map yields its keys in any
  order; the three emitters of tag maps collect the keys and call sort.Strings.
  Here: byte-wise string order, sorting, and the one sorted listing of a key set.
 */
module SortedNames {
  import opened Builder

  /** Go's string order, byte by byte. */
  predicate Le(a: string, b: string) {
    a == "" || (b != "" && (a[0] < b[0] || (a[0] == b[0] && Le(a[1..], b[1..]))))
  }

  /** A text comes before the texts it begins, and otherwise where its first different byte is smaller. */
  lemma {:induction false} OrderInWords(a: string, b: string)
    ensures Le(a, b) <==> a <= b || exists k :: 0 <= k < |a| && k < |b| && a[..k] == b[..k] && a[k] < b[k]
  {
    if a != "" && b != "" {
      OrderInWords(a[1..], b[1..]);
      assert a == [a[0]] + a[1..] && b == [b[0]] + b[1..];
      if a[0] == b[0] {
        assert a <= b <==> a[1..] <= b[1..];
        forall k | 0 <= k < |a| - 1 && k < |b| - 1 ensures a[..k + 1] == b[..k + 1] <==> a[1..][..k] == b[1..][..k] {
          assert a[..k + 1] == [a[0]] + a[1..][..k] && b[..k + 1] == [b[0]] + b[1..][..k];
        }
        FirstDifference(a, b);
      } else if a[0] < b[0] {
        assert a[..0] == b[..0];
      } else {
        assert forall k :: 0 < k < |a| && k < |b| ==> a[..k][0] != b[..k][0];
      }
    }
  }

  lemma FirstDifference(a: string, b: string)
    requires a != "" && b != "" && a[0] == b[0]
    requires forall k :: 0 <= k < |a| - 1 && k < |b| - 1 ==> (a[..k + 1] == b[..k + 1] <==> a[1..][..k] == b[1..][..k])
    ensures (exists k :: 0 <= k < |a| && k < |b| && a[..k] == b[..k] && a[k] < b[k])
       <==> exists k :: 0 <= k < |a[1..]| && k < |b[1..]| && a[1..][..k] == b[1..][..k] && a[1..][k] < b[1..][k]
  {
    if k :| 0 <= k < |a| && k < |b| && a[..k] == b[..k] && a[k] < b[k] {
      assert k > 0 && a[1..][k - 1] == a[k] && b[1..][k - 1] == b[k];
      assert a[1..][..k - 1] == b[1..][..k - 1];
    }
    if k :| 0 <= k < |a[1..]| && k < |b[1..]| && a[1..][..k] == b[1..][..k] && a[1..][k] < b[1..][k] {
      assert a[k + 1] == a[1..][k] && b[k + 1] == b[1..][k] && a[..k + 1] == b[..k + 1];
    }
  }

  lemma {:induction false} LeIsTotal(a: string, b: string)
    ensures Le(a, b) || Le(b, a)
  {
    if a != "" && b != "" && a[0] == b[0] {
      LeIsTotal(a[1..], b[1..]);
    }
  }

  lemma {:induction false} LeIsAntisymmetric(a: string, b: string)
    requires Le(a, b) && Le(b, a)
    ensures a == b
  {
    if a != "" {
      LeIsAntisymmetric(a[1..], b[1..]);
      assert a == [a[0]] + a[1..] && b == [b[0]] + b[1..];
    }
  }

  lemma {:induction false} LeIsTransitive(a: string, b: string, c: string)
    requires Le(a, b) && Le(b, c)
    ensures Le(a, c)
  {
    if a != "" && a[0] == b[0] && b[0] == c[0] {
      LeIsTransitive(a[1..], b[1..], c[1..]);
    }
  }

  ghost predicate Sorted(s: seq<string>) {
    forall i, j :: 0 <= i < j < |s| ==> Le(s[i], s[j])
  }

  ghost predicate Distinct(s: seq<string>) {
    forall i, j :: 0 <= i < j < |s| ==> s[i] != s[j]
  }

  function Elements(s: seq<string>): set<string> { set x | x in s }

  // ------------------------------------------------------------- sort.Strings

  function Insert(x: string, s: seq<string>): seq<string> {
    if s == [] || Le(x, s[0]) then [x] + s else [s[0]] + Insert(x, s[1..])
  }

  function Sort(s: seq<string>): seq<string> {
    if s == [] then [] else Insert(s[0], Sort(s[1..]))
  }

  lemma {:induction false} InsertSorts(x: string, s: seq<string>)
    requires Sorted(s)
    ensures Sorted(Insert(x, s)) && multiset(Insert(x, s)) == multiset(s) + multiset{x}
  {
    if s == [] {
    } else if Le(x, s[0]) {
      forall j | 0 <= j < |s| ensures Le(x, s[j]) {
        if j > 0 {
          LeIsTransitive(x, s[0], s[j]);
        }
      }
    } else {
      var t := s[1..];
      InsertSorts(x, t);
      assert s == [s[0]] + t;
      LeIsTotal(x, s[0]);
      var r := Insert(x, t);
      forall j | 0 <= j < |r| ensures Le(s[0], r[j]) {
        assert r[j] in multiset(r);
        assert r[j] == x || r[j] in t;
      }
    }
  }

  lemma {:induction false} SortSorts(s: seq<string>)
    ensures Sorted(Sort(s)) && multiset(Sort(s)) == multiset(s)
  {
    if s != [] {
      SortSorts(s[1..]);
      InsertSorts(s[0], Sort(s[1..]));
      assert s == [s[0]] + s[1..];
    }
  }

  // --------------------------------------------- the sorted listing of a set

  ghost function Least(keys: set<string>): (least: string)
    requires keys != {}
    ensures least in keys && forall k <- keys :: Le(least, k)
  {
    var k :| k in keys;
    if keys == {k} then
      LeIsTotal(k, k);
      k
    else
      var rest := keys - {k};
      assert keys == rest + {k};
      assert rest != {};
      var m := Least(rest);
      LeIsTotal(k, m);
      LeIsTotal(k, k);
      assert forall x <- rest :: Le(k, m) && Le(m, x) ==> Le(k, x) by {
        forall x <- rest ensures Le(k, m) && Le(m, x) ==> Le(k, x) {
          if Le(k, m) && Le(m, x) {
            LeIsTransitive(k, m, x);
          }
        }
      }
      if Le(k, m) then k else m
  }

  ghost function Listing(keys: set<string>): seq<string> {
    if keys == {} then [] else [Least(keys)] + Listing(keys - {Least(keys)})
  }

  /** A sorted sequence without repetitions is the listing of its elements. */
  lemma {:induction false} SortedIsListing(s: seq<string>)
    requires Sorted(s) && Distinct(s)
    ensures s == Listing(Elements(s))
  {
    if s != [] {
      var t := s[1..];
      assert s == [s[0]] + t;
      var keys := Elements(s);
      assert s[0] in keys;
      var least := Least(keys);
      assert least == s[0] by {
        var i :| 0 <= i < |s| && s[i] == least;
        if i > 0 {
          LeIsAntisymmetric(s[0], least);
        }
      }
      assert Elements(t) == keys - {least};
      SortedIsListing(t);
    }
  }

  ghost predicate Lists(s: seq<string>, keys: set<string>) { Distinct(s) && Elements(s) == keys }

  /** Whatever order the keys were collected in, sorting gives the same sequence. */
  lemma SortingIsDeterministic(s: seq<string>, keys: set<string>)
    requires Lists(s, keys)
    ensures Sort(s) == Listing(keys) && Lists(Sort(s), keys)
  {
    SortSorts(s);
    var r := Sort(s);
    SameElements(r, s);
    SortedIsListing(r);
  }

  lemma SameElements(r: seq<string>, s: seq<string>)
    requires multiset(r) == multiset(s) && Distinct(s)
    ensures Distinct(r) && Elements(r) == Elements(s)
  {
    forall x: string ensures x in r <==> x in s {
      assert x in r <==> x in multiset(r);
      assert x in s <==> x in multiset(s);
    }
    forall i, j | 0 <= i < j < |r| ensures r[i] != r[j] {
      if r[i] == r[j] {
        OccursTwice(r, i, j);
        OccursOnce(s, r[i]);
      }
    }
  }

  lemma OccursTwice<T>(r: seq<T>, i: nat, j: nat)
    requires i < j < |r| && r[i] == r[j]
    ensures multiset(r)[r[i]] >= 2
  {
    assert r == r[..i + 1] + r[i + 1..];
    assert r[i] in r[..i + 1] && r[i] in r[i + 1..] by {
      assert r[..i + 1][i] == r[i] && r[i + 1..][j - i - 1] == r[j];
    }
    assert r[i] in multiset(r[..i + 1]) && r[i] in multiset(r[i + 1..]);
  }

  lemma {:induction false} OccursOnce<T>(s: seq<T>, x: T)
    requires forall i, j :: 0 <= i < j < |s| ==> s[i] != s[j]
    ensures multiset(s)[x] <= 1
  {
    if s != [] {
      OccursOnce(s[1..], x);
      assert s == [s[0]] + s[1..];
      if s[0] == x {
        assert x !in s[1..];
        assert x !in multiset(s[1..]);
      }
    }
  }

  lemma OneMoreName(names: seq<string>, keys: set<string>, name: string)
    requires Lists(names, keys) && name !in keys
    ensures Lists(names + [name], keys + {name})
  {
    assert Elements(names + [name]) == Elements(names) + {name};
    assert name !in names by {
      assert name !in Elements(names);
    }
  }

  /** Collects the keys of a tag map in whatever order the iteration yields them, and sorts. */
  method SortedKeys(tags: map<string, Value>) returns (names: seq<string>)
    ensures names == Listing(tags.Keys) && Lists(names, tags.Keys)
  {
    hide Sort, Listing;
    names := [];
    var left := tags.Keys;
    assert Lists([], {});
    assert tags.Keys - left == {};
    hide Lists;
    while left != {}
      invariant left <= tags.Keys && Lists(names, tags.Keys - left)
      decreases |left|
    {
      var name :| name in left;
      OneMoreName(names, tags.Keys - left, name);
      assert tags.Keys - left + {name} == tags.Keys - (left - {name});
      names := names + [name];
      left := left - {name};
    }
    assert tags.Keys - left == tags.Keys;
    SortingIsDeterministic(names, tags.Keys);
    names := Sort(names);
  }

  /** The values of the listed keys, in the order of the listing. */
  function ValuesOf(tags: map<string, Value>, names: seq<string>): (values: seq<Value>)
    requires forall name <- names :: name in tags
    ensures |values| == |names|
    ensures forall i :: 0 <= i < |names| ==> values[i] == tags[names[i]]
  {
    if names == [] then [] else [tags[names[0]]] + ValuesOf(tags, names[1..])
  }

  lemma ListingMembers(keys: set<string>)
    ensures Lists(Listing(keys), keys) && Sorted(Listing(keys))
    decreases |keys|
  {
    if keys == {} {
      assert Listing(keys) == [];
    } else {
      var least := Least(keys);
      var rest := Listing(keys - {least});
      ListingMembers(keys - {least});
      PrependLeast(least, rest, keys);
    }
  }

  lemma PrependLeast(least: string, rest: seq<string>, keys: set<string>)
    requires least in keys && (forall k <- keys :: Le(least, k))
    requires Lists(rest, keys - {least}) && Sorted(rest)
    ensures Lists([least] + rest, keys) && Sorted([least] + rest)
  {
    var s := [least] + rest;
    forall j | 0 <= j < |rest| ensures rest[j] in keys && rest[j] != least {
      assert rest[j] in Elements(rest);
    }
    assert Elements(s) == {least} + Elements(rest);
  }

  // ------------------------------------------------ names and their variables

  /** Names and values side by side. */
  function Pair(names: seq<string>, values: seq<Value>): map<string, Value>
    requires |names| == |values|
  {
    if names == [] then map[] else Pair(names[1..], values[1..])[names[0] := values[0]]
  }

  function BoundTags(interpolate: bool, tags: map<string, Value>): map<string, Value> {
    map k | k in tags :: Bound(interpolate, tags[k])
  }

  lemma {:induction false} PairKeys(names: seq<string>, values: seq<Value>)
    requires |names| == |values|
    ensures Pair(names, values).Keys == Elements(names)
  {
    if names != [] {
      PairKeys(names[1..], values[1..]);
      assert names == [names[0]] + names[1..];
      assert Elements(names) == {names[0]} + Elements(names[1..]);
    }
  }

  lemma {:induction false} ValueAt(names: seq<string>, values: seq<Value>, i: nat)
    requires |names| == |values| && Distinct(names) && i < |names|
    ensures names[i] in Pair(names, values) && Pair(names, values)[names[i]] == values[i]
  {
    if i > 0 {
      ValueAt(names[1..], values[1..], i - 1);
      assert names[i] != names[0];
    }
  }

  /** The k-th value belongs to the k-th name. */
  lemma PairsUp(names: seq<string>, values: seq<Value>)
    requires |names| == |values| && Distinct(names)
    ensures Pair(names, values).Keys == Elements(names)
    ensures forall i :: 0 <= i < |names| ==>
              names[i] in Pair(names, values) && Pair(names, values)[names[i]] == values[i]
  {
    hide Pair;
    PairKeys(names, values);
    forall i | 0 <= i < |names| ensures names[i] in Pair(names, values) && Pair(names, values)[names[i]] == values[i] {
      ValueAt(names, values, i);
    }
  }

  lemma ValuesPairUp(interpolate: bool, tags: map<string, Value>, names: seq<string>)
    requires Lists(names, tags.Keys) && forall name <- names :: name in tags
    ensures Pair(names, BoundAll(interpolate, ValuesOf(tags, names))) == BoundTags(interpolate, tags)
  {
    assert Distinct(names);
    hide *;
    var pairs := Pair(names, BoundAll(interpolate, ValuesOf(tags, names)));
    PairsUp(names, BoundAll(interpolate, ValuesOf(tags, names)));
    KeysOfTags(interpolate, tags, names);
    forall k | k in tags ensures k in pairs && pairs[k] == Bound(interpolate, tags[k]) {
      PairAt(interpolate, tags, names, k);
    }
    TagsAreEqual(interpolate, tags, pairs);
  }

  lemma TagsAreEqual(interpolate: bool, tags: map<string, Value>, pairs: map<string, Value>)
    requires pairs.Keys == tags.Keys && forall k | k in tags :: k in pairs && pairs[k] == Bound(interpolate, tags[k])
    ensures pairs == BoundTags(interpolate, tags)
  {
    hide Bound;
  }

  lemma KeysOfTags(interpolate: bool, tags: map<string, Value>, names: seq<string>)
    requires Lists(names, tags.Keys)
    ensures Elements(names) == tags.Keys
  {
  }

  lemma PairAt(interpolate: bool, tags: map<string, Value>, names: seq<string>, k: string)
    requires Lists(names, tags.Keys) && (forall name <- names :: name in tags) && k in tags
    ensures Distinct(names)
    ensures var pairs := Pair(names, BoundAll(interpolate, ValuesOf(tags, names)));
            k in pairs && pairs[k] == Bound(interpolate, tags[k])
  {
    hide Pair, Bound, ValuesOf, BoundAll;
    assert k in Elements(names);
    var i :| 0 <= i < |names| && names[i] == k;
    PairsUp(names, BoundAll(interpolate, ValuesOf(tags, names)));
    assert ValuesOf(tags, names)[i] == tags[k];
    assert BoundAll(interpolate, ValuesOf(tags, names))[i] == Bound(interpolate, tags[k]);
  }
}
