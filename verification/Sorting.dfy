/** The order that the source's sort calls give: strictly ascending sequences, the one
    ascending listing of a finite set, and the sort itself. */
module Sorting {

  predicate Ascending(s: seq<nat>) {
    forall i, j :: 0 <= i < j < |s| ==> s[i] < s[j]
  }

  predicate Distinct<T(==)>(s: seq<T>) {
    forall i, j :: 0 <= i < j < |s| ==> s[i] != s[j]
  }

  ghost function Elems<T>(s: seq<T>): set<T> {
    set x | x in s
  }

  lemma ElemsSnoc<T>(s: seq<T>, x: T)
    ensures Elems(s + [x]) == Elems(s) + {x}
  {
    forall y ensures y in Elems(s + [x]) <==> y in Elems(s) + {x} {
      assert y in s + [x] <==> y in s || y == x;
    }
  }

  function Insert(x: nat, s: seq<nat>): seq<nat> {
    if s == [] then [x]
    else if x <= s[0] then [x] + s
    else [s[0]] + Insert(x, s[1..])
  }

  /** sort.Slice with the less-than order. */
  function Sort(s: seq<nat>): seq<nat> {
    if s == [] then [] else Insert(s[0], Sort(s[1..]))
  }

  predicate NonDecreasing(s: seq<nat>) {
    forall i, j :: 0 <= i < j < |s| ==> s[i] <= s[j]
  }

  lemma {:induction false} InsertKeeps(x: nat, s: seq<nat>)
    ensures multiset(Insert(x, s)) == multiset(s) + multiset{x}
  {
    if s != [] {
      assert s == [s[0]] + s[1..];
      InsertKeeps(x, s[1..]);
    }
  }

  lemma AtLeast(a: nat, s: seq<nat>, x: nat, t: seq<nat>)
    requires multiset(s) == multiset(t) + multiset{x} && a <= x && forall i :: 0 <= i < |t| ==> a <= t[i]
    ensures forall i :: 0 <= i < |s| ==> a <= s[i]
  {
    forall i | 0 <= i < |s| ensures a <= s[i] {
      assert s[i] in multiset(s);
      assert s[i] == x || s[i] in t;
    }
  }

  lemma {:induction false} InsertSorts(x: nat, s: seq<nat>)
    requires NonDecreasing(s)
    ensures NonDecreasing(Insert(x, s))
  {
    if s != [] && s[0] < x {
      InsertSorts(x, s[1..]);
      InsertKeeps(x, s[1..]);
      AtLeast(s[0], Insert(x, s[1..]), x, s[1..]);
    }
  }

  /** The sort returns the same records in non-decreasing order. */
  lemma {:induction false} SortSorts(s: seq<nat>)
    ensures NonDecreasing(Sort(s)) && multiset(Sort(s)) == multiset(s)
  {
    if s != [] {
      SortSorts(s[1..]);
      InsertSorts(s[0], Sort(s[1..]));
      InsertKeeps(s[0], Sort(s[1..]));
      assert s == [s[0]] + s[1..];
    }
  }

  lemma MultisetElems<T>(a: seq<T>, b: seq<T>)
    requires multiset(a) == multiset(b)
    ensures Elems(a) == Elems(b) && |a| == |b|
  {
    forall x ensures x in Elems(a) <==> x in Elems(b) {
      assert x in a <==> x in multiset(a);
      assert x in b <==> x in multiset(b);
    }
    assert |a| == |multiset(a)| && |b| == |multiset(b)|;
  }

  lemma DistinctCounts<T>(s: seq<T>)
    requires Distinct(s)
    ensures forall x :: multiset(s)[x] <= 1
  {
    if s != [] {
      DistinctCounts(s[1..]);
      assert s == [s[0]] + s[1..];
      assert s[0] !in s[1..];
    }
  }

  lemma CountsDistinct<T>(s: seq<T>)
    requires forall x :: multiset(s)[x] <= 1
    ensures Distinct(s)
  {
    forall i, j | 0 <= i < j < |s| ensures s[i] != s[j] {
      assert s == s[..j] + [s[j]] + s[j + 1..];
      assert s[..j][i] in multiset(s[..j]);
      assert multiset(s)[s[i]] >= 1 + multiset{s[j]}[s[i]];
    }
  }

  /** Sorting distinct records gives the strictly ascending listing of the same records. */
  lemma SortDistinct(s: seq<nat>)
    requires Distinct(s)
    ensures Ascending(Sort(s)) && Elems(Sort(s)) == Elems(s) && |Sort(s)| == |s|
  {
    SortSorts(s);
    MultisetElems(Sort(s), s);
    DistinctCounts(s);
    CountsDistinct(Sort(s));
  }

  lemma LargestExists(ks: set<nat>) returns (m: nat)
    requires ks != {}
    ensures m in ks && forall k :: k in ks ==> k <= m
  {
    var x :| x in ks;
    m := x;
    if ks != {x} {
      var top := LargestExists(ks - {x});
      m := if x < top then top else x;
      assert forall k :: k in ks ==> k == x || k in ks - {x};
    }
  }

  ghost function Largest(ks: set<nat>): (m: nat)
    requires ks != {}
    ensures m in ks && forall k :: k in ks ==> k <= m
  {
    assert exists m :: m in ks && forall k :: k in ks ==> k <= m by { var m := LargestExists(ks); }
    var m :| m in ks && forall k :: k in ks ==> k <= m;
    m
  }

  /** The ascending listing of a set of keys. */
  ghost function Listing(ks: set<nat>): seq<nat> {
    if ks == {} then [] else Listing(ks - {Largest(ks)}) + [Largest(ks)]
  }

  lemma {:induction false} ListingMembers(ks: set<nat>, k: nat)
    ensures k in Listing(ks) <==> k in ks
  {
    if ks != {} {
      ListingMembers(ks - {Largest(ks)}, k);
    }
  }

  lemma {:induction false} ListingAscends(ks: set<nat>)
    ensures Ascending(Listing(ks))
  {
    if ks != {} {
      var m := Largest(ks);
      var l := Listing(ks - {m});
      ListingAscends(ks - {m});
      forall i | 0 <= i < |l| ensures l[i] < m {
        ListingMembers(ks - {m}, l[i]);
      }
    }
  }

  lemma ListingLists(ks: set<nat>)
    ensures Ascending(Listing(ks)) && Elems(Listing(ks)) == ks
    ensures forall k :: k in Listing(ks) <==> k in ks
  {
    hide Listing;
    ListingAscends(ks);
    forall k ensures k in Listing(ks) <==> k in ks { ListingMembers(ks, k); }
  }

  /** Two ascending sequences with the same elements are the same sequence. */
  lemma {:induction false} AscendingUnique(a: seq<nat>, b: seq<nat>)
    requires Ascending(a) && Ascending(b) && Elems(a) == Elems(b)
    ensures a == b
    decreases |a|
  {
    if a == [] {
      assert forall i :: 0 <= i < |b| ==> b[i] in Elems(b);
    } else {
      assert a[0] in Elems(a);
      assert b != [];
      var la, lb := a[|a| - 1], b[|b| - 1];
      assert la in Elems(b) && lb in Elems(a);
      assert la == lb;
      var a', b' := a[..|a| - 1], b[..|b| - 1];
      forall x ensures x in Elems(a') <==> x in Elems(b') {
        assert x in Elems(a') <==> x in Elems(a) && x != la;
        assert x in Elems(b') <==> x in Elems(b) && x != lb;
      }
      AscendingUnique(a', b');
    }
  }

  lemma ListingSnoc(ks: set<nat>, m: nat)
    requires forall k :: k in ks ==> k < m
    ensures Listing(ks + {m}) == Listing(ks) + [m]
  {
    ListingLists(ks);
    ListingLists(ks + {m});
    ElemsSnoc(Listing(ks), m);
    AscendingUnique(Listing(ks + {m}), Listing(ks) + [m]);
  }

  /** Collects the keys of a map in whatever order they come and sorts them. */
  method SortedKeys<V>(m: map<nat, V>) returns (keys: seq<nat>)
    ensures keys == Listing(m.Keys)
  {
    keys := [];
    var left := m.Keys;
    while left != {}
      invariant left <= m.Keys && Elems(keys) == m.Keys - left && Distinct(keys)
      decreases left
    {
      var k :| k in left;
      ElemsSnoc(keys, k);
      keys := keys + [k];
      left := left - {k};
    }
    SortDistinct(keys);
    keys := Sort(keys);
    ListingLists(m.Keys);
    AscendingUnique(keys, Listing(m.Keys));
  }
}
