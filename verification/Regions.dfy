/** The run-length encoding of a recorded trace into contiguous regions. */
module Regions {
  import opened Sorting

  const PAGE: nat := 4096

  type RegionMap = map<nat, nat>

  /** The length in bytes of n pages of p bytes. */
  function Bytes(n: nat, p: nat := 4096): nat {
    p * n
  }

  ghost predicate Aligned(s: seq<nat>) {
    forall i :: 0 <= i < |s| ==> s[i] % 4096 == 0
  }

  /** The offsets of `n` pages in a row, the first at `k`. */
  function Run(k: nat, n: nat, p: nat := 4096): (r: seq<nat>)
    ensures |r| == n && forall i :: 0 <= i < n ==> r[i] == k + Bytes(i, p)
  {
    if n == 0 then [] else Run(k, n - 1, p) + [k + Bytes(n - 1, p)]
  }

  lemma RunHas(k: nat, n: nat, i: nat, p: nat := 4096)
    requires i < n
    ensures k + Bytes(i, p) in Run(k, n, p)
  {
    assert Run(k, n, p)[i] == k + Bytes(i, p);
  }

  lemma BytesSteps(n: nat, p: nat)
    requires n >= 1
    ensures Bytes(0, p) == 0 && Bytes(n, p) == Bytes(n - 1, p) + p
  {
  }

  lemma RunPrevious(k: nat, n: nat, o: nat)
    requires o in Run(k, n)
    ensures o == k || (o >= PAGE && o - PAGE in Run(k, n))
  {
    var i :| 0 <= i < n && Run(k, n)[i] == o;
    if i > 0 { RunHas(k, n, i - 1); }
  }

  /** A map read gives zero for a missing key. */
  function Count(regions: RegionMap, k: nat): nat {
    if k in regions then regions[k] else 0
  }

  /** Reads regions back, in the order of `keys`, as the page offsets they stand for. */
  function Expand(keys: seq<nat>, regions: RegionMap, p: nat := 4096): seq<nat> {
    if keys == [] then []
    else Expand(keys[..|keys| - 1], regions, p) + Run(keys[|keys| - 1], Count(regions, keys[|keys| - 1]), p)
  }

  lemma ExpandSnoc(keys: seq<nat>, k: nat, regions: RegionMap, p: nat := 4096)
    ensures Expand(keys + [k], regions, p) == Expand(keys, regions, p) + Run(k, Count(regions, k), p)
  {
    assert (keys + [k])[..|keys|] == keys;
  }

  /** What a region map stands for: its runs in ascending order of their starts. */
  ghost function Decode(regions: RegionMap, p: nat := 4096): seq<nat> {
    Expand(Listing(regions.Keys), regions, p)
  }

  /** The loop state of the encoder: the last offset seen, the start of the open run, the map. */
  datatype Encoder = Encoder(last: nat, start: nat, regions: RegionMap)

  function EncodeNext(e: Encoder, offset: nat, p: nat := 4096): Encoder {
    if offset != e.last + p then Encoder(offset, offset, e.regions[offset := 1])
    else Encoder(offset, e.start, e.regions[e.start := Count(e.regions, e.start) + 1])
  }

  /** The encoder starts with last and start at zero, whatever the map holds. */
  function Encode(t: seq<nat>, regions: RegionMap, p: nat := 4096): Encoder {
    if t == [] then Encoder(0, 0, regions)
    else EncodeNext(Encode(t[..|t| - 1], regions, p), t[|t| - 1], p)
  }

  lemma {:induction false} ExpandFrame(keys: seq<nat>, r: RegionMap, r': RegionMap, p: nat := 4096)
    requires forall k :: k in keys ==> Count(r, k) == Count(r', k)
    ensures Expand(keys, r, p) == Expand(keys, r', p)
  {
    if keys != [] {
      ExpandFrame(keys[..|keys| - 1], r, r', p);
    }
  }

  lemma {:induction false} ExpandHolds(keys: seq<nat>, r: RegionMap, k: nat)
    requires k in keys && Count(r, k) >= 1
    ensures k in Expand(keys, r)
  {
    hide Run, Expand;
    var n := |keys| - 1;
    assert keys == keys[..n] + [keys[n]];
    ExpandSnoc(keys[..n], keys[n], r);
    if keys[n] == k {
      RunHas(k, Count(r, k), 0);
    } else {
      ExpandHolds(keys[..n], r, k);
    }
  }

  lemma {:induction false} ExpandMembers(keys: seq<nat>, r: RegionMap, o: nat, p: nat := 4096)
    ensures o in Expand(keys, r, p) <==> exists k :: k in keys && o in Run(k, Count(r, k), p)
  {
    if keys != [] {
      var n := |keys| - 1;
      ExpandMembers(keys[..n], r, o, p);
      assert keys == keys[..n] + [keys[n]];
    }
  }

  /** What is true of the encoder after a non-empty prefix of a trace that it can encode. */
  ghost predicate Encodes(e: Encoder, t: seq<nat>, p: nat := 4096)
    requires t != []
  {
    && Decode(e.regions, p) == t
    && e.last == t[|t| - 1]
    && e.start in e.regions
    && (forall k :: k in e.regions ==> e.regions[k] >= 1 && k <= e.start)
    && e.start + Bytes(e.regions[e.start] - 1, p) == e.last
  }

  lemma KeysSnoc(r: RegionMap, m: nat)
    requires m in r && forall k :: k in r ==> k <= m
    ensures Listing(r.Keys) == Listing((r - {m}).Keys) + [m]
  {
    assert r.Keys == (r - {m}).Keys + {m};
    ListingSnoc((r - {m}).Keys, m);
  }

  /** The region with the greatest start is read back last. */
  lemma DecodeSnoc(r: RegionMap, m: nat, p: nat := 4096)
    requires m in r && forall k :: k in r ==> k <= m
    ensures Decode(r, p) == Decode(r - {m}, p) + Run(m, r[m], p)
  {
    hide Listing, Expand;
    var keys := Listing((r - {m}).Keys);
    KeysSnoc(r, m);
    ListingLists((r - {m}).Keys);
    ExpandFrame(keys, r - {m}, r, p);
    ExpandSnoc(keys, m, r, p);
  }

  lemma DecodeEmpty(p: nat := 4096)
    ensures Decode(map[], p) == []
  {
  }

  lemma OneRun(k: nat, p: nat)
    ensures Run(k, 1, p) == [k]
  {
    assert Run(k, 0, p) == [] && Bytes(0, p) == 0;
  }

  lemma OpenRun(e: Encoder, t: seq<nat>, offset: nat, p: nat)
    requires t != [] && Encodes(e, t, p)
    requires offset > e.last && offset != e.last + p
    ensures Encodes(EncodeNext(e, offset, p), t + [offset], p)
  {
    hide Decode, Run;
    var r' := e.regions[offset := 1];
    assert r' - {offset} == e.regions;
    DecodeSnoc(r', offset, p);
    OneRun(offset, p);
  }

  lemma ExtendRun(e: Encoder, t: seq<nat>, p: nat)
    requires t != [] && Encodes(e, t, p)
    ensures Encodes(EncodeNext(e, e.last + p, p), t + [e.last + p], p)
  {
    hide Decode;
    var n := e.regions[e.start];
    var r' := e.regions[e.start := n + 1];
    assert r' - {e.start} == e.regions - {e.start};
    DecodeSnoc(r', e.start, p);
    DecodeSnoc(e.regions, e.start, p);
    assert Bytes(n, p) == Bytes(n - 1, p) + p;
    assert Run(e.start, n + 1, p) == Run(e.start, n, p) + [e.last + p];
  }

  lemma EncodeFirst(t: seq<nat>, p: nat)
    requires |t| == 1 && t[0] != p
    ensures Encode(t, map[], p) == Encoder(t[0], t[0], map[t[0] := 1])
    ensures Encodes(Encode(t, map[], p), t, p)
  {
    hide Decode, Run;
    var r := map[t[0] := 1];
    assert Encode(t[..0], map[], p) == Encoder(0, 0, map[]);
    assert r - {t[0]} == map[];
    DecodeEmpty(p);
    DecodeSnoc(r, t[0], p);
    OneRun(t[0], p);
    assert Bytes(0, p) == 0;
  }

  lemma {:induction false} EncodeInvariant(t: seq<nat>, p: nat)
    requires Ascending(t) && t != [] && t[0] != p
    ensures Encodes(Encode(t, map[], p), t, p)
  {
    hide Encodes;
    var n := |t| - 1;
    if n == 0 {
      EncodeFirst(t, p);
    } else {
      var e := Encode(t[..n], map[], p);
      EncodeInvariant(t[..n], p);
      LastEncoded(e, t[..n], p);
      assert t == t[..n] + [t[n]];
      if t[n] == e.last + p { ExtendRun(e, t[..n], p); } else { OpenRun(e, t[..n], t[n], p); }
    }
  }

  lemma LastEncoded(e: Encoder, t: seq<nat>, p: nat)
    requires t != [] && Encodes(e, t, p)
    ensures e.last == t[|t| - 1]
  {
  }

  /** Round trip: for any page size, an ascending trace that does not start at the second page is read
      back from its regions as it was. */
  lemma RegionsRoundTrip(t: seq<nat>, p: nat := 4096)
    requires Ascending(t) && (t != [] ==> t[0] != p)
    ensures Decode(Encode(t, map[], p).regions, p) == t
    ensures forall k :: k in Encode(t, map[], p).regions ==> Encode(t, map[], p).regions[k] >= 1
  {
    if t == [] { DecodeEmpty(p); } else { EncodeInvariant(t, p); }
  }

  lemma {:induction false} ZeroRegion(t: seq<nat>)
    requires t != [] && t[0] == PAGE
    ensures var r := Encode(t, map[]).regions; 0 in r && forall k :: k in r ==> r[k] >= 1
  {
    assert t[..1] == [PAGE] && Encode(t[..0], map[]) == Encoder(0, 0, map[]);
    if |t| > 1 { ZeroRegion(t[..|t| - 1]); }
  }

  /** The encoder is right exactly when the lowest offset is not the second page: the loop starts
      as if page zero had been seen, so a trace that starts there is charged to a region at zero. */
  lemma RegionsRightIff(t: seq<nat>)
    requires Ascending(t)
    ensures Decode(Encode(t, map[]).regions) == t <==> (t != [] ==> t[0] != PAGE)
  {
    if t != [] && t[0] == PAGE {
      var r := Encode(t, map[]).regions;
      ZeroRegion(t);
      ListingLists(r.Keys);
      ExpandHolds(Listing(r.Keys), r, 0);
      assert 0 !in t;
    } else {
      RegionsRoundTrip(t);
    }
  }

  /** A concrete trace the encoder gets wrong. */
  lemma SecondPageAloneIsMisplaced()
    ensures Encode([PAGE], map[]).regions == map[0 := 1]
  {
    assert Encode([PAGE][..0], map[]) == Encoder(0, 0, map[]);
  }

  ghost predicate Covered(r: RegionMap, o: nat) {
    exists k :: k in r && o in Run(k, r[k])
  }

  lemma CoveredBy(r: RegionMap, o: nat) returns (k: nat)
    requires Covered(r, o)
    ensures k in r && o in Run(k, r[k])
  {
    k :| k in r && o in Run(k, r[k]);
  }

  /** The maximal runs of a set of page offsets: every run lies in the set, every offset lies in a
      run, and no run can be made longer at either end. */
  ghost predicate MaximalRuns(r: RegionMap, offs: set<nat>) {
    && (forall k :: k in r ==> r[k] >= 1)
    && (forall k, o :: k in r && o in Run(k, r[k]) ==> o in offs)
    && (forall o :: o in offs ==> Covered(r, o))
    && (forall k, o :: k in r && o in offs ==> o != k + Bytes(r[k]) && o + PAGE != k)
  }

  lemma MaximalRunsAgree(r: RegionMap, r': RegionMap, offs: set<nat>, k: nat)
    requires MaximalRuns(r, offs) && MaximalRuns(r', offs) && k in r
    ensures k in r' && r'[k] <= r[k]
  {
    hide Run, Covered;
    RunHas(k, r[k], 0);
    assert k + Bytes(0) == k;
    var k' := CoveredBy(r', k);
    RunPrevious(k', r'[k'], k);
    var n' := r'[k'];
    assert k' != k ==> k - PAGE in Run(k', n') && k - PAGE in offs;
    assert r[k] < r'[k] ==> k + Bytes(r[k]) in offs by {
      if r[k] < r'[k] { RunHas(k, r'[k], r[k]); }
    }
  }

  /** A set of offsets has at most one decomposition into maximal runs. */
  lemma MaximalRunsUnique(r: RegionMap, r': RegionMap, offs: set<nat>)
    requires MaximalRuns(r, offs) && MaximalRuns(r', offs)
    ensures r == r'
  {
    forall k | k in r ensures k in r' && r[k] == r'[k] {
      MaximalRunsAgree(r, r', offs, k);
      MaximalRunsAgree(r', r, offs, k);
    }
    forall k | k in r' ensures k in r { MaximalRunsAgree(r', r, offs, k); }
  }

  /** No region can be extended: nothing recorded just before it, nothing just after. */
  ghost predicate Separated(e: Encoder, t: seq<nat>) {
    && (forall k, o :: k in e.regions && o in t ==>
          o + PAGE != k && (k != e.start ==> o != k + Bytes(e.regions[k])))
    && (forall k :: k in e.regions && k != e.start ==> k + Bytes(e.regions[k]) <= e.last)
  }

  lemma AlignedGap(a: nat, b: nat)
    requires a % 4096 == 0 && b % 4096 == 0 && a < b
    ensures a + PAGE <= b
  {
  }

  lemma NextSeparates(e: Encoder, p: seq<nat>, offset: nat)
    requires p != [] && Encodes(e, p) && Separated(e, p)
    requires e.last + PAGE <= offset && forall x :: x in p ==> x <= e.last
    ensures Separated(EncodeNext(e, offset), p + [offset])
  {
    hide Decode;
    assert forall x :: x in p + [offset] <==> x in p || x == offset;
    assert e.last + PAGE == e.start + Bytes(e.regions[e.start]);
  }

  lemma {:induction false} EncodeSeparates(t: seq<nat>)
    requires Ascending(t) && Aligned(t) && t != [] && t[0] != PAGE
    ensures Separated(Encode(t, map[]), t)
  {
    hide Decode;
    var n := |t| - 1;
    if n == 0 {
      EncodeFirst(t, PAGE);
    } else {
      var p := t[..n];
      EncodeInvariant(p, PAGE);
      EncodeSeparates(p);
      AlignedGap(t[n - 1], t[n]);
      assert t == p + [t[n]];
      forall x | x in p ensures x <= t[n - 1] { }
      NextSeparates(Encode(p, map[]), p, t[n]);
    }
  }

  lemma DecodeMembers(r: RegionMap, o: nat)
    ensures o in Decode(r) <==> Covered(r, o)
  {
    ListingLists(r.Keys);
    ExpandMembers(Listing(r.Keys), r, o);
  }

  lemma RegionsSeparated(t: seq<nat>, k: nat, o: nat)
    requires Ascending(t) && Aligned(t) && (t != [] ==> t[0] != PAGE)
    requires k in Encode(t, map[]).regions && o in t
    ensures o != k + Bytes(Encode(t, map[]).regions[k]) && o + PAGE != k
  {
    hide Decode, Encode;
    var e := Encode(t, map[]);
    EncodeInvariant(t, PAGE);
    EncodeSeparates(t);
    assert e.last + PAGE == e.start + Bytes(e.regions[e.start]);
  }

  /** The regions of a recorded trace are the maximal runs of its offsets. */
  lemma RegionsAreMaximalRuns(t: seq<nat>)
    requires Ascending(t) && Aligned(t) && (t != [] ==> t[0] != PAGE)
    ensures MaximalRuns(Encode(t, map[]).regions, Elems(t))
  {
    hide Decode, Run, Encode;
    var r := Encode(t, map[]).regions;
    RegionsRoundTrip(t);
    forall o ensures o in Elems(t) <==> Covered(r, o) { DecodeMembers(r, o); }
    forall k, o | k in r && o in Elems(t) ensures o != k + Bytes(r[k]) && o + PAGE != k {
      RegionsSeparated(t, k, o);
    }
  }

  /** The number of pages in the regions of the given keys. */
  function PageCount(keys: seq<nat>, r: RegionMap): nat {
    if keys == [] then 0 else PageCount(keys[..|keys| - 1], r) + Count(r, keys[|keys| - 1])
  }

  lemma {:induction false} ExpandLength(keys: seq<nat>, r: RegionMap)
    ensures |Expand(keys, r)| == PageCount(keys, r)
  {
    if keys != [] { ExpandLength(keys[..|keys| - 1], r); }
  }

  /** The lengths of the regions add up to the length of the trace. */
  lemma LengthsAddUp(t: seq<nat>)
    requires Ascending(t) && (t != [] ==> t[0] != PAGE)
    ensures PageCount(Listing(Encode(t, map[]).regions.Keys), Encode(t, map[]).regions) == |t|
  {
    hide Encode, Listing, Expand, PageCount;
    RegionsRoundTrip(t);
    ExpandLength(Listing(Encode(t, map[]).regions.Keys), Encode(t, map[]).regions);
  }
}
