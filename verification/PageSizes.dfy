/** Replay on a machine whose page size is not 4096: the writer of the working set and the kernel use
    the machine's page size, the place in the buffer advances by 4096. */
module PageSizes {
  import opened Arithmetic
  import opened Options
  import opened Sorting
  import opened Regions
  import opened WorkingSet
  import opened Traces

  /** The bytes of the regions, one after the other, counted in pages of p bytes. */
  function Position(keys: seq<nat>, r: RegionMap, p: nat): nat {
    if keys == [] then 0 else Position(keys[..|keys| - 1], r, p) + Bytes(Count(r, keys[|keys| - 1]), p)
  }

  /** The file is written with the machine's page size. */
  lemma {:induction false} FilePosition(mem: seq<Byte>, keys: seq<nat>, r: RegionMap, p: nat)
    requires Compact(mem, keys, r, p).Some?
    ensures |Compact(mem, keys, r, p).value| == Position(keys, r, p)
  {
    if keys != [] { FilePosition(mem, keys[..|keys| - 1], r, p); }
  }

  /** The buffer is read with pages of 4096 bytes. */
  lemma {:induction false} BufferPosition(u: Uffd, ws: seq<Byte>, keys: seq<nat>, r: RegionMap, start: nat, p: nat)
    requires p >= 1 && InstallAll(u, ws, keys, r, start, p).Some?
    ensures InstallAll(u, ws, keys, r, start, p).value.srcOffset == Position(keys, r, 4096)
  {
    hide InstallRegion;
    if keys != [] { BufferPosition(u, ws, keys[..|keys| - 1], r, start, p); }
  }

  // ----- page by page -----

  lemma PagesGrow(i: nat, n: nat, p: nat)
    requires i < n
    ensures Bytes(i, p) + p <= Bytes(n, p)
  {
    assert p * n == p * i + p + p * (n - i - 1);
  }

  lemma {:induction false} CopyInHas(pages: map<nat, Page>, src: seq<Byte>, dst: nat, n: nat, p: nat, i: nat)
    requires p >= 1 && i < n
    ensures var q := CopyIn(pages, src, dst, n, p);
      dst + Bytes(i, p) in q && q[dst + Bytes(i, p)] == PageAt(src, Bytes(i, p), p)
  {
    hide Bytes, PageAt;
    if i < n - 1 {
      CopyInHas(pages, src, dst, n - 1, p, i);
      PagesGrow(i, n - 1, p);
    }
  }

  lemma {:induction false} CopyInOnly(pages: map<nat, Page>, src: seq<Byte>, dst: nat, n: nat, p: nat, a: nat)
    requires a !in Run(dst, n, p)
    ensures var q := CopyIn(pages, src, dst, n, p); (a in q <==> a in pages) && (a in pages ==> q[a] == pages[a])
  {
    hide Bytes, PageAt;
    if n > 0 { CopyInOnly(pages, src, dst, n - 1, p, a); }
  }

  /** A page once installed is not installed again. */
  lemma InstallNextKeeps(q: Progress, ws: seq<Byte>, k: nat, n: nat, start: nat, p: nat, a: nat)
    requires p >= 1 && InstallNext(q, ws, k, n, start, p).Some? && a in q.uffd.pages
    ensures var u := InstallNext(q, ws, k, n, start, p).value.uffd;
      a in u.pages && u.pages[a] == q.uffd.pages[a]
  {
    hide CopyIn, Run, Bytes;
    CopyInOnly(q.uffd.pages, ws[q.srcOffset..], Wrap(start + k), n, p, a);
  }

  lemma {:induction false} InstallAllKeeps(u: Uffd, ws: seq<Byte>, keys: seq<nat>, r: RegionMap, start: nat, p: nat, i: nat, a: nat)
    requires p >= 1 && i <= |keys| && InstallAll(u, ws, keys, r, start, p).Some?
    ensures InstallAll(u, ws, keys[..i], r, start, p).Some?
    ensures var q := InstallAll(u, ws, keys[..i], r, start, p).value.uffd;
      var q' := InstallAll(u, ws, keys, r, start, p).value.uffd;
      a in q.pages ==> a in q'.pages && q'.pages[a] == q.pages[a]
    decreases |keys|
  {
    hide InstallNext;
    if i == |keys| {
      assert keys[..i] == keys;
    } else {
      var n := |keys| - 1;
      InstallAllKeeps(u, ws, keys[..n], r, start, p, i, a);
      assert keys[..n][..i] == keys[..i];
      var q := InstallAll(u, ws, keys[..n], r, start, p).value;
      if a in q.uffd.pages { InstallNextKeeps(q, ws, keys[n], Count(r, keys[n]), start, p, a); }
    }
  }

  // ----- what is replayed -----

  /** What recording leaves behind on a machine with pages of p bytes. */
  ghost predicate RecordedBy(size: nat, t: seq<nat>, p: nat)
    requires p >= 1
  {
    && Distinct(t)
    && (forall o :: o in t ==> o % p == 0 && o + p <= size)
    && (t != [] ==> 0 in t)
  }

  ghost function RegionsOf(t: seq<nat>, p: nat): RegionMap { Encode(Sort(t), map[], p).regions }

  ghost function Keys(t: seq<nat>, p: nat): seq<nat> { Listing(RegionsOf(t, p).Keys) }

  /** Recorded, compacted and installed, every recorded page shows what guest memory has there. */
  ghost predicate Replayed(u: Uffd, mem: seq<Byte>, start: nat, t: seq<nat>, p: nat)
    requires p >= 1
  {
    var keys, r := Keys(t, p), RegionsOf(t, p);
    var file := Compact(mem, keys, r, p);
    && file.Some?
    && var q := InstallAll(u, file.value, keys, r, start, p);
       && q.Some?
       && forall o :: o in t ==> start + o in q.value.uffd.pages && q.value.uffd.pages[start + o] == PageAt(mem, o, p)
  }

  /** What the regions of a recording are like. */
  ghost predicate WellPlaced(size: nat, t: seq<nat>, p: nat, keys: seq<nat>, r: RegionMap)
    requires p >= 1
  {
    && Ascending(keys)
    && (forall i :: 0 <= i < |keys| ==> Count(r, keys[i]) >= 1 && keys[i] + Bytes(Count(r, keys[i]), p) <= size)
    && (forall i :: 0 <= i < |keys| ==> keys[i] in t && keys[i] % p == 0)
    && (keys != [] ==> keys[0] == 0)
    && (|keys| >= 2 ==> Bytes(Count(r, keys[0]), p) <= keys[1])
    && (|keys| <= 1 ==> forall o :: o in t ==> |keys| == 1 && o in Run(0, Count(r, 0), p))
  }

  lemma {:induction false} ExpandPrefix(keys: seq<nat>, r: RegionMap, p: nat, i: nat)
    requires i <= |keys|
    ensures Expand(keys[..i], r, p) <= Expand(keys, r, p)
    decreases |keys|
  {
    hide Run;
    if i == |keys| {
      assert keys[..i] == keys;
    } else {
      ExpandPrefix(keys[..|keys| - 1], r, p, i);
      assert keys[..|keys| - 1][..i] == keys[..i];
    }
  }

  lemma MultipleGap(a: nat, b: nat, p: nat)
    requires p >= 1 && a % p == 0 && b % p == 0 && a < b
    ensures a + p <= b
  {
    assert a == p * (a / p) && b == p * (b / p);
    if a / p >= b / p {
      MulGrows(b / p, a / p, p);
      assert false;
    }
    MulGrows(a / p + 1, b / p, p);
  }

  lemma SortedRecording(size: nat, t: seq<nat>, p: nat)
    requires p >= 1 && RecordedBy(size, t, p)
    ensures Ascending(Sort(t)) && (forall o :: o in Sort(t) <==> o in t)
    ensures Sort(t) != [] ==> Sort(t)[0] == 0
  {
    hide Sort;
    SortDistinct(t);
    var s := Sort(t);
    assert forall o :: o in s <==> o in Elems(s);
    assert forall o :: o in t <==> o in Elems(t);
    if s != [] {
      assert s[0] in t;
      var i :| 0 <= i < |s| && s[i] == 0;
    }
  }

  lemma OfRecording(size: nat, t: seq<nat>, p: nat)
    requires p >= 1 && RecordedBy(size, t, p)
    ensures Ascending(Keys(t, p)) && Expand(Keys(t, p), RegionsOf(t, p), p) == Sort(t)
    ensures forall k :: k in Keys(t, p) ==> Count(RegionsOf(t, p), k) >= 1
  {
    hide Encode, Sort, Listing, Expand;
    SortedRecording(size, t, p);
    RegionsRoundTrip(Sort(t), p);
    ListingLists(RegionsOf(t, p).Keys);
  }

  lemma RegionInside(size: nat, t: seq<nat>, p: nat, keys: seq<nat>, r: RegionMap, k: nat)
    requires p >= 1 && RecordedBy(size, t, p) && k in keys && Count(r, k) >= 1
    requires forall o :: o in Expand(keys, r, p) <==> o in t
    ensures k in t && k % p == 0 && k + Bytes(Count(r, k), p) <= size
  {
    hide Expand, Run, Bytes;
    var n := Count(r, k);
    BytesSteps(n, p);
    RunHas(k, n, 0, p);
    RunHas(k, n, n - 1, p);
    ExpandMembers(keys, r, k, p);
    ExpandMembers(keys, r, k + Bytes(n - 1, p), p);
  }

  lemma FirstAtZero(t: seq<nat>, p: nat, keys: seq<nat>, r: RegionMap)
    requires keys != [] && Ascending(keys) && keys[0] in t && 0 in t
    requires forall o :: o in Expand(keys, r, p) <==> o in t
    ensures keys[0] == 0
  {
    hide Expand;
    ExpandMembers(keys, r, 0, p);
    var k :| k in keys && 0 in Run(k, Count(r, k), p);
    var i :| 0 <= i < Count(r, k) && Run(k, Count(r, k), p)[i] == 0;
    assert k == 0;
  }

  lemma RunEnds(k: nat, n: nat, p: nat)
    requires n >= 1
    ensures |Run(k, n, p)| == n && Run(k, n, p)[0] == k && Run(k, n, p)[n - 1] == k + Bytes(n - 1, p)
  {
    BytesSteps(n, p);
  }

  lemma MeetingPoint(a: seq<nat>, b: seq<nat>, e: seq<nat>)
    requires a != [] && b != [] && a + b <= e && Ascending(e)
    ensures a[|a| - 1] in e && b[0] in e && a[|a| - 1] < b[0]
  {
    var i := |a| - 1;
    assert (a + b)[i] == a[i] && (a + b)[i + 1] == b[0];
    assert e[i] == a[i] && e[i + 1] == b[0];
  }

  lemma SecondAfterFirst(size: nat, t: seq<nat>, p: nat, keys: seq<nat>, r: RegionMap)
    requires p >= 1 && RecordedBy(size, t, p)
    requires |keys| >= 2 && keys[0] == 0 && Count(r, 0) >= 1 && Count(r, keys[1]) >= 1
    requires Ascending(Expand(keys, r, p)) && forall o :: o in Expand(keys, r, p) <==> o in t
    ensures Bytes(Count(r, 0), p) <= keys[1]
  {
    hide Expand, Run, Bytes, Ascending;
    var n, k := Count(r, 0), keys[1];
    ExpandPrefix(keys, r, p, 2);
    FirstTwo(keys, r, p);
    RunEnds(0, n, p);
    RunEnds(k, Count(r, k), p);
    MeetingPoint(Run(0, n, p), Run(k, Count(r, k), p), Expand(keys, r, p));
    MultipleGap(Bytes(n - 1, p), k, p);
    BytesSteps(n, p);
  }

  lemma FirstTwo(keys: seq<nat>, r: RegionMap, p: nat)
    requires |keys| >= 2
    ensures Expand(keys[..2], r, p) == Run(keys[0], Count(r, keys[0]), p) + Run(keys[1], Count(r, keys[1]), p)
  {
    hide Run;
    assert keys[..2][..1] == keys[..1] && keys[..1][..0] == [];
    assert Expand(keys[..1], r, p) == Run(keys[0], Count(r, keys[0]), p);
  }

  lemma RecordingWellPlaced(size: nat, t: seq<nat>, p: nat)
    requires p >= 1 && RecordedBy(size, t, p)
    ensures WellPlaced(size, t, p, Keys(t, p), RegionsOf(t, p))
  {
    hide RegionsOf, Keys, Expand, Sort, Run;
    var keys, r := Keys(t, p), RegionsOf(t, p);
    OfRecording(size, t, p);
    SortedRecording(size, t, p);
    forall i | 0 <= i < |keys|
      ensures Count(r, keys[i]) >= 1 && keys[i] + Bytes(Count(r, keys[i]), p) <= size && keys[i] in t && keys[i] % p == 0
    {
      RegionInside(size, t, p, keys, r, keys[i]);
    }
    if keys != [] { FirstAtZero(t, p, keys, r); }
    if |keys| >= 2 { SecondAfterFirst(size, t, p, keys, r); }
    if |keys| <= 1 {
      forall o | o in t ensures |keys| == 1 && o in Run(0, Count(r, 0), p) { ExpandMembers(keys, r, o, p); }
    }
  }

  /** The guest's range: aligned, registered, inside the address space, and nothing present yet. */
  ghost predicate Room(u: Uffd, start: nat, size: nat, p: nat)
    requires p >= 1
  {
    u.pages == map[] && start % p == 0 && u.base <= start && start + size <= u.base + u.size <= WORD
  }

  lemma ReplayedBy4096(u: Uffd, mem: seq<Byte>, start: nat, t: seq<nat>)
    requires RecordedBy(|mem|, t, 4096) && Room(u, start, |mem|, 4096)
    ensures Replayed(u, mem, start, t, 4096)
  {
    hide Encode, Sort, Listing, InstallAll, Compact, Pages, PutPages, PageAt;
    forall i | 0 <= i < |t| ensures t[i] % 4096 == 0 && t[i] + PAGE <= |mem| { assert t[i] in t; }
    assert Recorded(mem, t);
    CompactedFile(mem, t);
    ReplayInstallsRecordedPages(u, mem, start, t);
    forall o | o in t ensures Among(start, t, start + o) {}
  }

  lemma CompactOne(mem: seq<Byte>, r: RegionMap, p: nat)
    requires Bytes(Count(r, 0), p) <= |mem|
    ensures Compact(mem, [0], r, p) == Some(mem[..Bytes(Count(r, 0), p)])
  {
    hide Bytes;
    assert [0][..0] == [];
    assert Compact(mem, [], r, p) == Some([]);
    assert [] + mem[0..Bytes(Count(r, 0), p)] == mem[..Bytes(Count(r, 0), p)];
  }

  lemma InstallOne(u: Uffd, ws: seq<Byte>, r: RegionMap, start: nat, p: nat)
    requires p >= 1 && Count(r, 0) >= 1 && |ws| == Bytes(Count(r, 0), p) && Room(u, start, |ws|, p)
    ensures InstallAll(u, ws, [0], r, start, p).Some?
    ensures InstallAll(u, ws, [0], r, start, p).value.uffd.pages == CopyIn(map[], ws, start, Count(r, 0), p)
  {
    hide CopyIn, Run;
    assert [0][..0] == [];
    assert InstallAll(u, ws, [], r, start, p) == Some(Progress(u, 0));
    assert ws[0..] == ws;
    PagesGrow(0, Count(r, 0), p);
    WrapSmall(start);
  }

  lemma PageOfPrefix(mem: seq<Byte>, m: nat, o: nat, p: nat)
    requires o + p <= m <= |mem|
    ensures PageAt(mem[..m], o, p) == PageAt(mem, o, p)
  {
  }

  lemma OneRegionReplayed(u: Uffd, mem: seq<Byte>, start: nat, t: seq<nat>, p: nat)
    requires p >= 1 && RecordedBy(|mem|, t, p) && Room(u, start, |mem|, p) && |Keys(t, p)| <= 1
    ensures Replayed(u, mem, start, t, p)
  {
    hide RegionsOf, Keys, InstallAll, Compact, CopyIn, Run, PageAt, Bytes;
    var keys, r := Keys(t, p), RegionsOf(t, p);
    RecordingWellPlaced(|mem|, t, p);
    if keys == [] {
      NothingReplayed(u, mem, r, start, p);
    } else {
      assert keys == [0];
      var n := Count(r, 0);
      CompactOne(mem, r, p);
      var file := mem[..Bytes(n, p)];
      InstallOne(u, file, r, start, p);
      forall o | o in t
        ensures start + o in CopyIn(map[], file, start, n, p) && CopyIn(map[], file, start, n, p)[start + o] == PageAt(mem, o, p)
      {
        var i: nat :| i < n && Run(0, n, p)[i] == o;
        RunAt(n, p, i);
        CopyInHas(map[], file, start, n, p, i);
        PagesGrow(i, n, p);
        PageOfPrefix(mem, Bytes(n, p), o, p);
      }
    }
  }

  lemma RunAt(n: nat, p: nat, i: nat)
    requires i < n
    ensures Run(0, n, p)[i] == Bytes(i, p)
  {
  }

  lemma NothingReplayed(u: Uffd, mem: seq<Byte>, r: RegionMap, start: nat, p: nat)
    requires p >= 1
    ensures Compact(mem, [], r, p) == Some([]) && InstallAll(u, [], [], r, start, p) == Some(Progress(u, 0))
  {
  }

  // ----- a memory that is replayed wrongly -----

  /** One byte that is not zero, at the start of the second region. */
  function Marked(size: nat, at: nat): seq<Byte> {
    seq(size, i => if i == at then 1 else 0)
  }

  /** The file has the mark where the second region starts, and nowhere else. */
  lemma {:induction false} MarkInFile(size: nat, t: seq<nat>, p: nat, keys: seq<nat>, r: RegionMap, i: nat)
    requires p >= 1 && WellPlaced(size, t, p, keys, r) && 2 <= i <= |keys|
    ensures var file := Compact(Marked(size, keys[1]), keys[..i], r, p);
      && file.Some?
      && |file.value| >= Bytes(Count(r, 0), p)
      && forall q: nat :: q < |file.value| && q != Bytes(Count(r, 0), p) ==> file.value[q] == 0
  {
    hide Bytes;
    var mem := Marked(size, keys[1]);
    var k, n := keys[i - 1], Count(r, keys[i - 1]);
    assert keys[..i] == keys[..i - 1] + [k];
    if i == 2 {
      assert keys[..1] == [0];
      CompactOne(mem, r, p);
      CompactSnoc(mem, keys[..1], k, r, mem[..Bytes(Count(r, 0), p)], p);
    } else {
      MarkInFile(size, t, p, keys, r, i - 1);
      var file := Compact(mem, keys[..i - 1], r, p).value;
      CompactSnoc(mem, keys[..i - 1], k, r, file, p);
    }
  }

  /** A region that is installed shows at its address what the buffer has at the present place. */
  lemma NextShows(q: Progress, ws: seq<Byte>, k: nat, n: nat, start: nat, p: nat)
    requires p >= 1 && n >= 1 && start + k < WORD && InstallNext(q, ws, k, n, start, p).Some?
    ensures var u := InstallNext(q, ws, k, n, start, p).value.uffd;
      && q.srcOffset + p <= |ws|
      && start + k in u.pages && u.pages[start + k] == PageAt(ws[q.srcOffset..], 0, p)
  {
    hide CanCopy, CopyIn, Bytes, PageAt, Wrap;
    WrapSmall(start + k);
    BytesSteps(n, p);
    PagesGrow(0, n, p);
    CopyInHas(q.uffd.pages, ws[q.srcOffset..], start + k, n, p, 0);
  }

  lemma WrongSecondPage(u: Uffd, size: nat, start: nat, t: seq<nat>, p: nat, keys: seq<nat>, r: RegionMap, file: seq<Byte>)
    requires p >= 1 && p != 4096 && Room(u, start, size, p)
    requires WellPlaced(size, t, p, keys, r) && |keys| >= 2
    requires forall q: nat :: q < |file| && q != Bytes(Count(r, 0), p) ==> file[q] == 0
    requires InstallAll(u, file, keys, r, start, p).Some?
    ensures var q := InstallAll(u, file, keys, r, start, p).value.uffd.pages;
      start + keys[1] in q && q[start + keys[1]] != PageAt(Marked(size, keys[1]), keys[1], p)
  {
    hide WellPlaced, InstallAll, InstallNext, Bytes, Marked, PageAt, Position;
    var k, n0, n1 := keys[1], Count(r, keys[0]), Count(r, keys[1]);
    SecondOf(size, t, p, keys, r);
    InstallAllKeeps(u, file, keys, r, start, p, 2, start + k);
    InstallAllKeeps(u, file, keys, r, start, p, 1, start + k);
    assert keys[..2] == keys[..1] + [k];
    var q1 := InstallAll(u, file, keys[..1], r, start, p).value;
    InstallAllSnoc(u, file, keys[..1], k, r, start, q1, p);
    BufferPosition(u, file, keys[..1], r, start, p);
    OnePosition(keys[..1], r);
    BytesApart(n0, p);
    NextShows(q1, file, k, n1, start, p);
    UnmarkedPage(file, q1.srcOffset, p);
    MarkedPage(size, k, p);
  }

  lemma SecondOf(size: nat, t: seq<nat>, p: nat, keys: seq<nat>, r: RegionMap)
    requires p >= 1 && WellPlaced(size, t, p, keys, r) && |keys| >= 2
    ensures keys[0] == 0 && Count(r, 0) >= 1 && Count(r, keys[1]) >= 1 && keys[1] + p <= size
  {
    PagesGrow(0, Count(r, keys[1]), p);
  }

  lemma OnePosition(keys: seq<nat>, r: RegionMap)
    requires |keys| == 1
    ensures Position(keys, r, 4096) == Bytes(Count(r, keys[0]))
  {
    assert keys[..0] == [];
  }

  lemma BytesApart(n: nat, p: nat)
    requires n >= 1 && p != 4096
    ensures Bytes(n) != Bytes(n, p)
  {
    assert Bytes(n) - Bytes(n, p) == (4096 - p) * n;
    if p < 4096 { MulGrows(1, 4096 - p, n); } else { MulGrows(1, p - 4096, n); }
  }

  lemma UnmarkedPage(file: seq<Byte>, at: nat, p: nat)
    requires p >= 1 && at + p <= |file| && file[at] == 0
    ensures |PageAt(file[at..], 0, p)| == p && PageAt(file[at..], 0, p)[0] == 0
  {
  }

  lemma MarkedPage(size: nat, k: nat, p: nat)
    requires p >= 1 && k + p <= size
    ensures |PageAt(Marked(size, k), k, p)| == p && PageAt(Marked(size, k), k, p)[0] == 1
  {
  }

  lemma MarkedReplayedWrongly(u: Uffd, size: nat, start: nat, t: seq<nat>, p: nat)
    requires p >= 1 && p != 4096 && RecordedBy(size, t, p) && Room(u, start, size, p) && |Keys(t, p)| >= 2
    ensures !Replayed(u, Marked(size, Keys(t, p)[1]), start, t, p)
  {
    hide RegionsOf, Keys, InstallAll, Compact, PageAt, Bytes, Marked;
    var keys, r := Keys(t, p), RegionsOf(t, p);
    RecordingWellPlaced(size, t, p);
    MarkInFile(size, t, p, keys, r, |keys|);
    assert keys[..|keys|] == keys;
    var file := Compact(Marked(size, keys[1]), keys, r, p).value;
    if InstallAll(u, file, keys, r, start, p).Some? {
      WrongSecondPage(u, size, start, t, p, keys, r, file);
    }
  }

  /** On a machine with pages of p bytes, a recording is replayed as guest memory, whatever guest memory
      holds, exactly when p is 4096 or the recording has at most one region. */
  lemma PageSizeMatters(u: Uffd, size: nat, start: nat, t: seq<nat>, p: nat)
    requires p >= 1 && RecordedBy(size, t, p) && Room(u, start, size, p)
    ensures (forall mem: seq<Byte> :: |mem| == size ==> Replayed(u, mem, start, t, p))
      <==> p == 4096 || |Keys(t, p)| <= 1
  {
    hide RecordedBy, Room, Keys, Replayed;
    if p == 4096 || |Keys(t, p)| <= 1 {
      forall mem: seq<Byte> | |mem| == size ensures Replayed(u, mem, start, t, p) {
        if p == 4096 { ReplayedBy4096(u, mem, start, t); } else { OneRegionReplayed(u, mem, start, t, p); }
      }
    } else {
      MarkedReplayedWrongly(u, size, start, t, p);
      assert |Marked(size, Keys(t, p)[1])| == size;
    }
  }
}
