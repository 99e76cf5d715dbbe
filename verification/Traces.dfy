/** The recorded trace of one VM: record, lookup, and the preparation of replay. */
module Traces {
  import opened Options
  import opened Sorting
  import opened Regions
  import opened WorkingSet

  /** A write at a position of a file, past which what the file held stays. */
  function WriteAt(file: seq<Byte>, buf: seq<Byte>, at: nat): seq<Byte>
    requires at <= |file|
  {
    file[..at] + buf + if at + |buf| <= |file| then file[at + |buf|..] else []
  }

  lemma WriteAtEnd(file: seq<Byte>, buf: seq<Byte>)
    ensures WriteAt(file, buf, |file|) == file + buf
  {
  }

  lemma {:induction false} CompactFails(mem: seq<Byte>, keys: seq<nat>, regions: RegionMap, i: nat, p: nat)
    requires i <= |keys| && Compact(mem, keys[..i], regions, p) == None
    ensures Compact(mem, keys, regions, p) == None
    decreases |keys|
  {
    if i < |keys| {
      assert keys[..|keys| - 1][..i] == keys[..i];
      CompactFails(mem, keys[..|keys| - 1], regions, i, p);
    } else {
      assert keys[..i] == keys;
    }
  }

  class Trace {
    var containedOffsets: map<nat, int>
    var trace: seq<nat>
    var regions: RegionMap

    constructor ()
      ensures trace == [] && containedOffsets == map[] && regions == map[]
    {
      trace, containedOffsets, regions := [], map[], map[];
    }

    method AppendRecord(offset: nat)
      modifies this
      ensures trace == old(trace) + [offset]
      ensures containedOffsets == old(containedOffsets)[offset := 0]
      ensures regions == old(regions)
    {
      trace := trace + [offset];
      containedOffsets := containedOffsets[offset := 0];
    }

    method ContainsRecord(offset: nat) returns (ok: bool)
      ensures ok <==> offset in containedOffsets
    {
      ok := offset in containedOffsets;
    }

    /** Sorts the trace, builds the regions and compacts the working set, with the machine's page size;
        None is a fatal error. */
    method ProcessRecord(guestMem: seq<Byte>, pageSize: nat := 4096) returns (wsFile: Option<seq<Byte>>)
      modifies this
      ensures trace == Sort(old(trace)) && containedOffsets == old(containedOffsets)
      ensures regions == Encode(trace, old(regions), pageSize).regions
      ensures wsFile == Compact(guestMem, Listing(regions.Keys), regions, pageSize)
    {
      trace := Sort(trace);
      var last: nat, regionStart: nat := 0, 0;
      var i := 0;
      while i < |trace|
        invariant 0 <= i <= |trace|
        invariant trace == Sort(old(trace)) && containedOffsets == old(containedOffsets)
        invariant Encode(trace[..i], old(regions), pageSize) == Encoder(last, regionStart, regions)
      {
        var offset := trace[i];
        assert trace[..i + 1][..i] == trace[..i];
        if offset != last + pageSize {
          regionStart := offset;
          regions := regions[regionStart := 1];
        } else {
          regions := regions[regionStart := Count(regions, regionStart) + 1];
        }
        last := offset;
        i := i + 1;
      }
      assert trace[..i] == trace;
      wsFile := WriteWorkingSetPagesToFile(guestMem, pageSize);
    }

    method WriteWorkingSetPagesToFile(guestMem: seq<Byte>, pageSize: nat := 4096) returns (wsFile: Option<seq<Byte>>)
      ensures wsFile == Compact(guestMem, Listing(regions.Keys), regions, pageSize)
    {
      hide Bytes;
      var keys := SortedKeys(regions);
      var file: seq<Byte> := [];
      var dstOffset: nat := 0;
      var i := 0;
      while i < |keys|
        invariant 0 <= i <= |keys| && dstOffset == |file|
        invariant Compact(guestMem, keys[..i], regions, pageSize) == Some(file)
      {
        var offset := keys[i];
        var copyLen := Bytes(Count(regions, offset), pageSize);
        assert keys[..i + 1] == keys[..i] + [offset] && keys[..i + 1][..i] == keys[..i];
        if offset + copyLen > |guestMem| {
          CompactFails(guestMem, keys, regions, i + 1, pageSize);
          return None;
        }
        var buf := guestMem[offset..offset + copyLen];
        WriteAtEnd(file, buf);
        CompactSnoc(guestMem, keys[..i], offset, regions, file, pageSize);
        file := WriteAt(file, buf, dstOffset);
        dstOffset := dstOffset + copyLen;
        i := i + 1;
      }
      assert keys[..i] == keys;
      return Some(file);
    }
  }

  /** What recording leaves behind: distinct page offsets inside the guest memory, the first page
      among them as soon as there is any. */
  ghost predicate Recorded(mem: seq<Byte>, t: seq<nat>) {
    && Distinct(t) && Aligned(t) && Inside(mem, t)
    && (t != [] ==> 0 in t)
  }

  lemma SortKeepsRecorded(mem: seq<Byte>, t: seq<nat>)
    requires Recorded(mem, t)
    ensures Ascending(Sort(t)) && Elems(Sort(t)) == Elems(t) && |Sort(t)| == |t|
    ensures Recorded(mem, Sort(t)) && (Sort(t) != [] ==> Sort(t)[0] == 0)
    ensures forall o :: o in Sort(t) <==> o in t
  {
    hide Sort;
    SortDistinct(t);
    var s := Sort(t);
    assert forall o :: o in s <==> o in Elems(s);
    assert forall o :: o in t <==> o in Elems(t);
    forall i | 0 <= i < |s| ensures s[i] % 4096 == 0 && s[i] + PAGE <= |mem| {
      assert s[i] in t;
    }
  }

  lemma DecodeAll(mem: seq<Byte>, t: seq<nat>)
    requires Recorded(mem, t)
    ensures var r := Encode(Sort(t), map[]).regions;
      Decode(r) == Sort(t) && Positive(Listing(r.Keys), r)
  {
    hide Sort, Decode, Encode, Listing;
    SortKeepsRecorded(mem, t);
    RegionsRoundTrip(Sort(t));
    var r := Encode(Sort(t), map[]).regions;
    ListingLists(r.Keys);
    var keys := Listing(r.Keys);
    assert forall i :: 0 <= i < |keys| ==> keys[i] in keys;
  }

  lemma DecodeIs(r: RegionMap)
    ensures Decode(r) == Expand(Listing(r.Keys), r)
  {
  }

  /** Recording then compacting: the file holds the recorded pages in ascending order of offset. */
  lemma CompactedFile(mem: seq<Byte>, t: seq<nat>)
    requires Recorded(mem, t)
    ensures var r := Encode(Sort(t), map[]).regions;
      && Compact(mem, Listing(r.Keys), r) == Some(Pages(mem, Sort(t)))
      && |Pages(mem, Sort(t))| == Bytes(|t|)
  {
    hide *;
    var r := Encode(Sort(t), map[]).regions;
    SortKeepsRecorded(mem, t);
    DecodeAll(mem, t);
    DecodeIs(r);
    RecordedInside(mem, Sort(t));
    CompactWritesPages(mem, Listing(r.Keys), r);
    PagesLength(mem, Sort(t));
  }

  lemma RecordedInside(mem: seq<Byte>, t: seq<nat>)
    requires Recorded(mem, t)
    ensures Inside(mem, t)
  {
  }

  lemma RecordedInstallable(u: Uffd, mem: seq<Byte>, start: nat, t: seq<nat>)
    requires Recorded(mem, t) && u.pages == map[]
    requires start % 4096 == 0 && u.base <= start && start + |mem| <= u.base + u.size <= WORD
    ensures Installable(u, mem, start, t)
  {
  }

  /** Exactly the pages at `offs` are present, and each holds what guest memory has there. */
  ghost predicate Shows(pages: map<nat, Page>, mem: seq<Byte>, start: nat, offs: seq<nat>) {
    forall a: nat ::
      && (a in pages <==> Among(start, offs, a))
      && (Among(start, offs, a) ==> pages[a] == PageAt(mem, a - start))
  }

  lemma PutPagesShow(mem: seq<Byte>, start: nat, s: seq<nat>, t: seq<nat>)
    requires forall o :: o in s <==> o in t
    ensures Shows(PutPages(map[], mem, start, s), mem, start, t)
  {
    hide PutPages;
    forall a: nat
      ensures a in PutPages(map[], mem, start, s) <==> Among(start, t, a)
      ensures Among(start, t, a) ==> PutPages(map[], mem, start, s)[a] == PageAt(mem, a - start)
    {
      PutPagesView(map[], mem, start, s, a);
    }
  }

  /** Record and replay: for every recorded set of faults and every base, the bulk installation of
      the compacted file leaves exactly the recorded pages in place, each with the contents that
      guest memory has at its offset, and nothing else. */
  lemma ReplayInstallsRecordedPages(u: Uffd, mem: seq<Byte>, start: nat, t: seq<nat>)
    requires Recorded(mem, t) && u.pages == map[]
    requires start % 4096 == 0 && u.base <= start && start + |mem| <= u.base + u.size <= WORD
    ensures var r := Encode(Sort(t), map[]).regions;
      var p := InstallAll(u, Pages(mem, Sort(t)), Listing(r.Keys), r, start);
      && p.Some? && p.value.uffd == u.(pages := PutPages(map[], mem, start, Sort(t)))
      && Shows(p.value.uffd.pages, mem, start, t)
  {
    hide *;
    var r := Encode(Sort(t), map[]).regions;
    SortKeepsRecorded(mem, t);
    DecodeAll(mem, t);
    DecodeIs(r);
    RecordedInstallable(u, mem, start, Sort(t));
    InstallPutsPages(u, mem, Pages(mem, Sort(t)), Listing(r.Keys), r, start);
    PutPagesShow(mem, start, Sort(t), t);
  }
}
