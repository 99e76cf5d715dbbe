/** What every step of a snapshot state keeps. */
module PageFaults {
  import opened Options
  import opened Sorting
  import opened Regions
  import opened WorkingSet
  import opened Traces
  import opened SnapshotStates

  /** Active implies ever activated; a finished record implies an activation; nothing is recorded
      outside the one recording activation. */
  ghost predicate Flags(s: State) {
    && (s.isActive ==> s.isEverActivated)
    && (s.isRecordReady ==> s.isEverActivated)
    && (s.isPolling ==> s.isActive)
    && (!s.isActive && !s.isRecordReady ==> s.trace == [])
  }

  /** The lookup table lists exactly the trace; the replay structures are built once, in
      record-and-replay mode only, and the file then holds the recorded pages in order; the buffer is
      empty or as long as the file. */
  ghost predicate TraceKept(s: State) {
    && Recorded(s.cfg.mem, s.trace)
    && (forall o :: o in s.contained <==> o in s.trace)
    && (!s.isRecordReady || s.cfg.isLazyMode ==> s.regions == map[] && s.wsFile == [])
    && (s.isRecordReady && !s.cfg.isLazyMode ==>
          && s.regions == Encode(Sort(s.trace), map[]).regions
          && s.wsFile == Pages(s.cfg.mem, Sort(s.trace)))
    && (s.workingSet == [] || |s.workingSet| == |s.wsFile|)
  }

  /** A guest whose memory starts at an aligned base and fits the address space. */
  ghost predicate GuestRange(u: Uffd, mem: seq<Byte>) {
    u.base % 4096 == 0 && u.size == |mem| && u.base + |mem| <= WORD && |mem| % 4096 == 0
  }

  /** Every page the guest has is the page of the memory file at the same offset. */
  ghost predicate Faithful(u: Uffd, mem: seq<Byte>) {
    forall a :: a in u.pages ==>
      u.base <= a && (a - u.base) % 4096 == 0 && a - u.base + PAGE <= |mem| && u.pages[a] == PageAt(mem, a - u.base)
  }

  /** While faults are served: recording notes exactly the pages that are present, and after its
      first fault a replay has every recorded page. */
  ghost predicate Serving(s: State) {
    && s.guestMem == s.cfg.mem
    && GuestRange(s.uffd, s.cfg.mem) && Faithful(s.uffd, s.cfg.mem)
    && (s.firstFaultSeen ==> s.startAddress == s.uffd.base)
    && (!s.firstFaultSeen ==> s.uffd.pages == map[])
    && (!s.isRecordReady && s.firstFaultSeen ==> s.trace != [])
    && (!s.isRecordReady ==> forall a: nat :: a in s.uffd.pages <==> Among(s.uffd.base, s.trace, a))
    && (s.firstFaultSeen && s.isRecordReady && !s.cfg.isLazyMode ==>
          forall o :: o in s.trace ==> s.uffd.base + o in s.uffd.pages)
  }

  /** The present pages that the trace does not have. */
  ghost function Unrecorded(u: Uffd, t: seq<nat>): set<nat> {
    set a | a in u.pages && !Among(u.base, t, a)
  }

  /** Counting in a replay: every fault outside the trace is unique, and in lazy mode every page
      present was served by one counted fault. */
  ghost predicate Counted(s: State) {
    && s.stats.uniqueNum == |Unrecorded(s.uffd, s.trace)|
    && (s.cfg.isLazyMode ==> s.stats.replayedNum == |s.uffd.pages|)
  }

  /** One entry for each replay in every list, and total = unique + reused in each entry; nothing is counted
      without metrics, and faults of a replay of the working set only where they are unique. */
  ghost predicate StatsKept(cfg: Config, st: Stats) {
    && |st.uniquePFServed| == st.latencies
    && |st.totalPFServed| == |st.reusedPFServed| == (if cfg.isLazyMode then st.latencies else 0)
    && (cfg.isLazyMode ==> forall i :: 0 <= i < st.latencies ==>
          st.totalPFServed[i] == st.uniquePFServed[i] + st.reusedPFServed[i])
    && (!cfg.metricsModeOn ==> st == Stats([], [], [], 0, 0, 0))
    && (!cfg.isLazyMode ==> st.replayedNum == 0)
  }

  ghost predicate Inv(s: State) {
    && Flags(s)
    && TraceKept(s)
    && StatsKept(s.cfg, s.stats)
    && (s.isPolling ==> Serving(s))
    && (s.isPolling && s.isRecordReady && s.cfg.metricsModeOn ==> Counted(s))
  }

  /** The working set in memory is the whole file when a replay needs it. */
  ghost predicate Fetched(s: State) {
    s.isRecordReady && !s.cfg.isLazyMode ==> s.workingSet == s.wsFile
  }

  /** A fault the kernel may report: on an absent page of the guest, the first one at its base. */
  ghost predicate Fault(s: State, a: nat) {
    && s.isPolling
    && s.uffd.base <= a && (a - s.uffd.base) % 4096 == 0 && a - s.uffd.base + PAGE <= |s.cfg.mem|
    && a !in s.uffd.pages
    && (!s.firstFaultSeen ==> a == s.uffd.base)
  }

  lemma CopyOne(pages: map<nat, Page>, mem: seq<Byte>, offset: nat, dst: nat)
    requires offset + PAGE <= |mem|
    ensures CopyIn(pages, mem[offset..], dst, 1) == pages[dst := PageAt(mem, offset)]
  {
    var src := mem[offset..];
    CopyInSnoc(pages, src, dst, 1);
    assert CopyIn(pages, src, dst, 0) == pages && Bytes(0) == 0;
    SliceSlice(mem, offset, |mem|, 0, PAGE);
    assert mem[offset..|mem|] == src;
    assert PageAt(src, 0) == src[0..PAGE] == mem[offset..offset + PAGE];
  }

  lemma OneAllowed(u: Uffd, mem: seq<Byte>, a: nat)
    requires GuestRange(u, mem)
    requires u.base <= a && (a - u.base) % 4096 == 0 && a - u.base + PAGE <= |mem| && a !in u.pages
    ensures CanCopy(u, a, 1) && a % 4096 == 0 && Wrap(a - u.base) == a - u.base
  {
    AlignedSum(u.base, a - u.base);
    WrapSmall(a - u.base);
    assert Run(a, 1) == [a];
  }

  lemma OnePage(u: Uffd, mem: seq<Byte>, a: nat)
    requires GuestRange(u, mem) && Faithful(u, mem)
    requires u.base <= a && (a - u.base) % 4096 == 0 && a - u.base + PAGE <= |mem| && a !in u.pages
    ensures Wrap(a - u.base) == a - u.base && a - a % 4096 == a
    ensures var u' := u.(pages := u.pages[a := PageAt(mem, a - u.base)]);
      InstallRegion(u, mem[a - u.base..], a, 1) == Some(u') && Faithful(u', mem)
  {
    hide CanCopy, CopyIn, Wrap, PageAt, GuestRange;
    OneAllowed(u, mem, a);
    CopyOne(u.pages, mem, a - u.base, a);
  }

  /** Serving one missing page: exactly that page appears, with the right contents. */
  lemma ServeOneInstalls(s: State, a: nat)
    requires s.guestMem == s.cfg.mem && GuestRange(s.uffd, s.cfg.mem) && Faithful(s.uffd, s.cfg.mem)
    requires s.startAddress == s.uffd.base
    requires s.uffd.base <= a && (a - s.uffd.base) % 4096 == 0 && a - s.uffd.base + PAGE <= |s.cfg.mem|
    requires a !in s.uffd.pages
    ensures var u' := s.uffd.(pages := s.uffd.pages[a := PageAt(s.cfg.mem, a - s.uffd.base)]);
      ServeOne(s, a) == Some(NoteFault(s, a - s.uffd.base).(uffd := u')) && Faithful(u', s.cfg.mem)
  {
    hide InstallRegion, Wrap, Faithful, PageAt;
    OnePage(s.uffd, s.cfg.mem, a);
  }

  /** The state in which the missing page is served: the start address is fixed. */
  function Started(s: State, a: nat): State {
    if s.firstFaultSeen then s else FirstFault(s, a)
  }

  /** The state after one page was served. */
  function ServedOne(s: State, a: nat): State
    requires s.uffd.base <= a
  {
    var offset := a - s.uffd.base;
    NoteFault(Started(s, a), offset).(uffd := s.uffd.(pages := s.uffd.pages[a := PageAt(s.cfg.mem, offset)]))
  }

  /** The state after the bulk installation. */
  ghost function ServedBulk(s: State, a: nat): State {
    FirstFault(s, a).(uffd := s.uffd.(pages := PutPages(map[], s.cfg.mem, a, Sort(s.trace))))
  }

  predicate Bulk(s: State) {
    !s.firstFaultSeen && s.isRecordReady && !s.cfg.isLazyMode
  }

  lemma SingleFaultServed(s: State, a: nat)
    requires s.isPolling && Serving(s) && Fault(s, a) && !Bulk(s)
    ensures ServePageFault(s, a) == Some(ServedOne(s, a)) && Faithful(ServedOne(s, a).uffd, s.cfg.mem)
  {
    hide ServeOne, Faithful, PageAt;
    ServeOneInstalls(Started(s, a), a);
  }

  lemma BulkFaultServed(s: State, a: nat)
    requires s.isPolling && Serving(s) && TraceKept(s) && Fetched(s) && Fault(s, a) && Bulk(s)
    ensures ServePageFault(s, a) == Some(ServedBulk(s, a))
    ensures Shows(ServedBulk(s, a).uffd.pages, s.cfg.mem, a, s.trace)
  {
    hide InstallAll, Encode, Sort, Listing, Recorded, Shows, PutPages, Pages, Faithful, PageAt;
    ReplayInstallsRecordedPages(s.uffd, s.cfg.mem, a, s.trace);
  }

  /** Whatever the state, a fault that is served while recording is appended to the trace and entered in the
      lookup table, even when its offset is there already. */
  lemma EveryFaultRecorded(s: State, a: nat)
    requires !s.isRecordReady && ServePageFault(s, a).Some?
    ensures var s' := ServePageFault(s, a).value; var o := Wrap(a - s'.startAddress);
      && s'.startAddress == (if s.firstFaultSeen then s.startAddress else a)
      && s'.trace == s.trace + [o] && s'.contained.Keys == s.contained.Keys + {o} && s'.stats == s.stats
  {
    hide Wrap, InstallRegion;
  }

  lemma RecordsOnce(mem: seq<Byte>, t: seq<nat>, o: nat)
    requires Recorded(mem, t) && o !in t && o % 4096 == 0 && o + PAGE <= |mem| && (t == [] ==> o == 0)
    ensures Recorded(mem, t + [o])
  {
    assert t != [] ==> 0 in t;
    assert forall x :: x in t + [o] <==> x in t || x == o;
  }

  /** A fault while recording: its offset joins the trace, and the trace still lists the pages. */
  lemma RecordingStep(s: State, a: nat)
    requires Inv(s) && Fault(s, a) && !s.isRecordReady
    ensures ServePageFault(s, a) == Some(ServedOne(s, a)) && Inv(ServedOne(s, a))
  {
    hide ServePageFault, Recorded, Faithful, PageAt;
    var o, s' := a - s.uffd.base, ServedOne(s, a);
    SingleFaultServed(s, a);
    RecordsOnce(s.cfg.mem, s.trace, o);
    assert s'.trace == s.trace + [o];
    assert forall x :: x in s.trace + [o] <==> x in s.trace || x == o;
  }

  lemma UnrecordedStep(u: Uffd, t: seq<nat>, a: nat, page: Page)
    requires a !in u.pages
    ensures |Unrecorded(u.(pages := u.pages[a := page]), t)| == |Unrecorded(u, t)| + (if Among(u.base, t, a) then 0 else 1)
    ensures |u.pages[a := page]| == |u.pages| + 1
  {
    var n := Unrecorded(u.(pages := u.pages[a := page]), t);
    if Among(u.base, t, a) {
      assert n == Unrecorded(u, t);
    } else {
      assert n == Unrecorded(u, t) + {a};
    }
  }

  /** A single fault of a replay: the trace stays, the counts stay exact. */
  lemma ReplayStep(s: State, a: nat)
    requires Inv(s) && Fault(s, a) && s.isRecordReady && !Bulk(s)
    ensures ServePageFault(s, a) == Some(ServedOne(s, a)) && Inv(ServedOne(s, a))
  {
    hide ServePageFault, Recorded, Faithful, PageAt, Unrecorded, Encode, Pages, Sort;
    SingleFaultServed(s, a);
    UnrecordedStep(s.uffd, s.trace, a, PageAt(s.cfg.mem, a - s.uffd.base));
  }

  lemma RecordedMember(mem: seq<Byte>, t: seq<nat>, o: nat)
    requires Recorded(mem, t) && o in t
    ensures o % 4096 == 0 && o + PAGE <= |mem|
  {
  }

  lemma ShowsAt(pages: map<nat, Page>, mem: seq<Byte>, start: nat, offs: seq<nat>, a: nat)
    requires Shows(pages, mem, start, offs)
    ensures a in pages <==> Among(start, offs, a)
    ensures a in pages ==> pages[a] == PageAt(mem, a - start)
  {
    hide PageAt;
  }

  lemma AllRecorded(u: Uffd, mem: seq<Byte>, t: seq<nat>)
    requires Shows(u.pages, mem, u.base, t)
    ensures Unrecorded(u, t) == {}
    ensures forall o :: o in t ==> u.base + o in u.pages
  {
    hide PageAt, Shows;
    forall o | o in t ensures u.base + o in u.pages { ShowsAt(u.pages, mem, u.base, t, u.base + o); }
    forall a | a in u.pages ensures Among(u.base, t, a) { ShowsAt(u.pages, mem, u.base, t, a); }
  }

  lemma AllFaithful(u: Uffd, mem: seq<Byte>, t: seq<nat>)
    requires Recorded(mem, t) && Shows(u.pages, mem, u.base, t)
    ensures Faithful(u, mem)
  {
    hide Recorded, PageAt, Shows;
    forall a | a in u.pages
      ensures u.base <= a && (a - u.base) % 4096 == 0 && a - u.base + PAGE <= |mem| && u.pages[a] == PageAt(mem, a - u.base)
    {
      ShowsAt(u.pages, mem, u.base, t, a);
      RecordedMember(mem, t, a - u.base);
    }
  }

  lemma NothingUnrecorded(u: Uffd, mem: seq<Byte>, t: seq<nat>)
    requires Recorded(mem, t) && Shows(u.pages, mem, u.base, t)
    ensures Unrecorded(u, t) == {} && Faithful(u, mem)
    ensures forall o :: o in t ==> u.base + o in u.pages
  {
    hide *;
    AllRecorded(u, mem, t);
    AllFaithful(u, mem, t);
  }

  /** The bulk step: every recorded page appears, nothing is counted as unique. */
  lemma BulkStep(s: State, a: nat)
    requires Inv(s) && Fetched(s) && Fault(s, a) && Bulk(s)
    ensures ServePageFault(s, a) == Some(ServedBulk(s, a)) && Inv(ServedBulk(s, a))
    ensures Shows(ServedBulk(s, a).uffd.pages, s.cfg.mem, a, s.trace)
  {
    hide ServePageFault, Recorded, Faithful, Shows, PutPages, Encode, Pages, Sort;
    BulkFaultServed(s, a);
    NothingUnrecorded(ServedBulk(s, a).uffd, s.cfg.mem, s.trace);
  }

  ghost function ServedFault(s: State, a: nat): State
    requires s.uffd.base <= a
  {
    if Bulk(s) then ServedBulk(s, a) else ServedOne(s, a)
  }

  /** Every fault the kernel may report is served without the process ending, and every invariant
      is kept: in particular no page is ever installed twice, since the kernel refuses that. */
  lemma FaultServed(s: State, a: nat)
    requires Inv(s) && Fetched(s) && Fault(s, a)
    ensures ServePageFault(s, a) == Some(ServedFault(s, a)) && Inv(ServedFault(s, a))
  {
    hide Inv, ServePageFault, ServedOne, ServedBulk;
    if Bulk(s) { BulkStep(s, a); }
    else if s.isRecordReady { ReplayStep(s, a); }
    else { RecordingStep(s, a); }
  }

  /** The first fault of a replay is answered by the bulk installation exactly when something was
      recorded; after an empty record the faulting page is still missing and faults again. */
  lemma FirstFaultResolvedIff(s: State, a: nat)
    requires Inv(s) && Fetched(s) && Fault(s, a) && Bulk(s)
    ensures a in ServedFault(s, a).uffd.pages <==> s.trace != []
  {
    hide ServedBulk, PageAt, PutPages, Encode, Pages, Sort, Faithful, Counted, StatsKept, Serving;
    BulkStep(s, a);
    assert Among(a, s.trace, a) <==> 0 in s.trace;
  }

  // ----- a replay from any buffer of the file's length -----

  function Splice(mem: seq<Byte>, o: nat, page: Page): seq<Byte>
    requires o + PAGE <= |mem| && |page| == PAGE
  {
    mem[..o] + page + mem[o + PAGE..]
  }

  lemma SpliceAt(mem: seq<Byte>, o: nat, page: Page, x: nat)
    requires o + PAGE <= |mem| && |page| == PAGE && o % 4096 == 0 && x % 4096 == 0 && x + PAGE <= |mem|
    ensures |Splice(mem, o, page)| == |mem|
    ensures PageAt(Splice(mem, o, page), x) == if x == o then page else PageAt(mem, x)
  {
    var m := Splice(mem, o, page);
    if x < o { AlignedGap(x, o); } else if o < x { AlignedGap(o, x); }
    assert forall i :: x <= i < x + PAGE ==> m[i] == if x == o then page[i - o] else mem[i];
  }

  /** The memory that has the buffer's pages at the recorded offsets. */
  function Scatter(mem: seq<Byte>, offs: seq<nat>, ws: seq<Byte>): (m: seq<Byte>)
    requires Inside(mem, offs) && |ws| >= Bytes(|offs|)
    ensures |m| == |mem|
  {
    if offs == [] then mem
    else
      var n := |offs| - 1;
      var m := Scatter(mem, offs[..n], ws);
      Splice(m, offs[n], ws[Bytes(n)..Bytes(n) + PAGE])
  }

  lemma {:induction false} ScatterPage(mem: seq<Byte>, offs: seq<nat>, ws: seq<Byte>, i: nat)
    requires Inside(mem, offs) && Aligned(offs) && Distinct(offs) && |ws| >= Bytes(|offs|) && i < |offs|
    ensures Bytes(i) + PAGE <= |ws|
    ensures PageAt(Scatter(mem, offs, ws), offs[i]) == ws[Bytes(i)..Bytes(i) + PAGE]
  {
    hide Splice, PageAt;
    var n := |offs| - 1;
    SpliceAt(Scatter(mem, offs[..n], ws), offs[n], ws[Bytes(n)..Bytes(n) + PAGE], offs[i]);
    if i < n { ScatterPage(mem, offs[..n], ws, i); }
  }

  lemma {:induction false} PagesAre(mem: seq<Byte>, offs: seq<nat>, ws: seq<Byte>)
    requires |ws| == Bytes(|offs|)
    requires forall i: nat :: i < |offs| ==> PageAt(mem, offs[i]) == ws[Bytes(i)..Bytes(i) + PAGE]
    ensures Pages(mem, offs) == ws
  {
    hide PageAt;
    if offs != [] {
      var n := |offs| - 1;
      var ws' := ws[..Bytes(n)];
      forall i: nat | i < n ensures PageAt(mem, offs[..n][i]) == ws'[Bytes(i)..Bytes(i) + PAGE] {
        SliceSlice(ws, 0, Bytes(n), Bytes(i), Bytes(i) + PAGE);
      }
      PagesAre(mem, offs[..n], ws');
      SliceJoin(ws, 0, Bytes(n), Bytes(n) + PAGE);
    }
  }

  /** What the guest sees after the first fault of a replay: at every recorded offset the page that the
      buffer has there, and nothing else. */
  ghost predicate ShowsBuffer(pages: map<nat, Page>, ws: seq<Byte>, a: nat, t: seq<nat>) {
    && |ws| == Bytes(|Sort(t)|)
    && (forall x: nat :: x in pages <==> Among(a, t, x))
    && forall i: nat :: i < |Sort(t)| ==>
         a + Sort(t)[i] in pages && pages[a + Sort(t)[i]] == ws[Bytes(i)..Bytes(i) + PAGE]
  }

  lemma BufferShown(pages: map<nat, Page>, m: seq<Byte>, ws: seq<Byte>, a: nat, t: seq<nat>)
    requires Shows(pages, m, a, t) && |ws| == Bytes(|Sort(t)|)
    requires forall o :: o in Sort(t) <==> o in t
    requires forall i: nat :: i < |Sort(t)| ==> PageAt(m, Sort(t)[i]) == ws[Bytes(i)..Bytes(i) + PAGE]
    ensures ShowsBuffer(pages, ws, a, t)
  {
    hide Sort, PageAt;
    forall i: nat | i < |Sort(t)|
      ensures a + Sort(t)[i] in pages && pages[a + Sort(t)[i]] == ws[Bytes(i)..Bytes(i) + PAGE]
    {
      assert Sort(t)[i] in t;
      assert Among(a, t, a + Sort(t)[i]);
    }
  }

  lemma SameSizeRecorded(mem: seq<Byte>, m: seq<Byte>, t: seq<nat>)
    requires Recorded(mem, t) && |m| == |mem|
    ensures Recorded(m, t)
  {
  }

  lemma BufferInstalled(u: Uffd, mem: seq<Byte>, start: nat, t: seq<nat>, ws: seq<Byte>)
    requires Recorded(mem, t) && u.pages == map[] && |ws| == Bytes(|t|)
    requires start % 4096 == 0 && u.base <= start && start + |mem| <= u.base + u.size <= WORD
    ensures var r := Encode(Sort(t), map[]).regions;
      var p := InstallAll(u, ws, Listing(r.Keys), r, start);
      p.Some? && ShowsBuffer(p.value.uffd.pages, ws, start, t)
  {
    hide Encode, Sort, Listing, InstallAll, Pages, PutPages, PageAt, Scatter, Recorded, Shows, ShowsBuffer, Aligned, Distinct, Inside;
    var offs := Sort(t);
    SortKeepsRecorded(mem, t);
    RecordedInside(mem, offs);
    RecordedShape(mem, offs);
    var m := Scatter(mem, offs, ws);
    forall i: nat | i < |offs| ensures PageAt(m, offs[i]) == ws[Bytes(i)..Bytes(i) + PAGE] { ScatterPage(mem, offs, ws, i); }
    PagesAre(m, offs, ws);
    SameSizeRecorded(mem, m, t);
    ReplayInstallsRecordedPages(u, m, start, t);
    var r := Encode(Sort(t), map[]).regions;
    BufferShown(InstallAll(u, ws, Listing(r.Keys), r, start).value.uffd.pages, m, ws, start, t);
  }

  lemma RecordedShape(mem: seq<Byte>, t: seq<nat>)
    requires Recorded(mem, t)
    ensures Aligned(t) && Distinct(t)
  {
  }

  /** A replay from a buffer that is as long as the file but was only read in part shows the guest the
      buffer's pages, not the file's. */
  lemma ReplayShowsBuffer(s: State, a: nat)
    requires Inv(s) && Fault(s, a) && Bulk(s) && (s.trace == [] || s.workingSet != [])
    ensures ServePageFault(s, a).Some?
    ensures ShowsBuffer(ServePageFault(s, a).value.uffd.pages, s.workingSet, a, s.trace)
  {
    hide InstallAll, Encode, Sort, Listing, Recorded, Pages, Faithful, PageAt, Counted, StatsKept, ShowsBuffer;
    CompactedFile(s.cfg.mem, s.trace);
    BufferInstalled(s.uffd, s.cfg.mem, a, s.trace, s.workingSet);
  }

  /** The bulk installation ends the process exactly when a non-empty record was never fetched. */
  lemma UnfetchedReplayDies(s: State, a: nat)
    requires Inv(s) && Fault(s, a) && Bulk(s)
    ensures ServePageFault(s, a) == None <==> s.trace != [] && s.workingSet == []
  {
    hide InstallAll, Encode, Sort, Listing, Recorded, Pages, Faithful, PageAt, Counted, StatsKept, ShowsBuffer;
    if s.trace == [] || s.workingSet != [] {
      ReplayShowsBuffer(s, a);
    } else {
      EmptyBuffer(s.uffd, s.cfg.mem, s.trace, a);
    }
  }

  lemma EmptyBuffer(u: Uffd, mem: seq<Byte>, t: seq<nat>, a: nat)
    requires Recorded(mem, t) && t != []
    ensures var r := Encode(Sort(t), map[]).regions; InstallAll(u, [], Listing(r.Keys), r, a) == None
  {
    hide Encode, Sort, Listing, Recorded;
    var r := Encode(Sort(t), map[]).regions;
    SortKeepsRecorded(mem, t);
    DecodeAll(mem, t);
    DecodeIs(r);
    var keys := Listing(r.Keys);
    assert Expand(keys, r) != [];
    assert keys != [];
    assert InstallAll(u, [], keys[..1], r, a) == None by {
      assert keys[..1][..0] == [];
      InstallAllNil(u, [], r, a);
    }
    InstallFails(u, [], keys, r, a, 1);
  }
}
