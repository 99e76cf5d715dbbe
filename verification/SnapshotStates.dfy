/** The snapshot state of one VM: page faults, recording, replay, accounting. */
module SnapshotStates {
  import opened Options
  import opened Sorting
  import opened Regions
  import opened WorkingSet
  import opened Traces

  /** `mem` is the contents of the guest memory file, which is fixed once the snapshot exists. */
  datatype Config = Config(vmID: string, isLazyMode: bool, metricsModeOn: bool, mem: seq<Byte>)

  /** The page-fault statistics: one entry per replay in each list, and the running counts. */
  datatype Stats = Stats(
    totalPFServed: seq<int>,
    uniquePFServed: seq<int>,
    reusedPFServed: seq<int>,
    latencies: nat,
    replayedNum: int,
    uniqueNum: int)

  /** Everything a SnapshotState holds, with the working-set file and the kernel's registration. */
  datatype State = State(
    cfg: Config,
    firstFaultSeen: bool,
    startAddress: nat,
    trace: seq<nat>,
    contained: map<nat, int>,
    regions: RegionMap,
    isEverActivated: bool,
    isActive: bool,
    isRecordReady: bool,
    isPolling: bool,
    guestMem: seq<Byte>,
    workingSet: seq<Byte>,
    wsFile: seq<Byte>,
    uffd: Uffd,
    stats: Stats)

  const NO_UFFD := Uffd(0, 0, map[])

  function NewState(cfg: Config): State {
    State(cfg, false, 0, [], map[], map[], false, false, false, false, [], [], [], NO_UFFD, Stats([], [], [], 0, 0, 0))
  }

  function AppendTrace(s: State, offset: nat): State {
    s.(trace := s.trace + [offset], contained := s.contained[offset := 0])
  }

  function CountFault(st: Stats, isLazyMode: bool, inTrace: bool): Stats {
    if isLazyMode then
      st.(uniqueNum := st.uniqueNum + if inTrace then 0 else 1, replayedNum := st.replayedNum + 1)
    else st.(uniqueNum := st.uniqueNum + 1)
  }

  function NoteFault(s: State, offset: nat): State {
    if !s.isRecordReady then AppendTrace(s, offset)
    else if s.cfg.metricsModeOn then s.(stats := CountFault(s.stats, s.cfg.isLazyMode, offset in s.contained))
    else s
  }

  /** Serves one fault with the page of the mapped guest memory; None ends the process. */
  function ServeOne(s: State, address: nat): Option<State> {
    var offset := Wrap(address - s.startAddress);
    if offset + PAGE > |s.guestMem| then None
    else
      match InstallRegion(s.uffd, s.guestMem[offset..], address - address % 4096, 1)
      case None => None
      case Some(u) => Some(NoteFault(s, offset).(uffd := u))
  }

  ghost function ServeBulk(s: State): Option<State> {
    match InstallAll(s.uffd, s.workingSet, Listing(s.regions.Keys), s.regions, s.startAddress)
    case None => None
    case Some(p) => Some(s.(uffd := p.uffd))
  }

  function FirstFault(s: State, address: nat): State {
    s.(firstFaultSeen := true, startAddress := address)
  }

  /** servePageFault: the first fault of an activation fixes the start address and, in a replay,
      is answered by the bulk installation alone. */
  ghost function ServePageFault(s: State, address: nat): Option<State> {
    if s.firstFaultSeen then ServeOne(s, address)
    else if s.isRecordReady && !s.cfg.isLazyMode then ServeBulk(FirstFault(s, address))
    else ServeOne(FirstFault(s, address), address)
  }

  function SetupStateOnActivate(s: State): State {
    s.(isActive := true, isEverActivated := true, firstFaultSeen := false,
       stats := if s.cfg.metricsModeOn then s.stats.(uniqueNum := 0, replayedNum := 0) else s.stats)
  }

  function AppendStats(st: Stats, isLazyMode: bool): Stats {
    var st' := st.(uniquePFServed := st.uniquePFServed + [st.uniqueNum], latencies := st.latencies + 1);
    if isLazyMode then
      st'.(totalPFServed := st.totalPFServed + [st.replayedNum],
           reusedPFServed := st.reusedPFServed + [st.replayedNum - st.uniqueNum])
    else st'
  }

  function ProcessMetrics(s: State): State {
    if s.cfg.metricsModeOn && s.isRecordReady then s.(stats := AppendStats(s.stats, s.cfg.isLazyMode)) else s
  }

  /** What the environment answers to the file operations of fetchState; `read` is the number of
      bytes that the one read call returns. */
  datatype FetchAnswers = FetchAnswers(vmmOk: bool, openOk: bool, read: nat, readOk: bool, closeOk: bool)

  function Zeros(n: nat): seq<Byte> {
    seq(n, i => 0)
  }

  function ReadInto(file: seq<Byte>, size: nat, n: nat): seq<Byte>
    requires n <= size && n <= |file|
  {
    file[..n] + Zeros(size - n)
  }

  /** A read returns no more than there is in the file and room for in the buffer. */
  function BytesRead(file: seq<Byte>, size: nat, read: nat): (n: nat)
    ensures n <= size && n <= |file|
  {
    if read <= size && read <= |file| then read else 0
  }

  datatype Fetch = Fetch(state: State, failed: bool)

  /** fetchState: a read that is short without an error is reported as a success. */
  function FetchState(s: State, a: FetchAnswers): Fetch {
    var size := Bytes(|s.trace|);
    if !a.vmmOk || !a.openOk then Fetch(s, true)
    else
      var n := BytesRead(s.wsFile, size, a.read);
      var s' := s.(workingSet := ReadInto(s.wsFile, size, n));
      if n != size || !a.readOk then Fetch(s', !a.readOk) else Fetch(s', !a.closeOk)
  }

  class SnapshotState {
    const cfg: Config
    var firstFaultSeen: bool
    var startAddress: nat
    var trace: Trace
    var isEverActivated: bool
    var isActive: bool
    var isRecordReady: bool
    var isPolling: bool
    var guestMem: seq<Byte>
    var workingSet: seq<Byte>
    var wsFile: seq<Byte>
    var uffd: Uffd
    var totalPFServed: seq<int>
    var uniquePFServed: seq<int>
    var reusedPFServed: seq<int>
    var latencies: nat
    var replayedNum: int
    var uniqueNum: int

    ghost function View(): State
      reads this, trace
    {
      State(cfg, firstFaultSeen, startAddress, trace.trace, trace.containedOffsets, trace.regions,
            isEverActivated, isActive, isRecordReady, isPolling, guestMem, workingSet, wsFile, uffd,
            Stats(totalPFServed, uniquePFServed, reusedPFServed, latencies, replayedNum, uniqueNum))
    }

    constructor (cfg: Config)
      ensures fresh(trace) && View() == NewState(cfg)
    {
      this.cfg := cfg;
      firstFaultSeen, startAddress := false, 0;
      trace := new Trace();
      isEverActivated, isActive, isRecordReady, isPolling := false, false, false, false;
      guestMem, workingSet, wsFile, uffd := [], [], [], NO_UFFD;
      totalPFServed, uniquePFServed, reusedPFServed, latencies := [], [], [], 0;
      replayedNum, uniqueNum := 0, 0;
    }

    method ResetCounts()
      modifies this`uniqueNum, this`replayedNum
      ensures View() == old(View()).(stats := old(View()).stats.(uniqueNum := 0, replayedNum := 0))
    {
      uniqueNum, replayedNum := 0, 0;
    }

    method SetupOnActivate()
      modifies this
      ensures trace == old(trace) && View() == SetupStateOnActivate(old(View()))
    {
      if cfg.metricsModeOn { ResetCounts(); }
      isActive, isEverActivated, firstFaultSeen := true, true, false;
    }

    method RecordMetrics()
      modifies this
      ensures trace == old(trace) && View() == ProcessMetrics(old(View()))
    {
      if cfg.metricsModeOn && isRecordReady {
        uniquePFServed := uniquePFServed + [uniqueNum];
        if cfg.isLazyMode {
          totalPFServed := totalPFServed + [replayedNum];
          reusedPFServed := reusedPFServed + [replayedNum - uniqueNum];
        }
        latencies := latencies + 1;
      }
    }

    method ReadWorkingSet(a: FetchAnswers) returns (failed: bool)
      modifies this
      ensures trace == old(trace)
      ensures Fetch(View(), failed) == FetchState(old(View()), a)
    {
      if !a.vmmOk { return true; }
      var size := Bytes(|trace.trace|);
      if !a.openOk { return true; }
      var n := BytesRead(wsFile, size, a.read);
      workingSet := ReadInto(wsFile, size, n);
      if n != size || !a.readOk { return !a.readOk; }
      return !a.closeOk;
    }

    /** The bulk installation loop. */
    method InstallWorkingSetPages() returns (ok: bool)
      modifies this`uffd
      ensures ok <==> ServeBulk(old(View())).Some?
      ensures ok ==> View() == ServeBulk(old(View())).value
    {
      hide InstallAll, InstallRegion, Wrap, Listing;
      var keys := SortedKeys(trace.regions);
      var srcOffset: nat := 0;
      var i := 0;
      assert keys[..0] == [];
      InstallAllNil(uffd, workingSet, trace.regions, startAddress);
      while i < |keys|
        invariant 0 <= i <= |keys|
        invariant InstallAll(old(uffd), workingSet, keys[..i], trace.regions, startAddress) == Some(Progress(uffd, srcOffset))
      {
        var offset := keys[i];
        var regLength := Count(trace.regions, offset);
        assert keys[..i + 1] == keys[..i] + [offset];
        InstallAllSnoc(old(uffd), workingSet, keys[..i], offset, trace.regions, startAddress, Progress(uffd, srcOffset));
        if srcOffset >= |workingSet| || srcOffset + Bytes(regLength) > |workingSet| {
          InstallFails(old(uffd), workingSet, keys, trace.regions, startAddress, i + 1);
          return false;
        }
        var r := InstallRegion(uffd, workingSet[srcOffset..], Wrap(startAddress + offset), regLength);
        if r.None? {
          InstallFails(old(uffd), workingSet, keys, trace.regions, startAddress, i + 1);
          return false;
        }
        uffd := r.value;
        srcOffset := srcOffset + Bytes(regLength);
        i := i + 1;
      }
      assert keys[..i] == keys;
      return true;
    }

    /** False means that the process ends: an index out of range or a copy the kernel refuses. */
    method ServeFault(address: nat) returns (ok: bool)
      modifies this, trace
      ensures trace == old(trace)
      ensures ok <==> ServePageFault(old(View()), address).Some?
      ensures ok ==> View() == ServePageFault(old(View()), address).value
    {
      hide ServeOne, ServeBulk;
      if !firstFaultSeen {
        firstFaultSeen := true;
        startAddress := address;
        if isRecordReady && !cfg.isLazyMode {
          ok := InstallWorkingSetPages();
          return;
        }
      }
      ok := ServeMissing(address);
    }

    method ServeMissing(address: nat) returns (ok: bool)
      modifies this, trace
      ensures trace == old(trace)
      ensures ok <==> ServeOne(old(View()), address).Some?
      ensures ok ==> View() == ServeOne(old(View()), address).value
    {
      hide Wrap, InstallRegion;
      var offset := Wrap(address - startAddress);
      if offset + PAGE > |guestMem| { return false; }
      NoteOne(offset);
      var r := InstallRegion(uffd, guestMem[offset..], address - address % 4096, 1);
      if r.None? { return false; }
      uffd := r.value;
      return true;
    }

    method NoteOne(offset: nat)
      modifies this, trace
      ensures trace == old(trace)
      ensures View() == NoteFault(old(View()), offset)
    {
      if !isRecordReady {
        trace.AppendRecord(offset);
      } else if cfg.metricsModeOn {
        if cfg.isLazyMode {
          var contained := trace.ContainsRecord(offset);
          if !contained { uniqueNum := uniqueNum + 1; }
          replayedNum := replayedNum + 1;
        } else {
          uniqueNum := uniqueNum + 1;
        }
      }
    }
  }

  lemma InstallAllNil(u: Uffd, ws: seq<Byte>, regions: RegionMap, start: nat)
    ensures InstallAll(u, ws, [], regions, start) == Some(Progress(u, 0))
  {
  }

  lemma {:induction false} InstallFails(u: Uffd, ws: seq<Byte>, keys: seq<nat>, regions: RegionMap, start: nat, i: nat)
    requires i <= |keys| && InstallAll(u, ws, keys[..i], regions, start) == None
    ensures InstallAll(u, ws, keys, regions, start) == None
    decreases |keys|
  {
    if i < |keys| {
      assert keys[..|keys| - 1][..i] == keys[..i];
      InstallFails(u, ws, keys[..|keys| - 1], regions, start, i);
    } else {
      assert keys[..i] == keys;
    }
  }
}
