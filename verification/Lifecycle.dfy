/** The life of the registered VMs over every sequence of calls and page faults. */
module Lifecycle {
  import opened Options
  import opened Sorting
  import opened Regions
  import opened WorkingSet
  import opened Traces
  import opened SnapshotStates
  import opened PageFaults
  import opened MemoryManagers

  /** What holds of a VM after any calls, even when a replay is started without its working set. */
  ghost predicate Kept(s: State) {
    && Flags(s)
    && TraceKept(s)
    && StatsKept(s.cfg, s.stats)
    && (s.isPolling && !s.isRecordReady ==> Serving(s))
  }

  ghost predicate AllKept(m: Manager) {
    forall i :: i in m.instances ==> Kept(m.instances[i])
  }

  /** The facts the environment provides: whole pages of guest memory, an aligned guest range in the
      address space, faults only on absent pages of a served guest and the first one at its base. */
  ghost predicate Possible(m: Manager, op: Op) {
    match op
    case Register(cfg) => |cfg.mem| % 4096 == 0
    case Activate(vmID, _, _, base) =>
      vmID in m.instances ==> GuestRange(Uffd(base, |m.instances[vmID].cfg.mem|, map[]), m.instances[vmID].cfg.mem)
    case PageFault(vmID, address) =>
      vmID in m.instances && m.instances[vmID].isPolling ==> Fault(m.instances[vmID], address)
    case _ => true
  }

  /** The record of a VM: its trace, regions and working-set file. */
  ghost predicate SameRecord(s: State, s': State) {
    && s'.isRecordReady == s.isRecordReady && s'.cfg == s.cfg
    && s'.trace == s.trace && s'.contained == s.contained
    && s'.regions == s.regions && s'.wsFile == s.wsFile
  }

  /** What a fault after the recording can change: nothing but the pages, the first fault and the counts. */
  ghost predicate SameButPages(s: State, s': State) {
    s' == s.(firstFaultSeen := s'.firstFaultSeen, startAddress := s'.startAddress, uffd := s'.uffd, stats := s'.stats)
    && (StatsKept(s.cfg, s.stats) ==> StatsKept(s.cfg, s'.stats))
  }

  lemma ServeOneFrame(s: State, a: nat)
    requires s.isRecordReady && ServeOne(s, a).Some?
    ensures SameButPages(s, ServeOne(s, a).value)
  {
    hide InstallRegion, Wrap;
  }

  lemma ServeBulkFrame(s: State)
    requires ServeBulk(s).Some?
    ensures SameButPages(s, ServeBulk(s).value)
  {
    hide InstallAll, Listing;
  }

  lemma FaultKeepsRecord(s: State, a: nat)
    requires s.isRecordReady && ServePageFault(s, a).Some?
    ensures var s' := ServePageFault(s, a).value;
      && SameRecord(s, s') && s'.isEverActivated == s.isEverActivated && s'.isActive == s.isActive && s'.isPolling == s.isPolling
      && s'.workingSet == s.workingSet
      && (StatsKept(s.cfg, s.stats) ==> StatsKept(s'.cfg, s'.stats))
  {
    hide ServeOne, ServeBulk, StatsKept;
    if s.firstFaultSeen { ServeOneFrame(s, a); }
    else if s.cfg.isLazyMode { ServeOneFrame(FirstFault(s, a), a); }
    else { ServeBulkFrame(FirstFault(s, a)); }
  }

  lemma FaultKeeps(s: State, a: nat)
    requires Kept(s) && Fault(s, a) && ServePageFault(s, a).Some?
    ensures Kept(ServePageFault(s, a).value)
  {
    hide ServePageFault, Recorded, Faithful, Encode, Sort, Pages, StatsKept, Serving, Fault, Counted;
    if s.isRecordReady { FaultKeepsRecord(s, a); } else { RecordingStep(s, a); }
  }

  lemma ActivateKeeps(s: State, mapOk: bool, uffdOk: bool, base: nat)
    requires Kept(s)
    requires GuestRange(Uffd(base, |s.cfg.mem|, map[]), s.cfg.mem)
    ensures Kept(ActivateVM(s, mapOk, uffdOk, base).state)
    ensures ActivateVM(s, mapOk, uffdOk, base).reply != Died
    ensures SameRecord(s, ActivateVM(s, mapOk, uffdOk, base).state)
  {
    hide Recorded, Encode, Sort, Pages, PageAt;
  }

  lemma FetchKeeps(s: State, a: FetchAnswers)
    requires Kept(s)
    ensures Kept(FetchVM(s, a).state) && SameRecord(s, FetchVM(s, a).state) && FetchVM(s, a).reply != Died
  {
    hide Recorded, Encode, Sort, Pages, Serving, ReadInto;
    if s.isRecordReady && !s.cfg.isLazyMode {
      CompactedFile(s.cfg.mem, s.trace);
      FetchFills(s, a);
    }
  }

  lemma FetchFills(s: State, a: FetchAnswers)
    ensures var ws := FetchState(s, a).state.workingSet; ws == s.workingSet || |ws| == Bytes(|s.trace|)
  {
  }

  lemma MetricsKeep(s: State)
    ensures StatsKept(s.cfg, s.stats) ==> StatsKept(s.cfg, ProcessMetrics(s).stats)
    ensures SameRecord(s, ProcessMetrics(s)) && ProcessMetrics(s).(stats := s.stats) == s
  {
  }

  lemma SortAgain(mem: seq<Byte>, t: seq<nat>)
    requires Recorded(mem, t)
    ensures Sort(Sort(t)) == Sort(t)
  {
    hide Sort, Recorded;
    SortKeepsRecorded(mem, t);
    SortKeepsRecorded(mem, Sort(t));
    AscendingUnique(Sort(Sort(t)), Sort(t));
  }

  /** The end of the recording activation: the trace is sorted, the regions and the working-set
      file are built, and the process does not end. */
  lemma RecordingEnds(s: State)
    requires TraceKept(s) && !s.isRecordReady
    ensures var o := FinishVM(s);
      && o.reply == Done && o.state.isRecordReady && !o.state.isActive && TraceKept(o.state)
      && (forall x :: x in o.state.trace <==> x in s.trace) && |o.state.trace| == |s.trace|
      && o.state.stats == s.stats && o.state.cfg == s.cfg && o.state.isEverActivated == s.isEverActivated
      && o.state.isPolling == s.isPolling
  {
    hide Recorded, Encode, Sort, Pages, Compact, Listing;
    SortKeepsRecorded(s.cfg.mem, s.trace);
    SortAgain(s.cfg.mem, s.trace);
    CompactedFile(s.cfg.mem, s.trace);
  }

  lemma DeactivateKeeps(s: State, unmapOk: bool)
    requires Kept(s)
    ensures DeactivateVM(s, unmapOk).reply != Died && Kept(DeactivateVM(s, unmapOk).state)
    ensures s.isRecordReady ==> SameRecord(s, DeactivateVM(s, unmapOk).state)
  {
    hide Recorded, Encode, Sort, Pages, Compact, Listing, Serving, StatsKept;
    var s' := s.(isPolling := false, guestMem := []);
    MetricsKeep(s');
    if !s.isRecordReady {
      RecordingEnds(ProcessMetrics(s'));
    }
  }

  /** Every call and every fault keeps what holds of every VM, and only a replay can die. */
  lemma StepKeeps(m: Manager, op: Op)
    requires AllKept(m) && Possible(m, op)
    ensures Step(m, op).reply != Died ==> AllKept(Step(m, op).manager)
    ensures Step(m, op).reply == Died ==>
      op.PageFault? && op.vmID in m.instances && m.instances[op.vmID].isRecordReady
  {
    hide Kept, ServePageFault, ActivateVM, FetchVM, DeactivateVM, Fault;
    match op
    case Register(cfg) => NewKept(cfg.(metricsModeOn := m.metricsModeOn));
    case Deregister(vmID) =>
    case Activate(vmID, mapOk, uffdOk, base) =>
      if vmID in m.instances { ActivateKeeps(m.instances[vmID], mapOk, uffdOk, base); }
    case FetchOp(vmID, answers) =>
      if vmID in m.instances { FetchKeeps(m.instances[vmID], answers); }
    case Deactivate(vmID, unmapOk) =>
      if vmID in m.instances { DeactivateKeeps(m.instances[vmID], unmapOk); }
    case PageFault(vmID, address) =>
      if vmID in m.instances && m.instances[vmID].isPolling {
        FaultOutcome(m.instances[vmID], address);
      }
  }

  lemma NewKept(cfg: Config)
    ensures Kept(NewState(cfg))
  {
  }

  lemma FaultOutcome(s: State, a: nat)
    requires Kept(s) && Fault(s, a)
    ensures ServePageFault(s, a).Some? ==> Kept(ServePageFault(s, a).value)
    ensures ServePageFault(s, a).None? ==> s.isRecordReady
  {
    hide ServePageFault, Recorded, Faithful, Encode, Sort, Pages, StatsKept, Fault;
    if ServePageFault(s, a).Some? { FaultKeeps(s, a); }
    if !s.isRecordReady { RecordingStep(s, a); }
  }

  /** The manager after a sequence of calls and faults; None once the process has ended. */
  ghost function After(m: Manager, ops: seq<Op>): Option<Manager>
    decreases |ops|
  {
    if ops == [] then Some(m)
    else
      var r := Step(m, ops[0]);
      if r.reply == Died then None else After(r.manager, ops[1..])
  }

  ghost predicate Legal(m: Manager, ops: seq<Op>)
    decreases |ops|
  {
    ops == [] || (Possible(m, ops[0]) && (Step(m, ops[0]).reply != Died ==> Legal(Step(m, ops[0]).manager, ops[1..])))
  }

  /** Over every run, from a new manager or from any good one: active implies ever activated, the
      trace is recorded in the one recording activation, the replay structures are built once. */
  lemma {:induction false} LifecycleKept(m: Manager, ops: seq<Op>)
    requires AllKept(m) && Legal(m, ops)
    ensures After(m, ops).Some? ==> AllKept(After(m, ops).value)
    decreases |ops|
  {
    hide AllKept, Step, Possible;
    if ops != [] {
      StepKeeps(m, ops[0]);
      if Step(m, ops[0]).reply != Died { LifecycleKept(Step(m, ops[0]).manager, ops[1..]); }
    }
  }

  lemma FrozenStep(m: Manager, op: Op, vmID: string)
    requires AllKept(m) && Possible(m, op) && op != Deregister(vmID)
    requires vmID in m.instances && m.instances[vmID].isRecordReady
    requires Step(m, op).reply != Died
    ensures vmID in Step(m, op).manager.instances
    ensures SameRecord(m.instances[vmID], Step(m, op).manager.instances[vmID])
  {
    hide Kept, ServePageFault, ActivateVM, FetchVM, DeactivateVM, Fault;
    var s := m.instances[vmID];
    match op
    case Register(cfg) =>
    case Deregister(_) =>
    case Activate(id, mapOk, uffdOk, base) =>
      if id == vmID { ActivateKeeps(s, mapOk, uffdOk, base); }
    case FetchOp(id, answers) =>
      if id == vmID { FetchKeeps(s, answers); }
    case Deactivate(id, unmapOk) =>
      if id == vmID { DeactivateKeeps(s, unmapOk); }
    case PageFault(id, address) =>
      if id == vmID && s.isPolling { FaultKeepsRecord(s, address); }
  }

  /** Once a recording activation has completed, the trace, the regions and the working-set file of
      the VM stay as they are for as long as it is registered, whatever is called. */
  lemma {:induction false} RecordFrozen(m: Manager, ops: seq<Op>, vmID: string)
    requires AllKept(m) && Legal(m, ops) && Deregister(vmID) !in ops
    requires vmID in m.instances && m.instances[vmID].isRecordReady
    requires After(m, ops).Some?
    ensures vmID in After(m, ops).value.instances
    ensures SameRecord(m.instances[vmID], After(m, ops).value.instances[vmID])
    decreases |ops|
  {
    hide AllKept, Step, Possible;
    if ops != [] {
      StepKeeps(m, ops[0]);
      FrozenStep(m, ops[0], vmID);
      RecordFrozen(Step(m, ops[0]).manager, ops[1..], vmID);
    }
  }

  /** At every fetch the buffer that is sized from the trace is as long as the working-set file. */
  lemma FetchSizeIsFileSize(s: State)
    requires Kept(s) && s.isRecordReady && !s.cfg.isLazyMode
    ensures Bytes(|s.trace|) == |s.wsFile|
  {
    hide Encode, Sort, Pages, Recorded;
    CompactedFile(s.cfg.mem, s.trace);
  }

  /** For the traces that recording makes, the regions are the maximal runs of the recorded offsets,
      and their lengths add up to the trace's. */
  lemma RegionsOfRecordings(s: State)
    requires Kept(s) && s.isRecordReady && !s.cfg.isLazyMode
    ensures MaximalRuns(s.regions, Elems(s.trace))
    ensures PageCount(Listing(s.regions.Keys), s.regions) == |s.trace|
  {
    hide Encode, Sort, MaximalRuns, Listing, Pages, PageCount;
    SortKeepsRecorded(s.cfg.mem, s.trace);
    RegionsAreMaximalRuns(Sort(s.trace));
    LengthsAddUp(Sort(s.trace));
  }

  /** A fetch that succeeds with a full read leaves the whole working-set file in memory. */
  lemma FullReadFetches(s: State, a: FetchAnswers)
    requires Kept(s)
    requires FetchVM(s, a).reply == Done && a.read == Bytes(|s.trace|)
    ensures Fetched(FetchVM(s, a).state)
  {
    hide Encode, Sort, Pages, Recorded;
    if s.isRecordReady && !s.cfg.isLazyMode {
      FetchSizeIsFileSize(s);
      var f := s.wsFile;
      assert f[..|f|] + Zeros(0) == f;
    }
  }

  /** A fetch that reports success leaves the file in memory exactly when the part of the file that was
      not read is zero: a short read without an error is a success. */
  lemma FetchedIff(s: State, a: FetchAnswers)
    requires Kept(s) && s.isRecordReady && !s.cfg.isLazyMode && FetchVM(s, a).reply == Done
    ensures Fetched(FetchVM(s, a).state)
      <==> forall i :: BytesRead(s.wsFile, Bytes(|s.trace|), a.read) <= i < |s.wsFile| ==> s.wsFile[i] == 0
  {
    hide Encode, Sort, Pages, Recorded;
    FetchSizeIsFileSize(s);
    var n, f := BytesRead(s.wsFile, Bytes(|s.trace|), a.read), s.wsFile;
    var ws := ReadInto(f, |f|, n);
    assert forall i :: 0 <= i < |f| ==> ws[i] == if i < n then f[i] else 0;
    assert FetchVM(s, a).state.workingSet == ws;
  }

  /** One page that is nowhere zero, and a run that records it. */
  function FullPage(): seq<Byte> { seq(4096, i => 1) }

  function FullPageConfig(): Config { Config("vm", false, false, FullPage()) }

  function RecordOnePage(): seq<Op> {
    [Register(FullPageConfig()), Activate("vm", true, true, 0), PageFault("vm", 0), Deactivate("vm", true)]
  }

  lemma OnePageFaulted()
    ensures var s := ActivateVM(NewState(FullPageConfig()), true, true, 0).state;
      && ActivateVM(NewState(FullPageConfig()), true, true, 0).reply == Done
      && s.isPolling && ServePageFault(s, 0).Some? && Kept(ServePageFault(s, 0).value)
      && ServePageFault(s, 0).value.trace == [0] && Fault(s, 0)
      && var s' := ServePageFault(s, 0).value;
         s'.isPolling && s'.isActive && s'.isEverActivated && !s'.isRecordReady && s'.cfg == FullPageConfig() && s'.workingSet == []
  {
    hide ServePageFault, Encode, Sort, Pages, PageAt, FullPage;
    assert |FullPage()| == 4096 by { FullPageSize(); }
    var s := ActivateVM(NewState(FullPageConfig()), true, true, 0).state;
    assert Inv(s) && Fault(s, 0);
    RecordingStep(s, 0);
    assert ServePageFault(s, 0).value.trace == [] + [0];
  }

  lemma FullPageSize()
    ensures |FullPage()| == 4096 && forall i :: 0 <= i < 4096 ==> FullPage()[i] == 1
  {
  }

  lemma OnePageRecorded(s: State)
    requires Kept(s) && s.trace == [0] && s.cfg == FullPageConfig()
    requires s.isPolling && s.isActive && s.isEverActivated && !s.isRecordReady && s.workingSet == []
    ensures var o := DeactivateVM(s, true);
      && o.reply == Done && Kept(o.state) && o.state.isRecordReady && o.state.wsFile == FullPage() && o.state.cfg == s.cfg
      && |o.state.trace| == 1
  {
    hide Recorded, Encode, Sort, Pages, Compact, Listing, Serving, StatsKept, FullPage;
    DeactivateKeeps(s, true);
    var s' := ProcessMetrics(s.(isPolling := false, guestMem := []));
    MetricsKeep(s.(isPolling := false, guestMem := []));
    RecordingEnds(s');
    var t := FinishVM(s').state.trace;
    assert t[0] in t && t == [0];
    OnePageFile();
  }

  lemma StepFirst(m: Manager, op: Op, ops: seq<Op>)
    ensures After(m, [op] + ops) == if Step(m, op).reply == Died then None else After(Step(m, op).manager, ops)
    ensures Legal(m, [op] + ops) <==> Possible(m, op) && (Step(m, op).reply != Died ==> Legal(Step(m, op).manager, ops))
  {
    hide Step, Possible;
    assert ([op] + ops)[0] == op && ([op] + ops)[1..] == ops;
  }

  lemma NoSteps(m: Manager)
    ensures After(m, []) == Some(m) && Legal(m, [])
  {
  }

  function OneVM(s: State): Manager { Manager(false, map["vm" := s], false) }

  /** What a call for the one VM does. */
  lemma OneVMStep(s: State, op: Op)
    requires (op.Activate? || op.Deactivate? || op.FetchOp?) && op.vmID == "vm"
    ensures var o := match op
        case Activate(_, mapOk, uffdOk, base) => ActivateVM(s, mapOk, uffdOk, base)
        case Deactivate(_, unmapOk) => DeactivateVM(s, unmapOk)
        case FetchOp(_, answers) => FetchVM(s, answers)
        case _ => Outcome(s, Done);
      Step(OneVM(s), op) == Result(OneVM(o.state), o.reply)
  {
    hide ActivateVM, DeactivateVM, FetchVM;
    forall t: State ensures map["vm" := s]["vm" := t] == map["vm" := t] {}
  }

  lemma OneVMFault(s: State, a: nat)
    requires s.isPolling && ServePageFault(s, a).Some?
    ensures Step(OneVM(s), PageFault("vm", a)) == Result(OneVM(ServePageFault(s, a).value), Done)
  {
    hide ServePageFault;
    var t := ServePageFault(s, a).value;
    assert map["vm" := s]["vm" := t] == map["vm" := t];
  }

  /** A reachable input: after recording that page, a fetch whose read returns one byte and no error
      reports success, and the file is not in memory. */
  lemma ShortReadSucceeds()
    ensures var m0, fetch := Manager(false, map[], false), FetchOp("vm", FetchAnswers(true, true, 1, true, true));
      && AllKept(m0) && Legal(m0, RecordOnePage()) && After(m0, RecordOnePage()).Some?
      && var m := After(m0, RecordOnePage()).value;
         && AllKept(m) && Possible(m, fetch) && Step(m, fetch).reply == Done
         && "vm" in Step(m, fetch).manager.instances && !Fetched(Step(m, fetch).manager.instances["vm"])
  {
    hide ActivateVM, DeactivateVM, FetchVM, ServePageFault, Kept, Fetched, FullPage, Fault, After, Legal, Step;
    var cfg := FullPageConfig();
    var m0 := Manager(false, map[], false);
    var s1 := NewState(cfg);
    var s2 := ActivateVM(s1, true, true, 0).state;
    OnePageFaulted();
    var s3 := ServePageFault(s2, 0).value;
    OnePageRecorded(s3);
    var s4 := DeactivateVM(s3, true).state;
    var fault, stop := PageFault("vm", 0), Deactivate("vm", true);
    RegisterFirst(cfg);
    FullPageSize();
    OneVMStep(s1, Activate("vm", true, true, 0));
    OneVMFault(s2, 0);
    OneVMStep(s3, stop);
    NoSteps(OneVM(s4));
    StepFirst(OneVM(s3), stop, []);
    StepFirst(OneVM(s2), fault, [stop]);
    StepFirst(OneVM(s1), Activate("vm", true, true, 0), [fault, stop]);
    StepFirst(m0, Register(cfg), [Activate("vm", true, true, 0), fault, stop]);
    assert [stop] + [] == [stop] && [fault] + [stop] == [fault, stop];
    assert [Activate("vm", true, true, 0)] + [fault, stop] == [Activate("vm", true, true, 0), fault, stop];
    assert [Register(cfg)] + [Activate("vm", true, true, 0), fault, stop] == RecordOnePage();
    OneVMStep(s4, FetchOp("vm", FetchAnswers(true, true, 1, true, true)));
    OneByteRead(s4);
  }

  lemma RegisterFirst(cfg: Config)
    requires cfg.vmID == "vm" && !cfg.metricsModeOn
    ensures Step(Manager(false, map[], false), Register(cfg)) == Result(OneVM(NewState(cfg)), Done)
  {
    assert cfg.(metricsModeOn := false) == cfg;
  }

  lemma OneByteRead(s: State)
    requires Kept(s) && s.isRecordReady && s.wsFile == FullPage() && s.cfg == FullPageConfig() && |s.trace| == 1
    ensures var o := FetchVM(s, FetchAnswers(true, true, 1, true, true)); o.reply == Done && !Fetched(o.state)
  {
    hide Kept, Fetched, FullPage;
    var a := FetchAnswers(true, true, 1, true, true);
    FullPageSize();
    FetchedIff(s, a);
    assert s.wsFile[1] == 1;
  }

  lemma OnePageFile()
    ensures Pages(FullPage(), Sort([0])) == FullPage()
  {
    hide FullPage;
    FullPageSize();
    assert Sort([0]) == [0];
    assert [0][..0] == [];
    assert PageAt(FullPage(), 0) == FullPage();
  }

  /** A call leaves the manager's lock held exactly when it is an activation, a fetch or a
      deactivation of a VM that is not registered. */
  lemma LockLeftHeldIff(m: Manager, op: Op)
    requires !m.locked
    ensures Step(m, op).manager.locked <==>
      match op
      case Activate(id, _, _, _) => id !in m.instances
      case FetchOp(id, _) => id !in m.instances
      case Deactivate(id, _) => id !in m.instances
      case _ => false
  {
  }

  /** From then on every call waits for ever and no VM is registered or removed again. */
  lemma {:induction false} LockedForEver(m: Manager, ops: seq<Op>)
    requires m.locked && After(m, ops).Some?
    ensures After(m, ops).value.locked && After(m, ops).value.instances.Keys == m.instances.Keys
    decreases |ops|
  {
    if ops != [] {
      var m' := Step(m, ops[0]).manager;
      assert m'.locked && m'.instances.Keys == m.instances.Keys;
      LockedForEver(m', ops[1..]);
    }
  }
}
